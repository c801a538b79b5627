/** When a durable cancellation stays: exactly when nobody still holds a copy of the
    job's row that it is going to write back. */
module Cancellation {
  import opened Domain
  import opened EngineSteps
  import opened ServiceSteps
  import opened Orchestration
  import R = Redelivery
  import P = Progress

  /** A Run here will write its copy of the row once more, unless it stops. */
  predicate Pending(pc: Pc) { !Idle(pc) && !pc.FailDoc? && !pc.CancelledDoc? }

  predicate Threat(p: Proc, id: Id) {
    match p
    case Worker(r) => r.id == id && Pending(r.pc)
    case Retry(_, pc, j, _) => j.id == id && (pc == RUpdateDoc || pc == RPublish || pc == RUnpublished)
    case Upload(pc, _, j, _) => j.id == id && (pc == UPublish || pc == UUnpublished)
    case _ => false
  }

  ghost predicate Quiet(s: System, id: Id) {
    forall n :: n in s.procs ==> !Threat(s.procs[n], id)
  }

  predicate IsCancelled(w: World, id: Id) { id in w.jobs && w.jobs[id].status == Cancelled }

  // ---------- without a threat it stays ----------

  lemma QuietWorker(cfg: Config, w: World, r: Run, f: Fault, id: Id)
    requires RunOk(cfg, w, r) && IsCancelled(w, id) && !Threat(Worker(r), id)
    ensures var (w', r') := Step(cfg, w, r, f); IsCancelled(w', id) && !Threat(Worker(r'), id)
  {
    P.JobWrites(cfg, w, r, f);
    StepKeepsId(cfg, w, r, f);
    hide Step, P.RowWritten, CopyOf, DocCopyOf, Earned;
    if r.id == id {
      IdleStep(cfg, w, r, f);
    }
  }

  lemma EarlyKeepsId(cfg: Config, w: World, r: Run, f: Fault)
    ensures StepLoad(cfg, w, r, f).1.id == r.id && StepCheckpoint(cfg, w, r, f).1.id == r.id
    ensures StepExtract(cfg, w, r, f).1.id == r.id && StepEnd(cfg, w, r, f).1.id == r.id
  {
    hide Selected, HasRow, OcrPct, CheckpointProgress, CheckpointStage;
  }

  lemma LateKeepsId(cfg: Config, w: World, r: Run, f: Fault)
    ensures StepStore(cfg, w, r, f).1.id == r.id && StepExport(cfg, w, r, f).1.id == r.id
  {
    hide Selected, HasRow;
  }

  lemma OcrKeepsJob(cfg: Config, w: World, r: Run, f: Fault)
    requires r.pc.OcrBatch? || r.pc.OcrTick?
    ensures StepExtract(cfg, w, r, f).1.job.id == r.job.id
  {
    hide OcrPct;
  }

  lemma StepKeepsId(cfg: Config, w: World, r: Run, f: Fault)
    ensures Step(cfg, w, r, f).1.id == r.id
    ensures !r.pc.Begin? ==> P.RowWritten(cfg, w, r, f).id == r.job.id
  {
    EarlyKeepsId(cfg, w, r, f);
    LateKeepsId(cfg, w, r, f);
    if r.pc.OcrBatch? || r.pc.OcrTick? {
      OcrKeepsJob(cfg, w, r, f);
    }
    hide StepLoad, StepCheckpoint, StepExtract, StepStore, StepExport, StepEnd;
  }

  lemma IdleStep(cfg: Config, w: World, r: Run, f: Fault)
    requires !Pending(r.pc) && (r.pc.Begin? ==> IsCancelled(w, r.id))
    ensures var (w', r') := Step(cfg, w, r, f); w'.jobs == w.jobs && !Pending(r'.pc)
  {}

  lemma QuietUpload(cfg: Config, w: World, p: Proc, f: Fault, id: Id)
    requires p.Upload? && UploadOk(cfg, w, p.pc, p.udoc, p.ujob) && IsCancelled(w, id) && !Threat(p, id)
    ensures var (w', p') := StepUpload(w, p, f); IsCancelled(w', id) && p'.Upload? && !Threat(p', id)
  {
    hide CopyOf, JobOk;
  }

  lemma QuietCancel(cfg: Config, w: World, p: Proc, f: Fault, id: Id)
    requires p.Cancel? && CancelOk(cfg, w, p.cpc, p.cjob, p.cdoc) && IsCancelled(w, id)
    ensures var (w', p') := StepCancel(w, p, f); IsCancelled(w', id) && p'.Cancel?
  {
    hide CopyOf, CanTransition;
  }

  lemma QuietRetry(cfg: Config, w: World, p: Proc, f: Fault, id: Id)
    requires p.Retry? && IsCancelled(w, id) && id < w.nextId && !Threat(p, id)
    ensures var (w', p') := StepRetry(cfg, w, p, f); IsCancelled(w', id) && p'.Retry? && !Threat(p', id)
  {}

  lemma QuietProc(cfg: Config, w: World, p: Proc, f: Fault, pick: Id, id: Id)
    requires WorldOk(cfg, w) && ProcOk(cfg, w, p) && IsCancelled(w, id) && !Threat(p, id)
    ensures var (w', p') := StepProc(cfg, w, p, f, pick); IsCancelled(w', id) && !Threat(p', id)
  {
    assert id < w.nextId by { assert JobRowOk(cfg, w, id); }
    hide WorldOk, RunOk, HasRow, Step, UploadOk, CancelOk, RetryOk, OverwriteOk, StepUpload, StepCancel, StepRetry;
    match p
    case Worker(r) => QuietWorker(cfg, w, r, f, id);
    case Upload(_, _, _, _) => QuietUpload(cfg, w, p, f, id);
    case Cancel(_, _, _, _) => QuietCancel(cfg, w, p, f, id);
    case Retry(_, _, _, _) => QuietRetry(cfg, w, p, f, id);
    case _ =>
  }

  lemma QuietNext(cfg: Config, s: System, e: Event, id: Id)
    requires SystemOk(cfg, s) && IsCancelled(s.world, id) && Quiet(s, id)
    ensures var s' := Next(cfg, s, e); IsCancelled(s'.world, id) && Quiet(s', id)
  {
    hide StepProc, WorldOk, ProcOk;
    if e.Advance? && e.slot in s.procs {
      QuietProc(cfg, s.world, s.procs[e.slot], e.fault, e.pick, id);
    }
  }

  lemma {:induction false} QuietPlay(cfg: Config, s: System, events: seq<Event>, id: Id)
    requires SystemOk(cfg, s) && IsCancelled(s.world, id) && Quiet(s, id)
    ensures var s' := Play(cfg, s, events); SystemOk(cfg, s') && IsCancelled(s'.world, id) && Quiet(s', id)
    decreases |events|
  {
    hide SystemOk, Next, Quiet, IsCancelled;
    if events != [] {
      QuietPlay(cfg, s, events[..|events| - 1], id);
      var s' := Play(cfg, s, events[..|events| - 1]);
      NextKeeps(cfg, s', events[|events| - 1]);
      QuietNext(cfg, s', events[|events| - 1], id);
    }
  }

  // ---------- with a threat it can be lost ----------

  lemma {:induction false} PlayFirst(cfg: Config, s: System, e: Event, events: seq<Event>)
    ensures Play(cfg, s, [e] + events) == Play(cfg, Next(cfg, s, e), events)
    decreases |events|
  {
    hide Next;
    if events == [] {
      assert Play(cfg, s, []) == s;
      assert ([e] + events)[..0] == [];
    } else {
      PlayFirst(cfg, s, e, events[..|events| - 1]);
      assert ([e] + events)[..|[e] + events| - 1] == [e] + events[..|events| - 1];
    }
  }

  /** Outcomes that lead a Run to its next write of the row. */
  function Rush(pc: Pc): Fault {
    if pc.ReadPdf? || pc.PutCdom? || pc.CreateCdom? || pc.ReadCdom? || Exporting(pc) then StoreDown else Fine
  }

  lemma WorkerRushes(cfg: Config, w: World, r: Run)
    requires WorldOk(cfg, w) && RunOk(cfg, w, r) && Pending(r.pc) && IsCancelled(w, r.id)
    ensures
      var (w', r') := Step(cfg, w, r, Rush(r.pc));
      !IsCancelled(w', r.id) || (Pending(r'.pc) && IsCancelled(w', r.id) && r'.id == r.id)
  {
    P.JobWrites(cfg, w, r, Rush(r.pc));
    StepKeepsId(cfg, w, r, Rush(r.pc));
    assert JobRowOk(cfg, w, r.id);
    hide WorldOk, HasRow, Selected, Earned, JobRowOk, OcrPct, AfterNote, EnterExport, EnterExports;
    if P.WritesJob(r.pc, Rush(r.pc)) {
      assert P.RowWritten(cfg, w, r, Rush(r.pc)).status == r.job.status;
    } else {
      NotWriting(cfg, w, r);
    }
  }

  lemma NotWriting(cfg: Config, w: World, r: Run)
    requires RunOk(cfg, w, r) && Pending(r.pc) && IsCancelled(w, r.id) && !P.WritesJob(r.pc, Rush(r.pc))
    requires r.job.id == r.id && w.jobs[r.id].doc in w.docs
    ensures Pending(Step(cfg, w, r, Rush(r.pc)).1.pc)
  {
    hide HasRow, EarnedTo, Ready, OcrPct;
  }

  lemma {:induction false} WorkerUndoes(cfg: Config, s: System, n: nat, id: Id) returns (events: seq<Event>)
    requires SystemOk(cfg, s) && n in s.procs && s.procs[n].Worker? && Threat(s.procs[n], id)
      && IsCancelled(s.world, id)
    ensures !IsCancelled(Play(cfg, s, events).world, id)
    decreases R.Phase(s.procs[n].run.pc), R.Remaining(cfg, s.procs[n].run)
  {
    hide WorldOk, RunOk, Step, Rush, Pending;
    var r := s.procs[n].run;
    assert ProcOk(cfg, s.world, s.procs[n]);
    var e := Advance(n, Rush(r.pc), 0);
    var s' := Next(cfg, s, e);
    WorkerRushes(cfg, s.world, r);
    NextKeeps(cfg, s, e);
    if IsCancelled(s'.world, id) {
      PendingGoesOn(r.pc);
      R.StepDescends(cfg, s.world, r, Rush(r.pc));
      var rest := WorkerUndoes(cfg, s', n, id);
      PlayFirst(cfg, s, e, rest);
      events := [e] + rest;
    } else {
      PlayFirst(cfg, s, e, []);
      events := [e] + [];
    }
  }

  /** The copy is of a job that can still get somewhere. */
  predicate Live(r: Run) { r.job.status != Failed || r.pc.FailJob? }

  lemma LoadGoesOn(cfg: Config, w: World, r: Run)
    requires RunOk(cfg, w, r) && Live(r) && (r.pc.LoadDoc? || r.pc.MarkDoc? || r.pc.FindCdom?)
    requires w.jobs[r.job.id].doc in w.docs
    ensures var r' := StepLoad(cfg, w, r, Fine).1; Pending(r'.pc) && Live(r')
  {
    hide HasRow, EarnedTo, Ready, Selected;
  }

  lemma CheckGoesOn(cfg: Config, w: World, r: Run)
    requires RunOk(cfg, w, r) && Live(r) && r.pc.Check?
    ensures var r' := StepCheckpoint(cfg, w, r, Fine).1; Pending(r'.pc) && Live(r')
  {
    hide HasRow, EarnedTo, Ready, Selected;
  }

  lemma ExtractGoesOn(cfg: Config, w: World, r: Run)
    requires RunOk(cfg, w, r) && Live(r) && (r.pc.ReadPdf? || r.pc.SavePages? || r.pc.OcrMerge?)
    ensures var r' := StepExtract(cfg, w, r, Fine).1; Pending(r'.pc) && Live(r')
  {
    hide HasRow, EarnedTo, Ready, Selected, OcrPct;
  }

  lemma StoreGoesOn(cfg: Config, w: World, r: Run)
    requires RunOk(cfg, w, r) && Live(r) && (r.pc.PutCdom? || r.pc.CreateCdom? || r.pc.ReadCdom?)
    ensures var r' := StepStore(cfg, w, r, Fine).1; Pending(r'.pc) && Live(r')
  {
    hide HasRow, EarnedTo, Ready, Selected, CreateArtifact;
  }

  lemma ExportGoesOn(cfg: Config, w: World, r: Run)
    requires RunOk(cfg, w, r) && Live(r) && Exporting(r.pc)
    ensures var r' := StepExport(cfg, w, r, Fine).1; Pending(r'.pc) && Live(r')
  {
    hide HasRow, EarnedTo, Ready, Selected, CreateArtifact;
  }

  lemma EndGoesOn(cfg: Config, w: World, r: Run)
    requires RunOk(cfg, w, r) && Live(r) && r.pc.CompleteDoc?
    ensures var r' := StepEnd(cfg, w, r, Fine).1; Pending(r'.pc) && Live(r')
  {
    hide HasRow, EarnedTo, Ready, Selected;
  }

  /** Without an error a Run goes on until it writes its row. */
  lemma GoesOn(cfg: Config, w: World, r: Run)
    requires RunOk(cfg, w, r) && Pending(r.pc) && Live(r) && IsCancelled(w, r.id) && !P.WritesJob(r.pc, Fine)
    requires r.job.id == r.id && w.jobs[r.id].doc in w.docs
    ensures var r' := Step(cfg, w, r, Fine).1; Pending(r'.pc) && Live(r')
  {
    hide RunOk, Live, StepLoad, StepCheckpoint, StepExtract, StepStore, StepExport, StepEnd;
    match r.pc
    case LoadDoc => LoadGoesOn(cfg, w, r);
    case MarkDoc => LoadGoesOn(cfg, w, r);
    case FindCdom => LoadGoesOn(cfg, w, r);
    case Check(_) => CheckGoesOn(cfg, w, r);
    case ReadPdf => ExtractGoesOn(cfg, w, r);
    case SavePages => ExtractGoesOn(cfg, w, r);
    case OcrMerge => ExtractGoesOn(cfg, w, r);
    case PutCdom => StoreGoesOn(cfg, w, r);
    case CreateCdom => StoreGoesOn(cfg, w, r);
    case ReadCdom => StoreGoesOn(cfg, w, r);
    case FindExport(_) => ExportGoesOn(cfg, w, r);
    case PutExport(_) => ExportGoesOn(cfg, w, r);
    case CreateExport(_) => ExportGoesOn(cfg, w, r);
    case CompleteDoc => EndGoesOn(cfg, w, r);
  }

  /** The cancellation is lost already, or the Run is still going to write its copy. */
  predicate Undoing(w: World, r: Run, id: Id) {
    r.id == id && (!IsCancelled(w, id) || (Pending(r.pc) && Live(r)))
  }

  lemma UndoingStep(cfg: Config, w: World, r: Run, id: Id)
    requires WorldOk(cfg, w) && RunOk(cfg, w, r) && Undoing(w, r, id)
    ensures var (w', r') := Step(cfg, w, r, Fine); Undoing(w', r', id)
  {
    P.JobWrites(cfg, w, r, Fine);
    StepKeepsId(cfg, w, r, Fine);
    if P.WritesJob(r.pc, Fine) {
      RowNotCancelled(cfg, w, r);
    }
    if IsCancelled(w, id) {
      assert JobRowOk(cfg, w, r.id);
      if !P.WritesJob(r.pc, Fine) {
        GoesOn(cfg, w, r);
      }
    }
    hide WorldOk, Earned, JobRowOk, Step, Live, P.RowWritten;
  }

  lemma RowNotCancelled(cfg: Config, w: World, r: Run)
    requires RunOk(cfg, w, r) && P.WritesJob(r.pc, Fine)
    ensures P.RowWritten(cfg, w, r, Fine).status != Cancelled
  {
    hide OcrPct, Earned;
  }

  function Alone(n: nat, k: nat): (events: seq<Event>)
    ensures |events| == k && forall i :: 0 <= i < k ==> events[i] == Advance(n, Fine, 0)
  {
    seq(k, i => Advance(n, Fine, 0))
  }

  /** Left alone and without an error, a Run that holds a copy of a job that has not failed
      overwrites the cancellation by the time it ends. */
  lemma ErrorFreeRunUndoes(cfg: Config, s: System, n: nat, id: Id, k: nat)
    requires SystemOk(cfg, s) && n in s.procs && s.procs[n].Worker? && Threat(s.procs[n], id) && Live(s.procs[n].run)
    ensures
      var t := Play(cfg, s, Alone(n, k));
      n in t.procs && t.procs[n].Worker? && (t.procs[n].run.pc.Done? ==> !IsCancelled(t.world, id))
  {
    StaysUndoing(cfg, s, n, id, k);
  }

  lemma {:induction false} StaysUndoing(cfg: Config, s: System, n: nat, id: Id, k: nat)
    requires SystemOk(cfg, s) && n in s.procs && s.procs[n].Worker? && Undoing(s.world, s.procs[n].run, id)
    ensures
      var t := Play(cfg, s, Alone(n, k));
      SystemOk(cfg, t) && n in t.procs && t.procs[n].Worker? && Undoing(t.world, t.procs[n].run, id)
    decreases k
  {
    hide SystemOk, Undoing, Step, Alone;
    NoneAlone(cfg, s, n);
    if k > 0 {
      StaysUndoing(cfg, s, n, id, k - 1);
      var t := Play(cfg, s, Alone(n, k - 1));
      OneMoreAlone(cfg, s, n, k);
      hide Play;
      NextKeeps(cfg, t, Advance(n, Fine, 0));
      OfSystem(cfg, t, n);
      UndoingStep(cfg, t.world, t.procs[n].run, id);
    }
  }

  lemma NoneAlone(cfg: Config, s: System, n: nat)
    ensures Play(cfg, s, Alone(n, 0)) == s
  {}

  lemma OneMoreAlone(cfg: Config, s: System, n: nat, k: nat)
    requires k > 0
    ensures Play(cfg, s, Alone(n, k)) == Next(cfg, Play(cfg, s, Alone(n, k - 1)), Advance(n, Fine, 0))
  {
    hide Next;
    assert Alone(n, k)[..k - 1] == Alone(n, k - 1);
  }

  lemma OfSystem(cfg: Config, s: System, n: nat)
    requires SystemOk(cfg, s) && n in s.procs && s.procs[n].Worker?
    ensures WorldOk(cfg, s.world) && RunOk(cfg, s.world, s.procs[n].run)
  {
    assert ProcOk(cfg, s.world, s.procs[n]);
  }

  lemma PendingGoesOn(pc: Pc)
    requires Pending(pc)
    ensures !pc.Done?
  {}

  predicate Publishing(p: Proc, id: Id) { !p.Worker? && Threat(p, id) }

  /** Calls until a retry or an upload whose message cannot be published marks its job failed. */
  function Unpublished(p: Proc): nat {
    match p
    case Retry(_, pc, _, _) => if pc == RUpdateDoc then 2 else if pc == RPublish then 1 else 0
    case Upload(pc, _, _, _) => if pc == UPublish then 1 else 0
    case _ => 0
  }

  lemma PublisherRushes(cfg: Config, w: World, p: Proc, id: Id)
    requires Publishing(p, id) && IsCancelled(w, id) && ProcOk(cfg, w, p)
    ensures
      var (w', p') := StepProc(cfg, w, p, if Unpublished(p) == 1 then StoreDown else Fine, 0);
      !IsCancelled(w', id) || (Publishing(p', id) && IsCancelled(w', id) && Unpublished(p') < Unpublished(p))
  {}

  lemma {:induction false} PublisherUndoes(cfg: Config, s: System, n: nat, id: Id) returns (events: seq<Event>)
    requires SystemOk(cfg, s) && n in s.procs && Publishing(s.procs[n], id) && IsCancelled(s.world, id)
    ensures !IsCancelled(Play(cfg, s, events).world, id)
    decreases Unpublished(s.procs[n])
  {
    var p := s.procs[n];
    var e := Advance(n, if Unpublished(p) == 1 then StoreDown else Fine, 0);
    var s' := Next(cfg, s, e);
    PublisherRushes(cfg, s.world, p, id);
    NextKeeps(cfg, s, e);
    hide StepProc, Publishing, Unpublished, SystemOk;
    var rest := [];
    if IsCancelled(s'.world, id) {
      rest := PublisherUndoes(cfg, s', n, id);
    }
    PlayFirst(cfg, s, e, rest);
    events := [e] + rest;
  }

  /** A cancellation that has reached the stores is final if and only if no Run, and
      no upload or retry that created the job, still holds a copy to write back. */
  lemma CancellationFinalIffQuiet(cfg: Config, events: seq<Event>, id: Id)
    requires IsCancelled(Orchestration.Play(cfg, EMPTY, events).world, id)
    ensures
      var s := Play(cfg, EMPTY, events);
      Quiet(s, id) <==> forall more :: IsCancelled(Play(cfg, s, more).world, id)
  {
    PlayKeeps(cfg, events);
    var s := Play(cfg, EMPTY, events);
    if Quiet(s, id) {
      forall more
        ensures IsCancelled(Play(cfg, s, more).world, id)
      {
        QuietPlay(cfg, s, more, id);
      }
    } else {
      var n :| n in s.procs && Threat(s.procs[n], id);
      var more;
      if s.procs[n].Worker? {
        more := WorkerUndoes(cfg, s, n, id);
      } else {
        more := PublisherUndoes(cfg, s, n, id);
      }
      assert !IsCancelled(Play(cfg, s, more).world, id);
    }
  }

  // ---------- it happens ----------

  lemma Snoc(cfg: Config, s: System, events: seq<Event>, e: Event)
    ensures Play(cfg, s, events + [e]) == Next(cfg, Play(cfg, s, events), e)
  {
    hide Next;
    assert (events + [e])[..|events|] == events;
  }

  const QUEUED := Job(1, 0, Queued, AtQueued, 0, NoError, 0, 0, None)

  /** An upload up to its publication. */
  lemma UploadPlayed(cfg: Config, payload: Bytes) returns (events: seq<Event>)
    ensures
      var s := Play(cfg, EMPTY, events);
      && 1 in s.world.jobs && s.world.jobs[1] == QUEUED && s.procs.Keys == {0}
      && s.procs[0].Upload? && s.procs[0].pc == UPublish && s.procs[0].ujob == QUEUED
  {
    var p := Upload(UPut, NO_DOC, NO_JOB, payload);
    var go := Advance(0, Fine, 0);
    var s1 := Next(cfg, EMPTY, Spawn(0, p));
    var s2 := Next(cfg, s1, go);
    var s3 := Next(cfg, s2, go);
    events := [];
    assert Play(cfg, EMPTY, events) == EMPTY;
    Snoc(cfg, EMPTY, events, Spawn(0, p));
    Snoc(cfg, EMPTY, events + [Spawn(0, p)], go);
    Snoc(cfg, EMPTY, events + [Spawn(0, p)] + [go], go);
    Snoc(cfg, EMPTY, events + [Spawn(0, p)] + [go] + [go], go);
    events := events + [Spawn(0, p)] + [go] + [go] + [go];
    assert s2.procs[0].pc == UCreateDoc;
    assert s3.procs[0].pc == UCreateJob && s3.world.jobs == map[];
  }

  lemma LoadedPlayed(cfg: Config, events: seq<Event>) returns (all: seq<Event>)
    requires var s := Play(cfg, EMPTY, events); 1 in s.world.jobs && s.world.jobs[1] == QUEUED
    ensures
      var s, t := Play(cfg, EMPTY, events), Play(cfg, EMPTY, all);
      t == s.(procs := s.procs[1 := Worker(Start(1).(job := QUEUED, pc := LoadDoc))])
  {
    hide Play;
    Snoc(cfg, EMPTY, events, Spawn(1, Worker(Start(1))));
    Snoc(cfg, EMPTY, events + [Spawn(1, Worker(Start(1)))], Advance(1, Fine, 0));
    all := events + [Spawn(1, Worker(Start(1)))] + [Advance(1, Fine, 0)];
    var s := Play(cfg, EMPTY, events);
    assert s.procs[1 := Worker(Start(1))][1 := Worker(Start(1).(job := QUEUED, pc := LoadDoc))]
        == s.procs[1 := Worker(Start(1).(job := QUEUED, pc := LoadDoc))];
  }

  lemma CancelPlayed(cfg: Config, events: seq<Event>) returns (all: seq<Event>)
    requires var s := Play(cfg, EMPTY, events); 1 in s.world.jobs && s.world.jobs[1] == QUEUED
    ensures
      var s, t := Play(cfg, EMPTY, events), Play(cfg, EMPTY, all);
      IsCancelled(t.world, 1) && forall n :: n in s.procs && n != 2 ==> n in t.procs && t.procs[n] == s.procs[n]
  {
    hide Play;
    var c, go := Spawn(2, Cancel(1, CGetJob, NO_JOB, NO_DOC)), Advance(2, Fine, 0);
    Snoc(cfg, EMPTY, events, c);
    Snoc(cfg, EMPTY, events + [c], go);
    Snoc(cfg, EMPTY, events + [c] + [go], go);
    all := events + [c] + [go] + [go];
  }

  /** A Run loads an uploaded job, the job is cancelled, and the Run writes its copy back. */
  lemma RunUndoesCancellation(cfg: Config, payload: Bytes) returns (before: seq<Event>, more: seq<Event>)
    ensures
      var s := Play(cfg, EMPTY, before);
      && IsCancelled(s.world, 1) && 1 in s.procs && s.procs[1].Worker? && Threat(s.procs[1], 1) && Live(s.procs[1].run)
      && !IsCancelled(Play(cfg, s, more).world, 1)
  {
    before := UploadPlayed(cfg, payload);
    hide Play;
    before := LoadedPlayed(cfg, before);
    before := CancelPlayed(cfg, before);
    PlayKeeps(cfg, before);
    hide SystemOk;
    more := WorkerUndoes(cfg, Play(cfg, EMPTY, before), 1, 1);
  }

  /** A job is cancelled before its upload finds that it cannot publish it. */
  lemma PublisherUndoesCancellation(cfg: Config, payload: Bytes) returns (before: seq<Event>, more: seq<Event>)
    ensures
      var s := Play(cfg, EMPTY, before);
      && IsCancelled(s.world, 1) && 0 in s.procs && Publishing(s.procs[0], 1)
      && !IsCancelled(Play(cfg, s, more).world, 1)
  {
    before := UploadPlayed(cfg, payload);
    hide Play;
    before := CancelPlayed(cfg, before);
    PlayKeeps(cfg, before);
    hide SystemOk;
    more := PublisherUndoes(cfg, Play(cfg, EMPTY, before), 0, 1);
  }
}
