/** Any number of Runs and use cases, interleaved at every storage call, with
    store errors, rejected inputs and crashed processes at any point. */
module Orchestration {
  import opened Domain
  import opened EngineSteps
  import opened ServiceSteps

  // ---------- the system ----------

  datatype System = System(world: World, procs: map<nat, Proc>)

  /** Spawning a Worker stands for any delivery or redelivery of a job message. */
  datatype Event =
    | Spawn(slot: nat, proc: Proc)
    | Advance(slot: nat, fault: Fault, pick: Id)
    | Crash(slot: nat)

  const EMPTY := System(World(map[], map[], map[], map[], 0), map[])

  function Next(cfg: Config, s: System, e: Event): System {
    match e
    case Spawn(n, p) => if Fresh(p) then s.(procs := s.procs[n := p]) else s
    case Advance(n, f, pick) =>
      if n !in s.procs then s
      else
        var (w, p) := StepProc(cfg, s.world, s.procs[n], f, pick);
        System(w, s.procs[n := p])
    case Crash(n) => s.(procs := s.procs - {n})
  }

  function Play(cfg: Config, s: System, events: seq<Event>): System
    decreases |events|
  {
    if events == [] then s else Next(cfg, Play(cfg, s, events[..|events| - 1]), events[|events| - 1])
  }

  // ---------- what holds of the stores ----------

  /** The document has its CDOM and one export of every selected format. */
  ghost predicate Ready(cfg: Config, w: World, doc: Id, formats: seq<string>) {
    && HasRow(w, doc, CdomKind, Json)
    && Selected(cfg, formats) != []
    && forall f :: f in Selected(cfg, formats) ==> HasRow(w, doc, ExportKind, f)
  }

  predicate JobOk(cfg: Config, j: Job) {
    && j.born <= j.attempts <= j.born + 1
    && j.born < MaxAttempts(cfg.maxAttempts)
    && (j.status == Queued ==> j.attempts == j.born)
  }

  /** A row that belongs to the store: same identity as the row kept there. */
  predicate CopyOf(cfg: Config, w: World, j: Job) {
    j.id in w.jobs && SameJob(j, w.jobs[j.id]) && JobOk(cfg, j)
  }

  predicate DocCopyOf(w: World, d: Document) {
    d.id in w.docs && d.formats == w.docs[d.id].formats
  }

  ghost predicate ParentOk(w: World, j: Job) {
    j.origin.Some? ==> j.origin.value in w.jobs && w.jobs[j.origin.value].born < j.born
  }

  ghost predicate JobRowOk(cfg: Config, w: World, id: Id) {
    id in w.jobs ==>
      && var j := w.jobs[id];
      && j.id == id && id < w.nextId && j.doc in w.docs && JobOk(cfg, j) && ParentOk(w, j)
      && (j.origin == None ==> j.born == 0)
      && (j.status == Completed ==> Ready(cfg, w, j.doc, w.docs[j.doc].formats))
  }

  ghost predicate ArtRowOk(w: World, id: Id) {
    id in w.arts ==> w.arts[id].id == id && id < w.nextId && w.arts[id].key in w.objects
  }

  predicate DocRowOk(w: World, id: Id) {
    id in w.docs ==> w.docs[id].id == id && id < w.nextId
  }

  ghost predicate WorldOk(cfg: Config, w: World) {
    && (forall id :: JobRowOk(cfg, w, id))
    && (forall id :: ArtRowOk(w, id))
    && (forall id :: DocRowOk(w, id))
  }

  // ---------- what a process knows ----------

  ghost predicate EarnedTo(cfg: Config, w: World, r: Run, i: nat) {
    var sel := Selected(cfg, r.doc.formats);
    && HasRow(w, r.doc.id, CdomKind, Json)
    && sel != []
    && forall j :: 0 <= j < i && j < |sel| ==> HasRow(w, r.doc.id, ExportKind, sel[j])
  }

  predicate Idle(pc: Pc) { pc.Begin? || pc.Done? }

  predicate CdomStored(pc: Pc) { pc.Resume? || pc.ReadCdom? || pc == Check(Export) || pc == Note(Export) }

  predicate Exporting(pc: Pc) { pc.FindExport? || pc.PutExport? || pc.CreateExport? }

  predicate Completing(pc: Pc) { pc.CompleteJob? || pc.CompleteDoc? || pc.CompleteNote? }

  /** The rows and objects a Run has established by the time it reaches a point. */
  ghost predicate Earned(cfg: Config, w: World, r: Run) {
    && (CdomStored(r.pc) ==> HasRow(w, r.doc.id, CdomKind, Json))
    && (r.pc.ReadCdom? ==> Selected(cfg, r.doc.formats) != [])
    && (r.pc.CreateCdom? ==> CdomFile(r.doc.id) in w.objects)
    && (Exporting(r.pc) ==> r.pc.i < |Selected(cfg, r.doc.formats)| && EarnedTo(cfg, w, r, r.pc.i))
    && (r.pc.CreateExport? ==>
          Output(r.doc.id, Selected(cfg, r.doc.formats)[r.pc.i]) in w.objects)
    && (Completing(r.pc) ==> Ready(cfg, w, r.doc.id, r.doc.formats))
  }

  ghost predicate RunOk(cfg: Config, w: World, r: Run) {
    Idle(r.pc) ||
    (&& CopyOf(cfg, w, r.job) && r.job.id == r.id && r.job.status != Cancelled
     && (r.job.status == Completed <==> Completing(r.pc))
     && (r.pc != LoadDoc ==> DocCopyOf(w, r.doc) && r.doc.id == r.job.doc && r.job.status != Queued)
     && (r.pc == MarkDoc ==> r.job.attempts == r.job.born)
     && Earned(cfg, w, r))
  }

  predicate UploadOk(cfg: Config, w: World, pc: UploadPc, d: Document, j: Job) {
    && (pc == UCreateDoc ==> d.id < w.nextId)
    && (pc == UCreateJob ==> d.id in w.docs)
    && (pc == UCreateDoc || pc == UCreateJob ==>
          j.doc == d.id && j.id < w.nextId && JobOk(cfg, j) && j.origin == None && j.born == 0 && j.status == Queued)
    && (pc == UPublish || pc == UUnpublished ==> CopyOf(cfg, w, j) && j.status != Completed)
    && (pc == UUnpublished ==> j.status == Failed)
  }

  predicate CancelOk(cfg: Config, w: World, pc: CancelPc, j: Job, d: Document) {
    && (pc == CUpdateJob ==> CopyOf(cfg, w, j) && j.status == Cancelled)
    && (pc == CUpdateDoc ==> DocCopyOf(w, d))
  }

  predicate RetryOk(cfg: Config, w: World, id: Id, pc: RetryPc, j: Job, d: Document) {
    && (pc == RGetDoc || pc == RCreateJob ==>
          CopyOf(cfg, w, j) && j.id == id && j.attempts + 1 < MaxAttempts(cfg.maxAttempts))
    && (pc == RCreateJob || pc == RUpdateDoc ==> DocCopyOf(w, d))
    && (pc == RUpdateDoc || pc == RPublish || pc == RUnpublished ==> CopyOf(cfg, w, j) && j.status != Completed)
    && (pc == RUnpublished ==> j.status == Failed)
  }

  ghost predicate ProcOk(cfg: Config, w: World, p: Proc) {
    match p
    case Upload(pc, d, j, _) => UploadOk(cfg, w, pc, d, j)
    case Cancel(_, pc, j, d) => CancelOk(cfg, w, pc, j, d)
    case Retry(id, pc, j, d) => RetryOk(cfg, w, id, pc, j, d)
    case Save(_, pc, a, _) => OverwriteOk(w, pc, a)
    case Regenerate(_, pc, a, _) => OverwriteOk(w, pc, a)
    case Worker(r) => RunOk(cfg, w, r)
  }

  predicate SameRow(a: Artifact, b: Artifact) {
    Matches(a, b.doc, b.kind, b.format) && a.id == b.id && a.key == b.key
  }

  predicate OverwriteOk(w: World, pc: SavePc, a: Artifact) {
    pc == SPut || pc == SUpdate ==> a.id in w.arts && SameRow(a, w.arts[a.id])
  }

  ghost predicate SystemOk(cfg: Config, s: System) {
    && WorldOk(cfg, s.world)
    && forall n :: n in s.procs ==> ProcOk(cfg, s.world, s.procs[n])
  }

  // ---------- stability: what one process does never hurts another ----------

  lemma ReadyPersists(cfg: Config, w: World, w': World, doc: Id, formats: seq<string>)
    requires Grows(w, w') && Ready(cfg, w, doc, formats)
    ensures Ready(cfg, w', doc, formats)
  {
    RowsPersist(w, w', doc, CdomKind, Json);
    forall f | f in Selected(cfg, formats)
      ensures HasRow(w', doc, ExportKind, f)
    {
      RowsPersist(w, w', doc, ExportKind, f);
    }
  }

  lemma EarnedPersists(cfg: Config, w: World, w': World, r: Run)
    requires Grows(w, w') && Earned(cfg, w, r)
    ensures Earned(cfg, w', r)
  {
    if CdomStored(r.pc) {
      RowsPersist(w, w', r.doc.id, CdomKind, Json);
    } else if Exporting(r.pc) {
      EarnedToPersists(cfg, w, w', r, r.pc.i);
    } else if Completing(r.pc) {
      ReadyPersists(cfg, w, w', r.doc.id, r.doc.formats);
    }
  }

  lemma EarnedToPersists(cfg: Config, w: World, w': World, r: Run, i: nat)
    requires Grows(w, w') && EarnedTo(cfg, w, r, i)
    ensures EarnedTo(cfg, w', r, i)
  {
    RowsPersist(w, w', r.doc.id, CdomKind, Json);
    var sel := Selected(cfg, r.doc.formats);
    forall j | 0 <= j < i && j < |sel|
      ensures HasRow(w', r.doc.id, ExportKind, sel[j])
    {
      RowsPersist(w, w', r.doc.id, ExportKind, sel[j]);
    }
  }

  lemma ProcPersists(cfg: Config, w: World, w': World, p: Proc)
    requires Grows(w, w') && ProcOk(cfg, w, p)
    ensures ProcOk(cfg, w', p)
  {
    if p.Worker? && !Idle(p.run.pc) {
      EarnedPersists(cfg, w, w', p.run);
    }
  }

  // ---------- the four kinds of write ----------

  lemma JobRowsPersist(cfg: Config, w: World, w': World)
    requires WorldOk(cfg, w) && Grows(w, w')
    requires forall id :: id in w.jobs ==> JobRowOk(cfg, w, id)
    ensures forall id :: id in w.jobs && w'.jobs[id] == w.jobs[id] ==> JobRowOk(cfg, w', id)
  {
    forall id | id in w.jobs && w'.jobs[id] == w.jobs[id]
      ensures JobRowOk(cfg, w', id)
    {
      var j := w.jobs[id];
      if j.status == Completed {
        ReadyPersists(cfg, w, w', j.doc, w.docs[j.doc].formats);
      }
    }
  }

  lemma JobsUntouched(cfg: Config, w: World, w': World)
    requires WorldOk(cfg, w) && Grows(w, w') && w'.jobs == w.jobs
    ensures forall id :: JobRowOk(cfg, w', id)
  {
    JobRowsPersist(cfg, w, w');
  }

  lemma JobWritten(cfg: Config, w: World, j: Job, f: Fault)
    requires WorldOk(cfg, w) && CopyOf(cfg, w, j)
    requires j.status == Completed ==> j.doc in w.docs && Ready(cfg, w, j.doc, w.docs[j.doc].formats)
    ensures WorldOk(cfg, UpdateJob(w, j, f)) && Grows(w, UpdateJob(w, j, f))
  {
    var w' := UpdateJob(w, j, f);
    assert JobRowOk(cfg, w, j.id);
    assert Grows(w, w');
    JobRowsPersist(cfg, w, w');
    if j.status == Completed {
      ReadyPersists(cfg, w, w', j.doc, w.docs[j.doc].formats);
    }
    forall id
      ensures JobRowOk(cfg, w', id) && ArtRowOk(w', id) && DocRowOk(w', id)
    {
      assert JobRowOk(cfg, w, id) && ArtRowOk(w, id) && DocRowOk(w, id);
    }
  }

  lemma DocWritten(cfg: Config, w: World, d: Document, f: Fault)
    requires WorldOk(cfg, w) && DocCopyOf(w, d)
    ensures WorldOk(cfg, UpdateDoc(w, d, f)) && Grows(w, UpdateDoc(w, d, f))
  {
    hide JobRowOk;
    var w' := UpdateDoc(w, d, f);
    assert DocRowOk(w, d.id);
    assert Grows(w, w');
    JobsUntouched(cfg, w, w');
    hide Grows;
    forall id
      ensures ArtRowOk(w', id) && DocRowOk(w', id)
    {
      assert ArtRowOk(w, id) && DocRowOk(w, id);
    }
  }

  lemma ObjectWritten(cfg: Config, w: World, k: Key, b: Bytes)
    requires WorldOk(cfg, w)
    ensures WorldOk(cfg, w.(objects := w.objects[k := b])) && Grows(w, w.(objects := w.objects[k := b]))
  {
    hide JobRowOk;
    var w' := w.(objects := w.objects[k := b]);
    JobsUntouched(cfg, w, w');
    hide Grows;
    forall id
      ensures ArtRowOk(w', id) && DocRowOk(w', id)
    {
      assert ArtRowOk(w, id) && DocRowOk(w, id);
    }
  }

  lemma ArtifactWritten(cfg: Config, w: World, doc: Id, job: Id, kind: Kind, format: Format, key: Key, size: nat)
    requires WorldOk(cfg, w) && key in w.objects
    ensures
      var w' := CreateArtifact(w, doc, job, kind, format, key, size);
      WorldOk(cfg, w') && Grows(w, w') && HasRow(w', doc, kind, format)
  {
    hide JobRowOk;
    var w' := CreateArtifact(w, doc, job, kind, format, key, size);
    assert ArtRowOk(w, w.nextId);
    assert forall a :: a in w.arts ==> ArtRowOk(w, a) && a != w.nextId;
    assert Grows(w, w');
    assert w.nextId in w'.arts && Matches(w'.arts[w.nextId], doc, kind, format);
    JobsUntouched(cfg, w, w');
    hide Grows;
    forall id
      ensures ArtRowOk(w', id) && DocRowOk(w', id)
    {
      assert ArtRowOk(w, id) && DocRowOk(w, id);
    }
  }

  lemma JobCreated(cfg: Config, w: World, j: Job, next: Id)
    requires WorldOk(cfg, w) && j.id !in w.jobs && j.id < next && w.nextId <= next
    requires j.doc in w.docs && JobOk(cfg, j) && ParentOk(w, j) && j.status == Queued
    requires j.origin == None ==> j.born == 0
    ensures
      var w' := w.(jobs := w.jobs[j.id := j], nextId := next);
      WorldOk(cfg, w') && Grows(w, w')
  {
    var w' := w.(jobs := w.jobs[j.id := j], nextId := next);
    assert Grows(w, w');
    JobRowsPersist(cfg, w, w');
    forall id
      ensures JobRowOk(cfg, w', id) && ArtRowOk(w', id) && DocRowOk(w', id)
    {
      assert JobRowOk(cfg, w, id) && ArtRowOk(w, id) && DocRowOk(w, id);
    }
  }

  lemma DocCreated(cfg: Config, w: World, d: Document)
    requires WorldOk(cfg, w) && d.id !in w.docs && d.id < w.nextId
    ensures var w' := w.(docs := w.docs[d.id := d]); WorldOk(cfg, w') && Grows(w, w')
  {
    var w' := w.(docs := w.docs[d.id := d]);
    assert Grows(w, w');
    JobRowsPersist(cfg, w, w');
    forall id
      ensures JobRowOk(cfg, w', id) && ArtRowOk(w', id) && DocRowOk(w', id)
    {
      assert JobRowOk(cfg, w, id) && ArtRowOk(w, id) && DocRowOk(w, id);
    }
  }

  lemma IdsTaken(cfg: Config, w: World, next: Id)
    requires WorldOk(cfg, w) && w.nextId <= next
    ensures WorldOk(cfg, w.(nextId := next)) && Grows(w, w.(nextId := next))
  {
    var w' := w.(nextId := next);
    JobRowsPersist(cfg, w, w');
    forall id
      ensures JobRowOk(cfg, w', id) && ArtRowOk(w', id) && DocRowOk(w', id)
    {
      assert JobRowOk(cfg, w, id) && ArtRowOk(w, id) && DocRowOk(w, id);
    }
  }

  lemma GrowsFromItself(w: World)
    ensures Grows(w, w)
  {}

  lemma GrowsOn(w0: World, w1: World, w2: World)
    requires Grows(w0, w1) && Grows(w1, w2)
    ensures Grows(w0, w2)
  {
    forall a | a in w0.arts
      ensures a in w2.arts && Matches(w2.arts[a], w0.arts[a].doc, w0.arts[a].kind, w0.arts[a].format)
              && w2.arts[a].key == w0.arts[a].key && w2.arts[a].id == w0.arts[a].id
    {
      assert a in w1.arts;
    }
  }

  lemma JobLoaded(cfg: Config, w: World, id: Id)
    requires WorldOk(cfg, w) && id in w.jobs
    ensures CopyOf(cfg, w, w.jobs[id]) && w.jobs[id].id == id && id < w.nextId && w.jobs[id].doc in w.docs
  {
    assert JobRowOk(cfg, w, id);
  }

  lemma DocLoaded(cfg: Config, w: World, id: Id)
    requires WorldOk(cfg, w) && id in w.docs
    ensures DocCopyOf(w, w.docs[id]) && w.docs[id].id == id && id < w.nextId
  {
    assert DocRowOk(w, id);
  }

  lemma NextIdUnused(cfg: Config, w: World)
    requires WorldOk(cfg, w)
    ensures w.nextId !in w.jobs
  {
    assert JobRowOk(cfg, w, w.nextId);
  }

  // ---------- every step keeps the invariant ----------

  ghost predicate Kept(cfg: Config, w: World, w': World, p: Proc) {
    WorldOk(cfg, w') && Grows(w, w') && ProcOk(cfg, w', p)
  }

  lemma UploadPut(cfg: Config, w: World, id: Id, payload: Bytes)
    requires WorldOk(cfg, w) && id == w.nextId
    ensures WorldOk(cfg, w.(nextId := id + 2)) && Grows(w, w.(nextId := id + 2))
    ensures
      var v := w.(objects := w.objects[Original(id) := payload], nextId := id + 2);
      WorldOk(cfg, v) && Grows(w, v)
  {
    hide WorldOk, Grows;
    IdsTaken(cfg, w, id + 2);
    ObjectWritten(cfg, w, Original(id), payload);
    var w1 := w.(objects := w.objects[Original(id) := payload]);
    IdsTaken(cfg, w1, id + 2);
    GrowsOn(w, w1, w1.(nextId := id + 2));
  }

  ghost predicate UploadKeeps(cfg: Config, w: World, w': World, p: Proc) {
    WorldOk(cfg, w') && Grows(w, w') && p.Upload? && UploadOk(cfg, w', p.pc, p.udoc, p.ujob)
  }

  lemma UploadCreates(cfg: Config, w: World, p: Proc, f: Fault)
    requires p.Upload? && WorldOk(cfg, w) && UploadOk(cfg, w, p.pc, p.udoc, p.ujob)
      && (p.pc == UCreateDoc || p.pc == UCreateJob)
    ensures var (w', p') := StepUpload(w, p, f); UploadKeeps(cfg, w, w', p')
  {
    hide WorldOk, Grows, JobOk;
    GrowsFromItself(w);
    if p.pc == UCreateDoc {
      if f == Fine && p.udoc.id !in w.docs {
        DocCreated(cfg, w, p.udoc);
      }
    } else if f == Fine && p.ujob.id !in w.jobs {
      JobCreated(cfg, w, p.ujob, w.nextId);
    }
  }

  lemma UploadKept(cfg: Config, w: World, p: Proc, f: Fault)
    requires p.Upload? && WorldOk(cfg, w) && UploadOk(cfg, w, p.pc, p.udoc, p.ujob)
    ensures var (w', p') := StepUpload(w, p, f); UploadKeeps(cfg, w, w', p')
  {
    if p.pc == UCreateDoc || p.pc == UCreateJob {
      UploadCreates(cfg, w, p, f);
      return;
    }
    hide WorldOk, Grows;
    GrowsFromItself(w);
    match p.pc
    case UPut => UploadPut(cfg, w, w.nextId, p.payload);
    case UUnpublished => JobWritten(cfg, w, p.ujob, f);
    case _ =>
  }

  lemma CancelKept(cfg: Config, w: World, p: Proc, f: Fault)
    requires p.Cancel? && WorldOk(cfg, w) && CancelOk(cfg, w, p.cpc, p.cjob, p.cdoc)
    ensures
      var (w', p') := StepCancel(w, p, f);
      WorldOk(cfg, w') && Grows(w, w') && p'.Cancel? && CancelOk(cfg, w', p'.cpc, p'.cjob, p'.cdoc)
  {
    hide WorldOk, Grows;
    GrowsFromItself(w);
    match p.cpc
    case CGetJob => if p.cid in w.jobs { JobLoaded(cfg, w, p.cid); }
    case CUpdateJob => JobWritten(cfg, w, p.cjob, f);
    case CGetDoc => if p.cjob.doc in w.docs { DocLoaded(cfg, w, p.cjob.doc); }
    case CUpdateDoc => DocWritten(cfg, w, p.cdoc, f);
    case CDone =>
  }

  ghost predicate RetryKeeps(cfg: Config, w: World, w': World, p: Proc) {
    WorldOk(cfg, w') && Grows(w, w') && p.Retry? && RetryOk(cfg, w', p.rid, p.rpc, p.rjob, p.rdoc)
  }

  lemma RetryReads(cfg: Config, w: World, p: Proc, f: Fault)
    requires p.Retry? && WorldOk(cfg, w) && RetryOk(cfg, w, p.rid, p.rpc, p.rjob, p.rdoc)
      && (p.rpc == RGetJob || p.rpc == RGetDoc)
    ensures var (w', p') := StepRetry(cfg, w, p, f); RetryKeeps(cfg, w, w', p')
  {
    hide WorldOk, Grows, SameJob, JobOk;
    GrowsFromItself(w);
    if p.rpc == RGetJob {
      if p.rid in w.jobs { JobLoaded(cfg, w, p.rid); }
    } else {
      if p.rjob.doc in w.docs { DocLoaded(cfg, w, p.rjob.doc); }
    }
  }

  lemma RetryJobOk(cfg: Config, w: World, prev: Job, j: Job)
    requires CopyOf(cfg, w, prev) && prev.attempts + 1 < MaxAttempts(cfg.maxAttempts)
    requires j.born == j.attempts == prev.attempts + 1 && j.origin == Some(prev.id) && j.status == Queued
    ensures JobOk(cfg, j) && ParentOk(w, j)
  {}

  lemma RetryCreates(cfg: Config, w: World, p: Proc, f: Fault)
    requires p.Retry? && WorldOk(cfg, w) && RetryOk(cfg, w, p.rid, p.rpc, p.rjob, p.rdoc) && p.rpc == RCreateJob
    ensures var (w', p') := StepRetry(cfg, w, p, f); RetryKeeps(cfg, w, w', p')
  {
    var (w', p') := StepRetry(cfg, w, p, f);
    hide WorldOk, Grows;
    if f == Fine {
      JobLoaded(cfg, w, p.rid);
      NextIdUnused(cfg, w);
      RetryJobOk(cfg, w, p.rjob, p'.rjob);
      hide JobOk, ParentOk;
      JobCreated(cfg, w, p'.rjob, w.nextId + 1);
      assert DocCopyOf(w', p.rdoc);
    } else {
      IdsTaken(cfg, w, w.nextId + 1);
    }
  }

  lemma RetryEnds(cfg: Config, w: World, p: Proc, f: Fault)
    requires p.Retry? && WorldOk(cfg, w) && RetryOk(cfg, w, p.rid, p.rpc, p.rjob, p.rdoc)
    requires p.rpc == RUpdateDoc || p.rpc == RPublish || p.rpc == RUnpublished || p.rpc == RDone
    ensures var (w', p') := StepRetry(cfg, w, p, f); RetryKeeps(cfg, w, w', p')
  {
    hide WorldOk, Grows;
    GrowsFromItself(w);
    match p.rpc
    case RUpdateDoc => DocWritten(cfg, w, p.rdoc, f);
    case RUnpublished => JobWritten(cfg, w, p.rjob, f);
    case _ =>
  }

  lemma RetryKept(cfg: Config, w: World, p: Proc, f: Fault)
    requires p.Retry? && WorldOk(cfg, w) && RetryOk(cfg, w, p.rid, p.rpc, p.rjob, p.rdoc)
    ensures var (w', p') := StepRetry(cfg, w, p, f); RetryKeeps(cfg, w, w', p')
  {
    hide WorldOk, RetryOk, RetryKeeps, StepRetry;
    match p.rpc
    case RGetJob => RetryReads(cfg, w, p, f);
    case RGetDoc => RetryReads(cfg, w, p, f);
    case RCreateJob => RetryCreates(cfg, w, p, f);
    case _ => RetryEnds(cfg, w, p, f);
  }

  lemma ArtifactUpdated(cfg: Config, w: World, a: Artifact)
    requires WorldOk(cfg, w) && a.id in w.arts && SameRow(a, w.arts[a.id])
    ensures var w' := w.(arts := w.arts[a.id := a]); WorldOk(cfg, w') && Grows(w, w')
  {
    var w' := w.(arts := w.arts[a.id := a]);
    assert ArtRowOk(w, a.id);
    assert Grows(w, w');
    JobRowsPersist(cfg, w, w');
    forall id
      ensures JobRowOk(cfg, w', id) && ArtRowOk(w', id) && DocRowOk(w', id)
    {
      assert JobRowOk(cfg, w, id) && ArtRowOk(w, id) && DocRowOk(w, id);
    }
  }

  lemma ArtifactLoaded(cfg: Config, w: World, id: Id)
    requires WorldOk(cfg, w) && id in w.arts
    ensures w.arts[id].id == id
  {
    assert ArtRowOk(w, id);
  }

  lemma OverwriteKept(cfg: Config, w: World, doc: Id, pc: SavePc, a: Artifact, body: Bytes, f: Fault, pick: Id)
    requires WorldOk(cfg, w) && OverwriteOk(w, pc, a)
    ensures
      var (w', pc', a') := StepOverwrite(w, doc, pc, a, body, f, pick);
      WorldOk(cfg, w') && Grows(w, w') && OverwriteOk(w', pc', a')
  {
    hide WorldOk, Grows, HasRow;
    GrowsFromItself(w);
    match pc
    case SFind => if pick in w.arts { ArtifactLoaded(cfg, w, pick); }
    case SPut => ObjectWritten(cfg, w, a.key, body);
    case SUpdate => if a.id in w.arts { ArtifactUpdated(cfg, w, a); }
    case _ =>
  }

  ghost predicate RunKeeps(cfg: Config, w: World, w': World, r: Run) {
    WorldOk(cfg, w') && Grows(w, w') && RunOk(cfg, w', r)
  }

  lemma RunJobWrite(cfg: Config, w: World, r: Run, f: Fault)
    requires WorldOk(cfg, w) && RunOk(cfg, w, r) && !Idle(r.pc) && r.pc != LoadDoc
    ensures RunKeeps(cfg, w, UpdateJob(w, r.job, f), r)
  {
    JobWritten(cfg, w, r.job, f);
    EarnedPersists(cfg, w, UpdateJob(w, r.job, f), r);
  }

  lemma RunDocWrite(cfg: Config, w: World, r: Run, f: Fault)
    requires WorldOk(cfg, w) && RunOk(cfg, w, r) && !Idle(r.pc) && r.pc != LoadDoc
    ensures RunKeeps(cfg, w, UpdateDoc(w, r.doc, f), r)
  {
    DocWritten(cfg, w, r.doc, f);
    EarnedPersists(cfg, w, UpdateDoc(w, r.doc, f), r);
  }

  // What the moves between program points keep; the steps below only combine them.

  predicate Loaded(pc: Pc) { !Idle(pc) && !pc.LoadDoc? && !Completing(pc) }

  /** A program point that asks nothing of the stores. */
  predicate Plain(pc: Pc) {
    Loaded(pc) && !pc.MarkDoc? && !CdomStored(pc) && !pc.CreateCdom? && !Exporting(pc)
  }

  lemma Moves(cfg: Config, w: World, r: Run, pc: Pc)
    requires RunOk(cfg, w, r) && Loaded(r.pc)
    requires Plain(pc) || (CdomStored(pc) && !pc.ReadCdom? && HasRow(w, r.doc.id, CdomKind, Json))
    ensures RunOk(cfg, w, At(r, pc))
  {
    hide Ready, HasRow, Selected, EarnedTo, JobOk, SameJob;
  }

  lemma NotesAt(cfg: Config, w: World, r: Run, stage: Stage, progress: int)
    requires RunOk(cfg, w, r) && Loaded(r.pc)
    ensures RunOk(cfg, w, Noted(r, stage, progress))
  {
    hide Ready, HasRow, Selected;
  }

  lemma Fails(cfg: Config, w: World, r: Run, code: Code, retryable: bool)
    requires RunOk(cfg, w, r) && Loaded(r.pc)
    ensures RunOk(cfg, w, Failing(r, code, retryable))
  {
    hide Ready, HasRow, Selected, EarnedTo;
  }

  lemma Ends(cfg: Config, w: World, r: Run, redeliver: bool)
    ensures RunOk(cfg, w, At(r, Done(redeliver)))
  {}

  lemma MarksDoc(cfg: Config, w: World, r: Run, status: DocStatus, pc: Pc)
    requires RunOk(cfg, w, r)
    requires (Completing(r.pc) && Completing(pc)) || (Loaded(r.pc) && Plain(pc))
    ensures RunOk(cfg, w, r.(doc := r.doc.(status := status), pc := pc))
  {
    hide HasRow, Selected, EarnedTo, JobOk, SameJob;
  }

  lemma MovesOn(cfg: Config, w: World, r: Run)
    requires RunOk(cfg, w, r) && r.pc.CompleteDoc?
    ensures RunOk(cfg, w, At(r, CompleteNote))
  {
    hide HasRow, Selected, EarnedTo, JobOk, SameJob, Ready;
  }

  lemma EntersExports(cfg: Config, w: World, r: Run)
    requires RunOk(cfg, w, r) && CdomStored(r.pc)
    ensures RunOk(cfg, w, EnterExports(cfg, r))
  {
    Fails(cfg, w, r, ExportFailed, false);
    hide Ready, HasRow, Selected, EarnedTo, JobOk, SameJob;
  }

  lemma LoadsDoc(cfg: Config, w: World, r: Run)
    requires RunOk(cfg, w, r) && r.pc.LoadDoc? && r.job.doc in w.docs
    requires DocCopyOf(w, w.docs[r.job.doc]) && w.docs[r.job.doc].id == r.job.doc
    ensures r.job.status != Queued ==> RunOk(cfg, w, r.(doc := w.docs[r.job.doc], pc := FindCdom))
    ensures
      r.job.status == Queued ==>
        RunOk(cfg, w, r.(doc := w.docs[r.job.doc].(status := DocProcessing), job := r.job.(status := Processing),
              pc := MarkDoc))
  {
    hide Ready, HasRow, Selected, EarnedTo;
  }

  lemma LoadDocKept(cfg: Config, w: World, r: Run, f: Fault)
    requires WorldOk(cfg, w) && RunOk(cfg, w, r) && r.pc.LoadDoc?
    ensures var (w', r') := StepLoad(cfg, w, r, f); w' == w && RunOk(cfg, w, r')
  {
    hide WorldOk, RunOk, HasRow;
    Ends(cfg, w, r, true);
    Ends(cfg, w, r, false);
    if r.job.doc in w.docs {
      DocLoaded(cfg, w, r.job.doc);
      LoadsDoc(cfg, w, r);
    }
  }

  lemma BeginsJob(cfg: Config, w: World, r: Run)
    requires WorldOk(cfg, w) && r.id in w.jobs && w.jobs[r.id].status != Completed && w.jobs[r.id].status != Cancelled
    ensures RunOk(cfg, w, r.(job := w.jobs[r.id], pc := LoadDoc))
  {
    JobLoaded(cfg, w, r.id);
    hide WorldOk, HasRow, Selected, EarnedTo, JobOk, SameJob, Ready;
  }

  lemma CountsAttempt(cfg: Config, w: World, r: Run)
    requires RunOk(cfg, w, r) && r.pc.MarkDoc?
    ensures RunOk(cfg, w, r.(job := r.job.(attempts := r.job.attempts + 1), pc := MarkJob))
  {
    hide HasRow, Selected, EarnedTo, Ready;
  }

  lemma MarkKept(cfg: Config, w: World, r: Run, f: Fault)
    requires WorldOk(cfg, w) && RunOk(cfg, w, r) && (r.pc.MarkDoc? || r.pc.MarkJob?)
    ensures var (w', r') := StepLoad(cfg, w, r, f); RunKeeps(cfg, w, w', r')
  {
    hide WorldOk, Grows, RunOk;
    Ends(cfg, w, r, true);
    Ends(cfg, w, r, false);
    GrowsFromItself(w);
    if r.pc.MarkDoc? {
      RunDocWrite(cfg, w, r, f);
      CountsAttempt(cfg, UpdateDoc(w, r.doc, f), r);
    } else {
      RunJobWrite(cfg, w, r, f);
      Moves(cfg, UpdateJob(w, r.job, f), r, FindCdom);
    }
  }

  lemma LoadKept(cfg: Config, w: World, r: Run, f: Fault)
    requires WorldOk(cfg, w) && RunOk(cfg, w, r)
    ensures var (w', r') := StepLoad(cfg, w, r, f); RunKeeps(cfg, w, w', r')
  {
    hide WorldOk, Grows, RunOk;
    Ends(cfg, w, r, true);
    Ends(cfg, w, r, false);
    GrowsFromItself(w);
    if r.pc.Begin? {
      if r.id in w.jobs && w.jobs[r.id].status != Completed && w.jobs[r.id].status != Cancelled {
        BeginsJob(cfg, w, r);
      }
    } else if r.pc.LoadDoc? {
      LoadDocKept(cfg, w, r, f);
    } else if r.pc.MarkDoc? || r.pc.MarkJob? {
      MarkKept(cfg, w, r, f);
    } else if r.pc.Resume? {
      RunJobWrite(cfg, w, r, f);
      EntersExports(cfg, UpdateJob(w, r.job, f), r);
    } else if r.pc.FindCdom? {
      Moves(cfg, w, r, Check(Detect));
      NotesAt(cfg, w, r, AtExport, 90);
      if HasRow(w, r.doc.id, CdomKind, Json) {
        Moves(cfg, w, Noted(r, AtExport, 90), Resume);
      }
    }
  }

  lemma MovesToNote(cfg: Config, w: World, r: Run)
    requires RunOk(cfg, w, r) && r.pc.Check?
    ensures RunOk(cfg, w, At(r, Note(r.pc.cp)))
  {
    hide HasRow, Selected, EarnedTo, JobOk, SameJob, Ready;
  }

  lemma CheckpointKept(cfg: Config, w: World, r: Run, f: Fault)
    requires WorldOk(cfg, w) && RunOk(cfg, w, r)
    ensures var (w', r') := StepCheckpoint(cfg, w, r, f); RunKeeps(cfg, w, w', r')
  {
    hide WorldOk, Grows, RunOk;
    Ends(cfg, w, r, true);
    Ends(cfg, w, r, false);
    GrowsFromItself(w);
    if r.pc.Check? {
      var cp := r.pc.cp;
      var pct := CheckpointProgress(cp, cfg.kindOf(r.pdf));
      NotesAt(cfg, w, r, AtCancelled, r.job.progress);
      Moves(cfg, w, Noted(r, AtCancelled, r.job.progress), CancelledJob);
      NotesAt(cfg, w, r, CheckpointStage(cp), pct);
      MovesToNote(cfg, w, Noted(r, CheckpointStage(cp), pct));
    } else if r.pc.Note? {
      RunJobWrite(cfg, w, r, f);
      NoteKept(cfg, UpdateJob(w, r.job, f), r, f);
    }
  }

  lemma NoteKept(cfg: Config, w: World, r: Run, f: Fault)
    requires RunOk(cfg, w, r) && r.pc.Note?
    ensures RunOk(cfg, w, AfterNote(cfg, r, r.pc.cp, f))
  {
    hide WorldOk, Grows, RunOk;
    match r.pc.cp
    case Detect => Moves(cfg, w, r, ReadPdf);
    case Extract => EntersOcr(cfg, w, r); Moves(cfg, w, r, Check(Layout));
    case OcrAll => EntersOcr(cfg, w, r);
    case Layout => Fails(cfg, w, r, LayoutFailed, false); Moves(cfg, w, r, Check(Postprocess));
    case Postprocess => Moves(cfg, w, r, Check(Normalize));
    case Normalize => Fails(cfg, w, r, NormalizationFailed, false); Moves(cfg, w, r, PutCdom);
    case Export => EntersExports(cfg, w, r);
  }

  lemma EntersOcr(cfg: Config, w: World, r: Run)
    requires RunOk(cfg, w, r) && Loaded(r.pc)
    ensures RunOk(cfg, w, EnterOcr(cfg, r))
  {
    hide WorldOk, Grows, RunOk;
    Moves(cfg, w, r, Check(Layout));
    Moves(cfg, w, r, OcrBatch);
    Moves(cfg, w, r, OcrTick(1));
  }

  lemma ExtractKept(cfg: Config, w: World, r: Run, f: Fault)
    requires WorldOk(cfg, w) && RunOk(cfg, w, r)
    ensures var (w', r') := StepExtract(cfg, w, r, f); RunKeeps(cfg, w, w', r')
  {
    hide WorldOk, Grows, RunOk;
    Ends(cfg, w, r, true);
    Ends(cfg, w, r, false);
    GrowsFromItself(w);
    if r.pc.ReadPdf? {
      ReadPdfKept(cfg, w, r, f);
    } else if r.pc.SavePages? {
      RunDocWrite(cfg, w, r, f);
      Moves(cfg, UpdateDoc(w, r.doc, f), r, Check(KindCheckpoint(cfg, r)));
    } else if r.pc.OcrMerge? {
      Fails(cfg, w, r, OcrError, true);
      Moves(cfg, w, r, Check(Layout));
    } else if r.pc.OcrBatch? || r.pc.OcrTick? {
      OcrKept(cfg, w, r, f);
    }
  }

  lemma ReadsPdf(cfg: Config, w: World, r: Run, pdf: Bytes)
    requires RunOk(cfg, w, r) && r.pc.ReadPdf?
    ensures RunOk(cfg, w, r.(pdf := pdf, doc := r.doc.(pages := cfg.pagesOf(pdf)), pc := SavePages))
  {
    hide Ready, HasRow, Selected, EarnedTo, JobOk, SameJob;
  }

  lemma Reads()
    ensures Loaded(ReadPdf)
  {}

  lemma ReadPdfKept(cfg: Config, w: World, r: Run, f: Fault)
    requires RunOk(cfg, w, r) && r.pc.ReadPdf?
    ensures RunOk(cfg, w, StepExtract(cfg, w, r, f).1)
  {
    hide RunOk, Loaded;
    assert Loaded(ReadPdf) by { Reads(); }
    Fails(cfg, w, r, StorageError, true);
    Fails(cfg, w, r, InvalidPdf, false);
    if r.doc.source in w.objects {
      ReadsPdf(cfg, w, r, w.objects[r.doc.source]);
    }
  }

  lemma OcrMoves(cfg: Config, w: World, r: Run, progress: int, f: Fault, pc: Pc)
    requires WorldOk(cfg, w) && RunOk(cfg, w, r) && Loaded(r.pc) && Plain(pc)
    ensures
      var n := Noted(r, AtOcr, progress);
      RunKeeps(cfg, w, UpdateJob(w, n.job, f), At(n, pc))
  {
    hide WorldOk, Grows, RunOk;
    var n := Noted(r, AtOcr, progress);
    NotesAt(cfg, w, r, AtOcr, progress);
    RunJobWrite(cfg, w, n, f);
    Moves(cfg, UpdateJob(w, n.job, f), n, pc);
  }

  lemma OcrKept(cfg: Config, w: World, r: Run, f: Fault)
    requires WorldOk(cfg, w) && RunOk(cfg, w, r) && (r.pc.OcrBatch? || r.pc.OcrTick?)
    ensures var (w', r') := StepExtract(cfg, w, r, f); RunKeeps(cfg, w, w', r')
  {
    hide WorldOk, Grows, RunOk, OcrPct, UpdateJob;
    GrowsFromItself(w);
    Fails(cfg, w, r, OcrError, true);
    Moves(cfg, w, r, OcrTick(1));
    var (w', r') := StepExtract(cfg, w, r, f);
    if f != Reject {
      OcrMoves(cfg, w, r, r'.job.progress, f, r'.pc);
    }
  }

  lemma StoreKept(cfg: Config, w: World, r: Run, f: Fault)
    requires WorldOk(cfg, w) && RunOk(cfg, w, r)
    ensures var (w', r') := StepStore(cfg, w, r, f); RunKeeps(cfg, w, w', r')
  {
    hide WorldOk, Grows, RunOk;
    Ends(cfg, w, r, true);
    Ends(cfg, w, r, false);
    GrowsFromItself(w);
    if r.pc.PutCdom? || r.pc.CreateCdom? || r.pc.ReadCdom? {
      Fails(cfg, w, r, StorageError, true);
      Fails(cfg, w, r, NormalizationFailed, false);
    }
    if r.pc.PutCdom? && f != StoreDown {
      PutCdomKept(cfg, w, r);
    } else if r.pc.CreateCdom? && f != StoreDown {
      CreateCdomKept(cfg, w, r);
    } else if r.pc.ReadCdom? && f == Fine && CdomFile(r.doc.id) in w.objects {
      ReadCdomKept(cfg, w, r);
    }
  }

  lemma PutCdomKept(cfg: Config, w: World, r: Run)
    requires WorldOk(cfg, w) && RunOk(cfg, w, r) && r.pc.PutCdom?
    ensures
      var w' := w.(objects := w.objects[CdomFile(r.doc.id) := cfg.cdom(r.doc.id, r.pdf)]);
      RunKeeps(cfg, w, w', At(r, CreateCdom))
  {
    var w' := w.(objects := w.objects[CdomFile(r.doc.id) := cfg.cdom(r.doc.id, r.pdf)]);
    ObjectWritten(cfg, w, CdomFile(r.doc.id), cfg.cdom(r.doc.id, r.pdf));
    RunPersists(cfg, w, w', r);
    hide WorldOk, Grows, Ready, HasRow, Selected, EarnedTo, JobOk, SameJob;
  }

  lemma CreateCdomKept(cfg: Config, w: World, r: Run)
    requires WorldOk(cfg, w) && RunOk(cfg, w, r) && r.pc.CreateCdom?
    ensures
      var size := |cfg.cdom(r.doc.id, r.pdf)|;
      var w' := CreateArtifact(w, r.doc.id, r.job.id, CdomKind, Json, CdomFile(r.doc.id), size);
      RunKeeps(cfg, w, w', At(r, Check(Export)))
  {
    hide WorldOk, Grows, HasRow, Selected, EarnedTo, JobOk, SameJob, Ready;
    var size := |cfg.cdom(r.doc.id, r.pdf)|;
    var w' := CreateArtifact(w, r.doc.id, r.job.id, CdomKind, Json, CdomFile(r.doc.id), size);
    ArtifactWritten(cfg, w, r.doc.id, r.job.id, CdomKind, Json, CdomFile(r.doc.id), size);
    RunPersists(cfg, w, w', r);
    Moves(cfg, w', r, Check(Export));
  }

  lemma ReadCdomKept(cfg: Config, w: World, r: Run)
    requires RunOk(cfg, w, r) && r.pc.ReadCdom? && CdomFile(r.doc.id) in w.objects
    ensures RunOk(cfg, w, EnterExport(cfg, r.(body := w.objects[CdomFile(r.doc.id)]), 0))
  {
    var r' := r.(body := w.objects[CdomFile(r.doc.id)]);
    hide Ready, HasRow, Selected, JobOk, SameJob;
    assert RunOk(cfg, w, r') && EarnedTo(cfg, w, r', 0);
    EnterExportOk(cfg, w, r', 0);
  }

  lemma RunPersists(cfg: Config, w: World, w': World, r: Run)
    requires Grows(w, w') && RunOk(cfg, w, r)
    ensures RunOk(cfg, w', r)
  {
    ProcPersists(cfg, w, w', Worker(r));
  }

  lemma EnterExportOk(cfg: Config, w: World, r: Run, i: nat)
    requires !Idle(r.pc) && r.pc != LoadDoc && RunOk(cfg, w, r)
    requires r.job.status != Completed && EarnedTo(cfg, w, r, i)
    ensures RunOk(cfg, w, EnterExport(cfg, r, i))
  {
    var sel := Selected(cfg, r.doc.formats);
    if i >= |sel| {
      forall f | f in sel
        ensures HasRow(w, r.doc.id, ExportKind, f)
      {
        var j :| 0 <= j < |sel| && sel[j] == f;
      }
    }
  }

  lemma ExportKept(cfg: Config, w: World, r: Run, f: Fault)
    requires WorldOk(cfg, w) && RunOk(cfg, w, r)
    ensures var (w', r') := StepExport(cfg, w, r, f); RunKeeps(cfg, w, w', r')
  {
    hide WorldOk, Grows, RunOk, Selected, HasRow;
    Ends(cfg, w, r, true);
    Ends(cfg, w, r, false);
    GrowsFromItself(w);
    if Exporting(r.pc) {
      Fails(cfg, w, r, StorageError, true);
      Fails(cfg, w, r, ExportFailed, false);
      if r.pc.i < |Selected(cfg, r.doc.formats)| {
        ExportedOne(cfg, w, r, f);
      }
    }
  }

  lemma ExportedOne(cfg: Config, w: World, r: Run, f: Fault)
    requires WorldOk(cfg, w) && RunOk(cfg, w, r) && Exporting(r.pc) && r.pc.i < |Selected(cfg, r.doc.formats)|
    ensures
      var (w', r') := StepExport(cfg, w, r, f);
      r'.pc.FailJob? || RunKeeps(cfg, w, w', r')
  {
    hide WorldOk, Grows, Selected, HasRow, JobOk, SameJob, Ready;
    var format := Selected(cfg, r.doc.formats)[r.pc.i];
    var (w', r') := StepExport(cfg, w, r, f);
    GrowsFromItself(w);
    if r.pc.FindExport? {
      FoundExport(cfg, w, r);
    } else if f == StoreDown {
    } else if r.pc.PutExport? {
      ObjectWritten(cfg, w, Output(r.doc.id, format), cfg.render(format, r.body));
      RunPersists(cfg, w, w', r);
    } else {
      ArtifactWritten(cfg, w, r.doc.id, r.job.id, ExportKind, format, Output(r.doc.id, format),
            |cfg.render(format, r.body)|);
      RunPersists(cfg, w, w', r);
      FoundExport(cfg, w', r);
    }
  }

  lemma FoundExport(cfg: Config, w: World, r: Run)
    requires RunOk(cfg, w, r) && Exporting(r.pc) && r.pc.i < |Selected(cfg, r.doc.formats)|
    ensures
      HasRow(w, r.doc.id, ExportKind, Selected(cfg, r.doc.formats)[r.pc.i]) ==>
        RunOk(cfg, w, EnterExport(cfg, r, r.pc.i + 1))
  {
    hide Selected, HasRow, JobOk, SameJob, Ready;
    if HasRow(w, r.doc.id, ExportKind, Selected(cfg, r.doc.formats)[r.pc.i]) {
      assert EarnedTo(cfg, w, r, r.pc.i + 1);
      EnterExportOk(cfg, w, r, r.pc.i + 1);
    }
  }

  lemma EndKept(cfg: Config, w: World, r: Run, f: Fault)
    requires WorldOk(cfg, w) && RunOk(cfg, w, r)
    ensures var (w', r') := StepEnd(cfg, w, r, f); RunKeeps(cfg, w, w', r')
  {
    hide WorldOk, Grows, RunOk;
    GrowsFromItself(w);
    Ends(cfg, w, r, true);
    Ends(cfg, w, r, false);
    if r.pc.CompleteDoc? || r.pc.FailDoc? || r.pc.CancelledDoc? {
      RunDocWrite(cfg, w, r, f);
      var w' := UpdateDoc(w, r.doc, f);
      Ends(cfg, w', r, r.pc.FailDoc? && r.pc.retryable);
      if r.pc.CompleteDoc? { MovesOn(cfg, w', r); }
    } else if r.pc.CompleteJob? || r.pc.CompleteNote? || r.pc.FailJob? || r.pc.CancelledJob? {
      RunJobWrite(cfg, w, r, f);
      var w' := UpdateJob(w, r.job, f);
      Ends(cfg, w', r, false);
      match r.pc
      case CompleteJob => MarksDoc(cfg, w', r, DocCompleted, CompleteDoc);
      case FailJob(retryable) => MarksDoc(cfg, w', r, DocFailed, FailDoc(retryable));
      case CancelledJob => MarksDoc(cfg, w', r, DocCancelled, CancelledDoc);
      case _ =>
    }
  }

  lemma RunKept(cfg: Config, w: World, r: Run, f: Fault)
    requires WorldOk(cfg, w) && RunOk(cfg, w, r)
    ensures var (w', r') := Step(cfg, w, r, f); RunKeeps(cfg, w, w', r')
  {
    LoadKept(cfg, w, r, f);
    CheckpointKept(cfg, w, r, f);
    ExtractKept(cfg, w, r, f);
    StoreKept(cfg, w, r, f);
    ExportKept(cfg, w, r, f);
    EndKept(cfg, w, r, f);
  }

  lemma ProcKept(cfg: Config, w: World, p: Proc, f: Fault, pick: Id)
    requires WorldOk(cfg, w) && ProcOk(cfg, w, p)
    ensures var (w', p') := StepProc(cfg, w, p, f, pick); Kept(cfg, w, w', p')
  {
    hide WorldOk, Grows;
    GrowsFromItself(w);
    match p
    case Upload(_, _, _, _) => UploadKept(cfg, w, p, f);
    case Cancel(_, _, _, _) => CancelKept(cfg, w, p, f);
    case Retry(_, _, _, _) => RetryKept(cfg, w, p, f);
    case Save(doc, pc, a, body) =>
      if pc != SGetDoc { OverwriteKept(cfg, w, doc, pc, a, body, f, pick); }
    case Regenerate(doc, pc, a, body) =>
      if pc != SGetDoc && pc != SFindCdom && pc != SReadCdom { OverwriteKept(cfg, w, doc, pc, a, body, f, pick); }
    case Worker(r) => RunKept(cfg, w, r, f);
  }

  lemma NextKeeps(cfg: Config, s: System, e: Event)
    requires SystemOk(cfg, s)
    ensures SystemOk(cfg, Next(cfg, s, e)) && Grows(s.world, Next(cfg, s, e).world)
  {
    if e.Advance? && e.slot in s.procs {
      ProcKept(cfg, s.world, s.procs[e.slot], e.fault, e.pick);
      var s' := Next(cfg, s, e);
      forall n | n in s'.procs
        ensures ProcOk(cfg, s'.world, s'.procs[n])
      {
        if n != e.slot {
          ProcPersists(cfg, s.world, s'.world, s.procs[n]);
        }
      }
    }
  }

  lemma {:induction false} PlayKeeps(cfg: Config, events: seq<Event>)
    ensures SystemOk(cfg, Play(cfg, EMPTY, events))
    decreases |events|
  {
    if events != [] {
      PlayKeeps(cfg, events[..|events| - 1]);
      NextKeeps(cfg, Play(cfg, EMPTY, events[..|events| - 1]), events[|events| - 1]);
    }
  }

  // ---------- what follows for every run of the system ----------

  /** Whatever Runs and use cases do, in whatever order their storage calls come, and whatever
      fails or crashes: a job that is durably completed has a document with a CDOM row and an
      export row in every requested format for which there is an exporter; and there is such a
      format. */
  lemma CompletedJobsAreExported(cfg: Config, events: seq<Event>, id: Id)
    ensures
      var w := Play(cfg, EMPTY, events).world;
      id in w.jobs && w.jobs[id].status == Completed ==>
        && w.jobs[id].doc in w.docs && HasRow(w, w.jobs[id].doc, CdomKind, Json)
        && (exists f :: Exported(cfg, w.docs[w.jobs[id].doc].formats, f))
        && forall f :: Exported(cfg, w.docs[w.jobs[id].doc].formats, f) ==> HasRow(w, w.jobs[id].doc, ExportKind, f)
  {
    PlayKeeps(cfg, events);
    var w := Play(cfg, EMPTY, events).world;
    assert JobRowOk(cfg, w, id);
    if id in w.jobs && w.jobs[id].status == Completed {
      var formats := w.docs[w.jobs[id].doc].formats;
      SelectedAre(cfg, formats);
      assert Exported(cfg, formats, Selected(cfg, formats)[0]);
    }
    hide Selected, HasRow, Exported;
  }

  // ---------- an upload without formats ----------

  /** A document that is to come, or has come, with these formats. */
  ghost predicate Formatted(s: System, d: Id, formats: seq<string>) {
    && d < s.world.nextId
    && (d in s.world.docs ==> s.world.docs[d].formats == formats)
    && forall n :: n in s.procs && s.procs[n].Upload? && s.procs[n].pc == UCreateDoc && s.procs[n].udoc.id == d ==>
         s.procs[n].udoc.formats == formats
  }

  lemma ProcFormats(cfg: Config, w: World, p: Proc, f: Fault, pick: Id, d: Id, formats: seq<string>)
    requires d < w.nextId
    requires p.Upload? && p.pc == UCreateDoc && p.udoc.id == d ==> p.udoc.formats == formats
    ensures
      var p' := StepProc(cfg, w, p, f, pick).1;
      p'.Upload? && p'.pc == UCreateDoc && p'.udoc.id == d ==> p'.udoc.formats == formats
  {
    hide HasRow, Step, StepOverwrite, CanTransition, MaxAttempts;
  }

  /** A document appears only at the end of its own upload. */
  lemma DocsAppear(cfg: Config, w: World, p: Proc, f: Fault, pick: Id, d: Id)
    requires d !in w.docs && d in StepProc(cfg, w, p, f, pick).0.docs
    ensures p.Upload? && p.pc == UCreateDoc && p.udoc.id == d && StepProc(cfg, w, p, f, pick).0.docs[d] == p.udoc
  {
    match p
    case Worker(r) => RunDocs(cfg, w, r, f);
    case Cancel(_, _, j, e) => UpdatesKeepDocs(w, j, e, f);
    case Retry(_, _, j, e) => UpdatesKeepDocs(w, j, e, f);
    case _ =>
    hide HasRow, Step, CanTransition, MaxAttempts, UpdateJob, UpdateDoc;
  }

  lemma UpdatesKeepDocs(w: World, j: Job, d: Document, f: Fault)
    ensures UpdateJob(w, j, f).docs == w.docs && UpdateDoc(w, d, f).docs.Keys == w.docs.Keys
  {}

  lemma EarlyDocs(cfg: Config, w: World, r: Run, f: Fault)
    ensures StepLoad(cfg, w, r, f).0.docs.Keys == w.docs.Keys && StepCheckpoint(cfg, w, r, f).0.docs.Keys == w.docs.Keys
    ensures StepEnd(cfg, w, r, f).0.docs.Keys == w.docs.Keys
  {
    UpdatesKeepDocs(w, r.job, r.doc, f);
    hide Selected, HasRow, AfterNote, EnterExports, CheckpointProgress, CheckpointStage, UpdateJob, UpdateDoc;
  }

  lemma ExtractDocs(cfg: Config, w: World, r: Run, f: Fault)
    ensures StepExtract(cfg, w, r, f).0.docs.Keys == w.docs.Keys
  {
    UpdatesKeepDocs(w, StepExtract(cfg, w, r, f).1.job, r.doc, f);
    hide OcrPct, UpdateJob, UpdateDoc;
  }

  lemma LateDocs(cfg: Config, w: World, r: Run, f: Fault)
    ensures StepStore(cfg, w, r, f).0.docs == w.docs && StepExport(cfg, w, r, f).0.docs == w.docs
  {
    hide Selected, HasRow, EnterExport;
  }

  lemma RunDocs(cfg: Config, w: World, r: Run, f: Fault)
    ensures Step(cfg, w, r, f).0.docs.Keys == w.docs.Keys
  {
    EarlyDocs(cfg, w, r, f);
    ExtractDocs(cfg, w, r, f);
    LateDocs(cfg, w, r, f);
    hide StepLoad, StepCheckpoint, StepExtract, StepStore, StepExport, StepEnd;
  }

  lemma {:induction false} FormatsStay(cfg: Config, s: System, more: seq<Event>, d: Id, formats: seq<string>)
    requires SystemOk(cfg, s) && Formatted(s, d, formats)
    ensures var t := Play(cfg, s, more); SystemOk(cfg, t) && Formatted(t, d, formats)
    decreases |more|
  {
    hide Next, SystemOk;
    if more != [] {
      var e := more[|more| - 1];
      FormatsStay(cfg, s, more[..|more| - 1], d, formats);
      var t := Play(cfg, s, more[..|more| - 1]);
      NextKeeps(cfg, t, e);
      FormatsNext(cfg, t, e, d, formats);
    }
  }

  lemma FormatsNext(cfg: Config, s: System, e: Event, d: Id, formats: seq<string>)
    requires SystemOk(cfg, s) && Formatted(s, d, formats)
    ensures Formatted(Next(cfg, s, e), d, formats)
  {
    if e.Advance? && e.slot in s.procs {
      var w, p := s.world, s.procs[e.slot];
      ProcKept(cfg, w, p, e.fault, e.pick);
      ProcFormats(cfg, w, p, e.fault, e.pick, d, formats);
      var w' := StepProc(cfg, w, p, e.fault, e.pick).0;
      if d in w'.docs && d !in w.docs {
        DocsAppear(cfg, w, p, e.fault, e.pick, d);
      }
    }
    hide StepProc, WorldOk, ProcOk;
  }

  /** A file uploaded without formats: from the call that stores it on, whatever happens, a
      completed job of its document has made all three exports, on an engine with its default
      exporters that takes their names as they are. */
  lemma DefaultFormatsExported(cfg: Config, events: seq<Event>, n: nat, pick: Id, more: seq<Event>, id: Id)
    requires cfg.exporters == [] && forall f :: cfg.canon(FormatName(f)) == FormatName(f)
    requires
      var s := Play(cfg, EMPTY, events);
      n in s.procs && s.procs[n].Upload? && s.procs[n].pc == UPut && s.procs[n].udoc.formats == []
    ensures
      var s := Play(cfg, EMPTY, events);
      var d, w := s.world.nextId, Play(cfg, Next(cfg, s, Advance(n, Fine, pick)), more).world;
      id in w.jobs && w.jobs[id].status == Completed && w.jobs[id].doc == d ==>
        HasRow(w, d, ExportKind, Json) && HasRow(w, d, ExportKind, Markdown) && HasRow(w, d, ExportKind, Docx)
  {
    var s := Play(cfg, EMPTY, events);
    var names := ["markdown", "docx", "json"];
    PlayKeeps(cfg, events);
    hide Play, Next, HasRow, Selected, SystemOk, Formatted;
    PutFormats(cfg, s, n, pick);
    NextKeeps(cfg, s, Advance(n, Fine, pick));
    FormatsStay(cfg, Next(cfg, s, Advance(n, Fine, pick)), more, s.world.nextId, names);
    var t := Play(cfg, Next(cfg, s, Advance(n, Fine, pick)), more);
    if id in t.world.jobs && t.world.jobs[id].status == Completed && t.world.jobs[id].doc == s.world.nextId {
      AllThree(cfg, t, s.world.nextId, id);
    }
  }

  lemma PutFormats(cfg: Config, s: System, n: nat, pick: Id)
    requires SystemOk(cfg, s)
    requires n in s.procs && s.procs[n].Upload? && s.procs[n].pc == UPut && s.procs[n].udoc.formats == []
    ensures Formatted(Next(cfg, s, Advance(n, Fine, pick)), s.world.nextId, ["markdown", "docx", "json"])
  {
    var d := s.world.nextId;
    assert DocRowOk(s.world, d);
    UploadsAhead(cfg, s, d);
    hide WorldOk, ProcOk;
  }

  lemma AllThree(cfg: Config, s: System, d: Id, id: Id)
    requires cfg.exporters == [] && forall f :: cfg.canon(FormatName(f)) == FormatName(f)
    requires SystemOk(cfg, s) && Formatted(s, d, ["markdown", "docx", "json"])
    requires id in s.world.jobs && s.world.jobs[id].status == Completed && s.world.jobs[id].doc == d
    ensures HasRow(s.world, d, ExportKind, Json) && HasRow(s.world, d, ExportKind, Markdown)
    ensures HasRow(s.world, d, ExportKind, Docx)
  {
    var names := ["markdown", "docx", "json"];
    assert Ready(cfg, s.world, d, names) by {
      assert JobRowOk(cfg, s.world, id);
    }
    SelectedAre(cfg, names);
    hide WorldOk, HasRow, Selected;
    AllRequested(cfg);
    hide Exported;
  }

  lemma AllRequested(cfg: Config)
    requires cfg.exporters == [] && forall f :: cfg.canon(FormatName(f)) == FormatName(f)
    ensures forall f :: Exported(cfg, ["markdown", "docx", "json"], f)
  {
    var names := ["markdown", "docx", "json"];
    assert names[0] == FormatName(Markdown) && names[1] == FormatName(Docx) && names[2] == FormatName(Json);
    forall f: Format
      ensures Exported(cfg, names, f)
    {
      assert FormatName(f) in names;
    }
  }

  /** No upload is about to create a document that is not yet named. */
  lemma UploadsAhead(cfg: Config, s: System, d: Id)
    requires SystemOk(cfg, s) && s.world.nextId <= d
    ensures forall n :: n in s.procs && s.procs[n].Upload? && s.procs[n].pc == UCreateDoc ==> s.procs[n].udoc.id != d
  {
    forall n | n in s.procs && s.procs[n].Upload? && s.procs[n].pc == UCreateDoc
      ensures s.procs[n].udoc.id != d
    {
      assert ProcOk(cfg, s.world, s.procs[n]);
    }
  }

  /** Every artifact row can be downloaded. */
  lemma ArtifactsResolve(cfg: Config, events: seq<Event>, id: Id)
    ensures
      var w := Play(cfg, EMPTY, events).world;
      id in w.arts ==> w.arts[id].id == id && w.arts[id].key in w.objects
  {
    PlayKeeps(cfg, events);
    assert ArtRowOk(Play(cfg, EMPTY, events).world, id);
  }

  /** A job is attempted at most once beyond the attempts it was created with, and
      never more often than the service allows. */
  lemma AttemptsBounded(cfg: Config, events: seq<Event>, id: Id)
    ensures
      var w := Play(cfg, EMPTY, events).world;
      id in w.jobs ==>
        && w.jobs[id].born <= w.jobs[id].attempts <= w.jobs[id].born + 1
        && w.jobs[id].attempts <= MaxAttempts(cfg.maxAttempts)
  {
    PlayKeeps(cfg, events);
    assert JobRowOk(cfg, Play(cfg, EMPTY, events).world, id);
  }

  /** Jobs each of which retries the one before it, from an upload on. */
  ghost predicate RetryChain(w: World, chain: seq<Id>) {
    && (forall k :: 0 <= k < |chain| ==> chain[k] in w.jobs)
    && (forall k :: 0 < k < |chain| ==> w.jobs[chain[k]].origin == Some(chain[k - 1]))
  }

  lemma {:induction false} BornGrows(cfg: Config, w: World, chain: seq<Id>)
    requires WorldOk(cfg, w) && RetryChain(w, chain) && chain != []
    ensures w.jobs[chain[|chain| - 1]].born >= |chain| - 1
  {
    if |chain| > 1 {
      var init := chain[..|chain| - 1];
      assert forall k :: 0 <= k < |init| ==> init[k] == chain[k];
      BornGrows(cfg, w, init);
      assert JobRowOk(cfg, w, chain[|chain| - 1]);
    }
  }

  /** However cancels, retries and redeliveries interleave, an upload is followed by
      at most maxAttempts jobs along any line of retries. */
  lemma RetryChainsBounded(cfg: Config, events: seq<Event>, chain: seq<Id>)
    requires RetryChain(Play(cfg, EMPTY, events).world, chain)
    ensures |chain| <= MaxAttempts(cfg.maxAttempts)
  {
    PlayKeeps(cfg, events);
    var w := Play(cfg, EMPTY, events).world;
    if chain != [] {
      BornGrows(cfg, w, chain);
      assert JobRowOk(cfg, w, chain[|chain| - 1]);
    }
  }
}
