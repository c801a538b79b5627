/** Engine.Run as it is written, over fallible stores, and the proof that it does what the
    machine of EngineSteps does. What a computation between two calls comes to (a PDF that
    does not parse, a page that OCR rejects, an exporter that fails) is left open. */
module Engine {
  import opened Domain
  import opened EngineSteps
  import opened Backend
  import opened Calls
  import Redelivery
  import Progress
  import Cancellation
  import Seqs

  /** The machine after these outcomes of its storage calls. */
  function Steps(cfg: Config, w: World, r: Run, faults: seq<Fault>): (World, Run) {
    if faults == [] then (w, r)
    else
      var (w1, r1) := Steps(cfg, w, r, faults[..|faults| - 1]);
      Step(cfg, w1, r1, faults[|faults| - 1])
  }

  lemma FilterFrom(all: seq<Format>, wanted: set<string>, k: nat)
    requires k <= |all|
    ensures k == |all| ==> Filter(all[k..], wanted) == []
    ensures k < |all| ==>
      Filter(all[k..], wanted) == (if FormatName(all[k]) in wanted then [all[k]] else []) + Filter(all[k + 1..], wanted)
  {
    if k < |all| {
      assert all[k..][0] == all[k] && all[k..][1..] == all[k + 1..];
    }
  }

  /** filterExporters, over the default exporters when none are configured: those that were
      requested, in the order of the exporters and as often; all when nothing was requested. */
  method FilterExporters(cfg: Config, formats: seq<string>) returns (out: seq<Format>)
    ensures out == Selected(cfg, formats)
    ensures
      var all := if cfg.exporters == [] then [Json, Markdown, Docx] else cfg.exporters;
      && Seqs.Sub(out, all)
      && forall f :: multiset(out)[f]
           == if formats == [] || exists x :: x in formats && cfg.canon(x) == FormatName(f) then multiset(all)[f] else 0
  {
    hide Filter, Seqs.Sub;
    var all := if |cfg.exporters| == 0 then [Json, Markdown, Docx] else cfg.exporters;
    Seqs.SubSelf(all);
    if |formats| == 0 {
      return all;
    }
    var want := Wanted(cfg, formats);
    out := Chosen(all, want);
    Filtered(all, want);
  }

  lemma Filtered(all: seq<Format>, want: set<string>)
    ensures Seqs.Sub(Filter(all, want), all)
    ensures forall f :: multiset(Filter(all, want))[f] == if FormatName(f) in want then multiset(all)[f] else 0
  {
    hide FormatName, Filter, Seqs.Sub;
    FilteredSub(all, want);
    forall f
      ensures multiset(Filter(all, want))[f] == if FormatName(f) in want then multiset(all)[f] else 0
    {
      FilteredCount(all, want, f);
    }
  }

  lemma {:induction false} FilteredSub(all: seq<Format>, want: set<string>)
    ensures Seqs.Sub(Filter(all, want), all)
    decreases |all|
  {
    hide Filter, FormatName, Seqs.Sub;
    if all == [] {
      Seqs.SubSelf(all);
      assert Filter(all, want) == [] by { NoneFiltered(want); }
    } else {
      var f, rest := all[0], all[1..];
      FilteredSub(rest, want);
      FilterFirst(all, want);
      assert all == [f] + rest;
      Seqs.SubCons(f, Filter(rest, want), rest);
      Seqs.SubSkips(f, Filter(rest, want), rest);
    }
  }

  lemma {:induction false} FilteredCount(all: seq<Format>, want: set<string>, f: Format)
    ensures multiset(Filter(all, want))[f] == if FormatName(f) in want then multiset(all)[f] else 0
    decreases |all|
  {
    hide Filter, FormatName;
    if all == [] {
      NoneFiltered(want);
    } else {
      var g, rest := all[0], all[1..];
      FilteredCount(rest, want, f);
      FilterFirst(all, want);
      assert all == [g] + rest;
    }
  }

  lemma NoneFiltered(want: set<string>)
    ensures Filter([], want) == []
  {}

  lemma FilterFirst(all: seq<Format>, want: set<string>)
    requires all != []
    ensures
      var kept := Filter(all[1..], want);
      Filter(all, want) == if FormatName(all[0]) in want then [all[0]] + kept else kept
  {
    hide FormatName;
    assert [] + Filter(all[1..], want) == Filter(all[1..], want);
  }

  /** The requested formats by their names. */
  method Wanted(cfg: Config, formats: seq<string>) returns (want: set<string>)
    ensures want == set x | x in formats :: cfg.canon(x)
  {
    want := {};
    for i := 0 to |formats|
      invariant want == set x | x in formats[..i] :: cfg.canon(x)
    {
      assert formats[..i + 1] == formats[..i] + [formats[i]];
      want := want + {cfg.canon(formats[i])};
    }
    assert formats[..|formats|] == formats;
  }

  method Chosen(all: seq<Format>, want: set<string>) returns (out: seq<Format>)
    ensures out == Filter(all, want)
  {
    hide Filter, FormatName;
    out := [];
    assert all[0..] == all;
    for k := 0 to |all|
      invariant out + Filter(all[k..], want) == Filter(all, want)
    {
      FilterFrom(all, want, k);
      ghost var one, rest := if FormatName(all[k]) in want then [all[k]] else [], Filter(all[k + 1..], want);
      assert out + (one + rest) == (out + one) + rest;
      if FormatName(all[k]) in want {
        out := out + [all[k]];
      }
    }
    FilterFrom(all, want, |all|);
  }

  // ---------- the calls of a Run ----------

  /** A computation that fails after its call. */
  function Stored(f: Fault): Fault { if f == Reject then Fine else f }

  /** The copy that an OCR step writes. */
  function OcrRow(cfg: Config, r: Run): Job {
    var kind := cfg.kindOf(r.pdf);
    var pct := match r.pc
               case OcrTick(done) => OcrPct(done, cfg.ocrTotal(r.pdf), OcrStart(kind), OcrEnd(kind))
               case _ => OcrEnd(kind);
    r.job.(stage := AtOcr, progress := pct)
  }

  /** The storage calls that a step stands for, given its outcome: one, but none where only
      a computation failed before it. */
  function Asked(cfg: Config, r: Run, f: Fault): seq<Call> {
    match r.pc
    case Begin => [Call(JobRead(r.id), f)]
    case LoadDoc => [Call(DocRead(r.job.doc), f)]
    case MarkDoc => [Call(DocSaved(r.doc), f)]
    case MarkJob => [Call(JobSaved(r.job), f)]
    case FindCdom => [Call(RowsListed(r.doc.id), f)]
    case Resume => [Call(JobSaved(r.job), f)]
    case Check(_) => [Call(JobRead(r.id), f)]
    case Note(_) => [Call(JobSaved(r.job), Stored(f))]
    case ReadPdf => [Call(ObjectRead(r.doc.source), Stored(f))]
    case SavePages => [Call(DocSaved(r.doc), f)]
    case OcrBatch => if f == Reject then [] else [Call(JobSaved(OcrRow(cfg, r)), f)]
    case OcrMerge => []
    case OcrTick(_) => if f == Reject then [] else [Call(JobSaved(OcrRow(cfg, r)), f)]
    case PutCdom => [Call(ObjectPut(CdomFile(r.doc.id), cfg.cdom(r.doc.id, r.pdf)), f)]
    case CreateCdom =>
      [Call(RowMade(r.doc.id, r.job.id, CdomKind, Json, CdomFile(r.doc.id), |cfg.cdom(r.doc.id, r.pdf)|), f)]
    case ReadCdom => [Call(ObjectRead(CdomFile(r.doc.id)), Stored(f))]
    case FindExport(i) => [Call(RowsListed(r.doc.id), f)]
    case PutExport(i) =>
      if f == Reject || i >= |Selected(cfg, r.doc.formats)| then []
      else
        var format := Selected(cfg, r.doc.formats)[i];
        [Call(ObjectPut(Output(r.doc.id, format), cfg.render(format, r.body)), f)]
    case CreateExport(i) =>
      if i >= |Selected(cfg, r.doc.formats)| then []
      else
        var format := Selected(cfg, r.doc.formats)[i];
        [Call(RowMade(r.doc.id, r.job.id, ExportKind, format, Output(r.doc.id, format), |cfg.render(format, r.body)|),
              f)]
    case CompleteJob => [Call(JobSaved(r.job), f)]
    case CompleteDoc => [Call(DocSaved(r.doc), f)]
    case CompleteNote => [Call(JobSaved(r.job), f)]
    case FailJob(_) => [Call(JobSaved(r.job), f)]
    case FailDoc(_) => [Call(DocSaved(r.doc), f)]
    case CancelledJob => [Call(JobSaved(r.job), f)]
    case CancelledDoc => [Call(DocSaved(r.doc), f)]
    case Done(_) => []
  }

  /** What the log of the stores gets from these steps. */
  function Told(cfg: Config, w: World, r: Run, faults: seq<Fault>): seq<Call>
    decreases |faults|
  {
    if faults == [] then []
    else
      var init := faults[..|faults| - 1];
      Told(cfg, w, r, init) + Asked(cfg, Steps(cfg, w, r, init).1, faults[|faults| - 1])
  }

  lemma ToldSnoc(cfg: Config, w: World, r: Run, faults: seq<Fault>, f: Fault)
    ensures Told(cfg, w, r, faults + [f]) == Told(cfg, w, r, faults) + Asked(cfg, Steps(cfg, w, r, faults).1, f)
  {
    hide Asked, Steps;
    assert (faults + [f])[..|faults|] == faults;
  }

  /** One Run: its copies of the job and the document, which its helpers update. */
  class Worker {
    const cfg: Config
    const stores: Backend
    const id: Id
    var job: Job
    var doc: Document
    ghost const first: World
    ghost const before: seq<Call>
    ghost var faults: seq<Fault>
    ghost var run: Run

    constructor (cfg: Config, stores: Backend, id: Id)
      ensures this.cfg == cfg && this.stores == stores && this.id == id
      ensures first == stores.View() && before == stores.log && InStep() && run == Start(id)
    {
      this.cfg, this.stores, this.id := cfg, stores, id;
      this.job, this.doc := NO_JOB, NO_DOC;
      this.first, this.before, this.faults, this.run := stores.View(), stores.log, [], Start(id);
    }

    ghost function Frame(): set<object> { {this} + stores.Repr() }

    /** The machine, given the outcomes so far, is where this Run is. */
    ghost predicate Linked(w: World, l: seq<Call>)
      reads this
    {
      Steps(cfg, first, Start(id), faults) == (w, run) && l == before + Told(cfg, first, Start(id), faults)
    }

    ghost predicate InStep()
      reads this, stores.Repr()
    {
      Linked(stores.View(), stores.log)
    }

    ghost predicate Here()
      reads this, stores.Repr()
    {
      && stores.Valid() && InStep() && run.id == id && run.job == job && run.doc == doc && job.id == id
    }

    /** Between a checkpoint's progress write and what follows it. */
    ghost predicate Noting(w: World, l: seq<Call>, cp: Checkpoint)
      reads this, stores.Repr()
    {
      && stores.Valid() && Linked(w, l) && run.id == id && run.job == job && run.doc == doc && job.id == id
      && run.pc == Note(cp) && job.id in w.jobs && stores.View() == Domain.UpdateJob(w, job, Fine)
      && stores.log == l + [Call(JobSaved(job), Fine)]
    }

    ghost predicate Over(redeliver: bool)
      reads this, stores.Repr()
    {
      stores.Valid() && InStep() && run.pc == Done(redeliver)
    }

    /** The next storage call has been made, with this outcome. */
    ghost method Tick(f: Fault, w: World, l: seq<Call>)
      requires Linked(w, l) && Step(cfg, w, run, f).0 == stores.View() && stores.log == l + Asked(cfg, run, f)
      modifies this`run, this`faults
      ensures InStep() && run == Step(cfg, w, old(run), f).1
    {
      hide Step, Asked;
      assert (faults + [f])[..|faults|] == faults;
      ToldSnoc(cfg, first, Start(id), faults, f);
      faults := faults + [f];
      run := Step(cfg, w, run, f).1;
    }

    // ---------- the helpers ----------

    method SetProgress(stage: Stage, progress: int) returns (e: Err, ghost f: Fault)
      requires stores.Valid()
      modifies this`job, stores`calls, stores`log, stores.jobs
      ensures stores.log == old(stores.log) + [Call(JobSaved(job), f)]
      ensures stores.Valid() && job == old(job).(stage := stage, progress := progress)
      ensures f != Reject && stores.View() == Domain.UpdateJob(old(stores.View()), job, f)
      ensures e == if f == StoreDown then StoreErr else if job.id in old(stores.View()).jobs then NoErr else NotFound
    {
      job := job.(stage := stage, progress := progress);
      e, f := stores.UpdateJob(job);
    }

    /** The last write of a Run that failed or was cancelled; its error is ignored. */
    method EndDoc(status: DocStatus, redeliver: bool)
      requires stores.Valid() && InStep() && run.doc == doc.(status := status)
      requires run.pc == FailDoc(redeliver) || (run.pc == CancelledDoc && !redeliver)
      modifies Frame()
      ensures Over(redeliver)
    {
      hide Steps, Told, Asked, Step, Domain.UpdateDoc;
      doc := doc.(status := status);
      ghost var w, l := stores.View(), stores.log;
      var _, f := stores.UpdateDoc(doc);
      LastDocStep(cfg, w, run, f);
      Tick(f, w, l);
    }

    method Fail(code: Code, retryable: bool)
      requires stores.Valid() && InStep() && run.doc == doc
      requires run.pc == FailJob(retryable) && run.job == job.(status := Failed, error := code, stage := AtFailed)
      modifies Frame()
      ensures Over(retryable)
    {
      hide Steps, Told, Asked, Step, Domain.UpdateJob;
      job := job.(status := Failed, error := code, stage := AtFailed);
      ghost var w, l := stores.View(), stores.log;
      var _, f1 := stores.UpdateJob(job);
      LastJobStep(cfg, w, run, f1);
      Tick(f1, w, l);
      EndDoc(DocFailed, retryable);
    }

    method MarkCancelled()
      requires stores.Valid() && InStep() && run.doc == doc
      requires run.pc == CancelledJob && run.job == job.(stage := AtCancelled)
      modifies Frame()
      ensures Over(false)
    {
      hide Steps, Told, Asked, Step, Domain.UpdateJob;
      job := job.(stage := AtCancelled);
      ghost var w, l := stores.View(), stores.log;
      var _, f1 := stores.UpdateJob(job);
      LastJobStep(cfg, w, run, f1);
      Tick(f1, w, l);
      EndDoc(DocCancelled, false);
    }

    /** What checkpoint leaves behind when it returns an error. */
    ghost predicate Stopped(e: Err)
      reads this, stores.Repr()
    {
      && stores.Valid() && InStep()
      && (if e == CancelledErr then run.pc == CancelledJob && run.job == job.(stage := AtCancelled) && run.doc == doc
          else run.pc == Done(e == StoreErr))
    }

    method Checkpoint(cp: Checkpoint, progress: int) returns (e: Err, ghost w: World, ghost l: seq<Call>)
      requires Here() && run.pc == Check(cp) && progress == CheckpointProgress(cp, cfg.kindOf(run.pdf))
      modifies Frame()
      ensures e == NoErr ==> Noting(w, l, cp) && run.pdf == old(run.pdf) && doc == old(doc)
      ensures e == NoErr ==> job == old(job).(stage := CheckpointStage(cp), progress := progress)
      ensures e != NoErr ==> Stopped(e)
    {
      hide Steps, Told, Asked, Step, Domain.UpdateJob;
      w, l := stores.View(), stores.log;
      var a, f := stores.GetJob(job.id);
      CheckStep(cfg, w, run, f);
      Tick(f, w, l);
      if a.Down? {
        return StoreErr, w, l;
      }
      if a.Missing? {
        return NotFound, w, l;
      }
      if a.value.status == Cancelled {
        return CancelledErr, w, l;
      }
      e, w, l := NoteProgress(cp, progress);
    }

    /** The progress write of a checkpoint. */
    method NoteProgress(cp: Checkpoint, progress: int) returns (e: Err, ghost w: World, ghost l: seq<Call>)
      requires stores.Valid() && InStep() && run.id == id == job.id && run.doc == doc
      requires run.pc == Note(cp) && run.job == job.(stage := CheckpointStage(cp), progress := progress)
      modifies Frame()
      ensures e == NoErr ==> Noting(w, l, cp) && run == old(run) && doc == old(doc)
      ensures e == NoErr ==> job == old(job).(stage := CheckpointStage(cp), progress := progress)
      ensures e != NoErr ==> e != CancelledErr && Stopped(e)
    {
      hide Steps, Told, Asked, Step, Domain.UpdateJob;
      w, l := stores.View(), stores.log;
      ghost var f: Fault;
      e, f := SetProgress(CheckpointStage(cp), progress);
      if e != NoErr {
        JobStep(cfg, w, run, f);
        Tick(f, w, l);
      }
    }

    method HandleStepErr(e: Err) returns (redeliver: bool)
      requires e != NoErr && Stopped(e)
      modifies Frame()
      ensures Over(redeliver)
    {
      if e == CancelledErr {
        MarkCancelled();
        return false;
      }
      redeliver := e == StoreErr;
    }

    // ---------- the stages ----------

    method FindCdomRow() returns (found: bool)
      requires Here() && run.pc == FindCdom
      modifies Frame()
      ensures InStep() && stores.Valid() && job == old(job) && doc == old(doc)
      ensures found ==> run == At(Noted(old(run), AtExport, 90), Resume)
      ensures !found ==> Here() && run.pc == Check(Detect)
    {
      hide Steps, Told, StepCheckpoint, StepExtract, StepStore, StepExport, StepEnd, HasRow;
      ghost var w, l := stores.View(), stores.log;
      var a, f := stores.FindArtifact(doc.id, CdomKind, Json);
      Tick(f, w, l);
      found := a.Found?;
    }

    /** Reading the job and the document. */
    method Load() returns (out: Outcome)
      requires stores.Valid() && InStep() && run == Start(id)
      modifies Frame()
      ensures out.Ended? ==> Over(out.redeliver)
      ensures out.On? ==> stores.Valid() && InStep() && job.id == id
      ensures
        out.On? ==>
          run == Start(id).(job := if job.status == Queued then job.(status := Processing) else job,
                            doc := if job.status == Queued then doc.(status := DocProcessing) else doc,
                            pc := if job.status == Queued then MarkDoc else FindCdom)
    {
      hide Steps, Told, Asked, Step;
      ghost var w, l := stores.View(), stores.log;
      var a, f := stores.GetJob(id);
      BeginStep(cfg, w, run, f);
      Tick(f, w, l);
      if !a.Found? {
        return Ended(a.Down?);
      }
      job := a.value;
      if job.status == Cancelled || job.status == Completed {
        return Ended(false);
      }
      out := LoadDocument();
    }

    method LoadDocument() returns (out: Outcome)
      requires stores.Valid() && InStep() && job.id == id && run == Start(id).(job := job, pc := LoadDoc)
      modifies Frame()
      ensures out.Ended? ==> Over(out.redeliver)
      ensures out.On? ==> stores.Valid() && InStep() && job == old(job)
      ensures
        out.On? ==>
          run == Start(id).(job := if job.status == Queued then job.(status := Processing) else job,
                            doc := if job.status == Queued then doc.(status := DocProcessing) else doc,
                            pc := if job.status == Queued then MarkDoc else FindCdom)
    {
      hide Steps, Told, Asked, Step;
      ghost var w, l := stores.View(), stores.log;
      var d, f := stores.GetDoc(job.doc);
      LoadStep(cfg, w, run, f);
      Tick(f, w, l);
      if !d.Found? {
        return Ended(d.Down?);
      }
      doc := d.value;
      out := On;
    }

    /** A queued job is marked as processing, its document before it. */
    method MarkProcessing() returns (out: Outcome)
      requires stores.Valid() && InStep() && job.id == id && job.status == Queued && run.id == id
      requires run.pc == MarkDoc && run.job == job.(status := Processing) && run.doc == doc.(status := DocProcessing)
      modifies Frame()
      ensures out.Ended? ==> Over(out.redeliver)
      ensures out.On? ==> Here() && run.pc == FindCdom && run.pdf == old(run.pdf)
    {
      hide Steps, Told, Asked, Step;
      assert CanTransition(job.status, Processing);
      job := job.(status := Processing);
      doc := doc.(status := DocProcessing);
      var e := MarkDocument();
      if e != NoErr {
        return Ended(e == StoreErr);
      }
      out := CountAttempt();
    }

    method MarkDocument() returns (e: Err)
      requires Here() && run.pc == MarkDoc
      modifies Frame()
      ensures e != NoErr ==> Over(e == StoreErr)
      ensures e == NoErr ==>
        stores.Valid() && InStep() && job.id == id && run.id == id && run.pc == MarkJob && run.doc == doc
      ensures e == NoErr ==> run.job == job.(attempts := job.attempts + 1) && run.pdf == old(run.pdf)
    {
      hide Steps, Told, Asked, Step, Domain.UpdateDoc;
      ghost var w, l := stores.View(), stores.log;
      ghost var f: Fault;
      e, f := stores.UpdateDoc(doc);
      DocStep(cfg, w, run, f);
      Tick(f, w, l);
    }

    method CountAttempt() returns (out: Outcome)
      requires stores.Valid() && InStep() && job.id == id && run.id == id
      requires run.pc == MarkJob && run.job == job.(attempts := job.attempts + 1) && run.doc == doc
      modifies Frame()
      ensures out.Ended? ==> Over(out.redeliver)
      ensures out.On? ==> Here() && run.pc == FindCdom && run.pdf == old(run.pdf)
    {
      hide Steps, Told, Asked, Step, Domain.UpdateJob;
      job := job.(attempts := job.attempts + 1);
      ghost var w, l := stores.View(), stores.log;
      var e, f := stores.UpdateJob(job);
      JobStep(cfg, w, run, f);
      Tick(f, w, l);
      out := if e != NoErr then Ended(e == StoreErr) else On;
    }

    /** The checkpoint is noted, and what follows it comes to this. */
    ghost method NoteDone(cp: Checkpoint, w: World, l: seq<Call>, f: Fault)
      requires Noting(w, l, cp) && f != StoreDown
      modifies this`run, this`faults
      ensures stores.Valid() && InStep() && run == AfterNote(cfg, old(run), cp, f)
    {
      hide Steps, Told, Asked, Step, AfterNote, Domain.UpdateJob;
      NotedStep(cfg, w, run, f);
      Tick(f, w, l);
    }

    /** Detection: read the PDF, classify it, note its pages. */
    method Classify() returns (out: Outcome, pdf: Bytes)
      requires Here() && run.pc == Check(Detect)
      modifies Frame()
      ensures out.Ended? ==> Over(out.redeliver)
      ensures out.On? ==> Here() && run.pdf == pdf && run.pc == Check(KindCheckpoint(cfg, run))
    {
      hide Steps, Told, Asked, StepLoad, StepCheckpoint, StepStore, StepExport, StepEnd, Domain.UpdateJob,
          Domain.UpdateDoc;
      pdf := [];
      var e, w, l := Checkpoint(Detect, 5);
      if e != NoErr {
        var redeliver := HandleStepErr(e);
        return Ended(redeliver), pdf;
      }
      NoteDone(Detect, w, l, Fine);
      out, pdf := ReadAndCount();
    }

    method ReadAndCount() returns (out: Outcome, pdf: Bytes)
      requires Here() && run.pc == ReadPdf
      modifies Frame()
      ensures out.Ended? ==> Over(out.redeliver)
      ensures out.On? ==> Here() && run.pdf == pdf && run.pc == Check(KindCheckpoint(cfg, run))
    {
      hide Steps, Told, Asked, Step;
      pdf := [];
      ghost var w, l := stores.View(), stores.log;
      var a, f := stores.GetObject(doc.source);
      var broken: bool := *;
      ReadStep(cfg, w, run, if a.Found? && broken then Reject else f);
      Tick(if a.Found? && broken then Reject else f, w, l);
      if !a.Found? {
        Fail(StorageError, true);
        return Ended(true), pdf;
      }
      if broken {
        Fail(InvalidPdf, false);
        return Ended(false), pdf;
      }
      pdf := a.value;
      CountPages(pdf);
      out := On;
    }

    method CountPages(pdf: Bytes)
      requires stores.Valid() && InStep() && run.id == id == job.id && run.job == job && run.pdf == pdf
      requires run.pc == SavePages && run.doc == doc.(pages := cfg.pagesOf(pdf))
      modifies Frame()
      ensures Here() && run.pdf == pdf && run.pc == Check(KindCheckpoint(cfg, run))
    {
      hide Steps, Told, Asked, Step, Domain.UpdateDoc;
      doc := doc.(pages := cfg.pagesOf(pdf));
      ghost var w, l := stores.View(), stores.log;
      var _, f := stores.UpdateDoc(doc);
      LastDocStep(cfg, w, run, f);
      Tick(f, w, l);
    }

    /** ocrPages and what is made of its answer. */
    method Ocr(pdf: Bytes, start: int, end: int) returns (out: Outcome)
      requires stores.Valid() && InStep() && run.id == id == job.id && run.job == job && run.doc == doc
      requires run == EnterOcr(cfg, run) && run.pdf == pdf
      requires start == OcrStart(cfg.kindOf(pdf)) && end == OcrEnd(cfg.kindOf(pdf))
      modifies Frame()
      ensures out.Ended? ==> Over(out.redeliver)
      ensures out.On? ==> Here() && run.pdf == pdf && run.pc == Check(EngineSteps.Layout)
    {
      hide Steps, Told, Asked, Step;
      var total := cfg.ocrTotal(pdf);
      if total == 0 {
        return On;
      }
      if cfg.batchOcr && total > 1 {
        var answered: bool := *;
        if answered {
          out := BatchAnswered(end);
          return;
        }
        ghost var w, l := stores.View(), stores.log;
        BatchStep(cfg, w, run, Reject);
        Tick(Reject, w, l);
      }
      out := OcrPageByPage(pdf, total, start, end);
    }

    /** The batch has come back; a page may be missing in it. */
    method BatchAnswered(end: int) returns (out: Outcome)
      requires Here() && run.pc == OcrBatch && end == OcrEnd(cfg.kindOf(run.pdf))
      modifies Frame()
      ensures out.Ended? ==> Over(out.redeliver)
      ensures out.On? ==> Here() && run.pdf == old(run.pdf) && run.pc == Check(EngineSteps.Layout)
    {
      hide Steps, Told, Asked, Step;
      NoteBatch(end);
      ghost var w, l := stores.View(), stores.log;
      var missing: bool := *;
      MergeStep(cfg, w, run, if missing then Reject else Fine);
      Tick(if missing then Reject else Fine, w, l);
      if missing {
        Fail(OcrError, true);
        return Ended(true);
      }
      out := On;
    }

    method NoteBatch(end: int)
      requires Here() && run.pc == OcrBatch && end == OcrEnd(cfg.kindOf(run.pdf))
      modifies this`job, this`run, this`faults, stores`calls, stores`log, stores.jobs
      ensures Here() && run.pdf == old(run.pdf) && run.pc == OcrMerge
    {
      hide Steps, Told, Asked, Step, Domain.UpdateJob;
      ghost var w, l, r := stores.View(), stores.log, run;
      var _, f := SetProgress(AtOcr, end);
      BatchStep(cfg, w, r, f);
      Tick(f, w, l);
    }

    /** The fan-out of ocrPages, its pages in the order in which they finish. */
    method OcrPageByPage(pdf: Bytes, total: nat, start: int, end: int) returns (out: Outcome)
      requires Here() && run.pdf == pdf && run.pc == OcrTick(1) && total == cfg.ocrTotal(pdf) > 0
      requires start == OcrStart(cfg.kindOf(pdf)) && end == OcrEnd(cfg.kindOf(pdf))
      modifies Frame()
      ensures out.Ended? ==> Over(out.redeliver)
      ensures out.On? ==> Here() && run.pdf == pdf && run.pc == Check(EngineSteps.Layout)
    {
      hide Steps, Told, Asked, Step, OcrStart, OcrEnd;
      for done := 0 to total
        invariant Here() && run.pdf == pdf
        invariant run.pc == if done < total then OcrTick(done + 1) else Check(EngineSteps.Layout)
      {
        var rejected: bool := *;
        if rejected {
          PageRejected();
          return Ended(true);
        }
        PageRead(done + 1, total, start, end);
      }
      out := On;
    }

    method PageRejected()
      requires Here() && run.pc.OcrTick?
      modifies Frame()
      ensures Over(true)
    {
      hide Steps, Told, Asked, Step;
      ghost var w, l := stores.View(), stores.log;
      RejectedPage(cfg, w, run);
      Tick(Reject, w, l);
      Fail(OcrError, true);
    }

    method PageRead(done: nat, total: nat, start: int, end: int)
      requires Here() && run.pc == OcrTick(done) && total == cfg.ocrTotal(run.pdf)
      requires start == OcrStart(cfg.kindOf(run.pdf)) && end == OcrEnd(cfg.kindOf(run.pdf))
      modifies this`job, this`run, this`faults, stores`calls, stores`log, stores.jobs
      ensures Here() && run.pdf == old(run.pdf)
      ensures run.pc == if done < total then OcrTick(done + 1) else Check(EngineSteps.Layout)
    {
      hide Steps, Told, Asked, Step, Domain.UpdateJob, OcrPct, OcrStart, OcrEnd;
      ghost var w, l, r := stores.View(), stores.log, run;
      var _, f := SetProgress(AtOcr, OcrPct(done, total, start, end));
      ReadPage(cfg, w, r, f);
      Tick(f, w, l);
    }

    /** The pages of the document, by its kind. */
    method Pages(pdf: Bytes) returns (out: Outcome)
      requires Here() && run.pdf == pdf && run.pc == Check(KindCheckpoint(cfg, run))
      modifies Frame()
      ensures out.Ended? ==> Over(out.redeliver)
      ensures out.On? ==> Here() && run.pdf == pdf && run.pc == Check(EngineSteps.Layout)
    {
      hide Steps, Told, Asked, Step, Domain.UpdateJob;
      var kind := cfg.kindOf(pdf);
      var cp := if kind == Scanned then OcrAll else Extract;
      var e, w, l := Checkpoint(cp, if kind == Mixed then 30 else 35);
      if e != NoErr {
        var redeliver := HandleStepErr(e);
        return Ended(redeliver);
      }
      NoteDone(cp, w, l, Fine);
      if kind == Digital {
        return On;
      }
      out := Ocr(pdf, if kind == Mixed then 30 else 35, if kind == Mixed then 55 else 58);
    }

    /** Layout, clean-up and validation, each behind its checkpoint. */
    method Normalize() returns (out: Outcome)
      requires Here() && run.pc == Check(EngineSteps.Layout)
      modifies Frame()
      ensures out.Ended? ==> Over(out.redeliver)
      ensures out.On? ==> Here() && run.pdf == old(run.pdf) && run.pc == PutCdom
    {
      hide Steps, Told, Asked, Step, Domain.UpdateJob;
      var e, w, l := Checkpoint(EngineSteps.Layout, 60);
      if e != NoErr {
        var redeliver := HandleStepErr(e);
        return Ended(redeliver);
      }
      var broken: bool := *;
      NoteDone(EngineSteps.Layout, w, l, if broken then Reject else Fine);
      if broken {
        Fail(LayoutFailed, false);
        return Ended(false);
      }
      out := CleanUp();
    }

    method CleanUp() returns (out: Outcome)
      requires Here() && run.pc == Check(Postprocess)
      modifies Frame()
      ensures out.Ended? ==> Over(out.redeliver)
      ensures out.On? ==> Here() && run.pdf == old(run.pdf) && run.pc == PutCdom
    {
      hide Steps, Told, Asked, Step, Domain.UpdateJob;
      var e, w, l := Checkpoint(Postprocess, 70);
      if e != NoErr {
        var redeliver := HandleStepErr(e);
        return Ended(redeliver);
      }
      NoteDone(Postprocess, w, l, Fine);
      out := Validated();
    }

    method Validated() returns (out: Outcome)
      requires Here() && run.pc == Check(EngineSteps.Normalize)
      modifies Frame()
      ensures out.Ended? ==> Over(out.redeliver)
      ensures out.On? ==> Here() && run.pdf == old(run.pdf) && run.pc == PutCdom
    {
      hide Steps, Told, Asked, Step, Domain.UpdateJob;
      var e, w, l := Checkpoint(EngineSteps.Normalize, 75);
      if e != NoErr {
        var redeliver := HandleStepErr(e);
        return Ended(redeliver);
      }
      var invalid: bool := *;
      NoteDone(EngineSteps.Normalize, w, l, if invalid then Reject else Fine);
      if invalid {
        Fail(NormalizationFailed, false);
        return Ended(false);
      }
      out := On;
    }

    /** Storing the CDOM and its row. */
    method StoreCdom(pdf: Bytes) returns (out: Outcome)
      requires Here() && run.pdf == pdf && run.pc == PutCdom
      modifies Frame()
      ensures out.Ended? ==> Over(out.redeliver)
      ensures out.On? ==> Here() && run.pc == Check(EngineSteps.Export)
    {
      hide Steps, Told, Asked, Step;
      var raw := cfg.cdom(doc.id, pdf);
      ghost var w, l := stores.View(), stores.log;
      var ok, f := stores.PutObject(CdomFile(doc.id), raw);
      StoreStep(cfg, w, run, f);
      Tick(f, w, l);
      if !ok {
        Fail(StorageError, true);
        return Ended(true);
      }
      out := CreateCdomRow(|raw|);
    }

    method CreateCdomRow(size: nat) returns (out: Outcome)
      requires Here() && size == |cfg.cdom(run.doc.id, run.pdf)| && run.pc == CreateCdom
      modifies Frame()
      ensures out.Ended? ==> Over(out.redeliver)
      ensures out.On? ==> Here() && run.pc == Check(EngineSteps.Export)
    {
      hide Steps, Told, Asked, Step, Domain.CreateArtifact;
      ghost var w, l := stores.View(), stores.log;
      var ok, f := stores.CreateArtifact(doc.id, job.id, CdomKind, Json, CdomFile(doc.id), size);
      StoreStep(cfg, w, run, f);
      Tick(f, w, l);
      if !ok {
        Fail(StorageError, true);
        return Ended(true);
      }
      out := On;
    }

    // ---------- exports ----------

    /** The Run is where the export stage finds it, but for the program point. */
    ghost predicate Local(base: Run)
      reads this, stores.Repr()
    {
      stores.Valid() && InStep() && base.job == job && base.doc == doc && base.id == id == job.id
    }

    method EnsureExports(ghost base: Run) returns (out: Outcome, ghost last: Run)
      requires Local(base) && run == EnterExports(cfg, base)
      modifies Frame()
      ensures out.Ended? ==> Over(out.redeliver)
      ensures out.On? ==> Local(last) && run == EnterExport(cfg, last, |Selected(cfg, doc.formats)|)
    {
      hide Steps, Told, Asked, Step, Selected, EnterExport;
      last := base;
      var sel := FilterExporters(cfg, doc.formats);
      if |sel| == 0 {
        Fail(ExportFailed, false);
        return Ended(false), last;
      }
      out, last := ExportFrom(sel, At(base, ReadCdom));
    }

    /** The exports of the stored CDOM. */
    method ExportFrom(sel: seq<Format>, ghost base: Run) returns (out: Outcome, ghost last: Run)
      requires Local(base) && run == base && base.pc == ReadCdom && sel == Selected(cfg, doc.formats)
      modifies Frame()
      ensures out.Ended? ==> Over(out.redeliver)
      ensures out.On? ==> Local(last) && run == EnterExport(cfg, last, |Selected(cfg, doc.formats)|)
    {
      hide Steps, Told, Asked, Step, Selected, EnterExport;
      last := base;
      ghost var w, l := stores.View(), stores.log;
      var a, f := stores.GetObject(CdomFile(doc.id));
      var garbled: bool := *;
      ReadCdomStep(cfg, w, run, if a.Found? && garbled then Reject else f);
      Tick(if a.Found? && garbled then Reject else f, w, l);
      if !a.Found? {
        Fail(StorageError, true);
        return Ended(true), last;
      }
      if garbled {
        Fail(NormalizationFailed, false);
        return Ended(false), last;
      }
      last := base.(body := a.value);
      out := ExportAll(sel, a.value, last);
    }

    method ExportAll(sel: seq<Format>, body: Bytes, ghost base: Run) returns (out: Outcome)
      requires Local(base) && run == EnterExport(cfg, base, 0) && base.body == body && sel == Selected(cfg, doc.formats)
      modifies Frame()
      ensures out.Ended? ==> Over(out.redeliver)
      ensures out.On? ==> Local(base) && doc == old(doc) && run == EnterExport(cfg, base, |sel|)
    {
      hide Steps, Told, Asked, Selected, EnterExport;
      for i := 0 to |sel|
        invariant Local(base) && doc == old(doc) && run == EnterExport(cfg, base, i)
      {
        var one := ExportOne(sel, i, body, base);
        if one.Ended? {
          return one;
        }
      }
      out := On;
    }

    method ExportOne(sel: seq<Format>, i: nat, body: Bytes, ghost base: Run) returns (out: Outcome)
      requires sel == Selected(cfg, doc.formats) && i < |sel|
      requires Local(base) && run == EnterExport(cfg, base, i) && base.body == body
      modifies Frame()
      ensures out.Ended? ==> Over(out.redeliver)
      ensures out.On? ==> Local(base) && doc == old(doc) && run == EnterExport(cfg, base, i + 1)
    {
      hide Steps, Told, StepLoad, StepCheckpoint, StepExtract, StepStore, StepEnd, Selected, HasRow;
      ghost var w, l := stores.View(), stores.log;
      var a, f := stores.FindArtifact(doc.id, ExportKind, sel[i]);
      Tick(f, w, l);
      if a.Found? {
        return On;
      }
      out := ExportNew(sel, i, body, base);
    }

    method ExportNew(sel: seq<Format>, i: nat, body: Bytes, ghost base: Run) returns (out: Outcome)
      requires sel == Selected(cfg, doc.formats) && i < |sel|
      requires Local(base) && run == At(base, PutExport(i)) && base.body == body
      modifies Frame()
      ensures out.Ended? ==> Over(out.redeliver)
      ensures out.On? ==> Local(base) && doc == old(doc) && run == EnterExport(cfg, base, i + 1)
    {
      hide Steps, Told, Asked, Step, Selected, EnterExport;
      ghost var w, l := stores.View(), stores.log;
      var failed: bool := *;
      if failed {
        PutExportStep(cfg, w, run, Reject);
        Tick(Reject, w, l);
        Fail(ExportFailed, false);
        return Ended(false);
      }
      var payload := cfg.render(sel[i], body);
      var ok, f := stores.PutObject(Output(doc.id, sel[i]), payload);
      PutExportStep(cfg, w, run, f);
      Tick(f, w, l);
      if !ok {
        Fail(StorageError, true);
        return Ended(true);
      }
      out := ExportRow(sel, i, |payload|, base);
    }

    method ExportRow(sel: seq<Format>, i: nat, size: nat, ghost base: Run) returns (out: Outcome)
      requires sel == Selected(cfg, doc.formats) && i < |sel|
      requires Local(base) && run == At(base, CreateExport(i)) && size == |cfg.render(sel[i], base.body)|
      modifies Frame()
      ensures out.Ended? ==> Over(out.redeliver)
      ensures out.On? ==> Local(base) && doc == old(doc) && run == EnterExport(cfg, base, i + 1)
    {
      hide Steps, Told, Asked, Step, Selected, Domain.CreateArtifact;
      ghost var w, l := stores.View(), stores.log;
      var ok, f := stores.CreateArtifact(doc.id, job.id, ExportKind, sel[i], Output(doc.id, sel[i]), size);
      CreateExportStep(cfg, w, run, f);
      Tick(f, w, l);
      if !ok {
        Fail(StorageError, true);
        return Ended(true);
      }
      out := On;
    }

    method Complete(ghost base: Run) returns (redeliver: bool)
      requires Local(base) && run == EnterExport(cfg, base, |Selected(cfg, doc.formats)|)
      modifies Frame()
      ensures Over(redeliver)
    {
      hide Steps, Told, Asked, Step, Selected;
      if !CanTransition(job.status, Completed) {
        return false;
      }
      job := job.(status := Completed, stage := AtCompleted, progress := 100, error := NoError);
      var e := CompleteJobRow();
      if e != NoErr {
        return e == StoreErr;
      }
      redeliver := FinishDocument();
    }

    method FinishDocument() returns (redeliver: bool)
      requires stores.Valid() && InStep() && run.pc == CompleteDoc && run.doc == doc.(status := DocCompleted)
      requires run.job == job && job.stage == AtCompleted && job.progress == 100
      modifies Frame()
      ensures Over(redeliver)
    {
      hide Steps, Told, Asked, Step;
      doc := doc.(status := DocCompleted);
      redeliver := CompleteDocument();
    }

    method CompleteJobRow() returns (e: Err)
      requires Here() && run.pc == CompleteJob && job.stage == AtCompleted && job.progress == 100
      modifies Frame()
      ensures e != NoErr ==> Over(e == StoreErr)
      ensures e == NoErr ==> stores.Valid() && InStep() && run.pc == CompleteDoc && run.job == job
      ensures e == NoErr ==> job.stage == AtCompleted && job.progress == 100 && run.doc == doc.(status := DocCompleted)
    {
      hide Steps, Told, Asked, Step, Domain.UpdateJob;
      ghost var w, l := stores.View(), stores.log;
      ghost var f: Fault;
      e, f := stores.UpdateJob(job);
      CompleteStep(cfg, w, run, f);
      Tick(f, w, l);
    }

    method CompleteDocument() returns (redeliver: bool)
      requires stores.Valid() && InStep() && run.pc == CompleteDoc
      requires run.job == job && job.stage == AtCompleted && job.progress == 100 && run.doc == doc
      modifies Frame()
      ensures Over(redeliver)
    {
      hide Steps, Told, Asked, Step, Domain.UpdateDoc;
      ghost var w, l := stores.View(), stores.log;
      var e, f := stores.UpdateDoc(doc);
      DocStep(cfg, w, run, f);
      Tick(f, w, l);
      if e != NoErr {
        return e == StoreErr;
      }
      NoteCompletion();
      redeliver := false;
    }

    method NoteCompletion()
      requires stores.Valid() && InStep() && run.pc == CompleteNote
      requires run.job == job && job.stage == AtCompleted && job.progress == 100
      modifies Frame()
      ensures Over(false)
    {
      hide Steps, Told, Asked, Step, Domain.UpdateJob;
      ghost var w, l := stores.View(), stores.log;
      var _, f := SetProgress(AtCompleted, 100);
      LastJobStep(cfg, w, run, f);
      Tick(f, w, l);
    }

    // ---------- Run ----------

    /** What a Run does once its job is marked as processing. */
    method Process() returns (redeliver: bool)
      requires Here() && run.pc == FindCdom
      modifies Frame()
      ensures Over(redeliver)
    {
      hide Steps, Told, Asked, StepLoad, StepCheckpoint, StepExtract, StepStore, StepExport, StepEnd, Selected;
      var out: Outcome;
      ghost var base: Run;
      var found := FindCdomRow();
      if found {
        out, base := ResumeExports();
      } else {
        out, base := MakeCdom();
      }
      if out.Ended? {
        return out.redeliver;
      }
      ghost var last: Run;
      out, last := EnsureExports(base);
      if out.Ended? {
        return out.redeliver;
      }
      redeliver := Complete(last);
    }

    /** The CDOM is already there: only what follows is left to do. */
    method ResumeExports() returns (out: Outcome, ghost base: Run)
      requires stores.Valid() && InStep() && run.id == id == job.id && run.doc == doc
      requires run.pc == Resume && run.job == job.(stage := AtExport, progress := 90)
      modifies Frame()
      ensures out.Ended? ==> Over(out.redeliver)
      ensures out.On? ==> Local(base) && run == EnterExports(cfg, base)
    {
      hide Steps, Told, Asked, Step, Domain.UpdateJob, EnterExports;
      base := run;
      ghost var w, l := stores.View(), stores.log;
      var e, f := SetProgress(AtExport, 90);
      JobStep(cfg, w, run, f);
      Tick(f, w, l);
      out := if e != NoErr then Ended(e == StoreErr) else On;
    }

    method MakeCdom() returns (out: Outcome, ghost base: Run)
      requires Here() && run.pc == Check(Detect)
      modifies Frame()
      ensures out.Ended? ==> Over(out.redeliver)
      ensures out.On? ==> Local(base) && run == EnterExports(cfg, base)
    {
      hide Steps, Told, Asked, StepLoad, StepCheckpoint, StepExtract, StepStore, StepExport, StepEnd, EnterExports;
      base := run;
      var pdf: Bytes;
      out, pdf := Classify();
      if out.Ended? {
        return;
      }
      out := Pages(pdf);
      if out.Ended? {
        return;
      }
      out := Normalize();
      if out.Ended? {
        return;
      }
      out := StoreCdom(pdf);
      if out.Ended? {
        return;
      }
      out, base := BeginExports();
    }

    method BeginExports() returns (out: Outcome, ghost base: Run)
      requires Here() && run.pc == Check(EngineSteps.Export)
      modifies Frame()
      ensures out.Ended? ==> Over(out.redeliver)
      ensures out.On? ==> Local(base) && run == EnterExports(cfg, base)
    {
      hide Steps, Told, Asked, StepLoad, StepCheckpoint, StepExtract, StepStore, StepExport, StepEnd, EnterExports;
      base := run;
      var e, w, l := Checkpoint(EngineSteps.Export, 90);
      if e != NoErr {
        var redeliver := HandleStepErr(e);
        return Ended(redeliver), base;
      }
      base := run;
      NoteDone(EngineSteps.Export, w, l, Fine);
      out := On;
    }

    method Run() returns (redeliver: bool)
      requires stores.Valid() && InStep() && run == Start(id)
      modifies Frame()
      ensures Over(redeliver)
    {
      hide Steps, Told, Asked, StepLoad, StepCheckpoint, StepExtract, StepStore, StepExport, StepEnd;
      var out := Load();
      if out.Ended? {
        return out.redeliver;
      }
      if job.status == Queued {
        out := MarkProcessing();
        if out.Ended? {
          return out.redeliver;
        }
      }
      redeliver := Process();
    }
  }

  datatype Outcome = On | Ended(redeliver: bool)

  // ---------- single steps of the machine ----------

  lemma RejectedPage(cfg: Config, w: World, r: Run)
    requires r.pc.OcrTick?
    ensures Asked(cfg, r, Reject) == []
    ensures Step(cfg, w, r, Reject) == (w, Failing(r, OcrError, true))
  {}

  lemma ReadPage(cfg: Config, w: World, r: Run, f: Fault)
    requires r.pc.OcrTick? && f != Reject
    ensures Asked(cfg, r, f) == [Call(JobSaved(OcrRow(cfg, r)), f)]
    ensures Step(cfg, w, r, f).1.job == OcrRow(cfg, r)
    ensures
      var total, kind, done := cfg.ocrTotal(r.pdf), cfg.kindOf(r.pdf), r.pc.done;
      var r' := Noted(r, AtOcr, OcrPct(done, total, OcrStart(kind), OcrEnd(kind)));
      Step(cfg, w, r, f)
        == (Domain.UpdateJob(w, r'.job, f),
              At(r', if done < total then OcrTick(done + 1) else Check(EngineSteps.Layout)))
  {
    hide Domain.UpdateJob, OcrPct;
  }

  lemma JobStep(cfg: Config, w: World, r: Run, f: Fault)
    requires f != Reject && (r.pc == MarkJob || r.pc == Resume || r.pc.Note?)
    ensures Asked(cfg, r, f) == [Call(JobSaved(r.job), f)]
    ensures Step(cfg, w, r, f).0 == Domain.UpdateJob(w, r.job, f)
    ensures
      Step(cfg, w, r, f).1
        == if f == StoreDown || r.job.id !in w.jobs then At(r, Done(f == StoreDown))
           else if r.pc == MarkJob then At(r, FindCdom)
           else if r.pc == Resume then EnterExports(cfg, r)
           else AfterNote(cfg, r, r.pc.cp, f)
  {
    hide EnterExports, AfterNote, HasRow, StepExtract, StepStore, StepExport, StepEnd;
  }

  lemma LastJobStep(cfg: Config, w: World, r: Run, f: Fault)
    requires r.pc == CompleteNote || r.pc.FailJob? || r.pc == CancelledJob
    ensures Asked(cfg, r, f) == [Call(JobSaved(r.job), f)]
    ensures Step(cfg, w, r, f).0 == Domain.UpdateJob(w, r.job, f)
    ensures
      Step(cfg, w, r, f).1
        == if r.pc == CompleteNote then At(r, Done(false))
           else if r.pc.FailJob? then r.(doc := r.doc.(status := DocFailed), pc := FailDoc(r.pc.retryable))
           else r.(doc := r.doc.(status := DocCancelled), pc := CancelledDoc)
  {
    hide StepLoad, StepCheckpoint, StepExtract, StepStore, StepExport;
  }

  lemma CompleteStep(cfg: Config, w: World, r: Run, f: Fault)
    requires r.pc == CompleteJob
    ensures Asked(cfg, r, f) == [Call(JobSaved(r.job), f)]
    ensures Step(cfg, w, r, f).0 == Domain.UpdateJob(w, r.job, f)
    ensures
      Step(cfg, w, r, f).1
        == if f == StoreDown || r.job.id !in w.jobs then At(r, Done(f == StoreDown))
           else r.(doc := r.doc.(status := DocCompleted), pc := CompleteDoc)
  {
    hide StepLoad, StepCheckpoint, StepExtract, StepStore, StepExport;
  }

  lemma DocStep(cfg: Config, w: World, r: Run, f: Fault)
    requires f != Reject && (r.pc == CompleteDoc || r.pc == MarkDoc)
    ensures Asked(cfg, r, f) == [Call(DocSaved(r.doc), f)]
    ensures Step(cfg, w, r, f).0 == Domain.UpdateDoc(w, r.doc, f)
    ensures
      Step(cfg, w, r, f).1
        == if f == StoreDown || r.doc.id !in w.docs then At(r, Done(f == StoreDown))
           else if r.pc == CompleteDoc then At(r, CompleteNote)
           else r.(job := r.job.(attempts := r.job.attempts + 1), pc := MarkJob)
  {
    hide HasRow, StepCheckpoint, StepExtract, StepStore, StepExport;
  }

  lemma LastDocStep(cfg: Config, w: World, r: Run, f: Fault)
    requires r.pc == SavePages || r.pc.FailDoc? || r.pc == CancelledDoc
    ensures Asked(cfg, r, f) == [Call(DocSaved(r.doc), f)]
    ensures Step(cfg, w, r, f).0 == Domain.UpdateDoc(w, r.doc, f)
    ensures
      Step(cfg, w, r, f).1
        == if r.pc == SavePages then At(r, Check(KindCheckpoint(cfg, r)))
           else if r.pc.FailDoc? then At(r, Done(r.pc.retryable))
           else At(r, Done(false))
  {
    hide StepLoad, StepCheckpoint, StepStore, StepExport, KindCheckpoint;
  }

  lemma ReadStep(cfg: Config, w: World, r: Run, f: Fault)
    requires r.pc == ReadPdf
    ensures Asked(cfg, r, f) == [Call(ObjectRead(r.doc.source), Stored(f))]
    ensures
      Step(cfg, w, r, f)
        == (w, if f == StoreDown || r.doc.source !in w.objects then Failing(r, StorageError, true)
               else if f == Reject then Failing(r, InvalidPdf, false)
               else
                 var pdf := w.objects[r.doc.source];
                 r.(pdf := pdf, doc := r.doc.(pages := cfg.pagesOf(pdf)), pc := SavePages))
  {
    hide Domain.UpdateJob, Domain.UpdateDoc;
  }

  lemma BeginStep(cfg: Config, w: World, r: Run, f: Fault)
    requires r.pc == Begin
    ensures Asked(cfg, r, f) == [Call(JobRead(r.id), f)]
    ensures
      Step(cfg, w, r, f)
        == (w, if f == StoreDown || r.id !in w.jobs then At(r, Done(f == StoreDown))
               else if w.jobs[r.id].status == Cancelled || w.jobs[r.id].status == Completed then At(r, Done(false))
               else r.(job := w.jobs[r.id], pc := LoadDoc))
  {}

  lemma LoadStep(cfg: Config, w: World, r: Run, f: Fault)
    requires r.pc == LoadDoc
    ensures Asked(cfg, r, f) == [Call(DocRead(r.job.doc), f)]
    ensures
      Step(cfg, w, r, f)
        == (w, if f == StoreDown || r.job.doc !in w.docs then At(r, Done(f == StoreDown))
               else if r.job.status != Queued then r.(doc := w.docs[r.job.doc], pc := FindCdom)
               else
                 r.(doc := w.docs[r.job.doc].(status := DocProcessing), job := r.job.(status := Processing),
                       pc := MarkDoc))
  {}

  lemma BatchStep(cfg: Config, w: World, r: Run, f: Fault)
    requires r.pc == OcrBatch
    ensures f == Reject ==> Asked(cfg, r, f) == [] && Step(cfg, w, r, f) == (w, At(r, OcrTick(1)))
    ensures f != Reject ==> Asked(cfg, r, f) == [Call(JobSaved(OcrRow(cfg, r)), f)]
    ensures
      f != Reject ==>
        Step(cfg, w, r, f) == (Domain.UpdateJob(w, OcrRow(cfg, r), f), r.(job := OcrRow(cfg, r), pc := OcrMerge))
  {
    hide Domain.UpdateJob;
  }

  lemma MergeStep(cfg: Config, w: World, r: Run, f: Fault)
    requires r.pc == OcrMerge
    ensures Asked(cfg, r, f) == []
    ensures Step(cfg, w, r, f)
      == (w, if f == Reject then Failing(r, OcrError, true) else At(r, Check(EngineSteps.Layout)))
  {}

  lemma ReadCdomStep(cfg: Config, w: World, r: Run, f: Fault)
    requires r.pc == ReadCdom
    ensures Asked(cfg, r, f) == [Call(ObjectRead(CdomFile(r.doc.id)), Stored(f))]
    ensures
      Step(cfg, w, r, f)
        == (w, if f == StoreDown || CdomFile(r.doc.id) !in w.objects then Failing(r, StorageError, true)
               else if f == Reject then Failing(r, NormalizationFailed, false)
               else EnterExport(cfg, r.(body := w.objects[CdomFile(r.doc.id)]), 0))
  {
    hide EnterExport;
  }

  lemma PutExportStep(cfg: Config, w: World, r: Run, f: Fault)
    requires r.pc.PutExport? && r.pc.i < |Selected(cfg, r.doc.formats)|
    ensures
      var format := Selected(cfg, r.doc.formats)[r.pc.i];
      var payload := cfg.render(format, r.body);
      && Asked(cfg, r, f) == (if f == Reject then [] else [Call(ObjectPut(Output(r.doc.id, format), payload), f)])
      && Step(cfg, w, r, f)
           == if f == Reject then (w, Failing(r, ExportFailed, false))
              else if f == StoreDown then (w, Failing(r, StorageError, true))
              else (w.(objects := w.objects[Output(r.doc.id, format) := payload]), At(r, CreateExport(r.pc.i)))
  {
    hide Selected;
  }

  lemma CreateExportStep(cfg: Config, w: World, r: Run, f: Fault)
    requires r.pc.CreateExport? && r.pc.i < |Selected(cfg, r.doc.formats)|
    ensures
      var format := Selected(cfg, r.doc.formats)[r.pc.i];
      var size := |cfg.render(format, r.body)|;
      && Asked(cfg, r, f) == [Call(RowMade(r.doc.id, r.job.id, ExportKind, format, Output(r.doc.id, format), size), f)]
      && Step(cfg, w, r, f)
           == if f == StoreDown then (w, Failing(r, StorageError, true))
              else
                (Domain.CreateArtifact(w, r.doc.id, r.job.id, ExportKind, format, Output(r.doc.id, format), size),
                 EnterExport(cfg, r, r.pc.i + 1))
  {
    hide Selected, EnterExport, Domain.CreateArtifact;
  }

  lemma CheckStep(cfg: Config, w: World, r: Run, f: Fault)
    requires r.pc.Check?
    ensures Asked(cfg, r, f) == [Call(JobRead(r.id), f)]
    ensures
      Step(cfg, w, r, f)
        == (w, if f == StoreDown || r.id !in w.jobs then At(r, Done(f == StoreDown))
               else if w.jobs[r.id].status == Cancelled then r.(job := r.job.(stage := AtCancelled), pc := CancelledJob)
               else At(Noted(r, CheckpointStage(r.pc.cp), CheckpointProgress(r.pc.cp, cfg.kindOf(r.pdf))),
                     Note(r.pc.cp)))
  {
    hide Domain.UpdateJob, Domain.UpdateDoc, AfterNote;
  }

  lemma NotedStep(cfg: Config, w: World, r: Run, f: Fault)
    requires r.pc.Note? && r.job.id in w.jobs && f != StoreDown
    ensures Asked(cfg, r, f) == [Call(JobSaved(r.job), Fine)]
    ensures Step(cfg, w, r, f) == (Domain.UpdateJob(w, r.job, Fine), AfterNote(cfg, r, r.pc.cp, f))
  {
    hide AfterNote;
  }

  lemma StoreStep(cfg: Config, w: World, r: Run, f: Fault)
    requires f != Reject && (r.pc == PutCdom || r.pc == CreateCdom)
    ensures r.pc == PutCdom ==> Asked(cfg, r, f) == [Call(ObjectPut(CdomFile(r.doc.id), cfg.cdom(r.doc.id, r.pdf)), f)]
    ensures
      r.pc == CreateCdom ==>
        Asked(cfg, r, f) == [Call(RowMade(r.doc.id, r.job.id, CdomKind, Json, CdomFile(r.doc.id),
              |cfg.cdom(r.doc.id, r.pdf)|), f)]
    ensures f == StoreDown ==> Step(cfg, w, r, f) == (w, Failing(r, StorageError, true))
    ensures
      f == Fine && r.pc == PutCdom ==>
        Step(cfg, w, r, f)
          == (w.(objects := w.objects[CdomFile(r.doc.id) := cfg.cdom(r.doc.id, r.pdf)]), At(r, CreateCdom))
    ensures
      f == Fine && r.pc == CreateCdom ==>
        Step(cfg, w, r, f)
          == (Domain.CreateArtifact(w, r.doc.id, r.job.id, CdomKind, Json, CdomFile(r.doc.id),
                |cfg.cdom(r.doc.id, r.pdf)|),
              At(r, Check(EngineSteps.Export)))
  {
    hide Domain.CreateArtifact;
  }

  // ---------- the engine, and the consumer in front of it ----------

  class Engine {
    const cfg: Config
    const stores: Backend

    constructor (cfg: Config, stores: Backend)
      ensures this.cfg == cfg && this.stores == stores
    {
      this.cfg, this.stores := cfg, stores;
    }

    /** Run: the stores end where the machine leaves them, given the outcomes that the log
        shows for exactly the calls that the machine makes; the caller is told whether to have
        the message delivered again. */
    method Run(id: Id) returns (redeliver: bool, ghost faults: seq<Fault>)
      requires stores.Valid()
      modifies stores.Repr()
      ensures stores.Valid()
      ensures
        var (w, r) := Steps(cfg, old(stores.View()), Start(id), faults);
        w == stores.View() && r.pc == Done(redeliver)
      ensures stores.log == old(stores.log) + Told(cfg, old(stores.View()), Start(id), faults)
    {
      hide Steps, Told;
      var worker := new Worker(cfg, stores, id);
      redeliver := worker.Run();
      faults := worker.faults;
    }
  }

  datatype Verdict = Acknowledged | Requeued | DeadLettered

  /** What became of a message: the verdict, the stores after it, the outcomes of its Run and
      the calls that it made. */
  datatype Handling = Handling(verdict: Verdict, world: World, faults: seq<Fault>, calls: seq<Call>)

  /** One message: a body that does not parse is dead-lettered, an error is requeued. */
  ghost predicate Handled(cfg: Config, w: World, message: Option<Id>, h: Handling) {
    match message
    case None => h.verdict == DeadLettered && h.world == w && h.calls == []
    case Some(id) =>
      && h.verdict != DeadLettered && Steps(cfg, w, Start(id), h.faults).0 == h.world
      && Steps(cfg, w, Start(id), h.faults).1.pc == Done(h.verdict == Requeued)
      && h.calls == Told(cfg, w, Start(id), h.faults)
  }

  /** What Serve waits for, in the order in which it gets it. */
  datatype Delivery = Got(message: Option<Id>) | ContextDone | ChannelClosed

  /** The stores before message i is handled. */
  ghost function Before(w: World, hs: seq<Handling>, i: nat): World
    requires i <= |hs|
  {
    if i == 0 then w else hs[i - 1].world
  }

  ghost function AllCalls(hs: seq<Handling>): seq<Call> {
    if hs == [] then [] else AllCalls(hs[..|hs| - 1]) + hs[|hs| - 1].calls
  }

  /** Serve handles what is delivered one after the other, each message exactly as the machine
      handles it, until its context is done or the channel closes. */
  method Serve(engine: Engine, deliveries: seq<Delivery>)
    returns (stop: Option<Delivery>, out: seq<Verdict>, ghost hs: seq<Handling>)
    requires engine.stores.Valid()
    modifies engine.stores.Repr()
    ensures engine.stores.Valid() && |out| == |hs| <= |deliveries|
    ensures
      forall i :: 0 <= i < |hs| ==>
        && deliveries[i].Got? && out[i] == hs[i].verdict
        && Handled(engine.cfg, Before(old(engine.stores.View()), hs, i), deliveries[i].message, hs[i])
    ensures engine.stores.View() == Before(old(engine.stores.View()), hs, |hs|)
    ensures engine.stores.log == old(engine.stores.log) + AllCalls(hs)
    ensures stop == if |out| == |deliveries| then None else Some(deliveries[|out|])
    ensures stop.Some? ==> !stop.value.Got?
  {
    hide Steps, Told, Handled, AllCalls;
    out, hs := [], [];
    ghost var w := engine.stores.View();
    NoCalls(engine.stores.log);
    for i := 0 to |deliveries|
      invariant engine.stores.Valid() && |out| == i == |hs|
      invariant forall k :: 0 <= k < i ==>
                  && deliveries[k].Got? && out[k] == hs[k].verdict
                  && Handled(engine.cfg, Before(w, hs, k), deliveries[k].message, hs[k])
      invariant engine.stores.View() == Before(w, hs, i) && engine.stores.log == old(engine.stores.log) + AllCalls(hs)
    {
      if !deliveries[i].Got? {
        return Some(deliveries[i]), out, hs;
      }
      var verdict, h := HandleMessage(engine, deliveries[i].message);
      OneMoreHandled(old(engine.stores.log), w, hs, h);
      out, hs := out + [verdict], hs + [h];
    }
    stop := None;
  }

  lemma NoCalls(log: seq<Call>)
    ensures AllCalls([]) == [] && log + [] == log
  {}

  lemma OneMoreHandled(log: seq<Call>, w: World, hs: seq<Handling>, h: Handling)
    ensures log + AllCalls(hs + [h]) == (log + AllCalls(hs)) + h.calls
    ensures forall k :: 0 <= k <= |hs| ==> Before(w, hs + [h], k) == Before(w, hs, k)
  {
    CallsAdded(hs, h);
    hide AllCalls;
    assert log + (AllCalls(hs) + h.calls) == (log + AllCalls(hs)) + h.calls;
  }

  lemma CallsAdded(hs: seq<Handling>, h: Handling)
    ensures AllCalls(hs + [h]) == AllCalls(hs) + h.calls
  {
    assert (hs + [h])[..|hs|] == hs;
  }

  method HandleMessage(engine: Engine, message: Option<Id>) returns (v: Verdict, ghost h: Handling)
    requires engine.stores.Valid()
    modifies engine.stores.Repr()
    ensures engine.stores.Valid() && v == h.verdict && h.world == engine.stores.View()
    ensures Handled(engine.cfg, old(engine.stores.View()), message, h)
    ensures engine.stores.log == old(engine.stores.log) + h.calls
  {
    hide Steps, Told;
    if message == None {
      h := Handling(DeadLettered, engine.stores.View(), [], []);
      return DeadLettered, h;
    }
    var redeliver, faults := engine.Run(message.value);
    v := if redeliver then Requeued else Acknowledged;
    h := Handling(v, engine.stores.View(), faults,
          Told(engine.cfg, old(engine.stores.View()), Start(message.value), faults));
  }

  // ---------- the machine driven to its end ----------

  lemma DriveStep(cfg: Config, w: World, r: Run, at: nat -> Fault, n: nat)
    ensures
      var (w1, r1) := Step(cfg, w, r, at(n));
      Redelivery.Drive(cfg, w, r, at, n) == Redelivery.Drive(cfg, w1, r1, at, n + 1)
  {
    hide StepLoad, StepCheckpoint, StepExtract, StepStore, StepExport, StepEnd;
    if !r.pc.Done? {
      Redelivery.StepDescends(cfg, w, r, at(n));
      hide Step;
    }
  }

  lemma {:induction false} DriveFrom(cfg: Config, w: World, r: Run, faults: seq<Fault>, at: nat -> Fault)
    requires forall i :: 0 <= i < |faults| ==> at(i) == faults[i]
    ensures
      var (w1, r1) := Steps(cfg, w, r, faults);
      Redelivery.Drive(cfg, w, r, at, 0) == Redelivery.Drive(cfg, w1, r1, at, |faults|)
    decreases |faults|
  {
    hide Step, Redelivery.Drive;
    if faults != [] {
      var init := faults[..|faults| - 1];
      DriveFrom(cfg, w, r, init, at);
      var (w1, r1) := Steps(cfg, w, r, init);
      DriveStep(cfg, w1, r1, at, |init|);
    }
  }

  /** Run to the end is the machine run to the end. */
  lemma StepsAreDrive(cfg: Config, w: World, id: Id, faults: seq<Fault>, at: nat -> Fault)
    requires forall i :: 0 <= i < |faults| ==> at(i) == faults[i]
    requires Steps(cfg, w, Start(id), faults).1.pc.Done?
    ensures Redelivery.Drive(cfg, w, Start(id), at, 0) == Steps(cfg, w, Start(id), faults)
  {
    DriveFrom(cfg, w, Start(id), faults, at);
  }

  /** A delivered job whose Run meets no error, after any number of crashed and redelivered
      Runs and whatever earlier jobs have stored for its document: what Engine.Run leaves is the delivery. */
  lemma UndisturbedRunDelivers(cfg: Config, w0: World, t: Redelivery.Task, c: bool, m: nat, acts: seq<Redelivery.Act>,
                               faults: seq<Fault>)
    requires Redelivery.Delivered(cfg, w0, t, c, m)
    requires forall i :: 0 <= i < |faults| ==> faults[i] == Fine
    requires Steps(cfg, Redelivery.Play(cfg, w0, t.job.id, acts + [Redelivery.Crash]).0, Start(t.job.id),
          faults).1.pc.Done?
    ensures
      var (w, r) := Steps(cfg, Redelivery.Play(cfg, w0, t.job.id, acts + [Redelivery.Crash]).0, Start(t.job.id),
            faults);
      r.pc == Done(false) && Redelivery.Delivery(cfg, w0, w, t)
  {
    hide Redelivery.Delivery, Redelivery.Delivered, Steps;
    var all := acts + [Redelivery.Crash];
    var w := Redelivery.Play(cfg, w0, t.job.id, all).0;
    assert Redelivery.Play(cfg, w0, t.job.id, all) == (w, Start(t.job.id)) by {
      assert all[|all| - 1] == Redelivery.Crash;
    }
    Redelivery.CrashesLeaveNoTrace(cfg, w0, t, c, m, all);
    StepsAreDrive(cfg, w, t.job.id, faults, Redelivery.NO_FAULTS);
  }

  // ---------- a failed job delivered again ----------

  /** Past its loading, a Run that holds a failed job, or is done. */
  predicate HoldsFailed(r: Run, id: Id) {
    r.id == id && !r.pc.Begin?
    && (r.pc.Done?
        || (r.job.id == id && r.job.status == Failed
            && !r.pc.MarkDoc? && !r.pc.MarkJob? && !r.pc.CompleteJob? && !r.pc.CompleteDoc? && !r.pc.CompleteNote?))
  }

  predicate FailedRow(w: World, id: Id) { id in w.jobs && w.jobs[id].id == id && w.jobs[id].status == Failed }

  lemma FailedLoad(cfg: Config, w: World, r: Run, id: Id, f: Fault)
    requires HoldsFailed(r, id) || (r.id == id && r.pc.Begin? && FailedRow(w, id))
    ensures HoldsFailed(StepLoad(cfg, w, r, f).1, id)
  {
    hide Selected, HasRow, Domain.UpdateJob, Domain.UpdateDoc;
  }

  lemma FailedNote(cfg: Config, r: Run, id: Id, f: Fault)
    requires HoldsFailed(r, id) && r.pc.Note?
    ensures HoldsFailed(AfterNote(cfg, r, r.pc.cp, f), id)
  {
    hide Selected;
  }

  lemma FailedCheckpoint(cfg: Config, w: World, r: Run, id: Id, f: Fault)
    requires HoldsFailed(r, id)
    ensures HoldsFailed(StepCheckpoint(cfg, w, r, f).1, id)
  {
    hide CheckpointStage, CheckpointProgress, Domain.UpdateJob;
    if r.pc.Note? {
      FailedNote(cfg, r, id, f);
      hide AfterNote;
    }
  }

  lemma FailedExtract(cfg: Config, w: World, r: Run, id: Id, f: Fault)
    requires HoldsFailed(r, id)
    ensures HoldsFailed(StepExtract(cfg, w, r, f).1, id)
    ensures r.pc.OcrBatch? || r.pc.OcrTick? ==> StepExtract(cfg, w, r, f).1.job.status == Failed
  {
    hide OcrPct, Domain.UpdateJob, Domain.UpdateDoc;
  }

  lemma FailedStore(cfg: Config, w: World, r: Run, id: Id, f: Fault)
    requires HoldsFailed(r, id)
    ensures HoldsFailed(StepStore(cfg, w, r, f).1, id)
  {
    hide Selected, Domain.CreateArtifact;
  }

  lemma FailedExport(cfg: Config, w: World, r: Run, id: Id, f: Fault)
    requires HoldsFailed(r, id)
    ensures HoldsFailed(StepExport(cfg, w, r, f).1, id)
  {
    hide Selected, HasRow, Domain.CreateArtifact;
  }

  lemma FailedEnd(cfg: Config, w: World, r: Run, id: Id, f: Fault)
    requires HoldsFailed(r, id)
    ensures HoldsFailed(StepEnd(cfg, w, r, f).1, id)
  {
    hide Domain.UpdateJob, Domain.UpdateDoc;
  }

  lemma FailedStep(cfg: Config, w: World, r: Run, id: Id, f: Fault)
    requires HoldsFailed(r, id) || (r.id == id && r.pc.Begin? && FailedRow(w, id))
    ensures HoldsFailed(Step(cfg, w, r, f).1, id)
  {
    FailedLoad(cfg, w, r, id, f);
    if !r.pc.Begin? {
      FailedCheckpoint(cfg, w, r, id, f);
      FailedExtract(cfg, w, r, id, f);
      FailedStore(cfg, w, r, id, f);
      FailedExport(cfg, w, r, id, f);
      FailedEnd(cfg, w, r, id, f);
    }
    hide HoldsFailed, FailedRow, StepLoad, StepCheckpoint, StepExtract, StepStore, StepExport, StepEnd;
  }

  /** The row that such a Run writes is failed. */
  lemma FailedWrite(cfg: Config, w: World, r: Run, id: Id, f: Fault)
    requires HoldsFailed(r, id) && Progress.WritesJob(r.pc, f)
    ensures var row := Progress.RowWritten(cfg, w, r, f); row.id == id && row.status == Failed
  {
    FailedExtract(cfg, w, r, id, f);
    Cancellation.StepKeepsId(cfg, w, r, f);
    hide StepLoad, StepCheckpoint, StepExtract, StepStore, StepExport, StepEnd;
  }

  /** The job rows a Run writes when its n-th storage call meets the stores env[n].0 with
      outcome env[n].1; between calls the stores may have changed arbitrarily. */
  function RowsWritten(cfg: Config, r: Run, env: seq<(World, Fault)>): seq<Job>
    decreases |env|
  {
    if env == [] then []
    else
      var (w, f) := env[0];
      (if Progress.WritesJob(r.pc, f) && r.job.id in w.jobs then [Progress.RowWritten(cfg, w, r, f)] else [])
      + RowsWritten(cfg, Step(cfg, w, r, f).1, env[1..])
  }

  /** Failed has no way out: whatever other Runs and use cases do to the stores meanwhile, a
      Run that has loaded a failed job writes nothing but failed rows of that job. */
  lemma {:induction false} LoadedFailureWritesFailed(cfg: Config, r: Run, id: Id, env: seq<(World, Fault)>)
    requires HoldsFailed(r, id) || (r.id == id && r.pc.Begin? && (env != [] ==> FailedRow(env[0].0, id)))
    ensures forall row :: row in RowsWritten(cfg, r, env) ==> row.id == id && row.status == Failed
    decreases |env|
  {
    hide Step, HoldsFailed, FailedRow, Progress.RowWritten;
    if env != [] {
      var (w, f) := env[0];
      FailedStep(cfg, w, r, id, f);
      LoadedFailureWritesFailed(cfg, Step(cfg, w, r, f).1, id, env[1..]);
      if Progress.WritesJob(r.pc, f) {
        NotBegin(r, id);
        FailedWrite(cfg, w, r, id, f);
      }
    }
  }

  lemma NotBegin(r: Run, id: Id)
    requires HoldsFailed(r, id)
    ensures !r.pc.Begin?
  {}

  /** With no other writer, a failed job's Runs end with the job failed, however often its
      message comes back and whatever they export on the way. */
  lemma {:induction false} RedeliveredFailureStaysFailed(cfg: Config, w: World, id: Id, faults: seq<Fault>)
    requires FailedRow(w, id)
    ensures
      var (w', r') := Steps(cfg, w, Start(id), faults);
      FailedRow(w', id) && (HoldsFailed(r', id) || r' == Start(id))
    decreases |faults|
  {
    hide Step, FailedRow, HoldsFailed;
    if faults != [] {
      RedeliveredFailureStaysFailed(cfg, w, id, faults[..|faults| - 1]);
      var (w1, r1) := Steps(cfg, w, Start(id), faults[..|faults| - 1]);
      FailedStep(cfg, w1, r1, id, faults[|faults| - 1]);
      FailedRowKept(cfg, w1, r1, id, faults[|faults| - 1]);
    }
  }

  lemma FailedRowKept(cfg: Config, w: World, r: Run, id: Id, f: Fault)
    requires FailedRow(w, id) && (HoldsFailed(r, id) || r.pc.Begin?)
    ensures FailedRow(Step(cfg, w, r, f).0, id)
  {
    Progress.JobWrites(cfg, w, r, f);
    if Progress.WritesJob(r.pc, f) {
      FailedWrite(cfg, w, r, id, f);
    }
    hide Step, Progress.RowWritten;
  }
}
