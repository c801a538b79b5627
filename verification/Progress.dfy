/** The progress one Run reports, while anything at all happens to the stores
    between its storage calls. */
module Progress {
  import opened Domain
  import opened EngineSteps
  import opened Redelivery

  // ---------- the rows a Run writes ----------

  predicate WritesJob(pc: Pc, f: Fault) {
    match pc
    case OcrBatch => f == Fine
    case OcrTick(_) => f == Fine
    case _ =>
      f != StoreDown && (pc.MarkJob? || pc.Resume? || pc.Note? || pc.CompleteJob? || pc.CompleteNote? || pc.FailJob?
            || pc.CancelledJob?)
  }

  /** The row a step writes: the worker's own copy, after the step for an OCR tick. */
  function RowWritten(cfg: Config, w: World, r: Run, f: Fault): Job {
    if r.pc.OcrBatch? || r.pc.OcrTick? then Step(cfg, w, r, f).1.job else r.job
  }

  ghost predicate WritesOwnRow(w: World, w': World, row: Job, writes: bool) {
    w'.jobs == if writes && row.id in w.jobs then w.jobs[row.id := row] else w.jobs
  }

  lemma EarlyWrites(cfg: Config, w: World, r: Run, f: Fault)
    ensures r.pc in {Begin, LoadDoc, MarkDoc, MarkJob, FindCdom, Resume} ==>
              WritesOwnRow(w, StepLoad(cfg, w, r, f).0, r.job, WritesJob(r.pc, f))
    ensures r.pc.Check? || r.pc.Note? ==> WritesOwnRow(w, StepCheckpoint(cfg, w, r, f).0, r.job, WritesJob(r.pc, f))
  {
    hide Selected, HasRow, CheckpointProgress, AfterNote;
  }

  lemma ExtractWrites(cfg: Config, w: World, r: Run, f: Fault)
    requires r.pc.ReadPdf? || r.pc.SavePages? || r.pc.OcrBatch? || r.pc.OcrMerge? || r.pc.OcrTick?
    ensures WritesOwnRow(w, StepExtract(cfg, w, r, f).0, RowWritten(cfg, w, r, f), WritesJob(r.pc, f))
  {
    hide OcrPct;
  }

  lemma LateWrites(cfg: Config, w: World, r: Run, f: Fault)
    ensures r.pc.PutCdom? || r.pc.CreateCdom? || r.pc.ReadCdom? ==>
              WritesOwnRow(w, StepStore(cfg, w, r, f).0, r.job, WritesJob(r.pc, f))
    ensures Exports(r.pc) ==> WritesOwnRow(w, StepExport(cfg, w, r, f).0, r.job, WritesJob(r.pc, f))
  {
    hide Selected, HasRow, EnterExport;
  }

  lemma EndWrites(cfg: Config, w: World, r: Run, f: Fault)
    requires Phase(r.pc) <= 10
    ensures WritesOwnRow(w, StepEnd(cfg, w, r, f).0, r.job, WritesJob(r.pc, f))
  {
    hide CanTransition;
  }

  /** Job rows change only where WritesJob says, and only the Run's own row. */
  lemma JobWrites(cfg: Config, w: World, r: Run, f: Fault)
    ensures WritesOwnRow(w, Step(cfg, w, r, f).0, RowWritten(cfg, w, r, f), WritesJob(r.pc, f))
  {
    EarlyWrites(cfg, w, r, f);
    if r.pc.ReadPdf? || r.pc.SavePages? || r.pc.OcrBatch? || r.pc.OcrMerge? || r.pc.OcrTick? {
      ExtractWrites(cfg, w, r, f);
    }
    LateWrites(cfg, w, r, f);
    if Phase(r.pc) <= 10 {
      EndWrites(cfg, w, r, f);
    }
    hide StepLoad, StepCheckpoint, StepExtract, StepStore, StepExport, StepEnd, WritesOwnRow;
  }

  // ---------- bounds ----------

  /** From the first checkpoint (or the resumption) on. */
  predicate Began(pc: Pc) {
    !pc.Begin? && !pc.LoadDoc? && !pc.MarkDoc? && !pc.MarkJob? && !pc.FindCdom? && pc != Check(Detect) && !pc.Done?
  }

  /** The stretch of the bar that belongs to a stage. */
  predicate InStage(stage: Stage, kind: DocKind, pct: int) {
    match stage
    case AtDetect => pct == 5
    case AtExtract => pct == if kind == Mixed then 30 else 35
    case AtOcr => OcrStart(kind) <= pct <= OcrEnd(kind)
    case AtLayout => pct == 60
    case AtPostprocess => pct == 70
    case AtNormalize => pct == 75
    case AtExport => pct == 90
    case AtCompleted => pct == 100
    case AtFailed => 5 <= pct <= 90
    case AtCancelled => 5 <= pct <= 90
    case AtQueued => false
  }

  /** What the worker's copy says at each program point. */
  predicate OnTrack(cfg: Config, r: Run) {
    var kind := cfg.kindOf(r.pdf);
    var pct := r.job.progress;
    && InStage(r.job.stage, kind, pct)
    && (r.job.status == Completed <==> r.pc.CompleteJob? || r.pc.CompleteDoc? || r.pc.CompleteNote?)
    && match r.pc
       case Note(cp) =>
         r.job.stage == CheckpointStage(cp) && pct == CheckpointProgress(cp, kind)
         && (cp == OcrAll ==> kind == Scanned) && (cp == Extract ==> kind != Scanned)
       case ReadPdf => r.job.stage == AtDetect
       case SavePages => r.job.stage == AtDetect
       case Check(cp) =>
         (match cp
          case Extract => r.job.stage == AtDetect && kind != Scanned
          case OcrAll => r.job.stage == AtDetect && kind == Scanned
          case Layout => OcrStart(kind) <= pct <= 58
          case Postprocess => pct == 60
          case Normalize => pct == 70
          case Export => pct == 75
          case Detect => true)
       case OcrBatch => pct == OcrStart(kind)
       case OcrMerge => OcrStart(kind) <= pct <= 58
       case OcrTick(done) =>
         OcrStart(kind) <= pct <= OcrPct(done, cfg.ocrTotal(r.pdf), OcrStart(kind), OcrEnd(kind))
       case PutCdom => pct == 75
       case CreateCdom => pct == 75
       case CompleteJob => pct == 100 && r.job.stage == AtCompleted
       case CompleteDoc => pct == 100 && r.job.stage == AtCompleted
       case CompleteNote => pct == 100 && r.job.stage == AtCompleted
       case FailJob(_) => pct <= 90 && r.job.stage == AtFailed
       case FailDoc(_) => pct <= 90 && r.job.stage == AtFailed
       case CancelledJob => pct <= 90 && r.job.stage == AtCancelled
       case CancelledDoc => pct <= 90 && r.job.stage == AtCancelled
       case _ => pct == 90 && r.job.stage == AtExport
  }

  /** ocrProgressPct stays within the stage and grows with the pages done. */
  lemma OcrPctGrows(done: nat, next: nat, total: nat, start: int, end: int)
    requires start <= end && done <= next
    ensures start <= OcrPct(done, total, start, end) <= OcrPct(next, total, start, end) <= end
    ensures total > 0 && done >= total ==> OcrPct(done, total, start, end) == end
  {
    if 0 < done < total {
      Scaled(done, end - start, total);
    }
    if 0 < next < total {
      Scaled(next, end - start, total);
      if 0 < done {
        MulGrows(done, next, end - start);
        DivGrows(done * (end - start), next * (end - start), total);
      }
    }
  }

  /** It is the share of the stage that is done, rounded down. */
  lemma OcrPctExact(done: nat, total: nat, start: int, end: int)
    requires start <= end && done <= total && total > 0
    ensures
      var pct := OcrPct(done, total, start, end);
      (pct - start) * total <= done * (end - start) < (pct - start + 1) * total
  {
    var w := done * (end - start);
    if done == total {
      assert (end - start) * total == w && (end - start + 1) * total == w + total;
    } else if done > 0 {
      assert w == w / total * total + w % total;
      assert (w / total + 1) * total == w / total * total + total;
    } else {
      assert w == 0;
    }
  }

  lemma MulGrows(x: nat, y: nat, d: nat)
    requires x <= y
    ensures x * d <= y * d
  {
    assert (y - x) * d >= 0;
  }

  lemma DivBelow(a: nat, d: nat, q: nat)
    requires 0 < d && a < (q + 1) * d
    ensures a / d <= q
  {
    assert a == a / d * d + a % d;
    if a / d > q {
      MulGrows(q + 1, a / d, d);
    }
  }

  lemma DivGrows(a: nat, b: nat, d: nat)
    requires a <= b && 0 < d
    ensures a / d <= b / d
  {
    var q := b / d;
    assert b == q * d + b % d;
    assert (q + 1) * d == q * d + d;
    DivBelow(a, d, q);
  }

  lemma Scaled(done: nat, span: nat, total: nat)
    requires 0 < done < total
    ensures 0 <= (done * span) / total <= span
  {
    MulGrows(done, total, span);
    assert (span + 1) * total == total * span + total;
    DivBelow(done * span, total, span);
  }

  // ---------- every step ----------

  /** The worker's copy stays on track and never goes back. */
  predicate Advances(cfg: Config, r: Run, r': Run) {
    r'.pc.Done? || (Began(r'.pc) && OnTrack(cfg, r') && r.job.progress <= r'.job.progress && r'.id == r.id)
  }

  lemma LoadAdvances(cfg: Config, w: World, r: Run, f: Fault)
    requires r.pc.Resume? && OnTrack(cfg, r)
    ensures Advances(cfg, r, StepLoad(cfg, w, r, f).1)
  {
    hide Selected, HasRow, OcrPct;
  }

  lemma CheckAdvances(cfg: Config, w: World, r: Run, f: Fault)
    requires r.pc.Check? && r.pc != Check(Detect) && OnTrack(cfg, r)
    ensures Advances(cfg, r, StepCheckpoint(cfg, w, r, f).1)
  {
    hide Selected, HasRow, OcrPct;
  }

  lemma NoteAdvances(cfg: Config, w: World, r: Run, f: Fault)
    requires r.pc.Note? && OnTrack(cfg, r)
    ensures Advances(cfg, r, StepCheckpoint(cfg, w, r, f).1)
  {
    if r.pc.cp == Extract || r.pc.cp == OcrAll {
      OcrEntered(cfg, r, f);
    } else {
      NextEntered(cfg, r, f);
    }
    hide AfterNote, OnTrack;
  }

  lemma NextEntered(cfg: Config, r: Run, f: Fault)
    requires r.pc.Note? && r.pc.cp != Extract && r.pc.cp != OcrAll && OnTrack(cfg, r)
    ensures Advances(cfg, r, AfterNote(cfg, r, r.pc.cp, f))
  {
    hide Selected, OcrPct;
  }

  lemma OcrEntered(cfg: Config, r: Run, f: Fault)
    requires (r.pc == Note(Extract) || r.pc == Note(OcrAll)) && OnTrack(cfg, r)
    ensures Advances(cfg, r, AfterNote(cfg, r, r.pc.cp, f))
  {
    var kind := cfg.kindOf(r.pdf);
    OcrPctGrows(1, 1, cfg.ocrTotal(r.pdf), OcrStart(kind), OcrEnd(kind));
    hide Selected, OcrPct;
  }

  lemma ReadAdvances(cfg: Config, w: World, r: Run, f: Fault)
    requires (r.pc.ReadPdf? || r.pc.SavePages?) && OnTrack(cfg, r)
    ensures Advances(cfg, r, StepExtract(cfg, w, r, f).1)
  {
    hide OcrPct;
  }

  /** A failure keeps the progress. */
  lemma FailAdvances(cfg: Config, r: Run, code: Code, retryable: bool)
    requires OnTrack(cfg, r) && (r.pc.PutCdom? || r.pc.CreateCdom? || r.pc.ReadCdom? || Exports(r.pc))
    ensures Advances(cfg, r, Failing(r, code, retryable))
  {}

  lemma BatchAdvances(cfg: Config, w: World, r: Run, f: Fault)
    requires (r.pc.OcrBatch? || r.pc.OcrMerge?) && OnTrack(cfg, r)
    ensures Advances(cfg, r, StepExtract(cfg, w, r, f).1)
  {
    var kind := cfg.kindOf(r.pdf);
    OcrPctGrows(1, 1, cfg.ocrTotal(r.pdf), OcrStart(kind), OcrEnd(kind));
    hide OcrPct, UpdateJob;
  }

  lemma TickAdvances(cfg: Config, w: World, r: Run, f: Fault)
    requires r.pc.OcrTick? && OnTrack(cfg, r)
    ensures Advances(cfg, r, StepExtract(cfg, w, r, f).1)
  {
    var kind := cfg.kindOf(r.pdf);
    var total := cfg.ocrTotal(r.pdf);
    OcrPctGrows(r.pc.done, r.pc.done + 1, total, OcrStart(kind), OcrEnd(kind));
    hide OcrPct, UpdateJob;
  }

  /** The head of the export loop, entered with the bar at 90. */
  lemma EnterAdvances(cfg: Config, r: Run, r0: Run, i: nat)
    requires r.job == r0.job && r.id == r0.id && r.job.progress == 90 && r.job.stage == AtExport
      && r.job.status != Completed
    ensures Advances(cfg, r0, EnterExport(cfg, r, i))
  {
    hide Selected, OcrPct;
  }

  /** Between storing the CDOM and the last export the bar stands still. */
  lemma StandsStill(cfg: Config, r: Run, pc: Pc)
    requires OnTrack(cfg, r)
    requires (r.pc.PutCdom? && pc.CreateCdom?) || (r.pc.CreateCdom? && pc == Check(Export))
      || (Exports(r.pc) && Exports(pc))
    ensures Advances(cfg, r, At(r, pc))
  {}

  lemma ExportsAtNinety(cfg: Config, r: Run)
    requires OnTrack(cfg, r) && (Exports(r.pc) || r.pc.ReadCdom?)
    ensures r.job.progress == 90 && r.job.stage == AtExport && r.job.status != Completed
  {}

  lemma StoreAdvances(cfg: Config, w: World, r: Run, f: Fault)
    requires (r.pc.PutCdom? || r.pc.CreateCdom? || r.pc.ReadCdom?) && OnTrack(cfg, r)
    ensures Advances(cfg, r, StepStore(cfg, w, r, f).1)
  {
    hide Advances, OnTrack, EnterExport, CreateArtifact;
    FailAdvances(cfg, r, StorageError, true);
    FailAdvances(cfg, r, NormalizationFailed, false);
    match r.pc
    case PutCdom => StandsStill(cfg, r, CreateCdom);
    case CreateCdom => StandsStill(cfg, r, Check(Export));
    case ReadCdom =>
      ExportsAtNinety(cfg, r);
      if CdomFile(r.doc.id) in w.objects {
        EnterAdvances(cfg, r.(body := w.objects[CdomFile(r.doc.id)]), r, 0);
      }
  }

  lemma ExportAdvances(cfg: Config, w: World, r: Run, f: Fault)
    requires Exports(r.pc) && OnTrack(cfg, r)
    ensures Advances(cfg, r, StepExport(cfg, w, r, f).1)
  {
    Finishes(cfg, r, false);
    hide Advances, OnTrack, Selected, HasRow, EnterExport, CreateArtifact;
    FailAdvances(cfg, r, StorageError, true);
    FailAdvances(cfg, r, ExportFailed, false);
    ExportsAtNinety(cfg, r);
    EnterAdvances(cfg, r, r, r.pc.i + 1);
    StandsStill(cfg, r, PutExport(r.pc.i));
    StandsStill(cfg, r, CreateExport(r.pc.i));
  }

  lemma Finishes(cfg: Config, r: Run, redeliver: bool)
    ensures Advances(cfg, r, At(r, Done(redeliver)))
  {}

  lemma EndAdvances(cfg: Config, w: World, r: Run, f: Fault)
    requires Phase(r.pc) <= 10 && !r.pc.Done? && OnTrack(cfg, r)
    ensures Advances(cfg, r, StepEnd(cfg, w, r, f).1)
  {
    hide OcrPct;
  }

  lemma StepAdvances(cfg: Config, w: World, r: Run, f: Fault)
    requires Began(r.pc) && OnTrack(cfg, r)
    ensures Advances(cfg, r, Step(cfg, w, r, f).1)
  {
    hide Advances, OnTrack, StepLoad, StepCheckpoint, StepExtract, StepStore, StepExport, StepEnd;
    match r.pc
    case Resume => LoadAdvances(cfg, w, r, f);
    case Check(_) => CheckAdvances(cfg, w, r, f);
    case Note(_) => NoteAdvances(cfg, w, r, f);
    case ReadPdf => ReadAdvances(cfg, w, r, f);
    case SavePages => ReadAdvances(cfg, w, r, f);
    case OcrBatch => BatchAdvances(cfg, w, r, f);
    case OcrMerge => BatchAdvances(cfg, w, r, f);
    case OcrTick(_) => TickAdvances(cfg, w, r, f);
    case PutCdom => StoreAdvances(cfg, w, r, f);
    case CreateCdom => StoreAdvances(cfg, w, r, f);
    case ReadCdom => StoreAdvances(cfg, w, r, f);
    case FindExport(_) => ExportAdvances(cfg, w, r, f);
    case PutExport(_) => ExportAdvances(cfg, w, r, f);
    case CreateExport(_) => ExportAdvances(cfg, w, r, f);
    case _ => EndAdvances(cfg, w, r, f);
  }

  predicate Early(pc: Pc) {
    pc.Begin? || pc.LoadDoc? || pc.MarkDoc? || pc.MarkJob? || pc.FindCdom? || pc == Check(Detect)
  }

  /** A Run that has not yet reported anything. */
  predicate NotYet(r: Run) {
    Early(r.pc) && (r.pc.Begin? || r.job.status != Completed)
  }

  lemma StartsOnTrack(cfg: Config, w: World, r: Run, f: Fault)
    requires NotYet(r)
    ensures
      var r' := Step(cfg, w, r, f).1;
      NotYet(r') || r'.pc.Done? || r'.pc.CancelledJob? || (Began(r'.pc) && OnTrack(cfg, r'))
  {
    hide Selected, HasRow, OcrPct, AfterNote;
  }

  // ---------- the whole log ----------

  /** A progress report: the row written, and the kind of document being read. */
  datatype Report = Report(row: Job, kind: DocKind)

  /** The progress reports of a Run whose n-th storage call meets the stores env[n].0
      with outcome env[n].1; between calls the stores may have changed arbitrarily. */
  function Log(cfg: Config, r: Run, env: seq<(World, Fault)>): seq<Report>
    decreases |env|
  {
    if env == [] then []
    else
      var (w, f) := env[0];
      var rest := Log(cfg, Step(cfg, w, r, f).1, env[1..]);
      if Began(r.pc) && WritesJob(r.pc, f) && r.job.id in w.jobs
      then [Report(RowWritten(cfg, w, r, f), cfg.kindOf(r.pdf))] + rest
      else rest
  }

  /** The same from the start of a Run; one cancelled at its first checkpoint reports
      no progress. */
  function Reports(cfg: Config, r: Run, env: seq<(World, Fault)>): seq<Report>
    decreases |env|
  {
    if !Early(r.pc) then Log(cfg, r, env)
    else if env == [] then []
    else
      var r' := Step(cfg, env[0].0, r, env[0].1).1;
      if r'.pc.CancelledJob? || r'.pc.Done? then [] else Reports(cfg, r', env[1..])
  }

  ghost predicate Rising(log: seq<Report>, from: int) {
    && (forall i :: 0 <= i < |log| ==> from <= log[i].row.progress)
    && (forall i, j :: 0 <= i < j < |log| ==> log[i].row.progress <= log[j].row.progress)
  }

  predicate ReportOk(p: Report) {
    && InStage(p.row.stage, p.kind, p.row.progress)
    && (p.row.progress == 100 <==> p.row.status == Completed)
  }

  /** A written row lies between the worker's copies before and after the step. */
  lemma RowBetween(cfg: Config, w: World, r: Run, f: Fault)
    requires Began(r.pc) && OnTrack(cfg, r) && WritesJob(r.pc, f)
    ensures
      var row := RowWritten(cfg, w, r, f);
      var r' := Step(cfg, w, r, f).1;
      r.job.progress <= row.progress && (r'.pc.Done? || row.progress <= r'.job.progress)
      && ReportOk(Report(row, cfg.kindOf(r.pdf)))
  {
    StepAdvances(cfg, w, r, f);
    hide Selected, HasRow, OcrPct;
  }

  lemma {:induction false} DoneLogsNothing(cfg: Config, r: Run, env: seq<(World, Fault)>)
    requires r.pc.Done?
    ensures Log(cfg, r, env) == []
    decreases |env|
  {
    if env != [] {
      DoneLogsNothing(cfg, r, env[1..]);
    }
  }

  lemma {:induction false} LogRises(cfg: Config, r: Run, env: seq<(World, Fault)>)
    requires Began(r.pc) && OnTrack(cfg, r)
    ensures Rising(Log(cfg, r, env), r.job.progress)
    ensures forall p :: p in Log(cfg, r, env) ==> ReportOk(p)
    decreases |env|
  {
    hide OnTrack, Step, RowWritten, ReportOk;
    if env != [] {
      var (w, f) := env[0];
      var r' := Step(cfg, w, r, f).1;
      StepAdvances(cfg, w, r, f);
      if r'.pc.Done? {
        DoneLogsNothing(cfg, r', env[1..]);
      } else {
        LogRises(cfg, r', env[1..]);
      }
      if WritesJob(r.pc, f) {
        RowBetween(cfg, w, r, f);
      }
    }
  }

  /** Whatever happens to the stores meanwhile, the progress one Run writes never
      goes back from its first checkpoint on, stays within the stretch of the stage
      it is written with, and is 100 exactly on the completed row. */
  lemma {:induction false} ProgressNeverGoesBack(cfg: Config, r: Run, env: seq<(World, Fault)>)
    requires NotYet(r)
    ensures Rising(Reports(cfg, r, env), 5)
    ensures forall p :: p in Reports(cfg, r, env) ==> ReportOk(p)
    decreases |env|
  {
    hide OnTrack, Step, RowWritten, ReportOk;
    if env != [] {
      var (w, f) := env[0];
      var r' := Step(cfg, w, r, f).1;
      StartsOnTrack(cfg, w, r, f);
      if NotYet(r') {
        ProgressNeverGoesBack(cfg, r', env[1..]);
      } else if !r'.pc.CancelledJob? && !r'.pc.Done? {
        LogRises(cfg, r', env[1..]);
        AtLeastFive(cfg, r');
      }
    }
  }

  lemma AtLeastFive(cfg: Config, r: Run)
    requires OnTrack(cfg, r)
    ensures 5 <= r.job.progress
  {}
}
