/** How a Run goes on and how it ends: which message comes back, what a failure, a
    completion and a cancellation leave on the rows, and which way the stages take; and what a
    job is left as whose message could not be published. */
module Verdicts {
  import opened Domain
  import opened EngineSteps
  import opened ServiceSteps
  import P = Progress

  // ---------- the message ----------

  /** The calls whose failure ends a Run for another try; the errors of all others are
      ignored, or fail the job. */
  predicate Retried(pc: Pc) {
    || pc.Begin? || pc.LoadDoc? || pc.MarkDoc? || pc.MarkJob? || pc.Resume? || pc.Check? || pc.Note?
    || pc.CompleteJob? || pc.CompleteDoc?
  }

  /** A message comes back exactly when a store was down at one of those calls, or the job has
      failed for a reason that may pass. */
  lemma EarlyEnd(cfg: Config, w: World, r: Run, f: Fault)
    ensures var pc := StepLoad(cfg, w, r, f).1.pc; !r.pc.Done? && pc.Done? ==>
      pc.redeliver == (f == StoreDown && Retried(r.pc))
    ensures var pc := StepCheckpoint(cfg, w, r, f).1.pc; !r.pc.Done? && pc.Done? ==>
      pc.redeliver == (f == StoreDown && Retried(r.pc))
  {
    hide Selected, HasRow, UpdateJob, UpdateDoc, CheckpointStage, CheckpointProgress;
  }

  lemma LateEnd(cfg: Config, w: World, r: Run, f: Fault)
    ensures !r.pc.Done? ==> !StepExtract(cfg, w, r, f).1.pc.Done?
    ensures var pc := StepStore(cfg, w, r, f).1.pc; !r.pc.Done? && pc.Done? ==> !pc.redeliver && r.pc.ReadCdom?
    ensures
      var pc := StepExport(cfg, w, r, f).1.pc;
      !r.pc.Done? && pc.Done? ==> !pc.redeliver && (r.pc.FindExport? || r.pc.PutExport? || r.pc.CreateExport?)
  {
    hide Selected, HasRow, UpdateJob, UpdateDoc, OcrPct, CreateArtifact;
  }

  lemma LastEnd(cfg: Config, w: World, r: Run, f: Fault)
    ensures
      var pc := StepEnd(cfg, w, r, f).1.pc;
      !r.pc.Done? && pc.Done? ==>
        pc.redeliver == ((f == StoreDown && Retried(r.pc)) || (r.pc.FailDoc? && r.pc.retryable))
  {
    hide UpdateJob, UpdateDoc;
  }

  lemma MessageComesBackIff(cfg: Config, w: World, r: Run, f: Fault)
    requires !r.pc.Done? && Step(cfg, w, r, f).1.pc.Done?
    ensures
      Step(cfg, w, r, f).1.pc.redeliver <==>
        (f == StoreDown && Retried(r.pc)) || (r.pc.FailDoc? && r.pc.retryable)
  {
    EarlyEnd(cfg, w, r, f);
    LateEnd(cfg, w, r, f);
    LastEnd(cfg, w, r, f);
    hide StepLoad, StepCheckpoint, StepExtract, StepStore, StepExport, StepEnd;
  }

  // ---------- failures ----------

  /** From here the job fails with this code: the stores once the two last writes are made, and
      the message. */
  ghost predicate FailsAs(cfg: Config, w: World, r: Run, f: Fault, code: Code, back: bool) {
    var (w1, r1) := Step(cfg, w, r, f);
    var (w2, r2) := Step(cfg, w1, r1, Fine);
    var (w3, r3) := Step(cfg, w2, r2, Fine);
    && r3.pc == Done(back)
    && (r.job.id in w1.jobs ==>
          w3.jobs == w1.jobs[r.job.id := r1.job]
          && r1.job.status == Failed && r1.job.error == code && r1.job.stage == AtFailed
              && r1.job.progress == r.job.progress
          && r1.job.id == r.job.id)
    && (r.doc.id in w1.docs ==> w3.docs == w1.docs[r.doc.id := r.doc.(status := DocFailed)])
    && w3.arts == w1.arts && w3.objects == w1.objects
  }

  lemma FailedEnds(cfg: Config, w: World, r: Run, f: Fault, code: Code, back: bool)
    requires
      Step(cfg, w, r, f).1
        == r.(pc := FailJob(back), job := r.job.(status := Failed, error := code, stage := AtFailed))
    ensures FailsAs(cfg, w, r, f, code, back)
  {
    var (w1, r1) := Step(cfg, w, r, f);
    FailSteps(cfg, w1, r1, back);
    hide Step;
  }

  lemma FailSteps(cfg: Config, w: World, r: Run, back: bool)
    requires r.pc == FailJob(back)
    ensures
      var (w2, r2) := Step(cfg, w, r, Fine);
      var (w3, r3) := Step(cfg, w2, r2, Fine);
      && r3.pc == Done(back) && w3.arts == w.arts && w3.objects == w.objects
      && (r.job.id in w.jobs ==> w3.jobs == w.jobs[r.job.id := r.job])
      && (r.doc.id in w.docs ==> w3.docs == w.docs[r.doc.id := r.doc.(status := DocFailed)])
  {
    hide StepLoad, StepCheckpoint, StepExtract, StepStore, StepExport;
  }

  /** A PDF that cannot be read back is tried again, one that cannot be parsed never. */
  lemma PdfFailures(cfg: Config, w: World, r: Run, f: Fault)
    requires r.pc.ReadPdf?
    ensures f == StoreDown || r.doc.source !in w.objects ==> FailsAs(cfg, w, r, f, StorageError, true)
    ensures f == Reject && r.doc.source in w.objects ==> FailsAs(cfg, w, r, f, InvalidPdf, false)
  {
    if f == StoreDown || r.doc.source !in w.objects {
      FailedEnds(cfg, w, r, f, StorageError, true);
    } else if f == Reject {
      FailedEnds(cfg, w, r, f, InvalidPdf, false);
    }
    hide FailsAs;
  }

  /** OCR that fails is tried again. */
  lemma OcrFailures(cfg: Config, w: World, r: Run)
    requires r.pc.OcrMerge? || r.pc.OcrTick?
    ensures FailsAs(cfg, w, r, Reject, OcrError, true)
  {
    FailedEnds(cfg, w, r, Reject, OcrError, true);
    hide FailsAs;
  }

  /** Layout and validation that fail are not. */
  lemma NormalizationFailures(cfg: Config, w: World, r: Run)
    requires r.job.id in w.jobs
    ensures r.pc == Note(Layout) ==> FailsAs(cfg, w, r, Reject, LayoutFailed, false)
    ensures r.pc == Note(Normalize) ==> FailsAs(cfg, w, r, Reject, NormalizationFailed, false)
  {
    if r.pc == Note(Layout) {
      FailedEnds(cfg, w, r, Reject, LayoutFailed, false);
    } else if r.pc == Note(Normalize) {
      FailedEnds(cfg, w, r, Reject, NormalizationFailed, false);
    }
    hide FailsAs;
  }

  /** A store that is down while the CDOM is written or read is tried again; a CDOM that cannot
      be decoded is not. */
  lemma CdomFailures(cfg: Config, w: World, r: Run, f: Fault)
    ensures (r.pc.PutCdom? || r.pc.CreateCdom?) && f == StoreDown ==> FailsAs(cfg, w, r, f, StorageError, true)
    ensures
      r.pc.ReadCdom? && (f == StoreDown || CdomFile(r.doc.id) !in w.objects) ==>
        FailsAs(cfg, w, r, f, StorageError, true)
    ensures
      r.pc.ReadCdom? && f == Reject && CdomFile(r.doc.id) in w.objects ==>
        FailsAs(cfg, w, r, f, NormalizationFailed, false)
  {
    if r.pc.ReadCdom? && f == Reject && CdomFile(r.doc.id) in w.objects {
      FailedEnds(cfg, w, r, f, NormalizationFailed, false);
    } else if (r.pc.PutCdom? || r.pc.CreateCdom? || r.pc.ReadCdom?)
           && (f == StoreDown || (r.pc.ReadCdom? && CdomFile(r.doc.id) !in w.objects)) {
      FailedEnds(cfg, w, r, f, StorageError, true);
    }
    hide FailsAs;
  }

  /** An exporter that fails, or none at all, fails the job for good; a store that is down is
      tried again. */
  lemma ExportFailures(cfg: Config, w: World, r: Run, f: Fault)
    ensures
      (r.pc == Note(Export) || r.pc.Resume?) && f == Fine && r.job.id in w.jobs
          && Selected(cfg, r.doc.formats) == [] ==>
        FailsAs(cfg, w, r, f, ExportFailed, false)
    ensures
      r.pc.PutExport? && r.pc.i < |Selected(cfg, r.doc.formats)| && f == Reject ==>
        FailsAs(cfg, w, r, f, ExportFailed, false)
    ensures
      (r.pc.PutExport? || r.pc.CreateExport?) && r.pc.i < |Selected(cfg, r.doc.formats)| && f == StoreDown ==>
        FailsAs(cfg, w, r, f, StorageError, true)
  {
    hide Selected;
    if (r.pc == Note(Export) || r.pc.Resume?) && f == Fine && r.job.id in w.jobs && Selected(cfg, r.doc.formats) == [] {
      FailedEnds(cfg, w, r, f, ExportFailed, false);
    } else if (r.pc.PutExport? || r.pc.CreateExport?) && r.pc.i < |Selected(cfg, r.doc.formats)| {
      if r.pc.PutExport? && f == Reject {
        FailedEnds(cfg, w, r, f, ExportFailed, false);
      } else if f == StoreDown {
        FailedEnds(cfg, w, r, f, StorageError, true);
      }
    }
    hide FailsAs;
  }

  // ---------- beginnings and other endings ----------

  /** A Run takes up a job exactly when its row is there and it is neither cancelled nor
      completed; if the store is down the message comes back, otherwise it is done with. */
  lemma Admission(cfg: Config, w: World, id: Id, f: Fault)
    ensures
      var (w', r) := Step(cfg, w, Start(id), f);
      && w' == w
      && (if f == StoreDown then r.pc == Done(true)
          else if id in w.jobs && w.jobs[id].status != Cancelled && w.jobs[id].status != Completed
          then r.pc == LoadDoc && r.job == w.jobs[id]
          else r.pc == Done(false))
  {}

  /** A queued job that is taken up is stored as processing with one attempt more, and its
      document as processing before it. */
  lemma TakenUp(cfg: Config, w: World, r: Run)
    requires r.pc == LoadDoc && r.job.status == Queued && r.job.id in w.jobs
    requires r.job.doc in w.docs && w.docs[r.job.doc].id == r.job.doc
    ensures
      var (w1, r1) := Step(cfg, w, r, Fine);
      var (w2, r2) := Step(cfg, w1, r1, Fine);
      var (w3, r3) := Step(cfg, w2, r2, Fine);
      && w2 == w.(docs := w.docs[r.job.doc := w.docs[r.job.doc].(status := DocProcessing)])
      && w3 == w2.(jobs := w.jobs[r.job.id := r.job.(status := Processing, attempts := r.job.attempts + 1)])
      && r3.pc == FindCdom && r3.job == w3.jobs[r.job.id] && r3.doc == w3.docs[r.job.doc]
  {
    hide HasRow;
  }

  /** Past its last export a job that is processing is stored as completed, at 100 and without
      an error, and its document after it. */
  lemma CompletesAs(cfg: Config, w: World, r: Run)
    requires r.job.status == Processing && r.job.id in w.jobs && r.doc.id in w.docs
    ensures
      var r1 := EnterExport(cfg, r, |Selected(cfg, r.doc.formats)|);
      var (w2, r2) := Step(cfg, w, r1, Fine);
      var (w3, r3) := Step(cfg, w2, r2, Fine);
      var (w4, r4) := Step(cfg, w3, r3, Fine);
      var row := r.job.(status := Completed, stage := AtCompleted, progress := 100, error := NoError);
      && r4.pc == Done(false)
      && w4 == w.(jobs := w.jobs[r.job.id := row], docs := w.docs[r.doc.id := r.doc.(status := DocCompleted)])
  {
    hide Selected, StepLoad, StepCheckpoint, StepExtract, StepStore, StepExport;
    var row := r.job.(status := Completed, stage := AtCompleted, progress := 100, error := NoError);
    assert w.jobs[r.job.id := row][r.job.id := row] == w.jobs[r.job.id := row];
  }

  /** A cancelled job is noticed at the next checkpoint and only there: the copy goes back with
      its stage changed, the document as cancelled, and the message is done with. */
  lemma CancelsAs(cfg: Config, w: World, r: Run)
    requires r.pc.Check? && r.id in w.jobs && r.job.id in w.jobs && r.doc.id in w.docs
    ensures
      if w.jobs[r.id].status == Cancelled then
        var (w1, r1) := Step(cfg, w, r, Fine);
        var (w2, r2) := Step(cfg, w1, r1, Fine);
        var (w3, r3) := Step(cfg, w2, r2, Fine);
        && r3.pc == Done(false)
        && w3 == w.(jobs := w.jobs[r.job.id := r.job.(stage := AtCancelled)],
                    docs := w.docs[r.doc.id := r.doc.(status := DocCancelled)])
      else Step(cfg, w, r, Fine).1.pc == Note(r.pc.cp)
  {
    hide StepLoad, StepExtract, StepStore, StepExport, CheckpointStage, CheckpointProgress, AfterNote;
  }

  /** The page count of the PDF is stored with the document once it is read. */
  lemma PagesNoted(cfg: Config, w: World, r: Run)
    requires r.pc == ReadPdf && r.doc.source in w.objects && r.doc.id in w.docs
    ensures
      var (w1, r1) := Step(cfg, w, r, Fine);
      var (w2, r2) := Step(cfg, w1, r1, Fine);
      var pdf := w.objects[r.doc.source];
      && w2 == w.(docs := w.docs[r.doc.id := r.doc.(pages := cfg.pagesOf(pdf))]) && r2.pdf == pdf
      && r2.pc == if cfg.kindOf(pdf) == Scanned then Check(OcrAll) else Check(Extract)
  {}

  /** OCR is called for a scanned document and for a mixed one with pages to read: as a batch
      when the provider has one and there is more than one page, otherwise page by page. */
  lemma OcrIff(cfg: Config, w: World, r: Run)
    requires r.pc.Note? && r.job.id in w.jobs && (r.pc.cp == Extract || r.pc.cp == OcrAll)
    requires r.pc.cp == OcrAll <==> cfg.kindOf(r.pdf) == Scanned
    ensures
      var pc, pages := Step(cfg, w, r, Fine).1.pc, cfg.ocrTotal(r.pdf);
      && (pc == Check(Layout) <==> cfg.kindOf(r.pdf) == Digital || pages == 0)
      && (pc == OcrBatch <==> cfg.kindOf(r.pdf) != Digital && cfg.batchOcr && pages >= 2)
      && (pc == OcrTick(1) <==> cfg.kindOf(r.pdf) != Digital && (pages == 1 || (pages >= 2 && !cfg.batchOcr)))
  {}

  /** While OCR goes on the row shows its stage: from 30 to 55 for a mixed document, from 35 to 58
      for a scanned one, by the share of the pages that is done. */
  lemma OcrShown(cfg: Config, w: World, r: Run)
    requires r.job.id in w.jobs && cfg.kindOf(r.pdf) != Digital
    requires r.pc == OcrBatch || (r.pc.OcrTick? && 0 < r.pc.done <= cfg.ocrTotal(r.pdf))
    ensures
      var (w', r') := Step(cfg, w, r, Fine);
      var j, n := w'.jobs[r.job.id], cfg.ocrTotal(r.pdf);
      var from, to := if cfg.kindOf(r.pdf) == Mixed then 30 else 35, if cfg.kindOf(r.pdf) == Mixed then 55 else 58;
      && w' == w.(jobs := w.jobs[r.job.id := j]) && j == r.job.(stage := AtOcr, progress := j.progress)
      && (r.pc == OcrBatch ==> j.progress == to)
      && (r.pc.OcrTick? ==> (j.progress - from) * n <= r.pc.done * (to - from) < (j.progress - from + 1) * n)
  {
    var from, to := if cfg.kindOf(r.pdf) == Mixed then 30 else 35, if cfg.kindOf(r.pdf) == Mixed then 55 else 58;
    if r.pc.OcrTick? {
      P.OcrPctExact(r.pc.done, cfg.ocrTotal(r.pdf), from, to);
    }
    hide OcrPct, StepLoad, StepCheckpoint, StepStore, StepExport, StepEnd;
  }

  /** What was stored before is not made again: with a CDOM row the Run goes on with its
      exports, and an export that has its row is passed over. */
  lemma NothingTwice(cfg: Config, w: World, r: Run)
    ensures r.pc == FindCdom ==>
      (Step(cfg, w, r, Fine).1.pc == Resume <==> HasRow(w, r.doc.id, CdomKind, Json))
    ensures r.pc.FindExport? && r.pc.i < |Selected(cfg, r.doc.formats)| ==>
      (Step(cfg, w, r, Fine).1.pc == PutExport(r.pc.i) <==>
         !HasRow(w, r.doc.id, ExportKind, Selected(cfg, r.doc.formats)[r.pc.i]))
  {
    hide Selected, HasRow;
  }

  // ---------- the way of the stages ----------

  /** What a reader of the job sees once a checkpoint is passed, and what is done next. */
  predicate Passed(job: Job, pc: Pc, stage: Stage, progress: int, next: Pc) {
    job.stage == stage && job.progress == progress && pc == next
  }

  /** A job that is not cancelled passes its checkpoints in this order, with these stages and
      percentages on its row; a mixed document is at 30 after extraction, all others at 35. */
  lemma Stages(cfg: Config, w: World, r: Run)
    requires r.pc.Check? && r.id in w.jobs && w.jobs[r.id].status != Cancelled && r.job.id == r.id
    ensures
      var (w1, r1) := Step(cfg, w, r, Fine);
      var (w2, r2) := Step(cfg, w1, r1, Fine);
      var j, pc, kind := w2.jobs[r.id], r2.pc, cfg.kindOf(r.pdf);
      && w2 == w.(jobs := w.jobs[r.id := j]) && j == r.job.(stage := j.stage, progress := j.progress)
      && (r.pc.cp == Detect ==> Passed(j, pc, AtDetect, 5, ReadPdf))
      && (r.pc.cp == Extract && kind == Mixed ==> j.stage == AtExtract && j.progress == 30)
      && (r.pc.cp == Extract && kind != Mixed ==> Passed(j, pc, AtExtract, 35, Check(Layout)))
      && (r.pc.cp == OcrAll ==> j.stage == AtOcr && j.progress == 35)
      && (r.pc.cp == Layout ==> Passed(j, pc, AtLayout, 60, Check(Postprocess)))
      && (r.pc.cp == Postprocess ==> Passed(j, pc, AtPostprocess, 70, Check(Normalize)))
      && (r.pc.cp == Normalize ==> Passed(j, pc, AtNormalize, 75, PutCdom))
      && (r.pc.cp == Export ==> j.stage == AtExport && j.progress == 90)
  {
    hide Selected, StepLoad, StepExtract, StepStore, StepExport, StepEnd, EnterOcr;
  }

  // ---------- messages that are not published ----------

  /** A job whose message cannot be published is stored as failed, whether it is new or a retry;
      its document stays as it is. */
  lemma UnpublishedFails(cfg: Config, w: World, p: Proc, f: Fault, pick: Id)
    requires f != Fine && ((p.Upload? && p.pc == UPublish) || (p.Retry? && p.rpc == RPublish))
    ensures
      var job := if p.Upload? then p.ujob else p.rjob;
      var (w1, p1) := StepProc(cfg, w, p, f, pick);
      var (w2, p2) := StepProc(cfg, w1, p1, Fine, pick);
      && (job.id in w.jobs ==>
            w2 == w.(jobs := w.jobs[job.id := job.(status := Failed, error := InternalError)]))
      && (if p.Upload? then p2.Upload? && p2.pc == UDone else p2.Retry? && p2.rpc == RDone)
  {}
}
