/** Engine.Run as a machine: every call to a store is one step, and between two
    steps the worker holds its own copy of the job and of the document. */
module EngineSteps {
  import opened Domain

  datatype DocKind = Digital | Mixed | Scanned

  /** What a worker is configured with. Extraction, layout, clean-up and encoding
      are one function `cdom` from the document and its PDF to the stored bytes. */
  datatype Config = Config(
    exporters: seq<Format>,
    canon: string -> string,
    kindOf: Bytes -> DocKind,
    pagesOf: Bytes -> nat,
    ocrTotal: Bytes -> nat,
    batchOcr: bool,
    cdom: (Id, Bytes) -> Bytes,
    render: (Format, Bytes) -> Bytes,
    maxAttempts: int)

  // ---------- which exporters run ----------

  function Filter(all: seq<Format>, wanted: set<string>): (r: seq<Format>)
    ensures forall f :: f in r <==> f in all && FormatName(f) in wanted
  {
    if all == [] then []
    else (if FormatName(all[0]) in wanted then [all[0]] else []) + Filter(all[1..], wanted)
  }

  /** filterExporters: every exporter when no format was requested. */
  function Selected(cfg: Config, formats: seq<string>): (r: seq<Format>) {
    var all := if cfg.exporters == [] then [Json, Markdown, Docx] else cfg.exporters;
    if formats == [] then all
    else Filter(all, set x | x in formats :: cfg.canon(x))
  }

  /** A format that an engine exports for these requested names: one of its exporters, which
      are all three when none is configured, and requested, unless nothing was. */
  predicate Exported(cfg: Config, formats: seq<string>, f: Format) {
    && (if cfg.exporters == [] then f in {Json, Markdown, Docx} else f in cfg.exporters)
    && (formats == [] || exists x :: x in formats && cfg.canon(x) == FormatName(f))
  }

  lemma SelectedAre(cfg: Config, formats: seq<string>)
    ensures forall f :: f in Selected(cfg, formats) <==> Exported(cfg, formats, f)
  {}

  // ---------- checkpoints ----------

  datatype Checkpoint = Detect | Extract | OcrAll | Layout | Postprocess | Normalize | Export

  function CheckpointStage(cp: Checkpoint): Stage {
    match cp
    case Detect => AtDetect
    case Extract => AtExtract
    case OcrAll => AtOcr
    case Layout => AtLayout
    case Postprocess => AtPostprocess
    case Normalize => AtNormalize
    case Export => AtExport
  }

  function CheckpointProgress(cp: Checkpoint, kind: DocKind): int {
    match cp
    case Detect => 5
    case Extract => if kind == Mixed then 30 else 35
    case OcrAll => 35
    case Layout => 60
    case Postprocess => 70
    case Normalize => 75
    case Export => 90
  }

  function OcrStart(kind: DocKind): int { if kind == Mixed then 30 else 35 }

  function OcrEnd(kind: DocKind): int { if kind == Mixed then 55 else 58 }

  /** ocrProgressPct; on non-negative operands Go's division is Dafny's. */
  function OcrPct(done: int, total: int, start: int, end: int): (pct: int) {
    if total <= 0 || done <= 0 then start
    else if done >= total then end
    else start + (done * (end - start)) / total
  }

  // ---------- the machine ----------

  /** The next storage call of a Run. */
  datatype Pc =
    | Begin | LoadDoc | MarkDoc | MarkJob | FindCdom | Resume
    | Check(cp: Checkpoint) | Note(cp: Checkpoint)
    | ReadPdf | SavePages | OcrBatch | OcrMerge | OcrTick(done: nat)
    | PutCdom | CreateCdom | ReadCdom
    | FindExport(i: nat) | PutExport(i: nat) | CreateExport(i: nat)
    | CompleteJob | CompleteDoc | CompleteNote
    | FailJob(retryable: bool) | FailDoc(retryable: bool)
    | CancelledJob | CancelledDoc
    | Done(redeliver: bool)

  datatype Run = Run(id: Id, pc: Pc, job: Job, doc: Document, pdf: Bytes, body: Bytes)

  const NO_JOB := Job(0, 0, Failed, AtFailed, 0, NoError, 0, 0, None)
  const NO_DOC := Document(0, Original(0), DocFailed, [], 0, 0)

  function Start(id: Id): Run { Run(id, Begin, NO_JOB, NO_DOC, [], []) }

  function At(r: Run, pc: Pc): Run { r.(pc := pc) }

  function Noted(r: Run, stage: Stage, progress: int): Run {
    r.(job := r.job.(stage := stage, progress := progress))
  }

  /** fail: the local copies turn failed; two best-effort writes follow. */
  function Failing(r: Run, code: Code, retryable: bool): Run {
    r.(pc := FailJob(retryable), job := r.job.(status := Failed, error := code, stage := AtFailed))
  }

  /** The start of ensureExports: no matching exporter fails the job. */
  function EnterExports(cfg: Config, r: Run): Run {
    if Selected(cfg, r.doc.formats) == [] then Failing(r, ExportFailed, false) else At(r, ReadCdom)
  }

  /** The head of the export loop; past the last exporter comes complete. */
  function EnterExport(cfg: Config, r: Run, i: nat): Run {
    if i < |Selected(cfg, r.doc.formats)| then At(r, FindExport(i))
    else if CanTransition(r.job.status, Completed) then
      r.(pc := CompleteJob,
         job := r.job.(status := Completed, stage := AtCompleted, progress := 100, error := NoError))
    else At(r, Done(false))
  }

  function EnterOcr(cfg: Config, r: Run): Run {
    var total := cfg.ocrTotal(r.pdf);
    if total == 0 then At(r, Check(Layout))
    else if cfg.batchOcr && total > 1 then At(r, OcrBatch)
    else At(r, OcrTick(1))
  }

  /** What follows a checkpoint once its progress is written. */
  function AfterNote(cfg: Config, r: Run, cp: Checkpoint, f: Fault): Run {
    match cp
    case Detect => At(r, ReadPdf)
    case Extract => if cfg.kindOf(r.pdf) == Mixed then EnterOcr(cfg, r) else At(r, Check(Layout))
    case OcrAll => EnterOcr(cfg, r)
    case Layout => if f == Reject then Failing(r, LayoutFailed, false) else At(r, Check(Postprocess))
    case Postprocess => At(r, Check(Normalize))
    case Normalize => if f == Reject then Failing(r, NormalizationFailed, false) else At(r, PutCdom)
    case Export => EnterExports(cfg, r)
  }

  function KindCheckpoint(cfg: Config, r: Run): Checkpoint {
    if cfg.kindOf(r.pdf) == Scanned then OcrAll else Extract
  }

  /** Admission: read the job and the document, mark both as processing. */
  function StepLoad(cfg: Config, w: World, r: Run, f: Fault): (World, Run) {
    match r.pc
    case Begin =>
      if f == StoreDown then (w, At(r, Done(true)))
      else if r.id !in w.jobs then (w, At(r, Done(false)))
      else
        var j := w.jobs[r.id];
        if j.status == Cancelled || j.status == Completed then (w, At(r, Done(false)))
        else (w, r.(job := j, pc := LoadDoc))
    case LoadDoc =>
      if f == StoreDown then (w, At(r, Done(true)))
      else if r.job.doc !in w.docs then (w, At(r, Done(false)))
      else
        var d := w.docs[r.job.doc];
        if r.job.status == Queued then
          (w, r.(doc := d.(status := DocProcessing), job := r.job.(status := Processing), pc := MarkDoc))
        else (w, r.(doc := d, pc := FindCdom))
    case MarkDoc =>
      if f == StoreDown || r.doc.id !in w.docs then (w, At(r, Done(f == StoreDown)))
      else (UpdateDoc(w, r.doc, f), r.(job := r.job.(attempts := r.job.attempts + 1), pc := MarkJob))
    case MarkJob =>
      if f == StoreDown || r.job.id !in w.jobs then (w, At(r, Done(f == StoreDown)))
      else (UpdateJob(w, r.job, f), At(r, FindCdom))
    case FindCdom =>
      if f != StoreDown && HasRow(w, r.doc.id, CdomKind, Json) then (w, At(Noted(r, AtExport, 90), Resume))
      else (w, At(r, Check(Detect)))
    case Resume =>
      if f == StoreDown || r.job.id !in w.jobs then (w, At(r, Done(f == StoreDown)))
      else (UpdateJob(w, r.job, f), EnterExports(cfg, r))
    case _ => (w, r)
  }

  /** A checkpoint looks for a cancellation, then records stage and progress. */
  function StepCheckpoint(cfg: Config, w: World, r: Run, f: Fault): (World, Run) {
    match r.pc
    case Check(cp) =>
      if f == StoreDown || r.id !in w.jobs then (w, At(r, Done(f == StoreDown)))
      else if w.jobs[r.id].status == Cancelled then
        (w, r.(job := r.job.(stage := AtCancelled), pc := CancelledJob))
      else (w, At(Noted(r, CheckpointStage(cp), CheckpointProgress(cp, cfg.kindOf(r.pdf))), Note(cp)))
    case Note(cp) =>
      if f == StoreDown || r.job.id !in w.jobs then (w, At(r, Done(f == StoreDown)))
      else (UpdateJob(w, r.job, f), AfterNote(cfg, r, cp, f))
    case _ => (w, r)
  }

  /** Reading, classifying and, where pages hold too little text, OCR. */
  function StepExtract(cfg: Config, w: World, r: Run, f: Fault): (World, Run) {
    match r.pc
    case ReadPdf =>
      if f == StoreDown || r.doc.source !in w.objects then (w, Failing(r, StorageError, true))
      else if f == Reject then (w, Failing(r, InvalidPdf, false))
      else
        var pdf := w.objects[r.doc.source];
        (w, r.(pdf := pdf, doc := r.doc.(pages := cfg.pagesOf(pdf)), pc := SavePages))
    case SavePages =>
      (UpdateDoc(w, r.doc, f), At(r, Check(KindCheckpoint(cfg, r))))
    case OcrBatch =>
      if f == Reject then (w, At(r, OcrTick(1)))
      else
        var r' := Noted(r, AtOcr, OcrEnd(cfg.kindOf(r.pdf)));
        (UpdateJob(w, r'.job, f), At(r', OcrMerge))
    case OcrMerge =>  // no storage call: the batch answer may miss a page
      if f == Reject then (w, Failing(r, OcrError, true)) else (w, At(r, Check(Layout)))
    case OcrTick(done) =>
      if f == Reject then (w, Failing(r, OcrError, true))
      else
        var total := cfg.ocrTotal(r.pdf);
        var kind := cfg.kindOf(r.pdf);
        var r' := Noted(r, AtOcr, OcrPct(done, total, OcrStart(kind), OcrEnd(kind)));
        (UpdateJob(w, r'.job, f), At(r', if done < total then OcrTick(done + 1) else Check(Layout)))
    case _ => (w, r)
  }

  /** Storing the normalized document and reading it back. */
  function StepStore(cfg: Config, w: World, r: Run, f: Fault): (World, Run) {
    match r.pc
    case PutCdom =>
      if f == StoreDown then (w, Failing(r, StorageError, true))
      else (w.(objects := w.objects[CdomFile(r.doc.id) := cfg.cdom(r.doc.id, r.pdf)]), At(r, CreateCdom))
    case CreateCdom =>
      if f == StoreDown then (w, Failing(r, StorageError, true))
      else
        (CreateArtifact(w, r.doc.id, r.job.id, CdomKind, Json, CdomFile(r.doc.id), |cfg.cdom(r.doc.id, r.pdf)|),
         At(r, Check(Export)))
    case ReadCdom =>
      if f == StoreDown || CdomFile(r.doc.id) !in w.objects then (w, Failing(r, StorageError, true))
      else if f == Reject then (w, Failing(r, NormalizationFailed, false))
      else
        (w, EnterExport(cfg, r.(body := w.objects[CdomFile(r.doc.id)]), 0))
    case _ => (w, r)
  }

  /** The export loop: a format that already has a row is not exported again. */
  function StepExport(cfg: Config, w: World, r: Run, f: Fault): (World, Run) {
    match r.pc
    case FindExport(i) =>
      var sel := Selected(cfg, r.doc.formats);
      if i >= |sel| then (w, At(r, Done(false)))
      else if f != StoreDown && HasRow(w, r.doc.id, ExportKind, sel[i]) then (w, EnterExport(cfg, r, i + 1))
      else (w, At(r, PutExport(i)))
    case PutExport(i) =>
      var sel := Selected(cfg, r.doc.formats);
      if i >= |sel| then (w, At(r, Done(false)))
      else if f == Reject then (w, Failing(r, ExportFailed, false))
      else if f == StoreDown then (w, Failing(r, StorageError, true))
      else
        (w.(objects := w.objects[Output(r.doc.id, sel[i]) := cfg.render(sel[i], r.body)]), At(r, CreateExport(i)))
    case CreateExport(i) =>
      var sel := Selected(cfg, r.doc.formats);
      if i >= |sel| then (w, At(r, Done(false)))
      else if f == StoreDown then (w, Failing(r, StorageError, true))
      else
        (CreateArtifact(w, r.doc.id, r.job.id, ExportKind, sel[i], Output(r.doc.id, sel[i]),
                        |cfg.render(sel[i], r.body)|),
         EnterExport(cfg, r, i + 1))
    case _ => (w, r)
  }

  /** complete, fail and markCancelled. */
  function StepEnd(cfg: Config, w: World, r: Run, f: Fault): (World, Run) {
    match r.pc
    case CompleteJob =>
      if f == StoreDown || r.job.id !in w.jobs then (w, At(r, Done(f == StoreDown)))
      else (UpdateJob(w, r.job, f), r.(doc := r.doc.(status := DocCompleted), pc := CompleteDoc))
    case CompleteDoc =>
      if f == StoreDown || r.doc.id !in w.docs then (w, At(r, Done(f == StoreDown)))
      else (UpdateDoc(w, r.doc, f), At(r, CompleteNote))
    case CompleteNote =>
      (UpdateJob(w, r.job, f), At(r, Done(false)))
    case FailJob(retryable) =>
      (UpdateJob(w, r.job, f), r.(doc := r.doc.(status := DocFailed), pc := FailDoc(retryable)))
    case FailDoc(retryable) =>
      (UpdateDoc(w, r.doc, f), At(r, Done(retryable)))
    case CancelledJob =>
      (UpdateJob(w, r.job, f), r.(doc := r.doc.(status := DocCancelled), pc := CancelledDoc))
    case CancelledDoc =>
      (UpdateDoc(w, r.doc, f), At(r, Done(false)))
    case _ => (w, r)
  }

  /** One storage call of a Run, on the stores as they are now. */
  function Step(cfg: Config, w: World, r: Run, f: Fault): (World, Run) {
    match r.pc
    case Begin => StepLoad(cfg, w, r, f)
    case LoadDoc => StepLoad(cfg, w, r, f)
    case MarkDoc => StepLoad(cfg, w, r, f)
    case MarkJob => StepLoad(cfg, w, r, f)
    case FindCdom => StepLoad(cfg, w, r, f)
    case Resume => StepLoad(cfg, w, r, f)
    case Check(_) => StepCheckpoint(cfg, w, r, f)
    case Note(_) => StepCheckpoint(cfg, w, r, f)
    case ReadPdf => StepExtract(cfg, w, r, f)
    case SavePages => StepExtract(cfg, w, r, f)
    case OcrBatch => StepExtract(cfg, w, r, f)
    case OcrMerge => StepExtract(cfg, w, r, f)
    case OcrTick(_) => StepExtract(cfg, w, r, f)
    case PutCdom => StepStore(cfg, w, r, f)
    case CreateCdom => StepStore(cfg, w, r, f)
    case ReadCdom => StepStore(cfg, w, r, f)
    case FindExport(_) => StepExport(cfg, w, r, f)
    case PutExport(_) => StepExport(cfg, w, r, f)
    case CreateExport(_) => StepExport(cfg, w, r, f)
    case CompleteJob => StepEnd(cfg, w, r, f)
    case CompleteDoc => StepEnd(cfg, w, r, f)
    case CompleteNote => StepEnd(cfg, w, r, f)
    case FailJob(_) => StepEnd(cfg, w, r, f)
    case FailDoc(_) => StepEnd(cfg, w, r, f)
    case CancelledJob => StepEnd(cfg, w, r, f)
    case CancelledDoc => StepEnd(cfg, w, r, f)
    case Done(_) => (w, r)
  }
}
