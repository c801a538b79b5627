/** A Run that is killed between any two storage calls and redelivered, any number
    of times, leaves what one undisturbed Run leaves. */
module Redelivery {
  import opened Domain
  import opened EngineSteps
  import ServiceSteps

  // ---------- every Run ends ----------

  function CheckpointIndex(cp: Checkpoint): nat {
    match cp
    case Detect => 17
    case Extract => 15
    case OcrAll => 15
    case Layout => 12
    case Postprocess => 11
    case Normalize => 10
    case Export => 7
  }

  function Phase(pc: Pc): nat {
    match pc
    case Begin => 44
    case LoadDoc => 43
    case MarkDoc => 42
    case MarkJob => 41
    case FindCdom => 40
    case Check(cp) => 2 * CheckpointIndex(cp) + 1
    case Note(cp) => 2 * CheckpointIndex(cp)
    case ReadPdf => 33
    case SavePages => 32
    case OcrBatch => 29
    case OcrTick(_) => 28
    case OcrMerge => 27
    case PutCdom => 19
    case CreateCdom => 18
    case Resume => 13
    case ReadCdom => 12
    case FindExport(_) => 11
    case PutExport(_) => 11
    case CreateExport(_) => 11
    case CompleteJob => 10
    case CompleteDoc => 9
    case CompleteNote => 8
    case FailJob(_) => 7
    case CancelledJob => 7
    case FailDoc(_) => 6
    case CancelledDoc => 6
    case Done(_) => 0
  }

  function Left(n: nat, i: nat): nat { if i < n then n - i else 0 }

  /** What remains inside the two loops. */
  function Remaining(cfg: Config, r: Run): nat {
    match r.pc
    case OcrTick(done) => Left(cfg.ocrTotal(r.pdf), done)
    case FindExport(i) => 3 * Left(|Selected(cfg, r.doc.formats)|, i) + 2
    case PutExport(i) => 3 * Left(|Selected(cfg, r.doc.formats)|, i) + 1
    case CreateExport(i) => 3 * Left(|Selected(cfg, r.doc.formats)|, i)
    case _ => 0
  }

  predicate Descends(cfg: Config, r: Run, r': Run) {
    Phase(r'.pc) < Phase(r.pc) || (Phase(r'.pc) == Phase(r.pc) && Remaining(cfg, r') < Remaining(cfg, r))
  }

  lemma LoadDescends(cfg: Config, w: World, r: Run, f: Fault)
    requires r.pc in {Begin, LoadDoc, MarkDoc, MarkJob, FindCdom, Resume}
    ensures Descends(cfg, r, StepLoad(cfg, w, r, f).1)
  {
    hide Selected, HasRow, Remaining;
  }

  lemma CheckpointDescends(cfg: Config, w: World, r: Run, f: Fault)
    requires r.pc.Check? || r.pc.Note?
    ensures Descends(cfg, r, StepCheckpoint(cfg, w, r, f).1)
  {
    hide Remaining, UpdateJob, CheckpointStage, CheckpointProgress;
    if r.pc.Note? {
      NoteDescends(cfg, r, f);
      hide AfterNote;
    }
  }

  lemma NoteDescends(cfg: Config, r: Run, f: Fault)
    requires r.pc.Note?
    ensures Phase(AfterNote(cfg, r, r.pc.cp, f).pc) < Phase(r.pc)
  {
    hide Selected;
  }

  lemma ExtractDescends(cfg: Config, w: World, r: Run, f: Fault)
    requires r.pc.ReadPdf? || r.pc.SavePages? || r.pc.OcrBatch? || r.pc.OcrMerge? || r.pc.OcrTick?
    ensures Descends(cfg, r, StepExtract(cfg, w, r, f).1)
  {
    hide Selected, HasRow, OcrPct;
  }

  lemma StoreDescends(cfg: Config, w: World, r: Run, f: Fault)
    requires r.pc.PutCdom? || r.pc.CreateCdom? || r.pc.ReadCdom?
    ensures Descends(cfg, r, StepStore(cfg, w, r, f).1)
  {
    hide Selected, HasRow, Remaining;
  }

  lemma ExportDescends(cfg: Config, w: World, r: Run, f: Fault)
    requires r.pc.FindExport? || r.pc.PutExport? || r.pc.CreateExport?
    ensures Descends(cfg, r, StepExport(cfg, w, r, f).1)
  {
    hide Selected, HasRow;
  }

  lemma EndDescends(cfg: Config, w: World, r: Run, f: Fault)
    requires Phase(r.pc) <= 10 && !r.pc.Done?
    ensures Descends(cfg, r, StepEnd(cfg, w, r, f).1)
  {
    hide Remaining;
  }

  /** Every storage call, whatever its outcome, brings the Run nearer its end. */
  lemma StepDescends(cfg: Config, w: World, r: Run, f: Fault)
    requires !r.pc.Done?
    ensures Descends(cfg, r, Step(cfg, w, r, f).1)
  {
    hide Descends, StepLoad, StepCheckpoint, StepExtract, StepStore, StepExport, StepEnd;
    match r.pc
    case Check(_) => CheckpointDescends(cfg, w, r, f);
    case Note(_) => CheckpointDescends(cfg, w, r, f);
    case ReadPdf => ExtractDescends(cfg, w, r, f);
    case SavePages => ExtractDescends(cfg, w, r, f);
    case OcrBatch => ExtractDescends(cfg, w, r, f);
    case OcrMerge => ExtractDescends(cfg, w, r, f);
    case OcrTick(_) => ExtractDescends(cfg, w, r, f);
    case PutCdom => StoreDescends(cfg, w, r, f);
    case CreateCdom => StoreDescends(cfg, w, r, f);
    case ReadCdom => StoreDescends(cfg, w, r, f);
    case FindExport(_) => ExportDescends(cfg, w, r, f);
    case PutExport(_) => ExportDescends(cfg, w, r, f);
    case CreateExport(_) => ExportDescends(cfg, w, r, f);
    case Begin => LoadDescends(cfg, w, r, f);
    case LoadDoc => LoadDescends(cfg, w, r, f);
    case MarkDoc => LoadDescends(cfg, w, r, f);
    case MarkJob => LoadDescends(cfg, w, r, f);
    case FindCdom => LoadDescends(cfg, w, r, f);
    case Resume => LoadDescends(cfg, w, r, f);
    case _ => EndDescends(cfg, w, r, f);
  }

  /** A Run from a program point to its end, the outcome of its n-th storage call
      being faults(n). */
  function Drive(cfg: Config, w: World, r: Run, faults: nat -> Fault, n: nat): (World, Run)
    decreases Phase(r.pc), Remaining(cfg, r)
  {
    if r.pc.Done? then (w, r)
    else
      StepDescends(cfg, w, r, faults(n));
      var (w', r') := Step(cfg, w, r, faults(n));
      Drive(cfg, w', r', faults, n + 1)
  }

  // ---------- the delivered job ----------

  /** A job as its upload leaves it, and what its Run has to produce. */
  datatype Task = Task(job: Job, doc: Document, pdf: Bytes)

  function Sel(cfg: Config, t: Task): seq<Format> { Selected(cfg, t.doc.formats) }

  function Body(cfg: Config, t: Task): Bytes { cfg.cdom(t.doc.id, t.pdf) }

  function Rendered(cfg: Config, t: Task, f: Format): Bytes { cfg.render(f, Body(cfg, t)) }

  predicate TaskOk(cfg: Config, t: Task) {
    t.job.doc == t.doc.id && t.doc.source == Original(t.doc.id) && Sel(cfg, t) != []
  }

  // ---------- how far the stores have come ----------

  predicate Own(t: Task, k: Key) { k == CdomFile(t.doc.id) || (k.Output? && k.doc == t.doc.id) }

  /** Nothing but this job, this document, its rows and its outputs changes. */
  ghost predicate Others(w0: World, w: World, t: Task) {
    && (forall x :: x != t.job.id ==> (x in w.jobs <==> x in w0.jobs) && (x in w0.jobs ==> w.jobs[x] == w0.jobs[x]))
    && (forall x :: x != t.doc.id ==> (x in w.docs <==> x in w0.docs) && (x in w0.docs ==> w.docs[x] == w0.docs[x]))
    && (forall a :: a in w0.arts ==> a in w.arts && w.arts[a] == w0.arts[a])
    && (forall a :: a in w.arts && a !in w0.arts ==> w.arts[a].doc == t.doc.id)
    && (forall k :: !Own(t, k) ==>
          (k in w.objects <==> k in w0.objects) && (k in w0.objects ==> w.objects[k] == w0.objects[k]))
  }

  predicate SameDoc(d: Document, t: Task) {
    d.id == t.doc.id && d.source == t.doc.source && d.formats == t.doc.formats
  }

  /** The attempt is counted exactly when the job has left the queue. */
  predicate JobAt(j: Job, t: Task) {
    && SameJob(j, t.job)
    && (j.status == Queued || j.status == Processing || j.status == Completed)
    && j.attempts == t.job.attempts + (if j.status == Queued then 0 else 1)
  }

  ghost predicate Kept(cfg: Config, w: World, t: Task, c: bool, m: nat) {
    && t.job.id in w.jobs && JobAt(w.jobs[t.job.id], t)
    && t.doc.id in w.docs && SameDoc(w.docs[t.doc.id], t)
    && t.doc.source in w.objects && w.objects[t.doc.source] == t.pdf
    && (w.jobs[t.job.id].status == Completed ==> c && m == |Sel(cfg, t)|)
    && (m > 0 ==> c) && m <= |Sel(cfg, t)|
  }

  /** A row of the document: the CDOM if `c`, an export if its format is among the
      first m; where it says it is, with the right content. */
  predicate RowOk(cfg: Config, w: World, t: Task, c: bool, m: nat, a: Artifact) {
    match a.kind
    case CdomKind =>
      && c && a.format == Json && a.key == CdomFile(t.doc.id) && a.size == |Body(cfg, t)|
      && a.key in w.objects && w.objects[a.key] == Body(cfg, t)
    case ExportKind =>
      && m <= |Sel(cfg, t)| && a.format in Sel(cfg, t)[..m]
      && a.key == Output(t.doc.id, a.format) && a.size == |Rendered(cfg, t, a.format)|
      && a.key in w.objects && w.objects[a.key] == Rendered(cfg, t, a.format)
  }

  ghost predicate RowsOk(cfg: Config, w: World, t: Task, c: bool, m: nat) {
    forall a :: a in w.arts && w.arts[a].doc == t.doc.id ==> RowOk(cfg, w, t, c, m, w.arts[a])
  }

  predicate SameSlot(a: Artifact, b: Artifact, doc: Id) {
    a.doc == doc && b.doc == doc && a.kind == b.kind && a.format == b.format
  }

  /** At most one row of each kind and format. */
  ghost predicate RowsUnique(w: World, doc: Id) {
    forall a, b :: a in w.arts && b in w.arts && SameSlot(w.arts[a], w.arts[b], doc) ==> a == b
  }

  ghost predicate RowsThere(cfg: Config, w: World, t: Task, c: bool, m: nat) {
    && (c ==> HasRow(w, t.doc.id, CdomKind, Json))
    && forall f :: m <= |Sel(cfg, t)| && f in Sel(cfg, t)[..m] ==> HasRow(w, t.doc.id, ExportKind, f)
  }

  predicate IdsBelow(w: World) { forall a :: a in w.arts ==> a < w.nextId }

  /** The first m exports, and the CDOM if `c`, are done: no more and no less. */
  ghost predicate Shelf(cfg: Config, w: World, t: Task, c: bool, m: nat) {
    && Kept(cfg, w, t, c, m)
    && RowsOk(cfg, w, t, c, m) && RowsUnique(w, t.doc.id) && RowsThere(cfg, w, t, c, m)
    && IdsBelow(w)
  }

  /** A job to be run, with what earlier Runs of its document have stored: the CDOM if `c`, and
      the first m exports. An upload delivers it with nothing stored, a retry with whatever the
      failed Run got done, a redelivery in whatever state its Run was killed. */
  ghost predicate Delivered(cfg: Config, w: World, t: Task, c: bool, m: nat) {
    TaskOk(cfg, t) && Shelf(cfg, w, t, c, m)
  }

  // ---------- what the worker holds ----------

  predicate BeforeCdom(pc: Pc) {
    match pc
    case Check(cp) => cp != Export
    case Note(cp) => cp != Export
    case _ =>
      pc.ReadPdf? || pc.SavePages? || pc.OcrBatch? || pc.OcrMerge? || pc.OcrTick? || pc.PutCdom? || pc.CreateCdom?
  }

  predicate AfterCdom(pc: Pc) { pc.Resume? || pc == Check(Export) || pc == Note(Export) || pc.ReadCdom? }

  predicate Exports(pc: Pc) { pc.FindExport? || pc.PutExport? || pc.CreateExport? }

  predicate Completes(pc: Pc) { pc.CompleteJob? || pc.CompleteDoc? || pc.CompleteNote? }

  predicate PdfRead(pc: Pc) { BeforeCdom(pc) && pc != Check(Detect) && pc != Note(Detect) && !pc.ReadPdf? }

  predicate HoldsExport(cfg: Config, w: World, t: Task, r: Run, m: nat)
    requires Exports(r.pc)
  {
    && r.body == Body(cfg, t) && r.pc.i <= m <= |Sel(cfg, t)| && r.pc.i < |Sel(cfg, t)|
    && (!r.pc.FindExport? ==> r.pc.i == m && m < |Sel(cfg, t)| && Sel(cfg, t)[m] !in Sel(cfg, t)[..m])
    && (r.pc.CreateExport? ==>
          Output(t.doc.id, Sel(cfg, t)[m]) in w.objects
          && w.objects[Output(t.doc.id, Sel(cfg, t)[m])] == Rendered(cfg, t, Sel(cfg, t)[m]))
  }

  predicate HoldsRest(cfg: Config, w: World, t: Task, r: Run, c: bool, m: nat) {
    && (BeforeCdom(r.pc) || AfterCdom(r.pc) || Exports(r.pc) || Completes(r.pc) || r.pc.FindCdom?)
    && (BeforeCdom(r.pc) ==> !c && m == 0)
    && (PdfRead(r.pc) ==> r.pdf == t.pdf)
    && (r.pc.CreateCdom? ==> CdomFile(t.doc.id) in w.objects && w.objects[CdomFile(t.doc.id)] == Body(cfg, t))
    && (AfterCdom(r.pc) ==> c)
    && (Exports(r.pc) ==> c && HoldsExport(cfg, w, t, r, m))
    && (Completes(r.pc) ==> c && m == |Sel(cfg, t)|)
  }

  predicate Holds(cfg: Config, w: World, t: Task, r: Run, c: bool, m: nat)
    requires t.job.id in w.jobs
  {
    var now := w.jobs[t.job.id];
    && r.id == t.job.id
    && match r.pc
       case Begin => true
       case Done(redeliver) => !redeliver && now.status == Completed
       case LoadDoc => SameJob(r.job, t.job) && r.job.status == now.status && r.job.attempts == now.attempts
                       && now.status != Completed
       case MarkDoc => SameJob(r.job, t.job) && SameDoc(r.doc, t) && r.job.status == Processing
                       && r.job.attempts == t.job.attempts && now.status == Queued
       case MarkJob => SameJob(r.job, t.job) && SameDoc(r.doc, t) && r.job.status == Processing
                       && r.job.attempts == t.job.attempts + 1 && now.status == Queued
       case _ =>
         && SameJob(r.job, t.job) && SameDoc(r.doc, t) && r.job.attempts == t.job.attempts + 1
         && (if Completes(r.pc) then r.job.status == Completed && now.status != Queued
             else r.job.status == Processing && now.status == Processing)
         && HoldsRest(cfg, w, t, r, c, m)
  }

  ghost predicate Pipe(cfg: Config, w0: World, w: World, t: Task, r: Run, c: bool, m: nat) {
    TaskOk(cfg, t) && Others(w0, w, t) && Shelf(cfg, w, t, c, m) && Holds(cfg, w, t, r, c, m)
  }

  // ---------- what each kind of write does to the shelf ----------

  lemma ShelfFacts(cfg: Config, w: World, t: Task, c: bool, m: nat)
    requires Shelf(cfg, w, t, c, m)
    ensures t.job.id in w.jobs && JobAt(w.jobs[t.job.id], t)
    ensures t.doc.id in w.docs && SameDoc(w.docs[t.doc.id], t)
    ensures t.doc.source in w.objects && w.objects[t.doc.source] == t.pdf
    ensures w.jobs[t.job.id].status == Completed ==> c && m == |Sel(cfg, t)|
    ensures m <= |Sel(cfg, t)| && (m > 0 ==> c)
    ensures HasRow(w, t.doc.id, CdomKind, Json) <==> c
    ensures c ==> CdomFile(t.doc.id) in w.objects && w.objects[CdomFile(t.doc.id)] == Body(cfg, t)
    ensures forall f :: HasRow(w, t.doc.id, ExportKind, f) <==> f in Sel(cfg, t)[..m]
  {
    hide JobAt, SameDoc, Selected;
    if HasRow(w, t.doc.id, CdomKind, Json) {
      var a :| a in w.arts && Matches(w.arts[a], t.doc.id, CdomKind, Json);
      assert RowOk(cfg, w, t, c, m, w.arts[a]);
    }
    forall f
      ensures HasRow(w, t.doc.id, ExportKind, f) <==> f in Sel(cfg, t)[..m]
    {
      if HasRow(w, t.doc.id, ExportKind, f) {
        var a :| a in w.arts && Matches(w.arts[a], t.doc.id, ExportKind, f);
        assert RowOk(cfg, w, t, c, m, w.arts[a]);
      }
    }
  }

  lemma JobWrite(cfg: Config, w0: World, w: World, t: Task, c: bool, m: nat, j: Job)
    requires Others(w0, w, t) && Shelf(cfg, w, t, c, m) && JobAt(j, t)
    requires j.status == Completed ==> c && m == |Sel(cfg, t)|
    ensures var w' := UpdateJob(w, j, Fine); Others(w0, w', t) && Shelf(cfg, w', t, c, m) && w'.jobs[t.job.id] == j
  {
    hide Selected, Others;
    var w' := UpdateJob(w, j, Fine);
    SameRowsSameShelf(cfg, w, w', t, c, m);
    OthersAfterJob(w0, w, t, j);
    hide RowsOk, RowsThere, RowsUnique, IdsBelow, HasRow;
  }

  lemma OthersAfterJob(w0: World, w: World, t: Task, j: Job)
    requires Others(w0, w, t) && j.id == t.job.id
    ensures Others(w0, UpdateJob(w, j, Fine), t)
  {}

  lemma OthersAfterDoc(w0: World, w: World, t: Task, d: Document)
    requires Others(w0, w, t) && d.id == t.doc.id
    ensures Others(w0, UpdateDoc(w, d, Fine), t)
  {}

  lemma DocWrite(cfg: Config, w0: World, w: World, t: Task, c: bool, m: nat, d: Document)
    requires Others(w0, w, t) && Shelf(cfg, w, t, c, m) && SameDoc(d, t)
    ensures
      var w' := UpdateDoc(w, d, Fine);
      Others(w0, w', t) && Shelf(cfg, w', t, c, m) && w'.jobs == w.jobs && t.job.id in w'.jobs
  {
    hide Selected, Others;
    var w' := UpdateDoc(w, d, Fine);
    SameRowsSameShelf(cfg, w, w', t, c, m);
    OthersAfterDoc(w0, w, t, d);
    hide RowsOk, RowsThere, RowsUnique, IdsBelow, HasRow;
  }

  lemma SameRowsSameShelf(cfg: Config, w: World, w': World, t: Task, c: bool, m: nat)
    requires Shelf(cfg, w, t, c, m) && w'.arts == w.arts && w'.objects == w.objects && w'.nextId == w.nextId
    ensures RowsOk(cfg, w', t, c, m) && RowsUnique(w', t.doc.id) && RowsThere(cfg, w', t, c, m) && IdsBelow(w')
  {
    hide Selected;
    forall a | a in w'.arts && w'.arts[a].doc == t.doc.id
      ensures RowOk(cfg, w', t, c, m, w'.arts[a])
    {
      assert RowOk(cfg, w, t, c, m, w.arts[a]);
    }
    SameArtsSameRows(w, w');
  }

  lemma SameArtsSameRows(w: World, w': World)
    requires w'.arts == w.arts
    ensures forall doc, kind, format :: HasRow(w', doc, kind, format) <==> HasRow(w, doc, kind, format)
  {}

  /** The content an own key must have. */
  predicate Content(cfg: Config, t: Task, k: Key, b: Bytes) {
    (k == CdomFile(t.doc.id) && b == Body(cfg, t))
    || (k.Output? && k.doc == t.doc.id && b == Rendered(cfg, t, k.format))
  }

  lemma ObjectWrite(cfg: Config, w0: World, w: World, t: Task, c: bool, m: nat, k: Key, b: Bytes)
    requires Others(w0, w, t) && Shelf(cfg, w, t, c, m) && Content(cfg, t, k, b) && t.doc.source == Original(t.doc.id)
    ensures
      var w' := w.(objects := w.objects[k := b]);
      Others(w0, w', t) && Shelf(cfg, w', t, c, m)
  {
    var w' := w.(objects := w.objects[k := b]);
    hide Selected, Body, Rendered, RowsOk, RowsUnique, RowsThere, HasRow;
    assert RowsUnique(w', t.doc.id) && RowsThere(cfg, w', t, c, m) by { SameSlotsStay(cfg, w, w', t, c, m); }
    assert RowsOk(cfg, w', t, c, m) by { RowsStayOk(cfg, w, t, c, m, k, b); }
  }

  lemma SameSlotsStay(cfg: Config, w: World, w': World, t: Task, c: bool, m: nat)
    requires w'.arts == w.arts && RowsUnique(w, t.doc.id) && RowsThere(cfg, w, t, c, m)
    ensures RowsUnique(w', t.doc.id) && RowsThere(cfg, w', t, c, m)
  {
    hide Selected;
    SameArtsSameRows(w, w');
  }

  lemma RowsStayOk(cfg: Config, w: World, t: Task, c: bool, m: nat, k: Key, b: Bytes)
    requires RowsOk(cfg, w, t, c, m) && Content(cfg, t, k, b)
    ensures RowsOk(cfg, w.(objects := w.objects[k := b]), t, c, m)
  {
    hide Selected, Body;
    var w' := w.(objects := w.objects[k := b]);
    forall a | a in w'.arts && w'.arts[a].doc == t.doc.id
      ensures RowOk(cfg, w', t, c, m, w'.arts[a])
    {
      assert RowOk(cfg, w, t, c, m, w.arts[a]);
    }
  }

  lemma RowWrite(cfg: Config, w0: World, w: World, t: Task, c: bool, m: nat, row: Artifact, c': bool, m': nat)
    requires Others(w0, w, t) && Shelf(cfg, w, t, c, m)
    requires row.id == w.nextId && row.doc == t.doc.id && RowOk(cfg, w, t, c', m', row)
    requires !HasRow(w, t.doc.id, row.kind, row.format)
    requires m' <= |Sel(cfg, t)| && (c ==> c') && m <= m' && (m' > 0 ==> c') && w.jobs[t.job.id].status != Completed
    requires c' ==> c || (row.kind == CdomKind && row.format == Json)
    requires forall f :: f in Sel(cfg, t)[..m'] <==>
      f in Sel(cfg, t)[..m] || (row.kind == ExportKind && f == row.format)
    ensures
      var w' := w.(arts := w.arts[row.id := row], nextId := w.nextId + 1);
      Others(w0, w', t) && Shelf(cfg, w', t, c', m')
  {
    hide Sel, Body, Rendered, RowsOk, RowsUnique, RowsThere, HasRow;
    var w' := w.(arts := w.arts[row.id := row], nextId := w.nextId + 1);
    assert row.id !in w.arts;
    assert RowsThere(cfg, w', t, c', m') by { RowsAllThere(cfg, w, w', t, c, m, row, c', m'); }
    assert RowsOk(cfg, w', t, c', m') by { RowsAllOk(cfg, w, t, c, m, row, c', m'); }
    assert RowsUnique(w', t.doc.id) by { RowsStayUnique(w, w', row); }
    assert Others(w0, w', t) by { OthersUntouched(w0, w, t, row); }
  }

  lemma OthersUntouched(w0: World, w: World, t: Task, row: Artifact)
    requires Others(w0, w, t) && row.id !in w.arts && row.doc == t.doc.id
    ensures Others(w0, w.(arts := w.arts[row.id := row], nextId := w.nextId + 1), t)
  {}

  lemma RowsAllThere(cfg: Config, w: World, w': World, t: Task, c: bool, m: nat, row: Artifact, c': bool, m': nat)
    requires row.id !in w.arts && w'.arts == w.arts[row.id := row] && row.doc == t.doc.id
    requires RowsThere(cfg, w, t, c, m) && m <= |Sel(cfg, t)| && m' <= |Sel(cfg, t)|
    requires c' ==> c || (row.kind == CdomKind && row.format == Json)
    requires forall f :: f in Sel(cfg, t)[..m'] <==>
      f in Sel(cfg, t)[..m] || (row.kind == ExportKind && f == row.format)
    ensures RowsThere(cfg, w', t, c', m')
  {
    hide Sel, HasRow;
    RowsGrow(w, w', row);
  }

  lemma RowsAllOk(cfg: Config, w: World, t: Task, c: bool, m: nat, row: Artifact, c': bool, m': nat)
    requires RowsOk(cfg, w, t, c, m) && RowOk(cfg, w, t, c', m', row) && row.id !in w.arts
    requires (c ==> c') && m <= |Sel(cfg, t)| && m' <= |Sel(cfg, t)|
    requires forall f :: f in Sel(cfg, t)[..m] ==> f in Sel(cfg, t)[..m']
    ensures RowsOk(cfg, w.(arts := w.arts[row.id := row], nextId := w.nextId + 1), t, c', m')
  {
    hide Sel, Body, Rendered;
    var w' := w.(arts := w.arts[row.id := row], nextId := w.nextId + 1);
    forall a | a in w'.arts && w'.arts[a].doc == t.doc.id
      ensures RowOk(cfg, w', t, c', m', w'.arts[a])
    {
      if a != row.id {
        assert RowOk(cfg, w, t, c, m, w.arts[a]);
      }
    }
  }

  lemma RowsStayUnique(w: World, w': World, row: Artifact)
    requires RowsUnique(w, row.doc) && row.id !in w.arts && w'.arts == w.arts[row.id := row]
    requires !HasRow(w, row.doc, row.kind, row.format)
    ensures RowsUnique(w', row.doc)
  {
    assert forall b :: b in w.arts ==> !Matches(w.arts[b], row.doc, row.kind, row.format);
  }

  lemma RowsGrow(w: World, w': World, row: Artifact)
    requires row.id !in w.arts && w'.arts == w.arts[row.id := row]
    ensures HasRow(w', row.doc, row.kind, row.format)
    ensures forall doc, kind, format :: HasRow(w, doc, kind, format) ==> HasRow(w', doc, kind, format)
  {
    assert row.id in w'.arts && Matches(w'.arts[row.id], row.doc, row.kind, row.format);
    forall doc, kind, format | HasRow(w, doc, kind, format)
      ensures HasRow(w', doc, kind, format)
    {
      var a :| a in w.arts && Matches(w.arts[a], doc, kind, format);
      assert a in w'.arts && Matches(w'.arts[a], doc, kind, format);
    }
  }

  /** A format requested twice is exported once. */
  lemma SkipRepeat(cfg: Config, w: World, t: Task, m: nat)
    requires Shelf(cfg, w, t, true, m) && m < |Sel(cfg, t)| && Sel(cfg, t)[m] in Sel(cfg, t)[..m]
    requires w.jobs[t.job.id].status != Completed
    ensures Shelf(cfg, w, t, true, m + 1)
  {
    hide Selected, Body, Rendered;
    var sel := Sel(cfg, t);
    assert sel[..m + 1] == sel[..m] + [sel[m]];
    assert forall f :: f in sel[..m + 1] <==> f in sel[..m];
    forall a | a in w.arts && w.arts[a].doc == t.doc.id
      ensures RowOk(cfg, w, t, true, m + 1, w.arts[a])
    {
      assert RowOk(cfg, w, t, true, m, w.arts[a]);
    }
  }

  // ---------- one storage call, or a crash, keeps the pipe ----------

  lemma BeginPipe(cfg: Config, w0: World, w: World, t: Task, r: Run, c: bool, m: nat)
    requires Pipe(cfg, w0, w, t, r, c, m) && r.pc.Begin?
    ensures var (w', r') := StepLoad(cfg, w, r, Fine); Pipe(cfg, w0, w', t, r', c, m)
  {
    hide Others, Shelf, TaskOk, HasRow, HoldsRest;
    ShelfFacts(cfg, w, t, c, m);
  }

  lemma LoadDocPipe(cfg: Config, w0: World, w: World, t: Task, r: Run, c: bool, m: nat)
    requires Pipe(cfg, w0, w, t, r, c, m) && r.pc.LoadDoc?
    ensures var (w', r') := StepLoad(cfg, w, r, Fine); Pipe(cfg, w0, w', t, r', c, m)
  {
    hide Others, Shelf, Selected, HasRow, HoldsExport, Body;
    ShelfFacts(cfg, w, t, c, m);
  }

  lemma FindCdomPipe(cfg: Config, w0: World, w: World, t: Task, r: Run, c: bool, m: nat)
    requires Pipe(cfg, w0, w, t, r, c, m) && r.pc.FindCdom?
    ensures var (w', r') := StepLoad(cfg, w, r, Fine); Pipe(cfg, w0, w', t, r', c, m)
  {
    hide Others, Shelf, TaskOk, HasRow, HoldsExport, Body;
    ShelfFacts(cfg, w, t, c, m);
  }

  lemma ResumePipe(cfg: Config, w0: World, w: World, t: Task, r: Run, c: bool, m: nat)
    requires Pipe(cfg, w0, w, t, r, c, m) && r.pc.Resume?
    ensures var (w', r') := StepLoad(cfg, w, r, Fine); Pipe(cfg, w0, w', t, r', c, m)
  {
    hide Others, Shelf, Selected, HasRow, HoldsExport, Body;
    ShelfFacts(cfg, w, t, c, m);
    JobWrite(cfg, w0, w, t, c, m, r.job);
  }

  lemma CheckPipe(cfg: Config, w0: World, w: World, t: Task, r: Run, c: bool, m: nat)
    requires Pipe(cfg, w0, w, t, r, c, m) && r.pc.Check?
    ensures var (w', r') := StepCheckpoint(cfg, w, r, Fine); Pipe(cfg, w0, w', t, r', c, m)
  {
    hide Others, Shelf, Selected, HasRow, CheckpointProgress, CheckpointStage;
    ShelfFacts(cfg, w, t, c, m);
  }

  /** The worker's copy fits the stores once it is written. */
  lemma HoldsWritten(cfg: Config, w: World, w': World, t: Task, r: Run, c: bool, m: nat)
    requires t.job.id in w.jobs && t.job.id in w'.jobs && w'.jobs[t.job.id] == r.job && w'.objects == w.objects
    requires Holds(cfg, w, t, r, c, m) && r.pc.Note?
    ensures Holds(cfg, w', t, r, c, m)
  {
    hide Selected, Body, Rendered;
  }

  lemma HoldsOn(cfg: Config, w: World, t: Task, r: Run, pc: Pc, c: bool, m: nat)
    requires t.job.id in w.jobs && Holds(cfg, w, t, r, c, m) && BeforeCdom(r.pc)
    requires BeforeCdom(pc) && !pc.CreateCdom? && (PdfRead(pc) ==> r.pdf == t.pdf)
    ensures Holds(cfg, w, t, At(r, pc), c, m)
  {
    hide Selected, Body, Rendered;
  }

  lemma HoldsOcr(cfg: Config, w: World, t: Task, r: Run, c: bool, m: nat)
    requires t.job.id in w.jobs && Holds(cfg, w, t, r, c, m) && BeforeCdom(r.pc) && r.pdf == t.pdf
    ensures Holds(cfg, w, t, EnterOcr(cfg, r), c, m)
  {
    HoldsOn(cfg, w, t, r, Check(Layout), c, m);
    HoldsOn(cfg, w, t, r, OcrBatch, c, m);
    HoldsOn(cfg, w, t, r, OcrTick(1), c, m);
    hide Holds;
  }

  lemma HoldsExports(cfg: Config, w: World, t: Task, r: Run, c: bool, m: nat)
    requires TaskOk(cfg, t) && t.job.id in w.jobs && Holds(cfg, w, t, r, c, m) && r.pc == Note(Export)
    ensures Holds(cfg, w, t, EnterExports(cfg, r), c, m)
  {
    hide Selected, Body, Rendered;
  }

  lemma HoldsNoted(cfg: Config, w: World, t: Task, r: Run, c: bool, m: nat)
    requires TaskOk(cfg, t) && t.job.id in w.jobs && Holds(cfg, w, t, r, c, m) && r.pc.Note?
    ensures Holds(cfg, w, t, AfterNote(cfg, r, r.pc.cp, Fine), c, m)
  {
    HoldsPdf(cfg, w, t, r, c, m);
    hide Holds, EnterOcr, EnterExports;
    match r.pc.cp
    case Detect => HoldsOn(cfg, w, t, r, ReadPdf, c, m);
    case Extract => HoldsOcr(cfg, w, t, r, c, m); HoldsOn(cfg, w, t, r, Check(Layout), c, m);
    case OcrAll => HoldsOcr(cfg, w, t, r, c, m);
    case Layout => HoldsOn(cfg, w, t, r, Check(Postprocess), c, m);
    case Postprocess => HoldsOn(cfg, w, t, r, Check(Normalize), c, m);
    case Normalize => HoldsOn(cfg, w, t, r, PutCdom, c, m);
    case Export => HoldsExports(cfg, w, t, r, c, m);
  }

  lemma HoldsPdf(cfg: Config, w: World, t: Task, r: Run, c: bool, m: nat)
    requires t.job.id in w.jobs && Holds(cfg, w, t, r, c, m)
    ensures PdfRead(r.pc) ==> r.pdf == t.pdf
  {}

  lemma NotePipe(cfg: Config, w0: World, w: World, t: Task, r: Run, c: bool, m: nat)
    requires Pipe(cfg, w0, w, t, r, c, m) && r.pc.Note?
    ensures var (w', r') := StepCheckpoint(cfg, w, r, Fine); Pipe(cfg, w0, w', t, r', c, m)
  {
    ShelfFacts(cfg, w, t, c, m);
    NotesJob(cfg, w, t, r, c, m);
    hide Others, Shelf, Holds, HasRow, AfterNote, JobAt, TaskOk, UpdateJob;
    JobWrite(cfg, w0, w, t, c, m, r.job);
    var w' := UpdateJob(w, r.job, Fine);
    Present(w, r.job);
    ShelfFacts(cfg, w', t, c, m);
    HoldsWritten(cfg, w, w', t, r, c, m);
    HoldsNoted(cfg, w', t, r, c, m);
  }

  lemma NotesJob(cfg: Config, w: World, t: Task, r: Run, c: bool, m: nat)
    requires t.job.id in w.jobs && Holds(cfg, w, t, r, c, m) && r.pc.Note?
    ensures JobAt(r.job, t) && r.job.status == Processing && r.job.id == t.job.id
  {
    hide HoldsRest;
  }

  lemma Present(w: World, j: Job)
    ensures UpdateJob(w, j, Fine).objects == w.objects
  {}

  lemma MarkDocPipe(cfg: Config, w0: World, w: World, t: Task, r: Run, c: bool, m: nat)
    requires Pipe(cfg, w0, w, t, r, c, m) && r.pc.MarkDoc?
    ensures var (w', r') := StepLoad(cfg, w, r, Fine); Pipe(cfg, w0, w', t, r', c, m)
  {
    ShelfFacts(cfg, w, t, c, m);
    hide Others, Shelf, Selected, HasRow, TaskOk, Body, HoldsRest;
    DocWrite(cfg, w0, w, t, c, m, r.doc);
  }

  lemma MarkJobPipe(cfg: Config, w0: World, w: World, t: Task, r: Run, c: bool, m: nat)
    requires Pipe(cfg, w0, w, t, r, c, m) && r.pc.MarkJob?
    ensures var (w', r') := StepLoad(cfg, w, r, Fine); Pipe(cfg, w0, w', t, r', c, m)
  {
    ShelfFacts(cfg, w, t, c, m);
    hide Others, Shelf, Selected, HasRow, TaskOk, Body;
    JobWrite(cfg, w0, w, t, c, m, r.job);
  }

  lemma ReadPdfPipe(cfg: Config, w0: World, w: World, t: Task, r: Run, c: bool, m: nat)
    requires Pipe(cfg, w0, w, t, r, c, m) && r.pc.ReadPdf?
    ensures var (w', r') := StepExtract(cfg, w, r, Fine); Pipe(cfg, w0, w', t, r', c, m)
  {
    ShelfFacts(cfg, w, t, c, m);
    hide Others, Shelf, TaskOk, HasRow, HoldsExport, Body, JobAt, UpdateJob, UpdateDoc, OcrPct;
  }

  lemma MergePipe(cfg: Config, w0: World, w: World, t: Task, r: Run, c: bool, m: nat)
    requires Pipe(cfg, w0, w, t, r, c, m) && r.pc.OcrMerge?
    ensures var (w', r') := StepExtract(cfg, w, r, Fine); Pipe(cfg, w0, w', t, r', c, m)
  {
    ShelfFacts(cfg, w, t, c, m);
    assert PdfRead(r.pc) && r.pdf == t.pdf;
    HoldsOn(cfg, w, t, r, Check(Layout), c, m);
    hide Others, Shelf, TaskOk, Holds;
  }

  /** What the worker holds depends on the job's row and the objects only. */
  lemma HoldsStill(cfg: Config, w: World, w': World, t: Task, r: Run, c: bool, m: nat)
    requires t.job.id in w.jobs && w'.jobs == w.jobs && w'.objects == w.objects
    requires Holds(cfg, w, t, r, c, m)
    ensures Holds(cfg, w', t, r, c, m)
  {
    hide Selected, Body, Rendered;
  }

  lemma SavePagesPipe(cfg: Config, w0: World, w: World, t: Task, r: Run, c: bool, m: nat)
    requires Pipe(cfg, w0, w, t, r, c, m) && r.pc.SavePages?
    ensures var (w', r') := StepExtract(cfg, w, r, Fine); Pipe(cfg, w0, w', t, r', c, m)
  {
    ShelfFacts(cfg, w, t, c, m);
    assert PdfRead(r.pc) && r.pdf == t.pdf && SameDoc(r.doc, t);
    hide Others, Shelf, TaskOk, Holds, SameDoc;
    DocWrite(cfg, w0, w, t, c, m, r.doc);
    var w' := UpdateDoc(w, r.doc, Fine);
    HoldsStill(cfg, w, w', t, r, c, m);
    HoldsOn(cfg, w', t, r, Check(KindCheckpoint(cfg, r)), c, m);
  }

  lemma OcrPipe(cfg: Config, w0: World, w: World, t: Task, r: Run, c: bool, m: nat)
    requires Pipe(cfg, w0, w, t, r, c, m) && (r.pc.OcrBatch? || r.pc.OcrTick?)
    ensures var (w', r') := StepExtract(cfg, w, r, Fine); Pipe(cfg, w0, w', t, r', c, m)
  {
    hide Others, Shelf, TaskOk, HasRow, HoldsExport, Body, OcrPct;
    ShelfFacts(cfg, w, t, c, m);
    JobWrite(cfg, w0, w, t, c, m, StepExtract(cfg, w, r, Fine).1.job);
  }

  lemma PutCdomPipe(cfg: Config, w0: World, w: World, t: Task, r: Run, c: bool, m: nat)
    requires Pipe(cfg, w0, w, t, r, c, m) && r.pc.PutCdom?
    ensures var (w', r') := StepStore(cfg, w, r, Fine); Pipe(cfg, w0, w', t, r', c, m)
  {
    hide Others, Shelf, Selected, HasRow;
    ObjectWrite(cfg, w0, w, t, c, m, CdomFile(t.doc.id), Body(cfg, t));
  }

  lemma CreateCdomPipe(cfg: Config, w0: World, w: World, t: Task, r: Run, c: bool, m: nat)
    requires Pipe(cfg, w0, w, t, r, c, m) && r.pc.CreateCdom?
    ensures var (w', r') := StepStore(cfg, w, r, Fine); Pipe(cfg, w0, w', t, r', true, 0)
  {
    hide Others, Shelf, Selected, HasRow;
    ShelfFacts(cfg, w, t, c, m);
    RowWrite(cfg, w0, w, t, c, m,
             Artifact(w.nextId, t.doc.id, r.job.id, CdomKind, Json, CdomFile(t.doc.id), |Body(cfg, t)|), true, 0);
  }

  lemma EnterPipe(cfg: Config, w0: World, w: World, t: Task, r: Run, m: nat, i: nat)
    requires TaskOk(cfg, t) && Others(w0, w, t) && Shelf(cfg, w, t, true, m) && (Exports(r.pc) || r.pc.ReadCdom?)
    requires Holds(cfg, w, t, r, true, m) && r.body == Body(cfg, t) && i <= m
    ensures Pipe(cfg, w0, w, t, EnterExport(cfg, r, i), true, m)
  {
    hide Others, Selected, HasRow;
    ShelfFacts(cfg, w, t, true, m);
    hide Shelf;
  }

  lemma ReadCdomPipe(cfg: Config, w0: World, w: World, t: Task, r: Run, c: bool, m: nat)
    requires Pipe(cfg, w0, w, t, r, c, m) && r.pc.ReadCdom?
    ensures var (w', r') := StepStore(cfg, w, r, Fine); c && Pipe(cfg, w0, w', t, r', true, m)
  {
    hide Others, Shelf, Selected, HasRow;
    ShelfFacts(cfg, w, t, c, m);
    EnterPipe(cfg, w0, w, t, r.(body := Body(cfg, t)), m, 0);
  }

  lemma FindExportPipe(cfg: Config, w0: World, w: World, t: Task, r: Run, c: bool, m: nat) returns (m': nat)
    requires Pipe(cfg, w0, w, t, r, c, m) && r.pc.FindExport?
    ensures var (w', r') := StepExport(cfg, w, r, Fine); c && Pipe(cfg, w0, w', t, r', true, m')
  {
    hide Others, Shelf, Selected, HasRow;
    ShelfFacts(cfg, w, t, c, m);
    m' := m;
    var sel, i := Sel(cfg, t), r.pc.i;
    assert i < |sel| ==> (i < m ==> sel[..m][i] == sel[i]);
    if i < |sel| && HasRow(w, t.doc.id, ExportKind, sel[i]) {
      if i == m {
        SkipRepeat(cfg, w, t, m);
        m' := m + 1;
      }
      EnterPipe(cfg, w0, w, t, r, m', i + 1);
    }
  }

  lemma PutExportPipe(cfg: Config, w0: World, w: World, t: Task, r: Run, c: bool, m: nat)
    requires Pipe(cfg, w0, w, t, r, c, m) && r.pc.PutExport?
    ensures var (w', r') := StepExport(cfg, w, r, Fine); c && Pipe(cfg, w0, w', t, r', true, m)
  {
    hide Others, Shelf, Selected, HasRow, Body;
    ObjectWrite(cfg, w0, w, t, c, m, Output(t.doc.id, Sel(cfg, t)[m]), Rendered(cfg, t, Sel(cfg, t)[m]));
  }

  lemma CreateExportPipe(cfg: Config, w0: World, w: World, t: Task, r: Run, c: bool, m: nat)
    requires Pipe(cfg, w0, w, t, r, c, m) && r.pc.CreateExport?
    ensures var (w', r') := StepExport(cfg, w, r, Fine); c && Pipe(cfg, w0, w', t, r', true, m + 1)
  {
    hide Others, Shelf, Selected, HasRow, Body;
    ShelfFacts(cfg, w, t, c, m);
    var sel := Sel(cfg, t);
    var row := Artifact(w.nextId, t.doc.id, r.job.id, ExportKind, sel[m], Output(t.doc.id, sel[m]),
          |Rendered(cfg, t, sel[m])|);
    assert sel[..m + 1] == sel[..m] + [sel[m]];
    RowWrite(cfg, w0, w, t, c, m, row, true, m + 1);
    var w' := w.(arts := w.arts[row.id := row], nextId := w.nextId + 1);
    EnterPipe(cfg, w0, w', t, r.(pc := FindExport(m)), m + 1, m + 1);
  }

  lemma CompletePipe(cfg: Config, w0: World, w: World, t: Task, r: Run, c: bool, m: nat)
    requires Pipe(cfg, w0, w, t, r, c, m) && Completes(r.pc)
    ensures var (w', r') := StepEnd(cfg, w, r, Fine); Pipe(cfg, w0, w', t, r', c, m)
  {
    hide Others, Shelf, Selected, HasRow;
    ShelfFacts(cfg, w, t, c, m);
    if r.pc.CompleteDoc? {
      DocWrite(cfg, w0, w, t, c, m, r.doc);
    } else {
      JobWrite(cfg, w0, w, t, c, m, r.job);
    }
  }

  lemma StepPipe(cfg: Config, w0: World, w: World, t: Task, r: Run, c: bool, m: nat) returns (c': bool, m': nat)
    requires Pipe(cfg, w0, w, t, r, c, m)
    ensures var (w', r') := Step(cfg, w, r, Fine); Pipe(cfg, w0, w', t, r', c', m')
  {
    hide Others, Shelf, TaskOk, HasRow, HoldsRest, Step, StepLoad, StepCheckpoint, StepExtract, StepStore, StepExport,
        StepEnd;
    c', m' := c, m;
    if r.pc.FailJob? || r.pc.FailDoc? || r.pc.CancelledJob? || r.pc.CancelledDoc? {
      NoFailure(cfg, w0, w, t, r, c, m);
    }
    StepIs(cfg, w, r, Fine);
    match r.pc
    case Begin => BeginPipe(cfg, w0, w, t, r, c, m);
    case LoadDoc => LoadDocPipe(cfg, w0, w, t, r, c, m);
    case MarkDoc => MarkDocPipe(cfg, w0, w, t, r, c, m);
    case MarkJob => MarkJobPipe(cfg, w0, w, t, r, c, m);
    case FindCdom => FindCdomPipe(cfg, w0, w, t, r, c, m);
    case Resume => ResumePipe(cfg, w0, w, t, r, c, m);
    case Check(_) => CheckPipe(cfg, w0, w, t, r, c, m);
    case Note(_) => NotePipe(cfg, w0, w, t, r, c, m);
    case ReadPdf => ReadPdfPipe(cfg, w0, w, t, r, c, m);
    case SavePages => SavePagesPipe(cfg, w0, w, t, r, c, m);
    case OcrBatch => OcrPipe(cfg, w0, w, t, r, c, m);
    case OcrMerge => MergePipe(cfg, w0, w, t, r, c, m);
    case OcrTick(_) => OcrPipe(cfg, w0, w, t, r, c, m);
    case PutCdom => PutCdomPipe(cfg, w0, w, t, r, c, m);
    case CreateCdom => CreateCdomPipe(cfg, w0, w, t, r, c, m); c', m' := true, 0;
    case ReadCdom => ReadCdomPipe(cfg, w0, w, t, r, c, m); c' := true;
    case FindExport(_) => m' := FindExportPipe(cfg, w0, w, t, r, c, m); c' := true;
    case PutExport(_) => PutExportPipe(cfg, w0, w, t, r, c, m); c' := true;
    case CreateExport(_) => CreateExportPipe(cfg, w0, w, t, r, c, m); c', m' := true, m + 1;
    case CompleteJob => CompletePipe(cfg, w0, w, t, r, c, m);
    case CompleteDoc => CompletePipe(cfg, w0, w, t, r, c, m);
    case CompleteNote => CompletePipe(cfg, w0, w, t, r, c, m);
    case _ =>
  }

  lemma NoFailure(cfg: Config, w0: World, w: World, t: Task, r: Run, c: bool, m: nat)
    requires Pipe(cfg, w0, w, t, r, c, m)
    ensures !r.pc.FailJob? && !r.pc.FailDoc? && !r.pc.CancelledJob? && !r.pc.CancelledDoc?
  {
    hide Selected, Others, HoldsExport, Body, TaskOk, RowsOk, RowsUnique, RowsThere;
  }

  lemma StepIs(cfg: Config, w: World, r: Run, f: Fault)
    ensures r.pc.Done? ==> Step(cfg, w, r, f) == (w, r)
    ensures r.pc in {Begin, LoadDoc, MarkDoc, MarkJob, FindCdom, Resume} ==>
      Step(cfg, w, r, f) == StepLoad(cfg, w, r, f)
    ensures r.pc.Check? || r.pc.Note? ==> Step(cfg, w, r, f) == StepCheckpoint(cfg, w, r, f)
    ensures r.pc.ReadPdf? || r.pc.SavePages? || r.pc.OcrBatch? || r.pc.OcrMerge? || r.pc.OcrTick? ==>
              Step(cfg, w, r, f) == StepExtract(cfg, w, r, f)
    ensures r.pc.PutCdom? || r.pc.CreateCdom? || r.pc.ReadCdom? ==> Step(cfg, w, r, f) == StepStore(cfg, w, r, f)
    ensures Exports(r.pc) ==> Step(cfg, w, r, f) == StepExport(cfg, w, r, f)
    ensures Completes(r.pc) ==> Step(cfg, w, r, f) == StepEnd(cfg, w, r, f)
  {
    hide StepLoad, StepCheckpoint, StepExtract, StepStore, StepExport, StepEnd;
  }

  // ---------- crashes ----------

  /** The worker makes a storage call, or dies and the message is delivered anew. */
  datatype Act = Go | Crash

  function Play(cfg: Config, w: World, id: Id, acts: seq<Act>): (World, Run)
    decreases |acts|
  {
    if acts == [] then (w, Start(id))
    else
      var (w', r') := Play(cfg, w, id, acts[..|acts| - 1]);
      if acts[|acts| - 1] == Crash then (w', Start(id)) else Step(cfg, w', r', Fine)
  }

  const NO_FAULTS: nat -> Fault := (n: nat) => Fine

  function Finish(cfg: Config, w: World, r: Run): (World, Run) { Drive(cfg, w, r, NO_FAULTS, 0) }

  lemma {:induction false} PlayPipe(cfg: Config, w0: World, t: Task, c0: bool, m0: nat, acts: seq<Act>)
    returns (c: bool, m: nat)
    requires Delivered(cfg, w0, t, c0, m0)
    ensures var (w, r) := Play(cfg, w0, t.job.id, acts); Pipe(cfg, w0, w, t, r, c, m)
    decreases |acts|
  {
    hide Pipe, Delivered, Step;
    if acts == [] {
      c, m := c0, m0;
      StartPipe(cfg, w0, t, c, m);
    } else {
      c, m := PlayPipe(cfg, w0, t, c0, m0, acts[..|acts| - 1]);
      var (w', r') := Play(cfg, w0, t.job.id, acts[..|acts| - 1]);
      CrashPipe(cfg, w0, w', t, r', c, m);
      if acts[|acts| - 1] == Go {
        c, m := StepPipe(cfg, w0, w', t, r', c, m);
      }
    }
  }

  lemma StartPipe(cfg: Config, w0: World, t: Task, c: bool, m: nat)
    requires Delivered(cfg, w0, t, c, m)
    ensures Pipe(cfg, w0, w0, t, Start(t.job.id), c, m)
  {
    hide Selected, RowsOk, RowsThere, RowsUnique, JobAt;
  }

  /** A crash loses the worker's copies and nothing else. */
  lemma CrashPipe(cfg: Config, w0: World, w: World, t: Task, r: Run, c: bool, m: nat)
    requires Pipe(cfg, w0, w, t, r, c, m)
    ensures Pipe(cfg, w0, w, t, Start(t.job.id), c, m)
  {
    hide Others, Selected, RowsOk, RowsThere, RowsUnique, JobAt;
  }

  /** What an upload leaves is delivered with nothing stored. */
  lemma UploadDelivers(cfg: Config, w: World, t: Task)
    requires TaskOk(cfg, t) && t.job.id in w.jobs && w.jobs[t.job.id] == t.job && t.job.status == Queued
    requires t.doc.id in w.docs && w.docs[t.doc.id] == t.doc
    requires t.doc.source in w.objects && w.objects[t.doc.source] == t.pdf
    requires forall a :: a in w.arts ==> a < w.nextId && w.arts[a].doc != t.doc.id
    ensures Delivered(cfg, w, t, false, 0)
  {}

  /** What a retry leaves is delivered with everything that was stored before. */
  lemma RetryDelivers(cfg: Config, w: World, t: Task, c: bool, m: nat, p: ServiceSteps.Proc)
    requires p.Retry? && p.rpc == ServiceSteps.RCreateJob && p.rjob.doc == t.doc.id && TaskOk(cfg, t)
    requires t.doc.id in w.docs && SameDoc(w.docs[t.doc.id], t)
    requires t.doc.source in w.objects && w.objects[t.doc.source] == t.pdf && m <= |Sel(cfg, t)| && (m > 0 ==> c)
    requires RowsOk(cfg, w, t, c, m) && RowsUnique(w, t.doc.id) && RowsThere(cfg, w, t, c, m) && IdsBelow(w)
    ensures
      var (w', p') := ServiceSteps.StepRetry(cfg, w, p, Fine);
      p'.Retry? && Delivered(cfg, w', t.(job := p'.rjob), c, m)
  {
    var (w', p') := ServiceSteps.StepRetry(cfg, w, p, Fine);
    var u := t.(job := p'.rjob);
    hide Selected;
    forall a | a in w'.arts && w'.arts[a].doc == u.doc.id
      ensures RowOk(cfg, w', u, c, m, w'.arts[a])
    {
      assert RowOk(cfg, w, t, c, m, w.arts[a]);
    }
    SameArtsSameRows(w, w');
  }

  lemma {:induction false} DrivePipe(cfg: Config, w0: World, w: World, t: Task, r: Run, c: bool, m: nat, n: nat)
    returns (c': bool, m': nat)
    requires Pipe(cfg, w0, w, t, r, c, m)
    ensures var (w', r') := Drive(cfg, w, r, NO_FAULTS, n); r'.pc.Done? && Pipe(cfg, w0, w', t, r', c', m')
    decreases Phase(r.pc), Remaining(cfg, r)
  {
    hide Pipe, Step;
    c', m' := c, m;
    if !r.pc.Done? {
      StepDescends(cfg, w, r, Fine);
      c', m' := StepPipe(cfg, w0, w, t, r, c, m);
      var (w', r') := Step(cfg, w, r, Fine);
      c', m' := DrivePipe(cfg, w0, w', t, r', c', m', n + 1);
    }
  }

  // ---------- the result ----------

  /** A row as its reader sees it: what it is, where it is and what is stored there. */
  datatype Item = Item(kind: Kind, format: Format, key: Key, size: nat, content: Bytes)

  function ItemOf(w: World, a: Artifact): Item {
    Item(a.kind, a.format, a.key, a.size, if a.key in w.objects then w.objects[a.key] else [])
  }

  ghost function View(w: World, doc: Id): set<Item> {
    set a | a in w.arts && w.arts[a].doc == doc :: ItemOf(w, w.arts[a])
  }

  /** What the configuration determines for the delivered job. */
  ghost function Expected(cfg: Config, t: Task): set<Item> {
    {Item(CdomKind, Json, CdomFile(t.doc.id), |Body(cfg, t)|, Body(cfg, t))}
    + (set f | f in Sel(cfg, t) :: Item(ExportKind, f, Output(t.doc.id, f), |Rendered(cfg, t, f)|, Rendered(cfg, t, f)))
  }

  lemma ShelfView(cfg: Config, w: World, t: Task)
    requires Shelf(cfg, w, t, true, |Sel(cfg, t)|)
    ensures View(w, t.doc.id) == Expected(cfg, t)
  {
    hide Selected, Body, Rendered;
    var sel := Sel(cfg, t);
    assert sel[..|sel|] == sel;
    forall i | i in View(w, t.doc.id)
      ensures i in Expected(cfg, t)
    {
      var a :| a in w.arts && w.arts[a].doc == t.doc.id && i == ItemOf(w, w.arts[a]);
      assert RowOk(cfg, w, t, true, |sel|, w.arts[a]);
    }
    forall i | i in Expected(cfg, t)
      ensures i in View(w, t.doc.id)
    {
      assert HasRow(w, t.doc.id, i.kind, i.format);
      var a :| a in w.arts && Matches(w.arts[a], t.doc.id, i.kind, i.format);
      assert RowOk(cfg, w, t, true, |sel|, w.arts[a]);
      assert i == ItemOf(w, w.arts[a]);
    }
  }

  /** The stores once the job is done. */
  ghost predicate Delivery(cfg: Config, w0: World, w: World, t: Task) {
    && Others(w0, w, t)
    && View(w, t.doc.id) == Expected(cfg, t) && RowsUnique(w, t.doc.id)
    && t.job.id in w.jobs && w.jobs[t.job.id].status == Completed
    && w.jobs[t.job.id].attempts == t.job.attempts + 1
  }

  lemma PipeDelivers(cfg: Config, w0: World, w: World, t: Task, r: Run, c: bool, m: nat)
    requires Pipe(cfg, w0, w, t, r, c, m) && r.pc.Done?
    ensures Delivery(cfg, w0, w, t) && r.pc == Done(false)
  {
    ShelfFacts(cfg, w, t, c, m);
    ShelfView(cfg, w, t);
  }

  /** Kill and redeliver the Run at any storage calls, as often as you like, whatever earlier
      Runs of the document have stored: once a Run is left to end, it ends acknowledged and
      completed, one attempt counted, one row per kind and format, nothing else in the stores
      touched, and the document's rows and objects are those one undisturbed Run leaves. */
  lemma CrashesLeaveNoTrace(cfg: Config, w0: World, t: Task, c0: bool, m0: nat, acts: seq<Act>)
    requires Delivered(cfg, w0, t, c0, m0)
    ensures
      var (w, r) := Play(cfg, w0, t.job.id, acts);
      var (w1, r1) := Finish(cfg, w, r);
      var (w2, r2) := Finish(cfg, w0, Start(t.job.id));
      && r1.pc == Done(false) && Delivery(cfg, w0, w1, t)
      && r2.pc == Done(false) && Delivery(cfg, w0, w2, t)
      && View(w1, t.doc.id) == View(w2, t.doc.id)
  {
    hide Pipe, Delivery, Delivered;
    var (w, r) := Play(cfg, w0, t.job.id, acts);
    var c, m := PlayPipe(cfg, w0, t, c0, m0, acts);
    c, m := DrivePipe(cfg, w0, w, t, r, c, m, 0);
    PipeDelivers(cfg, w0, Finish(cfg, w, r).0, t, Finish(cfg, w, r).1, c, m);
    c, m := PlayPipe(cfg, w0, t, c0, m0, []);
    c, m := DrivePipe(cfg, w0, w0, t, Start(t.job.id), c, m, 0);
    PipeDelivers(cfg, w0, Finish(cfg, w0, Start(t.job.id)).0, t, Finish(cfg, w0, Start(t.job.id)).1, c, m);
    SameViews(cfg, w0, Finish(cfg, w, r).0, Finish(cfg, w0, Start(t.job.id)).0, t);
  }

  lemma SameViews(cfg: Config, w0: World, w1: World, w2: World, t: Task)
    requires Delivery(cfg, w0, w1, t) && Delivery(cfg, w0, w2, t)
    ensures View(w1, t.doc.id) == View(w2, t.doc.id)
  {}
}
