/** Jobs, documents, artifacts and the stores that keep them. */
module Domain {

  type Id = nat
  type Bytes = seq<char>

  datatype Option<+T> = None | Some(value: T)

  datatype JobStatus = Queued | Processing | Completed | Failed | Cancelled

  datatype DocStatus = DocQueued | DocProcessing | DocCompleted | DocFailed | DocCancelled

  /** The job lifecycle: which status may follow which. */
  predicate CanTransition(from: JobStatus, to: JobStatus) {
    match from
    case Queued => to == Processing || to == Cancelled || to == Failed
    case Processing => to == Completed || to == Failed || to == Cancelled
    case _ => false
  }

  datatype Stage =
    | AtQueued | AtDetect | AtExtract | AtOcr | AtLayout | AtPostprocess | AtNormalize | AtExport
    | AtCompleted | AtFailed | AtCancelled

  datatype Code =
    | NoError | InvalidPdf | StorageError | OcrError | LayoutFailed | NormalizationFailed | ExportFailed
    | JobCancelled | InternalError

  /** A job row. `born` and `origin` are history: the attempts the row was created
      with and the job it retries. No operation reads them. */
  datatype Job = Job(
    id: Id, doc: Id, status: JobStatus, stage: Stage, progress: int, error: Code, attempts: nat,
    born: nat, origin: Option<Id>)

  /** The three export formats of this repository. */
  datatype Format = Json | Markdown | Docx

  function FormatName(f: Format): string {
    match f
    case Json => "json"
    case Markdown => "markdown"
    case Docx => "docx"
  }

  datatype Kind = CdomKind | ExportKind

  /** Object keys: documents/ID/original.pdf, documents/ID/cdom.json and
      documents/ID/exports/output.EXT, whose extension determines the format. */
  datatype Key = Original(doc: Id) | CdomFile(doc: Id) | Output(doc: Id, format: Format)

  datatype Document = Document(
    id: Id, source: Key, status: DocStatus, formats: seq<string>, pages: nat, created: int)

  datatype Artifact = Artifact(
    id: Id, doc: Id, job: Id, kind: Kind, format: Format, key: Key, size: nat)

  /** The durable stores. `nextId` stands for the source of fresh identifiers. */
  datatype World = World(
    docs: map<Id, Document>, jobs: map<Id, Job>, arts: map<Id, Artifact>, objects: map<Key, Bytes>,
    nextId: Id)

  /** How a storage call, or the computation next to it, turns out. */
  datatype Fault = Fine | StoreDown | Reject

  function UpdateJob(w: World, j: Job, f: Fault): (w': World) {
    if f == StoreDown || j.id !in w.jobs then w else w.(jobs := w.jobs[j.id := j])
  }

  function UpdateDoc(w: World, d: Document, f: Fault): (w': World) {
    if f == StoreDown || d.id !in w.docs then w else w.(docs := w.docs[d.id := d])
  }

  function CreateArtifact(w: World, doc: Id, job: Id, kind: Kind, format: Format, key: Key, size: nat): (w': World) {
    w.(arts := w.arts[w.nextId := Artifact(w.nextId, doc, job, kind, format, key, size)],
       nextId := w.nextId + 1)
  }

  predicate Matches(a: Artifact, doc: Id, kind: Kind, format: Format) {
    a.doc == doc && a.kind == kind && a.format == format
  }

  /** findArtifact: does the document have a row of this kind and format? */
  predicate HasRow(w: World, doc: Id, kind: Kind, format: Format) {
    exists a :: a in w.arts && Matches(w.arts[a], doc, kind, format)
  }

  /** No store ever loses a row or an object, and what a row is about never changes. */
  ghost predicate Grows(w: World, w': World) {
    && (forall d :: d in w.docs ==> d in w'.docs && w'.docs[d].id == w.docs[d].id
                                    && w'.docs[d].formats == w.docs[d].formats)
    && (forall j :: j in w.jobs ==> j in w'.jobs && SameJob(w.jobs[j], w'.jobs[j]))
    && (forall a :: a in w.arts ==> a in w'.arts && Matches(w'.arts[a], w.arts[a].doc, w.arts[a].kind, w.arts[a].format)
                                    && w'.arts[a].key == w.arts[a].key && w'.arts[a].id == w.arts[a].id)
    && (forall k :: k in w.objects ==> k in w'.objects)
    && w.nextId <= w'.nextId
  }

  predicate SameJob(j: Job, j': Job) {
    j.id == j'.id && j.doc == j'.doc && j.born == j'.born && j.origin == j'.origin
  }

  lemma RowsPersist(w: World, w': World, doc: Id, kind: Kind, format: Format)
    requires Grows(w, w') && HasRow(w, doc, kind, format)
    ensures HasRow(w', doc, kind, format)
  {
    var a :| a in w.arts && Matches(w.arts[a], doc, kind, format);
    assert a in w'.arts;
  }

  /** The document an object key belongs to. */
  function KeyDoc(k: Key): Id {
    match k
    case Original(d) => d
    case CdomFile(d) => d
    case Output(d, _) => d
  }

  /** Every key that a row names belongs to the document of the row. */
  ghost predicate OwnKeys(w: World) {
    && (forall a :: a in w.arts ==> KeyDoc(w.arts[a].key) == w.arts[a].doc)
    && (forall d :: d in w.docs ==> w.docs[d].id == d && KeyDoc(w.docs[d].source) == d)
  }
}
