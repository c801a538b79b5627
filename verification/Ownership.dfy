/** In every reachable state a document's rows name only its own objects, which is what
    makes a deletion leave other documents alone. */
module Ownership {
  import opened Domain
  import opened EngineSteps
  import opened ServiceSteps
  import opened Orchestration
  import Deletion

  predicate DocOwned(d: Document) { KeyDoc(d.source) == d.id }

  predicate ArtOwned(a: Artifact) { KeyDoc(a.key) == a.doc }

  /** The copies that a process will write back name objects of their own document. */
  predicate ProcOwned(p: Proc) {
    match p
    case Upload(pc, d, _, _) => pc == UCreateDoc ==> DocOwned(d)
    case Cancel(_, pc, _, d) => pc == CUpdateDoc ==> DocOwned(d)
    case Retry(_, pc, _, d) => pc == RCreateJob || pc == RUpdateDoc ==> DocOwned(d)
    case Save(_, pc, a, _) => pc == SPut || pc == SUpdate ==> ArtOwned(a)
    case Regenerate(_, pc, a, _) => pc == SPut || pc == SUpdate ==> ArtOwned(a)
    case Worker(r) => DocOwned(r.doc)
  }

  lemma ArtFiled(w: World, id: Id, a: Artifact)
    requires OwnKeys(w) && ArtOwned(a)
    ensures OwnKeys(w.(arts := w.arts[id := a]))
  {}

  lemma DocFiled(w: World, d: Document, f: Fault)
    requires OwnKeys(w) && DocOwned(d)
    ensures OwnKeys(UpdateDoc(w, d, f)) && OwnKeys(w.(docs := w.docs[d.id := d]))
  {}

  lemma OverwriteOwned(w: World, doc: Id, pc: SavePc, a: Artifact, body: Bytes, f: Fault, pick: Id)
    requires OwnKeys(w) && (pc == SPut || pc == SUpdate ==> ArtOwned(a))
    ensures
      var (w', pc', a') := StepOverwrite(w, doc, pc, a, body, f, pick);
      OwnKeys(w') && (pc' == SPut || pc' == SUpdate ==> ArtOwned(a'))
  {
    if pc == SUpdate {
      ArtFiled(w, a.id, a);
    }
  }

  lemma LoadOwned(cfg: Config, w: World, r: Run, f: Fault)
    requires OwnKeys(w) && DocOwned(r.doc)
    ensures var (w', r') := StepLoad(cfg, w, r, f); OwnKeys(w') && DocOwned(r'.doc)
  {
    hide OwnKeys;
    DocFiled(w, r.doc, f);
    SameRows(w, UpdateJob(w, r.job, f));
    if r.job.doc in w.docs {
      DocRead(w, r.job.doc);
    }
  }

  lemma DocRead(w: World, d: Id)
    requires OwnKeys(w) && d in w.docs
    ensures DocOwned(w.docs[d])
  {}

  lemma SameRows(w: World, v: World)
    requires OwnKeys(w)
    ensures v.docs == w.docs && v.arts == w.arts ==> OwnKeys(v)
  {}

  lemma CheckpointOwned(cfg: Config, w: World, r: Run, f: Fault)
    requires OwnKeys(w) && DocOwned(r.doc)
    ensures var (w', r') := StepCheckpoint(cfg, w, r, f); OwnKeys(w') && DocOwned(r'.doc)
  {
    hide OwnKeys, Selected;
    SameRows(w, StepCheckpoint(cfg, w, r, f).0);
  }

  lemma EndOwned(cfg: Config, w: World, r: Run, f: Fault)
    requires OwnKeys(w) && DocOwned(r.doc)
    ensures var (w', r') := StepEnd(cfg, w, r, f); OwnKeys(w') && DocOwned(r'.doc)
  {
    hide OwnKeys;
    DocFiled(w, r.doc, f);
    SameRows(w, UpdateJob(w, r.job, f));
  }

  lemma RunOwned(cfg: Config, w: World, r: Run, f: Fault)
    requires OwnKeys(w) && DocOwned(r.doc)
    ensures var (w', r') := Step(cfg, w, r, f); OwnKeys(w') && DocOwned(r'.doc)
  {
    hide OwnKeys, DocOwned, StepLoad, StepCheckpoint, StepExtract, StepStore, StepExport, StepEnd;
    LoadOwned(cfg, w, r, f);
    CheckpointOwned(cfg, w, r, f);
    ExtractOwned(cfg, w, r, f);
    StoreOwned(cfg, w, r, f);
    ExportOwned(cfg, w, r, f);
    EndOwned(cfg, w, r, f);
  }

  lemma ExtractOwned(cfg: Config, w: World, r: Run, f: Fault)
    requires OwnKeys(w) && DocOwned(r.doc)
    ensures var (w', r') := StepExtract(cfg, w, r, f); OwnKeys(w') && DocOwned(r'.doc)
  {
    hide OwnKeys;
    DocFiled(w, r.doc, f);
    SameRows(w, StepExtract(cfg, w, r, f).0);
  }

  lemma Created(w: World, doc: Id, job: Id, kind: Kind, format: Format, key: Key, size: nat)
    requires OwnKeys(w) && KeyDoc(key) == doc
    ensures OwnKeys(CreateArtifact(w, doc, job, kind, format, key, size))
  {}

  lemma StoreOwned(cfg: Config, w: World, r: Run, f: Fault)
    requires OwnKeys(w) && DocOwned(r.doc)
    ensures var (w', r') := StepStore(cfg, w, r, f); OwnKeys(w') && DocOwned(r'.doc)
  {
    hide OwnKeys, Selected, CreateArtifact;
    SameRows(w, StepStore(cfg, w, r, f).0);
    Created(w, r.doc.id, r.job.id, CdomKind, Json, CdomFile(r.doc.id), |cfg.cdom(r.doc.id, r.pdf)|);
  }

  lemma ExportOwned(cfg: Config, w: World, r: Run, f: Fault)
    requires OwnKeys(w) && DocOwned(r.doc)
    ensures var (w', r') := StepExport(cfg, w, r, f); OwnKeys(w') && DocOwned(r'.doc)
  {
    hide OwnKeys, Selected, CreateArtifact, HasRow;
    SameRows(w, StepExport(cfg, w, r, f).0);
    if r.pc.CreateExport? && r.pc.i < |Selected(cfg, r.doc.formats)| {
      var format := Selected(cfg, r.doc.formats)[r.pc.i];
      Created(w, r.doc.id, r.job.id, ExportKind, format, Output(r.doc.id, format), |cfg.render(format, r.body)|);
    }
  }

  lemma UploadOwned(w: World, p: Proc, f: Fault)
    requires OwnKeys(w) && ProcOwned(p) && p.Upload?
    ensures var (w', p') := StepUpload(w, p, f); OwnKeys(w') && ProcOwned(p')
  {
    hide OwnKeys;
    SameRows(w, StepUpload(w, p, f).0);
    if p.pc == UCreateDoc {
      DocFiled(w, p.udoc, f);
    }
  }

  lemma CancelOwned(w: World, p: Proc, f: Fault)
    requires OwnKeys(w) && ProcOwned(p) && p.Cancel?
    ensures var (w', p') := StepCancel(w, p, f); OwnKeys(w') && ProcOwned(p')
  {
    hide OwnKeys, CanTransition;
    SameRows(w, StepCancel(w, p, f).0);
    if p.cpc == CUpdateDoc {
      DocFiled(w, p.cdoc, f);
    } else if p.cpc == CGetDoc && p.cjob.doc in w.docs {
      DocRead(w, p.cjob.doc);
    }
  }

  lemma RetryOwned(cfg: Config, w: World, p: Proc, f: Fault)
    requires OwnKeys(w) && ProcOwned(p) && p.Retry?
    ensures var (w', p') := StepRetry(cfg, w, p, f); OwnKeys(w') && ProcOwned(p')
  {
    hide OwnKeys;
    SameRows(w, StepRetry(cfg, w, p, f).0);
    if p.rpc == RUpdateDoc {
      DocFiled(w, p.rdoc, f);
    } else if p.rpc == RGetDoc && p.rjob.doc in w.docs {
      DocRead(w, p.rjob.doc);
    }
  }

  lemma ProcOwns(cfg: Config, w: World, p: Proc, f: Fault, pick: Id)
    requires OwnKeys(w) && ProcOwned(p)
    ensures var (w', p') := StepProc(cfg, w, p, f, pick); OwnKeys(w') && ProcOwned(p')
  {
    hide OwnKeys, Step, StepOverwrite, HasRow, StepUpload, StepCancel, StepRetry, DocOwned, ArtOwned;
    match p
    case Save(doc, pc, a, body) => OverwriteOwned(w, doc, pc, a, body, f, pick);
    case Regenerate(doc, pc, a, body) => OverwriteOwned(w, doc, pc, a, body, f, pick);
    case Worker(r) => RunOwned(cfg, w, r, f);
    case Upload(_, _, _, _) => UploadOwned(w, p, f);
    case Cancel(_, _, _, _) => CancelOwned(w, p, f);
    case Retry(_, _, _, _) => RetryOwned(cfg, w, p, f);
  }

  lemma {:induction false} KeysOwned(cfg: Config, events: seq<Event>)
    ensures OwnKeys(Play(cfg, EMPTY, events).world)
    ensures forall n :: n in Play(cfg, EMPTY, events).procs ==> ProcOwned(Play(cfg, EMPTY, events).procs[n])
    decreases |events|
  {
    hide StepProc, ProcOwned;
    if events != [] {
      KeysOwned(cfg, events[..|events| - 1]);
      var s, e := Play(cfg, EMPTY, events[..|events| - 1]), events[|events| - 1];
      if e.Spawn? && Fresh(e.proc) {
        FreshOwned(e.proc);
      } else if e.Advance? && e.slot in s.procs {
        ProcOwns(cfg, s.world, s.procs[e.slot], e.fault, e.pick);
      }
    }
  }

  lemma FreshOwned(p: Proc)
    requires Fresh(p)
    ensures ProcOwned(p)
  {}

  /** After any run of the system, deleting documents, however far it gets, leaves every row
      of every other document as it was, and with it the object the row names. */
  lemma DeletionIsLocal(cfg: Config, events: seq<Event>, v: World, gone: set<Id>)
    requires Deletion.Partly(Play(cfg, EMPTY, events).world, v, gone)
    ensures
      var w := Play(cfg, EMPTY, events).world;
      && (forall d :: d in w.docs && d !in gone ==> d in v.docs && v.docs[d] == w.docs[d])
      && (forall k :: k in w.objects && KeyDoc(k) !in gone ==> k in v.objects && v.objects[k] == w.objects[k])
      && (forall a :: a in w.arts && w.arts[a].doc !in gone ==>
            a in v.arts && v.arts[a] == w.arts[a] && (w.arts[a].key in w.objects ==> w.arts[a].key in v.objects))
  {
    hide Play, Deletion.Partly;
    KeysOwned(cfg, events);
    Deletion.PartlyIsLocal(Play(cfg, EMPTY, events).world, v, gone);
  }
}
