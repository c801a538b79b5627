/** Deletions among Runs and use cases, call by call: what a failed deletion leaves once the
    document's own row is gone is never taken out again. */
module Leftovers {
  import opened Domain
  import opened EngineSteps
  import opened ServiceSteps
  import opened Orchestration
  import opened Ownership
  import opened Backend
  import opened Calls
  import opened Deletion

  // ---------- the system with deletions ----------

  /** A deletion holds the row it was started with; `todo` is known once the artifacts of the
      document are listed. A sweep is one deletion for each document that it lists. */
  datatype Deleting = Deleting(doc: Document, todo: Option<seq<Op>>)

  datatype Site = Site(sys: System, deletions: map<nat, Deleting>)

  datatype Act =
    | Work(event: Event)
    | Open(slot: nat, id: Id)
    | List(slot: nat, arts: seq<Artifact>, fault: Fault)
    | Remove(slot: nat, fault: Fault)
    | Stop(slot: nat)

  const NOTHING := Site(EMPTY, map[])

  ghost function StepSite(cfg: Config, s: Site, a: Act): Site {
    match a
    case Work(e) => s.(sys := Next(cfg, s.sys, e))
    case Open(n, d) =>
      if d !in s.sys.world.docs then s
      else s.(deletions := s.deletions[n := Deleting(s.sys.world.docs[d], None)])
    case List(n, arts, f) =>
      if n !in s.deletions || s.deletions[n].todo.Some? then s
      else if f != Fine then s.(deletions := s.deletions - {n})
      else
        var doc := s.deletions[n].doc;
        if !Listed(arts, s.sys.world.arts, doc.id) then s
        else s.(deletions := s.deletions[n := Deleting(doc, Some(ObjectOps(arts) + LastOps(doc)))])
    case Remove(n, f) =>
      if n !in s.deletions || s.deletions[n].todo == None || s.deletions[n].todo.value == [] then s
      else
        var ops := s.deletions[n].todo.value;
        Site(s.sys.(world := After(s.sys.world, [Call(ops[0], f)])),
             s.deletions[n := s.deletions[n].(todo := Some(ops[1..]))])
    case Stop(n) => s.(deletions := s.deletions - {n})
  }

  ghost function PlaySite(cfg: Config, s: Site, acts: seq<Act>): Site
    decreases |acts|
  {
    if acts == [] then s else StepSite(cfg, PlaySite(cfg, s, acts[..|acts| - 1]), acts[|acts| - 1])
  }

  /** Left to itself a deletion does what the log of its calls says. */
  lemma {:induction false} DeletionAlone(cfg: Config, s: Site, n: nat, calls: seq<Call>)
    requires n in s.deletions && s.deletions[n].todo.Some? && Carried(calls, s.deletions[n].todo.value)
    ensures
      var t := PlaySite(cfg, s, Removes(n, calls));
      t.sys == s.sys.(world := After(s.sys.world, calls))
          && t.deletions == s.deletions[n := s.deletions[n].(todo := Some([]))]
    decreases |calls|
  {
    hide After, StepSite, PlaySite;
    Undone(cfg, s);
    if calls == [] {
      assert s.deletions[n].todo == Some([]);
      assert s.deletions[n := s.deletions[n]] == s.deletions;
    } else {
      var c, rest := calls[0], calls[1..];
      OneRemoved(cfg, s, n, c);
      var t := StepSite(cfg, s, Remove(n, c.fault));
      assert calls == [c] + rest;
      DeletionAlone(cfg, t, n, rest);
      AfterJoins(s.sys.world, [c], rest);
      PlayFirst(cfg, s, Remove(n, c.fault), Removes(n, rest));
      RemovesFirst(n, c, rest);
      Overwritten(s.deletions, n, t.deletions[n], s.deletions[n].(todo := Some([])));
      hide Carried, Removes;
    }
  }

  lemma RemovesFirst(n: nat, c: Call, rest: seq<Call>)
    ensures Removes(n, [c] + rest) == [Remove(n, c.fault)] + Removes(n, rest)
  {}

  lemma Overwritten(m: map<nat, Deleting>, n: nat, x: Deleting, y: Deleting)
    ensures m[n := x][n := y] == m[n := y]
  {}

  lemma OneRemoved(cfg: Config, s: Site, n: nat, c: Call)
    requires n in s.deletions && s.deletions[n].todo.Some? && s.deletions[n].todo.value != []
    requires c.op == s.deletions[n].todo.value[0]
    ensures
      var del := s.deletions[n];
      StepSite(cfg, s, Remove(n, c.fault))
        == Site(s.sys.(world := After(s.sys.world, [c])), s.deletions[n := del.(todo := Some(del.todo.value[1..]))])
  {
    hide After;
  }

  function Removes(n: nat, calls: seq<Call>): (acts: seq<Act>)
    ensures |acts| == |calls| && forall i :: 0 <= i < |acts| ==> acts[i] == Remove(n, calls[i].fault)
  {
    seq(|calls|, i requires 0 <= i < |calls| => Remove(n, calls[i].fault))
  }

  lemma Undone(cfg: Config, s: Site)
    ensures After(s.sys.world, []) == s.sys.world && PlaySite(cfg, s, []) == s
  {}

  lemma {:induction false} PlayFirst(cfg: Config, s: Site, a: Act, acts: seq<Act>)
    ensures PlaySite(cfg, s, [a] + acts) == PlaySite(cfg, StepSite(cfg, s, a), acts)
    decreases |acts|
  {
    hide StepSite;
    if acts == [] {
      assert [a] + acts == [a] && [a][..0] == [];
      assert PlaySite(cfg, s, []) == s;
    } else {
      PlayFirst(cfg, s, a, acts[..|acts| - 1]);
      assert ([a] + acts)[..|acts|] == [a] + acts[..|acts| - 1];
    }
  }

  // ---------- whose a row is ----------

  /** The document of every job and artifact that there ever was. */
  datatype Home = Home(jobs: map<Id, Id>, arts: map<Id, Id>)

  predicate JobFits(h: Home, j: Job) { j.id in h.jobs && h.jobs[j.id] == j.doc }

  predicate ArtFits(h: Home, a: Artifact) { a.id in h.arts && h.arts[a.id] == a.doc }

  ghost predicate WorldFits(h: Home, w: World) {
    && (forall j :: j in w.jobs ==> w.jobs[j].id == j && JobFits(h, w.jobs[j]))
    && (forall a :: a in w.arts ==> w.arts[a].id == a && ArtFits(h, w.arts[a]))
    && (forall j :: j in h.jobs ==> j < w.nextId) && (forall a :: a in h.arts ==> a < w.nextId)
  }

  /** The copies that a process may write are of the document of their row. */
  predicate ProcFits(h: Home, p: Proc) {
    match p
    case Upload(pc, _, j, _) => pc != UPut && pc != UDone ==> JobFits(h, j)
    case Cancel(_, pc, j, _) => pc == CUpdateJob ==> JobFits(h, j)
    case Retry(_, pc, j, _) => pc == RUpdateDoc || pc == RPublish || pc == RUnpublished ==> JobFits(h, j)
    case Save(_, pc, a, _) => pc == SPut || pc == SUpdate ==> ArtFits(h, a)
    case Regenerate(_, pc, a, _) => pc == SPut || pc == SUpdate ==> ArtFits(h, a)
    case Worker(r) => r.pc.Begin? || r.pc.Done? || JobFits(h, r.job)
  }

  ghost predicate Extends(h: Home, h': Home) { Part(h.jobs, h'.jobs) && Part(h.arts, h'.arts) }

  /** The document that a deletion's call is about. */
  function Concern(op: Op): Option<Id> {
    match op
    case ObjectGone(k) => Some(KeyDoc(k))
    case RowsGone(d) => Some(d)
    case JobsGone(d) => Some(d)
    case DocGone(d) => Some(d)
    case _ => None
  }

  ghost predicate DeletionFits(del: Deleting) {
    && DocOwned(del.doc)
    && (del.todo.Some? ==> forall i :: 0 <= i < |del.todo.value| ==> Concern(del.todo.value[i]) == Some(del.doc.id))
  }

  /** What holds of every reachable state. */
  ghost predicate Fits(h: Home, s: Site) {
    && OwnKeys(s.sys.world) && WorldFits(h, s.sys.world)
    && (forall n :: n in s.sys.procs ==> ProcOwned(s.sys.procs[n]) && ProcFits(h, s.sys.procs[n]))
    && (forall n :: n in s.deletions ==> DeletionFits(s.deletions[n]))
  }

  lemma ProcFitsMore(h: Home, h': Home, p: Proc)
    requires ProcFits(h, p) && Extends(h, h')
    ensures ProcFits(h', p)
  {}

  // ---------- what a step of a process does ----------

  /** No step takes a row or an object away, and a document appears only at the end of its
      own upload. */
  ghost predicate Adds(w: World, w': World, p: Proc) {
    && (forall d :: d in w'.docs ==> d in w.docs || (p.Upload? && p.pc == UCreateDoc && p.udoc.id == d))
    && (forall j :: j in w.jobs ==> j in w'.jobs) && (forall a :: a in w.arts ==> a in w'.arts)
    && (forall k :: k in w.objects ==> k in w'.objects) && w.nextId <= w'.nextId
  }

  ghost predicate StepFits(h: Home, h': Home, w: World, w': World, p: Proc, p': Proc) {
    Extends(h, h') && WorldFits(h', w') && ProcFits(h', p') && Adds(w, w', p)
  }

  lemma SameFits(h: Home, w: World, p: Proc, p': Proc)
    requires WorldFits(h, w) && ProcFits(h, p')
    ensures StepFits(h, h, w, w, p, p')
  {}

  lemma JobWriteFits(h: Home, w: World, j: Job, f: Fault, p: Proc, p': Proc)
    requires WorldFits(h, w) && JobFits(h, j) && ProcFits(h, p')
    ensures StepFits(h, h, w, UpdateJob(w, j, f), p, p')
  {}

  lemma DocWriteFits(h: Home, w: World, d: Document, f: Fault, p: Proc, p': Proc)
    requires WorldFits(h, w) && ProcFits(h, p')
    ensures StepFits(h, h, w, UpdateDoc(w, d, f), p, p')
  {}

  lemma UploadPuts(h: Home, w: World, p: Proc, f: Fault) returns (h': Home)
    requires p.Upload? && p.pc == UPut && WorldFits(h, w)
    ensures var (w', p') := StepUpload(w, p, f); StepFits(h, h', w, w', p, p')
  {
    h' := if f == Fine then h.(jobs := h.jobs[w.nextId + 1 := w.nextId]) else h;
  }

  lemma UploadCreatesRows(h: Home, w: World, p: Proc, f: Fault)
    requires p.Upload? && (p.pc == UCreateDoc || p.pc == UCreateJob) && WorldFits(h, w) && ProcFits(h, p)
    ensures var (w', p') := StepUpload(w, p, f); StepFits(h, h, w, w', p, p')
  {}

  lemma UploadFits(h: Home, w: World, p: Proc, f: Fault) returns (h': Home)
    requires p.Upload? && WorldFits(h, w) && ProcFits(h, p)
    ensures var (w', p') := StepUpload(w, p, f); StepFits(h, h', w, w', p, p')
  {
    h' := h;
    match p.pc
    case UPut => h' := UploadPuts(h, w, p, f);
    case UCreateDoc => UploadCreatesRows(h, w, p, f);
    case UCreateJob => UploadCreatesRows(h, w, p, f);
    case UUnpublished => JobWriteFits(h, w, p.ujob, f, p, p.(pc := UDone)); hide StepFits, WorldFits;
    case _ => SameFits(h, w, p, StepUpload(w, p, f).1); hide StepFits, WorldFits;
  }

  lemma CancelFits(h: Home, w: World, p: Proc, f: Fault)
    requires p.Cancel? && WorldFits(h, w) && ProcFits(h, p)
    ensures var (w', p') := StepCancel(w, p, f); StepFits(h, h, w, w', p, p')
  {
    hide CanTransition;
    var p' := StepCancel(w, p, f).1;
    SameFits(h, w, p, p');
    if p.cpc == CUpdateJob {
      JobWriteFits(h, w, p.cjob, f, p, p');
    } else if p.cpc == CUpdateDoc {
      DocWriteFits(h, w, p.cdoc, f, p, p');
    }
    hide StepFits, WorldFits, UpdateJob, UpdateDoc;
  }

  lemma RetryMakes(cfg: Config, h: Home, w: World, p: Proc, f: Fault) returns (h': Home)
    requires p.Retry? && p.rpc == RCreateJob && WorldFits(h, w)
    ensures var (w', p') := StepRetry(cfg, w, p, f); p'.Retry? && StepFits(h, h', w, w', p, p')
  {
    h' := if f == Fine then h.(jobs := h.jobs[w.nextId := p.rjob.doc]) else h;
  }

  lemma RetryFits(cfg: Config, h: Home, w: World, p: Proc, f: Fault) returns (h': Home)
    requires p.Retry? && WorldFits(h, w) && ProcFits(h, p)
    ensures var (w', p') := StepRetry(cfg, w, p, f); StepFits(h, h', w, w', p, p')
  {
    if p.rpc == RCreateJob {
      h' := RetryMakes(cfg, h, w, p, f);
    } else {
      h' := h;
      var p' := StepRetry(cfg, w, p, f).1;
      SameFits(h, w, p, p');
      if p.rpc == RUpdateDoc {
        DocWriteFits(h, w, p.rdoc, f, p, p');
      } else if p.rpc == RUnpublished {
        JobWriteFits(h, w, p.rjob, f, p, p');
      }
      hide StepFits, WorldFits, UpdateJob, UpdateDoc, MaxAttempts;
    }
  }

  lemma OverwriteFits(h: Home, w: World, doc: Id, pc: SavePc, a: Artifact, body: Bytes, f: Fault, pick: Id)
    requires WorldFits(h, w) && (pc == SPut || pc == SUpdate ==> ArtFits(h, a))
    ensures
      var (w', pc', a') := StepOverwrite(w, doc, pc, a, body, f, pick);
      && WorldFits(h, w') && (pc' == SPut || pc' == SUpdate ==> ArtFits(h, a'))
      && w'.docs == w.docs && w'.jobs == w.jobs && w'.nextId == w.nextId && w.arts.Keys <= w'.arts.Keys
      && w.objects.Keys <= w'.objects.Keys
  {
    hide HasRow;
  }

  /** A Run writes its own job row and adds at most one artifact row, of its own document. */
  ghost predicate RunAdds(w: World, w': World, r: Run, row: Job) {
    && (w'.jobs == w.jobs || (row.id in w.jobs && w'.jobs == w.jobs[row.id := row]))
    && w'.docs.Keys == w.docs.Keys && w.objects.Keys <= w'.objects.Keys
    && (if w'.nextId == w.nextId then w'.arts == w.arts
        else w'.nextId == w.nextId + 1
             && exists a: Artifact :: a.id == w.nextId && a.doc == r.doc.id && w'.arts == w.arts[w.nextId := a])
  }

  lemma SameAdds(w: World, r: Run, row: Job)
    ensures RunAdds(w, w, r, row)
  {}

  lemma JobWriteAdds(w: World, r: Run, row: Job, f: Fault)
    ensures RunAdds(w, UpdateJob(w, row, f), r, row)
  {}

  lemma DocWriteAdds(w: World, r: Run, d: Document, row: Job, f: Fault)
    ensures RunAdds(w, UpdateDoc(w, d, f), r, row)
  {}

  lemma ObjectWriteAdds(w: World, r: Run, k: Key, b: Bytes, row: Job)
    ensures RunAdds(w, w.(objects := w.objects[k := b]), r, row)
  {}

  lemma LoadAdds(cfg: Config, w: World, r: Run, f: Fault)
    ensures RunAdds(w, StepLoad(cfg, w, r, f).0, r, r.job)
    ensures !r.pc.Begin? ==> var j := StepLoad(cfg, w, r, f).1.job; j.id == r.job.id && j.doc == r.job.doc
  {
    SameAdds(w, r, r.job);
    JobWriteAdds(w, r, r.job, f);
    DocWriteAdds(w, r, r.doc, r.job, f);
    hide Selected, HasRow, RunAdds, UpdateJob, UpdateDoc;
  }

  lemma CheckpointAdds(cfg: Config, w: World, r: Run, f: Fault)
    ensures RunAdds(w, StepCheckpoint(cfg, w, r, f).0, r, r.job)
    ensures var j := StepCheckpoint(cfg, w, r, f).1.job; j.id == r.job.id && j.doc == r.job.doc
  {
    SameAdds(w, r, r.job);
    JobWriteAdds(w, r, r.job, f);
    hide Selected, CheckpointProgress, CheckpointStage, RunAdds, UpdateJob;
  }

  lemma ExtractAdds(cfg: Config, w: World, r: Run, f: Fault)
    ensures RunAdds(w, StepExtract(cfg, w, r, f).0, r, StepExtract(cfg, w, r, f).1.job)
    ensures var j := StepExtract(cfg, w, r, f).1.job; j.id == r.job.id && j.doc == r.job.doc
  {
    var row := StepExtract(cfg, w, r, f).1.job;
    SameAdds(w, r, row);
    JobWriteAdds(w, r, row, f);
    DocWriteAdds(w, r, r.doc, row, f);
    hide OcrPct, RunAdds, UpdateJob, UpdateDoc;
  }

  lemma StoreAdds(cfg: Config, w: World, r: Run, f: Fault)
    ensures RunAdds(w, StepStore(cfg, w, r, f).0, r, r.job)
    ensures var j := StepStore(cfg, w, r, f).1.job; j.id == r.job.id && j.doc == r.job.doc
  {
    SameAdds(w, r, r.job);
    ObjectWriteAdds(w, r, CdomFile(r.doc.id), cfg.cdom(r.doc.id, r.pdf), r.job);
    RowAdded(w, r, CdomKind, Json, CdomFile(r.doc.id), |cfg.cdom(r.doc.id, r.pdf)|);
    hide Selected, CreateArtifact, RunAdds;
  }

  lemma RowAdded(w: World, r: Run, kind: Kind, format: Format, key: Key, size: nat)
    ensures
      var w' := CreateArtifact(w, r.doc.id, r.job.id, kind, format, key, size);
      RunAdds(w, w', r, r.job)
  {
    var a := Artifact(w.nextId, r.doc.id, r.job.id, kind, format, key, size);
    assert CreateArtifact(w, r.doc.id, r.job.id, kind, format, key, size).arts == w.arts[w.nextId := a];
  }

  lemma ExportAdds(cfg: Config, w: World, r: Run, f: Fault)
    ensures RunAdds(w, StepExport(cfg, w, r, f).0, r, r.job)
    ensures var j := StepExport(cfg, w, r, f).1.job; j.id == r.job.id && j.doc == r.job.doc
  {
    SameAdds(w, r, r.job);
    var sel := Selected(cfg, r.doc.formats);
    if Exporting(r.pc) && r.pc.i < |sel| {
      var format := sel[r.pc.i];
      ObjectWriteAdds(w, r, Output(r.doc.id, format), cfg.render(format, r.body), r.job);
      RowAdded(w, r, ExportKind, format, Output(r.doc.id, format), |cfg.render(format, r.body)|);
    }
    hide Selected, HasRow, CreateArtifact, RunAdds;
  }

  lemma EndAdds(cfg: Config, w: World, r: Run, f: Fault)
    ensures RunAdds(w, StepEnd(cfg, w, r, f).0, r, r.job)
    ensures var j := StepEnd(cfg, w, r, f).1.job; j.id == r.job.id && j.doc == r.job.doc
  {
    SameAdds(w, r, r.job);
    JobWriteAdds(w, r, r.job, f);
    DocWriteAdds(w, r, r.doc, r.job, f);
    hide RunAdds, UpdateJob, UpdateDoc;
  }

  lemma StepAdds(cfg: Config, w: World, r: Run, f: Fault) returns (row: Job)
    ensures RunAdds(w, Step(cfg, w, r, f).0, r, row) && row.id == r.job.id && row.doc == r.job.doc
    ensures !r.pc.Begin? ==> var j := Step(cfg, w, r, f).1.job; j.id == r.job.id && j.doc == r.job.doc
  {
    row := if r.pc.OcrBatch? || r.pc.OcrTick? || r.pc.ReadPdf? || r.pc.SavePages? || r.pc.OcrMerge?
           then StepExtract(cfg, w, r, f).1.job else r.job;
    SameAdds(w, r, row);
    LoadAdds(cfg, w, r, f);
    CheckpointAdds(cfg, w, r, f);
    ExtractAdds(cfg, w, r, f);
    StoreAdds(cfg, w, r, f);
    ExportAdds(cfg, w, r, f);
    EndAdds(cfg, w, r, f);
    hide RunAdds, StepLoad, StepCheckpoint, StepExtract, StepStore, StepExport, StepEnd;
  }

  /** A Run begins by reading a row. */
  lemma BeginAdds(cfg: Config, w: World, r: Run, f: Fault)
    requires r.pc.Begin?
    ensures
      var (w', r') := Step(cfg, w, r, f);
      w' == w && (r'.pc.Done? || (r.id in w.jobs && r'.job == w.jobs[r.id]))
  {}

  /** What a Run adds fits, its own row and its new artifact row. */
  lemma AddsFit(h: Home, w: World, w': World, r: Run, row: Job) returns (h': Home)
    requires WorldFits(h, w) && JobFits(h, row) && RunAdds(w, w', r, row)
    ensures Extends(h, h') && WorldFits(h', w') && Adds(w, w', Worker(r)) && h'.jobs == h.jobs
  {
    h' := if w'.nextId != w.nextId then h.(arts := h.arts[w.nextId := r.doc.id]) else h;
  }

  lemma WorkerFits(cfg: Config, h: Home, w: World, r: Run, f: Fault) returns (h': Home)
    requires WorldFits(h, w) && ProcFits(h, Worker(r))
    ensures var (w', r') := Step(cfg, w, r, f); StepFits(h, h', w, w', Worker(r), Worker(r'))
  {
    h' := h;
    if r.pc.Begin? {
      BeginAdds(cfg, w, r, f);
    } else if !r.pc.Done? {
      var row := StepAdds(cfg, w, r, f);
      h' := AddsFit(h, w, Step(cfg, w, r, f).0, r, row);
      hide WorldFits, RunAdds, Adds, Extends, Step;
    } else {
      hide StepLoad, StepCheckpoint, StepExtract, StepStore, StepExport, StepEnd;
    }
  }

  lemma ProcStepFits(cfg: Config, h: Home, w: World, p: Proc, f: Fault, pick: Id) returns (h': Home)
    requires WorldFits(h, w) && ProcFits(h, p)
    ensures var (w', p') := StepProc(cfg, w, p, f, pick); StepFits(h, h', w, w', p, p')
  {
    hide WorldFits, StepUpload, StepCancel, StepRetry, StepOverwrite, Step, HasRow;
    h' := h;
    match p
    case Upload(_, _, _, _) => h' := UploadFits(h, w, p, f);
    case Cancel(_, _, _, _) => CancelFits(h, w, p, f);
    case Retry(_, _, _, _) => h' := RetryFits(cfg, h, w, p, f);
    case Save(doc, pc, a, body) => OverwriteFits(h, w, doc, pc, a, body, f, pick);
    case Regenerate(doc, pc, a, body) => OverwriteFits(h, w, doc, pc, a, body, f, pick);
    case Worker(r) => h' := WorkerFits(cfg, h, w, r, f);
  }

  // ---------- every reachable state ----------

  lemma WorkKeeps(cfg: Config, h: Home, s: Site, e: Event) returns (h': Home)
    requires Fits(h, s)
    ensures Extends(h, h') && Fits(h', StepSite(cfg, s, Work(e)))
  {
    hide WorldFits, OwnKeys, ProcOwned, ProcFits, DeletionFits, StepProc, Fresh;
    h' := h;
    match e
    case Spawn(n, p) =>
      if Fresh(p) {
        FreshOwned(p);
        FreshFits(h, p);
      }
    case Advance(n, f, pick) =>
      if n in s.sys.procs {
        var w, p := s.sys.world, s.sys.procs[n];
        ProcOwns(cfg, w, p, f, pick);
        h' := ProcStepFits(cfg, h, w, p, f, pick);
        forall m | m in s.sys.procs
          ensures ProcFits(h', s.sys.procs[m])
        {
          ProcFitsMore(h, h', s.sys.procs[m]);
        }
        hide Extends;
      }
    case Crash(n) =>
  }

  lemma FreshFits(h: Home, p: Proc)
    requires Fresh(p)
    ensures ProcFits(h, p)
  {}

  /** Deletions only take away. */
  lemma FitsLess(h: Home, w: World, v: World)
    requires OwnKeys(w) && WorldFits(h, w) && Below(v, w)
    ensures OwnKeys(v) && WorldFits(h, v)
  {}

  lemma AfterBelow(w: World, calls: seq<Call>)
    ensures Below(After(w, calls), w)
  {
    hide Deletion.Done;
  }

  lemma OpensFitting(w: World, d: Id)
    requires OwnKeys(w) && d in w.docs
    ensures DeletionFits(Deleting(w.docs[d], None)) && w.docs[d].id == d
  {}

  lemma ListsFitting(w: World, doc: Document, arts: seq<Artifact>)
    requires OwnKeys(w) && DocOwned(doc) && Listed(arts, w.arts, doc.id)
    ensures DeletionFits(Deleting(doc, Some(ObjectOps(arts) + LastOps(doc))))
  {
    var ops := ObjectOps(arts) + LastOps(doc);
    forall i | 0 <= i < |ops|
      ensures Concern(ops[i]) == Some(doc.id)
    {
      if i < |arts| {
        assert arts[i].id in w.arts && w.arts[arts[i].id] == arts[i];
      }
    }
  }

  lemma DeletionKeeps(cfg: Config, h: Home, s: Site, a: Act)
    requires Fits(h, s) && !a.Work?
    ensures Fits(h, StepSite(cfg, s, a))
  {
    hide OwnKeys, WorldFits, ProcFits, ProcOwned, After, Listed, ObjectOps;
    match a
    case Open(n, d) => if d in s.sys.world.docs { OpensFitting(s.sys.world, d); }
    case List(n, arts, f) =>
      if n in s.deletions && Listed(arts, s.sys.world.arts, s.deletions[n].doc.id) {
        ListsFitting(s.sys.world, s.deletions[n].doc, arts);
      }
      hide DeletionFits;
    case Remove(n, f) =>
      if n in s.deletions && s.deletions[n].todo.Some? && s.deletions[n].todo.value != [] {
        var ops := s.deletions[n].todo.value;
        AfterBelow(s.sys.world, [Call(ops[0], f)]);
        FitsLess(h, s.sys.world, After(s.sys.world, [Call(ops[0], f)]));
        RestFits(s.deletions[n]);
      }
      hide DeletionFits;
    case _ =>
  }

  lemma RestFits(del: Deleting)
    requires DeletionFits(del) && del.todo.Some? && del.todo.value != []
    ensures DeletionFits(del.(todo := Some(del.todo.value[1..]))) && Concern(del.todo.value[0]) == Some(del.doc.id)
  {}

  lemma StepKeeps(cfg: Config, h: Home, s: Site, a: Act) returns (h': Home)
    requires Fits(h, s)
    ensures Extends(h, h') && Fits(h', StepSite(cfg, s, a))
  {
    hide Fits, StepSite;
    h' := h;
    if a.Work? {
      h' := WorkKeeps(cfg, h, s, a.event);
    } else {
      DeletionKeeps(cfg, h, s, a);
    }
  }

  lemma {:induction false} Reached(cfg: Config, acts: seq<Act>) returns (h: Home)
    ensures Fits(h, PlaySite(cfg, NOTHING, acts))
    decreases |acts|
  {
    if acts == [] {
      h := Home(map[], map[]);
    } else {
      hide Fits, StepSite;
      h := Reached(cfg, acts[..|acts| - 1]);
      h := StepKeeps(cfg, h, PlaySite(cfg, NOTHING, acts[..|acts| - 1]), acts[|acts| - 1]);
    }
  }

  // ---------- once the row is gone ----------

  /** The document's own row is gone for good, and nothing is about to delete of it: no deletion
      of it is still at work, and no upload is about to create its row. */
  ghost predicate Closed(s: Site, d: Id) {
    && d < s.sys.world.nextId && d !in s.sys.world.docs
    && (forall n :: n in s.deletions && s.deletions[n].doc.id == d ==> s.deletions[n].todo == Some([]))
    && (forall n :: n in s.sys.procs ==> !Creating(s.sys.procs[n], d))
  }

  predicate Creating(p: Proc, d: Id) { p.Upload? && p.pc == UCreateDoc && p.udoc.id == d }

  /** Everything of a document that w has is in v. */
  ghost predicate Stays(w: World, v: World, d: Id) {
    && (forall k :: k in w.objects && KeyDoc(k) == d ==> k in v.objects)
    && (forall j :: j in w.jobs && w.jobs[j].doc == d ==> j in v.jobs && v.jobs[j].doc == d)
    && (forall a :: a in w.arts && w.arts[a].doc == d ==> a in v.arts && v.arts[a].doc == d)
  }

  lemma CreatesLater(cfg: Config, w: World, p: Proc, f: Fault, pick: Id, d: Id)
    requires d < w.nextId && !Creating(p, d)
    ensures !Creating(StepProc(cfg, w, p, f, pick).1, d)
  {
    hide HasRow, Step, StepOverwrite, CanTransition, MaxAttempts;
  }

  lemma FitsStay(h: Home, h': Home, w: World, w': World, p: Proc, d: Id)
    requires WorldFits(h, w) && Extends(h, h') && WorldFits(h', w') && Adds(w, w', p)
    ensures Stays(w, w', d)
  {}

  lemma FreshCreatesNothing(p: Proc, d: Id)
    requires Fresh(p)
    ensures !Creating(p, d)
  {}

  lemma WorkClosed(cfg: Config, h: Home, s: Site, e: Event, d: Id)
    requires Fits(h, s) && Closed(s, d)
    ensures var t := StepSite(cfg, s, Work(e)); Closed(t, d) && Stays(s.sys.world, t.sys.world, d)
  {
    hide WorldFits, OwnKeys, ProcOwned, ProcFits, DeletionFits, StepProc, Fresh, Creating;
    match e
    case Spawn(n, p) =>
      if Fresh(p) { FreshCreatesNothing(p, d); }
      assert Stays(s.sys.world, s.sys.world, d);
    case Advance(n, f, pick) =>
      if n in s.sys.procs {
        var w, p := s.sys.world, s.sys.procs[n];
        var h' := ProcStepFits(cfg, h, w, p, f, pick);
        FitsStay(h, h', w, StepProc(cfg, w, p, f, pick).0, p, d);
        CreatesLater(cfg, w, p, f, pick, d);
        NotAdded(w, StepProc(cfg, w, p, f, pick).0, p, d);
        hide Stays;
      }
    case Crash(n) =>
  }

  lemma NotAdded(w: World, w': World, p: Proc, d: Id)
    requires Adds(w, w', p) && !Creating(p, d) && d !in w.docs && d < w.nextId
    ensures d !in w'.docs && d < w'.nextId
  {}

  lemma OtherRemoved(w: World, op: Op, f: Fault, d: Id)
    requires Concern(op).Some? && Concern(op) != Some(d)
    ensures Stays(w, After(w, [Call(op, f)]), d)
  {
    var calls := [Call(op, f)];
    assert forall o :: Deletion.Done(calls, o) ==> o == op;
    hide Deletion.Done;
  }

  lemma AfterLess(w: World, calls: seq<Call>, d: Id)
    requires d !in w.docs
    ensures d !in After(w, calls).docs && After(w, calls).nextId == w.nextId
  {}

  lemma DeletionClosed(cfg: Config, h: Home, s: Site, a: Act, d: Id)
    requires Fits(h, s) && Closed(s, d) && !a.Work?
    ensures var t := StepSite(cfg, s, a); Closed(t, d) && Stays(s.sys.world, t.sys.world, d)
  {
    hide WorldFits, ProcFits, ProcOwned, After, Listed, ObjectOps, Creating;
    var w := s.sys.world;
    assert Stays(w, w, d);
    match a
    case Open(n, e) => if e in w.docs { OpensFitting(w, e); }
      hide OwnKeys, DeletionFits, Stays;
    case List(n, arts, f) => hide OwnKeys, DeletionFits, Stays;
    case Remove(n, f) =>
      hide OwnKeys, Stays;
      if n in s.deletions && s.deletions[n].todo.Some? && s.deletions[n].todo.value != [] {
        var op := s.deletions[n].todo.value[0];
        RestFits(s.deletions[n]);
        OtherRemoved(w, op, f, d);
        AfterLess(w, [Call(op, f)], d);
      }
      hide DeletionFits;
    case Stop(n) => hide OwnKeys, DeletionFits, Stays;
  }

  lemma {:induction false} ClosedStays(cfg: Config, h: Home, s: Site, more: seq<Act>, d: Id) returns (h': Home)
    requires Fits(h, s) && Closed(s, d)
    ensures var t := PlaySite(cfg, s, more); Fits(h', t) && Closed(t, d) && Stays(s.sys.world, t.sys.world, d)
    decreases |more|
  {
    if more == [] {
      h' := h;
      assert Stays(s.sys.world, s.sys.world, d);
    } else {
      var a := more[|more| - 1];
      h' := ClosedStays(cfg, h, s, more[..|more| - 1], d);
      var t := PlaySite(cfg, s, more[..|more| - 1]);
      var u := StepSite(cfg, t, a);
      hide Fits, Closed, StepSite;
      if a.Work? {
        WorkClosed(cfg, h', t, a.event, d);
      } else {
        DeletionClosed(cfg, h', t, a, d);
      }
      StaysOn(s.sys.world, t.sys.world, u.sys.world, d);
      h' := StepKeeps(cfg, h', t, a);
    }
  }

  lemma StaysOn(w: World, v: World, u: World, d: Id)
    requires Stays(w, v, d) && Stays(v, u, d)
    ensures Stays(w, u, d)
  {}

  /** From any state that Runs, use cases and deletions can reach, interleaved call by call:
      what there is of a document whose own row is gone, objects, jobs and artifact rows, is
      never taken out, whatever happens from then on. */
  lemma LeftForGood(cfg: Config, acts: seq<Act>, more: seq<Act>, d: Id)
    requires Closed(PlaySite(cfg, NOTHING, acts), d)
    ensures
      var s := PlaySite(cfg, NOTHING, acts);
      var t := PlaySite(cfg, s, more);
      Closed(t, d) && Stays(s.sys.world, t.sys.world, d)
  {
    hide Fits, Closed, Stays, StepSite;
    var h := Reached(cfg, acts);
    var h' := ClosedStays(cfg, h, PlaySite(cfg, NOTHING, acts), more, d);
  }

  // ---------- while the row is there ----------

  /** The rows of a document can be listed. */
  lemma {:induction false} Listing(arts: map<Id, Artifact>, ids: set<Id>, d: Id) returns (out: seq<Artifact>)
    requires ids <= arts.Keys && forall a :: a in arts ==> arts[a].id == a
    ensures forall i :: 0 <= i < |out| ==> out[i].id in arts && arts[out[i].id] == out[i] && out[i].doc == d
    ensures forall a :: a in ids && arts[a].doc == d ==> arts[a] in out
    decreases |ids|
  {
    if ids == {} {
      out := [];
    } else {
      var a :| a in ids;
      out := Listing(arts, ids - {a}, d);
      if arts[a].doc == d {
        out := out + [arts[a]];
      }
    }
  }

  function AllFine(ops: seq<Op>): (calls: seq<Call>)
    ensures |calls| == |ops| && forall i :: 0 <= i < |calls| ==> calls[i] == Call(ops[i], Fine)
  {
    seq(|ops|, i requires 0 <= i < |ops| => Call(ops[i], Fine))
  }

  /** A deletion from its start to its end, undisturbed. */
  function DeletionActs(d: Id, arts: seq<Artifact>, calls: seq<Call>): seq<Act> {
    [Open(0, d)] + ([List(0, arts, Fine)] + Removes(0, calls))
  }

  lemma DeletionPlayed(cfg: Config, s: Site, d: Id, arts: seq<Artifact>, calls: seq<Call>)
    requires d in s.sys.world.docs && s.sys.world.docs[d].id == d && Listed(arts, s.sys.world.arts, d)
    requires Carried(calls, ObjectOps(arts) + LastOps(s.sys.world.docs[d]))
    ensures
      var t := PlaySite(cfg, s, DeletionActs(d, arts, calls));
      && t.sys == s.sys.(world := After(s.sys.world, calls))
      && t.deletions == s.deletions[0 := Deleting(s.sys.world.docs[d], Some([]))]
  {
    hide After, PlaySite, Listed, ObjectOps, LastOps, Removes, Carried;
    StartsToDelete(cfg, s, d, arts);
    PlayFirst(cfg, s, Open(0, d), [List(0, arts, Fine)] + Removes(0, calls));
    var t := StepSite(cfg, s, Open(0, d));
    PlayFirst(cfg, t, List(0, arts, Fine), Removes(0, calls));
    var u := StepSite(cfg, t, List(0, arts, Fine));
    hide StepSite;
    DeletionAlone(cfg, u, 0, calls);
    Overwritten(s.deletions, 0, u.deletions[0], Deleting(s.sys.world.docs[d], Some([])));
  }

  lemma StartsToDelete(cfg: Config, s: Site, d: Id, arts: seq<Artifact>)
    requires d in s.sys.world.docs && s.sys.world.docs[d].id == d && Listed(arts, s.sys.world.arts, d)
    ensures
      var del := Deleting(s.sys.world.docs[d], Some(ObjectOps(arts) + LastOps(s.sys.world.docs[d])));
      StepSite(cfg, StepSite(cfg, s, Open(0, d)), List(0, arts, Fine)) == Site(s.sys, s.deletions[0 := del])
  {
    hide Listed, ObjectOps, LastOps;
    var doc := s.sys.world.docs[d];
    Overwritten(s.deletions, 0, Deleting(doc, None), Deleting(doc, Some(ObjectOps(arts) + LastOps(doc))));
  }

  /** As long as its row is there, everything that the rows of a document name can still be
      taken out: a deletion that meets no error does it. */
  lemma TakenWhileRow(cfg: Config, acts: seq<Act>, d: Id) returns (more: seq<Act>)
    requires d in PlaySite(cfg, NOTHING, acts).sys.world.docs
    ensures
      var s := PlaySite(cfg, NOTHING, acts);
      PlaySite(cfg, s, more).sys.world == Without(s.sys.world, {d})
  {
    var s := PlaySite(cfg, NOTHING, acts);
    var w := s.sys.world;
    var h := Reached(cfg, acts);
    var arts := Listing(w.arts, w.arts.Keys, d);
    var calls := AllFine(ObjectOps(arts) + LastOps(w.docs[d]));
    more := DeletionActs(d, arts, calls);
    assert Listed(arts, w.arts, d) && w.docs[d].id == d;
    hide Fits, WorldFits, After, Without, PlaySite, Listed, ObjectOps, LastOps, DeletionActs;
    DeletionPlayed(cfg, s, d, arts, calls);
    AllGone(w, w.docs[d], arts, calls);
  }

  lemma AllGone(w: World, doc: Document, arts: seq<Artifact>, calls: seq<Call>)
    requires doc.id in w.docs && w.docs[doc.id] == doc && Listed(arts, w.arts, doc.id)
    requires Carried(calls, ObjectOps(arts) + LastOps(doc)) && forall i :: 0 <= i < |calls| ==> calls[i].fault == Fine
    ensures After(w, calls) == Without(w, {doc.id})
  {
    var first := [Call(RowsListed(doc.id), Fine)];
    var all := first + calls;
    assert all[1..] == calls && Carries(w, doc, all, arts);
    SmoothJoins(first, calls);
    DeletionExact(w, doc, all);
    AfterNothing(w, first);
    AfterJoins(w, first, calls);
    hide After, Without, Carries;
  }

  /** Nor is an object lost to deletions, while the row is there, because no row names it: a Run
      still under way may store the row again, and the next deletion takes both. */
  lemma NamedAgain(w: World, d: Id, job: Id, size: nat)
    requires d in w.docs
    ensures CdomFile(d) !in Without(CreateArtifact(w, d, job, CdomKind, Json, CdomFile(d), size), {d}).objects
  {
    var v := CreateArtifact(w, d, job, CdomKind, Json, CdomFile(d), size);
    assert w.nextId in v.arts && v.arts[w.nextId].key == CdomFile(d);
    assert CdomFile(d) in KeysOf(v, {d});
  }

  // ---------- it happens ----------

  const JUST_MADE := Job(1, 0, Queued, AtQueued, 0, NoError, 0, 0, None)

  function Uploaded(payload: Bytes): World {
    World(map[0 := Document(0, Original(0), DocQueued, ["markdown", "docx", "json"], 0, 0)],
          map[1 := JUST_MADE], map[], map[Original(0) := payload], 2)
  }

  lemma UploadHappens(cfg: Config, payload: Bytes) returns (acts: seq<Act>)
    ensures PlaySite(cfg, NOTHING, acts).sys.world == Uploaded(payload)
    ensures PlaySite(cfg, NOTHING, acts).deletions == map[]
    ensures forall n :: n in PlaySite(cfg, NOTHING, acts).sys.procs ==>
      !Creating(PlaySite(cfg, NOTHING, acts).sys.procs[n], 0)
  {
    var p := Upload(UPut, NO_DOC, NO_JOB, payload);
    var go := Work(Advance(0, Fine, 0));
    acts := [Work(Spawn(0, p)), go, go, go];
    var s1 := StepSite(cfg, NOTHING, Work(Spawn(0, p)));
    var s2 := StepSite(cfg, s1, go);
    var s3 := StepSite(cfg, s2, go);
    var s4 := StepSite(cfg, s3, go);
    FourPlayed(cfg, NOTHING, Work(Spawn(0, p)), go);
    assert s1.sys == System(EMPTY.world, map[0 := p]);
    assert s2.sys.procs[0].pc == UCreateDoc && s2.sys.world.objects == map[Original(0) := payload];
    assert s3.sys.procs[0].pc == UCreateJob && s3.sys.world.docs == Uploaded(payload).docs;
    assert s4.sys.world.jobs == map[1 := JUST_MADE] && s4.sys.procs[0].pc == UPublish;
    assert s4.sys.procs.Keys == {0};
  }

  lemma FourPlayed(cfg: Config, s: Site, a: Act, b: Act)
    ensures PlaySite(cfg, s, [a, b, b, b]) == StepSite(cfg, StepSite(cfg, StepSite(cfg, StepSite(cfg, s, a), b), b), b)
  {
    hide StepSite;
    assert [a, b, b, b] == [a] + ([b] + ([b] + ([b] + [])));
    PlayFirst(cfg, s, a, [b] + ([b] + ([b] + [])));
    var s1 := StepSite(cfg, s, a);
    PlayFirst(cfg, s1, b, [b] + ([b] + []));
    var s2 := StepSite(cfg, s1, b);
    PlayFirst(cfg, s2, b, [b] + []);
    var s3 := StepSite(cfg, s2, b);
    PlayFirst(cfg, s3, b, []);
  }

  /** An uploaded document is deleted while the calls for its jobs and for its original fail:
      both are left, its row is gone, and so both are left for good. */
  lemma LeftBehind(cfg: Config, payload: Bytes) returns (acts: seq<Act>)
    ensures
      var s := PlaySite(cfg, NOTHING, acts);
      && Closed(s, 0) && Original(0) in s.sys.world.objects && s.sys.world.objects[Original(0)] == payload
      && 1 in s.sys.world.jobs && s.sys.world.jobs[1] == JUST_MADE
  {
    acts := UploadHappens(cfg, payload);
    var s := PlaySite(cfg, NOTHING, acts);
    TwoFail(s.sys.world.docs[0]);
    hide *;
    DeletionPlayed(cfg, s, 0, [], TWO_FAIL);
    PlayJoins(cfg, NOTHING, acts, DeletionActs(0, [], TWO_FAIL));
    SparedTwo(payload);
    LeavesTwo(payload, s, PlaySite(cfg, s, DeletionActs(0, [], TWO_FAIL)));
    acts := acts + DeletionActs(0, [], TWO_FAIL);
  }

  const TWO_FAIL := [
    Call(RowsGone(0), Fine), Call(JobsGone(0), StoreDown), Call(ObjectGone(Original(0)), StoreDown),
        Call(DocGone(0), Fine)]

  lemma TwoFail(doc: Document)
    requires doc.id == 0 && doc.source == Original(0)
    ensures Carried(TWO_FAIL, ObjectOps([]) + LastOps(doc)) && Listed([], map[], 0)
  {
    assert ObjectOps([]) + LastOps(doc) == LastOps(doc);
  }

  lemma LeavesTwo(payload: Bytes, s: Site, t: Site)
    requires s.sys.world == Uploaded(payload) && s.deletions == map[]
    requires forall n :: n in s.sys.procs ==> !Creating(s.sys.procs[n], 0)
    requires t.sys == s.sys.(world := After(Uploaded(payload), TWO_FAIL))
    requires t.deletions == s.deletions[0 := Deleting(Uploaded(payload).docs[0], Some([]))]
    ensures
      && Closed(t, 0) && Original(0) in t.sys.world.objects && t.sys.world.objects[Original(0)] == payload
      && 1 in t.sys.world.jobs && t.sys.world.jobs[1] == JUST_MADE
  {
    SparedTwo(payload);
    hide After, Creating;
  }

  lemma SparedTwo(payload: Bytes)
    ensures
      var v := After(Uploaded(payload), TWO_FAIL);
      && 0 !in v.docs && 1 in v.jobs && v.jobs[1] == JUST_MADE && v.nextId == 2
      && Original(0) in v.objects && v.objects[Original(0)] == payload
  {
    assert TWO_FAIL[3] == Call(DocGone(0), Fine);
  }

  lemma {:induction false} PlayJoins(cfg: Config, s: Site, a: seq<Act>, b: seq<Act>)
    ensures PlaySite(cfg, s, a + b) == PlaySite(cfg, PlaySite(cfg, s, a), b)
    decreases |b|
  {
    hide StepSite;
    if b == [] {
      assert a + b == a;
    } else {
      PlayJoins(cfg, s, a, b[..|b| - 1]);
      assert (a + b)[..|a + b| - 1] == a + b[..|b| - 1];
    }
  }
}
