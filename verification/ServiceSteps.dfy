/** The use cases of Service as machines over the same stores, one storage call a
    step. `pick` is the row an unordered listing happens to show first. */
module ServiceSteps {
  import opened Domain
  import opened EngineSteps

  function MaxAttempts(configured: int): (m: int)
    ensures m >= 1 && (configured < 1 ==> m == 3) && (configured >= 1 ==> m == configured)
  {
    if configured < 1 then 3 else configured
  }

  datatype Proc =
    | Upload(pc: UploadPc, udoc: Document, ujob: Job, payload: Bytes)
    | Cancel(cid: Id, cpc: CancelPc, cjob: Job, cdoc: Document)
    | Retry(rid: Id, rpc: RetryPc, rjob: Job, rdoc: Document)
    | Save(sdoc: Id, spc: SavePc, sart: Artifact, body: Bytes)
    | Regenerate(gdoc: Id, gpc: SavePc, gart: Artifact, gbody: Bytes)
    | Worker(run: Run)

  datatype UploadPc = UPut | UCreateDoc | UCreateJob | UPublish | UUnpublished | UDone
  datatype CancelPc = CGetJob | CUpdateJob | CGetDoc | CUpdateDoc | CDone
  datatype RetryPc = RGetJob | RGetDoc | RCreateJob | RUpdateDoc | RPublish | RUnpublished | RDone
  datatype SavePc = SGetDoc | SFindCdom | SReadCdom | SFind | SPut | SUpdate | SDone

  const NO_ART := Artifact(0, 0, 0, CdomKind, Json, Original(0), 0)

  /** A use case as it starts. */
  predicate Fresh(p: Proc) {
    match p
    case Upload(pc, _, _, _) => pc == UPut
    case Cancel(_, pc, _, _) => pc == CGetJob
    case Retry(_, pc, _, _) => pc == RGetJob
    case Save(_, pc, _, _) => pc == SGetDoc
    case Regenerate(_, pc, _, _) => pc == SGetDoc
    case Worker(r) => r == Start(r.id)
  }

  function StepUpload(w: World, p: Proc, f: Fault): (World, Proc)
    requires p.Upload?
  {
    match p.pc
    case UPut =>
      if f != Fine then (w.(nextId := w.nextId + 2), p.(pc := UDone))
      else
        var d, j := w.nextId, w.nextId + 1;
        var formats := if p.udoc.formats == [] then ["markdown", "docx", "json"] else p.udoc.formats;
        (w.(objects := w.objects[Original(d) := p.payload], nextId := w.nextId + 2),
         p.(udoc := Document(d, Original(d), DocQueued, formats, 0, p.udoc.created),
            ujob := Job(j, d, Queued, AtQueued, 0, NoError, 0, 0, None), pc := UCreateDoc))
    case UCreateDoc =>
      if f != Fine || p.udoc.id in w.docs then (w, p.(pc := UDone))  // primary key
      else (w.(docs := w.docs[p.udoc.id := p.udoc]), p.(pc := UCreateJob))
    case UCreateJob =>
      if f != Fine || p.ujob.id in w.jobs then (w, p.(pc := UDone))  // primary key
      else (w.(jobs := w.jobs[p.ujob.id := p.ujob]), p.(pc := UPublish))
    case UPublish =>
      if f == Fine then (w, p.(pc := UDone))
      else (w, p.(ujob := p.ujob.(status := Failed, error := InternalError), pc := UUnpublished))
    case UUnpublished => (UpdateJob(w, p.ujob, f), p.(pc := UDone))
    case UDone => (w, p)
  }

  function StepCancel(w: World, p: Proc, f: Fault): (World, Proc)
    requires p.Cancel?
  {
    match p.cpc
    case CGetJob =>
      if f != Fine || p.cid !in w.jobs || !CanTransition(w.jobs[p.cid].status, Cancelled) then (w, p.(cpc := CDone))
      else
        (w, p.(cjob := w.jobs[p.cid].(status := Cancelled, error := JobCancelled, stage := AtCancelled),
              cpc := CUpdateJob))
    case CUpdateJob =>
      if f == StoreDown || p.cjob.id !in w.jobs then (w, p.(cpc := CDone))
      else (UpdateJob(w, p.cjob, f), p.(cpc := CGetDoc))
    case CGetDoc =>
      if f != Fine || p.cjob.doc !in w.docs then (w, p.(cpc := CDone))
      else (w, p.(cdoc := w.docs[p.cjob.doc].(status := DocCancelled), cpc := CUpdateDoc))
    case CUpdateDoc => (UpdateDoc(w, p.cdoc, f), p.(cpc := CDone))
    case CDone => (w, p)
  }

  function StepRetry(cfg: Config, w: World, p: Proc, f: Fault): (World, Proc)
    requires p.Retry?
  {
    match p.rpc
    case RGetJob =>
      if f != Fine || p.rid !in w.jobs then (w, p.(rpc := RDone))
      else
        var prev := w.jobs[p.rid];
        if prev.status != Failed && prev.status != Cancelled then (w, p.(rpc := RDone))
        else if prev.attempts + 1 >= MaxAttempts(cfg.maxAttempts) then (w, p.(rpc := RDone))
        else (w, p.(rjob := prev, rpc := RGetDoc))
    case RGetDoc =>
      if f != Fine || p.rjob.doc !in w.docs then (w, p.(rpc := RDone))
      else (w, p.(rdoc := w.docs[p.rjob.doc].(status := DocQueued), rpc := RCreateJob))
    case RCreateJob =>
      if f != Fine then (w.(nextId := w.nextId + 1), p.(rpc := RDone))
      else
        var n := p.rjob.attempts + 1;
        var j := Job(w.nextId, p.rjob.doc, Queued, AtQueued, 0, NoError, n, n, Some(p.rid));
        (w.(jobs := w.jobs[j.id := j], nextId := w.nextId + 1), p.(rjob := j, rpc := RUpdateDoc))
    case RUpdateDoc => (UpdateDoc(w, p.rdoc, f), p.(rpc := RPublish))
    case RPublish =>
      if f == Fine then (w, p.(rpc := RDone))
      else (w, p.(rjob := p.rjob.(status := Failed, error := InternalError), rpc := RUnpublished))
    case RUnpublished => (UpdateJob(w, p.rjob, f), p.(rpc := RDone))
    case RDone => (w, p)
  }

  /** The storage calls shared by SaveMarkdown and RegenerateMarkdown once the new
      text is known: find the markdown row, overwrite its object, update the row. */
  function StepOverwrite(w: World, doc: Id, pc: SavePc, art: Artifact, body: Bytes, f: Fault,
                         pick: Id): (World, SavePc, Artifact)
  {
    match pc
    case SFind =>
      if f != Fine || !HasRow(w, doc, ExportKind, Markdown) then (w, SDone, art)
      else if pick in w.arts && Matches(w.arts[pick], doc, ExportKind, Markdown) then (w, SPut, w.arts[pick])
      else (w, pc, art)
    case SPut =>
      if f != Fine then (w, SDone, art)
      else (w.(objects := w.objects[art.key := body]), SUpdate, art.(size := |body|))
    case SUpdate =>
      if f != Fine || art.id !in w.arts then (w, SDone, art)
      else (w.(arts := w.arts[art.id := art]), SDone, art)
    case _ => (w, SDone, art)
  }

  function StepSave(w: World, p: Proc, f: Fault, pick: Id): (World, Proc)
    requires p.Save?
  {
    if p.spc == SGetDoc then
      if f != Fine || p.sdoc !in w.docs then (w, p.(spc := SDone)) else (w, p.(spc := SFind))
    else
      var (w', pc', art') := StepOverwrite(w, p.sdoc, p.spc, p.sart, p.body, f, pick);
      (w', p.(spc := pc', sart := art'))
  }

  function StepRegenerate(cfg: Config, w: World, p: Proc, f: Fault, pick: Id): (World, Proc)
    requires p.Regenerate?
  {
    match p.gpc
    case SGetDoc =>
      if f != Fine || p.gdoc !in w.docs then (w, p.(gpc := SDone)) else (w, p.(gpc := SFindCdom))
    case SFindCdom =>
      if f != Fine || !HasRow(w, p.gdoc, CdomKind, Json) then (w, p.(gpc := SDone))
      else if pick in w.arts && Matches(w.arts[pick], p.gdoc, CdomKind, Json) then
        (w, p.(gart := w.arts[pick], gpc := SReadCdom))
      else (w, p)
    case SReadCdom =>
      if f != Fine || p.gart.key !in w.objects then (w, p.(gpc := SDone))
      else (w, p.(gbody := cfg.render(Markdown, w.objects[p.gart.key]), gpc := SFind))
    case _ =>
      var (w', pc', art') := StepOverwrite(w, p.gdoc, p.gpc, p.gart, p.gbody, f, pick);
      (w', p.(gpc := pc', gart := art'))
  }

  /** One storage call of any process. */
  function StepProc(cfg: Config, w: World, p: Proc, f: Fault, pick: Id): (World, Proc) {
    match p
    case Upload(_, _, _, _) => StepUpload(w, p, f)
    case Cancel(_, _, _, _) => StepCancel(w, p, f)
    case Retry(_, _, _, _) => StepRetry(cfg, w, p, f)
    case Save(_, _, _, _) => StepSave(w, p, f, pick)
    case Regenerate(_, _, _, _) => StepRegenerate(cfg, w, p, f, pick)
    case Worker(r) => var (w', r') := Step(cfg, w, r, f); (w', Worker(r'))
  }
}
