/** The use cases of Service as they are written, over fallible stores, and the proof that
    each does what its machine in ServiceSteps does. */
module Service {
  import opened Domain
  import opened EngineSteps
  import opened ServiceSteps
  import opened Backend
  import opened Calls
  import C = Calls
  import E = Engine
  import Sweeper
  import D = Deletion
  import Text

  /** The outcome of one storage call, and the row that a listing showed first. */
  datatype Move = Move(fault: Fault, pick: Id)

  function Moves(cfg: Config, w: World, p: Proc, moves: seq<Move>): (World, Proc) {
    if moves == [] then (w, p)
    else
      var (w1, p1) := Moves(cfg, w, p, moves[..|moves| - 1]);
      StepProc(cfg, w1, p1, moves[|moves| - 1].fault, moves[|moves| - 1].pick)
  }

  lemma MovesSnoc(cfg: Config, w: World, p: Proc, moves: seq<Move>, m: Move)
    ensures
      var (w1, p1) := Moves(cfg, w, p, moves);
      Moves(cfg, w, p, moves + [m]) == StepProc(cfg, w1, p1, m.fault, m.pick)
  {
    hide StepProc;
    assert (moves + [m])[..|moves|] == moves;
  }

  predicate AllFine(moves: seq<Move>) { forall i :: 0 <= i < |moves| ==> moves[i].fault == Fine }

  lemma AllFineSnoc(moves: seq<Move>, m: Move)
    ensures AllFine(moves + [m]) <==> AllFine(moves) && m.fault == Fine
  {
    assert forall i :: 0 <= i < |moves| ==> (moves + [m])[i] == moves[i];
    assert (moves + [m])[|moves|] == m;
  }

  // ---------- the calls of a use case ----------

  /** The storage calls that a step stands for, given its outcome: one, but none for a
      publication; what fails after its call is a rejection. */
  function Asked(cfg: Config, w: World, p: Proc, f: Fault): seq<Call> {
    match p
    case Upload(UPut, _, _, payload) => [Call(ObjectPut(Original(w.nextId), payload), f)]
    case Upload(UCreateDoc, d, _, _) => [Call(DocMade(d), f)]
    case Upload(UCreateJob, _, j, _) => [Call(JobMade(j), f)]
    case Upload(UUnpublished, _, j, _) => [Call(JobSaved(j), f)]
    case Cancel(id, CGetJob, _, _) => [Call(JobRead(id), f)]
    case Cancel(_, CUpdateJob, j, _) => [Call(JobSaved(j), f)]
    case Cancel(_, CGetDoc, j, _) => [Call(DocRead(j.doc), f)]
    case Cancel(_, CUpdateDoc, _, d) => [Call(DocSaved(d), f)]
    case Retry(id, RGetJob, _, _) => [Call(JobRead(id), f)]
    case Retry(_, RGetDoc, j, _) => [Call(DocRead(j.doc), f)]
    case Retry(id, RCreateJob, j, _) => [Call(JobMade(NextAttempt(w.nextId, id, j)), E.Stored(f))]
    case Retry(_, RUpdateDoc, _, d) => [Call(DocSaved(d), f)]
    case Retry(_, RUnpublished, j, _) => [Call(JobSaved(j), f)]
    case Save(doc, pc, a, body) => AskedToSave(doc, pc, a, body, f)
    case Regenerate(doc, pc, a, body) => AskedToSave(doc, pc, a, body, f)
    case Worker(r) => E.Asked(cfg, r, f)
    case _ => []
  }

  function AskedToSave(doc: Id, pc: SavePc, a: Artifact, body: Bytes, f: Fault): seq<Call> {
    match pc
    case SGetDoc => [Call(DocRead(doc), f)]
    case SFindCdom => [Call(RowsListed(doc), f)]
    case SReadCdom => [Call(ObjectRead(a.key), E.Stored(f))]
    case SFind => [Call(RowsListed(doc), f)]
    case SPut => [Call(ObjectPut(a.key, body), f)]
    case SUpdate => [Call(RowSaved(a), f)]
    case SDone => []
  }

  function NextAttempt(id: Id, origin: Id, prev: Job): Job {
    Job(id, prev.doc, Queued, AtQueued, 0, NoError, prev.attempts + 1, prev.attempts + 1, Some(origin))
  }

  /** What the log of the stores gets from these moves. */
  function Told(cfg: Config, w: World, p: Proc, moves: seq<Move>): seq<Call>
    decreases |moves|
  {
    if moves == [] then []
    else
      var init := moves[..|moves| - 1];
      var (w1, p1) := Moves(cfg, w, p, init);
      Told(cfg, w, p, init) + Asked(cfg, w1, p1, moves[|moves| - 1].fault)
  }

  lemma ToldSnoc(cfg: Config, w: World, p: Proc, moves: seq<Move>, m: Move)
    ensures
      var (w1, p1) := Moves(cfg, w, p, moves);
      Told(cfg, w, p, moves + [m]) == Told(cfg, w, p, moves) + Asked(cfg, w1, p1, m.fault)
  {
    hide Asked, Moves;
    assert (moves + [m])[..|moves|] == moves;
  }

  lemma PutStep(cfg: Config, w: World, p: Proc, f: Fault)
    requires p.Upload? && p.pc == UPut
    ensures Asked(cfg, w, p, f) == [Call(ObjectPut(Original(w.nextId), p.payload), f)]
    ensures
      var formats := if p.udoc.formats == [] then ["markdown", "docx", "json"] else p.udoc.formats;
      var v := w.(nextId := w.nextId + 2);
      StepProc(cfg, w, p, f, 0)
        == if f != Fine then (v, p.(pc := UDone))
           else
             (v.(objects := v.objects[Original(w.nextId) := p.payload]),
              p.(udoc := Document(w.nextId, Original(w.nextId), DocQueued, formats, 0, p.udoc.created),
                 ujob := Job(w.nextId + 1, w.nextId, Queued, AtQueued, 0, NoError, 0, 0, None), pc := UCreateDoc))
  {}

  predicate Finished(p: Proc) {
    match p
    case Upload(pc, _, _, _) => pc == UDone
    case Cancel(_, pc, _, _) => pc == CDone
    case Retry(_, pc, _, _) => pc == RDone
    case Save(_, pc, _, _) => pc == SDone
    case Regenerate(_, pc, _, _) => pc == SDone
    case Worker(r) => r.pc.Done?
  }

  datatype Reply<+T> = Answered(value: T) | TooLarge | NotPdf | NoSuch | Refused | Unavailable

  // ---------- what an upload must look like ----------

  /** What UploadDocument is told about a file, beyond its bytes. */
  datatype FileInfo = FileInfo(size: int, name: string, contentType: string, formats: seq<string>, now: int)

  function HasPdfMagic(payload: Bytes): bool { "%PDF" <= payload }

  function Mapped(s: string, f: char -> char): (r: string)
    ensures |r| == |s| && forall i :: 0 <= i < |s| ==> r[i] == f(s[i])
  {
    seq(|s|, i requires 0 <= i < |s| => f(s[i]))
  }

  /** Lower case, as far as it makes ASCII letters: of the capitals, the dotted capital I
      and the Kelvin sign. */
  function Lower(c: char): char {
    if 'A' <= c <= 'Z' then (c as int + 32) as char
    else if c == '\U{0130}' then 'i' else if c == '\U{212A}' then 'k' else c
  }

  /** What comparing without case takes for an ASCII letter. */
  function Fold(c: char): char {
    if 'A' <= c <= 'Z' then (c as int + 32) as char
    else if c == '\U{017F}' then 's' else if c == '\U{212A}' then 'k' else c
  }

  function Slashed(c: char): char { if c == '\\' then '/' else c }

  function DropSlashes(s: string): string {
    if s != "" && s[|s| - 1] == '/' then DropSlashes(s[..|s| - 1]) else s
  }

  function AfterSlash(s: string): string { if '/' in s then AfterSlash(s[1..]) else s }

  /** The last element of a path. */
  function Base(s: string): string {
    if s == "" then "." else if DropSlashes(s) == "" then "/" else AfterSlash(DropSlashes(s))
  }

  /** sanitizeFilename and the test of the extension. */
  predicate PdfName(name: string) {
    var n := Mapped(Text.TrimSpace(Base(Mapped(name, Slashed))), Lower);
    |n| >= 4 && n[|n| - 4..] == ".pdf"
  }

  /** An unnamed or generic content type counts as a PDF's. */
  predicate PdfType(contentType: string) {
    var t := Text.TrimSpace(contentType);
    var l := Mapped(t, Lower);
    t == "" || Mapped(t, Fold) == "application/octet-stream"
    || l == "application/pdf" || l == "application/x-pdf" || "application/pdf;" <= l
  }

  /** The body is None when it cannot be read. */
  predicate Oversized(info: FileInfo, body: Option<Bytes>, maxBytes: int) {
    info.size > maxBytes || (PdfName(info.name) && body.Some? && |body.value| > maxBytes)
  }

  predicate Unreadable(info: FileInfo, body: Option<Bytes>, maxBytes: int) {
    info.size <= maxBytes && PdfName(info.name) && body == None
  }

  predicate Accepted(info: FileInfo, body: Option<Bytes>, maxBytes: int) {
    && info.size <= maxBytes && PdfName(info.name) && PdfType(info.contentType)
    && body.Some? && |body.value| <= maxBytes && HasPdfMagic(body.value)
  }

  class Service {
    const cfg: Config
    const stores: Backend
    const maxBytes: int
    /** The use case under way, as a machine, and the outcomes so far. */
    ghost var first: World
    ghost var before: seq<Call>
    ghost var start: Proc
    ghost var proc: Proc
    ghost var moves: seq<Move>

    constructor (cfg: Config, stores: Backend, maxBytes: int)
      ensures this.cfg == cfg && this.stores == stores && this.maxBytes == maxBytes
    {
      this.cfg, this.stores, this.maxBytes := cfg, stores, maxBytes;
    }

    ghost function Frame(): set<object> { {this} + stores.Repr() }

    ghost predicate At(p: Proc)
      reads this, stores.Repr()
    {
      && stores.Valid() && proc == p && Moves(cfg, first, start, moves) == (stores.View(), p)
      && stores.log == before + Told(cfg, first, start, moves)
    }

    /** The call has changed the stores exactly as the machine does from start to finish, the
        outcomes being those that the log shows for exactly the machine's calls. */
    ghost predicate Ended()
      reads this, stores.Repr()
    {
      && stores.Valid() && Finished(proc) && Moves(cfg, first, start, moves) == (stores.View(), proc)
      && stores.log == before + Told(cfg, first, start, moves)
    }

    /** No call of the use case has failed so far. */
    ghost predicate Smooth()
      reads this
    {
      AllFine(moves)
    }

    ghost method Begin(p: Proc)
      requires stores.Valid()
      modifies this`first, this`before, this`start, this`proc, this`moves
      ensures first == stores.View() && before == stores.log && start == p && At(p) && Smooth()
    {
      first, before, start, proc, moves := stores.View(), stores.log, p, p, [];
    }

    /** The next storage call has been made. */
    ghost method Tick(f: Fault, pick: Id, w: World, l: seq<Call>)
      requires stores.Valid() && Moves(cfg, first, start, moves) == (w, proc)
      requires l == before + Told(cfg, first, start, moves) && stores.log == l + Asked(cfg, w, proc, f)
      requires StepProc(cfg, w, proc, f, pick).0 == stores.View()
      modifies this`proc, this`moves
      ensures At(StepProc(cfg, w, old(proc), f, pick).1) && Smooth() == (old(Smooth()) && f == Fine)
    {
      hide StepProc, Moves, AllFine, Told, Asked;
      ToldSnoc(cfg, first, start, moves, Move(f, pick));
      MovesSnoc(cfg, first, start, moves, Move(f, pick));
      AllFineSnoc(moves, Move(f, pick));
      moves := moves + [Move(f, pick)];
      proc := StepProc(cfg, w, proc, f, pick).1;
    }

    // ---------- upload ----------

    /** The caller learns why a file is turned away, without a call to the stores; a file that
        is not comes back as a queued job exactly when nothing failed. */
    method UploadDocument(info: FileInfo, body: Option<Bytes>) returns (r: Reply<(Id, Id)>)
      requires stores.Valid()
      modifies Frame()
      ensures stores.Valid()
      ensures r == TooLarge <==> Oversized(info, body, maxBytes)
      ensures
        r == NotPdf <==>
          !Oversized(info, body, maxBytes) && !Unreadable(info, body, maxBytes) && !Accepted(info, body, maxBytes)
      ensures Unreadable(info, body, maxBytes) ==> r == Unavailable
      ensures !Accepted(info, body, maxBytes) ==> stores.View() == old(stores.View()) && stores.log == old(stores.log)
      ensures
        Accepted(info, body, maxBytes) ==>
          && Ended() && first == old(stores.View()) && before == old(stores.log)
          && start == Upload(UPut, NO_DOC.(formats := info.formats, created := info.now), NO_JOB, body.value)
      ensures
        Accepted(info, body, maxBytes) ==>
          (r.Answered? <==> Smooth() && NewIds(first)) && (r.Answered? || r == Unavailable)
      ensures r.Answered? ==> body.Some? && Uploaded(first, info, body.value, r.value.0, r.value.1)
    {
      hide PdfName, PdfType, HasPdfMagic, Moves, Told, Smooth;
      if info.size > maxBytes {
        return TooLarge;
      }
      if !PdfName(info.name) {
        return NotPdf;
      }
      if body == None {
        return Unavailable;
      }
      var payload := body.value;
      if |payload| > maxBytes {
        return TooLarge;
      }
      if !HasPdfMagic(payload) || !PdfType(info.contentType) {
        return NotPdf;
      }
      r := StoreUpload(info, payload);
    }

    /** The identifiers taken next are not in use. */
    predicate NewIds(w: World) { w.nextId !in w.docs && w.nextId + 1 !in w.jobs }

    /** All that an upload leaves behind: the original, a queued document that asks for all three
        formats when the caller names none, and a queued job. */
    ghost predicate Uploaded(w: World, info: FileInfo, body: Bytes, doc: Id, job: Id)
      reads stores.Repr()
    {
      var formats := if info.formats == [] then ["markdown", "docx", "json"] else info.formats;
      && doc == w.nextId && job == w.nextId + 1
      && stores.View()
        == w.(docs := w.docs[doc := Document(doc, Original(doc), DocQueued, formats, 0, info.now)],
              jobs := w.jobs[job := Job(job, doc, Queued, AtQueued, 0, NoError, 0, 0, None)],
              objects := w.objects[Original(doc) := body], nextId := w.nextId + 2)
    }

    method StoreUpload(info: FileInfo, body: Bytes) returns (r: Reply<(Id, Id)>)
      requires stores.Valid()
      modifies Frame()
      ensures Ended() && first == old(stores.View()) && before == old(stores.log) && (r.Answered? || r == Unavailable)
      ensures start == Upload(UPut, NO_DOC.(formats := info.formats, created := info.now), NO_JOB, body)
      ensures r.Answered? <==> Smooth() && NewIds(first)
      ensures r.Answered? ==> Uploaded(first, info, body, r.value.0, r.value.1)
    {
      hide Moves, Told, Smooth, StepCancel, StepRetry, StepSave, StepRegenerate, Step;
      Begin(Upload(UPut, NO_DOC.(formats := info.formats, created := info.now), NO_JOB, body));
      ghost var w, l := stores.View(), stores.log;
      var docId := stores.NewId();
      var jobId := stores.NewId();
      var formats := info.formats;
      if |formats| == 0 {
        formats := ["markdown", "docx", "json"];
      }
      var doc := Document(docId, Original(docId), DocQueued, formats, 0, info.now);
      r := StoreOriginal(w, l, doc, Job(jobId, docId, Queued, AtQueued, 0, NoError, 0, 0, None), body);
    }

    function Stored(w: World, doc: Document, job: Job, body: Bytes): World {
      World(w.docs[doc.id := doc], w.jobs[job.id := job], w.arts, w.objects[Original(doc.id) := body], w.nextId + 2)
    }

    method StoreOriginal(ghost w: World, ghost l: seq<Call>, doc: Document, job: Job, body: Bytes)
      returns (r: Reply<(Id, Id)>)
      requires stores.Valid() && Moves(cfg, first, start, moves) == (w, proc) && Smooth()
      requires l == stores.log == before + Told(cfg, first, start, moves)
      requires proc.Upload? && proc.pc == UPut && proc.payload == body && doc.id == w.nextId && job.id == w.nextId + 1
      requires stores.View() == w.(nextId := w.nextId + 2)
      requires
        doc == Document(doc.id, Original(doc.id), DocQueued,
                        if proc.udoc.formats == [] then ["markdown", "docx", "json"] else proc.udoc.formats,
                        0, proc.udoc.created)
      requires job == Job(job.id, doc.id, Queued, AtQueued, 0, NoError, 0, 0, None)
      modifies Frame()
      ensures Ended() && first == old(first) && before == old(before) && start == old(start)
        && (r.Answered? || r == Unavailable)
      ensures r.Answered? <==> Smooth() && NewIds(w)
      ensures r.Answered? ==> r.value == (doc.id, job.id) && stores.View() == Stored(w, doc, job, body)
    {
      hide Moves, Told, Smooth;
      var ok := PutOriginal(w, l, doc, job, body);
      if !ok {
        return Unavailable;
      }
      r := Register(doc, job);
    }

    method PutOriginal(ghost w: World, ghost l: seq<Call>, doc: Document, ghost job: Job, body: Bytes)
      returns (ok: bool)
      requires stores.Valid() && Moves(cfg, first, start, moves) == (w, proc)
      requires l == stores.log == before + Told(cfg, first, start, moves)
      requires proc.Upload? && proc.pc == UPut && proc.payload == body && doc.id == w.nextId && job.id == w.nextId + 1
      requires stores.View() == w.(nextId := w.nextId + 2)
      requires
        doc == Document(doc.id, Original(doc.id), DocQueued,
                        if proc.udoc.formats == [] then ["markdown", "docx", "json"] else proc.udoc.formats,
                        0, proc.udoc.created)
      requires job == Job(job.id, doc.id, Queued, AtQueued, 0, NoError, 0, 0, None)
      modifies Frame()
      ensures first == old(first) && before == old(before) && start == old(start)
      ensures Smooth() == (old(Smooth()) && ok)
      ensures !ok ==> Ended()
      ensures ok ==> proc.Upload? && proc.pc == UCreateDoc && proc.udoc == doc && proc.ujob == job && At(proc)
      ensures ok ==> stores.View() == w.(objects := w.objects[Original(doc.id) := body], nextId := w.nextId + 2)
      ensures stores.View().docs == w.docs && stores.View().jobs == w.jobs
    {
      hide Moves, Told, Asked, Smooth, StepProc;
      ghost var f: Fault;
      ok, f := stores.PutObject(Original(doc.id), body);
      PutStep(cfg, w, proc, f);
      Tick(f, 0, w, l);
    }

    method Register(doc: Document, job: Job) returns (r: Reply<(Id, Id)>)
      requires proc.Upload? && proc.pc == UCreateDoc && proc.udoc == doc && proc.ujob == job && At(proc)
      requires Smooth()
      modifies Frame()
      ensures Ended() && first == old(first) && before == old(before) && start == old(start)
        && (r.Answered? || r == Unavailable)
      ensures r.Answered? <==> Smooth() && doc.id !in old(stores.View()).docs && job.id !in old(stores.View()).jobs
      ensures
        r.Answered? ==>
          var w := old(stores.View());
          && r.value == (doc.id, job.id)
          && stores.View() == w.(docs := w.docs[doc.id := doc], jobs := w.jobs[job.id := job])
    {
      hide Moves, Told, Smooth, StepCancel, StepRetry, StepSave, StepRegenerate, Step;
      ghost var w, l := stores.View(), stores.log;
      var e, f := stores.CreateDoc(doc);
      Tick(f, 0, w, l);
      if e != NoErr {
        return Unavailable;
      }
      r := EnqueueUpload(doc, job);
    }

    method EnqueueUpload(doc: Document, job: Job) returns (r: Reply<(Id, Id)>)
      requires proc.Upload? && proc.pc == UCreateJob && proc.udoc == doc && proc.ujob == job && At(proc) && Smooth()
      modifies Frame()
      ensures Ended() && first == old(first) && before == old(before) && start == old(start)
        && (r.Answered? || r == Unavailable)
      ensures r.Answered? ==> r.value == (doc.id, job.id)
      ensures r.Answered? ==> stores.View() == old(stores.View()).(jobs := old(stores.View()).jobs[job.id := job])
      ensures r.Answered? <==> Smooth() && job.id !in old(stores.View()).jobs
    {
      hide Moves, Told, Smooth, StepCancel, StepRetry, StepSave, StepRegenerate, Step, Domain.UpdateJob;
      ghost var w, l := stores.View(), stores.log;
      var e, f := stores.CreateJob(job);
      Tick(f, 0, w, l);
      if e != NoErr {
        return Unavailable;
      }
      r := PublishUpload(doc, job);
    }

    method PublishUpload(doc: Document, job: Job) returns (r: Reply<(Id, Id)>)
      requires proc.Upload? && proc.pc == UPublish && proc.ujob == job && At(proc)
      modifies Frame()
      ensures Ended() && first == old(first) && before == old(before) && start == old(start)
      ensures r == if r.Answered? then Answered((doc.id, job.id)) else Unavailable
      ensures r.Answered? ==> stores.View() == old(stores.View())
      ensures Smooth() == (old(Smooth()) && r.Answered?)
    {
      hide Moves, Told, Smooth, StepCancel, StepRetry, StepSave, StepRegenerate, Step, Domain.UpdateJob;
      ghost var w, l := stores.View(), stores.log;
      var published: bool := *;
      Tick(if published then Fine else Reject, 0, w, l);
      if !published {
        var _, g := stores.UpdateJob(job.(status := Failed, error := InternalError));
        Tick(g, 0, w, l);
        return Unavailable;
      }
      r := Answered((doc.id, job.id));
    }

    // ---------- cancel ----------

    predicate Over(j: Job) { j.status == Completed || j.status == Failed || j.status == Cancelled }

    /** A job that is over comes back as it is; any other comes back, and is stored, as
        cancelled, and so is its document when nothing fails. */
    method CancelJob(id: Id) returns (r: Reply<Job>)
      requires stores.Valid()
      modifies Frame()
      ensures Ended() && first == old(stores.View()) && before == old(stores.log)
        && start == Cancel(id, CGetJob, NO_JOB, NO_DOC)
      ensures r.Answered? || r == NoSuch || r == Unavailable
      ensures r == Unavailable ==> !Smooth()
      ensures r == NoSuch ==> id !in first.jobs
      ensures r.Answered? ==> id in first.jobs
      ensures
        r.Answered? ==>
          var job := first.jobs[id];
          r.value == if Over(job) then job else job.(status := Cancelled, error := JobCancelled, stage := AtCancelled)
      ensures stores.View().jobs == if r.Answered? then first.jobs[id := r.value] else first.jobs
      ensures
        r.Answered? && !Over(first.jobs[id]) && Smooth() && r.value.doc in first.docs ==>
          stores.View().docs == first.docs[r.value.doc := first.docs[r.value.doc].(status := DocCancelled)]
      ensures r.Answered? && Over(first.jobs[id]) ==> stores.View() == first
    {
      hide Moves, Told, Smooth, StepUpload, StepRetry, StepSave, StepRegenerate, Step;
      Begin(Cancel(id, CGetJob, NO_JOB, NO_DOC));
      ghost var w, l := stores.View(), stores.log;
      var a, f := stores.GetJob(id);
      Tick(f, 0, w, l);
      if !a.Found? {
        return if a.Down? then Unavailable else NoSuch;
      }
      var job := a.value;
      if job.status == Completed || job.status == Failed || job.status == Cancelled {
        assert first.jobs[id := job] == first.jobs;
        return Answered(job);
      }
      r := CancelOpen(job.(status := Cancelled, error := JobCancelled, stage := AtCancelled));
    }

    method CancelOpen(job: Job) returns (r: Reply<Job>)
      requires proc.Cancel? && proc.cpc == CUpdateJob && proc.cjob == job && At(proc)
      requires job.id in stores.View().jobs
      modifies Frame()
      ensures Ended() && first == old(first) && before == old(before) && start == old(start)
      ensures r == if r.Answered? then Answered(job) else Unavailable
      ensures Smooth() ==> old(Smooth()) && r.Answered?
      ensures stores.View().jobs == if r.Answered? then old(stores.View()).jobs[job.id := job]
        else old(stores.View()).jobs
      ensures
        r.Answered? && Smooth() && job.doc in old(stores.View()).docs ==>
          var docs := old(stores.View()).docs;
          stores.View().docs == docs[job.doc := docs[job.doc].(status := DocCancelled)]
    {
      hide Moves, Told, Smooth, StepUpload, StepRetry, StepSave, StepRegenerate, Step;
      ghost var w, l := stores.View(), stores.log;
      var e, g := stores.UpdateJob(job);
      Tick(g, 0, w, l);
      if e != NoErr {
        return Unavailable;
      }
      CancelDocument(job);
      r := Answered(job);
    }

    method CancelDocument(job: Job)
      requires proc.Cancel? && proc.cpc == CGetDoc && proc.cjob == job && At(proc)
      modifies Frame()
      ensures Ended() && first == old(first) && before == old(before) && start == old(start)
      ensures Smooth() ==> old(Smooth())
      ensures stores.View().jobs == old(stores.View()).jobs
      ensures
        Smooth() && job.doc in old(stores.View()).docs ==>
          var docs := old(stores.View()).docs;
          stores.View().docs == docs[job.doc := docs[job.doc].(status := DocCancelled)]
    {
      hide Moves, Told, Smooth, StepUpload, StepRetry, StepSave, StepRegenerate, Step;
      ghost var w, l := stores.View(), stores.log;
      var d, f := stores.GetDoc(job.doc);
      Tick(f, 0, w, l);
      if d.Found? {
        l := stores.log;
        var _, g := stores.UpdateDoc(d.value.(status := DocCancelled));
        Tick(g, 0, w, l);
      }
    }

    // ---------- retry ----------

    predicate Retryable(j: Job) {
      (j.status == Failed || j.status == Cancelled) && j.attempts + 1 < MaxAttempts(cfg.maxAttempts)
    }

    /** A failed or cancelled job with attempts left is followed by a new queued one that has
        used one attempt more; any other is refused. */
    method RetryJob(id: Id) returns (r: Reply<Job>)
      requires stores.Valid()
      modifies Frame()
      ensures Ended() && first == old(stores.View()) && before == old(stores.log)
        && start == Retry(id, RGetJob, NO_JOB, NO_DOC)
      ensures r.Answered? || r == NoSuch || r == Refused || r == Unavailable
      ensures r == Unavailable ==> !Smooth() || first.nextId in first.jobs
      ensures r == NoSuch ==> id !in first.jobs || (Retryable(first.jobs[id]) && first.jobs[id].doc !in first.docs)
      ensures r == Refused ==> id in first.jobs && !Retryable(first.jobs[id])
      ensures
        r.Answered? ==>
          && id in first.jobs && Retryable(first.jobs[id]) && first.jobs[id].doc in first.docs
              && first.nextId !in first.jobs
          && stores.View().jobs == first.jobs[first.nextId := r.value]
      ensures
        r.Answered? ==>
          var job := first.jobs[id];
          var n := job.attempts + 1;
          r.value == Job(first.nextId, job.doc, Queued, AtQueued, 0, NoError, n, n, Some(id))
      ensures
        r.Answered? && Smooth() ==>
          var doc := first.jobs[id].doc;
          stores.View().docs == first.docs[doc := first.docs[doc].(status := DocQueued)]
      ensures r == NoSuch || r == Refused ==> stores.View() == first
    {
      hide Moves, Told, Smooth, StepUpload, StepCancel, StepSave, StepRegenerate, Step, Domain.UpdateDoc;
      Begin(Retry(id, RGetJob, NO_JOB, NO_DOC));
      ghost var w, l := stores.View(), stores.log;
      var a, f := stores.GetJob(id);
      Tick(f, 0, w, l);
      if !a.Found? {
        return if a.Down? then Unavailable else NoSuch;
      }
      var prev := a.value;
      if prev.status != Failed && prev.status != Cancelled {
        return Refused;
      }
      if prev.attempts + 1 >= MaxAttempts(cfg.maxAttempts) {
        return Refused;
      }
      r := RetryDocument(prev);
    }

    method RetryDocument(prev: Job) returns (r: Reply<Job>)
      requires proc == Retry(prev.id, RGetDoc, prev, NO_DOC) && At(proc)
      modifies Frame()
      ensures Ended() && first == old(first) && before == old(before) && start == old(start)
      ensures r.Answered? || r == NoSuch || r == Unavailable
      ensures r == Unavailable ==> !Smooth() || old(stores.View()).nextId in old(stores.View()).jobs
      ensures r == NoSuch ==> prev.doc !in old(stores.View()).docs && stores.View() == old(stores.View())
      ensures
        r.Answered? ==>
          var w := old(stores.View());
          && prev.doc in w.docs && w.nextId !in w.jobs && stores.View().jobs == w.jobs[w.nextId := r.value]
          && r.value == NextAttempt(w.nextId, prev.id, prev)
          && (Smooth() ==> stores.View().docs == w.docs[prev.doc := w.docs[prev.doc].(status := DocQueued)])
    {
      hide Moves, Told, Smooth, StepUpload, StepCancel, StepSave, StepRegenerate, Step, Domain.UpdateDoc;
      ghost var w, l := stores.View(), stores.log;
      var d, g := stores.GetDoc(prev.doc);
      Tick(g, 0, w, l);
      if !d.Found? {
        return if d.Down? then Unavailable else NoSuch;
      }
      r := CreateRetry(prev.id, prev, d.value);
    }

    method CreateRetry(id: Id, prev: Job, doc: Document) returns (r: Reply<Job>)
      requires proc == Retry(id, RCreateJob, prev, doc.(status := DocQueued)) && At(proc) && prev.id == id
      modifies Frame()
      ensures Ended() && first == old(first) && before == old(before) && start == old(start)
      ensures
        var job := NextAttempt(old(stores.View()).nextId, prev.id, prev);
        r == if r.Answered? then Answered(job) else Unavailable
      ensures r == Unavailable ==> !Smooth() || old(stores.View()).nextId in old(stores.View()).jobs
      ensures
        r.Answered? ==>
          r.value.id !in old(stores.View()).jobs && stores.View().jobs == old(stores.View()).jobs[r.value.id := r.value]
      ensures Smooth() ==> old(Smooth())
      ensures
        r.Answered? && Smooth() && doc.id in old(stores.View()).docs ==>
          stores.View().docs == old(stores.View()).docs[doc.id := doc.(status := DocQueued)]
    {
      hide Moves, Told, Smooth, StepUpload, StepCancel, StepSave, StepRegenerate, Step;
      ghost var w, l := stores.View(), stores.log;
      var jobId := stores.NewId();
      var job := NextAttempt(jobId, id, prev);
      var e, f := stores.CreateJob(job);
      if e != NoErr {
        Tick(if f == StoreDown then StoreDown else Reject, 0, w, l);
        return Unavailable;
      }
      Tick(Fine, 0, w, l);
      r := RequeueDocument(job, doc.(status := DocQueued));
    }

    method RequeueDocument(job: Job, doc: Document) returns (r: Reply<Job>)
      requires proc.Retry? && proc.rpc == RUpdateDoc && proc.rjob == job && proc.rdoc == doc && At(proc)
      modifies Frame()
      ensures Ended() && first == old(first) && before == old(before) && start == old(start)
      ensures r == if r.Answered? then Answered(job) else Unavailable
      ensures r == Unavailable ==> !Smooth()
      ensures r.Answered? ==> stores.View().jobs == old(stores.View()).jobs
      ensures Smooth() ==> old(Smooth())
      ensures
        r.Answered? && Smooth() && doc.id in old(stores.View()).docs ==>
          stores.View().docs == old(stores.View()).docs[doc.id := doc]
    {
      hide Moves, Told, Smooth, StepUpload, StepCancel, StepSave, StepRegenerate, Step;
      ghost var w, l := stores.View(), stores.log;
      var _, g := stores.UpdateDoc(doc);
      Tick(g, 0, w, l);
      r := EnqueueRetry(job);
    }

    method EnqueueRetry(job: Job) returns (r: Reply<Job>)
      requires proc.Retry? && proc.rpc == RPublish && proc.rjob == job && At(proc)
      modifies Frame()
      ensures Ended() && first == old(first) && before == old(before) && start == old(start)
      ensures r == if r.Answered? then Answered(job) else Unavailable
      ensures r == Unavailable ==> !Smooth()
      ensures r.Answered? ==> stores.View() == old(stores.View())
      ensures Smooth() ==> old(Smooth())
    {
      hide Moves, Told, Smooth, StepUpload, StepCancel, StepSave, StepRegenerate, Step, Domain.UpdateJob;
      ghost var w, l := stores.View(), stores.log;
      var published: bool := *;
      Tick(if published then Fine else Reject, 0, w, l);
      if !published {
        var _, g := stores.UpdateJob(job.(status := Failed, error := InternalError));
        Tick(g, 0, w, l);
        return Unavailable;
      }
      r := Answered(job);
    }

    // ---------- markdown ----------

    /** The row is stored as answered, and its object is the text. */
    ghost predicate Written(a: Artifact, doc: Id, body: Bytes)
      reads stores.Repr()
    {
      && Matches(a, doc, ExportKind, Markdown) && a.size == |body|
      && a.id in stores.View().arts && stores.View().arts[a.id] == a
      && a.key in stores.View().objects && stores.View().objects[a.key] == body
    }

    /** What SaveMarkdown and RegenerateMarkdown do with the new text. */
    method Overwrite(doc: Id, body: Bytes) returns (r: Reply<Artifact>)
      requires (proc.Save? && proc.sdoc == doc && proc.spc == SFind && proc.body == body)
               || (proc.Regenerate? && proc.gdoc == doc && proc.gpc == SFind && proc.gbody == body)
      requires At(proc)
      modifies Frame()
      ensures Ended() && first == old(first) && before == old(before) && start == old(start)
      ensures r.Answered? || r == NoSuch || r == Unavailable
      ensures Smooth() ==> old(Smooth())
      ensures r == Unavailable ==> !Smooth()
      ensures r == NoSuch ==>
        !HasRow(old(stores.View()), doc, ExportKind, Markdown) && stores.View() == old(stores.View())
      ensures r.Answered? ==> Smooth() == old(Smooth()) && Written(r.value, doc, body)
    {
      hide Moves, Told, Smooth, StepUpload, StepCancel, StepRetry, Step, HasRow;
      ghost var w, l := stores.View(), stores.log;
      var a, f := stores.FindArtifact(doc, ExportKind, Markdown);
      Tick(f, if a.Found? then a.value.id else 0, w, l);
      if !a.Found? {
        return if a.Down? then Unavailable else NoSuch;
      }
      r := WriteMarkdown(a.value, body);
    }

    method WriteMarkdown(found: Artifact, body: Bytes) returns (r: Reply<Artifact>)
      requires (proc.Save? && proc.spc == SPut && proc.body == body && proc.sart == found)
               || (proc.Regenerate? && proc.gpc == SPut && proc.gbody == body && proc.gart == found)
      requires At(proc) && found.id in stores.View().arts
      modifies Frame()
      ensures Ended() && first == old(first) && before == old(before) && start == old(start)
      ensures r == if r.Answered? then Answered(found.(size := |body|)) else Unavailable
      ensures Smooth() == (old(Smooth()) && r.Answered?)
      ensures r.Answered? ==> found.id in stores.View().arts && stores.View().arts[found.id] == r.value
      ensures r.Answered? ==> found.key in stores.View().objects && stores.View().objects[found.key] == body
    {
      hide Moves, Told, Smooth, StepUpload, StepCancel, StepRetry, Step, HasRow;
      ghost var w, l := stores.View(), stores.log;
      var ok, f := stores.PutObject(found.key, body);
      Tick(f, 0, w, l);
      if !ok {
        return Unavailable;
      }
      r := UpdateRow(found.(size := |body|));
    }

    method UpdateRow(art: Artifact) returns (r: Reply<Artifact>)
      requires (proc.Save? && proc.spc == SUpdate && proc.sart == art)
        || (proc.Regenerate? && proc.gpc == SUpdate && proc.gart == art)
      requires At(proc) && art.id in stores.View().arts
      modifies Frame()
      ensures Ended() && first == old(first) && before == old(before) && start == old(start)
      ensures r == if r.Answered? then Answered(art) else Unavailable
      ensures Smooth() == (old(Smooth()) && r.Answered?)
      ensures r.Answered? ==> stores.View() == old(stores.View()).(arts := old(stores.View()).arts[art.id := art])
    {
      hide Moves, Told, Smooth, StepUpload, StepCancel, StepRetry, Step, HasRow;
      ghost var w, l := stores.View(), stores.log;
      var ok, f := stores.UpdateArtifact(art);
      Tick(f, 0, w, l);
      r := if ok then Answered(art) else Unavailable;
    }

    method SaveMarkdown(doc: Id, body: Bytes) returns (r: Reply<Artifact>)
      requires stores.Valid()
      modifies Frame()
      ensures Ended() && first == old(stores.View()) && before == old(stores.log)
        && start == Save(doc, SGetDoc, NO_ART, body)
      ensures r.Answered? || r == NoSuch || r == Unavailable
      ensures r == Unavailable ==> !Smooth()
      ensures
        r == NoSuch ==>
          (doc !in first.docs || !HasRow(first, doc, ExportKind, Markdown)) && stores.View() == first
      ensures r.Answered? ==> Smooth() && doc in first.docs && Written(r.value, doc, body)
    {
      hide Moves, Told, Smooth, StepUpload, StepCancel, StepRetry, StepOverwrite, Step, HasRow;
      Begin(Save(doc, SGetDoc, NO_ART, body));
      ghost var w, l := stores.View(), stores.log;
      var d, f := stores.GetDoc(doc);
      Tick(f, 0, w, l);
      if !d.Found? {
        return if d.Down? then Unavailable else NoSuch;
      }
      r := Overwrite(doc, body);
    }

    /** What an answered RegenerateMarkdown has written: the rendering of a CDOM that the
        document's rows named. */
    ghost predicate Rendered(w: World, a: Artifact, doc: Id)
      reads stores.Repr()
    {
      exists c :: c in w.arts && Matches(w.arts[c], doc, CdomKind, Json) && w.arts[c].key in w.objects
                  && Written(a, doc, cfg.render(Markdown, w.objects[w.arts[c].key]))
    }

    /** Something that it needs is not there. */
    ghost predicate Incomplete(w: World, doc: Id) {
      doc !in w.docs || !HasRow(w, doc, CdomKind, Json) || !HasRow(w, doc, ExportKind, Markdown)
      || exists c :: c in w.arts && Matches(w.arts[c], doc, CdomKind, Json) && w.arts[c].key !in w.objects
    }

    method RegenerateMarkdown(doc: Id) returns (r: Reply<Artifact>)
      requires stores.Valid()
      modifies Frame()
      ensures Ended() && first == old(stores.View()) && before == old(stores.log)
        && start == Regenerate(doc, SGetDoc, NO_ART, [])
      ensures r.Answered? || r == NoSuch || r == Refused || r == Unavailable
      ensures r == Unavailable || r == Refused ==> !Smooth()
      ensures r == NoSuch ==> Incomplete(first, doc)
      ensures r == NoSuch || r == Refused ==> stores.View() == first
      ensures r.Answered? ==> Smooth() && doc in first.docs && Rendered(first, r.value, doc)
    {
      hide Moves, Told, Smooth, StepUpload, StepCancel, StepRetry, StepOverwrite, Step, HasRow, Rendered, Written;
      Begin(Regenerate(doc, SGetDoc, NO_ART, []));
      ghost var w, l := stores.View(), stores.log;
      var d, f := stores.GetDoc(doc);
      Tick(f, 0, w, l);
      if !d.Found? {
        return if d.Down? then Unavailable else NoSuch;
      }
      l := stores.log;
      var a, g := stores.FindArtifact(doc, CdomKind, Json);
      Tick(g, if a.Found? then a.value.id else 0, w, l);
      if !a.Found? {
        return if a.Down? then Unavailable else NoSuch;
      }
      r := Reexport(doc, a.value);
    }

    method Reexport(doc: Id, cdom: Artifact) returns (r: Reply<Artifact>)
      requires proc.Regenerate? && proc.gdoc == doc && proc.gpc == SReadCdom && proc.gart == cdom && At(proc)
      requires cdom.id in stores.View().arts && stores.View().arts[cdom.id] == cdom
        && Matches(cdom, doc, CdomKind, Json)
      modifies Frame()
      ensures Ended() && first == old(first) && before == old(before) && start == old(start)
      ensures r.Answered? || r == NoSuch || r == Refused || r == Unavailable
      ensures r == Unavailable || r == Refused ==> !Smooth()
      ensures r == NoSuch ==> Incomplete(old(stores.View()), doc)
      ensures r == NoSuch || r == Refused ==> stores.View() == old(stores.View())
      ensures r.Answered? ==> Smooth() == old(Smooth()) && Rendered(old(stores.View()), r.value, doc)
    {
      hide Moves, Told, Smooth, StepUpload, StepCancel, StepRetry, StepOverwrite, Step, HasRow, Written;
      ghost var w, l := stores.View(), stores.log;
      var raw, f := stores.GetObject(cdom.key);
      if !raw.Found? {
        Tick(f, 0, w, l);
        return if raw.Down? then Unavailable else NoSuch;
      }
      var broken: bool := *;
      Tick(if broken then Reject else Fine, 0, w, l);
      if broken {
        return Refused;
      }
      r := Overwrite(doc, cfg.render(Markdown, raw.value));
    }

    // ---------- deletion ----------

    /** DeleteDocument reads the row and deletes as the sweeper does: it is answered exactly when
        the document's own row went, and without an error all of the document is gone. */
    method DeleteDocument(id: Id) returns (r: Reply<Id>, ghost run: seq<Call>)
      requires stores.Valid()
      modifies Frame()
      ensures stores.Valid() && (r == Answered(id) || r == NoSuch || r == Unavailable)
      ensures
        exists f ::
          && stores.log == old(stores.log) + [Call(DocRead(id), f)] + run
          && (r == NoSuch <==> f == Fine && id !in old(stores.View()).docs)
          && (f != Fine ==> r == Unavailable)
          && (f != Fine || r == NoSuch ==> run == [] && stores.View() == old(stores.View()))
          && (f == Fine && r != NoSuch ==>
                && id in old(stores.View()).docs && D.IsDeletion(old(stores.View()), old(stores.View()).docs[id], run)
                && (r.Answered? <==> D.Done(run, DocGone(id))))
      ensures stores.View() == D.After(old(stores.View()), run)
      ensures
        C.Smooth(stores.log[|old(stores.log)|..]) ==>
          r != Unavailable && (r.Answered? ==> stores.View() == D.Without(old(stores.View()), {id}))
    {
      hide D.After, D.Without, D.IsDeletion, D.Done, C.Smooth, D.Partly;
      ghost var w, l := stores.View(), stores.log;
      var d, f := stores.GetDoc(id);
      run := [];
      D.AfterNothing(w, []);
      LogSplits(l, f, id, []);
      if !d.Found? {
        return if d.Down? then Unavailable else NoSuch, run;
      }
      var ok;
      ok, run := Sweeper.DeleteDocument(stores, d.value);
      LogSplits(l, f, id, run);
      r := if ok then Answered(id) else Unavailable;
    }

    lemma LogSplits(l: seq<Call>, f: Fault, id: Id, run: seq<Call>)
      ensures
        var all := l + [Call(DocRead(id), f)] + run;
        |l| <= |all| && (C.Smooth(all[|l|..]) <==> f == Fine && C.Smooth(run))
      ensures l + [Call(DocRead(id), f)] + [] == l + [Call(DocRead(id), f)]
    {
      var all := l + [Call(DocRead(id), f)] + run;
      assert all[|l|..] == [Call(DocRead(id), f)] + run;
      C.SmoothJoins([Call(DocRead(id), f)], run);
      assert [Call(DocRead(id), f)][0].fault == f;
    }
  }
}
