/** The stores as their clients see them: any call may fail, and a call that fails has
    no effect. Which calls fail is given, by their number; every call is logged. */
module Backend {
  import opened Domain
  import opened Stores
  import opened Calls

  datatype Err = NoErr | NotFound | StoreErr | CancelledErr

  datatype Answer<+T> = Found(value: T) | Missing | Down

  /** The rows of a document, each once. */
  ghost predicate Listed(out: seq<Artifact>, arts: map<Id, Artifact>, doc: Id) {
    && (forall i :: 0 <= i < |out| ==> out[i].id in arts && arts[out[i].id] == out[i] && out[i].doc == doc)
    && (forall k :: k in arts && arts[k].doc == doc ==> arts[k] in out)
  }

  function JobsWithout(jobs: map<Id, Job>, ids: set<Id>): map<Id, Job> {
    map j | j in jobs && jobs[j].doc !in ids :: jobs[j]
  }

  function ArtsWithout(arts: map<Id, Artifact>, ids: set<Id>): map<Id, Artifact> {
    map a | a in arts && arts[a].doc !in ids :: arts[a]
  }

  class Backend {
    const documents: DocumentRepo
    const jobs: JobRepo
    const artifacts: ArtifactRepo
    const objects: ObjectStore
    /** The source of fresh identifiers. */
    var nextId: Id
    /** Which calls find their store down. */
    const down: nat -> bool
    var calls: nat
    ghost var log: seq<Call>

    constructor (documents: DocumentRepo, jobs: JobRepo, artifacts: ArtifactRepo, objects: ObjectStore,
                 down: nat -> bool)
      ensures this.documents == documents && this.jobs == jobs && this.artifacts == artifacts && this.objects == objects
      ensures nextId == 0 && this.down == down && log == [] && calls == 0
    {
      this.documents, this.jobs, this.artifacts, this.objects := documents, jobs, artifacts, objects;
      this.nextId, this.down, this.calls, this.log := 0, down, 0, [];
    }

    ghost function Repr(): set<object> { {this, documents, jobs, artifacts, objects} }

    ghost predicate Valid()
      reads Repr()
    {
      documents.Valid() && jobs.Valid() && artifacts.Valid() && calls == |log| && Honest(log, down)
    }

    ghost function View(): World
      reads Repr()
    {
      World(documents.data, jobs.data, artifacts.data, objects.data, nextId)
    }

    /** The next call, which finds its store up or down. */
    method Ask(ghost op: Op) returns (up: bool, ghost f: Fault)
      requires calls == |log| && Honest(log, down)
      modifies this`calls, this`log
      ensures calls == |log| && Honest(log, down) && log == old(log) + [Call(op, f)]
      ensures up == !down(old(calls)) && f == if up then Fine else StoreDown
    {
      HonestSnoc(log, down, op);
      up := !down(calls);
      f := if up then Fine else StoreDown;
      calls, log := calls + 1, log + [Call(op, f)];
    }

    method GetJob(id: Id) returns (r: Answer<Job>, ghost f: Fault)
      requires Valid()
      modifies this`calls, this`log
      ensures Valid() && View() == old(View()) && log == old(log) + [Call(JobRead(id), f)]
      ensures f != Reject && (f == StoreDown <==> r == Down)
      ensures f == Fine ==> r == if id in View().jobs then Found(View().jobs[id]) else Missing
      ensures r.Found? ==> r.value.id == id
    {
      var up;
      up, f := Ask(JobRead(id));
      if !up {
        return Down, f;
      }
      var row := jobs.Get(id);
      r := if row.Some? then Found(row.value) else Missing;
    }

    method GetDoc(id: Id) returns (r: Answer<Document>, ghost f: Fault)
      requires Valid()
      modifies this`calls, this`log
      ensures Valid() && View() == old(View()) && log == old(log) + [Call(DocRead(id), f)]
      ensures f != Reject && (f == StoreDown <==> r == Down)
      ensures f == Fine ==> r == if id in View().docs then Found(View().docs[id]) else Missing
      ensures r.Found? ==> r.value.id == id
    {
      var up;
      up, f := Ask(DocRead(id));
      if !up {
        return Down, f;
      }
      var row := documents.Get(id);
      r := if row.Some? then Found(row.value) else Missing;
    }

    method GetObject(key: Key) returns (r: Answer<Bytes>, ghost f: Fault)
      requires Valid()
      modifies this`calls, this`log
      ensures Valid() && View() == old(View()) && log == old(log) + [Call(ObjectRead(key), f)]
      ensures f != Reject && (f == StoreDown <==> r == Down)
      ensures f == Fine ==> r == if key in View().objects then Found(View().objects[key]) else Missing
    {
      var up;
      up, f := Ask(ObjectRead(key));
      if !up {
        return Down, f;
      }
      var row := objects.Get(key);
      r := if row.Some? then Found(row.value) else Missing;
    }

    method UpdateJob(j: Job) returns (e: Err, ghost f: Fault)
      requires Valid()
      modifies this`calls, this`log, jobs
      ensures log == old(log) + [Call(JobSaved(j), f)]
      ensures Valid() && f != Reject && View() == Domain.UpdateJob(old(View()), j, f)
      ensures e == if f == StoreDown then StoreErr else if j.id in old(View()).jobs then NoErr else NotFound
    {
      var up;
      up, f := Ask(JobSaved(j));
      if !up {
        return StoreErr, f;
      }
      var ok := jobs.Update(j);
      e := if ok then NoErr else NotFound;
    }

    method UpdateDoc(d: Document) returns (e: Err, ghost f: Fault)
      requires Valid()
      modifies this`calls, this`log, documents
      ensures log == old(log) + [Call(DocSaved(d), f)]
      ensures Valid() && f != Reject && View() == Domain.UpdateDoc(old(View()), d, f)
      ensures e == if f == StoreDown then StoreErr else if d.id in old(View()).docs then NoErr else NotFound
    {
      var up;
      up, f := Ask(DocSaved(d));
      if !up {
        return StoreErr, f;
      }
      var ok := documents.Update(d);
      e := if ok then NoErr else NotFound;
    }

    method CreateJob(j: Job) returns (e: Err, ghost f: Fault)
      requires Valid()
      modifies this`calls, this`log, jobs
      ensures log == old(log) + [Call(JobMade(j), f)]
      ensures Valid() && f != Reject
      ensures e == if f == StoreDown || j.id in old(View()).jobs then StoreErr else NoErr
      ensures View() == if e == NoErr then old(View()).(jobs := old(View()).jobs[j.id := j]) else old(View())
    {
      var up;
      up, f := Ask(JobMade(j));
      if !up {
        return StoreErr, f;
      }
      var row := jobs.Get(j.id);
      if row.Some? {
        return StoreErr, f;  // primary key
      }
      jobs.Create(j);
      e := NoErr;
    }

    method CreateDoc(d: Document) returns (e: Err, ghost f: Fault)
      requires Valid()
      modifies this`calls, this`log, documents
      ensures log == old(log) + [Call(DocMade(d), f)]
      ensures Valid() && f != Reject
      ensures e == if f == StoreDown || d.id in old(View()).docs then StoreErr else NoErr
      ensures View() == if e == NoErr then old(View()).(docs := old(View()).docs[d.id := d]) else old(View())
    {
      var up;
      up, f := Ask(DocMade(d));
      if !up {
        return StoreErr, f;
      }
      var row := documents.Get(d.id);
      if row.Some? {
        return StoreErr, f;  // primary key
      }
      documents.Create(d);
      e := NoErr;
    }

    method NewId() returns (id: Id)
      modifies this`nextId
      ensures id == old(nextId) && nextId == old(nextId) + 1
    {
      id := nextId;
      nextId := nextId + 1;
    }

    method PutObject(key: Key, body: Bytes) returns (ok: bool, ghost f: Fault)
      requires Valid()
      modifies this`calls, this`log, objects
      ensures log == old(log) + [Call(ObjectPut(key, body), f)]
      ensures Valid() && f != Reject && ok == (f == Fine)
      ensures View() == if ok then old(View()).(objects := old(View()).objects[key := body]) else old(View())
    {
      ok, f := Ask(ObjectPut(key, body));
      if ok {
        objects.Put(key, body);
      }
    }

    method CreateArtifact(doc: Id, job: Id, kind: Kind, format: Format, key: Key, size: nat)
      returns (ok: bool, ghost f: Fault)
      requires Valid()
      modifies this`nextId, this`calls, this`log, artifacts
      ensures log == old(log) + [Call(RowMade(doc, job, kind, format, key, size), f)]
      ensures Valid() && f != Reject && ok == (f == Fine)
      ensures View() == if ok then Domain.CreateArtifact(old(View()), doc, job, kind, format, key, size)
        else old(View())
    {
      ok, f := Ask(RowMade(doc, job, kind, format, key, size));
      if ok {
        var id := NewId();
        artifacts.Create(Artifact(id, doc, job, kind, format, key, size));
      }
    }

    method UpdateArtifact(a: Artifact) returns (ok: bool, ghost f: Fault)
      requires Valid()
      modifies this`calls, this`log, artifacts
      ensures log == old(log) + [Call(RowSaved(a), f)]
      ensures Valid() && f != Reject && ok == (f == Fine && a.id in old(View()).arts)
      ensures View() == if ok then old(View()).(arts := old(View()).arts[a.id := a]) else old(View())
    {
      ok, f := Ask(RowSaved(a));
      if ok {
        ok := artifacts.Update(a);
      }
    }

    // ---------- listing and deleting ----------

    method ListRecent(limit: int) returns (r: Answer<seq<Document>>, ghost f: Fault)
      requires Valid()
      modifies this`calls, this`log
      ensures Valid() && View() == old(View()) && log == old(log) + [Call(DocsListed(limit), f)]
      ensures f != Reject && (f == StoreDown <==> r == Down) && r != Missing
      ensures r.Found? ==> Recent(r.value, View().docs, limit)
    {
      var up;
      up, f := Ask(DocsListed(limit));
      if !up {
        return Down, f;
      }
      var list := documents.ListRecent(limit);
      r := Found(list);
    }

    method ListArtifacts(doc: Id) returns (r: Answer<seq<Artifact>>, ghost f: Fault)
      requires Valid()
      modifies this`calls, this`log
      ensures Valid() && View() == old(View()) && log == old(log) + [Call(RowsListed(doc), f)]
      ensures f != Reject && (f == StoreDown <==> r == Down) && r != Missing
      ensures r.Found? ==> Listed(r.value, View().arts, doc)
    {
      var up;
      up, f := Ask(RowsListed(doc));
      if !up {
        return Down, f;
      }
      var list := artifacts.ListByDocument(doc);
      r := Found(list);
    }

    method DeleteObject(key: Key) returns (ghost f: Fault)
      requires Valid()
      modifies this`calls, this`log, objects
      ensures log == old(log) + [Call(ObjectGone(key), f)]
      ensures Valid() && f != Reject
      ensures View() == if f == Fine then old(View()).(objects := old(View()).objects - {key}) else old(View())
    {
      var up;
      up, f := Ask(ObjectGone(key));
      if up {
        objects.Delete(key);
      }
    }

    method DeleteArtifacts(doc: Id) returns (ghost f: Fault)
      requires Valid()
      modifies this`calls, this`log, artifacts
      ensures log == old(log) + [Call(RowsGone(doc), f)]
      ensures Valid() && f != Reject
      ensures View() == if f == Fine then old(View()).(arts := ArtsWithout(old(View()).arts, {doc})) else old(View())
    {
      var up;
      up, f := Ask(RowsGone(doc));
      if up {
        artifacts.DeleteByDocument(doc);
      }
    }

    method DeleteJobs(doc: Id) returns (ghost f: Fault)
      requires Valid()
      modifies this`calls, this`log, jobs
      ensures log == old(log) + [Call(JobsGone(doc), f)]
      ensures Valid() && f != Reject
      ensures View() == if f == Fine then old(View()).(jobs := JobsWithout(old(View()).jobs, {doc})) else old(View())
    {
      var up;
      up, f := Ask(JobsGone(doc));
      if up {
        jobs.DeleteByDocument(doc);
      }
    }

    method DeleteDoc(id: Id) returns (e: Err, ghost f: Fault)
      requires Valid()
      modifies this`calls, this`log, documents
      ensures log == old(log) + [Call(DocGone(id), f)]
      ensures Valid() && f != Reject
      ensures e == if f == StoreDown then StoreErr else if id in old(View()).docs then NoErr else NotFound
      ensures View() == if f == Fine then old(View()).(docs := old(View()).docs - {id}) else old(View())
    {
      var up;
      up, f := Ask(DocGone(id));
      if !up {
        return StoreErr, f;
      }
      var ok := documents.Delete(id);
      e := if ok then NoErr else NotFound;
    }

    /** findArtifact. Of several rows any may come first. */
    method FindArtifact(doc: Id, kind: Kind, format: Format) returns (r: Answer<Artifact>, ghost f: Fault)
      requires Valid()
      modifies this`calls, this`log
      ensures Valid() && View() == old(View()) && log == old(log) + [Call(RowsListed(doc), f)]
      ensures f != Reject && (f == StoreDown <==> r == Down)
        && (f == Fine ==> (r.Found? <==> HasRow(View(), doc, kind, format)))
      ensures r.Found? ==>
        r.value.id in View().arts && View().arts[r.value.id] == r.value && Matches(r.value, doc, kind, format)
    {
      var up;
      up, f := Ask(RowsListed(doc));
      if !up {
        return Down, f;
      }
      var list := artifacts.ListByDocument(doc);
      for i := 0 to |list|
        invariant forall k :: 0 <= k < i ==> !Matches(list[k], doc, kind, format)
      {
        if list[i].kind == kind && list[i].format == format {
          return Found(list[i]), f;
        }
      }
      r := Missing;
    }
  }
}
