/** What a deletion leaves: of one document, of the documents of a sweep, without errors and
    with calls that fail on the way. */
module Deletion {
  import opened Domain
  import opened Stores
  import opened Backend
  import opened Calls

  // ---------- everything of some documents ----------

  /** The keys that the rows of these documents name. */
  function KeysOf(w: World, ids: set<Id>): set<Key> {
    ArtKeys(w.arts, ids) + Sources(w.docs, ids)
  }

  function ArtKeys(arts: map<Id, Artifact>, ids: set<Id>): set<Key> {
    set a | a in arts && arts[a].doc in ids :: arts[a].key
  }

  function Sources(docs: map<Id, Document>, ids: set<Id>): set<Key> {
    set d | d in ids && d in docs :: docs[d].source
  }

  /** The stores without these documents, their jobs, their artifacts and the objects
      their rows name. */
  function Without(w: World, ids: set<Id>): World {
    World(w.docs - ids, JobsWithout(w.jobs, ids), ArtsWithout(w.arts, ids), w.objects - KeysOf(w, ids), w.nextId)
  }

  ghost predicate Part<K(!new), V>(a: map<K, V>, b: map<K, V>) { forall k :: k in a ==> k in b && a[k] == b[k] }

  /** Each row and object of a is one of b. */
  ghost predicate Below(a: World, b: World) {
    Part(a.docs, b.docs) && Part(a.jobs, b.jobs) && Part(a.arts, b.arts) && Part(a.objects, b.objects)
        && a.nextId == b.nextId
  }

  /** v is what deleting these documents from w may leave when calls fail on the way:
      something of them may still be there, and all else is. */
  ghost predicate Partly(w: World, v: World, ids: set<Id>) {
    Below(v, w) && Below(Without(w, ids), v)
  }

  lemma KeysTogether(w: World, ids: set<Id>, more: set<Id>)
    ensures KeysOf(w, ids + more) == KeysOf(w, ids) + KeysOf(w, more)
  {
    assert ArtKeys(w.arts, ids + more) == ArtKeys(w.arts, ids) + ArtKeys(w.arts, more);
    assert Sources(w.docs, ids + more) == Sources(w.docs, ids) + Sources(w.docs, more);
  }

  lemma ListedKeys(w: World, doc: Document, out: seq<Artifact>)
    requires Listed(out, w.arts, doc.id) && doc.id in w.docs && w.docs[doc.id] == doc
    ensures KeysOf(w, {doc.id}) == NamedBy(out) + {doc.source}
  {
    forall key | key in ArtKeys(w.arts, {doc.id})
      ensures key in NamedBy(out)
    {
      var a :| a in w.arts && w.arts[a].doc in {doc.id} && w.arts[a].key == key;
      var k :| 0 <= k < |out| && out[k] == w.arts[a];
    }
    assert forall k :: 0 <= k < |out| ==> out[k].id in w.arts && w.arts[out[k].id].key == out[k].key;
    assert ArtKeys(w.arts, {doc.id}) == NamedBy(out);
    assert Sources(w.docs, {doc.id}) == {doc.source};
  }

  function NamedBy(arts: seq<Artifact>): set<Key> { set k | 0 <= k < |arts| :: arts[k].key }

  // ---------- what a log of calls leaves ----------

  predicate Done(calls: seq<Call>, op: Op) { Call(op, Fine) in calls }

  ghost predicate Occurs(calls: seq<Call>, op: Op) { exists i :: 0 <= i < |calls| && calls[i].op == op }

  /** It was called, and the call failed every time. */
  ghost predicate Failed(calls: seq<Call>, op: Op) { Occurs(calls, op) && !Done(calls, op) }

  ghost function DocsAfter(docs: map<Id, Document>, calls: seq<Call>): map<Id, Document> {
    map d | d in docs && !Done(calls, DocGone(d)) :: docs[d]
  }

  ghost function JobsAfter(jobs: map<Id, Job>, calls: seq<Call>): map<Id, Job> {
    map j | j in jobs && !Done(calls, JobsGone(jobs[j].doc)) :: jobs[j]
  }

  ghost function ArtsAfter(arts: map<Id, Artifact>, calls: seq<Call>): map<Id, Artifact> {
    map a | a in arts && !Done(calls, RowsGone(arts[a].doc)) :: arts[a]
  }

  ghost function ObjectsAfter(objects: map<Key, Bytes>, calls: seq<Call>): map<Key, Bytes> {
    map k | k in objects && !Done(calls, ObjectGone(k)) :: objects[k]
  }

  /** The stores after these deletions: each row and object goes with the call that deletes
      it, and only with that. */
  ghost function After(w: World, calls: seq<Call>): World {
    World(DocsAfter(w.docs, calls), JobsAfter(w.jobs, calls), ArtsAfter(w.arts, calls),
          ObjectsAfter(w.objects, calls), w.nextId)
  }

  lemma Untouched(w: World, calls: seq<Call>)
    ensures (forall d :: !Done(calls, DocGone(d))) ==> DocsAfter(w.docs, calls) == w.docs
    ensures (forall d :: !Done(calls, JobsGone(d))) ==> JobsAfter(w.jobs, calls) == w.jobs
    ensures (forall d :: !Done(calls, RowsGone(d))) ==> ArtsAfter(w.arts, calls) == w.arts
    ensures (forall k :: !Done(calls, ObjectGone(k))) ==> ObjectsAfter(w.objects, calls) == w.objects
  {
    hide Done;
  }

  lemma AfterJoins(w: World, a: seq<Call>, b: seq<Call>)
    ensures After(After(w, a), b) == After(w, a + b)
  {}

  /** Calls that delete nothing. */
  lemma AfterNothing(w: World, calls: seq<Call>)
    requires forall i :: 0 <= i < |calls| && calls[i].fault == Fine ==>
      calls[i].op.RowsListed? || calls[i].op.DocsListed?
    ensures After(w, calls) == w
  {}

  lemma DoneOne(op: Op, f: Fault)
    ensures forall o :: Done([Call(op, f)], o) <==> f == Fine && o == op
  {}

  lemma ObjectsLess(objects: map<Key, Bytes>, k: Key)
    ensures ObjectsAfter(objects, [Call(ObjectGone(k), Fine)]) == objects - {k}
  {
    DoneOne(ObjectGone(k), Fine);
    hide Done;
  }

  lemma AfterObject(w: World, k: Key, f: Fault)
    ensures After(w, [Call(ObjectGone(k), f)]) == if f == Fine then w.(objects := w.objects - {k}) else w
  {
    ObjectsLess(w.objects, k);
    DoneOne(ObjectGone(k), f);
    Untouched(w, [Call(ObjectGone(k), f)]);
    hide Done, DocsAfter, JobsAfter, ArtsAfter, ObjectsAfter;
  }

  lemma ArtsLess(arts: map<Id, Artifact>, d: Id)
    ensures ArtsAfter(arts, [Call(RowsGone(d), Fine)]) == ArtsWithout(arts, {d})
  {
    DoneOne(RowsGone(d), Fine);
    hide Done;
  }

  lemma AfterRows(w: World, d: Id, f: Fault)
    ensures After(w, [Call(RowsGone(d), f)]) == if f == Fine then w.(arts := ArtsWithout(w.arts, {d})) else w
  {
    ArtsLess(w.arts, d);
    DoneOne(RowsGone(d), f);
    Untouched(w, [Call(RowsGone(d), f)]);
    hide Done, DocsAfter, JobsAfter, ArtsAfter, ObjectsAfter;
  }

  lemma JobsLess(jobs: map<Id, Job>, d: Id)
    ensures JobsAfter(jobs, [Call(JobsGone(d), Fine)]) == JobsWithout(jobs, {d})
  {
    DoneOne(JobsGone(d), Fine);
    hide Done;
  }

  lemma AfterJobs(w: World, d: Id, f: Fault)
    ensures After(w, [Call(JobsGone(d), f)]) == if f == Fine then w.(jobs := JobsWithout(w.jobs, {d})) else w
  {
    JobsLess(w.jobs, d);
    DoneOne(JobsGone(d), f);
    Untouched(w, [Call(JobsGone(d), f)]);
    hide Done, DocsAfter, JobsAfter, ArtsAfter, ObjectsAfter;
  }

  lemma DocsLess(docs: map<Id, Document>, d: Id)
    ensures DocsAfter(docs, [Call(DocGone(d), Fine)]) == docs - {d}
  {
    DoneOne(DocGone(d), Fine);
    hide Done;
  }

  lemma AfterDoc(w: World, d: Id, f: Fault)
    ensures After(w, [Call(DocGone(d), f)]) == if f == Fine then w.(docs := w.docs - {d}) else w
  {
    DocsLess(w.docs, d);
    DoneOne(DocGone(d), f);
    Untouched(w, [Call(DocGone(d), f)]);
    hide Done, DocsAfter, JobsAfter, ArtsAfter, ObjectsAfter;
  }

  // ---------- the calls of one deletion ----------

  function ObjectOps(arts: seq<Artifact>): (ops: seq<Op>)
    ensures |ops| == |arts| && forall i :: 0 <= i < |ops| ==> ops[i] == ObjectGone(arts[i].key)
  {
    seq(|arts|, i requires 0 <= i < |arts| => ObjectGone(arts[i].key))
  }

  function LastOps(doc: Document): seq<Op> {
    [RowsGone(doc.id), JobsGone(doc.id), ObjectGone(doc.source), DocGone(doc.id)]
  }

  ghost predicate Carried(calls: seq<Call>, ops: seq<Op>) {
    |calls| == |ops| && forall i :: 0 <= i < |ops| ==> calls[i].op == ops[i]
  }

  /** The rows were listed, and everything on the list is called for, whatever fails. */
  ghost predicate Carries(w: World, doc: Document, calls: seq<Call>, arts: seq<Artifact>) {
    && Listed(arts, w.arts, doc.id) && calls != [] && calls[0] == Call(RowsListed(doc.id), Fine)
    && Carried(calls[1..], ObjectOps(arts) + LastOps(doc))
  }

  ghost predicate IsDeletion(w: World, doc: Document, calls: seq<Call>) {
    calls == [Call(RowsListed(doc.id), StoreDown)] || exists arts :: Carries(w, doc, calls, arts)
  }

  lemma Occurring(calls: seq<Call>, ops: seq<Op>, op: Op)
    requires Carried(calls, ops)
    ensures Occurs(calls, op) <==> op in ops
  {
    if op in ops {
      var i :| 0 <= i < |ops| && ops[i] == op;
      assert calls[i].op == op;
    }
  }

  lemma OccursJoins(a: seq<Call>, b: seq<Call>, op: Op)
    ensures Occurs(a + b, op) <==> Occurs(a, op) || Occurs(b, op)
  {
    if Occurs(a, op) {
      var i :| 0 <= i < |a| && a[i].op == op;
      assert (a + b)[i].op == op;
    }
    if Occurs(b, op) {
      var i :| 0 <= i < |b| && b[i].op == op;
      assert (a + b)[|a| + i].op == op;
    }
  }

  lemma NamedOps(arts: seq<Artifact>, k: Key)
    ensures ObjectGone(k) in ObjectOps(arts) <==> k in NamedBy(arts)
  {
    if k in NamedBy(arts) {
      var i :| 0 <= i < |arts| && arts[i].key == k;
      assert ObjectOps(arts)[i] == ObjectGone(k);
    }
  }

  lemma OccursIn(w: World, doc: Document, calls: seq<Call>, arts: seq<Artifact>, op: Op)
    requires Carries(w, doc, calls, arts)
    ensures Occurs(calls, op) <==> op == RowsListed(doc.id) || op in ObjectOps(arts) || op in LastOps(doc)
  {
    hide Listed, Occurs, ObjectOps, LastOps;
    assert calls == [calls[0]] + calls[1..];
    OccursJoins([calls[0]], calls[1..], op);
    Occurring([calls[0]], [RowsListed(doc.id)], op);
    Occurring(calls[1..], ObjectOps(arts) + LastOps(doc), op);
  }

  /** What a full deletion calls for: all of the document, and nothing else. */
  lemma CallsFor(w: World, doc: Document, calls: seq<Call>, arts: seq<Artifact>)
    requires Carries(w, doc, calls, arts) && doc.id in w.docs && w.docs[doc.id] == doc
    ensures forall d :: Occurs(calls, DocGone(d)) <==> d == doc.id
    ensures forall d :: Occurs(calls, RowsGone(d)) <==> d == doc.id
    ensures forall d :: Occurs(calls, JobsGone(d)) <==> d == doc.id
    ensures forall k :: Occurs(calls, ObjectGone(k)) <==> k in KeysOf(w, {doc.id})
  {
    hide KeysOf, Carries, Occurs;
    CarriesListed(w, doc, calls, arts);
    hide Listed;
    forall op
      ensures Occurs(calls, op) <==> op == RowsListed(doc.id) || op in ObjectOps(arts) || op in LastOps(doc)
    {
      OccursIn(w, doc, calls, arts, op);
    }
    forall k
      ensures Occurs(calls, ObjectGone(k)) <==> k in KeysOf(w, {doc.id})
    {
      NamedOps(arts, k);
    }
  }

  lemma CarriesListed(w: World, doc: Document, calls: seq<Call>, arts: seq<Artifact>)
    requires Carries(w, doc, calls, arts) && doc.id in w.docs && w.docs[doc.id] == doc
    ensures KeysOf(w, {doc.id}) == NamedBy(arts) + {doc.source}
  {
    ListedKeys(w, doc, arts);
  }

  lemma DoneOccurs(calls: seq<Call>)
    ensures forall op :: Done(calls, op) ==> Occurs(calls, op)
    ensures Smooth(calls) ==> forall op :: Occurs(calls, op) ==> Done(calls, op)
  {
    forall op | Done(calls, op)
      ensures Occurs(calls, op)
    {
      var i :| 0 <= i < |calls| && calls[i] == Call(op, Fine);
    }
    if Smooth(calls) {
      forall op | Occurs(calls, op)
        ensures Done(calls, op)
      {
        var i :| 0 <= i < |calls| && calls[i].op == op;
        assert calls[i] == Call(op, Fine);
      }
    }
  }

  lemma NotListed(id: Id)
    ensures var calls := [Call(RowsListed(id), StoreDown)]; forall op :: !Done(calls, op)
    ensures var calls := [Call(RowsListed(id), StoreDown)]; !Smooth(calls)
  {
    var calls := [Call(RowsListed(id), StoreDown)];
    assert calls[0].fault == StoreDown;
  }

  lemma DeletesOwn(w: World, doc: Document, calls: seq<Call>)
    requires IsDeletion(w, doc, calls) && doc.id in w.docs && w.docs[doc.id] == doc
    ensures forall d :: Done(calls, DocGone(d)) || Done(calls, RowsGone(d)) || Done(calls, JobsGone(d)) ==> d == doc.id
    ensures forall k :: Done(calls, ObjectGone(k)) ==> k in KeysOf(w, {doc.id})
  {
    hide KeysOf, Carries, Occurs, Done;
    if calls == [Call(RowsListed(doc.id), StoreDown)] {
      NotListed(doc.id);
    } else {
      var arts :| Carries(w, doc, calls, arts);
      CallsFor(w, doc, calls, arts);
      DoneOccurs(calls);
    }
  }

  /** What must go with the document. */
  predicate Owned(w: World, id: Id, op: Op) {
    match op
    case DocGone(d) => d == id
    case RowsGone(d) => d == id
    case JobsGone(d) => d == id
    case ObjectGone(k) => k in KeysOf(w, {id})
    case _ => false
  }

  /** What is spared: all when the listing failed, and otherwise what failed to go. */
  lemma Spared(w: World, doc: Document, calls: seq<Call>, op: Op)
    requires IsDeletion(w, doc, calls) && doc.id in w.docs && w.docs[doc.id] == doc && Owned(w, doc.id, op)
    ensures calls != [] && (!Done(calls, op) <==> calls[0].fault != Fine || Failed(calls, op))
    ensures Smooth(calls) ==> Done(calls, op)
  {
    hide KeysOf, Carries, Occurs, Done;
    if calls == [Call(RowsListed(doc.id), StoreDown)] {
      NotListed(doc.id);
    } else {
      var arts :| Carries(w, doc, calls, arts);
      ListedFirst(w, doc, calls, arts);
      CallsFor(w, doc, calls, arts);
      DoneOccurs(calls);
    }
  }

  lemma ListedFirst(w: World, doc: Document, calls: seq<Call>, arts: seq<Artifact>)
    requires Carries(w, doc, calls, arts)
    ensures calls != [] && calls[0].fault == Fine
  {}

  /** A deletion takes away nothing but of its document; of the document a row or object
      stays exactly when the listing failed or its own deletion did. */
  lemma DeletionLeaves(w: World, doc: Document, calls: seq<Call>)
    requires IsDeletion(w, doc, calls) && doc.id in w.docs && w.docs[doc.id] == doc
    ensures calls != [] && Below(After(w, calls), w)
    ensures
      var v, down := After(w, calls), calls[0].fault != Fine;
      && (forall d :: d in w.docs ==>
            (d in v.docs <==> (d == doc.id ==> down || Failed(calls, DocGone(d)))))
      && (forall j :: j in w.jobs ==>
            (j in v.jobs <==> (w.jobs[j].doc == doc.id ==> down || Failed(calls, JobsGone(doc.id)))))
      && (forall a :: a in w.arts ==>
            (a in v.arts <==> (w.arts[a].doc == doc.id ==> down || Failed(calls, RowsGone(doc.id)))))
      && (forall k :: k in w.objects ==>
            (k in v.objects <==> (k in KeysOf(w, {doc.id}) ==> down || Failed(calls, ObjectGone(k)))))
  {
    hide KeysOf, Done, Failed, IsDeletion;
    DeletesOwn(w, doc, calls);
    Spared(w, doc, calls, DocGone(doc.id));
    Spared(w, doc, calls, JobsGone(doc.id));
    Spared(w, doc, calls, RowsGone(doc.id));
    forall k | k in KeysOf(w, {doc.id})
      ensures !Done(calls, ObjectGone(k)) <==> calls[0].fault != Fine || Failed(calls, ObjectGone(k))
    {
      Spared(w, doc, calls, ObjectGone(k));
    }
  }

  /** These calls delete only of these documents. */
  ghost predicate Within(w: World, calls: seq<Call>, ids: set<Id>) {
    && (forall d :: Done(calls, DocGone(d)) || Done(calls, RowsGone(d)) || Done(calls, JobsGone(d)) ==> d in ids)
    && forall k :: Done(calls, ObjectGone(k)) ==> k in KeysOf(w, ids)
  }

  /** They delete all of them. */
  ghost predicate Covering(w: World, calls: seq<Call>, ids: set<Id>) {
    && (forall d :: d in ids ==> Done(calls, DocGone(d)) && Done(calls, RowsGone(d)) && Done(calls, JobsGone(d)))
    && forall k :: k in KeysOf(w, ids) ==> Done(calls, ObjectGone(k))
  }

  lemma WithinPartly(w: World, calls: seq<Call>, ids: set<Id>)
    requires Within(w, calls, ids)
    ensures Partly(w, After(w, calls), ids)
  {
    hide KeysOf, Done;
  }

  lemma CoveringExact(w: World, calls: seq<Call>, ids: set<Id>)
    requires Within(w, calls, ids) && Covering(w, calls, ids)
    ensures After(w, calls) == Without(w, ids)
  {
    hide KeysOf, Done;
    assert After(w, calls).objects == w.objects - KeysOf(w, ids);
    assert After(w, calls).docs == w.docs - ids;
    assert After(w, calls).jobs == JobsWithout(w.jobs, ids);
    assert After(w, calls).arts == ArtsWithout(w.arts, ids);
  }

  lemma SmoothCovers(w: World, doc: Document, calls: seq<Call>)
    requires IsDeletion(w, doc, calls) && Smooth(calls) && doc.id in w.docs && w.docs[doc.id] == doc
    ensures Covering(w, calls, {doc.id})
  {
    hide KeysOf, Done, IsDeletion, Smooth;
    Spared(w, doc, calls, DocGone(doc.id));
    Spared(w, doc, calls, JobsGone(doc.id));
    Spared(w, doc, calls, RowsGone(doc.id));
    forall k | k in KeysOf(w, {doc.id})
      ensures Done(calls, ObjectGone(k))
    {
      Spared(w, doc, calls, ObjectGone(k));
    }
  }

  /** Without an error all of the document is gone, and nothing else; whatever fails, nothing
      else is gone. */
  lemma DeletionExact(w: World, doc: Document, calls: seq<Call>)
    requires IsDeletion(w, doc, calls) && doc.id in w.docs && w.docs[doc.id] == doc
    ensures Partly(w, After(w, calls), {doc.id})
    ensures After(w, calls).docs == if Done(calls, DocGone(doc.id)) then w.docs - {doc.id} else w.docs
    ensures Smooth(calls) ==> After(w, calls) == Without(w, {doc.id}) && Done(calls, DocGone(doc.id))
  {
    hide KeysOf, Done, IsDeletion, Smooth, Partly;
    DeletesOwn(w, doc, calls);
    WithinPartly(w, calls, {doc.id});
    if Smooth(calls) {
      SmoothCovers(w, doc, calls);
      CoveringExact(w, calls, {doc.id});
    }
  }

  // ---------- the calls of a sweep ----------

  /** Those of the listed documents that are past the cutoff, in the order of the list. */
  function Due(docs: seq<Document>, cutoff: int): seq<Document> {
    if docs == [] then []
    else
      var last := docs[|docs| - 1];
      Due(docs[..|docs| - 1], cutoff) + if last.created <= cutoff then [last] else []
  }

  ghost function IdsOf(docs: seq<Document>): set<Id> { set k | 0 <= k < |docs| :: docs[k].id }

  function Flat(runs: seq<seq<Call>>): seq<Call> {
    if runs == [] then [] else Flat(runs[..|runs| - 1]) + runs[|runs| - 1]
  }

  /** One deletion after the other, each whatever became of those before. */
  ghost predicate IsSweep(w: World, due: seq<Document>, runs: seq<seq<Call>>)
    decreases |due|
  {
    |runs| == |due|
    && (due == []
        || (IsSweep(w, due[..|due| - 1], runs[..|due| - 1])
            && IsDeletion(After(w, Flat(runs[..|due| - 1])), due[|due| - 1], runs[|due| - 1])))
  }

  /** The documents are rows of the stores, each once. */
  ghost predicate Rows(due: seq<Document>, w: World) { RowsOf(due, w.docs) }

  lemma SweepFirst(w: World, due: seq<Document>, runs: seq<seq<Call>>)
    requires IsSweep(w, due, runs) && due != [] && Rows(due, w)
    ensures
      var i, r := due[..|due| - 1], runs[..|due| - 1];
      IsSweep(w, i, r) && Rows(i, w) && IsDeletion(After(w, Flat(r)), due[|due| - 1], runs[|due| - 1])
    ensures Flat(runs) == Flat(runs[..|due| - 1]) + runs[|due| - 1]
  {}

  lemma DoneJoins(a: seq<Call>, b: seq<Call>)
    ensures forall op :: Done(a + b, op) <==> Done(a, op) || Done(b, op)
  {}

  lemma IdsSnoc(due: seq<Document>, doc: Document)
    ensures IdsOf(due + [doc]) == IdsOf(due) + {doc.id}
  {
    var all := due + [doc];
    assert all[|due|] == doc;
    assert forall k :: 0 <= k < |due| ==> all[k] == due[k];
  }

  /** The next document of a sweep still has its rows. */
  lemma StillThere(w: World, due: seq<Document>, calls: seq<Call>, doc: Document)
    requires Within(w, calls, IdsOf(due)) && Rows(due + [doc], w)
    ensures
      var v := After(w, calls);
      doc.id in v.docs && v.docs[doc.id] == doc && KeysOf(v, {doc.id}) == KeysOf(w, {doc.id})
    ensures doc.id !in IdsOf(due)
  {
    hide Done;
    var v, all := After(w, calls), due + [doc];
    assert all[|due|] == doc;
    forall k | 0 <= k < |due|
      ensures due[k].id != doc.id
    {
      assert all[k] == due[k];
    }
    assert doc.id !in IdsOf(due);
    assert forall a :: a in w.arts && w.arts[a].doc == doc.id ==> a in v.arts && v.arts[a] == w.arts[a];
    assert ArtKeys(v.arts, {doc.id}) == ArtKeys(w.arts, {doc.id});
    assert Sources(v.docs, {doc.id}) == Sources(w.docs, {doc.id});
  }

  lemma WithinJoins(w: World, u: World, a: seq<Call>, b: seq<Call>, ids: set<Id>, d: Id)
    requires Within(w, a, ids) && Within(u, b, {d}) && KeysOf(u, {d}) == KeysOf(w, {d})
    ensures Within(w, a + b, ids + {d})
  {
    DoneJoins(a, b);
    KeysTogether(w, ids, {d});
    hide KeysOf, Done;
  }

  lemma CoveringJoins(w: World, u: World, a: seq<Call>, b: seq<Call>, ids: set<Id>, d: Id)
    requires Covering(w, a, ids) && Covering(u, b, {d}) && KeysOf(u, {d}) == KeysOf(w, {d})
    ensures Covering(w, a + b, ids + {d})
  {
    DoneJoins(a, b);
    KeysTogether(w, ids, {d});
    hide KeysOf, Done;
  }

  /** One deletion more. */
  lemma WithinMore(w: World, due: seq<Document>, before: seq<Call>, doc: Document, calls: seq<Call>)
    requires Within(w, before, IdsOf(due)) && Rows(due + [doc], w) && IsDeletion(After(w, before), doc, calls)
    ensures Within(w, before + calls, IdsOf(due + [doc]))
    ensures Covering(w, before, IdsOf(due)) && Smooth(calls) ==> Covering(w, before + calls, IdsOf(due + [doc]))
  {
    var u := After(w, before);
    StillThere(w, due, before, doc);
    hide KeysOf, Done, After, IdsOf, IsDeletion, Smooth, Rows, Covering;
    DeletesOwn(u, doc, calls);
    IdsSnoc(due, doc);
    WithinJoins(w, u, before, calls, IdsOf(due), doc.id);
    if Covering(w, before, IdsOf(due)) && Smooth(calls) {
      SmoothCovers(u, doc, calls);
      CoveringJoins(w, u, before, calls, IdsOf(due), doc.id);
    }
  }

  /** A sweep deletes of its own documents only, and without an error all of them. */
  lemma {:induction false} SweepWithin(w: World, due: seq<Document>, runs: seq<seq<Call>>)
    requires IsSweep(w, due, runs) && Rows(due, w)
    ensures Within(w, Flat(runs), IdsOf(due))
    ensures Smooth(Flat(runs)) ==> Covering(w, Flat(runs), IdsOf(due))
    decreases |due|
  {
    hide After, IsDeletion, Done, Within, Covering, Smooth, IdsOf;
    if due == [] {
      NoSweep(w);
    } else {
      var i, r := due[..|due| - 1], runs[..|due| - 1];
      SweepFirst(w, due, runs);
      SweepWithin(w, i, r);
      SmoothJoins(Flat(r), runs[|due| - 1]);
      assert due == i + [due[|due| - 1]];
      WithinMore(w, i, Flat(r), due[|due| - 1], runs[|due| - 1]);
    }
  }

  lemma NoSweep(w: World)
    ensures Flat([]) == [] && IdsOf([]) == {} && Within(w, [], {}) && Covering(w, [], {})
  {
    assert KeysOf(w, {}) == {};
  }

  /** Without an error a sweep leaves the stores without all of its documents; whatever fails,
      nothing else is gone. */
  lemma SweepExact(w: World, due: seq<Document>, runs: seq<seq<Call>>)
    requires IsSweep(w, due, runs) && Rows(due, w)
    ensures Partly(w, After(w, Flat(runs)), IdsOf(due))
    ensures Smooth(Flat(runs)) ==> After(w, Flat(runs)) == Without(w, IdsOf(due))
  {
    hide After, Partly, Within, Covering, Smooth, Without, IsSweep;
    SweepWithin(w, due, runs);
    WithinPartly(w, Flat(runs), IdsOf(due));
    if Smooth(Flat(runs)) {
      CoveringExact(w, Flat(runs), IdsOf(due));
    }
  }

  /** The i-th deletion of a sweep. */
  lemma {:induction false} SweepAt(w: World, due: seq<Document>, runs: seq<seq<Call>>, i: nat)
    requires IsSweep(w, due, runs) && Rows(due, w) && i < |due|
    ensures IsSweep(w, due[..i], runs[..i]) && Rows(due[..i], w)
    ensures IsDeletion(After(w, Flat(runs[..i])), due[i], runs[i])
    decreases |due|
  {
    hide After, IsDeletion;
    SweepFirst(w, due, runs);
    if i < |due| - 1 {
      SweepAt(w, due[..|due| - 1], runs[..|due| - 1], i);
      assert due[..|due| - 1][..i] == due[..i] && runs[..|due| - 1][..i] == runs[..i];
    }
  }

  lemma {:induction false} DoneFlat(runs: seq<seq<Call>>, op: Op)
    ensures Done(Flat(runs), op) <==> exists i :: 0 <= i < |runs| && Done(runs[i], op)
    decreases |runs|
  {
    if runs != [] {
      var r, last := runs[..|runs| - 1], runs[|runs| - 1];
      DoneFlat(r, op);
      DoneJoins(Flat(r), last);
      hide Done;
      if Done(last, op) {
        assert Done(runs[|runs| - 1], op);
      } else if Done(Flat(r), op) {
        var i :| 0 <= i < |r| && Done(r[i], op);
        assert Done(runs[i], op);
      }
    }
  }

  /** The i-th deletion meets its document as the sweep found it, and deletes of it only. */
  lemma OwnRun(w: World, due: seq<Document>, runs: seq<seq<Call>>, i: nat)
    requires IsSweep(w, due, runs) && Rows(due, w) && i < |due|
    ensures Within(w, runs[i], {due[i].id}) && runs[i] != []
    ensures
      forall op :: Owned(w, due[i].id, op) ==>
        (!Done(runs[i], op) <==> runs[i][0].fault != Fine || Failed(runs[i], op))
  {
    SweepAt(w, due, runs, i);
    assert Rows(due[..i] + [due[i]], w) by { assert due[..i] + [due[i]] == due[..i + 1]; }
    hide IsSweep, Rows, Within;
    SweepWithin(w, due[..i], runs[..i]);
    StillThere(w, due[..i], Flat(runs[..i]), due[i]);
    RunOf(w, After(w, Flat(runs[..i])), due[i], runs[i]);
  }

  /** A deletion that meets its document as w has it. */
  lemma RunOf(w: World, u: World, doc: Document, calls: seq<Call>)
    requires IsDeletion(u, doc, calls) && doc.id in u.docs && u.docs[doc.id] == doc
    requires KeysOf(u, {doc.id}) == KeysOf(w, {doc.id})
    ensures Within(w, calls, {doc.id}) && calls != []
    ensures
      forall op :: Owned(w, doc.id, op) ==> (!Done(calls, op) <==> calls[0].fault != Fine || Failed(calls, op))
  {
    hide IsDeletion, Done, Failed, KeysOf;
    DeletesOwn(u, doc, calls);
    Spared(u, doc, calls, DocGone(doc.id));
    forall op | Owned(w, doc.id, op)
      ensures !Done(calls, op) <==> calls[0].fault != Fine || Failed(calls, op)
    {
      Spared(u, doc, calls, op);
    }
  }

  /** What belongs to one document is deleted by its own deletion or not at all. */
  lemma OnlyOwnRun(w: World, due: seq<Document>, runs: seq<seq<Call>>, i: nat, op: Op)
    requires IsSweep(w, due, runs) && Rows(due, w) && i < |due| && OwnKeys(w) && Owned(w, due[i].id, op)
    ensures |runs| == |due| && (Done(Flat(runs), op) <==> Done(runs[i], op))
  {
    assert |runs| == |due|;
    hide IsSweep, Done, Within, Owned, OwnKeys, Failed;
    DoneFlat(runs, op);
    if Done(Flat(runs), op) {
      var j :| 0 <= j < |runs| && Done(runs[j], op);
      OwnRun(w, due, runs, j);
      OwnedApart(w, due[i].id, due[j].id, op, runs[j]);
      hide Flat;
      assert i == j;
    }
  }

  lemma OwnedApart(w: World, d: Id, e: Id, op: Op, calls: seq<Call>)
    requires OwnKeys(w) && Within(w, calls, {e}) && Owned(w, d, op) && Done(calls, op)
    ensures d == e
  {
    hide Done;
  }

  /** Of each document of a sweep a row or object stays exactly when the listing of its own
      deletion failed or the call that was to delete it. */
  lemma SweepLeaves(w: World, due: seq<Document>, runs: seq<seq<Call>>, i: nat)
    requires IsSweep(w, due, runs) && Rows(due, w) && i < |due| && OwnKeys(w)
    ensures |runs| == |due| && runs[i] != []
    ensures
      var v, calls := After(w, Flat(runs)), runs[i];
      var id, down := due[i].id, calls[0].fault != Fine;
      && (id in v.docs <==> down || Failed(calls, DocGone(id)))
      && (forall j :: j in w.jobs && w.jobs[j].doc == id ==> (j in v.jobs <==> down || Failed(calls, JobsGone(id))))
      && (forall a :: a in w.arts && w.arts[a].doc == id ==> (a in v.arts <==> down || Failed(calls, RowsGone(id))))
      && (forall k :: k in w.objects && k in KeysOf(w, {id}) ==>
            (k in v.objects <==> down || Failed(calls, ObjectGone(k))))
  {
    var id := due[i].id;
    assert id in w.docs;
    OwnOps(w, id);
    hide IsSweep, Done, Failed, KeysOf, Flat, Owned, After, Rows, Within;
    OwnRun(w, due, runs, i);
    forall op | Owned(w, id, op)
      ensures !Done(Flat(runs), op) <==> runs[i][0].fault != Fine || Failed(runs[i], op)
    {
      OnlyOwnRun(w, due, runs, i, op);
    }
    OnlyOwnRun(w, due, runs, i, DocGone(id));
    AfterOf(w, Flat(runs), id);
  }

  lemma OwnOps(w: World, id: Id)
    ensures Owned(w, id, DocGone(id)) && Owned(w, id, JobsGone(id)) && Owned(w, id, RowsGone(id))
    ensures forall k :: k in KeysOf(w, {id}) ==> Owned(w, id, ObjectGone(k))
  {}

  lemma AfterOf(w: World, calls: seq<Call>, id: Id)
    requires id in w.docs
    ensures
      var v := After(w, calls);
      && (id in v.docs <==> !Done(calls, DocGone(id)))
      && (forall j :: j in w.jobs && w.jobs[j].doc == id ==> (j in v.jobs <==> !Done(calls, JobsGone(id))))
      && (forall a :: a in w.arts && w.arts[a].doc == id ==> (a in v.arts <==> !Done(calls, RowsGone(id))))
      && (forall k :: k in w.objects ==> (k in v.objects <==> !Done(calls, ObjectGone(k))))
  {
    hide Done;
  }

  /** The identifiers of the first n listed documents that are past the cutoff. */
  ghost function ExpiredIn(docs: seq<Document>, n: nat, cutoff: int): set<Id>
    requires n <= |docs|
  {
    set k | 0 <= k < n && docs[k].created <= cutoff :: docs[k].id
  }

  lemma {:induction false} DueIds(docs: seq<Document>, cutoff: int)
    ensures IdsOf(Due(docs, cutoff)) == ExpiredIn(docs, |docs|, cutoff)
    decreases |docs|
  {
    if docs != [] {
      var i, last := docs[..|docs| - 1], docs[|docs| - 1];
      DueIds(i, cutoff);
      IdsSnoc(Due(i, cutoff), last);
      assert Due(i, cutoff) + [] == Due(i, cutoff);
      var more := if last.created <= cutoff then {last.id} else {};
      assert ExpiredIn(docs, |docs|, cutoff) == ExpiredIn(i, |i|, cutoff) + more;
    }
  }

  // ---------- what a sweep means ----------

  /** Nothing is left that names a deleted document, and no row or object of another
      document is touched. */
  lemma SweepIsExact(w: World, gone: set<Id>)
    requires OwnKeys(w)
    ensures
      var v := Without(w, gone);
      && (forall d :: d in gone ==> d !in v.docs)
      && (forall j :: j in v.jobs ==> v.jobs[j].doc !in gone)
      && (forall a :: a in v.arts ==> v.arts[a].doc !in gone)
      && (forall a :: a in w.arts && w.arts[a].doc in gone ==> w.arts[a].key !in v.objects)
      && (forall d :: d in gone && d in w.docs ==> w.docs[d].source !in v.objects)
    ensures
      var v := Without(w, gone);
      && (forall d :: d in w.docs && d !in gone ==> d in v.docs && v.docs[d] == w.docs[d])
      && (forall j :: j in w.jobs && w.jobs[j].doc !in gone ==> j in v.jobs && v.jobs[j] == w.jobs[j])
      && (forall a :: a in w.arts && w.arts[a].doc !in gone ==> a in v.arts && v.arts[a] == w.arts[a])
      && (forall k :: k in w.objects && KeyDoc(k) !in gone ==> k in v.objects && v.objects[k] == w.objects[k])
  {
    forall k | k in w.objects && KeyDoc(k) !in gone
      ensures k !in KeysOf(w, gone)
    {}
  }

  /** Whatever calls of a deletion fail, no row and no object of another document is
      touched, and nothing is added. */
  lemma PartlyIsLocal(w: World, v: World, gone: set<Id>)
    requires OwnKeys(w) && Partly(w, v, gone)
    ensures forall d :: d in w.docs && d !in gone ==> d in v.docs && v.docs[d] == w.docs[d]
    ensures forall j :: j in w.jobs && w.jobs[j].doc !in gone ==> j in v.jobs && v.jobs[j] == w.jobs[j]
    ensures forall a :: a in w.arts && w.arts[a].doc !in gone ==> a in v.arts && v.arts[a] == w.arts[a]
    ensures forall k :: k in w.objects && KeyDoc(k) !in gone ==> k in v.objects && v.objects[k] == w.objects[k]
    ensures Below(v, w)
  {
    SweepIsExact(w, gone);
    var u := Without(w, gone);
    assert Below(u, v);
    hide Without;
  }

  /** With no more documents than a sweep lists, no expired one is left. */
  lemma NoExpiredLeft(w: World, listed: seq<Document>, gone: set<Id>, cutoff: int)
    requires DocsFiled(w.docs) && |w.docs| <= 500 && Recent(listed, w.docs, 500)
    requires gone == ExpiredIn(listed, |listed|, cutoff)
    ensures forall d :: d in Without(w, gone).docs ==> w.docs[d].created > cutoff
  {
    FullListing(listed, w.docs);
    forall d | d in w.docs && d !in gone
      ensures w.docs[d].created > cutoff
    {
      var i :| 0 <= i < |listed| && listed[i].id == d;
      assert listed[i] == w.docs[d];
    }
  }

  /** With more, a sweep takes expired documents only when it has listed no newer ones in
      their place: whatever expired document stays, the listing was full and everything
      listed is at least as new. */
  lemma ExpiredLeftAreOldest(w: World, listed: seq<Document>, gone: set<Id>, cutoff: int, d: Id)
    requires DocsFiled(w.docs) && Recent(listed, w.docs, 500)
    requires gone == ExpiredIn(listed, |listed|, cutoff)
    requires d in w.docs && d !in gone && w.docs[d].created <= cutoff
    ensures |w.docs| > 500 && |listed| == 500
    ensures forall i :: 0 <= i < |listed| ==> w.docs[d].created <= listed[i].created
  {
    assert forall i :: 0 <= i < |listed| ==> w.docs[listed[i].id] == listed[i];
    assert forall i :: 0 <= i < |listed| ==> listed[i].id != d;
    if |w.docs| <= 500 {
      FullListing(listed, w.docs);
    }
  }
}
