/** The TTL sweeper over the four stores, and the deletion it shares with the service. */
module Sweeper {
  import opened Domain
  import opened Stores
  import opened Backend
  import opened Calls
  import opened Deletion

  // ---------- the deletion of one document ----------

  /** deleteDocument of the sweeper and DeleteDocument of the service: the rows are listed, and
      then everything is called for, whatever fails; each call that fails leaves what it was
      to delete. Only a failed listing and a failed deletion of the document's own row are
      reported. */
  method DeleteDocument(stores: Backend, doc: Document) returns (ok: bool, ghost calls: seq<Call>)
    requires stores.Valid() && doc.id in stores.View().docs && stores.View().docs[doc.id] == doc
    modifies stores.Repr()
    ensures stores.Valid() && stores.log == old(stores.log) + calls && IsDeletion(old(stores.View()), doc, calls)
    ensures stores.View() == After(old(stores.View()), calls) && ok == Done(calls, DocGone(doc.id))
    ensures Smooth(calls) ==> ok && stores.View() == Without(old(stores.View()), {doc.id})
    ensures Partly(old(stores.View()), stores.View(), {doc.id})
    ensures stores.View().docs == if ok then old(stores.View()).docs - {doc.id} else old(stores.View()).docs
  {
    hide After, IsDeletion, Carries, Listed, Without, Partly, Smooth, Done;
    ghost var w := stores.View();
    var arts, f := stores.ListArtifacts(doc.id);
    calls := [Call(RowsListed(doc.id), f)];
    if arts.Down? {
      Unlisted(w, doc);
      DeletionExact(w, doc, calls);
      return false, calls;
    }
    ghost var some := DeleteObjects(stores, arts.value);
    ghost var last;
    ok, last := DeleteRest(stores, doc);
    Together(w, doc, arts.value, some, last);
    calls := calls + some + last;
    DeletionExact(w, doc, calls);
  }

  lemma Unlisted(w: World, doc: Document)
    ensures
      var calls := [Call(RowsListed(doc.id), StoreDown)];
      IsDeletion(w, doc, calls) && After(w, calls) == w && !Done(calls, DocGone(doc.id))
  {
    NotListed(doc.id);
  }

  /** The parts of a deletion. */
  lemma Together(w: World, doc: Document, arts: seq<Artifact>, some: seq<Call>, last: seq<Call>)
    requires Listed(arts, w.arts, doc.id) && Carried(some, ObjectOps(arts)) && Carried(last, LastOps(doc))
    ensures
      var calls := [Call(RowsListed(doc.id), Fine)] + some + last;
      && IsDeletion(w, doc, calls) && After(w, calls) == After(After(w, some), last)
      && |last| == 4 && (Done(calls, DocGone(doc.id)) <==> last[3].fault == Fine)
  {
    hide After, Carries, Listed, ObjectOps, Carried, Done;
    CarriedTogether(w, doc, arts, some, last);
    AfterTogether(w, doc.id, some, last);
    DoneTogether(doc, arts, some, last);
  }

  lemma CarriedTogether(w: World, doc: Document, arts: seq<Artifact>, some: seq<Call>, last: seq<Call>)
    requires Listed(arts, w.arts, doc.id) && Carried(some, ObjectOps(arts)) && Carried(last, LastOps(doc))
    ensures Carries(w, doc, [Call(RowsListed(doc.id), Fine)] + some + last, arts)
  {
    hide Listed, LastOps, ObjectOps;
    var first := [Call(RowsListed(doc.id), Fine)];
    assert first + some + last == first + (some + last) && (first + (some + last))[1..] == some + last;
  }

  lemma AfterTogether(w: World, id: Id, some: seq<Call>, last: seq<Call>)
    ensures After(w, [Call(RowsListed(id), Fine)] + some + last) == After(After(w, some), last)
  {
    hide After;
    var first := [Call(RowsListed(id), Fine)];
    assert first + some + last == first + (some + last);
    AfterNothing(w, first);
    AfterJoins(w, first, some + last);
    AfterJoins(w, some, last);
  }

  lemma DoneTogether(doc: Document, arts: seq<Artifact>, some: seq<Call>, last: seq<Call>)
    requires Carried(some, ObjectOps(arts)) && Carried(last, LastOps(doc))
    ensures |last| == 4
    ensures Done([Call(RowsListed(doc.id), Fine)] + some + last, DocGone(doc.id)) <==> last[3].fault == Fine
  {
    var first := [Call(RowsListed(doc.id), Fine)];
    DoneJoins(first + some, last);
    DoneJoins(first, some);
    assert last[3].op == DocGone(doc.id);
    assert forall i :: 0 <= i < |some| ==> some[i].op.ObjectGone?;
  }

  method DeleteObjects(stores: Backend, arts: seq<Artifact>) returns (ghost calls: seq<Call>)
    requires stores.Valid()
    modifies stores.Repr()
    ensures stores.Valid() && stores.log == old(stores.log) + calls && Carried(calls, ObjectOps(arts))
    ensures stores.View() == After(old(stores.View()), calls) && stores.View().docs == old(stores.View()).docs
  {
    hide After, Carried;
    ghost var w := stores.View();
    calls := [];
    NoObjects(w, arts);
    for i := 0 to |arts|
      invariant stores.Valid() && stores.log == old(stores.log) + calls && Carried(calls, ObjectOps(arts[..i]))
      invariant stores.View() == After(w, calls) && stores.View().docs == w.docs
    {
      ghost var v := stores.View();
      ghost var f := stores.DeleteObject(arts[i].key);
      AfterObject(v, arts[i].key, f);
      OneObjectMore(w, arts, i, calls, f);
      calls := calls + [Call(ObjectGone(arts[i].key), f)];
    }
    assert arts[..|arts|] == arts;
  }

  lemma NoObjects(w: World, arts: seq<Artifact>)
    ensures Carried([], ObjectOps(arts[..0])) && After(w, []) == w
  {}

  lemma OneObjectMore(w: World, arts: seq<Artifact>, i: nat, calls: seq<Call>, f: Fault)
    requires i < |arts| && Carried(calls, ObjectOps(arts[..i]))
    ensures
      var call := Call(ObjectGone(arts[i].key), f);
      Carried(calls + [call], ObjectOps(arts[..i + 1])) && After(w, calls + [call]) == After(After(w, calls), [call])
  {
    AfterJoins(w, calls, [Call(ObjectGone(arts[i].key), f)]);
    hide After;
    assert forall k :: 0 <= k < i ==> arts[..i + 1][k] == arts[..i][k];
  }

  /** What follows the objects of the artifacts. */
  method DeleteRest(stores: Backend, doc: Document) returns (ok: bool, ghost calls: seq<Call>)
    requires stores.Valid() && doc.id in stores.View().docs
    modifies stores.Repr()
    ensures stores.Valid() && stores.log == old(stores.log) + calls && Carried(calls, LastOps(doc))
    ensures stores.View() == After(old(stores.View()), calls) && ok == (calls[3].fault == Fine)
  {
    hide After, JobsWithout, ArtsWithout;
    ghost var w := stores.View();
    ghost var a, j := DeleteRows(stores, doc.id);
    ghost var v := stores.View();
    ghost var o := stores.DeleteObject(doc.source);
    AfterObject(v, doc.source, o);
    ghost var u := stores.View();
    var e, d := stores.DeleteDoc(doc.id);
    AfterDoc(u, doc.id, d);
    ok := e == NoErr;
    FourCalls(w, doc, a, j, o, d);
    calls := [Call(RowsGone(doc.id), a), Call(JobsGone(doc.id), j), Call(ObjectGone(doc.source), o),
          Call(DocGone(doc.id), d)];
  }

  lemma FourCalls(w: World, doc: Document, a: Fault, j: Fault, o: Fault, d: Fault)
    ensures
      var rows := [Call(RowsGone(doc.id), a), Call(JobsGone(doc.id), j)];
      var c, e := Call(ObjectGone(doc.source), o), Call(DocGone(doc.id), d);
      After(After(After(w, rows), [c]), [e]) == After(w, [rows[0], rows[1], c, e])
  {
    var rows := [Call(RowsGone(doc.id), a), Call(JobsGone(doc.id), j)];
    var c, e := Call(ObjectGone(doc.source), o), Call(DocGone(doc.id), d);
    AfterJoins(w, rows, [c]);
    AfterJoins(w, rows + [c], [e]);
    assert rows + [c] + [e] == [rows[0], rows[1], c, e];
    hide After;
  }

  method DeleteRows(stores: Backend, id: Id) returns (ghost a: Fault, ghost j: Fault)
    requires stores.Valid()
    modifies stores.Repr()
    ensures stores.Valid() && stores.log == old(stores.log) + [Call(RowsGone(id), a), Call(JobsGone(id), j)]
    ensures stores.View() == After(old(stores.View()), [Call(RowsGone(id), a), Call(JobsGone(id), j)])
    ensures stores.View().docs == old(stores.View()).docs
  {
    hide After, JobsWithout, ArtsWithout;
    ghost var w := stores.View();
    a := stores.DeleteArtifacts(id);
    AfterRows(w, id, a);
    ghost var v := stores.View();
    j := stores.DeleteJobs(id);
    AfterJobs(v, id, j);
    AfterJoins(w, [Call(RowsGone(id), a)], [Call(JobsGone(id), j)]);
    assert [Call(RowsGone(id), a)] + [Call(JobsGone(id), j)] == [Call(RowsGone(id), a), Call(JobsGone(id), j)];
  }

  // ---------- the sweeper ----------

  /** How many documents of w are not in v. */
  ghost function GoneFrom(w: World, v: World): nat { |w.docs.Keys - v.docs.Keys| }

  datatype Swept = Swept(removed: nat, failed: bool)

  /** What a sweep lists, and the calls of its deletions. */
  datatype Sweep = Sweep(listed: seq<Document>, runs: seq<seq<Call>>)

  class Sweeper {
    const stores: Backend
    const ttl: int

    constructor (stores: Backend, ttl: int)
      ensures this.stores == stores && this.ttl == ttl
    {
      this.stores, this.ttl := stores, ttl;
    }

    /** RunOnce lists the documents and deletes those past the cutoff, each whatever became of
        those before; it counts the rows that are gone, and fails only with its listing. */
    method RunOnce(now: int) returns (r: Swept, ghost s: Sweep)
      requires stores.Valid()
      modifies stores.Repr()
      ensures stores.Valid() && stores.View() == After(old(stores.View()), Flat(s.runs))
      ensures
        ttl <= 0 ==>
          r == Swept(0, false) && stores.log == old(stores.log) && stores.View() == old(stores.View())
      ensures
        ttl > 0 ==>
          stores.log == old(stores.log) + [Call(DocsListed(500), if r.failed then StoreDown else Fine)] + Flat(s.runs)
      ensures r.failed ==> s.runs == []
      ensures
        ttl > 0 && !r.failed ==>
          Recent(s.listed, old(stores.View()).docs, 500)
              && IsSweep(old(stores.View()), Due(s.listed, now - ttl), s.runs)
      ensures r.removed == GoneFrom(old(stores.View()), stores.View())
      ensures
        ttl > 0 && Smooth(stores.log[|old(stores.log)|..]) ==>
          !r.failed && stores.View() == Without(old(stores.View()), ExpiredIn(s.listed, |s.listed|, now - ttl))
    {
      hide After, IsSweep, Recent, RowsOf, Without, Smooth, ExpiredIn, Flat, Due, GoneFrom;
      s := Sweep([], []);
      NoRuns(stores.View());
      if ttl <= 0 {
        return Swept(0, false), s;
      }
      ghost var before := stores.log;
      var docs, f := stores.ListRecent(500);
      if docs.Down? {
        NotSmooth(before, f, []);
        return Swept(0, true), s;
      }
      ghost var w := stores.View();
      RecentRows(docs.value, w.docs, 500);
      var removed;
      ghost var runs;
      removed, runs := DeleteExpired(docs.value, now - ttl);
      s := Sweep(docs.value, runs);
      NotSmooth(before, f, Flat(runs));
      SmoothSweep(w, docs.value, now - ttl, runs);
      r := Swept(removed, false);
    }

    /** The loop of RunOnce over the listing. */
    method DeleteExpired(docs: seq<Document>, cutoff: int) returns (removed: nat, ghost runs: seq<seq<Call>>)
      requires stores.Valid() && RowsOf(docs, stores.View().docs)
      modifies stores.Repr()
      ensures stores.Valid() && stores.log == old(stores.log) + Flat(runs)
      ensures stores.View() == After(old(stores.View()), Flat(runs))
        && IsSweep(old(stores.View()), Due(docs, cutoff), runs)
      ensures removed == GoneFrom(old(stores.View()), stores.View())
    {
      hide After, IsSweep, RowsOf, Flat, Due, GoneFrom, Rows;
      ghost var before := stores.View();
      runs, removed := [], 0;
      NoRuns(before);
      NoneDue(before, cutoff);
      for i := 0 to |docs|
        invariant stores.Valid() && stores.log == old(stores.log) + Flat(runs)
        invariant stores.View() == After(before, Flat(runs)) && IsSweep(before, Due(docs[..i], cutoff), runs)
        invariant removed == GoneFrom(before, stores.View())
      {
        DueStep(docs, i, cutoff, before);
        if docs[i].created > cutoff {
          continue;
        }
        var ok;
        ghost var calls;
        ok, calls := DeleteListed(docs[i], before, Due(docs[..i], cutoff), runs);
        runs := runs + [calls];
        if ok {
          removed := removed + 1;
        }
      }
      assert docs[..|docs|] == docs;
    }

    /** One turn of that loop. */
    method DeleteListed(doc: Document, ghost before: World, ghost due: seq<Document>, ghost runs: seq<seq<Call>>)
      returns (ok: bool, ghost calls: seq<Call>)
      requires stores.Valid() && Rows(due + [doc], before)
      requires stores.View() == After(before, Flat(runs)) && IsSweep(before, due, runs)
      modifies stores.Repr()
      ensures stores.Valid() && stores.log == old(stores.log) + calls
      ensures stores.View() == After(before, Flat(runs + [calls])) && Flat(runs + [calls]) == Flat(runs) + calls
      ensures IsSweep(before, due + [doc], runs + [calls])
      ensures
        GoneFrom(before, stores.View()) == GoneFrom(before, old(stores.View())) + if ok then 1 else 0
    {
      hide After, IsSweep, Rows, Flat, IsDeletion, Without, Smooth, Partly, Done;
      ghost var v := stores.View();
      ListedThere(before, due, runs, doc);
      ok, calls := DeleteDocument(stores, doc);
      SweepMore(before, due, runs, doc, calls);
      if ok {
        OneKeyLess(before.docs.Keys, v.docs.Keys, stores.View().docs.Keys, doc.id);
      }
    }
  }

  lemma NoRuns(w: World)
    ensures Flat([]) == [] && After(w, []) == w && GoneFrom(w, w) == 0
  {
    assert w.docs.Keys - w.docs.Keys == {};
  }

  lemma NoneDue(w: World, cutoff: int)
    ensures Due([], cutoff) == [] && IsSweep(w, [], [])
  {}

  /** The first n turns of the loop. */
  lemma DueStep(docs: seq<Document>, i: nat, cutoff: int, w: World)
    requires i < |docs| && RowsOf(docs, w.docs)
    ensures Due(docs[..i + 1], cutoff) == Due(docs[..i], cutoff) + if docs[i].created <= cutoff then [docs[i]] else []
    ensures docs[i].created <= cutoff ==> Rows(Due(docs[..i], cutoff) + [docs[i]], w)
    ensures docs[i].created > cutoff ==> Due(docs[..i + 1], cutoff) == Due(docs[..i], cutoff)
  {
    assert docs[..i + 1][..i] == docs[..i];
    assert RowsOf(docs[..i + 1], w.docs);
    DueRows(docs[..i + 1], cutoff, w);
    assert Due(docs[..i], cutoff) + [] == Due(docs[..i], cutoff);
  }

  lemma {:induction false} DueAmong(docs: seq<Document>, cutoff: int)
    ensures forall k :: 0 <= k < |Due(docs, cutoff)| ==> Due(docs, cutoff)[k] in docs
    decreases |docs|
  {
    if docs != [] {
      DueAmong(docs[..|docs| - 1], cutoff);
    }
  }

  lemma {:induction false} DueRows(docs: seq<Document>, cutoff: int, w: World)
    requires RowsOf(docs, w.docs)
    ensures Rows(Due(docs, cutoff), w)
    decreases |docs|
  {
    if docs != [] {
      var i, last := docs[..|docs| - 1], docs[|docs| - 1];
      DueRows(i, cutoff, w);
      DueAmong(i, cutoff);
      forall k | 0 <= k < |Due(i, cutoff)|
        ensures Due(i, cutoff)[k].id != last.id
      {
        var m :| 0 <= m < |i| && i[m] == Due(i, cutoff)[k];
        assert docs[m] == i[m];
      }
    }
  }

  lemma ListedThere(w: World, due: seq<Document>, runs: seq<seq<Call>>, doc: Document)
    requires IsSweep(w, due, runs) && Rows(due + [doc], w)
    ensures var v := After(w, Flat(runs)); doc.id in v.docs && v.docs[doc.id] == doc && doc.id in w.docs
  {
    assert forall k :: 0 <= k < |due| ==> (due + [doc])[k] == due[k];
    SweepWithin(w, due, runs);
    StillThere(w, due, Flat(runs), doc);
  }

  lemma SweepMore(w: World, due: seq<Document>, runs: seq<seq<Call>>, doc: Document, calls: seq<Call>)
    requires IsSweep(w, due, runs) && IsDeletion(After(w, Flat(runs)), doc, calls)
    ensures IsSweep(w, due + [doc], runs + [calls])
    ensures Flat(runs + [calls]) == Flat(runs) + calls
    ensures After(w, Flat(runs + [calls])) == After(After(w, Flat(runs)), calls)
  {
    assert (due + [doc])[..|due|] == due && (runs + [calls])[..|runs|] == runs;
    AfterJoins(w, Flat(runs), calls);
    hide After, IsDeletion;
  }

  lemma OneKeyLess(all: set<Id>, had: set<Id>, has: set<Id>, d: Id)
    requires has == had - {d} && d in had && d in all
    ensures |all - has| == |all - had| + 1
  {
    assert all - has == (all - had) + {d};
  }

  lemma RecentRows(s: seq<Document>, m: map<Id, Document>, limit: int)
    requires Recent(s, m, limit)
    ensures RowsOf(s, m)
  {}

  lemma SmoothSweep(w: World, docs: seq<Document>, cutoff: int, runs: seq<seq<Call>>)
    requires RowsOf(docs, w.docs) && IsSweep(w, Due(docs, cutoff), runs)
    ensures Smooth(Flat(runs)) ==> After(w, Flat(runs)) == Without(w, ExpiredIn(docs, |docs|, cutoff))
  {
    hide RowsOf, IsSweep, After, Without, Smooth, Flat, Due;
    DueIds(docs, cutoff);
    DueRows(docs, cutoff, w);
    SweepExact(w, Due(docs, cutoff), runs);
  }

  lemma NotSmooth(log: seq<Call>, f: Fault, more: seq<Call>)
    ensures
      var all := log + [Call(DocsListed(500), f)] + more;
      |log| <= |all| && (Smooth(all[|log|..]) <==> f == Fine && Smooth(more))
  {
    var all := log + [Call(DocsListed(500), f)] + more;
    assert all[|log|..] == [Call(DocsListed(500), f)] + more;
    SmoothJoins([Call(DocsListed(500), f)], more);
    assert [Call(DocsListed(500), f)][0].fault == f;
  }
}
