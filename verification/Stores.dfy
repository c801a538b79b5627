/** The in-memory stores: maps updated in place. Rows are values, so what a caller
    gets is a copy. */
module Stores {
  import opened Domain

  /** Rows are filed under their own ids. */
  ghost predicate DocsFiled(m: map<Id, Document>) { forall i :: i in m ==> m[i].id == i }

  ghost predicate JobsFiled(m: map<Id, Job>) { forall i :: i in m ==> m[i].id == i }

  ghost predicate ArtsFiled(m: map<Id, Artifact>) { forall i :: i in m ==> m[i].id == i }

  /** Newest first. */
  predicate NewestFirst(s: seq<Document>) {
    forall i, j :: 0 <= i < j < |s| ==> s[i].created >= s[j].created
  }

  /** Different rows of the map. */
  ghost predicate RowsOf(s: seq<Document>, m: map<Id, Document>) {
    && (forall i :: 0 <= i < |s| ==> s[i].id in m && m[s[i].id] == s[i])
    && forall i, j :: 0 <= i < j < |s| ==> s[i].id != s[j].id
  }

  /** The newest rows of the map: newest first, and no row left out is newer than any listed. */
  ghost predicate Recent(s: seq<Document>, m: map<Id, Document>, limit: int) {
    && RowsOf(s, m) && NewestFirst(s)
    && |s| == (if limit > 0 && |m| > limit then limit else |m|)
    && forall k, i :: k in m && 0 <= i < |s| && (forall j :: 0 <= j < |s| ==> s[j].id != k) ==>
        m[k].created <= s[i].created
  }

  lemma RowsCount(s: seq<Document>, m: map<Id, Document>, ids: set<Id>)
    requires RowsOf(s, m) && ids == set i | 0 <= i < |s| :: s[i].id
    ensures |ids| == |s| && ids <= m.Keys
  {
    if s != [] {
      var t := s[..|s| - 1];
      var rest := set i | 0 <= i < |t| :: t[i].id;
      assert RowsOf(t, m);
      RowsCount(t, m, rest);
      var last := s[|s| - 1].id;
      assert last !in rest;
      assert ids == rest + {last};
    }
  }

  /** A listing with as many entries as there are rows has every row. */
  lemma FullListing(s: seq<Document>, m: map<Id, Document>)
    requires RowsOf(s, m) && |s| == |m|
    ensures forall k :: k in m ==> exists i :: 0 <= i < |s| && s[i].id == k
  {
    var ids := set i | 0 <= i < |s| :: s[i].id;
    RowsCount(s, m, ids);
    assert |m.Keys| == |m|;
    if exists k :: k in m && k !in ids {
      var k :| k in m && k !in ids;
      SubsetSmaller(ids, m.Keys, k);
    }
  }

  /** What is cut off a full listing is no newer than what stays. */
  lemma CutIsNewest(all: seq<Document>, m: map<Id, Document>, limit: nat, k: Id, i: nat)
    requires RowsOf(all, m) && NewestFirst(all) && |all| == |m| && i < limit <= |all|
    requires k in m && forall j :: 0 <= j < limit ==> all[j].id != k
    ensures m[k].created <= all[i].created
  {
    FullListing(all, m);
    var n :| 0 <= n < |all| && all[n].id == k;
    assert n >= limit;
  }

  /** The newest rows of a full listing. */
  lemma CutIsRecent(all: seq<Document>, m: map<Id, Document>, limit: int)
    requires RowsOf(all, m) && NewestFirst(all) && |all| == |m|
    ensures Recent(if limit > 0 && |all| > limit then all[..limit] else all, m, limit)
  {
    var size := if limit > 0 && |all| > limit then limit else |all|;
    var out := if limit > 0 && |all| > limit then all[..limit] else all;
    assert forall j :: 0 <= j < size ==> out[j] == all[j];
    forall k, i | k in m && 0 <= i < size && (forall j :: 0 <= j < size ==> out[j].id != k)
      ensures m[k].created <= out[i].created
    {
      assert forall j :: 0 <= j < size ==> all[j].id == out[j].id;
      CutIsNewest(all, m, size, k, i);
    }
  }

  lemma SubsetSmaller(a: set<Id>, b: set<Id>, k: Id)
    requires a <= b && k in b && k !in a
    ensures |a| < |b|
  {
    var c := b - a;
    assert k in c;
    assert b == a + c;
    assert |b| == |a| + |c|;
  }

  class DocumentRepo {
    var data: map<Id, Document>

    ghost predicate Valid() reads this { DocsFiled(data) }

    constructor ()
      ensures Valid() && data == map[]
    {
      data := map[];
    }

    method Create(doc: Document)
      requires Valid()
      modifies this
      ensures Valid() && data == old(data)[doc.id := doc]
    {
      data := data[doc.id := doc];
    }

    method Get(id: Id) returns (r: Option<Document>)
      ensures r == if id in data then Some(data[id]) else None
    {
      r := if id in data then Some(data[id]) else None;
    }

    method Update(doc: Document) returns (ok: bool)
      requires Valid()
      modifies this
      ensures Valid() && ok == (doc.id in old(data))
      ensures data == if ok then old(data)[doc.id := doc] else old(data)
    {
      ok := doc.id in data;
      if ok {
        data := data[doc.id := doc];
      }
    }

    method Delete(id: Id) returns (ok: bool)
      requires Valid()
      modifies this
      ensures Valid() && ok == (id in old(data)) && data == old(data) - {id}
    {
      ok := id in data;
      data := data - {id};
    }

    /** All rows, in whatever order the map yields them. */
    method All() returns (out: seq<Document>)
      requires Valid()
      ensures RowsOf(out, data) && |out| == |data|
    {
      out := [];
      var left := data.Keys;
      while left != {}
        invariant left <= data.Keys && |out| + |left| == |data| && RowsOf(out, data)
        invariant forall i :: 0 <= i < |out| ==> out[i].id !in left
        decreases |left|
      {
        var k :| k in left;
        out := out + [data[k]];
        left := left - {k};
      }
    }

    method ListRecent(limit: int) returns (out: seq<Document>)
      requires Valid()
      ensures Recent(out, data, limit)
    {
      hide RowsOf, NewestFirst, Recent;
      out := All();
      out := Exchange(out);
      CutIsRecent(out, data, limit);
      if limit > 0 && |out| > limit {
        out := out[..limit];
      }
    }

    /** The exchange sort of ListRecent. */
    method Exchange(rows: seq<Document>) returns (out: seq<Document>)
      requires RowsOf(rows, data)
      ensures RowsOf(out, data) && NewestFirst(out) && |out| == |rows| && multiset(out) == multiset(rows)
    {
      hide RowsOf, Settled;
      out := rows;
      NoneSettled(out);
      for i := 0 to |rows|
        invariant |out| == |rows| && RowsOf(out, data) && multiset(out) == multiset(rows)
        invariant Settled(out, i)
      {
        ghost var before := out;
        for j := i + 1 to |rows|
          invariant |out| == |rows| && RowsOf(out, data) && multiset(out) == multiset(before)
          invariant Settled(out, i)
          invariant forall b :: i < b < j ==> out[i].created >= out[b].created
        {
          if out[j].created > out[i].created {
            Swapped(out, data, i, j);
            SwapSettled(out, i, j);
            out := out[i := out[j]][j := out[i]];
          }
        }
        SettledMore(out, i);
      }
      AllSettled(out);
    }
  }

  /** The first n rows are in place: none after them is newer. */
  predicate Settled(s: seq<Document>, n: nat)
    requires n <= |s|
  {
    forall a, b :: 0 <= a < n && a < b < |s| ==> s[a].created >= s[b].created
  }

  lemma NoneSettled(s: seq<Document>)
    ensures Settled(s, 0)
  {}

  lemma SettledMore(s: seq<Document>, i: nat)
    requires i < |s| && Settled(s, i) && forall b :: i < b < |s| ==> s[i].created >= s[b].created
    ensures Settled(s, i + 1)
  {}

  lemma AllSettled(s: seq<Document>)
    requires Settled(s, |s|)
    ensures NewestFirst(s)
  {}

  lemma SwapSettled(s: seq<Document>, i: nat, j: nat)
    requires i < j < |s| && Settled(s, i) && s[j].created > s[i].created
    ensures Settled(s[i := s[j]][j := s[i]], i)
  {}

  lemma Swapped(s: seq<Document>, m: map<Id, Document>, i: nat, j: nat)
    requires i < j < |s| && RowsOf(s, m)
    ensures var t := s[i := s[j]][j := s[i]]; RowsOf(t, m) && multiset(t) == multiset(s)
  {
    var t := s[i := s[j]][j := s[i]];
    assert multiset(s[i := s[j]]) == multiset(s) - multiset{s[i]} + multiset{s[j]};
  }

  class JobRepo {
    var data: map<Id, Job>

    ghost predicate Valid() reads this { JobsFiled(data) }

    constructor ()
      ensures Valid() && data == map[]
    {
      data := map[];
    }

    method Create(job: Job)
      requires Valid()
      modifies this
      ensures Valid() && data == old(data)[job.id := job]
    {
      data := data[job.id := job];
    }

    method Get(id: Id) returns (r: Option<Job>)
      ensures r == if id in data then Some(data[id]) else None
    {
      r := if id in data then Some(data[id]) else None;
    }

    method Update(job: Job) returns (ok: bool)
      requires Valid()
      modifies this
      ensures Valid() && ok == (job.id in old(data))
      ensures data == if ok then old(data)[job.id := job] else old(data)
    {
      ok := job.id in data;
      if ok {
        data := data[job.id := job];
      }
    }

    method DeleteByDocument(doc: Id)
      requires Valid()
      modifies this
      ensures Valid() && data == map j | j in old(data) && old(data)[j].doc != doc :: old(data)[j]
    {
      ghost var first := data;
      var left := data.Keys;
      while left != {}
        invariant left <= first.Keys
        invariant data == map j | j in first && (j in left || first[j].doc != doc) :: first[j]
        decreases |left|
      {
        var j :| j in left;
        if data[j].doc == doc {
          data := data - {j};
        }
        left := left - {j};
      }
    }
  }

  class ArtifactRepo {
    var data: map<Id, Artifact>

    ghost predicate Valid() reads this { ArtsFiled(data) }

    constructor ()
      ensures Valid() && data == map[]
    {
      data := map[];
    }

    method Create(a: Artifact)
      requires Valid()
      modifies this
      ensures Valid() && data == old(data)[a.id := a]
    {
      data := data[a.id := a];
    }

    method Update(a: Artifact) returns (ok: bool)
      requires Valid()
      modifies this
      ensures Valid() && ok == (a.id in old(data))
      ensures data == if ok then old(data)[a.id := a] else old(data)
    {
      ok := a.id in data;
      if ok {
        data := data[a.id := a];
      }
    }

    /** The rows of a document, each once, in whatever order the map yields them. */
    method ListByDocument(doc: Id) returns (out: seq<Artifact>)
      requires Valid()
      ensures forall i :: 0 <= i < |out| ==> out[i].id in data && data[out[i].id] == out[i] && out[i].doc == doc
      ensures forall i, j :: 0 <= i < j < |out| ==> out[i].id != out[j].id
      ensures forall k :: k in data && data[k].doc == doc ==> data[k] in out
    {
      out := [];
      var left := data.Keys;
      while left != {}
        invariant left <= data.Keys
        invariant forall i :: 0 <= i < |out| ==>
          out[i].id in data && data[out[i].id] == out[i] && out[i].doc == doc && out[i].id !in left
        invariant forall i, j :: 0 <= i < j < |out| ==> out[i].id != out[j].id
        invariant forall k :: k in data && data[k].doc == doc ==> k in left || data[k] in out
        decreases |left|
      {
        var k :| k in left;
        if data[k].doc == doc {
          out := out + [data[k]];
        }
        left := left - {k};
      }
    }

    method DeleteByDocument(doc: Id)
      requires Valid()
      modifies this
      ensures Valid() && data == map a | a in old(data) && old(data)[a].doc != doc :: old(data)[a]
    {
      ghost var first := data;
      var left := data.Keys;
      while left != {}
        invariant left <= first.Keys
        invariant data == map a | a in first && (a in left || first[a].doc != doc) :: first[a]
        decreases |left|
      {
        var a :| a in left;
        if data[a].doc == doc {
          data := data - {a};
        }
        left := left - {a};
      }
    }
  }

  class ObjectStore {
    var data: map<Key, Bytes>

    constructor ()
      ensures data == map[]
    {
      data := map[];
    }

    method Put(key: Key, body: Bytes)
      modifies this
      ensures data == old(data)[key := body]
    {
      data := data[key := body];
    }

    method Get(key: Key) returns (r: Option<Bytes>)
      ensures r == if key in data then Some(data[key]) else None
    {
      r := if key in data then Some(data[key]) else None;
    }

    method Delete(key: Key)
      modifies this
      ensures data == old(data) - {key}
    {
      data := data - {key};
    }
  }
}
