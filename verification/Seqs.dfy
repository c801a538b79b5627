/** Sequences without repeats, sequences thinned out, and stable sorting. */
module Seqs {

  ghost predicate NoDup<T(!new)>(s: seq<T>) {
    forall i, j :: 0 <= i < j < |s| ==> s[i] != s[j]
  }

  /** a is what is left of b after dropping some elements. */
  ghost predicate Sub<T(!new)>(a: seq<T>, b: seq<T>)
    decreases |b|
  {
    a == [] || (b != [] && ((a[0] == b[0] && Sub(a[1..], b[1..])) || Sub(a, b[1..])))
  }

  lemma {:induction false} SubSelf<T(!new)>(a: seq<T>)
    ensures Sub(a, a)
  {
    if a != [] {
      SubSelf(a[1..]);
    }
  }

  lemma SubCons<T(!new)>(x: T, a: seq<T>, b: seq<T>)
    requires Sub(a, b)
    ensures Sub([x] + a, [x] + b)
  {
    assert ([x] + a)[1..] == a && ([x] + b)[1..] == b;
  }

  lemma SubSkips<T(!new)>(x: T, a: seq<T>, b: seq<T>)
    requires Sub(a, b)
    ensures Sub(a, [x] + b)
  {
    assert ([x] + b)[1..] == b;
  }

  lemma {:induction false} SubAppend<T(!new)>(a: seq<T>, b: seq<T>, c: seq<T>, d: seq<T>)
    requires Sub(a, b) && Sub(c, d)
    ensures Sub(a + c, b + d)
    decreases |b|
  {
    if b == [] {
      assert a + c == c && b + d == d;
    } else {
      assert (b + d)[0] == b[0] && (b + d)[1..] == b[1..] + d;
      if a != [] && a[0] == b[0] && Sub(a[1..], b[1..]) {
        SubAppend(a[1..], b[1..], c, d);
        SubFirst(a + c, b + d, a[1..] + c, b[1..] + d);
      } else {
        SubAppend(a, b[1..], c, d);
      }
    }
  }

  lemma SubFirst<T(!new)>(a: seq<T>, b: seq<T>, a': seq<T>, b': seq<T>)
    requires a != [] && b != [] && a[0] == b[0] && a[1..] == a' && b[1..] == b' && Sub(a', b')
    ensures Sub(a, b)
  {}

  lemma {:induction false} SubMembers<T(!new)>(a: seq<T>, b: seq<T>)
    requires Sub(a, b)
    ensures forall i :: 0 <= i < |a| ==> a[i] in b
    decreases |b|
  {
    if a != [] {
      if a[0] == b[0] && Sub(a[1..], b[1..]) {
        SubMembers(a[1..], b[1..]);
        assert forall i :: 0 < i < |a| ==> a[i] == a[1..][i - 1];
      } else {
        SubMembers(a, b[1..]);
      }
    }
  }

  lemma {:induction false} SubNoDup<T(!new)>(a: seq<T>, b: seq<T>)
    requires Sub(a, b) && NoDup(b)
    ensures NoDup(a)
    decreases |b|
  {
    if a != [] {
      if a[0] == b[0] && Sub(a[1..], b[1..]) {
        SubNoDup(a[1..], b[1..]);
        SubMembers(a[1..], b[1..]);
        assert forall i :: 0 < i < |a| ==> a[i] == a[1..][i - 1];
        assert forall i :: 0 <= i < |b| - 1 ==> b[1..][i] == b[i + 1] != b[0];
      } else {
        SubNoDup(a, b[1..]);
      }
    }
  }

  predicate Ascending(s: seq<int>) {
    forall i, j :: 0 <= i < j < |s| ==> s[i] < s[j]
  }

  lemma {:induction false} SubAscending(a: seq<int>, b: seq<int>)
    requires Sub(a, b) && Ascending(b)
    ensures Ascending(a)
    decreases |b|
  {
    if a != [] {
      if a[0] == b[0] && Sub(a[1..], b[1..]) {
        SubAscending(a[1..], b[1..]);
        SubMembers(a[1..], b[1..]);
        assert forall i :: 0 < i < |a| ==> a[i] == a[1..][i - 1];
        assert forall i :: 0 <= i < |b| - 1 ==> b[1..][i] == b[i + 1] > b[0];
      } else {
        SubAscending(a, b[1..]);
      }
    }
  }

  lemma NoDupAppend<T(!new)>(a: seq<T>, b: seq<T>)
    requires NoDup(a) && NoDup(b) && forall x :: x in a ==> x !in b
    ensures NoDup(a + b)
  {
    forall i, j | 0 <= i < j < |a + b|
      ensures (a + b)[i] != (a + b)[j]
    {
      if i < |a| && j >= |a| {
        assert (a + b)[i] in a && (a + b)[j] in b;
      }
    }
  }

  /** r is s in the order of `key`, whatever sorting routine produced it. */
  ghost predicate SortedBy<T(!new)>(key: T -> int, s: seq<T>, r: seq<T>) {
    multiset(r) == multiset(s) && forall i, j :: 0 <= i < j < |r| ==> key(r[i]) <= key(r[j])
  }

  lemma {:induction false} HeadOfSorted<T(!new)>(key: T -> int, s: seq<T>, r: seq<T>)
    requires SortedBy(key, s, r) && s != []
    requires forall i, j :: 0 <= i < j < |s| ==> key(s[i]) < key(s[j])
    ensures r != [] && r[0] == s[0]
  {
    assert |multiset(r)| == |r| && |multiset(s)| == |s|;
    assert s[0] in multiset(s) && r[0] in multiset(r);
    assert s[0] in r && r[0] in s;
  }

  lemma TailSorted<T(!new)>(key: T -> int, s: seq<T>, r: seq<T>)
    requires SortedBy(key, s, r) && s != [] && r != [] && r[0] == s[0]
    ensures SortedBy(key, s[1..], r[1..])
  {
    assert s == [s[0]] + s[1..] && r == [r[0]] + r[1..];
    assert multiset(r[1..]) == multiset(r) - multiset{r[0]};
    assert multiset(s[1..]) == multiset(s) - multiset{s[0]};
  }

  /** Sorting what is strictly ascending changes nothing. */
  lemma {:induction false} SortIsIdentity<T(!new)>(key: T -> int, s: seq<T>, r: seq<T>)
    requires SortedBy(key, s, r)
    requires forall i, j :: 0 <= i < j < |s| ==> key(s[i]) < key(s[j])
    ensures r == s
    decreases |s|
  {
    assert |multiset(r)| == |r| && |multiset(s)| == |s|;
    hide SortedBy;
    if s != [] {
      HeadOfSorted(key, s, r);
      TailSorted(key, s, r);
      SortIsIdentity(key, s[1..], r[1..]);
      assert s == [s[0]] + s[1..] && r == [r[0]] + r[1..];
    }
  }
}
