/** The token bucket of the HTTP middleware, per client address. */
module RateLimiter {

  datatype Visitor = Visitor(tokens: real, last: real)

  /** Tokens per second, and the capacity of a bucket. */
  datatype Limits = Limits(rate: real, burst: real)

  predicate LimitsOk(l: Limits) { l.rate > 0.0 && l.burst >= 1.0 }

  function Earned(l: Limits, seconds: real): real { seconds * l.rate }

  /** The level of a bucket once what was earned since the last visit is poured in. */
  function Refilled(l: Limits, v: Visitor, now: real): real {
    var t := v.tokens + Earned(l, now - v.last);
    if t > l.burst then l.burst else t
  }

  function Step(l: Limits, vs: map<string, Visitor>, key: string, now: real): (map<string, Visitor>, bool) {
    if key !in vs then (vs[key := Visitor(l.burst - 1.0, now)], true)
    else
      var t := Refilled(l, vs[key], now);
      if t < 1.0 then (vs[key := Visitor(t, now)], false) else (vs[key := Visitor(t - 1.0, now)], true)
  }

  class RateLimiter {
    var visitors: map<string, Visitor>
    const limits: Limits

    /** NewRateLimiter: the defaults are 120 a minute and a burst of 30. */
    constructor (perMinute: int, burst: int)
      ensures LimitsOk(limits) && visitors == map[]
      ensures limits.rate * 60.0 == if perMinute < 1 then 120.0 else perMinute as real
      ensures limits.burst == if burst < 1 then 30.0 else burst as real
    {
      var p := if perMinute < 1 then 120 else perMinute;
      var b := if burst < 1 then 30 else burst;
      limits := Limits(p as real / 60.0, b as real);
      visitors := map[];
    }

    method Allow(key: string, now: real) returns (ok: bool)
      modifies this
      ensures (visitors, ok) == Step(limits, old(visitors), key, now)
    {
      if key !in visitors {
        visitors := visitors[key := Visitor(limits.burst - 1.0, now)];
        return true;
      }
      var v := visitors[key];
      var elapsed := now - v.last;
      var tokens := v.tokens + elapsed * limits.rate;
      if tokens > limits.burst {
        tokens := limits.burst;
      }
      assert tokens == Refilled(limits, v, now);
      if tokens < 1.0 {
        visitors := visitors[key := Visitor(tokens, now)];
        return false;
      }
      tokens := tokens - 1.0;
      visitors := visitors[key := Visitor(tokens, now)];
      ok := true;
    }
  }

  // ---------- traces ----------

  datatype Request = Request(key: string, at: real)

  function After(l: Limits, trace: seq<Request>): map<string, Visitor> {
    if trace == [] then map[]
    else
      var n := |trace| - 1;
      Step(l, After(l, trace[..n]), trace[n].key, trace[n].at).0
  }

  /** Whether request n is let through. */
  predicate Allowed(l: Limits, trace: seq<Request>, n: nat)
    requires n < |trace|
  {
    Step(l, After(l, trace[..n]), trace[n].key, trace[n].at).1
  }

  /** How many requests of one client among i, ..., j - 1 are let through. */
  function Count(l: Limits, trace: seq<Request>, key: string, i: nat, j: nat): nat
    requires i <= j <= |trace|
    decreases j
  {
    if i == j then 0
    else Count(l, trace, key, i, j - 1) + if trace[j - 1].key == key && Allowed(l, trace, j - 1) then 1 else 0
  }

  /** The clock does not run backwards. */
  predicate Monotone(trace: seq<Request>) {
    forall i, j :: 0 <= i <= j < |trace| ==> trace[i].at <= trace[j].at
  }

  // ---------- the level of a bucket ----------

  lemma EarnedAdds(l: Limits, a: real, b: real, c: real)
    ensures Earned(l, c - a) == Earned(l, b - a) + Earned(l, c - b)
    ensures LimitsOk(l) && a <= b ==> Earned(l, b - a) >= 0.0
    ensures Earned(l, a - a) == 0.0
  {}

  /** The level found by request n. */
  function Level(l: Limits, trace: seq<Request>, n: nat): real
    requires n < |trace|
  {
    var vs := After(l, trace[..n]);
    if trace[n].key in vs then Refilled(l, vs[trace[n].key], trace[n].at) else l.burst
  }

  function Taken(l: Limits, trace: seq<Request>, n: nat): real
    requires n < |trace|
  {
    if Allowed(l, trace, n) then 1.0 else 0.0
  }

  lemma AllowedIffLevel(l: Limits, trace: seq<Request>, n: nat)
    requires n < |trace| && LimitsOk(l)
    ensures Allowed(l, trace, n) <==> Level(l, trace, n) >= 1.0
    ensures
      After(l, trace[..n + 1])
        == After(l, trace[..n])[trace[n].key := Visitor(Level(l, trace, n) - Taken(l, trace, n), trace[n].at)]
  {
    assert trace[..n + 1][..n] == trace[..n];
  }

  /** Request p is the client's last before n. */
  predicate Previous(trace: seq<Request>, key: string, p: nat, n: nat)
    requires p < n <= |trace|
  {
    trace[p].key == key && forall k :: p < k < n ==> trace[k].key != key
  }

  lemma {:induction false} LastVisit(l: Limits, trace: seq<Request>, key: string, n: nat) returns (p: int)
    requires n <= |trace| && LimitsOk(l)
    ensures -1 <= p < n
    ensures p == -1 ==> key !in After(l, trace[..n]) && forall k :: 0 <= k < n ==> trace[k].key != key
    ensures
      p >= 0 ==>
        && Previous(trace, key, p, n) && key in After(l, trace[..n])
        && After(l, trace[..n])[key] == Visitor(Level(l, trace, p) - Taken(l, trace, p), trace[p].at)
  {
    hide Level, Taken;
    if n == 0 {
      p := -1;
    } else {
      AllowedIffLevel(l, trace, n - 1);
      hide After;
      if trace[n - 1].key == key {
        p := n - 1;
      } else {
        p := LastVisit(l, trace, key, n - 1);
      }
    }
  }

  lemma {:induction false} CountSkips(l: Limits, trace: seq<Request>, key: string, i: nat, m: nat, n: nat)
    requires i <= m <= n <= |trace| && forall k :: m <= k < n ==> trace[k].key != key
    ensures Count(l, trace, key, i, n) == Count(l, trace, key, i, m)
    decreases n
  {
    hide Allowed;
    if m < n {
      CountSkips(l, trace, key, i, m, n - 1);
    }
  }

  lemma NoneCounted(l: Limits, trace: seq<Request>, key: string, i: nat, n: nat)
    requires i <= n <= |trace| && forall k :: i <= k < n ==> trace[k].key != key
    ensures Count(l, trace, key, i, n) == 0
  {
    CountSkips(l, trace, key, i, i, n);
  }

  lemma CountPrevious(l: Limits, trace: seq<Request>, key: string, i: nat, p: nat, n: nat)
    requires i <= p < n <= |trace| && Previous(trace, key, p, n)
    ensures Count(l, trace, key, i, n) as real == Count(l, trace, key, i, p) as real + Taken(l, trace, p)
  {
    hide Allowed;
    CountSkips(l, trace, key, i, p + 1, n);
  }

  /** The level after a previous visit. */
  lemma LevelFrom(l: Limits, trace: seq<Request>, p: nat, n: nat)
    requires p < n < |trace| && LimitsOk(l)
    requires trace[n].key in After(l, trace[..n])
    requires After(l, trace[..n])[trace[n].key] == Visitor(Level(l, trace, p) - Taken(l, trace, p), trace[p].at)
    ensures
      var t := Level(l, trace, p) - Taken(l, trace, p) + Earned(l, trace[n].at - trace[p].at);
      Level(l, trace, n) == if t > l.burst then l.burst else t
  {
    hide After, Taken;
  }

  lemma {:induction false} LevelInRange(l: Limits, trace: seq<Request>, n: nat)
    requires n < |trace| && LimitsOk(l) && Monotone(trace)
    ensures 0.0 <= Level(l, trace, n) <= l.burst
    decreases n
  {
    var p := LastVisit(l, trace, trace[n].key, n);
    hide After, Allowed, Earned;
    if p >= 0 {
      LevelInRange(l, trace, p);
      AllowedIffLevel(l, trace, p);
      LevelFrom(l, trace, p, n);
      EarnedAdds(l, trace[p].at, trace[n].at, trace[n].at);
    }
  }

  /** The tokens of every bucket stay between none and the burst. */
  lemma TokensInRange(l: Limits, trace: seq<Request>, key: string)
    requires LimitsOk(l) && Monotone(trace) && key in After(l, trace)
    ensures 0.0 <= After(l, trace)[key].tokens <= l.burst
  {
    assert trace[..|trace|] == trace;
    var p := LastVisit(l, trace, key, |trace|);
    LevelInRange(l, trace, p);
    AllowedIffLevel(l, trace, p);
  }

  lemma {:induction false} LevelBound(l: Limits, trace: seq<Request>, i: nat, n: nat)
    requires i <= n < |trace| && LimitsOk(l) && Monotone(trace)
    ensures
      Level(l, trace, n) + Count(l, trace, trace[n].key, i, n) as real <= l.burst + Earned(l, trace[n].at - trace[i].at)
    decreases n
  {
    var key := trace[n].key;
    LevelInRange(l, trace, n);
    EarnedAdds(l, trace[i].at, trace[n].at, trace[n].at);
    var p := LastVisit(l, trace, key, n);
    hide After, Allowed, Earned, Level, Count, Taken;
    if p < i {
      NoneCounted(l, trace, key, i, n);
    } else {
      LevelBound(l, trace, i, p);
      LevelFrom(l, trace, p, n);
      CountPrevious(l, trace, key, i, p, n);
      EarnedAdds(l, trace[i].at, trace[p].at, trace[n].at);
    }
  }

  /** Some window explains the level exactly: the one since the bucket was last full. */
  lemma {:induction false} LevelReached(l: Limits, trace: seq<Request>, n: nat) returns (i: nat)
    requires n < |trace| && LimitsOk(l) && Monotone(trace)
    ensures i <= n && trace[i].key == trace[n].key
    ensures
      Level(l, trace, n) + Count(l, trace, trace[n].key, i, n) as real == l.burst + Earned(l, trace[n].at - trace[i].at)
    decreases n
  {
    var key := trace[n].key;
    i := n;
    EarnedAdds(l, trace[n].at, trace[n].at, trace[n].at);
    NoneCounted(l, trace, key, n, n);
    var p := LastVisit(l, trace, key, n);
    hide Allowed, Earned, Count, Taken;
    if p >= 0 {
      LevelFrom(l, trace, p, n);
      hide Level, After;
      if Level(l, trace, n) != l.burst {
        i := LevelReached(l, trace, p);
        CountPrevious(l, trace, key, i, p, n);
        EarnedAdds(l, trace[i].at, trace[p].at, trace[n].at);
      }
    }
  }

  // ---------- what the limiter promises ----------

  /** With request n let through, the client stays within the bound since request i. */
  predicate Fits(l: Limits, trace: seq<Request>, i: nat, n: nat)
    requires i <= n < |trace|
  {
    Count(l, trace, trace[n].key, i, n) as real + 1.0 <= l.burst + Earned(l, trace[n].at - trace[i].at)
  }

  /** The limiter lets a request through exactly when no window of the client's past
      would then hold more than the burst and what was earned during it: it refuses
      nothing that the bound allows, and allows nothing that the bound forbids. */
  lemma AllowedIffEveryWindowFits(l: Limits, trace: seq<Request>, n: nat)
    requires n < |trace| && LimitsOk(l) && Monotone(trace)
    ensures Allowed(l, trace, n) <==> forall i :: 0 <= i <= n && trace[i].key == trace[n].key ==> Fits(l, trace, i, n)
  {
    AllowedIffLevel(l, trace, n);
    hide Level, Count, Earned, Allowed, After;
    forall i | 0 <= i <= n && Allowed(l, trace, n)
      ensures Fits(l, trace, i, n)
    {
      LevelBound(l, trace, i, n);
    }
    var i := LevelReached(l, trace, n);
    if !Allowed(l, trace, n) {
      assert !Fits(l, trace, i, n);
    }
  }

  /** In any window, of whatever clients the requests between are, at most the burst and
      what is earned during it get through for one client. */
  lemma {:induction false} WindowBound(l: Limits, trace: seq<Request>, key: string, i: nat, j: nat)
    requires i <= j < |trace| && LimitsOk(l) && Monotone(trace)
    ensures Count(l, trace, key, i, j + 1) as real <= l.burst + Earned(l, trace[j].at - trace[i].at)
    decreases j
  {
    hide Level, Earned, Allowed, After;
    AllowedIffLevel(l, trace, j);
    EarnedAdds(l, trace[i].at, trace[j].at, trace[j].at);
    if trace[j].key == key && Allowed(l, trace, j) {
      LevelBound(l, trace, i, j);
    } else if i < j {
      WindowBound(l, trace, key, i, j - 1);
      EarnedAdds(l, trace[i].at, trace[j - 1].at, trace[j].at);
      EarnedAdds(l, trace[j - 1].at, trace[j].at, trace[j].at);
    }
  }

  /** A client that waits for a token between any two of its requests is never refused. */
  lemma SpacedNeverRefused(l: Limits, trace: seq<Request>, key: string, n: nat)
    requires n < |trace| && trace[n].key == key && LimitsOk(l) && Monotone(trace)
    requires forall i, j :: 0 <= i < j < |trace| && trace[i].key == key && trace[j].key == key ==>
               trace[j].at - trace[i].at >= 1.0 / l.rate
    ensures Allowed(l, trace, n)
  {
    AllowedIffLevel(l, trace, n);
    var p := LastVisit(l, trace, key, n);
    hide Allowed, After;
    if p >= 0 {
      LevelInRange(l, trace, p);
      AllowedIffLevel(l, trace, p);
      LevelFrom(l, trace, p, n);
      TokenEarned(l, trace[n].at - trace[p].at);
    }
  }

  lemma TokenEarned(l: Limits, d: real)
    requires LimitsOk(l) && d >= 1.0 / l.rate
    ensures Earned(l, d) >= 1.0
  {
    assert (d - 1.0 / l.rate) * l.rate >= 0.0;
    assert 1.0 / l.rate * l.rate == 1.0;
  }

  /** Other clients do not matter: what one client is told depends on its own requests. */
  lemma {:induction false} OthersDoNotMatter(l: Limits, a: seq<Request>, b: seq<Request>, key: string)
    requires LimitsOk(l) && Own(a, key) == Own(b, key)
    ensures key in After(l, a) <==> key in After(l, b)
    ensures key in After(l, a) ==> After(l, a)[key] == After(l, b)[key]
    decreases |a| + |b|
  {
    if a != [] && a[|a| - 1].key != key {
      OthersDoNotMatter(l, a[..|a| - 1], b, key);
    } else if b != [] && b[|b| - 1].key != key {
      OthersDoNotMatter(l, a, b[..|b| - 1], key);
    } else if a != [] {
      assert Own(a, key)[..|Own(a, key)| - 1] == Own(a[..|a| - 1], key);
      assert Own(b, key)[..|Own(b, key)| - 1] == Own(b[..|b| - 1], key);
      OthersDoNotMatter(l, a[..|a| - 1], b[..|b| - 1], key);
    }
  }

  function Own(trace: seq<Request>, key: string): seq<Request> {
    if trace == [] then []
    else Own(trace[..|trace| - 1], key) + if trace[|trace| - 1].key == key then [trace[|trace| - 1]] else []
  }
}
