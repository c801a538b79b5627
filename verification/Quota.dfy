/** Upload quotas: two stores behind one counter, under concurrent uploads. */
module Quota {
  /** What a counter that was never touched holds. */
  function Value(counts: map<string, int>, s: string): int {
    if s in counts then counts[s] else 0
  }

  datatype Consumed = Granted(remaining: int) | Exceeded

  // ---------- the memory store ----------

  function MemoryConsume(counts: map<string, int>, s: string, limit: int): (map<string, int>, Consumed) {
    if Value(counts, s) >= limit then (counts, Exceeded)
    else (counts[s := Value(counts, s) + 1], Granted(limit - (Value(counts, s) + 1)))
  }

  function MemoryRollback(counts: map<string, int>, s: string): map<string, int> {
    if Value(counts, s) > 0 then counts[s := Value(counts, s) - 1] else counts
  }

  class MemoryStore {
    var count: map<string, int>

    constructor ()
      ensures count == map[]
    {
      count := map[];
    }

    method Consume(subject: string, limit: int) returns (r: Consumed)
      modifies this
      ensures (count, r) == MemoryConsume(old(count), subject, limit)
    {
      var used := if subject in count then count[subject] else 0;
      if used >= limit {
        return Exceeded;
      }
      count := count[subject := used + 1];
      r := Granted(limit - count[subject]);
    }

    method Rollback(subject: string)
      modifies this
      ensures count == MemoryRollback(old(count), subject)
    {
      if subject in count && count[subject] > 0 {
        count := count[subject := count[subject] - 1];
      }
    }

    method Peek(subject: string, limit: int) returns (used: int, remaining: int)
      ensures used == Value(count, subject) && remaining == if limit - used < 0 then 0 else limit - used
    {
      used := if subject in count then count[subject] else 0;
      remaining := limit - used;
      if remaining < 0 {
        remaining := 0;
      }
    }
  }

  // ---------- the Redis store ----------

  /** The script is atomic. Its reply, -1 or the new count, is read by its sign. */
  function RedisConsume(keys: map<string, int>, s: string, limit: int): (map<string, int>, Consumed) {
    if Value(keys, s) >= limit then (keys, Exceeded)
    else
      var n := Value(keys, s) + 1;
      (keys[s := n], if n < 0 then Exceeded else Granted(if limit - n < 0 then 0 else limit - n))
  }

  /** DECR and GET are one transaction; setting a negative counter to 0 is a later command. */
  function RedisDecrement(keys: map<string, int>, s: string): (map<string, int>, bool) {
    (keys[s := Value(keys, s) - 1], Value(keys, s) - 1 < 0)
  }

  class RedisStore {
    var keys: map<string, int>

    constructor ()
      ensures keys == map[]
    {
      keys := map[];
    }

    method Consume(subject: string, limit: int) returns (r: Consumed)
      modifies this
      ensures (keys, r) == RedisConsume(old(keys), subject, limit)
    {
      var n := ConsumeScript(subject, limit);
      if n < 0 {
        return Exceeded;
      }
      var remaining := limit - n;
      if remaining < 0 {
        remaining := 0;
      }
      r := Granted(remaining);
    }

    method ConsumeScript(key: string, limit: int) returns (n: int)
      modifies this
      ensures keys == RedisConsume(old(keys), key, limit).0
      ensures n == if Value(old(keys), key) >= limit then -1 else Value(old(keys), key) + 1
    {
      var current := if key in keys then keys[key] else 0;
      if current >= limit {
        return -1;
      }
      keys := keys[key := current + 1];
      n := keys[key];
    }

    /** The whole of Rollback when nothing comes between its two commands. */
    method Rollback(subject: string)
      modifies this
      ensures
        var (after, negative) := RedisDecrement(old(keys), subject);
        keys == if negative then after[subject := 0] else after
    {
      var current := if subject in keys then keys[subject] else 0;
      keys := keys[subject := current - 1];
      var v := keys[subject];
      if v < 0 {
        keys := keys[subject := 0];
      }
    }

    method Peek(subject: string, limit: int) returns (used: int, remaining: int)
      ensures used == Value(keys, subject)
      ensures remaining == if subject in keys && limit - used < 0 then 0 else limit - used
    {
      if subject !in keys {
        return 0, limit;
      }
      used := keys[subject];
      remaining := limit - used;
      if remaining < 0 {
        remaining := 0;
      }
    }
  }

  // ---------- concurrent uploads ----------

  datatype Kind = Memory | Redis

  /** Where a request is. A lost one died, or could not roll back, after it had consumed. */
  datatype Phase =
    | Arrived | InFlight(remaining: int) | Accepted(remaining: int)
    | Failed | Resetting | Returned | Refused | Lost

  datatype Upload = Upload(subject: string, phase: Phase)

  datatype System = System(counts: map<string, int>, uploads: seq<Upload>)

  datatype Event =
    | Arrive(subject: string) | Consume(i: nat) | Succeed(i: nat) | Fail(i: nat) | Rollback(i: nat) | Reset(i: nat)
    | Lose(i: nat)

  function To(w: System, i: nat, p: Phase): System
    requires i < |w.uploads|
  {
    w.(uploads := w.uploads[i := w.uploads[i].(phase := p)])
  }

  /** One atomic step of one request; an event that does not apply changes nothing. */
  function Next(k: Kind, limit: string -> int, w: System, e: Event): System {
    match e
    case Arrive(s) => w.(uploads := w.uploads + [Upload(s, Arrived)])
    case Consume(i) =>
      if i >= |w.uploads| || w.uploads[i].phase != Arrived then w
      else
        var s := w.uploads[i].subject;
        var (counts, r) := if k == Memory then MemoryConsume(w.counts, s, limit(s))
            else RedisConsume(w.counts, s, limit(s));
        To(w.(counts := counts), i, if r.Granted? then InFlight(r.remaining) else Refused)
    case Succeed(i) =>
      if i >= |w.uploads| || !w.uploads[i].phase.InFlight? then w else To(w, i, Accepted(w.uploads[i].phase.remaining))
    case Fail(i) =>
      if i >= |w.uploads| || !w.uploads[i].phase.InFlight? then w else To(w, i, Failed)
    case Rollback(i) =>
      if i >= |w.uploads| || w.uploads[i].phase != Failed then w
      else if k == Memory then To(w.(counts := MemoryRollback(w.counts, w.uploads[i].subject)), i, Returned)
      else
        var (counts, negative) := RedisDecrement(w.counts, w.uploads[i].subject);
        To(w.(counts := counts), i, if negative then Resetting else Returned)
    case Reset(i) =>
      if i >= |w.uploads| || w.uploads[i].phase != Resetting then w
      else To(w.(counts := w.counts[w.uploads[i].subject := 0]), i, Returned)
    case Lose(i) =>
      if i >= |w.uploads| || !(w.uploads[i].phase.InFlight? || w.uploads[i].phase == Failed) then w else To(w, i, Lost)
  }

  function Play(k: Kind, limit: string -> int, events: seq<Event>): System {
    if events == [] then System(map[], [])
    else Next(k, limit, Play(k, limit, events[..|events| - 1]), events[|events| - 1])
  }

  /** Whether a request still holds the unit it consumed. */
  predicate Holds(p: Phase) { p.InFlight? || p.Accepted? || p == Failed || p == Lost }

  function Held(us: seq<Upload>, s: string): nat {
    if us == [] then 0
    else Held(us[..|us| - 1], s) + if us[|us| - 1].subject == s && Holds(us[|us| - 1].phase) then 1 else 0
  }

  lemma {:induction false} HeldMoves(us: seq<Upload>, i: nat, p: Phase, s: string)
    requires i < |us|
    ensures
      Held(us[i := us[i].(phase := p)], s)
        == Held(us, s) - (if us[i].subject == s && Holds(us[i].phase) then 1 else 0)
                       + (if us[i].subject == s && Holds(p) then 1 else 0)
    ensures us[i].subject == s && Holds(us[i].phase) ==> Held(us, s) >= 1
    decreases |us|
  {
    var n := |us| - 1;
    var us' := us[i := us[i].(phase := p)];
    if i == n {
      assert us'[..n] == us[..n];
    } else {
      assert us'[..n] == us[..n][i := us[i].(phase := p)];
      HeldMoves(us[..n], i, p, s);
    }
  }

  function Cap(limit: int): nat { if limit < 0 then 0 else limit }

  /** Every counter is the number of requests that hold a unit of it, and never above the
      limit; no reply was ever negative. */
  ghost predicate Balanced(limit: string -> int, w: System) {
    && (forall s :: Value(w.counts, s) == Held(w.uploads, s) <= Cap(limit(s)))
    && forall i :: 0 <= i < |w.uploads| ==> w.uploads[i].phase != Resetting
  }

  lemma Moved(limit: string -> int, w: System, counts: map<string, int>, i: nat, p: Phase)
    requires Balanced(limit, w) && i < |w.uploads| && p != Resetting
    requires
      var u := w.uploads[i];
      forall s ::
        Value(counts, s) == Value(w.counts, s) - (if u.subject == s && Holds(u.phase) then 1 else 0)
                                               + (if u.subject == s && Holds(p) then 1 else 0) <= Cap(limit(s))
    ensures Balanced(limit, To(w.(counts := counts), i, p))
  {
    hide Holds, Value, Held;
    forall s
      ensures Value(counts, s) == Held(w.uploads[i := w.uploads[i].(phase := p)], s) <= Cap(limit(s))
    {
      HeldMoves(w.uploads, i, p, s);
    }
  }

  lemma FailedHolds(limit: string -> int, w: System, i: nat)
    requires Balanced(limit, w) && i < |w.uploads| && Holds(w.uploads[i].phase)
    ensures Value(w.counts, w.uploads[i].subject) >= 1
  {
    HeldMoves(w.uploads, i, Lost, w.uploads[i].subject);
  }

  lemma NextBalanced(k: Kind, limit: string -> int, w: System, e: Event)
    requires Balanced(limit, w)
    ensures Balanced(limit, Next(k, limit, w, e))
  {
    hide Balanced, Held;
    match e
    case Arrive(s) => Arriving(limit, w, s);
    case Consume(i) =>
      if i < |w.uploads| && w.uploads[i].phase == Arrived {
        Consuming(k, limit, w, i);
      }
    case Succeed(i) =>
      if i < |w.uploads| && w.uploads[i].phase.InFlight? {
        Holding(limit, w, i, Accepted(w.uploads[i].phase.remaining));
      }
    case Fail(i) =>
      if i < |w.uploads| && w.uploads[i].phase.InFlight? {
        Holding(limit, w, i, Failed);
      }
    case Rollback(i) =>
      if i < |w.uploads| && w.uploads[i].phase == Failed {
        GivingBack(k, limit, w, i);
      }
    case Reset(i) =>
      if i < |w.uploads| {
        NoReset(limit, w, i);
      }
    case Lose(i) =>
      if i < |w.uploads| && (w.uploads[i].phase.InFlight? || w.uploads[i].phase == Failed) {
        Holding(limit, w, i, Lost);
      }
  }

  lemma NoReset(limit: string -> int, w: System, i: nat)
    requires Balanced(limit, w) && i < |w.uploads|
    ensures w.uploads[i].phase != Resetting
  {}

  lemma Arriving(limit: string -> int, w: System, s: string)
    requires Balanced(limit, w)
    ensures Balanced(limit, w.(uploads := w.uploads + [Upload(s, Arrived)]))
  {
    var us := w.uploads + [Upload(s, Arrived)];
    assert us[..|w.uploads|] == w.uploads;
    hide Value;
    assert forall t :: Held(us, t) == Held(w.uploads, t);
  }

  lemma Holding(limit: string -> int, w: System, i: nat, p: Phase)
    requires Balanced(limit, w) && i < |w.uploads| && Holds(w.uploads[i].phase) && Holds(p)
    ensures Balanced(limit, To(w, i, p))
  {
    hide Held, Value;
    Moved(limit, w, w.counts, i, p);
    assert w.(counts := w.counts) == w;
  }

  lemma Consuming(k: Kind, limit: string -> int, w: System, i: nat)
    requires Balanced(limit, w) && i < |w.uploads| && w.uploads[i].phase == Arrived
    ensures Balanced(limit, Next(k, limit, w, Consume(i)))
  {
    hide Held;
    var s := w.uploads[i].subject;
    var (counts, r) := if k == Memory then MemoryConsume(w.counts, s, limit(s))
        else RedisConsume(w.counts, s, limit(s));
    assert Value(w.counts, s) >= 0;
    Moved(limit, w, counts, i, if r.Granted? then InFlight(r.remaining) else Refused);
  }

  lemma GivingBack(k: Kind, limit: string -> int, w: System, i: nat)
    requires Balanced(limit, w) && i < |w.uploads| && w.uploads[i].phase == Failed
    ensures Balanced(limit, Next(k, limit, w, Rollback(i)))
  {
    hide Held;
    FailedHolds(limit, w, i);
    var s := w.uploads[i].subject;
    var counts := if k == Memory then MemoryRollback(w.counts, s) else RedisDecrement(w.counts, s).0;
    Moved(limit, w, counts, i, Returned);
  }

  /** Conservation, for either store: whatever uploads run at once and however they end,
      each counter is what is accepted, in flight or lost, and never above the limit. */
  lemma {:induction false} QuotaConserved(k: Kind, limit: string -> int, events: seq<Event>)
    ensures Balanced(limit, Play(k, limit, events))
  {
    if events != [] {
      QuotaConserved(k, limit, events[..|events| - 1]);
      NextBalanced(k, limit, Play(k, limit, events[..|events| - 1]), events[|events| - 1]);
    }
  }

  function AcceptedBy(us: seq<Upload>, s: string): nat {
    if us == [] then 0
    else AcceptedBy(us[..|us| - 1], s) + if us[|us| - 1].subject == s && us[|us| - 1].phase.Accepted? then 1 else 0
  }

  lemma {:induction false} AcceptedHold(us: seq<Upload>, s: string)
    ensures AcceptedBy(us, s) <= Held(us, s)
  {
    if us != [] {
      AcceptedHold(us[..|us| - 1], s);
    }
  }

  /** No subject ever gets more uploads accepted than its limit. */
  lemma NeverOverQuota(k: Kind, limit: string -> int, events: seq<Event>, s: string)
    ensures AcceptedBy(Play(k, limit, events).uploads, s) <= Cap(limit(s))
  {
    QuotaConserved(k, limit, events);
    AcceptedHold(Play(k, limit, events).uploads, s);
    assert Value(Play(k, limit, events).counts, s) <= Cap(limit(s));
  }

  /** What a request is told, by either store and after any run: it is refused exactly when its
      subject holds as many units as its limit, and otherwise told how many are left once it
      holds one itself. */
  lemma ReplyTells(k: Kind, limit: string -> int, events: seq<Event>, i: nat)
    requires
      var w := Play(k, limit, events);
      i < |w.uploads| && w.uploads[i].phase == Arrived
    ensures
      var w := Play(k, limit, events);
      var s := w.uploads[i].subject;
      var w' := Next(k, limit, w, Consume(i));
      && w'.uploads == w.uploads[i := w'.uploads[i]]
      && (Held(w.uploads, s) >= limit(s) ==> w'.uploads[i] == Upload(s, Refused))
      && (Held(w.uploads, s) < limit(s) ==>
            w'.uploads[i] == Upload(s, InFlight(limit(s) - Held(w'.uploads, s)))
            && Held(w'.uploads, s) == Held(w.uploads, s) + 1)
  {
    var w := Play(k, limit, events);
    var s := w.uploads[i].subject;
    QuotaConserved(k, limit, events);
    var n := Held(w.uploads, s);
    assert Value(w.counts, s) == n;
    hide Play, Next, Balanced, Held, Value;
    Replied(k, limit, w, i, n);
    if n < limit(s) {
      HeldMoves(w.uploads, i, InFlight(limit(s) - n - 1), s);
    }
  }

  lemma Replied(k: Kind, limit: string -> int, w: System, i: nat, n: nat)
    requires i < |w.uploads| && w.uploads[i].phase == Arrived && Value(w.counts, w.uploads[i].subject) == n
    ensures
      var s := w.uploads[i].subject;
      Next(k, limit, w, Consume(i)).uploads
        == w.uploads[i := Upload(s, if n >= limit(s) then Refused else InFlight(limit(s) - n - 1))]
  {
    hide Value;
  }

  /** A request that gives its unit back lowers what its subject holds by one, and no other. */
  lemma GivenBack(k: Kind, limit: string -> int, events: seq<Event>, i: nat, s: string)
    requires
      var w := Play(k, limit, events);
      i < |w.uploads| && w.uploads[i].phase == Failed
    ensures
      var w := Play(k, limit, events);
      var w' := Next(k, limit, w, Rollback(i));
      && w'.uploads[i].phase == Returned
      && Value(w'.counts, s) == Value(w.counts, s) - if w.uploads[i].subject == s then 1 else 0
  {
    var w := Play(k, limit, events);
    QuotaConserved(k, limit, events);
    hide Play, Held;
    FailedHolds(limit, w, i);
  }

  ghost predicate SameCounter(a: System, b: System) {
    a.uploads == b.uploads && forall s :: Value(a.counts, s) == Value(b.counts, s)
  }

  lemma ConsumeAgrees(a: map<string, int>, b: map<string, int>, s: string, limit: int)
    requires Value(a, s) >= 0 && forall t :: Value(a, t) == Value(b, t)
    ensures
      var (a', x) := MemoryConsume(a, s, limit);
      var (b', y) := RedisConsume(b, s, limit);
      x == y && forall t :: Value(a', t) == Value(b', t)
  {
    assert Value(a, s) == Value(b, s);
    forall t
      ensures Value(MemoryConsume(a, s, limit).0, t) == Value(RedisConsume(b, s, limit).0, t)
    {
      assert Value(a, t) == Value(b, t);
    }
  }

  lemma RollbackAgrees(a: map<string, int>, b: map<string, int>, s: string)
    requires Value(a, s) >= 1 && forall t :: Value(a, t) == Value(b, t)
    ensures !RedisDecrement(b, s).1
    ensures forall t :: Value(MemoryRollback(a, s), t) == Value(RedisDecrement(b, s).0, t)
  {
    assert Value(a, s) == Value(b, s);
    forall t
      ensures Value(MemoryRollback(a, s), t) == Value(RedisDecrement(b, s).0, t)
    {
      assert Value(a, t) == Value(b, t);
    }
  }

  lemma NextAgrees(limit: string -> int, a: System, b: System, e: Event)
    requires SameCounter(a, b) && Balanced(limit, a) && Balanced(limit, b)
    ensures SameCounter(Next(Memory, limit, a, e), Next(Redis, limit, b, e))
  {
    hide Held;
    if e.Rollback? && e.i < |a.uploads| && a.uploads[e.i].phase == Failed {
      FailedHolds(limit, a, e.i);
      RollbackAgrees(a.counts, b.counts, a.uploads[e.i].subject);
      hide Value, MemoryRollback, RedisDecrement, Balanced;
    } else if e.Consume? && e.i < |a.uploads| && a.uploads[e.i].phase == Arrived {
      ConsumeAgrees(a.counts, b.counts, a.uploads[e.i].subject, limit(a.uploads[e.i].subject));
      hide Value, MemoryConsume, RedisConsume, Balanced;
    }
  }

  /** The two stores are one counter: after any run they have given every request the
      same answer and hold the same numbers, and Redis never reset one to 0. */
  lemma {:induction false} StoresAgree(limit: string -> int, events: seq<Event>)
    ensures SameCounter(Play(Memory, limit, events), Play(Redis, limit, events))
    ensures forall u :: u in Play(Redis, limit, events).uploads ==> u.phase != Resetting
  {
    QuotaConserved(Redis, limit, events);
    hide SameCounter;
    if events == [] {
      assert SameCounter(System(map[], []), System(map[], [])) by { FreshAgree(); }
    } else {
      var init := events[..|events| - 1];
      StoresAgree(limit, init);
      QuotaConserved(Memory, limit, init);
      QuotaConserved(Redis, limit, init);
      hide Balanced, Next;
      NextAgrees(limit, Play(Memory, limit, init), Play(Redis, limit, init), events[|events| - 1]);
    }
  }

  lemma FreshAgree()
    ensures SameCounter(System(map[], []), System(map[], []))
  {}
}
