/** The page-level OCR fan-out: one goroutine a page, a semaphore, and a mutex
    around the result map, the counter and the progress write, under every
    interleaving. */
module OcrFanout {
  import opened Domain
  import opened EngineSteps
  import P = Progress

  /** parallelOCR. */
  function ParallelOcr(configured: int): (n: nat)
    ensures 1 <= n <= 4
    ensures 1 <= configured <= 4 ==> n == configured
    ensures configured < 1 ==> n == 2
    ensures configured > 4 ==> n == 4
  {
    if configured < 1 then 2 else if configured > 4 then 4 else configured
  }

  /** Where a goroutine is. It holds a semaphore slot from Calling to Leaving, and
      the mutex from Locked to Counted. */
  datatype Go = Waiting | Calling | Fetched | Locked | Stored | Counted | Leaving(ok: bool) | Finished(ok: bool)

  datatype Fan = Fan(gos: seq<Go>, slots: nat, holder: Option<nat>, byPage: map<int, Bytes>, done: nat, log: seq<int>)

  datatype Job = Job(pages: seq<int>, ocr: int -> Bytes, slots: nat, start: int, end: int)

  function Init(j: Job): Fan {
    Fan(seq(|j.pages|, _ => Waiting), 0, None, map[], 0, [])
  }

  predicate Enabled(j: Job, s: Fan, i: nat) {
    i < |s.gos| && i < |j.pages| &&
    match s.gos[i]
    case Waiting => s.slots < j.slots
    case Fetched => s.holder == None
    case Finished(_) => false
    case _ => true
  }

  /** One step of goroutine i; `ok` is the outcome of its provider call. */
  function Step(j: Job, s: Fan, i: nat, ok: bool): Fan
    requires Enabled(j, s, i)
  {
    match s.gos[i]
    case Waiting => s.(gos := s.gos[i := Calling], slots := s.slots + 1)
    case Calling => s.(gos := s.gos[i := if ok then Fetched else Leaving(false)])
    case Fetched => s.(gos := s.gos[i := Locked], holder := Some(i))
    case Locked => s.(gos := s.gos[i := Stored], byPage := s.byPage[j.pages[i] := j.ocr(j.pages[i])])
    case Stored => s.(gos := s.gos[i := Counted], done := s.done + 1)
    case Counted =>
      s.(gos := s.gos[i := Leaving(true)], holder := None,
         log := s.log + [OcrPct(s.done, |j.pages|, j.start, j.end)])
    case Leaving(b) => s.(gos := s.gos[i := Finished(b)], slots := if s.slots > 0 then s.slots - 1 else 0)
    case Finished(_) => s
  }

  /** Any schedule; a goroutine that cannot move when scheduled stays where it is. */
  function Play(j: Job, schedule: seq<(nat, bool)>): Fan
    decreases |schedule|
  {
    if schedule == [] then Init(j)
    else
      var s := Play(j, schedule[..|schedule| - 1]);
      var (i, ok) := schedule[|schedule| - 1];
      if Enabled(j, s, i) then Step(j, s, i, ok) else s
  }

  // ---------- counting goroutines ----------

  function Count(gos: seq<Go>, p: Go -> bool): (n: nat)
    ensures n <= |gos|
  {
    if gos == [] then 0 else (if p(gos[0]) then 1 else 0) + Count(gos[1..], p)
  }

  lemma {:induction false} CountUpdate(gos: seq<Go>, p: Go -> bool, i: nat, g: Go)
    requires i < |gos|
    ensures Count(gos[i := g], p) == Count(gos, p) - (if p(gos[i]) then 1 else 0) + (if p(g) then 1 else 0)
  {
    if i == 0 {
      assert gos[i := g][1..] == gos[1..];
    } else {
      CountUpdate(gos[1..], p, i - 1, g);
      assert gos[i := g][1..] == gos[1..][i - 1 := g];
    }
  }

  lemma {:induction false} CountAll(gos: seq<Go>, p: Go -> bool, v: bool)
    requires forall i :: 0 <= i < |gos| ==> p(gos[i]) == v
    ensures Count(gos, p) == if v then |gos| else 0
  {
    if gos != [] {
      CountAll(gos[1..], p, v);
    }
  }

  lemma {:induction false} CountWitness(gos: seq<Go>, p: Go -> bool) returns (i: nat)
    requires Count(gos, p) > 0
    ensures i < |gos| && p(gos[i])
  {
    if p(gos[0]) {
      i := 0;
    } else {
      i := CountWitness(gos[1..], p);
      i := i + 1;
    }
  }

  lemma {:induction false} CountImplies(gos: seq<Go>, p: Go -> bool, q: Go -> bool)
    requires forall g: Go :: p(g) ==> q(g)
    ensures Count(gos, p) <= Count(gos, q)
  {
    if gos != [] {
      CountImplies(gos[1..], p, q);
    }
  }

  const HOLDS_SLOT: Go -> bool := (g: Go) => !g.Waiting? && !g.Finished?
  const IN_CALL: Go -> bool := (g: Go) => g.Calling?
  const HAS_COUNTED: Go -> bool := (g: Go) => g.Counted? || g == Leaving(true) || g == Finished(true)
  const HAS_REPORTED: Go -> bool := (g: Go) => g == Leaving(true) || g == Finished(true)

  predicate HasStored(g: Go) { g.Stored? || g.Counted? || g == Leaving(true) || g == Finished(true) }

  predicate Critical(g: Go) { g.Locked? || g.Stored? || g.Counted? }

  // ---------- the invariant ----------

  /** byPage holds exactly the pages whose goroutines have stored them. */
  ghost predicate PagesOk(j: Job, s: Fan)
    requires |s.gos| == |j.pages|
  {
    && (forall i :: 0 <= i < |s.gos| && HasStored(s.gos[i]) ==>
          j.pages[i] in s.byPage && s.byPage[j.pages[i]] == j.ocr(j.pages[i]))
    && (forall p :: p in s.byPage ==> exists i :: 0 <= i < |s.gos| && HasStored(s.gos[i]) && j.pages[i] == p)
  }

  predicate LogOk(j: Job, s: Fan) {
    forall k :: 0 <= k < |s.log| ==> s.log[k] == OcrPct(k + 1, |j.pages|, j.start, j.end)
  }

  ghost predicate FanOk(j: Job, s: Fan)
  {
    && |s.gos| == |j.pages|
    && s.slots == Count(s.gos, HOLDS_SLOT) && s.slots <= j.slots
    && (forall i :: 0 <= i < |s.gos| ==> (Critical(s.gos[i]) <==> s.holder == Some(i)))
    && s.done == Count(s.gos, HAS_COUNTED)
    && |s.log| == Count(s.gos, HAS_REPORTED)
    && LogOk(j, s)
    && (s.holder.Some? ==> s.holder.value < |s.gos|)
    && s.done == |s.log| + (if s.holder.Some? && s.gos[s.holder.value].Counted? then 1 else 0)
    && PagesOk(j, s)
  }

  lemma InitOk(j: Job)
    ensures FanOk(j, Init(j))
  {
    var gos := Init(j).gos;
    CountAll(gos, HOLDS_SLOT, false);
    CountAll(gos, HAS_COUNTED, false);
    CountAll(gos, HAS_REPORTED, false);
  }

  /** Only the step that stores a page touches the map. */
  lemma StepShape(j: Job, s: Fan, i: nat, ok: bool)
    requires Enabled(j, s, i)
    ensures
      var s' := Step(j, s, i, ok);
      s'.gos == s.gos[i := s'.gos[i]]
      && (if s.gos[i].Locked? then s'.byPage == s.byPage[j.pages[i] := j.ocr(j.pages[i])] && HasStored(s'.gos[i])
          else s'.byPage == s.byPage && HasStored(s'.gos[i]) == HasStored(s.gos[i]))
  {
    hide OcrPct;
  }

  lemma StepPages(j: Job, s: Fan, i: nat, ok: bool)
    requires |s.gos| == |j.pages| && PagesOk(j, s) && Enabled(j, s, i)
    ensures |Step(j, s, i, ok).gos| == |j.pages| && PagesOk(j, Step(j, s, i, ok))
  {
    var s' := Step(j, s, i, ok);
    StepShape(j, s, i, ok);
    assert i < |s.gos| && !HasStored(Locked);
    hide Step, HasStored, Enabled;
    forall p | p in s'.byPage
      ensures exists k :: 0 <= k < |s'.gos| && HasStored(s'.gos[k]) && j.pages[k] == p
    {
      if p in s.byPage {
        var k :| 0 <= k < |s.gos| && HasStored(s.gos[k]) && j.pages[k] == p;
        assert HasStored(s'.gos[k]);
      } else {
        assert HasStored(s'.gos[i]);
      }
    }
  }

  lemma StepCounts(j: Job, s: Fan, i: nat, ok: bool)
    requires FanOk(j, s) && Enabled(j, s, i)
    ensures
      var s' := Step(j, s, i, ok);
      && s'.slots == Count(s'.gos, HOLDS_SLOT) && s'.slots <= j.slots
      && s'.done == Count(s'.gos, HAS_COUNTED)
      && |s'.log| == Count(s'.gos, HAS_REPORTED)
  {
    hide Count, LogOk, OcrPct, PagesOk;
    var g := Step(j, s, i, ok).gos[i];
    CountUpdate(s.gos, HOLDS_SLOT, i, g);
    CountUpdate(s.gos, HAS_COUNTED, i, g);
    CountUpdate(s.gos, HAS_REPORTED, i, g);
  }

  lemma StepLock(j: Job, s: Fan, i: nat, ok: bool)
    requires FanOk(j, s) && Enabled(j, s, i)
    ensures
      var s' := Step(j, s, i, ok);
      forall k :: 0 <= k < |s'.gos| ==> (Critical(s'.gos[k]) <==> s'.holder == Some(k))
  {
    hide Count, LogOk, OcrPct, PagesOk;
  }

  lemma StepLog(j: Job, s: Fan, i: nat, ok: bool)
    requires FanOk(j, s) && Enabled(j, s, i)
    ensures
      var s' := Step(j, s, i, ok);
      && LogOk(j, s')
      && (s'.holder.Some? ==> s'.holder.value < |s'.gos|)
      && s'.done == |s'.log| + (if s'.holder.Some? && s'.gos[s'.holder.value].Counted? then 1 else 0)
  {
    hide Count, OcrPct, PagesOk;
  }

  lemma StepKeeps(j: Job, s: Fan, i: nat, ok: bool)
    requires FanOk(j, s) && Enabled(j, s, i)
    ensures FanOk(j, Step(j, s, i, ok))
  {
    StepPages(j, s, i, ok);
    StepCounts(j, s, i, ok);
    StepLock(j, s, i, ok);
    StepLog(j, s, i, ok);
    hide Count, OcrPct, PagesOk, LogOk, Critical;
  }

  lemma {:induction false} PlayKeeps(j: Job, schedule: seq<(nat, bool)>)
    ensures FanOk(j, Play(j, schedule))
    decreases |schedule|
  {
    hide FanOk, Enabled, Step;
    if schedule == [] {
      InitOk(j);
    } else {
      var s := Play(j, schedule[..|schedule| - 1]);
      var (i, ok) := schedule[|schedule| - 1];
      PlayKeeps(j, schedule[..|schedule| - 1]);
      if Enabled(j, s, i) {
        StepKeeps(j, s, i, ok);
      }
    }
  }

  // ---------- the theorems ----------

  /** Under every schedule at most `slots` provider calls are in flight, the counter
      and the map never disagree with the goroutines, and the progress written rises
      page by page within the stage. */
  lemma FanoutSafe(j: Job, schedule: seq<(nat, bool)>)
    requires j.start <= j.end
    ensures
      var s := Play(j, schedule);
      && |s.gos| == |j.pages|
      && Count(s.gos, IN_CALL) <= j.slots
      && s.done <= |j.pages|
      && PagesOk(j, s)
      && (forall k :: 0 <= k < |s.log| ==> j.start <= s.log[k] <= j.end)
      && (forall k, l :: 0 <= k < l < |s.log| ==> s.log[k] <= s.log[l])
  {
    PlayKeeps(j, schedule);
    var s := Play(j, schedule);
    CountImplies(s.gos, IN_CALL, HOLDS_SLOT);
    LogRises(j, s);
    hide Count, OcrPct, PagesOk, Play, Critical, LogOk;
  }

  lemma LogRises(j: Job, s: Fan)
    requires LogOk(j, s) && j.start <= j.end
    ensures forall k :: 0 <= k < |s.log| ==> j.start <= s.log[k] <= j.end
    ensures forall k, l :: 0 <= k < l < |s.log| ==> s.log[k] <= s.log[l]
  {
    hide OcrPct;
    forall k, l | 0 <= k <= l < |s.log|
      ensures j.start <= s.log[k] <= s.log[l] <= j.end
    {
      P.OcrPctGrows(k + 1, l + 1, |j.pages|, j.start, j.end);
    }
  }

  predicate AllFinished(s: Fan) { forall i :: 0 <= i < |s.gos| ==> s.gos[i].Finished? }

  /** As long as some goroutine is not finished, one of them can move. */
  lemma NeverStuck(j: Job, schedule: seq<(nat, bool)>) returns (i: nat)
    requires j.slots >= 1 && !AllFinished(Play(j, schedule))
    ensures Enabled(j, Play(j, schedule), i)
  {
    PlayKeeps(j, schedule);
    var s := Play(j, schedule);
    if s.holder.Some? {
      i := s.holder.value;
    } else if s.slots > 0 {
      i := CountWitness(s.gos, HOLDS_SLOT);
    } else {
      i :| 0 <= i < |s.gos| && !s.gos[i].Finished?;
      if HOLDS_SLOT(s.gos[i]) {
        CountPositive(s.gos, HOLDS_SLOT, i);
      }
    }
  }

  lemma {:induction false} CountPositive(gos: seq<Go>, p: Go -> bool, i: nat)
    requires i < |gos| && p(gos[i])
    ensures Count(gos, p) > 0
  {
    if i > 0 {
      CountPositive(gos[1..], p, i - 1);
    }
  }

  function StepsLeft(g: Go): nat {
    match g
    case Waiting => 7
    case Calling => 6
    case Fetched => 5
    case Locked => 4
    case Stored => 3
    case Counted => 2
    case Leaving(_) => 1
    case Finished(_) => 0
  }

  function TotalLeft(gos: seq<Go>): nat {
    if gos == [] then 0 else StepsLeft(gos[0]) + TotalLeft(gos[1..])
  }

  lemma {:induction false} TotalUpdate(gos: seq<Go>, i: nat, g: Go)
    requires i < |gos|
    ensures TotalLeft(gos[i := g]) == TotalLeft(gos) - StepsLeft(gos[i]) + StepsLeft(g)
  {
    if i == 0 {
      assert gos[i := g][1..] == gos[1..];
    } else {
      TotalUpdate(gos[1..], i - 1, g);
      assert gos[i := g][1..] == gos[1..][i - 1 := g];
    }
  }

  /** Every step brings the fan-out nearer its end, so with NeverStuck all goroutines
      finish, after at most seven steps each. */
  lemma StepsRunOut(j: Job, s: Fan, i: nat, ok: bool)
    requires Enabled(j, s, i)
    ensures TotalLeft(Step(j, s, i, ok).gos) < TotalLeft(s.gos)
  {
    TotalUpdate(s.gos, i, Step(j, s, i, ok).gos[i]);
  }

  lemma FinishedStored(j: Job, s: Fan)
    requires |s.gos| == |j.pages| && AllFinished(s) && PagesOk(j, s)
    ensures forall p :: p in s.byPage <==> exists i :: 0 <= i < |s.gos| && s.gos[i] == Finished(true) && j.pages[i] == p
  {
    forall p | p in s.byPage
      ensures exists i :: 0 <= i < |s.gos| && s.gos[i] == Finished(true) && j.pages[i] == p
    {
      var i :| 0 <= i < |s.gos| && HasStored(s.gos[i]) && j.pages[i] == p;
    }
  }

  lemma AllStored(j: Job, s: Fan)
    requires |s.gos| == |j.pages| && PagesOk(j, s) && forall i :: 0 <= i < |s.gos| ==> s.gos[i] == Finished(true)
    ensures forall p :: p in s.byPage <==> p in j.pages
    ensures forall p :: p in j.pages ==> s.byPage[p] == j.ocr(p)
  {
    forall p | p in j.pages
      ensures p in s.byPage && s.byPage[p] == j.ocr(p)
    {
      var i :| 0 <= i < |j.pages| && j.pages[i] == p;
      assert HasStored(s.gos[i]);
    }
  }

  lemma NoneCritical(j: Job, s: Fan)
    requires FanOk(j, s) && AllFinished(s)
    ensures s.holder == None && s.slots == 0 && s.done == |s.log|
  {
    CountAll(s.gos, HOLDS_SLOT, false);
    assert forall i :: 0 <= i < |s.gos| ==> !Critical(s.gos[i]);
    hide Count, PagesOk, LogOk;
  }

  /** When all have finished, the wait reports success exactly if every page was
      read; then the map has exactly the requested pages, every one was counted, and
      the last progress written is the end of the stage. */
  lemma FanoutResult(j: Job, schedule: seq<(nat, bool)>)
    requires AllFinished(Play(j, schedule))
    ensures
      var s := Play(j, schedule);
      && |s.gos| == |j.pages| && s.slots == 0 && s.holder == None && s.done == |s.log|
      && (forall p :: p in s.byPage <==> exists i :: 0 <= i < |s.gos| && s.gos[i] == Finished(true) && j.pages[i] == p)
      && ((forall i :: 0 <= i < |s.gos| ==> s.gos[i] == Finished(true)) ==>
            && (forall p :: p in s.byPage <==> p in j.pages)
            && (forall p :: p in j.pages ==> s.byPage[p] == j.ocr(p))
            && s.done == |j.pages|
            && (j.pages != [] ==> s.log[|s.log| - 1] == j.end))
  {
    hide Play, Step, PagesOk;
    PlayKeeps(j, schedule);
    var s := Play(j, schedule);
    NoneCritical(j, s);
    FinishedStored(j, s);
    if forall i :: 0 <= i < |s.gos| ==> s.gos[i] == Finished(true) {
      CountAll(s.gos, HAS_COUNTED, true);
      AllStored(j, s);
    }
    hide Count, AllFinished;
  }
}
