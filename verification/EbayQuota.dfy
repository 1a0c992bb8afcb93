/**
 The eBay rate limiter's daily counter. A Wait call resets an expired window under
 the mutex, loads the counter, compares it with the limit, waits for a token, and
 only then counts: four steps between which other callers and Sync run.
 */
module EbayQuota {
  import opened Counting

  const DAY := 86_400

  datatype Pc = Idle | Entered | Loaded(seen: int) | Waiting

  /** clean: the last reset or Sync left the counter below the limit. */
  datatype State = State(
    daily: int, maxDaily: int, windowStart: int, resetAt: int, now: int, callers: seq<Pc>, clean: bool)

  datatype Action =
    | Advance(d: nat)
    | CheckReset(i: nat)
    | Load(i: nat)
    | Compare(i: nat)
    | TokenDenied(i: nat)
    | CountCall(i: nat)
    | Sync(count: int, limit: int, resetAt: int)

  function Init(k: nat, maxDaily: int, now: int): State {
    State(0, maxDaily, now, now + DAY, now, seq(k, i => Idle), 0 < maxDaily)
  }

  predicate At(s: State, i: nat, pc: Pc) {
    i < |s.callers| && s.callers[i] == pc
  }

  predicate Enabled(s: State, a: Action) {
    match a
    case Advance(_) => true
    case CheckReset(i) => At(s, i, Idle)
    case Load(i) => At(s, i, Entered)
    case Compare(i) => i < |s.callers| && s.callers[i].Loaded?
    case TokenDenied(i) => At(s, i, Waiting)
    case CountCall(i) => At(s, i, Waiting)
    case Sync(_, _, _) => true
  }

  function Reset(s: State): State {
    if s.now > s.resetAt
    then s.(daily := 0, windowStart := s.now, resetAt := s.now + DAY, clean := 0 < s.maxDaily)
    else s
  }

  function Move(s: State, i: nat, pc: Pc): State
    requires i < |s.callers|
  {
    s.(callers := s.callers[i := pc])
  }

  function Step(s: State, a: Action): State
    requires Enabled(s, a)
  {
    match a
    case Advance(d) => s.(now := s.now + d)
    case CheckReset(i) => Move(Reset(s), i, Entered)
    case Load(i) => Move(s, i, Loaded(s.daily))
    case Compare(i) => Move(s, i, if s.callers[i].seen >= s.maxDaily then Idle else Waiting)
    case TokenDenied(i) => Move(s, i, Idle)
    case CountCall(i) => Move(s, i, Idle).(daily := s.daily + 1)
    case Sync(count, limit, resetAt) =>
      s.(daily := count, maxDaily := limit, resetAt := resetAt, windowStart := resetAt - DAY,
         clean := count < limit)
  }

  predicate ValidRun(s: State, acts: seq<Action>)
    decreases |acts|
  {
    acts == [] || (Enabled(s, acts[0]) && ValidRun(Step(s, acts[0]), acts[1..]))
  }

  function Exec(s: State, acts: seq<Action>): State
    requires ValidRun(s, acts)
    decreases |acts|
  {
    if acts == [] then s else Exec(Step(s, acts[0]), acts[1..])
  }

  // ------------------------------------------------------------- invariant

  /** The caller may still count one call under the present limit. */
  function MayCount(maxDaily: int): Pc -> bool {
    (pc: Pc) => pc.Waiting? || (pc.Loaded? && pc.seen < maxDaily)
  }

  predicate Inv(s: State) {
    && s.resetAt == s.windowStart + 86400
    && (s.clean ==> s.daily <= s.maxDaily - 1 + |s.callers| - Count(s.callers, MayCount(s.maxDaily)))
  }

  lemma StepInv(s: State, a: Action)
    requires Inv(s) && Enabled(s, a)
    ensures Inv(Step(s, a)) && |Step(s, a).callers| == |s.callers|
  {
    var t := Step(s, a);
    var may := MayCount(s.maxDaily);
    match a
    case CheckReset(i) => CountUpdate(s.callers, i, Entered, may);
    case Load(i) =>
      CountUpdate(s.callers, i, Loaded(s.daily), may);
      CountFree(s.callers, i, may);
    case Compare(i) => CountUpdate(s.callers, i, t.callers[i], may);
    case TokenDenied(i) => CountUpdate(s.callers, i, Idle, may);
    case CountCall(i) => CountUpdate(s.callers, i, Idle, may);
    case _ =>
  }

  lemma {:induction false} RunInv(s: State, acts: seq<Action>)
    requires Inv(s) && ValidRun(s, acts)
    ensures Inv(Exec(s, acts)) && |Exec(s, acts).callers| == |s.callers|
    decreases |acts|
  {
    if acts != [] {
      StepInv(s, acts[0]);
      RunInv(Step(s, acts[0]), acts[1..]);
    }
  }

  lemma InitInv(k: nat, maxDaily: int, now: int)
    ensures Inv(Init(k, maxDaily, now))
  {
    CountNone(Init(k, maxDaily, now).callers, MayCount(maxDaily));
  }

  // --------------------------------------------------------------- theorems

  /** With k callers, since a reset or Sync that left it below the limit, the counter never exceeds
      maxDaily - 1 + k; with one caller, never maxDaily. The window is always a day long. */
  lemma CounterBounded(k: nat, maxDaily: int, now: int, acts: seq<Action>)
    requires ValidRun(Init(k, maxDaily, now), acts)
    ensures var t := Exec(Init(k, maxDaily, now), acts);
            && (t.clean ==> t.daily <= t.maxDaily - 1 + k)
            && t.resetAt == t.windowStart + 86400
  {
    InitInv(k, maxDaily, now);
    RunInv(Init(k, maxDaily, now), acts);
  }

  predicate NoSync(acts: seq<Action>) {
    forall i :: 0 <= i < |acts| ==> !acts[i].Sync?
  }

  /** The calls a run counted. */
  function Counts(acts: seq<Action>): nat {
    if acts == [] then 0 else (if acts[0].CountCall? then 1 else 0) + Counts(acts[1..])
  }

  lemma {:induction false} ClockForward(s: State, acts: seq<Action>)
    requires ValidRun(s, acts)
    ensures s.now <= Exec(s, acts).now
    decreases |acts|
  {
    if acts != [] {
      ClockForward(Step(s, acts[0]), acts[1..]);
    }
  }

  /** Until the reset is past, and without another Sync, the counter goes up by exactly the calls counted and the
      limit and window stay. */
  lemma {:induction false} CountedInWindow(s: State, acts: seq<Action>)
    requires ValidRun(s, acts) && NoSync(acts) && Exec(s, acts).now <= s.resetAt
    ensures var t := Exec(s, acts);
            && t.daily == s.daily + Counts(acts) && t.maxDaily == s.maxDaily
            && t.windowStart == s.windowStart && t.resetAt == s.resetAt
    decreases |acts|
  {
    if acts != [] {
      assert !acts[0].Sync?;
      ClockForward(s, acts);
      ClockForward(Step(s, acts[0]), acts[1..]);
      CountedInWindow(Step(s, acts[0]), acts[1..]);
    }
  }

  /** For a new limiter that is a day from its start; after a Sync, until the reset it was given. */
  lemma CountedExactly(k: nat, maxDaily: int, now: int, acts: seq<Action>)
    requires ValidRun(Init(k, maxDaily, now), acts) && NoSync(acts)
    requires Exec(Init(k, maxDaily, now), acts).now <= now + 86400
    ensures var t := Exec(Init(k, maxDaily, now), acts);
            t.daily == Counts(acts) && t.maxDaily == maxDaily && t.windowStart == now && t.resetAt == now + 86400
  {
    CountedInWindow(Init(k, maxDaily, now), acts);
  }

  lemma CountedSinceSync(s: State, count: int, limit: int, resetAt: int, acts: seq<Action>)
    requires ValidRun(Step(s, Sync(count, limit, resetAt)), acts) && NoSync(acts)
    requires Exec(Step(s, Sync(count, limit, resetAt)), acts).now <= resetAt
    ensures var t := Exec(Step(s, Sync(count, limit, resetAt)), acts);
            && t.daily == count + Counts(acts) && t.maxDaily == limit
            && t.resetAt == resetAt && t.windowStart == resetAt - 86400
  {
    CountedInWindow(Step(s, Sync(count, limit, resetAt)), acts);
  }

  // ---------------------------------------------------- the bound is the best one

  /** Callers i.. each get as far as waiting for a token. */
  function PassFrom(i: nat, k: nat): seq<Action>
    decreases k - i
  {
    if i >= k then [] else [CheckReset(i), Load(i), Compare(i)] + PassFrom(i + 1, k)
  }

  function CountFrom(i: nat, k: nat): seq<Action>
    decreases k - i
  {
    if i >= k then [] else [CountCall(i)] + CountFrom(i + 1, k)
  }

  predicate AllAt(s: State, from: nat, pc: Pc) {
    forall i :: from <= i < |s.callers| ==> s.callers[i] == pc
  }

  lemma {:induction false} AllPass(s: State, i: nat)
    requires i <= |s.callers| && AllAt(s, i, Idle) && s.now <= s.resetAt && s.daily < s.maxDaily
    ensures var acts := PassFrom(i, |s.callers|);
            && ValidRun(s, acts)
            && var t := Exec(s, acts);
               && t == s.(callers := t.callers) && |t.callers| == |s.callers|
               && t.callers[..i] == s.callers[..i] && AllAt(t, i, Waiting)
    decreases |s.callers| - i
  {
    if i < |s.callers| {
      var s1 := Step(s, CheckReset(i));
      var s2 := Step(s1, Load(i));
      var u := Step(s2, Compare(i));
      assert u == Move(s, i, Waiting);
      AllPass(u, i + 1);
      var rest := PassFrom(i + 1, |s.callers|);
      var all := [CheckReset(i), Load(i), Compare(i)] + rest;
      assert all[1..] == [Load(i), Compare(i)] + rest;
      assert all[1..][1..] == [Compare(i)] + rest;
      assert all[1..][1..][1..] == rest;
      assert ValidRun(s2, all[1..][1..]) && ValidRun(s1, all[1..]);
      assert Exec(s, all) == Exec(s1, all[1..]) == Exec(s2, all[1..][1..]) == Exec(u, rest);
      var t := Exec(u, rest);
      assert t.callers[i] == t.callers[..i + 1][i] == u.callers[i];
      assert t.callers[..i] == t.callers[..i + 1][..i] == u.callers[..i + 1][..i] == s.callers[..i];
    }
  }

  lemma {:induction false} AllCount(s: State, i: nat)
    requires i <= |s.callers| && AllAt(s, i, Waiting)
    ensures var acts := CountFrom(i, |s.callers|);
            && ValidRun(s, acts)
            && Exec(s, acts).daily == s.daily + |s.callers| - i
            && Exec(s, acts).maxDaily == s.maxDaily
    decreases |s.callers| - i
  {
    if i < |s.callers| {
      AllCount(Step(s, CountCall(i)), i + 1);
      var rest := CountFrom(i + 1, |s.callers|);
      assert ([CountCall(i)] + rest)[1..] == rest;
    }
  }

  lemma {:induction false} RunConcat(s: State, xs: seq<Action>, ys: seq<Action>)
    requires ValidRun(s, xs) && ValidRun(Exec(s, xs), ys)
    ensures ValidRun(s, xs + ys) && Exec(s, xs + ys) == Exec(Exec(s, xs), ys)
    decreases |xs|
  {
    if xs == [] {
      assert xs + ys == ys;
    } else {
      RunConcat(Step(s, xs[0]), xs[1..], ys);
      assert (xs + ys)[1..] == xs[1..] + ys;
    }
  }

  /** One call short of the limit, k callers that pass together take the counter to maxDaily - 1 + k. */
  lemma OvershootIsReached(s: State)
    requires AllAt(s, 0, Idle) && s.now <= s.resetAt && s.daily == s.maxDaily - 1
    ensures var acts := PassFrom(0, |s.callers|) + CountFrom(0, |s.callers|);
            && ValidRun(s, acts)
            && Exec(s, acts).daily == s.maxDaily - 1 + |s.callers|
  {
    AllPass(s, 0);
    AllCount(Exec(s, PassFrom(0, |s.callers|)), 0);
    RunConcat(s, PassFrom(0, |s.callers|), CountFrom(0, |s.callers|));
  }

  // ------------------------------------------------- from a new limiter, exactly

  lemma {:induction false} NoSyncKeepsLimit(s: State, acts: seq<Action>)
    requires ValidRun(s, acts) && NoSync(acts) && s.clean && 0 < s.maxDaily
    ensures Exec(s, acts).maxDaily == s.maxDaily && Exec(s, acts).clean
    decreases |acts|
  {
    if acts != [] {
      assert !acts[0].Sync?;
      NoSyncKeepsLimit(Step(s, acts[0]), acts[1..]);
    }
  }

  const LONE_CALL: seq<Action> := [CheckReset(0), Load(0), Compare(0), CountCall(0)]

  function LoneCalls(n: nat): seq<Action> {
    if n == 0 then [] else LONE_CALL + LoneCalls(n - 1)
  }

  lemma RunCons(s: State, a: Action, rest: seq<Action>)
    requires Enabled(s, a) && ValidRun(Step(s, a), rest)
    ensures ValidRun(s, [a] + rest) && Exec(s, [a] + rest) == Exec(Step(s, a), rest)
  {
    assert ([a] + rest)[1..] == rest;
  }

  lemma LoneSteps(s: State)
    requires At(s, 0, Idle) && s.now <= s.resetAt && s.daily < s.maxDaily
    ensures Enabled(s, CheckReset(0)) && Step(s, CheckReset(0)) == Move(s, 0, Entered)
    ensures Step(Move(s, 0, Entered), Load(0)) == Move(s, 0, Loaded(s.daily))
    ensures Step(Move(s, 0, Loaded(s.daily)), Compare(0)) == Move(s, 0, Waiting)
    ensures Step(Move(s, 0, Waiting), CountCall(0)) == s.(daily := s.daily + 1)
  {
  }

  lemma LoneCallCounts(s: State)
    requires At(s, 0, Idle) && s.now <= s.resetAt && s.daily < s.maxDaily
    ensures ValidRun(s, LONE_CALL) && Exec(s, LONE_CALL) == s.(daily := s.daily + 1)
  {
    var s1 := Move(s, 0, Entered);
    var s2 := Move(s, 0, Loaded(s.daily));
    var s3 := Move(s, 0, Waiting);
    var s4 := s.(daily := s.daily + 1);
    LoneSteps(s);
    assert ValidRun(s4, []) && Exec(s4, []) == s4;
    RunCons(s3, CountCall(0), []);
    RunCons(s2, Compare(0), [CountCall(0)] + []);
    RunCons(s1, Load(0), [Compare(0)] + ([CountCall(0)] + []));
    RunCons(s, CheckReset(0), [Load(0)] + ([Compare(0)] + ([CountCall(0)] + [])));
    assert LONE_CALL == [CheckReset(0)] + ([Load(0)] + ([Compare(0)] + ([CountCall(0)] + [])));
  }

  /** Past the reset, a call made alone opens a new window of a day and is its first. */
  lemma LoneCallOpensWindow(s: State)
    requires At(s, 0, Idle) && s.now > s.resetAt && 0 < s.maxDaily
    ensures ValidRun(s, LONE_CALL)
    ensures Exec(s, LONE_CALL) == s.(daily := 1, windowStart := s.now, resetAt := s.now + 86400, clean := true)
  {
    var anew := s.(daily := 0, windowStart := s.now, resetAt := s.now + 86400, clean := true);
    LoneCallCounts(anew);
    SameFirstStep(s, anew);
  }

  lemma SameFirstStep(s: State, anew: State)
    requires Enabled(s, CheckReset(0)) && Enabled(anew, CheckReset(0)) && ValidRun(anew, LONE_CALL)
    requires Reset(s) == Reset(anew)
    ensures ValidRun(s, LONE_CALL) && Exec(s, LONE_CALL) == Exec(anew, LONE_CALL)
  {
    assert LONE_CALL[0] == CheckReset(0);
    assert Step(s, LONE_CALL[0]) == Step(anew, LONE_CALL[0]);
  }

  /** Within a window that is used up it is refused: the check turns it away. */
  lemma LoneCallRefused(s: State)
    requires At(s, 0, Idle) && s.now <= s.resetAt && s.daily >= s.maxDaily
    ensures ValidRun(s, LONE_CALL[..3]) && Exec(s, LONE_CALL[..3]) == s && !ValidRun(s, LONE_CALL)
  {
    var s1 := Step(s, CheckReset(0));
    var s2 := Step(s1, Load(0));
    var s3 := Step(s2, Compare(0));
    assert s3 == s;
    assert ValidRun(s3, []) && Exec(s3, []) == s3;
    RunCons(s2, Compare(0), []);
    RunCons(s1, Load(0), [Compare(0)] + []);
    RunCons(s, CheckReset(0), [Load(0)] + ([Compare(0)] + []));
    assert LONE_CALL[..3] == [CheckReset(0)] + ([Load(0)] + ([Compare(0)] + []));
    var rest := LONE_CALL[1..];
    assert LONE_CALL[0] == CheckReset(0) && rest[0] == Load(0) && rest[1..][0] == Compare(0);
    assert rest[1..][1..][0] == CountCall(0) && !Enabled(s3, CountCall(0));
    assert !ValidRun(s3, rest[1..][1..]);
    assert !ValidRun(s2, rest[1..]);
    assert !ValidRun(s1, rest);
  }

  lemma {:induction false} LoneCallsCount(s: State, n: nat)
    requires At(s, 0, Idle) && s.now <= s.resetAt && s.daily + n <= s.maxDaily
    ensures ValidRun(s, LoneCalls(n)) && Exec(s, LoneCalls(n)) == s.(daily := s.daily + n)
    ensures NoSync(LoneCalls(n))
    decreases n
  {
    if n > 0 {
      LoneCallCounts(s);
      LoneCallsCount(s.(daily := s.daily + 1), n - 1);
      RunConcat(s, LONE_CALL, LoneCalls(n - 1));
    }
  }

  lemma {:induction false} TogetherNoSync(i: nat, k: nat)
    ensures NoSync(PassFrom(i, k)) && NoSync(CountFrom(i, k))
    decreases k - i
  {
    if i < k {
      TogetherNoSync(i + 1, k);
    }
  }

  /** No run of a new limiter that Sync leaves alone counts more than n. */
  ghost predicate NeverAbove(k: nat, maxDaily: int, now: int, n: int) {
    forall acts :: ValidRun(Init(k, maxDaily, now), acts) && NoSync(acts) ==>
      Exec(Init(k, maxDaily, now), acts).daily <= n
  }

  lemma BestRun(k: nat, maxDaily: int, now: int) returns (acts: seq<Action>)
    requires k >= 1 && maxDaily > 0
    ensures ValidRun(Init(k, maxDaily, now), acts) && NoSync(acts)
    ensures Exec(Init(k, maxDaily, now), acts).daily == maxDaily - 1 + k
  {
    var s := Init(k, maxDaily, now);
    LoneCallsCount(s, maxDaily - 1);
    var t := Exec(s, LoneCalls(maxDaily - 1));
    OvershootIsReached(t);
    TogetherNoSync(0, k);
    var last := PassFrom(0, k) + CountFrom(0, k);
    RunConcat(s, LoneCalls(maxDaily - 1), last);
    acts := LoneCalls(maxDaily - 1) + last;
  }

  /** For any limit and any number of callers: maxDaily - 1 + k is the least bound on the counter. */
  lemma LeastBound(k: nat, maxDaily: int, now: int, n: int)
    requires k >= 1 && maxDaily > 0
    ensures NeverAbove(k, maxDaily, now, n) <==> n >= maxDaily - 1 + k
  {
    var s := Init(k, maxDaily, now);
    if n >= maxDaily - 1 + k {
      forall acts | ValidRun(s, acts) && NoSync(acts)
        ensures Exec(s, acts).daily <= n
      {
        CounterBounded(k, maxDaily, now, acts);
        NoSyncKeepsLimit(s, acts);
      }
    } else {
      var acts := BestRun(k, maxDaily, now);
      assert Exec(s, acts).daily > n;
    }
  }

  /** So the daily limit is kept if and only if calls are made by one caller at a time. */
  lemma LimitKeptExactly(k: nat, maxDaily: int, now: int)
    requires maxDaily > 0
    ensures NeverAbove(k, maxDaily, now, maxDaily) <==> k <= 1
  {
    if k == 0 {
      forall acts | ValidRun(Init(k, maxDaily, now), acts) && NoSync(acts)
        ensures Exec(Init(k, maxDaily, now), acts).daily <= maxDaily
      {
        CounterBounded(k, maxDaily, now, acts);
        NoSyncKeepsLimit(Init(k, maxDaily, now), acts);
      }
    } else {
      LeastBound(k, maxDaily, now, maxDaily);
    }
  }

  // ------------------------------------------------------------- the object

  class RateLimiter {
    var daily: int
    var maxDaily: int
    var windowStart: int
    var resetAt: int

    ghost predicate Valid()
      reads this
    {
      resetAt == windowStart + 86400
    }

    constructor (maxDaily: int, now: int)
      ensures Valid() && daily == 0 && this.maxDaily == maxDaily && windowStart == now && resetAt == now + 86400
    {
      daily, this.maxDaily, windowStart, resetAt := 0, maxDaily, now, now + DAY;
    }

    method CheckDailyReset(now: int)
      requires Valid()
      modifies this
      ensures Valid() && maxDaily == old(maxDaily)
      ensures now > old(resetAt) ==> daily == 0 && windowStart == now
      ensures now <= old(resetAt) ==> daily == old(daily) && windowStart == old(windowStart)
      ensures now <= resetAt
    {
      if now > resetAt {
        daily := 0;
        windowStart := now;
        resetAt := now + DAY;
      }
    }

    /** A call made alone: refused exactly when the window it falls in is used up, and counted in
        that window exactly when it goes through. It never takes the counter past the limit. */
    method Wait(now: int, tokenOk: bool) returns (ok: bool)
      requires Valid()
      modifies this
      ensures Valid() && maxDaily == old(maxDaily) && now <= resetAt
      ensures var used := if now > old(resetAt) then 0 else old(daily);
              (ok <==> used < maxDaily && tokenOk) && daily == used + (if ok then 1 else 0)
      ensures ok ==> daily <= maxDaily
    {
      CheckDailyReset(now);
      if daily >= maxDaily {
        return false;
      }
      if !tokenOk {
        return false;
      }
      daily := daily + 1;
      return true;
    }

    method Sync(count: int, limit: int, resetAt: int)
      modifies this
      ensures Valid() && daily == count && maxDaily == limit && this.resetAt == resetAt
    {
      maxDaily := limit;
      daily := count;
      this.resetAt := resetAt;
      windowStart := resetAt - DAY;
    }

    /** Never negative, and zero exactly when a call made now in this window would be refused. */
    function Remaining(): (n: int)
      reads this
      ensures n >= 0 && (n == 0 <==> daily >= maxDaily)
      ensures n > 0 ==> daily + n == maxDaily
    {
      var remaining := maxDaily - daily;
      if remaining < 0 then 0 else remaining
    }
  }
}
