/**
 The judge's daily budget, checked before each verdict and then spent by it: k
 runs beside one another over one table of verdicts, each between its check and
 its insert for as long as the model takes. Days are UTC days; a check sums from
 the midnight its client computed, which may by then be an earlier day's.
 */
module JudgeBudget {
  import opened Wrappers
  import opened Counting

  type AlertId = nat
  type Day = int

  datatype Verdict = Verdict(alert: AlertId, cost: real, day: Day)

  /** A run is between alerts, or has passed the check for one and is waiting for its verdict. */
  datatype Pc = Idle | Judging(alert: AlertId)

  datatype State = State(verdicts: seq<Verdict>, today: Day, runs: seq<Pc>)

  /** budget is the daily cap, most the largest cost of one verdict. */
  datatype Config = Config(budget: real, most: real)

  datatype Action =
    | Midnight(d: nat)
    | Check(i: nat, since: Day, alert: AlertId)
    | Insert(i: nat, cost: real)
    | GiveUp(i: nat)   // the model or the insert failed

  function Cost(vs: seq<Verdict>, counts: Day -> bool): real {
    if vs == [] then 0.0 else (if counts(vs[0].day) then vs[0].cost else 0.0) + Cost(vs[1..], counts)
  }

  /** SELECT COALESCE(SUM(cost_usd), 0) FROM judge_scores WHERE judged_at >= since */
  function SpentSince(vs: seq<Verdict>, since: Day): real {
    Cost(vs, d => since <= d)
  }

  function SpentOn(vs: seq<Verdict>, day: Day): real {
    Cost(vs, d => d == day)
  }

  predicate Judged(vs: seq<Verdict>, alert: AlertId) {
    exists i :: 0 <= i < |vs| && vs[i].alert == alert
  }

  /** INSERT ... ON CONFLICT (alert_id) DO NOTHING */
  function InsertVerdict(vs: seq<Verdict>, v: Verdict): seq<Verdict> {
    if Judged(vs, v.alert) then vs else vs + [v]
  }

  predicate Enabled(c: Config, s: State, a: Action) {
    match a
    case Midnight(_) => true
    case Check(i, since, _) =>
      i < |s.runs| && s.runs[i].Idle? && since <= s.today && SpentSince(s.verdicts, since) < c.budget
    case Insert(i, cost) => i < |s.runs| && s.runs[i].Judging? && 0.0 <= cost <= c.most
    case GiveUp(i) => i < |s.runs| && s.runs[i].Judging?
  }

  function Step(c: Config, s: State, a: Action): State
    requires Enabled(c, s, a)
  {
    match a
    case Midnight(d) => s.(today := s.today + d)
    case Check(i, _, alert) => s.(runs := s.runs[i := Judging(alert)])
    case Insert(i, cost) =>
      s.(verdicts := InsertVerdict(s.verdicts, Verdict(s.runs[i].alert, cost, s.today)), runs := s.runs[i := Idle])
    case GiveUp(i) => s.(runs := s.runs[i := Idle])
  }

  predicate ValidRun(c: Config, s: State, acts: seq<Action>)
    decreases |acts|
  {
    acts == [] || (Enabled(c, s, acts[0]) && ValidRun(c, Step(c, s, acts[0]), acts[1..]))
  }

  function Exec(c: Config, s: State, acts: seq<Action>): State
    requires ValidRun(c, s, acts)
    decreases |acts|
  {
    if acts == [] then s else Exec(c, Step(c, s, acts[0]), acts[1..])
  }

  function Init(k: nat, today: Day): State {
    State([], today, seq(k, i => Idle))
  }

  // -------------------------------------------------------------- arithmetic

  function Times(n: int, c: real): real {
    if n <= 0 then 0.0 else c + Times(n - 1, c)
  }

  lemma {:induction false} TimesMonotone(m: int, n: int, c: real)
    requires m <= n && c >= 0.0
    ensures 0.0 <= Times(m, c) <= Times(n, c)
    decreases n
  {
    if n > 0 && m < n {
      TimesMonotone(m, n - 1, c);
    } else if n > 0 {
      TimesMonotone(m - 1, n - 1, c);
    }
  }

  lemma {:induction false} CostSnoc(vs: seq<Verdict>, v: Verdict, counts: Day -> bool)
    ensures Cost(vs + [v], counts) == Cost(vs, counts) + (if counts(v.day) then v.cost else 0.0)
    decreases |vs|
  {
    if vs == [] {
      assert [v][1..] == [] && vs + [v] == [v];
    } else {
      assert (vs + [v])[1..] == vs[1..] + [v];
      CostSnoc(vs[1..], v, counts);
    }
  }

  predicate NoNegativeCost(vs: seq<Verdict>) {
    forall i :: 0 <= i < |vs| ==> vs[i].cost >= 0.0
  }

  lemma {:induction false} CostMonotone(vs: seq<Verdict>, fewer: Day -> bool, more: Day -> bool)
    requires NoNegativeCost(vs) && forall d :: fewer(d) ==> more(d)
    ensures 0.0 <= Cost(vs, fewer) <= Cost(vs, more)
    decreases |vs|
  {
    if vs != [] {
      CostMonotone(vs[1..], fewer, more);
    }
  }

  lemma {:induction false} CostOfUnusedDay(vs: seq<Verdict>, counts: Day -> bool)
    requires forall i :: 0 <= i < |vs| ==> !counts(vs[i].day)
    ensures Cost(vs, counts) == 0.0
    decreases |vs|
  {
    if vs != [] {
      CostOfUnusedDay(vs[1..], counts);
    }
  }

  // ------------------------------------------------------------- invariant

  function InFlight(s: State): nat {
    Count(s.runs, (pc: Pc) => pc.Judging?)
  }

  predicate OneVerdictEach(vs: seq<Verdict>) {
    forall i, j :: 0 <= i < j < |vs| ==> vs[i].alert != vs[j].alert
  }

  /** Each run in flight has room for one more verdict kept free below the bound of today. */
  ghost predicate Inv(c: Config, s: State) {
    && NoNegativeCost(s.verdicts)
    && OneVerdictEach(s.verdicts)
    && (forall i :: 0 <= i < |s.verdicts| ==> s.verdicts[i].day <= s.today)
    && (forall d :: SpentOn(s.verdicts, d) < c.budget + Times(|s.runs|, c.most))
    && SpentOn(s.verdicts, s.today) < c.budget + Times(|s.runs| - InFlight(s), c.most)
  }

  lemma InsertInv(c: Config, s: State, i: nat, cost: real)
    requires c.budget > 0.0 && c.most >= 0.0
    requires Inv(c, s) && Enabled(c, s, Insert(i, cost))
    ensures Inv(c, Step(c, s, Insert(i, cost)))
  {
    var t := Step(c, s, Insert(i, cost));
    CountUpdate(s.runs, i, Idle, (pc: Pc) => pc.Judging?);
    var v := Verdict(s.runs[i].alert, cost, s.today);
    TimesMonotone(|s.runs| - InFlight(s), |t.runs| - InFlight(t), c.most);
    TimesMonotone(|t.runs| - InFlight(t), |s.runs|, c.most);
    forall d
      ensures SpentOn(s.verdicts + [v], d) == SpentOn(s.verdicts, d) + (if d == s.today then cost else 0.0)
    {
      CostSnoc(s.verdicts, v, x => x == d);
    }
  }

  lemma CheckInv(c: Config, s: State, i: nat, since: Day, alert: AlertId)
    requires c.budget > 0.0 && c.most >= 0.0
    requires Inv(c, s) && Enabled(c, s, Check(i, since, alert))
    ensures Inv(c, Step(c, s, Check(i, since, alert)))
  {
    var t := Step(c, s, Check(i, since, alert));
    var judging := (pc: Pc) => pc.Judging?;
    CountFree(s.runs, i, judging);
    CountUpdate(s.runs, i, Judging(alert), judging);
    CostMonotone(s.verdicts, x => x == s.today, x => since <= x);
    TimesMonotone(0, |t.runs| - InFlight(t), c.most);
  }

  lemma StepInv(c: Config, s: State, a: Action)
    requires c.budget > 0.0 && c.most >= 0.0
    requires Inv(c, s) && Enabled(c, s, a)
    ensures Inv(c, Step(c, s, a)) && |Step(c, s, a).runs| == |s.runs|
  {
    match a
    case Midnight(d) =>
      var t := Step(c, s, a);
      if d > 0 {
        CostOfUnusedDay(t.verdicts, x => x == t.today);
        TimesMonotone(0, |s.runs| - InFlight(s), c.most);
      }
    case Check(i, since, alert) => CheckInv(c, s, i, since, alert);
    case Insert(i, cost) => InsertInv(c, s, i, cost);
    case GiveUp(i) =>
      var t := Step(c, s, a);
      CountUpdate(s.runs, i, Idle, (pc: Pc) => pc.Judging?);
      TimesMonotone(|s.runs| - InFlight(s), |t.runs| - InFlight(t), c.most);
  }

  lemma {:induction false} RunInv(c: Config, s: State, acts: seq<Action>)
    requires c.budget > 0.0 && c.most >= 0.0
    requires Inv(c, s) && ValidRun(c, s, acts)
    ensures Inv(c, Exec(c, s, acts)) && |Exec(c, s, acts).runs| == |s.runs|
    ensures s.verdicts <= Exec(c, s, acts).verdicts
    decreases |acts|
  {
    if acts != [] {
      StepInv(c, s, acts[0]);
      RunInv(c, Step(c, s, acts[0]), acts[1..]);
    }
  }

  lemma InitInv(c: Config, k: nat, today: Day)
    requires c.budget > 0.0 && c.most >= 0.0
    ensures Inv(c, Init(k, today))
  {
    TimesMonotone(0, k, c.most);
    CountNone(Init(k, today).runs, (pc: Pc) => pc.Judging?);
  }

  // --------------------------------------------------------------- theorems

  /** With k concurrent runs and verdicts of at most c.most, no day's recorded spend reaches the
      budget plus k verdicts, whichever day a check before midnight ends up spending on. */
  lemma DailySpendBounded(c: Config, k: nat, today: Day, acts: seq<Action>, day: Day)
    requires c.budget > 0.0 && c.most >= 0.0 && ValidRun(c, Init(k, today), acts)
    ensures SpentOn(Exec(c, Init(k, today), acts).verdicts, day) < c.budget + Times(k, c.most)
  {
    InitInv(c, k, today);
    RunInv(c, Init(k, today), acts);
  }

  lemma SequentialSpendBounded(c: Config, today: Day, acts: seq<Action>, day: Day)
    requires c.budget > 0.0 && c.most >= 0.0 && ValidRun(c, Init(1, today), acts)
    ensures SpentOn(Exec(c, Init(1, today), acts).verdicts, day) < c.budget + c.most
  {
    DailySpendBounded(c, 1, today, acts, day);
  }

  /** The verdict first recorded for an alert is the only one it ever has. */
  lemma FirstVerdictStands(c: Config, k: nat, today: Day, early: seq<Action>, late: seq<Action>, i: nat, j: nat)
    requires c.budget > 0.0 && c.most >= 0.0
    requires ValidRun(c, Init(k, today), early) && ValidRun(c, Exec(c, Init(k, today), early), late)
    requires var s := Exec(c, Init(k, today), early); var t := Exec(c, s, late);
             && i < |s.verdicts| && j < |t.verdicts| && t.verdicts[j].alert == s.verdicts[i].alert
    ensures var s := Exec(c, Init(k, today), early);
            Exec(c, s, late).verdicts[j] == s.verdicts[i]
  {
    InitInv(c, k, today);
    RunInv(c, Init(k, today), early);
    RunInv(c, Exec(c, Init(k, today), early), late);
  }

  // ---------------------------------------------------- the bound is the best one

  /** Runs i.. check alerts next, next + 1, ... one after the other. */
  function CheckFrom(i: nat, k: nat, today: Day, next: AlertId): seq<Action>
    decreases k - i
  {
    if i >= k then [] else [Check(i, today, next)] + CheckFrom(i + 1, k, today, next + 1)
  }

  function InsertFrom(i: nat, k: nat, cost: real): seq<Action>
    decreases k - i
  {
    if i >= k then [] else [Insert(i, cost)] + InsertFrom(i + 1, k, cost)
  }

  predicate AllJudging(s: State, from: nat, next: AlertId) {
    forall i :: from <= i < |s.runs| ==> s.runs[i] == Judging(next + (i - from))
  }

  lemma {:induction false} AllCheck(c: Config, s: State, i: nat, next: AlertId)
    requires i <= |s.runs| && SpentSince(s.verdicts, s.today) < c.budget
    requires forall j :: i <= j < |s.runs| ==> s.runs[j].Idle?
    ensures var acts := CheckFrom(i, |s.runs|, s.today, next);
            && ValidRun(c, s, acts)
            && var t := Exec(c, s, acts);
               && t.verdicts == s.verdicts && t.today == s.today && |t.runs| == |s.runs|
               && t.runs[..i] == s.runs[..i] && AllJudging(t, i, next)
    decreases |s.runs| - i
  {
    if i < |s.runs| {
      var a := Check(i, s.today, next);
      var u := Step(c, s, a);
      AllCheck(c, u, i + 1, next + 1);
      var rest := CheckFrom(i + 1, |s.runs|, s.today, next + 1);
      assert ([a] + rest)[1..] == rest;
      var t := Exec(c, u, rest);
      assert t.runs[i] == t.runs[..i + 1][i] == u.runs[i];
      assert t.runs[..i] == t.runs[..i + 1][..i] == u.runs[..i + 1][..i] == s.runs[..i];
    }
  }

  lemma {:induction false} AllInsert(c: Config, s: State, i: nat, next: AlertId)
    requires c.most >= 0.0 && i <= |s.runs| && AllJudging(s, i, next)
    requires forall v <- s.verdicts :: v.alert < next
    ensures var acts := InsertFrom(i, |s.runs|, c.most);
            && ValidRun(c, s, acts)
            && SpentOn(Exec(c, s, acts).verdicts, s.today)
               == SpentOn(s.verdicts, s.today) + Times(|s.runs| - i, c.most)
    decreases |s.runs| - i
  {
    if i < |s.runs| {
      var a := Insert(i, c.most);
      var v := Verdict(next, c.most, s.today);
      var u := Step(c, s, a);
      assert u.verdicts == s.verdicts + [v];
      CostSnoc(s.verdicts, v, d => d == s.today);
      AllInsert(c, u, i + 1, next + 1);
      var rest := InsertFrom(i + 1, |s.runs|, c.most);
      assert ([a] + rest)[1..] == rest;
    }
  }

  lemma {:induction false} RunConcat(c: Config, s: State, xs: seq<Action>, ys: seq<Action>)
    requires ValidRun(c, s, xs) && ValidRun(c, Exec(c, s, xs), ys)
    ensures ValidRun(c, s, xs + ys) && Exec(c, s, xs + ys) == Exec(c, Exec(c, s, xs), ys)
    decreases |xs|
  {
    if xs == [] {
      assert xs + ys == ys;
    } else {
      RunConcat(c, Step(c, s, xs[0]), xs[1..], ys);
      assert (xs + ys)[1..] == xs[1..] + ys;
    }
  }

  /** From any spend still below the budget, k idle runs can together add k full verdicts: no
      bound below budget + k * most holds. */
  lemma OvershootIsReached(c: Config, s: State, next: AlertId)
    requires c.most >= 0.0 && SpentSince(s.verdicts, s.today) < c.budget
    requires forall i :: 0 <= i < |s.runs| ==> s.runs[i].Idle?
    requires forall v <- s.verdicts :: v.alert < next
    ensures var acts := CheckFrom(0, |s.runs|, s.today, next) + InsertFrom(0, |s.runs|, c.most);
            && ValidRun(c, s, acts)
            && SpentOn(Exec(c, s, acts).verdicts, s.today)
               == SpentOn(s.verdicts, s.today) + Times(|s.runs|, c.most)
  {
    var checks := CheckFrom(0, |s.runs|, s.today, next);
    AllCheck(c, s, 0, next);
    AllInsert(c, Exec(c, s, checks), 0, next);
    RunConcat(c, s, checks, InsertFrom(0, |s.runs|, c.most));
  }

  // ---------------------------------------------- from an empty table, exactly

  function Least(a: real, b: real): real {
    if a < b then a else b
  }

  /** Run 0, alone, spends x in n verdicts, each as large as it may be. */
  function SpendRun(n: nat, x: real, most: real, today: Day, next: AlertId): seq<Action> {
    if n == 0 then []
    else [Check(0, today, next), Insert(0, Least(x, most))]
         + SpendRun(n - 1, x - Least(x, most), most, today, next + 1)
  }

  /** All runs are idle, and every verdict so far is of today and on an alert before next. */
  predicate Quiet(s: State, next: AlertId) {
    && (forall i :: 0 <= i < |s.runs| ==> s.runs[i].Idle?)
    && (forall v <- s.verdicts :: v.alert < next && v.day == s.today)
  }

  lemma {:induction false} TodayIsAll(vs: seq<Verdict>, today: Day)
    requires forall v <- vs :: v.day == today
    ensures SpentSince(vs, today) == SpentOn(vs, today)
    decreases |vs|
  {
    if vs != [] {
      TodayIsAll(vs[1..], today);
    }
  }

  lemma SpendOne(c: Config, s: State, cost: real, next: AlertId)
    requires |s.runs| >= 1 && Quiet(s, next) && 0.0 <= cost <= c.most
    requires SpentOn(s.verdicts, s.today) < c.budget
    ensures var acts := [Check(0, s.today, next), Insert(0, cost)];
            && ValidRun(c, s, acts)
            && var t := Exec(c, s, acts);
               && t == s.(verdicts := s.verdicts + [Verdict(next, cost, s.today)])
               && Quiet(t, next + 1)
               && SpentOn(t.verdicts, t.today) == SpentOn(s.verdicts, s.today) + cost
  {
    var a, b := Check(0, s.today, next), Insert(0, cost);
    TodayIsAll(s.verdicts, s.today);
    var u := Step(c, s, a);
    var t := Step(c, u, b);
    assert t.runs == s.runs;
    assert [a, b][1..] == [b] && [b][1..] == [];
    assert ValidRun(c, u, [b]) && Exec(c, u, [b]) == t;
    CostSnoc(s.verdicts, Verdict(next, cost, s.today), d => d == s.today);
  }

  lemma {:induction false} Spends(c: Config, s: State, n: nat, x: real, next: AlertId)
    requires |s.runs| >= 1 && Quiet(s, next) && c.most > 0.0
    requires 0.0 <= x <= Times(n, c.most) && SpentOn(s.verdicts, s.today) + x < c.budget
    ensures var acts := SpendRun(n, x, c.most, s.today, next);
            && ValidRun(c, s, acts)
            && var t := Exec(c, s, acts);
               && t.today == s.today && |t.runs| == |s.runs| && Quiet(t, next + n)
               && SpentOn(t.verdicts, t.today) == SpentOn(s.verdicts, s.today) + x
    decreases n
  {
    if n > 0 {
      var cost := Least(x, c.most);
      SpendOne(c, s, cost, next);
      var acts := [Check(0, s.today, next), Insert(0, cost)];
      var t := Exec(c, s, acts);
      TimesMonotone(0, n - 1, c.most);
      Spends(c, t, n - 1, x - cost, next + 1);
      RunConcat(c, s, acts, SpendRun(n - 1, x - cost, c.most, s.today, next + 1));
    }
  }

  lemma {:induction false} TimesIsProduct(n: nat, c: real)
    ensures Times(n, c) == n as real * c
  {
    if n > 0 {
      TimesIsProduct(n - 1, c);
      assert n as real == (n - 1) as real + 1.0;
      assert n as real * c == (n - 1) as real * c + c;
    }
  }

  lemma Scaled(a: real, b: real, c: real)
    requires a <= b && c >= 0.0
    ensures a * c <= b * c
  {
    assert (b - a) * c >= 0.0;
  }

  lemma EnoughVerdicts(x: real, most: real) returns (n: nat)
    requires x >= 0.0 && most > 0.0
    ensures x <= Times(n, most)
  {
    var q := x / most;
    assert q * most == x;
    n := if q.Floor < 0 then 0 else q.Floor + 1;
    TimesIsProduct(n, most);
    Scaled(q, n as real, most);
  }

  /** No run from an empty table spends bound or more on any day. */
  ghost predicate NeverReaches(c: Config, k: nat, today: Day, bound: real) {
    forall acts, day :: ValidRun(c, Init(k, today), acts) ==>
      SpentOn(Exec(c, Init(k, today), acts).verdicts, day) < bound
  }

  lemma SpendingRun(c: Config, k: nat, today: Day, x: real) returns (acts: seq<Action>)
    requires k >= 1 && c.most > 0.0 && 0.0 <= x < c.budget
    ensures ValidRun(c, Init(k, today), acts)
    ensures SpentOn(Exec(c, Init(k, today), acts).verdicts, today) == x + Times(k, c.most)
  {
    var s := Init(k, today);
    var n := EnoughVerdicts(x, c.most);
    Spends(c, s, n, x, 0);
    var first := SpendRun(n, x, c.most, today, 0);
    var t := Exec(c, s, first);
    TodayIsAll(t.verdicts, today);
    OvershootIsReached(c, t, n);
    var last := CheckFrom(0, k, today, n) + InsertFrom(0, k, c.most);
    RunConcat(c, s, first, last);
    acts := first + last;
  }

  /** For any cap and any number of runs: budget + k * most is the least bound on a day's spend. */
  lemma LeastBound(c: Config, k: nat, today: Day, bound: real)
    requires k >= 1 && c.budget > 0.0 && c.most > 0.0
    ensures NeverReaches(c, k, today, bound) <==> bound >= c.budget + Times(k, c.most)
  {
    if bound >= c.budget + Times(k, c.most) {
      forall acts, day | ValidRun(c, Init(k, today), acts)
        ensures SpentOn(Exec(c, Init(k, today), acts).verdicts, day) < bound
      {
        DailySpendBounded(c, k, today, acts, day);
      }
    } else {
      var room := bound - Times(k, c.most);
      var acts := SpendingRun(c, k, today, if room < 0.0 then 0.0 else room);
      assert SpentOn(Exec(c, Init(k, today), acts).verdicts, today) >= bound;
    }
  }

  /** So the spend stays below the cap plus one verdict if and only if runs follow one another. */
  lemma BudgetKeptExactly(c: Config, k: nat, today: Day)
    requires c.budget > 0.0 && c.most > 0.0
    ensures NeverReaches(c, k, today, c.budget + c.most) <==> k <= 1
  {
    TimesIsProduct(1, c.most);
    TimesIsProduct(2, c.most);
    if k == 0 {
      forall acts, day | ValidRun(c, Init(k, today), acts)
        ensures SpentOn(Exec(c, Init(k, today), acts).verdicts, day) < c.budget + c.most
      {
        DailySpendBounded(c, k, today, acts, day);
      }
    } else {
      LeastBound(c, k, today, c.budget + c.most);
      if k > 1 {
        TimesMonotone(2, k, c.most);
      }
    }
  }

  // ------------------------------------------------------------ one run alone

  datatype Outcome = Finished | FirstError | Exhausted

  /** What one tick meets: each verdict (None is a failed evaluation), what becomes of each insert, and
      which sums work; and by the clock, the midnight that check number i sums from and the day on which
      the verdict on candidate number i is stored. Check 0 comes before the candidates are listed, and
      check i + 1 before candidate i. */
  datatype Env = Env(
    verdict: AlertId -> Option<real>, insert: AlertId -> Write, sumOk: nat -> bool,
    midnight: nat -> Day, stored: nat -> Day)

  /** The clock does not go back between a check and the insert it allowed. */
  ghost predicate Forward(e: Env) {
    forall i: nat :: e.midnight(i + 1) <= e.stored(i)
  }

  predicate Succeeds(e: Env, alert: AlertId) {
    e.verdict(alert).Some? && e.insert(alert).Committed?
  }

  function AfterOne(vs: seq<Verdict>, alert: AlertId, e: Env, day: Day): seq<Verdict> {
    if e.verdict(alert).Some? && !e.insert(alert).Lost?
    then InsertVerdict(vs, Verdict(alert, e.verdict(alert).value, day)) else vs
  }

  /** The verdicts after every alert of the list was tried, in order. */
  function AfterEach(vs: seq<Verdict>, list: seq<AlertId>, e: Env): seq<Verdict> {
    if list == [] then vs
    else
      var i := |list| - 1;
      AfterOne(AfterEach(vs, list[..i], e), list[i], e, e.stored(i))
  }

  function Successes(list: seq<AlertId>, e: Env): nat {
    Count(list, (a: AlertId) => Succeeds(e, a))
  }

  lemma TriedOne(vs: seq<Verdict>, list: seq<AlertId>, i: nat, e: Env)
    requires i < |list|
    ensures AfterEach(vs, list[..i + 1], e) == AfterOne(AfterEach(vs, list[..i], e), list[i], e, e.stored(i))
    ensures Successes(list[..i + 1], e) == Successes(list[..i], e) + (if Succeeds(e, list[i]) then 1 else 0)
  {
    assert list[..i + 1] == list[..i] + [list[i]] && list[..i + 1][..i] == list[..i];
    CountSnoc(list[..i], list[i], (a: AlertId) => Succeeds(e, a));
  }

  lemma CostsAfterOne(vs: seq<Verdict>, alert: AlertId, e: Env, day: Day)
    requires NoNegativeCost(vs) && (e.verdict(alert).Some? ==> 0.0 <= e.verdict(alert).value)
    ensures NoNegativeCost(AfterOne(vs, alert, e, day))
  {
  }

  /** Every day's spend that was below cap + most before is so after. */
  ghost predicate KeepsBelow(vs: seq<Verdict>, ws: seq<Verdict>, bound: real) {
    forall d :: SpentOn(vs, d) < bound ==> SpentOn(ws, d) < bound
  }

  /** One verdict after a check that found the spend since some earlier midnight below the cap. */
  lemma SpendAfterOne(vs: seq<Verdict>, alert: AlertId, e: Env, since: Day, day: Day, budget: real, most: real)
    requires NoNegativeCost(vs) && SpentSince(vs, since) < budget && since <= day && most >= 0.0
    requires e.verdict(alert).Some? ==> 0.0 <= e.verdict(alert).value <= most
    ensures KeepsBelow(vs, AfterOne(vs, alert, e, day), budget + most)
  {
    if e.verdict(alert).Some? {
      var v := Verdict(alert, e.verdict(alert).value, day);
      CostMonotone(vs, d => d == day, d => since <= d);
      forall d
        ensures SpentOn(vs + [v], d) == SpentOn(vs, d) + (if d == day then v.cost else 0.0)
      {
        CostSnoc(vs, v, x => x == d);
      }
    }
  }

  /** Check number n lets the tick go on: there is no cap, or the sum works and is below it. */
  ghost predicate Passes(vs: seq<Verdict>, e: Env, n: nat, budget: real) {
    budget <= 0.0 || (e.sumOk(n) && SpentSince(vs, e.midnight(n)) < budget)
  }

  ghost predicate CheckedAt(vs: seq<Verdict>, tried: seq<AlertId>, e: Env, budget: real, i: nat)
    requires i < |tried|
  {
    Passes(AfterEach(vs, tried[..i], e), e, i + 1, budget)
  }

  /** Each alert tried was let through by its own check. */
  ghost predicate Checked(vs: seq<Verdict>, tried: seq<AlertId>, e: Env, budget: real) {
    forall i :: 0 <= i < |tried| ==> CheckedAt(vs, tried, e, budget, i)
  }

  lemma CheckedNext(vs: seq<Verdict>, list: seq<AlertId>, n: nat, e: Env, budget: real)
    requires n < |list| && Checked(vs, list[..n], e, budget)
    requires Passes(AfterEach(vs, list[..n], e), e, n + 1, budget)
    ensures Checked(vs, list[..n + 1], e, budget)
  {
    var next := list[..n + 1];
    forall i | 0 <= i < |next|
      ensures CheckedAt(vs, next, e, budget, i)
    {
      assert next[..i] == list[..i];
      if i < n {
        assert list[..n][..i] == list[..i] && CheckedAt(vs, list[..n], e, budget, i);
      }
    }
  }

  /** The table and the count after a tick that began at vs has tried so much. */
  ghost predicate SoFar(vs: seq<Verdict>, ws: seq<Verdict>, tried: seq<AlertId>, judged: nat, e: Env,
                        budget: real, most: real) {
    && ws == AfterEach(vs, tried, e) && judged == Successes(tried, e)
    && NoNegativeCost(ws) && Checked(vs, tried, e, budget)
    && (budget > 0.0 ==> KeepsBelow(vs, ws, budget + most))
  }

  lemma TryOne(vs: seq<Verdict>, ws: seq<Verdict>, list: seq<AlertId>, i: nat, judged: nat, e: Env,
               budget: real, most: real)
    requires i < |list| && SoFar(vs, ws, list[..i], judged, e, budget, most)
    requires most >= 0.0 && e.midnight(i + 1) <= e.stored(i)
    requires e.verdict(list[i]).Some? ==> 0.0 <= e.verdict(list[i]).value <= most
    requires Passes(ws, e, i + 1, budget)
    ensures SoFar(vs, AfterOne(ws, list[i], e, e.stored(i)), list[..i + 1],
                  judged + (if Succeeds(e, list[i]) then 1 else 0), e, budget, most)
  {
    TriedOne(vs, list, i, e);
    CostsAfterOne(ws, list[i], e, e.stored(i));
    CheckedNext(vs, list, i, e, budget);
    if budget > 0.0 {
      SpendAfterOne(ws, list[i], e, e.midnight(i + 1), e.stored(i), budget, most);
    }
  }

  /** A tick tries its candidates in order, each let through by its own check, up to the first that is not. It tries
      none if the first check of all fails or they cannot be listed. */
  ghost predicate StopsRight(vs: seq<Verdict>, ws: seq<Verdict>, candidates: Option<seq<AlertId>>,
                             tried: seq<AlertId>, e: Env, budget: real) {
    && Checked(vs, tried, e, budget)
    && if candidates.None? || !Passes(vs, e, 0, budget) then tried == []
       else tried <= candidates.value
            && (|tried| < |candidates.value| ==> !Passes(ws, e, |tried| + 1, budget))
  }

  class Worker {
    var verdicts: seq<Verdict>
    const budget: real

    constructor (budget: real, verdicts: seq<Verdict>)
      ensures this.verdicts == verdicts
      ensures this.budget == if budget < 0.0 then 0.0 else budget
    {
      this.verdicts := verdicts;
      this.budget := if budget < 0.0 then 0.0 else budget;
    }

    method SumJudgeCostSince(since: Day) returns (spent: real)
      ensures spent == SpentSince(verdicts, since)
    {
      spent := 0.0;
      var i := 0;
      while i < |verdicts|
        invariant 0 <= i <= |verdicts|
        invariant spent + SpentSince(verdicts[i..], since) == SpentSince(verdicts, since)
      {
        assert verdicts[i..][0] == verdicts[i] && verdicts[i..][1..] == verdicts[i + 1..];
        if since <= verdicts[i].day {
          spent := spent + verdicts[i].cost;
        }
        i := i + 1;
      }
    }

    /** None: go on. A budget of zero or less is no cap at all. */
    method CheckBudget(midnight: Day, sumOk: bool) returns (halt: Option<Outcome>)
      ensures halt.None? <==> budget <= 0.0 || (sumOk && SpentSince(verdicts, midnight) < budget)
      ensures halt == Some(Exhausted) <==> budget > 0.0 && sumOk && SpentSince(verdicts, midnight) >= budget
      ensures halt.Some? ==> !halt.value.Finished?
    {
      if budget <= 0.0 {
        return None;
      }
      var spent := SumJudgeCostSince(midnight);
      if !sumOk {
        return Some(FirstError);
      }
      if spent >= budget {
        return Some(Exhausted);
      }
      return None;
    }

    method JudgeOne(alert: AlertId, e: Env, day: Day) returns (ok: bool)
      modifies this
      ensures ok <==> e.verdict(alert).Some? && e.insert(alert).Committed?
      ensures verdicts == AfterOne(old(verdicts), alert, e, day)
      ensures verdicts == old(verdicts)
                + (if e.verdict(alert).Some? && !e.insert(alert).Lost? && !Judged(old(verdicts), alert)
                   then [Verdict(alert, e.verdict(alert).value, day)] else [])
    {
      var verdict := e.verdict(alert);
      if verdict.None? {
        return false;
      }
      var write := e.insert(alert);
      if !write.Lost? && forall i :: 0 <= i < |verdicts| ==> verdicts[i].alert != alert {
        verdicts := verdicts + [Verdict(alert, verdict.value, day)];
      }
      ok := write.Committed?;
    }

    /** A whole tick, over midnight or not: candidates is None when listing them failed. It tries a
        prefix of the list, each alert once and in order, and stops short exactly at a check that fails: as
        exhausted if the cap is met, and with an error if the sum fails. It finishes cleanly exactly when all were
        tried and succeeded; its count is that of the successes; and alone it keeps each day's spend below the
        cap plus one verdict. */
    method Run(candidates: Option<seq<AlertId>>, e: Env, ghost most: real)
      returns (judged: nat, outcome: Outcome, ghost tried: seq<AlertId>)
      requires NoNegativeCost(verdicts) && most >= 0.0 && Forward(e)
      requires candidates.Some? ==>
                 forall a <- candidates.value :: e.verdict(a).Some? ==> 0.0 <= e.verdict(a).value <= most
      modifies this
      ensures verdicts == AfterEach(old(verdicts), tried, e) && judged == Successes(tried, e)
      ensures StopsRight(old(verdicts), verdicts, candidates, tried, e, budget)
      ensures outcome.Finished? <==>
                candidates == Some(tried) && judged == |tried| && Passes(old(verdicts), e, 0, budget)
      ensures outcome.Exhausted? <==>
                && budget > 0.0
                && if Passes(old(verdicts), e, 0, budget)
                   then candidates.Some? && |tried| < |candidates.value| && e.sumOk(|tried| + 1)
                   else e.sumOk(0)
      ensures budget > 0.0 ==> KeepsBelow(old(verdicts), verdicts, budget + most)
    {
      judged, tried := 0, [];
      var halt := CheckBudget(e.midnight(0), e.sumOk(0));
      if halt.Some? {
        return 0, halt.value, [];
      }
      if candidates.None? {
        return 0, FirstError, [];
      }
      var list := candidates.value;
      outcome := Finished;
      var i := 0;
      while i < |list|
        invariant 0 <= i <= |list| && tried == list[..i] && !outcome.Exhausted?
        invariant judged <= i && (outcome.Finished? <==> judged == i)
        invariant SoFar(old(verdicts), verdicts, tried, judged, e, budget, most)
      {
        halt := CheckBudget(e.midnight(i + 1), e.sumOk(i + 1));
        if halt.Some? {
          if halt.value.Exhausted? {
            return judged, Exhausted, tried;
          }
          return judged, FirstError, tried;
        }
        TryOne(old(verdicts), verdicts, list, i, judged, e, budget, most);
        var ok := JudgeOne(list[i], e, e.stored(i));
        if ok {
          judged := judged + 1;
        } else {
          outcome := FirstError;
        }
        i, tried := i + 1, list[..i + 1];
      }
      assert list[..|list|] == list;
    }
  }

  /** However a tick ends, an earlier verdict stands, each alert has at most one, and only those tried
      gain one. */
  lemma {:induction false} TickKeepsVerdicts(vs: seq<Verdict>, list: seq<AlertId>, e: Env)
    requires OneVerdictEach(vs)
    ensures vs <= AfterEach(vs, list, e) && OneVerdictEach(AfterEach(vs, list, e))
    ensures forall v <- AfterEach(vs, list, e) :: v in vs || v.alert in list
    decreases |list|
  {
    if list != [] {
      TickKeepsVerdicts(vs, list[..|list| - 1], e);
    }
  }

  // ------------------------------------------------- what a tick records and spends

  /** Candidate i is stored: it has a verdict whose insert took effect, and no verdict before, from an earlier
      tick or an earlier place in the list. */
  predicate Adds(vs: seq<Verdict>, list: seq<AlertId>, e: Env, i: nat)
    requires i < |list|
  {
    && e.verdict(list[i]).Some? && !e.insert(list[i]).Lost?
    && !Judged(vs, list[i]) && forall j :: 0 <= j < i ==> list[j] != list[i]
  }

  /** What is stored for it. */
  function Stored(list: seq<AlertId>, e: Env, i: nat): Verdict
    requires i < |list| && e.verdict(list[i]).Some?
  {
    Verdict(list[i], e.verdict(list[i]).value, e.stored(i))
  }

  lemma {:induction false} JudgedAfter(vs: seq<Verdict>, list: seq<AlertId>, e: Env, alert: AlertId)
    ensures Judged(AfterEach(vs, list, e), alert) <==>
              Judged(vs, alert) || (alert in list && e.verdict(alert).Some? && !e.insert(alert).Lost?)
    decreases |list|
  {
    if list != [] {
      var n := |list| - 1;
      JudgedAfter(vs, list[..n], e, alert);
      var ws, ws' := AfterEach(vs, list[..n], e), AfterEach(vs, list, e);
      assert alert in list <==> alert in list[..n] || alert == list[n] by {
        assert list == list[..n] + [list[n]];
      }
      if ws' != ws {
        assert ws' == ws + [Verdict(list[n], e.verdict(list[n]).value, e.stored(n))];
        assert ws'[|ws|].alert == list[n];
        assert forall i :: 0 <= i < |ws| ==> ws'[i] == ws[i];
      }
    }
  }

  lemma AddsExactly(vs: seq<Verdict>, list: seq<AlertId>, e: Env, n: nat)
    requires n < |list|
    ensures var ws, ws' := AfterEach(vs, list[..n], e), AfterEach(vs, list[..n + 1], e);
            ws' == if Adds(vs, list, e, n) then ws + [Stored(list, e, n)] else ws
  {
    TriedOne(vs, list, n, e);
    JudgedAfter(vs, list[..n], e, list[n]);
    assert list[n] in list[..n] <==> exists j :: 0 <= j < n && list[j] == list[n];
  }

  /** The spend a list of candidates adds to a day: the cost of every verdict stored on it. */
  function Added(vs: seq<Verdict>, list: seq<AlertId>, e: Env, n: nat, day: Day): real
    requires n <= |list|
  {
    if n == 0 then 0.0
    else Added(vs, list, e, n - 1, day)
         + (if Adds(vs, list, e, n - 1) && e.stored(n - 1) == day then e.verdict(list[n - 1]).value else 0.0)
  }

  /** A tick's trials leave what was there, then add a verdict of the cost the model gave, on the day of its insert,
      for each candidate that gains one, in order, and nothing else. */
  lemma {:induction false} TickRecordsExactly(vs: seq<Verdict>, list: seq<AlertId>, e: Env, n: nat, v: Verdict)
    requires n <= |list|
    ensures var ws := AfterEach(vs, list[..n], e);
            && vs <= ws
            && (v in ws[|vs|..] <==> exists i :: 0 <= i < n && Adds(vs, list, e, i) && v == Stored(list, e, i))
    decreases n
  {
    if n > 0 {
      TickRecordsExactly(vs, list, e, n - 1, v);
      AddsExactly(vs, list, e, n - 1);
      var ws, ws' := AfterEach(vs, list[..n - 1], e), AfterEach(vs, list[..n], e);
      if ws' != ws {
        assert ws'[|vs|..] == ws[|vs|..] + [Stored(list, e, n - 1)];
      }
    }
  }

  /** So each day's spend grows by exactly the costs of the verdicts stored on it. */
  lemma {:induction false} TickSpendsExactly(vs: seq<Verdict>, list: seq<AlertId>, e: Env, n: nat, day: Day)
    requires n <= |list|
    ensures SpentOn(AfterEach(vs, list[..n], e), day) == SpentOn(vs, day) + Added(vs, list, e, n, day)
    decreases n
  {
    if n > 0 {
      TickSpendsExactly(vs, list, e, n - 1, day);
      AddsExactly(vs, list, e, n - 1);
      if Adds(vs, list, e, n - 1) {
        CostSnoc(AfterEach(vs, list[..n - 1], e), Stored(list, e, n - 1), d => d == day);
      }
    }
  }

  /** The days on which verdicts are stored do not go back, and none is before today. */
  ghost predicate Steady(e: Env, today: Day) {
    today <= e.stored(0) && forall i: nat :: e.stored(i) <= e.stored(i + 1)
  }

  /** One candidate as steps of the protocol: the clock, the check, and what came of it. */
  function TryRun(e: Env, alert: AlertId, i: nat, today: Day): seq<Action>
    requires today <= e.stored(i)
  {
    [Midnight(e.stored(i) - today), Check(0, e.midnight(i + 1), alert),
     if e.verdict(alert).Some? && !e.insert(alert).Lost? then Insert(0, e.verdict(alert).value) else GiveUp(0)]
  }

  lemma {:induction false} RunThree(c: Config, s: State, x: Action, y: Action, z: Action)
    requires Enabled(c, s, x) && Enabled(c, Step(c, s, x), y) && Enabled(c, Step(c, Step(c, s, x), y), z)
    ensures ValidRun(c, s, [x, y, z])
    ensures Exec(c, s, [x, y, z]) == Step(c, Step(c, Step(c, s, x), y), z)
  {
    assert [x, y, z][1..] == [y, z] && [y, z][1..] == [z] && [z][1..] == [];
    var u := Step(c, Step(c, s, x), y);
    assert ValidRun(c, u, [z]) && Exec(c, u, [z]) == Step(c, u, z);
    assert ValidRun(c, Step(c, s, x), [y, z]) && Exec(c, Step(c, s, x), [y, z]) == Exec(c, u, [z]);
  }

  lemma TryIsRun(c: Config, vs: seq<Verdict>, today: Day, alert: AlertId, e: Env, i: nat)
    requires today <= e.stored(i) && e.midnight(i + 1) <= e.stored(i)
    requires SpentSince(vs, e.midnight(i + 1)) < c.budget
    requires e.verdict(alert).Some? ==> 0.0 <= e.verdict(alert).value <= c.most
    ensures var s, acts := State(vs, today, [Idle]), TryRun(e, alert, i, today);
            ValidRun(c, s, acts) && Exec(c, s, acts) == State(AfterOne(vs, alert, e, e.stored(i)), e.stored(i), [Idle])
  {
    var s, acts := State(vs, today, [Idle]), TryRun(e, alert, i, today);
    var u := Step(c, s, acts[0]);
    var w := Step(c, u, acts[1]);
    assert w.runs == [Judging(alert)];
    RunThree(c, s, acts[0], acts[1], acts[2]);
    assert Step(c, w, acts[2]).runs == [Idle];
  }

  /** A capped tick is a run of the protocol, alone: its checks and inserts, in its order, lead to its table.
      What is proved of all runs holds of it, beside others or not. */
  lemma {:induction false} TickIsRun(c: Config, vs: seq<Verdict>, today: Day, tried: seq<AlertId>, e: Env)
    returns (acts: seq<Action>, end: Day)
    requires c.budget > 0.0 && Checked(vs, tried, e, c.budget) && Forward(e) && Steady(e, today)
    requires forall a <- tried :: e.verdict(a).Some? ==> 0.0 <= e.verdict(a).value <= c.most
    ensures ValidRun(c, State(vs, today, [Idle]), acts)
    ensures Exec(c, State(vs, today, [Idle]), acts) == State(AfterEach(vs, tried, e), end, [Idle])
    ensures end == if tried == [] then today else e.stored(|tried| - 1)
    decreases |tried|
  {
    if tried == [] {
      return [], today;
    }
    var n := |tried| - 1;
    var front := tried[..n];
    forall i | 0 <= i < n
      ensures CheckedAt(vs, front, e, c.budget, i)
    {
      assert front[..i] == tried[..i] && CheckedAt(vs, tried, e, c.budget, i);
    }
    assert CheckedAt(vs, tried, e, c.budget, n);
    acts, end := TickIsRun(c, vs, today, front, e);
    assert end <= e.stored(n) by {
      if n > 0 {
        assert e.stored(n - 1) <= e.stored(n - 1 + 1);
      }
    }
    TryIsRun(c, AfterEach(vs, front, e), end, tried[n], e, n);
    RunConcat(c, State(vs, today, [Idle]), acts, TryRun(e, tried[n], n, end));
    acts, end := acts + TryRun(e, tried[n], n, end), e.stored(n);
  }
}
