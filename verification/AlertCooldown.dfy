/**
 Alert creation against the cooldown. An evaluation of a (watch, listing) pair is
 two statements, the check for a recent notification and the conditional insert;
 any number of evaluations run beside one another and beside a tick, which lists
 the pending alerts once and marks them as it delivers. Ticks follow one another
 (the scheduler's lock), and all share one clock that never goes back.
 */
module AlertCooldown {
  import opened Wrappers
  import opened AlertTables

  /** An evaluation between its check, which found nothing recent, and its insert. */
  datatype Checked = Checked(w: WatchId, l: ListingId)

  /** raced: some insert ran while its pair had a recent notification, which the check before it had
      not seen. */
  datatype State = State(
    db: Db, now: int, cooldown: int,
    checks: map<nat, Checked>,
    listed: Option<set<AlertId>>,
    raced: bool)

  datatype Action =
    | Advance(d: nat)
    | Check(ev: nat, w: WatchId, l: ListingId)
    | Create(ev: nat, id: AlertId, score: int)
    | TickBegin
    | MarkSome(ids: seq<AlertId>)
    | TickEnd

  function Init(cooldown: int): State {
    State(EMPTY, 0, cooldown, map[], None, false)
  }

  function Pending(db: Db): set<AlertId> {
    set id <- db.alerts | !db.alerts[id].notified
  }

  predicate Enabled(s: State, a: Action) {
    match a
    case Advance(_) => true
    case Check(ev, _, _) => ev !in s.checks
    case Create(ev, id, _) => ev in s.checks && id !in s.db.used
    case TickBegin => s.listed.None?
    case MarkSome(ids) => s.listed.Some? && forall id <- ids :: id in s.listed.value
    case TickEnd => s.listed.Some?
  }

  predicate OfPair(db: Db, id: AlertId, w: WatchId, l: ListingId) {
    id in db.alerts && db.alerts[id].watch == w && db.alerts[id].listing == l
  }

  /** The insert finds no pending alert of its pair, and so adds a row. */
  predicate Inserts(s: State, ev: nat)
    requires ev in s.checks
  {
    forall p <- s.db.alerts :: !PendingFor(s.db, p, s.checks[ev].w, s.checks[ev].l)
  }

  /** What the check asked, asked again now: has the pair been notified within the cooldown? */
  predicate TooRecent(s: State, ev: nat)
    requires ev in s.checks
  {
    HasRecent(s.db, s.checks[ev].w, s.checks[ev].l, s.now - s.cooldown)
  }

  function Step(s: State, a: Action): State
    requires Enabled(s, a)
  {
    match a
    case Advance(d) => s.(now := s.now + d)
    case Check(ev, w, l) =>
      // A cooldown of zero or less switches the check off.
      if s.cooldown > 0 && HasRecent(s.db, w, l, s.now - s.cooldown) then s
      else s.(checks := s.checks[ev := Checked(w, l)])
    case Create(ev, id, score) =>
      var c := s.checks[ev];
      var db := InsertAlert(s.db, id, c.w, c.l, score, s.now);
      s.(db := db, checks := s.checks - {ev}, raced := s.raced || (Inserts(s, ev) && TooRecent(s, ev)))
    case TickBegin => s.(listed := Some(Pending(s.db)))
    case MarkSome(ids) =>
      s.(db := MarkNotified(s.db, ids, s.now),
         listed := Some(s.listed.value - set id <- ids))
    case TickEnd => s.(listed := None)
  }

  predicate ValidRun(s: State, acts: seq<Action>)
    decreases |acts|
  {
    acts == [] || (Enabled(s, acts[0]) && ValidRun(Step(s, acts[0]), acts[1..]))
  }

  function Exec(s: State, acts: seq<Action>): State
    requires ValidRun(s, acts)
    decreases |acts|
  {
    if acts == [] then s else Exec(Step(s, acts[0]), acts[1..])
  }

  // ------------------------------------------------------------- invariant

  predicate SamePair(db: Db, a: AlertId, b: AlertId) {
    a in db.alerts && b in db.alerts && a != b
    && db.alerts[a].watch == db.alerts[b].watch && db.alerts[a].listing == db.alerts[b].listing
  }

  /** At most one pending alert per (watch, listing) pair. */
  ghost predicate OnePending(db: Db) {
    forall a, b :: SamePair(db, a, b) ==> db.alerts[a].notified || db.alerts[b].notified
  }

  /** When an alert became, or at the earliest could become, notified. */
  function NotBefore(alert: Alert): int {
    if alert.notifiedAt.Some? then alert.notifiedAt.value else alert.createdAt
  }

  /** b was notified and a came later: then by at least the cooldown. */
  ghost predicate Spaced(db: Db, cooldown: int) {
    forall a, b :: SamePair(db, a, b) && db.alerts[b].notified ==>
      || NotBefore(db.alerts[a]) - NotBefore(db.alerts[b]) >= cooldown
      || (db.alerts[a].notified && NotBefore(db.alerts[b]) - NotBefore(db.alerts[a]) >= cooldown)
  }

  predicate RowInv(alert: Alert, now: int) {
    && (alert.notified <==> alert.notifiedAt.Some?)
    && alert.createdAt <= NotBefore(alert) <= now
  }

  ghost predicate Inv(s: State) {
    && s.db.alerts.Keys <= s.db.used
    && (forall id <- s.db.alerts :: RowInv(s.db.alerts[id], s.now))
    && (s.listed.Some? ==> s.listed.value <= Pending(s.db))
    && OnePending(s.db)
    && (s.cooldown > 0 && !s.raced ==> Spaced(s.db, s.cooldown))
  }

  /** An insert keeps the notifications of its pair apart if and only if, asked again at that moment,
      the check would still find nothing recent. */
  lemma InsertKeepsSpacingExactly(s: State, ev: nat, id: AlertId, score: int)
    requires Inv(s) && s.cooldown > 0 && Spaced(s.db, s.cooldown)
    requires Enabled(s, Create(ev, id, score)) && Inserts(s, ev)
    ensures Spaced(Step(s, Create(ev, id, score)).db, s.cooldown) <==> !TooRecent(s, ev)
  {
    var t, c := Step(s, Create(ev, id, score)), s.checks[ev];
    var db := t.db;
    assert db.alerts == s.db.alerts[id := Alert(c.w, c.l, score, false, None, s.now, None)];
    if TooRecent(s, ev) {
      var b :| b in s.db.alerts && s.db.alerts[b].watch == c.w && s.db.alerts[b].listing == c.l
               && s.db.alerts[b].notified && s.db.alerts[b].notifiedAt.Some?
               && s.db.alerts[b].notifiedAt.value > s.now - s.cooldown;
      assert SamePair(db, id, b) && db.alerts[b].notified;
    } else {
      forall x, y | SamePair(db, x, y) && db.alerts[y].notified
        ensures || NotBefore(db.alerts[x]) - NotBefore(db.alerts[y]) >= s.cooldown
                || (db.alerts[x].notified && NotBefore(db.alerts[y]) - NotBefore(db.alerts[x]) >= s.cooldown)
      {
        if x != id {
          assert SamePair(s.db, x, y);
        } else {
          assert RowInv(s.db.alerts[y], s.now);
        }
      }
    }
  }

  lemma CreateInv(s: State, a: Action)
    requires Inv(s) && Enabled(s, a) && a.Create?
    ensures Inv(Step(s, a))
  {
    if Inserts(s, a.ev) {
      var t, c := Step(s, a), s.checks[a.ev];
      if s.cooldown > 0 && !t.raced {
        InsertKeepsSpacingExactly(s, a.ev, a.id, a.score);
      }
      forall x: AlertId, y: AlertId | SamePair(t.db, x, y)
        ensures t.db.alerts[x].notified || t.db.alerts[y].notified
      {
        if x != a.id && y != a.id {
          assert SamePair(s.db, x, y);
        } else {
          assert !PendingFor(s.db, if x == a.id then y else x, c.w, c.l);
        }
      }
    }
  }

  /** Marking at the present moment keeps what is pending apart from what was notified. */
  lemma MarkKeepsSpacing(s: State, ids: seq<AlertId>)
    requires Inv(s) && Enabled(s, MarkSome(ids)) && Spaced(s.db, s.cooldown)
    ensures Spaced(Step(s, MarkSome(ids)).db, s.cooldown)
  {
    var t := Step(s, MarkSome(ids));
    assert forall id <- ids :: id in Pending(s.db);
    forall x, y | SamePair(t.db, x, y) && t.db.alerts[y].notified
      ensures || NotBefore(t.db.alerts[x]) - NotBefore(t.db.alerts[y]) >= s.cooldown
              || (t.db.alerts[x].notified && NotBefore(t.db.alerts[y]) - NotBefore(t.db.alerts[x]) >= s.cooldown)
    {
      assert SamePair(s.db, x, y) && SamePair(s.db, y, x);
      assert RowInv(s.db.alerts[x], s.now) && RowInv(s.db.alerts[y], s.now);
    }
  }

  lemma MarkInv(s: State, ids: seq<AlertId>)
    requires Inv(s) && Enabled(s, MarkSome(ids))
    ensures Inv(Step(s, MarkSome(ids)))
  {
    var t := Step(s, MarkSome(ids));
    assert forall id <- ids :: id in Pending(s.db);
    forall x, y | SamePair(t.db, x, y)
      ensures t.db.alerts[x].notified || t.db.alerts[y].notified
    {
      assert SamePair(s.db, x, y);
    }
    if s.cooldown > 0 && !s.raced {
      MarkKeepsSpacing(s, ids);
    }
  }

  lemma StepInv(s: State, a: Action)
    requires Inv(s) && Enabled(s, a)
    ensures Inv(Step(s, a))
  {
    match a
    case Create(_, _, _) => CreateInv(s, a);
    case MarkSome(ids) => MarkInv(s, ids);
    case _ =>
  }

  lemma {:induction false} RunInv(s: State, acts: seq<Action>)
    requires Inv(s) && ValidRun(s, acts)
    ensures Inv(Exec(s, acts)) && Exec(s, acts).cooldown == s.cooldown
    decreases |acts|
  {
    if acts != [] {
      StepInv(s, acts[0]);
      RunInv(Step(s, acts[0]), acts[1..]);
    }
  }

  // --------------------------------------------------------------- theorems

  /** However checks and inserts interleave, a pair never has two pending alerts. */
  lemma NeverTwoPending(cooldown: int, acts: seq<Action>, a: AlertId, b: AlertId)
    requires ValidRun(Init(cooldown), acts) && SamePair(Exec(Init(cooldown), acts).db, a, b)
    ensures var db := Exec(Init(cooldown), acts).db; db.alerts[a].notified || db.alerts[b].notified
  {
    RunInv(Init(cooldown), acts);
  }

  predicate NotifiedApart(db: Db, a: AlertId, b: AlertId, d: int)
    requires a in db.alerts && b in db.alerts
  {
    db.alerts[a].notified && db.alerts[b].notified ==>
      && db.alerts[a].notifiedAt.Some? && db.alerts[b].notifiedAt.Some?
      && (|| db.alerts[a].notifiedAt.value - db.alerts[b].notifiedAt.value >= d
          || db.alerts[b].notifiedAt.value - db.alerts[a].notifiedAt.value >= d)
  }

  /** Unless an insert ran against a recent notification of its own pair, two notifications of a
      pair are at least the cooldown apart. */
  lemma CooldownKept(cooldown: int, acts: seq<Action>, a: AlertId, b: AlertId)
    requires cooldown > 0 && ValidRun(Init(cooldown), acts)
    requires !Exec(Init(cooldown), acts).raced && SamePair(Exec(Init(cooldown), acts).db, a, b)
    ensures NotifiedApart(Exec(Init(cooldown), acts).db, a, b, cooldown)
  {
    RunInv(Init(cooldown), acts);
  }

  // ------------------------------------------------ when exactly it is broken

  predicate NoCreate(acts: seq<Action>) {
    forall i :: 0 <= i < |acts| ==> !acts[i].Create?
  }

  /** Whatever ticks deliver from here on, with nothing new created, notifications stay apart. */
  ghost predicate Safe(s: State) {
    forall later, a, b ::
      ValidRun(s, later) && NoCreate(later) && SamePair(Exec(s, later).db, a, b) ==>
        NotifiedApart(Exec(s, later).db, a, b, s.cooldown)
  }

  lemma {:induction false} DeliveryKeepsSpacing(s: State, later: seq<Action>)
    requires Inv(s) && s.cooldown > 0 && Spaced(s.db, s.cooldown) && ValidRun(s, later) && NoCreate(later)
    ensures Spaced(Exec(s, later).db, s.cooldown) && Inv(Exec(s, later))
    decreases |later|
  {
    if later != [] {
      StepInv(s, later[0]);
      if later[0].MarkSome? {
        MarkKeepsSpacing(s, later[0].ids);
      }
      assert forall i :: 0 <= i < |later[1..]| ==> later[1..][i] == later[i + 1];
      DeliveryKeepsSpacing(Step(s, later[0]), later[1..]);
    }
  }

  lemma SpacedIsSafe(s: State)
    requires Inv(s) && s.cooldown > 0 && Spaced(s.db, s.cooldown)
    ensures Safe(s)
  {
    forall later, a, b | ValidRun(s, later) && NoCreate(later) && SamePair(Exec(s, later).db, a, b)
      ensures NotifiedApart(Exec(s, later).db, a, b, s.cooldown)
    {
      DeliveryKeepsSpacing(s, later);
    }
  }

  /** The tick that delivers one alert at once, after any tick under way has ended. */
  function DeliverNow(s: State, id: AlertId): seq<Action> {
    (if s.listed.Some? then [TickEnd] else []) + [TickBegin, MarkSome([id]), TickEnd]
  }

  lemma DeliversNow(s: State, id: AlertId)
    requires id in Pending(s.db)
    ensures ValidRun(s, DeliverNow(s, id)) && NoCreate(DeliverNow(s, id))
    ensures Exec(s, DeliverNow(s, id)).db == MarkNotified(s.db, [id], s.now)
  {
    var s1 := if s.listed.Some? then Step(s, TickEnd) else s;
    RunThree(s1, TickBegin, MarkSome([id]), TickEnd);
    if s.listed.Some? {
      assert DeliverNow(s, id)[1..] == [TickBegin, MarkSome([id]), TickEnd];
    } else {
      assert DeliverNow(s, id) == [TickBegin, MarkSome([id]), TickEnd];
    }
  }

  lemma TooRecentIsUnsafe(s: State, ev: nat, id: AlertId, score: int)
    requires Inv(s) && s.cooldown > 0
    requires Enabled(s, Create(ev, id, score)) && Inserts(s, ev) && TooRecent(s, ev)
    ensures !Safe(Step(s, Create(ev, id, score)))
  {
    var t, c := Step(s, Create(ev, id, score)), s.checks[ev];
    var b :| b in s.db.alerts && s.db.alerts[b].watch == c.w && s.db.alerts[b].listing == c.l
             && s.db.alerts[b].notified && s.db.alerts[b].notifiedAt.Some?
             && s.db.alerts[b].notifiedAt.value > s.now - s.cooldown;
    assert RowInv(s.db.alerts[b], s.now);
    DeliversNow(t, id);
    var later := DeliverNow(t, id);
    var db := Exec(t, later).db;
    assert SamePair(db, id, b) && db.alerts[b] == s.db.alerts[b] && db.alerts[id].notifiedAt == Some(s.now);
    assert !NotifiedApart(db, id, b, s.cooldown);
  }

  /** After an insert the cooldown can still be kept, whatever is then delivered when, if and only if
      the check would still have passed at the moment of the insert. */
  lemma InsertIsSafeExactly(s: State, ev: nat, id: AlertId, score: int)
    requires Inv(s) && s.cooldown > 0 && Spaced(s.db, s.cooldown)
    requires Enabled(s, Create(ev, id, score)) && Inserts(s, ev)
    ensures Safe(Step(s, Create(ev, id, score))) <==> !TooRecent(s, ev)
  {
    if TooRecent(s, ev) {
      TooRecentIsUnsafe(s, ev, id, score);
    } else {
      InsertKeepsSpacingExactly(s, ev, id, score);
      StepInv(s, Create(ev, id, score));
      SpacedIsSafe(Step(s, Create(ev, id, score)));
    }
  }

  /** Every state of the run is safe. */
  ghost predicate AlwaysSafe(s: State, acts: seq<Action>)
    requires ValidRun(s, acts)
    decreases |acts|
  {
    Safe(s) && (acts == [] || AlwaysSafe(Step(s, acts[0]), acts[1..]))
  }

  lemma {:induction false} RacedStays(s: State, acts: seq<Action>)
    requires ValidRun(s, acts) && s.raced
    ensures Exec(s, acts).raced
    decreases |acts|
  {
    if acts != [] {
      RacedStays(Step(s, acts[0]), acts[1..]);
    }
  }

  lemma {:induction false} SafeExactlyFrom(s: State, acts: seq<Action>)
    requires Inv(s) && s.cooldown > 0 && !s.raced && ValidRun(s, acts)
    ensures AlwaysSafe(s, acts) <==> !Exec(s, acts).raced
    decreases |acts|
  {
    SpacedIsSafe(s);
    if acts != [] {
      var t := Step(s, acts[0]);
      StepInv(s, acts[0]);
      if t.raced {
        TooRecentIsUnsafe(s, acts[0].ev, acts[0].id, acts[0].score);
        RacedStays(t, acts[1..]);
      } else {
        SafeExactlyFrom(t, acts[1..]);
      }
    }
  }

  /** Over every run and interleaving: the cooldown is kept, and can be kept from each state on, if
      and only if no insert ran while the check it was based on would by then have failed. */
  lemma CooldownKeptExactly(cooldown: int, acts: seq<Action>)
    requires cooldown > 0 && ValidRun(Init(cooldown), acts)
    ensures AlwaysSafe(Init(cooldown), acts) <==> !Exec(Init(cooldown), acts).raced
  {
    SafeExactlyFrom(Init(cooldown), acts);
  }

  /** Every insert comes directly after its own check: evaluation is one atomic step. */
  predicate Atomic(acts: seq<Action>, last: Option<nat>)
    decreases |acts|
  {
    acts == [] ||
    (&& (acts[0].Create? ==> last == Some(acts[0].ev))
     && Atomic(acts[1..], if acts[0].Check? then Some(acts[0].ev) else None))
  }

  lemma {:induction false} AtomicNeverRaces(s: State, acts: seq<Action>, last: Option<nat>)
    requires ValidRun(s, acts) && Atomic(acts, last) && !s.raced && s.cooldown > 0
    requires last.Some? && last.value in s.checks ==> !TooRecent(s, last.value)
    ensures !Exec(s, acts).raced
    decreases |acts|
  {
    if acts != [] {
      AtomicNeverRaces(Step(s, acts[0]), acts[1..], if acts[0].Check? then Some(acts[0].ev) else None);
    }
  }

  /** So the cooldown is kept wherever each evaluation runs in one piece. */
  lemma AtomicEvaluationKeepsCooldown(cooldown: int, acts: seq<Action>, a: AlertId, b: AlertId)
    requires cooldown > 0 && ValidRun(Init(cooldown), acts) && Atomic(acts, None)
    requires SamePair(Exec(Init(cooldown), acts).db, a, b)
    ensures NotifiedApart(Exec(Init(cooldown), acts).db, a, b, cooldown)
  {
    AtomicNeverRaces(Init(cooldown), acts, None);
    CooldownKept(cooldown, acts, a, b);
  }

  lemma {:induction false} RunConcat(s: State, xs: seq<Action>, ys: seq<Action>)
    requires ValidRun(s, xs) && ValidRun(Exec(s, xs), ys)
    ensures ValidRun(s, xs + ys) && Exec(s, xs + ys) == Exec(Exec(s, xs), ys)
    decreases |xs|
  {
    if xs == [] {
      assert xs + ys == ys;
    } else {
      RunConcat(Step(s, xs[0]), xs[1..], ys);
      assert (xs + ys)[1..] == xs[1..] + ys;
    }
  }

  lemma RunThree(s: State, a: Action, b: Action, c: Action)
    requires Enabled(s, a) && Enabled(Step(s, a), b) && Enabled(Step(Step(s, a), b), c)
    ensures ValidRun(s, [a, b, c]) && Exec(s, [a, b, c]) == Step(Step(Step(s, a), b), c)
  {
    assert [a, b, c][1..] == [b, c] && [b, c][1..] == [c] && [c][1..] == [];
    assert Exec(Step(Step(s, a), b), [c]) == Step(Step(Step(s, a), b), c);
    assert Exec(Step(s, a), [b, c]) == Exec(Step(Step(s, a), b), [c]);
  }

  /** One evaluation that nothing interrupts. Below the threshold, outside the filters, within the
      cooldown, or after a failed check or a lost insert the table stays as it was; otherwise, whether
      or not the insert's success is reported, the result is that of the two actions Check and Create,
      taken together. */
  method EvaluateAlert(s: AlertStore, id: AlertId, w: WatchId, l: ListingId, score: Option<int>, threshold: int,
                       matches: bool, now: int, cooldown: int, checkOk: bool, write: Write)
    requires id !in s.used
    modifies s
    ensures var fires := score.Some? && score.value >= threshold && matches && (cooldown <= 0 || checkOk);
            !(fires && !write.Lost?) ==> s.View() == old(s.View())
    ensures var adds := score.Some? && score.value >= threshold && matches && !write.Lost?
                        && (cooldown <= 0 || (checkOk && !HasRecent(old(s.View()), w, l, now - cooldown)))
                        && forall p <- old(s.alerts) :: !PendingFor(old(s.View()), p, w, l);
            && s.attempts == old(s.attempts)
            && s.alerts == if adds then old(s.alerts)[id := Alert(w, l, score.value, false, None, now, None)]
                           else old(s.alerts)
    ensures score.Some? && score.value >= threshold && matches && (cooldown <= 0 || checkOk) && !write.Lost? ==>
              forall st: State, ev ::
                st.db == old(s.View()) && st.now == now && st.cooldown == cooldown && ev !in st.checks ==>
                  var st1 := Step(st, Check(ev, w, l));
                  s.View() == if Enabled(st1, Create(ev, id, score.value))
                              then Step(st1, Create(ev, id, score.value)).db else st1.db
  {
    if score.None? || score.value < threshold {
      return;
    }
    if !matches {
      return;
    }
    if cooldown > 0 {
      var recent := s.HasRecentAlert(w, l, now - cooldown);
      if !checkOk {
        return;
      }
      if recent {
        return;
      }
    }
    var failed := s.CreateAlert(id, w, l, score.value, now, write);
  }

  // Two evaluations of one pair, both checked before the first one's alert is delivered.
  const CHECK_TWICE: seq<Action> := [Check(0, 7, 8), Check(1, 7, 8), Create(0, 100, 90)]
  const DELIVER_FIRST: seq<Action> := [TickBegin, MarkSome([100]), TickEnd]
  const DELIVER_SECOND: seq<Action> := [Create(1, 101, 90), TickBegin, MarkSome([101])]

  const UNSENT := Alert(7, 8, 90, false, None, 0, None)
  const SENT := Alert(7, 8, 90, true, Some(0), 0, None)

  lemma CheckTwice(cooldown: int)
    ensures ValidRun(Init(cooldown), CHECK_TWICE)
    ensures Exec(Init(cooldown), CHECK_TWICE) ==
            State(Db(map[100 := UNSENT], [], {100}), 0, cooldown, map[1 := Checked(7, 8)], None, false)
  {
    var s := Init(cooldown);
    var s2 := Step(Step(s, CHECK_TWICE[0]), CHECK_TWICE[1]);
    assert s2.checks == map[0 := Checked(7, 8), 1 := Checked(7, 8)];
    assert s2.checks - {0} == map[1 := Checked(7, 8)];
    RunThree(s, CHECK_TWICE[0], CHECK_TWICE[1], CHECK_TWICE[2]);
  }

  lemma DeliverFirst(cooldown: int)
    ensures var s := State(Db(map[100 := UNSENT], [], {100}), 0, cooldown, map[1 := Checked(7, 8)], None, false);
            && ValidRun(s, DELIVER_FIRST)
            && Exec(s, DELIVER_FIRST) ==
               State(Db(map[100 := SENT], [], {100}), 0, cooldown, map[1 := Checked(7, 8)], None, false)
  {
    var s := State(Db(map[100 := UNSENT], [], {100}), 0, cooldown, map[1 := Checked(7, 8)], None, false);
    assert Pending(s.db) == {100};
    assert OfPair(s.db, 100, 7, 8);
    assert MarkNotified(s.db, [100], 0).alerts == map[100 := SENT];
    assert 100 in [100];
    RunThree(s, DELIVER_FIRST[0], DELIVER_FIRST[1], DELIVER_FIRST[2]);
  }

  lemma DeliverSecond(cooldown: int)
    ensures var s := State(Db(map[100 := SENT], [], {100}), 0, cooldown, map[1 := Checked(7, 8)], None, false);
            && ValidRun(s, DELIVER_SECOND)
            && Exec(s, DELIVER_SECOND).db.alerts == map[100 := SENT, 101 := SENT]
  {
    var s := State(Db(map[100 := SENT], [], {100}), 0, cooldown, map[1 := Checked(7, 8)], None, false);
    var s1 := Step(s, DELIVER_SECOND[0]);
    assert forall p <- s.db.alerts :: !PendingFor(s.db, p, 7, 8);
    assert s1.db.alerts == map[100 := SENT, 101 := UNSENT];
    assert 101 in Pending(s1.db);
    assert MarkNotified(s1.db, [101], 0).alerts == map[100 := SENT, 101 := SENT];
    RunThree(s, DELIVER_SECOND[0], DELIVER_SECOND[1], DELIVER_SECOND[2]);
  }

  /** Without atomic evaluation the cooldown can be broken outright: two notifications of one pair
      at the same instant. */
  lemma InterleavedEvaluationBreaksCooldown(cooldown: int)
    requires cooldown > 0
    ensures var race := CHECK_TWICE + DELIVER_FIRST + DELIVER_SECOND;
            && ValidRun(Init(cooldown), race)
            && SamePair(Exec(Init(cooldown), race).db, 100, 101)
            && !NotifiedApart(Exec(Init(cooldown), race).db, 100, 101, cooldown)
  {
    CheckTwice(cooldown);
    DeliverFirst(cooldown);
    DeliverSecond(cooldown);
    RunConcat(Init(cooldown), CHECK_TWICE, DELIVER_FIRST);
    RunConcat(Init(cooldown), CHECK_TWICE + DELIVER_FIRST, DELIVER_SECOND);
  }
}
