/**
 The scheduler's lock table, shared by any number of hosts. A run of a job is
 inside between a successful acquire and its release. The expiry is computed from
 the client's clock, read some time before the statement runs; a statement may
 commit although its caller sees an error, and a release may be lost.
 */
module SchedulerLock {
  import Finite
  import opened Wrappers

  type RunId = nat
  type Host = nat
  type Job = nat

  /** owner is the run that wrote the row; the table itself stores only its host's name. */
  datatype LockRow = LockRow(holder: Host, expires: int, owner: RunId)

  datatype Section = Section(job: Job, host: Host, expires: int)

  datatype State = State(now: int, locks: map<Job, LockRow>, inside: map<RunId, Section>, used: set<RunId>)

  datatype Action =
    | Advance(d: nat)
    | Acquire(r: RunId, job: Job, host: Host, clock: int, ttl: int, seen: bool)
    | Release(r: RunId, lost: bool)

  const INIT := State(0, map[], map[], {})

  predicate Enabled(s: State, a: Action) {
    match a
    case Advance(_) => true
    case Acquire(r, _, _, clock, _, _) => r !in s.used && clock <= s.now
    case Release(r, _) => r in s.inside
  }

  /** The insert, or the update of a row whose expires_at is before now, went through. */
  predicate Granted(s: State, job: Job) {
    job in s.locks ==> s.locks[job].expires < s.now
  }

  /** DELETE FROM scheduler_locks WHERE job_name = job AND lock_holder = host */
  function DeleteLock(locks: map<Job, LockRow>, job: Job, host: Host): map<Job, LockRow> {
    if job in locks && locks[job].holder == host then locks - {job} else locks
  }

  function Step(s: State, a: Action): State
    requires Enabled(s, a)
  {
    match a
    case Advance(d) => s.(now := s.now + d)
    case Acquire(r, job, host, clock, ttl, seen) =>
      if !Granted(s, job) then s.(used := s.used + {r})
      else State(s.now, s.locks[job := LockRow(host, clock + ttl, r)],
                 if seen then s.inside[r := Section(job, host, clock + ttl)] else s.inside, s.used + {r})
    case Release(r, lost) =>
      var c := s.inside[r];
      s.(locks := if lost then s.locks else DeleteLock(s.locks, c.job, c.host), inside := s.inside - {r})
  }

  predicate ValidRun(s: State, acts: seq<Action>)
    decreases |acts|
  {
    acts == [] || (Enabled(s, acts[0]) && ValidRun(Step(s, acts[0]), acts[1..]))
  }

  function Exec(s: State, acts: seq<Action>): State
    requires ValidRun(s, acts)
    decreases |acts|
  {
    if acts == [] then s else Exec(Step(s, acts[0]), acts[1..])
  }

  lemma {:induction false} RunSplit(s: State, xs: seq<Action>, ys: seq<Action>)
    requires ValidRun(s, xs + ys)
    ensures ValidRun(s, xs) && ValidRun(Exec(s, xs), ys) && Exec(s, xs + ys) == Exec(Exec(s, xs), ys)
    decreases |xs|
  {
    if xs == [] {
      assert xs + ys == ys;
    } else {
      assert (xs + ys)[1..] == xs[1..] + ys;
      RunSplit(Step(s, xs[0]), xs[1..], ys);
    }
  }

  /** The run up to its last action, and that action. */
  lemma RunLast(s: State, acts: seq<Action>)
    requires ValidRun(s, acts) && acts != []
    ensures var n := |acts| - 1;
            && ValidRun(s, acts[..n]) && Enabled(Exec(s, acts[..n]), acts[n])
            && Exec(s, acts) == Step(Exec(s, acts[..n]), acts[n])
  {
    var n := |acts| - 1;
    assert acts == acts[..n] + [acts[n]];
    RunSplit(s, acts[..n], [acts[n]]);
    var t := Exec(s, acts[..n]);
    assert [acts[n]][1..] == [];
    assert Exec(t, [acts[n]]) == Step(t, acts[n]);
  }

  // -------------------------------------------------- the table from the actions

  /** How far the clock has moved. */
  function Elapsed(acts: seq<Action>): nat {
    if acts == [] then 0 else Elapsed(acts[..|acts| - 1]) + (match acts[|acts| - 1] case Advance(d) => d case _ => 0)
  }

  /** The moment up to which an acquire keeps others out: the clock it read, and its TTL. */
  function Deadline(a: Action): int
    requires a.Acquire?
  {
    a.clock + a.ttl
  }

  /** Action i is the acquire of run r. */
  predicate AcquiredAt(acts: seq<Action>, i: nat, r: RunId) {
    i < |acts| && acts[i].Acquire? && acts[i].r == r
  }

  /** The runs that asked for the lock, each once. */
  ghost predicate UsedFrom(used: set<RunId>, acts: seq<Action>) {
    && (forall r :: r in used <==> exists i: nat :: AcquiredAt(acts, i, r))
    && (forall i: nat, j: nat, r :: AcquiredAt(acts, i, r) && AcquiredAt(acts, j, r) ==> i == j)
  }

  /** Each run inside has the job, name and deadline of its own acquire. */
  ghost predicate InsideFrom(s: State, acts: seq<Action>) {
    && s.inside.Keys <= s.used
    && (forall i: nat, r :: AcquiredAt(acts, i, r) && r in s.inside ==>
          acts[i].seen && s.inside[r] == Section(acts[i].job, acts[i].host, Deadline(acts[i])))
  }

  /** So has each row, of the acquire that wrote it. */
  ghost predicate LocksFrom(s: State, acts: seq<Action>) {
    && (forall job <- s.locks :: s.locks[job].owner in s.used)
    && (forall i: nat, job :: job in s.locks && AcquiredAt(acts, i, s.locks[job].owner) ==>
          acts[i].job == job && s.locks[job].holder == acts[i].host && s.locks[job].expires == Deadline(acts[i]))
  }

  ghost predicate FromActions(s: State, acts: seq<Action>) {
    s.now == Elapsed(acts) && UsedFrom(s.used, acts) && InsideFrom(s, acts) && LocksFrom(s, acts)
  }

  lemma AcquiredOneMore(acts: seq<Action>, a: Action, i: nat, r: RunId)
    ensures AcquiredAt(acts + [a], i, r) <==> AcquiredAt(acts, i, r) || (i == |acts| && a.Acquire? && a.r == r)
    ensures AcquiredAt(acts, i, r) ==> (acts + [a])[i] == acts[i]
  {
  }

  lemma UsedStep(s: State, acts: seq<Action>, a: Action)
    requires UsedFrom(s.used, acts) && Enabled(s, a)
    ensures UsedFrom(Step(s, a).used, acts + [a])
  {
    var all := acts + [a];
    forall i: nat, r
      ensures AcquiredAt(all, i, r) <==> AcquiredAt(acts, i, r) || (i == |acts| && a.Acquire? && a.r == r)
    {
      AcquiredOneMore(acts, a, i, r);
    }
    forall r
      ensures r in Step(s, a).used <==> exists i: nat :: AcquiredAt(all, i, r)
    {
      if a.Acquire? && a.r == r {
        assert AcquiredAt(all, |acts|, r);
      } else if r in s.used {
        var i: nat :| AcquiredAt(acts, i, r);
        assert AcquiredAt(all, i, r);
      }
    }
  }

  lemma InsideStep(s: State, acts: seq<Action>, a: Action)
    requires UsedFrom(s.used, acts) && InsideFrom(s, acts) && Enabled(s, a)
    ensures InsideFrom(Step(s, a), acts + [a])
  {
    var all, t := acts + [a], Step(s, a);
    forall i: nat, r | AcquiredAt(all, i, r) && r in t.inside
      ensures all[i].seen && t.inside[r] == Section(all[i].job, all[i].host, Deadline(all[i]))
    {
      AcquiredOneMore(acts, a, i, r);
      if i == |acts| {
        assert r !in s.inside;
      } else {
        assert r in s.used;
      }
    }
  }

  lemma LocksStep(s: State, acts: seq<Action>, a: Action)
    requires UsedFrom(s.used, acts) && LocksFrom(s, acts) && Enabled(s, a)
    ensures LocksFrom(Step(s, a), acts + [a])
  {
    var all, t := acts + [a], Step(s, a);
    forall i: nat, job | job in t.locks && AcquiredAt(all, i, t.locks[job].owner)
      ensures all[i].job == job && t.locks[job].holder == all[i].host && t.locks[job].expires == Deadline(all[i])
    {
      AcquiredOneMore(acts, a, i, t.locks[job].owner);
    }
  }

  lemma FromActionsStep(s: State, acts: seq<Action>, a: Action)
    requires FromActions(s, acts) && Enabled(s, a)
    ensures FromActions(Step(s, a), acts + [a])
  {
    assert (acts + [a])[..|acts + [a]| - 1] == acts;
    UsedStep(s, acts, a);
    InsideStep(s, acts, a);
    LocksStep(s, acts, a);
  }

  /** Over every run from an empty table. */
  lemma {:induction false} TableFromActions(acts: seq<Action>)
    requires ValidRun(INIT, acts)
    ensures FromActions(Exec(INIT, acts), acts)
    decreases |acts|
  {
    if acts != [] {
      var n := |acts| - 1;
      RunLast(INIT, acts);
      TableFromActions(acts[..n]);
      assert acts == acts[..n] + [acts[n]];
      FromActionsStep(Exec(INIT, acts[..n]), acts[..n], acts[n]);
    }
  }

  /** Action i is the release of a run that acquired this job under this name. */
  ghost predicate ReleasesUnder(acts: seq<Action>, i: nat, job: Job, host: Host) {
    && i < |acts| && acts[i].Release?
    && exists j: nat :: AcquiredAt(acts, j, acts[i].r) && acts[j].job == job && acts[j].host == host
  }

  /** From action k on, an acquire granted to acts[k] is left alone: no run of the job releases under its name,
      and no other acquire of the job comes after the deadline. */
  ghost predicate LeftAlone(acts: seq<Action>, k: nat)
    requires k < |acts| && acts[k].Acquire?
  {
    && (forall i: nat :: k < i ==> !ReleasesUnder(acts, i, acts[k].job, acts[k].host))
    && (forall i: nat, r :: k < i && AcquiredAt(acts, i, r) && acts[i].job == acts[k].job ==>
          Elapsed(acts[..i]) <= Deadline(acts[k]))
  }

  lemma LeftAlonePrefix(acts: seq<Action>, k: nat)
    requires k < |acts| - 1 && acts[k].Acquire? && LeftAlone(acts, k)
    ensures LeftAlone(acts[..|acts| - 1], k)
  {
    var n := |acts| - 1;
    var less := acts[..n];
    forall i: nat, r | k < i && AcquiredAt(less, i, r) && less[i].job == less[k].job
      ensures Elapsed(less[..i]) <= Deadline(less[k])
    {
      assert AcquiredAt(acts, i, r) && less[..i] == acts[..i];
    }
    forall i: nat | k < i
      ensures !ReleasesUnder(less, i, less[k].job, less[k].host)
    {
      if ReleasesUnder(less, i, less[k].job, less[k].host) {
        var j: nat :| AcquiredAt(less, j, less[i].r) && less[j].job == less[k].job && less[j].host == less[k].host;
        assert AcquiredAt(acts, j, acts[i].r) && ReleasesUnder(acts, i, acts[k].job, acts[k].host);
      }
    }
  }

  lemma OneMoreKeepsRow(acts: seq<Action>, k: nat)
    requires ValidRun(INIT, acts) && k < |acts| - 1 && acts[k].Acquire? && LeftAlone(acts, k)
    requires ValidRun(INIT, acts[..|acts| - 1])
    requires var s := Exec(INIT, acts[..|acts| - 1]);
             acts[k].job in s.locks && s.locks[acts[k].job].owner == acts[k].r
    ensures var t := Exec(INIT, acts); acts[k].job in t.locks && t.locks[acts[k].job].owner == acts[k].r
  {
    var n := |acts| - 1;
    var less, last, job := acts[..n], acts[n], acts[k].job;
    RunLast(INIT, acts);
    TableFromActions(less);
    assert AcquiredAt(less, k, acts[k].r);
    var s := Exec(INIT, less);
    match last
    case Advance(_) =>
    case Acquire(r, j, _, _, _, _) =>
      assert AcquiredAt(acts, n, r);
    case Release(r, _) =>
      var i: nat :| AcquiredAt(less, i, r);
      assert AcquiredAt(acts, i, r);
      assert !ReleasesUnder(acts, n, job, acts[k].host);
  }

  lemma {:induction false} RowKept(acts: seq<Action>, k: nat)
    requires ValidRun(INIT, acts) && k < |acts| && acts[k].Acquire? && LeftAlone(acts, k)
    requires ValidRun(INIT, acts[..k]) && Granted(Exec(INIT, acts[..k]), acts[k].job)
    ensures var t := Exec(INIT, acts); acts[k].job in t.locks && t.locks[acts[k].job].owner == acts[k].r
    decreases |acts|
  {
    var n := |acts| - 1;
    RunLast(INIT, acts);
    if k < n {
      LeftAlonePrefix(acts, k);
      assert acts[..n][..k] == acts[..k];
      RowKept(acts[..n], k);
      OneMoreKeepsRow(acts, k);
    }
  }

  /** One more acquire that is told its outcome gets its run inside. */
  predicate GetsInside(acts: seq<Action>, q: RunId, job: Job, host: Host, clock: int, ttl: int)
    requires ValidRun(INIT, acts) && Enabled(Exec(INIT, acts), Acquire(q, job, host, clock, ttl, true))
  {
    q in Step(Exec(INIT, acts), Acquire(q, job, host, clock, ttl, true)).inside
  }

  /** A granted acquire that is left alone keeps every other run of its job out exactly until the clock it read
      plus its TTL has passed: then, and only then, another acquire gets inside. */
  lemma HeldExactlyForTTL(acts: seq<Action>, k: nat, q: RunId, host: Host, clock: int, ttl: int)
    requires ValidRun(INIT, acts) && k < |acts| && acts[k].Acquire? && LeftAlone(acts, k)
    requires ValidRun(INIT, acts[..k]) && Granted(Exec(INIT, acts[..k]), acts[k].job)
    requires Enabled(Exec(INIT, acts), Acquire(q, acts[k].job, host, clock, ttl, true))
    ensures GetsInside(acts, q, acts[k].job, host, clock, ttl) <==> acts[k].clock + acts[k].ttl < Elapsed(acts)
  {
    RowKept(acts, k);
    TableFromActions(acts);
    assert AcquiredAt(acts, k, acts[k].r);
  }

  /** A job nobody has tried to acquire is free. */
  lemma {:induction false} UntriedIsFree(acts: seq<Action>, q: RunId, job: Job, host: Host, clock: int, ttl: int)
    requires ValidRun(INIT, acts) && forall i :: 0 <= i < |acts| && acts[i].Acquire? ==> acts[i].job != job
    requires Enabled(Exec(INIT, acts), Acquire(q, job, host, clock, ttl, true))
    ensures GetsInside(acts, q, job, host, clock, ttl)
  {
    TableFromActions(acts);
  }

  /** A release that reaches the table frees the job at once for whoever held it under that name. */
  lemma ReleaseFreesExactly(acts: seq<Action>, k: nat, r: RunId, q: RunId, host: Host, clock: int, ttl: int)
    requires ValidRun(INIT, acts) && k < |acts| && acts[k].Acquire? && LeftAlone(acts, k)
    requires ValidRun(INIT, acts[..k]) && Granted(Exec(INIT, acts[..k]), acts[k].job)
    requires Elapsed(acts) <= Deadline(acts[k])
    requires r in Exec(INIT, acts).inside && ValidRun(INIT, acts + [Release(r, false)])
    requires Enabled(Exec(INIT, acts + [Release(r, false)]), Acquire(q, acts[k].job, host, clock, ttl, true))
    ensures GetsInside(acts + [Release(r, false)], q, acts[k].job, host, clock, ttl)
       <==> exists i: nat :: AcquiredAt(acts, i, r) && acts[i].job == acts[k].job && acts[i].host == acts[k].host
  {
    var all := acts + [Release(r, false)];
    RowKept(acts, k);
    TableFromActions(acts);
    RunLast(INIT, all);
    assert all[..|all| - 1] == acts;
    assert AcquiredAt(acts, k, acts[k].r);
    var i: nat :| AcquiredAt(acts, i, r);
  }

  // ----------------------------------------------- exclusion under the TTL

  predicate NoOverstay(s: State) {
    forall r <- s.inside :: s.now <= s.inside[r].expires
  }

  /** Every run inside owns its job's row. */
  predicate OwnsRow(s: State, r: RunId) {
    && r in s.inside
    && s.inside[r].job in s.locks
    && s.locks[s.inside[r].job] == LockRow(s.inside[r].host, s.inside[r].expires, r)
  }

  predicate AllOwn(s: State) {
    s.inside.Keys <= s.used && forall r <- s.inside :: OwnsRow(s, r)
  }

  lemma StepOwns(s: State, a: Action)
    requires AllOwn(s) && NoOverstay(s) && Enabled(s, a)
    ensures AllOwn(Step(s, a))
  {
    var t := Step(s, a);
    forall r | r in t.inside
      ensures OwnsRow(t, r)
    {
      if a.Release? && r in s.inside {
        assert OwnsRow(s, r) && OwnsRow(s, a.r);
      } else if r in s.inside {
        assert OwnsRow(s, r);
      }
    }
  }

  /** No run is ever inside later than the clock of its acquire plus its TTL. */
  ghost predicate OnTime(acts: seq<Action>) {
    forall k, i: nat, r ::
      0 <= k <= |acts| && AcquiredAt(acts[..k], i, r)
      && ValidRun(INIT, acts[..k]) && r in Exec(INIT, acts[..k]).inside ==>
        Elapsed(acts[..k]) <= acts[i].clock + acts[i].ttl
  }

  lemma OnTimeNow(acts: seq<Action>)
    requires ValidRun(INIT, acts) && OnTime(acts)
    ensures NoOverstay(Exec(INIT, acts))
  {
    TableFromActions(acts);
    var s := Exec(INIT, acts);
    assert acts[..|acts|] == acts;
    forall r | r in s.inside
      ensures s.now <= s.inside[r].expires
    {
      var i: nat :| AcquiredAt(acts, i, r);
    }
  }

  lemma OnTimePrefix(acts: seq<Action>, n: nat)
    requires n <= |acts| && OnTime(acts)
    ensures OnTime(acts[..n])
  {
    forall k, i: nat, r | 0 <= k <= n && AcquiredAt(acts[..n][..k], i, r) && ValidRun(INIT, acts[..n][..k])
      && r in Exec(INIT, acts[..n][..k]).inside
      ensures Elapsed(acts[..n][..k]) <= acts[..n][i].clock + acts[..n][i].ttl
    {
      assert acts[..n][..k] == acts[..k];
    }
  }

  lemma {:induction false} OnTimeOwns(acts: seq<Action>)
    requires ValidRun(INIT, acts) && OnTime(acts)
    ensures AllOwn(Exec(INIT, acts))
    decreases |acts|
  {
    if acts != [] {
      var n := |acts| - 1;
      RunLast(INIT, acts);
      OnTimePrefix(acts, n);
      OnTimeOwns(acts[..n]);
      OnTimeNow(acts[..n]);
      StepOwns(Exec(INIT, acts[..n]), acts[n]);
    }
  }

  /** For any number of hosts: if no run is inside later than its acquire's clock plus its TTL, at most one run
      of a job is inside. */
  lemma AtMostOneInside(acts: seq<Action>, i: nat, j: nat)
    requires ValidRun(INIT, acts) && OnTime(acts)
    requires i < j < |acts| && acts[i].Acquire? && acts[j].Acquire?
    requires acts[i].r in Exec(INIT, acts).inside && acts[j].r in Exec(INIT, acts).inside
    ensures acts[i].job != acts[j].job
  {
    OnTimeOwns(acts);
    TableFromActions(acts);
    assert AcquiredAt(acts, i, acts[i].r) && AcquiredAt(acts, j, acts[j].r);
    assert OwnsRow(Exec(INIT, acts), acts[i].r) && OwnsRow(Exec(INIT, acts), acts[j].r);
  }

  // --------------------------------------------------------- without the TTL

  /** The row is in place, and its expiry has passed. */
  predicate Expired(s: State, job: Job, row: LockRow) {
    job in s.locks && s.locks[job] == row && row.expires < s.now
  }

  /** The action is the release of a run of the same job on a host of the row's name. */
  predicate Frees(s: State, a: Action, job: Job, row: LockRow) {
    a.Release? && a.r in s.inside && s.inside[a.r].job == job && s.inside[a.r].host == row.holder
  }

  /** Somewhere along the run the row, still in place, had expired, or a run of its job under its
      name released. */
  predicate GivenUp(s: State, acts: seq<Action>, job: Job, row: LockRow)
    requires ValidRun(s, acts)
    decreases |acts|
  {
    || Expired(s, job, row)
    || (acts != [] && (Frees(s, acts[0], job, row) || GivenUp(Step(s, acts[0]), acts[1..], job, row)))
  }

  /** Over every run: a row that is another at the end, or gone, expired on the way or was released
      under its holder's name; nothing else takes it from its holder. */
  lemma {:induction false} TakeoverOnlyAfterExpiry(s: State, acts: seq<Action>, job: Job)
    requires ValidRun(s, acts) && job in s.locks
    ensures var t := Exec(s, acts);
            job !in t.locks || t.locks[job] != s.locks[job] ==> GivenUp(s, acts, job, s.locks[job])
    decreases |acts|
  {
    if acts != [] && s.now <= s.locks[job].expires && !Frees(s, acts[0], job, s.locks[job]) {
      TakeoverOnlyAfterExpiry(Step(s, acts[0]), acts[1..], job);
    }
  }

  predicate NeverReleases(acts: seq<Action>, r: RunId) {
    forall i :: 0 <= i < |acts| && acts[i].Release? ==> acts[i].r != r
  }

  /** No other run of r's job is inside under the name of r's host. */
  predicate OnlyHolder(s: State, r: RunId)
    requires r in s.inside
  {
    forall q <- s.inside :: q != r ==> s.inside[q].job != s.inside[r].job || s.inside[q].host != s.inside[r].host
  }

  /** Whatever else happens, r keeps its row until it releases it or the row expires. */
  ghost predicate Protected(s: State, r: RunId)
    requires r in s.inside
  {
    forall acts ::
      ValidRun(s, acts) && NeverReleases(acts, r) && Exec(s, acts).now <= s.inside[r].expires ==>
        OwnsRow(Exec(s, acts), r)
  }

  lemma {:induction false} OnlyHolderKeepsRow(s: State, acts: seq<Action>, r: RunId)
    requires ValidRun(s, acts) && s.inside.Keys <= s.used && OwnsRow(s, r) && OnlyHolder(s, r)
    requires NeverReleases(acts, r) && Exec(s, acts).now <= s.inside[r].expires
    ensures OwnsRow(Exec(s, acts), r)
    decreases |acts|
  {
    if acts != [] {
      var t := Step(s, acts[0]);
      ClockForward(t, acts[1..]);
      ClockForward(s, acts);
      assert !acts[0].Release? || acts[0].r != r;
      assert OwnsRow(t, r) && OnlyHolder(t, r);
      assert forall i :: 0 <= i < |acts[1..]| ==> acts[1..][i] == acts[i + 1];
      OnlyHolderKeepsRow(t, acts[1..], r);
    }
  }

  /** However long runs take: a run that holds its row is safe from every other run's release until its
      own row expires if and only if no other run of its job is inside under its host's name. */
  lemma LateReleaseHarmlessExactly(s: State, r: RunId)
    requires s.inside.Keys <= s.used && OwnsRow(s, r) && s.now <= s.inside[r].expires
    ensures Protected(s, r) <==> OnlyHolder(s, r)
  {
    if OnlyHolder(s, r) {
      forall acts | ValidRun(s, acts) && NeverReleases(acts, r) && Exec(s, acts).now <= s.inside[r].expires
        ensures OwnsRow(Exec(s, acts), r)
      {
        OnlyHolderKeepsRow(s, acts, r);
      }
    } else {
      var q :| q in s.inside && q != r
               && s.inside[q].job == s.inside[r].job && s.inside[q].host == s.inside[r].host;
      var late := [Release(q, false)];
      assert ValidRun(Step(s, late[0]), []) && late[1..] == [];
      assert Exec(s, late) == Step(s, late[0]);
      assert !OwnsRow(Exec(s, late), r);
    }
  }

  /** Until the deadline, and while r has not released, no run that had not started by s comes to be inside
      for the job. */
  ghost predicate Excludes(s: State, r: RunId, job: Job, deadline: int) {
    forall acts, q ::
      ValidRun(s, acts) && NeverReleases(acts, r) && Exec(s, acts).now <= deadline
      && q in Exec(s, acts).inside && q !in s.used ==>
        Exec(s, acts).inside[q].job != job
  }

  predicate NoNewcomer(s: State, started: set<RunId>, job: Job) {
    forall q <- s.inside :: q !in started ==> s.inside[q].job != job
  }

  lemma {:induction false} OnlyHolderExcludes(s: State, acts: seq<Action>, r: RunId, started: set<RunId>)
    requires ValidRun(s, acts) && s.inside.Keys <= s.used && OwnsRow(s, r) && OnlyHolder(s, r)
    requires NeverReleases(acts, r) && Exec(s, acts).now <= s.inside[r].expires
    requires NoNewcomer(s, started, s.inside[r].job)
    ensures NoNewcomer(Exec(s, acts), started, s.inside[r].job)
    decreases |acts|
  {
    if acts != [] {
      var t := Step(s, acts[0]);
      ClockForward(t, acts[1..]);
      ClockForward(s, acts);
      assert !acts[0].Release? || acts[0].r != r;
      assert OwnsRow(t, r) && OnlyHolder(t, r);
      assert forall i :: 0 <= i < |acts[1..]| ==> acts[1..][i] == acts[i + 1];
      OnlyHolderExcludes(t, acts[1..], r, started);
    }
  }

  lemma SharedNameAdmits(s: State, r: RunId, q: RunId)
    requires s.inside.Keys <= s.used && OwnsRow(s, r) && s.now <= s.inside[r].expires
    requires q in s.inside && q != r
    requires s.inside[q].job == s.inside[r].job && s.inside[q].host == s.inside[r].host
    ensures !Excludes(s, r, s.inside[r].job, s.inside[r].expires)
  {
    var n := Finite.Above(s.used);
    var job := s.inside[r].job;
    var a, b := Release(q, false), Acquire(n, job, 0, s.now, 0, true);
    var t := Step(s, a);
    assert job !in t.locks && n !in s.used;
    var acts := [a] + ([b] + []);
    RunCons(t, b, []);
    RunCons(s, a, [b] + []);
    assert n in Exec(s, acts).inside && Exec(s, acts).inside[n].job == job;
  }

  lemma HolderExcludesExactly(s: State, r: RunId)
    requires s.inside.Keys <= s.used && OwnsRow(s, r) && s.now <= s.inside[r].expires
    ensures Excludes(s, r, s.inside[r].job, s.inside[r].expires) <==> OnlyHolder(s, r)
  {
    if OnlyHolder(s, r) {
      forall acts, q |
        ValidRun(s, acts) && NeverReleases(acts, r) && Exec(s, acts).now <= s.inside[r].expires
        && q in Exec(s, acts).inside && q !in s.used
        ensures Exec(s, acts).inside[q].job != s.inside[r].job
      {
        OnlyHolderExcludes(s, acts, r, s.used);
      }
    } else {
      var q :| q in s.inside && q != r
               && s.inside[q].job == s.inside[r].job && s.inside[q].host == s.inside[r].host;
      SharedNameAdmits(s, r, q);
    }
  }

  /** So mutual exclusion up to the clock of the acquire plus its TTL holds under exactly the same condition. */
  lemma ExclusionExactly(acts: seq<Action>, i: nat)
    requires ValidRun(INIT, acts) && i < |acts| && acts[i].Acquire? && OwnsRow(Exec(INIT, acts), acts[i].r)
    requires Elapsed(acts) <= acts[i].clock + acts[i].ttl
    ensures var s, a := Exec(INIT, acts), acts[i];
            Excludes(s, a.r, a.job, a.clock + a.ttl) <==> OnlyHolder(s, a.r)
  {
    TableFromActions(acts);
    assert AcquiredAt(acts, i, acts[i].r);
    HolderExcludesExactly(Exec(INIT, acts), acts[i].r);
  }

  lemma {:induction false} ClockForward(s: State, acts: seq<Action>)
    requires ValidRun(s, acts)
    ensures s.now <= Exec(s, acts).now
    decreases |acts|
  {
    if acts != [] {
      ClockForward(Step(s, acts[0]), acts[1..]);
    }
  }

  /** One host alone: its first tick outlives the TTL, the second takes over, the first releases late,
      and a third starts beside the second. */
  const OVERLAPPING_TICKS: seq<Action> := [
    Acquire(1, 0, 5, 0, 10, true), Advance(11), Acquire(2, 0, 5, 11, 10, true),
    Release(1, false), Acquire(3, 0, 5, 11, 10, true)]

  lemma RunCons(s: State, a: Action, rest: seq<Action>)
    requires Enabled(s, a) && ValidRun(Step(s, a), rest)
    ensures ValidRun(s, [a] + rest) && Exec(s, [a] + rest) == Exec(Step(s, a), rest)
  {
    assert ([a] + rest)[1..] == rest;
  }

  /** Runs are told apart by their host's name only, which one host's own overlapping ticks share (as
      do hosts whose name could not be read): two runs are inside within their TTL. */
  lemma SharedNameBreaksExclusion()
    ensures ValidRun(INIT, OVERLAPPING_TICKS)
    ensures var t := Exec(INIT, OVERLAPPING_TICKS);
            && 2 in t.inside && 3 in t.inside && t.inside[2].job == t.inside[3].job
            && t.now <= t.inside[2].expires && t.now <= t.inside[3].expires
  {
    var s1 := Step(INIT, OVERLAPPING_TICKS[0]);
    var s2 := Step(s1, OVERLAPPING_TICKS[1]);
    var s3 := Step(s2, OVERLAPPING_TICKS[2]);
    var s4 := Step(s3, OVERLAPPING_TICKS[3]);
    assert 0 !in s4.locks;
    var s5 := Step(s4, OVERLAPPING_TICKS[4]);
    RunCons(s4, OVERLAPPING_TICKS[4], []);
    RunCons(s3, OVERLAPPING_TICKS[3], OVERLAPPING_TICKS[4..]);
    RunCons(s2, OVERLAPPING_TICKS[2], OVERLAPPING_TICKS[3..]);
    RunCons(s1, OVERLAPPING_TICKS[1], OVERLAPPING_TICKS[2..]);
    RunCons(INIT, OVERLAPPING_TICKS[0], OVERLAPPING_TICKS[1..]);
  }

  // ------------------------------------------------------------------ runJob

  /** What one call of runJob did: how often the function ran and the lock was released, whether the
      function ran before that release, and the outcome recorded at the end, if any. */
  datatype Trace = Trace(runs: nat, releases: nat, ranInside: bool, recorded: Option<bool>)

  /** The job's function runs exactly when the lock was granted; a granted lock is released exactly
      once: after the function if the run could be recorded, and before it if not, in which case the
      run is no longer inside when it starts. A recorded run is completed once, with its outcome. */
  method RunJob(acquireFailed: bool, acquired: bool, insertOk: bool, fnOk: bool)
    returns (failed: bool, did: Trace)
    ensures var granted := !acquireFailed && acquired;
            && did.runs == did.releases == (if granted then 1 else 0)
            && (did.ranInside <==> granted && insertOk)
            && did.recorded == (if granted && insertOk then Some(fnOk) else None)
            && (failed <==> granted && !fnOk)
  {
    did := Trace(0, 0, false, None);
    if acquireFailed {
      return false, did;
    }
    if !acquired {
      return false, did;
    }
    if !insertOk {
      did := did.(releases := did.releases + 1);
      did := did.(runs := did.runs + 1, ranInside := did.releases == 0);
      return !fnOk, did;
    }
    var status := true;
    failed := false;
    did := did.(runs := did.runs + 1, ranInside := did.releases == 0);
    if !fnOk {
      status := false;
      failed := true;
    }
    did := did.(releases := did.releases + 1);
    did := did.(recorded := Some(status));
  }
}
