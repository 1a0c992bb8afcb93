/**
 The buffered telemetry client: many producers, one drain goroutine, a bounded
 channel, and Start/Stop called in any order from any number of goroutines.

 Every action below is one atomic step of one goroutine; a run is any
 interleaving of them. Go's `select` is the choice between two enabled actions.
 The section of Stop that runs under stopMu is one action: the only other user
 of stopMu is the drain, and it reads the context after the channel is closed.
 */
module BufferedClient {
  import Finite
  import opened Wrappers

  /** Identity of one offered write; two offers are two jobs. */
  type Job = nat

  /** The context a write is issued under. */
  datatype Ctx = Parent | Shutdown(caller: nat)

  datatype Attempt = Attempt(job: Job, ctx: Ctx)

  /** startOnce: Fresh until the first Start; the next three are its body's program points. */
  datatype Once = Fresh | Checking | Adding | Spawning | Done

  /** Program points of the drain goroutine. */
  datatype Drain =
    | NotSpawned
    | Looping
    | Running(job: Job)
    | SawStop
    | Flushing(ctx: Ctx)
    | FlushRunning(job: Job, ctx: Ctx)
    | Returning
    | Exited

  datatype StopPhase = Called | Waiting | WaitDone | ReturnedNil | ReturnedErr

  /** One Stop call, with what had been accepted and whether the drain was still to flush when it began. */
  datatype StopCall = StopCall(phase: StopPhase, before: seq<Job>, covered: bool)

  datatype State = State(
    cap: nat,
    queue: seq<Job>,
    once: Once,
    wg: int,
    stopClosed: bool,
    shutdownCtx: Option<Ctx>,
    drain: Drain,
    stops: map<nat, StopCall>,
    accepted: seq<Job>,
    dropped: set<Job>,
    attempts: seq<Attempt>)

  datatype Action =
    | Offer(job: Job)
    | StartBegin | StartAgain | StartCheck | StartAdd | StartGo
    | StopBegin(k: nat) | StopSignal(k: nat) | StopWaitDone(k: nat) | StopReturn(k: nat) | StopTimeout(k: nat)
    | DrainTake | DrainFinish | DrainSeeStop | DrainReadCtx
    | FlushTake | FlushFinish | FlushEmpty | DrainExit

  const DEFAULT_CAPACITY: nat := 1000

  function Init(capacity: int): State {
    State(if capacity <= 0 then DEFAULT_CAPACITY else capacity,
          [], Fresh, 0, false, None, NotSpawned, map[], [], {}, [])
  }

  function Jobs(attempts: seq<Attempt>): (js: seq<Job>)
    ensures |js| == |attempts|
  {
    seq(|attempts|, i requires 0 <= i < |attempts| => attempts[i].job)
  }

  function InFlight(d: Drain): seq<Job> {
    match d
    case Running(job) => [job]
    case FlushRunning(job, _) => [job]
    case _ => []
  }

  predicate Live(d: Drain) {
    !d.NotSpawned? && !d.Exited?
  }

  /** A drain that exists, or is certain to, and has not yet made its last check for an empty channel. */
  predicate StillDraining(s: State) {
    s.once.Spawning? || (Live(s.drain) && !s.drain.Returning?)
  }

  predicate InPhase(s: State, k: nat, phase: StopPhase) {
    k in s.stops && s.stops[k].phase == phase
  }

  predicate Enabled(s: State, a: Action) {
    match a
    case Offer(job) => job !in s.accepted && job !in s.dropped
    case StartBegin => s.once.Fresh?
    case StartAgain => s.once.Done?
    case StartCheck => s.once.Checking?
    case StartAdd => s.once.Adding?
    case StartGo => s.once.Spawning?
    case StopBegin(k) => k !in s.stops
    case StopSignal(k) => InPhase(s, k, Called)
    case StopWaitDone(k) => InPhase(s, k, Waiting) && s.wg == 0
    case StopReturn(k) => InPhase(s, k, WaitDone)
    case StopTimeout(k) => InPhase(s, k, Waiting) || InPhase(s, k, WaitDone)
    case DrainTake => s.drain.Looping? && s.queue != []
    case DrainFinish => s.drain.Running?
    case DrainSeeStop => s.drain.Looping? && s.stopClosed
    case DrainReadCtx => s.drain.SawStop?
    case FlushTake => s.drain.Flushing? && s.queue != []
    case FlushFinish => s.drain.FlushRunning?
    case FlushEmpty => s.drain.Flushing? && s.queue == []
    case DrainExit => s.drain.Returning?
  }

  function SetPhase(s: State, k: nat, phase: StopPhase): State
    requires k in s.stops
  {
    s.(stops := s.stops[k := s.stops[k].(phase := phase)])
  }

  function Step(s: State, a: Action): State
    requires Enabled(s, a)
  {
    match a
    case Offer(job) =>
      if |s.queue| < s.cap then s.(queue := s.queue + [job], accepted := s.accepted + [job])
      else s.(dropped := s.dropped + {job})
    case StartBegin => s.(once := Checking)
    case StartAgain => s
    case StartCheck => s.(once := if s.stopClosed then Done else Adding)
    case StartAdd => s.(once := Spawning, wg := s.wg + 1)
    case StartGo => s.(once := Done, drain := Looping)
    case StopBegin(k) =>
      s.(stops := s.stops[k := StopCall(Called, s.accepted, StillDraining(s) || s.queue == [])])
    case StopSignal(k) => SetPhase(s, k, Waiting).(shutdownCtx := Some(Shutdown(k)), stopClosed := true)
    case StopWaitDone(k) => SetPhase(s, k, WaitDone)
    case StopReturn(k) => SetPhase(s, k, ReturnedNil)
    case StopTimeout(k) => SetPhase(s, k, ReturnedErr)
    case DrainTake => s.(drain := Running(s.queue[0]), queue := s.queue[1..])
    case DrainFinish => s.(drain := Looping, attempts := s.attempts + [Attempt(s.drain.job, Parent)])
    case DrainSeeStop => s.(drain := SawStop)
    case DrainReadCtx =>
      s.(drain := Flushing(match s.shutdownCtx case Some(c) => c case None => Parent))
    case FlushTake => s.(drain := FlushRunning(s.queue[0], s.drain.ctx), queue := s.queue[1..])
    case FlushFinish =>
      s.(drain := Flushing(s.drain.ctx), attempts := s.attempts + [Attempt(s.drain.job, s.drain.ctx)])
    case FlushEmpty => s.(drain := Returning)
    case DrainExit => s.(drain := Exited, wg := s.wg - 1)
  }

  predicate ValidRun(s: State, acts: seq<Action>)
    decreases |acts|
  {
    acts == [] || (Enabled(s, acts[0]) && ValidRun(Step(s, acts[0]), acts[1..]))
  }

  function Exec(s: State, acts: seq<Action>): State
    requires ValidRun(s, acts)
    decreases |acts|
  {
    if acts == [] then s else Exec(Step(s, acts[0]), acts[1..])
  }

  lemma {:induction false} RunAppend(s: State, acts: seq<Action>, a: Action)
    requires ValidRun(s, acts) && Enabled(Exec(s, acts), a)
    ensures ValidRun(s, acts + [a]) && Exec(s, acts + [a]) == Step(Exec(s, acts), a)
    decreases |acts|
  {
    if acts == [] {
      assert [a][1..] == [];
    } else {
      RunAppend(Step(s, acts[0]), acts[1..], a);
      assert (acts + [a])[1..] == acts[1..] + [a];
    }
  }

  // ------------------------------------------------------------- invariant

  predicate Distinct(js: seq<Job>) {
    forall i, j :: 0 <= i < j < |js| ==> js[i] != js[j]
  }

  /** Where the jobs are: what was accepted is, in order, what was attempted, then in flight, then queued. */
  predicate JobsInv(s: State) {
    && 0 < s.cap
    && |s.queue| <= s.cap
    && s.accepted == Jobs(s.attempts) + InFlight(s.drain) + s.queue
    && Distinct(s.accepted)
    && (forall j :: j in s.accepted ==> j !in s.dropped)
  }

  /** Start, Stop and the drain agree on who runs. */
  predicate LifecycleInv(s: State) {
    && s.wg == (if Live(s.drain) || s.once.Spawning? then 1 else 0)
    && (!s.drain.NotSpawned? ==> s.once.Done?)
    && (s.stopClosed <==> s.shutdownCtx.Some?)
    && (s.shutdownCtx.Some? ==> s.shutdownCtx.value.Shutdown?)
    && (s.drain.SawStop? || s.drain.Flushing? || s.drain.FlushRunning? || s.drain.Returning? || s.drain.Exited?
        ==> s.stopClosed)
    && (s.drain.Flushing? || s.drain.FlushRunning? ==> s.drain.ctx.Shutdown?)
  }

  predicate StopInv(s: State, c: StopCall) {
    && c.before <= s.accepted
    && (c.covered ==> StillDraining(s) || c.before <= Jobs(s.attempts))
    && (c.covered && (c.phase.WaitDone? || c.phase.ReturnedNil?) ==> c.before <= Jobs(s.attempts))
  }

  predicate Inv(s: State) {
    JobsInv(s) && LifecycleInv(s) && forall k :: k in s.stops ==> StopInv(s, s.stops[k])
  }

  lemma JobsAppend(attempts: seq<Attempt>, x: Attempt)
    ensures Jobs(attempts + [x]) == Jobs(attempts) + [x.job]
  {
  }

  lemma TakeKeepsOrder(done: seq<Job>, queue: seq<Job>)
    requires queue != []
    ensures done + [] + queue == done + [queue[0]] + queue[1..]
  {
  }

  lemma OfferJobsInv(s: State, job: Job)
    requires JobsInv(s) && Enabled(s, Offer(job))
    ensures JobsInv(Step(s, Offer(job))) && s.accepted <= Step(s, Offer(job)).accepted
  {
  }

  lemma DrainJobsInv(s: State, a: Action)
    requires JobsInv(s) && Enabled(s, a) && (a.DrainTake? || a.FlushTake? || a.DrainFinish? || a.FlushFinish?)
    ensures JobsInv(Step(s, a)) && Jobs(s.attempts) <= Jobs(Step(s, a).attempts)
  {
    match a
    case DrainFinish => JobsAppend(s.attempts, Attempt(s.drain.job, Parent));
    case FlushFinish => JobsAppend(s.attempts, Attempt(s.drain.job, s.drain.ctx));
    case _ => TakeKeepsOrder(Jobs(s.attempts), s.queue);
  }

  lemma StepJobsInv(s: State, a: Action)
    requires Inv(s) && Enabled(s, a)
    ensures JobsInv(Step(s, a))
    ensures Jobs(s.attempts) <= Jobs(Step(s, a).attempts)
    ensures s.accepted <= Step(s, a).accepted
  {
    match a
    case Offer(job) => OfferJobsInv(s, job);
    case DrainTake => DrainJobsInv(s, a);
    case FlushTake => DrainJobsInv(s, a);
    case DrainFinish => DrainJobsInv(s, a);
    case FlushFinish => DrainJobsInv(s, a);
    case _ =>
  }

  lemma StepLifecycleInv(s: State, a: Action)
    requires LifecycleInv(s) && Enabled(s, a)
    ensures LifecycleInv(Step(s, a))
  {
  }

  lemma StepStopInv(s: State, a: Action, k: nat)
    requires Inv(s) && Enabled(s, a) && k in Step(s, a).stops
    ensures StopInv(Step(s, a), Step(s, a).stops[k])
  {
    StepJobsInv(s, a);
    if a != StopBegin(k) {
      assert StopInv(s, s.stops[k]);
    }
  }

  lemma StepInv(s: State, a: Action)
    requires Inv(s) && Enabled(s, a)
    ensures Inv(Step(s, a))
  {
    StepJobsInv(s, a);
    StepLifecycleInv(s, a);
    forall k | k in Step(s, a).stops
      ensures StopInv(Step(s, a), Step(s, a).stops[k])
    {
      StepStopInv(s, a, k);
    }
  }

  lemma {:induction false} RunInv(s: State, acts: seq<Action>)
    requires Inv(s) && ValidRun(s, acts)
    ensures Inv(Exec(s, acts))
    ensures s.accepted <= Exec(s, acts).accepted
    ensures Jobs(s.attempts) <= Jobs(Exec(s, acts).attempts)
    decreases |acts|
  {
    if acts != [] {
      StepInv(s, acts[0]);
      StepJobsInv(s, acts[0]);
      RunInv(Step(s, acts[0]), acts[1..]);
    }
  }

  // ---------------------------------------------------------------- theorems

  lemma InitInv(capacity: int)
    ensures Inv(Init(capacity))
  {
  }

  function Count(js: seq<Job>, job: Job): nat {
    multiset(js)[job]
  }

  lemma {:induction false} DistinctCount(js: seq<Job>, job: Job)
    requires Distinct(js)
    ensures Count(js, job) == if job in js then 1 else 0
  {
    if js != [] {
      assert js == [js[0]] + js[1..];
      DistinctCount(js[1..], job);
    }
  }

  function Offered(acts: seq<Action>): set<Job> {
    set a <- acts | a.Offer? :: a.job
  }

  lemma {:induction false} OffersAccounted(s: State, acts: seq<Action>, job: Job)
    requires ValidRun(s, acts)
    ensures var t := Exec(s, acts);
            job in Offered(acts) || job in s.accepted || job in s.dropped <==> job in t.accepted || job in t.dropped
    decreases |acts|
  {
    if acts != [] {
      assert acts == [acts[0]] + acts[1..];
      OffersAccounted(Step(s, acts[0]), acts[1..], job);
    }
  }

  /** Over every run, each offered job is in exactly one place, the queue is within
      capacity, and upstream attempts follow acceptance order. */
  lemma EachJobInOnePlace(capacity: int, acts: seq<Action>, job: Job)
    requires ValidRun(Init(capacity), acts)
    ensures var t := Exec(Init(capacity), acts);
            && Count(Jobs(t.attempts), job) + Count(InFlight(t.drain), job) + Count(t.queue, job)
               + (if job in t.dropped then 1 else 0)
               == (if job in Offered(acts) then 1 else 0)
            && |t.queue| <= (if capacity <= 0 then 1000 else capacity)
            && Jobs(t.attempts) <= t.accepted
  {
    var s := Init(capacity);
    InitInv(capacity);
    RunInv(s, acts);
    var t := Exec(s, acts);
    OffersAccounted(s, acts, job);
    DistinctCount(t.accepted, job);
    CapFixed(s, acts);
  }

  lemma {:induction false} CapFixed(s: State, acts: seq<Action>)
    requires ValidRun(s, acts)
    ensures Exec(s, acts).cap == s.cap
    decreases |acts|
  {
    if acts != [] {
      CapFixed(Step(s, acts[0]), acts[1..]);
    }
  }

  /** After any run of a new client, one more offer is dropped if and only if the channel holds as many
      jobs as were asked for, or 1000 when nothing sensible was; otherwise it joins the end of the queue. */
  lemma DroppedExactlyWhenFull(capacity: int, acts: seq<Action>, job: Job)
    requires ValidRun(Init(capacity), acts) && Enabled(Exec(Init(capacity), acts), Offer(job))
    ensures var n := if capacity <= 0 then 1000 else capacity;
            var s := Exec(Init(capacity), acts);
            var t := Step(s, Offer(job));
            && (job in t.dropped <==> |s.queue| == n)
            && (job in t.accepted <==> |s.queue| < n)
            && t.queue == s.queue + (if |s.queue| < n then [job] else [])
  {
    InitInv(capacity);
    RunInv(Init(capacity), acts);
    CapFixed(Init(capacity), acts);
  }

  function Spawns(acts: seq<Action>): nat {
    if acts == [] then 0 else (if acts[0].StartGo? then 1 else 0) + Spawns(acts[1..])
  }

  lemma {:induction false} SpawnsFrom(s: State, acts: seq<Action>)
    requires Inv(s) && ValidRun(s, acts)
    ensures Spawns(acts) + (if s.drain.NotSpawned? then 0 else 1) == if Exec(s, acts).drain.NotSpawned? then 0 else 1
    decreases |acts|
  {
    if acts != [] {
      StepInv(s, acts[0]);
      SpawnsFrom(Step(s, acts[0]), acts[1..]);
    }
  }

  /** For any number and order of Start and Stop calls at most one drain ever exists, and the
      wait-group count is 1 exactly from wg.Add until the drain returns. */
  lemma AtMostOneDrain(capacity: int, acts: seq<Action>)
    requires ValidRun(Init(capacity), acts)
    ensures Spawns(acts) <= 1
    ensures var t := Exec(Init(capacity), acts);
            t.wg == if t.once.Spawning? || (Spawns(acts) == 1 && !t.drain.Exited?) then 1 else 0
  {
    InitInv(capacity);
    RunInv(Init(capacity), acts);
    SpawnsFrom(Init(capacity), acts);
  }

  /** A first Start that begins after the stop channel closed never spawns a drain. */
  lemma {:induction false} StartAfterStopSpawnsNone(s: State, acts: seq<Action>)
    requires Inv(s) && ValidRun(s, acts)
    requires s.stopClosed && s.drain.NotSpawned? && (s.once.Fresh? || s.once.Checking? || s.once.Done?)
    ensures Exec(s, acts).drain.NotSpawned? && Exec(s, acts).wg == 0 && Spawns(acts) == 0
    decreases |acts|
  {
    if acts != [] {
      StepInv(s, acts[0]);
      StartAfterStopSpawnsNone(Step(s, acts[0]), acts[1..]);
    }
  }

  // --------------------------------------------------- what a nil Stop promises

  lemma {:induction false} StopRecordKept(s: State, acts: seq<Action>, k: nat)
    requires ValidRun(s, acts) && k in s.stops
    ensures var t := Exec(s, acts);
            k in t.stops && t.stops[k].before == s.stops[k].before && t.stops[k].covered == s.stops[k].covered
    decreases |acts|
  {
    if acts != [] {
      StopRecordKept(Step(s, acts[0]), acts[1..], k);
    }
  }

  /** Every continuation in which the Stop call k made in state s returns nil has attempted all that s had accepted. */
  ghost predicate NilMeansAllAttempted(s: State) {
    forall k, acts ::
      k !in s.stops && ValidRun(s, [StopBegin(k)] + acts)
      && InPhase(Exec(s, [StopBegin(k)] + acts), k, ReturnedNil)
      ==> s.accepted <= Jobs(Exec(s, [StopBegin(k)] + acts).attempts)
  }

  lemma CoveredStop(s: State, k: nat, acts: seq<Action>)
    requires Inv(s) && (StillDraining(s) || s.queue == [])
    requires k !in s.stops && ValidRun(s, [StopBegin(k)] + acts)
    requires InPhase(Exec(s, [StopBegin(k)] + acts), k, ReturnedNil)
    ensures s.accepted <= Jobs(Exec(s, [StopBegin(k)] + acts).attempts)
  {
    var all := [StopBegin(k)] + acts;
    assert all[1..] == acts;
    var s1 := Step(s, StopBegin(k));
    StepInv(s, StopBegin(k));
    RunInv(s1, acts);
    StopRecordKept(s1, acts, k);
    assert StopInv(Exec(s1, acts), Exec(s1, acts).stops[k]);
  }

  lemma RunCons(s: State, a: Action, rest: seq<Action>)
    requires Enabled(s, a) && ValidRun(Step(s, a), rest)
    ensures ValidRun(s, [a] + rest) && Exec(s, [a] + rest) == Exec(Step(s, a), rest)
  {
    assert ([a] + rest)[1..] == rest;
  }

  /** The end of a Stop call that proceeds alone: it lets a returning drain go, and returns. */
  function LoneReturn(s: State, k: nat): seq<Action> {
    if s.drain.Returning? then [DrainExit] + [StopWaitDone(k), StopReturn(k)] else [StopWaitDone(k), StopReturn(k)]
  }

  /** A returning drain has exited in t; nothing else but Stop call k and the counts has changed. */
  predicate SameBut(s: State, t: State, k: nat) {
    && InPhase(t, k, ReturnedNil) && t.attempts == s.attempts && t.accepted == s.accepted && t.queue == s.queue
    && t.once == s.once && t.drain == if s.drain.Returning? then Exited else s.drain
  }

  lemma LoneReturnRuns(s: State, k: nat)
    requires InPhase(s, k, Waiting) && s.wg == if s.drain.Returning? then 1 else 0
    ensures ValidRun(s, LoneReturn(s, k))
    ensures var t := Exec(s, LoneReturn(s, k)); SameBut(s, t, k) && t.stopClosed == s.stopClosed
  {
    if s.drain.Returning? {
      RunTwo(Step(s, DrainExit), StopWaitDone(k), StopReturn(k));
      RunCons(s, DrainExit, [StopWaitDone(k), StopReturn(k)]);
    } else {
      RunTwo(s, StopWaitDone(k), StopReturn(k));
    }
  }

  /** The Stop call that proceeds alone, once it has begun. */
  function LoneStop(s: State, k: nat): seq<Action> {
    [StopSignal(k)] + LoneReturn(s, k)
  }

  lemma LoneStopRuns(s: State, k: nat)
    requires Inv(s) && !StillDraining(s) && k !in s.stops
    ensures var all := [StopBegin(k)] + LoneStop(s, k);
            ValidRun(s, all) && SameBut(s, Exec(s, all), k) && Exec(s, all).stopClosed
  {
    var s1 := Step(s, StopBegin(k));
    var s2 := Step(s1, StopSignal(k));
    LoneReturnRuns(s2, k);
    RunCons(s1, StopSignal(k), LoneReturn(s2, k));
    RunCons(s, StopBegin(k), LoneStop(s, k));
  }

  /** In every other state a Stop that nothing interrupts returns nil while an accepted job has not been
      attempted. */
  lemma UncoveredStop(s: State, k: nat)
    requires Inv(s) && !StillDraining(s) && s.queue != [] && k !in s.stops
    ensures var all := [StopBegin(k)] + LoneStop(s, k);
            && ValidRun(s, all)
            && InPhase(Exec(s, all), k, ReturnedNil)
            && !(s.accepted <= Jobs(Exec(s, all).attempts))
  {
    LoneStopRuns(s, k);
    assert |s.accepted| > |Jobs(s.attempts)|;
  }

  lemma UnusedCaller(stops: map<nat, StopCall>) returns (k: nat)
    ensures k !in stops
  {
    k := Finite.Above(stops.Keys);
  }

  /** Exactly when Stop keeps its promise: the drain has still to make its last check of the
      channel, or nothing is queued at the call. */
  lemma StopPromiseExact(s: State)
    requires Inv(s)
    ensures NilMeansAllAttempted(s) <==> StillDraining(s) || s.queue == []
  {
    if StillDraining(s) || s.queue == [] {
      forall k, acts |
        k !in s.stops && ValidRun(s, [StopBegin(k)] + acts)
        && InPhase(Exec(s, [StopBegin(k)] + acts), k, ReturnedNil)
        ensures s.accepted <= Jobs(Exec(s, [StopBegin(k)] + acts).attempts)
      {
        CoveredStop(s, k, acts);
      }
    } else {
      var k := UnusedCaller(s.stops);
      UncoveredStop(s, k);
    }
  }

  /** A drain that was stopped with nothing to flush, and a job offered after its last look. */
  const LATE_OFFER: seq<Action> := STOPPED + [DrainExit, Offer(7)]

  const STARTED: seq<Action> := [StartBegin, StartCheck, StartAdd, StartGo]
  const SIGNALLED: seq<Action> := STARTED + [StopBegin(0), StopSignal(0)]
  const STOPPED: seq<Action> := SIGNALLED + ([DrainSeeStop, DrainReadCtx] + [FlushEmpty])

  lemma {:induction false} RunConcat(s: State, xs: seq<Action>, ys: seq<Action>)
    requires ValidRun(s, xs) && ValidRun(Exec(s, xs), ys)
    ensures ValidRun(s, xs + ys) && Exec(s, xs + ys) == Exec(Exec(s, xs), ys)
    decreases |xs|
  {
    if xs == [] {
      assert xs + ys == ys;
    } else {
      RunConcat(Step(s, xs[0]), xs[1..], ys);
      assert (xs + ys)[1..] == xs[1..] + ys;
    }
  }

  /** Nothing was offered yet. */
  predicate Untouched(s: State) {
    1 !in s.stops && s.queue == [] && s.accepted == [] && s.dropped == {} && s.attempts == [] && s.cap > 0
  }

  lemma SignalledRun(capacity: int)
    ensures ValidRun(Init(capacity), SIGNALLED)
    ensures var s := Exec(Init(capacity), SIGNALLED);
            Untouched(s) && s.drain.Looping? && s.once.Done? && s.stopClosed
  {
    var s0 := Init(capacity);
    StartRunValid(s0);
    assert STARTED == StartRun(s0);
    var s1 := Exec(s0, STARTED);
    RunTwo(s1, StopBegin(0), StopSignal(0));
    RunConcat(s0, STARTED, [StopBegin(0), StopSignal(0)]);
  }

  lemma EmptyFlushRun(s: State)
    requires Untouched(s) && s.drain.Looping? && s.once.Done? && s.stopClosed
    ensures var acts := [DrainSeeStop, DrainReadCtx] + [FlushEmpty];
            && ValidRun(s, acts) && Untouched(Exec(s, acts))
            && Exec(s, acts).drain.Returning? && Exec(s, acts).once.Done?
  {
    RunTwo(s, DrainSeeStop, DrainReadCtx);
    RunAppend(s, [DrainSeeStop, DrainReadCtx], FlushEmpty);
  }

  lemma StoppedRun(capacity: int)
    ensures ValidRun(Init(capacity), STOPPED)
    ensures var s := Exec(Init(capacity), STOPPED); Untouched(s) && s.drain.Returning? && s.once.Done?
  {
    SignalledRun(capacity);
    EmptyFlushRun(Exec(Init(capacity), SIGNALLED));
    RunConcat(Init(capacity), SIGNALLED, [DrainSeeStop, DrainReadCtx] + [FlushEmpty]);
  }

  // ------------------------------------------------- what is never attempted

  /** No drain looks at the channel any more, and none will be spawned. */
  predicate Over(s: State) {
    || s.drain.Returning? || s.drain.Exited?
    || (s.drain.NotSpawned? && (s.once.Done? || (s.stopClosed && (s.once.Fresh? || s.once.Checking?))))
  }

  lemma OverStep(s: State, a: Action)
    requires Inv(s) && Enabled(s, a) && Over(s)
    ensures Over(Step(s, a)) && Step(s, a).attempts == s.attempts
  {
  }

  lemma {:induction false} OverAttemptsNothing(s: State, acts: seq<Action>)
    requires Inv(s) && ValidRun(s, acts) && Over(s)
    ensures Over(Exec(s, acts)) && Exec(s, acts).attempts == s.attempts
    decreases |acts|
  {
    if acts != [] {
      StepInv(s, acts[0]);
      OverStep(s, acts[0]);
      OverAttemptsNothing(Step(s, acts[0]), acts[1..]);
    }
  }

  /** Some later run attempts the job. */
  ghost predicate CanAttempt(s: State, job: Job) {
    exists acts :: ValidRun(s, acts) && job in Jobs(Exec(s, acts).attempts)
  }

  /** The step that brings a queued job closer to its attempt. */
  function Closer(s: State): Action {
    match s.drain
    case NotSpawned =>
      if s.once.Fresh? then StartBegin else if s.once.Checking? then StartCheck
      else if s.once.Adding? then StartAdd else StartGo
    case Looping => DrainTake
    case Running(_) => DrainFinish
    case SawStop => DrainReadCtx
    case Flushing(_) => FlushTake
    case _ => FlushFinish
  }

  /** How many such steps there are at most. */
  function Distance(s: State): nat {
    3 * |s.queue| + (match s.drain
                     case NotSpawned =>
                       if s.once.Fresh? then 6 else if s.once.Checking? then 5 else if s.once.Adding? then 4 else 3
                     case Looping => 1
                     case Flushing(_) => 1
                     case _ => 2)
  }

  predicate Held(s: State, job: Job) {
    job in s.queue || job in InFlight(s.drain)
  }

  lemma CloserStep(s: State, job: Job)
    requires Inv(s) && !Over(s) && Held(s, job)
    ensures Enabled(s, Closer(s)) && Distance(Step(s, Closer(s))) < Distance(s)
    ensures var t := Step(s, Closer(s)); job in Jobs(t.attempts) || (!Over(t) && Held(t, job))
  {
    var t := Step(s, Closer(s));
    if s.drain.Running? {
      JobsAppend(s.attempts, Attempt(s.drain.job, Parent));
    } else if s.drain.FlushRunning? {
      JobsAppend(s.attempts, Attempt(s.drain.job, s.drain.ctx));
    } else if s.drain.Looping? || s.drain.Flushing? {
      assert s.queue == [s.queue[0]] + s.queue[1..];
    }
  }

  lemma {:induction false} HeldCanBeAttempted(s: State, job: Job)
    requires Inv(s) && !Over(s) && Held(s, job)
    ensures CanAttempt(s, job)
    decreases Distance(s)
  {
    var a := Closer(s);
    CloserStep(s, job);
    StepInv(s, a);
    var t := Step(s, a);
    if job in Jobs(t.attempts) {
      assert ValidRun(t, []) && job in Jobs(Exec(t, []).attempts);
    } else {
      HeldCanBeAttempted(t, job);
    }
    var acts :| ValidRun(t, acts) && job in Jobs(Exec(t, acts).attempts);
    RunCons(s, a, acts);
  }

  lemma QueuedNotAttempted(s: State, job: Job)
    requires Inv(s) && job in s.queue
    ensures job !in Jobs(s.attempts)
  {
    var j :| 0 <= j < |s.queue| && s.queue[j] == job;
    var at := |Jobs(s.attempts)| + |InFlight(s.drain)| + j;
    assert s.accepted[at] == job;
    assert forall i :: 0 <= i < |Jobs(s.attempts)| ==> s.accepted[i] == Jobs(s.attempts)[i];
  }

  /** A queued job can still be attempted if and only if a drain has yet to make its last check of the
      channel, or one may yet be spawned. */
  lemma AttemptableExactly(s: State, job: Job)
    requires Inv(s) && job in s.queue
    ensures CanAttempt(s, job) <==> !Over(s)
  {
    if Over(s) {
      QueuedNotAttempted(s, job);
      forall acts | ValidRun(s, acts)
        ensures job !in Jobs(Exec(s, acts).attempts)
      {
        OverAttemptsNothing(s, acts);
      }
    } else {
      HeldCanBeAttempted(s, job);
    }
  }

  /** What such a Stop leaves unattempted is lost for good, unless a Start had found the channel open and
      not yet counted its drain. */
  lemma LossIsFinalExactly(s: State, k: nat, job: Job)
    requires Inv(s) && !StillDraining(s) && job in s.queue && k !in s.stops
    ensures var all := [StopBegin(k)] + LoneStop(s, k);
            && ValidRun(s, all) && InPhase(Exec(s, all), k, ReturnedNil)
            && job !in Jobs(Exec(s, all).attempts)
            && (CanAttempt(Exec(s, all), job) <==> s.once.Adding?)
  {
    var all := [StopBegin(k)] + LoneStop(s, k);
    UncoveredStop(s, k);
    LoneStopRuns(s, k);
    RunInv(s, all);
    QueuedNotAttempted(Exec(s, all), job);
    AttemptableExactly(Exec(s, all), job);
  }

  /** In the state acts lead to, Stop call k is new, and can return nil with job 7, accepted before, never
      attempted by any later run. */
  ghost predicate Loses(capacity: int, acts: seq<Action>, k: nat)
    requires ValidRun(Init(capacity), acts)
  {
    var s := Exec(Init(capacity), acts);
    var all := [StopBegin(k)] + LoneStop(s, k);
    && s.accepted == [7] && k !in s.stops && ValidRun(s, all)
    && InPhase(Exec(s, all), k, ReturnedNil) && !CanAttempt(Exec(s, all), 7)
  }

  /** From a new client of any capacity the failing state is reached: the next Stop can return nil with
      an accepted job that is never attempted. */
  lemma LaterStopLosesJob(capacity: int)
    ensures ValidRun(Init(capacity), LATE_OFFER) && Loses(capacity, LATE_OFFER, 1)
  {
    var s0 := Init(capacity);
    StoppedRun(capacity);
    var s1 := Exec(s0, STOPPED);
    RunTwo(s1, DrainExit, Offer(7));
    RunConcat(s0, STOPPED, [DrainExit, Offer(7)]);
    InitInv(capacity);
    RunInv(s0, LATE_OFFER);
    LossIsFinalExactly(Exec(s0, LATE_OFFER), 1, 7);
  }

  /** So it is by a client that was never started: then even the first Stop can. */
  lemma StopWithoutStartLosesJob(capacity: int)
    ensures ValidRun(Init(capacity), [Offer(7)])
    ensures Exec(Init(capacity), [Offer(7)]).stops == map[] && Loses(capacity, [Offer(7)], 0)
  {
    var s0 := Init(capacity);
    InitInv(capacity);
    StepInv(s0, Offer(7));
    assert Exec(s0, [Offer(7)]) == Step(s0, Offer(7));
    LossIsFinalExactly(Step(s0, Offer(7)), 0, 7);
  }

  lemma PrefixCount(before: seq<Job>, done: seq<Job>, accepted: seq<Job>, job: Job)
    requires before <= done <= accepted && Distinct(accepted) && job in before
    ensures Count(done, job) == 1
  {
    DistinctCount(done, job);
    assert job in done;
  }

  /** The documented shutdown: Start has spawned the drain and nobody has stopped it before. */
  lemma FirstStopAttemptsAllAccepted(s: State, k: nat, acts: seq<Action>, job: Job)
    requires Inv(s) && !s.drain.NotSpawned? && !s.stopClosed
    requires k !in s.stops && ValidRun(s, [StopBegin(k)] + acts)
    requires InPhase(Exec(s, [StopBegin(k)] + acts), k, ReturnedNil)
    requires job in s.accepted
    ensures Count(Jobs(Exec(s, [StopBegin(k)] + acts).attempts), job) == 1
  {
    CoveredStop(s, k, acts);
    var t := Exec(s, [StopBegin(k)] + acts);
    RunInv(s, [StopBegin(k)] + acts);
    PrefixCount(s.accepted, Jobs(t.attempts), t.accepted, job);
  }

  // ------------------------------------------------------------- termination

  predicate IsDrainStep(a: Action) {
    a.DrainTake? || a.DrainFinish? || a.DrainSeeStop? || a.DrainReadCtx?
    || a.FlushTake? || a.FlushFinish? || a.FlushEmpty? || a.DrainExit?
  }

  function Rank(d: Drain): nat {
    match d
    case NotSpawned => 5
    case Looping => 5
    case Running(_) => 6
    case SawStop => 4
    case Flushing(_) => 2
    case FlushRunning(_, _) => 3
    case Returning => 1
    case Exited => 0
  }

  /** Bounds the drain steps left once nobody offers more jobs. */
  function Measure(s: State): nat {
    2 * |s.queue| + Rank(s.drain)
  }

  predicate NoOffers(acts: seq<Action>) {
    forall i :: 0 <= i < |acts| ==> !acts[i].Offer?
  }

  function DrainSteps(acts: seq<Action>): nat {
    if acts == [] then 0 else (if IsDrainStep(acts[0]) then 1 else 0) + DrainSteps(acts[1..])
  }

  lemma {:induction false} QuietRunBounded(s: State, acts: seq<Action>)
    requires Inv(s) && ValidRun(s, acts) && NoOffers(acts)
    ensures DrainSteps(acts) + Measure(Exec(s, acts)) <= Measure(s)
    decreases |acts|
  {
    if acts != [] {
      StepInv(s, acts[0]);
      QuietRunBounded(Step(s, acts[0]), acts[1..]);
    }
  }

  /** With no further producers and the channel closed, a live drain always has a step, and a
      run cannot hold more drain steps than Measure: so the drain exits, and leaves nothing queued. */
  lemma DrainIsForcedToExit(s: State, acts: seq<Action>)
    requires Inv(s) && ValidRun(s, acts) && NoOffers(acts) && s.stopClosed
    ensures DrainSteps(acts) <= Measure(s)
    ensures var t := Exec(s, acts);
            && (Live(t.drain) ==> exists a :: IsDrainStep(a) && Enabled(t, a))
            && (StillDraining(s) && t.drain.Exited? ==> t.queue == [] && s.accepted == Jobs(t.attempts))
  {
    QuietRunBounded(s, acts);
    RunInv(s, acts);
    StopStaysClosed(s, acts);
    var t := Exec(s, acts);
    var next := match t.drain
      case Running(_) => DrainFinish
      case SawStop => DrainReadCtx
      case Flushing(_) => (if t.queue == [] then FlushEmpty else FlushTake)
      case FlushRunning(_, _) => FlushFinish
      case Returning => DrainExit
      case _ => DrainSeeStop;
    assert IsDrainStep(next) && (Live(t.drain) ==> Enabled(t, next));
    if StillDraining(s) && t.drain.Exited? {
      QuietFlush(s, acts);
    }
  }

  lemma {:induction false} StopStaysClosed(s: State, acts: seq<Action>)
    requires ValidRun(s, acts) && s.stopClosed
    ensures Exec(s, acts).stopClosed
    decreases |acts|
  {
    if acts != [] {
      StopStaysClosed(Step(s, acts[0]), acts[1..]);
    }
  }

  lemma {:induction false} QuietFlush(s: State, acts: seq<Action>)
    requires Inv(s) && ValidRun(s, acts) && NoOffers(acts)
    requires StillDraining(s) || s.queue == []
    ensures var t := Exec(s, acts);
            && t.accepted == s.accepted
            && (StillDraining(t) || t.queue == [])
    decreases |acts|
  {
    if acts != [] {
      StepInv(s, acts[0]);
      QuietFlush(Step(s, acts[0]), acts[1..]);
    }
  }

  // ----------------------------------------------------- the object itself

  lemma RunTwo(s: State, a: Action, b: Action)
    requires Enabled(s, a) && Enabled(Step(s, a), b)
    ensures ValidRun(s, [a, b]) && Exec(s, [a, b]) == Step(Step(s, a), b)
  {
    RunAppend(s, [], a);
    RunAppend(s, [a], b);
    assert [] + [a] == [a] && [a] + [b] == [a, b];
  }

  /** A Start call that no other goroutine interrupts. */
  function StartRun(s: State): seq<Action> {
    if s.once.Done? then [StartAgain]
    else if s.stopClosed then [StartBegin, StartCheck]
    else [StartBegin, StartCheck, StartAdd, StartGo]
  }

  lemma StartRunValid(s: State)
    requires s.once.Fresh? || s.once.Done?
    ensures ValidRun(s, StartRun(s))
    ensures Exec(s, StartRun(s)) ==
            if s.once.Done? then s
            else if s.stopClosed then s.(once := Done)
            else s.(once := Done, wg := s.wg + 1, drain := Looping)
  {
    if s.once.Done? {
      RunAppend(s, [], StartAgain);
      assert [] + [StartAgain] == [StartAgain];
    } else {
      RunTwo(s, StartBegin, StartCheck);
      if !s.stopClosed {
        RunAppend(s, [StartBegin, StartCheck], StartAdd);
        RunAppend(s, [StartBegin, StartCheck] + [StartAdd], StartGo);
        assert [StartBegin, StartCheck] + [StartAdd] + [StartGo] == StartRun(s);
      }
    }
  }

  /** The steps of a flush that meets n queued jobs and no producer. */
  function FlushRun(n: nat): seq<Action> {
    if n == 0 then [FlushEmpty] else [FlushTake, FlushFinish] + FlushRun(n - 1)
  }

  lemma {:induction false} FlushRunValid(s: State)
    requires s.drain.Flushing?
    ensures ValidRun(s, FlushRun(|s.queue|))
    ensures Exec(s, FlushRun(|s.queue|)) ==
            s.(drain := Returning, queue := [], attempts := s.attempts + AttemptsUnder(s.queue, s.drain.ctx))
    decreases |s.queue|
  {
    if s.queue == [] {
      RunAppend(s, [], FlushEmpty);
      assert [] + [FlushEmpty] == [FlushEmpty];
    } else {
      var t := Step(Step(s, FlushTake), FlushFinish);
      var rest := FlushRun(|t.queue|);
      var all := [FlushTake, FlushFinish] + rest;
      FlushRunValid(t);
      assert all[1..] == [FlushFinish] + rest && all[1..][1..] == rest;
      assert AttemptsUnder(s.queue, s.drain.ctx)
          == [Attempt(s.queue[0], s.drain.ctx)] + AttemptsUnder(t.queue, s.drain.ctx);
    }
  }

  function AttemptsUnder(js: seq<Job>, ctx: Ctx): seq<Attempt> {
    seq(|js|, i requires 0 <= i < |js| => Attempt(js[i], ctx))
  }

  /** The client's fields, with the history that specifies them. Each method is what one
      goroutine does between two points where others may run. */
  class Client {
    const capacity: nat
    var jobs: seq<Job>
    var once: Once
    var wg: int
    var stopClosed: bool
    var shutdownCtx: Option<Ctx>
    var drain: Drain
    ghost var stops: map<nat, StopCall>
    ghost var accepted: seq<Job>
    ghost var dropped: set<Job>
    ghost var attempts: seq<Attempt>

    ghost function View(): State
      reads this
    {
      State(capacity, jobs, once, wg, stopClosed, shutdownCtx, drain, stops, accepted, dropped, attempts)
    }

    constructor (capacity: int)
      ensures View() == Init(capacity)
      ensures this.capacity == if capacity <= 0 then 1000 else capacity
      ensures jobs == [] && once.Fresh? && wg == 0 && !stopClosed && shutdownCtx.None? && drain.NotSpawned?
      ensures Inv(View())
    {
      this.capacity := if capacity <= 0 then DEFAULT_CAPACITY else capacity;
      jobs, once, wg, stopClosed, shutdownCtx, drain := [], Fresh, 0, false, None, NotSpawned;
      stops, accepted, dropped, attempts := map[], [], {}, [];
    }

    method Enqueue(job: Job)
      requires Inv(View()) && job !in accepted && job !in dropped
      modifies this
      ensures Inv(View()) && View() == Step(old(View()), Offer(job))
      ensures job in accepted <==> |old(jobs)| < capacity
      ensures jobs == old(jobs) + (if |old(jobs)| < capacity then [job] else [])
    {
      StepInv(View(), Offer(job));
      if |jobs| < capacity {
        jobs := jobs + [job];
        accepted := accepted + [job];
      } else {
        dropped := dropped + {job};
      }
    }

    method Start()
      requires Inv(View()) && (once.Fresh? || once.Done?)
      modifies this
      ensures ValidRun(old(View()), StartRun(old(View())))
      ensures View() == Exec(old(View()), StartRun(old(View())))
      ensures Inv(View())
      ensures once.Done?
      ensures old(once).Fresh? && !old(stopClosed) ==> drain.Looping? && wg == old(wg) + 1
      ensures old(once).Done? || old(stopClosed) ==> drain == old(drain) && wg == old(wg)
    {
      StartRunValid(View());
      RunInv(View(), StartRun(View()));
      if once.Fresh? {
        once := Done;
        if !stopClosed {
          wg := wg + 1;
          drain := Looping;
        }
      }
    }

    /** Stop up to the point where it waits. */
    method SignalStop(k: nat)
      requires Inv(View()) && k !in stops
      modifies this
      ensures ValidRun(old(View()), [StopBegin(k), StopSignal(k)])
      ensures View() == Exec(old(View()), [StopBegin(k), StopSignal(k)])
      ensures Inv(View()) && stopClosed && shutdownCtx == Some(Shutdown(k))
    {
      ghost var s := View();
      RunTwo(s, StopBegin(k), StopSignal(k));
      RunInv(s, [StopBegin(k), StopSignal(k)]);
      stops := stops[k := StopCall(Called, accepted, StillDraining(s) || jobs == [])];
      shutdownCtx := Some(Shutdown(k));
      if !stopClosed {
        stopClosed := true;
      }
      stops := stops[k := stops[k].(phase := Waiting)];
    }

    /** One pass of the drain loop; when both cases of its select are ready, pickStop chooses. */
    method DrainPass(pickStop: bool) returns (ghost acts: seq<Action>)
      requires Inv(View()) && drain.Looping? && (stopClosed || jobs != [])
      modifies this
      ensures ValidRun(old(View()), acts) && View() == Exec(old(View()), acts)
      ensures Inv(View())
      ensures drain.Flushing? <==> stopClosed && (pickStop || old(jobs) == [])
      ensures drain.Flushing? ==> Some(drain.ctx) == shutdownCtx && jobs == old(jobs) && attempts == old(attempts)
      ensures !drain.Flushing? ==> old(jobs) != [] && jobs == old(jobs)[1..]
      ensures !drain.Flushing? ==> attempts == old(attempts) + [Attempt(old(jobs)[0], Parent)]
    {
      ghost var s := View();
      if stopClosed && (pickStop || jobs == []) {
        var ctx := match shutdownCtx case Some(c) => c case None => Parent;
        drain := Flushing(ctx);
        acts := [DrainSeeStop, DrainReadCtx];
        RunTwo(s, DrainSeeStop, DrainReadCtx);
      } else {
        attempts := attempts + [Attempt(jobs[0], Parent)];
        jobs := jobs[1..];
        acts := [DrainTake, DrainFinish];
        RunTwo(s, DrainTake, DrainFinish);
      }
      RunInv(s, acts);
    }

    /** The flush loop when no producer runs beside it. */
    method FlushRemaining()
      requires Inv(View()) && drain.Flushing?
      modifies this
      ensures ValidRun(old(View()), FlushRun(|old(jobs)|))
      ensures View() == Exec(old(View()), FlushRun(|old(jobs)|))
      ensures Inv(View()) && drain.Returning? && jobs == []
      ensures |attempts| == |old(attempts)| + |old(jobs)| && attempts[..|old(attempts)|] == old(attempts)
      ensures forall i :: 0 <= i < |old(jobs)| ==>
        attempts[|old(attempts)| + i] == Attempt(old(jobs)[i], old(drain).ctx)
    {
      ghost var s := View();
      var ctx := drain.ctx;
      FlushRunValid(s);
      RunInv(s, FlushRun(|s.queue|));
      while jobs != []
        invariant attempts + AttemptsUnder(jobs, ctx) == s.attempts + AttemptsUnder(s.queue, ctx)
        invariant View() == s.(queue := jobs, attempts := attempts)
        decreases |jobs|
      {
        assert AttemptsUnder(jobs, ctx) == [Attempt(jobs[0], ctx)] + AttemptsUnder(jobs[1..], ctx);
        attempts := attempts + [Attempt(jobs[0], ctx)];
        jobs := jobs[1..];
      }
      drain := Returning;
    }
  }
}
