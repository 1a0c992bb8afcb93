/**
 The extraction queue: a table of jobs that any number of enqueuers fill and any
 number of workers, on any number of hosts, empty. A claim is a transaction that
 first locks the row it selects, passing over rows others have locked (SKIP
 LOCKED), and then updates it; between the two any other worker may act.
 */
module ExtractionQueue {
  import Finite
  import opened Wrappers

  type JobId = nat
  type ListingId = nat
  /** One worker goroutine, of whatever host. */
  type Worker = nat
  /** What a worker calls itself: its number on its host, so that hosts repeat each other's names. */
  type Name = nat

  datatype ErrText = NoError | ListingError | ExtractError | UpdateError

  /** claimant is the worker that claimed the row; the table itself stores only its name. */
  datatype Row = Row(
    listing: ListingId, priority: int, enqueuedAt: int,
    claimedBy: Option<Name>, claimant: Option<Worker>, attempts: nat, completed: Option<ErrText>)

  /** locks: rows selected by an uncommitted claim. working: jobs a worker has in hand. */
  datatype State = State(rows: map<JobId, Row>, locks: map<Worker, JobId>, working: map<Worker, JobId>)

  datatype Action =
    | Enqueue(id: JobId, listing: ListingId, priority: int, at: int)
    | Lock(w: Worker, id: JobId)
    | Claim(w: Worker, id: JobId, name: Name)       // the update commits and the worker has the job
    | ClaimUnseen(w: Worker, id: JobId, name: Name) // the update commits but the worker gets an error
    | Abort(w: Worker)
    | Complete(w: Worker, err: ErrText)
    | CompleteLost(w: Worker)
    | Crash(w: Worker)

  const INIT := State(map[], map[], map[])

  predicate Open(rows: map<JobId, Row>, id: JobId) {
    id in rows && rows[id].completed.None?
  }

  predicate Claimable(rows: map<JobId, Row>, id: JobId) {
    Open(rows, id) && rows[id].claimedBy.None?
  }

  /** ORDER BY priority DESC, enqueued_at ASC: a may be returned before b. */
  predicate Before(a: Row, b: Row) {
    a.priority > b.priority || (a.priority == b.priority && a.enqueuedAt <= b.enqueuedAt)
  }

  predicate Best(rows: map<JobId, Row>, locked: set<JobId>, id: JobId) {
    && Claimable(rows, id) && id !in locked
    && forall j <- rows :: Claimable(rows, j) && j !in locked ==> Before(rows[id], rows[j])
  }

  /** INSERT ... ON CONFLICT (listing_id) WHERE completed_at IS NULL DO NOTHING */
  function InsertJob(rows: map<JobId, Row>, id: JobId, listing: ListingId, priority: int, at: int): map<JobId, Row> {
    if exists j <- rows :: Open(rows, j) && rows[j].listing == listing then rows
    else rows[id := Row(listing, priority, at, None, None, 0, None)]
  }

  function ClaimRow(rows: map<JobId, Row>, id: JobId, w: Worker, name: Name): map<JobId, Row> {
    if id in rows
    then rows[id := rows[id].(claimedBy := Some(name), claimant := Some(w), attempts := rows[id].attempts + 1)]
    else rows
  }

  function CompleteRow(rows: map<JobId, Row>, id: JobId, err: ErrText): map<JobId, Row> {
    if id in rows then rows[id := rows[id].(completed := Some(err))] else rows
  }

  predicate Enabled(s: State, a: Action) {
    match a
    case Enqueue(id, _, _, _) => id !in s.rows
    case Lock(w, id) => w !in s.locks && w !in s.working && Best(s.rows, s.locks.Values, id)
    case Claim(w, id, _) => w in s.locks && s.locks[w] == id
    case ClaimUnseen(w, id, _) => w in s.locks && s.locks[w] == id
    case Abort(w) => w in s.locks
    case Complete(w, _) => w in s.working
    case CompleteLost(w) => w in s.working
    case Crash(w) => true
  }

  function Step(s: State, a: Action): State
    requires Enabled(s, a)
  {
    match a
    case Enqueue(id, listing, priority, at) => s.(rows := InsertJob(s.rows, id, listing, priority, at))
    case Lock(w, id) => s.(locks := s.locks[w := id])
    case Claim(w, id, name) =>
      State(ClaimRow(s.rows, id, w, name), s.locks - {w}, s.working[w := id])
    case ClaimUnseen(w, id, name) => s.(rows := ClaimRow(s.rows, id, w, name), locks := s.locks - {w})
    case Abort(w) => s.(locks := s.locks - {w})
    case Complete(w, err) => s.(rows := CompleteRow(s.rows, s.working[w], err), working := s.working - {w})
    case CompleteLost(w) => s.(working := s.working - {w})
    case Crash(w) => s.(locks := s.locks - {w}, working := s.working - {w})
  }

  // ------------------------------------------------------------- invariant

  predicate OneOpenPerListing(rows: map<JobId, Row>) {
    forall i <- rows, j <- rows :: i != j && Open(rows, i) && Open(rows, j) ==> rows[i].listing != rows[j].listing
  }

  predicate RowInv(r: Row) {
    && r.attempts == (if r.claimedBy.Some? then 1 else 0)
    && (r.completed.Some? ==> r.claimedBy.Some?)
    && (r.claimedBy.Some? <==> r.claimant.Some?)
  }

  predicate LocksInv(s: State) {
    && (forall w <- s.locks :: Claimable(s.rows, s.locks[w]) && w !in s.working)
    && (forall v <- s.locks, w <- s.locks :: v != w ==> s.locks[v] != s.locks[w])
  }

  predicate WorkingInv(s: State) {
    forall w <- s.working :: Open(s.rows, s.working[w]) && s.rows[s.working[w]].claimant == Some(w)
  }

  predicate Inv(s: State) {
    && OneOpenPerListing(s.rows)
    && (forall id <- s.rows :: RowInv(s.rows[id]))
    && LocksInv(s)
    && WorkingInv(s)
  }

  lemma EnqueueInv(s: State, id: JobId, listing: ListingId, priority: int, at: int)
    requires Inv(s) && id !in s.rows
    ensures Inv(s.(rows := InsertJob(s.rows, id, listing, priority, at)))
  {
  }

  lemma LockInv(s: State, w: Worker, id: JobId)
    requires Inv(s) && Enabled(s, Lock(w, id))
    ensures Inv(s.(locks := s.locks[w := id]))
  {
    forall v | v in s.locks
      ensures s.locks[v] != id
    {
      assert s.locks[v] in s.locks.Values;
    }
  }

  lemma ClaimKeepsRows(s: State, w: Worker, id: JobId, name: Name)
    requires Inv(s) && w in s.locks && s.locks[w] == id
    ensures var rows := ClaimRow(s.rows, id, w, name); OneOpenPerListing(rows) && forall j <- rows :: RowInv(rows[j])
  {
    var rows := ClaimRow(s.rows, id, w, name);
    assert forall j <- rows :: (Open(rows, j) <==> Open(s.rows, j)) && rows[j].listing == s.rows[j].listing;
  }

  lemma ClaimInv(s: State, w: Worker, id: JobId, name: Name)
    requires Inv(s) && w in s.locks && s.locks[w] == id
    ensures Inv(s.(rows := ClaimRow(s.rows, id, w, name), locks := s.locks - {w}))
    ensures Inv(State(ClaimRow(s.rows, id, w, name), s.locks - {w}, s.working[w := id]))
  {
    ClaimKeepsRows(s, w, id, name);
  }

  lemma CompleteInv(s: State, w: Worker, err: ErrText)
    requires Inv(s) && w in s.working
    ensures Inv(s.(rows := CompleteRow(s.rows, s.working[w], err), working := s.working - {w}))
  {
    var rows := CompleteRow(s.rows, s.working[w], err);
    assert forall j <- rows :: Open(rows, j) ==> Open(s.rows, j) && rows[j] == s.rows[j];
    assert OneOpenPerListing(rows);
    forall v | v in s.working && v != w
      ensures s.working[v] != s.working[w]
    {
      assert s.rows[s.working[v]].claimant != s.rows[s.working[w]].claimant;
    }
  }

  lemma StepInv(s: State, a: Action)
    requires Inv(s) && Enabled(s, a)
    ensures Inv(Step(s, a))
  {
    match a
    case Enqueue(id, listing, priority, at) => EnqueueInv(s, id, listing, priority, at);
    case Lock(w, id) => LockInv(s, w, id);
    case Claim(w, id, name) => ClaimInv(s, w, id, name);
    case ClaimUnseen(w, id, name) => ClaimInv(s, w, id, name);
    case Complete(w, err) => CompleteInv(s, w, err);
    case _ =>
  }

  predicate ValidRun(s: State, acts: seq<Action>)
    decreases |acts|
  {
    acts == [] || (Enabled(s, acts[0]) && ValidRun(Step(s, acts[0]), acts[1..]))
  }

  function Exec(s: State, acts: seq<Action>): State
    requires ValidRun(s, acts)
    decreases |acts|
  {
    if acts == [] then s else Exec(Step(s, acts[0]), acts[1..])
  }

  lemma {:induction false} RunInv(s: State, acts: seq<Action>)
    requires Inv(s) && ValidRun(s, acts)
    ensures Inv(Exec(s, acts))
    decreases |acts|
  {
    if acts != [] {
      StepInv(s, acts[0]);
      RunInv(Step(s, acts[0]), acts[1..]);
    }
  }

  // --------------------------------------------------- the table from the actions

  lemma {:induction false} RunSplit(s: State, xs: seq<Action>, ys: seq<Action>)
    requires ValidRun(s, xs + ys)
    ensures ValidRun(s, xs) && ValidRun(Exec(s, xs), ys) && Exec(s, xs + ys) == Exec(Exec(s, xs), ys)
    decreases |xs|
  {
    if xs == [] {
      assert xs + ys == ys;
    } else {
      assert (xs + ys)[1..] == xs[1..] + ys;
      RunSplit(Step(s, xs[0]), xs[1..], ys);
    }
  }

  /** The run up to its last action, and that action. */
  lemma RunLast(s: State, acts: seq<Action>)
    requires ValidRun(s, acts) && acts != []
    ensures ValidRun(s, Front(acts)) && Enabled(Exec(s, Front(acts)), Last(acts))
    ensures Exec(s, acts) == Step(Exec(s, Front(acts)), Last(acts))
  {
    assert acts == Front(acts) + [Last(acts)];
    RunSplit(s, Front(acts), [Last(acts)]);
    var t := Exec(s, Front(acts));
    assert [Last(acts)][1..] == [];
    assert Exec(t, [Last(acts)]) == Step(t, Last(acts));
  }

  function Front(acts: seq<Action>): seq<Action>
    requires acts != []
  {
    acts[..|acts| - 1]
  }

  function Last(acts: seq<Action>): Action
    requires acts != []
  {
    acts[|acts| - 1]
  }

  datatype Asked = Asked(listing: ListingId, priority: int, at: int)

  datatype Claimed = Claimed(name: Name, worker: Worker)

  /** The last enqueue under this id: the one that made the row, if there is a row. */
  function EnqueueOf(acts: seq<Action>, id: JobId): Option<Asked> {
    if acts == [] then None
    else match Last(acts)
      case Enqueue(j, listing, priority, at) =>
        if j == id then Some(Asked(listing, priority, at)) else EnqueueOf(Front(acts), id)
      case _ => EnqueueOf(Front(acts), id)
  }

  function ClaimOf(acts: seq<Action>, id: JobId): Option<Claimed> {
    if acts == [] then None
    else match Last(acts)
      case Claim(w, j, name) => if j == id then Some(Claimed(name, w)) else ClaimOf(Front(acts), id)
      case ClaimUnseen(w, j, name) => if j == id then Some(Claimed(name, w)) else ClaimOf(Front(acts), id)
      case _ => ClaimOf(Front(acts), id)
  }

  /** The job a worker has selected, from its lock to the end of that claim. */
  function Selected(acts: seq<Action>, w: Worker): Option<JobId> {
    if acts == [] then None
    else match Last(acts)
      case Lock(v, id) => if v == w then Some(id) else Selected(Front(acts), w)
      case Claim(v, _, _) => if v == w then None else Selected(Front(acts), w)
      case ClaimUnseen(v, _, _) => if v == w then None else Selected(Front(acts), w)
      case Abort(v) => if v == w then None else Selected(Front(acts), w)
      case Crash(v) => if v == w then None else Selected(Front(acts), w)
      case _ => Selected(Front(acts), w)
  }

  /** The job a worker has in hand, from its claim to its completion or its end. */
  function Holding(acts: seq<Action>, w: Worker): Option<JobId> {
    if acts == [] then None
    else match Last(acts)
      case Claim(v, id, _) => if v == w then Some(id) else Holding(Front(acts), w)
      case Complete(v, _) => if v == w then None else Holding(Front(acts), w)
      case CompleteLost(v) => if v == w then None else Holding(Front(acts), w)
      case Crash(v) => if v == w then None else Holding(Front(acts), w)
      case _ => Holding(Front(acts), w)
  }

  /** The error a worker that had the job in hand completed it with. */
  function OutcomeOf(acts: seq<Action>, id: JobId): Option<ErrText> {
    if acts == [] then None
    else if Last(acts).Complete? && Holding(Front(acts), Last(acts).w) == Some(id) then Some(Last(acts).err)
    else OutcomeOf(Front(acts), id)
  }

  /** The row has the listing, priority and time of its own enqueue, and so on. */
  predicate RowFrom(acts: seq<Action>, id: JobId, row: Row) {
    && EnqueueOf(acts, id) == Some(Asked(row.listing, row.priority, row.enqueuedAt))
    && (match ClaimOf(acts, id)
        case Some(c) => row.claimedBy == Some(c.name) && row.claimant == Some(c.worker)
        case None => row.claimedBy.None? && row.claimant.None?)
    && row.completed == OutcomeOf(acts, id)
  }

  ghost predicate RowsFrom(rows: map<JobId, Row>, acts: seq<Action>) {
    && (forall id <- rows :: RowFrom(acts, id, rows[id]))
    && (forall id :: id !in rows ==> ClaimOf(acts, id).None? && OutcomeOf(acts, id).None?)
  }

  ghost predicate HandsFrom(s: State, acts: seq<Action>) {
    forall w ::
      && Selected(acts, w) == (if w in s.locks then Some(s.locks[w]) else None)
      && Holding(acts, w) == (if w in s.working then Some(s.working[w]) else None)
  }

  lemma RowStep(s: State, acts: seq<Action>, id: JobId)
    requires acts != [] && Enabled(s, Last(acts))
    requires Last(acts).Complete? ==> Holding(Front(acts), Last(acts).w) == Some(s.working[Last(acts).w])
    requires id in s.rows && RowFrom(Front(acts), id, s.rows[id])
    ensures id in Step(s, Last(acts)).rows && RowFrom(acts, id, Step(s, Last(acts)).rows[id])
  {
  }

  lemma NewRowStep(s: State, acts: seq<Action>, id: JobId)
    requires acts != [] && Inv(s) && Enabled(s, Last(acts)) && HandsFrom(s, Front(acts))
    requires id !in s.rows && ClaimOf(Front(acts), id).None? && OutcomeOf(Front(acts), id).None?
    ensures ClaimOf(acts, id).None? && OutcomeOf(acts, id).None?
    ensures id in Step(s, Last(acts)).rows ==> RowFrom(acts, id, Step(s, Last(acts)).rows[id])
  {
  }

  lemma RowsStep(s: State, acts: seq<Action>)
    requires acts != [] && Inv(s) && Enabled(s, Last(acts))
    requires RowsFrom(s.rows, Front(acts)) && HandsFrom(s, Front(acts))
    ensures RowsFrom(Step(s, Last(acts)).rows, acts)
  {
    forall id
      ensures id in s.rows ==> id in Step(s, Last(acts)).rows
      ensures id in Step(s, Last(acts)).rows ==> RowFrom(acts, id, Step(s, Last(acts)).rows[id])
      ensures id !in s.rows ==> ClaimOf(acts, id).None? && OutcomeOf(acts, id).None?
    {
      if id in s.rows {
        RowStep(s, acts, id);
      } else {
        NewRowStep(s, acts, id);
      }
    }
  }

  lemma HandsStep(s: State, acts: seq<Action>)
    requires acts != [] && Enabled(s, Last(acts)) && HandsFrom(s, Front(acts))
    ensures HandsFrom(Step(s, Last(acts)), acts)
  {
  }

  /** Over every run: each row has the listing, priority and time of its own enqueue, the name of its own claim,
      and the error of the completion by the worker that had it in hand. */
  lemma {:induction false} TableFromActions(acts: seq<Action>)
    requires ValidRun(INIT, acts)
    ensures RowsFrom(Exec(INIT, acts).rows, acts) && HandsFrom(Exec(INIT, acts), acts)
    decreases |acts|
  {
    if acts != [] {
      RunLast(INIT, acts);
      TableFromActions(Front(acts));
      RunInv(INIT, Front(acts));
      RowsStep(Exec(INIT, Front(acts)), acts);
      HandsStep(Exec(INIT, Front(acts)), acts);
    }
  }

  /** A job in the table that nobody has claimed and no claim has selected. */
  ghost predicate InLine(acts: seq<Action>, id: JobId)
    requires ValidRun(INIT, acts)
  {
    id in Exec(INIT, acts).rows && ClaimOf(acts, id).None? && forall w :: Selected(acts, w) != Some(id)
  }

  /** The enqueue of id asked for more priority than that of j, or for as much, and no later. */
  predicate Ahead(acts: seq<Action>, id: JobId, j: JobId) {
    && EnqueueOf(acts, id).Some? && EnqueueOf(acts, j).Some?
    && var a, b := EnqueueOf(acts, id).value, EnqueueOf(acts, j).value;
       a.priority > b.priority || (a.priority == b.priority && a.at <= b.at)
  }

  lemma InLineExactly(acts: seq<Action>, id: JobId)
    requires ValidRun(INIT, acts)
    ensures InLine(acts, id) <==> Claimable(Exec(INIT, acts).rows, id) && id !in Exec(INIT, acts).locks.Values
  {
    var s := Exec(INIT, acts);
    TableFromActions(acts);
    RunInv(INIT, acts);
    if id in s.rows {
      assert RowFrom(acts, id, s.rows[id]) && RowInv(s.rows[id]);
    }
    if id in s.locks.Values {
      var w :| w in s.locks && s.locks[w] == id;
      assert Selected(acts, w) == Some(id);
    }
  }

  /** Over every run: a free worker can take a job if and only if it is in line and its enqueue is ahead of that
      of every other job in line. */
  lemma TakenNextExactly(acts: seq<Action>, w: Worker, id: JobId)
    requires ValidRun(INIT, acts) && Selected(acts, w).None? && Holding(acts, w).None?
    ensures Enabled(Exec(INIT, acts), Lock(w, id)) <==>
              InLine(acts, id) && forall j :: InLine(acts, j) ==> Ahead(acts, id, j)
  {
    var s := Exec(INIT, acts);
    TableFromActions(acts);
    InLineExactly(acts, id);
    forall j
      ensures InLine(acts, j) <==> Claimable(s.rows, j) && j !in s.locks.Values
      ensures id in s.rows && j in s.rows ==> (Before(s.rows[id], s.rows[j]) <==> Ahead(acts, id, j))
    {
      InLineExactly(acts, j);
      if id in s.rows && j in s.rows {
        assert RowFrom(acts, id, s.rows[id]) && RowFrom(acts, j, s.rows[j]);
      }
    }
  }

  predicate AsksFor(acts: seq<Action>, id: JobId, listing: ListingId) {
    EnqueueOf(acts, id).Some? && EnqueueOf(acts, id).value.listing == listing
  }

  /** Over every run: an enqueue adds its job if and only if every job in the table with its listing was
      completed, and touches no other. */
  lemma EnqueuedExactly(acts: seq<Action>, id: JobId, listing: ListingId, priority: int, at: int)
    requires ValidRun(INIT, acts) && Enabled(Exec(INIT, acts), Enqueue(id, listing, priority, at))
    ensures var s := Exec(INIT, acts);
            var t := Step(s, Enqueue(id, listing, priority, at));
            && (id in t.rows <==> forall j <- s.rows :: OutcomeOf(acts, j).Some? || !AsksFor(acts, j, listing))
            && t.rows - {id} == s.rows
  {
    TableFromActions(acts);
    var s := Exec(INIT, acts);
    forall j | j in s.rows
      ensures Open(s.rows, j) <==> OutcomeOf(acts, j).None?
      ensures s.rows[j].listing == listing <==> AsksFor(acts, j, listing)
    {
      assert RowFrom(acts, j, s.rows[j]);
    }
  }

  // --------------------------------------------------------------- theorems

  function Claims(acts: seq<Action>, id: JobId): nat {
    if acts == [] then 0
    else (if (acts[0].Claim? || acts[0].ClaimUnseen?) && acts[0].id == id then 1 else 0) + Claims(acts[1..], id)
  }

  function Attempts(s: State, id: JobId): nat {
    if id in s.rows then s.rows[id].attempts else 0
  }

  lemma {:induction false} ClaimsCounted(s: State, acts: seq<Action>, id: JobId)
    requires Inv(s) && ValidRun(s, acts)
    ensures Attempts(Exec(s, acts), id) == Attempts(s, id) + Claims(acts, id)
    decreases |acts|
  {
    if acts != [] {
      StepInv(s, acts[0]);
      ClaimsCounted(Step(s, acts[0]), acts[1..], id);
    }
  }

  /** Over every run: a job is claimed at most once, and its attempts column is 1 exactly when it was. */
  lemma ClaimedAtMostOnce(acts: seq<Action>, id: JobId)
    requires ValidRun(INIT, acts)
    ensures Claims(acts, id) <= 1
    ensures id in Exec(INIT, acts).rows ==>
              var r := Exec(INIT, acts).rows[id];
              r.attempts == Claims(acts, id) && (r.claimedBy.Some? <==> r.attempts == 1)
  {
    ClaimsCounted(INIT, acts, id);
    RunInv(INIT, acts);
  }

  /** Over every run: no listing has two open jobs, so no two workers process one listing at a time. */
  lemma NoListingProcessedTwiceAtOnce(acts: seq<Action>, v: Worker, w: Worker)
    requires ValidRun(INIT, acts) && v != w
    requires v in Exec(INIT, acts).working && w in Exec(INIT, acts).working
    ensures var s := Exec(INIT, acts);
            && Open(s.rows, s.working[v]) && Open(s.rows, s.working[w])
            && s.rows[s.working[v]].listing != s.rows[s.working[w]].listing
  {
    var s := Exec(INIT, acts);
    RunInv(INIT, acts);
    assert s.rows[s.working[v]].claimant != s.rows[s.working[w]].claimant;
  }

  /** A row locked by one claim stays claimable until that claim ends: whoever locks it claims the
      same row it selected, and no one else's claim comes between. */
  lemma LockedRowIsNotTaken(s: State, a: Action, w: Worker)
    requires Inv(s) && Enabled(s, a) && w in s.locks && w in Step(s, a).locks
    ensures Step(s, a).locks[w] == s.locks[w] && Claimable(Step(s, a).rows, s.locks[w])
  {
    StepInv(s, a);
    assert LocksInv(Step(s, a));
  }

  predicate InHand(s: State, id: JobId) {
    exists w <- s.working :: s.working[w] == id
  }

  /** A claim whose worker died, or whose completion was lost, is never undone: the job stays open
      and claimed through every later run, so its listing can never be queued again. */
  lemma {:induction false} AbandonedJobBlocksItsListing(s: State, acts: seq<Action>, id: JobId)
    requires Inv(s) && ValidRun(s, acts)
    requires Open(s.rows, id) && s.rows[id].claimedBy.Some? && !InHand(s, id)
    ensures var t := Exec(s, acts);
            && id in t.rows && t.rows[id] == s.rows[id] && !InHand(t, id)
            && forall j <- t.rows :: Open(t.rows, j) && t.rows[j].listing == s.rows[id].listing ==> j == id
    decreases |acts|
  {
    if acts != [] {
      var t := Step(s, acts[0]);
      StepInv(s, acts[0]);
      assert t.rows[id] == s.rows[id] && !InHand(t, id) by {
        if acts[0].Complete? {
          assert s.working[acts[0].w] != id;
        }
        if acts[0].Claim? {
          assert Claimable(s.rows, s.locks[acts[0].w]);
        }
      }
      AbandonedJobBlocksItsListing(t, acts[1..], id);
    }
  }

  // ---------------------------------------------- which open jobs can still end

  /** Some later run of the queue completes the job. */
  ghost predicate CanComplete(s: State, id: JobId) {
    exists acts ::
      ValidRun(s, acts) && id in Exec(s, acts).rows && Exec(s, acts).rows[id].completed.Some?
  }

  lemma RunCons(s: State, a: Action, rest: seq<Action>)
    requires Enabled(s, a) && ValidRun(Step(s, a), rest)
    ensures ValidRun(s, [a] + rest) && Exec(s, [a] + rest) == Exec(Step(s, a), rest)
  {
    assert ([a] + rest)[1..] == rest;
  }

  lemma LaterCompletes(s: State, a: Action, id: JobId)
    requires Enabled(s, a) && CanComplete(Step(s, a), id)
    ensures CanComplete(s, id)
  {
    var acts :| && ValidRun(Step(s, a), acts) && id in Exec(Step(s, a), acts).rows
                && Exec(Step(s, a), acts).rows[id].completed.Some?;
    RunCons(s, a, acts);
  }

  lemma InHandCompletes(s: State, w: Worker, id: JobId)
    requires Inv(s) && w in s.working && s.working[w] == id
    ensures CanComplete(s, id)
  {
    var a := Complete(w, NoError);
    assert ValidRun(Step(s, a), []) && Exec(Step(s, a), []).rows[id].completed.Some?;
    LaterCompletes(s, a, id);
  }

  lemma LockedCompletes(s: State, w: Worker, id: JobId)
    requires Inv(s) && w in s.locks && s.locks[w] == id
    ensures CanComplete(s, id)
  {
    var a := Claim(w, id, 0);
    StepInv(s, a);
    InHandCompletes(Step(s, a), w, id);
    LaterCompletes(s, a, id);
  }

  function Waiting(s: State): set<JobId> {
    set j <- s.rows | Claimable(s.rows, j) && j !in s.locks.Values
  }

  lemma {:induction false} BestExists(rows: map<JobId, Row>, ids: set<JobId>) returns (best: JobId)
    requires ids != {} && ids <= rows.Keys
    ensures best in ids && forall j <- ids :: Before(rows[best], rows[j])
    decreases ids
  {
    var x :| x in ids;
    best := x;
    if ids != {x} {
      var rest := BestExists(rows, ids - {x});
      best := if Before(rows[rest], rows[x]) then rest else x;
      assert forall j <- ids :: j == x || j in ids - {x};
    }
  }

  lemma LockLeavesRest(s: State, w: Worker, best: JobId)
    requires w !in s.locks
    ensures Waiting(s.(locks := s.locks[w := best])) == Waiting(s) - {best}
  {
    var locks := s.locks[w := best];
    assert locks.Values == s.locks.Values + {best} by {
      forall j | j in s.locks.Values
        ensures j in locks.Values
      {
        var v :| v in s.locks && s.locks[v] == j;
        assert locks[v] == j;
      }
      assert locks[w] == best;
    }
  }

  /** A waiting job is reached when workers take the jobs before it, best first. */
  lemma {:induction false} WaitingCompletes(s: State, id: JobId)
    requires Inv(s) && id in Waiting(s)
    ensures CanComplete(s, id)
    decreases |Waiting(s)|
  {
    var best := BestExists(s.rows, Waiting(s));
    var w := Finite.Above(s.locks.Keys + s.working.Keys);
    assert w !in s.locks.Keys + s.working.Keys;
    var a := Lock(w, best);
    StepInv(s, a);
    if best == id {
      LockedCompletes(Step(s, a), w, id);
    } else {
      LockLeavesRest(s, w, best);
      WaitingCompletes(Step(s, a), id);
    }
    LaterCompletes(s, a, id);
  }

  /** An open job can still be completed if and only if nobody has claimed it or a worker has it in
      hand; after any other claim it stays open for ever. */
  lemma CompletableExactly(s: State, id: JobId)
    requires Inv(s) && Open(s.rows, id)
    ensures CanComplete(s, id) <==> s.rows[id].claimedBy.None? || InHand(s, id)
  {
    if InHand(s, id) {
      var w :| w in s.working && s.working[w] == id;
      InHandCompletes(s, w, id);
    } else if s.rows[id].claimedBy.None? {
      if id in s.locks.Values {
        var w :| w in s.locks && s.locks[w] == id;
        LockedCompletes(s, w, id);
      } else {
        WaitingCompletes(s, id);
      }
    } else {
      forall acts | ValidRun(s, acts)
        ensures !(id in Exec(s, acts).rows && Exec(s, acts).rows[id].completed.Some?)
      {
        AbandonedJobBlocksItsListing(s, acts, id);
      }
    }
  }

  /** A worker that dies with its job in hand. */
  const CRASH: seq<Action> := [Enqueue(1, 2, 0, 0), Lock(3, 1), Claim(3, 1, 0), Crash(3)]

  /** So a crash is enough: the empty queue reaches a job that no later run completes, and every later
      job of its listing is turned away. */
  lemma CrashAbandonsItsJob()
    ensures ValidRun(INIT, CRASH)
    ensures var s := Exec(INIT, CRASH);
            && Inv(s) && Open(s.rows, 1) && s.rows[1].listing == 2 && !CanComplete(s, 1)
            && forall id, priority, at :: InsertJob(s.rows, id, 2, priority, at) == s.rows
  {
    var s1 := Step(INIT, CRASH[0]);
    assert s1.rows == map[1 := Row(2, 0, 0, None, None, 0, None)];
    assert s1.locks.Values == {};
    var s2 := Step(s1, CRASH[1]);
    var s3 := Step(s2, CRASH[2]);
    var s4 := Step(s3, CRASH[3]);
    RunCons(s3, CRASH[3], []);
    RunCons(s2, CRASH[2], [CRASH[3]]);
    RunCons(s1, CRASH[1], [CRASH[2]] + [CRASH[3]]);
    RunCons(INIT, CRASH[0], [CRASH[1]] + ([CRASH[2]] + [CRASH[3]]));
    assert CRASH == [CRASH[0]] + ([CRASH[1]] + ([CRASH[2]] + [CRASH[3]]));
    RunInv(INIT, CRASH);
    assert Exec(INIT, CRASH) == s4;
    assert Open(s4.rows, 1) && !InHand(s4, 1);
    CompletableExactly(s4, 1);
  }

  // ---------------------------------------------------------- the statements

  class Queue {
    var rows: map<JobId, Row>
    /** Every CompleteExtractionJob call that was issued, whether or not it took effect. */
    ghost var completions: seq<(JobId, ErrText)>

    method EnqueueExtraction(id: JobId, listing: ListingId, priority: int, at: int)
      requires id !in rows && OneOpenPerListing(rows)
      modifies this`rows
      ensures rows == InsertJob(old(rows), id, listing, priority, at) && OneOpenPerListing(rows)
      ensures rows == if exists j <- old(rows) :: Open(old(rows), j) && old(rows)[j].listing == listing then old(rows)
                      else old(rows)[id := Row(listing, priority, at, None, None, 0, None)]
      ensures exists j <- rows :: Open(rows, j) && rows[j].listing == listing
    {
      if forall j <- rows :: rows[j].completed.Some? || rows[j].listing != listing {
        assert forall j <- rows :: !(Open(rows, j) && rows[j].listing == listing);
        rows := rows[id := Row(listing, priority, at, None, None, 0, None)];
        assert Open(rows, id);
      } else {
        var j :| j in rows && rows[j].completed.None? && rows[j].listing == listing;
        assert Open(rows, j);
      }
    }

    /** The SELECT of the claim: of the rows nobody claimed, completed or has locked, one of highest
        priority and among those the oldest; none only if there is none. */
    method SelectClaim(locked: set<JobId>) returns (best: Option<JobId>)
      ensures best.None? <==> forall j <- rows :: Claimable(rows, j) ==> j in locked
      ensures best.Some? ==> Best(rows, locked, best.value)
    {
      best := None;
      var left := rows.Keys;
      while left != {}
        invariant left <= rows.Keys
        invariant best.None? ==> forall j <- rows :: j !in left && Claimable(rows, j) ==> j in locked
        invariant best.Some? ==>
                    && Claimable(rows, best.value) && best.value !in locked
                    && forall j <- rows :: j !in left && Claimable(rows, j) && j !in locked
                                           ==> Before(rows[best.value], rows[j])
        decreases left
      {
        var j :| j in left;
        left := left - {j};
        if Claimable(rows, j) && j !in locked {
          if best.None? || !Before(rows[best.value], rows[j]) {
            best := Some(j);
          }
        }
      }
    }

    method DequeueOne(w: Worker, name: Name, locked: set<JobId>) returns (job: Option<JobId>)
      modifies this`rows
      ensures job.None? ==> rows == old(rows) && forall j <- rows :: Claimable(rows, j) ==> j in locked
      ensures job.Some? ==> Best(old(rows), locked, job.value) && rows == ClaimRow(old(rows), job.value, w, name)
      ensures job.Some? ==>
                var row := old(rows)[job.value];
                && rows == old(rows)[job.value := rows[job.value]]
                && rows[job.value] == Row(row.listing, row.priority, row.enqueuedAt, Some(name), Some(w),
                                          row.attempts + 1, None)
      ensures job.Some? ==>
                forall j <- old(rows) :: Claimable(old(rows), j) && j !in locked ==>
                  var row := old(rows)[job.value];
                  || row.priority > old(rows)[j].priority
                  || (row.priority == old(rows)[j].priority && row.enqueuedAt <= old(rows)[j].enqueuedAt)
    {
      job := SelectClaim(locked);
      if job.Some? {
        var row := rows[job.value];
        rows := rows[job.value := row.(claimedBy := Some(name), claimant := Some(w), attempts := row.attempts + 1)];
      }
    }

    method CompleteExtractionJob(id: JobId, err: ErrText, lost: bool)
      modifies this
      ensures rows == if lost then old(rows) else CompleteRow(old(rows), id, err)
      ensures rows == if lost || id !in old(rows) then old(rows)
                      else old(rows)[id := old(rows)[id].(completed := Some(err))]
      ensures completions == old(completions) + [(id, err)]
    {
      completions := completions + [(id, err)];
      if !lost && id in rows {
        rows := rows[id := rows[id].(completed := Some(err))];
      }
    }

    /** A claimed job, whatever fails: exactly one completion is issued, with the first error that
        stops the job; a failed scoring does not, but it keeps the alerts from being evaluated. */
    method ProcessExtractionJob(id: JobId, listingOk: bool, extractOk: bool, updateOk: bool, scoreOk: bool, lost: bool)
      returns (alertsEvaluated: bool)
      modifies this
      ensures |completions| == |old(completions)| + 1 && old(completions) < completions
      ensures completions[|old(completions)|] ==
              (id, if !listingOk then ListingError else if !extractOk then ExtractError
                   else if !updateOk then UpdateError else NoError)
      ensures rows == if lost then old(rows) else CompleteRow(old(rows), id, completions[|old(completions)|].1)
      ensures alertsEvaluated <==> listingOk && extractOk && updateOk && scoreOk
    {
      alertsEvaluated := false;
      if !listingOk {
        CompleteExtractionJob(id, ListingError, lost);
        return;
      }
      if !extractOk {
        CompleteExtractionJob(id, ExtractError, lost);
        return;
      }
      if !updateOk {
        CompleteExtractionJob(id, UpdateError, lost);
        return;
      }
      if scoreOk {
        alertsEvaluated := true;
      }
      CompleteExtractionJob(id, NoError, lost);
    }
  }
}
