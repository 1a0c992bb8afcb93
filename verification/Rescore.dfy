/**
 Rescoring all active listings by cursor. The table changes between the queries:
 table(i) is the set of active listings when query number i runs.
 */
module Rescore {
  import Finite
  import opened Counting

  const IDS: nat := 0x1_0000_0000_0000_0000_0000_0000_0000_0000

  /** A UUID as the number the database orders it by. */
  type Uuid = n: nat | n < IDS

  /** The nil UUID, which the generator never produces, is where the cursor starts. */
  const NIL: Uuid := 0

  const BATCH_SIZE: nat := 200

  predicate Increasing(ids: seq<Uuid>) {
    forall i, j :: 0 <= i < j < |ids| ==> ids[i] < ids[j]
  }

  /** WHERE active = true AND id > after ORDER BY id ASC LIMIT limit */
  ghost predicate IsBatch(active: set<Uuid>, after: Uuid, limit: nat, batch: seq<Uuid>) {
    && |batch| <= limit
    && Increasing(batch)
    && (forall k :: 0 <= k < |batch| ==> batch[k] in active && after < batch[k])
    && (forall id <- active :: after < id && id !in batch ==>
          |batch| == limit && forall k :: 0 <= k < |batch| ==> batch[k] < id)
  }

  lemma LeastId(ids: set<Uuid>) returns (least: Uuid)
    requires ids != {}
    ensures least in ids && forall id <- ids :: least <= id
  {
    least := Finite.LeastExists(ids);
  }

  method ListListingsCursor(active: set<Uuid>, after: Uuid, limit: nat) returns (batch: seq<Uuid>)
    ensures IsBatch(active, after, limit, batch)
  {
    batch := [];
    var rest := set id <- active | after < id;
    while |batch| < limit && rest != {}
      invariant |batch| <= limit && Increasing(batch)
      invariant forall k :: 0 <= k < |batch| ==> batch[k] in active && after < batch[k]
      invariant forall id <- rest :: id in active && after < id && forall k :: 0 <= k < |batch| ==> batch[k] < id
      invariant forall id <- active :: after < id ==> id in batch || id in rest
      decreases rest
    {
      ghost var least := LeastId(rest);
      var next :| next in rest && forall id <- rest :: next <= id;
      batch := batch + [next];
      rest := rest - {next};
    }
  }

  method ScoreBatch(batch: seq<Uuid>, scoreOk: Uuid -> bool) returns (scored: seq<Uuid>, errs: nat)
    ensures |scored| + errs == |batch| && |scored| == Count(batch, scoreOk)
    ensures forall id :: id in scored <==> id in batch && scoreOk(id)
  {
    scored, errs := [], 0;
    var i := 0;
    while i < |batch|
      invariant 0 <= i <= |batch|
      invariant |scored| + errs == i && |scored| == Count(batch[..i], scoreOk)
      invariant forall id :: id in scored <==> id in batch[..i] && scoreOk(id)
    {
      assert batch[..i + 1] == batch[..i] + [batch[i]];
      CountSnoc(batch[..i], batch[i], scoreOk);
      if scoreOk(batch[i]) {
        scored := scored + [batch[i]];
      } else {
        errs := errs + 1;
      }
      i := i + 1;
    }
    assert batch[..|batch|] == batch;
  }

  /** Active at one of the first queries. */
  ghost predicate Sometime(table: nat -> set<Uuid>, queries: nat, id: Uuid) {
    exists i | 0 <= i < queries :: id in table(i)
  }

  /** Active at each of the first queries. */
  ghost predicate Throughout(table: nat -> set<Uuid>, queries: nat, id: Uuid) {
    forall i | 0 <= i < queries :: id in table(i)
  }

  lemma OneMoreQuery(table: nat -> set<Uuid>, queries: nat, id: Uuid)
    ensures Sometime(table, queries + 1, id) <==> Sometime(table, queries, id) || id in table(queries)
    ensures Throughout(table, queries + 1, id) <==> Throughout(table, queries, id) && id in table(queries)
  {
  }

  /** What a run that made `queries` queries visited, and whether the last of them came back empty. */
  ghost predicate Swept(table: nat -> set<Uuid>, queries: nat, cursor: Uuid, visited: seq<Uuid>) {
    && Increasing(visited)
    && (forall k :: 0 <= k < |visited| ==>
          NIL < visited[k] <= cursor && Sometime(table, queries, visited[k]))
    && (forall id: Uuid :: NIL < id <= cursor && Throughout(table, queries, id) ==> id in visited)
  }

  /** The batch of one more query extends the sweep to its last id, or, empty, ends it. */
  lemma SweepOn(table: nat -> set<Uuid>, queries: nat, cursor: Uuid, visited: seq<Uuid>, batch: seq<Uuid>)
    requires Swept(table, queries, cursor, visited) && IsBatch(table(queries), cursor, BATCH_SIZE, batch)
    ensures batch != [] ==> cursor < batch[|batch| - 1]
                            && Swept(table, queries + 1, batch[|batch| - 1], visited + batch)
    ensures batch == [] ==> Swept(table, queries + 1, cursor, visited)
    ensures batch == [] ==> forall id <- table(queries) :: id <= cursor
  {
    var all := visited + batch;
    var last := if batch == [] then cursor else batch[|batch| - 1];
    forall k | 0 <= k < |all|
      ensures NIL < all[k] <= last && Sometime(table, queries + 1, all[k])
    {
      OneMoreQuery(table, queries, all[k]);
      if k >= |visited| {
        assert all[k] == batch[k - |visited|];
      }
    }
    forall id: Uuid | NIL < id <= last && Throughout(table, queries + 1, id)
      ensures id in all
    {
      OneMoreQuery(table, queries, id);
      if id <= cursor {
        assert id in visited;
      } else {
        assert id in batch;
      }
    }
    assert batch == [] ==> all == visited;
  }

  ghost predicate Unchanging(table: nat -> set<Uuid>, s: set<Uuid>) {
    forall i :: table(i) == s
  }

  /** On a table that does not change: all full batches so far, or a short one and nothing left. */
  ghost predicate Fixed(s: set<Uuid>, queries: nat, cursor: Uuid, visited: seq<Uuid>) {
    || |visited| == BATCH_SIZE * queries
    || (queries > 0 && BATCH_SIZE * (queries - 1) < |visited| < BATCH_SIZE * queries && forall id <- s :: id <= cursor)
  }

  lemma {:induction false} IncreasingCount(ids: seq<Uuid>, s: set<Uuid>)
    requires Increasing(ids) && forall id :: id in ids <==> id in s
    ensures |ids| == |s|
    decreases |ids|
  {
    if ids == [] {
      assert s == {};
    } else {
      var k := |ids| - 1;
      assert ids == ids[..k] + [ids[k]];
      IncreasingCount(ids[..k], s - {ids[k]});
    }
  }

  /** A run that no query failure cuts short visits no listing twice; visits every listing active at
      each of its queries; visits only listings active at some query; and scores each or counts an
      error. On a table of n listings that does not change it stops after ceil(n / 200) + 1 queries,
      with scored + errors = n; each query before a failed one has brought its batch. */
  method RescoreAll(table: nat -> set<Uuid>, scoreOk: Uuid -> bool, queryFails: nat -> bool)
    returns (failed: bool, queries: nat, visited: seq<Uuid>, scored: seq<Uuid>, errs: nat)
    ensures |scored| + errs == |visited|
    ensures forall id :: id in scored <==> id in visited && scoreOk(id)
    ensures Increasing(visited)
    ensures failed ==> queries > 0 && queryFails(queries - 1) && forall i :: 0 <= i < queries - 1 ==> !queryFails(i)
    ensures !failed ==> forall i :: 0 <= i < queries ==> !queryFails(i)
    ensures !failed ==> forall id: Uuid :: NIL < id && Throughout(table, queries, id) ==> id in visited
    ensures forall id <- visited :: NIL < id && Sometime(table, queries, id)
    ensures !failed ==> forall s :: Unchanging(table, s) ==> |visited| == |s - {NIL}|
    ensures forall s :: Unchanging(table, s) ==>
              && |visited| <= 200 * (queries - 1)
              && (queries > 1 ==> 200 * (queries - 2) < |visited|)
  {
    var cursor: Uuid := NIL;
    queries, visited, scored, errs := 0, [], [], 0;
    while true
      invariant Swept(table, queries, cursor, visited)
      invariant |scored| + errs == |visited|
      invariant forall id :: id in scored <==> id in visited && scoreOk(id)
      invariant forall i :: 0 <= i < queries ==> !queryFails(i)
      invariant forall s :: Unchanging(table, s) ==> Fixed(s, queries, cursor, visited)
      decreases IDS - cursor
    {
      if queryFails(queries) {
        forall id | id in visited
          ensures NIL < id && Sometime(table, queries + 1, id)
        {
          OneMoreQuery(table, queries, id);
        }
        queries := queries + 1;
        return true, queries, visited, scored, errs;
      }
      var batch := ListListingsCursor(table(queries), cursor, BATCH_SIZE);
      SweepOn(table, queries, cursor, visited, batch);
      if |batch| == 0 {
        forall s | Unchanging(table, s)
          ensures |visited| == |s - {NIL}|
        {
          FixedVisits(table, s, queries, cursor, visited);
        }
        queries := queries + 1;
        break;
      }
      forall s | Unchanging(table, s)
        ensures Fixed(s, queries + 1, batch[|batch| - 1], visited + batch)
      {
        FixedOn(table, s, queries, cursor, visited, batch);
      }
      var ok, bad := ScoreBatch(batch, scoreOk);
      queries := queries + 1;
      visited := visited + batch;
      scored := scored + ok;
      errs := errs + bad;
      cursor := batch[|batch| - 1];
    }
    failed := false;
  }

  lemma FixedOn(table: nat -> set<Uuid>, s: set<Uuid>, queries: nat, cursor: Uuid, visited: seq<Uuid>, batch: seq<Uuid>)
    requires table(queries) == s && Fixed(s, queries, cursor, visited)
    requires IsBatch(s, cursor, BATCH_SIZE, batch) && batch != []
    ensures Fixed(s, queries + 1, batch[|batch| - 1], visited + batch)
  {
    assert batch[0] in s && batch[0] > cursor;
    assert |visited| == BATCH_SIZE * queries;
    if |batch| < BATCH_SIZE {
      forall id | id in s
        ensures id <= batch[|batch| - 1]
      {
        if cursor < id {
          assert id in batch;
        } else {
          assert batch[|batch| - 1] in batch;
        }
      }
    }
  }

  lemma FixedVisits(table: nat -> set<Uuid>, s: set<Uuid>, queries: nat, cursor: Uuid, visited: seq<Uuid>)
    requires Unchanging(table, s) && Swept(table, queries, cursor, visited)
    requires forall id <- s :: id <= cursor
    ensures |visited| == |s - {NIL}|
  {
    forall id
      ensures id in visited <==> id in s - {NIL}
    {
      if id in visited {
        var i :| 0 <= i < queries && id in table(i);
      }
    }
    IncreasingCount(visited, s - {NIL});
  }
}
