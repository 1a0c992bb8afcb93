/**
 Windows of an ordered result when the order leaves ties: each window is answered
 by its own query, and each query may break the ties in its own way.
 */
module Windows {
  import opened Wrappers
  import opened Sql

  /** Any two rows are ordered one way or the other, or tied; and so along any chain. */
  ghost predicate Preorder<R(!new)>(before: (R, R) -> bool) {
    && (forall a, b :: before(a, b) || before(b, a))
    && (forall a, b, c :: before(a, b) && before(b, c) ==> before(a, c))
  }

  ghost predicate Distinct<R>(rows: seq<R>) {
    forall i, j :: 0 <= i < j < |rows| ==> rows[i] != rows[j]
  }

  lemma {:induction false} SelectCounts<R(!new)>(rows: seq<R>, keep: R -> bool, r: R)
    ensures multiset(Select(rows, keep))[r] == if keep(r) then multiset(rows)[r] else 0
    decreases |rows|
  {
    if rows != [] {
      SelectCounts(rows[1..], keep, r);
      assert rows == [rows[0]] + rows[1..];
    }
  }

  lemma SelectSameRows<R(!new)>(xs: seq<R>, ys: seq<R>, keep: R -> bool)
    requires multiset(xs) == multiset(ys)
    ensures multiset(Select(xs, keep)) == multiset(Select(ys, keep))
  {
    forall r
      ensures multiset(Select(xs, keep))[r] == multiset(Select(ys, keep))[r]
    {
      SelectCounts(xs, keep, r);
      SelectCounts(ys, keep, r);
    }
  }

  lemma {:induction false} SelectNone<R(!new)>(rows: seq<R>, keep: R -> bool)
    requires forall i :: 0 <= i < |rows| ==> !keep(rows[i])
    ensures Select(rows, keep) == []
    decreases |rows|
  {
    if rows != [] {
      SelectNone(rows[1..], keep);
    }
  }

  /** What is kept comes first, so it is a prefix. */
  lemma {:induction false} SelectPrefix<R(!new)>(rows: seq<R>, keep: R -> bool)
    requires forall i, j :: 0 <= i < j < |rows| && keep(rows[j]) ==> keep(rows[i])
    ensures |Select(rows, keep)| <= |rows| && Select(rows, keep) == rows[..|Select(rows, keep)|]
    decreases |rows|
  {
    if rows != [] {
      if keep(rows[0]) {
        SelectPrefix(rows[1..], keep);
      } else {
        SelectNone(rows, keep);
      }
    }
  }

  lemma {:induction false} SelectIs<R(!new)>(rows: seq<R>, keep: R -> bool, b: nat)
    requires b <= |rows|
    requires forall i :: 0 <= i < |rows| ==> (keep(rows[i]) <==> i < b)
    ensures Select(rows, keep) == rows[..b]
    decreases |rows|
  {
    if b == 0 {
      SelectNone(rows, keep);
    } else {
      SelectIs(rows[1..], keep, b - 1);
      assert rows[..b] == [rows[0]] + rows[1..][..b - 1];
    }
  }

  /** Where the order is strict, every arrangement of the rows has the same ones before. */
  lemma PrefixFixed<R(!new)>(before: (R, R) -> bool, xs: seq<R>, ys: seq<R>, b: nat)
    requires Preorder(before) && SortedBy(before, xs) && SortedBy(before, ys) && multiset(xs) == multiset(ys)
    requires b <= |xs| && (0 < b < |xs| ==> !before(xs[b], xs[b - 1]))
    ensures |ys| == |xs| && multiset(xs[..b]) == multiset(ys[..b])
  {
    assert |xs| == |multiset(xs)| == |multiset(ys)| == |ys|;
    if b == |xs| {
      assert xs[..b] == xs && ys[..b] == ys;
    } else if b > 0 {
      var keep := (r: R) => before(r, xs[b - 1]);
      forall i | 0 <= i < |xs|
        ensures keep(xs[i]) <==> i < b
      {
        if i < b - 1 {
          assert before(xs[i], xs[b - 1]);
        } else if i > b {
          assert before(xs[b], xs[i]);
        }
      }
      SelectIs(xs, keep, b);
      SelectPrefix(ys, keep);
      SelectSameRows(xs, ys, keep);
      assert |Select(ys, keep)| == |multiset(Select(ys, keep))| == |multiset(xs[..b])| == b;
    }
  }

  /** Window k of an arrangement. */
  function Window<R>(rows: seq<R>, k: nat, limit: nat): seq<R> {
    Slice(rows, Start(k, limit), limit)
  }

  function Concat<R>(parts: nat -> seq<R>, k: nat): seq<R> {
    if k == 0 then [] else Concat(parts, k - 1) + parts(k - 1)
  }

  /** The answer to each window, where query i arranged the rows as all(i). */
  function Answers<R>(all: nat -> seq<R>, limit: nat): nat -> seq<R> {
    (i: nat) => Window(all(i), i, limit)
  }

  /** The answers to windows 0 to k - 1 put together. */
  function Joined<R>(all: nat -> seq<R>, limit: nat, k: nat): seq<R> {
    Concat(Answers(all, limit), k)
  }

  /** Where window k begins among n rows. */
  function Edge(k: nat, limit: nat, n: nat): (e: nat)
    ensures e <= n
  {
    Clip(Start(k, limit), n)
  }

  ghost predicate Arrangements<R(!new)>(before: (R, R) -> bool, selected: seq<R>, all: nat -> seq<R>) {
    forall i :: Ordering(all(i), selected, before)
  }

  /** However the queries break ties, windows that cover the rows hold each exactly once. */
  ghost predicate AlwaysTile<R(!new)>(before: (R, R) -> bool, selected: seq<R>, limit: nat) {
    forall all: nat -> seq<R>, n: nat :: Arrangements(before, selected, all) && Start(n, limit) >= |selected| ==>
      multiset(Joined(all, limit, n)) == multiset(selected)
  }

  /** No two tied rows meet at the edge of a window. */
  ghost predicate NoTieAcross<R(!new)>(before: (R, R) -> bool, selected: seq<R>, limit: nat) {
    forall xs, i: nat :: Ordering(xs, selected, before) && 0 < Start(i, limit) < |xs| ==>
      !before(xs[Start(i, limit)], xs[Start(i, limit) - 1])
  }

  lemma WindowIs<R>(rows: seq<R>, k: nat, limit: nat)
    ensures Edge(k, limit, |rows|) <= Edge(k + 1, limit, |rows|)
    ensures Window(rows, k, limit) == rows[Edge(k, limit, |rows|)..Edge(k + 1, limit, |rows|)]
  {
  }

  lemma CutAt<R(!new)>(rows: seq<R>, from: nat, to: nat)
    requires from <= to <= |rows|
    ensures multiset(rows[..to]) == multiset(rows[..from]) + multiset(rows[from..to])
  {
    assert rows[..to] == rows[..from] + rows[from..to];
  }

  lemma EdgeFixed<R(!new)>(before: (R, R) -> bool, selected: seq<R>, limit: nat, xs: seq<R>, ys: seq<R>, k: nat)
    requires Preorder(before) && NoTieAcross(before, selected, limit)
    requires Ordering(xs, selected, before) && Ordering(ys, selected, before)
    ensures |ys| == |xs|
    ensures multiset(xs[..Edge(k, limit, |xs|)]) == multiset(ys[..Edge(k, limit, |xs|)])
  {
    PrefixFixed(before, xs, ys, Edge(k, limit, |xs|));
  }

  lemma WindowFixed<R(!new)>(before: (R, R) -> bool, selected: seq<R>, limit: nat, xs: seq<R>, ys: seq<R>, k: nat)
    requires Preorder(before) && NoTieAcross(before, selected, limit)
    requires Ordering(xs, selected, before) && Ordering(ys, selected, before)
    ensures multiset(Window(ys, k, limit)) == multiset(Window(xs, k, limit))
  {
    EdgeFixed(before, selected, limit, xs, ys, k);
    EdgeFixed(before, selected, limit, xs, ys, k + 1);
    WindowIs(xs, k, limit);
    WindowIs(ys, k, limit);
    var from, to := Edge(k, limit, |xs|), Edge(k + 1, limit, |xs|);
    CutAt(xs, from, to);
    CutAt(ys, from, to);
    assert multiset(xs[from..to]) == multiset(xs[..to]) - multiset(xs[..from]);
    assert multiset(ys[from..to]) == multiset(ys[..to]) - multiset(ys[..from]);
  }

  lemma {:induction false} SameParts<R(!new)>(parts: nat -> seq<R>, others: nat -> seq<R>, k: nat)
    requires forall j :: multiset(parts(j)) == multiset(others(j))
    ensures multiset(Concat(parts, k)) == multiset(Concat(others, k))
    decreases k
  {
    if k > 0 {
      SameParts(parts, others, k - 1);
    }
  }

  lemma SwapTied<R(!new)>(before: (R, R) -> bool, xs: seq<R>, b: nat) returns (ys: seq<R>)
    requires Preorder(before) && SortedBy(before, xs) && 0 < b < |xs| && before(xs[b], xs[b - 1])
    ensures ys == xs[b - 1 := xs[b]][b := xs[b - 1]]
    ensures SortedBy(before, ys) && multiset(ys) == multiset(xs)
  {
    ys := xs[b - 1 := xs[b]][b := xs[b - 1]];
    forall i, j | 0 <= i < j < |ys|
      ensures before(ys[i], ys[j])
    {
      var a := if i == b then b - 1 else if i == b - 1 then b else i;
      var c := if j == b then b - 1 else if j == b - 1 then b else j;
      assert ys[i] == xs[a] && ys[j] == xs[c];
    }
  }

  /** The first i windows from one arrangement, the rest from another. */
  function TwoWays<R>(xs: seq<R>, ys: seq<R>, i: nat): nat -> seq<R> {
    (j: nat) => if j < i then xs else ys
  }

  lemma TwoWaysNext<R(!new)>(xs: seq<R>, ys: seq<R>, from: nat, mid: nat, to: nat)
    requires from <= mid <= to <= |ys| == |xs|
    ensures xs[..mid] + xs[mid..to] == xs[..to]
    ensures xs[..from] + ys[from..mid] + ys[mid..to] == xs[..from] + ys[from..to]
  {
    assert ys[from..mid] + ys[mid..to] == ys[from..to];
  }

  lemma {:induction false} TwoWaysJoined<R(!new)>(xs: seq<R>, ys: seq<R>, i: nat, k: nat, limit: nat)
    requires |xs| == |ys|
    ensures var from, to := Edge(i, limit, |xs|), Edge(k, limit, |xs|);
            if k <= i then Joined(TwoWays(xs, ys, i), limit, k) == xs[..to]
            else from <= to && Joined(TwoWays(xs, ys, i), limit, k) == xs[..from] + ys[from..to]
    decreases k
  {
    if k > 0 {
      var j := k - 1;
      TwoWaysJoined(xs, ys, i, j, limit);
      var from, mid, to := Edge(i, limit, |xs|), Edge(j, limit, |xs|), Edge(k, limit, |xs|);
      WindowIs(TwoWays(xs, ys, i)(j), j, limit);
      if k <= i {
        TwoWaysNext(xs, ys, 0, mid, to);
      } else {
        TwoWaysNext(xs, ys, from, if j == i then from else mid, to);
      }
    }
  }

  lemma {:induction false} StartGrows(i: nat, limit: nat)
    requires limit >= 1
    ensures Start(i, limit) >= i
  {
    if i > 0 {
      StartGrows(i - 1, limit);
    }
  }

  lemma {:induction false} DistinctCounts<R(!new)>(rows: seq<R>, r: R)
    requires Distinct(rows)
    ensures multiset(rows)[r] <= 1
    decreases |rows|
  {
    if rows != [] {
      DistinctCounts(rows[1..], r);
      assert rows == [rows[0]] + rows[1..];
      assert rows[0] !in rows[1..];
    }
  }

  lemma Twice<R(!new)>(xs: seq<R>, ys: seq<R>, u: R)
    requires xs != [] && ys != [] && xs[|xs| - 1] == u == ys[0]
    ensures multiset(xs + ys)[u] >= 2
  {
    assert u in multiset(xs) && u in multiset(ys);
  }

  lemma TwoWaysArranged<R(!new)>(before: (R, R) -> bool, selected: seq<R>, xs: seq<R>, ys: seq<R>, i: nat)
    requires Ordering(xs, selected, before) && Ordering(ys, selected, before)
    ensures Arrangements(before, selected, TwoWays(xs, ys, i))
  {
  }

  /** Putting the windows up to a tie from one arrangement and the rest from its swap shows a row twice. */
  lemma TwoWaysRepeat<R(!new)>(xs: seq<R>, ys: seq<R>, i: nat, limit: nat)
    requires |xs| == |ys| && limit >= 1 && 0 < Start(i, limit) < |xs|
    requires xs[Start(i, limit) - 1] == ys[Start(i, limit)]
    ensures multiset(Joined(TwoWays(xs, ys, i), limit, |xs|))[ys[Start(i, limit)]] >= 2
  {
    var b, m := Start(i, limit), |xs|;
    StartGrows(m, limit);
    StartGrows(i, limit);
    TwoWaysJoined(xs, ys, i, m, limit);
    Twice(xs[..b], ys[b..m], xs[b - 1]);
  }

  lemma TiedWindowsFail<R(!new)>(before: (R, R) -> bool, selected: seq<R>, limit: nat, xs: seq<R>, i: nat)
    requires Preorder(before) && limit >= 1 && Distinct(selected) && Ordering(xs, selected, before)
    requires 0 < Start(i, limit) < |xs| && before(xs[Start(i, limit)], xs[Start(i, limit) - 1])
    ensures !AlwaysTile(before, selected, limit)
  {
    var m := |selected|;
    var ys := SwapTied(before, xs, Start(i, limit));
    assert |xs| == |multiset(xs)| == |multiset(selected)| == m;
    StartGrows(m, limit);
    TwoWaysArranged(before, selected, xs, ys, i);
    TwoWaysRepeat(xs, ys, i, limit);
    DistinctCounts(selected, ys[Start(i, limit)]);
    var all := TwoWays(xs, ys, i);
    assert multiset(Joined(all, limit, m)) != multiset(selected);
  }

  lemma NoTieTiles<R(!new)>(before: (R, R) -> bool, selected: seq<R>, limit: nat, all: nat -> seq<R>, n: nat)
    requires Preorder(before) && NoTieAcross(before, selected, limit)
    requires Arrangements(before, selected, all) && Start(n, limit) >= |selected|
    ensures multiset(Joined(all, limit, n)) == multiset(selected)
  {
    var xs := all(0);
    var one := TwoWays(xs, xs, 0);
    forall j
      ensures multiset(Answers(all, limit)(j)) == multiset(Answers(one, limit)(j))
    {
      WindowFixed(before, selected, limit, xs, all(j), j);
    }
    SameParts(Answers(all, limit), Answers(one, limit), n);
    TwoWaysJoined(xs, xs, 0, n, limit);
    AllRows(xs, selected, n, limit);
  }

  lemma AllRows<R(!new)>(xs: seq<R>, selected: seq<R>, k: nat, limit: nat)
    requires multiset(xs) == multiset(selected) && Start(k, limit) >= |selected|
    ensures multiset(xs[..Edge(k, limit, |xs|)]) == multiset(selected)
  {
    assert |xs| == |multiset(xs)| == |multiset(selected)| == |selected|;
    assert xs[..|xs|] == xs;
  }

  /** Windows hold each row exactly once, however ties fall in each query, if and only if no tie lies
      across the edge of a window. */
  lemma TileExactly<R(!new)>(before: (R, R) -> bool, selected: seq<R>, limit: nat)
    requires Preorder(before) && limit >= 1 && Distinct(selected)
    ensures AlwaysTile(before, selected, limit) <==> NoTieAcross(before, selected, limit)
  {
    if NoTieAcross(before, selected, limit) {
      forall all: nat -> seq<R>, n: nat | Arrangements(before, selected, all) && Start(n, limit) >= |selected|
        ensures multiset(Joined(all, limit, n)) == multiset(selected)
      {
        NoTieTiles(before, selected, limit, all, n);
      }
    } else {
      var xs, i: nat :| Ordering(xs, selected, before) && 0 < Start(i, limit) < |xs|
                        && before(xs[Start(i, limit)], xs[Start(i, limit) - 1]);
      TiedWindowsFail(before, selected, limit, xs, i);
    }
  }
}
