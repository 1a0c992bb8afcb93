/**
 The fragment of SQL the query builders emit: conditions over columns that may be
 NULL, compared with numbered placeholders, under three-valued logic.
 */
module Sql {
  import opened Wrappers
  import opened Like

  datatype Value = Str(s: string) | Num(n: int) | Bool(b: bool)

  datatype Truth = True | False | Unknown

  datatype Op = Eq | AtLeast | AtMost

  /** Columns are named by C. InList is `col IN ($p, ...)`, Contains is `col ILIKE '%' || $p || '%'`,
      Flag is `col = wanted` for a boolean column, and NullTest is `col IS [NOT] NULL`. */
  datatype Cond<C> =
    | Compare(col: C, op: Op, param: nat)
    | InList(col: C, params: seq<nat>)
    | Contains(col: C, param: nat)
    | Flag(col: C, wanted: bool)
    | NullTest(col: C, isNull: bool)

  function And(a: Truth, b: Truth): Truth {
    if a.False? || b.False? then False else if a.True? && b.True? then True else Unknown
  }

  function Or(a: Truth, b: Truth): Truth {
    if a.True? || b.True? then True else if a.False? && b.False? then False else Unknown
  }

  function FromBool(b: bool): Truth {
    if b then True else False
  }

  function Arg(args: seq<Value>, p: nat): Option<Value> {
    if 1 <= p <= |args| then Some(args[p - 1]) else None
  }

  function CompareValues(op: Op, a: Option<Value>, b: Option<Value>): Truth {
    if a.None? || b.None? then Unknown
    else match (op, a.value, b.value)
      case (Eq, _, _) => FromBool(a.value == b.value)
      case (AtLeast, Num(x), Num(y)) => FromBool(x >= y)
      case (AtMost, Num(x), Num(y)) => FromBool(x <= y)
      case (_, _, _) => Unknown
  }

  function AnyEqual(a: Option<Value>, args: seq<Value>, params: seq<nat>): Truth {
    if params == [] then False
    else Or(CompareValues(Eq, a, Arg(args, params[0])), AnyEqual(a, args, params[1..]))
  }

  function ContainsText(a: Option<Value>, b: Option<Value>): Truth {
    if a.None? || b.None? || !a.value.Str? || !b.value.Str? then Unknown
    else FromBool(ILike(a.value.s, Around(b.value.s)))
  }

  function Eval<C>(c: Cond<C>, args: seq<Value>, cell: C -> Option<Value>): Truth {
    match c
    case Compare(col, op, p) => CompareValues(op, cell(col), Arg(args, p))
    case InList(col, ps) => AnyEqual(cell(col), args, ps)
    case Contains(col, p) => ContainsText(cell(col), Arg(args, p))
    case Flag(col, wanted) => CompareValues(Eq, cell(col), Some(Bool(wanted)))
    case NullTest(col, isNull) => FromBool(cell(col).None? == isNull)
  }

  function EvalAll<C>(conds: seq<Cond<C>>, args: seq<Value>, cell: C -> Option<Value>): Truth {
    if conds == [] then True else And(Eval(conds[0], args, cell), EvalAll(conds[1..], args, cell))
  }

  function ParamsOf<C>(c: Cond<C>): seq<nat> {
    match c
    case Compare(_, _, p) => [p]
    case InList(_, ps) => ps
    case Contains(_, p) => [p]
    case _ => []
  }

  /** The placeholders of a WHERE clause, from left to right. */
  function Params<C>(conds: seq<Cond<C>>): seq<nat> {
    if conds == [] then [] else ParamsOf(conds[0]) + Params(conds[1..])
  }

  function Upto(n: nat): seq<nat> {
    seq(n, i => i + 1)
  }

  // ------------------------------------------------------------------ lemmas

  lemma {:induction false} ParamsSnoc<C>(conds: seq<Cond<C>>, c: Cond<C>)
    ensures Params(conds + [c]) == Params(conds) + ParamsOf(c)
    decreases |conds|
  {
    if conds == [] {
      assert conds + [c] == [c] && [c][1..] == [];
    } else {
      assert (conds + [c])[1..] == conds[1..] + [c];
      ParamsSnoc(conds[1..], c);
    }
  }

  lemma {:induction false} EvalAllSnoc<C>(conds: seq<Cond<C>>, c: Cond<C>, args: seq<Value>, cell: C -> Option<Value>)
    ensures EvalAll(conds + [c], args, cell).True? <==> EvalAll(conds, args, cell).True? && Eval(c, args, cell).True?
    decreases |conds|
  {
    if conds == [] {
      assert conds + [c] == [c] && [c][1..] == [];
    } else {
      assert (conds + [c])[1..] == conds[1..] + [c];
      EvalAllSnoc(conds[1..], c, args, cell);
    }
  }

  predicate AllAtMost(ps: seq<nat>, n: nat) {
    forall i :: 0 <= i < |ps| ==> ps[i] <= n
  }

  lemma AtMostParts(xs: seq<nat>, ys: seq<nat>, n: nat)
    requires AllAtMost(xs + ys, n)
    ensures AllAtMost(xs, n) && AllAtMost(ys, n)
  {
    assert forall i :: 0 <= i < |xs| ==> (xs + ys)[i] == xs[i];
    assert forall i :: 0 <= i < |ys| ==> (xs + ys)[|xs| + i] == ys[i];
  }

  lemma {:induction false} MoreArgsAny(a: Option<Value>, args: seq<Value>, more: seq<Value>, params: seq<nat>)
    requires AllAtMost(params, |args|)
    ensures AnyEqual(a, args + more, params) == AnyEqual(a, args, params)
    decreases |params|
  {
    if params != [] {
      MoreArgsAny(a, args, more, params[1..]);
    }
  }

  /** Appending arguments leaves the conditions built so far as they were. */
  lemma {:induction false} MoreArgs<C>(conds: seq<Cond<C>>, args: seq<Value>, more: seq<Value>,
                                         cell: C -> Option<Value>)
    requires AllAtMost(Params(conds), |args|)
    ensures EvalAll(conds, args + more, cell) == EvalAll(conds, args, cell)
    decreases |conds|
  {
    if conds != [] {
      AtMostParts(ParamsOf(conds[0]), Params(conds[1..]), |args|);
      match conds[0] {
        case Compare(_, _, p) => assert [p][0] == p;
        case InList(col, ps) => MoreArgsAny(cell(col), args, more, ps);
        case Contains(_, p) => assert [p][0] == p;
        case _ =>
      }
      MoreArgs(conds[1..], args, more, cell);
    }
  }

  /** What every step of a builder keeps: placeholders 1..n, in order, for n arguments. */
  predicate Numbered<C>(conds: seq<Cond<C>>, args: seq<Value>) {
    Params(conds) == Upto(|args|)
  }

  /** One more condition, its placeholders numbered on from the arguments there are. */
  lemma AddNumbered<C>(conds: seq<Cond<C>>, args: seq<Value>, c: Cond<C>, more: seq<Value>)
    requires Numbered(conds, args)
    requires ParamsOf(c) == seq(|more|, i => |args| + i + 1)
    ensures Numbered(conds + [c], args + more)
  {
    ParamsSnoc(conds, c);
    assert Upto(|args|) + ParamsOf(c) == Upto(|args + more|);
  }

  lemma AddCondition<C>(conds: seq<Cond<C>>, args: seq<Value>, c: Cond<C>, more: seq<Value>, cell: C -> Option<Value>)
    requires Numbered(conds, args)
    ensures EvalAll(conds + [c], args + more, cell).True? <==>
            EvalAll(conds, args, cell).True? && Eval(c, args + more, cell).True?
  {
    EvalAllSnoc(conds, c, args + more, cell);
    MoreArgs(conds, args, more, cell);
  }

  /** An IN list of the last arguments holds of exactly the values among them. */
  lemma {:induction false} InListMeans(a: Option<Value>, args: seq<Value>, from: nat)
    requires from <= |args|
    ensures AnyEqual(a, args, seq(|args| - from, i => from + i + 1)).True? <==> a.Some? && a.value in args[from..]
    decreases |args| - from
  {
    var ps := seq(|args| - from, i => from + i + 1);
    if from < |args| {
      assert ps[1..] == seq(|args| - (from + 1), i => from + 1 + i + 1);
      InListMeans(a, args, from + 1);
      assert args[from..] == [args[from]] + args[from + 1..];
    }
  }

  // ---------------------------------------------------- result rows and pages

  function Select<R>(rows: seq<R>, keep: R -> bool): seq<R> {
    if rows == [] then [] else (if keep(rows[0]) then [rows[0]] else []) + Select(rows[1..], keep)
  }

  lemma {:induction false} SelectAgrees<R(!new)>(rows: seq<R>, p: R -> bool, q: R -> bool)
    requires forall r <- rows :: p(r) <==> q(r)
    ensures Select(rows, p) == Select(rows, q)
    decreases |rows|
  {
    if rows != [] {
      assert rows[0] in rows;
      SelectAgrees(rows[1..], p, q);
    }
  }

  lemma {:induction false} SelectSnoc<R(!new)>(rows: seq<R>, r: R, keep: R -> bool)
    ensures Select(rows + [r], keep) == Select(rows, keep) + (if keep(r) then [r] else [])
    decreases |rows|
  {
    if rows == [] {
      assert [] + [r] == [r] && [r][1..] == [];
    } else {
      assert (rows + [r])[1..] == rows[1..] + [r] && (rows + [r])[0] == rows[0];
      SelectSnoc(rows[1..], r, keep);
      var head := if keep(rows[0]) then [rows[0]] else [];
      var last := if keep(r) then [r] else [];
      assert head + Select(rows[1..], keep) + last == head + (Select(rows[1..], keep) + last);
    }
  }

  /** LIMIT limit OFFSET offset */
  function Slice<R>(rows: seq<R>, offset: nat, limit: nat): (page: seq<R>)
    ensures |page| <= limit
  {
    rows[Clip(offset, |rows|)..Clip(offset + limit, |rows|)]
  }

  /** Where page i, counted from 0, begins. */
  function Start(i: nat, perPage: nat): nat {
    if i == 0 then 0 else Start(i - 1, perPage) + perPage
  }

  lemma {:induction false} StartIsProduct(i: nat, perPage: nat)
    ensures Start(i, perPage) == i * perPage
  {
    if i > 0 {
      StartIsProduct(i - 1, perPage);
    }
  }

  function Flatten<R>(pages: seq<seq<R>>): seq<R> {
    if pages == [] then [] else Flatten(pages[..|pages| - 1]) + pages[|pages| - 1]
  }

  /** rows holds, in the order `before` allows, exactly the selected rows of the table. */
  ghost predicate Ordering<R(!new)>(rows: seq<R>, selected: seq<R>, before: (R, R) -> bool) {
    multiset(rows) == multiset(selected) && SortedBy(before, rows)
  }

  ghost predicate SortedBy<R(!new)>(before: (R, R) -> bool, rows: seq<R>) {
    forall i, j :: 0 <= i < j < |rows| ==> before(rows[i], rows[j])
  }

  /** No two rows come before each other, and none before itself. */
  ghost predicate Strict<R(!new)>(before: (R, R) -> bool) {
    forall a, b :: !(before(a, b) && before(b, a))
  }

  lemma SameHead<R(!new)>(before: (R, R) -> bool, xs: seq<R>, ys: seq<R>)
    requires multiset(xs) == multiset(ys) && SortedBy(before, xs) && SortedBy(before, ys) && Strict(before)
    requires xs != [] && ys != []
    ensures xs[0] == ys[0]
  {
    assert xs[0] in multiset(ys) && ys[0] in multiset(xs);
    var i :| 0 <= i < |ys| && ys[i] == xs[0];
    var j :| 0 <= j < |xs| && xs[j] == ys[0];
    assert (i > 0 ==> before(ys[0], ys[i])) && (j > 0 ==> before(xs[0], xs[j]));
  }

  lemma SameTail<R>(xs: seq<R>, ys: seq<R>)
    requires xs != [] && ys != [] && xs[0] == ys[0] && multiset(xs) == multiset(ys)
    ensures multiset(xs[1..]) == multiset(ys[1..])
  {
    assert xs == [xs[0]] + xs[1..] && ys == [ys[0]] + ys[1..];
    assert multiset(xs[1..]) == multiset(xs) - multiset{xs[0]};
    assert multiset(ys[1..]) == multiset(ys) - multiset{ys[0]};
  }

  /** A strict order leaves one way to arrange given rows. */
  lemma {:induction false} SortedIsUnique<R(!new)>(before: (R, R) -> bool, xs: seq<R>, ys: seq<R>)
    requires multiset(xs) == multiset(ys) && SortedBy(before, xs) && SortedBy(before, ys) && Strict(before)
    ensures xs == ys
    decreases |xs|
  {
    assert |xs| == |multiset(xs)| == |multiset(ys)| == |ys|;
    if xs != [] {
      SameHead(before, xs, ys);
      SameTail(xs, ys);
      SortedIsUnique(before, xs[1..], ys[1..]);
    }
  }
}
