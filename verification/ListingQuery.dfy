/**
 The listing query compiler: optional filters become a WHERE clause with numbered
 placeholders and their arguments, one branch a filter.
 */
module ListingQuery {
  import opened Wrappers
  import opened Sql
  import Windows

  const DEFAULT_LIMIT := 50
  const MAX_LIMIT := 500

  datatype Column = ComponentType | Score | ProductKey | SellerFeedback | ConditionNorm

  /** A listings row, as far as the filters and sorts look; None is NULL. */
  datatype Row = Row(
    id: nat, componentType: Option<string>, score: Option<int>, productKey: Option<string>,
    sellerFeedback: Option<int>, conditionNorm: Option<string>, price: real, firstSeen: int)

  datatype Query = Query(
    componentType: Option<string>, minScore: Option<int>, maxScore: Option<int>, productKey: Option<string>,
    sellerMinFB: Option<int>, conditions: seq<string>, limit: int, offset: int, orderBy: string)

  datatype Order = ByScore | ByPrice | ByFirstSeen

  /** The data query; the count query is its WHERE clause over the same table. */
  datatype DataSql = DataSql(conds: seq<Cond<Column>>, order: Order, limit: int, offset: int)

  function StrCell(o: Option<string>): Option<Value> {
    if o.Some? then Some(Str(o.value)) else None
  }

  function NumCell(o: Option<int>): Option<Value> {
    if o.Some? then Some(Num(o.value)) else None
  }

  function Cell(r: Row): Column -> Option<Value> {
    (c: Column) => match c
      case ComponentType => StrCell(r.componentType)
      case Score => NumCell(r.score)
      case ProductKey => StrCell(r.productKey)
      case SellerFeedback => NumCell(r.sellerFeedback)
      case ConditionNorm => StrCell(r.conditionNorm)
  }

  predicate Holds(conds: seq<Cond<Column>>, args: seq<Value>, r: Row) {
    EvalAll(conds, args, Cell(r)).True?
  }

  // The plain filters, one by one. A row whose column is NULL fails every filter on it.
  predicate HasType(q: Query, r: Row) {
    q.componentType.Some? ==> r.componentType == q.componentType
  }

  predicate AboveMin(q: Query, r: Row) {
    q.minScore.Some? ==> r.score.Some? && r.score.value >= q.minScore.value
  }

  predicate BelowMax(q: Query, r: Row) {
    q.maxScore.Some? ==> r.score.Some? && r.score.value <= q.maxScore.value
  }

  predicate HasKey(q: Query, r: Row) {
    q.productKey.Some? ==> r.productKey == q.productKey
  }

  predicate TrustedSeller(q: Query, r: Row) {
    q.sellerMinFB.Some? ==> r.sellerFeedback.Some? && r.sellerFeedback.value >= q.sellerMinFB.value
  }

  predicate InCondition(q: Query, r: Row) {
    q.conditions != [] ==> r.conditionNorm.Some? && r.conditionNorm.value in q.conditions
  }

  predicate Accepts(q: Query, r: Row) {
    HasType(q, r) && AboveMin(q, r) && BelowMax(q, r) && HasKey(q, r) && TrustedSeller(q, r) && InCondition(q, r)
  }

  /** The clause built so far is numbered, and selects the rows of p. */
  ghost predicate Built(conds: seq<Cond<Column>>, args: seq<Value>, p: Row -> bool) {
    Numbered(conds, args) && forall r :: Holds(conds, args, r) <==> p(r)
  }

  lemma AddCompare(conds: seq<Cond<Column>>, args: seq<Value>, p: Row -> bool, col: Column, op: Op, v: Value,
                   q: Row -> bool)
    requires Built(conds, args, p)
    requires forall r :: q(r) <==> p(r) && CompareValues(op, Cell(r)(col), Some(v)).True?
    ensures Built(conds + [Compare(col, op, |args| + 1)], args + [v], q)
  {
    var c := Compare(col, op, |args| + 1);
    AddNumbered(conds, args, c, [v]);
    forall r
      ensures Holds(conds + [c], args + [v], r) <==> q(r)
    {
      AddCondition(conds, args, c, [v], Cell(r));
    }
  }

  function AsValues(ss: seq<string>): (vs: seq<Value>)
    ensures |vs| == |ss|
  {
    seq(|ss|, i requires 0 <= i < |ss| => Str(ss[i]))
  }

  lemma AsValuesHas(ss: seq<string>, s: string)
    ensures Str(s) in AsValues(ss) <==> s in ss
  {
    if s in ss {
      var i :| 0 <= i < |ss| && ss[i] == s;
      assert AsValues(ss)[i] == Str(s);
    }
  }

  lemma AddInList(conds: seq<Cond<Column>>, args: seq<Value>, p: Row -> bool, ss: seq<string>, q: Row -> bool)
    requires Built(conds, args, p)
    requires forall r :: q(r) <==> p(r) && r.conditionNorm.Some? && r.conditionNorm.value in ss
    ensures var c := InList(ConditionNorm, seq(|ss|, i => |args| + i + 1));
            Built(conds + [c], args + AsValues(ss), q)
  {
    var vs := AsValues(ss);
    var c := InList(ConditionNorm, seq(|vs|, i => |args| + i + 1));
    AddNumbered(conds, args, c, vs);
    forall r
      ensures Holds(conds + [c], args + vs, r) <==> q(r)
    {
      AddCondition(conds, args, c, vs, Cell(r));
      InListMeans(Cell(r)(ConditionNorm), args + vs, |args|);
      assert (args + vs)[|args|..] == vs;
      if r.conditionNorm.Some? {
        AsValuesHas(ss, r.conditionNorm.value);
      }
    }
  }

  /** An optional comparison is vacuous, or true under NULL logic. */
  predicate Passes(col: Column, op: Op, v: Option<Value>, r: Row) {
    v.Some? ==> CompareValues(op, Cell(r)(col), v).True?
  }

  lemma FiltersCompare(q: Query, r: Row)
    ensures HasType(q, r) <==> Passes(ComponentType, Eq, StrCell(q.componentType), r)
    ensures AboveMin(q, r) <==> Passes(Score, AtLeast, NumCell(q.minScore), r)
    ensures BelowMax(q, r) <==> Passes(Score, AtMost, NumCell(q.maxScore), r)
    ensures HasKey(q, r) <==> Passes(ProductKey, Eq, StrCell(q.productKey), r)
    ensures TrustedSeller(q, r) <==> Passes(SellerFeedback, AtLeast, NumCell(q.sellerMinFB), r)
  {
  }

  /** The conditions and their arguments, filter by filter. */
  method WhereClause(q: Query) returns (conds: seq<Cond<Column>>, args: seq<Value>)
    ensures Params(conds) == Upto(|args|)
    ensures forall r :: Holds(conds, args, r) <==> Accepts(q, r)
  {
    conds, args := [], [];
    var paramIdx := 1;
    forall r { FiltersCompare(q, r); }
    ghost var p0 := (r: Row) => true;
    ghost var p1 := (r: Row) => HasType(q, r);
    ghost var p2 := (r: Row) => HasType(q, r) && AboveMin(q, r);
    ghost var p3 := (r: Row) => HasType(q, r) && AboveMin(q, r) && BelowMax(q, r);
    ghost var p4 := (r: Row) => HasType(q, r) && AboveMin(q, r) && BelowMax(q, r) && HasKey(q, r);
    ghost var p5 := (r: Row) =>
      HasType(q, r) && AboveMin(q, r) && BelowMax(q, r) && HasKey(q, r) && TrustedSeller(q, r);
    conds, args, paramIdx := AppendCompare(conds, args, paramIdx, ComponentType, Eq, StrCell(q.componentType), p0, p1);
    conds, args, paramIdx := AppendCompare(conds, args, paramIdx, Score, AtLeast, NumCell(q.minScore), p1, p2);
    conds, args, paramIdx := AppendCompare(conds, args, paramIdx, Score, AtMost, NumCell(q.maxScore), p2, p3);
    conds, args, paramIdx := AppendCompare(conds, args, paramIdx, ProductKey, Eq, StrCell(q.productKey), p3, p4);
    conds, args, paramIdx :=
      AppendCompare(conds, args, paramIdx, SellerFeedback, AtLeast, NumCell(q.sellerMinFB), p4, p5);
    if |q.conditions| > 0 {
      conds, args, paramIdx := AppendInList(conds, args, paramIdx, q.conditions, p5, (r: Row) => Accepts(q, r));
    }
  }

  /** The placeholders are $1..$n, each once and in order, for n arguments; the clause holds, under
      NULL logic, of exactly the rows the plain filters accept; limit and offset are clamped. */
  method ToSQL(q: Query) returns (sql: DataSql, countConds: seq<Cond<Column>>, args: seq<Value>)
    ensures Params(sql.conds) == Upto(|args|)
    ensures forall r :: Holds(sql.conds, args, r) <==> Accepts(q, r)
    ensures countConds == sql.conds
    ensures 1 <= sql.limit <= MAX_LIMIT && (1 <= q.limit <= MAX_LIMIT ==> sql.limit == q.limit)
    ensures q.limit <= 0 ==> sql.limit == 50
    ensures q.limit > 500 ==> sql.limit == 500
    ensures 0 <= sql.offset && q.offset <= sql.offset && (q.offset >= 0 ==> sql.offset == q.offset)
    ensures q.offset < 0 ==> sql.offset == 0
    ensures sql.order == if q.orderBy == "score" then ByScore else if q.orderBy == "price" then ByPrice else ByFirstSeen
  {
    var conds: seq<Cond<Column>>;
    conds, args := WhereClause(q);

    var order := ByFirstSeen;
    if q.orderBy != "" {
      if q.orderBy == "score" {
        order := ByScore;
      } else if q.orderBy == "price" {
        order := ByPrice;
      }
    }
    var limit := q.limit;
    if limit <= 0 {
      limit := DEFAULT_LIMIT;
    }
    if limit > MAX_LIMIT {
      limit := MAX_LIMIT;
    }
    var offset := if q.offset > 0 then q.offset else 0;
    sql := DataSql(conds, order, limit, offset);
    countConds := conds;
  }

  /** One `if filter is set` branch: a condition with the next placeholder, and its argument. */
  method AppendCompare(conds: seq<Cond<Column>>, args: seq<Value>, paramIdx: nat, col: Column, op: Op,
                       v: Option<Value>, ghost p: Row -> bool, ghost q: Row -> bool)
    returns (conds': seq<Cond<Column>>, args': seq<Value>, paramIdx': nat)
    requires Built(conds, args, p) && paramIdx == |args| + 1
    requires forall r :: q(r) <==> p(r) && Passes(col, op, v, r)
    ensures Built(conds', args', q) && paramIdx' == |args'| + 1
  {
    conds', args', paramIdx' := conds, args, paramIdx;
    if v.Some? {
      AddCompare(conds, args, p, col, op, v.value, q);
      conds' := conds' + [Compare(col, op, paramIdx')];
      args' := args' + [v.value];
      paramIdx' := paramIdx' + 1;
    }
  }

  method AppendInList(conds: seq<Cond<Column>>, args: seq<Value>, paramIdx: nat, conditions: seq<string>,
                      ghost p: Row -> bool, ghost q: Row -> bool)
    returns (conds': seq<Cond<Column>>, args': seq<Value>, paramIdx': nat)
    requires Built(conds, args, p) && paramIdx == |args| + 1
    requires forall r :: q(r) <==> p(r) && r.conditionNorm.Some? && r.conditionNorm.value in conditions
    ensures Built(conds', args', q) && paramIdx' == |args'| + 1
  {
    AddInList(conds, args, p, conditions, q);
    var placeholders: seq<nat> := [];
    args', paramIdx' := args, paramIdx;
    var i := 0;
    while i < |conditions|
      invariant 0 <= i <= |conditions|
      invariant placeholders == seq(i, j => |args| + j + 1)
      invariant args' == args + AsValues(conditions)[..i]
      invariant paramIdx' == |args'| + 1
    {
      placeholders := placeholders + [paramIdx'];
      args' := args' + [Str(conditions[i])];
      paramIdx' := paramIdx' + 1;
      i := i + 1;
    }
    assert AsValues(conditions)[..|conditions|] == AsValues(conditions);
    conds' := conds + [InList(ConditionNorm, placeholders)];
  }

  // ---------------------------------------------------- the rows that come back

  /** a may come before b: score DESC NULLS LAST, price ASC, first_seen_at DESC. */
  predicate Before(order: Order, a: Row, b: Row) {
    match order
    case ByScore => b.score.None? || (a.score.Some? && a.score.value >= b.score.value)
    case ByPrice => a.price <= b.price
    case ByFirstSeen => a.firstSeen >= b.firstSeen
  }

  function Sorting(order: Order): (Row, Row) -> bool {
    (a, b) => Before(order, a, b)
  }

  /** rows is an answer the data query may give: ties may fall either way. */
  ghost predicate Answers(table: seq<Row>, sql: DataSql, args: seq<Value>, rows: seq<Row>)
    requires sql.limit >= 0 && sql.offset >= 0
  {
    exists all :: Ordering(all, Select(table, r => Holds(sql.conds, args, r)), Sorting(sql.order))
                  && rows == Slice(all, sql.offset, sql.limit)
  }

  function CountRows(table: seq<Row>, conds: seq<Cond<Column>>, args: seq<Value>): nat {
    |Select(table, r => Holds(conds, args, r))|
  }

  /** Any answer is the asked-for window of an ordering of the rows the plain filters accept, and
      the count query counts those rows: so the window is full unless the rows run out. */
  lemma AnswerIsWindowOfAccepted(table: seq<Row>, q: Query, sql: DataSql, args: seq<Value>, rows: seq<Row>)
    requires forall r :: Holds(sql.conds, args, r) <==> Accepts(q, r)
    requires sql.limit >= 0 && sql.offset >= 0 && Answers(table, sql, args, rows)
    ensures exists all ::
              && Ordering(all, Select(table, r => Accepts(q, r)), Sorting(sql.order))
              && rows == Slice(all, sql.offset, sql.limit)
    ensures CountRows(table, sql.conds, args) == |Select(table, r => Accepts(q, r))|
    ensures |rows| == Clip(CountRows(table, sql.conds, args) - sql.offset, sql.limit)
    ensures forall r <- rows :: r in table && Accepts(q, r)
  {
    SelectAgrees(table, r => Holds(sql.conds, args, r), r => Accepts(q, r));
    var selected := Select(table, r => Holds(sql.conds, args, r));
    var all :| Ordering(all, selected, Sorting(sql.order)) && rows == Slice(all, sql.offset, sql.limit);
    assert |all| == |multiset(all)| == |multiset(selected)| == |selected|;
    forall r | r in rows
      ensures r in table && Accepts(q, r)
    {
      assert r in all && r in multiset(all) && r in selected;
      SelectMember(table, x => Accepts(q, x), r);
    }
  }

  lemma {:induction false} SelectMember(table: seq<Row>, keep: Row -> bool, r: Row)
    ensures r in Select(table, keep) <==> r in table && keep(r)
    decreases |table|
  {
    if table != [] {
      SelectMember(table[1..], keep, r);
    }
  }

  /** What each sort puts first: the highest score, with unscored rows last; the lowest price; the newest. */
  lemma SortPutsFirst(table: seq<Row>, sql: DataSql, args: seq<Value>, rows: seq<Row>, i: nat, j: nat)
    requires sql.limit >= 0 && sql.offset >= 0 && Answers(table, sql, args, rows) && i < j < |rows|
    ensures var a, b := rows[i], rows[j];
            match sql.order
            case ByScore => b.score.Some? ==> a.score.Some? && a.score.value >= b.score.value
            case ByPrice => a.price <= b.price
            case ByFirstSeen => a.firstSeen >= b.firstSeen
  {
    var all :| Ordering(all, Select(table, r => Holds(sql.conds, args, r)), Sorting(sql.order))
               && rows == Slice(all, sql.offset, sql.limit);
    assert Sorting(sql.order)(all[sql.offset + i], all[sql.offset + j]);
  }

  // ------------------------------------------------------------ window by window

  lemma SortingIsPreorder(order: Order)
    ensures Windows.Preorder(Sorting(order))
  {
  }

  lemma {:induction false} SelectDistinct(table: seq<Row>, keep: Row -> bool)
    requires Windows.Distinct(table)
    ensures Windows.Distinct(Select(table, keep))
    decreases |table|
  {
    if table != [] {
      SelectDistinct(table[1..], keep);
      SelectMember(table[1..], keep, table[0]);
      assert forall j :: 0 <= j < |table[1..]| ==> table[1..][j] == table[j + 1];
      assert table[0] !in table[1..];
    }
  }

  /** The sorts have no tiebreaker. So, on a fixed table, windows of the same query that follow one
      another hold every accepted row exactly once, however each query breaks ties, if and only if no
      two tied rows meet at the edge of a window. */
  lemma WindowsTileExactly(table: seq<Row>, q: Query, order: Order, limit: nat)
    requires Windows.Distinct(table) && limit >= 1
    ensures var selected := Select(table, r => Accepts(q, r));
            Windows.AlwaysTile(Sorting(order), selected, limit)
            <==> Windows.NoTieAcross(Sorting(order), selected, limit)
  {
    SortingIsPreorder(order);
    SelectDistinct(table, r => Accepts(q, r));
    Windows.TileExactly(Sorting(order), Select(table, r => Accepts(q, r)), limit);
  }
}
