/**
 The alert review list: defaults, the WHERE builder, the sort, and paging by LIMIT
 and OFFSET. Each page is its own query, so its rows are only as fixed as its ORDER
 BY makes them.
 */
module AlertReview {
  import opened Wrappers
  import opened Like
  import opened Sql

  datatype Column = Notified | DismissedAt | AlertScore | ComponentType | WatchId | Title

  /** One row of alerts joined with its listing and watch. watchRank is the place of the watch's
      name in the database's collation. */
  datatype Row = Row(
    id: nat, watchId: string, watchRank: int, score: int, createdAt: int,
    notified: bool, dismissedAt: Option<int>, componentType: Option<string>, title: string)

  datatype Query = Query(
    search: string, componentType: string, watchId: string, minScore: int,
    status: string, sort: string, page: int, perPage: int)

  const MAX_PER_PAGE := 100

  function Cell(r: Row): Column -> Option<Value> {
    (c: Column) => match c
      case Notified => Some(Bool(r.notified))
      case DismissedAt => if r.dismissedAt.Some? then Some(Num(r.dismissedAt.value)) else None
      case AlertScore => Some(Num(r.score))
      case ComponentType => if r.componentType.Some? then Some(Str(r.componentType.value)) else None
      case WatchId => Some(Str(r.watchId))
      case Title => Some(Str(r.title))
  }

  predicate Holds(conds: seq<Cond<Column>>, args: seq<Value>, r: Row) {
    EvalAll(conds, args, Cell(r)).True?
  }

  // ---------------------------------------------------------- the plain filter

  predicate InStatus(status: string, r: Row) {
    && (status == "active" ==> !r.notified)
    && (status == "dismissed" ==> r.dismissedAt.Some?)
    && (status == "notified" ==> r.notified)
    && (status == "undismissed" ==> r.dismissedAt.None?)
  }

  predicate ScoresEnough(q: Query, r: Row) {
    q.minScore > 0 ==> r.score >= q.minScore
  }

  predicate OfType(q: Query, r: Row) {
    q.componentType != "" ==> r.componentType == Some(q.componentType)
  }

  predicate OfWatch(q: Query, r: Row) {
    q.watchId != "" ==> r.watchId == q.watchId
  }

  predicate Found(q: Query, r: Row) {
    q.search != "" ==> ILike(r.title, Around(q.search))
  }

  predicate Accepts(q: Query, r: Row) {
    InStatus(q.status, r) && ScoresEnough(q, r) && OfType(q, r) && OfWatch(q, r) && Found(q, r)
  }

  ghost predicate Built(conds: seq<Cond<Column>>, args: seq<Value>, p: Row -> bool) {
    Numbered(conds, args) && forall r :: Holds(conds, args, r) <==> p(r)
  }

  lemma AddBuilt(conds: seq<Cond<Column>>, args: seq<Value>, p: Row -> bool, c: Cond<Column>, more: seq<Value>,
                 q: Row -> bool)
    requires Built(conds, args, p) && |more| <= 1
    requires ParamsOf(c) == if more == [] then [] else [|args| + 1]
    requires forall r :: q(r) <==> p(r) && Eval(c, args + more, Cell(r)).True?
    ensures Built(conds + [c], args + more, q)
  {
    AddNumbered(conds, args, c, more);
    forall r
      ensures Holds(conds + [c], args + more, r) <==> q(r)
    {
      AddCondition(conds, args, c, more, Cell(r));
    }
  }

  /** One branch of the builder: append the argument, then a clause numbered by their count. */
  method AppendFilter(conds: seq<Cond<Column>>, args: seq<Value>, present: bool, v: Value, c: Cond<Column>,
                      ghost p: Row -> bool, ghost q: Row -> bool)
    returns (conds': seq<Cond<Column>>, args': seq<Value>)
    requires Built(conds, args, p)
    requires ParamsOf(c) == [|args| + 1]
    requires forall r :: q(r) <==> p(r) && (present ==> Eval(c, args + [v], Cell(r)).True?)
    ensures Built(conds', args', q)
  {
    conds', args' := conds, args;
    if present {
      args' := args' + [v];
      AddBuilt(conds, args, p, c, [v], q);
      conds' := conds' + [c];
    }
  }

  method StatusClause(status: string) returns (conds: seq<Cond<Column>>)
    ensures Built(conds, [], (r: Row) => InStatus(status, r))
    ensures forall r :: Holds(conds, [], r) <==>
              match status
              case "active" => !r.notified
              case "dismissed" => r.dismissedAt.Some?
              case "notified" => r.notified
              case "undismissed" => r.dismissedAt.None?
              case _ => true
  {
    conds := [];
    ghost var p0 := (r: Row) => true;
    assert Built([], [], p0);
    if status == "active" {
      conds := conds + [Flag(Notified, false)];
    } else if status == "dismissed" {
      conds := conds + [NullTest(DismissedAt, false)];
    } else if status == "notified" {
      conds := conds + [Flag(Notified, true)];
    } else if status == "undismissed" {
      conds := conds + [NullTest(DismissedAt, true)];
    }
    if conds != [] {
      AddBuilt([], [], p0, conds[0], [], (r: Row) => InStatus(status, r));
      assert [] + [conds[0]] == conds;
      var none: seq<Value> := [];
      assert none + [] == none;
    }
  }

  lemma ScoreClause(q: Query, args: seq<Value>, r: Row)
    ensures ScoresEnough(q, r) <==>
              (q.minScore > 0 ==>
                 Eval(Compare(AlertScore, AtLeast, |args| + 1), args + [Num(q.minScore)], Cell(r)).True?)
  {
  }

  lemma TypeClause(q: Query, args: seq<Value>, r: Row)
    ensures OfType(q, r) <==>
              (q.componentType != "" ==>
                 Eval(Compare(ComponentType, Eq, |args| + 1), args + [Str(q.componentType)], Cell(r)).True?)
  {
  }

  lemma WatchClause(q: Query, args: seq<Value>, r: Row)
    ensures OfWatch(q, r) <==>
              (q.watchId != "" ==>
                 Eval(Compare(WatchId, Eq, |args| + 1), args + [Str(q.watchId)], Cell(r)).True?)
  {
  }

  lemma SearchClause(q: Query, args: seq<Value>, r: Row)
    ensures Found(q, r) <==>
              (q.search != "" ==> Eval(Contains(Title, |args| + 1), args + [Str(q.search)], Cell(r)).True?)
  {
  }

  method BuildWhere(q: Query) returns (conds: seq<Cond<Column>>, args: seq<Value>)
    ensures Params(conds) == Upto(|args|)
    ensures forall r :: Holds(conds, args, r) <==> Accepts(q, r)
  {
    ghost var p0 := (r: Row) => InStatus(q.status, r);
    ghost var p1 := (r: Row) => InStatus(q.status, r) && ScoresEnough(q, r);
    ghost var p2 := (r: Row) => InStatus(q.status, r) && ScoresEnough(q, r) && OfType(q, r);
    ghost var p3 := (r: Row) => InStatus(q.status, r) && ScoresEnough(q, r) && OfType(q, r) && OfWatch(q, r);
    conds := StatusClause(q.status);
    args := [];
    forall r { ScoreClause(q, args, r); }
    conds, args := AppendFilter(conds, args, q.minScore > 0, Num(q.minScore),
                                Compare(AlertScore, AtLeast, |args| + 1), p0, p1);
    forall r { TypeClause(q, args, r); }
    conds, args := AppendFilter(conds, args, q.componentType != "", Str(q.componentType),
                                Compare(ComponentType, Eq, |args| + 1), p1, p2);
    forall r { WatchClause(q, args, r); }
    conds, args := AppendFilter(conds, args, q.watchId != "", Str(q.watchId),
                                Compare(WatchId, Eq, |args| + 1), p2, p3);
    forall r { SearchClause(q, args, r); }
    conds, args := AppendFilter(conds, args, q.search != "", Str(q.search),
                                Contains(Title, |args| + 1), p3, (r: Row) => Accepts(q, r));
  }

  // -------------------------------------------------------------- the sort

  /** a comes before b; the id breaks every tie. */
  predicate Before(sort: string, a: Row, b: Row) {
    if sort == "created" then
      a.createdAt > b.createdAt || (a.createdAt == b.createdAt && a.id > b.id)
    else if sort == "watch" then
      a.watchRank < b.watchRank
      || (a.watchRank == b.watchRank && (a.score > b.score || (a.score == b.score && a.id > b.id)))
    else
      a.score > b.score
      || (a.score == b.score && (a.createdAt > b.createdAt || (a.createdAt == b.createdAt && a.id > b.id)))
  }

  predicate UniqueIds(table: seq<Row>) {
    forall i, j :: 0 <= i < j < |table| ==> table[i].id != table[j].id
  }

  function Order(sort: string): (Row, Row) -> bool {
    (a, b) => Before(sort, a, b)
  }

  ghost predicate Sorted(sort: string, rows: seq<Row>) {
    SortedBy(Order(sort), rows)
  }

  /** The tiebreaker makes the order strict. */
  lemma OrderIsStrict(sort: string)
    ensures Strict(Order(sort))
  {
  }

  /** What each sort puts first: the newest; the first watch by name, and of it the highest score; by default the
      highest score, and of those the newest. Within all that, the highest id. */
  lemma SortPutsFirst(sort: string, rows: seq<Row>, i: nat, j: nat)
    requires Sorted(sort, rows) && i < j < |rows|
    ensures var a, b := rows[i], rows[j];
            if sort == "created" then
              a.createdAt >= b.createdAt && (a.createdAt == b.createdAt ==> a.id >= b.id)
            else if sort == "watch" then
              && a.watchRank <= b.watchRank
              && (a.watchRank == b.watchRank ==> a.score >= b.score)
              && (a.watchRank == b.watchRank && a.score == b.score ==> a.id >= b.id)
            else
              && a.score >= b.score
              && (a.score == b.score ==> a.createdAt >= b.createdAt)
              && (a.score == b.score && a.createdAt == b.createdAt ==> a.id >= b.id)
  {
  }

  // -------------------------------------------------------------- the query

  /** What is sent: LIMIT and OFFSET are placeholders too. */
  datatype Statement = Statement(
    conds: seq<Cond<Column>>, sort: string, args: seq<Value>, limitParam: nat, offsetParam: nat)

  function Number(v: Option<Value>): nat {
    if v.Some? && v.value.Num? && v.value.n >= 0 then v.value.n else 0
  }

  /** rows is an answer of the database to the statement over the table. */
  ghost predicate Answers(table: seq<Row>, st: Statement, rows: seq<Row>) {
    exists all ::
      && multiset(all) == multiset(Select(table, r => Holds(st.conds, st.args, r)))
      && Sorted(st.sort, all)
      && rows == Slice(all, Number(Arg(st.args, st.offsetParam)), Number(Arg(st.args, st.limitParam)))
  }

  class ReviewQuery {
    var search: string
    var componentType: string
    var watchId: string
    var minScore: int
    var status: string
    var sort: string
    var page: int
    var perPage: int

    function View(): Query
      reads this
    {
      Query(search, componentType, watchId, minScore, status, sort, page, perPage)
    }

    constructor (q: Query)
      ensures View() == q
    {
      search, componentType, watchId, minScore := q.search, q.componentType, q.watchId, q.minScore;
      status, sort, page, perPage := q.status, q.sort, q.page, q.perPage;
    }

    method Defaults()
      modifies this
      ensures View() == WithDefaults(old(View()))
    {
      if status == "" {
        status := "active";
      }
      if sort == "" {
        sort := "score";
      }
      if page < 1 {
        page := 1;
      }
      if perPage < 1 {
        perPage := 25;
      }
      if perPage > MAX_PER_PAGE {
        perPage := MAX_PER_PAGE;
      }
    }

    /** The statement for one page and the arguments of the count. LIMIT and OFFSET are the last two
        arguments, they hold the page's size and start, and they leave the filter as it was. */
    method ListForReview() returns (st: Statement, countArgs: seq<Value>)
      modifies this
      ensures View() == WithDefaults(old(View()))
      ensures Asks(View(), st)
      ensures forall r :: Holds(st.conds, countArgs, r) <==> Accepts(View(), r)
      ensures Params(st.conds) == Upto(|countArgs|)
      ensures st.limitParam == |countArgs| + 1 && st.offsetParam == |countArgs| + 2 == |st.args|
      ensures st.args == countArgs + [Num(perPage), Num((page - 1) * perPage)]
    {
      Defaults();
      var conds;
      conds, countArgs := BuildWhere(View());
      var offset := (page - 1) * perPage;
      StartIsProduct(page - 1, perPage);
      var extra := [Num(perPage), Num(offset)];
      var listArgs := countArgs + extra;
      assert AllAtMost(Params(conds), |countArgs|);
      forall r
        ensures Holds(conds, listArgs, r) <==> Accepts(View(), r)
      {
        MoreArgs(conds, countArgs, extra, Cell(r));
      }
      st := Statement(conds, sort, listArgs, |listArgs| - 1, |listArgs|);
      assert Arg(st.args, st.limitParam) == Some(Num(perPage)) && Arg(st.args, st.offsetParam) == Some(Num(offset));
    }
  }

  function WithDefaults(q: Query): (d: Query)
    ensures d.page >= 1 && 1 <= d.perPage <= 100 && d.status != "" && d.sort != ""
    ensures q.page >= 1 && 1 <= q.perPage <= 100 && q.status != "" && q.sort != "" ==> d == q
    ensures q.status == "" ==> d.status == "active"
    ensures q.sort == "" ==> d.sort == "score"
    ensures q.page < 1 ==> d.page == 1
    ensures q.perPage < 1 ==> d.perPage == 25
    ensures q.perPage > 100 ==> d.perPage == 100
    ensures q.status != "" ==> d.status == q.status
    ensures q.sort != "" ==> d.sort == q.sort
    ensures q.page >= 1 ==> d.page == q.page
    ensures 1 <= q.perPage <= 100 ==> d.perPage == q.perPage
    ensures d.search == q.search && d.componentType == q.componentType
    ensures d.watchId == q.watchId && d.minScore == q.minScore
  {
    q.(status := if q.status == "" then "active" else q.status,
       sort := if q.sort == "" then "score" else q.sort,
       page := if q.page < 1 then 1 else q.page,
       perPage := if q.perPage < 1 then 25 else if q.perPage > MAX_PER_PAGE then MAX_PER_PAGE else q.perPage)
  }

  // -------------------------------------------------------------- the pages

  /** all is the accepted rows in order. */
  ghost predicate Arranged(table: seq<Row>, q: Query, all: seq<Row>) {
    multiset(all) == multiset(Select(table, r => Accepts(q, r))) && Sorted(q.sort, all)
  }

  ghost predicate PageOf(table: seq<Row>, q: Query, page: nat, rows: seq<Row>, all: seq<Row>)
    requires page >= 1 && q.perPage >= 1
  {
    Arranged(table, q, all) && rows == Slice(all, Start(page - 1, q.perPage), q.perPage)
  }

  /** rows is an answer to page number `page` of the query. */
  ghost predicate IsPage(table: seq<Row>, q: Query, page: nat, rows: seq<Row>)
    requires page >= 1 && q.perPage >= 1
  {
    exists all :: PageOf(table, q, page, rows, all)
  }

  /** The statement asks for the query's own page: its filter, its sort, its LIMIT and OFFSET. */
  ghost predicate Asks(q: Query, st: Statement)
    requires q.page >= 1 && q.perPage >= 1
  {
    && st.sort == q.sort
    && (forall r :: Holds(st.conds, st.args, r) <==> Accepts(q, r))
    && Number(Arg(st.args, st.limitParam)) == q.perPage
    && Number(Arg(st.args, st.offsetParam)) == Start(q.page - 1, q.perPage)
  }

  /** What the database answers to the statement of a query is a page of that query. */
  lemma AnswerIsPage(table: seq<Row>, q: Query, st: Statement, rows: seq<Row>)
    requires q.page >= 1 && q.perPage >= 1 && Asks(q, st)
    requires Answers(table, st, rows)
    ensures IsPage(table, q, q.page, rows)
  {
    SelectAgrees(table, r => Holds(st.conds, st.args, r), r => Accepts(q, r));
    var all :| && multiset(all) == multiset(Select(table, r => Holds(st.conds, st.args, r)))
               && Sorted(st.sort, all)
               && rows == Slice(all, Number(Arg(st.args, st.offsetParam)), Number(Arg(st.args, st.limitParam)));
    assert PageOf(table, q, q.page, rows, all);
  }

  lemma NextSlice(all: seq<Row>, from: nat, perPage: nat)
    ensures all[..Clip(from, |all|)] + Slice(all, from, perPage) == all[..Clip(from + perPage, |all|)]
  {
  }

  lemma {:induction false} PagesCover(pages: seq<seq<Row>>, all: seq<Row>, perPage: nat)
    requires forall i :: 0 <= i < |pages| ==> pages[i] == Slice(all, Start(i, perPage), perPage)
    ensures Flatten(pages) == all[..Clip(Start(|pages|, perPage), |all|)]
    decreases |pages|
  {
    if pages != [] {
      var k := |pages| - 1;
      PagesCover(pages[..k], all, perPage);
      NextSlice(all, Start(k, perPage), perPage);
    }
  }

  lemma PageOfArrangement(table: seq<Row>, q: Query, all: seq<Row>, page: nat, rows: seq<Row>)
    requires page >= 1 && q.perPage >= 1 && Arranged(table, q, all) && IsPage(table, q, page, rows)
    ensures rows == Slice(all, Start(page - 1, q.perPage), q.perPage)
  {
    var mine :| PageOf(table, q, page, rows, mine);
    OrderIsStrict(q.sort);
    SortedIsUnique(Order(q.sort), mine, all);
  }

  lemma SlicesTile(table: seq<Row>, q: Query, all: seq<Row>, pages: seq<seq<Row>>)
    requires UniqueIds(table) && Arranged(table, q, all) && q.perPage >= 1
    requires Start(|pages|, q.perPage) >= |Select(table, r => Accepts(q, r))|
    requires forall i :: 0 <= i < |pages| ==> pages[i] == Slice(all, Start(i, q.perPage), q.perPage)
    ensures Arranged(table, q, Flatten(pages)) && UniqueIds(Flatten(pages))
  {
    var selected := Select(table, r => Accepts(q, r));
    PagesCover(pages, all, q.perPage);
    assert |all| == |multiset(all)| == |multiset(selected)| == |selected|;
    assert Flatten(pages) == all;
    SelectUnique(table, r => Accepts(q, r));
    SortedUnique(q.sort, all, selected);
  }

  /** On a fixed table, for every filter and sort: pages 1, 2, ... up to the one that covers the
      total, each answered by its own query, put together are exactly the accepted rows in order,
      with none repeated and none lost. */
  lemma PagesTileTheResult(table: seq<Row>, q: Query, pages: seq<seq<Row>>)
    requires UniqueIds(table) && q.perPage >= 1
    requires Start(|pages|, q.perPage) >= |Select(table, r => Accepts(q, r))|
    requires forall i :: 0 <= i < |pages| ==> IsPage(table, q, i + 1, pages[i])
    ensures Arranged(table, q, Flatten(pages)) && UniqueIds(Flatten(pages))
  {
    if pages == [] {
      assert Select(table, r => Accepts(q, r)) == [];
      SlicesTile(table, q, [], pages);
    } else {
      assert IsPage(table, q, 0 + 1, pages[0]);
      var all :| PageOf(table, q, 0 + 1, pages[0], all);
      forall i | 0 <= i < |pages|
        ensures pages[i] == Slice(all, Start(i, q.perPage), q.perPage)
      {
        PageOfArrangement(table, q, all, i + 1, pages[i]);
      }
      SlicesTile(table, q, all, pages);
    }
  }

  /** Asking for another page changes neither filter nor sort. */
  lemma PageOfSameQuery(table: seq<Row>, q: Query, page: nat, rows: seq<Row>)
    requires page >= 1 && q.perPage >= 1
    ensures IsPage(table, q.(page := page), page, rows) <==> IsPage(table, q, page, rows)
  {
    var p := q.(page := page);
    SelectAgrees(table, r => Accepts(p, r), r => Accepts(q, r));
    assert forall all :: PageOf(table, p, page, rows, all) <==> PageOf(table, q, page, rows, all);
  }

  /** The database answers rows to the statement for one page of the query. */
  ghost predicate Answered(table: seq<Row>, q: Query, page: nat, st: Statement, rows: seq<Row>)
    requires page >= 1 && q.perPage >= 1
  {
    Asks(q.(page := page), st) && Answers(table, st, rows)
  }

  lemma AnsweredIsPage(table: seq<Row>, q: Query, page: nat, st: Statement, rows: seq<Row>)
    requires page >= 1 && q.perPage >= 1 && Answered(table, q, page, st, rows)
    ensures IsPage(table, q, page, rows)
  {
    AnswerIsPage(table, q.(page := page), st, rows);
    PageOfSameQuery(table, q, page, rows);
  }

  lemma AnsweredIsSlice(table: seq<Row>, q: Query, all: seq<Row>, page: nat, st: Statement, rows: seq<Row>)
    requires page >= 1 && q.perPage >= 1 && Arranged(table, q, all) && Answered(table, q, page, st, rows)
    ensures rows == Slice(all, Start(page - 1, q.perPage), q.perPage)
  {
    AnsweredIsPage(table, q, page, st, rows);
    PageOfArrangement(table, q, all, page, rows);
  }

  lemma AnsweredArrangement(table: seq<Row>, q: Query, page: nat, st: Statement, rows: seq<Row>) returns (all: seq<Row>)
    requires page >= 1 && q.perPage >= 1 && Answered(table, q, page, st, rows)
    ensures Arranged(table, q, all)
  {
    AnsweredIsPage(table, q, page, st, rows);
    all :| PageOf(table, q, page, rows, all);
  }

  /** From statements to result: whatever the database answers to the statements for pages 1, 2, ...
      of one query, put together, is exactly the accepted rows in order. */
  lemma StatementsTileTheResult(table: seq<Row>, q: Query, sts: seq<Statement>, pages: seq<seq<Row>>)
    requires UniqueIds(table) && q.perPage >= 1 && |sts| == |pages|
    requires Start(|pages|, q.perPage) >= |Select(table, r => Accepts(q, r))|
    requires forall i :: 0 <= i < |sts| ==> Answered(table, q, i + 1, sts[i], pages[i])
    ensures Arranged(table, q, Flatten(pages)) && UniqueIds(Flatten(pages))
  {
    if pages == [] {
      assert Select(table, r => Accepts(q, r)) == [];
      SlicesTile(table, q, [], pages);
    } else {
      var all := AnsweredArrangement(table, q, 0 + 1, sts[0], pages[0]);
      forall i | 0 <= i < |pages|
        ensures pages[i] == Slice(all, Start(i, q.perPage), q.perPage)
      {
        AnsweredIsSlice(table, q, all, i + 1, sts[i], pages[i]);
      }
      SlicesTile(table, q, all, pages);
    }
  }

  lemma SortedWithout(sort: string, rows: seq<Row>, p: nat)
    requires Sorted(sort, rows) && p < |rows|
    ensures Sorted(sort, rows[..p] + rows[p + 1..])
  {
    var rest := rows[..p] + rows[p + 1..];
    forall i, j | 0 <= i < j < |rest|
      ensures Order(sort)(rest[i], rest[j])
    {
      var a, b := if i < p then i else i + 1, if j < p then j else j + 1;
      assert rest[i] == rows[a] && rest[j] == rows[b];
    }
  }

  lemma RowsWithout(rows: seq<Row>, p: nat)
    requires p < |rows|
    ensures multiset(rows) == multiset(rows[..p] + rows[p + 1..]) + multiset{rows[p]}
  {
    assert rows == rows[..p] + ([rows[p]] + rows[p + 1..]);
  }

  lemma Cancel(a: multiset<Row>, b: multiset<Row>, n: Row)
    requires a + multiset{n} == b + multiset{n}
    ensures a == b
  {
    assert a == (a + multiset{n}) - multiset{n};
    assert b == (b + multiset{n}) - multiset{n};
  }

  lemma PutBack(rows: seq<Row>, p: nat)
    requires p < |rows|
    ensures var rest := rows[..p] + rows[p + 1..]; rows == rest[..p] + [rows[p]] + rest[p..]
  {
  }

  /** A row that arrives takes one place in the order and leaves the others as they were. */
  lemma ArrivalShifts(sort: string, all: seq<Row>, n: Row, after: seq<Row>) returns (p: nat)
    requires Sorted(sort, all) && Sorted(sort, after) && multiset(after) == multiset(all) + multiset{n}
    ensures p <= |all| && after == all[..p] + [n] + all[p..]
  {
    assert n in multiset(after);
    p :| p < |after| && after[p] == n;
    SortedWithout(sort, after, p);
    RowsWithout(after, p);
    OrderIsStrict(sort);
    var rest := after[..p] + after[p + 1..];
    Cancel(multiset(rest), multiset(all), n);
    SortedIsUnique(Order(sort), rest, all);
    PutBack(after, p);
  }

  lemma ArrivalPlace(sort: string, all: seq<Row>, n: Row, after: seq<Row>, p: nat, b: nat)
    requires Sorted(sort, after) && p <= |all| && after == all[..p] + [n] + all[p..]
    requires 0 < b <= |all|
    ensures Order(sort)(n, all[b - 1]) <==> p < b
    ensures p < b ==> after[b] == all[b - 1]
    ensures p >= b ==> forall r <- after[b..] :: r == n || r in all[b..]
  {
    OrderIsStrict(sort);
    assert after[p] == n;
    if p < b {
      assert after[b] == all[b - 1];
      assert Order(sort)(after[p], after[b]);
    } else {
      assert after[b - 1] == all[b - 1];
      assert Order(sort)(after[b - 1], after[p]);
      assert after[b..] == all[b..p] + [n] + all[p..];
    }
  }

  /** Between two page loads an accepted row arrives. The pages loaded before, up to row b, and those
      loaded after, from row b on, show a row twice if and only if the new row sorts before row b - 1;
      and then that row, the last of the earlier page, is the first of the next. */
  lemma ArrivalRepeatsExactly(table: seq<Row>, q: Query, n: Row, all: seq<Row>, after: seq<Row>, b: nat)
    requires UniqueIds(table + [n]) && Accepts(q, n)
    requires Arranged(table, q, all) && Arranged(table + [n], q, after) && 0 < b <= |all|
    ensures |after| == |all| + 1
    ensures (exists r <- all[..b] :: r in after[b..]) <==> Order(q.sort)(n, all[b - 1])
    ensures Order(q.sort)(n, all[b - 1]) ==> after[b] == all[b - 1]
  {
    SelectSnoc(table, n, r => Accepts(q, r));
    var selected := Select(table, r => Accepts(q, r));
    assert multiset(after) == multiset(selected + [n]) == multiset(all) + multiset{n};
    var p := ArrivalShifts(q.sort, all, n, after);
    ArrivalPlace(q.sort, all, n, after, p, b);
    SelectUnique(table + [n], r => Accepts(q, r));
    SortedUnique(q.sort, after, selected + [n]);
    if p < b {
      assert all[b - 1] in all[..b] && after[b] in after[b..];
    } else {
      assert all[..b] == after[..b];
      forall r | r in all[..b]
        ensures r !in after[b..]
      {
        var i :| 0 <= i < b && after[i] == r;
        assert forall j :: 0 <= j < |after[b..]| ==> after[b..][j] == after[b + j];
      }
    }
  }

  lemma {:induction false} SelectUnique(table: seq<Row>, keep: Row -> bool)
    requires UniqueIds(table)
    ensures UniqueIds(Select(table, keep))
    ensures forall r <- Select(table, keep) :: r in table
    decreases |table|
  {
    if table != [] {
      SelectUnique(table[1..], keep);
      assert forall r <- table[1..] :: r.id != table[0].id;
      assert forall r <- Select(table[1..], keep) :: r.id != table[0].id;
    }
  }

  /** Sorted rows are distinct, and distinct rows of a table with unique ids have distinct ids. */
  lemma SortedUnique(sort: string, rows: seq<Row>, selected: seq<Row>)
    requires Sorted(sort, rows) && UniqueIds(selected) && multiset(rows) == multiset(selected)
    ensures UniqueIds(rows)
  {
    OrderIsStrict(sort);
    forall i, j | 0 <= i < j < |rows|
      ensures rows[i].id != rows[j].id
    {
      assert Order(sort)(rows[i], rows[j]);
      assert rows[i] in multiset(selected) && rows[j] in multiset(selected);
      var a :| 0 <= a < |selected| && selected[a] == rows[i];
      var b :| 0 <= b < |selected| && selected[b] == rows[j];
    }
  }
}
