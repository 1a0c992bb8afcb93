/**
 Paging through an eBay search until a listing is already known, the pages run out,
 or the results do. The search answers pages of one fixed result list.
 */
module Paginator {
  import opened Wrappers

  type Item = nat

  const DEFAULT_FIRST_RUN_PAGES := 5
  const DEFAULT_SEARCH_LIMIT := 50

  datatype StopReason = KnownListing | MaxPages | NoMoreResults

  datatype PageResult = PageResult(newListings: seq<Item>, totalSeen: nat, pagesUsed: nat, stoppedAt: StopReason)

  datatype SearchError = SearchFailed(page: nat)

  /** The place of the first known item from i on, or the end. */
  function FirstKnown(items: seq<Item>, known: Item -> bool, i: nat): (n: nat)
    requires i <= |items|
    ensures i <= n <= |items|
    decreases |items| - i
  {
    if i == |items| || known(items[i]) then i else FirstKnown(items, known, i + 1)
  }

  /** The leading items that are not known. */
  function TakeNew(items: seq<Item>, known: Item -> bool): seq<Item> {
    items[..FirstKnown(items, known, 0)]
  }

  lemma {:induction false} FirstKnownStops(items: seq<Item>, known: Item -> bool, i: nat)
    requires i <= |items|
    ensures var n := FirstKnown(items, known, i);
            (forall j :: i <= j < n ==> !known(items[j])) && (n < |items| ==> known(items[n]))
    decreases |items| - i
  {
    if i < |items| && !known(items[i]) {
      FirstKnownStops(items, known, i + 1);
    }
  }

  lemma TakeNewStops(items: seq<Item>, known: Item -> bool)
    ensures var k := |TakeNew(items, known)|;
            && (forall i :: 0 <= i < k ==> !known(items[i]))
            && (k < |items| ==> known(items[k]))
  {
    FirstKnownStops(items, known, 0);
  }

  /** Which prefix it is: the one that ends before the first known item, or nowhere. */
  lemma TakeNewIs(items: seq<Item>, k: nat, known: Item -> bool)
    requires k <= |items| && forall i :: 0 <= i < k ==> !known(items[i])
    requires k < |items| ==> known(items[k])
    ensures TakeNew(items, known) == items[..k]
  {
    TakeNewStops(items, known);
  }

  lemma TakeNewConcat(xs: seq<Item>, ys: seq<Item>, known: Item -> bool)
    requires TakeNew(xs, known) == xs
    ensures TakeNew(xs + ys, known) == xs + TakeNew(ys, known)
  {
    TakeNewStops(xs, known);
    TakeNewStops(ys, known);
    var k := |TakeNew(ys, known)|;
    forall i | 0 <= i < |xs| + k
      ensures !known((xs + ys)[i])
    {
      if i >= |xs| {
        assert (xs + ys)[i] == ys[i - |xs|];
      }
    }
    TakeNewIs(xs + ys, |xs| + k, known);
    assert (xs + ys)[..|xs| + k] == xs + ys[..k];
  }

  /** The first n items, or all if there are fewer. */
  function Upto(items: seq<Item>, n: int): seq<Item> {
    items[..Clip(n, |items|)]
  }

  /** Where a scan stops: at an item that is known and whose look-up worked. */
  function Stops(known: Item -> bool, lookupFails: Item -> bool): Item -> bool {
    (i: Item) => known(i) && !lookupFails(i)
  }

  class Paginator {
    const pageSize: int
    const maxPages: int

    constructor (pageSize: int, maxPages: int)
      ensures this.pageSize == pageSize && this.maxPages == maxPages
    {
      this.pageSize, this.maxPages := pageSize, maxPages;
    }

    /** The search endpoint: a limit that is not positive means the default, an offset that is not
        positive the start; hasMore is the presence of a next link. */
    method Search(remote: seq<Item>, limit: int, offset: int) returns (items: seq<Item>, hasMore: bool)
      ensures limit > 0 && offset >= 0 ==>
                && items == remote[Clip(offset, |remote|)..Clip(offset + limit, |remote|)]
                && (hasMore <==> offset + limit < |remote|)
      ensures limit <= 0 && offset <= 0 ==>
                items == Upto(remote, 50) && (hasMore <==> 50 < |remote|)
    {
      var n := if limit <= 0 then DEFAULT_SEARCH_LIMIT else limit;
      var from := if offset > 0 then offset else 0;
      items := remote[Clip(from, |remote|)..Clip(from + n, |remote|)];
      hasMore := from + n < |remote|;
    }

    /** Appends the new items of a page up to its first known one. A failed look-up counts as not
        known, as the store error is only logged. */
    method ScanPage(items: seq<Item>, known: Item -> bool, lookupFails: Item -> bool)
      returns (found: seq<Item>, seen: nat, foundKnown: bool)
      ensures found == TakeNew(items, Stops(known, lookupFails))
      ensures foundKnown <==> |found| < |items|
      ensures seen == |found| + (if foundKnown then 1 else 0)
    {
      ghost var stops := Stops(known, lookupFails);
      found, seen, foundKnown := [], 0, false;
      var i := 0;
      while i < |items|
        invariant 0 <= i <= |items| && seen == i && !foundKnown && found == items[..i]
        invariant forall j :: 0 <= j < i ==> !stops(items[j])
      {
        seen := seen + 1;
        if !lookupFails(items[i]) && known(items[i]) {
          foundKnown := true;
          break;
        }
        found := found + [items[i]];
        i := i + 1;
      }
      TakeNewIs(items, i, stops);
    }

    method FetchPage(remote: seq<Item>, page: nat) returns (items: seq<Item>, hasMore: bool)
      ensures items == PageItems(remote, page, pageSize)
      ensures hasMore <==> HasMore(remote, page, pageSize)
    {
      StartIs(page, pageSize);
      StartSign(page, pageSize);
      var offset := page * pageSize;
      items, hasMore := Search(remote, pageSize, offset);
    }

    /** One page whose search worked: None means go on to the next. */
    method TakePage(remote: seq<Item>, known: Item -> bool, lookupFails: Item -> bool, page: nat)
      returns (found: seq<Item>, seen: nat, stop: Option<StopReason>)
      ensures found == TakeNew(PageItems(remote, page, pageSize), Stops(known, lookupFails))
      ensures stop == PageStop(remote, Stops(known, lookupFails), pageSize, page)
      ensures seen == |found| + (if stop == Some(KnownListing) then 1 else 0)
    {
      var items, hasMore := FetchPage(remote, page);
      if |items| == 0 {
        return [], 0, Some(NoMoreResults);
      }
      var foundKnown;
      found, seen, foundKnown := ScanPage(items, known, lookupFails);
      if foundKnown {
        return found, seen, Some(KnownListing);
      }
      if !hasMore {
        return found, seen, Some(NoMoreResults);
      }
      stop := None;
    }

    method FetchPages(remote: seq<Item>, known: Item -> bool, lookupFails: Item -> bool, searchFails: nat -> bool,
                      pages: nat)
      returns (r: Result<PageResult, SearchError>)
      ensures r == Pages(remote, Stops(known, lookupFails), pageSize, pages, searchFails, 0, [])
    {
      ghost var stops := Stops(known, lookupFails);
      ghost var all := Pages(remote, stops, pageSize, pages, searchFails, 0, []);
      var newListings: seq<Item> := [];
      var totalSeen := 0;
      var page := 0;
      while page < pages
        invariant page <= pages && totalSeen == |newListings|
        invariant Pages(remote, stops, pageSize, pages, searchFails, page, newListings) == all
      {
        if searchFails(page) {
          return Failure(SearchFailed(page));
        }
        var found, seen, stop := TakePage(remote, known, lookupFails, page);
        newListings := newListings + found;
        totalSeen := totalSeen + seen;
        if stop.Some? {
          return Success(PageResult(newListings, totalSeen, page + 1, stop.value));
        }
        page := page + 1;
      }
      r := Success(PageResult(newListings, totalSeen, page, MaxPages));
    }

    /** A first run fetches at most five pages. The result meets PageSpec, or RepeatSpec if the page size is not
        positive; a failed search at page p fails the call, and only when p was reached. */
    method Paginate(remote: seq<Item>, known: Item -> bool, lookupFails: Item -> bool, searchFails: nat -> bool,
                    isFirstRun: bool)
      returns (r: Result<PageResult, SearchError>)
      ensures var cap := if isFirstRun && maxPages > 5 then 5 else if maxPages < 0 then 0 else maxPages;
              && Answer(remote, Stops(known, lookupFails), pageSize, cap, searchFails, r)
              && (pageSize > 0 && r.Success? ==> StopsRight(remote, known, lookupFails, cap * pageSize, r.value))
    {
      var pages := maxPages;
      if isFirstRun && pages > DEFAULT_FIRST_RUN_PAGES {
        pages := DEFAULT_FIRST_RUN_PAGES;
      }
      var cap := if pages < 0 then 0 else pages;
      r := FetchPages(remote, known, lookupFails, searchFails, cap);
      PagesAnswer(remote, Stops(known, lookupFails), pageSize, cap, searchFails);
      if pageSize > 0 && r.Success? {
        SpecStopsRight(remote, known, lookupFails, pageSize, cap, r.value);
      }
    }
  }

  /** The new listings are those before the first one whose look-up worked and found it, among the first n;
      and the reason is the one that held there. */
  predicate StopsRight(remote: seq<Item>, known: Item -> bool, lookupFails: Item -> bool, n: int, v: PageResult) {
    var k := |v.newListings|;
    && k <= |remote| && v.newListings == remote[..k] && k <= n
    && (forall i :: 0 <= i < k ==> lookupFails(remote[i]) || !known(remote[i]))
    && (match v.stoppedAt
        case KnownListing => k < |remote| && k < n && known(remote[k]) && !lookupFails(remote[k])
        case MaxPages => k == n && (n == 0 || n < |remote|)
        case NoMoreResults => k == |remote|)
  }

  lemma SpecStopsRight(remote: seq<Item>, known: Item -> bool, lookupFails: Item -> bool, pageSize: int, cap: nat,
                       v: PageResult)
    requires pageSize > 0 && PageSpec(remote, Stops(known, lookupFails), pageSize, cap, v)
    ensures StopsRight(remote, known, lookupFails, cap * pageSize, v)
  {
    var stops := Stops(known, lookupFails);
    StartIs(cap, pageSize);
    StartSign(cap, pageSize);
    TakeNewStops(Upto(remote, Start(cap, pageSize)), stops);
    forall i | 0 <= i < |v.newListings|
      ensures lookupFails(remote[i]) || !known(remote[i])
    {
      assert !stops(Upto(remote, Start(cap, pageSize))[i]);
    }
  }

  /** The page loop from a page on, with what was found before it. */
  function Pages(remote: seq<Item>, stops: Item -> bool, pageSize: int, cap: nat, searchFails: nat -> bool,
                 page: nat, list: seq<Item>): Result<PageResult, SearchError>
    requires page <= cap
    decreases cap - page
  {
    if page == cap then Success(PageResult(list, |list|, cap, MaxPages))
    else if searchFails(page) then Failure(SearchFailed(page))
    else
      var all := list + TakeNew(PageItems(remote, page, pageSize), stops);
      var stop := PageStop(remote, stops, pageSize, page);
      if stop.Some? then
        Success(PageResult(all, |all| + (if stop.value.KnownListing? then 1 else 0), page + 1, stop.value))
      else Pages(remote, stops, pageSize, cap, searchFails, page + 1, all)
  }

  // ------------------------------------------------------------ specification

  /** Where page number `page`, counted from 0, begins. */
  function Start(page: nat, pageSize: int): int {
    if page == 0 then 0 else Start(page - 1, pageSize) + pageSize
  }

  lemma {:induction false} StartIs(page: nat, pageSize: int)
    ensures Start(page, pageSize) == page * pageSize
  {
    if page > 0 {
      StartIs(page - 1, pageSize);
    }
  }

  /** The result is the take-while-unknown of the window that `cap` pages give; one more item was seen
      exactly when it stopped on a known one; the reason given is the true one; and no more pages were
      fetched than that took. */
  ghost predicate PageSpec(remote: seq<Item>, stops: Item -> bool, pageSize: int, cap: nat, v: PageResult) {
    var window := Upto(remote, Start(cap, pageSize));
    && v.newListings == TakeNew(window, stops)
    && (v.stoppedAt.KnownListing? <==> |v.newListings| < |window|)
    && (v.stoppedAt.NoMoreResults? <==> v.newListings == remote && cap > 0)
    && v.totalSeen == |v.newListings| + (if v.stoppedAt.KnownListing? then 1 else 0)
    && v.pagesUsed <= cap && v.totalSeen <= Start(v.pagesUsed, pageSize)
    && (v.pagesUsed > 1 ==> v.totalSeen > Start(v.pagesUsed - 1, pageSize))
  }

  /** Page p is fetched: everything before it exists and is new. */
  ghost predicate Reached(remote: seq<Item>, stops: Item -> bool, pageSize: int, p: nat) {
    && (p > 0 ==> Start(p, pageSize) < |remote|)
    && TakeNew(Upto(remote, Start(p, pageSize)), stops) == Upto(remote, Start(p, pageSize))
  }

  lemma {:induction false} StartGrows(page: nat, cap: nat, pageSize: int)
    requires pageSize > 0 && page <= cap
    ensures 0 <= Start(page, pageSize) <= Start(cap, pageSize)
    decreases cap
  {
    if page < cap {
      StartGrows(page, cap - 1, pageSize);
    } else if page > 0 {
      StartGrows(page - 1, cap - 1, pageSize);
    }
  }

  lemma {:induction false} StartSign(page: nat, pageSize: int)
    ensures if pageSize > 0 then Start(page, pageSize) >= 0 else Start(page, pageSize) <= 0
  {
    if page > 0 {
      StartSign(page - 1, pageSize);
    }
  }

  /** The window of the results that a page of a positive size covers. */
  function Tile(remote: seq<Item>, page: nat, pageSize: int): seq<Item>
    requires pageSize > 0
  {
    var off := Start(page, pageSize);
    remote[Clip(off, |remote|)..Clip(off + pageSize, |remote|)]
  }

  /** What the search returns for a page. A page size that is not positive makes the search use its own,
      and every offset the start. */
  function PageItems(remote: seq<Item>, page: nat, pageSize: int): seq<Item> {
    if pageSize <= 0 then Upto(remote, DEFAULT_SEARCH_LIMIT) else Tile(remote, page, pageSize)
  }

  predicate HasMore(remote: seq<Item>, page: nat, pageSize: int) {
    if pageSize <= 0 then DEFAULT_SEARCH_LIMIT < |remote| else Start(page, pageSize) + pageSize < |remote|
  }

  lemma PageFollows(remote: seq<Item>, page: nat, pageSize: int)
    requires pageSize > 0
    ensures Upto(remote, Start(page, pageSize)) + Tile(remote, page, pageSize)
            == Upto(remote, Start(page + 1, pageSize))
  {
    StartGrows(page, page, pageSize);
  }

  lemma EmptyPage(remote: seq<Item>, stops: Item -> bool, pageSize: int, cap: nat, page: nat)
    requires pageSize > 0 && page < cap && Reached(remote, stops, pageSize, page)
    requires Tile(remote, page, pageSize) == []
    ensures page == 0 && remote == []
    ensures PageSpec(remote, stops, pageSize, cap, PageResult([], 0, 1, NoMoreResults))
  {
    StartGrows(page, page, pageSize);
  }

  /** A page that holds a known item ends the run there. */
  lemma StoppedOnPage(remote: seq<Item>, stops: Item -> bool, pageSize: int, cap: nat, page: nat)
    requires pageSize > 0 && page < cap && Reached(remote, stops, pageSize, page)
    requires |TakeNew(Tile(remote, page, pageSize), stops)| < |Tile(remote, page, pageSize)|
    ensures var list := Upto(remote, Start(page, pageSize)) + TakeNew(Tile(remote, page, pageSize), stops);
            PageSpec(remote, stops, pageSize, cap, PageResult(list, |list| + 1, page + 1, KnownListing))
  {
    var items := Tile(remote, page, pageSize);
    var before := Upto(remote, Start(page, pageSize));
    PageFollows(remote, page, pageSize);
    TakeNewConcat(before, items, stops);
    StartGrows(page, page, pageSize);
    StartGrows(page + 1, cap, pageSize);
    StopsWithin(remote, Start(page + 1, pageSize), Start(cap, pageSize), stops);
    assert |before + TakeNew(items, stops)| < |before + items| <= |Upto(remote, Start(cap, pageSize))|;
  }

  /** A page without one leads to the next, or was the last of the results. */
  lemma PassedPage(remote: seq<Item>, stops: Item -> bool, pageSize: int, cap: nat, page: nat)
    requires pageSize > 0 && page < cap && Reached(remote, stops, pageSize, page)
    requires TakeNew(Tile(remote, page, pageSize), stops) == Tile(remote, page, pageSize) != []
    ensures Start(page, pageSize) + pageSize < |remote| ==> Reached(remote, stops, pageSize, page + 1)
    ensures Start(page, pageSize) + pageSize >= |remote| ==>
              PageSpec(remote, stops, pageSize, cap,
                       PageResult(Upto(remote, Start(page + 1, pageSize)), |Upto(remote, Start(page + 1, pageSize))|,
                                  page + 1, NoMoreResults))
  {
    PageFollows(remote, page, pageSize);
    TakeNewConcat(Upto(remote, Start(page, pageSize)), Tile(remote, page, pageSize), stops);
    StartGrows(page, page, pageSize);
    StartGrows(page + 1, cap, pageSize);
    if Start(page, pageSize) + pageSize >= |remote| {
      assert Upto(remote, Start(page + 1, pageSize)) == remote == Upto(remote, Start(cap, pageSize));
    }
  }

  /** After one more page: the whole result, if it was the last; or everything up to the next page. */
  ghost predicate Taken(remote: seq<Item>, stops: Item -> bool, pageSize: int, cap: nat, page: nat,
                        list: seq<Item>, seen: nat, stop: Option<StopReason>) {
    match stop
    case Some(reason) => PageSpec(remote, stops, pageSize, cap, PageResult(list, seen, page + 1, reason))
    case None => Reached(remote, stops, pageSize, page + 1) && list == Upto(remote, Start(page + 1, pageSize))
  }

  /** Whether the run ends on a page it reached, and why. */
  function PageStop(remote: seq<Item>, stops: Item -> bool, pageSize: int, page: nat): Option<StopReason> {
    var items := PageItems(remote, page, pageSize);
    if items == [] then Some(NoMoreResults)
    else if |TakeNew(items, stops)| < |items| then Some(KnownListing)
    else if !HasMore(remote, page, pageSize) then Some(NoMoreResults)
    else None
  }

  /** Why the run ends on a page of a positive size, if it does. */
  function TileStop(remote: seq<Item>, stops: Item -> bool, pageSize: int, page: nat): Option<StopReason>
    requires pageSize > 0
  {
    var items := Tile(remote, page, pageSize);
    if items == [] then Some(NoMoreResults)
    else if |TakeNew(items, stops)| < |items| then Some(KnownListing)
    else if Start(page, pageSize) + pageSize >= |remote| then Some(NoMoreResults)
    else None
  }

  lemma TakenPage(remote: seq<Item>, stops: Item -> bool, pageSize: int, cap: nat, page: nat,
                  list: seq<Item>, total: nat, stop: Option<StopReason>)
    requires pageSize > 0 && page < cap && Reached(remote, stops, pageSize, page)
    requires list == Upto(remote, Start(page, pageSize)) + TakeNew(Tile(remote, page, pageSize), stops)
    requires stop == TileStop(remote, stops, pageSize, page)
    requires total == |list| + (if stop == Some(KnownListing) then 1 else 0)
    ensures Taken(remote, stops, pageSize, cap, page, list, total, stop)
  {
    var items := Tile(remote, page, pageSize);
    if items == [] {
      EmptyPage(remote, stops, pageSize, cap, page);
      assert list == [];
    } else if |TakeNew(items, stops)| < |items| {
      StoppedOnPage(remote, stops, pageSize, cap, page);
    } else {
      assert TakeNew(items, stops) == items;
      PageFollows(remote, page, pageSize);
      PassedPage(remote, stops, pageSize, cap, page);
    }
  }

  function Repeat(items: seq<Item>, n: nat): seq<Item> {
    if n == 0 then [] else Repeat(items, n - 1) + items
  }

  /** The first results, all new, fill a page of the search's own size, and there are more. */
  predicate SameAgain(remote: seq<Item>, stops: Item -> bool) {
    var items := Upto(remote, 50);
    50 < |remote| && TakeNew(items, stops) == items
  }

  /** The result for a page size that is not positive: every page is the first results again, so if they
      are all new and more follow, they are reported once a page until the pages run out; otherwise
      the first page ends the run, for the true reason. */
  ghost predicate RepeatSpec(remote: seq<Item>, stops: Item -> bool, cap: nat, v: PageResult) {
    var items := Upto(remote, 50);
    var found := TakeNew(items, stops);
    if cap == 0 then v == PageResult([], 0, 0, MaxPages)
    else if SameAgain(remote, stops) then
      v == PageResult(Repeat(items, cap), |Repeat(items, cap)|, cap, MaxPages)
    else if |found| < |items| then v == PageResult(found, |found| + 1, 1, KnownListing)
    else v == PageResult(items, |items|, 1, NoMoreResults)
  }

  predicate NoRepeats(items: seq<Item>) {
    forall i, j :: 0 <= i < j < |items| ==> items[i] != items[j]
  }

  /** When the result lists nothing twice, for results without repeats and searches that all work. */
  lemma NothingListedTwiceExactly(remote: seq<Item>, stops: Item -> bool, pageSize: int, cap: nat, v: PageResult)
    requires NoRepeats(remote) && (if pageSize > 0 then PageSpec(remote, stops, pageSize, cap, v)
                                   else RepeatSpec(remote, stops, cap, v))
    ensures NoRepeats(v.newListings) <==> pageSize > 0 || cap <= 1 || !SameAgain(remote, stops)
  {
    var items := Upto(remote, DEFAULT_SEARCH_LIMIT);
    if pageSize <= 0 && SameAgain(remote, stops) && cap > 1 {
      RepeatsFirst(items, cap);
      assert v.newListings[0] == v.newListings[|items|];
    } else if pageSize <= 0 && SameAgain(remote, stops) && cap == 1 {
      assert Repeat(items, 1) == Repeat(items, 0) + items == items;
    }
  }

  lemma {:induction false} RepeatsFirst(items: seq<Item>, n: nat)
    requires n > 1 && items != []
    ensures |Repeat(items, n)| > |items| && Repeat(items, n)[0] == Repeat(items, n)[|items|] == items[0]
    decreases n
  {
    if n == 2 {
      assert Repeat(items, 1) == Repeat(items, 0) + items == items;
      assert Repeat(items, 2) == items + items;
    } else {
      RepeatsFirst(items, n - 1);
    }
  }

  const FIFTY_ONE: seq<Item> := seq(51, (i: nat) => i)

  /** Fifty-one new results, a page size of zero and two pages: the first fifty are listed twice. */
  lemma ZeroPageSizeListsTwice(v: PageResult)
    requires RepeatSpec(FIFTY_ONE, (i: Item) => false, 2, v)
    ensures |v.newListings| == 100 && v.newListings[0] == v.newListings[50] == 0
  {
    var stops := (i: Item) => false;
    var items := Upto(FIFTY_ONE, DEFAULT_SEARCH_LIMIT);
    TakeNewIs(items, 50, stops);
    assert items[..50] == items;
    assert SameAgain(FIFTY_ONE, stops);
    RepeatsFirst(items, 2);
    assert Repeat(items, 1) == Repeat(items, 0) + items;
  }

  /** A result meets PageSpec after searches that all worked; a failure names the search that failed,
      at a page the run had reached. */
  ghost predicate Answer(remote: seq<Item>, stops: Item -> bool, pageSize: int, cap: nat, searchFails: nat -> bool,
                         r: Result<PageResult, SearchError>) {
    match r
    case Success(v) =>
      && (if pageSize > 0 then PageSpec(remote, stops, pageSize, cap, v) else RepeatSpec(remote, stops, cap, v))
      && AllWork(searchFails, v.pagesUsed)
    case Failure(e) =>
      && e.page < cap && searchFails(e.page) && AllWork(searchFails, e.page)
      && (if pageSize > 0 then Reached(remote, stops, pageSize, e.page)
          else e.page > 0 ==> SameAgain(remote, stops))
  }

  ghost predicate AllWork(searchFails: nat -> bool, n: nat) {
    forall p :: 0 <= p < n ==> !searchFails(p)
  }

  lemma SamePage(remote: seq<Item>, stops: Item -> bool, pageSize: int, cap: nat, page: nat, before: seq<Item>,
                 list: seq<Item>, total: nat, stop: Option<StopReason>)
    requires pageSize <= 0 && page < cap && (page > 0 ==> SameAgain(remote, stops))
    requires before == Repeat(Upto(remote, DEFAULT_SEARCH_LIMIT), page)
    requires list == before + TakeNew(Upto(remote, DEFAULT_SEARCH_LIMIT), stops)
    requires stop == PageStop(remote, stops, pageSize, page)
    requires total == |list| + (if stop == Some(KnownListing) then 1 else 0)
    ensures stop.None? ==> SameAgain(remote, stops) && list == Repeat(Upto(remote, DEFAULT_SEARCH_LIMIT), page + 1)
    ensures stop.Some? ==> RepeatSpec(remote, stops, cap, PageResult(list, total, page + 1, stop.value))
  {
    var items := Upto(remote, DEFAULT_SEARCH_LIMIT);
    assert |TakeNew(items, stops)| == |items| ==> TakeNew(items, stops) == items;
    if page == 0 {
      assert list == TakeNew(items, stops);
    }
  }

  /** What a run with a positive page size holds when it comes to a page. */
  ghost predicate SoFar(remote: seq<Item>, stops: Item -> bool, pageSize: int, page: nat, list: seq<Item>) {
    Reached(remote, stops, pageSize, page) && list == Upto(remote, Start(page, pageSize))
  }

  lemma {:induction false} TiledPagesAnswer(remote: seq<Item>, stops: Item -> bool, pageSize: int, cap: nat,
                                            searchFails: nat -> bool, page: nat, list: seq<Item>)
    requires pageSize > 0 && page <= cap && AllWork(searchFails, page) && SoFar(remote, stops, pageSize, page, list)
    ensures Answer(remote, stops, pageSize, cap, searchFails,
                   Pages(remote, stops, pageSize, cap, searchFails, page, list))
    decreases cap - page
  {
    if page == cap {
      OutOfPages(remote, stops, pageSize, cap);
    } else if !searchFails(page) {
      assert AllWork(searchFails, page + 1);
      var all := list + TakeNew(Tile(remote, page, pageSize), stops);
      var stop := TileStop(remote, stops, pageSize, page);
      assert PageStop(remote, stops, pageSize, page) == stop;
      TakenPage(remote, stops, pageSize, cap, page, all, |all| + (if stop == Some(KnownListing) then 1 else 0), stop);
      if stop.None? {
        TiledPagesAnswer(remote, stops, pageSize, cap, searchFails, page + 1, all);
      }
    }
  }

  lemma {:induction false} SamePagesAnswer(remote: seq<Item>, stops: Item -> bool, pageSize: int, cap: nat,
                                           searchFails: nat -> bool, page: nat, list: seq<Item>)
    requires pageSize <= 0 && page <= cap && AllWork(searchFails, page) && (page > 0 ==> SameAgain(remote, stops))
    requires list == Repeat(Upto(remote, DEFAULT_SEARCH_LIMIT), page)
    ensures Answer(remote, stops, pageSize, cap, searchFails,
                   Pages(remote, stops, pageSize, cap, searchFails, page, list))
    decreases cap - page
  {
    if page < cap && !searchFails(page) {
      assert AllWork(searchFails, page + 1);
      var all := list + TakeNew(PageItems(remote, page, pageSize), stops);
      var stop := PageStop(remote, stops, pageSize, page);
      SamePage(remote, stops, pageSize, cap, page, list, all,
               |all| + (if stop == Some(KnownListing) then 1 else 0), stop);
      if stop.None? {
        SamePagesAnswer(remote, stops, pageSize, cap, searchFails, page + 1, all);
      }
    }
  }

  lemma PagesAnswer(remote: seq<Item>, stops: Item -> bool, pageSize: int, cap: nat, searchFails: nat -> bool)
    ensures Answer(remote, stops, pageSize, cap, searchFails, Pages(remote, stops, pageSize, cap, searchFails, 0, []))
  {
    if pageSize > 0 {
      assert Upto(remote, Start(0, pageSize)) == [];
      TiledPagesAnswer(remote, stops, pageSize, cap, searchFails, 0, []);
    } else {
      SamePagesAnswer(remote, stops, pageSize, cap, searchFails, 0, []);
    }
  }

  lemma OutOfPages(remote: seq<Item>, stops: Item -> bool, pageSize: int, cap: nat)
    requires pageSize > 0 && Reached(remote, stops, pageSize, cap)
    ensures var list := Upto(remote, Start(cap, pageSize));
            PageSpec(remote, stops, pageSize, cap, PageResult(list, |list|, cap, MaxPages))
  {
    StartGrows(cap, cap, pageSize);
    if cap > 0 {
      StartGrows(cap - 1, cap, pageSize);
    }
  }

  /** Stopping within the first n items is stopping at the same place within more of them. */
  lemma StopsWithin(items: seq<Item>, n: nat, more: nat, known: Item -> bool)
    requires n <= more && |TakeNew(Upto(items, n), known)| < |Upto(items, n)|
    ensures TakeNew(Upto(items, more), known) == TakeNew(Upto(items, n), known)
  {
    var xs, ys := Upto(items, n), Upto(items, more);
    var k := |TakeNew(xs, known)|;
    TakeNewStops(xs, known);
    assert forall i :: 0 <= i <= k ==> ys[i] == xs[i];
    TakeNewIs(ys, k, known);
  }
}
