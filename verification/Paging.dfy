/** Walking a paginated endpoint, `apps/admin-web/src/lib/paging.ts`. */
module Paging {
  import opened Common

  const MAX_PAGE_SIZE := 100
  const DEFAULT_MAX_PAGES := 100

  datatype Page<T> = Page(data: seq<T>, total: int)

  datatype WalkOptions = WalkOptions(limit: Option<int>, maxPages: Option<int>)

  function Limit(o: WalkOptions): (limit: int)
    ensures 1 <= limit <= MAX_PAGE_SIZE
    ensures o.limit.None? ==> limit == 100
    ensures o.limit.Some? ==>
              limit == if o.limit.value < 1 then 1 else if o.limit.value > 100 then 100 else o.limit.value
  {
    Min(Max(1, if o.limit.Some? then o.limit.value else MAX_PAGE_SIZE), MAX_PAGE_SIZE)
  }

  function MaxPages(o: WalkOptions): (pages: int)
    ensures 1 <= pages
    ensures pages == if o.maxPages.None? then 100 else if o.maxPages.value < 1 then 1 else o.maxPages.value
  {
    Max(1, if o.maxPages.Some? then o.maxPages.value else DEFAULT_MAX_PAGES)
  }

  /** A server: what it answers for each page number and limit. */
  type Server<!T> = (int, int) -> Page<T>

  /** What a visitor answers: the new accumulator, and whether to go on. */
  datatype Visited<A> = Visited(acc: A, goOn: bool)

  type Visitor<!A, !T> = (A, seq<T>) -> Visited<A>

  /** What a walk ends with: the last accumulator, and the fetches made. */
  datatype Outcome<A> = Outcome(acc: A, fetches: int)

  function Later<A>(outcome: Outcome<A>, made: int): Outcome<A> {
    Outcome(outcome.acc, made + outcome.fetches)
  }

  predicate Exhausted(rows: nat, limit: int, seen: int, total: int) {
    rows == 0 || rows < limit || seen >= total
  }

  /** The walk from `page` on, having `seen` so many rows. */
  function Walk<A, T>(server: Server<T>, visit: Visitor<A, T>, limit: int, maxPages: int,
                      page: int, seen: int, acc: A): Outcome<A>
    decreases maxPages - page
  {
    var result := server(page, limit);
    var visited := visit(acc, result.data);
    var seenNow := seen + |result.data|;
    if !visited.goOn || Exhausted(|result.data|, limit, seenNow, result.total) || page >= maxPages
        then Outcome(visited.acc, 1)
    else Later(Walk(server, visit, limit, maxPages, page + 1, seenNow, visited.acc), 1)
  }

  lemma WalkStep<A, T>(server: Server<T>, visit: Visitor<A, T>, limit: int, maxPages: int,
                       page: int, seen: int, acc: A)
    ensures var Page(rows, total) := server(page, limit);
            var visited := visit(acc, rows);
            Walk(server, visit, limit, maxPages, page, seen, acc) ==
            if !visited.goOn || |rows| == 0 || |rows| < limit || seen + |rows| >= total || page >= maxPages
            then Outcome(visited.acc, 1)
            else Later(Walk(server, visit, limit, maxPages, page + 1, seen + |rows|, visited.acc), 1)
  {
  }

  /** Against any server whatsoever the walk ends within the page cap. */
  method WalkPages<A, T>(server: Server<T>, visit: Visitor<A, T>, init: A, o: WalkOptions)
    returns (acc: A, fetches: nat)
    ensures Outcome(acc, fetches) == Walk(server, visit, Limit(o), MaxPages(o), 1, 0, init)
    ensures 1 <= fetches <= MaxPages(o)
  {
    var limit, maxPages := Limit(o), MaxPages(o);
    var page, seen := 1, 0;
    acc, fetches := init, 0;
    while true
      invariant 1 <= page <= maxPages && fetches == page - 1
      invariant Walk(server, visit, limit, maxPages, 1, 0, init) ==
                Later(Walk(server, visit, limit, maxPages, page, seen, acc), fetches)
      decreases maxPages - page
    {
      var result := server(page, limit);
      var rows := result.data;
      seen := seen + |rows|;
      var visited := visit(acc, rows);
      acc, fetches := visited.acc, fetches + 1;
      if !visited.goOn {
        return;
      }
      if Exhausted(|rows|, limit, seen, result.total) || page >= maxPages {
        return;
      }
      page := page + 1;
    }
  }

  function Collecting<T>(all: seq<T>, rows: seq<T>): Visited<seq<T>> {
    Visited(all + rows, true)
  }

  method CollectPages<T>(server: Server<T>, o: WalkOptions) returns (all: seq<T>, fetches: nat)
    ensures Outcome(all, fetches) == Walk(server, Collecting<T>, Limit(o), MaxPages(o), 1, 0, [])
  {
    all, fetches := WalkPages(server, Collecting<T>, [], o);
  }

  function Find<T>(rows: seq<T>, matches: T -> bool): Option<T> {
    if rows == [] then None else if matches(rows[0]) then Some(rows[0]) else Find(rows[1..], matches)
  }

  function Finding<T>(matches: T -> bool): Visitor<Option<T>, T> {
    (found: Option<T>, rows: seq<T>) =>
      var hit := Find(rows, matches);
      if hit.None? then Visited(found, true) else Visited(hit, false)
  }

  method FindInPages<T>(server: Server<T>, matches: T -> bool, o: WalkOptions) returns (found: Option<T>, fetches: nat)
    ensures Outcome(found, fetches) == Walk(server, Finding(matches), Limit(o), MaxPages(o), 1, 0, None)
  {
    found, fetches := WalkPages(server, Finding(matches), None, o);
  }

  // ---- against a server with a fixed list -----------------------------------------------------

  /** The `k`-th page of a list: `k` pages of `limit` rows are skipped, at most `limit` served. */
  function Slice<T>(list: seq<T>, limit: int, k: int): seq<T>
    requires limit > 0 && k >= 1
  {
    if k == 1 then list[..Min(limit, |list|)]
    else Slice(list[Min(limit, |list|)..], limit, k - 1)
  }

  predicate ServesPage<T(==)>(server: Server<T>, list: seq<T>, limit: int, k: int)
    requires limit > 0 && k >= 1
  {
    server(k, limit) == Page(Slice(list, limit, k), |list|)
  }

  ghost predicate Serves<T(!new)>(server: Server<T>, list: seq<T>, limit: int)
    requires limit > 0
  {
    forall k :: k >= 1 ==> ServesPage(server, list, limit, k)
  }

  /** The rows left after `k` pages. */
  function After<T>(list: seq<T>, limit: int, k: int): seq<T>
    requires limit > 0 && k >= 0
    decreases k
  {
    if k == 0 then list else After(list[Min(limit, |list|)..], limit, k - 1)
  }

  lemma {:induction false} SliceOfAfter<T>(list: seq<T>, limit: int, k: int)
    requires limit > 0 && k >= 0
    ensures Slice(list, limit, k + 1) == After(list, limit, k)[..Min(limit, |After(list, limit, k)|)]
    ensures After(list, limit, k + 1) == After(list, limit, k)[Min(limit, |After(list, limit, k)|)..]
    ensures |After(list, limit, k)| <= |list|
    decreases k
  {
    if k > 0 {
      SliceOfAfter(list[Min(limit, |list|)..], limit, k - 1);
    }
  }

  /** The first `pages` pages of a list, put together. */
  function Visible<T>(list: seq<T>, limit: int, pages: int): seq<T>
    requires limit > 0 && pages >= 0
    decreases pages
  {
    if pages == 0 then []
    else list[..Min(limit, |list|)] + Visible(list[Min(limit, |list|)..], limit, pages - 1)
  }

  lemma {:induction false} VisibleIsPrefix<T>(list: seq<T>, limit: int, pages: int)
    requires limit > 0 && pages >= 0
    ensures pages * limit >= 0
    ensures Visible(list, limit, pages) == list[..Min(|list|, pages * limit)]
    decreases pages
  {
    if pages > 0 {
      var m := Min(limit, |list|);
      VisibleIsPrefix(list[m..], limit, pages - 1);
      assert (pages - 1) * limit + limit == pages * limit;
      assert list[..Min(|list|, pages * limit)] == list[..m] + list[m..][..Min(|list| - m, (pages - 1) * limit)];
    }
  }

  lemma VisibleOfEmpty<T>(limit: int, pages: int)
    requires limit > 0 && pages >= 0
    ensures Visible<T>([], limit, pages) == []
  {
    VisibleIsPrefix<T>([], limit, pages);
  }

  /** One page of a walk over a fixed list: what it serves, and whether the walk must stop after it. */
  lemma PageOfWalk<T(!new)>(server: Server<T>, list: seq<T>, limit: int, page: int)
    requires limit > 0 && page >= 1 && Serves(server, list, limit)
    ensures var rest := After(list, limit, page - 1);
            && server(page, limit) == Page(rest[..Min(limit, |rest|)], |list|)
            && After(list, limit, page) == rest[Min(limit, |rest|)..]
            && |rest| <= |list|
  {
    assert ServesPage(server, list, limit, page);
    SliceOfAfter(list, limit, page - 1);
  }

  /** With `rest` rows still to serve: whether this page is the last one the walk takes. */
  predicate LastPage(rest: nat, limit: int, page: int, maxPages: int) {
    rest <= limit || page >= maxPages
  }

  /** One unfolding of a collection. */
  lemma CollectStep<T(!new)>(server: Server<T>, list: seq<T>, limit: int, maxPages: int, page: int, all: seq<T>)
    requires limit > 0 && page >= 1 && Serves(server, list, limit)
    ensures var rest, after := After(list, limit, page - 1), After(list, limit, page);
            var rows := rest[..Min(limit, |rest|)];
            && after == rest[Min(limit, |rest|)..]
            && Walk(server, Collecting<T>, limit, maxPages, page, |list| - |rest|, all) ==
               if LastPage(|rest|, limit, page, maxPages) then Outcome(all + rows, 1)
               else Later(Walk(server, Collecting<T>, limit, maxPages, page + 1, |list| - |after|, all + rows), 1)
  {
    PageOfWalk(server, list, limit, page);
  }

  /** What may be seen from a page on: its rows, then what may be seen after it. */
  lemma VisibleStep<T>(list: seq<T>, limit: int, pages: int)
    requires limit > 0 && pages >= 1
    ensures var m := Min(limit, |list|);
            && Visible(list, limit, pages) == list[..m] + Visible(list[m..], limit, pages - 1)
            && (LastPage(|list|, limit, 1, pages) ==> Visible(list, limit, pages) == list[..m])
  {
    var m := Min(limit, |list|);
    if |list| <= limit {
      assert list[m..] == [];
      VisibleOfEmpty<T>(limit, pages - 1);
    }
    assert list[..m] + [] == list[..m];
  }

  lemma {:induction false} CollectWalk<T(!new)>(server: Server<T>, list: seq<T>, limit: int, maxPages: int,
                                page: int, all: seq<T>)
    requires limit > 0 && 1 <= page <= maxPages && Serves(server, list, limit)
    ensures var rest := After(list, limit, page - 1);
            Walk(server, Collecting<T>, limit, maxPages, page, |list| - |rest|, all).acc ==
            all + Visible(rest, limit, maxPages - page + 1)
    decreases maxPages - page
  {
    var rest := After(list, limit, page - 1);
    var rows, after := rest[..Min(limit, |rest|)], After(list, limit, page);
    CollectStep(server, list, limit, maxPages, page, all);
    VisibleStep(rest, limit, maxPages - page + 1);
    if !LastPage(|rest|, limit, page, maxPages) {
      CollectWalk(server, list, limit, maxPages, page + 1, all + rows);
      var later := Visible(after, limit, maxPages - page);
      assert (all + rows) + later == all + (rows + later);
    }
  }

  lemma CollectsVisible<T(!new)>(server: Server<T>, list: seq<T>, limit: int, pages: int)
    requires limit > 0 && pages >= 1 && Serves(server, list, limit)
    ensures Walk(server, Collecting<T>, limit, pages, 1, 0, []).acc == Visible(list, limit, pages)
  {
    CollectWalk(server, list, limit, pages, 1, []);
    assert After(list, limit, 0) == list;
    assert [] + Visible(list, limit, pages) == Visible(list, limit, pages);
  }

  /**
   * Against a server holding a fixed list, the collected rows are the list in order, cut at the page cap:
   * so they are the whole list exactly when it fits under the cap.
   */
  lemma CollectsTheList<T(!new)>(server: Server<T>, list: seq<T>, o: WalkOptions)
    requires Serves(server, list, Limit(o))
    ensures var all := Walk(server, Collecting<T>, Limit(o), MaxPages(o), 1, 0, []).acc;
            && MaxPages(o) * Limit(o) >= 0
            && all == list[..Min(|list|, MaxPages(o) * Limit(o))]
            && (all == list <==> |list| <= MaxPages(o) * Limit(o))
  {
    CollectsVisible(server, list, Limit(o), MaxPages(o));
    VisibleIsPrefix(list, Limit(o), MaxPages(o));
  }

  /** The position of the first match, or the length. */
  function FirstMatch<T>(rows: seq<T>, matches: T -> bool): (i: nat)
    ensures i <= |rows|
    ensures i < |rows| ==> matches(rows[i])
    ensures forall j :: 0 <= j < i ==> !matches(rows[j])
  {
    if rows == [] || matches(rows[0]) then 0 else 1 + FirstMatch(rows[1..], matches)
  }

  lemma {:induction false} FindIsFirstMatch<T>(rows: seq<T>, matches: T -> bool)
    ensures Find(rows, matches) ==
            if FirstMatch(rows, matches) < |rows| then Some(rows[FirstMatch(rows, matches)]) else None
  {
    if rows != [] {
      FindIsFirstMatch(rows[1..], matches);
    }
  }

  lemma FirstMatchConcat<T>(a: seq<T>, b: seq<T>, matches: T -> bool)
    ensures FirstMatch(a + b, matches) ==
            if FirstMatch(a, matches) < |a| then FirstMatch(a, matches) else |a| + FirstMatch(b, matches)
  {
    var i, j, k := FirstMatch(a, matches), FirstMatch(b, matches), FirstMatch(a + b, matches);
    assert forall x :: 0 <= x < |a| ==> (a + b)[x] == a[x];
    assert forall x :: 0 <= x < |b| ==> (a + b)[|a| + x] == b[x];
    if i < |a| {
      assert matches((a + b)[i]);
    } else if j < |b| {
      assert matches((a + b)[|a| + j]);
      assert k >= |a|;
      assert k == |a| + (k - |a|);
    } else {
      assert k == |a| + (k - |a|);
    }
  }

  /** The number of the page that holds position `i`. */
  function PageOf(i: nat, limit: int): nat
    requires limit > 0
  {
    if i < limit then 1 else 1 + PageOf(i - limit, limit)
  }

  /** One unfolding of a search: a page with a match ends it, and so does the last page. */
  lemma SearchStep<T(!new)>(server: Server<T>, list: seq<T>, matches: T -> bool, limit: int, maxPages: int, page: int)
    requires limit > 0 && page >= 1 && Serves(server, list, limit)
    ensures var rest, after := After(list, limit, page - 1), After(list, limit, page);
            var rows := rest[..Min(limit, |rest|)];
            && after == rest[Min(limit, |rest|)..]
            && Walk(server, Finding(matches), limit, maxPages, page, |list| - |rest|, None) ==
               if Find(rows, matches).Some? then Outcome(Find(rows, matches), 1)
               else if LastPage(|rest|, limit, page, maxPages) then Outcome(None, 1)
               else Later(Walk(server, Finding(matches), limit, maxPages, page + 1, |list| - |after|, None), 1)
  {
    PageOfWalk(server, list, limit, page);
  }

  /** What a search must answer over the rows it may see. */
  function Answer<T>(visible: seq<T>, matches: T -> bool): Option<T> {
    var i := FirstMatch(visible, matches);
    if i < |visible| then Some(visible[i]) else None
  }

  lemma AnswerConcat<T>(rows: seq<T>, later: seq<T>, matches: T -> bool)
    ensures Find(rows, matches).Some? ==>
              Answer(rows + later, matches) == Find(rows, matches) && FirstMatch(rows + later, matches) < |rows|
    ensures Find(rows, matches).None? ==>
              Answer(rows + later, matches) == Answer(later, matches)
              && FirstMatch(rows + later, matches) == |rows| + FirstMatch(later, matches)
  {
    FirstMatchConcat(rows, later, matches);
    FindIsFirstMatch(rows, matches);
  }

  /** The right outcome of a search: the first visible match, and a stop at the page that holds it. */
  predicate Finds<T(==)>(outcome: Outcome<Option<T>>, visible: seq<T>, matches: T -> bool, limit: int)
    requires limit > 0
  {
    && outcome.acc == Answer(visible, matches)
    && (outcome.acc.Some? ==> outcome.fetches == PageOf(FirstMatch(visible, matches), limit))
  }

  lemma FoundHere<T>(rows: seq<T>, later: seq<T>, matches: T -> bool, limit: int)
    requires limit > 0 && |rows| <= limit && Find(rows, matches).Some?
    ensures Finds(Outcome(Find(rows, matches), 1), rows + later, matches, limit)
  {
    AnswerConcat(rows, later, matches);
  }

  lemma FoundNowhere<T>(rows: seq<T>, matches: T -> bool, limit: int)
    requires limit > 0 && Find(rows, matches).None?
    ensures Finds(Outcome(None, 1), rows, matches, limit)
  {
    FindIsFirstMatch(rows, matches);
  }

  lemma FoundLater<T>(rows: seq<T>, later: seq<T>, matches: T -> bool, limit: int, outcome: Outcome<Option<T>>)
    requires limit > 0 && |rows| == limit && Find(rows, matches).None?
    requires Finds(outcome, later, matches, limit)
    ensures Finds(Later(outcome, 1), rows + later, matches, limit)
  {
    AnswerConcat(rows, later, matches);
  }

  /** A page's own rows, then what the walk finds later. */
  lemma FoundOnPage<T>(rows: seq<T>, later: seq<T>, visible: seq<T>, matches: T -> bool, limit: int, last: bool,
                       here: Outcome<Option<T>>, next: Outcome<Option<T>>)
    requires limit > 0 && |rows| <= limit && (!last ==> |rows| == limit)
    requires visible == rows + later && (last ==> visible == rows)
    requires here == if Find(rows, matches).Some? then Outcome(Find(rows, matches), 1)
                     else if last then Outcome(None, 1) else Later(next, 1)
    requires !last ==> Finds(next, later, matches, limit)
    ensures Finds(here, visible, matches, limit)
  {
    if Find(rows, matches).Some? {
      FoundHere(rows, later, matches, limit);
    } else if last {
      FoundNowhere(rows, matches, limit);
    } else {
      FoundLater(rows, later, matches, limit, next);
    }
  }

  /** A walk from this page finds what it should if the walk from the next one does, where there is one. */
  lemma FindStep<T(!new)>(server: Server<T>, list: seq<T>, matches: T -> bool, limit: int, maxPages: int, page: int)
    requires limit > 0 && 1 <= page <= maxPages && Serves(server, list, limit)
    requires var rest, after := After(list, limit, page - 1), After(list, limit, page);
             LastPage(|rest|, limit, page, maxPages)
             || Finds(Walk(server, Finding(matches), limit, maxPages, page + 1, |list| - |after|, None),
                      Visible(after, limit, maxPages - page), matches, limit)
    ensures var rest := After(list, limit, page - 1);
            Finds(Walk(server, Finding(matches), limit, maxPages, page, |list| - |rest|, None),
                  Visible(rest, limit, maxPages - page + 1), matches, limit)
  {
    var rest, after := After(list, limit, page - 1), After(list, limit, page);
    var m, last := Min(limit, |rest|), LastPage(|rest|, limit, page, maxPages);
    var rows, later, visible := rest[..m], Visible(after, limit, maxPages - page),
        Visible(rest, limit, maxPages - page + 1);
    SearchStep(server, list, matches, limit, maxPages, page);
    VisibleStep(rest, limit, maxPages - page + 1);
    assert |rows| <= limit && (!last ==> |rows| == limit);
    assert visible == rows + later && (last ==> visible == rows);
    FoundOnPage(rows, later, visible, matches, limit, last,
                Walk(server, Finding(matches), limit, maxPages, page, |list| - |rest|, None),
                Walk(server, Finding(matches), limit, maxPages, page + 1, |list| - |after|, None));
  }

  /** The walk finds the first match among what it may see, on the page that holds it. */
  lemma {:induction false} FindWalk<T(!new)>(server: Server<T>, list: seq<T>, matches: T -> bool,
                                limit: int, maxPages: int, page: int)
    requires limit > 0 && 1 <= page <= maxPages && Serves(server, list, limit)
    ensures var rest := After(list, limit, page - 1);
            Finds(Walk(server, Finding(matches), limit, maxPages, page, |list| - |rest|, None),
                  Visible(rest, limit, maxPages - page + 1), matches, limit)
    decreases maxPages - page
  {
    var last := LastPage(|After(list, limit, page - 1)|, limit, page, maxPages);
    if !last {
      FindWalk(server, list, matches, limit, maxPages, page + 1);
    }
    FindStep(server, list, matches, limit, maxPages, page);
  }

  lemma FindsVisible<T(!new)>(server: Server<T>, list: seq<T>, matches: T -> bool, limit: int, pages: int)
    requires limit > 0 && pages >= 1 && Serves(server, list, limit)
    ensures Finds(Walk(server, Finding(matches), limit, pages, 1, 0, None), Visible(list, limit, pages), matches, limit)
  {
    FindWalk(server, list, matches, limit, pages, 1);
    assert After(list, limit, 0) == list;
  }

  /** `findInPages` answers the first match under the page cap, stopping at the page that holds it. */
  lemma FindsFirstMatch<T(!new)>(server: Server<T>, list: seq<T>, matches: T -> bool, o: WalkOptions)
    requires Serves(server, list, Limit(o))
    ensures MaxPages(o) * Limit(o) >= 0
    ensures var visible := list[..Min(|list|, MaxPages(o) * Limit(o))];
            Finds(Walk(server, Finding(matches), Limit(o), MaxPages(o), 1, 0, None), visible, matches, Limit(o))
  {
    FindsVisible(server, list, matches, Limit(o), MaxPages(o));
    VisibleIsPrefix(list, Limit(o), MaxPages(o));
  }

  // ---- against any server ---------------------------------------------------------------------

  /** Rows on the first `k` pages, whatever the server serves. */
  function Served<T>(server: Server<T>, limit: int, k: nat): seq<T> {
    if k == 0 then [] else Served(server, limit, k - 1) + server(k, limit).data
  }

  /** Page `k` is the last: it is short, it reaches the total the server claims, or it is at the cap. */
  predicate Stops<T>(server: Server<T>, limit: int, maxPages: int, k: nat)
    requires k >= 1
  {
    |server(k, limit).data| < limit || |Served(server, limit, k)| >= server(k, limit).total || k >= maxPages
  }

  lemma {:induction false} CollectFrom<T>(server: Server<T>, limit: int, maxPages: int, page: nat)
    requires limit >= 1 && 1 <= page <= maxPages
    ensures var before := Served(server, limit, page - 1);
            var r := Walk(server, Collecting<T>, limit, maxPages, page, |before|, before);
            var last := page + r.fetches - 1;
            && page <= last <= maxPages && Stops(server, limit, maxPages, last)
            && (forall k :: page <= k < last ==> !Stops(server, limit, maxPages, k))
            && r.acc == Served(server, limit, last)
    decreases maxPages - page
  {
    var before := Served(server, limit, page - 1);
    WalkStep(server, Collecting<T>, limit, maxPages, page, |before|, before);
    assert Served(server, limit, page) == before + server(page, limit).data;
    if !Stops(server, limit, maxPages, page) {
      CollectFrom(server, limit, maxPages, page + 1);
    }
  }

  /**
   * Against any server, however wrong its totals, the walk stops at the first page that is short, reaches the claimed
   * total or is at the cap, and what was collected is exactly the pages up to it.
   */
  lemma CollectsUntilItStops<T>(server: Server<T>, o: WalkOptions)
    ensures var r := Walk(server, Collecting<T>, Limit(o), MaxPages(o), 1, 0, []);
            && 1 <= r.fetches <= MaxPages(o) && Stops(server, Limit(o), MaxPages(o), r.fetches)
            && (forall k :: 1 <= k < r.fetches ==> !Stops(server, Limit(o), MaxPages(o), k))
            && r.acc == Served(server, Limit(o), r.fetches)
  {
    CollectFrom(server, Limit(o), MaxPages(o), 1);
  }

  lemma {:induction false} FindFrom<T>(server: Server<T>, matches: T -> bool, limit: int, maxPages: int, page: nat)
    requires limit >= 1 && 1 <= page <= maxPages
    ensures var r := Walk(server, Finding(matches), limit, maxPages, page, |Served(server, limit, page - 1)|, None);
            var last := page + r.fetches - 1;
            && page <= last <= maxPages && r.acc == Find(server(last, limit).data, matches)
            && (r.acc.Some? || Stops(server, limit, maxPages, last))
            && (forall k :: page <= k < last ==>
                  Find(server(k, limit).data, matches).None? && !Stops(server, limit, maxPages, k))
    decreases maxPages - page
  {
    var before := Served(server, limit, page - 1);
    WalkStep(server, Finding(matches), limit, maxPages, page, |before|, None);
    assert Served(server, limit, page) == before + server(page, limit).data;
    if Find(server(page, limit).data, matches).None? && !Stops(server, limit, maxPages, page) {
      FindFrom(server, matches, limit, maxPages, page + 1);
    }
  }

  /** And a search ends at the first page with a match or, without one, where a collection would. */
  lemma FindsUntilItStops<T>(server: Server<T>, matches: T -> bool, o: WalkOptions)
    ensures var r := Walk(server, Finding(matches), Limit(o), MaxPages(o), 1, 0, None);
            && 1 <= r.fetches <= MaxPages(o) && r.acc == Find(server(r.fetches, Limit(o)).data, matches)
            && (r.acc.Some? || Stops(server, Limit(o), MaxPages(o), r.fetches))
            && (forall k :: 1 <= k < r.fetches ==>
                  Find(server(k, Limit(o)).data, matches).None? && !Stops(server, Limit(o), MaxPages(o), k))
  {
    FindFrom(server, matches, Limit(o), MaxPages(o), 1);
  }
}
