/** The page walk of `scrape_category`: fetch the starting page, then one
    page after another until the requested number of additional pages is
    reached or a page is missing. */
module CategoryWalk {
  import opened Wrappers
  import opened Site

  /** The response to page `n` of some category. */
  type Pages = int -> Response

  /** `requests.get(base_url + str(n) + '/')`: page `n` of a category. */
  function CategoryPage(fetch: Fetch, category: string): Pages {
    n => fetch(CategoryPageUrl(category, n))
  }

  /** Page `limit`, some page after page `count`, is missing (its status
      is 400 or more): a walk on from `count` meets a missing page. */
  predicate MissingAfter(page: Pages, count: int, limit: int) {
    count < limit && page(limit).status >= 400
  }

  /** The pages the loop collects once it has reached page `count`: none
      when `count` is the last page asked for, none when the next page is
      missing, and otherwise the next page and the pages after it. */
  function Walk(page: Pages, count: int, target: int, limit: int): seq<Response>
    requires count <= target || MissingAfter(page, count, limit)
    decreases if count <= target then target - count else limit - count
  {
    if count == target then []
    else if page(count + 1).status >= 400 then []
    else [page(count + 1)] + Walk(page, count + 1, target, limit)
  }

  /** The category pages `scrape_category` collects: an error when the
      starting page is missing, otherwise the starting page and the pages
      the walk finds after it. `additional_pages < 0` asks for every page
      up to the first missing one, so when the starting page is present some
      page after it must be missing (`limit`). */
  function CategoryPages(page: Pages, start: int, additional: int, limit: int): Result<seq<Response>>
    requires additional >= 0 || page(start).status >= 400 || MissingAfter(page, start, limit)
  {
    if page(start).status >= 400 then Err(StartPageOutOfRange)
    else Ok([page(start)] + Walk(page, start, start + additional, limit))
  }

  /** The `while True` loop of `scrape_category`. Besides the pages it
      returns the page numbers it requested, in order: one at a time from
      the starting page on, nothing after a missing starting page, and one
      missing page more than it keeps when it stops at the end of the
      category. */
  method WalkCategory(fetch: Fetch, category: string, start: int, additional: int, ghost limit: int)
    returns (r: Result<seq<Response>>, requested: seq<int>)
    requires additional >= 0 || CategoryPage(fetch, category)(start).status >= 400 ||
             MissingAfter(CategoryPage(fetch, category), start, limit)
    ensures r == CategoryPages(CategoryPage(fetch, category), start, additional, limit)
    ensures forall k :: 0 <= k < |requested| ==> requested[k] == start + k
    ensures r.Err? ==> |requested| == 1
    ensures r.Ok? ==>
              |requested| == if additional >= 0 && |r.value| == additional + 1 then |r.value| else |r.value| + 1
  {
    var page := CategoryPage(fetch, category);
    var first := page(start);
    requested := [start];
    if first.status >= 400 {
      return Err(StartPageOutOfRange), requested;
    }
    ghost var target := start + additional;
    ghost var all := [first] + Walk(page, start, target, limit);
    var pages := [first];
    var count := start;
    while true
      invariant count <= target || MissingAfter(page, count, limit)
      invariant all == pages + Walk(page, count, target, limit)
      invariant start <= count && |pages| == count - start + 1 && |requested| == |pages|
      invariant forall k :: 0 <= k < |requested| ==> requested[k] == start + k
      decreases if count <= target then target - count else limit - count
    {
      if count == start + additional {
        assert pages == all;
        break;
      }
      WalkStep(page, count, target, limit);
      ghost var previous := count;
      count := count + 1;
      var next := page(count);
      requested := requested + [count];
      if next.status >= 400 {
        assert page(previous + 1).status >= 400;
        assert pages == all;
        assert previous != start + additional;
        return Ok(pages), requested;
      }
      pages := pages + [next];
    }
    return Ok(pages), requested;
  }

  // ---------- Lemmas

  /** One step of the walk from a page that is not the last one asked for. */
  lemma {:induction false} WalkStep(page: Pages, count: int, target: int, limit: int)
    requires count <= target || MissingAfter(page, count, limit)
    requires count != target
    ensures page(count + 1).status >= 400 ==> Walk(page, count, target, limit) == []
    ensures page(count + 1).status < 400 ==>
              (count + 1 <= target || MissingAfter(page, count + 1, limit)) &&
              (count > target ==> count + 1 <= limit) &&
              Walk(page, count, target, limit) ==
                [page(count + 1)] + Walk(page, count + 1, target, limit)
  {
  }

  /** Each page the walk collects is the next page in order, and present. */
  lemma {:induction false} WalkPages(page: Pages, count: int, target: int, limit: int)
    requires count <= target || MissingAfter(page, count, limit)
    ensures var w := Walk(page, count, target, limit);
            forall k :: 0 <= k < |w| ==>
              w[k] == page(count + 1 + k) && w[k].status < 400
    decreases if count <= target then target - count else limit - count
  {
    if count != target {
      WalkStep(page, count, target, limit);
      if page(count + 1).status < 400 {
        var rest := Walk(page, count + 1, target, limit);
        WalkPages(page, count + 1, target, limit);
        var w := Walk(page, count, target, limit);
        assert w == [page(count + 1)] + rest;
        forall k | 1 <= k < |w|
          ensures w[k] == page(count + 1 + k) && w[k].status < 400
        {
          assert w[k] == rest[k - 1];
        }
      }
    }
  }

  /** The walk stops at the last page asked for or at the first missing page. */
  lemma {:induction false} WalkStops(page: Pages, count: int, target: int, limit: int)
    requires count <= target || MissingAfter(page, count, limit)
    ensures var w := Walk(page, count, target, limit);
            (count <= target ==> |w| <= target - count) &&
            ((count <= target && |w| == target - count) || page(count + 1 + |w|).status >= 400)
    decreases if count <= target then target - count else limit - count
  {
    if count != target {
      WalkStep(page, count, target, limit);
      if page(count + 1).status < 400 {
        var rest := Walk(page, count + 1, target, limit);
        WalkStops(page, count + 1, target, limit);
        assert |Walk(page, count, target, limit)| == |rest| + 1;
      }
    }
  }

  /** The walk collects the pages right after `count`, each present, and
      stops at the last page asked for or at the first missing page. */
  lemma {:induction false} WalkSpec(page: Pages, count: int, target: int, limit: int)
    requires count <= target || MissingAfter(page, count, limit)
    ensures var w := Walk(page, count, target, limit);
            (forall k :: 0 <= k < |w| ==>
               w[k] == page(count + 1 + k) && w[k].status < 400) &&
            (count <= target ==> |w| <= target - count) &&
            ((count <= target && |w| == target - count) || page(count + 1 + |w|).status >= 400)
  {
    WalkPages(page, count, target, limit);
    WalkStops(page, count, target, limit);
  }

  /** The collected pages are the starting page and the pages after it,
      in order and all present; there are at most `additional_pages + 1`
      of them when that is not negative, and the walk stopped either
      because it had them all or because the next page is missing. The
      call fails, with nothing collected, exactly when the starting page
      is missing. */
  lemma {:induction false} CategoryPagesSpec(page: Pages, start: int, additional: int, limit: int)
    requires additional >= 0 || page(start).status >= 400 || MissingAfter(page, start, limit)
    ensures var r := CategoryPages(page, start, additional, limit);
            (r.Err? <==> page(start).status >= 400) &&
            (r.Err? ==> r.error == StartPageOutOfRange)
    ensures var r := CategoryPages(page, start, additional, limit);
            r.Ok? ==>
              var ps := r.value;
              |ps| >= 1 &&
              (forall k :: 0 <= k < |ps| ==> ps[k] == page(start + k) && ps[k].status < 400) &&
              (additional >= 0 ==> |ps| <= additional + 1) &&
              ((additional >= 0 && |ps| == additional + 1) || page(start + |ps|).status >= 400)
  {
    var r := CategoryPages(page, start, additional, limit);
    if r.Ok? {
      WalkSpec(page, start, start + additional, limit);
      var w := Walk(page, start, start + additional, limit);
      var ps := r.value;
      assert ps == [page(start)] + w;
      forall k | 1 <= k < |ps| ensures ps[k] == page(start + k) {
        assert ps[k] == w[k - 1];
      }
    }
  }

  /** By default (`additional_pages = 0`) only the starting page is collected. */
  lemma {:induction false} OnlyStartPage(page: Pages, start: int, limit: int)
    ensures var r := CategoryPages(page, start, 0, limit);
            r.Ok? ==> r.value == [page(start)]
  {
  }

  /** A category whose page 3 is missing and whose other pages answer. */
  function GapPages(present: Response, missing: Response): Pages {
    n => if n == 3 then missing else present
  }

  /** Asked for every page from page 1, the walk stops at the missing page
      3 although the pages after it answer again. */
  lemma {:induction false} StopsAtGap(present: Response, missing: Response)
    requires present.status < 400 <= missing.status
    ensures CategoryPages(GapPages(present, missing), 1, -1, 3) == Ok([present, present])
  {
    var page := GapPages(present, missing);
    assert page(1) == page(2) == present && page(3) == missing;
    assert Walk(page, 2, 0, 3) == [];
    assert Walk(page, 1, 0, 3) == [present];
    assert CategoryPages(page, 1, -1, 3) == Ok([page(1)] + Walk(page, 1, 0, 3));
    assert [present] + [present] == [present, present];
  }

  /** A category whose page 1 is missing and whose other pages answer. */
  function StartMissingPages(present: Response, missing: Response): Pages {
    n => if n == 1 then missing else present
  }

  /** A missing starting page raises before the walk, even when every page
      is asked for and no later page is missing. */
  lemma {:induction false} MissingStartRaises(present: Response, missing: Response, limit: int)
    requires present.status < 400 <= missing.status
    ensures CategoryPages(StartMissingPages(present, missing), 1, -1, limit) == Err(StartPageOutOfRange)
  {
    assert StartMissingPages(present, missing)(1) == missing;
  }
}
