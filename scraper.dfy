/** The entry points of the scraper, over a site given as a fetch
    function: `scrape_category`, `scrape_map`, `scrape_top` and
    `scrape_names`. */
module Scraper {
  import opened Wrappers
  import opened Document
  import opened Site
  import opened Profiles
  import ProfileParsing
  import Sorting
  import NameSearch
  import CategoryWalk
  import Seqs

  // ---------- What the strainers keep

  /** The strainer of `parse_profile`. */
  const MainQuery := ByAttr(None, "id", "single__main")

  /** The strainer of a search page: the lead result. */
  const LeadQuery := ByAttr(None, "class", "post_item anchored  search_result lead")

  /** The strainer of `get_profiles_from_list_in_page(page, target_id)`. */
  function ListQuery(targetId: string): Query {
    ByAttr(None, "id", targetId)
  }

  const CategoryList := "post_listing"
  const MapList := "cnwMaps_mainProfileList"
  const TopList := "top_100_list"

  // ---------- Profiles behind links

  /** The profile of the page at `url`. */
  function ProfileAt(fetch: Fetch, url: string, includeDescription: bool): Result<Profile> {
    ProfileParsing.ProfileOf(Kept(fetch(url).doc, MainQuery), includeDescription)
  }

  /** The parse of the page of each URL, in order. */
  function ProfileResults(fetch: Fetch, urls: seq<string>, includeDescription: bool): seq<Result<Profile>> {
    seq(|urls|, k requires 0 <= k < |urls| => ProfileAt(fetch, urls[k], includeDescription))
  }

  /** `[parse_profile(page["html"]) for page in get_pages(urls)]`: one
      profile per URL, in order, or the first error raised. */
  function ProfilesAt(fetch: Fetch, urls: seq<string>, includeDescription: bool): Result<seq<Profile>> {
    Collect(ProfileResults(fetch, urls, includeDescription))
  }

  /** `get_profiles_from_list_in_page`: the profiles behind the links of
      the strained list. */
  function ListedProfiles(fetch: Fetch, page: seq<Node>, targetId: string, includeDescription: bool): Result<seq<Profile>> {
    match LinkList(Strain(page, ListQuery(targetId)))
    case Err(e) => Err(e)
    case Ok(urls) => ProfilesAt(fetch, urls, includeDescription)
  }

  /** The links in the list of a page. */
  function ListedLinks(page: seq<Node>, targetId: string): seq<Node> {
    Select(Kept(page, ListQuery(targetId)), ByTag("a"))
  }

  /** A list page scraped and sorted: what `scrape_map` and `scrape_top` return. */
  function SortedListed(fetch: Fetch, page: seq<Node>, targetId: string, sortBy: string, ascending: bool, includeDescription: bool): Result<seq<Profile>> {
    match ListedProfiles(fetch, page, targetId, includeDescription)
    case Err(e) => Err(e)
    case Ok(ps) => Sorting.SortProfiles(ps, sortBy, ascending)
  }

  // ---------- scrape_category

  /** The list of each category page, page after page. */
  function PageLists(fetch: Fetch, pages: seq<Response>, includeDescription: bool): seq<Result<seq<Profile>>> {
    seq(|pages|, k requires 0 <= k < |pages| => ListedProfiles(fetch, pages[k].doc, CategoryList, includeDescription))
  }

  /** The profiles of the category pages, page after page. */
  function PagesProfiles(fetch: Fetch, pages: seq<Response>, includeDescription: bool): Result<seq<Profile>> {
    Join(PageLists(fetch, pages, includeDescription))
  }

  /** The number of links in the lists of the category pages. */
  function LinkCount(pages: seq<Response>): nat {
    if pages == [] then 0
    else LinkCount(pages[..|pages| - 1]) + |ListedLinks(pages[|pages| - 1].doc, CategoryList)|
  }

  /** `scrape_category(category, start, additional, sort_by, sort_ascending)`. */
  function Category(fetch: Fetch, category: string, start: int, additional: int, limit: int,
                    sortBy: string, ascending: bool, includeDescription: bool): Result<seq<Profile>>
    requires additional >= 0 || CategoryWalk.CategoryPage(fetch, category)(start).status >= 400 ||
             CategoryWalk.MissingAfter(CategoryWalk.CategoryPage(fetch, category), start, limit)
  {
    match CategoryWalk.CategoryPages(CategoryWalk.CategoryPage(fetch, category), start, additional, limit)
    case Err(e) => Err(e)
    case Ok(pages) =>
      match PagesProfiles(fetch, pages, includeDescription)
      case Err(e) => Err(e)
      case Ok(ps) => Sorting.SortProfiles(ps, sortBy, ascending)
  }

  /** The `profiles.extend(...)` loop of `scrape_category`. */
  method CollectPagesProfiles(fetch: Fetch, pages: seq<Response>, includeDescription: bool)
    returns (r: Result<seq<Profile>>)
    ensures r == PagesProfiles(fetch, pages, includeDescription)
  {
    ghost var lists := PageLists(fetch, pages, includeDescription);
    var profiles: seq<Profile> := [];
    var i := 0;
    while i < |pages|
      invariant 0 <= i <= |pages|
      invariant Join(lists[..i]) == Ok(profiles)
    {
      assert lists[..i + 1][..i] == lists[..i];
      var listed := ListedProfiles(fetch, pages[i].doc, CategoryList, includeDescription);
      assert lists[i] == listed;
      if listed.Err? {
        JoinErrPrefix(lists, i + 1);
        return Err(listed.error);
      }
      profiles := profiles + listed.value;
      i := i + 1;
    }
    assert lists[..i] == lists;
    r := Ok(profiles);
  }

  method ScrapeCategory(fetch: Fetch, category: string, start: int, additional: int, ghost limit: int,
                        sortBy: string, ascending: bool, includeDescription: bool)
    returns (r: Result<seq<Profile>>)
    requires additional >= 0 || CategoryWalk.CategoryPage(fetch, category)(start).status >= 400 ||
             CategoryWalk.MissingAfter(CategoryWalk.CategoryPage(fetch, category), start, limit)
    ensures r == Category(fetch, category, start, additional, limit, sortBy, ascending, includeDescription)
  {
    var pages, _ := CategoryWalk.WalkCategory(fetch, category, start, additional, limit);
    if pages.Err? {
      return Err(pages.error);
    }
    var profiles := CollectPagesProfiles(fetch, pages.value, includeDescription);
    if profiles.Err? {
      return Err(profiles.error);
    }
    r := Sorting.SortProfiles(profiles.value, sortBy, ascending);
  }

  // ---------- scrape_map and scrape_top

  /** `scrape_map(location, sort_by, sort_ascending)`: the profiles listed
      in the map page's profile list, one per link, possibly reordered. */
  function Map(fetch: Fetch, location: string, sortBy: string, ascending: bool, includeDescription: bool): (r: Result<seq<Profile>>)
    ensures var page := fetch(MapUrl(location)).doc;
            r.Ok? ==>
              ListedProfiles(fetch, page, MapList, includeDescription).Ok? &&
              multiset(r.value) == multiset(ListedProfiles(fetch, page, MapList, includeDescription).value) &&
              |r.value| == |ListedLinks(page, MapList)|
  {
    SortedListedSpec(fetch, fetch(MapUrl(location)).doc, MapList, sortBy, ascending, includeDescription);
    SortedListed(fetch, fetch(MapUrl(location)).doc, MapList, sortBy, ascending, includeDescription)
  }

  /** `scrape_top(category, sort_by, sort_ascending)`: the profiles listed
      in the top list of the category (of the world when there is none),
      one per link, possibly reordered. */
  function Top(fetch: Fetch, category: Option<string>, sortBy: string, ascending: bool, includeDescription: bool): (r: Result<seq<Profile>>)
    ensures var page := fetch(TopUrl(category)).doc;
            r.Ok? ==>
              ListedProfiles(fetch, page, TopList, includeDescription).Ok? &&
              multiset(r.value) == multiset(ListedProfiles(fetch, page, TopList, includeDescription).value) &&
              |r.value| == |ListedLinks(page, TopList)|
  {
    SortedListedSpec(fetch, fetch(TopUrl(category)).doc, TopList, sortBy, ascending, includeDescription);
    SortedListed(fetch, fetch(TopUrl(category)).doc, TopList, sortBy, ascending, includeDescription)
  }

  // ---------- scrape_names

  /** The strained search page of each URL. */
  function Leads(fetch: Fetch, urls: seq<string>): seq<NameSearch.LeadPage> {
    seq(|urls|, i requires 0 <= i < |urls| => Strain(fetch(urls[i]).doc, LeadQuery))
  }

  /** The profiles of the found URLs, sorted. */
  function FoundProfiles(fetch: Fetch, urls: seq<string>, sortBy: string, ascending: bool, includeDescription: bool): Result<seq<Profile>> {
    match ProfilesAt(fetch, urls, includeDescription)
    case Err(e) => Err(e)
    case Ok(ps) => Sorting.SortProfiles(ps, sortBy, ascending)
  }

  /** `scrape_names(names, sort_by, sort_ascending)` as the source has it:
      search page `i` is judged against `names[i]`. */
  function Names(fetch: Fetch, names: seq<string>, sortBy: string, ascending: bool, includeDescription: bool): Result<seq<Profile>> {
    var urls := NameSearch.Urls(NameSearch.Searches(names));
    NameSearch.SearchesNoMore(names);
    match NameSearch.AsWritten(names, Leads(fetch, urls))
    case Err(e) => Err(e)
    case Ok(state) => FoundProfiles(fetch, state.urls, sortBy, ascending, includeDescription)
  }

  /** `scrape_names` corrected: each search page judged against the query
      of its own search. */
  function NamesCorrected(fetch: Fetch, names: seq<string>, sortBy: string, ascending: bool, includeDescription: bool): Result<seq<Profile>> {
    var searches := NameSearch.Searches(names);
    match NameSearch.ProfileUrls(NameSearch.QueriesOf(searches), Leads(fetch, NameSearch.Urls(searches)))
    case Err(e) => Err(e)
    case Ok(urls) => FoundProfiles(fetch, urls, sortBy, ascending, includeDescription)
  }

  method ScrapeNames(fetch: Fetch, names: seq<string>, sortBy: string, ascending: bool, includeDescription: bool)
    returns (r: Result<seq<Profile>>)
    ensures r == Names(fetch, names, sortBy, ascending, includeDescription)
  {
    var searches := NameSearch.BuildSearches(names);
    var leads := Leads(fetch, NameSearch.Urls(searches));
    NameSearch.SearchesNoMore(names);
    var urls := NameSearch.CollectAsWritten(names, leads);
    if urls.Err? {
      return Err(urls.error);
    }
    var profiles := ProfilesAt(fetch, urls.value, includeDescription);
    if profiles.Err? {
      return Err(profiles.error);
    }
    r := Sorting.SortProfiles(profiles.value, sortBy, ascending);
  }

  method ScrapeNamesCorrected(fetch: Fetch, names: seq<string>, sortBy: string, ascending: bool, includeDescription: bool)
    returns (r: Result<seq<Profile>>)
    ensures r == NamesCorrected(fetch, names, sortBy, ascending, includeDescription)
  {
    var searches := NameSearch.BuildSearches(names);
    var leads := Leads(fetch, NameSearch.Urls(searches));
    var urls := NameSearch.CollectProfileUrls(NameSearch.QueriesOf(searches), leads);
    if urls.Err? {
      return Err(urls.error);
    }
    var profiles := ProfilesAt(fetch, urls.value, includeDescription);
    if profiles.Err? {
      return Err(profiles.error);
    }
    r := Sorting.SortProfiles(profiles.value, sortBy, ascending);
  }

  // ---------- Lemmas

  /** One profile per URL, each the parse of its page, exactly when every
      page parses; otherwise the error of the first page that does not. */
  lemma {:induction false} ProfilesAtSpec(fetch: Fetch, urls: seq<string>, includeDescription: bool)
    ensures ProfilesAt(fetch, urls, includeDescription).Ok? <==>
              forall k :: 0 <= k < |urls| ==> ProfileAt(fetch, urls[k], includeDescription).Ok?
    ensures ProfilesAt(fetch, urls, includeDescription).Ok? ==>
              var ps := ProfilesAt(fetch, urls, includeDescription).value;
              |ps| == |urls| && forall k :: 0 <= k < |urls| ==> Ok(ps[k]) == ProfileAt(fetch, urls[k], includeDescription)
    ensures ProfilesAt(fetch, urls, includeDescription).Err? ==>
              exists j :: 0 <= j < |urls| &&
                ProfileAt(fetch, urls[j], includeDescription) == Err(ProfilesAt(fetch, urls, includeDescription).error) &&
                forall k :: 0 <= k < j ==> ProfileAt(fetch, urls[k], includeDescription).Ok?
  {
    var rs := ProfileResults(fetch, urls, includeDescription);
    CollectSpec(rs);
    assert forall k :: 0 <= k < |urls| ==> rs[k] == ProfileAt(fetch, urls[k], includeDescription);
  }

  /** A list page gives one profile per link in its list, in document
      order, each the parse of the linked page; a page whose list is
      missing gives none. */
  lemma {:induction false} ListedProfilesSpec(fetch: Fetch, page: seq<Node>, targetId: string, includeDescription: bool)
    ensures Kept(page, ListQuery(targetId)) == [] ==> ListedProfiles(fetch, page, targetId, includeDescription) == Ok([])
    ensures ListedProfiles(fetch, page, targetId, includeDescription).Ok? ==>
              var links := ListedLinks(page, targetId);
              var ps := ListedProfiles(fetch, page, targetId, includeDescription).value;
              AllHaveHref(links) && |ps| == |links| &&
              forall k :: 0 <= k < |links| ==> Ok(ps[k]) == ProfileAt(fetch, links[k].attrs["href"], includeDescription)
  {
    var list := Strain(page, ListQuery(targetId));
    LinkListSpec(list);
    if list.None? {
      assert Kept(page, ListQuery(targetId)) == [];
      assert ListedLinks(page, targetId) == [];
    }
    match LinkList(list)
    case Ok(urls) =>
      ProfilesAtSpec(fetch, urls, includeDescription);
    case Err(_) =>
  }

  /** Sorting keeps the profiles it is given: a sorted list page holds the
      same profiles as the list, as many as it has links. */
  lemma {:induction false} SortedListedSpec(fetch: Fetch, page: seq<Node>, targetId: string, sortBy: string, ascending: bool, includeDescription: bool)
    ensures var r := SortedListed(fetch, page, targetId, sortBy, ascending, includeDescription);
            r.Ok? ==>
              var listed := ListedProfiles(fetch, page, targetId, includeDescription);
              listed.Ok? && multiset(r.value) == multiset(listed.value) &&
              |r.value| == |ListedLinks(page, targetId)|
  {
    ListedProfilesSpec(fetch, page, targetId, includeDescription);
    match ListedProfiles(fetch, page, targetId, includeDescription)
    case Ok(ps) =>
      SortKeeps(ps, sortBy, ascending);
    case Err(_) =>
  }

  /** Sorting, when it succeeds, returns a permutation of its input. */
  lemma {:induction false} SortKeeps(ps: seq<Profile>, sortBy: string, ascending: bool)
    ensures Sorting.SortProfiles(ps, sortBy, ascending).Ok? ==>
              multiset(Sorting.SortProfiles(ps, sortBy, ascending).value) == multiset(ps) &&
              |Sorting.SortProfiles(ps, sortBy, ascending).value| == |ps|
  {
    if sortBy == "name" || sortBy == "worth" {
      Sorting.SortProfilesSpec(ps, sortBy, ascending);
      if Sorting.SortProfiles(ps, sortBy, ascending).Ok? {
        var out := Sorting.SortProfiles(ps, sortBy, ascending).value;
        assert |multiset(out)| == |out| && |multiset(ps)| == |ps|;
      }
    } else {
      Sorting.SortProfilesOtherKey(ps, sortBy, ascending);
    }
  }

  /** The profiles of the category are found exactly when every page's list
      yields its profiles; otherwise the error is that of the first page
      whose list fails. */
  lemma {:induction false} PagesProfilesOk(fetch: Fetch, pages: seq<Response>, includeDescription: bool)
    ensures PagesProfiles(fetch, pages, includeDescription).Ok? <==>
              forall k :: 0 <= k < |pages| ==> ListedProfiles(fetch, pages[k].doc, CategoryList, includeDescription).Ok?
    ensures PagesProfiles(fetch, pages, includeDescription).Err? ==>
              exists j :: 0 <= j < |pages| &&
                ListedProfiles(fetch, pages[j].doc, CategoryList, includeDescription) == Err(PagesProfiles(fetch, pages, includeDescription).error) &&
                forall k :: 0 <= k < j ==> ListedProfiles(fetch, pages[k].doc, CategoryList, includeDescription).Ok?
  {
    var lists := PageLists(fetch, pages, includeDescription);
    JoinSpec(lists);
    assert forall k :: 0 <= k < |pages| ==> lists[k] == ListedProfiles(fetch, pages[k].doc, CategoryList, includeDescription);
  }

  /** The profiles of the list of page `k` sit in `profiles` right after
      as many profiles as the pages before it have links. */
  predicate HoldsPage(fetch: Fetch, pages: seq<Response>, includeDescription: bool, profiles: seq<Profile>, k: int)
    requires 0 <= k < |pages|
  {
    var listed := ListedProfiles(fetch, pages[k].doc, CategoryList, includeDescription);
    listed.Ok? && LinkCount(pages[..k]) <= LinkCount(pages[..k + 1]) <= |profiles| &&
    profiles[LinkCount(pages[..k])..LinkCount(pages[..k + 1])] == listed.value
  }

  /** The category's profiles are the profiles of each page's list, page
      after page, one per link. */
  lemma {:induction false} PagesProfilesValue(fetch: Fetch, pages: seq<Response>, includeDescription: bool)
    ensures var r := PagesProfiles(fetch, pages, includeDescription);
            r.Ok? ==>
              |r.value| == LinkCount(pages) &&
              forall k :: 0 <= k < |pages| ==> HoldsPage(fetch, pages, includeDescription, r.value, k)
  {
    if PagesProfiles(fetch, pages, includeDescription).Ok? {
      PagesProfilesCount(fetch, pages, includeDescription);
      forall k | 0 <= k < |pages|
        ensures HoldsPage(fetch, pages, includeDescription, PagesProfiles(fetch, pages, includeDescription).value, k)
      {
        PageProfilesAt(fetch, pages, includeDescription, k);
      }
    }
  }

  lemma {:induction false} PageProfilesAt(fetch: Fetch, pages: seq<Response>, includeDescription: bool, k: nat)
    requires PagesProfiles(fetch, pages, includeDescription).Ok? && k < |pages|
    ensures HoldsPage(fetch, pages, includeDescription, PagesProfiles(fetch, pages, includeDescription).value, k)
  {
    var lists := PageLists(fetch, pages, includeDescription);
    JoinValueAt(lists, k);
    JoinSpec(lists);
    PrefixCount(fetch, pages, includeDescription, k);
    PrefixCount(fetch, pages, includeDescription, k + 1);
  }

  /** The links of the first `n` pages are as many as their profiles. */
  lemma {:induction false} PrefixCount(fetch: Fetch, pages: seq<Response>, includeDescription: bool, n: nat)
    requires n <= |pages|
    requires forall k :: 0 <= k < |pages| ==> PageLists(fetch, pages, includeDescription)[k].Ok?
    ensures Offset(PageLists(fetch, pages, includeDescription), n) == LinkCount(pages[..n])
  {
    var lists := PageLists(fetch, pages, includeDescription);
    assert lists[..n] == PageLists(fetch, pages[..n], includeDescription);
    forall k | 0 <= k < n
      ensures ListedProfiles(fetch, pages[..n][k].doc, CategoryList, includeDescription).Ok?
    {
      assert lists[k] == ListedProfiles(fetch, pages[k].doc, CategoryList, includeDescription);
    }
    ListCounts(fetch, pages[..n], includeDescription);
  }

  lemma {:induction false} PagesProfilesCount(fetch: Fetch, pages: seq<Response>, includeDescription: bool)
    requires PagesProfiles(fetch, pages, includeDescription).Ok?
    ensures |PagesProfiles(fetch, pages, includeDescription).value| == LinkCount(pages)
  {
    var lists := PageLists(fetch, pages, includeDescription);
    JoinLength(lists);
    JoinSpec(lists);
    assert forall k :: 0 <= k < |pages| ==> lists[k] == ListedProfiles(fetch, pages[k].doc, CategoryList, includeDescription);
    ListCounts(fetch, pages, includeDescription);
  }

  /** When every page's list yields its profiles, they number as many as
      the pages' links. */
  lemma {:induction false} ListCounts(fetch: Fetch, pages: seq<Response>, includeDescription: bool)
    requires forall k :: 0 <= k < |pages| ==> ListedProfiles(fetch, pages[k].doc, CategoryList, includeDescription).Ok?
    ensures ItemCount(PageLists(fetch, pages, includeDescription)) == LinkCount(pages)
  {
    if pages != [] {
      var n := |pages| - 1;
      var lists := PageLists(fetch, pages, includeDescription);
      assert lists[..n] == PageLists(fetch, pages[..n], includeDescription);
      ListCounts(fetch, pages[..n], includeDescription);
      ListedProfilesSpec(fetch, pages[n].doc, CategoryList, includeDescription);
    }
  }

  /** `scrape_category` returns as many profiles as the collected pages'
      lists hold links, the profiles of those lists in some order. */
  lemma {:induction false} CategoryCount(fetch: Fetch, category: string, start: int, additional: int, limit: int,
                                         sortBy: string, ascending: bool, includeDescription: bool)
    requires additional >= 0 || CategoryWalk.CategoryPage(fetch, category)(start).status >= 400 ||
             CategoryWalk.MissingAfter(CategoryWalk.CategoryPage(fetch, category), start, limit)
    ensures var r := Category(fetch, category, start, additional, limit, sortBy, ascending, includeDescription);
            var pages := CategoryWalk.CategoryPages(CategoryWalk.CategoryPage(fetch, category), start, additional, limit);
            r.Ok? ==>
              pages.Ok? && PagesProfiles(fetch, pages.value, includeDescription).Ok? &&
              multiset(r.value) == multiset(PagesProfiles(fetch, pages.value, includeDescription).value) &&
              |r.value| == LinkCount(pages.value)
  {
    var pages := CategoryWalk.CategoryPages(CategoryWalk.CategoryPage(fetch, category), start, additional, limit);
    if pages.Ok? {
      PagesProfilesValue(fetch, pages.value, includeDescription);
      var ps := PagesProfiles(fetch, pages.value, includeDescription);
      if ps.Ok? {
        SortKeeps(ps.value, sortBy, ascending);
      }
    }
  }

  /** `scrape_names` returns at most one profile per distinct search URL,
      hence at most one per name. */
  lemma {:induction false} NamesBound(fetch: Fetch, names: seq<string>, sortBy: string, ascending: bool, includeDescription: bool)
    ensures var r := Names(fetch, names, sortBy, ascending, includeDescription);
            r.Ok? ==> |r.value| <= |Seqs.Dedup(NameSearch.NameUrls(names))| <= |names|
  {
    var urls := NameSearch.Urls(NameSearch.Searches(names));
    var leads := Leads(fetch, urls);
    NameSearch.SearchesNoMore(names);
    var queries := seq(|names|, k requires 0 <= k < |names| => NameSearch.ParseName(names[k]));
    NameSearch.AsWrittenAgrees(names, queries, leads);
    var found := NameSearch.AsWritten(names, leads);
    if found.Ok? {
      UrlsBound(queries, leads);
      FoundBound(fetch, found.value.urls, sortBy, ascending, includeDescription);
      SearchCount(names);
    }
  }

  /** The corrected `scrape_names` also returns at most one profile per
      distinct search URL. */
  lemma {:induction false} NamesCorrectedBound(fetch: Fetch, names: seq<string>, sortBy: string, ascending: bool, includeDescription: bool)
    ensures var r := NamesCorrected(fetch, names, sortBy, ascending, includeDescription);
            r.Ok? ==> |r.value| <= |Seqs.Dedup(NameSearch.NameUrls(names))| <= |names|
  {
    var searches := NameSearch.Searches(names);
    var queries, leads := NameSearch.QueriesOf(searches), Leads(fetch, NameSearch.Urls(searches));
    var found := NameSearch.ProfileUrls(queries, leads);
    if found.Ok? {
      UrlsBound(queries, leads);
      FoundBound(fetch, found.value, sortBy, ascending, includeDescription);
      SearchCount(names);
    }
  }

  /** When every name gives its own search URL, `scrape_names` as written
      and corrected return the same, unless the source reads an unassigned
      `current_name`. */
  lemma {:induction false} NamesAgree(fetch: Fetch, names: seq<string>, sortBy: string, ascending: bool, includeDescription: bool)
    requires Seqs.NoDup(NameSearch.NameUrls(names))
    ensures var r := Names(fetch, names, sortBy, ascending, includeDescription);
            r == NamesCorrected(fetch, names, sortBy, ascending, includeDescription) || r == Err(UnboundName)
  {
    var searches := NameSearch.Searches(names);
    var leads := Leads(fetch, NameSearch.Urls(searches));
    NameSearch.SearchesOfDistinct(names);
    NameSearch.DistinctNamesAgree(names, leads);
  }

  lemma {:induction false} SearchCount(names: seq<string>)
    ensures |NameSearch.Searches(names)| == |Seqs.Dedup(NameSearch.NameUrls(names))| <= |names|
  {
    NameSearch.SearchUrlsDedup(names);
    NameSearch.NameUrlsAt(names);
    Seqs.DedupSpec(NameSearch.NameUrls(names));
    assert |NameSearch.Urls(NameSearch.Searches(names))| == |NameSearch.Searches(names)|;
  }

  lemma {:induction false} FoundBound(fetch: Fetch, urls: seq<string>, sortBy: string, ascending: bool, includeDescription: bool)
    ensures var r := FoundProfiles(fetch, urls, sortBy, ascending, includeDescription);
            r.Ok? ==> |r.value| == |urls|
  {
    var profiles := ProfilesAt(fetch, urls, includeDescription);
    ProfilesAtSpec(fetch, urls, includeDescription);
    if profiles.Ok? {
      SortKeeps(profiles.value, sortBy, ascending);
    }
  }

  lemma {:induction false} UrlsBound(queries: seq<string>, leads: seq<NameSearch.LeadPage>)
    requires |leads| <= |queries|
    ensures NameSearch.ProfileUrls(queries, leads).Ok? ==> |NameSearch.ProfileUrls(queries, leads).value| <= |leads|
  {
    NameSearch.ProfileUrlsSpec(queries, leads);
    NameSearch.ChosenIndicesSpec(queries, leads);
  }
}
