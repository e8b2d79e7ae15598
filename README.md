# CNW Scraper, modelled in Dafny

A model of the logic of CNW Scraper. CNW Scraper collects net-worth
profiles from celebritynetworth.com. It reads a category's pages, a map
location's list, a top-50 or top-100 list, or the site's search results for
a list of names, and turns every profile page into a `Profile` record: an
ordered dictionary of stats plus a description. It can sort the profiles by
name or by net worth, and it displays a profile with
`key: value` lines, the net worth as `$` and comma-grouped digits, and long
descriptions cut short.

The site is an input. A `Site.Fetch` function gives for each URL the HTTP
status and the parsed page. A parsed page is a forest of `Document.Node`
elements. Each element has a tag, attributes, its text and its children. A
`SoupStrainer` keeps the outermost matching elements (`Document.Kept`), and
`find`, `select` and `next_sibling` are functions over that forest. A
Python exception becomes an `Err` of `Wrappers.Result`.

Modules, in dependency order:

- `Wrappers`: `Option`, `Result` and the error values. `KeyError`,
  `TypeError`/`AttributeError` on a missing element, `ValueError` from
  `int()`, the "out of range" exception and `UnboundLocalError` each map
  to one of them.
- `Seqs`: duplicate-free sequences and first-occurrence deduplication.
- `Text`: `isalnum`, `lower`, `replace`, `strip`, `split` and `in` on ASCII
  strings.
- `Numbers`: `str(n)`, `int(s)` and the grouping of `f"{n:,}"`.
- `Document`: the element tree, `find`, `select`, the strainer and the href
  list of a profile listing.
- `Profiles`: the stats dictionary with Python's insertion-order update,
  `Profile`, `Profile.fields` and `Profile.__str__` (`Render`).
- `ProfileParsing`:
  - `ProfileOf` is the specification of `parse_profile`.
  - `ParseProfile` and its loops compute it the way the source does: the
    stats are updated row by row and the description is collected
    paragraph by paragraph.
- `Sorting`: `sort_profiles`, a stable insertion sort on the name or the
  integer net worth.
- `Site`: the URL builders of `scrape_category`, `scrape_map` and
  `scrape_top`.
- `CategoryWalk`: the page walk of `scrape_category`, both as a function
  and as the `while True` loop. The function and its lemmas take the
  category as a map from page number to response (`Pages`);
  `CategoryPage(fetch, category)` is the map that requests
  `base_url + str(n) + '/'`.
- `NameSearch`: the parts of `scrape_names`:
  - name sanitising;
  - search-URL deduplication;
  - the lead match;
  - the result loop, both as written and corrected.
- `Scraper`: the four entry points, composed from the above.
  `Names`/`ScrapeNames` run the names result loop as the source has it,
  with `names[i]`; `NamesCorrected`/`ScrapeNamesCorrected` run it with
  the query of each page's own search (see "## Findings").

`cnw_scraper/cnw_scraper.py` is the older single-file revision. Its
`_Profile`, `_parse_profile`, `_get_profiles_from_list_in_page`,
`_sort_profiles`, `scrape_category`, `scrape_map`, `scrape_names` and
`scrape_top` (lines 106-121, 130-159, 191-201, 203-209, 230-274, 276-297,
299-347 and 349-374) have the same logic as the modular files, except for
logging and docstrings; also, `_Profile` has no `fields` attribute. They
are modelled once. The table below cites whichever file the row was checked
against.

## Model

| member | source | states |
|---|---|---|
| `Text.KeepNameCharsSpec` | cnw_scraper/api.py:108 | the filter keeps only alphanumerics and spaces and never lengthens the name |
| `Text.StripSpec` | cnw_scraper/api.py:108 | `strip()` leaves no leading or trailing space and removes nothing but spaces at the two ends |
| `Text.SplitTokens` | cnw_scraper/api.py:128 | every token of `split()` is non-empty, holds no space and occurs in the text; there are no tokens exactly when the text is all spaces |
| `Seqs.DedupSpec` | cnw_scraper/api.py:110-115 | the skip-if-present loop keeps each element once, keeps them all, never grows the list and keeps first-occurrence order |
| `Seqs.DedupIsIdentityIff` | cnw_scraper/cnw_scraper.py:313-318 | deduplication changes the list exactly when it had a duplicate |
| `Numbers.GroupDigitsLayout` | cnw_scraper/profile.py:32 | in `f"{n:,}"` a comma stands at every fourth place from the right and digits elsewhere; L digits gain (L-1)/3 commas |
| `Numbers.GroupedRoundTrip` | cnw_scraper/profile.py:32 | removing the commas from the grouped net worth and reading it back gives the integer |
| `Numbers.GroupedExample` | cnw_scraper/profile.py:32 | 1234567 is shown as `1,234,567` |
| `Document.FindIsFirst` | cnw_scraper/base_functions.py:19-21 | `find` fails exactly when nothing matches, and otherwise returns the first match in document order |
| `Document.HrefsSpec` | cnw_scraper/base_functions.py:84 | the href list exists exactly when every anchor has an href; it then has one href per anchor, in order |
| `Document.KeptSpec` | cnw_scraper/base_functions.py:80 | the strainer keeps only matching elements, each of them one that `select` finds, and keeps nothing exactly when nothing matches |
| `Document.LinkListSpec` | cnw_scraper/base_functions.py:80-84 | an absent container gives `[]`; a present one gives the href of each anchor in document order, or a KeyError when an anchor has none |
| `Profiles.IndexOf` | cnw_scraper/base_functions.py:26 | a dictionary lookup finds the position holding the key, or reports that no position holds it |
| `Profiles.PutLookup` | cnw_scraper/base_functions.py:26 | after `d.update({k: v})`, `k` maps to `v` and every other key keeps its value |
| `Profiles.PutKeepsPlaces` | cnw_scraper/base_functions.py:28 | setting a key keeps every existing key in its place and changes only that key's entry |
| `Profiles.PutKeys` | cnw_scraper/cnw_scraper.py:141 | the dictionary's keys stay in first-insertion order: a new key is added last and an existing one stays put |
| `Profiles.Fields` | cnw_scraper/profile.py:14-24 | `fields` lists nine distinct stat names, with "Name" first and "Net Worth" second |
| `Profiles.LinesAt` | cnw_scraper/profile.py:33 | the display holds one `key: value\n` line per stat, in dictionary order |
| `Profiles.RenderLayout` | cnw_scraper/profile.py:30-35 | the display is the stat lines with only the net worth changed, to `$` and the grouped integer, followed by `Description: ` and the shown description; the stored stats are not changed |
| `Profiles.RenderOkIff` | cnw_scraper/cnw_scraper.py:118 | displaying fails exactly when there is no net worth or it is not an integer |
| `Profiles.ShownSpec` | cnw_scraper/profile.py:34 | a description of at most 200 characters is shown whole; a longer one as its first 199 characters and ` ...` |
| `ProfileParsing.ParseProfile` | cnw_scraper/base_functions.py:15-44 | the imperative parse returns exactly `ProfileOf`, the profile or the first error the source raises |
| `ProfileParsing.UpdateRows` | cnw_scraper/cnw_scraper.py:140-141 | the row loop stops with the error of the first row that has no cell or no sibling; otherwise every row's entry is applied in order |
| `ProfileParsing.CollectParagraphs` | cnw_scraper/base_functions.py:32-40 | the description loop collects exactly the paragraphs of the children, with junk skipped and lists taken item by item |
| `ProfileParsing.AppendItems` | cnw_scraper/base_functions.py:38 | a list contributes one paragraph per item, in order |
| `ProfileParsing.EntriesSpec` | cnw_scraper/base_functions.py:25-26 | each row gives key = its first cell's text minus the last character and value = the next node's text; the table fails exactly when some row does |
| `ProfileParsing.PutAllKeys` | cnw_scraper/base_functions.py:25-26 | after the row updates the keys are the old ones, then each new row key at its first occurrence |
| `ProfileParsing.PutAllLookup` | cnw_scraper/cnw_scraper.py:140-141 | after the row updates a key has the value of its last row, so a later row overwrites an earlier one in place |
| `ProfileParsing.PutAllKeepsFirst` | cnw_scraper/base_functions.py:23-26 | "Name", set first, stays the first key through the row updates |
| `ProfileParsing.ProfileOfStats` | cnw_scraper/base_functions.py:23-28 | a parsed profile has "Name" first and the price's content as "Net Worth" whatever the table says; its keys are "Name", then the row keys in first-occurrence order, then "Net Worth" if no row had it (a "Net Worth" row keeps its place) |
| `ProfileParsing.BuiltStats` | cnw_scraper/base_functions.py:23-28 | the dictionary built from the name, the rows and the price starts with "Name", maps "Net Worth" to the price and has the keys of the name, the rows and the price in first-occurrence order |
| `ProfileParsing.RowValueWins` | cnw_scraper/cnw_scraper.py:138-143 | the last row with a given key (other than "Net Worth") sets that key's value in the parsed profile |
| `ProfileParsing.ParagraphsSpec` | cnw_scraper/base_functions.py:38-40 | every paragraph of the description ends in `\n\n` |
| `ProfileParsing.ListParagraphs` | cnw_scraper/base_functions.py:36-39 | a `ul` or `ol` child gives one paragraph per item: the item's text and `\n\n` |
| `ProfileParsing.NoDescription` | cnw_scraper/base_functions.py:42 | without `include_description` the description is `""` and no description element is needed |
| `Sorting.KeyLessMeaning` | cnw_scraper/base_functions.py:93 | the worth key compares as integers and the name key as Python strings |
| `Sorting.BeforeStrictTotal` | cnw_scraper/base_functions.py:95 | the key order is a strict total order in either direction |
| `Sorting.SortPermutes` | cnw_scraper/base_functions.py:95 | the sort returns a permutation of its input |
| `Sorting.SortSorted` | cnw_scraper/cnw_scraper.py:208 | the sort's output is ordered by key in the chosen direction |
| `Sorting.SortStable` | cnw_scraper/cnw_scraper.py:208 | the elements with any one key come out in their input order, in either direction |
| `Sorting.SortProfilesOtherKey` | cnw_scraper/base_functions.py:91 | any key other than "name" and "worth", the default `""` included, returns the list unchanged |
| `Sorting.SortProfilesSpec` | cnw_scraper/base_functions.py:90-96 | with "name" or "worth" the sort fails exactly when some profile has no key; otherwise it returns a permutation ordered by key in the chosen direction, and profiles with equal keys keep their order |
| `Site.CategoryPageUrlInjective` | cnw_scraper/api.py:40-42 | two page numbers of a category give the same URL exactly when they are equal |
| `Site.CategoryPageUrlLayout` | cnw_scraper/cnw_scraper.py:243-245 | a category page URL is `.../category/<value>/page/`, then `str(n)`, then `/` |
| `Site.MapUrlInjective` | cnw_scraper/api.py:84 | two map locations give the same map URL exactly when they are equal |
| `Site.TopUrlInjective` | cnw_scraper/api.py:155-161 | two categories give the same top-list URL exactly when they are equal, and no category gives the world list |
| `CategoryWalk.WalkCategory` | cnw_scraper/api.py:42-59 | the loop returns what `CategoryPages` says; it requests pages one at a time from the start page, nothing after a missing start page, and one page past the last it keeps when it stops at a missing page |
| `CategoryWalk.WalkSpec` | cnw_scraper/cnw_scraper.py:249-262 | the walk collects consecutive pages, all with status below 400, and stops at the last page asked for or at the first missing page |
| `CategoryWalk.CategoryPagesSpec` | cnw_scraper/api.py:42-59 | the walk raises exactly when the start page has status 400 or more; otherwise it returns the start page and consecutive present pages, at most `additional_pages + 1` of them, stopping only when it has them all or the next page is missing |
| `CategoryWalk.StopsAtGap` | cnw_scraper/api.py:48-59 | asked for every page of a category whose page 3 alone is missing, the walk keeps pages 1 and 2 and stops there, although later pages answer again |
| `CategoryWalk.MissingStartRaises` | cnw_scraper/api.py:42-45 | a missing starting page raises the out-of-range exception even when every page is asked for and no later page is missing |
| `CategoryWalk.OnlyStartPage` | cnw_scraper/api.py:46-52 | with `additional_pages == 0` only the start page is collected |
| `NameSearch.ParseNameSpec` | cnw_scraper/api.py:108 | a sanitised name holds only alphanumerics and spaces, has no space at either end and keeps every alphanumeric of the name in order |
| `NameSearch.ParseNameIdempotent` | cnw_scraper/cnw_scraper.py:311 | sanitising a sanitised name changes nothing |
| `NameSearch.NameUrlLayout` | cnw_scraper/api.py:113 | a search URL is the `/dl/` prefix, the sanitised name with each space made a hyphen and each letter lowercased, then `/` |
| `NameSearch.SameUrlIff` | cnw_scraper/api.py:112-114 | two names share a search URL exactly when their sanitised forms agree up to case |
| `NameSearch.BuildSearches` | cnw_scraper/api.py:110-115 | the URL loop yields exactly the deduplicated list of the names' URLs, each with the query of the first name that gives it |
| `NameSearch.SearchUrlsDedup` | cnw_scraper/cnw_scraper.py:313-318 | the search URLs are the names' URLs with later duplicates dropped |
| `NameSearch.SearchUrlsOrder` | cnw_scraper/api.py:110-115 | the search URLs have no duplicates, are no more than the names and come in the order of the names that first give them |
| `NameSearch.SearchUrlsMembers` | cnw_scraper/api.py:110-115 | the search URLs are exactly the names' URLs |
| `NameSearch.SearchesSpec` | cnw_scraper/api.py:112-115 | each search is kept for the first name that gives its URL, with that name's sanitised query |
| `NameSearch.SearchesOfDistinct` | cnw_scraper/api.py:110-115 | when the names give distinct URLs, search `i` belongs to name `i` |
| `NameSearch.EmptyQueryAccepted` | cnw_scraper/api.py:127-128 | a name with no alphanumerics sanitises to `""`, which accepts every lead |
| `NameSearch.AcceptsWhenContained` | cnw_scraper/cnw_scraper.py:331 | a lead whose lowercased text contains the whole lowercased query is accepted |
| `NameSearch.ChosenIndicesSpec` | cnw_scraper/api.py:124-128 | the chosen leads are exactly the present ones that match their query, in page order |
| `NameSearch.CollectProfileUrls` | cnw_scraper/api.py:120-131 | the result loop, each page judged against its own search's query, returns exactly `ProfileUrls` |
| `NameSearch.ProfileUrlsSpec` | cnw_scraper/api.py:120-131 | the profile URLs are the links of the chosen leads, in page order, one per chosen lead; they are found exactly when every chosen lead has a link |
| `NameSearch.CollectAsWritten` | cnw_scraper/cnw_scraper.py:323-338 | the result loop as written, reading `names[i]` and a possibly unassigned `current_name`, returns exactly `AsWritten` |
| `NameSearch.AsWrittenAgrees` | cnw_scraper/api.py:121-135 | judged against the same names, the loop as written finds what the corrected loop finds, unless it reads an unassigned `current_name` |
| `NameSearch.DistinctNamesAgree` | cnw_scraper/api.py:121-126 | when the names give distinct URLs, `names[i]` is the right name for page `i` and both loops agree |
| `NameSearch.SharedSearchMisjudged` | cnw_scraper/cnw_scraper.py:324-334 | for three names whose first two share a search, the second page, which is the third name's search, is judged against the second name, so a lead that the third name's query accepts and the second's rejects is lost |
| `NameSearch.IndexingCounterexample` | cnw_scraper/api.py:121-128 | for the names "Ann", "ann", "Bo" the loop as written drops the lead for "Bo"; the corrected loop keeps it |
| `NameSearch.UnboundCounterexample` | cnw_scraper/api.py:134-135 | when a strained page that kept nothing counts as false (the model's reading of `if lead:`, see `Document.Strain` under "## Left out"), one name whose search page has no lead makes the loop as written read `current_name` unassigned, while the corrected loop finds no profile |
| `Scraper.ProfilesAtSpec` | cnw_scraper/api.py:138-139 | one profile per URL, in order, each the parse of that URL's page, exactly when every page parses; otherwise the error of the first page that does not |
| `Scraper.ListedProfilesSpec` | cnw_scraper/base_functions.py:78-88 | a page whose list is absent gives `[]`; otherwise one profile per link in the list, in document order, each the parse of the linked page |
| `Scraper.SortedListedSpec` | cnw_scraper/cnw_scraper.py:292-295 | a sorted list page holds the same profiles as its list, one per link |
| `Scraper.Map` | cnw_scraper/api.py:73-94 | `scrape_map` returns the profiles of the map page's list, one per link, in some order |
| `Scraper.Top` | cnw_scraper/api.py:146-171 | `scrape_top` returns the profiles of the category's top list, or of the world list when no category is given, one per link, in some order |
| `Scraper.PagesProfilesOk` | cnw_scraper/cnw_scraper.py:265-269 | the category's profiles are found exactly when every collected page's list yields its profiles; otherwise the error is that of the first page whose list fails |
| `Scraper.CollectPagesProfiles` | cnw_scraper/api.py:62-66 | the extend loop returns exactly the profiles of the pages, page after page, or the first error |
| `Wrappers.JoinSpec` | cnw_scraper/api.py:62-66 | extending one list with each result in turn succeeds exactly when every result does, and otherwise fails with the first failing result's error |
| `Wrappers.JoinValue` | cnw_scraper/api.py:62-66 | a successful extend loop holds the items of every result, result after result, as many as they hold together |
| `Scraper.PagesProfilesValue` | cnw_scraper/api.py:62-66 | the category's profiles are those of each collected page's list, page after page, one per link |
| `Scraper.CategoryCount` | cnw_scraper/api.py:62-71 | `scrape_category` returns the profiles of the collected pages' lists, in some order, as many as those lists have links |
| `Scraper.ScrapeCategory` | cnw_scraper/api.py:27-71 | `scrape_category` returns exactly `Category`: the walk's pages, their profiles and the sort |
| `Scraper.ScrapeNames` | cnw_scraper/api.py:96-144 | `scrape_names` returns exactly `Names`: searches, the result loop as written with `names[i]`, the profiles of the accepted leads and the sort |
| `Scraper.NamesBound` | cnw_scraper/api.py:100 | `scrape_names` returns at most one profile per distinct search URL, hence at most one per name |
| `Scraper.ScrapeNamesCorrected` | cnw_scraper/api.py:96-144 | the corrected `scrape_names`, each page judged against its own search's query, returns exactly `NamesCorrected` |
| `Scraper.NamesCorrectedBound` | cnw_scraper/api.py:100 | the corrected `scrape_names` also returns at most one profile per distinct search URL |
| `Scraper.NamesAgree` | cnw_scraper/api.py:110-126 | when the names give distinct search URLs, `scrape_names` as written returns what the corrected one returns, or fails reading an unassigned `current_name` |

## Left out

- Networking: `fetch`, `client` and `get_pages` (aiohttp, `asyncio.gather`,
  the delays and timeouts) are replaced by the `Site.Fetch` function. Its
  answers are fixed for the run. `gather` keeps the order of its URLs, so
  a list of pages is the fetch of each URL in order.
- HTML parsing by BeautifulSoup is not modelled. A page is given already
  parsed, as a `Document.Node` forest. `.text` is a field of each node and
  is not recomputed from its children.
- `Document.Strain`: a strained soup is taken to be false when the strainer
  kept nothing. bs4 makes a `BeautifulSoup` object true whatever it holds.
  For a profile list both readings give `[]`. For a search page without a
  lead they differ in two ways. First, when the page's name has no letters
  or digits, bs4 accepts the empty lead and then breaks on `None` (a
  TypeError), while the model finds no profile. Second, in the loop as
  written (`Scraper.Names`), a lead-less page before any page with a lead
  makes the model read `current_name` unassigned (`UnboundName`). Under bs4
  the `else` branch is never taken, so that page is judged against
  `names[i]` and gives no profile.
- Attribute matching in `find`, `select` and the strainer compares the whole
  attribute value. bs4's treatment of `class` as a list of words is not
  modelled.
- In the stats table every child of the table is taken as a row. A text node
  between rows has no `td`, so it gives the same missing-element error as a
  row without cells.
- Strings are ASCII: `isalnum` and `lower` know only `A`-`Z`, `a`-`z` and
  `0`-`9`. `strip` and `split` treat only the space as whitespace, which is
  all that is left after sanitising.
- `int()` is modelled as an optional sign and ASCII digits. Surrounding
  whitespace and underscores, which Python also accepts, are not.
- `CategoryWalk.WalkCategory`: with a negative `additional_pages` and a
  present starting page it requires some page after the starting page to
  be missing (`MissingAfter`: page `limit`, past the start, answers 400 or
  more). A missing starting page needs nothing: it raises before the walk.
  The walk stops at the first missing page, whatever follows it. The source
  loops without end on a site where the starting page answers and no page
  after it is missing. The same requirement is on
  `CategoryWalk.CategoryPages`, `Scraper.Category`, `Scraper.ScrapeCategory`
  and `Scraper.CategoryCount`.
- The `Category` and `Location` enums are their string values. The
  `isinstance` checks that raise on any other argument are not modelled.
- `Options.include_description` is a parameter, `includeDescription`. Logging
  (`Logs._log`, `_log`) is not modelled: it only prints.
- `scrape_all` and `scrape_random` are not modelled. The first calls
  `scrape_category` on every category; the second parses one fetched page.
- `Profile.__init__` is the datatype constructor `Profiles.Profile`, which
  stores its two arguments unchanged. `__str__` is `Profiles.Render`, a
  function on the record's value. It copies the stats by construction, so
  the record is never changed.

## Findings

| source | as written | input that shows it | evidently intended | confidence | as-written member | corrected member |
|---|---|---|---|---|---|---|
| cnw_scraper/api.py:121-128 | result page `i` is judged against `names[i]`, but `i` counts the deduplicated search URLs, so after a duplicate name every later page is judged against the wrong name (the same at cnw_scraper/cnw_scraper.py:324-331) | names `["Ann", "ann", "Bo"]` with lead results "Ann" (linking `/ann`) and "Bo" (linking `/bo`): the "Bo" page is judged against "ann" and dropped, and only `/ann` is collected | each page judged against the query of the search it came from, giving `/ann` and `/bo` | high; not executed | `NameSearch.IndexingCounterexample` | `NameSearch.ProfileUrlsSpec` |
