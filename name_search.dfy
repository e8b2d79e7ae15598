/** The name search of `scrape_names`: sanitising the names, building one
    search URL per distinct query, and accepting a search page's lead
    result when it mentions every word of the query. */
module NameSearch {
  import opened Wrappers
  import opened Text
  import opened Document
  import Seqs

  // ---------- Queries and search URLs

  /** `parse_name`: keep the alphanumerics and spaces, then strip. */
  function ParseName(n: string): string {
    Strip(KeepNameChars(n))
  }

  const SearchPrefix := "https://www.celebritynetworth.com/dl/"

  /** The search URL of a query: its spaces as hyphens, lowercased, under `/dl/`. */
  function SearchUrl(query: string): string {
    SearchPrefix + Lower(SpacesToHyphens(query)) + "/"
  }

  function NameUrl(name: string): string {
    SearchUrl(ParseName(name))
  }

  /** The search URL of every name, duplicates included. */
  function NameUrls(names: seq<string>): seq<string>
    decreases |names|
  {
    if names == [] then [] else NameUrls(names[..|names| - 1]) + [NameUrl(names[|names| - 1])]
  }

  /** A search to make: its URL and the query it was built from. */
  type Search = (string, string)

  function Urls(ss: seq<Search>): seq<string> {
    seq(|ss|, i requires 0 <= i < |ss| => ss[i].0)
  }

  function QueriesOf(ss: seq<Search>): seq<string> {
    seq(|ss|, i requires 0 <= i < |ss| => ss[i].1)
  }

  /** One search per distinct URL, made for the first name that gives it. */
  function Searches(names: seq<string>): seq<Search>
    decreases |names|
  {
    if names == [] then []
    else
      var s := Searches(names[..|names| - 1]);
      var name := names[|names| - 1];
      if NameUrl(name) in Urls(s) then s else s + [(NameUrl(name), ParseName(name))]
  }

  /** The search-URL loop of `scrape_names`: a URL already listed is
      skipped, a new one is appended (here together with its query). */
  method BuildSearches(names: seq<string>) returns (searches: seq<Search>)
    ensures searches == Searches(names)
    ensures Urls(searches) == Seqs.Dedup(NameUrls(names))
  {
    searches := [];
    var i := 0;
    while i < |names|
      invariant 0 <= i <= |names|
      invariant searches == Searches(names[..i])
    {
      assert names[..i + 1][..i] == names[..i];
      var url := NameUrl(names[i]);
      if url !in Urls(searches) {
        searches := searches + [(url, ParseName(names[i]))];
      }
      i := i + 1;
    }
    assert names[..i] == names;
    SearchUrlsDedup(names);
  }

  // ---------- Lead results

  /** The strained search page: None when it holds no lead result (is
      false), the lead's elements otherwise. */
  type LeadPage = Soup

  /** Whether a lead mentions the query: every word of the lowercased query
      occurs in the lowercased text of the lead. */
  predicate Accepts(query: string, text: string) {
    var words := Split(Lower(query));
    forall k :: 0 <= k < |words| ==> IsSubstring(words[k], Lower(text))
  }

  /** `lead.find("a")["href"]`. */
  function LeadHref(lead: seq<Node>): Result<string> {
    match Find(lead, ByTag("a"))
    case None => Err(MissingElement("a"))
    case Some((a, _)) => if "href" in a.attrs then Ok(a.attrs["href"]) else Err(MissingAttribute("href"))
  }

  predicate Chosen(query: string, lead: LeadPage) {
    lead.Some? && Accepts(query, AllText(lead.value))
  }

  /** The profile URLs of the accepted leads, in search order, each lead
      judged against the query its search was made for; the error of the
      first accepted lead without a link. */
  function ProfileUrls(queries: seq<string>, leads: seq<LeadPage>): Result<seq<string>>
    requires |leads| <= |queries|
    decreases |leads|
  {
    if leads == [] then Ok([])
    else
      var n := |leads| - 1;
      match ProfileUrls(queries, leads[..n])
      case Err(e) => Err(e)
      case Ok(urls) =>
        if Chosen(queries[n], leads[n]) then
          match LeadHref(leads[n].value)
          case Err(e) => Err(e)
          case Ok(h) => Ok(urls + [h])
        else Ok(urls)
  }

  /** The result loop of `scrape_names`, each search page judged against
      the query of its own search. */
  method CollectProfileUrls(queries: seq<string>, leads: seq<LeadPage>) returns (r: Result<seq<string>>)
    requires |leads| <= |queries|
    ensures r == ProfileUrls(queries, leads)
  {
    var urls: seq<string> := [];
    var i := 0;
    while i < |leads|
      invariant 0 <= i <= |leads|
      invariant ProfileUrls(queries, leads[..i]) == Ok(urls)
    {
      assert leads[..i + 1][..i] == leads[..i];
      var lead := leads[i];
      if lead.Some? && Accepts(queries[i], AllText(lead.value)) {
        var href := LeadHref(lead.value);
        if href.Err? {
          ProfileUrlsErrPrefix(queries, leads, i + 1);
          return Err(href.error);
        }
        urls := urls + [href.value];
      }
      i := i + 1;
    }
    assert leads[..i] == leads;
    r := Ok(urls);
  }

  // ---------- The result loop as written

  /** The state of the loop as written: the last name assigned to
      `current_name`, and the profile URLs so far. */
  datatype LoopState = LoopState(current: Option<string>, urls: seq<string>)

  /** The result loop as written: page `i` is judged against `names[i]`,
      although `i` counts deduplicated searches, and a page without a lead
      reads `current_name` even when no earlier page assigned it. */
  function AsWritten(names: seq<string>, leads: seq<LeadPage>): Result<LoopState>
    requires |leads| <= |names|
    decreases |leads|
  {
    if leads == [] then Ok(LoopState(None, []))
    else
      var n := |leads| - 1;
      match AsWritten(names, leads[..n])
      case Err(e) => Err(e)
      case Ok(w) =>
        if leads[n].Some? then
          var current := ParseName(names[n]);
          if Accepts(current, AllText(leads[n].value)) then
            match LeadHref(leads[n].value)
            case Err(e) => Err(e)
            case Ok(h) => Ok(LoopState(Some(current), w.urls + [h]))
          else Ok(LoopState(Some(current), w.urls))
        else if w.current.None? then Err(UnboundName)
        else Ok(w)
  }

  /** The result loop of `scrape_names` as the source has it. */
  method CollectAsWritten(names: seq<string>, leads: seq<LeadPage>) returns (r: Result<seq<string>>)
    requires |leads| <= |names|
    ensures AsWritten(names, leads).Err? ==> r == Err(AsWritten(names, leads).error)
    ensures AsWritten(names, leads).Ok? ==> r == Ok(AsWritten(names, leads).value.urls)
  {
    var urls: seq<string> := [];
    var current: Option<string> := None;
    var i := 0;
    while i < |leads|
      invariant 0 <= i <= |leads|
      invariant AsWritten(names, leads[..i]) == Ok(LoopState(current, urls))
    {
      assert leads[..i + 1][..i] == leads[..i];
      var lead := leads[i];
      if lead.Some? {
        current := Some(ParseName(names[i]));
        if Accepts(current.value, AllText(lead.value)) {
          var href := LeadHref(lead.value);
          if href.Err? {
            AsWrittenErrPrefix(names, leads, i + 1);
            return Err(href.error);
          }
          urls := urls + [href.value];
        }
      } else if current.None? {
        AsWrittenErrPrefix(names, leads, i + 1);
        return Err(UnboundName);
      }
      i := i + 1;
    }
    assert leads[..i] == leads;
    r := Ok(urls);
  }

  // ---------- Lemmas: prefixes

  lemma {:induction false} NameUrlsAt(names: seq<string>)
    ensures |NameUrls(names)| == |names|
    ensures forall k :: 0 <= k < |names| ==> NameUrls(names)[k] == NameUrl(names[k])
    decreases |names|
  {
    if names != [] {
      var p := names[..|names| - 1];
      NameUrlsAt(p);
      var u := NameUrls(p);
      assert NameUrls(names) == u + [NameUrl(names[|names| - 1])];
      forall k | 0 <= k < |names| ensures NameUrls(names)[k] == NameUrl(names[k]) {
        if k < |p| { assert names[k] == p[k] && NameUrls(names)[k] == u[k]; }
      }
    }
  }

  lemma {:induction false} UrlsSnoc(ss: seq<Search>, x: Search)
    ensures Urls(ss + [x]) == Urls(ss) + [x.0]
  {
  }

  /** The URLs searched are the names' URLs, deduplicated. */
  lemma {:induction false} SearchUrlsDedup(names: seq<string>)
    ensures Urls(Searches(names)) == Seqs.Dedup(NameUrls(names))
    decreases |names|
  {
    if names != [] {
      var p, name := names[..|names| - 1], names[|names| - 1];
      SearchUrlsDedup(p);
      Seqs.DedupStep(NameUrls(p), NameUrl(name));
      assert NameUrls(names) == NameUrls(p) + [NameUrl(name)];
      UrlsSnoc(Searches(p), (NameUrl(name), ParseName(name)));
    }
  }

  lemma {:induction false} ProfileUrlsErrPrefix(queries: seq<string>, leads: seq<LeadPage>, n: nat)
    requires n <= |leads| <= |queries| && ProfileUrls(queries, leads[..n]).Err?
    ensures ProfileUrls(queries, leads) == ProfileUrls(queries, leads[..n])
    decreases |leads| - n
  {
    if n < |leads| {
      assert leads[..n + 1][..n] == leads[..n];
      ProfileUrlsErrPrefix(queries, leads, n + 1);
    } else {
      assert leads[..n] == leads;
    }
  }

  lemma {:induction false} AsWrittenErrPrefix(names: seq<string>, leads: seq<LeadPage>, n: nat)
    requires n <= |leads| <= |names| && AsWritten(names, leads[..n]).Err?
    ensures AsWritten(names, leads) == AsWritten(names, leads[..n])
    decreases |leads| - n
  {
    if n < |leads| {
      assert leads[..n + 1][..n] == leads[..n];
      AsWrittenErrPrefix(names, leads, n + 1);
    } else {
      assert leads[..n] == leads;
    }
  }

  // ---------- Lemmas: sanitising and search URLs

  /** A sanitised name holds only alphanumerics and spaces, neither starts
      nor ends with a space, and keeps every alphanumeric of the name. */
  lemma {:induction false} ParseNameSpec(n: string)
    ensures forall k :: 0 <= k < |ParseName(n)| ==> IsNameChar(ParseName(n)[k])
    ensures ParseName(n) == [] || (ParseName(n)[0] != ' ' && ParseName(n)[|ParseName(n)| - 1] != ' ')
    ensures Alnums(ParseName(n)) == Alnums(n)
  {
    var t := KeepNameChars(n);
    KeepNameCharsSpec(n);
    StripSpec(t);
    StripNameChars(t);
    AlnumsOfStrip(t);
    AlnumsOfKeepNameChars(n);
  }

  /** Sanitising a sanitised name changes nothing. */
  lemma {:induction false} ParseNameIdempotent(n: string)
    ensures ParseName(ParseName(n)) == ParseName(n)
  {
    ParseNameSpec(n);
    KeepNameCharsIdentity(ParseName(n));
    StripIdentity(ParseName(n));
  }

  /** Two names share a search URL exactly when their sanitised forms are
      the same up to case. */
  lemma {:induction false} SameUrlIff(a: string, b: string)
    ensures NameUrl(a) == NameUrl(b) <==> Lower(ParseName(a)) == Lower(ParseName(b))
  {
    ParseNameSpec(a);
    ParseNameSpec(b);
    var p, q := ParseName(a), ParseName(b);
    var x, y := Lower(SpacesToHyphens(p)), Lower(SpacesToHyphens(q));
    if NameUrl(a) == NameUrl(b) {
      var u := SearchPrefix + x + "/";
      assert u == SearchPrefix + y + "/";
      assert x == u[|SearchPrefix|..|SearchPrefix| + |x|];
      assert y == u[|SearchPrefix|..|SearchPrefix| + |y|];
      forall k | 0 <= k < |p| ensures Lower(p)[k] == Lower(q)[k] {
        assert x[k] == y[k];
        assert IsNameChar(p[k]) && IsNameChar(q[k]);
      }
    }
    if Lower(p) == Lower(q) {
      forall k | 0 <= k < |p| ensures x[k] == y[k] {
        assert Lower(p)[k] == Lower(q)[k];
      }
      assert x == y;
    }
  }

  /** A name's search URL is the `/dl/` prefix, then one character per
      character of the sanitised name, then "/": a hyphen for each space,
      the lowercase letter for each letter, so no space and no capital
      remains. */
  lemma {:induction false} NameUrlLayout(n: string)
    ensures var q, u := ParseName(n), NameUrl(n);
            |u| == |SearchPrefix| + |q| + 1 && u[..|SearchPrefix|] == SearchPrefix && u[|u| - 1] == '/' &&
            forall k :: 0 <= k < |q| ==>
              var c := u[|SearchPrefix| + k];
              c == (if q[k] == ' ' then '-' else LowerChar(q[k])) && c != ' ' && !('A' <= c <= 'Z')
  {
    SearchUrlLayout(ParseName(n));
  }

  lemma {:induction false} SearchUrlLayout(q: string)
    ensures var u := SearchUrl(q);
            |u| == |SearchPrefix| + |q| + 1 && u[..|SearchPrefix|] == SearchPrefix && u[|u| - 1] == '/' &&
            forall k :: 0 <= k < |q| ==>
              var c := u[|SearchPrefix| + k];
              c == (if q[k] == ' ' then '-' else LowerChar(q[k])) && c != ' ' && !('A' <= c <= 'Z')
  {
    var m := Lower(SpacesToHyphens(q));
    var u := SearchUrl(q);
    assert u == SearchPrefix + m + "/";
    forall k | 0 <= k < |q| ensures u[|SearchPrefix| + k] == m[k] {
    }
  }

  /** The search URLs have no duplicates, are no more than the names, and
      come in the order of their first names. */
  lemma {:induction false} SearchUrlsOrder(names: seq<string>)
    ensures var urls := Urls(Searches(names));
            Seqs.NoDup(urls) && |urls| <= |names| &&
            (forall i, j :: 0 <= i < j < |urls| ==>
               urls[i] in NameUrls(names) && urls[j] in NameUrls(names) &&
               Seqs.FirstIndex(NameUrls(names), urls[i]) < Seqs.FirstIndex(NameUrls(names), urls[j]))
  {
    SearchUrlsDedup(names);
    Seqs.DedupSpec(NameUrls(names));
    NameUrlsAt(names);
  }

  /** There are no more searches than names. */
  lemma {:induction false} SearchesNoMore(names: seq<string>)
    ensures |Searches(names)| <= |names|
  {
    SearchUrlsOrder(names);
    assert |Urls(Searches(names))| == |Searches(names)|;
  }

  /** The search URLs are exactly the names' URLs. */
  lemma {:induction false} SearchUrlsMembers(names: seq<string>)
    ensures forall u :: u in Urls(Searches(names)) <==> exists k :: 0 <= k < |names| && u == NameUrl(names[k])
  {
    var all := NameUrls(names);
    SearchUrlsDedup(names);
    NameUrlsAt(names);
    forall u ensures u in Urls(Searches(names)) <==> exists k :: 0 <= k < |names| && u == NameUrl(names[k]) {
      Seqs.DedupMem(all, u);
      if u in all {
        var k :| 0 <= k < |all| && all[k] == u;
        assert u == NameUrl(names[k]);
      }
    }
  }

  /** `search` is the one made for name `k`: `k` is the first name giving
      its URL, and the query is that name sanitised. */
  predicate MadeFor(names: seq<string>, search: Search, k: int) {
    0 <= k < |names| && search == (NameUrl(names[k]), ParseName(names[k])) &&
    forall k' :: 0 <= k' < k ==> NameUrl(names[k']) != NameUrl(names[k])
  }

  predicate MadeForSome(names: seq<string>, search: Search) {
    exists k :: 0 <= k < |names| && MadeFor(names, search, k)
  }

  /** Each search is made for the first name that gives its URL, with that
      name's query. */
  lemma {:induction false} SearchesSpec(names: seq<string>)
    ensures forall i :: 0 <= i < |Searches(names)| ==> MadeForSome(names, Searches(names)[i])
    decreases |names|
  {
    if names != [] {
      var p, name := names[..|names| - 1], names[|names| - 1];
      SearchesSpec(p);
      var s, r := Searches(p), Searches(names);
      var n := |names| - 1;
      forall i | 0 <= i < |r| ensures MadeForSome(names, r[i]) {
        if i < |s| {
          SearchesSpecStep(names, p, i);
        } else {
          forall k' | 0 <= k' < n ensures NameUrl(names[k']) != NameUrl(names[n]) {
            assert names[k'] == p[k'];
            InUrlsOfSearches(p, k');
          }
          assert MadeFor(names, r[i], n);
        }
      }
    }
  }

  lemma {:induction false} SearchesSpecStep(names: seq<string>, p: seq<string>, i: nat)
    requires names != [] && p == names[..|names| - 1]
    requires i < |Searches(p)| && MadeForSome(p, Searches(p)[i])
    ensures i < |Searches(names)| && MadeForSome(names, Searches(names)[i])
  {
    var x := Searches(p)[i];
    var k :| 0 <= k < |p| && MadeFor(p, x, k);
    MadeForPrefix(names, p, x, k);
    SearchesPrefix(names, p);
  }

  lemma {:induction false} MadeForPrefix(names: seq<string>, p: seq<string>, x: Search, k: int)
    requires |p| <= |names| && p == names[..|p|] && MadeFor(p, x, k)
    ensures MadeFor(names, x, k)
  {
    assert forall k' :: 0 <= k' <= k ==> names[k'] == p[k'];
  }

  lemma {:induction false} SearchesPrefix(names: seq<string>, p: seq<string>)
    requires names != [] && p == names[..|names| - 1]
    ensures |Searches(p)| <= |Searches(names)| && Searches(p) == Searches(names)[..|Searches(p)|]
  {
  }

  lemma {:induction false} InUrlsOfSearches(names: seq<string>, k: nat)
    requires k < |names|
    ensures NameUrl(names[k]) in Urls(Searches(names))
  {
    SearchUrlsDedup(names);
    NameUrlsAt(names);
    assert NameUrls(names)[k] == NameUrl(names[k]);
    Seqs.DedupMem(NameUrls(names), NameUrl(names[k]));
  }

  /** When every name gives its own URL, search `i` is that of name `i`. */
  lemma {:induction false} SearchesOfDistinct(names: seq<string>)
    requires Seqs.NoDup(NameUrls(names))
    ensures |Searches(names)| == |names|
    ensures forall i :: 0 <= i < |names| ==> Searches(names)[i] == (NameUrl(names[i]), ParseName(names[i]))
    decreases |names|
  {
    if names != [] {
      var p, name := names[..|names| - 1], names[|names| - 1];
      var us := NameUrls(p);
      assert NameUrls(names) == us + [NameUrl(name)];
      Seqs.NoDupSnoc(us, NameUrl(name));
      SearchesOfDistinct(p);
      SearchUrlsDedup(p);
      Seqs.DedupMem(us, NameUrl(name));
      var s := Searches(p);
      assert Searches(names) == s + [(NameUrl(name), ParseName(name))];
      forall i | 0 <= i < |names|
        ensures Searches(names)[i] == (NameUrl(names[i]), ParseName(names[i]))
      {
        if i < |p| { assert names[i] == p[i]; }
      }
    }
  }

  // ---------- Lemmas: accepting a lead

  lemma {:induction false} NoAlnumsAllSpaces(s: string)
    requires forall k :: 0 <= k < |s| ==> IsNameChar(s[k])
    requires Alnums(s) == []
    ensures forall k :: 0 <= k < |s| ==> s[k] == ' '
  {
    if s != [] {
      assert !IsAlnum(s[0]);
      NoAlnumsAllSpaces(s[1..]);
      assert forall k :: 1 <= k < |s| ==> s[k] == s[1..][k - 1];
    }
  }

  /** A name without alphanumerics sanitises to "" and matches every lead. */
  lemma {:induction false} EmptyQueryAccepted(n: string, text: string)
    requires Alnums(n) == []
    ensures ParseName(n) == "" && Accepts(ParseName(n), text)
  {
    ParseNameSpec(n);
    NoAlnumsAllSpaces(ParseName(n));
    assert Lower(ParseName(n)) == [];
  }

  /** A lead whose text contains the whole query matches it. */
  lemma {:induction false} AcceptsWhenContained(query: string, text: string)
    requires IsSubstring(Lower(query), Lower(text))
    ensures Accepts(query, text)
  {
    var words := Split(Lower(query));
    SplitTokens(Lower(query));
    forall k | 0 <= k < |words| ensures IsSubstring(words[k], Lower(text)) {
      SubstringTransitive(words[k], Lower(query), Lower(text));
    }
  }

  // ---------- Lemmas: the profile URLs

  /** The positions of the leads that are present and match their query. */
  function ChosenIndices(queries: seq<string>, leads: seq<LeadPage>): seq<nat>
    requires |leads| <= |queries|
    decreases |leads|
  {
    if leads == [] then []
    else
      var n := |leads| - 1;
      ChosenIndices(queries, leads[..n]) + if Chosen(queries[n], leads[n]) then [n] else []
  }

  lemma {:induction false} ChosenIndicesSpec(queries: seq<string>, leads: seq<LeadPage>)
    requires |leads| <= |queries|
    ensures var idx := ChosenIndices(queries, leads);
            |idx| <= |leads| &&
            (forall m :: 0 <= m < |idx| ==> idx[m] < |leads| && Chosen(queries[idx[m]], leads[idx[m]])) &&
            (forall m, m' :: 0 <= m < m' < |idx| ==> idx[m] < idx[m']) &&
            (forall k :: 0 <= k < |leads| && Chosen(queries[k], leads[k]) ==> k in idx)
    decreases |leads|
  {
    if leads != [] {
      var n := |leads| - 1;
      ChosenIndicesSpec(queries, leads[..n]);
      assert forall k :: 0 <= k < n ==> leads[..n][k] == leads[k];
    }
  }

  /** The profile URLs are the links of the chosen leads, in search order;
      they are found exactly when every chosen lead has a link. */
  lemma {:induction false} ProfileUrlsSpec(queries: seq<string>, leads: seq<LeadPage>)
    requires |leads| <= |queries|
    ensures ProfileUrls(queries, leads).Ok? <==>
              forall k :: 0 <= k < |leads| && Chosen(queries[k], leads[k]) ==> LeadHref(leads[k].value).Ok?
    ensures ProfileUrls(queries, leads).Ok? ==>
              var urls, idx := ProfileUrls(queries, leads).value, ChosenIndices(queries, leads);
              |urls| == |idx| &&
              forall m :: 0 <= m < |urls| ==>
                idx[m] < |leads| && leads[idx[m]].Some? && LeadHref(leads[idx[m]].value) == Ok(urls[m])
    decreases |leads|
  {
    if leads != [] {
      var n := |leads| - 1;
      var p := leads[..n];
      ProfileUrlsSpec(queries, p);
      ChosenIndicesSpec(queries, p);
      assert forall k :: 0 <= k < n ==> p[k] == leads[k];
    }
  }

  // ---------- Lemmas: the loop as written against the corrected one

  /** Judged against the same names, the loop as written finds what the
      corrected one finds, unless it reads an unassigned `current_name`. */
  lemma {:induction false} AsWrittenAgrees(names: seq<string>, queries: seq<string>, leads: seq<LeadPage>)
    requires |leads| <= |names| && |leads| <= |queries|
    requires forall k :: 0 <= k < |leads| ==> queries[k] == ParseName(names[k])
    ensures AsWritten(names, leads).Ok? ==> ProfileUrls(queries, leads) == Ok(AsWritten(names, leads).value.urls)
    ensures AsWritten(names, leads).Err? && AsWritten(names, leads).error != UnboundName ==>
              ProfileUrls(queries, leads) == Err(AsWritten(names, leads).error)
    decreases |leads|
  {
    if leads != [] {
      var n := |leads| - 1;
      AsWrittenAgrees(names, queries, leads[..n]);
    }
  }

  /** With distinct search URLs the source's indexing is right: the loop as
      written and the corrected one agree. */
  lemma {:induction false} DistinctNamesAgree(names: seq<string>, leads: seq<LeadPage>)
    requires Seqs.NoDup(NameUrls(names)) && |leads| == |names|
    ensures |Searches(names)| == |names|
    ensures var queries := QueriesOf(Searches(names));
            (AsWritten(names, leads).Ok? ==> ProfileUrls(queries, leads) == Ok(AsWritten(names, leads).value.urls)) &&
            (AsWritten(names, leads).Err? && AsWritten(names, leads).error != UnboundName ==>
               ProfileUrls(queries, leads) == Err(AsWritten(names, leads).error))
  {
    SearchesOfDistinct(names);
    AsWrittenAgrees(names, QueriesOf(Searches(names)), leads);
  }

  // ---------- Two inputs on which the loop as written goes wrong

  /** A lead whose only element is a link to `href` reading `text`. */
  function LinkLead(href: string, text: string): (lead: seq<Node>)
    ensures AllText(lead) == text && LeadHref(lead) == Ok(href)
  {
    var a := Node("a", map["href" := href], text, []);
    assert AllText([a]) == text + AllText([]);
    [a]
  }

  lemma {:induction false} PlainName(n: string)
    requires forall k :: 0 <= k < |n| ==> IsAlnum(n[k])
    ensures ParseName(n) == n
  {
    KeepNameCharsIdentity(n);
    StripIdentity(n);
  }

  lemma {:induction false} SplitPlainWord(s: string)
    requires s != [] && ' ' !in s
    ensures Split(s) == [s]
  {
    var w := Word(s);
    assert s[0] != ' ';
    assert Split(s) == [w] + Split(s[|w|..]);
    assert s[|w|..] == [] && w == s;
  }

  lemma {:induction false} SubstringNotLonger(t: string, s: string)
    requires IsSubstring(t, s)
    ensures |t| <= |s|
  {
  }

  lemma {:induction false} SelfSubstring(s: string)
    ensures IsSubstring(s, s)
  {
    assert s[0..|s|] == s;
  }

  lemma {:induction false} SearchesSnoc(names: seq<string>, name: string)
    ensures Searches(names + [name]) ==
              var s := Searches(names);
              if NameUrl(name) in Urls(s) then s else s + [(NameUrl(name), ParseName(name))]
  {
    assert (names + [name])[..|names|] == names;
  }

  lemma {:induction false} ProfileUrlsSnoc(queries: seq<string>, leads: seq<LeadPage>, lead: LeadPage)
    requires |leads| < |queries|
    ensures ProfileUrls(queries, leads + [lead]) ==
              match ProfileUrls(queries, leads)
              case Err(e) => Err(e)
              case Ok(urls) =>
                if Chosen(queries[|leads|], lead) then
                  match LeadHref(lead.value)
                  case Err(e) => Err(e)
                  case Ok(h) => Ok(urls + [h])
                else Ok(urls)
  {
    assert (leads + [lead])[..|leads|] == leads;
  }

  lemma {:induction false} AsWrittenSnoc(names: seq<string>, leads: seq<LeadPage>, lead: LeadPage)
    requires |leads| < |names|
    ensures AsWritten(names, leads + [lead]) ==
              match AsWritten(names, leads)
              case Err(e) => Err(e)
              case Ok(w) =>
                if lead.Some? then
                  var current := ParseName(names[|leads|]);
                  if Accepts(current, AllText(lead.value)) then
                    match LeadHref(lead.value)
                    case Err(e) => Err(e)
                    case Ok(h) => Ok(LoopState(Some(current), w.urls + [h]))
                  else Ok(LoopState(Some(current), w.urls))
                else if w.current.None? then Err(UnboundName)
                else Ok(w)
  {
    assert (leads + [lead])[..|leads|] == leads;
  }

  /** Whether the leads of the example are accepted by its queries. */
  lemma {:induction false} ExampleAccepts()
    ensures Accepts("Ann", "Ann") && Accepts("Bo", "Bo") && !Accepts("ann", "Bo")
  {
    assert Lower("Ann") == "ann" && Lower("Bo") == "bo" && Lower("ann") == "ann";
    SelfSubstring("ann");
    SelfSubstring("bo");
    AcceptsWhenContained("Ann", "Ann");
    AcceptsWhenContained("Bo", "Bo");
    SplitPlainWord("ann");
    assert Split(Lower("ann")) == ["ann"] && Split(Lower("ann"))[0] == "ann";
    assert !IsSubstring("ann", Lower("Bo")) by {
      if IsSubstring("ann", Lower("Bo")) {
        SubstringNotLonger("ann", Lower("Bo"));
      }
    }
  }

  /** Three plain names, the first two equal up to case and the third
      starting with another letter. */
  lemma {:induction false} PlainNames(a: string, b: string, c: string)
    requires forall k :: 0 <= k < |a| ==> IsAlnum(a[k])
    requires forall k :: 0 <= k < |b| ==> IsAlnum(b[k])
    requires forall k :: 0 <= k < |c| ==> IsAlnum(c[k])
    requires Lower(a) == Lower(b) && a != [] && c != [] && Lower(a)[0] != Lower(c)[0]
    ensures ParseName(a) == a && ParseName(b) == b && ParseName(c) == c
    ensures NameUrl(a) == NameUrl(b) != NameUrl(c)
  {
    PlainName(a);
    PlainName(b);
    PlainName(c);
    SameUrlIff(a, b);
    SameUrlIff(a, c);
  }

  lemma {:induction false} ExampleNames()
    ensures ParseName("Ann") == "Ann" && ParseName("ann") == "ann" && ParseName("Bo") == "Bo"
    ensures NameUrl("Ann") == NameUrl("ann") != NameUrl("Bo")
  {
    assert Lower("Ann") == "ann" == Lower("ann") && Lower("Bo")[0] == 'b';
    PlainNames("Ann", "ann", "Bo");
  }

  lemma {:induction false} SearchesOfThree(x: string, y: string, z: string)
    requires NameUrl(x) == NameUrl(y) != NameUrl(z)
    ensures Searches([x, y, z]) == [(NameUrl(x), ParseName(x)), (NameUrl(z), ParseName(z))]
  {
    var a := (NameUrl(x), ParseName(x));
    assert Searches([x]) == [a] by {
      SearchesSnoc([], x);
      assert [] + [x] == [x];
    }
    assert Urls([a]) == [NameUrl(x)];
    assert Searches([x, y]) == [a] by {
      SearchesSnoc([x], y);
      assert [x] + [y] == [x, y];
    }
    assert Searches([x, y, z]) == [a] + [(NameUrl(z), ParseName(z))] by {
      SearchesSnoc([x, y], z);
      assert [x, y] + [z] == [x, y, z];
    }
  }

  lemma {:induction false} AsWrittenOfTwo(names: seq<string>, l0: seq<Node>, l1: seq<Node>, h0: string)
    requires |names| >= 2
    requires Accepts(ParseName(names[0]), AllText(l0)) && LeadHref(l0) == Ok(h0)
    requires !Accepts(ParseName(names[1]), AllText(l1))
    ensures AsWritten(names, [Some(l0), Some(l1)]) == Ok(LoopState(Some(ParseName(names[1])), [h0]))
  {
    var a, b := Some(l0), Some(l1);
    AsWrittenSnoc(names, [], a);
    assert [] + [a] == [a];
    assert [] + [h0] == [h0];
    AsWrittenSnoc(names, [a], b);
    assert [a] + [b] == [a, b];
  }

  lemma {:induction false} ProfileUrlsOfTwo(queries: seq<string>, l0: seq<Node>, l1: seq<Node>, h0: string, h1: string)
    requires |queries| >= 2
    requires Accepts(queries[0], AllText(l0)) && LeadHref(l0) == Ok(h0)
    requires Accepts(queries[1], AllText(l1)) && LeadHref(l1) == Ok(h1)
    ensures ProfileUrls(queries, [Some(l0), Some(l1)]) == Ok([h0, h1])
  {
    var a, b := Some(l0), Some(l1);
    assert Chosen(queries[0], a) && Chosen(queries[1], b);
    ProfileUrlsSnoc(queries, [], a);
    assert [] + [a] == [a];
    assert ProfileUrls(queries, []) == Ok([]);
    assert [] + [h0] == [h0] && [h0] + [h1] == [h0, h1];
    ProfileUrlsSnoc(queries, [a], b);
    assert [a] + [b] == [a, b];
  }

  /** Whenever the first two of three names share a search, the lead found
      for the third is judged against the second name: a lead the third
      name's query accepts and the second's rejects is lost. */
  lemma {:induction false} SharedSearchMisjudged(x: string, y: string, z: string, l0: seq<Node>, l1: seq<Node>, h0: string, h1: string)
    requires NameUrl(x) == NameUrl(y) != NameUrl(z)
    requires Accepts(ParseName(x), AllText(l0)) && LeadHref(l0) == Ok(h0)
    requires Accepts(ParseName(z), AllText(l1)) && LeadHref(l1) == Ok(h1)
    requires !Accepts(ParseName(y), AllText(l1))
    ensures |Searches([x, y, z])| == 2
    ensures AsWritten([x, y, z], [Some(l0), Some(l1)]) == Ok(LoopState(Some(ParseName(y)), [h0]))
    ensures ProfileUrls(QueriesOf(Searches([x, y, z])), [Some(l0), Some(l1)]) == Ok([h0, h1])
  {
    SearchesOfThree(x, y, z);
    AsWrittenOfTwo([x, y, z], l0, l1, h0);
    ProfileUrlsOfTwo(QueriesOf(Searches([x, y, z])), l0, l1, h0, h1);
  }

  /** "Ann" and "ann" share one search, so there are two result pages for
      three names. The loop as written judges the second page, the lead for
      "Bo", against `names[1]`, "ann", and drops it; judged against the query
      of its own search it is kept. */
  lemma {:induction false} IndexingCounterexample()
    ensures var names := ["Ann", "ann", "Bo"];
            var leads := [Some(LinkLead("/ann", "Ann")), Some(LinkLead("/bo", "Bo"))];
            |Searches(names)| == 2 &&
            AsWritten(names, leads) == Ok(LoopState(Some("ann"), ["/ann"])) &&
            ProfileUrls(QueriesOf(Searches(names)), leads) == Ok(["/ann", "/bo"])
  {
    ExampleNames();
    ExampleAccepts();
    SharedSearchMisjudged("Ann", "ann", "Bo", LinkLead("/ann", "Ann"), LinkLead("/bo", "Bo"), "/ann", "/bo");
  }

  /** One name whose search page has no lead: the loop as written reads
      `current_name` before anything assigned it; the corrected loop finds
      no profile. */
  lemma {:induction false} UnboundCounterexample()
    ensures AsWritten(["Zed"], [None]) == Err(UnboundName)
    ensures ProfileUrls(QueriesOf(Searches(["Zed"])), [None]) == Ok([])
  {
    var names: seq<string> := ["Zed"];
    var leads: seq<LeadPage> := [None];
    assert names[..0] == [] && leads[..0] == [];
    assert |Searches(names)| == 1;
  }
}
