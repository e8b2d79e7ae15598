/** The site as the scraper sees it: the URLs it builds and the answer it
    gets for each. */
module Site {
  import opened Wrappers
  import opened Numbers
  import opened Document

  /** A fetched page: its HTTP status and its HTML, parsed. */
  datatype Response = Response(status: int, doc: seq<Node>)

  /** `get_pages([url])[0]`: the site's answer for one URL. */
  type Fetch = string -> Response

  const Host := "https://www.celebritynetworth.com/"

  /** `base_url` of `scrape_category`. */
  function CategoryBase(category: string): string {
    Host + "category/" + category + "/page/"
  }

  /** `base_url + str(n) + '/'`: page `n` of a category. */
  function CategoryPageUrl(category: string, n: int): string {
    CategoryBase(category) + IntToString(n) + "/"
  }

  /** The map page of a location. */
  function MapUrl(location: string): string {
    Host + "map/" + location + "/"
  }

  /** The top-50 list of a category, or the top-100 list of the world
      when no category is given. */
  const TopPrefix := Host + "list/top-"

  function TopUrl(category: Option<string>): string {
    match category
    case Some(c) => TopPrefix + ("50-" + c + "/")
    case None => TopPrefix + "100-richest-people-in-the-world/"
  }

  // ---------- Lemmas

  /** The text between a known prefix and a known suffix. */
  lemma {:induction false} Between(u: string, p: string, m: string, q: string)
    requires u == p + m + q
    ensures |p| + |q| <= |u| && m == u[|p|..|u| - |q|]
  {
  }

  /** Distinct page numbers of a category have distinct URLs. */
  lemma {:induction false} CategoryPageUrlInjective(category: string, m: int, n: int)
    ensures CategoryPageUrl(category, m) == CategoryPageUrl(category, n) <==> m == n
  {
    if CategoryPageUrl(category, m) == CategoryPageUrl(category, n) {
      var u := CategoryPageUrl(category, m);
      Between(u, CategoryBase(category), IntToString(m), "/");
      Between(u, CategoryBase(category), IntToString(n), "/");
      ParseIntOfIntToString(m);
      ParseIntOfIntToString(n);
    }
  }

  /** Page URLs of a category start with the category's base and end in a slash. */
  lemma {:induction false} CategoryPageUrlLayout(category: string, n: int)
    ensures var u := CategoryPageUrl(category, n);
            |u| > |CategoryBase(category)| + 1 &&
            u[..|CategoryBase(category)|] == CategoryBase(category) && u[|u| - 1] == '/' &&
            u[|CategoryBase(category)|..|u| - 1] == IntToString(n)
  {
    var u := CategoryPageUrl(category, n);
    NatToStringNonEmpty(if n < 0 then -n else n);
    Between(u, CategoryBase(category), IntToString(n), "/");
  }

  lemma {:induction false} NatToStringNonEmpty(n: nat)
    ensures |NatToString(n)| > 0
  {
    NatToStringValue(n);
  }

  /** Distinct locations have distinct map pages. */
  lemma {:induction false} MapUrlInjective(a: string, b: string)
    ensures MapUrl(a) == MapUrl(b) <==> a == b
  {
    if MapUrl(a) == MapUrl(b) {
      Between(MapUrl(a), Host + "map/", a, "/");
      Between(MapUrl(a), Host + "map/", b, "/");
    }
  }

  /** Distinct categories have distinct top lists, and no category's list
      is the world list. */
  lemma {:induction false} TopUrlInjective(a: Option<string>, b: Option<string>)
    ensures TopUrl(a) == TopUrl(b) <==> a == b
  {
    if a.Some? && b.Some? && TopUrl(a) == TopUrl(b) {
      var x, y := "50-" + a.value + "/", "50-" + b.value + "/";
      assert x == TopUrl(a)[|TopPrefix|..] == y;
      Between(x, "50-", a.value, "/");
      Between(x, "50-", b.value, "/");
    }
    if a.Some? != b.Some? {
      var c := if a.Some? then a.value else b.value;
      AfterPrefixDiffers(TopPrefix, "50-" + c + "/", "100-richest-people-in-the-world/");
    }
  }

  /** Two texts with a common prefix differ when what follows differs in its first character. */
  lemma {:induction false} AfterPrefixDiffers(p: string, x: string, y: string)
    requires x != [] && y != [] && x[0] != y[0]
    ensures p + x != p + y
  {
    assert (p + x)[|p|] == x[0];
    assert (p + y)[|p|] == y[0];
  }
}
