/** The parsed page, as an abstract element tree, and the searches the
    scraper makes in it: `find` with `next_sibling`, `select` and the
    href list of a profile listing. */
module Document {
  import opened Wrappers

  /** A node of a parsed page: its tag name ("" for a text node), its
      attributes, its text (`.text`, all the text below it) and its child
      nodes in document order. */
  datatype Node = Node(tag: string, attrs: map<string, string>, text: string, children: seq<Node>)

  /** What a `find`/`select` looks for: an optional tag name and an optional
      attribute that must have the given value. */
  datatype Query = Query(tag: Option<string>, attr: Option<(string, string)>)

  function ByTag(tag: string): Query {
    Query(Some(tag), None)
  }

  function ByAttr(tag: Option<string>, key: string, value: string): Query {
    Query(tag, Some((key, value)))
  }

  predicate Matches(n: Node, q: Query) {
    n.tag != "" &&
    (q.tag.None? || n.tag == q.tag.value) &&
    (q.attr.None? || (q.attr.value.0 in n.attrs && n.attrs[q.attr.value.0] == q.attr.value.1))
  }

  /** Every element of the forest `ns` that matches `q`, roots included, in
      document (preorder) order: what `select` returns. */
  function Select(ns: seq<Node>, q: Query): seq<Node>
    decreases ns
  {
    if ns == [] then []
    else (if Matches(ns[0], q) then [ns[0]] else []) + Select(ns[0].children, q) + Select(ns[1..], q)
  }

  /** The first element of the forest that matches `q`, in document order,
      together with its `next_sibling` (None when it is the last child):
      what `find` returns. */
  function Find(ns: seq<Node>, q: Query): Option<(Node, Option<Node>)>
    decreases ns
  {
    if ns == [] then None
    else if Matches(ns[0], q) then Some((ns[0], if |ns| > 1 then Some(ns[1]) else None))
    else match Find(ns[0].children, q)
      case Some(r) => Some(r)
      case None => Find(ns[1..], q)
  }

  /** `.text` of a forest: the text of each root, in order. */
  function AllText(ns: seq<Node>): string {
    if ns == [] then "" else ns[0].text + AllText(ns[1..])
  }

  predicate AllHaveHref(anchors: seq<Node>) {
    forall k :: 0 <= k < |anchors| ==> "href" in anchors[k].attrs
  }

  /** `[a["href"] for a in anchors]`: KeyError at the first anchor without an href. */
  function Hrefs(anchors: seq<Node>): Result<seq<string>> {
    if anchors == [] then Ok([])
    else if "href" !in anchors[0].attrs then Err(MissingAttribute("href"))
    else match Hrefs(anchors[1..])
      case Ok(rest) => Ok([anchors[0].attrs["href"]] + rest)
      case Err(e) => Err(e)
  }

  /** The elements `SoupStrainer` keeps of a document: each outermost
      element matching `q`, with everything inside it, in document order. */
  function Kept(ns: seq<Node>, q: Query): seq<Node>
    decreases ns
  {
    if ns == [] then []
    else (if Matches(ns[0], q) then [ns[0]] else Kept(ns[0].children, q)) + Kept(ns[1..], q)
  }

  /** What a strainer keeps of a page: the kept elements, or None when
      nothing is kept and the soup is false. */
  type Soup = Option<seq<Node>>

  function Strain(ns: seq<Node>, q: Query): Soup {
    var kept := Kept(ns, q);
    if kept == [] then None else Some(kept)
  }

  /** The profile URLs of a listing page: none when the strained list is
      falsy, otherwise the href of every anchor in it. */
  function LinkList(list: Soup): Result<seq<string>> {
    match list
    case None => Ok([])
    case Some(ns) => Hrefs(Select(ns, ByTag("a")))
  }

  // ---------- Lemmas

  /** Document order: the matches in a forest made of two parts are those
      of the first part, then those of the second. */
  lemma {:induction false} SelectAppend(a: seq<Node>, b: seq<Node>, q: Query)
    ensures Select(a + b, q) == Select(a, q) + Select(b, q)
  {
    if a == [] {
      assert a + b == b;
    } else {
      assert (a + b)[0] == a[0];
      assert (a + b)[1..] == a[1..] + b;
      SelectAppend(a[1..], b, q);
    }
  }

  /** `find` succeeds exactly when `select` finds something, and then finds
      its first element. */
  lemma {:induction false} FindIsFirst(ns: seq<Node>, q: Query)
    ensures Find(ns, q).None? <==> Select(ns, q) == []
    ensures Find(ns, q).Some? ==> Find(ns, q).value.0 == Select(ns, q)[0] && Matches(Find(ns, q).value.0, q)
    decreases ns
  {
    if ns != [] && !Matches(ns[0], q) {
      FindIsFirst(ns[0].children, q);
      FindIsFirst(ns[1..], q);
    }
  }

  lemma {:induction false} HrefsSpec(anchors: seq<Node>)
    ensures Hrefs(anchors).Ok? <==> AllHaveHref(anchors)
    ensures Hrefs(anchors).Ok? ==>
              |Hrefs(anchors).value| == |anchors| &&
              forall k :: 0 <= k < |anchors| ==> Hrefs(anchors).value[k] == anchors[k].attrs["href"]
  {
    if anchors != [] {
      HrefsSpec(anchors[1..]);
      assert forall k :: 0 < k < |anchors| ==> anchors[k] == anchors[1..][k - 1];
    }
  }

  /** An absent container gives no links; a present one gives one link per
      anchor, in document order, or a KeyError if an anchor has no href. */
  lemma {:induction false} LinkListSpec(list: Soup)
    ensures list.None? ==> LinkList(list) == Ok([])
    ensures list.Some? ==>
              var anchors := Select(list.value, ByTag("a"));
              (LinkList(list).Ok? <==> AllHaveHref(anchors)) &&
              (LinkList(list).Ok? ==>
                 |LinkList(list).value| == |anchors| &&
                 forall k :: 0 <= k < |anchors| ==> LinkList(list).value[k] == anchors[k].attrs["href"])
  {
    if list.Some? {
      var anchors := Select(list.value, ByTag("a"));
      HrefsSpec(anchors);
      assert LinkList(list) == Hrefs(anchors);
    }
  }

  /** The strainer keeps only matching elements, each of them one that
      `select` finds, and keeps nothing exactly when nothing matches. */
  lemma {:induction false} KeptSpec(ns: seq<Node>, q: Query)
    ensures forall k :: 0 <= k < |Kept(ns, q)| ==> Matches(Kept(ns, q)[k], q) && Kept(ns, q)[k] in Select(ns, q)
    ensures Kept(ns, q) == [] <==> Select(ns, q) == []
    decreases ns
  {
    if ns != [] {
      KeptSpec(ns[0].children, q);
      KeptSpec(ns[1..], q);
      var head := if Matches(ns[0], q) then [ns[0]] else [];
      var sel := head + Select(ns[0].children, q) + Select(ns[1..], q);
      var first := if Matches(ns[0], q) then [ns[0]] else Kept(ns[0].children, q);
      var kept := first + Kept(ns[1..], q);
      forall k | 0 <= k < |kept| ensures Matches(kept[k], q) && kept[k] in sel {
        if k < |first| {
          assert kept[k] == first[k];
        } else {
          assert kept[k] == Kept(ns[1..], q)[k - |first|];
        }
      }
    }
  }
}
