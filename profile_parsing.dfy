/** `parse_profile`: a profile page, given as its parsed element tree,
    turned into a Profile. `ProfileOf` says what the result is and
    `ParseProfile` computes it the way the source does, updating the stats
    row by row and collecting the description paragraph by paragraph. */
module ProfileParsing {
  import opened Wrappers
  import opened Document
  import opened Profiles
  import Seqs
  import Text

  // ---------- Where the parts of a profile are found on its page

  const NameQuery := ByAttr(None, "itemprop", "name")
  const StatsQuery := ByAttr(Some("table"), "class", "celeb_stats_table")
  const PriceQuery := ByAttr(Some("meta"), "itemprop", "price")
  const DescriptionQuery := ByAttr(None, "itemprop", "description")

  /** `soup.find(...)["content"]`: a TypeError when nothing was found, a
      KeyError when the element has no `content` attribute. */
  function Content(found: Option<(Node, Option<Node>)>, what: string): Result<string> {
    match found
    case None => Err(MissingElement(what))
    case Some((n, _)) =>
      if "content" in n.attrs then Ok(n.attrs["content"]) else Err(MissingAttribute("content"))
  }

  // ---------- The stats table

  /** `s[:-1]`. */
  function DropLast(s: string): string {
    if s == [] then s else s[..|s| - 1]
  }

  /** One table row: its first cell's text without the last character, and
      the text of the node after that cell. An AttributeError when the row
      has no cell or the cell is the row's last node. */
  function RowEntry(row: Node): Result<Entry> {
    match Find(row.children, ByTag("td"))
    case None => Err(MissingElement("td"))
    case Some((td, None)) => Err(MissingElement("next_sibling"))
    case Some((td, Some(next))) => Ok((DropLast(td.text), next.text))
  }

  /** The entries of the rows, in order; the error of the first row that has none. */
  function Entries(rows: seq<Node>): Result<seq<Entry>>
    decreases |rows|
  {
    if rows == [] then Ok([])
    else match Entries(rows[..|rows| - 1])
      case Err(e) => Err(e)
      case Ok(es) =>
        match RowEntry(rows[|rows| - 1])
        case Err(e) => Err(e)
        case Ok(x) => Ok(es + [x])
  }

  /** `m.update({k: v})` for each entry in turn. */
  function PutAll(m: Stats, es: seq<Entry>): Stats
    decreases |es|
  {
    if es == [] then m
    else var x := es[|es| - 1]; Put(PutAll(m, es[..|es| - 1]), x.0, x.1)
  }

  /** The value of the last entry with key `k`. */
  function LastValue(es: seq<Entry>, k: string): Option<string>
    decreases |es|
  {
    if es == [] then None
    else if es[|es| - 1].0 == k then Some(es[|es| - 1].1)
    else LastValue(es[..|es| - 1], k)
  }

  // ---------- The description

  predicate IsJunk(n: Node) {
    n.tag == "div" || n.tag == "img" || n.tag == "table" || n.tag == "style"
  }

  predicate IsList(n: Node) {
    n.tag == "ul" || n.tag == "ol"
  }

  function Paragraph(n: Node): string {
    n.text + "\n\n"
  }

  /** What one child of the description contributes: nothing for junk, a
      paragraph per item for a list, a paragraph of its own otherwise. */
  function ChildParagraphs(n: Node): seq<string> {
    if IsJunk(n) then []
    else if IsList(n) then seq(|n.children|, i requires 0 <= i < |n.children| => Paragraph(n.children[i]))
    else [Paragraph(n)]
  }

  /** The paragraphs of the description's children, in order. */
  function Paragraphs(ns: seq<Node>): seq<string> {
    if ns == [] then [] else ChildParagraphs(ns[0]) + Paragraphs(ns[1..])
  }

  /** The description: "" when it is not wanted, an AttributeError when it is
      wanted and the page has none, the joined paragraphs otherwise. */
  function Description(page: seq<Node>, includeDescription: bool): Result<string> {
    if !includeDescription then Ok("")
    else match Find(page, DescriptionQuery)
      case None => Err(MissingElement("description"))
      case Some((d, _)) => Ok(Text.Concat(Paragraphs(d.children)))
  }

  // ---------- The whole profile

  /** The profile of a page (the elements kept by the `single__main`
      strainer), or the error the source raises first: the name, the stats
      table and its rows, the price, then the description. */
  function ProfileOf(page: seq<Node>, includeDescription: bool): Result<Profile> {
    match Content(Find(page, NameQuery), "name")
    case Err(e) => Err(e)
    case Ok(name) =>
      match Find(page, StatsQuery)
      case None => Err(MissingElement("table"))
      case Some((table, _)) =>
        match Entries(table.children)
        case Err(e) => Err(e)
        case Ok(es) =>
          match Content(Find(page, PriceQuery), "price")
          case Err(e) => Err(e)
          case Ok(worth) =>
            match Description(page, includeDescription)
            case Err(e) => Err(e)
            case Ok(d) => Ok(Profile(Put(PutAll([("Name", name)], es), "Net Worth", worth), d))
  }

  /** The row loop of `parse_profile`: `data.update(...)` with each row's
      entry in turn, stopping at the first row without one. */
  method UpdateRows(init: Stats, rows: seq<Node>) returns (r: Result<Stats>)
    ensures Entries(rows).Err? ==> r == Err(Entries(rows).error)
    ensures Entries(rows).Ok? ==> r == Ok(PutAll(init, Entries(rows).value))
  {
    var data := init;
    var i := 0;
    while i < |rows|
      invariant 0 <= i <= |rows|
      invariant Entries(rows[..i]).Ok?
      invariant data == PutAll(init, Entries(rows[..i]).value)
    {
      assert rows[..i + 1][..i] == rows[..i];
      var entry := RowEntry(rows[i]);
      if entry.Err? {
        EntriesErrPrefix(rows, i + 1);
        return Err(entry.error);
      }
      data := Put(data, entry.value.0, entry.value.1);
      i := i + 1;
    }
    assert rows[..i] == rows;
    r := Ok(data);
  }

  /** `for li in tag: desc.append(li.text + '\n\n')`. */
  method AppendItems(parts: seq<string>, items: seq<Node>) returns (r: seq<string>)
    ensures r == parts + seq(|items|, i requires 0 <= i < |items| => Paragraph(items[i]))
  {
    r := parts;
    var k := 0;
    while k < |items|
      invariant 0 <= k <= |items|
      invariant r == parts + seq(k, i requires 0 <= i < k => Paragraph(items[i]))
    {
      r := r + [Paragraph(items[k])];
      k := k + 1;
    }
  }

  /** The description loop of `parse_profile`: the paragraphs of the
      children, junk skipped and lists taken item by item. */
  method CollectParagraphs(children: seq<Node>) returns (parts: seq<string>)
    ensures parts == Paragraphs(children)
  {
    parts := [];
    var j := 0;
    while j < |children|
      invariant 0 <= j <= |children|
      invariant parts == Paragraphs(children[..j])
    {
      var tag := children[j];
      ParagraphsSnoc(children, j);
      if IsJunk(tag) {
      } else if IsList(tag) {
        parts := AppendItems(parts, tag.children);
      } else {
        parts := parts + [Paragraph(tag)];
      }
      j := j + 1;
    }
    assert children[..j] == children;
  }

  /** `parse_profile(page_html)`. */
  method ParseProfile(page: seq<Node>, includeDescription: bool) returns (r: Result<Profile>)
    ensures r == ProfileOf(page, includeDescription)
  {
    var name := Content(Find(page, NameQuery), "name");
    if name.Err? {
      return Err(name.error);
    }
    var stats := Find(page, StatsQuery);
    if stats.None? {
      return Err(MissingElement("table"));
    }
    var data := UpdateRows([("Name", name.value)], stats.value.0.children);
    if data.Err? {
      return Err(data.error);
    }
    var worth := Content(Find(page, PriceQuery), "price");
    if worth.Err? {
      return Err(worth.error);
    }
    var desc := "";
    if includeDescription {
      var found := Find(page, DescriptionQuery);
      if found.None? {
        return Err(MissingElement("description"));
      }
      var parts := CollectParagraphs(found.value.0.children);
      desc := Text.Concat(parts);
    }
    r := Ok(Profile(Put(data.value, "Net Worth", worth.value), desc));
  }

  // ---------- Lemmas

  /** Once a prefix of the rows fails, the whole table fails the same way. */
  lemma {:induction false} EntriesErrPrefix(rows: seq<Node>, n: nat)
    requires n <= |rows| && Entries(rows[..n]).Err?
    ensures Entries(rows) == Entries(rows[..n])
    decreases |rows| - n
  {
    if n < |rows| {
      var rows' := rows[..n + 1];
      assert rows'[..n] == rows[..n];
      assert Entries(rows') == Entries(rows[..n]);
      assert rows[..n + 1] == rows';
      EntriesErrPrefix(rows, n + 1);
    } else {
      assert rows[..n] == rows;
    }
  }

  /** The table gives one entry per row, each the row's own entry. */
  lemma {:induction false} EntriesSpec(rows: seq<Node>)
    ensures Entries(rows).Ok? <==> forall k :: 0 <= k < |rows| ==> RowEntry(rows[k]).Ok?
    ensures Entries(rows).Ok? ==>
              |Entries(rows).value| == |rows| &&
              forall k :: 0 <= k < |rows| ==> Entries(rows).value[k] == RowEntry(rows[k]).value
    decreases |rows|
  {
    if rows != [] {
      var p := rows[..|rows| - 1];
      EntriesSpec(p);
      assert forall k :: 0 <= k < |p| ==> p[k] == rows[k];
    }
  }

  /** The keys of the stats after the updates: the keys already there, then
      each new key at its first occurrence; an existing key keeps its place. */
  lemma {:induction false} PutAllKeys(m: Stats, es: seq<Entry>)
    ensures Keys(PutAll(m, es)) == Seqs.Dedup(Keys(m) + Keys(es))
    decreases |es|
  {
    if es == [] {
      Seqs.DedupOfNoDup(Keys(m));
      assert Keys(m) + Keys(es) == Keys(m);
    } else {
      var p, x := es[..|es| - 1], es[|es| - 1];
      var q := PutAll(m, p);
      var a := Keys(m) + Keys(p);
      assert Keys(PutAll(m, es)) == Seqs.Dedup(Keys(q) + [x.0]) by {
        assert PutAll(m, es) == Put(q, x.0, x.1);
        PutKeys(q, x.0, x.1);
      }
      assert Keys(q) == Seqs.Dedup(a) by {
        PutAllKeys(m, p);
      }
      assert Seqs.Dedup(Seqs.Dedup(a) + [x.0]) == Seqs.Dedup(a + [x.0]) by {
        Seqs.DedupSnoc(a, x.0);
      }
      assert Keys(m) + Keys(es) == a + [x.0] by {
        assert es == p + [x];
        KeysSnoc(p, x);
      }
    }
  }

  /** After the updates a key has the value of its last entry, or its old
      value when no entry has it: a later row overwrites an earlier one. */
  lemma {:induction false} PutAllLookup(m: Stats, es: seq<Entry>, k: string)
    ensures Lookup(PutAll(m, es), k) == if LastValue(es, k).Some? then LastValue(es, k) else Lookup(m, k)
    decreases |es|
  {
    if es != [] {
      var p, x := es[..|es| - 1], es[|es| - 1];
      PutAllLookup(m, p, k);
      PutLookup(PutAll(m, p), x.0, x.1);
    }
  }

  /** The updates keep the first entry's key in first place. */
  lemma {:induction false} PutAllKeepsFirst(m: Stats, es: seq<Entry>)
    requires |m| > 0
    ensures |PutAll(m, es)| > 0 && PutAll(m, es)[0].0 == m[0].0
    decreases |es|
  {
    if es != [] {
      var p, x := es[..|es| - 1], es[|es| - 1];
      PutAllKeepsFirst(m, p);
      PutKeepsPlaces(PutAll(m, p), x.0, x.1);
    }
  }

  /** A parsed profile has "Name" as its first key and the price's content
      as its net worth, whatever the table says; its keys are "Name", then
      the row keys in first-occurrence order, then "Net Worth" if no row
      had it. */
  lemma {:induction false} ProfileOfStats(page: seq<Node>, includeDescription: bool)
    requires ProfileOf(page, includeDescription).Ok?
    ensures var p := ProfileOf(page, includeDescription).value;
            var table := Find(page, StatsQuery).value.0;
            |p.stats| > 0 && p.stats[0].0 == "Name" &&
            Lookup(p.stats, "Net Worth") == Some(Content(Find(page, PriceQuery), "price").value) &&
            Keys(p.stats) == Seqs.Dedup(["Name"] + Keys(Entries(table.children).value) + ["Net Worth"])
  {
    var name := Content(Find(page, NameQuery), "name").value;
    var table := Find(page, StatsQuery).value.0;
    var es := Entries(table.children).value;
    var worth := Content(Find(page, PriceQuery), "price").value;
    assert ProfileOf(page, includeDescription).value.stats == Put(PutAll([("Name", name)], es), "Net Worth", worth);
    BuiltStats(name, es, worth);
  }

  /** The stats `parse_profile` builds: the name first, then the rows, then the price. */
  lemma {:induction false} BuiltStats(name: string, es: seq<Entry>, worth: string)
    ensures var m := Put(PutAll([("Name", name)], es), "Net Worth", worth);
            |m| > 0 && m[0].0 == "Name" && Lookup(m, "Net Worth") == Some(worth) &&
            Keys(m) == Seqs.Dedup(["Name"] + Keys(es) + ["Net Worth"])
  {
    var init: Stats := [("Name", name)];
    var m := PutAll(init, es);
    PutAllKeepsFirst(init, es);
    PutLookup(m, "Net Worth", worth);
    PutKeys(m, "Net Worth", worth);
    PutKeepsPlaces(m, "Net Worth", worth);
    PutAllKeys(init, es);
    Seqs.DedupSnoc(Keys(init) + Keys(es), "Net Worth");
    assert Keys(init) == ["Name"];
  }

  /** A row whose entry is the last one with its key sets that key's value
      (unless the key is "Net Worth", which the price sets). */
  lemma {:induction false} RowValueWins(page: seq<Node>, includeDescription: bool, table: Node, es: seq<Entry>, j: nat)
    requires ProfileOf(page, includeDescription).Ok?
    requires Find(page, StatsQuery).Some? && Find(page, StatsQuery).value.0 == table
    requires Entries(table.children) == Ok(es)
    requires j < |es| && es[j].0 != "Net Worth" && forall k :: j < k < |es| ==> es[k].0 != es[j].0
    ensures Lookup(ProfileOf(page, includeDescription).value.stats, es[j].0) == Some(es[j].1)
  {
    var name := Content(Find(page, NameQuery), "name").value;
    var init: Stats := [("Name", name)];
    LastValueOf(es, j);
    PutAllLookup(init, es, es[j].0);
    PutLookup(PutAll(init, es), "Net Worth", Content(Find(page, PriceQuery), "price").value);
  }

  lemma {:induction false} LastValueOf(es: seq<Entry>, j: nat)
    requires j < |es| && forall k :: j < k < |es| ==> es[k].0 != es[j].0
    ensures LastValue(es, es[j].0) == Some(es[j].1)
    decreases |es|
  {
    if j < |es| - 1 {
      var p := es[..|es| - 1];
      LastValueOf(p, j);
    }
  }

  lemma {:induction false} ParagraphsAppend(a: seq<Node>, b: seq<Node>)
    ensures Paragraphs(a + b) == Paragraphs(a) + Paragraphs(b)
  {
    if a == [] {
      assert a + b == b;
    } else {
      assert (a + b)[0] == a[0];
      assert (a + b)[1..] == a[1..] + b;
      ParagraphsAppend(a[1..], b);
    }
  }

  /** One more child adds its own paragraphs at the end. */
  lemma {:induction false} ParagraphsSnoc(ns: seq<Node>, j: nat)
    requires j < |ns|
    ensures Paragraphs(ns[..j + 1]) == Paragraphs(ns[..j]) + ChildParagraphs(ns[j])
  {
    assert ns[..j + 1] == ns[..j] + [ns[j]];
    ParagraphsAppend(ns[..j], [ns[j]]);
    assert Paragraphs([ns[j]]) == ChildParagraphs(ns[j]) + Paragraphs([]);
  }

  predicate EndsWithBreak(s: string) {
    |s| >= 2 && s[|s| - 2..] == "\n\n"
  }

  /** Every paragraph of the description ends with a blank line. */
  lemma {:induction false} ParagraphsSpec(ns: seq<Node>)
    ensures forall k :: 0 <= k < |Paragraphs(ns)| ==> EndsWithBreak(Paragraphs(ns)[k])
    decreases |ns|
  {
    if ns != [] {
      var n, p := ns[0], ns[1..];
      ParagraphsSpec(p);
      var cs := ChildParagraphs(n);
      forall k | 0 <= k < |cs| ensures EndsWithBreak(cs[k]) {
        var t := if IsList(n) then n.children[k].text else n.text;
        assert cs[k] == t + "\n\n";
        assert (t + "\n\n")[|t|..] == "\n\n";
      }
      assert Paragraphs(ns) == cs + Paragraphs(p);
    }
  }

  /** One paragraph per list item, in order. */
  lemma {:induction false} ListParagraphs(n: Node)
    requires IsList(n)
    ensures |ChildParagraphs(n)| == |n.children|
    ensures forall k :: 0 <= k < |n.children| ==> ChildParagraphs(n)[k] == n.children[k].text + "\n\n"
  {
  }

  /** Without the description wanted, the description is "" and no
      description element is needed. */
  lemma {:induction false} NoDescription(page: seq<Node>)
    ensures Description(page, false) == Ok("")
    ensures ProfileOf(page, false).Ok? ==> ProfileOf(page, false).value.description == ""
  {
  }
}
