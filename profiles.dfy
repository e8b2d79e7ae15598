/** Profile records: the ordered stats dictionary, the record itself, its
    text display (`Profile.__str__`) and the list of known stat names. */
module Profiles {
  import opened Wrappers
  import opened Numbers
  import Seqs

  type Entry = (string, string)

  predicate UniqueKeys(m: seq<Entry>) {
    forall i, j :: 0 <= i < j < |m| ==> m[i].0 != m[j].0
  }

  /** A Python dict from str to str: its entries in insertion order, each key once. */
  type Stats = m: seq<Entry> | UniqueKeys(m)

  function Keys(m: seq<Entry>): seq<string> {
    seq(|m|, i requires 0 <= i < |m| => m[i].0)
  }

  /** The position of key `k` in `m`, if it is there. */
  function IndexOf(m: seq<Entry>, k: string): (r: Option<nat>)
    ensures r.Some? ==> r.value < |m| && m[r.value].0 == k
    ensures r.None? ==> forall i :: 0 <= i < |m| ==> m[i].0 != k
  {
    if m == [] then None
    else if m[0].0 == k then Some(0)
    else match IndexOf(m[1..], k)
      case Some(i) => Some(i + 1)
      case None => None
  }

  /** `m[k]` when `k in m`, None otherwise. */
  function Lookup(m: Stats, k: string): Option<string> {
    match IndexOf(m, k)
    case Some(i) => Some(m[i].1)
    case None => None
  }

  /** `m[k] = v` (also `m.update({k: v})`): an existing key keeps its place
      and takes the new value, a new key is added last. */
  function Put(m: Stats, k: string, v: string): Stats {
    match IndexOf(m, k)
    case Some(i) => m[i := (k, v)]
    case None => m + [(k, v)]
  }

  /** A profile: its stats and its description, stored as given. */
  datatype Profile = Profile(stats: Stats, description: string)

  /** `Profile.fields`: the stat names known to appear on profiles. */
  function Fields(): (r: seq<string>)
    ensures |r| == 9 && r[0] == "Name" && r[1] == "Net Worth" && Seqs.NoDup(r)
  {
    ["Name", "Net Worth", "Salary", "Date of Birth", "Gender", "Height",
     "Profession", "Nationality", "Last Updated"]
  }

  /** `f"{key}: {value}\n"`. */
  function Line(e: Entry): string {
    e.0 + ": " + e.1 + "\n"
  }

  function Lines(m: seq<Entry>): string {
    if m == [] then "" else Line(m[0]) + Lines(m[1..])
  }

  /** The description as displayed: descriptions longer than 200 characters
      are cut to their first 199 characters followed by " ...". */
  function Shown(d: string): string {
    if |d| > 200 then d[..199] + " ..." else d
  }

  /** `str(profile)`: one line per stat in dictionary order, net worth shown
      as `$` and the comma-grouped integer, then the description. KeyError
      without a net worth, ValueError when it is not an integer. */
  function Render(p: Profile): Result<string> {
    match Lookup(p.stats, "Net Worth")
    case None => Err(MissingKey("Net Worth"))
    case Some(w) =>
      match ParseInt(w)
      case None => Err(NotAnInteger(w))
      case Some(n) =>
        Ok(Lines(Put(p.stats, "Net Worth", "$" + Grouped(n))) + "Description: " + Shown(p.description))
  }

  // ---------- Lemmas

  lemma {:induction false} IndexOfUnique(m: Stats, i: nat)
    requires i < |m|
    ensures IndexOf(m, m[i].0) == Some(i)
  {
  }

  /** Setting a key: that key now maps to the new value and every other
      key keeps its value. */
  lemma {:induction false} PutLookup(m: Stats, k: string, v: string)
    ensures Lookup(Put(m, k, v), k) == Some(v)
    ensures forall k' :: k' != k ==> Lookup(Put(m, k, v), k') == Lookup(m, k')
  {
    var r := Put(m, k, v);
    IndexOfUnique(r, match IndexOf(m, k) case Some(i) => i case None => |m|);
    forall k' | k' != k ensures Lookup(r, k') == Lookup(m, k') {
      match IndexOf(m, k')
      case Some(j) => IndexOfUnique(r, j);
      case None =>
    }
  }

  /** Setting a key keeps every existing entry in its place and changes
      only the entry of that key. */
  lemma {:induction false} PutKeepsPlaces(m: Stats, k: string, v: string)
    ensures |Put(m, k, v)| >= |m|
    ensures forall i :: 0 <= i < |m| ==> Put(m, k, v)[i].0 == m[i].0
    ensures forall i :: 0 <= i < |m| && m[i].0 != k ==> Put(m, k, v)[i] == m[i]
  {
  }

  lemma {:induction false} KeysSnoc(m: seq<Entry>, e: Entry)
    ensures Keys(m + [e]) == Keys(m) + [e.0]
  {
    var r := m + [e];
    assert forall k :: 0 <= k < |m| ==> r[k] == m[k];
  }

  /** The keys stay in first-insertion order: a new key is appended, an
      existing one stays where it is. */
  lemma {:induction false} PutKeys(m: Stats, k: string, v: string)
    ensures Keys(Put(m, k, v)) == Seqs.Dedup(Keys(m) + [k])
  {
    var r := Put(m, k, v);
    var ks := Keys(m) + [k];
    assert ks[..|ks| - 1] == Keys(m);
    Seqs.DedupOfNoDup(Keys(m));
    if IndexOf(m, k).Some? {
      assert k in Keys(m) by { assert Keys(m)[IndexOf(m, k).value] == k; }
      assert Keys(r) == Keys(m);
    } else {
      assert k !in Keys(m);
      assert Keys(r) == Keys(m) + [k];
    }
  }

  lemma {:induction false} LinesAppend(a: seq<Entry>, b: seq<Entry>)
    ensures Lines(a + b) == Lines(a) + Lines(b)
  {
    if a == [] {
      assert a + b == b;
    } else {
      assert (a + b)[0] == a[0];
      assert (a + b)[1..] == a[1..] + b;
      LinesAppend(a[1..], b);
    }
  }

  /** The display holds one `key: value` line per stat, in dictionary order. */
  lemma {:induction false} LinesAt(m: seq<Entry>, i: nat)
    requires i < |m|
    ensures Lines(m) == Lines(m[..i]) + Line(m[i]) + Lines(m[i + 1..])
  {
    assert m == m[..i] + m[i..];
    LinesAppend(m[..i], m[i..]);
    assert m[i..][0] == m[i] && m[i..][1..] == m[i + 1..];
  }

  /** The display of a profile whose net worth is the integer `n`: the
      stats before it and after it unchanged, the net worth line as `$` and
      the grouped digits, then the shown description. */
  lemma {:induction false} RenderLayout(p: Profile, i: nat, n: int)
    requires i < |p.stats| && p.stats[i].0 == "Net Worth" && ParseInt(p.stats[i].1) == Some(n)
    ensures Render(p) == Ok(Lines(p.stats[..i]) + Line(("Net Worth", "$" + Grouped(n))) +
                            Lines(p.stats[i + 1..]) + "Description: " + Shown(p.description))
  {
    var m := p.stats;
    IndexOfUnique(m, i);
    var g := "$" + Grouped(n);
    var r := Put(m, "Net Worth", g);
    assert r == m[i := ("Net Worth", g)];
    assert r[..i] == m[..i] && r[i + 1..] == m[i + 1..];
    LinesAt(r, i);
    assert Lookup(m, "Net Worth") == Some(m[i].1);
  }

  /** The display exists exactly when there is a net worth that reads as an integer. */
  lemma {:induction false} RenderOkIff(p: Profile)
    ensures Render(p).Ok? <==>
              exists i :: 0 <= i < |p.stats| && p.stats[i].0 == "Net Worth" && ParseInt(p.stats[i].1).Some?
  {
    if i :| 0 <= i < |p.stats| && p.stats[i].0 == "Net Worth" && ParseInt(p.stats[i].1).Some? {
      IndexOfUnique(p.stats, i);
    }
  }

  /** A description of at most 200 characters is shown whole; a longer one
      as its first 199 characters and " ...", 203 characters in all. */
  lemma {:induction false} ShownSpec(d: string)
    ensures |d| <= 200 ==> Shown(d) == d
    ensures |d| > 200 ==> |Shown(d)| == 203 && Shown(d)[..199] == d[..199] && Shown(d)[199..] == " ..."
  {
  }
}
