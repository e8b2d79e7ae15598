/** `sort_profiles`: Python's stable `sorted` keyed on the profile's name or
    its integer net worth, ascending or descending; any other key leaves the
    list as it is. */
module Sorting {
  import opened Wrappers
  import opened Profiles
  import opened Numbers

  // ---------- Python's ordering of the keys

  /** Python's `<` on str: character by character by code point, a proper
      prefix first. */
  predicate LexLess(a: string, b: string) {
    if a == [] then b != []
    else if b == [] then false
    else if a[0] != b[0] then a[0] < b[0]
    else LexLess(a[1..], b[1..])
  }

  /** A sort key: `stats["Name"]` or `int(stats["Net Worth"])`. All the keys
      of one sort are of one kind, so the order between a name and a worth
      is never consulted; it is fixed only to make the order total. */
  datatype Key = NameKey(name: string) | WorthKey(worth: int)

  predicate KeyLess(a: Key, b: Key) {
    match (a, b)
    case (NameKey(x), NameKey(y)) => LexLess(x, y)
    case (WorthKey(x), WorthKey(y)) => x < y
    case (NameKey(_), WorthKey(_)) => true
    case (WorthKey(_), NameKey(_)) => false
  }

  /** Whether key `x` goes before key `y`: smaller when ascending, larger
      when descending (`reverse=not sort_ascending`). */
  predicate Before(x: Key, y: Key, ascending: bool) {
    if ascending then KeyLess(x, y) else KeyLess(y, x)
  }

  // ---------- Keys of profiles

  const SortKeys := ["name", "worth"]

  /** The key function of the sort: KeyError for a missing stat, ValueError
      for a net worth that is not an integer. */
  function KeyOf(p: Profile, sortBy: string): Result<Key> {
    if sortBy == "name" then
      match Lookup(p.stats, "Name")
      case None => Err(MissingKey("Name"))
      case Some(n) => Ok(NameKey(n))
    else
      match Lookup(p.stats, "Net Worth")
      case None => Err(MissingKey("Net Worth"))
      case Some(w) =>
        match ParseInt(w)
        case None => Err(NotAnInteger(w))
        case Some(n) => Ok(WorthKey(n))
  }

  type Keyed = (Key, Profile)

  /** Every profile with its key, computed front to back as `sorted` does;
      the error of the first profile without a key. */
  function KeyAll(ps: seq<Profile>, sortBy: string): Result<seq<Keyed>> {
    if ps == [] then Ok([])
    else match KeyOf(ps[0], sortBy)
      case Err(e) => Err(e)
      case Ok(k) =>
        match KeyAll(ps[1..], sortBy)
        case Err(e) => Err(e)
        case Ok(rest) => Ok([(k, ps[0])] + rest)
  }

  function Seconds(s: seq<Keyed>): seq<Profile> {
    seq(|s|, i requires 0 <= i < |s| => s[i].1)
  }

  // ---------- The stable sort

  /** `x` placed before the first element it goes before, so after every
      element whose key is not greater: equal keys keep their order. */
  function Insert(x: Keyed, s: seq<Keyed>, ascending: bool): seq<Keyed> {
    if s == [] then [x]
    else if Before(x.0, s[0].0, ascending) then [x] + s
    else [s[0]] + Insert(x, s[1..], ascending)
  }

  function SortKeyed(xs: seq<Keyed>, ascending: bool): seq<Keyed>
    decreases |xs|
  {
    if xs == [] then []
    else Insert(xs[|xs| - 1], SortKeyed(xs[..|xs| - 1], ascending), ascending)
  }

  /** `sort_profiles(profiles, sort_by, sort_ascending)`. */
  function SortProfiles(ps: seq<Profile>, sortBy: string, ascending: bool): Result<seq<Profile>> {
    if sortBy in SortKeys then
      match KeyAll(ps, sortBy)
      case Err(e) => Err(e)
      case Ok(kps) => Ok(Seconds(SortKeyed(kps, ascending)))
    else Ok(ps)
  }

  // ---------- What the sort promises

  predicate Sorted(s: seq<Keyed>, ascending: bool) {
    forall i, j :: 0 <= i < j < |s| ==> !Before(s[j].0, s[i].0, ascending)
  }

  /** The elements whose key is `k`, in order. */
  function WithKey(s: seq<Keyed>, k: Key): seq<Keyed> {
    if s == [] then [] else (if s[0].0 == k then [s[0]] else []) + WithKey(s[1..], k)
  }

  /** The profiles whose key is `k`, in order. */
  function ProfilesWithKey(ps: seq<Profile>, sortBy: string, k: Key): seq<Profile> {
    if ps == [] then []
    else (if KeyOf(ps[0], sortBy) == Ok(k) then [ps[0]] else []) + ProfilesWithKey(ps[1..], sortBy, k)
  }

  /** Every pair holds its profile's own key. */
  predicate KeysOf(s: seq<Keyed>, sortBy: string) {
    forall i :: 0 <= i < |s| ==> KeyOf(s[i].1, sortBy) == Ok(s[i].0)
  }

  // ---------- Lemmas: the key order

  lemma {:induction false} LexLessStrictTotal(a: string, b: string)
    ensures LexLess(a, b) ==> !LexLess(b, a) && a != b
    ensures a != b ==> LexLess(a, b) || LexLess(b, a)
  {
    if a != [] && b != [] && a[0] == b[0] {
      LexLessStrictTotal(a[1..], b[1..]);
      assert a == [a[0]] + a[1..] && b == [b[0]] + b[1..];
    }
  }

  lemma {:induction false} LexLessTransitive(a: string, b: string, c: string)
    requires LexLess(a, b) && LexLess(b, c)
    ensures LexLess(a, c)
  {
    if a != [] && a[0] == b[0] && b[0] == c[0] {
      LexLessTransitive(a[1..], b[1..], c[1..]);
    }
  }

  /** The key order is a strict total order, in both directions. */
  lemma {:induction false} BeforeStrictTotal(x: Key, y: Key, ascending: bool)
    ensures Before(x, y, ascending) ==> !Before(y, x, ascending) && x != y
    ensures x != y ==> Before(x, y, ascending) || Before(y, x, ascending)
  {
    if x.NameKey? && y.NameKey? {
      LexLessStrictTotal(x.name, y.name);
    }
  }

  lemma {:induction false} BeforeTransitive(x: Key, y: Key, z: Key, ascending: bool)
    requires Before(x, y, ascending) && Before(y, z, ascending)
    ensures Before(x, z, ascending)
  {
    if x.NameKey? && y.NameKey? && z.NameKey? {
      if ascending {
        LexLessTransitive(x.name, y.name, z.name);
      } else {
        LexLessTransitive(z.name, y.name, x.name);
      }
    }
  }

  /** For the worth key the order is the integers', for the name key Python's on str. */
  lemma {:induction false} KeyLessMeaning(a: Key, b: Key)
    ensures a.WorthKey? && b.WorthKey? ==> (KeyLess(a, b) <==> a.worth < b.worth)
    ensures a.NameKey? && b.NameKey? ==> (KeyLess(a, b) <==> LexLess(a.name, b.name))
  {
  }

  // ---------- Lemmas: the sort

  lemma {:induction false} InsertPermutes(x: Keyed, s: seq<Keyed>, ascending: bool)
    ensures multiset(Insert(x, s, ascending)) == multiset(s) + multiset{x}
  {
    if s != [] && !Before(x.0, s[0].0, ascending) {
      InsertPermutes(x, s[1..], ascending);
      assert s == [s[0]] + s[1..];
    }
  }

  lemma {:induction false} SortPermutes(xs: seq<Keyed>, ascending: bool)
    ensures multiset(SortKeyed(xs, ascending)) == multiset(xs)
    decreases |xs|
  {
    if xs != [] {
      var p := xs[..|xs| - 1];
      SortPermutes(p, ascending);
      InsertPermutes(xs[|xs| - 1], SortKeyed(p, ascending), ascending);
      assert xs == p + [xs[|xs| - 1]];
    }
  }

  /** No element of `s` goes before key `h`. */
  predicate NoneBefore(s: seq<Keyed>, h: Key, ascending: bool) {
    forall j :: 0 <= j < |s| ==> !Before(s[j].0, h, ascending)
  }

  /** A sorted list stays sorted with an element in front that goes after none of it. */
  lemma {:induction false} SortedCons(h: Keyed, t: seq<Keyed>, ascending: bool)
    requires Sorted(t, ascending) && NoneBefore(t, h.0, ascending)
    ensures Sorted([h] + t, ascending)
  {
    var r := [h] + t;
    forall i, j | 0 <= i < j < |r| ensures !Before(r[j].0, r[i].0, ascending) {
      assert r[j] == t[j - 1];
      if i > 0 { assert r[i] == t[i - 1]; }
    }
  }

  lemma {:induction false} InsertNoneBefore(x: Keyed, s: seq<Keyed>, ascending: bool, h: Key)
    requires !Before(x.0, h, ascending) && NoneBefore(s, h, ascending)
    ensures NoneBefore(Insert(x, s, ascending), h, ascending)
  {
    if s == [] {
      assert Insert(x, s, ascending) == [x];
    } else if Before(x.0, s[0].0, ascending) {
      var r := [x] + s;
      assert Insert(x, s, ascending) == r;
      forall j | 0 <= j < |r| ensures !Before(r[j].0, h, ascending) {
        if j > 0 { assert r[j] == s[j - 1]; }
      }
    } else {
      var t := Insert(x, s[1..], ascending);
      assert NoneBefore(s[1..], h, ascending) by {
        forall j | 0 <= j < |s[1..]| ensures !Before(s[1..][j].0, h, ascending) {
          assert s[1..][j] == s[j + 1];
        }
      }
      InsertNoneBefore(x, s[1..], ascending, h);
      var r := [s[0]] + t;
      assert Insert(x, s, ascending) == r;
      forall j | 0 <= j < |r| ensures !Before(r[j].0, h, ascending) {
        if j > 0 { assert r[j] == t[j - 1]; }
      }
    }
  }

  lemma {:induction false} InsertSorted(x: Keyed, s: seq<Keyed>, ascending: bool)
    requires Sorted(s, ascending)
    ensures Sorted(Insert(x, s, ascending), ascending)
  {
    if s == [] {
    } else if Before(x.0, s[0].0, ascending) {
      assert NoneBefore(s, x.0, ascending) by {
        forall j | 0 <= j < |s| ensures !Before(s[j].0, x.0, ascending) {
          BeforeStrictTotal(x.0, s[0].0, ascending);
          if j > 0 && Before(s[j].0, x.0, ascending) {
            BeforeTransitive(s[j].0, x.0, s[0].0, ascending);
          }
        }
      }
      SortedCons(x, s, ascending);
    } else {
      var h, t := s[0], s[1..];
      assert s == [h] + t;
      SortedTail(s, ascending);
      InsertSorted(x, t, ascending);
      assert NoneBefore(t, h.0, ascending) by {
        forall j | 0 <= j < |t| ensures !Before(t[j].0, h.0, ascending) {
          assert t[j] == s[j + 1];
        }
      }
      BeforeStrictTotal(x.0, h.0, ascending);
      InsertNoneBefore(x, t, ascending, h.0);
      SortedCons(h, Insert(x, t, ascending), ascending);
    }
  }

  lemma {:induction false} SortSorted(xs: seq<Keyed>, ascending: bool)
    ensures Sorted(SortKeyed(xs, ascending), ascending)
    decreases |xs|
  {
    if xs != [] {
      var p := xs[..|xs| - 1];
      SortSorted(p, ascending);
      InsertSorted(xs[|xs| - 1], SortKeyed(p, ascending), ascending);
    }
  }

  lemma {:induction false} WithKeyAppend(a: seq<Keyed>, b: seq<Keyed>, k: Key)
    ensures WithKey(a + b, k) == WithKey(a, k) + WithKey(b, k)
  {
    if a == [] {
      assert a + b == b;
    } else {
      assert (a + b)[0] == a[0];
      assert (a + b)[1..] == a[1..] + b;
      WithKeyAppend(a[1..], b, k);
    }
  }

  /** Everything in a sorted list with a key after `x`'s would have
      `x`'s key strictly greater, so none has `x`'s key. */
  lemma {:induction false} NoneWithKey(x: Keyed, s: seq<Keyed>, ascending: bool)
    requires Sorted(s, ascending) && s != [] && Before(x.0, s[0].0, ascending)
    ensures WithKey(s, x.0) == []
  {
    BeforeStrictTotal(x.0, s[0].0, ascending);
    if |s| > 1 {
      var t := s[1..];
      BeforeStrictTotal(t[0].0, s[0].0, ascending);
      if Before(s[0].0, t[0].0, ascending) {
        BeforeTransitive(x.0, s[0].0, t[0].0, ascending);
      }
      SortedTail(s, ascending);
      NoneWithKey(x, t, ascending);
    }
  }

  lemma {:induction false} SortedTail(s: seq<Keyed>, ascending: bool)
    requires Sorted(s, ascending) && s != []
    ensures Sorted(s[1..], ascending)
  {
    var t := s[1..];
    assert forall i, j :: 0 <= i < j < |t| ==> t[i] == s[i + 1] && t[j] == s[j + 1];
  }

  lemma {:induction false} InsertWithKey(x: Keyed, s: seq<Keyed>, ascending: bool, k: Key)
    requires Sorted(s, ascending)
    ensures WithKey(Insert(x, s, ascending), k) == WithKey(s, k) + WithKey([x], k)
  {
    if s == [] {
    } else if Before(x.0, s[0].0, ascending) {
      InsertFirstWithKey(x, s, ascending, k);
    } else {
      var t := s[1..];
      SortedTail(s, ascending);
      InsertWithKey(x, t, ascending, k);
      InsertLaterWithKey(x, s, ascending, k);
    }
  }

  lemma {:induction false} InsertFirstWithKey(x: Keyed, s: seq<Keyed>, ascending: bool, k: Key)
    requires Sorted(s, ascending) && s != [] && Before(x.0, s[0].0, ascending)
    ensures WithKey(Insert(x, s, ascending), k) == WithKey(s, k) + WithKey([x], k)
  {
    NoneWithKey(x, s, ascending);
    WithKeyAppend([x], s, k);
  }

  lemma {:induction false} InsertLaterWithKey(x: Keyed, s: seq<Keyed>, ascending: bool, k: Key)
    requires s != [] && !Before(x.0, s[0].0, ascending)
    requires WithKey(Insert(x, s[1..], ascending), k) == WithKey(s[1..], k) + WithKey([x], k)
    ensures WithKey(Insert(x, s, ascending), k) == WithKey(s, k) + WithKey([x], k)
  {
    assert Insert(x, s, ascending) == [s[0]] + Insert(x, s[1..], ascending);
    assert s == [s[0]] + s[1..];
    WithKeyCons(s[0], s[1..], Insert(x, s[1..], ascending), WithKey([x], k), k);
  }

  /** Putting the same element in front of two lists keeps the relation
      between the elements of one key. */
  lemma {:induction false} WithKeyCons(h: Keyed, t: seq<Keyed>, r: seq<Keyed>, extra: seq<Keyed>, k: Key)
    requires WithKey(r, k) == WithKey(t, k) + extra
    ensures WithKey([h] + r, k) == WithKey([h] + t, k) + extra
  {
    var c := if h.0 == k then [h] else [];
    assert ([h] + r)[1..] == r;
    assert ([h] + t)[1..] == t;
    assert WithKey([h] + r, k) == c + (WithKey(t, k) + extra);
    assert WithKey([h] + t, k) == c + WithKey(t, k);
    assert c + (WithKey(t, k) + extra) == (c + WithKey(t, k)) + extra;
  }

  /** Stability: the elements with any one key come out in their input order. */
  lemma {:induction false} SortStable(xs: seq<Keyed>, ascending: bool, k: Key)
    ensures WithKey(SortKeyed(xs, ascending), k) == WithKey(xs, k)
    decreases |xs|
  {
    if xs != [] {
      var p, x := xs[..|xs| - 1], xs[|xs| - 1];
      SortStable(p, ascending, k);
      SortSorted(p, ascending);
      InsertWithKey(x, SortKeyed(p, ascending), ascending, k);
      assert xs == p + [x];
      WithKeyAppend(p, [x], k);
    }
  }

  // ---------- Lemmas: from pairs back to profiles

  lemma {:induction false} KeyAllSpec(ps: seq<Profile>, sortBy: string)
    ensures KeyAll(ps, sortBy).Ok? <==> forall i :: 0 <= i < |ps| ==> KeyOf(ps[i], sortBy).Ok?
    ensures KeyAll(ps, sortBy).Ok? ==>
              Seconds(KeyAll(ps, sortBy).value) == ps && KeysOf(KeyAll(ps, sortBy).value, sortBy)
  {
    if ps != [] {
      KeyAllSpec(ps[1..], sortBy);
      assert forall i :: 0 < i < |ps| ==> ps[i] == ps[1..][i - 1];
      if KeyAll(ps, sortBy).Ok? {
        var r := KeyAll(ps, sortBy).value;
        assert r == [(KeyOf(ps[0], sortBy).value, ps[0])] + KeyAll(ps[1..], sortBy).value;
        assert Seconds(r) == ps;
      }
    }
  }

  lemma {:induction false} SecondsPermutes(xs: seq<Keyed>, ascending: bool)
    ensures multiset(Seconds(SortKeyed(xs, ascending))) == multiset(Seconds(xs))
    decreases |xs|
  {
    if xs != [] {
      var p, x := xs[..|xs| - 1], xs[|xs| - 1];
      SecondsPermutes(p, ascending);
      InsertSeconds(x, SortKeyed(p, ascending), ascending);
      assert Seconds(xs) == Seconds(p) + [x.1];
    }
  }

  lemma {:induction false} InsertSeconds(x: Keyed, s: seq<Keyed>, ascending: bool)
    ensures multiset(Seconds(Insert(x, s, ascending))) == multiset(Seconds(s)) + multiset{x.1}
  {
    if s == [] {
    } else if Before(x.0, s[0].0, ascending) {
      assert Seconds([x] + s) == [x.1] + Seconds(s);
    } else {
      InsertSeconds(x, s[1..], ascending);
      assert Seconds([s[0]] + Insert(x, s[1..], ascending)) == [s[0].1] + Seconds(Insert(x, s[1..], ascending));
      assert Seconds(s) == [s[0].1] + Seconds(s[1..]);
    }
  }

  lemma {:induction false} KeysOfSorted(xs: seq<Keyed>, sortBy: string, ascending: bool)
    requires KeysOf(xs, sortBy)
    ensures KeysOf(SortKeyed(xs, ascending), sortBy)
  {
    var s := SortKeyed(xs, ascending);
    SortPermutes(xs, ascending);
    forall i | 0 <= i < |s| ensures KeyOf(s[i].1, sortBy) == Ok(s[i].0) {
      assert s[i] in multiset(xs);
      var k :| 0 <= k < |xs| && xs[k] == s[i];
    }
  }

  lemma {:induction false} SecondsAppend(a: seq<Keyed>, b: seq<Keyed>)
    ensures Seconds(a + b) == Seconds(a) + Seconds(b)
  {
    var l, r := Seconds(a + b), Seconds(a) + Seconds(b);
    assert |l| == |r|;
    forall i | 0 <= i < |l| ensures l[i] == r[i] {
      if i < |a| { assert (a + b)[i] == a[i]; } else { assert (a + b)[i] == b[i - |a|]; }
    }
  }

  lemma {:induction false} ProfilesWithKeyOf(s: seq<Keyed>, sortBy: string, k: Key)
    requires KeysOf(s, sortBy)
    ensures ProfilesWithKey(Seconds(s), sortBy, k) == Seconds(WithKey(s, k))
  {
    if s != [] {
      var t := s[1..];
      assert KeysOf(t, sortBy) by {
        forall i | 0 <= i < |t| ensures KeyOf(t[i].1, sortBy) == Ok(t[i].0) {
          assert t[i] == s[i + 1];
        }
      }
      ProfilesWithKeyOf(t, sortBy, k);
      var ps := Seconds(s);
      assert ps[0] == s[0].1 && ps[1..] == Seconds(t);
      assert KeyOf(ps[0], sortBy) == Ok(s[0].0);
      var w, rest := if s[0].0 == k then [s[0]] else [], WithKey(t, k);
      assert WithKey(s, k) == w + rest;
      SecondsAppend(w, rest);
      assert ProfilesWithKey(ps, sortBy, k) == Seconds(w) + ProfilesWithKey(ps[1..], sortBy, k);
    }
  }

  // ---------- Lemmas: sort_profiles

  /** Any key other than "name" and "worth" (the default "" included)
      leaves the list as it is. */
  lemma {:induction false} SortProfilesOtherKey(ps: seq<Profile>, sortBy: string, ascending: bool)
    requires sortBy != "name" && sortBy != "worth"
    ensures SortProfiles(ps, sortBy, ascending) == Ok(ps)
  {
  }

  /** With "name" or "worth", the sort fails exactly when some profile has
      no key, and otherwise returns a permutation of the profiles, ordered
      by key in the chosen direction, in which profiles with equal keys keep
      their input order. */
  lemma {:induction false} SortProfilesSpec(ps: seq<Profile>, sortBy: string, ascending: bool)
    requires sortBy == "name" || sortBy == "worth"
    ensures SortProfiles(ps, sortBy, ascending).Ok? <==> forall i :: 0 <= i < |ps| ==> KeyOf(ps[i], sortBy).Ok?
    ensures SortProfiles(ps, sortBy, ascending).Ok? ==>
              var out := SortProfiles(ps, sortBy, ascending).value;
              multiset(out) == multiset(ps) &&
              (forall i :: 0 <= i < |out| ==> KeyOf(out[i], sortBy).Ok?) &&
              (forall i, j :: 0 <= i < j < |out| ==>
                 !Before(KeyOf(out[j], sortBy).value, KeyOf(out[i], sortBy).value, ascending)) &&
              (forall k :: ProfilesWithKey(out, sortBy, k) == ProfilesWithKey(ps, sortBy, k))
  {
    KeyAllSpec(ps, sortBy);
    if SortProfiles(ps, sortBy, ascending).Ok? {
      var kps := KeyAll(ps, sortBy).value;
      var s := SortKeyed(kps, ascending);
      var out := Seconds(s);
      SecondsPermutes(kps, ascending);
      SortSorted(kps, ascending);
      KeysOfSorted(kps, sortBy, ascending);
      forall k ensures ProfilesWithKey(out, sortBy, k) == ProfilesWithKey(ps, sortBy, k) {
        SortStable(kps, ascending, k);
        ProfilesWithKeyOf(s, sortBy, k);
        ProfilesWithKeyOf(kps, sortBy, k);
      }
    }
  }
}
