/** Duplicate-free sequences and first-occurrence deduplication. */
module Seqs {

  predicate NoDup<T(==)>(s: seq<T>) {
    forall i, j :: 0 <= i < j < |s| ==> s[i] != s[j]
  }

  /** The position of the first occurrence of `x` in `s`. */
  function FirstIndex<T(==)>(s: seq<T>, x: T): (i: nat)
    requires x in s
    ensures i < |s| && s[i] == x && x !in s[..i]
  {
    if s[0] == x then 0 else 1 + FirstIndex(s[1..], x)
  }

  /** The elements of `s`, each kept at its first occurrence: the loop
      "skip x if it is already collected, append it otherwise". */
  function Dedup<T(==)>(s: seq<T>): seq<T> {
    if s == [] then []
    else
      var d := Dedup(s[..|s| - 1]);
      if s[|s| - 1] in d then d else d + [s[|s| - 1]]
  }

  lemma {:induction false} FirstIndexPrefix<T>(s: seq<T>, p: seq<T>, x: T)
    requires |p| <= |s| && p == s[..|p|] && x in p
    ensures FirstIndex(s, x) == FirstIndex(p, x)
  {
    var j := FirstIndex(p, x);
    assert s[j] == p[j];
  }

  lemma {:induction false} DedupMem<T>(s: seq<T>, y: T)
    ensures y in Dedup(s) <==> y in s
  {
    if s != [] {
      var p := s[..|s| - 1];
      DedupMem(p, y);
      assert s == p + [s[|s| - 1]];
    }
  }

  /** Dedup keeps exactly the elements of `s`, once each, in the order of
      their first occurrences, and never grows the sequence. */
  lemma {:induction false} DedupSpec<T>(s: seq<T>)
    ensures NoDup(Dedup(s))
    ensures forall x :: x in Dedup(s) <==> x in s
    ensures |Dedup(s)| <= |s|
    ensures forall i, j :: 0 <= i < j < |Dedup(s)| ==>
              Dedup(s)[i] in s && Dedup(s)[j] in s &&
              FirstIndex(s, Dedup(s)[i]) < FirstIndex(s, Dedup(s)[j])
  {
    if s != [] {
      var p, x := s[..|s| - 1], s[|s| - 1];
      assert s == p + [x];
      DedupSpec(p);
      var d := Dedup(p);
      forall y | y in d ensures y in p && FirstIndex(s, y) == FirstIndex(p, y) {
        DedupMem(p, y);
        FirstIndexPrefix(s, p, y);
      }
      forall y ensures y in Dedup(s) <==> y in s {
        DedupMem(s, y);
      }
      if x !in d {
        DedupMem(p, x);
        assert FirstIndex(s, x) == |s| - 1;
        var r := d + [x];
        forall i, j | 0 <= i < j < |r|
          ensures r[i] in s && r[j] in s && FirstIndex(s, r[i]) < FirstIndex(s, r[j])
        {
          if j == |r| - 1 {
            assert r[i] == d[i];
            assert FirstIndex(s, r[i]) == FirstIndex(p, d[i]) < |p|;
          } else {
            assert r[i] == d[i] && r[j] == d[j];
          }
        }
      }
    }
  }

  /** Deduplicating a duplicate-free sequence changes nothing. */
  lemma {:induction false} DedupOfNoDup<T>(s: seq<T>)
    requires NoDup(s)
    ensures Dedup(s) == s
  {
    if s != [] {
      var p := s[..|s| - 1];
      DedupOfNoDup(p);
      assert s[|s| - 1] !in p;
      assert s == p + [s[|s| - 1]];
    }
  }

  /** Dedup only drops elements: it is all of `s` exactly when `s` has no duplicates. */
  lemma {:induction false} DedupIsIdentityIff<T>(s: seq<T>)
    ensures Dedup(s) == s <==> NoDup(s)
  {
    DedupSpec(s);
    if NoDup(s) { DedupOfNoDup(s); }
  }

  /** Adding one element after deduplicating is the same as adding it before. */
  lemma {:induction false} DedupSnoc<T>(s: seq<T>, x: T)
    ensures Dedup(Dedup(s) + [x]) == Dedup(s + [x])
  {
    DedupSpec(s);
    DedupOfNoDup(Dedup(s));
    assert (Dedup(s) + [x])[..|Dedup(s)|] == Dedup(s);
    assert (s + [x])[..|s|] == s;
  }

  /** The step of the deduplicating loop: an element already collected is
      skipped, a new one is appended. */
  lemma {:induction false} DedupStep<T>(s: seq<T>, x: T)
    ensures Dedup(s + [x]) == if x in Dedup(s) then Dedup(s) else Dedup(s) + [x]
  {
    assert (s + [x])[..|s|] == s;
  }

  lemma {:induction false} NoDupSnoc<T>(s: seq<T>, x: T)
    ensures NoDup(s + [x]) <==> NoDup(s) && x !in s
  {
    var t := s + [x];
    assert forall i :: 0 <= i < |s| ==> t[i] == s[i];
    assert t[|s|] == x;
    if x in s {
      var i :| 0 <= i < |s| && s[i] == x;
      assert t[i] == t[|s|];
    }
  }
}
