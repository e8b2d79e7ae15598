/** The string operations the scraper uses, on ASCII text: `isalnum`,
    `lower`, `replace(" ", "-")`, `strip`, `split` and `in` on strings. */
module Text {

  predicate IsAlnum(c: char) {
    'a' <= c <= 'z' || 'A' <= c <= 'Z' || '0' <= c <= '9'
  }

  /** The characters a sanitised name keeps: alphanumerics and the space. */
  predicate IsNameChar(c: char) {
    IsAlnum(c) || c == ' '
  }

  function LowerChar(c: char): char {
    if 'A' <= c <= 'Z' then (c as int + 32) as char else c
  }

  /** `s.lower()`. */
  function Lower(s: string): string {
    seq(|s|, i requires 0 <= i < |s| => LowerChar(s[i]))
  }

  /** `s.replace(" ", "-")`. */
  function SpacesToHyphens(s: string): string {
    seq(|s|, i requires 0 <= i < |s| => if s[i] == ' ' then '-' else s[i])
  }

  /** `"".join(filter(lambda x: x.isalnum() or x == " ", s))`. */
  function KeepNameChars(s: string): string {
    if s == [] then []
    else (if IsNameChar(s[0]) then [s[0]] else []) + KeepNameChars(s[1..])
  }

  /** The alphanumeric characters of `s`, in order. */
  function Alnums(s: string): string {
    if s == [] then [] else (if IsAlnum(s[0]) then [s[0]] else []) + Alnums(s[1..])
  }

  function TrimStart(s: string): (r: string)
  {
    if s != [] && s[0] == ' ' then TrimStart(s[1..]) else s
  }

  function TrimEnd(s: string): (r: string)
  {
    if s != [] && s[|s| - 1] == ' ' then TrimEnd(s[..|s| - 1]) else s
  }

  /** `s.strip()` for a text whose only whitespace character is the space
      (which is all that is left after KeepNameChars): the text without its
      leading and trailing spaces. */
  function Strip(s: string): string {
    TrimEnd(TrimStart(s))
  }

  /** `t in s` for strings: `t` occurs in `s` as a contiguous slice. */
  predicate IsSubstring(t: string, s: string) {
    exists i, j :: 0 <= i <= j <= |s| && s[i..j] == t
  }

  /** The leading run of non-space characters of `s`. */
  function Word(s: string): (w: string)
    ensures |w| <= |s| && w == s[..|w|]
    ensures forall k :: 0 <= k < |w| ==> w[k] != ' '
    ensures |w| < |s| ==> s[|w|] == ' '
  {
    if s == [] || s[0] == ' ' then [] else [s[0]] + Word(s[1..])
  }

  /** `s.split()` for a text whose only whitespace character is the space:
      the maximal runs of non-space characters, in order. */
  function Split(s: string): seq<string>
    decreases |s|
  {
    if s == [] then []
    else if s[0] == ' ' then Split(s[1..])
    else var w := Word(s); [w] + Split(s[|w|..])
  }

  function Concat(ss: seq<string>): string {
    if ss == [] then [] else ss[0] + Concat(ss[1..])
  }

  // ---------- Lemmas

  lemma {:induction false} TrimStartSpec(s: string)
    ensures |TrimStart(s)| <= |s| && TrimStart(s) == s[|s| - |TrimStart(s)|..]
    ensures forall k :: 0 <= k < |s| - |TrimStart(s)| ==> s[k] == ' '
    ensures TrimStart(s) == [] || TrimStart(s)[0] != ' '
  {
    if s != [] && s[0] == ' ' {
      var t := s[1..];
      TrimStartSpec(t);
      var r := TrimStart(t);
      assert TrimStart(s) == r;
      assert s[|s| - |r|..] == t[|t| - |r|..];
      forall k | 0 <= k < |s| - |r| ensures s[k] == ' ' {
        if k > 0 { assert s[k] == t[k - 1]; }
      }
    }
  }

  lemma {:induction false} TrimEndSpec(s: string)
    ensures |TrimEnd(s)| <= |s| && TrimEnd(s) == s[..|TrimEnd(s)|]
    ensures forall k :: |TrimEnd(s)| <= k < |s| ==> s[k] == ' '
    ensures TrimEnd(s) == [] || TrimEnd(s)[|TrimEnd(s)| - 1] != ' '
  {
    if s != [] && s[|s| - 1] == ' ' {
      var t := s[..|s| - 1];
      TrimEndSpec(t);
      var r := TrimEnd(t);
      assert TrimEnd(s) == r;
      assert s[..|r|] == t[..|r|];
      forall k | |r| <= k < |s| ensures s[k] == ' ' {
        if k < |t| { assert s[k] == t[k]; }
      }
    }
  }


  /** The filter keeps only name characters and never lengthens the text. */
  lemma {:induction false} KeepNameCharsSpec(s: string)
    ensures |KeepNameChars(s)| <= |s|
    ensures forall i :: 0 <= i < |KeepNameChars(s)| ==> IsNameChar(KeepNameChars(s)[i])
  {
    if s != [] {
      KeepNameCharsSpec(s[1..]);
      var h := if IsNameChar(s[0]) then [s[0]] else [];
      var t := KeepNameChars(s[1..]);
      assert KeepNameChars(s) == h + t;
      forall i | 0 <= i < |h + t| ensures IsNameChar((h + t)[i]) {
        if i >= |h| { assert (h + t)[i] == t[i - |h|]; }
      }
    }
  }

  /** The stripped text has no space at either end and is a slice of the
      text with only spaces around it. */
  lemma {:induction false} StripSpec(s: string)
    ensures var r := Strip(s);
            (r == [] || (r[0] != ' ' && r[|r| - 1] != ' ')) &&
            exists i, j :: 0 <= i <= j <= |s| && r == s[i..j] &&
              (forall k :: 0 <= k < i ==> s[k] == ' ') &&
              (forall k :: j <= k < |s| ==> s[k] == ' ')
  {
    var t := TrimStart(s);
    var r := TrimEnd(t);
    TrimStartSpec(s);
    TrimEndSpec(t);
    var i := |s| - |t|;
    assert r == s[i..i + |r|];
  }

  /** Stripping a text of name characters leaves name characters. */
  lemma {:induction false} StripNameChars(s: string)
    requires forall k :: 0 <= k < |s| ==> IsNameChar(s[k])
    ensures forall k :: 0 <= k < |Strip(s)| ==> IsNameChar(Strip(s)[k])
  {
    var r := Strip(s);
    StripSpec(s);
    var i, j :| 0 <= i <= j <= |s| && r == s[i..j];
    forall k | 0 <= k < |r| ensures IsNameChar(r[k]) {
      assert r[k] == s[i + k];
    }
  }

  lemma {:induction false} SliceIsSubstring(s: string, i: nat, j: nat)
    requires i <= j <= |s|
    ensures IsSubstring(s[i..j], s)
  {
    assert s[i..j] == s[i..j];
  }

  /** Occurring in a text is transitive. */
  lemma {:induction false} SubstringTransitive(a: string, b: string, c: string)
    requires IsSubstring(a, b) && IsSubstring(b, c)
    ensures IsSubstring(a, c)
  {
    var i, j :| 0 <= i <= j <= |b| && b[i..j] == a;
    var k, l :| 0 <= k <= l <= |c| && c[k..l] == b;
    assert c[k + i..k + j] == a by {
      forall m | 0 <= m < |a| ensures c[k + i..k + j][m] == a[m] {
        assert a[m] == b[i + m] == c[k + i + m];
      }
    }
  }

  lemma {:induction false} SubstringOfConcat(s: string, t: string, u: string)
    requires IsSubstring(s, u)
    ensures IsSubstring(s, t + u)
  {
    var i, j :| 0 <= i <= j <= |u| && u[i..j] == s;
    assert (t + u)[|t| + i..|t| + j] == s;
  }

  /** Every token of `split()` is non-empty, holds no space and occurs in
      the text; a text of spaces alone yields no tokens. */
  lemma {:induction false} SplitTokens(s: string)
    ensures forall k :: 0 <= k < |Split(s)| ==>
              Split(s)[k] != [] && ' ' !in Split(s)[k] && IsSubstring(Split(s)[k], s)
    ensures Split(s) == [] <==> forall k :: 0 <= k < |s| ==> s[k] == ' '
    decreases |s|
  {
    if s != [] {
      if s[0] == ' ' {
        SplitTokens(s[1..]);
        assert s == [s[0]] + s[1..];
        forall k | 0 <= k < |Split(s)| ensures IsSubstring(Split(s)[k], s) {
          SubstringOfConcat(Split(s)[k], [s[0]], s[1..]);
        }
        assert (forall k :: 0 <= k < |s| ==> s[k] == ' ') <==>
               (forall k :: 0 <= k < |s[1..]| ==> s[1..][k] == ' ');
      } else {
        var w := Word(s);
        var rest := s[|w|..];
        SplitTokens(rest);
        assert s == w + rest;
        assert w != [] by { assert s[0] != ' '; }
        assert IsSubstring(w, s) by { SliceIsSubstring(s, 0, |w|); }
        forall k | 0 <= k < |Split(s)| ensures IsSubstring(Split(s)[k], s) {
          if k > 0 { SubstringOfConcat(Split(s)[k], w, rest); }
        }
      }
    }
  }

  lemma {:induction false} AlnumsAppend(a: string, b: string)
    ensures Alnums(a + b) == Alnums(a) + Alnums(b)
  {
    if a != [] {
      assert (a + b)[0] == a[0];
      assert (a + b)[1..] == a[1..] + b;
      AlnumsAppend(a[1..], b);
    } else {
      assert a + b == b;
    }
  }

  lemma {:induction false} AlnumsOfTrimStart(s: string)
    ensures Alnums(TrimStart(s)) == Alnums(s)
  {
    if s != [] && s[0] == ' ' {
      AlnumsOfTrimStart(s[1..]);
    }
  }

  lemma {:induction false} AlnumsOfTrimEnd(s: string)
    ensures Alnums(TrimEnd(s)) == Alnums(s)
  {
    if s != [] && s[|s| - 1] == ' ' {
      var p := s[..|s| - 1];
      AlnumsOfTrimEnd(p);
      assert s == p + [' '];
      AlnumsAppend(p, [' ']);
    }
  }

  /** Stripping spaces off both ends keeps every alphanumeric character. */
  lemma {:induction false} AlnumsOfStrip(s: string)
    ensures Alnums(Strip(s)) == Alnums(s)
  {
    AlnumsOfTrimStart(s);
    AlnumsOfTrimEnd(TrimStart(s));
  }

  /** Filtering to name characters keeps every alphanumeric character. */
  lemma {:induction false} AlnumsOfKeepNameChars(s: string)
    ensures Alnums(KeepNameChars(s)) == Alnums(s)
  {
    if s != [] {
      AlnumsOfKeepNameChars(s[1..]);
      AlnumsAppend(if IsNameChar(s[0]) then [s[0]] else [], KeepNameChars(s[1..]));
    }
  }

  /** Filtering a text that only holds name characters changes nothing. */
  lemma {:induction false} KeepNameCharsIdentity(s: string)
    requires forall k :: 0 <= k < |s| ==> IsNameChar(s[k])
    ensures KeepNameChars(s) == s
  {
    if s != [] {
      KeepNameCharsIdentity(s[1..]);
      assert s == [s[0]] + s[1..];
    }
  }

  /** Stripping a text with no leading and no trailing space changes nothing. */
  lemma {:induction false} StripIdentity(s: string)
    requires s == [] || (s[0] != ' ' && s[|s| - 1] != ' ')
    ensures Strip(s) == s
  {
  }
}
