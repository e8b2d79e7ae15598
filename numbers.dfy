/** Decimal text of integers: `str(n)`, `int(s)` and the thousands
    grouping of `f"{n:,}"`. */
module Numbers {
  import opened Wrappers

  predicate IsDigit(c: char) {
    '0' <= c <= '9'
  }

  predicate AllDigits(s: string) {
    forall i :: 0 <= i < |s| ==> IsDigit(s[i])
  }

  function DigitChar(d: nat): (c: char)
    requires d < 10
    ensures IsDigit(c) && c as int - '0' as int == d
  {
    ('0' as int + d) as char
  }

  function DigitValue(c: char): nat
    requires IsDigit(c)
  {
    c as int - '0' as int
  }

  /** `str(n)` for a non-negative `n`: its decimal digits, without leading zeros. */
  function NatToString(n: nat): (r: string)
    ensures r != [] && AllDigits(r)
    ensures |r| > 1 ==> r[0] != '0'
  {
    if n < 10 then [DigitChar(n)] else NatToString(n / 10) + [DigitChar(n % 10)]
  }

  /** `str(i)`. */
  function IntToString(i: int): string {
    if i < 0 then "-" + NatToString(-i) else NatToString(i)
  }

  /** The value of a string of decimal digits. */
  function DigitsValue(s: string): nat
    requires AllDigits(s)
  {
    if s == [] then 0 else 10 * DigitsValue(s[..|s| - 1]) + DigitValue(s[|s| - 1])
  }

  /** `int(s)` on an optional sign followed by at least one ASCII digit;
      None where Python raises ValueError. */
  function ParseInt(s: string): Option<int> {
    if |s| >= 2 && (s[0] == '-' || s[0] == '+') && AllDigits(s[1..]) then
      var v: int := DigitsValue(s[1..]);
      Some(if s[0] == '-' then -v else v)
    else if |s| >= 1 && AllDigits(s) then Some(DigitsValue(s))
    else None
  }

  /** The digits of `f"{n:,}"` for a digit string: a comma before every
      group of three digits counted from the right. */
  function GroupDigits(s: string): string
    decreases |s|
  {
    if |s| <= 3 then s else GroupDigits(s[..|s| - 3]) + "," + s[|s| - 3..]
  }

  /** `f"{n:,}"`. */
  function Grouped(n: int): string {
    if n < 0 then "-" + GroupDigits(NatToString(-n)) else GroupDigits(NatToString(n))
  }

  function RemoveCommas(s: string): string {
    if s == [] then [] else (if s[0] == ',' then [] else [s[0]]) + RemoveCommas(s[1..])
  }

  // ---------- Lemmas

  lemma {:induction false} NatToStringValue(n: nat)
    ensures DigitsValue(NatToString(n)) == n
  {
    if n >= 10 {
      NatToStringValue(n / 10);
      var s := NatToString(n);
      assert s[..|s| - 1] == NatToString(n / 10);
    }
  }

  /** Reading back the decimal text of an integer gives the integer. */
  lemma {:induction false} ParseIntOfIntToString(n: int)
    ensures ParseInt(IntToString(n)) == Some(n)
  {
    var s := IntToString(n);
    if n < 0 {
      var d := NatToString(-n);
      assert s == "-" + d && s[1..] == d;
      assert |s| >= 2 && s[0] == '-' && AllDigits(s[1..]);
      NatToStringValue(-n);
      assert DigitsValue(s[1..]) == -n;
    } else {
      assert s == NatToString(n);
      assert IsDigit(s[0]);
      NatToStringValue(n);
      assert DigitsValue(s) == n;
    }
  }

  lemma {:induction false} RemoveCommasAppend(a: string, b: string)
    ensures RemoveCommas(a + b) == RemoveCommas(a) + RemoveCommas(b)
  {
    if a == [] {
      assert a + b == b;
    } else {
      assert (a + b)[0] == a[0];
      assert (a + b)[1..] == a[1..] + b;
      RemoveCommasAppend(a[1..], b);
    }
  }

  lemma {:induction false} RemoveCommasOfDigits(s: string)
    requires AllDigits(s)
    ensures RemoveCommas(s) == s
  {
    if s != [] {
      RemoveCommasOfDigits(s[1..]);
      assert s == [s[0]] + s[1..];
    }
  }

  /** Grouping only inserts commas: removing them gives back the digits. */
  lemma {:induction false} RemoveCommasOfGroupDigits(s: string)
    requires AllDigits(s)
    ensures RemoveCommas(GroupDigits(s)) == s
    decreases |s|
  {
    if |s| <= 3 {
      RemoveCommasOfDigits(s);
    } else {
      var p, q := s[..|s| - 3], s[|s| - 3..];
      var g := GroupDigits(p);
      assert GroupDigits(s) == (g + ",") + q;
      assert RemoveCommas(g + ",") == p by {
        RemoveCommasOfGroupDigits(p);
        RemoveCommasAppend(g, ",");
      }
      assert RemoveCommas(q) == q by { RemoveCommasOfDigits(q); }
      assert RemoveCommas((g + ",") + q) == p + q by { RemoveCommasAppend(g + ",", q); }
      assert s == p + q;
    }
  }

  /** A comma stands exactly at every fourth position counted from the
      right end, every other position holds a digit, and a digit string of
      length L gains (L - 1) / 3 commas. */
  lemma {:induction false} GroupDigitsLayout(s: string)
    requires s != [] && AllDigits(s)
    ensures |GroupDigits(s)| == |s| + (|s| - 1) / 3
    ensures forall i :: 0 <= i < |GroupDigits(s)| ==>
              (GroupDigits(s)[i] == ',' <==> (|GroupDigits(s)| - i) % 4 == 0) &&
              (GroupDigits(s)[i] != ',' ==> IsDigit(GroupDigits(s)[i]))
    decreases |s|
  {
    if |s| > 3 {
      var p, q := s[..|s| - 3], s[|s| - 3..];
      GroupDigitsLayout(p);
      var g := GroupDigits(p);
      var r := GroupDigits(s);
      assert r == g + [','] + q && |r| == |g| + 4;
      forall i | 0 <= i < |r|
        ensures (r[i] == ',' <==> (|r| - i) % 4 == 0) && (r[i] != ',' ==> IsDigit(r[i]))
      {
        if i < |g| {
          assert r[i] == g[i];
          assert |r| - i == (|g| - i) + 4;
          ModFourShift(|g| - i);
        } else if i == |g| {
          assert r[i] == ',' && |r| - i == 4;
        } else {
          assert r[i] == q[i - |g| - 1] && 1 <= |r| - i <= 3;
        }
      }
    }
  }

  lemma {:induction false} ModFourShift(a: int)
    ensures (a + 4) % 4 == a % 4
  {
  }

  /** Removing the commas from `f"{n:,}"` and reading the text back gives `n`. */
  lemma {:induction false} GroupedRoundTrip(n: int)
    ensures ParseInt(RemoveCommas(Grouped(n))) == Some(n)
  {
    var m: nat := if n < 0 then -n else n;
    RemoveCommasOfGroupDigits(NatToString(m));
    if n < 0 {
      RemoveCommasAppend("-", GroupDigits(NatToString(m)));
      assert RemoveCommas(Grouped(n)) == IntToString(n);
    }
    ParseIntOfIntToString(n);
  }

  /** The example of the profile display: 1234567 is shown as 1,234,567. */
  lemma {:induction false} GroupedExample()
    ensures Grouped(1234567) == "1,234,567"
  {
    assert NatToString(1) == "1";
    assert NatToString(12) == NatToString(1) + "2";
    assert NatToString(123) == NatToString(12) + "3";
    assert NatToString(1234) == NatToString(123) + "4";
    assert NatToString(12345) == NatToString(1234) + "5";
    assert NatToString(123456) == NatToString(12345) + "6";
    assert NatToString(1234567) == NatToString(123456) + "7";
    assert NatToString(1234567) == "1234567";
    assert Grouped(1234567) == GroupDigits("1234567");
    assert "1234567"[..4] == "1234" && "1234567"[4..] == "567";
    assert "1234"[..1] == "1" && "1234"[1..] == "234";
    assert GroupDigits("1234") == "1,234";
    assert GroupDigits("1234567") == GroupDigits("1234") + "," + "567";
  }
}
