/** The few operations on Python `str` that the library relies on: `sep.join`, `split` on one
    character, `replace(c, "")`, ASCII `upper`, and `str()` of an integer. */
module Text {
  import opened Errors

  /** Number of occurrences of `c` in `s`. */
  function Count(s: string, c: char): nat
  {
    if |s| == 0 then 0 else (if s[0] == c then 1 else 0) + Count(s[1..], c)
  }

  /** `sep.join(items)`. */
  function Join(sep: string, items: seq<string>): string
  {
    if |items| == 0 then ""
    else if |items| == 1 then items[0]
    else items[0] + sep + Join(sep, items[1..])
  }

  lemma JoinCons(sep: string, a: string, rest: seq<string>)
    ensures Join(sep, [a] + rest) == if rest == [] then a else a + sep + Join(sep, rest)
  {
    assert ([a] + rest)[1..] == rest;
  }

  /** Joining one more item at the end adds one separator and that item. */
  lemma {:induction false} JoinSnoc(sep: string, items: seq<string>, x: string)
    requires items != []
    ensures Join(sep, items + [x]) == Join(sep, items) + sep + x
    decreases |items|
  {
    if |items| == 1 {
      assert items + [x] == [items[0]] + [x];
      JoinCons(sep, items[0], [x]);
    } else {
      assert items + [x] == [items[0]] + (items[1..] + [x]);
      JoinCons(sep, items[0], items[1..] + [x]);
      JoinSnoc(sep, items[1..], x);
      JoinCons(sep, items[0], items[1..]);
      assert [items[0]] + items[1..] == items;
    }
  }

  /** `s.replace(c, "")`: every occurrence of `c` removed, everything else kept in order. */
  function Remove(s: string, c: char): (r: string)
    ensures c !in r
    ensures |r| == |s| - Count(s, c)
    ensures forall d :: d != c ==> Count(r, d) == Count(s, d)
  {
    if |s| == 0 then ""
    else if s[0] == c then Remove(s[1..], c)
    else [s[0]] + Remove(s[1..], c)
  }

  /** `s.split(c)` for a one-character separator: the pieces between the occurrences of `c`. */
  function Split(s: string, c: char): (r: seq<string>)
    ensures |r| == Count(s, c) + 1
    ensures forall i :: 0 <= i < |r| ==> c !in r[i]
  {
    if |s| == 0 then [""]
    else
      var rest := Split(s[1..], c);
      if s[0] == c then [""] + rest
      else [[s[0]] + rest[0]] + rest[1..]
  }

  /** Splitting and joining again with the same character gives the string back. */
  lemma {:induction false} JoinSplit(s: string, c: char)
    ensures Join([c], Split(s, c)) == s
  {
    if |s| > 0 {
      var rest := Split(s[1..], c);
      JoinSplit(s[1..], c);
      assert s == [s[0]] + s[1..];
      if s[0] == c {
        JoinCons([c], "", rest);
      } else {
        JoinCons([c], [s[0]] + rest[0], rest[1..]);
        JoinCons([c], rest[0], rest[1..]);
        assert [rest[0]] + rest[1..] == rest;
      }
    }
  }

  /** A piece without the separator has no split point. */
  lemma {:induction false} SplitWhole(a: string, c: char)
    requires c !in a
    ensures Split(a, c) == [a]
  {
    if |a| > 0 {
      assert c !in a[1..] by { assert forall k :: 0 <= k < |a[1..]| ==> a[1..][k] == a[k + 1]; }
      SplitWhole(a[1..], c);
      assert [a[0]] + a[1..] == a;
    }
  }

  /** Splitting a piece, the separator and a tail gives the piece, then the tail's pieces. */
  lemma {:induction false} SplitFirst(a: string, t: string, c: char)
    requires c !in a
    ensures Split(a + [c] + t, c) == [a] + Split(t, c)
    decreases |a|
  {
    if |a| == 0 {
      assert a + [c] + t == [c] + t;
      assert ([c] + t)[1..] == t;
    } else {
      var s := a + [c] + t;
      assert s[1..] == a[1..] + [c] + t;
      assert c !in a[1..] by { assert forall k :: 0 <= k < |a[1..]| ==> a[1..][k] == a[k + 1]; }
      SplitFirst(a[1..], t, c);
      assert [a[0]] + a[1..] == a;
    }
  }

  /** Joining pieces that do not contain the separator and splitting again gives the pieces. */
  lemma {:induction false} SplitJoin(items: seq<string>, c: char)
    requires |items| > 0 && forall i :: 0 <= i < |items| ==> c !in items[i]
    ensures Split(Join([c], items), c) == items
    decreases |items|
  {
    if |items| == 1 {
      SplitWhole(items[0], c);
    } else {
      SplitJoin(items[1..], c);
      SplitFirst(items[0], Join([c], items[1..]), c);
      assert [items[0]] + items[1..] == items;
    }
  }

  /** ASCII upper case (Python's `str.upper` restricted to ASCII letters). */
  function UpperChar(c: char): char
  {
    if 'a' <= c <= 'z' then (c as int - 32) as char else c
  }

  function Upper(s: string): (r: string)
    ensures |r| == |s|
    ensures forall i :: 0 <= i < |s| ==> r[i] == UpperChar(s[i])
  {
    if |s| == 0 then "" else [UpperChar(s[0])] + Upper(s[1..])
  }

  /** The decimal digit for a value below ten, and back. */
  function Digit(d: nat): char
    requires d < 10
  {
    "0123456789"[d]
  }

  predicate IsDigit(c: char)
  {
    '0' <= c <= '9'
  }

  function DigitValue(c: char): nat
    requires IsDigit(c)
  {
    c as int - '0' as int
  }

  /** `str(n)` for a natural number: its decimal numeral, without leading zeros. */
  function NatToDecimal(n: nat): (r: string)
    ensures |r| > 0
    ensures forall i :: 0 <= i < |r| ==> IsDigit(r[i])
    ensures r[0] == '0' ==> n == 0
    decreases n
  {
    if n < 10 then [Digit(n)] else NatToDecimal(n / 10) + [Digit(n % 10)]
  }

  /** `str(i)` for an integer: a minus sign before the numeral of a negative number. */
  function IntToDecimal(i: int): string
  {
    if i < 0 then "-" + NatToDecimal(-i) else NatToDecimal(i)
  }

  predicate IsNumeral(t: string)
  {
    |t| > 0 && forall i :: 0 <= i < |t| ==> IsDigit(t[i])
  }

  /** The value of a string of digits, read from the left. */
  function NumeralValue(t: string): nat
    requires forall i :: 0 <= i < |t| ==> IsDigit(t[i])
    decreases |t|
  {
    if |t| == 0 then 0 else 10 * NumeralValue(t[..|t| - 1]) + DigitValue(t[|t| - 1])
  }

  /** Reads an optionally negative decimal numeral: the inverse of `IntToDecimal`. */
  function ParseInt(t: string): Option<int>
  {
    if |t| > 0 && t[0] == '-' then
      if IsNumeral(t[1..]) then Some(-(NumeralValue(t[1..]) as int)) else None
    else if IsNumeral(t) then Some(NumeralValue(t))
    else None
  }

  lemma {:induction false} NatToDecimalValue(n: nat)
    ensures NumeralValue(NatToDecimal(n)) == n
    decreases n
  {
    var r := NatToDecimal(n);
    if n >= 10 {
      NatToDecimalValue(n / 10);
      assert r[..|r| - 1] == NatToDecimal(n / 10);
      assert DigitValue(r[|r| - 1]) == n % 10;
    } else {
      assert r[..0] == "";
    }
  }

  lemma NegativeRoundTrip(n: nat)
    ensures ParseInt("-" + NatToDecimal(n)) == Some(-(n as int))
  {
    var s := NatToDecimal(n);
    NatToDecimalValue(n);
    assert ("-" + s)[1..] == s;
    assert IsNumeral(s);
  }

  lemma NonNegativeRoundTrip(n: nat)
    ensures ParseInt(NatToDecimal(n)) == Some(n as int)
  {
    var s := NatToDecimal(n);
    NatToDecimalValue(n);
    assert s[0] != '-' by { assert IsDigit(s[0]); }
    assert IsNumeral(s);
  }

  /** `str(i)` of an integer reads back as that integer. */
  lemma IntToDecimalRoundTrip(i: int)
    ensures ParseInt(IntToDecimal(i)) == Some(i)
  {
    if i < 0 {
      NegativeRoundTrip(-i);
      assert IntToDecimal(i) == "-" + NatToDecimal(-i);
    } else {
      NonNegativeRoundTrip(i);
      assert IntToDecimal(i) == NatToDecimal(i);
    }
  }
}
