/** The string operations the quiz code takes from JavaScript: substring
    search (`String.prototype.includes`), `Array.prototype.join(', ')` and the
    decimal rendering of integers (`Number.prototype.toString`), each with the
    inverse or characterisation the rest of the model relies on. */
module Text {
  import opened Optional

  // ---------------------------------------------------------------------------
  // Substring search
  // ---------------------------------------------------------------------------

  /** `s.includes(p)`: `p` occurs in `s` at some position. */
  predicate Contains(s: string, p: string) {
    exists i :: 0 <= i <= |s| - |p| && OccursAt(s, p, i)
  }

  /** `p` occurs in `s` starting at position `i`. */
  predicate OccursAt(s: string, p: string, i: int) {
    0 <= i <= |s| - |p| && s[i..i + |p|] == p
  }

  /** No position of `s` holds the character `c`. */
  predicate Lacks(s: string, c: char) {
    forall i :: 0 <= i < |s| ==> s[i] != c
  }

  /** A string that never holds the first character of a non-empty needle
      cannot contain the needle. */
  lemma LacksFirstCharNotContains(s: string, p: string)
    requires |p| > 0 && Lacks(s, p[0])
    ensures !Contains(s, p)
  {
  }

  lemma LacksConcat(a: string, b: string, c: char)
    requires Lacks(a, c) && Lacks(b, c)
    ensures Lacks(a + b, c)
  {
    forall i | 0 <= i < |a + b|
      ensures (a + b)[i] != c
    {
      if i >= |a| {
        assert (a + b)[i] == b[i - |a|];
      }
    }
  }

  // ---------------------------------------------------------------------------
  // Joining list fields with ", " and splitting them again
  // ---------------------------------------------------------------------------

  const ListSeparator: string := ", "

  /** `xs.join(', ')`: the elements in order with ", " between neighbours;
      the empty list gives the empty string. */
  function Join(xs: seq<string>): string {
    if |xs| == 0 then ""
    else if |xs| == 1 then xs[0]
    else xs[0] + ListSeparator + Join(xs[1..])
  }

  /** Cuts a string at every ", " (left to right); the inverse of `Join` on
      lists whose elements hold no comma. Always at least one piece. */
  function Split(s: string): (r: seq<string>)
    ensures |r| > 0
    decreases |s|
  {
    if |s| == 0 then [""]
    else if |s| >= 2 && s[0] == ',' && s[1] == ' ' then [""] + Split(s[2..])
    else
      var rest := Split(s[1..]);
      [[s[0]] + rest[0]] + rest[1..]
  }

  /** Elements that survive a join/split round trip: non-empty and comma-free. */
  predicate Splittable(xs: seq<string>) {
    forall i :: 0 <= i < |xs| ==> |xs[i]| > 0 && Lacks(xs[i], ',')
  }

  lemma {:induction false} SplitCommaFree(x: string)
    requires Lacks(x, ',')
    ensures Split(x) == [x]
    decreases |x|
  {
    if |x| > 0 {
      assert x[0] != ',';
      SplitCommaFree(x[1..]);
      assert [x[0]] + x[1..] == x;
    }
  }

  lemma {:induction false} SplitAtFirstSeparator(x: string, t: string)
    requires Lacks(x, ',')
    ensures Split(x + ListSeparator + t) == [x] + Split(t)
    decreases |x|
  {
    if |x| == 0 {
      assert x + ListSeparator + t == ", " + t;
      assert (", " + t)[2..] == t;
    } else {
      var s := x + ListSeparator + t;
      assert s[0] == x[0] && x[0] != ',';
      assert s[1..] == x[1..] + ListSeparator + t;
      SplitAtFirstSeparator(x[1..], t);
      assert [x[0]] + x[1..] == x;
    }
  }

  /** Splitting a joined list gives the list back when it is non-empty and
      its elements are non-empty and comma-free. */
  lemma {:induction false} SplitJoin(xs: seq<string>)
    requires |xs| > 0 && Splittable(xs)
    ensures Split(Join(xs)) == xs
    decreases |xs|
  {
    if |xs| == 1 {
      SplitCommaFree(xs[0]);
    } else {
      SplitAtFirstSeparator(xs[0], Join(xs[1..]));
      SplitJoin(xs[1..]);
      assert [xs[0]] + xs[1..] == xs;
    }
  }

  /** Reading a joined list field back: the empty string stands for the
      empty list, anything else is split at ", ". */
  function UnjoinList(s: string): seq<string> {
    if s == "" then [] else Split(s)
  }

  lemma UnjoinJoin(xs: seq<string>)
    requires Splittable(xs)
    ensures UnjoinList(Join(xs)) == xs
  {
    if |xs| > 0 {
      assert |Join(xs)| >= |xs[0]| > 0 by { JoinLength(xs); }
      SplitJoin(xs);
    }
  }

  lemma {:induction false} JoinLength(xs: seq<string>)
    requires |xs| > 0
    ensures |Join(xs)| >= |xs[0]|
    decreases |xs|
  {
  }

  // ---------------------------------------------------------------------------
  // Decimal rendering of integers
  // ---------------------------------------------------------------------------

  predicate IsDigit(c: char) {
    '0' <= c <= '9'
  }

  predicate AllDigits(s: string) {
    forall i :: 0 <= i < |s| ==> IsDigit(s[i])
  }

  function Digit(d: nat): (c: char)
    requires d < 10
    ensures IsDigit(c)
  {
    ('0' as int + d) as char
  }

  function DigitValue(c: char): (d: nat)
    requires IsDigit(c)
    ensures d < 10
  {
    c as int - '0' as int
  }

  /** Decimal digits of `n`, most significant first, without leading zeros. */
  function NatToString(n: nat): (r: string)
    ensures |r| > 0 && AllDigits(r)
    decreases n
  {
    if n < 10 then [Digit(n)] else NatToString(n / 10) + [Digit(n % 10)]
  }

  /** The value of a string of decimal digits. */
  function DigitsValue(s: string): nat
    requires AllDigits(s)
    decreases |s|
  {
    if |s| == 0 then 0 else DigitsValue(s[..|s| - 1]) * 10 + DigitValue(s[|s| - 1])
  }

  lemma {:induction false} DigitsValueOfNatToString(n: nat)
    ensures DigitsValue(NatToString(n)) == n
    decreases n
  {
    if n >= 10 {
      var s := NatToString(n);
      assert s[..|s| - 1] == NatToString(n / 10);
      DigitsValueOfNatToString(n / 10);
    }
  }

  /** `i.toString()` for an integer-valued number below 10^21 in magnitude
      (larger numbers print in exponent form, which is not modelled): a minus
      sign for negative values, then the decimal digits of the magnitude. */
  function IntToString(i: int): (r: string)
    ensures |r| > 0
  {
    if i < 0 then "-" + NatToString(-i) else NatToString(i)
  }

  /** The inverse of `IntToString`: an optional minus sign followed by at
      least one digit; anything else is rejected. */
  function ParseInt(s: string): Option<int> {
    if |s| > 1 && s[0] == '-' && AllDigits(s[1..]) then Some(0 - DigitsValue(s[1..]))
    else if |s| > 0 && AllDigits(s) then Some(DigitsValue(s))
    else None
  }

  lemma ParseIntToString(i: int)
    ensures ParseInt(IntToString(i)) == Some(i)
  {
    var s := IntToString(i);
    if i < 0 {
      assert s[1..] == NatToString(-i);
      DigitsValueOfNatToString(-i);
    } else {
      assert s[0] != '-';
      DigitsValueOfNatToString(i);
    }
  }

  /** Distinct integers render as distinct strings. */
  lemma IntToStringInjective(a: int, b: int)
    requires IntToString(a) == IntToString(b)
    ensures a == b
  {
    ParseIntToString(a);
    ParseIntToString(b);
  }
}
