/**
 * The few Python `str` operations the query compiler relies on:
 * `s.replace(c, '')`, `sep.join(xs)`, `s.strip()` and `str(n)` for integers.
 */
module PyText {

  function Min(a: int, b: int): int { if a < b then a else b }

  // ---------------------------------------------------------------------------
  // s.replace(c, '')

  /** `s.replace(c, '')`: every occurrence of `c` deleted, the rest kept in order. */
  function DeleteAll(s: string, c: char): (r: string)
    ensures c !in r
    ensures |r| <= |s|
    ensures c !in s ==> r == s
    ensures forall x :: x in r ==> x in s
  {
    if s == [] then []
    else if s[0] == c then DeleteAll(s[1..], c)
    else [s[0]] + DeleteAll(s[1..], c)
  }

  /** Deletion works piecewise: it distributes over concatenation. */
  lemma {:induction false} DeleteAllAppend(a: string, b: string, c: char)
    ensures DeleteAll(a + b, c) == DeleteAll(a, c) + DeleteAll(b, c)
  {
    if a == [] {
      assert a + b == b;
    } else {
      assert (a + b)[0] == a[0];
      assert (a + b)[1..] == a[1..] + b;
      DeleteAllAppend(a[1..], b, c);
    }
  }

  predicate IsDigit(ch: char) { '0' <= ch <= '9' }

  predicate AllDigits(s: string) { forall i :: 0 <= i < |s| ==> IsDigit(s[i]) }

  /** An ISO 8601 calendar date `YYYY-MM-DD` as text. */
  predicate IsIsoDate(s: string)
  {
    && |s| == 10
    && AllDigits(s[..4]) && s[4] == '-'
    && AllDigits(s[5..7]) && s[7] == '-'
    && AllDigits(s[8..])
  }

  /** Removing the hyphens of an ISO date leaves exactly its eight digits, year, month, day. */
  lemma IsoDateWithoutHyphens(s: string)
    requires IsIsoDate(s)
    ensures DeleteAll(s, '-') == s[..4] + s[5..7] + s[8..]
    ensures |DeleteAll(s, '-')| == 8 && AllDigits(DeleteAll(s, '-'))
  {
    assert s == s[..4] + [s[4]] + s[5..7] + [s[7]] + s[8..];
    forall part | part in [s[..4], s[5..7], s[8..]]
      ensures DeleteAll(part, '-') == part
    {
      assert AllDigits(part);
    }
    DeleteAllAppend(s[..4] + [s[4]] + s[5..7] + [s[7]], s[8..], '-');
    DeleteAllAppend(s[..4] + [s[4]] + s[5..7], [s[7]], '-');
    DeleteAllAppend(s[..4] + [s[4]], s[5..7], '-');
    DeleteAllAppend(s[..4], [s[4]], '-');
    assert DeleteAll([s[4]], '-') == [];
    assert DeleteAll([s[7]], '-') == [];
  }

  // ---------------------------------------------------------------------------
  // sep.join(xs)

  /** `sep.join(xs)`. */
  function Join(sep: string, xs: seq<string>): string
  {
    if |xs| == 0 then ""
    else if |xs| == 1 then xs[0]
    else xs[0] + sep + Join(sep, xs[1..])
  }

  /** Where the i-th piece starts in `Join(sep, xs)`: after every earlier piece and its separator. */
  function PieceOffset(sep: string, xs: seq<string>, i: nat): nat
    requires i <= |xs|
  {
    if i == 0 then 0 else |xs[0]| + |sep| + PieceOffset(sep, xs[1..], i - 1)
  }

  /**
   * The layout of a join: piece i starts at `PieceOffset(sep, xs, i)`, and from there
   * the string reads piece i, then (unless it is the last) the separator and the join
   * of the later pieces.
   */
  lemma {:induction false} JoinLayout(sep: string, xs: seq<string>, i: nat)
    requires i < |xs|
    ensures PieceOffset(sep, xs, i) <= |Join(sep, xs)|
    ensures Join(sep, xs)[PieceOffset(sep, xs, i)..]
         == xs[i] + (if i + 1 < |xs| then sep + Join(sep, xs[i + 1..]) else "")
  {
    if i > 0 {
      var rest := xs[1..];
      JoinLayout(sep, rest, i - 1);
      assert rest[i - 1] == xs[i] && rest[i..] == xs[i + 1..];
      var k := |xs[0]| + |sep|;
      assert Join(sep, xs) == xs[0] + sep + Join(sep, rest);
      assert Join(sep, xs)[k..] == Join(sep, rest);
    }
  }

  // ---------------------------------------------------------------------------
  // s.strip()

  /** The characters Python's `str.strip()` removes when called without an argument. */
  predicate IsSpace(ch: char)
  {
    || ch == ' ' || ('\t' <= ch <= '\r')
    || ('\U{1C}' <= ch <= '\U{1F}') || ch == '\U{85}' || ch == '\U{A0}'
    || ch == '\U{1680}' || ('\U{2000}' <= ch <= '\U{200A}')
    || ch == '\U{2028}' || ch == '\U{2029}' || ch == '\U{202F}'
    || ch == '\U{205F}' || ch == '\U{3000}'
  }

  predicate AllSpace(s: string) { forall i :: 0 <= i < |s| ==> IsSpace(s[i]) }

  /** `s.lstrip()`: a suffix of `s`, everything cut off being whitespace, not starting with whitespace. */
  function StripLeft(s: string): (r: string)
    ensures |r| <= |s| && r == s[|s| - |r|..]
    ensures AllSpace(s[..|s| - |r|])
    ensures r == [] || !IsSpace(r[0])
  {
    if s != [] && IsSpace(s[0]) then StripLeft(s[1..]) else s
  }

  /** `s.rstrip()`: a prefix of `s`, everything cut off being whitespace, not ending in whitespace. */
  function StripRight(s: string): (r: string)
    ensures |r| <= |s| && r == s[..|r|]
    ensures AllSpace(s[|r|..])
    ensures r == [] || !IsSpace(r[|r| - 1])
  {
    if s != [] && IsSpace(s[|s| - 1]) then StripRight(s[..|s| - 1]) else s
  }

  /** `s.strip()`. */
  function Strip(s: string): string
  {
    StripRight(StripLeft(s))
  }

  /** Stripping text padded by whitespace gives back the text when it neither starts nor ends with whitespace. */
  lemma {:induction false} StripPadded(front: string, body: string, back: string)
    requires AllSpace(front) && AllSpace(back)
    requires body != [] && !IsSpace(body[0]) && !IsSpace(body[|body| - 1])
    ensures Strip(front + body + back) == body
  {
    assert front + body + back == front + (body + back);
    StripLeftPadded(front, body + back);
    StripRightPadded(body, back);
  }

  lemma {:induction false} StripLeftPadded(front: string, rest: string)
    requires AllSpace(front)
    requires rest != [] && !IsSpace(rest[0])
    ensures StripLeft(front + rest) == rest
  {
    if front != [] {
      assert (front + rest)[1..] == front[1..] + rest;
      StripLeftPadded(front[1..], rest);
    } else {
      assert front + rest == rest;
    }
  }

  lemma {:induction false} StripRightPadded(rest: string, back: string)
    requires AllSpace(back)
    requires rest != [] && !IsSpace(rest[|rest| - 1])
    ensures StripRight(rest + back) == rest
  {
    if back != [] {
      assert (rest + back)[..|rest + back| - 1] == rest + back[..|back| - 1];
      StripRightPadded(rest, back[..|back| - 1]);
    } else {
      assert rest + back == rest;
    }
  }

  // ---------------------------------------------------------------------------
  // str(n) for an int

  function DigitChar(d: nat): char
    requires d < 10
  {
    ['0', '1', '2', '3', '4', '5', '6', '7', '8', '9'][d]
  }

  /** Decimal digits of a natural number, most significant first, without leading zeros. */
  function NatToDecimal(n: nat): (s: string)
    ensures s != [] && AllDigits(s)
    ensures |s| > 1 ==> s[0] != '0'
  {
    if n < 10 then [DigitChar(n)]
    else NatToDecimal(n / 10) + [DigitChar(n % 10)]
  }

  /** `str(i)` for a Python int: an optional minus sign and the digits of its magnitude. */
  function IntToDecimal(i: int): (s: string)
    ensures s != [] && IsDigit(s[|s| - 1])
    ensures i >= 0 ==> AllDigits(s) && DecimalValue(s) == i
    ensures i < 0 ==> |s| >= 2 && s[0] == '-' && AllDigits(s[1..]) && DecimalValue(s[1..]) == -i
    ensures i >= 0 ==> (|s| > 1 ==> s[0] != '0')
    ensures i < 0 ==> (|s| > 2 ==> s[1] != '0')
  {
    if i < 0 then
      DecimalRoundTrip(-i);
      var s := "-" + NatToDecimal(-i);
      assert s[1..] == NatToDecimal(-i);
      s
    else
      DecimalRoundTrip(i);
      NatToDecimal(i)
  }

  /** The value a string of decimal digits denotes. */
  function DecimalValue(s: string): nat
    requires AllDigits(s)
  {
    if s == [] then 0
    else 10 * DecimalValue(s[..|s| - 1]) + ((s[|s| - 1] as int) - ('0' as int))
  }

  /** Reading back the digits `str` writes gives the number again. */
  lemma {:induction false} DecimalRoundTrip(n: nat)
    ensures DecimalValue(NatToDecimal(n)) == n
  {
    if n >= 10 {
      DecimalRoundTrip(n / 10);
      var s := NatToDecimal(n);
      assert s[..|s| - 1] == NatToDecimal(n / 10);
    }
  }
}
