/**
 * The two ways the data loader and the point-line command read integers
 * out of text: `std::atoi` on a parameter, and `std::istringstream` with
 * `iss >> x >> delim >> y` on an `x,y` pair. Both skip leading white
 * space and take an optional sign followed by decimal digits; the stream
 * fails when no digit follows or when the value does not fit in
 * `int32_t`, and the pair is accepted only when the delimiter is a comma.
 */
module IntStreams {
  import opened FixedWidth
  import opened Options

  /** `isspace` in the C locale: space, tab, line feed, vertical tab, form feed, carriage return. */
  predicate IsSpace(c: char)
  {
    c == ' ' || c == '\t' || c == '\n' || c == 11 as char || c == 12 as char || c == '\r'
  }

  predicate IsDigit(c: char)
  {
    '0' <= c <= '9'
  }

  predicate AllDigits(s: string)
  {
    forall i :: 0 <= i < |s| ==> IsDigit(s[i])
  }

  /** The first index at or after `i` that is not white space. */
  function SkipSpaces(s: string, i: nat): (j: nat)
    requires i <= |s|
    ensures i <= j <= |s|
    ensures forall k :: i <= k < j ==> IsSpace(s[k])
    ensures j == |s| || !IsSpace(s[j])
    decreases |s| - i
  {
    if i < |s| && IsSpace(s[i]) then SkipSpaces(s, i + 1) else i
  }

  /** The end of the run of digits that starts at `i`. */
  function DigitEnd(s: string, i: nat): (j: nat)
    requires i <= |s|
    ensures i <= j <= |s|
    ensures forall k :: i <= k < j ==> IsDigit(s[k])
    ensures j == |s| || !IsDigit(s[j])
    decreases |s| - i
  {
    if i < |s| && IsDigit(s[i]) then DigitEnd(s, i + 1) else i
  }

  /** The value of decimal digits, most significant first. */
  function DecimalValue(ds: string): nat
    requires AllDigits(ds)
  {
    if |ds| == 0 then 0 else 10 * DecimalValue(ds[..|ds| - 1]) + (ds[|ds| - 1] as int - '0' as int)
  }

  /** The digits of `s` from `i` to `j`, which `DigitEnd` promises are digits. */
  function DigitsValue(s: string, i: nat, j: nat): nat
    requires i <= j <= |s| && forall k :: i <= k < j ==> IsDigit(s[k])
  {
    var ds := s[i..j];
    assert AllDigits(ds) by {
      forall k | 0 <= k < |ds| ensures IsDigit(ds[k]) {
        assert ds[k] == s[i + k];
      }
    }
    DecimalValue(ds)
  }

  /** Where the digits start after white space and an optional sign, and whether the sign is a minus. */
  function SignEnd(s: string, i: nat): (r: (nat, bool))
    requires i <= |s|
    ensures i <= r.0 <= |s|
  {
    var j := SkipSpaces(s, i);
    if j < |s| && (s[j] == '-' || s[j] == '+') then (j + 1, s[j] == '-') else (j, false)
  }

  /**
   * `std::atoi`: white space, an optional sign and the longest run of
   * digits; 0 when no digit follows.
   */
  function Atoi(s: string): (v: int)
  {
    var (start, negative) := SignEnd(s, 0);
    var n: int := DigitsValue(s, start, DigitEnd(s, start));
    if negative then -n else n
  }

  /**
   * `stream >> n` into an `int32_t` from position `i`: the value and the
   * position after its digits, or `None` when the stream fails (no digit,
   * or a value outside `int32_t`).
   */
  function ExtractInt32(s: string, i: nat): (r: Option<(int32, nat)>)
    requires i <= |s|
    ensures r.Some? ==> i < r.value.1 <= |s|
  {
    var (start, negative) := SignEnd(s, i);
    var end := DigitEnd(s, start);
    if end == start then None
    else
      var n: int := DigitsValue(s, start, end);
      var v := if negative then -n else n;
      if InInt32(v) then Some((v, end)) else None
  }

  /** `stream >> c` into a `char`: the next character that is not white space. */
  function ExtractChar(s: string, i: nat): (r: Option<(char, nat)>)
    requires i <= |s|
    ensures r.Some? ==> i < r.value.1 <= |s| && !IsSpace(r.value.0)
  {
    var j := SkipSpaces(s, i);
    if j < |s| then Some((s[j], j + 1)) else None
  }

  /** `(iss >> x >> delim >> y) && delim == ','`: the pair read from the start of `s`. */
  function ExtractPair(s: string): (r: Option<(int32, int32)>)
  {
    match ExtractInt32(s, 0)
    case None => None
    case Some((x, i)) =>
      match ExtractChar(s, i)
      case None => None
      case Some((delim, j)) =>
        if delim != ',' then None
        else match ExtractInt32(s, j)
          case None => None
          case Some((y, _)) => Some((x, y))
  }

  // ---------------------------------------------------------------------
  // Decimal text, the inverse of the readers
  // ---------------------------------------------------------------------

  function DigitChar(d: nat): (c: char)
    requires d < 10
    ensures IsDigit(c) && c as int - '0' as int == d
  {
    ('0' as int + d) as char
  }

  /** The shortest decimal text of `n`. */
  function Decimal(n: nat): (ds: string)
    ensures |ds| >= 1 && AllDigits(ds)
    decreases n
  {
    if n < 10 then [DigitChar(n)] else Decimal(n / 10) + [DigitChar(n % 10)]
  }

  /** Reading decimal text back gives the number it was written from. */
  lemma {:induction false} DecimalValueOfDecimal(n: nat)
    ensures DecimalValue(Decimal(n)) == n
    decreases n
  {
    if n >= 10 {
      DecimalValueOfDecimal(n / 10);
      var ds := Decimal(n);
      assert ds[..|ds| - 1] == Decimal(n / 10);
    }
  }

  /** The signed text `stream << v` writes for an `int32_t`. */
  function SignedDecimal(v: int): (s: string)
  {
    if v < 0 then "-" + Decimal(-v) else Decimal(v)
  }

  /** `DigitEnd` stops at the first non-digit. */
  lemma {:induction false} DigitEndIs(s: string, i: nat, e: nat)
    requires i <= e <= |s|
    requires forall k :: i <= k < e ==> IsDigit(s[k])
    requires e == |s| || !IsDigit(s[e])
    ensures DigitEnd(s, i) == e
    decreases e - i
  {
    if i < e {
      DigitEndIs(s, i + 1, e);
    }
  }

  /** Digits followed by a non-digit are read as their value. */
  lemma ReadsDigits(s: string, i: nat, ds: string)
    requires AllDigits(ds) && i + |ds| <= |s| && s[i..i + |ds|] == ds
    requires i + |ds| == |s| || !IsDigit(s[i + |ds|])
    ensures DigitEnd(s, i) == i + |ds| && DigitsValue(s, i, i + |ds|) == DecimalValue(ds)
  {
    forall k | i <= k < i + |ds| ensures IsDigit(s[k]) {
      assert s[k] == ds[k - i];
    }
    DigitEndIs(s, i, i + |ds|);
  }

  /** The written text of `v`: a minus for negatives, then the digits of its magnitude. */
  lemma SignedDecimalShape(v: int)
    ensures var t := SignedDecimal(v);
            var i := if v < 0 then 1 else 0;
            |t| > i && t[i..] == Decimal(if v < 0 then -v else v)
            && (v < 0 ==> t[0] == '-') && (v >= 0 ==> IsDigit(t[0]))
  {
    var t := SignedDecimal(v);
    if v < 0 {
      assert t[1..] == Decimal(-v);
    } else {
      assert t[0..] == t;
    }
  }

  /** The written text of `v` holds only a minus sign and digits. */
  lemma SignedDecimalChars(v: int)
    ensures forall i :: 0 <= i < |SignedDecimal(v)| ==> SignedDecimal(v)[i] == '-' || IsDigit(SignedDecimal(v)[i])
  {
    var t := SignedDecimal(v);
    if v < 0 {
      assert forall i :: 1 <= i < |t| ==> t[i] == Decimal(-v)[i - 1];
    }
  }

  /** Where the text of `v` follows `pre` and precedes `rest`, the sign and the digits are found at their places. */
  lemma SignEndOfDecimal(pre: string, v: int, rest: string)
    ensures var s := pre + SignedDecimal(v) + rest;
            SignEnd(s, |pre|) == (|pre| + if v < 0 then 1 else 0, v < 0)
  {
    SignedDecimalShape(v);
    var s := pre + SignedDecimal(v) + rest;
    assert s[|pre|] == SignedDecimal(v)[0];
    assert !IsSpace(s[|pre|]);
  }

  /**
   * The stream reads back any `int32_t` written in decimal, stopping where
   * the text after it starts with something other than a digit.
   */
  lemma ExtractInt32OfDecimal(pre: string, v: int32, rest: string)
    requires |rest| == 0 || !IsDigit(rest[0])
    ensures ExtractInt32(pre + SignedDecimal(v) + rest, |pre|) == Some((v, |pre| + |SignedDecimal(v)|))
  {
    var t := SignedDecimal(v);
    var s := pre + t + rest;
    var n: nat := if v < 0 then -(v as int) else v;
    var i := |pre| + if v < 0 then 1 else 0;
    SignedDecimalShape(v);
    SignEndOfDecimal(pre, v, rest);
    var ds := Decimal(n);
    assert s[i..i + |ds|] == t[i - |pre|..] == ds;
    if |rest| > 0 {
      assert s[i + |ds|] == rest[0];
    }
    ReadsDigits(s, i, ds);
    DecimalValueOfDecimal(n);
    ExtractInt32Is(s, |pre|, i, v < 0, i + |ds|, n, v);
  }

  /** `ExtractInt32` from its parts. */
  lemma ExtractInt32Is(s: string, i: nat, start: nat, negative: bool, end: nat, n: nat, v: int)
    requires i <= |s| && SignEnd(s, i) == (start, negative)
    requires start <= end <= |s| && DigitEnd(s, start) == end && start < end
    requires DigitsValue(s, start, end) == n && v == (if negative then -(n as int) else n) && InInt32(v)
    ensures ExtractInt32(s, i) == Some((v as int32, end))
  {
  }

  /** `ExtractPair` from its three reads. */
  lemma ExtractPairIs(s: string, i: nat, j: nat)
    requires ExtractInt32(s, 0).Some? && ExtractInt32(s, 0).value.1 == i && i <= |s|
    requires ExtractChar(s, i).Some? && ExtractChar(s, i).value.0 == ',' && ExtractChar(s, i).value.1 == j && j <= |s|
    requires ExtractInt32(s, j).Some?
    ensures ExtractPair(s) == Some((ExtractInt32(s, 0).value.0, ExtractInt32(s, j).value.0))
  {
  }

  /**
   * Writing a pair as `x,y` and reading it back gives the pair, whatever
   * follows it that does not start with a digit.
   */
  lemma ExtractPairOfWritten(x: int32, y: int32, rest: string)
    requires |rest| == 0 || !IsDigit(rest[0])
    ensures ExtractPair(SignedDecimal(x) + "," + SignedDecimal(y) + rest) == Some((x, y))
  {
    var sx := SignedDecimal(x);
    var sy := SignedDecimal(y);
    var s := sx + "," + sy + rest;
    assert ExtractInt32(s, 0).Some? && ExtractInt32(s, 0).value.0 == x && ExtractInt32(s, 0).value.1 == |sx| by {
      assert s == [] + sx + ("," + sy + rest);
      ExtractInt32OfDecimal([], x, "," + sy + rest);
    }
    assert ExtractChar(s, |sx|).Some? && ExtractChar(s, |sx|).value.0 == ',' && ExtractChar(s, |sx|).value.1 == |sx| + 1 by {
      assert s[|sx|] == ',';
      CommaAt(s, |sx|);
    }
    var pre := sx + ",";
    assert ExtractInt32(s, |pre|).Some? && ExtractInt32(s, |pre|).value.0 == y by {
      assert s == pre + sy + rest;
      ExtractInt32OfDecimal(pre, y, rest);
    }
    ExtractPairIs(s, |sx|, |pre|);
  }

  /** A comma is the character the stream reads next. */
  lemma CommaAt(s: string, i: nat)
    requires i < |s| && s[i] == ','
    ensures ExtractChar(s, i) == Some((',', i + 1))
  {
    assert SkipSpaces(s, i) == i;
  }

  /** `atoi` on a written number gives the number back. */
  lemma AtoiOfDecimal(v: int)
    ensures Atoi(SignedDecimal(v)) == v
  {
    var s := SignedDecimal(v);
    var n: nat := if v < 0 then -v else v;
    var i := if v < 0 then 1 else 0;
    assert SignEnd(s, 0) == (i, v < 0) by {
      SignEndOfDecimal([], v, "");
      assert [] + s + "" == s;
    }
    assert DigitEnd(s, i) == |s| && DigitsValue(s, i, |s|) == n by {
      DecimalDigitsRead(v);
    }
    AtoiIs(s, i, v < 0, |s|, n);
  }

  /** After its sign, the written text of `v` is all digits, read as the magnitude of `v`. */
  lemma DecimalDigitsRead(v: int)
    ensures var s := SignedDecimal(v);
            var i := if v < 0 then 1 else 0;
            i <= |s| && DigitEnd(s, i) == |s| && DigitsValue(s, i, |s|) == (if v < 0 then -v else v)
  {
    var s := SignedDecimal(v);
    var n: nat := if v < 0 then -v else v;
    var i := if v < 0 then 1 else 0;
    SignedDecimalShape(v);
    var ds := Decimal(n);
    assert s[i..i + |ds|] == ds;
    ReadsDigits(s, i, ds);
    DecimalValueOfDecimal(n);
  }

  /** `atoi` from its parts. */
  lemma AtoiIs(s: string, start: nat, negative: bool, end: nat, n: nat)
    requires SignEnd(s, 0) == (start, negative) && start <= |s|
    requires DigitEnd(s, start) == end && DigitsValue(s, start, end) == n
    ensures Atoi(s) == if negative then -(n as int) else n
  {
  }
}
