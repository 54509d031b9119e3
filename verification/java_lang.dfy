/**
 * The handful of Java library behaviours the kiosk core relies on, written out
 * exactly: 32-bit narrowing (Long.intValue), Math.abs on an int, Long.toString,
 * String.trim and String.join(",", ...).
 */
module JavaLang {

  const TwoTo32: int := 0x1_0000_0000
  const MinInt32: int := -0x8000_0000
  const MaxInt32: int := 0x7fff_ffff

  predicate IsInt32(x: int) {
    MinInt32 <= x <= MaxInt32
  }

  /** Long.intValue: keeps the low 32 bits, read as a two's complement int. */
  function ToInt32(x: int): (r: int)
    ensures IsInt32(r)
    ensures (x - r) % TwoTo32 == 0
    ensures IsInt32(x) ==> r == x
  {
    (x - MinInt32) % TwoTo32 + MinInt32
  }

  /** Math.abs(int): the absolute value, except that MIN_VALUE overflows to itself. */
  function Abs32(x: int): (r: int)
    requires IsInt32(x)
    ensures IsInt32(r)
    ensures x == MinInt32 ==> r == MinInt32
    ensures x != MinInt32 ==> 0 <= r && (r == x || r == -x)
  {
    if x >= 0 then x else ToInt32(-x)
  }

  predicate IsDigit(c: char) {
    '0' <= c <= '9'
  }

  function DigitChar(d: nat): (c: char)
    requires d < 10
    ensures IsDigit(c)
  {
    ('0' as int + d) as char
  }

  /** The number a decimal digit stands for. */
  function DigitValue(c: char): int {
    c as int - '0' as int
  }

  /** Decimal digits of a natural number, most significant first, no leading zeros. */
  function Digits(n: nat): (s: string)
    ensures 1 <= |s|
    ensures forall k :: 0 <= k < |s| ==> IsDigit(s[k])
    ensures |s| > 1 ==> s[0] != '0'
    decreases n
  {
    if n < 10 then [DigitChar(n)] else Digits(n / 10) + [DigitChar(n % 10)]
  }

  /** Long.toString: an optional minus sign followed by the digits. */
  function LongText(x: int): (s: string)
    ensures 1 <= |s|
    ensures s[0] == '-' <==> x < 0
    ensures forall k :: 0 < k < |s| ==> IsDigit(s[k])
  {
    if x < 0 then "-" + Digits(-x) else Digits(x)
  }

  /** Reads a string of decimal digits, most significant first. */
  function DigitsValue(s: string): int
    decreases |s|
  {
    if s == [] then 0 else DigitsValue(s[..|s| - 1]) * 10 + DigitValue(s[|s| - 1])
  }

  /** Long.parseLong on the texts Long.toString produces: an optional minus sign, then digits. */
  function DecimalValue(s: string): int {
    if s != [] && s[0] == '-' then -DigitsValue(s[1..]) else DigitsValue(s)
  }

  lemma {:induction false} DigitsRoundTrip(n: nat)
    ensures DigitsValue(Digits(n)) == n
    decreases n
  {
    if n >= 10 {
      var s := Digits(n);
      DigitsRoundTrip(n / 10);
      assert s[..|s| - 1] == Digits(n / 10);
      assert s[|s| - 1] == DigitChar(n % 10);
    }
  }

  /** The id's text reads back as the id, so distinct ids never share a text. */
  lemma LongTextRoundTrip(x: int, y: int)
    ensures DecimalValue(LongText(x)) == x
    ensures LongText(x) == LongText(y) ==> x == y
  {
    if x < 0 {
      assert LongText(x)[1..] == Digits(-x);
      DigitsRoundTrip(-x);
    } else {
      DigitsRoundTrip(x);
    }
    if y < 0 {
      assert LongText(y)[1..] == Digits(-y);
      DigitsRoundTrip(-y);
    } else {
      DigitsRoundTrip(y);
    }
  }

  /** The characters String.trim removes: every code point up to and including the space. */
  predicate IsTrimmable(c: char) {
    c <= ' '
  }

  predicate IsBlank(s: string) {
    forall k :: 0 <= k < |s| ==> IsTrimmable(s[k])
  }

  function TrimStart(s: string): (r: string)
    ensures |r| <= |s| && r == s[|s| - |r|..]
    ensures r == [] || !IsTrimmable(r[0])
    ensures forall k :: 0 <= k < |s| - |r| ==> IsTrimmable(s[k])
  {
    if s != [] && IsTrimmable(s[0]) then TrimStart(s[1..]) else s
  }

  function TrimEnd(s: string): (r: string)
    ensures |r| <= |s| && r == s[..|r|]
    ensures r == [] || !IsTrimmable(r[|r| - 1])
    ensures forall k :: |r| <= k < |s| ==> IsTrimmable(s[k])
  {
    if s != [] && IsTrimmable(s[|s| - 1]) then TrimEnd(s[..|s| - 1]) else s
  }

  /** What String.trim drops at the end of the text is trimmable, read at the text's own indices. */
  lemma TrimDropsOnlyBlanks(s: string)
    ensures forall k :: |s| - |TrimStart(s)| + |TrimEnd(TrimStart(s))| <= k < |s| ==> IsTrimmable(s[k])
  {
    var t := TrimStart(s);
    var r := TrimEnd(t);
    var d := |s| - |t|;
    assert t == s[d..];
    forall k | d + |r| <= k < |s|
      ensures IsTrimmable(s[k])
    {
      assert |r| <= k - d < |t|;
      assert IsTrimmable(t[k - d]);
    }
  }

  /** The trimmed text is empty exactly for a blank text. */
  lemma TrimEmptyIffBlank(s: string)
    ensures TrimEnd(TrimStart(s)) == [] <==> IsBlank(s)
  {
    var t := TrimStart(s);
    if t != [] {
      assert s[|s| - |t|] == t[0];
    }
  }

  /** String.trim: drops the leading and the trailing trimmable characters. */
  function Trim(s: string): (r: string)
    ensures |r| <= |s|
    ensures r == [] || (!IsTrimmable(r[0]) && !IsTrimmable(r[|r| - 1]))
    ensures r <= TrimStart(s)
    ensures forall k :: |s| - |TrimStart(s)| + |r| <= k < |s| ==> IsTrimmable(s[k])
    ensures r == [] <==> IsBlank(s)
  {
    TrimDropsOnlyBlanks(s);
    TrimEmptyIffBlank(s);
    TrimEnd(TrimStart(s))
  }

  /** String.join(",", parts). */
  function JoinComma(parts: seq<string>): (s: string)
    ensures |parts| == 0 ==> s == ""
    ensures |parts| == 1 ==> s == parts[0]
    decreases |parts|
  {
    if |parts| == 0 then ""
    else if |parts| == 1 then parts[0]
    else parts[0] + "," + JoinComma(parts[1..])
  }

  /**
   * The fields between commas, keeping empty ones: the reading that inverts
   * JoinComma when no part holds a comma.
   */
  function CommaFields(s: string): (r: seq<string>)
    ensures 1 <= |r|
    decreases |s|
  {
    if s == [] then [""]
    else
      var rest := CommaFields(s[1..]);
      if s[0] == ',' then [""] + rest else [[s[0]] + rest[0]] + rest[1..]
  }

  predicate CommaFree(s: string) {
    forall k :: 0 <= k < |s| ==> s[k] != ','
  }

  lemma {:induction false} CommaFieldsOfPrefix(p: string, t: string)
    requires CommaFree(p)
    ensures CommaFields(p + t) == [p + CommaFields(t)[0]] + CommaFields(t)[1..]
    decreases |p|
  {
    if p != [] {
      assert (p + t)[1..] == p[1..] + t;
      CommaFieldsOfPrefix(p[1..], t);
      assert [p[0]] + (p[1..] + CommaFields(t)[0]) == p + CommaFields(t)[0];
    } else {
      assert p + t == t;
      assert p + CommaFields(t)[0] == CommaFields(t)[0];
      assert CommaFields(t) == [CommaFields(t)[0]] + CommaFields(t)[1..];
    }
  }

  /** Joining comma-free options and splitting the result at commas gives the options back. */
  lemma {:induction false} JoinCommaRoundTrip(parts: seq<string>)
    requires 1 <= |parts|
    requires forall k :: 0 <= k < |parts| ==> CommaFree(parts[k])
    ensures CommaFields(JoinComma(parts)) == parts
    decreases |parts|
  {
    if |parts| == 1 {
      CommaFieldsOfPrefix(parts[0], "");
      assert parts[0] + "" == parts[0];
    } else {
      var tail := JoinComma(parts[1..]);
      JoinCommaRoundTrip(parts[1..]);
      assert JoinComma(parts) == parts[0] + ("," + tail);
      CommaFieldsOfPrefix(parts[0], "," + tail);
      assert ("," + tail)[1..] == tail;
      assert CommaFields("," + tail) == [""] + parts[1..];
      assert parts[0] + "" == parts[0];
      assert [parts[0]] + parts[1..] == parts;
    }
  }

  /** The join is lossy: a comma inside an option and two options read the same, as do [] and [""]. */
  lemma JoinCommaIsLossy()
    ensures JoinComma(["a,b"]) == JoinComma(["a", "b"])
    ensures JoinComma([]) == JoinComma([""])
  {
  }
}
