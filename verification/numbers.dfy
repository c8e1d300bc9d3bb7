/** The CLR integer widths the core uses (`int` role ids, `long` user ids),
    their invariant-culture decimal text (`ToString()`), and
    `int.TryParse` / `long.TryParse` with the default `NumberStyles.Integer`. */
module Numbers {
  import opened Wrappers

  newtype int32 = x: int | -0x8000_0000 <= x < 0x8000_0000
  newtype int64 = x: int | -0x8000_0000_0000_0000 <= x < 0x8000_0000_0000_0000

  predicate IsDigit(c: char) {
    '0' <= c <= '9'
  }

  predicate AllDigits(s: string) {
    forall i | 0 <= i < |s| :: IsDigit(s[i])
  }

  function DigitChar(d: nat): (c: char)
    requires d < 10
    ensures IsDigit(c) && c as int - '0' as int == d
  {
    ('0' as int + d) as char
  }

  /** Decimal digits of a natural number, most significant first, no leading zeros. */
  function DigitsOf(n: nat): (s: string)
    ensures 1 <= |s| && AllDigits(s)
    ensures |s| > 1 ==> s[0] != '0'
    decreases n
  {
    if n < 10 then [DigitChar(n)] else DigitsOf(n / 10) + [DigitChar(n % 10)]
  }

  /** The number a string of decimal digits denotes. */
  function ValueOfDigits(s: string): nat
    requires AllDigits(s)
  {
    if |s| == 0 then 0 else 10 * ValueOfDigits(s[..|s| - 1]) + (s[|s| - 1] as int - '0' as int)
  }

  /** `n.ToString()` in the invariant culture. */
  function Decimal(n: int): string {
    if n < 0 then "-" + DigitsOf(-n) else DigitsOf(n)
  }

  /** The white space `NumberStyles.AllowLeadingWhite`/`AllowTrailingWhite` skip. */
  predicate IsParseWhite(c: char) {
    ('\t' <= c <= '\r') || c == ' '
  }

  function TrimStart(s: string): (r: string)
    ensures |r| <= |s| && r == s[|s| - |r|..]
    ensures |r| > 0 ==> !IsParseWhite(r[0])
  {
    if |s| > 0 && IsParseWhite(s[0]) then TrimStart(s[1..]) else s
  }

  function TrimEnd(s: string): (r: string)
    ensures |r| <= |s| && r == s[..|r|]
    ensures |r| > 0 ==> !IsParseWhite(r[|r| - 1])
  {
    if |s| > 0 && IsParseWhite(s[|s| - 1]) then TrimEnd(s[..|s| - 1]) else s
  }

  /** `[ws][sign]digits[ws]` read as an unbounded integer; `None` when the
      text does not have that shape (including null and the empty string). */
  function ParseInteger(s: Option<string>): (r: Option<int>)
  {
    match s
    case None => None
    case Some(text) =>
      var t := TrimEnd(TrimStart(text));
      if |t| == 0 then None
      else
        var negative := t[0] == '-';
        var digits := if t[0] == '-' || t[0] == '+' then t[1..] else t;
        if |digits| == 0 || !AllDigits(digits) then None
        else
          var magnitude: int := ValueOfDigits(digits);
          Some(if negative then -magnitude else magnitude)
  }

  /** `long.TryParse(s, out v)`: `None` models the `false` return. */
  function TryParseInt64(s: Option<string>): (r: Option<int64>)
    ensures r.Some? ==> ParseInteger(s) == Some(r.value as int)
    ensures r.None? ==> ParseInteger(s).None? || !(-0x8000_0000_0000_0000 <= ParseInteger(s).value < 0x8000_0000_0000_0000)
  {
    match ParseInteger(s)
    case Some(n) => if -0x8000_0000_0000_0000 <= n < 0x8000_0000_0000_0000 then Some(n as int64) else None
    case None => None
  }

  /** `int.TryParse(s, out v)`. */
  function TryParseInt32(s: Option<string>): (r: Option<int32>)
    ensures r.Some? ==> ParseInteger(s) == Some(r.value as int)
    ensures r.None? ==> ParseInteger(s).None? || !(-0x8000_0000 <= ParseInteger(s).value < 0x8000_0000)
  {
    match ParseInteger(s)
    case Some(n) => if -0x8000_0000 <= n < 0x8000_0000 then Some(n as int32) else None
    case None => None
  }

  lemma {:induction false} ValueOfDigitsOf(n: nat)
    ensures ValueOfDigits(DigitsOf(n)) == n
    decreases n
  {
    if n >= 10 {
      var s := DigitsOf(n);
      assert s[..|s| - 1] == DigitsOf(n / 10);
      ValueOfDigitsOf(n / 10);
    }
  }

  /** Reading back the decimal text of any integer gives that integer. */
  lemma DecimalRoundTrip(n: int)
    ensures ParseInteger(Some(Decimal(n))) == Some(n)
  {
    var text := Decimal(n);
    var d := DigitsOf(if n < 0 then -n else n);
    assert TrimStart(text) == text;
    assert TrimEnd(text) == text;
    ValueOfDigitsOf(if n < 0 then -n else n);
    if n < 0 {
      assert text[1..] == d;
    }
  }

  lemma Int64RoundTrip(n: int64)
    ensures TryParseInt64(Some(Decimal(n as int))) == Some(n)
  {
    DecimalRoundTrip(n as int);
  }

  lemma Int32RoundTrip(n: int32)
    ensures TryParseInt32(Some(Decimal(n as int))) == Some(n)
  {
    DecimalRoundTrip(n as int);
  }
}
