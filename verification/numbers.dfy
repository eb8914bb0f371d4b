/** .NET integer parsing and printing as the client uses them: `int.Parse`
    and `long.Parse` with the default `NumberStyles.Integer`, decimal
    `ToString`, and 32-bit wrap-around of `int` arithmetic. */
module Numbers {
  import opened Base

  const Int32Min: int := -0x8000_0000
  const Int32Max: int := 0x7FFF_FFFF
  const Int64Min: int := -0x8000_0000_0000_0000
  const Int64Max: int := 0x7FFF_FFFF_FFFF_FFFF

  predicate IsDigit(c: char)
  {
    '0' <= c <= '9'
  }

  predicate AllDigits(s: string)
  {
    forall i :: 0 <= i < |s| ==> IsDigit(s[i])
  }

  /** The white space `NumberStyles.AllowLeadingWhite` and `AllowTrailingWhite`
      accept: U+0009 to U+000D and U+0020. */
  predicate IsWhite(c: char)
  {
    c == ' ' || '\t' <= c <= '\r'
  }

  function DigitsValue(s: string): nat
    requires AllDigits(s)
    decreases |s|
  {
    if |s| == 0 then 0
    else 10 * DigitsValue(s[..|s| - 1]) + ((s[|s| - 1] as int) - ('0' as int))
  }

  function TrimStart(s: string): (r: string)
    ensures |r| == 0 || !IsWhite(r[0])
    decreases |s|
  {
    if |s| > 0 && IsWhite(s[0]) then TrimStart(s[1..]) else s
  }

  function TrimEnd(s: string): (r: string)
    ensures |r| == 0 || !IsWhite(r[|r| - 1])
    decreases |s|
  {
    if |s| > 0 && IsWhite(s[|s| - 1]) then TrimEnd(s[..|s| - 1]) else s
  }

  /** `Int32.Parse` (lo, hi = Int32Min, Int32Max) or `Int64.Parse` (Int64Min,
      Int64Max): optional white space, an optional sign, at least one digit,
      optional white space; anything else is a FormatException, a value
      outside [lo, hi] an OverflowException. */
  function ParseInteger(s: string, lo: int, hi: int): (r: Result<int>)
    ensures r.Ok? ==> lo <= r.value <= hi
    ensures r.Err? ==> r.error == Format || r.error == Overflow
    ensures AllDigits(s) && |s| > 0 && lo <= 0 ==>
              r == if DigitsValue(s) <= hi then Ok(DigitsValue(s)) else Err(Overflow)
    ensures AllDigits(s) && |s| == 0 ==> r == Err(Format)
  {
    var t := TrimEnd(TrimStart(s));
    var negative := |t| > 0 && t[0] == '-';
    var body := if |t| > 0 && (t[0] == '-' || t[0] == '+') then t[1..] else t;
    if |body| == 0 || !AllDigits(body) then Err(Format)
    else
      var magnitude: int := DigitsValue(body);
      var v := if negative then -magnitude else magnitude;
      if v < lo || v > hi then Err(Overflow) else Ok(v)
  }

  /** Decimal `ToString()` of a non-negative number, without leading zeros. */
  function Decimal(n: nat): (r: string)
    ensures |r| >= 1 && AllDigits(r)
    ensures DigitsValue(r) == n
    ensures |r| == 1 || r[0] != '0'
    ensures r[0] == '0' <==> n == 0
    decreases n
  {
    var d := [((n % 10) + ('0' as int)) as char];
    if n < 10 then d
    else
      var r := Decimal(n / 10) + d;
      assert r[..|r| - 1] == Decimal(n / 10);
      r
  }

  /** Printing a number and parsing it back gives the number. */
  lemma ParseDecimal(n: nat, lo: int, hi: int)
    requires lo <= 0 && n <= hi
    ensures ParseInteger(Decimal(n), lo, hi) == Ok(n)
  {
  }

  /** The reply text a server sends arrives with its carriage return, which
      `long.Parse` skips as trailing white space. */
  lemma ParseDecimalReturn(n: nat, lo: int, hi: int)
    requires lo <= 0 && n <= hi
    ensures ParseInteger(Decimal(n) + "\r", lo, hi) == Ok(n)
  {
    var d := Decimal(n);
    TrimDigits(d);
    ParseTrimmed(d + "\r", d, lo, hi);
  }

  /** Parsing looks only at the text between the white space. */
  lemma ParseTrimmed(a: string, b: string, lo: int, hi: int)
    requires TrimEnd(TrimStart(a)) == TrimEnd(TrimStart(b))
    ensures ParseInteger(a, lo, hi) == ParseInteger(b, lo, hi)
  {
  }

  /** Digits are kept by the trimming, and a carriage return after them is
      dropped. */
  lemma TrimDigits(d: string)
    requires AllDigits(d) && |d| > 0
    ensures TrimEnd(TrimStart(d)) == d
    ensures TrimEnd(TrimStart(d + "\r")) == d
  {
    var s := d + "\r";
    assert IsDigit(d[0]) && IsDigit(d[|d| - 1]);
    assert s[0] == d[0];
    assert TrimStart(s) == s;
    assert s[..|s| - 1] == d;
  }

  /** A negated decimal parses to the negative value. */
  lemma {:induction false} ParseNegative(n: nat)
    requires n <= -Int32Min
    ensures ParseInteger("-" + Decimal(n), Int32Min, Int32Max) == Ok(-(n as int))
  {
    var s := "-" + Decimal(n);
    assert TrimStart(s) == s;
    assert s[|s| - 1] == Decimal(n)[|Decimal(n)| - 1];
    assert TrimEnd(s) == s;
    assert s[1..] == Decimal(n);
  }

  /** Two's-complement wrap-around of a C# `int` in an unchecked context. */
  function Wrap32(x: int): (r: int)
    ensures Int32Min <= r <= Int32Max
    ensures (r - x) % 0x1_0000_0000 == 0
    ensures Int32Min <= x <= Int32Max ==> r == x
  {
    (x - Int32Min) % 0x1_0000_0000 + Int32Min
  }
}
