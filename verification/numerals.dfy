/** Attribute values in a save file are text. This module gives the integer
    widths the save-file records use, the decimal rendering an integer gets
    when it is written (Rust's `to_string`), the parser that reads it back
    (Rust's `str::parse` for integer types), and the float conversions, which
    the model takes as given. */
module Numerals {
  import opened Wrappers

  type I8 = x: int | -0x80 <= x < 0x80
  type I32 = x: int | -0x8000_0000 <= x < 0x8000_0000
  type U16 = x: int | 0 <= x < 0x1_0000
  type U32 = x: int | 0 <= x < 0x1_0000_0000
  type U64 = x: int | 0 <= x < 0x1_0000_0000_0000_0000

  predicate IsDigit(c: char) {
    '0' <= c <= '9'
  }

  predicate AllDigits(s: string) {
    forall i :: 0 <= i < |s| ==> IsDigit(s[i])
  }

  function DigitChar(d: nat): (c: char)
    requires d < 10
    ensures IsDigit(c) && c as int - '0' as int == d
  {
    ('0' as int + d) as char
  }

  /** Decimal rendering of a natural number, most significant digit first,
      without leading zeros. */
  function ShowNat(n: nat): (s: string)
    ensures |s| > 0 && AllDigits(s)
    ensures s[0] != '0' || n == 0
    decreases n
  {
    if n < 10 then [DigitChar(n)] else ShowNat(n / 10) + [DigitChar(n % 10)]
  }

  /** Rust's `to_string` on an integer: a minus sign for negative values. */
  function ShowInt(x: int): (s: string)
    ensures |s| > 0
    ensures x < 0 <==> s[0] == '-'
    ensures x >= 0 ==> AllDigits(s)
  {
    if x < 0 then "-" + ShowNat(-x) else ShowNat(x)
  }

  /** The value of a string of decimal digits. */
  function DigitsValue(s: string): nat
    requires AllDigits(s)
  {
    if |s| == 0 then 0 else DigitsValue(s[..|s| - 1]) * 10 + (s[|s| - 1] as int - '0' as int)
  }

  function ParseDigits(s: string): (r: Option<nat>)
    ensures r.Some? <==> |s| > 0 && AllDigits(s)
  {
    if |s| > 0 && AllDigits(s) then Some(DigitsValue(s)) else None
  }

  /** Rust's `str::parse` for an integer type, before the range check: an
      optional `+`, a `-` only when the type is signed, then at least one
      ASCII digit and nothing else. */
  function ParseInt(s: string, signed: bool): (r: Option<int>)
    ensures r.Some? ==> |s| > 0
    ensures r.Some? && r.value < 0 ==> signed && s[0] == '-'
  {
    if |s| == 0 then None
    else if s[0] == '+' then
      match ParseDigits(s[1..])
      case None => None
      case Some(n) => Some(n)
    else if s[0] == '-' && signed then
      match ParseDigits(s[1..])
      case None => None
      case Some(n) => Some(-(n as int))
    else
      match ParseDigits(s)
      case None => None
      case Some(n) => Some(n)
  }

  /** `str::parse` for a type whose values are `lo <= x < hi`: a value out of
      range is an error, as Rust's overflow check makes it. */
  function ParseIn(s: string, signed: bool, lo: int, hi: int): (r: Option<int>)
    ensures r.Some? ==> lo <= r.value < hi
    ensures r.Some? ==> ParseInt(s, signed) == r
  {
    match ParseInt(s, signed)
    case None => None
    case Some(x) => if lo <= x < hi then Some(x) else None
  }

  function ParseI8(s: string): (r: Option<I8>) {
    match ParseIn(s, true, -0x80, 0x80)
    case None => None
    case Some(x) => Some(x)
  }

  function ParseI32(s: string): (r: Option<I32>) {
    match ParseIn(s, true, -0x8000_0000, 0x8000_0000)
    case None => None
    case Some(x) => Some(x)
  }

  function ParseU16(s: string): (r: Option<U16>) {
    match ParseIn(s, false, 0, 0x1_0000)
    case None => None
    case Some(x) => Some(x)
  }

  function ParseU32(s: string): (r: Option<U32>) {
    match ParseIn(s, false, 0, 0x1_0000_0000)
    case None => None
    case Some(x) => Some(x)
  }

  function ParseU64(s: string): (r: Option<U64>) {
    match ParseIn(s, false, 0, 0x1_0000_0000_0000_0000)
    case None => None
    case Some(x) => Some(x)
  }

  lemma {:induction false} DigitsValueOfShowNat(n: nat)
    ensures DigitsValue(ShowNat(n)) == n
    decreases n
  {
    var s := ShowNat(n);
    if n >= 10 {
      assert s[..|s| - 1] == ShowNat(n / 10);
      DigitsValueOfShowNat(n / 10);
    }
  }

  /** Reading back what `to_string` wrote gives the same integer. */
  lemma ParseShowInt(x: int, signed: bool)
    requires signed || x >= 0
    ensures ParseInt(ShowInt(x), signed) == Some(x)
  {
    var s := ShowInt(x);
    if x < 0 {
      assert s[1..] == ShowNat(-x);
      DigitsValueOfShowNat(-x);
    } else {
      DigitsValueOfShowNat(x);
    }
  }

  lemma ParseShowI8(x: I8)
    ensures ParseI8(ShowInt(x)) == Some(x)
  {
    ParseShowInt(x, true);
  }

  lemma ParseShowI32(x: I32)
    ensures ParseI32(ShowInt(x)) == Some(x)
  {
    ParseShowInt(x, true);
  }

  lemma ParseShowU16(x: U16)
    ensures ParseU16(ShowInt(x)) == Some(x)
  {
    ParseShowInt(x, false);
  }

  lemma ParseShowU32(x: U32)
    ensures ParseU32(ShowInt(x)) == Some(x)
  {
    ParseShowInt(x, false);
  }

  lemma ParseShowU64(x: U64)
    ensures ParseU64(ShowInt(x)) == Some(x)
  {
    ParseShowInt(x, false);
  }

  /** Rust's `f32::to_string` and `str::parse::<f32>`, which belong to the
      standard library and are not modelled: the codec takes them as a pair
      of functions. Values of `f32` are modelled as `real`. */
  datatype FloatSyntax = FloatSyntax(show: real -> string, parse: string -> Option<real>)

  /** What the codec needs of the float conversions, for one value that
      is written: parsing its rendering gives it back. Rust's `f32` text
      form does this for every `f32`; it is asked here only of the values a
      file actually carries, since no rendering into strings can do it for
      every real. */
  ghost predicate ReadsBack(fs: FloatSyntax, x: real) {
    fs.parse(fs.show(x)) == Some(x)
  }
}
