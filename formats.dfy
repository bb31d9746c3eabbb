/**
 * Decimal rendering and the fixed-width date stamps ('Ymd', 'YmdHis') used
 * in order numbers, receipt file names and cart keys, each with the parser
 * that reads the number back.
 */
module Formats {
  import opened Basics

  predicate IsDigit(c: char) { '0' <= c <= '9' }

  predicate IsDigits(s: string) { forall i :: 0 <= i < |s| ==> IsDigit(s[i]) }

  function DigitChar(d: nat): (c: char)
    requires d < 10
    ensures IsDigit(c) && (c as int) - ('0' as int) == d
  {
    (('0' as int) + d) as char
  }

  function DigitValue(c: char): nat
    requires IsDigit(c)
  {
    (c as int) - ('0' as int)
  }

  /** The value of a string of decimal digits, most significant first. */
  function DecimalValue(s: string): nat
    requires IsDigits(s)
  {
    if s == [] then 0 else 10 * DecimalValue(s[..|s| - 1]) + DigitValue(s[|s| - 1])
  }

  /** PHP's string interpolation of a non-negative integer. */
  function Decimal(n: nat): (s: string)
    ensures |s| >= 1 && IsDigits(s)
    ensures |s| > 1 ==> s[0] != '0'
  {
    if n < 10 then [DigitChar(n)] else Decimal(n / 10) + [DigitChar(n % 10)]
  }

  lemma {:induction false} DecimalRoundTrip(n: nat)
    ensures DecimalValue(Decimal(n)) == n
  {
    if n >= 10 {
      var s := Decimal(n);
      assert s[..|s| - 1] == Decimal(n / 10);
      DecimalRoundTrip(n / 10);
    }
  }

  /** Distinct numbers render differently. */
  lemma DecimalInjective(m: nat, n: nat)
    requires Decimal(m) == Decimal(n)
    ensures m == n
  {
    DecimalRoundTrip(m);
    DecimalRoundTrip(n);
  }

  function Pow10(w: nat): (p: nat)
    ensures p >= 1
  {
    if w == 0 then 1 else 10 * Pow10(w - 1)
  }

  /** `n` zero-padded to exactly `w` digits, as `date()` renders its fields. */
  function Padded(n: nat, w: nat): (s: string)
    ensures |s| == w && IsDigits(s)
  {
    if w == 0 then [] else Padded(n / 10, w - 1) + [DigitChar(n % 10)]
  }

  lemma {:induction false} PaddedRoundTrip(n: nat, w: nat)
    requires n < Pow10(w)
    ensures DecimalValue(Padded(n, w)) == n
  {
    if w > 0 {
      var s := Padded(n, w);
      var init := Padded(n / 10, w - 1);
      assert s[..|s| - 1] == init;
      assert DigitValue(s[|s| - 1]) == n % 10;
      assert n / 10 < Pow10(w - 1);
      PaddedRoundTrip(n / 10, w - 1);
      assert DecimalValue(s) == 10 * (n / 10) + n % 10;
    }
  }

  /** A calendar instant as Carbon formats it. */
  datatype DateTime = DateTime(year: nat, month: nat, day: nat, hour: nat, minute: nat, second: nat)

  predicate ValidDateTime(d: DateTime)
  {
    d.year <= 9999 && 1 <= d.month <= 12 && 1 <= d.day <= 31 &&
    d.hour < 24 && d.minute < 60 && d.second < 60
  }

  /** `format('Ymd')`. */
  function Ymd(d: DateTime): (s: string)
    ensures |s| == 8 && IsDigits(s)
  {
    Padded(d.year, 4) + Padded(d.month, 2) + Padded(d.day, 2)
  }

  /** `format('YmdHis')`. */
  function YmdHis(d: DateTime): (s: string)
    ensures |s| == 14 && IsDigits(s)
  {
    Ymd(d) + Padded(d.hour, 2) + Padded(d.minute, 2) + Padded(d.second, 2)
  }

  /** The date can be read back from its 'Ymd' stamp. */
  lemma YmdRoundTrip(d: DateTime)
    requires ValidDateTime(d)
    ensures var s := Ymd(d);
      DecimalValue(s[..4]) == d.year && DecimalValue(s[4..6]) == d.month && DecimalValue(s[6..]) == d.day
  {
    var s := Ymd(d);
    assert s[..4] == Padded(d.year, 4);
    assert s[4..6] == Padded(d.month, 2);
    assert s[6..] == Padded(d.day, 2);
    PaddedRoundTrip(d.year, 4);
    PaddedRoundTrip(d.month, 2);
    PaddedRoundTrip(d.day, 2);
  }

  /** The instant can be read back from its 'YmdHis' stamp. */
  lemma YmdHisRoundTrip(d: DateTime)
    requires ValidDateTime(d)
    ensures var s := YmdHis(d);
      DecimalValue(s[..4]) == d.year && DecimalValue(s[4..6]) == d.month &&
      DecimalValue(s[6..8]) == d.day && DecimalValue(s[8..10]) == d.hour &&
      DecimalValue(s[10..12]) == d.minute && DecimalValue(s[12..]) == d.second
  {
    var s := YmdHis(d);
    YmdRoundTrip(d);
    assert s[..8] == Ymd(d);
    assert s[..4] == Ymd(d)[..4] && s[4..6] == Ymd(d)[4..6] && s[6..8] == Ymd(d)[6..];
    assert s[8..10] == Padded(d.hour, 2);
    assert s[10..12] == Padded(d.minute, 2);
    assert s[12..] == Padded(d.second, 2);
    PaddedRoundTrip(d.hour, 2);
    PaddedRoundTrip(d.minute, 2);
    PaddedRoundTrip(d.second, 2);
  }

  predicate IsLowerHexChar(c: char) { IsDigit(c) || 'a' <= c <= 'f' }

  predicate IsUpperHexChar(c: char) { IsDigit(c) || 'A' <= c <= 'F' }

  /** What `md5()` returns: 32 lower-case hexadecimal characters. */
  predicate IsMd5Digest(s: string)
  {
    |s| == 32 && forall i :: 0 <= i < |s| ==> IsLowerHexChar(s[i])
  }

  function UpperHexChar(c: char): (u: char)
    requires IsLowerHexChar(c)
    ensures IsUpperHexChar(u) && (IsDigit(c) ==> u == c)
  {
    if IsDigit(c) then c else (c as int - 'a' as int + 'A' as int) as char
  }

  /** `strtoupper` on a hexadecimal string. */
  function UpperHex(s: string): (r: string)
    requires forall i :: 0 <= i < |s| ==> IsLowerHexChar(s[i])
    ensures |r| == |s|
    ensures forall i :: 0 <= i < |r| ==> IsUpperHexChar(r[i])
    ensures forall i :: 0 <= i < |r| ==> (IsDigit(s[i]) ==> r[i] == s[i])
  {
    if s == [] then []
    else
      [UpperHexChar(s[0])] + UpperHex(s[1..])
  }

  /** The 'course' / 'digital_product' spelling of an item type. */
  function TypeName(t: ItemType): string
  {
    match t
    case Course => "course"
    case DigitalProduct => "digital_product"
  }
}
