/** The base-10 integer conversions of Go's strconv package that the record
    layouts and request builders rely on: `Itoa`, `Atoi` (without its 64-bit
    range check) and zero-padded rendering, with their round trip. */
module Strconv {
  import opened Common

  predicate IsDigit(c: char) {
    '0' <= c <= '9'
  }

  function DigitChar(d: int): (c: char)
    requires 0 <= d < 10
    ensures IsDigit(c)
  {
    ('0' as int + d) as char
  }

  function DigitValue(c: char): (d: int)
    requires IsDigit(c)
    ensures 0 <= d < 10
  {
    c as int - '0' as int
  }

  /** The decimal digits of n, most significant first, without leading zeros. */
  function NatDigits(n: nat): (s: string)
    ensures |s| > 0
    ensures forall i :: 0 <= i < |s| ==> IsDigit(s[i])
    decreases n
  {
    if n < 10 then [DigitChar(n)] else NatDigits(n / 10) + [DigitChar(n % 10)]
  }

  /** The value of a non-empty string of digits; `None` for anything else. */
  function ParseNat(s: string): (r: Option<nat>)
    ensures r.Some? <==> |s| > 0 && forall i :: 0 <= i < |s| ==> IsDigit(s[i])
    decreases |s|
  {
    if |s| == 0 || !IsDigit(s[|s| - 1]) then None
    else if |s| == 1 then Some(DigitValue(s[0]))
    else
      match ParseNat(s[..|s| - 1])
      case None => None
      case Some(v) => Some(v * 10 + DigitValue(s[|s| - 1]))
  }

  /** `strconv.Itoa`: a minus sign for negative numbers, then the digits. */
  function Itoa(n: int): (s: string)
    ensures |s| > 0
    ensures s[0] == '-' <==> n < 0
    ensures forall i :: (if n < 0 then 1 else 0) <= i < |s| ==> IsDigit(s[i])
  {
    if n < 0 then "-" + NatDigits(-n) else NatDigits(n)
  }

  /** `strconv.Atoi`: an optional sign followed by at least one digit. */
  function Atoi(s: string): (r: Option<int>)
    ensures r.Some? ==> |s| > 0
  {
    if |s| == 0 then None
    else if s[0] == '-' || s[0] == '+' then
      match ParseNat(s[1..])
      case None => None
      case Some(v) =>
        var x: int := if s[0] == '-' then 0 - v else v;
        Some(x)
    else
      match ParseNat(s)
      case None => None
      case Some(v) => Some(v)
  }

  /** `Atoi` of a value ignoring the error, as `x, _ := strconv.Atoi(s)`
      does: a string that does not parse gives zero. */
  function AtoiOrZero(s: string): int {
    match Atoi(s)
    case Some(v) => v
    case None => 0
  }

  /** The digits of n read back give n. */
  lemma {:induction false} ParseNatDigits(n: nat)
    ensures ParseNat(NatDigits(n)) == Some(n)
    decreases n
  {
    var s := NatDigits(n);
    if n >= 10 {
      ParseNatDigits(n / 10);
      assert s[..|s| - 1] == NatDigits(n / 10);
    }
  }

  /** `Atoi` inverts `Itoa`. */
  lemma AtoiItoa(n: int)
    ensures Atoi(Itoa(n)) == Some(n)
  {
    if n < 0 {
      ParseNatDigits(-n);
      assert Itoa(n)[1..] == NatDigits(-n);
    } else {
      ParseNatDigits(n);
      assert Itoa(n)[0] == NatDigits(n)[0];
    }
  }

  /** Hence distinct numbers render differently. */
  lemma ItoaInjective(a: int, b: int)
    requires a != b
    ensures Itoa(a) != Itoa(b)
  {
    AtoiItoa(a);
    AtoiItoa(b);
  }

  /** The digits of n left-padded with zeros to at least `width` characters,
      as the date layouts of the time package render numbers. */
  function Pad(n: nat, width: nat): (s: string)
    ensures |s| == Max(width, |NatDigits(n)|)
    ensures forall i :: 0 <= i < |s| ==> IsDigit(s[i])
  {
    var d := NatDigits(n);
    if |d| >= width then d else seq(width - |d|, _ => '0') + d
  }

  /** The value of a string of digits that may start with zeros. */
  lemma {:induction false} ParseNatZeros(k: nat, s: string)
    requires |s| > 0 && ParseNat(s).Some?
    ensures ParseNat(seq(k, _ => '0') + s) == ParseNat(s)
    decreases |s|
  {
    var z := seq(k, _ => '0');
    var t := z + s;
    if |s| == 1 {
      ZerosValue(k, s[0]);
    } else {
      assert t[..|t| - 1] == z + s[..|s| - 1];
      ParseNatZeros(k, s[..|s| - 1]);
    }
  }

  lemma {:induction false} ZerosValue(k: nat, c: char)
    requires IsDigit(c)
    ensures ParseNat(seq(k, _ => '0') + [c]) == Some(DigitValue(c))
    decreases k
  {
    var t := seq(k, _ => '0') + [c];
    if k > 0 {
      assert t[..|t| - 1] == seq(k, _ => '0');
      ZerosNat(k);
    }
  }

  lemma {:induction false} ZerosNat(k: nat)
    requires k > 0
    ensures ParseNat(seq(k, _ => '0')) == Some(0)
    decreases k
  {
    var z := seq(k, _ => '0');
    if k > 1 {
      assert z[..|z| - 1] == seq(k - 1, _ => '0');
      ZerosNat(k - 1);
    }
  }

  /** Padding keeps the value: reading a padded number gives it back. */
  lemma PadValue(n: nat, width: nat)
    ensures ParseNat(Pad(n, width)) == Some(n)
  {
    ParseNatDigits(n);
    var d := NatDigits(n);
    if |d| < width {
      ParseNatZeros(width - |d|, d);
    }
  }
}
