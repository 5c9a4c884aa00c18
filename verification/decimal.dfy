/** Decimal rendering of integers: `int.ToString()` and the `"D6"` format. */
module Decimal {

  predicate IsDigit(ch: char)
  {
    '0' <= ch <= '9'
  }

  predicate AllDigits(s: string)
  {
    forall i :: 0 <= i < |s| ==> IsDigit(s[i])
  }

  function DigitChar(d: nat): (ch: char)
    requires d < 10
    ensures IsDigit(ch) && ch as int - '0' as int == d
  {
    (48 + d) as char
  }

  function DigitValue(ch: char): nat
    requires IsDigit(ch)
  {
    ch as int - '0' as int
  }

  /** The value of a string of decimal digits, most significant first. */
  function ParseDigits(s: string): nat
    requires AllDigits(s)
  {
    if s == [] then 0 else ParseDigits(s[..|s| - 1]) * 10 + DigitValue(s[|s| - 1])
  }

  function Pow10(k: nat): (r: nat)
    ensures r >= 1
  {
    if k == 0 then 1 else 10 * Pow10(k - 1)
  }

  /** The shortest decimal rendering of a natural number ("0" for zero). */
  function NatToString(n: nat): (s: string)
    ensures |s| >= 1 && AllDigits(s)
    ensures ParseDigits(s) == n
    ensures s[0] == '0' ==> s == "0"
  {
    if n < 10 then [DigitChar(n)]
    else
      var init := NatToString(n / 10);
      var s := init + [DigitChar(n % 10)];
      assert s[..|s| - 1] == init;
      assert |init| == 1 ==> ParseDigits(init) == DigitValue(init[0]) by {
        if |init| == 1 {
          assert init[..0] == [];
        }
      }
      s
  }

  /** A number below `10^k` takes at most `k` digits. */
  lemma {:induction false} NatToStringLength(n: nat, k: nat)
    requires n < Pow10(k)
    ensures |NatToString(n)| <= k || (n == 0 && k == 0)
  {
    if n >= 10 {
      assert k >= 1;
      assert n / 10 < Pow10(k - 1);
      NatToStringLength(n / 10, k - 1);
    }
  }

  /** `count` copies of `ch`. */
  function Repeat(ch: char, count: nat): (r: string)
    ensures |r| == count
    ensures forall i :: 0 <= i < count ==> r[i] == ch
  {
    if count == 0 then [] else Repeat(ch, count - 1) + [ch]
  }

  /** Leading zeros do not change the value of a digit string. */
  lemma {:induction false} LeadingZeros(z: nat, s: string)
    requires AllDigits(s)
    ensures AllDigits(Repeat('0', z) + s)
    ensures ParseDigits(Repeat('0', z) + s) == ParseDigits(s)
    decreases |s|
  {
    var t := Repeat('0', z) + s;
    if s == [] {
      assert t == Repeat('0', z);
      ZerosParseToZero(z);
    } else {
      var init := s[..|s| - 1];
      assert t[..|t| - 1] == Repeat('0', z) + init;
      LeadingZeros(z, init);
    }
  }

  lemma {:induction false} ZerosParseToZero(z: nat)
    ensures AllDigits(Repeat('0', z))
    ensures ParseDigits(Repeat('0', z)) == 0
  {
    if z > 0 {
      var r := Repeat('0', z);
      assert r[..|r| - 1] == Repeat('0', z - 1);
      ZerosParseToZero(z - 1);
    }
  }

  /**
   * `value.ToString("D6")` for a value in [0, 1000000): exactly six decimal
   * digits, zero-padded, which read back as the value.
   */
  function FormatD6(value: int): (s: string)
    requires 0 <= value < 1_000_000
    ensures |s| == 6 && AllDigits(s)
    ensures ParseDigits(s) == value
  {
    var digits := NatToString(value);
    NatToStringLength(value, 6);
    LeadingZeros(6 - |digits|, digits);
    Repeat('0', 6 - |digits|) + digits
  }

  /** `int.ToString()` with the invariant minus sign. */
  function IntToString(i: int): (s: string)
    ensures i >= 0 ==> |s| >= 1 && AllDigits(s) && ParseDigits(s) == i && (s[0] == '0' ==> s == "0")
    ensures i < 0 ==> |s| >= 2 && s[0] == '-' && AllDigits(s[1..]) && ParseDigits(s[1..]) == -i && s[1] != '0'
  {
    if i < 0 then
      var s := "-" + NatToString(-i);
      assert s[1..] == NatToString(-i);
      s
    else NatToString(i)
  }
}
