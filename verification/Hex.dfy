/** Hexadecimal text, as encoding/hex prints it. */
module Hex {
  import opened Options

  type Byte = b: int | 0 <= b < 256

  const DIGITS := "0123456789abcdef"
  const CAPITALS := "0123456789ABCDEF"

  function EncodeWith(digits: string, bs: seq<Byte>): (r: string)
    requires |digits| == 16
    ensures |r| == 2 * |bs|
    ensures forall i :: 0 <= i < |bs| ==> r[2 * i] == digits[bs[i] / 16] && r[2 * i + 1] == digits[bs[i] % 16]
  {
    if bs == [] then "" else [digits[bs[0] / 16], digits[bs[0] % 16]] + EncodeWith(digits, bs[1..])
  }

  function Encode(bs: seq<Byte>): string { EncodeWith(DIGITS, bs) }

  /** hex.EncodeToString followed by strings.ToUpper. */
  function EncodeUpper(bs: seq<Byte>): string { EncodeWith(CAPITALS, bs) }

  // ----- reading it back -------------------------------------------------------------------

  /** What a digit of either case stands for. */
  function Value(c: char): (r: Option<int>)
    ensures r.Some? ==> 0 <= r.value < 16
  {
    if '0' <= c <= '9' then Some(c as int - '0' as int)
    else if 'a' <= c <= 'f' then Some(c as int - 'a' as int + 10)
    else if 'A' <= c <= 'F' then Some(c as int - 'A' as int + 10)
    else None
  }

  function Decode(s: string): Option<seq<Byte>> {
    if s == [] then Some([])
    else if |s| == 1 || Value(s[0]).None? || Value(s[1]).None? then None
    else
      var rest := Decode(s[2..]);
      if rest.None? then None else Some([16 * Value(s[0]).value + Value(s[1]).value] + rest.value)
  }

  ghost predicate IsSmall(c: char) { '0' <= c <= '9' || 'a' <= c <= 'f' }

  ghost predicate IsCapital(c: char) { '0' <= c <= '9' || 'A' <= c <= 'F' }

  lemma DigitValues()
    ensures |DIGITS| == 16 == |CAPITALS|
    ensures forall n :: 0 <= n < 16 ==> Value(DIGITS[n]) == Some(n)
    ensures forall n :: 0 <= n < 16 ==> Value(CAPITALS[n]) == Some(n)
  {
    hide Value;
    forall n | 0 <= n < 16 ensures Value(DIGITS[n]) == Some(n) == Value(CAPITALS[n]) { DigitValue(n); }
  }

  lemma DigitValue(n: nat)
    requires n < 16
    ensures Value(DIGITS[n]) == Some(n) == Value(CAPITALS[n])
  {
    assert DIGITS[n] as int == if n < 10 then '0' as int + n else 'a' as int + n - 10;
    assert CAPITALS[n] as int == if n < 10 then '0' as int + n else 'A' as int + n - 10;
  }

  lemma DigitCase(c: char)
    ensures c in DIGITS ==> IsSmall(c)
    ensures c in CAPITALS ==> IsCapital(c)
  {}

  lemma {:induction false} DecodeEncodeWith(digits: string, bs: seq<Byte>)
    requires |digits| == 16 && forall n :: 0 <= n < 16 ==> Value(digits[n]) == Some(n)
    ensures Decode(EncodeWith(digits, bs)) == Some(bs)
  {
    hide Value;
    if bs != [] {
      var rest, s := EncodeWith(digits, bs[1..]), EncodeWith(digits, bs);
      DecodeEncodeWith(digits, bs[1..]);
      assert s[2..] == rest;
      assert s[0] == digits[bs[0] / 16] && s[1] == digits[bs[0] % 16];
      assert [bs[0]] + bs[1..] == bs;
    }
  }

  /** Printed bytes read back, two digits for each, and the digits are small letters, or
      capitals where that was asked for. */
  lemma EncodeReadsBack(bs: seq<Byte>)
    ensures Decode(Encode(bs)) == Some(bs) == Decode(EncodeUpper(bs))
    ensures forall i :: 0 <= i < |Encode(bs)| ==> IsSmall(Encode(bs)[i])
    ensures forall i :: 0 <= i < |EncodeUpper(bs)| ==> IsCapital(EncodeUpper(bs)[i])
  {
    hide Value, IsSmall, IsCapital;
    DigitValues();
    DecodeEncodeWith(DIGITS, bs);
    DecodeEncodeWith(CAPITALS, bs);
    EncodeDigits(DIGITS, bs);
    EncodeDigits(CAPITALS, bs);
    forall c: char { DigitCase(c); }
  }

  ghost predicate Over(s: string, digits: string) {
    forall k :: 0 <= k < |s| ==> s[k] in digits
  }

  lemma {:induction false} EncodeDigits(digits: string, bs: seq<Byte>)
    requires |digits| == 16
    ensures Over(EncodeWith(digits, bs), digits)
  {
    if bs != [] {
      EncodeDigits(digits, bs[1..]);
      var two, rest := [digits[bs[0] / 16], digits[bs[0] % 16]], EncodeWith(digits, bs[1..]);
      assert two[0] in digits && two[1] in digits;
      assert Over(two + rest, digits);
    }
  }

  lemma EncodeInjective(digits: string, a: seq<Byte>, b: seq<Byte>)
    requires |digits| == 16 && forall i, j :: 0 <= i < j < 16 ==> digits[i] != digits[j]
    requires EncodeWith(digits, a) == EncodeWith(digits, b)
    ensures a == b
  {
    var ra, rb := EncodeWith(digits, a), EncodeWith(digits, b);
    forall i | 0 <= i < |a| ensures a[i] == b[i] {
      assert ra[2 * i] == rb[2 * i] && ra[2 * i + 1] == rb[2 * i + 1];
      assert a[i] / 16 == b[i] / 16 && a[i] % 16 == b[i] % 16;
    }
  }
}
