/**
 Hexadecimal text as `to_hex` writes it and `from_hex` reads it.
 */
module Hex {
  import opened Lex
  import opened Events

  predicate IsBytes(b: Bytes) {
    forall i | 0 <= i < |b| :: b[i] < 256
  }

  function HexDigit(n: nat): nat
    requires n < 16
  {
    if n < 10 then 48 + n else 87 + n
  }

  function DigitValue(c: nat): Option<nat> {
    if 48 <= c <= 57 then Some(c - 48)
    else if 97 <= c <= 102 then Some(c - 87)
    else if 65 <= c <= 70 then Some(c - 55)
    else None
  }

  function ToHex(b: Bytes): Bytes
    requires IsBytes(b)
  {
    if b == [] then [] else [HexDigit(b[0] / 16), HexDigit(b[0] % 16)] + ToHex(b[1..])
  }

  /** Nothing on odd length or a character that is no hex digit. */
  function FromHex(s: Bytes): Option<Bytes>
    decreases |s|
  {
    if s == [] then Some([])
    else if |s| == 1 || DigitValue(s[0]).None? || DigitValue(s[1]).None? then None
    else
      var rest := FromHex(s[2..]);
      if rest.None? then None else Some([DigitValue(s[0]).value * 16 + DigitValue(s[1]).value] + rest.value)
  }

  lemma {:induction false} HexRoundTrip(b: Bytes)
    requires IsBytes(b)
    ensures FromHex(ToHex(b)) == Some(b) && |ToHex(b)| == 2 * |b|
    ensures forall c <- ToHex(b) :: DigitValue(c).Some?
    decreases |b|
  {
    if b != [] {
      HexRoundTrip(b[1..]);
      assert ToHex(b)[2..] == ToHex(b[1..]);
      assert b == [b[0]] + b[1..];
    }
  }

  lemma {:induction false} FromHexIsBytes(s: Bytes)
    ensures FromHex(s).Some? ==> IsBytes(FromHex(s).value) && 2 * |FromHex(s).value| == |s|
    decreases |s|
  {
    if |s| > 1 {
      FromHexIsBytes(s[2..]);
    }
  }
}
