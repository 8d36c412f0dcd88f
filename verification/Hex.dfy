/** The hex codec (hex_utils.rs). */
module Hex {
  import opened Common

  type Byte = b: nat | b < 256

  function DigitValue(c: char): Option<nat> {
    if 'A' <= c <= 'F' then Some(c as int - 'A' as int + 10)
    else if 'a' <= c <= 'f' then Some(c as int - 'a' as int + 10)
    else if '0' <= c <= '9' then Some(c as int - '0' as int)
    else None
  }

  predicate IsHex(s: string) { forall i :: 0 <= i < |s| ==> DigitValue(s[i]).Some? }

  function Digit(n: nat): char
    requires n < 16
  {
    if n < 10 then '0' + n as char else 'a' + (n - 10) as char
  }

  const LOWER := "0123456789abcdef"
  const UPPER := "0123456789ABCDEF"

  lemma DigitIs(n: nat)
    requires n < 16
    ensures Digit(n) == LOWER[n]
  {
    assert LOWER[..8] == "01234567" && LOWER[8..] == "89abcdef";
    if n < 8 { assert LOWER[n] == "01234567"[n]; } else { assert LOWER[n] == "89abcdef"[n - 8]; }
  }

  lemma UpperDigitIs(n: nat)
    requires n < 16
    ensures UPPER[n] == if n < 10 then Digit(n) else Digit(n) - 'a' + 'A'
  {
    assert UPPER[..8] == "01234567" && UPPER[8..] == "89ABCDEF";
    if n < 8 { assert UPPER[n] == "01234567"[n]; } else { assert UPPER[n] == "89ABCDEF"[n - 8]; }
  }

  /** A character stands for `n` if and only if it is the n-th hex digit, in either case. */
  lemma DigitValueIff(c: char, n: nat)
    ensures DigitValue(c) == Some(n) <==> n < 16 && (c == LOWER[n] || c == UPPER[n])
  {
    if n < 16 {
      DigitIs(n);
      UpperDigitIs(n);
    }
  }

  lemma DigitRoundTrip(n: nat)
    requires n < 16
    ensures DigitValue(Digit(n)) == Some(n)
  {
  }

  lemma DigitOfValue(c: char)
    requires DigitValue(c).Some?
    ensures DigitValue(c).value < 16 && Digit(DigitValue(c).value) == Lower(c)
  {
  }

  function Lower(c: char): char { if 'A' <= c <= 'F' then c - 'A' + 'a' else c }

  /** The byte two hex digits spell. */
  function Pair(hi: char, lo: char): Byte
    requires DigitValue(hi).Some? && DigitValue(lo).Some?
  {
    16 * DigitValue(hi).value + DigitValue(lo).value
  }

  /** What `to_vec` means: every digit must be valid, and each full pair is a byte. */
  function Decoded(s: string): Option<seq<Byte>> {
    if IsHex(s)
    then Some(seq(|s| / 2, i requires 0 <= i < |s| / 2 && IsHex(s) => Pair(s[2 * i], s[2 * i + 1])))
    else None
  }

  /** What `hex_str` means: two lowercase digits per byte. */
  function Encoded(v: seq<Byte>): string {
    seq(2 * |v|, k requires 0 <= k < 2 * |v| => Digit(if k % 2 == 0 then v[k / 2] / 16 else v[k / 2] % 16))
  }

  method ToVec(hex: string) returns (out: Option<seq<Byte>>)
    ensures out == Decoded(hex)
  {
    var bytes: seq<Byte> := [];
    var b: Byte := 0;
    for idx := 0 to |hex|
      invariant forall i :: 0 <= i < idx ==> DigitValue(hex[i]).Some?
      invariant |bytes| == idx / 2
      invariant b == if idx % 2 == 1 then DigitValue(hex[idx - 1]).value else 0
      invariant forall i :: 0 <= i < idx / 2 ==> bytes[i] == Pair(hex[2 * i], hex[2 * i + 1])
    {
      var digit := DigitValue(hex[idx]);
      if digit.None? { return None; }
      DigitOfValue(hex[idx]);
      if idx % 2 == 1 { DigitOfValue(hex[idx - 1]); }
      b := b * 16 % 256 + digit.value;
      if idx % 2 == 1 {
        bytes := bytes + [b];
        b := 0;
      }
    }
    assert bytes == Decoded(hex).value;
    out := Some(bytes);
  }

  method HexStr(value: seq<Byte>) returns (res: string)
    ensures res == Encoded(value)
  {
    res := "";
    for i := 0 to |value|
      invariant |res| == 2 * i
      invariant forall k :: 0 <= k < 2 * i ==> res[k] == Encoded(value)[k]
    {
      res := res + [Digit(value[i] / 16), Digit(value[i] % 16)];
    }
  }

  lemma EncodedByte(v: seq<Byte>, i: nat)
    requires i < |v|
    ensures DigitValue(Encoded(v)[2 * i]) == Some(v[i] / 16) && DigitValue(Encoded(v)[2 * i + 1]) == Some(v[i] % 16)
  {
    DigitRoundTrip(v[i] / 16);
    DigitRoundTrip(v[i] % 16);
    hide DigitValue, Digit;
    assert 2 * i % 2 == 0 && 2 * i / 2 == i && (2 * i + 1) % 2 == 1 && (2 * i + 1) / 2 == i;
  }

  lemma EncodedIsHex(v: seq<Byte>)
    ensures IsHex(Encoded(v))
  {
    forall k | 0 <= k < |Encoded(v)| ensures DigitValue(Encoded(v)[k]).Some? {
      EncodedByte(v, k / 2);
    }
  }

  /** Decoding what was encoded gives the bytes back. */
  lemma RoundTrip(v: seq<Byte>)
    ensures Decoded(Encoded(v)) == Some(v)
  {
    EncodedIsHex(v);
    var bytes := Decoded(Encoded(v)).value;
    forall i | 0 <= i < |v| ensures bytes[i] == v[i] { EncodedByte(v, i); }
    assert bytes == v;
  }

  /** Encoding what was decoded gives the lowercase form of the full pairs: the whole text when its
      length is even, all but the last digit when it is odd. */
  lemma LowercaseForm(s: string)
    requires IsHex(s)
    ensures |Encoded(Decoded(s).value)| == 2 * (|s| / 2)
    ensures forall k :: 0 <= k < 2 * (|s| / 2) ==> Encoded(Decoded(s).value)[k] == Lower(s[k])
  {
    var v := Decoded(s).value;
    forall k | 0 <= k < 2 * (|s| / 2) ensures Encoded(v)[k] == Lower(s[k]) {
      var i := k / 2;
      var hi, lo := DigitValue(s[2 * i]).value, DigitValue(s[2 * i + 1]).value;
      DigitOfValue(s[2 * i]);
      DigitOfValue(s[2 * i + 1]);
      hide DigitValue, Digit, Lower;
      assert v[i] == 16 * hi + lo && v[i] / 16 == hi && v[i] % 16 == lo;
    }
  }

  /** The last digit of an odd-length text is checked and then dropped. */
  lemma OddDigitDropped(s: string)
    requires |s| % 2 == 1 && IsHex(s)
    ensures Decoded(s) == Decoded(s[..|s| - 1])
  {
    assert Decoded(s).value == Decoded(s[..|s| - 1]).value;
  }

  lemma {:induction false} EncodedConcat(a: seq<Byte>, b: seq<Byte>)
    ensures Encoded(a + b) == Encoded(a) + Encoded(b)
  {
    forall k | 0 <= k < 2 * |a + b| ensures Encoded(a + b)[k] == (Encoded(a) + Encoded(b))[k] {
      if k >= 2 * |a| { assert (k - 2 * |a|) / 2 == k / 2 - |a|; }
    }
  }
}
