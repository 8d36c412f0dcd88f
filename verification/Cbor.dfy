/** Wrapping the compiled script in one more CBOR byte string at startup (main.rs), against the
    byte-string encoding of section 3.1 of RFC 8949 (major type 2). */
module Cbor {
  import opened Common
  import opened Hex

  /** Rust's zero-padded lowercase hex: at least `width` digits, more if the number needs them. */
  function HexPad(n: nat, width: nat): string {
    if n == 0 && width == 0 then "" else HexPad(n / 16, if width > 0 then width - 1 else 0) + [Digit(n % 16)]
  }

  function Wrapped(script: string): string {
    var n := |script| / 2;
    if n < 24 then HexPad(0x40 + n, 2) + script
    else if n < 256 then "58" + HexPad(n, 2) + script
    else "59" + HexPad(n, 4) + script
  }

  // ----- the decoder of the standard --------------------------------------------------------

  /** Length of the head of a data item, by its additional information; 0 for reserved values and
      for indefinite lengths. */
  function HeadLength(info: nat): nat {
    if info < 24 then 1
    else if info == 24 then 2
    else if info == 25 then 3
    else if info == 26 then 5
    else if info == 27 then 9
    else 0
  }

  function BigEndian(b: seq<Byte>): nat {
    if b == [] then 0 else 256 * BigEndian(b[..|b| - 1]) + b[|b| - 1]
  }

  function Argument(b: seq<Byte>): nat
    requires b != [] && 0 < HeadLength(b[0] % 32) <= |b|
  {
    if b[0] % 32 < 24 then b[0] % 32 else BigEndian(b[1..HeadLength(b[0] % 32)])
  }

  /** A definite-length byte string and what follows it. */
  function Unwrapped(b: seq<Byte>): Option<(seq<Byte>, seq<Byte>)> {
    if b == [] || b[0] / 32 != 2 then None
    else
      var head := HeadLength(b[0] % 32);
      if head == 0 || head > |b| then None
      else
        var n := Argument(b);
        if head + n > |b| then None else Some((b[head..head + n], b[head + n..]))
  }

  /** Section 4.1: the head is as short as the length allows. */
  predicate ShortestHead(b: seq<Byte>, n: nat) {
    b != [] && HeadLength(b[0] % 32) ==
      if n < 24 then 1 else if n < 0x100 then 2 else if n < 0x1_0000 then 3 else if n < 0x1_0000_0000 then 5 else 9
  }

  // ----- what the wrapper produces ----------------------------------------------------------

  function Header(n: nat): seq<Byte>
    requires n < 0x1_0000
  {
    if n < 24 then [0x40 + n] else if n < 256 then [0x58, n] else [0x59, n / 256, n % 256]
  }

  lemma PadByte(n: nat)
    requires n < 256
    ensures HexPad(n, 2) == Encoded([n])
  {
    var hi: nat := n / 16;
    assert HexPad(hi / 16, 0) == "";
    assert HexPad(hi, 1) == [Digit(hi % 16)];
    assert Encoded([n]) == [Digit(n / 16), Digit(n % 16)];
  }

  lemma PadTwoBytes(n: nat)
    requires n < 0x1_0000
    ensures HexPad(n, 4) == Encoded([n / 256, n % 256])
  {
    PadByte(n / 256);
    PadByte(n % 256);
    assert HexPad(n, 4) == HexPad(n / 16, 3) + [Digit(n % 16)];
    assert HexPad(n / 16, 3) == HexPad(n / 16 / 16, 2) + [Digit(n / 16 % 16)];
    assert n / 16 / 16 == n / 256;
    assert Encoded([n % 256]) == [Digit(n % 256 / 16), Digit(n % 256 % 16)];
    assert n % 256 / 16 == n / 16 % 16 && n % 256 % 16 == n % 16;
    EncodedConcat([n / 256], [n % 256]);
    assert [n / 256] + [n % 256] == [n / 256, n % 256];
  }

  lemma WrappedIsHeaderAndScript(script: string)
    requires |script| / 2 < 0x1_0000
    ensures Wrapped(script) == Encoded(Header(|script| / 2)) + script
  {
    var n := |script| / 2;
    assert Encoded([0x58]) == "58" && Encoded([0x59]) == "59";
    hide Encoded, HexPad, Digit;
    if n < 24 { PadByte(0x40 + n); }
    else if n < 256 {
      PadByte(n);
      EncodedConcat([0x58], [n]);
      assert [0x58] + [n] == [0x58, n];
    } else {
      PadTwoBytes(n);
      EncodedConcat([0x59], [n / 256, n % 256]);
      assert [0x59] + [n / 256, n % 256] == Header(n);
    }
  }

  lemma DecodedConcat(head: seq<Byte>, s: string)
    requires IsHex(s)
    ensures Decoded(Encoded(head) + s) == Some(head + Decoded(s).value)
  {
    var t := Encoded(head) + s;
    EncodedIsHex(head);
    hide DigitValue, Digit;
    assert IsHex(t) && |t| / 2 == |head| + |s| / 2;
    forall i | 0 <= i < |t| / 2 ensures Decoded(t).value[i] == (head + Decoded(s).value)[i] {
      if i < |head| { EncodedByte(head, i); }
    }
    assert Decoded(t).value == head + Decoded(s).value;
  }

  lemma HeaderUnwraps(v: seq<Byte>)
    requires |v| < 0x1_0000
    ensures Unwrapped(Header(|v|) + v) == Some((v, [])) && ShortestHead(Header(|v|) + v, |v|)
  {
    var n := |v|;
    var b := Header(n) + v;
    var head := |Header(n)|;
    assert b[0] == Header(n)[0] && b[head..head + n] == v && b[head + n..] == [];
    if n < 24 {
      assert HeadLength(b[0] % 32) == 1 && Argument(b) == n;
    } else if n < 256 {
      assert b[1..2] == [n];
      assert BigEndian([n]) == 256 * BigEndian([n][..0]) + n;
    } else {
      assert b[1..3] == [n / 256, n % 256];
      assert [n / 256, n % 256][..1] == [n / 256];
      assert BigEndian([n / 256]) == 256 * BigEndian([n / 256][..0]) + n / 256;
    }
  }

  /** Unwrapping one layer gives exactly the script's bytes, with the shortest head, if and only if
      the script is shorter than 65536 bytes. */
  lemma UnwrapsIff(script: string)
    requires IsHex(script)
    ensures var bytes := Decoded(Wrapped(script));
            var v := Decoded(script).value;
            (bytes.Some? && Unwrapped(bytes.value) == Some((v, [])) && ShortestHead(bytes.value, |v|))
            <==> |v| < 0x1_0000
  {
    var v := Decoded(script).value;
    if |v| < 0x1_0000 {
      WrappedIsHeaderAndScript(script);
      DecodedConcat(Header(|v|), script);
      HeaderUnwraps(v);
    } else {
      var w := Wrapped(script);
      assert w[0] == '5' && w[1] == '9';
      if Decoded(w).Some? {
        var b := Decoded(w).value;
        assert b[0] == Pair(w[2 * 0], w[2 * 0 + 1]) == 0x59;
        if |b| >= 3 { TwoByteLength(b); }
      }
    }
  }

  lemma TwoByteLength(b: seq<Byte>)
    requires |b| >= 3 && b[0] == 0x59
    ensures Argument(b) < 0x1_0000
  {
    assert b[1..3] == [b[1], b[2]];
    assert [b[1], b[2]][..1] == [b[1]];
    assert BigEndian([b[1]]) == 256 * BigEndian([b[1]][..0]) + b[1];
  }
}
