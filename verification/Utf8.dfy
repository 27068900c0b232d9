/** UTF-8 text is what encoding some characters gives: the validity test of Bytes against
    the encoding of section 3 of RFC 3629. */
module Utf8 {
  import opened Bytes

  /** A Unicode scalar value: a code point that is no surrogate. */
  predicate IsScalar(c: nat) {
    c <= 0xD7FF || 0xE000 <= c <= 0x10FFFF
  }

  /** Six bits in a continuation byte. */
  function Tail(bits: nat): byte
    requires bits < 64
  {
    (0x80 + bits) as byte
  }

  function Encode(c: nat): (s: seq<byte>)
    requires IsScalar(c)
    ensures s != []
  {
    if c <= 0x7F then [c as byte]
    else if c <= 0x7FF then [(0xC0 + c / 64) as byte, Tail(c % 64)]
    else if c <= 0xFFFF then [(0xE0 + c / 4096) as byte, Tail(c / 64 % 64), Tail(c % 64)]
    else [(0xF0 + c / 262144) as byte, Tail(c / 4096 % 64), Tail(c / 64 % 64), Tail(c % 64)]
  }

  ghost predicate AreScalars(cs: seq<nat>) {
    forall i :: 0 <= i < |cs| ==> IsScalar(cs[i])
  }

  function EncodeAll(cs: seq<nat>): seq<byte>
    requires AreScalars(cs)
  {
    if cs == [] then [] else Encode(cs[0]) + EncodeAll(cs[1..])
  }

  lemma EncodedLength(c: nat, rest: seq<byte>)
    requires IsScalar(c)
    ensures Utf8Length(Encode(c) + rest) == |Encode(c)|
  {
    var s := Encode(c) + rest;
    assert forall i :: 0 <= i < |Encode(c)| ==> s[i] == Encode(c)[i];
    if 0x7F < c <= 0x7FF {
      assert 2 <= c / 64 < 32;
    } else if 0x7FF < c <= 0xFFFF {
      ThreeBytes(c);
    } else if c > 0xFFFF {
      FourBytes(c);
    }
  }

  lemma ThreeBytes(c: nat)
    requires 0x7FF < c <= 0xFFFF && IsScalar(c)
    ensures c / 4096 <= 15 && (c / 4096 == 0 ==> c / 64 % 64 >= 32) && (c / 4096 == 13 ==> c / 64 % 64 < 32)
  {
    assert c / 64 / 64 == c / 4096;
  }

  lemma FourBytes(c: nat)
    requires 0xFFFF < c <= 0x10FFFF
    ensures c / 262144 <= 4
    ensures (c / 262144 == 0 ==> c / 4096 % 64 >= 16) && (c / 262144 == 4 ==> c / 4096 % 64 < 16)
  {
    assert c / 4096 / 64 == c / 262144;
  }

  lemma {:induction false} EncodedIsValid(cs: seq<nat>)
    requires AreScalars(cs)
    ensures ValidUtf8(EncodeAll(cs))
  {
    if cs != [] {
      var c, rest := Encode(cs[0]), EncodeAll(cs[1..]);
      EncodedLength(cs[0], rest);
      EncodedIsValid(cs[1..]);
      hide Utf8Length, Encode;
      assert (c + rest)[|c|..] == rest;
    }
  }

  lemma Digits(a: nat, b: nat)
    requires b < 64
    ensures (a * 64 + b) / 64 == a && (a * 64 + b) % 64 == b
  {
  }

  lemma Quotients(c: nat)
    ensures c / 4096 == c / 64 / 64 && c / 262144 == c / 64 / 64 / 64
  {
    assert c / 4096 == c / 64 / 64;
    assert c / 262144 == c / 4096 / 64;
  }

  /** The bits of a continuation byte. */
  function Bits(b: byte): (bits: nat)
    requires Continues(b)
    ensures bits < 64 && Tail(bits) == b
  {
    b as nat - 0x80
  }

  lemma DecodedTwo(s: seq<byte>) returns (c: nat)
    requires Utf8Length(s) == 2
    ensures IsScalar(c) && Encode(c) == s[..2]
  {
    var a := s[0] as nat - 0xC0;
    c := a * 64 + Bits(s[1]);
    Digits(a, Bits(s[1]));
  }

  lemma DecodedThree(s: seq<byte>) returns (c: nat)
    requires Utf8Length(s) == 3
    ensures IsScalar(c) && Encode(c) == s[..3]
  {
    var a := s[0] as nat - 0xE0;
    var b := a * 64 + Bits(s[1]);
    c := b * 64 + Bits(s[2]);
    Digits(a, Bits(s[1]));
    Digits(b, Bits(s[2]));
    Quotients(c);
    assert 0x7FF < c <= 0xFFFF && IsScalar(c);
  }

  lemma DecodedFour(s: seq<byte>) returns (c: nat)
    requires Utf8Length(s) == 4
    ensures IsScalar(c) && Encode(c) == s[..4]
  {
    var a := s[0] as nat - 0xF0;
    var b := a * 64 + Bits(s[1]);
    var d := b * 64 + Bits(s[2]);
    c := d * 64 + Bits(s[3]);
    Digits(a, Bits(s[1]));
    Digits(b, Bits(s[2]));
    Digits(d, Bits(s[3]));
    Quotients(c);
    assert 0xFFFF < c <= 0x10FFFF;
    assert c / 4096 % 64 == Bits(s[1]) && c / 64 % 64 == Bits(s[2]);
  }

  /** The character at the start of well-formed text. */
  lemma Decoded(s: seq<byte>) returns (c: nat)
    requires Utf8Length(s) > 0
    ensures IsScalar(c) && Encode(c) == s[..Utf8Length(s)]
  {
    var n := Utf8Length(s);
    if n == 1 {
      c := s[0] as nat;
    } else if n == 2 {
      c := DecodedTwo(s);
    } else if n == 3 {
      c := DecodedThree(s);
    } else {
      c := DecodedFour(s);
    }
  }

  lemma {:induction false} ValidIsEncoded(s: seq<byte>) returns (cs: seq<nat>)
    requires ValidUtf8(s)
    ensures AreScalars(cs) && EncodeAll(cs) == s
  {
    cs := [];
    if s != [] {
      var n := Utf8Length(s);
      var c := Decoded(s);
      var more := ValidIsEncoded(s[n..]);
      cs := [c] + more;
      hide Utf8Length, Encode, IsScalar;
      assert cs[1..] == more;
      assert s == s[..n] + s[n..];
    }
  }

  /** Valid is exactly what encodes a sequence of scalar values. */
  lemma ValidIff(s: seq<byte>)
    ensures ValidUtf8(s) <==> exists cs :: AreScalars(cs) && EncodeAll(cs) == s
  {
    if ValidUtf8(s) {
      var cs := ValidIsEncoded(s);
    }
    if cs :| AreScalars(cs) && EncodeAll(cs) == s {
      EncodedIsValid(cs);
    }
  }
}
