/** Bytes, ASCII text and UTF-8. */
module Bytes {

  newtype byte = b: int | 0 <= b < 256

  /** The bytes of ASCII text. */
  function Ascii(s: string): (bytes: seq<byte>)
    requires forall i :: 0 <= i < |s| ==> s[i] < 128 as char
    ensures |bytes| == |s| && forall i :: 0 <= i < |s| ==> bytes[i] < 128
  {
    seq(|s|, i requires 0 <= i < |s| => s[i] as int as byte)
  }

  /** Bytes as characters, one for one. */
  function Chars(bytes: seq<byte>): (s: string)
    ensures |s| == |bytes|
  {
    seq(|bytes|, i requires 0 <= i < |bytes| => bytes[i] as int as char)
  }

  lemma CharsOfAscii(s: string)
    requires forall i :: 0 <= i < |s| ==> s[i] < 128 as char
    ensures Chars(Ascii(s)) == s
  {
  }

  predicate Continues(b: byte) {
    0x80 <= b <= 0xBF
  }

  /** How long the well-formed UTF-8 sequence at the start is, if there is one: the table of
      section 4 of RFC 3629. */
  function Utf8Length(s: seq<byte>): (n: nat)
    ensures n <= |s| && n <= 4
  {
    if |s| >= 1 && s[0] <= 0x7F then 1
    else if |s| >= 2 && 0xC2 <= s[0] <= 0xDF && Continues(s[1]) then 2
    else if |s| >= 3 && Continues(s[1]) && Continues(s[2])
      && (|| (s[0] == 0xE0 && 0xA0 <= s[1])
          || (0xE1 <= s[0] <= 0xEF && (s[0] == 0xED ==> s[1] <= 0x9F))) then 3
    else if |s| >= 4 && Continues(s[1]) && Continues(s[2]) && Continues(s[3])
      && (|| (s[0] == 0xF0 && 0x90 <= s[1])
          || 0xF1 <= s[0] <= 0xF3
          || (s[0] == 0xF4 && s[1] <= 0x8F)) then 4
    else 0
  }

  predicate ValidUtf8(s: seq<byte>) {
    s == [] || (Utf8Length(s) > 0 && ValidUtf8(s[Utf8Length(s)..]))
  }

  lemma {:induction false} AsciiIsUtf8(s: seq<byte>)
    requires forall i :: 0 <= i < |s| ==> s[i] < 128
    ensures ValidUtf8(s)
  {
    if s != [] {
      AsciiIsUtf8(s[1..]);
    }
  }
}
