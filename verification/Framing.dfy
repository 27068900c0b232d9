/** Message framing: header lines, a blank line and the content, as in the Header Part and
    the Content Part of the Base Protocol of the Language Server Protocol 3.17. */
module Framing {
  import opened Bytes
  import opened Options
  import opened Sequences
  import Decimal

  const NEWLINE: byte := 10
  const CRLF: seq<byte> := [13, 10]
  const MAX_USIZE: nat := 0xFFFF_FFFF_FFFF_FFFF

  datatype ReadError = MalformedHeader | BadLength | NoLength | UnexpectedEof | NotUtf8

  datatype Read = Message(text: seq<byte>, rest: seq<byte>) | NoMessage | Failed(error: ReadError)

  // -------------------------------------------------------------------- grammar

  datatype Header = Header(name: seq<byte>, value: seq<byte>)

  function Line(h: Header): seq<byte> {
    h.name + Ascii(": ") + h.value + CRLF
  }

  predicate SeparatorAt(s: seq<byte>, i: nat) {
    i + 1 < |s| && s[i] == 58 && s[i + 1] == 32
  }

  function Lower(b: byte): byte {
    if 65 <= b <= 90 then b + 32 else b
  }

  predicate EqualIgnoringCase(a: seq<byte>, b: seq<byte>) {
    |a| == |b| && forall i :: 0 <= i < |a| ==> Lower(a[i]) == Lower(b[i])
  }

  predicate IsLength(h: Header) {
    EqualIgnoringCase(h.name, Ascii("Content-Length"))
  }

  /** An unsigned machine word in decimal, possibly with a plus sign. */
  function ParseUsize(value: seq<byte>): Option<nat> {
    var digits := if value != [] && value[0] == 43 then value[1..] else value;
    var n := Decimal.Value(Chars(digits));
    if n.Some? && n.value <= MAX_USIZE then n else None
  }

  /** A header line the reader takes: its name has no separator, and a length is a number. */
  predicate Proper(h: Header) {
    && NEWLINE !in h.name && NEWLINE !in h.value
    && (forall i :: 0 <= i < |h.name| ==> !SeparatorAt(h.name, i))
    && ValidUtf8(Line(h))
    && (IsLength(h) ==> ParseUsize(h.value).Some?)
  }

  function Lines(headers: seq<Header>): seq<byte> {
    if headers == [] then [] else Line(headers[0]) + Lines(headers[1..])
  }

  /** The last length announced, or the one known before. */
  function Size(headers: seq<Header>, size: Option<nat>): Option<nat> {
    if headers == [] then size
    else Size(headers[1..], if IsLength(headers[0]) then ParseUsize(headers[0].value) else size)
  }

  ghost predicate AllProper(headers: seq<Header>) {
    forall i :: 0 <= i < |headers| ==> Proper(headers[i])
  }

  function Frame(headers: seq<Header>, text: seq<byte>): seq<byte> {
    Lines(headers) + CRLF + text
  }

  // --------------------------------------------------------------------- reading

  /** The length of the first line with its newline; without one, of the whole input. */
  function LineEnd(s: seq<byte>): (n: nat)
    ensures n <= |s| && (s != [] ==> n > 0)
    ensures forall i :: 0 <= i < n - 1 ==> s[i] != NEWLINE
    ensures n < |s| ==> s[n - 1] == NEWLINE
  {
    if s == [] then 0 else if s[0] == NEWLINE then 1 else 1 + LineEnd(s[1..])
  }

  /** The first separator, or the length of the text. */
  function Separator(s: seq<byte>): (n: nat)
    ensures n <= |s| && forall i: nat :: i < n ==> !SeparatorAt(s, i)
    ensures n < |s| ==> SeparatorAt(s, n)
  {
    if s == [] then 0 else if SeparatorAt(s, 0) then 0
    else
      var n := Separator(s[1..]);
      assert forall i: nat :: 0 < i < 1 + n ==> (SeparatorAt(s, i) <==> SeparatorAt(s[1..], i - 1));
      1 + n
  }

  function ReadContent(input: seq<byte>, size: Option<nat>): Read {
    if size.None? then Failed(NoLength)
    else if size.value > |input| then Failed(UnexpectedEof)
    else if !ValidUtf8(input[..size.value]) then Failed(NotUtf8)
    else Message(input[..size.value], input[size.value..])
  }

  /** Reads header lines up to the blank one, then the content. The end of the input where
      a line should start means that there is no message. */
  function ReadFrom(input: seq<byte>, size: Option<nat>): Read
    decreases |input|
  {
    if input == [] then NoMessage
    else
      var line, rest := input[..LineEnd(input)], input[LineEnd(input)..];
      if !ValidUtf8(line) then Failed(NotUtf8)
      else if |line| < 2 || line[|line| - 2..] != CRLF then Failed(MalformedHeader)
      else
        var text := line[..|line| - 2];
        if text == [] then ReadContent(rest, size)
        else
          var i := Separator(text);
          if i == |text| then Failed(MalformedHeader)
          else
            var h := Header(text[..i], text[i + 2..]);
            if IsLength(h) then
              var n := ParseUsize(h.value);
              if n.None? then Failed(BadLength) else ReadFrom(rest, n)
            else ReadFrom(rest, size)
  }

  // ---------------------------------------------------------------------- lemmas

  lemma {:induction false} LineEndIs(s: seq<byte>, n: nat)
    requires 0 < n <= |s| && s[n - 1] == NEWLINE
    requires forall i :: 0 <= i < n - 1 ==> s[i] != NEWLINE
    ensures LineEnd(s) == n
  {
    if n > 1 {
      LineEndIs(s[1..], n - 1);
    }
  }

  lemma SeparatorIs(s: seq<byte>, n: nat)
    requires SeparatorAt(s, n) && forall i: nat :: i < n ==> !SeparatorAt(s, i)
    ensures Separator(s) == n
  {
    var m := Separator(s);
  }

  /** A line is cut where it ends. */
  lemma LineIsCut(h: Header, rest: seq<byte>)
    requires Proper(h)
    ensures var input := Line(h) + rest;
      LineEnd(input) == |Line(h)| && input[..|Line(h)|] == Line(h) && input[|Line(h)|..] == rest
  {
    var input, line := Line(h) + rest, Line(h);
    forall i | 0 <= i < |line| - 1 ensures input[i] != NEWLINE {
      assert input[i] == line[i];
    }
    LineEndIs(input, |line|);
  }

  /** It is split where its separator is. */
  lemma LineIsSplit(h: Header)
    requires Proper(h)
    ensures var line := Line(h); var text := line[..|line| - 2];
      && ValidUtf8(line) && |line| > 2 && line[|line| - 2..] == CRLF && text != []
      && Separator(text) == |h.name| && Separator(text) < |text|
      && h == Header(text[..Separator(text)], text[Separator(text) + 2..])
    ensures IsLength(h) ==> ParseUsize(h.value).Some?
  {
    var text := h.name + Ascii(": ") + h.value;
    assert Line(h) == text + CRLF;
    assert SeparatorAt(text, |h.name|);
    forall i: nat | i < |h.name| ensures !SeparatorAt(text, i) {
      assert !SeparatorAt(h.name, i);
    }
    SeparatorIs(text, |h.name|);
  }

  function SizeAfter(h: Header, size: Option<nat>): Option<nat> {
    if IsLength(h) then ParseUsize(h.value) else size
  }

  lemma ReadHeader(h: Header, rest: seq<byte>, size: Option<nat>)
    requires Proper(h)
    ensures ReadFrom(Line(h) + rest, size) == ReadFrom(rest, SizeAfter(h, size))
  {
    hide Proper, Line, LineEnd, Separator, SeparatorAt, ValidUtf8, ParseUsize, IsLength;
    LineIsCut(h, rest);
    LineIsSplit(h);
    var input := Line(h) + rest;
    assert input != [] && input[..LineEnd(input)] == Line(h) && input[LineEnd(input)..] == rest;
  }

  lemma BlankIsCut(after: seq<byte>)
    ensures var input := CRLF + after;
      LineEnd(input) == 2 && input[..2] == CRLF && input[2..] == after && ValidUtf8(CRLF)
  {
    LineEndIs(CRLF + after, 2);
    AsciiIsUtf8(CRLF);
  }

  lemma ReadBlank(text: seq<byte>, rest: seq<byte>)
    requires ValidUtf8(text)
    ensures ReadFrom(CRLF + text + rest, Some(|text|)) == Message(text, rest)
  {
    hide LineEnd, ValidUtf8;
    assert CRLF + text + rest == CRLF + (text + rest);
    BlankIsCut(text + rest);
    assert (text + rest)[..|text|] == text && (text + rest)[|text|..] == rest;
  }

  /** Reading a framed message: the reader takes the headers and the content, and leaves
      what follows. */
  lemma {:induction false} ReadFrame(headers: seq<Header>, text: seq<byte>, rest: seq<byte>, size: Option<nat>)
    requires AllProper(headers) && Size(headers, size) == Some(|text|) && ValidUtf8(text)
    ensures ReadFrom(Frame(headers, text) + rest, size) == Message(text, rest)
  {
    hide ReadFrom, Line, Proper, ValidUtf8;
    if headers == [] {
      assert Frame([], text) + rest == CRLF + text + rest;
      ReadBlank(text, rest);
    } else {
      var h := headers[0];
      var after := Frame(headers[1..], text) + rest;
      assert Frame(headers, text) + rest == Line(h) + after;
      ReadHeader(h, after, size);
      ReadFrame(headers[1..], text, rest, SizeAfter(h, size));
    }
  }

  lemma Rejoin(s: seq<byte>, n: nat)
    requires n <= |s|
    ensures s == s[..n] + s[n..]
  {
  }

  /** The header of a line the reader takes, and what it does next. */
  lemma CutHeader(input: seq<byte>, size: Option<nat>) returns (h: Header, rest: seq<byte>)
    requires input != [] && !ReadFrom(input, size).Failed?
    requires input[..LineEnd(input)] != CRLF
    ensures Proper(h) && Line(h) != [] && input == Line(h) + rest
    ensures ReadFrom(input, size) == ReadFrom(rest, SizeAfter(h, size))
  {
    hide Line, Proper, ParseUsize, ValidUtf8;
    var line := input[..LineEnd(input)];
    rest := input[LineEnd(input)..];
    var text := line[..|line| - 2];
    Rejoin(input, LineEnd(input));
    Rejoin(line, |line| - 2);
    var i := Separator(text);
    h := Header(text[..i], text[i + 2..]);
    LineOf(line, h);
  }

  lemma LineOf(line: seq<byte>, h: Header)
    requires |line| > 2 && line[|line| - 2..] == CRLF && ValidUtf8(line)
    requires forall i :: 0 <= i < |line| - 1 ==> line[i] != NEWLINE
    requires var text := line[..|line| - 2];
      Separator(text) < |text| && h == Header(text[..Separator(text)], text[Separator(text) + 2..])
    requires IsLength(h) ==> ParseUsize(h.value).Some?
    ensures Line(h) == line && Line(h) != [] && Proper(h)
  {
    hide ValidUtf8, ParseUsize, IsLength, SeparatorAt;
    var text := line[..|line| - 2];
    var i := Separator(text);
    CutAt(text, i);
    assert line == text + CRLF;
    assert forall j :: 0 <= j < |text| ==> text[j] == line[j] != NEWLINE;
    forall j: nat | j < |h.name| ensures !SeparatorAt(h.name, j) {
      NotInPrefix(text, i, j);
    }
  }

  lemma CutAt(text: seq<byte>, i: nat)
    requires SeparatorAt(text, i)
    ensures i + 2 <= |text| && text == text[..i] + Ascii(": ") + text[i + 2..]
  {
    assert text[i..i + 2] == Ascii(": ");
  }

  lemma NotInPrefix(text: seq<byte>, n: nat, j: nat)
    requires n <= |text| && !SeparatorAt(text, j)
    ensures !SeparatorAt(text[..n], j)
  {
  }

  lemma SomeInput(input: seq<byte>, size: Option<nat>)
    requires ReadFrom(input, size).Message?
    ensures input != []
  {
  }

  lemma BlankIsContent(input: seq<byte>, size: Option<nat>)
    requires ReadFrom(input, size).Message? && input != [] && input[..LineEnd(input)] == CRLF
    ensures var m := ReadFrom(input, size);
      input == CRLF + m.text + m.rest && size == Some(|m.text|) && ValidUtf8(m.text)
  {
    hide ValidUtf8, ParseUsize, IsLength, SeparatorAt, Separator;
    var rest := input[LineEnd(input)..];
    Rejoin(input, LineEnd(input));
    assert ReadFrom(input, size) == ReadContent(rest, size);
    hide ReadFrom;
    Rejoin(rest, size.value);
    Associate(CRLF, rest[..size.value], rest[size.value..]);
  }

  /** A message is read only from a frame: some proper headers whose last length is that of
      the content. */
  lemma {:induction false} ReadIsFrame(input: seq<byte>, size: Option<nat>) returns (headers: seq<Header>)
    requires ReadFrom(input, size).Message?
    ensures AllProper(headers)
    ensures var m := ReadFrom(input, size);
      && Size(headers, size) == Some(|m.text|) && ValidUtf8(m.text)
      && input == Frame(headers, m.text) + m.rest
    decreases |input|
  {
    var m := ReadFrom(input, size);
    hide ReadFrom, Proper, ValidUtf8, Line;
    SomeInput(input, size);
    if input[..LineEnd(input)] == CRLF {
      headers := [];
      BlankIsContent(input, size);
      assert input == Frame([], m.text) + m.rest;
    } else {
      var h, rest := CutHeader(input, size);
      assert |input| == |Line(h)| + |rest| && Line(h) != [];
      var more := ReadIsFrame(rest, SizeAfter(h, size));
      headers := [h] + more;
      assert headers[1..] == more;
      assert Frame(headers, m.text) == Line(h) + Frame(more, m.text);
    }
  }

  ghost predicate IsFrame(headers: seq<Header>, input: seq<byte>, text: seq<byte>, rest: seq<byte>) {
    && AllProper(headers) && Size(headers, None) == Some(|text|) && ValidUtf8(text)
    && input == Frame(headers, text) + rest
  }

  /** The reader returns a message exactly for the inputs that start with a frame of it. */
  lemma ReadIff(input: seq<byte>, text: seq<byte>, rest: seq<byte>)
    ensures ReadFrom(input, None) == Message(text, rest) <==>
      exists headers :: IsFrame(headers, input, text, rest)
  {
    if ReadFrom(input, None) == Message(text, rest) {
      var headers := ReadIsFrame(input, None);
      assert IsFrame(headers, input, text, rest);
    }
    if headers :| IsFrame(headers, input, text, rest) {
      ReadFrame(headers, text, rest, None);
    }
  }

  /** No message is reported, and no error, exactly when the input ends where a line should
      start: at once, or between the lines of an unfinished header part. */
  lemma {:induction false} NoMessageIff(input: seq<byte>, size: Option<nat>)
    ensures ReadFrom(input, size) == NoMessage <==> exists headers :: AllProper(headers) && input == Lines(headers)
    decreases |input|
  {
    if ReadFrom(input, size) == NoMessage {
      var headers := UnfinishedHeaders(input, size);
      assert AllProper(headers) && input == Lines(headers);
    }
    if headers :| AllProper(headers) && input == Lines(headers) {
      LinesGiveNothing(headers, size);
    }
  }

  lemma {:induction false} LinesGiveNothing(headers: seq<Header>, size: Option<nat>)
    requires AllProper(headers)
    ensures ReadFrom(Lines(headers), size) == NoMessage
  {
    if headers != [] {
      hide ReadFrom, Line, Proper;
      ReadHeader(headers[0], Lines(headers[1..]), size);
      LinesGiveNothing(headers[1..], SizeAfter(headers[0], size));
    }
  }

  lemma {:induction false} UnfinishedHeaders(input: seq<byte>, size: Option<nat>) returns (headers: seq<Header>)
    requires ReadFrom(input, size) == NoMessage
    ensures AllProper(headers) && input == Lines(headers)
    decreases |input|
  {
    hide Line, Proper, ValidUtf8, ParseUsize, IsLength;
    headers := [];
    if input != [] {
      var h, rest := CutHeader(input, size);
      assert |input| == |Line(h)| + |rest| && Line(h) != [];
      var more := UnfinishedHeaders(rest, SizeAfter(h, size));
      headers := [h] + more;
      assert headers[1..] == more;
    }
  }

  // --------------------------------------------------------------------- writing

  function LengthHeader(n: nat): Header {
    Header(Ascii("Content-Length"), Ascii(Decimal.Print(n)))
  }

  function Written(text: seq<byte>): seq<byte> {
    Frame([LengthHeader(|text|)], text)
  }

  lemma LengthHeaderIsProper(n: nat)
    requires n <= MAX_USIZE
    ensures Proper(LengthHeader(n)) && IsLength(LengthHeader(n))
    ensures ParseUsize(LengthHeader(n).value) == Some(n)
  {
    var h := LengthHeader(n);
    Decimal.PrintValue(n);
    CharsOfAscii(Decimal.Print(n));
    AsciiIsUtf8(Line(h));
    assert Decimal.IsDigit(Decimal.Print(n)[0]);
    forall i | 0 <= i < |h.value| ensures h.value[i] != NEWLINE {
      assert Decimal.IsDigit(Decimal.Print(n)[i]);
    }
  }

  /** What was written is read back, with other headers before or after the length, and what
      follows is left alone. */
  lemma WrittenIsRead(before: seq<Header>, after: seq<Header>, text: seq<byte>, rest: seq<byte>)
    requires AllProper(before) && AllProper(after) && forall i :: 0 <= i < |after| ==> !IsLength(after[i])
    requires ValidUtf8(text) && |text| <= MAX_USIZE
    ensures ReadFrom(Frame(before + [LengthHeader(|text|)] + after, text) + rest, None) == Message(text, rest)
  {
    LengthHeaderIsProper(|text|);
    var headers := before + [LengthHeader(|text|)] + after;
    SizeOfAll(before, LengthHeader(|text|), after, None);
    ReadFrame(headers, text, rest, None);
  }

  lemma {:induction false} SizeOfAll(before: seq<Header>, h: Header, after: seq<Header>, size: Option<nat>)
    requires IsLength(h) && forall i :: 0 <= i < |after| ==> !IsLength(after[i])
    ensures Size(before + [h] + after, size) == ParseUsize(h.value)
  {
    var headers := before + [h] + after;
    if before == [] {
      assert headers[1..] == after;
      SizeStays(after, ParseUsize(h.value));
    } else {
      assert headers[1..] == before[1..] + [h] + after;
      SizeOfAll(before[1..], h, after, if IsLength(before[0]) then ParseUsize(before[0].value) else size);
    }
  }

  lemma {:induction false} SizeStays(headers: seq<Header>, size: Option<nat>)
    requires forall i :: 0 <= i < |headers| ==> !IsLength(headers[i])
    ensures Size(headers, size) == size
  {
    if headers != [] {
      SizeStays(headers[1..], size);
    }
  }

  lemma WrittenIsReadBack(text: seq<byte>, rest: seq<byte>)
    requires ValidUtf8(text) && |text| <= MAX_USIZE
    ensures ReadFrom(Written(text) + rest, None) == Message(text, rest)
  {
    hide ReadFrom;
    assert [] + [LengthHeader(|text|)] + [] == [LengthHeader(|text|)];
    WrittenIsRead([], [], text, rest);
  }

  function WrittenAll(texts: seq<seq<byte>>): seq<byte> {
    if texts == [] then [] else Written(texts[0]) + WrittenAll(texts[1..])
  }

  /** The messages of an input, up to n of them, and what is left. */
  function ReadMany(input: seq<byte>, n: nat): (seq<seq<byte>>, seq<byte>)
    decreases n
  {
    if n == 0 then ([], input)
    else
      match ReadFrom(input, None)
      case Message(text, rest) => var more := ReadMany(rest, n - 1); ([text] + more.0, more.1)
      case _ => ([], input)
  }

  /** A stream of written messages is read back in order, and what follows is left alone. */
  lemma {:induction false} StreamRoundTrip(texts: seq<seq<byte>>, rest: seq<byte>)
    requires forall i :: 0 <= i < |texts| ==> ValidUtf8(texts[i]) && |texts[i]| <= MAX_USIZE
    ensures ReadMany(WrittenAll(texts) + rest, |texts|) == (texts, rest)
  {
    hide ReadFrom, Written, ValidUtf8;
    if texts == [] {
      assert WrittenAll(texts) + rest == rest;
    } else {
      var after := WrittenAll(texts[1..]) + rest;
      assert WrittenAll(texts) + rest == Written(texts[0]) + after;
      WrittenIsReadBack(texts[0], after);
      StreamRoundTrip(texts[1..], rest);
      assert [texts[0]] + texts[1..] == texts;
    }
  }

  // ----------------------------------------------------------------- in characters

  lemma AsciiConcat(a: string, b: string)
    requires forall i :: 0 <= i < |a| ==> a[i] < 128 as char
    requires forall i :: 0 <= i < |b| ==> b[i] < 128 as char
    ensures Ascii(a + b) == Ascii(a) + Ascii(b)
  {
  }

  lemma NameText()
    ensures Ascii("Content-Length") + Ascii(": ") == Ascii("Content-Length: ")
  {
    var name, colon := "Content-Length", ": ";
    assert name + colon == "Content-Length: ";
    AsciiConcat(name, colon);
  }

  lemma BlankText()
    ensures Ascii("\r\n\r\n") == CRLF + CRLF
  {
  }

  lemma Regrouped(a: seq<byte>, b: seq<byte>, c: seq<byte>, d: seq<byte>, e: seq<byte>)
    ensures (a + b + c + d) + d + e == (a + b) + c + (d + d) + e
  {
  }

  /** What is written, character by character: the name of the header, the length in
      decimal, a blank line and the content. */
  lemma WrittenText(text: seq<byte>)
    ensures Written(text) == Ascii("Content-Length: ") + Ascii(Decimal.Print(|text|)) + Ascii("\r\n\r\n") + text
  {
    hide Line, Ascii;
    var h := LengthHeader(|text|);
    OneLineOnly(h);
    LineText(h);
    NameText();
    BlankText();
    Regrouped(h.name, Ascii(": "), h.value, CRLF, text);
  }

  lemma OneLineOnly(h: Header)
    ensures Lines([h]) == Line(h)
  {
    assert Lines([h][1..]) == [];
  }

  lemma LineText(h: Header)
    ensures Line(h) == h.name + Ascii(": ") + h.value + CRLF
  {
  }

  /** The length is announced under this name, in any case; another header announces none. */
  lemma LengthNames(value: seq<byte>)
    ensures IsLength(Header(Ascii("Content-Length"), value)) && IsLength(Header(Ascii("content-length"), value))
    ensures IsLength(Header(Ascii("CONTENT-LENGTH"), value)) && !IsLength(Header(Ascii("Content-Type"), value))
  {
  }

  /** A length is any number of 64 bits, also with a plus sign. */
  lemma LengthIsRead(n: nat)
    ensures var digits := Ascii(Decimal.Print(n));
      var read := if n <= 18446744073709551615 then Some(n) else None;
      ParseUsize(digits) == read && ParseUsize([43] + digits) == read
  {
    var s := Decimal.Print(n);
    Decimal.PrintValue(n);
    CharsOfAscii(s);
    assert Decimal.IsDigit(s[0]) && Ascii(s)[0] != 43;
    assert ([43] + Ascii(s))[1..] == Ascii(s);
  }
}
