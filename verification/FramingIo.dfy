/** The framing reader and writer over a byte stream, proved against Framing. */
module FramingIo {
  import opened Bytes
  import opened Framing
  import opened Options

  function FirstLine(input: seq<byte>): seq<byte> {
    input[..LineEnd(input)]
  }

  function AfterLine(input: seq<byte>): seq<byte> {
    input[LineEnd(input)..]
  }

  /** The first line is text and properly ended. */
  predicate Ended(line: seq<byte>) {
    ValidUtf8(line) && |line| >= 2 && line[|line| - 2..] == CRLF
  }

  class BufReader {
    /** What is still to be read. */
    var input: seq<byte>

    constructor (input: seq<byte>)
      ensures this.input == input
    {
      this.input := input;
    }

    /** Takes the input up to and including the next newline, or all of it. */
    method ReadLine() returns (line: seq<byte>, isText: bool)
      modifies this
      ensures line == FirstLine(old(input)) && input == AfterLine(old(input))
      ensures isText <==> ValidUtf8(line)
      ensures old(input) == [] ==> isText
    {
      var n := 0;
      while n < |input| && input[n] != NEWLINE
        invariant n <= |input| && forall i :: 0 <= i < n ==> input[i] != NEWLINE
      {
        n := n + 1;
      }
      if n < |input| {
        n := n + 1;
        LineEndIs(input, n);
      } else {
        NoNewline(input);
      }
      line, input := input[..n], input[n..];
      isText := ValidUtf8(line);
    }

    /** Fills a buffer of n bytes, or fails at the end of the input. */
    method ReadExact(n: nat) returns (bytes: Option<seq<byte>>)
      modifies this
      ensures n <= |old(input)| ==> bytes == Some(old(input)[..n]) && input == old(input)[n..]
      ensures n > |old(input)| ==> bytes == None
    {
      if n > |input| {
        input := [];
        return None;
      }
      bytes, input := Some(input[..n]), input[n..];
    }
  }

  lemma {:induction false} NoNewline(s: seq<byte>)
    requires forall i :: 0 <= i < |s| ==> s[i] != NEWLINE
    ensures LineEnd(s) == |s|
  {
    if s != [] {
      NoNewline(s[1..]);
    }
  }

  // What ReadFrom makes of the first line, one lemma per branch of the loop.

  lemma BadLine(input: seq<byte>, size: Option<nat>)
    requires input != [] && !Ended(FirstLine(input))
    ensures ReadFrom(input, size) == Failed(if ValidUtf8(FirstLine(input)) then MalformedHeader else NotUtf8)
  {
    hide LineEnd, Separator, ValidUtf8, ParseUsize, IsLength, ReadContent;
  }

  lemma BlankLine(input: seq<byte>, size: Option<nat>)
    requires input != [] && FirstLine(input) == CRLF
    ensures ReadFrom(input, size) == ReadContent(AfterLine(input), size)
  {
    hide LineEnd, Separator, ValidUtf8, ParseUsize, IsLength, ReadContent;
    AsciiIsUtf8(CRLF);
  }

  lemma NoSeparator(input: seq<byte>, size: Option<nat>, text: seq<byte>)
    requires input != [] && Ended(FirstLine(input)) && text == FirstLine(input)[..|FirstLine(input)| - 2]
    requires text != [] && Separator(text) == |text|
    ensures ReadFrom(input, size) == Failed(MalformedHeader)
  {
    hide LineEnd, Separator, ValidUtf8, ParseUsize, IsLength, ReadContent;
  }

  lemma HeaderLine(input: seq<byte>, size: Option<nat>, text: seq<byte>)
    requires input != [] && Ended(FirstLine(input)) && text == FirstLine(input)[..|FirstLine(input)| - 2]
    requires text != [] && Separator(text) < |text|
    ensures var h := Header(text[..Separator(text)], text[Separator(text) + 2..]);
      ReadFrom(input, size) ==
        if !IsLength(h) then ReadFrom(AfterLine(input), size)
        else if ParseUsize(h.value).None? then Failed(BadLength)
        else ReadFrom(AfterLine(input), ParseUsize(h.value))
  {
    hide LineEnd, Separator, ValidUtf8, ParseUsize, IsLength, ReadContent;
    var h := Header(text[..Separator(text)], text[Separator(text) + 2..]);
  }

  lemma NoLine(input: seq<byte>, size: Option<nat>)
    requires FirstLine(input) == []
    ensures ReadFrom(input, size) == NoMessage
  {
  }

  lemma LineIsTaken(input: seq<byte>)
    requires input != []
    ensures FirstLine(input) != [] && |AfterLine(input)| < |input|
  {
  }

  /** Reads one message: headers up to the blank line, then as many bytes as the last
      Content-Length said. */
  method ReadMsgText(inp: BufReader) returns (r: Read)
    modifies inp
    ensures r == ReadFrom(old(inp.input), None)
    ensures r.Message? ==> inp.input == r.rest
  {
    hide ReadFrom, LineEnd, ValidUtf8, ParseUsize, IsLength, ReadContent;
    var size: Option<nat> := None;
    while true
      invariant ReadFrom(inp.input, size) == ReadFrom(old(inp.input), None)
      decreases |inp.input|
    {
      ghost var before := inp.input;
      var buf, isText := inp.ReadLine();
      if !isText {
        BadLine(before, size);
        return Failed(NotUtf8);
      }
      if buf == [] {
        NoLine(before, size);
        return NoMessage;
      }
      LineIsTaken(before);
      if |buf| < 2 || buf[|buf| - 2..] != CRLF {
        BadLine(before, size);
        return Failed(MalformedHeader);
      }
      assert |buf| == 2 ==> buf == CRLF;
      buf := buf[..|buf| - 2];
      if buf == [] {
        BlankLine(before, size);
        break;
      }
      var i := Separator(buf);
      if i == |buf| {
        NoSeparator(before, size, buf);
        return Failed(MalformedHeader);
      }
      HeaderLine(before, size, buf);
      var header := Header(buf[..i], buf[i + 2..]);
      if IsLength(header) {
        size := ParseUsize(header.value);
        if size.None? {
          return Failed(BadLength);
        }
      }
    }
    r := ReadRest(inp, size);
  }

  /** The content after the blank line. */
  method ReadRest(inp: BufReader, size: Option<nat>) returns (r: Read)
    modifies inp
    ensures r == ReadContent(old(inp.input), size)
    ensures r.Message? ==> inp.input == r.rest
  {
    if size.None? {
      return Failed(NoLength);
    }
    var text := inp.ReadExact(size.value);
    if text.None? {
      return Failed(UnexpectedEof);
    }
    if !ValidUtf8(text.value) {
      return Failed(NotUtf8);
    }
    r := Message(text.value, inp.input);
  }

  class Writer {
    var output: seq<byte>

    constructor ()
      ensures output == []
    {
      output := [];
    }

    method WriteAll(bytes: seq<byte>)
      modifies this
      ensures output == old(output) + bytes
    {
      output := output + bytes;
    }
  }

  method WriteMsgText(out: Writer, msg: seq<byte>)
    modifies out
    ensures out.output == old(out.output) + Written(msg)
  {
    hide Line;
    var h := LengthHeader(|msg|);
    out.WriteAll(Line(h));
    out.WriteAll(CRLF);
    out.WriteAll(msg);
    OneLine(h, msg);
    Regroup(old(out.output), Line(h), CRLF, msg);
  }

  lemma Regroup(a: seq<byte>, b: seq<byte>, c: seq<byte>, d: seq<byte>)
    ensures a + b + c + d == a + (b + c + d)
  {
  }

  lemma OneLine(h: Header, text: seq<byte>)
    ensures Frame([h], text) == Line(h) + CRLF + text
  {
    assert Lines([h]) == Line(h) + Lines([h][1..]);
  }
}
