/** Message templates with placeholders in braces: the parser, and the printer it inverts. */
module Template {
  import opened Options
  import opened Sequences

  type Arguments = string -> Option<string>

  // ---------------------------------------------------------------- specification

  /** A placeholder after its opening brace: closed, with its name and what follows, or
      open up to the end of the message. */
  datatype Placeholder = Closed(name: string, rest: string) | Open(name: string)

  function Prepend(c: char, p: Placeholder): Placeholder {
    match p
    case Closed(name, rest) => Closed([c] + name, rest)
    case Open(name) => Open([c] + name)
  }

  /** A doubled closing brace belongs to the name. */
  function Collect(s: string): (p: Placeholder)
    ensures p.Closed? ==> |p.rest| < |s|
  {
    if s == "" then Open("")
    else if s[0] == '}' then
      if |s| > 1 && s[1] == '}' then Prepend('}', Collect(s[2..])) else Closed("", s[1..])
    else Prepend(s[0], Collect(s[1..]))
  }

  /** A known name stands for its value; other placeholders are put back. */
  function Fill(name: string, args: Arguments): string {
    if name != "" && args(name).Some? then args(name).value else "{" + name + "}"
  }

  function Parse(s: string, args: Arguments): string
    decreases |s|
  {
    if s == "" then ""
    else if s[0] == '{' then
      if |s| > 1 && s[1] == '{' then "{" + Parse(s[2..], args)
      else
        match Collect(s[1..])
        case Closed(name, rest) => Fill(name, args) + Parse(rest, args)
        case Open(name) => "{" + name
    else if s[0] == '}' && |s| > 1 && s[1] == '}' then "}" + Parse(s[2..], args)
    else [s[0]] + Parse(s[1..], args)
  }

  // ---------------------------------------------------------------------- printer

  datatype Part = Literal(text: string) | Hole(name: string)

  /** Braces of a literal are doubled. */
  function Escape(text: string): string {
    if text == "" then "" else EscapeChar(text[0]) + Escape(text[1..])
  }

  function EscapeChar(c: char): string {
    if c == '{' || c == '}' then [c, c] else [c]
  }

  /** Of a name only closing braces are doubled. */
  function EscapeName(name: string): string {
    if name == "" then ""
    else (if name[0] == '}' then "}}" else [name[0]]) + EscapeName(name[1..])
  }

  function PrintPart(p: Part): string {
    match p
    case Literal(text) => Escape(text)
    case Hole(name) => "{" + EscapeName(name) + "}"
  }

  function Print(parts: seq<Part>): string {
    if parts == [] then "" else PrintPart(parts[0]) + Print(parts[1..])
  }

  /** What the parts stand for. */
  function Meaning(parts: seq<Part>, args: Arguments): string {
    if parts == [] then ""
    else (if parts[0].Literal? then parts[0].text else Fill(parts[0].name, args)) + Meaning(parts[1..], args)
  }

  predicate StartsWith(s: string, c: char) {
    s != "" && s[0] == c
  }

  /** The first part is a placeholder whose print cannot be read back: its name starts with
      an opening brace, or a closing brace follows it. */
  predicate Unreadable(parts: seq<Part>) {
    && parts != [] && parts[0].Hole?
    && (StartsWith(parts[0].name, '{') || StartsWith(Print(parts[1..]), '}'))
  }

  predicate Readable(parts: seq<Part>) {
    parts == [] || (!Unreadable(parts) && Readable(parts[1..]))
  }

  // ---------------------------------------------------------------------- lemmas

  lemma ParseChar(c: char, rest: string, args: Arguments)
    ensures Parse(EscapeChar(c) + rest, args) == [c] + Parse(rest, args)
  {
    assert (EscapeChar(c) + rest)[|EscapeChar(c)|..] == rest;
  }

  lemma {:induction false} ParseLiteral(text: string, rest: string, args: Arguments)
    ensures Parse(Escape(text) + rest, args) == text + Parse(rest, args)
  {
    hide Parse, EscapeChar;
    if text == "" {
      assert Escape(text) + rest == rest;
      assert text + Parse(rest, args) == Parse(rest, args);
    } else {
      Associate(EscapeChar(text[0]), Escape(text[1..]), rest);
      ParseChar(text[0], Escape(text[1..]) + rest, args);
      ParseLiteral(text[1..], rest, args);
      Associate([text[0]], text[1..], Parse(rest, args));
      assert text == [text[0]] + text[1..];
    }
  }

  /** The name collected so far goes in front. */
  function CollectAfter(name: string, p: Placeholder): Placeholder {
    match p
    case Closed(more, rest) => Closed(name + more, rest)
    case Open(more) => Open(name + more)
  }

  lemma PrependIsAfter(name: string, p: Placeholder)
    requires name != ""
    ensures CollectAfter(name, p) == Prepend(name[0], CollectAfter(name[1..], p))
  {
    assert name == [name[0]] + name[1..];
    Associate([name[0]], name[1..], p.name);
  }

  lemma CollectChar(c: char, s: string)
    ensures Collect((if c == '}' then "}}" else [c]) + s) == Prepend(c, Collect(s))
  {
    var d := if c == '}' then "}}" else [c];
    assert (d + s)[|d|..] == s;
  }

  lemma {:induction false} CollectName(name: string, rest: string)
    ensures Collect(EscapeName(name) + "}" + rest) == CollectAfter(name, Collect("}" + rest))
  {
    hide Collect, Prepend;
    Associate(EscapeName(name), "}", rest);
    if name == "" {
      var p := Collect("}" + rest);
      assert "" + p.name == p.name;
      assert "" + ("}" + rest) == "}" + rest;
    } else {
      var d := if name[0] == '}' then "}}" else [name[0]];
      Associate(d, EscapeName(name[1..]), "}" + rest);
      Associate(EscapeName(name[1..]), "}", rest);
      CollectChar(name[0], EscapeName(name[1..]) + "}" + rest);
      CollectName(name[1..], rest);
      PrependIsAfter(name, Collect("}" + rest));
    }
  }

  /** A placeholder is parsed as itself if its print can be read back. */
  lemma ParseHole(name: string, rest: string, args: Arguments)
    requires !StartsWith(name, '{') && !StartsWith(rest, '}')
    ensures Parse("{" + EscapeName(name) + "}" + rest, args) == Fill(name, args) + Parse(rest, args)
  {
    var s := "{" + EscapeName(name) + "}" + rest;
    CollectName(name, rest);
    assert ("}" + rest)[1..] == rest;
    assert Collect("}" + rest) == Closed("", rest);
    assert name + "" == name;
    assert s[1..] == EscapeName(name) + "}" + rest;
  }

  lemma ParsePart(parts: seq<Part>, args: Arguments)
    requires parts != [] && !Unreadable(parts)
    ensures Parse(Print(parts), args) ==
      (if parts[0].Literal? then parts[0].text else Fill(parts[0].name, args)) + Parse(Print(parts[1..]), args)
  {
    match parts[0]
    case Literal(text) => ParseLiteral(text, Print(parts[1..]), args);
    case Hole(name) =>
      ParseHole(name, Print(parts[1..]), args);
      assert PrintPart(parts[0]) + Print(parts[1..]) == "{" + EscapeName(name) + "}" + Print(parts[1..]);
  }

  /** Round trip: parsing what was printed gives the literals and the values. */
  lemma {:induction false} PrintedIsParsed(parts: seq<Part>, args: Arguments)
    requires Readable(parts)
    ensures Parse(Print(parts), args) == Meaning(parts, args)
  {
    if parts != [] {
      ParsePart(parts, args);
      PrintedIsParsed(parts[1..], args);
    }
  }

  /** A print that starts with a closing brace starts with a doubled one. */
  lemma {:induction false} DoubledClose(parts: seq<Part>) returns (less: seq<Part>)
    requires StartsWith(Print(parts), '}')
    ensures Print(parts) == "}}" + Print(less)
  {
    if parts[0] == Literal("") {
      assert Print(parts) == Print(parts[1..]);
      less := DoubledClose(parts[1..]);
    } else {
      var text := parts[0].text;
      less := [Literal(text[1..])] + parts[1..];
      assert less[1..] == parts[1..];
      Associate("}}", Escape(text[1..]), Print(parts[1..]));
    }
  }

  /** Printed braces are doubled, so a closing brace before a print always closes. */
  lemma {:induction false} CloseBeforePrint(parts: seq<Part>)
    ensures Collect("}" + Print(parts)).Closed?
    decreases |Print(parts)|
  {
    if StartsWith(Print(parts), '}') {
      var less := DoubledClose(parts);
      CloseBeforePrint(less);
      assert "}" + Print(parts) == "}}" + ("}" + Print(less));
      CollectChar('}', "}" + Print(less));
    }
  }

  /** Where a print cannot be read back: arguments that tell the difference. */
  function Telling(name: string): Arguments {
    if name == "" then (n => Some("!")) else (n => if n == name then Some("!") else None)
  }

  lemma MisreadHole(parts: seq<Part>)
    requires Unreadable(parts)
    ensures var args := Telling(parts[0].name);
      && Parse(Print(parts), args) != "" && Meaning(parts, args) != ""
      && Parse(Print(parts), args)[0] != Meaning(parts, args)[0]
  {
    var name, rest := parts[0].name, Print(parts[1..]);
    var s := Print(parts);
    assert s == "{" + EscapeName(name) + "}" + rest;
    if StartsWith(name, '{') {
      assert s[1] == '{';
    } else {
      assert s[1..] == EscapeName(name) + "}" + rest;
      assert name != "" ==> s[1] == EscapeName(name)[0] != '{';
      CollectName(name, rest);
      CloseBeforePrint(parts[1..]);
      var p := Collect("}" + rest);
      assert p.name != "";
      assert name + p.name != name;
    }
  }

  /** Parts that are not readable are misread with some arguments. */
  lemma {:induction false} UnreadableIsMisread(parts: seq<Part>) returns (args: Arguments)
    requires !Readable(parts)
    ensures Parse(Print(parts), args) != Meaning(parts, args)
  {
    if Unreadable(parts) {
      MisreadHole(parts);
      args := Telling(parts[0].name);
    } else {
      args := UnreadableIsMisread(parts[1..]);
      ParsePart(parts, args);
      var first := if parts[0].Literal? then parts[0].text else Fill(parts[0].name, args);
      assert (first + Parse(Print(parts[1..]), args))[|first|..] == Parse(Print(parts[1..]), args);
      assert (first + Meaning(parts[1..], args))[|first|..] == Meaning(parts[1..], args);
    }
  }

  /** The round trip holds, whatever the arguments, exactly when no name starts with an
      opening brace and no placeholder is directly followed by a closing one. */
  lemma RoundTripIff(parts: seq<Part>)
    ensures (forall args :: Parse(Print(parts), args) == Meaning(parts, args)) <==> Readable(parts)
  {
    if Readable(parts) {
      forall args ensures Parse(Print(parts), args) == Meaning(parts, args) {
        PrintedIsParsed(parts, args);
      }
    } else {
      var args := UnreadableIsMisread(parts);
    }
  }

  /** The parts have no braces of their own, and their names no value. */
  ghost predicate Unknown(parts: seq<Part>, args: Arguments) {
    forall i :: 0 <= i < |parts| ==>
      match parts[i]
      case Literal(text) => '{' !in text && '}' !in text
      case Hole(name) => '}' !in name && args(name).None?
  }

  lemma {:induction false} NothingToEscape(text: string)
    ensures '{' !in text && '}' !in text ==> Escape(text) == text
    ensures '}' !in text ==> EscapeName(text) == text
  {
    if text != "" {
      NothingToEscape(text[1..]);
      assert text == [text[0]] + text[1..];
    }
  }

  /** Unknown placeholders come out as they went in. */
  lemma {:induction false} UnknownIsVerbatim(parts: seq<Part>, args: Arguments)
    requires Readable(parts) && Unknown(parts, args)
    ensures Parse(Print(parts), args) == Print(parts)
  {
    PrintedIsParsed(parts, args);
    if parts != [] {
      UnknownIsVerbatim(parts[1..], args);
      PrintedIsParsed(parts[1..], args);
      NothingToEscape(if parts[0].Literal? then parts[0].text else parts[0].name);
    }
  }

  predicate NoBraces(text: string) {
    '{' !in text && '}' !in text
  }

  /** Text without braces comes out as it went in. */
  lemma PlainIsKept(text: string, rest: string, args: Arguments)
    requires NoBraces(text)
    ensures Parse(text + rest, args) == text + Parse(rest, args)
  {
    NothingToEscape(text);
    ParseLiteral(text, rest, args);
  }

  lemma PlainIsAll(text: string, args: Arguments)
    requires NoBraces(text)
    ensures Parse(text, args) == text
  {
    PlainIsKept(text, "", args);
    assert text + "" == text;
  }

  /** A placeholder between texts: a name with a value is replaced by exactly that value,
      any other one is put back with its braces. */
  lemma PlaceholderIsReplaced(before: string, name: string, after: string, args: Arguments)
    requires NoBraces(before) && NoBraces(name) && NoBraces(after)
    ensures Parse(before + ("{" + name + "}" + after), args) ==
      before + ((if name != "" && args(name).Some? then args(name).value else "{" + name + "}") + after)
  {
    hide Parse;
    PlainIsKept(before, "{" + name + "}" + after, args);
    NothingToEscape(name);
    ParseHole(name, after, args);
    PlainIsAll(after, args);
  }

  lemma {:induction false} NothingCloses(name: string)
    requires '}' !in name
    ensures Collect(name) == Open(name)
  {
    if name != "" {
      NothingCloses(name[1..]);
      assert name == [name[0]] + name[1..];
    }
  }

  /** A placeholder that is never closed is kept, and so is a closing brace alone. */
  lemma UnbalancedIsKept(before: string, after: string, args: Arguments)
    requires NoBraces(before) && NoBraces(after)
    ensures Parse(before + ("{" + after), args) == before + ("{" + after)
    ensures Parse(before + ("}" + after), args) == before + ("}" + after)
  {
    PlainIsKept(before, "{" + after, args);
    PlainIsKept(before, "}" + after, args);
    NothingCloses(after);
    PlainIsAll(after, args);
    assert ("{" + after)[1..] == after && ("}" + after)[1..] == after;
    assert ["}"[0]] + Parse(after, args) == "}" + after;
  }

  // ------------------------------------------------------------------- the parser

  /** The characters still to come, one of which can be looked at. */
  class Peekable {
    var rest: string

    constructor (text: string)
      ensures rest == text
    {
      rest := text;
    }

    function Peek(): Option<char>
      reads this
    {
      if rest == "" then None else Some(rest[0])
    }

    method Next() returns (c: Option<char>)
      modifies this
      ensures c == old(Peek()) && rest == if c.Some? then old(rest)[1..] else old(rest)
    {
      c := Peek();
      if rest != "" {
        rest := rest[1..];
      }
    }
  }

  datatype PlaceholderResult = Valid(name: string) | Incomplete(name: string) | Empty

  /** Collects a name up to its closing brace. */
  method CollectUntilCloseBrace(chars: Peekable) returns (r: PlaceholderResult)
    modifies chars
    ensures match Collect(old(chars.rest))
      case Closed(name, rest) => r == Valid(name) && chars.rest == rest
      case Open(name) => r == (if name == "" then Empty else Incomplete(name)) && chars.rest == ""
  {
    var argName := "";
    while chars.Peek().Some?
      invariant Collect(old(chars.rest)) == CollectAfter(argName, Collect(chars.rest))
      decreases |chars.rest|
    {
      ghost var name, rest := argName, chars.rest;
      if chars.Peek() == Some('}') {
        var _ := chars.Next();
        if chars.Peek() == Some('}') {
          var _ := chars.Next();
          argName := argName + ['}'];
          assert rest[2..] == chars.rest;
          CollectPush(name, '}', Collect(chars.rest));
        } else {
          assert argName + "" == argName;
          return Valid(argName);
        }
      } else {
        var c := chars.Next();
        argName := argName + [c.value];
        CollectPush(name, c.value, Collect(chars.rest));
      }
    }
    assert argName + "" == argName;
    return if argName == "" then Empty else Incomplete(argName);
  }

  lemma CollectPush(name: string, c: char, p: Placeholder)
    ensures CollectAfter(name + [c], p) == CollectAfter(name, Prepend(c, p))
  {
    assert name + [c] + p.name == name + ([c] + p.name);
  }

  /** The text for a placeholder whose opening brace was just read. */
  method Replacement(chars: Peekable, args: Arguments) returns (text: string)
    modifies chars
    ensures match Collect(old(chars.rest))
      case Closed(name, rest) => text == Fill(name, args) && chars.rest == rest
      case Open(name) => text == "{" + name && chars.rest == ""
  {
    var placeholder := CollectUntilCloseBrace(chars);
    match placeholder {
      case Valid(name) =>
        text := if name != "" && args(name).Some? then args(name).value else "{" + name + "}";
      case Incomplete(name) => text := "{" + name;
      case Empty => text := "{";
    }
  }

  /** Replaces the placeholders of a message. */
  method ParseMessage(message: string, args: Arguments) returns (result: string)
    ensures result == Parse(message, args)
  {
    hide Collect, Fill;
    result := "";
    var chars := new Peekable(message);
    while chars.rest != ""
      invariant Parse(message, args) == result + Parse(chars.rest, args)
      decreases |chars.rest|
    {
      ghost var before, rest := result, chars.rest;
      var text;
      var next := chars.Next();
      var c := next.value;
      if c == '{' && chars.Peek() == Some('{') {
        var _ := chars.Next();
        text := "{";
        assert rest[2..] == chars.rest;
      } else if c == '{' {
        text := Replacement(chars, args);
      } else if c == '}' && chars.Peek() == Some('}') {
        var _ := chars.Next();
        text := "}";
        assert rest[2..] == chars.rest;
      } else {
        text := [c];
      }
      assert Parse(rest, args) == text + Parse(chars.rest, args);
      result := result + text;
      Associate(before, text, Parse(chars.rest, args));
    }
  }
}
