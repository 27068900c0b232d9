/** Locale files: sections of a key in brackets, each followed by one line per language. */
module Locale {
  import opened Options
  import opened Sequences

  type TranslationMap = map<string, string>
  type TranslationMapSet = map<string, TranslationMap>

  // ------------------------------------------------------------------------ text

  /** The Unicode property White_Space. */
  predicate IsWhitespace(c: char) {
    || '\t' <= c <= '\r' || c == ' ' || c == '\U{85}' || c == '\U{A0}' || c == '\U{1680}'
    || '\U{2000}' <= c <= '\U{200A}' || c == '\U{2028}' || c == '\U{2029}' || c == '\U{202F}'
    || c == '\U{205F}' || c == '\U{3000}'
  }

  function TrimStart(s: string): (t: string)
    ensures |t| <= |s|
    ensures t != "" ==> !IsWhitespace(t[0])
  {
    if s != "" && IsWhitespace(s[0]) then TrimStart(s[1..]) else s
  }

  function TrimEnd(s: string): (t: string)
    ensures |t| <= |s|
    ensures t != "" ==> !IsWhitespace(t[|t| - 1])
  {
    if s != "" && IsWhitespace(s[|s| - 1]) then TrimEnd(s[..|s| - 1]) else s
  }

  function Trim(s: string): string {
    TrimEnd(TrimStart(s))
  }

  predicate IsTrimmed(s: string) {
    s != "" ==> !IsWhitespace(s[0]) && !IsWhitespace(s[|s| - 1])
  }

  lemma {:induction false} TrimStartIsSuffix(s: string)
    ensures TrimStart(s) == s[|s| - |TrimStart(s)|..]
  {
    if s != "" && IsWhitespace(s[0]) {
      TrimStartIsSuffix(s[1..]);
    }
  }

  lemma {:induction false} TrimEndIsPrefix(s: string)
    ensures TrimEnd(s) == s[..|TrimEnd(s)|]
  {
    if s != "" && IsWhitespace(s[|s| - 1]) {
      TrimEndIsPrefix(s[..|s| - 1]);
    }
  }

  lemma TrimTrims(s: string)
    ensures IsTrimmed(Trim(s)) && forall c :: c in Trim(s) ==> c in s
  {
    hide IsWhitespace;
    TrimStartIsSuffix(s);
    TrimEndIsPrefix(TrimStart(s));
  }

  /** The pieces between newlines; one more than there are newlines. */
  function Split(s: string): (lines: seq<string>)
    ensures lines != [] && forall i :: 0 <= i < |lines| ==> '\n' !in lines[i]
  {
    if s == "" then [""]
    else if s[0] == '\n' then [""] + Split(s[1..])
    else
      var rest := Split(s[1..]);
      [[s[0]] + rest[0]] + rest[1..]
  }

  predicate IsKept(line: string) {
    line != "" && line[0] != '#'
  }

  /** The lines trimmed, without comments and blank ones. */
  function Clean(lines: seq<string>): seq<string> {
    if lines == [] then []
    else (if IsKept(Trim(lines[0])) then [Trim(lines[0])] else []) + Clean(lines[1..])
  }

  // --------------------------------------------------------------------- reading

  datatype Loaded = Fine(found: TranslationMapSet) | NoEquals(line: string) | Panic

  function EqualsAt(line: string): (i: nat)
    ensures i <= |line| && (forall j :: 0 <= j < i ==> line[j] != '=') && (i < |line| ==> line[i] == '=')
  {
    if line == "" || line[0] == '=' then 0
    else EqualsAt(line[1..]) + 1
  }

  function Add(m: TranslationMapSet, outer: string, inner: string, value: string): TranslationMapSet {
    m[outer := (if outer in m then m[outer] else map[])[inner := value]]
  }

  /** Lines in order. A header is cut by its first and last byte; that fails on a lone
      bracket and inside a last character of more than one byte. */
  function Load(lines: seq<string>, key: string, m: TranslationMapSet, keyFirst: bool): Loaded
    decreases lines
  {
    if lines == [] then Fine(m)
    else
      var line := lines[0];
      if line != "" && line[0] == '[' then
        if |line| < 2 || line[|line| - 1] >= 128 as char then Panic
        else Load(lines[1..], line[1..|line| - 1], m, keyFirst)
      else
        var i := EqualsAt(line);
        if i == |line| then NoEquals(line)
        else
          var lang, value := Trim(line[..i]), Trim(line[i + 1..]);
          Load(lines[1..], key, if keyFirst then Add(m, key, lang, value) else Add(m, lang, key, value), keyFirst)
  }

  function Deserialize(input: string, keyFirst: bool): Loaded {
    Load(Clean(Split(input)), "", map[], keyFirst)
  }

  // -------------------------------------------------------------- transposition

  /** The same translations, keyed the other way round; no entry is empty. */
  ghost predicate Transposed(a: TranslationMapSet, b: TranslationMapSet) {
    && (forall x :: x in a ==> a[x] != map[])
    && (forall y :: y in b ==> b[y] != map[])
    && (forall x, y :: x in a && y in a[x] ==> y in b && x in b[y] && b[y][x] == a[x][y])
    && (forall x, y :: y in b && x in b[y] ==> x in a && y in a[x])
  }

  lemma AddTransposed(a: TranslationMapSet, b: TranslationMapSet, x: string, y: string, value: string)
    requires Transposed(a, b)
    ensures Transposed(Add(a, x, y, value), Add(b, y, x, value))
  {
    assert Add(a, x, y, value)[x][y] == value && Add(b, y, x, value)[y][x] == value;
  }

  lemma {:induction false} LoadTransposed(lines: seq<string>, key: string, a: TranslationMapSet, b: TranslationMapSet)
    requires Transposed(a, b)
    ensures var keyed, byLang := Load(lines, key, a, true), Load(lines, key, b, false);
      if keyed.Fine? then byLang.Fine? && Transposed(keyed.found, byLang.found) else byLang == keyed
  {
    hide Transposed, Add, Trim, EqualsAt;
    if lines != [] {
      var line := lines[0];
      if line != "" && line[0] == '[' {
        if |line| >= 2 {
          LoadTransposed(lines[1..], line[1..|line| - 1], a, b);
        }
      } else {
        var i := EqualsAt(line);
        if i < |line| {
          var lang, value := Trim(line[..i]), Trim(line[i + 1..]);
          AddTransposed(a, b, key, lang, value);
          LoadTransposed(lines[1..], key, Add(a, key, lang, value), Add(b, lang, key, value));
        }
      }
    }
  }

  lemma NothingTransposed()
    ensures Transposed(map[], map[])
  {
  }

  /** Loading by language gives the transpose of loading by key, for every text; and they
      fail together, in the same way. */
  lemma LoadingsAreTransposed(input: string)
    ensures var keyed, byLang := Deserialize(input, true), Deserialize(input, false);
      if keyed.Fine? then byLang.Fine? && Transposed(keyed.found, byLang.found) else byLang == keyed
  {
    hide Load, Clean, Split;
    NothingTransposed();
    LoadTransposed(Clean(Split(input)), "", map[], map[]);
  }

  /** A header that cannot be cut: a lone bracket, or one that ends in a character of more
      than one byte. */
  predicate BadHeader(line: string) {
    line != "" && line[0] == '[' && (|line| == 1 || line[|line| - 1] >= 128 as char)
  }

  /** Neither a header nor a row. */
  predicate BadRow(line: string) {
    (line == "" || line[0] != '[') && '=' !in line
  }

  /** Line k is the first bad one. */
  ghost predicate FirstBad(lines: seq<string>, k: nat) {
    && k < |lines| && (BadHeader(lines[k]) || BadRow(lines[k]))
    && forall j :: 0 <= j < k ==> !BadHeader(lines[j]) && !BadRow(lines[j])
  }

  /** Loading fails exactly at the first bad line: it panics at a header and reports a row. */
  lemma {:induction false} LoadFailsIff(lines: seq<string>, key: string, m: TranslationMapSet, keyFirst: bool)
    ensures Load(lines, key, m, keyFirst).Fine? <==> forall k: nat :: !FirstBad(lines, k)
    ensures forall k: nat :: FirstBad(lines, k) ==>
      Load(lines, key, m, keyFirst) == if BadHeader(lines[k]) then Panic else NoEquals(lines[k])
  {
    hide Trim, Add;
    if lines != [] {
      var line, rest := lines[0], lines[1..];
      if BadHeader(line) || BadRow(line) {
        assert FirstBad(lines, 0);
        assert EqualsAt(line) < |line| ==> line[EqualsAt(line)] == '=';
        assert forall k: nat :: FirstBad(lines, k) ==> k == 0;
      } else {
        assert forall k: nat :: FirstBad(lines, k) ==> k > 0 && FirstBad(rest, k - 1);
        assert forall k: nat :: FirstBad(rest, k) ==> FirstBad(lines, k + 1);
        LoadGoesOn(line, rest, key, m, keyFirst);
        hide Load;
        if line[0] == '[' {
          LoadFailsIff(rest, line[1..|line| - 1], m, keyFirst);
        } else {
          var i := EqualsAt(line);
          var lang, value := Trim(line[..i]), Trim(line[i + 1..]);
          LoadFailsIff(rest, key, if keyFirst then Add(m, key, lang, value) else Add(m, lang, key, value), keyFirst);
        }
      }
    }
  }

  lemma LoadGoesOn(line: string, rest: seq<string>, key: string, m: TranslationMapSet, keyFirst: bool)
    requires !BadHeader(line) && !BadRow(line)
    ensures line != ""
    ensures line[0] != '[' ==> EqualsAt(line) < |line|
    ensures forall lines :: lines != [] && lines[0] == line && lines[1..] == rest ==>
      Load(lines, key, m, keyFirst) ==
        if line[0] == '[' then Load(rest, line[1..|line| - 1], m, keyFirst)
        else
          var i := EqualsAt(line);
          var lang, value := Trim(line[..i]), Trim(line[i + 1..]);
          Load(rest, key, if keyFirst then Add(m, key, lang, value) else Add(m, lang, key, value), keyFirst)
  {
    hide Trim, Add;
  }

  // --------------------------------------------------------------------- writing

  datatype Row = Row(lang: string, value: string)

  datatype Entry = Entry(key: string, rows: seq<Row>)

  predicate Less(a: string, b: string) {
    if b == "" then false
    else if a == "" then true
    else a[0] < b[0] || (a[0] == b[0] && Less(a[1..], b[1..]))
  }

  ghost predicate Ascending(xs: seq<string>) {
    forall i, j :: 0 <= i < j < |xs| ==> Less(xs[i], xs[j])
  }

  function RowsMap(rows: seq<Row>): TranslationMap {
    if rows == [] then map[] else map[rows[0].lang := rows[0].value] + RowsMap(rows[1..])
  }

  function EntriesMap(entries: seq<Entry>): TranslationMapSet {
    if entries == [] then map[] else map[entries[0].key := RowsMap(entries[0].rows)] + EntriesMap(entries[1..])
  }

  function Langs(rows: seq<Row>): seq<string> {
    seq(|rows|, i requires 0 <= i < |rows| => rows[i].lang)
  }

  function Keys(entries: seq<Entry>): seq<string> {
    seq(|entries|, i requires 0 <= i < |entries| => entries[i].key)
  }

  /** The entries list the map: keys in order, English first, other languages in order. */
  ghost predicate Lists(entries: seq<Entry>, m: TranslationMapSet) {
    && EntriesMap(entries) == m && Ascending(Keys(entries))
    && forall i :: 0 <= i < |entries| ==> RowsOk(entries[i].rows)
  }

  ghost predicate RowsOk(rows: seq<Row>) {
    rows != [] && rows[0].lang == "en" && "en" !in Langs(rows[1..]) && Ascending(Langs(rows[1..]))
  }

  const COMMENT := "# The translations are partially generated by copilot"

  function RowLine(row: Row): string {
    row.lang + " = " + row.value
  }

  function RowLines(rows: seq<Row>): seq<string> {
    if rows == [] then [] else [RowLine(rows[0])] + RowLines(rows[1..])
  }

  function EntryLines(entries: seq<Entry>): seq<string> {
    if entries == [] then []
    else ["", "[" + entries[0].key + "]"] + RowLines(entries[0].rows) + EntryLines(entries[1..])
  }

  /** The text of some lines, each ended by a newline. */
  function Text(lines: seq<string>): string {
    if lines == [] then "" else lines[0] + "\n" + Text(lines[1..])
  }

  function Serialized(entries: seq<Entry>): string {
    Text(["", COMMENT] + EntryLines(entries))
  }

  // ------------------------------------------------------------------ round trip

  /** What a file can hold. */
  predicate StorableRow(row: Row) {
    && '\n' !in row.lang && '=' !in row.lang && IsTrimmed(row.lang)
    && (row.lang != "" ==> row.lang[0] != '[' && row.lang[0] != '#')
    && '\n' !in row.value && IsTrimmed(row.value)
  }

  ghost predicate Storable(m: TranslationMapSet) {
    forall key :: key in m ==>
      && '\n' !in key
      && forall lang :: lang in m[key] ==> StorableRow(Row(lang, m[key][lang]))
  }

  lemma {:induction false} SplitLine(line: string, rest: string)
    requires '\n' !in line
    ensures Split(line + "\n" + rest) == [line] + Split(rest)
  {
    var s := line + "\n" + rest;
    if line == "" {
      assert s[1..] == rest;
    } else {
      assert s[1..] == line[1..] + "\n" + rest;
      assert forall c :: c in line[1..] ==> c in line;
      SplitLine(line[1..], rest);
      assert line == [line[0]] + line[1..];
    }
  }

  lemma {:induction false} SplitText(lines: seq<string>)
    requires forall i :: 0 <= i < |lines| ==> '\n' !in lines[i]
    ensures Split(Text(lines)) == lines + [""]
  {
    if lines != [] {
      SplitLine(lines[0], Text(lines[1..]));
      SplitText(lines[1..]);
      assert [lines[0]] + (lines[1..] + [""]) == lines + [""];
    }
  }

  // A row "lang = value" is trimmed at its ends, cut at its equals sign and trimmed again.

  lemma TrimmedStays(s: string)
    requires IsTrimmed(s)
    ensures Trim(s) == s
  {
  }

  /** A space after a trimmed text. */
  lemma TrimSpaceAfter(s: string, space: string)
    requires IsTrimmed(s) && |space| == 1 && IsWhitespace(space[0])
    ensures TrimStart(s + space) == (if s == "" then "" else s + space)
    ensures Trim(TrimStart(s + space)) == s
  {
    var t := s + space;
    assert t[..|s|] == s && (s == "" ==> t[1..] == "");
    assert t[|t| - 1] == space[0];
    if s != "" {
      assert t[0] == s[0];
      assert TrimEnd(t) == TrimEnd(s) == s;
    }
  }

  /** A space before one. */
  lemma TrimSpaceBefore(s: string, space: string)
    requires IsTrimmed(s) && |space| == 1 && IsWhitespace(space[0])
    ensures TrimEnd(space + s) == (if s == "" then "" else space + s)
    ensures Trim(TrimEnd(space + s)) == s
  {
    var t := space + s;
    assert t[1..] == s && t[0] == space[0];
    if s == "" {
      assert t[..0] == "";
    } else {
      assert t[|t| - 1] == s[|s| - 1];
      assert TrimStart(t) == TrimStart(s) == s;
    }
  }

  /** Trimming stops at a character that is not whitespace. */
  lemma {:induction false} TrimStartBefore(x: string, tail: string)
    requires tail != "" && !IsWhitespace(tail[0])
    ensures TrimStart(x + tail) == TrimStart(x) + tail
  {
    if x == "" {
      assert x + tail == tail;
    } else if IsWhitespace(x[0]) {
      assert (x + tail)[1..] == x[1..] + tail;
      TrimStartBefore(x[1..], tail);
    }
  }

  lemma {:induction false} TrimEndAfter(head: string, y: string)
    requires head != "" && !IsWhitespace(head[|head| - 1])
    ensures TrimEnd(head + y) == head + TrimEnd(y)
  {
    if y == "" {
      assert head + y == head;
    } else if IsWhitespace(y[|y| - 1]) {
      assert (head + y)[..|head + y| - 1] == head + y[..|y| - 1];
      TrimEndAfter(head, y[..|y| - 1]);
    }
  }

  lemma {:induction false} EqualsIsAt(x: string, tail: string)
    requires '=' !in x && tail != "" && tail[0] == '='
    ensures EqualsAt(x + tail) == |x|
  {
    if x == "" {
      assert x + tail == tail;
    } else {
      assert (x + tail)[1..] == x[1..] + tail;
      EqualsIsAt(x[1..], tail);
    }
  }

  /** Trimming around an equals sign. */
  lemma TrimAround(x: string, equals: string, y: string)
    requires |equals| == 1 && !IsWhitespace(equals[0])
    ensures Trim(x + (equals + y)) == TrimStart(x) + (equals + TrimEnd(y))
  {
    var a := TrimStart(x);
    TrimStartBefore(x, equals + y);
    Associate(a, equals, y);
    TrimEndAfter(a + equals, y);
    Associate(a, equals, TrimEnd(y));
  }

  lemma RowParts(row: Row)
    ensures RowLine(row) == (row.lang + " ") + ("=" + (" " + row.value))
  {
  }

  /** What the reader makes of a row. */
  lemma RowIsCut(row: Row)
    requires StorableRow(row)
    ensures var line := Trim(RowLine(row)); var i := EqualsAt(line);
      && line != "" && line[0] != '[' && line[0] != '#' && i < |line|
      && Trim(line[..i]) == row.lang && Trim(line[i + 1..]) == row.value
  {
    hide RowLine, Trim, TrimStart, TrimEnd;
    var x, y := row.lang + " ", " " + row.value;
    RowParts(row);
    TrimAround(x, "=", y);
    TrimSpaceAfter(row.lang, " ");
    TrimSpaceBefore(row.value, " ");
    var a, b := TrimStart(x), TrimEnd(y);
    EqualsIsAt(a, "=" + b);
    CutBetween(a, '=', b);
    assert a != "" ==> (a + ("=" + b))[0] == row.lang[0];
    hide IsWhitespace, EqualsAt;
  }

  lemma CutBetween(a: string, c: char, b: string)
    ensures var line := a + ([c] + b);
      line[..|a|] == a && line[|a|] == c && line[|a| + 1..] == b
  {
  }

  lemma CleanLine(line: string, lines: seq<string>)
    ensures Clean([line] + lines) == (if IsKept(Trim(line)) then [Trim(line)] else []) + Clean(lines)
  {
    assert ([line] + lines)[1..] == lines;
  }

  lemma LoadLine(line: string, lines: seq<string>, key: string, m: TranslationMapSet)
    requires line != "" && line[0] != '[' && EqualsAt(line) < |line|
    ensures var i := EqualsAt(line);
      Load([line] + lines, key, m, true) == Load(lines, key, Add(m, key, Trim(line[..i]), Trim(line[i + 1..])), true)
  {
    hide Trim, EqualsAt, Add;
    assert ([line] + lines)[1..] == lines;
  }

  lemma LoadRow(row: Row, lines: seq<string>, key: string, m: TranslationMapSet)
    requires StorableRow(row)
    ensures Load(Clean([RowLine(row)] + lines), key, m, true) ==
      Load(Clean(lines), key, Add(m, key, row.lang, row.value), true)
  {
    hide RowLine, Trim, EqualsAt, Add, Load, Clean;
    RowIsCut(row);
    CleanLine(RowLine(row), lines);
    LoadLine(Trim(RowLine(row)), Clean(lines), key, m);
  }

  function Under(m: TranslationMapSet, key: string): TranslationMap {
    if key in m then m[key] else map[]
  }

  lemma MergeStep(under: TranslationMap, row: Row, rest: TranslationMap)
    ensures under[row.lang := row.value] + rest == under + (map[row.lang := row.value] + rest)
  {
  }

  lemma UpdateTwice(m: TranslationMapSet, key: string, a: TranslationMap, b: TranslationMap)
    ensures m[key := a][key := b] == m[key := b]
  {
  }

  lemma AddIs(m: TranslationMapSet, key: string, rows: seq<Row>)
    requires rows != []
    ensures var m1 := Add(m, key, rows[0].lang, rows[0].value);
      m1[key := Under(m1, key) + RowsMap(rows[1..])] == m[key := Under(m, key) + RowsMap(rows)]
  {
    var under := Under(m, key);
    MergeStep(under, rows[0], RowsMap(rows[1..]));
    UpdateTwice(m, key, under[rows[0].lang := rows[0].value], under + RowsMap(rows));
  }

  lemma {:induction false} LoadRows(rows: seq<Row>, lines: seq<string>, key: string, m: TranslationMapSet)
    requires key in m && forall i :: 0 <= i < |rows| ==> StorableRow(rows[i])
    ensures Load(Clean(RowLines(rows) + lines), key, m, true) ==
      Load(Clean(lines), key, m[key := m[key] + RowsMap(rows)], true)
  {
    hide Load, Clean, RowLine, StorableRow;
    if rows == [] {
      assert RowLines(rows) + lines == lines;
      assert m[key] + RowsMap(rows) == m[key] && m[key := m[key]] == m;
    } else {
      Associate([RowLine(rows[0])], RowLines(rows[1..]), lines);
      LoadRow(rows[0], RowLines(rows[1..]) + lines, key, m);
      AddIs(m, key, rows);
      LoadRows(rows[1..], lines, key, Add(m, key, rows[0].lang, rows[0].value));
    }
  }

  /** The rows of a section that is new. */
  lemma LoadSection(rows: seq<Row>, lines: seq<string>, key: string, m: TranslationMapSet)
    requires rows != [] && key !in m && forall i :: 0 <= i < |rows| ==> StorableRow(rows[i])
    ensures Load(Clean(RowLines(rows) + lines), key, m, true) == Load(Clean(lines), key, m[key := RowsMap(rows)], true)
  {
    hide Load, Clean, RowLine, StorableRow;
    Associate([RowLine(rows[0])], RowLines(rows[1..]), lines);
    LoadRow(rows[0], RowLines(rows[1..]) + lines, key, m);
    AddIs(m, key, rows);
    LoadRows(rows[1..], lines, key, Add(m, key, rows[0].lang, rows[0].value));
    assert map[] + RowsMap(rows) == RowsMap(rows);
  }

  lemma HeaderShape(key: string)
    ensures var header := "[" + key + "]";
      && |header| == |key| + 2 && header[0] == '[' && header[|header| - 1] == ']'
      && header[1..|header| - 1] == key
  {
  }

  lemma HeaderIsKept(header: string)
    requires |header| >= 2 && header[0] == '[' && header[|header| - 1] == ']'
    ensures Trim(header) == header && IsKept(header)
  {
    hide Trim;
    TrimmedStays(header);
  }

  lemma LoadSlice(header: string, lines: seq<string>, before: string, m: TranslationMapSet)
    requires |header| >= 2 && header[0] == '[' && header[|header| - 1] == ']'
    ensures Load([header] + lines, before, m, true) == Load(lines, header[1..|header| - 1], m, true)
  {
    hide Trim, EqualsAt, Add;
    assert ([header] + lines)[1..] == lines;
  }

  lemma SkipBlank(lines: seq<string>)
    ensures Clean([""] + lines) == Clean(lines)
  {
    hide IsWhitespace;
    TrimmedStays("");
    assert ([""] + lines)[1..] == lines;
    assert [] + Clean(lines) == Clean(lines);
  }

  lemma LoadHeaderLine(header: string, lines: seq<string>, before: string, m: TranslationMapSet)
    requires |header| >= 2 && header[0] == '[' && header[|header| - 1] == ']'
    ensures Load(Clean([header] + lines), before, m, true) == Load(Clean(lines), header[1..|header| - 1], m, true)
  {
    hide Load, Clean, Trim, IsKept;
    HeaderIsKept(header);
    CleanLine(header, lines);
    LoadSlice(header, Clean(lines), before, m);
  }

  lemma LoadHeader(key: string, lines: seq<string>, before: string, m: TranslationMapSet)
    ensures Load(Clean(["", "[" + key + "]"] + lines), before, m, true) == Load(Clean(lines), key, m, true)
  {
    hide Load, Clean;
    var header := "[" + key + "]";
    HeaderShape(key);
    assert ["", header] + lines == [""] + ([header] + lines);
    SkipBlank([header] + lines);
    LoadHeaderLine(header, lines, before, m);
  }

  lemma EntryLinesIs(entries: seq<Entry>, lines: seq<string>)
    requires entries != []
    ensures EntryLines(entries) + lines ==
      ["", "[" + entries[0].key + "]"] + (RowLines(entries[0].rows) + (EntryLines(entries[1..]) + lines))
  {
    var header, rows, rest := ["", "[" + entries[0].key + "]"], RowLines(entries[0].rows), EntryLines(entries[1..]);
    Associate(header + rows, rest, lines);
    Associate(header, rows, rest + lines);
  }

  ghost predicate StorableEntries(entries: seq<Entry>) {
    forall i :: 0 <= i < |entries| ==>
      && entries[i].rows != [] && '\n' !in entries[i].key
      && forall j :: 0 <= j < |entries[i].rows| ==> StorableRow(entries[i].rows[j])
  }

  lemma {:induction false} LoadEntries(entries: seq<Entry>, lines: seq<string>, before: string, m: TranslationMapSet)
    returns (after: string)
    requires StorableEntries(entries)
    requires forall i :: 0 <= i < |entries| ==> entries[i].key !in m
    requires forall i, j :: 0 <= i < j < |entries| ==> entries[i].key != entries[j].key
    ensures Load(Clean(EntryLines(entries) + lines), before, m, true) ==
      Load(Clean(lines), after, m + EntriesMap(entries), true)
  {
    hide Load, Clean, RowLines, StorableRow, RowsMap;
    if entries == [] {
      assert EntryLines(entries) + lines == lines && m + EntriesMap(entries) == m;
      after := before;
    } else {
      var e := entries[0];
      var rest := EntryLines(entries[1..]) + lines;
      EntryLinesIs(entries, lines);
      LoadHeader(e.key, RowLines(e.rows) + rest, before, m);
      LoadSection(e.rows, rest, e.key, m);
      var m1 := m[e.key := RowsMap(e.rows)];
      after := LoadEntries(entries[1..], lines, e.key, m1);
      EntriesMapMore(entries, m);
    }
  }

  lemma EntriesMapMore(entries: seq<Entry>, m: TranslationMapSet)
    requires entries != []
    requires forall j :: 0 < j < |entries| ==> entries[0].key != entries[j].key
    ensures m[entries[0].key := RowsMap(entries[0].rows)] + EntriesMap(entries[1..]) == m + EntriesMap(entries)
  {
  }

  // -------------------------------------------------------- storing and loading

  lemma CommentParts()
    ensures COMMENT == "# The translations" + (" are partially" + (" generated" + " by copilot"))
  {
  }

  lemma CommentIsLine()
    ensures COMMENT != "" && COMMENT[0] == '#' && '\n' !in COMMENT
  {
    CommentParts();
    assert '\n' !in "# The translations" && '\n' !in " are partially";
    assert '\n' !in " generated" && '\n' !in " by copilot";
  }

  lemma SkipComment(comment: string, lines: seq<string>)
    requires comment != "" && comment[0] == '#'
    ensures Clean([comment] + lines) == Clean(lines)
  {
    hide IsWhitespace, Trim;
    CommentStart(comment);
    assert ([comment] + lines)[1..] == lines;
    assert [] + Clean(lines) == Clean(lines);
  }

  lemma CommentIsSkipped(lines: seq<string>)
    ensures Clean(["", COMMENT] + lines) == Clean(lines)
  {
    hide Clean;
    CommentIsLine();
    assert ["", COMMENT] + lines == [""] + ([COMMENT] + lines);
    SkipBlank([COMMENT] + lines);
    SkipComment(COMMENT, lines);
  }

  /** A line that starts with a hash sign is dropped. */
  lemma CommentStart(line: string)
    requires line != "" && line[0] == '#'
    ensures !IsKept(Trim(line))
  {
    TrimmedStarts(line);
  }

  lemma {:induction false} EntriesMapAt(entries: seq<Entry>, i: nat)
    requires i < |entries| && forall j, k :: 0 <= j < k < |entries| ==> entries[j].key != entries[k].key
    ensures entries[i].key in EntriesMap(entries) && EntriesMap(entries)[entries[i].key] == RowsMap(entries[i].rows)
  {
    if i > 0 {
      EntriesMapAt(entries[1..], i - 1);
    } else {
      NotAmong(entries[1..], entries[0].key);
    }
  }

  lemma {:induction false} NotAmong(entries: seq<Entry>, key: string)
    requires forall k :: 0 <= k < |entries| ==> entries[k].key != key
    ensures key !in EntriesMap(entries)
  {
    if entries != [] {
      NotAmong(entries[1..], key);
    }
  }

  lemma {:induction false} RowsMapAt(rows: seq<Row>, j: nat)
    requires j < |rows| && forall i, k :: 0 <= i < k < |rows| ==> rows[i].lang != rows[k].lang
    ensures rows[j].lang in RowsMap(rows) && RowsMap(rows)[rows[j].lang] == rows[j].value
  {
    if j > 0 {
      RowsMapAt(rows[1..], j - 1);
    } else {
      NotAmongRows(rows[1..], rows[0].lang);
    }
  }

  lemma {:induction false} NotAmongRows(rows: seq<Row>, lang: string)
    requires forall k :: 0 <= k < |rows| ==> rows[k].lang != lang
    ensures lang !in RowsMap(rows)
  {
    if rows != [] {
      NotAmongRows(rows[1..], lang);
    }
  }

  lemma {:induction false} LessIsStrict(a: string)
    ensures !Less(a, a)
  {
    if a != "" {
      LessIsStrict(a[1..]);
    }
  }

  lemma KeysDiffer(entries: seq<Entry>)
    requires Ascending(Keys(entries))
    ensures forall i, j :: 0 <= i < j < |entries| ==> entries[i].key != entries[j].key
  {
    forall i, j | 0 <= i < j < |entries| ensures entries[i].key != entries[j].key {
      assert Less(Keys(entries)[i], Keys(entries)[j]);
      LessIsStrict(entries[i].key);
    }
  }

  lemma LangsDiffer(rows: seq<Row>)
    requires RowsOk(rows)
    ensures forall i, j :: 0 <= i < j < |rows| ==> rows[i].lang != rows[j].lang
  {
    var others := Langs(rows[1..]);
    forall i, j | 0 <= i < j < |rows| ensures rows[i].lang != rows[j].lang {
      assert others[j - 1] == rows[j].lang;
      if i > 0 {
        assert Less(others[i - 1], others[j - 1]);
        LessIsStrict(rows[i].lang);
      }
    }
  }

  /** The entries of a storable map are storable. */
  lemma EntriesStorable(entries: seq<Entry>, m: TranslationMapSet)
    requires Lists(entries, m) && Storable(m)
    ensures StorableEntries(entries)
  {
    hide StorableRow;
    KeysDiffer(entries);
    forall i | 0 <= i < |entries|
      ensures entries[i].rows != [] && '\n' !in entries[i].key
      ensures forall j :: 0 <= j < |entries[i].rows| ==> StorableRow(entries[i].rows[j])
    {
      var e := entries[i];
      EntriesMapAt(entries, i);
      assert RowsOk(e.rows);
      LangsDiffer(e.rows);
      forall j | 0 <= j < |e.rows| ensures StorableRow(e.rows[j]) {
        RowsMapAt(e.rows, j);
        assert e.rows[j] == Row(e.rows[j].lang, m[e.key][e.rows[j].lang]);
      }
    }
  }

  lemma {:induction false} RowLinesAreLines(rows: seq<Row>)
    requires forall j :: 0 <= j < |rows| ==> StorableRow(rows[j])
    ensures forall i :: 0 <= i < |RowLines(rows)| ==> '\n' !in RowLines(rows)[i]
  {
    if rows != [] {
      RowLinesAreLines(rows[1..]);
    }
  }

  lemma {:induction false} EntryLinesAreLines(entries: seq<Entry>)
    requires StorableEntries(entries)
    ensures forall i :: 0 <= i < |EntryLines(entries)| ==> '\n' !in EntryLines(entries)[i]
  {
    if entries != [] {
      RowLinesAreLines(entries[0].rows);
      EntryLinesAreLines(entries[1..]);
    }
  }

  lemma SerializedIsSplit(entries: seq<Entry>)
    requires StorableEntries(entries)
    ensures Split(Serialized(entries)) == ["", COMMENT] + (EntryLines(entries) + [""])
  {
    EntryLinesAreLines(entries);
    CommentIsLine();
    SplitText(["", COMMENT] + EntryLines(entries));
    Associate(["", COMMENT], EntryLines(entries), [""]);
  }

  /** Storing and loading: a map with what a file can hold comes back as it was. */
  lemma StoredIsLoaded(entries: seq<Entry>, m: TranslationMapSet)
    requires Lists(entries, m) && Storable(m)
    ensures Deserialize(Serialized(entries), true) == Fine(m)
  {
    hide Load, Clean, Split, Storable;
    EntriesStorable(entries, m);
    KeysDiffer(entries);
    SerializedIsSplit(entries);
    CommentIsSkipped(EntryLines(entries) + [""]);
    var after := LoadEntries(entries, [""], "", map[]);
    NothingLeft(after, map[] + EntriesMap(entries));
    assert map[] + EntriesMap(entries) == m;
  }

  lemma NothingLeft(key: string, m: TranslationMapSet)
    ensures Load(Clean([""]), key, m, true) == Fine(m)
  {
    TrimmedStays("");
    assert [""] + [] == [""];
    CleanLine("", []);
  }

  // What is loaded by key can be stored: conversely to the above.

  lemma TrimmedLine(line: string)
    requires '\n' !in line
    ensures '\n' !in Trim(line) && IsTrimmed(Trim(line))
  {
    hide Trim, IsTrimmed;
    TrimTrims(line);
  }

  ghost predicate CleanLines(lines: seq<string>) {
    forall i :: 0 <= i < |lines| ==> '\n' !in lines[i] && IsTrimmed(lines[i]) && IsKept(lines[i])
  }

  lemma {:induction false} CleanIsClean(lines: seq<string>)
    requires forall i :: 0 <= i < |lines| ==> '\n' !in lines[i]
    ensures CleanLines(Clean(lines))
  {
    hide Trim, IsTrimmed, IsWhitespace;
    if lines != [] {
      TrimmedLine(lines[0]);
      CleanIsClean(lines[1..]);
    }
  }

  lemma TrimmedPart(part: string, line: string)
    requires forall c :: c in part ==> c in line
    ensures '\n' !in line ==> '\n' !in Trim(part)
    ensures '=' !in part ==> '=' !in Trim(part)
    ensures IsTrimmed(Trim(part))
  {
    hide Trim, IsTrimmed;
    TrimTrims(part);
  }

  lemma TrimmedStarts(s: string)
    requires s != "" && !IsWhitespace(s[0])
    ensures Trim(s) != "" ==> Trim(s)[0] == s[0]
  {
    hide IsWhitespace;
    assert TrimStart(s) == s;
    TrimEndIsPrefix(s);
  }

  lemma RowCanBeStored(line: string)
    requires '\n' !in line && IsTrimmed(line) && IsKept(line) && line[0] != '[' && EqualsAt(line) < |line|
    ensures var i := EqualsAt(line); StorableRow(Row(Trim(line[..i]), Trim(line[i + 1..])))
  {
    hide IsWhitespace, Trim;
    var i := EqualsAt(line);
    TrimmedPart(line[..i], line);
    TrimmedPart(line[i + 1..], line);
    if i > 0 {
      TrimmedStarts(line[..i]);
    } else {
      TrimmedStays("");
    }
  }

  lemma AddCanBeStored(m: TranslationMapSet, key: string, row: Row)
    requires Storable(m) && '\n' !in key && StorableRow(row)
    ensures Storable(Add(m, key, row.lang, row.value))
  {
    hide StorableRow;
    var m1 := Add(m, key, row.lang, row.value);
    forall k, lang | k in m1 && lang in m1[k] ensures StorableRow(Row(lang, m1[k][lang])) {
      if k == key && lang == row.lang {
        assert Row(lang, m1[k][lang]) == row;
      }
    }
  }

  lemma {:induction false} LoadedCanBeStored(lines: seq<string>, key: string, m: TranslationMapSet)
    requires CleanLines(lines) && '\n' !in key && Storable(m)
    ensures Load(lines, key, m, true).Fine? ==> Storable(Load(lines, key, m, true).found)
  {
    hide Storable, StorableRow, Trim, Add, IsTrimmed;
    if lines != [] {
      var line := lines[0];
      assert IsKept(line) && IsTrimmed(line);
      if line[0] == '[' {
        if |line| >= 2 {
          assert forall c :: c in line[1..|line| - 1] ==> c in line;
          LoadedCanBeStored(lines[1..], line[1..|line| - 1], m);
        }
      } else {
        var i := EqualsAt(line);
        if i < |line| {
          var row := Row(Trim(line[..i]), Trim(line[i + 1..]));
          RowCanBeStored(line);
          AddCanBeStored(m, key, row);
          LoadedCanBeStored(lines[1..], key, Add(m, key, row.lang, row.value));
        }
      }
    }
  }

  /** The round trip holds exactly for the maps a file can hold. */
  lemma RoundTripIff(entries: seq<Entry>, m: TranslationMapSet)
    requires Lists(entries, m)
    ensures Deserialize(Serialized(entries), true) == Fine(m) <==> Storable(m)
  {
    hide Load, Clean, Storable;
    if Storable(m) {
      StoredIsLoaded(entries, m);
    }
    var text := Serialized(entries);
    CleanIsClean(Split(text));
    EmptyCanBeStored();
    LoadedCanBeStored(Clean(Split(text)), "", map[]);
  }

  lemma EmptyCanBeStored()
    ensures Storable(map[])
  {
  }

  // A map has only one listing, so the file does not depend on the order of a hash map.

  lemma {:induction false} AscendingUnique(xs: seq<string>, ys: seq<string>)
    requires Ascending(xs) && Ascending(ys) && forall x :: x in xs <==> x in ys
    ensures xs == ys
  {
    assert (xs != [] ==> xs[0] in ys) && (ys != [] ==> ys[0] in xs);
    if xs != [] {
      FirstIsLeast(xs, ys[0]);
      FirstIsLeast(ys, xs[0]);
      NotBothLess(xs[0], ys[0]);
      forall x ensures x in xs[1..] <==> x in ys[1..] {
        InTail(xs, x);
        InTail(ys, x);
      }
      AscendingUnique(xs[1..], ys[1..]);
      assert xs == [xs[0]] + xs[1..] && ys == [ys[0]] + ys[1..];
    }
  }

  lemma {:induction false} NotBothLess(a: string, b: string)
    ensures !(Less(a, b) && Less(b, a))
  {
    if a != "" && b != "" {
      NotBothLess(a[1..], b[1..]);
    }
  }

  lemma FirstIsLeast(xs: seq<string>, x: string)
    requires Ascending(xs) && x in xs
    ensures xs[0] == x || Less(xs[0], x)
  {
    var i :| 0 <= i < |xs| && xs[i] == x;
  }

  lemma InTail(xs: seq<string>, x: string)
    requires Ascending(xs) && xs != []
    ensures x in xs[1..] <==> x in xs && x != xs[0]
  {
    LessIsStrict(xs[0]);
    assert forall i :: 1 <= i < |xs| ==> Less(xs[0], xs[i]);
    assert xs == [xs[0]] + xs[1..];
  }

  lemma {:induction false} EntriesMapKeys(entries: seq<Entry>, key: string)
    ensures key in EntriesMap(entries) <==> key in Keys(entries)
  {
    if entries != [] {
      EntriesMapKeys(entries[1..], key);
      assert Keys(entries) == [entries[0].key] + Keys(entries[1..]);
    }
  }

  lemma {:induction false} RowsMapLangs(rows: seq<Row>, lang: string)
    ensures lang in RowsMap(rows) <==> lang in Langs(rows)
  {
    if rows != [] {
      RowsMapLangs(rows[1..], lang);
      assert Langs(rows) == [rows[0].lang] + Langs(rows[1..]);
    }
  }

  lemma RowsUnique(a: seq<Row>, b: seq<Row>)
    requires RowsOk(a) && RowsOk(b) && RowsMap(a) == RowsMap(b)
    ensures a == b
  {
    forall lang ensures lang in Langs(a[1..]) <==> lang in Langs(b[1..]) {
      RowsMapLangs(a, lang);
      RowsMapLangs(b, lang);
      assert Langs(a) == ["en"] + Langs(a[1..]) && Langs(b) == ["en"] + Langs(b[1..]);
    }
    AscendingUnique(Langs(a[1..]), Langs(b[1..]));
    assert |a| == |Langs(a[1..])| + 1 == |b|;
    LangsDiffer(a);
    LangsDiffer(b);
    forall j | 0 <= j < |a| ensures a[j] == b[j] {
      assert j > 0 ==> Langs(a[1..])[j - 1] == a[j].lang && Langs(b[1..])[j - 1] == b[j].lang;
      RowsMapAt(a, j);
      RowsMapAt(b, j);
    }
  }

  /** A map is listed in one way only. */
  lemma ListsUnique(a: seq<Entry>, b: seq<Entry>, m: TranslationMapSet)
    requires Lists(a, m) && Lists(b, m)
    ensures a == b
  {
    hide RowsOk;
    forall key ensures key in Keys(a) <==> key in Keys(b) {
      EntriesMapKeys(a, key);
      EntriesMapKeys(b, key);
    }
    AscendingUnique(Keys(a), Keys(b));
    assert |a| == |Keys(a)| == |b|;
    KeysDiffer(a);
    KeysDiffer(b);
    forall i | 0 <= i < |a| ensures a[i] == b[i] {
      assert Keys(a)[i] == a[i].key && Keys(b)[i] == b[i].key;
      EntriesMapAt(a, i);
      EntriesMapAt(b, i);
      RowsUnique(a[i].rows, b[i].rows);
    }
  }
}
