/** Loading, updating and storing translations, proved against Locale. */
module LocaleFiles {
  import opened Locale
  import opened Options
  import opened Sequences

  // --------------------------------------------------------------------- loading

  /** Loads a locale file; a slice that would panic ends the loop. */
  method LoadText(input: string, keyFirst: bool) returns (r: Loaded)
    ensures r == Deserialize(input, keyFirst)
  {
    hide Trim, EqualsAt, Add, Clean, Split;
    var lines := CleanLinesOf(Split(input));
    var translations: TranslationMapSet := map[];
    var key := "";
    for i := 0 to |lines|
      invariant Load(lines, "", map[], keyFirst) == Load(lines[i..], key, translations, keyFirst)
    {
      var line := lines[i];
      assert lines[i..][1..] == lines[i + 1..];
      if line != "" && line[0] == '[' {
        if |line| < 2 || line[|line| - 1] >= 128 as char {
          return Panic;
        }
        key := line[1..|line| - 1];
      } else {
        var equalIndex := EqualsAt(line);
        if equalIndex == |line| {
          return NoEquals(line);
        }
        var lang := Trim(line[..equalIndex]);
        var value := Trim(line[equalIndex + 1..]);
        if keyFirst {
          translations := Add(translations, key, lang, value);
        } else {
          translations := Add(translations, lang, key, value);
        }
      }
    }
    r := Fine(translations);
  }

  method CleanLinesOf(lines: seq<string>) returns (kept: seq<string>)
    ensures kept == Clean(lines)
  {
    hide Trim, IsKept;
    kept := [];
    for i := 0 to |lines|
      invariant kept + Clean(lines[i..]) == Clean(lines)
    {
      var line := Trim(lines[i]);
      assert lines[i..][1..] == lines[i + 1..];
      Associate(kept, if IsKept(line) then [line] else [], Clean(lines[i + 1..]));
      if IsKept(line) {
        kept := kept + [line];
      }
    }
  }

  // -------------------------------------------------------------------- updating

  /** The value of the last pair with the key. */
  function LastValue(keyValues: seq<(string, string)>, key: string): Option<string> {
    if keyValues == [] then None
    else
      var last := keyValues[|keyValues| - 1];
      if last.0 == key then Some(last.1) else LastValue(keyValues[..|keyValues| - 1], key)
  }

  /** m with the English texts of the pairs; other languages as they were in m. */
  ghost predicate IsUpdate(keyValues: seq<(string, string)>, m: TranslationMapSet, updated: TranslationMapSet) {
    && (forall k :: k in m ==> k in updated)
    && (forall k :: LastValue(keyValues, k).Some? ==> k in updated)
    && forall k :: k in updated ==>
         && (k in m || LastValue(keyValues, k).Some?)
         && (LastValue(keyValues, k).Some? ==>
               "en" in updated[k] && updated[k]["en"] == LastValue(keyValues, k).value)
         && (forall lang :: lang in updated[k] && (lang != "en" || LastValue(keyValues, k).None?) ==>
               k in m && lang in m[k] && updated[k][lang] == m[k][lang])
         && (k in m ==> m[k].Keys <= updated[k].Keys)
  }

  /** Keeps the translations of the keys in use and sets their English texts: exactly the
      keys in use remain, each with its last English text and the other languages it had. */
  method UpdateTranslations(keyValues: seq<(string, string)>, translations: TranslationMapSet)
    returns (updated: TranslationMapSet)
    ensures IsUpdate(keyValues, map k | k in translations && LastValue(keyValues, k).Some? :: translations[k], updated)
    ensures forall k :: k in updated <==> LastValue(keyValues, k).Some?
  {
    var used := set kv | kv in keyValues :: kv.0;
    forall k ensures k in used <==> LastValue(keyValues, k).Some? {
      UsedHasValue(keyValues, k);
    }
    updated := map k | k in translations && k in used :: translations[k];
    ghost var retained := updated;
    for i := 0 to |keyValues|
      invariant IsUpdate(keyValues[..i], retained, updated)
    {
      UpdateStep(keyValues[..i], retained, updated, keyValues[i]);
      assert keyValues[..i + 1] == keyValues[..i] + [keyValues[i]];
      updated := Add(updated, keyValues[i].0, "en", keyValues[i].1);
    }
    assert keyValues[..|keyValues|] == keyValues;
    assert retained == map k | k in translations && LastValue(keyValues, k).Some? :: translations[k];
  }

  lemma UpdateStep(keyValues: seq<(string, string)>, m: TranslationMapSet, updated: TranslationMapSet,
                   kv: (string, string))
    requires IsUpdate(keyValues, m, updated)
    ensures IsUpdate(keyValues + [kv], m, Add(updated, kv.0, "en", kv.1))
  {
    var more := keyValues + [kv];
    assert more[..|keyValues|] == keyValues;
    forall k ensures LastValue(more, k) == if k == kv.0 then Some(kv.1) else LastValue(keyValues, k) {
    }
  }

  lemma {:induction false} UsedHasValue(keyValues: seq<(string, string)>, k: string)
    ensures k in (set kv | kv in keyValues :: kv.0) <==> LastValue(keyValues, k).Some?
  {
    if keyValues != [] {
      var n := |keyValues| - 1;
      UsedHasValue(keyValues[..n], k);
      assert keyValues == keyValues[..n] + [keyValues[n]];
    }
  }

  /** A stored set stays storable when it is updated with texts a file can hold. */
  lemma UpdateStaysStorable(keyValues: seq<(string, string)>, m: TranslationMapSet, updated: TranslationMapSet)
    requires IsUpdate(keyValues, m, updated) && Storable(m)
    requires forall k :: LastValue(keyValues, k).Some? ==>
      '\n' !in k && StorableRow(Row("en", LastValue(keyValues, k).value))
    ensures Storable(updated)
  {
    hide StorableRow;
    forall k, lang | k in updated && lang in updated[k] ensures StorableRow(Row(lang, updated[k][lang])) {
      if lang == "en" && LastValue(keyValues, k).Some? {
      } else {
        assert lang in m[k];
      }
    }
  }

  // --------------------------------------------------------------------- storing

  lemma {:induction false} LessTotal(a: string, b: string)
    ensures Less(a, b) || a == b || Less(b, a)
  {
    if a != "" && b != "" && a[0] == b[0] {
      LessTotal(a[1..], b[1..]);
      assert a == [a[0]] + a[1..] && b == [b[0]] + b[1..];
    }
  }

  lemma {:induction false} LessTransitive(a: string, b: string, c: string)
    requires Less(a, b) && Less(b, c)
    ensures Less(a, c)
  {
    if a != "" && a[0] == b[0] && b[0] == c[0] {
      LessTransitive(a[1..], b[1..], c[1..]);
    }
  }

  /** Position i is the first at which the strings differ, or the end of one of them. */
  ghost predicate FirstDifference(a: string, b: string, i: nat) {
    && i <= |a| && i <= |b| && a[..i] == b[..i]
    && (i < |a| && i < |b| ==> a[i] != b[i])
  }

  /** The order of the keys and languages is the lexicographic one. */
  lemma {:induction false} LessIff(a: string, b: string, i: nat)
    requires FirstDifference(a, b, i)
    ensures Less(a, b) <==> i < |b| && (i == |a| || a[i] < b[i])
  {
    if i > 0 {
      assert a[0] == a[..i][0] == b[..i][0] == b[0];
      assert a[1..][..i - 1] == a[..i][1..] == b[..i][1..] == b[1..][..i - 1];
      LessIff(a[1..], b[1..], i - 1);
    }
  }

  /** The elements of a set in ascending order. */
  method Sorted(keys: set<string>) returns (list: seq<string>)
    ensures Ascending(list) && forall k :: k in list <==> k in keys
  {
    list := [];
    var todo := keys;
    while todo != {}
      invariant Ascending(list) && todo <= keys && forall k :: k in list <==> k in keys - todo
      decreases todo
    {
      var k :| k in todo;
      var i := 0;
      while i < |list| && Less(list[i], k)
        invariant i <= |list| && forall j :: 0 <= j < i ==> Less(list[j], k)
      {
        i := i + 1;
      }
      InsertAscends(list, i, k);
      list := list[..i] + [k] + list[i..];
      todo := todo - {k};
    }
  }

  lemma InsertAscends(list: seq<string>, i: nat, k: string)
    requires Ascending(list) && i <= |list| && k !in list
    requires forall j :: 0 <= j < i ==> Less(list[j], k)
    requires i < |list| ==> !Less(list[i], k)
    ensures Ascending(list[..i] + [k] + list[i..])
    ensures forall x :: x in list[..i] + [k] + list[i..] <==> x in list || x == k
  {
    hide Less;
    var all := list[..i] + [k] + list[i..];
    InsertKeepsElements(list, i, k);
    forall j | i <= j < |list| ensures Less(k, list[j]) {
      LessTotal(k, list[i]);
      if i < j {
        LessTransitive(k, list[i], list[j]);
      }
    }
    forall a, b | 0 <= a < b < |all| ensures Less(all[a], all[b]) {
      assert all[a] == if a < i then list[a] else if a == i then k else list[a - 1];
      assert all[b] == if b < i then list[b] else if b == i then k else list[b - 1];
    }
  }

  lemma InsertKeepsElements(list: seq<string>, i: nat, k: string)
    requires i <= |list|
    ensures forall x :: x in list[..i] + [k] + list[i..] <==> x in list || x == k
  {
    assert list == list[..i] + list[i..];
  }

  lemma {:induction false} TextConcat(a: seq<string>, b: seq<string>)
    ensures Text(a + b) == Text(a) + Text(b)
  {
    if a == [] {
      assert a + b == b;
    } else {
      assert (a + b)[1..] == a[1..] + b;
      TextConcat(a[1..], b);
      Associate(a[0] + "\n", Text(a[1..]), Text(b));
    }
  }

  lemma {:induction false} RowsPush(rows: seq<Row>, r: Row)
    ensures RowsMap(rows + [r]) == RowsMap(rows)[r.lang := r.value]
    ensures RowLines(rows + [r]) == RowLines(rows) + [RowLine(r)]
  {
    if rows == [] {
      assert rows + [r] == [r];
    } else {
      assert (rows + [r])[1..] == rows[1..] + [r];
      RowsPush(rows[1..], r);
    }
  }

  lemma {:induction false} EntriesMapPush(entries: seq<Entry>, e: Entry)
    ensures EntriesMap(entries + [e]) == EntriesMap(entries)[e.key := RowsMap(e.rows)]
  {
    hide RowsMap;
    if entries == [] {
      assert entries + [e] == [e];
    } else {
      assert (entries + [e])[1..] == entries[1..] + [e];
      EntriesMapPush(entries[1..], e);
    }
  }

  lemma {:induction false} EntriesPush(entries: seq<Entry>, e: Entry)
    ensures EntryLines(entries + [e]) == EntryLines(entries) + SectionLines(e)
  {
    hide RowLines, SectionLines, EntryLines;
    var all := entries + [e];
    EntriesHead(all);
    if entries == [] {
      assert all == [e] && all[1..] == [];
      NoEntries();
      assert [] + SectionLines(e) == SectionLines(e) + [];
    } else {
      assert all[1..] == entries[1..] + [e] && all[0] == entries[0];
      EntriesHead(entries);
      EntriesPush(entries[1..], e);
      Associate(SectionLines(entries[0]), EntryLines(entries[1..]), SectionLines(e));
    }
  }

  lemma NoEntries()
    ensures EntryLines([]) == []
  {
  }

  lemma EntriesHead(entries: seq<Entry>)
    requires entries != []
    ensures EntryLines(entries) == SectionLines(entries[0]) + EntryLines(entries[1..])
  {
  }

  function SectionLines(e: Entry): seq<string> {
    ["", "[" + e.key + "]"] + RowLines(e.rows)
  }

  lemma TextPush(lines: seq<string>, line: string)
    ensures Text(lines + [line]) == Text(lines) + (line + "\n")
  {
    TextConcat(lines, [line]);
    assert Text([line]) == line + "\n" + Text([]);
    assert line + "\n" + "" == line + "\n";
  }

  lemma HeaderText(key: string)
    ensures Text(["", "[" + key + "]"]) == "\n[" + key + "]\n"
  {
    var header := "[" + key + "]";
    assert ["", header][1..] == [header] && [header][1..] == [];
    assert Text([header]) == header + "\n" + "";
    assert "" + "\n" + (header + "\n" + "") == "\n[" + key + "]\n";
  }

  /** One more row of a section. */
  lemma SectionPush(key: string, rows: seq<Row>, r: Row, text: string)
    requires text == Text(SectionLines(Entry(key, rows)))
    ensures text + (RowLine(r) + "\n") == Text(SectionLines(Entry(key, rows + [r])))
    ensures RowsMap(rows + [r]) == RowsMap(rows)[r.lang := r.value]
  {
    var header := ["", "[" + key + "]"];
    RowsPush(rows, r);
    Associate(header, RowLines(rows), [RowLine(r)]);
    TextPush(SectionLines(Entry(key, rows)), RowLine(r));
  }

  lemma SectionStart(key: string)
    ensures "\n[" + key + "]\n" == Text(SectionLines(Entry(key, [])))
  {
    HeaderText(key);
    assert ["", "[" + key + "]"] + RowLines([]) == ["", "[" + key + "]"];
  }

  /** The part of a map under some of its keys. */
  function Among<V>(m: map<string, V>, keys: seq<string>): map<string, V> {
    map k | k in m && k in keys :: m[k]
  }

  lemma AmongPush<V>(m: map<string, V>, keys: seq<string>, k: string)
    requires k in m
    ensures Among(m, keys + [k]) == Among(m, keys)[k := m[k]]
  {
  }

  lemma AmongAll<V>(m: map<string, V>, keys: seq<string>)
    requires forall k :: k in m ==> k in keys
    ensures Among(m, keys) == m
  {
  }

  lemma KeysPush(entries: seq<Entry>, e: Entry)
    ensures Keys(entries + [e]) == Keys(entries) + [e.key]
  {
  }

  /** The section of a key: English first, then the other languages in order. */
  method WriteSection(key: string, data: TranslationMap) returns (text: string, ghost e: Entry)
    requires "en" in data
    ensures e.key == key && RowsMap(e.rows) == data && RowsOk(e.rows)
    ensures text == Text(SectionLines(e))
  {
    hide RowLine, SectionLines, RowsMap;
    ghost var rows: seq<Row> := [];
    text := "\n[" + key + "]\n";
    SectionStart(key);
    SectionPush(key, rows, Row("en", data["en"]), text);
    text := text + RowText("en", data["en"]);
    rows := rows + [Row("en", data["en"])];
    var others := data - {"en"};
    var langs := Sorted(others.Keys);
    FirstRow(data["en"]);
    for i := 0 to |langs|
      invariant |rows| == i + 1 && rows[0] == Row("en", data["en"])
      invariant forall j :: 0 <= j < i ==> rows[j + 1] == Row(langs[j], others[langs[j]])
      invariant text == Text(SectionLines(Entry(key, rows)))
      invariant RowsMap(rows) == Among(data, ["en"] + langs[..i])
    {
      var r := Row(langs[i], others[langs[i]]);
      SectionPush(key, rows, r, text);
      text := text + RowText(langs[i], others[langs[i]]);
      rows := rows + [r];
      AmongPush(data, ["en"] + langs[..i], langs[i]);
      assert ["en"] + langs[..i + 1] == ["en"] + langs[..i] + [langs[i]];
    }
    e := Entry(key, rows);
    assert Langs(rows[1..]) == langs;
    assert langs[..|langs|] == langs;
    AmongAll(data, ["en"] + langs);
  }

  lemma FirstRow(en: string)
    ensures RowsMap([] + [Row("en", en)]) == map["en" := en]
  {
    RowsPush([], Row("en", en));
  }

  function RowText(lang: string, value: string): (text: string)
    ensures text == RowLine(Row(lang, value)) + "\n"
  {
    lang + " = " + value + "\n"
  }

  /** The whole file; every key must have an English text. */
  method SerializeTranslations(translations: TranslationMapSet) returns (result: string)
    requires forall key :: key in translations ==> "en" in translations[key]
    ensures exists entries :: Lists(entries, translations) && result == Serialized(entries)
  {
    hide SectionLines, RowsMap, RowsOk, Serialized, EntriesMap, Among, Keys, Text;
    KeysNone();
    ghost var entries: seq<Entry> := [];
    result := "\n" + COMMENT + "\n";
    FileStart();
    var keys := Sorted(translations.Keys);
    for i := 0 to |keys|
      invariant Keys(entries) == keys[..i] && result == Serialized(entries)
      invariant EntriesMap(entries) == Among(translations, keys[..i])
      invariant forall j :: 0 <= j < |entries| ==> RowsOk(entries[j].rows)
    {
      ghost var e;
      var section;
      section, e := WriteSection(keys[i], translations[keys[i]]);
      FilePush(entries, e);
      EntriesMapPush(entries, e);
      result := result + section;
      AmongPush(translations, keys[..i], keys[i]);
      KeysPush(entries, e);
      entries := entries + [e];
      assert keys[..i + 1] == keys[..i] + [keys[i]];
    }
    assert keys[..|keys|] == keys;
    AmongAll(translations, keys);
    assert Lists(entries, translations);
  }

  lemma KeysNone()
    ensures Keys([]) == [] && EntriesMap([]) == map[]
    ensures forall m: TranslationMapSet :: Among(m, []) == map[]
  {
  }

  lemma FileStart()
    ensures "\n" + COMMENT + "\n" == Serialized([])
  {
    var lines := ["", COMMENT];
    assert lines + EntryLines([]) == lines && lines[1..] == [COMMENT] && [COMMENT][1..] == [];
    assert Text([COMMENT]) == COMMENT + "\n" + "";
    Associate("\n", COMMENT, "\n");
    assert COMMENT + "\n" + "" == COMMENT + "\n" && "" + "\n" == "\n";
  }

  lemma FilePush(entries: seq<Entry>, e: Entry)
    ensures Serialized(entries + [e]) == Serialized(entries) + Text(SectionLines(e))
  {
    EntriesPush(entries, e);
    Associate(["", COMMENT], EntryLines(entries), SectionLines(e));
    TextConcat(["", COMMENT] + EntryLines(entries), SectionLines(e));
  }
}
