/**
 * Rebuilding a translation file from the translated texts: the text at index
 * `idx` goes where `textMap[idx]` says, a ui key or a dotted hexagram path
 * whose first part is the hexagram number and whose second part names the
 * field. Hexagram and line objects are created empty on first use.
 */
module TranslationRebuild {
  import opened Wrappers
  import opened Strings
  import opened TranslationData
  import opened TranslationFlatten

  /** `pathParts[i]`; reading past the end gives `undefined`, which as a property name is "undefined". */
  function Part(parts: seq<string>, i: nat): string
  {
    if i < |parts| then parts[i] else "undefined"
  }

  /** The property name `parseInt(s)` indexes with: the decimal number, or "NaN". */
  function NumberKey(s: string): string
  {
    match ParseInt(s)
    case Some(n) => NatToString(n)
    case None => "NaN"
  }

  function EmptyNote(): map<string, string>
  {
    map["text" := "", "comments" := ""]
  }

  function EmptyHex(): HexRecord
  {
    HexRecord("", "", EmptyNote(), EmptyNote(), map[])
  }

  function EmptyFile(): Translated
  {
    Translated(map[], map[])
  }

  /** The hexagram record under `key`, or the empty one a first assignment creates. */
  function HexAt(file: Translated, key: string): HexRecord
  {
    if key in file.hexagrams then file.hexagrams[key] else EmptyHex()
  }

  /** Store `t` in the field of `hex` that the path parts after the number name; any other name only creates the record. */
  function ApplyHexagram(hex: HexRecord, parts: seq<string>, t: string): HexRecord
  {
    var field := Part(parts, 1);
    if field == "name" then hex.(name := t)
    else if field == "symbolic" then hex.(symbolic := t)
    else if field == "judgment" then hex.(judgment := hex.judgment[Part(parts, 2) := t])
    else if field == "image" then hex.(image := hex.image[Part(parts, 2) := t])
    else if field == "lines" then
      var lineKey := NumberKey(Part(parts, 2));
      var line := if lineKey in hex.lines then hex.lines[lineKey] else EmptyNote();
      hex.(lines := hex.lines[lineKey := line[Part(parts, 3) := t]])
    else hex
  }

  /** Put one translated text where its mapping says. */
  function Apply(file: Translated, mapping: Mapping, t: string): (result: Translated)
    ensures mapping.kind == UiText ==> result.hexagrams == file.hexagrams
    ensures mapping.kind == HexagramText ==> result.ui == file.ui
  {
    if mapping.kind == UiText then file.(ui := file.ui[mapping.path := t])
    else
      var parts := Split(mapping.path, '.');
      var key := NumberKey(parts[0]);
      file.(hexagrams := file.hexagrams[key := ApplyHexagram(HexAt(file, key), parts, t)])
  }

  /** The file after the first `k` translated texts. */
  function RebuildUpTo(translations: seq<string>, textMap: map<nat, Mapping>, k: nat): Translated
    requires k <= |translations|
  {
    if k == 0 then EmptyFile()
    else if k - 1 in textMap then Apply(RebuildUpTo(translations, textMap, k - 1), textMap[k - 1], translations[k - 1])
    else RebuildUpTo(translations, textMap, k - 1)
  }

  /** Place every translated text by its index; an index with no mapping is skipped. */
  method Rebuild(translations: seq<string>, textMap: map<nat, Mapping>) returns (file: Translated)
    ensures file == RebuildUpTo(translations, textMap, |translations|)
  {
    file := EmptyFile();
    var idx := 0;
    while idx < |translations|
      invariant idx <= |translations|
      invariant file == RebuildUpTo(translations, textMap, idx)
    {
      if idx in textMap {
        file := Apply(file, textMap[idx], translations[idx]);
      }
      idx := idx + 1;
    }
  }

  // ---------------------------------------------------------------------------
  // Applying a list of items
  // ---------------------------------------------------------------------------

  function ApplyAll(file: Translated, items: seq<Item>): Translated
  {
    if items == [] then file
    else Apply(ApplyAll(file, items[..|items| - 1]), items[|items| - 1].mapping, items[|items| - 1].text)
  }

  lemma ApplySnoc(file: Translated, items: seq<Item>, item: Item)
    ensures ApplyAll(file, items + [item]) == Apply(ApplyAll(file, items), item.mapping, item.text)
  {
    assert (items + [item])[..|items|] == items;
  }

  lemma {:induction false} ApplyConcat(file: Translated, a: seq<Item>, b: seq<Item>)
    ensures ApplyAll(file, a + b) == ApplyAll(ApplyAll(file, a), b)
  {
    if b == [] {
      assert a + b == a;
    } else {
      var front := b[..|b| - 1];
      assert a + b == (a + front) + [b[|b| - 1]];
      assert b == front + [b[|b| - 1]];
      ApplyConcat(file, a, front);
      ApplySnoc(file, a + front, b[|b| - 1]);
      ApplySnoc(ApplyAll(file, a), front, b[|b| - 1]);
    }
  }

  /**
   * With the texts and the map the flattening produces, rebuilding the first
   * `k` texts applies the first `k` items in order.
   */
  lemma {:induction false} RebuildAppliesItems(items: seq<Item>, k: nat)
    requires k <= |items|
    ensures RebuildUpTo(TextsOf(items), MapOf(items), k) == ApplyAll(EmptyFile(), items[..k])
  {
    OfEncodes(items);
    if k > 0 {
      RebuildAppliesItems(items, k - 1);
      assert k - 1 in MapOf(items);
      assert items[..k] == items[..k - 1] + [items[k - 1]];
      ApplySnoc(EmptyFile(), items[..k - 1], items[k - 1]);
    }
  }

  // ---------------------------------------------------------------------------
  // Paths of the English items read back
  // ---------------------------------------------------------------------------

  predicate NoDots(parts: seq<string>)
  {
    forall i :: 0 <= i < |parts| ==> '.' !in parts[i]
  }

  lemma NumberHasNoDot(n: nat)
    ensures '.' !in NatToString(n)
  {
  }

  /** A hexagram item's path splits back into the number and its parts, and the number reads back as itself. */
  lemma HexItemApply(file: Translated, n: nat, rest: seq<string>, t: string)
    requires NoDots(rest)
    ensures Apply(file, HexItem(n, rest, t).mapping, t)
      == file.(hexagrams := file.hexagrams[NatToString(n) := ApplyHexagram(HexAt(file, NatToString(n)), [NatToString(n)] + rest, t)])
  {
    var parts := [NatToString(n)] + rest;
    NumberHasNoDot(n);
    assert forall i :: 0 <= i < |parts| ==> '.' !in parts[i] by {
      forall i | 0 <= i < |parts| ensures '.' !in parts[i] {
        if i > 0 {
          assert parts[i] == rest[i - 1];
        }
      }
    }
    SplitJoin(parts, '.');
    ParseNatToString(n);
  }

  /** The record the six head items build from an empty one. */
  function HeadRecord(hex: HexText): HexRecord
  {
    HexRecord(hex.name, hex.symbolic, NoteView(hex.judgment), NoteView(hex.image), map[])
  }

  /** One head item applied to the record under the item's hexagram key. */
  lemma HexStepAt(hexagrams: map<string, HexRecord>, file: Translated, n: nat, rest: seq<string>, t: string, rec: HexRecord)
    requires NoDots(rest)
    requires file.hexagrams == hexagrams[NatToString(n) := rec]
    ensures Apply(file, HexItem(n, rest, t).mapping, t)
      == file.(hexagrams := hexagrams[NatToString(n) := ApplyHexagram(rec, [NatToString(n)] + rest, t)])
  {
    HexItemApply(file, n, rest, t);
    Overwrite(hexagrams, NatToString(n), rec, ApplyHexagram(rec, [NatToString(n)] + rest, t));
  }

  lemma NameFirst(file: Translated, n: nat, hex: HexText)
    requires NatToString(n) !in file.hexagrams
    ensures Apply(file, HeadItems(n, hex)[0].mapping, hex.name)
      == file.(hexagrams := file.hexagrams[NatToString(n) := EmptyHex().(name := hex.name)])
  {
    HexItemApply(file, n, ["name"], hex.name);
  }

  lemma SymbolicAt(hexagrams: map<string, HexRecord>, file: Translated, n: nat, hex: HexText, rec: HexRecord)
    requires file.hexagrams == hexagrams[NatToString(n) := rec]
    ensures Apply(file, HeadItems(n, hex)[1].mapping, hex.symbolic)
      == file.(hexagrams := hexagrams[NatToString(n) := rec.(symbolic := hex.symbolic)])
  {
    HexStepAt(hexagrams, file, n, ["symbolic"], hex.symbolic, rec);
  }

  lemma JudgmentAt(hexagrams: map<string, HexRecord>, file: Translated, n: nat, prop: string, t: string, rec: HexRecord)
    requires prop == "text" || prop == "comments"
    requires file.hexagrams == hexagrams[NatToString(n) := rec]
    ensures Apply(file, HexItem(n, ["judgment", prop], t).mapping, t)
      == file.(hexagrams := hexagrams[NatToString(n) := rec.(judgment := rec.judgment[prop := t])])
  {
    HexStepAt(hexagrams, file, n, ["judgment", prop], t, rec);
  }

  lemma ImageAt(hexagrams: map<string, HexRecord>, file: Translated, n: nat, prop: string, t: string, rec: HexRecord)
    requires prop == "text" || prop == "comments"
    requires file.hexagrams == hexagrams[NatToString(n) := rec]
    ensures Apply(file, HexItem(n, ["image", prop], t).mapping, t)
      == file.(hexagrams := hexagrams[NatToString(n) := rec.(image := rec.image[prop := t])])
  {
    HexStepAt(hexagrams, file, n, ["image", prop], t, rec);
  }

  /** Filling both properties of an empty note gives the note's object. */
  lemma NoteFill(note: Note)
    ensures EmptyNote()["text" := note.text]["comments" := note.comments] == NoteView(note)
  {
    var m := EmptyNote()["text" := note.text]["comments" := note.comments];
    assert m.Keys == NoteView(note).Keys;
  }

  /** Assigning twice to the same hexagram key keeps the second record. */
  lemma Overwrite(hexagrams: map<string, HexRecord>, key: string, first: HexRecord, second: HexRecord)
    ensures hexagrams[key := first][key := second] == hexagrams[key := second]
  {
  }

  /** The first three head items: name, symbolic and judgment text. */
  lemma HeadApplyFirst(file: Translated, n: nat, hex: HexText)
    requires NatToString(n) !in file.hexagrams
    ensures ApplyAll(file, HeadItems(n, hex)[..3]) == file.(hexagrams := file.hexagrams[NatToString(n) :=
      HexRecord(hex.name, hex.symbolic, EmptyNote()["text" := hex.judgment.text], EmptyNote(), map[])])
  {
    var key := NatToString(n);
    var head := HeadItems(n, hex);
    var hexagrams := file.hexagrams;
    assert head[..1] == [] + [head[0]];
    assert head[..2] == head[..1] + [head[1]];
    assert head[..3] == head[..2] + [head[2]];
    var r1 := EmptyHex().(name := hex.name);
    ApplySnoc(file, [], head[0]);
    NameFirst(file, n, hex);
    var f1 := file.(hexagrams := hexagrams[key := r1]);
    ApplySnoc(file, head[..1], head[1]);
    SymbolicAt(hexagrams, f1, n, hex, r1);
    var r2 := r1.(symbolic := hex.symbolic);
    var f2 := file.(hexagrams := hexagrams[key := r2]);
    ApplySnoc(file, head[..2], head[2]);
    JudgmentAt(hexagrams, f2, n, "text", hex.judgment.text, r2);
  }

  /** The six head items put a hexagram's name, symbolic, judgment and image in place of a missing record. */
  lemma HeadApply(file: Translated, n: nat, hex: HexText)
    requires NatToString(n) !in file.hexagrams
    ensures ApplyAll(file, HeadItems(n, hex)) == file.(hexagrams := file.hexagrams[NatToString(n) := HeadRecord(hex)])
  {
    var key := NatToString(n);
    var head := HeadItems(n, hex);
    assert head == head[..3] + head[3..];
    HeadApplyFirst(file, n, hex);
    var r3 := HexRecord(hex.name, hex.symbolic, EmptyNote()["text" := hex.judgment.text], EmptyNote(), map[]);
    var f3 := file.(hexagrams := file.hexagrams[key := r3]);
    ApplyConcat(file, head[..3], head[3..]);
    HeadApplyRest(file.hexagrams, f3, n, hex);
    NoteFill(hex.judgment);
    NoteFill(hex.image);
  }

  /** The last three head items: judgment comments, image text and image comments. */
  lemma HeadApplyRest(hexagrams: map<string, HexRecord>, f3: Translated, n: nat, hex: HexText)
    requires f3.hexagrams == hexagrams[NatToString(n) :=
      HexRecord(hex.name, hex.symbolic, EmptyNote()["text" := hex.judgment.text], EmptyNote(), map[])]
    ensures ApplyAll(f3, HeadItems(n, hex)[3..]) == f3.(hexagrams := hexagrams[NatToString(n) :=
      HexRecord(hex.name, hex.symbolic, EmptyNote()["text" := hex.judgment.text]["comments" := hex.judgment.comments],
        EmptyNote()["text" := hex.image.text]["comments" := hex.image.comments], map[])])
  {
    var key := NatToString(n);
    var rest := HeadItems(n, hex)[3..];
    assert rest[..1] == [] + [rest[0]];
    assert rest[..2] == rest[..1] + [rest[1]];
    assert rest == rest[..2] + [rest[2]];
    var r3 := HexRecord(hex.name, hex.symbolic, EmptyNote()["text" := hex.judgment.text], EmptyNote(), map[]);
    ApplySnoc(f3, [], rest[0]);
    JudgmentAt(hexagrams, f3, n, "comments", hex.judgment.comments, r3);
    var r4 := r3.(judgment := r3.judgment["comments" := hex.judgment.comments]);
    var f4 := f3.(hexagrams := hexagrams[key := r4]);
    ApplySnoc(f3, rest[..1], rest[1]);
    ImageAt(hexagrams, f4, n, "text", hex.image.text, r4);
    var r5 := r4.(image := r4.image["text" := hex.image.text]);
    var f5 := f3.(hexagrams := hexagrams[key := r5]);
    ApplySnoc(f3, rest[..2], rest[2]);
    ImageAt(hexagrams, f5, n, "comments", hex.image.comments, r5);
  }

  // ---------------------------------------------------------------------------
  // Lines
  // ---------------------------------------------------------------------------

  /** The line object under `key`, or the empty one a first assignment creates. */
  function LineAt(lines: map<string, map<string, string>>, key: string): map<string, string>
  {
    if key in lines then lines[key] else EmptyNote()
  }

  lemma LineStepAt(hexagrams: map<string, HexRecord>, file: Translated, n: nat, lineNumber: nat, prop: string, t: string, rec: HexRecord)
    requires prop == "text" || prop == "comments"
    requires file.hexagrams == hexagrams[NatToString(n) := rec]
    ensures var key := NatToString(lineNumber);
      Apply(file, HexItem(n, ["lines", key, prop], t).mapping, t)
      == file.(hexagrams := hexagrams[NatToString(n) := rec.(lines := rec.lines[key := LineAt(rec.lines, key)[prop := t]])])
  {
    NumberHasNoDot(lineNumber);
    HexStepAt(hexagrams, file, n, ["lines", NatToString(lineNumber), prop], t, rec);
    ParseNatToString(lineNumber);
  }

  /** The two items of one line put its note under the line number. */
  lemma LinePairApply(hexagrams: map<string, HexRecord>, file: Translated, n: nat, line: (nat, Note), rec: HexRecord)
    requires file.hexagrams == hexagrams[NatToString(n) := rec]
    requires NatToString(line.0) !in rec.lines
    ensures ApplyAll(file, LinePair(n, line))
      == file.(hexagrams := hexagrams[NatToString(n) := rec.(lines := rec.lines[NatToString(line.0) := NoteView(line.1)])])
  {
    var key := NatToString(line.0);
    var pair := LinePair(n, line);
    assert pair == [] + [pair[0]] + [pair[1]];
    ApplySnoc(file, [], pair[0]);
    LineStepAt(hexagrams, file, n, line.0, "text", line.1.text, rec);
    var r1 := rec.(lines := rec.lines[key := EmptyNote()["text" := line.1.text]]);
    var f1 := file.(hexagrams := hexagrams[NatToString(n) := r1]);
    assert ApplyAll(file, [pair[0]]) == f1;
    ApplySnoc(file, [pair[0]], pair[1]);
    LineStepAt(hexagrams, f1, n, line.0, "comments", line.1.comments, r1);
    assert LineAt(r1.lines, key) == EmptyNote()["text" := line.1.text];
    NoteFill(line.1);
    LineOverwrite(rec.lines, key, EmptyNote()["text" := line.1.text], NoteView(line.1));
  }

  lemma LineOverwrite(lines: map<string, map<string, string>>, key: string, first: map<string, string>, second: map<string, string>)
    ensures lines[key := first][key := second] == lines[key := second]
  {
  }

  lemma {:induction false} LinesViewAbsent(lines: seq<(nat, Note)>, m: nat)
    requires forall i :: 0 <= i < |lines| ==> lines[i].0 != m
    ensures NatToString(m) !in LinesView(lines)
  {
    if lines != [] {
      LinesViewAbsent(lines[..|lines| - 1], m);
      if NatToString(lines[|lines| - 1].0) == NatToString(m) {
        NatToStringInjective(lines[|lines| - 1].0, m);
      }
    }
  }

  /** The items of ascending lines fill an empty line object with every line's note. */
  lemma {:induction false} LinesApply(hexagrams: map<string, HexRecord>, file: Translated, n: nat, base: HexRecord, lines: seq<(nat, Note)>)
    requires file.hexagrams == hexagrams[NatToString(n) := base]
    requires base.lines == map[] && Ascending(lines)
    ensures ApplyAll(file, LineItems(n, lines)) == file.(hexagrams := hexagrams[NatToString(n) := base.(lines := LinesView(lines))])
  {
    if lines == [] {
      assert base.(lines := LinesView(lines)) == base;
    } else {
      var front := lines[..|lines| - 1];
      var last := lines[|lines| - 1];
      assert Ascending(front);
      LinesApply(hexagrams, file, n, base, front);
      ApplyConcat(file, LineItems(n, front), LinePair(n, last));
      LinesViewAbsent(front, last.0);
      var rec := base.(lines := LinesView(front));
      LinePairApply(hexagrams, file.(hexagrams := hexagrams[NatToString(n) := rec]), n, last, rec);
    }
  }

  // ---------------------------------------------------------------------------
  // Hexagrams, ui and the whole record
  // ---------------------------------------------------------------------------

  /** All items of one hexagram put its record under its number, where there was none. */
  lemma HexApply(file: Translated, n: nat, hex: HexText)
    requires NatToString(n) !in file.hexagrams && Ascending(hex.lines)
    ensures ApplyAll(file, HexItems(n, hex)) == file.(hexagrams := file.hexagrams[NatToString(n) := HexView(hex)])
  {
    ApplyConcat(file, HeadItems(n, hex), LineItems(n, hex.lines));
    HeadApply(file, n, hex);
    var f6 := file.(hexagrams := file.hexagrams[NatToString(n) := HeadRecord(hex)]);
    LinesApply(file.hexagrams, f6, n, HeadRecord(hex), hex.lines);
  }

  lemma {:induction false} HexagramsViewAbsent(hexagrams: seq<(nat, HexText)>, m: nat)
    requires forall i :: 0 <= i < |hexagrams| ==> hexagrams[i].0 != m
    ensures NatToString(m) !in HexagramsView(hexagrams)
  {
    if hexagrams != [] {
      HexagramsViewAbsent(hexagrams[..|hexagrams| - 1], m);
      if NatToString(hexagrams[|hexagrams| - 1].0) == NatToString(m) {
        NatToStringInjective(hexagrams[|hexagrams| - 1].0, m);
      }
    }
  }

  /** The items of all hexagrams build the hexagrams object of the English file. */
  lemma {:induction false} AllHexApply(file: Translated, hexagrams: seq<(nat, HexText)>)
    requires file.hexagrams == map[]
    requires WellFormed(English(hexagrams, []))
    ensures ApplyAll(file, AllHexItems(hexagrams)) == file.(hexagrams := HexagramsView(hexagrams))
  {
    if hexagrams == [] {
    } else {
      var front := hexagrams[..|hexagrams| - 1];
      var last := hexagrams[|hexagrams| - 1];
      assert WellFormed(English(front, [])) by {
        forall i | 0 <= i < |front| ensures Ascending(front[i].1.lines) {
          assert front[i] == hexagrams[i];
        }
      }
      AllHexApply(file, front);
      ApplyConcat(file, AllHexItems(front), HexItems(last.0, last.1));
      HexagramsViewAbsent(front, last.0);
      assert Ascending(last.1.lines);
      HexApply(file.(hexagrams := HexagramsView(front)), last.0, last.1);
    }
  }

  /** The ui items build the ui object of the English file. */
  lemma {:induction false} UiApply(ui: seq<(string, string)>)
    ensures ApplyAll(EmptyFile(), UiItems(ui)) == Translated(map[], UiView(ui))
  {
    if ui != [] {
      var front := ui[..|ui| - 1];
      UiApply(front);
      ApplySnoc(EmptyFile(), UiItems(front), Item(Mapping(UiText, ui[|ui| - 1].0), ui[|ui| - 1].1));
    }
  }

  /** Applying the items of a well-formed English record, untranslated, rebuilds exactly its file. */
  lemma ItemsRebuildEnglish(english: English)
    requires WellFormed(english)
    ensures ApplyAll(EmptyFile(), Items(english)) == EnglishView(english)
  {
    ApplyConcat(EmptyFile(), UiItems(english.ui), AllHexItems(english.hexagrams));
    UiApply(english.ui);
    assert WellFormed(English(english.hexagrams, []));
    AllHexApply(Translated(map[], UiView(english.ui)), english.hexagrams);
  }

  /**
   * Flattening and rebuilding are inverse: rebuilding the English texts
   * themselves, with the map the flattening produced, gives back the English
   * file.
   */
  lemma RebuildInvertsFlatten(english: English)
    requires WellFormed(english)
    ensures var items := Items(english);
      RebuildUpTo(TextsOf(items), MapOf(items), |items|) == EnglishView(english)
  {
    var items := Items(english);
    RebuildAppliesItems(items, |items|);
    assert items[..|items|] == items;
    ItemsRebuildEnglish(english);
  }
}
