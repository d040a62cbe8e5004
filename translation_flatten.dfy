/**
 * Flattening the English record into the list of texts to translate and the
 * parallel map from list index to where the text came from: all ui strings
 * first, then per hexagram its name, symbolic, judgment text and comments,
 * image text and comments, and the text and comments of every line.
 */
module TranslationFlatten {
  import opened Strings
  import opened TranslationData

  datatype Kind = UiText | HexagramText

  /** Where a text goes back: a ui key, or a dotted path inside the hexagrams. */
  datatype Mapping = Mapping(kind: Kind, path: string)

  /** One emitted text with its mapping. */
  datatype Item = Item(mapping: Mapping, text: string)

  /** `${hexNum}.rest…`: the hexagram number in decimal, then the rest, joined with dots. */
  function HexPath(n: nat, rest: seq<string>): string
  {
    Join([NatToString(n)] + rest, ".")
  }

  function HexItem(n: nat, rest: seq<string>, text: string): Item
  {
    Item(Mapping(HexagramText, HexPath(n, rest)), text)
  }

  function UiItems(ui: seq<(string, string)>): seq<Item>
  {
    if ui == [] then [] else UiItems(ui[..|ui| - 1]) + [Item(Mapping(UiText, ui[|ui| - 1].0), ui[|ui| - 1].1)]
  }

  /** The six texts every hexagram emits before its lines. */
  function HeadItems(n: nat, hex: HexText): seq<Item>
  {
    [ HexItem(n, ["name"], hex.name),
      HexItem(n, ["symbolic"], hex.symbolic),
      HexItem(n, ["judgment", "text"], hex.judgment.text),
      HexItem(n, ["judgment", "comments"], hex.judgment.comments),
      HexItem(n, ["image", "text"], hex.image.text),
      HexItem(n, ["image", "comments"], hex.image.comments) ]
  }

  function LinePair(n: nat, line: (nat, Note)): seq<Item>
  {
    [ HexItem(n, ["lines", NatToString(line.0), "text"], line.1.text),
      HexItem(n, ["lines", NatToString(line.0), "comments"], line.1.comments) ]
  }

  function LineItems(n: nat, lines: seq<(nat, Note)>): seq<Item>
  {
    if lines == [] then [] else LineItems(n, lines[..|lines| - 1]) + LinePair(n, lines[|lines| - 1])
  }

  function HexItems(n: nat, hex: HexText): seq<Item>
  {
    HeadItems(n, hex) + LineItems(n, hex.lines)
  }

  function AllHexItems(hexagrams: seq<(nat, HexText)>): seq<Item>
  {
    if hexagrams == [] then []
    else AllHexItems(hexagrams[..|hexagrams| - 1]) + HexItems(hexagrams[|hexagrams| - 1].0, hexagrams[|hexagrams| - 1].1)
  }

  /** Everything the generator sends for translation, in emission order. */
  function Items(english: English): seq<Item>
  {
    UiItems(english.ui) + AllHexItems(english.hexagrams)
  }

  /** The texts of `items`, in order. */
  function TextsOf(items: seq<Item>): (texts: seq<string>)
    ensures |texts| == |items|
  {
    if items == [] then [] else TextsOf(items[..|items| - 1]) + [items[|items| - 1].text]
  }

  /** The index map of `items`: index `i` maps to the mapping of `items[i]`. */
  function MapOf(items: seq<Item>): map<nat, Mapping>
  {
    if items == [] then map[] else MapOf(items[..|items| - 1])[|items| - 1 := items[|items| - 1].mapping]
  }

  /**
   * `texts` and `textMap` hold `items`: the texts in order, and a mapping
   * for exactly the indices 0 to |items|-1, each the mapping of that text.
   */
  ghost predicate Encodes(texts: seq<string>, textMap: map<nat, Mapping>, items: seq<Item>)
  {
    && |texts| == |items|
    && (forall i :: i in textMap <==> 0 <= i < |items|)
    && (forall i :: 0 <= i < |items| ==> texts[i] == items[i].text && textMap[i] == items[i].mapping)
  }

  /** The texts and the index map of a list of items encode it. */
  lemma {:induction false} OfEncodes(items: seq<Item>)
    ensures Encodes(TextsOf(items), MapOf(items), items)
  {
    if items != [] {
      var prefix := items[..|items| - 1];
      OfEncodes(prefix);
      assert forall i :: i in MapOf(items) <==> 0 <= i < |items|;
      forall i | 0 <= i < |items|
        ensures TextsOf(items)[i] == items[i].text && MapOf(items)[i] == items[i].mapping
      {
        if i < |prefix| {
          assert TextsOf(items)[i] == TextsOf(prefix)[i];
          assert items[i] == prefix[i];
        }
      }
    }
  }

  /** Pushing a text and setting the mapping at the next index extends both by one item. */
  lemma Push(items: seq<Item>, item: Item)
    ensures TextsOf(items + [item]) == TextsOf(items) + [item.text]
    ensures MapOf(items + [item]) == MapOf(items)[|TextsOf(items)| := item.mapping]
  {
    assert (items + [item])[..|items|] == items;
  }

  /**
   * Collect the texts and their mappings: the ui strings, then every
   * hexagram's six fields and its lines, numbering them with a running index.
   */
  method Flatten(english: English) returns (texts: seq<string>, textMap: map<nat, Mapping>)
    ensures texts == TextsOf(Items(english)) && textMap == MapOf(Items(english))
  {
    texts, textMap := EmitUi(english.ui);
    assert english.hexagrams[..0] == [];
    assert UiItems(english.ui) == ItemsUpTo(english, 0);

    var h := 0;
    while h < |english.hexagrams|
      invariant 0 <= h <= |english.hexagrams|
      invariant texts == TextsOf(ItemsUpTo(english, h)) && textMap == MapOf(ItemsUpTo(english, h))
    {
      var (hexNum, hex) := english.hexagrams[h];
      texts, textMap := EmitHexagram(texts, textMap, hexNum, hex, ItemsUpTo(english, h));
      ItemsUpToSnoc(english, h);
      h := h + 1;
    }
    assert english.hexagrams[..h] == english.hexagrams;
  }

  /** The items emitted once the ui strings and the first `h` hexagrams are done. */
  function ItemsUpTo(english: English, h: nat): seq<Item>
    requires h <= |english.hexagrams|
  {
    UiItems(english.ui) + AllHexItems(english.hexagrams[..h])
  }

  lemma ItemsUpToSnoc(english: English, h: nat)
    requires h < |english.hexagrams|
    ensures ItemsUpTo(english, h + 1) == ItemsUpTo(english, h) + HexItems(english.hexagrams[h].0, english.hexagrams[h].1)
  {
    AllHexItemsSnoc(english.hexagrams, h);
  }

  /** The ui part of the flattening: every ui string with its key, in declaration order. */
  method EmitUi(ui: seq<(string, string)>) returns (texts: seq<string>, textMap: map<nat, Mapping>)
    ensures texts == TextsOf(UiItems(ui)) && textMap == MapOf(UiItems(ui))
  {
    texts, textMap := [], map[];
    var u := 0;
    while u < |ui|
      invariant 0 <= u <= |ui|
      invariant texts == TextsOf(UiItems(ui[..u])) && textMap == MapOf(UiItems(ui[..u]))
    {
      var (key, value) := ui[u];
      texts, textMap := Emit(texts, textMap, value, Mapping(UiText, key), UiItems(ui[..u]));
      assert ui[..u + 1][..u] == ui[..u];
      u := u + 1;
    }
    assert ui[..u] == ui;
  }

  lemma AllHexItemsSnoc(hexagrams: seq<(nat, HexText)>, h: nat)
    requires h < |hexagrams|
    ensures AllHexItems(hexagrams[..h + 1]) == AllHexItems(hexagrams[..h]) + HexItems(hexagrams[h].0, hexagrams[h].1)
  {
    assert hexagrams[..h + 1][..h] == hexagrams[..h];
  }

  /**
   * `textsToTranslate.push(text); textMap.set(index++, mapping)`: the running
   * index always equals the number of texts pushed so far.
   */
  method Emit(texts0: seq<string>, textMap0: map<nat, Mapping>, text: string, mapping: Mapping, ghost done: seq<Item>)
    returns (texts: seq<string>, textMap: map<nat, Mapping>)
    requires texts0 == TextsOf(done) && textMap0 == MapOf(done)
    ensures texts == TextsOf(done + [Item(mapping, text)]) && textMap == MapOf(done + [Item(mapping, text)])
  {
    Push(done, Item(mapping, text));
    texts := texts0 + [text];
    textMap := textMap0[|texts0| := mapping];
  }

  /**
   * The per-hexagram step of the flattening: push the six fields, then the
   * text and comments of each line, each with its dotted path.
   */
  method EmitHexagram(texts0: seq<string>, textMap0: map<nat, Mapping>, hexNum: nat, hex: HexText, ghost done: seq<Item>)
    returns (texts: seq<string>, textMap: map<nat, Mapping>)
    requires texts0 == TextsOf(done) && textMap0 == MapOf(done)
    ensures texts == TextsOf(done + HexItems(hexNum, hex)) && textMap == MapOf(done + HexItems(hexNum, hex))
  {
    var head := HeadItems(hexNum, hex);
    ghost var emitted := done;
    texts, textMap := Emit(texts0, textMap0, hex.name, head[0].mapping, emitted);
    emitted := emitted + [head[0]];
    texts, textMap := Emit(texts, textMap, hex.symbolic, head[1].mapping, emitted);
    emitted := emitted + [head[1]];
    texts, textMap := Emit(texts, textMap, hex.judgment.text, head[2].mapping, emitted);
    emitted := emitted + [head[2]];
    texts, textMap := Emit(texts, textMap, hex.judgment.comments, head[3].mapping, emitted);
    emitted := emitted + [head[3]];
    texts, textMap := Emit(texts, textMap, hex.image.text, head[4].mapping, emitted);
    emitted := emitted + [head[4]];
    texts, textMap := Emit(texts, textMap, hex.image.comments, head[5].mapping, emitted);
    emitted := emitted + [head[5]];
    SixPushes(done, head);

    var l := 0;
    assert hex.lines[..0] == [];
    assert LinesUpTo(done, hexNum, hex, 0) == done + head;
    while l < |hex.lines|
      invariant 0 <= l <= |hex.lines|
      invariant texts == TextsOf(LinesUpTo(done, hexNum, hex, l)) && textMap == MapOf(LinesUpTo(done, hexNum, hex, l))
    {
      var (lineNum, line) := hex.lines[l];
      var pair := LinePair(hexNum, hex.lines[l]);
      texts, textMap := Emit(texts, textMap, line.text, pair[0].mapping, LinesUpTo(done, hexNum, hex, l));
      texts, textMap := Emit(texts, textMap, line.comments, pair[1].mapping, LinesUpTo(done, hexNum, hex, l) + [pair[0]]);
      LinesUpToSnoc(done, hexNum, hex, l);
      l := l + 1;
    }
    LinesUpToAll(done, hexNum, hex);
  }

  lemma SixPushes(done: seq<Item>, head: seq<Item>)
    requires |head| == 6
    ensures done + [head[0]] + [head[1]] + [head[2]] + [head[3]] + [head[4]] + [head[5]] == done + head
  {
  }

  /** The items emitted once the head of a hexagram and its first `l` lines are done. */
  function LinesUpTo(done: seq<Item>, n: nat, hex: HexText, l: nat): seq<Item>
    requires l <= |hex.lines|
  {
    done + HeadItems(n, hex) + LineItems(n, hex.lines[..l])
  }

  lemma LinesUpToSnoc(done: seq<Item>, n: nat, hex: HexText, l: nat)
    requires l < |hex.lines|
    ensures LinesUpTo(done, n, hex, l + 1) == LinesUpTo(done, n, hex, l) + [LinePair(n, hex.lines[l])[0]] + [LinePair(n, hex.lines[l])[1]]
  {
    LineItemsSnoc(n, hex.lines, l);
  }

  lemma LinesUpToAll(done: seq<Item>, n: nat, hex: HexText)
    ensures LinesUpTo(done, n, hex, |hex.lines|) == done + HexItems(n, hex)
  {
    assert hex.lines[..|hex.lines|] == hex.lines;
  }

  lemma LineItemsSnoc(n: nat, lines: seq<(nat, Note)>, l: nat)
    requires l < |lines|
    ensures LineItems(n, lines[..l + 1]) == LineItems(n, lines[..l]) + LinePair(n, lines[l])
  {
    assert lines[..l + 1][..l] == lines[..l];
  }

  // ---------------------------------------------------------------------------
  // Counts and layout
  // ---------------------------------------------------------------------------

  lemma {:induction false} LineItemsLength(n: nat, lines: seq<(nat, Note)>)
    ensures |LineItems(n, lines)| == 2 * |lines|
  {
    if lines != [] {
      LineItemsLength(n, lines[..|lines| - 1]);
    }
  }

  /** Each hexagram contributes six texts plus two per line. */
  lemma HexItemsLength(n: nat, hex: HexText)
    ensures |HexItems(n, hex)| == 6 + 2 * |hex.lines|
  {
    LineItemsLength(n, hex.lines);
  }

  /** The number of texts the hexagrams contribute in total. */
  function HexTextCount(hexagrams: seq<(nat, HexText)>): nat
  {
    if hexagrams == [] then 0
    else HexTextCount(hexagrams[..|hexagrams| - 1]) + 6 + 2 * |hexagrams[|hexagrams| - 1].1.lines|
  }

  /**
   * The ui strings come first, as ui items in declaration order; every
   * later item belongs to a hexagram; and there are as many items as ui
   * strings plus six per hexagram plus two per line.
   */
  lemma {:induction false} UiItemsAt(ui: seq<(string, string)>)
    ensures |UiItems(ui)| == |ui|
    ensures forall i :: 0 <= i < |ui| ==> UiItems(ui)[i] == Item(Mapping(UiText, ui[i].0), ui[i].1)
  {
    if ui != [] {
      UiItemsAt(ui[..|ui| - 1]);
    }
  }

  lemma {:induction false} ItemsLayout(english: English)
    ensures |Items(english)| == |english.ui| + HexTextCount(english.hexagrams)
    ensures forall i :: 0 <= i < |english.ui| ==>
      Items(english)[i] == Item(Mapping(UiText, english.ui[i].0), english.ui[i].1)
    ensures forall i :: |english.ui| <= i < |Items(english)| ==> Items(english)[i].mapping.kind == HexagramText
  {
    UiItemsAt(english.ui);
    AllHexItemsLength(english.hexagrams);
    AllHexItemsKind(english.hexagrams);
    forall i | |english.ui| <= i < |Items(english)| ensures Items(english)[i].mapping.kind == HexagramText {
      assert Items(english)[i] == AllHexItems(english.hexagrams)[i - |english.ui|];
    }
  }

  lemma {:induction false} AllHexItemsLength(hexagrams: seq<(nat, HexText)>)
    ensures |AllHexItems(hexagrams)| == HexTextCount(hexagrams)
  {
    if hexagrams != [] {
      var last := hexagrams[|hexagrams| - 1];
      AllHexItemsLength(hexagrams[..|hexagrams| - 1]);
      HexItemsLength(last.0, last.1);
    }
  }

  /** Every item of `items` goes back into the hexagrams. */
  predicate AllHexagramKind(items: seq<Item>)
  {
    forall i :: 0 <= i < |items| ==> items[i].mapping.kind == HexagramText
  }

  lemma AllHexagramKindConcat(a: seq<Item>, b: seq<Item>)
    requires AllHexagramKind(a) && AllHexagramKind(b)
    ensures AllHexagramKind(a + b)
  {
    forall i | 0 <= i < |a + b| ensures (a + b)[i].mapping.kind == HexagramText {
      if i >= |a| {
        assert (a + b)[i] == b[i - |a|];
      }
    }
  }

  lemma {:induction false} LineItemsKind(n: nat, lines: seq<(nat, Note)>)
    ensures AllHexagramKind(LineItems(n, lines))
  {
    if lines != [] {
      LineItemsKind(n, lines[..|lines| - 1]);
      AllHexagramKindConcat(LineItems(n, lines[..|lines| - 1]), LinePair(n, lines[|lines| - 1]));
    }
  }

  lemma {:induction false} AllHexItemsKind(hexagrams: seq<(nat, HexText)>)
    ensures AllHexagramKind(AllHexItems(hexagrams))
  {
    if hexagrams != [] {
      var last := hexagrams[|hexagrams| - 1];
      AllHexItemsKind(hexagrams[..|hexagrams| - 1]);
      LineItemsKind(last.0, last.1.lines);
      AllHexagramKindConcat(HeadItems(last.0, last.1), LineItems(last.0, last.1.lines));
      AllHexagramKindConcat(AllHexItems(hexagrams[..|hexagrams| - 1]), HexItems(last.0, last.1));
    }
  }
}
