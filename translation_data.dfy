/**
 * The shapes the translation generator works on: the English source record
 * (ui strings in declaration order, hexagrams and their lines keyed by
 * number), the JSON object a translation file holds, and the build of the
 * English record from the Wilhelm data.
 *
 * An object whose keys are integers enumerates them in ascending order, so
 * such an object is an association list with strictly ascending keys here;
 * assigning to it overwrites the entry in place or inserts it in key order.
 */
module TranslationData {
  import opened Wrappers
  import opened Strings

  datatype Note = Note(text: string, comments: string)

  /** One hexagram as the English record holds it. */
  datatype HexText = HexText(name: string, symbolic: string, judgment: Note, image: Note, lines: seq<(nat, Note)>)

  datatype English = English(hexagrams: seq<(nat, HexText)>, ui: seq<(string, string)>)

  /** The fields of one Wilhelm data entry that the generator reads. */
  datatype WilhelmEntry = WilhelmEntry(
    name: string,
    wilhelmSymbolic: string,
    wilhelmJudgment: Note,
    wilhelmImage: Note,
    wilhelmLines: seq<(nat, Note)>)

  // ---------------------------------------------------------------------------
  // Objects with integer keys
  // ---------------------------------------------------------------------------

  predicate Ascending<T>(entries: seq<(nat, T)>)
  {
    forall i, j :: 0 <= i < j < |entries| ==> entries[i].0 < entries[j].0
  }

  function Lookup<T>(entries: seq<(nat, T)>, k: nat): Option<T>
  {
    if entries == [] then None
    else if entries[0].0 == k then Some(entries[0].1)
    else Lookup(entries[1..], k)
  }

  /** `object[k] = v`: overwrite the entry for `k`, or insert it before the first larger key. */
  function Assign<T>(entries: seq<(nat, T)>, k: nat, v: T): seq<(nat, T)>
  {
    if entries == [] then [(k, v)]
    else if entries[0].0 == k then [(k, v)] + entries[1..]
    else if k < entries[0].0 then [(k, v)] + entries
    else [entries[0]] + Assign(entries[1..], k, v)
  }

  lemma {:induction false} LookupAbsent<T>(entries: seq<(nat, T)>, k: nat)
    requires Ascending(entries)
    requires entries != [] ==> k < entries[0].0
    ensures Lookup(entries, k) == None
  {
    if entries != [] {
      if |entries| > 1 {
        assert entries[1..][0] == entries[1];
      }
      LookupAbsent(entries[1..], k);
    }
  }

  /** Assigning keeps the keys ascending, makes `k` map to `v` and leaves every other key alone. */
  lemma {:induction false} AssignSpec<T>(entries: seq<(nat, T)>, k: nat, v: T)
    requires Ascending(entries)
    ensures Ascending(Assign(entries, k, v))
    ensures forall p :: p in Assign(entries, k, v) ==> p == (k, v) || p in entries
    ensures forall j :: Lookup(Assign(entries, k, v), j) == if j == k then Some(v) else Lookup(entries, j)
  {
    var r := Assign(entries, k, v);
    if entries == [] {
    } else if entries[0].0 == k {
      assert r[1..] == entries[1..];
      forall j ensures Lookup(r, j) == if j == k then Some(v) else Lookup(entries, j) {
        if j == k {
        } else {
          assert Lookup(r, j) == Lookup(entries[1..], j);
        }
      }
    } else if k < entries[0].0 {
      assert r[1..] == entries;
      forall j ensures Lookup(r, j) == if j == k then Some(v) else Lookup(entries, j) {
        if j == k {
        } else {
          assert Lookup(r, j) == Lookup(entries, j);
        }
      }
    } else {
      var rest := Assign(entries[1..], k, v);
      AssignSpec(entries[1..], k, v);
      assert r == [entries[0]] + rest;
      assert r[1..] == rest;
      forall i, j | 0 <= i < j < |r| ensures r[i].0 < r[j].0 {
        if i == 0 {
          assert r[j] in rest;
          assert r[j] == (k, v) || r[j] in entries[1..];
          if r[j] in entries[1..] {
            var m :| 0 <= m < |entries[1..]| && entries[1..][m] == r[j];
            assert entries[m + 1] == r[j];
          }
        } else {
          assert r[i] == rest[i - 1] && r[j] == rest[j - 1];
        }
      }
      forall p | p in r ensures p == (k, v) || p in entries {
        if p != r[0] {
          assert p in rest;
        }
      }
      forall j ensures Lookup(r, j) == if j == k then Some(v) else Lookup(entries, j) {
        if j != entries[0].0 {
          assert Lookup(r, j) == Lookup(rest, j);
          assert Lookup(entries, j) == Lookup(entries[1..], j);
        }
      }
    }
  }

  // ---------------------------------------------------------------------------
  // The English record
  // ---------------------------------------------------------------------------

  /** The ui strings, in the order the English record declares them. */
  function UiEnglish(): seq<(string, string)>
  {
    [ ("home", "Home"), ("about", "About"), ("history", "History"), ("profile", "Profile"),
      ("signIn", "Sign In"), ("signOut", "Sign Out"), ("tossCoins", "Toss Coins"),
      ("tossAgain", "Toss Again"), ("inputTosses", "Input Tosses"), ("resetTosses", "Reset Tosses"),
      ("viewDetails", "View Details"), ("hideDetails", "Hide Details"),
      ("setIntention", "Set your intention"), ("hexagramReceived", "Hexagram received"),
      ("interpretation", "Interpretation"), ("symbolism", "Symbolism"), ("judgment", "Judgment"),
      ("image", "Image"), ("lines", "Lines"), ("lowerTrigram", "Lower Trigram"),
      ("upperTrigram", "Upper Trigram"), ("hexagramNumber", "Hexagram Number"),
      ("originalText", "Original Text"), ("comments", "Comments"), ("totalReadings", "Total readings"),
      ("thisMonth", "This month"), ("uniqueHexagrams", "Unique hexagrams"),
      ("recentConsultations", "Recent consultations"), ("noHistory", "No history available"),
      ("loading", "Loading"), ("manualToss", "Manual toss"), ("automaticToss", "Automatic toss") ]
  }

  /** The English record of one Wilhelm entry: its name, symbolic, judgment, image and lines as they are. */
  function FromWilhelm(entry: WilhelmEntry): HexText
  {
    HexText(entry.name, entry.wilhelmSymbolic,
      Note(entry.wilhelmJudgment.text, entry.wilhelmJudgment.comments),
      Note(entry.wilhelmImage.text, entry.wilhelmImage.comments),
      entry.wilhelmLines)
  }

  /** The English record of the last data entry numbered `n`, if any. */
  function LastEntry(data: seq<(nat, WilhelmEntry)>, n: nat): Option<HexText>
  {
    if data == [] then None
    else if data[|data| - 1].0 == n then Some(FromWilhelm(data[|data| - 1].1))
    else LastEntry(data[..|data| - 1], n)
  }

  /** The hexagrams object after assigning every data entry in order. */
  function HexagramsOf(data: seq<(nat, WilhelmEntry)>): seq<(nat, HexText)>
  {
    if data == [] then []
    else Assign(HexagramsOf(data[..|data| - 1]), data[|data| - 1].0, FromWilhelm(data[|data| - 1].1))
  }

  /** The English record the data gives. */
  function EnglishOf(data: seq<(nat, WilhelmEntry)>): English
  {
    English(HexagramsOf(data), UiEnglish())
  }

  /**
   * The English record: the ui strings, and one hexagram per data entry,
   * keyed by its number in ascending order, a later entry with the same
   * number replacing an earlier one.
   */
  method BuildEnglish(data: seq<(nat, WilhelmEntry)>) returns (english: English)
    ensures english == EnglishOf(data)
    ensures english.ui == UiEnglish()
    ensures Ascending(english.hexagrams)
    ensures forall n :: Lookup(english.hexagrams, n) == LastEntry(data, n)
  {
    var hexagrams: seq<(nat, HexText)> := [];
    var i := 0;
    while i < |data|
      invariant 0 <= i <= |data|
      invariant hexagrams == HexagramsOf(data[..i])
      invariant Ascending(hexagrams)
      invariant forall n :: Lookup(hexagrams, n) == LastEntry(data[..i], n)
    {
      var (hexNumber, value) := data[i];
      AssignSpec(hexagrams, hexNumber, FromWilhelm(value));
      hexagrams := Assign(hexagrams, hexNumber, FromWilhelm(value));
      assert data[..i + 1][..i] == data[..i];
      i := i + 1;
    }
    assert data[..i] == data;
    english := English(hexagrams, UiEnglish());
  }

  /** The English record is well formed when every integer-keyed list has ascending keys. */
  predicate WellFormed(english: English)
  {
    && Ascending(english.hexagrams)
    && forall i :: 0 <= i < |english.hexagrams| ==> Ascending(english.hexagrams[i].1.lines)
  }

  /** Data whose line objects have ascending keys, as integer-keyed objects always enumerate, gives a well-formed record. */
  lemma {:induction false} EnglishWellFormed(data: seq<(nat, WilhelmEntry)>)
    requires forall i :: 0 <= i < |data| ==> Ascending(data[i].1.wilhelmLines)
    ensures WellFormed(EnglishOf(data))
  {
    if data != [] {
      var front := data[..|data| - 1];
      var last := data[|data| - 1];
      EnglishWellFormed(front);
      var before := HexagramsOf(front);
      AssignSpec(before, last.0, FromWilhelm(last.1));
      var after := HexagramsOf(data);
      forall i | 0 <= i < |after| ensures Ascending(after[i].1.lines) {
        assert after[i] in after;
        if after[i] != (last.0, FromWilhelm(last.1)) {
          var j :| 0 <= j < |before| && before[j] == after[i];
        }
      }
    }
  }

  // ---------------------------------------------------------------------------
  // The JSON object of a translation file
  // ---------------------------------------------------------------------------

  /** One hexagram of a translation file; the nested objects are maps from property name to value. */
  datatype HexRecord = HexRecord(
    name: string,
    symbolic: string,
    judgment: map<string, string>,
    image: map<string, string>,
    lines: map<string, map<string, string>>)

  /** A translation file: hexagrams and ui strings by property name. */
  datatype Translated = Translated(hexagrams: map<string, HexRecord>, ui: map<string, string>)

  function NoteView(note: Note): map<string, string>
  {
    map["text" := note.text, "comments" := note.comments]
  }

  function LinesView(lines: seq<(nat, Note)>): map<string, map<string, string>>
  {
    if lines == [] then map[]
    else LinesView(lines[..|lines| - 1])[NatToString(lines[|lines| - 1].0) := NoteView(lines[|lines| - 1].1)]
  }

  function HexView(hex: HexText): HexRecord
  {
    HexRecord(hex.name, hex.symbolic, NoteView(hex.judgment), NoteView(hex.image), LinesView(hex.lines))
  }

  function HexagramsView(hexagrams: seq<(nat, HexText)>): map<string, HexRecord>
  {
    if hexagrams == [] then map[]
    else HexagramsView(hexagrams[..|hexagrams| - 1])[
      NatToString(hexagrams[|hexagrams| - 1].0) := HexView(hexagrams[|hexagrams| - 1].1)]
  }

  /** The ui object: every key with its string, a later key overriding an earlier one. */
  function UiView(ui: seq<(string, string)>): map<string, string>
  {
    if ui == [] then map[] else UiView(ui[..|ui| - 1])[ui[|ui| - 1].0 := ui[|ui| - 1].1]
  }

  /** The English record as the JSON object the English translation file holds. */
  function EnglishView(english: English): Translated
  {
    Translated(HexagramsView(english.hexagrams), UiView(english.ui))
  }
}
