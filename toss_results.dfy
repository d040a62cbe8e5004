/**
 * The coin-toss panel: one row per toss, labelled from 1, showing a coin
 * image and a letter per coin (3 is heads, every other value tails) and the
 * letters joined with ", ".
 */
module TossResults {
  import opened Strings

  datatype Face = Heads | Tails

  /** The face a coin value shows: 3 is heads, anything else tails. */
  function FaceOf(coin: int): Face
  {
    if coin == 3 then Heads else Tails
  }

  function Letter(coin: int): char
  {
    if coin == 3 then 'H' else 'T'
  }

  function IconSrc(coin: int): string
  {
    if coin == 3 then "/icons/fengshuicoinheads-icon.png" else "/icons/fengshuicointails-icon.png"
  }

  function IconAlt(coin: int): string
  {
    if coin == 3 then "Heads" else "Tails"
  }

  datatype Icon = Icon(src: string, alt: string)

  /** One rendered row: its 1-based line number, one image per coin, and the letter text. */
  datatype Row = Row(lineNumber: nat, icons: seq<Icon>, text: string)

  function Letters(toss: seq<int>): seq<string>
  {
    seq(|toss|, k requires 0 <= k < |toss| => [Letter(toss[k])])
  }

  /** `toss.map(coin => coin === 3 ? "H" : "T").join(", ")`. */
  function RowText(toss: seq<int>): string
  {
    Join(Letters(toss), ", ")
  }

  function Icons(toss: seq<int>): seq<Icon>
  {
    seq(|toss|, k requires 0 <= k < |toss| => Icon(IconSrc(toss[k]), IconAlt(toss[k])))
  }

  /** The panel: one row per toss, in input order. */
  function Rows(coinTosses: seq<seq<int>>): (rows: seq<Row>)
    ensures |rows| == |coinTosses|
    ensures forall i :: 0 <= i < |rows| ==>
      rows[i].lineNumber == i + 1 && |rows[i].icons| == |coinTosses[i]| && rows[i].text == RowText(coinTosses[i])
  {
    seq(|coinTosses|, i requires 0 <= i < |coinTosses| =>
      Row(i + 1, Icons(coinTosses[i]), RowText(coinTosses[i])))
  }

  /**
   * The row text is a letter for every coin, at every third position, with
   * ", " between consecutive letters and nothing else.
   */
  lemma {:induction false} RowTextLayout(toss: seq<int>)
    ensures |RowText(toss)| == if toss == [] then 0 else 3 * |toss| - 2
    ensures forall i :: 0 <= i < |RowText(toss)| ==>
      RowText(toss)[i] == (if i % 3 == 0 then Letter(toss[i / 3]) else if i % 3 == 1 then ',' else ' ')
  {
    var letters := Letters(toss);
    if |toss| > 1 {
      var tail := toss[1..];
      RowTextLayout(tail);
      assert letters[1..] == Letters(tail);
      var text := RowText(toss);
      assert text == [Letter(toss[0])] + ", " + RowText(tail);
      forall i | 3 <= i < |text|
        ensures text[i] == (if i % 3 == 0 then Letter(toss[i / 3]) else if i % 3 == 1 then ',' else ' ')
      {
        assert text[i] == RowText(tail)[i - 3];
        assert (i - 3) % 3 == i % 3 && (i - 3) / 3 == i / 3 - 1;
      }
    }
  }

  function LetterFace(ch: char): Face
  {
    if ch == 'H' then Heads else Tails
  }

  /** Reads a row text back: the face named by every third character. */
  function ReadFaces(text: string): seq<Face>
    decreases |text|
  {
    if text == [] then []
    else [LetterFace(text[0])] + (if |text| > 3 then ReadFaces(text[3..]) else [])
  }

  /** Reading a row text back gives the face of every coin, in order. */
  lemma {:induction false} ReadRowText(toss: seq<int>)
    ensures ReadFaces(RowText(toss)) == seq(|toss|, k requires 0 <= k < |toss| => FaceOf(toss[k]))
  {
    var text := RowText(toss);
    RowTextLayout(toss);
    if |toss| > 1 {
      var tail := toss[1..];
      assert Letters(toss)[1..] == Letters(tail);
      assert text == [Letter(toss[0])] + ", " + RowText(tail);
      assert text[3..] == RowText(tail);
      ReadRowText(tail);
    } else if |toss| == 1 {
      assert text == [Letter(toss[0])];
    }
  }

  /** In every row the k-th image and the k-th letter agree on heads or tails. */
  lemma IconMatchesLetter(coinTosses: seq<seq<int>>, i: nat, k: nat)
    requires i < |coinTosses| && k < |coinTosses[i]|
    ensures k < |Rows(coinTosses)[i].icons| && 3 * k < |Rows(coinTosses)[i].text|
    ensures (Rows(coinTosses)[i].icons[k].alt == "Heads") <==> (Rows(coinTosses)[i].text[3 * k] == 'H')
    ensures (Rows(coinTosses)[i].text[3 * k] == 'H') <==> FaceOf(coinTosses[i][k]) == Heads
  {
    RowTextLayout(coinTosses[i]);
    assert (3 * k) % 3 == 0 && (3 * k) / 3 == k;
  }
}
