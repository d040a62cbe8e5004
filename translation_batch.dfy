/**
 * Batched translation: the texts are cut into chunks of 50; in each chunk
 * the blank texts are dropped and the rest trimmed; a chunk with nothing
 * left is skipped; the others are sent, in order, to the translator, whose
 * answers are concatenated. A failing request ends the whole run with an
 * error. The translation service is a parameter: a function from the
 * cleaned chunk to its translations, or None when the request fails.
 */
module TranslationBatch {
  import opened Wrappers
  import opened Strings

  /** The most texts one request may carry. */
  const BatchSize: nat := 50

  /** Keep the texts that are not blank after trimming, trimmed. */
  function Clean(texts: seq<string>): (cleaned: seq<string>)
    ensures |cleaned| <= |texts|
  {
    if texts == [] then []
    else Clean(texts[..|texts| - 1]) + (if Trim(texts[|texts| - 1]) != [] then [Trim(texts[|texts| - 1])] else [])
  }

  function Min(a: nat, b: nat): nat
  {
    if a < b then a else b
  }

  /** `texts.slice(50 j, 50 j + 50)`, empty once past the end. */
  function Chunk(texts: seq<string>, j: nat): seq<string>
  {
    texts[Min(BatchSize * j, |texts|)..Min(BatchSize * j + BatchSize, |texts|)]
  }

  /** One chunk's step: a failure stays a failure, an empty cleaned chunk is skipped, otherwise its translations are appended. */
  function Step(previous: Option<seq<string>>, cleaned: seq<string>, translate: seq<string> -> Option<seq<string>>): Option<seq<string>>
  {
    if previous.None? then None
    else if cleaned == [] then previous
    else if translate(cleaned).None? then None
    else Some(previous.value + translate(cleaned).value)
  }

  /** The outcome of sending the cleaned chunks in order: their translations concatenated, or None once a request failed. */
  function Fold(chunks: seq<seq<string>>, translate: seq<string> -> Option<seq<string>>): Option<seq<string>>
  {
    if chunks == [] then Some([])
    else Step(Fold(chunks[..|chunks| - 1], translate), chunks[|chunks| - 1], translate)
  }

  /** Every chunk of the texts, cleaned; |texts| chunks always cover the input, the ones past the end empty. */
  function CleanedChunks(texts: seq<string>): (chunks: seq<seq<string>>)
    ensures |chunks| == |texts|
  {
    seq(|texts|, j requires 0 <= j < |texts| => Clean(Chunk(texts, j)))
  }

  /** The outcome of the whole input. */
  function TranslatedTexts(texts: seq<string>, translate: seq<string> -> Option<seq<string>>): Option<seq<string>>
  {
    Fold(CleanedChunks(texts), translate)
  }

  lemma FoldSnoc(chunks: seq<seq<string>>, k: nat, translate: seq<string> -> Option<seq<string>>)
    requires k < |chunks|
    ensures Fold(chunks[..k + 1], translate) == Step(Fold(chunks[..k], translate), chunks[k], translate)
  {
    assert chunks[..k + 1][..k] == chunks[..k];
  }

  /** Once a request has failed the outcome stays a failure. */
  lemma {:induction false} FailurePersists(chunks: seq<seq<string>>, translate: seq<string> -> Option<seq<string>>, k: nat)
    requires k <= |chunks| && Fold(chunks[..k], translate).None?
    ensures Fold(chunks, translate).None?
    decreases |chunks| - k
  {
    if k < |chunks| {
      FoldSnoc(chunks, k, translate);
      FailurePersists(chunks, translate, k + 1);
    } else {
      assert chunks[..k] == chunks;
    }
  }

  /** Empty chunks change nothing. */
  lemma {:induction false} StableOverEmpty(chunks: seq<seq<string>>, translate: seq<string> -> Option<seq<string>>, k: nat)
    requires k <= |chunks|
    requires forall j :: k <= j < |chunks| ==> chunks[j] == []
    ensures Fold(chunks, translate) == Fold(chunks[..k], translate)
  {
    if k < |chunks| {
      var n := |chunks|;
      StableOverEmpty(chunks[..n - 1], translate, k);
      assert chunks[..n - 1][..k] == chunks[..k];
    } else {
      assert chunks[..k] == chunks;
    }
  }

  /** Chunks that start past the end of the texts are empty. */
  lemma EmptyBeyondEnd(texts: seq<string>, k: nat)
    requires BatchSize * k >= |texts|
    ensures forall j :: k <= j < |texts| ==> CleanedChunks(texts)[j] == []
  {
    forall j | k <= j < |texts|
      ensures CleanedChunks(texts)[j] == []
    {
      assert Chunk(texts, j) == [];
    }
  }

  /**
   * Send the texts in chunks of 50, skipping chunks with no non-blank text,
   * and collect the translations in order; a failed request fails the run.
   */
  method TranslateBatch(texts: seq<string>, translate: seq<string> -> Option<seq<string>>)
    returns (result: Option<seq<string>>)
    ensures result == TranslatedTexts(texts, translate)
  {
    ghost var chunks := CleanedChunks(texts);
    var results: seq<string> := [];
    var i := 0;
    ghost var k: nat := 0;
    while i < |texts|
      invariant i == BatchSize * k && k <= |texts|
      invariant Fold(chunks[..k], translate) == Some(results)
    {
      var next := TranslateChunk(texts, translate, i, k, results);
      FoldSnoc(chunks, k, translate);
      if next.None? {
        FailurePersists(chunks, translate, k + 1);
        return None;
      }
      results := next.value;
      i, k := i + BatchSize, k + 1;
    }
    EmptyBeyondEnd(texts, k);
    StableOverEmpty(chunks, translate, k);
    return Some(results);
  }

  /**
   * One pass of the loop body: the chunk at `i` is cleaned; an empty chunk
   * is skipped, otherwise it is sent and its translations appended, and a
   * failed request is reported as None.
   */
  method TranslateChunk(texts: seq<string>, translate: seq<string> -> Option<seq<string>>, i: nat, ghost k: nat, results: seq<string>)
    returns (next: Option<seq<string>>)
    requires i == BatchSize * k && i < |texts|
    ensures k < |texts|
    ensures next == Step(Some(results), CleanedChunks(texts)[k], translate)
  {
    var batch := texts[i..Min(i + BatchSize, |texts|)];
    assert batch == Chunk(texts, k);
    var cleanedBatch := Clean(batch);
    if cleanedBatch == [] {
      return Some(results);
    }
    var response := translate(cleanedBatch);
    if response.None? {
      return None;
    }
    return Some(results + response.value);
  }

  // ---------------------------------------------------------------------------
  // What comes back
  // ---------------------------------------------------------------------------

  lemma {:induction false} CleanConcat(a: seq<string>, b: seq<string>)
    ensures Clean(a + b) == Clean(a) + Clean(b)
  {
    if b != [] {
      var ab := a + b;
      var init := b[..|b| - 1];
      var last := b[|b| - 1];
      var kept := if Trim(last) != [] then [Trim(last)] else [];
      assert ab[..|ab| - 1] == a + init;
      assert ab[|ab| - 1] == last;
      assert Clean(ab) == Clean(a + init) + kept;
      assert Clean(b) == Clean(init) + kept;
      CleanConcat(a, init);
    } else {
      assert a + b == a;
    }
  }

  /** The texts of the first `k` chunks. */
  function Prefix(texts: seq<string>, k: nat): seq<string>
  {
    texts[..Min(BatchSize * k, |texts|)]
  }

  /** The cleaned prefix of `k + 1` chunks is that of `k` chunks followed by the cleaned chunk `k`. */
  lemma PrefixClean(texts: seq<string>, k: nat)
    ensures Clean(Prefix(texts, k + 1)) == Clean(Prefix(texts, k)) + Clean(Chunk(texts, k))
  {
    assert Prefix(texts, k + 1) == Prefix(texts, k) + Chunk(texts, k);
    CleanConcat(Prefix(texts, k), Chunk(texts, k));
  }

  /** All the chunks' texts, in order. */
  function Concat(chunks: seq<seq<string>>): seq<string>
  {
    if chunks == [] then [] else Concat(chunks[..|chunks| - 1]) + chunks[|chunks| - 1]
  }

  lemma {:induction false} ConcatCleanedUpTo(texts: seq<string>, k: nat)
    requires k <= |texts|
    ensures Concat(CleanedChunks(texts)[..k]) == Clean(Prefix(texts, k))
  {
    var chunks := CleanedChunks(texts);
    if k > 0 {
      ConcatCleanedUpTo(texts, k - 1);
      assert chunks[..k][..k - 1] == chunks[..k - 1];
      PrefixClean(texts, k - 1);
    } else {
      assert Prefix(texts, 0) == [];
    }
  }

  /** The cleaned chunks, put back together, are the cleaned texts. */
  lemma ConcatCleaned(texts: seq<string>)
    ensures Concat(CleanedChunks(texts)) == Clean(texts)
  {
    ConcatCleanedUpTo(texts, |texts|);
    assert CleanedChunks(texts)[..|texts|] == CleanedChunks(texts);
    assert Prefix(texts, |texts|) == texts;
  }

  /** A translator that answers every request with as many texts as it was sent. */
  ghost predicate LengthPreserving(translate: seq<string> -> Option<seq<string>>)
  {
    forall batch :: translate(batch).Some? ==> |translate(batch).value| == |batch|
  }

  lemma {:induction false} FoldLength(chunks: seq<seq<string>>, translate: seq<string> -> Option<seq<string>>)
    requires LengthPreserving(translate)
    requires Fold(chunks, translate).Some?
    ensures |Fold(chunks, translate).value| == |Concat(chunks)|
  {
    if chunks != [] {
      var last := chunks[|chunks| - 1];
      var before := Fold(chunks[..|chunks| - 1], translate);
      if last != [] {
        assert translate(last).Some?;
      }
      FoldLength(chunks[..|chunks| - 1], translate);
    }
  }

  /**
   * With a translator that keeps lengths, a successful run returns one text
   * per non-blank input: the blank ones are lost, not kept as placeholders.
   */
  lemma TranslatedLength(texts: seq<string>, translate: seq<string> -> Option<seq<string>>)
    requires LengthPreserving(translate)
    requires TranslatedTexts(texts, translate).Some?
    ensures |TranslatedTexts(texts, translate).value| == |Clean(texts)|
  {
    FoldLength(CleanedChunks(texts), translate);
    ConcatCleaned(texts);
  }

  /** A translator that answers every request with the texts it was sent. */
  function Echo(batch: seq<string>): Option<seq<string>>
  {
    Some(batch)
  }

  /** With Echo, the outcome is the chunks put back together. */
  lemma {:induction false} FoldEcho(chunks: seq<seq<string>>)
    ensures Fold(chunks, Echo) == Some(Concat(chunks))
  {
    if chunks != [] {
      var before := Concat(chunks[..|chunks| - 1]);
      var last := chunks[|chunks| - 1];
      FoldEcho(chunks[..|chunks| - 1]);
      if last == [] {
        assert before + last == before;
      } else {
        assert Echo(last) == Some(last);
      }
    }
  }

  /** With a translator that returns its input, the run returns the cleaned texts. */
  lemma Untranslated(texts: seq<string>)
    ensures TranslatedTexts(texts, Echo) == Some(Clean(texts))
  {
    FoldEcho(CleanedChunks(texts));
    ConcatCleaned(texts);
  }

  /** Cleaning keeps texts that are already trimmed and not blank, and only those unchanged. */
  lemma {:induction false} CleanKeepsTrimmed(texts: seq<string>)
    requires forall i :: 0 <= i < |texts| ==> texts[i] != [] && IsTrimmed(texts[i])
    ensures Clean(texts) == texts
  {
    if texts != [] {
      var last := texts[|texts| - 1];
      CleanKeepsTrimmed(texts[..|texts| - 1]);
      TrimTrims(last);
      assert texts[..|texts| - 1] + [last] == texts;
    }
  }

  /** Every text that cleaning keeps is non-blank and trimmed. */
  lemma {:induction false} CleanIsTrimmed(texts: seq<string>)
    ensures forall t :: t in Clean(texts) ==> t != [] && IsTrimmed(t)
  {
    if texts != [] {
      var last := texts[|texts| - 1];
      CleanIsTrimmed(texts[..|texts| - 1]);
      TrimTrims(last);
    }
  }

  /**
   * Every chunk sent to the translator holds at most 50 texts, each
   * non-blank and trimmed; an empty chunk is never sent.
   */
  lemma ChunkBounded(texts: seq<string>, j: nat)
    requires j < |texts|
    ensures |CleanedChunks(texts)[j]| <= BatchSize
    ensures forall t :: t in CleanedChunks(texts)[j] ==> t != [] && IsTrimmed(t)
  {
    CleanIsTrimmed(Chunk(texts, j));
  }

  /**
   * A blank text shifts everything after it: three texts with a blank in the
   * middle come back as two, so the translation of the third sits at the
   * index the blank one had.
   */
  lemma BlankShiftsLaterTexts()
    ensures TranslatedTexts(["Home", " ", "About"], Echo) == Some(["Home", "About"])
  {
    var texts: seq<string> := ["Home", " ", "About"];
    Untranslated(texts);
    assert Trim(" ") == [] by {
      assert AllWhitespace(" ");
      TrimEmptyIffWhitespace(" ");
    }
    assert Trim("Home") == "Home" by {
      TrimTrims("Home");
    }
    assert Trim("About") == "About" by {
      TrimTrims("About");
    }
    assert texts[..2][..1] == ["Home"] && texts[..1][..0] == [];
    assert Clean(texts[..1]) == ["Home"];
    assert Clean(texts[..2]) == ["Home"];
    assert texts[..2] == texts[..|texts| - 1];
    assert Clean(texts) == ["Home", "About"];
  }
}
