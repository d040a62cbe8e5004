/**
 * The translation generator's main run: without an API key it exits;
 * otherwise it writes the English file, then for each target language
 * flattens the English record, translates the texts in batches, rebuilds
 * the file and writes it under the language's lower-cased code before the
 * first '-'. A language whose translation fails is reported and skipped.
 * The files written are a map from language code to file contents, a later
 * write replacing an earlier one.
 */
module TranslationMain {
  import opened Wrappers
  import opened Strings
  import opened TranslationData
  import opened TranslationFlatten
  import opened TranslationBatch
  import opened TranslationRebuild

  /** The languages the generator translates into, in order. */
  const TargetLanguages: seq<string> := ["PT-PT", "PT-BR", "ES", "FR", "DE", "IT", "ZH", "JA", "KO"]

  /** The directory a language's file is written to: `lang.toLowerCase().split("-")[0]`. */
  function LangCode(lang: string): string
  {
    Split(ToLower(lang), '-')[0]
  }

  /** A run ends either by exiting for a missing key or with the files written. */
  datatype Outcome = Exited | Written(files: map<string, Translated>)

  /** `!apiKey`: no key, or the empty string. */
  predicate HasKey(apiKey: Option<string>)
  {
    apiKey.Some? && apiKey.value != ""
  }

  /** The file one language yields, or None when a request failed. */
  function LanguageFile(english: English, translate: string -> seq<string> -> Option<seq<string>>, lang: string): Option<Translated>
  {
    var items := Items(english);
    match TranslatedTexts(TextsOf(items), translate(lang))
    case None => None
    case Some(translations) => Some(RebuildUpTo(translations, MapOf(items), |translations|))
  }

  /** The outcome of every target language, in order. */
  function LanguageResults(english: English, translate: string -> seq<string> -> Option<seq<string>>): (results: seq<Option<Translated>>)
    ensures |results| == |TargetLanguages|
  {
    seq(|TargetLanguages|, i requires 0 <= i < |TargetLanguages| => LanguageFile(english, translate, TargetLanguages[i]))
  }

  /** The files after the English one and the outcomes of the first `k` target languages. */
  function FilesUpTo(englishFile: Translated, results: seq<Option<Translated>>, k: nat): map<string, Translated>
    requires k <= |results| <= |TargetLanguages|
  {
    if k == 0 then map["en" := englishFile]
    else
      var files := FilesUpTo(englishFile, results, k - 1);
      match results[k - 1]
      case None => files
      case Some(file) => files[LangCode(TargetLanguages[k - 1]) := file]
  }

  /** Translate the files of one language: flatten, translate in batches, rebuild. */
  method TranslateLanguage(english: English, translate: string -> seq<string> -> Option<seq<string>>, lang: string)
    returns (file: Option<Translated>)
    ensures file == LanguageFile(english, translate, lang)
  {
    var texts, textMap := Flatten(english);
    var translations := TranslateBatch(texts, translate(lang));
    if translations.None? {
      return None;
    }
    var rebuilt := Rebuild(translations.value, textMap);
    file := Some(rebuilt);
  }

  /**
   * Exit without a key; otherwise write the English file and then, in
   * order, the file of every target language whose translation succeeds.
   */
  method GenerateTranslations(data: seq<(nat, WilhelmEntry)>, apiKey: Option<string>, translate: string -> seq<string> -> Option<seq<string>>)
    returns (outcome: Outcome)
    ensures !HasKey(apiKey) ==> outcome == Exited
    ensures HasKey(apiKey) ==>
      outcome == Written(FilesUpTo(EnglishView(EnglishOf(data)), LanguageResults(EnglishOf(data), translate), |TargetLanguages|))
  {
    if !HasKey(apiKey) {
      return Exited;
    }
    var english := BuildEnglish(data);
    var files := WriteFiles(english, translate);
    outcome := Written(files);
  }

  /** Write the English file, then every target language's file in order, skipping failures. */
  method WriteFiles(english: English, translate: string -> seq<string> -> Option<seq<string>>)
    returns (files: map<string, Translated>)
    ensures files == FilesUpTo(EnglishView(english), LanguageResults(english, translate), |TargetLanguages|)
  {
    files := map["en" := EnglishView(english)];
    var i := 0;
    while i < |TargetLanguages|
      invariant i <= |TargetLanguages|
      invariant files == FilesUpTo(EnglishView(english), LanguageResults(english, translate), i)
    {
      var lang := TargetLanguages[i];
      var file := TranslateLanguage(english, translate, lang);
      if file.Some? {
        files := files[LangCode(lang) := file.value];
      }
      i := i + 1;
    }
  }

  // ---------------------------------------------------------------------------
  // Language codes
  // ---------------------------------------------------------------------------

  /** The code of a language tag made of a lower-case part, a '-' and a region. */
  lemma CodeBeforeDash(lower: string, region: string)
    requires '-' !in lower
    ensures Split(lower + "-" + region, '-')[0] == lower
  {
    SplitAfterPlain(lower, "-" + region, '-');
    assert lower + "-" + region == lower + ("-" + region);
  }

  /** The directory of each target language, in order. */
  const TargetCodes: seq<string> := ["pt", "pt", "es", "fr", "de", "it", "zh", "ja", "ko"]

  /** A tag without '-' is written to its own lower-cased form. */
  lemma PlainCode(lang: string)
    requires '-' !in lang
    ensures LangCode(lang) == ToLower(lang)
  {
    assert '-' !in ToLower(lang) by {
      forall i | 0 <= i < |lang| ensures ToLower(lang)[i] != '-' {
      }
    }
    SplitAfterPlain(ToLower(lang), [], '-');
    assert ToLower(lang) + [] == ToLower(lang);
  }

  /** Both Portuguese variants are written to the directory "pt"; each other language to its own two letters. */
  lemma TargetLangCodes()
    ensures forall i :: 0 <= i < |TargetLanguages| ==> LangCode(TargetLanguages[i]) == TargetCodes[i]
  {
    assert ToLower("PT-PT") == "pt" + "-" + "pt";
    CodeBeforeDash("pt", "pt");
    assert ToLower("PT-BR") == "pt" + "-" + "br";
    CodeBeforeDash("pt", "br");
    forall i | 2 <= i < |TargetLanguages| ensures LangCode(TargetLanguages[i]) == TargetCodes[i] {
      var lang := TargetLanguages[i];
      PlainCode(lang);
      assert ToLower(lang) == TargetCodes[i];
    }
  }

  // ---------------------------------------------------------------------------
  // What the run writes
  // ---------------------------------------------------------------------------

  /** The English file is written first and no language overwrites it. */
  lemma {:induction false} EnglishFileKept(englishFile: Translated, results: seq<Option<Translated>>, k: nat)
    requires k <= |results| == |TargetLanguages|
    ensures "en" in FilesUpTo(englishFile, results, k)
    ensures FilesUpTo(englishFile, results, k)["en"] == englishFile
  {
    if k > 0 {
      EnglishFileKept(englishFile, results, k - 1);
      assert LangCode(TargetLanguages[k - 1]) != "en" by {
        TargetLangCodes();
        assert TargetCodes[k - 1] != "en";
      }
    }
  }

  /** Every file written is the English one or that of a target language whose translation succeeded. */
  lemma {:induction false} WrittenFiles(englishFile: Translated, results: seq<Option<Translated>>, k: nat, code: string)
    requires k <= |results| == |TargetLanguages|
    requires code in FilesUpTo(englishFile, results, k)
    ensures code == "en" ||
      exists i :: 0 <= i < k && LangCode(TargetLanguages[i]) == code && results[i] == Some(FilesUpTo(englishFile, results, k)[code])
  {
    if k > 0 {
      if results[k - 1].Some? && LangCode(TargetLanguages[k - 1]) == code {
      } else {
        WrittenFiles(englishFile, results, k - 1, code);
      }
    }
  }

  /** Languages after the first two never write "pt". */
  lemma {:induction false} LaterCodesDiffer(englishFile: Translated, results: seq<Option<Translated>>, k: nat, m: nat)
    requires 2 <= k <= m <= |results| == |TargetLanguages|
    ensures ("pt" in FilesUpTo(englishFile, results, m)) == ("pt" in FilesUpTo(englishFile, results, k))
    ensures "pt" in FilesUpTo(englishFile, results, k) ==>
      FilesUpTo(englishFile, results, m)["pt"] == FilesUpTo(englishFile, results, k)["pt"]
  {
    if k < m {
      LaterCodesDiffer(englishFile, results, k, m - 1);
      TargetLangCodes();
      assert TargetCodes[m - 1] != "pt";
    }
  }

  /**
   * The "pt" file holds the Brazilian translation (the second language) when
   * it succeeds, the European one (the first) when only that succeeds, and
   * is absent when both fail.
   */
  lemma PortugueseFile(englishFile: Translated, results: seq<Option<Translated>>)
    requires |results| == |TargetLanguages|
    ensures var files := FilesUpTo(englishFile, results, |results|);
      && (results[1].Some? ==> "pt" in files && files["pt"] == results[1].value)
      && (results[1].None? && results[0].Some? ==> "pt" in files && files["pt"] == results[0].value)
      && (results[1].None? && results[0].None? ==> "pt" !in files)
  {
    TargetLangCodes();
    LaterCodesDiffer(englishFile, results, 2, |results|);
    if results[1].None? && results[0].None? {
      assert FilesUpTo(englishFile, results, 2) == FilesUpTo(englishFile, results, 0);
    }
  }

  /**
   * With a translator that returns its input, a well-formed record whose
   * texts are all trimmed and not blank comes back as the English file.
   */
  lemma UntranslatedLanguageFile(english: English, translate: string -> seq<string> -> Option<seq<string>>, lang: string)
    requires WellFormed(english)
    requires translate(lang) == Echo
    requires forall i :: 0 <= i < |Items(english)| ==> Items(english)[i].text != [] && IsTrimmed(Items(english)[i].text)
    ensures LanguageFile(english, translate, lang) == Some(EnglishView(english))
  {
    var items := Items(english);
    var texts := TextsOf(items);
    CleanTexts(items);
    Untranslated(texts);
    assert TranslatedTexts(texts, translate(lang)) == Some(texts);
    RebuildInvertsFlatten(english);
  }

  lemma CleanTexts(items: seq<Item>)
    requires forall i :: 0 <= i < |items| ==> items[i].text != [] && IsTrimmed(items[i].text)
    ensures Clean(TextsOf(items)) == TextsOf(items)
  {
    OfEncodes(items);
    CleanKeepsTrimmed(TextsOf(items));
  }
}
