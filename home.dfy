/**
 * The home page's session: the state a casting goes through, the two click
 * handlers (generate, reset), the two reactive effects (casting, history),
 * the animation-end callback of the results section, and the one-shot
 * latches that keep the interpretation request and the history write from
 * firing twice.
 *
 * Effects are methods that may be invoked at any time and any number of
 * times; this covers every order in which the reactive runtime re-runs them.
 * The casting library (hexagram generation, trigram and hexagram lookup, the
 * translation keys of a hexagram), the random source, the interpretation
 * hook's state and the sign-in state are parameters. The requests the page
 * sends are recorded in two ghost logs.
 */
module Home {
  import opened Wrappers
  import opened Coins
  import Results
  import History

  datatype Trigram = Trigram(name: string)
  datatype Trigrams = Trigrams(lower: Trigram, upper: Trigram)

  /** What the trigram lookup returns: either half may be missing. */
  datatype TrigramLookup = TrigramLookup(lower: Option<Trigram>, upper: Option<Trigram>)

  datatype HexagramData = HexagramData(name: string, number: int)

  /** One call to the interpretation hook. */
  datatype AiRequest = AiRequest(hexagramNumber: int, intention: string)

  /** One history write: the JSON body the page posts (a missing hexagram is `undefined`). */
  datatype HistoryPost = HistoryPost(
    intention: string,
    tosses: seq<int>,
    hexagram: Option<int>,
    mode: History.TossMode,
    interpretation: string)

  /** JavaScript truthiness of a `string | null`. */
  predicate Truthy(s: Option<string>)
  {
    s.Some? && s.value != ""
  }

  /** The toss the generate handler builds in round `i`, from the `3i`-th to `3i+2`-th random number. */
  function GeneratedToss(random: nat -> real, i: nat): seq<int>
  {
    [Coin(random(3 * i)), Coin(random(3 * i + 1)), Coin(random(3 * i + 2))]
  }

  /** All tosses of one generate: rounds 0 to NUMBER_OF_TOSSES inclusive. */
  function GeneratedTosses(random: nat -> real): seq<seq<int>>
  {
    seq(NUMBER_OF_TOSSES + 1, i requires 0 <= i => GeneratedToss(random, i))
  }

  /**
   * A generate produces seven tosses of three coins, every coin 2 or 3, so
   * the flattened tosses number 21.
   */
  lemma GeneratedTossesShape(random: nat -> real)
    ensures |GeneratedTosses(random)| == NUMBER_OF_TOSSES + 1 == 7
    ensures forall i :: 0 <= i < 7 ==>
      |GeneratedTosses(random)[i]| == 3 &&
      forall j :: 0 <= j < 3 ==> GeneratedTosses(random)[i][j] in {2, 3}
    ensures |Flat(GeneratedTosses(random))| == 21
  {
    FlatOfTriples(GeneratedTosses(random));
  }

  /** The body the route receives for a post. */
  function EncodePost(post: HistoryPost): History.Body
  {
    History.Body(
      Some(History.JStr(post.intention)),
      Some(History.JArr(seq(|post.tosses|, i requires 0 <= i < |post.tosses| => History.JNum(post.tosses[i])))),
      if post.hexagram.Some? then Some(History.JNum(post.hexagram.value)) else None,
      Some(History.JStr(if post.mode == History.MANUAL then "MANUAL" else "AUTOMATIC")),
      Some(History.JStr(post.interpretation)))
  }

  /** The outcome of the casting effect: the hexagram string, its two trigrams, its data. */
  datatype Cast = Cast(hexagram: string, trigrams: Option<Trigrams>, hexagramData: Option<HexagramData>)

  const NoCast := Cast("", None, None)

  /** The flags that decide which section is on screen and whether the canvas animates. */
  datatype Screen = Screen(
    tossed: bool,
    isShowingCanvas: bool,
    showResults: bool,
    animate: bool,
    tossesComplete: bool)

  /** The screen right after a generate: results shown, canvas animating. */
  const Tossing := Screen(true, true, true, true, false)

  /** The screen of the initial inputs section. */
  const Inputs := Screen(false, false, false, false, false)

  /**
   * The page state. The page's state hooks are the fields, the ones that the
   * handlers always set together grouped into `cast` and `screen`.
   */
  class HomeSession {
    var intention: string
    var manualMode: bool
    var coinTosses: seq<seq<int>>
    var displayedTosses: seq<seq<int>>
    var cast: Cast
    var screen: Screen
    var intentionTriggered: bool
    var historySaved: bool

    /** Every interpretation request issued, in order. */
    ghost var aiRequests: seq<AiRequest>
    /** Every history write issued, in order. */
    ghost var posts: seq<HistoryPost>
    /** How many writes had been issued when the latest generate or reset ran. */
    ghost var castStart: nat

    ghost predicate Valid()
      reads this
    {
      AiLatchValid() && HistoryLatchValid() && CastValid() && ScreenValid()
    }

    /**
     * The interpretation latch: at most one request for the page's lifetime,
     * never with an empty intention, and while a hexagram is stored it is the
     * one whose interpretation was requested.
     */
    ghost predicate AiLatchValid()
      reads this`intentionTriggered, this`aiRequests, this`cast
    {
      && |aiRequests| <= 1
      && (intentionTriggered <==> aiRequests != [])
      && (intentionTriggered ==> aiRequests[0].intention != "")
      && (intentionTriggered && cast.hexagramData.Some? ==> aiRequests[0].hexagramNumber == cast.hexagramData.value.number)
    }

    /** The history latch: at most one write since the latest generate or reset, each with 18 or 21 tosses. */
    ghost predicate HistoryLatchValid()
      reads this`castStart, this`posts, this`historySaved
    {
      && castStart <= |posts|
      && |posts| == castStart + (if historySaved then 1 else 0)
      && (forall p :: p in posts ==> |p.tosses| == 18 || |p.tosses| == 21)
    }

    /** A cast result exists only once the tosses are complete. */
    ghost predicate CastValid()
      reads this`cast, this`screen
    {
      cast != NoCast ==> screen.tossesComplete
    }

    /** The handlers set these three together; the animation runs only after a toss. */
    ghost predicate ScreenValid()
      reads this`screen
    {
      && screen.tossed == screen.showResults
      && screen.tossed == screen.isShowingCanvas
      && (screen.animate ==> screen.tossed)
    }

    constructor ()
      ensures Valid()
      ensures intention == "" && !manualMode && coinTosses == [] && displayedTosses == []
      ensures cast == NoCast && screen == Inputs
      ensures !intentionTriggered && !historySaved
      ensures aiRequests == [] && posts == []
    {
      intention, manualMode, coinTosses, displayedTosses := "", false, [], [];
      cast, screen, intentionTriggered, historySaved := NoCast, Inputs, false, false;
      aiRequests, posts, castStart := [], [], 0;
    }

    /**
     * Start a cast: clear the previous results, show the results section with
     * the animating canvas, reopen the history latch, and fill the tosses from
     * the random source. The intention, the mode and the interpretation latch
     * are left alone.
     */
    method HandleGenerate(random: nat -> real)
      requires Valid()
      modifies this`coinTosses, this`displayedTosses, this`cast, this`screen, this`historySaved, this`castStart
      ensures Valid()
      ensures coinTosses == GeneratedTosses(random)
      ensures displayedTosses == [] && cast == NoCast && screen == Tossing && !historySaved
      ensures posts == old(posts) && aiRequests == old(aiRequests) && intentionTriggered == old(intentionTriggered)
    {
      var tosses: seq<seq<int>> := [];
      var i := 0;
      while i <= NUMBER_OF_TOSSES
        invariant 0 <= i <= NUMBER_OF_TOSSES + 1
        invariant tosses == GeneratedTosses(random)[..i]
      {
        tosses := tosses + [[Coin(random(3 * i)), Coin(random(3 * i + 1)), Coin(random(3 * i + 2))]];
        i := i + 1;
      }
      coinTosses, displayedTosses, cast, screen, historySaved, castStart := tosses, [], NoCast, Tossing, false, |posts|;
    }

    /**
     * Back to the initial inputs: clear the tosses and the results, hide the
     * results section and reopen the history latch. The intention, the mode
     * and the interpretation latch are left alone.
     */
    method HandleReset()
      requires Valid()
      modifies this`coinTosses, this`displayedTosses, this`cast, this`screen, this`historySaved, this`castStart
      ensures Valid()
      ensures coinTosses == [] && displayedTosses == [] && cast == NoCast && screen == Inputs && !historySaved
      ensures posts == old(posts) && aiRequests == old(aiRequests) && intentionTriggered == old(intentionTriggered)
    {
      coinTosses, displayedTosses, cast, screen, historySaved, castStart := [], [], NoCast, Inputs, false, |posts|;
    }

    /**
     * The casting effect. It acts only once the tosses are complete and the
     * interpretation latch is still open: it stores the generated hexagram,
     * its trigrams (only when both are found) and its data, and when the
     * hexagram is known and an intention is set it requests the
     * interpretation and closes the latch. Nothing ever reopens the latch.
     */
    method CastingEffect(
      newHexagram: string,
      getTrigrams: string -> TrigramLookup,
      findHexagram: string -> Option<HexagramData>)
      requires Valid()
      modifies this`cast, this`intentionTriggered, this`aiRequests
      ensures Valid()
      ensures !(screen.tossesComplete && !old(intentionTriggered)) ==>
        cast == old(cast) && intentionTriggered == old(intentionTriggered) && aiRequests == old(aiRequests)
      ensures screen.tossesComplete && !old(intentionTriggered) ==>
        && cast.hexagram == newHexagram
        && cast.trigrams == (
          var found := getTrigrams(newHexagram);
          if found.lower.Some? && found.upper.Some?
          then Some(Trigrams(found.lower.value, found.upper.value)) else None)
        && cast.hexagramData == findHexagram(newHexagram)
        && (intentionTriggered <==> cast.hexagramData.Some? && intention != "")
        && aiRequests == old(aiRequests) +
          (if intentionTriggered then [AiRequest(cast.hexagramData.value.number, intention)] else [])
      ensures old(intentionTriggered) ==> aiRequests == old(aiRequests)
      ensures |aiRequests| <= 1
    {
      if screen.tossesComplete && !intentionTriggered {
        var trigramsResult := getTrigrams(newHexagram);
        var hexagramResult := findHexagram(newHexagram);
        cast := Cast(
          newHexagram,
          if trigramsResult.lower.Some? && trigramsResult.upper.Some?
          then Some(Trigrams(trigramsResult.lower.value, trigramsResult.upper.value)) else None,
          hexagramResult);
        if hexagramResult.Some? && intention != "" {
          aiRequests := aiRequests + [AiRequest(hexagramResult.value.number, intention)];
          intentionTriggered := true;
        }
      }
    }

    /** The body of the history write for the current state and an interpretation. */
    function PostFor(interpretation: string): (post: HistoryPost)
      reads this
      ensures post.tosses == Flat(coinTosses)
      ensures post.hexagram.Some? <==> cast.hexagramData.Some?
    {
      HistoryPost(
        intention, Flat(coinTosses),
        if cast.hexagramData.Some? then Some(cast.hexagramData.value.number) else None,
        if manualMode then History.MANUAL else History.AUTOMATIC,
        interpretation)
    }

    /**
     * The history effect. When an interpretation has arrived (a non-empty
     * result, not loading, no error), nothing was saved since the latest
     * generate or reset, a user is signed in and the flattened tosses number
     * 18 or 21, it posts the reading once and closes the history latch.
     */
    method HistoryEffect(result: Option<string>, loading: bool, error: Option<string>, signedIn: bool)
      requires Valid()
      modifies this`historySaved, this`posts
      ensures Valid()
      ensures
        var fires := Truthy(result) && !loading && !Truthy(error) && !old(historySaved) && signedIn
          && (|Flat(coinTosses)| == 21 || |Flat(coinTosses)| == 18);
        && (fires ==> historySaved && posts == old(posts) + [PostFor(result.value)])
        && (!fires ==> historySaved == old(historySaved) && posts == old(posts))
      ensures old(historySaved) ==> posts == old(posts)
      ensures |posts| <= castStart + 1
    {
      if Truthy(result) && !loading && !Truthy(error) && !historySaved {
        if signedIn {
          var flatTosses := Flat(coinTosses);
          if |flatTosses| == 21 || |flatTosses| == 18 {
            posts := posts + [PostFor(result.value)];
            historySaved := true;
          }
        }
      }
    }

    /** The canvas reports that the toss animation has finished. */
    method OnAnimationEnd()
      requires Valid()
      modifies this`screen
      ensures Valid()
      ensures screen == old(screen).(animate := false, tossesComplete := true)
    {
      screen := screen.(animate := false, tossesComplete := true);
    }

    /** The canvas reports the tosses revealed so far. */
    method OnTossUpdate(tosses: seq<seq<int>>)
      requires Valid()
      modifies this`displayedTosses
      ensures Valid()
      ensures displayedTosses == tosses
    {
      displayedTosses := tosses;
    }

    /** The intention field is edited. */
    method SetIntention(text: string)
      requires Valid()
      modifies this`intention
      ensures Valid()
      ensures intention == text
    {
      intention := text;
    }

    /** The "input tosses" and "reset tosses" buttons switch manual entry on and off. */
    method SetManualMode(on: bool)
      requires Valid()
      modifies this`manualMode
      ensures Valid()
      ensures manualMode == on
    {
      manualMode := on;
    }

    /** The toss button is on screen only in the initial inputs section, outside manual mode. */
    predicate TossButtonShown()
      reads this
    {
      !screen.showResults && !manualMode
    }

    predicate TossButtonDisabled()
      reads this
    {
      intention == "" || screen.animate
    }

    /**
     * A click on the toss button: nothing when it is hidden or disabled,
     * otherwise reset after a toss and generate before one. Since the button
     * is only on screen before a toss, a click that does anything generates.
     */
    method PressTossButton(random: nat -> real)
      requires Valid()
      modifies this`coinTosses, this`displayedTosses, this`cast, this`screen, this`historySaved, this`castStart
      ensures Valid()
      ensures !old(TossButtonShown()) || old(TossButtonDisabled()) ==> unchanged(this)
      ensures old(TossButtonShown()) && !old(TossButtonDisabled()) ==>
        && !old(screen.tossed)
        && coinTosses == GeneratedTosses(random) && displayedTosses == []
        && cast == NoCast && screen == Tossing && !historySaved
        && intention == old(intention) && manualMode == old(manualMode)
        && intentionTriggered == old(intentionTriggered)
        && posts == old(posts) && aiRequests == old(aiRequests)
    {
      if TossButtonShown() && !TossButtonDisabled() {
        if screen.tossed {
          // the reset half of the click handler: the button is hidden whenever `tossed` holds
          assert false;
        }
        HandleGenerate(random);
      }
    }

    /** `hexagramText`: the translation keys of the found hexagram, if any. */
    function HexagramText<W>(translationKeys: int -> W): Option<W>
      reads this
    {
      if cast.hexagramData.Some? then Some(translationKeys(cast.hexagramData.value.number)) else None
    }

    /** The props the page hands to the results section. */
    function ResultsProps(): Results.Props
      reads this
    {
      Results.Props(manualMode, coinTosses, screen.isShowingCanvas, displayedTosses, screen.tossesComplete, cast.hexagram)
    }
  }

  /** In every session state, the results section shows hexagram text exactly when a hexagram is stored. */
  lemma HexagramTextShownIffCast(session: HomeSession)
    requires session.Valid()
    ensures Results.Render(session.ResultsProps()).hexagramText <==> session.cast.hexagram != ""
  {
  }

  /**
   * Once the interpretation has been requested, the hexagram text on screen,
   * if any, is that of the hexagram whose interpretation was requested: a
   * later toss clears it and, the latch staying closed, never shows another.
   */
  lemma HexagramTextIsInterpreted<W>(session: HomeSession, translationKeys: int -> W)
    requires session.Valid() && session.intentionTriggered
    ensures session.HexagramText(translationKeys) == None ||
      session.HexagramText(translationKeys) == Some(translationKeys(session.aiRequests[0].hexagramNumber))
  {
  }

  /**
   * Every history write the page has issued has a toss count the route
   * accepts, so the route answers 400 to it exactly when it carries no
   * hexagram number.
   */
  lemma PostAcceptedIffHexagram(session: HomeSession, k: nat)
    requires session.Valid() && k < |session.posts|
    ensures History.ValidBody(EncodePost(session.posts[k])) <==> session.posts[k].hexagram.Some?
  {
    assert session.posts[k] in session.posts;
  }
}
