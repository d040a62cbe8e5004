/**
 * The results section: which of its panels is on screen for a given set of
 * props, and the resting coin state the 3D canvas shows before any toss.
 */
module Results {
  import opened Wrappers
  import opened Coins

  /** Six tosses of three tails each, shown on the canvas while no toss exists. */
  function DefaultCoinState(): seq<seq<int>>
  {
    seq(NUMBER_OF_TOSSES, i => [2, 2, 2])
  }

  /** What the canvas is given: the tosses, or the resting state when there are none. */
  function CanvasTosses(coinTosses: seq<seq<int>>): (tosses: seq<seq<int>>)
    ensures tosses != []
    ensures coinTosses != [] ==> tosses == coinTosses
    ensures coinTosses == [] ==>
      |tosses| == NUMBER_OF_TOSSES && forall i :: 0 <= i < |tosses| ==> tosses[i] == [2, 2, 2]
  {
    if |coinTosses| > 0 then coinTosses else DefaultCoinState()
  }

  /** The props of the results section that decide what is shown. */
  datatype Props = Props(
    manualMode: bool,
    coinTosses: seq<seq<int>>,
    isShowingCanvas: bool,
    displayedTosses: seq<seq<int>>,
    tossesComplete: bool,
    hexagram: string)

  /**
   * The panels on screen: the canvas (with the tosses it animates) or the
   * manual input, the divider, the toss panel (with the tosses it lists) and
   * the hexagram text.
   */
  datatype Panels = Panels(
    canvas: Option<seq<seq<int>>>,
    manualInput: bool,
    divider: bool,
    tossPanel: Option<seq<seq<int>>>,
    hexagramText: bool)

  function Render(props: Props): (panels: Panels)
    ensures panels.canvas.Some? != panels.manualInput
    ensures panels.manualInput == props.manualMode
    ensures panels.canvas.Some? ==> panels.canvas.value == CanvasTosses(props.coinTosses)
    ensures panels.divider <==> props.isShowingCanvas && panels.canvas.Some?
    ensures panels.tossPanel.Some? <==> props.displayedTosses != []
    ensures panels.tossPanel.Some? ==> panels.tossPanel.value == props.displayedTosses
    ensures panels.hexagramText <==> props.tossesComplete && props.hexagram != ""
  {
    Panels(
      if !props.manualMode then Some(CanvasTosses(props.coinTosses)) else None,
      props.manualMode,
      props.isShowingCanvas && !props.manualMode,
      if |props.displayedTosses| > 0 then Some(props.displayedTosses) else None,
      props.tossesComplete && props.hexagram != "")
  }
}
