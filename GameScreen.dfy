/**
  The game screen: it turns what the player does (typing, "guess", "hint",
  "next card") into the commands it sends to the game engine, in order, and
  decides from the engine's snapshot which controls it shows.
 */
module GameScreen {
  import opened Options
  import opened Config
  import opened Text

  /** The highest hint level; no hint can be requested at it. */
  const MaxHintLevel: int := 3

  const NextCardLabel: string := "Próxima Carta"
  const ResultsLabel: string := "Ver Resultados"

  /** The part of a card this screen reads (its `resposta`). */
  datatype Card = Card(correctAnswer: string)

  /** The parts of the engine's snapshot this screen reads. `gameActive` is
      what the engine's `isGameActive` selector reports. */
  datatype EngineState = EngineState(
    gameStarted: bool,
    gameActive: bool,
    gameMode: Option<Mode>,
    gameType: Option<GameType>,
    currentCard: Option<Card>,
    currentCardIndex: int,
    cardCount: nat,
    currentHintLevel: int,
    showExplanation: bool)

  /** A command this screen sends to the engine. */
  datatype GameAction =
    | StartGame
    | SubmitAnswer(answer: string, isCorrect: bool)
    | RequestHint
    | NextPlayer
    | NextCard
    | ResetGame

  /** What the bottom of the screen offers. */
  datatype Controls =
    | Loading
    | AnswerControls(submitEnabled: bool, hintButton: bool)
    | NextCardButton(caption: string)

  // ---------------------------------------------------------------------
  // What each handler dispatches
  // ---------------------------------------------------------------------

  /** The start effect: start a game that is configured but not started. */
  function StartGameDispatch(s: EngineState): (r: seq<GameAction>)
    ensures r == [StartGame] <==> !s.gameStarted && s.gameMode.Some? && s.gameType.Some?
    ensures r != [StartGame] ==> r == []
  {
    if !s.gameStarted && s.gameMode.Some? && s.gameType.Some? then [StartGame] else []
  }

  /** `handleSubmitAnswer`: nothing for a blank answer; otherwise one
      submission carrying the trimmed answer, non-empty and free of
      surrounding whitespace, judged by `validate` on the answer as typed
      against the card's answer. */
  function SubmitDispatch(s: EngineState, input: string, validate: (string, string) -> bool): (r: seq<GameAction>)
    requires s.currentCard.Some?
    ensures r == [] <==> IsBlank(input)
    ensures r != [] ==>
      (|r| == 1 && r[0].SubmitAnswer? &&
       r[0].answer == Trim(input) && r[0].answer != [] && Trim(r[0].answer) == r[0].answer &&
       r[0].isCorrect == validate(input, s.currentCard.value.correctAnswer))
  {
    TrimEmptyIffBlank(input);
    TrimIdempotent(input);
    if Trim(input) == [] then []
    else [SubmitAnswer(Trim(input), validate(input, s.currentCard.value.correctAnswer))]
  }

  /** `handleRequestHint`: a hint is asked for only below the last level. */
  function HintDispatch(s: EngineState): (r: seq<GameAction>)
    ensures r == [RequestHint] <==> s.currentHintLevel < MaxHintLevel
    ensures r != [RequestHint] ==> r == []
  {
    if s.currentHintLevel < MaxHintLevel then [RequestHint] else []
  }

  /** `handleNextCard`: in a pair game the turn passes to the other player
      before the card advances; otherwise the card just advances. */
  function NextCardDispatch(s: EngineState): (r: seq<GameAction>)
    ensures r != [] && r[|r| - 1] == NextCard
    ensures |r| == 2 <==> s.gameMode == Some(Pair)
    ensures s.gameMode == Some(Pair) ==> r[0] == NextPlayer
    ensures NextPlayer in r <==> s.gameMode == Some(Pair)
    ensures |r| <= 2
  {
    if s.gameMode == Some(Pair) then [NextPlayer, NextCard] else [NextCard]
  }

  // ---------------------------------------------------------------------
  // What the screen shows
  // ---------------------------------------------------------------------

  /** The controls shown for a snapshot and the answer being typed: nothing
      but a loading notice without an active game and a card; the answer
      controls while no explanation is shown, with "guess" enabled for a
      non-blank answer and the hint button below the last level; otherwise
      the next-card button. */
  function ControlsFor(s: EngineState, userAnswer: string): (r: Controls)
    ensures r.Loading? <==> !s.gameActive || s.currentCard.None?
    ensures r.AnswerControls? <==> s.gameActive && s.currentCard.Some? && !s.showExplanation
    ensures r.AnswerControls? ==> (r.hintButton <==> s.currentHintLevel < MaxHintLevel)
    ensures r.AnswerControls? ==> (r.submitEnabled <==> !IsBlank(userAnswer))
    ensures r.NextCardButton? ==>
      (r.caption == ResultsLabel <==> s.currentCardIndex + 1 >= s.cardCount) &&
      (r.caption == NextCardLabel <==> s.currentCardIndex + 1 < s.cardCount)
  {
    TrimEmptyIffBlank(userAnswer);
    if !s.gameActive || s.currentCard.None? then Loading
    else if !s.showExplanation then
      AnswerControls(Trim(userAnswer) != [], s.currentHintLevel < MaxHintLevel)
    else
      NextCardButton(if s.currentCardIndex + 1 < s.cardCount then NextCardLabel else ResultsLabel)
  }

  /** The "guess" button is enabled exactly when pressing it sends a
      submission, and the hint button is shown only when pressing it sends
      a hint request. */
  lemma ControlsAgreeWithHandlers(s: EngineState, userAnswer: string, validate: (string, string) -> bool)
    requires ControlsFor(s, userAnswer).AnswerControls?
    ensures ControlsFor(s, userAnswer).submitEnabled <==> SubmitDispatch(s, userAnswer, validate) != []
    ensures ControlsFor(s, userAnswer).hintButton <==> HintDispatch(s) == [RequestHint]
  {
  }

  // ---------------------------------------------------------------------
  // Turn order over a game
  // ---------------------------------------------------------------------

  /** The commands sent by pressing "next card" once on each snapshot of
      `states`, in order. */
  function NextCardRun(states: seq<EngineState>): seq<GameAction>
    decreases |states|
  {
    if states == [] then []
    else NextCardRun(states[..|states| - 1]) + NextCardDispatch(states[|states| - 1])
  }

  /** In a pair game, the n-th press of "next card" sends exactly the
      commands at positions 2n and 2n + 1: the turn passes, then the card
      advances, so turns alternate card by card. */
  lemma {:induction false} PairTurnsAlternate(states: seq<EngineState>)
    requires forall i :: 0 <= i < |states| ==> states[i].gameMode == Some(Pair)
    ensures |NextCardRun(states)| == 2 * |states|
    ensures forall k :: 0 <= k < |states| ==>
      NextCardRun(states)[2 * k] == NextPlayer && NextCardRun(states)[2 * k + 1] == NextCard
  {
    if states != [] {
      var init := states[..|states| - 1];
      PairTurnsAlternate(init);
      var run := NextCardRun(states);
      assert run == NextCardRun(init) + [NextPlayer, NextCard];
      forall k | 0 <= k < |states|
        ensures run[2 * k] == NextPlayer && run[2 * k + 1] == NextCard
      {
        if k < |init| {
          assert run[2 * k] == NextCardRun(init)[2 * k];
          assert run[2 * k + 1] == NextCardRun(init)[2 * k + 1];
        }
      }
    }
  }

  /** Outside pair mode, each press advances the card and never passes
      the turn. */
  lemma {:induction false} SoloNeverPassesTurn(states: seq<EngineState>)
    requires forall i :: 0 <= i < |states| ==> states[i].gameMode != Some(Pair)
    ensures |NextCardRun(states)| == |states|
    ensures forall k :: 0 <= k < |states| ==> NextCardRun(states)[k] == NextCard
  {
    if states != [] {
      var init := states[..|states| - 1];
      SoloNeverPassesTurn(init);
      var run := NextCardRun(states);
      assert run == NextCardRun(init) + [NextCard];
      forall k | 0 <= k < |states| ensures run[k] == NextCard {
        if k < |init| {
          assert run[k] == NextCardRun(init)[k];
        }
      }
    }
  }

  // ---------------------------------------------------------------------
  // The screen's own state
  // ---------------------------------------------------------------------

  /** The answer being typed and everything sent to the engine so far,
      oldest first. */
  class Screen {
    var userAnswer: string
    var dispatched: seq<GameAction>

    constructor ()
      ensures userAnswer == "" && dispatched == []
    {
      userAnswer := "";
      dispatched := [];
    }

    /** The start effect, run whenever mode, type or the started flag change. */
    method RunStartEffect(s: EngineState)
      modifies this
      ensures dispatched == old(dispatched) + StartGameDispatch(s)
      ensures userAnswer == old(userAnswer)
    {
      if !s.gameStarted && s.gameMode.Some? && s.gameType.Some? {
        dispatched := dispatched + [StartGame];
      }
    }

    /** Typing in the answer field. */
    method TypeAnswer(text: string)
      modifies this
      ensures userAnswer == text && dispatched == old(dispatched)
    {
      userAnswer := text;
    }

    /** `handleSubmitAnswer`: a blank answer changes nothing (an alert is
        shown); otherwise the submission is sent and the field is cleared. */
    method Submit(s: EngineState, validate: (string, string) -> bool)
      requires s.currentCard.Some?
      modifies this
      ensures dispatched == old(dispatched) + SubmitDispatch(s, old(userAnswer), validate)
      ensures userAnswer == if IsBlank(old(userAnswer)) then old(userAnswer) else ""
    {
      ghost var typed := userAnswer;
      ghost var sent := SubmitDispatch(s, typed, validate);
      var answer := Trim(userAnswer);
      if answer == [] {
        assert sent == [];
        return;
      }
      var isCorrect := validate(userAnswer, s.currentCard.value.correctAnswer);
      assert sent == [SubmitAnswer(answer, isCorrect)];
      dispatched := dispatched + [SubmitAnswer(answer, isCorrect)];
      userAnswer := "";
    }

    /** `handleRequestHint`. */
    method AskHint(s: EngineState)
      modifies this
      ensures dispatched == old(dispatched) + HintDispatch(s)
      ensures userAnswer == old(userAnswer)
    {
      if s.currentHintLevel < MaxHintLevel {
        dispatched := dispatched + [RequestHint];
      }
    }

    /** `handleNextCard`: the field is cleared in every case. */
    method Next(s: EngineState)
      modifies this
      ensures dispatched == old(dispatched) + NextCardDispatch(s)
      ensures userAnswer == ""
    {
      if s.gameMode == Some(Pair) {
        dispatched := dispatched + [NextPlayer];
      }
      dispatched := dispatched + [NextCard];
      userAnswer := "";
    }

    /** Confirming "leave the game" resets the engine. */
    method ConfirmExit()
      modifies this
      ensures dispatched == old(dispatched) + [ResetGame]
      ensures userAnswer == old(userAnswer)
    {
      dispatched := dispatched + [ResetGame];
    }
  }
}
