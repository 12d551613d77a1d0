/**
  The configuration screen: it stages a mode, a game type, a category and
  two player names, reports each choice to the engine, and on "start"
  checks the staged configuration before it hands the player list to the
  engine and moves on to the game.
 */
module ModeSelection {
  import opened Options
  import opened Config
  import opened Text

  /** The longest name the name fields accept (`maxLength={20}`). */
  const MaxNameLength: nat := 20

  /** A command this screen sends to the engine. */
  datatype ConfigAction =
    | SetGameMode(mode: Mode)
    | SetGameType(gameType: GameType)
    | SetSelectedCategory(category: string)
    | SetPlayers(players: seq<string>)

  /** What the screen does, in order: dispatch to the engine, show a
      blocking alert, or navigate to the game screen. */
  datatype Effect =
    | Dispatch(action: ConfigAction)
    | Alert(title: string, message: string)
    | NavigateToGame

  /** The staged selections. */
  datatype Selections = Selections(
    mode: Option<Mode>,
    gameType: Option<GameType>,
    category: Option<string>,
    player1Name: string,
    player2Name: string)

  /** Why a start is refused, one per check of the guard chain. */
  datatype RejectReason = ModeOrTypeMissing | CategoryMissing | PlayerNamesMissing | PlayerNamesEqual

  /** The outcome of pressing "start". */
  datatype StartDecision = Accept(players: seq<string>) | Reject(reason: RejectReason)

  /** The text of the alert shown for each refusal. */
  function AlertMessage(r: RejectReason): (m: string)
    ensures m != []
  {
    match r
    case ModeOrTypeMissing => "Selecione o modo e tipo de jogo."
    case CategoryMissing => "Selecione uma categoria para a prática focada."
    case PlayerNamesMissing => "Digite os nomes dos dois jogadores."
    case PlayerNamesEqual => "Os nomes dos jogadores devem ser diferentes."
  }

  const AlertTitle: string := "Atenção"

  /** Each refusal has its own message, so the alert tells which check failed. */
  lemma AlertMessagesDiffer(r1: RejectReason, r2: RejectReason)
    ensures r1 != r2 ==> AlertMessage(r1) != AlertMessage(r2)
  {
  }

  /** A category is selected: present and not the falsy empty string. */
  predicate HasCategory(c: Selections) {
    c.category.Some? && c.category.value != ""
  }

  /** The guard chain of `handleStartGame`: mode and type, then category,
      then (for a pair) the two names; the first failing check decides.
      The names are compared exactly (case-sensitively) after trimming.
      An accepted configuration has a mode and a type, and one player for
      an individual game or two for a pair (`AcceptedPlayers` says which). */
  function ValidateStart(c: Selections): (d: StartDecision)
    ensures d.Accept? ==> c.mode.Some? && c.gameType.Some?
    ensures d.Accept? ==> |d.players| == (if c.mode == Some(Pair) then 2 else 1)
  {
    if c.mode.None? || c.gameType.None? then Reject(ModeOrTypeMissing)
    else if c.gameType == Some(Focused) && !HasCategory(c) then Reject(CategoryMissing)
    else if c.mode == Some(Pair) then
      var name1, name2 := Trim(c.player1Name), Trim(c.player2Name);
      if name1 == [] || name2 == [] then Reject(PlayerNamesMissing)
      else if name1 == name2 then Reject(PlayerNamesEqual)
      else Accept([name1, name2])
    else
      assert c.mode.value.Individual?;
      Accept([SoloPlayerName])
  }

  /** What pressing "start" does: an alert and nothing else on refusal;
      otherwise `SET_PLAYERS` with the player list, then the navigation. */
  function StartEffects(c: Selections): (r: seq<Effect>)
    ensures NavigateToGame in r <==> ValidateStart(c).Accept?
    ensures (exists ps :: Dispatch(SetPlayers(ps)) in r) <==> ValidateStart(c).Accept?
    ensures ValidateStart(c).Accept? ==> r == [Dispatch(SetPlayers(ValidateStart(c).players)), NavigateToGame]
    ensures ValidateStart(c).Reject? ==> r == [Alert(AlertTitle, AlertMessage(ValidateStart(c).reason))]
  {
    match ValidateStart(c)
    case Accept(ps) => [Dispatch(SetPlayers(ps)), NavigateToGame]
    case Reject(reason) => [Alert(AlertTitle, AlertMessage(reason))]
  }

  /** A configuration that may start a game, stated without the guard
      chain: mode and type chosen, a category for focused practice, and for
      a pair two names that are not blank and differ once trimmed. */
  predicate Startable(c: Selections) {
    c.mode.Some? && c.gameType.Some? &&
    (c.gameType.value == Focused ==> HasCategory(c)) &&
    (c.mode.value == Pair ==>
      !IsBlank(c.player1Name) && !IsBlank(c.player2Name) &&
      Trim(c.player1Name) != Trim(c.player2Name))
  }

  /** The start is accepted exactly when the configuration is startable;
      pair names are compared exactly after trimming, so names differing
      only in letter case are accepted as two players. */
  lemma AcceptedIffStartable(c: Selections)
    ensures ValidateStart(c).Accept? <==> Startable(c)
  {
    TrimEmptyIffBlank(c.player1Name);
    TrimEmptyIffBlank(c.player2Name);
  }

  /** Each refusal names the first check that fails, in the order mode and
      type, category, blank names, equal names; "equal" is exact,
      case-sensitive equality of the trimmed names. */
  lemma RejectReasonIsFirstFailure(c: Selections)
    ensures ValidateStart(c) == Reject(ModeOrTypeMissing) <==> c.mode.None? || c.gameType.None?
    ensures ValidateStart(c) == Reject(CategoryMissing) <==>
      c.mode.Some? && c.gameType == Some(Focused) && !HasCategory(c)
    ensures ValidateStart(c) == Reject(PlayerNamesMissing) <==>
      c.mode == Some(Pair) && c.gameType.Some? && (c.gameType.value == Focused ==> HasCategory(c)) &&
      (IsBlank(c.player1Name) || IsBlank(c.player2Name))
    ensures ValidateStart(c) == Reject(PlayerNamesEqual) <==>
      c.mode == Some(Pair) && c.gameType.Some? && (c.gameType.value == Focused ==> HasCategory(c)) &&
      !IsBlank(c.player1Name) && !IsBlank(c.player2Name) &&
      Trim(c.player1Name) == Trim(c.player2Name)
  {
    TrimEmptyIffBlank(c.player1Name);
    TrimEmptyIffBlank(c.player2Name);
  }

  /** An accepted individual game plays as `'Jogador'` alone; an accepted
      pair game plays as the two trimmed names, first then second, which are
      non-empty, different, free of surrounding whitespace and no longer than
      what was typed. */
  lemma AcceptedPlayers(c: Selections)
    requires ValidateStart(c).Accept?
    ensures var ps := ValidateStart(c).players;
      (c.mode == Some(Individual) ==> ps == [SoloPlayerName]) &&
      (c.mode == Some(Pair) ==>
        ps == [Trim(c.player1Name), Trim(c.player2Name)] &&
        ps[0] != ps[1] && ps[0] != [] && ps[1] != [] &&
        Trim(ps[0]) == ps[0] && Trim(ps[1]) == ps[1] &&
        |ps[0]| <= |c.player1Name| && |ps[1]| <= |c.player2Name|)
  {
    if c.mode == Some(Pair) {
      TrimIdempotent(c.player1Name);
      TrimIdempotent(c.player2Name);
    }
  }

  /** `" Ana".trim()` is `"Ana"`. */
  lemma TrimLeadingSpaceExample()
    ensures Trim(" Ana") == "Ana"
  {
    var name := "Ana";
    assert !IsWhitespace(name[0]) && !IsWhitespace(name[2]);
    assert TrimStart(name) == name;
    assert TrimEnd(name) == name;
    var typed := [' '] + name;
    assert IsWhitespace(typed[0]) && typed[1..] == name;
    assert TrimStart(typed) == name;
    assert typed == " Ana";
  }

  /** `"ana ".trim()` is `"ana"`. */
  lemma TrimTrailingSpaceExample()
    ensures Trim("ana ") == "ana"
  {
    var name := "ana";
    assert !IsWhitespace(name[0]) && !IsWhitespace(name[2]);
    assert TrimEnd(name) == name;
    var typed := name + [' '];
    assert !IsWhitespace(typed[0]) && IsWhitespace(typed[3]) && typed[..3] == name;
    assert TrimStart(typed) == typed;
    assert TrimEnd(typed) == name;
    assert typed == "ana ";
  }

  /** An illustration of the exact comparison: `" Ana"` and `"ana "` are
      two different players. */
  lemma NamesCompareCaseSensitively()
    ensures ValidateStart(Selections(Some(Pair), Some(Quick), None, " Ana", "ana ")) == Accept(["Ana", "ana"])
  {
    TrimLeadingSpaceExample();
    TrimTrailingSpaceExample();
    assert "Ana"[0] != "ana"[0];
  }

  /** The configuration screen's own state. */
  class ConfigScreen {
    var selectedMode: Option<Mode>
    var selectedType: Option<GameType>
    var selectedCategory: Option<string>
    var player1Name: string
    var player2Name: string
    /** Everything the screen has done so far, oldest first. */
    var effects: seq<Effect>

    /** The name fields never hold more than they accept. */
    ghost predicate Valid()
      reads this
    {
      |player1Name| <= MaxNameLength && |player2Name| <= MaxNameLength
    }

    /** The staged selections as a value. */
    function Staged(): Selections
      reads this
    {
      Selections(selectedMode, selectedType, selectedCategory, player1Name, player2Name)
    }

    constructor ()
      ensures Valid()
      ensures Staged() == Selections(None, None, None, "", "") && effects == []
    {
      selectedMode, selectedType, selectedCategory := None, None, None;
      player1Name, player2Name := "", "";
      effects := [];
    }

    /** `handleModeSelect`: a new mode clears the type and the category. */
    method SelectMode(mode: Mode)
      requires Valid()
      modifies this
      ensures Valid()
      ensures Staged() == Selections(Some(mode), None, None, old(player1Name), old(player2Name))
      ensures effects == old(effects) + [Dispatch(SetGameMode(mode))]
    {
      selectedMode := Some(mode);
      selectedType := None;
      selectedCategory := None;
      effects := effects + [Dispatch(SetGameMode(mode))];
    }

    /** `handleTypeSelect`: a new type clears the category. */
    method SelectType(gameType: GameType)
      requires Valid()
      modifies this
      ensures Valid()
      ensures Staged() == Selections(old(selectedMode), Some(gameType), None, old(player1Name), old(player2Name))
      ensures effects == old(effects) + [Dispatch(SetGameType(gameType))]
    {
      selectedType := Some(gameType);
      selectedCategory := None;
      effects := effects + [Dispatch(SetGameType(gameType))];
    }

    /** `handleCategorySelect`: touches nothing but the category. */
    method SelectCategory(category: string)
      requires Valid()
      modifies this
      ensures Valid()
      ensures Staged() == old(Staged()).(category := Some(category))
      ensures effects == old(effects) + [Dispatch(SetSelectedCategory(category))]
    {
      selectedCategory := Some(category);
      effects := effects + [Dispatch(SetSelectedCategory(category))];
    }

    /** Typing in the first name field. */
    method SetPlayer1Name(name: string)
      requires Valid() && |name| <= MaxNameLength
      modifies this
      ensures Valid()
      ensures Staged() == old(Staged()).(player1Name := name) && effects == old(effects)
    {
      player1Name := name;
    }

    /** Typing in the second name field. */
    method SetPlayer2Name(name: string)
      requires Valid() && |name| <= MaxNameLength
      modifies this
      ensures Valid()
      ensures Staged() == old(Staged()).(player2Name := name) && effects == old(effects)
    {
      player2Name := name;
    }

    /** `handleStartGame`: the selections stay as they are; the effects of
        the decision are appended, so a refused start dispatches nothing and
        does not navigate, and an accepted one sends `SET_PLAYERS` first. */
    method StartGame() returns (decision: StartDecision)
      requires Valid()
      modifies this
      ensures Valid()
      ensures decision == ValidateStart(Staged())
      ensures Staged() == old(Staged())
      ensures effects == old(effects) + StartEffects(Staged())
      ensures decision.Accept? ==>
        forall i :: 0 <= i < |decision.players| ==> |decision.players[i]| <= MaxNameLength
    {
      decision := ValidateStart(Staged());
      if decision.Accept? {
        AcceptedNamesFit(Staged());
      }
      match decision
      case Reject(reason) =>
        effects := effects + [Alert(AlertTitle, AlertMessage(reason))];
      case Accept(players) =>
        effects := effects + [Dispatch(SetPlayers(players)), NavigateToGame];
    }
  }

  /** Names typed into the fields (at most twenty characters) give accepted
      player names of at most twenty characters. */
  lemma AcceptedNamesFit(c: Selections)
    requires |c.player1Name| <= MaxNameLength && |c.player2Name| <= MaxNameLength
    requires ValidateStart(c).Accept?
    ensures forall i :: 0 <= i < |ValidateStart(c).players| ==> |ValidateStart(c).players[i]| <= MaxNameLength
  {
    var ps := ValidateStart(c).players;
    if c.mode == Some(Pair) {
      assert ps == [Trim(c.player1Name), Trim(c.player2Name)];
    } else {
      assert ps == [SoloPlayerName];
    }
  }
}
