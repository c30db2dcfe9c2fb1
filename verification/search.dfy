/**
 * The depth-first search over decisions in src/main.rs: `assess_decision` classifies the
 * position of the player to move, and `process_branches` keeps the stack of positions still
 * to explore. Outcome and Assess are the value-level specification of a decision.
 */
module Search {
  import opened Wrappers
  import opened Cards
  import opened Stacks
  import opened Boards
  import opened Game

  /** A decision described by the positions it leads to. */
  datatype Outcome =
    | Won(seat: u8)
    | Passed(view: GameView)
    | Forced(view: GameView)
    | Branched(views: seq<GameView>)

  function Successors(o: Outcome): (ws: seq<GameView>)
    ensures ws == [] <==> o.Won? || (o.Branched? && o.views == [])
  {
    match o
    case Won(_) => []
    case Passed(w) => [w]
    case Forced(w) => [w]
    case Branched(ws) => ws
  }

  /** `play_card_and_return_new` on the position `v`, as a function of the card. */
  function ForkFrom(v: GameView): (f: Card -> Result<GameView, GameStateError>)
    requires SeatCount(|v.players|) != 0
    ensures forall c :: f(c) == Fork(v, c)
  {
    c => Fork(v, c)
  }

  /**
   * Collecting `play_card_and_return_new` over the playable cards, in order: all successors
   * or the first failure.
   */
  function Forks(v: GameView, cs: seq<Card>): (r: Result<seq<GameView>, GameStateError>)
    requires SeatCount(|v.players|) != 0
    ensures r.Ok? ==> |r.value| == |cs|
    ensures r.Ok? ==> forall i :: 0 <= i < |cs| ==> r.value[i].players == v.players
  {
    CollectAllIsPerElement(ForkFrom(v), cs);
    CollectAll(ForkFrom(v), cs)
  }

  /**
   * The collection succeeds exactly when every card forks, lists the forks in card order,
   * and otherwise reports the failure of the first card that does not fork.
   */
  lemma ForksIsPerCard(v: GameView, cs: seq<Card>)
    requires SeatCount(|v.players|) != 0
    ensures Forks(v, cs).Ok? <==> forall i :: 0 <= i < |cs| ==> Fork(v, cs[i]).Ok?
    ensures Forks(v, cs).Ok? ==> forall i :: 0 <= i < |cs| ==> Fork(v, cs[i]) == Ok(Forks(v, cs).value[i])
    ensures Forks(v, cs).Err? ==>
      exists i :: 0 <= i < |cs| && Fork(v, cs[i]) == Err(Forks(v, cs).error) &&
                  forall j :: 0 <= j < i ==> Fork(v, cs[j]).Ok?
  {
    CollectAllIsPerElement(ForkFrom(v), cs);
  }

  /** `assess_decision` on values. */
  function Assess(v: GameView): (r: Result<Outcome, GameStateError>)
    requires (v.playerTurn as int) < |v.players| && SeatCount(|v.players|) != 0
    ensures r == Ok(Won(v.playerTurn)) <==> v.players[v.playerTurn].hand == []
    ensures r.Ok? ==> forall w :: w in Successors(r.value) ==> w.players == v.players
    ensures r.Ok? && r.value.Passed? ==>
      ViewPlayable(v) == Ok(None) && r.value.view.board == v.board &&
      Ok(r.value.view.playerTurn) == NextTurn(v.playerTurn, |v.players|)
    ensures r.Ok? && (r.value.Forced? || r.value.Branched?) ==>
      ViewPlayable(v).Ok? && ViewPlayable(v).value.Some?
    ensures r.Ok? && r.value.Forced? ==>
      |ViewPlayable(v).value.value| == 1 &&
      Ok(r.value.view) == PlayAndPass(v, ViewPlayable(v).value.value[0])
    ensures r.Ok? && r.value.Branched? ==>
      |ViewPlayable(v).value.value| >= 2 && |r.value.views| == |ViewPlayable(v).value.value|
    ensures v.players[v.playerTurn].hand != [] ==>
      && (ViewPlayable(v).Err? ==> r == Err(ViewPlayable(v).error))
      && (ViewPlayable(v) == Ok(None) ==>
            && (r.Err? <==> v.playerTurn == 255)
            && (r.Err? ==> r.error == OverflowError)
            && (r.Ok? ==> r.value.Passed?))
      && (ViewPlayable(v).Ok? && ViewPlayable(v).value.Some? ==>
            var cs := ViewPlayable(v).value.value;
            && (|cs| == 1 ==>
                  && (r.Ok? <==> PlayAndPass(v, cs[0]).Ok?)
                  && (r.Err? ==> r.error == PlayAndPass(v, cs[0]).error))
            && (|cs| != 1 ==>
                  && (r.Ok? <==> Forks(v, cs).Ok?)
                  && (r.Err? ==> r.error == Forks(v, cs).error)))
  {
    if v.players[v.playerTurn].hand == [] then Ok(Won(v.playerTurn))
    else
      match ViewPlayable(v)
      case Err(e) => Err(e)
      case Ok(None) =>
        (match NextTurn(v.playerTurn, |v.players|)
         case Err(e) => Err(e)
         case Ok(t) => Ok(Passed(v.(playerTurn := t))))
      case Ok(Some(cs)) =>
        if |cs| == 1 then
          (match PlayAndPass(v, cs[0])
           case Err(e) => Err(e)
           case Ok(w) => Ok(Forced(w)))
        else
          match Forks(v, cs)
          case Err(e) => Err(e)
          case Ok(ws) => Ok(Branched(ws))
  }

  /** A branch holds one successor per playable card, in card order: the position after it. */
  lemma BranchesFollowPlayableCards(v: GameView)
    requires (v.playerTurn as int) < |v.players| && SeatCount(|v.players|) != 0
    requires Assess(v).Ok? && Assess(v).value.Branched?
    ensures
      var cs, ws := ViewPlayable(v).value.value, Assess(v).value.views;
      forall i :: 0 <= i < |cs| ==> Fork(v, cs[i]) == Ok(ws[i]) && Ok(ws[i]) == PlayAndPass(v, cs[i])
  {
    ForksIsPerCard(v, ViewPlayable(v).value.value);
  }

  /** The positions the search reaches: a well-formed board and a pointer on a real seat. */
  ghost predicate Reachable(v: GameView)
  {
    && 1 <= |v.players| <= 255
    && (v.playerTurn as int) < |v.players|
    && BoardWellFormed(v.board)
  }

  /** One card further on the same hands, in a reachable position. */
  ghost predicate Advances(v: GameView, w: GameView)
    requires BoardWellFormed(v.board)
  {
    && Reachable(w)
    && w.players == v.players
    && BoardPlaced(w.board) == BoardPlaced(v.board) + 1
  }

  lemma PlayableCardAdvances(v: GameView, c: Card)
    requires Reachable(v) && ViewPlayable(v).Ok? && ViewPlayable(v).value.Some?
    requires c in ViewPlayable(v).value.value
    ensures PlayAndPass(v, c).Ok? && Advances(v, PlayAndPass(v, c).value)
  {
    BoardPlaySucceedsIffPlayable(v.board, c);
    BoardPlayKeepsWellFormed(v.board, c);
  }

  /**
   * From a reachable position with cards in hand, assessing never fails: a pass happens
   * only on a complete board and keeps it, and every other successor is reachable, keeps
   * the hands and places exactly one more card.
   */
  lemma {:induction false} AssessMakesProgress(v: GameView)
    requires Reachable(v) && v.players[v.playerTurn].hand != []
    ensures Assess(v).Ok? && !Assess(v).value.Won?
    ensures Assess(v).value.Passed? ==>
      var w := Assess(v).value.view;
      Reachable(w) && w.players == v.players && w.board == v.board && BoardPlaced(v.board) == 52
    ensures Assess(v).value.Forced? ==> Advances(v, Assess(v).value.view)
    ensures Assess(v).value.Branched? ==>
      var ws := Assess(v).value.views;
      |ws| >= 2 && forall i :: 0 <= i < |ws| ==> Advances(v, ws[i])
  {
    NothingPlayableIffAllComplete(v.board);
    if ViewPlayable(v).value.Some? {
      var cs := ViewPlayable(v).value.value;
      if |cs| == 1 {
        PlayableCardAdvances(v, cs[0]);
      } else {
        ForksAdvance(v);
      }
    }
  }

  /** With two or more playable cards every card forks, each into a position one card further. */
  lemma ForksAdvance(v: GameView)
    requires Reachable(v) && ViewPlayable(v).Ok? && ViewPlayable(v).value.Some?
    requires |ViewPlayable(v).value.value| >= 2
    ensures Forks(v, ViewPlayable(v).value.value).Ok?
    ensures forall i :: 0 <= i < |ViewPlayable(v).value.value| ==>
      Advances(v, Forks(v, ViewPlayable(v).value.value).value[i])
  {
    var cs := ViewPlayable(v).value.value;
    forall c | c in cs
      ensures PlayAndPass(v, c).Ok? && Advances(v, PlayAndPass(v, c).value)
    {
      PlayableCardAdvances(v, c);
    }
    ForksIsPerCard(v, cs);
  }

  /** On the opening board the player to move may start any of the four sevens. */
  lemma OpeningBranchesFourWays(v: GameView)
    requires v.board == NewBoard() && (v.playerTurn as int) < |v.players| <= 255
    requires v.players[v.playerTurn].hand != []
    ensures Assess(v).Ok? && Assess(v).value.Branched?
    ensures |Assess(v).value.views| == 4
  {
    NewBoardOffersSevens();
    AssessMakesProgress(v);
  }

  /** Three complete suits and an untouched diamond stack leave the seven of diamonds forced. */
  lemma LastSevenIsForced(v: GameView)
    requires (v.playerTurn as int) < |v.players| <= 255
    requires v.players[v.playerTurn].hand != []
    requires v.board.spade == StackState(Spade, Some(Card(Spade, King)), Some(Card(Spade, Ace)))
    requires v.board.club == StackState(Club, Some(Card(Club, King)), Some(Card(Club, Ace)))
    requires v.board.heart == StackState(Heart, Some(Card(Heart, King)), Some(Card(Heart, Ace)))
    requires v.board.diamond == NewStack(Diamond)
    ensures ViewPlayable(v) == Ok(Some([Card(Diamond, Seven)]))
    ensures Assess(v).Ok? && Assess(v).value.Forced?
  {
    assert Playable(v.board.spade) == Ok(None);
    assert Playable(v.board.club) == Ok(None);
    assert Playable(v.board.heart) == Ok(None);
    assert Playable(v.board.diamond) == Ok(Some([Card(Diamond, Seven)]));
    assert Listed(None) + Listed(None) + Listed(None) + [Card(Diamond, Seven)] == [Card(Diamond, Seven)];
    AssessMakesProgress(v);
  }

  datatype Decision =
    | Victory(seat: u8)
    | NoPlayableCards(state: GameState)
    | OnePlayableCard(state: GameState)
    | MultiplePlayableCards(states: seq<GameState>)

  /** Each state is well formed and holds the position at the same index. */
  ghost predicate Represent(states: seq<GameState>, views: seq<GameView>)
    reads states
    reads set s | s in states :: s.gameBoard.spadeStack
    reads set s | s in states :: s.gameBoard.clubStack
    reads set s | s in states :: s.gameBoard.heartStack
    reads set s | s in states :: s.gameBoard.diamondStack
    decreases |states|
  {
    && |states| == |views|
    && (states != [] ==>
          && states[0].Valid() && states[0].View() == views[0]
          && Represent(states[1..], views[1..]))
  }

  /**
   * The `map(play_card_and_return_new).collect()` step of `assess_decision`: one new state
   * per card, in order, or the first failure.
   */
  method BranchAll(gameState: GameState, cards: seq<Card>) returns (r: Result<seq<GameState>, GameStateError>)
    requires gameState.Valid() && SeatCount(|gameState.players|) != 0
    ensures r.Ok? <==> Forks(old(gameState.View()), cards).Ok?
    ensures r.Err? ==> r.error == Forks(old(gameState.View()), cards).error
    ensures r.Ok? ==> Represent(r.value, Forks(old(gameState.View()), cards).value)
    decreases |cards|
  {
    if cards == [] {
      return Ok([]);
    }
    ghost var v := gameState.View();
    var first := gameState.PlayCardAndReturnNew(cards[0]);
    if first.Err? {
      return Err(first.error);
    }
    ghost var w := first.value.View();
    var rest := BranchAll(gameState, cards[1..]);
    if rest.Err? {
      return Err(rest.error);
    }
    assert first.value.View() == w;
    var states := [first.value] + rest.value;
    assert states[1..] == rest.value;
    r := Ok(states);
  }

  /**
   * `assess_decision`. The state is taken over by the call (the search hands it a clone):
   * a pass or a forced move updates it in place and returns it, a branch returns one new
   * state per playable card.
   */
  method AssessDecision(gameState: GameState) returns (r: Result<Decision, GameStateError>)
    requires gameState.Valid()
    requires (gameState.playerTurn as int) < |gameState.players| && SeatCount(|gameState.players|) != 0
    modifies gameState.Repr()
    ensures var a := Assess(old(gameState.View()));
      && (r.Ok? <==> a.Ok?)
      && (r.Err? ==> r.error == a.error)
      && (r.Ok? ==>
           match r.value
           case Victory(seat) => a.value == Won(seat)
           case NoPlayableCards(s) => s == gameState && s.Valid() && a.value == Passed(s.View())
           case OnePlayableCard(s) => s == gameState && s.Valid() && a.value == Forced(s.View())
           case MultiplePlayableCards(ss) =>
             && a.value.Branched? && |ss| == |a.value.views|
             && Represent(ss, a.value.views))
  {
    ghost var v := gameState.View();
    if gameState.players[gameState.playerTurn].hand == [] {
      return Ok(Victory(gameState.playerTurn));
    }
    var playable := gameState.GetPlayableCards();
    if playable.Err? {
      return Err(playable.error);
    }
    if playable.value.None? {
      var passed := gameState.PassTurn();
      if passed.Fail? {
        return Err(passed.error);
      }
      return Ok(NoPlayableCards(gameState));
    }
    var playableCards := playable.value.value;
    if |playableCards| == 1 {
      var played := gameState.PlayOnlyPlayableCard();
      if played.Fail? {
        return Err(played.error);
      }
      return Ok(OnePlayableCard(gameState));
    }
    var output := BranchAll(gameState, playableCards);
    if output.Err? {
      return Err(output.error);
    }
    return Ok(MultiplePlayableCards(output.value));
  }

  datatype BranchError = VictoryDecisionLeak | NoStatesInBranches

  /**
   * `process_branches`: the position to continue from. A branch pushes all its states on the
   * stack of pending positions and continues from the top one.
   */
  method ProcessBranches(branches: seq<GameState>, decision: Decision)
    returns (remaining: seq<GameState>, r: Result<GameState, BranchError>)
    ensures decision.Victory? ==> r == Err(VictoryDecisionLeak) && remaining == branches
    ensures decision.NoPlayableCards? || decision.OnePlayableCard? ==>
      r == Ok(decision.state) && remaining == branches
    ensures decision.MultiplePlayableCards? ==>
      var pending := branches + decision.states;
      && (pending == [] <==> r.Err?)
      && (r.Err? ==> r.error == NoStatesInBranches && remaining == [])
      && (r.Ok? ==> remaining + [r.value] == pending)
    ensures r.Ok? && decision.MultiplePlayableCards? ==>
      multiset(remaining) + multiset{r.value} == multiset(branches) + multiset(decision.states)
  {
    match decision
    case Victory(_) =>
      return branches, Err(VictoryDecisionLeak);
    case NoPlayableCards(state) =>
      return branches, Ok(state);
    case OnePlayableCard(state) =>
      return branches, Ok(state);
    case MultiplePlayableCards(states) =>
      remaining := branches;
      for i := 0 to |states|
        invariant remaining == branches + states[..i]
      {
        remaining := remaining + [states[i]];
      }
      assert states[..|states|] == states;
      if remaining == [] {
        return [], Err(NoStatesInBranches);
      }
      var top := remaining[|remaining| - 1];
      assert remaining == remaining[..|remaining| - 1] + [top];
      assert multiset(remaining) == multiset(remaining[..|remaining| - 1]) + multiset{top};
      assert multiset(remaining) == multiset(branches) + multiset(states);
      remaining := remaining[..|remaining| - 1];
      return remaining, Ok(top);
  }
}
