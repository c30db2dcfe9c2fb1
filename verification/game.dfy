/**
 * `game_state::GameState` in src/main.rs: the board, the players' hands and an eight-bit
 * turn pointer. GameView with NextTurn, PlayAndPass and Fork is the value-level
 * specification; class GameState is the struct, mutated in place by the forced moves and
 * cloned by the branching move.
 */
module Game {
  import opened Wrappers
  import opened Cards
  import opened Boards
  import opened Dealing

  newtype u8 = x: int | 0 <= x < 256

  datatype GameStateError =
    | TooManyPlayers
    | OverflowError
    | BoardFailure(boardError: BoardError)
    | MoreThanOnePlayableCard
    | NoPlayableCard
    | OnlyOnePlayableCard
    | UnplayableCard

  datatype GameView = GameView(board: BoardState, players: seq<Player>, playerTurn: u8)

  /** `players.len() as u8`: the player count truncated to eight bits. */
  function SeatCount(playerCount: nat): u8
  {
    (playerCount % 256) as u8
  }

  /**
   * `pass_turn` on the pointer: fails at 255, otherwise moves to the next seat and wraps
   * to seat 0 after the last one.
   */
  function NextTurn(turn: u8, playerCount: nat): (r: Result<u8, GameStateError>)
    requires SeatCount(playerCount) != 0
    ensures r.Err? <==> turn == 255
    ensures r.Err? ==> r.error == OverflowError
    ensures r.Ok? && playerCount <= 255 ==> (r.value as int) < playerCount
    ensures r.Ok? && playerCount <= 255 && (turn as int) + 1 < playerCount ==> r.value == turn + 1
    ensures r.Ok? && playerCount <= 255 && (turn as int) + 1 >= playerCount ==> r.value == 0
  {
    if turn == 255 then Err(OverflowError)
    else if turn < SeatCount(playerCount) - 1 then Ok(turn + 1)
    else Ok(0)
  }

  /** The pointer after `k` consecutive `pass_turn` calls. */
  function PassTimes(turn: u8, playerCount: nat, k: nat): Result<u8, GameStateError>
    requires SeatCount(playerCount) != 0
    decreases k
  {
    if k == 0 then Ok(turn)
    else
      match NextTurn(turn, playerCount)
      case Err(e) => Err(e)
      case Ok(t) => PassTimes(t, playerCount, k - 1)
  }

  lemma {:induction false} PassTimesWithinRound(turn: u8, playerCount: nat, k: nat)
    requires 1 <= playerCount <= 255 && (turn as int) < playerCount && (turn as int) + k <= playerCount
    ensures PassTimes(turn, playerCount, k) ==
      Ok(if (turn as int) + k == playerCount then 0 else turn + k as u8)
    decreases k
  {
    if k > 0 {
      var t := NextTurn(turn, playerCount).value;
      assert PassTimes(turn, playerCount, k) == PassTimes(t, playerCount, k - 1);
      if (turn as int) + 1 < playerCount {
        PassTimesWithinRound(t, playerCount, k - 1);
      } else {
        assert k == 1 && t == 0;
      }
    }
  }

  /**
   * With P players (1 <= P <= 255), passing P times from seat 0 visits every seat in order
   * and comes back to seat 0, never overflowing.
   */
  lemma PassTurnFullCycle(playerCount: nat)
    requires 1 <= playerCount <= 255
    ensures PassTimes(0, playerCount, playerCount) == Ok(0)
    ensures forall j: nat :: j < playerCount ==> PassTimes(0, playerCount, j) == Ok(j as u8)
  {
    PassTimesWithinRound(0, playerCount, playerCount);
    forall j: nat | j < playerCount
      ensures PassTimes(0, playerCount, j) == Ok(j as u8)
    {
      PassTimesWithinRound(0, playerCount, j);
    }
  }

  /** `GameState::get_playable_cards`: the board's answer with its error wrapped. */
  function ViewPlayable(v: GameView): (r: Result<Option<seq<Card>>, GameStateError>)
    ensures r.Ok? <==> BoardPlayable(v.board).Ok?
    ensures r.Ok? ==> r.value == BoardPlayable(v.board).value
    ensures r.Err? ==> r.error == BoardFailure(BoardPlayable(v.board).error)
  {
    match BoardPlayable(v.board)
    case Err(e) => Err(BoardFailure(e))
    case Ok(o) => Ok(o)
  }

  /** Play a card on the board, then pass the turn; hands are left as they are. */
  function PlayAndPass(v: GameView, c: Card): (r: Result<GameView, GameStateError>)
    requires SeatCount(|v.players|) != 0
    ensures r.Ok? ==> r.value.players == v.players
    ensures r.Ok? <==> BoardPlay(v.board, c).Ok? && v.playerTurn != 255
    ensures r.Ok? ==> r.value.board == BoardPlay(v.board, c).value
    ensures r.Ok? ==> Ok(r.value.playerTurn) == NextTurn(v.playerTurn, |v.players|)
  {
    match BoardPlay(v.board, c)
    case Err(e) => Err(BoardFailure(e))
    case Ok(b) =>
      match NextTurn(v.playerTurn, |v.players|)
      case Err(e) => Err(e)
      case Ok(t) => Ok(GameView(b, v.players, t))
  }

  /**
   * `play_card_and_return_new` on values: only for two or more playable cards and a card
   * among them; the result is the position after that card and a pass.
   */
  function Fork(v: GameView, c: Card): (r: Result<GameView, GameStateError>)
    requires SeatCount(|v.players|) != 0
    ensures r.Ok? ==>
      && ViewPlayable(v).Ok? && ViewPlayable(v).value.Some?
      && |ViewPlayable(v).value.value| >= 2 && c in ViewPlayable(v).value.value
      && r == PlayAndPass(v, c)
    ensures r.Ok? ==> r.value.players == v.players
    ensures ViewPlayable(v).Err? ==> r == Err(ViewPlayable(v).error)
    ensures ViewPlayable(v) == Ok(None) ==> r == Err(NoPlayableCard)
    ensures ViewPlayable(v).Ok? && ViewPlayable(v).value.Some? ==>
      var cs := ViewPlayable(v).value.value;
      && (|cs| == 0 ==> r == Err(NoPlayableCard))
      && (|cs| == 1 ==> r == Err(OnlyOnePlayableCard))
      && (|cs| >= 2 && c !in cs ==> r == Err(UnplayableCard))
      && (|cs| >= 2 && c in cs ==> r == PlayAndPass(v, c))
  {
    match ViewPlayable(v)
    case Err(e) => Err(e)
    case Ok(None) => Err(NoPlayableCard)
    case Ok(Some(cs)) =>
      if |cs| == 0 then Err(NoPlayableCard)
      else if |cs| == 1 then Err(OnlyOnePlayableCard)
      else if c !in cs then Err(UnplayableCard)
      else PlayAndPass(v, c)
  }

  /**
   * A branching move on a well-formed board with a non-final pointer succeeds for every
   * playable card, and places exactly one more card.
   */
  lemma ForkPlacesOneCard(v: GameView, c: Card)
    requires SeatCount(|v.players|) != 0 && BoardWellFormed(v.board) && v.playerTurn != 255
    requires ViewPlayable(v).Ok? && ViewPlayable(v).value.Some?
    requires |ViewPlayable(v).value.value| >= 2 && c in ViewPlayable(v).value.value
    ensures Fork(v, c).Ok?
    ensures BoardWellFormed(Fork(v, c).value.board)
    ensures BoardPlaced(Fork(v, c).value.board) == BoardPlaced(v.board) + 1
  {
    BoardPlaySucceedsIffPlayable(v.board, c);
    BoardPlayKeepsWellFormed(v.board, c);
  }

  class GameState {
    const gameBoard: GameBoard
    var players: seq<Player>
    var playerTurn: u8

    ghost predicate Valid()
    {
      gameBoard.Valid()
    }

    ghost function Repr(): set<object>
    {
      {this, gameBoard} + gameBoard.Stacks()
    }

    function View(): GameView
      reads this, gameBoard.spadeStack, gameBoard.clubStack, gameBoard.heartStack, gameBoard.diamondStack
    {
      GameView(gameBoard.State(), players, playerTurn)
    }

    /** A fresh board with the given hands, seat 0 to move. */
    constructor (players: seq<Player>)
      ensures Valid() && fresh(Repr())
      ensures View() == GameView(NewBoard(), players, 0)
    {
      gameBoard := new GameBoard();
      this.players := players;
      playerTurn := 0;
    }

    /** The deep copy that `#[derive(Clone)]` makes. */
    constructor Clone(other: GameState)
      requires other.Valid()
      ensures Valid() && fresh(Repr())
      ensures View() == other.View()
    {
      gameBoard := new GameBoard.Copy(other.gameBoard);
      players := other.players;
      playerTurn := other.playerTurn;
    }

    /**
     * `GameState::new` with the deck given: more than 26 players is refused, otherwise the
     * deck is dealt round-robin onto a fresh board with seat 0 to move.
     */
    static method New(numberOfPlayers: nat, deck: seq<Card>) returns (r: Result<GameState, GameStateError>)
      requires numberOfPlayers <= 26 ==> numberOfPlayers >= 1 && |deck| >= 52
      ensures r.Err? <==> numberOfPlayers > 26
      ensures r.Err? ==> r.error == TooManyPlayers
      ensures r.Ok? ==> fresh(r.value.Repr()) && r.value.Valid()
      ensures r.Ok? ==>
        && r.value.View().board == NewBoard()
        && r.value.View().playerTurn == 0
        && |r.value.View().players| == numberOfPlayers
        && forall p :: 0 <= p < numberOfPlayers ==>
             r.value.View().players[p].hand == DealtHand(deck, numberOfPlayers, 52, p)
    {
      if numberOfPlayers > 26 {
        return Err(TooManyPlayers);
      }
      var players := DistributeCards(numberOfPlayers, deck);
      var state := new GameState(players);
      return Ok(state);
    }

    /** `GameState::get_playable_cards`: the board's answer, its error wrapped as a game error. */
    function GetPlayableCards(): (r: Result<Option<seq<Card>>, GameStateError>)
      reads this, gameBoard.spadeStack, gameBoard.clubStack, gameBoard.heartStack, gameBoard.diamondStack
      ensures r.Ok? <==> gameBoard.GetPlayableCards().Ok?
      ensures r.Ok? ==> r.value == gameBoard.GetPlayableCards().value
      ensures r.Err? ==> r.error == BoardFailure(gameBoard.GetPlayableCards().error)
    {
      ViewPlayable(View())
    }

    /** `pass_turn`: only the pointer moves, and only when it is not already 255. */
    method PassTurn() returns (r: Status<GameStateError>)
      requires SeatCount(|players|) != 0
      modifies this
      ensures players == old(players) && View() == old(View()).(playerTurn := playerTurn)
      ensures r.Fail? ==> r.error == OverflowError && old(playerTurn) == 255 && playerTurn == old(playerTurn)
      ensures r.Pass? ==> NextTurn(old(playerTurn), |players|) == Ok(playerTurn)
    {
      if playerTurn == 255 {
        return Fail(OverflowError);
      }
      if playerTurn < SeatCount(|players|) - 1 {
        playerTurn := playerTurn + 1;
      } else {
        playerTurn := 0;
      }
      return Pass;
    }

    /**
     * `play_only_playable_card`: the forced move, in place. With one playable card the board
     * takes it and the turn passes; if the pass overflows, the card stays played.
     */
    method PlayOnlyPlayableCard() returns (r: Status<GameStateError>)
      requires Valid() && SeatCount(|players|) != 0
      modifies this, gameBoard.Stacks()
      ensures players == old(players)
      ensures
        var v := old(View());
        match ViewPlayable(v)
        case Err(e) => r == Fail(e) && View() == v
        case Ok(None) => r == Fail(NoPlayableCard) && View() == v
        case Ok(Some(cs)) =>
          if |cs| > 1 then r == Fail(MoreThanOnePlayableCard) && View() == v
          else
            && |cs| == 1
            && BoardPlay(v.board, cs[0]).Ok?
            && View().board == BoardPlay(v.board, cs[0]).value
            && (v.playerTurn == 255 ==> r == Fail(OverflowError) && playerTurn == v.playerTurn)
            && (v.playerTurn != 255 ==> r == Pass && View() == PlayAndPass(v, cs[0]).value)
    {
      var playable := GetPlayableCards();
      if playable.Err? {
        return Fail(playable.error);
      }
      if playable.value.None? {
        return Fail(NoPlayableCard);
      }
      var cards := playable.value.value;
      if |cards| > 1 {
        return Fail(MoreThanOnePlayableCard);
      }
      var card := cards[0];
      BoardPlaySucceedsIffPlayable(gameBoard.State(), card);
      var played := gameBoard.PlayCard(card);
      if played.Fail? {
        // The card was offered by this very board, so its stack accepts it.
        assert false;
      }
      r := PassTurn();
    }

    /**
     * `play_card_and_return_new`: the branching move. The position is cloned and the card
     * played on the clone; this state is left as it was.
     */
    method PlayCardAndReturnNew(card: Card) returns (r: Result<GameState, GameStateError>)
      requires Valid() && SeatCount(|players|) != 0
      ensures match Fork(old(View()), card)
        case Err(e) => r == Err(e)
        case Ok(w) => r.Ok? && fresh(r.value.Repr()) && r.value.Valid() && r.value.View() == w
    {
      var getPlayable := GetPlayableCards();
      if getPlayable.Err? {
        return Err(getPlayable.error);
      }
      if getPlayable.value.None? {
        return Err(NoPlayableCard);
      }
      var playableCards := getPlayable.value.value;
      if |playableCards| == 0 {
        return Err(NoPlayableCard);
      }
      if |playableCards| == 1 {
        return Err(OnlyOnePlayableCard);
      }
      if card !in playableCards {
        return Err(UnplayableCard);
      }
      var output := new GameState.Clone(this);
      var played := output.gameBoard.PlayCard(card);
      if played.Fail? {
        return Err(BoardFailure(played.error));
      }
      var passed := output.PassTurn();
      if passed.Fail? {
        return Err(passed.error);
      }
      return Ok(output);
    }
  }
}
