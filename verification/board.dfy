/**
 * The four suit stacks (`game_board::GameBoard` in src/main.rs). BoardPlayable and BoardPlay
 * are the value-level specification; class GameBoard is the struct with its four stacks.
 */
module Boards {
  import opened Wrappers
  import opened Cards
  import opened Stacks

  /** A stack error tagged with the suit of the stack that raised it. */
  datatype BoardError = StackErr(error: StackError, suit: Suit)

  datatype BoardState = BoardState(spade: StackState, club: StackState, heart: StackState, diamond: StackState)

  function NewBoard(): BoardState
  {
    BoardState(NewStack(Spade), NewStack(Club), NewStack(Heart), NewStack(Diamond))
  }

  function StackOf(b: BoardState, s: Suit): StackState
  {
    match s
    case Spade => b.spade
    case Club => b.club
    case Heart => b.heart
    case Diamond => b.diamond
  }

  /** Each stack sits in the slot of its own suit. */
  predicate SuitsAligned(b: BoardState)
  {
    b.spade.suit == Spade && b.club.suit == Club && b.heart.suit == Heart && b.diamond.suit == Diamond
  }

  predicate BoardWellFormed(b: BoardState)
  {
    SuitsAligned(b) && WellFormed(b.spade) && WellFormed(b.club) && WellFormed(b.heart) && WellFormed(b.diamond)
  }

  /** Number of cards on the table. */
  function BoardPlaced(b: BoardState): int
    requires BoardWellFormed(b)
  {
    Placed(b.spade) + Placed(b.club) + Placed(b.heart) + Placed(b.diamond)
  }

  /** A card is playable on the board when its own suit's stack offers it. */
  predicate OffersCard(b: BoardState, c: Card)
  {
    var p := Playable(StackOf(b, c.suit));
    p.Ok? && p.value.Some? && c in p.value.value
  }

  function Listed(o: Option<seq<Card>>): seq<Card>
  {
    if o.Some? then o.value else []
  }

  /**
   * `GameBoard::get_playable_cards`: the stacks' cards concatenated in the order spade, club,
   * heart, diamond; `None` when that list is empty; the first stack error tagged with its suit.
   */
  function BoardPlayable(b: BoardState): (r: Result<Option<seq<Card>>, BoardError>)
    ensures r.Ok? <==>
      Playable(b.spade).Ok? && Playable(b.club).Ok? && Playable(b.heart).Ok? && Playable(b.diamond).Ok?
    ensures r.Err? ==>
      && Playable(StackOf(b, r.error.suit)) == Err(r.error.error)
      && forall s: Suit :: SuitIndex(s) < SuitIndex(r.error.suit) ==> Playable(StackOf(b, s)).Ok?
    ensures r.Ok? ==> (r.value.None? <==>
      Playable(b.spade) == Playable(b.club) == Playable(b.heart) == Playable(b.diamond) == Ok(None))
    ensures r.Ok? && r.value.Some? ==>
      r.value.value == Listed(Playable(b.spade).value) + Listed(Playable(b.club).value)
                       + Listed(Playable(b.heart).value) + Listed(Playable(b.diamond).value)
    ensures BoardWellFormed(b) ==> r.Ok?
  {
    match Playable(b.spade)
    case Err(e) => Err(StackErr(e, Spade))
    case Ok(spades) =>
      match Playable(b.club)
      case Err(e) => Err(StackErr(e, Club))
      case Ok(clubs) =>
        match Playable(b.heart)
        case Err(e) => Err(StackErr(e, Heart))
        case Ok(hearts) =>
          match Playable(b.diamond)
          case Err(e) => Err(StackErr(e, Diamond))
          case Ok(diamonds) =>
            var output := Listed(spades) + Listed(clubs) + Listed(hearts) + Listed(diamonds);
            if |output| > 0 then Ok(Some(output)) else Ok(None)
  }

  /** Board-wide playability is decided by the card's own suit's stack alone. */
  lemma BoardPlayableIsPerSuit(b: BoardState, c: Card)
    requires SuitsAligned(b) && BoardPlayable(b).Ok? && BoardPlayable(b).value.Some?
    ensures c in BoardPlayable(b).value.value <==> OffersCard(b, c)
  {
    var cs := BoardPlayable(b).value.value;
    var sp, cl, he, di := Listed(Playable(b.spade).value), Listed(Playable(b.club).value),
                          Listed(Playable(b.heart).value), Listed(Playable(b.diamond).value);
    assert cs == sp + cl + he + di;
    assert c in cs <==> c in sp || c in cl || c in he || c in di;
  }

  /** `GameBoard::play_card`: routes the card to the stack of its suit, tagging any error. */
  function BoardPlay(b: BoardState, c: Card): (r: Result<BoardState, BoardError>)
    ensures r.Ok? <==> Play(StackOf(b, c.suit), c.number).Ok?
    ensures r.Ok? ==> StackOf(r.value, c.suit) == Play(StackOf(b, c.suit), c.number).value
    ensures r.Ok? ==> forall s: Suit :: s != c.suit ==> StackOf(r.value, s) == StackOf(b, s)
    ensures r.Err? ==> r.error == StackErr(Play(StackOf(b, c.suit), c.number).error, c.suit)
  {
    match c.suit
    case Spade =>
      (match Play(b.spade, c.number)
       case Err(e) => Err(StackErr(e, Spade))
       case Ok(st) => Ok(b.(spade := st)))
    case Club =>
      (match Play(b.club, c.number)
       case Err(e) => Err(StackErr(e, Club))
       case Ok(st) => Ok(b.(club := st)))
    case Heart =>
      (match Play(b.heart, c.number)
       case Err(e) => Err(StackErr(e, Heart))
       case Ok(st) => Ok(b.(heart := st)))
    case Diamond =>
      (match Play(b.diamond, c.number)
       case Err(e) => Err(StackErr(e, Diamond))
       case Ok(st) => Ok(b.(diamond := st)))
  }

  /**
   * A play succeeds exactly when the card is among the board's playable cards, and a
   * successful play on a well-formed board keeps it well formed with one more card placed.
   */
  lemma BoardPlaySucceedsIffPlayable(b: BoardState, c: Card)
    requires SuitsAligned(b) && BoardPlayable(b).Ok? && BoardPlayable(b).value.Some?
    ensures BoardPlay(b, c).Ok? <==> c in BoardPlayable(b).value.value
  {
    BoardPlayableIsPerSuit(b, c);
  }

  lemma BoardPlayKeepsWellFormed(b: BoardState, c: Card)
    requires BoardWellFormed(b) && BoardPlay(b, c).Ok?
    ensures BoardWellFormed(BoardPlay(b, c).value)
    ensures BoardPlaced(BoardPlay(b, c).value) == BoardPlaced(b) + 1
  {
    var st := StackOf(b, c.suit);
    assert WellFormed(st);
    assert Play(st, c.number).Ok?;
  }

  /** A fresh board offers exactly the four Sevens, spade first. */
  lemma NewBoardOffersSevens()
    ensures BoardWellFormed(NewBoard()) && BoardPlaced(NewBoard()) == 0
    ensures BoardPlayable(NewBoard()) ==
      Ok(Some([Card(Spade, Seven), Card(Club, Seven), Card(Heart, Seven), Card(Diamond, Seven)]))
  {
    var b := NewBoard();
    assert Playable(b.spade) == Ok(Some([Card(Spade, Seven)]));
    assert Playable(b.club) == Ok(Some([Card(Club, Seven)]));
    assert Playable(b.heart) == Ok(Some([Card(Heart, Seven)]));
    assert Playable(b.diamond) == Ok(Some([Card(Diamond, Seven)]));
    var sevens := [Card(Spade, Seven), Card(Club, Seven), Card(Heart, Seven), Card(Diamond, Seven)];
    assert [Card(Spade, Seven)] + [Card(Club, Seven)] + [Card(Heart, Seven)] + [Card(Diamond, Seven)] == sevens;
    assert BoardPlayable(b).Ok? && BoardPlayable(b).value.Some?;
  }

  /** The board offers nothing exactly when every stack is complete. */
  lemma NothingPlayableIffAllComplete(b: BoardState)
    requires BoardWellFormed(b)
    ensures BoardPlayable(b) == Ok(None) <==>
      Complete(b.spade) && Complete(b.club) && Complete(b.heart) && Complete(b.diamond)
    ensures BoardPlayable(b) == Ok(None) <==> BoardPlaced(b) == 52
  {
    CompleteIffAllPlaced(b.spade);
    CompleteIffAllPlaced(b.club);
    CompleteIffAllPlaced(b.heart);
    CompleteIffAllPlaced(b.diamond);
  }

  class GameBoard {
    const spadeStack: Stack
    const clubStack: Stack
    const heartStack: Stack
    const diamondStack: Stack

    /** Each stack holds the suit of its slot, which also makes the four stacks distinct. */
    ghost predicate Valid()
    {
      && spadeStack.suit == Spade && clubStack.suit == Club
      && heartStack.suit == Heart && diamondStack.suit == Diamond
    }

    ghost function Stacks(): set<object>
    {
      {spadeStack, clubStack, heartStack, diamondStack}
    }

    function StackFor(s: Suit): Stack
    {
      match s
      case Spade => spadeStack
      case Club => clubStack
      case Heart => heartStack
      case Diamond => diamondStack
    }

    function State(): BoardState
      reads spadeStack, clubStack, heartStack, diamondStack
    {
      BoardState(spadeStack.State(), clubStack.State(), heartStack.State(), diamondStack.State())
    }

    /** `GameBoard::new`: four untouched stacks. */
    constructor ()
      ensures Valid() && fresh(Stacks()) && State() == NewBoard()
    {
      spadeStack := new Stack(Spade);
      clubStack := new Stack(Club);
      heartStack := new Stack(Heart);
      diamondStack := new Stack(Diamond);
    }

    /** The deep copy that `#[derive(Clone)]` makes. */
    constructor Copy(other: GameBoard)
      requires other.Valid()
      ensures Valid() && fresh(Stacks()) && State() == other.State()
    {
      spadeStack := new Stack(Spade);
      clubStack := new Stack(Club);
      heartStack := new Stack(Heart);
      diamondStack := new Stack(Diamond);
      new;
      spadeStack.upCard, spadeStack.downCard := other.spadeStack.upCard, other.spadeStack.downCard;
      clubStack.upCard, clubStack.downCard := other.clubStack.upCard, other.clubStack.downCard;
      heartStack.upCard, heartStack.downCard := other.heartStack.upCard, other.heartStack.downCard;
      diamondStack.upCard, diamondStack.downCard := other.diamondStack.upCard, other.diamondStack.downCard;
    }

    /**
     * `GameBoard::get_playable_cards`, read off the four stack objects: the first stack
     * error in suit order, tagged with its suit, or their lists concatenated.
     */
    function GetPlayableCards(): (r: Result<Option<seq<Card>>, BoardError>)
      reads spadeStack, clubStack, heartStack, diamondStack
      ensures r == BoardPlayable(State())
      ensures r.Ok? <==>
        && spadeStack.GetPlayableCards().Ok? && clubStack.GetPlayableCards().Ok?
        && heartStack.GetPlayableCards().Ok? && diamondStack.GetPlayableCards().Ok?
      ensures spadeStack.GetPlayableCards().Err? ==> r == Err(StackErr(spadeStack.GetPlayableCards().error, Spade))
      ensures r.Ok? ==> (r.value.None? <==>
        && spadeStack.GetPlayableCards() == Ok(None) && clubStack.GetPlayableCards() == Ok(None)
        && heartStack.GetPlayableCards() == Ok(None) && diamondStack.GetPlayableCards() == Ok(None))
      ensures r.Ok? && r.value.Some? ==>
        r.value.value == Listed(spadeStack.GetPlayableCards().value) + Listed(clubStack.GetPlayableCards().value)
                         + Listed(heartStack.GetPlayableCards().value) + Listed(diamondStack.GetPlayableCards().value)
    {
      BoardPlayable(State())
    }

    /** `GameBoard::play_card`: only the stack of the card's suit may change. */
    method PlayCard(card: Card) returns (r: Status<BoardError>)
      requires Valid()
      modifies StackFor(card.suit)
      ensures r.Pass? ==> BoardPlay(old(State()), card) == Ok(State())
      ensures r.Fail? ==> BoardPlay(old(State()), card) == Err(r.error) && State() == old(State())
    {
      var st := StackFor(card.suit);
      var played := st.PlayCard(card.number);
      if played.Fail? {
        r := Fail(StackErr(played.error, card.suit));
      } else {
        r := Pass;
      }
    }
  }
}
