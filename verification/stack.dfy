/**
 * One suit's pile (`stack::Stack` in src/main.rs): two optional markers, the top of the
 * upward run (Seven..King) and the bottom of the downward run (Seven..Ace).
 * The value-level state machine (StackState, Playable, Play) is the specification;
 * class Stack is the mutable struct whose `play_card` is proved against it.
 */
module Stacks {
  import opened Wrappers
  import opened Cards

  datatype StackError =
    | InvalidStackState
    | InvalidUpStack
    | InvalidDownStack
    | CompletedStackPlayedOn
    | UnplayableCardNumber

  datatype StackState = StackState(suit: Suit, upCard: Option<Card>, downCard: Option<Card>)

  /** Nothing played yet on this suit. */
  predicate Virgin(s: StackState) { s.upCard.None? && s.downCard.None? }

  /** The Seven has been played: both markers are set. */
  predicate Started(s: StackState) { s.upCard.Some? && s.downCard.Some? }

  function UpRank(s: StackState): int
    requires Started(s)
  {
    Rank(s.upCard.value.number)
  }

  function DownRank(s: StackState): int
    requires Started(s)
  {
    Rank(s.downCard.value.number)
  }

  /**
   * The states reachable by legal play: untouched, or the up marker somewhere in
   * Seven..King and the down marker somewhere in Ace..Seven.
   */
  predicate WellFormed(s: StackState)
  {
    Virgin(s) || (Started(s) && 7 <= UpRank(s) <= 13 && 1 <= DownRank(s) <= 7)
  }

  /** Both directions are closed: King on top, Ace at the bottom. */
  predicate Complete(s: StackState)
  {
    Started(s) && UpRank(s) == 13 && DownRank(s) == 1
  }

  /** Rank arithmetic reading of the rules: number `n` extends the stack by one step. */
  predicate Extends(s: StackState, n: Number)
  {
    (Virgin(s) && n == Seven) ||
    (Started(s) && (Rank(n) == UpRank(s) + 1 || Rank(n) == DownRank(s) - 1))
  }

  /** How many cards of the suit are on the table. */
  function Placed(s: StackState): int
    requires WellFormed(s)
  {
    if Virgin(s) then 0 else (UpRank(s) - 7) + (7 - DownRank(s)) + 1
  }

  function NewStack(suit: Suit): StackState
  {
    StackState(suit, None, None)
  }

  /** The card that may go on top of an up marker holding `n`. */
  function UpSuccessor(n: Number): (r: Result<Option<Number>, StackError>)
    ensures r.Ok? <==> Rank(n) >= 7
    ensures r.Err? ==> r.error == InvalidUpStack
    ensures r == Ok(None) <==> n == King
    ensures r.Ok? && r.value.Some? ==> Rank(r.value.value) == Rank(n) + 1
  {
    match n
    case Seven => Ok(Some(Eight))
    case Eight => Ok(Some(Nine))
    case Nine => Ok(Some(Ten))
    case Ten => Ok(Some(Jack))
    case Jack => Ok(Some(Queen))
    case Queen => Ok(Some(King))
    case King => Ok(None)
    case _ => Err(InvalidUpStack)
  }

  /** The card that may go below a down marker holding `n`. */
  function DownSuccessor(n: Number): (r: Result<Option<Number>, StackError>)
    ensures r.Ok? <==> Rank(n) <= 7
    ensures r.Err? ==> r.error == InvalidDownStack
    ensures r == Ok(None) <==> n == Ace
    ensures r.Ok? && r.value.Some? ==> Rank(r.value.value) == Rank(n) - 1
  {
    match n
    case Ace => Ok(None)
    case Two => Ok(Some(Ace))
    case Three => Ok(Some(Two))
    case Four => Ok(Some(Three))
    case Five => Ok(Some(Four))
    case Six => Ok(Some(Five))
    case Seven => Ok(Some(Six))
    case _ => Err(InvalidDownStack)
  }

  /** `get_playable_cards`: the legal next cards, `None` when complete, or a structural error. */
  function Playable(s: StackState): (r: Result<Option<seq<Card>>, StackError>)
    ensures Virgin(s) ==> r == Ok(Some([Card(s.suit, Seven)]))
    ensures s.upCard.Some? != s.downCard.Some? ==> r == Err(InvalidStackState)
    ensures Started(s) && UpRank(s) < 7 ==> r == Err(InvalidUpStack)
    ensures Started(s) && UpRank(s) >= 7 && DownRank(s) > 7 ==> r == Err(InvalidDownStack)
    ensures r.Ok? <==> WellFormed(s)
    ensures r.Ok? ==> (r.value.None? <==> Complete(s))
    ensures r.Ok? && r.value.Some? ==>
      && 1 <= |r.value.value| <= 2
      && (forall c :: c in r.value.value ==> c.suit == s.suit)
    ensures r.Ok? && r.value.Some? && |r.value.value| == 2 ==>
      Rank(r.value.value[0].number) == UpRank(s) + 1 && Rank(r.value.value[1].number) == DownRank(s) - 1
  {
    if s.upCard.None? && s.downCard.None? then
      Ok(Some([Card(s.suit, Seven)]))
    else if s.upCard.Some? && s.downCard.Some? then
      match UpSuccessor(s.upCard.value.number)
      case Err(e) => Err(e)
      case Ok(up) =>
        match DownSuccessor(s.downCard.value.number)
        case Err(e) => Err(e)
        case Ok(down) =>
          match (up, down)
          case (Some(u), Some(d)) => Ok(Some([Card(s.suit, u), Card(s.suit, d)]))
          case (Some(u), None) => Ok(Some([Card(s.suit, u)]))
          case (None, Some(d)) => Ok(Some([Card(s.suit, d)]))
          case (None, None) => Ok(None)
    else
      Err(InvalidStackState)
  }

  /** The cards `get_playable_cards` lists are exactly the numbers that extend the stack. */
  lemma PlayableIsExtends(s: StackState)
    ensures Playable(s).Ok? && Playable(s).value.Some? ==>
      forall n :: Card(s.suit, n) in Playable(s).value.value <==> Extends(s, n)
  {
  }

  /** `play_card` on a value: the new state, or the error the call returns. */
  function Play(s: StackState, n: Number): (r: Result<StackState, StackError>)
    ensures Playable(s).Err? ==> r == Err(Playable(s).error)
    ensures Playable(s) == Ok(None) ==> r == Err(CompletedStackPlayedOn)
    ensures Playable(s).Ok? && Playable(s).value.Some? ==>
      (r.Ok? <==> Card(s.suit, n) in Playable(s).value.value) &&
      (r.Err? ==> r.error == UnplayableCardNumber)
    ensures WellFormed(s) ==> (r.Ok? <==> Extends(s, n))
    ensures r.Ok? ==> r.value.suit == s.suit
    ensures r.Ok? && n == Seven ==>
      r.value.upCard == Some(Card(s.suit, Seven)) && r.value.downCard == Some(Card(s.suit, Seven))
    ensures r.Ok? && Rank(n) < 7 ==>
      r.value.downCard == Some(Card(s.suit, n)) && r.value.upCard == s.upCard
    ensures r.Ok? && Rank(n) > 7 ==>
      r.value.upCard == Some(Card(s.suit, n)) && r.value.downCard == s.downCard
    ensures r.Ok? ==> WellFormed(r.value) && Placed(r.value) == Placed(s) + 1
    ensures r.Ok? ==> !Extends(r.value, n)
  {
    PlayableIsExtends(s);
    match Playable(s)
    case Err(e) => Err(e)
    case Ok(None) => Err(CompletedStackPlayedOn)
    case Ok(Some(cards)) =>
      if Card(s.suit, n) !in cards then
        Err(UnplayableCardNumber)
      else
        match n
        case Ace | Two | Three | Four | Five | Six =>
          Ok(s.(downCard := Some(Card(s.suit, n))))
        case Seven =>
          Ok(s.(upCard := Some(Card(s.suit, n)), downCard := Some(Card(s.suit, n))))
        case Eight | Nine | Ten | Jack | Queen | King =>
          Ok(s.(upCard := Some(Card(s.suit, n))))
  }

  /**
   * The stack after a series of `play_card` calls, each applied when it succeeds and
   * leaving the stack as it was when it fails.
   */
  function Replay(s: StackState, ns: seq<Number>): StackState
    decreases |ns|
  {
    if ns == [] then s
    else
      var next := if Play(s, ns[0]).Ok? then Play(s, ns[0]).value else s;
      Replay(next, ns[1..])
  }

  /**
   * Starting from a fresh stack, no series of plays reaches a structurally invalid
   * state, so `get_playable_cards` never errors; at most one card per call is placed.
   */
  lemma {:induction false} ReplayFromNewIsWellFormed(suit: Suit, ns: seq<Number>)
    ensures WellFormed(Replay(NewStack(suit), ns))
    ensures Playable(Replay(NewStack(suit), ns)).Ok?
    ensures Replay(NewStack(suit), ns).suit == suit
    ensures Placed(Replay(NewStack(suit), ns)) <= |ns|
  {
    ReplayKeepsWellFormed(NewStack(suit), ns);
  }

  lemma {:induction false} ReplayKeepsWellFormed(s: StackState, ns: seq<Number>)
    requires WellFormed(s)
    ensures WellFormed(Replay(s, ns))
    ensures Replay(s, ns).suit == s.suit
    ensures Placed(s) <= Placed(Replay(s, ns)) <= Placed(s) + |ns|
    decreases |ns|
  {
    if ns != [] {
      var next := if Play(s, ns[0]).Ok? then Play(s, ns[0]).value else s;
      ReplayKeepsWellFormed(next, ns[1..]);
    }
  }

  /** A complete stack holds all thirteen cards of its suit, and only it does. */
  lemma CompleteIffAllPlaced(s: StackState)
    requires WellFormed(s)
    ensures Complete(s) <==> Placed(s) == 13
    ensures Placed(s) <= 13
  {
  }

  /**
   * The up marker only climbs and the down marker only descends: after a successful
   * play on a started stack, neither direction has moved back toward Seven.
   */
  lemma PlayIsMonotone(s: StackState, n: Number)
    requires WellFormed(s) && Started(s) && Play(s, n).Ok?
    ensures UpRank(Play(s, n).value) >= UpRank(s)
    ensures DownRank(Play(s, n).value) <= DownRank(s)
  {
  }

  class Stack {
    const suit: Suit
    var upCard: Option<Card>
    var downCard: Option<Card>

    function State(): StackState
      reads this
    {
      StackState(suit, upCard, downCard)
    }

    /** `Stack::new`: an untouched pile of the given suit. */
    constructor (suit: Suit)
      ensures this.suit == suit && upCard.None? && downCard.None?
      ensures State() == NewStack(suit) && WellFormed(State())
    {
      this.suit := suit;
      upCard := None;
      downCard := None;
    }

    /**
     * `Stack::get_playable_cards` on this object's markers: it succeeds exactly on a
     * well-formed stack, answers `None` exactly when the stack is complete, and otherwise
     * lists exactly the numbers that extend the stack.
     */
    function GetPlayableCards(): (r: Result<Option<seq<Card>>, StackError>)
      reads this
      ensures r == Playable(State())
      ensures r.Ok? <==> WellFormed(State())
      ensures r.Ok? ==> (r.value.None? <==> Complete(State()))
      ensures r.Ok? && r.value.Some? ==>
        forall n :: Card(suit, n) in r.value.value <==> Extends(State(), n)
    {
      PlayableIsExtends(State());
      Playable(State())
    }

    /** `Stack::play_card`: places a card of this suit, or fails leaving both markers as they were. */
    method PlayCard(cardNumber: Number) returns (r: Status<StackError>)
      modifies this
      ensures r.Pass? ==> Play(old(State()), cardNumber) == Ok(State())
      ensures r.Fail? ==> Play(old(State()), cardNumber) == Err(r.error)
      ensures r.Fail? ==> upCard == old(upCard) && downCard == old(downCard)
    {
      var playable := GetPlayableCards();
      if playable.Err? {
        return Fail(playable.error);
      }
      if playable.value.None? {
        return Fail(CompletedStackPlayedOn);
      }
      var cards := playable.value.value;
      if Card(suit, cardNumber) in cards {
        match cardNumber {
          case Ace | Two | Three | Four | Five | Six =>
            downCard := Some(Card(suit, cardNumber));
          case Seven =>
            upCard := Some(Card(suit, cardNumber));
            downCard := Some(Card(suit, cardNumber));
          case Eight | Nine | Ten | Jack | Queen | King =>
            upCard := Some(Card(suit, cardNumber));
        }
        r := Pass;
      } else {
        r := Fail(UnplayableCardNumber);
      }
    }
  }
}
