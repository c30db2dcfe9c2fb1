/**
 * The Python prototype of the same rules (investigating_sevens.py): a `Card` whose
 * constructor validates its arguments, and `Game_State_Manager`, which keeps one dict of
 * per-suit markers ("a_up", "a_down", ... "d_down"), lists the playable cards and updates
 * the dict in place on a play. Suits are the strings "a" to "d", values the ints 1 to 13.
 */
module Prototype {
  import opened Wrappers

  /** A constructed `Card`: the value and suit `__init__` stored. */
  datatype PyCard = PyCard(value: int, suit: string)

  /** The Python values a caller may pass where a card, a value or a suit is expected. */
  datatype PyValue =
    | PyInt(i: int)
    | PyBool(b: bool)
    | PyStr(s: string)
    | PyCardRef(card: PyCard)
    | PyOther

  /** The exceptions the prototype raises; their message text is not modelled. */
  datatype PyError = ValueError | TypeError

  /** The dict: key to `None` or an int marker. */
  type Markers = map<string, Option<int>>

  const Suits: seq<string> := ["a", "b", "c", "d"]

  /** `isinstance(v, int)`, which also holds for a bool (Python's `bool` subclasses `int`). */
  predicate IsInt(v: PyValue)
  {
    v.PyInt? || v.PyBool?
  }

  /** The integer an int-like value compares as: a bool is 1 or 0. */
  function IntOf(v: PyValue): int
    requires IsInt(v)
  {
    if v.PyInt? then v.i else if v.b then 1 else 0
  }

  predicate ValidCard(c: PyCard)
  {
    0 < c.value < 14 && c.suit in Suits
  }

  /** `Card.__init__`: the value is checked first (type, then range), then the suit. */
  function NewCard(value: PyValue, suit: PyValue): (r: Result<PyCard, PyError>)
    ensures r.Ok? ==> ValidCard(r.value)
    ensures r.Ok? <==> IsInt(value) && 0 < IntOf(value) < 14 && suit.PyStr? && suit.s in Suits
  {
    if IsInt(value) then
      if 0 < IntOf(value) < 14 then
        if suit.PyStr? then
          if suit.s in Suits then Ok(PyCard(IntOf(value), suit.s)) else Err(ValueError)
        else Err(TypeError)
      else Err(ValueError)
    else Err(TypeError)
  }

  /**
   * Which exception each bad argument raises: a non-int value a TypeError and an int out of
   * 1..13 a ValueError whatever the suit; with a good value, a non-str suit a TypeError and a
   * str outside "a".."d" a ValueError.
   */
  lemma NewCardErrors(value: PyValue, suit: PyValue)
    ensures !IsInt(value) ==> NewCard(value, suit) == Err(TypeError)
    ensures IsInt(value) && !(0 < IntOf(value) < 14) ==> NewCard(value, suit) == Err(ValueError)
    ensures IsInt(value) && 0 < IntOf(value) < 14 && !suit.PyStr? ==> NewCard(value, suit) == Err(TypeError)
    ensures IsInt(value) && 0 < IntOf(value) < 14 && suit.PyStr? && suit.s !in Suits ==>
      NewCard(value, suit) == Err(ValueError)
  {
  }

  /** Every valid card is built back from its own value and suit. */
  lemma NewCardRoundTrip(c: PyCard)
    requires ValidCard(c)
    ensures NewCard(PyInt(c.value), PyStr(c.suit)) == Ok(c)
  {
  }

  /**
   * Being int-like, `True` passes the checks as the value 1 and `False` fails as the
   * out-of-range 0. Python keeps the bool itself as the value, which only `__str__` and
   * `__hash__` would tell apart; neither is part of this model.
   */
  lemma NewCardTakesBools(suit: string)
    requires suit in Suits
    ensures NewCard(PyBool(true), PyStr(suit)) == NewCard(PyInt(1), PyStr(suit))
    ensures NewCard(PyBool(false), PyStr(suit)) == Err(ValueError)
  {
  }

  /** `Card.__eq__`: structural on (value, suit); a non-Card operand raises TypeError. */
  function CardEq(self: PyCard, other: PyValue): (r: Result<bool, PyError>)
    ensures r.Ok? <==> other.PyCardRef?
    ensures r.Err? ==> r.error == TypeError
    ensures r.Ok? ==> (r.value <==> self.value == other.card.value && self.suit == other.card.suit)
  {
    if other.PyCardRef? then Ok(self.value == other.card.value && self.suit == other.card.suit)
    else Err(TypeError)
  }

  /** Among cards, `==` is an equivalence relation and agrees with identity of (value, suit). */
  lemma CardEqIsEquivalence(x: PyCard, y: PyCard, z: PyCard)
    ensures CardEq(x, PyCardRef(x)) == Ok(true)
    ensures CardEq(x, PyCardRef(y)) == CardEq(y, PyCardRef(x))
    ensures CardEq(x, PyCardRef(y)) == Ok(true) && CardEq(y, PyCardRef(z)) == Ok(true) ==>
      CardEq(x, PyCardRef(z)) == Ok(true)
    ensures CardEq(x, PyCardRef(y)) == Ok(true) <==> x == y
  {
  }

  function UpKey(suit: string): string
  {
    suit + "_up"
  }

  function DownKey(suit: string): string
  {
    suit + "_down"
  }

  /** The dict `__init__` builds: every marker `None`. */
  function InitialMarkers(): Markers
  {
    map[UpKey("a") := None, DownKey("a") := None, UpKey("b") := None, DownKey("b") := None,
        UpKey("c") := None, DownKey("c") := None, UpKey("d") := None, DownKey("d") := None]
  }

  /** One suit's markers: both unset, or up in 7..13 and down in 1..7. */
  predicate SuitConsistent(m: Markers, suit: string)
  {
    && UpKey(suit) in m && DownKey(suit) in m
    && ((m[UpKey(suit)].None? && m[DownKey(suit)].None?) ||
        (m[UpKey(suit)].Some? && m[DownKey(suit)].Some? &&
         7 <= m[UpKey(suit)].value <= 13 && 1 <= m[DownKey(suit)].value <= 7))
  }

  /** The states legal play reaches: every suit consistent. */
  predicate Consistent(m: Markers)
  {
    forall s :: s in Suits ==> SuitConsistent(m, s)
  }

  /** The four suit strings, one by one. */
  lemma SuitCases(s: string)
    requires s in Suits
    ensures s == "a" || s == "b" || s == "c" || s == "d"
  {
  }

  /** Each suit has its own pair of keys. */
  lemma KeysDistinct(s: string, t: string)
    requires s in Suits && t in Suits
    ensures UpKey(s) != DownKey(t)
    ensures UpKey(s) == UpKey(t) <==> s == t
    ensures DownKey(s) == DownKey(t) <==> s == t
  {
    SuitCases(s);
    SuitCases(t);
    assert |UpKey(s)| == 4 && |DownKey(t)| == 6;
    assert UpKey(s)[0] == s[0] && UpKey(t)[0] == t[0];
    assert DownKey(s)[0] == s[0] && DownKey(t)[0] == t[0];
  }

  /** A suit is closed in both directions. */
  predicate SuitComplete(m: Markers, suit: string)
  {
    UpKey(suit) in m && DownKey(suit) in m && m[UpKey(suit)] == Some(13) && m[DownKey(suit)] == Some(1)
  }

  /** What one suit adds to the list outside the initial state. */
  function SuitCards(m: Markers, suit: string): seq<PyCard>
    requires SuitConsistent(m, suit)
  {
    if m[UpKey(suit)].None? then [PyCard(7, suit)]
    else
      (if m[UpKey(suit)].value < 13 then [PyCard(m[UpKey(suit)].value + 1, suit)] else []) +
      (if m[DownKey(suit)].value > 1 then [PyCard(m[DownKey(suit)].value - 1, suit)] else [])
  }

  /** The additions of the first `n` suits, in the order a, b, c, d. */
  function SuitsCards(m: Markers, n: nat): seq<PyCard>
    requires Consistent(m) && n <= |Suits|
  {
    if n == 0 then []
    else SuitsCards(m, n - 1) + SuitCards(m, Suits[n - 1])
  }

  /**
   * `get_playable_cards` as a value: only the Seven of "a" in the initial state, otherwise the
   * suits' additions in the order a, b, c, d, and `None` when there are none.
   */
  function PlayableCards(m: Markers): Option<seq<PyCard>>
    requires Consistent(m)
  {
    if m == InitialMarkers() then Some([PyCard(7, "a")])
    else
      var cs := SuitsCards(m, |Suits|);
      if cs == [] then None else Some(cs)
  }

  /** Card `c` extends its suit: a Seven on an unstarted suit, or the next card either way. */
  predicate Extends(m: Markers, c: PyCard)
    requires Consistent(m)
  {
    && c.suit in Suits
    && (if m[UpKey(c.suit)].None? then c.value == 7
        else (c.value == m[UpKey(c.suit)].value + 1 && c.value <= 13) ||
             (c.value == m[DownKey(c.suit)].value - 1 && c.value >= 1))
  }

  lemma {:induction false} SuitsCardsMembers(m: Markers, n: nat, c: PyCard)
    requires Consistent(m) && n <= |Suits|
    ensures c in SuitsCards(m, n) <==> c.suit in Suits[..n] && Extends(m, c)
  {
    if n > 0 {
      SuitsCardsMembers(m, n - 1, c);
      assert Suits[..n] == Suits[..n - 1] + [Suits[n - 1]];
      assert SuitConsistent(m, Suits[n - 1]);
    }
  }

  /** Outside the initial state a card is listed exactly when it extends its suit. */
  lemma PlayableCardsMembers(m: Markers, c: PyCard)
    requires Consistent(m) && m != InitialMarkers()
    ensures PlayableCards(m).Some? && c in PlayableCards(m).value <==> Extends(m, c)
  {
    SuitsCardsMembers(m, |Suits|, c);
  }

  /** A suit that is not complete offers a card. */
  lemma OpenSuitOffers(m: Markers, s: string) returns (w: PyCard)
    requires Consistent(m) && s in Suits && !SuitComplete(m, s)
    ensures Extends(m, w) && w.suit == s
  {
    assert SuitConsistent(m, s);
    if m[UpKey(s)].None? {
      w := PyCard(7, s);
    } else if m[UpKey(s)].value < 13 {
      w := PyCard(m[UpKey(s)].value + 1, s);
    } else {
      assert m[UpKey(s)] == Some(13);
      w := PyCard(m[DownKey(s)].value - 1, s);
    }
  }

  /** Outside the initial state the list is `None` exactly when every suit is complete. */
  lemma PlayableNoneIffComplete(m: Markers)
    requires Consistent(m) && m != InitialMarkers()
    ensures PlayableCards(m).None? <==>
      SuitComplete(m, "a") && SuitComplete(m, "b") && SuitComplete(m, "c") && SuitComplete(m, "d")
  {
    var cs := SuitsCards(m, |Suits|);
    assert "a" in Suits && "b" in Suits && "c" in Suits && "d" in Suits;
    if !SuitComplete(m, "a") || !SuitComplete(m, "b") || !SuitComplete(m, "c") || !SuitComplete(m, "d") {
      var s :| s in Suits && !SuitComplete(m, s);
      var w := OpenSuitOffers(m, s);
      SuitsCardsMembers(m, |Suits|, w);
    } else if cs != [] {
      SuitsCardsMembers(m, |Suits|, cs[0]);
      SuitCases(cs[0].suit);
    }
  }

  /** Every card offered is one `Card.__init__` accepts, and a list that is offered is not empty. */
  lemma PlayableCardsAreValid(m: Markers, c: PyCard)
    requires Consistent(m) && PlayableCards(m).Some?
    ensures PlayableCards(m).value != []
    ensures c in PlayableCards(m).value ==> ValidCard(c)
  {
    if m != InitialMarkers() {
      PlayableCardsMembers(m, c);
    }
  }

  /** The dict after a successful `play` of `c`: the arithmetic on the card's own suit. */
  function AfterPlay(m: Markers, c: PyCard): Markers
    requires Consistent(m) && PlayableCards(m).Some? && c in PlayableCards(m).value
  {
    PlayableIsExtending(m, c);
    if c.value == 7 then m[UpKey(c.suit) := Some(7)][DownKey(c.suit) := Some(7)]
    else if c.value > 7 then m[UpKey(c.suit) := Some(m[UpKey(c.suit)].value + 1)]
    else m[DownKey(c.suit) := Some(m[DownKey(c.suit)].value - 1)]
  }

  /** A playable card other than a Seven only ever comes from a started suit. */
  lemma PlayableIsExtending(m: Markers, c: PyCard)
    requires Consistent(m) && PlayableCards(m).Some? && c in PlayableCards(m).value
    ensures Extends(m, c)
    ensures c.value != 7 ==> m[UpKey(c.suit)].Some?
  {
    if m != InitialMarkers() {
      PlayableCardsMembers(m, c);
    }
  }

  /**
   * A legal play keeps the dict consistent and moves the marker of the played direction onto
   * the card itself. A Seven sets both of its suit's keys; any other card sets one key, and
   * every other key, the suit's other marker included, stays as it was. The card is then no
   * longer offered.
   */
  lemma PlayKeepsConsistent(m: Markers, c: PyCard)
    requires Consistent(m) && PlayableCards(m).Some? && c in PlayableCards(m).value
    ensures Consistent(AfterPlay(m, c))
    ensures c.value >= 7 ==> AfterPlay(m, c)[UpKey(c.suit)] == Some(c.value)
    ensures c.value <= 7 ==> AfterPlay(m, c)[DownKey(c.suit)] == Some(c.value)
    ensures c.suit in Suits && UpKey(c.suit) in m && DownKey(c.suit) in m
    ensures c.value > 7 ==> AfterPlay(m, c)[DownKey(c.suit)] == m[DownKey(c.suit)]
    ensures c.value < 7 ==> AfterPlay(m, c)[UpKey(c.suit)] == m[UpKey(c.suit)]
    ensures forall k :: k in m && k != UpKey(c.suit) && k != DownKey(c.suit) ==> AfterPlay(m, c)[k] == m[k]
    ensures AfterPlay(m, c) != InitialMarkers()
    ensures PlayableCards(AfterPlay(m, c)).Some? ==> c !in PlayableCards(AfterPlay(m, c)).value
  {
    PlayableIsExtending(m, c);
    var n := AfterPlay(m, c);
    forall s | s in Suits
      ensures SuitConsistent(n, s)
    {
      KeysDistinct(s, c.suit);
    }
    SuitCases(c.suit);
    assert InitialMarkers()[UpKey(c.suit)] == None && n[UpKey(c.suit)].Some?;
    PlayableCardsMembers(n, c);
  }

  class GameStateManager {
    var gameState: Markers
    const initialGameState: Markers

    ghost predicate Valid()
      reads this
    {
      Consistent(gameState) && initialGameState == InitialMarkers()
    }

    /** `__init__`: no card played; only the Seven of "a" is playable. */
    constructor ()
      ensures Valid() && gameState == InitialMarkers()
      ensures PlayableCards(gameState) == Some([PyCard(7, "a")])
    {
      gameState := InitialMarkers();
      initialGameState := InitialMarkers();
    }

    /** `get_playable_cards`: the loop over the suits "a" to "d" building the list. */
    method GetPlayableCards() returns (r: Option<seq<PyCard>>)
      requires Valid()
      ensures r == PlayableCards(gameState)
    {
      if gameState == initialGameState {
        return Some([PyCard(7, "a")]);
      }
      var playable: seq<PyCard> := [];
      var i := 0;
      while i < |Suits|
        invariant 0 <= i <= |Suits|
        invariant playable == SuitsCards(gameState, i)
      {
        var suit := Suits[i];
        assert SuitConsistent(gameState, suit);
        ghost var before := playable;
        if gameState[UpKey(suit)].None? {
          playable := playable + [PyCard(7, suit)];
        } else {
          var up := gameState[UpKey(suit)].value;
          var down := gameState[DownKey(suit)].value;
          ghost var upCards := if up < 13 then [PyCard(up + 1, suit)] else [];
          if up < 13 {
            playable := playable + [PyCard(up + 1, suit)];
          }
          assert playable == before + upCards;
          if down > 1 {
            playable := playable + [PyCard(down - 1, suit)];
            assert playable == before + (upCards + [PyCard(down - 1, suit)]);
          }
        }
        assert playable == before + SuitCards(gameState, suit);
        i := i + 1;
      }
      if playable == [] {
        return None;
      }
      return Some(playable);
    }

    /**
     * `play`: a non-Card raises TypeError, a card not in the playable list ValueError (and a
     * complete board, where the list is `None`, TypeError); each leaves the dict untouched.
     * A playable card updates its own suit's markers.
     */
    method Play(card: PyValue) returns (r: Status<PyError>)
      requires Valid()
      modifies this
      ensures Valid()
      ensures r.Fail? ==> gameState == old(gameState)
      ensures !card.PyCardRef? ==> r == Fail(TypeError)
      ensures card.PyCardRef? && PlayableCards(old(gameState)).None? ==> r == Fail(TypeError)
      ensures card.PyCardRef? && PlayableCards(old(gameState)).Some? ==>
        && (r.Pass? <==> card.card in PlayableCards(old(gameState)).value)
        && (r.Fail? ==> r.error == ValueError)
      ensures r.Pass? ==>
        PlayableCards(old(gameState)).Some? && card.card in PlayableCards(old(gameState)).value &&
        gameState == AfterPlay(old(gameState), card.card)
    {
      if !card.PyCardRef? {
        return Fail(TypeError);
      }
      var c := card.card;
      var playable := GetPlayableCards();
      if playable.None? {
        return Fail(TypeError);
      }
      if c !in playable.value {
        return Fail(ValueError);
      }
      PlayableIsExtending(gameState, c);
      PlayKeepsConsistent(gameState, c);
      if c.value == 7 {
        gameState := gameState[UpKey(c.suit) := Some(7)];
        gameState := gameState[DownKey(c.suit) := Some(7)];
      } else if c.value > 7 {
        gameState := gameState[UpKey(c.suit) := Some(gameState[UpKey(c.suit)].value + 1)];
      } else {
        gameState := gameState[DownKey(c.suit) := Some(gameState[DownKey(c.suit)].value - 1)];
      }
      r := Pass;
    }
  }
}
