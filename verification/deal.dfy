/**
 * `distribute_cards` in src/main.rs: deals a given deck round-robin, driven by a
 * MultiCounter over (player index, deck index) with maxima [players, 52]. The shuffle
 * that produces the deck is not modelled; the deck is a parameter.
 */
module Dealing {
  import opened Wrappers
  import opened Cards
  import opened Counting

  datatype Player = Player(hand: seq<Card>)

  /** Counter steps the deal runs for: the larger of the player count and 52. */
  function DealSteps(numberOfPlayers: nat): nat
  {
    if numberOfPlayers >= 52 then numberOfPlayers else 52
  }

  /**
   * Reference definition of one hand: the deck positions k < `steps` whose residue modulo
   * the player count is `p`, in increasing order (position k reads deck slot k mod 52).
   */
  function DealtHand(deck: seq<Card>, numberOfPlayers: nat, steps: nat, p: nat): seq<Card>
    requires numberOfPlayers >= 1 && |deck| >= 52
  {
    if steps == 0 then []
    else
      DealtHand(deck, numberOfPlayers, steps - 1, p) +
      (if (steps - 1) % numberOfPlayers == p then [deck[(steps - 1) % 52]] else [])
  }

  /** A card is in hand `p` exactly when some dealt position with residue `p` holds it. */
  lemma {:induction false} DealtHandMembers(deck: seq<Card>, numberOfPlayers: nat, steps: nat, p: nat, c: Card)
    requires numberOfPlayers >= 1 && |deck| >= 52
    ensures c in DealtHand(deck, numberOfPlayers, steps, p) <==>
      exists k :: 0 <= k < steps && k % numberOfPlayers == p && deck[k % 52] == c
  {
    if steps > 0 {
      DealtHandMembers(deck, numberOfPlayers, steps - 1, p, c);
      if c in DealtHand(deck, numberOfPlayers, steps, p) && c !in DealtHand(deck, numberOfPlayers, steps - 1, p) {
        assert (steps - 1) % numberOfPlayers == p && deck[(steps - 1) % 52] == c;
      }
    }
  }

  /** Sum of the sizes of hands 0 .. count-1. */
  function HandSizes(deck: seq<Card>, numberOfPlayers: nat, steps: nat, count: nat): nat
    requires numberOfPlayers >= 1 && |deck| >= 52
  {
    if count == 0 then 0
    else HandSizes(deck, numberOfPlayers, steps, count - 1) + |DealtHand(deck, numberOfPlayers, steps, count - 1)|
  }

  lemma {:induction false} HandSizesStep(deck: seq<Card>, numberOfPlayers: nat, steps: nat, count: nat)
    requires numberOfPlayers >= 1 && |deck| >= 52
    ensures HandSizes(deck, numberOfPlayers, steps + 1, count) ==
      HandSizes(deck, numberOfPlayers, steps, count) + (if steps % numberOfPlayers < count then 1 else 0)
  {
    if count > 0 {
      HandSizesStep(deck, numberOfPlayers, steps, count - 1);
    }
  }

  lemma {:induction false} NothingDealtYet(deck: seq<Card>, numberOfPlayers: nat, count: nat)
    requires numberOfPlayers >= 1 && |deck| >= 52
    ensures HandSizes(deck, numberOfPlayers, 0, count) == 0
  {
    if count > 0 {
      NothingDealtYet(deck, numberOfPlayers, count - 1);
    }
  }

  /** Every dealt position lands in exactly one hand: the hands hold `steps` cards in all. */
  lemma {:induction false} DealConservesCards(deck: seq<Card>, numberOfPlayers: nat, steps: nat)
    requires numberOfPlayers >= 1 && |deck| >= 52
    ensures HandSizes(deck, numberOfPlayers, steps, numberOfPlayers) == steps
  {
    if steps > 0 {
      DealConservesCards(deck, numberOfPlayers, steps - 1);
      HandSizesStep(deck, numberOfPlayers, steps - 1, numberOfPlayers);
    } else {
      NothingDealtYet(deck, numberOfPlayers, numberOfPlayers);
    }
  }

  /**
   * `distribute_cards`: one empty hand per player, then for each vector [p, k] the counter
   * yields, deck card k goes to the end of player p's hand.
   */
  method DistributeCards(numberOfPlayers: nat, deck: seq<Card>) returns (players: seq<Player>)
    requires numberOfPlayers >= 1 && |deck| >= 52
    ensures |players| == numberOfPlayers
    ensures forall p :: 0 <= p < numberOfPlayers ==>
      players[p].hand == DealtHand(deck, numberOfPlayers, DealSteps(numberOfPlayers), p)
  {
    players := [];
    for i := 0 to numberOfPlayers
      invariant |players| == i && forall p :: 0 <= p < i ==> players[p].hand == []
    {
      players := players + [Player([])];
    }
    var counter := new MultiCounter([numberOfPlayers, 52], false);
    while true
      invariant counter.Valid() && counter.counterMaxes == [numberOfPlayers, 52]
      invariant !counter.requireSimultaneousCompletion
      invariant counter.steps <= DealSteps(numberOfPlayers)
      invariant |players| == numberOfPlayers
      invariant forall p :: 0 <= p < numberOfPlayers ==>
        players[p].hand == DealtHand(deck, numberOfPlayers, counter.steps, p)
      decreases DealSteps(numberOfPlayers) - counter.steps
    {
      ghost var k := counter.steps;
      var v := counter.Next();
      if v.None? {
        assert CompleteAfter([numberOfPlayers, 52], false, k);
        assert [numberOfPlayers, 52][0] <= k && [numberOfPlayers, 52][1] <= k;
        break;
      }
      assert !CompleteAfter([numberOfPlayers, 52], false, k);
      assert k < DealSteps(numberOfPlayers);
      var p, d := v.value[0], v.value[1];
      assert p == k % numberOfPlayers && d == k % 52;
      players := players[p := Player(players[p].hand + [deck[d]])];
    }
  }
}
