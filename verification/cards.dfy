/** Cards, suits and numbers of the Rust engine (`card_and_enums`). */
module Cards {

  datatype Suit = Spade | Club | Heart | Diamond

  datatype Number =
    | Ace | Two | Three | Four | Five | Six | Seven
    | Eight | Nine | Ten | Jack | Queen | King

  datatype Card = Card(suit: Suit, number: Number)

  /** Position of a number in the ordering Ace < Two < ... < King, from 1 to 13. */
  function Rank(n: Number): (r: int)
    ensures 1 <= r <= 13
    ensures r == 7 <==> n == Seven
    ensures r == 1 <==> n == Ace
    ensures r == 13 <==> n == King
  {
    match n
    case Ace => 1
    case Two => 2
    case Three => 3
    case Four => 4
    case Five => 5
    case Six => 6
    case Seven => 7
    case Eight => 8
    case Nine => 9
    case Ten => 10
    case Jack => 11
    case Queen => 12
    case King => 13
  }

  /** Position of a suit in the order in which the board visits its stacks. */
  function SuitIndex(s: Suit): (i: int)
    ensures 0 <= i < 4
  {
    match s
    case Spade => 0
    case Club => 1
    case Heart => 2
    case Diamond => 3
  }
}
