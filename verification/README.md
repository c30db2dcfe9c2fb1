# Sevens: a verified model of the card-layout engine

"Sevens" is a layout game. Each suit is built outwards from its Seven: upwards through
Eight to King and downwards through Six to Ace. Players take turns and must play a card
when one is playable. The repository holds two implementations of the rules, and both are
modelled here.

1. **The Rust engine, `src/main.rs`.** The model follows its structure:
   - **`Cards`**: the suit and number enums, with the rank order.
   - **`Stacks`**: one suit's pile, with two optional markers.
     - `StackState`, `Playable` and `Play` form the value-level specification of
       `Stack::get_playable_cards` and `Stack::play_card`.
     - `class Stack` is the mutable struct, and its `PlayCard` is proved against `Play`.
   - **`Boards`**: four stacks.
     - `BoardPlayable` concatenates the stacks' answers in the order spade, club, heart,
       diamond, and tags an error with the suit of the stack that raised it.
     - `BoardPlay` routes a card to the stack of its suit.
     - `class GameBoard` holds four `Stack` objects and changes only the one addressed.
   - **`Counting`**: `MultiCounter`, the odometer-style iterator.
     - A ghost step count `k` ties each counter to `k mod max` and each flag to `k >= max`.
     - `Next` is proved to yield the vector of residues of its call number.
   - **`Dealing`**: `distribute_cards` over a given deck.
     - Hand `p` is proved equal to a reference definition: the deck positions whose index
       is `p` modulo the player count, in order.
     - Together the hands hold exactly as many cards as the counter yields.
   - **`Game`**: `GameState`, which holds the board, the hands and the `u8` turn pointer.
     - `PassTurn` and `PlayOnlyPlayableCard` update the state in place.
     - `PlayCardAndReturnNew` clones the state (a fresh board and fresh stacks), plays on
       the clone and leaves `self` untouched; it has no `modifies` clause.
     - The value layer is `GameView`, `NextTurn`, `PlayAndPass` and `Fork`.
   - **`Search`**: `assess_decision` and `process_branches`.
     - `Assess` classifies a position as won, passed, forced or branched.
     - `AssessDecision` is proved against `Assess`. In the branching case it builds one
       new state per playable card, in card order, and stops at the first failure, as
       Rust's `collect` into a `Result` does.
     - `ProcessBranches` pushes all new states and pops the last one.
   - **`Wrappers`**: `Option`, `Result`, a `Status` for `Result<(), E>`, and a generic
     first-failure `CollectAll`.

2. **The Python prototype, `investigating_sevens.py`** (module `Prototype`).
   - `Card(value, suit)` is modelled over a small datatype of Python values, so that
     wrong types raise `TypeError` and out-of-range values raise `ValueError`.
     - A `bool` is accepted as an `int`, as `isinstance` accepts it. `True` passes the
       range check as 1 and compares equal to 1, but Python stores the bool itself, so its
       `__str__` and `__hash__` differ from those of the card with value 1; neither is modelled.
   - `Game_State_Manager` keeps its dict of `"a_up"` … `"d_down"` markers as a
     `map<string, Option<int>>` field.
     - `GetPlayableCards` is the loop over the suits, proved equal to `PlayableCards`.
     - `Play` updates the dict in place.
   - On a complete board, `get_playable_cards` returns `None` and `play` then evaluates
     `card in None`, which raises `TypeError`. The model returns that `TypeError`; it
     does not require a non-complete board.

### Facts the model keeps from the code

- No play removes a card from any player's hand in the Rust engine.
  - `PlayOnlyPlayableCard` and the branching move keep `players` unchanged.
  - `AssessMakesProgress` shows that every non-pass step places one more card on the
    same hands.
- The Rust playable set is board-wide. It is not filtered by the hand of the player to
  move.
- Invalid stack states are unreachable.
  - Starting from `Stack::new`, every series of plays keeps each stack well formed
    (`ReplayFromNewIsWellFormed`).
  - So `get_playable_cards` never returns a structural error on a reachable board.

## Model

| member | source | states |
|---|---|---|
| Wrappers.CollectAll | src/main.rs:1494-1497 | Collecting a map into a `Result`: on success, one value per input. |
| Wrappers.CollectAllIsPerElement | src/main.rs:1494-1497 | The collection succeeds iff every element succeeds, and lists each element's value at its index. Otherwise it returns the error of the first failing element, and every element before that one succeeded. |
| Cards.Rank | src/main.rs:96-110 | The numbers run Ace..King as ranks 1..13: Seven is 7, Ace is 1, King is 13. |
| Stacks.UpSuccessor | src/main.rs:220-247 | The up marker accepts the next higher number. King has none. A marker below Seven is `InvalidUpStack`. |
| Stacks.DownSuccessor | src/main.rs:248-275 | The down marker accepts the next lower number. Ace has none. A marker above Seven is `InvalidDownStack`. |
| Stacks.Playable | src/main.rs:208-287 | An untouched stack offers exactly its Seven. One marker set is `InvalidStackState`. A bad up marker is `InvalidUpStack`, checked before the down marker, which gives `InvalidDownStack`. Success happens iff the stack is well formed, and the answer is `None` iff the stack is complete. Otherwise it lists 1 or 2 cards of the suit, up+1 before down-1. |
| Stacks.PlayableIsExtends | src/main.rs:208-287 | The listed cards are exactly the numbers one step beyond a marker, or the Seven on an untouched stack. |
| Stacks.Play | src/main.rs:289-343 | A structural error is passed on, a complete stack gives `CompletedStackPlayedOn`, and an unlisted number gives `UnplayableCardNumber`. A Seven sets both markers, Ace..Six only the down marker, and Eight..King only the up marker. A success keeps the stack well formed, places one more card and stops offering the card just played. |
| Stacks.ReplayFromNewIsWellFormed | src/main.rs:200-343 | From `Stack::new`, every series of plays leaves the stack well formed with no `get_playable_cards` error, and places at most one card per play. |
| Stacks.ReplayKeepsWellFormed | src/main.rs:289-343 | From any well-formed stack, a series of plays stays well formed, keeps the suit and never removes a card. |
| Stacks.CompleteIffAllPlaced | src/main.rs:276-282 | A stack is complete (no playable card) iff all 13 of its cards are placed. |
| Stacks.PlayIsMonotone | src/main.rs:299-337 | On a started stack, the up marker never goes down and the down marker never goes up. |
| Stacks.Stack.constructor | src/main.rs:200-206 | `Stack::new` gives both markers unset on the given suit. |
| Stacks.Stack.GetPlayableCards | src/main.rs:208-287 | On the object's markers, the answer is exactly `Playable`'s, including which structural error comes back and the up-before-down check order. It succeeds iff the stack is well formed, returns `None` iff it is complete, and otherwise lists exactly the numbers that extend it. |
| Stacks.Stack.PlayCard | src/main.rs:289-343 | The in-place play yields exactly the state `Play` gives. A failure reports `Play`'s error and leaves both markers unchanged. |
| Boards.BoardPlayable | src/main.rs:724-762 | Succeeds iff all four stacks succeed. Otherwise it gives the first failing stack's error in the order spade, club, heart, diamond, tagged with that suit. The list is spade ++ club ++ heart ++ diamond, and it is `None` iff all four stacks return `None`. It never fails on a well-formed board. |
| Boards.BoardPlayableIsPerSuit | src/main.rs:724-762 | A card is on the board's list iff the stack of its own suit offers it. |
| Boards.BoardPlay | src/main.rs:764-783 | Only the stack of the card's suit changes, as `Play` says. A stack error comes back tagged with that suit. |
| Boards.BoardPlaySucceedsIffPlayable | src/main.rs:724-783 | A board play succeeds iff the card is among the board's playable cards. |
| Boards.BoardPlayKeepsWellFormed | src/main.rs:764-783 | A successful play keeps the board well formed and places exactly one more card. |
| Boards.NewBoardOffersSevens | src/main.rs:802-830 | A fresh board is well formed with nothing placed, and offers exactly the four Sevens, spade first. |
| Boards.NothingPlayableIffAllComplete | src/main.rs:757-761 | On a well-formed board, `None` comes back iff all four suits are complete, which is iff all 52 cards are placed. |
| Boards.GameBoard.constructor | src/main.rs:698-705 | `GameBoard::new` gives four fresh, untouched stacks, one per suit. |
| Boards.GameBoard.Copy | src/main.rs:683-689 | The derived clone gives fresh stacks holding the same board. |
| Boards.GameBoard.GetPlayableCards | src/main.rs:724-762 | On the four stack objects, the answer is exactly `BoardPlayable`'s: the first failing stack in suit order, tagged with its suit. It succeeds iff all four succeed, the list is the stacks' lists concatenated in suit order, and it is `None` iff every stack answers `None`. |
| Boards.GameBoard.PlayCard | src/main.rs:764-783 | Only the stack of the card's suit may be modified. The new board is `BoardPlay`'s result, and a failure leaves the board as it was. |
| Counting.ModStep | src/main.rs:1274-1289 | One increment maps `k mod m` to `(k+1) mod m`, and a counter wraps for the first time exactly at step `m`. |
| Counting.NonSimultaneousYieldsLargestMax | src/main.rs:1295-1304 | Without simultaneous completion, the iterator yields exactly as many vectors as the largest maximum. |
| Counting.ThreeFiveExample | src/main.rs:1429-1462 | With maxima [3, 5]: 5 vectors in plain mode and 15 in simultaneous mode. |
| Counting.MultiCounter.constructor | src/main.rs:1245-1255 | All values are 0 and all flags false, with the maxima and the mode as given. |
| Counting.MultiCounter.CheckComplete | src/main.rs:1263-1271 | After `k` increments: complete iff every counter has wrapped, and, in simultaneous mode, every value is also back at 0. |
| Counting.MultiCounter.Increment | src/main.rs:1274-1289 | Each value goes to (v+1) mod max. A flag is set when its counter wraps and is never cleared. The validity invariant is kept. |
| Counting.MultiCounter.Next | src/main.rs:1295-1304 | Returns `None` iff the counter is complete, and then the state is unchanged. Otherwise the k-th call yields entry i = k mod max_i and steps the counter once. |
| Dealing.DealtHandMembers | src/main.rs:1224-1234 | A card is in hand `p` iff some dealt position k ≡ p (mod players) holds it in deck slot k mod 52. |
| Dealing.DealConservesCards | src/main.rs:1224-1234 | Each dealt position lands in exactly one hand, so the hand sizes sum to the number of positions dealt. |
| Dealing.DistributeCards | src/main.rs:1224-1234 | One hand per player. Hand `p` is the reference deal over max(players, 52) counter steps. |
| Game.NextTurn | src/main.rs:970-981 | Fails with `OverflowError` iff the pointer is 255. Otherwise it gives turn+1 while turn+1 < P, else 0, and the result is a real seat for P ≤ 255. |
| Game.PassTimesWithinRound | src/main.rs:970-981 | Within one round, k passes from seat t give t+k, or 0 when t+k reaches P. |
| Game.PassTurnFullCycle | src/main.rs:1115-1124 | With 1 ≤ P ≤ 255, passing from seat 0 visits seats 0..P-1 in order and is back at 0 after P passes. |
| Game.ViewPlayable | src/main.rs:1045-1050 | The board's answer: succeeds iff the board succeeds, with the same list, and a board error wrapped as `BoardFailure`. |
| Game.PlayAndPass | src/main.rs:1035-1041 | A play followed by a pass succeeds iff the board play succeeds and the pointer is not 255. The hands are unchanged and the board is `BoardPlay`'s result. |
| Game.Fork | src/main.rs:1011-1043 | A board error is passed on. `None` or an empty list gives `NoPlayableCard`, exactly one card gives `OnlyOnePlayableCard`, and an unlisted card among two or more gives `UnplayableCard`. A listed card among two or more gives the play followed by a pass, with the hands unchanged. |
| Game.ForkPlacesOneCard | src/main.rs:1011-1043 | On a well-formed board with a pointer below 255, every listed card forks. The fork keeps the board well formed and places exactly one card. |
| Game.GameState.constructor | src/main.rs:962-967 | A fresh board, the given hands, and seat 0 to move. |
| Game.GameState.Clone | src/main.rs:925-930 | The derived clone is a fresh object graph with the same position. |
| Game.GameState.New | src/main.rs:957-968 | More than 26 players gives `TooManyPlayers`. Otherwise the result is a fresh board with seat 0 to move and the deck dealt round-robin. |
| Game.GameState.GetPlayableCards | src/main.rs:1045-1050 | On the game board object: succeeds iff the board does, with the same list, and a board error wrapped as `BoardFailure`. |
| Game.GameState.PassTurn | src/main.rs:970-981 | Only the pointer changes. At 255 the call fails with `OverflowError` and nothing changes. Otherwise the pointer moves as `NextTurn` says. |
| Game.GameState.PlayOnlyPlayableCard | src/main.rs:983-1009 | A board error, `NoPlayableCard` or `MoreThanOnePlayableCard` leaves the state unchanged. One card means it is played and the turn passes. If the pass overflows, the card stays played. The hands never change. |
| Game.GameState.PlayCardAndReturnNew | src/main.rs:1011-1043 | Returns `Fork`'s error, or a fresh, valid state holding `Fork`'s position. `self` cannot change, because the method modifies nothing. |
| Search.Forks | src/main.rs:1494-1497 | One successor per playable card, each with the same hands. |
| Search.ForksIsPerCard | src/main.rs:1494-1497 | Succeeds iff every card forks. The i-th successor is the i-th card's fork. A failure is the first failing card's error. |
| Search.Assess | src/main.rs:1473-1503 | `Victory(turn)` iff the current hand is empty. A pass happens only on `None`, keeps the board and moves the pointer as `NextTurn` says. A forced move means exactly one card, played and passed. A branch means N ≥ 2 cards and N successors. The hands never change. On a non-empty hand, each failure is stated. A board error is passed on. With nothing playable, the call fails iff the pointer is 255, and then with `OverflowError`. With one card, it fails iff the play-and-pass fails, with that error. With two or more cards, it fails iff some fork fails, with the first fork error. |
| Search.BranchesFollowPlayableCards | src/main.rs:1493-1497 | The i-th branch is the position after the i-th playable card and a pass. |
| Search.PlayableCardAdvances | src/main.rs:1035-1041 | From a reachable position, every listed card can be played and passed, giving a reachable position one card further on with the same hands. |
| Search.AssessMakesProgress | src/main.rs:1473-1503 | From a reachable position with cards in hand, assessing never errors. A pass happens only when all 52 cards are placed. Every other successor is reachable, keeps the hands and places exactly one more card. |
| Search.ForksAdvance | src/main.rs:1493-1497 | With two or more playable cards, every card forks into a position one card further on. |
| Search.OpeningBranchesFourWays | src/main.rs:1473-1503 | On the opening board, the player to move branches four ways. |
| Search.LastSevenIsForced | src/main.rs:1490-1492 | With three complete suits and untouched diamonds, only the Seven of diamonds is playable, and the move is forced. |
| Search.BranchAll | src/main.rs:1493-1497 | Succeeds iff every playable card forks, with the first failure otherwise. Each returned state is valid and holds the fork of its card, in order. |
| Search.AssessDecision | src/main.rs:1473-1503 | Agrees with `Assess`. A pass or a forced move updates the given state and returns it. A branch returns one valid state per successor, in order. Errors are the same as `Assess`'s. |
| Search.ProcessBranches | src/main.rs:48-66 | `Victory` gives the leak error. A pass or a forced move gives its state with the stack unchanged. A branch pushes all N states and pops the last, so the stack grows by N-1 and nothing is lost. An empty stack gives `NoStatesInBranches`. |
| Prototype.NewCard | investigating_sevens.py:4-18 | Construction succeeds iff the value is an int (or a bool) in 1..13 and the suit is one of "a".."d". |
| Prototype.NewCardErrors | investigating_sevens.py:4-18 | A non-int value raises `TypeError` and an out-of-range value `ValueError`. These are checked before a non-str suit (`TypeError`) and an unknown suit (`ValueError`). |
| Prototype.NewCardRoundTrip | investigating_sevens.py:4-18 | Rebuilding a valid card from its own value and suit gives the same card. |
| Prototype.NewCardTakesBools | investigating_sevens.py:5-6 | `True` passes as the value 1, and `False` is out of range. |
| Prototype.CardEq | investigating_sevens.py:23-28 | Equality is defined iff the other operand is a Card, and otherwise raises `TypeError`. It is true iff value and suit match. |
| Prototype.CardEqIsEquivalence | investigating_sevens.py:23-28 | Card equality is reflexive, symmetric and transitive, and coincides with structural equality. |
| Prototype.SuitsCardsMembers | investigating_sevens.py:53-62 | After the first n suits of the loop, a card is listed iff its suit is among them and it extends that suit (7 if unset, otherwise up+1 up to 13 or down-1 down to 1). |
| Prototype.PlayableCardsMembers | investigating_sevens.py:52-65 | Outside the initial state, a card is listed iff it extends its suit. |
| Prototype.OpenSuitOffers | investigating_sevens.py:53-62 | A suit that is not complete always offers a card of that same suit. |
| Prototype.PlayableNoneIffComplete | investigating_sevens.py:63-64 | Outside the initial state, `None` comes back iff every suit has up 13 and down 1. |
| Prototype.PlayableCardsAreValid | investigating_sevens.py:52-65 | A returned list is non-empty, and every card on it is one `Card.__init__` accepts, so building the list never raises. |
| Prototype.PlayableIsExtending | investigating_sevens.py:70-78 | A playable card extends its suit, and a non-Seven has an up marker to update. |
| Prototype.PlayKeepsConsistent | investigating_sevens.py:71-78 | A play keeps every suit unset, or up in 7..13 and down in 1..7. A Seven sets both markers to 7, a card above 7 becomes the new up and leaves the down marker, and a card below 7 becomes the new down and leaves the up marker. Every key of the other suits is unchanged. The dict leaves its initial value, and the card played is no longer offered. |
| Prototype.GameStateManager.constructor | investigating_sevens.py:43-46 | Every marker is `None`, and only the Seven of "a" is playable. |
| Prototype.GameStateManager.GetPlayableCards | investigating_sevens.py:48-65 | The loop returns exactly `PlayableCards` of the dict: `[7a]` in the initial state, and otherwise the per-suit cards for a..d, or `None` if the list is empty. |
| Prototype.GameStateManager.Play | investigating_sevens.py:67-82 | A non-Card raises `TypeError`, as does a complete board (`card in None`). An unlisted card raises `ValueError`. Every failure leaves the dict unchanged. A listed card updates the dict as `AfterPlay` says, and the dict stays consistent. |

## Left out

- Shuffling (`generate_new_shuffle`, `new_shuffle`) uses a random number generator. The deck is a parameter of `DistributeCards` and `GameState.New`.
- The Python script body (investigating_sevens.py:88-138) deals, plays with `random.choice` and prints, which is I/O and randomness.
- The search loop in `main` (src/main.rs:15-34) and its victory tally (src/main.rs:36-45) are not modelled. Hands never shrink, so once the board is complete a position passes forever, and the loop's termination cannot be stated. Only its single steps, `AssessDecision` and `ProcessBranches`, are modelled.
- Error message texts (the `thiserror` strings, the caller-name strings in `NoPlayableCard` and `MoreThanOnePlayableCard`, and Python's exception messages) are not behaviour. The suit tag of a board error is kept as a `Suit`.
- `GameBoard::from` and `MultiCounter::get_values` are test-only or trivial accessors. `Card.__str__` and `Card.__hash__` only serve printing and hashing; a card built from `True` prints and hashes differently from the card built from 1, which the model does not capture.
- Game.GameState.PassTurn: requires `players.len() as u8` to be non-zero. With 0 (or a multiple of 256) players, the Rust `u8` subtraction underflows and panics.
- Game.GameState.New: requires at least one player and a 52-card deck when at most 26 players are asked for. With 0 players the counter's `0 - 1` underflows, and the shuffled deck always has 52 cards.
- Dealing.DistributeCards: requires at least one player and a deck of at least 52 cards, for the same reasons.
- Counting.MultiCounter.constructor: requires every maximum to be at least 1. A zero maximum makes `increment` underflow.
- Search.BranchAll: does not state that the returned states are pairwise distinct objects. Each is fresh when `play_card_and_return_new` creates it, but freshness is not carried through the recursion.
- Search.AssessDecision: `assess_decision` takes its state by value, so the caller's copy is never touched. The model mutates the state it is given, which stands for the clone the search passes in.
