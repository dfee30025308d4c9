# wippen_rs in Dafny

A model of the card-game engine in `src/lib.rs` and the seeded shuffle in
`src/shuffle.rs`. The game is a two-player capture game in the
Scopa/Cassino family, played with a standard 52-card deck.

- `cards.dfy` (module `Cards`): cards and suits; the standard deck `Deck::new` builds; the `position` / `swap_remove` searches of the deck; the scoring rule `count_score`.
- `shuffle.dfy` (module `Shuffle`): the shuffle. The vector is cut into `len / 5`-sized chunks. Each chunk is swapped with a partner picked by a 32-bit linear congruential generator. The chunks are reassembled, the vector is rotated left by one, and all of this repeats. There is a pure specification (`Shuffled`) and an in-place method on an array (`ShuffleInPlace`) proved equal to it. The result is proved to be a permutation of the input.
- `deck.dfy` (module `Decks`): `struct Deck` as a class whose card sequence is changed in place by `pop`, `swap_remove` and `push`.
- `rules.dfy` (module `Rules`): the game as values.
  - Functions for `start`, `deal`, `play_and_score` and `play_card`.
  - The game invariant: all 52 cards are on the table, the hands have equal size, the deck is dealt eight cards at a time, and the end-of-game state is consistent.
  - Proof that every `expect` and `panic!` of the source is unreachable.
  - Conservation, event-log shape and monotone scores.
- `engine.dfy` (module `Engine`): the classes `Player`, `GameState`, `InProgressGame` and `FreshGame`. Their methods change decks, wip counters and the event log in place, and each is proved to follow the matching `Rules` function.

Notes on the code:
- **LCG steps.** The generator advances once per chunk index (src/shuffle.rs:17-19).
- **Chunking.** `chunks_mut(len / 5)` cuts full chunks of `len / 5` elements; the remainder, if any, becomes a separate shorter chunk. There are `ceil(len / (len / 5))` chunks: 6 for a vector of 52 (five of 10 and one of 2), 9 for a vector of 9.
- **Short vectors.** Shuffling fewer than five elements panics in the source. The model only allows it with zero iterations.
- **`can_deal`.** It tests for at least 4 cards while `deal` takes 8. The invariant keeps the deck a multiple of 8, so the two never disagree (`Rules.DealtInEights`).

## Model

| member | source | states |
|---|---|---|
| `Cards.StandardDeck` | src/lib.rs:304-326 | the new deck holds 52 cards |
| `Cards.StandardDeckIsComplete` | src/lib.rs:304-326 | the new deck holds every card of rank 1 to 13 in each suit, nothing else, and no card twice |
| `Cards.Position` | src/lib.rs:342 | `position` returns None iff no card matches; otherwise the index of a matching card with no match before it |
| `Cards.SwapRemove` | src/lib.rs:343 | `swap_remove` shortens the sequence by one, moves the last element into the vacated index, leaves the other indices alone and loses exactly the removed element |
| `Cards.TakeFirst` | src/lib.rs:341-351 | searching and removing returns None and leaves the cards alone iff no card matches; otherwise it returns a matching card and the rest is the input less one copy of it |
| `Cards.TakeSameCardFinds` | src/lib.rs:341-344 | `take_same_card` finds a card iff the deck holds it; then it returns that card and removes exactly one copy |
| `Cards.Count` | src/lib.rs:363 | a filtered count never exceeds the number of cards |
| `Cards.CountAppend` | src/lib.rs:363-382 | the count over two concatenated piles is the sum of their counts |
| `Cards.CountPermutation` | src/lib.rs:363-382 | a filtered count depends only on the multiset of cards, not their order |
| `Cards.Score` | src/lib.rs:360-387 | an empty pile scores 0, and a pile scores at least one point per ace |
| `Cards.ScoreIgnoresOrder` | src/lib.rs:360-387 | two piles with the same cards in any order score the same |
| `Cards.ScoreGrows` | src/lib.rs:360-387 | adding cards to a pile never lowers its score |
| `Cards.Reversed` | src/lib.rs:117-119 | popping every card off one deck onto another transfers the same cards, last one first |
| `Cards.ReversedAt` | src/lib.rs:117-119 | the `k`-th card transferred by the pop/push loop is the `k`-th card from the top of the old deck |
| `Decks.Deck.Empty` | src/lib.rs:328-331 | an empty deck holds no cards |
| `Decks.Deck.New` | src/lib.rs:304-326 | the new deck is the rank-major standard deck of 52 cards, exactly the standard cards |
| `Decks.Deck.Shuffle` | src/lib.rs:333-335 | the deck becomes the 9128-iteration shuffle of itself with the seed, so it keeps the same cards |
| `Decks.Deck.TakeTopCard` | src/lib.rs:337-339 | `pop` returns None exactly on an empty deck, and otherwise removes and returns the last card |
| `Decks.Deck.TakeSameCard` | src/lib.rs:341-344 | returns None and leaves the deck unchanged iff the card is absent; otherwise returns an equal card and removes one copy by `swap_remove` |
| `Decks.Deck.TakeSameNumber` | src/lib.rs:345-351 | returns None and leaves the deck unchanged iff no card has the rank; otherwise returns the first card of that rank, held before, and the deck shrinks by exactly that card |
| `Decks.Deck.PushCard` | src/lib.rs:353-355 | the card becomes the new last card |
| `Decks.Deck.IsEmpty` | src/lib.rs:357-359 | true iff the deck holds no cards |
| `Shuffle.WrappingCollapses` | src/shuffle.rs:19 | u64 wrapping multiply-add followed by `% 2^32` equals the step computed modulo 2^32 |
| `Shuffle.NextState` | src/shuffle.rs:19 | the generator step is `(state * 134775813 + 1) mod 2^32` and stays below 2^32 |
| `Shuffle.ChunkSize` | src/shuffle.rs:11-12 | the chunk length is the vector length divided by five, rounded down; at least 1 once the vector has five elements |
| `Shuffle.Chunks` | src/shuffle.rs:16 | a non-empty vector has at least one chunk |
| `Shuffle.ChunksTile` | src/shuffle.rs:16 | the chunks, concatenated in order, are exactly the vector |
| `Shuffle.ChunkSizes` | src/shuffle.rs:12-16 | every chunk but the last has `chunk_size` elements; the last has between 1 and `chunk_size` |
| `Shuffle.SwapPass` | src/shuffle.rs:17-22 | the swap loop keeps the number of groups |
| `Shuffle.SwapKeepsElements` | src/shuffle.rs:21 | swapping two groups keeps the same groups |
| `Shuffle.SwapPassPermutes` | src/shuffle.rs:17-22 | the swap loop only reorders the groups |
| `Shuffle.PermutedChunks` | src/shuffle.rs:24-29 | reassembling any reordering of the chunks gives a vector of the same length with the same elements |
| `Shuffle.RotateLeft` | src/shuffle.rs:33-34 | the rotation keeps the length and the elements |
| `Shuffle.RotateLeftAt` | src/shuffle.rs:34 | element `t` of the rotation is element `t + mid` of the input, wrapping around the end |
| `Shuffle.Round` | src/shuffle.rs:16-34 | one iteration keeps the length |
| `Shuffle.RoundPermutes` | src/shuffle.rs:16-34 | one iteration only reorders the vector |
| `Shuffle.Shuffled` | src/shuffle.rs:9-36 | the shuffle keeps the length; it needs at least five elements unless it runs zero iterations |
| `Shuffle.ShuffledPermutes` | src/shuffle.rs:9-36 | any number of iterations only reorders the vector |
| `Shuffle.CopyGroup` | src/shuffle.rs:27 | the buffer slice at `index` receives the group and the buffer before and after that slice is untouched |
| `Shuffle.Reassemble` | src/shuffle.rs:24-29 | after the loop the buffer holds the groups one after the other |
| `Shuffle.SwapContents` | src/shuffle.rs:30 | the vector and the buffer exchange their contents |
| `Shuffle.RotateLeftInPlace` | src/shuffle.rs:34 | the array becomes its left rotation by `mid` |
| `Shuffle.CloneArray` | src/shuffle.rs:13 | the buffer is a fresh copy of the vector |
| `Shuffle.PermuteGroups` | src/shuffle.rs:17-22 | the in-place swap loop produces the group order and generator state of the specification |
| `Shuffle.ShuffleRound` | src/shuffle.rs:16-34 | one in-place iteration produces the vector and generator state of one specified round |
| `Shuffle.ShuffleStep` | src/shuffle.rs:15-35 | one in-place iteration leaves the same final result with one iteration fewer to go |
| `Shuffle.ShuffleInPlace` | src/shuffle.rs:9-36 | the array ends as the deterministic shuffle of its input, seed and iteration count, and so a permutation of the input |
| `Rules.DrainConserves` | src/lib.rs:130-133 | the capture loop only moves cards from the middle to the pile |
| `Rules.DrainLeaves` | src/lib.rs:130-133 | after the capture loop the middle holds no card of the played rank and every other card as before |
| `Rules.DrainCollects` | src/lib.rs:130-133 | the capture loop adds to the pile exactly the middle's cards of the played rank |
| `Rules.DrainExtends` | src/lib.rs:130-133 | the capture loop only appends to the pile |
| `Rules.DrainRuns` | src/lib.rs:130-133 | the loop body runs iff the middle holds a card of the rank; if not, nothing moves |
| `Rules.DrainStaysScored` | src/lib.rs:131 | once set, the scored flag stays set |
| `Rules.Drain` | src/lib.rs:130-133 | the capture loop keeps the total number of middle and pile cards; the flag stays set once set, and when it ends unset nothing moved |
| `Rules.PlayAndScore` | src/lib.rs:128-140 | moves every middle card of the played rank onto the pile; the card then goes onto the pile if anything was taken, otherwise onto the middle; it reports a capture iff the middle held a card of that rank, and the two decks gain exactly one card between them |
| `Rules.PlayAndScoreScores` | src/lib.rs:128-140 | returns true iff the middle held a card of the played rank; otherwise the card is appended to the middle and the pile is unchanged |
| `Rules.PlayAndScoreClears` | src/lib.rs:128-140 | after a capture the middle holds no card of the played rank and every other card as before |
| `Rules.PlayAndScoreCaptures` | src/lib.rs:128-140 | after a capture the pile gained exactly the middle's cards of that rank plus the played card |
| `Rules.PlayAndScoreStacks` | src/lib.rs:134-135 | after a capture the old pile is a prefix of the new one and the played card lies on top |
| `Rules.PlayAndScoreConserves` | src/lib.rs:128-140 | middle plus pile plus the played card is conserved as a multiset |
| `Rules.MoveEvents` | src/lib.rs:65-72 | one move logs one to three events ending in that player's Played; the capture event is there iff the move scored, the wip event iff it wipped |
| `Rules.Move` | src/lib.rs:60-94 | one player's half of a play: `play_and_score` against that player's pile, one more wip when the middle ends empty, and the move's events; the deck and both hands are left alone |
| `Rules.MoveShape` | src/lib.rs:60-72 | a move changes only the middle, the mover's pile, the mover's wips and the log; it wips iff the middle ends empty, which implies a capture, adding exactly one wip |
| `Rules.MoveConserves` | src/lib.rs:60-94 | a move adds the played card to the cards in play and leaves the held cards alone |
| `Rules.PopSecond` | src/lib.rs:75-81 | player 2's card is popped off the end of the hand; the log, the middle and player 1 are left alone |
| `Rules.BothMove` | src/lib.rs:60-94 | player 1's move, player 2's pop and player 2's move: the deck and player 1's hand are left alone and player 2's hand loses one card |
| `Rules.DealPass` | src/lib.rs:157-177 | one pass of the deal loop takes four cards off the deck, two into each hand, and leaves the middle alone |
| `Rules.DealPasses` | src/lib.rs:157-178 | each pass of the deal loop takes four cards off the deck |
| `Rules.CanDeal` | src/lib.rs:153-155 | with the deck a multiple of 8, dealing is possible iff the deck is not empty |
| `Rules.Deal` | src/lib.rs:156-179 | the deal takes eight cards off the deck, four into each hand, and leaves the middle alone |
| `Rules.DealtInEights` | src/lib.rs:153-155 | with the deck a multiple of 8, `can_deal` holds iff the deck is non-empty, and then the deck has the 8 cards `deal` needs |
| `Rules.DealConserves` | src/lib.rs:156-179 | dealing moves cards only between the deck and the hands |
| `Rules.DealMoves` | src/lib.rs:156-179 | dealing removes the top 8 cards, gives each hand 4 and touches nothing else |
| `Rules.StartPass` | src/lib.rs:234-271 | one pass of the start loop takes six cards off the deck, two each into player 1's hand, the middle and player 2's hand |
| `Rules.StartPasses` | src/lib.rs:234-271 | each pass of the start loop takes six cards off the deck |
| `Rules.Table` | src/lib.rs:224-232 | the table before dealing: the shuffled deck holds the 52 standard cards, the middle is empty and both players are new |
| `Rules.Start` | src/lib.rs:223-273 | a started game has 40 cards in the deck, 4 in the middle and 4 in each hand, and the log Started, Shuffled, Dealt |
| `Rules.StartPassMoves` | src/lib.rs:234-271 | a pass of the start loop loses and creates no card |
| `Rules.StartPassesConserve` | src/lib.rs:234-271 | dealing the opening table from a deck keeps exactly that deck's cards |
| `Rules.StartPassesKeepBottom` | src/lib.rs:234-271 | the opening deal leaves the deck minus its top 12 cards |
| `Rules.StartPassesShape` | src/lib.rs:234-271 | after the opening deal each hand and the middle hold 4 cards and the piles and wips are empty |
| `Rules.StartDeals` | src/lib.rs:223-273 | after `start` all 52 cards are on the table; each hand and the middle hold 4 and the deck holds the bottom 40 of the shuffled deck; the piles are empty and the log is Started, Shuffled, Dealt |
| `Rules.LastScored` | src/lib.rs:104-111 | returns None iff the log has no capture event; otherwise the last capture event of the log |
| `Rules.RemainderPileAsWritten` | src/lib.rs:112-116 | as written, the leftover middle goes to player 1 whoever captured last |
| `Rules.RemainderPileIgnoresLastScorer` | src/lib.rs:112-116 | as written, player 2's last capture still sends the leftover middle to player 1 |
| `Rules.PileOwner` | src/lib.rs:112-116 | the corrected rule: the leftover middle goes to the player whose capture event is the last one |
| `Rules.SweepOwners` | src/lib.rs:112-119 | sweeping to the corrected owner puts the middle on the last capturer's pile, and differs from the sweep as written exactly when player 2 captured last and the middle is not empty |
| `Rules.Sweep` | src/lib.rs:117-119 | the end-of-game loop leaves the middle empty and the owner's pile longer by the middle's cards; the deck and hands are left alone |
| `Rules.SweepMoves` | src/lib.rs:117-119 | the end-of-game loop empties the middle onto the end of the owner's pile, last card first, and moves nothing else |
| `Rules.MoveEventsScored` | src/lib.rs:65-72 | a move logs a capture iff it scored, and never logs GameOver |
| `Rules.QuietMove` | src/lib.rs:60-94 | a move that logs no capture keeps the piles empty and the middle's repeated ranks few |
| `Rules.TakeFromFirstMoves` | src/lib.rs:57 | taking the played card from player 1's hand removes exactly that card from the held cards |
| `Rules.PopSecondMoves` | src/lib.rs:75-81 | player 2's move pops exactly the last card of the hand |
| `Rules.TakeFromFirst` | src/lib.rs:57 | `take_same_card` removes exactly the played card from player 1's hand when held, changes nothing when not, and touches nothing else |
| `Rules.Turn` | src/lib.rs:57-94 | both moves of an accepted play take one card from each hand, leave the hands equal in size and the deck alone |
| `Rules.TurnConserves` | src/lib.rs:57-94 | both moves of a play keep all 52 cards on the table |
| `Rules.TurnSizes` | src/lib.rs:57-94 | both moves take one card from each hand and leave the deck alone |
| `Rules.TurnStaysQuiet` | src/lib.rs:57-94 | both moves keep the no-capture facts while no capture is logged, and never log GameOver |
| `Rules.TurnKeeps` | src/lib.rs:57-94 | an accepted play starts from a held card and reaches the mid-turn invariant, so player 2's `expect` cannot fail |
| `Rules.AllInMiddle` | src/lib.rs:101-111 | with no cards dealt, held or captured, all 52 would lie in the middle |
| `Rules.QuietMiddleSmall` | src/lib.rs:101-111 | before any capture the middle holds at most 16 cards |
| `Rules.EndOfTurnReady` | src/lib.rs:96-111 | between moves the deck is a multiple of 8, and at the end of the game a capture has been logged, so the end-of-game `expect` cannot fail |
| `Rules.EndOfTurn` | src/lib.rs:96-122 | while player 1 holds cards nothing happens; otherwise RoundOver is logged, then with cards left in the deck a deal of four cards to each hand and Dealt, or with an empty deck the middle swept onto the end of player 1's pile, player 2 untouched, and GameOver |
| `Rules.LastScoredSkips` | src/lib.rs:104-111 | logging a non-capture event does not change the last capture |
| `Rules.EndOfTurnContinues` | src/lib.rs:96 | while player 1 holds cards the end-of-round logic does nothing, and the invariant holds |
| `Rules.EndOfTurnDeals` | src/lib.rs:96-100 | when player 1's hand is empty and the deck can deal, the result is the deal plus RoundOver and Dealt, and the invariant holds |
| `Rules.EndOfTurnEnds` | src/lib.rs:101-121 | at the end of the game a capture has been logged, the middle is swept onto player 1's pile whoever captured last, and RoundOver and GameOver are logged |
| `Rules.EndOfTurnEndsKeeps` | src/lib.rs:101-121 | the end of the game keeps the invariant: empty deck, hands and middle |
| `Rules.EndOfTurnKeeps` | src/lib.rs:96-122 | the end-of-round logic re-establishes the invariant in every branch |
| `Rules.StartEstablishes` | src/lib.rs:223-273 | every started game satisfies the invariant |
| `Rules.DealtTableKeeps` | src/lib.rs:234-272 | dealing the opening table from any arrangement of the standard deck gives a game in the invariant |
| `Rules.DealtTableHolds` | src/lib.rs:234-271 | the opening deal from any arrangement of the standard deck keeps the 52 cards |
| `Rules.DealtTableQuiet` | src/lib.rs:234-271 | after the opening deal the deck has 40 cards, the hands are equal and non-empty, and the middle repeats few ranks |
| `Rules.StartLog` | src/lib.rs:231-272 | the start log holds no capture and no GameOver |
| `Rules.PlayCardKeeps` | src/lib.rs:56-126 | an accepted play keeps the invariant: 52 cards, equal hands, deck a multiple of 8 |
| `Rules.PlayCard` | src/lib.rs:56-126 | a play is refused iff player 1 does not hold the card; an accepted play gives a game that keeps the invariant |
| `Rules.PlayRefusedIff` | src/lib.rs:57-58 | a play is refused iff player 1 does not hold the card |
| `Rules.PlayCardHands` | src/lib.rs:56-126 | with at most four cards in hand, a play leaves both hands with at most four, so a hand never holds more than a deal gives it |
| `Rules.PlayCardDeck` | src/lib.rs:96-100 | the draw deck only shrinks: a play leaves it alone or takes its top eight cards |
| `Rules.GameOverIsFinal` | src/lib.rs:96-121 | after GameOver every play is refused and the two piles hold all 52 cards |
| `Rules.MoveEventsLog` | src/lib.rs:65-72 | a move logs Played, optionally preceded by Scored, or by Scored then Wipped |
| `Rules.TurnEvents` | src/lib.rs:65-94 | both moves log player 1's events, then player 2's, each of the allowed shape |
| `Rules.EndOfTurnEvents` | src/lib.rs:96-121 | the end-of-round logic logs nothing, RoundOver then Dealt, or RoundOver then GameOver |
| `Rules.PlayCardEvents` | src/lib.rs:56-126 | a play of a held card is accepted and logs player 1's move, player 2's move, then RoundOver with Dealt or GameOver iff player 1's hand is empty |
| `Rules.ExtendsScores` | src/lib.rs:360-387 | a pile that only grew scores no less |
| `Rules.MoveGrows` | src/lib.rs:60-94 | a move only appends to piles and never lowers wips |
| `Rules.TurnGrows` | src/lib.rs:57-94 | both moves only append to piles and never lower wips |
| `Rules.EndOfTurnGrows` | src/lib.rs:96-122 | the end-of-round logic only appends to piles and never lowers wips |
| `Rules.PlayCardGrows` | src/lib.rs:56-126 | an accepted play only appends to piles and never lowers wips |
| `Rules.ScoresNeverDecrease` | src/lib.rs:46-52 | neither player's displayed score falls across an accepted play |
| `Rules.PlayerScore` | src/lib.rs:46-52 | a player's score is at least the wips plus one point per ace on the pile, and just the wips while the pile is empty |
| `Engine.Player.New` | src/lib.rs:206-212 | a new player has an empty hand, an empty pile and no wips |
| `Engine.GameState.constructor` | src/lib.rs:224-229 | the table is built from the given deck, middle and two players |
| `Engine.GameState.CanDeal` | src/lib.rs:153-155 | true iff the deck holds at least 4 cards |
| `Engine.GameState.Deal` | src/lib.rs:156-179 | the in-place deal produces the table of `Rules.Deal` |
| `Engine.GameState.StartPass` | src/lib.rs:235-270 | one in-place pass of the start loop produces the table of `Rules.StartPass` |
| `Engine.GameState.StartDeal` | src/lib.rs:234-271 | the in-place start loop produces the table of two start passes |
| `Engine.InProgressGame.constructor` | src/lib.rs:273 | a game built from a table and log in the invariant satisfies `Valid` |
| `Engine.InProgressGame.Player1Score` | src/lib.rs:46-48 | the displayed score is at least the wips, and equals them while the pile is empty |
| `Engine.InProgressGame.Player2Score` | src/lib.rs:50-52 | the displayed score is at least the wips, and equals them while the pile is empty |
| `Engine.InProgressGame.PlayAndScore` | src/lib.rs:128-140 | the in-place capture loop produces the middle, pile and flag of `Rules.PlayAndScore` |
| `Engine.InProgressGame.PlayFor` | src/lib.rs:60-71 | one player's decks and wips change as `Rules.PlayAndScore` says, with a wip iff the middle ends empty |
| `Engine.InProgressGame.Move` | src/lib.rs:60-94 | one player's half of a play produces the game of `Rules.Move` |
| `Engine.InProgressGame.PlayAt` | src/lib.rs:60-71 | the deck work of one player's half leaves the table of `Rules.Move`, and the flags it reports give that move's events |
| `Engine.InProgressGame.LogMove` | src/lib.rs:65-72 | the log gains exactly that move's events |
| `Engine.InProgressGame.Sweep` | src/lib.rs:117-119 | the loop empties the middle onto the end of the pile, last card first |
| `Engine.InProgressGame.SweepTo` | src/lib.rs:112-119 | the table becomes `Rules.Sweep` to the given owner |
| `Engine.InProgressGame.EndOfTurn` | src/lib.rs:96-122 | the in-place end-of-round logic, sweeping onto the pile the match names, produces the game of `Rules.EndOfTurn` |
| `Engine.InProgressGame.BothMove` | src/lib.rs:59-94 | player 1's move, player 2's pop, and player 2's move produce the game of `Rules.BothMove` |
| `Engine.InProgressGame.PlayCard` | src/lib.rs:56-126 | a play is accepted iff player 1 holds the card; an accepted play produces `Rules.PlayCard` and keeps the invariant; a refused play changes nothing |
| `Engine.InProgressGame.PlayTaken` | src/lib.rs:59-123 | once player 1's card is out of the hand, both moves and the end-of-round logic produce the game of `Rules.PlayCard` |
| `Engine.FreshGame.New` | src/lib.rs:218-220 | the fresh game keeps the seed |
| `Engine.FreshGame.ShuffledTable` | src/lib.rs:224-232 | a fresh table whose deck is the seeded shuffle of the new deck, with empty middle and new players |
| `Engine.FreshGame.DealtTable` | src/lib.rs:224-271 | a fresh, valid table equal to the one `Rules.Start(seed)` deals: the seeded shuffle of the new deck after two start passes |
| `Engine.FreshGame.Start` | src/lib.rs:223-274 | a fresh game equal to `Rules.Start(seed)`, so it satisfies the invariant |
| `Engine.PassTwo` | src/lib.rs:235-246 | two pops and pushes move the top two cards, top first, onto the other deck |

## Findings

| source | as written | input that shows it | evidently intended | confidence | as-written member | corrected member |
|---|---|---|---|---|---|---|
| src/lib.rs:112-116 | both arms of the match name player 1's pile, so the leftover middle always goes to player 1 | a game that ends with `Player2Scored` as the last capture event in the log | the leftover middle goes to the last player to capture, player 2 in this case | not executed | `Rules.RemainderPileAsWritten` (with `Rules.RemainderPileIgnoresLastScorer`) | `Rules.PileOwner` (with `Rules.SweepOwners`) |

The game functions and the engine follow the code as written: `Rules.EndOfTurn` and the engine's `EndOfTurn` sweep the leftover middle onto player 1's pile through `Rules.RemainderPileAsWritten`. The corrected `Rules.PileOwner` is kept beside it, and `Rules.SweepOwners` proves where the two rules part.

## Left out

- The `#[wasm_bindgen]` attributes and JavaScript interop are not modelled. They are glue, not logic.
- The clone-returning getters (`get_events`, `get_player_*_hand`, `get_player_*_score_pile`, `get_middle`, `get_deck`) are not modelled. They are plain copies.
- Ownership: `play_card` consumes the game and returns it only on success. Here `Engine.InProgressGame.PlayCard` changes the game in place and returns whether the play was accepted; a refused play changes nothing.
- Panics: the source's `expect` and `panic!` calls are not modelled as behaviour. Each is proved unreachable under the game invariant, or appears as a precondition. The shuffle's chunk size of 0 appears as the requirement of at least five elements.
- `wip_gains` and the score are `usize` in the source and unbounded naturals here. At most 52 cards and wips exist, so no overflow can happen.
- Player 2's strategy is exactly the source's: pop the last card of the hand. There is no other strategy to model.
- Reassembly in the shuffle copies each group into the buffer. The source uses `swap_with_slice`, which also writes the buffer's old content into the vector's chunks, but those are overwritten on the next line before anyone reads them.
- The 9128-iteration shuffle is never evaluated for a concrete seed. The shuffle is proved for any iteration count.
- `Debug`/`Clone` derives and `Vec::with_capacity` are not modelled. They have no observable effect.
- The rotation by `1 % len` is always a rotation by one, since the shuffle only runs on five or more elements. The `len == 1` case is never reached and is not modelled separately.
- Engine.InProgressGame.Player1Score: the contract gives only bounds in terms of the wips. The exact value is `Rules.PlayerScore`, pile score plus wips, and `Rules.ScoresNeverDecrease` states how it changes across a play.
- Engine.InProgressGame.Player2Score: the same as `Player1Score`, for player 2.
