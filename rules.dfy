/** The game of src/lib.rs as values: the table, the event log, and what
    `FreshGame::start`, `GameState::deal`, `InProgressGame::play_and_score` and
    `InProgressGame::play_card` do to them.  The classes of the engine are
    proved to follow these functions; the invariants and the properties of a
    game are proved here. */
module Rules {
  import opened Cards
  import Shuffle

  /** `enum GameEvent`. */
  datatype GameEvent =
    | Started | Shuffled | Dealt
    | Player1Wipped | Player1Played | Player1Scored
    | Player2Wipped | Player2Played | Player2Scored
    | RoundOver | GameOver

  /** Which of the two players acts. */
  datatype Seat = First | Second

  function ScoredEvent(seat: Seat): GameEvent {
    match seat
    case First => Player1Scored
    case Second => Player2Scored
  }

  function WippedEvent(seat: Seat): GameEvent {
    match seat
    case First => Player1Wipped
    case Second => Player2Wipped
  }

  function PlayedEvent(seat: Seat): GameEvent {
    match seat
    case First => Player1Played
    case Second => Player2Played
  }

  predicate IsScored(e: GameEvent) {
    e == Player1Scored || e == Player2Scored
  }

  /** `struct Player`. */
  datatype Player = Player(hand: seq<Card>, scorePile: seq<Card>, wipGains: nat)

  /** `Player::new`. */
  const NewPlayer := Player([], [], 0)

  /** `struct GameState`: the draw deck, the two players and the middle. */
  datatype GameState = GameState(deck: seq<Card>, player1: Player, player2: Player, middle: seq<Card>)

  /** `struct InProgressGame`: the table and the event log. */
  datatype Game = Game(state: GameState, events: seq<GameEvent>)

  function PlayerAt(s: GameState, seat: Seat): Player {
    match seat
    case First => s.player1
    case Second => s.player2
  }

  function WithPlayer(s: GameState, seat: Seat, p: Player): GameState {
    match seat
    case First => s.(player1 := p)
    case Second => s.(player2 := p)
  }

  /** `get_player_1_score` / `get_player_2_score`. */
  function PlayerScore(p: Player): (n: nat)
    ensures n >= p.wipGains + Count(p.scorePile, SameNumber(1))
    ensures p.scorePile == [] ==> n == p.wipGains
  {
    Score(p.scorePile) + p.wipGains
  }

  /** The cards not yet in play: the deck and both hands. */
  function Held(s: GameState): multiset<Card> {
    multiset(s.deck) + multiset(s.player1.hand) + multiset(s.player2.hand)
  }

  /** The cards in play: the middle and both score piles. */
  function Laid(s: GameState): multiset<Card> {
    multiset(s.middle) + multiset(s.player1.scorePile) + multiset(s.player2.scorePile)
  }

  /** Every card on the table, wherever it lies. */
  function AllCards(s: GameState): multiset<Card> {
    Held(s) + Laid(s)
  }

  /** A card taken from one part of a three-part sum and put in another. */
  lemma Regroup<T>(x: multiset<T>, y: multiset<T>, z: multiset<T>, x': multiset<T>, y': multiset<T>, k: multiset<T>)
    requires x' + y' == x + y + k
    ensures x' + y' + z == x + y + z + k && x' + z + y' == x + z + y + k
  {
    forall e ensures (x' + y' + z)[e] == (x + y + z + k)[e] && (x' + z + y')[e] == (x + z + y + k)[e] {
      assert (x' + y')[e] == (x + y + k)[e];
    }
  }

  /** Cards moved from one part of a two-part sum to the other. */
  lemma Shift<T>(x: multiset<T>, y: multiset<T>, x': multiset<T>, y': multiset<T>, k: multiset<T>)
    requires x == x' + k && y' == y + k
    ensures x' + y' == x + y
  {
    forall e ensures (x' + y')[e] == (x + y)[e] {
      assert x[e] == x'[e] + k[e];
      assert y'[e] == y[e] + k[e];
    }
  }

  // ---------------------------------------------------------------------
  // play_and_score

  /** The `while let` loop of `play_and_score` from a given point on: take the
      first middle card of rank `number` and push it onto the pile until the
      middle holds none; `scored` records whether the body ran. */
  function Drain(middle: seq<Card>, pile: seq<Card>, number: CardNumber, scored: bool)
    : (r: (seq<Card>, seq<Card>, bool))
    ensures |r.0| + |r.1| == |middle| + |pile|
    ensures scored ==> r.2
    ensures !r.2 ==> r.0 == middle && r.1 == pile
    decreases |middle|
  {
    var t := TakeFirst(middle, SameNumber(number));
    if t.card.None? then (middle, pile, scored)
    else Drain(t.rest, pile + [t.card.value], number, true)
  }

  /** The loop only moves cards from the middle to the pile. */
  lemma {:induction false} DrainConserves(middle: seq<Card>, pile: seq<Card>, number: CardNumber, scored: bool)
    ensures var d := Drain(middle, pile, number, scored);
      multiset(d.0) + multiset(d.1) == multiset(middle) + multiset(pile)
    decreases |middle|
  {
    var t := TakeFirst(middle, SameNumber(number));
    if t.card.Some? {
      var v := t.card.value;
      DrainConserves(t.rest, pile + [v], number, true);
      assert multiset(pile + [v]) == multiset(pile) + multiset{v};
      Shift(multiset(middle), multiset(pile), multiset(t.rest), multiset(pile + [v]), multiset{v});
    }
  }

  /** The loop leaves in the middle exactly the cards of other ranks. */
  lemma {:induction false} DrainLeaves(middle: seq<Card>, pile: seq<Card>, number: CardNumber, scored: bool)
    ensures forall c :: (multiset(Drain(middle, pile, number, scored).0)[c] ==
      if c.number == number then 0 else multiset(middle)[c])
    decreases |middle|
  {
    var t := TakeFirst(middle, SameNumber(number));
    if t.card.Some? {
      DrainLeaves(t.rest, pile + [t.card.value], number, true);
    }
  }

  /** The loop puts the middle cards of rank `number` onto the pile and
      nothing else. */
  lemma {:induction false} DrainCollects(middle: seq<Card>, pile: seq<Card>, number: CardNumber, scored: bool)
    ensures forall c :: (multiset(Drain(middle, pile, number, scored).1)[c] ==
      multiset(pile)[c] + if c.number == number then multiset(middle)[c] else 0)
    decreases |middle|
  {
    var t := TakeFirst(middle, SameNumber(number));
    if t.card.Some? {
      var x := t.card.value;
      DrainCollects(t.rest, pile + [x], number, true);
      assert multiset(pile + [x]) == multiset(pile) + multiset{x};
    }
  }

  /** The loop only ever appends to the pile. */
  lemma {:induction false} DrainExtends(middle: seq<Card>, pile: seq<Card>, number: CardNumber, scored: bool)
    ensures var r := Drain(middle, pile, number, scored);
      |pile| <= |r.1| && r.1[..|pile|] == pile
    decreases |middle|
  {
    var t := TakeFirst(middle, SameNumber(number));
    if t.card.Some? {
      var pile' := pile + [t.card.value];
      DrainExtends(t.rest, pile', number, true);
      var r := Drain(t.rest, pile', number, true);
      assert r.1[..|pile'|][..|pile|] == r.1[..|pile|];
    }
  }

  /** The loop body runs exactly when the middle holds a card of rank `number`;
      when it does not run, nothing changes. */
  lemma DrainRuns(middle: seq<Card>, pile: seq<Card>, number: CardNumber)
    ensures var r := Drain(middle, pile, number, false);
      && (r.2 <==> exists c :: c in middle && c.number == number)
      && (!r.2 ==> r.0 == middle && r.1 == pile)
  {
    var t := TakeFirst(middle, SameNumber(number));
    if t.card.Some? {
      DrainStaysScored(t.rest, pile + [t.card.value], number);
    }
  }

  lemma {:induction false} DrainStaysScored(middle: seq<Card>, pile: seq<Card>, number: CardNumber)
    ensures Drain(middle, pile, number, true).2
    decreases |middle|
  {
    var t := TakeFirst(middle, SameNumber(number));
    if t.card.Some? {
      DrainStaysScored(t.rest, pile + [t.card.value], number);
    }
  }

  /** What `play_and_score` leaves: the middle, the score pile and its result. */
  datatype Played = Played(middle: seq<Card>, scorePile: seq<Card>, scored: bool)

  /** `play_and_score(middle, score_pile, card)`: capture every middle card of
      the played rank together with the played card, or else lay the card in
      the middle. */
  function PlayAndScore(middle: seq<Card>, pile: seq<Card>, card: Card): (p: Played)
    ensures p.scored <==> exists c :: c in middle && c.number == card.number
    ensures |p.middle| + |p.scorePile| == |middle| + |pile| + 1
    ensures !p.scored ==> p.middle == middle + [card] && p.scorePile == pile
  {
    DrainRuns(middle, pile, card.number);
    var r := Drain(middle, pile, card.number, false);
    if r.2 then Played(r.0, r.1 + [card], true)
    else Played(r.0 + [card], r.1, false)
  }

  /** A play scores exactly when the middle holds a card of its rank; a card
      that does not score is appended to the middle and the pile is left alone. */
  lemma PlayAndScoreScores(middle: seq<Card>, pile: seq<Card>, card: Card)
    ensures var r := PlayAndScore(middle, pile, card);
      && (r.scored <==> exists c :: c in middle && c.number == card.number)
      && (!r.scored ==> r.middle == middle + [card] && r.scorePile == pile)
  {
    DrainRuns(middle, pile, card.number);
  }

  /** A scoring play leaves in the middle exactly the cards of other ranks. */
  lemma PlayAndScoreClears(middle: seq<Card>, pile: seq<Card>, card: Card)
    requires PlayAndScore(middle, pile, card).scored
    ensures var r := PlayAndScore(middle, pile, card);
      && (forall c :: (multiset(r.middle)[c] == if c.number == card.number then 0 else multiset(middle)[c]))
      && (forall c :: c in r.middle ==> c.number != card.number)
  {
    DrainLeaves(middle, pile, card.number, false);
    var r := PlayAndScore(middle, pile, card);
    forall c | c in r.middle ensures c.number != card.number {
      assert multiset(r.middle)[c] > 0;
    }
  }

  /** A scoring play adds to the pile every middle card of the played rank and
      the played card, and nothing else. */
  lemma PlayAndScoreCaptures(middle: seq<Card>, pile: seq<Card>, card: Card)
    requires PlayAndScore(middle, pile, card).scored
    ensures var r := PlayAndScore(middle, pile, card);
      forall c :: (multiset(r.scorePile)[c] ==
        multiset(pile)[c] + (if c.number == card.number then multiset(middle)[c] else 0) + (if c == card then 1 else 0))
  {
    var d := Drain(middle, pile, card.number, false);
    DrainCollects(middle, pile, card.number, false);
    assert multiset(d.1 + [card]) == multiset(d.1) + multiset{card};
  }

  /** A scoring play keeps the pile's cards in place below the captured ones,
      and the played card ends on top. */
  lemma PlayAndScoreStacks(middle: seq<Card>, pile: seq<Card>, card: Card)
    requires PlayAndScore(middle, pile, card).scored
    ensures var r := PlayAndScore(middle, pile, card);
      |pile| < |r.scorePile| && r.scorePile[..|pile|] == pile && r.scorePile[|r.scorePile| - 1] == card
  {
    var d := Drain(middle, pile, card.number, false);
    DrainExtends(middle, pile, card.number, false);
    AppendKeepsPrefix(d.1, card, |pile|);
  }

  lemma AppendKeepsPrefix<T>(s: seq<T>, x: T, k: nat)
    requires k <= |s|
    ensures (s + [x])[..k] == s[..k]
  {
  }

  /** `play_and_score` neither loses nor makes a card. */
  lemma PlayAndScoreConserves(middle: seq<Card>, pile: seq<Card>, card: Card)
    ensures var r := PlayAndScore(middle, pile, card);
      multiset(r.middle) + multiset(r.scorePile) == multiset(middle) + multiset(pile) + multiset{card}
  {
    var d := Drain(middle, pile, card.number, false);
    DrainConserves(middle, pile, card.number, false);
    if d.2 {
      assert multiset(d.1 + [card]) == multiset(d.1) + multiset{card};
    } else {
      assert multiset(d.0 + [card]) == multiset(d.0) + multiset{card};
    }
  }

  // ---------------------------------------------------------------------
  // One player's move inside play_card

  /** The events one move appends: `[Scored]? [Wipped]? Played`. */
  function MoveEvents(seat: Seat, scored: bool, wipped: bool): (r: seq<GameEvent>)
    ensures 1 <= |r| <= 3 && r[|r| - 1] == PlayedEvent(seat)
    ensures ScoredEvent(seat) in r <==> scored
    ensures WippedEvent(seat) in r <==> wipped
  {
    (if scored then [ScoredEvent(seat)] else [])
    + (if wipped then [WippedEvent(seat)] else [])
    + [PlayedEvent(seat)]
  }

  /** One player's half of `play_card`: `play_and_score` against that player's
      pile, a wip when it leaves the middle empty, and the events. */
  function Move(g: Game, seat: Seat, card: Card): (r: Game)
    ensures r.state.deck == g.state.deck
    ensures r.state.player1.hand == g.state.player1.hand && r.state.player2.hand == g.state.player2.hand
  {
    var p := PlayerAt(g.state, seat);
    var r := PlayAndScore(g.state.middle, p.scorePile, card);
    var wipped := r.middle == [];
    var p' := Player(p.hand, r.scorePile, if wipped then p.wipGains + 1 else p.wipGains);
    Game(WithPlayer(g.state, seat, p').(middle := r.middle), g.events + MoveEvents(seat, r.scored, wipped))
  }

  /** A move touches only the middle, the mover's pile and wips, and the log.
      It wips exactly when it empties the middle, which only a scoring move
      can do, and a wip is worth one point. */
  lemma MoveShape(g: Game, seat: Seat, card: Card)
    ensures var g' := Move(g, seat, card);
      var p, p' := PlayerAt(g.state, seat), PlayerAt(g'.state, seat);
      var r := PlayAndScore(g.state.middle, p.scorePile, card);
      && g'.state.deck == g.state.deck
      && g'.state.player1.hand == g.state.player1.hand
      && g'.state.player2.hand == g.state.player2.hand
      && (seat == First ==> g'.state.player2 == g.state.player2)
      && (seat == Second ==> g'.state.player1 == g.state.player1)
      && g'.state.middle == r.middle && p'.scorePile == r.scorePile
      && g'.events == g.events + MoveEvents(seat, r.scored, g'.state.middle == [])
      && (g'.state.middle == [] ==> r.scored)
      && p'.wipGains == p.wipGains + (if g'.state.middle == [] then 1 else 0)
  {
    PlayAndScoreScores(g.state.middle, PlayerAt(g.state, seat).scorePile, card);
  }

  /** A move lays the played card on the table and moves no other card in or
      out of play. */
  lemma MoveConserves(g: Game, seat: Seat, card: Card)
    ensures var s, s' := g.state, Move(g, seat, card).state;
      Held(s') == Held(s) && Laid(s') == Laid(s) + multiset{card}
  {
    var s, s' := g.state, Move(g, seat, card).state;
    var p := PlayerAt(s, seat);
    PlayAndScoreConserves(s.middle, p.scorePile, card);
    var m, m', k := multiset(s.middle), multiset(s'.middle), multiset{card};
    if seat == First {
      Regroup(m, multiset(s.player1.scorePile), multiset(s.player2.scorePile), m', multiset(s'.player1.scorePile), k);
    } else {
      Regroup(m, multiset(s.player2.scorePile), multiset(s.player1.scorePile), m', multiset(s'.player2.scorePile), k);
    }
  }

  /** Player 2's card: the last card of the hand, popped. */
  function PopSecond(g: Game): (r: Game)
    requires |g.state.player2.hand| > 0
    ensures r.state.player2.hand + [g.state.player2.hand[|g.state.player2.hand| - 1]] == g.state.player2.hand
    ensures r.events == g.events && r.state.middle == g.state.middle && r.state.player1 == g.state.player1
  {
    var hand2 := g.state.player2.hand;
    g.(state := g.state.(player2 := g.state.player2.(hand := hand2[..|hand2| - 1])))
  }

  /** Player 1 plays `card` (already taken from the hand), then player 2 pops
      the last card of theirs and plays it. */
  function BothMove(g: Game, card: Card): (r: Game)
    requires |g.state.player2.hand| > 0
    ensures r.state.deck == g.state.deck && r.state.player1.hand == g.state.player1.hand
    ensures |r.state.player2.hand| == |g.state.player2.hand| - 1
  {
    var g1 := Move(g, First, card);
    var hand2 := g1.state.player2.hand;
    Move(PopSecond(g1), Second, hand2[|hand2| - 1])
  }

  // ---------------------------------------------------------------------
  // Dealing

  /** One pass of the `for _ in 0..2` loop of `GameState::deal`: four cards off
      the top of the deck, two to each hand. */
  function DealPass(s: GameState): (r: GameState)
    requires |s.deck| >= 4
    ensures |r.deck| == |s.deck| - 4 && r.middle == s.middle
    ensures |r.player1.hand| == |s.player1.hand| + 2 && |r.player2.hand| == |s.player2.hand| + 2
  {
    var d, n := s.deck, |s.deck|;
    s.(deck := d[..n - 4],
       player1 := s.player1.(hand := s.player1.hand + [d[n - 1], d[n - 2]]),
       player2 := s.player2.(hand := s.player2.hand + [d[n - 3], d[n - 4]]))
  }

  function DealPasses(s: GameState, k: nat): (r: GameState)
    requires |s.deck| >= 4 * k
    ensures |r.deck| == |s.deck| - 4 * k && r.middle == s.middle
    ensures |r.player1.hand| == |s.player1.hand| + 2 * k && |r.player2.hand| == |s.player2.hand| + 2 * k
  {
    if k == 0 then s else DealPass(DealPasses(s, k - 1))
  }

  /** `GameState::can_deal`. */
  function CanDeal(s: GameState): (b: bool)
    ensures |s.deck| % 8 == 0 ==> (b <==> s.deck != [])
  {
    |s.deck| >= 4
  }

  /** A deck dealt eight cards at a time can deal exactly when it is not
      empty, and then holds at least the eight cards `deal` takes. */
  lemma DealtInEights(n: nat)
    requires n % 8 == 0
    ensures n >= 4 <==> n != 0
    ensures n >= 4 ==> n >= 8
  {
  }

  /** `GameState::deal`. */
  function Deal(s: GameState): (r: GameState)
    requires |s.deck| >= 8
    ensures |r.deck| == |s.deck| - 8 && r.middle == s.middle
    ensures |r.player1.hand| == |s.player1.hand| + 4 && |r.player2.hand| == |s.player2.hand| + 4
  {
    DealPasses(s, 2)
  }

  /** Dealing moves cards from the deck into the hands only. */
  lemma DealConserves(s: GameState)
    requires |s.deck| >= 8
    ensures Held(Deal(s)) == Held(s) && Laid(Deal(s)) == Laid(s)
  {
    var s1 := DealPass(s);
    assert DealPasses(s, 1) == s1;
    PassConserves(s.deck, s.player1.hand, s.player2.hand);
    PassConserves(s1.deck, s1.player1.hand, s1.player2.hand);
  }

  /** Dealing moves eight cards from the deck, four into each hand, and leaves
      the middle, the piles and the wips alone. */
  lemma DealMoves(s: GameState)
    requires |s.deck| >= 8
    ensures var s' := Deal(s);
      && s'.deck == s.deck[..|s.deck| - 8]
      && |s'.player1.hand| == |s.player1.hand| + 4 && |s'.player2.hand| == |s.player2.hand| + 4
      && s'.middle == s.middle
      && s'.player1.scorePile == s.player1.scorePile && s'.player2.scorePile == s.player2.scorePile
      && s'.player1.wipGains == s.player1.wipGains && s'.player2.wipGains == s.player2.wipGains
  {
    assert DealPasses(s, 1) == DealPass(s);
    PrefixOfPrefix(s.deck, |s.deck| - 4, |s.deck| - 8);
  }

  lemma PrefixOfPrefix<T>(s: seq<T>, i: nat, j: nat)
    requires j <= i <= |s|
    ensures s[..i][..j] == s[..j]
  {
  }

  /** Moving the top card of `d` onto `h` loses nothing. */
  lemma PushOne<T>(d: seq<T>, h: seq<T>)
    requires |d| >= 1
    ensures multiset(d[..|d| - 1]) + multiset(h + [d[|d| - 1]]) == multiset(d) + multiset(h)
  {
    assert d == d[..|d| - 1] + [d[|d| - 1]];
  }

  /** Moving the top two cards of `d` onto `h`, top card first, loses nothing. */
  lemma PushTwo<T>(d: seq<T>, h: seq<T>)
    requires |d| >= 2
    ensures var n := |d|; multiset(d[..n - 2]) + multiset(h + [d[n - 1], d[n - 2]]) == multiset(d) + multiset(h)
  {
    var n := |d|;
    PushOne(d, h);
    PushOne(d[..n - 1], h + [d[n - 1]]);
    assert d[..n - 1][..n - 2] == d[..n - 2];
    assert h + [d[n - 1]] + [d[n - 2]] == h + [d[n - 1], d[n - 2]];
  }

  /** Popping four cards off the deck and pushing the first two onto one hand
      and the next two onto the other loses nothing. */
  lemma PassConserves<T>(d: seq<T>, h1: seq<T>, h2: seq<T>)
    requires |d| >= 4
    ensures var n := |d|;
      multiset(d[..n - 4]) + multiset(h1 + [d[n - 1], d[n - 2]]) + multiset(h2 + [d[n - 3], d[n - 4]])
      == multiset(d) + multiset(h1) + multiset(h2)
  {
    var n := |d|;
    var d2 := d[..n - 2];
    PushTwo(d, h1);
    PushTwo(d2, h2);
    PrefixOfPrefix(d, n - 2, n - 4);
    assert d2[n - 3] == d[n - 3] && d2[n - 4] == d[n - 4];
    Chain2(multiset(d), multiset(d2), multiset(d[..n - 4]),
      multiset(h1), multiset(h1 + [d[n - 1], d[n - 2]]), multiset(h2), multiset(h2 + [d[n - 3], d[n - 4]]));
  }

  /** Two successive transfers out of `a0` lose nothing. */
  lemma Chain2<T>(a0: multiset<T>, a1: multiset<T>, a2: multiset<T>,
                  h1: multiset<T>, x1: multiset<T>, h2: multiset<T>, x2: multiset<T>)
    requires a1 + x1 == a0 + h1 && a2 + x2 == a1 + h2
    ensures a2 + x1 + x2 == a0 + h1 + h2
  {
    forall e ensures (a2 + x1 + x2)[e] == (a0 + h1 + h2)[e] {
      assert (a1 + x1)[e] == (a0 + h1)[e];
      assert (a2 + x2)[e] == (a1 + h2)[e];
    }
  }

  /** Three successive transfers out of `a0` lose nothing. */
  lemma Chain3<T>(a0: multiset<T>, a1: multiset<T>, a2: multiset<T>, a3: multiset<T>,
                  h1: multiset<T>, x1: multiset<T>, h2: multiset<T>, x2: multiset<T>, h3: multiset<T>, x3: multiset<T>)
    requires a1 + x1 == a0 + h1 && a2 + x2 == a1 + h2 && a3 + x3 == a2 + h3
    ensures a3 + x1 + x2 + x3 == a0 + h1 + h2 + h3
  {
    forall e ensures (a3 + x1 + x2 + x3)[e] == (a0 + h1 + h2 + h3)[e] {
      assert (a1 + x1)[e] == (a0 + h1)[e];
      assert (a2 + x2)[e] == (a1 + h2)[e];
      assert (a3 + x3)[e] == (a2 + h3)[e];
    }
  }


  // ---------------------------------------------------------------------
  // Starting a game

  /** One pass of the `for _ in 0..2` loop of `FreshGame::start`: six cards off
      the top of the deck, two to player 1, two to the middle, two to player 2. */
  function StartPass(s: GameState): (r: GameState)
    requires |s.deck| >= 6
    ensures |r.deck| == |s.deck| - 6 && |r.middle| == |s.middle| + 2
    ensures |r.player1.hand| == |s.player1.hand| + 2 && |r.player2.hand| == |s.player2.hand| + 2
  {
    var d, n := s.deck, |s.deck|;
    s.(deck := d[..n - 6],
       player1 := s.player1.(hand := s.player1.hand + [d[n - 1], d[n - 2]]),
       middle := s.middle + [d[n - 3], d[n - 4]],
       player2 := s.player2.(hand := s.player2.hand + [d[n - 5], d[n - 6]]))
  }

  function StartPasses(s: GameState, k: nat): (r: GameState)
    requires |s.deck| >= 6 * k
    ensures |r.deck| == |s.deck| - 6 * k && |r.middle| == |s.middle| + 2 * k
    ensures |r.player1.hand| == |s.player1.hand| + 2 * k && |r.player2.hand| == |s.player2.hand| + 2 * k
  {
    if k == 0 then s else StartPass(StartPasses(s, k - 1))
  }

  /** The table `FreshGame::start` shuffles and deals from. */
  function Table(seed: Shuffle.U64): (r: GameState)
    ensures multiset(r.deck) == multiset(StandardDeck()) && |r.deck| == 52
    ensures r.middle == [] && r.player1 == NewPlayer && r.player2 == NewPlayer
  {
    Shuffle.ShuffledPermutes(StandardDeck(), seed, ShuffleIterations);
    GameState(Shuffle.Shuffled(StandardDeck(), seed, ShuffleIterations), NewPlayer, NewPlayer, [])
  }

  /** `FreshGame::start`: a new deck shuffled with the seed, two passes of
      dealing, and the events `Started`, `Shuffled`, `Dealt`. */
  function Start(seed: Shuffle.U64): (r: Game)
    ensures |r.state.deck| == 40 && |r.state.middle| == 4
    ensures |r.state.player1.hand| == 4 && |r.state.player2.hand| == 4
    ensures r.events == [Started, Shuffled, Dealt]
  {
    Game(StartPasses(Table(seed), 2), [Started, Shuffled, Dealt])
  }

  /** Popping six cards off the deck and pushing two onto each of three
      sequences loses nothing. */
  lemma StartPassConserves<T>(d: seq<T>, h1: seq<T>, m: seq<T>, h2: seq<T>)
    requires |d| >= 6
    ensures var n := |d|;
      multiset(d[..n - 6]) + multiset(h1 + [d[n - 1], d[n - 2]]) + multiset(m + [d[n - 3], d[n - 4]])
        + multiset(h2 + [d[n - 5], d[n - 6]])
      == multiset(d) + multiset(h1) + multiset(m) + multiset(h2)
  {
    var n := |d|;
    var d2, d4 := d[..n - 2], d[..n - 4];
    PushTwo(d, h1);
    PushTwo(d2, m);
    PushTwo(d4, h2);
    PrefixOfPrefix(d, n - 2, n - 4);
    PrefixOfPrefix(d, n - 4, n - 6);
    assert d2[n - 3] == d[n - 3] && d2[n - 4] == d[n - 4];
    assert d4[n - 5] == d[n - 5] && d4[n - 6] == d[n - 6];
    Chain3(multiset(d), multiset(d2), multiset(d4), multiset(d[..n - 6]),
      multiset(h1), multiset(h1 + [d[n - 1], d[n - 2]]), multiset(m), multiset(m + [d[n - 3], d[n - 4]]),
      multiset(h2), multiset(h2 + [d[n - 5], d[n - 6]]));
  }


  /** A pass of the start deal moves six cards from the deck, two into each
      hand and two into the middle, and loses none. */
  lemma StartPassMoves(s: GameState)
    requires |s.deck| >= 6
    ensures AllCards(StartPass(s)) == AllCards(s)
  {
    var s' := StartPass(s);
    StartPassConserves(s.deck, s.player1.hand, s.middle, s.player2.hand);
    MiddleRegroup(multiset(s.deck), multiset(s.player1.hand), multiset(s.middle), multiset(s.player2.hand),
      multiset(s'.deck), multiset(s'.player1.hand), multiset(s'.middle), multiset(s'.player2.hand),
      multiset(s.player1.scorePile), multiset(s.player2.scorePile));
  }

  /** A conservation law stated with the middle among the held cards, restated
      with the middle among the laid ones. */
  lemma MiddleRegroup<T>(d: multiset<T>, h1: multiset<T>, m: multiset<T>, h2: multiset<T>,
                         d': multiset<T>, h1': multiset<T>, m': multiset<T>, h2': multiset<T>,
                         p1: multiset<T>, p2: multiset<T>)
    requires d' + h1' + m' + h2' == d + h1 + m + h2
    ensures d' + h1' + h2' + (m' + p1 + p2) == d + h1 + h2 + (m + p1 + p2)
  {
    forall e ensures (d' + h1' + h2' + (m' + p1 + p2))[e] == (d + h1 + h2 + (m + p1 + p2))[e] {
      assert (d' + h1' + m' + h2')[e] == (d + h1 + m + h2)[e];
    }
  }

  /** Two passes of the start deal lose no card. */
  lemma StartPassesConserve(d: seq<Card>)
    requires |d| >= 12
    ensures AllCards(StartPasses(GameState(d, NewPlayer, NewPlayer, []), 2)) == multiset(d)
  {
    var t := GameState(d, NewPlayer, NewPlayer, []);
    var s1 := StartPass(t);
    assert StartPasses(t, 1) == s1;
    StartPassMoves(t);
    StartPassMoves(s1);
    UndealtTable(d);
  }

  /** Before the deal every card is in the deck. */
  lemma UndealtTable(d: seq<Card>)
    ensures AllCards(GameState(d, NewPlayer, NewPlayer, [])) == multiset(d)
  {
    var t := GameState(d, NewPlayer, NewPlayer, []);
    assert multiset(t.player1.hand) == multiset{} && multiset(t.player2.hand) == multiset{};
    assert multiset(t.middle) == multiset{} && Laid(t) == multiset{};
  }

  /** Two passes of the start deal leave the bottom of the deck, all but
      twelve cards, in place. */
  lemma StartPassesKeepBottom(d: seq<Card>)
    requires |d| >= 12
    ensures StartPasses(GameState(d, NewPlayer, NewPlayer, []), 2).deck == d[..|d| - 12]
  {
    var t := GameState(d, NewPlayer, NewPlayer, []);
    assert StartPasses(t, 1) == StartPass(t);
    PrefixOfPrefix(d, |d| - 6, |d| - 12);
  }

  /** Two passes of the start deal put four cards in each hand and in the
      middle, and leave the piles and the wips empty. */
  lemma StartPassesShape(d: seq<Card>)
    requires |d| >= 12
    ensures var s := StartPasses(GameState(d, NewPlayer, NewPlayer, []), 2);
      && |s.player1.hand| == 4 && |s.player2.hand| == 4 && |s.middle| == 4
      && s.player1.scorePile == [] && s.player2.scorePile == []
      && s.player1.wipGains == 0 && s.player2.wipGains == 0
  {
    var t := GameState(d, NewPlayer, NewPlayer, []);
    var s1 := StartPass(t);
    assert StartPasses(t, 1) == s1;
    assert |s1.player1.hand| == 2 && |s1.player2.hand| == 2 && |s1.middle| == 2;
  }

  /** After `start` the 52 cards of the shuffled standard deck lie four in
      each hand, four in the middle and forty, the bottom of the shuffled
      deck, in the deck; the piles are empty, no wips are counted, and the log
      reads `Started, Shuffled, Dealt`. */
  lemma StartDeals(seed: Shuffle.U64)
    ensures var g := Start(seed); var s := g.state;
      && AllCards(s) == multiset(StandardDeck())
      && s.deck == Table(seed).deck[..40]
      && |s.player1.hand| == 4 && |s.player2.hand| == 4 && |s.middle| == 4
      && s.player1.scorePile == [] && s.player2.scorePile == []
      && s.player1.wipGains == 0 && s.player2.wipGains == 0
      && g.events == [Started, Shuffled, Dealt]
  {
    var d := Table(seed).deck;
    Shuffle.ShuffledPermutes(StandardDeck(), seed, ShuffleIterations);
    StartPassesConserve(d);
    StartPassesKeepBottom(d);
    StartPassesShape(d);
  }

  // ---------------------------------------------------------------------
  // The event log and the end of the game

  /** Whether the log records a capture by either player. */
  predicate HasScored(events: seq<GameEvent>) {
    Player1Scored in events || Player2Scored in events
  }

  /** `events.iter().filter(is scored).next_back()`: the most recent capture
      event, if any. */
  function LastScored(events: seq<GameEvent>): (r: Option<GameEvent>)
    ensures r.None? <==> !HasScored(events)
    ensures r.Some? ==> IsScored(r.value)
    ensures r.Some? ==> exists i :: (0 <= i < |events| && events[i] == r.value
      && forall j :: i < j < |events| ==> !IsScored(events[j]))
  {
    if events == [] then None
    else
      var n := |events|;
      assert events == events[..n - 1] + [events[n - 1]];
      if IsScored(events[n - 1]) then Some(events[n - 1])
      else LastScored(events[..n - 1])
  }

  /** The pile the leftover middle goes to at the end of the game, as the match
      at src/lib.rs:112-116 is written: both arms name player 1's pile. */
  function RemainderPileAsWritten(last: GameEvent): (seat: Seat)
    requires IsScored(last)
    ensures seat == First
  {
    match last
    case Player1Scored => First
    case Player2Scored => First
  }

  /** With player 2 the last to capture, the match as written still gives the
      leftover middle to player 1. */
  lemma RemainderPileIgnoresLastScorer()
    ensures RemainderPileAsWritten(Player2Scored) == First
    ensures ScoredEvent(RemainderPileAsWritten(Player2Scored)) != Player2Scored
  {
  }

  /** The pile the leftover middle is evidently meant for: the last player
      to capture. */
  function PileOwner(last: GameEvent): (seat: Seat)
    requires IsScored(last)
    ensures ScoredEvent(seat) == last
  {
    if last == Player1Scored then First else Second
  }

  /** Sweeping to the corrected owner puts the leftover middle on the pile of
      the player who captured last; it differs from the sweep as written
      exactly when player 2 captured last and the middle is not empty. */
  lemma SweepOwners(s: GameState, events: seq<GameEvent>)
    requires HasScored(events)
    ensures var last := LastScored(events).value; var owner := PileOwner(last);
      && ScoredEvent(owner) == last
      && PlayerAt(Sweep(s, owner), owner).scorePile == PlayerAt(s, owner).scorePile + Reversed(s.middle)
      && (Sweep(s, owner) != Sweep(s, RemainderPileAsWritten(last)) <==> last == Player2Scored && s.middle != [])
  {
    var last := LastScored(events).value;
    var corrected, written := Sweep(s, PileOwner(last)), Sweep(s, RemainderPileAsWritten(last));
    if last == Player2Scored && s.middle != [] {
      assert |corrected.player1.scorePile| != |written.player1.scorePile|;
    } else if last == Player2Scored {
      assert s.player1.scorePile + Reversed(s.middle) == s.player1.scorePile;
      assert s.player2.scorePile + Reversed(s.middle) == s.player2.scorePile;
    }
  }

  /** The `while let` loop that pops every middle card and pushes it onto the
      owner's pile. */
  function Sweep(s: GameState, owner: Seat): (r: GameState)
    ensures r.middle == [] && r.deck == s.deck
    ensures r.player1.hand == s.player1.hand && r.player2.hand == s.player2.hand
    ensures |PlayerAt(r, owner).scorePile| == |PlayerAt(s, owner).scorePile| + |s.middle|
  {
    var p := PlayerAt(s, owner);
    WithPlayer(s, owner, p.(scorePile := p.scorePile + Reversed(s.middle))).(middle := [])
  }

  /** The sweep empties the middle onto the end of the owner's pile, last
      middle card first, and moves nothing else. */
  lemma SweepMoves(s: GameState, owner: Seat)
    ensures var s' := Sweep(s, owner);
      && AllCards(s') == AllCards(s)
      && s'.middle == [] && s'.deck == s.deck
      && s'.player1.hand == s.player1.hand && s'.player2.hand == s.player2.hand
      && PlayerAt(s', owner).scorePile == PlayerAt(s, owner).scorePile + Reversed(s.middle)
      && (owner == First ==> s'.player2 == s.player2)
      && (owner == Second ==> s'.player1 == s.player1)
  {
    var s' := Sweep(s, owner);
    var m := multiset(s.middle);
    assert multiset(Reversed(s.middle)) == m;
    if owner == First {
      Regroup(m, multiset(s.player1.scorePile), multiset(s.player2.scorePile),
        multiset{}, multiset(s'.player1.scorePile), multiset{});
    } else {
      Regroup(m, multiset(s.player2.scorePile), multiset(s.player1.scorePile),
        multiset{}, multiset(s'.player2.scorePile), multiset{});
    }
  }

  /** The tail of `play_card` once both players have moved: nothing while
      player 1 still holds cards; otherwise `RoundOver`, then a deal and
      `Dealt` when the deck allows, or else the sweep of the middle onto the
      pile the match at src/lib.rs:112-116 names, player 1's, and `GameOver`.
      The requires are the `expect`s of this
      stretch of code, which the game invariant discharges. */
  function EndOfTurn(g: Game): (r: Game)
    requires |g.state.deck| % 8 == 0
    requires g.state.player1.hand == [] && !CanDeal(g.state) ==> HasScored(g.events)
    ensures g.state.player1.hand != [] ==> r == g
    ensures g.state.player1.hand == [] ==>
      r.events == g.events + [RoundOver, if g.state.deck != [] then Dealt else GameOver]
    ensures g.state.player1.hand == [] && g.state.deck != [] ==>
      |r.state.deck| == |g.state.deck| - 8 && |r.state.player1.hand| == 4 && r.state.middle == g.state.middle
    ensures g.state.player1.hand == [] && g.state.deck == [] ==>
      && r.state.middle == [] && r.state.player2 == g.state.player2
      && r.state.player1.scorePile == g.state.player1.scorePile + Reversed(g.state.middle)
  {
    if g.state.player1.hand != [] then g
    else if CanDeal(g.state) then Game(Deal(g.state), g.events + [RoundOver, Dealt])
    else
      var events := g.events + [RoundOver];
      var last := LastScored(events);
      Game(Sweep(g.state, RemainderPileAsWritten(last.value)), events + [GameOver])
  }

  // ---------------------------------------------------------------------
  // play_card

  /** Player 1's `take_same_card`. */
  function TakeFromFirst(g: Game, card: Card): (r: Game)
    ensures card in g.state.player1.hand ==>
      multiset(r.state.player1.hand) + multiset{card} == multiset(g.state.player1.hand)
    ensures card !in g.state.player1.hand ==> r == g
    ensures r.events == g.events && r.state.(player1 := g.state.player1) == g.state
  {
    TakeSameCardFinds(g.state.player1.hand, card);
    var t := TakeFirst(g.state.player1.hand, SameCard(card));
    g.(state := g.state.(player1 := g.state.player1.(hand := t.rest)))
  }

  /** Both moves of an accepted `play_card`, before the end-of-round logic.
      The card `take_same_card` returns equals `card`. */
  function Turn(g: Game, card: Card): (r: Game)
    requires card in g.state.player1.hand
    requires |g.state.player1.hand| == |g.state.player2.hand|
    ensures r.state.deck == g.state.deck
    ensures |r.state.player1.hand| == |g.state.player1.hand| - 1 == |r.state.player2.hand|
  {
    BothMove(TakeFromFirst(g, card), card)
  }

  /** No card has been captured yet, and the middle holds at most three cards
      more than it has ranks. */
  predicate Quiet(s: GameState) {
    s.player1.scorePile == [] && s.player2.scorePile == [] && |s.middle| <= |Numbers(s.middle)| + 3
  }

  /** What holds of a game between two plays: the 52 cards are all on the
      table, the hands are the same size, the deck is dealt eight at a time,
      until the first capture the middle repeats few ranks, and the game is
      over exactly when player 1 holds no card, with nothing left to deal or
      capture. */
  predicate Invariant(g: Game) {
    var s := g.state;
    && AllCards(s) == multiset(StandardDeck())
    && |s.player1.hand| == |s.player2.hand|
    && |s.deck| % 8 == 0
    && (!HasScored(g.events) ==> Quiet(s))
    && (GameOver in g.events <==> s.player1.hand == [])
    && (GameOver in g.events ==> s.deck == [] && s.middle == [])
  }

  /** What holds after both moves of a play, before the end-of-round logic. */
  predicate MidTurn(g: Game) {
    var s := g.state;
    && AllCards(s) == multiset(StandardDeck())
    && |s.player1.hand| == |s.player2.hand|
    && |s.deck| % 8 == 0
    && (!HasScored(g.events) ==> Quiet(s))
    && GameOver !in g.events
  }

  /** `InProgressGame::play_card`: `None` when player 1 does not hold the card;
      otherwise both moves and the end-of-round logic. */
  function PlayCard(g: Game, card: Card): (r: Option<Game>)
    requires Invariant(g)
    ensures r.None? <==> card !in g.state.player1.hand
    ensures r.Some? ==> Invariant(r.value)
  {
    TakeSameCardFinds(g.state.player1.hand, card);
    if TakeFirst(g.state.player1.hand, SameCard(card)).card.None? then None
    else
      TurnKeeps(g, card);
      EndOfTurnReady(Turn(g, card));
      EndOfTurnKeeps(Turn(g, card));
      Some(EndOfTurn(Turn(g, card)))
  }

  // ---------------------------------------------------------------------
  // What a turn does

  /** `MoveEvents` records a capture exactly when the move scored. */
  lemma MoveEventsScored(seat: Seat, scored: bool, wipped: bool)
    ensures HasScored(MoveEvents(seat, scored, wipped)) <==> scored
    ensures GameOver !in MoveEvents(seat, scored, wipped)
  {
    var e := MoveEvents(seat, scored, wipped);
    if scored {
      assert e[0] == ScoredEvent(seat);
    }
  }

  /** A move that captures nothing keeps the table quiet: the card joins the
      middle with a rank the middle did not show. */
  lemma QuietMove(g: Game, seat: Seat, card: Card)
    requires Quiet(g.state)
    requires !HasScored(Move(g, seat, card).events)
    ensures Quiet(Move(g, seat, card).state)
    ensures !HasScored(g.events)
  {
    var p := PlayerAt(g.state, seat);
    var r := PlayAndScore(g.state.middle, p.scorePile, card);
    MoveShape(g, seat, card);
    MoveEventsScored(seat, r.scored, r.middle == []);
    assert !r.scored && r.middle == g.state.middle + [card];
    assert card.number !in Numbers(g.state.middle);
    NumbersAppend(g.state.middle, card);
  }

  /** Player 1 gives up the played card and keeps the rest of the hand. */
  lemma TakeFromFirstMoves(g: Game, card: Card)
    requires card in g.state.player1.hand
    ensures var s, s' := g.state, TakeFromFirst(g, card).state;
      Held(s) == Held(s') + multiset{card} && Laid(s') == Laid(s)
      && |s'.player1.hand| == |s.player1.hand| - 1
  {
    var s, s' := g.state, TakeFromFirst(g, card).state;
    TakeSameCardFinds(s.player1.hand, card);
    var d, h, h', o := multiset(s.deck), multiset(s.player1.hand), multiset(s'.player1.hand), multiset(s.player2.hand);
    assert h == h' + multiset{card};
    forall e ensures Held(s)[e] == (Held(s') + multiset{card})[e] {
      assert h[e] == (h' + multiset{card})[e];
    }
  }

  /** Player 2 gives up the last card of the hand. */
  lemma PopSecondMoves(g: Game)
    requires |g.state.player2.hand| > 0
    ensures var s, s' := g.state, PopSecond(g).state; var h := s.player2.hand;
      Held(s) == Held(s') + multiset{h[|h| - 1]} && Laid(s') == Laid(s)
  {
    var h := g.state.player2.hand;
    assert h == h[..|h| - 1] + [h[|h| - 1]];
  }

  /** A turn loses and makes no card. */
  lemma TurnConserves(g: Game, card: Card)
    requires card in g.state.player1.hand
    requires |g.state.player1.hand| == |g.state.player2.hand|
    ensures AllCards(Turn(g, card).state) == AllCards(g.state)
  {
    var g0 := TakeFromFirst(g, card);
    var g1 := Move(g0, First, card);
    var h2 := g1.state.player2.hand;
    var g2 := PopSecond(g1);
    var g3 := Move(g2, Second, h2[|h2| - 1]);
    TakeFromFirstMoves(g, card);
    MoveConserves(g0, First, card);
    Shift(Held(g.state), Laid(g.state), Held(g1.state), Laid(g1.state), multiset{card});
    PopSecondMoves(g1);
    MoveConserves(g2, Second, h2[|h2| - 1]);
    Shift(Held(g1.state), Laid(g1.state), Held(g3.state), Laid(g3.state), multiset{h2[|h2| - 1]});
  }

  /** A turn takes one card from each hand and leaves the deck alone. */
  lemma TurnSizes(g: Game, card: Card)
    requires card in g.state.player1.hand
    requires |g.state.player1.hand| == |g.state.player2.hand|
    ensures var s, s' := g.state, Turn(g, card).state;
      && |s'.player1.hand| == |s.player1.hand| - 1 && |s'.player2.hand| == |s.player2.hand| - 1
      && s'.deck == s.deck
  {
    var g0 := TakeFromFirst(g, card);
    TakeFromFirstMoves(g, card);
    MoveShape(g0, First, card);
    var g1 := Move(g0, First, card);
    var h2 := g1.state.player2.hand;
    MoveShape(PopSecond(g1), Second, h2[|h2| - 1]);
  }

  /** Until somebody captures, a turn keeps the table quiet, and a turn never
      ends the game by itself. */
  lemma TurnStaysQuiet(g: Game, card: Card)
    requires card in g.state.player1.hand
    requires |g.state.player1.hand| == |g.state.player2.hand|
    requires !HasScored(g.events) ==> Quiet(g.state)
    requires GameOver !in g.events
    ensures var g' := Turn(g, card);
      (!HasScored(g'.events) ==> Quiet(g'.state)) && GameOver !in g'.events
  {
    var g0 := TakeFromFirst(g, card);
    var g1 := Move(g0, First, card);
    var h2 := g1.state.player2.hand;
    var g2 := PopSecond(g1);
    var g3 := Move(g2, Second, h2[|h2| - 1]);
    var r1 := PlayAndScore(g0.state.middle, g0.state.player1.scorePile, card);
    var r2 := PlayAndScore(g2.state.middle, g2.state.player2.scorePile, h2[|h2| - 1]);
    MoveShape(g0, First, card);
    MoveShape(g2, Second, h2[|h2| - 1]);
    MoveEventsScored(First, r1.scored, g1.state.middle == []);
    MoveEventsScored(Second, r2.scored, g3.state.middle == []);
    if !HasScored(g3.events) {
      assert !HasScored(g1.events);
      QuietMove(g0, First, card);
      QuietMove(g2, Second, h2[|h2| - 1]);
    }
  }

  /** After the moves of a play from a game that keeps the invariant, the
      middle-of-turn facts hold. */
  lemma TurnKeeps(g: Game, card: Card)
    requires Invariant(g)
    requires TakeFirst(g.state.player1.hand, SameCard(card)).card.Some?
    ensures card in g.state.player1.hand
    ensures MidTurn(Turn(g, card))
  {
    TakeSameCardFinds(g.state.player1.hand, card);
    TurnConserves(g, card);
    TurnSizes(g, card);
    TurnStaysQuiet(g, card);
  }

  /** Every card standard, captured by nobody, with deck and hands empty: the
      middle would then hold all 52 cards. */
  lemma AllInMiddle(s: GameState)
    requires AllCards(s) == multiset(StandardDeck())
    requires s.deck == [] && s.player1.hand == [] && s.player2.hand == []
    requires s.player1.scorePile == [] && s.player2.scorePile == []
    ensures |s.middle| == 52
  {
    assert multiset(s.middle) == AllCards(s);
  }

  /** A quiet middle of standard cards holds at most sixteen cards. */
  lemma QuietMiddleSmall(s: GameState)
    requires AllCards(s) == multiset(StandardDeck())
    requires Quiet(s)
    ensures |s.middle| <= 16
  {
    StandardDeckIsComplete();
    forall c | c in s.middle ensures IsStandard(c) {
      assert c in AllCards(s);
    }
    RanksAtMost13(s.middle);
  }

  /** The `expect` of the end-of-game branch never fires: when player 1's hand
      is empty and nothing can be dealt, somebody has captured. */
  lemma EndOfTurnReady(g: Game)
    requires MidTurn(g)
    ensures |g.state.deck| % 8 == 0
    ensures g.state.player1.hand == [] && !CanDeal(g.state) ==> HasScored(g.events)
  {
    var s := g.state;
    if s.player1.hand == [] && !CanDeal(s) && !HasScored(g.events) {
      QuietMiddleSmall(s);
      assert s.player2.hand == [] && s.deck == [];
      AllInMiddle(s);
      assert false;
    }
  }

  // ---------------------------------------------------------------------
  // The end of a round and the invariant

  /** Appending events that record no capture leaves the most recent capture
      as it was. */
  lemma LastScoredSkips(events: seq<GameEvent>, e: GameEvent)
    requires !IsScored(e)
    ensures LastScored(events + [e]) == LastScored(events)
  {
    assert (events + [e])[..|events|] == events;
  }

  /** While player 1 still holds cards a play ends after the two moves. */
  lemma EndOfTurnContinues(g: Game)
    requires MidTurn(g) && g.state.player1.hand != []
    ensures (EndOfTurnReady(g); EndOfTurn(g) == g && Invariant(g))
  {
    EndOfTurnReady(g);
  }

  /** When the hands run out and the deck can deal, the round ends with a deal
      of four cards to each hand, and the invariant holds again. */
  lemma EndOfTurnDeals(g: Game)
    requires MidTurn(g) && g.state.player1.hand == [] && CanDeal(g.state)
    ensures (EndOfTurnReady(g); var g' := EndOfTurn(g);
      && g'.state == Deal(g.state) && g'.events == g.events + [RoundOver, Dealt]
      && Invariant(g'))
  {
    EndOfTurnReady(g);
    DealConserves(g.state);
    DealMoves(g.state);
    assert HasScored(g.events + [RoundOver, Dealt]) == HasScored(g.events);
  }

  /** When the hands run out and the deck cannot deal, the game ends: the
      middle goes onto player 1's pile, whoever captured last, and the log
      records `RoundOver, GameOver`. */
  lemma EndOfTurnEnds(g: Game)
    requires MidTurn(g) && g.state.player1.hand == [] && !CanDeal(g.state)
    ensures HasScored(g.events)
    ensures (EndOfTurnReady(g); var g' := EndOfTurn(g);
      && g'.state == Sweep(g.state, First)
      && g'.state.player1.scorePile == g.state.player1.scorePile + Reversed(g.state.middle)
      && g'.events == g.events + [RoundOver, GameOver])
  {
    EndOfTurnReady(g);
    LastScoredSkips(g.events, RoundOver);
    assert g.events + [RoundOver] + [GameOver] == g.events + [RoundOver, GameOver];
  }

  /** The end of the game leaves nothing but the two piles, and the invariant
      holds. */
  lemma EndOfTurnEndsKeeps(g: Game)
    requires MidTurn(g) && g.state.player1.hand == [] && !CanDeal(g.state)
    ensures (EndOfTurnReady(g); Invariant(EndOfTurn(g)))
  {
    EndOfTurnEnds(g);
    SweepMoves(g.state, First);
    assert GameOver in g.events + [RoundOver, GameOver];
    assert HasScored(g.events + [RoundOver, GameOver]);
  }

  /** The end-of-round logic restores the invariant. */
  lemma EndOfTurnKeeps(g: Game)
    requires MidTurn(g)
    ensures (EndOfTurnReady(g); Invariant(EndOfTurn(g)))
  {
    EndOfTurnReady(g);
    if g.state.player1.hand != [] {
      EndOfTurnContinues(g);
    } else if CanDeal(g.state) {
      EndOfTurnDeals(g);
    } else {
      EndOfTurnEndsKeeps(g);
    }
  }

  /** A new game keeps the invariant. */
  lemma StartEstablishes(seed: Shuffle.U64)
    ensures Invariant(Start(seed))
  {
    Shuffle.ShuffledPermutes(StandardDeck(), seed, ShuffleIterations);
    DealtTableKeeps(Table(seed).deck);
  }

  /** Dealing the start passes from any arrangement of the 52 cards gives a
      game that keeps the invariant. */
  lemma DealtTableKeeps(d: seq<Card>)
    requires |d| == 52 && multiset(d) == multiset(StandardDeck())
    ensures Invariant(Game(StartPasses(GameState(d, NewPlayer, NewPlayer, []), 2), [Started, Shuffled, Dealt]))
  {
    DealtTableHolds(d);
    DealtTableQuiet(d);
    StartLog();
  }

  /** The start passes from any arrangement of the 52 cards leave all 52 on
      the table. */
  lemma DealtTableHolds(d: seq<Card>)
    requires |d| == 52 && multiset(d) == multiset(StandardDeck())
    ensures AllCards(StartPasses(GameState(d, NewPlayer, NewPlayer, []), 2)) == multiset(StandardDeck())
  {
    StartPassesConserve(d);
  }

  /** After the start passes from 52 cards the deck holds five deals, the
      hands are full and alike, and no card has been captured. */
  lemma DealtTableQuiet(d: seq<Card>)
    requires |d| == 52
    ensures var s := StartPasses(GameState(d, NewPlayer, NewPlayer, []), 2);
      && |s.deck| == 40 && |s.deck| % 8 == 0 && Quiet(s)
      && |s.player1.hand| == |s.player2.hand| && s.player1.hand != []
  {
    var s := StartPasses(GameState(d, NewPlayer, NewPlayer, []), 2);
    StartPassesKeepBottom(d);
    StartPassesShape(d);
    RanksAtLeastOne(s.middle);
  }

  /** The log `start` writes records no capture and no end of game. */
  lemma StartLog()
    ensures !HasScored([Started, Shuffled, Dealt]) && GameOver !in [Started, Shuffled, Dealt]
  {
    var events := [Started, Shuffled, Dealt];
    forall i | 0 <= i < 3 ensures events[i] != Player1Scored && events[i] != Player2Scored && events[i] != GameOver {
    }
  }

  /** An accepted play keeps the invariant. */
  lemma PlayCardKeeps(g: Game, card: Card)
    requires Invariant(g) && card in g.state.player1.hand
    ensures Invariant(PlayCard(g, card).value)
  {
    TurnKeeps(g, card);
    EndOfTurnKeeps(Turn(g, card));
  }

  // ---------------------------------------------------------------------
  // Properties of play_card

  /** A hand never holds more than the four cards a deal gives it: a play
      takes one card from each hand, and only an empty hand is dealt to. */
  lemma PlayCardHands(g: Game, card: Card)
    requires Invariant(g) && card in g.state.player1.hand && |g.state.player1.hand| <= 4
    ensures var s' := PlayCard(g, card).value.state;
      |s'.player1.hand| <= 4 && |s'.player2.hand| <= 4
  {
    TurnKeeps(g, card);
    TurnSizes(g, card);
    var t := Turn(g, card);
    EndOfTurnReady(t);
    assert PlayCard(g, card) == Some(EndOfTurn(t));
  }

  /** The draw deck only shrinks: a play leaves it alone or deals its top
      eight cards. */
  lemma PlayCardDeck(g: Game, card: Card)
    requires Invariant(g) && card in g.state.player1.hand
    ensures var d, d' := g.state.deck, PlayCard(g, card).value.state.deck;
      d' == d || (|d| >= 8 && d' == d[..|d| - 8])
  {
    TurnKeeps(g, card);
    TurnSizes(g, card);
    var t := Turn(g, card);
    EndOfTurnReady(t);
    assert PlayCard(g, card) == Some(EndOfTurn(t));
    if t.state.player1.hand == [] && CanDeal(t.state) {
      DealMoves(t.state);
    }
  }

  /** A play is refused exactly when player 1 does not hold the card. */
  lemma PlayRefusedIff(g: Game, card: Card)
    requires Invariant(g)
    ensures PlayCard(g, card).None? <==> card !in g.state.player1.hand
  {
    TakeSameCardFinds(g.state.player1.hand, card);
  }

  /** Once the game is over every play is refused, since player 1's hand is
      empty; the table then holds nothing but the two piles, which hold all 52
      cards. */
  lemma GameOverIsFinal(g: Game, card: Card)
    requires Invariant(g) && GameOver in g.events
    ensures PlayCard(g, card).None?
    ensures multiset(g.state.player1.scorePile) + multiset(g.state.player2.scorePile) == multiset(StandardDeck())
    ensures |g.state.player1.scorePile| + |g.state.player2.scorePile| == 52
  {
    PlayRefusedIff(g, card);
    var s := g.state;
    assert s.player2.hand == [];
    assert AllCards(s) == multiset(s.player1.scorePile) + multiset(s.player2.scorePile);
  }

  /** The log of one move: `[Scored] [Wipped] Played` for the seat, where a
      wip comes only with a capture. */
  predicate MoveLog(t: seq<GameEvent>, seat: Seat) {
    || t == [PlayedEvent(seat)]
    || t == [ScoredEvent(seat), PlayedEvent(seat)]
    || t == [ScoredEvent(seat), WippedEvent(seat), PlayedEvent(seat)]
  }

  lemma MoveEventsLog(seat: Seat, scored: bool, wipped: bool)
    requires wipped ==> scored
    ensures MoveLog(MoveEvents(seat, scored, wipped), seat)
  {
  }

  /** The moves of a play append player 1's move log, then player 2's. */
  lemma TurnEvents(g: Game, card: Card) returns (first: seq<GameEvent>, second: seq<GameEvent>)
    requires card in g.state.player1.hand
    requires |g.state.player1.hand| == |g.state.player2.hand|
    ensures MoveLog(first, First) && MoveLog(second, Second)
    ensures Turn(g, card).events == g.events + first + second
  {
    var g0 := TakeFromFirst(g, card);
    var g1 := Move(g0, First, card);
    var h2 := g1.state.player2.hand;
    var g2 := PopSecond(g1);
    var g3 := Move(g2, Second, h2[|h2| - 1]);
    var r1 := PlayAndScore(g0.state.middle, g0.state.player1.scorePile, card);
    var r2 := PlayAndScore(g2.state.middle, g2.state.player2.scorePile, h2[|h2| - 1]);
    MoveShape(g0, First, card);
    MoveShape(g2, Second, h2[|h2| - 1]);
    first, second := MoveEvents(First, r1.scored, g1.state.middle == []), MoveEvents(Second, r2.scored, g3.state.middle == []);
    MoveEventsLog(First, r1.scored, g1.state.middle == []);
    MoveEventsLog(Second, r2.scored, g3.state.middle == []);
  }

  /** The events the end-of-round logic appends. */
  lemma EndOfTurnEvents(g: Game)
    requires MidTurn(g)
    ensures (EndOfTurnReady(g); EndOfTurn(g).events == g.events +
      (if g.state.player1.hand != [] then []
       else if CanDeal(g.state) then [RoundOver, Dealt]
       else [RoundOver, GameOver]))
  {
    EndOfTurnReady(g);
    if g.state.player1.hand == [] && !CanDeal(g.state) {
      EndOfTurnEnds(g);
    }
  }

  /** An accepted play appends the two move logs, then `RoundOver` exactly
      when it was player 1's last card, followed by `Dealt` while the deck has
      cards and by `GameOver` once it has none. */
  lemma PlayCardEvents(g: Game, card: Card) returns (first: seq<GameEvent>, second: seq<GameEvent>)
    requires Invariant(g) && card in g.state.player1.hand
    ensures PlayCard(g, card).Some?
    ensures MoveLog(first, First) && MoveLog(second, Second)
    ensures PlayCard(g, card).value.events == g.events + first + second +
      (if |g.state.player1.hand| > 1 then []
       else if g.state.deck != [] then [RoundOver, Dealt]
       else [RoundOver, GameOver])
  {
    PlayRefusedIff(g, card);
    TurnKeeps(g, card);
    TurnSizes(g, card);
    var g' := Turn(g, card);
    EndOfTurnReady(g');
    assert PlayCard(g, card) == Some(EndOfTurn(g'));
    assert g'.state.player1.hand == [] <==> |g.state.player1.hand| == 1;
    DealtInEights(|g.state.deck|);
    first, second := TurnEvents(g, card);
    EndOfTurnEvents(g');
  }

  /** `q` continues `p`: the pile only grew on top. */
  predicate Extends(q: seq<Card>, p: seq<Card>) {
    |p| <= |q| && q[..|p|] == p
  }

  lemma ExtendsTrans(r: seq<Card>, q: seq<Card>, p: seq<Card>)
    requires Extends(r, q) && Extends(q, p)
    ensures Extends(r, p)
  {
    PrefixOfPrefix(r, |q|, |p|);
  }

  lemma ExtendsAppend(p: seq<Card>, t: seq<Card>)
    ensures Extends(p + t, p)
  {
    assert (p + t)[..|p|] == p;
  }

  /** Piles only grow and wips are only added: what a score is made of. */
  predicate Grows(s: GameState, s': GameState) {
    && Extends(s'.player1.scorePile, s.player1.scorePile)
    && Extends(s'.player2.scorePile, s.player2.scorePile)
    && s.player1.wipGains <= s'.player1.wipGains
    && s.player2.wipGains <= s'.player2.wipGains
  }

  lemma GrowsTrans(s: GameState, s': GameState, s'': GameState)
    requires Grows(s, s') && Grows(s', s'')
    ensures Grows(s, s'')
  {
    ExtendsTrans(s''.player1.scorePile, s'.player1.scorePile, s.player1.scorePile);
    ExtendsTrans(s''.player2.scorePile, s'.player2.scorePile, s.player2.scorePile);
  }

  /** A move only adds to the mover's pile and wips. */
  lemma MoveGrows(g: Game, seat: Seat, card: Card)
    ensures Grows(g.state, Move(g, seat, card).state)
  {
    var p := PlayerAt(g.state, seat);
    MoveShape(g, seat, card);
    PlayAndScoreScores(g.state.middle, p.scorePile, card);
    if PlayAndScore(g.state.middle, p.scorePile, card).scored {
      PlayAndScoreStacks(g.state.middle, p.scorePile, card);
    }
    var s, s' := g.state, Move(g, seat, card).state;
    assert s.player1.scorePile[..|s.player1.scorePile|] == s.player1.scorePile;
    assert s.player2.scorePile[..|s.player2.scorePile|] == s.player2.scorePile;
  }

  /** The moves of a play only add to piles and wips. */
  lemma TurnGrows(g: Game, card: Card)
    requires card in g.state.player1.hand
    requires |g.state.player1.hand| == |g.state.player2.hand|
    ensures Grows(g.state, Turn(g, card).state)
  {
    var g0 := TakeFromFirst(g, card);
    var g1 := Move(g0, First, card);
    var h2 := g1.state.player2.hand;
    var g2 := PopSecond(g1);
    MoveGrows(g0, First, card);
    MoveGrows(g2, Second, h2[|h2| - 1]);
    GrowsTrans(g.state, g1.state, Move(g2, Second, h2[|h2| - 1]).state);
  }

  /** The end-of-round logic only adds to piles. */
  lemma EndOfTurnGrows(g: Game)
    requires MidTurn(g)
    ensures (EndOfTurnReady(g); Grows(g.state, EndOfTurn(g).state))
  {
    EndOfTurnReady(g);
    var s := g.state;
    if s.player1.hand == [] {
      if CanDeal(s) {
        DealMoves(s);
      } else {
        EndOfTurnEnds(g);
        SweepMoves(s, First);
        ExtendsAppend(s.player1.scorePile, Reversed(s.middle));
      }
    } else {
      assert s.player1.scorePile[..|s.player1.scorePile|] == s.player1.scorePile;
      assert s.player2.scorePile[..|s.player2.scorePile|] == s.player2.scorePile;
    }
  }

  /** A play only adds to piles and wips. */
  lemma PlayCardGrows(g: Game, card: Card)
    requires Invariant(g) && card in g.state.player1.hand
    ensures Grows(g.state, PlayCard(g, card).value.state)
  {
    TurnKeeps(g, card);
    TurnGrows(g, card);
    EndOfTurnGrows(Turn(g, card));
    EndOfTurnReady(Turn(g, card));
    GrowsTrans(g.state, Turn(g, card).state, EndOfTurn(Turn(g, card)).state);
  }

  /** A pile that only grew scores no less. */
  lemma ExtendsScores(q: seq<Card>, p: seq<Card>)
    requires Extends(q, p)
    ensures Score(p) <= Score(q)
  {
    assert q == p + q[|p|..];
    ScoreGrows(p, q[|p|..]);
  }

  /** A play never lowers either player's score. */
  lemma ScoresNeverDecrease(g: Game, card: Card)
    requires Invariant(g) && card in g.state.player1.hand
    ensures var s, s' := g.state, PlayCard(g, card).value.state;
      PlayerScore(s.player1) <= PlayerScore(s'.player1) && PlayerScore(s.player2) <= PlayerScore(s'.player2)
  {
    var s, s' := g.state, PlayCard(g, card).value.state;
    PlayCardGrows(g, card);
    ExtendsScores(s'.player1.scorePile, s.player1.scorePile);
    ExtendsScores(s'.player2.scorePile, s.player2.scorePile);
  }
}
