/** The game objects of src/lib.rs: a player, the table, a game in progress
    and a fresh game.  Their methods update the decks, the wips and the event
    log in place, as the source does, and are proved to follow the functions
    of `Rules`; the invariant of `Rules` holds of every game `start` makes and
    every play keeps it. */
module Engine {
  import opened Cards
  import Shuffling = Shuffle
  import opened Decks
  import Rules

  /** `struct Player`: a hand, a score pile and the wips counted so far. */
  class Player {
    const hand: Deck
    const scorePile: Deck
    var wipGains: nat

    /** `Player::new`. */
    constructor New()
      ensures fresh(hand) && fresh(scorePile) && hand != scorePile
      ensures View() == Rules.NewPlayer
    {
      hand := new Deck.Empty();
      scorePile := new Deck.Empty();
      wipGains := 0;
    }

    function View(): Rules.Player
      reads this, hand, scorePile
    {
      Rules.Player(hand.cards, scorePile.cards, wipGains)
    }
  }

  /** `struct GameState`: the draw deck, the two players and the middle. */
  class GameState {
    const deck: Deck
    const player1: Player
    const player2: Player
    const middle: Deck

    constructor (deck: Deck, player1: Player, player2: Player, middle: Deck)
      ensures this.deck == deck && this.player1 == player1 && this.player2 == player2 && this.middle == middle
    {
      this.deck := deck;
      this.player1 := player1;
      this.player2 := player2;
      this.middle := middle;
    }

    /** The six decks on the table. */
    function AllDecks(): set<Deck> {
      {deck, middle, player1.hand, player1.scorePile, player2.hand, player2.scorePile}
    }

    /** The six decks are six different objects, as ownership guarantees
        in the source; the two players, holding different hands, are then
        different objects too. */
    predicate Valid() {
      && deck != middle && deck != player1.hand && deck != player1.scorePile
      && deck != player2.hand && deck != player2.scorePile
      && middle != player1.hand && middle != player1.scorePile
      && middle != player2.hand && middle != player2.scorePile
      && player1.hand != player1.scorePile && player1.hand != player2.hand && player1.hand != player2.scorePile
      && player1.scorePile != player2.hand && player1.scorePile != player2.scorePile
      && player2.hand != player2.scorePile
    }

    function View(): Rules.GameState
      reads player1, player2, AllDecks()
    {
      Rules.GameState(deck.cards, player1.View(), player2.View(), middle.cards)
    }

    /** `GameState::can_deal`. */
    method CanDeal() returns (b: bool)
      ensures b <==> Rules.CanDeal(View())
      ensures b <==> |deck.cards| >= 4
    {
      b := |deck.cards| >= 4;
    }

    /** `GameState::deal`: two passes, each popping four cards off the deck,
        the first two onto player 1's hand and the next two onto player 2's.
        The `expect`s cannot fail: the deck holds the eight cards. */
    method Deal()
      requires Valid() && |deck.cards| >= 8
      modifies deck, player1.hand, player2.hand
      ensures View() == Rules.Deal(old(View()))
    {
      var pass := 0;
      while pass < 2
        invariant pass <= 2
        invariant |old(View()).deck| >= 4 * pass
        invariant View() == Rules.DealPasses(old(View()), pass)
      {
        ghost var before := View();
        PassTwo(deck, player1.hand);
        PassTwo(deck, player2.hand);
        Rules.PrefixOfPrefix(before.deck, |before.deck| - 2, |before.deck| - 4);
        assert player1.View() == Rules.DealPass(before).player1;
        assert player2.View() == Rules.DealPass(before).player2;
        pass := pass + 1;
      }
    }
    /** One pass of the dealing loop of `FreshGame::start`: six cards popped
        off the deck, two each onto player 1's hand, the middle and player 2's
        hand.  The `expect`s cannot fail: the deck holds the six cards. */
    method StartPass()
      requires Valid() && |deck.cards| >= 6
      modifies deck, player1.hand, middle, player2.hand
      ensures View() == Rules.StartPass(old(View()))
    {
      ghost var before := View();
      ghost var n := |before.deck|;
      PassTwo(deck, player1.hand);
      PassTwo(deck, middle);
      PassTwo(deck, player2.hand);
      Rules.PrefixOfPrefix(before.deck, n - 2, n - 4);
      Rules.PrefixOfPrefix(before.deck, n - 4, n - 6);
      assert player1.View() == Rules.StartPass(before).player1;
      assert player2.View() == Rules.StartPass(before).player2;
    }
    /** The dealing loop of `FreshGame::start`: two passes. */
    method StartDeal()
      requires Valid() && |deck.cards| >= 12
      modifies deck, player1.hand, middle, player2.hand
      ensures View() == Rules.StartPasses(old(View()), 2)
    {
      var pass := 0;
      while pass < 2
        invariant pass <= 2
        invariant View() == Rules.StartPasses(old(View()), pass)
      {
        StartPass();
        pass := pass + 1;
      }
    }
  }

  /** `struct InProgressGame`: the table and the event log. */
  class InProgressGame {
    const gameState: GameState
    var events: seq<Rules.GameEvent>

    constructor (gameState: GameState, events: seq<Rules.GameEvent>)
      requires gameState.Valid() && Rules.Invariant(Rules.Game(gameState.View(), events))
      ensures this.gameState == gameState && this.events == events
      ensures View() == Rules.Game(old(gameState.View()), events)
      ensures Valid()
    {
      this.gameState := gameState;
      this.events := events;
    }

    /** The objects a play may change. */
    function Repr(): set<object> {
      {this, gameState.player1, gameState.player2} + gameState.AllDecks()
    }

    function View(): Rules.Game
      reads this, gameState.player1, gameState.player2, gameState.AllDecks()
    {
      Rules.Game(gameState.View(), events)
    }

    /** The table shares no object and the game keeps the invariant of `Rules`. */
    predicate Valid()
      reads this, gameState.player1, gameState.player2, gameState.AllDecks()
    {
      gameState.Valid() && Rules.Invariant(View())
    }

    /** `get_player_1_score`: the pile's score plus the wips. */
    function Player1Score(): (score: nat)
      reads gameState.player1, gameState.player1.hand, gameState.player1.scorePile
      ensures score >= gameState.player1.wipGains
      ensures gameState.player1.scorePile.cards == [] ==> score == gameState.player1.wipGains
    {
      Rules.PlayerScore(gameState.player1.View())
    }

    /** `get_player_2_score`: the pile's score plus the wips. */
    function Player2Score(): (score: nat)
      reads gameState.player2, gameState.player2.hand, gameState.player2.scorePile
      ensures score >= gameState.player2.wipGains
      ensures gameState.player2.scorePile.cards == [] ==> score == gameState.player2.wipGains
    {
      Rules.PlayerScore(gameState.player2.View())
    }

    /** `play_and_score`: while the middle holds a card of the played rank,
        take the first one and push it onto the score pile; then push the
        played card onto the pile if anything was taken, else onto the middle. */
    static method PlayAndScore(middle: Deck, scorePile: Deck, card: Card) returns (scored: bool)
      requires middle != scorePile
      modifies middle, scorePile
      ensures var r := Rules.PlayAndScore(old(middle.cards), old(scorePile.cards), card);
        middle.cards == r.middle && scorePile.cards == r.scorePile && scored == r.scored
    {
      scored := false;
      while true
        invariant Rules.Drain(middle.cards, scorePile.cards, card.number, scored)
          == Rules.Drain(old(middle.cards), old(scorePile.cards), card.number, false)
        decreases |middle.cards|
      {
        var matching := middle.TakeSameNumber(card);
        if matching.None? {
          break;
        }
        scored := true;
        scorePile.PushCard(matching.value);
      }
      if scored {
        scorePile.PushCard(card);
      } else {
        middle.PushCard(card);
      }
    }

    /** The deck work of one player's half of `play_card`: `play_and_score`
        against the player's pile, then one more wip if the middle is left
        empty. */
    static method PlayFor(player: Player, middle: Deck, card: Card) returns (scored: bool, wipped: bool)
      requires middle != player.hand && middle != player.scorePile && player.hand != player.scorePile
      modifies player, middle, player.scorePile
      ensures var r := Rules.PlayAndScore(old(middle.cards), old(player.scorePile.cards), card);
        && scored == r.scored && wipped == (r.middle == []) && middle.cards == r.middle
        && player.View() == Rules.Player(old(player.hand.cards), r.scorePile,
          if wipped then old(player.wipGains) + 1 else old(player.wipGains))
    {
      scored := PlayAndScore(middle, player.scorePile, card);
      wipped := middle.IsEmpty();
      if wipped {
        player.wipGains := player.wipGains + 1;
      }
    }

    /** One player's half of `play_card`: play the card against that player's
        pile, count a wip if the middle is left empty, and log the move. */
    method Move(seat: Rules.Seat, card: Card)
      requires gameState.Valid()
      modifies this, gameState.player1, gameState.player2, gameState.middle
      modifies gameState.player1.scorePile, gameState.player2.scorePile
      ensures View() == Rules.Move(old(View()), seat, card)
    {
      var scored, wipped := PlayAt(seat, card);
      LogMove(seat, scored, wipped);
    }

    /** The deck work of `Move` for the player in `seat`; what it reports
        decides the events `Move` logs. */
    method PlayAt(seat: Rules.Seat, card: Card) returns (scored: bool, wipped: bool)
      requires gameState.Valid()
      modifies gameState.player1, gameState.player2, gameState.middle
      modifies gameState.player1.scorePile, gameState.player2.scorePile
      ensures Rules.Game(gameState.View(), events + Rules.MoveEvents(seat, scored, wipped))
        == Rules.Move(old(View()), seat, card)
    {
      ghost var g := View();
      if seat == Rules.First {
        scored, wipped := PlayFor(gameState.player1, gameState.middle, card);
      } else {
        scored, wipped := PlayFor(gameState.player2, gameState.middle, card);
      }
      assert gameState.View() == Rules.Move(g, seat, card).state;
    }

    /** The events of one player's half of `play_card`, pushed one at a
        time: a capture, a wip, the play. */
    method LogMove(seat: Rules.Seat, scored: bool, wipped: bool)
      modifies this
      ensures events == old(events) + Rules.MoveEvents(seat, scored, wipped)
    {
      if scored {
        events := events + [Rules.ScoredEvent(seat)];
      }
      if wipped {
        events := events + [Rules.WippedEvent(seat)];
      }
      events := events + [Rules.PlayedEvent(seat)];
      MoveLogged(old(events), scored, wipped, seat);
    }

    /** The events `Move` pushes one at a time are `MoveEvents`. */
    static lemma MoveLogged(events: seq<Rules.GameEvent>, scored: bool, wipped: bool, seat: Rules.Seat)
      ensures (if scored then events + [Rules.ScoredEvent(seat)] else events)
        + (if wipped then [Rules.WippedEvent(seat)] else []) + [Rules.PlayedEvent(seat)]
        == events + Rules.MoveEvents(seat, scored, wipped)
    {
    }

    /** The `while let` loop at the end of the game: pop every middle card
        and push it onto `pile`. */
    static method Sweep(middle: Deck, pile: Deck)
      requires middle != pile
      modifies middle, pile
      ensures middle.cards == [] && pile.cards == old(pile.cards) + Reversed(old(middle.cards))
    {
      while true
        invariant pile.cards + Reversed(middle.cards) == old(pile.cards) + Reversed(old(middle.cards))
        decreases |middle.cards|
      {
        ghost var m := middle.cards;
        var top := middle.TakeTopCard();
        if top.None? {
          break;
        }
        assert Reversed(m) == [top.value] + Reversed(middle.cards);
        pile.PushCard(top.value);
      }
    }

    /** The end of the game in `play_card`: the `while let` loop that moves
        the middle onto `owner`'s pile. */
    method SweepTo(owner: Rules.Seat)
      requires gameState.Valid()
      modifies gameState.middle, gameState.player1.scorePile, gameState.player2.scorePile
      ensures gameState.View() == Rules.Sweep(old(gameState.View()), owner)
    {
      ghost var s := gameState.View();
      if owner == Rules.First {
        Sweep(gameState.middle, gameState.player1.scorePile);
        assert gameState.player1.View() == s.player1.(scorePile := s.player1.scorePile + Reversed(s.middle));
      } else {
        Sweep(gameState.middle, gameState.player2.scorePile);
        assert gameState.player2.View() == s.player2.(scorePile := s.player2.scorePile + Reversed(s.middle));
      }
    }

    /** The tail of `play_card` once both players have moved: when player 1's
        hand is empty, `RoundOver`, then a deal and `Dealt`, or, when the deck
        cannot deal, the end of the game.  The requires are what the
        `expect`s of this code need. */
    method EndOfTurn()
      requires gameState.Valid()
      requires |gameState.deck.cards| % 8 == 0
      requires gameState.player1.hand.cards == [] && |gameState.deck.cards| < 4 ==> Rules.HasScored(events)
      modifies this, gameState.player1, gameState.player2, gameState.AllDecks()
      ensures View() == Rules.EndOfTurn(old(View()))
    {
      var handEmpty := gameState.player1.hand.IsEmpty();
      if handEmpty {
        var canDeal := gameState.CanDeal();
        if canDeal {
          Rules.DealtInEights(|gameState.deck.cards|);
          gameState.Deal();
          events := events + [Rules.RoundOver, Rules.Dealt];
        } else {
          events := events + [Rules.RoundOver];
          var last := Rules.LastScored(events);
          var owner := Rules.RemainderPileAsWritten(last.value);
          SweepTo(owner);
          events := events + [Rules.GameOver];
          assert events == old(events) + [Rules.RoundOver, Rules.GameOver];
        }
      }
    }

    /** The two moves of `play_card`: player 1 plays `card`, then player 2
        pops the top card of their hand and plays it. */
    method BothMove(card: Card)
      requires gameState.Valid() && gameState.player2.hand.cards != []
      modifies this, gameState.player1, gameState.player2, gameState.middle, gameState.player2.hand
      modifies gameState.player1.scorePile, gameState.player2.scorePile
      ensures View() == Rules.BothMove(old(View()), card)
    {
      Move(Rules.First, card);
      ghost var g1 := View();
      var second := gameState.player2.hand.TakeTopCard();
      assert View() == Rules.PopSecond(g1);
      Move(Rules.Second, second.value);
    }

    /** `InProgressGame::play_card`.  The source consumes the game and hands
        it back only on success; here the game is changed in place and the
        result says whether the play was accepted.  A refused play changes
        nothing. */
    method PlayCard(card: Card) returns (accepted: bool)
      requires Valid()
      modifies Repr()
      ensures Valid()
      ensures accepted <==> card in old(gameState.player1.hand.cards)
      ensures accepted <==> Rules.PlayCard(old(View()), card).Some?
      ensures accepted ==> View() == Rules.PlayCard(old(View()), card).value
      ensures !accepted ==> View() == old(View())
    {
      ghost var g := View();
      Rules.PlayRefusedIff(g, card);
      var taken := gameState.player1.hand.TakeSameCard(card);
      if taken.None? {
        accepted := false;
        return;
      }
      assert View() == Rules.TakeFromFirst(g, card);
      PlayTaken(g, card);
      accepted := true;
    }

    /** The rest of an accepted `play_card` once player 1's card is out of
        the hand: both moves, then the end-of-round logic. */
    method PlayTaken(ghost g: Rules.Game, card: Card)
      requires gameState.Valid() && Rules.Invariant(g) && card in g.state.player1.hand
      requires View() == Rules.TakeFromFirst(g, card)
      modifies Repr()
      ensures View() == Rules.PlayCard(g, card).value
    {
      Rules.TurnKeeps(g, card);
      BothMove(card);
      assert View() == Rules.Turn(g, card);
      Rules.EndOfTurnReady(View());
      EndOfTurn();
    }
  }

  /** `struct FreshGame`: a game set up with a seed but not started. */
  class FreshGame {
    const seed: Shuffling.U64

    /** `FreshGame::new`. */
    constructor New(seed: Shuffling.U64)
      ensures this.seed == seed
    {
      this.seed := seed;
    }

    /** The table `FreshGame::start` deals from: a new deck shuffled with
        the seed, an empty middle and two new players. */
    method ShuffledTable() returns (gameState: GameState)
      ensures fresh(gameState) && fresh(gameState.player1) && fresh(gameState.player2)
      ensures fresh(gameState.AllDecks())
      ensures gameState.Valid()
      ensures gameState.View() == Rules.Table(seed)
    {
      var deck := new Deck.New();
      var middle := new Deck.Empty();
      var player1 := new Player.New();
      var player2 := new Player.New();
      gameState := new GameState(deck, player1, player2, middle);
      deck.Shuffle(seed);
    }

    /** The table of `FreshGame::start` after its dealing loop: two passes
        of two cards each to player 1, the middle and player 2.  The
        `expect`s cannot fail: the deck holds 52 cards. */
    method DealtTable() returns (gameState: GameState)
      ensures fresh(gameState) && fresh(gameState.player1) && fresh(gameState.player2)
      ensures fresh(gameState.AllDecks())
      ensures gameState.Valid()
      ensures gameState.View() == Rules.Start(seed).state
    {
      gameState := ShuffledTable();
      ghost var table := gameState.View();
      gameState.StartDeal();
      assert gameState.View() == Rules.StartPasses(table, 2);
    }

    /** `FreshGame::start`: the dealt table and the events `Started`,
        `Shuffled`, `Dealt`. */
    method Start() returns (game: InProgressGame)
      ensures fresh(game) && fresh(game.gameState) && fresh(game.gameState.player1) && fresh(game.gameState.player2)
      ensures fresh(game.gameState.AllDecks())
      ensures game.Valid()
      ensures game.View() == Rules.Start(seed)
    {
      var events := [Rules.Started];
      var gameState := DealtTable();
      events := events + [Rules.Shuffled];
      events := events + [Rules.Dealt];
      assert events == Rules.Start(seed).events;
      Rules.StartEstablishes(seed);
      game := new InProgressGame(gameState, events);
    }
  }

  /** Two rounds of popping the top card of `from` and pushing it onto `to`,
      as the dealing loops do.  The `expect`s cannot fail: `from` holds the
      two cards. */
  method PassTwo(from: Deck, to: Deck)
    requires from != to && |from.cards| >= 2
    modifies from, to
    ensures var d := old(from.cards);
      from.cards == d[..|d| - 2] && to.cards == old(to.cards) + [d[|d| - 1], d[|d| - 2]]
  {
    var c1 := from.TakeTopCard();
    to.PushCard(c1.value);
    var c2 := from.TakeTopCard();
    to.PushCard(c2.value);
    assert old(from.cards) == from.cards + [c2.value] + [c1.value];
  }
}
