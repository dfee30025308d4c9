/** `struct Deck` of src/lib.rs: a vector of cards whose end is the top.
    Every operation changes the vector in place the way the corresponding
    `Vec` method does, and is proved to agree with the card functions of
    `Cards`. */
module Decks {
  import opened Cards
  import Shuffling = Shuffle

  /** The new deck after the first `i` ranks: their four suits each, in order. */
  lemma StandardDeckStep(i: nat)
    requires 1 <= i <= 13
    ensures StandardDeck()[..4 * i] == StandardDeck()[..4 * (i - 1)]
      + [Card(Hearts, i), Card(Diamonds, i), Card(Clubs, i), Card(Spades, i)]
  {
    var d := StandardDeck();
    var step := [Card(Hearts, i), Card(Diamonds, i), Card(Clubs, i), Card(Spades, i)];
    forall k | 0 <= k < 4 ensures d[4 * (i - 1) + k] == step[k] {
      assert (4 * (i - 1) + k) / 4 == i - 1 && (4 * (i - 1) + k) % 4 == k;
    }
    assert d[..4 * i] == d[..4 * (i - 1)] + step;
  }

  class Deck {
    var cards: seq<Card>

    /** `Deck::empty`. */
    constructor Empty()
      ensures cards == []
    {
      cards := [];
    }

    /** `Deck::new`: for each rank from 1 to 13 one card of each suit, Hearts,
        Diamonds, Clubs, Spades, pushed in that order. */
    constructor New()
      ensures cards == StandardDeck()
      ensures |cards| == 52
      ensures forall c :: c in cards <==> IsStandard(c)
    {
      var cs: seq<Card> := [];
      var i := 1;
      while i <= 13
        invariant 1 <= i <= 14
        invariant cs == StandardDeck()[..4 * (i - 1)]
      {
        StandardDeckStep(i);
        cs := cs + [Card(Hearts, i), Card(Diamonds, i), Card(Clubs, i), Card(Spades, i)];
        i := i + 1;
      }
      cards := cs;
      StandardDeckIsComplete();
    }

    /** `Deck::shuffle`: the seeded chunk shuffle with `ShuffleIterations`
        rounds.  The shuffle cannot chunk fewer than five cards. */
    method Shuffle(seed: Shuffling.U64)
      requires |cards| >= Shuffling.NrOfChunks
      modifies this
      ensures cards == Shuffling.Shuffled(old(cards), seed, ShuffleIterations)
      ensures multiset(cards) == multiset(old(cards))
    {
      var a := new Card[|cards|](i requires 0 <= i < |cards| reads this => cards[i]);
      assert a[..] == cards;
      Shuffling.ShuffleInPlace(a, seed, ShuffleIterations);
      cards := a[..];
    }

    /** `take_top_card`: `pop`, which removes the last card. */
    method TakeTopCard() returns (r: Option<Card>)
      modifies this
      ensures r.None? <==> old(cards) == []
      ensures r.None? ==> cards == old(cards)
      ensures r.Some? ==> old(cards) == cards + [r.value]
    {
      if cards == [] {
        r := None;
      } else {
        r := Some(cards[|cards| - 1]);
        cards := cards[..|cards| - 1];
      }
    }

    /** `take_same_card`: `position` of the first equal card, then
        `swap_remove`. */
    method TakeSameCard(card: Card) returns (r: Option<Card>)
      modifies this
      ensures Taken(r, cards) == TakeFirst(old(cards), SameCard(card))
      ensures r.None? <==> card !in old(cards)
      ensures r.None? ==> cards == old(cards)
      ensures r.Some? ==> r.value == card && multiset(cards) == multiset(old(cards)) - multiset{card}
    {
      TakeSameCardFinds(cards, card);
      match Position(cards, SameCard(card))
      case None =>
        r := None;
      case Some(i) =>
        r := Some(cards[i]);
        cards := SwapRemove(cards, i);
    }

    /** `take_same_number`: `position` of the first card of the same rank,
        then `swap_remove`. */
    method TakeSameNumber(card: Card) returns (r: Option<Card>)
      modifies this
      ensures Taken(r, cards) == TakeFirst(old(cards), SameNumber(card.number))
      ensures r.None? <==> forall c :: c in old(cards) ==> c.number != card.number
      ensures r.None? ==> cards == old(cards)
      ensures r.Some? ==> r.value.number == card.number && r.value in old(cards)
      ensures r.Some? ==> |cards| == |old(cards)| - 1
      ensures r.Some? ==> multiset(cards) + multiset{r.value} == multiset(old(cards))
    {
      match Position(cards, SameNumber(card.number))
      case None =>
        r := None;
      case Some(i) =>
        r := Some(cards[i]);
        cards := SwapRemove(cards, i);
    }

    /** `push_card`: `push`, which adds on top. */
    method PushCard(card: Card)
      modifies this
      ensures cards == old(cards) + [card]
    {
      cards := cards + [card];
    }

    /** `is_empty`. */
    method IsEmpty() returns (b: bool)
      ensures b <==> cards == []
    {
      b := cards == [];
    }
  }
}
