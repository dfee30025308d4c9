/** Card values, the searches and removals the deck performs on its card
    sequence, and the scoring rule for a score pile (src/lib.rs). */
module Cards {

  datatype Option<T> = None | Some(value: T)

  datatype Suit = Hearts | Diamonds | Clubs | Spades

  /** The source's `CardNumber(u8)`: 1 is the ace, 13 the king. */
  type CardNumber = n: int | 0 <= n < 256

  datatype Card = Card(suit: Suit, number: CardNumber)

  /** A card that belongs to the standard 52-card deck. */
  predicate IsStandard(c: Card) {
    1 <= c.number <= 13
  }

  /** The order in which `Deck::new` pushes the four suits of each rank. */
  const SuitOrder: seq<Suit> := [Hearts, Diamonds, Clubs, Spades]

  function SuitIndex(s: Suit): (i: nat)
    ensures i < 4 && SuitOrder[i] == s
  {
    match s
    case Hearts => 0
    case Diamonds => 1
    case Clubs => 2
    case Spades => 3
  }

  /** The deck `Deck::new` builds: rank-major, suits in `SuitOrder`. */
  function StandardDeck(): (d: seq<Card>)
    ensures |d| == 52
  {
    seq(52, i requires 0 <= i < 52 => Card(SuitOrder[i % 4], i / 4 + 1))
  }

  /** The standard deck holds every standard card, nothing else, and no card twice. */
  lemma StandardDeckIsComplete()
    ensures forall c :: c in StandardDeck() <==> IsStandard(c)
    ensures forall i, j :: 0 <= i < j < 52 ==> StandardDeck()[i] != StandardDeck()[j]
  {
    var d := StandardDeck();
    forall c | IsStandard(c) ensures c in d {
      var i := (c.number - 1) * 4 + SuitIndex(c.suit);
      assert i % 4 == SuitIndex(c.suit) && i / 4 == c.number - 1;
      assert d[i] == c;
    }
    forall i, j | 0 <= i < j < 52 ensures d[i] != d[j] {
      if i / 4 == j / 4 {
        assert i % 4 != j % 4;
        assert SuitOrder[i % 4] != SuitOrder[j % 4];
      }
    }
  }

  /** The iteration count `Deck::shuffle` hands to the shuffle. */
  const ShuffleIterations: nat := 9128

  /** A card filter: the closures the source passes to `position` and `filter`. */
  datatype Matcher = SameCard(card: Card) | SameNumber(number: CardNumber) | SameSuit(suit: Suit)

  predicate Matches(m: Matcher, c: Card) {
    match m
    case SameCard(x) => c == x
    case SameNumber(n) => c.number == n
    case SameSuit(s) => c.suit == s
  }

  /** `iter().position(..)`: the first index whose card matches. */
  function Position(s: seq<Card>, m: Matcher): (r: Option<nat>)
    ensures r.None? <==> forall k :: 0 <= k < |s| ==> !Matches(m, s[k])
    ensures r.Some? ==> r.value < |s| && Matches(m, s[r.value])
    ensures r.Some? ==> forall k :: 0 <= k < r.value ==> !Matches(m, s[k])
  {
    if s == [] then None
    else if Matches(m, s[0]) then Some(0)
    else match Position(s[1..], m)
      case None => None
      case Some(i) => Some(i + 1)
  }

  /** `Vec::swap_remove`: the last element moves into the vacated index. */
  function SwapRemove<T>(s: seq<T>, i: nat): (r: seq<T>)
    requires i < |s|
    ensures |r| == |s| - 1
    ensures i < |r| ==> r[i] == s[|s| - 1]
    ensures forall k :: 0 <= k < |r| && k != i ==> r[k] == s[k]
    ensures multiset(r) + multiset{s[i]} == multiset(s)
  {
    if i == |s| - 1 then
      assert s == s[..i] + [s[i]];
      s[..i]
    else
      assert s == s[..i] + [s[i]] + s[i + 1..|s| - 1] + [s[|s| - 1]];
      s[..i] + [s[|s| - 1]] + s[i + 1..|s| - 1]
  }

  /** The outcome of removing a card from a deck: the card, if any, and what remains. */
  datatype Taken = Taken(card: Option<Card>, rest: seq<Card>)

  /** `take_same_card` / `take_same_number`: `position` then `swap_remove`. */
  function TakeFirst(s: seq<Card>, m: Matcher): (r: Taken)
    ensures r.card.None? <==> forall c :: c in s ==> !Matches(m, c)
    ensures r.card.None? ==> r.rest == s
    ensures r.card.Some? ==> Matches(m, r.card.value) && |r.rest| == |s| - 1
    ensures r.card.Some? ==> multiset(r.rest) + multiset{r.card.value} == multiset(s)
  {
    match Position(s, m)
    case None => Taken(None, s)
    case Some(i) => Taken(Some(s[i]), SwapRemove(s, i))
  }

  /** `take_same_card` finds the card exactly when the deck holds it. */
  lemma TakeSameCardFinds(s: seq<Card>, card: Card)
    ensures TakeFirst(s, SameCard(card)).card.None? <==> card !in s
    ensures card in s ==> TakeFirst(s, SameCard(card)).card == Some(card)
    ensures card in s ==>
      multiset(TakeFirst(s, SameCard(card)).rest) == multiset(s) - multiset{card}
  {
    if card in s {
      var i :| 0 <= i < |s| && s[i] == card;
      assert !(forall k :: 0 <= k < |s| ==> !Matches(SameCard(card), s[k]));
    }
  }

  /** `iter().filter(..).count()`. */
  function Count(s: seq<Card>, m: Matcher): (n: nat)
    ensures n <= |s|
  {
    if s == [] then 0 else (if Matches(m, s[0]) then 1 else 0) + Count(s[1..], m)
  }

  lemma {:induction false} CountAppend(s: seq<Card>, t: seq<Card>, m: Matcher)
    ensures Count(s + t, m) == Count(s, m) + Count(t, m)
  {
    if s != [] {
      assert (s + t)[1..] == s[1..] + t;
      CountAppend(s[1..], t, m);
    } else {
      assert s + t == t;
    }
  }

  /** Removing the card at index `p` lowers the count by one exactly when it matches. */
  lemma CountRemove(t: seq<Card>, p: nat, m: Matcher)
    requires p < |t|
    ensures Count(t, m) == Count(t[..p] + t[p + 1..], m) + (if Matches(m, t[p]) then 1 else 0)
    ensures multiset(t[..p] + t[p + 1..]) == multiset(t) - multiset{t[p]}
  {
    assert t == t[..p] + [t[p]] + t[p + 1..];
    CountAppend(t[..p] + [t[p]], t[p + 1..], m);
    CountAppend(t[..p], [t[p]], m);
    CountAppend(t[..p], t[p + 1..], m);
  }

  lemma HeadTail<T>(s: seq<T>)
    requires s != []
    ensures s == [s[0]] + s[1..] && multiset(s) == multiset{s[0]} + multiset(s[1..])
  {
  }

  /** A count depends only on which cards are present, not on their order. */
  lemma {:induction false} CountPermutation(s: seq<Card>, t: seq<Card>, m: Matcher)
    requires multiset(s) == multiset(t)
    ensures Count(s, m) == Count(t, m)
    decreases |s|
  {
    if s == [] {
      assert |multiset(t)| == 0;
    } else {
      var x := s[0];
      assert x in multiset(s);
      assert x in t;
      var p :| 0 <= p < |t| && t[p] == x;
      var s', t' := s[1..], t[..p] + t[p + 1..];
      CountRemove(t, p, m);
      HeadTail(s);
      assert multiset(s') == multiset(t');
      CountPermutation(s', t', m);
      assert Count(s, m) == (if Matches(m, x) then 1 else 0) + Count(s', m);
    }
  }

  const TwoOfSpades := Card(Spades, 2)
  const TenOfDiamonds := Card(Diamonds, 10)

  /** `Deck::count_score`: one per ace, one per two of spades, two per ten of
      diamonds, two for more than 26 cards, two for at least seven spades. */
  function Score(pile: seq<Card>): (n: nat)
    ensures pile == [] ==> n == 0
    ensures n >= Count(pile, SameNumber(1))
  {
    Count(pile, SameNumber(1))
    + Count(pile, SameCard(TwoOfSpades))
    + Count(pile, SameCard(TenOfDiamonds)) * 2
    + (if |pile| > 26 then 2 else 0)
    + (if Count(pile, SameSuit(Spades)) >= 7 then 2 else 0)
  }

  /** The score is a function of the pile's multiset of cards. */
  lemma ScoreIgnoresOrder(s: seq<Card>, t: seq<Card>)
    requires multiset(s) == multiset(t)
    ensures Score(s) == Score(t)
  {
    assert |s| == |multiset(s)| == |t|;
    CountPermutation(s, t, SameNumber(1));
    CountPermutation(s, t, SameCard(TwoOfSpades));
    CountPermutation(s, t, SameCard(TenOfDiamonds));
    CountPermutation(s, t, SameSuit(Spades));
  }

  /** Adding cards to a pile never lowers its score. */
  lemma ScoreGrows(s: seq<Card>, t: seq<Card>)
    ensures Score(s) <= Score(s + t)
  {
    CountAppend(s, t, SameNumber(1));
    CountAppend(s, t, SameCard(TwoOfSpades));
    CountAppend(s, t, SameCard(TenOfDiamonds));
    CountAppend(s, t, SameSuit(Spades));
  }

  /** The ranks present in a sequence of cards. */
  function Numbers(s: seq<Card>): set<CardNumber> {
    set c | c in s :: c.number
  }

  lemma NumbersAppend(s: seq<Card>, c: Card)
    ensures Numbers(s + [c]) == Numbers(s) + {c.number}
  {
    assert forall x :: x in s + [c] <==> x in s || x == c;
  }

  /** A set of ranks between 1 and 13 has at most thirteen members. */
  lemma ThirteenRanks(a: set<int>)
    requires forall x :: x in a ==> 1 <= x <= 13
    ensures |a| <= 13
  {
    var ranks: set<int> := {1, 2, 3, 4, 5, 6, 7, 8, 9, 10, 11, 12, 13};
    forall x | x in a ensures x in ranks {
      assert 1 <= x <= 13;
    }
    assert a * ranks == a && a - ranks == {};
    assert |ranks| == 13;
  }

  /** Standard cards show at most thirteen ranks. */
  lemma RanksAtMost13(s: seq<Card>)
    requires forall c :: c in s ==> IsStandard(c)
    ensures |Numbers(s)| <= 13
  {
    ThirteenRanks(Numbers(s));
  }

  /** A non-empty sequence shows at least one rank. */
  lemma RanksAtLeastOne(s: seq<Card>)
    requires s != []
    ensures |Numbers(s)| >= 1
  {
    assert s[0].number in Numbers(s);
  }

  /** The order in which popping every card off a deck and pushing it onto
      another transfers the cards: last card first. */
  function Reversed<T>(s: seq<T>): (r: seq<T>)
    ensures |r| == |s|
    ensures multiset(r) == multiset(s)
  {
    if s == [] then []
    else
      assert s == s[..|s| - 1] + [s[|s| - 1]];
      [s[|s| - 1]] + Reversed(s[..|s| - 1])
  }

  /** Element `k` of the reversal is the `k`-th card from the end. */
  lemma {:induction false} ReversedAt<T>(s: seq<T>, k: nat)
    requires k < |s|
    ensures Reversed(s)[k] == s[|s| - 1 - k]
    decreases |s|
  {
    if k > 0 {
      ReversedAt(s[..|s| - 1], k - 1);
    }
  }
}
