/**
 * The deck: 52 cards built suit by suit in a fixed order, then shuffled by
 * Fisher-Yates. The random index of each swap is supplied by the caller
 * as a list of picks. The deck is a stack: a draw takes the LAST card.
 */
module Deck {
  import opened Cards

  const DeckSize: nat := 52

  /** The unshuffled deck: spades A..K, then hearts, diamonds, clubs. */
  function FreshDeck(): (d: seq<Card>)
    ensures |d| == DeckSize
  {
    seq(DeckSize, k requires 0 <= k < DeckSize => Card(Ranks[k % 13], Suits[k / 13]))
  }

  /** Where a card sits in the unshuffled deck. */
  function DeckIndex(c: Card): (k: nat)
    ensures k < DeckSize && FreshDeck()[k] == c
  {
    SuitIndex(c.suit) * 13 + RankIndex(c.rank)
  }

  /** No card occurs twice in the unshuffled deck. */
  lemma FreshDeckDistinct()
    ensures forall a, b :: 0 <= a < b < DeckSize ==> FreshDeck()[a] != FreshDeck()[b]
  {
    forall a, b | 0 <= a < b < DeckSize
      ensures FreshDeck()[a] != FreshDeck()[b]
    {
      RankIndexInverse(a % 13);
      RankIndexInverse(b % 13);
      SuitIndexInverse(a / 13);
      SuitIndexInverse(b / 13);
    }
  }

  /** In a sequence without repeats, every element occurs once and nothing else occurs. */
  lemma {:induction false} DistinctCounts<T>(s: seq<T>, x: T)
    requires forall a, b :: 0 <= a < b < |s| ==> s[a] != s[b]
    ensures multiset(s)[x] == (if x in s then 1 else 0)
  {
    if |s| > 0 {
      var init := s[..|s| - 1];
      assert s == init + [s[|s| - 1]];
      DistinctCounts(init, x);
      assert s[|s| - 1] !in init;
    }
  }

  /** The unshuffled deck holds each of the 52 (rank, suit) pairs exactly once. */
  lemma FreshDeckComplete()
    ensures forall c: Card :: multiset(FreshDeck())[c] == 1
  {
    forall c: Card
      ensures multiset(FreshDeck())[c] == 1
    {
      FreshDeckDistinct();
      DistinctCounts(FreshDeck(), c);
      assert FreshDeck()[DeckIndex(c)] == c;
    }
  }

  /** Exchange the cards at positions i and j. */
  function Swap<T>(s: seq<T>, i: nat, j: nat): (r: seq<T>)
    requires i < |s| && j < |s|
    ensures |r| == |s|
    ensures r[i] == s[j] && r[j] == s[i]
    ensures forall k :: 0 <= k < |s| && k != i && k != j ==> r[k] == s[k]
    ensures multiset(r) == multiset(s)
  {
    s[i := s[j]][j := s[i]]
  }

  /** Picks for the steps i = 1 .. n-1 of Fisher-Yates: the pick for step i lies in [0, i]. */
  predicate PicksFit(picks: seq<nat>, n: nat) {
    n <= |picks| + 1 && forall k :: 0 <= k < |picks| ==> picks[k] <= k + 1
  }

  /**
   * Fisher-Yates from position i down to 1: swap position i with the pick
   * for step i, then continue with i - 1.
   */
  function ShuffleDown<T>(s: seq<T>, picks: seq<nat>, i: nat): (r: seq<T>)
    requires i < |s| && i <= |picks|
    requires forall k :: 0 <= k < i ==> picks[k] <= k + 1
    ensures |r| == |s|
    ensures multiset(r) == multiset(s)
    decreases i
  {
    if i == 0 then s else ShuffleDown(Swap(s, i, picks[i - 1]), picks, i - 1)
  }

  /** A shuffled copy of a deck; an empty deck stays empty. */
  function Shuffle<T>(s: seq<T>, picks: seq<nat>): (r: seq<T>)
    requires PicksFit(picks, |s|)
    ensures |r| == |s|
    ensures multiset(r) == multiset(s)
  {
    if |s| == 0 then s else ShuffleDown(s, picks, |s| - 1)
  }

  /** A freshly built and shuffled 52-card deck. */
  function CreateDeck(picks: seq<nat>): (d: seq<Card>)
    requires PicksFit(picks, DeckSize)
    ensures |d| == DeckSize
    ensures multiset(d) == multiset(FreshDeck())
  {
    Shuffle(FreshDeck(), picks)
  }

  /** Whatever the picks, a new deck holds every (rank, suit) pair exactly once. */
  lemma CreateDeckComplete(picks: seq<nat>)
    requires PicksFit(picks, DeckSize)
    ensures |CreateDeck(picks)| == DeckSize
    ensures forall c: Card :: multiset(CreateDeck(picks))[c] == 1
  {
    FreshDeckComplete();
  }

  /** The top card of a non-empty deck. */
  function Top(deck: seq<Card>): Card
    requires |deck| > 0
  {
    deck[|deck| - 1]
  }

  /** The deck after the top card is drawn. */
  function Rest(deck: seq<Card>): (rest: seq<Card>)
    requires |deck| > 0
    ensures rest + [Top(deck)] == deck
    ensures multiset(rest) + multiset{Top(deck)} == multiset(deck)
  {
    deck[..|deck| - 1]
  }
}
