/**
 * Cards of a single 52-card deck: four suits, thirteen ranks, and the
 * points each rank contributes to a hand.
 */
module Cards {

  datatype Suit = Spades | Hearts | Diamonds | Clubs

  datatype Rank = Ace | Two | Three | Four | Five | Six | Seven | Eight | Nine | Ten | Jack | Queen | King

  /** A card is nothing but its rank and suit; two equal cards are indistinguishable. */
  datatype Card = Card(rank: Rank, suit: Suit)

  /** A hand is the ordered sequence of cards dealt to it. */
  type Hand = seq<Card>

  /** Suits in the order the deck is built. */
  const Suits: seq<Suit> := [Spades, Hearts, Diamonds, Clubs]

  /** Ranks in the order the deck is built within each suit. */
  const Ranks: seq<Rank> := [Ace, Two, Three, Four, Five, Six, Seven, Eight, Nine, Ten, Jack, Queen, King]

  /** Position of a suit in `Suits`. */
  function SuitIndex(s: Suit): (k: nat)
    ensures k < |Suits| && Suits[k] == s
  {
    match s
    case Spades => 0
    case Hearts => 1
    case Diamonds => 2
    case Clubs => 3
  }

  /** Position of a rank in `Ranks`. */
  function RankIndex(r: Rank): (k: nat)
    ensures k < |Ranks| && Ranks[k] == r
  {
    match r
    case Ace => 0
    case Two => 1
    case Three => 2
    case Four => 3
    case Five => 4
    case Six => 5
    case Seven => 6
    case Eight => 7
    case Nine => 8
    case Ten => 9
    case Jack => 10
    case Queen => 11
    case King => 12
  }

  /** Positions and suits are in one-to-one correspondence. */
  lemma SuitIndexInverse(k: nat)
    requires k < |Suits|
    ensures SuitIndex(Suits[k]) == k
  {
  }

  /** Positions and ranks are in one-to-one correspondence. */
  lemma RankIndexInverse(k: nat)
    requires k < |Ranks|
    ensures RankIndex(Ranks[k]) == k
  {
  }

  /** Ranks worth ten points. */
  predicate TenValued(r: Rank) {
    r == Ten || r == Jack || r == Queen || r == King
  }

  /** Points of a rank when an ace is counted high (11). */
  function SoftPoints(r: Rank): (p: nat)
    ensures 2 <= p <= 11
    ensures p == 11 <==> r == Ace
    ensures p == 10 <==> TenValued(r)
  {
    match r
    case Ace => 11
    case Two => 2
    case Three => 3
    case Four => 4
    case Five => 5
    case Six => 6
    case Seven => 7
    case Eight => 8
    case Nine => 9
    case Ten => 10
    case Jack => 10
    case Queen => 10
    case King => 10
  }

  /** Points of a rank when an ace is counted low (1). */
  function HardPoints(r: Rank): (p: nat)
    ensures 1 <= p <= 10
    ensures p == 1 <==> r == Ace
    ensures r != Ace ==> p == SoftPoints(r)
  {
    if r == Ace then 1 else SoftPoints(r)
  }
}
