/**
 * Payout calculation. Every hand is judged on its own against the one final
 * dealer value. Its stake is the base bet, or twice that if the hand was
 * doubled. A payout returns the stake as well, because the stake was already
 * taken from the balance when it was placed.
 */
module Settlement {
  import opened Cards
  import opened Hands

  /** How one player hand fared against the dealer. */
  datatype Outcome = PlayerBust | DealerBust | PlayerWins | DealerWins | Push

  /** Judge a player value against the dealer value; a player bust loses even if the dealer busts too. */
  function Judge(playerValue: int, dealerValue: int): (o: Outcome)
    ensures o == PlayerBust <==> playerValue > 21
    ensures o == DealerBust <==> playerValue <= 21 && dealerValue > 21
    ensures o == PlayerWins <==> playerValue <= 21 && dealerValue <= 21 && playerValue > dealerValue
    ensures o == DealerWins <==> playerValue <= 21 && dealerValue <= 21 && playerValue < dealerValue
    ensures o == Push <==> playerValue <= 21 && dealerValue <= 21 && playerValue == dealerValue
  {
    if playerValue > 21 then PlayerBust
    else if dealerValue > 21 then DealerBust
    else if playerValue > dealerValue then PlayerWins
    else if playerValue < dealerValue then DealerWins
    else Push
  }

  /** What an outcome pays on a given stake: double it on a win, return it on a push. */
  function Payout(o: Outcome, stake: int): (p: int)
    ensures p == 0 || p == stake || p == 2 * stake
  {
    match o
    case PlayerBust => 0
    case DealerBust => 2 * stake
    case PlayerWins => 2 * stake
    case DealerWins => 0
    case Push => stake
  }

  /** The stake riding on hand `i`: twice the base bet if the hand was doubled. */
  function Stake(bet: int, doubled: set<int>, i: int): (s: int)
    ensures s == bet || s == 2 * bet
    ensures bet >= 0 ==> bet <= s <= 2 * bet
    ensures s != bet ==> i in doubled
  {
    if i in doubled then 2 * bet else bet
  }

  /** What hand `i` pays at settlement. */
  function HandPayout(hand: Hand, i: int, doubled: set<int>, dealerValue: int, bet: int): (p: int)
    ensures HandValue(hand) > 21 ==> p == 0
    ensures HandValue(hand) <= 21 && dealerValue > 21 ==> p == 2 * Stake(bet, doubled, i)
    ensures bet >= 0 ==> 0 <= p <= 2 * Stake(bet, doubled, i)
  {
    Payout(Judge(HandValue(hand), dealerValue), Stake(bet, doubled, i))
  }

  /** Per-hand payouts, in hand order. */
  function Payouts(hands: seq<Hand>, doubled: set<int>, dealerValue: int, bet: int): (ps: seq<int>)
    ensures |ps| == |hands|
    ensures forall i :: 0 <= i < |hands| ==> ps[i] == HandPayout(hands[i], i, doubled, dealerValue, bet)
  {
    if |hands| == 0 then []
    else
      var n := |hands| - 1;
      Payouts(hands[..n], doubled, dealerValue, bet) + [HandPayout(hands[n], n, doubled, dealerValue, bet)]
  }

  /** Sum of a list of amounts. */
  function Sum(xs: seq<int>): int {
    if |xs| == 0 then 0 else Sum(xs[..|xs| - 1]) + xs[|xs| - 1]
  }

  /** Sum of the stakes riding on hands 0 .. n-1. */
  function StakeTotal(n: nat, doubled: set<int>, bet: int): int {
    if n == 0 then 0 else StakeTotal(n - 1, doubled, bet) + Stake(bet, doubled, n - 1)
  }

  /**
   * Total paid out for a finished round that went to the dealer: the sum of
   * the hands' payouts, between nothing and twice the total stake.
   */
  function TotalPayout(hands: seq<Hand>, doubled: set<int>, dealerValue: int, bet: int): (t: int)
    ensures bet >= 0 ==> 0 <= t <= 2 * StakeTotal(|hands|, doubled, bet)
  {
    if |hands| == 0 then 0
    else
      var n := |hands| - 1;
      TotalPayout(hands[..n], doubled, dealerValue, bet) + HandPayout(hands[n], n, doubled, dealerValue, bet)
  }

  /** The per-hand payouts, reported in order, add up to the round's total payout. */
  lemma {:induction false} PayoutsSumToTotal(hands: seq<Hand>, doubled: set<int>, dealerValue: int, bet: int)
    ensures Sum(Payouts(hands, doubled, dealerValue, bet)) == TotalPayout(hands, doubled, dealerValue, bet)
  {
    if |hands| > 0 {
      var n := |hands| - 1;
      var ps := Payouts(hands, doubled, dealerValue, bet);
      assert ps[..n] == Payouts(hands[..n], doubled, dealerValue, bet);
      PayoutsSumToTotal(hands[..n], doubled, dealerValue, bet);
    }
  }

  /** A natural pays 3:2 rounded down, plus the bet back. */
  function NaturalPayout(bet: int): (p: int)
    ensures 2 * (p - bet) <= 3 * bet < 2 * (p - bet) + 2
  {
    (3 * bet) / 2 + bet
  }

  /**
   * The payout table, both directions: on a positive stake a hand is paid
   * double exactly when it stands and beats the dealer or the dealer busts,
   * the stake back exactly on a tie, and nothing exactly when it busts or
   * falls short.
   */
  lemma PayoutTable(pv: int, dv: int, stake: int)
    requires stake > 0
    ensures Payout(Judge(pv, dv), stake) == 2 * stake <==> pv <= 21 && (dv > 21 || pv > dv)
    ensures Payout(Judge(pv, dv), stake) == stake <==> pv <= 21 && dv <= 21 && pv == dv
    ensures Payout(Judge(pv, dv), stake) == 0 <==> pv > 21 || (dv <= 21 && pv < dv)
  {
  }

  /** Among standing hands, a higher value is never paid less. */
  lemma PayoutMonotone(pv1: int, pv2: int, dv: int, stake: int)
    requires pv1 <= pv2 <= 21 && stake >= 0
    ensures Payout(Judge(pv1, dv), stake) <= Payout(Judge(pv2, dv), stake)
  {
  }

  /** A doubled hand's stake is twice the base bet; any other hand's stake is the base bet. */
  lemma {:induction false} StakeTotalBounds(n: nat, doubled: set<int>, bet: int)
    requires bet >= 0
    ensures n * bet <= StakeTotal(n, doubled, bet) <= 2 * n * bet
  {
    if n > 0 {
      StakeTotalBounds(n - 1, doubled, bet);
      assert n * bet == (n - 1) * bet + bet;
      assert 2 * n * bet == 2 * (n - 1) * bet + 2 * bet;
    }
  }

  /** Marking a hand at or beyond `n` as doubled does not change the stakes of hands 0 .. n-1. */
  lemma {:induction false} StakeTotalIgnoresBeyond(n: nat, doubled: set<int>, i: int, bet: int)
    requires i >= n
    ensures StakeTotal(n, doubled + {i}, bet) == StakeTotal(n, doubled, bet)
  {
    if n > 0 {
      StakeTotalIgnoresBeyond(n - 1, doubled, i, bet);
    }
  }

  /** Doubling one more hand below `n` adds exactly one base bet to the stakes. */
  lemma {:induction false} StakeTotalAddDouble(n: nat, doubled: set<int>, i: int, bet: int)
    requires 0 <= i < n && i !in doubled
    ensures StakeTotal(n, doubled + {i}, bet) == StakeTotal(n, doubled, bet) + bet
  {
    if n - 1 != i {
      StakeTotalAddDouble(n - 1, doubled, i, bet);
    } else {
      StakeTotalIgnoresBeyond(n - 1, doubled, i, bet);
    }
  }

  /** If the dealer busts, every hand that did not bust is paid twice its stake. */
  lemma {:induction false} DealerBustPaysStanding(hands: seq<Hand>, doubled: set<int>, dealerValue: int, bet: int)
    requires dealerValue > 21
    requires forall i :: 0 <= i < |hands| ==> HandValue(hands[i]) <= 21
    ensures TotalPayout(hands, doubled, dealerValue, bet) == 2 * StakeTotal(|hands|, doubled, bet)
  {
    if |hands| > 0 {
      DealerBustPaysStanding(hands[..|hands| - 1], doubled, dealerValue, bet);
    }
  }
}
