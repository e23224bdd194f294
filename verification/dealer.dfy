/**
 * Dealer auto-play: once every player hand is finished, the dealer draws
 * from the top of the deck while the dealer's hand is worth less than 17.
 */
module Dealer {
  import opened Cards
  import opened Hands
  import opened Deck

  /** The dealer stops drawing at this value or above (soft 17 included). */
  const DealerStandsAt: int := 17

  /** The most cards the dealer can still draw: each draw adds at least one hard point. */
  function DrawBound(hand: Hand): nat {
    if HardTotal(hand) >= DealerStandsAt then 0 else DealerStandsAt - HardTotal(hand)
  }

  /** The dealer's loop runs to completion without drawing from an empty deck. */
  predicate DealerCanFinish(hand: Hand, deck: seq<Card>)
    decreases |deck|
  {
    HandValue(hand) >= DealerStandsAt
    || (|deck| > 0 && DealerCanFinish(hand + [Top(deck)], Rest(deck)))
  }

  /**
   * The dealer's turn. Returns the final dealer hand and the deck left over;
   * the original cards stay in front and the final hand is worth at least 17.
   */
  function DealerPlay(hand: Hand, deck: seq<Card>): (res: (Hand, seq<Card>))
    requires DealerCanFinish(hand, deck)
    ensures HandValue(res.0) >= DealerStandsAt
    ensures |hand| <= |res.0| && res.0[..|hand|] == hand
    ensures |res.1| + |res.0| == |deck| + |hand|
    decreases |deck|
  {
    if HandValue(hand) >= DealerStandsAt then (hand, deck)
    else
      var res := DealerPlay(hand + [Top(deck)], Rest(deck));
      assert res.0[..|hand| + 1][..|hand|] == hand;
      res
  }

  /** The dealer draws from the top of the deck, one card after another, and nothing else changes. */
  lemma DealerDrawsFromTop(hand: Hand, deck: seq<Card>)
    requires DealerCanFinish(hand, deck)
    ensures var (h, d) := DealerPlay(hand, deck);
            && d == deck[..|d|]
            && |h| - |hand| <= |deck| && h == hand + Drawn(deck, |h| - |hand|)
            && multiset(h) + multiset(d) == multiset(hand) + multiset(deck)
  {
    DealerLeavesBottom(hand, deck);
    DealerDrawOrder(hand, deck);
    DealerKeepsCards(hand, deck);
  }

  /** What the dealer leaves is the bottom of the deck. */
  lemma {:induction false} DealerLeavesBottom(hand: Hand, deck: seq<Card>)
    requires DealerCanFinish(hand, deck)
    ensures var d := DealerPlay(hand, deck).1;
            d == deck[..|d|]
    decreases |deck|
  {
    if HandValue(hand) < DealerStandsAt {
      var rest := Rest(deck);
      DealerLeavesBottom(hand + [Top(deck)], rest);
      var d := DealerPlay(hand + [Top(deck)], rest).1;
      assert d == rest[..|d|];
      assert rest == deck[..|deck| - 1];
    }
  }

  /** The top `n` cards of the deck, in the order they are drawn. */
  function Drawn(deck: seq<Card>, n: nat): (cards: seq<Card>)
    requires n <= |deck|
    ensures |cards| == n
  {
    if n == 0 then [] else [Top(deck)] + Drawn(Rest(deck), n - 1)
  }

  /** The i-th card drawn is the i-th card from the top. */
  lemma {:induction false} DrawnFromTop(deck: seq<Card>, n: nat, i: nat)
    requires i < n <= |deck|
    ensures Drawn(deck, n)[i] == deck[|deck| - 1 - i]
  {
    if i > 0 {
      DrawnFromTop(Rest(deck), n - 1, i - 1);
      assert Rest(deck)[|deck| - 1 - i] == deck[|deck| - 1 - i];
    }
  }

  /** The dealer's new cards are the top cards of the deck, in the order drawn. */
  lemma {:induction false} DealerDrawOrder(hand: Hand, deck: seq<Card>)
    requires DealerCanFinish(hand, deck)
    ensures var h := DealerPlay(hand, deck).0;
            |h| - |hand| <= |deck| && h == hand + Drawn(deck, |h| - |hand|)
    decreases |deck|
  {
    if HandValue(hand) < DealerStandsAt {
      var next := hand + [Top(deck)];
      var rest := Rest(deck);
      var h := DealerPlay(next, rest).0;
      assert DealerPlay(hand, deck).0 == h;
      var m := |h| - |next|;
      assert |h| - |hand| == m + 1;
      calc {
        h;
        { DealerDrawOrder(next, rest); }
        next + Drawn(rest, m);
        { DrawOneMore(hand, deck, m); }
        hand + Drawn(deck, m + 1);
      }
    } else {
      assert Drawn(deck, 0) == [];
      assert hand + [] == hand;
    }
  }

  /** Drawing the top card and then `m` more is drawing `m + 1` cards. */
  lemma DrawOneMore(hand: Hand, deck: seq<Card>, m: nat)
    requires m < |deck|
    ensures hand + [Top(deck)] + Drawn(Rest(deck), m) == hand + Drawn(deck, m + 1)
  {
    assert Drawn(deck, m + 1) == [Top(deck)] + Drawn(Rest(deck), m);
  }

  /** The dealer's turn only moves cards from the deck to the dealer's hand. */
  lemma {:induction false} DealerKeepsCards(hand: Hand, deck: seq<Card>)
    requires DealerCanFinish(hand, deck)
    ensures var (h, d) := DealerPlay(hand, deck);
            multiset(h) + multiset(d) == multiset(hand) + multiset(deck)
    decreases |deck|
  {
    if HandValue(hand) < DealerStandsAt {
      var next := hand + [Top(deck)];
      DealerKeepsCards(next, Rest(deck));
      assert multiset(next) == multiset(hand) + multiset{Top(deck)};
    }
  }

  /** Every card the dealer adds is drawn while the hand is worth less than 17. */
  lemma {:induction false} DealerDrawsBelowSeventeen(hand: Hand, deck: seq<Card>)
    requires DealerCanFinish(hand, deck)
    ensures var h := DealerPlay(hand, deck).0;
            forall k :: |hand| <= k < |h| ==> HandValue(h[..k]) < DealerStandsAt
    decreases |deck|
  {
    if HandValue(hand) < DealerStandsAt {
      var next := hand + [Top(deck)];
      DealerDrawsBelowSeventeen(next, Rest(deck));
      var h := DealerPlay(hand, deck).0;
      assert h == DealerPlay(next, Rest(deck)).0;
      forall k | |hand| <= k < |h|
        ensures HandValue(h[..k]) < DealerStandsAt
      {
        if k == |hand| {
          assert h[..k] == hand;
        }
      }
    }
  }

  /** The dealer draws at most `17 - HardTotal(hand)` cards, each adding at least one hard point. */
  lemma {:induction false} DealerDrawCount(hand: Hand, deck: seq<Card>)
    requires DealerCanFinish(hand, deck)
    ensures var h := DealerPlay(hand, deck).0;
            && HardTotal(h) >= HardTotal(hand) + (|h| - |hand|)
            && |h| - |hand| <= DrawBound(hand)
    decreases |deck|
  {
    if HandValue(hand) < DealerStandsAt {
      AppendTotals(hand, Top(deck));
      DealerDrawCount(hand + [Top(deck)], Rest(deck));
    }
  }

  /**
   * The loop terminates because the hard total strictly increases: a deck
   * holding at least `17 - HardTotal(hand)` cards always suffices.
   */
  lemma {:induction false} DealerFinishesWithin(hand: Hand, deck: seq<Card>)
    requires |deck| >= DrawBound(hand)
    ensures DealerCanFinish(hand, deck)
    decreases |deck|
  {
    if HandValue(hand) < DealerStandsAt {
      AppendTotals(hand, Top(deck));
      DealerFinishesWithin(hand + [Top(deck)], Rest(deck));
    }
  }
}
