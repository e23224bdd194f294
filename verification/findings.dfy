/**
 * The double down on the last hand as the code writes it. The dealer's turn
 * starts again from the deck as it was before the player's extra card was
 * drawn, and the delayed settlement reads the hands and the doubled set as
 * they were before the double. The corrected double down is Game.DoubleDown.
 */
module Findings {
  import opened Cards
  import opened Hands
  import opened Deck
  import opened Dealer
  import opened Settlement
  import opened Game
  import opened RoundProperties

  /** What the as-written double down needs from the deck: the dealer draws from the undrawn deck. */
  predicate AsWrittenCanDraw(r: Round) {
    Active(r) && CanDoubleDown(ActiveHand(r)) && r.balance >= r.currentBet ==>
      |r.deck| > 0 && (!MoreHands(r) ==> DealerCanFinish(r.dealerHand, r.deck))
  }

  /**
   * Double down as written: identical to the corrected one except when the
   * last hand stands, where the dealer plays from the deck before the
   * player's draw and the hands are paid as they stood before the double.
   */
  function DoubleDownAsWritten(r: Round): (r': Round)
    requires AsWrittenCanDraw(r)
    ensures !(Active(r) && CanDoubleDown(ActiveHand(r)) && r.balance >= r.currentBet && !MoreHands(r)) ==>
              r' == DoubleDown(r)
    ensures Active(r) && CanDoubleDown(ActiveHand(r)) && r.balance >= r.currentBet && !MoreHands(r) ==>
      && r'.dealerHand == DealerPlay(r.dealerHand, r.deck).0
      && r'.deck == DealerPlay(r.dealerHand, r.deck).1
      && r'.playerHands == r.playerHands[r.currentHandIndex := r.playerHands[r.currentHandIndex] + [Top(r.deck)]]
      && r'.balance == r.balance - r.currentBet
                       + TotalPayout(r.playerHands, r.doubledDownHands, HandValue(r'.dealerHand), r.currentBet)
  {
    if !Active(r) || !CanDoubleDown(ActiveHand(r)) || r.balance < r.currentBet || MoreHands(r) then
      DoubleDown(r)
    else
      var i := r.currentHandIndex;
      var hand := r.playerHands[i] + [Top(r.deck)];
      var doubled := r.(deck := Rest(r.deck), playerHands := r.playerHands[i := hand],
                        balance := r.balance - r.currentBet,
                        doubledDownHands := r.doubledDownHands + {i});
      if HandValue(hand) > 21 then EndRound(doubled, BustEnd)
      else
        DoubledHandNeverBusts(r.playerHands[i], Top(r.deck));
        var settled := DealerTurnAndSettle(r.(balance := r.balance - r.currentBet));
        settled.(playerHands := doubled.playerHands, doubledDownHands := doubled.doubledDownHands)
  }

  const TwoOfClubs := Card(Two, Clubs)
  const KingOfSpades := Card(King, Spades)

  /** A table where the only hand is a pair of fives and the king of spades is on top of the deck. */
  function FivesAgainst(dealer: Hand): Round {
    Round([TwoOfClubs, KingOfSpades], [[Card(Five, Spades), Card(Five, Hearts)]], dealer,
          0, Playing, true, true, false, NoMessage, 90, 10, {}, false, [])
  }

  /** The pair of fives doubled against a dealer 18. */
  const AgainstEighteen := FivesAgainst([Card(Ten, Clubs), Card(Eight, Diamonds)])

  /** Both double downs can be played on the example table: the dealer already stands. */
  lemma ExampleTableCanDraw()
    ensures AsWrittenCanDraw(AgainstEighteen) && DoubleDownCanDraw(AgainstEighteen)
  {
    assert HardTotal(AgainstEighteen.dealerHand) == 18;
    DealerFinishesWithin(AgainstEighteen.dealerHand, AgainstEighteen.deck);
    DealerFinishesWithin(AgainstEighteen.dealerHand, Rest(AgainstEighteen.deck));
  }

  /**
   * As written, doubling on the last hand always leaves one card too many
   * on the table: the card the player drew is still in the deck the dealer
   * plays from. If the dealer has to draw, the first card drawn is that very
   * card, so it sits in the player's hand and the dealer's at once.
   */
  lemma AsWrittenDuplicatesCard(r: Round)
    requires AsWrittenCanDraw(r)
    requires Active(r) && CanDoubleDown(ActiveHand(r)) && r.balance >= r.currentBet && !MoreHands(r)
    ensures CardsInPlay(DoubleDownAsWritten(r)) == CardsInPlay(r) + multiset{Top(r.deck)}
    ensures HandValue(r.dealerHand) < DealerStandsAt ==>
              && |DoubleDownAsWritten(r).dealerHand| > |r.dealerHand|
              && DoubleDownAsWritten(r).dealerHand[|r.dealerHand|] == Top(r.deck)
              && DoubleDownAsWritten(r).playerHands[r.currentHandIndex][2] == Top(r.deck)
  {
    AsWrittenExtraCard(r);
    if HandValue(r.dealerHand) < DealerStandsAt {
      AsWrittenSharedCard(r);
    }
  }

  /** The player's extra card is counted twice: once in the hand, once in the deck the dealer plays from. */
  lemma AsWrittenExtraCard(r: Round)
    requires AsWrittenCanDraw(r)
    requires Active(r) && CanDoubleDown(ActiveHand(r)) && r.balance >= r.currentBet && !MoreHands(r)
    ensures CardsInPlay(DoubleDownAsWritten(r)) == CardsInPlay(r) + multiset{Top(r.deck)}
  {
    var w := DoubleDownAsWritten(r);
    var top := Top(r.deck);
    DealerKeepsCards(r.dealerHand, r.deck);
    HandsCardsTake(r.playerHands, r.currentHandIndex, top);
    ExtraCard(multiset(r.deck), HandsCards(r.playerHands), multiset(r.dealerHand),
              multiset(w.deck), HandsCards(w.playerHands), multiset(w.dealerHand), top);
  }

  lemma ExtraCard(deck: multiset<Card>, hands: multiset<Card>, dealer: multiset<Card>,
                  deck': multiset<Card>, hands': multiset<Card>, dealer': multiset<Card>, top: Card)
    requires hands' == hands + multiset{top}
    requires dealer' + deck' == dealer + deck
    ensures deck' + hands' + dealer' == deck + hands + dealer + multiset{top}
  {
    calc {
      deck' + hands' + dealer';
      { MultisetRegroup(deck', hands', dealer'); }
      hands' + (dealer' + deck');
      hands + multiset{top} + (dealer + deck);
      { MultisetRegroup(deck, hands, dealer); }
      deck + hands + dealer + multiset{top};
    }
  }

  /** When the dealer has to draw, the first card drawn is the one already in the player's hand. */
  lemma AsWrittenSharedCard(r: Round)
    requires AsWrittenCanDraw(r)
    requires Active(r) && CanDoubleDown(ActiveHand(r)) && r.balance >= r.currentBet && !MoreHands(r)
    requires HandValue(r.dealerHand) < DealerStandsAt
    ensures |DoubleDownAsWritten(r).dealerHand| > |r.dealerHand|
    ensures DoubleDownAsWritten(r).dealerHand[|r.dealerHand|] == Top(r.deck)
    ensures DoubleDownAsWritten(r).playerHands[r.currentHandIndex][2] == Top(r.deck)
  {
    var hand := r.dealerHand;
    var h := DealerPlay(hand, r.deck).0;
    assert h == DealerPlay(hand + [Top(r.deck)], Rest(r.deck)).0;
    var m := |h| - |hand|;
    assert m >= 1;
    DealerDrawOrder(hand, r.deck);
    DrawnFromTop(r.deck, m, 0);
    assert h[|hand|] == Drawn(r.deck, m)[0];
  }

  /**
   * Against a dealer 18 the doubled hand of 20 should win twice the doubled
   * stake (balance 90 - 10 + 40 = 120); as written the pair of fives worth 10
   * is judged on the single stake and loses (balance 80).
   */
  lemma AsWrittenIgnoresDouble()
    ensures AsWrittenCanDraw(AgainstEighteen) && DoubleDownCanDraw(AgainstEighteen)
    ensures DoubleDownAsWritten(AgainstEighteen).balance == 80
    ensures DoubleDown(AgainstEighteen).balance == 120
  {
    EighteenAsWritten();
    EighteenCorrected();
  }

  /** As written, the pair of fives is paid against 18 on its single stake: nothing comes back. */
  lemma EighteenAsWritten()
    ensures AsWrittenCanDraw(AgainstEighteen)
    ensures DoubleDownAsWritten(AgainstEighteen).balance == 80
  {
    ExampleTableCanDraw();
    var r := AgainstEighteen;
    EighteenDoubles();
    EighteenStands();
    FivesAgainstEighteen();
    assert DoubleDownAsWritten(r).balance == 80 + TotalPayout(r.playerHands, {}, 18, 10);
  }

  /** The dealer's 18 stands at once: the turn adds no card. */
  lemma EighteenStands()
    ensures HandValue(AgainstEighteen.dealerHand) == 18
    ensures DealerPlay(AgainstEighteen.dealerHand, AgainstEighteen.deck).0 == AgainstEighteen.dealerHand
  {
    assert HandValue(AgainstEighteen.dealerHand) == 18;
  }

  /** The undoubled pair of fives against 18 pays nothing on a base bet of 10. */
  lemma FivesAgainstEighteen()
    ensures TotalPayout(AgainstEighteen.playerHands, {}, 18, 10) == 0
  {
    var hands := AgainstEighteen.playerHands;
    assert HandValue(hands[0]) == 10;
    assert HandPayout(hands[0], 0, {}, 18, 10) == 0;
    assert hands[..0] == [];
  }

  /** Corrected, the doubled 20 beats 18 and is paid twice its doubled stake of 20. */
  lemma EighteenCorrected()
    ensures DoubleDownCanDraw(AgainstEighteen)
    ensures DoubleDown(AgainstEighteen).balance == 120
  {
    EighteenCorrectedHands();
    EighteenCorrectedDealer();
    TwentyAgainstEighteen();
    var r := AgainstEighteen;
    var d := DoubleDown(r);
    assert d.balance == r.balance - r.currentBet
                        + TotalPayout(d.playerHands, d.doubledDownHands, HandValue(d.dealerHand), r.currentBet);
    assert d.balance == 80 + TotalPayout([Twenty()], {0}, 18, 10);
  }

  /** The hand of 20 = 5 + 5 + K the corrected double down leaves. */
  function Twenty(): Hand {
    [Card(Five, Spades), Card(Five, Hearts), KingOfSpades]
  }

  /** A doubled 20 against 18 pays 40 on a base bet of 10. */
  lemma TwentyAgainstEighteen()
    ensures TotalPayout([Twenty()], {0}, 18, 10) == 40
  {
    var fives := [Card(Five, Spades), Card(Five, Hearts)];
    assert HandValue(fives) == 10;
    assert Twenty() == fives + [KingOfSpades];
    AppendTotals(fives, KingOfSpades);
    assert HandValue(Twenty()) == 20;
    assert HandPayout(Twenty(), 0, {0}, 18, 10) == 40;
    assert [Twenty()][..0] == [];
    assert Payouts([Twenty()], {0}, 18, 10) == [40];
    assert [40][..0] == [];
  }

  /** The double down is taken on the example table: the fives are the last hand and worth 10. */
  lemma EighteenDoubles()
    ensures var r := AgainstEighteen;
            && DoubleDownCanDraw(r)
            && Active(r) && CanDoubleDown(ActiveHand(r)) && r.balance >= r.currentBet && !MoreHands(r)
  {
    ExampleTableCanDraw();
    var fives := [Card(Five, Spades), Card(Five, Hearts)];
    assert AgainstEighteen.playerHands == [fives];
    assert HandValue(fives) == 10;
  }

  /** Corrected, the fives take the king and the hand is marked doubled. */
  lemma EighteenCorrectedHands()
    ensures DoubleDownCanDraw(AgainstEighteen)
    ensures DoubleDown(AgainstEighteen).playerHands == [Twenty()]
    ensures DoubleDown(AgainstEighteen).doubledDownHands == {0}
  {
    FivesTakeKing();
    EighteenDoubles();
  }

  /** The king on top of the deck joins the pair of fives. */
  lemma FivesTakeKing()
    ensures var r := AgainstEighteen;
            r.currentHandIndex == 0 && r.playerHands[0 := r.playerHands[0] + [Top(r.deck)]] == [Twenty()]
  {
    var r := AgainstEighteen;
    var fives := [Card(Five, Spades), Card(Five, Hearts)];
    assert r.playerHands == [fives];
    assert Top(r.deck) == KingOfSpades;
    assert fives + [KingOfSpades] == Twenty();
  }

  /** Corrected, the dealer already stands on 18 and draws nothing. */
  lemma EighteenCorrectedDealer()
    ensures DoubleDownCanDraw(AgainstEighteen)
    ensures DoubleDown(AgainstEighteen).dealerHand == AgainstEighteen.dealerHand
    ensures HandValue(AgainstEighteen.dealerHand) == 18
  {
    EighteenDoubles();
    var r := AgainstEighteen;
    assert HandValue(r.dealerHand) == 18;
    assert DealerPlay(r.dealerHand, Rest(r.deck)).0 == r.dealerHand;
  }
}
