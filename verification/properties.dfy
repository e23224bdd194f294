/**
 * Properties of the round engine that span several actions: a
 * well-formedness invariant every reachable table keeps, conservation of
 * cards (hit, stand, double, split and the dealer's turn only move cards
 * from the deck to the hands; a deal discards the previous round's cards
 * and puts exactly the dealing deck on the table), and conservation of
 * money while a round is in play (every chip taken from the balance is a
 * stake).
 */
module RoundProperties {
  import opened Cards
  import opened Hands
  import opened Deck
  import opened Dealer
  import opened Settlement
  import opened Game

  // ---------------------------------------------------------------- reachable tables

  /** Facts every table reached from the initial one satisfies. */
  predicate Inv(r: Round) {
    && r.currentBet >= MinBet
    && (forall d :: d in r.doubledDownHands ==> 0 <= d < |r.playerHands|)
    && (Active(r) ==>
          && r.currentHandIndex < |r.playerHands|
          && (forall d :: d in r.doubledDownHands ==> d < r.currentHandIndex)
          && !r.gameOver)
    && |r.history| <= HistoryLimit
  }

  /** One user input at the table. */
  datatype Action =
    | AdjustBy(amount: int)
    | BetExactly(amount: int)
    | Deal(picks: seq<nat>)
    | HitCard
    | StandHand
    | DoubleHand
    | SplitPair

  /**
   * The input can be handled without drawing from an empty deck, and it is
   * of a kind the screen offers at this point: the bet controls and the Deal
   * button are shown only between rounds, while the handlers behind them
   * have no such guard. This is a superset of the screen's inputs, which
   * also disables Deal, Double and Split without funds and offers only a
   * few bet amounts.
   */
  predicate Allowed(r: Round, a: Action) {
    match a
    case AdjustBy(_) => !r.inRound
    case BetExactly(_) => !r.inRound
    case Deal(picks) => !r.inRound && PicksFit(picks, DeckSize)
    case HitCard => Active(r) ==> r.currentHandIndex < |r.playerHands| && |r.deck| > 0
    case StandHand => Active(r) && !MoreHands(r) ==> DealerCanFinish(r.dealerHand, r.deck)
    case DoubleHand => DoubleDownCanDraw(r)
    case SplitPair => Active(r) && CanSplit(ActiveHand(r)) && r.balance >= r.currentBet ==> |r.deck| >= 2
  }

  /** Changing the bet keeps the table well formed. */
  lemma AdjustBetKeepsInv(r: Round, amount: int)
    requires Inv(r)
    ensures Inv(AdjustBet(r, amount))
  {
  }

  /** Setting the bet keeps the table well formed. */
  lemma SetBetKeepsInv(r: Round, amount: int)
    requires Inv(r)
    ensures Inv(SetBet(r, amount))
  {
  }

  /** A deal starts a well-formed round. */
  lemma DealKeepsInv(r: Round, picks: seq<nat>)
    requires Inv(r) && PicksFit(picks, DeckSize)
    ensures Inv(StartRound(r, picks))
  {
  }

  /** A hit keeps the table well formed. */
  lemma HitKeepsInv(r: Round)
    requires Inv(r) && (Active(r) ==> r.currentHandIndex < |r.playerHands| && |r.deck| > 0)
    ensures Inv(Hit(r))
  {
  }

  /** Standing keeps the table well formed. */
  lemma StandKeepsInv(r: Round)
    requires Inv(r) && (Active(r) && !MoreHands(r) ==> DealerCanFinish(r.dealerHand, r.deck))
    ensures Inv(Stand(r))
  {
  }

  /** Doubling down keeps the table well formed. */
  lemma DoubleDownKeepsInv(r: Round)
    requires Inv(r) && DoubleDownCanDraw(r)
    ensures Inv(DoubleDown(r))
  {
    if Active(r) && CanDoubleDown(ActiveHand(r)) && r.balance >= r.currentBet {
      var r' := DoubleDown(r);
      assert |r'.playerHands| == |r.playerHands|;
      if !MoreHands(r) {
        assert !Active(r');
      }
    }
  }

  /** Splitting keeps the table well formed. */
  lemma SplitKeepsInv(r: Round)
    requires Inv(r) && (Active(r) && CanSplit(ActiveHand(r)) && r.balance >= r.currentBet ==> |r.deck| >= 2)
    ensures Inv(Split(r))
  {
  }

  /** The inputs the screen offers only between rounds. */
  predicate IsBetting(a: Action) {
    a.AdjustBy? || a.BetExactly? || a.Deal?
  }

  /** Handle a bet or a deal. */
  function BetStep(r: Round, a: Action): Round
    requires Allowed(r, a) && IsBetting(a)
  {
    match a
    case AdjustBy(amount) => AdjustBet(r, amount)
    case BetExactly(amount) => SetBet(r, amount)
    case Deal(picks) => StartRound(r, picks)
  }

  /** Handle an input given while a hand is in play. */
  function PlayStep(r: Round, a: Action): Round
    requires Allowed(r, a) && !IsBetting(a)
  {
    match a
    case HitCard => Hit(r)
    case StandHand => Stand(r)
    case DoubleHand => DoubleDown(r)
    case SplitPair => Split(r)
  }

  /** Handle one input. */
  function Step(r: Round, a: Action): Round
    requires Allowed(r, a)
  {
    if IsBetting(a) then BetStep(r, a) else PlayStep(r, a)
  }

  /** Every input keeps the table well formed. */
  lemma StepKeepsInv(r: Round, a: Action)
    requires Allowed(r, a) && Inv(r)
    ensures Inv(Step(r, a))
  {
    match a
    case AdjustBy(amount) => AdjustBetKeepsInv(r, amount);
    case BetExactly(amount) => SetBetKeepsInv(r, amount);
    case Deal(picks) => DealKeepsInv(r, picks);
    case HitCard => HitKeepsInv(r);
    case StandHand => StandKeepsInv(r);
    case DoubleHand => DoubleDownKeepsInv(r);
    case SplitPair => SplitKeepsInv(r);
  }

  /** Every input of the list can be handled in turn. */
  predicate AllowedRun(r: Round, actions: seq<Action>)
    decreases |actions|
  {
    |actions| == 0 || (Allowed(r, actions[0]) && AllowedRun(Step(r, actions[0]), actions[1..]))
  }

  /** Handle a list of inputs in order. */
  function Run(r: Round, actions: seq<Action>): Round
    requires AllowedRun(r, actions)
    decreases |actions|
  {
    if |actions| == 0 then r else Run(Step(r, actions[0]), actions[1..])
  }

  /** The invariant holds after each input of a run. */
  lemma {:induction false} RunKeepsInv(r: Round, actions: seq<Action>)
    requires AllowedRun(r, actions) && Inv(r)
    ensures Inv(Run(r, actions))
    decreases |actions|
  {
    if |actions| > 0 {
      StepKeepsInv(r, actions[0]);
      RunKeepsInv(Step(r, actions[0]), actions[1..]);
    }
  }

  /** The table before the first deal is well formed, so every table reached from it is too. */
  lemma ReachableTablesAreWellFormed(online: bool, stored: Option<int>, picks: seq<nat>, actions: seq<Action>)
    requires PicksFit(picks, DeckSize)
    requires AllowedRun(InitialRound(online, stored, picks), actions)
    ensures Inv(Run(InitialRound(online, stored, picks), actions))
  {
    RunKeepsInv(InitialRound(online, stored, picks), actions);
  }

  // ---------------------------------------------------------------- cards

  /** All cards held in a list of hands. */
  function HandsCards(hands: seq<Hand>): multiset<Card> {
    if |hands| == 0 then multiset{} else HandsCards(hands[..|hands| - 1]) + multiset(hands[|hands| - 1])
  }

  /** Every card on the table: the deck, the player's hands and the dealer's hand. */
  function CardsInPlay(r: Round): multiset<Card> {
    multiset(r.deck) + HandsCards(r.playerHands) + multiset(r.dealerHand)
  }

  lemma {:induction false} HandsCardsConcat(a: seq<Hand>, b: seq<Hand>)
    ensures HandsCards(a + b) == HandsCards(a) + HandsCards(b)
    decreases |b|
  {
    if |b| == 0 {
      assert a + b == a;
    } else {
      var b' := b[..|b| - 1];
      assert (a + b)[..|a + b| - 1] == a + b';
      assert (a + b)[|a + b| - 1] == b[|b| - 1];
      HandsCardsConcat(a, b');
    }
  }

  /** Taking one card into hand `i` adds exactly that card to the hands. */
  lemma HandsCardsTake(hands: seq<Hand>, i: nat, c: Card)
    requires i < |hands|
    ensures HandsCards(hands[i := hands[i] + [c]]) == HandsCards(hands) + multiset{c}
  {
    var before := hands[..i];
    var after := hands[i + 1..];
    assert hands == before + [hands[i]] + after;
    assert hands[i := hands[i] + [c]] == before + [hands[i] + [c]] + after;
    HandsCardsConcat(before + [hands[i]], after);
    HandsCardsConcat(before, [hands[i]]);
    HandsCardsConcat(before + [hands[i] + [c]], after);
    HandsCardsConcat(before, [hands[i] + [c]]);
    assert [hands[i]][..0] == [];
    assert [hands[i] + [c]][..0] == [];
  }

  /** A hit moves the top card of the deck into the active hand and nothing else. */
  lemma HitKeepsCards(r: Round)
    requires Active(r) ==> r.currentHandIndex < |r.playerHands| && |r.deck| > 0
    ensures CardsInPlay(Hit(r)) == CardsInPlay(r)
  {
    if Active(r) {
      var i := r.currentHandIndex;
      HandsCardsTake(r.playerHands, i, Top(r.deck));
      assert Hit(r).playerHands == r.playerHands[i := r.playerHands[i] + [Top(r.deck)]];
    }
  }

  /** The dealer's draws move cards from the deck to the dealer's hand and nothing else. */
  lemma DealerTurnKeepsCards(r: Round)
    requires DealerCanFinish(r.dealerHand, r.deck)
    ensures CardsInPlay(DealerTurnAndSettle(r)) == CardsInPlay(r)
  {
    DealerDrawsFromTop(r.dealerHand, r.deck);
    SameHandsSameCards(r, DealerTurnAndSettle(r));
  }

  /** Moving cards between the deck and the dealer's hand leaves the cards in play alone. */
  lemma SameHandsSameCards(r: Round, r': Round)
    requires r'.playerHands == r.playerHands
    requires multiset(r'.dealerHand) + multiset(r'.deck) == multiset(r.dealerHand) + multiset(r.deck)
    ensures CardsInPlay(r') == CardsInPlay(r)
  {
    MultisetRegroup(multiset(r.deck), HandsCards(r.playerHands), multiset(r.dealerHand));
    MultisetRegroup(multiset(r'.deck), HandsCards(r'.playerHands), multiset(r'.dealerHand));
  }

  lemma MultisetRegroup(deck: multiset<Card>, hands: multiset<Card>, dealer: multiset<Card>)
    ensures deck + hands + dealer == hands + (dealer + deck)
  {
  }

  /** Standing never creates or loses a card. */
  lemma StandKeepsCards(r: Round)
    requires Active(r) && !MoreHands(r) ==> DealerCanFinish(r.dealerHand, r.deck)
    ensures CardsInPlay(Stand(r)) == CardsInPlay(r)
  {
    if Active(r) && !MoreHands(r) {
      DealerTurnKeepsCards(r);
    }
  }

  /**
   * Doubling down never creates or loses a card: the player's extra card
   * and any cards the dealer then draws all come off the deck, each once.
   */
  lemma DoubleDownKeepsCards(r: Round)
    requires DoubleDownCanDraw(r)
    ensures CardsInPlay(DoubleDown(r)) == CardsInPlay(r)
  {
    if Active(r) && CanDoubleDown(ActiveHand(r)) && r.balance >= r.currentBet {
      var i := r.currentHandIndex;
      var top := Top(r.deck);
      var rest := Rest(r.deck);
      var r' := DoubleDown(r);
      HandsCardsTake(r.playerHands, i, top);
      if MoreHands(r) {
        CardsMoved(r, r', top, multiset(rest));
      } else {
        DealerDrawsFromTop(r.dealerHand, rest);
        CardsMoved(r, r', top, multiset(rest));
      }
    }
  }

  /**
   * One card moves from the deck to the player's hands, and the dealer's
   * hand and the deck then only trade cards: the cards in play stay the same.
   */
  lemma CardsMoved(r: Round, r': Round, top: Card, rest: multiset<Card>)
    requires HandsCards(r'.playerHands) == HandsCards(r.playerHands) + multiset{top}
    requires multiset(r'.dealerHand) + multiset(r'.deck) == multiset(r.dealerHand) + rest
    requires rest + multiset{top} == multiset(r.deck)
    ensures CardsInPlay(r') == CardsInPlay(r)
  {
    MultisetTrade(multiset(r.deck), HandsCards(r.playerHands), multiset(r.dealerHand),
                  multiset(r'.deck), HandsCards(r'.playerHands), multiset(r'.dealerHand), top, rest);
  }

  lemma MultisetTrade(deck: multiset<Card>, hands: multiset<Card>, dealer: multiset<Card>,
                      deck': multiset<Card>, hands': multiset<Card>, dealer': multiset<Card>,
                      top: Card, rest: multiset<Card>)
    requires hands' == hands + multiset{top}
    requires dealer' + deck' == dealer + rest
    requires rest + multiset{top} == deck
    ensures deck' + hands' + dealer' == deck + hands + dealer
  {
    calc {
      deck' + hands' + dealer';
      { MultisetRegroup(deck', hands', dealer'); }
      hands' + (dealer' + deck');
      hands + multiset{top} + (dealer + rest);
      { MultisetRegroup(rest + multiset{top}, hands, dealer); }
      deck + hands + dealer;
    }
  }

  lemma HandsCardsThree(a: seq<Hand>, b: seq<Hand>, c: seq<Hand>)
    ensures HandsCards(a + b + c) == HandsCards(a) + HandsCards(b) + HandsCards(c)
  {
    HandsCardsConcat(a + b, c);
    HandsCardsConcat(a, b);
  }

  lemma HandsCardsOne(h: Hand)
    ensures HandsCards([h]) == multiset(h)
  {
    assert [h][..0] == [];
  }

  lemma HandsCardsTwo(left: Hand, right: Hand)
    ensures HandsCards([left, right]) == multiset(left) + multiset(right)
  {
    HandsCardsOne(left);
    HandsCardsOne(right);
    assert [left, right] == [left] + [right];
    HandsCardsConcat([left], [right]);
  }

  /** Replacing a pair by two hands of one pair card plus one new card each adds exactly the two new cards. */
  lemma HandsCardsSplit(before: seq<Hand>, a: Card, b: Card, after: seq<Hand>, first: Card, second: Card)
    ensures HandsCards(before + [[a, first], [b, second]] + after)
            == HandsCards(before + [[a, b]] + after) + multiset{first, second}
  {
    var mid := HandsCards([[a, first], [b, second]]);
    assert mid == multiset([a, b]) + multiset{first, second} by {
      HandsCardsTwo([a, first], [b, second]);
    }
    assert HandsCards(before + [[a, b]] + after) == HandsCards(before) + multiset([a, b]) + HandsCards(after) by {
      HandsCardsThree(before, [[a, b]], after);
      HandsCardsOne([a, b]);
    }
    assert HandsCards(before + [[a, first], [b, second]] + after) == HandsCards(before) + mid + HandsCards(after) by {
      HandsCardsThree(before, [[a, first], [b, second]], after);
    }
    MultisetShuffle(HandsCards(before), multiset([a, b]), HandsCards(after), multiset{first, second});
  }

  lemma MultisetShuffle(a: multiset<Card>, b: multiset<Card>, c: multiset<Card>, d: multiset<Card>)
    ensures a + (b + d) + c == (a + b + c) + d
  {
  }

  /** Taking the top two cards off a deck leaves exactly the rest. */
  lemma LoseTopTwo(deck: seq<Card>, rest: seq<Card>)
    requires |deck| >= 2 && rest == deck[..|deck| - 2]
    ensures multiset(deck) == multiset(rest) + multiset{deck[|deck| - 1], deck[|deck| - 2]}
  {
    assert deck == rest + [deck[|deck| - 2], deck[|deck| - 1]];
  }

  /** Cards that leave the deck for the player's hands leave the cards in play alone. */
  lemma MovedToHands(r: Round, r': Round, moved: multiset<Card>)
    requires r'.dealerHand == r.dealerHand
    requires HandsCards(r'.playerHands) == HandsCards(r.playerHands) + moved
    requires multiset(r.deck) == multiset(r'.deck) + moved
    ensures CardsInPlay(r') == CardsInPlay(r)
  {
  }

  /** A hand of two cards, written out in place inside its list of hands. */
  lemma PairInPlace(hands: seq<Hand>, i: nat)
    requires i < |hands| && |hands[i]| == 2
    ensures hands == hands[..i] + [[hands[i][0], hands[i][1]]] + hands[i + 1..]
  {
    assert hands[i] == [hands[i][0], hands[i][1]];
    assert hands == hands[..i] + [hands[i]] + hands[i + 1..];
  }

  /** The hands after a split, written as the hands before with the pair replaced. */
  lemma SplitShape(r: Round)
    requires Active(r) && CanSplit(ActiveHand(r)) && r.balance >= r.currentBet
    requires |r.deck| >= 2
    ensures var i := r.currentHandIndex;
            var n := |r.deck|;
            && i < |r.playerHands|
            && Split(r).playerHands
               == r.playerHands[..i] + [[r.playerHands[i][0], r.deck[n - 1]], [r.playerHands[i][1], r.deck[n - 2]]] + r.playerHands[i + 1..]
  {
  }

  /** Splitting adds exactly the top two cards of the deck to the player's hands. */
  lemma SplitHandsCards(r: Round)
    requires Active(r) && CanSplit(ActiveHand(r)) && r.balance >= r.currentBet
    requires |r.deck| >= 2
    ensures HandsCards(Split(r).playerHands) == HandsCards(r.playerHands) + multiset{r.deck[|r.deck| - 1], r.deck[|r.deck| - 2]}
  {
    var i := r.currentHandIndex;
    var n := |r.deck|;
    var hands := r.playerHands;
    SplitShape(r);
    PairInPlace(hands, i);
    HandsCardsSplit(hands[..i], hands[i][0], hands[i][1], hands[i + 1..], r.deck[n - 1], r.deck[n - 2]);
  }

  /** Splitting moves the next two cards of the deck into the two new hands and nothing else. */
  lemma SplitKeepsCards(r: Round)
    requires Active(r) && CanSplit(ActiveHand(r)) && r.balance >= r.currentBet ==> |r.deck| >= 2
    ensures CardsInPlay(Split(r)) == CardsInPlay(r)
  {
    if Active(r) && CanSplit(ActiveHand(r)) && r.balance >= r.currentBet {
      var n := |r.deck|;
      var moved := multiset{r.deck[n - 1], r.deck[n - 2]};
      var r' := Split(r);
      SplitHandsCards(r);
      LoseTopTwo(r.deck, r'.deck);
      MovedToHands(r, r', moved);
    }
  }

  /**
   * A deal replaces the table with cards from the dealing deck: nothing in
   * play comes from anywhere else, and after a reshuffle every one of the
   * 52 cards is in play exactly once.
   */
  lemma DealKeepsCards(r: Round, picks: seq<nat>)
    requires PicksFit(picks, DeckSize)
    requires r.balance >= r.currentBet
    ensures CardsInPlay(StartRound(r, picks)) == multiset(DealingDeck(r, picks))
    ensures |r.deck| < ReshuffleBelow ==> forall c: Card :: CardsInPlay(StartRound(r, picks))[c] == 1
  {
    var d := DealingDeck(r, picks);
    var n := |d|;
    var r' := StartRound(r, picks);
    DealtCards(r', d);
    if |r.deck| < ReshuffleBelow {
      FreshDeckComplete();
    }
  }

  /** The four dealt cards and the rest of the deck are together the deck dealt from. */
  lemma DealtCards(r: Round, d: seq<Card>)
    requires |d| >= 4
    requires var n := |d|;
             && r.playerHands == [[d[n - 1], d[n - 2]]]
             && r.dealerHand == [d[n - 3], d[n - 4]]
             && r.deck == d[..n - 4]
    ensures CardsInPlay(r) == multiset(d)
  {
    var n := |d|;
    var rest := d[..n - 4];
    var a, b, c, e := d[n - 4], d[n - 3], d[n - 2], d[n - 1];
    assert multiset(d) == multiset(rest) + multiset{a, b, c, e} by {
      assert d == rest + [a, b, c, e];
    }
    assert HandsCards(r.playerHands) == multiset{e, c} by {
      HandsCardsOne([e, c]);
    }
    assert multiset(r.dealerHand) == multiset{b, a};
    FourCards(multiset(rest), a, b, c, e);
  }

  lemma FourCards(rest: multiset<Card>, a: Card, b: Card, c: Card, e: Card)
    ensures rest + multiset{e, c} + multiset{b, a} == rest + multiset{a, b, c, e}
  {
  }

  // ---------------------------------------------------------------- money

  /** The balance plus every stake riding on the table. */
  function Committed(r: Round): int {
    r.balance + StakeTotal(|r.playerHands|, r.doubledDownHands, r.currentBet)
  }

  /** Dealing takes exactly one bet, which becomes the stake of the only hand. */
  lemma DealCommitsBet(r: Round, picks: seq<nat>)
    requires PicksFit(picks, DeckSize)
    requires r.balance >= r.currentBet
    ensures Active(StartRound(r, picks)) ==> Committed(StartRound(r, picks)) == r.balance
  {
    assert StakeTotal(1, {}, r.currentBet) == StakeTotal(0, {}, r.currentBet) + r.currentBet;
  }

  /** Splitting takes exactly one more bet, which becomes the stake of the new hand. */
  lemma SplitKeepsMoney(r: Round)
    requires Inv(r)
    requires Active(r) && CanSplit(ActiveHand(r)) && r.balance >= r.currentBet ==> |r.deck| >= 2
    ensures Committed(Split(r)) == Committed(r)
  {
    var n := |r.playerHands|;
    if Active(r) && CanSplit(ActiveHand(r)) && r.balance >= r.currentBet {
      assert n !in r.doubledDownHands;
      assert StakeTotal(n + 1, r.doubledDownHands, r.currentBet)
          == StakeTotal(n, r.doubledDownHands, r.currentBet) + r.currentBet;
    }
  }

  /** Doubling takes exactly one more bet, which doubles the stake of the active hand. */
  lemma DoubleDownKeepsMoney(r: Round)
    requires Inv(r)
    requires DoubleDownCanDraw(r)
    ensures Active(DoubleDown(r)) ==> Committed(DoubleDown(r)) == Committed(r)
  {
    if Active(r) && CanDoubleDown(ActiveHand(r)) && r.balance >= r.currentBet {
      var i := r.currentHandIndex;
      assert i !in r.doubledDownHands;
      StakeTotalAddDouble(|r.playerHands|, r.doubledDownHands, i, r.currentBet);
    }
  }

  /** No input moves money while the round stays in play; betting inputs are not offered then. */
  lemma PlayKeepsMoney(r: Round, a: Action)
    requires Inv(r) && Active(r) && Allowed(r, a)
    ensures Active(Step(r, a)) ==> Committed(Step(r, a)) == Committed(r)
  {
    match a
    case HitCard =>
    case StandHand =>
    case DoubleHand => DoubleDownKeepsMoney(r);
    case SplitPair => SplitKeepsMoney(r);
    case AdjustBy(_) => assert false;
    case BetExactly(_) => assert false;
    case Deal(_) => assert false;
  }

  /** After each input of the run a hand is still in play. */
  predicate InPlayThroughout(r: Round, actions: seq<Action>)
    requires AllowedRun(r, actions)
    decreases |actions|
  {
    |actions| == 0 || (Active(Step(r, actions[0])) && InPlayThroughout(Step(r, actions[0]), actions[1..]))
  }

  /**
   * Money is conserved through a round: as long as a hand stays in play,
   * the balance plus the stakes on the table never changes.
   */
  lemma {:induction false} RoundKeepsMoney(r: Round, actions: seq<Action>)
    requires Inv(r) && Active(r) && AllowedRun(r, actions) && InPlayThroughout(r, actions)
    ensures Committed(Run(r, actions)) == Committed(r)
    decreases |actions|
  {
    if |actions| > 0 {
      var a := actions[0];
      PlayKeepsMoney(r, a);
      StepKeepsInv(r, a);
      RoundKeepsMoney(Step(r, a), actions[1..]);
    }
  }

  /**
   * Settling after the dealer's turn returns to the balance the total of the
   * payouts, which lies between nothing and twice the stakes on the table.
   */
  lemma StandSettlesStakes(r: Round)
    requires Inv(r) && Active(r) && !MoreHands(r)
    requires DealerCanFinish(r.dealerHand, r.deck)
    ensures var r' := Stand(r);
            var staked := StakeTotal(|r.playerHands|, r.doubledDownHands, r.currentBet);
            Committed(r) - staked <= r'.balance <= Committed(r) + staked
  {
  }

  // ---------------------------------------------------------------- quirks kept from the source

  /**
   * A double down can never take the bust path: the doubled hand always
   * stands at 21 or less, so on the last hand the dealer always plays.
   */
  lemma DoubleDownNeverBusts(r: Round)
    requires DoubleDownCanDraw(r)
    requires Active(r) && CanDoubleDown(ActiveHand(r)) && r.balance >= r.currentBet
    ensures HandValue(DoubleDown(r).playerHands[r.currentHandIndex]) <= 21
    ensures !MoreHands(r) ==> DoubleDown(r).message.HandResults?
  {
    var i := r.currentHandIndex;
    var hand := r.playerHands[i] + [Top(r.deck)];
    DoubledHandNeverBusts(r.playerHands[i], Top(r.deck));
    assert HandValue(hand) <= 21;
  }

  /**
   * A bust on the last hand forfeits every hand, including earlier split
   * hands that stood, and does not flag game over however low the balance.
   */
  lemma LastHandBustForfeitsAll(r: Round)
    requires Active(r) && r.currentHandIndex < |r.playerHands| && |r.deck| > 0 && !MoreHands(r)
    requires HandValue(r.playerHands[r.currentHandIndex] + [Top(r.deck)]) > 21
    ensures Hit(r).balance == r.balance && Hit(r).gameOver == r.gameOver
    ensures !Hit(r).inRound && Hit(r).message == BustLoss
  {
  }

  /** A table whose balance cannot cover the bet is flagged game over by the next deal. */
  lemma DealCatchesGameOver(r: Round, picks: seq<nat>)
    requires PicksFit(picks, DeckSize)
    requires r.balance < r.currentBet
    ensures StartRound(r, picks).gameOver && !StartRound(r, picks).inRound
    ensures StartRound(r, picks).balance == r.balance && StartRound(r, picks).deck == r.deck
  {
  }

  /** A bet the table accepts can always be dealt without the game-over path. */
  lemma AcceptedBetDeals(r: Round, amount: int, picks: seq<nat>)
    requires PicksFit(picks, DeckSize)
    requires MinBet <= amount <= r.balance
    ensures !StartRound(SetBet(r, amount), picks).gameOver
    ensures StartRound(SetBet(r, amount), picks).playerHands != []
  {
  }

  /** Starting from 100 with a bet of 10, a dealt natural leaves the balance at 115. */
  lemma NaturalFromHundred(r: Round, picks: seq<nat>)
    requires PicksFit(picks, DeckSize)
    requires r.balance == 100 && r.currentBet == 10 && |r.deck| >= ReshuffleBelow
    requires r.deck[|r.deck| - 1].rank == Ace && r.deck[|r.deck| - 2].rank == King
    ensures StartRound(r, picks).balance == 115
    ensures !StartRound(r, picks).inRound
  {
    var d := r.deck;
    assert IsPlackGack([d[|d| - 1], d[|d| - 2]]);
  }
}
