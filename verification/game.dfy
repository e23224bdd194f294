/**
 * The round engine of the game screen: one record holding the deck, the
 * hands, the balance and the round's phase flags, and one pure transition
 * per player action. Settlement happens at once; the source's timers only
 * delay it for display.
 */
module Game {
  import opened Cards
  import opened Hands
  import opened Deck
  import opened Dealer
  import opened Settlement

  /** Smallest bet; also the balance below which the game is over after a settled round. */
  const MinBet: int := 5
  /** A new round reshuffles a fresh deck when fewer cards than this remain. */
  const ReshuffleBelow: nat := 15
  /** At most this many past rounds are remembered. */
  const HistoryLimit: nat := 20
  /** Starting balance when none is stored. */
  const DefaultBalance: int := 100
  /** Starting bet. */
  const DefaultBet: int := 10

  datatype Phase = Betting | Playing | DealerTurn | Complete

  /** Why a round ended. */
  datatype EndReason = BustEnd | StandEnd | NaturalEnd

  /** The text shown under the table, by kind; the exact wording is not modelled. */
  datatype Message =
    | NoMessage
    | NoFundsToBet
    | NoFundsToDouble
    | NoFundsToSplit
    | NaturalWin(winnings: int, bet: int, total: int)
    | BustLoss
    | HandResults(outcomes: seq<Outcome>, payouts: seq<int>)

  /** One line of the round history. */
  datatype HistoryEntry = HistoryEntry(reason: EndReason, dealerValue: int, payout: int)

  datatype Option<T> = None | Some(value: T)

  datatype Round = Round(
    deck: seq<Card>,
    playerHands: seq<Hand>,
    dealerHand: Hand,
    currentHandIndex: nat,
    gamePhase: Phase,
    inRound: bool,
    playerTurn: bool,
    showDealer: bool,
    message: Message,
    balance: int,
    currentBet: int,
    doubledDownHands: set<int>,
    gameOver: bool,
    history: seq<HistoryEntry>)

  /**
   * Starting balance: an online player resumes a stored balance, but a
   * missing or zero one (both falsy) and offline play start from 100.
   */
  function InitialBalance(online: bool, stored: Option<int>): int {
    if online && stored.Some? && stored.value != 0 then stored.value else DefaultBalance
  }

  /** The table before the first deal: a shuffled deck, no hands, a bet of 10, betting phase. */
  function InitialRound(online: bool, stored: Option<int>, picks: seq<nat>): (r: Round)
    requires PicksFit(picks, DeckSize)
    ensures |r.deck| == DeckSize && multiset(r.deck) == multiset(FreshDeck())
    ensures r.playerHands == [] && r.dealerHand == [] && r.history == []
    ensures r.gamePhase == Betting && !r.inRound && !r.gameOver
    ensures r.currentBet == DefaultBet
    ensures !online ==> r.balance == DefaultBalance
    ensures online && stored.Some? && stored.value != 0 ==> r.balance == stored.value
    ensures online && (stored == None || stored == Some(0)) ==> r.balance == DefaultBalance
  {
    Round(CreateDeck(picks), [], [], 0, Betting, false, true, false, NoMessage,
          InitialBalance(online, stored), DefaultBet, {}, false, [])
  }

  /** The guard every player action starts with. */
  predicate Active(r: Round) {
    r.inRound && r.playerTurn && r.gamePhase == Playing
  }

  /** The hand being played, or the empty hand if the index is out of range. */
  function ActiveHand(r: Round): Hand {
    if r.currentHandIndex < |r.playerHands| then r.playerHands[r.currentHandIndex] else []
  }

  /** Another player hand follows the active one. */
  predicate MoreHands(r: Round) {
    r.currentHandIndex < |r.playerHands| - 1
  }

  /** Prepend the newest entry and keep at most 20. */
  function PushHistory(history: seq<HistoryEntry>, e: HistoryEntry): (h: seq<HistoryEntry>)
    ensures |h| == (if |history| < HistoryLimit then |history| + 1 else HistoryLimit)
    ensures h[0] == e
    ensures h[1..] == history[..|h| - 1]
  {
    [e] + (if |history| < HistoryLimit - 1 then history else history[..HistoryLimit - 1])
  }

  // ---------------------------------------------------------------- betting

  /** Move the bet by `amount`, clamped to at least 5 and at most the balance (5 wins if the balance is below 5). */
  function AdjustBet(r: Round, amount: int): (r': Round)
    ensures r' == r.(currentBet := r'.currentBet)
    ensures r'.currentBet >= MinBet
    ensures r.balance >= MinBet ==> r'.currentBet <= r.balance
    ensures MinBet <= r.currentBet + amount <= r.balance ==> r'.currentBet == r.currentBet + amount
    ensures r.currentBet + amount < MinBet ==> r'.currentBet == MinBet
    ensures r.currentBet + amount > r.balance >= MinBet ==> r'.currentBet == r.balance
    ensures r.balance < MinBet ==> r'.currentBet == MinBet
  {
    var capped := if r.balance < r.currentBet + amount then r.balance else r.currentBet + amount;
    r.(currentBet := if capped < MinBet then MinBet else capped)
  }

  /** Set the bet to `amount` if it is at least 5 and at most the balance; otherwise nothing happens. */
  function SetBet(r: Round, amount: int): (r': Round)
    ensures r' == r.(currentBet := r'.currentBet)
    ensures MinBet <= amount <= r.balance ==> r' == AdjustBet(r, amount - r.currentBet)
    ensures !(MinBet <= amount <= r.balance) ==> r'.currentBet == r.currentBet
  {
    if amount <= r.balance && amount >= MinBet then r.(currentBet := amount) else r
  }

  // ---------------------------------------------------------------- dealing

  /** The deck a deal draws from: the current one, or a fresh shuffled deck when fewer than 15 cards remain. */
  function DealingDeck(r: Round, picks: seq<nat>): (d: seq<Card>)
    requires PicksFit(picks, DeckSize)
    ensures |d| >= ReshuffleBelow
    ensures |r.deck| >= ReshuffleBelow ==> d == r.deck
    ensures |r.deck| < ReshuffleBelow ==> |d| == DeckSize && multiset(d) == multiset(FreshDeck())
  {
    if |r.deck| < ReshuffleBelow then CreateDeck(picks) else r.deck
  }

  /**
   * Deal a round. Without the funds for the bet only the message, the
   * round flag and the game-over flag change. Otherwise the player gets the
   * top two cards, the dealer the next two, the bet is taken, and a natural
   * is settled at once at 3:2.
   */
  function StartRound(r: Round, picks: seq<nat>): (r': Round)
    requires PicksFit(picks, DeckSize)
    ensures r.balance < r.currentBet ==> r' == r.(message := NoFundsToBet, inRound := false, gameOver := true)
    ensures r.balance >= r.currentBet ==>
      var d := DealingDeck(r, picks);
      var n := |d|;
      && r'.playerHands == [[d[n - 1], d[n - 2]]]
      && r'.dealerHand == [d[n - 3], d[n - 4]]
      && r'.deck == d[..n - 4] && |r'.deck| == |d| - 4
      && r'.currentHandIndex == 0 && r'.doubledDownHands == {}
      && r'.currentBet == r.currentBet && !r'.gameOver
      && (IsPlackGack(r'.playerHands[0]) ==>
            && r'.balance == r.balance - r.currentBet + NaturalPayout(r.currentBet)
            && !r'.inRound && r'.gamePhase == Complete && r'.message.NaturalWin?)
      && (!IsPlackGack(r'.playerHands[0]) ==>
            && r'.balance == r.balance - r.currentBet
            && Active(r') && !r'.showDealer && r'.message == NoMessage)
  {
    if r.balance < r.currentBet then
      r.(message := NoFundsToBet, inRound := false, gameOver := true)
    else
      var d := DealingDeck(r, picks);
      var n := |d|;
      var player := [d[n - 1], d[n - 2]];
      var dealt := r.(deck := d[..n - 4], playerHands := [player], dealerHand := [d[n - 3], d[n - 4]],
                      currentHandIndex := 0, playerTurn := true, message := NoMessage, inRound := true,
                      showDealer := false, gamePhase := Playing, doubledDownHands := {},
                      gameOver := false, balance := r.balance - r.currentBet);
      if IsPlackGack(player) then EndRound(dealt, NaturalEnd) else dealt
  }

  // ---------------------------------------------------------------- settlement

  /** The round-closing flags every ending sets. */
  function Close(r: Round): Round {
    r.(inRound := false, gamePhase := Complete, playerTurn := false, showDealer := true)
  }

  /** A natural pays 3:2 rounded down plus the bet back; game over is not checked here. */
  function SettleNatural(r: Round): Round {
    var total := NaturalPayout(r.currentBet);
    Close(r).(balance := r.balance + total,
              message := NaturalWin(total - r.currentBet, r.currentBet, total),
              history := PushHistory(r.history, HistoryEntry(NaturalEnd, HandValue(r.dealerHand), total)))
  }

  /** A bust on the last hand pays nothing at all, not even for earlier hands that stood. */
  function SettleBust(r: Round): Round {
    Close(r).(message := BustLoss, history := PushHistory(r.history, HistoryEntry(BustEnd, HandValue(r.dealerHand), 0)))
  }

  /**
   * After the dealer's turn each hand is paid by the table; game over when the
   * new balance is below 5. The message lists one payout per hand, and these
   * add up to what the balance gains.
   */
  function SettleStand(r: Round): (r': Round)
    ensures r.currentBet >= 0 ==>
              r.balance <= r'.balance <= r.balance + 2 * StakeTotal(|r.playerHands|, r.doubledDownHands, r.currentBet)
    ensures r'.message.HandResults? && |r'.message.payouts| == |r.playerHands|
    ensures Sum(r'.message.payouts) == r'.balance - r.balance
    ensures !r.gameOver ==> (r'.gameOver <==> r'.balance < MinBet)
    ensures r.gameOver ==> r'.gameOver
  {
    var dealerValue := HandValue(r.dealerHand);
    var hands := r.playerHands;
    var payouts := Payouts(hands, r.doubledDownHands, dealerValue, r.currentBet);
    PayoutsSumToTotal(hands, r.doubledDownHands, dealerValue, r.currentBet);
    var outcomes := seq(|hands|, i requires 0 <= i < |hands| => Judge(HandValue(hands[i]), dealerValue));
    var total := TotalPayout(hands, r.doubledDownHands, dealerValue, r.currentBet);
    var balance := r.balance + total;
    Close(r).(balance := balance,
              gameOver := if balance < MinBet then true else r.gameOver,
              message := HandResults(outcomes, payouts),
              history := PushHistory(r.history, HistoryEntry(StandEnd, dealerValue, total)))
  }

  /**
   * End the round. A natural pays 3:2 plus the bet; a bust pays nothing for
   * ANY hand; a stand pays each hand by the payout table against the final
   * dealer value and flags game over when the new balance is below 5.
   * Cards, hands and bets are left as they are.
   */
  function EndRound(r: Round, reason: EndReason): (r': Round)
    ensures !r'.inRound && r'.gamePhase == Complete && !r'.playerTurn && r'.showDealer
    ensures r'.deck == r.deck && r'.playerHands == r.playerHands && r'.dealerHand == r.dealerHand
    ensures r'.currentHandIndex == r.currentHandIndex && r'.currentBet == r.currentBet
    ensures r'.doubledDownHands == r.doubledDownHands
    ensures reason == BustEnd ==> r'.balance == r.balance && r'.gameOver == r.gameOver && r'.message == BustLoss
    ensures reason == NaturalEnd ==>
              && r'.balance == r.balance + NaturalPayout(r.currentBet) && r'.gameOver == r.gameOver
              && r'.message.NaturalWin?
    ensures reason == StandEnd ==>
              && r'.message.HandResults?
              && r'.balance == r.balance + TotalPayout(r.playerHands, r.doubledDownHands, HandValue(r.dealerHand), r.currentBet)
              && (r'.gameOver <==> r.gameOver || r'.balance < MinBet)
    ensures |r'.history| == (if |r.history| < HistoryLimit then |r.history| + 1 else HistoryLimit)
    ensures r'.history[0].reason == reason && r'.history[1..] == r.history[..|r'.history| - 1]
  {
    match reason
    case NaturalEnd => SettleNatural(r)
    case BustEnd => SettleBust(r)
    case StandEnd => SettleStand(r)
  }

  /**
   * The dealer's turn after the last hand is finished: reveal, draw to 17
   * or more, and settle every hand against the final dealer hand.
   */
  function DealerTurnAndSettle(r: Round): (r': Round)
    requires DealerCanFinish(r.dealerHand, r.deck)
    ensures r'.dealerHand == DealerPlay(r.dealerHand, r.deck).0
    ensures r'.deck == DealerPlay(r.dealerHand, r.deck).1
    ensures r'.dealerHand[..|r.dealerHand|] == r.dealerHand && HandValue(r'.dealerHand) >= DealerStandsAt
    ensures r'.playerHands == r.playerHands && r'.doubledDownHands == r.doubledDownHands
    ensures r'.currentHandIndex == r.currentHandIndex && r'.currentBet == r.currentBet
    ensures !r'.inRound && r'.gamePhase == Complete && r'.showDealer
    ensures r'.balance == r.balance + TotalPayout(r.playerHands, r.doubledDownHands, HandValue(r'.dealerHand), r.currentBet)
    ensures r'.gameOver <==> r.gameOver || r'.balance < MinBet
    ensures r'.message.HandResults?
    ensures |r'.history| == (if |r.history| < HistoryLimit then |r.history| + 1 else HistoryLimit)
    ensures r'.history[0].reason == StandEnd && r'.history[1..] == r.history[..|r'.history| - 1]
  {
    var (hand, rest) := DealerPlay(r.dealerHand, r.deck);
    EndRound(r.(playerTurn := false, showDealer := true, gamePhase := DealerTurn, deck := rest, dealerHand := hand), StandEnd)
  }

  // ---------------------------------------------------------------- player actions

  /**
   * Hit: the active hand takes the top card. On a bust play moves to the
   * next hand, or, on the last hand, the round ends with nothing paid.
   */
  function Hit(r: Round): (r': Round)
    requires Active(r) ==> r.currentHandIndex < |r.playerHands| && |r.deck| > 0
    ensures !Active(r) ==> r' == r
    ensures Active(r) ==>
      var i := r.currentHandIndex;
      && r'.deck == Rest(r.deck)
      && |r'.playerHands| == |r.playerHands|
      && r'.playerHands[i] == r.playerHands[i] + [Top(r.deck)]
      && (forall k :: 0 <= k < |r.playerHands| && k != i ==> r'.playerHands[k] == r.playerHands[k])
      && r'.dealerHand == r.dealerHand && r'.doubledDownHands == r.doubledDownHands
      && r'.balance == r.balance && r'.currentBet == r.currentBet && r'.gameOver == r.gameOver
      && (HandValue(r'.playerHands[i]) <= 21 ==> Active(r') && r'.currentHandIndex == i)
      && (HandValue(r'.playerHands[i]) > 21 && MoreHands(r) ==> Active(r') && r'.currentHandIndex == i + 1)
      && (HandValue(r'.playerHands[i]) > 21 && !MoreHands(r) ==>
            !r'.inRound && r'.gamePhase == Complete && r'.message == BustLoss)
  {
    if !Active(r) then r
    else
      var i := r.currentHandIndex;
      var hand := r.playerHands[i] + [Top(r.deck)];
      var drawn := r.(deck := Rest(r.deck), playerHands := r.playerHands[i := hand]);
      if HandValue(hand) <= 21 then drawn
      else if MoreHands(r) then drawn.(currentHandIndex := i + 1)
      else EndRound(drawn, BustEnd)
  }

  /**
   * Stand: move to the next hand; after the last hand the dealer plays and
   * every hand is settled.
   */
  function Stand(r: Round): (r': Round)
    requires Active(r) && !MoreHands(r) ==> DealerCanFinish(r.dealerHand, r.deck)
    ensures !Active(r) ==> r' == r
    ensures Active(r) && MoreHands(r) ==> r' == r.(currentHandIndex := r.currentHandIndex + 1)
    ensures Active(r) && !MoreHands(r) ==>
      && |r.dealerHand| <= |r'.dealerHand| && r'.dealerHand[..|r.dealerHand|] == r.dealerHand
      && HandValue(r'.dealerHand) >= DealerStandsAt
      && r'.playerHands == r.playerHands && r'.currentBet == r.currentBet
      && !r'.inRound && r'.gamePhase == Complete
      && r'.balance == r.balance + TotalPayout(r.playerHands, r.doubledDownHands, HandValue(r'.dealerHand), r.currentBet)
      && (r'.gameOver <==> r.gameOver || r'.balance < MinBet)
  {
    if !Active(r) then r
    else if MoreHands(r) then r.(currentHandIndex := r.currentHandIndex + 1)
    else DealerTurnAndSettle(r)
  }

  /** What a double down needs from the deck: one card, then a dealer turn if it was the last hand. */
  predicate DoubleDownCanDraw(r: Round) {
    Active(r) && CanDoubleDown(ActiveHand(r)) && r.balance >= r.currentBet ==>
      |r.deck| > 0 && (!MoreHands(r) ==> DealerCanFinish(r.dealerHand, Rest(r.deck)))
  }

  /**
   * Double down on a two-card 9, 10 or 11: take one more bet, add exactly
   * one card, mark the hand doubled, then stand (or follow the bust path).
   * Settlement sees the updated hand and its doubled stake.
   */
  function DoubleDown(r: Round): (r': Round)
    requires DoubleDownCanDraw(r)
    ensures !Active(r) || !CanDoubleDown(ActiveHand(r)) ==> r' == r
    ensures Active(r) && CanDoubleDown(ActiveHand(r)) && r.balance < r.currentBet ==>
              r' == r.(message := NoFundsToDouble)
    ensures Active(r) && CanDoubleDown(ActiveHand(r)) && r.balance >= r.currentBet ==>
      var i := r.currentHandIndex;
      && r'.playerHands == r.playerHands[i := r.playerHands[i] + [Top(r.deck)]]
      && r'.doubledDownHands == r.doubledDownHands + {i}
      && r'.currentBet == r.currentBet
      && (MoreHands(r) ==>
            && Active(r') && r'.currentHandIndex == i + 1 && r'.balance == r.balance - r.currentBet
            && r'.deck == Rest(r.deck) && r'.dealerHand == r.dealerHand
            && r'.gameOver == r.gameOver && r'.history == r.history)
      && (!MoreHands(r) ==>
            && !r'.inRound && r'.gamePhase == Complete
            && r'.dealerHand == DealerPlay(r.dealerHand, Rest(r.deck)).0
            && r'.deck == DealerPlay(r.dealerHand, Rest(r.deck)).1
            && r'.balance == r.balance - r.currentBet
                             + TotalPayout(r'.playerHands, r'.doubledDownHands, HandValue(r'.dealerHand), r.currentBet)
            && |r'.history| == (if |r.history| < HistoryLimit then |r.history| + 1 else HistoryLimit))
  {
    if !Active(r) || !CanDoubleDown(ActiveHand(r)) then r
    else if r.balance < r.currentBet then r.(message := NoFundsToDouble)
    else
      var i := r.currentHandIndex;
      var hand := r.playerHands[i] + [Top(r.deck)];
      var doubled := r.(deck := Rest(r.deck), playerHands := r.playerHands[i := hand],
                        balance := r.balance - r.currentBet,
                        doubledDownHands := r.doubledDownHands + {i});
      if MoreHands(r) then doubled.(currentHandIndex := i + 1)
      else if HandValue(hand) > 21 then EndRound(doubled, BustEnd)
      else DealerTurnAndSettle(doubled)
  }

  /**
   * Split a pair of equal rank: take one more bet, turn the active hand into
   * two hands of one card each, and give each the next card from the deck.
   * Play stays on the first of the two.
   */
  function Split(r: Round): (r': Round)
    requires Active(r) && CanSplit(ActiveHand(r)) && r.balance >= r.currentBet ==> |r.deck| >= 2
    ensures !Active(r) || !CanSplit(ActiveHand(r)) ==> r' == r
    ensures Active(r) && CanSplit(ActiveHand(r)) && r.balance < r.currentBet ==>
              r' == r.(message := NoFundsToSplit)
    ensures Active(r) && CanSplit(ActiveHand(r)) && r.balance >= r.currentBet ==>
      var i := r.currentHandIndex;
      var n := |r.deck|;
      && |r'.playerHands| == |r.playerHands| + 1
      && r'.playerHands[i] == [r.playerHands[i][0], r.deck[n - 1]]
      && r'.playerHands[i + 1] == [r.playerHands[i][1], r.deck[n - 2]]
      && (forall k :: 0 <= k < i ==> r'.playerHands[k] == r.playerHands[k])
      && (forall k :: i < k < |r.playerHands| ==> r'.playerHands[k + 1] == r.playerHands[k])
      && r'.deck == r.deck[..n - 2]
      && r'.currentHandIndex == i && Active(r')
      && r'.balance == r.balance - r.currentBet && r'.currentBet == r.currentBet
      && r'.doubledDownHands == r.doubledDownHands && r'.dealerHand == r.dealerHand
  {
    if !Active(r) || !CanSplit(ActiveHand(r)) then r
    else if r.balance < r.currentBet then r.(message := NoFundsToSplit)
    else
      var i := r.currentHandIndex;
      var pair := r.playerHands[i];
      var first := Top(r.deck);
      var second := Top(Rest(r.deck));
      var hands := r.playerHands[..i] + [[pair[0], first], [pair[1], second]] + r.playerHands[i + 1..];
      SpliceAt(r.playerHands, i, [pair[0], first], [pair[1], second]);
      r.(deck := Rest(Rest(r.deck)), playerHands := hands, balance := r.balance - r.currentBet)
  }

  /** Replacing the hand at `i` by two hands shifts every later hand up by one and leaves earlier ones alone. */
  lemma SpliceAt<T>(xs: seq<T>, i: nat, a: T, b: T)
    requires i < |xs|
    ensures var ys := xs[..i] + [a, b] + xs[i + 1..];
            && |ys| == |xs| + 1 && ys[i] == a && ys[i + 1] == b
            && (forall k :: 0 <= k < i ==> ys[k] == xs[k])
            && (forall k :: i < k < |xs| ==> ys[k + 1] == xs[k])
  {
  }
}
