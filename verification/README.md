# plackGack round engine in Dafny

This project models the round engine of the plackGack blackjack table, which lives in
`src/app/page.tsx`. It covers these parts:

- **The deck.** 52 cards are built suit by suit and then shuffled by Fisher–Yates. The random
  index of each swap is a parameter, a list of picks.
- **Hand values.** Aces count 11 and are demoted to 1 while the hand is over 21. The model also
  has the natural ("plack gack"), split and double-down predicates.
- **Betting.** `adjustBet` and `setBet`.
- **Player actions.** `startRound`, `hit`, `stand`, `doubleDown` and `split`.
- **The dealer's turn.** The dealer draws to 17.
- **Settlement.** Per-hand payouts, the 3:2 natural, the balance, the game-over flag and a
  history of at most 20 entries.

The whole table is one immutable `Round` record, and every action is a pure function from one
`Round` to the next.

The deck is a stack: a draw takes the last card. The code pops from an empty array without a
check, which is a crash. The model turns each draw into a precondition instead. `Dealer.DealerCanFinish`
is an exact precondition saying the dealer's loop never draws from an empty deck.
`Dealer.DealerFinishesWithin` shows that `17 - hard total` cards always suffice.

Modules:

- `Cards`: suits, ranks and points.
- `Hands`: the hand value and the hand predicates.
- `Deck`: the fresh deck, the shuffle and draws.
- `Dealer`: the dealer's turn.
- `Settlement`: the payout table.
- `Game`: the `Round` record and its actions.
- `RoundProperties`: properties that span actions.
  - A well-formedness invariant that every reachable table keeps.
  - Card conservation: hit, stand, double, split and the dealer's turn only move cards from the
    deck to the hands, so no card is created or lost during a round. A deal discards the previous
    round's hands (and, on a reshuffle, the old deck) and puts exactly the dealing deck on the
    table.
  - Money conservation: a deal moves the bet from the balance to the table, and after that, while
    a hand stays in play, no input changes the balance plus the stakes on the table. The inputs
    are a superset of those the screen offers: the bet controls and the Deal button only between
    rounds, and the four player actions during one. The screen also disables Deal, Double and
    Split without funds and offers only a few bet amounts; the model admits those inputs anyway,
    so every property proved over them holds for the screen's inputs too.
- `Findings`: the double down as the code writes it.

## Model

| member | source | states |
|---|---|---|
| Cards.SuitIndex | src/app/page.tsx:37 | every suit has a position in the fixed suit order `♠ ♥ ♦ ♣` |
| Cards.RankIndex | src/app/page.tsx:38 | every rank has a position in the fixed order `A 2 … 10 J Q K` |
| Cards.SuitIndexInverse | src/app/page.tsx:37 | the suit order lists each suit once, so positions and suits correspond one to one |
| Cards.RankIndexInverse | src/app/page.tsx:38 | the rank order lists each rank once, so positions and ranks correspond one to one |
| Cards.SoftPoints | src/app/page.tsx:58-66 | a card first counts 2..11; it counts 11 exactly for an ace and 10 exactly for 10, J, Q, K |
| Cards.HardPoints | src/app/page.tsx:68-71 | after demotion an ace counts 1 and every other card keeps its points |
| Hands.AceCount | src/app/page.tsx:58-62 | the number of aces in a hand never exceeds its size |
| Hands.HardTotal | src/app/page.tsx:55-73 | the all-aces-as-1 total is at least one point per card and at least one per ace |
| Hands.SoftTotal | src/app/page.tsx:56-67 | the first-pass total is the hard total plus 10 for every ace |
| Hands.Demote | src/app/page.tsx:68-71 | each pass of the loop takes 10 off a value over 21 while an ace is still high: the result is at most the start and at least 10 per ace below it; it is still over 21 only when every ace was demoted; and once any ace has been demoted, the result is above 11 |
| Hands.DemoteClosedForm | src/app/page.tsx:68-71 | the demotion loop ends at the hard total, plus 10 exactly when there is an ace and that stays at most 21 |
| Hands.HandValue | src/app/page.tsx:55-73 | the value is the hard total, plus 10 if an ace can count 11 without busting; it busts exactly when the hard total is over 21 |
| Hands.AppendTotals | src/app/page.tsx:58-67 | one more card adds its hard points to the hard total and one ace to the count if it is an ace |
| Hands.PairTotals | src/app/page.tsx:55-73 | a two-card hand's totals are the sums over its two cards |
| Hands.IsPlackGack | src/app/page.tsx:79-81 | a two-card hand worth 21 is exactly an ace with a ten-valued card, in either order |
| Hands.CanSplit | src/app/page.tsx:83-85 | a pair of equal rank can be split, and such a pair is never a natural |
| Hands.CanDoubleDown | src/app/page.tsx:87-89 | a two-card hand worth 9 to 11 may double; it holds no ace, so its value is its hard total |
| Hands.DoubledHandNeverBusts | src/app/page.tsx:261-267 | a double-down hand plus any one card is worth at most 21 |
| Deck.FreshDeck | src/app/page.tsx:41-46 | the unshuffled deck has 52 cards |
| Deck.DeckIndex | src/app/page.tsx:41-46 | every card sits at position 13 × suit + rank of the unshuffled deck |
| Deck.FreshDeckDistinct | src/app/page.tsx:41-46 | no card occurs twice in the unshuffled deck |
| Deck.FreshDeckComplete | src/app/page.tsx:41-46 | the unshuffled deck holds each of the 52 cards exactly once |
| Deck.Swap | src/app/page.tsx:50 | a swap exchanges the two positions, leaves the rest alone and keeps the multiset |
| Deck.ShuffleDown | src/app/page.tsx:48-51 | the Fisher–Yates loop from position i down to 1 keeps the size and the multiset of cards |
| Deck.Shuffle | src/app/page.tsx:48-51 | shuffling is a permutation |
| Deck.CreateDeck | src/app/page.tsx:40-53 | a new deck has 52 cards and is a permutation of the unshuffled deck |
| Deck.CreateDeckComplete | src/app/page.tsx:40-53 | whatever the random picks, a new deck holds every card exactly once |
| Deck.Rest | src/app/page.tsx:182-183 | a draw removes exactly the last card; the rest plus that card is the old deck |
| Dealer.DealerPlay | src/app/page.tsx:239-243 | the dealer ends at 17 or more and keeps the dealt cards in front; every card added to the hand is one card fewer in the deck |
| Dealer.DrawnFromTop | src/app/page.tsx:242 | the i-th card drawn is the i-th card from the top of the deck |
| Dealer.DealerLeavesBottom | src/app/page.tsx:239-243 | the deck the dealer leaves is the bottom of the old deck |
| Dealer.DealerDrawOrder | src/app/page.tsx:240-243 | the dealer's hand is the dealt cards followed by the top cards of the deck, in the order drawn |
| Dealer.DealerKeepsCards | src/app/page.tsx:239-243 | the cards in the dealer's hand and the deck together are the same before and after the dealer's turn |
| Dealer.DealerDrawsFromTop | src/app/page.tsx:239-243 | all three at once: the new cards are the top of the deck in draw order, the deck left is its bottom, and no card is created or lost |
| Dealer.DealerDrawsBelowSeventeen | src/app/page.tsx:241-242 | every card is drawn while the dealer's hand is worth less than 17 (soft 17 stands) |
| Dealer.DealerDrawCount | src/app/page.tsx:241-242 | the dealer draws at most 17 minus the hard total, since each draw adds at least one hard point |
| Dealer.DealerFinishesWithin | src/app/page.tsx:241-242 | a deck of at least 17 minus the hard total cards lets the loop finish without an empty draw |
| Settlement.Judge | src/app/page.tsx:350-372 | each outcome holds exactly under its condition; a player bust loses even when the dealer busts too |
| Settlement.Payout | src/app/page.tsx:350-372 | a hand pays nothing, its stake back, or twice its stake |
| Settlement.Stake | src/app/page.tsx:346 | a hand's stake is the base bet or twice it, and twice only for a doubled hand |
| Settlement.HandPayout | src/app/page.tsx:344-374 | a busted hand is paid nothing; a standing hand against a dealer bust is paid twice its stake; every payout lies between nothing and twice the stake |
| Settlement.Payouts | src/app/page.tsx:344-375 | there is one payout per hand, judged with the doubled stake where the hand was doubled |
| Settlement.NaturalPayout | src/app/page.tsx:336-337 | a natural returns the bet plus 3:2 rounded down: 2 × winnings ≤ 3 × bet < 2 × winnings + 2 |
| Settlement.PayoutTable | src/app/page.tsx:350-372 | on a positive stake, double is paid exactly on a win or a dealer bust, the stake exactly on a tie, and nothing exactly on a bust or a loss |
| Settlement.PayoutMonotone | src/app/page.tsx:350-372 | among hands that stand, a higher value is never paid less |
| Settlement.TotalPayout | src/app/page.tsx:344-377 | the round pays between nothing and twice the total stake on the table |
| Settlement.PayoutsSumToTotal | src/app/page.tsx:375-377 | the per-hand payouts, in hand order, add up to the round's total payout |
| Settlement.StakeTotalBounds | src/app/page.tsx:346 | n hands stake between n and 2n base bets |
| Settlement.StakeTotalIgnoresBeyond | src/app/page.tsx:346 | doubling a hand that does not exist changes no stake |
| Settlement.StakeTotalAddDouble | src/app/page.tsx:346 | doubling one more hand adds exactly one base bet to the stakes |
| Settlement.DealerBustPaysStanding | src/app/page.tsx:353-358 | if the dealer busts and no hand busted, every hand is paid twice its stake |
| Game.InitialRound | src/app/page.tsx:93-106 | the first table has a full fresh deck, no hands, no history, the betting phase and a bet of 10. Offline the balance is 100. Online it resumes the stored balance, unless that is missing or zero, in which case it is 100 |
| Game.PushHistory | src/app/page.tsx:395-398 | the newest entry goes first and at most 20 entries are kept, in order |
| Game.AdjustBet | src/app/page.tsx:163-166 | the new bet is the old one moved by the amount, clamped to the balance and then to at least 5; nothing else changes |
| Game.SetBet | src/app/page.tsx:168-172 | only the bet can change. An amount with 5 ≤ amount ≤ balance gives the same table as `adjustBet` by the difference, so the two controls agree. Any other amount leaves the bet as it was |
| Game.DealingDeck | src/app/page.tsx:182 | a deal uses the current deck unless fewer than 15 cards remain, in which case it uses a fresh full deck |
| Game.StartRound | src/app/page.tsx:175-204 | without funds only the message and flags change. Otherwise the player gets the top two cards, the dealer the next two, and the bet is taken. A natural is paid at once; any other hand starts play on hand 0 |
| Game.SettleStand | src/app/page.tsx:342-388 | on a non-negative bet the balance gains between nothing and twice the stakes. Game over is set exactly when the new balance is below 5, and is never cleared. The message lists one payout per hand, and these add up to the gain |
| Game.EndRound | src/app/page.tsx:324-399 | per reason: the balance, the game-over flag and the message; cards, hands and bets are untouched; the history grows by one entry, capped at 20 |
| Game.DealerTurnAndSettle | src/app/page.tsx:233-248 | the dealer plays out from the current deck, then every hand is settled against the final dealer value |
| Game.Hit | src/app/page.tsx:207-224 | outside play (not in a round, not the player's turn, or not the playing phase; `Game.Active`) nothing changes. Otherwise the active hand takes the top card. On a bust, play moves to the next hand, or on the last hand the round ends with nothing paid |
| Game.Stand | src/app/page.tsx:226-250 | outside play nothing changes. If another hand follows (`Game.MoreHands`), only the index moves to it; after the last hand the dealer plays and the balance grows by the total payout |
| Game.DoubleDown | src/app/page.tsx:252-297 | corrected; the code as written is `Findings.DoubleDownAsWritten`, see "## Findings". Outside play, or when the active hand (`Game.ActiveHand`, the hand at the current index as at line 111) may not double, nothing changes. Without funds only the message changes. Otherwise one more bet is taken, exactly one card is added and the hand is marked doubled. After the last hand, settlement sees the new hand and its doubled stake |
| Game.Split | src/app/page.tsx:299-322 | outside play, or when the active hand is not a pair, nothing changes. Without funds only the message changes. Otherwise one more bet is taken; the pair becomes two hands of one card each plus one new card each; other hands keep their places |
| RoundProperties.StepKeepsInv | src/app/page.tsx:162-322 | every user input keeps the table well formed: bet ≥ 5, doubled hands exist and lie before the active one, and history ≤ 20 |
| RoundProperties.RunKeepsInv | src/app/page.tsx:162-322 | any sequence of inputs keeps the table well formed |
| RoundProperties.ReachableTablesAreWellFormed | src/app/page.tsx:93-106 | every table reached from the initial one is well formed |
| RoundProperties.HandsCardsTake | src/app/page.tsx:210-211 | giving a hand one card adds exactly that card to the hands |
| RoundProperties.HandsCardsSplit | src/app/page.tsx:311-316 | replacing a pair by two hands of one card each plus one new card each adds exactly the two new cards |
| RoundProperties.HitKeepsCards | src/app/page.tsx:209-213 | a hit creates and loses no card |
| RoundProperties.DealerTurnKeepsCards | src/app/page.tsx:239-245 | the dealer's turn creates and loses no card |
| RoundProperties.StandKeepsCards | src/app/page.tsx:226-250 | standing creates and loses no card |
| RoundProperties.DoubleDownKeepsCards | src/app/page.tsx:259-290 | doubling down, with the dealer drawing from the deck left after the player's card, creates and loses no card |
| RoundProperties.SplitKeepsCards | src/app/page.tsx:306-318 | splitting creates and loses no card |
| RoundProperties.DealKeepsCards | src/app/page.tsx:182-187 | a deal puts exactly the dealing deck on the table; after a reshuffle every card is in play exactly once |
| RoundProperties.DealCommitsBet | src/app/page.tsx:196 | after a deal the balance plus the stake on the table equals the balance before |
| RoundProperties.SplitKeepsMoney | src/app/page.tsx:320 | a split moves one bet from the balance to the new hand's stake |
| RoundProperties.DoubleDownKeepsMoney | src/app/page.tsx:264-265 | a double down moves one bet from the balance to the doubled stake |
| RoundProperties.PlayKeepsMoney | src/app/page.tsx:207-322 | during play, any input the screen offers that leaves a hand in play keeps the balance plus the stakes unchanged |
| RoundProperties.RoundKeepsMoney | src/app/page.tsx:175-322 | through any run of inputs during which a hand stays in play, the balance plus the stakes on the table never changes |
| RoundProperties.StandSettlesStakes | src/app/page.tsx:377-387 | after the last stand the balance lies within the stakes on either side of the committed money |
| RoundProperties.DoubleDownNeverBusts | src/app/page.tsx:267-274 | the bust branch of a double down is dead, so the last hand always goes to the dealer and is settled by hand |
| RoundProperties.LastHandBustForfeitsAll | src/app/page.tsx:215-223 | a bust on the last hand pays nothing for any hand, even split hands that stood, and never sets game over |
| RoundProperties.DealCatchesGameOver | src/app/page.tsx:176-180 | a deal the balance cannot cover sets game over and changes neither the balance nor the deck |
| RoundProperties.AcceptedBetDeals | src/app/page.tsx:168-172 | a bet that `setBet` accepts can always be dealt |
| RoundProperties.NaturalFromHundred | src/app/page.tsx:334-339 | from a balance of 100 and a bet of 10, a dealt ace–king natural leaves 115 |
| Findings.DoubleDownAsWritten | src/app/page.tsx:276-294 | as written, doubling on the last hand makes the dealer draw from the deck before the player's draw and pays the hands as they stood before the double; everywhere else it matches the corrected double down |
| Findings.AsWrittenDuplicatesCard | src/app/page.tsx:285-289 | as written, the table holds one extra copy of the player's new card; if the dealer draws, that very card lands in both hands |
| Findings.AsWrittenExtraCard | src/app/page.tsx:285-290 | as written, the cards in play after the double are the cards before it plus a second copy of the player's new card |
| Findings.AsWrittenSharedCard | src/app/page.tsx:285-289 | as written, a dealer below 17 draws first the very card the player was just dealt |
| Findings.AsWrittenIgnoresDouble | src/app/page.tsx:292-294 | 5♠ 5♥ with K♠ on top against a dealer 18, from a balance of 90 and a bet of 10: as written the balance ends at 80, corrected at 120 |
| Findings.EighteenAsWritten | src/app/page.tsx:344-346 | as written, the pre-double pair worth 10 loses to 18 on a single stake |
| Findings.EighteenCorrected | src/app/page.tsx:344-346 | corrected, the doubled 20 beats 18 on a stake of 20 |

## Left out

- Rendering, the leaderboard, sign-in, the API routes and the saving of balances are not modelled. Saving covers `saveBalance` and the unload beacon. None of these touches the round engine's state.
- `Math.random` is replaced by the list of picks passed to `Deck.CreateDeck`. Each pick is the swap index of one Fisher–Yates step, and the preconditions keep each pick in range.
- The timers are dropped, so settlement happens at once. This covers the 1 s delay before a natural is paid (page.tsx:200-202) and the 500 ms delay before a stand is settled (246-248). In the code, the round stays in play during the 1 s window. Double and split are refused there by their guards, because a natural can neither double nor split. Hit and stand are accepted. A stand in the window is settled twice: by its own `endRound` 500 ms after the stand, and by the stale natural timer 1 s after the deal, which pays 3:2 plus the bet again (334-339). The order depends on when the stand was pressed: within 500 ms of the deal the stand's settlement comes first, later the natural's does. Whichever timer fires second closes any deal made between the two. The model settles the natural at once, so none of this is modelled.
- Game.StartRound: the history entry of a natural records the value of the dealer hand just dealt. The code's delayed call reads the dealer hand of the previous render, which is the previous round's hand.
- Game.PushHistory: entries hold the end reason, the dealer value and the total paid, not the formatted line. The line text, the message wording and `handToString` are presentation.
- Popping an empty deck crashes in the code. Here it is a precondition on `Hit`, `Split`, `DoubleDown`, `Stand` and the dealer's turn, so the crash path is not modelled.
- `adjustBet`, `setBet` and `startRound` have no phase guard in the code. The screen shows the bet controls and the Deal button only when no round is in play (page.tsx:463-492). `Game.AdjustBet`, `Game.SetBet` and `Game.StartRound` model the unguarded handlers. `RoundProperties.Allowed` admits these inputs only between rounds, as the screen does. A bet change in mid-round would re-price every stake already on the table, and money conservation does not hold for such a sequence.
- The balance and the bet are unbounded integers. JavaScript numbers are doubles, but every amount stays an integer far below 2^53.

## Findings

| source | as written | input that shows it | evidently intended | confidence | as-written member | corrected member |
|---|---|---|---|---|---|---|
| src/app/page.tsx:285 | after a double down on the last hand, the dealer's turn copies `deck` from the render, before the player's card was popped, and this deck overwrites the one saved at line 262 | 5♠ 5♥, deck with K♠ on top and 2♣ under it, dealer 10♣ 6♦: K♠ goes to the player and again to the dealer | the dealer draws from the deck left after the player's card | high; not executed | Findings.AsWrittenDuplicatesCard | RoundProperties.DoubleDownKeepsCards |
| src/app/page.tsx:292-294 | the delayed `endRound` reads `playerHands` and `doubledDownHands` from the render before the double, so it pays the old hand on a single stake | 5♠ 5♥, K♠ on top, dealer 10♣ 8♦, balance 90, bet 10: the balance ends at 80 | the doubled 20 is paid 40 on its stake of 20, so the balance ends at 120 | high; not executed | Findings.AsWrittenIgnoresDouble | Game.DoubleDown |
