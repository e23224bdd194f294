/**
 * The hand evaluator: every ace is first counted as 11, then 10 is taken
 * off per ace while the total is over 21. On top of it sit the three
 * predicates the actions are guarded by: natural, splittable, doubleable.
 */
module Hands {
  import opened Cards

  /** Number of aces in a hand. */
  function AceCount(h: Hand): (n: nat)
    ensures n <= |h|
  {
    if |h| == 0 then 0
    else AceCount(h[..|h| - 1]) + (if h[|h| - 1].rank == Ace then 1 else 0)
  }

  /** The hard total: every ace counts 1, face cards 10. */
  function HardTotal(h: Hand): (t: nat)
    ensures t >= |h|
    ensures t >= AceCount(h)
  {
    if |h| == 0 then 0 else HardTotal(h[..|h| - 1]) + HardPoints(h[|h| - 1].rank)
  }

  /** The first pass of the evaluator: every ace counts 11. */
  function SoftTotal(h: Hand): (t: nat)
    ensures t == HardTotal(h) + 10 * AceCount(h)
  {
    if |h| == 0 then 0 else SoftTotal(h[..|h| - 1]) + SoftPoints(h[|h| - 1].rank)
  }

  /** The second pass: while over 21 and an ace is still counted high, count it low. */
  function Demote(value: int, aces: nat): (d: int)
    ensures value - 10 * aces <= d <= value
    ensures d > 21 ==> d == value - 10 * aces
    ensures d < value ==> d > 11
    decreases aces
  {
    if value > 21 && aces > 0 then Demote(value - 10, aces - 1) else value
  }

  /**
   * Starting from `hard + 10 * aces`, the demotion loop leaves exactly one
   * ace high when that does not bust, and none otherwise.
   */
  lemma {:induction false} DemoteClosedForm(hard: int, aces: nat)
    requires hard >= aces
    ensures Demote(hard + 10 * aces, aces)
            == hard + (if aces > 0 && hard + 10 <= 21 then 10 else 0)
    decreases aces
  {
    if hard + 10 * aces > 21 && aces > 0 {
      assert hard + 10 * aces - 10 == hard + 10 * (aces - 1);
      DemoteClosedForm(hard, aces - 1);
    }
  }

  /**
   * Value of a hand. It is the hard total plus 10 exactly when the hand holds
   * an ace and that ace can count high without busting.
   */
  function HandValue(h: Hand): (v: int)
    ensures v == HardTotal(h) + (if AceCount(h) > 0 && HardTotal(h) + 10 <= 21 then 10 else 0)
    ensures HardTotal(h) <= v <= HardTotal(h) + 10
    ensures v > 21 <==> HardTotal(h) > 21
  {
    DemoteClosedForm(HardTotal(h), AceCount(h));
    Demote(SoftTotal(h), AceCount(h))
  }

  /** Adding a card adds its hard points and, for an ace, one more ace. */
  lemma AppendTotals(h: Hand, c: Card)
    ensures HardTotal(h + [c]) == HardTotal(h) + HardPoints(c.rank)
    ensures AceCount(h + [c]) == AceCount(h) + (if c.rank == Ace then 1 else 0)
  {
    assert (h + [c])[..|h|] == h;
  }

  /** Two cards worth 21, which is exactly an ace with a ten-valued card, in either order. */
  function IsPlackGack(h: Hand): (b: bool)
    ensures b <==> |h| == 2 && ((h[0].rank == Ace && TenValued(h[1].rank)) || (h[1].rank == Ace && TenValued(h[0].rank)))
  {
    if |h| == 2 then PairTotals(h); HandValue(h) == 21 else false
  }

  /** Two cards of exactly the same rank (a ten and a king do not qualify); never a natural. */
  function CanSplit(h: Hand): (b: bool)
    ensures b ==> !IsPlackGack(h)
  {
    |h| == 2 && h[0].rank == h[1].rank
  }

  /** Two cards worth 9, 10 or 11; such a hand holds no ace, so its value is its hard total. */
  function CanDoubleDown(h: Hand): (b: bool)
    ensures b ==> AceCount(h) == 0 && HandValue(h) == HardTotal(h)
  {
    if |h| == 2 then PairTotals(h); 9 <= HandValue(h) <= 11 else false
  }

  /** Totals of a two-card hand. */
  lemma PairTotals(h: Hand)
    requires |h| == 2
    ensures HardTotal(h) == HardPoints(h[0].rank) + HardPoints(h[1].rank)
    ensures AceCount(h) == (if h[0].rank == Ace then 1 else 0) + (if h[1].rank == Ace then 1 else 0)
  {
    var first := h[..1];
    assert first[..0] == [];
    assert HardTotal(first) == HardPoints(h[0].rank);
    assert AceCount(first) == (if h[0].rank == Ace then 1 else 0);
  }

  /** The one card a double down adds can never bust the hand. */
  lemma DoubledHandNeverBusts(h: Hand, c: Card)
    requires CanDoubleDown(h)
    ensures HandValue(h + [c]) <= 21
  {
    AppendTotals(h, c);
  }
}
