/**
 * The anomaly heuristic of `analyze_serial`: the gap between an identity's
 * previous serial and the new one, and the three-rule, first-match-wins
 * classification of a roll as suspicious.
 */
module SerialAnalysis {

  import opened Wrappers
  import opened Rolls

  /** A gap above this, before a high roll, is suspicious. */
  const HighRollGap: int := 1

  /** A gap above this is suspicious whatever was rolled. */
  const LargeGapLimit: int := 5

  /** Why a roll was flagged; each carries the values its message quotes. */
  datatype Reason =
    | GapBeforeHighRoll(gap: int, roll: seq<int>)
    | LargeGap(gap: int)
    | WentBackwards(previous: int, serial: int)

  /**
   * The distance from the previous serial. Python's `if previous_serial`
   * treats both `None` and a stored serial of 0 as "no history", so either
   * gives a gap of 0.
   */
  function Gap(previous: Option<int>, serial: int): (gap: int)
    ensures gap != 0 ==> previous.Some? && previous.value != 0
    ensures previous.Some? && previous.value != 0 ==> serial == previous.value + gap
  {
    if previous.Some? && previous.value != 0 then serial - previous.value else 0
  }

  /**
   * The first rule that fires, or `None` when the roll is clean. A roll is
   * suspicious exactly when the gap is negative, above `LargeGapLimit`, or
   * above `HighRollGap` before a high roll, and only a roll with history can be.
   */
  function Classify(previous: Option<int>, serial: int, roll: seq<int>): (suspicion: Option<Reason>)
    ensures var gap := Gap(previous, serial);
      suspicion.Some? <==> gap < 0 || gap > LargeGapLimit || (gap > HighRollGap && IsHighRoll(roll))
    ensures suspicion.Some? ==> previous.Some? && previous.value != 0
    ensures suspicion.Some? && suspicion.value.WentBackwards? ==>
      previous == Some(suspicion.value.previous) && suspicion.value.serial == serial
      && suspicion.value.previous > serial
    ensures var gap := Gap(previous, serial);
      gap > HighRollGap && IsHighRoll(roll) ==> suspicion == Some(GapBeforeHighRoll(gap, roll))
    ensures var gap := Gap(previous, serial);
      !(gap > HighRollGap && IsHighRoll(roll)) && gap > LargeGapLimit ==> suspicion == Some(LargeGap(gap))
    ensures var gap := Gap(previous, serial);
      gap < 0 ==> previous.Some? && suspicion == Some(WentBackwards(previous.value, serial))
  {
    var gap := Gap(previous, serial);
    if gap > HighRollGap && IsHighRoll(roll) then Some(GapBeforeHighRoll(gap, roll))
    else if gap > LargeGapLimit then Some(LargeGap(gap))
    else if gap < 0 then Some(WentBackwards(previous.value, serial))
    else None
  }

  /**
   * The rule order, stated on its own: any die value of at least `HighRoll`
   * after a gap above `HighRollGap` is reported as a gap before a high roll,
   * even when the gap is also above `LargeGapLimit`. It is the first reason
   * clause of `Classify` with the high roll given by one die value.
   */
  lemma RuleOrder(previous: Option<int>, serial: int, roll: seq<int>, i: int)
    requires 0 <= i < |roll| && roll[i] >= HighRoll
    requires Gap(previous, serial) > HighRollGap
    ensures Classify(previous, serial, roll) == Some(GapBeforeHighRoll(Gap(previous, serial), roll))
  {
  }

  /**
   * Roll values matter only for gaps in (`HighRollGap`, `LargeGapLimit`]:
   * outside that window two rolls with the same serials are flagged alike.
   */
  lemma RollMattersOnlyInWindow(previous: Option<int>, serial: int, roll: seq<int>, other: seq<int>)
    requires Gap(previous, serial) <= HighRollGap || Gap(previous, serial) > LargeGapLimit
    ensures Classify(previous, serial, roll).Some? == Classify(previous, serial, other).Some?
  {
  }
}
