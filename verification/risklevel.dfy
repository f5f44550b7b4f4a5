/**
 * The rule sheet's five-level risk table. A level is looked up from the
 * estimated intensity at the account's address and from why the account is
 * a target: it has not confirmed its safety, or it has reported danger.
 */
module RiskLevel {
  import opened Wrappers
  import opened Shindo

  datatype Concern = Unconfirmed | DangerReported

  /** 1 when `e` has reached `threshold`, else 0. */
  function Reached(e: Intensity, threshold: Intensity): nat {
    if AtMost(threshold, e) then 1 else 0
  }

  /**
   * The level of a target. A danger report at shindo 2 or less is covered by
   * no row of the table, so it has no level.
   */
  function LevelOf(c: Concern, e: Intensity): (r: Option<nat>)
    ensures c == Unconfirmed ==>
      r == Some(1 + Reached(e, Shindo4) + Reached(e, Shindo5Lower) + Reached(e, Shindo6Lower) + Reached(e, Shindo7))
    ensures c == DangerReported ==>
      r == if AtMost(e, Shindo2) then None else Some(3 + Reached(e, Shindo5Lower) + Reached(e, Shindo6Lower))
  {
    match c
    case Unconfirmed =>
      (match e
       case Shindo0 | Shindo1 | Shindo2 | Shindo3 => Some(1)
       case Shindo4 => Some(2)
       case Shindo5Lower | Shindo5Upper => Some(3)
       case Shindo6Lower | Shindo6Upper => Some(4)
       case Shindo7 => Some(5))
    case DangerReported =>
      (match e
       case Shindo0 | Shindo1 | Shindo2 => None
       case Shindo3 | Shindo4 => Some(3)
       case Shindo5Lower | Shindo5Upper => Some(4)
       case Shindo6Lower | Shindo6Upper | Shindo7 => Some(5))
  }

  /** Every defined level is one of the five. */
  lemma LevelInRange(c: Concern, e: Intensity)
    ensures LevelOf(c, e).Some? ==> 1 <= LevelOf(c, e).value <= 5
  {
  }

  /** For a fixed concern, stronger shaking never lowers the level nor leaves it undefined. */
  lemma LevelMonotone(c: Concern, e1: Intensity, e2: Intensity)
    requires AtMost(e1, e2) && LevelOf(c, e1).Some?
    ensures LevelOf(c, e2).Some? && LevelOf(c, e1).value <= LevelOf(c, e2).value
  {
  }

  /** At the same intensity a danger report never ranks below an unconfirmed account. */
  lemma DangerNotBelowUnconfirmed(e: Intensity)
    requires LevelOf(DangerReported, e).Some?
    ensures LevelOf(Unconfirmed, e).value <= LevelOf(DangerReported, e).value
  {
  }
}
