/**
 * The rule sheet's target selection: an account is excluded when its safety
 * status was updated to "安全" (safe) at or after the event time (以降), and
 * targeted when it was not updated since then or was updated to "危険" (danger).
 */
module Targeting {
  import opened Wrappers
  import Lex

  /** One entry of an account's `safety_history`. */
  datatype Report = Report(timestamp: string, status: string, location: string)

  const Safe: string := "安全"
  const Danger: string := "危険"

  /** The report was made at or after the event time, comparing timestamps as strings. */
  predicate SinceEvent(r: Report, time: string) {
    Lex.LessEq(time, r.timestamp)
  }

  predicate NoReportSinceEvent(h: seq<Report>, time: string) {
    forall j :: 0 <= j < |h| ==> !SinceEvent(h[j], time)
  }

  /**
   * `h[i]` is the latest report since the event: none is newer,
   * and none further down the list has the same timestamp.
   */
  predicate IsLatestSinceEvent(h: seq<Report>, time: string, i: int) {
    && 0 <= i < |h|
    && SinceEvent(h[i], time)
    && (forall j :: 0 <= j < |h| && SinceEvent(h[j], time) ==> Lex.LessEq(h[j].timestamp, h[i].timestamp))
    && (forall j :: i < j < |h| && SinceEvent(h[j], time) ==> h[j].timestamp != h[i].timestamp)
  }

  /** There is at most one latest report since the event. */
  lemma LatestIsUnique(h: seq<Report>, time: string, i: int, k: int)
    requires IsLatestSinceEvent(h, time, i) && IsLatestSinceEvent(h, time, k)
    ensures i == k
  {
    if i < k {
      Lex.LessEqAntisymmetric(h[i].timestamp, h[k].timestamp);
    } else if k < i {
      Lex.LessEqAntisymmetric(h[i].timestamp, h[k].timestamp);
    }
  }

  /** Index of the latest report since the event, scanning the history from its start. */
  function LatestSinceEvent(h: seq<Report>, time: string): (r: Option<nat>)
    ensures r.Some? ==> r.value < |h|
    decreases |h|
  {
    if |h| == 0 then None
    else
      var prev := LatestSinceEvent(h[..|h| - 1], time);
      var last := |h| - 1;
      if SinceEvent(h[last], time) && (prev.None? || Lex.LessEq(h[prev.value].timestamp, h[last].timestamp))
      then Some(last)
      else prev
  }

  /** The scan finds the latest report since the event, and finds none exactly when there is none. */
  lemma {:induction false} LatestSinceEventCorrect(h: seq<Report>, time: string)
    ensures LatestSinceEvent(h, time).None? <==> NoReportSinceEvent(h, time)
    ensures LatestSinceEvent(h, time).Some? ==> IsLatestSinceEvent(h, time, LatestSinceEvent(h, time).value)
    decreases |h|
  {
    if |h| > 0 {
      var init := h[..|h| - 1];
      var last := |h| - 1;
      LatestSinceEventCorrect(init, time);
      var prev := LatestSinceEvent(init, time);
      assert forall j :: 0 <= j < |init| ==> init[j] == h[j];
      if SinceEvent(h[last], time) && (prev.None? || Lex.LessEq(h[prev.value].timestamp, h[last].timestamp)) {
        forall j | 0 <= j < |h| && SinceEvent(h[j], time)
          ensures Lex.LessEq(h[j].timestamp, h[last].timestamp)
        {
          if j < last {
            Lex.LessEqTransitive(h[j].timestamp, h[prev.value].timestamp, h[last].timestamp);
          }
        }
      } else if prev.Some? {
        var i := prev.value;
        if SinceEvent(h[last], time) {
          Lex.LessTotal(h[i].timestamp, h[last].timestamp);
          Lex.LessIrreflexive(h[last].timestamp);
        }
      }
    }
  }

  /** Where an account stands with respect to the event. */
  datatype Standing =
    | NotUpdated               // no report after the event
    | UpdatedSafe              // the latest report since the event says "安全"
    | UpdatedDanger            // the latest report since the event says "危険"
    | UpdatedOther(status: string)  // the latest report since the event says something else

  function StandingOf(h: seq<Report>, time: string): (s: Standing)
    ensures s.NotUpdated? <==> NoReportSinceEvent(h, time)
    ensures s.UpdatedSafe? <==> exists i :: IsLatestSinceEvent(h, time, i) && h[i].status == Safe
    ensures s.UpdatedDanger? <==> exists i :: IsLatestSinceEvent(h, time, i) && h[i].status == Danger
  {
    LatestSinceEventCorrect(h, time);
    match LatestSinceEvent(h, time)
    case None => NotUpdated
    case Some(i) =>
      LatestUniqueFrom(h, time, i);
      if h[i].status == Safe then UpdatedSafe
      else if h[i].status == Danger then UpdatedDanger
      else UpdatedOther(h[i].status)
  }

  lemma LatestUniqueFrom(h: seq<Report>, time: string, i: int)
    requires IsLatestSinceEvent(h, time, i)
    ensures forall k :: IsLatestSinceEvent(h, time, k) ==> k == i
  {
    forall k | IsLatestSinceEvent(h, time, k)
      ensures k == i
    {
      LatestIsUnique(h, time, i, k);
    }
  }

  /** Targets are the accounts not updated since the event and those updated to danger. */
  predicate IsTarget(s: Standing) {
    s.NotUpdated? || s.UpdatedDanger?
  }
}
