/**
 * The Japan Meteorological Agency seismic intensity scale (shindo), an
 * ordinal scale of ten steps: 0, 1, 2, 3, 4, 5-lower, 5-upper, 6-lower,
 * 6-upper, 7. Event records carry it as a label such as "震度7".
 */
module Shindo {
  import opened Wrappers

  datatype Intensity =
    | Shindo0 | Shindo1 | Shindo2 | Shindo3 | Shindo4
    | Shindo5Lower | Shindo5Upper | Shindo6Lower | Shindo6Upper | Shindo7

  /** Position on the scale, 0 for shindo 0 up to 9 for shindo 7. */
  function Rank(i: Intensity): (r: nat)
    ensures r <= 9
  {
    match i
    case Shindo0 => 0
    case Shindo1 => 1
    case Shindo2 => 2
    case Shindo3 => 3
    case Shindo4 => 4
    case Shindo5Lower => 5
    case Shindo5Upper => 6
    case Shindo6Lower => 7
    case Shindo6Upper => 8
    case Shindo7 => 9
  }

  function FromRank(r: nat): (i: Intensity)
    requires r <= 9
    ensures Rank(i) == r
  {
    if r == 0 then Shindo0
    else if r == 1 then Shindo1
    else if r == 2 then Shindo2
    else if r == 3 then Shindo3
    else if r == 4 then Shindo4
    else if r == 5 then Shindo5Lower
    else if r == 6 then Shindo5Upper
    else if r == 7 then Shindo6Lower
    else if r == 8 then Shindo6Upper
    else Shindo7
  }

  /** Each step has its own rank, so ranks compare intensities faithfully. */
  lemma RankInjective(a: Intensity, b: Intensity)
    ensures Rank(a) == Rank(b) <==> a == b
  {
  }

  predicate AtMost(a: Intensity, b: Intensity) {
    Rank(a) <= Rank(b)
  }

  function Min(a: Intensity, b: Intensity): (m: Intensity)
    ensures AtMost(m, a) && AtMost(m, b)
    ensures m == a || m == b
  {
    if AtMost(a, b) then a else b
  }

  /** The intensity `k` steps below `i`, stopping at the bottom of the scale. */
  function StepDown(i: Intensity, k: nat): (r: Intensity)
    ensures AtMost(r, i)
    ensures Rank(i) >= k ==> Rank(i) - Rank(r) == k
    ensures Rank(i) < k ==> r == Shindo0
  {
    FromRank(if Rank(i) >= k then Rank(i) - k else 0)
  }

  /** The label the agency uses for each step. */
  function Label(i: Intensity): string {
    match i
    case Shindo0 => "震度0"
    case Shindo1 => "震度1"
    case Shindo2 => "震度2"
    case Shindo3 => "震度3"
    case Shindo4 => "震度4"
    case Shindo5Lower => "震度5弱"
    case Shindo5Upper => "震度5強"
    case Shindo6Lower => "震度6弱"
    case Shindo6Upper => "震度6強"
    case Shindo7 => "震度7"
  }

  /** Reads a label; anything that is not one of the ten labels is rejected. */
  function ParseLabel(s: string): (r: Option<Intensity>)
    ensures r.Some? ==> Label(r.value) == s
    ensures forall i :: Label(i) == s ==> r == Some(i)
  {
    if s == "震度0" then Some(Shindo0)
    else if s == "震度1" then Some(Shindo1)
    else if s == "震度2" then Some(Shindo2)
    else if s == "震度3" then Some(Shindo3)
    else if s == "震度4" then Some(Shindo4)
    else if s == "震度5弱" then Some(Shindo5Lower)
    else if s == "震度5強" then Some(Shindo5Upper)
    else if s == "震度6弱" then Some(Shindo6Lower)
    else if s == "震度6強" then Some(Shindo6Upper)
    else if s == "震度7" then Some(Shindo7)
    else None
  }
}
