/**
 * The rule sheet the system hands to the language model, as a deterministic
 * reference: estimate the intensity at each account's address, select the
 * targets, look up their level, and list the targets of level 2 to 5 as
 * `{id, status}` entries.
 */
module RuleSheet {
  import opened Wrappers
  import opened Sequences
  import opened Shindo
  import opened Attenuation
  import opened Targeting
  import opened RiskLevel

  /** An account record as the model receives it: name, current address, safety history. */
  datatype Account = Account(name: string, address: string, history: seq<Report>)

  /** The event record: time, epicenter and maximum intensity (magnitude is not modelled). */
  datatype Event = Event(time: string, epicenter: string, maxIntensity: Intensity)

  /** The event record as the message carries it, with the intensity as its label such as "震度7". */
  datatype EventRecord = EventRecord(time: string, epicenter: string, intensity: string)

  /** Reads the event record; a record whose intensity is not one of the ten labels names no event. */
  function ReadEvent(r: EventRecord): (ev: Option<Event>)
    ensures ev.Some? <==> exists i :: Label(i) == r.intensity
    ensures ev.Some? ==> ev.value.time == r.time && ev.value.epicenter == r.epicenter
    ensures ev.Some? ==> Label(ev.value.maxIntensity) == r.intensity
  {
    match ParseLabel(r.intensity)
    case Some(i) => Some(Event(r.time, r.epicenter, i))
    case None => None
  }

  /** One output element: the account name as `id` and the level as `status`. */
  datatype Entry = Entry(id: string, status: nat)

  /** Why a target is a target; `None` for an account that is not one. */
  function ConcernOf(s: Standing): (c: Option<Concern>)
    ensures c.Some? <==> IsTarget(s)
    ensures c == Some(DangerReported) <==> s.UpdatedDanger?
  {
    match s
    case NotUpdated => Some(Unconfirmed)
    case UpdatedDanger => Some(DangerReported)
    case UpdatedSafe => None
    case UpdatedOther(_) => None
  }

  /** The estimated intensity at the account's address. */
  function EstimateAt(ev: Event, a: Account, bandOf: string -> DistanceBand, p: Policy): Intensity
    requires ValidPolicy(p)
  {
    Estimate(ev.maxIntensity, bandOf(a.address), p)
  }

  /** The account's level: defined only for targets, and not for a danger report at shindo 2 or less. */
  function Assess(ev: Event, a: Account, bandOf: string -> DistanceBand, p: Policy): (r: Option<nat>)
    requires ValidPolicy(p)
    ensures r.Some? ==> IsTarget(StandingOf(a.history, ev.time)) && 1 <= r.value <= 5
    ensures StandingOf(a.history, ev.time).NotUpdated? ==> r.Some?
    ensures StandingOf(a.history, ev.time).UpdatedSafe? ==> r.None?
  {
    match ConcernOf(StandingOf(a.history, ev.time))
    case None => None
    case Some(c) => LevelOf(c, EstimateAt(ev, a, bandOf, p))
  }

  /** A stronger event never lowers an account's level, and never leaves a defined level undefined. */
  lemma AssessMonotone(ev: Event, stronger: Intensity, a: Account, bandOf: string -> DistanceBand, p: Policy)
    requires ValidPolicy(p) && AtMost(ev.maxIntensity, stronger)
    requires Assess(ev, a, bandOf, p).Some?
    ensures Assess(ev.(maxIntensity := stronger), a, bandOf, p).Some?
    ensures Assess(ev, a, bandOf, p).value <= Assess(ev.(maxIntensity := stronger), a, bandOf, p).value
  {
    var c := ConcernOf(StandingOf(a.history, ev.time)).value;
    EstimateMonotone(ev.maxIntensity, stronger, bandOf(a.address), p);
    LevelMonotone(c, EstimateAt(ev, a, bandOf, p), EstimateAt(ev.(maxIntensity := stronger), a, bandOf, p));
  }

  /** The entry for one account, when its level is 2 or more. */
  function EntryFor(ev: Event, a: Account, bandOf: string -> DistanceBand, p: Policy): (r: Option<Entry>)
    requires ValidPolicy(p)
    ensures r.Some? <==> Assess(ev, a, bandOf, p).Some? && Assess(ev, a, bandOf, p).value >= 2
    ensures r.Some? ==> r.value == Entry(a.name, Assess(ev, a, bandOf, p).value)
  {
    match Assess(ev, a, bandOf, p)
    case Some(level) => if level >= 2 then Some(Entry(a.name, level)) else None
    case None => None
  }

  /** The answer the rule sheet asks for, one entry per listed account in input order. */
  function Triage(ev: Event, accounts: seq<Account>, bandOf: string -> DistanceBand, p: Policy): (out: seq<Entry>)
    requires ValidPolicy(p)
    ensures |out| <= |accounts|
    ensures forall k :: 0 <= k < |out| ==> 2 <= out[k].status <= 5
    ensures forall k :: 0 <= k < |out| ==> exists i :: 0 <= i < |accounts| && EntryFor(ev, accounts[i], bandOf, p) == Some(out[k])
    ensures forall i :: 0 <= i < |accounts| && EntryFor(ev, accounts[i], bandOf, p).Some? ==>
      EntryFor(ev, accounts[i], bandOf, p).value in out
    decreases |accounts|
  {
    if |accounts| == 0 then []
    else
      var rest := Triage(ev, accounts[1..], bandOf, p);
      assert forall i :: 1 <= i < |accounts| ==> accounts[i] == accounts[1..][i - 1];
      match EntryFor(ev, accounts[0], bandOf, p)
      case Some(e) => [e] + rest
      case None => rest
  }

  /** Each account is assessed on its own: triaging two batches is triaging each. */
  lemma {:induction false} TriageIsBatchIndependent(ev: Event, a: seq<Account>, b: seq<Account>,
                                                    bandOf: string -> DistanceBand, p: Policy)
    requires ValidPolicy(p)
    ensures Triage(ev, a + b, bandOf, p) == Triage(ev, a, bandOf, p) + Triage(ev, b, bandOf, p)
    decreases |a|
  {
    if |a| == 0 {
      assert a + b == b;
    } else {
      assert (a + b)[0] == a[0] && (a + b)[1..] == a[1..] + b;
      TriageIsBatchIndependent(ev, a[1..], b, bandOf, p);
    }
  }

  /** An account is listed on its own exactly when it is a target of level 2 or more. */
  lemma ListedIffTargetOfLevelTwo(ev: Event, a: Account, bandOf: string -> DistanceBand, p: Policy)
    requires ValidPolicy(p)
    ensures Triage(ev, [a], bandOf, p) != [] <==>
      && IsTarget(StandingOf(a.history, ev.time))
      && Assess(ev, a, bandOf, p).Some? && Assess(ev, a, bandOf, p).value >= 2
  {
    assert [a][1..] == [];
  }

  /** An account whose only report says "安全" after the event is never listed, wherever it is. */
  lemma SafeAfterEventIsNeverListed(ev: Event, a: Account, bandOf: string -> DistanceBand, p: Policy)
    requires ValidPolicy(p)
    requires |a.history| == 1 && a.history[0].status == Safe && SinceEvent(a.history[0], ev.time)
    ensures Triage(ev, [a], bandOf, p) == []
  {
    assert IsLatestSinceEvent(a.history, ev.time, 0);
    assert [a][1..] == [];
  }

  /** An account with no report, at the epicenter of a shindo 7 event, gets the top level. */
  lemma UnreportedAtEpicenterIsLevelFive(ev: Event, a: Account, bandOf: string -> DistanceBand, p: Policy)
    requires ValidPolicy(p)
    requires ev.maxIntensity == Shindo7 && bandOf(a.address) == SameMunicipality && a.history == []
    ensures Triage(ev, [a], bandOf, p) == [Entry(a.name, 5)]
  {
    assert [a][1..] == [];
  }
}
