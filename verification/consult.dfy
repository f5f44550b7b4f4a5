/**
 * What `consult_chatgpt` executes before the model call: a pre-filter over
 * the accounts, and the user message, which carries the event and the
 * account list.
 */
module Consult {
  import opened Wrappers
  import opened Sequences
  import Lex
  import opened Targeting
  import opened RuleSheet

  /** The exception the call raises (and wraps) when an account's history is empty. */
  datatype Failure = HistoryIndexOutOfRange

  /** The pre-filter drops an account whose last listed report is after the event and says "安全". */
  predicate Skipped(a: Account, time: string) {
    && |a.history| > 0
    && Lex.Less(time, a.history[|a.history| - 1].timestamp)
    && a.history[|a.history| - 1].status == Safe
  }

  predicate HasEmptyHistory(accounts: seq<Account>) {
    exists i :: 0 <= i < |accounts| && |accounts[i].history| == 0
  }

  /**
   * The pre-filter loop. Reading the last report of an empty history raises,
   * which aborts the whole call, so it fails exactly when some history is empty.
   */
  function PreFilter(accounts: seq<Account>, time: string): (r: Result<seq<Account>, Failure>)
    ensures r.Err? <==> HasEmptyHistory(accounts)
    ensures r.Ok? ==> r.value == Filter(accounts, a => !Skipped(a, time))
    ensures r.Ok? ==> forall a :: a in r.value <==> a in accounts && !Skipped(a, time)
    decreases |accounts|
  {
    if |accounts| == 0 then Ok([])
    else if |accounts[0].history| == 0 then Err(HistoryIndexOutOfRange)
    else
      assert forall i :: 1 <= i < |accounts| ==> accounts[i] == accounts[1..][i - 1];
      assert HasEmptyHistory(accounts[1..]) ==> HasEmptyHistory(accounts);
      match PreFilter(accounts[1..], time)
      case Err(e) => Err(e)
      case Ok(rest) => Ok(if Skipped(accounts[0], time) then rest else [accounts[0]] + rest)
  }

  /** The pre-filter keeps the accounts in their original order and adds none. */
  lemma PreFilterIsSubsequence(accounts: seq<Account>, time: string)
    requires PreFilter(accounts, time).Ok?
    ensures IsSubsequence(PreFilter(accounts, time).value, accounts)
  {
    FilterIsSubsequence(accounts, a => !Skipped(a, time));
  }

  /** The two JSON documents of the user message. */
  datatype UserMessage = UserMessage(event: Event, accounts: seq<Account>)

  /**
   * The user message as the code builds it: the pre-filter runs, and can
   * raise, but the message lists the unfiltered accounts.
   */
  function ConsultAsWritten(ev: Event, accounts: seq<Account>): (r: Result<UserMessage, Failure>)
    ensures r.Err? <==> HasEmptyHistory(accounts)
    ensures r.Ok? ==> r.value == UserMessage(ev, accounts)
  {
    match PreFilter(accounts, ev.time)
    case Err(e) => Err(e)
    case Ok(_) => Ok(UserMessage(ev, accounts))
  }

  /** The pre-filter has no effect on the message: an account it drops is still sent. */
  lemma SkippedAccountIsStillSent(ev: Event, a: Account)
    requires Skipped(a, ev.time)
    ensures PreFilter([a], ev.time) == Ok([])
    ensures ConsultAsWritten(ev, [a]) == Ok(UserMessage(ev, [a]))
    ensures Consult(ev, [a]) == Ok(UserMessage(ev, []))
  {
    assert [a][1..] == [];
  }

  /** The sample account of the source's own usage example is such an account. */
  lemma SampleAccountIsSkipped()
    ensures Skipped(Account("山口 友也", "東京都千代田区永田町1丁目1番1号",
                            [Report("2025-03-11 14:56:00", Safe, "東京都千代田区永田町1丁目1番1号")]),
                    "2011-03-11 14:46:23")
  {
    Lex.LessAtFirstDifference("2011-03-11 14:46:23", "2025-03-11 14:56:00", 2);
  }

  /** The message the code evidently means to send: the pre-filtered accounts. */
  function Consult(ev: Event, accounts: seq<Account>): (r: Result<UserMessage, Failure>)
    ensures r.Err? <==> HasEmptyHistory(accounts)
    ensures r.Ok? ==> r.value.event == ev
    ensures r.Ok? ==> forall a :: a in r.value.accounts <==> a in accounts && !Skipped(a, ev.time)
  {
    match PreFilter(accounts, ev.time)
    case Err(e) => Err(e)
    case Ok(kept) => Ok(UserMessage(ev, kept))
  }

  /** Reports listed in chronological order, as the string comparison sees it. */
  predicate Chronological(h: seq<Report>) {
    forall i, j :: 0 <= i < j < |h| ==> Lex.LessEq(h[i].timestamp, h[j].timestamp)
  }

  /**
   * On a chronologically listed history whose last report is not stamped
   * exactly at the event time, the pre-filter drops exactly the accounts the
   * rule sheet excludes as updated to safe.
   */
  lemma PreFilterAgreesWithRuleSheet(a: Account, time: string)
    requires |a.history| > 0 && Chronological(a.history)
    requires a.history[|a.history| - 1].timestamp != time
    ensures Skipped(a, time) <==> StandingOf(a.history, time) == UpdatedSafe
  {
    if Skipped(a, time) {
      SkippedIsLatestSafe(a, time);
    }
    if StandingOf(a.history, time) == UpdatedSafe {
      LatestSafeIsSkipped(a, time);
    }
  }

  lemma SkippedIsLatestSafe(a: Account, time: string)
    requires Chronological(a.history) && Skipped(a, time)
    ensures StandingOf(a.history, time) == UpdatedSafe
  {
    var h := a.history;
    var last := |h| - 1;
    forall j | 0 <= j < |h| && SinceEvent(h[j], time)
      ensures Lex.LessEq(h[j].timestamp, h[last].timestamp)
    {
      if j < last {
        assert Lex.LessEq(h[j].timestamp, h[last].timestamp);
      }
    }
    assert IsLatestSinceEvent(h, time, last);
  }

  lemma LatestSafeIsSkipped(a: Account, time: string)
    requires |a.history| > 0 && Chronological(a.history)
    requires a.history[|a.history| - 1].timestamp != time
    requires StandingOf(a.history, time) == UpdatedSafe
    ensures Skipped(a, time)
  {
    var h := a.history;
    var last := |h| - 1;
    var i :| IsLatestSinceEvent(h, time, i) && h[i].status == Safe;
    if i < last {
      assert Lex.LessEq(h[i].timestamp, h[last].timestamp);
      Lex.LessEqTransitive(time, h[i].timestamp, h[last].timestamp);
      assert Lex.LessEq(h[last].timestamp, h[i].timestamp);
      Lex.LessEqAntisymmetric(h[i].timestamp, h[last].timestamp);
    }
    assert i == last;
  }

  /** A safe report stamped exactly at the event time does not make the pre-filter drop the account, though the rule sheet excludes it. */
  lemma SafeReportAtEventTime(a: Account, time: string)
    requires |a.history| == 1 && a.history[0].timestamp == time && a.history[0].status == Safe
    ensures !Skipped(a, time)
    ensures StandingOf(a.history, time) == UpdatedSafe
  {
    Lex.LessIrreflexive(time);
    assert IsLatestSinceEvent(a.history, time, 0);
  }

  /**
   * On a history listed out of order the two disagree: the pre-filter drops
   * an account whose newest report says danger, which the rule sheet targets.
   */
  lemma PreFilterDivergesOnUnorderedHistory(a: Account, time: string, danger: Report, safe: Report)
    requires a.history == [danger, safe]
    requires danger.status == Danger && safe.status == Safe
    requires Lex.Less(time, safe.timestamp) && Lex.Less(safe.timestamp, danger.timestamp)
    ensures Skipped(a, time)
    ensures StandingOf(a.history, time) == UpdatedDanger
  {
    var h := a.history;
    Lex.LessTransitive(time, safe.timestamp, danger.timestamp);
    Lex.LessAsymmetric(safe.timestamp, danger.timestamp);
    assert IsLatestSinceEvent(h, time, 0);
  }
}
