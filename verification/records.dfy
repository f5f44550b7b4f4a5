/**
 * The processing of the safety-response log in `test_json_processing`: the
 * loaded JSON is made a list, the records of user `USR01235` are dropped
 * (all records are kept when that leaves none), the rest are sorted newest
 * first by their `timestamp` string, and the list is wrapped as
 * `{"user_data": ...}`.
 */
module Records {
  import opened Wrappers
  import opened Sequences
  import opened StableSort
  import Lex

  /** The user whose records the log processing drops. */
  const ExcludedUser: string := "USR01235"

  /**
   * A JSON object of the log: the three keys the processing reads, and the
   * names of the other keys, whose values it never reads. Whether `user_id`,
   * `timestamp` and `data` are present is carried by the first three fields
   * alone, so `otherKeys` is meant to hold none of those three names.
   */
  datatype Record = Record(userId: Option<string>, timestamp: Option<string>, data: DataField, otherKeys: set<string>)

  /** The `data` key of an object: absent, a list, or any other value. */
  datatype DataField = NoData | DataList(items: seq<Item>) | DataOther

  /** An element of a JSON list: an object, or any other value. */
  datatype Item = Object(record: Record) | NonObject

  /** What `json.load` returned. */
  datatype Loaded =
    | LoadedList(items: seq<Item>)
    | LoadedObject(record: Record)
    | LoadedString(text: string)
    | LoadedScalar  // a number, a boolean or null

  datatype Failure =
    | NotIterable        // iterating over a number, a boolean or null
    | NotAnObject        // `.get` on a list element that is not an object
    | SizeOfScalar       // `len` of a number, a boolean or null
    | FirstElementOfObject  // indexing a non-empty object with 0

  /** The processing's output object, whose only key is `user_data`. */
  datatype Output = Output(userData: seq<Record>)

  /**
   * The list the processing iterates over. A list is used as it is, an object
   * with a list under `data` becomes that list, any other object a one-element
   * list; a string stays a string and is iterated character by character.
   */
  function Normalise(loaded: Loaded): (r: Result<seq<Item>, Failure>)
    ensures loaded.LoadedList? ==> r == Ok(loaded.items)
    ensures loaded.LoadedObject? && loaded.record.data.DataList? ==> r == Ok(loaded.record.data.items)
    ensures loaded.LoadedObject? && !loaded.record.data.DataList? ==> r == Ok([Object(loaded.record)])
    ensures loaded.LoadedString? ==> r.Ok? && |r.value| == |loaded.text| && forall i :: 0 <= i < |r.value| ==> r.value[i] == NonObject
    ensures r.Err? <==> loaded.LoadedScalar?
  {
    match loaded
    case LoadedList(items) => Ok(items)
    case LoadedObject(rec) =>
      if rec.data.DataList? then Ok(rec.data.items) else Ok([Object(rec)])
    case LoadedString(text) => Ok(seq(|text|, _ => NonObject))
    case LoadedScalar => Err(NotIterable)
  }

  /** The records of the list; reading `user_id` of an element that is not an object raises. */
  function AsRecords(items: seq<Item>): (r: Result<seq<Record>, Failure>)
    ensures r.Err? <==> NonObject in items
    ensures r.Ok? ==> |r.value| == |items| && forall i :: 0 <= i < |items| ==> items[i] == Object(r.value[i])
    decreases |items|
  {
    if |items| == 0 then Ok([])
    else
      assert forall i :: 1 <= i < |items| ==> items[i] == items[1..][i - 1];
      match items[0]
      case NonObject => Err(NotAnObject)
      case Object(rec) =>
        match AsRecords(items[1..])
        case Err(e) => Err(e)
        case Ok(rest) => Ok([rec] + rest)
  }

  /** `record.get('user_id') != 'USR01235'`; a record without `user_id` is kept. */
  predicate NotExcluded(rec: Record) {
    rec.userId != Some(ExcludedUser)
  }

  /** The filtered records, or all of them when the filter leaves none. */
  function WithFallback(all: seq<Record>): (r: seq<Record>)
    ensures (exists i :: 0 <= i < |all| && NotExcluded(all[i])) ==> r == Filter(all, NotExcluded)
    ensures (forall i :: 0 <= i < |all| ==> !NotExcluded(all[i])) ==> r == all
  {
    var kept := Filter(all, NotExcluded);
    if kept == [] then all else kept
  }

  /** `x.get('timestamp', '')`. */
  function SortKey(rec: Record): string {
    rec.timestamp.GetOr("")
  }

  /** Filter, fall back, and sort newest first. */
  function ProcessRecords(all: seq<Record>): (out: seq<Record>)
    ensures NonIncreasing(out, SortKey)
    ensures multiset(out) == multiset(WithFallback(all))
    ensures forall k :: WithKey(out, SortKey, k) == WithKey(WithFallback(all), SortKey, k)
  {
    var chosen := WithFallback(all);
    StableOnEveryKey(chosen);
    SortDescending(chosen, SortKey)
  }

  lemma StableOnEveryKey(s: seq<Record>)
    ensures forall k :: WithKey(SortDescending(s, SortKey), SortKey, k) == WithKey(s, SortKey, k)
  {
    forall k {
      SortIsStable(s, SortKey, k);
    }
  }

  /** Lines 40-81 of the processing. */
  function Process(loaded: Loaded): (r: Result<Output, Failure>)
    ensures r.Err? <==> loaded.LoadedScalar? || (Normalise(loaded).Ok? && NonObject in Normalise(loaded).value)
    ensures r.Ok? ==> r.value == Output(ProcessRecords(AsRecords(Normalise(loaded).value).value))
  {
    match Normalise(loaded)
    case Err(e) => Err(e)
    case Ok(items) =>
      match AsRecords(items)
      case Err(e) => Err(e)
      case Ok(all) => Ok(Output(ProcessRecords(all)))
  }

  /** The output holds every record of another user, as often as the input does, and none of `USR01235`, unless that leaves nothing. */
  lemma ProcessDropsExactlyExcludedUser(all: seq<Record>, rec: Record)
    requires exists i :: 0 <= i < |all| && NotExcluded(all[i])
    ensures multiset(ProcessRecords(all))[rec] == if NotExcluded(rec) then multiset(all)[rec] else 0
  {
    FilterCount(all, NotExcluded, rec);
  }

  /** When every record is `USR01235`'s, or there are none, the output holds all of them. */
  lemma ProcessFallsBackToAll(all: seq<Record>)
    requires forall i :: 0 <= i < |all| ==> !NotExcluded(all[i])
    ensures multiset(ProcessRecords(all)) == multiset(all)
    ensures all == [] ==> ProcessRecords(all) == []
  {
  }

  /** A record without `timestamp` is keyed `''`, the least key, so only records keyed `''` follow it. */
  lemma MissingTimestampsComeLast(all: seq<Record>, i: int, j: int)
    requires 0 <= i < j < |ProcessRecords(all)| && ProcessRecords(all)[i].timestamp.None?
    ensures SortKey(ProcessRecords(all)[j]) == ""
  {
    var out := ProcessRecords(all);
    assert Lex.LessEq(SortKey(out[j]), SortKey(out[i]));
  }

  /** A single object is processed as the one-element list holding it. */
  lemma ObjectIsOneElementList(rec: Record)
    requires !rec.data.DataList?
    ensures Process(LoadedObject(rec)) == Process(LoadedList([Object(rec)]))
  {
  }

  /** An object with a list under `data` is processed as that list. */
  lemma ObjectWithDataIsItsList(rec: Record)
    requires rec.data.DataList?
    ensures Process(LoadedObject(rec)) == Process(LoadedList(rec.data.items))
  {
  }

  /** An object with no keys at all. */
  predicate IsEmptyObject(rec: Record) {
    rec.userId.None? && rec.timestamp.None? && rec.data.NoData? && rec.otherKeys == {}
  }

  /**
   * Lines 31-81 as written. Before the normalisation the debugging lines take
   * `len(all_data)`, which raises for a number, a boolean or null, and print
   * `all_data[0]` when the value is non-empty, which raises for an object,
   * since the keys of a JSON object are strings.
   */
  function ProcessAsWritten(loaded: Loaded): (r: Result<Output, Failure>)
    ensures loaded.LoadedObject? ==> (r.Ok? <==> IsEmptyObject(loaded.record))
    ensures loaded.LoadedList? || loaded.LoadedString? ==> r == Process(loaded)
    ensures loaded.LoadedScalar? ==> r.Err?
  {
    match loaded
    case LoadedScalar => Err(SizeOfScalar)
    case LoadedObject(rec) => if IsEmptyObject(rec) then Process(loaded) else Err(FirstElementOfObject)
    case _ => Process(loaded)
  }

  /** As written, an object with a list under `data` never reaches the normalisation meant for it. */
  lemma ObjectWithDataFailsAsWritten(rec: Record)
    requires rec.data.DataList?
    ensures ProcessAsWritten(LoadedObject(rec)).Err?
    ensures Process(LoadedObject(rec)).Ok? <==> NonObject !in rec.data.items
  {
  }
}
