/** Event-log preparation of generate_logs_spain_thailand.py: the row rules of
    `preprocess_df` (keep reposts, normalise account ids, split on
    `is_control`), the trimming and selection of `preprocess_log`, and the
    per-country number of traces. */
module LogGeneration {
  import opened Wrappers
  import opened Sequences
  import opened EventLogs

  // ---------------------------------------------------------------------
  // preprocess_df: row rules
  // ---------------------------------------------------------------------

  /** One row of the raw dataset, restricted to the columns the script keeps
      plus `is_repost`. `postTime` is in milliseconds. */
  datatype Row = Row(postTime: int, accountId: string, repostedPostId: string, isRepost: bool, isControl: bool)

  /** One row of an output frame, with its columns renamed to the event-log
      names: `time:timestamp`, `concept:name` (the account) and
      `case:concept:name` (the reposted post). It has no `is_control` column. */
  datatype EventRow = EventRow(timestamp: int, activity: string, caseId: string)

  /** A character that survives `str.replace('[+=]', '')`. */
  predicate KeptIdChar(c: char)
  {
    c != '+' && c != '='
  }

  /** A character that `str.replace('[+=]', '')` deletes. */
  predicate RemovedIdChar(c: char)
  {
    c == '+' || c == '='
  }

  /** The account id with every `+` and `=` removed and `u` prepended. What
      follows the `u` is the id's own characters in their order: the id is an
      interleaving of it and a sequence made only of `+` and `=`. */
  function NormaliseAccountId(id: string): (r: string)
    ensures |r| >= 1 && r[0] == 'u'
    ensures forall i :: 1 <= i < |r| ==> KeptIdChar(r[i])
    ensures exists removed :: (Interleaves(id, r[1..], removed) &&
      forall i :: 0 <= i < |removed| ==> RemovedIdChar(removed[i]))
    ensures |r| == 1 + |id| - Occurrences(id, '+') - Occurrences(id, '=')
  {
    StrippedLength(id);
    var kept := Filter(id, KeptIdChar);
    var removed := Filter(id, RemovedIdChar);
    FilterPartition(id, KeptIdChar, RemovedIdChar);
    assert (['u'] + kept)[1..] == kept;
    ['u'] + kept
  }

  /** Removing the `+` and `=` characters shortens the id by their number. */
  lemma {:induction false} StrippedLength(id: string)
    ensures |Filter(id, KeptIdChar)| == |id| - Occurrences(id, '+') - Occurrences(id, '=')
    decreases |id|
  {
    if id != [] {
      StrippedLength(id[..|id| - 1]);
    }
  }

  predicate IsRepost(r: Row)
  {
    r.isRepost
  }

  predicate IsControlRepost(r: Row)
  {
    r.isRepost && r.isControl
  }

  predicate IsCoordinatedRepost(r: Row)
  {
    r.isRepost && !r.isControl
  }

  /** The renamed row, with the normalised account id and without
      `is_control`. */
  function ToEventRow(r: Row): (e: EventRow)
    ensures e.timestamp == r.postTime && e.caseId == r.repostedPostId
    ensures e.activity == NormaliseAccountId(r.accountId)
    ensures |e.activity| >= 1 && e.activity[0] == 'u'
    ensures forall i :: 1 <= i < |e.activity| ==> KeptIdChar(e.activity[i])
  {
    EventRow(r.postTime, NormaliseAccountId(r.accountId), r.repostedPostId)
  }

  /** The rules of `preprocess_df` over a sequence of rows: the uncoordinated
      frame holds the control reposts, the coordinated frame the other
      reposts, both in row order and both rewritten by `ToEventRow`, one
      output row per input row. */
  function PreprocessRows(rows: seq<Row>): (frames: (seq<EventRow>, seq<EventRow>))
    ensures frames.0 == Map(Filter(rows, IsControlRepost), ToEventRow)
    ensures frames.1 == Map(Filter(rows, IsCoordinatedRepost), ToEventRow)
    ensures |frames.0| + |frames.1| == |Filter(rows, IsRepost)|
    ensures Interleaves(Map(Filter(rows, IsRepost), ToEventRow), frames.0, frames.1)
    ensures forall e :: e in frames.0 <==> exists r :: r in rows && r.isRepost && r.isControl && ToEventRow(r) == e
    ensures forall e :: e in frames.1 <==> exists r :: r in rows && r.isRepost && !r.isControl && ToEventRow(r) == e
  {
    var reposts := Filter(rows, IsRepost);
    var uncoordinated := Filter(reposts, IsControlRepost);
    var coordinated := Filter(reposts, IsCoordinatedRepost);
    FilterPartition(reposts, IsControlRepost, IsCoordinatedRepost);
    InterleavesCounts(reposts, uncoordinated, coordinated);
    InterleavesMap(reposts, uncoordinated, coordinated, ToEventRow);
    FilterRowsMembership(rows);
    FilterFilter(rows, IsRepost, IsControlRepost);
    FilterFilter(rows, IsRepost, IsCoordinatedRepost);
    (Map(uncoordinated, ToEventRow), Map(coordinated, ToEventRow))
  }

  lemma {:induction false} FilterRowsMembership(rows: seq<Row>)
    ensures var reposts := Filter(rows, IsRepost);
      (forall e :: e in Map(Filter(reposts, IsControlRepost), ToEventRow) <==>
        exists r :: r in rows && r.isRepost && r.isControl && ToEventRow(r) == e) &&
      (forall e :: e in Map(Filter(reposts, IsCoordinatedRepost), ToEventRow) <==>
        exists r :: r in rows && r.isRepost && !r.isControl && ToEventRow(r) == e)
  {
    var reposts := Filter(rows, IsRepost);
    FilterFilter(rows, IsRepost, IsControlRepost);
    FilterFilter(rows, IsRepost, IsCoordinatedRepost);
    forall e
      ensures e in Map(Filter(rows, IsControlRepost), ToEventRow) <==>
        exists r :: r in rows && r.isRepost && r.isControl && ToEventRow(r) == e
    {
      MapMembership(Filter(rows, IsControlRepost), ToEventRow, e);
      forall r ensures r in Filter(rows, IsControlRepost) <==> r in rows && IsControlRepost(r) {
        FilterMembership(rows, IsControlRepost, r);
      }
    }
    forall e
      ensures e in Map(Filter(rows, IsCoordinatedRepost), ToEventRow) <==>
        exists r :: r in rows && r.isRepost && !r.isControl && ToEventRow(r) == e
    {
      MapMembership(Filter(rows, IsCoordinatedRepost), ToEventRow, e);
      forall r ensures r in Filter(rows, IsCoordinatedRepost) <==> r in rows && IsCoordinatedRepost(r) {
        FilterMembership(rows, IsCoordinatedRepost, r);
      }
    }
  }

  // ---------------------------------------------------------------------
  // preprocess_log: trimming and selection
  // ---------------------------------------------------------------------

  const MaxTraceLength: nat := 10
  /** The bounds passed to `filter_case_size` (`1e6` as an integer). */
  const MinCaseSize: nat := 2
  const MaxCaseSize: nat := 1000000

  /** A trace cut to its first `MaxTraceLength` events, keeping its trace
      attributes; a trace no longer than that is kept as it is. */
  function Trim(t: Trace): (r: Trace)
    ensures r.attributes == t.attributes
    ensures r.events <= t.events
    ensures |r.events| == if |t.events| <= MaxTraceLength then |t.events| else MaxTraceLength
  {
    if |t.events| > MaxTraceLength then Trace(t.attributes, t.events[..MaxTraceLength]) else t
  }

  /** The trimming loop of lines 57-68: every trace trimmed, in order. */
  method TrimLog(log: EventLog) returns (trimmedLog: EventLog)
    ensures trimmedLog == Map(log, Trim)
    ensures forall j :: 0 <= j < |trimmedLog| ==> |trimmedLog[j].events| <= MaxTraceLength
  {
    trimmedLog := [];
    for k := 0 to |log|
      invariant trimmedLog == Map(log[..k], Trim)
    {
      assert log[..k + 1][..k] == log[..k];
      var trace := log[k];
      if |trace.events| > MaxTraceLength {
        var events: seq<Event> := [];
        for i := 0 to MaxTraceLength
          invariant events == trace.events[..i]
        {
          events := events + [trace.events[i]];
        }
        trimmedLog := trimmedLog + [Trace(trace.attributes, events)];
      } else {
        trimmedLog := trimmedLog + [trace];
      }
    }
    assert log[..|log|] == log;
  }

  /** `filter_case_size(log, lo, hi)`: the traces whose number of events lies
      in `[lo, hi]`, in order. */
  function CaseSizeWithin(lo: nat, hi: nat): Trace -> bool
  {
    (t: Trace) => lo <= |t.events| <= hi
  }

  function FilterCaseSize(log: EventLog, lo: nat, hi: nat): EventLog
  {
    Filter(log, CaseSizeWithin(lo, hi))
  }

  /** The traces `preprocess_log` may select from: trimmed, then filtered. */
  function EligibleTraces(log: EventLog): EventLog
  {
    FilterCaseSize(Map(log, Trim), MinCaseSize, MaxCaseSize)
  }

  /** The error of indexing past the end of the filtered log. */
  datatype Error = IndexOutOfRange(index: nat) | UnknownCountry(country: string)

  /** The selection loop of lines 74-77: the first `logLength` traces, or
      the failure raised at the first missing index. */
  method SelectFirst(log: EventLog, logLength: int) returns (r: Result<EventLog, Error>)
    ensures r.Success? <==> logLength <= |log|
    ensures r.Success? ==> r.value == log[..if logLength < 0 then 0 else logLength]
    ensures r.Failure? ==> r.error == IndexOutOfRange(|log|)
  {
    var shortLog: EventLog := [];
    var i := 0;
    while i < logLength
      invariant 0 <= i <= |log|
      invariant logLength >= 0 ==> i <= logLength
      invariant logLength < 0 ==> i == 0
      invariant shortLog == log[..i]
    {
      if i >= |log| {
        return Failure(IndexOutOfRange(i));
      }
      shortLog := shortLog + [log[i]];
      i := i + 1;
    }
    return Success(shortLog);
  }

  /** `preprocess_log` from the converted log on: the first `logLength`
      eligible traces, each holding between 2 and 10 events; fails when fewer
      than `logLength` traces are eligible. */
  method PreprocessLog(log: EventLog, logLength: int) returns (r: Result<EventLog, Error>)
    ensures r.Success? <==> logLength <= |EligibleTraces(log)|
    ensures r.Success? ==> r.value == EligibleTraces(log)[..if logLength < 0 then 0 else logLength]
    ensures r.Success? ==> forall j :: 0 <= j < |r.value| ==>
      MinCaseSize <= |r.value[j].events| <= MaxTraceLength
  {
    var trimmedLog := TrimLog(log);
    var filteredLog := FilterCaseSize(trimmedLog, MinCaseSize, MaxCaseSize);
    r := SelectFirst(filteredLog, logLength);
    if r.Success? {
      EligibleBounds(log);
    }
  }

  /** Every eligible trace has between 2 and 10 events. */
  lemma {:induction false} EligibleBounds(log: EventLog)
    ensures forall j :: 0 <= j < |EligibleTraces(log)| ==>
      MinCaseSize <= |EligibleTraces(log)[j].events| <= MaxTraceLength
  {
    var trimmed := Map(log, Trim);
    var eligible := EligibleTraces(log);
    forall j | 0 <= j < |eligible|
      ensures MinCaseSize <= |eligible[j].events| <= MaxTraceLength
    {
      var k :| 0 <= k < |trimmed| && trimmed[k] == eligible[j];
    }
  }

  function HasAtLeast(n: nat): Trace -> bool
  {
    (t: Trace) => |t.events| >= n
  }

  /** Trimming comes first, so the upper bound of the case-size filter never
      removes anything: the eligible traces are the trimmed versions of the
      input traces with at least two events, in order. */
  lemma {:induction false} EligibleIsTrimmedLongTraces(log: EventLog)
    ensures EligibleTraces(log) == Map(Filter(log, HasAtLeast(MinCaseSize)), Trim)
  {
    FilterMap(log, Trim, CaseSizeWithin(MinCaseSize, MaxCaseSize), HasAtLeast(MinCaseSize));
  }

  // ---------------------------------------------------------------------
  // Lines 111-118: per-country log length
  // ---------------------------------------------------------------------

  /** The number of traces selected for a country; no value is assigned for
      any other country. */
  function LogLength(country: string): (n: Option<nat>)
    ensures n.Some? <==> country == "spain" || country == "thailand"
    ensures country == "spain" ==> n == Some(3000)
    ensures country == "thailand" ==> n == Some(1500)
  {
    if country == "spain" then Some(3000)
    else if country == "thailand" then Some(1500)
    else None
  }

  /** The log generated for one country from one converted log: 3000 traces
      for Spain, 1500 for Thailand, when that many traces are eligible. */
  method GenerateCountryLog(country: string, log: EventLog) returns (r: Result<EventLog, Error>)
    ensures country == "spain" ==> (r.Success? <==> |EligibleTraces(log)| >= 3000)
    ensures country == "thailand" ==> (r.Success? <==> |EligibleTraces(log)| >= 1500)
    ensures country == "spain" && r.Success? ==> |r.value| == 3000
    ensures country == "thailand" && r.Success? ==> |r.value| == 1500
    ensures r.Success? ==> r.value <= EligibleTraces(log)
    ensures country != "spain" && country != "thailand" ==> r == Failure(UnknownCountry(country))
  {
    var logLength := LogLength(country);
    if logLength.None? {
      return Failure(UnknownCountry(country));
    }
    r := PreprocessLog(log, logLength.value);
  }
}
