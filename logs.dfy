/** The journal history reader (internal/systemd/logs.go). The system journal
    is an object with a cursor: a sequence of records, the match filter, the
    cursor position, and an oracle that decides which of the fallible calls
    fail. Each call is also recorded in a trace, so that what the reader asks
    of the journal can be stated. */
module Logs {
  import opened Text
  import opened Types

  type Uint64 = n: int | 0 <= n < 0x1_0000_0000_0000_0000

  /** One journal record: its fields, and the wall-clock time it was written,
      in microseconds since the Unix epoch. */
  datatype Record = Record(fields: map<Bytes, Bytes>, realtime: Uint64)

  /** The calls the reader makes on the journal. */
  datatype Call = FlushCall | AddMatchCall(term: Bytes) | SeekTailCall | PreviousCall | NextCall | GetEntryCall

  /** The journal as a value. `pos` is the index of the record under the cursor;
      -1 is the head and |records| the tail. The first element of `outcomes`
      decides the next fallible call: Some(msg) makes it fail with `msg`. Once
      `outcomes` is used up every call succeeds. */
  datatype JournalState = JournalState(
    records: seq<Record>,
    matches: seq<Bytes>,
    pos: int,
    outcomes: seq<Option<Bytes>>,
    calls: seq<Call>)

  /** What a journal call returns, with the journal after it. */
  type JournalAnswer<T> = Answer<T, JournalState>

  /** What Previous and Next return (the number of records stepped, and the
      error), with the journal after the step. */
  datatype Step = Step(n: int, err: Option<Bytes>, state: JournalState)

  // ---------------------------------------------------------------- matching

  /** The "FIELD=value" terms a record can be matched by. */
  function Terms(fields: map<Bytes, Bytes>): set<Bytes>
  {
    set k | k in fields :: k + "=" + fields[k]
  }

  /** A record passes the filter when it carries every match term. */
  predicate Visible(r: Record, matches: seq<Bytes>)
  {
    forall i :: 0 <= i < |matches| ==> matches[i] in Terms(r.fields)
  }

  /** The first record at index `k` or later that passes the filter. */
  function FirstVisibleFrom(records: seq<Record>, matches: seq<Bytes>, k: nat): Option<nat>
    decreases |records| - k
  {
    if k >= |records| then None
    else if Visible(records[k], matches) then Some(k)
    else FirstVisibleFrom(records, matches, k + 1)
  }

  /** The scan finds the first visible record at or after `k`, if there is one. */
  lemma {:induction false} FirstVisibleSpec(records: seq<Record>, matches: seq<Bytes>, k: nat)
    decreases |records| - k
    ensures var r := FirstVisibleFrom(records, matches, k);
      && (r.Some? ==> k <= r.value < |records| && Visible(records[r.value], matches))
      && (r.Some? ==> forall j :: k <= j < r.value ==> !Visible(records[j], matches))
      && (r.None? ==> forall j :: k <= j < |records| ==> !Visible(records[j], matches))
  {
    if k < |records| && !Visible(records[k], matches) {
      FirstVisibleSpec(records, matches, k + 1);
    }
  }

  /** The last record below index `k` that passes the filter. */
  function LastVisibleBelow(records: seq<Record>, matches: seq<Bytes>, k: nat): Option<nat>
    requires k <= |records|
  {
    if k == 0 then None
    else if Visible(records[k - 1], matches) then Some(k - 1)
    else LastVisibleBelow(records, matches, k - 1)
  }

  /** The scan finds the last visible record below `k`, if there is one. */
  lemma {:induction false} LastVisibleSpec(records: seq<Record>, matches: seq<Bytes>, k: nat)
    requires k <= |records|
    ensures var r := LastVisibleBelow(records, matches, k);
      && (r.Some? ==> r.value < k && Visible(records[r.value], matches))
      && (r.Some? ==> forall j :: r.value < j < k ==> !Visible(records[j], matches))
      && (r.None? ==> forall j :: 0 <= j < k ==> !Visible(records[j], matches))
  {
    if k > 0 && !Visible(records[k - 1], matches) {
      LastVisibleSpec(records, matches, k - 1);
    }
  }

  /** Where a forward step from `pos` lands: the nearest visible record after it. */
  function NextVisible(records: seq<Record>, matches: seq<Bytes>, pos: int): Option<nat>
  {
    FirstVisibleFrom(records, matches, if pos < 0 then 0 else pos + 1)
  }

  /** Where a backward step from `pos` lands: the nearest visible record before it. */
  function PrevVisible(records: seq<Record>, matches: seq<Bytes>, pos: int): Option<nat>
  {
    LastVisibleBelow(records, matches, if pos < 0 then 0 else if pos > |records| then |records| else pos)
  }

  // ---------------------------------------------------------------- the journal calls as functions

  /** A call is made: its outcome is used up and the call is recorded. */
  function Consume(s: JournalState, c: Call): JournalState
  {
    s.(outcomes := Rest(s.outcomes), calls := s.calls + [c])
  }

  function FlushStep(s: JournalState): JournalState
  {
    s.(matches := [], calls := s.calls + [FlushCall])
  }

  function AddMatchStep(s: JournalState, term: Bytes): JournalAnswer<Option<Bytes>>
  {
    var s1 := Consume(s, AddMatchCall(term));
    match Fault(s.outcomes)
    case Some(e) => Answer(Some(e), s1)
    case None => Answer(None, s1.(matches := s.matches + [term]))
  }

  function SeekTailStep(s: JournalState): JournalAnswer<Option<Bytes>>
  {
    var s1 := Consume(s, SeekTailCall);
    match Fault(s.outcomes)
    case Some(e) => Answer(Some(e), s1)
    case None => Answer(None, s1.(pos := |s.records|))
  }

  /** Previous: 1 when the cursor moved to an earlier visible record, 0 at the head. */
  function PreviousStep(s: JournalState): Step
  {
    var s1 := Consume(s, PreviousCall);
    match Fault(s.outcomes)
    case Some(e) => Step(0, Some(e), s1)
    case None =>
      match PrevVisible(s.records, s.matches, s.pos)
      case None => Step(0, None, s1)
      case Some(k) => Step(1, None, s1.(pos := k))
  }

  /** Next: 1 when the cursor moved to a later visible record, 0 at the tail. */
  function NextStep(s: JournalState): Step
  {
    var s1 := Consume(s, NextCall);
    match Fault(s.outcomes)
    case Some(e) => Step(0, Some(e), s1)
    case None =>
      match NextVisible(s.records, s.matches, s.pos)
      case None => Step(0, None, s1)
      case Some(k) => Step(1, None, s1.(pos := k))
  }

  /** GetEntry: the record under the cursor. */
  function GetEntryStep(s: JournalState): JournalAnswer<Result<Record>>
  {
    var s1 := Consume(s, GetEntryCall);
    match Fault(s.outcomes)
    case Some(e) => Answer(Err(e), s1)
    case None =>
      if 0 <= s.pos < |s.records| then Answer(Ok(s.records[s.pos]), s1)
      else Answer(Err("no entry under the cursor"), s1)
  }

  // ---------------------------------------------------------------- the journal object

  class Journal {
    var records: seq<Record>
    var matches: seq<Bytes>
    var pos: int
    var outcomes: seq<Option<Bytes>>
    ghost var calls: seq<Call>

    ghost function State(): JournalState
      reads this
    {
      JournalState(records, matches, pos, outcomes, calls)
    }

    /** sdjournal.NewJournal: the cursor at the head, no matches. */
    constructor Open(records: seq<Record>, outcomes: seq<Option<Bytes>>)
      ensures State() == JournalState(records, [], -1, outcomes, [])
    {
      this.records := records;
      this.matches := [];
      this.pos := -1;
      this.outcomes := outcomes;
      this.calls := [];
    }

    /** Takes the outcome of the next fallible call and records the call. */
    method Use(c: Call) returns (fault: Option<Bytes>)
      modifies this
      ensures fault == Fault(old(outcomes))
      ensures State() == Consume(old(State()), c)
    {
      fault := Fault(outcomes);
      outcomes := Rest(outcomes);
      calls := calls + [c];
    }

    method FlushMatches()
      modifies this
      ensures State() == FlushStep(old(State()))
    {
      matches := [];
      calls := calls + [FlushCall];
    }

    method AddMatch(term: Bytes) returns (err: Option<Bytes>)
      modifies this
      ensures Answer(err, State()) == AddMatchStep(old(State()), term)
    {
      err := Use(AddMatchCall(term));
      if err.None? {
        matches := matches + [term];
      }
    }

    method SeekTail() returns (err: Option<Bytes>)
      modifies this
      ensures Answer(err, State()) == SeekTailStep(old(State()))
    {
      err := Use(SeekTailCall);
      if err.None? {
        pos := |records|;
      }
    }

    method Previous() returns (n: int, err: Option<Bytes>)
      modifies this
      ensures Step(n, err, State()) == PreviousStep(old(State()))
    {
      var target := PrevVisible(records, matches, pos);
      err := Use(PreviousCall);
      n := 0;
      if err.None? && target.Some? {
        pos := target.value;
        n := 1;
      }
    }

    method Next() returns (n: int, err: Option<Bytes>)
      modifies this
      ensures Step(n, err, State()) == NextStep(old(State()))
    {
      var target := NextVisible(records, matches, pos);
      err := Use(NextCall);
      n := 0;
      if err.None? && target.Some? {
        pos := target.value;
        n := 1;
      }
    }

    method GetEntry() returns (entry: Result<Record>)
      modifies this
      ensures Answer(entry, State()) == GetEntryStep(old(State()))
    {
      var fault := Use(GetEntryCall);
      if fault.Some? {
        entry := Err(fault.value);
      } else if 0 <= pos < |records| {
        entry := Ok(records[pos]);
      } else {
        entry := Err("no entry under the cursor");
      }
    }
  }

  // ---------------------------------------------------------------- entries

  const MessageField: Bytes := "MESSAGE"
  const PriorityField: Bytes := "PRIORITY"
  const UnitField: Bytes := "_SYSTEMD_UNIT"

  /** A Go map lookup: the empty string for a missing key. */
  function Field(fields: map<Bytes, Bytes>, key: Bytes): Bytes
  {
    if key in fields then fields[key] else []
  }

  /** The match term that selects one unit's records. */
  function UnitMatch(serviceName: Bytes): Bytes
  {
    UnitField + "=" + serviceName
  }

  /** The display severity of a journal priority string: a number up to 3 is
      "error", 4 is "warn", anything else, or no number at all, is "info". */
  function Severity(priority: Bytes): (r: Bytes)
    ensures r == "error" || r == "warn" || r == "info"
    ensures !Atoi(priority).ok ==> r == "info"
  {
    var p := Atoi(priority);
    if !p.ok then "info"
    else if p.value <= 3 then "error"
    else if p.value <= 4 then "warn"
    else "info"
  }

  /** Go's conversion of an integer to int64: two's-complement wrap-around. */
  function ToInt64(x: int): (r: int)
    ensures MinInt64 <= r <= MaxInt64
    ensures MinInt64 <= x <= MaxInt64 ==> r == x
  {
    (x - MinInt64) % 0x1_0000_0000_0000_0000 + MinInt64
  }

  /** int64(RealtimeTimestamp) * 1000, in int64 arithmetic: nanoseconds. */
  function Timestamp(realtime: Uint64): int
  {
    ToInt64(ToInt64(realtime) * 1000)
  }

  /** Each journald priority, as the decimal text journald stores, gets its
      severity: 3 and below (including negative numbers) "error", 4 "warn",
      above 4 "info". */
  lemma SeverityOfPriority(p: int)
    requires MinInt64 <= p <= MaxInt64
    ensures Severity(FormatInt(p)) == if p <= 3 then "error" else if p == 4 then "warn" else "info"
  {
    AtoiFormatInt(p);
  }

  /** Within the int64 range the timestamp is the microsecond count times 1000. */
  lemma TimestampScales(realtime: Uint64)
    requires realtime * 1000 <= MaxInt64
    ensures Timestamp(realtime) == realtime * 1000
  {
    assert realtime <= MaxInt64;
  }

  function ToLogEntry(r: Record): LogEntry
  {
    LogEntry(Timestamp(r.realtime), Field(r.fields, MessageField), Severity(Field(r.fields, PriorityField)))
  }

  /** A record read by the forward pass, with the cursor position it was read at. */
  datatype Read = Read(at: int, record: Record)

  /** The log entries made from the records read, in the order they were read. */
  function LogsOf(visited: seq<Read>): (r: seq<LogEntry>)
    ensures |r| == |visited|
    ensures forall k :: 0 <= k < |r| ==> r[k] == ToLogEntry(visited[k].record)
  {
    if visited == [] then []
    else LogsOf(visited[..|visited| - 1]) + [ToLogEntry(visited[|visited| - 1].record)]
  }

  lemma LogsOfAppend(visited: seq<Read>, r: Read)
    ensures LogsOf(visited + [r]) == LogsOf(visited) + [ToLogEntry(r.record)]
  {
    assert (visited + [r])[..|visited|] == visited;
  }

  // ---------------------------------------------------------------- the history window as functions

  /** Go's `for i := 0; i < count; i++` runs max(count, 0) times. */
  function Steps(count: int): nat
  {
    if count < 0 then 0 else count
  }

  /** The backward pass: up to n Previous steps, stopping at the first that
      returns 0 or fails. */
  function BackSteps(s: JournalState, n: nat): JournalState
    decreases n
  {
    if n == 0 then s
    else
      var step := PreviousStep(s);
      if step.err.Some? || step.n == 0 then step.state else BackSteps(step.state, n - 1)
  }

  /** The forward pass: up to n Next steps, stopping at the first that returns
      0 or fails; each successful step reads the entry, and a failed read is
      dropped. `acc` holds what earlier steps read. */
  function ReadForward(s: JournalState, n: nat, acc: seq<Read>): JournalAnswer<seq<Read>>
    decreases n
  {
    if n == 0 then Answer(acc, s)
    else
      var step := NextStep(s);
      if step.err.Some? || step.n == 0 then Answer(acc, step.state)
      else
        var got := GetEntryStep(step.state);
        ReadForward(got.state, n - 1, Gained(acc, step.state.pos, got.value))
  }

  /** The reads so far, with the entry just fetched at `at` when the fetch succeeded. */
  function Gained(acc: seq<Read>, at: int, got: Result<Record>): seq<Read>
  {
    if got.Ok? then acc + [Read(at, got.value)] else acc
  }

  const AddMatchFailed: Bytes := "failed to add match: "
  const SeekTailFailed: Bytes := "failed to seek tail: "

  /** GetRecentLogs on the journal value: the records read, or the wrapped error. */
  function RecentReads(s: JournalState, serviceName: Bytes, count: int): JournalAnswer<Result<seq<Read>>>
  {
    var added := AddMatchStep(FlushStep(s), UnitMatch(serviceName));
    if added.value.Some? then Answer(Err(AddMatchFailed + added.value.value), added.state)
    else
      var sought := SeekTailStep(added.state);
      if sought.value.Some? then Answer(Err(SeekTailFailed + sought.value.value), sought.state)
      else
        var pass := ReadForward(BackSteps(sought.state, Steps(count)), Steps(count), []);
        Answer(Ok(pass.value), pass.state)
  }

  /** GetRecentLogs on the journal value: the entries, or the wrapped error. */
  function RecentLogs(s: JournalState, serviceName: Bytes, count: int): JournalAnswer<Result<seq<LogEntry>>>
  {
    var r := RecentReads(s, serviceName, count);
    Answer(if r.value.Ok? then Ok(LogsOf(r.value.value)) else Err(r.value.error), r.state)
  }

  // ---------------------------------------------------------------- the reader

  class LogReader {
    const journal: Journal

    constructor (journal: Journal)
      ensures this.journal == journal
    {
      this.journal := journal;
    }

    /** Up to `count` of the unit's most recent entries, oldest first. */
    method GetRecentLogs(serviceName: Bytes, count: int) returns (logs: Result<seq<LogEntry>>)
      modifies journal
      ensures Answer(logs, journal.State()) == RecentLogs(old(journal.State()), serviceName, count)
    {
      journal.FlushMatches();
      var err := journal.AddMatch(UnitMatch(serviceName));
      if err.Some? {
        return Err(AddMatchFailed + err.value);
      }
      err := journal.SeekTail();
      if err.Some? {
        return Err(SeekTailFailed + err.value);
      }
      StepBack(count);
      var entries, visited := ReadEntries(count);
      logs := Ok(entries);
    }

    /** The backward pass of GetRecentLogs. */
    method StepBack(count: int)
      modifies journal
      ensures journal.State() == BackSteps(old(journal.State()), Steps(count))
    {
      ghost var start := journal.State();
      var i := 0;
      while i < count
        invariant i <= Steps(count)
        invariant BackSteps(start, Steps(count)) == BackSteps(journal.State(), Steps(count) - i)
      {
        var n, err := journal.Previous();
        if err.Some? || n == 0 {
          return;
        }
        i := i + 1;
      }
    }

    /** The forward pass of GetRecentLogs: the entries, and where they were read. */
    method ReadEntries(count: int) returns (entries: seq<LogEntry>, ghost visited: seq<Read>)
      modifies journal
      ensures Answer(visited, journal.State()) == ReadForward(old(journal.State()), Steps(count), [])
      ensures entries == LogsOf(visited)
    {
      ghost var start := journal.State();
      ghost var left := Steps(count);
      entries := [];
      visited := [];
      var i := 0;
      while i < count
        invariant left == Steps(count) - i
        invariant entries == LogsOf(visited)
        invariant ReadForward(start, Steps(count), []) == ReadForward(journal.State(), left, visited)
      {
        ghost var before := journal.State();
        var n, err := journal.Next();
        if err.Some? || n == 0 {
          ReadStop(before, left, visited);
          return;
        }
        var at := journal.pos;
        var entry := journal.GetEntry();
        ghost var acc := visited;
        if entry.Ok? {
          LogsOfAppend(visited, Read(at, entry.value));
          entries := entries + [ToLogEntry(entry.value)];
          visited := visited + [Read(at, entry.value)];
        }
        ghost var rest := left - 1;
        ReadMove(before, left, rest, acc);
        left := rest;
        i := i + 1;
      }
    }
  }

  /** A forward pass whose first step fails or finds nothing reads nothing more. */
  lemma ReadStop(s: JournalState, n: nat, acc: seq<Read>)
    requires n > 0 && (NextStep(s).err.Some? || NextStep(s).n == 0)
    ensures ReadForward(s, n, acc) == Answer(acc, NextStep(s).state)
  {
  }

  /** A forward pass whose first step moves reads the entry there, or drops
      it when the read fails, and goes on with one step fewer. */
  lemma ReadMove(s: JournalState, n: nat, m: nat, acc: seq<Read>)
    requires n == m + 1 && NextStep(s).err.None? && NextStep(s).n != 0
    ensures var moved := NextStep(s).state;
      var got := GetEntryStep(moved);
      ReadForward(s, n, acc) == ReadForward(got.state, m, Gained(acc, moved.pos, got.value))
  {
    assert n - 1 == m;
  }

  // ---------------------------------------------------------------- properties of the history window

  /** How many times the call `c` appears in a trace. */
  function Count(calls: seq<Call>, c: Call): nat
  {
    if calls == [] then 0
    else Count(calls[..|calls| - 1], c) + (if calls[|calls| - 1] == c then 1 else 0)
  }

  lemma CountAppend(calls: seq<Call>, d: Call, c: Call)
    ensures Count(calls + [d], c) == Count(calls, c) + (if d == c then 1 else 0)
  {
    assert (calls + [d])[..|calls|] == calls;
  }

  /** A Previous call is recorded, keeps the records and the filter, and
      never moves the cursor forwards; when it reports a step, the cursor is
      on a visible record. */
  lemma PreviousStepSpec(s: JournalState)
    ensures var t := PreviousStep(s).state;
      && t.records == s.records && t.matches == s.matches && t.calls == s.calls + [PreviousCall]
      && t.pos <= s.pos
      && (PreviousStep(s).n != 0 ==> 0 <= t.pos < |s.records| && Visible(s.records[t.pos], s.matches))
  {
    var q := if s.pos < 0 then 0 else if s.pos > |s.records| then |s.records| else s.pos;
    LastVisibleSpec(s.records, s.matches, q);
  }

  /** The backward pass makes at most n Previous calls and no other call, only
      moves the cursor backwards, and leaves the records and the filter alone. */
  lemma {:induction false} BackStepsSpec(s: JournalState, n: nat)
    decreases n
    ensures var t := BackSteps(s, n);
      && t.records == s.records && t.matches == s.matches && t.pos <= s.pos
      && Count(t.calls, PreviousCall) <= Count(s.calls, PreviousCall) + n
      && (forall c :: c != PreviousCall ==> Count(t.calls, c) == Count(s.calls, c))
  {
    if n > 0 {
      PreviousStepSpec(s);
      var step := PreviousStep(s);
      forall c {
        CountAppend(s.calls, PreviousCall, c);
      }
      if step.err.None? && step.n != 0 {
        BackStepsSpec(step.state, n - 1);
      }
    }
  }

  /** A Next call is recorded, keeps the records and the filter, and never
      moves the cursor backwards; when it reports a step, the cursor has moved
      forward onto a visible record. */
  lemma NextStepSpec(s: JournalState)
    ensures var t := NextStep(s).state;
      && t.records == s.records && t.matches == s.matches && t.calls == s.calls + [NextCall]
      && (NextStep(s).n == 0 ==> t.pos == s.pos)
      && (NextStep(s).n != 0 ==> s.pos < t.pos && 0 <= t.pos < |s.records| && Visible(s.records[t.pos], s.matches))
  {
    FirstVisibleSpec(s.records, s.matches, if s.pos < 0 then 0 else s.pos + 1);
  }

  /** GetEntry is recorded, leaves the cursor where it is, and returns the
      record under it. */
  lemma GetEntryStepSpec(s: JournalState)
    ensures var t := GetEntryStep(s).state;
      && t.records == s.records && t.matches == s.matches && t.pos == s.pos
      && t.calls == s.calls + [GetEntryCall]
      && (GetEntryStep(s).value.Ok? ==> 0 <= s.pos < |s.records| && GetEntryStep(s).value.value == s.records[s.pos])
  {
  }

  /** The forward pass makes at most n Next calls, and besides them only
      GetEntry calls. */
  lemma {:induction false} ReadForwardCalls(s: JournalState, n: nat, acc: seq<Read>)
    decreases n
    ensures var t := ReadForward(s, n, acc).state;
      && Count(t.calls, NextCall) <= Count(s.calls, NextCall) + n
      && (forall c :: c != NextCall && c != GetEntryCall ==> Count(t.calls, c) == Count(s.calls, c))
  {
    if n > 0 {
      NextStepSpec(s);
      var step := NextStep(s);
      forall c {
        CountAppend(s.calls, NextCall, c);
      }
      if step.err.None? && step.n != 0 {
        GetEntryStepSpec(step.state);
        var got := GetEntryStep(step.state);
        forall c {
          CountAppend(step.state.calls, GetEntryCall, c);
        }
        ReadForwardCalls(got.state, n - 1, Gained(acc, step.state.pos, got.value));
      }
    }
  }

  /** The forward pass keeps the records and the filter, moves the cursor only
      forwards, and reads at most n records. */
  lemma {:induction false} ReadForwardFrame(s: JournalState, n: nat)
    decreases n
    ensures var r := ReadForward(s, n, []);
      && r.state.records == s.records && r.state.matches == s.matches && s.pos <= r.state.pos
      && |r.value| <= n
  {
    if n > 0 {
      NextStepSpec(s);
      var step := NextStep(s);
      if step.err.None? && step.n != 0 {
        GetEntryStepSpec(step.state);
        var got := GetEntryStep(step.state);
        var m: nat := n - 1;
        ReadMove(s, n, m, []);
        ReadForwardFrame(got.state, m);
        ReadForwardAcc(got.state, m, Gained([], step.state.pos, got.value));
      } else {
        ReadStop(s, n, []);
      }
    }
  }

  /** The reads in `out` are visible records of `s` after its cursor and up
      to `t`'s, each read where the cursor stood, in strictly increasing
      position order; the cursor of `t` is not before that of `s`. */
  ghost predicate ReadInOrder(s: JournalState, t: JournalState, out: seq<Read>)
  {
    && s.pos <= t.pos
    && (forall k :: 0 <= k < |out| ==>
          && s.pos < out[k].at <= t.pos && 0 <= out[k].at < |s.records|
          && out[k].record == s.records[out[k].at] && Visible(out[k].record, s.matches))
    && (forall k, l :: 0 <= k < l < |out| ==> out[k].at < out[l].at)
  }

  /** One forward step: a read at the step's position, if any, followed by
      reads in order from there, are reads in order from before the step. */
  lemma ReadInOrderStep(s: JournalState, s2: JournalState, t: JournalState, first: seq<Read>, rest: seq<Read>)
    requires s2.records == s.records && s2.matches == s.matches && s.pos < s2.pos
    requires ReadInOrder(s2, t, rest)
    requires |first| <= 1
    requires first != [] ==>
      && first[0].at == s2.pos && 0 <= s2.pos < |s.records|
      && first[0].record == s.records[s2.pos] && Visible(first[0].record, s.matches)
    ensures ReadInOrder(s, t, first + rest)
  {
    var out := first + rest;
    forall k | 0 <= k < |out|
      ensures s.pos < out[k].at <= t.pos
    {
      if k >= |first| {
        assert out[k] == rest[k - |first|];
      }
    }
    forall k, l | 0 <= k < l < |out|
      ensures out[k].at < out[l].at
    {
      assert out[l] == rest[l - |first|];
      if k >= |first| {
        assert out[k] == rest[k - |first|];
      }
    }
  }

  /** Reading into an accumulator appends to it what reading from scratch gives. */
  lemma {:induction false} ReadForwardAcc(s: JournalState, n: nat, acc: seq<Read>)
    decreases n
    ensures ReadForward(s, n, acc).state == ReadForward(s, n, []).state
    ensures ReadForward(s, n, acc).value == acc + ReadForward(s, n, []).value
  {
    if n > 0 {
      var step := NextStep(s);
      if step.err.None? && step.n != 0 {
        var got := GetEntryStep(step.state);
        var m: nat := n - 1;
        var g := Gained([], step.state.pos, got.value);
        var acc2 := Gained(acc, step.state.pos, got.value);
        ReadMove(s, n, m, acc);
        ReadMove(s, n, m, []);
        ReadForwardAcc(got.state, m, acc2);
        ReadForwardAcc(got.state, m, g);
        assert acc2 == acc + g;
        Concat(acc, g, ReadForward(got.state, m, []).value);
      } else {
        ReadStop(s, n, acc);
        ReadStop(s, n, []);
        Concat(acc, [], []);
      }
    }
  }

  lemma Concat<T>(a: seq<T>, b: seq<T>, c: seq<T>)
    ensures (a + b) + c == a + (b + c)
    ensures a + [] == a
  {
  }

  /** Each read the forward pass makes is a visible record after the starting
      position, read where the cursor stood, and the reads are in strictly
      increasing position order. */
  lemma {:induction false} ReadForwardOrder(s: JournalState, n: nat)
    decreases n
    ensures ReadInOrder(s, ReadForward(s, n, []).state, ReadForward(s, n, []).value)
  {
    if n > 0 {
      NextStepSpec(s);
      var step := NextStep(s);
      if step.err.None? && step.n != 0 {
        GetEntryStepSpec(step.state);
        var got := GetEntryStep(step.state);
        var first := Gained([], step.state.pos, got.value);
        ReadForwardOrder(got.state, n - 1);
        ReadForwardAcc(got.state, n - 1, first);
        var r := ReadForward(got.state, n - 1, []);
        ReadInOrderStep(s, got.state, r.state, first, r.value);
      }
    }
  }

  /** GetRecentLogs flushes the filter and adds the unit's match term before
      anything else. A failed AddMatch or SeekTail ends the call with the
      wrapped error, before any step or read. */
  lemma RecentReadsErrors(s: JournalState, serviceName: Bytes, count: int)
    ensures var r := RecentReads(s, serviceName, count);
      var opening := s.calls + [FlushCall, AddMatchCall(UnitMatch(serviceName))];
      && (Fault(s.outcomes).Some? ==>
            && r.value == Err(AddMatchFailed + Fault(s.outcomes).value)
            && r.state.calls == opening && r.state.matches == [] && r.state.pos == s.pos)
      && (Fault(s.outcomes).None? && Fault(Rest(s.outcomes)).Some? ==>
            && r.value == Err(SeekTailFailed + Fault(Rest(s.outcomes)).value)
            && r.state.calls == opening + [SeekTailCall]
            && r.state.matches == [UnitMatch(serviceName)] && r.state.pos == s.pos)
      && (r.value.Err? <==> Fault(s.outcomes).Some? || Fault(Rest(s.outcomes)).Some?)
  {
    assert s.calls + [FlushCall] + [AddMatchCall(UnitMatch(serviceName))]
      == s.calls + [FlushCall, AddMatchCall(UnitMatch(serviceName))];
  }

  /** When GetRecentLogs succeeds, the filter holds only the unit's match
      term, at most max(count, 0) records were read, each of them a record of
      the journal carrying the unit's term, in strictly increasing position
      order, and at most max(count, 0) Previous and Next calls were made. */
  lemma RecentReadsWindow(s: JournalState, serviceName: Bytes, count: int)
    requires RecentReads(s, serviceName, count).value.Ok?
    ensures var r := RecentReads(s, serviceName, count);
      var out := r.value.value;
      && r.state.matches == [UnitMatch(serviceName)]
      && |out| <= Steps(count)
      && (forall k :: 0 <= k < |out| ==>
            && 0 <= out[k].at < |s.records| && out[k].record == s.records[out[k].at]
            && UnitMatch(serviceName) in Terms(out[k].record.fields))
      && (forall k, l :: 0 <= k < l < |out| ==> out[k].at < out[l].at)
      && Count(r.state.calls, PreviousCall) <= Count(s.calls, PreviousCall) + Steps(count)
      && Count(r.state.calls, NextCall) <= Count(s.calls, NextCall) + Steps(count)
  {
    var added := AddMatchStep(FlushStep(s), UnitMatch(serviceName));
    var sought := SeekTailStep(added.state);
    var back := BackSteps(sought.state, Steps(count));
    BackStepsSpec(sought.state, Steps(count));
    ReadForwardFrame(back, Steps(count));
    ReadForwardOrder(back, Steps(count));
    ReadForwardCalls(back, Steps(count), []);
    CountAppend(s.calls, FlushCall, PreviousCall);
    CountAppend(s.calls, FlushCall, NextCall);
    CountAppend(s.calls + [FlushCall], AddMatchCall(UnitMatch(serviceName)), PreviousCall);
    CountAppend(s.calls + [FlushCall], AddMatchCall(UnitMatch(serviceName)), NextCall);
    CountAppend(added.state.calls, SeekTailCall, PreviousCall);
    CountAppend(added.state.calls, SeekTailCall, NextCall);
    var r := ReadForward(back, Steps(count), []);
    assert back.records == s.records && back.matches == [UnitMatch(serviceName)];
    forall k | 0 <= k < |r.value|
      ensures UnitMatch(serviceName) in Terms(r.value[k].record.fields)
    {
      assert Visible(r.value[k].record, back.matches);
      assert back.matches[0] == UnitMatch(serviceName);
    }
  }

  /** `logs` are the entries of records of `records` at the strictly
      increasing positions `ats`, each record carrying `term`. */
  ghost predicate WindowOf(records: seq<Record>, term: Bytes, logs: seq<LogEntry>, ats: seq<int>)
  {
    && |ats| == |logs|
    && (forall k :: 0 <= k < |ats| ==>
          && 0 <= ats[k] < |records| && term in Terms(records[ats[k]].fields)
          && logs[k] == ToLogEntry(records[ats[k]]))
    && (forall k, l :: 0 <= k < l < |ats| ==> ats[k] < ats[l])
  }

  /** When GetRecentLogs succeeds it returns at most max(count, 0) entries,
      made from records of the journal carrying the unit's term, oldest
      first; it fails exactly when the reads fail. */
  lemma RecentLogsWindow(s: JournalState, serviceName: Bytes, count: int)
    ensures var logs := RecentLogs(s, serviceName, count).value;
      && (logs.Err? <==> RecentReads(s, serviceName, count).value.Err?)
      && (logs.Ok? ==>
            && |logs.value| <= Steps(count)
            && exists ats :: WindowOf(s.records, UnitMatch(serviceName), logs.value, ats))
  {
    var r := RecentReads(s, serviceName, count);
    if r.value.Ok? {
      RecentReadsWindow(s, serviceName, count);
      var out := r.value.value;
      var ats := seq(|out|, k requires 0 <= k < |out| => out[k].at);
      assert WindowOf(s.records, UnitMatch(serviceName), LogsOf(out), ats);
    }
  }
}
