/** Recording the audit lines of the database in windows of time, from a bound kept in a cache. */
module LogSync {
  import opened Wrappers

  type Time = int

  /** What no two records may share: the role, the time, and the hash of the query. */
  type Key = nat

  /** A line that qualifies for being recorded. */
  datatype Line = Line(time: Time, key: Key)

  /** The cache keeps a value for five minutes; without one, a run goes back five minutes. */
  const CACHE_SECONDS := 300
  const FALLBACK_SECONDS := 300

  datatype Bound = Bound(to: Time, until: Time)

  /** A record is made first, and its tables after it. */
  datatype Sync = Sync(bound: Option<Bound>, records: map<Key, bool>)

  /** The start of the window of a run at a time. */
  function From(bound: Option<Bound>, now: Time): Time {
    if bound.Some? && now < bound.value.until then bound.value.to else now - FALLBACK_SECONDS
  }

  predicate InWindow(line: Line, from: Time, to: Time) {
    from < line.time <= to
  }

  /** A run reads the clock, and saves its bound when it has finished. `writes` is how many writes it
      gets to before it fails; it may need fewer, and `None` is no limit. */
  datatype Run = Run(now: Time, finished: Time, writes: Option<nat>)

  function Window(lines: seq<Line>, from: Time, to: Time): seq<Line> {
    if lines == [] then []
    else (if InWindow(lines[0], from, to) then [lines[0]] else []) + Window(lines[1..], from, to)
  }

  /** Lines recorded one after the other, as far as the writes go, and whether they went to the end. A
      line whose key is taken is skipped. */
  function Recorded(records: map<Key, bool>, logs: seq<Line>, writes: Option<nat>): (map<Key, bool>, bool)
    decreases |logs|
  {
    if logs == [] then (records, true)
    else if logs[0].key in records then Recorded(records, logs[1..], writes)
    else if writes == Some(0) then (records, false)
    else if writes == Some(1) then (records[logs[0].key := false], false)
    else Recorded(records[logs[0].key := true], logs[1..],
                  if writes.Some? then Some(writes.value - 2) else None)
  }

  function After(s: Sync, lines: seq<Line>, run: Run): Sync {
    var (records, done) := Recorded(s.records, Window(lines, From(s.bound, run.now), run.now), run.writes);
    Sync(if done then Some(Bound(run.now, run.finished + CACHE_SECONDS)) else s.bound, records)
  }

  // ---------------------------------------------------------------------------------------------
  // The code
  // ---------------------------------------------------------------------------------------------

  class QueryLogs {
    var bound: Option<Bound>
    var records: map<Key, bool>

    ghost function Now(): Sync
      reads this
    {
      Sync(bound, records)
    }

    constructor ()
      ensures Now() == Sync(None, map[])
    {
      bound, records := None, map[];
    }

    /** The lines of a window. */
    static method Parse(lines: seq<Line>, from: Time, to: Time) returns (valid: seq<Line>)
      ensures valid == Window(lines, from, to)
    {
      valid := [];
      for i := 0 to |lines|
        invariant Window(lines, from, to) == valid + Window(lines[i..], from, to)
      {
        assert lines[i..][1..] == lines[i + 1..];
        if lines[i].time <= from || lines[i].time > to {
          continue;
        }
        valid := valid + [lines[i]];
      }
    }

    method DoSync(lines: seq<Line>, run: Run)
      modifies this
      ensures Now() == After(old(Now()), lines, run)
    {
      hide Window;
      hide From;
      var from := From(bound, run.now);
      var logs := Parse(lines, from, run.now);
      var writes := run.writes;
      var i := 0;
      while i < |logs|
        invariant i <= |logs| && bound == old(bound)
        invariant Recorded(records, logs[i..], writes) == Recorded(old(records), logs, run.writes)
      {
        var key := logs[i].key;
        assert logs[i..][1..] == logs[i + 1..] && logs[i..][0] == logs[i];
        i := i + 1;
        if key in records {
          continue;
        }
        if writes == Some(0) {
          return;
        }
        ghost var before := records;
        records := records[key := false];
        if writes == Some(1) {
          return;
        }
        records := records[key := true];
        assert records == before[key := true];
        writes := if writes.Some? then Some(writes.value - 2) else None;
      }
      bound := Some(Bound(run.now, run.finished + CACHE_SECONDS));
    }
  }

  // ---------------------------------------------------------------------------------------------
  // One run
  // ---------------------------------------------------------------------------------------------

  lemma {:induction false} WindowHas(lines: seq<Line>, from: Time, to: Time, line: Line)
    ensures line in Window(lines, from, to) <==> line in lines && InWindow(line, from, to)
  {
    if lines != [] {
      WindowHas(lines[1..], from, to, line);
      assert lines == [lines[0]] + lines[1..];
    }
  }

  /** The lines are those of the log at these places, in order, and those are all the places with a line of
      the time. */
  ghost predicate Picks(logs: seq<Line>, lines: seq<Line>, at: seq<nat>, from: Time, to: Time) {
    && |at| == |logs|
    && (forall k | 0 <= k < |at| :: at[k] < |lines| && logs[k] == lines[at[k]])
    && (forall j, k | 0 <= j < k < |at| :: at[j] < at[k])
    && (forall i: nat | i < |lines| :: i in at <==> from < lines[i].time <= to)
  }

  lemma {:induction false} WindowParts(lines: seq<Line>, more: seq<Line>, from: Time, to: Time)
    ensures Window(lines + more, from, to) == Window(lines, from, to) + Window(more, from, to)
  {
    hide InWindow;
    if lines == [] {
      assert lines + more == more;
    } else {
      assert (lines + more)[1..] == lines[1..] + more;
      WindowParts(lines[1..], more, from, to);
      var first := if InWindow(lines[0], from, to) then [lines[0]] else [];
      var rest, last := Window(lines[1..], from, to), Window(more, from, to);
      assert first + (rest + last) == (first + rest) + last;
    }
  }

  lemma WindowEnd(lines: seq<Line>, from: Time, to: Time)
    requires lines != []
    ensures var last := lines[|lines| - 1];
            Window(lines, from, to)
            == Window(lines[..|lines| - 1], from, to) + (if from < last.time <= to then [last] else [])
  {
    var last := lines[|lines| - 1];
    WindowParts(lines[..|lines| - 1], [last], from, to);
    assert lines == lines[..|lines| - 1] + [last];
    assert [last][1..] == [];
  }

  lemma PicksMore(logs: seq<Line>, lines: seq<Line>, at: seq<nat>, from: Time, to: Time)
    requires lines != [] && Picks(logs, lines[..|lines| - 1], at, from, to)
    ensures var last := lines[|lines| - 1];
            if from < last.time <= to then Picks(logs + [last], lines, at + [|lines| - 1], from, to)
            else Picks(logs, lines, at, from, to)
  {
    var n := |lines| - 1;
    assert forall k | 0 <= k < |at| :: at[k] < n;
    assert forall i: nat | i < n :: lines[..n][i] == lines[i];
  }

  /** The window has each line of its time once, in the order of the log. */
  lemma {:induction false} WindowInOrder(lines: seq<Line>, from: Time, to: Time) returns (at: seq<nat>)
    ensures Picks(Window(lines, from, to), lines, at, from, to)
  {
    if lines == [] {
      at := [];
    } else {
      var n := |lines| - 1;
      at := WindowInOrder(lines[..n], from, to);
      WindowEnd(lines, from, to);
      PicksMore(Window(lines[..n], from, to), lines, at, from, to);
      hide Picks;
      at := if from < lines[n].time <= to then at + [n] else at;
      assert Window(lines[..n], from, to) + [] == Window(lines[..n], from, to);
    }
  }

  ghost predicate HasKey(logs: seq<Line>, key: Key) {
    exists i | 0 <= i < |logs| :: logs[i].key == key
  }

  lemma HasKeySplit(logs: seq<Line>, key: Key)
    requires logs != []
    ensures HasKey(logs, key) <==> logs[0].key == key || HasKey(logs[1..], key)
  {
    if HasKey(logs[1..], key) {
      var i :| 0 <= i < |logs[1..]| && logs[1..][i].key == key;
      assert logs[i + 1].key == key;
    }
    if i :| 0 <= i < |logs| && logs[i].key == key && i > 0 {
      assert logs[1..][i - 1].key == key;
    }
  }

  /** A run keeps all records as they are, adds records for keys of its window only, and for all of them
      if it gets to the end, each with its tables. */
  lemma {:induction false} RecordedHas(records: map<Key, bool>, logs: seq<Line>, writes: Option<nat>, key: Key)
    ensures var (after, done) := Recorded(records, logs, writes);
            && (key in records ==> key in after && after[key] == records[key])
            && (key in after && key !in records ==> HasKey(logs, key))
            && (done && HasKey(logs, key) ==> key in after)
            && (done && key in after && key !in records ==> after[key])
    decreases |logs|
  {
    if logs != [] {
      HasKeySplit(logs, key);
      var first := logs[0].key;
      if first in records {
        RecordedHas(records, logs[1..], writes, key);
      } else if writes != Some(0) && writes != Some(1) {
        RecordedHas(records[first := true], logs[1..], if writes.Some? then Some(writes.value - 2) else None, key);
      }
    }
  }

  // ---------------------------------------------------------------------------------------------
  // Runs after each other
  // ---------------------------------------------------------------------------------------------

  /** Runs that do not overlap, in order. */
  predicate InOrder(runs: seq<Run>) {
    && (forall i | 0 <= i < |runs| :: runs[i].now <= runs[i].finished)
    && (forall i, j | 0 <= i < j < |runs| :: runs[i].finished <= runs[j].now)
  }

  function Final(s: Sync, lines: seq<Line>, runs: seq<Run>): Sync
    decreases |runs|
  {
    if runs == [] then s else Final(After(s, lines, runs[0]), lines, runs[1..])
  }

  /** The bound is still in the cache, or less than five minutes old. */
  predicate Reaches(bound: Bound, now: Time) {
    now < bound.until || now <= bound.to + FALLBACK_SECONDS
  }

  /** No run starts after the bound of the last successful one is gone from the cache and out of reach of
      the five minutes that take its place. */
  predicate InReach(s: Sync, lines: seq<Line>, runs: seq<Run>)
    decreases |runs|
  {
    runs != [] ==>
      && (s.bound.Some? ==> Reaches(s.bound.value, runs[0].now))
      && InReach(After(s, lines, runs[0]), lines, runs[1..])
  }

  /** All lines from one time to another are recorded. */
  ghost predicate Covered(s: Sync, lines: seq<Line>, from: Time, to: Time) {
    forall line | line in lines && InWindow(line, from, to) :: line.key in s.records
  }

  /** The bound is in the past, and everything up to it is recorded. */
  ghost predicate UpTo(s: Sync, lines: seq<Line>, from: Time) {
    s.bound.Some? && Covered(s, lines, from, s.bound.value.to)
  }

  lemma RunCovers(s: Sync, lines: seq<Line>, run: Run, from: Time)
    requires UpTo(s, lines, from) && Reaches(s.bound.value, run.now)
    ensures UpTo(After(s, lines, run), lines, from)
  {
    var logs := Window(lines, From(s.bound, run.now), run.now);
    var after := After(s, lines, run);
    forall line | line in lines && InWindow(line, from, after.bound.value.to) ensures line.key in after.records {
      RecordedHas(s.records, logs, run.writes, line.key);
      WindowHas(lines, From(s.bound, run.now), run.now, line);
      if line in logs {
        assert HasKey(logs, line.key) by {
          var i :| 0 <= i < |logs| && logs[i] == line;
        }
      }
    }
  }

  /** As long as every run is in reach of the last success, the windows leave no line out, whatever runs
      fail in between. */
  lemma {:induction false} RunsCover(s: Sync, lines: seq<Line>, runs: seq<Run>, from: Time)
    requires UpTo(s, lines, from) && InReach(s, lines, runs)
    ensures UpTo(Final(s, lines, runs), lines, from)
    decreases |runs|
  {
    if runs != [] {
      RunCovers(s, lines, runs[0], from);
      RunsCover(After(s, lines, runs[0]), lines, runs[1..], from);
    }
  }

  /** Keys contain times. */
  ghost predicate Timed(lines: seq<Line>) {
    forall i, j | 0 <= i < |lines| && 0 <= j < |lines| && lines[i].key == lines[j].key ::
      lines[i].time == lines[j].time
  }

  /** A line that is not recorded when a run starts out of its reach is never recorded. */
  lemma {:induction false} OutOfReachIsLost(s: Sync, lines: seq<Line>, runs: seq<Run>, line: Line)
    requires InOrder(runs) && Timed(lines) && line in lines && line.key !in s.records
    requires runs != [] ==> line.time <= runs[0].now - FALLBACK_SECONDS
    requires s.bound.Some? && runs != [] ==> line.time <= s.bound.value.to || s.bound.value.until <= runs[0].now
    ensures line.key !in Final(s, lines, runs).records
    decreases |runs|
  {
    if runs != [] {
      var run, from := runs[0], From(s.bound, runs[0].now);
      var logs := Window(lines, from, run.now);
      RecordedHas(s.records, logs, run.writes, line.key);
      forall i | 0 <= i < |logs| ensures logs[i].key != line.key {
        WindowHas(lines, from, run.now, logs[i]);
        assert logs[i] in logs;
      }
      OutOfReachIsLost(After(s, lines, run), lines, runs[1..], line);
    }
  }

  /** At every run the line is recorded already, or the run goes back far enough for it. */
  predicate KeptInReach(s: Sync, lines: seq<Line>, runs: seq<Run>, line: Line)
    decreases |runs|
  {
    runs != [] ==>
      && (line.key in s.records || From(s.bound, runs[0].now) < line.time)
      && KeptInReach(After(s, lines, runs[0]), lines, runs[1..], line)
  }

  /** A line up to the bound is recorded. */
  predicate DoneWith(s: Sync, line: Line) {
    s.bound.Some? && line.time <= s.bound.value.to ==> line.key in s.records
  }

  lemma RunIsDoneWith(s: Sync, lines: seq<Line>, run: Run, line: Line)
    requires line in lines && DoneWith(s, line) && (line.key in s.records || From(s.bound, run.now) < line.time)
    ensures DoneWith(After(s, lines, run), line)
  {
    hide From;
    var logs := Window(lines, From(s.bound, run.now), run.now);
    RecordedHas(s.records, logs, run.writes, line.key);
    WindowHas(lines, From(s.bound, run.now), run.now, line);
    if line in logs {
      var i :| 0 <= i < |logs| && logs[i] == line;
      assert logs[i].key == line.key;
    }
  }

  /** Of the lines up to the last bound, exactly those are recorded that every run has in reach until they
      are. */
  lemma {:induction false} RecordedExactly(s: Sync, lines: seq<Line>, runs: seq<Run>, line: Line)
    requires InOrder(runs) && Timed(lines) && line in lines && DoneWith(s, line)
    requires var end := Final(s, lines, runs).bound; end.Some? && line.time <= end.value.to
    ensures line.key in Final(s, lines, runs).records <==> KeptInReach(s, lines, runs, line)
    decreases |runs|
  {
    hide After;
    hide Timed;
    if runs != [] {
      if line.key in s.records || From(s.bound, runs[0].now) < line.time {
        RunIsDoneWith(s, lines, runs[0], line);
        RecordedExactly(After(s, lines, runs[0]), lines, runs[1..], line);
      } else {
        OutOfReachIsLost(s, lines, runs, line);
      }
    }
  }

  /** The windows leave no line out if and only if every line up to the last bound is in reach of every
      run until it is recorded. */
  lemma CoveredExactly(s: Sync, lines: seq<Line>, runs: seq<Run>, from: Time)
    requires UpTo(s, lines, from) && InOrder(runs) && Timed(lines)
    ensures Final(s, lines, runs).bound.Some?
    ensures UpTo(Final(s, lines, runs), lines, from)
            <==> forall line | line in lines && InWindow(line, from, Final(s, lines, runs).bound.value.to) ::
                   KeptInReach(s, lines, runs, line)
  {
    hide InOrder;
    hide Timed;
    hide KeptInReach;
    hide Final;
    BoundStays(s, lines, runs);
    var end := Final(s, lines, runs);
    forall line | line in lines && InWindow(line, from, end.bound.value.to)
      ensures line.key in end.records <==> KeptInReach(s, lines, runs, line)
    {
      RecordedExactly(s, lines, runs, line);
    }
  }

  lemma {:induction false} BoundStays(s: Sync, lines: seq<Line>, runs: seq<Run>)
    requires s.bound.Some?
    ensures Final(s, lines, runs).bound.Some?
    decreases |runs|
  {
    if runs != [] {
      BoundStays(After(s, lines, runs[0]), lines, runs[1..]);
    }
  }

  /** A run that comes when the bound is gone and the line more than five minutes old leaves it out, and
      moves the bound past it. */
  lemma LateRunLoses(key: Key)
    ensures var s, lines := Sync(Some(Bound(0, 300)), map[]), [Line(100, key)];
            var runs := [Run(1000, 1001, None)];
            && UpTo(s, lines, 0) && InOrder(runs) && Timed(lines)
            && Final(s, lines, runs) == Sync(Some(Bound(1000, 1301)), map[])
            && !UpTo(Final(s, lines, runs), lines, 0)
  {
    var s, lines := Sync(Some(Bound(0, 300)), map[]), [Line(100, key)];
    assert Window(lines[1..], 700, 1000) == [];
    assert Window(lines, 700, 1000) == [];
    var runs := [Run(1000, 1001, None)];
    var after := After(s, lines, runs[0]);
    assert after == Sync(Some(Bound(1000, 1301)), map[]);
    assert Final(after, lines, runs[1..]) == after;
    assert lines[0] in lines && InWindow(lines[0], 0, 1000);
  }

  // ---------------------------------------------------------------------------------------------
  // Tables
  // ---------------------------------------------------------------------------------------------

  /** How many records a run makes that is not cut short. */
  function NewKeys(records: map<Key, bool>, logs: seq<Line>): nat
    decreases |logs|
  {
    if logs == [] then 0
    else if logs[0].key in records then NewKeys(records, logs[1..])
    else 1 + NewKeys(records[logs[0].key := true], logs[1..])
  }

  /** How many records a run makes: with one write left it still makes the record. */
  function Made(unknown: nat, writes: Option<nat>): nat {
    if writes.None? || unknown <= (writes.value + 1) / 2 then unknown else (writes.value + 1) / 2
  }

  /** A run gets to its end exactly if its writes suffice for a record and its tables for each new key. It
      makes records for the first new keys of its window, as many as its writes suffice for. */
  lemma {:induction false} RecordsMade(records: map<Key, bool>, logs: seq<Line>, writes: Option<nat>) returns (n: nat)
    ensures var (after, done) := Recorded(records, logs, writes);
            && (done <==> writes.None? || 2 * NewKeys(records, logs) <= writes.value)
            && |after| == |records| + Made(NewKeys(records, logs), writes)
    ensures n <= |logs|
    ensures forall key :: key in Recorded(records, logs, writes).0 <==> key in records || HasKey(logs[..n], key)
    decreases |logs|
  {
    if logs == [] {
      n := 0;
    } else {
      var key, rest := logs[0].key, logs[1..];
      if key in records {
        n := RecordsMade(records, rest, writes);
      } else if writes == Some(0) {
        n := 0;
        return;
      } else if writes == Some(1) {
        n := 0;
      } else {
        n := RecordsMade(records[key := true], rest, if writes.Some? then Some(writes.value - 2) else None);
      }
      n := n + 1;
      assert logs[..n][1..] == rest[..n - 1];
      forall k ensures HasKey(logs[..n], k) <==> k == key || HasKey(rest[..n - 1], k) {
        HasKeySplit(logs[..n], k);
      }
    }
  }

  /** The bound moves to the time of the run, for five minutes, exactly if the run gets to its end. The run
      starts from the bound, or five minutes back if that is gone. */
  lemma BoundMoves(s: Sync, lines: seq<Line>, run: Run)
    ensures var kept := s.bound.Some? && run.now < s.bound.value.until;
            var logs := Window(lines, if kept then s.bound.value.to else run.now - 300, run.now);
            After(s, lines, run).bound
            == if run.writes.None? || 2 * NewKeys(s.records, logs) <= run.writes.value then
                 Some(Bound(run.now, run.finished + 300))
               else s.bound
  {
    var n := RecordsMade(s.records, Window(lines, From(s.bound, run.now), run.now), run.writes);
  }

  ghost predicate NewHaveTables(records: map<Key, bool>, after: map<Key, bool>) {
    forall key | key in after && key !in records :: after[key]
  }

  /** The run is not cut short between a record and its tables. */
  predicate CutCleanly(records: map<Key, bool>, logs: seq<Line>, writes: Option<nat>) {
    writes.Some? && writes.value % 2 == 1 ==> 2 * NewKeys(records, logs) <= writes.value
  }

  lemma OneMoreKey(records: map<Key, bool>, key: Key, after: map<Key, bool>)
    requires key !in records && key in after && after[key]
    ensures NewHaveTables(records[key := true], after) <==> NewHaveTables(records, after)
  {
  }

  /** All records that a run makes have their tables if and only if it is cut cleanly. */
  lemma {:induction false} TablesExactly(records: map<Key, bool>, logs: seq<Line>, writes: Option<nat>)
    ensures NewHaveTables(records, Recorded(records, logs, writes).0) <==> CutCleanly(records, logs, writes)
    decreases |logs|
  {
    if logs != [] {
      var key, rest := logs[0].key, logs[1..];
      if key in records {
        TablesExactly(records, rest, writes);
      } else if writes == Some(1) {
        assert key in Recorded(records, logs, writes).0;
      } else if writes != Some(0) {
        var less := if writes.Some? then Some(writes.value - 2) else None;
        TablesExactly(records[key := true], rest, less);
        RecordedHas(records[key := true], rest, less, key);
        OneMoreKey(records, key, Recorded(records, logs, writes).0);
      }
    }
  }

  /** No run is cut short between a record and its tables. */
  predicate AllCutCleanly(s: Sync, lines: seq<Line>, runs: seq<Run>)
    decreases |runs|
  {
    runs != [] ==>
      && CutCleanly(s.records, Window(lines, From(s.bound, runs[0].now), runs[0].now), runs[0].writes)
      && AllCutCleanly(After(s, lines, runs[0]), lines, runs[1..])
  }

  ghost predicate HaveTables(records: map<Key, bool>) {
    forall key | key in records :: records[key]
  }

  /** A record that lost its tables to a failing run never gets them. */
  lemma {:induction false} LostTablesStayLost(s: Sync, lines: seq<Line>, runs: seq<Run>, key: Key)
    requires key in s.records
    ensures key in Final(s, lines, runs).records && Final(s, lines, runs).records[key] == s.records[key]
    decreases |runs|
  {
    if runs != [] {
      RecordedHas(s.records, Window(lines, From(s.bound, runs[0].now), runs[0].now), runs[0].writes, key);
      LostTablesStayLost(After(s, lines, runs[0]), lines, runs[1..], key);
    }
  }

  lemma RunHasTables(s: Sync, lines: seq<Line>, run: Run)
    requires HaveTables(s.records)
    ensures HaveTables(After(s, lines, run).records)
            <==> CutCleanly(s.records, Window(lines, From(s.bound, run.now), run.now), run.writes)
  {
    hide CutCleanly;
    var logs := Window(lines, From(s.bound, run.now), run.now);
    var after := After(s, lines, run).records;
    TablesExactly(s.records, logs, run.writes);
    forall key | key in s.records ensures key in after && after[key] == s.records[key] {
      RecordedHas(s.records, logs, run.writes, key);
    }
  }

  /** After any runs, all records have their tables if and only if no run was cut short in between. */
  lemma {:induction false} AllTablesExactly(s: Sync, lines: seq<Line>, runs: seq<Run>)
    requires HaveTables(s.records)
    ensures HaveTables(Final(s, lines, runs).records) <==> AllCutCleanly(s, lines, runs)
    decreases |runs|
  {
    hide After;
    hide CutCleanly;
    if runs != [] {
      var after := After(s, lines, runs[0]);
      RunHasTables(s, lines, runs[0]);
      if HaveTables(after.records) {
        AllTablesExactly(after, lines, runs[1..]);
      } else {
        var key :| key in after.records && !after.records[key];
        LostTablesStayLost(after, lines, runs[1..], key);
      }
    }
  }

  /** A run that fails after its first write makes a record without tables, and no later runs make them. */
  lemma CutRunLoses(key: Key, runs: seq<Run>)
    ensures var s, lines, cut := Sync(None, map[]), [Line(100, key)], Run(200, 201, Some(1));
            var end := Final(s, lines, [cut] + runs).records;
            key in end && !end[key]
  {
    var s, lines, cut := Sync(None, map[]), [Line(100, key)], Run(200, 201, Some(1));
    assert Window(lines[1..], -100, 200) == [];
    assert Window(lines, -100, 200) == lines;
    assert After(s, lines, cut).records == map[key := false];
    assert ([cut] + runs)[1..] == runs;
    LostTablesStayLost(After(s, lines, cut), lines, runs, key);
  }
}
