/** What every interleaving of handlers, spawners and monitors keeps, and when it does not. */
module LifecycleLaws {
  import opened Lifecycle
  import opened Wrappers

  // ---------------------------------------------------------------------------------------------
  // Invariants
  // ---------------------------------------------------------------------------------------------

  /** The key carries the proof: it is unique, and a live row's key is its host. */
  ghost predicate Keyed(rows: map<Id, Row>) {
    && (forall i | i in rows :: rows[i].key in {OfHost(rows[i].host), OfId(i)})
    && (forall i, j | i in rows && j in rows && i != j :: rows[i].key != rows[j].key)
    && (forall i | i in rows :: rows[i].Live() ==> rows[i].key == OfHost(rows[i].host))
  }

  /** A PATCH knows of existing rows only, and leaves no row unstamped that has no start time. */
  ghost predicate PatchesInformed(db: Db) {
    forall i, stamp | Start(i, stamp) in db.intents :: i in db.rows && (!stamp ==> db.rows[i].startedAt.Some?)
  }

  ghost predicate StopsInformed(db: Db) {
    forall i | Stop(i) in db.intents || Halt(i) in db.intents :: i in db.rows
  }

  ghost predicate Stamped(rows: map<Id, Row>) {
    forall i | i in rows :: rows[i].state.Running? ==> rows[i].startedAt.Some?
  }

  /** Every instance was spawned exactly once. */
  ghost predicate SpawnedOnce(db: Db) {
    && (forall k | 0 <= k < |db.spawned| :: db.spawned[k] in db.rows)
    && (forall i | i in db.rows :: i in db.spawned)
    && (forall j, k | 0 <= j < k < |db.spawned| :: db.spawned[j] != db.spawned[k])
  }

  /** What holds in every reachable state whatever the handlers do. */
  ghost predicate Sane(db: Db) {
    PatchesInformed(db) && StopsInformed(db) && Stamped(db.rows) && SpawnedOnce(db)
  }

  /** The intent a step adds. */
  function Added(db: Db, step: Step): Option<Intent> {
    match step
    case CheckPut(host) => Some(Create(host))
    case Reject(host) => Some(Fetch(host))
    case ReadPatch(_, id) => Some(Start(id, id in db.rows && db.rows[id].startedAt.None?))
    case ReadToStop(id) => Some(Stop(id))
    case ReadToHalt(id) => Some(Halt(id))
    case _ => None
  }

  function RowsAfter(rows: map<Id, Row>, step: Step): map<Id, Row> {
    match step
    case Insert(host, id) => rows[id := Row(host, Spawning, OfHost(host), None)]
    case WriteRunning(id, stamp, now) =>
      if id !in rows then rows
      else rows[id := rows[id].(state := Running, startedAt := if stamp then Some(now) else rows[id].startedAt)]
    case WriteStopped(id) => if id in rows then rows[id := rows[id].(state := Stopped, key := OfId(id))] else rows
    case WriteHalted(id) => if id in rows then rows[id := rows[id].(state := Stopped)] else rows
    case _ => rows
  }

  lemma RowsStep(db: Db, step: Step)
    requires Enabled(db, step)
    ensures After(db, step).rows == RowsAfter(db.rows, step)
    ensures step.ReadPatch? ==> step.id in db.rows && db.rows[step.id].Live() && db.rows[step.id].host == step.host
  {
    hide Reading;
    hide Checked;
    hide Rejected;
    hide Refetched;
    if step.ReadPatch? {
      assert step.id in LiveAt(db.rows, step.host);
    }
  }

  lemma IntentStep(db: Db, step: Step, n: Intent)
    requires Enabled(db, step) && n in After(db, step).intents
    ensures n in db.intents || Added(db, step) == Some(n)
  {
    hide LiveAt;
    hide Taken;
    if step.ReadPatch? {
      RowsStep(db, step);
    }
  }

  lemma IntentsStep(db: Db, step: Step)
    requires Enabled(db, step)
    ensures forall n | n in After(db, step).intents :: n in db.intents || Added(db, step) == Some(n)
  {
    hide After;
    hide Enabled;
    hide Added;
    forall n | n in After(db, step).intents ensures n in db.intents || Added(db, step) == Some(n) {
      IntentStep(db, step, n);
    }
  }

  lemma Effect(db: Db, step: Step)
    requires Enabled(db, step)
    ensures After(db, step).rows == RowsAfter(db.rows, step)
    ensures forall n | n in After(db, step).intents :: n in db.intents || Added(db, step) == Some(n)
    ensures step.ReadPatch? ==> step.id in db.rows && db.rows[step.id].Live() && db.rows[step.id].host == step.host
  {
    hide After;
    RowsStep(db, step);
    IntentsStep(db, step);
  }

  lemma PatchesStep(db: Db, step: Step)
    requires PatchesInformed(db) && Enabled(db, step)
    ensures PatchesInformed(After(db, step))
  {
    hide After;
    Effect(db, step);
  }

  lemma StopsStep(db: Db, step: Step)
    requires StopsInformed(db) && Enabled(db, step)
    ensures StopsInformed(After(db, step))
  {
    hide After;
    Effect(db, step);
  }

  lemma StampedStep(db: Db, step: Step)
    requires PatchesInformed(db) && Stamped(db.rows) && Enabled(db, step)
    ensures Stamped(After(db, step).rows)
  {
  }

  lemma SpawnedStep(db: Db, step: Step)
    requires SpawnedOnce(db) && Enabled(db, step)
    ensures SpawnedOnce(After(db, step))
  {
    var db' := After(db, step);
    if step.Insert? {
      assert step.id !in db.spawned;
      assert db'.spawned[|db.spawned|] == step.id;
    } else {
      assert db'.rows.Keys == db.rows.Keys && db'.spawned == db.spawned;
    }
  }

  lemma SaneStep(db: Db, step: Step)
    requires Sane(db) && Enabled(db, step)
    ensures Sane(After(db, step))
  {
    PatchesStep(db, step);
    StopsStep(db, step);
    StampedStep(db, step);
    SpawnedStep(db, step);
  }

  /** A PATCH that read a live row writes to one whose key has been given up since. */
  ghost predicate Revives(db: Db, step: Step) {
    step.WriteRunning? && step.id in db.rows && db.rows[step.id].key == OfId(step.id)
  }

  /** A step keeps the keys in order unless it is a late write of a PATCH, and then it does not. */
  lemma KeyedStep(db: Db, step: Step)
    requires Keyed(db.rows) && Enabled(db, step)
    ensures Keyed(After(db, step).rows) <==> !Revives(db, step)
  {
    hide After;
    RowsStep(db, step);
    var rows' := After(db, step).rows;
    if Revives(db, step) {
      assert rows'[step.id].Live() && rows'[step.id].key == OfId(step.id);
    } else if step.Insert? {
      assert forall i | i in db.rows :: db.rows[i].key != OfHost(step.host);
    }
  }

  // ---------------------------------------------------------------------------------------------
  // Whole runs
  // ---------------------------------------------------------------------------------------------

  ghost predicate AlwaysKeyed(db: Db, steps: seq<Step>)
    requires Legal(db, steps)
    decreases |steps|
  {
    Keyed(db.rows) && (steps != [] ==> AlwaysKeyed(After(db, steps[0]), steps[1..]))
  }

  ghost predicate NeverRevives(db: Db, steps: seq<Step>)
    requires Legal(db, steps)
    decreases |steps|
  {
    steps != [] ==> !Revives(db, steps[0]) && NeverRevives(After(db, steps[0]), steps[1..])
  }

  /** The keys are in order throughout a run if and only if no PATCH writes to a row whose key was given
      up after the PATCH read it. */
  lemma {:induction false} KeyedRuns(db: Db, steps: seq<Step>)
    requires Legal(db, steps) && Keyed(db.rows)
    ensures AlwaysKeyed(db, steps) <==> NeverRevives(db, steps)
    ensures NeverRevives(db, steps) ==> Keyed(Final(db, steps).rows)
    decreases |steps|
  {
    if steps != [] {
      KeyedStep(db, steps[0]);
      if !Revives(db, steps[0]) {
        KeyedRuns(After(db, steps[0]), steps[1..]);
      }
    }
  }

  lemma {:induction false} SaneRuns(db: Db, steps: seq<Step>)
    requires Legal(db, steps) && Sane(db)
    ensures Sane(Final(db, steps))
    decreases |steps|
  {
    if steps != [] {
      SaneStep(db, steps[0]);
      SaneRuns(After(db, steps[0]), steps[1..]);
    }
  }

  /** Two live rows never share a host, and neither do a live row and one a spawner halted. */
  lemma OneLiveRow(rows: map<Id, Row>, i: Id, j: Id)
    requires Keyed(rows) && i in rows && j in rows && rows[i].Live() && rows[i].host == rows[j].host
    requires rows[j].Live() || rows[j].key == OfHost(rows[j].host)
    ensures i == j
  {
    assert rows[i].key == OfHost(rows[i].host) == rows[j].key;
  }

  // ---------------------------------------------------------------------------------------------
  // The life of one row
  // ---------------------------------------------------------------------------------------------

  function Rank(state: State): nat {
    match state
    case Spawning => 0
    case Running => 1
    case Stopped => 2
  }

  /** A PATCH that writes to a stopped row. */
  ghost predicate Reopens(db: Db, step: Step) {
    step.WriteRunning? && step.id in db.rows && db.rows[step.id].state.Stopped?
  }

  /** A PATCH that overwrites a start time that was set after the PATCH read the row. */
  ghost predicate Restamps(db: Db, step: Step) {
    && step.WriteRunning? && step.id in db.rows
    && step.stamp && db.rows[step.id].startedAt !in {None, Some(step.now)}
  }

  ghost predicate Forward(db: Db, db': Db) {
    forall i | i in db.rows ::
      i in db'.rows && db'.rows[i].host == db.rows[i].host && Rank(db'.rows[i].state) >= Rank(db.rows[i].state)
  }

  ghost predicate KeepsStamps(db: Db, db': Db) {
    forall i | i in db.rows ::
      i in db'.rows && (db.rows[i].startedAt.Some? ==> db'.rows[i].startedAt == db.rows[i].startedAt)
  }

  /** Rows go from spawning to running to stopped, except for a late PATCH. */
  lemma ForwardStep(db: Db, step: Step)
    requires Enabled(db, step)
    ensures Forward(db, After(db, step)) <==> !Reopens(db, step)
  {
    hide After;
    RowsStep(db, step);
    if Reopens(db, step) {
      assert Rank(After(db, step).rows[step.id].state) < Rank(db.rows[step.id].state);
    }
  }

  /** Start times stay, except for a late PATCH. */
  lemma StampsStep(db: Db, step: Step)
    requires Enabled(db, step)
    ensures KeepsStamps(db, After(db, step)) <==> !Restamps(db, step)
  {
    hide After;
    RowsStep(db, step);
    if Restamps(db, step) {
      assert After(db, step).rows[step.id].startedAt != db.rows[step.id].startedAt;
    }
  }

  ghost predicate Punctual(db: Db, steps: seq<Step>)
    requires Legal(db, steps)
    decreases |steps|
  {
    steps != [] ==>
      && !Reopens(db, steps[0]) && !Restamps(db, steps[0])
      && Punctual(After(db, steps[0]), steps[1..])
  }

  lemma {:induction false} LifeRuns(db: Db, steps: seq<Step>)
    requires Legal(db, steps) && Punctual(db, steps)
    ensures Forward(db, Final(db, steps)) && KeepsStamps(db, Final(db, steps))
    decreases |steps|
  {
    if steps != [] {
      ForwardStep(db, steps[0]);
      StampsStep(db, steps[0]);
      LifeRuns(After(db, steps[0]), steps[1..]);
    }
  }

  // ---------------------------------------------------------------------------------------------
  // An atomic PATCH
  // ---------------------------------------------------------------------------------------------

  /** Every PATCH writes what it read before anything else happens. */
  ghost predicate Atomic(db: Db, steps: seq<Step>)
    requires Legal(db, steps)
    decreases |steps|
  {
    if steps == [] then true
    else if steps[0].ReadPatch? then
      && |steps| > 1 && steps[1].WriteRunning? && steps[1].id == steps[0].id
      && steps[1].stamp == db.rows[steps[0].id].startedAt.None?
      && (assert steps[1..][0] == steps[1] && steps[1..][1..] == steps[2..];
          assert Legal(After(db, steps[0]), steps[1..]);
          Atomic(After(After(db, steps[0]), steps[1]), steps[2..]))
    else !steps[0].WriteRunning? && Atomic(After(db, steps[0]), steps[1..])
  }

  /** With an atomic PATCH nothing is ever late. */
  lemma {:induction false} AtomicRuns(db: Db, steps: seq<Step>)
    requires Legal(db, steps) && Atomic(db, steps) && Keyed(db.rows)
    ensures NeverRevives(db, steps) && Punctual(db, steps)
    decreases |steps|
  {
    if steps != [] {
      KeyedStep(db, steps[0]);
      var db' := After(db, steps[0]);
      if steps[0].ReadPatch? {
        var id := steps[0].id;
        assert id in LiveAt(db.rows, steps[0].host);
        assert steps[1..][0] == steps[1] && steps[1..][1..] == steps[2..];
        assert !Revives(db', steps[1]);
        KeyedStep(db', steps[1]);
        AtomicRuns(After(db', steps[1]), steps[2..]);
      } else {
        AtomicRuns(db', steps[1..]);
      }
    }
  }

  function Empty(): Db {
    Db(map[], multiset{}, [], [])
  }

  /** The safety of the whole: from an empty table, with an atomic PATCH, in every interleaving the keys
      are in order, every running row has a start time, and every row was spawned once. */
  lemma AtomicRunsAreSafe(steps: seq<Step>)
    requires Legal(Empty(), steps) && Atomic(Empty(), steps)
    ensures AlwaysKeyed(Empty(), steps) && Sane(Final(Empty(), steps))
    ensures var rows := Final(Empty(), steps).rows;
            forall i, j | i in rows && j in rows && rows[i].Live() && rows[j].Live() && rows[i].host == rows[j].host ::
              i == j
  {
    AtomicRuns(Empty(), steps);
    KeyedRuns(Empty(), steps);
    SaneRuns(Empty(), steps);
    var rows := Final(Empty(), steps).rows;
    forall i, j | i in rows && j in rows && rows[i].Live() && rows[j].Live() && rows[i].host == rows[j].host
      ensures i == j
    {
      OneLiveRow(rows, i, j);
    }
  }

  // ---------------------------------------------------------------------------------------------
  // Concurrent PUTs
  // ---------------------------------------------------------------------------------------------

  predicate OfPut(step: Step) {
    step.CheckPut? || step.Insert? || step.Reject? || step.Refetch?
  }

  predicate OnlyPuts(steps: seq<Step>) {
    forall k | 0 <= k < |steps| :: OfPut(steps[k])
  }

  /** The step tries to insert at the host. */
  predicate Tries(step: Step, host: Host) {
    (step.Insert? || step.Reject?) && step.host == host
  }

  predicate AnyTries(steps: seq<Step>, host: Host) {
    exists k | 0 <= k < |steps| :: Tries(steps[k], host)
  }

  function Inserts(steps: seq<Step>, host: Host): nat {
    if steps == [] then 0
    else (if steps[0].Insert? && steps[0].host == host then 1 else 0) + Inserts(steps[1..], host)
  }

  lemma {:induction false} NoSecondInsert(db: Db, steps: seq<Step>, host: Host)
    requires Legal(db, steps) && OnlyPuts(steps) && Taken(db.rows, OfHost(host))
    ensures Inserts(steps, host) == 0
    decreases |steps|
  {
    if steps != [] {
      var db' := After(db, steps[0]);
      var id :| id in db.rows && db.rows[id].key == OfHost(host);
      assert id in db'.rows && db'.rows[id].key == OfHost(host);
      NoSecondInsert(db', steps[1..], host);
    }
  }

  /** However many PUTs run against a free host at once, exactly one of them inserts, and so spawns. */
  lemma {:induction false} ConcurrentPuts(db: Db, steps: seq<Step>, host: Host)
    requires Legal(db, steps) && OnlyPuts(steps) && !Taken(db.rows, OfHost(host))
    ensures Inserts(steps, host) == if AnyTries(steps, host) then 1 else 0
    decreases |steps|
  {
    if steps != [] {
      var db' := After(db, steps[0]);
      if Tries(steps[0], host) {
        assert steps[0].Insert?;
        assert steps[0].id in db'.rows && db'.rows[steps[0].id].key == OfHost(host);
        NoSecondInsert(db', steps[1..], host);
      } else {
        ConcurrentPuts(db', steps[1..], host);
        assert AnyTries(steps, host) ==> AnyTries(steps[1..], host) by {
          if k :| 0 <= k < |steps| && Tries(steps[k], host) {
            assert Tries(steps[1..][k - 1], host);
          }
        }
        assert AnyTries(steps[1..], host) ==> AnyTries(steps, host) by {
          if k :| 0 <= k < |steps[1..]| && Tries(steps[1..][k], host) {
            assert Tries(steps[k + 1], host);
          }
        }
      }
    }
  }

  /** The replies given to PUTs of a host since `n` replies had been given. */
  ghost predicate AnswersWith(db: Db, n: nat, host: Host, id: Id) {
    forall k | n <= k < |db.replies| && db.replies[k].host == host :: db.replies[k] in {Exists(host), Found(host, id)}
  }

  /** The PUTs that come too late are told of nothing but the winner's instance. */
  lemma {:induction false} LosersFindWinner(db: Db, steps: seq<Step>, host: Host, id: Id, n: nat)
    requires Legal(db, steps) && OnlyPuts(steps) && Keyed(db.rows)
    requires id in db.rows && db.rows[id].host == host && db.rows[id].Live() && AnswersWith(db, n, host, id)
    ensures AnswersWith(Final(db, steps), n, host, id)
    decreases |steps|
  {
    if steps != [] {
      var db' := After(db, steps[0]);
      assert LiveAt(db.rows, host) == {id} by {
        forall i | i in LiveAt(db.rows, host) ensures i == id {
          OneLiveRow(db.rows, i, id);
        }
        assert id in LiveAt(db.rows, host);
      }
      assert forall i: Id :: |{i}| == 1;
      assert forall i: Id :: {i} == {id} ==> i in {id};
      KeyedStep(db, steps[0]);
      LosersFindWinner(db', steps[1..], host, id, n);
    }
  }

  // ---------------------------------------------------------------------------------------------
  // Every PUT is answered
  // ---------------------------------------------------------------------------------------------

  /** How many PUTs of a host have been answered. */
  function Answers(replies: seq<Reply>, host: Host): nat {
    if replies == [] then 0
    else (if replies[|replies| - 1].host == host then 1 else 0) + Answers(replies[..|replies| - 1], host)
  }

  /** How many PUTs of a host are on their way. */
  function Open(db: Db, host: Host): nat {
    db.intents[Create(host)] + db.intents[Fetch(host)]
  }

  function Checks(steps: seq<Step>, host: Host): nat {
    if steps == [] then 0 else (if steps[0] == CheckPut(host) then 1 else 0) + Checks(steps[1..], host)
  }

  /** The check answers at once unless no instance is live; and if one is, the answer is that it exists. */
  lemma CheckAnswers(db: Db, host: Host)
    ensures var db', live := After(db, CheckPut(host)), LiveAt(db.rows, host);
            if live == {} then db' == db.(intents := db.intents + multiset{Create(host)})
            else db' == db.(replies := db.replies + [if |live| == 1 then Exists(host) else Failed(host)])
  {
  }

  /** The step answers a PUT of the host. */
  ghost predicate Replies(db: Db, step: Step, host: Host) {
    ((step.CheckPut? && LiveAt(db.rows, host) != {}) || step.Insert? || step.Refetch?) && step.host == host
  }

  lemma RepliesStep(db: Db, step: Step, host: Host)
    requires Enabled(db, step)
    ensures db.replies <= After(db, step).replies
    ensures Answers(After(db, step).replies, host)
            == Answers(db.replies, host) + if Replies(db, step, host) then 1 else 0
  {
    hide LiveAt;
    var replies := After(db, step).replies;
    assert replies != db.replies ==> replies[..|replies| - 1] == db.replies;
  }

  lemma CreatesStep(db: Db, step: Step, host: Host)
    requires Enabled(db, step)
    ensures After(db, step).intents[Create(host)]
            == db.intents[Create(host)] + (if step == CheckPut(host) && LiveAt(db.rows, host) == {} then 1 else 0)
               - (if (step.Insert? || step.Reject?) && step.host == host then 1 else 0)
  {
    hide LiveAt;
    hide Taken;
  }

  lemma FetchesStep(db: Db, step: Step, host: Host)
    requires Enabled(db, step)
    ensures After(db, step).intents[Fetch(host)]
            == db.intents[Fetch(host)] + (if step == Reject(host) then 1 else 0)
               - (if step == Refetch(host) then 1 else 0)
  {
    hide LiveAt;
    hide Taken;
  }

  lemma OpenStep(db: Db, step: Step, host: Host)
    requires Enabled(db, step)
    ensures Open(After(db, step), host) + (if Replies(db, step, host) then 1 else 0)
            == Open(db, host) + if step == CheckPut(host) then 1 else 0
  {
    hide After;
    hide Enabled;
    CreatesStep(db, step, host);
    FetchesStep(db, step, host);
  }

  /** In every run each PUT gets one answer, or is still on its way; and no answer is taken back. */
  lemma {:induction false} PutsAreAnswered(db: Db, steps: seq<Step>, host: Host)
    requires Legal(db, steps)
    ensures var end := Final(db, steps);
            Answers(end.replies, host) + Open(end, host)
            == Answers(db.replies, host) + Open(db, host) + Checks(steps, host)
    ensures db.replies <= Final(db, steps).replies
    decreases |steps|
  {
    hide After;
    if steps != [] {
      RepliesStep(db, steps[0], host);
      OpenStep(db, steps[0], host);
      PutsAreAnswered(After(db, steps[0]), steps[1..], host);
    }
  }

  /** No PUT of the host has been answered since, nor refused its insert. */
  ghost predicate Silent(db: Db, n: nat, host: Host) {
    && n <= |db.replies| && db.intents[Fetch(host)] == 0
    && forall k | n <= k < |db.replies| :: db.replies[k].host != host
  }

  /** One PUT of the host was told that it created the instance, and all others that it exists. */
  ghost predicate OneCreated(db: Db, n: nat, host: Host) {
    exists m, id | n <= m < |db.replies| && db.replies[m] == Created(host, id) ::
      forall k | n <= k < |db.replies| && k != m && db.replies[k].host == host ::
        db.replies[k] in {Exists(host), Found(host, id)}
  }

  lemma SilentStep(db: Db, step: Step, host: Host, n: nat)
    requires Enabled(db, step) && OfPut(step) && !Tries(step, host)
    requires Keyed(db.rows) && !Taken(db.rows, OfHost(host)) && Silent(db, n, host)
    ensures var db' := After(db, step);
            Keyed(db'.rows) && !Taken(db'.rows, OfHost(host)) && Silent(db', n, host)
  {
    assert LiveAt(db.rows, host) == {};
    KeyedStep(db, step);
  }

  lemma InsertCreates(db: Db, host: Host, id: Id)
    requires Enabled(db, Insert(host, id)) && Keyed(db.rows)
    ensures var db' := After(db, Insert(host, id));
            && db'.replies == db.replies + [Created(host, id)] && Keyed(db'.rows)
            && id in db'.rows && db'.rows[id].host == host && db'.rows[id].Live()
  {
    KeyedStep(db, Insert(host, id));
  }

  lemma InsertLeads(db: Db, host: Host, id: Id, rest: seq<Step>, n: nat)
    requires Enabled(db, Insert(host, id)) && Legal(After(db, Insert(host, id)), rest) && OnlyPuts(rest)
    requires Keyed(db.rows) && Silent(db, n, host)
    ensures OneCreated(Final(After(db, Insert(host, id)), rest), n, host)
  {
    hide Enabled;
    hide After;
    hide Legal;
    hide Final;
    hide Keyed;
    hide Row.Live;
    var db', m := After(db, Insert(host, id)), |db.replies|;
    InsertCreates(db, host, id);
    LosersFindWinner(db', rest, host, id, m + 1);
    PutsAreAnswered(db', rest, host);
    var end := Final(db', rest);
    assert end.replies[m] == db'.replies[m] == Created(host, id);
    assert forall k | n <= k < m :: end.replies[k] == db.replies[k] && end.replies[k].host != host;
  }

  lemma {:induction false} SilentOrCreated(db: Db, steps: seq<Step>, host: Host, n: nat)
    requires Legal(db, steps) && OnlyPuts(steps)
    requires Keyed(db.rows) && !Taken(db.rows, OfHost(host)) && Silent(db, n, host)
    ensures if Inserts(steps, host) == 0 then Silent(Final(db, steps), n, host)
            else OneCreated(Final(db, steps), n, host)
    decreases |steps|
  {
    hide Enabled;
    hide After;
    hide Silent;
    hide OneCreated;
    hide Keyed;
    if steps != [] {
      if steps[0].Insert? && steps[0].host == host {
        InsertLeads(db, host, steps[0].id, steps[1..], n);
      } else {
        NotRefused(db, steps[0], host);
        SilentStep(db, steps[0], host, n);
        SilentOrCreated(After(db, steps[0]), steps[1..], host, n);
      }
    }
  }

  lemma NotRefused(db: Db, step: Step, host: Host)
    requires Enabled(db, step) && !Taken(db.rows, OfHost(host))
    ensures step != Reject(host)
  {
  }

  /** However many PUTs run against a free host at once, once none of them is on its way each has had its
      one answer: one was told that it created the instance, the others that it exists, with its id if
      they had been refused. */
  lemma PutsComplete(db: Db, steps: seq<Step>, host: Host)
    requires Legal(db, steps) && OnlyPuts(steps) && Keyed(db.rows) && !Taken(db.rows, OfHost(host))
    requires Open(db, host) == 0 == Open(Final(db, steps), host) && Checks(steps, host) > 0
    ensures Answers(Final(db, steps).replies, host) == Answers(db.replies, host) + Checks(steps, host)
    ensures OneCreated(Final(db, steps), |db.replies|, host)
  {
    hide Enabled;
    hide After;
    hide Keyed;
    var end, n := Final(db, steps), |db.replies|;
    PutsAreAnswered(db, steps, host);
    SilentOrCreated(db, steps, host, n);
    if Inserts(steps, host) == 0 {
      SilentIsFew(db.replies, end.replies, host);
    }
  }

  lemma {:induction false} SilentIsFew(replies: seq<Reply>, more: seq<Reply>, host: Host)
    requires replies <= more && forall k | |replies| <= k < |more| :: more[k].host != host
    ensures Answers(more, host) == Answers(replies, host)
    decreases |more|
  {
    if |more| > |replies| {
      SilentIsFew(replies, more[..|more| - 1], host);
    } else {
      assert more == replies;
    }
  }

  /** A row keeps its claim to a host until it is stopped. */
  lemma {:induction false} KeyHeld(db: Db, steps: seq<Step>, id: Id, host: Host)
    requires Legal(db, steps) && id in db.rows && db.rows[id].key == OfHost(host)
    requires forall k | 0 <= k < |steps| :: steps[k] != WriteStopped(id)
    ensures forall k | 0 <= k < |steps| && steps[k].Insert? :: steps[k].host != host
    decreases |steps|
  {
    if steps != [] {
      var db' := After(db, steps[0]);
      assert id in db'.rows && db'.rows[id].key == OfHost(host);
      KeyHeld(db', steps[1..], id, host);
      forall k | 0 <= k < |steps| && steps[k].Insert? ensures steps[k].host != host {
        assert k > 0 ==> steps[k] == steps[1..][k - 1];
      }
    }
  }

  /** Between two inserts at a host, in any run at all, the first instance was stopped. */
  lemma StoppedBetweenInserts(db: Db, steps: seq<Step>, host: Host, i: Id, k: nat)
    requires Legal(db, steps) && 0 < k < |steps| && steps[0] == Insert(host, i)
    requires steps[k].Insert? && steps[k].host == host
    ensures exists m | 0 < m < |steps| :: steps[m] == WriteStopped(i)
  {
    if forall m | 0 < m < |steps| :: steps[m] != WriteStopped(i) {
      assert steps[1..][k - 1] == steps[k];
      assert forall m | 0 < m < |steps| :: steps[1..][m - 1] == steps[m];
      KeyHeld(After(db, steps[0]), steps[1..], i, host);
      assert false;
    }
  }

  // ---------------------------------------------------------------------------------------------
  // Freeing a host
  // ---------------------------------------------------------------------------------------------

  /** Stopping the instance that holds a host frees the host; halting it does not. */
  lemma StopFreesHost(db: Db, step: Step, host: Host)
    requires Keyed(db.rows) && Enabled(db, step) && (step.WriteStopped? || step.WriteHalted?)
    requires db.rows[step.id].key == OfHost(host)
    ensures Taken(After(db, step).rows, OfHost(host)) <==> step.WriteHalted?
  {
    if step.WriteHalted? {
      assert After(db, step).rows[step.id].key == OfHost(host);
    }
  }

  /** A stopped row that still holds its host, and that no handler is about to write to. */
  ghost predicate Wedged(db: Db, host: Host, id: Id) {
    && id in db.rows && db.rows[id].key == OfHost(host) && db.rows[id].state.Stopped?
    && Stop(id) !in db.intents && Start(id, true) !in db.intents && Start(id, false) !in db.intents
  }

  /** Halting the instance of a host wedges the host unless another handler is about to write to it. */
  lemma HaltWedges(db: Db, id: Id, host: Host)
    requires Enabled(db, WriteHalted(id)) && db.rows[id].key == OfHost(host)
    ensures Wedged(After(db, WriteHalted(id)), host, id)
            <==> Stop(id) !in db.intents && Start(id, true) !in db.intents && Start(id, false) !in db.intents
  {
  }

  /** A wedged host stays wedged: in no continuation is there another instance of it. */
  lemma {:induction false} WedgedForever(db: Db, steps: seq<Step>, host: Host, id: Id)
    requires Legal(db, steps) && Wedged(db, host, id)
    ensures Wedged(Final(db, steps), host, id)
    ensures Inserts(steps, host) == 0
    decreases |steps|
  {
    if steps != [] {
      WedgedStep(db, steps[0], host, id);
      WedgedForever(After(db, steps[0]), steps[1..], host, id);
    }
  }

  lemma WedgedStep(db: Db, step: Step, host: Host, id: Id)
    requires Enabled(db, step) && Wedged(db, host, id)
    ensures Wedged(After(db, step), host, id) && !(step.Insert? && step.host == host)
  {
    hide After;
    Effect(db, step);
  }

  /** At a wedged host every PUT passes its check, is refused its insert, and fails. */
  lemma WedgedPutFails(db: Db, host: Host, id: Id)
    requires Keyed(db.rows) && Wedged(db, host, id)
    ensures After(db, CheckPut(host)) == Reading(db, Create(host))
    ensures Enabled(Reading(db, Create(host)), Reject(host))
    ensures Refetched(Rejected(Reading(db, Create(host)), host), host) == db.(replies := db.replies + [Failed(host)])
  {
    assert forall i | i in db.rows && i != id :: db.rows[i].key != db.rows[id].key;
    assert LiveAt(db.rows, host) == {};
    assert forall i: Id :: i in {i};
    var db1 := Rejected(Reading(db, Create(host)), host);
    assert db1.intents - multiset{Fetch(host)} == db.intents;
  }

  // ---------------------------------------------------------------------------------------------
  // Runs that go wrong
  // ---------------------------------------------------------------------------------------------

  /** A run of one more step. */
  lemma Runs(db: Db, step: Step, steps: seq<Step>) returns (all: seq<Step>)
    requires Enabled(db, step) && Legal(After(db, step), steps)
    ensures Legal(db, all) && Final(db, all) == Final(After(db, step), steps)
  {
    all := [step] + steps;
    assert all[1..] == steps;
  }

  function Launched(host: Host): Db {
    Db(map[0 := Row(host, Spawning, OfHost(host), None)], multiset{}, [0], [Created(host, 0)])
  }

  lemma LaunchedAfter(host: Host)
    ensures Enabled(Empty(), CheckPut(host)) && Enabled(After(Empty(), CheckPut(host)), Insert(host, 0))
    ensures After(After(Empty(), CheckPut(host)), Insert(host, 0)) == Launched(host)
  {
    assert LiveAt(Empty().rows, host) == {};
  }

  /** Stopped, while a PATCH is still to write what it read. */
  function Late(host: Host): Db {
    Launched(host).(rows := map[0 := Row(host, Stopped, OfId(0), None)], intents := multiset{Start(0, true)})
  }

  lemma LateSteps(host: Host)
    ensures Enabled(Launched(host), ReadPatch(host, 0))
    ensures var d := After(Launched(host), ReadPatch(host, 0));
            Enabled(d, ReadToStop(0)) && Enabled(After(d, ReadToStop(0)), WriteStopped(0))
    ensures var d := After(After(Launched(host), ReadPatch(host, 0)), ReadToStop(0));
            After(d, WriteStopped(0)) == Late(host)
  {
    assert LiveAt(Launched(host).rows, host) == {0};
  }

  lemma LateAfter(host: Host) returns (steps: seq<Step>)
    ensures Legal(Launched(host), steps) && Final(Launched(host), steps) == Late(host)
  {
    hide Enabled;
    hide After;
    LateSteps(host);
    var d := After(Launched(host), ReadPatch(host, 0));
    steps := Runs(After(d, ReadToStop(0)), WriteStopped(0), []);
    steps := Runs(d, ReadToStop(0), steps);
    steps := Runs(Launched(host), ReadPatch(host, 0), steps);
  }

  lemma TwoSteps(host: Host, now: Time)
    ensures Enabled(Late(host), CheckPut(host))
    ensures var d := After(Late(host), CheckPut(host));
            Enabled(d, WriteRunning(0, true, now)) && Enabled(After(d, WriteRunning(0, true, now)), Insert(host, 1))
    ensures var d := After(After(Late(host), CheckPut(host)), WriteRunning(0, true, now));
            LiveAt(After(d, Insert(host, 1)).rows, host) == {0, 1}
  {
    assert LiveAt(Late(host).rows, host) == {};
  }

  lemma TwoAfter(host: Host, now: Time) returns (steps: seq<Step>)
    ensures Legal(Late(host), steps) && LiveAt(Final(Late(host), steps).rows, host) == {0, 1}
  {
    hide Enabled;
    hide After;
    hide LiveAt;
    TwoSteps(host, now);
    var d := After(Late(host), CheckPut(host));
    steps := Runs(After(d, WriteRunning(0, true, now)), Insert(host, 1), []);
    steps := Runs(d, WriteRunning(0, true, now), steps);
    steps := Runs(Late(host), CheckPut(host), steps);
  }

  lemma {:induction false} Join(db: Db, steps: seq<Step>, more: seq<Step>)
    requires Legal(db, steps) && Legal(Final(db, steps), more)
    ensures Legal(db, steps + more) && Final(db, steps + more) == Final(Final(db, steps), more)
    decreases |steps|
  {
    hide Enabled;
    hide After;
    if steps == [] {
      assert steps + more == more;
    } else {
      assert (steps + more)[0] == steps[0];
      Join(After(db, steps[0]), steps[1..], more);
      assert (steps + more)[1..] == steps[1..] + more;
    }
  }

  /** A PATCH that reads before a DELETE and writes after it lets a second instance in beside the one it
      brings back. */
  lemma LatePatchMakesTwo(host: Host, now: Time) returns (steps: seq<Step>)
    ensures Legal(Empty(), steps) && LiveAt(Final(Empty(), steps).rows, host) == {0, 1}
  {
    hide Enabled;
    hide After;
    LaunchedAfter(host);
    steps := LateAfter(host);
    var more := TwoAfter(host, now);
    Join(Launched(host), steps, more);
    steps := Runs(After(Empty(), CheckPut(host)), Insert(host, 0), steps + more);
    steps := Runs(Empty(), CheckPut(host), steps);
  }

  /** Two PATCHes that both read before either writes overwrite the start time. */
  lemma LatePatchRestamps(host: Host, now: Time, later: Time)
    requires now != later
    ensures var d := Launched(host);
            && Enabled(d, ReadPatch(host, 0))
            && var d1 := After(d, ReadPatch(host, 0));
            && Enabled(d1, ReadPatch(host, 0))
            && var d2 := After(d1, ReadPatch(host, 0));
            && Enabled(d2, WriteRunning(0, true, now))
            && var d3 := After(d2, WriteRunning(0, true, now));
            && Enabled(d3, WriteRunning(0, true, later))
            && d3.rows[0].startedAt == Some(now) && Restamps(d3, WriteRunning(0, true, later))
  {
    assert LiveAt(Launched(host).rows, host) == {0};
  }

  /** A spawner that finds its address in use wedges the host of the other instance. */
  lemma ConflictWedgesHost(host: Host, now: Time)
    ensures var d := Launched(host).(rows := map[0 := Row(host, Running, OfHost(host), Some(now))]);
            && Enabled(d, ReadToHalt(0)) && Enabled(After(d, ReadToHalt(0)), WriteHalted(0))
            && Wedged(After(After(d, ReadToHalt(0)), WriteHalted(0)), host, 0)
  {
  }
}
