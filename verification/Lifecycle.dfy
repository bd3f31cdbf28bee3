/** Application instances: the rows, the handlers and monitors that step them, and the database
    operations those are made of. */
module Lifecycle {
  import opened Wrappers

  type Id = nat
  type Host = string
  type Time = int

  datatype State = Spawning | Running | Stopped

  /** The unique key: the host while the row may be live, the row's own id once it is stopped. Ids and
      hosts never coincide. */
  datatype Key = OfHost(host: Host) | OfId(id: Id)

  datatype Row = Row(host: Host, state: State, key: Key, startedAt: Option<Time>) {
    predicate Live() {
      !state.Stopped?
    }
  }

  /** A handler between two database operations, with what it has read. `Create` is a PUT that found no
      instance, `Fetch` one whose insert was rejected, `Start` a PATCH, `Stop` a DELETE or a monitor,
      and `Halt` a spawner that found the address of its task in use. */
  datatype Intent =
    | Create(host: Host)
    | Fetch(host: Host)
    | Start(id: Id, stamp: bool)
    | Stop(id: Id)
    | Halt(id: Id)

  /** What a PUT is answered with. */
  datatype Reply =
    | Exists(host: Host)
    | Created(host: Host, id: Id)
    | Found(host: Host, id: Id)
    | Failed(host: Host)

  datatype Db = Db(rows: map<Id, Row>, intents: multiset<Intent>, spawned: seq<Id>, replies: seq<Reply>)

  function LiveAt(rows: map<Id, Row>, host: Host): set<Id> {
    set id | id in rows && rows[id].host == host && rows[id].Live()
  }

  /** The key is in use. */
  ghost predicate Taken(rows: map<Id, Row>, key: Key) {
    exists id | id in rows :: rows[id].key == key
  }

  // ---------------------------------------------------------------------------------------------
  // Steps
  // ---------------------------------------------------------------------------------------------

  datatype Step =
    | CheckPut(host: Host)
    | Insert(host: Host, id: Id)
    | Reject(host: Host)
    | Refetch(host: Host)
    | ReadPatch(host: Host, id: Id)
    | ReadToStop(id: Id)
    | ReadToHalt(id: Id)
    | WriteRunning(id: Id, stamp: bool, now: Time)
    | WriteStopped(id: Id)
    | WriteHalted(id: Id)

  /** The step can be taken. New ids are fresh, reads of single instances find exactly one live row,
      and monitors and spawners only pick rows that are live or running. */
  ghost predicate Enabled(db: Db, step: Step) {
    match step
    case CheckPut(_) => true
    case Insert(host, id) => Create(host) in db.intents && id !in db.rows && !Taken(db.rows, OfHost(host))
    case Reject(host) => Create(host) in db.intents && Taken(db.rows, OfHost(host))
    case Refetch(host) => Fetch(host) in db.intents
    case ReadPatch(host, id) => LiveAt(db.rows, host) == {id}
    case ReadToStop(id) => id in db.rows && db.rows[id].Live()
    case ReadToHalt(id) => id in db.rows && db.rows[id].state.Running?
    case WriteRunning(id, stamp, _) => Start(id, stamp) in db.intents && id in db.rows
    case WriteStopped(id) => Stop(id) in db.intents && id in db.rows
    case WriteHalted(id) => Halt(id) in db.intents && id in db.rows
  }

  function Reading(db: Db, intent: Intent): (db': Db)
    ensures db'.rows == db.rows
  {
    db.(intents := db.intents + multiset{intent})
  }

  function Checked(db: Db, host: Host): (db': Db)
    ensures db'.rows == db.rows
  {
    if LiveAt(db.rows, host) == {} then Reading(db, Create(host))
    else db.(replies := db.replies + [if |LiveAt(db.rows, host)| == 1 then Exists(host) else Failed(host)])
  }

  function Inserted(db: Db, host: Host, id: Id): Db {
    Db(db.rows[id := Row(host, Spawning, OfHost(host), None)], db.intents - multiset{Create(host)},
       db.spawned + [id], db.replies + [Created(host, id)])
  }

  function Rejected(db: Db, host: Host): (db': Db)
    ensures db'.rows == db.rows
  {
    db.(intents := db.intents - multiset{Create(host)} + multiset{Fetch(host)})
  }

  ghost function Refetched(db: Db, host: Host): (db': Db)
    ensures db'.rows == db.rows
  {
    var reply := if id :| LiveAt(db.rows, host) == {id} then Found(host, id) else Failed(host);
    db.(intents := db.intents - multiset{Fetch(host)}, replies := db.replies + [reply])
  }

  function Started(db: Db, id: Id, stamp: bool, now: Time): Db
    requires id in db.rows
  {
    var row := db.rows[id].(state := Running);
    db.(rows := db.rows[id := if stamp then row.(startedAt := Some(now)) else row],
        intents := db.intents - multiset{Start(id, stamp)})
  }

  function StoppedRow(db: Db, id: Id): Db
    requires id in db.rows
  {
    db.(rows := db.rows[id := db.rows[id].(state := Stopped, key := OfId(id))],
        intents := db.intents - multiset{Stop(id)})
  }

  function HaltedRow(db: Db, id: Id): Db
    requires id in db.rows
  {
    db.(rows := db.rows[id := db.rows[id].(state := Stopped)], intents := db.intents - multiset{Halt(id)})
  }

  ghost function After(db: Db, step: Step): Db
    requires Enabled(db, step)
  {
    match step
    case CheckPut(host) => Checked(db, host)
    case Insert(host, id) => Inserted(db, host, id)
    case Reject(host) => Rejected(db, host)
    case Refetch(host) => Refetched(db, host)
    case ReadPatch(_, id) => Reading(db, Start(id, db.rows[id].startedAt.None?))
    case ReadToStop(id) => Reading(db, Stop(id))
    case ReadToHalt(id) => Reading(db, Halt(id))
    case WriteRunning(id, stamp, now) => Started(db, id, stamp, now)
    case WriteStopped(id) => StoppedRow(db, id)
    case WriteHalted(id) => HaltedRow(db, id)
  }

  /** A sequence of steps of handlers, spawners and monitors, interleaved in any way. */
  ghost predicate Legal(db: Db, steps: seq<Step>)
    decreases |steps|
  {
    steps == [] || (Enabled(db, steps[0]) && Legal(After(db, steps[0]), steps[1..]))
  }

  ghost function Final(db: Db, steps: seq<Step>): Db
    requires Legal(db, steps)
    decreases |steps|
  {
    if steps == [] then db else Final(After(db, steps[0]), steps[1..])
  }

  // ---------------------------------------------------------------------------------------------
  // The handlers
  // ---------------------------------------------------------------------------------------------

  datatype Lookup = DoesNotExist | One(id: Id) | MultipleObjects

  class Instances {
    var rows: map<Id, Row>
    var spawned: seq<Id>
    var replies: seq<Reply>
    ghost var intents: multiset<Intent>

    ghost function Now(): Db
      reads this
    {
      Db(rows, intents, spawned, replies)
    }

    constructor ()
      ensures Now() == Db(map[], multiset{}, [], [])
    {
      rows, spawned, replies, intents := map[], [], [], multiset{};
    }

    /** The one live instance at a host. */
    method Get(host: Host) returns (r: Lookup)
      ensures r.DoesNotExist? <==> LiveAt(rows, host) == {}
      ensures r.One? <==> |LiveAt(rows, host)| == 1
      ensures r.One? ==> LiveAt(rows, host) == {r.id}
    {
      var rest := rows.Keys;
      var live: set<Id> := {};
      while rest != {}
        invariant rest <= rows.Keys
        invariant live == LiveAt(rows, host) - rest
        decreases |rest|
      {
        var id :| id in rest;
        rest := rest - {id};
        if rows[id].host == host && rows[id].Live() {
          live := live + {id};
        }
      }
      assert live == LiveAt(rows, host);
      if live == {} {
        return DoesNotExist;
      }
      var id :| id in live;
      if live == {id} {
        return One(id);
      }
      TwoLive(live, id);
      return MultipleObjects;
    }

    /** The check of a PUT. */
    method PutCheck(host: Host) returns (proceed: bool)
      modifies this`replies, this`intents
      ensures Enabled(old(Now()), CheckPut(host)) && Now() == After(old(Now()), CheckPut(host))
      ensures proceed == (LiveAt(rows, host) == {})
      ensures |LiveAt(rows, host)| == 1 ==> replies == old(replies) + [Exists(host)]
      ensures |LiveAt(rows, host)| > 1 ==> replies == old(replies) + [Failed(host)]
      ensures intents == old(intents) + if proceed then multiset{Create(host)} else multiset{}
      ensures proceed ==> replies == old(replies)
    {
      var found := Get(host);
      match found {
        case DoesNotExist =>
          intents := intents + multiset{Create(host)};
          return true;
        case One(_) => replies := replies + [Exists(host)];
        case MultipleObjects => replies := replies + [Failed(host)];
      }
      return false;
    }

    /** The insert of a PUT. The database refuses it if the key is in use. */
    method PutCreate(host: Host, id: Id) returns (created: bool)
      requires Create(host) in intents && id !in rows
      modifies this
      ensures created == !Taken(old(rows), OfHost(host))
      ensures var step := if created then Insert(host, id) else Reject(host);
              Enabled(old(Now()), step) && Now() == After(old(Now()), step)
      ensures created ==>
                && rows == old(rows)[id := Row(host, Spawning, OfHost(host), None)]
                && spawned == old(spawned) + [id] && replies == old(replies) + [Created(host, id)]
                && intents == old(intents) - multiset{Create(host)}
      ensures !created ==>
                && rows == old(rows) && spawned == old(spawned) && replies == old(replies)
                && intents == old(intents) - multiset{Create(host)} + multiset{Fetch(host)}
    {
      var keys := set i | i in rows :: rows[i].key;
      if OfHost(host) in keys {
        intents := intents - multiset{Create(host)} + multiset{Fetch(host)};
        return false;
      }
      assert !Taken(rows, OfHost(host)) by {
        assert forall i | i in rows :: rows[i].key in keys;
      }
      rows := rows[id := Row(host, Spawning, OfHost(host), None)];
      spawned := spawned + [id];
      replies := replies + [Created(host, id)];
      intents := intents - multiset{Create(host)};
      return true;
    }

    /** A PUT whose insert was refused looks for the instance once more. */
    method PutFetch(host: Host)
      requires Fetch(host) in intents
      modifies this`replies, this`intents
      ensures Enabled(old(Now()), Refetch(host)) && Now() == After(old(Now()), Refetch(host))
      ensures intents == old(intents) - multiset{Fetch(host)}
      ensures |replies| == |old(replies)| + 1 && replies[..|old(replies)|] == old(replies)
      ensures var reply := replies[|old(replies)|];
              if |LiveAt(rows, host)| == 1 then reply.Found? && reply.host == host && LiveAt(rows, host) == {reply.id}
              else reply == Failed(host)
    {
      var found := Get(host);
      if found.One? {
        assert forall id | LiveAt(rows, host) == {id} :: id in {found.id};
        replies := replies + [Found(host, found.id)];
      } else {
        assert forall id: Id :: |{id}| == 1;
        replies := replies + [Failed(host)];
      }
      intents := intents - multiset{Fetch(host)};
    }

    /** The first half of a PATCH. */
    method PatchRead(host: Host) returns (r: Lookup, stamp: bool)
      modifies this`intents
      ensures r.One? <==> |LiveAt(rows, host)| == 1
      ensures if r.One? then
                && Enabled(old(Now()), ReadPatch(host, r.id)) && Now() == After(old(Now()), ReadPatch(host, r.id))
                && stamp == rows[r.id].startedAt.None?
              else Now() == old(Now())
      ensures r.One? ==> LiveAt(rows, host) == {r.id} && intents == old(intents) + multiset{Start(r.id, stamp)}
    {
      r := Get(host);
      stamp := false;
      if r.One? {
        assert r.id in LiveAt(rows, host);
        stamp := rows[r.id].startedAt.None?;
        intents := intents + multiset{Start(r.id, stamp)};
      }
    }

    /** The second half of a PATCH, which writes what the first half read. */
    method PatchWrite(id: Id, stamp: bool, now: Time)
      requires Start(id, stamp) in intents && id in rows
      modifies this`rows, this`intents
      ensures Enabled(old(Now()), WriteRunning(id, stamp, now))
      ensures Now() == After(old(Now()), WriteRunning(id, stamp, now))
      ensures rows.Keys == old(rows).Keys && forall i | i in rows && i != id :: rows[i] == old(rows)[i]
      ensures rows[id].state == Running && rows[id].host == old(rows)[id].host && rows[id].key == old(rows)[id].key
      ensures rows[id].startedAt == if stamp then Some(now) else old(rows)[id].startedAt
      ensures intents == old(intents) - multiset{Start(id, stamp)}
    {
      var row := rows[id].(state := Running);
      if stamp {
        row := row.(startedAt := Some(now));
      }
      rows := rows[id := row];
      intents := intents - multiset{Start(id, stamp)};
    }

    /** The write of everything that stops an instance. */
    method SetApplicationStopped(id: Id)
      requires Stop(id) in intents && id in rows
      modifies this`rows, this`intents
      ensures Enabled(old(Now()), WriteStopped(id)) && Now() == After(old(Now()), WriteStopped(id))
      ensures rows.Keys == old(rows).Keys && forall i | i in rows && i != id :: rows[i] == old(rows)[i]
      ensures rows[id] == Row(old(rows)[id].host, Stopped, OfId(id), old(rows)[id].startedAt)
      ensures intents == old(intents) - multiset{Stop(id)}
    {
      rows := rows[id := rows[id].(state := Stopped, key := OfId(id))];
      intents := intents - multiset{Stop(id)};
    }

    /** The write of a spawner that finds its address in use by another instance. */
    method HaltConflicting(id: Id)
      requires Halt(id) in intents && id in rows
      modifies this`rows, this`intents
      ensures Enabled(old(Now()), WriteHalted(id)) && Now() == After(old(Now()), WriteHalted(id))
      ensures rows.Keys == old(rows).Keys && forall i | i in rows && i != id :: rows[i] == old(rows)[i]
      ensures rows[id] == Row(old(rows)[id].host, Stopped, old(rows)[id].key, old(rows)[id].startedAt)
      ensures intents == old(intents) - multiset{Halt(id)}
    {
      rows := rows[id := rows[id].(state := Stopped)];
      intents := intents - multiset{Halt(id)};
    }
  }

  lemma TwoLive(live: set<Id>, id: Id)
    requires id in live && live != {id}
    ensures |live| != 1
  {
    assert live - {id} != {};
    assert |live - {id}| == |live| - 1;
  }
}
