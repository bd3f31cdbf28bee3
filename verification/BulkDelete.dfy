/** Deleting in bulk: keys are collected into batches, and each batch is one call. */
module BulkDelete {

  type Key = string

  const BULK_DELETE_MAX_FILES := 1000

  function Flat(batches: seq<seq<Key>>): seq<Key> {
    if batches == [] then [] else batches[0] + Flat(batches[1..])
  }

  lemma {:induction false} FlatAppend(batches: seq<seq<Key>>, batch: seq<Key>)
    ensures Flat(batches + [batch]) == Flat(batches) + batch
  {
    if batches == [] {
      assert [] + [batch] == [batch] && [batch][1..] == [];
    } else {
      assert (batches + [batch])[1..] == batches[1..] + [batch];
      FlatAppend(batches[1..], batch);
    }
  }

  /** The world outside: which deletions fail, and which listings, by how many waits there were before;
      and after how many waits the dialogue is closed. */
  class World {
    const fails: nat -> bool
    const hides: nat -> bool
    const closedAfter: nat
    var calls: seq<seq<Key>>
    var waits: nat

    constructor (fails: nat -> bool, hides: nat -> bool, closedAfter: nat)
      ensures this.fails == fails && this.hides == hides && this.closedAfter == closedAfter
      ensures calls == [] && waits == 0
    {
      this.fails, this.hides, this.closedAfter, calls, waits := fails, hides, closedAfter, [], 0;
    }

    function Aborted(): bool
      reads this`waits
    {
      waits >= closedAfter
    }

    method Wait()
      modifies this`waits
      ensures waits == old(waits) + 1
    {
      waits := waits + 1;
    }

    method ListObjects() returns (failed: bool)
      modifies this`waits
      ensures waits == old(waits) + 1 && failed == hides(old(waits))
    {
      failed := hides(waits);
      waits := waits + 1;
    }

    method DeleteObjects(keys: seq<Key>) returns (failed: bool)
      modifies this
      ensures calls == old(calls) + [keys] && waits == old(waits) + 1
      ensures failed == fails(|old(calls)|)
    {
      failed := fails(|calls|);
      calls := calls + [keys];
      waits := waits + 1;
    }
  }

  /** The batches are what was scheduled, in order; nothing is kept back but the last, partial batch. */
  ghost predicate Orderly(calls: seq<seq<Key>>, keys: seq<Key>, scheduled: seq<Key>) {
    && Flat(calls) + keys == scheduled
    && |keys| < BULK_DELETE_MAX_FILES
    && forall i | 0 <= i < |calls| :: 0 < |calls[i]| <= BULK_DELETE_MAX_FILES
  }

  class Deleter {
    const world: World
    var keys: seq<Key>
    ghost var scheduled: seq<Key>

    ghost predicate Valid()
      reads this, world
    {
      Orderly(world.calls, keys, scheduled)
    }

    constructor (world: World)
      requires world.calls == []
      ensures this.world == world && keys == [] && scheduled == [] && Valid()
    {
      this.world, keys, scheduled := world, [], [];
    }

    /** The batch is gone whether the call succeeds or fails. */
    method DeleteKeys() returns (failed: bool)
      requires Flat(world.calls) + keys == scheduled && 0 < |keys| <= BULK_DELETE_MAX_FILES
      requires forall i | 0 <= i < |world.calls| :: 0 < |world.calls[i]| <= BULK_DELETE_MAX_FILES
      modifies this`keys, world
      ensures Valid() && keys == [] && world.waits == old(world.waits) + 1
      ensures world.calls == old(world.calls) + [old(keys)] && failed == world.fails(|old(world.calls)|)
    {
      FlatAppend(world.calls, keys);
      failed := world.DeleteObjects(keys);
      keys := [];
    }

    method ScheduleDelete(key: Key) returns (failed: bool)
      requires Valid()
      modifies this, world
      ensures Valid() && scheduled == old(scheduled) + [key]
      ensures if |old(keys)| == 999 then
                && keys == [] && world.calls == old(world.calls) + [old(keys) + [key]]
                && failed == world.fails(|old(world.calls)|) && world.waits == old(world.waits) + 1
              else
                && keys == old(keys) + [key] && !failed
                && world.calls == old(world.calls) && world.waits == old(world.waits)
    {
      keys := keys + [key];
      scheduled := scheduled + [key];
      assert Flat(world.calls) + keys == scheduled;
      if |keys| >= BULK_DELETE_MAX_FILES {
        failed := DeleteKeys();
      } else {
        failed := false;
      }
    }

    method FlushDelete() returns (failed: bool)
      requires Valid()
      modifies this`keys, world
      ensures Valid() && keys == []
      ensures if old(keys) == [] then !failed && world.calls == old(world.calls) && world.waits == old(world.waits)
              else
                && world.calls == old(world.calls) + [old(keys)] && world.waits == old(world.waits) + 1
                && failed == world.fails(|old(world.calls)|)
    {
      if |keys| > 0 {
        failed := DeleteKeys();
      } else {
        failed := false;
      }
    }
  }

  // ---------------------------------------------------------------------------------------------
  // A whole deletion
  // ---------------------------------------------------------------------------------------------

  /** A folder as it is listed: its pages, in order. */
  type Listing = seq<seq<Key>>

  /** The pages of all folders. */
  function Pages(folders: seq<Listing>): seq<seq<Key>> {
    if folders == [] then [] else folders[0] + Pages(folders[1..])
  }

  /** The fewest calls that some keys can be deleted with. */
  function Calls(keys: nat): nat {
    (keys + 999) / 1000
  }

  function CallsForAll(folders: seq<Listing>): nat {
    if folders == [] then 0 else Calls(|Flat(folders[0])|) + CallsForAll(folders[1..])
  }

  /** No deletion fails, and the dialogue stays open. */
  ghost predicate Smooth(world: World)
    reads world
  {
    !world.Aborted() && forall i | 0 <= i < |world.calls| :: !world.fails(i)
  }

  /** The last call of those since `n` failed. */
  ghost predicate LastFailed(world: World, n: nat)
    reads world
  {
    |world.calls| > n && world.fails(|world.calls| - 1)
  }

  /** Some time has passed, and none more than up to the closing of the dialogue. */
  predicate Passed(before: nat, closed: nat, after: nat) {
    before <= after && (after == before || after <= closed)
  }

  /** The keys in full batches and those still kept back. */
  function Amount(calls: seq<seq<Key>>, keys: seq<Key>): nat {
    1000 * |calls| + |keys|
  }

  /** Schedules the keys of a page up to a failing call, or the closing of the dialogue. What is left of
      the page is not scheduled. Only full batches are submitted. */
  method DeletePage(deleter: Deleter, page: seq<Key>) returns (ghost taken: seq<Key>)
    requires deleter.Valid()
    modifies deleter, deleter.world
    ensures deleter.Valid() && old(deleter.world.calls) <= deleter.world.calls
    ensures Passed(old(deleter.world.waits), deleter.world.closedAfter, deleter.world.waits)
    ensures deleter.scheduled == old(deleter.scheduled) + taken && taken <= page
    ensures taken == page || deleter.world.Aborted() || LastFailed(deleter.world, |old(deleter.world.calls)|)
    ensures Amount(deleter.world.calls, deleter.keys)
            == Amount(old(deleter.world.calls), old(deleter.keys)) + |taken|
  {
    hide Orderly;
    var world, j := deleter.world, 0;
    assert page[..0] == [];
    while j < |page| && !world.Aborted()
      invariant j <= |page| && deleter.Valid() && old(world.calls) <= world.calls
      invariant Passed(old(world.waits), world.closedAfter, world.waits)
      invariant deleter.scheduled == old(deleter.scheduled) + page[..j]
      invariant Amount(world.calls, deleter.keys) == Amount(old(world.calls), old(deleter.keys)) + j
    {
      var failed := deleter.ScheduleDelete(page[j]);
      assert page[..j + 1] == page[..j] + [page[j]];
      j := j + 1;
      if failed {
        break;
      }
    }
    taken := page[..j];
  }

  /** Of each page that was read, a first part. */
  ghost predicate FirstParts(taken: seq<seq<Key>>, pages: seq<seq<Key>>) {
    |taken| <= |pages| && forall i | 0 <= i < |taken| :: taken[i] <= pages[i]
  }

  lemma OnePart(taken: seq<seq<Key>>, some: seq<Key>, pages: seq<seq<Key>>)
    requires FirstParts(taken, pages) && |taken| < |pages| && some <= pages[|taken|]
    ensures FirstParts(taken + [some], pages)
  {
  }

  lemma AllParts(taken: seq<seq<Key>>, read: seq<seq<Key>>, rest: seq<seq<Key>>)
    requires FirstParts(taken, read)
    ensures FirstParts(taken, read + rest)
  {
  }

  lemma MoreParts(taken: seq<seq<Key>>, pages: seq<seq<Key>>, some: seq<seq<Key>>, rest: seq<seq<Key>>)
    requires FirstParts(taken, pages) && |taken| == |pages| && FirstParts(some, rest)
    ensures FirstParts(taken + some, pages + rest)
  {
  }

  /** Reads the pages of one folder, until the dialogue is closed. A listing that fails is asked for again,
      for as long as it takes. */
  method DeletePages(deleter: Deleter, pages: Listing) returns (ghost taken: seq<seq<Key>>)
    requires deleter.Valid()
    modifies deleter, deleter.world
    ensures deleter.Valid() && old(deleter.world.calls) <= deleter.world.calls
    ensures Passed(old(deleter.world.waits), deleter.world.closedAfter, deleter.world.waits)
    ensures deleter.scheduled == old(deleter.scheduled) + Flat(taken)
    ensures FirstParts(taken, pages)
    ensures |taken| < |pages| ==> deleter.world.Aborted()
    ensures Smooth(deleter.world) ==> taken == pages
    ensures Amount(deleter.world.calls, deleter.keys)
            == Amount(old(deleter.world.calls), old(deleter.keys)) + |Flat(taken)|
  {
    hide Orderly;
    var world := deleter.world;
    taken := [];
    assert FirstParts(taken, pages);
    hide FirstParts;
    var i := 0;
    assert deleter.scheduled + [] == deleter.scheduled;
    while i < |pages| && !world.Aborted()
      invariant i <= |pages| && deleter.Valid() && old(world.calls) <= world.calls
      invariant Passed(old(world.waits), world.closedAfter, world.waits)
      invariant deleter.scheduled == old(deleter.scheduled) + Flat(taken)
      invariant |taken| == i && FirstParts(taken, pages)
      invariant Smooth(world) ==> taken == pages[..i]
      invariant Amount(world.calls, deleter.keys) == Amount(old(world.calls), old(deleter.keys)) + |Flat(taken)|
      decreases world.closedAfter - world.waits
    {
      var failed := world.ListObjects();
      if failed {
        continue;
      }
      ghost var some := DeletePage(deleter, pages[i]);
      assert pages[..i] + [pages[i]] == pages[..i + 1];
      FlatAppend(taken, some);
      OnePart(taken, some, pages);
      taken := taken + [some];
      i := i + 1;
    }
  }

  lemma CallsMade(keys: nat, calls: nat, rest: nat)
    requires 1000 * calls + rest == keys && rest < 1000
    ensures Calls(keys) == calls + if rest > 0 then 1 else 0
  {
  }

  /** Deletes single objects; a failing call ends it. */
  method DeleteSingles(deleter: Deleter, objects: seq<Key>) returns (failed: bool, ghost taken: seq<Key>)
    requires deleter.Valid() && deleter.keys == []
    modifies deleter, deleter.world
    ensures deleter.Valid() && old(deleter.world.calls) <= deleter.world.calls
    ensures deleter.world.waits == old(deleter.world.waits)
            || (old(deleter.world.waits) < deleter.world.waits <= deleter.world.closedAfter + 1)
    ensures deleter.scheduled == old(deleter.scheduled) + taken && taken <= objects
    ensures failed <==> LastFailed(deleter.world, |old(deleter.world.calls)|)
    ensures !failed ==> deleter.keys == [] && (taken == objects || deleter.world.Aborted())
    ensures !failed ==> |deleter.world.calls| == |old(deleter.world.calls)| + Calls(|taken|)
  {
    hide Orderly;
    var world, j := deleter.world, 0;
    assert objects[..0] == [];
    taken := [];
    while j < |objects| && !world.Aborted()
      invariant j <= |objects| && deleter.Valid() && old(world.calls) <= world.calls
      invariant Passed(old(world.waits), world.closedAfter, world.waits)
      invariant if j == 0 then deleter.keys == [] else world.waits <= world.closedAfter
      invariant taken == objects[..j] && deleter.scheduled == old(deleter.scheduled) + taken
      invariant !LastFailed(world, |old(world.calls)|)
      invariant Amount(world.calls, deleter.keys) == Amount(old(world.calls), []) + j && |deleter.keys| < 1000
    {
      failed := deleter.ScheduleDelete(objects[j]);
      assert objects[..j + 1] == objects[..j] + [objects[j]];
      taken := objects[..j + 1];
      if failed {
        return;
      }
      j := j + 1;
    }
    CallsMade(j, |world.calls| - |old(world.calls)|, |deleter.keys|);
    failed := deleter.FlushDelete();
  }

  /** What a folder adds: parts of its pages, in as few calls as they can be deleted with. */
  method DeleteFolder(deleter: Deleter, pages: Listing) returns (ghost taken: seq<seq<Key>>)
    requires deleter.Valid() && deleter.keys == [] && !deleter.world.Aborted()
    modifies deleter, deleter.world
    ensures deleter.Valid() && deleter.keys == [] && old(deleter.world.calls) <= deleter.world.calls
    ensures old(deleter.world.waits) <= deleter.world.waits <= deleter.world.closedAfter + 1
    ensures deleter.scheduled == old(deleter.scheduled) + Flat(taken) && FirstParts(taken, pages)
    ensures |taken| < |pages| ==> deleter.world.Aborted()
    ensures Smooth(deleter.world) ==> taken == pages
    ensures |deleter.world.calls| == |old(deleter.world.calls)| + Calls(|Flat(taken)|)
  {
    taken := DeletePages(deleter, pages);
    CallsMade(|Flat(taken)|, |deleter.world.calls| - |old(deleter.world.calls)|, |deleter.keys|);
    var failed := deleter.FlushDelete();
  }

  lemma {:induction false} FlatParts(a: seq<seq<Key>>, b: seq<seq<Key>>)
    ensures Flat(a + b) == Flat(a) + Flat(b)
  {
    if a == [] {
      assert a + b == b;
    } else {
      assert (a + b)[1..] == a[1..] + b;
      FlatParts(a[1..], b);
    }
  }

  /** A folder whose deletion fails does not keep the next ones from being deleted. */
  method DeleteFolders(deleter: Deleter, folders: seq<Listing>) returns (ghost taken: seq<seq<Key>>)
    requires deleter.Valid() && deleter.keys == [] && deleter.scheduled == []
    modifies deleter, deleter.world
    ensures deleter.Valid() && deleter.keys == [] && deleter.scheduled == Flat(taken)
    ensures FirstParts(taken, Pages(folders)) && (|taken| < |Pages(folders)| ==> deleter.world.Aborted())
    ensures deleter.world.waits == old(deleter.world.waits) || deleter.world.waits <= deleter.world.closedAfter + 1
    ensures old(deleter.world.calls) <= deleter.world.calls
    ensures Smooth(deleter.world) ==>
              && taken == Pages(folders)
              && |deleter.world.calls| == |old(deleter.world.calls)| + CallsForAll(folders)
  {
    hide Orderly;
    var world, i := deleter.world, 0;
    taken := [];
    ghost var read := [];
    assert FirstParts(taken, read);
    hide FirstParts;
    hide Calls;
    while i < |folders| && !world.Aborted()
      invariant i <= |folders| && deleter.Valid() && deleter.keys == []
      invariant deleter.scheduled == Flat(taken) && FirstParts(taken, read)
      invariant |taken| == |read| || world.Aborted()
      invariant read + Pages(folders[i..]) == Pages(folders)
      invariant old(world.calls) <= world.calls
      invariant world.waits == old(world.waits) || world.waits <= world.closedAfter + 1
      invariant Smooth(world) ==>
                  && taken == read
                  && |world.calls| + CallsForAll(folders[i..]) == |old(world.calls)| + CallsForAll(folders)
    {
      ghost var some := DeleteFolder(deleter, folders[i]);
      assert folders[i..][0] == folders[i] && folders[i..][1..] == folders[i + 1..];
      FlatParts(taken, some);
      MoreParts(taken, read, some, folders[i]);
      taken, read := taken + some, read + folders[i];
      i := i + 1;
    }
    AllParts(taken, read, Pages(folders[i..]));
    assert folders[|folders|..] == [];
  }

  /** Deletes folders, and then single objects, of which one that fails ends it. */
  method DeleteFiles(world: World, folders: seq<Listing>, objects: seq<Key>)
    returns (finished: bool, deleter: Deleter, ghost taken: seq<seq<Key>>, ghost singles: seq<Key>)
    requires world.calls == []
    modifies world
    ensures fresh(deleter) && deleter.world == world && deleter.Valid()
    ensures deleter.scheduled == Flat(taken) + singles && FirstParts(taken, Pages(folders)) && singles <= objects
    ensures |taken| < |Pages(folders)| ==> world.Aborted()
    ensures finished ==> deleter.keys == [] && (singles == objects || world.Aborted())
    ensures !finished ==> LastFailed(world, 0)
    ensures world.waits == old(world.waits) + 1 || world.waits <= world.closedAfter + 1
    ensures Smooth(world) ==>
              && finished && Flat(world.calls) == Flat(Pages(folders)) + objects
              && |world.calls| == CallsForAll(folders) + Calls(|objects|)
  {
    hide FirstParts;
    hide Calls;
    deleter := new Deleter(world);
    world.Wait();
    taken := DeleteFolders(deleter, folders);
    var failed;
    failed, singles := DeleteSingles(deleter, objects);
    finished := !failed;
  }
}
