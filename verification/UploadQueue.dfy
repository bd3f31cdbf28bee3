/** The upload queue of the file browser: a bounded number of uploads at a time, and one reload of the
    listing when the last of them is done. */
module UploadQueue {

  type File = nat

  const MAX_CONNECTIONS: nat := 4

  /** A call of `run` in its loop, waiting for the task of a file. The task is `settled` once it has
      counted itself as done; the loop goes on some time after that. */
  datatype Worker = Worker(file: File, settled: bool)

  datatype Queue = Queue(
    concurrency: nat,
    running: int,
    tasks: seq<File>,
    workers: seq<Worker>,
    started: seq<File>,
    remaining: int,
    aborted: bool,
    reloads: nat)

  datatype Step = Submit(file: File) | Settle(w: nat) | Resume(w: nat) | Abort

  function Opened(files: nat): Queue {
    var concurrency := if files < MAX_CONNECTIONS then files else MAX_CONNECTIONS;
    Queue(concurrency, 0, [], [], [], files, false, 0)
  }

  function ConnectionsPerFile(concurrency: nat): nat
    requires concurrency > 0
  {
    MAX_CONNECTIONS / concurrency
  }

  predicate Enabled(q: Queue, step: Step) {
    match step
    case Settle(w) => w < |q.workers| && !q.workers[w].settled
    case Resume(w) => w < |q.workers| && q.workers[w].settled
    case _ => true
  }

  /** A task counts itself as done. */
  function Counted(q: Queue): Queue {
    q.(remaining := q.remaining - 1, reloads := q.reloads + if q.remaining - 1 == 0 then 1 else 0)
  }

  /** The first waiting task is started. It is done at once if the dialogue has been closed. */
  function Begun(q: Queue): Queue
    requires q.tasks != []
  {
    var q' := q.(started := q.started + [q.tasks[0]], tasks := q.tasks[1..]);
    if q.aborted then Counted(q') else q'
  }

  function Submitted(q: Queue, file: File): Queue {
    var q' := q.(tasks := q.tasks + [file]);
    if q'.running >= q'.concurrency then q'
    else Begun(q').(running := q.running + 1, workers := q.workers + [Worker(q'.tasks[0], q.aborted)])
  }

  function Resumed(q: Queue, w: nat): Queue
    requires w < |q.workers|
  {
    if q.tasks == [] then q.(running := q.running - 1, workers := q.workers[..w] + q.workers[w + 1..])
    else Begun(q).(workers := q.workers[w := Worker(q.tasks[0], q.aborted)])
  }

  function After(q: Queue, step: Step): Queue
    requires Enabled(q, step)
  {
    match step
    case Submit(file) => Submitted(q, file)
    case Settle(w) => Counted(q).(workers := q.workers[w := q.workers[w].(settled := true)])
    case Resume(w) => Resumed(q, w)
    case Abort => q.(aborted := true)
  }

  predicate Legal(q: Queue, steps: seq<Step>)
    decreases |steps|
  {
    steps == [] || (Enabled(q, steps[0]) && Legal(After(q, steps[0]), steps[1..]))
  }

  function Final(q: Queue, steps: seq<Step>): Queue
    requires Legal(q, steps)
    decreases |steps|
  {
    if steps == [] then q else Final(After(q, steps[0]), steps[1..])
  }

  /** The files handed to the queue, in order. */
  function Files(steps: seq<Step>): seq<File> {
    if steps == [] then [] else (if steps[0].Submit? then [steps[0].file] else []) + Files(steps[1..])
  }

  // ---------------------------------------------------------------------------------------------
  // The code
  // ---------------------------------------------------------------------------------------------

  class Uploads {
    const concurrency: nat
    var running: int
    var tasks: seq<File>
    var workers: seq<Worker>
    var started: seq<File>
    var remaining: int
    var aborted: bool
    var reloads: nat

    ghost function Now(): Queue
      reads this
    {
      Queue(concurrency, running, tasks, workers, started, remaining, aborted, reloads)
    }

    constructor (files: nat)
      ensures Now() == Opened(files)
    {
      concurrency := if files < MAX_CONNECTIONS then files else MAX_CONNECTIONS;
      running, tasks, workers, started := 0, [], [], [];
      remaining, aborted, reloads := files, false, 0;
    }

    /** The part of a task up to its first wait, which it only has if it uploads at all. */
    method StartNext() returns (worker: Worker)
      requires tasks != []
      modifies this`tasks, this`started, this`remaining, this`reloads
      ensures Now() == Begun(old(Now())) && worker == Worker(old(tasks)[0], aborted)
      ensures tasks == old(tasks)[1..] && started == old(started) + [old(tasks)[0]]
      ensures remaining == old(remaining) - if aborted then 1 else 0
    {
      var file := tasks[0];
      tasks := tasks[1..];
      started := started + [file];
      if aborted {
        CountDown();
      }
      return Worker(file, aborted);
    }

    method CountDown()
      modifies this`remaining, this`reloads
      ensures Now() == Counted(old(Now()))
      ensures remaining == old(remaining) - 1 && reloads == old(reloads) + if remaining == 0 then 1 else 0
    {
      remaining := remaining - 1;
      if remaining == 0 {
        reloads := reloads + 1;
      }
    }

    /** Called with a task, up to the first wait. */
    method Run(file: File)
      modifies this
      ensures Now() == Submitted(old(Now()), file)
      ensures old(running) >= concurrency ==>
                && tasks == old(tasks) + [file] && running == old(running) && workers == old(workers)
                && started == old(started) && remaining == old(remaining) && reloads == old(reloads)
      ensures old(running) < concurrency ==>
                && started + tasks == old(started) + old(tasks) + [file] && |started| == |old(started)| + 1
                && running == old(running) + 1
                && workers == old(workers) + [Worker(started[|old(started)|], aborted)]
                && remaining == old(remaining) - if aborted then 1 else 0
    {
      tasks := tasks + [file];
      if running >= concurrency {
        return;
      }
      running := running + 1;
      var worker := StartNext();
      workers := workers + [worker];
    }

    /** The rest of a task, once its upload has succeeded or failed. */
    method TaskEnds(w: nat)
      requires w < |workers| && !workers[w].settled
      modifies this`remaining, this`reloads, this`workers
      ensures Now() == After(old(Now()), Settle(w))
      ensures workers == old(workers)[w := Worker(old(workers)[w].file, true)]
      ensures remaining == old(remaining) - 1 && reloads == old(reloads) + if remaining == 0 then 1 else 0
    {
      workers := workers[w := workers[w].(settled := true)];
      CountDown();
    }

    /** A waiting loop goes on: round once more, or out of it. */
    method LoopOn(w: nat)
      requires w < |workers| && workers[w].settled
      modifies this
      ensures Now() == After(old(Now()), Resume(w))
      ensures started + tasks == old(started) + old(tasks)
      ensures if old(tasks) == [] then
                && running == old(running) - 1 && workers == old(workers)[..w] + old(workers)[w + 1..]
                && remaining == old(remaining)
              else
                && running == old(running) && |started| == |old(started)| + 1
                && workers == old(workers)[w := Worker(old(tasks)[0], aborted)]
                && remaining == old(remaining) - if aborted then 1 else 0
    {
      if |tasks| > 0 {
        var worker := StartNext();
        workers := workers[w := worker];
      } else {
        workers := workers[..w] + workers[w + 1..];
        running := running - 1;
      }
    }

    method Close()
      modifies this`aborted
      ensures Now() == After(old(Now()), Abort) && aborted
    {
      aborted := true;
    }
  }

  // ---------------------------------------------------------------------------------------------
  // Invariants
  // ---------------------------------------------------------------------------------------------

  /** The uploads in flight. */
  function Uploading(workers: seq<Worker>): nat {
    if workers == [] then 0 else (if workers[0].settled then 0 else 1) + Uploading(workers[1..])
  }

  lemma {:induction false} UploadingParts(a: seq<Worker>, b: seq<Worker>)
    ensures Uploading(a + b) == Uploading(a) + Uploading(b) <= |a| + |b|
  {
    if a != [] {
      assert (a + b)[1..] == a[1..] + b;
      UploadingParts(a[1..], b);
    } else {
      assert a + b == b;
      if b != [] {
        UploadingParts([], b[1..]);
        assert [] + b[1..] == b[1..];
      }
    }
  }

  lemma UploadingChanged(workers: seq<Worker>, w: nat, worker: Worker)
    requires w < |workers|
    ensures Uploading(workers[w := worker]) + (if workers[w].settled then 0 else 1)
            == Uploading(workers) + (if worker.settled then 0 else 1)
  {
    UploadingParts(workers[..w], [workers[w]] + workers[w + 1..]);
    UploadingParts(workers[..w], [worker] + workers[w + 1..]);
    UploadingParts([workers[w]], workers[w + 1..]);
    UploadingParts([worker], workers[w + 1..]);
    assert workers == workers[..w] + ([workers[w]] + workers[w + 1..]);
    assert workers[w := worker] == workers[..w] + ([worker] + workers[w + 1..]);
  }

  lemma UploadingRemoved(workers: seq<Worker>, w: nat)
    requires w < |workers| && workers[w].settled
    ensures Uploading(workers[..w] + workers[w + 1..]) == Uploading(workers)
  {
    UploadingParts(workers[..w], workers[w + 1..]);
    UploadingParts([workers[w]], workers[w + 1..]);
    UploadingParts(workers[..w], [workers[w]] + workers[w + 1..]);
    assert workers == workers[..w] + ([workers[w]] + workers[w + 1..]);
  }

  /** `files` have been handed to a queue made for `total`. Waiting files mean that no slot is free;
      files start in the order they came; what remains is what has not counted itself as done; and the
      listing is reloaded exactly when nothing remains. */
  ghost predicate Sound(q: Queue, files: seq<File>, total: nat) {
    && q.concurrency == (if total < 4 then total else 4)
    && q.running == |q.workers| <= q.concurrency
    && (q.tasks != [] ==> q.running == q.concurrency)
    && files == q.started + q.tasks
    && q.remaining == total - |q.started| + Uploading(q.workers)
    && q.reloads == if q.remaining == 0 then 1 else 0
  }

  lemma SubmitSound(q: Queue, files: seq<File>, total: nat, file: File)
    requires Sound(q, files, total) && |files| < total
    ensures Sound(Submitted(q, file), files + [file], total)
  {
    assert q.started + (q.tasks + [file]) == files + [file];
    if q.running < q.concurrency {
      assert q.tasks + [file] == [file];
      UploadingParts(q.workers, [Worker(file, q.aborted)]);
      UploadingParts(q.workers, []);
      assert Uploading([Worker(file, q.aborted)]) == if q.aborted then 0 else 1;
    }
  }

  lemma SettleSound(q: Queue, files: seq<File>, total: nat, w: nat)
    requires Sound(q, files, total) && |files| <= total && Enabled(q, Settle(w))
    ensures Sound(After(q, Settle(w)), files, total)
  {
    UploadingChanged(q.workers, w, q.workers[w].(settled := true));
  }

  lemma ResumeSound(q: Queue, files: seq<File>, total: nat, w: nat)
    requires Sound(q, files, total) && |files| <= total && Enabled(q, Resume(w))
    ensures Sound(Resumed(q, w), files, total)
  {
    if q.tasks == [] {
      UploadingRemoved(q.workers, w);
    } else {
      UploadingChanged(q.workers, w, Worker(q.tasks[0], q.aborted));
      assert q.started + q.tasks == q.started + [q.tasks[0]] + q.tasks[1..];
    }
  }

  /** The queue is sound throughout every interleaving of submissions, ends of uploads, resumptions of
      loops and the closing of the dialogue. */
  lemma {:induction false} QueueRuns(q: Queue, steps: seq<Step>, files: seq<File>, total: nat)
    requires Legal(q, steps) && Sound(q, files, total) && |files| + |Files(steps)| <= total
    ensures Sound(Final(q, steps), files + Files(steps), total)
    decreases |steps|
  {
    if steps == [] {
      assert files + Files(steps) == files;
    } else {
      var rest := steps[1..];
      match steps[0] {
        case Submit(file) =>
          SubmitSound(q, files, total, file);
          QueueRuns(Submitted(q, file), rest, files + [file], total);
          assert files + [file] + Files(rest) == files + Files(steps);
        case Settle(w) =>
          SettleSound(q, files, total, w);
          QueueRuns(After(q, steps[0]), rest, files, total);
          assert Files(rest) == Files(steps);
        case Resume(w) =>
          ResumeSound(q, files, total, w);
          QueueRuns(Resumed(q, w), rest, files, total);
          assert Files(rest) == Files(steps);
        case Abort =>
          QueueRuns(After(q, Abort), rest, files, total);
          assert Files(rest) == Files(steps);
      }
    }
  }

  /** At no time do the uploads in flight use more than four connections; with one connection more for
      each file, as many files as may be in flight would. */
  lemma ConnectionsBounded(q: Queue, files: seq<File>, total: nat)
    requires Sound(q, files, total) && total > 0
    ensures q.concurrency > 0 && Uploading(q.workers) * ConnectionsPerFile(q.concurrency) <= 4
    ensures q.concurrency in {total, 4} && q.concurrency <= 4
    ensures q.concurrency * (ConnectionsPerFile(q.concurrency) + 1) > 4
  {
    UploadingParts(q.workers, []);
    assert q.workers + [] == q.workers;
    var n, c := Uploading(q.workers), ConnectionsPerFile(q.concurrency);
    assert n <= q.concurrency <= 4;
    assert c * q.concurrency <= 4;
    if n < q.concurrency {
      assert n * c <= q.concurrency * c by {
        assert (q.concurrency - n) * c >= 0;
        assert (q.concurrency - n) * c == q.concurrency * c - n * c;
      }
    }
  }

  /** When the queue has come to rest, every file was started once, in order, and the listing was
      reloaded once. */
  lemma RestIsDone(steps: seq<Step>, total: nat)
    requires total > 0 && Legal(Opened(total), steps) && |Files(steps)| == total
    requires Final(Opened(total), steps).workers == []
    ensures var q := Final(Opened(total), steps);
            q.started == Files(steps) && q.remaining == 0 && q.reloads == 1
  {
    QueueRuns(Opened(total), steps, [], total);
    assert [] + Files(steps) == Files(steps);
    var q := Final(Opened(total), steps);
    assert q.started + q.tasks == Files(steps);
    assert q.tasks == [];
  }

  /** How many uploads end. */
  function Settles(steps: seq<Step>): nat {
    if steps == [] then 0 else (if steps[0].Settle? then 1 else 0) + Settles(steps[1..])
  }

  lemma UploadsStep(q: Queue, step: Step)
    requires Enabled(q, step)
    ensures var q' := After(q, step);
            Uploading(q'.workers) + (if step.Settle? then 1 else 0)
            == Uploading(q.workers) + if q.aborted then 0 else |q'.started| - |q.started|
    ensures After(q, step).aborted <==> q.aborted || step.Abort?
  {
    match step {
      case Submit(file) =>
        UploadingParts(q.workers, [Worker((q.tasks + [file])[0], q.aborted)]);
        assert [Worker((q.tasks + [file])[0], q.aborted)][1..] == [];
      case Settle(w) => UploadingChanged(q.workers, w, q.workers[w].(settled := true));
      case Resume(w) =>
        if q.tasks == [] {
          UploadingRemoved(q.workers, w);
        } else {
          UploadingChanged(q.workers, w, Worker(q.tasks[0], q.aborted));
        }
      case Abort =>
    }
  }

  /** As long as the dialogue is open, every file that starts is uploaded, and each upload ends at most
      once. */
  lemma {:induction false} OpenUploads(q: Queue, steps: seq<Step>)
    requires Legal(q, steps) && !q.aborted && Abort !in steps
    ensures !Final(q, steps).aborted
    ensures Uploading(Final(q, steps).workers) + Settles(steps)
            == Uploading(q.workers) + |Final(q, steps).started| - |q.started|
    decreases |steps|
  {
    if steps != [] {
      UploadsStep(q, steps[0]);
      OpenUploads(After(q, steps[0]), steps[1..]);
    }
  }

  /** Once it is closed, no upload begins any more, and the dialogue stays closed. */
  lemma {:induction false} ClosedUploads(q: Queue, steps: seq<Step>)
    requires Legal(q, steps) && q.aborted
    ensures Final(q, steps).aborted && Uploading(Final(q, steps).workers) + Settles(steps) == Uploading(q.workers)
    decreases |steps|
  {
    if steps != [] {
      UploadsStep(q, steps[0]);
      ClosedUploads(After(q, steps[0]), steps[1..]);
    }
  }

  /** How many steps are left before the queue comes to rest. */
  function Work(q: Queue): nat {
    2 * |q.tasks| + Uploading(q.workers) + |q.workers|
  }

  lemma SettleWorks(q: Queue, w: nat)
    requires Enabled(q, Settle(w))
    ensures Work(After(q, Settle(w))) < Work(q)
  {
    UploadingChanged(q.workers, w, q.workers[w].(settled := true));
  }

  lemma ResumeWorks(q: Queue, w: nat)
    requires Enabled(q, Resume(w))
    ensures Work(Resumed(q, w)) < Work(q)
  {
    if q.tasks == [] {
      UploadingRemoved(q.workers, w);
    } else {
      UploadingChanged(q.workers, w, Worker(q.tasks[0], q.aborted));
    }
  }

  /** Once all files are submitted, the queue comes to rest: it takes no more steps than it has work
      left, and until then there is always one to take. */
  lemma {:induction false} ComesToRest(q: Queue, steps: seq<Step>)
    requires Legal(q, steps) && forall k | 0 <= k < |steps| :: steps[k].Settle? || steps[k].Resume?
    ensures |steps| + Work(Final(q, steps)) <= Work(q)
    ensures Final(q, steps).workers != [] ==>
              exists step :: Enabled(Final(q, steps), step) && !step.Submit? && !step.Abort?
    decreases |steps|
  {
    if steps != [] {
      if steps[0].Settle? {
        SettleWorks(q, steps[0].w);
      } else {
        ResumeWorks(q, steps[0].w);
      }
      ComesToRest(After(q, steps[0]), steps[1..]);
    } else if q.workers != [] {
      assert Enabled(q, if q.workers[0].settled then Resume(0) else Settle(0));
    }
  }
}
