/** Loops around try statements whose entries are not empty when they are entered again. */
module GeneratorLoops {
  import opened GeneratorAgreement
  import opened GeneratorContext
  import opened GeneratorDepartures
  import opened GeneratorMachine
  import opened GeneratorPrograms
  import opened GeneratorReentry
  import opened GeneratorRuns
  import opened Wrappers

  function Next(): Resume {
    Resume(NextMode, Undefined)
  }

  lemma YieldRuns(v: Value, lo: nat, inside: Option<nat>, h: Hidden, inputs: seq<Resume>)
    ensures inputs == [] ==> Runs(Yield(v), lo, inside, h, inputs) == Result([Yielded(v)], Waiting, h, [])
    ensures inputs != [] ==> Runs(Yield(v), lo, inside, h, inputs)
                             == Result([Yielded(v)], Resumed(inputs[0], h).0, Resumed(inputs[0], h).1, inputs[1..])
    ensures Standard(Yield(v), inputs)
            == if inputs == [] then Outcome([Yielded(v)], Suspended, [])
               else Outcome([Yielded(v)], ResumedWith(inputs[0]), inputs[1..])
  {
  }

  // ---------------------------------------------------------------------------------------------
  // An exception that is thrown on
  // ---------------------------------------------------------------------------------------------

  /** `try { yield 1; } finally { effect 2; }` */
  function Passing(): Stmt {
    Try(Yield(Given(1)), None, Some(Emit(2)))
  }

  /** `while (true) { try { try { yield 1; } finally { effect 2; } } catch (e) { effect 3; } }` */
  function Catching(): Stmt {
    Loop(Try(Passing(), Some(Emit(3)), None))
  }

  lemma PassingRuns(h: Hidden, call: Resume, rest: seq<Resume>)
    requires h.pending.None? && (call.mode.ThrowMode? || call == Next())
    ensures var r, o := Runs(Passing(), 1, None, h, [call] + rest), Standard(Passing(), [call] + rest);
            && r.log == o.log == [Yielded(Given(1)), Emitted(2)] && r.inputs == o.inputs == rest
            && (h.Record(1).Returning? || r.h.rval == h.rval)
            && (call.mode.ThrowMode? ==> r.comp == Throwing(call.arg) && o.ending == Throws(call.arg)
                                         && r.h.Record(1) == r.comp)
            && (call == Next() ==> o.ending == Falls)
            && (call == Next() && h.Record(1).Throwing? ==> r.comp == h.Record(1) && r.h.Record(1) == r.comp)
  {
    hide Runs;
    hide Standard;
    var s, calls := Passing(), [call] + rest;
    assert calls[0] == call && calls[1..] == rest;
    YieldRuns(Given(1), 2, Some(0), h, calls);
    RunsOfGuarded(s, 1, None, h, calls);
    RunsOfTry(s, 1, None, h, calls);
    StandardOfTry(s, calls);
    StandardOfGuarded(s, calls);
    var c := RunsGuarded(s, 1, None, h, calls);
    EmitRuns(2, LoOfFinalizer(s, 1), None, OnFinally(c, 1), rest);
  }

  /** One round: the exception is caught, or caught again. */
  lemma CatchingRound(h: Hidden, call: Resume, rest: seq<Resume>)
    requires h.pending.None? && (call.mode.ThrowMode? || (call == Next() && h.Record(1).Throwing?))
    requires !h.Record(1).Returning?
    ensures var e := if call.mode.ThrowMode? then call.arg else h.Record(1).thrown;
            var r := Runs(Catching().body, 0, None, h, [call] + rest);
            && r.log == [Yielded(Given(1)), Emitted(2), Entered(e), Emitted(3)]
            && r.comp == Normally && r.inputs == rest && r.h.pending.None? && r.h.rval == h.rval
            && r.h.Record(1) == Throwing(e)
  {
    hide Runs;
    var s, calls := Catching().body, [call] + rest;
    PassingRuns(h, call, rest);
    RunsOfTry(s, 0, None, h, calls);
    RunsOfGuarded(s, 0, None, h, calls);
    var g := Runs(Passing(), 1, None, h, calls);
    EmitRuns(3, LoOfHandler(s, 0), None, OnHandler(g, 0), rest);
  }

  function Nexts(n: nat): seq<Resume> {
    if n == 0 then [] else [Next()] + Nexts(n - 1)
  }

  function Repeated(events: seq<Event>, n: nat): seq<Event> {
    if n == 0 then [] else events + Repeated(events, n - 1)
  }

  lemma {:induction false} CatchingRuns(h: Hidden, e: Value, n: nat)
    requires h.pending.None? && h.Record(1) == Throwing(e)
    ensures var r := Runs(Catching(), 0, None, h, Nexts(n));
            && r.log == Repeated([Yielded(Given(1)), Emitted(2), Entered(e), Emitted(3)], n) + [Yielded(Given(1))]
            && r.comp == Waiting
    decreases n
  {
    hide Runs;
    RunsOfLoop(Catching(), 0, None, h, Nexts(n));
    if n == 0 {
      CatchingWaits(h);
    } else {
      CatchingRound(h, Next(), Nexts(n - 1));
      CatchingRuns(Runs(Catching().body, 0, None, h, Nexts(n)).h, e, n - 1);
      var round := [Yielded(Given(1)), Emitted(2), Entered(e), Emitted(3)];
      assert round + (Repeated(round, n - 1) + [Yielded(Given(1))]) == round + Repeated(round, n - 1) + [Yielded(Given(1))];
    }
  }

  lemma CatchingWaits(h: Hidden)
    ensures var r := Runs(Catching().body, 0, None, h, []);
            r.log == [Yielded(Given(1))] && r.comp == Waiting && r.inputs == []
    ensures Standard(Catching().body, []) == Outcome([Yielded(Given(1))], Suspended, [])
  {
    hide Runs;
    hide Standard;
    var s, t := Catching().body, Passing();
    YieldRuns(Given(1), 2, Some(0), h, []);
    RunsOfGuarded(t, 1, None, h, []);
    RunsOfTry(t, 1, None, h, []);
    RunsOfGuarded(s, 0, None, h, []);
    RunsOfTry(s, 0, None, h, []);
    StandardOfTry(t, []);
    StandardOfGuarded(t, []);
    StandardOfTry(s, []);
    StandardOfGuarded(s, []);
  }

  lemma CatchingStandardRound(call: Resume, rest: seq<Resume>)
    requires call.mode.ThrowMode? || call == Next()
    ensures Standard(Catching().body, [call] + rest)
            == Outcome(if call.mode.ThrowMode? then [Yielded(Given(1)), Emitted(2), Entered(call.arg), Emitted(3)]
                       else [Yielded(Given(1)), Emitted(2)], Falls, rest)
  {
    hide Standard;
    hide Runs;
    var s, calls, h := Catching().body, [call] + rest, NothingHidden();
    PassingRuns(h, call, rest);
    StandardOfTry(s, calls);
    StandardOfGuarded(s, calls);
    EmitRuns(3, 0, None, h, rest);
  }

  lemma {:induction false} CatchingStandard(n: nat)
    ensures Standard(Catching(), Nexts(n))
            == Outcome(Repeated([Yielded(Given(1)), Emitted(2)], n) + [Yielded(Given(1))], Suspended, [])
  {
    hide Standard;
    StandardOfLoop(Catching(), Nexts(n));
    if n == 0 {
      CatchingWaits(NothingHidden());
    } else {
      CatchingStandardRound(Next(), Nexts(n - 1));
      CatchingStandard(n - 1);
      var round := [Yielded(Given(1)), Emitted(2)];
      assert round + (Repeated(round, n - 1) + [Yielded(Given(1))]) == round + Repeated(round, n - 1) + [Yielded(Given(1))];
    }
  }

  /** An exception, passed on by a finally block and caught, is still in the entry of that block. Every
      later `next` enters the catch block with it, where the standard goes on to the next round. */
  lemma CaughtAgain(e: Value, n: nat) returns (steps: nat)
    ensures Plain(Catching(), 0, 0) && !LoopsCatchFirst(Catching())
    ensures var p, calls := Compile(Catching()), [Next(), Resume(ThrowMode, e)] + Nexts(n);
            var caught := [Yielded(Given(1)), Emitted(2), Entered(e), Emitted(3)];
            && Answered(Steps(p, Start(p, calls), steps), caught + (Repeated(caught, n) + [Yielded(Given(1))]))
            && StandardLog(Catching(), calls)
               == caught + (Repeated([Yielded(Given(1)), Emitted(2)], n) + [Yielded(Given(1))])
  {
    hide Run;
    hide Standard;
    var calls := [Next(), Resume(ThrowMode, e)] + Nexts(n);
    assert calls[1..] == [Resume(ThrowMode, e)] + Nexts(n);
    CaughtRun(e, n);
    CaughtStandard(e, n);
    CatchingIsFine();
    hide Catching;
    hide SpinsOn;
    hide Plain;
    hide LoopsCatchFirst;
    steps := WaitingLoopsAnswer(Catching(), calls);
  }

  lemma CaughtRun(e: Value, n: nat)
    ensures var r, caught := Run(Catching(), [Resume(ThrowMode, e)] + Nexts(n)),
                             [Yielded(Given(1)), Emitted(2), Entered(e), Emitted(3)];
            r.log == caught + (Repeated(caught, n) + [Yielded(Given(1))]) && r.comp == Waiting
  {
    hide Runs;
    var h, rest := NothingHidden(), [Resume(ThrowMode, e)] + Nexts(n);
    RunsOfLoop(Catching(), 0, None, h, rest);
    CatchingRound(h, Resume(ThrowMode, e), Nexts(n));
    CatchingRuns(Runs(Catching().body, 0, None, h, rest).h, e, n);
  }

  lemma CaughtStandard(e: Value, n: nat)
    ensures var caught := [Yielded(Given(1)), Emitted(2), Entered(e), Emitted(3)];
            Standard(Catching(), [Resume(ThrowMode, e)] + Nexts(n))
            == Outcome(caught + (Repeated([Yielded(Given(1)), Emitted(2)], n) + [Yielded(Given(1))]), Suspended, [])
  {
    hide Standard;
    StandardOfLoop(Catching(), [Resume(ThrowMode, e)] + Nexts(n));
    CatchingStandardRound(Resume(ThrowMode, e), Nexts(n));
    CatchingStandard(n);
  }

  lemma CatchingIsFine()
    ensures Scoped(Catching(), 0) && LoopsWait(Catching())
    ensures Plain(Catching(), 0, 0) && !LoopsCatchFirst(Catching())
  {
    assert Waits(Passing()) && LoopsWait(Passing());
    assert Plain(Passing(), 0, 0);
  }

  // ---------------------------------------------------------------------------------------------
  // A return that is replaced
  // ---------------------------------------------------------------------------------------------

  /** `try { yield 2; } catch (e) { continue; }` */
  function Replacing(): Stmt {
    Try(Yield(Given(2)), Some(Jump(0)), None)
  }

  /** `while (true) { try { yield 1; } finally { try { yield 2; } catch (e) { continue; } } }` */
  function Continuing(): Stmt {
    Loop(Try(Yield(Given(1)), None, Some(Replacing())))
  }

  lemma ReplacingRuns(h: Hidden, call: Resume, rest: seq<Resume>)
    requires h.pending.None? && (call.mode.ThrowMode? || call == Next())
    ensures var r, o := Runs(Replacing(), 1, None, h, [call] + rest), Standard(Replacing(), [call] + rest);
            && r.log == o.log
            && r.log == [Yielded(Given(2))] + (if call.mode.ThrowMode? then [Entered(call.arg)] else [])
            && r.inputs == o.inputs == rest && r.h.rval == h.rval && r.h.pending.None? && r.h.Record(0) == h.Record(0)
            && (if call.mode.ThrowMode? then r.comp == Jumping(0, true) && o.ending == Jumps(0)
                else r.comp == Normally && o.ending == Falls)
  {
    hide Runs;
    hide Standard;
    var s, calls := Replacing(), [call] + rest;
    assert calls[0] == call && calls[1..] == rest;
    YieldRuns(Given(2), 2, None, h, calls);
    RunsOfTry(s, 1, None, h, calls);
    RunsOfGuarded(s, 1, None, h, calls);
    StandardOfTry(s, calls);
    StandardOfGuarded(s, calls);
    var g := Runs(Yield(Given(2)), 2, None, h, calls);
    JumpRuns(0, LoOfHandler(s, 1), None, OnHandler(g, 1), rest);
    JumpInStandard(0, rest);
  }

  /** The guarded part of a round. */
  lemma ContinuingStarts(h: Hidden, first: Resume, tail: seq<Resume>)
    requires h.pending.None? && !first.mode.ThrowMode? && (first.mode.NextMode? ==> first == Next())
    ensures var s, calls := Continuing().body, [first] + tail;
            var c, o := RunsGuarded(s, 0, None, h, calls), StandardGuarded(s, calls);
            && c.log == o.log == [Yielded(Given(1))] && c.inputs == o.inputs == tail && Stops(c.comp)
            && (if first == Next() then c.comp == Normally && o.ending == Falls
                else c.comp == Returning(first.arg) && o.ending == Returns(first.arg))
            && OnFinally(c, 0).pending.None? && OnFinally(c, 0).rval == h.rval
            && OnFinally(c, 0).Record(0) == if first == Next() then h.Record(0) else Returning(first.arg)
  {
    hide Runs;
    hide Standard;
    var s, calls := Continuing().body, [first] + tail;
    assert calls[0] == first && calls[1..] == tail;
    YieldRuns(Given(1), 1, Some(0), h, calls);
    RunsOfGuarded(s, 0, None, h, calls);
    StandardOfGuarded(s, calls);
  }

  /** A round: the first yield is resumed by `first`, and the one in the finally block by `second`. */
  lemma ContinuingRound(h: Hidden, first: Resume, second: Resume, rest: seq<Resume>)
    requires h.pending.None? && !first.mode.ThrowMode? && (first.mode.NextMode? ==> first == Next())
    requires second.mode.ThrowMode? || second == Next()
    ensures var r, o := Runs(Continuing().body, 0, None, h, [first, second] + rest),
                        Standard(Continuing().body, [first, second] + rest);
            && r.log == o.log && r.inputs == o.inputs == rest
            && r.log == [Yielded(Given(1)), Yielded(Given(2))]
                        + (if second.mode.ThrowMode? then [Entered(second.arg)] else [])
            && r.h.pending.None?
            && (second.mode.ThrowMode? ==>
                  && r.comp == Jumping(0, true) && o.ending == Jumps(0) && r.h.rval == h.rval
                  && r.h.Record(0) == if first == Next() then h.Record(0) else Returning(first.arg))
            && (first == second == Next() ==>
                  o.ending == Falls && (h.Record(0).Returning? ==> r.comp == h.Record(0) && r.h.rval == r.comp.returned))
  {
    hide Runs;
    hide RunsGuarded;
    hide Standard;
    hide StandardGuarded;
    var s, tail := Continuing().body, [second] + rest;
    var calls := [first] + tail;
    assert [first, second] + rest == calls;
    ContinuingStarts(h, first, tail);
    RunsOfTry(s, 0, None, h, calls);
    StandardOfTry(s, calls);
    var c := RunsGuarded(s, 0, None, h, calls);
    ReplacingRuns(OnFinally(c, 0), second, rest);
  }

  lemma ContinuingWaits(h: Hidden)
    ensures var r := Runs(Continuing().body, 0, None, h, []);
            r.log == [Yielded(Given(1))] && r.comp == Waiting && r.inputs == []
    ensures Standard(Continuing().body, []) == Outcome([Yielded(Given(1))], Suspended, [])
  {
    hide Runs;
    hide Standard;
    var s := Continuing().body;
    YieldRuns(Given(1), 1, Some(0), h, []);
    RunsOfTry(s, 0, None, h, []);
    RunsOfGuarded(s, 0, None, h, []);
    StandardOfTry(s, []);
    StandardOfGuarded(s, []);
  }

  lemma ContinuingRun(v: Value, e: Value)
    ensures var r := Run(Continuing(), [Resume(ReturnMode, v), Resume(ThrowMode, e), Next(), Next()]);
            && r.log == [Yielded(Given(1)), Yielded(Given(2)), Entered(e), Yielded(Given(1)), Yielded(Given(2))]
            && r.comp == Returning(v) && r.inputs == []
  {
    hide Runs;
    hide Standard;
    var s, h, later := Continuing(), NothingHidden(), [Next(), Next()];
    var calls := [Resume(ReturnMode, v), Resume(ThrowMode, e)] + later;
    assert calls == [Resume(ReturnMode, v), Resume(ThrowMode, e), Next(), Next()];
    RunsOfLoop(s, 0, None, h, calls);
    ContinuingRound(h, Resume(ReturnMode, v), Resume(ThrowMode, e), later);
    var h1 := Runs(s.body, 0, None, h, calls).h;
    RunsOfLoop(s, 0, None, h1, later);
    assert later + [] == later;
    ContinuingRound(h1, Next(), Next(), []);
  }

  lemma ContinuingStandard(v: Value, e: Value)
    ensures Standard(Continuing(), [Resume(ReturnMode, v), Resume(ThrowMode, e), Next(), Next()])
            == Outcome([Yielded(Given(1)), Yielded(Given(2)), Entered(e), Yielded(Given(1)), Yielded(Given(2)),
                        Yielded(Given(1))], Suspended, [])
  {
    hide Runs;
    hide Standard;
    var s, h, later := Continuing(), NothingHidden(), [Next(), Next()];
    var calls := [Resume(ReturnMode, v), Resume(ThrowMode, e)] + later;
    assert calls == [Resume(ReturnMode, v), Resume(ThrowMode, e), Next(), Next()];
    StandardOfLoop(s, calls);
    ContinuingRound(h, Resume(ReturnMode, v), Resume(ThrowMode, e), later);
    StandardOfLoop(s, later);
    assert later + [] == later;
    ContinuingRound(h, Next(), Next(), []);
    StandardOfLoop(s, []);
    ContinuingWaits(h);
  }

  /** A return that a jump out of its finally block has replaced comes back to life the next time that
      block ends. */
  lemma ReplacedReturnComesBack(v: Value, e: Value) returns (steps: nat)
    ensures var p, calls := Compile(Continuing()), [Next(), Resume(ReturnMode, v), Resume(ThrowMode, e), Next(), Next()];
            var log := [Yielded(Given(1)), Yielded(Given(2)), Entered(e), Yielded(Given(1)), Yielded(Given(2))];
            && Answered(Steps(p, Start(p, calls), steps), log + [Done(v)])
            && StandardLog(Continuing(), calls) == log + [Yielded(Given(1))]
  {
    hide Runs;
    hide Standard;
    var calls := [Next(), Resume(ReturnMode, v), Resume(ThrowMode, e), Next(), Next()];
    assert calls[1..] == [Resume(ReturnMode, v), Resume(ThrowMode, e), Next(), Next()];
    ContinuingRun(v, e);
    ContinuingStandard(v, e);
    ContinuingIsFine();
    steps := WaitingLoopsAnswer(Continuing(), calls);
  }

  lemma ContinuingIsFine()
    ensures Scoped(Continuing(), 0) && LoopsWait(Continuing())
  {
    assert LoopsWait(Replacing());
  }
}
