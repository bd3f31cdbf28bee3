/** The generator object: the driving loop and the compiled function as they are written, proved
    against the steps of the machine. */
module GeneratorObject {
  import opened GeneratorContext
  import opened GeneratorMachine
  import opened GeneratorPrograms
  import opened GeneratorRuns
  import opened GeneratorSimulation
  import opened Wrappers

  /** What a call of the compiled function gives back: a value for the caller, the sentinel that asks
      for another round, or an exception. */
  datatype Record = Returned(value: Value) | Continue | Threw(thrown: Value)

  /** What the driving loop makes of a record. */
  function Handled(m: Machine, record: Record): Machine {
    match record
    case Returned(v) => Answer(m, m.ctx, v)
    case Continue => Sentinel(m, (m.ctx, None))
    case Threw(e) => ThrowOut(m, m.ctx, e)
  }

  ghost predicate Halts(p: Program, m: Machine, n: nat)
    requires m.ctx.Valid()
  {
    Steps(p, m, n).phase.Idle? && Steps(p, m, n).inputs == []
  }

  lemma OneMore(p: Program, m: Machine, k: nat)
    requires m.ctx.Valid()
    ensures Steps(p, m, k + 1) == Step(p, Steps(p, m, k))
  {
    StepsAdd(p, m, k, 1);
    assert Steps(p, Steps(p, m, k), 1) == Step(p, Steps(p, m, k));
  }

  class Generator {
    const program: Program
    const context: Context
    var state: GenState
    var log: seq<Event>

    ghost function Snapshot(phase: Phase): Machine
      reads this, context
    {
      Machine(context.Now(), state, phase, [], log)
    }

    constructor (p: Program)
      ensures program == p && fresh(context) && Snapshot(Idle) == Start(p, [])
    {
      program := p;
      context := new Context(p.entries);
      state := SuspendedStart;
      log := [];
    }

    /** The compiled function: a switch over locations that starts at `next`. */
    method Inner(ghost n: nat) returns (record: Record, ghost k: nat)
      requires context.Now().Valid() && state.Executing?
      requires Halts(program, Enter(program, Snapshot(Looping), context.Now()), n)
      modifies this`log, context
      ensures context.Now().Valid() && k <= n
      ensures Steps(program, old(Enter(program, Snapshot(Looping), context.Now())), k)
              == Handled(Snapshot(Looping), record)
    {
      hide Aborted;
      hide Caught;
      hide Finished;
      hide Stopped;
      hide Steps;
      ghost var start := Enter(program, Snapshot(Looping), context.Now());
      NoSteps(program, start);
      context.prev := context.next;
      var pc: nat := if context.next.At? then context.next.loc else |program.code|;
      k := 0;
      while true
        invariant context.Now().Valid() && k <= n && Steps(program, start, k) == Snapshot(Inside(pc))
        decreases n - k
      {
        assert k < n;
        OneMore(program, start, k);
        k := k + 1;
        if pc >= |program.code| {
          var v, thrown := context.Stop();
          return if thrown.Some? then Threw(thrown.value) else Returned(v), k;
        }
        match program.code[pc] {
          case EmitAt(id) =>
            log := log + [Emitted(id)];
            pc := pc + 1;
          case RaiseAt(v) =>
            return Threw(v), k;
          case GiveAt(v) =>
            var thrown := context.Abrupt(Return(v));
            return if thrown.Some? then Threw(thrown.value) else Continue, k;
          case BreakAt(target) =>
            var thrown := context.Abrupt(Break(target));
            return if thrown.Some? then Threw(thrown.value) else Continue, k;
          case YieldAt(v) =>
            context.next := At(pc + 1);
            return Returned(v), k;
          case Mark =>
            context.prev := At(pc);
            pc := pc + 1;
          case Test =>
            pc := pc + 1;
          case Goto(target) =>
            context.next := At(target);
            context.prev := context.next;
            pc := target;
          case CatchAt(tryLoc) =>
            context.prev := At(pc);
            var v, thrown := context.Catch(tryLoc);
            if thrown.Some? {
              return Threw(thrown.value), k;
            }
            log := log + [Entered(v)];
            pc := pc + 1;
          case FinishAt(finallyLoc) =>
            var thrown := context.Finish(finallyLoc);
            return if thrown.Some? then Threw(thrown.value) else Continue, k;
        }
      }
    }

    /** One round of the driving loop, told whether it ended in an answer to the caller. */
    method Round(ghost n: nat) returns (answered: bool, ghost k: nat)
      requires context.Now().Valid() && Halts(program, Snapshot(Looping), n)
      modifies this`state, this`log, context
      ensures context.Now().Valid() && 0 < k <= n
      ensures Steps(program, old(Snapshot(Looping)), k) == Snapshot(if answered then Idle else Looping)
    {
      hide Aborted;
      hide Dispatched;
      hide Steps;
      ghost var start := Snapshot(Looping);
      NoSteps(program, start);
      OneMore(program, start, 0);
      k := 1;
      if context.mode.ThrowMode? {
        if state.SuspendedStart? {
          state := Over;
          log := log + [Thrown(context.arg)];
          return true, k;
        }
        var thrown := context.DispatchException(context.arg);
        if thrown.Some? {
          log := log + [Thrown(thrown.value)];
          return true, k;
        }
      } else if context.mode.ReturnMode? {
        var thrown := context.Abrupt(Return(context.arg));
      }
      state := Executing;
      assert Steps(program, start, k) == Enter(program, Snapshot(Looping), context.Now());
      StepsAdd(program, start, k, n - k);
      var record;
      ghost var j;
      record, j := Inner(n - k);
      StepsAdd(program, start, k, j);
      k := k + j;
      answered := Finish(record);
    }

    method Finish(record: Record) returns (answered: bool)
      requires state.Executing?
      modifies this`state, this`log, context
      ensures Snapshot(if answered then Idle else Looping) == Handled(old(Snapshot(Looping)), record)
      ensures answered <==> record.Returned?
      ensures !record.Threw? ==>
                context.Now() == old(context.Now()) && state == if context.done then Over else SuspendedYield
      ensures record.Returned? ==>
                log == old(log) + [if context.done then Done(record.value) else Yielded(record.value)]
      ensures record.Continue? ==> log == old(log)
      ensures record.Threw? ==>
                && state == Over && log == old(log)
                && context.Now() == old(context.Now()).(mode := ThrowMode, arg := record.thrown)
    {
      answered := record.Returned?;
      match record {
        case Returned(v) =>
          state := if context.done then Over else SuspendedYield;
          log := log + [if context.done then Done(v) else Yielded(v)];
        case Continue =>
          state := if context.done then Over else SuspendedYield;
        case Threw(e) =>
          state := Over;
          context.mode := ThrowMode;
          context.arg := e;
      }
    }

    /** One call from outside. It comes back, if the machine halts at all. */
    method Invoke(mode: Mode, arg: Value, ghost n: nat)
      requires context.Now().Valid()
      requires Halts(program, Snapshot(Idle).(inputs := [Resume(mode, arg)]), n)
      modifies this`state, this`log, context
      ensures context.Now().Valid()
      ensures Snapshot(Idle) == Steps(program, old(Snapshot(Idle)).(inputs := [Resume(mode, arg)]), n)
      ensures old(state).Executing? ==>
                Snapshot(Idle)
                == old(Snapshot(Idle)).(log := old(log) + [Thrown(RuntimeError("Generator is already running"))])
      ensures old(state).Over? ==>
                Snapshot(Idle)
                == old(Snapshot(Idle)).(log := old(log) + [if mode.ThrowMode? then Thrown(arg) else Done(Undefined)])
    {
      hide Steps;
      ghost var start := Snapshot(Idle).(inputs := [Resume(mode, arg)]);
      NoSteps(program, start);
      assert n > 0;
      OneMore(program, start, 0);
      ghost var k := 1;
      if state.Executing? {
        log := log + [Thrown(RuntimeError("Generator is already running"))];
        AnsweredFrom(program, start, k, n);
        return;
      }
      if state.Over? {
        log := log + [if mode.ThrowMode? then Thrown(arg) else Done(Undefined)];
        AnsweredFrom(program, start, k, n);
        return;
      }
      context.mode := mode;
      context.arg := arg;
      var answered := false;
      while !answered
        invariant context.Now().Valid() && k <= n
        invariant Steps(program, start, k) == Snapshot(if answered then Idle else Looping)
        decreases n - k, !answered
      {
        StepsAdd(program, start, k, n - k);
        ghost var j;
        answered, j := Round(n - k);
        StepsAdd(program, start, k, j);
        k := k + j;
      }
      AnsweredFrom(program, start, k, n);
    }
  }

  lemma AnsweredFrom(p: Program, m: Machine, k: nat, n: nat)
    requires m.ctx.Valid() && k <= n && Halts(p, m, k)
    ensures Steps(p, m, n) == Steps(p, m, k)
  {
    hide Step;
    StepsAdd(p, m, k, n - k);
    AnsweredStays(p, Steps(p, m, k), n - k);
  }

  // ---------------------------------------------------------------------------------------------
  // Call after call
  // ---------------------------------------------------------------------------------------------

  function WithMore(m: Machine, more: seq<Resume>): Machine {
    m.(inputs := m.inputs + more)
  }

  lemma StepWithMore(p: Program, m: Machine, more: seq<Resume>)
    requires m.ctx.Valid() && !(m.phase.Idle? && m.inputs == [])
    ensures Step(p, WithMore(m, more)) == WithMore(Step(p, m), more)
  {
    hide Dispatch;
    hide Execute;
    match m.phase {
      case Idle => assert (m.inputs + more)[1..] == m.inputs[1..] + more;
      case Looping => DispatchWithMore(p, m, more);
      case Inside(pc) => ExecuteWithMore(p, m, pc, more);
    }
  }

  lemma DispatchWithMore(p: Program, m: Machine, more: seq<Resume>)
    requires m.ctx.Valid()
    ensures Dispatch(p, WithMore(m, more)) == WithMore(Dispatch(p, m), more)
  {
    hide Aborted;
    hide Dispatched;
  }

  lemma ExecuteWithMore(p: Program, m: Machine, pc: nat, more: seq<Resume>)
    requires m.ctx.Valid()
    ensures Execute(p, WithMore(m, more), pc) == WithMore(Execute(p, m, pc), more)
  {
    hide Aborted;
    hide Finished;
    hide Caught;
    hide Stopped;
  }

  /** Calls yet to come make no difference to those before them. */
  lemma {:induction false} StepsWithMore(p: Program, m: Machine, more: seq<Resume>, n: nat) returns (j: nat)
    requires m.ctx.Valid()
    ensures Steps(p, WithMore(m, more), j) == WithMore(Steps(p, m, n), more)
    decreases n
  {
    hide Step;
    if n == 0 {
      j := 0;
    } else if m.phase.Idle? && m.inputs == [] {
      NothingToDo(p, m);
      j := StepsWithMore(p, m, more, n - 1);
    } else {
      StepWithMore(p, m, more);
      j := StepsWithMore(p, Step(p, m), more, n - 1);
      j := j + 1;
    }
  }

  lemma NothingToDo(p: Program, m: Machine)
    requires m.ctx.Valid() && m.phase.Idle? && m.inputs == []
    ensures Step(p, m) == m
  {
  }

  /** One more call of a compiled generator is answered too. */
  lemma NextCall(s: Stmt, calls: seq<Resume>, n: nat, r: Resume) returns (k: nat, n': nat)
    requires Scoped(s, 0) && !SpinsOn(s, calls + [r]) && Halts(Compile(s), Start(Compile(s), calls), n)
    ensures var p := Compile(s);
            var m := Steps(p, Start(p, calls), n).(inputs := [r]);
            && Halts(p, m, k) && Halts(p, Start(p, calls + [r]), n')
            && Steps(p, m, k) == Steps(p, Start(p, calls + [r]), n')
  {
    hide Steps;
    hide RuntimeLog;
    var p := Compile(s);
    var start, next := Start(p, calls), Start(p, calls + [r]);
    assert next == WithMore(start, [r]);
    var j := StepsWithMore(p, start, [r], n);
    assert [] + [r] == [r];
    assert WithMore(Steps(p, start, n), [r]) == Steps(p, start, n).(inputs := [r]);
    n' := CompiledRuns(s, calls + [r]);
    if n' < j {
      AnsweredFrom(p, next, n', j);
      assert false;
    }
    k := n' - j;
    StepsAdd(p, next, j, k);
  }

  /** A compiled generator, called again and again, shows what the structured semantics of the runtime
      says. */
  method Drive(s: Stmt, calls: seq<Resume>) returns (log: seq<Event>)
    requires Scoped(s, 0) && !SpinsOn(s, calls)
    ensures log == RuntimeLog(s, calls)
  {
    hide RuntimeLog;
    hide SpinsOn;
    hide Steps;
    var p := Compile(s);
    var g := new Generator(p);
    ghost var n := 0;
    NoSteps(p, Start(p, []));
    for i := 0 to |calls|
      invariant g.program == p && g.context.Now().Valid() && fresh(g) && fresh(g.context)
      invariant Halts(p, Start(p, calls[..i]), n)
      invariant g.Snapshot(Idle) == Steps(p, Start(p, calls[..i]), n)
    {
      FewerCalls(s, calls, i + 1);
      assert calls[..i] + [calls[i]] == calls[..i + 1];
      ghost var k, n' := NextCall(s, calls[..i], n, calls[i]);
      g.Invoke(calls[i].mode, calls[i].arg, k);
      n := n';
    }
    assert calls[..|calls|] == calls;
    ghost var n' := CompiledRuns(s, calls);
    SameAnswer(p, Start(p, calls), n, n');
    log := g.log;
  }

  lemma SameAnswer(p: Program, m: Machine, n: nat, n': nat)
    requires m.ctx.Valid() && Halts(p, m, n) && Halts(p, m, n')
    ensures Steps(p, m, n) == Steps(p, m, n')
  {
    if n <= n' {
      AnsweredFrom(p, m, n, n');
    } else {
      AnsweredFrom(p, m, n', n);
    }
  }
}
