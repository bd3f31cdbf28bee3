/** Compiled generators and the loop that drives them. */
module GeneratorMachine {
  import opened GeneratorContext
  import opened GeneratorPrograms
  import opened Wrappers

  // ---------------------------------------------------------------------------------------------
  // Compiled code
  // ---------------------------------------------------------------------------------------------

  /** One location of the compiled switch statement. `Mark` is the assignment of the location to
      `prev` at the start of a block, `Goto` an assignment to `next` followed by a dispatch, and `Test` the
      test at the head of a loop, which is true. */
  datatype Instr =
    | EmitAt(id: int)
    | RaiseAt(v: Value)
    | GiveAt(v: Value)
    | BreakAt(target: nat)
    | YieldAt(v: Value)
    | Mark
    | Test
    | Goto(target: nat)
    | CatchAt(tryLoc: nat)
    | FinishAt(finallyLoc: nat)

  datatype Program = Program(code: seq<Instr>, entries: seq<TryEntry>)

  function Size(s: Stmt): (n: nat)
    ensures n > 0
  {
    match s
    case Then(first, second) => Size(first) + Size(second)
    case Labelled(body) => Size(body)
    case Loop(body) => 2 + Size(body)
    case Try(guarded, handler, finalizer) =>
      1 + Size(guarded)
      + (if handler.Some? then 2 + Size(handler.value) else 0)
      + (if finalizer.Some? then 2 + Size(finalizer.value) else 0)
    case _ => 1
  }

  function CatchLoc(s: Stmt, base: nat): nat
    requires s.Try?
  {
    base + 2 + Size(s.guarded)
  }

  /** The finally block, or where it would be. */
  function FinallyLoc(s: Stmt, base: nat): nat
    requires s.Try?
  {
    base + 1 + Size(s.guarded) + (if s.handler.Some? then 2 + Size(s.handler.value) else 0)
  }

  /** `env` holds the target of each enclosing labelled statement or loop, innermost first: the location
      after the statement, or the head of the loop. */
  function Code(s: Stmt, base: nat, env: seq<nat>): (code: seq<Instr>)
    requires Scoped(s, |env|)
    ensures |code| == Size(s)
    decreases s, 1
  {
    match s
    case Emit(id) => [EmitAt(id)]
    case Raise(v) => [RaiseAt(v)]
    case Give(v) => [GiveAt(v)]
    case Jump(k) => [BreakAt(env[k])]
    case Yield(v) => [YieldAt(v)]
    case Then(first, second) => Code(first, base, env) + Code(second, base + Size(first), env)
    case Labelled(body) => Code(body, base, [base + Size(body)] + env)
    case Loop(body) => [Test] + Code(body, base + 1, [base] + env) + [Goto(base)]
    case Try(guarded, handler, finalizer) =>
      [Mark] + Code(guarded, base + 1, env) + HandlerCode(s, base, env) + FinalizerCode(s, base, env)
  }

  function HandlerCode(s: Stmt, base: nat, env: seq<nat>): seq<Instr>
    requires s.Try? && Scoped(s, |env|)
    decreases s, 0
  {
    if s.handler.None? then []
    else [Goto(FinallyLoc(s, base)), CatchAt(base)] + Code(s.handler.value, CatchLoc(s, base) + 1, env)
  }

  function FinalizerCode(s: Stmt, base: nat, env: seq<nat>): seq<Instr>
    requires s.Try? && Scoped(s, |env|)
    decreases s, 0
  {
    if s.finalizer.None? then []
    else [Mark] + Code(s.finalizer.value, FinallyLoc(s, base) + 1, env) + [FinishAt(FinallyLoc(s, base))]
  }

  function Entry(s: Stmt, base: nat): TryEntry
    requires s.Try?
  {
    TryEntry(base, if s.handler.Some? then Some(CatchLoc(s, base)) else None,
             if s.finalizer.Some? then Some(FinallyLoc(s, base)) else None, base + Size(s))
  }

  /** The try statements of `s` in the order they start. */
  function Entries(s: Stmt, base: nat): (entries: seq<TryEntry>)
    ensures |entries| == Count(s)
    decreases s, 1
  {
    match s
    case Then(first, second) => Entries(first, base) + Entries(second, base + Size(first))
    case Labelled(body) => Entries(body, base)
    case Loop(body) => Entries(body, base + 1)
    case Try(_, _, _) => [Entry(s, base)] + PartsEntries(s, base)
    case _ => []
  }

  function PartsEntries(s: Stmt, base: nat): (entries: seq<TryEntry>)
    requires s.Try?
    ensures |entries| == Count(s) - 1
    decreases s, 0, 1
  {
    Entries(s.guarded, base + 1) + HandlerEntries(s, base) + FinalizerEntries(s, base)
  }

  function HandlerEntries(s: Stmt, base: nat): (entries: seq<TryEntry>)
    requires s.Try?
    ensures |entries| == if s.handler.Some? then Count(s.handler.value) else 0
    decreases s, 0, 0
  {
    if s.handler.Some? then Entries(s.handler.value, CatchLoc(s, base) + 1) else []
  }

  function FinalizerEntries(s: Stmt, base: nat): (entries: seq<TryEntry>)
    requires s.Try?
    ensures |entries| == if s.finalizer.Some? then Count(s.finalizer.value) else 0
    decreases s, 0, 0
  {
    if s.finalizer.Some? then Entries(s.finalizer.value, FinallyLoc(s, base) + 1) else []
  }

  function Compile(s: Stmt): Program
    requires Scoped(s, 0)
  {
    Program(Code(s, 0, []), Entries(s, 0))
  }

  // ---------------------------------------------------------------------------------------------
  // The driving loop
  // ---------------------------------------------------------------------------------------------

  datatype GenState = SuspendedStart | SuspendedYield | Executing | Over

  /** `Idle` is control outside the generator, `Looping` the top of the driving loop, `Inside` the
      compiled switch statement about to execute a location. */
  datatype Phase = Idle | Looping | Inside(pc: nat)

  datatype Machine = Machine(ctx: Ctx, state: GenState, phase: Phase, inputs: seq<Resume>, log: seq<Event>)

  function Start(p: Program, inputs: seq<Resume>): Machine {
    Machine(Initial(p.entries), SuspendedStart, Idle, inputs, [])
  }

  /** Control goes to `next`. */
  function Enter(p: Program, m: Machine, c: Ctx): Machine {
    m.(ctx := c.(prev := c.next), state := Executing,
       phase := Inside(if c.next.At? then c.next.loc else |p.code|))
  }

  /** The compiled function throws `e`. */
  function ThrowOut(m: Machine, c: Ctx, e: Value): Machine {
    m.(ctx := c.(mode := ThrowMode, arg := e), state := Over, phase := Looping)
  }

  /** The compiled function returns the sentinel, or throws. */
  function Sentinel(m: Machine, after: (Ctx, Option<Value>)): Machine {
    var (c, thrown) := after;
    if thrown.Some? then ThrowOut(m, c, thrown.value)
    else m.(ctx := c, state := if c.done then Over else SuspendedYield, phase := Looping)
  }

  /** The compiled function returns a value to the caller. */
  function Answer(m: Machine, c: Ctx, v: Value): Machine {
    m.(ctx := c, state := if c.done then Over else SuspendedYield, phase := Idle,
       log := m.log + [if c.done then Done(v) else Yielded(v)])
  }

  function Call(m: Machine): Machine
    requires m.phase.Idle? && m.inputs != []
  {
    var r, m' := m.inputs[0], m.(inputs := m.inputs[1..]);
    if m.state.Executing? then m'.(log := m.log + [Thrown(RuntimeError("Generator is already running"))])
    else if m.state.Over? then
      m'.(log := m.log + [if r.mode.ThrowMode? then Thrown(r.arg) else Done(Undefined)])
    else m'.(ctx := m.ctx.(mode := r.mode, arg := r.arg), phase := Looping)
  }

  function Dispatch(p: Program, m: Machine): (m': Machine)
    requires m.ctx.Valid()
    ensures m'.ctx.Valid()
  {
    match m.ctx.mode
    case NextMode => Enter(p, m, m.ctx)
    case ThrowMode =>
      if m.state.SuspendedStart? then m.(state := Over, phase := Idle, log := m.log + [Thrown(m.ctx.arg)])
      else
        var (c, thrown) := Dispatched(m.ctx, m.ctx.arg);
        if thrown.Some? then m.(ctx := c, phase := Idle, log := m.log + [Thrown(thrown.value)])
        else Enter(p, m, c)
    case ReturnMode => Enter(p, m, Aborted(m.ctx, Return(m.ctx.arg)).0)
  }

  function Execute(p: Program, m: Machine, pc: nat): (m': Machine)
    requires m.ctx.Valid()
    ensures m'.ctx.Valid()
  {
    if pc >= |p.code| then
      var (c, v, thrown) := Stopped(m.ctx);
      if thrown.Some? then ThrowOut(m, c, thrown.value)
      else Answer(m, c, v)
    else
      match p.code[pc]
      case EmitAt(id) => m.(phase := Inside(pc + 1), log := m.log + [Emitted(id)])
      case RaiseAt(v) => ThrowOut(m, m.ctx, v)
      case GiveAt(v) => Sentinel(m, Aborted(m.ctx, Return(v)))
      case BreakAt(target) => Sentinel(m, Aborted(m.ctx, Break(target)))
      case YieldAt(v) =>
        Answer(m, m.ctx.(next := At(pc + 1)), v)
      case Mark => m.(ctx := m.ctx.(prev := At(pc)), phase := Inside(pc + 1))
      case Test => m.(phase := Inside(pc + 1))
      case Goto(target) => Enter(p, m, m.ctx.(next := At(target)))
      case CatchAt(tryLoc) =>
        var (c, v, thrown) := Caught(m.ctx.(prev := At(pc)), tryLoc);
        if thrown.Some? then ThrowOut(m, c, thrown.value)
        else m.(ctx := c, phase := Inside(pc + 1), log := m.log + [Entered(v)])
      case FinishAt(finallyLoc) => Sentinel(m, Finished(m.ctx, finallyLoc))
  }

  function Step(p: Program, m: Machine): (m': Machine)
    requires m.ctx.Valid()
    ensures m'.ctx.Valid()
  {
    match m.phase
    case Idle => if m.inputs == [] then m else Call(m)
    case Looping => Dispatch(p, m)
    case Inside(pc) => Execute(p, m, pc)
  }

  function Steps(p: Program, m: Machine, n: nat): (m': Machine)
    requires m.ctx.Valid()
    ensures m'.ctx.Valid()
    decreases n
  {
    if n == 0 then m else Steps(p, Step(p, m), n - 1)
  }

  lemma {:induction false} StepsAdd(p: Program, m: Machine, a: nat, b: nat)
    requires m.ctx.Valid()
    ensures Steps(p, m, a + b) == Steps(p, Steps(p, m, a), b)
    decreases a
  {
    hide Step;
    if a > 0 {
      StepsAdd(p, Step(p, m), a - 1, b);
    }
  }
}
