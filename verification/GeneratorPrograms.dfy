/** Generator bodies as structured programs: what the language standard says they do, and what they
    do on this runtime. */
module GeneratorPrograms {
  import opened GeneratorContext
  import opened Wrappers

  /** The body of a generator, as far as control flow goes. `Loop` is `while (true)`. `Jump(k)` goes to
      the `k`-th enclosing labelled statement or loop, innermost first: it leaves a labelled statement,
      and starts the next round of a loop. To break out of a loop is to leave a label around it. */
  datatype Stmt =
    | Emit(id: int)
    | Raise(v: Value)
    | Give(v: Value)
    | Jump(k: nat)
    | Yield(v: Value)
    | Then(first: Stmt, second: Stmt)
    | Labelled(body: Stmt)
    | Loop(body: Stmt)
    | Try(guarded: Stmt, handler: Option<Stmt>, finalizer: Option<Stmt>)

  /** A call of `next`, `throw` or `return` from outside. */
  datatype Resume = Resume(mode: Mode, arg: Value)

  /** What can be observed: effects of the body, values entering a catch block, and what the caller
      of the generator sees. */
  datatype Event =
    | Emitted(id: int)
    | Entered(v: Value)
    | Yielded(v: Value)
    | Done(v: Value)
    | Thrown(v: Value)

  /** Every try has a catch or a finally, and every jump has a target. */
  predicate Scoped(s: Stmt, labels: nat) {
    match s
    case Jump(k) => k < labels
    case Then(first, second) => Scoped(first, labels) && Scoped(second, labels)
    case Labelled(body) => Scoped(body, labels + 1)
    case Loop(body) => Scoped(body, labels + 1)
    case Try(guarded, handler, finalizer) =>
      && (handler.Some? || finalizer.Some?)
      && Scoped(guarded, labels)
      && (handler.Some? ==> Scoped(handler.value, labels))
      && (finalizer.Some? ==> Scoped(finalizer.value, labels))
    case _ => true
  }

  /** How many try statements there are. */
  function Count(s: Stmt): nat {
    match s
    case Then(first, second) => Count(first) + Count(second)
    case Labelled(body) => Count(body)
    case Loop(body) => Count(body)
    case Try(guarded, handler, finalizer) =>
      1 + Count(guarded)
      + (if handler.Some? then Count(handler.value) else 0)
      + (if finalizer.Some? then Count(finalizer.value) else 0)
    case _ => 0
  }

  // ---------------------------------------------------------------------------------------------
  // The standard's semantics
  // ---------------------------------------------------------------------------------------------

  /** How a statement ends. `Suspended` means that it waits at a yield for ever, and `Spins` that it is
      in a loop that went round without waiting for a call. */
  datatype Ending = Falls | Throws(thrown: Value) | Returns(returned: Value) | Jumps(k: nat) | Suspended | Spins

  datatype Outcome = Outcome(log: seq<Event>, ending: Ending, inputs: seq<Resume>)
  {
    function After(earlier: seq<Event>): Outcome {
      this.(log := earlier + log)
    }

    /** A label turns a jump to it into normal completion. */
    function AtLabel(): Outcome {
      if ending.Jumps? then this.(ending := if ending.k == 0 then Falls else Jumps(ending.k - 1)) else this
    }
  }

  function ResumedWith(r: Resume): Ending {
    match r.mode
    case NextMode => Falls
    case ThrowMode => Throws(r.arg)
    case ReturnMode => Returns(r.arg)
  }

  /** Section 13.15 of ECMA-262, 6th edition: the completion of a finally block replaces that of the
      try statement unless it is normal. */
  function Standard(s: Stmt, inputs: seq<Resume>): (o: Outcome)
    ensures |o.inputs| <= |inputs|
    decreases |inputs|, s, 1
  {
    match s
    case Emit(id) => Outcome([Emitted(id)], Falls, inputs)
    case Raise(v) => Outcome([], Throws(v), inputs)
    case Give(v) => Outcome([], Returns(v), inputs)
    case Jump(k) => Outcome([], Jumps(k), inputs)
    case Yield(v) =>
      if inputs == [] then Outcome([Yielded(v)], Suspended, [])
      else Outcome([Yielded(v)], ResumedWith(inputs[0]), inputs[1..])
    case Then(first, second) =>
      var o := Standard(first, inputs);
      if o.ending == Falls then Standard(second, o.inputs).After(o.log) else o
    case Labelled(body) => Standard(body, inputs).AtLabel()
    case Loop(body) =>
      var o := Standard(body, inputs).AtLabel();
      if o.ending != Falls then o
      else if |o.inputs| < |inputs| then Standard(s, o.inputs).After(o.log)
      else o.(ending := Spins)
    case Try(_, _, finalizer) =>
      var c := StandardGuarded(s, inputs);
      if finalizer.None? || c.ending in {Suspended, Spins} then c
      else
        var f := Standard(finalizer.value, c.inputs).After(c.log);
        if f.ending == Falls then f.(ending := c.ending) else f
  }

  /** The part of a try statement before its finally block. */
  function StandardGuarded(s: Stmt, inputs: seq<Resume>): (o: Outcome)
    requires s.Try?
    ensures |o.inputs| <= |inputs|
    decreases |inputs|, s, 0
  {
    var g := Standard(s.guarded, inputs);
    if g.ending.Throws? && s.handler.Some?
    then Standard(s.handler.value, g.inputs).After(g.log + [Entered(g.ending.thrown)]) else g
  }

  // ---------------------------------------------------------------------------------------------
  // The runtime's semantics
  // ---------------------------------------------------------------------------------------------

  /** State of the context that outlives a statement without the standard knowing of it: the exception
      the context was last resumed with, for as long as its mode stays "throw"; the last return value
      that went through a finally block; and what the entry of each try statement still holds. */
  datatype Hidden = Hidden(pending: Option<Value>, rval: Value, records: map<nat, Comp>)
  {
    function Record(i: nat): Comp {
      if i in records then records[i] else Normally
    }

    function Keep(i: nat, comp: Comp): Hidden {
      this.(records := records[i := comp])
    }
  }

  /** Like `Ending`, but a jump is `direct` once it no longer stops at finally blocks. */
  datatype Comp =
    | Normally
    | Throwing(thrown: Value)
    | Returning(returned: Value)
    | Jumping(k: nat, direct: bool)
    | Waiting
    | Spinning

  datatype Result = Result(log: seq<Event>, comp: Comp, h: Hidden, inputs: seq<Resume>)
  {
    function After(earlier: seq<Event>): Result {
      this.(log := earlier + log)
    }

    /** A label turns a jump to it into normal completion. */
    function AtLabel(): Result {
      if comp.Jumping? then this.(comp := if comp.k == 0 then Normally else Jumping(comp.k - 1, comp.direct))
      else this
    }
  }

  function Resumed(r: Resume, h: Hidden): (Comp, Hidden) {
    match r.mode
    case NextMode => (Normally, h.(pending := None))
    case ThrowMode => (Throwing(r.arg), h)
    case ReturnMode => (Returning(r.arg), h)
  }

  /** Control leaves the runtime's hands and comes back with the mode it had: if that is still
      "throw", the exception is dispatched once more. */
  function Redispatched(comp: Comp, h: Hidden): Comp {
    if h.pending.Some? then Throwing(h.pending.value) else comp
  }

  /** Inside one more label. */
  function Deeper(inside: Option<nat>): Option<nat> {
    if inside.Some? then Some(inside.value + 1) else None
  }

  /** In the guarded part of a try statement. */
  function Inner(s: Stmt, inside: Option<nat>): Option<nat>
    requires s.Try?
  {
    if s.finalizer.Some? then Some(0) else inside
  }

  function LoOfHandler(s: Stmt, lo: nat): nat
    requires s.Try?
  {
    lo + 1 + Count(s.guarded)
  }

  function LoOfFinalizer(s: Stmt, lo: nat): nat
    requires s.Try?
  {
    LoOfHandler(s, lo) + (if s.handler.Some? then Count(s.handler.value) else 0)
  }

  /** `lo` is the number of try statements that start before `s` in the program, and so the place of its
      first one among the entries. `inside` is the number of enclosing labels and loops that lie within
      the innermost region guarded by a finally block, if there is such a region. */
  function Runs(s: Stmt, lo: nat, inside: Option<nat>, h: Hidden, inputs: seq<Resume>): (r: Result)
    ensures |r.inputs| <= |inputs|
    ensures r.comp.Waiting? ==> r.inputs == []
    decreases |inputs|, s, 1
  {
    match s
    case Emit(id) => Result([Emitted(id)], Normally, h, inputs)
    case Raise(v) => Result([], Throwing(v), h, inputs)
    case Give(v) => Result([], Returning(v), h, inputs)
    case Jump(k) =>
      if inside.Some? && k >= inside.value then Result([], Jumping(k, false), h, inputs)
      else Result([], Redispatched(Jumping(k, true), h), h, inputs)
    case Yield(v) =>
      if inputs == [] then Result([Yielded(v)], Waiting, h, [])
      else
        var (comp, h') := Resumed(inputs[0], h);
        Result([Yielded(v)], comp, h', inputs[1..])
    case Then(first, second) =>
      var r := Runs(first, lo, inside, h, inputs);
      if r.comp == Normally then Runs(second, lo + Count(first), inside, r.h, r.inputs).After(r.log) else r
    case Labelled(body) => Runs(body, lo, Deeper(inside), h, inputs).AtLabel()
    case Loop(body) =>
      var r := Runs(body, lo, Deeper(inside), h, inputs).AtLabel();
      if r.comp != Normally then r
      else if |r.inputs| < |inputs| then Runs(s, lo, inside, r.h, r.inputs).After(r.log)
      else r.(comp := Spinning)
    case Try(_, _, finalizer) =>
      var c := RunsGuarded(s, lo, inside, h, inputs);
      if finalizer.None? || !Stops(c.comp) then c
      else WithFinally(c, Runs(finalizer.value, LoOfFinalizer(s, lo), inside, OnFinally(c, lo), c.inputs), lo)
  }

  /** The part of a try statement before its finally block. */
  function RunsGuarded(s: Stmt, lo: nat, inside: Option<nat>, h: Hidden, inputs: seq<Resume>): (r: Result)
    requires s.Try?
    ensures |r.inputs| <= |inputs|
    ensures r.comp.Waiting? ==> r.inputs == []
    decreases |inputs|, s, 0
  {
    var g := Runs(s.guarded, lo + 1, Inner(s, inside), h, inputs);
    if g.comp.Throwing? && s.handler.Some? then
      Runs(s.handler.value, LoOfHandler(s, lo), Inner(s, inside), OnHandler(g, lo), g.inputs)
        .After(g.log + [Entered(g.comp.thrown)])
    else g
  }

  /** A handler is entered with the exception taken out of the entry. */
  function OnHandler(g: Result, lo: nat): Hidden {
    g.h.(pending := None).Keep(lo, Normally)
  }

  /** An abrupt completion is kept in the entry while the finally block runs. If it is an exception, the
      mode is "throw" then; a return or a jump sets it to "next". Normal completion leaves both the mode
      and the entry as they are. */
  function OnFinally(c: Result, lo: nat): Hidden {
    match c.comp
    case Throwing(v) => c.h.(pending := Some(v)).Keep(lo, c.comp)
    case Normally => c.h
    case _ => c.h.(pending := None).Keep(lo, c.comp)
  }

  function AfterFinally(comp: Comp, h: Hidden): Comp {
    match comp
    case Throwing(_) => comp
    case Returning(_) => comp
    case Jumping(k, _) => Redispatched(Jumping(k, true), h)
    case _ => Redispatched(Normally, h)
  }

  /** The completion has a finally block to go through. */
  predicate Stops(comp: Comp) {
    !comp.Waiting? && !comp.Spinning? && !(comp.Jumping? && comp.direct)
  }

  /** The end of a finally block resumes what the entry holds, and clears the entry unless that is an
      exception. */
  function AfterFinished(h: Hidden, lo: nat, log: seq<Event>, inputs: seq<Resume>): Result {
    var comp := h.Record(lo);
    var h' := if comp.Returning? then h.(rval := comp.returned) else h;
    Result(log, AfterFinally(comp, h), if comp.Throwing? then h' else h'.Keep(lo, Normally), inputs)
  }

  /** A try statement's result, from that of its guarded part and that of its finally block. */
  function WithFinally(r: Result, f: Result, lo: nat): Result {
    if f.comp == Normally then AfterFinished(f.h, lo, r.log + f.log, f.inputs) else f.After(r.log)
  }

  // How compound statements run.

  lemma RunsOfThen(s: Stmt, lo: nat, inside: Option<nat>, h: Hidden, inputs: seq<Resume>)
    requires s.Then?
    ensures var r := Runs(s.first, lo, inside, h, inputs);
            Runs(s, lo, inside, h, inputs)
            == if r.comp == Normally then Runs(s.second, lo + Count(s.first), inside, r.h, r.inputs).After(r.log) else r
  {
  }

  lemma RunsOfLabelled(s: Stmt, lo: nat, inside: Option<nat>, h: Hidden, inputs: seq<Resume>)
    requires s.Labelled?
    ensures Runs(s, lo, inside, h, inputs) == Runs(s.body, lo, Deeper(inside), h, inputs).AtLabel()
  {
  }

  lemma RunsOfLoop(s: Stmt, lo: nat, inside: Option<nat>, h: Hidden, inputs: seq<Resume>)
    requires s.Loop?
    ensures var r := Runs(s.body, lo, Deeper(inside), h, inputs).AtLabel();
            Runs(s, lo, inside, h, inputs)
            == if r.comp != Normally then r
               else if |r.inputs| < |inputs| then Runs(s, lo, inside, r.h, r.inputs).After(r.log)
               else r.(comp := Spinning)
  {
  }

  lemma RunsOfGuarded(s: Stmt, lo: nat, inside: Option<nat>, h: Hidden, inputs: seq<Resume>)
    requires s.Try?
    ensures var g := Runs(s.guarded, lo + 1, Inner(s, inside), h, inputs);
            RunsGuarded(s, lo, inside, h, inputs)
            == if g.comp.Throwing? && s.handler.Some?
               then Runs(s.handler.value, LoOfHandler(s, lo), Inner(s, inside), OnHandler(g, lo), g.inputs)
                      .After(g.log + [Entered(g.comp.thrown)])
               else g
  {
  }

  lemma RunsOfTry(s: Stmt, lo: nat, inside: Option<nat>, h: Hidden, inputs: seq<Resume>)
    requires s.Try?
    ensures var c := RunsGuarded(s, lo, inside, h, inputs);
            Runs(s, lo, inside, h, inputs)
            == if s.finalizer.None? || !Stops(c.comp) then c
               else WithFinally(c, Runs(s.finalizer.value, LoOfFinalizer(s, lo), inside, OnFinally(c, lo), c.inputs), lo)
  {
  }

  // ---------------------------------------------------------------------------------------------
  // Whole runs
  // ---------------------------------------------------------------------------------------------

  /** A generator that is over answers every call. */
  function AfterEnd(inputs: seq<Resume>): (log: seq<Event>)
    ensures |log| == |inputs|
  {
    if inputs == [] then []
    else [if inputs[0].mode.ThrowMode? then Thrown(inputs[0].arg) else Done(Undefined)] + AfterEnd(inputs[1..])
  }

  /** What the standard lets an observer see of a generator driven by `inputs`. Section 25.3.3: a
      generator that has not started completes at once on `throw` and `return`. */
  function StandardLog(s: Stmt, inputs: seq<Resume>): seq<Event> {
    if inputs == [] then []
    else
      match inputs[0].mode
      case ThrowMode => [Thrown(inputs[0].arg)] + AfterEnd(inputs[1..])
      case ReturnMode => [Done(inputs[0].arg)] + AfterEnd(inputs[1..])
      case NextMode =>
        var o := Standard(s, inputs[1..]);
        o.log + (match o.ending
                 case Throws(v) => [Thrown(v)] + AfterEnd(o.inputs)
                 case Returns(v) => [Done(v)] + AfterEnd(o.inputs)
                 case Suspended => []
                 case Spins => []
                 case _ => [Done(Undefined)] + AfterEnd(o.inputs))
  }

  /** The state of a new context. */
  function NothingHidden(): Hidden {
    Hidden(None, Undefined, map[])
  }

  function Run(s: Stmt, inputs: seq<Resume>): Result {
    Runs(s, 0, None, NothingHidden(), inputs)
  }

  /** What is seen of a program's end. */
  function Ends(r: Result): seq<Event> {
    match r.comp
    case Throwing(v) => [Thrown(v)] + AfterEnd(r.inputs)
    case Returning(v) => [Done(v)] + AfterEnd(r.inputs)
    case Waiting => []
    case Spinning => []
    case _ => [Done(r.h.rval)] + AfterEnd(r.inputs)
  }

  function RunLog(s: Stmt, inputs: seq<Resume>): seq<Event> {
    Run(s, inputs).log + Ends(Run(s, inputs))
  }

  /** The first thing the program does is to enter a region guarded by a finally block. */
  predicate StartsGuarded(s: Stmt) {
    match s
    case Then(first, _) => StartsGuarded(first)
    case Labelled(body) => StartsGuarded(body)
    case Try(_, _, finalizer) => finalizer.Some?
    case _ => false
  }

  /** The program, with a return at the start of that region. */
  function Opened(s: Stmt, v: Value): Stmt {
    match s
    case Then(first, second) => Then(Opened(first, v), second)
    case Labelled(body) => Labelled(Opened(body, v))
    case Try(guarded, handler, finalizer) => Try(Then(Give(v), guarded), handler, finalizer)
    case _ => s
  }

  /** What the runtime shows. A generator that has not started counts as being at its first location,
      so that `return` goes through a finally block that guards it. */
  function RuntimeLog(s: Stmt, inputs: seq<Resume>): seq<Event> {
    if inputs == [] then []
    else
      match inputs[0].mode
      case ThrowMode => [Thrown(inputs[0].arg)] + AfterEnd(inputs[1..])
      case ReturnMode =>
        if StartsGuarded(s) then RunLog(Opened(s, inputs[0].arg), inputs[1..])
        else [Done(inputs[0].arg)] + AfterEnd(inputs[1..])
      case NextMode => RunLog(s, inputs[1..])
  }

  /** Some loop goes round without waiting for a call. */
  predicate SpinsOn(s: Stmt, inputs: seq<Resume>) {
    inputs != []
    && match inputs[0].mode
       case ThrowMode => false
       case ReturnMode => StartsGuarded(s) && Run(Opened(s, inputs[0].arg), inputs[1..]).comp.Spinning?
       case NextMode => Run(s, inputs[1..]).comp.Spinning?
  }
}
