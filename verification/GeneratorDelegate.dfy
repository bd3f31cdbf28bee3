/** Delegation to another iterator with `yield*`: each call is passed on until that iterator is done. */
module GeneratorDelegate {
  import opened GeneratorContext
  import opened GeneratorPrograms
  import opened Wrappers

  /** What a method of the other iterator does. Anything but an object is no proper result; the runtime
      only notices if it is falsy. */
  datatype Response = Threw(thrown: Value) | Falsy | Primitive | Object(done: bool, value: Value)

  /** The other iterator. It has a `next`, and perhaps a `throw` and a `return`. */
  datatype Inner<S> = Inner(state: S, hasThrow: bool, hasReturn: bool)

  /** How the other iterator answers, and what becomes of its state. */
  type Answers<!S> = (S, Mode, Value) -> (S, Response)

  const TYPE_ERROR := RuntimeError("TypeError")

  /** What comes of passing a call on: a result for the caller, or the end of the delegation, with a
      completion and, if that is normal, the value of the expression. */
  datatype Passed = Reyields(response: Response) | Ends(completion: Completion, value: Value)

  predicate HasMethod<S>(inner: Inner<S>, mode: Mode) {
    match mode
    case NextMode => true
    case ThrowMode => inner.hasThrow
    case ReturnMode => inner.hasReturn
  }

  // ---------------------------------------------------------------------------------------------
  // The standard
  // ---------------------------------------------------------------------------------------------

  /** A response, which has to be an object, to a call in some mode. */
  function Received(mode: Mode, response: Response): Passed {
    match response
    case Threw(v) => Ends(Throw(v), Undefined)
    case Object(done, v) =>
      if !done then Reyields(response)
      else if mode.ReturnMode? then Ends(Return(v), Undefined)
      else Ends(Normal, v)
    case _ => Ends(Throw(TYPE_ERROR), Undefined)
  }

  /** Section 14.4.14 of ECMA-262, 6th edition. */
  function StandardPass<S>(inner: Inner<S>, mode: Mode, arg: Value, answers: Answers<S>): (S, Passed) {
    if HasMethod(inner, mode) then
      var (state, response) := answers(inner.state, mode, arg);
      (state, Received(mode, response))
    else if mode.ReturnMode? then (inner.state, Ends(Return(arg), Undefined))
    else if !inner.hasReturn then (inner.state, Ends(Throw(TYPE_ERROR), Undefined))
    else
      var (state, response) := answers(inner.state, ReturnMode, Undefined);
      (state, Ends(Throw(if response.Threw? then response.thrown else TYPE_ERROR), Undefined))
  }

  /** The calls of one expression, from the first, which is a `next` without a value. */
  function StandardRun<S>(inner: Inner<S>, mode: Mode, arg: Value, answers: Answers<S>, calls: seq<Resume>): seq<Passed>
    decreases |calls|
  {
    var (state, passed) := StandardPass(inner, mode, arg, answers);
    [passed] + (if passed.Ends? || calls == [] then []
                else StandardRun(inner.(state := state), calls[0].mode, calls[0].arg, answers, calls[1..]))
  }

  // ---------------------------------------------------------------------------------------------
  // The runtime
  // ---------------------------------------------------------------------------------------------

  /** The part of the context that has to do with delegation. `result` is the variable for the value of
      the expression, and `atNext` says that the location after it is the next one. */
  datatype Delegating<S> = Delegating(
    inner: Inner<S>,
    delegating: bool,
    mode: Mode,
    arg: Value,
    result: Value,
    atNext: bool)

  /** What `delegateYield` sets up. */
  function Begun<S>(inner: Inner<S>, mode: Mode, arg: Value): Delegating<S> {
    Delegating(inner, true, mode, if mode.NextMode? then Undefined else arg, Undefined, false)
  }

  function Called<S>(c: Delegating<S>, answers: Answers<S>): (Delegating<S>, Option<Response>) {
    var (state, response) := answers(c.inner.state, c.mode, c.arg);
    var after := c.(inner := c.inner.(state := state));
    match response
    case Threw(v) => (after.(delegating := false, mode := ThrowMode, arg := v), None)
    case Falsy => (after.(delegating := false, mode := ThrowMode, arg := TYPE_ERROR), None)
    case Primitive => (after, Some(response))
    case Object(done, v) =>
      if !done then (after, Some(response))
      else
        var over := after.(delegating := false, result := v, atNext := true);
        (if c.mode.ReturnMode? then over else over.(mode := NextMode, arg := Undefined), None)
  }

  /** `None` asks the driving loop for another round. */
  function Invoked<S>(c: Delegating<S>, answers: Answers<S>): (Delegating<S>, Option<Response>) {
    if HasMethod(c.inner, c.mode) then Called(c, answers)
    else
      var over := c.(delegating := false);
      if c.mode.ReturnMode? then (over, None)
      else if !c.inner.hasReturn then (over.(mode := ThrowMode, arg := TYPE_ERROR), None)
      else
        var closed := Called(over.(mode := ReturnMode, arg := Undefined), answers).0;
        (if closed.mode.ThrowMode? then closed else closed.(mode := ThrowMode, arg := TYPE_ERROR), None)
  }

  /** What the driving loop makes of it: it gives the result to the caller, or goes on with the mode of
      the context. */
  function PassedOn<S>(after: (Delegating<S>, Option<Response>)): Passed {
    var (c, info) := after;
    if info.Some? then Reyields(info.value)
    else
      match c.mode
      case NextMode => Ends(Normal, c.result)
      case ThrowMode => Ends(Throw(c.arg), Undefined)
      case ReturnMode => Ends(Return(c.arg), Undefined)
  }

  function RuntimeRun<S>(c: Delegating<S>, answers: Answers<S>, calls: seq<Resume>): seq<Passed>
    decreases |calls|
  {
    var after := Invoked(c, answers);
    [PassedOn(after)] + (if after.1.None? || calls == [] then []
                         else RuntimeRun(after.0.(mode := calls[0].mode, arg := calls[0].arg), answers, calls[1..]))
  }

  class Delegation<S(!new)> {
    var inner: Inner<S>
    var delegating: bool
    var mode: Mode
    var arg: Value
    var result: Value
    var atNext: bool

    ghost function Now(): Delegating<S>
      reads this
    {
      Delegating(inner, delegating, mode, arg, result, atNext)
    }

    constructor DelegateYield(inner: Inner<S>, mode: Mode, arg: Value)
      ensures Now() == Begun(inner, mode, arg)
      ensures this.inner == inner && delegating && this.mode == mode && !atNext
      ensures this.arg == if mode.NextMode? then Undefined else arg
    {
      this.inner, delegating, this.mode, this.arg := inner, true, mode, arg;
      result, atNext := Undefined, false;
      if mode.NextMode? {
        this.arg := Undefined;
      }
    }

    method MaybeInvokeDelegate(answers: Answers<S>) returns (info: Option<Response>)
      modifies this
      ensures (Now(), info) == Invoked(old(Now()), answers)
      decreases !HasMethod(inner, mode)
    {
      if !HasMethod(inner, mode) {
        delegating := false;
        if mode.ThrowMode? {
          if inner.hasReturn {
            mode, arg := ReturnMode, Undefined;
            info := MaybeInvokeDelegate(answers);
            if mode.ThrowMode? {
              return None;
            }
          }
          mode, arg := ThrowMode, TYPE_ERROR;
        }
        return None;
      }
      var (state, response) := answers(inner.state, mode, arg);
      inner := inner.(state := state);
      match response {
        case Threw(v) => mode, arg := ThrowMode, v;
        case Falsy => mode, arg := ThrowMode, TYPE_ERROR;
        case Primitive => return Some(response);
        case Object(done, v) =>
          if !done {
            return Some(response);
          }
          result, atNext := v, true;
          if !mode.ReturnMode? {
            mode, arg := NextMode, Undefined;
          }
      }
      delegating := false;
      return None;
    }
  }

  // ---------------------------------------------------------------------------------------------
  // Where they agree
  // ---------------------------------------------------------------------------------------------

  /** The other iterator answers with a value that is no object and not falsy, or a return with a value
      other than the one that was to be returned. */
  predicate Deviates<S>(c: Delegating<S>, answers: Answers<S>) {
    var response := answers(c.inner.state, c.mode, c.arg).1;
    && HasMethod(c.inner, c.mode)
    && (|| response.Primitive?
        || (c.mode.ReturnMode? && response.Object? && response.done && response.value != c.arg))
  }

  /** One call is passed on as the standard says if and only if it does not deviate. The other iterator
      gets the same calls in any case, and the delegation goes on exactly if there is a result. */
  lemma PassesAgree<S>(c: Delegating<S>, answers: Answers<S>)
    requires c.delegating
    ensures var standard, after := StandardPass(c.inner, c.mode, c.arg, answers), Invoked(c, answers);
            && after.0.inner == c.inner.(state := standard.0)
            && (after.0.delegating <==> after.1.Some?)
            && (PassedOn(after) == standard.1 <==> !Deviates(c, answers))
  {
  }

  /** What the other iterator answers to the one call that passing a call on makes, if it makes one. */
  function Answer<S>(c: Delegating<S>, answers: Answers<S>): Option<Response> {
    if HasMethod(c.inner, c.mode) then Some(answers(c.inner.state, c.mode, c.arg).1)
    else if c.mode.ThrowMode? && c.inner.hasReturn then Some(answers(c.inner.state, ReturnMode, Undefined).1)
    else None
  }

  /** The location after the expression is the next one exactly once the other iterator is done. Its last
      value is then kept for the expression, and nothing is left that a `next` would have sent. */
  lemma EndsAtNext<S>(c: Delegating<S>, answers: Answers<S>)
    requires c.delegating && !c.atNext
    ensures var (after, info) := Invoked(c, answers);
            var answer := Answer(c, answers);
            && (after.atNext <==> answer.Some? && answer.value.Object? && answer.value.done)
            && (after.atNext ==> after.result == answer.value.value && !after.delegating && info.None?)
            && (!after.atNext ==> after.result == c.result)
            && (after.mode.NextMode? && info.None? ==> after.atNext && after.arg == Undefined)
  {
  }

  /** A value that is no object is given to the caller like a result, and a return goes on with the value
      that was to be returned. */
  lemma WhenDeviating<S>(c: Delegating<S>, answers: Answers<S>)
    requires c.delegating && Deviates(c, answers)
    ensures var response := answers(c.inner.state, c.mode, c.arg).1;
            PassedOn(Invoked(c, answers))
            == if response.Primitive? then Reyields(response) else Ends(Return(c.arg), Undefined)
  {
  }

  predicate NeverDeviates<S>(c: Delegating<S>, answers: Answers<S>, calls: seq<Resume>)
    decreases |calls|
  {
    var after := Invoked(c, answers);
    && !Deviates(c, answers)
    && (after.1.Some? && calls != [] ==>
          NeverDeviates(after.0.(mode := calls[0].mode, arg := calls[0].arg), answers, calls[1..]))
  }

  /** A whole delegation, called in whatever way, is what the standard says if and only if no call of it
      deviates. */
  lemma {:induction false} DelegationsAgree<S>(c: Delegating<S>, answers: Answers<S>, calls: seq<Resume>)
    requires c.delegating
    ensures RuntimeRun(c, answers, calls) == StandardRun(c.inner, c.mode, c.arg, answers, calls)
            <==> NeverDeviates(c, answers, calls)
    decreases |calls|
  {
    var after, standard := Invoked(c, answers), StandardPass(c.inner, c.mode, c.arg, answers);
    var runtime, expected := RuntimeRun(c, answers, calls), StandardRun(c.inner, c.mode, c.arg, answers, calls);
    PassesAgree(c, answers);
    assert runtime[0] == PassedOn(after) && expected[0] == standard.1;
    if !Deviates(c, answers) && after.1.Some? && calls != [] {
      var next := after.0.(mode := calls[0].mode, arg := calls[0].arg);
      DelegationsAgree(next, answers, calls[1..]);
      assert runtime[1..] == RuntimeRun(next, answers, calls[1..]);
      assert expected[1..] == StandardRun(next.inner, next.mode, next.arg, answers, calls[1..]);
    }
  }

  /** However a delegation is called, it starts as the standard says, with a `next` without a value, as far
      as the answers do not deviate. */
  ghost predicate StartsRight<S(!new)>(mode: Mode, arg: Value) {
    forall inner: Inner<S>, answers: Answers<S>, calls | NeverDeviates(Begun(inner, mode, arg), answers, calls) ::
      RuntimeRun(Begun(inner, mode, arg), answers, calls) == StandardRun(inner, NextMode, Undefined, answers, calls)
  }

  /** Every delegation starts right if and only if the context was last resumed with `next`. In a finally
      block entered by an exception, that is not so. */
  lemma StartsRightExactly<S(!new)>(state: S, mode: Mode, arg: Value)
    ensures StartsRight<S>(mode, arg) <==> mode.NextMode?
  {
    if mode.NextMode? {
      forall inner: Inner<S>, answers: Answers<S>, calls | NeverDeviates(Begun(inner, mode, arg), answers, calls)
        ensures RuntimeRun(Begun(inner, mode, arg), answers, calls)
                == StandardRun(inner, NextMode, Undefined, answers, calls)
      {
        DelegationsAgree(Begun(inner, mode, arg), answers, calls);
      }
    } else {
      var inner: Inner<S> := Inner(state, false, false);
      var answers: Answers<S> := (s, m, v) => (s, Object(false, Undefined));
      assert NeverDeviates(Begun(inner, mode, arg), answers, []);
      assert StandardRun(inner, NextMode, Undefined, answers, [])[0].Reyields?;
      assert RuntimeRun(Begun(inner, mode, arg), answers, [])[0].Ends?;
    }
  }

  /** In a finally block entered by an exception the other iterator is not asked for its first value: it is
      given the exception, as a call of `throw`, and one that has neither `throw` nor `return` is not asked
      for anything, and the exception is replaced. */
  lemma ExceptionReachesDelegate<S>(inner: Inner<S>, e: Value, answers: Answers<S>)
    ensures var run := RuntimeRun(Begun(inner, ThrowMode, e), answers, []);
            var pass := StandardPass(inner, ThrowMode, e, answers);
            && Invoked(Begun(inner, ThrowMode, e), answers).0.inner.state == pass.0
            && (run == [pass.1] <==> !Deviates(Begun(inner, ThrowMode, e), answers))
    ensures !inner.hasThrow && !inner.hasReturn ==>
              RuntimeRun(Begun(inner, ThrowMode, e), answers, []) == [Ends(Throw(TYPE_ERROR), Undefined)]
    ensures StandardRun(inner, NextMode, Undefined, answers, [])
            == [Received(NextMode, answers(inner.state, NextMode, Undefined).1)]
  {
    var c := Begun(inner, ThrowMode, e);
    PassesAgree(c, answers);
    assert RuntimeRun(c, answers, []) == [PassedOn(Invoked(c, answers))];
    assert RuntimeRun(c, answers, [])[0] == PassedOn(Invoked(c, answers));
  }
}
