/** The shared state of a promise/future pair as a value: the three fields of
    SharedState<T> and what each of its operations does to them, without the
    mutex and the condition variable. A cell moves from pending to ready once,
    carrying a value or an exception, and never leaves ready. */
module CellSpec {
  import opened Exceptions

  /** value_, exception_ptr_ (None is the null pointer) and ready_. */
  datatype Cell<T> = Cell(value: Option<T>, exc: Option<Exception>, ready: bool)

  /** A cell is consistent when a pending cell holds nothing and a ready cell
      holds exactly one of a value and an exception. */
  ghost predicate Consistent<T>(c: Cell<T>) {
    if c.ready then c.value.Some? != c.exc.Some? else c.value.None? && c.exc.None?
  }

  /** The freshly constructed shared state. */
  function Pending<T>(): (c: Cell<T>)
    ensures !c.ready && Consistent(c)
  {
    Cell(None, None, false)
  }

  /** set_value: a ready cell refuses and keeps its fields; a pending cell
      stores the value and becomes ready. */
  function SetValue<T>(c: Cell<T>, v: T): (r: (Cell<T>, Outcome))
    ensures r.0.ready
    ensures Consistent(c) ==> Consistent(r.0)
  {
    if c.ready then (c, Fail(AlreadySatisfied))
    else (c.(value := Some(v), ready := true), Pass)
  }

  /** set_exception as written: the pointer it stores may be null, and a null
      pointer still makes the cell ready. */
  function SetExceptionPtr<T>(c: Cell<T>, p: Option<Exception>): (r: (Cell<T>, Outcome))
    ensures r.0.ready
    ensures c.ready <==> r.1.Fail?
  {
    if c.ready then (c, Fail(AlreadySatisfied))
    else (c.(exc := p, ready := true), Pass)
  }

  /** set_exception given a captured (non-null) exception, which is what every
      caller in fut.cpp passes. */
  function SetException<T>(c: Cell<T>, e: Exception): (r: (Cell<T>, Outcome))
    ensures r.0.ready
    ensures Consistent(c) ==> Consistent(r.0)
  {
    SetExceptionPtr(c, Some(e))
  }

  /** get_value once the cell is ready: a stored exception is rethrown, else the
      stored value is returned, else the internal error is thrown. */
  function GetValue<T>(c: Cell<T>): (r: Result<T>)
    requires c.ready
    ensures c.exc.Some? ==> r == Throw(c.exc.value)
    ensures r.Ok? ==> c.exc.None? && c.value == Some(r.value)
  {
    if c.exc.Some? then Throw(c.exc.value)
    else if c.value.Some? then Ok(c.value.value)
    else Throw(InternalError)
  }

  /** A ready, consistent cell yields exactly what was stored: the internal
      error branch of get_value is never taken. */
  lemma ReadyCellYieldsStoredOutcome<T>(c: Cell<T>)
    requires Consistent(c) && c.ready
    ensures GetValue(c).Ok? <==> c.value.Some?
    ensures c.value.Some? ==> GetValue(c) == Ok(c.value.value)
    ensures c.exc.Some? ==> GetValue(c) == Throw(c.exc.value)
  {
  }

  /** A null exception pointer makes a pending cell ready with neither a value
      nor an exception, and get_value then throws the internal error. */
  lemma NullExceptionPtrReachesInternalError<T>()
    ensures SetExceptionPtr(Pending<T>(), None).1 == Pass
    ensures !Consistent(SetExceptionPtr(Pending<T>(), None).0)
    ensures GetValue(SetExceptionPtr(Pending<T>(), None).0) == Throw(InternalError)
  {
  }

  /** One attempt to settle the cell. */
  datatype Attempt<T> = SetValueCall(v: T) | SetExceptionCall(e: Exception)

  function Apply<T>(c: Cell<T>, a: Attempt<T>): (r: (Cell<T>, Outcome))
    ensures r.0.ready
    ensures Consistent(c) ==> Consistent(r.0)
  {
    match a
    case SetValueCall(v) => SetValue(c, v)
    case SetExceptionCall(e) => SetException(c, e)
  }

  /** The cell after a sequence of settle attempts, and what each attempt returned. */
  function Run<T>(c: Cell<T>, attempts: seq<Attempt<T>>): (r: (Cell<T>, seq<Outcome>))
    ensures |r.1| == |attempts|
    decreases |attempts|
  {
    if attempts == [] then (c, [])
    else
      var step := Apply(c, attempts[0]);
      var rest := Run(step.0, attempts[1..]);
      (rest.0, [step.1] + rest.1)
  }

  /** Once ready, a cell is final: every further settle attempt throws
      "Promise already satisfied" and no field changes. */
  lemma {:induction false} SettledCellIsFinal<T>(c: Cell<T>, attempts: seq<Attempt<T>>)
    requires c.ready
    ensures Run(c, attempts).0 == c
    ensures forall i :: 0 <= i < |attempts| ==> Run(c, attempts).1[i] == Fail(AlreadySatisfied)
    decreases |attempts|
  {
    if attempts != [] {
      SettledCellIsFinal(c, attempts[1..]);
    }
  }

  /** On a pending cell the first settle attempt succeeds and decides the final
      cell; every later attempt fails. */
  lemma {:induction false} FirstAttemptSettles<T>(c: Cell<T>, attempts: seq<Attempt<T>>)
    requires !c.ready && |attempts| > 0
    ensures Run(c, attempts).0 == Apply(c, attempts[0]).0
    ensures Run(c, attempts).1[0] == Pass
    ensures forall i :: 1 <= i < |attempts| ==> Run(c, attempts).1[i] == Fail(AlreadySatisfied)
  {
    var first := Apply(c, attempts[0]);
    SettledCellIsFinal(first.0, attempts[1..]);
  }

  /** Readiness never goes back: after any attempts the cell is ready exactly
      when it was ready before or at least one attempt was made, and
      consistency is kept throughout. */
  lemma {:induction false} ReadinessIsMonotone<T>(c: Cell<T>, attempts: seq<Attempt<T>>)
    ensures Run(c, attempts).0.ready <==> c.ready || |attempts| > 0
    ensures Consistent(c) ==> Consistent(Run(c, attempts).0)
  {
    if c.ready {
      SettledCellIsFinal(c, attempts);
    } else if |attempts| > 0 {
      FirstAttemptSettles(c, attempts);
    }
  }

  /** set_value on a pending cell succeeds, and whatever attempts follow,
      get_value returns that value. */
  lemma ValueRoundTrip<T>(c: Cell<T>, v: T, later: seq<Attempt<T>>)
    requires Consistent(c) && !c.ready
    ensures Run(c, [SetValueCall(v)] + later).1[0] == Pass
    ensures Run(c, [SetValueCall(v)] + later).0.ready
    ensures GetValue(Run(c, [SetValueCall(v)] + later).0) == Ok(v)
  {
    var attempts := [SetValueCall(v)] + later;
    FirstAttemptSettles(c, attempts);
    assert attempts[0] == SetValueCall(v);
  }

  /** set_exception on a pending cell succeeds, and whatever attempts follow,
      get_value rethrows that exception instead of returning a value. */
  lemma ExceptionRoundTrip<T>(c: Cell<T>, e: Exception, later: seq<Attempt<T>>)
    requires Consistent(c) && !c.ready
    ensures Run(c, [SetExceptionCall(e)] + later).1[0] == Pass
    ensures Run(c, [SetExceptionCall(e)] + later).0.ready
    ensures GetValue(Run(c, [SetExceptionCall(e)] + later).0) == Throw(e)
  {
    var attempts := [SetExceptionCall(e)] + later;
    FirstAttemptSettles(c, attempts);
    assert attempts[0] == SetExceptionCall(e);
  }
}
