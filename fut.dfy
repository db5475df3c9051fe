/** The promise/future primitive as heap objects: the shared state, the
    consumer's future and the producer's promise. Locking is left out; a call
    that would block until the state is ready requires that it is ready. */
module Fut {
  import opened Exceptions
  import CellSpec

  /** The one-shot result cell shared by a promise and its future. */
  class SharedState<T> {
    var value: Option<T>
    var exc: Option<Exception>
    var ready: bool

    /** The fields as a CellSpec value. */
    function Snapshot(): (c: CellSpec.Cell<T>)
      reads this
    {
      CellSpec.Cell(value, exc, ready)
    }

    ghost predicate Consistent()
      reads this
    {
      CellSpec.Consistent(Snapshot())
    }

    constructor ()
      ensures Snapshot() == CellSpec.Pending()
      ensures Consistent() && !ready
    {
      value := None;
      exc := None;
      ready := false;
    }

    /** Settles the cell with a value, or throws if it is already ready. */
    method SetValue(v: T) returns (o: Outcome)
      modifies this
      ensures (Snapshot(), o) == CellSpec.SetValue(old(Snapshot()), v)
      ensures old(ready) ==> o == Fail(AlreadySatisfied) && unchanged(this)
      ensures ready && (old(Consistent()) ==> Consistent())
    {
      if ready {
        return Fail(AlreadySatisfied);
      }
      value := Some(v);
      ready := true;
      o := Pass;
    }

    /** Settles the cell with an exception, or throws if it is already ready. */
    method SetException(e: Exception) returns (o: Outcome)
      modifies this
      ensures (Snapshot(), o) == CellSpec.SetException(old(Snapshot()), e)
      ensures old(ready) ==> o == Fail(AlreadySatisfied) && unchanged(this)
      ensures ready && (old(Consistent()) ==> Consistent())
    {
      if ready {
        return Fail(AlreadySatisfied);
      }
      exc := Some(e);
      ready := true;
      o := Pass;
    }

    /** The settled outcome; the caller would block until the cell is ready. */
    method GetValue() returns (r: Result<T>)
      requires ready
      ensures r == CellSpec.GetValue(Snapshot())
      ensures Consistent() ==> (r.Ok? <==> value.Some?)
    {
      if exc.Some? {
        return Throw(exc.value);
      }
      if value.Some? {
        return Ok(value.value);
      }
      return Throw(InternalError);
    }

    /** A non-blocking snapshot of readiness. */
    method IsReady() returns (r: bool)
      ensures r == ready
    {
      r := ready;
    }

    /** Returns once the cell is ready; here, only when it already is. */
    method Wait()
      requires ready
      ensures Snapshot() == old(Snapshot())
    {
    }
  }

  /** The consumer's handle: a possibly null reference to a shared state. */
  class MyFuture<T> {
    var state: SharedState?<T>

    constructor (state: SharedState?<T>)
      ensures this.state == state
    {
      this.state := state;
    }

    /** The settled outcome, repeatably: the future keeps its state. */
    method Get() returns (r: Result<T>)
      requires state != null ==> state.ready
      ensures state == null ==> r == Throw(FutureNoState)
      ensures state != null ==> r == CellSpec.GetValue(state.Snapshot())
      ensures state != null && state.Consistent() ==>
        (r.Ok? <==> state.value.Some?) && (state.exc.Some? ==> r == Throw(state.exc.value))
    {
      if state == null {
        return Throw(FutureNoState);
      }
      r := state.GetValue();
    }

    /** False without a state rather than an error. */
    method IsReady() returns (r: bool)
      ensures r <==> state != null && state.ready
    {
      if state == null {
        return false;
      }
      r := state.IsReady();
    }

    method Wait() returns (o: Outcome)
      requires state != null ==> state.ready
      ensures state == null <==> o.Fail?
      ensures o.Fail? ==> o.exc == FutureNoState
    {
      if state == null {
        return Fail(FutureNoState);
      }
      state.Wait();
      o := Pass;
    }

    method Valid() returns (r: bool)
      ensures r <==> state != null
    {
      r := state != null;
    }
  }

  /** The producer's handle: a possibly null reference to a shared state and
      whether its future has been handed out. */
  class MyPromise<T> {
    var state: SharedState?<T>
    var futureRetrieved: bool

    ghost predicate Valid()
      reads this, state
    {
      state != null ==> state.Consistent()
    }

    constructor ()
      ensures state != null && fresh(state)
      ensures state.Snapshot() == CellSpec.Pending() && !futureRetrieved
      ensures Valid()
    {
      state := new SharedState();
      futureRetrieved := false;
    }

    /** Move construction: takes the other promise's state and flag and leaves
        it with no state and the flag set. */
    constructor Move(other: MyPromise<T>)
      modifies other
      ensures state == old(other.state) && futureRetrieved == old(other.futureRetrieved)
      ensures other.state == null && other.futureRetrieved
      ensures old(other.Valid()) ==> Valid() && other.Valid()
    {
      state := other.state;
      futureRetrieved := other.futureRetrieved;
      new;
      other.state := null;
      other.futureRetrieved := true;
    }

    /** Move assignment as written: the target's previous state is dropped
        without settling it. Self-assignment changes nothing. */
    method MoveAssign(other: MyPromise<T>)
      modifies this, other
      ensures other == this ==> state == old(state) && futureRetrieved == old(futureRetrieved)
      ensures other != this ==>
        state == old(other.state) && futureRetrieved == old(other.futureRetrieved) &&
        other.state == null && other.futureRetrieved
      ensures old(state) != null ==> old(state).Snapshot() == old(state.Snapshot())
      ensures old(Valid()) && old(other.Valid()) ==> Valid() && other.Valid()
    {
      if this != other {
        state := other.state;
        futureRetrieved := other.futureRetrieved;
        other.state := null;
        other.futureRetrieved := true;
      }
    }

    /** Move assignment that first abandons the target's previous state, as the
        destructor would, before taking the other promise's state. */
    method MoveAssignAbandoning(other: MyPromise<T>)
      modifies this, other, state
      ensures other == this ==> state == old(state) && futureRetrieved == old(futureRetrieved)
      ensures other != this ==>
        state == old(other.state) && futureRetrieved == old(other.futureRetrieved) &&
        other.state == null && other.futureRetrieved
      ensures other != this && old(state) != null && !old(state.ready) && old(futureRetrieved) ==>
        old(state).Snapshot() == CellSpec.SetException(old(state.Snapshot()), BrokenPromise).0
      ensures other != this && old(state) != null && !(!old(state.ready) && old(futureRetrieved)) ==>
        old(state).Snapshot() == old(state.Snapshot())
      ensures other == this && state != null ==> state.Snapshot() == old(state.Snapshot())
      ensures old(Valid()) && old(other.Valid()) ==> Valid() && other.Valid()
    {
      if this != other {
        Drop();
        state := other.state;
        futureRetrieved := other.futureRetrieved;
        other.state := null;
        other.futureRetrieved := true;
      }
    }

    /** Hands out the future once; throws without a state or on a second call. */
    method GetFuture() returns (r: Result<MyFuture<T>>)
      modifies this
      ensures state == old(state)
      ensures old(Valid()) ==> Valid()
      ensures old(state == null || futureRetrieved) ==>
        r == Throw(AlreadyRetrievedOrNoState) && futureRetrieved == old(futureRetrieved)
      ensures old(state != null && !futureRetrieved) ==>
        r.Ok? && fresh(r.value) && r.value.state == state && futureRetrieved
    {
      if state == null || futureRetrieved {
        return Throw(AlreadyRetrievedOrNoState);
      }
      futureRetrieved := true;
      var f := new MyFuture(state);
      return Ok(f);
    }

    /** Settles the shared state with a value (both overloads). */
    method SetValue(v: T) returns (o: Outcome)
      modifies state
      ensures state == null ==> o == Fail(PromiseNoState)
      ensures state != null ==> (state.Snapshot(), o) == CellSpec.SetValue(old(state.Snapshot()), v)
      ensures old(Valid()) ==> Valid()
    {
      if state == null {
        return Fail(PromiseNoState);
      }
      o := state.SetValue(v);
    }

    /** Settles the shared state with an exception. */
    method SetException(e: Exception) returns (o: Outcome)
      modifies state
      ensures state == null ==> o == Fail(PromiseNoState)
      ensures state != null ==> (state.Snapshot(), o) == CellSpec.SetException(old(state.Snapshot()), e)
      ensures old(Valid()) ==> Valid()
    {
      if state == null {
        return Fail(PromiseNoState);
      }
      o := state.SetException(e);
    }

    /** The destructor: a pending state whose future was handed out is settled
        with "Broken promise"; otherwise nothing changes. Errors are swallowed. */
    method Drop()
      modifies state
      ensures state != null && !old(state.ready) && futureRetrieved ==>
        state.Snapshot() == CellSpec.SetException(old(state.Snapshot()), BrokenPromise).0
      ensures state != null && !(!old(state.ready) && futureRetrieved) ==>
        state.Snapshot() == old(state.Snapshot())
      ensures old(Valid()) ==> Valid()
    {
      if state != null {
        var isReady := state.IsReady();
        if !isReady && futureRetrieved {
          var ignored := state.SetException(BrokenPromise);
        }
      }
    }
  }
}
