/** Sequential runs of a producer and a consumer sharing one promise/future
    pair. Each is proved from the contracts of Fut alone. */
module Scenarios {
  import opened Exceptions
  import Fut

  /** The demo: a future is taken, the promise is moved to the producer, which
      sets 42 and is destroyed; the consumer sees the state not ready before
      and ready after, then gets 42 and can get it again. */
  method ProducerSetsValue()
    returns (readyBefore: bool, readyAfter: bool, r: Result<int>, again: Result<int>, stillValid: bool)
    ensures !readyBefore && readyAfter
    ensures r == Ok(42) && again == Ok(42) && stillValid
  {
    var prom := new Fut.MyPromise<int>();
    var got := prom.GetFuture();
    var fut := got.value;
    var producer := new Fut.MyPromise.Move(prom);
    readyBefore := fut.IsReady();
    var settled := producer.SetValue(42);
    producer.Drop();
    prom.Drop();
    readyAfter := fut.IsReady();
    r := fut.Get();
    again := fut.Get();
    stillValid := fut.Valid();
  }

  /** A producer that fails hands its exception to the consumer unchanged. */
  method ProducerSetsException() returns (r: Result<int>)
    ensures r == Throw(RuntimeError("boom"))
  {
    var prom := new Fut.MyPromise<int>();
    var got := prom.GetFuture();
    var fut := got.value;
    var settled := prom.SetException(RuntimeError("boom"));
    prom.Drop();
    r := fut.Get();
  }

  /** The second settlement of a state throws and the first one stands. */
  method SecondSettlementFails() returns (second: Outcome, third: Outcome, r: Result<int>)
    ensures second == Fail(AlreadySatisfied) && third == Fail(AlreadySatisfied)
    ensures r == Ok(1)
  {
    var prom := new Fut.MyPromise<int>();
    var got := prom.GetFuture();
    var fut := got.value;
    var first := prom.SetValue(1);
    second := prom.SetValue(2);
    third := prom.SetException(Foreign(7));
    r := fut.Get();
  }

  /** Destroying a promise whose future was taken, before settling, breaks the
      promise: the consumer gets "Broken promise" instead of hanging. */
  method AbandonedPromiseBreaks() returns (r: Result<int>)
    ensures r == Throw(BrokenPromise)
  {
    var prom := new Fut.MyPromise<int>();
    var got := prom.GetFuture();
    var fut := got.value;
    prom.Drop();
    r := fut.Get();
  }

  /** Destroying an unsettled promise whose future was never taken changes nothing. */
  method DropWithoutFuture() returns (ready: bool)
    ensures !ready
  {
    var prom := new Fut.MyPromise<int>();
    var cell := prom.state;
    prom.Drop();
    ready := cell.IsReady();
  }

  /** The future is handed out once. */
  method FutureRetrievedOnce() returns (first: bool, second: Result<Fut.MyFuture<int>>)
    ensures first && second == Throw(AlreadyRetrievedOrNoState)
  {
    var prom := new Fut.MyPromise<int>();
    var got := prom.GetFuture();
    first := got.Ok?;
    second := prom.GetFuture();
  }

  /** A moved-from promise has no state: every operation on it throws and its
      destruction leaves the moved state alone. */
  method MovedFromPromiseIsInert()
    returns (g: Result<Fut.MyFuture<int>>, s: Outcome, e: Outcome, ready: bool)
    ensures g == Throw(AlreadyRetrievedOrNoState)
    ensures s == Fail(PromiseNoState) && e == Fail(PromiseNoState)
    ensures !ready
  {
    var prom := new Fut.MyPromise<int>();
    var got := prom.GetFuture();
    var fut := got.value;
    var target := new Fut.MyPromise.Move(prom);
    g := prom.GetFuture();
    s := prom.SetValue(5);
    e := prom.SetException(Foreign(0));
    prom.Drop();
    ready := fut.IsReady();
  }

  /** A future without a state fails fast, except for IsReady. */
  method FutureWithoutState() returns (r: Result<int>, w: Outcome, ready: bool, valid: bool)
    ensures r == Throw(FutureNoState) && w == Fail(FutureNoState)
    ensures !ready && !valid
  {
    var fut := new Fut.MyFuture<int>(null);
    r := fut.Get();
    w := fut.Wait();
    ready := fut.IsReady();
    valid := fut.Valid();
  }

  /** Move assignment as written drops the target's state unsettled: after the
      target is destroyed, the future taken from it is still not ready, so its
      Get would block forever. */
  method MoveAssignLeavesFutureHanging() returns (ready: bool)
    ensures !ready
  {
    var target := new Fut.MyPromise<int>();
    var got := target.GetFuture();
    var fut := got.value;
    var source := new Fut.MyPromise<int>();
    target.MoveAssign(source);
    target.Drop();
    source.Drop();
    ready := fut.IsReady();
  }

  /** With the abandoning move assignment, that future gets "Broken promise". */
  method MoveAssignAbandoningBreaksFuture() returns (r: Result<int>)
    ensures r == Throw(BrokenPromise)
  {
    var target := new Fut.MyPromise<int>();
    var got := target.GetFuture();
    var fut := got.value;
    var source := new Fut.MyPromise<int>();
    target.MoveAssignAbandoning(source);
    r := fut.Get();
  }
}
