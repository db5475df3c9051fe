# One-shot promise/future result cell

A model of the promise/future pair in `fut.cpp`. Three classes make it up:

- `SharedState<T>` is the result cell. It holds `value_`, `exception_ptr_` and `ready_`. It is settled once, with a value or an exception.
- `MyFuture<T>` is the consumer's handle: a possibly null shared reference to the cell.
- `MyPromise<T>` is the producer's handle: a possibly null reference plus a `future_retrieved_` flag.

The mutex and the condition variable are left out. What remains is a sequential state machine: pending, then ready with a value, or pending, then ready with an exception.

Files:

- `exceptions.dfy` (module `Exceptions`) holds the values that cross the boundary. An exception is a `RuntimeError(message)`, for the ones the primitive throws and the "Broken promise" it stores, or an opaque `Foreign` token for any other captured exception. A call that can throw returns `Result` (a value or `Throw`) or `Outcome` (`Pass` or `Fail`). The module also holds the error messages of the source, verbatim.
- `cell_spec.dfy` (module `CellSpec`) models the cell's three fields as a value (`Cell`) and each cell operation as a function. It proves the settle-once, round-trip and monotonicity properties over any sequence of settle attempts.
- `fut.dfy` (module `Fut`) holds the three classes with the source's fields. Each state-changing method's postcondition ties the new fields to the `CellSpec` function of the old ones. Blocking calls (`get_value`, `wait`, and the future's `get` and `wait`) require the cell to be ready. The destructor is the explicit method `Drop`.
- `scenarios.dfy` (module `Scenarios`) holds producer/consumer runs proved from the class contracts alone. They cover the demo, a failing producer, settling twice, abandonment, a moved-from promise, and a future without state.

`std::future::get` invalidates the future (the comment at `fut.cpp:84` says so), but here the reset at `fut.cpp:86` is commented out. So this model keeps the future valid: `Get` has no `modifies` clause, the future keeps its state, and a second `Get` returns the same outcome. A moved-from promise has no state and `future_retrieved_ == true` (`fut.cpp:131`, `fut.cpp:137`).

`MyPromise.Valid()` says that the promise's state, if any, is consistent. Every promise operation keeps it, and on a consistent state the future's `Get` returns the stored value or rethrows the stored exception, never the internal error.

`SharedState.IsReady`, `Wait` and `GetValue` have no `modifies` clause, so they cannot change the cell.

## Model

| member | source | states |
|---|---|---|
| CellSpec.Pending | fut.cpp:64-66 | a fresh cell is not ready, holds neither value nor exception, and is consistent |
| CellSpec.SetValue | fut.cpp:16-24 | after set_value the cell is ready whether or not the call threw, and consistency is kept |
| CellSpec.SetExceptionPtr | fut.cpp:26-34 | set_exception as written, with a possibly null pointer: the cell is ready afterwards, and the call throws exactly when the cell was already ready |
| CellSpec.SetException | fut.cpp:26-34 | set_exception with a captured exception: the cell is ready afterwards and consistency is kept |
| CellSpec.GetValue | fut.cpp:36-49 | a stored exception is rethrown, taking precedence over a value; a returned value is the stored one |
| CellSpec.ReadyCellYieldsStoredOutcome | fut.cpp:36-49 | on a ready, consistent cell, get_value returns the stored value or rethrows the stored exception, so the internal error at line 48 is unreachable |
| CellSpec.NullExceptionPtrReachesInternalError | fut.cpp:26-48 | set_exception with a null pointer succeeds, leaves the cell ready with neither value nor exception, and get_value then throws the internal error |
| CellSpec.SettledCellIsFinal | fut.cpp:18-20 | once ready, every further set_value or set_exception throws "Promise already satisfied" and no field changes |
| CellSpec.FirstAttemptSettles | fut.cpp:16-34 | on a pending cell the first settle attempt succeeds and fixes the final cell; every later attempt throws "Promise already satisfied" |
| CellSpec.ReadinessIsMonotone | fut.cpp:22 | after any settle attempts the cell is ready iff it was ready or an attempt was made; ready never resets and consistency is kept |
| CellSpec.ValueRoundTrip | fut.cpp:16-46 | set_value(v) on a pending cell succeeds, and after any later attempts get_value returns v |
| CellSpec.ExceptionRoundTrip | fut.cpp:26-41 | set_exception(e) on a pending cell succeeds, and after any later attempts get_value rethrows e instead of returning a value |
| Fut.SharedState.constructor | fut.cpp:10 | a new shared state is pending and consistent |
| Fut.SharedState.SetValue | fut.cpp:16-24 | fields and result follow CellSpec.SetValue; on a ready state it throws "Promise already satisfied" and nothing changes |
| Fut.SharedState.SetException | fut.cpp:26-34 | fields and result follow CellSpec.SetException; on a ready state it throws "Promise already satisfied" and nothing changes |
| Fut.SharedState.GetValue | fut.cpp:36-49 | once ready, returns CellSpec.GetValue of the fields; on a consistent state it returns a value iff a value is stored |
| Fut.SharedState.IsReady | fut.cpp:51-54 | returns ready_ |
| Fut.SharedState.Wait | fut.cpp:56-59 | returns once ready and leaves the fields unchanged |
| Fut.MyFuture.constructor | fut.cpp:77 | the future refers to the given, possibly null, state |
| Fut.MyFuture.Get | fut.cpp:79-88 | without a state it throws "Future has no associated state"; with one it returns the state's settled outcome, and the future keeps its state; on a consistent state it returns a value iff one is stored and rethrows a stored exception |
| Fut.MyFuture.IsReady | fut.cpp:90-95 | true iff there is a state and it is ready; false without a state rather than throwing |
| Fut.MyFuture.Wait | fut.cpp:97-102 | throws "Future has no associated state" exactly when there is no state |
| Fut.MyFuture.Valid | fut.cpp:105-107 | true iff the future has a state |
| Fut.MyPromise.constructor | fut.cpp:122 | a new promise owns a fresh pending state and has not handed out its future |
| Fut.MyPromise.Move | fut.cpp:129-132 | the new promise takes the other's state and flag; the other is left with no state and the flag set; a consistent state stays consistent |
| Fut.MyPromise.MoveAssign | fut.cpp:133-140 | the target takes the other's state and flag and the other is poisoned; self-assignment changes nothing; the target's old state is left unsettled; both promises stay consistent |
| Fut.MyPromise.MoveAssignAbandoning | fut.cpp:133-140 | as MoveAssign, but the target's old state is first settled with "Broken promise" when it was pending and its future had been handed out; self-assignment changes nothing, the shared state included; both promises stay consistent |
| Fut.MyPromise.GetFuture | fut.cpp:142-149 | succeeds iff there is a state and no future was handed out; then sets the flag and returns a new future on the same state; otherwise throws and changes nothing; the promise stays consistent |
| Fut.MyPromise.SetValue | fut.cpp:151-163 | without a state throws "Promise has no state"; otherwise the state follows CellSpec.SetValue |
| Fut.MyPromise.SetException | fut.cpp:165-170 | without a state throws "Promise has no state"; otherwise the state follows CellSpec.SetException |
| Fut.MyPromise.Drop | fut.cpp:172-184 | settles the state with "Broken promise" exactly when there is a state, it is not ready and the future was handed out; otherwise changes nothing |
| Scenarios.ProducerSetsValue | fut.cpp:299-318 | the demo's steps in one order: the consumer sees "not ready", then gets 42 (as fut.cpp:308-318 does); beyond the demo, it also sees "ready" after settlement, a second get returns 42 again, and the future stays valid |
| Scenarios.ProducerSetsException | fut.cpp:276-288 | an exception set by the producer reaches the consumer's get unchanged |
| Scenarios.SecondSettlementFails | fut.cpp:18-20 | a second set_value and a later set_exception both throw "Promise already satisfied", and get returns the first value |
| Scenarios.AbandonedPromiseBreaks | fut.cpp:172-184 | destroying an unsettled promise whose future was taken makes get throw "Broken promise" |
| Scenarios.DropWithoutFuture | fut.cpp:175 | destroying an unsettled promise whose future was never taken leaves the state pending |
| Scenarios.FutureRetrievedOnce | fut.cpp:142-149 | the first get_future succeeds and the second throws |
| Scenarios.MovedFromPromiseIsInert | fut.cpp:129-170 | on a moved-from promise get_future, set_value and set_exception all throw, and its destruction leaves the moved state pending |
| Scenarios.FutureWithoutState | fut.cpp:79-107 | a future with no state throws on get and wait, and reports not ready and not valid |
| Scenarios.MoveAssignLeavesFutureHanging | fut.cpp:133-140 | after move assignment and destruction of both promises, the future taken from the target's old state is still not ready |
| Scenarios.MoveAssignAbandoningBreaksFuture | fut.cpp:172-184 | with the abandoning move assignment, that future's get throws "Broken promise" |

## Findings

| source | as written | input that shows it | evidently intended | confidence | as-written member | corrected member |
|---|---|---|---|---|---|---|
| fut.cpp:26-34 | set_exception stores any exception_ptr, a null one included, and sets ready_ | set_exception(std::exception_ptr()) on a pending state, then get_value | ready_ implies that a value or an exception is stored (the comments at fut.cpp:42-47 rely on it); a null pointer is never stored | medium, not executed | CellSpec.NullExceptionPtrReachesInternalError | CellSpec.SetException |
| fut.cpp:133-140 | move assignment overwrites state_ without the abandonment step of the destructor | take a future from p1, then p1 = std::move(p2) with p1's state unsettled, then destroy both promises; the future's get blocks forever | the overwritten state is abandoned with "Broken promise", as the destructor at fut.cpp:172-184 does | medium, not executed | Scenarios.MoveAssignLeavesFutureHanging | Fut.MyPromise.MoveAssignAbandoning |

The classes use the corrected `set_exception`: `SharedState.SetException` takes a captured exception, never a null one. Every caller in the source passes a captured exception. Move assignment is kept as written in `MyPromise.MoveAssign`. The corrected `MoveAssignAbandoning` is given beside it.

## Left out

- Mutual exclusion, the condition variable and `notify_one` are left out: they only serve thread synchronisation. Blocking until ready is a precondition (`requires ready`), not a wait loop.
- Fut.SharedState.Wait: the loop inside `cv_.wait` is not modelled. The method requires the state to be ready already.
- `std::shared_ptr` reference counting and lifetime are not modelled. A shared state is a heap object that both handles refer to.
- `std::exception_ptr` and `std::rethrow_exception` are modelled as an `Exception` value that is stored and later returned as `Throw`. Exception object identity and type hierarchy are not modelled.
- Fut.SharedState.SetException: takes a captured exception only; the null `exception_ptr` that fut.cpp:26 also accepts is modelled only in `CellSpec.SetExceptionPtr` (see Findings).
- Fut.MyPromise.SetException: takes a captured exception only; the null `exception_ptr` that fut.cpp:165 also accepts is modelled only in `CellSpec.SetExceptionPtr` (see Findings).
- The two `set_value` overloads (copy at fut.cpp:151, move at fut.cpp:158) are one method, because copying and moving a value are the same here.
- The deleted copy operations of `SharedState` and `MyPromise` have nothing to model.
- `MyFuture`'s implicit copy (fut.cpp:75) is not modelled as an operation. Two futures on one state are two `MyFuture` objects whose `state` fields alias.
- The `void` specialisation (fut.cpp:191-268) is commented out in the source and is not part of this model.
- The demo's console output, `std::thread` and `sleep_for` (fut.cpp:272-346) are not modelled. `Scenarios.ProducerSetsValue` runs the demo's steps in one sequential order.
