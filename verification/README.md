# node.cpp coroutine tasks, dynamic values and the sample server, in Dafny

This project models three parts of node.cpp, a C++ runtime in the style of
Node.js, and proves properties of the models.

- **`nodecpp::awaitable<T>`** (`include/nodecpp/awaitable.h`). This is the coroutine task type user code
  `co_await`s. The model covers:
  - the promise block, with its value flag, pending-fault slot and single continuation slot;
  - the move-only handle;
  - `initial_suspend`/`final_suspend`, `return_value`/`return_void`/`unhandled_exception`;
  - `await_ready`/`await_suspend`/`await_resume`;
  - `void_type_converter`;
  - the `wait_for_all` join coroutine.

  Files: `awaitable.dfy` (module `Awaitable`) holds the single-promise
  operations. `scheduler.dfy` (module `Scheduler`) puts frames in a world
  driven by events: a task is created, a task completes, a task awaits
  another, `wait_for_all` is called. `final_suspend` resumes the stored
  continuation directly. A chain of `wait_for_all` frames therefore unwinds
  inside one event. A resumed user frame receives the outcome in that event,
  and its body goes on in a later one. `scheduler_proofs.dfy` (module `SchedulerProofs`) proves a run
  invariant and what it implies along every run.
- **`nodecpp::js`** (`include/nodecpp/js_compat.h`). This is a JavaScript-like
  dynamic variable `JSVar`, the objects and arrays it points to, their
  `operator[]` and `has` lookups, `typeOf`, `operator!` and the per-thread
  module registry behind `require<T>()`. The modules are:
  - `JsValue` (`jsvar.dfy`);
  - `JsObject` (`jsobject.dfy`);
  - `JsRegistry` (`registry.dfy`);
  - `Decimal` (`decimal.dfy`), the decimal index text that keys use.
- **The sample TCP server** (`test/samples/l_server/user_code/NetSocket.h`).
  The model covers the Fletcher-16 checksum and both variants of the
  `event::data` handler (`netsocket.dfy`, module `NetSocket`).

`wrappers.dfy` (module `Wrappers`) holds `Option` and `Result`.

Conventions of the model:
- Every critical assertion the source would hit is a `Failure` value, and so is a null dereference and the
  `std::out_of_range` that `substr` throws.
- Undefined behaviour that the model
  has to resolve is resolved explicitly and listed below.
- The scheduler is parameterised by the readiness test (`Policy`), so both the source's `await_ready` and
  the corrected one can be run through the same proofs.
- The JS layer uses the corrected definitions wherever a finding below applies. The as-written ones sit
  beside them.

## Model

| member | source | states |
|---|---|---|
| `Awaitable.VoidTypeConverter` | include/nodecpp/awaitable.h:46-56 | `void` maps to the placeholder type, every other type to itself; the result is never `void` |
| `Awaitable.VoidTypeConverterIdempotent` | include/nodecpp/awaitable.h:46-56 | converting twice is converting once; the placeholder value inhabits the converted `void` |
| `Awaitable.Get` | include/nodecpp/awaitable.h:147-152 | the result has the type `void_type_converter` makes of the task's type, given a stored value of the task's type: the placeholder for a `void` task, the stored value otherwise |
| `Awaitable.NewPromise` | include/nodecpp/awaitable.h:58-66 | a new promise has no continuation, no fault and no value: awaiting it would observe nothing |
| `Awaitable.ReturnValue` | include/nodecpp/awaitable.h:100-104 | sets the value flag and leaves continuation, fault and type alone; without a pending fault the value is what is observed |
| `Awaitable.ReturnVoid` | include/nodecpp/awaitable.h:116-119 | sets the value flag only; without a pending fault the placeholder is what is observed |
| `Awaitable.UnhandledException` | include/nodecpp/awaitable.h:82-84 | records the fault, keeps the value flag and the slot, and the fault is then what is observed |
| `Awaitable.FinalSuspend` | include/nodecpp/awaitable.h:72-81 | hands back the stored continuation and leaves the slot empty, without changing what an awaiter observes |
| `Awaitable.FinalSuspendIsOneShot` | include/nodecpp/awaitable.h:72-81 | a second `final_suspend` finds no continuation and changes nothing |
| `Awaitable.AwaitReady` | include/nodecpp/awaitable.h:154-157 | ready exactly when the value flag is set; when no fault is pending, exactly when a value is observable |
| `Awaitable.FaultedIsNotReady` | include/nodecpp/awaitable.h:154-157 | a task that threw before producing a value is reported not ready, although its fault is observable |
| `Awaitable.AwaitReadyCorrected` | include/nodecpp/awaitable.h:154-157 | ready exactly when some outcome, value or fault, is observable |
| `Awaitable.AwaitResume` | include/nodecpp/awaitable.h:162-173 | a pending fault is returned as a failure and cleared; otherwise the result is returned and the promise is unchanged |
| `Awaitable.FaultDeliveredOnce` | include/nodecpp/awaitable.h:162-173 | a fault reaches the first `await_resume` only; the next one sees the value path |
| `Awaitable.EagerReturnIsReady` | include/nodecpp/awaitable.h:100-104 | a body that returns `v` at once leaves a ready promise whose `await_resume` yields `v` |
| `Awaitable.Move` | include/nodecpp/awaitable.h:136-138 | the new handle owns the source's frame, the source becomes null, and the two handles never share a frame |
| `Awaitable.MoveAssign` | include/nodecpp/awaitable.h:139-143 | every frame stays owned by at most one handle; the destination takes the source's frame, the source is nulled, every other handle is unchanged |
| `Awaitable.MovePreservesUniqueOwners` | include/nodecpp/awaitable.h:133-143 | moving into any handle keeps every frame owned by at most one handle; a frame the destination owned before is left with no owner at all |
| `Awaitable.AwaitSuspend` | include/nodecpp/awaitable.h:158-161 | a non-null handle stores the caller in the frame's slot; a null one changes nothing; the observed outcome is unchanged |
| `Scheduler.Step` | include/nodecpp/awaitable.h:68-195 | an event applies exactly when its tasks exist and are in the state it needs; creating a task adds one frame, which is finished at once when its body ends before suspending; an await of a ready task delivers the outcome at once and otherwise registers the awaiter in the awaited frame |
| `Scheduler.Finish` | include/nodecpp/awaitable.h:72-119 | a live frame's completion signals `Completed` first; with no continuation it ends finished with the settled outcome observable; with one, the stored continuation is resumed next; a finished or missing frame changes nothing |
| `Scheduler.Resume` | include/nodecpp/awaitable.h:162-173 | only a frame waiting on the resumer is resumed, and it first receives the `await_resume` result; a user frame then waits on nothing; anything else is a stray resumption that changes nothing |
| `Scheduler.JoinTake` | include/nodecpp/awaitable.h:189-195 | the join receives its current member's result; a fault ends the join at once, leaving the fault observable when nobody awaits the join and resuming its awaiter otherwise |
| `Scheduler.JoinAdvance` | include/nodecpp/awaitable.h:189-195 | after the last member the join completes; a ready member is taken at once; otherwise the join registers in that member's slot and the member's outcome is unchanged |
| `Scheduler.Settle` | include/nodecpp/awaitable.h:82-119 | ending a body records exactly its return value, the placeholder, or its fault, and keeps type and slot |
| `Scheduler.FinishShrinks` | include/nodecpp/awaitable.h:72-81 | finishing a frame removes exactly that frame from the unfinished ones |
| `SchedulerProofs.FinishOk` | include/nodecpp/awaitable.h:72-81 | completing a frame, with everything its `final_suspend` resumes, keeps the invariant, emits one completion and resumes at most the one stored continuation |
| `SchedulerProofs.ResumeOk` | include/nodecpp/awaitable.h:162-173 | the resumed frame consumes the finished frame's outcome once and nothing else is resumed on its behalf |
| `SchedulerProofs.JoinTakeOk` | include/nodecpp/awaitable.h:189-195 | the join taking a member's result, or rethrowing its fault, keeps the invariant |
| `SchedulerProofs.JoinAdvanceOk` | include/nodecpp/awaitable.h:189-195 | the join advancing to its next member, suspending on it or returning the tuple, keeps the invariant |
| `SchedulerProofs.StepOk` | include/nodecpp/awaitable.h:154-173 | every event that can happen keeps the invariant, and no existing orphan is woken |
| `SchedulerProofs.RunOk` | include/nodecpp/awaitable.h:68-195 | the same along a whole sequence of events |
| `SchedulerProofs.RunFromEmpty` | include/nodecpp/awaitable.h:72-81 | along any run: a frame signals completion once and exactly when it has finished; each frame resumes at most one continuation; each fault reaches at most one `await_resume`; no frame is resumed unless it waits on the resumer |
| `SchedulerProofs.JoinOutcome` | include/nodecpp/awaitable.h:189-195 | a finished join returned every member's result in member order, or stopped at the first member that ended without a value (which fault it carries is `JoinFaultEscapes`) |
| `SchedulerProofs.FaultReachesHolder` | include/nodecpp/awaitable.h:72-84 | a frame that throws while a continuation waits on it resumes that continuation, which receives exactly this fault |
| `SchedulerProofs.JoinFaultEscapes` | include/nodecpp/awaitable.h:189-195 | a join whose member faulted completes with that member's own fault: it is observable on the join when nobody awaits it, and otherwise the join's awaiter receives it next |
| `SchedulerProofs.EagerStart` | include/nodecpp/awaitable.h:68-71 | a coroutine that returns before suspending is finished, ready and yields its value within the call that created it |
| `SchedulerProofs.AwaitFaultedAsWritten` | include/nodecpp/awaitable.h:154-161 | awaiting a task that already threw registers the awaiter in a slot nobody will read again: the awaiter becomes an orphan |
| `SchedulerProofs.OrphanForever` | include/nodecpp/awaitable.h:72-81 | whatever happens afterwards, an orphan stays suspended on the same task and never completes |
| `SchedulerProofs.AwaitFaultedCorrected` | include/nodecpp/awaitable.h:154-173 | with the corrected readiness test the same await rethrows the fault at once and the awaiter keeps running |
| `SchedulerProofs.FaultScenarioAsWritten` | include/nodecpp/awaitable.h:154-157 | three events (a task throws, a second task awaits it) leave the second task an orphan |
| `SchedulerProofs.FaultScenarioCorrected` | include/nodecpp/awaitable.h:154-173 | the same events with the corrected test deliver the fault instead |
| `JsValue.TypeOf` | include/nodecpp/js_compat.h:274-296 | "object" exactly for the pointer tags, "undefined" exactly for undefined, "function" exactly for the function tag |
| `JsValue.TypeOfSeparatesTags` | include/nodecpp/js_compat.h:274-296 | two variables have the same `typeOf` exactly when their tags agree or both are pointers |
| `JsValue.Copy` | include/nodecpp/js_compat.h:96-124 | a copy never owns, has the original's `typeOf` and designates the same object: an owning pointer becomes a soft pointer, other handled tags are unchanged; the function tag fails |
| `JsValue.CopyKeepsMeaning` | include/nodecpp/js_compat.h:113-117 | a copy never owns, keeps the `typeOf` and the designated object, and copying it again gives the same |
| `JsValue.Make` | include/nodecpp/js_compat.h:207-214 | each converting constructor gives the variable of its payload's tag |
| `JsValue.InitWith` | include/nodecpp/js_compat.h:125-201 | `init(x)` yields `x`'s tag unless the old value has the function tag |
| `JsValue.InitForgetsOldValue` | include/nodecpp/js_compat.h:125-201 | the result of `init(x)` is `x` whatever the variable held before |
| `JsValue.SelfAssignErases` | include/nodecpp/js_compat.h:96-99 | as written, `v = v` leaves `v` undefined |
| `JsValue.AssignAsWritten` | include/nodecpp/js_compat.h:221 | as written, `v = w` fails exactly when the destination, or a distinct source, has the function tag; other variables are unchanged; `v = v` leaves `v` undefined |
| `JsValue.SelfAssignExample` | include/nodecpp/js_compat.h:221 | a variable holding "a" becomes undefined after `v = v` |
| `JsValue.Assign` | include/nodecpp/js_compat.h:221 | corrected (see Findings): the destination receives the copy of the source, everything else is unchanged, and only the function tag fails |
| `JsValue.SelfAssignKeeps` | include/nodecpp/js_compat.h:221 | reading the source first, `v = v` keeps `v`'s kind, and any non-owning value unchanged |
| `JsValue.AssignAgreesOnDistinct` | include/nodecpp/js_compat.h:96-124 | for two distinct variables the source's assignment and the corrected one coincide |
| `Decimal.Text` | include/nodecpp/js_compat.h:341-345 | the decimal text of an index is a non-empty digit string |
| `Decimal.Value` | include/nodecpp/js_compat.h:440-450 | the number `strtol` reads from a string of `k` digits is below `10^k` |
| `Decimal.ValueLeadingZero` | include/nodecpp/js_compat.h:440-450 | a leading zero does not change the number a digit string denotes |
| `Decimal.ValueOfText` | include/nodecpp/js_compat.h:440-450 | reading back the text of an index gives the index |
| `Decimal.TextIsCanonical` | include/nodecpp/js_compat.h:341-345 | the text of an index has no leading zero unless it is "0" |
| `Decimal.TextOfValue` | include/nodecpp/js_compat.h:440-450 | formatting the value of a canonical digit string gives that string back |
| `Decimal.TextInjective` | include/nodecpp/js_compat.h:341-345 | two indices have the same text exactly when they are equal |
| `JsObject.NewObject` | include/nodecpp/js_compat.h:334 | a fresh empty object at a reference not yet in use |
| `JsObject.Render` | include/nodecpp/js_compat.h:589-611 | a string renders as itself, undefined as "undefined"; only the function tag and a null pointer fail |
| `JsObject.KeyName` | include/nodecpp/js_compat.h:336-349 | an index is looked up under a digit string that reads back as the index; a string is looked up under itself |
| `JsObject.FindOrAdd` | include/nodecpp/js_compat.h:314-323 | the key is present afterwards, every old entry is unchanged, a missing key maps to undefined, and the result is the copy of the entry |
| `JsObject.FindOrAddIdempotent` | include/nodecpp/js_compat.h:314-323 | a second lookup of the same key changes nothing and returns the same value |
| `JsObject.Grown` | include/nodecpp/js_compat.h:433-437 | growing keeps the old elements and fills up to `max(capacity, idx + 1)` with undefined |
| `JsObject.Grow` | include/nodecpp/js_compat.h:434-436 | the `push_back` loop computes exactly `Grown`, and the requested element exists afterwards and is undefined |
| `JsObject.ElementAt` | include/nodecpp/js_compat.h:428-439 | an index in range copies the element and leaves the array alone; beyond it the array grows and the new element is undefined |
| `JsObject.ElementAtIdempotent` | include/nodecpp/js_compat.h:428-439 | indexing the same position again changes nothing and returns the same value |
| `JsObject.CharAt` | include/nodecpp/js_compat.h:538-545 | in range the `size_t` overload and `substr(idx, 1)` give the same one-character string; out of range it gives undefined |
| `JsObject.DigitKeyAsWritten` | include/nodecpp/js_compat.h:567-578 | as written, a digit key below the length gives the character the index gives, the key of the length gives "", a larger one throws `out_of_range`, and a non-digit key gives undefined |
| `JsObject.StrIndexAsWritten` | include/nodecpp/js_compat.h:527-578 | as written, a string receiver gives undefined or a string of at most one character, a `size_t` index selects as the bound-checked index does, and only a string key can throw |
| `JsObject.StrIndex` | include/nodecpp/js_compat.h:527-578 | corrected (see Findings): a string receiver gives undefined or one character of the string; an index selects the character at it |
| `JsObject.DigitKey` | include/nodecpp/js_compat.h:567-578 | corrected (see Findings): the text of any index selects exactly what that index selects; any key that is not digits gives undefined |
| `JsObject.DigitKeyPastEnd` | include/nodecpp/js_compat.h:567-578 | as written, the key of index `n` on a length-`n` string gives "" and index `n + 1` throws, where the index `n` itself gives undefined |
| `JsObject.DigitKeyMatchesIndex` | include/nodecpp/js_compat.h:527-587 | corrected, indexing a string by the text of an index and by the index agree |
| `JsObject.StrIndexAgreesInRange` | include/nodecpp/js_compat.h:487-578 | within range the source's string indexing and the corrected one agree |
| `JsObject.ObjIndex` | include/nodecpp/js_compat.h:336-450 | object lookups keep every old entry and add the key; an array sends indices and digit strings to its elements and other strings to its entries |
| `JsObject.Index` | include/nodecpp/js_compat.h:476-587 | corrected (see Findings): booleans and numbers give undefined and stay; strings give one character or undefined; an undefined receiver becomes an owning pointer to a new object |
| `JsObject.PointerIndex` | include/nodecpp/js_compat.h:517-520 | a pointer to a live object answers with what the object's lookup finds and stores the object the lookup leaves; no other object changes; a dead reference fails as a null dereference |
| `JsObject.IndexUndefDelegates` | include/nodecpp/js_compat.h:481-483 | indexing undefined is indexing a new empty object; old objects are unchanged and the new one holds only the key |
| `JsObject.ObjHas` | include/nodecpp/js_compat.h:369-388 | as written: a plain object has a key exactly when indexing by that key adds no entry; an index is looked up in the entries only, under its decimal text |
| `JsObject.ObjHasCorrected` | include/nodecpp/js_compat.h:468-472 | corrected (see Findings): an array has every index whose lookup leaves it unchanged, and an index it lacks is one whose lookup grows the elements; other lookups are as written |
| `JsObject.Has` | include/nodecpp/js_compat.h:613-695 | corrected (see Findings): only a pointer to a live object can contain anything, and the object answers as `ObjHasCorrected`; the function tag fails; a null pointer fails |
| `JsObject.IndexThenHasObject` | include/nodecpp/js_compat.h:336-388 | after indexing an object by an index or a string, `has` of that key is true |
| `JsObject.ArrayHasMissesElements` | include/nodecpp/js_compat.h:468-472 | as written, `has(0)` is false right after `[0]` returned an array's first element |
| `JsObject.IndexThenHasArray` | include/nodecpp/js_compat.h:428-472 | corrected, every index an array was indexed at is one it has |
| `JsObject.NotAsWrittenInverts` | include/nodecpp/js_compat.h:238-259 | as written, `!0` is false and `!p` is true for a pointer to a live object, the opposite of their truth values |
| `JsObject.NotNegatesTruth` | include/nodecpp/js_compat.h:238-259 | corrected, `!` negates the truth value of every variable except the string "false", which `!` also treats as false |
| `JsRegistry.AddExported` | include/nodecpp/js_compat.h:763-772 | registers a new type so that a lookup finds the new instance and every other type's lookup is unchanged; a type already registered is refused |
| `JsRegistry.Require` | include/nodecpp/js_compat.h:797-807 | `require` never reaches its assertion: it returns the registered instance untouched, or registers exactly the new one |
| `JsRegistry.RequireIdempotent` | include/nodecpp/js_compat.h:797-807 | a second `require` of a type returns the first one's instance and changes nothing |
| `JsRegistry.RequireAllKeeps` | include/nodecpp/js_compat.h:740-807 | over a series of `require`s no registered instance is replaced and every required type ends up registered |
| `JsRegistry.RequireAllSameInstance` | include/nodecpp/js_compat.h:797-807 | each `require` in a series returns the instance the registry finally holds for its type |
| `JsRegistry.RequireAllConsistent` | include/nodecpp/js_compat.h:797-807 | all `require`s of one type return the same instance |
| `NetSocket.AddWrap` | test/samples/l_server/user_code/NetSocket.h:151-153 | a `uint64_t` counter increment wraps modulo 2^64 and is exact when it does not overflow |
| `NetSocket.ShiftOr` | test/samples/l_server/user_code/NetSocket.h:51 | shifting `sum2` left by 8 and or-ing in `sum1` after promotion to `int` and truncation to `uint16_t` gives `sum2 * 256 + sum1` |
| `NetSocket.BitOrDisjoint` | test/samples/l_server/user_code/NetSocket.h:51 | or-ing a value below `2^k` into a value shifted left by `k` is the same as adding them: the two halves of the checksum do not overlap |
| `NetSocket.Sum1IsByteSumMod255` | test/samples/l_server/user_code/NetSocket.h:45-49 | the running `sum1` is the byte sum modulo 255 |
| `NetSocket.Sum2IsPrefixSumsMod255` | test/samples/l_server/user_code/NetSocket.h:45-49 | the running `sum2` is the sum of all prefix byte sums modulo 255 |
| `NetSocket.ChecksumOfEmptyIsZero` | test/samples/l_server/user_code/NetSocket.h:41-51 | the checksum of no bytes is 0 |
| `NetSocket.Fletcher16` | test/samples/l_server/user_code/NetSocket.h:39-52 | the loop returns the checksum: high byte the prefix sums, low byte the byte sum, each modulo 255 |
| `NetSocket.LoadStoreU32` | test/samples/l_server/user_code/NetSocket.h:108-113 | reading four bytes as a `uint32_t` and writing them back reproduces them |
| `NetSocket.StoreLoadU16` | test/samples/l_server/user_code/NetSocket.h:116 | writing a `uint16_t` and reading it back gives it |
| `NetSocket.HandleData` | test/samples/l_server/user_code/NetSocket.h:124-154 | accepted exactly when the buffer has two bytes and its first byte is its length; the reply is `requestedSz` copies of `requestedSz`; counters advance modulo 2^64 |
| `NetSocket.WellFormedRequestIsServed` | test/samples/l_server/user_code/NetSocket.h:133-149 | every request a client builds correctly is accepted and answered with the bytes asked for |
| `NetSocket.RequestCountCountsAccepted` | test/samples/l_server/user_code/NetSocket.h:151-153 | over a connection, `rqCnt` grows by exactly the number of accepted requests |
| `NetSocket.HandleDataChecked` | test/samples/l_server/user_code/NetSocket.h:83-122 | accepted exactly when the buffer is long enough, its length matches and its client id is 0 or this connection's; the reply layout, echo and checksum are as sent |
| `NetSocket.LoadStoreEcho` | test/samples/l_server/user_code/NetSocket.h:108-113 | the packet number is echoed byte for byte |
| `NetSocket.CheckedReply` | test/samples/l_server/user_code/NetSocket.h:108-116 | the reply is the checksum of the rest, then the size asked for, the connection id, the packet number echoed and that many filler bytes |
| `NetSocket.CheckedReplyVerifies` | test/samples/l_server/user_code/NetSocket.h:109-117 | every reply the checking handler writes passes a client's length, size and checksum check |

## Left out

- Frame destruction. `final_suspend` returns `suspend_never`, so a frame is freed when its body ends and a handle to it dangles. The model keeps finished frames so that it can describe what a later `await` does with them.
- Real resumption and the stack. Resuming a continuation is a nested call in the model. Frames are not executed.
- The evaluation order of `co_await calls ...` in `wait_for_all`. C++ leaves the order of constructor arguments unspecified; the model fixes left to right.
- User coroutine bodies. Their code is outside the library: events say when a body awaits, returns or throws.
- Formatting of numbers and objects (`toString`, `format("{}", double)`), and the `double` to `size_t` conversion. These come in as functions of an `Env`. Decimal text of a `size_t` index is modelled exactly.
- JsObject.Index: string receivers use the corrected `StrIndex`; as written (`StrIndexAsWritten`) a digit-string key equal to the length gives "" and a larger one throws `out_of_range`.
- JsObject.Index: the key is evaluated before the receiver changes. In the source `v[v]` on an undefined `v` turns `v` into an owning pointer first, so the key is the new object's text; the model renders the undefined key as "undefined".
- JsObject.Has: arrays answer through the corrected `ObjHasCorrected`; as written (`ObjHas`) `has(size_t)` on an array looks only in the entries, so `has(0)` on the array `[1]` is false.
- JsValue.Assign: this is the corrected assignment that reads the source first; as written (`AssignAsWritten`) `v = v` erases `v`.
- Decimal.Value: `strtol`'s clamping of overlong digit strings to `LONG_MAX` is not modelled; the value is exact.
- JsObject.ElementAt: the `idx + 1` overflow at `SIZE_MAX` is not modelled. The model assumes `reserve(n)` leaves the capacity at exactly `max(capacity, n)`; the standard allows more, and the fill loop then pushes more undefined elements.
- A negative `int` index is converted to `size_t` in the source. The model's indices are natural numbers.
- Lifetimes in the safe-memory library, including the undefined behaviour of `init` for owning pointers and strings: the model treats a pointer as the reference of a live object or as null.
- JSArray: `JSArray[JSVar holding a string]` goes to the entries and never to the elements, as written.
- JsObject.ObjHas: `has(double)` is looked up under the number's text through the `Env`; no claim is made about that text.
- The `JSModule2JSVar` forwarding wrapper: each of its members only calls the same member of `JSVar`.
- The `thread_local` placement of the registry: the registry is one value passed explicitly.
- NetSocket.h beyond the data handlers: socket events, the control server that marshals `Stats`, and console output.
- NetSocket.Stats: `rqCnt` is never initialised in the source; the model allows any start value.
- NetSocket.HandleDataChecked: `sentSize` grows by `requestedSz + 9` while `requestedSz + 11` bytes are written. This is kept as written because the counter may mean the checksummed part.
- NetSocket.HandleDataChecked: the native byte order of the `uint32_t` and `uint16_t` loads and stores (ids, packet number, checksum) is fixed as little-endian.
- `build/NetSocket/NetSocket.cpp` (the generated glue) is not part of this model.

## Findings

| source | as written | input that shows it | evidently intended | confidence | as-written member | corrected member |
|---|---|---|---|---|---|---|
| include/nodecpp/awaitable.h:154-157 | `await_ready` tests only the value flag, so awaiting a task that already threw suspends the awaiter in the slot of a frame whose `final_suspend` has run; since `final_suspend` returns `suspend_never` (awaitable.h:80) that frame is already freed, so the real program reads a destroyed promise | task 0 throws before suspending, then task 1 `co_await`s it | a recorded fault also makes the task ready, so `await_resume` rethrows it at once | high; not executed | `SchedulerProofs.AwaitFaultedAsWritten` | `SchedulerProofs.AwaitFaultedCorrected` |
| include/nodecpp/js_compat.h:96-99 | `init(other)` deinitialises the destination before reading `other`, so `v = v` erases `v` | `v` holding "a", then `v = v` | self-assignment keeps the value | high; not executed | `JsValue.SelfAssignErases` | `JsValue.SelfAssignKeeps` |
| include/nodecpp/js_compat.h:569-576 | a digit-string key on a string receiver calls `substr(idx, 1)` without the bound check the `size_t` overload makes | `JSVar("ab")["2"]` gives "" and `JSVar("ab")["3"]` throws, while `[2]` gives undefined | the same bound check as the `size_t` overload | high; not executed | `JsObject.DigitKeyPastEnd` | `JsObject.DigitKeyMatchesIndex` |
| include/nodecpp/js_compat.h:468-472 | `JSArray::has(size_t)` looks only in the key/value entries, never in the elements | array `[1]`: `has(0)` is false right after `[0]` returned 1 | an index within the elements is contained | medium; not executed | `JsObject.ArrayHasMissesElements` | `JsObject.IndexThenHasArray` |
| include/nodecpp/js_compat.h:238-259 | `operator!` compares the address of the number with 0 and tests pointers for `!= nullptr` | `!JSVar(0)` is false; `!p` is true for a pointer to a live object | `!` of 0 and of a null pointer is true, of a live object false | high; not executed | `JsObject.NotAsWrittenInverts` | `JsObject.NotNegatesTruth` |
