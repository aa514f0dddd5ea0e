/**
 * The coroutine task primitive of `nodecpp::awaitable<T>`: the promise block
 * shared by a coroutine and the one consumer that awaits it, the move-only
 * handle, and `void_type_converter`.
 *
 * A coroutine frame is named by a `TaskId` (the address a
 * `coroutine_handle` wraps); an `exception_ptr` is an opaque `Fault` token.
 * The promise keeps the source's three fields exactly: a value flag, a
 * pending-fault slot and one continuation slot. Whether the frame's body has
 * run to its final suspension point is not a field of the source; the
 * scheduler model keeps it beside the promise.
 */
module Awaitable {
  import opened Wrappers

  type TaskId = nat
  type Fault = nat

  /** The static result types a task can have, enough to state `void_type_converter`. */
  datatype Ty = VoidTy | PlaceholderTy | NamedTy(name: string) | TupleTy(elems: seq<Ty>)

  /** Run-time values. `Unassigned` is what a default-constructed `T value` member holds. */
  datatype Val = Placeholder | Atom(token: int) | Tuple(items: seq<Val>) | Unassigned

  /** `v` is a value of type `t`; nothing has type `void`. */
  predicate HasType(v: Val, t: Ty)
    decreases v
  {
    match t
    case VoidTy => false
    case PlaceholderTy => v == Placeholder
    case NamedTy(_) => v.Atom?
    case TupleTy(ts) =>
      && v.Tuple?
      && |v.items| == |ts|
      && forall i :: 0 <= i < |ts| ==> HasType(v.items[i], ts[i])
  }

  /**
   * `void_type_converter<T>::type`: `void` becomes the placeholder type,
   * every other type is left as it is.
   */
  function VoidTypeConverter(t: Ty): (r: Ty)
    ensures r != VoidTy
    ensures t != VoidTy ==> r == t
  {
    if t == VoidTy then PlaceholderTy else t
  }

  /** Converting twice is converting once, and every converted type is inhabited. */
  lemma VoidTypeConverterIdempotent(t: Ty)
    ensures VoidTypeConverter(VoidTypeConverter(t)) == VoidTypeConverter(t)
    ensures HasType(Placeholder, VoidTypeConverter(VoidTy))
  {
  }

  // ---------------------------------------------------------------------
  // The promise block
  // ---------------------------------------------------------------------

  /**
   * `promise_type_struct<T>`: `hr` is the single continuation slot,
   * `ePending` the pending fault, `isValue` the value flag and `value` the
   * stored result (unused when `ty` is `void`).
   */
  datatype Promise = Promise(ty: Ty, hr: Option<TaskId>, ePending: Option<Fault>, isValue: bool, value: Val)

  /** What a consumer would observe by awaiting now. */
  datatype Observed = NoResult | ValueOf(v: Val) | FaultOf(e: Fault)

  /**
   * The result `await_resume` returns when no fault is pending. It has the
   * type `void_type_converter` gives the task's type, provided the stored
   * value has the task's type.
   */
  function Get(p: Promise): (v: Val)
    ensures p.ty == VoidTy || HasType(p.value, p.ty) ==> HasType(v, VoidTypeConverter(p.ty))
    ensures p.ty == VoidTy ==> v == Placeholder
    ensures p.ty != VoidTy ==> v == p.value
  {
    if p.ty == VoidTy then Placeholder else p.value
  }

  /** The abstract state of a promise: a pending fault wins, as in `await_resume`. */
  function Observe(p: Promise): Observed
  {
    if p.ePending.Some? then FaultOf(p.ePending.value)
    else if p.isValue then ValueOf(Get(p))
    else NoResult
  }

  /** A fresh promise: no continuation, no fault, no value. */
  function NewPromise(ty: Ty): (p: Promise)
    ensures Observe(p) == NoResult
    ensures p.hr.None? && p.ty == ty
  {
    Promise(ty, None, None, false, Unassigned)
  }

  /** `return_value(v)`: stores `v` and raises the value flag; nothing else changes. */
  function ReturnValue(p: Promise, v: Val): (r: Promise)
    requires p.ty != VoidTy
    ensures r.isValue && r.hr == p.hr && r.ePending == p.ePending && r.ty == p.ty
    ensures p.ePending.None? ==> Observe(r) == ValueOf(v)
  {
    p.(value := v, isValue := true)
  }

  /** `return_void()`: raises the value flag only. */
  function ReturnVoid(p: Promise): (r: Promise)
    requires p.ty == VoidTy
    ensures r.isValue && r.hr == p.hr && r.ePending == p.ePending && r.value == p.value && r.ty == p.ty
    ensures p.ePending.None? ==> Observe(r) == ValueOf(Placeholder)
  {
    p.(isValue := true)
  }

  /** `unhandled_exception()`: records the fault; the value flag stays as it was. */
  function UnhandledException(p: Promise, e: Fault): (r: Promise)
    ensures r.ePending == Some(e) && r.isValue == p.isValue && r.hr == p.hr && r.value == p.value && r.ty == p.ty
    ensures Observe(r) == FaultOf(e)
  {
    p.(ePending := Some(e))
  }

  /**
   * `final_suspend()`: when a continuation is stored, clears the slot first
   * and then returns it to be resumed; otherwise nothing happens.
   */
  function FinalSuspend(p: Promise): (r: (Promise, Option<TaskId>))
    ensures r.0.hr.None?
    ensures r.1 == p.hr
    ensures r.0 == p.(hr := None)
    ensures Observe(r.0) == Observe(p)
  {
    if p.hr.Some? then (p.(hr := None), p.hr) else (p, None)
  }

  /** `final_suspend` resumes at most once: a second call finds the slot empty. */
  lemma FinalSuspendIsOneShot(p: Promise)
    ensures FinalSuspend(FinalSuspend(p).0).1.None?
    ensures FinalSuspend(FinalSuspend(p).0).0 == FinalSuspend(p).0
  {
  }

  /** `await_ready()` as written: true exactly when the value flag is up. */
  function AwaitReady(p: Promise): (ready: bool)
    ensures ready == p.isValue
    ensures p.ePending.None? ==> (ready <==> Observe(p).ValueOf?)
  {
    p.isValue
  }

  /** A faulted promise is reported not ready. */
  lemma FaultedIsNotReady(p: Promise, e: Fault)
    requires !p.isValue
    ensures !AwaitReady(UnhandledException(p, e))
    ensures Observe(UnhandledException(p, e)) == FaultOf(e)
  {
  }

  /** The readiness test the protocol needs: any recorded outcome, value or fault. */
  function AwaitReadyCorrected(p: Promise): (ready: bool)
    ensures ready <==> Observe(p) != NoResult
  {
    p.isValue || p.ePending.Some?
  }

  /**
   * `await_resume()`: a pending fault is handed over and cleared;
   * otherwise the stored value (or the placeholder for `void`) is returned.
   */
  function AwaitResume(p: Promise): (r: (Promise, Result<Val, Fault>))
    ensures p.ePending.Some? ==> r.1 == Failure(p.ePending.value)
    ensures p.ePending.None? ==> r.1 == Success(Get(p)) && r.0 == p
    ensures r.0 == p.(ePending := None)
    ensures r.0.ePending.None?
  {
    if p.ePending.Some? then (p.(ePending := None), Failure(p.ePending.value))
    else (p, Success(Get(p)))
  }

  /** A fault is delivered at most once: a second `await_resume` does not see it. */
  lemma FaultDeliveredOnce(p: Promise, e: Fault)
    requires p.ePending == Some(e)
    ensures AwaitResume(p).1 == Failure(e)
    ensures AwaitResume(AwaitResume(p).0).1 == Success(Get(p))
  {
  }

  /** A body that returns `v` without suspending leaves a ready promise whose result is `v`. */
  lemma EagerReturnIsReady(ty: Ty, v: Val)
    requires ty != VoidTy
    ensures AwaitReady(ReturnValue(NewPromise(ty), v))
    ensures AwaitResume(ReturnValue(NewPromise(ty), v)).1 == Success(v)
  {
  }

  // ---------------------------------------------------------------------
  // The handle
  // ---------------------------------------------------------------------

  /** `awaitable<T>`: a possibly null handle to one coroutine frame. */
  datatype Handle = Handle(coro: Option<TaskId>)

  /** A frame is owned by at most one live handle. */
  predicate UniqueOwners(slots: seq<Handle>)
  {
    forall i, j :: 0 <= i < |slots| && 0 <= j < |slots| && i != j && slots[i].coro.Some? ==> slots[i].coro != slots[j].coro
  }

  /**
   * Move construction and move assignment: the destination takes the
   * source's frame and the source becomes null. (Copying is deleted, so
   * there is no copy operation to model.) Returns (destination, source).
   */
  function Move(source: Handle): (r: (Handle, Handle))
    ensures UniqueOwners([r.0, r.1])
    ensures r.0.coro == source.coro
    ensures r.1.coro.None?
  {
    (Handle(source.coro), Handle(None))
  }

  /**
   * Move assignment between two handle variables `slots[dst] = std::move(slots[src])`:
   * the destination is overwritten first, then the source is nulled.
   */
  function MoveAssign(slots: seq<Handle>, dst: nat, src: nat): (r: seq<Handle>)
    requires dst < |slots| && src < |slots|
    ensures UniqueOwners(slots) ==> UniqueOwners(r)
    ensures |r| == |slots|
    ensures r[src].coro.None?
    ensures dst != src ==> r[dst] == slots[src]
    ensures forall i :: 0 <= i < |slots| && i != dst && i != src ==> r[i] == slots[i]
  {
    slots[dst := Handle(slots[src].coro)][src := Handle(None)]
  }

  /**
   * Moving into any handle keeps ownership unique. A frame the destination
   * owned before is left with no owner at all: `operator=` overwrites the
   * handle without destroying that frame.
   */
  lemma MovePreservesUniqueOwners(slots: seq<Handle>, dst: nat, src: nat)
    requires dst < |slots| && src < |slots|
    requires UniqueOwners(slots)
    ensures UniqueOwners(MoveAssign(slots, dst, src))
    ensures dst != src && slots[dst].coro.Some? ==>
              forall i :: 0 <= i < |slots| ==> MoveAssign(slots, dst, src)[i].coro != slots[dst].coro
  {
    var r := MoveAssign(slots, dst, src);
    forall i, j | 0 <= i < |r| && 0 <= j < |r| && i != j && r[i].coro.Some?
      ensures r[i].coro != r[j].coro
    {
      if i == dst && dst != src {
        assert r[i] == slots[src];
      }
    }
  }

  /**
   * `await_suspend(h)`: when the handle is non-null, the caller's
   * continuation goes into the frame's single slot (overwriting any earlier
   * one); nothing else changes. `promise` is the frame's promise.
   */
  function AwaitSuspend(h: Handle, promise: Promise, caller: TaskId): (r: Promise)
    ensures h.coro.Some? ==> r == promise.(hr := Some(caller))
    ensures h.coro.None? ==> r == promise
    ensures Observe(r) == Observe(promise)
  {
    if h.coro.Some? then promise.(hr := Some(caller)) else promise
  }
}
