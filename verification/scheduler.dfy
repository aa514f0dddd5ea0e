/**
 * Tasks in motion: a world of coroutine frames driven by the events the
 * surrounding program and its event loop produce, with the resumption chain
 * that `final_suspend` starts and the `wait_for_all` join coroutine.
 *
 * Two kinds of frames exist. An `External` frame runs a user coroutine body
 * whose code is not modelled: the environment says when it awaits a task
 * and when it returns or throws. A `JoinAll` frame runs the body of
 * `wait_for_all`, which awaits its members one after the other and returns
 * the tuple of their results. C++ evaluates the `co_await calls ...`
 * constructor arguments in an unspecified order; the model fixes
 * left-to-right.
 *
 * Resumption is direct: when a frame completes, `final_suspend` invokes the
 * stored continuation before returning. A resumed join frame goes on at
 * once, so a chain of joins unwinds as nested calls (`Finish` -> `Resume`
 * -> `JoinTake` -> ... -> `Finish`). A resumed user frame only receives the
 * outcome; what its body does next is a later event. Frames
 * are kept after completion; the source's frames are freed at that point
 * (`final_suspend` returns `suspend_never`), which this model does not show.
 */
module Scheduler {
  import opened Wrappers
  import opened Awaitable

  /** What a frame is running. */
  datatype Body =
    | External(awaiting: Option<TaskId>)                // a user coroutine, possibly suspended on a task
    | JoinAll(members: seq<TaskId>, next: nat, acc: seq<Val>) // `wait_for_all`: next member to await, results so far

  /** A coroutine frame: its promise, whether its body reached the final suspension point, and its body. */
  datatype Frame = Frame(promise: Promise, finished: bool, body: Body)

  datatype World = World(frames: map<TaskId, Frame>, nextId: TaskId)

  /** Which readiness test `co_await` uses: the source's, or the one that also counts a fault. */
  datatype Policy = AsWritten | Corrected

  function Ready(policy: Policy, p: Promise): bool
  {
    match policy
    case AsWritten => AwaitReady(p)
    case Corrected => AwaitReadyCorrected(p)
  }

  /** How a body ends: `co_return v`, `co_return;` or an escaping exception. */
  datatype Completion = Returns(v: Val) | ReturnsVoid | Throws(e: Fault)

  /** What the surrounding program does next. */
  datatype Event =
    | Create(ty: Ty, first: Option<Completion>) // call a coroutine; the body starts at once and may finish at once
    | Complete(task: TaskId, how: Completion)   // a running user body returns or throws
    | Await(task: TaskId, on: TaskId)           // a running user body executes `co_await` on a handle to `on`
    | WaitForAll(members: seq<TaskId>)          // call `wait_for_all` on handles to `members`

  /** Observable steps, in the order they happen. */
  datatype Signal =
    | Completed(task: TaskId)                                  // the final suspension point was reached
    | Resumed(task: TaskId, resumer: TaskId)                      // `resumer`'s final_suspend resumed `task`
    | Registered(task: TaskId, on: TaskId)                     // await_suspend stored `task` in `on`'s slot
    | Delivered(task: TaskId, source: TaskId, result: Result<Val, Fault>) // await_resume on `source`, in `task`
    | Stray(task: TaskId, resumer: TaskId)                        // a resumption of a frame not suspended on `resumer`

  /** A body may end this way in a coroutine of result type `ty`. */
  predicate Fits(ty: Ty, how: Completion)
  {
    match how
    case Returns(v) => ty != VoidTy && HasType(v, ty)
    case ReturnsVoid => ty == VoidTy
    case Throws(_) => true
  }

  /** The promise calls that end a body: `return_value`, `return_void` or `unhandled_exception`. */
  function Settle(p: Promise, how: Completion): (r: Promise)
    ensures r.ty == p.ty && r.hr == p.hr
    ensures Fits(p.ty, how) && p.ePending.None? && !p.isValue ==>
      Observe(r) == (match how
                     case Returns(v) => ValueOf(v)
                     case ReturnsVoid => ValueOf(Placeholder)
                     case Throws(e) => FaultOf(e))
  {
    match how
    case Returns(v) => if p.ty != VoidTy then ReturnValue(p, v) else ReturnVoid(p)
    case ReturnsVoid => if p.ty == VoidTy then ReturnVoid(p) else p.(isValue := true)
    case Throws(e) => UnhandledException(p, e)
  }

  /** The task a suspended frame waits for. */
  function Target(f: Frame): Option<TaskId>
  {
    match f.body
    case External(aw) => aw
    case JoinAll(ms, next, _) => if !f.finished && next < |ms| then Some(ms[next]) else None
  }

  function Unfinished(w: World): set<TaskId>
  {
    set x | x in w.frames && !w.frames[x].finished
  }

  /** Members a join frame has still to await. */
  function Remaining(w: World, j: TaskId): nat
  {
    if j in w.frames && w.frames[j].body.JoinAll? && w.frames[j].body.next <= |w.frames[j].body.members|
    then |w.frames[j].body.members| - w.frames[j].body.next
    else 0
  }

  function SetFrame(w: World, x: TaskId, f: Frame): World
  {
    w.(frames := w.frames[x := f])
  }

  lemma SameUnfinished(w: World, x: TaskId, f: Frame)
    requires x in w.frames && f.finished == w.frames[x].finished
    ensures Unfinished(SetFrame(w, x, f)) == Unfinished(w)
  {
  }

  lemma FinishShrinks(w: World, x: TaskId, f: Frame)
    requires x in w.frames && !w.frames[x].finished && f.finished
    ensures Unfinished(SetFrame(w, x, f)) == Unfinished(w) - {x}
    ensures |Unfinished(SetFrame(w, x, f))| < |Unfinished(w)|
  {
    assert x in Unfinished(w);
    assert Unfinished(SetFrame(w, x, f)) == Unfinished(w) - {x};
  }

  /**
   * Frame `x` ends its body: the completion is recorded in the promise,
   * then `final_suspend` empties the continuation slot and, if it held a
   * frame, resumes that frame before returning.
   */
  function Finish(policy: Policy, w: World, x: TaskId, how: Completion): (r: (World, seq<Signal>))
    ensures x !in w.frames || w.frames[x].finished ==> r == (w, [])
    ensures x in w.frames && !w.frames[x].finished ==>
      var hr := w.frames[x].promise.hr;
      && |r.1| >= 1 && r.1[0] == Completed(x)
      && (hr.None? ==>
            && r.1 == [Completed(x)] && x in r.0.frames && r.0.frames[x].finished
            && Observe(r.0.frames[x].promise) == Observe(Settle(w.frames[x].promise, how)))
      && (hr.Some? ==> |r.1| >= 2 && r.1[1] == Resumed(hr.value, x))
    decreases |Unfinished(w)|, 0, 0
  {
    if x !in w.frames || w.frames[x].finished then (w, [])
    else
      var f := w.frames[x];
      var fs := FinalSuspend(Settle(f.promise, how));
      var w1 := SetFrame(w, x, f.(promise := fs.0, finished := true));
      FinishShrinks(w, x, f.(promise := fs.0, finished := true));
      match fs.1
      case None => (w1, [Completed(x)])
      case Some(j) =>
        var rest := Resume(policy, w1, j, x);
        (rest.0, [Completed(x), Resumed(j, x)] + rest.1)
  }

  /**
   * The continuation `j` stored in `x`'s slot is invoked. Its pending
   * `co_await` on `x` finishes with `await_resume`; a join frame then goes
   * on with its next member.
   */
  function Resume(policy: Policy, w: World, j: TaskId, x: TaskId): (r: (World, seq<Signal>))
    ensures !Waits(w, j, x) ==> r == (w, [Stray(j, x)])
    ensures Waits(w, j, x) ==> |r.1| >= 1 && r.1[0] == Delivered(j, x, AwaitResume(w.frames[x].promise).1)
    ensures Waits(w, j, x) && w.frames[j].body.External? ==>
              && r.1 == [Delivered(j, x, AwaitResume(w.frames[x].promise).1)]
              && j in r.0.frames && !r.0.frames[j].finished && r.0.frames[j].body == External(None)
    decreases |Unfinished(w)|, Remaining(w, j), 3
  {
    if !Waits(w, j, x) then
      (w, [Stray(j, x)])
    else
      match w.frames[j].body
      case External(_) =>
        var ar := AwaitResume(w.frames[x].promise);
        var w1 := SetFrame(w, x, w.frames[x].(promise := ar.0));
        var w2 := SetFrame(w1, j, w1.frames[j].(body := External(None)));
        (w2, [Delivered(j, x, ar.1)])
      case JoinAll(_, _, _) =>
        JoinTake(policy, w, j)
  }

  /**
   * The join frame `j` finishes its `co_await` on its current member:
   * `await_resume` either yields the member's result, stored in the next
   * tuple slot, or rethrows the member's fault, which escapes the join's
   * body and completes the join.
   */
  function JoinTake(policy: Policy, w: World, j: TaskId): (r: (World, seq<Signal>))
    ensures !JoinWaiting(w, j) ==> r == (w, [])
    ensures JoinWaiting(w, j) ==>
      var m := CurrentMember(w, j);
      var taken := AwaitResume(w.frames[m].promise).1;
      && |r.1| >= 1 && r.1[0] == Delivered(j, m, taken)
      && (taken.Failure? ==>
            && |r.1| >= 2 && r.1[1] == Completed(j)
            && (w.frames[j].promise.hr.None? ==>
                  && |r.1| == 2 && j in r.0.frames && r.0.frames[j].finished
                  && Observe(r.0.frames[j].promise) == FaultOf(taken.error))
            && (w.frames[j].promise.hr.Some? ==> |r.1| >= 3 && r.1[2] == Resumed(w.frames[j].promise.hr.value, j)))
    decreases |Unfinished(w)|, Remaining(w, j), 1
  {
    if !JoinWaiting(w, j) then (w, [])
    else
      var b := w.frames[j].body;
      var m := CurrentMember(w, j);
      var ar := AwaitResume(w.frames[m].promise);
      var w1 := SetFrame(w, m, w.frames[m].(promise := ar.0));
      SameUnfinished(w, m, w.frames[m].(promise := ar.0));
      match ar.1
      case Success(v) =>
        var w2 := SetFrame(w1, j, w1.frames[j].(body := JoinAll(b.members, b.next + 1, b.acc + [v])));
        SameUnfinished(w1, j, w1.frames[j].(body := JoinAll(b.members, b.next + 1, b.acc + [v])));
        var rest := JoinAdvance(policy, w2, j);
        (rest.0, [Delivered(j, m, ar.1)] + rest.1)
      case Failure(e) =>
        var rest := Finish(policy, w1, j, Throws(e));
        (rest.0, [Delivered(j, m, ar.1)] + rest.1)
  }

  /**
   * The join frame `j` reaches its next `co_await`: a ready member is taken
   * at once; otherwise `await_suspend` stores `j` in the member's slot and
   * the join suspends. With every member taken, the join returns the tuple.
   */
  function JoinAdvance(policy: Policy, w: World, j: TaskId): (r: (World, seq<Signal>))
    ensures && j in w.frames && !w.frames[j].finished && w.frames[j].body.JoinAll?
            && w.frames[j].body.next == |w.frames[j].body.members| ==>
              |r.1| >= 1 && r.1[0] == Completed(j)
    ensures JoinWaiting(w, j) && Ready(policy, w.frames[CurrentMember(w, j)].promise) ==>
              var m := CurrentMember(w, j);
              |r.1| >= 1 && r.1[0] == Delivered(j, m, AwaitResume(w.frames[m].promise).1)
    ensures JoinWaiting(w, j) && !Ready(policy, w.frames[CurrentMember(w, j)].promise) ==>
              var m := CurrentMember(w, j);
              && r.1 == [Registered(j, m)] && m in r.0.frames && r.0.frames[m].promise.hr == Some(j)
              && Observe(r.0.frames[m].promise) == Observe(w.frames[m].promise)
    decreases |Unfinished(w)|, Remaining(w, j), 2
  {
    if j !in w.frames || w.frames[j].finished || !w.frames[j].body.JoinAll? then (w, [])
    else
      var b := w.frames[j].body;
      if b.next > |b.members| then (w, [])
      else if b.next == |b.members| then Finish(policy, w, j, Returns(Tuple(b.acc)))
      else
        var m := b.members[b.next];
        if m !in w.frames then (w, [])
        else if Ready(policy, w.frames[m].promise) then JoinTake(policy, w, j)
        else
          var p := AwaitSuspend(Handle(Some(m)), w.frames[m].promise, j);
          (SetFrame(w, m, w.frames[m].(promise := p)), [Registered(j, m)])
  }

  /** Frame `j` is live and suspended on frame `x`. */
  predicate Waits(w: World, j: TaskId, x: TaskId)
  {
    x in w.frames && j in w.frames && !w.frames[j].finished && Target(w.frames[j]) == Some(x)
  }

  /** `j` is a live join whose current member is a frame. */
  predicate JoinWaiting(w: World, j: TaskId)
  {
    && j in w.frames && !w.frames[j].finished && w.frames[j].body.JoinAll?
    && w.frames[j].body.next < |w.frames[j].body.members|
    && w.frames[j].body.members[w.frames[j].body.next] in w.frames
  }

  /** The member the join `j` is awaiting. */
  function CurrentMember(w: World, j: TaskId): TaskId
    requires JoinWaiting(w, j)
  {
    w.frames[j].body.members[w.frames[j].body.next]
  }

  /** The result type of `wait_for_all` over frames `ms`: the tuple of their converted result types. */
  function JoinType(w: World, ms: seq<TaskId>): Ty
  {
    TupleTy(seq(|ms|, i requires 0 <= i < |ms| =>
      if ms[i] in w.frames then VoidTypeConverter(w.frames[ms[i]].promise.ty) else PlaceholderTy))
  }

  /** The empty world. */
  function Empty(): World
  {
    World(map[], 0)
  }

  /**
   * One event. `None` means the event cannot happen at this point (a body
   * that is suspended or already over cannot return or await; a `void`
   * coroutine cannot return a value; a null handle cannot be awaited).
   */
  function Step(policy: Policy, w: World, ev: Event): (r: Option<(World, seq<Signal>)>)
    ensures ev.Create? ==> (r.Some? <==> ev.first.None? || Fits(ev.ty, ev.first.value))
    ensures ev.Create? && ev.first.None? ==>
              && r.value.1 == [] && r.value.0.nextId == w.nextId + 1 && w.nextId in r.value.0.frames
              && !r.value.0.frames[w.nextId].finished && Observe(r.value.0.frames[w.nextId].promise) == NoResult
    ensures ev.Create? && ev.first.Some? && r.Some? ==>
              && r.value.1 == [Completed(w.nextId)] && w.nextId in r.value.0.frames
              && r.value.0.frames[w.nextId].finished
              && Observe(r.value.0.frames[w.nextId].promise) == Observe(Settle(NewPromise(ev.ty), ev.first.value))
    ensures ev.Complete? ==>
              (r.Some? <==> && ev.task in w.frames && !w.frames[ev.task].finished
                            && w.frames[ev.task].body == External(None)
                            && Fits(w.frames[ev.task].promise.ty, ev.how))
    ensures ev.Complete? && r.Some? ==> |r.value.1| >= 1 && r.value.1[0] == Completed(ev.task)
    ensures ev.Await? ==>
              (r.Some? <==> && ev.task in w.frames && !w.frames[ev.task].finished
                            && w.frames[ev.task].body == External(None) && ev.on in w.frames)
    ensures ev.Await? && r.Some? && Ready(policy, w.frames[ev.on].promise) ==>
              r.value.1 == [Delivered(ev.task, ev.on, AwaitResume(w.frames[ev.on].promise).1)]
    ensures ev.Await? && r.Some? && !Ready(policy, w.frames[ev.on].promise) ==>
              && r.value.1 == [Registered(ev.task, ev.on)]
              && ev.task in r.value.0.frames && r.value.0.frames[ev.task].body == External(Some(ev.on))
              && ev.on in r.value.0.frames && r.value.0.frames[ev.on].promise.hr == Some(ev.task)
    ensures ev.WaitForAll? ==> (r.Some? <==> forall i :: 0 <= i < |ev.members| ==> ev.members[i] in w.frames)
    ensures ev.WaitForAll? && r.Some? && |ev.members| == 0 ==>
              |r.value.1| >= 1 && r.value.1[0] == Completed(w.nextId)
  {
    match ev
    case Create(ty, first) =>
      var id := w.nextId;
      var w1 := World(w.frames[id := Frame(NewPromise(ty), false, External(None))], w.nextId + 1);
      if first.None? then Some((w1, []))
      else if Fits(ty, first.value) then Some(Finish(policy, w1, id, first.value))
      else None
    case Complete(t, how) =>
      if t in w.frames && !w.frames[t].finished && w.frames[t].body == External(None)
         && Fits(w.frames[t].promise.ty, how)
      then Some(Finish(policy, w, t, how))
      else None
    case Await(t, on) =>
      if t in w.frames && !w.frames[t].finished && w.frames[t].body == External(None) && on in w.frames then
        if Ready(policy, w.frames[on].promise) then
          var ar := AwaitResume(w.frames[on].promise);
          Some((SetFrame(w, on, w.frames[on].(promise := ar.0)), [Delivered(t, on, ar.1)]))
        else
          var w1 := SetFrame(w, on, w.frames[on].(promise := AwaitSuspend(Handle(Some(on)), w.frames[on].promise, t)));
          Some((SetFrame(w1, t, w1.frames[t].(body := External(Some(on)))), [Registered(t, on)]))
      else None
    case WaitForAll(ms) =>
      if forall i :: 0 <= i < |ms| ==> ms[i] in w.frames then
        var id := w.nextId;
        var f := Frame(NewPromise(JoinType(w, ms)), false, JoinAll(ms, 0, []));
        Some(JoinAdvance(policy, World(w.frames[id := f], w.nextId + 1), id))
      else None
  }

  /** A sequence of events from `w`, with every signal in order; `None` if some event cannot happen. */
  function Run(policy: Policy, w: World, evs: seq<Event>): Option<(World, seq<Signal>)>
    decreases |evs|
  {
    if |evs| == 0 then Some((w, []))
    else
      match Step(policy, w, evs[0])
      case None => None
      case Some(first) =>
        match Run(policy, first.0, evs[1..])
        case None => None
        case Some(rest) => Some((rest.0, first.1 + rest.1))
  }
}
