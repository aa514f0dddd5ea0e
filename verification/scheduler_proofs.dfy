/**
 * Properties of the task world: the invariant every reachable world keeps,
 * and what every run from the empty world guarantees: each frame completes
 * at most once, resumes its continuation at most once, hands its fault to
 * at most one awaiter, never resumes a frame that is not suspended on it,
 * and a completed `wait_for_all` holds its members' results in order.
 */
module SchedulerProofs {
  import opened Wrappers
  import opened Awaitable
  import opened Scheduler

  // ---------------------------------------------------------------------
  // Counting signals
  // ---------------------------------------------------------------------

  datatype Kind = KCompleted | KResumedBy | KFaultFrom | KStray

  predicate Matches(s: Signal, x: TaskId, k: Kind)
  {
    match k
    case KCompleted => s.Completed? && s.task == x
    case KResumedBy => s.Resumed? && s.resumer == x
    case KFaultFrom => s.Delivered? && s.source == x && s.result.Failure?
    case KStray => s.Stray? && s.task == x
  }

  /** How many signals of kind `k` concern frame `x`. */
  function Occ(sigs: seq<Signal>, x: TaskId, k: Kind): nat
  {
    if |sigs| == 0 then 0 else (if Matches(sigs[0], x, k) then 1 else 0) + Occ(sigs[1..], x, k)
  }

  lemma {:induction false} OccConcat(a: seq<Signal>, b: seq<Signal>, x: TaskId, k: Kind)
    ensures Occ(a + b, x, k) == Occ(a, x, k) + Occ(b, x, k)
  {
    if |a| > 0 {
      assert (a + b)[0] == a[0];
      assert (a + b)[1..] == a[1..] + b;
      OccConcat(a[1..], b, x, k);
    } else {
      assert a + b == b;
    }
  }

  function Fin(w: World, x: TaskId): nat
  {
    if x in w.frames && w.frames[x].finished then 1 else 0
  }

  function Pending(w: World, x: TaskId): nat
  {
    if x in w.frames && w.frames[x].promise.ePending.Some? then 1 else 0
  }

  /** What a frame keeps for ever: its type, and once finished, its outcome and body. */
  predicate Stable(f: Frame, f': Frame)
  {
    && f'.promise.ty == f.promise.ty
    && (f.finished ==>
          && f'.finished
          && f'.promise.isValue == f.promise.isValue
          && f'.promise.value == f.promise.value
          && f'.body == f.body)
  }

  predicate Grows(w: World, w': World)
  {
    && w.nextId <= w'.nextId
    && forall x :: x in w.frames ==> x in w'.frames && Stable(w.frames[x], w'.frames[x])
  }

  /**
   * Completion signals are exactly the newly finished frames; resumptions
   * and fault deliveries by a frame are bounded by its finishing.
   */
  ghost predicate Counts(w: World, w': World, sigs: seq<Signal>)
  {
    && (forall x :: Occ(sigs, x, KCompleted) + Fin(w, x) == Fin(w', x))
    && (forall x :: Occ(sigs, x, KResumedBy) + Fin(w, x) <= Fin(w', x))
    && (forall x :: Occ(sigs, x, KFaultFrom) + Pending(w', x) <= Pending(w, x) + Fin(w', x) - Fin(w, x))
  }

  predicate NoStray(sigs: seq<Signal>)
  {
    forall i :: 0 <= i < |sigs| ==> !sigs[i].Stray?
  }

  lemma GrowsRefl(w: World)
    ensures Grows(w, w)
  {
  }

  lemma Chain(w0: World, w1: World, w2: World, s1: seq<Signal>, s2: seq<Signal>)
    requires Grows(w0, w1) && Counts(w0, w1, s1) && NoStray(s1)
    requires Grows(w1, w2) && Counts(w1, w2, s2) && NoStray(s2)
    ensures Grows(w0, w2) && Counts(w0, w2, s1 + s2) && NoStray(s1 + s2)
  {
    forall x
      ensures Occ(s1 + s2, x, KCompleted) == Occ(s1, x, KCompleted) + Occ(s2, x, KCompleted)
      ensures Occ(s1 + s2, x, KResumedBy) == Occ(s1, x, KResumedBy) + Occ(s2, x, KResumedBy)
      ensures Occ(s1 + s2, x, KFaultFrom) == Occ(s1, x, KFaultFrom) + Occ(s2, x, KFaultFrom)
    {
      OccConcat(s1, s2, x, KCompleted);
      OccConcat(s1, s2, x, KResumedBy);
      OccConcat(s1, s2, x, KFaultFrom);
    }
  }

  // ---------------------------------------------------------------------
  // The invariant
  // ---------------------------------------------------------------------

  predicate FreshIds(w: World)
  {
    forall x :: x in w.frames ==> x < w.nextId
  }

  /** A slot of frame `x` holding `j` is sound: `j` is live and suspended on `x`. */
  predicate HolderOk(w: World, x: TaskId, j: TaskId)
  {
    j in w.frames && !w.frames[j].finished && Target(w.frames[j]) == Some(x)
  }

  predicate SlotsOk(w: World)
  {
    forall x :: x in w.frames && w.frames[x].promise.hr.Some? ==> HolderOk(w, x, w.frames[x].promise.hr.value)
  }

  /** No continuation slot holds `j`. */
  predicate NotHeld(w: World, j: TaskId)
  {
    forall y :: y in w.frames ==> w.frames[y].promise.hr != Some(j)
  }

  /** A running frame has no outcome; value and fault are never both recorded; values are well typed. */
  predicate OutcomeOk(f: Frame)
  {
    && (!f.finished ==> !f.promise.isValue && f.promise.ePending.None?)
    && !(f.promise.isValue && f.promise.ePending.Some?)
    && (f.promise.isValue && f.promise.ty != VoidTy ==> HasType(f.promise.value, f.promise.ty))
  }

  /**
   * A join frame: the first `next` members have delivered values, stored in
   * order in `acc` (the placeholder for `void` members); a join that
   * returned holds the tuple of all of them; a join that failed stopped at a
   * finished member without a value.
   */
  predicate JoinOk(w: World, x: TaskId)
    requires x in w.frames && w.frames[x].body.JoinAll?
  {
    var f := w.frames[x];
    var ms := f.body.members;
    var next := f.body.next;
    var acc := f.body.acc;
    && next <= |ms|
    && |acc| == next
    && (forall i :: 0 <= i < |ms| ==> ms[i] in w.frames && ms[i] < x)
    && f.promise.ty == JoinType(w, ms)
    && (forall i :: 0 <= i < next ==> w.frames[ms[i]].promise.isValue && acc[i] == Get(w.frames[ms[i]].promise))
    && (f.finished && f.promise.isValue ==> next == |ms| && f.promise.value == Tuple(acc))
    && (f.finished && !f.promise.isValue ==>
          next < |ms| && w.frames[ms[next]].finished && !w.frames[ms[next]].promise.isValue)
  }

  predicate BodyOk(w: World, x: TaskId)
    requires x in w.frames
  {
    match w.frames[x].body
    case External(aw) => aw.Some? ==> aw.value in w.frames && !w.frames[x].finished
    case JoinAll(_, _, _) => JoinOk(w, x)
  }

  predicate FramesOk(w: World)
  {
    forall x :: x in w.frames ==> OutcomeOk(w.frames[x]) && BodyOk(w, x)
  }

  predicate Inv(w: World)
  {
    FreshIds(w) && SlotsOk(w) && FramesOk(w)
  }

  lemma EmptyInv()
    ensures Inv(Empty())
  {
  }

  // ---------------------------------------------------------------------
  // Frame updates that leave other frames' obligations alone
  // ---------------------------------------------------------------------

  /** Same type, value flag, value and finished flag. */
  predicate SameOutcome(f: Frame, f': Frame)
  {
    && f'.promise.ty == f.promise.ty
    && f'.promise.isValue == f.promise.isValue
    && f'.promise.value == f.promise.value
    && f'.finished == f.finished
  }

  lemma JoinTypeSame(w: World, w': World, ms: seq<TaskId>)
    requires forall i :: 0 <= i < |ms| ==>
      ms[i] in w.frames && ms[i] in w'.frames && w'.frames[ms[i]].promise.ty == w.frames[ms[i]].promise.ty
    ensures JoinType(w', ms) == JoinType(w, ms)
  {
  }

  /**
   * Replacing frame `x` by `f'` with the same outcome keeps the body
   * obligation of `y`, provided `y`'s own body is not the thing replaced.
   */
  lemma KeepBody(w: World, x: TaskId, f': Frame, y: TaskId)
    requires x in w.frames && SameOutcome(w.frames[x], f')
    requires y in w.frames && BodyOk(w, y)
    requires y != x || f'.body == w.frames[x].body
    ensures BodyOk(SetFrame(w, x, f'), y)
  {
    var w' := SetFrame(w, x, f');
    if w.frames[y].body.JoinAll? {
      var ms := w.frames[y].body.members;
      JoinTypeSame(w, w', ms);
    }
  }

  lemma KeepBodies(w: World, x: TaskId, f': Frame)
    requires x in w.frames && SameOutcome(w.frames[x], f') && FramesOk(w)
    requires OutcomeOk(f')
    requires f'.body == w.frames[x].body || BodyOk(SetFrame(w, x, f'), x)
    ensures FramesOk(SetFrame(w, x, f'))
  {
    var w' := SetFrame(w, x, f');
    forall y | y in w'.frames
      ensures OutcomeOk(w'.frames[y]) && BodyOk(w', y)
    {
      if y != x || f'.body == w.frames[x].body {
        KeepBody(w, x, f', y);
      }
    }
  }

  /**
   * Replacing frame `x` keeps every slot sound when no slot holds `x` or
   * `x` still waits for the same task, and `x`'s own slot is sound.
   */
  lemma KeepSlots(w: World, x: TaskId, f': Frame)
    requires x in w.frames && SlotsOk(w)
    requires NotHeld(w, x) || (f'.finished == w.frames[x].finished && Target(f') == Target(w.frames[x]))
    requires f'.promise.hr.Some? ==> HolderOk(SetFrame(w, x, f'), x, f'.promise.hr.value)
    ensures SlotsOk(SetFrame(w, x, f'))
  {
  }

  // ---------------------------------------------------------------------
  // Frames nobody will resume
  // ---------------------------------------------------------------------

  /**
   * A user frame suspended on a task, whose only holders (if any) are slots
   * of frames that have already passed their final suspension point: no
   * `final_suspend` will ever resume it.
   */
  predicate Orphan(w: World, t: TaskId)
  {
    && t in w.frames && !w.frames[t].finished
    && w.frames[t].body.External? && w.frames[t].body.awaiting.Some?
    && forall y :: y in w.frames && w.frames[y].promise.hr == Some(t) ==> w.frames[y].finished
  }

  /** Every orphan of `w` other than `except` is still an orphan, waiting on the same task, in `w'`. */
  ghost predicate KeepsOrphans(w: World, w': World, except: Option<TaskId>)
  {
    forall t: TaskId :: Orphan(w, t) && except != Some(t) ==> Orphan(w', t) && w'.frames[t].body == w.frames[t].body
  }

  /** The facts every step of the world establishes. */
  ghost predicate Effect(w: World, r: (World, seq<Signal>))
  {
    Inv(r.0) && Grows(w, r.0) && Counts(w, r.0, r.1) && NoStray(r.1)
  }

  lemma ChainEffect(w0: World, w1: World, s1: seq<Signal>, r: (World, seq<Signal>), e1: Option<TaskId>, e2: Option<TaskId>, e: Option<TaskId>)
    requires Effect(w0, (w1, s1)) && KeepsOrphans(w0, w1, e1)
    requires Effect(w1, r) && KeepsOrphans(w1, r.0, e2)
    requires forall t: TaskId :: Orphan(w0, t) && e != Some(t) ==> e1 != Some(t) && e2 != Some(t)
    ensures Effect(w0, (r.0, s1 + r.1)) && KeepsOrphans(w0, r.0, e)
  {
    Chain(w0, w1, r.0, s1, r.1);
  }

  /** No slot holds a frame that waits for nothing. */
  lemma NotHeldIdle(w: World, t: TaskId)
    requires Inv(w) && t in w.frames && Target(w.frames[t]).None?
    ensures NotHeld(w, t)
  {
  }

  // ---------------------------------------------------------------------
  // The elementary updates
  // ---------------------------------------------------------------------

  /** What `Finish` may assume about the frame it ends. */
  predicate CanFinish(w: World, x: TaskId, how: Completion)
  {
    && x in w.frames && !w.frames[x].finished && NotHeld(w, x)
    && Fits(w.frames[x].promise.ty, how)
    && match w.frames[x].body
       case External(aw) => aw.None?
       case JoinAll(ms, next, acc) =>
         match how
         case Returns(v) => next == |ms| && v == Tuple(acc)
         case ReturnsVoid => false
         case Throws(_) =>
           next < |ms| && ms[next] in w.frames && w.frames[ms[next]].finished && !w.frames[ms[next]].promise.isValue
  }

  function Finished(w: World, x: TaskId, how: Completion): World
    requires x in w.frames
  {
    var f := w.frames[x];
    SetFrame(w, x, f.(promise := FinalSuspend(Settle(f.promise, how)).0, finished := true))
  }

  lemma FinishedFrames(w: World, x: TaskId, how: Completion)
    requires Inv(w) && CanFinish(w, x, how)
    ensures FramesOk(Finished(w, x, how))
  {
    var f := w.frames[x];
    var f1 := f.(promise := FinalSuspend(Settle(f.promise, how)).0, finished := true);
    var w1 := Finished(w, x, how);
    assert OutcomeOk(f1);
    forall y | y in w1.frames
      ensures OutcomeOk(w1.frames[y]) && BodyOk(w1, y)
    {
      if w1.frames[y].body.JoinAll? {
        var ms := w1.frames[y].body.members;
        JoinTypeSame(w, w1, ms);
        assert JoinOk(w1, y);
      }
    }
  }

  lemma FinishedOrphans(w: World, x: TaskId, how: Completion)
    requires Inv(w) && CanFinish(w, x, how)
    ensures KeepsOrphans(w, Finished(w, x, how), None)
  {
  }

  /** Ending a body records its outcome, and no other frame's obligation breaks. */
  lemma FinishedOk(w: World, x: TaskId, how: Completion)
    requires Inv(w) && CanFinish(w, x, how)
    ensures Inv(Finished(w, x, how)) && Grows(w, Finished(w, x, how))
    ensures KeepsOrphans(w, Finished(w, x, how), None)
    ensures Finished(w, x, how).frames[x].promise.isValue || Finished(w, x, how).frames[x].promise.ePending.Some?
  {
    var f := w.frames[x];
    var f1 := f.(promise := FinalSuspend(Settle(f.promise, how)).0, finished := true);
    assert Finished(w, x, how) == SetFrame(w, x, f1);
    KeepSlots(w, x, f1);
    FinishedFrames(w, x, how);
    FinishedOrphans(w, x, how);
  }

  /** A registration signal counts as nothing, against a world whose frames kept their finishing and faults. */
  lemma RegisteredCounts(w: World, w1: World, t: TaskId, on: TaskId)
    requires forall y :: Fin(w1, y) == Fin(w, y) && Pending(w1, y) == Pending(w, y)
    ensures Counts(w, w1, [Registered(t, on)]) && NoStray([Registered(t, on)])
  {
    forall y
      ensures Occ([Registered(t, on)], y, KCompleted) == 0
      ensures Occ([Registered(t, on)], y, KResumedBy) == 0
      ensures Occ([Registered(t, on)], y, KFaultFrom) == 0
    {
      OccSingle(Registered(t, on), y, KCompleted);
      OccSingle(Registered(t, on), y, KResumedBy);
      OccSingle(Registered(t, on), y, KFaultFrom);
    }
  }

  function Consumed(w: World, x: TaskId): World
    requires x in w.frames
  {
    SetFrame(w, x, w.frames[x].(promise := AwaitResume(w.frames[x].promise).0))
  }

  lemma ConsumedInv(w: World, x: TaskId)
    requires Inv(w) && x in w.frames
    ensures Inv(Consumed(w, x)) && Grows(w, Consumed(w, x))
    ensures forall y :: NotHeld(w, y) ==> NotHeld(Consumed(w, x), y)
  {
    var f1 := w.frames[x].(promise := AwaitResume(w.frames[x].promise).0);
    KeepSlots(w, x, f1);
    KeepBodies(w, x, f1);
  }

  lemma ConsumedCounts(w: World, t: TaskId, x: TaskId)
    requires x in w.frames
    ensures var sigs := [Delivered(t, x, AwaitResume(w.frames[x].promise).1)];
            Counts(w, Consumed(w, x), sigs) && NoStray(sigs)
  {
    var w1 := Consumed(w, x);
    var sigs := [Delivered(t, x, AwaitResume(w.frames[x].promise).1)];
    forall y
      ensures Occ(sigs, y, KCompleted) == 0 && Occ(sigs, y, KResumedBy) == 0
      ensures Occ(sigs, y, KFaultFrom) + Pending(w1, y) <= Pending(w, y)
      ensures Fin(w1, y) == Fin(w, y)
    {
      assert sigs[1..] == [];
    }
  }

  /** `await_resume` on `x` only clears `x`'s pending fault. */
  lemma ConsumedOk(w: World, t: TaskId, x: TaskId)
    requires Inv(w) && x in w.frames
    ensures Effect(w, (Consumed(w, x), [Delivered(t, x, AwaitResume(w.frames[x].promise).1)]))
    ensures KeepsOrphans(w, Consumed(w, x), None)
    ensures forall y :: NotHeld(w, y) ==> NotHeld(Consumed(w, x), y)
  {
    ConsumedInv(w, x);
    ConsumedCounts(w, t, x);
  }

  function Registering(w: World, j: TaskId, m: TaskId): World
    requires m in w.frames
  {
    SetFrame(w, m, w.frames[m].(promise := AwaitSuspend(Handle(Some(m)), w.frames[m].promise, j)))
  }

  lemma RegisteredInv(w: World, j: TaskId, m: TaskId)
    requires Inv(w) && m in w.frames && HolderOk(w, m, j)
    ensures Inv(Registering(w, j, m)) && Grows(w, Registering(w, j, m))
    ensures forall y :: Fin(Registering(w, j, m), y) == Fin(w, y) && Pending(Registering(w, j, m), y) == Pending(w, y)
  {
    var f1 := w.frames[m].(promise := AwaitSuspend(Handle(Some(m)), w.frames[m].promise, j));
    KeepSlots(w, m, f1);
    KeepBodies(w, m, f1);
  }

  lemma RegisteredOrphans(w: World, j: TaskId, m: TaskId)
    requires m in w.frames && !Orphan(w, j)
    ensures KeepsOrphans(w, Registering(w, j, m), None)
  {
  }

  /** `await_suspend` stores `j` in `m`'s slot; sound when `j` waits for `m`. */
  lemma RegisteredOk(w: World, j: TaskId, m: TaskId)
    requires Inv(w) && m in w.frames && HolderOk(w, m, j) && !Orphan(w, j)
    ensures var w1 := SetFrame(w, m, w.frames[m].(promise := AwaitSuspend(Handle(Some(m)), w.frames[m].promise, j)));
            Effect(w, (w1, [Registered(j, m)])) && KeepsOrphans(w, w1, None)
  {
    RegisteredInv(w, j, m);
    RegisteredOrphans(w, j, m);
    RegisteredCounts(w, Registering(w, j, m), j, m);
  }

  /** What a new body for the live frame `j`, which no slot holds, may be. */
  predicate RebodyOk(w: World, j: TaskId, b: Body)
  {
    && Inv(w) && j in w.frames && !w.frames[j].finished && NotHeld(w, j)
    && (b.External? ==> b.awaiting.None? || b.awaiting.value in w.frames)
    && (b.JoinAll? ==> w.frames[j].body.JoinAll? && JoinOk(SetFrame(w, j, w.frames[j].(body := b)), j))
  }

  lemma RebodiedInv(w: World, j: TaskId, b: Body)
    requires RebodyOk(w, j, b)
    ensures Inv(SetFrame(w, j, w.frames[j].(body := b)))
  {
    var f1 := w.frames[j].(body := b);
    KeepSlots(w, j, f1);
    KeepBodies(w, j, f1);
  }

  lemma RebodiedSame(w: World, j: TaskId, b: Body)
    requires RebodyOk(w, j, b)
    ensures var w1 := SetFrame(w, j, w.frames[j].(body := b));
            Grows(w, w1) && Counts(w, w1, []) && NoStray([]) && NotHeld(w1, j)
  {
  }

  lemma RebodiedOrphans(w: World, j: TaskId, b: Body)
    requires RebodyOk(w, j, b)
    ensures KeepsOrphans(w, SetFrame(w, j, w.frames[j].(body := b)), Some(j))
  {
  }

  /** Giving a running frame nobody holds a new body keeps the invariant and emits nothing. */
  lemma RebodiedOk(w: World, j: TaskId, b: Body)
    requires RebodyOk(w, j, b)
    ensures var w1 := SetFrame(w, j, w.frames[j].(body := b));
            Effect(w, (w1, [])) && KeepsOrphans(w, w1, Some(j)) && NotHeld(w1, j)
  {
    RebodiedInv(w, j, b);
    RebodiedSame(w, j, b);
    RebodiedOrphans(w, j, b);
  }

  /** The signals of a one- or two-signal sequence, counted. */
  lemma OccSingle(s: Signal, y: TaskId, k: Kind)
    ensures Occ([s], y, k) == if Matches(s, y, k) then 1 else 0
  {
    assert [s][1..] == [];
  }

  lemma OccPair(s: Signal, s': Signal, y: TaskId, k: Kind)
    ensures Occ([s, s'], y, k) == (if Matches(s, y, k) then 1 else 0) + (if Matches(s', y, k) then 1 else 0)
  {
    assert [s, s'][1..] == [s'];
    OccSingle(s', y, k);
  }

  lemma CountsCompleted(w: World, w1: World, x: TaskId, j: Option<TaskId>)
    requires Fin(w, x) == 0 && Fin(w1, x) == 1
    requires forall y :: y != x ==> Fin(w1, y) == Fin(w, y) && Pending(w1, y) == Pending(w, y)
    ensures Counts(w, w1, if j.None? then [Completed(x)] else [Completed(x), Resumed(j.value, x)])
  {
    var sigs := if j.None? then [Completed(x)] else [Completed(x), Resumed(j.value, x)];
    forall y
      ensures Occ(sigs, y, KCompleted) == (if y == x then 1 else 0)
      ensures Occ(sigs, y, KResumedBy) <= (if y == x then 1 else 0)
      ensures Occ(sigs, y, KFaultFrom) == 0
    {
      if j.None? {
        OccSingle(Completed(x), y, KCompleted);
        OccSingle(Completed(x), y, KResumedBy);
        OccSingle(Completed(x), y, KFaultFrom);
      } else {
        OccPair(Completed(x), Resumed(j.value, x), y, KCompleted);
        OccPair(Completed(x), Resumed(j.value, x), y, KResumedBy);
        OccPair(Completed(x), Resumed(j.value, x), y, KFaultFrom);
      }
    }
  }

  /** Once every member has delivered, the tuple of their results has the join's type. */
  lemma JoinResultFits(w: World, j: TaskId)
    requires Inv(w) && j in w.frames && w.frames[j].body.JoinAll?
    requires w.frames[j].body.next == |w.frames[j].body.members|
    ensures Fits(w.frames[j].promise.ty, Returns(Tuple(w.frames[j].body.acc)))
  {
    var b := w.frames[j].body;
    assert JoinOk(w, j);
    var ts := JoinType(w, b.members).elems;
    forall i | 0 <= i < |ts|
      ensures HasType(b.acc[i], ts[i])
    {
      var p := w.frames[b.members[i]].promise;
      assert OutcomeOk(w.frames[b.members[i]]);
    }
  }

  // ---------------------------------------------------------------------
  // The resumption chain keeps the invariant
  // ---------------------------------------------------------------------

  /** The continuation `final_suspend` hands back is a live frame suspended on `x` that nothing else holds. */
  lemma FinishedResumes(w: World, x: TaskId, how: Completion)
    requires Inv(w) && CanFinish(w, x, how)
    requires FinalSuspend(Settle(w.frames[x].promise, how)).1.Some?
    ensures var j := FinalSuspend(Settle(w.frames[x].promise, how)).1.value;
            var w1 := Finished(w, x, how);
            && HolderOk(w1, x, j) && NotHeld(w1, j) && !Orphan(w, j)
  {
    var j := FinalSuspend(Settle(w.frames[x].promise, how)).1.value;
    var w1 := Finished(w, x, how);
    assert w.frames[x].promise.hr == Some(j);
    assert HolderOk(w, x, j);
    forall y | y in w1.frames
      ensures w1.frames[y].promise.hr != Some(j)
    {
      if y != x {
        assert !HolderOk(w, y, j);
      }
    }
  }

  /** The signals of finishing `x`, resuming `j` if there is one, counted against the finished world. */
  lemma FinishedCounts(w: World, x: TaskId, how: Completion, j: Option<TaskId>)
    requires CanFinish(w, x, how)
    ensures Counts(w, Finished(w, x, how), if j.None? then [Completed(x)] else [Completed(x), Resumed(j.value, x)])
  {
    var w1 := Finished(w, x, how);
    forall y | y != x
      ensures Fin(w1, y) == Fin(w, y) && Pending(w1, y) == Pending(w, y)
    {
    }
    CountsCompleted(w, w1, x, j);
  }

  /** Finishing a frame whose slot is empty. */
  lemma FinishAloneOk(policy: Policy, w: World, x: TaskId, how: Completion)
    requires Inv(w) && CanFinish(w, x, how)
    requires FinalSuspend(Settle(w.frames[x].promise, how)).1.None?
    ensures Effect(w, Finish(policy, w, x, how)) && KeepsOrphans(w, Finish(policy, w, x, how).0, None)
  {
    FinishedOk(w, x, how);
    FinishedCounts(w, x, how, None);
  }

  /** Finishing a frame that resumes `j`, given what the resumption does. */
  lemma FinishChainOk(policy: Policy, w: World, x: TaskId, how: Completion, j: TaskId)
    requires Inv(w) && CanFinish(w, x, how)
    requires FinalSuspend(Settle(w.frames[x].promise, how)).1 == Some(j)
    requires var w1 := Finished(w, x, how);
             Effect(w1, Resume(policy, w1, j, x)) && KeepsOrphans(w1, Resume(policy, w1, j, x).0, Some(j))
    ensures Effect(w, Finish(policy, w, x, how)) && KeepsOrphans(w, Finish(policy, w, x, how).0, None)
  {
    var w1 := Finished(w, x, how);
    FinishedOk(w, x, how);
    FinishedCounts(w, x, how, Some(j));
    FinishedResumes(w, x, how);
    ChainEffect(w, w1, [Completed(x), Resumed(j, x)], Resume(policy, w1, j, x), None, Some(j), None);
  }

  lemma {:induction false} FinishOk(policy: Policy, w: World, x: TaskId, how: Completion)
    requires Inv(w) && CanFinish(w, x, how)
    ensures Effect(w, Finish(policy, w, x, how)) && KeepsOrphans(w, Finish(policy, w, x, how).0, None)
    decreases |Unfinished(w)|, 0, 0
  {
    var fs := FinalSuspend(Settle(w.frames[x].promise, how));
    if fs.1.Some? {
      var w1 := Finished(w, x, how);
      FinishShrinks(w, x, w1.frames[x]);
      FinishedOk(w, x, how);
      FinishedResumes(w, x, how);
      ResumeOk(policy, w1, fs.1.value, x);
      FinishChainOk(policy, w, x, how, fs.1.value);
    } else {
      FinishAloneOk(policy, w, x, how);
    }
  }

  lemma {:induction false} ResumeOk(policy: Policy, w: World, j: TaskId, x: TaskId)
    requires Inv(w) && x in w.frames && w.frames[x].finished
    requires w.frames[x].promise.isValue || w.frames[x].promise.ePending.Some?
    requires HolderOk(w, x, j) && NotHeld(w, j)
    ensures Effect(w, Resume(policy, w, j, x)) && KeepsOrphans(w, Resume(policy, w, j, x).0, Some(j))
    decreases |Unfinished(w)|, Remaining(w, j), 3
  {
    match w.frames[j].body {
      case External(_) =>
        var ar := AwaitResume(w.frames[x].promise);
        var w1 := Consumed(w, x);
        ConsumedOk(w, j, x);
        var w2 := SetFrame(w1, j, w1.frames[j].(body := External(None)));
        RebodiedOk(w1, j, External(None));
        ChainEffect(w, w1, [Delivered(j, x, ar.1)], (w2, []), None, Some(j), Some(j));
        assert [Delivered(j, x, ar.1)] + [] == [Delivered(j, x, ar.1)];
      case JoinAll(_, _, _) =>
        JoinTakeOk(policy, w, j);
    }
  }

  /** What `JoinTake` may assume: a live join nobody holds, whose current member has finished with an outcome. */
  predicate CanTake(w: World, j: TaskId)
  {
    && Inv(w) && j in w.frames && !w.frames[j].finished && w.frames[j].body.JoinAll? && NotHeld(w, j)
    && var b := w.frames[j].body;
       && b.next < |b.members| && b.members[b.next] in w.frames
       && w.frames[b.members[b.next]].finished
       && (w.frames[b.members[b.next]].promise.isValue || w.frames[b.members[b.next]].promise.ePending.Some?)
  }

  /** The member the join `j` is taking. */
  function Member(w: World, j: TaskId): TaskId
    requires CanTake(w, j)
  {
    CurrentMember(w, j)
  }

  /** What `await_resume` on the member hands the join. */
  function Taken(w: World, j: TaskId): Result<Val, Fault>
    requires CanTake(w, j)
  {
    AwaitResume(w.frames[Member(w, j)].promise).1
  }

  /** The world once the join has stored the member's value and moved to the next member. */
  function Advanced(w: World, j: TaskId, v: Val): World
    requires CanTake(w, j)
  {
    var w1 := Consumed(w, Member(w, j));
    var b := w.frames[j].body;
    SetFrame(w1, j, w1.frames[j].(body := JoinAll(b.members, b.next + 1, b.acc + [v])))
  }

  /** Taking the member's outcome clears its fault and leaves the join itself as it was. */
  lemma TakeConsumed(w: World, j: TaskId)
    requires CanTake(w, j)
    ensures var w1 := Consumed(w, Member(w, j));
            && Effect(w, (w1, [Delivered(j, Member(w, j), Taken(w, j))]))
            && KeepsOrphans(w, w1, None)
            && NotHeld(w1, j) && Unfinished(w1) == Unfinished(w)
            && j in w1.frames && w1.frames[j] == w.frames[j]
  {
    assert JoinOk(w, j);
    var m := Member(w, j);
    ConsumedOk(w, j, m);
    SameUnfinished(w, m, Consumed(w, m).frames[m]);
  }

  /** The join's new body, with the member's value appended, satisfies the join obligation. */
  lemma AdvancedJoinOk(w: World, j: TaskId)
    requires CanTake(w, j) && Taken(w, j).Success?
    ensures var w2 := Advanced(w, j, Taken(w, j).value);
            && j in w2.frames && w2.frames[j].body.JoinAll? && JoinOk(w2, j)
  {
    var b := w.frames[j].body;
    assert JoinOk(w, j);
    var w2 := Advanced(w, j, Taken(w, j).value);
    JoinTypeSame(w, w2, b.members);
    assert OutcomeOk(w.frames[Member(w, j)]);
  }

  lemma TakeValueStep(w: World, j: TaskId)
    requires CanTake(w, j) && Taken(w, j).Success?
    ensures var w2 := Advanced(w, j, Taken(w, j).value);
            && Inv(w2) && j in w2.frames && !w2.frames[j].finished && w2.frames[j].body.JoinAll? && NotHeld(w2, j)
            && Unfinished(w2) == Unfinished(w) && Remaining(w2, j) < Remaining(w, j)
            && Effect(w, (w2, [Delivered(j, Member(w, j), Taken(w, j))]))
            && KeepsOrphans(w, w2, None)
  {
    var b := w.frames[j].body;
    var m := Member(w, j);
    var w1 := Consumed(w, m);
    TakeConsumed(w, j);
    AdvancedJoinOk(w, j);
    var b2 := JoinAll(b.members, b.next + 1, b.acc + [Taken(w, j).value]);
    var w2 := SetFrame(w1, j, w1.frames[j].(body := b2));
    SameUnfinished(w1, j, w1.frames[j].(body := b2));
    RebodiedOk(w1, j, b2);
    ChainEffect(w, w1, [Delivered(j, m, Taken(w, j))], (w2, []), None, Some(j), None);
    assert [Delivered(j, m, Taken(w, j))] + [] == [Delivered(j, m, Taken(w, j))];
  }

  lemma TakeValueUnfolds(policy: Policy, w: World, j: TaskId)
    requires CanTake(w, j) && Taken(w, j).Success?
    ensures var w2 := Advanced(w, j, Taken(w, j).value);
            JoinTake(policy, w, j) == (JoinAdvance(policy, w2, j).0, [Delivered(j, Member(w, j), Taken(w, j))] + JoinAdvance(policy, w2, j).1)
  {
  }

  lemma TakeFaultUnfolds(policy: Policy, w: World, j: TaskId)
    requires CanTake(w, j) && Taken(w, j).Failure?
    ensures var r := Finish(policy, Consumed(w, Member(w, j)), j, Throws(Taken(w, j).error));
            JoinTake(policy, w, j) == (r.0, [Delivered(j, Member(w, j), Taken(w, j))] + r.1)
  {
  }

  lemma TakeValueChain(policy: Policy, w: World, j: TaskId)
    requires CanTake(w, j) && Taken(w, j).Success?
    requires var w2 := Advanced(w, j, Taken(w, j).value);
             Effect(w2, JoinAdvance(policy, w2, j)) && KeepsOrphans(w2, JoinAdvance(policy, w2, j).0, None)
    ensures Effect(w, JoinTake(policy, w, j)) && KeepsOrphans(w, JoinTake(policy, w, j).0, None)
  {
    var w2 := Advanced(w, j, Taken(w, j).value);
    TakeValueUnfolds(policy, w, j);
    TakeValueStep(w, j);
    ChainEffect(w, w2, [Delivered(j, Member(w, j), Taken(w, j))], JoinAdvance(policy, w2, j), None, None, None);
  }

  lemma TakeFaultStep(w: World, j: TaskId)
    requires CanTake(w, j) && Taken(w, j).Failure?
    ensures var w1 := Consumed(w, Member(w, j));
            && Inv(w1) && CanFinish(w1, j, Throws(Taken(w, j).error))
            && Unfinished(w1) == Unfinished(w)
            && Effect(w, (w1, [Delivered(j, Member(w, j), Taken(w, j))]))
            && KeepsOrphans(w, w1, None)
  {
    assert JoinOk(w, j);
    TakeConsumed(w, j);
    assert OutcomeOk(w.frames[Member(w, j)]);
  }

  lemma TakeFaultChain(policy: Policy, w: World, j: TaskId)
    requires CanTake(w, j) && Taken(w, j).Failure?
    requires var w1 := Consumed(w, Member(w, j));
             var e := Taken(w, j).error;
             Effect(w1, Finish(policy, w1, j, Throws(e))) && KeepsOrphans(w1, Finish(policy, w1, j, Throws(e)).0, None)
    ensures Effect(w, JoinTake(policy, w, j)) && KeepsOrphans(w, JoinTake(policy, w, j).0, None)
  {
    var w1 := Consumed(w, Member(w, j));
    TakeFaultUnfolds(policy, w, j);
    TakeFaultStep(w, j);
    ChainEffect(w, w1, [Delivered(j, Member(w, j), Taken(w, j))], Finish(policy, w1, j, Throws(Taken(w, j).error)), None, None, None);
  }

  lemma {:induction false} JoinTakeOk(policy: Policy, w: World, j: TaskId)
    requires Inv(w) && j in w.frames && !w.frames[j].finished && w.frames[j].body.JoinAll? && NotHeld(w, j)
    requires var b := w.frames[j].body;
             && b.next < |b.members| && b.members[b.next] in w.frames
             && w.frames[b.members[b.next]].finished
             && (w.frames[b.members[b.next]].promise.isValue || w.frames[b.members[b.next]].promise.ePending.Some?)
    ensures Effect(w, JoinTake(policy, w, j)) && KeepsOrphans(w, JoinTake(policy, w, j).0, None)
    decreases |Unfinished(w)|, Remaining(w, j), 1
  {
    assert CanTake(w, j);
    match Taken(w, j) {
      case Success(v) =>
        TakeValueStep(w, j);
        JoinAdvanceOk(policy, Advanced(w, j, v), j);
        TakeValueChain(policy, w, j);
      case Failure(e) =>
        TakeFaultStep(w, j);
        FinishOk(policy, Consumed(w, Member(w, j)), j, Throws(e));
        TakeFaultChain(policy, w, j);
    }
  }

  lemma {:induction false} JoinAdvanceOk(policy: Policy, w: World, j: TaskId)
    requires Inv(w) && j in w.frames && !w.frames[j].finished && w.frames[j].body.JoinAll? && NotHeld(w, j)
    ensures Effect(w, JoinAdvance(policy, w, j)) && KeepsOrphans(w, JoinAdvance(policy, w, j).0, None)
    decreases |Unfinished(w)|, Remaining(w, j), 2
  {
    var b := w.frames[j].body;
    assert JoinOk(w, j);
    if b.next == |b.members| {
      JoinResultFits(w, j);
      FinishOk(policy, w, j, Returns(Tuple(b.acc)));
    } else {
      var m := b.members[b.next];
      if Ready(policy, w.frames[m].promise) {
        assert OutcomeOk(w.frames[m]);
        JoinTakeOk(policy, w, j);
      } else {
        RegisteredOk(w, j, m);
      }
    }
  }

  // ---------------------------------------------------------------------
  // Events
  // ---------------------------------------------------------------------

  function Added(w: World, f: Frame): World
  {
    World(w.frames[w.nextId := f], w.nextId + 1)
  }

  /** What a new frame may be: running, with an empty promise, and a join over existing frames. */
  predicate NewFrameOk(w: World, f: Frame)
  {
    && !f.finished && f.promise == NewPromise(f.promise.ty)
    && (f.body != External(None) ==>
          && f.body.JoinAll? && f.body.next == 0 && f.body.acc == []
          && (forall i :: 0 <= i < |f.body.members| ==> f.body.members[i] in w.frames)
          && f.promise.ty == JoinType(w, f.body.members))
  }

  lemma AddedFrames(w: World, f: Frame)
    requires Inv(w) && NewFrameOk(w, f)
    ensures FramesOk(Added(w, f))
  {
    var w1 := Added(w, f);
    assert w.nextId !in w.frames;
    forall y | y in w1.frames
      ensures OutcomeOk(w1.frames[y]) && BodyOk(w1, y)
    {
      if w1.frames[y].body.JoinAll? {
        JoinTypeSame(w, w1, w1.frames[y].body.members);
      }
    }
  }

  lemma AddedSame(w: World, f: Frame)
    requires Inv(w) && NewFrameOk(w, f)
    ensures FreshIds(Added(w, f)) && SlotsOk(Added(w, f)) && Grows(w, Added(w, f))
    ensures Counts(w, Added(w, f), []) && NoStray([])
    ensures NotHeld(Added(w, f), w.nextId) && Added(w, f).frames[w.nextId] == f
  {
    assert w.nextId !in w.frames;
  }

  lemma AddedOrphans(w: World, f: Frame)
    requires Inv(w) && NewFrameOk(w, f)
    ensures KeepsOrphans(w, Added(w, f), None)
  {
    assert w.nextId !in w.frames;
  }

  /** A newly called coroutine or `wait_for_all` gets a fresh frame with an empty promise. */
  lemma AddedOk(w: World, f: Frame)
    requires Inv(w) && NewFrameOk(w, f)
    ensures Effect(w, (Added(w, f), [])) && KeepsOrphans(w, Added(w, f), None)
    ensures NotHeld(Added(w, f), w.nextId) && Added(w, f).frames[w.nextId] == f
  {
    AddedFrames(w, f);
    AddedSame(w, f);
    AddedOrphans(w, f);
  }

  function Suspended(w: World, t: TaskId, on: TaskId): World
    requires t in w.frames && on in w.frames
  {
    var w1 := SetFrame(w, on, w.frames[on].(promise := AwaitSuspend(Handle(Some(on)), w.frames[on].promise, t)));
    SetFrame(w1, t, w1.frames[t].(body := External(Some(on))))
  }

  lemma SuspendedSlots(w: World, t: TaskId, on: TaskId)
    requires Inv(w) && t in w.frames && !w.frames[t].finished && w.frames[t].body == External(None)
    requires on in w.frames
    ensures SlotsOk(Suspended(w, t, on))
  {
    var w2 := Suspended(w, t, on);
    NotHeldIdle(w, t);
    assert w2.frames[on].promise.hr == Some(t);
    assert HolderOk(w2, on, t);
    forall y | y in w2.frames && y != on && w2.frames[y].promise.hr.Some?
      ensures HolderOk(w2, y, w2.frames[y].promise.hr.value)
    {
      var j := w.frames[y].promise.hr.value;
      assert HolderOk(w, y, j) && j != t;
    }
  }

  lemma SuspendedOrphans(w: World, t: TaskId, on: TaskId)
    requires Inv(w) && t in w.frames && !w.frames[t].finished && w.frames[t].body == External(None)
    requires on in w.frames
    ensures KeepsOrphans(w, Suspended(w, t, on), None)
  {
    var w2 := Suspended(w, t, on);
    forall o: TaskId | Orphan(w, o)
      ensures Orphan(w2, o) && w2.frames[o].body == w.frames[o].body
    {
      assert o != t;
      forall y | y in w2.frames && w2.frames[y].promise.hr == Some(o)
        ensures w2.frames[y].finished
      {
        assert y != on;
      }
    }
  }

  lemma SuspendedFrames(w: World, t: TaskId, on: TaskId)
    requires Inv(w) && t in w.frames && !w.frames[t].finished && w.frames[t].body == External(None)
    requires on in w.frames
    ensures FramesOk(Suspended(w, t, on))
  {
    var f1 := w.frames[on].(promise := AwaitSuspend(Handle(Some(on)), w.frames[on].promise, t));
    var w1 := SetFrame(w, on, f1);
    KeepBodies(w, on, f1);
    var f2 := w1.frames[t].(body := External(Some(on)));
    KeepBodies(w1, t, f2);
  }

  lemma SuspendedSame(w: World, t: TaskId, on: TaskId)
    requires Inv(w) && t in w.frames && !w.frames[t].finished && w.frames[t].body == External(None)
    requires on in w.frames
    ensures Grows(w, Suspended(w, t, on)) && FreshIds(Suspended(w, t, on))
    ensures forall y :: Fin(Suspended(w, t, on), y) == Fin(w, y) && Pending(Suspended(w, t, on), y) == Pending(w, y)
  {
  }

  /** A running user body awaits a task that is not ready: it registers and suspends. */
  lemma SuspendedOk(w: World, t: TaskId, on: TaskId)
    requires Inv(w) && t in w.frames && !w.frames[t].finished && w.frames[t].body == External(None)
    requires on in w.frames
    ensures Effect(w, (Suspended(w, t, on), [Registered(t, on)])) && KeepsOrphans(w, Suspended(w, t, on), None)
  {
    SuspendedSlots(w, t, on);
    SuspendedOrphans(w, t, on);
    SuspendedFrames(w, t, on);
    SuspendedSame(w, t, on);
    RegisteredCounts(w, Suspended(w, t, on), t, on);
  }

  /** The frame a call creates. */
  function Created(w: World, ev: Event): Frame
    requires ev.Create? || ev.WaitForAll?
  {
    if ev.Create? then Frame(NewPromise(ev.ty), false, External(None))
    else Frame(NewPromise(JoinType(w, ev.members)), false, JoinAll(ev.members, 0, []))
  }

  /** What a call does after adding its frame. */
  function AfterCreate(policy: Policy, w: World, ev: Event): (World, seq<Signal>)
    requires ev.Create? || ev.WaitForAll?
  {
    var w1 := Added(w, Created(w, ev));
    if ev.Create? then
      if ev.first.None? then (w1, []) else Finish(policy, w1, w.nextId, ev.first.value)
    else JoinAdvance(policy, w1, w.nextId)
  }

  lemma CreateUnfolds(policy: Policy, w: World, ev: Event)
    requires (ev.Create? || ev.WaitForAll?) && Step(policy, w, ev).Some?
    ensures Step(policy, w, ev).value == AfterCreate(policy, w, ev)
  {
  }

  lemma AfterCreateOk(policy: Policy, w: World, ev: Event)
    requires Inv(w) && (ev.Create? || ev.WaitForAll?)
    requires ev.WaitForAll? ==> forall i :: 0 <= i < |ev.members| ==> ev.members[i] in w.frames
    requires ev.Create? && ev.first.Some? ==> Fits(ev.ty, ev.first.value)
    ensures Effect(w, AfterCreate(policy, w, ev)) && KeepsOrphans(w, AfterCreate(policy, w, ev).0, None)
  {
    var f := Created(w, ev);
    AddedOk(w, f);
    if ev.Create? && ev.first.None? {
    } else {
      var r := AfterCreate(policy, w, ev);
      if ev.Create? {
        FinishOk(policy, Added(w, f), w.nextId, ev.first.value);
      } else {
        JoinAdvanceOk(policy, Added(w, f), w.nextId);
      }
      ChainEffect(w, Added(w, f), [], r, None, None, None);
      assert [] + r.1 == r.1;
    }
  }

  lemma CompleteOk(policy: Policy, w: World, t: TaskId, how: Completion)
    requires Inv(w) && Step(policy, w, Complete(t, how)).Some?
    ensures var r := Step(policy, w, Complete(t, how)).value;
            Effect(w, r) && KeepsOrphans(w, r.0, None)
  {
    NotHeldIdle(w, t);
    FinishOk(policy, w, t, how);
  }

  lemma AwaitOk(policy: Policy, w: World, t: TaskId, on: TaskId)
    requires Inv(w) && Step(policy, w, Await(t, on)).Some?
    ensures var r := Step(policy, w, Await(t, on)).value;
            Effect(w, r) && KeepsOrphans(w, r.0, None)
  {
    if Ready(policy, w.frames[on].promise) {
      ConsumedOk(w, t, on);
    } else {
      SuspendedOk(w, t, on);
    }
  }

  /** Every event that can happen keeps the invariant and the counting facts. */
  lemma StepOk(policy: Policy, w: World, ev: Event)
    requires Inv(w) && Step(policy, w, ev).Some?
    ensures Effect(w, Step(policy, w, ev).value) && KeepsOrphans(w, Step(policy, w, ev).value.0, None)
  {
    match ev {
      case Create(_, _) =>
        CreateUnfolds(policy, w, ev);
        AfterCreateOk(policy, w, ev);
      case Complete(t, how) => CompleteOk(policy, w, t, how);
      case Await(t, on) => AwaitOk(policy, w, t, on);
      case WaitForAll(_) =>
        CreateUnfolds(policy, w, ev);
        AfterCreateOk(policy, w, ev);
    }
  }

  lemma {:induction false} RunOk(policy: Policy, w: World, evs: seq<Event>)
    requires Inv(w) && Run(policy, w, evs).Some?
    ensures Effect(w, Run(policy, w, evs).value) && KeepsOrphans(w, Run(policy, w, evs).value.0, None)
    decreases |evs|
  {
    if |evs| > 0 {
      var first := Step(policy, w, evs[0]).value;
      StepOk(policy, w, evs[0]);
      RunOk(policy, first.0, evs[1..]);
      ChainEffect(w, first.0, first.1, Run(policy, first.0, evs[1..]).value, None, None, None);
    }
  }

  // ---------------------------------------------------------------------
  // What every run guarantees
  // ---------------------------------------------------------------------

  /**
   * Along any run from the empty world, under either readiness test: a frame
   * signals completion exactly when it has finished, hence at most once;
   * `final_suspend` resumes at most one continuation per frame; a frame's
   * fault reaches at most one `await_resume`; and no frame is ever resumed
   * while it is not suspended on the frame resuming it.
   */
  lemma RunFromEmpty(policy: Policy, evs: seq<Event>)
    requires Run(policy, Empty(), evs).Some?
    ensures var w := Run(policy, Empty(), evs).value.0;
            var sigs := Run(policy, Empty(), evs).value.1;
            && Inv(w)
            && (forall x :: Occ(sigs, x, KCompleted) == Fin(w, x) <= 1)
            && (forall x :: Occ(sigs, x, KResumedBy) <= 1)
            && (forall x :: Occ(sigs, x, KFaultFrom) <= 1)
            && NoStray(sigs)
  {
    EmptyInv();
    RunOk(policy, Empty(), evs);
  }

  /**
   * A finished `wait_for_all` in a reachable world either returned the
   * tuple of every member's result, in member order; or stopped at member
   * `next`, after every earlier member produced a value, because that member
   * ended without one.
   */
  lemma JoinOutcome(w: World, j: TaskId)
    requires Inv(w) && j in w.frames && w.frames[j].finished && w.frames[j].body.JoinAll?
    ensures var f := w.frames[j];
            var ms := f.body.members;
            && (f.promise.isValue ==>
                  && f.promise.value.Tuple? && |f.promise.value.items| == |ms|
                  && forall i :: 0 <= i < |ms| ==>
                       ms[i] in w.frames && w.frames[ms[i]].promise.isValue
                       && f.promise.value.items[i] == Get(w.frames[ms[i]].promise))
            && (!f.promise.isValue ==>
                  && f.body.next < |ms|
                  && (forall i :: 0 <= i < f.body.next ==> ms[i] in w.frames && w.frames[ms[i]].promise.isValue)
                  && ms[f.body.next] in w.frames
                  && w.frames[ms[f.body.next]].finished && !w.frames[ms[f.body.next]].promise.isValue)
  {
    assert BodyOk(w, j);
  }

  /**
   * A frame that ends by throwing, with a continuation in its slot, resumes
   * that continuation, which receives exactly the fault.
   */
  lemma FaultReachesHolder(policy: Policy, w: World, x: TaskId, e: Fault)
    requires Inv(w) && CanFinish(w, x, Throws(e)) && w.frames[x].promise.hr.Some?
    ensures var r := Finish(policy, w, x, Throws(e));
            var k := w.frames[x].promise.hr.value;
            |r.1| >= 3 && r.1[1] == Resumed(k, x) && r.1[2] == Delivered(k, x, Failure(e))
  {
    var k := w.frames[x].promise.hr.value;
    FinishedResumes(w, x, Throws(e));
    var w1 := Finished(w, x, Throws(e));
    assert Waits(w1, k, x);
    assert w1.frames[x].promise.ePending == Some(e);
    var rest := Resume(policy, w1, k, x);
    assert Finish(policy, w, x, Throws(e)) == (rest.0, [Completed(x), Resumed(k, x)] + rest.1);
  }

  /**
   * When the member a join takes has thrown, its fault escapes the join's
   * body and becomes the join's own: the join completes with exactly that
   * fault, which either waits in the join's promise for a later
   * `await_resume` or is delivered at once to the frame the join's
   * `final_suspend` resumes.
   */
  lemma JoinFaultEscapes(policy: Policy, w: World, j: TaskId)
    requires CanTake(w, j) && Taken(w, j).Failure?
    ensures var r := JoinTake(policy, w, j);
            var e := Taken(w, j).error;
            && |r.1| >= 2 && r.1[0] == Delivered(j, Member(w, j), Failure(e)) && r.1[1] == Completed(j)
            && (w.frames[j].promise.hr.None? ==>
                  && |r.1| == 2 && j in r.0.frames && r.0.frames[j].finished
                  && Observe(r.0.frames[j].promise) == FaultOf(e))
            && (w.frames[j].promise.hr.Some? ==>
                  var k := w.frames[j].promise.hr.value;
                  |r.1| >= 4 && r.1[2] == Resumed(k, j) && r.1[3] == Delivered(k, j, Failure(e)))
  {
    var m := Member(w, j);
    var e := Taken(w, j).error;
    var w1 := Consumed(w, m);
    TakeFaultUnfolds(policy, w, j);
    TakeFaultStep(w, j);
    if w.frames[j].promise.hr.Some? {
      assert w1.frames[j] == w.frames[j];
      FaultReachesHolder(policy, w1, j, e);
    }
  }

  /**
   * Calling a coroutine whose body returns `v` before its first suspension
   * point leaves, in the same event, a finished frame that either readiness
   * test reports ready and whose `await_resume` yields `v`.
   */
  lemma EagerStart(policy: Policy, w: World, ty: Ty, v: Val)
    requires Inv(w) && ty != VoidTy && HasType(v, ty)
    ensures Step(policy, w, Create(ty, Some(Returns(v)))).Some?
    ensures var r := Step(policy, w, Create(ty, Some(Returns(v)))).value;
            && w.nextId in r.0.frames
            && r.0.frames[w.nextId].finished
            && Ready(policy, r.0.frames[w.nextId].promise)
            && AwaitResume(r.0.frames[w.nextId].promise).1 == Success(v)
            && r.1 == [Completed(w.nextId)]
  {
  }

  // ---------------------------------------------------------------------
  // Awaiting a task that has already failed
  // ---------------------------------------------------------------------

  /**
   * With the source's readiness test, a user body that awaits a task which
   * has already thrown is not told so: it registers in the slot of a frame
   * whose `final_suspend` has already run, and becomes an orphan.
   */
  lemma AwaitFaultedAsWritten(w: World, t: TaskId, on: TaskId)
    requires Inv(w) && t in w.frames && !w.frames[t].finished && w.frames[t].body == External(None)
    requires on in w.frames && w.frames[on].finished && w.frames[on].promise.ePending.Some?
    ensures Step(AsWritten, w, Await(t, on)).Some?
    ensures var r := Step(AsWritten, w, Await(t, on)).value;
            && r.1 == [Registered(t, on)]
            && Orphan(r.0, t)
            && r.0.frames[on].promise.ePending == w.frames[on].promise.ePending
  {
    assert OutcomeOk(w.frames[on]);
  }

  /** An orphan stays one, waiting on the same task, whatever happens next: its body never resumes. */
  lemma OrphanForever(policy: Policy, w: World, t: TaskId, evs: seq<Event>)
    requires Inv(w) && Orphan(w, t) && Run(policy, w, evs).Some?
    ensures var w' := Run(policy, w, evs).value.0;
            && Orphan(w', t)
            && w'.frames[t].body == w.frames[t].body
            && Occ(Run(policy, w, evs).value.1, t, KCompleted) == 0
  {
    RunOk(policy, w, evs);
  }

  /**
   * With a readiness test that also counts a recorded fault, the same await
   * is ready at once: the fault is rethrown into the awaiting body, which
   * keeps running.
   */
  lemma AwaitFaultedCorrected(w: World, t: TaskId, on: TaskId)
    requires Inv(w) && t in w.frames && !w.frames[t].finished && w.frames[t].body == External(None)
    requires on in w.frames && w.frames[on].finished && w.frames[on].promise.ePending.Some?
    ensures Step(Corrected, w, Await(t, on)).Some?
    ensures var r := Step(Corrected, w, Await(t, on)).value;
            && r.1 == [Delivered(t, on, Failure(w.frames[on].promise.ePending.value))]
            && r.0.frames[t].body == External(None)
            && r.0.frames[on].promise.ePending.None?
  {
  }

  /** The smallest run showing it: a task throws before suspending, then a second task awaits it. */
  function FaultScenario(): seq<Event>
  {
    [Create(NamedTy("int"), Some(Throws(7))), Create(VoidTy, None), Await(1, 0)]
  }

  lemma FaultScenarioAsWritten()
    ensures Run(AsWritten, Empty(), FaultScenario()).Some?
    ensures var r := Run(AsWritten, Empty(), FaultScenario()).value;
            && r.1 == [Completed(0), Registered(1, 0)]
            && Orphan(r.0, 1)
  {
  }

  lemma FaultScenarioCorrected()
    ensures Run(Corrected, Empty(), FaultScenario()).Some?
    ensures var r := Run(Corrected, Empty(), FaultScenario()).value;
            && r.1 == [Completed(0), Delivered(1, 0, Failure(7))]
            && !Orphan(r.0, 1)
  {
  }
}
