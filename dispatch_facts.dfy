/** Properties of request dispatch, stated against an independent reference:
  * the first entry at or after the read position that is of the wanted kind
  * and whose route matches the path. */
module DispatchFacts {
  import opened Wrappers
  import opened Text
  import opened Values
  import opened Route
  import opened Ctx
  import Req
  import opened Dispatch

  /** An entry `next(err)` may run: of the kind the error asks for, and with a
    * route that matches (or no route). */
  predicate Runnable(m: Middleware, wantError: bool, path: string)
  {
    m.handleError == wantError && TestRoutePath(path, m.route)
  }

  function FirstRunnable(stack: seq<Middleware>, from: nat, wantError: bool, path: string): (k: nat)
    ensures from <= k
    ensures k < |stack| ==> Runnable(stack[k], wantError, path)
    ensures forall i :: from <= i < k && i < |stack| ==> !Runnable(stack[i], wantError, path)
    ensures k >= |stack| ==> k == if from > |stack| then from else |stack|
    decreases |stack| - from
  {
    if from >= |stack| then from
    else if Runnable(stack[from], wantError, path) then from
    else FirstRunnable(stack, from + 1, wantError, path)
  }

  /** The three properties of `FirstRunnable` determine it. */
  lemma FirstRunnableUnique(stack: seq<Middleware>, from: nat, wantError: bool, path: string, k: nat)
    requires from <= k
    requires k < |stack| ==> Runnable(stack[k], wantError, path)
    requires forall i :: from <= i < k && i < |stack| ==> !Runnable(stack[i], wantError, path)
    requires k >= |stack| ==> k == if from > |stack| then from else |stack|
    ensures k == FirstRunnable(stack, from, wantError, path)
  {
  }

  /** One call of `next(err)` that finds an entry to run. */
  lemma StepRun(s: State, id: nat, err: Reason)
    requires id < |s.levels|
    requires Scan(s.levels[id].stack, s.levels[id].index, IsError(err)) < |s.levels[id].stack|
    requires TestRoutePath(s.req.path, s.levels[id].stack[Scan(s.levels[id].stack, s.levels[id].index, IsError(err))].route)
    ensures var lv := s.levels[id];
            var j := Scan(lv.stack, lv.index, IsError(err));
            LevelNext(s, id, err) == Schedule(Advance(s, id, j, OrNull(err)), id, lv.stack[j], OrNull(err))
  {
  }

  /** One call of `next(err)` that skips an entry whose route does not match. */
  lemma StepSkip(s: State, id: nat, err: Reason)
    requires id < |s.levels|
    requires Scan(s.levels[id].stack, s.levels[id].index, IsError(err)) < |s.levels[id].stack|
    requires !TestRoutePath(s.req.path, s.levels[id].stack[Scan(s.levels[id].stack, s.levels[id].index, IsError(err))].route)
    ensures var lv := s.levels[id];
            var j := Scan(lv.stack, lv.index, IsError(err));
            LevelNext(s, id, err) == LevelNext(Advance(s, id, j, OrNull(err)), id, OrNull(err))
  {
  }

  /** One call of `next(err)` that finds the stack exhausted. */
  lemma StepLeave(s: State, id: nat, err: Reason)
    requires id < |s.levels|
    requires Scan(s.levels[id].stack, s.levels[id].index, IsError(err)) >= |s.levels[id].stack|
    ensures var lv := s.levels[id];
            var j := Scan(lv.stack, lv.index, IsError(err));
            LevelNext(s, id, err) == Leave(Advance(s, id, j, OrNull(err)), lv.done, OrNull(err))
  {
  }

  /** Two states that differ only in their `error` listeners and past events. */
  predicate SameDispatch(a: State, b: State)
  {
    && a.req == b.req && a.levels == b.levels && a.frames == b.frames
    && a.callbacks == b.callbacks && a.responses == b.responses
    && a.tasks == b.tasks && a.uncaught == b.uncaught
  }

  /** Level `id` with its read position just past `k`. */
  function Jump(s: State, id: nat, k: nat): State
    requires id < |s.levels|
  {
    s.(levels := s.levels[id := s.levels[id].(index := k + 1)])
  }

  /** Advancing a level is jumping it, plus the `error` event. */
  lemma AdvanceIsJump(s: State, id: nat, j: nat, err: Reason)
    requires id < |s.levels|
    ensures SameDispatch(Advance(s, id, j, err), Jump(s, id, j))
    ensures !IsError(err) || s.errorListeners == 0 ==> Advance(s, id, j, err) == Jump(s, id, j)
    ensures Advance(s, id, j, err).errorListeners == s.errorListeners
  {
  }

  /** Jumping twice is jumping to the last position. */
  lemma JumpJump(s: State, id: nat, j: nat, k: nat)
    requires id < |s.levels|
    ensures Jump(Jump(s, id, j), id, k) == Jump(s, id, k)
  {
    assert Jump(Jump(s, id, j), id, k).levels == Jump(s, id, k).levels;
  }

  /** When some entry is runnable and nothing is emitted, `next(err)` runs
    * the first runnable entry, exactly as if the level had jumped straight to it. */
  lemma {:induction false} NextRunsFirstRunnableQuietly(s: State, id: nat, err: Reason)
    requires id < |s.levels|
    requires !IsError(err) || s.errorListeners == 0
    requires FirstRunnable(s.levels[id].stack, s.levels[id].index, IsError(err), s.req.path) < |s.levels[id].stack|
    ensures var lv := s.levels[id];
            var k := FirstRunnable(lv.stack, lv.index, IsError(err), s.req.path);
            LevelNext(s, id, err) == Schedule(Jump(s, id, k), id, lv.stack[k], OrNull(err))
    decreases Remaining(s, id), 1
  {
    var lv := s.levels[id];
    var want := IsError(err);
    var j := Scan(lv.stack, lv.index, want);
    ScanReachesFirstRunnable(lv.stack, lv.index, want, s.req.path);
    if TestRoutePath(s.req.path, lv.stack[j].route) {
      AdvanceIsJump(s, id, j, OrNull(err));
      FirstRunnableUnique(lv.stack, lv.index, want, s.req.path, j);
      StepRun(s, id, err);
    } else {
      SkipsQuietly(s, id, err);
    }
  }

  /** The skip case: the entry found does not match, and the first runnable
    * entry is reached from just past it. */
  lemma {:induction false} SkipsQuietly(s: State, id: nat, err: Reason)
    requires id < |s.levels|
    requires !IsError(err) || s.errorListeners == 0
    requires FirstRunnable(s.levels[id].stack, s.levels[id].index, IsError(err), s.req.path) < |s.levels[id].stack|
    requires Scan(s.levels[id].stack, s.levels[id].index, IsError(err)) < |s.levels[id].stack|
    requires !TestRoutePath(s.req.path, s.levels[id].stack[Scan(s.levels[id].stack, s.levels[id].index, IsError(err))].route)
    ensures var lv := s.levels[id];
            var k := FirstRunnable(lv.stack, lv.index, IsError(err), s.req.path);
            LevelNext(s, id, err) == Schedule(Jump(s, id, k), id, lv.stack[k], OrNull(err))
    decreases Remaining(s, id), 0
  {
    var lv := s.levels[id];
    var want := IsError(err);
    var e := OrNull(err);
    var j := Scan(lv.stack, lv.index, want);
    var k := FirstRunnable(lv.stack, lv.index, want, s.req.path);
    var s1 := Jump(s, id, j);
    AdvanceIsJump(s, id, j, e);
    SkipKeepsFirstRunnable(s, id, err);
    StepSkip(s, id, err);
    assert LevelNext(s, id, err) == LevelNext(s1, id, e);
    assert FirstRunnable(s1.levels[id].stack, s1.levels[id].index, IsError(e), s1.req.path) == k;
    NextRunsFirstRunnableQuietly(s1, id, e);
    JumpJump(s, id, j, k);
  }

  /** When some entry is runnable, `next(err)` runs the first one, exactly as
    * if the level had jumped straight to it. */
  lemma NextRunsFirstRunnable(s: State, id: nat, err: Reason)
    requires id < |s.levels|
    requires FirstRunnable(s.levels[id].stack, s.levels[id].index, IsError(err), s.req.path) < |s.levels[id].stack|
    ensures var lv := s.levels[id];
            var k := FirstRunnable(lv.stack, lv.index, IsError(err), s.req.path);
            SameDispatch(LevelNext(s, id, err), Schedule(Jump(s, id, k), id, lv.stack[k], OrNull(err)))
  {
    var s0 := s.(errorListeners := 0);
    ListenersDoNotSteer(s, s0, id, err);
    NextRunsFirstRunnableQuietly(s0, id, err);
  }

  /** No entry of the wanted kind comes before the first runnable one. */
  lemma ScanReachesFirstRunnable(stack: seq<Middleware>, from: nat, wantError: bool, path: string)
    ensures Scan(stack, from, wantError) <= FirstRunnable(stack, from, wantError, path)
  {
  }

  /** Skipping an entry of the wanted kind whose route does not match keeps
    * the first runnable entry where it was. */
  lemma SkipKeepsFirstRunnable(s: State, id: nat, err: Reason)
    requires id < |s.levels|
    requires Scan(s.levels[id].stack, s.levels[id].index, IsError(err)) < |s.levels[id].stack|
    requires !TestRoutePath(s.req.path, s.levels[id].stack[Scan(s.levels[id].stack, s.levels[id].index, IsError(err))].route)
    ensures var lv := s.levels[id];
            var j := Scan(lv.stack, lv.index, IsError(err));
            var s1 := Advance(s, id, j, OrNull(err));
            && id < |s1.levels| && s1.req == s.req && s1.levels[id].stack == lv.stack
            && FirstRunnable(lv.stack, j + 1, IsError(OrNull(err)), s.req.path) == FirstRunnable(lv.stack, lv.index, IsError(err), s.req.path)
            && Remaining(s1, id) < Remaining(s, id)
  {
    var lv := s.levels[id];
    var want := IsError(err);
    var j := Scan(lv.stack, lv.index, want);
    var k := FirstRunnable(lv.stack, lv.index, want, s.req.path);
    assert !Runnable(lv.stack[j], want, s.req.path);
    if k < |lv.stack| {
      assert k > j;
    }
    FirstRunnableUnique(lv.stack, j + 1, want, s.req.path, k);
  }

  /** What running the first runnable entry amounts to, field by field: its
    * route's parameters replace the request's, its handler is scheduled with
    * the error (or null), the read position moves just past it, and neither
    * the continuation stack nor any outside callback is touched. */
  lemma NextRunsFirstRunnableEffects(s: State, id: nat, err: Reason)
    requires id < |s.levels|
    requires FirstRunnable(s.levels[id].stack, s.levels[id].index, IsError(err), s.req.path) < |s.levels[id].stack|
    ensures var lv := s.levels[id];
            var k := FirstRunnable(lv.stack, lv.index, IsError(err), s.req.path);
            var r := LevelNext(s, id, err);
            && r.tasks == s.tasks + [Task(lv.stack[k].handle, OrNull(err), ToLevel(id))]
            && r.req == s.req.(params := GetRouteParams(s.req.path, lv.stack[k].route))
            && r.levels == s.levels[id := lv.(index := k + 1)]
            && r.frames == s.frames && r.callbacks == s.callbacks
            && r.responses == s.responses && r.uncaught == s.uncaught
  {
    NextRunsFirstRunnable(s, id, err);
  }

  /** When nothing is runnable, `next(err)` leaves the level as if it had
    * jumped straight past the end. */
  lemma {:induction false} NextLeaves(s: State, id: nat, err: Reason)
    requires id < |s.levels|
    requires FirstRunnable(s.levels[id].stack, s.levels[id].index, IsError(err), s.req.path) >= |s.levels[id].stack|
    ensures var lv := s.levels[id];
            var k := FirstRunnable(lv.stack, lv.index, IsError(err), s.req.path);
            lv.done.Finish? ==> SameDispatch(LevelNext(s, id, err), Leave(Jump(s, id, k), lv.done, OrNull(err)))
    decreases Remaining(s, id)
  {
    var lv := s.levels[id];
    var want := IsError(err);
    var e := OrNull(err);
    var j := Scan(lv.stack, lv.index, want);
    var n := |lv.stack|;
    if lv.done.Finish? {
      if j < n {
        assert !Runnable(lv.stack[j], want, s.req.path);
        var s1 := Advance(s, id, j, e);
        StepSkip(s, id, err);
        FirstRunnableUnique(lv.stack, j + 1, want, s.req.path, n);
        NextLeaves(s1, id, e);
        AdvanceIsJump(s, id, j, e);
        JumpJump(s, id, j, n);
        assert SameDispatch(Jump(s1, id, n), Jump(Jump(s, id, j), id, n));
      } else {
        StepLeave(s, id, err);
        AdvanceIsJump(s, id, j, e);
      }
    }
  }

  /** When nothing is runnable and the level was started by a caller's `done`,
    * `next(err)` pops the top continuation and calls `done` exactly once, with
    * the error or null. */
  lemma NextFinishes(s: State, id: nat, err: Reason)
    requires id < |s.levels| && s.levels[id].done.Finish?
    requires FirstRunnable(s.levels[id].stack, s.levels[id].index, IsError(err), s.req.path) >= |s.levels[id].stack|
    ensures var lv := s.levels[id];
            var k := FirstRunnable(lv.stack, lv.index, IsError(err), s.req.path);
            var r := LevelNext(s, id, err);
            && r.callbacks == s.callbacks + [(lv.done.callback, OrNull(err))]
            && r.frames == Pop(s.frames)
            && r.levels == s.levels[id := lv.(index := k + 1)]
            && r.req == s.req && r.tasks == s.tasks
            && r.responses == s.responses && r.uncaught == s.uncaught
  {
    NextLeaves(s, id, err);
  }

  /** When nothing is runnable and nothing is emitted, `next(err)` leaves the
    * level exactly as if it had read straight past the end. */
  lemma {:induction false} NextLeavesQuietly(s: State, id: nat, err: Reason)
    requires id < |s.levels|
    requires !IsError(err) || s.errorListeners == 0
    requires FirstRunnable(s.levels[id].stack, s.levels[id].index, IsError(err), s.req.path) >= |s.levels[id].stack|
    ensures LevelNext(s, id, err)
         == Leave(Jump(s, id, FirstRunnable(s.levels[id].stack, s.levels[id].index, IsError(err), s.req.path)),
                  s.levels[id].done, OrNull(err))
    decreases Remaining(s, id)
  {
    var lv := s.levels[id];
    var want := IsError(err);
    var e := OrNull(err);
    var j := Scan(lv.stack, lv.index, want);
    var n := |lv.stack|;
    if j < n {
      assert !Runnable(lv.stack[j], want, s.req.path);
      var s1 := Advance(s, id, j, e);
      FirstRunnableUnique(lv.stack, j + 1, want, s.req.path, n);
      calc {
        LevelNext(s, id, err);
      == { StepSkip(s, id, err); }
        LevelNext(s1, id, e);
      == { NextLeavesQuietly(s1, id, e); }
        Leave(Jump(s1, id, n), lv.done, e);
      == { assert s1.levels[id := s1.levels[id].(index := n + 1)] == s.levels[id := lv.(index := n + 1)];
           assert Jump(s1, id, n) == Jump(s, id, n); }
        Leave(Jump(s, id, n), lv.done, e);
      }
    } else {
      StepLeave(s, id, err);
      assert Advance(s, id, j, e) == Jump(s, id, j);
    }
  }

  /** `next(err)` only ever adds `error` events, each carrying the error; it
    * adds none when the error is falsy or nobody listens, and at least one
    * when there is an error and a listener. */
  lemma {:induction false} NextEmits(s: State, id: nat, err: Reason)
    ensures var r := LevelNext(s, id, err);
            && |r.emitted| >= |s.emitted| && r.emitted[..|s.emitted|] == s.emitted
            && (forall i :: |s.emitted| <= i < |r.emitted| ==> r.emitted[i] == OrNull(err))
            && r.errorListeners == s.errorListeners
    ensures !IsError(err) || s.errorListeners == 0 ==> LevelNext(s, id, err).emitted == s.emitted
    ensures IsError(err) && s.errorListeners > 0 && id < |s.levels| ==> |LevelNext(s, id, err).emitted| > |s.emitted|
    decreases |s.frames|, 2, Remaining(s, id)
  {
    if id < |s.levels| {
      var lv := s.levels[id];
      var e := OrNull(err);
      var j := Scan(lv.stack, lv.index, IsError(err));
      var s1 := Advance(s, id, j, e);
      if j >= |lv.stack| {
        StepLeave(s, id, err);
        LeaveEmits(s1, lv.done, e);
        var r := Leave(s1, lv.done, e);
        assert r.emitted[..|s.emitted|] == r.emitted[..|s1.emitted|][..|s.emitted|];
      } else if !TestRoutePath(s.req.path, lv.stack[j].route) {
        StepSkip(s, id, err);
        NextEmits(s1, id, e);
        var r := LevelNext(s1, id, e);
        assert r.emitted[..|s.emitted|] == r.emitted[..|s1.emitted|][..|s.emitted|];
      } else {
        StepRun(s, id, err);
      }
    }
  }

  lemma {:induction false} LeaveEmits(s: State, done: Done, err: Reason)
    requires err == OrNull(err)
    ensures var r := Leave(s, done, err);
            && |r.emitted| >= |s.emitted| && r.emitted[..|s.emitted|] == s.emitted
            && (forall i :: |s.emitted| <= i < |r.emitted| ==> r.emitted[i] == err)
            && r.errorListeners == s.errorListeners
    ensures !IsError(err) || s.errorListeners == 0 ==> Leave(s, done, err).emitted == s.emitted
    decreases |s.frames|, 1, 0
  {
    if done.RestorePrefix? && s.frames != [] {
      var s2 := s.(frames := Pop(s.frames));
      var s3 := if done.removed != [] then s2.(req := Restore(s2.req, done.removed)) else s2;
      CtxNextEmits(s3, err);
    }
  }

  lemma {:induction false} CtxNextEmits(s: State, err: Reason)
    requires err == OrNull(err)
    ensures var r := CtxNext(s, err);
            && |r.emitted| >= |s.emitted| && r.emitted[..|s.emitted|] == s.emitted
            && (forall i :: |s.emitted| <= i < |r.emitted| ==> r.emitted[i] == err)
            && r.errorListeners == s.errorListeners
    ensures !IsError(err) || s.errorListeners == 0 ==> CtxNext(s, err).emitted == s.emitted
    decreases |s.frames|, 3, 0
  {
    var t := Top(s.frames);
    if t.Some? && t.value.DispatchNext? {
      NextEmits(s, t.value.level, err);
    }
  }

  /** Listening for `error` does not change where a request goes. */
  lemma {:induction false} ListenersDoNotSteer(s: State, t: State, id: nat, err: Reason)
    requires SameDispatch(s, t)
    ensures SameDispatch(LevelNext(s, id, err), LevelNext(t, id, err))
    decreases |s.frames|, 2, Remaining(s, id)
  {
    if id < |s.levels| {
      var lv := s.levels[id];
      var e := OrNull(err);
      var j := Scan(lv.stack, lv.index, IsError(err));
      var s1 := Advance(s, id, j, e);
      var t1 := Advance(t, id, j, e);
      if j >= |lv.stack| {
        StepLeave(s, id, err);
        StepLeave(t, id, err);
        LeaveDoesNotSteer(s1, t1, lv.done, e);
      } else if !TestRoutePath(s.req.path, lv.stack[j].route) {
        StepSkip(s, id, err);
        StepSkip(t, id, err);
        ListenersDoNotSteer(s1, t1, id, e);
      } else {
        StepRun(s, id, err);
        StepRun(t, id, err);
      }
    }
  }

  lemma {:induction false} LeaveDoesNotSteer(s: State, t: State, done: Done, err: Reason)
    requires SameDispatch(s, t)
    ensures SameDispatch(Leave(s, done, err), Leave(t, done, err))
    decreases |s.frames|, 1, 0
  {
    if done.RestorePrefix? && s.frames != [] {
      var s2 := s.(frames := Pop(s.frames));
      var t2 := t.(frames := Pop(t.frames));
      var s3 := if done.removed != [] then s2.(req := Restore(s2.req, done.removed)) else s2;
      var t3 := if done.removed != [] then t2.(req := Restore(t2.req, done.removed)) else t2;
      CtxNextDoesNotSteer(s3, t3, err);
    }
  }

  lemma {:induction false} CtxNextDoesNotSteer(s: State, t: State, err: Reason)
    requires SameDispatch(s, t)
    ensures SameDispatch(CtxNext(s, err), CtxNext(t, err))
    decreases |s.frames|, 3, 0
  {
    var top := Top(s.frames);
    if top.Some? && top.value.DispatchNext? {
      ListenersDoNotSteer(s, t, top.value.level, err);
    }
  }

  /** A request handled by an application starts at its first runnable
    * ordinary entry, which is scheduled with null as its error. */
  lemma RequestStartsAtFirstRunnable(s: State, stack: seq<Middleware>, done: Done)
    requires FirstRunnable(stack, 0, false, s.req.path) < |stack|
    ensures var k := FirstRunnable(stack, 0, false, s.req.path);
            var r := HandleRequestByContext(s, stack, done);
            && r.tasks == s.tasks + [Task(stack[k].handle, NullReason, ToLevel(|s.levels|))]
            && r.req == s.req.(params := GetRouteParams(s.req.path, stack[k].route))
            && r.frames == Push(s.frames, DispatchNext(|s.levels|))
            && r.callbacks == s.callbacks
  {
    var id := |s.levels|;
    var s1 := s.(levels := s.levels + [Level(stack, 0, done)], frames := Push(s.frames, DispatchNext(id)));
    PushPop(s.frames, DispatchNext(id));
    NextRunsFirstRunnable(s1, id, NoReason);
  }

  /** With nothing runnable, the application calls `done(null)` and leaves
    * the continuation stack as it found it. */
  lemma RequestWithNothingRunnable(s: State, stack: seq<Middleware>, cb: nat)
    requires FirstRunnable(stack, 0, false, s.req.path) >= |stack|
    ensures var r := HandleRequestByContext(s, stack, Finish(cb));
            && r.callbacks == s.callbacks + [(cb, NullReason)]
            && r.frames == s.frames && r.req == s.req && r.tasks == s.tasks
  {
    var id := |s.levels|;
    var s1 := s.(levels := s.levels + [Level(stack, 0, Finish(cb))], frames := Push(s.frames, DispatchNext(id)));
    PushPop(s.frames, DispatchNext(id));
    NextFinishes(s1, id, NoReason);
  }

  /** A handler that throws a truthy error hands it to its level's next, which
    * schedules the first matching error handler after it with that error. */
  lemma ThrowReachesNextErrorHandler(s: State, arity: nat, e: Reason, err: Reason, id: nat)
    requires s.tasks != [] && s.tasks[0] == Task(Plain(arity, Throws(e)), err, ToLevel(id))
    requires IsError(e) && id < |s.levels|
    requires FirstRunnable(s.levels[id].stack, s.levels[id].index, true, s.req.path) < |s.levels[id].stack|
    ensures var lv := s.levels[id];
            var k := FirstRunnable(lv.stack, lv.index, true, s.req.path);
            && lv.stack[k].handleError
            && RunTask(s).tasks == s.tasks[1..] + [Task(lv.stack[k].handle, e, ToLevel(id))]
  {
    var s0 := s.(tasks := s.tasks[1..]);
    NextRunsFirstRunnable(s0, id, e);
  }

  /** A method-restricted handler meeting another method calls `ctx.next`
    * without running its handler, passing on the error it received when it
    * wraps an error handler and nothing otherwise. */
  lemma GateOtherMethodPassesOn(s: State, m: string, inner: Handle, err: Reason, onError: ErrorTarget, id: nat)
    requires s.tasks != [] && s.tasks[0] == Task(MethodGated(m, inner), err, onError)
    requires s.req.httpMethod != m && Top(s.frames) == Some(DispatchNext(id))
    ensures RunTask(s) == LevelNext(s.(tasks := s.tasks[1..]), id, if IsMiddlewareErrorHandle(inner) then err else NoReason)
  {
  }

  /** A method-restricted handler meeting its method runs the inner handler
    * next, and an error the inner handler throws goes to `ctx.next`. */
  lemma GateSameMethodRunsInner(s: State, m: string, inner: Handle, err: Reason, onError: ErrorTarget, e: Reason)
    requires s.tasks == [Task(MethodGated(m, inner), err, onError)]
    requires s.req.httpMethod == m
    ensures RunTask(s).tasks == [Task(inner, if IsMiddlewareErrorHandle(inner) then err else NoReason, ToContext)]
    ensures inner == Plain(Arity(inner), Throws(e)) ==> RunTask(RunTask(s)) == CtxNext(RunTask(s).(tasks := []), e)
  {
    var s1 := RunTask(s);
    var passed := if IsMiddlewareErrorHandle(inner) then err else NoReason;
    assert s1 == s.(tasks := [Task(inner, passed, ToContext)]);
    if inner == Plain(Arity(inner), Throws(e)) {
      var rest := s1.(tasks := s1.tasks[1..]);
      assert rest == s1.(tasks := []);
      assert Invoke(rest, inner, passed) == (rest, Threw(e));
    }
  }

  /** A mounted application none of whose ordinary entries runs on the
    * stripped path removes the prefix, then puts it back and calls the outer
    * `next(null)`: the request continues outside as if the mount had called
    * `next()`. */
  lemma MountWithNothingRunnable(s: State, route: Option<ParsedRoute>, stack: seq<Middleware>)
    requires IsPrefix(MatchedPrefix(s.req.path, route), s.req.path) && IsPrefix(s.req.path, s.req.url)
    requires FirstRunnable(stack, 0, false, Drop(s.req.path, |MatchedPrefix(s.req.path, route)|)) >= |stack|
    ensures EnterMount(s, route, stack)
         == CtxNext(s.(levels := s.levels + [Level(stack, |stack| + 1, RestorePrefix(MatchedPrefix(s.req.path, route)))]), NullReason)
  {
    var removed := MatchedPrefix(s.req.path, route);
    var s2 := MountState(s, removed, stack);
    NextLeavesQuietly(s2, |s.levels|, NoReason);
    MountLeaves(s, removed, stack);
  }

  /** The state right after a mounted application is entered: prefix removed,
    * a level over its stack, and that level's `next` on the context. */
  function MountState(s: State, removed: string, stack: seq<Middleware>): State
  {
    var s1 := if removed != [] then s.(req := Strip(s.req, removed)) else s;
    s1.(levels := s1.levels + [Level(stack, 0, RestorePrefix(removed))], frames := Push(s1.frames, DispatchNext(|s1.levels|)))
  }

  lemma MountLeaves(s: State, removed: string, stack: seq<Middleware>)
    requires IsPrefix(removed, s.req.path) && IsPrefix(s.req.path, s.req.url)
    ensures var s2 := MountState(s, removed, stack);
            && |s.levels| < |s2.levels|
            && s2.levels[|s.levels|].stack == stack && s2.levels[|s.levels|].index == 0
            && s2.req.path == Drop(s.req.path, |removed|)
            && Leave(Jump(s2, |s.levels|, |stack|), RestorePrefix(removed), NullReason)
               == CtxNext(s.(levels := s.levels + [Level(stack, |stack| + 1, RestorePrefix(removed))]), NullReason)
  {
    var s2 := MountState(s, removed, stack);
    PushPop(s.frames, DispatchNext(|s.levels|));
    if removed != [] {
      StripRestore(s.req, removed);
    }
    var s3 := Jump(s2, |s.levels|, |stack|);
    assert s3.levels == s.levels + [Level(stack, |stack| + 1, RestorePrefix(removed))];
  }

  /** A classical middleware calling `next(err)` sees the path with the
    * matched prefix removed, and the path is back in place when the error
    * moves on. */
  lemma ClassicalNextRestoresPath(s: State, route: Option<ParsedRoute>, errorHandle: bool, e: Reason, err: Reason)
    requires IsPrefix(MatchedPrefix(s.req.path, route), s.req.path) && IsPrefix(s.req.path, s.req.url)
    ensures var removed, v := MatchedPrefix(s.req.path, route), ClassicalView(s, route);
      v.req.path == Drop(s.req.path, |removed|) && v.req.url == Drop(s.req.url, |removed|) &&
      v.req.httpMethod == s.req.httpMethod && v.req.params == s.req.params && v.frames == s.frames
    ensures Invoke(s, FromClassical(route, errorHandle, ClassicalNext(e)), err) == (CtxNext(s, e), Returned)
  {
    var removed := MatchedPrefix(s.req.path, route);
    if removed != [] {
      StripRestore(s.req, removed);
    }
  }

  /** The classical adapter: a rejected promise goes to the classical `next`,
    * a synchronous throw escapes to the caller, and a handler calling
    * `ctx.next(err)` calls the classical `next` with that error. */
  lemma ClassicalAdapterOutcomes(s: State, arity: nat, b: Behaviour, cb: nat)
    ensures b.Rejects? ==> ToClassicalHandle(s, Plain(arity, b), cb).callbacks == s.callbacks + [(cb, b.err)]
    ensures b.Throws? ==> var r := ToClassicalHandle(s, Plain(arity, b), cb);
                          r.uncaught == s.uncaught + [b.err] && r.callbacks == s.callbacks
    ensures b.CallsNextWith? ==> ToClassicalHandle(s, Plain(arity, b), cb).callbacks == s.callbacks + [(cb, b.err)]
  {
  }
}
