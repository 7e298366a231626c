/** Mounted applications hand the request on with the URL and path they found.
  * While a mounted application is being dispatched, the request's URL and
  * path are the ones it was entered with, less the prefix it removed, however
  * its own handlers (and the applications mounted inside it) run; when its
  * stack is exhausted it puts the prefix back and calls the outer `next` with
  * the URL and path exactly as they were before it was entered.
  *
  * The exception is a classical middleware that throws: it leaves its prefix
  * removed (ClassicalThrowLeavesPrefixRemoved), so such handlers, and routes
  * given as RegExp objects (whose match need not start the path), are outside
  * the handlers this is stated for. */
module MountFacts {
  import opened Wrappers
  import opened Values
  import opened Text
  import opened Route
  import opened Ctx
  import opened Dispatch
  import DispatchFacts

  /** A mounted application still being dispatched: its level, the prefix it
    * removed, and the URL and path when it was entered. */
  datatype Mount = Mount(level: nat, removed: string, url: string, path: string)

  /** No route, or a compiled route string: what it matches starts the path. */
  predicate PathRoute(route: Option<ParsedRoute>)
  {
    route.None? || route.value.regexp.PathPattern?
  }

  /** Handlers that leave the URL and path as they found them whenever they
    * pass the request on. */
  predicate WellBehaved(h: Handle)
  {
    match h
    case Plain(_, _) => true
    case Mounted(route, stack) => PathRoute(route) && forall i :: 0 <= i < |stack| ==> WellBehaved(stack[i].handle)
    case MethodGated(_, inner) => WellBehaved(inner)
    case FromClassical(route, _, c) => PathRoute(route) && !c.ClassicalThrows?
  }

  predicate WellBehavedStack(stack: seq<Middleware>)
  {
    forall i :: 0 <= i < |stack| ==> WellBehaved(stack[i].handle)
  }

  /** The continuations the mounted applications push, innermost last. */
  function FramesOf(ms: seq<Mount>): seq<NextHandle>
  {
    if ms == [] then [] else FramesOf(ms[..|ms| - 1]) + [DispatchNext(ms[|ms| - 1].level)]
  }

  predicate MountOk(s: State, m: Mount)
  {
    && m.level < |s.levels|
    && s.levels[m.level].done == RestorePrefix(m.removed)
    && WellBehavedStack(s.levels[m.level].stack)
    && IsPrefix(m.removed, m.path) && IsPrefix(m.path, m.url)
  }

  /** `ms` are the applications mounted one inside the other above the
    * continuations `base`: each was entered with the URL and path the
    * previous one left, and the request now carries what the innermost left. */
  predicate Chain(s: State, base: seq<NextHandle>, ms: seq<Mount>)
  {
    && s.frames == base + FramesOf(ms)
    && (forall i :: 0 <= i < |ms| ==> MountOk(s, ms[i]))
    && (forall i :: 0 <= i < |ms| - 1 ==>
          ms[i + 1].url == Drop(ms[i].url, |ms[i].removed|) && ms[i + 1].path == Drop(ms[i].path, |ms[i].removed|))
    && (ms != [] ==>
          s.req.url == Drop(ms[|ms| - 1].url, |ms[|ms| - 1].removed|)
          && s.req.path == Drop(ms[|ms| - 1].path, |ms[|ms| - 1].removed|))
    && IsPrefix(s.req.path, s.req.url)
  }

  /** Dispatch inside at least one mounted application, with at most one
    * deferred handler call, which belongs to the innermost level. */
  predicate Inside(s: State, base: seq<NextHandle>, ms: seq<Mount>)
  {
    && ms != []
    && Chain(s, base, ms)
    && |s.tasks| <= 1
    && (forall t :: t in s.tasks ==>
          WellBehaved(t.handle) && (t.onError == ToContext || t.onError == ToLevel(ms[|ms| - 1].level)))
  }

  /** The outermost mounted application `m` has handed the request on: its
    * continuation is gone and the URL and path are those it was entered with. */
  predicate HandedOn(t: State, base: seq<NextHandle>, m: Mount)
  {
    t.frames == base && t.req.url == m.url && t.req.path == m.path
  }

  /** Still inside the application `m`, or the outer `next` is called on a
    * state that `m` handed on. */
  predicate Continues(r: State, base: seq<NextHandle>, m: Mount, ms: seq<Mount>, t: State, e: Reason)
  {
    (ms != [] && Inside(r, base, ms) && ms[0] == m) || (r == CtxNext(t, e) && HandedOn(t, base, m))
  }

  /** The dispatch stopped inside the application `m`: nothing is deferred
    * and `m`'s continuation is still on the context, right above `base`. */
  predicate Stopped(r: State, base: seq<NextHandle>, m: Mount)
  {
    r.tasks == [] && |base| < |r.frames| && r.frames[|base|] == DispatchNext(m.level)
  }

  /** After some deferred calls inside the application `m`: still inside it,
    * stopped inside it, or the rest of the run is that of the outer `next` called, fewer
    * than `fuel` calls later, on a state `t` that `m` handed on. */
  predicate Outcome(r: State, base: seq<NextHandle>, m: Mount, ms: seq<Mount>, t: State, e: Reason, f: nat, fuel: nat)
  {
    || (ms != [] && Inside(r, base, ms) && ms[0] == m)
    || Stopped(r, base, m)
    || (f < fuel && r == Run(CtxNext(t, e), f) && HandedOn(t, base, m))
  }

  /** What an exhausted mounted level leaves: its continuation popped and its
    * prefix put back. */
  function Restored(s: State, removed: string): State
  {
    var s2 := s.(frames := Pop(s.frames));
    if removed != [] then s2.(req := Restore(s2.req, removed)) else s2
  }

  lemma DropKeepsPrefix(r: string, path: string, url: string)
    requires IsPrefix(r, path) && IsPrefix(path, url)
    ensures IsPrefix(Drop(path, |r|), Drop(url, |r|))
    ensures r + Drop(url, |r|) == url && r + Drop(path, |r|) == path
  {
    assert url[..|r|] == url[..|path|][..|r|];
    assert url[|r|..][..|path| - |r|] == url[..|path|][|r|..];
    PrefixDropRestore(r, path);
    PrefixDropRestore(r, url);
  }

  lemma FramesSnoc(ms: seq<Mount>, m: Mount)
    ensures FramesOf(ms + [m]) == FramesOf(ms) + [DispatchNext(m.level)]
  {
    assert (ms + [m])[..|ms|] == ms;
  }

  lemma FramesHead(base: seq<NextHandle>, ms: seq<Mount>)
    requires ms != []
    ensures |base| < |base + FramesOf(ms)| && (base + FramesOf(ms))[|base|] == DispatchNext(ms[0].level)
    decreases |ms|
  {
    if |ms| > 1 {
      FramesHead(base, ms[..|ms| - 1]);
      assert (base + FramesOf(ms))[|base|] == (base + FramesOf(ms[..|ms| - 1]))[|base|];
    }
  }

  lemma FramesTop(base: seq<NextHandle>, ms: seq<Mount>)
    requires ms != []
    ensures Top(base + FramesOf(ms)) == Some(DispatchNext(ms[|ms| - 1].level))
    ensures Pop(base + FramesOf(ms)) == base + FramesOf(ms[..|ms| - 1])
  {
    var f := FramesOf(ms[..|ms| - 1]);
    assert FramesOf(ms) == f + [DispatchNext(ms[|ms| - 1].level)];
    assert base + FramesOf(ms) == (base + f) + [DispatchNext(ms[|ms| - 1].level)];
  }

  /** The levels of `s` are still in `t`, with the same stacks and `done`s;
    * only read positions may differ, and levels may have been added. */
  predicate LevelsKept(s: State, t: State)
  {
    && |s.levels| <= |t.levels|
    && forall l :: 0 <= l < |s.levels| ==> t.levels[l].stack == s.levels[l].stack && t.levels[l].done == s.levels[l].done
  }

  lemma MountOkKept(s: State, t: State, m: Mount)
    requires MountOk(s, m) && LevelsKept(s, t)
    ensures MountOk(t, m)
  {
    assert t.levels[m.level].stack == s.levels[m.level].stack;
  }

  /** The chain survives anything that keeps the levels, the continuations and the request. */
  lemma ChainKept(s: State, t: State, base: seq<NextHandle>, ms: seq<Mount>)
    requires Chain(s, base, ms) && LevelsKept(s, t)
    requires t.frames == s.frames && t.req.url == s.req.url && t.req.path == s.req.path
    ensures Chain(t, base, ms)
  {
    forall i | 0 <= i < |ms| ensures MountOk(t, ms[i])
    {
      MountOkKept(s, t, ms[i]);
    }
  }

  /** Dropping the innermost application from the chain, once its prefix is back. */
  lemma ChainInit(s: State, t: State, base: seq<NextHandle>, ms: seq<Mount>)
    requires Chain(s, base, ms) && |ms| > 1 && LevelsKept(s, t)
    requires t.frames == base + FramesOf(ms[..|ms| - 1])
    requires t.req.url == ms[|ms| - 1].url && t.req.path == ms[|ms| - 1].path
    ensures Chain(t, base, ms[..|ms| - 1])
  {
    var inner := ms[..|ms| - 1];
    forall i | 0 <= i < |inner| ensures MountOk(t, inner[i])
    {
      assert MountOk(s, ms[i]);
      MountOkKept(s, t, ms[i]);
    }
    forall i | 0 <= i < |inner| - 1
      ensures inner[i + 1].url == Drop(inner[i].url, |inner[i].removed|) && inner[i + 1].path == Drop(inner[i].path, |inner[i].removed|)
    {
      assert inner[i] == ms[i] && inner[i + 1] == ms[i + 1];
    }
    var k := |ms| - 2;
    assert inner[|inner| - 1] == ms[k];
    assert ms[k + 1].url == Drop(ms[k].url, |ms[k].removed|) && ms[k + 1].path == Drop(ms[k].path, |ms[k].removed|);
    assert MountOk(s, ms[|ms| - 1]);
  }

  /** Adding an application `m`, entered with the request the chain left. */
  lemma ChainSnoc(s: State, t: State, base: seq<NextHandle>, ms: seq<Mount>, m: Mount)
    requires Chain(s, base, ms) && LevelsKept(s, t) && MountOk(t, m)
    requires t.frames == s.frames + [DispatchNext(m.level)]
    requires m.url == s.req.url && m.path == s.req.path
    requires t.req.url == Drop(m.url, |m.removed|) && t.req.path == Drop(m.path, |m.removed|)
    requires IsPrefix(t.req.path, t.req.url)
    ensures Chain(t, base, ms + [m])
  {
    var ms2 := ms + [m];
    FramesSnoc(ms, m);
    forall i | 0 <= i < |ms2| ensures MountOk(t, ms2[i])
    {
      if i < |ms| {
        assert ms2[i] == ms[i];
        MountOkKept(s, t, ms[i]);
      }
    }
    forall i | 0 <= i < |ms2| - 1
      ensures ms2[i + 1].url == Drop(ms2[i].url, |ms2[i].removed|) && ms2[i + 1].path == Drop(ms2[i].path, |ms2[i].removed|)
    {
      assert ms2[i] == ms[i];
      if i + 1 < |ms| {
        assert ms2[i + 1] == ms[i + 1];
      }
    }
    assert ms2[|ms2| - 1] == m;
  }

  /** Reading up to an entry of the innermost level keeps the chain. */
  lemma AdvanceInside(s: State, base: seq<NextHandle>, ms: seq<Mount>, j: nat, e: Reason)
    requires Inside(s, base, ms)
    ensures Inside(Advance(s, ms[|ms| - 1].level, j, e), base, ms)
  {
    var id := ms[|ms| - 1].level;
    assert MountOk(s, ms[|ms| - 1]);
    ChainKept(s, Advance(s, id, j, e), base, ms);
  }

  /** Running an entry of the innermost level keeps the chain, its handler
    * being the one deferred call. */
  lemma ScheduleInside(s: State, base: seq<NextHandle>, ms: seq<Mount>, m: Middleware, e: Reason)
    requires Inside(s, base, ms) && s.tasks == [] && WellBehaved(m.handle)
    ensures Inside(Schedule(s, ms[|ms| - 1].level, m, e), base, ms)
  {
    var s1 := Schedule(s, ms[|ms| - 1].level, m, e);
    assert s1.tasks == [Task(m.handle, e, ToLevel(ms[|ms| - 1].level))];
    ChainKept(s, s1, base, ms);
  }

  /** When the innermost mounted level is exhausted it puts its prefix back
    * and calls `ctx.next`: for the outermost one the URL and path are then
    * those it was entered with, and otherwise the chain below it holds. */
  lemma LeaveInside(s: State, base: seq<NextHandle>, ms: seq<Mount>, e: Reason)
    requires Inside(s, base, ms) && s.tasks == []
    ensures var t := Restored(s, ms[|ms| - 1].removed);
            && Leave(s, RestorePrefix(ms[|ms| - 1].removed), e) == CtxNext(t, e)
            && |t.frames| < |s.frames| && t.tasks == []
            && (|ms| == 1 ==> HandedOn(t, base, ms[0]))
            && (|ms| > 1 ==> Inside(t, base, ms[..|ms| - 1]) && Top(t.frames) == Some(DispatchNext(ms[|ms| - 2].level)))
  {
    var last := ms[|ms| - 1];
    assert MountOk(s, last);
    FramesTop(base, ms);
    DropKeepsPrefix(last.removed, last.path, last.url);
    var t := Restored(s, last.removed);
    assert t.req.url == last.url && t.req.path == last.path;
    assert t.frames == base + FramesOf(ms[..|ms| - 1]);
    assert t.levels == s.levels;
    if |ms| > 1 {
      var inner := ms[..|ms| - 1];
      FramesTop(base, inner);
      assert inner[|inner| - 1] == ms[|ms| - 2];
      ChainInit(s, t, base, ms);
    }
  }

  /** `next(err)` of the innermost mounted level, whatever its stack: the
    * dispatch stays inside the outermost application `ms[0]`, or that
    * application hands the request on with its own URL and path. */
  lemma LevelNextInside(s: State, base: seq<NextHandle>, ms: seq<Mount>, err: Reason)
      returns (ms': seq<Mount>, t: State, e: Reason)
    requires Inside(s, base, ms) && s.tasks == []
    ensures Continues(LevelNext(s, ms[|ms| - 1].level, err), base, ms[0], ms', t, e)
    decreases |s.frames|, 1, Remaining(s, ms[|ms| - 1].level)
  {
    var id := ms[|ms| - 1].level;
    assert MountOk(s, ms[|ms| - 1]);
    var lv := s.levels[id];
    var e0 := OrNull(err);
    var j := Scan(lv.stack, lv.index, IsError(err));
    var s1 := Advance(s, id, j, e0);
    AdvanceInside(s, base, ms, j, e0);
    if j >= |lv.stack| {
      DispatchFacts.StepLeave(s, id, err);
      assert |s1.frames| == |s.frames|;
      ms', t, e := LeaveNextInside(s1, base, ms, e0);
    } else if !TestRoutePath(s.req.path, lv.stack[j].route) {
      DispatchFacts.StepSkip(s, id, err);
      assert Remaining(s1, id) < Remaining(s, id);
      ms', t, e := LevelNextInside(s1, base, ms, e0);
    } else {
      DispatchFacts.StepRun(s, id, err);
      assert WellBehaved(lv.stack[j].handle);
      ScheduleInside(s1, base, ms, lv.stack[j], e0);
      ms', t, e := ms, s, e0;
    }
  }

  /** Leaving the innermost mounted level: the outermost one hands the
    * request on, an inner one returns to the `next` of the level below. */
  lemma LeaveNextInside(s: State, base: seq<NextHandle>, ms: seq<Mount>, err: Reason)
      returns (ms': seq<Mount>, t: State, e: Reason)
    requires Inside(s, base, ms) && s.tasks == []
    ensures Continues(Leave(s, RestorePrefix(ms[|ms| - 1].removed), err), base, ms[0], ms', t, e)
    decreases |s.frames|, 0, 0
  {
    LeaveInside(s, base, ms, err);
    var t1 := Restored(s, ms[|ms| - 1].removed);
    if |ms| == 1 {
      ms', t, e := ms, t1, err;
    } else {
      var inner := ms[..|ms| - 1];
      assert inner[|inner| - 1] == ms[|ms| - 2] && inner[0] == ms[0];
      assert CtxNext(t1, err) == LevelNext(t1, inner[|inner| - 1].level, err);
      ms', t, e := LevelNextInside(t1, base, inner, err);
    }
  }

  /** Entering a mounted application whose route starts the path: one more
    * application on the chain, entered with the request as it was. */
  lemma EnterMountInside(s: State, base: seq<NextHandle>, ms: seq<Mount>, route: Option<ParsedRoute>, stack: seq<Middleware>)
    requires Chain(s, base, ms) && s.tasks == [] && PathRoute(route) && WellBehavedStack(stack)
    ensures var m := Mount(|s.levels|, MatchedPrefix(s.req.path, route), s.req.url, s.req.path);
            var s2 := DispatchFacts.MountState(s, MatchedPrefix(s.req.path, route), stack);
            Inside(s2, base, ms + [m]) && s2.tasks == []
  {
    var removed := MatchedPrefix(s.req.path, route);
    var m := Mount(|s.levels|, removed, s.req.url, s.req.path);
    var s2 := DispatchFacts.MountState(s, removed, stack);
    DropKeepsPrefix(removed, s.req.path, s.req.url);
    assert s2.levels == s.levels + [Level(stack, 0, RestorePrefix(removed))];
    assert s2.frames == s.frames + [DispatchNext(m.level)];
    assert MountOk(s2, m);
    ChainSnoc(s, s2, base, ms, m);
  }

  /** `EnterMount` pushes the new level and calls its `next()`. */
  lemma EnterMountRuns(s: State, route: Option<ParsedRoute>, stack: seq<Middleware>)
    ensures EnterMount(s, route, stack)
         == LevelNext(DispatchFacts.MountState(s, MatchedPrefix(s.req.path, route), stack), |s.levels|, NoReason)
  {
    PushPop(s.frames, DispatchNext(|s.levels|));
  }

  lemma InvokeMountedInside(s: State, base: seq<NextHandle>, ms: seq<Mount>, route: Option<ParsedRoute>, stack: seq<Middleware>)
      returns (ms': seq<Mount>, t: State, e: Reason)
    requires Inside(s, base, ms) && s.tasks == [] && PathRoute(route) && WellBehavedStack(stack)
    ensures Continues(EnterMount(s, route, stack), base, ms[0], ms', t, e)
  {
    var m := Mount(|s.levels|, MatchedPrefix(s.req.path, route), s.req.url, s.req.path);
    EnterMountInside(s, base, ms, route, stack);
    EnterMountRuns(s, route, stack);
    var s2 := DispatchFacts.MountState(s, MatchedPrefix(s.req.path, route), stack);
    assert (ms + [m])[0] == ms[0] && (ms + [m])[|ms|] == m;
    ms', t, e := LevelNextInside(s2, base, ms + [m], NoReason);
  }

  lemma InvokeGatedInside(s: State, base: seq<NextHandle>, ms: seq<Mount>, verb: string, inner: Handle, err: Reason)
      returns (ms': seq<Mount>, t: State, e: Reason)
    requires Inside(s, base, ms) && s.tasks == [] && WellBehaved(inner)
    ensures Continues(Invoke(s, MethodGated(verb, inner), err).0, base, ms[0], ms', t, e)
  {
    FramesTop(base, ms);
    var x := if IsMiddlewareErrorHandle(inner) then err else NoReason;
    if s.req.httpMethod != verb {
      assert Invoke(s, MethodGated(verb, inner), err).0 == CtxNext(s, x);
      assert CtxNext(s, x) == LevelNext(s, ms[|ms| - 1].level, x);
      ms', t, e := LevelNextInside(s, base, ms, x);
    } else {
      var s1 := s.(tasks := [Task(inner, x, ToContext)]);
      assert Invoke(s, MethodGated(verb, inner), err).0 == s1;
      ChainKeepsTasks(s, base, ms, s1.tasks);
      ms', t, e := ms, s, NoReason;
    }
  }

  /** The chain does not depend on the queue of deferred calls. */
  lemma ChainKeepsTasks(s: State, base: seq<NextHandle>, ms: seq<Mount>, tasks: seq<Task>)
    requires Chain(s, base, ms)
    ensures Chain(s.(tasks := tasks), base, ms)
  {
    ChainKept(s, s.(tasks := tasks), base, ms);
  }

  lemma InvokePlainInside(s: State, base: seq<NextHandle>, ms: seq<Mount>, arity: nat, b: Behaviour, err: Reason)
      returns (ms': seq<Mount>, t: State, e: Reason)
    requires Inside(s, base, ms) && s.tasks == []
    ensures var (r, o) := Invoke(s, Plain(arity, b), err);
            && (o.Returned? ==> Continues(r, base, ms[0], ms', t, e))
            && (!o.Returned? ==> r == s)
  {
    FramesTop(base, ms);
    ms', t, e := ms, s, NoReason;
    match b {
      case CallsNext => ms', t, e := LevelNextInside(s, base, ms, NoReason);
      case CallsNextWith(x) => ms', t, e := LevelNextInside(s, base, ms, x);
      case PassesError => ms', t, e := LevelNextInside(s, base, ms, err);
      case CallsNextAndResolves => ms', t, e := LevelNextInside(s, base, ms, NoReason);
      case Throws(_) =>
      case Rejects(_) =>
      case Resolves =>
      case Responds(st, body) =>
        ChainKept(s, s.(responses := s.responses + [(st, body)]), base, ms);
    }
  }

  lemma InvokeClassicalInside(s: State, base: seq<NextHandle>, ms: seq<Mount>, route: Option<ParsedRoute>,
                              errorHandle: bool, c: ClassicalBehaviour, err: Reason)
      returns (ms': seq<Mount>, t: State, e: Reason)
    requires Inside(s, base, ms) && s.tasks == [] && PathRoute(route) && !c.ClassicalThrows?
    ensures var (r, o) := Invoke(s, FromClassical(route, errorHandle, c), err);
            o.Returned? && (Continues(r, base, ms[0], ms', t, e) || Stopped(r, base, ms[0]))
  {
    ms', t, e := ms, s, NoReason;
    match c {
      case ClassicalNext(x) =>
        FramesTop(base, ms);
        DispatchFacts.ClassicalNextRestoresPath(s, route, errorHandle, x, err);
        ms', t, e := LevelNextInside(s, base, ms, x);
      case ClassicalResponds(_, _) =>
        FramesHead(base, ms);
        assert Invoke(s, FromClassical(route, errorHandle, c), err).0.frames == s.frames;
    }
  }

  /** Calling one handler at the innermost level: the dispatch stays inside
    * `ms[0]`, stops (the handler answered and called nothing), or `ms[0]` hands
    * the request on with its own URL and path; a handler that throws or
    * rejects changes nothing. */
  lemma InvokeInside(s: State, base: seq<NextHandle>, ms: seq<Mount>, h: Handle, err: Reason)
      returns (ms': seq<Mount>, t: State, e: Reason)
    requires Inside(s, base, ms) && s.tasks == [] && WellBehaved(h)
    ensures var (r, o) := Invoke(s, h, err);
            && (o.Returned? ==> Continues(r, base, ms[0], ms', t, e) || Stopped(r, base, ms[0]))
            && (!o.Returned? ==> r == s)
  {
    match h
    case Plain(arity, b) => ms', t, e := InvokePlainInside(s, base, ms, arity, b, err);
    case Mounted(route, stack) =>
      ms', t, e := InvokeMountedInside(s, base, ms, route, stack);
      assert Invoke(s, h, err) == (EnterMount(s, route, stack), Returned);
    case MethodGated(verb, inner) => ms', t, e := InvokeGatedInside(s, base, ms, verb, inner, err);
    case FromClassical(route, errorHandle, c) => ms', t, e := InvokeClassicalInside(s, base, ms, route, errorHandle, c, err);
  }

  /** One deferred handler call inside `ms[0]`: the same three outcomes; an
    * error the handler throws goes to the innermost level. */
  lemma RunTaskInside(s: State, base: seq<NextHandle>, ms: seq<Mount>)
      returns (ms': seq<Mount>, t: State, e: Reason)
    requires Inside(s, base, ms)
    ensures Continues(RunTask(s), base, ms[0], ms', t, e) || Stopped(RunTask(s), base, ms[0])
  {
    ms', t, e := ms, s, NoReason;
    if s.tasks != [] {
      var task := s.tasks[0];
      assert task in s.tasks;
      var s0 := s.(tasks := s.tasks[1..]);
      assert s0.tasks == [];
      assert Chain(s0, base, ms);
      ms', t, e := InvokeInside(s0, base, ms, task.handle, task.err);
      var o := Invoke(s0, task.handle, task.err).1;
      if !o.Returned? {
        FramesTop(base, ms);
        ms', t, e := LevelNextInside(s0, base, ms, o.err);
      }
    }
  }

  /** Any number of deferred calls inside `ms[0]`: still inside, stopped inside, or
    * `ms[0]` has handed the request on (the state `t`) with its own URL and
    * path, and the rest of the run goes on from there. */
  lemma {:induction false} RunInside(s: State, base: seq<NextHandle>, ms: seq<Mount>, fuel: nat)
      returns (ms': seq<Mount>, t: State, e: Reason, f: nat)
    requires Inside(s, base, ms)
    ensures Outcome(Run(s, fuel), base, ms[0], ms', t, e, f, fuel)
    decreases fuel, 0
  {
    ms', t, e, f := ms, s, NoReason, 0;
    if fuel > 0 && s.tasks != [] {
      var ms1, t1, e1 := RunTaskInside(s, base, ms);
      ms', t, e, f := RunOn(RunTask(s), base, ms[0], ms1, t1, e1, fuel - 1);
    }
  }

  /** The step after one deferred call: from a state that is still inside `m`,
    * stopped inside `m`, or the outer `next` called on what `m` handed on. */
  lemma {:induction false} RunOn(r: State, base: seq<NextHandle>, m: Mount, ms: seq<Mount>, t0: State, e0: Reason, fuel: nat)
      returns (ms': seq<Mount>, t: State, e: Reason, f: nat)
    requires Continues(r, base, m, ms, t0, e0) || Stopped(r, base, m)
    ensures Outcome(Run(r, fuel), base, m, ms', t, e, f, fuel + 1)
    decreases fuel, 1
  {
    ms', t, e, f := ms, t0, e0, fuel;
    if ms != [] && Inside(r, base, ms) && ms[0] == m {
      ms', t, e, f := RunInside(r, base, ms, fuel);
    } else if Stopped(r, base, m) {
      assert Run(r, fuel) == r;
    }
  }

  /** A mounted application, run as a deferred handler call over any stack of
    * well-behaved handlers: however many calls follow, the dispatch is still
    * inside it, has stopped with its continuation still on the context, or it has called the outer `next` on a state `t`
    * whose URL and path are exactly those from before it was entered, its
    * continuation gone from the context. */
  lemma MountHandsOnAsFound(s: State, route: Option<ParsedRoute>, stack: seq<Middleware>, err: Reason, target: ErrorTarget, fuel: nat)
      returns (ms': seq<Mount>, t: State, e: Reason, f: nat)
    requires s.tasks == [Task(Mounted(route, stack), err, target)]
    requires PathRoute(route) && WellBehavedStack(stack) && IsPrefix(s.req.path, s.req.url)
    ensures var r := Run(s, fuel + 1);
            || (ms' != [] && Inside(r, s.frames, ms')
                  && ms'[0] == Mount(|s.levels|, MatchedPrefix(s.req.path, route), s.req.url, s.req.path))
            || (r.tasks == [] && |s.frames| < |r.frames| && r.frames[|s.frames|] == DispatchNext(|s.levels|))
            || (f <= fuel && r == Run(CtxNext(t, e), f)
                  && t.frames == s.frames && t.req.url == s.req.url && t.req.path == s.req.path)
  {
    var m := Mount(|s.levels|, MatchedPrefix(s.req.path, route), s.req.url, s.req.path);
    var s0 := s.(tasks := []);
    assert s.tasks[1..] == [] && s0 == s.(tasks := s.tasks[1..]);
    assert Chain(s0, s.frames, []);
    EnterMountInside(s0, s.frames, [], route, stack);
    EnterMountRuns(s0, route, stack);
    var s2 := DispatchFacts.MountState(s0, MatchedPrefix(s.req.path, route), stack);
    assert [] + [m] == [m];
    var ms1, t1, e1 := LevelNextInside(s2, s.frames, [m], NoReason);
    var s1 := RunTask(s);
    assert s1 == EnterMount(s0, route, stack);
    assert Run(s, fuel + 1) == Run(s1, fuel);
    if ms1 != [] && Inside(s1, s.frames, ms1) && ms1[0] == m {
      ms', t, e, f := RunInside(s1, s.frames, ms1, fuel);
    } else {
      ms', t, e, f := ms1, t1, e1, fuel;
      assert s1 == CtxNext(t, e) && HandedOn(t, s.frames, m);
    }
  }

  /** The exception: a classical middleware that throws leaves the prefix it
    * removed off the path, and the error goes on with the shortened path. */
  lemma ClassicalThrowLeavesPrefixRemoved(s: State, route: Option<ParsedRoute>, errorHandle: bool, x: Reason, err: Reason)
    requires PathRoute(route) && MatchedPrefix(s.req.path, route) != []
    ensures var (r, o) := Invoke(s, FromClassical(route, errorHandle, ClassicalThrows(x)), err);
            && o == Threw(x)
            && r.req.path == Drop(s.req.path, |MatchedPrefix(s.req.path, route)|)
            && |r.req.path| < |s.req.path|
  {
  }
}
