/** How a request travels through a middleware stack: the `next` closure of
  * each dispatch level, the continuation stack on the context, deferred
  * handler execution, mounted sub-applications, method-restricted handlers
  * and the adapters for classical `(req, res, next)` middleware.
  *
  * Handlers are described by what they do when called (call `next`, throw,
  * return a promise that rejects, ...). Each `next` closure is a Level: its
  * own snapshot of the stack, its own read position and what it calls when
  * the stack is exhausted; the context's stack holds level numbers. Handler
  * calls deferred with `process.nextTick` wait in `tasks`, first in first out. */
module Dispatch {
  import opened Wrappers
  import opened Text
  import opened Values
  import opened Route
  import opened Ctx
  import Req

  /** What a handler written for this framework does when it is called. */
  datatype Behaviour =
    | CallsNext                       // ctx.next()
    | CallsNextWith(err: Reason)      // ctx.next(err)
    | PassesError                     // ctx.next(err) with the error it received
    | Throws(err: Reason)             // throws
    | Rejects(err: Reason)            // returns a promise that rejects
    | Resolves                        // returns a promise that resolves, and calls nothing
    | CallsNextAndResolves            // calls ctx.next(), then its promise resolves
    | Responds(status: int, body: string)   // ends the response

  /** What a classical `(req, res, next)` function does. */
  datatype ClassicalBehaviour =
    | ClassicalNext(err: Reason)
    | ClassicalThrows(err: Reason)
    | ClassicalResponds(status: int, body: string)

  datatype Handle =
    /** A handler function with its declared number of parameters. */
    | Plain(arity: nat, behaviour: Behaviour)
    /** `core.toMiddleware()`: the sub-application's route and stack. */
    | Mounted(route: Option<ParsedRoute>, stack: seq<Middleware>)
    /** `wrapMiddlewareHandleWithMethod(method, inner)`. */
    | MethodGated(httpMethod: string, inner: Handle)
    /** `fromClassicalHandle` / `fromClassicalErrorHandle`, with the route
      * last stamped on the handle by `use`. */
    | FromClassical(route: Option<ParsedRoute>, errorHandle: bool, classical: ClassicalBehaviour)

  /** What the router records about an entry for introspection. */
  datatype RouteInfo = RouteInfo(httpMethod: string, path: string)

  datatype Middleware = Middleware(
    route: Option<ParsedRoute>, handle: Handle, handleError: bool, atEnd: bool, info: Option<RouteInfo>)

  /** `handle.length`. */
  function Arity(h: Handle): nat
  {
    match h
    case Plain(n, _) => n
    case Mounted(_, _) => 1
    case MethodGated(_, inner) => if Arity(inner) > 1 then 2 else 1
    case FromClassical(_, errorHandle, _) => if errorHandle then 2 else 1
  }

  /** `isMiddlewareErrorHandle`: a handler declaring more than one parameter handles errors. */
  predicate IsMiddlewareErrorHandle(h: Handle)
  {
    Arity(h) > 1
  }

  /** The method wrapper keeps the wrapped handler's kind. */
  function WrapMiddlewareHandleWithMethod(httpMethod: string, h: Handle): (r: Handle)
    ensures IsMiddlewareErrorHandle(r) <==> IsMiddlewareErrorHandle(h)
  {
    MethodGated(httpMethod, h)
  }

  function FromClassicalHandle(c: ClassicalBehaviour): (r: Handle)
    ensures !IsMiddlewareErrorHandle(r)
  {
    FromClassical(None, false, c)
  }

  function FromClassicalErrorHandle(c: ClassicalBehaviour): (r: Handle)
    ensures IsMiddlewareErrorHandle(r)
  {
    FromClassical(None, true, c)
  }

  /** What the exhausted level calls: the caller's `done` callback, or the
    * mounted application's continuation, which puts back the prefix it removed
    * and calls the outer `next`. */
  datatype Done = Finish(callback: nat) | RestorePrefix(removed: string)

  datatype Level = Level(stack: seq<Middleware>, index: nat, done: Done)

  /** Where an error thrown by a deferred handler goes: the level's own `next`,
    * or `ctx.next` (for the handler inside a method wrapper). */
  datatype ErrorTarget = ToLevel(level: nat) | ToContext

  datatype Task = Task(handle: Handle, err: Reason, onError: ErrorTarget)

  datatype State = State(
    req: Req.ReqView,
    levels: seq<Level>,
    frames: seq<Ctx.NextHandle>,
    errorListeners: nat,
    /** The `error` events emitted, in order. */
    emitted: seq<Reason>,
    /** Calls of outside callbacks (`done`, a classical `next`), with their argument. */
    callbacks: seq<(nat, Reason)>,
    responses: seq<(int, string)>,
    tasks: seq<Task>,
    /** Errors thrown out of the framework to its caller. */
    uncaught: seq<Reason>)

  function Strip(req: Req.ReqView, removed: string): Req.ReqView
  {
    req.(url := Drop(req.url, |removed|), path := Drop(req.path, |removed|))
  }

  function Restore(req: Req.ReqView, removed: string): Req.ReqView
  {
    req.(url := removed + req.url, path := removed + req.path)
  }

  /** Removing a prefix and putting it back is the identity when the prefix
    * starts the path and the path starts the URL. */
  lemma StripRestore(req: Req.ReqView, removed: string)
    requires IsPrefix(removed, req.path) && IsPrefix(req.path, req.url)
    ensures Restore(Strip(req, removed), removed) == req
  {
    PrefixDropRestore(removed, req.path);
    assert IsPrefix(removed, req.url) by {
      assert req.url[..|removed|] == req.url[..|req.path|][..|removed|];
    }
    PrefixDropRestore(removed, req.url);
  }

  /** The prefix a mounted application or classical handler removes. */
  function MatchedPrefix(path: string, route: Option<ParsedRoute>): (r: string)
    ensures route.None? ==> r == []
    ensures route.Some? && route.value.regexp.PathPattern? ==> IsPrefix(r, path)
  {
    if route.Some? then GetRouteMatchPath(path, route) else []
  }

  /** `getNextHandle` / `getNextErrorHandle`: the position of the first entry
    * at or after `from` of the wanted kind, or, when there is none, the
    * position just past the end at which reading stopped. */
  function Scan(stack: seq<Middleware>, from: nat, wantError: bool): (j: nat)
    ensures from <= j
    ensures j < |stack| ==> stack[j].handleError == wantError
    ensures forall k :: from <= k < j && k < |stack| ==> stack[k].handleError != wantError
    ensures j >= |stack| ==> j == if from > |stack| then from else |stack|
    decreases |stack| - from
  {
    if from >= |stack| then from
    else if stack[from].handleError == wantError then from
    else Scan(stack, from + 1, wantError)
  }

  /** How many more entries a level may still read. */
  function Remaining(s: State, id: nat): nat
  {
    if id < |s.levels| && s.levels[id].index <= |s.levels[id].stack|
    then |s.levels[id].stack| + 1 - s.levels[id].index
    else 0
  }

  function Emit(emitted: seq<Reason>, listeners: nat, err: Reason): seq<Reason>
  {
    if IsError(err) && listeners > 0 then emitted + [err] else emitted
  }

  /** The level after reading up to and including position `j`, and the
    * `error` event of this call. */
  function Advance(s: State, id: nat, j: nat, err: Reason): (r: State)
    requires id < |s.levels|
    ensures |r.levels| == |s.levels| && r.frames == s.frames && r.req == s.req
    ensures r.levels[id] == s.levels[id].(index := j + 1)
  {
    s.(levels := s.levels[id := s.levels[id].(index := j + 1)],
       emitted := Emit(s.emitted, s.errorListeners, err))
  }

  /** Running entry `m` of level `id`: its route's parameters replace the
    * request's, and its handler is scheduled with the error. */
  function Schedule(s: State, id: nat, m: Middleware, err: Reason): State
  {
    s.(req := s.req.(params := GetRouteParams(s.req.path, m.route)),
       tasks := s.tasks + [Task(m.handle, err, ToLevel(id))])
  }

  /** The `next(err)` closure of level `id`: take the next entry of the
    * wanted kind and normalise the error to the error or null; emit `error`
    * when there is an error and someone listens; when the stack is exhausted,
    * leave the level; skip an entry whose route does not match the path,
    * calling `next` again with the error; otherwise run the entry. */
  function LevelNext(s: State, id: nat, err: Reason): State
    decreases |s.frames|, 2, Remaining(s, id)
  {
    if id >= |s.levels| then s
    else
      var lv := s.levels[id];
      var e := OrNull(err);
      var j := Scan(lv.stack, lv.index, IsError(err));
      var s1 := Advance(s, id, j, e);
      if j >= |lv.stack| then Leave(s1, lv.done, e)
      else if !TestRoutePath(s.req.path, lv.stack[j].route) then LevelNext(s1, id, e)
      else Schedule(s1, id, lv.stack[j], e)
  }

  /** An exhausted level pops the context's top continuation and calls its
    * `done`: the caller's callback, or the mounted application's
    * continuation, which puts back the removed prefix and calls `ctx.next`
    * (which does nothing once the continuation stack is empty). */
  function Leave(s: State, done: Done, err: Reason): State
    decreases |s.frames|, 1, 0
  {
    var s2 := s.(frames := Pop(s.frames));
    match done
    case Finish(cb) => s2.(callbacks := s2.callbacks + [(cb, err)])
    case RestorePrefix(removed) =>
      var s3 := if removed != [] then s2.(req := Restore(s2.req, removed)) else s2;
      if s.frames == [] then s3 else CtxNext(s3, err)
  }

  /** `ctx.next(err)`: call the top continuation, if any. */
  function CtxNext(s: State, err: Reason): State
    decreases |s.frames|, 3, 0
  {
    match Top(s.frames)
    case None => s
    case Some(ExternalNext(cb)) => s.(callbacks := s.callbacks + [(cb, err)])
    case Some(DispatchNext(l)) => LevelNext(s, l, err)
  }

  function OnError(s: State, target: ErrorTarget, err: Reason): State
  {
    match target
    case ToLevel(l) => LevelNext(s, l, err)
    case ToContext => CtxNext(s, err)
  }

  /** `handleRequestByContext(ctx, done)`: a new level over `stack`, pushed
    * on the context, then `ctx.next()`. */
  function HandleRequestByContext(s: State, stack: seq<Middleware>, done: Done): State
  {
    var id := |s.levels|;
    var s1 := s.(levels := s.levels + [Level(stack, 0, done)], frames := Ctx.Push(s.frames, Ctx.DispatchNext(id)));
    CtxNext(s1, NoReason)
  }

  /** The mounted application's handler: remove the matched prefix from URL and
    * path, then dispatch its stack with a continuation that restores them. */
  function EnterMount(s: State, route: Option<ParsedRoute>, stack: seq<Middleware>): State
  {
    var removed := MatchedPrefix(s.req.path, route);
    var s1 := if removed != [] then s.(req := Strip(s.req, removed)) else s;
    HandleRequestByContext(s1, stack, RestorePrefix(removed))
  }

  datatype Outcome = Returned | Threw(err: Reason) | RejectedWith(err: Reason)

  /** Calling `handle(ctx, err)`: what it changes, and whether it threw or
    * returned a promise that rejects. */
  function Invoke(s: State, h: Handle, err: Reason): (State, Outcome)
  {
    match h
    case Plain(_, b) =>
      (match b
       case CallsNext => (CtxNext(s, NoReason), Returned)
       case CallsNextWith(e) => (CtxNext(s, e), Returned)
       case PassesError => (CtxNext(s, err), Returned)
       case Throws(e) => (s, Threw(e))
       case Rejects(e) => (s, RejectedWith(e))
       case Resolves => (s, Returned)
       case CallsNextAndResolves => (CtxNext(s, NoReason), Returned)
       case Responds(st, body) => (s.(responses := s.responses + [(st, body)]), Returned))
    case Mounted(route, stack) => (EnterMount(s, route, stack), Returned)
    case MethodGated(m, inner) =>
      // the one-parameter wrapper of an ordinary handler drops `err`
      var e := if IsMiddlewareErrorHandle(inner) then err else NoReason;
      if s.req.httpMethod != m then (CtxNext(s, e), Returned)
      else (s.(tasks := s.tasks + [Task(inner, e, ToContext)]), Returned)
    case FromClassical(route, _, c) =>
      var removed := MatchedPrefix(s.req.path, route);
      var s1 := ClassicalView(s, route);
      (match c
       case ClassicalNext(e) =>
         (CtxNext(if removed != [] then s1.(req := Restore(s1.req, removed)) else s1, e), Returned)
       case ClassicalThrows(e) => (s1, Threw(e))
       case ClassicalResponds(st, body) => (s1.(responses := s1.responses + [(st, body)]), Returned))
  }

  /** The state a classical middleware runs on: the prefix its route matched
    * taken off the URL and the path. */
  function ClassicalView(s: State, route: Option<ParsedRoute>): State
  {
    var removed := MatchedPrefix(s.req.path, route);
    if removed != [] then s.(req := Strip(s.req, removed)) else s
  }

  /** One deferred call of `execMiddlewareHandle`: an error thrown, or a
    * rejected promise, goes to the error target. */
  function RunTask(s: State): State
  {
    if s.tasks == [] then s
    else
      var t := s.tasks[0];
      var (s1, o) := Invoke(s.(tasks := s.tasks[1..]), t.handle, t.err);
      match o
      case Returned => s1
      case Threw(e) => OnError(s1, t.onError, e)
      case RejectedWith(e) => OnError(s1, t.onError, e)
  }

  /** Up to `fuel` deferred calls, in order. */
  function Run(s: State, fuel: nat): State
    decreases fuel
  {
    if fuel == 0 || s.tasks == [] then s else Run(RunTask(s), fuel - 1)
  }

  /** `toClassicalHandle(fn)` called with a classical `next` (callback `cb`):
    * a new context whose stack holds only that callback, and `fn(ctx)`
    * called directly; a rejected promise goes to the callback, a throw
    * escapes to the caller. */
  function ToClassicalHandle(s: State, h: Handle, cb: nat): State
  {
    var s1 := s.(frames := [Ctx.ExternalNext(cb)]);
    var (s2, o) := Invoke(s1, h, NoReason);
    match o
    case Returned => s2
    case Threw(e) => s2.(uncaught := s2.uncaught + [e])
    case RejectedWith(e) => s2.(callbacks := s2.callbacks + [(cb, e)])
  }
}
