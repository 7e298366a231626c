/** The earlier revision of the dispatcher, `BaseConnect`: `use` appends to
  * the tail, the context holds a single `next` slot instead of a stack, a
  * handler is called directly (not deferred), a throw becomes `next(err)`
  * at once, and a returned promise is followed by `next()` when it resolves
  * and `next(err)` when it rejects, whatever the handler itself called. */
module Base {
  import opened Wrappers
  import opened Values
  import opened Route
  import opened Dispatch
  import opened DispatchFacts

  /** The entry `use` pushes for a handler of the given arity and behaviour. */
  function BaseEntry(route: Option<ParsedRoute>, arity: nat, b: Behaviour): (m: Middleware)
    ensures m.handleError <==> arity > 1
    ensures m.handle == Plain(arity, b) && m.route == route && !m.atEnd
  {
    Middleware(route, Plain(arity, b), arity > 1, false, None)
  }

  function BaseEntries(route: Option<ParsedRoute>, hs: seq<(nat, Behaviour)>): (r: seq<Middleware>)
    ensures |r| == |hs|
    ensures forall i :: 0 <= i < |hs| ==> r[i] == BaseEntry(route, hs[i].0, hs[i].1)
  {
    if hs == [] then [] else [BaseEntry(route, hs[0].0, hs[0].1)] + BaseEntries(route, hs[1..])
  }

  lemma PushBaseEntry(route: Option<ParsedRoute>, hs: seq<(nat, Behaviour)>, i: nat)
    requires i < |hs|
    ensures BaseEntries(route, hs[..i + 1]) == BaseEntries(route, hs[..i]) + [BaseEntry(route, hs[i].0, hs[i].1)]
  {
    var l, r := BaseEntries(route, hs[..i + 1]), BaseEntries(route, hs[..i]) + [BaseEntry(route, hs[i].0, hs[i].1)];
    assert |l| == |r|;
    forall k | 0 <= k < |l| ensures l[k] == r[k] {
      assert hs[..i + 1][k] == if k < i then hs[..i][k] else hs[i];
    }
  }

  class BaseConnect {
    var stack: seq<Middleware>

    constructor()
      ensures stack == []
    {
      stack := [];
    }

    /** `use(route, ...handles)`: each handler pushed at the tail, an error
      * handler when it declares more than one parameter. */
    method Use(route: Option<ParsedRoute>, handles: seq<(nat, Behaviour)>)
      modifies this
      ensures stack == old(stack) + BaseEntries(route, handles)
    {
      ghost var s0 := stack;
      var i := 0;
      while i < |handles|
        invariant 0 <= i <= |handles|
        invariant stack == s0 + BaseEntries(route, handles[..i])
      {
        ghost var e := BaseEntries(route, handles[..i]);
        var item := BaseEntry(route, handles[i].0, handles[i].1);
        PushBaseEntry(route, handles, i);
        stack := stack + [item];
        assert stack == s0 + (e + [item]);
        i := i + 1;
      }
      assert handles[..i] == handles;
    }
  }

  /** One dispatch: the request path, the shared read position, the
    * parameters last set, and what reached the outside: `done` calls,
    * responses, the continuations promises will call later, and the
    * positions of the entries that ran. */
  datatype BState = BState(
    path: string, index: nat, params: map<string, string>,
    done: seq<Reason>, responses: seq<(int, string)>, deferred: seq<Reason>, ran: seq<nat>)

  function Budget(stack: seq<Middleware>, index: nat): nat
  {
    if index <= |stack| then |stack| + 1 - index else 0
  }

  /** `getNextHandle` / `getNextErrorHandle`, repeated while the route of
    * the entry found does not match the path: in this revision the recursive
    * `next(err)` of a skip does nothing else. */
  function NextRunnable(stack: seq<Middleware>, from: nat, wantError: bool, path: string): (k: nat)
    ensures from <= k
    decreases |stack| - from
  {
    var j := Scan(stack, from, wantError);
    if j >= |stack| || TestRoutePath(path, stack[j].route) then j
    else NextRunnable(stack, j + 1, wantError, path)
  }

  /** `next(err)`: the next entry of the wanted kind whose route matches, run;
    * `done(err)`, with the error as it is, when there is none. */
  function BaseNext(stack: seq<Middleware>, s: BState, err: Reason): BState
    decreases Budget(stack, s.index), 0
  {
    var k := NextRunnable(stack, s.index, IsError(err), s.path);
    var s1 := s.(index := k + 1);
    if k >= |stack| then s1.(done := s1.done + [err])
    else RunEntry(stack, s1, stack[k], k, err)
  }

  /** Running entry `j`: parameters, then the handler called directly. */
  function RunEntry(stack: seq<Middleware>, s: BState, m: Middleware, j: nat, err: Reason): BState
    decreases Budget(stack, s.index), 1
  {
    var s2 := s.(params := GetRouteParams(s.path, m.route), ran := s.ran + [j]);
    match m.handle
    case Plain(_, b) =>
      (match b
       case CallsNext => BaseNext(stack, s2, NoReason)
       case CallsNextWith(e) => BaseNext(stack, s2, e)
       case PassesError => BaseNext(stack, s2, err)
       case Throws(e) => BaseNext(stack, s2, e)
       case Rejects(e) => s2.(deferred := s2.deferred + [e])
       case Resolves => s2.(deferred := s2.deferred + [NoReason])
       case CallsNextAndResolves =>
         var s3 := BaseNext(stack, s2, NoReason);
         s3.(deferred := s3.deferred + [NoReason])
       case Responds(st, body) => s2.(responses := s2.responses + [(st, body)]))
    // `use` of this revision registers plain handlers only
    case _ => s2
  }

  /** A settled promise calls the continuation it was given. */
  function Resume(stack: seq<Middleware>, s: BState): BState
  {
    if s.deferred == [] then s
    else BaseNext(stack, s.(deferred := s.deferred[1..]), s.deferred[0])
  }

  /** `handleRequestByContext`: `next` set as the context's continuation, then called. */
  function BaseHandle(stack: seq<Middleware>, path: string): BState
  {
    BaseNext(stack, BState(path, 0, map[], [], [], [], []), NoReason)
  }

  /** The scan-and-skip of `next` finds exactly the first entry at or after
    * the read position that has the wanted kind and a matching route. */
  lemma {:induction false} NextRunnableIsFirstRunnable(stack: seq<Middleware>, from: nat, wantError: bool, path: string)
    ensures NextRunnable(stack, from, wantError, path) == FirstRunnable(stack, from, wantError, path)
    decreases |stack| - from
  {
    var j := Scan(stack, from, wantError);
    var k := FirstRunnable(stack, from, wantError, path);
    ScanReachesFirstRunnable(stack, from, wantError, path);
    if j >= |stack| || TestRoutePath(path, stack[j].route) {
      FirstRunnableUnique(stack, from, wantError, path, j);
    } else {
      assert j < k;
      FirstRunnableUnique(stack, j + 1, wantError, path, k);
      NextRunnableIsFirstRunnable(stack, j + 1, wantError, path);
    }
  }

  /** A handler that calls `next()` and also returns a promise advances the
    * dispatch twice. Wherever it is found in the stack, the direct `next()`
    * runs the rest of the dispatch from the entry after it (giving `s3`);
    * the promise's `next()` is queued behind whatever that rest deferred, and
    * when nothing else was deferred it calls `next` again from the position
    * the first run reached. */
  lemma NextAndResolveAdvancesTwice(stack: seq<Middleware>, s: BState, err: Reason)
    requires NextRunnable(stack, s.index, IsError(err), s.path) < |stack|
    requires stack[NextRunnable(stack, s.index, IsError(err), s.path)].handle.Plain?
    requires stack[NextRunnable(stack, s.index, IsError(err), s.path)].handle.behaviour == CallsNextAndResolves
    ensures var k := NextRunnable(stack, s.index, IsError(err), s.path);
            var s3 := BaseNext(stack, s.(index := k + 1, params := GetRouteParams(s.path, stack[k].route), ran := s.ran + [k]), NoReason);
            && BaseNext(stack, s, err) == s3.(deferred := s3.deferred + [NoReason])
            && (s3.deferred == [] ==> Resume(stack, BaseNext(stack, s, err)) == BaseNext(stack, s3, NoReason))
  {
    var k := NextRunnable(stack, s.index, IsError(err), s.path);
    var m := stack[k];
    var s2 := s.(index := k + 1, params := GetRouteParams(s.path, m.route), ran := s.ran + [k]);
    assert s2 == s.(index := k + 1).(params := GetRouteParams(s.path, m.route), ran := s.ran + [k]);
    var s3 := BaseNext(stack, s2, NoReason);
    assert BaseNext(stack, s, err) == RunEntry(stack, s.(index := k + 1), m, k, err);
    var r := s3.(deferred := s3.deferred + [NoReason]);
    if s3.deferred == [] {
      assert r.deferred[1..] == [] && r.(deferred := r.deferred[1..]) == s3;
    }
  }

  /** When no ordinary entry after that handler matches, `done` is called
    * twice with no error: once at once, once when the promise settles. */
  lemma NextAndResolveDoneTwice(stack: seq<Middleware>, s: BState, err: Reason)
    requires NextRunnable(stack, s.index, IsError(err), s.path) < |stack|
    requires stack[NextRunnable(stack, s.index, IsError(err), s.path)].handle.Plain?
    requires stack[NextRunnable(stack, s.index, IsError(err), s.path)].handle.behaviour == CallsNextAndResolves
    requires s.deferred == []
    requires NextRunnable(stack, NextRunnable(stack, s.index, IsError(err), s.path) + 1, false, s.path) >= |stack|
    ensures BaseNext(stack, s, err).done == s.done + [NoReason]
    ensures BaseNext(stack, s, err).deferred == [NoReason]
    ensures Resume(stack, BaseNext(stack, s, err)).done == s.done + [NoReason, NoReason]
  {
    NextAndResolveAdvancesTwice(stack, s, err);
    var k := NextRunnable(stack, s.index, IsError(err), s.path);
    var s2 := s.(index := k + 1, params := GetRouteParams(s.path, stack[k].route), ran := s.ran + [k]);
    var j := NextRunnable(stack, k + 1, false, s.path);
    assert !IsError(NoReason);
    NothingRunnable(stack, s2, NoReason);
    var s3 := s2.(index := j + 1, done := s2.done + [NoReason]);
    assert BaseNext(stack, s2, NoReason) == s3;
    assert NextRunnable(stack, s3.index, false, s.path) >= j + 1 > |stack|;
    NothingRunnable(stack, s3, NoReason);
  }

  /** With nothing runnable left, `next(err)` calls `done(err)`. */
  lemma NothingRunnable(stack: seq<Middleware>, s: BState, err: Reason)
    requires NextRunnable(stack, s.index, IsError(err), s.path) >= |stack|
    ensures BaseNext(stack, s, err) == s.(index := NextRunnable(stack, s.index, IsError(err), s.path) + 1, done := s.done + [err])
  {
  }

  /** The single-entry case: `done` once at once, once more when the promise resolves. */
  lemma NextAndResolveAlone(m: Middleware, path: string)
    requires m.handle == Plain(1, CallsNextAndResolves) && !m.handleError && TestRoutePath(path, m.route)
    ensures BaseHandle([m], path).done == [NoReason]
    ensures BaseHandle([m], path).deferred == [NoReason]
    ensures Resume([m], BaseHandle([m], path)).done == [NoReason, NoReason]
  {
    var s0 := BState(path, 0, map[], [], [], [], []);
    assert Scan([m], 0, false) == 0;
    assert NextRunnable([m], 0, false, path) == 0;
    assert Scan([m], 1, false) == 1;
    assert NextRunnable([m], 1, false, path) == 1;
    NextAndResolveDoneTwice([m], s0, NoReason);
  }
}
