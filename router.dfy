/** The router: one registration method per HTTP verb, each appending end
  * entries whose routes match the whole path and whose handlers (for every
  * verb except ALL) run only for requests of that method. */
module Router {
  import opened Wrappers
  import opened Route
  import opened Dispatch
  import opened Core

  datatype Verb = All | Get | Head | Post | Put | Delete | Connect | Options | Trace | Patch

  function VerbName(v: Verb): string
  {
    match v
    case All => "ALL"
    case Get => "GET"
    case Head => "HEAD"
    case Post => "POST"
    case Put => "PUT"
    case Delete => "DELETE"
    case Connect => "CONNECT"
    case Options => "OPTIONS"
    case Trace => "TRACE"
    case Patch => "PATCH"
  }

  /** `route.toString()`: a string is itself, a RegExp prints as `/source/`. */
  function RouteToString(route: RouteSource): string
  {
    match route
    case PathString(s) => s
    case NativeRegExp(src) => "/" + src + "/"
  }

  /** The handlers a verb registers: ALL registers them as they are, every
    * other verb wraps each in the method check for its own name. */
  function VerbHandles(v: Verb, hs: seq<Handle>): (r: seq<Handle>)
    ensures |r| == |hs|
    ensures v == All ==> r == hs
    ensures v != All ==> forall i :: 0 <= i < |hs| ==> r[i] == MethodGated(VerbName(v), hs[i])
    ensures forall i :: 0 <= i < |hs| ==> (IsMiddlewareErrorHandle(r[i]) <==> IsMiddlewareErrorHandle(hs[i]))
  {
    if v == All then hs
    else if hs == [] then []
    else [WrapMiddlewareHandleWithMethod(VerbName(v), hs[0])] + VerbHandles(v, hs[1..])
  }

  /** What a verb registration records about itself. */
  function VerbInfo(v: Verb, route: RouteSource): RouteInfo
  {
    RouteInfo(VerbName(v), RouteToString(route))
  }

  class Router {
    /** The application core the router extends. */
    const core: Core

    constructor()
      ensures fresh(core) && core.stack == [] && core.route.None?
    {
      core := new Core();
    }

    /** `all/get/head/post/put/delete/connect/options/trace/patch(route, ...handles)`:
      * the route compiled in full-path mode, the handlers (wrapped unless ALL)
      * appended as end entries, with the verb and route recorded. */
    method Register(v: Verb, route: RouteSource, handles: seq<Handle>)
      modifies core
      ensures core.stack == old(core.stack) +
        Entries(ParseRoutePathFor(false, route), VerbHandles(v, handles), true, Some(VerbInfo(v, route)))
      ensures core.route == old(core.route)
    {
      core.AddToEnd(ParseRoutePathFor(false, route), VerbHandles(v, handles), Some(VerbInfo(v, route)));
    }
  }

  /** A verb route always exists and matches the whole path: a route string
    * without parameters matches exactly the path equal to it. */
  lemma VerbRouteIsFull(s: string, path: string)
    requires IsParamFree(s)
    ensures ParseRoutePathFor(false, PathString(s)) == Some(ParseRoutePath(PathString(s), true))
    ensures TestRoutePath(path, ParseRoutePathFor(false, PathString(s))) <==> path == s
  {
    StaticRouteFullMatch(s, path);
  }

  /** Verb entries keep the stack's layout, and whatever `use` adds later goes
    * before them: the stack after `use` is the old ordinary entries, the new
    * ones, then the end entries with the verb entries last. */
  lemma VerbEntriesFollowUse(stack: seq<Middleware>, v: Verb, route: RouteSource, hs: seq<Handle>,
                             useRoute: Option<ParsedRoute>, later: seq<Handle>)
    requires Partitioned(stack)
    ensures var added := Entries(ParseRoutePathFor(false, route), VerbHandles(v, hs), true, Some(VerbInfo(v, route)));
      var s1 := stack + added;
      var k := FirstAtEnd(stack);
      Partitioned(s1) &&
      AddAll(s1, useRoute, later) == stack[..k] + Entries(useRoute, later, false, None) + (stack[k..] + added)
  {
    var added := Entries(ParseRoutePathFor(false, route), VerbHandles(v, hs), true, Some(VerbInfo(v, route)));
    var s1 := stack + added;
    var k := FirstAtEnd(stack);
    AppendEndLayout(stack, ParseRoutePathFor(false, route), VerbHandles(v, hs), Some(VerbInfo(v, route)));
    assert FirstAtEnd(s1) == k by {
      if k == |stack| && |added| > 0 {
        assert s1[k] == added[0];
      } else if k < |stack| {
        assert s1[k] == stack[k];
      }
      assert forall i :: 0 <= i < k ==> s1[i] == stack[i];
      FirstAtEndIs(s1, k);
    }
    AddAllLayout(s1, useRoute, later);
    assert s1[..k] == stack[..k];
    assert s1[k..] == stack[k..] + added;
  }
}
