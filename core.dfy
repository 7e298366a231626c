/** The application core: its middleware stack, how `use`, `add` and
  * `addToEnd` fill it, and how a route given to `use` is compiled. How a
  * request is dispatched over the stack is in module Dispatch. */
module Core {
  import opened Wrappers
  import opened Route
  import opened Dispatch

  /** `parseRoutePath(isPrefix, route)`: "" and "/" in prefix mode give no
    * route at all; otherwise the route is compiled case-sensitively, strictly,
    * with "/" as delimiter, and matching to the end unless it is a prefix. */
  function ParseRoutePathFor(isPrefix: bool, route: RouteSource): (r: Option<ParsedRoute>)
    ensures r.None? <==> isPrefix && (route == PathString([]) || route == PathString("/"))
    ensures r.Some? ==> r.value == ParseRoutePath(route, !isPrefix)
  {
    if isPrefix && (route == PathString([]) || route == PathString("/")) then None
    else Some(ParseRoutePath(route, !isPrefix))
  }

  /** A stack entry for `handle`, with its kind decided by its arity. */
  function Entry(route: Option<ParsedRoute>, h: Handle, atEnd: bool, info: Option<RouteInfo>): (m: Middleware)
    ensures m.handleError <==> IsMiddlewareErrorHandle(h)
    ensures m.route == route && m.handle == h && m.atEnd == atEnd && m.info == info
  {
    Middleware(route, h, IsMiddlewareErrorHandle(h), atEnd, info)
  }

  /** The entries for `handles`, in order. */
  function Entries(route: Option<ParsedRoute>, hs: seq<Handle>, atEnd: bool, info: Option<RouteInfo>): (r: seq<Middleware>)
    ensures |r| == |hs|
    ensures forall i :: 0 <= i < |hs| ==> r[i] == Entry(route, hs[i], atEnd, info)
  {
    if hs == [] then [] else [Entry(route, hs[0], atEnd, info)] + Entries(route, hs[1..], atEnd, info)
  }

  /** `stack.findIndex(v => v.atEnd)`, with `|stack|` standing for -1. */
  function FirstAtEnd(stack: seq<Middleware>): (i: nat)
    ensures i <= |stack|
    ensures i < |stack| ==> stack[i].atEnd
    ensures forall k :: 0 <= k < i ==> !stack[k].atEnd
  {
    if stack == [] then 0
    else if stack[0].atEnd then 0
    else 1 + FirstAtEnd(stack[1..])
  }

  /** One step of `add`: `push` when there is no end entry, otherwise
    * `splice(i, -1, item)`, which (a negative count deleting nothing) inserts
    * the item at the first end entry. */
  function InsertBeforeEnd(stack: seq<Middleware>, item: Middleware): seq<Middleware>
  {
    var i := FirstAtEnd(stack);
    if i == |stack| then stack + [item] else stack[..i] + [item] + stack[i..]
  }

  /** What `add(route, ...handles)` leaves on the stack: one insertion per handle, in order. */
  function AddAll(stack: seq<Middleware>, route: Option<ParsedRoute>, hs: seq<Handle>): seq<Middleware>
    decreases |hs|
  {
    if hs == [] then stack
    else AddAll(InsertBeforeEnd(stack, Entry(route, hs[0], false, None)), route, hs[1..])
  }

  /** Ordinary entries come first, entries registered at the end after them. */
  predicate Partitioned(stack: seq<Middleware>)
  {
    forall i, j :: 0 <= i < j < |stack| && stack[i].atEnd ==> stack[j].atEnd
  }

  /** An ordinary entry goes in just before the first end entry, or at the
    * tail when there is none, and the layout is kept. */
  lemma InsertBeforeEndLayout(stack: seq<Middleware>, item: Middleware)
    requires Partitioned(stack) && !item.atEnd
    ensures var k := FirstAtEnd(stack);
      var r := InsertBeforeEnd(stack, item);
      r == stack[..k] + [item] + stack[k..] && Partitioned(r) && FirstAtEnd(r) == k + 1
  {
    var k := FirstAtEnd(stack);
    var r := stack[..k] + [item] + stack[k..];
    if k == |stack| {
      assert stack[..k] == stack && stack[k..] == [];
    }
    assert InsertBeforeEnd(stack, item) == r;
    assert forall i :: 0 <= i < k ==> r[i] == stack[i];
    assert forall i :: k < i < |r| ==> r[i] == stack[i - 1];
    assert r[k] == item;
    FirstAtEndIs(r, k + 1);
  }

  /** The position `findIndex` reports, characterised. */
  lemma {:induction false} FirstAtEndIs(stack: seq<Middleware>, n: nat)
    requires n <= |stack| && (n < |stack| ==> stack[n].atEnd)
    requires forall k :: 0 <= k < n ==> !stack[k].atEnd
    ensures FirstAtEnd(stack) == n
  {
    if stack != [] && n > 0 {
      FirstAtEndIs(stack[1..], n - 1);
    }
  }

  /** The entries of one more handle. */
  lemma PushEntry(route: Option<ParsedRoute>, hs: seq<Handle>, i: nat, atEnd: bool, info: Option<RouteInfo>)
    requires i < |hs|
    ensures Entries(route, hs[..i + 1], atEnd, info) == Entries(route, hs[..i], atEnd, info) + [Entry(route, hs[i], atEnd, info)]
  {
    assert hs[..i + 1] == hs[..i] + [hs[i]];
    EntriesConcat(route, hs[..i], [hs[i]], atEnd, info);
  }

  lemma EntriesConcat(route: Option<ParsedRoute>, a: seq<Handle>, b: seq<Handle>, atEnd: bool, info: Option<RouteInfo>)
    ensures Entries(route, a + b, atEnd, info) == Entries(route, a, atEnd, info) + Entries(route, b, atEnd, info)
  {
    var l, r := Entries(route, a + b, atEnd, info), Entries(route, a, atEnd, info) + Entries(route, b, atEnd, info);
    assert |l| == |r|;
    forall i | 0 <= i < |l| ensures l[i] == r[i] {
      if i < |a| { assert (a + b)[i] == a[i]; } else { assert (a + b)[i] == b[i - |a|]; }
    }
  }

  /** `add` keeps the ordinary entries before the end entries and puts the new
    * ones after the existing ordinary entries, in registration order. */
  lemma {:induction false} AddAllLayout(stack: seq<Middleware>, route: Option<ParsedRoute>, hs: seq<Handle>)
    requires Partitioned(stack)
    ensures var k := FirstAtEnd(stack);
      var r := AddAll(stack, route, hs);
      r == stack[..k] + Entries(route, hs, false, None) + stack[k..] && Partitioned(r)
    decreases |hs|
  {
    var k := FirstAtEnd(stack);
    if hs == [] {
      assert stack[..k] + [] + stack[k..] == stack;
    } else {
      var item := Entry(route, hs[0], false, None);
      var s1 := InsertBeforeEnd(stack, item);
      InsertBeforeEndLayout(stack, item);
      AddAllLayout(s1, route, hs[1..]);
      assert hs == [hs[0]] + hs[1..];
      EntriesConcat(route, [hs[0]], hs[1..], false, None);
      LayoutStep(stack[..k], stack[k..], item, s1, Entries(route, hs[1..], false, None), AddAll(s1, route, hs[1..]));
    }
  }

  /** The inductive step of `AddAllLayout`, on the sequences alone. */
  lemma LayoutStep(a: seq<Middleware>, b: seq<Middleware>, item: Middleware, s1: seq<Middleware>, e: seq<Middleware>, r: seq<Middleware>)
    requires s1 == a + [item] + b
    requires r == s1[..|a| + 1] + e + s1[|a| + 1..]
    ensures r == a + ([item] + e) + b
  {
    assert s1[..|a| + 1] == a + [item];
    assert s1[|a| + 1..] == b;
  }

  /** `addToEnd` appends end entries, which keeps the layout. */
  lemma AppendEndLayout(stack: seq<Middleware>, route: Option<ParsedRoute>, hs: seq<Handle>, info: Option<RouteInfo>)
    requires Partitioned(stack)
    ensures Partitioned(stack + Entries(route, hs, true, info))
  {
    var r := stack + Entries(route, hs, true, info);
    forall i, j | 0 <= i < j < |r| && r[i].atEnd ensures r[j].atEnd {
      if j < |stack| {
        assert r[i] == stack[i] && r[j] == stack[j];
      }
    }
  }

  /** What `use` is given besides handlers: another application, mounted. */
  datatype UseItem = UseHandle(handle: Handle) | UseApp(app: Core)

  /** `item.route = parsedRoute` on a handler: only the adapters for classical
    * middleware read that property, to strip the prefix. */
  function Stamp(h: Handle, route: Option<ParsedRoute>): (r: Handle)
    ensures IsMiddlewareErrorHandle(r) <==> IsMiddlewareErrorHandle(h)
    ensures !h.FromClassical? ==> r == h
  {
    match h
    case FromClassical(_, eh, c) => FromClassical(route, eh, c)
    case _ => h
  }

  /** An application core (what `Connect` and `Router` build on). */
  class Core {
    var stack: seq<Middleware>
    /** The route it was mounted under, set by the `use` that mounted it. */
    var route: Option<ParsedRoute>

    constructor()
      ensures stack == [] && route.None?
    {
      stack := [];
      route := None;
    }

    predicate Valid()
      reads this
    {
      Partitioned(stack)
    }

    /** `toMiddleware()`: a handler that dispatches this stack under this route. */
    function ToMiddleware(): (h: Handle)
      reads this
      ensures h.Mounted? && h.route == route && h.stack == stack
      ensures !IsMiddlewareErrorHandle(h)
    {
      Mounted(route, stack)
    }

    /** `add(route, ...handles)`. */
    method Add(r: Option<ParsedRoute>, handles: seq<Handle>)
      modifies this
      ensures stack == AddAll(old(stack), r, handles)
      ensures old(Valid()) ==> Valid()
      ensures route == old(route)
    {
      var i := 0;
      while i < |handles|
        invariant 0 <= i <= |handles|
        invariant AddAll(stack, r, handles[i..]) == AddAll(old(stack), r, handles)
        invariant old(Valid()) ==> Valid()
        invariant route == old(route)
      {
        var item := Entry(r, handles[i], false, None);
        var k := FirstAtEnd(stack);
        ghost var before := stack;
        if k == |stack| {
          stack := stack + [item];
        } else {
          stack := stack[..k] + [item] + stack[k..];
        }
        assert stack == InsertBeforeEnd(before, item);
        if old(Valid()) {
          InsertBeforeEndLayout(before, item);
        }
        assert handles[i..][1..] == handles[i + 1..];
        i := i + 1;
      }
    }

    /** `addToEnd(route, ...handles)`, with the router's description of the route. */
    method AddToEnd(r: Option<ParsedRoute>, handles: seq<Handle>, info: Option<RouteInfo>)
      modifies this
      ensures stack == old(stack) + Entries(r, handles, true, info)
      ensures route == old(route)
    {
      ghost var s0 := stack;
      var i := 0;
      while i < |handles|
        invariant 0 <= i <= |handles|
        invariant stack == s0 + Entries(r, handles[..i], true, info)
        invariant route == old(route)
      {
        ghost var e := Entries(r, handles[..i], true, info);
        var item := Entry(r, handles[i], true, info);
        PushEntry(r, handles, i, true, info);
        stack := stack + [item];
        assert stack == s0 + (e + [item]);
        i := i + 1;
      }
      assert handles[..i] == handles;
    }

    /** `use(route, ...handles)`: the route is compiled in prefix mode and
      * stamped on every item; an application becomes its `toMiddleware()`
      * handler. */
    method Use(source: RouteSource, items: seq<UseItem>)
      modifies this, set i | 0 <= i < |items| && items[i].UseApp? :: items[i].app
      ensures var pr := ParseRoutePathFor(true, source);
        stack == AddAll(old(stack), pr, old(Handles(items, pr)))
      ensures forall i :: 0 <= i < |items| && items[i].UseApp? ==> items[i].app.route == ParseRoutePathFor(true, source)
      ensures old(Valid()) ==> Valid()
    {
      var pr := ParseRoutePathFor(true, source);
      var handles: seq<Handle> := [];
      var i := 0;
      while i < |items|
        invariant 0 <= i <= |items|
        invariant stack == old(stack)
        invariant |handles| == i
        invariant forall k :: 0 <= k < i ==> handles[k] == old(ItemHandle(items[k], pr))
        invariant forall k :: 0 <= k < i && items[k].UseApp? ==> items[k].app.route == pr
        invariant forall k :: 0 <= k < |items| && items[k].UseApp? ==> items[k].app.stack == old(items[k].app.stack)
      {
        match items[i] {
          case UseHandle(h) =>
            handles := handles + [Stamp(h, pr)];
          case UseApp(app) =>
            app.route := pr;
            handles := handles + [app.ToMiddleware()];
        }
        i := i + 1;
      }
      assert handles == old(Handles(items, pr));
      Add(pr, handles);
    }
  }

  /** The handler `use` registers for an item. */
  function ItemHandle(item: UseItem, route: Option<ParsedRoute>): Handle
    reads if item.UseApp? then {item.app} else {}
  {
    match item
    case UseHandle(h) => Stamp(h, route)
    case UseApp(app) => Mounted(route, app.stack)
  }

  function Handles(items: seq<UseItem>, route: Option<ParsedRoute>): (r: seq<Handle>)
    reads set i | 0 <= i < |items| && items[i].UseApp? :: items[i].app
    ensures |r| == |items|
    ensures forall i :: 0 <= i < |items| ==> r[i] == ItemHandle(items[i], route)
  {
    if items == [] then [] else [ItemHandle(items[0], route)] + Handles(items[1..], route)
  }

  /** A prefix route of "" or "/" is no route: it matches every path and
    * yields no parameters. */
  lemma RootPrefixMatchesEverything(s: string, path: string)
    requires s == [] || s == "/"
    ensures ParseRoutePathFor(true, PathString(s)).None?
    ensures TestRoutePath(path, ParseRoutePathFor(true, PathString(s)))
    ensures GetRouteParams(path, ParseRoutePathFor(true, PathString(s))) == map[]
  {
  }
}
