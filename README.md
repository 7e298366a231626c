# leizm-web core, modelled in Dafny

This project models the core of `@leizm/web`, a middleware framework for Node.js HTTP servers, and proves properties of that model.

What the model covers:

- **Applications and routers.** An application (`Core`, and the older `BaseConnect`) keeps a stack of middleware entries. `use` and `add` put ordinary entries before the entries registered "at the end". `addToEnd` appends. The router's verb methods append method-restricted, full-path entries at the end.
- **Dispatch.** Each request is dispatched by a `next(err)` closure over that stack:
  - with no error it takes the next ordinary handler, with an error the next error handler;
  - it skips entries whose route does not match the path;
  - it replaces the request's route parameters;
  - it emits `error` for listeners;
  - it calls `done` once the stack is exhausted.
- **Context.** The per-request context keeps a stack of such continuations, so an application mounted inside another strips its prefix from the path and puts it back when it hands the request on.
- **Route helpers and adapters.** A route string is compiled to a path matcher with `:name` parameters. Adapters run classical `(req, res, next)` middleware.
- **Request and response wrappers.** These cover URL and path, headers, cookies, JSON/HTML bodies, redirects and rendering. Once the head is sent, `setHeader` and `writeHead` fail as the server makes them throw, and every operation built on them fails with them.
- **Final handler.** This writes the 404 or error page.
- **Redis.** There are two Redis clients. Both share an incremental parser for the Redis serialization protocol and a queue of callbacks that receive replies oldest first.
- **Sessions.** The session middleware works with an in-memory store, a serializing in-memory store and a Redis store.
- **Templates.** The template engine manager, and the built-in `{{key}}` engine.
- **CORS.** The CORS middleware, the response side of the CORS protocol in section 3.2 of the WHATWG Fetch Standard.
- **Body reader.** The body reader's size limit (status 413) and its choice of content coding (section 8.4.1 of RFC 9110; an unsupported coding gives status 415).

How the model is written:

- Objects whose fields the source updates are classes: `Core`, `Router`, `BaseConnect`, `Context`, `Request`, `Response`, the parser and both Redis clients, the session instance and stores, and the template manager.
- Their methods are proved against specification functions.
- The dispatch engine itself is a function over an explicit state. That state holds the levels (one per `next` closure), the continuation stack, the queue of handler calls deferred with `process.nextTick`, and everything that reached the outside.
- Handlers are described by what they do when called.

Time, hashing, the id generator, the host that `url.parse` finds in an origin, `JSON.stringify` of objects, cookie serialization and signing, and the template engines' file reading are parameters.

## Model

| member | source | states |
|---|---|---|
| Route.SplitSlash | src/lib/utils.ts:41-43 | the pieces of `s.split("/")` contain no "/" and join back to `s` |
| Route.Pieces | src/lib/utils.ts:41-43 | one pattern piece per segment, in order |
| Route.ParseRoutePath | src/lib/utils.ts:37-44 | a RegExp object is used as it is with no keys; a string compiles to a path pattern whose `end` is the option given |
| Route.MatchPieces | src/lib/utils.ts:52-58 | a match of the pieces ends within the path, never before where it started |
| Route.Exec | src/lib/utils.ts:52-58 | what a compiled route matches is a prefix of the path, the whole path in full mode; a RegExp object matches its source with no groups |
| Route.GetRouteMatchPath | src/lib/utils.ts:86-91 | "" with no route or no match; otherwise what was matched, a prefix of the path for a compiled route |
| Route.MatchPiecesGroups | src/lib/utils.ts:66-78 | a compiled route captures one group per key |
| Route.ZipParamsSpec | src/lib/utils.ts:71-75 | the parameters are exactly the keys, each with the group of its last occurrence |
| Route.RouteParamsOfMatch | src/lib/utils.ts:66-78 | on a match every key is a parameter and nothing else is; a key appearing once carries its own group |
| Route.FullMatchImpliesPrefixMatch | src/lib/utils.ts:37-58 | a path that matches a route in full mode matches it in prefix mode too, with the same parameters |
| Route.LiteralPiecesMatch | src/lib/utils.ts:41-43 | literal pieces match exactly the text they stand for, joined by "/" |
| Route.TrailingSlashRoute | src/lib/utils.ts:41-43 | a compiled route ends with the delimiter exactly when the route string does |
| Route.StaticRouteFullMatch | src/lib/utils.ts:52-58 | in full mode a route without parameters matches exactly the path equal to it |
| Route.StaticRoutePrefixMatch | src/lib/utils.ts:52-58 | in prefix mode it matches the paths that start with it at a "/" boundary, and the matched text is the route |
| Route.RegExpRouteHasNoParams | src/lib/utils.ts:37-40 | a RegExp route never yields parameters |
| Route.TestRoutePath | src/lib/utils.ts:52-58 | definition: no route matches everything, otherwise the compiled route must match; stated by `Route.StaticRouteFullMatch`, `Route.StaticRoutePrefixMatch`, `Core.RootPrefixMatchesEverything` |
| Route.GetRouteParams | src/lib/utils.ts:66-78 | definition: `{}` without a route or a match, otherwise the keys zipped with the groups; stated by `Route.RouteParamsOfMatch`, `Route.RegExpRouteHasNoParams` |
| Core.ParseRoutePathFor | src/lib/core.ts:61-69 | prefix mode turns "" and "/" into no route; otherwise the route is compiled, matching to the end unless it is a prefix |
| Core.Core.constructor | src/lib/core.ts:30-33 | an empty stack and no route |
| Core.Entry | src/lib/core.ts:122-137 | an entry is an error handler exactly when its handle declares more than one parameter |
| Core.Entries | src/lib/core.ts:122-137 | one entry per handle, in order |
| Core.FirstAtEnd | src/lib/core.ts:130 | `findIndex(atEnd)`: the first end entry, with none before it |
| Core.InsertBeforeEndLayout | src/lib/core.ts:130-135 | one insertion puts the entry just before the first end entry, or at the tail, and keeps ordinary entries before end entries |
| Core.InsertBeforeEnd | src/lib/core.ts:130-135 | definition of one insertion; its placement is stated by `Core.InsertBeforeEndLayout` |
| Core.FirstAtEndIs | src/lib/core.ts:130 | the position `findIndex` reports is determined by its two properties |
| Core.AddAllLayout | src/lib/core.ts:122-137 | `add` places the new entries, in order, after the old ordinary ones and before every end entry, keeping the layout |
| Core.AddAll | src/lib/core.ts:122-137 | definition of `add`'s effect on the stack; stated by `Core.AddAllLayout` and `Core.Core.Add` |
| Core.AppendEndLayout | src/lib/core.ts:145-155 | `addToEnd` keeps the layout |
| Core.Stamp | src/lib/core.ts:101-114 | stamping the route on a handler does not change its kind and changes only classical adapters |
| Core.Core.ToMiddleware | src/lib/core.ts:74-93 | the mounted handler carries the application's route and stack and is not an error handler |
| Core.Core.Add | src/lib/core.ts:122-137 | the stack becomes `AddAll` of the old one, and the layout invariant is kept |
| Core.Core.AddToEnd | src/lib/core.ts:145-155 | the stack becomes the old one followed by the new end entries |
| Core.Core.Use | src/lib/core.ts:101-114 | the route is compiled in prefix mode and every item is added through `add`; a mounted application records the route |
| Core.Handles | src/lib/core.ts:101-114 | one handler per item, in order |
| Core.RootPrefixMatchesEverything | src/lib/core.ts:36-41 | a prefix route "" or "/" is no route: it matches every path and yields no parameters |
| Router.VerbHandles | src/lib/router.ts:20-148 | ALL keeps the handlers; every other verb wraps each in the check for its own method name, keeping its kind |
| Router.Router.constructor | src/lib/router.ts:13 | a router is an empty application |
| Router.Router.Register | src/lib/router.ts:20-148 | a verb method appends end entries, with a full-path route, the verb's handlers and the verb and route recorded |
| Router.VerbRouteIsFull | src/lib/router.ts:30-36 | a verb route always exists and, without parameters, matches exactly the path equal to it |
| Router.VerbEntriesFollowUse | src/lib/router.ts:30-36 | verb entries keep the layout, and what `use` adds later still goes before them |
| Router.RouteToString | src/lib/router.ts:21 | definition of `route.toString()`, the route description `Router.Router.Register` records |
| Dispatch.WrapMiddlewareHandleWithMethod | src/lib/utils.ts:182-198 | the method wrapper keeps the wrapped handler's kind |
| Dispatch.FromClassicalHandle | src/lib/utils.ts:98-118 | a classical handler becomes an ordinary handler |
| Dispatch.FromClassicalErrorHandle | src/lib/utils.ts:145-165 | a classical error handler becomes an error handler |
| Dispatch.StripRestore | src/lib/utils.ts:98-118 | removing the matched prefix from URL and path and putting it back is the identity when the prefix starts the path and the path starts the URL |
| Dispatch.MatchedPrefix | src/lib/core.ts:74-93 | no route removes nothing; a compiled route removes a prefix of the path |
| Dispatch.Scan | src/lib/core.ts:181-193 | `getNextHandle`/`getNextErrorHandle` find the first entry of the wanted kind at or after the read position, or stop past the end |
| Dispatch.Advance | src/lib/core.ts:195-200 | reading up to an entry moves only that level's position, just past it |
| Dispatch.IsMiddlewareErrorHandle | src/lib/utils.ts:172-174 | definition: a handler declaring more than one parameter is an error handler; the adapters and the method wrapper keep the kind (`Dispatch.FromClassicalErrorHandle`, `Dispatch.WrapMiddlewareHandleWithMethod`) |
| Dispatch.Schedule | src/lib/core.ts:208-209 | definition: the entry's parameters replace the request's and its handler is queued with the error, its failures going to this level (`DispatchFacts.StepRun`, `DispatchFacts.NextRunsFirstRunnableEffects`) |
| Dispatch.LevelNext | src/lib/core.ts:195-210 | definition of `next(err)`: the next entry of the wanted kind, the `error` event, leaving an exhausted level, skipping a non-matching route, running a matching one (`DispatchFacts.NextRunsFirstRunnable`, `DispatchFacts.NextFinishes`, `MountFacts.LevelNextInside`) |
| Dispatch.Leave | src/lib/core.ts:201-204 | definition: the top continuation popped and `done` called; a mount's `done` puts the prefix back and calls `ctx.next` (`DispatchFacts.NextFinishes`, `MountFacts.LeaveInside`) |
| Dispatch.CtxNext | src/lib/context.ts:108-113 | definition: the top continuation called, nothing on an empty stack (`DispatchFacts.CtxNextEmits`, `DispatchFacts.CtxNextDoesNotSteer`) |
| Dispatch.OnError | src/lib/utils.ts:212-222 | definition: a thrown or rejected error goes to the level's `next` or to `ctx.next` (`DispatchFacts.ThrowReachesNextErrorHandler`) |
| Dispatch.HandleRequestByContext | src/lib/core.ts:177-214 | definition: a new level at position 0 pushed on the context, then `ctx.next()` (`DispatchFacts.RequestStartsAtFirstRunnable`, `DispatchFacts.RequestWithNothingRunnable`) |
| Dispatch.EnterMount | src/lib/core.ts:76-92 | definition: the prefix stripped from URL and path, then the stack dispatched with a continuation that restores them (`MountFacts.EnterMountInside`, `MountFacts.MountHandsOnAsFound`) |
| Dispatch.Invoke | src/lib/utils.ts:214-220 | definition: what calling a handler changes and whether it threw or rejected (`MountFacts.InvokeInside`, `DispatchFacts.GateOtherMethodPassesOn`, `DispatchFacts.ClassicalNextRestoresPath`) |
| Dispatch.ClassicalView | src/lib/utils.ts:98-118 | definition: the matched prefix taken off URL and path for a classical middleware (`DispatchFacts.ClassicalNextRestoresPath`) |
| Dispatch.RunTask | src/lib/utils.ts:214-224 | definition: the oldest deferred call, a throw or rejection going to its error target (`MountFacts.RunTaskInside`) |
| Dispatch.Run | src/lib/utils.ts:214 | definition: deferred calls in order, up to the fuel bound (`MountFacts.RunInside`) |
| Dispatch.ToClassicalHandle | src/lib/utils.ts:125-138 | definition: a context whose only continuation is the classical `next`, with the handler called directly (`DispatchFacts.ClassicalAdapterOutcomes`) |
| DispatchFacts.FirstRunnable | src/lib/core.ts:195-208 | the reference: the first entry at or after the position, of the wanted kind, whose route matches |
| DispatchFacts.FirstRunnableUnique | src/lib/core.ts:195-208 | those properties determine it |
| DispatchFacts.StepRun | src/lib/core.ts:205-209 | a call of `next(err)` that finds a matching entry sets its parameters and schedules it |
| DispatchFacts.StepSkip | src/lib/core.ts:205-207 | a call that finds a non-matching entry calls `next` again with the same error |
| DispatchFacts.StepLeave | src/lib/core.ts:201-204 | a call that finds nothing leaves the level |
| DispatchFacts.AdvanceIsJump | src/lib/core.ts:195-200 | advancing is moving the position plus the `error` event, which only happens with an error and a listener |
| DispatchFacts.NextRunsFirstRunnableQuietly | src/lib/core.ts:195-209 | without an event, `next(err)` runs the first runnable entry exactly as if it had jumped to it |
| DispatchFacts.NextRunsFirstRunnable | src/lib/core.ts:195-209 | `next(err)` runs the first runnable entry, with the error or null, whatever the listeners |
| DispatchFacts.ScanReachesFirstRunnable | src/lib/core.ts:181-193 | the scan never passes the first runnable entry |
| DispatchFacts.SkipKeepsFirstRunnable | src/lib/core.ts:205-207 | skipping a non-matching entry keeps the first runnable entry where it was |
| DispatchFacts.NextRunsFirstRunnableEffects | src/lib/core.ts:208-209 | running the entry replaces the parameters wholesale, schedules its handler, moves the position past it, and touches neither the continuation stack nor any outside callback |
| DispatchFacts.NextLeaves | src/lib/core.ts:201-204 | with nothing runnable, `next(err)` leaves the level as if it had jumped past the end |
| DispatchFacts.NextFinishes | src/lib/core.ts:201-204 | with nothing runnable, the top continuation is popped and `done` is called exactly once, with the error or null |
| DispatchFacts.NextLeavesQuietly | src/lib/core.ts:201-204 | the same, exactly, when nothing is emitted |
| DispatchFacts.NextEmits | src/lib/core.ts:197-200 | `next` only adds `error` events carrying the error: none for a falsy error or no listener, at least one otherwise |
| DispatchFacts.LeaveEmits | src/lib/core.ts:197-204 | leaving a level emits nothing for a falsy error or no listener |
| DispatchFacts.CtxNextEmits | src/lib/context.ts:108-113 | `ctx.next` emits nothing for a falsy error or no listener |
| DispatchFacts.ListenersDoNotSteer | src/lib/core.ts:197-200 | listening for `error` does not change where a request goes |
| DispatchFacts.LeaveDoesNotSteer | src/lib/core.ts:201-204 | the same for leaving a level |
| DispatchFacts.CtxNextDoesNotSteer | src/lib/context.ts:108-113 | the same for `ctx.next` |
| DispatchFacts.RequestStartsAtFirstRunnable | src/lib/core.ts:212-213 | a request starts at the first runnable ordinary entry, scheduled with null, with the new level's `next` on the context |
| DispatchFacts.RequestWithNothingRunnable | src/lib/core.ts:201-213 | with nothing runnable the application calls `done(null)` and leaves the continuation stack as it found it |
| DispatchFacts.ThrowReachesNextErrorHandler | src/lib/utils.ts:208-225 | a thrown error goes to the level's `next`, which schedules the first matching error handler after it with that error |
| DispatchFacts.GateOtherMethodPassesOn | src/lib/utils.ts:182-198 | on another method the wrapper calls `ctx.next` without running the handler, passing the error only for an error handler |
| DispatchFacts.GateSameMethodRunsInner | src/lib/utils.ts:182-198 | on its method the wrapper runs the inner handler, whose throw goes to `ctx.next` |
| DispatchFacts.MountWithNothingRunnable | src/lib/core.ts:74-93 | a mounted application with nothing runnable puts the prefix back and calls the outer `next(null)` |
| DispatchFacts.MountLeaves | src/lib/core.ts:74-93 | entering a mount strips the prefix and starts a level over its stack; leaving that level at once restores the request and calls the outer `next` |
| DispatchFacts.ClassicalNextRestoresPath | src/lib/utils.ts:98-118 | the classical function runs on `ClassicalView`, whose path and URL lack the matched prefix and whose method, parameters and continuations are unchanged; its `next(err)` continues from the state as it was before, path and URL back in place |
| DispatchFacts.ClassicalAdapterOutcomes | src/lib/utils.ts:125-138 | for `toClassicalHandle`, a rejection and a `ctx.next(err)` reach the classical `next`, and a throw escapes to the caller |
| MountFacts.AdvanceInside | src/lib/core.ts:195-200 | reading up to an entry keeps the dispatch inside the same mounts |
| MountFacts.ScheduleInside | src/lib/core.ts:208-209 | running an entry of the innermost level keeps the dispatch inside, with that one call queued |
| MountFacts.LeaveInside | src/lib/core.ts:85-91 | leaving a mounted level puts its prefix back: inside the outer mounts, or, for the outermost one, the outer `next` called with the URL and path it was entered with |
| MountFacts.LevelNextInside | src/lib/core.ts:195-210 | `next(err)` inside mounts stays inside them or hands the outermost one on with its URL and path restored |
| MountFacts.LeaveNextInside | src/lib/core.ts:85-91 | after the innermost mounted level is left, the dispatch goes on in the level below or the outermost mount hands the request on as found |
| MountFacts.EnterMountInside | src/lib/core.ts:76-92 | entering a mount nests one more mount, with its prefix removed from URL and path |
| MountFacts.EnterMountRuns | src/lib/core.ts:76-92 | entering a mount is calling the new level's `next()` on the state with the level pushed |
| MountFacts.InvokeInside | src/lib/utils.ts:214-220 | calling a well-behaved handler inside mounts stays inside, stops with the outermost mount's continuation still on the context, or hands the outermost mount on as found; a throw or rejection changes nothing |
| MountFacts.RunTaskInside | src/lib/utils.ts:208-225 | one deferred call has the same three outcomes, a throw or rejection included |
| MountFacts.RunInside | src/lib/utils.ts:208-225 | any number of deferred calls are still inside, stopped inside the outermost mount, or the run goes on from the outer `next` called on what that mount handed on |
| MountFacts.RunOn | src/lib/utils.ts:208-225 | the run after one deferred call keeps those three outcomes |
| MountFacts.MountHandsOnAsFound | src/lib/core.ts:74-93 | a mounted application over well-behaved handlers, however many calls later, is still running inside it, has stopped with its continuation still on the context, or has called the outer `next` with the URL and path exactly as they were before it was entered |
| MountFacts.ClassicalThrowLeavesPrefixRemoved | src/lib/utils.ts:98-118 | a classical middleware that throws leaves the prefix removed, so the path stays shorter |
| Base.BaseEntry | src/lib/base.ts:15-20 | an entry is an error handler exactly when its arity is above 1, and is never an end entry |
| Base.BaseConnect.constructor | src/lib/base.ts:11-13 | an empty stack |
| Base.BaseEntries | src/lib/base.ts:15-20 | one entry per handler, in order |
| Base.BaseConnect.Use | src/lib/base.ts:15-20 | every handler is pushed at the tail |
| Base.NextRunnable | src/lib/base.ts:25-40 | the search never moves backwards |
| Base.NextRunnableIsFirstRunnable | src/lib/base.ts:25-40 | the scan with its re-entry on a non-matching route finds exactly the first runnable entry |
| Base.BaseNext | src/lib/base.ts:37-55 | definition of `next(err)`: the first runnable entry run, `done(err)` when there is none (`Base.NextRunnableIsFirstRunnable`, `Base.NextAndResolveAdvancesTwice`) |
| Base.RunEntry | src/lib/base.ts:41-54 | definition: parameters set, the handler called directly; a throw calls `next(err)` at once, a settled promise `next` later (`Base.NextAndResolveAdvancesTwice`) |
| Base.Resume | src/lib/base.ts:53 | definition: a settled promise calls the continuation it was given (`Base.NextAndResolveAdvancesTwice`) |
| Base.BaseHandle | src/lib/base.ts:56-57 | definition: `next` set on the context and called with no error (`Base.NextAndResolveAlone`) |
| Base.NextAndResolveAdvancesTwice | src/lib/base.ts:37-54 | wherever it stands in the stack, a handler that calls `next()` and returns a resolving promise advances twice: the rest runs at once from the entry after it, and the settled promise calls `next` again from where that run stopped |
| Base.NextAndResolveDoneTwice | src/lib/base.ts:37-54 | with no ordinary entry after it that matches, `done` is called with no error at once and again when the promise settles |
| Base.NextAndResolveAlone | src/lib/base.ts:46-54 | with that handler alone, `done` is called at once and again when the promise settles |
| Ctx.Push | src/lib/context.ts:120-122 | push puts the handle on top and keeps the rest |
| Ctx.Pop | src/lib/context.ts:127-129 | pop removes the top, and does nothing on an empty stack |
| Ctx.Top | src/lib/context.ts:108-113 | the continuation `next` calls is the last one pushed, none on an empty stack |
| Ctx.PushPop | src/lib/context.ts:120-129 | a push then a pop gives the stack back, with the pushed handle on top in between |
| Ctx.Context.constructor | src/lib/context.ts:24-30 | an empty continuation stack, no session, no listeners, nothing forwarded yet |
| Ctx.Context.Init | src/lib/context.ts:71-81 | `init` attaches the wrappers, sets `X-Powered-By` and starts forwarding `finish`, changing nothing else |
| Ctx.Context.ResponseFinished | src/lib/context.ts:77 | `finish` is forwarded once only; no other field changes |
| Ctx.Context.Next | src/lib/context.ts:108-113 | `next` calls only the top continuation, and none on an empty stack |
| Ctx.Context.PushNextHandle | src/lib/context.ts:120-122 | the handle is pushed and no other field changes |
| Ctx.Context.PopNextHandle | src/lib/context.ts:127-129 | the top is returned and removed and no other field changes |
| Ctx.Context.Session | src/lib/context.ts:42-45 | the getter fails with its message until a session is attached |
| Ctx.Context.AttachSession | src/lib/context.ts:42-45 | the session is attached and no other field changes |
| Ctx.Context.OnError | src/lib/context.ts:136-138 | one more `error` listener; no other field changes |
| Ctx.Context.OnFinish | src/lib/context.ts:145-147 | one more `finish` listener; no other field changes |
| Ctx.Context.OnWriteHead | src/lib/context.ts:154-156 | one more write-head hook; no other field changes |
| Req.PathnameOf | src/lib/request.ts:22-27 | the pathname is a non-empty prefix of the URL without "?" or "#" |
| Req.Request.constructor | src/lib/request.ts:22-27 | the original URL is recorded unless an outer layer did already, and the URL is parsed |
| Req.Request.Url | src/lib/request.ts:41-43 | the raw URL, "" when it is missing |
| Req.Request.SetUrl | src/lib/request.ts:45-48 | setting the URL leaves the path as it was |
| Req.Request.Path | src/lib/request.ts:51-53 | the parsed pathname, "" when there is none |
| Req.Request.SetPath | src/lib/request.ts:55-58 | setting the path leaves the URL as it was |
| Req.Request.GetHeader | src/lib/request.ts:85-87 | header lookup by the lower-cased name |
| Req.Request.Params | src/lib/request.ts:90-102 | the parameters, `{}` while unset |
| Req.Request.SetParams | src/lib/request.ts:90-102 | once parameters are set, even to `{}`, they are there to read |
| Req.Request.Get | src/lib/request.ts:105-177 | `body`/`files`/`cookies`/`signedCookies`/`session`: `{}` while unset |
| Req.Request.Set | src/lib/request.ts:105-177 | setting one makes it readable and present, and leaves every other one as it was |
| Req.Request.View | src/lib/request.ts:36-58 | the method, URL, path and parameters the dispatcher sees |
| Resp.Appended | src/lib/response.ts:108-122 | `appendHeader` always makes a list, the new items after the existing ones, a falsy header counting as none |
| Resp.AppendTwice | src/lib/response.ts:108-122 | appending twice keeps every item, in order |
| Resp.CookieValue | src/lib/response.ts:285-288 | a signed cookie is "s:" and the signature of the plain value |
| Resp.PlainCookieValue | src/lib/response.ts:285-288 | objects as "j:" and their JSON, anything else as `String(value)` |
| Resp.SerializeOptionsFor | src/lib/response.ts:289-295 | a truthy `maxAge` sets `expires` to now plus it and becomes seconds; the path defaults to "/" |
| Resp.ClearCookieOptions | src/lib/response.ts:269-271 | `expires` at 1 ms and path "/" unless the caller gives them |
| Resp.Response.constructor | src/lib/response.ts:16-17 | status 200, no headers, nothing sent |
| Resp.Response.GetHeader | src/lib/response.ts:78-80 | header lookup ignores case |
| Resp.Response.Status | src/lib/response.ts:68-71 | only the status changes |
| Resp.Response.SetHeader | src/lib/response.ts:97-100 | one header set under its lower-cased name, nothing else changed; on a sent head `ERR_HTTP_HEADERS_SENT` and no change at all |
| Resp.Response.AppendHeader | src/lib/response.ts:108-122 | the header becomes `Appended` of its old value; on a sent head the `setHeader` error and no change |
| Resp.Response.SetHeaders | src/lib/response.ts:129-134 | every given header set in order, the others untouched; on a sent head a non-empty record fails at its first header and changes nothing |
| Resp.Response.WriteHead | src/lib/response.ts:152-155 | status and headers written and the head marked sent; a head already sent throws and changes nothing |
| Resp.Response.End | src/lib/response.ts:188-190 | a finished response takes no more data |
| Resp.Response.Json | src/lib/response.ts:196-199 | a JSON content type and the serialized data, the response finished and its head sent; on a sent head the `setHeader` error and nothing written |
| Resp.Response.Html | src/lib/response.ts:205-208 | an HTML content type and the text, the response finished and its head sent; on a sent head the `setHeader` error and nothing written |
| Resp.Response.RedirectTemporary | src/lib/response.ts:239-242 | status 302 with `Location` the URL (section 15.4.3 of RFC 9110), finished and sent; on a sent head the `writeHead` error and nothing written |
| Resp.Response.RedirectPermanent | src/lib/response.ts:259-262 | status 301 with `Location` the URL (section 15.4.2 of RFC 9110), finished and sent; on a sent head the `writeHead` error and nothing written |
| Resp.Response.Cookie | src/lib/response.ts:279-297 | a signed cookie without a secret, or a sent head, fails with its own error and changes nothing; otherwise one more `Set-Cookie` item and nothing else |
| Resp.Response.ClearCookie | src/lib/response.ts:269-271 | the cookie is set empty with the clearing options, nothing else changed; the same failures as `cookie`, which change nothing |
| Resp.Response.Render | src/lib/response.ts:304-314 | the HTML is sent with an HTML content type unless one is set, the status kept; an engine failure, or the `setHeader` error on a sent head, goes to `ctx.next(err)` and changes nothing |
| Resp.SetAll | src/lib/response.ts:129-134 | every given name is set and no header is lost |
| FinalHandler.EscapedConcat | src/lib/final_handler.ts:29-65 | escaping distributes over concatenation |
| FinalHandler.EscapedPlain | src/lib/final_handler.ts:29-33 | text without special characters escapes to itself |
| FinalHandler.Escaped | src/lib/final_handler.ts:38-64 | definition of the escaped text; stated by `FinalHandler.UnescapeEscaped`, `FinalHandler.EscapedHasNoRawMarkup`, `FinalHandler.EscapeFrom` |
| FinalHandler.EscapedHasNoRawMarkup | src/lib/final_handler.ts:38-64 | escaped text has no raw `"`, `'`, `<` or `>` |
| FinalHandler.UnescapeEscaped | src/lib/final_handler.ts:38-64 | reading the entities back gives the text, so escaping loses nothing |
| FinalHandler.FirstSpecial | src/lib/final_handler.ts:31 | the position of the first special character, the length when there is none |
| FinalHandler.EscapeFrom | src/lib/final_handler.ts:38-64 | the loop produces the escaped text |
| FinalHandler.EscapeHtml | src/lib/final_handler.ts:29-65 | the escaped text, the input itself when it has no special character |
| FinalHandler.NewlinesToBreaks | src/lib/final_handler.ts:67-83 | text without a line break is unchanged |
| FinalHandler.NewlinesGone | src/lib/final_handler.ts:67-83 | no line break is left |
| FinalHandler.NbspKeepsNewlines | src/lib/final_handler.ts:67-83 | the space replacement neither adds nor removes line breaks |
| FinalHandler.NbspWithoutDoubleSpace | src/lib/final_handler.ts:67-83 | text without a double space is unchanged |
| FinalHandler.ErrorPageBodyShape | src/lib/final_handler.ts:67-83 | the page body has no line break, and a plain one-line message appears as it is |
| FinalHandler.ErrorPageBody | src/lib/final_handler.ts:68 | definition of the page body; stated by `FinalHandler.ErrorPageBodyShape` |
| FinalHandler.CreateHtmlDocument | src/lib/final_handler.ts:67-83 | definition of the page; stated by `FinalHandler.DocumentFrame` |
| FinalHandler.DocumentFrame | src/lib/final_handler.ts:67-83 | the document is the fixed head, the page body, then the fixed tail |
| FinalHandler.GetErrorStatusCode | src/lib/final_handler.ts:101-109 | a numeric `status` in [400, 600), else such a `statusCode`, else nothing |
| FinalHandler.ErrorStatus | src/lib/final_handler.ts:9-23 | the error's status, or 500 when it names none; always in [400, 600) |
| FinalHandler.IndexMap | src/lib/final_handler.ts:111-122 | an array's keys are its indices |
| FinalHandler.GetErrorHeaders | src/lib/final_handler.ts:111-122 | a copy of `err.headers` when it is an object, `{}` when it is missing, falsy or not an object |
| FinalHandler.SetErrorHeaders | src/lib/final_handler.ts:85-93 | the error's headers set over what was there |
| FinalHandler.WrittenFromOverlay | src/lib/final_handler.ts:85-93 | error headers over the default headers over the previous ones, nothing else |
| FinalHandler.WriteHead | src/lib/final_handler.ts:85-93 | nothing once the head is sent; otherwise the status, with the error headers overriding the defaults |
| FinalHandler.WriteBody | src/lib/final_handler.ts:95-99 | nothing for HEAD or a finished response, otherwise the body ends it |
| FinalHandler.Handle | src/lib/final_handler.ts:9-23 | an error gives its status (500 by default) and headers; no error gives 404 and `Cannot <METHOD> <path>` |
| RedisParser.NextCrlf | src/lib/module/simple.redis.ts:21-28 | the first CRLF at or after the position |
| RedisParser.SplitLines | src/lib/module/simple.redis.ts:21-28 | `split("\r\n")` gives at least one piece, none containing CRLF |
| RedisParser.TerminatedConcat | src/lib/module/simple.redis.ts:21-28 | terminated lines concatenate |
| RedisParser.SplitRestores | src/lib/module/simple.redis.ts:21-28 | the pieces of a split, joined with CRLF, give the text back |
| RedisParser.SplitTerminated | src/lib/module/simple.redis.ts:21-28 | complete lines split back into themselves, with an empty tail |
| RedisParser.SplitAfterLine | src/lib/module/simple.redis.ts:21-28 | a complete front line splits off first |
| RedisParser.ReadElement | src/lib/module/simple.redis.ts:76-105 | an array element takes at least one line and no more than there are |
| RedisParser.ParseElements | src/lib/module/simple.redis.ts:76-105 | `k` elements read, within the lines available |
| RedisParser.ParseReply | src/lib/module/simple.redis.ts:33-110 | a reply takes at least one line and no more than there are |
| RedisParser.RoundTrip | src/lib/module/simple.redis.ts:33-110 | every reply a server sends reads back as what it means, taking exactly its own lines, whatever follows |
| RedisParser.RoundTripBulk | src/lib/module/simple.redis.ts:60-73 | a bulk string reads back taking two lines |
| RedisParser.RoundTripMulti | src/lib/module/simple.redis.ts:76-105 | an array reads back as its values, taking exactly its lines |
| RedisParser.ElementsRoundTrip | src/lib/module/simple.redis.ts:76-105 | an array's elements read back as their values |
| RedisParser.ElementRoundTrip | src/lib/module/simple.redis.ts:76-105 | one element reads back as its value |
| RedisParser.ArrayReply | src/lib/module/simple.redis.ts:76-105 | the `*` case of `next` is the element loop's result |
| RedisParser.Incomplete | src/lib/module/simple.redis.ts:44-48 | a reply cut short reads as nothing, so nothing is consumed until all its lines are there |
| RedisParser.IncompleteMulti | src/lib/module/simple.redis.ts:91-103 | an array with lines missing reads as nothing |
| RedisParser.IncompleteBulk | src/lib/module/simple.redis.ts:67-71 | a bulk string without its value line reads as nothing |
| RedisParser.ElementsIncomplete | src/lib/module/simple.redis.ts:91-103 | elements with lines missing read as nothing |
| RedisParser.BulkLengthAlone | src/lib/module/simple.redis.ts:91-103 | a bulk element without its value line reads as nothing |
| RedisParser.LengthLine | src/lib/module/simple.redis.ts:60-73 | a length line reads as its number and is not the null marker |
| RedisParser.PushKeeps | src/lib/module/simple.redis.ts:21-28 | after a push, the text received is the lines consumed, the lines waiting, then the tail |
| RedisParser.Parser.constructor | src/lib/module/simple.redis.ts:14-20 | an empty parser |
| RedisParser.Parser.Push | src/lib/module/simple.redis.ts:21-28 | the tail and chunk split; the last piece is the new tail, the others are appended as complete lines |
| RedisParser.Parser.PopResult | src/lib/module/simple.redis.ts:33-110 | the reply's lines consumed and the result recorded |
| RedisParser.Parser.Next | src/lib/module/simple.redis.ts:33-110 | `next` succeeds exactly when a reply is complete, takes the reply and its lines, and otherwise consumes nothing |
| RedisParser.Parser.NextArray | src/lib/module/simple.redis.ts:76-105 | the `*n` branch, the same for arrays |
| RedisParser.ReadOne | src/lib/module/simple.redis.ts:78-102 | one round of the element loop |
| RedisParser.ReadElements | src/lib/module/simple.redis.ts:76-105 | the element loop completes exactly when the elements are there, with those values and lines |
| RedisParser.PushedReplyIsNext | src/lib/module/simple.redis.ts:21-110 | a reply pushed into a fresh parser is at the front of its lines |
| RedisCommand.StringifyAll | src/lib/module/simple.redis.ts:236 | one text per argument |
| RedisCommand.JsonEscape | src/lib/module/simple.redis.ts:277-279 | definition of `JSON.stringify`'s string escape; stated by `RedisCommand.JsonRoundTrip` |
| RedisCommand.Stringify | src/lib/module/simple.redis.ts:277-279 | definition of `stringify`; stated by `RedisCommand.StringArgument` and `RedisCommand.StringifyNoBreak` |
| RedisCommand.CommandLine | src/lib/module/simple.redis.ts:236 | definition of a command's line; stated by `RedisCommand.CommandIsOneLine` |
| RedisCommand.JsonRoundTrip | src/lib/module/simple.redis.ts:277-279 | a string argument's JSON escape reads back as the string |
| RedisCommand.StringArgument | src/lib/module/simple.redis.ts:277-279 | a string argument is sent quoted, its body decoding to itself |
| RedisCommand.StringifyNoBreak | src/lib/module/simple.redis.ts:277-279 | no argument's text contains a line break |
| RedisCommand.CommandIsOneLine | src/lib/module/simple.redis.ts:236 | every command is exactly one line on the wire |
| RedisCommand.Resolve | src/lib/module/simple.redis.ts:145-152 | each option given wins over its default |
| RedisCommand.NoOptionsMeansDefaults | src/lib/module/simple.redis.ts:124-129 | no options means 127.0.0.1:6379, database 0, no password |
| RedisCommand.ReplyAnswer | src/lib/module/simple.redis.ts:166-171 | an error reply with a message fails the callback; data is passed on |
| RedisCommand.Reaction | src/lib/module/simple.redis.ts:182-202 | only the AUTH and SELECT checks turn a failure into an `error` event |
| RedisCommand.ReactionsConcat | src/lib/module/simple.redis.ts:182-202 | the events of two runs of calls concatenate |
| RedisCommand.FailAll | src/lib/module/simple.redis.ts:209-219 | every callback fails with the same message, in order |
| RedisCommand.Meanings | src/lib/module/simple.redis.ts:33-110 | the meaning of each reply, one per reply, in order |
| RedisCommand.Drain | src/lib/module/simple.redis.ts:161-173 | definition of the reply loop; stated by `RedisCommand.DrainMatches` |
| RedisCommand.DrainMatches | src/lib/module/simple.redis.ts:161-173 | the k-th waiting callback receives the k-th complete reply until either runs out; the loop throws exactly when replies outnumber callbacks |
| RedisCommand.RepliesOfWire | src/lib/module/simple.redis.ts:33-110 | the replies a server sends are read back one by one as what they mean |
| RedisCommand.ServerRepliesReachCallbacks | src/lib/module/simple.redis.ts:161-173 | the k-th waiting callback receives the answer of the k-th reply sent |
| SimpleRedis.PreludeOwners | src/lib/module/simple.redis.ts:182-194 | AUTH exactly when there is a password, SELECT exactly when the database is not 0 |
| SimpleRedis.Prelude | src/lib/module/simple.redis.ts:182-194 | one line per prelude command |
| SimpleRedis.ConnectKeeps | src/lib/module/simple.redis.ts:182-202 | connecting keeps the client state valid |
| SimpleRedis.Client.constructor | src/lib/module/simple.redis.ts:145-152 | options merged over the defaults, no socket, empty queues |
| SimpleRedis.Client.Connect | src/lib/module/simple.redis.ts:178-181 | a socket that is connecting |
| SimpleRedis.Client.Command | src/lib/module/simple.redis.ts:233-244 | the callback queued last; the line written with a socket, else buffered with a connection started |
| SimpleRedis.Client.Get | src/lib/module/simple.redis.ts:263-265 | `GET key` as a command |
| SimpleRedis.Client.Setex | src/lib/module/simple.redis.ts:266-268 | `SETEX key ttl data` as a command |
| SimpleRedis.Client.Expire | src/lib/module/simple.redis.ts:269-271 | `EXPIRE key ttl` as a command |
| SimpleRedis.Client.Del | src/lib/module/simple.redis.ts:272-274 | `DEL key` as a command |
| SimpleRedis.Client.OnConnect | src/lib/module/simple.redis.ts:182-202 | as written: AUTH and SELECT are written first, but their callbacks are queued after those already waiting |
| SimpleRedis.Client.OnConnectInOrder | src/lib/module/simple.redis.ts:182-202 | corrected: the prelude's callbacks are queued first, so replies stay aligned with their commands |
| SimpleRedis.Client.OnData | src/lib/module/simple.redis.ts:161-173 | the chunk pushed and every complete reply handed to the oldest callback |
| SimpleRedis.Client.Deliver | src/lib/module/simple.redis.ts:161-173 | the callbacks used taken off the front, their lines answered |
| SimpleRedis.Client.OnClose | src/lib/module/simple.redis.ts:209-219 | buffers and parser dropped, every waiting callback failed oldest first, then `close` emitted |
| SimpleRedis.Client.OnError | src/lib/module/simple.redis.ts:204-207 | the attempt is over and the error re-emitted |
| SimpleRedis.Client.OnEnd | src/lib/module/simple.redis.ts:220-222 | `end` re-emitted |
| SimpleRedis.SendPrelude | src/lib/module/simple.redis.ts:246-252 | `preCommand` queues each callback and writes each line |
| SimpleRedis.ConnectWrites | src/lib/module/simple.redis.ts:182-202 | the prelude, then the buffered lines, then the held ones |
| SimpleRedis.WriteAll | src/lib/module/simple.redis.ts:196-198 | the buffered lines written in order |
| SimpleRedis.Feed | src/lib/module/simple.redis.ts:161-173 | push then the reply loop |
| SimpleRedis.DrainParser | src/lib/module/simple.redis.ts:163-172 | the reply loop does what `Drain` says |
| SimpleRedis.FailWaiting | src/lib/module/simple.redis.ts:212-215 | every waiting callback failed, oldest first |
| SimpleRedis.InOrderAligns | src/lib/module/simple.redis.ts:182-202 | queuing the prelude first keeps callbacks in line order |
| SimpleRedis.DrainTakesOldest | src/lib/module/simple.redis.ts:161-173 | the loop takes callbacks from the front only |
| SimpleRedis.DataOwners | src/lib/module/simple.redis.ts:161-173 | with aligned callbacks, the k-th reply goes to the owner of the k-th unanswered line |
| SimpleRedis.DataAligns | src/lib/module/simple.redis.ts:161-173 | replies taken keep the rest aligned |
| SimpleRedis.DrainStops | src/lib/module/simple.redis.ts:164 | with no complete reply the loop takes no callback and consumes nothing |
| SimpleRedis.DrainThrows | src/lib/module/simple.redis.ts:165-167 | a complete reply with no waiting callback makes the loop throw after consuming it |
| SimpleRedis.AuthThenNil | src/lib/module/simple.redis.ts:33-73 | the lines `+OK` and `$-1` read as the string "OK" and then null, one line each |
| SimpleRedis.MisroutedAuthReply | src/lib/module/simple.redis.ts:182-202 | with a password and a GET issued before connecting, GET's callback receives AUTH's `OK` |
| SimpleRedis.InOrderAuthReply | src/lib/module/simple.redis.ts:182-202 | with the corrected order each reply reaches its command |
| RedisComponent.Client.constructor | src/lib/component/simple.redis.ts:132-161 | options merged over the defaults; a connecting socket with nothing queued |
| RedisComponent.Client.Start | src/lib/component/simple.redis.ts:163-176 | AUTH and SELECT queued ahead of any later command, unless closed |
| RedisComponent.Client.Enqueue | src/lib/component/simple.redis.ts:201-212 | a closed client fails the callback at once and queues nothing; otherwise it queues and writes |
| RedisComponent.Client.SendCommand | src/lib/component/simple.redis.ts:201-212 | the same for a caller's command |
| RedisComponent.Client.Get | src/lib/component/simple.redis.ts:221-223 | `GET key` as a command |
| RedisComponent.Client.Setex | src/lib/component/simple.redis.ts:224-226 | `SETEX key ttl data` as a command |
| RedisComponent.Client.Expire | src/lib/component/simple.redis.ts:227-229 | `EXPIRE key ttl` as a command |
| RedisComponent.Client.Del | src/lib/component/simple.redis.ts:230-232 | `DEL key` as a command |
| RedisComponent.Client.OnConnect | src/lib/component/simple.redis.ts:145-150 | connected, `connect` emitted, the held lines sent |
| RedisComponent.Client.OnData | src/lib/component/simple.redis.ts:182-194 | the chunk pushed and every complete reply handed to the oldest callback |
| RedisComponent.Client.Deliver | src/lib/component/simple.redis.ts:182-194 | the callbacks used taken off the front |
| RedisComponent.Client.OnClose | src/lib/component/simple.redis.ts:151-155 | closed and `close` emitted; waiting callbacks stay queued |
| RedisComponent.Client.OnError | src/lib/component/simple.redis.ts:156-158 | the error re-emitted |
| RedisComponent.Client.OnEnd | src/lib/component/simple.redis.ts:159-161 | `end` re-emitted |
| RedisComponent.FlushAligns | src/lib/component/simple.redis.ts:145-150 | sending the held lines keeps callbacks in line order |
| RedisComponent.ComponentDataKeeps | src/lib/component/simple.redis.ts:182-194 | replies taken keep the client state valid |
| Session.Resolve | src/lib/component/session.ts:13-16 | each option over its default, the cookie's `maxAge` overwritten by the session's |
| Session.CookieOf | src/lib/component/session.ts:143-146 | path "/" and HTTP only always, every other option kept |
| Session.CookieSlot | src/lib/component/session.ts:19 | the signed cookies exactly when the cookie is signed |
| Session.CurrentSid | src/lib/component/session.ts:19-20 | a non-empty string under the cookie name |
| Session.ChooseSid | src/lib/component/session.ts:20 | the request's id when there is one, otherwise a new one |
| Session.SaveCall | src/lib/component/session.ts:121-128 | `save` refreshes when the data hashes as loaded and writes it in full otherwise |
| Session.SaveAfterReloadTouches | src/lib/component/session.ts:114-128 | saving data unchanged since the reload only refreshes |
| Session.SessionInstance.constructor | src/lib/component/session.ts:89-94 | empty data, no hash, no store call |
| Session.SessionInstance.SetData | src/lib/component/session.ts:100-102 | the request's session is the same data |
| Session.SessionInstance.Destroy | src/lib/component/session.ts:110-112 | one destroy call |
| Session.SessionInstance.Regenerate | src/lib/component/session.ts:104-108 | stored data destroyed, then the data emptied, the id kept; a store failure leaves the data; the request changes in its session slot only |
| Session.SessionInstance.Reload | src/lib/component/session.ts:114-119 | the stored data taken, with its hash remembered; a failure leaves both; the request changes in its session slot only |
| Session.SessionInstance.Save | src/lib/component/session.ts:121-128 | one `SaveCall` |
| Session.SessionInstance.ForceSave | src/lib/component/session.ts:130-132 | a full write |
| Session.SessionInstance.Touch | src/lib/component/session.ts:134-136 | a refresh |
| Session.SessionInstance.BeforeWriteHead | src/lib/component/session.ts:27-30 | the cookie set, then the session saved; a cookie that cannot be set throws before the save; status, body and the sent and finished flags stay |
| Session.Handle | src/lib/component/session.ts:12-33 | the id reused or generated, stored data loaded only for an existing id, the hook registered and `next` called unless the load fails; the request changes in its session slot only, and the context's request, response and other listeners stay |
| Session.Lookup | src/lib/component/session.ts:200-210 | nothing for a missing id; nothing, with the entry deleted, for an expired one; otherwise the value, nothing changed |
| Session.Store | src/lib/component/session.ts:212-218 | stored to expire `maxAge` after now, the rest untouched |
| Session.Remove | src/lib/component/session.ts:220-225 | the id removed, the rest untouched |
| Session.Expired | src/lib/component/session.ts:196-198 | definition: strictly past the expiry time; stated by `Session.Lookup`, `Session.StoreThenLookup` |
| Session.Extend | src/lib/component/session.ts:227-236 | a stored entry's expiry pushed back by `maxAge`; a missing id stays missing |
| Session.StoreThenLookup | src/lib/component/session.ts:196-218 | what was stored comes back until it expires, and nothing after |
| Session.RemoveThenLookup | src/lib/component/session.ts:200-225 | after `destroy` a lookup finds nothing |
| Session.StoreExtendLookup | src/lib/component/session.ts:196-236 | a refresh before expiry keeps the entry alive `maxAge` more |
| Session.LookupKeepsOthers | src/lib/component/session.ts:200-210 | a lookup leaves the other entries as they were |
| Session.MemoryStore.Get | src/lib/component/session.ts:200-210 | `Lookup`, with `{}` for nothing |
| Session.MemoryStore.Set | src/lib/component/session.ts:212-218 | `Store` |
| Session.MemoryStore.Destroy | src/lib/component/session.ts:220-225 | `Remove` |
| Session.MemoryStore.Touch | src/lib/component/session.ts:227-236 | `Extend` |
| Session.MemoryStore.Apply | src/lib/component/session.ts:187-236 | a store call carried out as the store does it |
| Session.MemoryStore.constructor | src/lib/component/session.ts:188-194 | an empty map |
| SessionMemory.Loaded | src/lib/component/session.memory.ts:25-35 | `{}` for nothing found, the deserialized text otherwise |
| SessionMemory.SerializedStore.constructor | src/lib/component/session.memory.ts:15-19 | the serializer pair and an empty map |
| SessionMemory.SerializedStore.Get | src/lib/component/session.memory.ts:25-35 | an expired entry deleted; what is found deserialized |
| SessionMemory.SerializedStore.Set | src/lib/component/session.memory.ts:37-43 | the serialized data stored with its expiry |
| SessionMemory.SerializedStore.Destroy | src/lib/component/session.memory.ts:45-50 | the id removed |
| SessionMemory.SerializedStore.Touch | src/lib/component/session.memory.ts:52-61 | the expiry pushed back, a missing id left missing |
| SessionMemory.SetThenGet | src/lib/component/session.memory.ts:25-43 | before expiry `get` gives `deserialize(serialize(data))`, so the data itself when the pair round-trips; after it, `{}` |
| SessionMemory.DestroyThenGet | src/lib/component/session.memory.ts:25-50 | after `destroy`, `get` gives `{}` |
| SessionRedis.MsToS | src/lib/component/session.redis.ts:40-42 | the whole seconds covering the milliseconds, `ceil(ms / 1000)` |
| SessionRedis.MsToSUnique | src/lib/component/session.redis.ts:40-42 | the ceiling is the only such number |
| SessionRedis.MsToSOfSeconds | src/lib/component/session.redis.ts:40-42 | whole seconds convert exactly |
| SessionRedis.KeyPrefix | src/lib/component/session.redis.ts:16 | an empty or missing prefix becomes "sess:" |
| SessionRedis.Key | src/lib/component/session.redis.ts:57-59 | the key is the prefix followed by the id |
| SessionRedis.KeyInjective | src/lib/component/session.redis.ts:57-59 | distinct sessions never share a key |
| SessionRedis.Loaded | src/lib/component/session.redis.ts:61-72 | a client error rejects; otherwise the reply deserialized, a throwing deserializer rejecting |
| SessionRedis.Written | src/lib/component/session.redis.ts:74-99 | a client error rejects, any reply resolves |
| SessionRedis.RedisStore.constructor | src/lib/component/session.redis.ts:50-55 | the given client and serializers or the defaults |
| SessionRedis.RedisStore.Get | src/lib/component/session.redis.ts:61-72 | `GET` of the prefixed key |
| SessionRedis.RedisStore.Set | src/lib/component/session.redis.ts:74-81 | `SETEX` of the prefixed key for `ceil(maxAge / 1000)` seconds with the serialized data |
| SessionRedis.RedisStore.Destroy | src/lib/component/session.redis.ts:83-90 | `DEL` of the prefixed key |
| SessionRedis.RedisStore.Touch | src/lib/component/session.redis.ts:92-99 | `EXPIRE` of the prefixed key for `ceil(maxAge / 1000)` seconds |
| Template.Dotted | src/lib/template.ts:34 | the extension with exactly one leading dot added when it lacks one |
| Template.LastIndexOf | src/lib/template.ts:59 | the last position of the character, -1 when it does not occur |
| Template.Basename | src/lib/template.ts:59 | a tail of the name that contains no "/" |
| Template.DottedIdempotent | src/lib/template.ts:34 | adding the dot twice is adding it once |
| Template.Extname | src/lib/template.ts:59 | the extension is "" or a dot and a tail of the name with no dot or slash |
| Template.ExtnameOfAppended | src/lib/template.ts:66-69 | a name with the default extension appended has exactly that extension |
| Template.Merged | src/lib/template.ts:72 | every shared and render variable, the render's winning |
| Template.Select | src/lib/template.ts:57-77 | a registered extension picks its engine with the file unchanged; otherwise a default engine is required, whose extension is added to a name without one |
| Template.DefaultFileHasDefaultExtension | src/lib/template.ts:64-71 | a name without extension goes to the default engine with the default extension added |
| Template.TemplateEngineManager.constructor | src/lib/template.ts:12-17 | no engines, no default, root "./views", no variables |
| Template.TemplateEngineManager.SetRoot | src/lib/template.ts:23-26 | the root set |
| Template.TemplateEngineManager.Register | src/lib/template.ts:33-37 | the engine stored under the dotted extension |
| Template.TemplateEngineManager.SetDefault | src/lib/template.ts:44-50 | fails for an unregistered extension; with `ignoreIfExists` a default already set is kept |
| Template.TemplateEngineManager.Render | src/lib/template.ts:57-77 | the choice `Select` makes |
| Template.TemplateEngineManager.SetLocals | src/lib/template.ts:84-87 | exactly one variable set |
| Template.TemplateEngineManager.Init | src/lib/template.ts:93-96 | registered and the default unless one is set: the first engine initialised stays the default |
| SimpleTemplate.Close | src/lib/module/simple.template.ts:10 | the first `}}` with no line terminator before it |
| SimpleTemplate.Render | src/lib/module/simple.template.ts:9-11 | definition of `render`; stated by `SimpleTemplate.Placeholder`, `SimpleTemplate.NoPlaceholderUnchanged`, `SimpleTemplate.TwoPlaceholders`, `SimpleTemplate.BrokenLineUnchanged` |
| SimpleTemplate.LiteralPrefix | src/lib/module/simple.template.ts:9-11 | text without an opening brace is copied as it is |
| SimpleTemplate.NoPlaceholderUnchanged | src/lib/module/simple.template.ts:9-11 | a template without a placeholder is returned unchanged |
| SimpleTemplate.NoBracesUnchanged | src/lib/module/simple.template.ts:9-11 | in particular one without `{{` |
| SimpleTemplate.Placeholder | src/lib/module/simple.template.ts:9-11 | `{{key}}` becomes the key's value and the rest is rendered after it |
| SimpleTemplate.TwoPlaceholders | src/lib/module/simple.template.ts:10 | the match is lazy: `{{a}}{{b}}` is two replacements |
| SimpleTemplate.BrokenLineUnchanged | src/lib/module/simple.template.ts:10 | a pair with a line break inside is left as written |
| Cors.Strings | src/lib/component/cors.ts:28-36 | the default lists as arrays of strings |
| Cors.ItemTexts | src/lib/component/cors.ts:57-64 | each element as `join` writes it |
| Cors.Put | src/lib/component/cors.ts:50-64 | setting a property gives it the value and leaves the others |
| Cors.Build | src/lib/component/cors.ts:42-72 | the option errors for `any`, `domain`, `credentials` and the lists; on success the mode and the four headers `String(maxAge)`, `String(credentials)` and the joined lists, the extra headers kept |
| Cors.Origin | src/lib/component/cors.ts:76 | the request's non-empty `Origin` |
| Cors.Allowed | src/lib/component/cors.ts:74-93 | definition of which requests are answered; stated by `Cors.AllowedIff` and `Cors.Handle` |
| Cors.Answered | src/lib/component/cors.ts:66-72 | definition of the answered headers; stated by `Cors.Handle` |
| Cors.JoinList | src/lib/component/cors.ts:57-64 | definition of `join(", ")`; stated by `Cors.Build` |
| Cors.Handle | src/lib/component/cors.ts:74-93 | an allowed origin is echoed with the fixed headers; otherwise nothing is set; `next` is called, except when the head was already sent, where the first `setHeader` throws and nothing is set |
| Cors.Answer | src/lib/component/cors.ts:66-90 | the origin echoed, then the fixed headers over it; on a sent head the first `setHeader` throws and nothing is set |
| Cors.NoOriginNoHeaders | src/lib/component/cors.ts:76-80 | with no `Origin` nothing is set |
| Cors.AllowedIff | src/lib/component/cors.ts:74-93 | any origin in `any` mode; in list mode exactly those whose host is listed |
| Cors.AsWrittenAllowMethods | src/lib/component/cors.ts:34-35 | the default `Allow-Methods` is the list of header names, starting with "Origin" |
| Cors.OriginIsNoMethod | src/lib/component/cors.ts:34-35 | "Origin" is no method the router knows |
| Cors.IntendedAllowLists | src/lib/component/cors.ts:34-35 | with the lists the right way round the methods and headers are where their names say |
| Cors.MethodListAreVerbs | src/lib/component/cors.ts:34-35 | every name on the method list is a router verb |
| BodyParser.Encoding | src/lib/module/body.parser.ts:51 | the lower-cased `Content-Encoding`, "identity" when missing or empty |
| BodyParser.ContentStreamOf | src/lib/module/body.parser.ts:50-63 | deflate, gzip and identity are read with the declared length; anything else gives 415 and its message |
| BodyParser.NoEncodingIsIdentity | src/lib/module/body.parser.ts:51-58 | a request without an encoding is read as sent |
| BodyParser.EncodingCaseInsensitive | src/lib/module/body.parser.ts:51 | the encoding's case does not matter |
| BodyParser.Concat | src/lib/module/body.parser.ts:35 | the data is as long as the chunks together |
| BodyParser.TotalLengthMonotone | src/lib/module/body.parser.ts:23-31 | the total only grows as chunks arrive |
| BodyParser.ReadAllBody | src/lib/module/body.parser.ts:15-44 | 413 exactly when the total passes the limit; otherwise, at the end, the chunks concatenated in order; chunks after a refusal are dropped |
| BodyParser.LimitIsInclusive | src/lib/module/body.parser.ts:37-42 | a body at the limit is read whole and one byte more is refused |
| BodyParser.RefusalIsFinal | src/lib/module/body.parser.ts:24-35 | once refused, later chunks and the end change nothing |
| Text.Lower | src/lib/request.ts:85-87 | `toLowerCase` character by character |
| Text.LowerIdempotent | src/lib/request.ts:85-87 | lowering twice is lowering once |
| Values.ParseNumber | src/lib/module/simple.redis.ts:50-58 | `Number(s)` gives a number or NaN |
| Values.ParseNumberOfIntToString | src/lib/module/simple.redis.ts:50-58 | `Number(String(n))` is `n` for every integer |
| Values.OrNull | src/lib/core.ts:197 | `err \|\| null` keeps an error and turns anything falsy into null |

## Left out

- Input and output are not modelled: sockets, the HTTP server, streams and files. The HTTP server wiring (`application.ts`, `connect.ts`) is not part of this model.
- The timing of `process.nextTick` and `setImmediate` is not modelled. Deferred handler calls become a first-in first-out queue that `Run` steps through, up to a fuel bound. Promise and event-emitter internals become explicit steps.
- Route compilation by `path-to-regexp` is foreign code. The model uses a strict, case-sensitive matcher over literal segments and `:name` parameters, with prefix and full modes. A RegExp route is modelled as one that matches its source text literally anywhere in the path.
- `Core.Core.Use`, `Core.Stamp`: a mounted application's stack and route are copied when it is mounted. In the source both are read through the application (`self.route`, `self.stack`) when a request arrives. So entries it gains later are not seen, and neither is a later `use` that mounts the same application again and overwrites its `route`. For `app.use("/a", sub); app.use("/b", sub)`, a request for `/a/x` reaches the first mount, which the source then matches against `/b` and the model against `/a`.
- `Router.Router.Register`: the router stores the route description on the entry itself. That is the call's evident intent, since `router.ts:21` passes that description as an extra first argument that `core.ts:145` does not declare.
- `Base.BaseConnect.Use`: `base.ts` calls `parseRoute` and `testRoute`, which the `utils.ts` of this revision does not define. They are modelled by the current `parseRoutePath` and `testRoutePath`. The route of that revision is a RegExp whenever it is present, so "parameters only for a RegExp route" is the same as "parameters when there is a route".
- Several things are parameters rather than models:
  - the clock (`Date.now()`);
  - the id generator (`genid`);
  - the CRC-32 data hash;
  - cookie serialization and signing;
  - `JSON.stringify` of objects;
  - the host that `url.parse` finds in an origin;
  - `path.resolve`;
  - the template engines' `renderFile`.
- `SessionMemory.SerializedStore.constructor`, `SessionRedis.RedisStore.constructor`: `DEFAULT_SESSION_SERIALIZE` and `DEFAULT_SESSION_DESERIALIZE` are imported but not defined in the `session.ts` shown, so the default pair is a parameter.
- `Session.Handle`:
  - A cookie value that is not a string is treated as no session id.
  - `session.ts` assigns `ctx.session`, which `context.ts` defines as a getter. This is modelled as the context's session slot.
  - The `Cookie` class's getters and setters are not modelled beyond its options.
- Shared default objects mutated across calls are not modelled. This covers the CORS `DEFAULT` headers object that every call writes into, and `DEFAULT_COOKIE.maxAge`. Each call gets fresh defaults (aliasing is not modelled).
- `Cors.Build`: `headers` given explicitly as `undefined` is treated like a missing key.
- `Cors.Build`, `FinalHandler.SetErrorHeaders`: the `for…in` order of keys is not modelled. In `Cors.Build`, JavaScript puts integer-like keys first. In `FinalHandler.SetErrorHeaders`, error headers whose names differ only in case land in an unspecified order.
- `Template.Extname`: a trailing slash in the name is not stripped as `path.extname` strips it.
- `Template.Merged`: keys of `Object.prototype` are not modelled.
- `Template.TemplateEngineManager.Init`: only the rule shared by all `init*` methods is modelled (register, then `setDefault(ext, true)`). Loading the engine module (`requireProjectModule`) is left out.
- The file reading of `simple.template.ts`'s `renderFile` is left out. Only `render` is modelled.
- `RedisComponent.Client.OnClose`: callbacks still waiting when the connection closes are never called, as in the source.
- `BodyParser.ReadAllBody`:
  - Pausing the stream is recorded as a count of dropped chunks.
  - The length header is passed through as text.
  - Decompression by zlib is not modelled.
- Floating point is not modelled beyond one division. Numbers are integers or NaN. The one exception is `Response.cookie`'s `maxAge / 1000`, which is an exact `real` division; rounding of the IEEE double is not modelled.
- `Text.Lower`: case folding covers ASCII letters only.
- `Req.PathnameOf`: only the cut at the first "?" or "#" of `url.parse` is modelled. The parser also trims surrounding whitespace, turns backslashes into "/", and percent-escapes characters such as spaces (`/a b` gives `/a%20b`). It also takes the protocol and host off an absolute-form URL: `url.parse("http://h/p?q").pathname` is `/p`, where the model gives `http://h/p`. The model promises none of that.
- `Values.ParseNumber`: only an optional minus sign followed by decimal digits, and the empty string, are read as `Number(s)` reads them. The model gives NaN for the other forms JavaScript accepts, such as `+5`, ` 5` (surrounding whitespace), `0x10`, `1e3`, `1.5` and `Infinity`.
- `Resp.HeadersSentReason`: the error a handler catches when `setHeader` throws on a sent head carries the server's message and `code`, not its stack. The messages follow current Node (`Cannot set headers after they are sent to the client`, with "write" for `writeHead`).
- `SimpleRedis.ConnectWrites`, `SimpleRedis.Client.OnConnect`, `SimpleRedis.InOrderAligns`, `SimpleRedis.Client.OnConnectInOrder`: the model assumes that lines the socket held while connecting reach the server after everything the connect listener writes. Node's socket may send the held lines first, because its own pending write runs ahead of the listener's. Under that order, the wire order these members state does not hold, and neither does the alignment of replies that the corrected prelude order gives. Example: no password, database 0, `get(a)` then `get(b)` before the connection opens.
- `Session.MemoryStore.Get`, `Session.MemoryStore.Set`: values are copied in and out of the store. The source stores the caller's object and hands that same object back (`session.ts:208`, `session.ts:215`), so a change to it after `set` or `get` shows in the store. Aliasing is not modelled.
- `RedisCommand.JsonRoundTrip`, `RedisCommand.StringArgument`: the body of a quoted argument is decoded by JSON's rules, not by the Redis server's own inline-command reader. The two disagree on some escapes: `JSON.stringify("\f")` gives `"\f"`, which the server reads as `f`. What the server takes a string argument to be is not modelled.
- `MountFacts.MountHandsOnAsFound` and the lemmas it rests on cover well-behaved handlers only. A classical middleware that throws leaves the prefix removed (`MountFacts.ClassicalThrowLeavesPrefixRemoved`), and a RegExp mount route need not match at the start of the path. For those the restore is not promised.
- Only the two Redis clients of the repository are modelled, not any other `RedisCompatibleClient`.

## Findings

| source | as written | input that shows it | evidently intended | confidence | as-written member | corrected member |
|---|---|---|---|---|---|---|
| src/lib/module/simple.redis.ts:182-202 | the connect listener writes AUTH and SELECT before the buffered commands, but `preCommand` queues their callbacks after the callbacks already waiting | a client with password "secret" whose first command `GET k` is issued before it connects; the server answers `+OK` then `$-1` | each reply goes to the command it answers, so the prelude's callbacks go first | not executed | SimpleRedis.MisroutedAuthReply | SimpleRedis.InOrderAuthReply |
| src/lib/component/cors.ts:34-35 | the default `allowHeaders` is the list of method names and the default `allowMethods` the list of header names | `cors({})`: `Access-Control-Allow-Methods` becomes "Origin, X-Requested-With, Content-Type, …" | methods in `Allow-Methods` and header names in `Allow-Headers` | not executed | Cors.AsWrittenAllowMethods | Cors.IntendedAllowLists |
