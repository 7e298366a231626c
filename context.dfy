/** The per-request context: the stack of continuations that `next` calls,
  * the session slot, the event listeners, and what `init` does to the response. */
module Ctx {
  import opened Wrappers
  import opened Values
  import Resp
  import Req

  /** A continuation on the stack: the `next` of a dispatch level (by the
    * level's number), or a callback from outside the framework (a classical
    * `next` or the final handler). */
  datatype NextHandle = DispatchNext(level: nat) | ExternalNext(callback: nat)

  function Push(stack: seq<NextHandle>, h: NextHandle): (r: seq<NextHandle>)
    ensures |r| == |stack| + 1 && r[|stack|] == h && r[..|stack|] == stack
  {
    stack + [h]
  }

  /** `pop()`: the stack without its top, and the top if there was one. */
  function Pop(stack: seq<NextHandle>): (r: seq<NextHandle>)
    ensures stack == [] ==> r == []
    ensures stack != [] ==> |r| == |stack| - 1 && r == stack[..|stack| - 1]
  {
    if stack == [] then [] else stack[..|stack| - 1]
  }

  /** The continuation `next` would call: the last one pushed. */
  function Top(stack: seq<NextHandle>): (r: Option<NextHandle>)
    ensures r.None? <==> stack == []
    ensures r.Some? ==> r.value == stack[|stack| - 1]
  {
    if stack == [] then None else Some(stack[|stack| - 1])
  }

  /** Pushing then popping gives the stack back, and the pushed handle is the top in between. */
  lemma PushPop(stack: seq<NextHandle>, h: NextHandle)
    ensures Top(Push(stack, h)) == Some(h)
    ensures Pop(Push(stack, h)) == stack
  {
  }

  const SessionMissing := "ctx.session: please use component.session() middleware firstly"

  const PoweredBy := "@leizm/web"
  const PoweredByHeader := "X-Powered-By"

  /** The key `setHeader(PoweredByHeader, ...)` stores the header under. */
  lemma PoweredByName() ensures Text.Lower(PoweredByHeader) == "x-powered-by"
  {
    var s, t := PoweredByHeader, "x-powered-by";
    forall i | 0 <= i < |s| ensures Text.LowerChar(s[i]) == t[i] {}
    Text.LowerIs(s, t);
  }


  class Context {
    var nextHandleStack: seq<NextHandle>
    /** The session instance attached by the session middleware, by number. */
    var sessionSlot: Option<nat>
    var errorListeners: nat
    var finishListeners: nat
    var writeHeadListeners: nat
    /** Whether the response's `finish` is forwarded (registered with `once`). */
    var forwardsFinish: bool
    var finishEvents: nat
    var request: Req.Request?
    var response: Resp.Response?

    constructor()
      ensures nextHandleStack == [] && sessionSlot.None?
      ensures errorListeners == 0 && finishListeners == 0 && writeHeadListeners == 0
      ensures !forwardsFinish && finishEvents == 0 && request == null && response == null
    {
      nextHandleStack := [];
      sessionSlot := None;
      errorListeners := 0;
      finishListeners := 0;
      writeHeadListeners := 0;
      forwardsFinish := false;
      finishEvents := 0;
      request := null;
      response := null;
    }

    /** `init`: attaches the wrappers, marks the response as coming from this
      * framework and starts forwarding its `finish` event. */
    method Init(req: Req.Request, res: Resp.Response)
      modifies this, res
      ensures request == req && response == res && forwardsFinish
      ensures res.headers == old(res.headers)["x-powered-by" := Resp.HScalar(Resp.SStr(PoweredBy))]
      ensures res.statusCode == old(res.statusCode) && res.finished == old(res.finished) && res.body == old(res.body)
      ensures nextHandleStack == old(nextHandleStack) && sessionSlot == old(sessionSlot)
      ensures finishEvents == old(finishEvents) && errorListeners == old(errorListeners)
      ensures finishListeners == old(finishListeners) && writeHeadListeners == old(writeHeadListeners)
      ensures res.headersSent == old(res.headersSent)
    {
      // setHeader(PoweredByHeader, ...) stores under the lower-cased name (PoweredByName)
      res.headers := res.headers["x-powered-by" := Resp.HScalar(Resp.SStr(PoweredBy))];
      request := req;
      response := res;
      forwardsFinish := true;
    }

    /** The response finished: the context emits `finish` the first time only. */
    method ResponseFinished()
      modifies this
      ensures finishEvents == old(finishEvents) + (if old(forwardsFinish) then 1 else 0)
      ensures !forwardsFinish
      ensures nextHandleStack == old(nextHandleStack) && sessionSlot == old(sessionSlot) && errorListeners == old(errorListeners)
      ensures finishListeners == old(finishListeners) && writeHeadListeners == old(writeHeadListeners) && request == old(request)
      ensures response == old(response)
    {
      if forwardsFinish {
        finishEvents := finishEvents + 1;
        forwardsFinish := false;
      }
    }

    /** `next(err)` calls the top continuation only, if there is one; nothing is removed. */
    method Next() returns (called: Option<NextHandle>)
      ensures called == Top(nextHandleStack)
    {
      if |nextHandleStack| > 0 {
        called := Some(nextHandleStack[|nextHandleStack| - 1]);
      } else {
        called := None;
      }
    }

    method PushNextHandle(h: NextHandle)
      modifies this
      ensures nextHandleStack == Push(old(nextHandleStack), h)
      ensures sessionSlot == old(sessionSlot) && errorListeners == old(errorListeners) && finishListeners == old(finishListeners)
      ensures writeHeadListeners == old(writeHeadListeners) && forwardsFinish == old(forwardsFinish) && finishEvents == old(finishEvents)
      ensures request == old(request) && response == old(response)
    {
      nextHandleStack := nextHandleStack + [h];
    }

    method PopNextHandle() returns (popped: Option<NextHandle>)
      modifies this
      ensures popped == Top(old(nextHandleStack))
      ensures nextHandleStack == Pop(old(nextHandleStack))
      ensures sessionSlot == old(sessionSlot) && errorListeners == old(errorListeners) && finishListeners == old(finishListeners)
      ensures writeHeadListeners == old(writeHeadListeners) && forwardsFinish == old(forwardsFinish) && finishEvents == old(finishEvents)
      ensures request == old(request) && response == old(response)
    {
      if |nextHandleStack| > 0 {
        popped := Some(nextHandleStack[|nextHandleStack| - 1]);
        nextHandleStack := nextHandleStack[..|nextHandleStack| - 1];
      } else {
        popped := None;
      }
    }

    /** The `session` getter throws until the session middleware has run. */
    method Session() returns (r: Result<nat, string>)
      ensures sessionSlot.Some? ==> r == Success(sessionSlot.value)
      ensures sessionSlot.None? ==> r == Failure(SessionMissing)
    {
      if sessionSlot.Some? {
        r := Success(sessionSlot.value);
      } else {
        r := Failure(SessionMissing);
      }
    }

    method AttachSession(session: nat)
      modifies this
      ensures sessionSlot == Some(session)
      ensures nextHandleStack == old(nextHandleStack) && errorListeners == old(errorListeners) && finishListeners == old(finishListeners)
      ensures writeHeadListeners == old(writeHeadListeners) && forwardsFinish == old(forwardsFinish) && finishEvents == old(finishEvents)
      ensures request == old(request) && response == old(response)
    {
      sessionSlot := Some(session);
    }

    method OnError()
      modifies this
      ensures errorListeners == old(errorListeners) + 1
      ensures nextHandleStack == old(nextHandleStack) && sessionSlot == old(sessionSlot) && finishListeners == old(finishListeners)
      ensures writeHeadListeners == old(writeHeadListeners) && forwardsFinish == old(forwardsFinish) && finishEvents == old(finishEvents)
      ensures request == old(request) && response == old(response)
    {
      errorListeners := errorListeners + 1;
    }

    method OnFinish()
      modifies this
      ensures finishListeners == old(finishListeners) + 1
      ensures nextHandleStack == old(nextHandleStack) && sessionSlot == old(sessionSlot) && errorListeners == old(errorListeners)
      ensures writeHeadListeners == old(writeHeadListeners) && forwardsFinish == old(forwardsFinish) && finishEvents == old(finishEvents)
      ensures request == old(request) && response == old(response)
    {
      finishListeners := finishListeners + 1;
    }

    method OnWriteHead()
      modifies this
      ensures writeHeadListeners == old(writeHeadListeners) + 1
      ensures nextHandleStack == old(nextHandleStack) && sessionSlot == old(sessionSlot) && errorListeners == old(errorListeners)
      ensures finishListeners == old(finishListeners) && forwardsFinish == old(forwardsFinish) && finishEvents == old(finishEvents)
      ensures request == old(request) && response == old(response)
    {
      writeHeadListeners := writeHeadListeners + 1;
    }
  }
}
