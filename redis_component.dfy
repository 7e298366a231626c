/** The eagerly connecting Redis client: the connection is opened when the
  * client is built and AUTH and SELECT are issued right after, ahead of any
  * command; every command queues its callback and writes its line at once
  * (the socket holds it until it is connected); a closed connection turns
  * every later command into an immediate error. It shares the reply parser,
  * the command lines, the reply loop and the record of what left the client
  * with the lazily connecting client. */
module RedisComponent {
  import opened Wrappers
  import opened Values
  import opened RedisParser
  import opened RedisCommand
  import opened SimpleRedis

  /** The state every event keeps: one owner per line; a socket that is not
    * connected has nothing unanswered, a connected one holds nothing; as
    * many callbacks wait as lines await a reply. The lazily connecting
    * client's buffer is never used here. */
  ghost predicate ComponentState(isConnected: bool, cbs: seq<Callback>, o: Outside, w: Owners)
  {
    |w.wire| == |o.written| && |w.held| == |o.held| && w.buf == [] && w.answered <= |w.wire| &&
    (!isConnected ==> w.answered == |w.wire|) &&
    (isConnected ==> o.held == []) &&
    |cbs| == |w.wire| - w.answered + |o.held|
  }

  class Client {
    const settings: Settings
    /** The lines written for AUTH and SELECT; they depend on the options alone. */
    const authLine: string
    const selectLine: string
    var parser: Parser
    /** `_callbacks`: who receives the next replies, oldest first. */
    var callbacks: seq<Callback>
    var isClosed: bool
    var isConnected: bool
    var out: Outside
    ghost var own: Owners

    ghost predicate Valid()
      reads this, parser
    {
      parser.Valid() && ComponentState(isConnected, callbacks, out, own)
    }

    /** Replies go to whoever sent the line they answer. */
    ghost predicate Aligned()
      reads this
    {
      AlignedState(callbacks, own)
    }

    /** The constructor: the options merged over the defaults and the
      * connection opened; the socket is connecting. */
    constructor(o: ClientOptions)
      ensures settings == Resolve(o) && Valid() && Aligned()
      ensures authLine == CommandLine(AuthCommand(settings.password)) && selectLine == CommandLine(SelectCommand(settings.db))
      ensures fresh(parser) && parser.lines == [] && parser.text == []
      ensures !isClosed && !isConnected && callbacks == [] && out == Outside([], [], [], [])
    {
      settings := Resolve(o);
      authLine := CommandLine(AuthCommand(Resolve(o).password));
      selectLine := CommandLine(SelectCommand(Resolve(o).db));
      parser := new Parser();
      callbacks := [];
      isClosed := false;
      isConnected := false;
      out := Outside([], [], [], []);
      own := Owners([], [], [], 0);
    }

    /** The constructor's `sendCommand`s for AUTH (with a password) and
      * SELECT (for a database other than 0), as they run on the next turn of
      * the event loop: before any command issued after the client was built. */
    method Start()
      requires Valid()
      modifies this`callbacks, this`out, this`own
      ensures Valid() && (old(Aligned()) ==> Aligned())
      ensures !old(isClosed) ==> (callbacks == old(callbacks) + PreludeOwners(settings) &&
        out == if isConnected then old(out).(written := old(out.written) + Prelude(settings, authLine, selectLine))
               else old(out).(held := old(out.held) + Prelude(settings, authLine, selectLine)))
    {
      if settings.password != [] {
        Enqueue(authLine, AuthCheck);
      }
      if settings.db > 0 {
        Enqueue(selectLine, SelectCheck);
      }
    }

    /** `sendCommand(cmd, callback)`, as it runs on the next turn of the
      * event loop, for any callback. */
    method Enqueue(line: string, cb: Callback)
      requires Valid()
      modifies this`callbacks, this`out, this`own
      ensures Valid() && (old(Aligned()) ==> Aligned())
      ensures old(isClosed) ==> (callbacks == old(callbacks) && own == old(own) &&
        out == old(out).(delivered := old(out.delivered) + [(cb, Failed(ClosedMessage))],
                         emitted := old(out.emitted) + Reaction(cb, Failed(ClosedMessage))))
      ensures !old(isClosed) ==> callbacks == old(callbacks) + [cb] && out == Send(old(out), isConnected, line)
    {
      if isClosed {
        out := out.(delivered := out.delivered + [(cb, Failed(ClosedMessage))],
                    emitted := out.emitted + Reaction(cb, Failed(ClosedMessage)));
        return;
      }
      callbacks := callbacks + [cb];
      out := Send(out, isConnected, line);
      own := SendOwner(own, isConnected, cb);
    }

    /** `sendCommand(cmd, callback)`. */
    method SendCommand(cmd: seq<Arg>, id: nat)
      requires Valid()
      modifies this`callbacks, this`out, this`own
      ensures Valid() && (old(Aligned()) ==> Aligned())
      ensures old(isClosed) ==> (callbacks == old(callbacks) &&
        out == old(out).(delivered := old(out.delivered) + [(User(id), Failed(ClosedMessage))]))
      ensures !old(isClosed) ==> callbacks == old(callbacks) + [User(id)] && out == Send(old(out), isConnected, CommandLine(cmd))
    {
      Enqueue(CommandLine(cmd), User(id));
    }

    method Get(key: string, id: nat)
      requires Valid()
      modifies this`callbacks, this`out, this`own
      ensures Valid() && (old(Aligned()) ==> Aligned())
      ensures !old(isClosed) ==> callbacks == old(callbacks) + [User(id)] && out == Send(old(out), isConnected, CommandLine(GetCommand(key)))
    {
      SendCommand(GetCommand(key), id);
    }

    method Setex(key: string, ttl: int, data: string, id: nat)
      requires Valid()
      modifies this`callbacks, this`out, this`own
      ensures Valid() && (old(Aligned()) ==> Aligned())
      ensures !old(isClosed) ==> (callbacks == old(callbacks) + [User(id)] &&
        out == Send(old(out), isConnected, CommandLine(SetexCommand(key, ttl, data))))
    {
      SendCommand(SetexCommand(key, ttl, data), id);
    }

    method Expire(key: string, ttl: int, id: nat)
      requires Valid()
      modifies this`callbacks, this`out, this`own
      ensures Valid() && (old(Aligned()) ==> Aligned())
      ensures !old(isClosed) ==> (callbacks == old(callbacks) + [User(id)] &&
        out == Send(old(out), isConnected, CommandLine(ExpireCommand(key, ttl))))
    {
      SendCommand(ExpireCommand(key, ttl), id);
    }

    method Del(key: string, id: nat)
      requires Valid()
      modifies this`callbacks, this`out, this`own
      ensures Valid() && (old(Aligned()) ==> Aligned())
      ensures !old(isClosed) ==> callbacks == old(callbacks) + [User(id)] && out == Send(old(out), isConnected, CommandLine(DelCommand(key)))
    {
      SendCommand(DelCommand(key), id);
    }

    /** The connect listener: connected, `connect` emitted; the lines the
      * socket held go out once the listener has run. */
    method OnConnect()
      requires Valid() && !isConnected
      modifies this`isConnected, this`out, this`own
      ensures Valid() && (old(Aligned()) ==> Aligned())
      ensures isConnected && callbacks == old(callbacks)
      ensures out == old(out).(written := old(out.written) + old(out.held), held := [], emitted := old(out.emitted) + [Connected])
    {
      ghost var w := own.(wire := own.wire + own.held, held := []);
      if Aligned() {
        FlushAligns(callbacks, own);
      }
      isConnected, out, own := true,
        out.(written := out.written + out.held, held := [], emitted := out.emitted + [Connected]), w;
    }

    /** `_pushData`: the chunk pushed to the parser, then each complete reply
      * handed to the oldest waiting callback. */
    method OnData(chunk: string) returns (threw: bool)
      requires Valid() && isConnected
      modifies this`callbacks, this`out, this`own, parser
      ensures Valid()
      ensures var d := Drain(AfterPush(old(parser.lines), old(parser.text), chunk), old(callbacks));
        out.delivered == old(out.delivered) + d.calls && out.emitted == old(out.emitted) + Reactions(d.calls) &&
        out.written == old(out.written) && out.held == old(out.held) && callbacks == d.callbacks &&
        parser.lines == d.lines && threw == d.threw && own == old(own).(answered := old(own.answered) + |d.calls|)
      ensures old(Aligned()) ==> Aligned()
    {
      var calls, cbs;
      calls, cbs, threw := Feed(parser, chunk, callbacks);
      DrainTakesOldest(AfterPush(old(parser.lines), old(parser.text), chunk), old(callbacks));
      Deliver(calls);
    }

    /** The calls the reply loop made, recorded: the callbacks they used taken
      * off the front of the queue, their lines answered. */
    method Deliver(calls: seq<(Callback, Answer)>)
      requires Valid() && isConnected && |calls| <= |callbacks|
      modifies this`callbacks, this`out, this`own
      ensures Valid() && (old(Aligned()) ==> Aligned())
      ensures callbacks == old(callbacks)[|calls|..] && own == old(own).(answered := old(own.answered) + |calls|)
      ensures out == old(out).(delivered := old(out.delivered) + calls, emitted := old(out.emitted) + Reactions(calls))
    {
      var out' := out.(delivered := out.delivered + calls, emitted := out.emitted + Reactions(calls));
      ComponentDataKeeps(callbacks, out, out', own, |calls|);
      if Aligned() {
        DataAligns(own, callbacks, |calls|);
      }
      callbacks, out, own := callbacks[|calls|..], out', own.(answered := own.answered + |calls|);
    }

    /** The close listener: closed, `close` emitted. The waiting callbacks
      * stay queued and are never called. */
    method OnClose()
      modifies this`isClosed, this`out
      ensures isClosed && out == old(out).(emitted := old(out.emitted) + [Closed])
    {
      isClosed := true;
      out := out.(emitted := out.emitted + [Closed]);
    }

    /** The error listener: the error re-emitted. */
    method OnError(message: string)
      modifies this`out
      ensures out == old(out).(emitted := old(out.emitted) + [ErrorEvent(message)])
    {
      out := out.(emitted := out.emitted + [ErrorEvent(message)]);
    }

    /** The end listener. */
    method OnEnd()
      modifies this`out
      ensures out == old(out).(emitted := old(out.emitted) + [Ended])
    {
      out := out.(emitted := out.emitted + [Ended]);
    }
  }

  /** Sending the held lines keeps the callbacks in line order. */
  lemma FlushAligns(cbs: seq<Callback>, w: Owners)
    requires AlignedState(cbs, w) && w.answered == |w.wire| && w.buf == []
    ensures AlignedState(cbs, w.(wire := w.wire + w.held, held := []))
  {
    assert w.wire[w.answered..] == [];
    assert (w.wire + w.held)[w.answered..] == w.held;
  }

  /** Replies taken by the oldest `m` callbacks on a connected socket keep
    * the state valid. */
  lemma ComponentDataKeeps(cbs: seq<Callback>, o: Outside, o': Outside, w: Owners, m: nat)
    requires m <= |cbs| && o'.written == o.written && o'.held == o.held
    ensures ComponentState(true, cbs, o, w) ==>
      ComponentState(true, cbs[m..], o', w.(answered := w.answered + m))
  {
  }
}
