/** The lazily connecting Redis client: a command issued without a socket is
  * buffered and opens the connection; the connect listener authenticates
  * and selects the database, then writes the buffered commands; every
  * complete reply is handed to the oldest waiting callback; a closed
  * connection fails every waiting callback and drops the buffers.
  *
  * Node's socket is modelled by what it does with writes: once connected a
  * write reaches the server at once; before that it is held and reaches the
  * server right after the connect listeners have run. The ghost owners say
  * whose command each line sent, buffered or held is. */
module SimpleRedis {
  import opened Wrappers
  import opened Values
  import opened RedisParser
  import opened RedisCommand

  /** The callbacks of the commands the connect listener sends first: AUTH
    * when a password is set, SELECT when the database is not 0. */
  function PreludeOwners(s: Settings): (r: seq<Callback>)
    ensures |r| <= 2
    ensures AuthCheck in r <==> s.password != []
    ensures SelectCheck in r <==> s.db > 0
  {
    (if s.password != [] then [AuthCheck] else []) + (if s.db > 0 then [SelectCheck] else [])
  }

  /** The lines of those commands, in the same order, given the two lines. */
  function Prelude(s: Settings, authLine: string, selectLine: string): (r: seq<string>)
    ensures |r| == |PreludeOwners(s)|
  {
    (if s.password != [] then [authLine] else []) + (if s.db > 0 then [selectLine] else [])
  }

  /** The prelude's lines: `AUTH <password>` and `SELECT <db>`. */
  function PreludeLines(s: Settings): seq<string>
  {
    Prelude(s, CommandLine(AuthCommand(s.password)), CommandLine(SelectCommand(s.db)))
  }

  const ClosedMessage := "connection has been closed"

  /** What left the client: the lines the server received, the lines a
    * connecting socket holds, every callback call and every event, in order. */
  datatype Outside = Outside(written: seq<string>, held: seq<string>,
                             delivered: seq<(Callback, Answer)>, emitted: seq<Event>)

  /** Whose command each line is: those the server received, those buffered,
    * those held; and how many received lines have had their reply. */
  datatype Owners = Owners(wire: seq<Callback>, buf: seq<Callback>, held: seq<Callback>, answered: nat)

  /** `socket.write(line)`: to the server when connected, held otherwise. */
  function Send(o: Outside, connected: bool, line: string): Outside
  {
    if connected then o.(written := o.written + [line]) else o.(held := o.held + [line])
  }

  function SendOwner(w: Owners, connected: bool, cb: Callback): Owners
  {
    if connected then w.(wire := w.wire + [cb]) else w.(held := w.held + [cb])
  }

  /** The state every event keeps: one owner per line; without a socket
    * nothing is connecting, buffered, held or unanswered; a socket that is
    * not connected has nothing unanswered, nor does a connecting one
    * count as connected; a connected one has nothing
    * buffered or held; as many callbacks wait as lines await a reply. */
  ghost predicate ValidState(hasSocket: bool, isConnecting: bool, isConnected: bool,
                             cbs: seq<Callback>, bufs: seq<string>, o: Outside, w: Owners)
  {
    |w.wire| == |o.written| && |w.buf| == |bufs| && |w.held| == |o.held| && w.answered <= |w.wire| &&
    (!hasSocket ==> !isConnecting && bufs == [] && o.held == [] && w.answered == |w.wire|) &&
    (hasSocket && !isConnected ==> w.answered == |w.wire|) &&
    (isConnecting ==> !isConnected) &&
    (hasSocket && isConnected ==> bufs == [] && o.held == []) &&
    |cbs| == |w.wire| - w.answered + |bufs| + |o.held|
  }

  /** The waiting callbacks are, in order, the owners of the received lines
    * still to be answered, then of the buffered ones, then of the held ones:
    * the next reply goes to whoever sent the line it answers. */
  ghost predicate AlignedState(cbs: seq<Callback>, w: Owners)
  {
    w.answered <= |w.wire| && cbs == w.wire[w.answered..] + w.buf + w.held
  }

  /** What leaves on connecting: the prelude, then the buffered lines, then
    * (once the connect listeners have run) the lines the socket held. */
  function ConnectOut(o: Outside, prelude: seq<string>, bufs: seq<string>): Outside
  {
    o.(written := o.written + prelude + bufs + o.held, held := [], emitted := o.emitted + [Connected])
  }

  function ConnectOwners(w: Owners, prelude: seq<Callback>): Owners
  {
    w.(wire := w.wire + prelude + w.buf + w.held, buf := [], held := [])
  }

  /** Connecting keeps the state valid when as many callbacks are added as
    * prelude lines are written. */
  lemma ConnectKeeps(cbs: seq<Callback>, bufs: seq<string>, o: Outside, w: Owners,
                     preOwners: seq<Callback>, preLines: seq<string>, cbs': seq<Callback>)
    requires |preOwners| == |preLines| && |cbs'| == |cbs| + |preOwners|
    ensures ValidState(true, true, false, cbs, bufs, o, w) ==>
      ValidState(true, false, true, cbs', [], ConnectOut(o, preLines, bufs), ConnectOwners(w, preOwners))
  {
  }

  class Client {
    const settings: Settings
    /** The lines `preCommand` writes for AUTH and SELECT; they depend on the
      * options alone. */
    const authLine: string
    const selectLine: string
    var parser: Parser
    /** `_callbacks`: who receives the next replies, oldest first. */
    var callbacks: seq<Callback>
    /** `_sendBuffers`: commands issued before there was a socket. */
    var sendBuffers: seq<string>
    var isConnected: bool
    var isConnecting: bool
    /** Whether `socket` is set. */
    var hasSocket: bool
    var out: Outside
    ghost var own: Owners

    ghost predicate Valid()
      reads this, parser
    {
      parser.Valid() && ValidState(hasSocket, isConnecting, isConnected, callbacks, sendBuffers, out, own)
    }

    ghost predicate Aligned()
      reads this
    {
      AlignedState(callbacks, own)
    }

    constructor(o: ClientOptions)
      ensures settings == Resolve(o) && Valid() && Aligned()
      ensures authLine == CommandLine(AuthCommand(settings.password)) && selectLine == CommandLine(SelectCommand(settings.db))
      ensures fresh(parser) && parser.lines == [] && parser.text == []
      ensures callbacks == [] && sendBuffers == [] && out == Outside([], [], [], [])
      ensures !hasSocket && !isConnected && !isConnecting
    {
      settings := Resolve(o);
      authLine := CommandLine(AuthCommand(Resolve(o).password));
      selectLine := CommandLine(SelectCommand(Resolve(o).db));
      parser := new Parser();
      callbacks := [];
      sendBuffers := [];
      isConnected := false;
      isConnecting := false;
      hasSocket := false;
      out := Outside([], [], [], []);
      own := Owners([], [], [], 0);
    }

    /** `_connect`, from its one call site, where there is no socket (so the
      * `_isConnecting` guard never returns early): a socket that is
      * connecting. */
    method Connect()
      requires !hasSocket
      modifies this`isConnected, this`hasSocket, this`isConnecting
      ensures hasSocket && isConnecting && !isConnected
    {
      isConnected := false;
      hasSocket := true;
      isConnecting := true;
    }

    /** What `command` leaves behind: the callback queued last; the line
      * written when there is a socket, otherwise buffered with a new
      * connection started; nothing else changed. */
    twostate predicate Queued(line: string, id: nat)
      reads this
    {
      callbacks == old(callbacks) + [User(id)] && parser == old(parser) &&
      (if old(hasSocket) then
         hasSocket && isConnected == old(isConnected) && isConnecting == old(isConnecting) &&
         sendBuffers == old(sendBuffers) && out == Send(old(out), old(isConnected), line)
       else
         sendBuffers == old(sendBuffers) + [line] && hasSocket && isConnecting && !isConnected &&
         out == old(out))
    }

    /** `command(cmd, callback)`, as it runs on the next turn of the event loop. */
    method Command(cmd: seq<Arg>, id: nat)
      requires Valid()
      modifies this
      ensures Valid() && Queued(CommandLine(cmd), id)
      ensures old(Aligned()) ==> Aligned()
    {
      callbacks := callbacks + [User(id)];
      var data := CommandLine(cmd);
      if hasSocket {
        out := Send(out, isConnected, data);
        own := SendOwner(own, isConnected, User(id));
      } else {
        sendBuffers := sendBuffers + [data];
        own := own.(buf := own.buf + [User(id)]);
        Connect();
      }
    }

    method Get(key: string, id: nat)
      requires Valid()
      modifies this
      ensures Valid() && Queued(CommandLine(GetCommand(key)), id)
      ensures old(Aligned()) ==> Aligned()
    {
      Command(GetCommand(key), id);
    }

    method Setex(key: string, ttl: int, data: string, id: nat)
      requires Valid()
      modifies this
      ensures Valid() && Queued(CommandLine(SetexCommand(key, ttl, data)), id)
      ensures old(Aligned()) ==> Aligned()
    {
      Command(SetexCommand(key, ttl, data), id);
    }

    method Expire(key: string, ttl: int, id: nat)
      requires Valid()
      modifies this
      ensures Valid() && Queued(CommandLine(ExpireCommand(key, ttl)), id)
      ensures old(Aligned()) ==> Aligned()
    {
      Command(ExpireCommand(key, ttl), id);
    }

    method Del(key: string, id: nat)
      requires Valid()
      modifies this
      ensures Valid() && Queued(CommandLine(DelCommand(key)), id)
      ensures old(Aligned()) ==> Aligned()
    {
      Command(DelCommand(key), id);
    }

    /** What the connect listener leaves behind, whichever queue order it
      * uses: connected, the prelude written first, then the buffered lines,
      * then the held ones. */
    twostate predicate ConnectedState()
      reads this
    {
      isConnected && !isConnecting && hasSocket && sendBuffers == [] && parser == old(parser) &&
      out == ConnectOut(old(out), Prelude(settings, authLine, selectLine), old(sendBuffers)) &&
      own == ConnectOwners(old(own), PreludeOwners(settings))
    }

    /** The connect listener as written: AUTH and SELECT are written first
      * but their callbacks are queued after those of the commands already
      * waiting. */
    method OnConnect()
      requires Valid() && hasSocket && isConnecting
      modifies this`isConnected, this`isConnecting, this`sendBuffers, this`callbacks, this`out, this`own
      ensures ConnectedState() && callbacks == old(callbacks) + PreludeOwners(settings)
      ensures Valid()
    {
      var pre, out' := ConnectWrites(settings, authLine, selectLine, sendBuffers, out);
      var cbs := callbacks + pre;
      ghost var own' := ConnectOwners(own, pre);
      ConnectKeeps(callbacks, sendBuffers, out, own, pre, Prelude(settings, authLine, selectLine), cbs);
      isConnected, isConnecting, sendBuffers, callbacks, out, own := true, false, [], cbs, out', own';
    }

    /** The connect listener with the callbacks in write order: those already
      * waiting are queued again after the AUTH and SELECT ones. */
    method OnConnectInOrder()
      requires Valid() && hasSocket && isConnecting
      modifies this`isConnected, this`isConnecting, this`sendBuffers, this`callbacks, this`out, this`own
      ensures Valid() && ConnectedState()
      ensures callbacks == PreludeOwners(settings) + old(callbacks)
      ensures old(Aligned()) ==> Aligned()
    {
      var pre, out' := ConnectWrites(settings, authLine, selectLine, sendBuffers, out);
      var cbs := pre + callbacks;
      ghost var own' := ConnectOwners(own, pre);
      ConnectKeeps(callbacks, sendBuffers, out, own, pre, Prelude(settings, authLine, selectLine), cbs);
      if Aligned() {
        InOrderAligns(own, callbacks, pre);
      }
      isConnected, isConnecting, sendBuffers, callbacks, out, own := true, false, [], cbs, out', own';
    }

    /** `_pushData`: the chunk pushed to the parser, then each complete reply
      * handed to the oldest waiting callback. */
    method OnData(chunk: string) returns (threw: bool)
      requires Valid() && hasSocket && isConnected
      modifies this`callbacks, this`out, this`own, parser
      ensures Valid()
      ensures var d := Drain(AfterPush(old(parser.lines), old(parser.text), chunk), old(callbacks));
        out.delivered == old(out.delivered) + d.calls && out.emitted == old(out.emitted) + Reactions(d.calls) &&
        out.written == old(out.written) && out.held == old(out.held) && callbacks == d.callbacks && parser.lines == d.lines && threw == d.threw &&
        own == old(own).(answered := old(own.answered) + |d.calls|)
      ensures old(Aligned()) ==> Aligned()
    {
      var calls, cbs;
      calls, cbs, threw := Feed(parser, chunk, callbacks);
      DrainTakesOldest(AfterPush(old(parser.lines), old(parser.text), chunk), old(callbacks));
      Deliver(calls);
    }

    /** The calls the reply loop made, recorded: the callbacks they used taken
      * off the front of the queue, their lines answered. */
    method Deliver(calls: seq<(Callback, Answer)>)
      requires Valid() && hasSocket && isConnected && |calls| <= |callbacks|
      modifies this`callbacks, this`out, this`own
      ensures Valid() && (old(Aligned()) ==> Aligned())
      ensures callbacks == old(callbacks)[|calls|..] && own == old(own).(answered := old(own.answered) + |calls|)
      ensures out == old(out).(delivered := old(out.delivered) + calls, emitted := old(out.emitted) + Reactions(calls))
    {
      var out' := out.(delivered := out.delivered + calls, emitted := out.emitted + Reactions(calls));
      DataKeeps(callbacks, out, out', own, |calls|);
      if Aligned() {
        DataAligns(own, callbacks, |calls|);
      }
      callbacks, out, own := callbacks[|calls|..], out', own.(answered := own.answered + |calls|);
    }

    /** The close listener: the buffers and the parser dropped, then every
      * waiting callback failed, oldest first, then `close` emitted. */
    method OnClose()
      requires Valid() && hasSocket
      modifies this
      ensures Valid() && Aligned()
      ensures !hasSocket && !isConnecting && isConnected == old(isConnected)
      ensures callbacks == [] && sendBuffers == []
      ensures fresh(parser) && parser.lines == [] && parser.text == []
      ensures out == old(out).(held := [], delivered := old(out.delivered) + FailAll(old(callbacks), ClosedMessage),
        emitted := old(out.emitted) + Reactions(FailAll(old(callbacks), ClosedMessage)) + [Closed])
    {
      isConnecting := false;
      hasSocket := false;
      var waiting := callbacks;
      callbacks := [];
      sendBuffers := [];
      parser := new Parser();
      var calls := FailWaiting(waiting, ClosedMessage);
      out := out.(held := [], delivered := out.delivered + calls, emitted := out.emitted + Reactions(calls) + [Closed]);
      own := Owners(own.wire, [], [], |own.wire|);
    }

    /** The error listener: the connection attempt is over; the error is re-emitted. */
    method OnError(message: string)
      requires Valid()
      modifies this`isConnecting, this`out
      ensures Valid() && !isConnecting && out == old(out).(emitted := old(out.emitted) + [ErrorEvent(message)])
    {
      isConnecting := false;
      out := out.(emitted := out.emitted + [ErrorEvent(message)]);
    }

    /** The end listener. */
    method OnEnd()
      modifies this`out
      ensures out == old(out).(emitted := old(out.emitted) + [Ended])
    {
      out := out.(emitted := out.emitted + [Ended]);
    }
  }

  /** `preCommand` for AUTH and SELECT on a connected socket: each callback
    * queued and each line written at once. */
  method SendPrelude(s: Settings, authLine: string, selectLine: string, cbs: seq<Callback>, written: seq<string>)
    returns (cbs': seq<Callback>, written': seq<string>)
    ensures cbs' == cbs + PreludeOwners(s) && written' == written + Prelude(s, authLine, selectLine)
  {
    cbs', written' := cbs, written;
    if s.password != [] {
      cbs' := cbs' + [AuthCheck];
      written' := written' + [authLine];
    }
    if s.db > 0 {
      cbs' := cbs' + [SelectCheck];
      written' := written' + [selectLine];
    }
  }

  /** What the connect listener writes: AUTH and SELECT through
    * `preCommand`, then the buffered lines; the lines the socket held while
    * connecting go out once the listeners have run. The callbacks the
    * prelude queues are returned. */
  method ConnectWrites(s: Settings, authLine: string, selectLine: string, bufs: seq<string>, o: Outside)
    returns (pre: seq<Callback>, o': Outside)
    ensures pre == PreludeOwners(s) && o' == ConnectOut(o, Prelude(s, authLine, selectLine), bufs)
  {
    var written;
    pre, written := SendPrelude(s, authLine, selectLine, [], o.written);
    written := WriteAll(written, bufs);
    o' := o.(written := written + o.held, held := [], emitted := o.emitted + [Connected]);
  }

  /** `_sendBuffers.forEach(data => socket.write(data))` on a connected socket. */
  method WriteAll(written: seq<string>, lines: seq<string>) returns (written': seq<string>)
    ensures written' == written + lines
  {
    written' := written;
    for i := 0 to |lines|
      invariant written' == written + lines[..i]
    {
      written' := written' + [lines[i]];
      assert lines[..i + 1] == lines[..i] + [lines[i]];
    }
    assert lines[..|lines|] == lines;
  }

  /** `_pushData`, on the parser alone: the chunk pushed, then the reply loop. */
  method Feed(parser: Parser, chunk: string, cbs: seq<Callback>)
    returns (calls: seq<(Callback, Answer)>, rest: seq<Callback>, threw: bool)
    requires parser.Valid()
    modifies parser
    ensures parser.Valid()
    ensures Drain(AfterPush(old(parser.lines), old(parser.text), chunk), cbs) == Drained(calls, parser.lines, rest, threw)
  {
    parser.Push(chunk);
    calls, rest, threw := DrainParser(parser, cbs);
  }

  /** The reply loop of `_pushData`: while the parser yields a reply, the
    * oldest callback is taken off the queue and called with it; a reply
    * with no callback waiting throws. */
  method DrainParser(parser: Parser, cbs: seq<Callback>)
    returns (calls: seq<(Callback, Answer)>, rest: seq<Callback>, threw: bool)
    requires parser.Valid()
    modifies parser
    ensures parser.Valid() && Drain(old(parser.lines), cbs) == Drained(calls, parser.lines, rest, threw)
  {
    ghost var d := Drain(parser.lines, cbs);
    calls, rest, threw := [], cbs, false;
    while true
      invariant parser.Valid()
      invariant Resumed(calls, Drain(parser.lines, rest)) == d
      decreases |parser.lines|
    {
      ghost var before := parser.lines;
      var found := parser.Next();
      if !found {
        DrainStops(before, rest);
        break;
      }
      var reply := parser.result.value;
      ghost var n := ParseReply(before).value.1;
      if rest == [] {
        DrainThrows(before, n, reply);
        threw := true;
        break;
      }
      DrainStep(before, n, reply, rest, calls, d);
      calls := calls + [(rest[0], ReplyAnswer(reply))];
      rest := rest[1..];
    }
  }

  /** `callbacks.forEach(cb => cb(new Error(message)))`, oldest first. */
  method FailWaiting(cbs: seq<Callback>, message: string) returns (calls: seq<(Callback, Answer)>)
    ensures calls == FailAll(cbs, message)
  {
    calls := [];
    for i := 0 to |cbs|
      invariant calls == FailAll(cbs[..i], message)
    {
      FailStep(cbs, i, message);
      calls := calls + [(cbs[i], Failed(message))];
    }
    assert cbs[..|cbs|] == cbs;
  }

  /** Connecting with nothing unanswered: the prelude's callbacks queued
    * first keep the callbacks in the order of the lines on the wire. */
  lemma InOrderAligns(w: Owners, cbs: seq<Callback>, pre: seq<Callback>)
    requires w.answered == |w.wire| && AlignedState(cbs, w)
    ensures AlignedState(pre + cbs, ConnectOwners(w, pre))
  {
    assert w.wire[w.answered..] == [];
    assert (w.wire + pre + w.buf + w.held)[w.answered..] == pre + w.buf + w.held;
  }

  /** The reply loop takes callbacks from the front of the queue only. */
  lemma DrainTakesOldest(lines: seq<string>, cbs: seq<Callback>)
    ensures |Drain(lines, cbs).calls| <= |cbs| && Drain(lines, cbs).callbacks == cbs[|Drain(lines, cbs).calls|..]
  {
    DrainMatches(lines, cbs);
  }

  /** With the callbacks aligned, the `k`-th reply of a drain goes to the
    * owner of the `k`-th unanswered line. */
  lemma DataOwners(w: Owners, cbs: seq<Callback>, lines: seq<string>)
    requires AlignedState(cbs, w) && w.buf == [] && w.held == []
    ensures var d := Drain(lines, cbs);
      forall k :: 0 <= k < |d.calls| ==> w.answered + k < |w.wire| && d.calls[k].0 == w.wire[w.answered + k]
  {
    DrainMatches(lines, cbs);
  }

  /** Replies taken by the oldest `m` callbacks on a connected socket keep
    * the state valid. */
  lemma DataKeeps(cbs: seq<Callback>, o: Outside, o': Outside, w: Owners, m: nat)
    requires m <= |cbs| && o'.written == o.written && o'.held == o.held
    ensures ValidState(true, false, true, cbs, [], o, w) ==>
      ValidState(true, false, true, cbs[m..], [], o', w.(answered := w.answered + m))
  {
  }

  /** Replies taken by the oldest `m` callbacks keep the rest aligned. */
  lemma DataAligns(w: Owners, cbs: seq<Callback>, m: nat)
    requires AlignedState(cbs, w) && w.buf == [] && w.held == [] && m <= |cbs|
    ensures AlignedState(cbs[m..], w.(answered := w.answered + m))
  {
    assert cbs == w.wire[w.answered..];
    assert cbs[m..] == w.wire[w.answered + m..];
  }

  /** The rest of a drain after some calls were made. */
  function Resumed(done: seq<(Callback, Answer)>, d: Drained): Drained
  {
    d.(calls := done + d.calls)
  }

  /** One round of the reply loop: a reply found and a callback waiting. */
  lemma DrainStep(before: seq<string>, n: nat, reply: Reply, cbs: seq<Callback>,
                  done: seq<(Callback, Answer)>, d: Drained)
    requires ParseReply(before) == Some((reply, n)) && cbs != []
    requires Resumed(done, Drain(before, cbs)) == d
    ensures Resumed(done + [(cbs[0], ReplyAnswer(reply))], Drain(before[n..], cbs[1..])) == d
  {
    var rest := Drain(before[n..], cbs[1..]);
    assert Drain(before, cbs).calls == [(cbs[0], ReplyAnswer(reply))] + rest.calls;
    assert done + ([(cbs[0], ReplyAnswer(reply))] + rest.calls) == done + [(cbs[0], ReplyAnswer(reply))] + rest.calls;
  }

  /** The reply loop ends: no complete reply left. */
  lemma DrainStops(lines: seq<string>, cbs: seq<Callback>)
    requires ParseReply(lines).None?
    ensures Drain(lines, cbs) == Drained([], lines, cbs, false)
  {
  }

  /** The reply loop ends: a reply with no callback to take it. */
  lemma DrainThrows(before: seq<string>, n: nat, reply: Reply)
    requires ParseReply(before) == Some((reply, n))
    ensures Drain(before, []) == Drained([], before[n..], [], true)
  {
  }

  lemma FailStep(cbs: seq<Callback>, i: nat, message: string)
    requires i < |cbs|
    ensures FailAll(cbs[..i + 1], message) == FailAll(cbs[..i], message) + [(cbs[i], Failed(message))]
  {
    var l, r := FailAll(cbs[..i + 1], message), FailAll(cbs[..i], message) + [(cbs[i], Failed(message))];
    assert |l| == |r|;
    forall k | 0 <= k < |l| ensures l[k] == r[k] {
      assert cbs[..i + 1][k] == if k < i then cbs[..i][k] else cbs[i];
    }
  }
  /** The server's answers to `AUTH secret` and to `GET k` for a missing
    * key, sent in one chunk, as the parser sees them. */
  lemma AuthThenNil()
    ensures AfterPush([], [], Terminated(["+OK", "$-1"])) == ["+OK", "$-1"]
    ensures ParseReply(["+OK", "$-1"]) == Some((Data(JStr("OK")), 1))
    ensures ParseReply(["$-1"]) == Some((Data(JNull), 1))
    ensures ParseReply([]).None?
  {
    AuthThenNilLines();
    assert "$-1"[1..] == "-1";
    MinusOne();
  }

  lemma AuthThenNilLines()
    ensures AfterPush([], [], Terminated(["+OK", "$-1"])) == ["+OK", "$-1"]
  {
    assert NoBreak("+OK") && NoBreak("$-1");
    NoBreakNoCrlf("+OK");
    NoBreakNoCrlf("$-1");
    TwoLines("+OK", "$-1");
  }

  /** Two terminated lines pushed into an empty parser are two complete lines. */
  lemma TwoLines(a: string, b: string)
    requires !HasCrlf(a) && !HasCrlf(b)
    ensures AfterPush([], [], Terminated([a, b])) == [a, b]
  {
    assert Terminated([a, b]) == a + Crlf + (b + Crlf + []) by {
      assert [a, b][1..] == [b];
      assert Terminated([b]) == b + Crlf + Terminated([]);
    }
    assert SplitLines([]) == [[]] by {
      assert NextCrlf([], 0) == 0;
    }
    SplitAfterLine(b, []);
    SplitAfterLine(a, b + Crlf + []);
    assert SplitLines(Terminated([a, b])) == [a, b, []];
    assert [] + Terminated([a, b]) == Terminated([a, b]);
  }

  /** The settings of a client given only a password. */
  const SecretSettings := Resolve(ClientOptions(None, None, None, Some("secret")))

  /** A client with a password whose first command, `GET k`, was issued
    * before it connected: the connect listener writes AUTH ahead of GET but
    * queues its check behind GET's callback, so GET's callback receives
    * AUTH's `OK` and the AUTH check receives GET's nil. */
  lemma MisroutedAuthReply(authLine: string, selectLine: string)
    ensures Prelude(SecretSettings, authLine, selectLine) == [authLine]
    ensures PreludeOwners(SecretSettings) == [AuthCheck]
    ensures Drain(AfterPush([], [], Terminated(["+OK", "$-1"])), [User(1)] + PreludeOwners(SecretSettings)).calls
      == [(User(1), Replied(JStr("OK"))), (AuthCheck, Replied(JNull))]
  {
    AuthThenNil();
    assert [User(1), AuthCheck][1..] == [AuthCheck];
  }

  /** The same exchange with the callbacks in write order: each reply
    * reaches the command it answers. */
  lemma InOrderAuthReply()
    ensures Drain(AfterPush([], [], Terminated(["+OK", "$-1"])), PreludeOwners(SecretSettings) + [User(1)]).calls
      == [(AuthCheck, Replied(JStr("OK"))), (User(1), Replied(JNull))]
  {
    AuthThenNil();
    assert [AuthCheck, User(1)][1..] == [User(1)];
  }
}
