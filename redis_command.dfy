/** The parts the two Redis clients share: commands written as one line of
  * JSON-encoded arguments, the options with their defaults, the answers a
  * callback receives, and the loop that hands each complete reply to the
  * oldest waiting callback. */
module RedisCommand {
  import opened Wrappers
  import opened Text
  import opened Values
  import opened RedisParser

  /** An argument of a command: a string, a number or a boolean. */
  datatype Arg = ArgStr(s: string) | ArgInt(n: int) | ArgBool(b: bool)

  function HexDigit(d: nat): char
    requires d < 16
  {
    if d < 10 then ('0' as int + d) as char else ('a' as int + d - 10) as char
  }

  /** One character inside a `JSON.stringify` string: quote, backslash and
    * the control characters escaped (the short forms where JSON has one,
    * `\u00xx` with lower-case hex digits otherwise), everything else as it is. */
  function JsonEscapeChar(c: char): string
  {
    if c == '"' then "\\\""
    else if c == '\\' then "\\\\"
    else if c as int == 8 then "\\b"
    else if c as int == 12 then "\\f"
    else if c == '\n' then "\\n"
    else if c == '\r' then "\\r"
    else if c == '\t' then "\\t"
    else if c as int < 32 then "\\u00" + [HexDigit(c as int / 16), HexDigit(c as int % 16)]
    else [c]
  }

  function JsonEscape(s: string): string
  {
    if s == [] then [] else JsonEscapeChar(s[0]) + JsonEscape(s[1..])
  }

  /** `JSON.stringify(v)` for the argument types a command holds. */
  function Stringify(a: Arg): string
  {
    match a
    case ArgStr(s) => "\"" + JsonEscape(s) + "\""
    case ArgInt(n) => IntToString(n)
    case ArgBool(b) => if b then "true" else "false"
  }

  function StringifyAll(cmd: seq<Arg>): (r: seq<string>)
    ensures |r| == |cmd|
  {
    if cmd == [] then [] else [Stringify(cmd[0])] + StringifyAll(cmd[1..])
  }

  /** `${cmd.map(stringify).join(" ")}\r\n`: the line a command is sent as. */
  function CommandLine(cmd: seq<Arg>): string
  {
    Join(StringifyAll(cmd), " ") + Crlf
  }

  // ---- Decoding a JSON string body, the inverse of JsonEscape ----

  predicate IsHex(c: char)
  {
    '0' <= c <= '9' || 'a' <= c <= 'f' || 'A' <= c <= 'F'
  }

  function HexValue(c: char): (v: nat)
    requires IsHex(c)
    ensures v < 16
  {
    if '0' <= c <= '9' then c as int - '0' as int
    else if 'a' <= c <= 'f' then c as int - 'a' as int + 10
    else c as int - 'A' as int + 10
  }

  /** What a JSON reader makes of the characters between the quotes. */
  function JsonUnescape(t: string): string
    decreases |t|
  {
    if t == [] then []
    else if t[0] == '\\' && |t| >= 2 then
      var e := t[1];
      if e == '"' || e == '\\' || e == '/' then [e] + JsonUnescape(t[2..])
      else if e == 'b' then [8 as char] + JsonUnescape(t[2..])
      else if e == 'f' then [12 as char] + JsonUnescape(t[2..])
      else if e == 'n' then ['\n'] + JsonUnescape(t[2..])
      else if e == 'r' then ['\r'] + JsonUnescape(t[2..])
      else if e == 't' then ['\t'] + JsonUnescape(t[2..])
      else if e == 'u' && |t| >= 6 && IsHex(t[2]) && IsHex(t[3]) && IsHex(t[4]) && IsHex(t[5]) then
        var v := ((HexValue(t[2]) * 16 + HexValue(t[3])) * 16 + HexValue(t[4])) * 16 + HexValue(t[5]);
        if v < 0xD800 then [v as char] + JsonUnescape(t[6..]) else [t[0]] + JsonUnescape(t[1..])
      else [t[0]] + JsonUnescape(t[1..])
    else [t[0]] + JsonUnescape(t[1..])
  }

  lemma UnescapeTwo(e: char, rest: string)
    requires e == '"' || e == '\\' || e in "bfnrt"
    ensures JsonUnescape(['\\', e] + rest) ==
      [if e == 'b' then 8 as char else if e == 'f' then 12 as char else if e == 'n' then '\n'
       else if e == 'r' then '\r' else if e == 't' then '\t' else e] + JsonUnescape(rest)
  {
    assert (['\\', e] + rest)[2..] == rest;
  }

  lemma UnescapeHex(c: char, rest: string)
    requires c as int < 32
    ensures JsonUnescape("\\u00" + [HexDigit(c as int / 16), HexDigit(c as int % 16)] + rest) == [c] + JsonUnescape(rest)
  {
    var h, l := c as int / 16, c as int % 16;
    var t := "\\u00" + [HexDigit(h), HexDigit(l)] + rest;
    assert t[0] == '\\' && t[1] == 'u' && t[2] == '0' && t[3] == '0';
    assert t[4] == HexDigit(h) && t[5] == HexDigit(l) && t[6..] == rest;
    assert HexValue(HexDigit(h)) == h && HexValue(HexDigit(l)) == l;
  }

  lemma UnescapePlain(c: char, rest: string)
    requires c != '\\'
    ensures JsonUnescape([c] + rest) == [c] + JsonUnescape(rest)
  {
    assert ([c] + rest)[1..] == rest;
  }

  /** Reading back one escaped character gives the character. */
  lemma UnescapeChar(c: char, rest: string)
    ensures JsonUnescape(JsonEscapeChar(c) + rest) == [c] + JsonUnescape(rest)
  {
    if c == '"' {
      UnescapeTwo('"', rest);
    } else if c == '\\' {
      UnescapeTwo('\\', rest);
    } else if c as int == 8 {
      UnescapeTwo('b', rest);
    } else if c as int == 12 {
      UnescapeTwo('f', rest);
    } else if c == '\n' {
      UnescapeTwo('n', rest);
    } else if c == '\r' {
      UnescapeTwo('r', rest);
    } else if c == '\t' {
      UnescapeTwo('t', rest);
    } else if c as int < 32 {
      UnescapeHex(c, rest);
    } else {
      UnescapePlain(c, rest);
    }
  }

  /** A string argument reads back as itself. */
  lemma {:induction false} JsonRoundTrip(s: string)
    ensures JsonUnescape(JsonEscape(s)) == s
    decreases |s|
  {
    if s != [] {
      JsonRoundTrip(s[1..]);
      UnescapeChar(s[0], JsonEscape(s[1..]));
      assert s == [s[0]] + s[1..];
    }
  }

  /** A string argument is sent quoted, its body decoding to the string. */
  lemma StringArgument(s: string)
    ensures var t := Stringify(ArgStr(s));
      |t| >= 2 && t[0] == '"' && t[|t| - 1] == '"' && JsonUnescape(t[1..|t| - 1]) == s
  {
    var t := Stringify(ArgStr(s));
    assert t[1..|t| - 1] == JsonEscape(s);
    JsonRoundTrip(s);
  }

  // ---- A command is one line ----

  predicate NoBreak(s: string)
  {
    forall i :: 0 <= i < |s| ==> s[i] != '\r' && s[i] != '\n'
  }

  lemma NoBreakConcat(a: string, b: string)
    requires NoBreak(a) && NoBreak(b)
    ensures NoBreak(a + b)
  {
    forall i | 0 <= i < |a + b| ensures (a + b)[i] != '\r' && (a + b)[i] != '\n' {
      if i < |a| { assert (a + b)[i] == a[i]; } else { assert (a + b)[i] == b[i - |a|]; }
    }
  }

  lemma EscapeCharNoBreak(c: char)
    ensures NoBreak(JsonEscapeChar(c))
  {
    if c as int < 32 && c != '\n' && c != '\r' && c != '\t' && c as int != 8 && c as int != 12 {
      var h, l := c as int / 16, c as int % 16;
      assert JsonEscapeChar(c) == ['\\', 'u', '0', '0', HexDigit(h), HexDigit(l)];
    }
  }

  lemma {:induction false} EscapeNoBreak(s: string)
    ensures NoBreak(JsonEscape(s))
    decreases |s|
  {
    if s != [] {
      EscapeCharNoBreak(s[0]);
      EscapeNoBreak(s[1..]);
      NoBreakConcat(JsonEscapeChar(s[0]), JsonEscape(s[1..]));
    }
  }

  lemma DigitsNoBreak(s: string)
    requires AllDigits(s)
    ensures NoBreak(s)
  {
    forall i | 0 <= i < |s| ensures s[i] != '\r' && s[i] != '\n' {
      assert IsDigit(s[i]);
    }
  }

  lemma StringifyNoBreak(a: Arg)
    ensures NoBreak(Stringify(a))
  {
    match a
    case ArgStr(s) =>
      EscapeNoBreak(s);
      NoBreakConcat("\"", JsonEscape(s));
      NoBreakConcat("\"" + JsonEscape(s), "\"");
    case ArgInt(n) =>
      NatToStringDigits(if n < 0 then -n else n);
      DigitsNoBreak(NatToString(if n < 0 then -n else n));
      if n < 0 {
        NoBreakConcat("-", NatToString(-n));
      }
    case ArgBool(b) =>
  }

  lemma {:induction false} JoinNoBreak(parts: seq<string>)
    requires forall k :: 0 <= k < |parts| ==> NoBreak(parts[k])
    ensures NoBreak(Join(parts, " "))
    decreases |parts|
  {
    if |parts| > 1 {
      JoinNoBreak(parts[1..]);
      NoBreakConcat(parts[0], " ");
      NoBreakConcat(parts[0] + " ", Join(parts[1..], " "));
    }
  }

  lemma {:induction false} StringifyAllNoBreak(cmd: seq<Arg>)
    ensures forall k :: 0 <= k < |cmd| ==> NoBreak(StringifyAll(cmd)[k])
    decreases |cmd|
  {
    if cmd != [] {
      StringifyNoBreak(cmd[0]);
      StringifyAllNoBreak(cmd[1..]);
    }
  }

  lemma NoBreakNoCrlf(s: string)
    requires NoBreak(s)
    ensures !HasCrlf(s)
  {
    forall j: nat ensures !CrlfAt(s, j) {
      if j + 1 < |s| { assert s[j] != '\r'; }
    }
  }

  /** Every command is exactly one line on the wire: its arguments contain
    * no line break, so the server reads one command per line and answers
    * each with one reply. */
  lemma CommandIsOneLine(cmd: seq<Arg>)
    ensures var line := CommandLine(cmd); var body := Join(StringifyAll(cmd), " ");
      line == body + Crlf && NoBreak(body) && SplitLines(line) == [body, []]
  {
    var body := Join(StringifyAll(cmd), " ");
    StringifyAllNoBreak(cmd);
    JoinNoBreak(StringifyAll(cmd));
    NoBreakNoCrlf(body);
    SplitTerminated([body]);
    assert Terminated([body]) == body + Crlf + Terminated([]);
    assert CommandLine(cmd) == Terminated([body]);
  }

  // ---- Options ----

  /** The options a caller passes; a missing key takes its default. */
  datatype ClientOptions = ClientOptions(host: Option<string>, port: Option<int>, db: Option<int>, password: Option<string>)

  datatype Settings = Settings(host: string, port: int, db: int, password: string)

  /** `DEFAULT_REDIS_OPTIONS`: 127.0.0.1:6379, database 0, no password. */
  const DefaultSettings := Settings("127.0.0.1", 6379, 0, "")

  /** `{ ...defaults, ...options }`. */
  function Resolve(o: ClientOptions): (s: Settings)
    ensures s.host == (if o.host.Some? then o.host.value else DefaultSettings.host)
    ensures s.port == (if o.port.Some? then o.port.value else DefaultSettings.port)
    ensures s.db == (if o.db.Some? then o.db.value else DefaultSettings.db)
    ensures s.password == (if o.password.Some? then o.password.value else DefaultSettings.password)
  {
    Settings(o.host.UnwrapOr(DefaultSettings.host), o.port.UnwrapOr(DefaultSettings.port),
             o.db.UnwrapOr(DefaultSettings.db), o.password.UnwrapOr(DefaultSettings.password))
  }

  /** With no options given, a client talks to the default server unauthenticated. */
  lemma NoOptionsMeansDefaults()
    ensures Resolve(ClientOptions(None, None, None, None)) == DefaultSettings
  {
  }

  // ---- The commands of the `RedisCompatibleClient` interface ----

  function GetCommand(key: string): seq<Arg> { [ArgStr("GET"), ArgStr(key)] }
  function SetexCommand(key: string, ttl: int, data: string): seq<Arg> { [ArgStr("SETEX"), ArgStr(key), ArgInt(ttl), ArgStr(data)] }
  function ExpireCommand(key: string, ttl: int): seq<Arg> { [ArgStr("EXPIRE"), ArgStr(key), ArgInt(ttl)] }
  function DelCommand(key: string): seq<Arg> { [ArgStr("DEL"), ArgStr(key)] }
  function AuthCommand(password: string): seq<Arg> { [ArgStr("AUTH"), ArgStr(password)] }
  function SelectCommand(db: int): seq<Arg> { [ArgStr("SELECT"), ArgInt(db)] }

  // ---- Callbacks and what they receive ----

  /** A waiting callback: a caller's (by its identity), or the client's own
    * check of the AUTH or SELECT reply. */
  datatype Callback = User(id: nat) | AuthCheck | SelectCheck

  /** What a callback is called with: an error with a message, or no error and a value. */
  datatype Answer = Failed(message: string) | Replied(value: JsValue)

  /** `result.error ? cb(new Error(result.error), null) : cb(null, result.data)`:
    * an error reply with an empty message is not an error, and its `data`
    * is undefined. */
  function ReplyAnswer(r: Reply): (a: Answer)
    ensures a.Failed? <==> r.ErrorReply? && r.message != []
    ensures a.Failed? ==> a.message == r.message
    ensures r.Data? ==> a == Replied(r.value)
  {
    match r
    case ErrorReply(m) => if m != [] then Failed(m) else Replied(JUndefined)
    case Data(v) => Replied(v)
  }

  /** The events a client emits. */
  datatype Event = Connected | ErrorEvent(message: string) | Closed | Ended

  /** What calling a callback makes the client emit: the AUTH and SELECT
    * checks turn a failure into an `error` event; a caller's callback is
    * outside the client. */
  function Reaction(cb: Callback, a: Answer): (r: seq<Event>)
    ensures |r| <= 1
    ensures r != [] <==> !cb.User? && a.Failed?
  {
    match cb
    case User(_) => []
    case AuthCheck => if a.Failed? then [ErrorEvent("auth failed: " + a.message)] else []
    case SelectCheck => if a.Failed? then [ErrorEvent("select database failed: " + a.message)] else []
  }

  function Reactions(calls: seq<(Callback, Answer)>): seq<Event>
  {
    if calls == [] then [] else Reaction(calls[0].0, calls[0].1) + Reactions(calls[1..])
  }

  lemma {:induction false} ReactionsConcat(a: seq<(Callback, Answer)>, b: seq<(Callback, Answer)>)
    ensures Reactions(a + b) == Reactions(a) + Reactions(b)
    decreases |a|
  {
    if a == [] {
      assert a + b == b;
    } else {
      assert (a + b)[0] == a[0] && (a + b)[1..] == a[1..] + b;
      ReactionsConcat(a[1..], b);
    }
  }

  /** Every callback failed with the same message, in order. */
  function FailAll(cbs: seq<Callback>, message: string): (r: seq<(Callback, Answer)>)
    ensures |r| == |cbs|
    ensures forall k :: 0 <= k < |cbs| ==> r[k] == (cbs[k], Failed(message))
  {
    if cbs == [] then [] else [(cbs[0], Failed(message))] + FailAll(cbs[1..], message)
  }

  // ---- The reply loop of `_pushData` ----

  /** What the reply loop did: the callbacks called with their answers, the
    * lines and callbacks left, and whether it threw because a reply had no
    * callback (`cb!` is undefined). */
  datatype Drained = Drained(calls: seq<(Callback, Answer)>, lines: seq<string>, callbacks: seq<Callback>, threw: bool)

  /** `while (parser.next()) { cb = callbacks.shift(); cb(...) }`. */
  function Drain(lines: seq<string>, cbs: seq<Callback>): (d: Drained)
    decreases |lines|
  {
    match ParseReply(lines)
    case None => Drained([], lines, cbs, false)
    case Some((r, n)) =>
      if cbs == [] then Drained([], lines[n..], cbs, true)
      else
        var rest := Drain(lines[n..], cbs[1..]);
        rest.(calls := [(cbs[0], ReplyAnswer(r))] + rest.calls)
  }

  /** The complete replies at the front of the lines, in order. */
  function Replies(lines: seq<string>): seq<Reply>
    decreases |lines|
  {
    match ParseReply(lines)
    case None => []
    case Some((r, n)) => [r] + Replies(lines[n..])
  }

  function Min(a: nat, b: nat): nat { if a < b then a else b }

  /** The reply loop calls the callbacks oldest first, the k-th with the k-th
    * complete reply, until the replies or the callbacks run out; it throws
    * exactly when there are more replies than callbacks. */
  lemma {:induction false} DrainMatches(lines: seq<string>, cbs: seq<Callback>)
    ensures var d := Drain(lines, cbs); var rs := Replies(lines);
      |d.calls| == Min(|rs|, |cbs|) &&
      (forall k :: 0 <= k < |d.calls| ==> d.calls[k] == (cbs[k], ReplyAnswer(rs[k]))) &&
      d.callbacks == cbs[|d.calls|..] &&
      (d.threw <==> |rs| > |cbs|)
    decreases |lines|
  {
    match ParseReply(lines)
    case None =>
    case Some((r, n)) =>
      if cbs != [] {
        DrainMatches(lines[n..], cbs[1..]);
        var d, d1 := Drain(lines, cbs), Drain(lines[n..], cbs[1..]);
        var rs, rs1 := Replies(lines), Replies(lines[n..]);
        assert d.calls == [(cbs[0], ReplyAnswer(r))] + d1.calls;
        assert rs == [r] + rs1;
        forall k | 0 <= k < |d.calls| ensures d.calls[k] == (cbs[k], ReplyAnswer(rs[k])) {
          if k > 0 {
            assert d.calls[k] == d1.calls[k - 1];
          }
        }
        assert cbs[1..][|d1.calls|..] == cbs[|d.calls|..];
      }
  }

  function EncodeAll(ws: seq<Wire>): seq<string>
  {
    if ws == [] then [] else Encode(ws[0]) + EncodeAll(ws[1..])
  }

  function Meanings(ws: seq<Wire>): (r: seq<Reply>)
    ensures |r| == |ws|
    ensures forall k :: 0 <= k < |ws| ==> r[k] == Meaning(ws[k])
  {
    if ws == [] then [] else [Meaning(ws[0])] + Meanings(ws[1..])
  }

  /** The replies a server sends are read back one by one as what they mean. */
  lemma {:induction false} RepliesOfWire(ws: seq<Wire>)
    ensures Replies(EncodeAll(ws)) == Meanings(ws)
    decreases |ws|
  {
    if ws != [] {
      RoundTrip(ws[0], EncodeAll(ws[1..]));
      var ls := EncodeAll(ws);
      assert ls[|Encode(ws[0])|..] == EncodeAll(ws[1..]);
      RepliesOfWire(ws[1..]);
    }
  }

  /** Put together: the k-th waiting callback receives the answer of the
    * k-th reply the server sent. */
  lemma ServerRepliesReachCallbacks(ws: seq<Wire>, cbs: seq<Callback>, k: nat)
    requires k < |ws| && k < |cbs|
    ensures var d := Drain(EncodeAll(ws), cbs); k < |d.calls| && d.calls[k] == (cbs[k], ReplyAnswer(Meaning(ws[k])))
  {
    RepliesOfWire(ws);
    DrainMatches(EncodeAll(ws), cbs);
  }
}
