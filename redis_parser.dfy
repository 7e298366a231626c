/** The incremental reply parser both Redis clients share: received text is
  * cut into lines at each CRLF, the unterminated tail kept for the next
  * chunk, and `next` reads one reply of the Redis serialization protocol
  * (simple string, error, integer, bulk string, array of bulk strings,
  * integers and nulls) from the front of the complete lines. */
module RedisParser {
  import opened Wrappers
  import opened Text
  import opened Values

  const Crlf := "\r\n"

  predicate CrlfAt(s: string, i: nat)
  {
    i + 1 < |s| && s[i] == '\r' && s[i + 1] == '\n'
  }

  predicate HasCrlf(s: string)
  {
    exists i: nat | i < |s| :: CrlfAt(s, i)
  }

  /** The first position at or after `from` where a CRLF starts, `|s|` when none does. */
  function NextCrlf(s: string, from: nat): (i: nat)
    requires from <= |s|
    ensures from <= i <= |s|
    ensures forall j: nat :: from <= j < i ==> !CrlfAt(s, j)
    ensures i < |s| ==> CrlfAt(s, i)
    decreases |s| - from
  {
    if from == |s| then from
    else if CrlfAt(s, from) then from
    else NextCrlf(s, from + 1)
  }

  /** `s.split("\r\n")`. */
  function SplitLines(s: string): (r: seq<string>)
    ensures |r| >= 1
    ensures forall k :: 0 <= k < |r| ==> !HasCrlf(r[k])
    decreases |s|
  {
    var i := NextCrlf(s, 0);
    if i == |s| then
      assert !HasCrlf(s) by {
        forall j: nat ensures !CrlfAt(s, j) {
          if j >= |s| { }
        }
      }
      [s]
    else
      assert !HasCrlf(s[..i]) by {
        forall j: nat ensures !CrlfAt(s[..i], j) {
          if CrlfAt(s[..i], j) { assert CrlfAt(s, j); }
        }
      }
      [s[..i]] + SplitLines(s[i + 2..])
  }

  /** Lines each followed by CRLF, as they arrive on the wire. */
  function Terminated(ls: seq<string>): string
  {
    if ls == [] then [] else ls[0] + Crlf + Terminated(ls[1..])
  }

  lemma {:induction false} TerminatedConcat(a: seq<string>, b: seq<string>)
    ensures Terminated(a + b) == Terminated(a) + Terminated(b)
    decreases |a|
  {
    if a == [] {
      assert a + b == b;
    } else {
      assert (a + b)[0] == a[0] && (a + b)[1..] == a[1..] + b;
      TerminatedConcat(a[1..], b);
    }
  }

  /** Putting back one more complete line in front of restored pieces. */
  lemma RestoreStep(l: string, r1: seq<string>, t: string)
    requires |r1| >= 1 && Terminated(r1[..|r1| - 1]) + r1[|r1| - 1] == t
    ensures var r := [l] + r1; Terminated(r[..|r| - 1]) + r[|r| - 1] == l + Crlf + t
  {
    var r := [l] + r1;
    assert r[..|r| - 1] == [l] + r1[..|r1| - 1];
    assert ([l] + r1[..|r1| - 1])[1..] == r1[..|r1| - 1];
  }

  /** The pieces of a split, put back together with CRLF, give the text:
    * every piece but the last is a complete line. */
  lemma {:induction false} SplitRestores(s: string)
    ensures var r := SplitLines(s); Terminated(r[..|r| - 1]) + r[|r| - 1] == s
    decreases |s|
  {
    var i := NextCrlf(s, 0);
    if i < |s| {
      var t := s[i + 2..];
      SplitRestores(t);
      assert SplitLines(s) == [s[..i]] + SplitLines(t);
      RestoreStep(s[..i], SplitLines(t), t);
      assert s == s[..i] + Crlf + t;
    }
  }

  lemma CrlfAtTerminator(l: string, rest: string)
    requires !HasCrlf(l)
    ensures NextCrlf(l + Crlf + rest, 0) == |l|
  {
    var s := l + Crlf + rest;
    assert CrlfAt(s, |l|);
    forall j: nat | j < |l| ensures !CrlfAt(s, j) {
      if j + 1 < |l| {
        assert s[j] == l[j] && s[j + 1] == l[j + 1];
        assert !CrlfAt(l, j);
      }
    }
    NextCrlfFirst(s, 0, |l|);
  }

  lemma {:induction false} NextCrlfFirst(s: string, from: nat, k: nat)
    requires from <= k < |s| && CrlfAt(s, k)
    requires forall j: nat :: from <= j < k ==> !CrlfAt(s, j)
    ensures NextCrlf(s, from) == k
    decreases k - from
  {
    if from < k {
      NextCrlfFirst(s, from + 1, k);
    }
  }

  /** Complete lines without CRLF in them split back into themselves, with
    * an empty tail. */
  lemma {:induction false} SplitTerminated(ls: seq<string>)
    requires forall k :: 0 <= k < |ls| ==> !HasCrlf(ls[k])
    ensures SplitLines(Terminated(ls)) == ls + [[]]
    decreases |ls|
  {
    if ls != [] {
      SplitAfterLine(ls[0], Terminated(ls[1..]));
      SplitTerminated(ls[1..]);
      assert ls + [[]] == [ls[0]] + (ls[1..] + [[]]);
    }
  }

  /** A complete line at the front splits off as the first piece. */
  lemma SplitAfterLine(l: string, rest: string)
    requires !HasCrlf(l)
    ensures SplitLines(l + Crlf + rest) == [l] + SplitLines(rest)
  {
    var s := l + Crlf + rest;
    CrlfAtTerminator(l, rest);
    assert s[..|l|] == l && s[|l| + 2..] == rest;
  }


  /** What `next` produces: `{data}` or `{error}`. */
  datatype Reply = Data(value: JsValue) | ErrorReply(message: string)

  /** One element of an array reply as the array loop reads it, with the
    * lines it takes: `$-1…` is null, `:n` a number, anything else a length
    * line followed by the value (nothing when that line is missing). */
  function ReadElement(ls: seq<string>): (r: Option<(JsValue, nat)>)
    requires ls != []
    ensures r.Some? ==> 1 <= r.value.1 <= |ls|
  {
    var a := ls[0];
    if IsPrefix("$-1", a) then Some((JNull, 1))
    else if a != [] && a[0] == ':' then Some((ParseNumber(a[1..]), 1))
    else if |ls| >= 2 then Some((JStr(ls[1]), 2))
    else None
  }

  /** `k` elements read one after another, with the lines they take. */
  function ParseElements(ls: seq<string>, k: nat): (r: Option<(seq<JsValue>, nat)>)
    ensures r.Some? ==> |r.value.0| == k && r.value.1 <= |ls|
    decreases k
  {
    if k == 0 then Some(([], 0))
    else if ls == [] then None
    else
      match ReadElement(ls)
      case None => None
      case Some((v, u)) => Shift([v], u, ParseElements(ls[u..], k - 1))
  }

  /** A parse of the rest, with `front` before its values and `used` lines before its lines. */
  function Shift(front: seq<JsValue>, used: nat, r: Option<(seq<JsValue>, nat)>): (s: Option<(seq<JsValue>, nat)>)
    ensures s.Some? <==> r.Some?
    ensures s.Some? ==> s.value == (front + r.value.0, used + r.value.1)
  {
    match r
    case None => None
    case Some((vs, c)) => Some((front + vs, used + c))
  }

  lemma ShiftNone(r: Option<(seq<JsValue>, nat)>)
    ensures Shift([], 0, r) == r
  {
    if r.Some? {
      assert [] + r.value.0 == r.value.0;
    }
  }

  /** What the element loop will produce from line `i` on with `items` read. */
  function Remaining(ls: seq<string>, i: nat, items: seq<JsValue>, n: nat): Option<(seq<JsValue>, nat)>
    requires 1 <= i <= |ls| && |items| <= n
  {
    Shift(items, i - 1, ParseElements(ls[i..], n - |items|))
  }

  /** One element read by the array loop, in terms of what is left to read. */
  lemma ElementsStep(ls: seq<string>, i: nat, items: seq<JsValue>, n: nat, v: JsValue, u: nat)
    requires 1 <= i < |ls| && |items| < n
    requires ReadElement(ls[i..]) == Some((v, u))
    ensures i + u <= |ls| && |items + [v]| <= n
    ensures Remaining(ls, i, items, n) == Remaining(ls, i + u, items + [v], n)
  {
    var k := n - |items|;
    assert ls[i..][u..] == ls[i + u..];
    assert ParseElements(ls[i..], k) == Shift([v], u, ParseElements(ls[i + u..], k - 1));
    ShiftShift(items, i - 1, [v], u, ParseElements(ls[i + u..], k - 1));
  }

  /** Elements still wanted and no line, or a value line missing: no result. */
  lemma ElementsMissing(ls: seq<string>, i: nat, items: seq<JsValue>, n: nat)
    requires 1 <= i <= |ls| && |items| < n
    requires i == |ls| || ReadElement(ls[i..]).None?
    ensures Remaining(ls, i, items, n).None?
  {
    if i == |ls| {
      assert ls[i..] == [];
    }
  }

  /** Nothing left to read: the elements read so far are the result. */
  lemma ElementsDone(ls: seq<string>, i: nat, items: seq<JsValue>, n: nat)
    requires 1 <= i <= |ls| && |items| == n
    ensures Remaining(ls, i, items, n) == Some((items, i - 1))
  {
    assert items + [] == items;
  }

  lemma ShiftShift(a: seq<JsValue>, m: nat, b: seq<JsValue>, n: nat, r: Option<(seq<JsValue>, nat)>)
    ensures Shift(a, m, Shift(b, n, r)) == Shift(a + b, m + n, r)
  {
    if r.Some? {
      assert a + (b + r.value.0) == (a + b) + r.value.0;
    }
  }

  /** The reply at the front of the complete lines, with the number of lines
    * it takes; nothing while no line is complete, while a bulk string or an
    * array is still missing lines, or for a line it does not recognise. */
  function ParseReply(lines: seq<string>): (r: Option<(Reply, nat)>)
    ensures r.Some? ==> 1 <= r.value.1 <= |lines|
  {
    if |lines| < 1 || lines[0] == [] then None
    else
      var first := lines[0];
      match first[0]
      case '+' => Some((Data(JStr(first[1..])), 1))
      case '-' => Some((ErrorReply(first[1..]), 1))
      case ':' => Some((Data(ParseNumber(first[1..])), 1))
      case '$' =>
        if ParseNumber(first[1..]) == JNum(-1) then Some((Data(JNull), 1))
        else if |lines| >= 2 then Some((Data(JStr(lines[1])), 2))
        else None
      case '*' =>
        var n := ParseNumber(first[1..]);
        if n == JNum(0) then Some((Data(JArr([])), 1))
        else if n.JNum? && n.n > 0 then
          match ParseElements(lines[1..], n.n)
          case None => None
          case Some((vs, c)) => Some((Data(JArr(vs)), 1 + c))
        else None
      case _ => None
  }

  /** The replies a Redis server sends, each element type the array loop reads. */
  datatype Element = EltNull | EltInt(n: int) | EltBulk(s: string)

  datatype Wire =
    | Status(s: string)
    | Error(message: string)
    | Integer(n: int)
    | Bulk(s: string)
    | NullBulk
    | Multi(items: seq<Element>)

  function EncodeElement(e: Element): seq<string>
  {
    match e
    case EltNull => ["$-1"]
    case EltInt(n) => [":" + IntToString(n)]
    case EltBulk(s) => ["$" + NatToString(|s|), s]
  }

  function EncodeElements(es: seq<Element>): seq<string>
  {
    if es == [] then [] else EncodeElement(es[0]) + EncodeElements(es[1..])
  }

  /** The lines a reply takes on the wire. */
  function Encode(w: Wire): seq<string>
  {
    match w
    case Status(s) => ["+" + s]
    case Error(m) => ["-" + m]
    case Integer(n) => [":" + IntToString(n)]
    case Bulk(s) => ["$" + NatToString(|s|), s]
    case NullBulk => ["$-1"]
    case Multi(items) => ["*" + NatToString(|items|)] + EncodeElements(items)
  }

  function ElementValue(e: Element): JsValue
  {
    match e
    case EltNull => JNull
    case EltInt(n) => JNum(n)
    case EltBulk(s) => JStr(s)
  }

  function ElementValues(es: seq<Element>): (vs: seq<JsValue>)
    ensures |vs| == |es|
  {
    if es == [] then [] else [ElementValue(es[0])] + ElementValues(es[1..])
  }

  /** The result `next` should give for a reply. */
  function Meaning(w: Wire): Reply
  {
    match w
    case Status(s) => Data(JStr(s))
    case Error(m) => ErrorReply(m)
    case Integer(n) => Data(JNum(n))
    case Bulk(s) => Data(JStr(s))
    case NullBulk => Data(JNull)
    case Multi(items) => Data(JArr(ElementValues(items)))
  }

  lemma LengthLine(n: nat)
    ensures ParseNumber(NatToString(n)) == JNum(n)
    ensures !IsPrefix("$-1", "$" + NatToString(n))
  {
    ParseNumberOfIntToString(n);
    NatToStringDigits(n);
    var s := "$" + NatToString(n);
    assert s[1] == NatToString(n)[0];
    assert IsDigit(NatToString(n)[0]);
  }

  lemma ElementRoundTrip(e: Element, rest: seq<string>, k: nat)
    requires k >= 1
    ensures ParseElements(EncodeElement(e) + rest, k)
         == Shift([ElementValue(e)], |EncodeElement(e)|, ParseElements(rest, k - 1))
  {
    var ls := EncodeElement(e) + rest;
    match e
    case EltNull =>
      assert ls[0] == "$-1" && ls[1..] == rest;
    case EltInt(n) =>
      var a := ":" + IntToString(n);
      assert ls[0] == a && ls[1..] == rest;
      assert !IsPrefix("$-1", a) by { assert a[0] == ':'; }
      assert a[1..] == IntToString(n);
      ParseNumberOfIntToString(n);
    case EltBulk(s) =>
      var a := "$" + NatToString(|s|);
      assert ls[0] == a && ls[1] == s && ls[2..] == rest;
      LengthLine(|s|);
      assert a[0] == '$';
  }

  /** An array's elements on the wire read back as their values, whatever follows. */
  lemma {:induction false} ElementsRoundTrip(es: seq<Element>, rest: seq<string>)
    ensures ParseElements(EncodeElements(es) + rest, |es|)
         == Some((ElementValues(es), |EncodeElements(es)|))
    decreases |es|
  {
    if es == [] {
      assert EncodeElements(es) + rest == rest;
    } else {
      var head, enc1 := EncodeElement(es[0]), EncodeElements(es[1..]);
      EncodeElementsCons(es, rest);
      ElementRoundTrip(es[0], enc1 + rest, |es|);
      ElementsRoundTrip(es[1..], rest);
      ConsShift(ElementValue(es[0]), |head|, ElementValues(es[1..]), |enc1|);
    }
  }

  lemma EncodeElementsCons(es: seq<Element>, rest: seq<string>)
    requires es != []
    ensures EncodeElements(es) + rest == EncodeElement(es[0]) + (EncodeElements(es[1..]) + rest)
    ensures |EncodeElements(es)| == |EncodeElement(es[0])| + |EncodeElements(es[1..])|
    ensures ElementValues(es) == [ElementValue(es[0])] + ElementValues(es[1..])
  {
    var a, b := EncodeElement(es[0]), EncodeElements(es[1..]);
    assert EncodeElements(es) == a + b;
    LinesAssoc(a, b, rest);
  }

  lemma LinesAssoc(a: seq<string>, b: seq<string>, c: seq<string>)
    ensures (a + b) + c == a + (b + c)
  {
  }



  lemma ConsShift(v: JsValue, u: nat, vs: seq<JsValue>, c: nat)
    ensures Shift([v], u, Some((vs, c))) == Some(([v] + vs, u + c))
  {
  }


  /** A one-line reply: its leading character and the text after it. */
  lemma FrontLine(c: char, body: string, rest: seq<string>)
    ensures var ls := [[c] + body] + rest; |ls| >= 1 && ls[0] != [] && ls[0][0] == c && ls[0][1..] == body
  {
    var ls := [[c] + body] + rest;
    assert ls[0] == [c] + body;
  }

  lemma MinusOne()
    ensures ParseNumber("-1") == JNum(-1)
  {
    assert "-1"[1..] == "1";
    assert DigitsValue("1") == 1 by { assert "1"[..0] == []; }
  }

  lemma RoundTripBulk(s: string, rest: seq<string>)
    ensures ParseReply(Encode(Bulk(s)) + rest) == Some((Data(JStr(s)), 2))
  {
    var ls := Encode(Bulk(s)) + rest;
    assert ls == [['$'] + NatToString(|s|)] + ([s] + rest);
    FrontLine('$', NatToString(|s|), [s] + rest);
    assert ls[1] == s;
    LengthLine(|s|);
  }

  lemma RoundTripMulti(items: seq<Element>, rest: seq<string>)
    ensures ParseReply(Encode(Multi(items)) + rest) == Some((Meaning(Multi(items)), |Encode(Multi(items))|))
  {
    var ls := Encode(Multi(items)) + rest;
    assert ls == [['*'] + NatToString(|items|)] + (EncodeElements(items) + rest);
    FrontLine('*', NatToString(|items|), EncodeElements(items) + rest);
    LengthLine(|items|);
    assert ls[1..] == EncodeElements(items) + rest;
    ElementsRoundTrip(items, rest);
    if |items| == 0 {
      assert Meaning(Multi(items)) == Data(JArr([]));
    }
  }

  /** A reply on the wire reads back as what it means, taking exactly its
    * own lines, whatever follows it. */
  lemma RoundTrip(w: Wire, rest: seq<string>)
    ensures ParseReply(Encode(w) + rest) == Some((Meaning(w), |Encode(w)|))
  {
    match w
    case Status(s) =>
      assert Encode(w) + rest == [['+'] + s] + rest;
      FrontLine('+', s, rest);
    case Error(m) =>
      assert Encode(w) + rest == [['-'] + m] + rest;
      FrontLine('-', m, rest);
    case Integer(n) =>
      assert Encode(w) + rest == [[':'] + IntToString(n)] + rest;
      FrontLine(':', IntToString(n), rest);
      ParseNumberOfIntToString(n);
    case Bulk(s) =>
      RoundTripBulk(s, rest);
    case NullBulk =>
      var ls := Encode(w) + rest;
      assert ls[0] == "$-1";
      assert "$-1"[0] == '$' && "$-1"[1..] == "-1";
      MinusOne();
    case Multi(items) =>
      RoundTripMulti(items, rest);
  }

  /** The `*` case of `ParseReply`, for the array loop. */
  lemma ArrayReply(ls: seq<string>, goal: Option<(seq<JsValue>, nat)>)
    requires |ls| >= 1 && ls[0] != [] && ls[0][0] == '*'
    requires var n := ParseNumber(ls[0][1..]); n.JNum? && n.n > 0 && goal == ParseElements(ls[1..], n.n)
    ensures goal.None? ==> ParseReply(ls).None?
    ensures goal.Some? ==> ParseReply(ls) == Some((Data(JArr(goal.value.0)), 1 + goal.value.1))
  {
  }

  /** Splitting the tail and a new chunk keeps the received text equal to
    * the consumed lines, the waiting lines, then the tail. */
  lemma PushKeeps(pushed: string, taken: seq<string>, lines: seq<string>, text: string, chunk: string,
                  front: seq<string>, last: string)
    requires pushed == Terminated(taken) + Terminated(lines) + text
    requires Terminated(front) + last == text + chunk
    ensures pushed + chunk == Terminated(taken) + Terminated(lines + front) + last
  {
    TerminatedConcat(lines, front);
    Regroup(Terminated(taken), Terminated(lines), text, chunk, Terminated(front), last);
  }

  lemma Regroup(t: string, l: string, text: string, chunk: string, p: string, last: string)
    requires p + last == text + chunk
    ensures t + l + text + chunk == t + (l + p) + last
  {
    calc {
      t + l + text + chunk;
      t + l + (text + chunk);
      t + l + (p + last);
      t + (l + p) + last;
    }
  }

  /** A bulk element whose value line is missing reads as nothing. */
  lemma BulkLengthAlone(s: string, k: nat)
    requires k >= 1
    ensures ParseElements([EncodeElement(EltBulk(s))[0]], k).None?
  {
    var a := "$" + NatToString(|s|);
    assert EncodeElement(EltBulk(s))[0] == a;
    LengthLine(|s|);
    assert a[0] == '$';
    assert ReadElement([a]).None?;
  }

  /** While an array's elements are missing lines the array loop finds nothing. */
  lemma {:induction false} ElementsIncomplete(es: seq<Element>, k: nat)
    requires k < |EncodeElements(es)|
    ensures ParseElements(EncodeElements(es)[..k], |es|).None?
    decreases |es|
  {
    var enc := EncodeElements(es);
    var head := EncodeElement(es[0]);
    var tail := EncodeElements(es[1..]);
    assert enc == head + tail;
    if k == 0 {
    } else if k < |head| {
      assert es[0].EltBulk? && k == 1;
      assert enc[..k] == [head[0]];
      BulkLengthAlone(es[0].s, |es|);
    } else {
      assert enc[..k] == head + tail[..k - |head|];
      ElementRoundTrip(es[0], tail[..k - |head|], |es|);
      ElementsIncomplete(es[1..], k - |head|);
    }
  }

  lemma IncompleteMulti(items: seq<Element>, k: nat)
    requires 0 < k < |Encode(Multi(items))|
    ensures ParseReply(Encode(Multi(items))[..k]).None?
  {
    var first, enc := "*" + NatToString(|items|), EncodeElements(items);
    assert Encode(Multi(items)) == [first] + enc;
    var p := ([first] + enc)[..k];
    CutFront(first, enc, k);
    CountLine('*', |items|);
    ElementsIncomplete(items, k - 1);
    ArrayReply(p, ParseElements(p[1..], |items|));
  }

  lemma CutFront(first: string, enc: seq<string>, k: nat)
    requires 0 < k <= 1 + |enc|
    ensures var p := ([first] + enc)[..k]; |p| == k && p[0] == first && p[1..] == enc[..k - 1]
  {
    var p := ([first] + enc)[..k];
    assert p[1..] == enc[..k - 1];
  }

  /** A count line: its leading character, then the count. */
  lemma CountLine(c: char, n: nat)
    ensures var a := [c] + NatToString(n); a[0] == c && a[1..] == NatToString(n)
    ensures ParseNumber(NatToString(n)) == JNum(n)
  {
    LengthLine(n);
  }


  lemma IncompleteBulk(s: string)
    ensures ParseReply(Encode(Bulk(s))[..1]).None?
  {
    var p := Encode(Bulk(s))[..1];
    var first := "$" + NatToString(|s|);
    assert p == [first] && first[0] == '$' && first[1..] == NatToString(|s|);
    LengthLine(|s|);
  }

  /** A reply cut short reads as nothing, so `next` consumes nothing until
    * all of its lines are there. */
  lemma Incomplete(w: Wire, k: nat)
    requires k < |Encode(w)|
    ensures ParseReply(Encode(w)[..k]).None?
  {
    if k > 0 {
      match w
      case Bulk(s) =>
        IncompleteBulk(s);
      case Multi(items) =>
        IncompleteMulti(items, k);
    }
  }

  /** The complete lines after `push`: those waiting, then every piece of
    * the tail and the chunk but the last. */
  function AfterPush(lines: seq<string>, text: string, chunk: string): seq<string>
  {
    var parts := SplitLines(text + chunk);
    lines + parts[..|parts| - 1]
  }

  /** The parser: complete lines not yet read, and the unterminated tail. */
  class Parser {
    var lines: seq<string>
    var text: string
    /** The last result of `next`: a reply, or nothing (`false`). */
    var result: Option<Reply>
    /** All text pushed so far, and the lines `next` has consumed. */
    ghost var pushed: string
    ghost var taken: seq<string>

    /** The text received is the lines consumed, the lines waiting, then the tail. */
    ghost predicate Valid()
      reads this
    {
      pushed == Terminated(taken) + Terminated(lines) + text && !HasCrlf(text)
    }

    constructor()
      ensures Valid() && lines == [] && text == [] && result.None? && pushed == [] && taken == []
    {
      lines := [];
      text := [];
      result := None;
      pushed := [];
      taken := [];
    }

    /** `push`: the tail and the chunk split at CRLF; the last piece becomes
      * the tail, the others are appended as complete lines. */
    method Push(chunk: string)
      requires Valid()
      modifies this
      ensures Valid()
      ensures lines == AfterPush(old(lines), old(text), chunk)
      ensures text == SplitLines(old(text) + chunk)[|SplitLines(old(text) + chunk)| - 1]
      ensures pushed == old(pushed) + chunk && taken == old(taken) && result == old(result)
    {
      var parts := SplitLines(text + chunk);
      SplitRestores(text + chunk);
      PushKeeps(pushed, taken, lines, text, chunk, parts[..|parts| - 1], parts[|parts| - 1]);
      text := parts[|parts| - 1];
      lines := lines + parts[..|parts| - 1];
      pushed := pushed + chunk;
    }

    /** Consumes `n` lines after a reply was found. */
    method PopResult(n: nat, reply: Reply)
      requires Valid() && 1 <= n <= |lines|
      modifies this
      ensures Valid()
      ensures lines == old(lines)[n..] && taken == old(taken) + old(lines)[..n]
      ensures result == Some(reply) && text == old(text) && pushed == old(pushed)
    {
      TerminatedConcat(taken, lines[..n]);
      TerminatedConcat(lines[..n], lines[n..]);
      assert lines == lines[..n] + lines[n..];
      taken := taken + lines[..n];
      lines := lines[n..];
      result := Some(reply);
    }

    /** `next`: the reply at the front, its lines consumed; `false` (nothing
      * consumed) when there is no complete reply. */
    method Next() returns (found: bool)
      requires Valid()
      modifies this
      ensures Valid()
      ensures found <==> ParseReply(old(lines)).Some?
      ensures found ==> (result == Some(ParseReply(old(lines)).value.0) &&
                         lines == old(lines)[ParseReply(old(lines)).value.1..])
      ensures !found ==> result.None? && lines == old(lines) && taken == old(taken)
      ensures text == old(text) && pushed == old(pushed)
    {
      if |lines| < 1 || lines[0] == [] {
        // an empty first line has no leading character: no case applies
        result := None;
        return false;
      }
      var first := lines[0];
      match first[0] {
        case '+' =>
          PopResult(1, Data(JStr(first[1..])));
          found := true;
        case '-' =>
          PopResult(1, ErrorReply(first[1..]));
          found := true;
        case ':' =>
          PopResult(1, Data(ParseNumber(first[1..])));
          found := true;
        case '$' =>
          var n := ParseNumber(first[1..]);
          if n == JNum(-1) {
            PopResult(1, Data(JNull));
            found := true;
          } else if |lines| >= 2 {
            PopResult(2, Data(JStr(lines[1])));
            found := true;
          } else {
            result := None;
            found := false;
          }
        case '*' =>
          found := NextArray();
        case _ =>
          result := None;
          found := false;
      }
    }

    /** The `*n` branch of `next`. A count that is not a positive number
      * (NaN, negative) leaves the element loop without a round and the
      * final length test fails: nothing. */
    method NextArray() returns (found: bool)
      requires Valid() && |lines| >= 1 && lines[0] != [] && lines[0][0] == '*'
      modifies this
      ensures Valid()
      ensures found <==> ParseReply(old(lines)).Some?
      ensures found ==> (result == Some(ParseReply(old(lines)).value.0) &&
                         lines == old(lines)[ParseReply(old(lines)).value.1..])
      ensures !found ==> result.None? && lines == old(lines) && taken == old(taken)
      ensures text == old(text) && pushed == old(pushed)
    {
      var n := ParseNumber(lines[0][1..]);
      if n == JNum(0) {
        PopResult(1, Data(JArr([])));
        return true;
      }
      if !(n.JNum? && n.n > 0) {
        result := None;
        return false;
      }
      var items, i, complete := ReadElements(lines, n.n);
      ArrayReply(lines, ParseElements(lines[1..], n.n));
      if complete {
        PopResult(i, Data(JArr(items)));
        found := true;
      } else {
        result := None;
        found := false;
      }
    }
  }

  /** One round of the element loop at line `i`: the element and the lines
    * it takes, or `ok` false when its value line is missing. */
  method ReadOne(ls: seq<string>, i: nat) returns (v: JsValue, u: nat, ok: bool)
    requires i < |ls|
    ensures ok <==> ReadElement(ls[i..]).Some?
    ensures ok ==> ReadElement(ls[i..]) == Some((v, u))
  {
    var a := ls[i];
    assert ls[i..][0] == a;
    if IsPrefix("$-1", a) {
      v, u, ok := JNull, 1, true;
    } else if a != [] && a[0] == ':' {
      v, u, ok := ParseNumber(a[1..]), 1, true;
    } else if i + 1 < |ls| {
      assert ls[i..][1] == ls[i + 1];
      v, u, ok := JStr(ls[i + 1]), 2, true;
    } else {
      assert ls[i..] == [a];
      v, u, ok := JUndefined, 0, false;
    }
  }

  /** The element loop of the `*n` branch over the lines after the count:
    * `$-1…` is null, `:x` a number, anything else a length line followed by
    * the value; it stops when `n` elements are there (`complete`, with the
    * lines taken so far in `i`) or a value line is missing. */
  method ReadElements(ls: seq<string>, n: nat) returns (items: seq<JsValue>, i: nat, complete: bool)
    requires |ls| >= 1 && n > 0
    ensures complete <==> ParseElements(ls[1..], n).Some?
    ensures complete ==> ParseElements(ls[1..], n) == Some((items, i - 1)) && 1 <= i <= |ls|
  {
    items := [];
    i := 1;
    ghost var goal := ParseElements(ls[1..], n);
    ShiftNone(goal);
    while i < |ls| && |items| < n
      invariant 1 <= i <= |ls| && |items| <= n
      invariant goal == Remaining(ls, i, items, n)
      decreases |ls| - i
    {
      var v, u, ok := ReadOne(ls, i);
      if !ok {
        ElementsMissing(ls, i, items, n);
        return items, i, false;
      }
      ElementsStep(ls, i, items, n, v, u);
      items := items + [v];
      i := i + u;
    }
    if |items| == n {
      ElementsDone(ls, i, items, n);
      complete := true;
    } else {
      ElementsMissing(ls, i, items, n);
      complete := false;
    }
  }

  /** Everything pushed so far, when it is whole replies, is read back reply
    * by reply: a fresh parser given the wire form of a reply (and anything
    * after it) has exactly that reply at the front of its lines. */
  lemma PushedReplyIsNext(w: Wire, rest: seq<string>)
    requires forall k :: 0 <= k < |Encode(w) + rest| ==> !HasCrlf((Encode(w) + rest)[k])
    ensures var parts := SplitLines([] + Terminated(Encode(w) + rest));
      parts[..|parts| - 1] == Encode(w) + rest && parts[|parts| - 1] == [] &&
      ParseReply(parts[..|parts| - 1]) == Some((Meaning(w), |Encode(w)|))
  {
    assert [] + Terminated(Encode(w) + rest) == Terminated(Encode(w) + rest);
    SplitTerminated(Encode(w) + rest);
    RoundTrip(w, rest);
  }
}
