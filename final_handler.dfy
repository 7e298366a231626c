/** The handler that ends a request nothing else answered: a 404 page naming
  * the method and the path, or, for an error, a page whose status comes from
  * the error, with its text escaped into a small HTML document. The head and
  * the body are written only while the response still takes them. */
module FinalHandler {
  import opened Wrappers
  import opened Text
  import opened Values
  import Resp
  import Req

  /** The characters `escapeHtml` looks for. */
  predicate IsHtmlSpecial(c: char)
  {
    c == '"' || c == '&' || c == '\'' || c == '<' || c == '>'
  }

  /** The characters that may not appear raw in escaped text (`&` still
    * appears, as the start of every entity). */
  predicate IsRawMarkup(c: char)
  {
    c == '"' || c == '\'' || c == '<' || c == '>'
  }

  /** The entity written for a special character, the character itself otherwise. */
  function EscapeChar(c: char): string
  {
    match c
    case '"' => "&quot;"
    case '&' => "&amp;"
    case '\'' => "&#39;"
    case '<' => "&lt;"
    case '>' => "&gt;"
    case _ => [c]
  }

  /** Every character of `s` replaced by its escape, in order. */
  function Escaped(s: string): string
  {
    if s == [] then [] else EscapeChar(s[0]) + Escaped(s[1..])
  }

  /** The inverse reading of escaped text: each of the five entities back to
    * its character, everything else as it is. */
  function Unescape(s: string): string
    decreases |s|
  {
    if s == [] then []
    else if IsPrefix("&quot;", s) then "\"" + Unescape(s[6..])
    else if IsPrefix("&amp;", s) then "&" + Unescape(s[5..])
    else if IsPrefix("&#39;", s) then "'" + Unescape(s[5..])
    else if IsPrefix("&lt;", s) then "<" + Unescape(s[4..])
    else if IsPrefix("&gt;", s) then ">" + Unescape(s[4..])
    else [s[0]] + Unescape(s[1..])
  }

  lemma {:induction false} EscapedConcat(a: string, b: string)
    ensures Escaped(a + b) == Escaped(a) + Escaped(b)
    decreases |a|
  {
    if a == [] {
      assert a + b == b;
    } else {
      assert (a + b)[0] == a[0];
      assert (a + b)[1..] == a[1..] + b;
      EscapedConcat(a[1..], b);
      assert Escaped(a + b) == EscapeChar(a[0]) + Escaped(a[1..] + b);
    }
  }

  /** Text without special characters escapes to itself. */
  lemma {:induction false} EscapedPlain(s: string)
    requires forall i :: 0 <= i < |s| ==> !IsHtmlSpecial(s[i])
    ensures Escaped(s) == s
    decreases |s|
  {
    if s != [] {
      EscapedPlain(s[1..]);
    }
  }

  /** Escaped text contains no raw `"`, `'`, `<` or `>`. */
  lemma {:induction false} EscapedHasNoRawMarkup(s: string)
    ensures forall i :: 0 <= i < |Escaped(s)| ==> !IsRawMarkup(Escaped(s)[i])
    decreases |s|
  {
    if s != [] {
      EscapedHasNoRawMarkup(s[1..]);
      var e, rest := EscapeChar(s[0]), Escaped(s[1..]);
      assert forall i :: 0 <= i < |e| ==> !IsRawMarkup(e[i]);
      assert Escaped(s) == e + rest;
    }
  }

  /** Each entity at the front reads back as its character. */
  lemma UnescapeQuot(t: string)
    ensures Unescape("&quot;" + t) == "\"" + Unescape(t)
  {
    var u := "&quot;" + t;
    assert u[..6] == "&quot;" && u[6..] == t;
  }

  lemma UnescapeAmp(t: string)
    ensures Unescape("&amp;" + t) == "&" + Unescape(t)
  {
    var u := "&amp;" + t;
    assert u[..5] == "&amp;" && u[5..] == t;
    assert u[1] == 'a';
    assert !IsPrefix("&quot;", u);
  }

  lemma UnescapeApos(t: string)
    ensures Unescape("&#39;" + t) == "'" + Unescape(t)
  {
    var u := "&#39;" + t;
    assert u[..5] == "&#39;" && u[5..] == t;
    assert u[1] == '#';
    assert !IsPrefix("&quot;", u) && !IsPrefix("&amp;", u);
  }

  lemma UnescapeLt(t: string)
    ensures Unescape("&lt;" + t) == "<" + Unescape(t)
  {
    var u := "&lt;" + t;
    assert u[..4] == "&lt;" && u[4..] == t;
    assert u[1] == 'l';
    assert !IsPrefix("&quot;", u) && !IsPrefix("&amp;", u) && !IsPrefix("&#39;", u);
  }

  lemma UnescapeGt(t: string)
    ensures Unescape("&gt;" + t) == ">" + Unescape(t)
  {
    var u := "&gt;" + t;
    assert u[..4] == "&gt;" && u[4..] == t;
    assert u[1] == 'g';
    assert !IsPrefix("&quot;", u) && !IsPrefix("&amp;", u) && !IsPrefix("&#39;", u) && !IsPrefix("&lt;", u);
  }

  lemma UnescapeStep(c: char, t: string)
    ensures Unescape(EscapeChar(c) + t) == [c] + Unescape(t)
  {
    if c == '"' {
      UnescapeQuot(t);
    } else if c == '&' {
      UnescapeAmp(t);
    } else if c == '\'' {
      UnescapeApos(t);
    } else if c == '<' {
      UnescapeLt(t);
    } else if c == '>' {
      UnescapeGt(t);
    } else {
      var u := [c] + t;
      assert u[0] == c && u[1..] == t;
      assert Unescape(u) == [c] + Unescape(t);
    }
  }

  /** Escaping loses nothing: reading the entities back gives the text. */
  lemma {:induction false} UnescapeEscaped(s: string)
    ensures Unescape(Escaped(s)) == s
    decreases |s|
  {
    if s != [] {
      UnescapeStep(s[0], Escaped(s[1..]));
      UnescapeEscaped(s[1..]);
    }
  }

  /** One special character met: the plain run before it, then its entity. */
  lemma EscapeStep(str: string, lastIndex: nat, index: nat)
    requires lastIndex <= index < |str|
    requires forall i :: lastIndex <= i < index ==> !IsHtmlSpecial(str[i])
    ensures Escaped(str[..lastIndex]) + str[lastIndex..index] + EscapeChar(str[index]) == Escaped(str[..index + 1])
  {
    var a, b, c := str[..lastIndex], str[lastIndex..index], [str[index]];
    assert str[..index + 1] == a + b + c;
    EscapedConcat(a + b, c);
    EscapedConcat(a, b);
    EscapedPlain(b);
    assert Escaped(c) == EscapeChar(str[index]) + Escaped([]);
  }

  lemma EscapeAppend(str: string, lastIndex: nat, index: nat, html: string)
    requires lastIndex <= index < |str|
    requires forall i :: lastIndex <= i < index ==> !IsHtmlSpecial(str[i])
    requires html == Escaped(str[..lastIndex])
    ensures (if lastIndex != index then html + str[lastIndex..index] else html) + EscapeChar(str[index])
         == Escaped(str[..index + 1])
  {
    EscapeStep(str, lastIndex, index);
    if lastIndex == index {
      assert str[lastIndex..index] == [];
      assert html + str[lastIndex..index] == html;
    }
  }

  lemma EscapeTail(str: string, lastIndex: nat)
    requires lastIndex <= |str|
    requires forall i :: lastIndex <= i < |str| ==> !IsHtmlSpecial(str[i])
    ensures Escaped(str[..lastIndex]) + str[lastIndex..] == Escaped(str)
  {
    assert str == str[..lastIndex] + str[lastIndex..];
    EscapedConcat(str[..lastIndex], str[lastIndex..]);
    EscapedPlain(str[lastIndex..]);
  }

  /** `MATCH_HTML_REGEXP.exec(str)`: the position of the first special
    * character, `|str|` when there is none. */
  method FirstSpecial(str: string) returns (first: nat)
    ensures first <= |str|
    ensures forall i :: 0 <= i < first ==> !IsHtmlSpecial(str[i])
    ensures first < |str| ==> IsHtmlSpecial(str[first])
  {
    first := 0;
    while first < |str| && !IsHtmlSpecial(str[first])
      invariant first <= |str|
      invariant forall i :: 0 <= i < first ==> !IsHtmlSpecial(str[i])
    {
      first := first + 1;
    }
  }

  /** The loop of `escapeHtml`, from the first special character on: the
    * plain run before each special character copied, then its entity. */
  method EscapeFrom(str: string, first: nat) returns (html: string)
    requires first <= |str|
    requires forall i :: 0 <= i < first ==> !IsHtmlSpecial(str[i])
    ensures html == Escaped(str)
  {
    html := "";
    var index := first;
    var lastIndex := 0;
    while index < |str|
      invariant lastIndex <= index <= |str|
      invariant forall i :: lastIndex <= i < index ==> !IsHtmlSpecial(str[i])
      invariant html == Escaped(str[..lastIndex])
    {
      if IsHtmlSpecial(str[index]) {
        var escape := EscapeChar(str[index]);
        EscapeAppend(str, lastIndex, index, html);
        if lastIndex != index {
          html := html + str[lastIndex..index];
        }
        lastIndex := index + 1;
        html := html + escape;
      }
      index := index + 1;
    }
    EscapeTail(str, lastIndex);
    if lastIndex != index {
      html := html + str[lastIndex..index];
    }
  }

  /** `escapeHtml`: the text itself when it has no special character;
    * otherwise every special character replaced by its entity. */
  method EscapeHtml(str: string) returns (html: string)
    ensures html == Escaped(str)
    ensures (forall i :: 0 <= i < |str| ==> !IsHtmlSpecial(str[i])) ==> html == str
  {
    var first := FirstSpecial(str);
    if first == |str| {
      EscapedPlain(str);
      return str;
    }
    html := EscapeFrom(str, first);
  }

  /** `.replace(/\n/g, "<br>")`. */
  function NewlinesToBreaks(s: string): (r: string)
    ensures '\n' !in s ==> r == s
  {
    if s == [] then [] else (if s[0] == '\n' then "<br>" else [s[0]]) + NewlinesToBreaks(s[1..])
  }

  /** `.replace(/\x20{2}/g, " &nbsp;")`: pairs of spaces taken from the left,
    * without overlap, so three spaces become `" &nbsp; "`. */
  function DoubleSpacesToNbsp(s: string): (r: string)
  {
    if |s| >= 2 && s[0] == ' ' && s[1] == ' ' then " &nbsp;" + DoubleSpacesToNbsp(s[2..])
    else if s == [] then [] else [s[0]] + DoubleSpacesToNbsp(s[1..])
  }

  predicate HasDoubleSpace(s: string)
  {
    exists i :: 0 <= i < |s| - 1 && s[i] == ' ' && s[i + 1] == ' '
  }

  lemma {:induction false} NewlinesGone(s: string)
    ensures '\n' !in NewlinesToBreaks(s)
    decreases |s|
  {
    if s != [] {
      NewlinesGone(s[1..]);
    }
  }

  lemma {:induction false} NbspKeepsNewlines(s: string)
    ensures '\n' in DoubleSpacesToNbsp(s) <==> '\n' in s
    decreases |s|
  {
    if |s| >= 2 && s[0] == ' ' && s[1] == ' ' {
      NbspKeepsNewlines(s[2..]);
      assert s == s[..2] + s[2..];
    } else if s != [] {
      NbspKeepsNewlines(s[1..]);
      assert s == [s[0]] + s[1..];
    }
  }

  lemma {:induction false} NbspWithoutDoubleSpace(s: string)
    requires !HasDoubleSpace(s)
    ensures DoubleSpacesToNbsp(s) == s
    decreases |s|
  {
    if s != [] {
      assert !HasDoubleSpace(s[1..]) by {
        forall i | 0 <= i < |s[1..]| - 1 ensures !(s[1..][i] == ' ' && s[1..][i + 1] == ' ') {
          assert s[1..][i] == s[i + 1] && s[1..][i + 1] == s[i + 2];
        }
      }
      NbspWithoutDoubleSpace(s[1..]);
    }
  }

  /** What goes inside `<pre>`: the message escaped, line breaks as `<br>`,
    * pairs of spaces as `" &nbsp;"`. */
  function ErrorPageBody(message: string): (r: string)
  {
    DoubleSpacesToNbsp(NewlinesToBreaks(Escaped(message)))
  }

  const DocumentHead := "<!DOCTYPE html>\n<html lang=\"en\">\n<head>\n<meta charset=\"utf-8\">\n<title>Error</title>\n</head>\n<body>\n<pre>"
  const DocumentTail := "</pre>\n</body>\n</html>\n"

  /** `createHtmlDocument`: the fixed page around the converted message. */
  function CreateHtmlDocument(message: string): (r: string)
  {
    DocumentHead + ErrorPageBody(message) + DocumentTail
  }

  /** The page body holds no line break and no raw markup, and a message
    * without special characters, line breaks or double spaces appears in it
    * as it is. */
  lemma ErrorPageBodyShape(message: string)
    ensures '\n' !in ErrorPageBody(message)
    ensures (forall i :: 0 <= i < |message| ==> !IsHtmlSpecial(message[i])) && '\n' !in message && !HasDoubleSpace(message)
      ==> ErrorPageBody(message) == message
  {
    var e := Escaped(message);
    NewlinesGone(e);
    NbspKeepsNewlines(NewlinesToBreaks(e));
    if (forall i :: 0 <= i < |message| ==> !IsHtmlSpecial(message[i])) && '\n' !in message && !HasDoubleSpace(message) {
      EscapedPlain(message);
      NbspWithoutDoubleSpace(message);
    }
  }

  /** The document is the fixed head, the page body and the fixed tail. */
  lemma DocumentFrame(message: string)
    ensures IsPrefix(DocumentHead, CreateHtmlDocument(message))
    ensures CreateHtmlDocument(message)[|DocumentHead|..|CreateHtmlDocument(message)| - |DocumentTail|] == ErrorPageBody(message)
  {
    var d := CreateHtmlDocument(message);
    assert d[..|DocumentHead|] == DocumentHead;
  }

  predicate StatusInRange(v: JsValue)
  {
    v.JNum? && 400 <= v.n < 600
  }

  /** `getErrorStatusCode`: a numeric `status` in [400, 600), else a numeric
    * `statusCode` in that range, else nothing. */
  function GetErrorStatusCode(err: Reason): (r: Option<int>)
    ensures r.Some? ==> 400 <= r.value < 600
    ensures r.Some? <==> StatusInRange(Prop(err, "status")) || StatusInRange(Prop(err, "statusCode"))
    ensures StatusInRange(Prop(err, "status")) ==> r == Some(Prop(err, "status").n)
    ensures !StatusInRange(Prop(err, "status")) && StatusInRange(Prop(err, "statusCode")) ==>
      r == Some(Prop(err, "statusCode").n)
  {
    var status, statusCode := Prop(err, "status"), Prop(err, "statusCode");
    if StatusInRange(status) then Some(status.n)
    else if StatusInRange(statusCode) then Some(statusCode.n)
    else None
  }

  /** `getErrorStatusCode(err) || 500`. */
  function ErrorStatus(err: Reason): (code: int)
    ensures 400 <= code < 600
    ensures GetErrorStatusCode(err).None? ==> code == 500
    ensures GetErrorStatusCode(err).Some? ==> code == GetErrorStatusCode(err).value
  {
    GetErrorStatusCode(err).UnwrapOr(500)
  }

  /** The keys `Object.keys` lists for an array: its indices. */
  function IndexMap(items: seq<JsValue>): (m: map<string, JsValue>)
    ensures forall i :: 0 <= i < |items| ==> NatToString(i) in m
  {
    if items == [] then map[]
    else IndexMap(items[..|items| - 1])[NatToString(|items| - 1) := items[|items| - 1]]
  }

  /** `getErrorHeaders`: a copy of `err.headers` when it is an object (an
    * array gives its indices), `{}` when it is missing, falsy or not an object. */
  function GetErrorHeaders(err: Reason): (r: map<string, JsValue>)
    ensures Prop(err, "headers").JObj? ==> r == Prop(err, "headers").fields
    ensures !Truthy(Prop(err, "headers")) || !IsObjectType(Prop(err, "headers")) ==> r == map[]
  {
    match Prop(err, "headers")
    case JObj(fields) => fields
    case JArr(items) => IndexMap(items)
    case _ => map[]
  }

  function ScalarOf(v: JsValue): Resp.Scalar
  {
    match v
    case JNum(n) => Resp.SNum(n)
    case JStr(s) => Resp.SStr(s)
    case _ => Resp.SStr(ToJsString(v))
  }

  /** A header value as the server keeps it: an array as a list, anything
    * else as one value. */
  function ToHeaderValue(v: JsValue): Resp.HeaderValue
  {
    match v
    case JArr(items) => Resp.HList(seq(|items|, i requires 0 <= i < |items| => ScalarOf(items[i])))
    case _ => Resp.HScalar(ScalarOf(v))
  }

  /** The headers every final page carries, under the names the server keeps. */
  const DefaultHeaders: map<string, Resp.HeaderValue> := map[
    "content-security-policy" := Resp.HScalar(Resp.SStr("default-src 'self'")),
    "x-content-type-options" := Resp.HScalar(Resp.SStr("nosniff")),
    "content-type" := Resp.HScalar(Resp.SStr("text/html; charset=utf-8"))]

  lemma CspName() ensures Lower("Content-Security-Policy") == "content-security-policy"
  {
    var s, t := "Content-Security-Policy", "content-security-policy";
    forall i | 0 <= i < |s| ensures LowerChar(s[i]) == t[i] {}
    LowerIs(s, t);
  }

  lemma NoSniffName() ensures Lower("X-Content-Type-Options") == "x-content-type-options"
  {
    var s, t := "X-Content-Type-Options", "x-content-type-options";
    forall i | 0 <= i < |s| ensures LowerChar(s[i]) == t[i] {}
    LowerIs(s, t);
  }

  /** Whether one of the keys names header `n`. */
  predicate OverriddenBy(keys: set<string>, n: string)
  {
    exists k :: k in keys && Lower(k) == n
  }

  predicate Overridden(errHeaders: map<string, JsValue>, n: string)
  {
    OverriddenBy(errHeaders.Keys, n)
  }

  /** No other key of the error's headers names the same header as `k`
    * (keys that differ only in case are applied in an order the model
    * does not fix). */
  predicate UniqueName(errHeaders: map<string, JsValue>, k: string)
  {
    forall k2 :: k2 in errHeaders && Lower(k2) == Lower(k) ==> k2 == k
  }

  /** `after` has the header of each key in `done` whose name no other key shares. */
  ghost predicate HasSet(errHeaders: map<string, JsValue>, done: set<string>, after: map<string, Resp.HeaderValue>)
  {
    forall k :: k in done && k in errHeaders && UniqueName(errHeaders, k) ==>
      Lower(k) in after && after[Lower(k)] == ToHeaderValue(errHeaders[k])
  }

  /** `after` agrees with `before` on every name no key in `done` sets. */
  ghost predicate KeepsOthers(before: map<string, Resp.HeaderValue>, done: set<string>, after: map<string, Resp.HeaderValue>)
  {
    forall n :: !OverriddenBy(done, n) ==> (n in after <==> n in before) && (n in before ==> after[n] == before[n])
  }

  /** `after` holds no name that is neither in `before` nor set by a key in `done`. */
  ghost predicate AddsOnly(before: map<string, Resp.HeaderValue>, done: set<string>, after: map<string, Resp.HeaderValue>)
  {
    forall n :: n in after ==> n in before || OverriddenBy(done, n)
  }

  /** `after` is `before` with the headers of the keys in `done` set over it. */
  ghost predicate Overlaid(before: map<string, Resp.HeaderValue>, errHeaders: map<string, JsValue>, done: set<string>,
                           after: map<string, Resp.HeaderValue>)
  {
    HasSet(errHeaders, done, after) && KeepsOthers(before, done, after) && AddsOnly(before, done, after)
  }

  /** The headers after `writeHead`: each error header, over the defaults,
    * over whatever was set before; nothing else. */
  ghost predicate HeadersWritten(before: map<string, Resp.HeaderValue>, errHeaders: map<string, JsValue>,
                                 after: map<string, Resp.HeaderValue>)
  {
    (forall k :: k in errHeaders && UniqueName(errHeaders, k) ==>
       Lower(k) in after && after[Lower(k)] == ToHeaderValue(errHeaders[k])) &&
    (forall n :: n in DefaultHeaders && !Overridden(errHeaders, n) ==> n in after && after[n] == DefaultHeaders[n]) &&
    (forall n :: n !in DefaultHeaders && !Overridden(errHeaders, n) ==>
       (n in after <==> n in before) && (n in before ==> after[n] == before[n])) &&
    (forall n :: n in after ==> n in before || n in DefaultHeaders || Overridden(errHeaders, n))
  }

  lemma HasSetStep(errHeaders: map<string, JsValue>, done: set<string>, h: map<string, Resp.HeaderValue>, k: string)
    requires k in errHeaders && HasSet(errHeaders, done, h)
    ensures HasSet(errHeaders, done + {k}, h[Lower(k) := ToHeaderValue(errHeaders[k])])
  {
    var h1 := h[Lower(k) := ToHeaderValue(errHeaders[k])];
    forall k1 | k1 in done + {k} && k1 in errHeaders && UniqueName(errHeaders, k1)
      ensures Lower(k1) in h1 && h1[Lower(k1)] == ToHeaderValue(errHeaders[k1])
    {
      if k1 != k {
        assert Lower(k1) != Lower(k);
      }
    }
  }

  lemma OverriddenGrows(done: set<string>, k: string, n: string)
    ensures OverriddenBy(done + {k}, n) <==> OverriddenBy(done, n) || n == Lower(k)
  {
    if OverriddenBy(done, n) {
      var w :| w in done && Lower(w) == n;
      assert w in done + {k};
    }
    if n == Lower(k) {
      assert k in done + {k};
    }
  }

  lemma KeepsOthersStep(before: map<string, Resp.HeaderValue>, done: set<string>, h: map<string, Resp.HeaderValue>,
                        k: string, v: Resp.HeaderValue)
    requires KeepsOthers(before, done, h)
    ensures KeepsOthers(before, done + {k}, h[Lower(k) := v])
  {
    forall n | !OverriddenBy(done + {k}, n)
      ensures (n in h[Lower(k) := v] <==> n in before) && (n in before ==> h[Lower(k) := v][n] == before[n])
    {
      OverriddenGrows(done, k, n);
    }
  }

  lemma AddsOnlyStep(before: map<string, Resp.HeaderValue>, done: set<string>, h: map<string, Resp.HeaderValue>,
                     k: string, v: Resp.HeaderValue)
    requires AddsOnly(before, done, h)
    ensures AddsOnly(before, done + {k}, h[Lower(k) := v])
  {
    forall n | n in h[Lower(k) := v] ensures n in before || OverriddenBy(done + {k}, n) {
      OverriddenGrows(done, k, n);
    }
  }

  lemma OverlayStep(before: map<string, Resp.HeaderValue>, errHeaders: map<string, JsValue>, done: set<string>,
                    h: map<string, Resp.HeaderValue>, k: string)
    requires k in errHeaders
    requires Overlaid(before, errHeaders, done, h)
    ensures Overlaid(before, errHeaders, done + {k}, h[Lower(k) := ToHeaderValue(errHeaders[k])])
  {
    HasSetStep(errHeaders, done, h, k);
    KeepsOthersStep(before, done, h, k, ToHeaderValue(errHeaders[k]));
    AddsOnlyStep(before, done, h, k, ToHeaderValue(errHeaders[k]));
  }

  /** The error's headers set one by one over `before`, in whatever order
    * its keys come. */
  method SetErrorHeaders(before: map<string, Resp.HeaderValue>, errHeaders: map<string, JsValue>)
    returns (h: map<string, Resp.HeaderValue>)
    ensures Overlaid(before, errHeaders, errHeaders.Keys, h)
  {
    h := before;
    var keys := errHeaders.Keys;
    ghost var done: set<string> := {};
    while keys != {}
      invariant done == errHeaders.Keys - keys && keys <= errHeaders.Keys
      invariant Overlaid(before, errHeaders, done, h)
      decreases |keys|
    {
      var k :| k in keys;
      OverlayStep(before, errHeaders, done, h, k);
      h := h[Lower(k) := ToHeaderValue(errHeaders[k])];
      keys := keys - {k};
      done := done + {k};
    }
  }

  lemma WrittenFromOverlay(before: map<string, Resp.HeaderValue>, errHeaders: map<string, JsValue>,
                           after: map<string, Resp.HeaderValue>)
    requires Overlaid(before + DefaultHeaders, errHeaders, errHeaders.Keys, after)
    ensures HeadersWritten(before, errHeaders, after)
  {
    var h0 := before + DefaultHeaders;
    forall n | n in DefaultHeaders && !Overridden(errHeaders, n)
      ensures n in after && after[n] == DefaultHeaders[n]
    {
      assert n in h0 && h0[n] == DefaultHeaders[n];
    }
    forall n | n !in DefaultHeaders && !Overridden(errHeaders, n)
      ensures (n in after <==> n in before) && (n in before ==> after[n] == before[n])
    {
      assert (n in h0 <==> n in before) && (n in before ==> h0[n] == before[n]);
    }
    forall n | n in after ensures n in before || n in DefaultHeaders || Overridden(errHeaders, n) {
      assert n in h0 || OverriddenBy(errHeaders.Keys, n);
    }
  }

  /** `writeHead`: nothing once the head is sent; otherwise the status and the
    * default headers with the error's headers over them. */
  method WriteHead(res: Resp.Response, statusCode: int, errHeaders: map<string, JsValue>)
    modifies res
    ensures old(res.headersSent) ==> res.statusCode == old(res.statusCode) && res.headers == old(res.headers)
    ensures !old(res.headersSent) ==> res.statusCode == statusCode && HeadersWritten(old(res.headers), errHeaders, res.headers)
    ensures res.headersSent && res.finished == old(res.finished) && res.body == old(res.body)
  {
    if res.headersSent {
      return;
    }
    ghost var before := res.headers;
    // the server keeps each default under its lower-cased name (CspName,
    // NoSniffName, Resp.ContentTypeName)
    // each error header is then set as `setHeader` would, over the defaults
    var h := SetErrorHeaders(res.headers + DefaultHeaders, errHeaders);
    WrittenFromOverlay(before, errHeaders, h);
    res.headers := h;
    res.statusCode := statusCode;
    res.headersSent := true;
  }

  /** `writeBody`: nothing for a HEAD request or a finished response;
    * otherwise the body ends the response. */
  method WriteBody(req: Req.Request, res: Resp.Response, body: string)
    modifies res
    ensures req.httpMethod == "HEAD" || old(res.finished) ==>
      res.finished == old(res.finished) && res.body == old(res.body) && res.headersSent == old(res.headersSent)
    ensures req.httpMethod != "HEAD" && !old(res.finished) ==> res.finished && res.body == old(res.body) + body
    ensures res.statusCode == old(res.statusCode) && res.headers == old(res.headers)
  {
    if req.httpMethod == "HEAD" {
      return;
    }
    if res.finished {
      return;
    }
    res.End(body);
  }

  /** The text an error page shows: an `Error`'s stack, or its message when
    * the stack is empty; `String(err)` for anything else. */
  function ErrorMessage(err: Reason): string
  {
    match err
    case ErrorReason(message, stack, _) => if stack.Some? && stack.value != "" then stack.value else message
    case TextReason(t) => t
    case ObjectReason(_) => "[object Object]"
    case NullReason => "null"
    case NoReason => "undefined"
  }

  /** `getResourceName`: the pathname of the original URL (or of the URL when
    * there is none), `/` when that is empty; the URL parser is a parameter. */
  function ResourceName(req: Req.Request, pathnameOf: string -> string): string
    reads req
  {
    var url := if req.originalUrl.Some? && req.originalUrl.value != "" then req.originalUrl.value else req.Url();
    var p := pathnameOf(url);
    if p == "" then "/" else p
  }

  function NotFoundMessage(httpMethod: string, resource: string): string
  {
    "Cannot " + httpMethod + " " + resource
  }

  /** What the final page says for a reason given to the final `next`. */
  function PageMessage(req: Req.Request, err: Reason, pathnameOf: string -> string): string
    reads req
  {
    if IsError(err) then ErrorMessage(err) else NotFoundMessage(req.httpMethod, ResourceName(req, pathnameOf))
  }

  /** `finalHandler(req, res)(err)`: an error gives its status (500 when it
    * names none) and headers; no error gives 404 and `Cannot <METHOD> <path>`. */
  method Handle(req: Req.Request, res: Resp.Response, err: Reason, pathnameOf: string -> string)
    modifies res
    ensures !old(res.headersSent) ==> res.statusCode == (if IsError(err) then ErrorStatus(err) else 404)
    ensures !old(res.headersSent) ==>
      HeadersWritten(old(res.headers), if IsError(err) then GetErrorHeaders(err) else map[], res.headers)
    ensures old(res.headersSent) ==> res.statusCode == old(res.statusCode) && res.headers == old(res.headers)
    ensures req.httpMethod != "HEAD" && !old(res.finished) ==>
      res.finished && res.body == old(res.body) + CreateHtmlDocument(PageMessage(req, err, pathnameOf))
    ensures req.httpMethod == "HEAD" || old(res.finished) ==> res.finished == old(res.finished) && res.body == old(res.body)
  {
    var message := PageMessage(req, err, pathnameOf);
    if IsError(err) {
      WriteHead(res, ErrorStatus(err), GetErrorHeaders(err));
    } else {
      WriteHead(res, 404, map[]);
    }
    WriteBody(req, res, CreateHtmlDocument(message));
  }
}
