/** The response wrapper: status, case-insensitive headers (as the HTTP
  * server keeps them), the append rule for repeated headers, cookies,
  * JSON/HTML bodies, redirects and rendering. */
module Resp {
  import opened Wrappers
  import opened Text
  import opened Values

  /** A single header value: a string or a number. */
  datatype Scalar = SStr(s: string) | SNum(n: int)

  datatype HeaderValue = HScalar(v: Scalar) | HList(items: seq<Scalar>)

  /** `!header` is true of "" and 0 as well as of a missing header. */
  predicate HeaderTruthy(h: Option<HeaderValue>)
  {
    match h
    case None => false
    case Some(HScalar(SStr(s))) => s != ""
    case Some(HScalar(SNum(n))) => n != 0
    case Some(HList(_)) => true
  }

  /** The items `appendHeader` starts from: none for a falsy header, the
    * value itself when it is not an array. */
  function ExistingItems(h: Option<HeaderValue>): seq<Scalar>
  {
    if !HeaderTruthy(h) then []
    else match h.value
      case HScalar(v) => [v]
      case HList(items) => items
  }

  function ValueItems(v: HeaderValue): seq<Scalar>
  {
    match v
    case HScalar(x) => [x]
    case HList(items) => items
  }

  /** `appendHeader`: the header always becomes a list, the new value's items
    * after the existing ones. */
  function Appended(existing: Option<HeaderValue>, value: HeaderValue): (r: HeaderValue)
    ensures r.HList?
    ensures r.items == ExistingItems(existing) + ValueItems(value)
    ensures !HeaderTruthy(existing) ==> r.items == ValueItems(value)
  {
    HList(ExistingItems(existing) + ValueItems(value))
  }

  /** Appending twice to the same header keeps every item, in order. */
  lemma AppendTwice(existing: Option<HeaderValue>, a: HeaderValue, b: HeaderValue)
    ensures ValueItems(Appended(Some(Appended(existing, a)), b))
         == ExistingItems(existing) + ValueItems(a) + ValueItems(b)
  {
  }

  /** The header names the wrapper sets, in the case the server stores them. */
  lemma HeaderNames()
    ensures Lower("Content-Type") == "content-type"
    ensures Lower("Location") == "location"
    ensures Lower("Set-Cookie") == "set-cookie"
  {
    ContentTypeName();
    LocationName();
    SetCookieName();
  }

  lemma ContentTypeName() ensures Lower("Content-Type") == "content-type"
  {
    var s, t := "Content-Type", "content-type";
    forall i | 0 <= i < |s| ensures LowerChar(s[i]) == t[i] {}
    LowerIs(s, t);
  }

  lemma LocationName() ensures Lower("Location") == "location"
  {
    var s, t := "Location", "location";
    forall i | 0 <= i < |s| ensures LowerChar(s[i]) == t[i] {}
    LowerIs(s, t);
  }

  lemma SetCookieName() ensures Lower("Set-Cookie") == "set-cookie"
  {
    var s, t := "Set-Cookie", "set-cookie";
    forall i | 0 <= i < |s| ensures LowerChar(s[i]) == t[i] {}
    LowerIs(s, t);
  }

  /** What cookie options a caller may pass; times are milliseconds. */
  datatype CookieOptions = CookieOptions(
    signed: bool, maxAge: Option<int>, expires: Option<int>, path: Option<string>,
    domain: Option<string>, httpOnly: Option<bool>, secure: Option<bool>)

  /** What `cookie.serialize` is given: `maxAge` in seconds, `expires` as a time in
    * milliseconds, and a path that is always set. */
  datatype SerializeOptions = SerializeOptions(
    maxAgeSeconds: Option<real>, expires: Option<int>, path: string,
    domain: Option<string>, httpOnly: Option<bool>, secure: Option<bool>)

  const EmptyCookieOptions := CookieOptions(false, None, None, None, None, None, None)

  const SignedCookieError := "cookieParser(\"secret\") required for signed cookies"

  /** The message of the server's `ERR_HTTP_HEADERS_SENT`, thrown by
    * `setHeader` ("set") and `writeHead` ("write") once the head is sent. */
  function HeadersSentError(action: string): string
  {
    "Cannot " + action + " headers after they are sent to the client"
  }

  /** That error as a handler sees it when it is caught: an `Error` with its
    * `code`; its stack is not modelled. */
  const HeadersSentReason := ErrorReason(HeadersSentError("set"), None, map["code" := JStr("ERR_HTTP_HEADERS_SENT")])

  /** The value part of a cookie: objects (null and arrays included) as
    * "j:" and their JSON text, other values as `String(value)`; a signed
    * cookie gets "s:" and the signature. */
  function CookieValue(value: JsValue, signed: bool, secret: string,
                       stringify: JsValue -> string, sign: (string, string) -> string): (r: string)
    ensures signed ==> r == "s:" + sign(PlainCookieValue(value, stringify), secret)
    ensures !signed ==> r == PlainCookieValue(value, stringify)
  {
    var val := PlainCookieValue(value, stringify);
    if signed then "s:" + sign(val, secret) else val
  }

  function PlainCookieValue(value: JsValue, stringify: JsValue -> string): (r: string)
    ensures IsObjectType(value) ==> r == "j:" + stringify(value)
    ensures !IsObjectType(value) ==> r == ToJsString(value)
  {
    if IsObjectType(value) then "j:" + stringify(value) else ToJsString(value)
  }

  /** The options passed on to the serializer: a truthy `maxAge` (milliseconds)
    * sets `expires` to now plus `maxAge` and becomes seconds; the path
    * defaults to "/". */
  function SerializeOptionsFor(opts: CookieOptions, now: int): (r: SerializeOptions)
    ensures r.path == (if opts.path.Some? then opts.path.value else "/")
    ensures opts.maxAge.Some? && opts.maxAge.value != 0 ==>
      r.expires == Some(now + opts.maxAge.value) && r.maxAgeSeconds == Some(opts.maxAge.value as real / 1000.0)
    ensures (opts.maxAge.None? || opts.maxAge.value == 0) ==>
      r.expires == opts.expires && r.maxAgeSeconds == (if opts.maxAge.Some? then Some(0.0) else None)
  {
    var truthyMaxAge := opts.maxAge.Some? && opts.maxAge.value != 0;
    SerializeOptions(
      if opts.maxAge.None? then None
      else if truthyMaxAge then Some(opts.maxAge.value as real / 1000.0)
      else Some(0.0),
      if truthyMaxAge then Some(now + opts.maxAge.value) else opts.expires,
      if opts.path.Some? then opts.path.value else "/",
      opts.domain, opts.httpOnly, opts.secure)
  }

  /** `clearCookie`: `expires` at 1 ms after the epoch and path "/", each
    * overridden by what the caller passes. */
  function ClearCookieOptions(options: CookieOptions): (r: CookieOptions)
    ensures r.expires == (if options.expires.Some? then options.expires else Some(1))
    ensures r.path == (if options.path.Some? then options.path else Some("/"))
    ensures r.signed == options.signed && r.maxAge == options.maxAge
  {
    options.(expires := if options.expires.Some? then options.expires else Some(1),
             path := if options.path.Some? then options.path else Some("/"))
  }

  /** The state of the underlying server response, and the wrapper's operations
    * on it. Header names are kept in lower case, since the server looks them
    * up without regard to case. */
  class Response {
    var statusCode: int
    var headers: map<string, HeaderValue>
    var headersSent: bool
    var finished: bool
    var body: string

    constructor()
      ensures statusCode == 200 && headers == map[] && !headersSent && !finished && body == []
    {
      statusCode := 200;
      headers := map[];
      headersSent := false;
      finished := false;
      body := [];
    }

    function GetHeader(name: string): (r: Option<HeaderValue>)
      reads this
      ensures r.Some? <==> Lower(name) in headers
      ensures r.Some? ==> r.value == headers[Lower(name)]
    {
      if Lower(name) in headers then Some(headers[Lower(name)]) else None
    }

    method Status(code: int)
      modifies this
      ensures statusCode == code
      ensures headers == old(headers) && headersSent == old(headersSent) && finished == old(finished) && body == old(body)
    {
      statusCode := code;
    }

    /** Nothing about the response is different from before the call. */
    twostate predicate Untouched()
      reads this
    {
      && statusCode == old(statusCode) && headers == old(headers) && headersSent == old(headersSent)
      && finished == old(finished) && body == old(body)
    }

    /** The server's `setHeader`: once the head is sent it throws
      * `ERR_HTTP_HEADERS_SENT` and nothing changes. */
    method SetHeader(name: string, value: HeaderValue) returns (r: Outcome<string>)
      modifies this
      ensures r.Fail? <==> old(headersSent)
      ensures r.Fail? ==> r.error == HeadersSentError("set") && Untouched()
      ensures r.Pass? ==> headers == old(headers)[Lower(name) := value]
      ensures statusCode == old(statusCode) && headersSent == old(headersSent) && finished == old(finished) && body == old(body)
    {
      if headersSent {
        return Fail(HeadersSentError("set"));
      }
      headers := headers[Lower(name) := value];
      r := Pass;
    }

    method AppendHeader(name: string, value: HeaderValue) returns (r: Outcome<string>)
      modifies this
      ensures r.Fail? <==> old(headersSent)
      ensures r.Fail? ==> r.error == HeadersSentError("set") && Untouched()
      ensures r.Pass? ==> headers == old(headers)[Lower(name) := Appended(old(GetHeader(name)), value)]
      ensures statusCode == old(statusCode) && headersSent == old(headersSent) && finished == old(finished) && body == old(body)
    {
      var existing := GetHeader(name);
      r := SetHeader(name, Appended(existing, value));
    }

    /** `setHeaders`: one `setHeader` per property, in order; on a sent head
      * the first one throws, so only an empty record goes through. */
    method SetHeaders(pairs: seq<(string, HeaderValue)>) returns (r: Outcome<string>)
      modifies this
      ensures r.Fail? <==> old(headersSent) && pairs != []
      ensures r.Fail? ==> r.error == HeadersSentError("set") && Untouched()
      ensures r.Pass? ==> headers == SetAll(old(headers), pairs)
      ensures statusCode == old(statusCode) && headersSent == old(headersSent) && finished == old(finished) && body == old(body)
    {
      r := Pass;
      var i := 0;
      while i < |pairs|
        invariant 0 <= i <= |pairs|
        invariant r.Pass? && headers == SetAll(old(headers), pairs[..i])
        invariant i > 0 ==> !old(headersSent)
        invariant statusCode == old(statusCode) && headersSent == old(headersSent) && finished == old(finished) && body == old(body)
      {
        assert pairs[..i + 1][..i] == pairs[..i];
        r := SetHeader(pairs[i].0, pairs[i].1);
        if r.Fail? {
          assert i == 0 && pairs[..i] == [];
          assert headers == SetAll(old(headers), []) == old(headers);
          return;
        }
        i := i + 1;
      }
      assert pairs[..i] == pairs;
    }

    /** The server's `writeHead`: the status and the headers, which are now
      * sent; once the head is sent it throws and nothing changes. */
    method WriteHead(code: int, pairs: seq<(string, HeaderValue)>) returns (r: Outcome<string>)
      modifies this
      ensures r.Fail? <==> old(headersSent)
      ensures r.Fail? ==> r.error == HeadersSentError("write") && Untouched()
      ensures r.Pass? ==> statusCode == code && headersSent && headers == SetAll(old(headers), pairs)
      ensures finished == old(finished) && body == old(body)
    {
      if headersSent {
        return Fail(HeadersSentError("write"));
      }
      r := SetHeaders(pairs);
      statusCode := code;
      headersSent := true;
    }

    /** The server's `end`: a response already finished takes no more data. */
    method End(data: string)
      modifies this
      ensures finished && headersSent
      ensures body == if old(finished) then old(body) else old(body) + data
      ensures statusCode == old(statusCode) && headers == old(headers)
    {
      if !finished {
        body := body + data;
      }
      finished := true;
      headersSent := true;
    }

    /** `json`: the JSON content type, then the text; a sent head makes the
      * `setHeader` throw before anything is written. */
    method Json(data: JsValue, stringify: JsValue -> string) returns (r: Outcome<string>)
      modifies this
      ensures r.Fail? <==> old(headersSent)
      ensures r.Fail? ==> r.error == HeadersSentError("set") && Untouched()
      ensures r.Pass? ==> headers == old(headers)["content-type" := HScalar(SStr("application/json"))]
      ensures r.Pass? ==> finished && headersSent && body == if old(finished) then old(body) else old(body) + stringify(data)
      ensures statusCode == old(statusCode)
    {
      HeaderNames();
      r := SetHeader("Content-Type", HScalar(SStr("application/json")));
      if r.Pass? {
        End(stringify(data));
      }
    }

    method Html(str: string) returns (r: Outcome<string>)
      modifies this
      ensures r.Fail? <==> old(headersSent)
      ensures r.Fail? ==> r.error == HeadersSentError("set") && Untouched()
      ensures r.Pass? ==> headers == old(headers)["content-type" := HScalar(SStr("text/html; charset=utf-8"))]
      ensures r.Pass? ==> finished && headersSent && body == if old(finished) then old(body) else old(body) + str
      ensures statusCode == old(statusCode)
    {
      HeaderNames();
      r := SetHeader("Content-Type", HScalar(SStr("text/html; charset=utf-8")));
      if r.Pass? {
        End(str);
      }
    }

    method RedirectTemporary(url: string, content: string) returns (r: Outcome<string>)
      modifies this
      ensures r.Fail? <==> old(headersSent)
      ensures r.Fail? ==> r.error == HeadersSentError("write") && Untouched()
      ensures r.Pass? ==> statusCode == 302 && finished && headersSent
      ensures r.Pass? ==> headers == old(headers)["location" := HScalar(SStr(url))]
      ensures r.Pass? ==> body == if old(finished) then old(body) else old(body) + content
    {
      HeaderNames();
      r := WriteHead(302, [("Location", HScalar(SStr(url)))]);
      if r.Pass? {
        End(content);
      }
    }

    method RedirectPermanent(url: string, content: string) returns (r: Outcome<string>)
      modifies this
      ensures r.Fail? <==> old(headersSent)
      ensures r.Fail? ==> r.error == HeadersSentError("write") && Untouched()
      ensures r.Pass? ==> statusCode == 301 && finished && headersSent
      ensures r.Pass? ==> headers == old(headers)["location" := HScalar(SStr(url))]
      ensures r.Pass? ==> body == if old(finished) then old(body) else old(body) + content
    {
      HeaderNames();
      r := WriteHead(301, [("Location", HScalar(SStr(url)))]);
      if r.Pass? {
        End(content);
      }
    }

    /** `cookie`: a signed cookie needs the request's secret (a falsy one
      * throws and nothing is written); otherwise one more Set-Cookie item,
      * which a sent head makes `setHeader` refuse. */
    method Cookie(name: string, value: JsValue, options: CookieOptions, secret: Option<string>, now: int,
                  stringify: JsValue -> string, sign: (string, string) -> string,
                  serialize: (string, string, SerializeOptions) -> string)
      returns (r: Outcome<string>)
      modifies this
      ensures r.Fail? <==> (options.signed && (secret.None? || secret.value == "")) || old(headersSent)
      ensures r.Fail? ==> Untouched()
      ensures r.Fail? ==> r.error == if options.signed && (secret.None? || secret.value == "") then SignedCookieError else HeadersSentError("set")
      ensures r.Pass? ==> headers == old(headers)["set-cookie" := Appended(old(GetHeader("Set-Cookie")),
        HScalar(SStr(serialize(name, CookieValue(value, options.signed, secret.UnwrapOr(""), stringify, sign),
                               SerializeOptionsFor(options, now)))))]
      ensures statusCode == old(statusCode) && headersSent == old(headersSent) && finished == old(finished) && body == old(body)
    {
      HeaderNames();
      if options.signed && (secret.None? || secret.value == "") {
        return Fail(SignedCookieError);
      }
      var val := CookieValue(value, options.signed, secret.UnwrapOr(""), stringify, sign);
      var opts := SerializeOptionsFor(options, now);
      r := AppendHeader("Set-Cookie", HScalar(SStr(serialize(name, val, opts))));
    }

    method ClearCookie(name: string, options: CookieOptions, secret: Option<string>, now: int,
                       stringify: JsValue -> string, sign: (string, string) -> string,
                       serialize: (string, string, SerializeOptions) -> string)
      returns (r: Outcome<string>)
      modifies this
      ensures r.Fail? <==> (options.signed && (secret.None? || secret.value == "")) || old(headersSent)
      ensures r.Fail? ==> Untouched()
      ensures r.Fail? ==> r.error == if options.signed && (secret.None? || secret.value == "") then SignedCookieError else HeadersSentError("set")
      ensures r.Pass? ==> headers == old(headers)["set-cookie" := Appended(old(GetHeader("Set-Cookie")),
        HScalar(SStr(serialize(name, CookieValue(JStr(""), options.signed, secret.UnwrapOr(""), stringify, sign),
                               SerializeOptionsFor(ClearCookieOptions(options), now)))))]
      ensures statusCode == old(statusCode) && headersSent == old(headersSent) && finished == old(finished) && body == old(body)
    {
      r := Cookie(name, JStr(""), ClearCookieOptions(options), secret, now, stringify, sign, serialize);
    }

    /** `render`, given what the template engine produced: the HTML is sent,
      * with an HTML content type unless one is set. A failure of the engine,
      * or of that `setHeader` on a sent head, is handed back for
      * `ctx.next(err)` and the response is left alone. */
    method Render(rendered: Result<string, Reason>) returns (nextErr: Option<Reason>)
      modifies this
      ensures rendered.Failure? ==> nextErr == Some(rendered.error) && Untouched()
      ensures rendered.Success? && old(headersSent) && !HeaderTruthy(old(GetHeader("Content-Type"))) ==>
        nextErr == Some(HeadersSentReason) && Untouched()
      ensures rendered.Success? && (!old(headersSent) || HeaderTruthy(old(GetHeader("Content-Type")))) ==>
        nextErr.None? && finished && headersSent && statusCode == old(statusCode) &&
        body == (if old(finished) then old(body) else old(body) + rendered.value)
      ensures rendered.Success? && !old(headersSent) && !HeaderTruthy(old(GetHeader("Content-Type"))) ==>
        headers == old(headers)["content-type" := HScalar(SStr("text/html; charset=utf-8"))]
      ensures rendered.Success? && HeaderTruthy(old(GetHeader("Content-Type"))) ==> headers == old(headers)
    {
      HeaderNames();
      if rendered.Failure? {
        return Some(rendered.error);
      }
      var ct := GetHeader("Content-Type");
      if !HeaderTruthy(ct) {
        var typed := SetHeader("Content-Type", HScalar(SStr("text/html; charset=utf-8")));
        if typed.Fail? {
          return Some(HeadersSentReason);
        }
      }
      End(rendered.value);
      nextErr := None;
    }
  }

  /** Headers set one after another: later pairs win, names compared in lower case. */
  function SetAll(headers: map<string, HeaderValue>, pairs: seq<(string, HeaderValue)>): (r: map<string, HeaderValue>)
    ensures forall i :: 0 <= i < |pairs| ==> Lower(pairs[i].0) in r
    ensures forall k :: k in headers ==> k in r
  {
    if pairs == [] then headers
    else SetAll(headers, pairs[..|pairs| - 1])[Lower(pairs[|pairs| - 1].0) := pairs[|pairs| - 1].1]
  }
}
