/** The CORS middleware (the CORS protocol of section 3.2 of the WHATWG Fetch
  * Standard, response side): options checked and turned into a fixed list
  * of response headers once, then, for a request whose `Origin` is allowed
  * (any origin, or one whose host is on the list), that origin echoed in
  * `Access-Control-Allow-Origin` together with the fixed headers; `next` is
  * called in every case. */
module Cors {
  import opened Wrappers
  import opened Text
  import opened Values
  import opened Resp
  import Req
  import Ctx
  import Router

  const MaxAgeHeader := "Access-Control-Max-Age"
  const CredentialsHeader := "Access-Control-Allow-Credentials"
  const AllowHeadersHeader := "Access-Control-Allow-Headers"
  const AllowMethodsHeader := "Access-Control-Allow-Methods"
  const AllowOriginHeader := "Access-Control-Allow-Origin"
  /** The key `setHeader(AllowOriginHeader, ...)` stores under (AllowOriginName). */
  const AllowOriginKey := "access-control-allow-origin"

  /** The options a caller passes; `None` is a key left out. Values are
    * whatever the caller wrote, since the middleware checks their types. */
  datatype CorsOptions = CorsOptions(
    domain: Option<JsValue>, any: Option<JsValue>, headers: Option<seq<(string, HeaderValue)>>,
    maxAge: Option<JsValue>, credentials: Option<JsValue>,
    allowHeaders: Option<JsValue>, allowMethods: Option<JsValue>)

  const NoOptions := CorsOptions(None, None, None, None, None, None, None)

  /** The two default lists of `DEFAULT_CORS_OPTIONS`. */
  datatype Defaults = Defaults(allowHeaders: seq<string>, allowMethods: seq<string>)

  const MethodList := ["PUT", "POST", "GET", "HEAD", "DELETE", "OPTIONS", "TRACE"]
  const HeaderList := ["Origin", "X-Requested-With", "Content-Type", "Content-Length", "Accept", "Authorization", "Cookie"]

  /** The defaults as written: the method names are the default for the
    * allowed headers and the header names the default for the allowed
    * methods. */
  const AsWrittenDefaults := Defaults(MethodList, HeaderList)

  /** The defaults the option names call for. */
  const IntendedDefaults := Defaults(HeaderList, MethodList)

  function Strings(ss: seq<string>): (r: seq<JsValue>)
    ensures |r| == |ss| && forall i :: 0 <= i < |ss| ==> r[i] == JStr(ss[i])
  {
    if ss == [] then [] else [JStr(ss[0])] + Strings(ss[1..])
  }

  /** An array element as `join` writes it: null and undefined as "". */
  function ItemText(v: JsValue): string
  {
    if v.JNull? || v.JUndefined? then "" else ToJsString(v)
  }

  function ItemTexts(items: seq<JsValue>): (r: seq<string>)
    ensures |r| == |items| && forall i :: 0 <= i < |items| ==> r[i] == ItemText(items[i])
  {
    if items == [] then [] else [ItemText(items[0])] + ItemTexts(items[1..])
  }

  /** `items.join(", ")`. */
  function JoinList(items: seq<JsValue>): string
  {
    Join(ItemTexts(items), ", ")
  }

  /** The value `name` has in a header list: the first pair with that name. */
  function Find(hs: seq<(string, HeaderValue)>, name: string): Option<HeaderValue>
  {
    if hs == [] then None else if hs[0].0 == name then Some(hs[0].1) else Find(hs[1..], name)
  }

  /** `opts.headers[name] = value`: an existing property keeps its place,
    * a new one goes last. */
  function Put(hs: seq<(string, HeaderValue)>, name: string, v: HeaderValue): (r: seq<(string, HeaderValue)>)
    ensures Find(r, name) == Some(v)
    ensures forall n :: n != name ==> Find(r, n) == Find(hs, n)
    ensures |r| == |hs| + (if Find(hs, name).None? then 1 else 0)
  {
    if hs == [] then [(name, v)]
    else if hs[0].0 == name then [(name, v)] + hs[1..]
    else [hs[0]] + Put(hs[1..], name, v)
  }

  /** The middleware as built: any origin, or the listed hosts, and the
    * headers every allowed response gets. */
  datatype Cors = Cors(any: bool, domain: seq<JsValue>, headers: seq<(string, HeaderValue)>)

  function TextValue(s: string): HeaderValue { HScalar(SStr(s)) }

  /** `cors(options)`: the options over the defaults, checked, and the four
    * fixed headers added to the extra ones. A truthy `any` must be `true`;
    * otherwise `domain` must be an array; `credentials` must be a boolean;
    * both lists must be arrays. */
  function Build(o: CorsOptions, d: Defaults): (r: Result<Cors, string>)
    ensures var any := o.any.UnwrapOr(JBool(false));
      (Truthy(any) && any != JBool(true) ==> r == Failure("invalid 'any' option: must be true"))
    ensures var any := o.any.UnwrapOr(JBool(false)); var domain := o.domain.UnwrapOr(JArr([]));
      (!Truthy(any) && !domain.JArr? ==> r == Failure("invalid 'domain' option: must be an array"))
    ensures r.Success? <==>
      var any := o.any.UnwrapOr(JBool(false)); var domain := o.domain.UnwrapOr(JArr([]));
      (if Truthy(any) then any == JBool(true) else domain.JArr?) &&
      o.credentials.UnwrapOr(JBool(true)).JBool? &&
      o.allowHeaders.UnwrapOr(JArr(Strings(d.allowHeaders))).JArr? &&
      o.allowMethods.UnwrapOr(JArr(Strings(d.allowMethods))).JArr?
    ensures r.Success? ==> var c := r.value;
      c.any == Truthy(o.any.UnwrapOr(JBool(false))) &&
      (!c.any ==> JArr(c.domain) == o.domain.UnwrapOr(JArr([]))) &&
      Find(c.headers, MaxAgeHeader) == Some(TextValue(ToJsString(o.maxAge.UnwrapOr(JNum(0))))) &&
      Find(c.headers, CredentialsHeader) == Some(TextValue(if o.credentials.UnwrapOr(JBool(true)).b then "true" else "false")) &&
      Find(c.headers, AllowHeadersHeader) == Some(TextValue(JoinList(o.allowHeaders.UnwrapOr(JArr(Strings(d.allowHeaders))).items))) &&
      Find(c.headers, AllowMethodsHeader) == Some(TextValue(JoinList(o.allowMethods.UnwrapOr(JArr(Strings(d.allowMethods))).items)))
    ensures r.Success? ==> forall n :: n != MaxAgeHeader && n != CredentialsHeader && n != AllowHeadersHeader && n != AllowMethodsHeader ==>
      Find(r.value.headers, n) == Find(o.headers.UnwrapOr([]), n)
  {
    var any := o.any.UnwrapOr(JBool(false));
    var domain := o.domain.UnwrapOr(JArr([]));
    var credentials := o.credentials.UnwrapOr(JBool(true));
    var allowHeaders := o.allowHeaders.UnwrapOr(JArr(Strings(d.allowHeaders)));
    var allowMethods := o.allowMethods.UnwrapOr(JArr(Strings(d.allowMethods)));
    if Truthy(any) && any != JBool(true) then Failure("invalid 'any' option: must be true")
    else if !Truthy(any) && !domain.JArr? then Failure("invalid 'domain' option: must be an array")
    else
      var h1 := Put(o.headers.UnwrapOr([]), MaxAgeHeader, TextValue(ToJsString(o.maxAge.UnwrapOr(JNum(0)))));
      if !credentials.JBool? then Failure("invalid 'credentials' option: must be true or false")
      else
        var h2 := Put(h1, CredentialsHeader, TextValue(if credentials.b then "true" else "false"));
        if !allowHeaders.JArr? then Failure("invalid 'allowHeaders' option: must be an array")
        else
          var h3 := Put(h2, AllowHeadersHeader, TextValue(JoinList(allowHeaders.items)));
          if !allowMethods.JArr? then Failure("invalid 'allowMethods' option: must be an array")
          else
            var h4 := Put(h3, AllowMethodsHeader, TextValue(JoinList(allowMethods.items)));
            Success(Cors(Truthy(any), if Truthy(any) then [] else domain.items, h4))
  }

  /** The request's `Origin`, when it has a non-empty one. */
  function Origin(headers: map<string, string>): (r: Option<string>)
    ensures r.Some? <==> "origin" in headers && headers["origin"] != ""
    ensures r.Some? ==> r.value == headers["origin"]
  {
    if "origin" in headers && headers["origin"] != "" then Some(headers["origin"]) else None
  }

  /** Whether a request from `origin` is answered with CORS headers.
    * `hostOf` is the `host` that `url.parse` finds in a URL. */
  predicate Allowed(c: Cors, origin: Option<string>, hostOf: string -> Option<string>)
  {
    origin.Some? && (c.any || JStr(hostOf(origin.value).UnwrapOr("")) in c.domain)
  }

  lemma AllowOriginName()
    ensures Lower(AllowOriginHeader) == AllowOriginKey
  {
    var s, t := AllowOriginHeader, AllowOriginKey;
    forall i | 0 <= i < |s| ensures LowerChar(s[i]) == t[i] {}
    LowerIs(s, t);
  }

  /** The headers an allowed response ends up with: the origin echoed, then
    * the fixed ones over it. */
  function Answered(c: Cors, headers: map<string, HeaderValue>, origin: string): map<string, HeaderValue>
  {
    SetAll(headers[AllowOriginKey := TextValue(origin)], c.headers)
  }

  /** The handler `cors` returns: for an allowed origin, the origin echoed
    * and the fixed headers set; nothing set otherwise; then `next`. On a
    * sent head the first `setHeader` throws, so nothing is set and `next`
    * is not called. */
  method Handle(c: Cors, ctx: Ctx.Context, hostOf: string -> Option<string>)
    returns (r: Outcome<string>, called: Option<Ctx.NextHandle>)
    requires ctx.request != null && ctx.response != null
    modifies ctx.response
    ensures r.Fail? <==> Allowed(c, Origin(old(ctx.request.headers)), hostOf) && old(ctx.response.headersSent)
    ensures r.Fail? ==> r.error == HeadersSentError("set") && called.None? && ctx.response.headers == old(ctx.response.headers)
    ensures var origin := Origin(old(ctx.request.headers));
      (Allowed(c, origin, hostOf) && r.Pass? ==> ctx.response.headers == Answered(c, old(ctx.response.headers), origin.value))
    ensures !Allowed(c, Origin(old(ctx.request.headers)), hostOf) ==> ctx.response.headers == old(ctx.response.headers)
    ensures ctx.response.statusCode == old(ctx.response.statusCode) && ctx.response.body == old(ctx.response.body)
    ensures ctx.response.headersSent == old(ctx.response.headersSent) && ctx.response.finished == old(ctx.response.finished)
    ensures r.Pass? ==> called == Ctx.Top(ctx.nextHandleStack)
  {
    var origin := Origin(ctx.request.headers);
    r := Pass;
    if Allowed(c, origin, hostOf) {
      r := Answer(c, ctx.response, origin.value);
      if r.Fail? {
        return r, None;
      }
    }
    called := ctx.Next();
  }

  /** An allowed origin: `setHeader` of the origin, then of each fixed header. */
  method Answer(c: Cors, res: Response, origin: string) returns (r: Outcome<string>)
    modifies res
    ensures r.Fail? <==> old(res.headersSent)
    ensures r.Fail? ==> r.error == HeadersSentError("set") && res.headers == old(res.headers)
    ensures r.Pass? ==> res.headers == Answered(c, old(res.headers), origin)
    ensures res.statusCode == old(res.statusCode) && res.body == old(res.body)
    ensures res.headersSent == old(res.headersSent) && res.finished == old(res.finished)
  {
    AllowOriginName();
    r := res.SetHeader(AllowOriginHeader, TextValue(origin));
    if r.Pass? {
      r := res.SetHeaders(c.headers);
    }
  }

  /** With no `Origin`, whatever the options, nothing is set. */
  lemma NoOriginNoHeaders(c: Cors, headers: map<string, string>, hostOf: string -> Option<string>)
    requires "origin" !in headers
    ensures !Allowed(c, Origin(headers), hostOf)
  {
  }

  /** In `any` mode every request with an origin is allowed; in list mode
    * exactly those whose host is listed. */
  lemma AllowedIff(c: Cors, origin: string, hostOf: string -> Option<string>)
    requires origin != ""
    ensures c.any ==> Allowed(c, Some(origin), hostOf)
    ensures !c.any ==> (Allowed(c, Some(origin), hostOf) <==> JStr(hostOf(origin).UnwrapOr("")) in c.domain)
  {
  }

  /** An HTTP method the router registers handlers for. */
  predicate IsMethodName(s: string)
  {
    exists v :: v != Router.All && Router.VerbName(v) == s
  }

  /** As written, the default `Access-Control-Allow-Methods` is the list of
    * header names, which starts with "Origin", not a method. */
  lemma AsWrittenAllowMethods()
    ensures var r := Build(NoOptions, AsWrittenDefaults);
      r.Success? && Find(r.value.headers, AllowMethodsHeader) == Some(TextValue(JoinList(Strings(HeaderList))))
    ensures HeaderList[0] == "Origin"
  {
  }

  /** "Origin" names no method the router knows. */
  lemma OriginIsNoMethod()
    ensures !IsMethodName("Origin")
  {
    forall v: Router.Verb ensures Router.VerbName(v) != "Origin" {
      var n := Router.VerbName(v);
      if |n| == 6 {
        assert n[1] != 'r';
      }
    }
  }

  /** With the defaults the option names call for, the default allowed
    * methods are the method list and the default allowed headers the
    * header names. */
  lemma IntendedAllowLists()
    ensures var r := Build(NoOptions, IntendedDefaults);
      r.Success? && Find(r.value.headers, AllowMethodsHeader) == Some(TextValue(JoinList(Strings(MethodList)))) &&
      Find(r.value.headers, AllowHeadersHeader) == Some(TextValue(JoinList(Strings(HeaderList))))
  {
  }

  /** Every name on the method list is one the router registers handlers for. */
  lemma MethodListAreVerbs()
    ensures forall i :: 0 <= i < |MethodList| ==> IsMethodName(MethodList[i])
  {
    var verbs := [Router.Put, Router.Post, Router.Get, Router.Head, Router.Delete, Router.Options, Router.Trace];
    forall i | 0 <= i < |MethodList| ensures IsMethodName(MethodList[i]) {
      assert Router.VerbName(verbs[i]) == MethodList[i];
    }
  }
}
