/** The request wrapper: the URL and its path (which middleware may rewrite
  * independently), case-insensitive header lookup, and the optional values
  * that middleware attach to the request (route parameters, body, files,
  * cookies, signed cookies, session data). */
module Req {
  import opened Wrappers
  import opened Text
  import opened Values

  /** The pathname that the legacy URL parser gives for a request target in
    * origin form, as far as this model goes: the text before the first "?"
    * or "#", or nothing when that text is empty. The parser's trimming,
    * backslash rewriting and percent-escaping are not part of it. */
  function PathnameOf(url: string): (r: Option<string>)
    ensures r.Some? ==> r.value != [] && IsPrefix(r.value, url)
    ensures r.Some? ==> '?' !in r.value && '#' !in r.value
  {
    var cut := PathEnd(url, 0);
    if cut == 0 then None else Some(url[..cut])
  }

  function PathEnd(url: string, i: nat): (e: nat)
    requires i <= |url|
    ensures i <= e <= |url|
    ensures forall k :: i <= k < e ==> url[k] != '?' && url[k] != '#'
    ensures e == |url| || url[e] == '?' || url[e] == '#'
    decreases |url| - i
  {
    if i == |url| || url[i] == '?' || url[i] == '#' then i else PathEnd(url, i + 1)
  }

  /** The values middleware attach to the request besides the route parameters. */
  datatype Slot = Body | Files | Cookies | SignedCookies | Session

  /** What the dispatcher reads and writes: method, URL, path and parameters. */
  datatype ReqView = ReqView(httpMethod: string, url: string, path: string, params: map<string, string>)

  class Request {
    var httpMethod: string
    /** The raw request's `url`, which may be missing. */
    var rawUrl: Option<string>
    var originalUrl: Option<string>
    /** The parsed URL's `pathname`. */
    var pathname: Option<string>
    /** Incoming headers, names in lower case as the server delivers them. */
    var headers: map<string, string>
    /** Route parameters, in the raw request's (misspelt) `prams` property. */
    var prams: Option<map<string, string>>
    var slots: map<Slot, map<string, JsValue>>

    /** Records the original URL unless an outer layer already did, then parses the URL. */
    constructor(httpMethod: string, url: Option<string>, originalUrl: Option<string>, headers: map<string, string>)
      ensures this.httpMethod == httpMethod && rawUrl == url && this.headers == headers
      ensures this.originalUrl == if originalUrl.Some? && originalUrl.value != "" then originalUrl else url
      ensures pathname == PathnameOf(url.UnwrapOr(""))
      ensures prams.None? && slots == map[]
    {
      this.httpMethod := httpMethod;
      rawUrl := url;
      this.originalUrl := if originalUrl.Some? && originalUrl.value != "" then originalUrl else url;
      pathname := PathnameOf(url.UnwrapOr(""));
      this.headers := headers;
      prams := None;
      slots := map[];
    }

    function Url(): (r: string)
      reads this
      ensures rawUrl.Some? ==> r == rawUrl.value
      ensures rawUrl.None? ==> r == []
    {
      rawUrl.UnwrapOr("")
    }

    /** Setting the URL leaves the path as it was. */
    method SetUrl(value: string)
      modifies this
      ensures rawUrl == Some(value) && Url() == value
      ensures pathname == old(pathname) && prams == old(prams) && slots == old(slots)
      ensures httpMethod == old(httpMethod) && headers == old(headers) && originalUrl == old(originalUrl)
    {
      rawUrl := Some(value);
    }

    function Path(): (r: string)
      reads this
      ensures pathname.Some? ==> r == pathname.value
      ensures pathname.None? ==> r == []
    {
      pathname.UnwrapOr("")
    }

    /** Setting the path leaves the URL as it was. */
    method SetPath(value: string)
      modifies this
      ensures pathname == Some(value) && Path() == value
      ensures rawUrl == old(rawUrl) && prams == old(prams) && slots == old(slots)
      ensures httpMethod == old(httpMethod) && headers == old(headers) && originalUrl == old(originalUrl)
    {
      pathname := Some(value);
    }

    function GetHeader(name: string): (r: Option<string>)
      reads this
      ensures r.Some? <==> Lower(name) in headers
      ensures r.Some? ==> r.value == headers[Lower(name)]
    {
      if Lower(name) in headers then Some(headers[Lower(name)]) else None
    }

    /** The parameters, `{}` when none were set. */
    function Params(): (r: map<string, string>)
      reads this
      ensures prams.None? ==> r == map[]
      ensures prams.Some? ==> r == prams.value
    {
      prams.UnwrapOr(map[])
    }

    predicate HasParams()
      reads this
    {
      prams.Some?
    }

    method SetParams(value: map<string, string>)
      modifies this
      ensures prams == Some(value) && HasParams() && Params() == value
      ensures rawUrl == old(rawUrl) && pathname == old(pathname) && slots == old(slots)
      ensures httpMethod == old(httpMethod) && headers == old(headers) && originalUrl == old(originalUrl)
    {
      prams := Some(value);
    }

    /** `body`, `files`, `cookies`, `signedCookies`, `session`: `{}` when unset. */
    function Get(slot: Slot): (r: map<string, JsValue>)
      reads this
      ensures slot !in slots ==> r == map[]
      ensures slot in slots ==> r == slots[slot]
    {
      if slot in slots then slots[slot] else map[]
    }

    predicate Has(slot: Slot)
      reads this
    {
      slot in slots
    }

    method Set(slot: Slot, value: map<string, JsValue>)
      modifies this
      ensures slots == old(slots)[slot := value] && Has(slot) && Get(slot) == value
      ensures forall other :: other != slot ==> Get(other) == old(Get(other)) && (Has(other) <==> old(Has(other)))
      ensures rawUrl == old(rawUrl) && pathname == old(pathname) && prams == old(prams)
      ensures httpMethod == old(httpMethod) && headers == old(headers) && originalUrl == old(originalUrl)
    {
      slots := slots[slot := value];
    }

    function View(): (v: ReqView)
      reads this
      ensures v.httpMethod == httpMethod && v.url == Url() && v.path == Path() && v.params == Params()
    {
      ReqView(httpMethod, Url(), Path(), Params())
    }
  }
}
