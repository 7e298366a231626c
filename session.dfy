/** The session middleware: the session id taken from the request's cookie
  * or newly generated, the per-request session instance that loads, saves
  * and refreshes its data through a store, the session cookie's options,
  * and the in-memory store with expiry. */
module Session {
  import opened Wrappers
  import opened Values
  import opened Resp
  import Req
  import Ctx

  /** Session data: a plain object. */
  type Data = map<string, JsValue>

  // ---------------------------------------------------------------------
  // Options

  const DefaultName := "web.sid"
  const DefaultMaxAge := 0
  /** `DEFAULT_COOKIE`: path "/" and HTTP only. */
  const DefaultCookie := CookieOptions(false, None, None, Some("/"), None, Some(true), None)

  /** What the caller passes; `None` is a key the caller left out. The store
    * and the id generator are not options here: the instance records its
    * store calls, and the middleware is given the id the generator returns. */
  datatype SessionOptions = SessionOptions(name: Option<string>, cookie: Option<CookieOptions>, maxAge: Option<int>)

  /** The options after `{ ...DEFAULT_OPTIONS, ...options }`, with the cookie's
    * `maxAge` overwritten by the session's. */
  datatype Resolved = Resolved(name: string, cookie: CookieOptions, maxAge: int)

  function Resolve(o: SessionOptions): (r: Resolved)
    ensures r.name == (if o.name.Some? then o.name.value else DefaultName)
    ensures r.maxAge == (if o.maxAge.Some? then o.maxAge.value else DefaultMaxAge)
    ensures r.cookie.maxAge == Some(r.maxAge)
    ensures o.cookie.Some? ==> r.cookie == o.cookie.value.(maxAge := Some(r.maxAge))
    ensures o.cookie.None? ==> r.cookie == DefaultCookie.(maxAge := Some(r.maxAge))
  {
    var maxAge := if o.maxAge.Some? then o.maxAge.value else DefaultMaxAge;
    var cookie := if o.cookie.Some? then o.cookie.value else DefaultCookie;
    Resolved(if o.name.Some? then o.name.value else DefaultName, cookie.(maxAge := Some(maxAge)), maxAge)
  }

  /** `new Cookie(options)`: the defaults are spread last, so the path is
    * always "/" and the cookie always HTTP only; every other option is kept. */
  function CookieOf(options: CookieOptions): (r: CookieOptions)
    ensures r.path == Some("/") && r.httpOnly == Some(true)
    ensures r.signed == options.signed && r.maxAge == options.maxAge && r.expires == options.expires
    ensures r.domain == options.domain && r.secure == options.secure
  {
    options.(path := DefaultCookie.path, httpOnly := DefaultCookie.httpOnly)
  }

  /** The cookies the session id is read from: the signed ones when the
    * cookie is signed. */
  function CookieSlot(r: Resolved): (s: Req.Slot)
    ensures r.cookie.signed <==> s == Req.SignedCookies
    ensures !r.cookie.signed <==> s == Req.Cookies
  {
    if r.cookie.signed then Req.SignedCookies else Req.Cookies
  }

  /** The session id a request carries: a non-empty string under the
    * cookie's name. */
  function CurrentSid(cookies: map<string, JsValue>, name: string): (r: Option<string>)
    ensures r.Some? <==> name in cookies && cookies[name].JStr? && cookies[name].s != ""
    ensures r.Some? ==> cookies[name] == JStr(r.value)
  {
    if name in cookies && cookies[name].JStr? && cookies[name].s != "" then Some(cookies[name].s) else None
  }

  /** `currentSid || genid(ctx)`. */
  function ChooseSid(current: Option<string>, generated: string): (sid: string)
    ensures current.Some? ==> sid == current.value
    ensures current.None? ==> sid == generated
  {
    if current.Some? then current.value else generated
  }

  // ---------------------------------------------------------------------
  // The session instance

  /** A request made to the store. */
  datatype StoreCall =
    | GetCall(sid: string)
    | SetCall(sid: string, data: Data, maxAge: int)
    | DestroyCall(sid: string)
    | TouchCall(sid: string, maxAge: int)

  /** What `save` asks of the store: a refresh when the data hashes as it did
    * when it was loaded, a full write otherwise. */
  function SaveCall(id: string, data: Data, loadedHash: string, maxAge: int, hash: Data -> string): (c: StoreCall)
    ensures c.TouchCall? <==> hash(data) == loadedHash
    ensures c.SetCall? <==> hash(data) != loadedHash
    ensures c.sid == id && c.maxAge == maxAge
    ensures c.SetCall? ==> c.data == data
  {
    if hash(data) == loadedHash then TouchCall(id, maxAge) else SetCall(id, data, maxAge)
  }

  /** After a reload the data is unchanged until someone assigns it, so
    * saving it only refreshes the stored copy. */
  lemma SaveAfterReloadTouches(id: string, loaded: Data, maxAge: int, hash: Data -> string)
    ensures SaveCall(id, loaded, hash(loaded), maxAge, hash) == TouchCall(id, maxAge)
  {
  }

  class SessionInstance {
    const request: Req.Request
    const id: string
    const cookieName: string
    const maxAge: int
    /** `cookie.options`. */
    const cookie: CookieOptions
    /** `getDataHash`, the CRC-32 of the data's JSON text. */
    const hash: Data -> string
    /** `_data`. */
    var data: Data
    /** `_hash`: the hash of the data as last loaded. */
    var loadedHash: string
    /** The store calls made so far, oldest first. */
    var calls: seq<StoreCall>

    /** `ctx.request.session` is the instance's data. */
    predicate Mirrored()
      reads this, request
    {
      request.Has(Req.Session) && request.Get(Req.Session) == data
    }

    constructor(request: Req.Request, id: string, options: Resolved, hash: Data -> string)
      ensures this.request == request && this.id == id && this.hash == hash
      ensures cookieName == options.name && maxAge == options.maxAge && cookie == CookieOf(options.cookie)
      ensures data == map[] && loadedHash == "" && calls == []
    {
      this.request := request;
      this.id := id;
      cookieName := options.name;
      maxAge := options.maxAge;
      cookie := CookieOf(options.cookie);
      this.hash := hash;
      data := map[];
      loadedHash := "";
      calls := [];
    }

    /** The `data` setter: the request's session is the same data. */
    method SetData(v: Data)
      modifies this`data, request
      ensures data == v && Mirrored()
      ensures request.slots == old(request.slots)[Req.Session := v]
      ensures request.rawUrl == old(request.rawUrl) && request.pathname == old(request.pathname)
      ensures request.prams == old(request.prams) && request.headers == old(request.headers)
      ensures request.httpMethod == old(request.httpMethod) && request.originalUrl == old(request.originalUrl)
    {
      data := v;
      request.Set(Req.Session, v);
    }

    method Destroy()
      modifies this`calls
      ensures calls == old(calls) + [DestroyCall(id)]
    {
      calls := calls + [DestroyCall(id)];
    }

    /** `regenerate`: the stored data destroyed, then, once the store has
      * answered, the data emptied; the id stays. A store failure leaves the
      * data as it was. */
    method Regenerate(destroyed: Outcome<string>)
      modifies this`calls, this`data, request
      ensures calls == old(calls) + [DestroyCall(id)]
      ensures destroyed.Pass? ==> data == map[] && Mirrored() && request.slots == old(request.slots)[Req.Session := map[]]
      ensures destroyed.Fail? ==> data == old(data) && request.slots == old(request.slots)
      ensures old(Mirrored()) ==> Mirrored()
      ensures request.rawUrl == old(request.rawUrl) && request.pathname == old(request.pathname)
      ensures request.prams == old(request.prams) && request.headers == old(request.headers)
      ensures request.httpMethod == old(request.httpMethod) && request.originalUrl == old(request.originalUrl)
    {
      Destroy();
      if destroyed.Pass? {
        SetData(map[]);
      }
    }

    /** `reload`: the stored data fetched and, once the store has answered,
      * taken as the data, with its hash remembered. A store failure leaves
      * both as they were. */
    method Reload(stored: Result<Data, string>) returns (r: Outcome<string>)
      modifies this`calls, this`data, this`loadedHash, request
      ensures calls == old(calls) + [GetCall(id)]
      ensures stored.Success? ==> r.Pass? && data == stored.value && loadedHash == hash(stored.value) && Mirrored()
      ensures stored.Success? ==> request.slots == old(request.slots)[Req.Session := stored.value]
      ensures stored.Failure? ==> r == Fail(stored.error) && data == old(data) && loadedHash == old(loadedHash)
      ensures stored.Failure? ==> request.slots == old(request.slots)
      ensures request.rawUrl == old(request.rawUrl) && request.pathname == old(request.pathname)
      ensures request.prams == old(request.prams) && request.headers == old(request.headers)
      ensures request.httpMethod == old(request.httpMethod) && request.originalUrl == old(request.originalUrl)
    {
      calls := calls + [GetCall(id)];
      if stored.Failure? {
        return Fail(stored.error);
      }
      SetData(stored.value);
      loadedHash := hash(stored.value);
      r := Pass;
    }

    /** `save`: only a refresh when the data hashes as it was loaded. */
    method Save()
      modifies this`calls
      ensures calls == old(calls) + [SaveCall(id, data, loadedHash, maxAge, hash)]
    {
      var h := hash(data);
      if h == loadedHash {
        Touch();
      } else {
        ForceSave();
      }
    }

    method ForceSave()
      modifies this`calls
      ensures calls == old(calls) + [SetCall(id, data, maxAge)]
    {
      calls := calls + [SetCall(id, data, maxAge)];
    }

    method Touch()
      modifies this`calls
      ensures calls == old(calls) + [TouchCall(id, maxAge)]
    {
      calls := calls + [TouchCall(id, maxAge)];
    }

    /** The hook run before the response head is written: the session cookie
      * set, then the session saved. A cookie that cannot be set (signed
      * without a secret, or a head already sent, which the server's hook
      * order rules out) throws before the save. */
    method BeforeWriteHead(res: Resp.Response, secret: Option<string>, now: int,
                           stringify: JsValue -> string, sign: (string, string) -> string,
                           serialize: (string, string, SerializeOptions) -> string)
      returns (r: Outcome<string>)
      modifies res, this`calls
      ensures r.Fail? <==> (cookie.signed && (secret.None? || secret.value == "")) || old(res.headersSent)
      ensures r.Fail? ==> r.error == if cookie.signed && (secret.None? || secret.value == "") then SignedCookieError else HeadersSentError("set")
      ensures r.Pass? ==> res.headers == old(res.headers)["set-cookie" := Appended(old(res.GetHeader("Set-Cookie")),
        HScalar(SStr(serialize(cookieName, CookieValue(JStr(id), cookie.signed, secret.UnwrapOr(""), stringify, sign),
                               SerializeOptionsFor(cookie, now)))))]
      ensures r.Pass? ==> calls == old(calls) + [SaveCall(id, data, loadedHash, maxAge, hash)]
      ensures r.Fail? ==> calls == old(calls) && res.headers == old(res.headers)
      ensures res.statusCode == old(res.statusCode) && res.headersSent == old(res.headersSent)
      ensures res.finished == old(res.finished) && res.body == old(res.body)
    {
      r := res.Cookie(cookieName, JStr(id), cookie, secret, now, stringify, sign, serialize);
      if r.Pass? {
        Save();
      }
    }
  }

  /** The middleware for one request: the session id chosen, the instance
    * attached to the context with `{}` as the request's session, the stored
    * data loaded when the request carried an id, then the write-head hook
    * registered and `next` called. A failed load rejects the handler before
    * the hook and `next`. `generated` is what the id generator returns for
    * this request, `stored` what the store answers to a load, `slot` the
    * number the context knows the instance by. */
  method Handle(options: Resolved, ctx: Ctx.Context, generated: string, hash: Data -> string,
                stored: Result<Data, string>, slot: nat)
    returns (sess: SessionInstance, r: Outcome<string>, called: Option<Ctx.NextHandle>)
    requires ctx.request != null
    modifies ctx, ctx.request
    ensures var current := CurrentSid(old(ctx.request.Get(CookieSlot(options))), options.name);
      sess.id == ChooseSid(current, generated) &&
      sess.calls == (if current.Some? then [GetCall(sess.id)] else []) &&
      (current.None? ==> r.Pass? && sess.data == map[]) &&
      (current.Some? ==> (r.Pass? <==> stored.Success?)) &&
      (current.Some? && stored.Success? ==> sess.data == stored.value && sess.loadedHash == hash(stored.value))
    ensures fresh(sess) && sess.request == ctx.request && sess.Mirrored() && sess.hash == hash
    ensures sess.cookieName == options.name && sess.maxAge == options.maxAge && sess.cookie == CookieOf(options.cookie)
    ensures ctx.sessionSlot == Some(slot) && ctx.nextHandleStack == old(ctx.nextHandleStack)
    ensures ctx.writeHeadListeners == old(ctx.writeHeadListeners) + (if r.Pass? then 1 else 0)
    ensures called == (if r.Pass? then Ctx.Top(ctx.nextHandleStack) else None)
    ensures ctx.request == old(ctx.request) && ctx.response == old(ctx.response)
    ensures ctx.errorListeners == old(ctx.errorListeners) && ctx.finishListeners == old(ctx.finishListeners)
    ensures ctx.forwardsFinish == old(ctx.forwardsFinish) && ctx.finishEvents == old(ctx.finishEvents)
    ensures ctx.request.slots == old(ctx.request.slots)[Req.Session := sess.data]
    ensures ctx.request.rawUrl == old(ctx.request.rawUrl) && ctx.request.pathname == old(ctx.request.pathname)
    ensures ctx.request.prams == old(ctx.request.prams) && ctx.request.headers == old(ctx.request.headers)
    ensures ctx.request.httpMethod == old(ctx.request.httpMethod) && ctx.request.originalUrl == old(ctx.request.originalUrl)
  {
    var request := ctx.request;
    var current := CurrentSid(request.Get(CookieSlot(options)), options.name);
    var sid := ChooseSid(current, generated);
    sess := new SessionInstance(request, sid, options, hash);
    ctx.AttachSession(slot);
    sess.SetData(sess.data);
    r := Pass;
    if current.Some? {
      r := sess.Reload(stored);
    }
    called := None;
    if r.Pass? {
      ctx.OnWriteHead();
      called := ctx.Next();
    }
  }

  // ---------------------------------------------------------------------
  // The in-memory store

  /** A stored value and the time (in milliseconds) it expires at. */
  datatype Entry<V> = Entry(expires: int, value: V)

  /** Whether an entry has expired at `now`: strictly past its time. */
  predicate Expired<V>(e: Entry<V>, now: int)
  {
    e.expires < now
  }

  /** `get` on the map: nothing for a missing id; nothing, and the entry
    * deleted, for an expired one; the value otherwise. */
  function Lookup<V>(m: map<string, Entry<V>>, sid: string, now: int): (r: (map<string, Entry<V>>, Option<V>))
    ensures r.1.Some? <==> sid in m && !Expired(m[sid], now)
    ensures r.1.Some? ==> r.1.value == m[sid].value && r.0 == m
    ensures r.1.None? ==> sid !in r.0 && (forall k :: k != sid ==> (k in r.0 <==> k in m))
    ensures forall k :: k in r.0 ==> k in m && r.0[k] == m[k]
    ensures sid !in m ==> r.0 == m
  {
    if sid !in m then (m, None)
    else if Expired(m[sid], now) then (m - {sid}, None)
    else (m, Some(m[sid].value))
  }

  /** `set`: the value stored, expiring `maxAge` after `now`. */
  function Store<V>(m: map<string, Entry<V>>, sid: string, v: V, maxAge: int, now: int): (r: map<string, Entry<V>>)
    ensures sid in r && r[sid] == Entry(now + maxAge, v)
    ensures forall k :: k != sid ==> (k in r <==> k in m) && (k in m ==> r[k] == m[k])
  {
    m[sid := Entry(now + maxAge, v)]
  }

  /** `destroy`. */
  function Remove<V>(m: map<string, Entry<V>>, sid: string): (r: map<string, Entry<V>>)
    ensures sid !in r
    ensures forall k :: k != sid ==> (k in r <==> k in m) && (k in m ==> r[k] == m[k])
  {
    m - {sid}
  }

  /** `touch`: the expiry of a stored entry pushed back by `maxAge`,
    * whether or not it has already expired; a missing id stays missing. */
  function Extend<V>(m: map<string, Entry<V>>, sid: string, maxAge: int): (r: map<string, Entry<V>>)
    ensures sid in r <==> sid in m
    ensures sid in m ==> r[sid] == Entry(m[sid].expires + maxAge, m[sid].value)
    ensures forall k :: k != sid ==> (k in r <==> k in m) && (k in m ==> r[k] == m[k])
  {
    if sid in m then m[sid := m[sid].(expires := m[sid].expires + maxAge)] else m
  }

  /** What was stored comes back until it expires, and nothing after. */
  lemma StoreThenLookup<V>(m: map<string, Entry<V>>, sid: string, v: V, maxAge: int, now: int, later: int)
    ensures later <= now + maxAge ==> Lookup(Store(m, sid, v, maxAge, now), sid, later) == (Store(m, sid, v, maxAge, now), Some(v))
    ensures later > now + maxAge ==> Lookup(Store(m, sid, v, maxAge, now), sid, later).1.None?
  {
  }

  /** After `destroy` a lookup finds nothing and changes nothing. */
  lemma RemoveThenLookup<V>(m: map<string, Entry<V>>, sid: string, now: int)
    ensures Lookup(Remove(m, sid), sid, now) == (Remove(m, sid), None)
  {
  }

  /** A refresh of `maxAge` at any time before the entry runs out keeps it
    * alive for `maxAge` more: stored at `now`, refreshed at or before its
    * expiry, it is still found up to `maxAge` after that. */
  lemma StoreExtendLookup<V>(m: map<string, Entry<V>>, sid: string, v: V, maxAge: int, now: int, later: int)
    ensures later <= now + 2 * maxAge ==>
      Lookup(Extend(Store(m, sid, v, maxAge, now), sid, maxAge), sid, later).1 == Some(v)
  {
  }

  /** Looking up one id leaves every other id's entry as it was. */
  lemma LookupKeepsOthers<V>(m: map<string, Entry<V>>, sid: string, other: string, now: int)
    requires other != sid && other in m
    ensures other in Lookup(m, sid, now).0 && Lookup(m, sid, now).0[other] == m[other]
  {
  }

  /** `SessiionMemoryStore`: the data kept as given, by session id. */
  class MemoryStore {
    var entries: map<string, Entry<Data>>

    constructor()
      ensures entries == map[]
    {
      entries := map[];
    }

    method Get(sid: string, now: int) returns (r: Data)
      modifies this
      ensures entries == Lookup(old(entries), sid, now).0
      ensures r == Lookup(old(entries), sid, now).1.UnwrapOr(map[])
    {
      if sid !in entries {
        return map[];
      }
      var e := entries[sid];
      if e.expires < now {
        entries := entries - {sid};
        return map[];
      }
      r := e.value;
    }

    method Set(sid: string, data: Data, maxAge: int, now: int)
      modifies this
      ensures entries == Store(old(entries), sid, data, maxAge, now)
    {
      var expires := now + maxAge;
      entries := entries[sid := Entry(expires, data)];
    }

    method Destroy(sid: string)
      modifies this
      ensures entries == Remove(old(entries), sid)
    {
      entries := entries - {sid};
    }

    method Touch(sid: string, maxAge: int)
      modifies this
      ensures entries == Extend(old(entries), sid, maxAge)
    {
      if sid in entries {
        var e := entries[sid];
        entries := entries[sid := e.(expires := e.expires + maxAge)];
      }
    }

    /** A store call, as the memory store carries it out at `now`; a load
      * answers with the data found. */
    method Apply(c: StoreCall, now: int) returns (r: Data)
      modifies this
      ensures c.GetCall? ==> entries == Lookup(old(entries), c.sid, now).0 && r == Lookup(old(entries), c.sid, now).1.UnwrapOr(map[])
      ensures c.SetCall? ==> entries == Store(old(entries), c.sid, c.data, c.maxAge, now) && r == map[]
      ensures c.DestroyCall? ==> entries == Remove(old(entries), c.sid) && r == map[]
      ensures c.TouchCall? ==> entries == Extend(old(entries), c.sid, c.maxAge) && r == map[]
    {
      r := map[];
      match c
      case GetCall(sid) => r := Get(sid, now);
      case SetCall(sid, data, maxAge) => Set(sid, data, maxAge, now);
      case DestroyCall(sid) => Destroy(sid);
      case TouchCall(sid, maxAge) => Touch(sid, maxAge);
    }
  }
}
