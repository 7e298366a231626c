/** The Redis session store: each session kept under the key prefix plus its
  * id, written with SETEX, refreshed with EXPIRE and removed with DEL, with
  * times converted from milliseconds to whole seconds, rounding up. */
module SessionRedis {
  import opened Wrappers
  import opened Values
  import opened RedisCommand
  import opened Session
  import SimpleRedis

  const DefaultPrefix := "sess:"

  /** `msToS`: `Math.ceil(ms / 1000)`, the whole seconds that cover `ms`. */
  function MsToS(ms: int): (s: int)
    ensures 1000 * (s - 1) < ms <= 1000 * s
    ensures ms >= 0 ==> s >= 0
  {
    -((-ms) / 1000)
  }

  /** The ceiling is the unique whole number of seconds that covers `ms`
    * without a spare second. */
  lemma MsToSUnique(ms: int, s: int)
    requires 1000 * (s - 1) < ms <= 1000 * s
    ensures s == MsToS(ms)
  {
  }

  /** A whole number of seconds converts exactly. */
  lemma MsToSOfSeconds(k: int)
    ensures MsToS(1000 * k) == k
  {
    MsToSUnique(1000 * k, k);
  }

  /** `options.prefix || DEFAULT_REDIS_PREFIX`: an empty prefix is replaced. */
  function KeyPrefix(prefix: Option<string>): (p: string)
    ensures p != ""
    ensures prefix.Some? && prefix.value != "" ==> p == prefix.value
    ensures prefix.None? || prefix.value == "" ==> p == DefaultPrefix
  {
    if prefix.Some? && prefix.value != "" then prefix.value else DefaultPrefix
  }

  /** `getKey`. */
  function Key(prefix: string, sid: string): (k: string)
    ensures |k| == |prefix| + |sid| && k[..|prefix|] == prefix && k[|prefix|..] == sid
  {
    prefix + sid
  }

  /** Distinct sessions never share a key. */
  lemma KeyInjective(prefix: string, a: string, b: string)
    requires Key(prefix, a) == Key(prefix, b)
    ensures a == b
  {
    assert a == Key(prefix, a)[|prefix|..];
  }

  /** The store's options: its own, and the Redis client's for the client
    * it builds when none is given. */
  datatype StoreOptions = StoreOptions(
    prefix: Option<string>,
    redis: ClientOptions,
    serialize: Option<Data -> string>,
    deserialize: Option<JsValue -> Result<Data, string>>)

  /** What `get` resolves with once the client has called back: a client
    * error rejects; otherwise the reply deserialized, where a throwing
    * deserializer rejects too. */
  function Loaded(answer: Answer, deserialize: JsValue -> Result<Data, string>): (r: Result<Data, string>)
    ensures answer.Failed? ==> r == Failure(answer.message)
    ensures answer.Replied? ==> r == deserialize(answer.value)
  {
    match answer
    case Failed(message) => Failure(message)
    case Replied(value) => deserialize(value)
  }

  /** What `set`, `destroy` and `touch` resolve with: a client error rejects,
    * any reply resolves. */
  function Written(answer: Answer): (r: Outcome<string>)
    ensures r.Fail? <==> answer.Failed?
    ensures answer.Failed? ==> r.error == answer.message
  {
    if answer.Failed? then Fail(answer.message) else Pass
  }

  /** `SessionRedisStore`. The client is the lazily connecting Redis client;
    * the default serializer pair is a parameter. */
  class RedisStore {
    const keyPrefix: string
    const client: SimpleRedis.Client
    const serialize: Data -> string
    const deserialize: JsValue -> Result<Data, string>

    ghost predicate Valid()
      reads this, client, client.parser
    {
      client.Valid()
    }

    /** The prefix, client and serializer pair, each the given one or the
      * default; without a client, a new one built from the options. */
    constructor(options: StoreOptions, given: SimpleRedis.Client?,
                defaultSerialize: Data -> string, defaultDeserialize: JsValue -> Result<Data, string>)
      requires given != null ==> given.Valid()
      ensures Valid()
      ensures keyPrefix == KeyPrefix(options.prefix)
      ensures given != null ==> client == given
      ensures given == null ==> fresh(client) && client.settings == RedisCommand.Resolve(options.redis) && client.callbacks == []
      ensures serialize == options.serialize.UnwrapOr(defaultSerialize)
      ensures deserialize == options.deserialize.UnwrapOr(defaultDeserialize)
    {
      keyPrefix := KeyPrefix(options.prefix);
      if given != null {
        client := given;
      } else {
        client := new SimpleRedis.Client(options.redis);
      }
      serialize := options.serialize.UnwrapOr(defaultSerialize);
      deserialize := options.deserialize.UnwrapOr(defaultDeserialize);
    }

    /** `get`: GET of the session's key; `callback` is the one the promise
      * waits on (see `Loaded`). */
    method Get(sid: string, callback: nat)
      requires Valid()
      modifies client
      ensures Valid() && client.Queued(CommandLine(GetCommand(Key(keyPrefix, sid))), callback)
    {
      client.Get(Key(keyPrefix, sid), callback);
    }

    /** `set`: SETEX of the session's key for the whole seconds covering
      * `maxAge`, with the serialized data (see `Written`). */
    method Set(sid: string, data: Data, maxAge: int, callback: nat)
      requires Valid()
      modifies client
      ensures Valid() && client.Queued(CommandLine(SetexCommand(Key(keyPrefix, sid), MsToS(maxAge), serialize(data))), callback)
    {
      client.Setex(Key(keyPrefix, sid), MsToS(maxAge), serialize(data), callback);
    }

    /** `destroy`: DEL of the session's key. */
    method Destroy(sid: string, callback: nat)
      requires Valid()
      modifies client
      ensures Valid() && client.Queued(CommandLine(DelCommand(Key(keyPrefix, sid))), callback)
    {
      client.Del(Key(keyPrefix, sid), callback);
    }

    /** `touch`: EXPIRE of the session's key for the whole seconds covering `maxAge`. */
    method Touch(sid: string, maxAge: int, callback: nat)
      requires Valid()
      modifies client
      ensures Valid() && client.Queued(CommandLine(ExpireCommand(Key(keyPrefix, sid), MsToS(maxAge))), callback)
    {
      client.Expire(Key(keyPrefix, sid), MsToS(maxAge), callback);
    }
  }
}
