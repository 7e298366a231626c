/** The in-memory session store that keeps each session's data serialized:
  * the same expiry rules as the plain memory store, the text written by the
  * serializer on `set` and read back through the deserializer on `get`. */
module SessionMemory {
  import opened Wrappers
  import opened Values
  import opened Session

  /** What `get` resolves with, given what the lookup found: `{}` when
    * nothing was found, the deserialized text otherwise; a deserializer
    * that throws rejects the promise. */
  function Loaded(found: Option<string>, deserialize: string -> Result<Data, string>): (r: Result<Data, string>)
    ensures found.None? ==> r == Success(map[])
    ensures found.Some? ==> r == deserialize(found.value)
  {
    if found.None? then Success(map[]) else deserialize(found.value)
  }

  /** `SessionMemoryStore`. The serializer pair is a parameter: the
    * module-wide `DEFAULT_SESSION_SERIALIZE`/`DEFAULT_SESSION_DESERIALIZE`
    * are not part of this model. */
  class SerializedStore {
    const serialize: Data -> string
    const deserialize: string -> Result<Data, string>
    var entries: map<string, Entry<string>>

    constructor(serialize: Data -> string, deserialize: string -> Result<Data, string>)
      ensures this.serialize == serialize && this.deserialize == deserialize && entries == map[]
    {
      this.serialize := serialize;
      this.deserialize := deserialize;
      entries := map[];
    }

    method Get(sid: string, now: int) returns (r: Result<Data, string>)
      modifies this`entries
      ensures entries == Lookup(old(entries), sid, now).0
      ensures r == Loaded(Lookup(old(entries), sid, now).1, deserialize)
    {
      if sid !in entries {
        return Success(map[]);
      }
      var e := entries[sid];
      if e.expires < now {
        entries := entries - {sid};
        return Success(map[]);
      }
      r := deserialize(e.value);
    }

    method Set(sid: string, data: Data, maxAge: int, now: int)
      modifies this`entries
      ensures entries == Store(old(entries), sid, serialize(data), maxAge, now)
    {
      var expires := now + maxAge;
      entries := entries[sid := Entry(expires, serialize(data))];
    }

    method Destroy(sid: string)
      modifies this`entries
      ensures entries == Remove(old(entries), sid)
    {
      entries := entries - {sid};
    }

    method Touch(sid: string, maxAge: int)
      modifies this`entries
      ensures entries == Extend(old(entries), sid, maxAge)
    {
      if sid in entries {
        var e := entries[sid];
        entries := entries[sid := e.(expires := e.expires + maxAge)];
      }
    }
  }

  /** Data set at `now` is read back before its expiry as the deserializer
    * makes of its serialized text, and so exactly as it was whenever the
    * pair round-trips; after its expiry it reads as `{}`. */
  lemma SetThenGet(m: map<string, Entry<string>>, sid: string, data: Data, maxAge: int, now: int, later: int,
                   serialize: Data -> string, deserialize: string -> Result<Data, string>)
    ensures later <= now + maxAge ==>
      Loaded(Lookup(Store(m, sid, serialize(data), maxAge, now), sid, later).1, deserialize) == deserialize(serialize(data))
    ensures later <= now + maxAge && deserialize(serialize(data)) == Success(data) ==>
      Loaded(Lookup(Store(m, sid, serialize(data), maxAge, now), sid, later).1, deserialize) == Success(data)
    ensures later > now + maxAge ==>
      Loaded(Lookup(Store(m, sid, serialize(data), maxAge, now), sid, later).1, deserialize) == Success(map[])
  {
    StoreThenLookup(m, sid, serialize(data), maxAge, now, later);
  }

  /** After `destroy`, `get` resolves with `{}`. */
  lemma DestroyThenGet(m: map<string, Entry<string>>, sid: string, now: int, deserialize: string -> Result<Data, string>)
    ensures Loaded(Lookup(Remove(m, sid), sid, now).1, deserialize) == Success(map[])
  {
    RemoveThenLookup(m, sid, now);
  }
}
