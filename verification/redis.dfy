/** The key-value store with expiry that holds sessions, reduced to its contract:
    each key holds a string value and the lifetime in seconds it was set with.
    Expiry itself is the store's business and is not modelled. */
module Redis {
  import opened Values

  datatype Entry = Entry(value: string, ttl: nat)

  class Store {
    var entries: map<string, Entry>

    constructor ()
      ensures entries == map[]
    {
      entries := map[];
    }

    /** `get(key)`: the value held under the key; a missing key (and a client
        error, which resolves with no value) reads as nothing. */
    method Get(key: string) returns (v: Option<string>)
      ensures v.Some? <==> key in entries
      ensures v.Some? ==> v.value == entries[key].value
    {
      v := if key in entries then Some(entries[key].value) else None;
    }

    /** `set(key, value, duration)`: SETEX, which replaces whatever the key held. */
    method SetEx(key: string, value: string, duration: nat)
      modifies this
      ensures entries == old(entries)[key := Entry(value, duration)]
    {
      entries := entries[key := Entry(value, duration)];
    }

    /** `del(key)`: the key is gone, every other key is kept. */
    method Del(key: string)
      modifies this
      ensures entries == old(entries) - {key}
    {
      entries := entries - {key};
    }
  }
}
