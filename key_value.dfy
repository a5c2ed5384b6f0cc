/** The key-value store the queue is built on: a map from keys to values
    reached only through `set`, `get` and `delete`. `FileBasedSpool` keeps
    one file per key in a spool directory; the memcache `Client` keeps the
    same entries on a server. Both are this map here. */
module KeyValue {
  import opened Values

  type Entries = map<string, Value>

  /** `get(key)`: the stored value, or a failure when the key is absent. */
  function Lookup(m: Entries, key: string): (r: Result<Value>)
    ensures r.Ok? <==> key in m
    ensures r.Ok? ==> r.value == m[key]
    ensures r.Err? ==> r.error == Missing(key)
  {
    if key in m then Ok(m[key]) else Err(Missing(key))
  }

  /** `delete(key)`: the entries without `key`, or a failure when the key
      is absent (removing a file that does not exist raises). */
  function Remove(m: Entries, key: string): (r: Result<Entries>)
    ensures r.Ok? <==> key in m
    ensures r.Ok? ==> r.value.Keys == m.Keys - {key}
    ensures r.Ok? ==> forall k :: k in r.value ==> r.value[k] == m[k]
    ensures r.Err? ==> r.error == Missing(key)
  {
    if key in m then Ok(m - {key}) else Err(Missing(key))
  }

  /** A `get` after a `set` of the same key yields the value set. */
  lemma GetAfterSet(m: Entries, key: string, v: Value)
    ensures Lookup(m[key := v], key) == Ok(v)
  {
  }

  /** A `set` leaves every other key as it was. */
  lemma SetKeepsOthers(m: Entries, key: string, v: Value, other: string)
    requires other != key
    ensures Lookup(m[key := v], other) == Lookup(m, other)
  {
  }

  /** A `delete` of a present key succeeds, after which `get` fails on it and
      every other key reads as before; a `delete` of an absent key fails and
      changes nothing. */
  lemma DeleteRemoves(m: Entries, key: string, other: string)
    requires other != key
    ensures key in m ==> Remove(m, key).Ok? && Lookup(Remove(m, key).value, key) == Err(Missing(key))
    ensures key in m ==> Lookup(Remove(m, key).value, other) == Lookup(m, other)
    ensures key !in m ==> Remove(m, key) == Err(Missing(key))
  {
  }

  /** The store object: `FileBasedSpool` (or the memcache `Client`) bound to
      a spool directory whose files are `entries`. */
  class Store {
    var entries: Entries

    /** Binds to a spool that already holds `contents`. */
    constructor (contents: Entries)
      ensures entries == contents
    {
      entries := contents;
    }

    /** `set(key, value)`: writes (or overwrites) one entry. */
    method Set(key: string, value: Value)
      modifies this
      ensures entries == old(entries)[key := value]
    {
      entries := entries[key := value];
    }

    /** `get(key)`: changes nothing. */
    method Get(key: string) returns (r: Result<Value>)
      ensures r.Ok? <==> key in entries
      ensures r.Ok? ==> r.value == entries[key]
      ensures r.Err? ==> r.error == Missing(key)
    {
      r := Lookup(entries, key);
    }

    /** `delete(key)`: removes one entry, failing when it is absent. */
    method Delete(key: string) returns (r: Result<()>)
      modifies this
      ensures r.Ok? <==> key in old(entries)
      ensures r.Ok? ==> entries == old(entries) - {key}
      ensures r.Err? ==> entries == old(entries) && r.error == Missing(key)
    {
      var removed := Remove(entries, key);
      if removed.Ok? {
        entries := removed.value;
        r := Ok(());
      } else {
        r := Err(removed.error);
      }
    }
  }
}
