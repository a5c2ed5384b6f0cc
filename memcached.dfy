/** The memcache backend: a `Queue` over a memcache `Client`, given here the
    same store as the spool. `read` and `write` re-raise every exception, so
    a failing call reaches the caller as an error. */
module Memcached {
  import opened Values
  import opened KeyValue
  import LinkedList

  class Queue {
    const conn: Store
    const backend: string
    const name: string

    /** The view of the store as a list: the node labels and the messages,
        most recent first. The store is shared, so the entries that are not
        this list's are whatever the store holds besides its keys, and a
        change another queue makes to them keeps this queue valid. */
    ghost var Labels: seq<string>
    ghost var Contents: seq<Value>

    ghost function Others(): Entries
      reads this, conn
    {
      LinkedList.Foreign(conn.entries, name, Labels)
    }

    ghost predicate Valid()
      reads this, conn
    {
      LinkedList.Represents(conn.entries, name, Others(), Labels, Contents)
    }

    /** `Queue(name)` over the memcache server `cache`, which every queue
        object shares: resets the head to None and the counter to 0 in it,
        keeping every other entry. */
    constructor (name: string, cache: Store)
      modifies cache
      ensures this.name == name && backend == "memcached" && conn == cache
      ensures cache.entries == LinkedList.InitStore(old(cache.entries), name)
      ensures Valid() && Contents == []
      ensures Others() == old(cache.entries) - {LinkedList.HeadKey(name), LinkedList.LenKey(name)}
    {
      conn := cache;
      backend := "memcached";
      this.name := name;
      new;
      ghost var before := cache.entries;
      LinkedList.Init(cache, name);
      Labels, Contents := [], [];
      LinkedList.InitRepresents(before, name);
      LinkedList.OthersDetermined(conn.entries, name, before - {LinkedList.HeadKey(name), LinkedList.LenKey(name)}, [], []);
    }

    /** `read()`: the payload of the head node, None when the list is
        empty, or the error of the step that failed. */
    method Read() returns (r: Result<Value>)
      modifies this, conn
      ensures LinkedList.Step(r, conn.entries) == LinkedList.ReadStep(old(conn.entries), name)
      ensures old(Valid()) ==> Valid() && Others() == old(Others()) && r.Ok?
      ensures old(Valid()) && old(Contents) == [] ==>
        r == Ok(Nil) && Contents == [] && conn.entries == old(conn.entries)
      ensures old(Valid()) && old(Contents) != [] ==>
        r == Ok(old(Contents[0])) && Contents == old(Contents[1..])
    {
      ghost var valid := Valid();
      r := LinkedList.Read(conn, name);
      if valid {
        ghost var others := old(Others());
        if Labels == [] {
          LinkedList.ReadEmpty(old(conn.entries), name, others);
        } else {
          LinkedList.ReadPreserves(old(conn.entries), name, others, Labels, Contents);
          Labels, Contents := Labels[1..], Contents[1..];
          LinkedList.OthersDetermined(conn.entries, name, others, Labels, Contents);
        }
      }
    }

    /** `write(message)`, `uid` being the string `uuid1()` produced: True
        on success, or the error of the step that failed. */
    method Write(message: Value, uid: string) returns (r: Result<Value>)
      modifies this, conn
      ensures LinkedList.Step(r, conn.entries) == LinkedList.WriteStep(old(conn.entries), name, uid, message)
      ensures old(Valid()) && uid != "" && LinkedList.NodeKey(name, uid) !in old(conn.entries) ==>
        r == Ok(Bool(true)) && Valid() && Others() == old(Others()) && Contents == [message] + old(Contents)
    {
      ghost var valid := Valid() && uid != "" && LinkedList.NodeKey(name, uid) !in conn.entries;
      r := LinkedList.Write(conn, name, message, uid);
      if valid {
        ghost var others := old(Others());
        LinkedList.WritePreserves(old(conn.entries), name, others, Labels, Contents, uid, message);
        Labels, Contents := [uid] + Labels, [message] + Contents;
        LinkedList.OthersDetermined(conn.entries, name, others, Labels, Contents);
      }
    }

    /** `__len__()`: the stored counter, or the error of reading it. On a
        valid list it is the number of messages. */
    method Len() returns (r: Result<Value>)
      ensures r.Ok? <==> LinkedList.LenKey(name) in conn.entries
      ensures r.Ok? ==> r.value == conn.entries[LinkedList.LenKey(name)]
      ensures r.Err? ==> r.error == Missing(LinkedList.LenKey(name))
      ensures Valid() ==> r == Ok(Int(|Contents|))
    {
      r := LinkedList.Len(conn, name);
    }
  }


  /** Two queue objects of the same name over one server: constructing the
      second resets the list the first one wrote to, so the first one's
      next read succeeds with None. */
  method ReopenResets(cache: Store, name: string, message: Value, uid: string) returns (r: Result<Value>)
    modifies cache
    ensures r == Ok(Nil)
  {
    var first := new Queue(name, cache);
    var written := first.Write(message, uid);
    var second := new Queue(name, cache);
    r := first.Read();
  }


  /** Two queue objects over one server whose names differ (in characters,
      not in length) do not disturb each other: what the second does to the
      store leaves the first one's list intact, so its next read returns the
      message it wrote. */
  method SeparateQueues(cache: Store, a: string, b: string, x: Value, ua: string, y: Value, ub: string) returns (r: Result<Value>)
    requires |a| == |b| && a != b
    requires ua != "" && ua != "head" && ua != "len" && LinkedList.NodeKey(a, ua) !in cache.entries
    modifies cache
    ensures r == Ok(x)
  {
    var qa := new Queue(a, cache);
    assert qa.Valid() && qa.Contents == [];
    assert LinkedList.NodeKey(a, ua) !in cache.entries;
    var wa := qa.Write(x, ua);
    assert qa.Valid() && qa.Contents == [x];
    ghost var before := cache.entries;
    var qb := new Queue(b, cache);
    var wb := qb.Write(y, ub);
    forall k | k in LinkedList.Own(a, qa.Labels) && k in before
      ensures k in cache.entries && cache.entries[k] == before[k]
    {
      LinkedList.NamesApart(a, b, qa.Labels, k);
    }
    LinkedList.ForeignChangeKeeps(before, cache.entries, a, LinkedList.Foreign(before, a, qa.Labels), qa.Labels, qa.Contents);
    r := qa.Read();
  }

  /** `delete_queue(name)` always raises NotImplementedError: the memcache
      protocol offers no way to enumerate and drop a queue's entries. */
  function DeleteQueue(name: string): (r: Result<Value>)
    ensures r.Err? && r.error == NotImplemented
  {
    Err(NotImplemented)
  }
}
