/** The file-based backend: a `Queue` over the spool directory every
    queue shares. Every exception inside `read` and `write` is swallowed,
    so a failing call returns None (and `write` does not return True). */
module FileBased {
  import opened Values
  import opened KeyValue
  import LinkedList

  class Queue {
    const conn: Store
    const backend: string
    const name: string

    /** The view of the store as a list: the node labels and the messages,
        most recent first. The store is shared, so the entries that are not
        this list's are whatever the store holds besides its keys, and a
        change another queue makes to them keeps this queue valid. */
    ghost var Labels: seq<string>
    ghost var Contents: seq<Value>

    ghost function Others(): Entries
      reads this, conn
    {
      LinkedList.Foreign(conn.entries, name, Labels)
    }

    ghost predicate Valid()
      reads this, conn
    {
      LinkedList.Represents(conn.entries, name, Others(), Labels, Contents)
    }

    /** `Queue(name)` over the spool directory `spool`, which every queue
        object shares: resets the head to None and the counter to 0 in it,
        keeping every other file. */
    constructor (name: string, spool: Store)
      modifies spool
      ensures this.name == name && backend == "filebased" && conn == spool
      ensures spool.entries == LinkedList.InitStore(old(spool.entries), name)
      ensures Valid() && Contents == []
      ensures Others() == old(spool.entries) - {LinkedList.HeadKey(name), LinkedList.LenKey(name)}
    {
      conn := spool;
      backend := "filebased";
      this.name := name;
      new;
      ghost var before := spool.entries;
      LinkedList.Init(spool, name);
      Labels, Contents := [], [];
      LinkedList.InitRepresents(before, name);
      LinkedList.OthersDetermined(conn.entries, name, before - {LinkedList.HeadKey(name), LinkedList.LenKey(name)}, [], []);
    }

    /** `read()`: the payload of the head node, or None when the list is
        empty or any step fails. On a valid list it pops the top message. */
    method Read() returns (v: Value)
      modifies this, conn
      ensures var step := LinkedList.ReadStep(old(conn.entries), name);
        conn.entries == step.store && v == (if step.out.Ok? then step.out.value else Nil)
      ensures old(Valid()) ==> Valid() && Others() == old(Others())
      ensures old(Valid()) && old(Contents) == [] ==>
        v == Nil && Contents == [] && conn.entries == old(conn.entries)
      ensures old(Valid()) && old(Contents) != [] ==>
        v == old(Contents[0]) && Contents == old(Contents[1..])
    {
      ghost var valid := Valid();
      var r := LinkedList.Read(conn, name);
      v := if r.Ok? then r.value else Nil;
      if valid {
        ghost var others := old(Others());
        if Labels == [] {
          LinkedList.ReadEmpty(old(conn.entries), name, others);
        } else {
          LinkedList.ReadPreserves(old(conn.entries), name, others, Labels, Contents);
          Labels, Contents := Labels[1..], Contents[1..];
          LinkedList.OthersDetermined(conn.entries, name, others, Labels, Contents);
        }
      }
    }

    /** `write(message)`, `uid` being the string `uuid1()` produced: True
        on success, None when any step fails. On a valid list, with a fresh
        non-empty label, it succeeds and pushes the message. */
    method Write(message: Value, uid: string) returns (v: Value)
      modifies this, conn
      ensures var step := LinkedList.WriteStep(old(conn.entries), name, uid, message);
        conn.entries == step.store && v == (if step.out.Ok? then step.out.value else Nil)
      ensures old(Valid()) && uid != "" && LinkedList.NodeKey(name, uid) !in old(conn.entries) ==>
        v == Bool(true) && Valid() && Others() == old(Others()) && Contents == [message] + old(Contents)
    {
      ghost var valid := Valid() && uid != "" && LinkedList.NodeKey(name, uid) !in conn.entries;
      var r := LinkedList.Write(conn, name, message, uid);
      v := if r.Ok? then r.value else Nil;
      if valid {
        ghost var others := old(Others());
        LinkedList.WritePreserves(old(conn.entries), name, others, Labels, Contents, uid, message);
        Labels, Contents := [uid] + Labels, [message] + Contents;
        LinkedList.OthersDetermined(conn.entries, name, others, Labels, Contents);
      }
    }

    /** `__len__()`: the stored counter, or None when it cannot be read. On
        a valid list it is the number of messages. */
    method Len() returns (v: Value)
      ensures LinkedList.LenKey(name) in conn.entries ==> v == conn.entries[LinkedList.LenKey(name)]
      ensures LinkedList.LenKey(name) !in conn.entries ==> v == Nil
      ensures Valid() ==> v == Int(|Contents|)
    {
      var r := LinkedList.Len(conn, name);
      v := if r.Ok? then r.value else Nil;
    }
  }


  /** Two queue objects of the same name over one spool: constructing the
      second resets the list the first one wrote to, so the first one's
      next read finds it empty. */
  method ReopenResets(spool: Store, name: string, message: Value, uid: string) returns (v: Value)
    modifies spool
    ensures v == Nil
  {
    var first := new Queue(name, spool);
    var written := first.Write(message, uid);
    var second := new Queue(name, spool);
    v := first.Read();
  }


  /** Two queue objects over one spool whose names differ (in characters,
      not in length) do not disturb each other: what the second does to the
      store leaves the first one's list intact, so its next read returns the
      message it wrote. */
  method SeparateQueues(spool: Store, a: string, b: string, x: Value, ua: string, y: Value, ub: string) returns (v: Value)
    requires |a| == |b| && a != b
    requires ua != "" && ua != "head" && ua != "len" && LinkedList.NodeKey(a, ua) !in spool.entries
    modifies spool
    ensures v == x
  {
    var qa := new Queue(a, spool);
    assert qa.Valid() && qa.Contents == [];
    assert LinkedList.NodeKey(a, ua) !in spool.entries;
    var wa := qa.Write(x, ua);
    assert qa.Valid() && qa.Contents == [x];
    ghost var before := spool.entries;
    var qb := new Queue(b, spool);
    var wb := qb.Write(y, ub);
    forall k | k in LinkedList.Own(a, qa.Labels) && k in before
      ensures k in spool.entries && spool.entries[k] == before[k]
    {
      LinkedList.NamesApart(a, b, qa.Labels, k);
    }
    LinkedList.ForeignChangeKeeps(before, spool.entries, a, LinkedList.Foreign(before, a, qa.Labels), qa.Labels, qa.Contents);
    v := qa.Read();
  }

  /** `delete_queue(name)` always raises NotImplementedError. */
  function DeleteQueue(name: string): (r: Result<Value>)
    ensures r.Err? && r.error == NotImplemented
  {
    Err(NotImplemented)
  }
}
