/** The list algorithm both backends run over their store: a singly linked
    list of nodes `<name>_<label> = (message, next label or None)` whose first
    label is kept in `<name>_head` and whose node count is kept in
    `<name>_len`. Every write pushes a node in front of the head and every
    read pops the head node, so the "queue" is a stack.

    Each operation is given twice: as a function on the store's entries
    (the net effect of its fixed sequence of `get`, `set` and `delete` calls,
    including the state a failing call leaves behind) and as a method that
    makes those calls on a `Store`, proved to have that effect. */
module LinkedList {
  import opened Values
  import opened KeyValue

  /** `'%s_head' % name`: the key holding the label of the top node. */
  function HeadKey(name: string): (r: string)
    ensures |r| == |name| + 5 && r[..|name|] == name && r[|name|..] == "_head"
  {
    name + "_head"
  }

  /** `'%s_len' % name`: the key holding the node count. */
  function LenKey(name: string): (r: string)
    ensures |r| == |name| + 4 && r[..|name|] == name && r[|name|..] == "_len"
    ensures r != HeadKey(name)
  {
    var k := name + "_len";
    assert k[|name| + 1] == 'l' != HeadKey(name)[|name| + 1];
    k
  }

  /** `'%s_%s' % (name, label)`: the key of a node. It is the head key or
      the counter key exactly when the label is "head" or "len". */
  function NodeKey(name: string, uid: string): (r: string)
    ensures |r| == |name| + 1 + |uid| && r[..|name|] == name && r[|name| + 1..] == uid
    ensures r == HeadKey(name) <==> uid == "head"
    ensures r == LenKey(name) <==> uid == "len"
  {
    var k := name + "_" + uid;
    assert k[..|name|] == name && k[|name| + 1..] == uid;
    assert HeadKey(name)[|name| + 1..] == "head" && LenKey(name)[|name| + 1..] == "len";
    k
  }

  /** What one operation returns (or raises) and the entries it leaves. */
  datatype Step = Step(out: Result<Value>, store: Entries)

  /* ---------------------------------------------------------------- */
  /* The operations as functions on the entries                        */
  /* ---------------------------------------------------------------- */

  /** Construction: the head becomes None and the counter 0, whatever the
      store held under those keys; nothing else changes. */
  function InitStore(s: Entries, name: string): (r: Entries)
    ensures r.Keys == s.Keys + {HeadKey(name), LenKey(name)}
    ensures r[HeadKey(name)] == Nil && r[LenKey(name)] == Int(0)
    ensures forall k :: k in s && k != HeadKey(name) && k != LenKey(name) ==> r[k] == s[k]
  {
    s[HeadKey(name) := Nil][LenKey(name) := Int(0)]
  }

  /** `write(message)` with `uid` as the generated node label (the `uuid1()` string): reads the
      head, stores the node `(message, head)`, reads the counter, stores it
      plus one and points the head at the new node. */
  function WriteStep(s: Entries, name: string, uid: string, message: Value): (r: Step)
    ensures r.out.Ok? ==> r.out.value == Bool(true)
    ensures r.store.Keys <= s.Keys + {NodeKey(name, uid)}
    ensures r.out.Err? ==> r.store == s || (HeadKey(name) in s && r.store == s[NodeKey(name, uid) := Pair(message, s[HeadKey(name)])])
    ensures forall k :: k in s && k != HeadKey(name) && k != LenKey(name) && k != NodeKey(name, uid) ==>
      k in r.store && r.store[k] == s[k]
  {
    match Lookup(s, HeadKey(name))
    case Err(e) => Step(Err(e), s)
    case Ok(head) =>
      var withNode := s[NodeKey(name, uid) := Pair(message, head)];
      match Lookup(withNode, LenKey(name))
      case Err(e) => Step(Err(e), withNode)
      case Ok(length) =>
        match Add(length, 1)
        case Err(e) => Step(Err(e), withNode)
        case Ok(longer) => Step(Ok(Bool(true)), withNode[LenKey(name) := longer][HeadKey(name) := Str(uid)])
  }

  /** `read()`: reads the head; a falsy head means the list is empty and the
      result is None; otherwise reads and unpacks the head node, reads the
      counter, stores it minus one, deletes the node and points the head at
      the node's successor. */
  function ReadStep(s: Entries, name: string): (r: Step)
    ensures r.out.Err? ==> r.store == s
    ensures r.store.Keys <= s.Keys
    ensures HeadKey(name) in s && !Truthy(s[HeadKey(name)]) ==> r == Step(Ok(Nil), s)
    ensures forall k ::
      (k in s && k != HeadKey(name) && k != LenKey(name) &&
       (HeadKey(name) in s ==> k != NodeKey(name, Text(s[HeadKey(name)])))) ==>
      k in r.store && r.store[k] == s[k]
  {
    match Lookup(s, HeadKey(name))
    case Err(e) => Step(Err(e), s)
    case Ok(head) =>
      if !Truthy(head) then Step(Ok(Nil), s)
      else
        var node := NodeKey(name, Text(head));
        match Lookup(s, node)
        case Err(e) => Step(Err(e), s)
        case Ok(cell) =>
          match Unpack(cell)
          case Err(e) => Step(Err(e), s)
          case Ok((value, next)) =>
            match Lookup(s, LenKey(name))
            case Err(e) => Step(Err(e), s)
            case Ok(length) =>
              match Add(length, -1)
              case Err(e) => Step(Err(e), s)
              case Ok(shorter) =>
                var counted := s[LenKey(name) := shorter];
                match Remove(counted, node)
                case Err(e) => Step(Err(e), counted)
                case Ok(unlinked) => Step(Ok(value), unlinked[HeadKey(name) := next])
  }

  /** `__len__()`: the stored counter, whatever it holds. */
  function LenStep(s: Entries, name: string): (r: Result<Value>)
    ensures r.Ok? <==> LenKey(name) in s
    ensures r.Ok? ==> r.value == s[LenKey(name)]
  {
    Lookup(s, LenKey(name))
  }

  /* ---------------------------------------------------------------- */
  /* The operations as calls on a store                                */
  /* ---------------------------------------------------------------- */

  method Init(conn: Store, name: string)
    modifies conn
    ensures conn.entries == InitStore(old(conn.entries), name)
  {
    conn.Set(HeadKey(name), Nil);
    conn.Set(LenKey(name), Int(0));
  }

  method Write(conn: Store, name: string, message: Value, uid: string) returns (r: Result<Value>)
    modifies conn
    ensures Step(r, conn.entries) == WriteStep(old(conn.entries), name, uid, message)
  {
    var head := conn.Get(HeadKey(name));
    if head.Err? {
      return Err(head.error);
    }
    conn.Set(NodeKey(name, uid), Pair(message, head.value));
    var length := conn.Get(LenKey(name));
    if length.Err? {
      return Err(length.error);
    }
    var longer := Add(length.value, 1);
    if longer.Err? {
      return Err(longer.error);
    }
    conn.Set(LenKey(name), longer.value);
    conn.Set(HeadKey(name), Str(uid));
    r := Ok(Bool(true));
  }

  method Read(conn: Store, name: string) returns (r: Result<Value>)
    modifies conn
    ensures Step(r, conn.entries) == ReadStep(old(conn.entries), name)
  {
    var head := conn.Get(HeadKey(name));
    if head.Err? {
      return Err(head.error);
    }
    if !Truthy(head.value) {
      return Ok(Nil);
    }
    var node := NodeKey(name, Text(head.value));
    var cell := conn.Get(node);
    if cell.Err? {
      return Err(cell.error);
    }
    var fields := Unpack(cell.value);
    if fields.Err? {
      return Err(fields.error);
    }
    var (value, next) := fields.value;
    var length := conn.Get(LenKey(name));
    if length.Err? {
      return Err(length.error);
    }
    var shorter := Add(length.value, -1);
    if shorter.Err? {
      return Err(shorter.error);
    }
    conn.Set(LenKey(name), shorter.value);
    var removed := conn.Delete(node);
    if removed.Ok? {
      conn.Set(HeadKey(name), next);
      r := Ok(value);
    } else {
      r := Err(Missing(node));
    }
  }

  method Len(conn: Store, name: string) returns (r: Result<Value>)
    ensures r.Ok? <==> LenKey(name) in conn.entries
    ensures r.Ok? ==> r.value == conn.entries[LenKey(name)]
    ensures r.Err? ==> r.error == Missing(LenKey(name))
  {
    r := conn.Get(LenKey(name));
  }

  /* ---------------------------------------------------------------- */
  /* The list invariant                                                */
  /* ---------------------------------------------------------------- */

  /** The head value of a list whose node labels are `labels`, first first. */
  function HeadOf(labels: seq<string>): Value {
    if labels == [] then Nil else Str(labels[0])
  }

  /** The node entries of a list: label `labels[i]` holds `msgs[i]` and links
      to `labels[i + 1]`, the last one to None. */
  function Nodes(name: string, labels: seq<string>, msgs: seq<Value>): Entries
    requires |labels| == |msgs|
  {
    if labels == [] then map[]
    else Nodes(name, labels[1..], msgs[1..])[NodeKey(name, labels[0]) := Pair(msgs[0], HeadOf(labels[1..]))]
  }

  /** The whole store when the list holds `msgs`: the entries `others` that
      do not belong to the list, the node entries, the head and the counter. */
  function Image(name: string, others: Entries, labels: seq<string>, msgs: seq<Value>): Entries
    requires |labels| == |msgs|
  {
    (others + Nodes(name, labels, msgs))[HeadKey(name) := HeadOf(labels)][LenKey(name) := Int(|labels|)]
  }

  /** The labels are non-empty (so the head tests true), pairwise distinct,
      and their node keys clash neither with the metadata keys nor with the
      entries outside the list. */
  ghost predicate WellFormed(name: string, others: Entries, labels: seq<string>, msgs: seq<Value>) {
    && |labels| == |msgs|
    && HeadKey(name) !in others && LenKey(name) !in others
    && (forall i :: 0 <= i < |labels| ==> labels[i] != "")
    && (forall i, j :: 0 <= i < j < |labels| ==> labels[i] != labels[j])
    && (forall i :: 0 <= i < |labels| ==>
          NodeKey(name, labels[i]) !in others
          && NodeKey(name, labels[i]) != HeadKey(name)
          && NodeKey(name, labels[i]) != LenKey(name))
  }

  /** `s` holds the list `msgs` (most recent first) under node labels
      `labels`, and besides the list's own keys exactly the entries `others`:
      the chain from the head has `len` nodes and ends in None, and the node
      keys in the store are exactly the chain's. */
  ghost predicate Represents(s: Entries, name: string, others: Entries, labels: seq<string>, msgs: seq<Value>) {
    WellFormed(name, others, labels, msgs) && s == Image(name, others, labels, msgs)
  }

  /** The keys of a list's nodes. */
  function NodeKeys(name: string, labels: seq<string>): set<string>
    decreases |labels|
  {
    if labels == [] then {} else {NodeKey(name, labels[0])} + NodeKeys(name, labels[1..])
  }

  /** Every key the list over `name` with node labels `labels` uses. */
  function Own(name: string, labels: seq<string>): set<string> {
    {HeadKey(name), LenKey(name)} + NodeKeys(name, labels)
  }

  /** The entries of `s` that do not belong to the list. */
  function Foreign(s: Entries, name: string, labels: seq<string>): Entries {
    map k | k in s && k !in Own(name, labels) :: s[k]
  }

  /* ---------------------------------------------------------------- */
  /* Lemmas                                                            */
  /* ---------------------------------------------------------------- */

  lemma NodeKeyInjective(name: string, a: string, b: string)
    ensures NodeKey(name, a) == NodeKey(name, b) ==> a == b
  {
    if NodeKey(name, a) == NodeKey(name, b) {
      assert a == NodeKey(name, a)[|name| + 1..];
      assert b == NodeKey(name, b)[|name| + 1..];
    }
  }

  lemma {:induction false} NodesAt(name: string, labels: seq<string>, msgs: seq<Value>, i: nat)
    requires |labels| == |msgs| && i < |labels|
    requires forall p, q :: 0 <= p < q < |labels| ==> labels[p] != labels[q]
    ensures NodeKey(name, labels[i]) in Nodes(name, labels, msgs)
    ensures Nodes(name, labels, msgs)[NodeKey(name, labels[i])] == Pair(msgs[i], HeadOf(labels[i + 1..]))
  {
    if i > 0 {
      NodesAt(name, labels[1..], msgs[1..], i - 1);
      assert labels[1..][i - 1] == labels[i];
      assert labels[1..][i - 1 + 1..] == labels[i + 1..];
      NodeKeyInjective(name, labels[0], labels[i]);
    }
  }

  lemma {:induction false} NodesAbsent(name: string, labels: seq<string>, msgs: seq<Value>, uid: string)
    requires |labels| == |msgs|
    requires uid !in labels
    ensures NodeKey(name, uid) !in Nodes(name, labels, msgs)
  {
    if labels != [] {
      NodesAbsent(name, labels[1..], msgs[1..], uid);
      NodeKeyInjective(name, labels[0], uid);
    }
  }

  lemma ImageAt(name: string, others: Entries, labels: seq<string>, msgs: seq<Value>, i: nat)
    requires WellFormed(name, others, labels, msgs) && i < |labels|
    ensures NodeKey(name, labels[i]) in Image(name, others, labels, msgs)
    ensures Image(name, others, labels, msgs)[NodeKey(name, labels[i])] == Pair(msgs[i], HeadOf(labels[i + 1..]))
  {
    NodesAt(name, labels, msgs, i);
  }

  /** Construction establishes the invariant for the empty list, whatever the
      store held, keeping every entry other than the head and the counter. */
  lemma InitRepresents(s: Entries, name: string)
    ensures Represents(InitStore(s, name), name, s - {HeadKey(name), LenKey(name)}, [], [])
  {
    assert InitStore(s, name) == Image(name, s - {HeadKey(name), LenKey(name)}, [], []);
  }

  /** The entries a successful write leaves, rearranged as the image of the
      longer list. */
  lemma WriteRearranges(o: Entries, n: Entries, h: string, l: string, k: string, x: Value, y: Value, v: Value, z: Value, w: Value)
    requires k != h && k != l && h != l
    ensures (o + n)[h := x][l := y][k := v][l := z][h := w] == (o + n[k := v])[h := w][l := z]
  {
  }

  /** The entries a successful read leaves, rearranged as the image of the
      shorter list. */
  lemma ReadRearranges(o: Entries, n: Entries, h: string, l: string, k: string, x: Value, y: Value, z: Value, w: Value)
    requires k != h && k != l && h != l && k !in o
    ensures ((o + n)[h := x][l := y][l := z] - {k})[h := w] == (o + (n - {k}))[h := w][l := z]
  {
  }

  /** Pushing a fresh, non-empty label keeps the list well formed. */
  lemma PushWellFormed(s: Entries, name: string, others: Entries, labels: seq<string>, msgs: seq<Value>, uid: string, message: Value)
    requires Represents(s, name, others, labels, msgs)
    requires uid != "" && NodeKey(name, uid) !in s
    ensures WellFormed(name, others, [uid] + labels, [message] + msgs)
  {
    var ls := [uid] + labels;
    forall i | 0 <= i < |labels|
      ensures labels[i] != uid
    {
      ImageAt(name, others, labels, msgs, i);
    }
    forall p, q | 0 <= p < q < |ls|
      ensures ls[p] != ls[q]
    {
      assert ls[q] == labels[q - 1];
      if p > 0 {
        assert ls[p] == labels[p - 1];
      }
    }
    forall i | 0 <= i < |ls|
      ensures ls[i] != ""
      ensures NodeKey(name, ls[i]) !in others
      ensures NodeKey(name, ls[i]) != HeadKey(name) && NodeKey(name, ls[i]) != LenKey(name)
    {
      if i > 0 {
        assert ls[i] == labels[i - 1];
      }
    }
  }

  /** Popping the head label keeps the list well formed. */
  lemma PopWellFormed(name: string, others: Entries, labels: seq<string>, msgs: seq<Value>)
    requires WellFormed(name, others, labels, msgs) && labels != []
    ensures WellFormed(name, others, labels[1..], msgs[1..])
    ensures labels[0] !in labels[1..]
  {
    var rest := labels[1..];
    forall i | 0 <= i < |rest|
      ensures rest[i] != labels[0]
      ensures rest[i] != ""
      ensures NodeKey(name, rest[i]) !in others
      ensures NodeKey(name, rest[i]) != HeadKey(name) && NodeKey(name, rest[i]) != LenKey(name)
    {
      assert rest[i] == labels[i + 1];
    }
    forall p, q | 0 <= p < q < |rest|
      ensures rest[p] != rest[q]
    {
      assert rest[p] == labels[p + 1] && rest[q] == labels[q + 1];
    }
  }

  /** A write under a fresh, non-empty label succeeds, returns True and
      pushes the message: the new node links to the previous head, the head
      moves to it, the counter grows by one and no other entry changes. */
  lemma WritePreserves(s: Entries, name: string, others: Entries, labels: seq<string>, msgs: seq<Value>, uid: string, message: Value)
    requires Represents(s, name, others, labels, msgs)
    requires uid != "" && NodeKey(name, uid) !in s
    ensures WellFormed(name, others, [uid] + labels, [message] + msgs)
    ensures WriteStep(s, name, uid, message) == Step(Ok(Bool(true)), Image(name, others, [uid] + labels, [message] + msgs))
  {
    PushWellFormed(s, name, others, labels, msgs, uid, message);
    var ls, ms := [uid] + labels, [message] + msgs;
    var node := NodeKey(name, uid);
    var n := Nodes(name, labels, msgs);
    var link := Pair(message, HeadOf(labels));
    assert ls[1..] == labels && ms[1..] == msgs;
    assert Nodes(name, ls, ms) == n[node := link];
    assert s[HeadKey(name)] == HeadOf(labels);
    assert s[node := link][LenKey(name)] == Int(|labels|);
    WriteRearranges(others, n, HeadKey(name), LenKey(name), node, HeadOf(labels), Int(|labels|), link, Int(|labels| + 1), Str(uid));
  }

  /** A read of a non-empty list returns the payload of the head node,
      deletes that node, points the head at its successor and lowers the
      counter by one; no other entry changes. */
  lemma ReadPreserves(s: Entries, name: string, others: Entries, labels: seq<string>, msgs: seq<Value>)
    requires Represents(s, name, others, labels, msgs) && labels != []
    ensures WellFormed(name, others, labels[1..], msgs[1..])
    ensures ReadStep(s, name) == Step(Ok(msgs[0]), Image(name, others, labels[1..], msgs[1..]))
  {
    PopWellFormed(name, others, labels, msgs);
    var node := NodeKey(name, labels[0]);
    ImageAt(name, others, labels, msgs, 0);
    NodesAbsent(name, labels[1..], msgs[1..], labels[0]);
    var rest := Nodes(name, labels[1..], msgs[1..]);
    assert Nodes(name, labels, msgs) - {node} == rest;
    assert s[HeadKey(name)] == Str(labels[0]);
    assert s[LenKey(name)] == Int(|labels|);
    ReadRearranges(others, Nodes(name, labels, msgs), HeadKey(name), LenKey(name), node,
                   Str(labels[0]), Int(|labels|), Int(|labels| - 1), HeadOf(labels[1..]));
  }

  /** A read of the empty list returns None and changes nothing, so reading
      an empty list again and again keeps returning None. */
  lemma ReadEmpty(s: Entries, name: string, others: Entries)
    requires Represents(s, name, others, [], [])
    ensures ReadStep(s, name) == Step(Ok(Nil), s)
  {
  }

  /** `__len__` reports the number of nodes on the list. */
  lemma LenReports(s: Entries, name: string, others: Entries, labels: seq<string>, msgs: seq<Value>)
    requires Represents(s, name, others, labels, msgs)
    ensures LenStep(s, name) == Ok(Int(|msgs|))
  {
  }

  /** The counter is 0 exactly when the head is None. */
  lemma EmptyIffNoHead(s: Entries, name: string, others: Entries, labels: seq<string>, msgs: seq<Value>)
    requires Represents(s, name, others, labels, msgs)
    ensures HeadKey(name) in s && LenKey(name) in s
    ensures s[LenKey(name)] == Int(0) <==> s[HeadKey(name)] == Nil
  {
  }

  /** Re-constructing a queue empties it whatever the store held: its length
      is 0 and a read returns None. */
  lemma ReconstructionResets(s: Entries, name: string)
    ensures LenStep(InitStore(s, name), name) == Ok(Int(0))
    ensures ReadStep(InitStore(s, name), name) == Step(Ok(Nil), InitStore(s, name))
  {
  }

  /** On a store where the queue was never constructed (no head entry),
      `read` and `write` fail on their first `get` and change nothing. */
  lemma UninitialisedFails(s: Entries, name: string, uid: string, message: Value)
    requires HeadKey(name) !in s
    ensures ReadStep(s, name) == Step(Err(Missing(HeadKey(name))), s)
    ensures WriteStep(s, name, uid, message) == Step(Err(Missing(HeadKey(name))), s)
  {
  }

  /** A write that fails after storing its node (here: the counter entry is
      gone) leaves that node behind, reachable from nothing: the steps are
      not atomic and nothing is rolled back. */
  lemma WriteFailureLeavesNode(s: Entries, name: string, uid: string, message: Value)
    requires HeadKey(name) in s && LenKey(name) !in s && NodeKey(name, uid) != LenKey(name)
    ensures WriteStep(s, name, uid, message)
         == Step(Err(Missing(LenKey(name))), s[NodeKey(name, uid) := Pair(message, s[HeadKey(name)])])
  {
  }

  /* ---------------------------------------------------------------- */
  /* Following the chain                                               */
  /* ---------------------------------------------------------------- */

  /** The payloads met by following `n` links from `at` the way successive
      reads do (truthy label, node entry, unpacked pair), provided the `n`-th
      link is None; `None` when the chain breaks, ends early or goes on. */
  function Walk(s: Entries, name: string, at: Value, n: nat): (r: Option<seq<Value>>)
    ensures r.Some? ==> |r.value| == n
    decreases n
  {
    if n == 0 then (if at == Nil then Some([]) else None)
    else if !Truthy(at) || NodeKey(name, Text(at)) !in s then None
    else
      match Unpack(s[NodeKey(name, Text(at))])
      case Err(_) => None
      case Ok((value, next)) =>
        match Walk(s, name, next, n - 1)
        case None => None
        case Some(rest) => Some([value] + rest)
  }

  lemma {:induction false} WalkFrom(s: Entries, name: string, others: Entries, labels: seq<string>, msgs: seq<Value>, i: nat)
    requires Represents(s, name, others, labels, msgs) && i <= |labels|
    ensures Walk(s, name, HeadOf(labels[i..]), |labels| - i) == Some(msgs[i..])
    decreases |labels| - i
  {
    if i < |labels| {
      ImageAt(name, others, labels, msgs, i);
      WalkFrom(s, name, others, labels, msgs, i + 1);
      assert msgs[i..] == [msgs[i]] + msgs[i + 1..];
    } else {
      assert labels[i..] == [] && msgs[i..] == [];
    }
  }

  /** The chain from the head has exactly `len` nodes, carries the list's
      messages in order and ends in None. */
  lemma ChainFromHead(s: Entries, name: string, others: Entries, labels: seq<string>, msgs: seq<Value>)
    requires Represents(s, name, others, labels, msgs)
    ensures s[LenKey(name)] == Int(|msgs|)
    ensures Walk(s, name, s[HeadKey(name)], |msgs|) == Some(msgs)
  {
    WalkFrom(s, name, others, labels, msgs, 0);
    assert labels[0..] == labels && msgs[0..] == msgs;
  }

  /* ---------------------------------------------------------------- */
  /* Other lists and other entries in the same store                   */
  /* ---------------------------------------------------------------- */

  lemma {:induction false} InNodeKeys(name: string, labels: seq<string>, k: string)
    ensures k in NodeKeys(name, labels) <==> exists i :: 0 <= i < |labels| && NodeKey(name, labels[i]) == k
    decreases |labels|
  {
    if labels != [] {
      InNodeKeys(name, labels[1..], k);
      if k in NodeKeys(name, labels[1..]) {
        var i :| 0 <= i < |labels[1..]| && NodeKey(name, labels[1..][i]) == k;
        assert NodeKey(name, labels[i + 1]) == k;
      }
      if exists i :: 0 <= i < |labels| && NodeKey(name, labels[i]) == k {
        var i :| 0 <= i < |labels| && NodeKey(name, labels[i]) == k;
        if i > 0 {
          assert NodeKey(name, labels[1..][i - 1]) == k;
        }
      }
    }
  }

  lemma {:induction false} NodesKeys(name: string, labels: seq<string>, msgs: seq<Value>)
    requires |labels| == |msgs|
    ensures Nodes(name, labels, msgs).Keys == NodeKeys(name, labels)
    decreases |labels|
  {
    if labels != [] {
      NodesKeys(name, labels[1..], msgs[1..]);
    }
  }

  /** Every key of a list starts with the list's name. */
  lemma OwnPrefix(name: string, labels: seq<string>, k: string)
    requires k in Own(name, labels)
    ensures |k| >= |name| && k[..|name|] == name
  {
    if k in NodeKeys(name, labels) {
      InNodeKeys(name, labels, k);
    }
  }

  /** In a represented store the foreign entries are determined: they are
      the store without the list's keys. */
  lemma OthersDetermined(s: Entries, name: string, others: Entries, labels: seq<string>, msgs: seq<Value>)
    requires Represents(s, name, others, labels, msgs)
    ensures others == Foreign(s, name, labels)
  {
    NodesKeys(name, labels, msgs);
    forall k | k in NodeKeys(name, labels)
      ensures k !in others
    {
      InNodeKeys(name, labels, k);
    }
  }

  /** A change to the store that leaves every key of the list as it was (a
      write or read of another queue, say) leaves the list represented,
      with the changed store's other entries as its foreign ones. */
  lemma ForeignChangeKeeps(s: Entries, t: Entries, name: string, others: Entries, labels: seq<string>, msgs: seq<Value>)
    requires Represents(s, name, others, labels, msgs)
    requires forall k :: k in Own(name, labels) && k in s ==> k in t && t[k] == s[k]
    ensures Represents(t, name, Foreign(t, name, labels), labels, msgs)
  {
    NodesKeys(name, labels, msgs);
    var f := Foreign(t, name, labels);
    forall i | 0 <= i < |labels|
      ensures NodeKey(name, labels[i]) !in f
    {
      InNodeKeys(name, labels, NodeKey(name, labels[i]));
    }
    assert WellFormed(name, f, labels, msgs);
    var img := Image(name, f, labels, msgs);
    forall k | k in Own(name, labels)
      ensures k in s && k in t && k in img && t[k] == img[k]
    {
      if k in NodeKeys(name, labels) {
        InNodeKeys(name, labels, k);
      }
    }
    assert t.Keys == img.Keys;
  }

  /** Lists whose names have the same length but differ share no key: every
      key of one starts with its own name, not with the other's. */
  lemma NamesApart(a: string, b: string, labels: seq<string>, k: string)
    requires |a| == |b| && a != b && k in Own(a, labels)
    ensures k != HeadKey(b) && k != LenKey(b)
    ensures forall uid :: k != NodeKey(b, uid)
  {
    OwnPrefix(a, labels, k);
  }
}
