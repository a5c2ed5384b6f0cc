/** Sequences of queue operations on one store, compared with a plain stack:
    as long as every written label is fresh, running the operations on the
    store answers exactly as pushing and popping a sequence would. From
    that follow the LIFO law and the length law. */
module Traces {
  import opened Values
  import opened KeyValue
  import opened LinkedList

  /** One call on the queue; `Write` carries the label its `uuid1()` gave. */
  datatype Op = Write(uid: string, message: Value) | Read | Len

  /** What a sequence of calls answered (or raised) and the entries left. */
  datatype Run = Run(outs: seq<Result<Value>>, store: Entries)

  function Apply(s: Entries, name: string, op: Op): Step {
    match op
    case Write(uid, message) => WriteStep(s, name, uid, message)
    case Read => ReadStep(s, name)
    case Len => Step(LenStep(s, name), s)
  }

  /** The calls made one after the other on the store. */
  function RunOps(s: Entries, name: string, ops: seq<Op>): (r: Run)
    ensures |r.outs| == |ops|
    decreases |ops|
  {
    if ops == [] then Run([], s)
    else
      var step := Apply(s, name, ops[0]);
      var rest := RunOps(step.store, name, ops[1..]);
      Run([step.out] + rest.outs, rest.store)
  }

  /** The reference behaviour: a stack held in a sequence, top first. A
      write answers True, a read of the empty stack None, `Len` the depth. */
  datatype Machine = Machine(outs: seq<Value>, stack: seq<Value>)

  /** One call on the stack: its answer and the stack it leaves. */
  function StackStep(stack: seq<Value>, op: Op): (Value, seq<Value>) {
    match op
    case Write(_, message) => (Bool(true), [message] + stack)
    case Read => if stack == [] then (Nil, stack) else (stack[0], stack[1..])
    case Len => (Int(|stack|), stack)
  }

  function Stack(stack: seq<Value>, ops: seq<Op>): (r: Machine)
    ensures |r.outs| == |ops|
    decreases |ops|
  {
    if ops == [] then Machine([], stack)
    else
      var (out, next) := StackStep(stack, ops[0]);
      var rest := Stack(next, ops[1..]);
      Machine([out] + rest.outs, rest.stack)
  }

  /** The node labels along the list after one call, top first. */
  function LabelStep(labels: seq<string>, op: Op): seq<string> {
    match op
    case Write(uid, _) => [uid] + labels
    case Read => if labels == [] then labels else labels[1..]
    case Len => labels
  }

  function LabelStack(labels: seq<string>, ops: seq<Op>): seq<string>
    decreases |ops|
  {
    if ops == [] then labels else LabelStack(LabelStep(labels, ops[0]), ops[1..])
  }

  function Oks(vs: seq<Value>): (r: seq<Result<Value>>)
    ensures |r| == |vs|
    ensures forall i :: 0 <= i < |vs| ==> r[i] == Ok(vs[i])
  {
    seq(|vs|, i requires 0 <= i < |vs| => Ok(vs[i]))
  }

  /** The labels of the writes among the calls, in call order. */
  function Uids(ops: seq<Op>): seq<string>
    decreases |ops|
  {
    if ops == [] then []
    else (if ops[0].Write? then [ops[0].uid] else []) + Uids(ops[1..])
  }

  /** Every label the calls write is non-empty, used once, and names no
      node key already in `s`: what `uuid1()` guarantees. */
  ghost predicate FreshUids(s: Entries, name: string, ops: seq<Op>) {
    var us := Uids(ops);
    && (forall i :: 0 <= i < |us| ==> us[i] != "" && NodeKey(name, us[i]) !in s)
    && (forall i, j :: 0 <= i < j < |us| ==> us[i] != us[j])
  }

  lemma FreshAfterFirst(s: Entries, s': Entries, name: string, ops: seq<Op>)
    requires ops != [] && FreshUids(s, name, ops)
    requires s'.Keys <= s.Keys + (if ops[0].Write? then {NodeKey(name, ops[0].uid)} else {})
    ensures FreshUids(s', name, ops[1..])
    ensures ops[0].Write? ==> ops[0].uid != "" && NodeKey(name, ops[0].uid) !in s
  {
    var us, rest := Uids(ops), Uids(ops[1..]);
    var d := if ops[0].Write? then 1 else 0;
    assert us == (if ops[0].Write? then [ops[0].uid] else []) + rest;
    forall i | 0 <= i < |rest|
      ensures rest[i] != "" && NodeKey(name, rest[i]) !in s'
    {
      assert rest[i] == us[i + d];
      if ops[0].Write? {
        assert us[0] == ops[0].uid;
        NodeKeyInjective(name, rest[i], ops[0].uid);
      }
    }
    forall i, j | 0 <= i < j < |rest|
      ensures rest[i] != rest[j]
    {
      assert rest[i] == us[i + d] && rest[j] == us[j + d];
    }
    if ops[0].Write? {
      assert us[0] == ops[0].uid;
    }
  }

  /** One call from a store holding a list answers as the stack does and
      leaves a store holding the stack it leaves. */
  lemma StepMatchesStack(s: Entries, name: string, others: Entries, labels: seq<string>, msgs: seq<Value>, op: Op)
    requires Represents(s, name, others, labels, msgs)
    requires op.Write? ==> op.uid != "" && NodeKey(name, op.uid) !in s
    ensures |LabelStep(labels, op)| == |StackStep(msgs, op).1|
    ensures Apply(s, name, op) == Step(Ok(StackStep(msgs, op).0), Image(name, others, LabelStep(labels, op), StackStep(msgs, op).1))
    ensures WellFormed(name, others, LabelStep(labels, op), StackStep(msgs, op).1)
  {
    match op
    case Write(uid, message) =>
      WritePreserves(s, name, others, labels, msgs, uid, message);
    case Read =>
      if labels == [] {
        ReadEmpty(s, name, others);
      } else {
        ReadPreserves(s, name, others, labels, msgs);
      }
    case Len =>
      LenReports(s, name, others, labels, msgs);
  }

  lemma RunFirst(s: Entries, name: string, ops: seq<Op>)
    requires ops != []
    ensures var step := Apply(s, name, ops[0]); var rest := RunOps(step.store, name, ops[1..]);
      RunOps(s, name, ops) == Run([step.out] + rest.outs, rest.store)
  {
  }

  lemma StackFirst(labels: seq<string>, msgs: seq<Value>, ops: seq<Op>)
    requires ops != []
    ensures var rest := Stack(StackStep(msgs, ops[0]).1, ops[1..]);
      Stack(msgs, ops) == Machine([StackStep(msgs, ops[0]).0] + rest.outs, rest.stack)
    ensures LabelStack(labels, ops) == LabelStack(LabelStep(labels, ops[0]), ops[1..])
  {
  }

  lemma OksFirst(v: Value, vs: seq<Value>)
    ensures Oks([v] + vs) == [Ok(v)] + Oks(vs)
  {
  }

  /** Refinement: from a store holding the list `msgs`, calls whose labels
      are fresh answer as the stack machine does, and leave a store holding
      the machine's final stack, with the entries outside the list intact. */
  lemma {:induction false} RunMatchesStack(s: Entries, name: string, others: Entries, labels: seq<string>, msgs: seq<Value>, ops: seq<Op>)
    requires Represents(s, name, others, labels, msgs)
    requires FreshUids(s, name, ops)
    ensures RunOps(s, name, ops).outs == Oks(Stack(msgs, ops).outs)
    ensures Represents(RunOps(s, name, ops).store, name, others, LabelStack(labels, ops), Stack(msgs, ops).stack)
    decreases |ops|
  {
    if ops != [] {
      var step := Apply(s, name, ops[0]);
      FreshAfterFirst(s, step.store, name, ops);
      StepMatchesStack(s, name, others, labels, msgs, ops[0]);
      var (out, msgs') := StackStep(msgs, ops[0]);
      var labels' := LabelStep(labels, ops[0]);
      RunMatchesStack(step.store, name, others, labels', msgs', ops[1..]);
      RunFirst(s, name, ops);
      StackFirst(labels, msgs, ops);
      OksFirst(out, Stack(msgs', ops[1..]).outs);
    }
  }

  /* ---------------------------------------------------------------- */
  /* Laws of the stack machine                                         */
  /* ---------------------------------------------------------------- */

  /** One write per message, `uids[i]` labelling `msgs[i]`. */
  function Writes(uids: seq<string>, msgs: seq<Value>): (r: seq<Op>)
    requires |uids| == |msgs|
    ensures |r| == |msgs|
    ensures forall i :: 0 <= i < |r| ==> r[i] == Write(uids[i], msgs[i])
  {
    seq(|msgs|, i requires 0 <= i < |msgs| => Write(uids[i], msgs[i]))
  }

  function Reads(k: nat): (r: seq<Op>)
    ensures |r| == k && forall i :: 0 <= i < k ==> r[i] == Read
  {
    seq(k, i => Read)
  }

  function Reverse<T>(s: seq<T>): (r: seq<T>)
    ensures |r| == |s|
  {
    if s == [] then [] else Reverse(s[1..]) + [s[0]]
  }

  lemma {:induction false} ReverseAt<T>(s: seq<T>, i: nat)
    requires i < |s|
    ensures Reverse(s)[i] == s[|s| - 1 - i]
  {
    if i < |s| - 1 {
      ReverseAt(s[1..], i);
    } else if |s| > 1 {
      ReverseAt(s[1..], 0);
    }
  }

  /** Running two lists of calls one after the other. */
  lemma {:induction false} StackAppend(stack: seq<Value>, a: seq<Op>, b: seq<Op>)
    ensures Stack(stack, a + b).outs == Stack(stack, a).outs + Stack(Stack(stack, a).stack, b).outs
    ensures Stack(stack, a + b).stack == Stack(Stack(stack, a).stack, b).stack
    decreases |a|
  {
    if a == [] {
      assert a + b == b;
    } else {
      assert (a + b)[0] == a[0] && (a + b)[1..] == a[1..] + b;
      StackAppend(StackStep(stack, a[0]).1, a[1..], b);
    }
  }

  /** `k` writes answer True each time and push the messages, the last one
      on top. */
  lemma {:induction false} StackWrites(stack: seq<Value>, uids: seq<string>, msgs: seq<Value>)
    requires |uids| == |msgs|
    ensures forall i :: 0 <= i < |msgs| ==> Stack(stack, Writes(uids, msgs)).outs[i] == Bool(true)
    ensures Stack(stack, Writes(uids, msgs)).stack == Reverse(msgs) + stack
    decreases |msgs|
  {
    if msgs != [] {
      var ops := Writes(uids, msgs);
      assert ops[1..] == Writes(uids[1..], msgs[1..]);
      StackWrites([msgs[0]] + stack, uids[1..], msgs[1..]);
      assert Reverse(msgs[1..]) + ([msgs[0]] + stack) == Reverse(msgs) + stack;
    }
  }

  /** `k` reads of a stack at least `k` deep answer its top `k` entries,
      top first, and leave the rest. */
  lemma {:induction false} StackReads(stack: seq<Value>, k: nat)
    requires k <= |stack|
    ensures Stack(stack, Reads(k)).outs == stack[..k]
    ensures Stack(stack, Reads(k)).stack == stack[k..]
    decreases k
  {
    if k > 0 {
      assert Reads(k)[1..] == Reads(k - 1);
      StackReads(stack[1..], k - 1);
      assert stack[..k] == [stack[0]] + stack[1..][..k - 1];
      assert stack[k..] == stack[1..][k - 1..];
    }
  }

  /** No labels are written by writes-then-reads other than `uids`. */
  lemma {:induction false} UidsOfWrites(uids: seq<string>, msgs: seq<Value>, tail: seq<Op>)
    requires |uids| == |msgs|
    requires forall i :: 0 <= i < |tail| ==> !tail[i].Write?
    ensures Uids(Writes(uids, msgs) + tail) == uids
    decreases |msgs|
  {
    if msgs != [] {
      var ops := Writes(uids, msgs) + tail;
      assert ops[1..] == Writes(uids[1..], msgs[1..]) + tail;
      UidsOfWrites(uids[1..], msgs[1..], tail);
    } else {
      assert Writes(uids, msgs) + tail == tail;
      UidsOfTail(tail);
    }
  }

  lemma {:induction false} UidsOfTail(tail: seq<Op>)
    requires forall i :: 0 <= i < |tail| ==> !tail[i].Write?
    ensures Uids(tail) == []
    decreases |tail|
  {
    if tail != [] {
      UidsOfTail(tail[1..]);
    }
  }

  /* ---------------------------------------------------------------- */
  /* The laws on the store                                             */
  /* ---------------------------------------------------------------- */

  /** The calls the repository's test makes, with the number of reads left
      open: `w` writes, `__len__`, `r` reads, `__len__`. */
  function TestOps(uids: seq<string>, msgs: seq<Value>, r: nat): seq<Op>
    requires |uids| == |msgs|
  {
    Writes(uids, msgs) + ([Len] + (Reads(r) + [Len]))
  }

  /** The LIFO and length laws, as the answers to `TestOps` show them: every
      write answers True, `__len__` then reports `w`, the `i`-th read
      returns the message written `i`-th from last, and `__len__` finally
      reports the `w - r` messages left. */
  ghost predicate LifoAnswers(outs: seq<Result<Value>>, msgs: seq<Value>, r: nat) {
    var w := |msgs|;
    && r <= w && |outs| == w + r + 2
    && (forall i :: 0 <= i < w ==> outs[i] == Ok(Bool(true)))
    && outs[w] == Ok(Int(w))
    && (var popped := outs[w + 1..w + 1 + r]; forall i :: 0 <= i < r ==> popped[i] == Ok(msgs[w - 1 - i]))
    && outs[w + 1 + r] == Ok(Int(w - r))
  }

  /** The answers of the stack machine to `TestOps`, from the empty stack,
      as one sequence. */
  lemma StackAnswers(uids: seq<string>, msgs: seq<Value>, r: nat)
    requires |uids| == |msgs| && r <= |msgs|
    ensures Stack([], TestOps(uids, msgs, r)).outs
         == Stack([], Writes(uids, msgs)).outs + ([Int(|msgs|)] + (Reverse(msgs)[..r] + [Int(|msgs| - r)]))
  {
    var writes, rest := Writes(uids, msgs), Reads(r) + [Len];
    var pushed := Reverse(msgs);
    StackWrites([], uids, msgs);
    assert pushed + [] == pushed;
    StackAppend([], writes, [Len] + rest);
    StackAppend(pushed, [Len], rest);
    StackLen(pushed);
    StackAppend(pushed, Reads(r), [Len]);
    StackReads(pushed, r);
    StackLen(pushed[r..]);
  }

  lemma StackLen(stack: seq<Value>)
    ensures Stack(stack, [Len]).outs == [Int(|stack|)]
    ensures Stack(stack, [Len]).stack == stack
  {
    assert [Len][1..] == [];
  }

  /** The LIFO and length laws on the stack machine, from the empty stack. */
  lemma StackLifoAndLength(uids: seq<string>, msgs: seq<Value>, r: nat)
    requires |uids| == |msgs| && r <= |msgs|
    ensures LifoAnswers(Oks(Stack([], TestOps(uids, msgs, r)).outs), msgs, r)
  {
    var w := |msgs|;
    StackAnswers(uids, msgs, r);
    StackWrites([], uids, msgs);
    var written := Stack([], Writes(uids, msgs)).outs;
    var popped := Reverse(msgs)[..r];
    var answers := written + ([Int(w)] + (popped + [Int(w - r)]));
    assert answers[w + 1..w + 1 + r] == popped;
    ReversedPrefix(msgs, r);
    AnswersLifo(answers, msgs, r);
  }

  /** The first `r` entries of the reversed messages are the last `r`
      messages, newest first. */
  lemma ReversedPrefix(msgs: seq<Value>, r: nat)
    requires r <= |msgs|
    ensures var popped := Reverse(msgs)[..r]; forall i :: 0 <= i < r ==> popped[i] == msgs[|msgs| - 1 - i]
  {
    var popped := Reverse(msgs)[..r];
    forall i | 0 <= i < r
      ensures popped[i] == msgs[|msgs| - 1 - i]
    {
      ReverseAt(msgs, i);
    }
  }

  /** Answers laid out as the laws say carry over to the store's results. */
  lemma AnswersLifo(answers: seq<Value>, msgs: seq<Value>, r: nat)
    requires r <= |msgs| && |answers| == |msgs| + r + 2
    requires forall i :: 0 <= i < |msgs| ==> answers[i] == Bool(true)
    requires answers[|msgs|] == Int(|msgs|) && answers[|msgs| + 1 + r] == Int(|msgs| - r)
    requires var popped := answers[|msgs| + 1..|msgs| + 1 + r]; forall i :: 0 <= i < r ==> popped[i] == msgs[|msgs| - 1 - i]
    ensures LifoAnswers(Oks(answers), msgs, r)
  {
    var w := |msgs|;
    var outs := Oks(answers);
    var popped, answered := outs[w + 1..w + 1 + r], answers[w + 1..w + 1 + r];
    forall i | 0 <= i < r
      ensures popped[i] == Ok(msgs[w - 1 - i])
    {
      assert popped[i] == outs[w + 1 + i] && answered[i] == answers[w + 1 + i];
    }
  }

  /** The LIFO and length laws from any store holding the empty list. */
  lemma LifoFromEmpty(s: Entries, name: string, others: Entries, uids: seq<string>, msgs: seq<Value>, r: nat)
    requires Represents(s, name, others, [], [])
    requires |uids| == |msgs| && r <= |msgs|
    requires forall i :: 0 <= i < |uids| ==> uids[i] != "" && NodeKey(name, uids[i]) !in s
    requires forall i, j :: 0 <= i < j < |uids| ==> uids[i] != uids[j]
    ensures LifoAnswers(RunOps(s, name, TestOps(uids, msgs, r)).outs, msgs, r)
  {
    WritesThenReadsFresh(s, name, uids, msgs, r);
    RunMatchesStack(s, name, others, [], [], TestOps(uids, msgs, r));
    StackLifoAndLength(uids, msgs, r);
  }

  /** The LIFO and length laws on a freshly constructed queue: `w` writes
      under fresh labels each return True; `__len__` reports `w`; `r <= w`
      reads then return the messages last-written first (the `i`-th read
      returns `msgs[w - 1 - i]`); and `__len__` finally reports `w - r`.
      With `r == w`, the repository's test, every message comes back in
      reverse order and the length ends at 0. */
  lemma LifoAndLength(s0: Entries, name: string, uids: seq<string>, msgs: seq<Value>, r: nat)
    requires |uids| == |msgs| && r <= |msgs|
    requires forall i :: 0 <= i < |uids| ==> uids[i] != "" && NodeKey(name, uids[i]) !in InitStore(s0, name)
    requires forall i, j :: 0 <= i < j < |uids| ==> uids[i] != uids[j]
    ensures LifoAnswers(RunOps(InitStore(s0, name), name, TestOps(uids, msgs, r)).outs, msgs, r)
  {
    InitRepresents(s0, name);
    LifoFromEmpty(InitStore(s0, name), name, s0 - {HeadKey(name), LenKey(name)}, uids, msgs, r);
  }

  lemma WritesThenReadsFresh(s: Entries, name: string, uids: seq<string>, msgs: seq<Value>, r: nat)
    requires |uids| == |msgs|
    requires forall i :: 0 <= i < |uids| ==> uids[i] != "" && NodeKey(name, uids[i]) !in s
    requires forall i, j :: 0 <= i < j < |uids| ==> uids[i] != uids[j]
    ensures FreshUids(s, name, TestOps(uids, msgs, r))
  {
    var after := [Len] + (Reads(r) + [Len]);
    assert forall i :: 0 <= i < |after| ==> !after[i].Write?;
    UidsOfWrites(uids, msgs, after);
  }
}
