# A "queue" kept as a linked list in a key-value store

The `queues` package offers a `Queue(name)` with `write(message)`, `read()`
and `len()`, implemented twice — over a spool directory with one pickled
file per key (`FileBasedSpool`) and over a memcache server (`Client`) —
with the same algorithm. The store is only ever reached through `set`,
`get` and `delete`. The queue keeps

- `<name>_head`: the label of the most recent node, or None;
- `<name>_len`: the number of nodes;
- `<name>_<label>`: a node `(message, next label or None)`, the label being
  a `uuid1()` string.

`write` pushes a node in front of the head and `read` pops the head node,
so despite its name the queue is a stack (last in, first out).

The model:

- `values.dfy` (`Values`): the Python values stored (None, bools, ints,
  strings, 2-tuples), the exceptions the steps can raise, and the Python
  operations the algorithm applies to stored values: truth testing,
  unpacking `value, _next = ...`, `length ± 1`, and `str()` of a head used
  in `'%s_%s' % (name, _head)`.
- `key_value.dfy` (`KeyValue`): the store as a map, and the class `Store`
  with `Set`, `Get`, `Delete` standing for `FileBasedSpool` (and for the
  memcache `Client`).
- `linked_list.dfy` (`LinkedList`): each queue operation as a function on
  the entries (`InitStore`, `WriteStep`, `ReadStep`, `LenStep`, giving
  result and new entries, including the partial effect of a failing step)
  and as a method making the same `get`/`set`/`delete` calls on a `Store`;
  the list invariant `Represents` (the entries are the untouched foreign
  entries, the head, the counter and exactly the chain's nodes); and the
  lemmas that construction establishes it and that `write` (with a fresh
  label) and `read` preserve it.
- `traces.dfy` (`Traces`): sequences of calls on one store against a plain
  stack held in a sequence, the refinement between them, and the LIFO and
  length laws that the repository's `test_n.py` asserts.
- `filebased.dfy` (`FileBased`) and `memcached.dfy` (`Memcached`): the two
  `Queue` classes. Each refers to the store that all queue objects share
  (the one spool directory or memcache server the module is configured
  with) and keeps ghost fields for the list it represents; the entries
  outside its own keys are whatever the store holds, so another queue's
  changes to them keep it valid. The file-based one turns every failure into a None result;
  the memcache one hands the error to the caller.

`uuid1()` becomes the parameter `uid` of `Write`. The lemmas assume what
`uuid1()` guarantees: the label is non-empty and names no key already in
the store.

## Model

| member | source | states |
|---|---|---|
| `Values.Truthy` | queues/backends/filebased.py:54 | `if _head:` treats None, 0 and the empty string as false, so an empty label would read as an empty list |
| `Values.Unpack` | queues/backends/filebased.py:55 | `x, y = v` succeeds exactly on a 2-tuple (its components) or a 2-character string (its two characters); other strings raise ValueError, other values TypeError |
| `Values.Add` | queues/backends/filebased.py:56-57 | `length ± d` is defined exactly on ints and bools, adds `d` to an int and to a bool's 0 or 1; otherwise TypeError |
| `Values.Text` | queues/backends/filebased.py:55-58 | `'%s' % v` inserts a string label as itself, None as `None`, an int as `Decimal` writes it, a tuple in parentheses |
| `Values.Item` | queues/backends/filebased.py:55-58 | inside a formatted tuple a string component appears between single quotes, any other component as `str` shows it |
| `Values.Decimal` | queues/backends/filebased.py:55-58 | `str` of an int: a minus sign exactly when it is negative, then decimal digits only with no leading zero, reading back to the int |
| `Values.Digits` | queues/backends/filebased.py:55-58 | the digits of a natural number: non-empty, decimal digits only, no leading zero, reading back to the number |
| `KeyValue.Lookup` | queues/backends/filebased.py:34-38 | `get` yields the stored value exactly when the key is present, and fails with the missing key otherwise |
| `KeyValue.Remove` | queues/backends/filebased.py:40-41 | `delete` succeeds exactly when the key is present, removing that key only and keeping every other value; otherwise it fails |
| `KeyValue.GetAfterSet` | queues/backends/filebased.py:29-38 | a `get` after `set(k, v)` returns `v` |
| `KeyValue.SetKeepsOthers` | queues/backends/filebased.py:29-32 | a `set` leaves every other key readable as before |
| `KeyValue.DeleteRemoves` | queues/backends/filebased.py:40-41 | after `delete(k)` a `get(k)` fails and other keys read as before; deleting an absent key fails |
| `KeyValue.Store.constructor` | queues/backends/filebased.py:26-27 | the spool object is bound to a directory with whatever entries it holds |
| `KeyValue.Store.Set` | queues/backends/filebased.py:29-32 | `set` writes or overwrites exactly one entry |
| `KeyValue.Store.Get` | queues/backends/filebased.py:34-38 | `get` returns the entry if present, fails with the key otherwise, and changes nothing |
| `KeyValue.Store.Delete` | queues/backends/filebased.py:40-41 | `delete` removes exactly the entry if present; on an absent key it fails and changes nothing |
| `LinkedList.HeadKey` | queues/backends/filebased.py:48-53 | `'%s_head' % name`: the name followed by `_head` |
| `LinkedList.LenKey` | queues/backends/filebased.py:49-56 | `'%s_len' % name`: the name followed by `_len`, never the head key |
| `LinkedList.NodeKey` | queues/backends/filebased.py:71 | `'%s_%s' % (name, label)`: the name, `_` and the label; it coincides with the head or counter key exactly when the label is `head` or `len` |
| `LinkedList.InitStore` | queues/backends/filebased.py:48-49 | construction sets the head to None and the counter to 0 whatever was there, and leaves every other key as it was |
| `LinkedList.WriteStep` | queues/backends/filebased.py:66-75 | a write that succeeds returns True; it adds at most the node key; a failing write leaves the store unchanged or with only the new node added; every key other than the head, the counter and the new node keeps its value |
| `LinkedList.ReadStep` | queues/backends/filebased.py:51-62 | a read never adds keys; a failing read changes nothing; a present but falsy head gives None with the store unchanged; every key other than the head, the counter and the head's node keeps its value |
| `LinkedList.LenStep` | queues/backends/filebased.py:79-82 | `__len__` returns exactly the stored counter, failing only when it is absent |
| `LinkedList.Init` | queues/backends/filebased.py:48-49 | the two `set` calls of construction have the effect `InitStore` describes |
| `LinkedList.Write` | queues/backends/filebased.py:68-75 | the `get`/`set` sequence of `write` returns and leaves exactly what `WriteStep` describes, on every path |
| `LinkedList.Read` | queues/backends/filebased.py:53-62 | the `get`/`set`/`delete` sequence of `read` returns and leaves exactly what `ReadStep` describes, on every path |
| `LinkedList.Len` | queues/backends/filebased.py:82 | the counter's value if present, a missing-key failure otherwise |
| `LinkedList.InitRepresents` | queues/backends/filebased.py:44-49 | after construction the store represents the empty list, all other entries kept |
| `LinkedList.WritePreserves` | queues/backends/filebased.py:66-75 | with a fresh non-empty label, write returns True and the store represents the list with the message pushed: new node `(m, old head)`, head = label, counter + 1, nothing else changed |
| `LinkedList.ReadPreserves` | queues/backends/filebased.py:53-60 | on a non-empty list, read returns the head payload, deletes its node, moves the head to `next`, lowers the counter by 1, and nothing else changes |
| `LinkedList.ReadEmpty` | queues/backends/filebased.py:53-62 | on the empty list read returns None and leaves the store unchanged |
| `LinkedList.LenReports` | queues/backends/filebased.py:79-82 | on a represented list `__len__` returns its number of messages |
| `LinkedList.EmptyIffNoHead` | queues/backends/filebased.py:48-74 | in a represented list the counter is 0 exactly when the head is None |
| `LinkedList.ReconstructionResets` | queues/backends/filebased.py:44-49 | constructing again over any store gives length 0 and a read that returns None |
| `LinkedList.UninitialisedFails` | queues/backends/filebased.py:51-77 | without a head entry, read and write fail on their first `get` and change nothing |
| `LinkedList.WriteFailureLeavesNode` | queues/backends/filebased.py:66-77 | a write failing at the counter leaves its node stored and unlinked: no rollback |
| `LinkedList.Walk` | queues/backends/filebased.py:53-59 | following `n` links the way reads do yields exactly `n` payloads when it succeeds |
| `LinkedList.OthersDetermined` | queues/backends/filebased.py:48-74 | in a represented store the entries outside the list are exactly the store without the head, the counter and the node keys |
| `LinkedList.ForeignChangeKeeps` | queues/backends/filebased.py:48-74 | a change to the store that leaves every key of the list (head, counter, node keys) as it was leaves the list represented |
| `LinkedList.NamesApart` | queues/backends/filebased.py:48-71 | two queue names of the same length that differ share no key: no key of one list is the head, counter or any node key of the other |
| `LinkedList.ChainFromHead` | queues/backends/filebased.py:53-74 | in a represented list, the chain from the head has exactly `len` nodes, carries the messages in order and ends in None |
| `Traces.RunMatchesStack` | queues/backends/filebased.py:51-82 | any sequence of reads, writes (fresh labels) and lengths on a represented list answers exactly as a stack in a sequence does and leaves the store representing the stack's final contents |
| `Traces.StackLifoAndLength` | test_n.py:8-16 | on the reference stack, the test's calls (`w` writes, `len`, `r <= w` reads, `len`) answer True to every write, `w`, the last `r` messages newest first, then `w - r` |
| `Traces.LifoFromEmpty` | test_n.py:8-16 | the same answers to the test's calls from any store representing the empty list |
| `Traces.LifoAndLength` | test_n.py:8-16 | after construction, the test's calls answer: each of `w` writes True, `len` `w`, the `i`-th of `r <= w` reads message `w - 1 - i`, and `len` then `w - r` (0 after `w` reads, as the test asserts) |
| `FileBased.Queue.constructor` | queues/backends/filebased.py:44-49 | over the spool every queue shares: head None, counter 0, other files kept; the queue holds the empty list |
| `FileBased.Queue.Read` | queues/backends/filebased.py:51-64 | the effect of `ReadStep`, any failure turned into a None result; on a valid queue, pops and returns the top message, or returns None on an empty queue without changing the store |
| `FileBased.Queue.Write` | queues/backends/filebased.py:66-77 | the effect of `WriteStep`, returning True on success and None on any failure; on a valid queue with a fresh label, returns True and pushes the message |
| `FileBased.Queue.Len` | queues/backends/filebased.py:79-88 | the stored counter, or None when it cannot be read; on a valid queue the number of messages |
| `FileBased.ReopenResets` | queues/backends/filebased.py:44-64 | a second `Queue(name)` on the shared spool resets the list, so the first queue's next read returns None |
| `FileBased.SeparateQueues` | queues/backends/filebased.py:44-75 | a queue created and written on the shared spool after another one has written to it (names of equal length that differ) leaves the first one's list intact: its next read returns its message |
| `FileBased.DeleteQueue` | queues/backends/filebased.py:97-99 | always fails with NotImplementedError |
| `Memcached.Queue.constructor` | queues/backends/memcached.py:33-38 | over the server every queue shares: head None, counter 0, other entries kept; the queue holds the empty list |
| `Memcached.Queue.Read` | queues/backends/memcached.py:40-53 | the effect and outcome of `ReadStep`, errors passed to the caller; on a valid queue it does not fail, pops and returns the top message, or returns None on an empty queue without changing the store |
| `Memcached.Queue.Write` | queues/backends/memcached.py:55-66 | the effect and outcome of `WriteStep`, errors passed to the caller; on a valid queue with a fresh label, returns True and pushes the message |
| `Memcached.Queue.Len` | queues/backends/memcached.py:68-77 | the stored counter, or the missing-key error; on a valid queue the number of messages |
| `Memcached.ReopenResets` | queues/backends/memcached.py:33-53 | a second `Queue(name)` on the shared server resets the list, so the first queue's next read returns None |
| `Memcached.SeparateQueues` | queues/backends/memcached.py:33-66 | a queue created and written on the shared server after another one has written to it (names of equal length that differ) leaves the first one's list intact: its next read returns its message |
| `Memcached.DeleteQueue` | queues/backends/memcached.py:86-88 | always fails with NotImplementedError |

## Left out

- Pickle serialisation and real file and network I/O: the store is a map whose values come back exactly as stored. Failures arise only from a missing key on `get`/`delete`, from a value that does not unpack into two, and from arithmetic on a counter that is not a number. Disk, permission and network faults are not modelled.
- The memcache `Client` is not part of this model. It is given the spool's semantics, so a missing key makes `get` and `delete` fail. The memcache library's own behaviour on a miss (returning None) is not modelled.
- Module-level configuration (Django settings, environment variables, `InvalidBackend` at import) and the choice between the cmemcache and memcache libraries, including the `CONN.split(';')` server list: environment plumbing.
- `get_list` (server statistics introspection, a no-op in the file-based backend), `create_queue` (returns True) and `__repr__`: outside the list algorithm.
- `uuid1()`: its result is the `uid` parameter. Uniqueness and non-emptiness are hypotheses of the lemmas, not generated.
- FileBased.SeparateQueues, Memcached.SeparateQueues: shown for two names of the same length. Names of different lengths can share keys (`a_b_head` is the head key of `a_b` and the node key of label `b_head` under `a`); `uuid1()` labels never take such a form, and `LinkedList.ForeignChangeKeeps` states the general condition.
- Concurrent readers and writers racing on the head and the counter: the code makes no attempt at safety, and every lemma is about one caller.
- Python values beyond None, bools, ints, strings and 2-tuples. `Values.Text` renders a string inside a tuple in single quotes with no escaping, where Python's `repr` may choose double quotes or escapes. This only matters for a corrupted head that is a tuple.
- FileBased.Queue.Len: the outer `except AttributeError: return 0` cannot be reached, because the inner handler already catches every exception and returns None. So `__len__` of a queue whose counter is missing yields None, not 0. The model follows the code.
- Memcached.Queue.Len: the `except AttributeError: return 0` branch is not modelled, because no modelled step raises AttributeError. A missing counter is reported as an error.
- Failures mid-sequence: the model gives the exact partial state a failing step leaves, such as a node stored but not linked. It does not prove any recovery property, because the code has none.
