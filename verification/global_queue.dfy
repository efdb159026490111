/**
 * The module-level state of Server/Simulation/Global.py: a priority queue of
 * `(priority, event)` tuples and a request dictionary. Both are passed
 * explicitly here instead of living in module globals.
 *
 * The queue is kept as the sequence of entries in insertion order. Python's
 * heap returns some entry that no other entry is strictly below; among
 * equally ranked entries the model returns the earliest inserted one.
 */
module GlobalQueue {
  import opened Base
  import opened MiscEvents

  type Entry = (int, Event)
  type Queue = seq<Entry>

  /**
   * Python's tuple `<` on `(priority, event)`: priorities first, then
   * `Event.__lt__` when the priorities are equal.
   */
  predicate EntryLess(a: Entry, b: Entry) {
    a.0 < b.0 || (a.0 == b.0 && Less(a.1, b.1))
  }

  lemma EntryLessIsStrictOrder(a: Entry, b: Entry, c: Entry)
    ensures !EntryLess(a, a)
    ensures EntryLess(a, b) && EntryLess(b, c) ==> EntryLess(a, c)
  {
    LessIsStrictOrder(a.1, b.1, c.1);
  }

  /** Position `k` holds an entry that no entry of the queue is strictly below. */
  ghost predicate IsLeast(q: Queue, k: nat) {
    k < |q| && forall j :: 0 <= j < |q| ==> !EntryLess(q[j], q[k])
  }

  function LeastFrom(q: Queue, best: nat, i: nat): (k: nat)
    requires best < i <= |q|
    requires forall j :: 0 <= j < i ==> !EntryLess(q[j], q[best])
    ensures IsLeast(q, k)
    decreases |q| - i
  {
    if i == |q| then best
    else if EntryLess(q[i], q[best]) then
      assert forall j :: 0 <= j < i ==> !EntryLess(q[j], q[i]) by {
        forall j | 0 <= j < i
          ensures !EntryLess(q[j], q[i])
        {
          EntryLessIsStrictOrder(q[j], q[i], q[best]);
        }
      }
      EntryLessIsStrictOrder(q[i], q[i], q[i]);
      LeastFrom(q, i, i + 1)
    else LeastFrom(q, best, i + 1)
  }

  /** The position of the entry the queue hands out next. */
  function LeastIndex(q: Queue): (k: nat)
    requires |q| > 0
    ensures IsLeast(q, k)
  {
    EntryLessIsStrictOrder(q[0], q[0], q[0]);
    LeastFrom(q, 0, 1)
  }

  /** `enqueue_event`: the queue gains exactly the tuple `(priority, event)`. */
  function Enqueue(q: Queue, priority: int, event: Event): (r: Queue)
    ensures multiset(r) == multiset(q) + multiset{(priority, event)}
    ensures |r| == |q| + 1
  {
    q + [(priority, event)]
  }

  /** `pq_queue_is_empty`. */
  predicate IsEmpty(q: Queue) {
    |q| == 0
  }

  /**
   * `get_event`: a least entry, and the queue without exactly that one entry.
   * Python's `PriorityQueue.get` blocks on an empty queue, so it is not
   * callable on one.
   */
  function GetEvent(q: Queue): (r: (Entry, Queue))
    requires !IsEmpty(q)
    ensures r.0 in q
    ensures forall x :: x in q ==> !EntryLess(x, r.0)
    ensures multiset(r.1) + multiset{r.0} == multiset(q)
    ensures |r.1| == |q| - 1
  {
    var k := LeastIndex(q);
    assert q == q[..k] + [q[k]] + q[k + 1..];
    (q[k], q[..k] + q[k + 1..])
  }

  /** `peek_event`: the entry `get_event` would return; an empty queue raises IndexError. */
  function PeekEvent(q: Queue): (r: Result<Entry>)
    ensures r.Ok? <==> !IsEmpty(q)
    ensures r.Ok? ==> r.value == GetEvent(q).0
    ensures r.Err? ==> r.error == IndexError
  {
    if |q| == 0 then Err(IndexError) else Ok(q[LeastIndex(q)])
  }

  /** No entry is strictly below an entry before it. */
  ghost predicate InGetOrder(r: seq<Entry>) {
    forall i, j :: 0 <= i < j < |r| ==> !EntryLess(r[j], r[i])
  }

  lemma InGetOrderCons(e: Entry, tail: seq<Entry>)
    requires InGetOrder(tail)
    requires forall x :: x in tail ==> !EntryLess(x, e)
    ensures InGetOrder([e] + tail)
  {
    var r := [e] + tail;
    forall i, j | 0 <= i < j < |r|
      ensures !EntryLess(r[j], r[i])
    {
      assert r[j] == tail[j - 1];
      if i > 0 {
        assert r[i] == tail[i - 1];
      } else {
        assert r[j] in tail;
      }
    }
  }

  /** The entries in the order successive `get_event` calls return them. */
  function DrainAll(q: Queue): (r: seq<Entry>)
    ensures multiset(r) == multiset(q)
    ensures InGetOrder(r)
    decreases |q|
  {
    if IsEmpty(q) then []
    else
      var (e, rest) := GetEvent(q);
      var tail := DrainAll(rest);
      assert forall x :: x in tail ==> x in q by {
        forall x | x in tail
          ensures x in q
        {
          assert x in multiset(rest);
        }
      }
      InGetOrderCons(e, tail);
      [e] + tail
  }

  /** `add_request`. */
  function AddRequest<K, V>(d: map<K, V>, key: K, value: V): (r: map<K, V>)
    ensures r.Keys == d.Keys + {key}
  {
    d[key := value]
  }

  /** `get_request`: the stored value, or KeyError for a missing key. */
  function GetRequest<K, V>(d: map<K, V>, key: K): (r: Result<V>)
    ensures r.Ok? <==> key in d
    ensures r.Ok? ==> r.value == d[key]
    ensures r.Err? ==> r.error == KeyError
  {
    if key in d then Ok(d[key]) else Err(KeyError)
  }

  /** Reading a key back after storing it gives the stored value; other keys are untouched. */
  lemma GetAfterAdd<K, V>(d: map<K, V>, key: K, value: V, other: K)
    ensures GetRequest(AddRequest(d, key, value), key) == Ok(value)
    ensures other != key ==> GetRequest(AddRequest(d, key, value), other) == GetRequest(d, other)
  {
  }
}
