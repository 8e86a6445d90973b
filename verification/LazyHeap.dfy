/** The search's open heap: entries are never updated in place, so a node may have
    several, and all but the newest are stale. */
module LazyHeap {

  /** A heap entry: f-score, insertion counter, node key. Counters make entries distinct. */
  datatype Entry = Entry(f: real, order: nat, key: int)

  predicate Before(a: Entry, b: Entry) {
    a.f < b.f || (a.f == b.f && a.order < b.order)
      || (a.f == b.f && a.order == b.order && a.key <= b.key)
  }

  lemma BeforeIsTotal(a: Entry, b: Entry, c: Entry)
    ensures Before(a, b) || Before(b, a)
    ensures Before(b, a) && Before(a, c) ==> Before(b, c)
    ensures Before(b, b)
  {
  }

  predicate IsLeast(e: Entry, heap: set<Entry>) {
    e in heap && forall x :: x in heap ==> Before(e, x)
  }

  lemma {:induction false} LeastExists(heap: set<Entry>) returns (e: Entry)
    requires heap != {}
    ensures IsLeast(e, heap)
  {
    var first :| first in heap;
    var rest := heap - {first};
    e := first;
    if rest != {} {
      var l := LeastExists(rest);
      if Before(l, first) { e := l; }
      forall x | x in heap ensures Before(e, x) {
        BeforeIsTotal(l, first, x);
        assert x in rest || x == first;
      }
    } else {
      assert forall x :: x in heap ==> x == first || x in rest;
    }
  }

  /** heapq.heappop: removes the least entry. */
  method HeapPop(heap: set<Entry>) returns (e: Entry, rest: set<Entry>)
    requires heap != {}
    ensures IsLeast(e, heap) && rest == heap - {e}
  {
    ghost var least := LeastExists(heap);
    e :| e in heap && forall x :: x in heap ==> Before(e, x);
    rest := heap - {e};
  }

  /** The heap holds exactly one current entry per open node; every other entry is for
      a closed node, or is beaten by the current entry of its node. `queue` is what a
      heap with a decrease-key operation would hold. */
  ghost predicate Refines(heap: set<Entry>, closed: set<int>, queue: map<int, Entry>, counter: nat) {
    && queue.Keys !! closed
    && (forall k :: k in queue ==> queue[k].key == k && queue[k] in heap)
    && (forall e :: e in heap ==> e.order < counter && (e.key in closed || e.key in queue))
    && (forall e :: e in heap && e.key in queue && e != queue[e.key] ==> queue[e.key].f < e.f)
  }

  /** Insert-or-decrease-key on the queue is a plain push on the heap. */
  lemma PushRefinesDecreaseKey(heap: set<Entry>, closed: set<int>, queue: map<int, Entry>, counter: nat, e: Entry)
    requires Refines(heap, closed, queue, counter)
    requires e.order == counter && e.key !in closed
    requires e.key in queue ==> e.f < queue[e.key].f
    ensures Refines(heap + {e}, closed, queue[e.key := e], counter + 1)
  {
    var q' := queue[e.key := e];
    forall k | k in q' ensures q'[k].key == k && q'[k] in heap + {e} {}
  }

  /** The first pop of a node that is still open carries its current entry, which is also
      the least entry of the decrease-key queue; so stale entries surface only once
      their node is closed. */
  lemma PopRefinesExtractMin(heap: set<Entry>, closed: set<int>, queue: map<int, Entry>, counter: nat, e: Entry)
    requires Refines(heap, closed, queue, counter) && IsLeast(e, heap)
    ensures e.key in closed || (e.key in queue && e == queue[e.key])
    ensures e.key in queue ==> forall k :: k in queue ==> Before(e, queue[k])
    ensures Refines(heap - {e}, closed + {e.key}, queue - {e.key}, counter)
    ensures e.key in closed ==> queue - {e.key} == queue
  {
  }

  lemma EmptyHeapEmptyQueue(heap: set<Entry>, closed: set<int>, queue: map<int, Entry>, counter: nat)
    requires Refines(heap, closed, queue, counter) && heap == {}
    ensures queue.Keys == {}
  {
    assert forall k :: k in queue ==> queue[k] in heap;
  }
}
