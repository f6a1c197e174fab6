/**
 The server's queue of waiting commands: a heap of order 8 in a list
 (libs/server/local-include/execute-queue.hpp), ordered by ageing priority
 (libs/server/api-server.cpp, libs/server/local-include/priority-adjust.hpp).
 */
module ExecuteQueue {
  import opened Entities
  import opened Text

  /**
   A waiting command. The key is the client it came from, or nothing once that client is gone. A command
   for the server itself is evaluated, any other is sent on.
   */
  datatype Entry = Entry(key: Option<Handle>, priority: nat, penalty: nat, waitStart: nat, server: bool)

  const ORDER := 8

  // ---------------------------------------------------------------- priority

  /** The dynamic priority, which falls for every command queued since; the lowest value goes first. */
  function PriorityValue(e: Entry, counter: nat, factor: real): real {
    (e.priority + e.penalty) as real - (counter - e.waitStart) as real * factor
  }

  predicate CheckPriority(left: Entry, right: Entry, counter: nat, factor: real) {
    PriorityValue(left, counter, factor) <= PriorityValue(right, counter, factor)
  }

  /** The part of the priority that does not age. */
  function Rank(e: Entry, factor: real): real {
    (e.priority + e.penalty) as real + e.waitStart as real * factor
  }

  lemma ValueIsRank(e: Entry, counter: nat, factor: real)
    ensures PriorityValue(e, counter, factor) == Rank(e, factor) - counter as real * factor
  {
    assert (counter - e.waitStart) as real == counter as real - e.waitStart as real;
  }

  function RankBy(factor: real): Entry -> real {
    (e: Entry) => Rank(e, factor)
  }

  /** Ageing never reorders two waiting commands: the counter moves both values alike. */
  lemma OrderIgnoresCounter(left: Entry, right: Entry, counter1: nat, counter2: nat, factor: real)
    ensures CheckPriority(left, right, counter1, factor) <==> CheckPriority(left, right, counter2, factor)
    ensures CheckPriority(left, right, counter1, factor) <==> Rank(left, factor) <= Rank(right, factor)
    // priority and penalty count alike, and so much for each command that was queued in between
    ensures CheckPriority(left, right, counter1, factor) <==>
              (left.priority + left.penalty - right.priority - right.penalty) as real
              <= (right.waitStart - left.waitStart) as real * factor
  {
    var l, r := left.waitStart as real, right.waitStart as real;
    assert (right.waitStart - left.waitStart) as real * factor == r * factor - l * factor;
    ValueIsRank(left, counter1, factor);
    ValueIsRank(right, counter1, factor);
    ValueIsRank(left, counter2, factor);
    ValueIsRank(right, counter2, factor);
  }

  // ---------------------------------------------------------------- heaps

  function Parent(i: int): int
    requires i > 0
  {
    (i - 1) / ORDER
  }

  /** Position i is no better than its parent. */
  predicate Above(items: seq<Entry>, i: int, rank: Entry -> real)
    requires 0 < i < |items|
  {
    rank(items[Parent(i)]) <= rank(items[i])
  }

  ghost predicate Heap(items: seq<Entry>, rank: Entry -> real) {
    forall i {:trigger Above(items, i, rank)} :: 0 < i < |items| ==> Above(items, i, rank)
  }

  lemma {:induction false} RootIsMinimal(items: seq<Entry>, rank: Entry -> real, i: nat)
    requires Heap(items, rank) && i < |items|
    ensures rank(items[0]) <= rank(items[i])
  {
    if i > 0 {
      assert Above(items, i, rank);
      RootIsMinimal(items, rank, Parent(i));
    }
  }

  function Swapped(items: seq<Entry>, i: nat, j: nat): (r: seq<Entry>)
    requires i < |items| && j < |items|
    ensures |r| == |items|
  {
    items[i := items[j]][j := items[i]]
  }

  lemma SwappedKeeps(items: seq<Entry>, i: nat, j: nat)
    requires i < |items| && j < |items|
    ensures multiset(Swapped(items, i, j)) == multiset(items)
  {
  }

  /** The command's client is gone; its place in the order is not. */
  function Cancelled(e: Entry, handle: Handle): Entry {
    if e.key == Some(handle) then e.(key := None) else e
  }

  // ---------------------------------------------------------------- what the heap routines do

  /** The element at i rises past every parent that is worse. */
  function Lifted(items: seq<Entry>, i: nat, rank: Entry -> real): (r: seq<Entry>)
    requires i < |items|
    ensures |r| == |items|
    decreases i
  {
    if i > 0 && rank(items[Parent(i)]) > rank(items[i])
    then Lifted(Swapped(items, i, Parent(i)), Parent(i), rank)
    else items
  }

  /** The last of the best among `best` and the elements from `child` up to `end`. */
  function BestOf(items: seq<Entry>, best: nat, child: nat, end: nat, rank: Entry -> real): (b: nat)
    requires best < |items| && child <= end <= |items|
    ensures b == best || child <= b < end
    decreases end - child
  {
    if child == end then best
    else BestOf(items, if rank(items[child]) <= rank(items[best]) then child else best, child + 1, end, rank)
  }

  function FirstChild(items: seq<Entry>, i: nat): (c: nat)
    requires i < |items|
    ensures i < |items| - 1 ==> i < c
    ensures c <= |items|
  {
    if i * ORDER + 1 < |items| then i * ORDER + 1 else |items|
  }

  function LastChild(items: seq<Entry>, i: nat): (c: nat)
    requires i < |items|
    ensures FirstChild(items, i) <= c <= |items|
  {
    if i * ORDER + 1 + ORDER < |items| then i * ORDER + 1 + ORDER else |items|
  }

  lemma Children(items: seq<Entry>, i: nat, k: nat)
    requires i < |items| && 0 < k < |items|
    ensures Parent(k) == i <==> FirstChild(items, i) <= k < LastChild(items, i)
  {
  }

  /** Where the scan of an element's children ends up: at the element itself if no child is as good. */
  function BestChildOf(items: seq<Entry>, i: nat, rank: Entry -> real): (b: nat)
    requires i < |items|
    ensures i <= b < |items|
  {
    BestOf(items, i, FirstChild(items, i), LastChild(items, i), rank)
  }

  lemma {:induction false} BestOfIsBest(items: seq<Entry>, best: nat, child: nat, end: nat, rank: Entry -> real)
    requires best < |items| && child <= end <= |items|
    ensures var b := BestOf(items, best, child, end, rank);
            && rank(items[b]) <= rank(items[best])
            && forall k :: child <= k < end ==> rank(items[b]) <= rank(items[k])
    decreases end - child
  {
    if child < end {
      BestOfIsBest(items, if rank(items[child]) <= rank(items[best]) then child else best, child + 1, end, rank);
    }
  }

  lemma BestChildIsBest(items: seq<Entry>, i: nat, rank: Entry -> real)
    requires i < |items|
    ensures var b := BestChildOf(items, i, rank);
            && (b != i ==> Parent(b) == i)
            && rank(items[b]) <= rank(items[i])
            && forall k :: 0 < k < |items| && Parent(k) == i ==> rank(items[b]) <= rank(items[k])
  {
    var b := BestChildOf(items, i, rank);
    BestOfIsBest(items, i, FirstChild(items, i), LastChild(items, i), rank);
    if b != i {
      Children(items, i, b);
    }
    forall k | 0 < k < |items| && Parent(k) == i
      ensures rank(items[b]) <= rank(items[k])
    {
      Children(items, i, k);
    }
  }

  /** The element at i sinks below every best child that is as good. */
  function Sunk(items: seq<Entry>, i: nat, rank: Entry -> real): (r: seq<Entry>)
    requires i < |items| || items == []
    ensures |r| == |items|
    ensures forall k :: 0 <= k < i && k < |items| ==> r[k] == items[k]
    decreases |items| - i
  {
    if i >= |items| - 1 then items
    else
      var b := BestChildOf(items, i, rank);
      if b == i then items else Sunk(Swapped(items, b, i), b, rank)
  }

  function Added(items: seq<Entry>, e: Entry, rank: Entry -> real): seq<Entry> {
    Lifted(items + [e], |items|, rank)
  }

  /** What is left when the first element is taken: the last one takes its place, and sinks. */
  function Rest(items: seq<Entry>, rank: Entry -> real): (r: seq<Entry>)
    requires items != []
    ensures |r| == |items| - 1
  {
    var n := |items| - 1;
    Sunk(Swapped(items, 0, n)[..n], 0, rank)
  }

  lemma {:induction false} LiftedKeeps(items: seq<Entry>, i: nat, rank: Entry -> real)
    requires i < |items|
    ensures multiset(Lifted(items, i, rank)) == multiset(items)
    decreases i
  {
    if i > 0 && rank(items[Parent(i)]) > rank(items[i]) {
      SwappedKeeps(items, i, Parent(i));
      LiftedKeeps(Swapped(items, i, Parent(i)), Parent(i), rank);
    }
  }

  lemma {:induction false} SunkKeeps(items: seq<Entry>, i: nat, rank: Entry -> real)
    requires i < |items| || items == []
    ensures multiset(Sunk(items, i, rank)) == multiset(items)
    decreases |items| - i
  {
    if i < |items| - 1 {
      var b := BestChildOf(items, i, rank);
      SwappedKeeps(items, b, i);
      if b != i {
        SunkKeeps(Swapped(items, b, i), b, rank);
      }
    }
  }

  lemma AddedKeeps(items: seq<Entry>, e: Entry, rank: Entry -> real)
    ensures multiset(Added(items, e, rank)) == multiset(items) + multiset{e}
  {
    LiftedKeeps(items + [e], |items|, rank);
  }

  lemma RestKeeps(items: seq<Entry>, rank: Entry -> real)
    requires items != []
    ensures multiset(items) == multiset(Rest(items, rank)) + multiset{items[0]}
  {
    var n := |items| - 1;
    var swapped := Swapped(items, 0, n);
    SwappedKeeps(items, 0, n);
    assert swapped == swapped[..n] + [items[0]];
    SunkKeeps(swapped[..n], 0, rank);
  }

  lemma {:induction false} LiftedIsHeap(items: seq<Entry>, i: nat, rank: Entry -> real)
    requires i < |items|
    requires forall k :: 0 < k < |items| && k != i ==> Above(items, k, rank)
    requires i > 0 ==> forall k :: 0 < k < |items| && Parent(k) == i ==>
                         rank(items[Parent(i)]) <= rank(items[k])
    ensures Heap(Lifted(items, i, rank), rank)
    decreases i
  {
    if i > 0 && rank(items[Parent(i)]) > rank(items[i]) {
      var p := Parent(i);
      var swapped := Swapped(items, i, p);
      forall k | 0 < k < |items| && k != p
        ensures Above(swapped, k, rank)
      {
        assert k != i ==> Above(items, k, rank);
      }
      forall k | 0 < k < |items| && Parent(k) == p && p > 0
        ensures rank(swapped[Parent(p)]) <= rank(swapped[k])
      {
        assert Above(items, p, rank);
        assert k != i ==> Above(items, k, rank);
      }
      LiftedIsHeap(swapped, p, rank);
    } else {
      assert i > 0 ==> Above(items, i, rank);
    }
  }

  lemma {:induction false} SunkIsHeap(items: seq<Entry>, i: nat, rank: Entry -> real)
    requires i < |items|
    requires forall k :: 0 < k < |items| && Parent(k) != i ==> Above(items, k, rank)
    requires i > 0 ==> forall k :: 0 < k < |items| && Parent(k) == i ==>
                         rank(items[Parent(i)]) <= rank(items[k])
    ensures Heap(Sunk(items, i, rank), rank)
    decreases |items| - i
  {
    var b := BestChildOf(items, i, rank);
    BestChildIsBest(items, i, rank);
    if i < |items| - 1 && b != i {
      var swapped := Swapped(items, b, i);
      forall k | 0 < k < |items| && Parent(k) != b
        ensures Above(swapped, k, rank)
      {
        assert Parent(k) != i ==> Above(items, k, rank);
      }
      forall k | 0 < k < |items| && Parent(k) == b
        ensures rank(swapped[Parent(b)]) <= rank(swapped[k])
      {
        assert Above(items, k, rank);
      }
      SunkIsHeap(swapped, b, rank);
    } else {
      forall k | 0 < k < |items|
        ensures Above(items, k, rank)
      {
        assert i >= |items| - 1 ==> Parent(k) != i;
      }
    }
  }

  lemma AddedIsHeap(items: seq<Entry>, e: Entry, rank: Entry -> real)
    requires Heap(items, rank)
    ensures Heap(Added(items, e, rank), rank)
  {
    forall k | 0 < k < |items|
      ensures Above(items + [e], k, rank)
    {
      assert Above(items, k, rank);
    }
    LiftedIsHeap(items + [e], |items|, rank);
  }

  lemma RestIsHeap(items: seq<Entry>, rank: Entry -> real)
    requires items != [] && Heap(items, rank)
    ensures Heap(Rest(items, rank), rank)
  {
    var n := |items| - 1;
    var front := Swapped(items, 0, n)[..n];
    if n > 0 {
      forall k | 0 < k < n && Parent(k) != 0
        ensures Above(front, k, rank)
      {
        assert Above(items, k, rank);
      }
      SunkIsHeap(front, 0, rank);
    }
  }

  // ---------------------------------------------------------------- the order in which commands come out

  /** The commands in the order in which they are taken, if none are added meanwhile. */
  function Drained(items: seq<Entry>, rank: Entry -> real): (r: seq<Entry>)
    ensures |r| == |items|
    decreases |items|
  {
    if items == [] then [] else [items[0]] + Drained(Rest(items, rank), rank)
  }

  /** The heap after these commands were queued, one after the other. */
  function Queued(entries: seq<Entry>, rank: Entry -> real): (items: seq<Entry>)
    ensures |items| == |entries|
    decreases |entries|
  {
    if entries == [] then []
    else Added(Queued(entries[..|entries| - 1], rank), entries[|entries| - 1], rank)
  }

  lemma {:induction false} DrainedKeeps(items: seq<Entry>, rank: Entry -> real)
    ensures multiset(Drained(items, rank)) == multiset(items)
    decreases |items|
  {
    if items != [] {
      var rest := Rest(items, rank);
      RestKeeps(items, rank);
      DrainedKeeps(rest, rank);
      assert multiset([items[0]] + Drained(rest, rank)) == multiset{items[0]} + multiset(Drained(rest, rank));
    }
  }

  lemma DrainedFirst(items: seq<Entry>, rank: Entry -> real, j: nat)
    requires Heap(items, rank) && j < |items|
    ensures rank(Drained(items, rank)[0]) <= rank(Drained(items, rank)[j])
  {
    var e := Drained(items, rank)[j];
    DrainedKeeps(items, rank);
    assert e in multiset(Drained(items, rank));
    assert e in multiset(items);
    var k :| 0 <= k < |items| && items[k] == e;
    RootIsMinimal(items, rank, k);
  }

  /** Commands come out by rank; so where ranks are distinct, the order is determined by them. */
  lemma {:induction false} DrainedByRank(items: seq<Entry>, rank: Entry -> real, i: nat, j: nat)
    requires Heap(items, rank) && i <= j < |items|
    ensures rank(Drained(items, rank)[i]) <= rank(Drained(items, rank)[j])
    decreases |items|
  {
    if i == 0 {
      DrainedFirst(items, rank, j);
    } else {
      RestIsHeap(items, rank);
      DrainedByRank(Rest(items, rank), rank, i - 1, j - 1);
    }
  }

  lemma {:induction false} QueuedIsHeap(entries: seq<Entry>, rank: Entry -> real)
    ensures Heap(Queued(entries, rank), rank) && multiset(Queued(entries, rank)) == multiset(entries)
    decreases |entries|
  {
    if entries != [] {
      var front, last := entries[..|entries| - 1], entries[|entries| - 1];
      assert entries == front + [last];
      QueuedIsHeap(front, rank);
      AddedIsHeap(Queued(front, rank), last, rank);
      AddedKeeps(Queued(front, rank), last, rank);
    }
  }

  predicate SameRank(entries: seq<Entry>, rank: Entry -> real) {
    forall i :: 0 <= i < |entries| ==> rank(entries[i]) == rank(entries[0])
  }

  lemma {:induction false} EqualsAreQueuedInOrder(entries: seq<Entry>, rank: Entry -> real)
    requires SameRank(entries, rank)
    ensures Queued(entries, rank) == entries
    decreases |entries|
  {
    if entries != [] {
      var n := |entries| - 1;
      var front := entries[..n];
      EqualsAreQueuedInOrder(front, rank);
      assert entries == front + [entries[n]];
      assert rank(entries[n]) == rank(entries[0]);
      assert n > 0 ==> rank(entries[Parent(n)]) == rank(entries[0]);
      assert Added(front, entries[n], rank) == entries;
    }
  }

  /** Among equals the scan always moves on. */
  lemma {:induction false} BestOfEquals(items: seq<Entry>, best: nat, child: nat, end: nat, rank: Entry -> real)
    requires best < |items| && child <= end <= |items| && SameRank(items, rank)
    ensures BestOf(items, best, child, end, rank) == if child == end then best else end - 1
    decreases end - child
  {
    if child < end {
      BestOfEquals(items, child, child + 1, end, rank);
    }
  }

  /** The first of three or more equals makes room for the last child of the root. */
  lemma RestOfEquals(items: seq<Entry>, rank: Entry -> real)
    requires SameRank(items, rank) && |items| >= 3
    ensures var last := if ORDER < |items| - 2 then ORDER else |items| - 2;
            Rest(items, rank)[0] == items[last]
  {
    var n := |items| - 1;
    var front := Swapped(items, 0, n)[..n];
    assert forall k :: 0 < k < n ==> front[k] == items[k];
    assert front[0] == items[n];
    BestOfEquals(front, 0, FirstChild(front, 0), LastChild(front, 0), rank);
    var b := BestChildOf(front, 0, rank);
    assert Rest(items, rank) == Sunk(Swapped(front, b, 0), b, rank);
  }

  /** Which of four or more equals comes second. */
  lemma SecondOfEquals(items: seq<Entry>, rank: Entry -> real)
    requires SameRank(items, rank) && |items| >= 3
    ensures var last := if ORDER < |items| - 2 then ORDER else |items| - 2;
            Drained(items, rank)[1] == items[last]
  {
    RestOfEquals(items, rank);
    var rest := Rest(items, rank);
    assert Drained(items, rank)[1] == Drained(rest, rank)[0] == rest[0];
  }

  /** Distinct commands of equal rank come out in the order in which they were queued exactly if they are three at most. */
  lemma EqualsInOrderIff(entries: seq<Entry>, rank: Entry -> real)
    requires SameRank(entries, rank)
    requires forall i, j :: 0 <= i < j < |entries| ==> entries[i] != entries[j]
    ensures Drained(Queued(entries, rank), rank) == entries <==> |entries| <= 3
  {
    EqualsAreQueuedInOrder(entries, rank);
    if |entries| > 3 {
      SecondOfEquals(entries, rank);
    } else {
      FewEqualsInOrder(entries, rank);
    }
  }

  lemma FewEqualsInOrder(entries: seq<Entry>, rank: Entry -> real)
    requires SameRank(entries, rank) && |entries| <= 3
    ensures Drained(entries, rank) == entries
    decreases |entries|
  {
    if entries != [] {
      FewEqualsRest(entries, rank);
      var rest := Rest(entries, rank);
      assert entries == [entries[0]] + rest;
      FewEqualsInOrder(rest, rank);
    }
  }

  /** Four equals: the third one comes second. */
  lemma FourEqualsOutOfOrder(a: Entry, b: Entry, c: Entry, d: Entry, rank: Entry -> real)
    requires SameRank([a, b, c, d], rank)
    ensures Drained(Queued([a, b, c, d], rank), rank) == [a, c, b, d]
  {
    var entries := [a, b, c, d];
    EqualsAreQueuedInOrder(entries, rank);
    var front := [d, b, c];
    assert Swapped(entries, 0, 3)[..3] == front;
    assert forall i :: 0 <= i < 4 ==> rank(entries[i]) == rank(entries[0]);
    assert rank(d) == rank(entries[3]) && rank(c) == rank(entries[2]);
    BestOfEquals(front, 0, FirstChild(front, 0), LastChild(front, 0), rank);
    assert BestChildOf(front, 0, rank) == 2;
    assert Swapped(front, 2, 0) == [c, b, d];
    assert Rest(entries, rank) == Sunk(front, 0, rank) == Sunk([c, b, d], 2, rank) == [c, b, d];
    FewEqualsInOrder([c, b, d], rank);
  }

  /** Four commands that are queued one by one, each more urgent than the one before it by as much as that one aged. */
  function Rising(client: Option<Handle>, base: nat, start: nat): seq<Entry> {
    seq(4, i requires 0 <= i < 4 => Entry(client, base + 3 - i, 0, start + i, false))
  }

  /** With the factor that the server starts with, they are equals, and are not sent in their order. */
  lemma RisingOutOfOrder(client: Option<Handle>, base: nat, start: nat)
    ensures var rising := Rising(client, base, start);
            && SameRank(rising, RankBy(1.0))
            && Drained(Queued(rising, RankBy(1.0)), RankBy(1.0)) == [rising[0], rising[2], rising[1], rising[3]]
  {
    var rising := Rising(client, base, start);
    assert rising == [rising[0], rising[1], rising[2], rising[3]];
    forall i | 0 <= i < 4 ensures RankBy(1.0)(rising[i]) == (base + 3 + start) as real {
      assert Rank(rising[i], 1.0) == (base + 3 - i) as real + (start + i) as real;
    }
    FourEqualsOutOfOrder(rising[0], rising[1], rising[2], rising[3], RankBy(1.0));
  }

  lemma FewEqualsRest(entries: seq<Entry>, rank: Entry -> real)
    requires SameRank(entries, rank) && 0 < |entries| <= 3
    ensures Rest(entries, rank) == entries[1..]
  {
    var n := |entries| - 1;
    var front := Swapped(entries, 0, n)[..n];
    if n == 2 {
      assert front == [entries[2], entries[1]];
      BestOfEquals(front, 0, FirstChild(front, 0), LastChild(front, 0), rank);
      assert BestChildOf(front, 0, rank) == 1;
      assert Sunk(front, 0, rank) == Sunk(Swapped(front, 1, 0), 1, rank) == Swapped(front, 1, 0);
      assert Swapped(front, 1, 0) == entries[1..];
    } else {
      assert front == entries[1..];
    }
  }

  // ---------------------------------------------------------------- the queue

  lemma FirstIsBest(items: seq<Entry>, counter: nat, factor: real)
    requires Heap(items, RankBy(factor)) && items != []
    ensures forall e :: e in items ==> CheckPriority(items[0], e, counter, factor)
  {
    forall e | e in items
      ensures CheckPriority(items[0], e, counter, factor)
    {
      var i :| 0 <= i < |items| && items[i] == e;
      RootIsMinimal(items, RankBy(factor), i);
      OrderIgnoresCounter(items[0], e, counter, counter, factor);
    }
  }

  /** The scan of an element's children has come to `child`, and `best` is the best so far. */
  predicate Scanned(items: seq<Entry>, i: nat, best: nat, child: nat, rank: Entry -> real) {
    && i <= best < |items| && (best == i || best < child)
    && var end := LastChild(items, i);
       BestOf(items, best, if child < end then child else end, end, rank) == BestChildOf(items, i, rank)
  }

  lemma ScanStep(items: seq<Entry>, i: nat, best: nat, child: nat, rank: Entry -> real)
    requires Scanned(items, i, best, child, rank) && i < child < LastChild(items, i)
    ensures Scanned(items, i, if rank(items[child]) <= rank(items[best]) then child else best, child + 1, rank)
  {
  }

  class Queue {
    var items: seq<Entry>
    const factor: real

    ghost predicate Valid()
      reads this
    {
      Heap(items, RankBy(factor))
    }

    constructor (factor: real)
      ensures Valid() && items == [] && this.factor == factor
    {
      items := [];
      this.factor := factor;
    }

    function NumberWaiting(): nat
      reads this
    {
      |items|
    }

    /** The comparison that the queue is given: `priority_adjust` at the present counter. */
    method Precedes(left: Entry, right: Entry, counter: nat) returns (precedes: bool)
      ensures precedes <==> RankBy(factor)(left) <= RankBy(factor)(right)
    {
      OrderIgnoresCounter(left, right, counter, counter, factor);
      precedes := CheckPriority(left, right, counter, factor);
    }

    method SwitchElements(i: nat, j: nat)
      requires i < |items| && j < |items|
      modifies this
      ensures items == Swapped(old(items), i, j)
    {
      items := items[i := items[j]][j := items[i]];
    }

    method SiftUp(counter: nat)
      requires items != []
      modifies this
      ensures items == Lifted(old(items), |old(items)| - 1, RankBy(factor))
      ensures multiset(items) == multiset(old(items))
      ensures (forall i :: 0 < i < |old(items)| - 1 ==> Above(old(items), i, RankBy(factor))) ==> Valid()
    {
      LiftedKeeps(items, |items| - 1, RankBy(factor));
      if forall i :: 0 < i < |items| - 1 ==> Above(items, i, RankBy(factor)) {
        LiftedIsHeap(items, |items| - 1, RankBy(factor));
      }
      var current := |items| - 1;
      while current > 0
        invariant 0 <= current < |items|
        invariant Lifted(items, current, RankBy(factor)) == Lifted(old(items), |old(items)| - 1, RankBy(factor))
      {
        var parent := (current - 1) / ORDER;
        var precedes := Precedes(items[parent], items[current], counter);
        if !precedes {
          SwitchElements(current, parent);
          current := parent;
        } else {
          break;
        }
      }
    }

    method SiftDown(counter: nat)
      modifies this
      ensures items == Sunk(old(items), 0, RankBy(factor))
      ensures multiset(items) == multiset(old(items))
      ensures (forall i :: 0 < i < |old(items)| && Parent(i) != 0 ==> Above(old(items), i, RankBy(factor))) ==> Valid()
    {
      SunkKeeps(items, 0, RankBy(factor));
      if items != [] && forall i :: 0 < i < |items| && Parent(i) != 0 ==> Above(items, i, RankBy(factor)) {
        SunkIsHeap(items, 0, RankBy(factor));
      }
      var current := 0;
      while current < |items| - 1
        invariant 0 <= current && (current < |items| || items == [])
        invariant Sunk(items, current, RankBy(factor)) == Sunk(old(items), 0, RankBy(factor))
        decreases |items| - current
      {
        var greatest, greater := BestChild(current, counter);
        if greater {
          SwitchElements(greatest, current);
          current := greatest;
        } else {
          break;
        }
      }
    }

    /** The scan over the children of `current`: the last of the best among those that should come before it. */
    method BestChild(current: nat, counter: nat) returns (greatest: nat, greater: bool)
      requires current < |items|
      ensures greater <==> BestChildOf(items, current, RankBy(factor)) != current
      ensures greater ==> greatest == BestChildOf(items, current, RankBy(factor))
      ensures greater ==> current < greatest < |items| && Parent(greatest) == current
                          && Rank(items[greatest], factor) <= Rank(items[current], factor)
                          && forall i :: 0 < i < |items| && Parent(i) == current ==>
                               Rank(items[greatest], factor) <= Rank(items[i], factor)
      ensures !greater ==> forall i :: 0 < i < |items| && Parent(i) == current ==> Above(items, i, RankBy(factor))
    {
      var currentChild: nat := current * ORDER + 1;
      greatest := currentChild;
      greater := false;
      var n := 0;
      while n < ORDER && currentChild < |items|
        invariant 0 <= n <= ORDER && currentChild == current * ORDER + 1 + n
        invariant greater ==> current < greatest < |items|
        invariant Scanned(items, current, if greater then greatest else current, currentChild, RankBy(factor))
      {
        ScanStep(items, current, if greater then greatest else current, currentChild, RankBy(factor));
        var precedes := Precedes(items[currentChild], items[if greater then greatest else current], counter);
        if precedes {
          greater, greatest := true, currentChild;
        }
        n := n + 1;
        currentChild := currentChild + 1;
      }
      assert currentChild >= LastChild(items, current);
      BestChildIsBest(items, current, RankBy(factor));
    }

    method InsertCommand(e: Entry, counter: nat)
      requires Valid()
      modifies this
      ensures Valid()
      ensures items == Added(old(items), e, RankBy(factor))
      ensures multiset(items) == multiset(old(items)) + multiset{e}
    {
      AddedIsHeap(items, e, RankBy(factor));
      AddedKeeps(items, e, RankBy(factor));
      items := items + [e];
      SiftUp(counter);
    }

    /** Gives the best waiting command by the dynamic priority of the moment. */
    method TransferTopCommand(counter: nat) returns (top: Option<Entry>)
      requires Valid()
      modifies this
      ensures Valid()
      ensures top.None? <==> old(items) == []
      ensures top.None? ==> items == []
      ensures top.Some? ==> top.value == old(items)[0] && items == Rest(old(items), RankBy(factor))
      ensures top.Some? ==> multiset(old(items)) == multiset(items) + multiset{top.value}
      ensures top.Some? ==>
                forall e :: e in old(items) ==> CheckPriority(top.value, e, counter, factor)
    {
      if |items| == 0 {
        return None;
      }
      RestIsHeap(items, RankBy(factor));
      RestKeeps(items, RankBy(factor));
      FirstIsBest(items, counter, factor);
      top := Some(items[0]);
      SwitchElements(0, |items| - 1);
      items := items[..|items| - 1];
      if |items| > 1 {
        SiftDown(counter);
      }
    }

    /** Commands of a removed client are only marked; they come out when they reach the top. */
    method RemoveCommands(handle: Handle)
      requires Valid()
      modifies this
      ensures Valid()
      ensures |items| == |old(items)|
      ensures forall i :: 0 <= i < |items| ==> items[i] == Cancelled(old(items)[i], handle)
      // in plain terms: only the client's own commands change, and only in that it is not known any more
      ensures forall i :: 0 <= i < |items| ==> items[i].key != Some(handle)
      ensures forall i :: 0 <= i < |items| && old(items)[i].key != Some(handle) ==> items[i] == old(items)[i]
      ensures forall i :: 0 <= i < |items| && old(items)[i].key == Some(handle) ==>
                items[i].key == None && items[i].(key := Some(handle)) == old(items)[i]
    {
      ghost var before := items;
      var current := 0;
      while current < |items|
        invariant 0 <= current <= |items| == |before|
        invariant forall i :: 0 <= i < current ==> items[i] == Cancelled(before[i], handle)
        invariant forall i :: current <= i < |items| ==> items[i] == before[i]
      {
        if items[current].key == Some(handle) {
          items := items[current := items[current].(key := None)];
        }
        current := current + 1;
      }
      forall i | 0 < i < |items|
        ensures Above(items, i, RankBy(factor))
      {
        assert Above(before, i, RankBy(factor));
      }
    }
  }
}
