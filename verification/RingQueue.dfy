/** The ring that the logger's queue is made of, and the blocking queue around it. */
module RingQueue {
  import opened Arithmetic

  /** What `push_back` does to a ring that holds at most `room` items: the oldest makes way. */
  function Pushed<T>(items: seq<T>, room: nat, item: T): (r: seq<T>)
    requires |items| <= room && 0 < room
    ensures |r| <= room
  {
    if |items| < room then items + [item] else items[1..] + [item]
  }

  /** One step around a circle of `m` places. */
  lemma ModStep(x: nat, m: nat)
    requires x < 2 * m
    ensures x % m == if x < m then x else x - m
  {
    if m <= x {
      assert x == m * 1 + (x - m);
      ModUnique(x, m, 1, x - m);
    }
  }

  /** The items between `head` and `tail`, around the end if need be. */
  function RingView<T>(s: seq<T>, head: nat, tail: nat): seq<T>
    requires head <= |s| && tail <= |s|
  {
    if tail >= head then s[head..tail] else s[head..] + s[..tail]
  }

  function Next(i: nat, m: nat): nat { if i + 1 < m then i + 1 else 0 }

  lemma RingPush<T>(s: seq<T>, head: nat, tail: nat, item: T)
    requires head < |s| && tail < |s|
    ensures var t := Next(tail, |s|);
            if t != head then RingView(s[tail := item], head, t) == RingView(s, head, tail) + [item]
            else |s| == 1 || RingView(s[tail := item], Next(head, |s|), t) == RingView(s, head, tail)[1..] + [item]
    ensures Next(tail, |s|) == head <==> |RingView(s, head, tail)| == |s| - 1
    ensures |RingView(s, head, tail)| < |s|
  {
    var s' := s[tail := item];
    assert s'[..tail] == s[..tail] && s'[..tail + 1] == s[..tail] + [item] && s'[tail + 1..] == s[tail + 1..];
    if head <= tail {
      assert s'[head..tail + 1] == s[head..tail] + [item];
      if tail + 1 == |s| { assert s'[head..] + s'[..0] == s'[head..tail + 1]; }
    } else {
      assert s'[head..] == s[head..];
      assert s[head..] + (s[..tail] + [item]) == s[head..] + s[..tail] + [item];
    }
  }

  lemma RingNone<T>(s: seq<T>, head: nat)
    requires head <= |s|
    ensures RingView(s, head, head) == []
  {
  }

  lemma RingPop<T>(s: seq<T>, head: nat, tail: nat)
    requires head < |s| && tail < |s| && head != tail
    ensures RingView(s, Next(head, |s|), tail) == RingView(s, head, tail)[1..]
  {
  }

  lemma RingAt<T>(s: seq<T>, head: nat, tail: nat, i: nat)
    requires head < |s| && tail < |s| && i < |RingView(s, head, tail)|
    ensures RingView(s, head, tail)[i] == s[if head + i < |s| then head + i else head + i - |s|]
  {
  }

  class CircularQ<T(0)> {
    var maxItems: nat
    var head: nat
    var tail: nat
    var overrun: nat
    var v: array<T>

    ghost predicate Valid()
      reads this
    {
      && v.Length == maxItems
      && (maxItems == 0 ==> head == tail == 0)
      && (maxItems != 0 ==> head < maxItems && tail < maxItems)
    }

    function Size(): (n: nat)
      requires Valid()
      reads this, v
      ensures n == |Contents()|
    {
      if tail >= head then tail - head else maxItems - (head - tail)
    }

    ghost function Contents(): seq<T>
      requires Valid()
      reads this, v
    {
      RingView(v[..], head, tail)
    }

    /** The disabled queue. */
    constructor Disabled()
      ensures Valid() && maxItems == 0 && Contents() == [] && overrun == 0 && fresh(v)
    {
      maxItems, head, tail, overrun := 0, 0, 0, 0;
      v := new T[0];
    }

    constructor (max: nat)
      ensures Valid() && maxItems == max + 1 && Contents() == [] && overrun == 0 && fresh(v)
    {
      maxItems, head, tail, overrun := max + 1, 0, 0, 0;
      v := new T[max + 1];
    }

    /** Move construction and move assignment: the other queue is left disabled. */
    method TakeOver(other: CircularQ<T>)
      requires other.Valid() && other != this
      modifies this, other
      ensures Valid() && Contents() == old(other.Contents()) && overrun == old(other.overrun)
              && maxItems == old(other.maxItems)
      ensures other.Valid() && other.maxItems == 0 && other.Contents() == [] && other.overrun == 0
    {
      maxItems, head, tail, overrun, v := other.maxItems, other.head, other.tail, other.overrun, other.v;
      other.maxItems, other.head, other.tail, other.overrun := 0, 0, 0, 0;
      other.v := new T[0];
      assert Contents() == old(other.Contents());
    }

    method PushBack(item: T)
      requires Valid()
      modifies this`head, this`tail, this`overrun, v
      ensures Valid() && v == old(v)
      ensures maxItems == 0 ==> Contents() == [] && overrun == old(overrun)
      ensures 1 < maxItems ==>
                && Contents() == Pushed(old(Contents()), maxItems - 1, item)
                && overrun == old(overrun) + if |old(Contents())| == maxItems - 1 then 1 else 0
      ensures maxItems == 1 ==> Contents() == [] && overrun == old(overrun) + 1
    {
      hide RingView;
      RingNone(v[..], 0);
      if maxItems > 0 {
        RingPush(v[..], head, tail, item);
        ModStep(tail + 1, maxItems);
        ModStep(head + 1, maxItems);
        v[tail] := item;
        assert v[..] == old(v[..])[tail := item];
        RingNone(v[..], 0);
        tail := (tail + 1) % maxItems;
        if tail == head {
          head := (head + 1) % maxItems;
          overrun := overrun + 1;
        }
      }
    }

    method Front() returns (item: T)
      requires Valid() && Contents() != []
      ensures item == Contents()[0]
    {
      item := v[head];
    }

    method At(i: nat) returns (item: T)
      requires Valid() && i < |Contents()|
      ensures item == Contents()[i]
    {
      ModStep(head + i, maxItems);
      RingAt(v[..], head, tail, i);
      item := v[(head + i) % maxItems];
    }

    method PopFront()
      requires Valid() && Contents() != []
      modifies this`head
      ensures Valid() && Contents() == old(Contents())[1..]
    {
      ModStep(head + 1, maxItems);
      RingPop(v[..], head, tail);
      head := (head + 1) % maxItems;
    }

    predicate Empty()
      requires Valid()
      reads this, v
      ensures Empty() <==> Contents() == []
    {
      tail == head
    }

    predicate Full()
      requires Valid()
      reads this, v
      ensures 0 < maxItems ==> (Full() <==> |Contents()| == maxItems - 1)
      ensures maxItems == 0 ==> !Full()
    {
      if maxItems > 0 then ModStep(tail + 1, maxItems); (tail + 1) % maxItems == head else false
    }
  }

  /** How an accepted item left the queue. */
  datatype Removal<T> = Dequeued(item: T) | Overrun(item: T)

  function Items<T>(removed: seq<Removal<T>>): seq<T> {
    seq(|removed|, i requires 0 <= i < |removed| => removed[i].item)
  }

  function DequeuedOnly<T>(removed: seq<Removal<T>>): seq<T> {
    if removed == [] then []
    else
      var last := removed[|removed| - 1];
      DequeuedOnly(removed[..|removed| - 1]) + if last.Dequeued? then [last.item] else []
  }

  lemma RemovedSnoc<T>(removed: seq<Removal<T>>, r: Removal<T>)
    ensures Items(removed + [r]) == Items(removed) + [r.item]
    ensures DequeuedOnly(removed + [r]) == DequeuedOnly(removed) + if r.Dequeued? then [r.item] else []
  {
    assert (removed + [r])[..|removed|] == removed;
  }

  /** What has happened to a queue so far. */
  datatype History<T> = History(offered: nat, accepted: seq<T>, delivered: seq<T>, removed: seq<Removal<T>>)

  /** Conservation: the ring holds the newest accepted items that have not been removed, in acceptance
      order; deliveries follow acceptance order; and the counters balance. */
  ghost predicate Balanced<T>(h: History<T>, items: seq<T>, overrun: nat, discarded: nat) {
    && h.accepted == Items(h.removed) + items
    && h.delivered == DequeuedOnly(h.removed)
    && |h.removed| == |h.delivered| + overrun
    && |h.accepted| == |h.delivered| + |items| + overrun
    && h.offered == |h.accepted| + discarded
  }

  function AcceptedOne<T>(h: History<T>, items: seq<T>, room: nat, item: T): History<T>
    requires 0 < room
  {
    History(h.offered + 1, h.accepted + [item], h.delivered,
            if |items| < room || items == [] then h.removed else h.removed + [Overrun(items[0])])
  }

  function DeliveredOne<T>(h: History<T>, item: T): History<T> {
    History(h.offered, h.accepted, h.delivered + [item], h.removed + [Dequeued(item)])
  }

  lemma AcceptBalanced<T>(h: History<T>, items: seq<T>, overrun: nat, discarded: nat, room: nat, item: T)
    requires Balanced(h, items, overrun, discarded) && |items| <= room && 0 < room
    ensures Balanced(AcceptedOne(h, items, room, item), Pushed(items, room, item),
                     overrun + if |items| == room then 1 else 0, discarded)
  {
    hide Items, DequeuedOnly;
    if |items| == room {
      RemovedSnoc(h.removed, Overrun(items[0]));
      assert items == [items[0]] + items[1..];
      assert Items(h.removed) + items + [item] == Items(h.removed) + [items[0]] + (items[1..] + [item]);
    } else {
      assert Items(h.removed) + items + [item] == Items(h.removed) + (items + [item]);
    }
  }

  lemma DeliverBalanced<T>(h: History<T>, items: seq<T>, overrun: nat, discarded: nat)
    requires Balanced(h, items, overrun, discarded) && items != []
    ensures Balanced(DeliveredOne(h, items[0]), items[1..], overrun, discarded)
  {
    RemovedSnoc(h.removed, Dequeued(items[0]));
    assert items == [items[0]] + items[1..];
  }

  /** Multi-producer, multi-consumer blocking queue. Each method is one critical section under the
      queue's mutex; `Enqueue` and `Dequeue` run when the predicate they wait for holds. */
  class MpmcBlockingQueue<T(0)> {
    const q: CircularQ<T>
    var discarded: nat
    ghost var history: History<T>

    ghost predicate Valid()
      reads this, q, q.v
    {
      && q.Valid() && 2 <= q.maxItems
      && Balanced(history, q.Contents(), q.overrun, discarded)
    }

    ghost function Room(): nat
      reads q
    {
      if q.maxItems == 0 then 0 else q.maxItems - 1
    }

    constructor (max: nat)
      requires 1 <= max
      ensures Valid() && q.Contents() == [] && Room() == max && fresh(q) && fresh(q.v)
      ensures history == History(0, [], [], [])
    {
      q := new CircularQ(max);
      discarded := 0;
      history := History(0, [], [], []);
    }

    method EnqueueNowait(item: T)
      requires Valid()
      modifies this, q, q.v
      ensures Valid() && q.v == old(q.v) && Room() == old(Room())
      ensures q.Contents() == Pushed(old(q.Contents()), Room(), item)
      ensures q.overrun == old(q.overrun) + if |old(q.Contents())| == Room() then 1 else 0
      ensures history == AcceptedOne(old(history), old(q.Contents()), Room(), item) && discarded == old(discarded)
    {
      AcceptBalanced(history, q.Contents(), q.overrun, discarded, Room(), item);
      hide Balanced, CircularQ.Contents;
      history := AcceptedOne(history, q.Contents(), Room(), item);
      q.PushBack(item);
    }

    method Enqueue(item: T)
      requires Valid() && |q.Contents()| < Room()
      modifies this, q, q.v
      ensures Valid() && q.v == old(q.v) && Room() == old(Room())
      ensures q.Contents() == old(q.Contents()) + [item] && q.overrun == old(q.overrun)
      ensures history == AcceptedOne(old(history), old(q.Contents()), Room(), item) && discarded == old(discarded)
    {
      AcceptBalanced(history, q.Contents(), q.overrun, discarded, Room(), item);
      hide Balanced, CircularQ.Contents;
      history := AcceptedOne(history, q.Contents(), Room(), item);
      q.PushBack(item);
    }

    method EnqueueIfHaveRoom(item: T)
      requires Valid()
      modifies this, q, q.v
      ensures Valid() && q.v == old(q.v) && Room() == old(Room()) && q.overrun == old(q.overrun)
      ensures if |old(q.Contents())| < Room() then
                && q.Contents() == old(q.Contents()) + [item] && discarded == old(discarded)
                && history == AcceptedOne(old(history), old(q.Contents()), Room(), item)
              else
                && q.Contents() == old(q.Contents()) && discarded == old(discarded) + 1
                && history == old(history).(offered := old(history).offered + 1)
    {
      var pushed := false;
      if !q.Full() {
        Enqueue(item);
        pushed := true;
      }
      if !pushed {
        discarded := discarded + 1;
        history := history.(offered := history.offered + 1);
      }
    }

    method Dequeue() returns (item: T)
      requires Valid() && q.Contents() != []
      modifies this, q
      ensures Valid() && q.v == old(q.v) && Room() == old(Room())
      ensures item == old(q.Contents())[0] && q.Contents() == old(q.Contents())[1..]
      ensures history == DeliveredOne(old(history), item) && q.overrun == old(q.overrun) && discarded == old(discarded)
    {
      DeliverBalanced(history, q.Contents(), q.overrun, discarded);
      hide Balanced, CircularQ.Contents;
      item := q.Front();
      history := DeliveredOne(history, item);
      q.PopFront();
    }
  }
}
