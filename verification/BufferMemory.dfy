/** What a program of buffer operations does, on values: blocks are numbered in the order of their allocation,
    buffers in the order of their construction. */
module BufferMemory {
  import opened Bytes
  import opened Buffers

  /** A buffer refers to a block, or to none any more. Its view begins at `read`. */
  datatype Slot = Gone | At(block: nat, read: nat, own: bool, view: seq<Byte>) {
    function End(): nat
      requires At?
    {
      read + |view|
    }
  }

  datatype Memory = Memory(slots: seq<Slot>, capacities: seq<nat>)

  datatype Op =
    | Make(size: nat)
    | CopyOf(from: nat)
    | MoveOf(from: nat)
    | SliceOf(from: nat, offset: nat, length: nat)
    | PacketOf(from: nat, length: nat)
    | Assign(to: nat, from: nat)
    | MoveAssign(to: nat, from: nat)
    | Append(to: nat, bytes: seq<Byte>)
    | Detach(to: nat, additional: nat)
    | Skip(to: nat, len: nat)
    | Destroy(to: nat)

  const NOTHING := Memory([], [])

  predicate Live(m: Memory, i: nat) { i < |m.slots| && m.slots[i].At? }

  /** 8 <= read <= write <= capacity, for every buffer */
  predicate WellFormed(m: Memory) {
    forall i :: 0 <= i < |m.slots| && m.slots[i].At? ==>
      && m.slots[i].block < |m.capacities|
      && PREPEND <= m.slots[i].read && m.slots[i].End() <= m.capacities[m.slots[i].block]
  }

  /** The buffers that refer to block `k` */
  function References(m: Memory, k: nat): set<nat> {
    set i: nat | i < |m.slots| && m.slots[i].At? && m.slots[i].block == k
  }

  function Room(m: Memory, i: nat): nat
    requires WellFormed(m) && Live(m, i)
  {
    m.capacities[m.slots[i].block] - m.slots[i].End()
  }

  /** An append that would have to move a block under its other readers; it is not made. */
  predicate Refused(m: Memory, op: Op)
    requires WellFormed(m)
  {
    op.Append? && Live(m, op.to) && Room(m, op.to) < |op.bytes| && m.slots[op.to].own
    && References(m, m.slots[op.to].block) != {op.to}
  }

  /** Bytes written into block `k` from place `at` on, as another buffer sees them */
  function Overlaid(s: Slot, k: nat, at: nat, bytes: seq<Byte>): Slot {
    if s.Gone? || s.block != k then s
    else
      s.(view := seq(|s.view|, x requires 0 <= x < |s.view| =>
                   if at <= s.read + x < at + |bytes| then bytes[s.read + x - at] else s.view[x]))
  }

  /** `i` gets a block of its own. */
  function Detached(m: Memory, i: nat, view: seq<Byte>, capacity: nat): Memory
    requires Live(m, i)
  {
    Memory(m.slots[i := At(|m.capacities|, PREPEND, true, view)], m.capacities + [capacity])
  }

  function Appended(m: Memory, i: nat, bytes: seq<Byte>): Memory
    requires WellFormed(m) && Live(m, i)
  {
    var s := m.slots[i];
    if |bytes| <= Room(m, i) then
      m.(slots := seq(|m.slots|, j requires 0 <= j < |m.slots| =>
           if j == i then s.(view := s.view + bytes) else Overlaid(m.slots[j], s.block, s.End(), bytes)))
    else if !s.own then Detached(m, i, s.view + bytes, PREPEND + |s.view| + |bytes|)
    else if Refused(m, Append(i, bytes)) then m
    else Memory(m.slots[i := At(s.block, PREPEND, true, s.view + bytes)],
                m.capacities[s.block := Resized(m.capacities[s.block], s.End(), s.read, |bytes|)])
  }

  /** A part of what `s` reads */
  function Sliced(s: Slot, offset: nat, length: nat): Slot
    requires s.At? && offset + length <= |s.view|
  {
    At(s.block, s.read + offset, false, s.view[offset..offset + length])
  }

  function Cut(s: Slot, len: nat): Slot
    requires s.At? && len <= |s.view|
  {
    s.(read := s.read + len, view := s.view[len..])
  }

  function Skipped(s: Slot, len: nat): Slot
    requires s.At?
  {
    if len < |s.view| then Cut(s, len) else s.(read := PREPEND, view := [])
  }

  /** One operation; it is made if its operands are live buffers. */
  function Apply(m: Memory, op: Op): Memory
    requires WellFormed(m)
  {
    match op
    case Make(size) => Memory(m.slots + [At(|m.capacities|, PREPEND, true, [])], m.capacities + [PREPEND + size])
    case CopyOf(i) => if Live(m, i) then m.(slots := m.slots + [m.slots[i].(own := false)]) else m
    case MoveOf(i) => if Live(m, i) then m.(slots := m.slots[i := Gone] + [m.slots[i]]) else m
    case SliceOf(i, offset, length) =>
      if Live(m, i) && offset + length <= |m.slots[i].view| then
        m.(slots := m.slots + [Sliced(m.slots[i], offset, length)])
      else m
    case PacketOf(i, length) =>
      if Live(m, i) && length <= |m.slots[i].view| then
        m.(slots := m.slots[i := Cut(m.slots[i], length)] + [Sliced(m.slots[i], 0, length)])
      else m
    case Assign(to, from) =>
      if to < |m.slots| && Live(m, from) && to != from then
        m.(slots := m.slots[to := m.slots[from].(own := false)])
      else m
    case MoveAssign(to, from) =>
      if to < |m.slots| && Live(m, from) && to != from then
        m.(slots := m.slots[to := m.slots[from]][from := Gone])
      else m
    case Append(i, bytes) => if Live(m, i) then Appended(m, i, bytes) else m
    case Detach(i, additional) =>
      if Live(m, i) then Detached(m, i, m.slots[i].view, PREPEND + |m.slots[i].view| + additional) else m
    case Skip(i, len) =>
      if Live(m, i) then m.(slots := m.slots[i := Skipped(m.slots[i], len)]) else m
    case Destroy(i) => if i < |m.slots| then m.(slots := m.slots[i := Gone]) else m
  }

  lemma AppendedWellFormed(m: Memory, i: nat, bytes: seq<Byte>)
    requires WellFormed(m) && Live(m, i)
    ensures WellFormed(Appended(m, i, bytes))
  {
    if Room(m, i) < |bytes| && m.slots[i].own && !Refused(m, Append(i, bytes)) {
      forall j | 0 <= j < |m.slots| && j != i ensures m.slots[j].At? ==> m.slots[j].block != m.slots[i].block {
        assert j !in References(m, m.slots[i].block);
      }
    }
  }

  lemma ApplyWellFormed(m: Memory, op: Op)
    requires WellFormed(m)
    ensures WellFormed(Apply(m, op))
  {
    hide Appended;
    if op.Append? && Live(m, op.to) { AppendedWellFormed(m, op.to, op.bytes); }
  }

  function ApplyAll(ops: seq<Op>): (m: Memory)
    ensures WellFormed(m)
  {
    if ops == [] then NOTHING
    else
      var m := ApplyAll(ops[..|ops| - 1]);
      ApplyWellFormed(m, ops[|ops| - 1]);
      Apply(m, ops[|ops| - 1])
  }

  // What this means for the buffers as byte queues

  datatype Queue = Closed | Open(bytes: seq<Byte>)

  function QueueOf(s: Slot): Queue { if s.Gone? then Closed else Open(s.view) }

  function Queues(m: Memory): seq<Queue> {
    seq(|m.slots|, i requires 0 <= i < |m.slots| => QueueOf(m.slots[i]))
  }

  /** The operations on plain byte queues, none of which has anything to do with another */
  function Effect(q: seq<Queue>, op: Op): seq<Queue> {
    match op
    case Make(_) => q + [Open([])]
    case CopyOf(i) => if i < |q| && q[i].Open? then q + [q[i]] else q
    case MoveOf(i) => if i < |q| && q[i].Open? then q[i := Closed] + [q[i]] else q
    case SliceOf(i, a, n) =>
      if i < |q| && q[i].Open? && a + n <= |q[i].bytes| then q + [Open(q[i].bytes[a..a + n])] else q
    case PacketOf(i, n) =>
      if i < |q| && q[i].Open? && n <= |q[i].bytes| then q[i := Open(q[i].bytes[n..])] + [Open(q[i].bytes[..n])] else q
    case Assign(to, from) => if to < |q| && from < |q| && q[from].Open? then q[to := q[from]] else q
    case MoveAssign(to, from) =>
      if to < |q| && from < |q| && q[from].Open? && to != from then q[to := q[from]][from := Closed] else q
    case Append(i, bytes) => if i < |q| && q[i].Open? then q[i := Open(q[i].bytes + bytes)] else q
    case Detach(i, _) => q
    case Skip(i, n) =>
      if i < |q| && q[i].Open? then q[i := Open(if n < |q[i].bytes| then q[i].bytes[n..] else [])] else q
    case Destroy(i) => if i < |q| then q[i := Closed] else q
  }

  /** An append into room where buffer `j` of the same block reads other bytes */
  predicate Overwrites(m: Memory, op: Op)
    requires WellFormed(m)
  {
    && op.Append? && Live(m, op.to) && |op.bytes| <= Room(m, op.to)
    && exists j :: 0 <= j < |m.slots| && Clashes(m, op.to, op.bytes, j)
  }

  predicate Clashes(m: Memory, i: nat, bytes: seq<Byte>, j: nat)
    requires Live(m, i) && j < |m.slots|
  {
    && j != i && m.slots[j].At? && m.slots[j].block == m.slots[i].block
    && exists x :: 0 <= x < |m.slots[j].view|
                   && var at := m.slots[j].read + x - m.slots[i].End();
                   0 <= at < |bytes| && bytes[at] != m.slots[j].view[x]
  }

  lemma OverlaidKeepsIff(m: Memory, i: nat, j: nat, bytes: seq<Byte>)
    requires Live(m, i) && j < |m.slots| && j != i
    ensures QueueOf(Overlaid(m.slots[j], m.slots[i].block, m.slots[i].End(), bytes)) == QueueOf(m.slots[j])
            <==> !Clashes(m, i, bytes, j)
  {
    var s := m.slots[j];
    if s.At? && s.block == m.slots[i].block {
      var t := Overlaid(s, m.slots[i].block, m.slots[i].End(), bytes);
      if Clashes(m, i, bytes, j) {
        var x :| 0 <= x < |s.view| && var at := s.read + x - m.slots[i].End();
                 0 <= at < |bytes| && bytes[at] != s.view[x];
        assert t.view[x] != s.view[x];
      } else {
        forall x | 0 <= x < |s.view| ensures t.view[x] == s.view[x] {
          var at := s.read + x - m.slots[i].End();
          assert 0 <= at < |bytes| ==> bytes[at] == s.view[x];
        }
        assert t.view == s.view;
      }
    }
  }

  lemma AppendedQueues(m: Memory, i: nat, bytes: seq<Byte>)
    requires WellFormed(m) && Live(m, i)
    ensures Queues(Appended(m, i, bytes)) == Queues(m)[i := Open(m.slots[i].view + bytes)]
            <==> !Refused(m, Append(i, bytes)) && !Overwrites(m, Append(i, bytes))
  {
    var r, want := Appended(m, i, bytes), Queues(m)[i := Open(m.slots[i].view + bytes)];
    if |bytes| <= Room(m, i) {
      forall j | 0 <= j < |m.slots| && j != i ensures Queues(r)[j] == want[j] <==> !Clashes(m, i, bytes, j) {
        OverlaidKeepsIff(m, i, j, bytes);
      }
      hide Clashes;
    } else if Refused(m, Append(i, bytes)) {
      assert |want[i].bytes| > |Queues(r)[i].bytes|;
    }
  }

  /** When sharing does not show: every operation does to the buffers what it does to independent byte queues,
      unless it is an append that is refused or that writes where another buffer reads something else. */
  lemma ActsOnQueuesIff(m: Memory, op: Op)
    requires WellFormed(m)
    ensures Queues(Apply(m, op)) == Effect(Queues(m), op) <==> !Refused(m, op) && !Overwrites(m, op)
  {
    hide Appended, Refused, Overwrites, Detached, Sliced, Skipped, Cut, WellFormed, Room;
    if op.Append? {
      if Live(m, op.to) { AppendedQueues(m, op.to, op.bytes); } else { NotMade(m, op); }
    } else {
      NotMade(m, op);
      if op.Make? || op.CopyOf? || op.MoveOf? || op.SliceOf? || op.PacketOf? { MadeQueues(m, op); }
      else { ChangedQueues(m, op); }
    }
  }

  lemma MadeQueues(m: Memory, op: Op)
    requires WellFormed(m) && (op.Make? || op.CopyOf? || op.MoveOf? || op.SliceOf? || op.PacketOf?)
    ensures Queues(Apply(m, op)) == Effect(Queues(m), op)
  {
    hide WellFormed, Room, Appended, Detached, Skipped;
  }

  lemma ChangedQueues(m: Memory, op: Op)
    requires WellFormed(m) && (op.Assign? || op.MoveAssign? || op.Detach? || op.Skip? || op.Destroy?)
    ensures Queues(Apply(m, op)) == Effect(Queues(m), op)
  {
    hide WellFormed, Room, Appended, Sliced;
  }

  lemma NotMade(m: Memory, op: Op)
    requires WellFormed(m) && (op.Append? ==> !Live(m, op.to))
    ensures !Refused(m, op) && !Overwrites(m, op)
  {
  }

  // A discipline under which sharing never shows

  /** A block has one owner at most, and no view of the block ends behind that of the owner. */
  ghost predicate OwnersLast(m: Memory) {
    forall i, j :: 0 <= i < |m.slots| && 0 <= j < |m.slots| && i != j ==> Behind(m.slots[i], m.slots[j])
  }

  predicate Behind(s: Slot, t: Slot) {
    s.At? && t.At? && s.block == t.block && s.own ==> !t.own && t.End() <= s.End()
  }

  /** Only an owner appends, and an owner that shares its block is not skipped to its end. */
  predicate Tidy(m: Memory, op: Op) {
    && (op.Append? && Live(m, op.to) ==> m.slots[op.to].own)
    && (op.Skip? && Live(m, op.to) && m.slots[op.to].own && |m.slots[op.to].view| <= op.len ==>
          References(m, m.slots[op.to].block) == {op.to})
  }

  lemma OtherBlock(m: Memory, i: nat, j: nat)
    requires Live(m, i) && j < |m.slots| && j != i && References(m, m.slots[i].block) == {i}
    ensures m.slots[j].Gone? || m.slots[j].block != m.slots[i].block
  {
    assert j !in References(m, m.slots[i].block);
  }

  lemma AppendKeepsOwnersLast(m: Memory, i: nat, bytes: seq<Byte>)
    requires WellFormed(m) && OwnersLast(m) && Live(m, i) && m.slots[i].own
    ensures OwnersLast(Appended(m, i, bytes))
  {
    var r := Appended(m, i, bytes);
    forall a, b | 0 <= a < |r.slots| && 0 <= b < |r.slots| && a != b ensures Behind(r.slots[a], r.slots[b]) {
      assert Behind(m.slots[a], m.slots[b]);
      assert (a != i ==> Behind(m.slots[i], m.slots[a])) && (b != i ==> Behind(m.slots[i], m.slots[b]));
      if Room(m, i) < |bytes| && !Refused(m, Append(i, bytes)) {
        if a != i { OtherBlock(m, i, a); }
        if b != i { OtherBlock(m, i, b); }
      }
    }
  }

  lemma OwnersLastStep(m: Memory, op: Op)
    requires WellFormed(m) && OwnersLast(m) && Tidy(m, op)
    ensures OwnersLast(Apply(m, op))
  {
    hide Appended;
    if op.Append? {
      if Live(m, op.to) { AppendKeepsOwnersLast(m, op.to, op.bytes); }
    } else {
      var r := Apply(m, op);
      forall a, b | 0 <= a < |r.slots| && 0 <= b < |r.slots| && a != b ensures Behind(r.slots[a], r.slots[b]) {
        PairKept(m, op, a, b);
      }
    }
  }

  lemma PairKept(m: Memory, op: Op, a: nat, b: nat)
    requires WellFormed(m) && OwnersLast(m) && Tidy(m, op) && !op.Append?
    requires a < |Apply(m, op).slots| && b < |Apply(m, op).slots| && a != b
    ensures Behind(Apply(m, op).slots[a], Apply(m, op).slots[b])
  {
    hide Appended;
    if op.Skip? {
      if Live(m, op.to) && References(m, m.slots[op.to].block) == {op.to} {
        if a != op.to { OtherBlock(m, op.to, a); }
        if b != op.to { OtherBlock(m, op.to, b); }
      }
      assert Behind(Apply(m, op).slots[a], Apply(m, op).slots[b]);
    } else if op.Make? || op.CopyOf? || op.MoveOf? || op.SliceOf? || op.PacketOf? {
      hide Skipped, Detached, References;
      assert Behind(Apply(m, op).slots[a], Apply(m, op).slots[b]);
    } else {
      hide Skipped, Sliced, Cut, References;
    }
  }

  lemma TidyOverwritesNothing(m: Memory, op: Op)
    requires WellFormed(m) && OwnersLast(m) && Tidy(m, op)
    ensures !Overwrites(m, op)
  {
    if op.Append? && Live(m, op.to) {
      forall j | 0 <= j < |m.slots| ensures !Clashes(m, op.to, op.bytes, j) {
        if j != op.to { assert Behind(m.slots[op.to], m.slots[j]); }
      }
    }
  }

  /** The same operations on plain byte queues */
  function EffectAll(ops: seq<Op>): seq<Queue> {
    if ops == [] then [] else Effect(EffectAll(ops[..|ops| - 1]), ops[|ops| - 1])
  }

  /** A program that keeps to this, and whose appends are all made, sees independent byte queues for its whole run. */
  lemma {:induction false} IndependentQueues(ops: seq<Op>)
    requires forall n :: 0 <= n < |ops| ==> Tidy(ApplyAll(ops[..n]), ops[n]) && !Refused(ApplyAll(ops[..n]), ops[n])
    ensures OwnersLast(ApplyAll(ops)) && Queues(ApplyAll(ops)) == EffectAll(ops)
  {
    hide Apply, Effect, Tidy, Refused, Overwrites;
    if ops == [] {
      assert OwnersLast(NOTHING);
    } else {
      var n := |ops| - 1;
      var m := ApplyAll(ops[..n]);
      forall k | 0 <= k < n
        ensures Tidy(ApplyAll(ops[..n][..k]), ops[..n][k]) && !Refused(ApplyAll(ops[..n][..k]), ops[..n][k]) {
        assert ops[..n][..k] == ops[..k];
      }
      IndependentQueues(ops[..n]);
      TidyOverwritesNothing(m, ops[n]);
      ActsOnQueuesIff(m, ops[n]);
      OwnersLastStep(m, ops[n]);
    }
  }

  /** A block that nobody refers to is never referred to again. */
  lemma FreedForEver(m: Memory, op: Op, k: nat)
    requires WellFormed(m) && k < |m.capacities| && References(m, k) == {}
    ensures k < |Apply(m, op).capacities| && References(Apply(m, op), k) == {}
  {
    forall i: nat | i < |m.slots| ensures m.slots[i].At? ==> m.slots[i].block != k { assert i !in References(m, k); }
  }

  /** It can happen: a buffer that has been read to its end starts again at the front of its block, where a slice
      handed out before is still looking. */
  lemma SliceOverwritten(a: Byte, b: Byte)
    ensures Queues(ApplyAll([Make(10), Append(0, [a]), SliceOf(0, 0, 1), Skip(0, 1), Append(0, [b])]))
            == [Open([b]), Open([b])]
  {
    hide Apply, ApplyAll, WellFormed;
    var m1 := Memory([At(0, PREPEND, true, [])], [PREPEND + 10]);
    var m4 := m1.(slots := [At(0, PREPEND, true, []), At(0, PREPEND, false, [a])]);
    var x, y := At(0, PREPEND, true, [a]), At(0, PREPEND, false, [a]);
    AppendsFirst(m1, a);
    assert [x] + [] == [x];
    Slices(a);
    AppendsFirst(m4, b);
    assert m4.slots[1].(view := [b]) == At(0, PREPEND, false, [b]);
    Then([], Make(10));
    Then([Make(10)], Append(0, [a]));
    Then([Make(10), Append(0, [a])], SliceOf(0, 0, 1));
    Then([Make(10), Append(0, [a]), SliceOf(0, 0, 1)], Skip(0, 1));
    Then([Make(10), Append(0, [a]), SliceOf(0, 0, 1), Skip(0, 1)], Append(0, [b]));
    assert [] + [Make(10)] == [Make(10)];
    assert [Make(10)] + [Append(0, [a])] == [Make(10), Append(0, [a])];
    assert [Make(10), Append(0, [a])] + [SliceOf(0, 0, 1)] == [Make(10), Append(0, [a]), SliceOf(0, 0, 1)];
    assert [Make(10), Append(0, [a]), SliceOf(0, 0, 1)] + [Skip(0, 1)]
           == [Make(10), Append(0, [a]), SliceOf(0, 0, 1), Skip(0, 1)];
    assert ApplyAll([Make(10)]) == m1;
    assert ApplyAll([Make(10), Append(0, [a])]) == m1.(slots := [x]);
    assert ApplyAll([Make(10), Append(0, [a]), SliceOf(0, 0, 1)]) == m1.(slots := [x, y]);
    assert [Make(10), Append(0, [a]), SliceOf(0, 0, 1), Skip(0, 1)] + [Append(0, [b])]
           == [Make(10), Append(0, [a]), SliceOf(0, 0, 1), Skip(0, 1), Append(0, [b])];
  }

  lemma Then(ops: seq<Op>, op: Op)
    ensures ApplyAll([]) == NOTHING
    ensures ApplyAll(ops + [op]) == Apply(ApplyAll(ops), op)
  {
    assert (ops + [op])[..|ops|] == ops;
  }

  lemma AppendsFirst(m: Memory, a: Byte)
    requires m.capacities == [PREPEND + 10] && 1 <= |m.slots| <= 2 && m.slots[0] == At(0, PREPEND, true, [])
    requires |m.slots| == 2 ==>
      m.slots[1].At? && m.slots[1].block == 0 && m.slots[1].read == PREPEND && |m.slots[1].view| == 1
    ensures WellFormed(m)
    ensures Apply(m, Append(0, [a])) ==
      m.(slots := [At(0, PREPEND, true, [a])] + if |m.slots| == 2 then [m.slots[1].(view := [a])] else [])
  {
    assert Room(m, 0) == 10;
    var r := Appended(m, 0, [a]);
    assert r.slots[0] == At(0, PREPEND, true, [] + [a]) && m.slots[0].view + [a] == [a];
    if |m.slots| == 2 {
      assert r.slots[1] == Overlaid(m.slots[1], 0, PREPEND, [a]);
      assert r.slots[1].view == [a];
      assert r.slots == [At(0, PREPEND, true, [a]), m.slots[1].(view := [a])];
    } else {
      assert r.slots == [At(0, PREPEND, true, [a])];
    }
  }

  lemma Slices(a: Byte)
    ensures Apply(NOTHING, Make(10)) == Memory([At(0, PREPEND, true, [])], [PREPEND + 10])
    ensures var m := Memory([At(0, PREPEND, true, [a])], [PREPEND + 10]);
      && WellFormed(m)
      && Apply(m, SliceOf(0, 0, 1)) == m.(slots := [At(0, PREPEND, true, [a]), At(0, PREPEND, false, [a])])
    ensures var m := Memory([At(0, PREPEND, true, [a]), At(0, PREPEND, false, [a])], [PREPEND + 10]);
      WellFormed(m) && Apply(m, Skip(0, 1)) == m.(slots := [At(0, PREPEND, true, []), At(0, PREPEND, false, [a])])
  {
    var s := At(0, PREPEND, true, [a]);
    assert Sliced(s, 0, 1) == At(0, PREPEND, false, [a]);
    var m := Memory([s], [PREPEND + 10]);
    assert Apply(m, SliceOf(0, 0, 1)).slots == [s, At(0, PREPEND, false, [a])];
  }
}
