/** Any number of buffers, and any sequence of operations on them: objects, blocks and counters do what the memory
    on values does. */
module BufferPool {
  import opened Bytes
  import opened Buffers
  import opened BufferMemory

  // Buffers and blocks, read off the heap

  datatype Fields = Fields(block: Block?, read: nat, write: nat, capacity: nat, own: bool)

  datatype Store = Store(data: array<Byte>, content: seq<Byte>, count: int, owners: set<Buffer>, freed: bool)

  ghost function FieldsOf(b: Buffer): Fields
    reads b
  {
    Fields(b.block, b.read, b.write, b.capacity, b.own)
  }

  ghost function StoreOf(k: Block): Store
    reads k, k.data
  {
    Store(k.data, k.data[..], k.count, k.owners, k.freed)
  }

  ghost function AllFields(pool: seq<Buffer>): (fs: seq<Fields>)
    reads pool
    ensures |fs| == |pool| && forall i :: 0 <= i < |fs| ==> fs[i] == FieldsOf(pool[i])
  {
    seq(|pool|, i requires 0 <= i < |pool| reads pool => FieldsOf(pool[i]))
  }

  ghost function AllStores(blocks: seq<Block>): (ss: seq<Store>)
    reads blocks, set k: nat | k < |blocks| :: blocks[k].data
    ensures |ss| == |blocks| && forall k :: 0 <= k < |ss| ==> ss[k] == StoreOf(blocks[k])
  {
    seq(|blocks|,
        k requires 0 <= k < |blocks| reads blocks, set k: nat | k < |blocks| :: blocks[k].data => StoreOf(blocks[k]))
  }

  // When they are what the memory on values says

  ghost predicate Distinct<T>(s: seq<T>) { forall i, j :: 0 <= i < j < |s| ==> s[i] != s[j] }

  /** The buffer reads the slot's bytes from its block. */
  ghost predicate Fits(f: Fields, s: Slot, blocks: seq<Block>, ss: seq<Store>)
    requires |ss| == |blocks|
  {
    && s.At? && s.block < |blocks| && f.block == blocks[s.block]
    && f.read == s.read && f.own == s.own && f.write == s.End()
    && PREPEND <= f.read && s.End() <= f.capacity == |ss[s.block].content|
    && ss[s.block].content[s.read..s.End()] == s.view
  }

  ghost predicate SlotGood(b: Buffer, f: Fields, s: Slot, blocks: seq<Block>, ss: seq<Store>)
    requires |ss| == |blocks|
  {
    if s.Gone? then f.block == null else Fits(f, s, blocks, ss) && b in ss[s.block].owners
  }

  /** The block counts the buffers that refer to it, and is deleted exactly when there are none. */
  ghost predicate StoreGood(k: Block, s: Store, capacity: nat, pool: seq<Buffer>, fs: seq<Fields>)
    requires |fs| == |pool|
  {
    && s.count == |s.owners| && (s.freed <==> s.owners == {}) && |s.content| == capacity
    && (forall b <- s.owners :: b in pool)
    && (forall i :: 0 <= i < |pool| ==> (pool[i] in s.owners <==> fs[i].block == k))
  }

  ghost predicate Good(pool: seq<Buffer>, fs: seq<Fields>, blocks: seq<Block>, ss: seq<Store>, m: Memory) {
    && |pool| == |fs| == |m.slots| && |blocks| == |ss| == |m.capacities|
    && Distinct(pool) && Distinct(blocks)
    && (forall j, k :: 0 <= j < k < |ss| ==> ss[j].data != ss[k].data)
    && (forall i :: 0 <= i < |pool| ==> SlotGood(pool[i], fs[i], m.slots[i], blocks, ss))
    && (forall k :: 0 <= k < |blocks| ==> StoreGood(blocks[k], ss[k], m.capacities[k], pool, fs))
  }

  ghost predicate Backs(pool: seq<Buffer>, blocks: seq<Block>, m: Memory)
    reads pool, blocks, set k: nat | k < |blocks| :: blocks[k].data
  {
    Good(pool, AllFields(pool), blocks, AllStores(blocks), m)
  }

  lemma LiveOf(pool: seq<Buffer>, blocks: seq<Block>, m: Memory, i: nat)
    requires Backs(pool, blocks, m) && Live(m, i)
    ensures pool[i].Live() && pool[i].View() == m.slots[i].view && pool[i].block == blocks[m.slots[i].block]
  {
    var fs, ss, k := AllFields(pool), AllStores(blocks), m.slots[i].block;
    assert SlotGood(pool[i], fs[i], m.slots[i], blocks, ss);
    assert StoreGood(blocks[k], ss[k], m.capacities[k], pool, fs);
    forall b <- blocks[k].owners ensures b.block == blocks[k] {
      var j :| 0 <= j < |pool| && pool[j] == b;
      assert fs[j].block == blocks[k];
    }
    assert blocks[k].data[m.slots[i].read..m.slots[i].End()] == ss[k].content[m.slots[i].read..m.slots[i].End()];
  }

  // Elementary changes, on what has been read off

  lemma SlotKept(b: Buffer, f: Fields, s: Slot, blocks: seq<Block>, ss: seq<Store>, blocks': seq<Block>,
                 ss': seq<Store>)
    requires |ss| == |blocks| && |ss'| == |blocks'| && SlotGood(b, f, s, blocks, ss)
    requires s.At? ==> s.block < |blocks'| && blocks'[s.block] == blocks[s.block]
                       && ss'[s.block].content == ss[s.block].content && b in ss'[s.block].owners
    ensures SlotGood(b, f, s, blocks', ss')
  {
  }

  /** A buffer without a block is there. */
  lemma AddGone(pool: seq<Buffer>, fs: seq<Fields>, blocks: seq<Block>, ss: seq<Store>, m: Memory, b: Buffer, f: Fields)
    requires Good(pool, fs, blocks, ss, m) && b !in pool && f.block == null
    ensures Good(pool + [b], fs + [f], blocks, ss, m.(slots := m.slots + [Gone]))
  {
    hide SlotGood;
    assert SlotGood(b, f, Gone, blocks, ss) by { GoneGood(b, f, blocks, ss); }
    forall k | 0 <= k < |blocks| ensures StoreGood(blocks[k], ss[k], m.capacities[k], pool + [b], fs + [f]) {
      assert StoreGood(blocks[k], ss[k], m.capacities[k], pool, fs);
    }
    hide StoreGood;
  }

  lemma FitsOwned(b: Buffer, f: Fields, s: Slot, blocks: seq<Block>, ss: seq<Store>)
    requires |ss| == |blocks| && s.At? && s.block < |ss| && Fits(f, s, blocks, ss) && b in ss[s.block].owners
    ensures SlotGood(b, f, s, blocks, ss)
  {
  }

  lemma GoneGood(b: Buffer, f: Fields, blocks: seq<Block>, ss: seq<Store>)
    requires f.block == null && |ss| == |blocks|
    ensures SlotGood(b, f, Gone, blocks, ss)
  {
  }

  lemma SlotOf(pool: seq<Buffer>, fs: seq<Fields>, blocks: seq<Block>, ss: seq<Store>, m: Memory, i: nat)
    requires Good(pool, fs, blocks, ss, m) && i < |pool|
    ensures SlotGood(pool[i], fs[i], m.slots[i], blocks, ss)
    ensures m.slots[i].At? ==> m.slots[i].block < |ss| && pool[i] in ss[m.slots[i].block].owners
    ensures m.slots[i].At? ==> fs[i].block == blocks[m.slots[i].block]
    ensures m.slots[i].Gone? ==> fs[i].block == null
  {
  }

  /** The same block with other owners */
  ghost function With(s: Store, owners: set<Buffer>): Store {
    s.(count := |owners|, owners := owners, freed := owners == {})
  }

  lemma StoreOfBlock(pool: seq<Buffer>, fs: seq<Fields>, blocks: seq<Block>, ss: seq<Store>, m: Memory, k: nat)
    requires Good(pool, fs, blocks, ss, m) && k < |blocks|
    ensures StoreGood(blocks[k], ss[k], m.capacities[k], pool, fs) && Distinct(pool)
    ensures forall j :: 0 <= j < |blocks| && j != k ==> blocks[j] != blocks[k]
  {
  }

  /** Buffer `i` has nothing to do with block `k`, before or after. */
  lemma StoreElsewhere(k: Block, s: Store, capacity: nat, pool: seq<Buffer>, fs: seq<Fields>, i: nat, f: Fields)
    requires |fs| == |pool| && i < |pool| && StoreGood(k, s, capacity, pool, fs) && fs[i].block != k && f.block != k
    ensures StoreGood(k, s, capacity, pool, fs[i := f])
  {
  }

  lemma StoreRejoined(k: Block, s: Store, capacity: nat, pool: seq<Buffer>, fs: seq<Fields>, i: nat, f: Fields,
                      owners: set<Buffer>)
    requires |fs| == |pool| && i < |pool| && Distinct(pool) && StoreGood(k, s, capacity, pool, fs)
    requires owners == if f.block == k then s.owners + {pool[i]} else s.owners - {pool[i]}
    ensures StoreGood(k, With(s, owners), capacity, pool, fs[i := f])
  {
    forall n | 0 <= n < |pool| ensures pool[n] in owners <==> fs[i := f][n].block == k {
      assert n != i ==> pool[n] != pool[i];
      assert pool[n] in s.owners <==> fs[n].block == k;
    }
  }

  lemma OtherSlot(pool: seq<Buffer>, fs: seq<Fields>, blocks: seq<Block>, ss: seq<Store>, m: Memory, i: nat, k: nat,
                  owners: set<Buffer>, j: nat)
    requires Good(pool, fs, blocks, ss, m) && i < |pool| && j < |pool| && i != j && k < |ss|
             && ss[k].owners - {pool[i]} <= owners
    ensures SlotGood(pool[j], fs[j], m.slots[j], blocks, ss[k := With(ss[k], owners)])
  {
    hide SlotGood, StoreGood;
    SlotOf(pool, fs, blocks, ss, m, j);
    assert pool[i] != pool[j];
    SlotKept(pool[j], fs[j], m.slots[j], blocks, ss, blocks, ss[k := With(ss[k], owners)]);
  }

  /** Buffer `i` gives up its block, or takes up block `k`. */
  lemma Rejoins(pool: seq<Buffer>, fs: seq<Fields>, blocks: seq<Block>, ss: seq<Store>, m: Memory, i: nat, k: nat,
                f: Fields, s: Slot, owners: set<Buffer>)
    requires Good(pool, fs, blocks, ss, m) && i < |pool| && k < |ss|
    requires m.slots[i].Gone? || m.slots[i].block == k
    requires s.Gone? || s.block == k
    requires owners == if s.Gone? then ss[k].owners - {pool[i]} else ss[k].owners + {pool[i]}
    requires SlotGood(pool[i], f, s, blocks, ss[k := With(ss[k], owners)])
    requires f.block == if s.Gone? then null else blocks[k]
    ensures Good(pool, fs[i := f], blocks, ss[k := With(ss[k], owners)], m.(slots := m.slots[i := s]))
  {
    hide SlotGood, StoreGood;
    var fs', ss', slots' := fs[i := f], ss[k := With(ss[k], owners)], m.slots[i := s];
    forall j | 0 <= j < |pool| ensures SlotGood(pool[j], fs'[j], slots'[j], blocks, ss') {
      if j != i { OtherSlot(pool, fs, blocks, ss, m, i, k, owners, j); }
    }
    forall j | 0 <= j < |blocks| ensures StoreGood(blocks[j], ss'[j], m.capacities[j], pool, fs') {
      SlotOf(pool, fs, blocks, ss, m, i);
      StoreOfBlock(pool, fs, blocks, ss, m, j);
      if j == k {
        StoreRejoined(blocks[k], ss[k], m.capacities[k], pool, fs, i, f, owners);
      } else {
        StoreElsewhere(blocks[j], ss[j], m.capacities[j], pool, fs, i, f);
      }
    }
  }

  /** Buffer `i` gives up its block, if it has one. */
  lemma Leaves(pool: seq<Buffer>, fs: seq<Fields>, blocks: seq<Block>, ss: seq<Store>, m: Memory, i: nat, f: Fields)
    requires Good(pool, fs, blocks, ss, m) && i < |pool| && f.block == null
    ensures Good(pool, fs[i := f], blocks, Left(ss, m.slots[i], pool[i]), m.(slots := m.slots[i := Gone]))
  {
    SlotOf(pool, fs, blocks, ss, m, i);
    GoneGood(pool[i], f, blocks, Left(ss, m.slots[i], pool[i]));
    if m.slots[i].At? {
      hide StoreGood, SlotGood;
      Rejoins(pool, fs, blocks, ss, m, i, m.slots[i].block, f, Gone, ss[m.slots[i].block].owners - {pool[i]});
    } else {
      hide SlotGood, StoreGood;
      assert m.slots[i := Gone] == m.slots;
      forall j | 0 <= j < |blocks| ensures StoreGood(blocks[j], ss[j], m.capacities[j], pool, fs[i := f]) {
        StoreOfBlock(pool, fs, blocks, ss, m, j);
        StoreElsewhere(blocks[j], ss[j], m.capacities[j], pool, fs, i, f);
      }
    }
  }

  ghost function Left(ss: seq<Store>, s: Slot, b: Buffer): (ss': seq<Store>)
    ensures |ss'| == |ss|
  {
    if s.At? && s.block < |ss| then ss[s.block := With(ss[s.block], ss[s.block].owners - {b})] else ss
  }

  ghost function Joined(ss: seq<Store>, s: Slot, b: Buffer): (ss': seq<Store>)
    ensures |ss'| == |ss|
  {
    if s.At? && s.block < |ss| then ss[s.block := With(ss[s.block], ss[s.block].owners + {b})] else ss
  }

  /** Buffer `i` takes up a block, or reads another part of the one it has. */
  lemma Joins(pool: seq<Buffer>, fs: seq<Fields>, blocks: seq<Block>, ss: seq<Store>, m: Memory, i: nat, f: Fields,
              s: Slot)
    requires Good(pool, fs, blocks, ss, m) && i < |pool| && Fits(f, s, blocks, ss)
    requires m.slots[i].Gone? || m.slots[i].block == s.block
    ensures Good(pool, fs[i := f], blocks, Joined(ss, s, pool[i]), m.(slots := m.slots[i := s]))
  {
    hide StoreGood;
    assert SlotGood(pool[i], f, s, blocks, Joined(ss, s, pool[i]));
    hide SlotGood;
    Rejoins(pool, fs, blocks, ss, m, i, s.block, f, s, ss[s.block].owners + {pool[i]});
  }

  /** Buffer `i` gets a block that is new. */
  lemma Attaches(pool: seq<Buffer>, fs: seq<Fields>, blocks: seq<Block>, ss: seq<Store>, m: Memory, i: nat, f: Fields,
                 s: Slot, block: Block, store: Store)
    requires Good(pool, fs, blocks, ss, m) && i < |pool| && m.slots[i].Gone?
    requires block !in blocks && (forall k :: 0 <= k < |ss| ==> ss[k].data != store.data)
    requires store == With(store, {pool[i]}) && s.At? && s.block == |blocks|
    requires SlotGood(pool[i], f, s, blocks + [block], ss + [store])
    ensures Good(pool, fs[i := f], blocks + [block], ss + [store],
                 Memory(m.slots[i := s], m.capacities + [|store.content|]))
  {
    hide SlotGood, StoreGood;
    var fs', bs', ss' := fs[i := f], blocks + [block], ss + [store];
    var m' := Memory(m.slots[i := s], m.capacities + [|store.content|]);
    BlockIs(pool[i], f, s, bs', ss');
    forall j | 0 <= j < |pool| ensures SlotGood(pool[j], fs'[j], m'.slots[j], bs', ss') {
      if j != i { SlotAside(pool, fs, blocks, ss, m, block, store, j); }
    }
    forall j | 0 <= j < |bs'| ensures StoreGood(bs'[j], ss'[j], m'.capacities[j], pool, fs') {
      SlotOf(pool, fs, blocks, ss, m, i);
      BlockAdded(pool, fs, blocks, ss, m, i, f, s, block, store, j);
    }
  }

  lemma BlockIs(b: Buffer, f: Fields, s: Slot, blocks: seq<Block>, ss: seq<Store>)
    requires |ss| == |blocks| && SlotGood(b, f, s, blocks, ss) && s.At?
    ensures s.block < |blocks| && f.block == blocks[s.block]
  {
  }

  /** A block more does not concern the other buffers. */
  lemma SlotAside(pool: seq<Buffer>, fs: seq<Fields>, blocks: seq<Block>, ss: seq<Store>, m: Memory, block: Block,
                  store: Store, j: nat)
    requires Good(pool, fs, blocks, ss, m) && j < |pool|
    ensures SlotGood(pool[j], fs[j], m.slots[j], blocks + [block], ss + [store])
  {
    hide SlotGood, StoreGood;
    SlotOf(pool, fs, blocks, ss, m, j);
    hide Good;
    SlotKept(pool[j], fs[j], m.slots[j], blocks, ss, blocks + [block], ss + [store]);
  }

  lemma BlockAdded(pool: seq<Buffer>, fs: seq<Fields>, blocks: seq<Block>, ss: seq<Store>, m: Memory, i: nat,
                   f: Fields, s: Slot, block: Block, store: Store, j: nat)
    requires Good(pool, fs, blocks, ss, m) && i < |pool| && fs[i].block == null && f.block == block && block !in blocks
    requires store == With(store, {pool[i]}) && j <= |blocks|
    ensures StoreGood((blocks + [block])[j], (ss + [store])[j], (m.capacities + [|store.content|])[j], pool, fs[i := f])
  {
    if j < |blocks| {
      hide SlotGood, StoreGood;
      StoreOfBlock(pool, fs, blocks, ss, m, j);
      StoreElsewhere(blocks[j], ss[j], m.capacities[j], pool, fs, i, f);
    } else {
      hide SlotGood;
      forall n | 0 <= n < |pool| ensures pool[n] in store.owners <==> fs[i := f][n].block == block {
        SlotOf(pool, fs, blocks, ss, m, n);
        assert n != i ==> pool[n] != pool[i];
      }
    }
  }

  /** The bytes of block `k` change, and the indices of a buffer `i` on it. */
  lemma Rewrites(pool: seq<Buffer>, fs: seq<Fields>, blocks: seq<Block>, ss: seq<Store>, m: Memory, i: nat, k: nat,
                 f: Fields, store: Store, m': Memory)
    requires Good(pool, fs, blocks, ss, m) && i < |pool| && k < |ss| && f.block == fs[i].block
    requires store == ss[k].(data := store.data, content := store.content)
    requires forall j :: 0 <= j < |ss| && j != k ==> ss[j].data != store.data
    requires |m'.slots| == |m.slots| && m'.capacities == m.capacities[k := |store.content|]
    requires forall j :: 0 <= j < |pool| ==> SlotGood(pool[j], fs[i := f][j], m'.slots[j], blocks, ss[k := store])
    ensures Good(pool, fs[i := f], blocks, ss[k := store], m')
  {
    hide SlotGood;
    forall j | 0 <= j < |blocks| ensures StoreGood(blocks[j], ss[k := store][j], m'.capacities[j], pool, fs[i := f]) {
      assert StoreGood(blocks[j], ss[j], m.capacities[j], pool, fs);
    }
    hide StoreGood;
  }

  // Changes of several buffers

  /** A new buffer joins a block. */
  lemma Adds(pool: seq<Buffer>, fs: seq<Fields>, blocks: seq<Block>, ss: seq<Store>, m: Memory, b: Buffer, f: Fields,
             s: Slot)
    requires Good(pool, fs, blocks, ss, m) && b !in pool && Fits(f, s, blocks, ss)
    ensures Good(pool + [b], fs + [f], blocks, Joined(ss, s, b), m.(slots := m.slots + [s]))
  {
    hide SlotGood, StoreGood;
    var g := f.(block := null);
    AddGone(pool, fs, blocks, ss, m, b, g);
    var m' := m.(slots := m.slots + [Gone]);
    Joins(pool + [b], fs + [g], blocks, ss, m', |pool|, f, s);
    assert (fs + [g])[|pool| := f] == fs + [f] && m'.slots[|pool| := s] == m.slots + [s];
  }

  /** A new buffer takes the front of what buffer `i` reads. */
  lemma CutsOff(pool: seq<Buffer>, fs: seq<Fields>, blocks: seq<Block>, ss: seq<Store>, m: Memory, i: nat, f: Fields,
                s: Slot, b: Buffer, g: Fields, t: Slot)
    requires Good(pool, fs, blocks, ss, m) && Live(m, i) && i < |pool| && b !in pool
    requires Fits(f, s, blocks, ss) && s.block == m.slots[i].block && Fits(g, t, blocks, ss)
    ensures Good(pool + [b], fs[i := f] + [g], blocks, Joined(ss, t, b), m.(slots := m.slots[i := s] + [t]))
  {
    hide SlotGood, StoreGood;
    Shifts(pool, fs, blocks, ss, m, i, f, s);
    Adds(pool, fs[i := f], blocks, ss, m.(slots := m.slots[i := s]), b, g, t);
  }

  /** A new buffer comes with a new block. */
  lemma AddsBlock(pool: seq<Buffer>, fs: seq<Fields>, blocks: seq<Block>, ss: seq<Store>, m: Memory, b: Buffer,
                  f: Fields, s: Slot, block: Block, store: Store)
    requires Good(pool, fs, blocks, ss, m) && b !in pool
    requires block !in blocks && forall k :: 0 <= k < |ss| ==> ss[k].data != store.data
    requires store == With(store, {b}) && s.At? && s.block == |blocks| && Fits(f, s, blocks + [block], ss + [store])
    ensures Good(pool + [b], fs + [f], blocks + [block], ss + [store],
                 Memory(m.slots + [s], m.capacities + [|store.content|]))
  {
    var g := f.(block := null);
    AddGone(pool, fs, blocks, ss, m, b, g);
    var m' := m.(slots := m.slots + [Gone]);
    FitsOwned(b, f, s, blocks + [block], ss + [store]);
    hide SlotGood, StoreGood;
    Attaches(pool + [b], fs + [g], blocks, ss, m', |pool|, f, s, block, store);
    assert (fs + [g])[|pool| := f] == fs + [f] && m'.slots[|pool| := s] == m.slots + [s];
  }

  /** What buffer `from` refers to passes to buffer `to`, which has given up its own block. */
  lemma Passes(pool: seq<Buffer>, fs: seq<Fields>, blocks: seq<Block>, ss: seq<Store>, m: Memory, to: nat, from: nat,
               f: Fields, g: Fields)
    requires Good(pool, fs, blocks, ss, m) && to < |pool| && from < |pool| && to != from
    requires m.slots[to].Gone? && Fits(f, m.slots[from], blocks, ss) && g.block == null
    ensures Good(pool, fs[to := f][from := g], blocks,
                 Joined(Left(ss, m.slots[from], pool[from]), m.slots[from], pool[to]),
                 m.(slots := m.slots[to := m.slots[from]][from := Gone]))
  {
    hide SlotGood, StoreGood;
    var s := m.slots[from];
    Leaves(pool, fs, blocks, ss, m, from, g);
    var ss', m' := Left(ss, s, pool[from]), m.(slots := m.slots[from := Gone]);
    Joins(pool, fs[from := g], blocks, ss', m', to, f, s);
    assert fs[from := g][to := f] == fs[to := f][from := g];
    assert m'.slots[to := s] == m.slots[to := s][from := Gone];
  }

  /** The owners of block `k` when buffer `to` has changed from one slot to another */
  ghost function Owners(ss: seq<Store>, was: Slot, s: Slot, to: Buffer, k: nat): set<Buffer>
    requires k < |ss|
  {
    if s.At? && s.block == k then ss[k].owners + {to}
    else if was.At? && was.block == k then ss[k].owners - {to}
    else ss[k].owners
  }

  /** The same when `to` takes over from buffer `from` */
  ghost function Passed(ss: seq<Store>, was: Slot, s: Slot, to: Buffer, from: Buffer, k: nat): set<Buffer>
    requires k < |ss|
  {
    if s.At? && s.block == k then ss[k].owners - {from} + {to} else Owners(ss, was, s, to, k)
  }

  lemma LeftAndJoinedAt(ss: seq<Store>, was: Slot, s: Slot, to: Buffer, k: nat)
    requires k < |ss| && ss[k] == With(ss[k], ss[k].owners)
    ensures Joined(Left(ss, was, to), s, to)[k] == With(ss[k], Owners(ss, was, s, to, k))
  {
    assert ss[k].owners - {to} + {to} == ss[k].owners + {to};
  }

  lemma LeftAndJoined(ss: seq<Store>, was: Slot, s: Slot, to: Buffer, ss': seq<Store>)
    requires |ss'| == |ss| && forall k :: 0 <= k < |ss| ==> ss[k] == With(ss[k], ss[k].owners)
    requires forall k :: 0 <= k < |ss| ==> ss'[k] == With(ss[k], Owners(ss, was, s, to, k))
    ensures ss' == Joined(Left(ss, was, to), s, to)
  {
    hide Left, Joined, Owners, With;
    forall k | 0 <= k < |ss| ensures ss'[k] == Joined(Left(ss, was, to), s, to)[k] {
      LeftAndJoinedAt(ss, was, s, to, k);
    }
  }

  lemma Counting(pool: seq<Buffer>, fs: seq<Fields>, blocks: seq<Block>, ss: seq<Store>, m: Memory)
    requires Good(pool, fs, blocks, ss, m)
    ensures forall k :: 0 <= k < |ss| ==> ss[k] == With(ss[k], ss[k].owners)
  {
    hide SlotGood;
    forall k | 0 <= k < |ss| ensures ss[k] == With(ss[k], ss[k].owners) {
      assert StoreGood(blocks[k], ss[k], m.capacities[k], pool, fs);
    }
  }

  /** Buffer `to` gives up its block and takes up another. */
  lemma Shares(pool: seq<Buffer>, fs: seq<Fields>, blocks: seq<Block>, ss: seq<Store>, m: Memory, to: nat, f: Fields,
               s: Slot, ss': seq<Store>)
    requires Good(pool, fs, blocks, ss, m) && to < |pool| && Fits(f, s, blocks, ss)
    requires |ss'| == |ss| && forall k :: 0 <= k < |ss| ==>
      ss'[k] == With(ss[k], Owners(ss, m.slots[to], s, pool[to], k))
    ensures Good(pool, fs[to := f], blocks, ss', m.(slots := m.slots[to := s]))
  {
    hide SlotGood, StoreGood;
    var g := f.(block := null);
    Leaves(pool, fs, blocks, ss, m, to, g);
    var left, m' := Left(ss, m.slots[to], pool[to]), m.(slots := m.slots[to := Gone]);
    Joins(pool, fs[to := g], blocks, left, m', to, f, s);
    assert fs[to := g][to := f] == fs[to := f] && m'.slots[to := s] == m.slots[to := s];
    Counting(pool, fs, blocks, ss, m);
    LeftAndJoined(ss, m.slots[to], s, pool[to], ss');
  }

  /** Buffer `to` gives up its block and takes over what buffer `from` refers to. */
  lemma Takes(pool: seq<Buffer>, fs: seq<Fields>, blocks: seq<Block>, ss: seq<Store>, m: Memory, to: nat, from: nat,
              f: Fields, g: Fields, ss': seq<Store>)
    requires Good(pool, fs, blocks, ss, m) && to < |pool| && from < |pool| && to != from
    requires Fits(f, m.slots[from], blocks, ss) && g.block == null && |ss'| == |ss|
    requires forall k :: 0 <= k < |ss| ==>
      ss'[k] == With(ss[k], Passed(ss, m.slots[to], m.slots[from], pool[to], pool[from], k))
    ensures Good(pool, fs[to := f][from := g], blocks, ss', m.(slots := m.slots[to := m.slots[from]][from := Gone]))
  {
    hide SlotGood, StoreGood;
    var s := m.slots[from];
    var mid := seq(|ss|, k requires 0 <= k < |ss| => With(ss[k], Owners(ss, m.slots[to], s, pool[to], k)));
    Shares(pool, fs, blocks, ss, m, to, f, s, mid);
    var m' := m.(slots := m.slots[to := s]);
    Leaves(pool, fs[to := f], blocks, mid, m', from, g);
    forall k | 0 <= k < |ss| ensures ss'[k] == Left(mid, s, pool[from])[k] {
      assert pool[to] != pool[from];
      assert ss[k].owners - {pool[from]} + {pool[to]} == ss[k].owners + {pool[to]} - {pool[from]};
    }
    assert ss' == Left(mid, s, pool[from]);
  }

  /** Buffer `i` reads another part of its block. */
  lemma Shifts(pool: seq<Buffer>, fs: seq<Fields>, blocks: seq<Block>, ss: seq<Store>, m: Memory, i: nat, f: Fields,
               s: Slot)
    requires Good(pool, fs, blocks, ss, m) && Live(m, i) && i < |pool| && Fits(f, s, blocks, ss)
             && s.block == m.slots[i].block
    ensures Good(pool, fs[i := f], blocks, ss, m.(slots := m.slots[i := s]))
  {
    hide StoreGood;
    Joins(pool, fs, blocks, ss, m, i, f, s);
    SlotOf(pool, fs, blocks, ss, m, i);
    Counting(pool, fs, blocks, ss, m);
    hide SlotGood;
    assert ss[s.block].owners + {pool[i]} == ss[s.block].owners;
    assert Joined(ss, s, pool[i]) == ss;
  }

  /** Buffer `i` gives up its block for a new one. */
  lemma Detaches(pool: seq<Buffer>, fs: seq<Fields>, blocks: seq<Block>, ss: seq<Store>, m: Memory, i: nat, f: Fields,
                 s: Slot, block: Block, store: Store)
    requires Good(pool, fs, blocks, ss, m) && i < |pool|
    requires block !in blocks && forall k :: 0 <= k < |ss| ==> ss[k].data != store.data
    requires store == With(store, {pool[i]}) && s.At? && s.block == |blocks|
    requires Fits(f, s, blocks + [block], Left(ss, m.slots[i], pool[i]) + [store])
    ensures Good(pool, fs[i := f], blocks + [block], Left(ss, m.slots[i], pool[i]) + [store],
                      Memory(m.slots[i := s], m.capacities + [|store.content|]))
  {
    hide SlotGood, StoreGood, Fits;
    var g, ss' := f.(block := null), Left(ss, m.slots[i], pool[i]);
    FitsOwned(pool[i], f, s, blocks + [block], ss' + [store]);
    Leaves(pool, fs, blocks, ss, m, i, g);
    Attaches(pool, fs[i := g], blocks, ss', m.(slots := m.slots[i := Gone]), i, f, s, block, store);
    assert fs[i := g][i := f] == fs[i := f] && m.slots[i := Gone][i := s] == m.slots[i := s];
  }

  /** Bytes go behind the last one of buffer `i`, under the eyes of the other buffers of the block. */
  lemma Writes(pool: seq<Buffer>, fs: seq<Fields>, blocks: seq<Block>, ss: seq<Store>, m: Memory, i: nat, f: Fields,
               bytes: seq<Byte>)
    requires Good(pool, fs, blocks, ss, m) && WellFormed(m) && Live(m, i) && |bytes| <= Room(m, i)
    requires m.slots[i].block < |ss| && m.slots[i].End() + |bytes| <= |ss[m.slots[i].block].content|
    requires f == fs[i].(write := m.slots[i].End() + |bytes|)
    ensures var k := m.slots[i].block;
      Good(pool, fs[i := f], blocks, ss[k := ss[k].(content := Splice(ss[k].content, m.slots[i].End(), bytes))],
           Appended(m, i, bytes))
  {
    hide SlotGood, StoreGood;
    var k, at, m' := m.slots[i].block, m.slots[i].End(), Appended(m, i, bytes);
    var store := ss[k].(content := Splice(ss[k].content, at, bytes));
    forall j | 0 <= j < |pool| ensures SlotGood(pool[j], fs[i := f][j], m'.slots[j], blocks, ss[k := store]) {
      SlotOf(pool, fs, blocks, ss, m, j);
      if j == i {
        WriterGood(pool[i], fs[i], m.slots[i], blocks, ss, bytes);
      } else {
        OverlaidGood(pool[j], fs[j], m.slots[j], blocks, ss, k, at, bytes);
      }
    }
    assert |store.content| == m.capacities[k] by { ContentSize(pool, fs, blocks, ss, m, k); }
    Rewrites(pool, fs, blocks, ss, m, i, k, f, store, m');
  }

  lemma ContentSize(pool: seq<Buffer>, fs: seq<Fields>, blocks: seq<Block>, ss: seq<Store>, m: Memory, k: nat)
    requires Good(pool, fs, blocks, ss, m) && k < |ss|
    ensures |ss[k].content| == m.capacities[k]
  {
    assert StoreGood(blocks[k], ss[k], m.capacities[k], pool, fs);
  }

  lemma WriterGood(b: Buffer, f: Fields, s: Slot, blocks: seq<Block>, ss: seq<Store>, bytes: seq<Byte>)
    requires |ss| == |blocks| && SlotGood(b, f, s, blocks, ss) && s.At? && s.block < |ss|
             && s.End() + |bytes| <= |ss[s.block].content|
    ensures SlotGood(b, f.(write := s.End() + |bytes|), s.(view := s.view + bytes), blocks,
                     ss[s.block := ss[s.block].(content := Splice(ss[s.block].content, s.End(), bytes))])
  {
    SpliceCut(ss[s.block].content, s.End(), bytes, s.read);
  }

  lemma SplicedAt(d: seq<Byte>, at: nat, x: seq<Byte>, i: nat)
    requires at + |x| <= |d| && i < |d|
    ensures Splice(d, at, x)[i] == if at <= i < at + |x| then x[i - at] else d[i]
  {
  }

  lemma OverlaidGood(b: Buffer, f: Fields, s: Slot, blocks: seq<Block>, ss: seq<Store>, k: nat, at: nat,
                     bytes: seq<Byte>)
    requires |ss| == |blocks| && SlotGood(b, f, s, blocks, ss) && k < |ss| && at + |bytes| <= |ss[k].content|
    ensures SlotGood(b, f, Overlaid(s, k, at, bytes), blocks,
                     ss[k := ss[k].(content := Splice(ss[k].content, at, bytes))])
  {
    hide Splice;
    if s.At? && s.block == k {
      var was, now := ss[k].content, Splice(ss[k].content, at, bytes);
      var view := Overlaid(s, k, at, bytes).view;
      forall x | 0 <= x < |s.view| ensures now[s.read..s.End()][x] == view[x] {
        assert now[s.read..s.End()][x] == now[s.read + x];
        assert s.view[x] == was[s.read..s.End()][x] == was[s.read + x];
        SplicedAt(was, at, bytes, s.read + x);
      }
      assert now[s.read..s.End()] == view;
    }
  }

  /** A block with one reader is rewritten under it. */
  lemma RewritesOwn(pool: seq<Buffer>, fs: seq<Fields>, blocks: seq<Block>, ss: seq<Store>, m: Memory, i: nat,
                    f: Fields, s: Slot, store: Store)
    requires Good(pool, fs, blocks, ss, m) && Live(m, i) && s.At? && s.block == m.slots[i].block < |ss|
    requires ss[s.block].owners == {pool[i]} && store == ss[s.block].(data := store.data, content := store.content)
    requires forall j :: 0 <= j < |ss| && j != s.block ==> ss[j].data != store.data
    requires Fits(f, s, blocks, ss[s.block := store])
    ensures Good(pool, fs[i := f], blocks, ss[s.block := store],
                 Memory(m.slots[i := s], m.capacities[s.block := |store.content|]))
  {
    var k, m' := s.block, Memory(m.slots[i := s], m.capacities[s.block := |store.content|]);
    SlotOf(pool, fs, blocks, ss, m, i);
    forall j | 0 <= j < |pool| ensures SlotGood(pool[j], fs[i := f][j], m'.slots[j], blocks, ss[k := store]) {
      SlotOf(pool, fs, blocks, ss, m, j);
      if j != i {
        assert pool[j] != pool[i];
        SlotKept(pool[j], fs[j], m.slots[j], blocks, ss, blocks, ss[k := store]);
      }
    }
    hide SlotGood, StoreGood;
    Rewrites(pool, fs, blocks, ss, m, i, k, f, store, m');
  }

  // The operations

  lemma Apart(pool: seq<Buffer>, blocks: seq<Block>, m: Memory, i: nat)
    requires Backs(pool, blocks, m) && i < |m.slots|
    ensures |pool| == |m.slots| && |blocks| == |m.capacities|
    ensures SlotGood(pool[i], FieldsOf(pool[i]), m.slots[i], blocks, AllStores(blocks))
    ensures forall j :: 0 <= j < |pool| && j != i ==> pool[j] != pool[i]
    ensures m.slots[i].At? ==> forall k :: 0 <= k < |blocks| && k != m.slots[i].block ==>
      blocks[k] != pool[i].block && blocks[k].data != pool[i].block.data
    ensures m.slots[i].Gone? ==> pool[i].block == null && pool[i].Valid()
    ensures m.slots[i].At? ==> m.slots[i].block < |blocks| && pool[i].block == blocks[m.slots[i].block]
    ensures m.slots[i].At? ==> pool[i].Live() && pool[i].View() == m.slots[i].view
    ensures m.slots[i].At? ==> pool[i].read == m.slots[i].read && pool[i].own == m.slots[i].own
    ensures m.slots[i].At? ==> pool[i].capacity == m.capacities[m.slots[i].block]
  {
    assert forall k :: 0 <= k < |blocks| ==> AllStores(blocks)[k].data == blocks[k].data;
    SlotOf(pool, AllFields(pool), blocks, AllStores(blocks), m, i);
    if Live(m, i) {
      LiveOf(pool, blocks, m, i);
      ContentSize(pool, AllFields(pool), blocks, AllStores(blocks), m, m.slots[i].block);
    }
  }

  lemma FitsOf(b: Buffer, s: Slot, blocks: seq<Block>, ss: seq<Store>)
    requires b.Live() && s.At? && s.block < |blocks| == |ss| && b.block == blocks[s.block]
             && ss[s.block].content == b.block.data[..]
    requires b.read == s.read && b.own == s.own && b.View() == s.view
    ensures Fits(FieldsOf(b), s, blocks, ss)
  {
  }

  lemma LiveOk(b: Buffer)
    requires b.Live()
    ensures b.block != null && b.block.Ok()
  {
  }

  lemma StoreIs(k: Block, s: Store, owners: set<Buffer>)
    requires k.Ok() && k.data == s.data && k.data[..] == s.content && k.owners == owners
    ensures StoreOf(k) == With(s, owners)
  {
  }

  ghost function Footprint(pool: seq<Buffer>, blocks: seq<Block>): set<object>
    reads blocks
  {
    (set i: nat | i < |pool| :: pool[i] as object) + (set k: nat | k < |blocks| :: blocks[k] as object)
    + (set k: nat | k < |blocks| :: blocks[k].data as object)
  }

  method MakeNew(pool: seq<Buffer>, ghost blocks: seq<Block>, ghost m: Memory, size: nat) returns (b: Buffer)
    requires WellFormed(m) && Backs(pool, blocks, m)
    ensures b.block != null
    ensures Backs(pool + [b], blocks + [b.block],
                  Memory(m.slots + [At(|m.capacities|, PREPEND, true, [])], m.capacities + [PREPEND + size]))
    ensures fresh(b) && fresh(b.block) && fresh(b.block.data)
  {
    hide SlotGood, StoreGood;
    ghost var fs, ss, s := AllFields(pool), AllStores(blocks), At(|m.capacities|, PREPEND, true, []);
    b := new Buffer(size);
    FitsOf(b, s, blocks + [b.block], ss + [StoreOf(b.block)]);
    AddsBlock(pool, fs, blocks, ss, m, b, FieldsOf(b), s, b.block, StoreOf(b.block));
    assert AllFields(pool + [b]) == fs + [FieldsOf(b)];
    assert AllStores(blocks + [b.block]) == ss + [StoreOf(b.block)];
  }

  method CopyAt(pool: seq<Buffer>, ghost blocks: seq<Block>, ghost m: Memory, i: nat) returns (c: Buffer)
    requires WellFormed(m) && Backs(pool, blocks, m) && Live(m, i)
    modifies Footprint(pool, blocks)
    ensures Backs(pool + [c], blocks, m.(slots := m.slots + [m.slots[i].(own := false)]))
    ensures fresh(c)
    ensures forall k :: 0 <= k < |blocks| ==> blocks[k].data == old(blocks[k].data)
  {
    hide Good, SlotGood, Fits, Buffer.View;
    ghost var fs, ss, s := AllFields(pool), AllStores(blocks), m.slots[i].(own := false);
    Apart(pool, blocks, m, i);
    c := new Buffer.Copy(pool[i]);
    FitsOf(c, s, blocks, ss);
    Adds(pool, fs, blocks, ss, m, c, FieldsOf(c), s);
    assert AllFields(pool + [c]) == fs + [FieldsOf(c)];
    assert AllStores(blocks) == Joined(ss, s, c);
  }

  method MoveAt(pool: seq<Buffer>, ghost blocks: seq<Block>, ghost m: Memory, i: nat) returns (c: Buffer)
    requires WellFormed(m) && Backs(pool, blocks, m) && Live(m, i)
    modifies Footprint(pool, blocks)
    ensures Backs(pool + [c], blocks, m.(slots := m.slots[i := Gone] + [m.slots[i]]))
    ensures fresh(c)
    ensures forall k :: 0 <= k < |blocks| ==> blocks[k].data == old(blocks[k].data)
  {
    hide Good, SlotGood, Fits, Buffer.View;
    ghost var fs, ss, s := AllFields(pool), AllStores(blocks), m.slots[i];
    Apart(pool, blocks, m, i);
    c := new Buffer.Move(pool[i]);
    ghost var f, g := FieldsOf(c), FieldsOf(pool[i]);
    FitsOf(c, s, blocks, ss);
    AddGone(pool, fs, blocks, ss, m, c, g);
    ghost var m' := m.(slots := m.slots + [Gone]);
    Passes(pool + [c], fs + [g], blocks, ss, m', |pool|, i, f, g);
    assert AllFields(pool + [c]) == (fs + [g])[|pool| := f][i := g];
    assert AllStores(blocks) == Joined(Left(ss, s, pool[i]), s, c);
    assert m'.slots[|pool| := s][i := Gone] == m.slots[i := Gone] + [s];
  }

  lemma CutApplied(m: Memory, i: nat, offset: nat, length: nat)
    requires WellFormed(m) && Live(m, i)
    ensures var view := m.slots[i].view;
      && Apply(m, SliceOf(i, offset, length))
         == (if offset + length <= |view| then m.(slots := m.slots + [Sliced(m.slots[i], offset, length)]) else m)
      && Apply(m, PacketOf(i, length))
         == if length <= |view|
            then m.(slots := m.slots[i := Cut(m.slots[i], length)] + [Sliced(m.slots[i], 0, length)]) else m
  {
  }

  /** The slice, if there is one */
  method SliceAt(pool: seq<Buffer>, ghost blocks: seq<Block>, ghost m: Memory, i: nat, offset: nat, length: nat)
    returns (cs: seq<Buffer>)
    requires WellFormed(m) && Backs(pool, blocks, m) && Live(m, i)
    modifies Footprint(pool, blocks)
    ensures Backs(pool + cs, blocks, Apply(m, SliceOf(i, offset, length)))
    ensures forall n :: 0 <= n < |cs| ==> fresh(cs[n])
    ensures forall k :: 0 <= k < |blocks| ==> blocks[k].data == old(blocks[k].data)
  {
    hide Good, SlotGood, Fits, Apply, Buffer.View;
    ghost var fs, ss, s := AllFields(pool), AllStores(blocks), m.slots[i];
    Apart(pool, blocks, m, i);
    CutApplied(m, i, offset, length);
    var c := pool[i].Slice(offset, length);
    if c == null {
      cs := [];
      assert AllFields(pool) == fs && AllStores(blocks) == ss && pool + cs == pool;
    } else {
      cs := [c];
      ghost var t := Sliced(s, offset, length);
      FitsOf(c, t, blocks, ss);
      Adds(pool, fs, blocks, ss, m, c, FieldsOf(c), t);
      assert AllFields(pool + cs) == fs + [FieldsOf(c)];
      assert AllStores(blocks) == Joined(ss, t, c);
    }
  }

  /** The heap after slicePacket */
  lemma PacketBacks(pool: seq<Buffer>, fs: seq<Fields>, blocks: seq<Block>, ss: seq<Store>, m: Memory, i: nat,
                    length: nat, c: Buffer)
    requires WellFormed(m) && Good(pool, fs, blocks, ss, m) && Live(m, i) && i < |pool| && c !in pool
    requires m.slots[i].block < |blocks| && length <= |m.slots[i].view|
    requires pool[i].Live() && pool[i].block == blocks[m.slots[i].block] && pool[i].own == m.slots[i].own
    requires pool[i].View() == m.slots[i].view[length..] && pool[i].read == m.slots[i].read + length
    requires c.Live() && c.block == pool[i].block && !c.own
    requires c.View() == m.slots[i].view[..length] && c.read == m.slots[i].read
    requires ss[m.slots[i].block].content == pool[i].block.data[..]
    requires AllFields(pool + [c]) == fs[i := FieldsOf(pool[i])] + [FieldsOf(c)]
    requires AllStores(blocks) == Joined(ss, Sliced(m.slots[i], 0, length), c)
    ensures Backs(pool + [c], blocks, Apply(m, PacketOf(i, length)))
  {
    hide Good, SlotGood, Fits, Buffer.View, Buffer.Live, Buffer.Valid, AllFields, AllStores, Joined, Apply;
    CutApplied(m, i, 0, length);
    var t, s' := Sliced(m.slots[i], 0, length), Cut(m.slots[i], length);
    FitsOf(c, t, blocks, ss);
    FitsOf(pool[i], s', blocks, ss);
    CutsOff(pool, fs, blocks, ss, m, i, FieldsOf(pool[i]), s', c, FieldsOf(c), t);
  }

  method PacketAt(pool: seq<Buffer>, ghost blocks: seq<Block>, ghost m: Memory, i: nat, length: nat)
    returns (cs: seq<Buffer>)
    requires WellFormed(m) && Backs(pool, blocks, m) && Live(m, i)
    modifies Footprint(pool, blocks)
    ensures Backs(pool + cs, blocks, Apply(m, PacketOf(i, length)))
    ensures forall n :: 0 <= n < |cs| ==> fresh(cs[n])
    ensures forall k :: 0 <= k < |blocks| ==> blocks[k].data == old(blocks[k].data)
  {
    hide Good, SlotGood, Fits, Apply, Buffer.View, Buffer.Live, Buffer.Valid;
    ghost var fs, ss, s := AllFields(pool), AllStores(blocks), m.slots[i];
    Apart(pool, blocks, m, i);
    CutApplied(m, i, 0, length);
    Counting(pool, fs, blocks, ss, m);
    var c := pool[i].SlicePacket(length);
    LiveOk(pool[i]);
    if c == null {
      cs := [];
      assert AllFields(pool) == fs && AllStores(blocks) == ss && pool + cs == pool;
    } else {
      cs := [c];
      assert AllFields(pool + cs) == fs[i := FieldsOf(pool[i])] + [FieldsOf(c)];
      assert AllStores(blocks) == Joined(ss, Sliced(s, 0, length), c);
      hide AllFields, AllStores, Joined;
      PacketBacks(pool, fs, blocks, ss, m, i, length, c);
    }
  }

  /** What an assignment changes on the heap */
  method AssignOn(pool: seq<Buffer>, ghost blocks: seq<Block>, ghost m: Memory, to: nat, from: nat)
    requires WellFormed(m) && Backs(pool, blocks, m) && to < |m.slots| && Live(m, from) && to != from
    modifies Footprint(pool, blocks)
    ensures to < |pool| && |blocks| == |m.capacities| && m.slots[from].block < |blocks|
    ensures pool[to].Live() && pool[to].block == blocks[m.slots[from].block] && pool[to].View() == m.slots[from].view
    ensures pool[to].read == m.slots[from].read && !pool[to].own
    ensures forall j :: 0 <= j < |pool| && j != to ==> FieldsOf(pool[j]) == old(FieldsOf(pool[j]))
    ensures forall k :: 0 <= k < |blocks| ==>
      StoreOf(blocks[k])
      == With(old(StoreOf(blocks[k])), Owners(old(AllStores(blocks)), m.slots[to], m.slots[from], pool[to], k))
  {
    hide Good, SlotGood, Fits, With, Buffer.Live, Buffer.Valid, Block.Ok;
    ghost var ss, s := AllStores(blocks), m.slots[from];
    Apart(pool, blocks, m, from);
    Apart(pool, blocks, m, to);
    Counting(pool, AllFields(pool), blocks, ss, m);
    ghost var left := pool[to].block;
    pool[to].Assign(pool[from]);
    hide Backs;
    LiveOk(pool[to]);
    forall k | 0 <= k < |blocks| ensures StoreOf(blocks[k]) == With(ss[k], Owners(ss, m.slots[to], s, pool[to], k)) {
      if k == s.block {
        StoreIs(blocks[k], ss[k], ss[k].owners + {pool[to]});
      } else if m.slots[to].At? && m.slots[to].block == k {
        assert left == blocks[k] != pool[to].block;
        StoreIs(blocks[k], ss[k], ss[k].owners - {pool[to]});
      } else {
        assert blocks[k] != pool[to].block && blocks[k] != left;
        assert StoreOf(blocks[k]) == ss[k];
      }
    }
  }

  method AssignAt(pool: seq<Buffer>, ghost blocks: seq<Block>, ghost m: Memory, to: nat, from: nat)
    requires WellFormed(m) && Backs(pool, blocks, m) && to < |m.slots| && Live(m, from) && to != from
    modifies Footprint(pool, blocks)
    ensures Backs(pool, blocks, m.(slots := m.slots[to := m.slots[from].(own := false)]))
    ensures forall k :: 0 <= k < |blocks| ==> blocks[k].data == old(blocks[k].data)
  {
    hide Good, SlotGood, Fits;
    ghost var fs, ss, s := AllFields(pool), AllStores(blocks), m.slots[from].(own := false);
    AssignOn(pool, blocks, m, to, from);
    FitsOf(pool[to], s, blocks, ss);
    Shares(pool, fs, blocks, ss, m, to, FieldsOf(pool[to]), s, AllStores(blocks));
    assert AllFields(pool) == fs[to := FieldsOf(pool[to])];
  }

  /** What a move assignment changes on the heap */
  method MoveAssignOn(pool: seq<Buffer>, ghost blocks: seq<Block>, ghost m: Memory, to: nat, from: nat)
    requires WellFormed(m) && Backs(pool, blocks, m) && to < |m.slots| && Live(m, from) && to != from
    modifies Footprint(pool, blocks)
    ensures to < |pool| && |blocks| == |m.capacities| && m.slots[from].block < |blocks| && from < |pool|
    ensures pool[to].Live() && pool[to].block == blocks[m.slots[from].block] && pool[to].View() == m.slots[from].view
    ensures pool[to].read == m.slots[from].read && pool[to].own == m.slots[from].own && pool[from].block == null
    ensures forall j :: 0 <= j < |pool| && j != to && j != from ==> FieldsOf(pool[j]) == old(FieldsOf(pool[j]))
    ensures forall k :: 0 <= k < |blocks| ==>
      StoreOf(blocks[k])
      == With(old(StoreOf(blocks[k])),
              Passed(old(AllStores(blocks)), m.slots[to], m.slots[from], pool[to], pool[from], k))
  {
    hide Good, SlotGood, Fits, With, Buffer.Live, Buffer.Valid, Block.Ok;
    ghost var ss, s := AllStores(blocks), m.slots[from];
    Apart(pool, blocks, m, from);
    Apart(pool, blocks, m, to);
    Counting(pool, AllFields(pool), blocks, ss, m);
    ghost var left := pool[to].block;
    pool[to].MoveAssign(pool[from]);
    hide Backs;
    LiveOk(pool[to]);
    forall k | 0 <= k < |blocks|
      ensures StoreOf(blocks[k]) == With(ss[k], Passed(ss, m.slots[to], s, pool[to], pool[from], k)) {
      if k == s.block {
        StoreIs(blocks[k], ss[k], ss[k].owners - {pool[from]} + {pool[to]});
      } else if m.slots[to].At? && m.slots[to].block == k {
        assert left == blocks[k] != pool[to].block;
        StoreIs(blocks[k], ss[k], ss[k].owners - {pool[to]});
      } else {
        assert blocks[k] != pool[to].block && blocks[k] != left;
        assert StoreOf(blocks[k]) == ss[k];
      }
    }
  }

  method MoveAssignAt(pool: seq<Buffer>, ghost blocks: seq<Block>, ghost m: Memory, to: nat, from: nat)
    requires WellFormed(m) && Backs(pool, blocks, m) && to < |m.slots| && Live(m, from) && to != from
    modifies Footprint(pool, blocks)
    ensures Backs(pool, blocks, m.(slots := m.slots[to := m.slots[from]][from := Gone]))
    ensures forall k :: 0 <= k < |blocks| ==> blocks[k].data == old(blocks[k].data)
  {
    hide Good, SlotGood, Fits;
    ghost var fs, ss, s := AllFields(pool), AllStores(blocks), m.slots[from];
    MoveAssignOn(pool, blocks, m, to, from);
    ghost var f, g := FieldsOf(pool[to]), FieldsOf(pool[from]);
    FitsOf(pool[to], s, blocks, ss);
    Takes(pool, fs, blocks, ss, m, to, from, f, g, AllStores(blocks));
    assert AllFields(pool) == fs[to := f][from := g];
  }

  /** Assigning a buffer to itself, either way */
  method SelfAssignAt(pool: seq<Buffer>, ghost blocks: seq<Block>, ghost m: Memory, i: nat, move: bool)
    requires WellFormed(m) && Backs(pool, blocks, m) && Live(m, i)
    modifies Footprint(pool, blocks)
    ensures Backs(pool, blocks, m) && forall k :: 0 <= k < |blocks| ==> blocks[k].data == old(blocks[k].data)
  {
    hide Good, SlotGood, Fits;
    ghost var fs, ss := AllFields(pool), AllStores(blocks);
    Apart(pool, blocks, m, i);
    Counting(pool, fs, blocks, ss, m);
    if move {
      pool[i].MoveAssign(pool[i]);
    } else {
      pool[i].Assign(pool[i]);
    }
    assert pool[i].block.owners == ss[m.slots[i].block].owners;
    assert AllFields(pool) == fs && AllStores(blocks) == ss;
  }

  /** Buffer `i` has come to a new block with bytes `view`. */
  lemma OwnBlock(pool: seq<Buffer>, fs: seq<Fields>, blocks: seq<Block>, ss: seq<Store>, m: Memory, i: nat,
                 view: seq<Byte>)
    requires Good(pool, fs, blocks, ss, m) && i < |pool|
    requires pool[i].Live() && pool[i].View() == view && pool[i].own && pool[i].read == PREPEND && pool[i].Unshared()
    requires pool[i].block !in blocks && forall k :: 0 <= k < |ss| ==> ss[k].data != pool[i].block.data
    requires AllFields(pool) == fs[i := FieldsOf(pool[i])] && AllStores(blocks) == Left(ss, m.slots[i], pool[i])
    ensures Backs(pool, blocks + [pool[i].block],
                  Memory(m.slots[i := At(|blocks|, PREPEND, true, view)], m.capacities + [pool[i].capacity]))
  {
    hide SlotGood, StoreGood;
    var s, store := At(|blocks|, PREPEND, true, view), StoreOf(pool[i].block);
    FitsOf(pool[i], s, blocks + [pool[i].block], AllStores(blocks) + [store]);
    Detaches(pool, fs, blocks, ss, m, i, FieldsOf(pool[i]), s, pool[i].block, store);
    assert AllStores(blocks + [pool[i].block]) == AllStores(blocks) + [store];
  }

  method DetachAt(pool: seq<Buffer>, ghost blocks: seq<Block>, ghost m: Memory, i: nat, additional: nat)
    requires WellFormed(m) && Backs(pool, blocks, m) && Live(m, i)
    modifies Footprint(pool, blocks)
    ensures pool[i].block != null
    ensures Backs(pool, blocks + [pool[i].block],
                  Detached(m, i, m.slots[i].view, PREPEND + |m.slots[i].view| + additional))
    ensures fresh(pool[i].block) && fresh(pool[i].block.data)
    ensures forall k :: 0 <= k < |blocks| ==> blocks[k].data == old(blocks[k].data)
  {
    hide Good, SlotGood, Fits;
    ghost var fs, ss := AllFields(pool), AllStores(blocks);
    Apart(pool, blocks, m, i);
    pool[i].MakeOwnBuffer(additional);
    OwnBlock(pool, fs, blocks, ss, m, i, m.slots[i].view);
  }

  method SkipAt(pool: seq<Buffer>, ghost blocks: seq<Block>, ghost m: Memory, i: nat, len: nat)
    requires WellFormed(m) && Backs(pool, blocks, m) && Live(m, i)
    modifies Footprint(pool, blocks)
    ensures Backs(pool, blocks, m.(slots := m.slots[i := Skipped(m.slots[i], len)]))
    ensures forall k :: 0 <= k < |blocks| ==> blocks[k].data == old(blocks[k].data)
  {
    hide Good, SlotGood, Fits, Buffer.Live, Buffer.Valid, Buffer.View;
    ghost var fs, ss, s := AllFields(pool), AllStores(blocks), m.slots[i];
    Apart(pool, blocks, m, i);
    pool[i].Skip(len);
    ghost var s' := Skipped(s, len);
    FitsOf(pool[i], s', blocks, ss);
    Shifts(pool, fs, blocks, ss, m, i, FieldsOf(pool[i]), s');
    assert AllFields(pool) == fs[i := FieldsOf(pool[i])];
    assert AllStores(blocks) == ss;
  }

  method DestroyAt(pool: seq<Buffer>, ghost blocks: seq<Block>, ghost m: Memory, i: nat)
    requires WellFormed(m) && Backs(pool, blocks, m) && i < |m.slots|
    modifies Footprint(pool, blocks)
    ensures Backs(pool, blocks, m.(slots := m.slots[i := Gone]))
    ensures forall k :: 0 <= k < |blocks| ==> blocks[k].data == old(blocks[k].data)
  {
    hide Good, SlotGood, Fits;
    ghost var fs, ss := AllFields(pool), AllStores(blocks);
    Apart(pool, blocks, m, i);
    pool[i].Destroy();
    Leaves(pool, fs, blocks, ss, m, i, FieldsOf(pool[i]));
    assert AllFields(pool) == fs[i := FieldsOf(pool[i])];
    assert AllStores(blocks) == Left(ss, m.slots[i], pool[i]);
  }

  /** The counter tells whether another buffer refers to the block. */
  lemma Alone(pool: seq<Buffer>, blocks: seq<Block>, m: Memory, i: nat)
    requires Backs(pool, blocks, m) && Live(m, i) && pool[i].block != null
    ensures pool[i].block.count == 1 <==> References(m, m.slots[i].block) == {i}
    ensures pool[i].block.count == 1 <==> pool[i].Unshared()
  {
    var fs, ss, k := AllFields(pool), AllStores(blocks), m.slots[i].block;
    Apart(pool, blocks, m, i);
    StoreOfBlock(pool, fs, blocks, ss, m, k);
    Single(blocks[k].owners, pool[i]);
    forall j: nat | j < |pool| ensures j in References(m, k) <==> pool[j] in blocks[k].owners {
      SlotOf(pool, fs, blocks, ss, m, j);
      if m.slots[j].At? { BlockNumber(pool, fs, blocks, ss, m, m.slots[j].block, k); }
    }
    hide Good, SlotGood, StoreGood;
    if blocks[k].owners == {pool[i]} {
      forall j | j in References(m, k) ensures j == i { assert pool[j] in blocks[k].owners; }
      assert i in References(m, k);
    }
    if References(m, k) == {i} {
      forall b | b in blocks[k].owners ensures b == pool[i] {
        var j :| 0 <= j < |pool| && pool[j] == b;
        assert j in References(m, k);
      }
    }
  }

  lemma Single<T>(s: set<T>, x: T)
    requires x in s
    ensures |s| == 1 <==> s == {x}
  {
    assert s == s - {x} + {x};
  }

  lemma BlockNumber(pool: seq<Buffer>, fs: seq<Fields>, blocks: seq<Block>, ss: seq<Store>, m: Memory, j: nat, k: nat)
    requires Good(pool, fs, blocks, ss, m) && j < |blocks| && k < |blocks|
    ensures blocks[j] == blocks[k] <==> j == k
  {
  }

  /** Append with room: the other buffers of the block see the bytes. */
  method AppendRoom(pool: seq<Buffer>, ghost blocks: seq<Block>, ghost m: Memory, i: nat, bytes: seq<Byte>)
    requires WellFormed(m) && Backs(pool, blocks, m) && Live(m, i) && |bytes| <= Room(m, i)
    modifies Footprint(pool, blocks)
    ensures Backs(pool, blocks, Appended(m, i, bytes))
    ensures forall k :: 0 <= k < |blocks| ==> blocks[k].data == old(blocks[k].data)
  {
    hide Good, SlotGood, Fits, Appended, Splice;
    ghost var fs, ss, s := AllFields(pool), AllStores(blocks), m.slots[i];
    Apart(pool, blocks, m, i);
    pool[i].Append(bytes);
    Writes(pool, fs, blocks, ss, m, i, FieldsOf(pool[i]), bytes);
    assert AllFields(pool) == fs[i := FieldsOf(pool[i])];
    assert AllStores(blocks) == ss[s.block := ss[s.block].(content := Splice(ss[s.block].content, s.End(), bytes))];
  }

  /** Append without room, for a buffer that does not own its block: it gets one of its own. */
  method AppendDetached(pool: seq<Buffer>, ghost blocks: seq<Block>, ghost m: Memory, i: nat, bytes: seq<Byte>)
    requires WellFormed(m) && Backs(pool, blocks, m) && Live(m, i) && Room(m, i) < |bytes| && !m.slots[i].own
    modifies Footprint(pool, blocks)
    ensures pool[i].block != null && Backs(pool, blocks + [pool[i].block], Appended(m, i, bytes))
    ensures fresh(pool[i].block) && fresh(pool[i].block.data)
    ensures forall k :: 0 <= k < |blocks| ==> blocks[k].data == old(blocks[k].data)
  {
    hide Good, SlotGood, Fits, Splice;
    ghost var fs, ss := AllFields(pool), AllStores(blocks);
    Apart(pool, blocks, m, i);
    pool[i].Append(bytes);
    OwnBlock(pool, fs, blocks, ss, m, i, m.slots[i].view + bytes);
  }

  /** Append without room, in a block that no other buffer refers to: it is moved or made anew. */
  method AppendOwn(pool: seq<Buffer>, ghost blocks: seq<Block>, ghost m: Memory, i: nat, bytes: seq<Byte>)
    requires WellFormed(m) && Backs(pool, blocks, m) && Live(m, i) && Room(m, i) < |bytes| && m.slots[i].own
    requires References(m, m.slots[i].block) == {i}
    modifies Footprint(pool, blocks)
    ensures Backs(pool, blocks, Appended(m, i, bytes))
    ensures forall k :: 0 <= k < |blocks| ==> blocks[k].data == old(blocks[k].data) || fresh(blocks[k].data)
  {
    hide Good, SlotGood, Fits, Splice;
    ghost var fs, ss := AllFields(pool), AllStores(blocks);
    ghost var k := m.slots[i].block;
    ghost var s := At(k, PREPEND, true, m.slots[i].view + bytes);
    Apart(pool, blocks, m, i);
    Alone(pool, blocks, m, i);
    pool[i].Append(bytes);
    ghost var store := StoreOf(blocks[k]);
    FitsOf(pool[i], s, blocks, ss[k := store]);
    RewritesOwn(pool, fs, blocks, ss, m, i, FieldsOf(pool[i]), s, store);
    assert AllFields(pool) == fs[i := FieldsOf(pool[i])];
    assert AllStores(blocks) == ss[k := store];
  }

  lemma LiveIff(pool: seq<Buffer>, blocks: seq<Block>, m: Memory)
    requires Backs(pool, blocks, m)
    ensures |pool| == |m.slots| && |blocks| == |m.capacities|
    ensures forall i :: 0 <= i < |pool| ==> (pool[i].block != null <==> Live(m, i))
  {
    forall i: nat | i < |pool| ensures pool[i].block != null <==> Live(m, i) {
      Apart(pool, blocks, m, i);
    }
  }

  /** Append in every case; in the one that would move a block under its other readers, nothing is done. */
  method AppendAt(pool: seq<Buffer>, ghost blocks: seq<Block>, ghost m: Memory, i: nat, bytes: seq<Byte>)
    returns (ghost added: seq<Block>)
    requires WellFormed(m) && Backs(pool, blocks, m) && Live(m, i) && i < |pool|
    modifies Footprint(pool, blocks)
    ensures Backs(pool, blocks + added, Appended(m, i, bytes))
    ensures forall k :: 0 <= k < |added| ==> fresh(added[k]) && fresh(added[k].data)
    ensures forall k :: 0 <= k < |blocks| ==> blocks[k].data == old(blocks[k].data) || fresh(blocks[k].data)
  {
    hide Good, SlotGood, Fits;
    Apart(pool, blocks, m, i);
    Alone(pool, blocks, m, i);
    hide Backs;
    added := [];
    assert blocks + added == blocks;
    if |bytes| <= pool[i].WritableBytes() {
      AppendRoom(pool, blocks, m, i, bytes);
    } else if !pool[i].own {
      AppendDetached(pool, blocks, m, i, bytes);
      added := [pool[i].block];
    } else if pool[i].block.count == 1 {
      AppendOwn(pool, blocks, m, i, bytes);
    } else {
      assert Refused(m, Append(i, bytes));
    }
  }

  /** The operations that make a buffer */
  method PerformNew(pool: seq<Buffer>, ghost blocks: seq<Block>, ghost m: Memory, op: Op)
    returns (made: seq<Buffer>, ghost added: seq<Block>)
    requires WellFormed(m) && Backs(pool, blocks, m)
    requires op.Make? || op.CopyOf? || op.MoveOf? || op.SliceOf? || op.PacketOf?
    modifies Footprint(pool, blocks)
    ensures Backs(pool + made, blocks + added, Apply(m, op))
    ensures forall i :: 0 <= i < |made| ==> fresh(made[i])
    ensures forall k :: 0 <= k < |added| ==> fresh(added[k]) && fresh(added[k].data)
    ensures forall k :: 0 <= k < |blocks| ==> blocks[k].data == old(blocks[k].data)
  {
    hide Good, Backs, Sliced, Cut;
    LiveIff(pool, blocks, m);
    made, added := [], [];
    assert pool + made == pool && blocks + added == blocks;
    if op.Make? {
      var b := MakeNew(pool, blocks, m, op.size);
      made, added := [b], [b.block];
    } else if op.from < |pool| && pool[op.from].block != null {
      if op.CopyOf? {
        var c := CopyAt(pool, blocks, m, op.from);
        made := [c];
      } else if op.MoveOf? {
        var c := MoveAt(pool, blocks, m, op.from);
        made := [c];
      } else if op.SliceOf? {
        made := SliceAt(pool, blocks, m, op.from, op.offset, op.length);
      } else {
        made := PacketAt(pool, blocks, m, op.from, op.length);
      }
    }
  }

  /** The operations on buffers that are there; one of them may bring a new block. */
  method PerformOn(pool: seq<Buffer>, ghost blocks: seq<Block>, ghost m: Memory, op: Op)
    returns (ghost added: seq<Block>)
    requires WellFormed(m) && Backs(pool, blocks, m)
    requires op.Assign? || op.MoveAssign? || op.Append? || op.Detach? || op.Skip? || op.Destroy?
    modifies Footprint(pool, blocks)
    ensures Backs(pool, blocks + added, Apply(m, op))
    ensures forall k :: 0 <= k < |added| ==> fresh(added[k]) && fresh(added[k].data)
    ensures forall k :: 0 <= k < |blocks| ==> blocks[k].data == old(blocks[k].data) || fresh(blocks[k].data)
  {
    hide Good, Backs, Appended, Detached, Skipped;
    LiveIff(pool, blocks, m);
    added := [];
    assert blocks + added == blocks;
    if op.to < |pool| {
      if op.Assign? || op.MoveAssign? {
        if op.from < |pool| && pool[op.from].block != null {
          if op.to == op.from {
            SelfAssignAt(pool, blocks, m, op.to, op.MoveAssign?);
          } else if op.Assign? {
            AssignAt(pool, blocks, m, op.to, op.from);
          } else {
            MoveAssignAt(pool, blocks, m, op.to, op.from);
          }
        }
      } else if op.Destroy? {
        DestroyAt(pool, blocks, m, op.to);
      } else if pool[op.to].block != null {
        if op.Append? {
          added := AppendAt(pool, blocks, m, op.to, op.bytes);
        } else if op.Detach? {
          DetachAt(pool, blocks, m, op.to, op.additional);
          added := [pool[op.to].block];
        } else {
          SkipAt(pool, blocks, m, op.to, op.len);
        }
      }
    }
  }

  /** Every operation does to the buffers what it does to the memory on values. */
  method Perform(pool: seq<Buffer>, ghost blocks: seq<Block>, ghost m: Memory, op: Op)
    returns (made: seq<Buffer>, ghost added: seq<Block>)
    requires WellFormed(m) && Backs(pool, blocks, m)
    modifies Footprint(pool, blocks)
    ensures Backs(pool + made, blocks + added, Apply(m, op))
    ensures forall i :: 0 <= i < |made| ==> fresh(made[i])
    ensures forall k :: 0 <= k < |added| ==> fresh(added[k]) && fresh(added[k].data)
    ensures forall k :: 0 <= k < |blocks| ==> blocks[k].data == old(blocks[k].data) || fresh(blocks[k].data)
  {
    hide Backs, Apply;
    if op.Make? || op.CopyOf? || op.MoveOf? || op.SliceOf? || op.PacketOf? {
      made, added := PerformNew(pool, blocks, m, op);
    } else {
      made := [];
      added := PerformOn(pool, blocks, m, op);
      assert pool + made == pool;
    }
  }

  /** The buffers that refer to a block */
  ghost function Referring(pool: seq<Buffer>, k: Block): set<Buffer>
    reads pool
  {
    set b | b in pool && b.block == k
  }

  lemma CounterCountsReferences(pool: seq<Buffer>, blocks: seq<Block>, m: Memory, k: nat)
    requires Backs(pool, blocks, m) && k < |blocks|
    ensures blocks[k].owners == Referring(pool, blocks[k])
    ensures blocks[k].count == |Referring(pool, blocks[k])| && (blocks[k].freed <==> Referring(pool, blocks[k]) == {})
  {
    var fs := AllFields(pool);
    StoreOfBlock(pool, fs, blocks, AllStores(blocks), m, k);
    assert AllStores(blocks)[k] == StoreOf(blocks[k]);
    hide Good;
    forall b | b in pool ensures b in blocks[k].owners <==> b.block == blocks[k] {
      var i :| 0 <= i < |pool| && pool[i] == b;
      assert fs[i].block == b.block;
    }
    assert blocks[k].owners == Referring(pool, blocks[k]);
  }

  lemma Counters(pool: seq<Buffer>, blocks: seq<Block>, m: Memory)
    requires Backs(pool, blocks, m)
    ensures forall k :: 0 <= k < |blocks| ==>
      blocks[k].count == |Referring(pool, blocks[k])| && (blocks[k].freed <==> Referring(pool, blocks[k]) == {})
  {
    hide Backs;
    forall k: nat | k < |blocks|
      ensures blocks[k].count == |Referring(pool, blocks[k])|
              && (blocks[k].freed <==> Referring(pool, blocks[k]) == {}) {
      CounterCountsReferences(pool, blocks, m, k);
    }
  }

  lemma Readings(pool: seq<Buffer>, blocks: seq<Block>, m: Memory)
    requires Backs(pool, blocks, m)
    ensures |pool| == |m.slots| && |blocks| == |m.capacities|
    ensures forall i :: 0 <= i < |pool| && m.slots[i].Gone? ==> pool[i].block == null
    ensures forall i :: 0 <= i < |pool| && m.slots[i].At? ==>
      && pool[i].Live() && pool[i].View() == m.slots[i].view && m.slots[i].block < |blocks|
      && pool[i].block == blocks[m.slots[i].block]
  {
    LiveIff(pool, blocks, m);
    hide Backs;
    forall i: nat | i < |pool| && m.slots[i].At? ensures
      && pool[i].Live() && pool[i].View() == m.slots[i].view && m.slots[i].block < |blocks|
      && pool[i].block == blocks[m.slots[i].block] {
      Apart(pool, blocks, m, i);
    }
  }

  lemma NothingBacked()
    ensures Backs([], [], NOTHING)
  {
  }

  method PerformAll(ops: seq<Op>) returns (pool: seq<Buffer>, ghost blocks: seq<Block>)
    ensures Backs(pool, blocks, ApplyAll(ops))
    ensures forall i :: 0 <= i < |pool| ==> fresh(pool[i])
    ensures forall k :: 0 <= k < |blocks| ==> fresh(blocks[k]) && fresh(blocks[k].data)
  {
    hide Backs, Apply;
    pool, blocks := [], [];
    NothingBacked();
    if ops != [] {
      var n := |ops| - 1;
      ghost var was;
      var some;
      some, was := PerformAll(ops[..n]);
      var made;
      ghost var added;
      made, added := Perform(some, was, ApplyAll(ops[..n]), ops[n]);
      pool, blocks := some + made, was + added;
      forall i | 0 <= i < |pool| ensures fresh(pool[i]) {
        if i < |some| { assert pool[i] == some[i]; } else { assert pool[i] == made[i - |some|]; }
      }
      forall k | 0 <= k < |blocks| ensures fresh(blocks[k]) && fresh(blocks[k].data) {
        if k < |was| { assert blocks[k] == was[k]; } else { assert blocks[k] == added[k - |was|]; }
      }
    }
  }

  /** After any sequence of operations, the buffers read what the memory on values says, every block ever allocated
      counts the buffers that refer to it, and it is deleted exactly when there are none. */
  method Run(ops: seq<Op>) returns (pool: seq<Buffer>, ghost blocks: seq<Block>)
    ensures Backs(pool, blocks, ApplyAll(ops)) && |pool| == |ApplyAll(ops).slots|
            && |blocks| == |ApplyAll(ops).capacities|
    ensures forall i :: 0 <= i < |pool| && ApplyAll(ops).slots[i].Gone? ==> pool[i].block == null
    ensures forall i :: 0 <= i < |pool| && ApplyAll(ops).slots[i].At? ==>
      && pool[i].Live() && pool[i].View() == ApplyAll(ops).slots[i].view
      && ApplyAll(ops).slots[i].block < |blocks| && pool[i].block == blocks[ApplyAll(ops).slots[i].block]
    ensures forall k :: 0 <= k < |blocks| ==>
      blocks[k].count == |Referring(pool, blocks[k])| && (blocks[k].freed <==> Referring(pool, blocks[k]) == {})
  {
    pool, blocks := PerformAll(ops);
    hide Backs;
    Readings(pool, blocks, ApplyAll(ops));
    Counters(pool, blocks, ApplyAll(ops));
  }
}
