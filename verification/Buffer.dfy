/** The byte buffer: a growable queue over a reference-counted block of memory. */
module Buffers {
  import opened Bytes

  const PREPEND: nat := 8
  const INITIAL: nat := 1450
  const EXTRA: nat := 65536

  /** What `new char[]` and `new std::atomic<int>(1)` make together, until both are deleted.
      `owners` are the live buffers that refer to it; `freed` says that it has been deleted. */
  class Block {
    var data: array<Byte>
    var count: int
    ghost var owners: set<Buffer>
    ghost var freed: bool

    /** The counter is the number of live buffers, and the block is deleted exactly when it is zero. */
    ghost predicate Ok()
      reads this, owners
    {
      && count == |owners|
      && (freed <==> owners == {})
      && forall b <- owners :: b.block == this
    }

    constructor (data: array<Byte>, ghost owner: Buffer)
      ensures this.data == data && count == 1 && owners == {owner} && !freed
    {
      this.data := data;
      count := 1;
      owners := {owner};
      freed := false;
    }

    /** fetch_add(1) */
    method Acquire(ghost owner: Buffer)
      requires owner !in owners && count == |owners| && !freed
      modifies this`count, this`owners
      ensures owners == old(owners) + {owner} && count == |owners|
    {
      count := count + 1;
      owners := owners + {owner};
    }

    /** A move: the reference changes hands, the counter stays. */
    ghost method Transfer(from: Buffer, to: Buffer)
      requires from in owners && to !in owners && count == |owners|
      modifies this`owners
      ensures owners == old(owners) - {from} + {to} && count == |owners|
    {
      assert |owners - {from}| == |owners| - 1;
      owners := owners - {from} + {to};
    }

    /** fetch_sub(1), and both deletes when the counter was 1 */
    method Drop(ghost owner: Buffer)
      requires owner in owners && count == |owners| && !freed
      modifies this`count, this`owners, this`freed
      ensures owners == old(owners) - {owner} && count == |owners| && (freed <==> owners == {})
    {
      assert |owners - {owner}| == |owners| - 1;
      var was := count;
      count := count - 1;
      owners := owners - {owner};
      if was == 1 {
        freed := true;
      }
    }
  }

  lemma SubSlice(a: array<Byte>, from: nat, to: nat, offset: nat, size: nat)
    requires from <= to <= a.Length && from + offset + size <= to
    ensures a[from..to][offset..offset + size] == a[from + offset..from + offset + size]
    ensures a[from..to][..offset] == a[from..from + offset] && a[from..to][offset..] == a[from + offset..to]
  {
    var v := a[from..to];
    assert forall i {:trigger v[i]} :: 0 <= i < to - from ==> v[i] == a[from + i];
  }

  lemma BigEndian4(a: Byte, b: Byte, c: Byte, d: Byte)
    ensures BigEndian([a, b]) == a * 0x100 + b
    ensures BigEndian([a, b, c, d]) == a * 0x100_0000 + b * 0x1_0000 + c * 0x100 + d
  {
    assert [a, b, c, d][..3] == [a, b, c] && [a, b, c][..2] == [a, b] && [a, b][..1] == [a] && [a][..0] == [];
    assert BigEndian([a]) == a;
    assert BigEndian([a, b, c]) == a * 0x1_0000 + b * 0x100 + c;
  }

  /** `d` with `x` laid over it from place `at` on */
  function Splice(d: seq<Byte>, at: nat, x: seq<Byte>): (r: seq<Byte>)
    requires at + |x| <= |d|
    ensures |r| == |d|
  {
    d[..at] + x + d[at + |x|..]
  }

  lemma SpliceCut(d: seq<Byte>, at: nat, x: seq<Byte>, from: nat)
    requires from <= at && at + |x| <= |d|
    ensures Splice(d, at, x)[from..at + |x|] == d[from..at] + x && Splice(d, at, x)[..at] == d[..at]
  {
  }

  /** memcpy and memmove; the two ranges may overlap. */
  method CopyBytes(dst: array<Byte>, to: nat, src: array<Byte>, from: nat, n: nat)
    requires to + n <= dst.Length && from + n <= src.Length
    modifies dst
    ensures dst[..] == Splice(old(dst[..]), to, old(src[from..from + n]))
  {
    forall i | 0 <= i < n {
      dst[to + i] := src[from + i];
    }
    ghost var was, x := old(dst[..]), old(src[from..from + n]);
    forall i | 0 <= i < dst.Length ensures dst[..][i] == Splice(was, to, x)[i] {
      if to <= i < to + n { assert x[i - to] == old(src[from + (i - to)]); }
    }
  }

  /** A new array with a copy behind the prepend space */
  method CopiedOut(src: array<Byte>, from: nat, n: nat, size: nat) returns (d: array<Byte>)
    requires from + n <= src.Length && PREPEND + n <= size
    ensures fresh(d) && d.Length == size && d[PREPEND..PREPEND + n] == src[from..from + n]
  {
    d := new Byte[size];
    SpliceCut(d[..], PREPEND, src[from..from + n], PREPEND);
    CopyBytes(d, PREPEND, src, from, n);
    assert d[PREPEND..PREPEND + n] == d[..][PREPEND..PREPEND + n];
  }

  /** The capacity after makeSpace */
  function Resized(capacity: nat, write: nat, read: nat, len: nat): nat
    requires write <= capacity
  {
    if capacity - write + read < len + PREPEND then 2 * capacity + len else capacity
  }

  class Buffer {
    var block: Block? // m_buffer and m_refCount; null once moved from or destroyed
    var read: nat
    var write: nat
    var capacity: nat
    var own: bool

    /** No live buffer refers to a deleted block, and the indices stay in order. */
    ghost predicate Valid()
      reads this, block, if block == null then {} else block.owners
    {
      block != null ==>
        && this in block.owners && block.Ok()
        && PREPEND <= read <= write <= capacity == block.data.Length
    }

    ghost predicate Live()
      reads this, block, if block == null then {} else block.owners
    {
      Valid() && block != null
    }

    /** The readable bytes. */
    ghost function View(): seq<Byte>
      requires block != null && read <= write <= block.data.Length
      reads this, block, if block == null then {} else {block.data}
    {
      block.data[read..write]
    }

    ghost predicate Unshared()
      reads this, block
    {
      block != null && block.owners == {this}
    }

    // Construction, copies and moves

    constructor (initialSize: nat := INITIAL)
      ensures Live() && fresh(block) && fresh(block.data) && Unshared() && own
      ensures View() == [] && read == PREPEND && capacity == PREPEND + initialSize
    {
      read, write, capacity, own := PREPEND, PREPEND, PREPEND + initialSize, true;
      block := null;
      new;
      var data := new Byte[PREPEND + initialSize];
      block := new Block(data, this);
    }

    /** The constructor that slices use. */
    constructor Over(block: Block, capacity: nat, read: nat, write: nat)
      requires block.Ok() && !block.freed && PREPEND <= read <= write <= capacity == block.data.Length
      modifies block
      ensures Live() && this.block == block && this.read == read && this.write == write && !own
      ensures block.data == old(block.data) && block.owners == old(block.owners) + {this}
    {
      this.block, this.read, this.write, this.capacity, own := block, read, write, capacity, false;
      new;
      block.Acquire(this);
    }

    constructor Copy(other: Buffer)
      requires other.Live()
      modifies other.block
      ensures Live() && block == other.block == old(other.block) && block.data == old(other.block.data)
      ensures block.owners == old(other.block.owners) + {this} && !own && read == other.read
      ensures other.Live() && View() == other.View() == old(other.View())
    {
      block, read, write, capacity, own := null, PREPEND, PREPEND, 0, false;
      new;
      ShareWith(other);
    }

    constructor Move(other: Buffer)
      requires other.Live()
      modifies other, other.block
      ensures Live() && block == old(other.block) && block.data == old(other.block.data) && View() == old(other.View())
      ensures own == old(other.own) && read == old(other.read) && other.Valid() && other.block == null
      ensures block.owners == old(other.block.owners) - {other} + {this}
    {
      block, read, write, capacity, own := null, PREPEND, PREPEND, 0, false;
      new;
      TakeFrom(other);
    }

    ghost function Blocks(): set<object>
      reads this
    {
      if block == null then {} else {block as object}
    }

    /** What the destructor and both assignments do first. */
    method Leave()
      requires Valid()
      modifies this`block, Blocks()
      ensures block == null
      ensures old(block) != null ==>
                && old(block).Ok() && old(block).data == old(block.data)
                && old(block).owners == old(block.owners) - {this}
    {
      if block != null {
        block.Drop(this);
        block := null;
      }
    }

    method Destroy()
      requires Valid()
      modifies this, Blocks()
      ensures Valid() && block == null
      ensures old(block) != null ==>
                && old(block).Ok() && old(block).data == old(block.data)
                && old(block).owners == old(block.owners) - {this}
    {
      Leave();
      capacity := 0;
    }

    method TakeFrom(other: Buffer)
      requires block == null && other.Live() && this !in other.block.owners
      modifies this, other, other.block
      ensures Live() && block == old(other.block) && block.data == old(other.block.data) && View() == old(other.View())
      ensures own == old(other.own) && read == old(other.read) && other.Valid() && other.block == null
      ensures block.owners == old(other.block.owners) - {other} + {this}
    {
      block, capacity, read, write, own := other.block, other.capacity, other.read, other.write, other.own;
      block.Transfer(other, this);
      other.block, other.capacity, other.read, other.write := null, 0, PREPEND, PREPEND;
    }

    method ShareWith(other: Buffer)
      requires block == null && other.Live() && this !in other.block.owners
      modifies this, other.block
      ensures Live() && other.Live() && block == other.block == old(other.block) && block.data == old(other.block.data)
      ensures View() == other.View() == old(other.View()) && !own && read == other.read == old(other.read)
      ensures block.owners == old(other.block.owners) + {this}
    {
      block, capacity, read, write, own := other.block, other.capacity, other.read, other.write, false;
      block.Acquire(this);
    }

    method Assign(other: Buffer)
      requires Valid() && other.Live()
      modifies this, Blocks(), other.block
      ensures Live() && other.Live() && block == other.block == old(other.block)
      ensures other.block.data == old(other.block.data) && View() == other.View() == old(other.View())
      ensures block.owners == old(other.block.owners) + {this}
      ensures read == other.read == old(other.read) && own == (this == other && old(own))
      ensures old(block) != null && old(block) != block ==>
                old(block).Ok() && old(block).owners == old(block.owners) - {this} && old(block).data == old(block.data)
    {
      if this != other {
        Leave();
        ShareWith(other);
      }
    }

    method MoveAssign(other: Buffer)
      requires Valid() && other.Live()
      modifies this, Blocks(), other, other.block
      ensures Live() && block == old(other.block) && block.data == old(other.block.data) && View() == old(other.View())
      ensures own == old(other.own) && read == old(other.read)
      ensures this != other ==> other.Valid() && other.block == null
      ensures block.owners == if this == other then old(other.block.owners)
                              else old(other.block.owners) - {other} + {this}
      ensures old(block) != null && old(block) != block ==>
                old(block).Ok() && old(block).owners == old(block.owners) - {this} && old(block).data == old(block.data)
    {
      if this != other {
        Leave();
        TakeFrom(other);
      }
    }

    // Reading

    function ReadableBytes(): nat
      requires read <= write
      reads this
    {
      write - read
    }

    function WritableBytes(): nat
      requires write <= capacity
      reads this
    {
      capacity - write
    }

    method ReadAll()
      requires Live()
      modifies this`read, this`write
      ensures Live() && View() == [] && read == write == PREPEND
    {
      read, write := PREPEND, PREPEND;
    }

    method Skip(len: nat)
      requires Live()
      modifies this`read, this`write
      ensures Live() && View() == if len < |old(View())| then old(View())[len..] else []
      ensures read == if len < |old(View())| then old(read) + len else PREPEND
    {
      if len < ReadableBytes() {
        SubSlice(block.data, read, write, len, 0);
        read := read + len;
      } else {
        ReadAll();
      }
    }

    method ReadAsString(len: nat) returns (result: seq<Byte>)
      requires Live() && len <= |View()|
      modifies this`read, this`write
      ensures Live() && result + View() == old(View()) && |result| == len
    {
      ghost var view := View();
      SubSlice(block.data, read, write, len, 0);
      result := block.data[read..read + len];
      assert result == view[..len] && view == view[..len] + view[len..];
      hide View;
      Skip(len);
    }

    method PeekLE(offset: nat, size: nat) returns (num: nat)
      requires Live() && offset + size <= |View()|
      ensures num == LittleEndian(View()[offset..offset + size])
    {
      SubSlice(block.data, read, write, offset, size);
      num := LittleEndian(block.data[read + offset..read + offset + size]);
    }

    /** readU8, readU16LE and readU32LE, for `size` 1, 2 and 4 */
    method ReadLE(size: nat) returns (num: nat)
      requires Live() && size <= |View()|
      modifies this`read, this`write
      ensures Live() && num == LittleEndian(old(View())[..size]) && View() == old(View())[size..]
    {
      num := PeekLE(0, size);
      assert View()[0..size] == View()[..size];
      Skip(size);
    }

    method PeekU16BE(offset: nat) returns (num: nat)
      requires Live() && offset + 2 <= |View()|
      ensures num == BigEndian(View()[offset..offset + 2])
    {
      var p := read + offset;
      num := (block.data[p] as int) * 0x100 + block.data[p + 1];
      BigEndian4(block.data[p], block.data[p + 1], 0, 0);
      assert View()[offset..offset + 2] == [block.data[p], block.data[p + 1]];
    }

    method PeekU32BE(offset: nat) returns (num: nat)
      requires Live() && offset + 4 <= |View()|
      ensures num == BigEndian(View()[offset..offset + 4])
    {
      var p := read + offset;
      num := (block.data[p] as int) * 0x100_0000 + (block.data[p + 1] as int) * 0x1_0000
             + (block.data[p + 2] as int) * 0x100 + block.data[p + 3];
      BigEndian4(block.data[p], block.data[p + 1], block.data[p + 2], block.data[p + 3]);
      assert View()[offset..offset + 4] == [block.data[p], block.data[p + 1], block.data[p + 2], block.data[p + 3]];
    }

    // Slices

    method Slice(offset: nat, length: nat) returns (s: Buffer?)
      requires Live()
      modifies block
      ensures Live() && block.data == old(block.data) && View() == old(View())
      ensures s == null <==> offset + length > |View()|
      ensures s == null ==> block.owners == old(block.owners)
      ensures s != null ==>
                && fresh(s) && s.Live() && s.block == block && s.View() == View()[offset..offset + length]
                && s.read == read + offset
                && block.owners == old(block.owners) + {s} && !s.own
    {
      if offset > ReadableBytes() || offset + length > ReadableBytes() {
        return null;
      }
      SubSlice(block.data, read, write, offset, length);
      s := new Buffer.Over(block, capacity, read + offset, read + offset + length);
    }

    method SlicePacket(length: nat) returns (s: Buffer?)
      requires Live()
      modifies block, this`read
      ensures Live() && block.data == old(block.data)
      ensures s == null <==> length > |old(View())|
      ensures s == null ==> block.owners == old(block.owners) && View() == old(View()) && read == old(read)
      ensures s != null ==>
                && fresh(s) && s.Live() && s.block == block && s.View() == old(View())[..length]
                && View() == old(View())[length..] && s.read == old(read) && read == old(read) + length
                && block.owners == old(block.owners) + {s} && !s.own
    {
      if length > ReadableBytes() {
        return null;
      }
      SubSlice(block.data, read, write, length, 0);
      s := new Buffer.Over(block, capacity, read, read + length);
      read := read + length;
    }

    // Growing and writing

    /** Grows or compacts in place. Only an unshared block may be moved under its readers. */
    method MakeSpace(len: nat)
      requires Live() && Unshared()
      modifies this, block, block.data
      ensures Live() && Unshared() && block == old(block) && (block.data == old(block.data) || fresh(block.data))
      ensures View() == old(View()) && len <= WritableBytes() && own == old(own) && read == PREPEND
      ensures capacity == Resized(old(capacity), old(write), old(read), len)
    {
      var readable := ReadableBytes();
      ghost var view := View();
      if WritableBytes() + read < len + PREPEND {
        var resized := 2 * capacity + len;
        var d := CopiedOut(block.data, read, readable, resized);
        write := readable + PREPEND;
        read := PREPEND;
        capacity := resized;
        block.data := d;
      } else {
        ghost var was := block.data[..];
        SpliceCut(was, PREPEND, view, PREPEND);
        CopyBytes(block.data, PREPEND, block.data, read, readable);
        read := PREPEND;
        write := read + readable;
        assert block.data[PREPEND..write] == block.data[..][PREPEND..write];
      }
    }

    /** Detaches from the shared block; every other view of it stays as it is. */
    method MakeOwnBuffer(additional: nat)
      requires Live()
      modifies this, block
      ensures Live() && Unshared() && own && fresh(block) && fresh(block.data)
      ensures View() == old(View()) && additional <= WritableBytes()
      ensures read == PREPEND && capacity == PREPEND + |View()| + additional
      ensures old(block).Ok() && old(block).data == old(block.data) && old(block).owners == old(block.owners) - {this}
    {
      var readable := ReadableBytes();
      var size := PREPEND + readable + additional;
      var buf := CopiedOut(block.data, read, readable, size);
      block.Drop(this);
      TakeNew(buf, readable);
    }

    /** A new block around `data`, which holds `readable` bytes behind the prepend space. */
    method TakeNew(data: array<Byte>, readable: nat)
      requires PREPEND + readable <= data.Length
      modifies this
      ensures Live() && Unshared() && own && fresh(block) && block.data == data
      ensures read == PREPEND && capacity == data.Length && View() == data[PREPEND..PREPEND + readable]
    {
      block := new Block(data, this);
      capacity := data.Length;
      read := PREPEND;
      write := read + readable;
      own := true;
    }

    /** The state of a block that this buffer has just left. */
    ghost predicate LeftBehind(b: Block, owners: set<Buffer>, data: array<Byte>)
      reads b, b.owners
    {
      b.Ok() && b.owners == owners - {this} && b.data == data
    }

    ghost function Mutable(): set<object>
      reads this, block
    {
      if block == null then {} else {block as object, block.data as object}
    }

    method EnsureWriteableBytes(len: nat)
      requires Live() && (own && WritableBytes() < len ==> Unshared())
      modifies this, Mutable()
      ensures Live() && View() == old(View()) && len <= WritableBytes()
      ensures old(WritableBytes()) >= len ==>
                && block == old(block) && block.data == old(block.data) && block.owners == old(block.owners)
                && block.data[..] == old(block.data[..]) && write == old(write) && read == old(read) && own == old(own)
      ensures old(WritableBytes()) < len ==> own && read == PREPEND && Unshared()
      ensures old(WritableBytes()) < len && old(own) ==>
                block == old(block) && capacity == Resized(old(capacity), old(write), old(read), len)
      ensures old(WritableBytes()) < len && !old(own) ==>
                fresh(block) && fresh(block.data) && capacity == PREPEND + |View()| + len
                && old(block).data[..] == old(block.data[..])
      ensures old(Unshared()) ==> Unshared()
      ensures block == old(block)
              || (fresh(block) && Unshared() && LeftBehind(old(block), old(block.owners), old(block.data)))
      ensures block == old(block) ==>
        block.owners == old(block.owners) && (old(Unshared()) || block.data == old(block.data))
      ensures block.data == old(block.data) || fresh(block.data)
    {
      if WritableBytes() < len {
        if own {
          MakeSpace(len);
        } else {
          MakeOwnBuffer(len);
        }
      }
    }

    /** memcpy to the writable area, and the write index moves on. */
    method Put(bytes: seq<Byte>)
      requires Live() && |bytes| <= WritableBytes()
      modifies this`write, block.data
      ensures Live() && View() == old(View()) + bytes
      ensures block.data[..] == Splice(old(block.data[..]), old(write), bytes)
    {
      var d, at := block.data, write;
      ghost var was := d[..];
      SpliceCut(was, at, bytes, read);
      forall i | 0 <= i < |bytes| {
        d[at + i] := bytes[i];
      }
      write := write + |bytes|;
      forall i | 0 <= i < d.Length ensures d[..][i] == Splice(was, at, bytes)[i] {}
      assert d[read..write] == d[..][read..write];
    }

    /** Appending enqueues. With room, the bytes go into the block, where other buffers may see them; without,
        the buffer gets room of its own. */
    method Append(bytes: seq<Byte>)
      requires Live() && (own && WritableBytes() < |bytes| ==> Unshared())
      modifies this, Mutable()
      ensures Live() && View() == old(View()) + bytes
      ensures old(Unshared()) ==> Unshared()
      ensures block == old(block)
              || (fresh(block) && Unshared() && LeftBehind(old(block), old(block.owners), old(block.data)))
      ensures block == old(block) ==>
        block.owners == old(block.owners) && (old(Unshared()) || block.data == old(block.data))
      ensures block.data == old(block.data) || fresh(block.data)
      ensures |bytes| <= old(WritableBytes()) ==>
                && block == old(block) && block.data == old(block.data) && block.owners == old(block.owners)
                && block.data[..] == Splice(old(block.data[..]), old(write), bytes) && read == old(read)
                && own == old(own)
      ensures old(WritableBytes()) < |bytes| ==> own && read == PREPEND && Unshared()
      ensures old(WritableBytes()) < |bytes| && old(own) ==>
                block == old(block) && capacity == Resized(old(capacity), old(write), old(read), |bytes|)
      ensures old(WritableBytes()) < |bytes| && !old(own) ==>
                fresh(block) && fresh(block.data) && capacity == PREPEND + |View()|
                && old(block).data[..] == old(block.data[..])
    {
      EnsureWriteableBytes(|bytes|);
      Put(bytes);
    }

    /** appendU8, appendU16LE and appendU32LE, for `size` 1, 2 and 4 */
    method AppendLE(num: nat, size: nat)
      requires Live() && (own && WritableBytes() < size ==> Unshared())
      modifies this, Mutable()
      ensures Live() && View() == old(View()) + ToLittleEndian(num, size)
      ensures old(Unshared()) ==> Unshared()
      ensures block == old(block) || fresh(block)
      ensures block.data == old(block.data) || fresh(block.data)
    {
      Append(ToLittleEndian(num, size));
    }

    /** What readv may deliver: as much as the writable area and, when that is small, the extra area hold. */
    function Offered(): nat
      requires write <= capacity
      reads this
    {
      WritableBytes() + if WritableBytes() < EXTRA then EXTRA else 0
    }

    /** readFd, where the kernel delivers `incoming`, or fails. */
    method ReadFd(failed: bool, incoming: seq<Byte>) returns (nRead: int)
      requires Live() && (failed ==> incoming == []) && |incoming| <= Offered()
      requires own && WritableBytes() < |incoming| ==> Unshared()
      modifies this, Mutable()
      ensures Live() && View() == old(View()) + incoming
      ensures nRead == if failed then -1 else |incoming|
      ensures old(Unshared()) ==> Unshared()
      ensures block == old(block) || fresh(block)
      ensures block.data == old(block.data) || fresh(block.data)
    {
      var writable := WritableBytes();
      nRead := if failed then -1 else |incoming|;
      if nRead < 0 {
        // logged
      } else if nRead <= writable {
        Put(incoming);
      } else {
        Put(incoming[..writable]);
        assert incoming == incoming[..writable] + incoming[writable..];
        Append(incoming[writable..]);
      }
    }
  }
}
