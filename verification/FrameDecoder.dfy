/** Reassembling frames from a byte stream whose frames carry their length. */
module FrameDecoder {
  import opened Bytes
  import opened Buffers

  const SIZE_T: nat := 0x1_0000_0000_0000_0000

  type SizeT = n: nat | n < SIZE_T

  datatype Config = Config(maxFrameLength: SizeT, offset: SizeT, width: SizeT, adjustment: SizeT) {
    predicate ValidWidth() { width == 1 || width == 2 || width == 4 || width == 8 }

    /** The sum that `decode` compares with the readable bytes does not wrap. */
    predicate HeaderFits() { offset + width < SIZE_T }

    function FrameLength(payload: nat): SizeT { (offset + width + payload + adjustment) % SIZE_T }

    /** The one payload length, if the field can hold it, whose frame length wraps to zero. */
    function ZeroPayload(): SizeT { (SIZE_T - (offset + width + adjustment) % SIZE_T) % SIZE_T }

    /** No length field gives an empty frame. */
    predicate NeverEmpty() { ValidWidth() ==> Pow256(width) <= ZeroPayload() }
  }

  /** Where a sum wraps to zero. */
  lemma WrapsToZero(base: nat, p: nat)
    requires p < SIZE_T
    ensures (base + p) % SIZE_T == 0 <==> p == (SIZE_T - base % SIZE_T) % SIZE_T
  {
    var r := base % SIZE_T;
    assert base == SIZE_T * (base / SIZE_T) + r;
    assert (base + p) % SIZE_T == (r + p) % SIZE_T;
    assert r + p < 2 * SIZE_T;
  }

  lemma NoEmptyFrameIff(cfg: Config)
    requires cfg.ValidWidth()
    ensures cfg.NeverEmpty() <==> forall p: nat :: p < Pow256(cfg.width) ==> cfg.FrameLength(p) != 0
    ensures cfg.FrameLength(cfg.ZeroPayload()) == 0
  {
    Pow256Bound(cfg.width);
    hide Pow256;
    var base := cfg.offset + cfg.width + cfg.adjustment;
    forall p: nat | p < SIZE_T ensures cfg.FrameLength(p) == 0 <==> p == cfg.ZeroPayload() {
      WrapsToZero(base, p);
    }
    assert cfg.FrameLength(cfg.ZeroPayload()) == 0;
  }

  lemma Pow256Bound(k: nat)
    requires k == 1 || k == 2 || k == 4 || k == 8
    ensures 0 < Pow256(k) <= SIZE_T
  {
    assert Pow256(0) == 1 && Pow256(1) == 0x100 && Pow256(2) == 0x1_0000 && Pow256(3) == 0x100_0000;
    assert Pow256(4) == 0x1_0000_0000 && Pow256(5) == 0x100_0000_0000 && Pow256(6) == 0x1_0000_0000_0000;
    assert Pow256(7) == 0x100_0000_0000_0000 && Pow256(8) == SIZE_T;
  }

  datatype Verdict = NeedMore | BadWidth | Oversize(length: nat) | Frame(length: nat)

  /** What `decode` finds at the front of the readable bytes. */
  function Decode(cfg: Config, bytes: seq<Byte>): Verdict
    requires cfg.HeaderFits()
  {
    if |bytes| < cfg.offset + cfg.width then NeedMore
    else if !cfg.ValidWidth() then BadWidth
    else
      var length := cfg.FrameLength(LittleEndian(bytes[cfg.offset..cfg.offset + cfg.width]));
      if length > cfg.maxFrameLength then Oversize(length)
      else if |bytes| < length then NeedMore
      else Frame(length)
  }

  /** A frame is found if and only if the header is complete, the width is one of four, and the length, a sum that
      wraps, is within the limit and within the bytes that are there. */
  lemma DecodeIff(cfg: Config, bytes: seq<Byte>, n: nat)
    requires cfg.HeaderFits()
    ensures Decode(cfg, bytes) == Frame(n)
            <==> && cfg.offset + cfg.width <= |bytes| && cfg.width in {1, 2, 4, 8}
                 && n == (cfg.offset + cfg.width + LittleEndian(bytes[cfg.offset..cfg.offset + cfg.width])
                          + cfg.adjustment) % 0x1_0000_0000_0000_0000
                 && n <= cfg.maxFrameLength && n <= |bytes|
  {
    hide LittleEndian;
  }

  /** A stream with a complete header in front that gives an oversized length, or whose width is none of the four,
      is never consumed, whatever follows. */
  lemma {:induction false} RefusedForEver(cfg: Config, bytes: seq<Byte>, chunks: seq<seq<Byte>>)
    requires cfg.HeaderFits() && cfg.offset + cfg.width <= |bytes|
    requires cfg.width in {1, 2, 4, 8} ==>
               cfg.maxFrameLength < (cfg.offset + cfg.width + LittleEndian(bytes[cfg.offset..cfg.offset + cfg.width])
                                     + cfg.adjustment) % 0x1_0000_0000_0000_0000
    ensures Feed(cfg, bytes, chunks) == ([], bytes + Concat(chunks))
    decreases |chunks|
  {
    hide LittleEndian;
    if chunks == [] {
      assert bytes + Concat(chunks) == bytes;
    } else {
      var more := bytes + chunks[0];
      assert more[cfg.offset..cfg.offset + cfg.width] == bytes[cfg.offset..cfg.offset + cfg.width];
      RefusedForEver(cfg, more, chunks[1..]);
      assert DrainAll(cfg, more) == ([], more) by { DrainUnfold(cfg, more); }
      var later := Feed(cfg, more, chunks[1..]);
      assert [] + later.0 == later.0;
      assert Feed(cfg, bytes, chunks) == later;
      assert more + Concat(chunks[1..]) == bytes + Concat(chunks);
    }
  }

  /** No frame that is delivered is empty or beyond the limit. */
  lemma {:induction false} FramesWithinLimit(cfg: Config, bytes: seq<Byte>)
    requires cfg.HeaderFits()
    ensures forall frame <- DrainAll(cfg, bytes).0 :: 0 < |frame| <= cfg.maxFrameLength
    decreases |bytes|
  {
    DecodeFits(cfg, bytes);
    if Decode(cfg, bytes).Frame? && Decode(cfg, bytes).length != 0 {
      FramesWithinLimit(cfg, bytes[Decode(cfg, bytes).length..]);
    }
  }

  lemma DecodeFits(cfg: Config, bytes: seq<Byte>)
    requires cfg.HeaderFits()
    ensures Decode(cfg, bytes).Frame? ==> Decode(cfg, bytes).length <= |bytes|
  {
  }

  /** The header that makes the front of a stream an empty frame */
  function EmptyHeader(cfg: Config): seq<Byte> {
    seq(cfg.offset, _ => 0 as Byte) + ToLittleEndian(cfg.ZeroPayload(), cfg.width)
  }

  /** The configuration check is exact: it holds if and only if no stream ever has an empty frame in front. */
  lemma NeverEmptyIff(cfg: Config)
    requires cfg.HeaderFits()
    ensures cfg.NeverEmpty() ==> forall bytes: seq<Byte> :: Decode(cfg, bytes) != Frame(0)
    ensures !cfg.NeverEmpty() ==> Decode(cfg, EmptyHeader(cfg)) == Frame(0)
  {
    if cfg.ValidWidth() {
      NoEmptyFrameIff(cfg);
      if !cfg.NeverEmpty() {
        LittleEndianRoundTrip(cfg.ZeroPayload(), cfg.width);
        assert EmptyHeader(cfg)[cfg.offset..cfg.offset + cfg.width] == ToLittleEndian(cfg.ZeroPayload(), cfg.width);
      }
    }
  }

  /** Calling `decode` as long as it returns a frame that is not empty: the frames, and the bytes left. */
  function DrainAll(cfg: Config, bytes: seq<Byte>): (seq<seq<Byte>>, seq<Byte>)
    requires cfg.HeaderFits()
    decreases |bytes|
  {
    DecodeFits(cfg, bytes);
    match Decode(cfg, bytes)
    case Frame(n) =>
      if n == 0 then ([], bytes) else var rest := DrainAll(cfg, bytes[n..]); ([bytes[..n]] + rest.0, rest.1)
    case _ => ([], bytes)
  }

  /** The bytes left after `calls` calls of `decode` */
  function LeftAfter(cfg: Config, bytes: seq<Byte>, calls: nat): seq<Byte>
    requires cfg.HeaderFits()
    decreases calls
  {
    if calls == 0 || !Decode(cfg, bytes).Frame? then bytes
    else DecodeFits(cfg, bytes); LeftAfter(cfg, bytes[Decode(cfg, bytes).length..], calls - 1)
  }

  /** The stream is stuck on an empty frame, which `decode` returns again and again. */
  predicate Stuck(cfg: Config, bytes: seq<Byte>)
    requires cfg.HeaderFits()
  {
    Decode(cfg, bytes) == Frame(0)
  }

  lemma {:induction false} StuckForEver(cfg: Config, bytes: seq<Byte>, calls: nat)
    requires cfg.HeaderFits() && Stuck(cfg, bytes)
    ensures LeftAfter(cfg, bytes, calls) == bytes
    decreases calls
  {
    if calls > 0 {
      assert bytes[0..] == bytes;
      StuckForEver(cfg, bytes, calls - 1);
    }
  }

  lemma {:induction false} DrainReaches(cfg: Config, bytes: seq<Byte>) returns (calls: nat)
    requires cfg.HeaderFits()
    ensures LeftAfter(cfg, bytes, calls) == DrainAll(cfg, bytes).1
    ensures forall k: nat :: k < calls ==> Decode(cfg, LeftAfter(cfg, bytes, k)).Frame?
    decreases |bytes|
  {
    DrainUnfold(cfg, bytes);
    calls := 0;
    if Decode(cfg, bytes).Frame? && !Stuck(cfg, bytes) {
      var before := DrainReaches(cfg, bytes[Decode(cfg, bytes).length..]);
      calls := before + 1;
    }
  }

  lemma {:induction false} CallsAdd(cfg: Config, bytes: seq<Byte>, a: nat, b: nat)
    requires cfg.HeaderFits()
    ensures LeftAfter(cfg, bytes, a + b) == LeftAfter(cfg, LeftAfter(cfg, bytes, a), b)
    decreases a
  {
    if a > 0 && Decode(cfg, bytes).Frame? {
      DecodeFits(cfg, bytes);
      CallsAdd(cfg, bytes[Decode(cfg, bytes).length..], a - 1, b);
    }
  }

  /** Calling `decode` until it returns null ends if and only if the stream does not stop at an empty frame. */
  lemma DrainEndsIff(cfg: Config, bytes: seq<Byte>)
    requires cfg.HeaderFits()
    ensures (exists calls: nat :: !Decode(cfg, LeftAfter(cfg, bytes, calls)).Frame?)
            <==> !Stuck(cfg, DrainAll(cfg, bytes).1)
  {
    var n := DrainReaches(cfg, bytes);
    DrainedIsDrained(cfg, bytes);
    var left := DrainAll(cfg, bytes).1;
    DrainUnfold(cfg, left);
    if Stuck(cfg, left) {
      forall calls: nat ensures Decode(cfg, LeftAfter(cfg, bytes, calls)).Frame? {
        if n <= calls {
          CallsAdd(cfg, bytes, n, calls - n);
          StuckForEver(cfg, left, calls - n);
        }
      }
    } else {
      assert !Decode(cfg, LeftAfter(cfg, bytes, n)).Frame?;
    }
  }

  /** Draining after each chunk. */
  function Feed(cfg: Config, left: seq<Byte>, chunks: seq<seq<Byte>>): (seq<seq<Byte>>, seq<Byte>)
    requires cfg.HeaderFits()
    decreases |chunks|
  {
    if chunks == [] then ([], left)
    else
      var now := DrainAll(cfg, left + chunks[0]);
      var later := Feed(cfg, now.1, chunks[1..]);
      (now.0 + later.0, later.1)
  }

  /** More bytes do not change a verdict that has been reached. */
  lemma VerdictIsStable(cfg: Config, bytes: seq<Byte>, more: seq<Byte>)
    requires cfg.HeaderFits() && Decode(cfg, bytes) != NeedMore
    ensures Decode(cfg, bytes + more) == Decode(cfg, bytes)
  {
    assert (bytes + more)[cfg.offset..cfg.offset + cfg.width] == bytes[cfg.offset..cfg.offset + cfg.width];
  }

  lemma DrainUnfold(cfg: Config, bytes: seq<Byte>)
    requires cfg.HeaderFits()
    ensures if Decode(cfg, bytes).Frame? && !Stuck(cfg, bytes) then
              var n := Decode(cfg, bytes).length;
              && 0 < n <= |bytes|
              && DrainAll(cfg, bytes) == ([bytes[..n]] + DrainAll(cfg, bytes[n..]).0, DrainAll(cfg, bytes[n..]).1)
            else DrainAll(cfg, bytes) == ([], bytes)
  {
    DecodeFits(cfg, bytes);
  }

  lemma {:induction false} DrainMore(cfg: Config, bytes: seq<Byte>, more: seq<Byte>)
    requires cfg.HeaderFits()
    ensures var a := DrainAll(cfg, bytes);
            var b := DrainAll(cfg, a.1 + more);
            DrainAll(cfg, bytes + more) == (a.0 + b.0, b.1)
    decreases |bytes|
  {
    hide DrainAll, Decode;
    DrainUnfold(cfg, bytes);
    if Decode(cfg, bytes).Frame? && !Stuck(cfg, bytes) {
      var n := Decode(cfg, bytes).length;
      VerdictIsStable(cfg, bytes, more);
      DrainUnfold(cfg, bytes + more);
      CutFront(bytes, more, n);
      DrainMore(cfg, bytes[n..], more);
      var rest := DrainAll(cfg, bytes[n..]);
      var b := DrainAll(cfg, rest.1 + more);
      assert [bytes[..n]] + rest.0 + b.0 == [bytes[..n]] + (rest.0 + b.0);
    } else {
      var b := DrainAll(cfg, bytes + more);
      assert [] + b.0 == b.0;
    }
  }

  lemma CutFront(bytes: seq<Byte>, more: seq<Byte>, n: nat)
    requires n <= |bytes|
    ensures (bytes + more)[n..] == bytes[n..] + more && (bytes + more)[..n] == bytes[..n]
  {
  }

  lemma {:induction false} DrainedIsDrained(cfg: Config, bytes: seq<Byte>)
    requires cfg.HeaderFits()
    ensures DrainAll(cfg, DrainAll(cfg, bytes).1) == ([], DrainAll(cfg, bytes).1)
    ensures Decode(cfg, DrainAll(cfg, bytes).1).Frame? ==> Stuck(cfg, DrainAll(cfg, bytes).1)
    decreases |bytes|
  {
    hide DrainAll, Decode;
    DrainUnfold(cfg, bytes);
    if Decode(cfg, bytes).Frame? && !Stuck(cfg, bytes) { DrainedIsDrained(cfg, bytes[Decode(cfg, bytes).length..]); }
  }

  /** The frames and the leftover are the input, cut up. */
  lemma {:induction false} NothingLost(cfg: Config, bytes: seq<Byte>)
    requires cfg.HeaderFits()
    ensures Concat(DrainAll(cfg, bytes).0) + DrainAll(cfg, bytes).1 == bytes
    decreases |bytes|
  {
    hide DrainAll, Decode;
    DrainUnfold(cfg, bytes);
    if Decode(cfg, bytes).Frame? && !Stuck(cfg, bytes) {
      var n := Decode(cfg, bytes).length;
      NothingLost(cfg, bytes[n..]);
      var rest := DrainAll(cfg, bytes[n..]);
      assert ([bytes[..n]] + rest.0)[1..] == rest.0;
      assert bytes == bytes[..n] + bytes[n..];
    }
  }

  lemma {:induction false} FeedIsDrain(cfg: Config, left: seq<Byte>, chunks: seq<seq<Byte>>)
    requires cfg.HeaderFits() && DrainAll(cfg, left) == ([], left)
    ensures Feed(cfg, left, chunks) == DrainAll(cfg, left + Concat(chunks))
    decreases |chunks|
  {
    hide DrainAll, Decode;
    if chunks == [] {
      assert left + Concat(chunks) == left;
    } else {
      var now := DrainAll(cfg, left + chunks[0]);
      DrainedIsDrained(cfg, left + chunks[0]);
      FeedIsDrain(cfg, now.1, chunks[1..]);
      DrainMore(cfg, left + chunks[0], Concat(chunks[1..]));
      assert left + chunks[0] + Concat(chunks[1..]) == left + Concat(chunks);
    }
  }

  /** Chunking independence, for every width and every stream: however a stream is split, draining after each
      chunk gives the same frames, the same leftover, and so the same point at which it is stuck on an oversized
      frame or on an empty one, if it is. */
  lemma ChunkingIndependent(cfg: Config, chunks: seq<seq<Byte>>, chunks': seq<seq<Byte>>)
    requires cfg.HeaderFits() && Concat(chunks) == Concat(chunks')
    ensures Feed(cfg, [], chunks) == Feed(cfg, [], chunks')
    ensures Concat(Feed(cfg, [], chunks).0) + Feed(cfg, [], chunks).1 == Concat(chunks)
    ensures Decode(cfg, Feed(cfg, [], chunks).1).Frame? ==> Stuck(cfg, Feed(cfg, [], chunks).1)
  {
    assert [] + Concat(chunks) == Concat(chunks) && [] + Concat(chunks') == Concat(chunks');
    DrainNothing(cfg);
    hide *;
    FeedIsDrain(cfg, [], chunks);
    FeedIsDrain(cfg, [], chunks');
    NothingLost(cfg, Concat(chunks));
    DrainedIsDrained(cfg, Concat(chunks));
  }

  lemma DrainNothing(cfg: Config)
    requires cfg.HeaderFits()
    ensures DrainAll(cfg, []) == ([], [])
  {
    DrainUnfold(cfg, []);
  }

  /** A stream that is stuck stays stuck, whatever follows. */
  lemma {:induction false} StuckStays(cfg: Config, left: seq<Byte>, chunks: seq<seq<Byte>>)
    requires cfg.HeaderFits() && Stuck(cfg, left)
    ensures Stuck(cfg, Feed(cfg, left, chunks).1)
    decreases |chunks|
  {
    if chunks != [] {
      VerdictIsStable(cfg, left, chunks[0]);
      DrainUnfold(cfg, left + chunks[0]);
      StuckStays(cfg, left + chunks[0], chunks[1..]);
    }
  }

  /** A payload behind its length header. */
  function Encode(width: nat, payload: seq<Byte>): seq<Byte> { ToLittleEndian(|payload|, width) + payload }

  function EncodeAll(width: nat, payloads: seq<seq<Byte>>): seq<seq<Byte>> {
    seq(|payloads|, i requires 0 <= i < |payloads| => Encode(width, payloads[i]))
  }

  /** The configuration for such frames. */
  function HeaderFirst(width: SizeT, maxFrameLength: SizeT): Config { Config(maxFrameLength, 0, width, 0) }

  lemma HeaderFirstOk(width: SizeT, maxFrameLength: SizeT)
    requires width == 1 || width == 2 || width == 4
    ensures HeaderFirst(width, maxFrameLength).HeaderFits() && HeaderFirst(width, maxFrameLength).ValidWidth()
    ensures Pow256(width) + width < SIZE_T
  {
    Pow256Bound(1);
    Pow256Bound(2);
    Pow256Bound(4);
    assert Pow256(width) <= 0x1_0000_0000;
  }

  /** A frame length that does not wrap */
  lemma PlainLength(width: SizeT, maxFrameLength: SizeT, payload: nat)
    requires width + payload < SIZE_T
    ensures HeaderFirst(width, maxFrameLength).FrameLength(payload) == width + payload
  {
  }

  /** The length field is read back from the front of an encoded payload. */
  lemma FieldInFront(width: nat, p: seq<Byte>, more: seq<Byte>)
    requires |p| < Pow256(width)
    ensures |Encode(width, p)| == width + |p| && LittleEndian((Encode(width, p) + more)[0..width]) == |p|
  {
    LittleEndianRoundTrip(|p|, width);
    hide Pow256, LittleEndian, ToLittleEndian;
    assert (Encode(width, p) + more)[0..width] == ToLittleEndian(|p|, width);
  }

  lemma DecodeField(cfg: Config, bytes: seq<Byte>, payload: nat)
    requires cfg.HeaderFits() && cfg.ValidWidth() && cfg.offset + cfg.width <= |bytes|
    requires LittleEndian(bytes[cfg.offset..cfg.offset + cfg.width]) == payload
    requires cfg.FrameLength(payload) <= cfg.maxFrameLength && cfg.FrameLength(payload) <= |bytes|
    ensures Decode(cfg, bytes) == Frame(cfg.FrameLength(payload))
  {
    hide LittleEndian, Config.FrameLength;
  }

  lemma EncodedDecode(width: SizeT, maxFrameLength: SizeT, p: seq<Byte>, more: seq<Byte>)
    requires width == 1 || width == 2 || width == 4
    requires |p| < Pow256(width) && width + |p| <= maxFrameLength
    ensures HeaderFirst(width, maxFrameLength).HeaderFits()
    ensures Decode(HeaderFirst(width, maxFrameLength), Encode(width, p) + more) == Frame(|Encode(width, p)|)
  {
    HeaderFirstOk(width, maxFrameLength);
    FieldInFront(width, p, more);
    PlainLength(width, maxFrameLength, |p|);
    hide Pow256, LittleEndian, ToLittleEndian, Encode, Decode, Config.FrameLength;
    DecodeField(HeaderFirst(width, maxFrameLength), Encode(width, p) + more, |p|);
  }

  lemma DrainFront(cfg: Config, frame: seq<Byte>, rest: seq<Byte>)
    requires cfg.HeaderFits() && frame != [] && Decode(cfg, frame + rest) == Frame(|frame|)
    ensures DrainAll(cfg, frame + rest) == ([frame] + DrainAll(cfg, rest).0, DrainAll(cfg, rest).1)
  {
    DrainUnfold(cfg, frame + rest);
    assert (frame + rest)[..|frame|] == frame && (frame + rest)[|frame|..] == rest;
    hide DrainAll, Decode;
  }

  lemma {:induction false} EncodedDrain(width: SizeT, maxFrameLength: SizeT, payloads: seq<seq<Byte>>)
    requires width == 1 || width == 2 || width == 4
    requires forall p <- payloads :: |p| < Pow256(width) && width + |p| <= maxFrameLength
    ensures HeaderFirst(width, maxFrameLength).HeaderFits()
    ensures DrainAll(HeaderFirst(width, maxFrameLength), Concat(EncodeAll(width, payloads)))
            == (EncodeAll(width, payloads), [])
    decreases |payloads|
  {
    HeaderFirstOk(width, maxFrameLength);
    var cfg := HeaderFirst(width, maxFrameLength);
    hide Encode, Decode, DrainAll, Pow256;
    if payloads != [] {
      var frames, rest := EncodeAll(width, payloads), EncodeAll(width, payloads[1..]);
      assert frames[1..] == rest && frames == [frames[0]] + rest;
      EncodedDecode(width, maxFrameLength, payloads[0], Concat(rest));
      EncodedDrain(width, maxFrameLength, payloads[1..]);
      FieldInFront(width, payloads[0], []);
      assert Concat(frames) == frames[0] + Concat(rest);
      DrainFront(cfg, frames[0], Concat(rest));
    } else {
      DrainNothing(cfg);
    }
  }

  /** Round trip: payloads framed by the append functions, concatenated and delivered in any chunks, are
      decoded to exactly those frames, with nothing left. */
  lemma RoundTrip(width: SizeT, maxFrameLength: SizeT, payloads: seq<seq<Byte>>, chunks: seq<seq<Byte>>)
    requires width == 1 || width == 2 || width == 4
    requires forall p <- payloads :: |p| < Pow256(width) && width + |p| <= maxFrameLength
    requires Concat(chunks) == Concat(EncodeAll(width, payloads))
    ensures HeaderFirst(width, maxFrameLength).HeaderFits()
    ensures Feed(HeaderFirst(width, maxFrameLength), [], chunks) == (EncodeAll(width, payloads), [])
  {
    hide *;
    EncodedDrain(width, maxFrameLength, payloads);
    var cfg := HeaderFirst(width, maxFrameLength);
    DrainNothing(cfg);
    FeedIsDrain(cfg, [], chunks);
    assert [] + Concat(chunks) == Concat(chunks);
  }

  lemma DrainStep(cfg: Config, frames: seq<seq<Byte>>, view: seq<Byte>)
    requires cfg.HeaderFits() && !Stuck(cfg, DrainAll(cfg, view).1)
    ensures Decode(cfg, view).Frame? ==> 0 < Decode(cfg, view).length <= |view|
    ensures var all := DrainAll(cfg, view);
            if Decode(cfg, view).Frame? then
              var n := Decode(cfg, view).length;
              var rest := DrainAll(cfg, view[n..]);
              all.1 == rest.1 && (frames + all.0, all.1) == (frames + [view[..n]] + rest.0, rest.1)
            else
              (frames + all.0, all.1) == (frames, view)
  {
    DrainUnfold(cfg, view);
    hide Decode, DrainAll;
    if Decode(cfg, view).Frame? {
      var n := Decode(cfg, view).length;
      var rest := DrainAll(cfg, view[n..]);
      assert frames + ([view[..n]] + rest.0) == frames + [view[..n]] + rest.0;
    } else {
      assert frames + [] == frames;
    }
  }

  lemma ReceiveStep(cfg: Config, frames: seq<seq<Byte>>, view: seq<Byte>, chunks: seq<seq<Byte>>, i: nat)
    requires cfg.HeaderFits() && i < |chunks| && !Stuck(cfg, Feed(cfg, view, chunks[i..]).1)
    ensures !Stuck(cfg, DrainAll(cfg, view + chunks[i]).1)
    ensures var now := DrainAll(cfg, view + chunks[i]);
            var later := Feed(cfg, now.1, chunks[i + 1..]);
            var all := Feed(cfg, view, chunks[i..]);
            (frames + all.0, all.1) == (frames + now.0 + later.0, later.1)
  {
    assert chunks[i..][1..] == chunks[i + 1..];
    var now := DrainAll(cfg, view + chunks[i]);
    var later := Feed(cfg, now.1, chunks[i + 1..]);
    assert frames + (now.0 + later.0) == frames + now.0 + later.0;
    if Stuck(cfg, now.1) { StuckStays(cfg, now.1, chunks[i + 1..]); }
  }

  /** The sender's side: header, then payload. */
  method WriteFrame(buffer: Buffer, width: nat, payload: seq<Byte>)
    requires buffer.Live() && buffer.Unshared()
    modifies buffer, buffer.block, buffer.block.data
    ensures buffer.Live() && buffer.Unshared() && buffer.View() == old(buffer.View()) + Encode(width, payload)
    ensures buffer.block == old(buffer.block) || fresh(buffer.block)
    ensures buffer.block.data == old(buffer.block.data) || fresh(buffer.block.data)
  {
    buffer.AppendLE(|payload|, width);
    buffer.Append(payload);
  }

  class LengthFieldBasedFrameDecoder {
    const cfg: Config

    constructor (cfg: Config)
      ensures this.cfg == cfg
    {
      this.cfg := cfg;
    }

    /** The length field, in one of the four widths. */
    method PayloadLength(buffer: Buffer) returns (payLoadLength: nat)
      requires buffer.Live() && cfg.offset + cfg.width <= |buffer.View()|
      ensures cfg.ValidWidth() ==>
                payLoadLength == LittleEndian(buffer.View()[cfg.offset..cfg.offset + cfg.width])
    {
      payLoadLength := 0;
      if cfg.width == 1 {
        payLoadLength := buffer.PeekLE(cfg.offset, 1);
      } else if cfg.width == 2 {
        payLoadLength := buffer.PeekLE(cfg.offset, 2);
      } else if cfg.width == 4 {
        payLoadLength := buffer.PeekLE(cfg.offset, 4);
      } else if cfg.width == 8 {
        payLoadLength := buffer.PeekLE(cfg.offset, 8);
      }
    }

    method DecodeNext(buffer: Buffer) returns (frame: Buffer?)
      requires cfg.HeaderFits() && buffer.Live()
      modifies buffer`read, buffer.block
      ensures buffer.Live() && buffer.block.data == old(buffer.block.data)
      ensures match Decode(cfg, old(buffer.View()))
              case Frame(n) =>
                && n <= |old(buffer.View())|
                && frame != null && fresh(frame) && frame.Live() && frame.block == buffer.block
                && frame.View() == old(buffer.View())[..n] && buffer.View() == old(buffer.View())[n..]
                && buffer.block.owners == old(buffer.block.owners) + {frame}
              case _ =>
                frame == null && buffer.View() == old(buffer.View()) && buffer.block.owners == old(buffer.block.owners)
      ensures frame != null
              <==> && cfg.offset + cfg.width <= |old(buffer.View())| && cfg.width in {1, 2, 4, 8}
                   && (cfg.offset + cfg.width + LittleEndian(old(buffer.View())[cfg.offset..cfg.offset + cfg.width])
                       + cfg.adjustment) % 0x1_0000_0000_0000_0000
                      <= if cfg.maxFrameLength < |old(buffer.View())| then cfg.maxFrameLength
                         else |old(buffer.View())|
      ensures frame != null ==>
                |frame.View()|
                == (cfg.offset + cfg.width + LittleEndian(old(buffer.View())[cfg.offset..cfg.offset + cfg.width])
                    + cfg.adjustment) % 0x1_0000_0000_0000_0000
    {
      hide LittleEndian, Pow256, Buffer.Unshared;
      var readableBytes := buffer.ReadableBytes();
      if readableBytes < cfg.width + cfg.offset {
        return null;
      }
      if !cfg.ValidWidth() {
        return null;
      }
      var payLoadLength := PayloadLength(buffer);
      var frameLength := (cfg.offset + cfg.width + payLoadLength + cfg.adjustment) % SIZE_T;
      if frameLength > cfg.maxFrameLength {
        return null;
      }
      if readableBytes < frameLength {
        return null;
      }
      frame := buffer.SlicePacket(frameLength);
    }

    /** A receiver that consumes each frame as it is decoded, until `decode` returns null. It would not end on a
        stream that stops at an empty frame. */
    method Drain(buffer: Buffer) returns (frames: seq<seq<Byte>>)
      requires cfg.HeaderFits() && buffer.Live() && buffer.Unshared() && !Stuck(cfg, DrainAll(cfg, buffer.View()).1)
      modifies buffer`read, buffer.block
      ensures buffer.Live() && buffer.Unshared() && buffer.block.data == old(buffer.block.data)
      ensures (frames, buffer.View()) == DrainAll(cfg, old(buffer.View()))
    {
      hide Decode, DrainAll;
      frames := [];
      ghost var all := buffer.View();
      assert frames + DrainAll(cfg, all).0 == DrainAll(cfg, all).0;
      while true
        invariant buffer.Live() && buffer.Unshared() && buffer.block.data == old(buffer.block.data)
        invariant !Stuck(cfg, DrainAll(cfg, buffer.View()).1)
        invariant DrainAll(cfg, all) == (frames + DrainAll(cfg, buffer.View()).0, DrainAll(cfg, buffer.View()).1)
        decreases |buffer.View()|
      {
        DrainStep(cfg, frames, buffer.View());
        ghost var view := buffer.View();
        var frame := DecodeNext(buffer);
        if frame == null {
          return;
        }
        ghost var n := Decode(cfg, view).length;
        var content := frame.ReadAsString(frame.ReadableBytes());
        assert content + [] == content;
        assert content == view[..n];
        frames := frames + [content];
        frame.Destroy();
        assert buffer.View() == view[n..];
      }
    }

    /** A connection that appends each chunk it reads and drains the buffer. */
    method Receive(buffer: Buffer, chunks: seq<seq<Byte>>) returns (frames: seq<seq<Byte>>)
      requires cfg.HeaderFits() && buffer.Live() && buffer.Unshared()
      requires chunks != [] ==> !Stuck(cfg, Feed(cfg, buffer.View(), chunks).1)
      modifies buffer, buffer.block, buffer.block.data
      ensures buffer.Live() && buffer.Unshared()
      ensures (frames, buffer.View()) == Feed(cfg, old(buffer.View()), chunks)
    {
      frames := [];
      assert chunks[0..] == chunks;
      ghost var view0 := buffer.View();
      assert frames + Feed(cfg, buffer.View(), chunks).0 == Feed(cfg, buffer.View(), chunks).0;
      for i := 0 to |chunks|
        invariant buffer.Live() && buffer.Unshared()
        invariant buffer.block == old(buffer.block) || fresh(buffer.block)
        invariant buffer.block.data == old(buffer.block.data) || fresh(buffer.block.data)
        invariant i < |chunks| ==> !Stuck(cfg, Feed(cfg, buffer.View(), chunks[i..]).1)
        invariant var later := Feed(cfg, buffer.View(), chunks[i..]);
                  Feed(cfg, view0, chunks) == (frames + later.0, later.1)
      {
        ReceiveStep(cfg, frames, buffer.View(), chunks, i);
        hide Feed, DrainAll, Stuck;
        buffer.Append(chunks[i]);
        var more := Drain(buffer);
        frames := frames + more;
      }
      assert chunks[|chunks|..] == [] && frames + [] == frames;
    }
  }
}
