/** The output path of a connection: messages go to the kernel directly, or through the output buffer. */
module Connections {
  import opened Bytes
  import opened Buffers
  import opened Subsequences

  datatype State = Connecting | Connected | Disconnecting | Disconnected

  datatype Errno = WouldBlock | BrokenPipe | ConnectionReset | OtherError

  /** Callbacks put into the loop's queue, with what was on the wire and accepted at that time. */
  datatype Notice = WriteComplete(onWire: nat, taken: nat) | HighWater(size: nat)

  /** What the user has set: whether the two callbacks are there, and the high-water mark. */
  datatype Hooks = Hooks(writeComplete: bool, highWater: bool, mark: nat)

  /** A connection with its history: the bytes handed to the kernel, and the messages accepted. */
  datatype Stream = Stream(
    hooks: Hooks,
    state: State,
    reading: bool,
    writing: bool,
    buffered: seq<Byte>,
    wire: seq<Byte>,
    accepted: seq<seq<Byte>>,
    notices: seq<Notice>
  )

  function Init(hooks: Hooks): Stream {
    Stream(hooks, Connecting, false, false, [], [], [], [])
  }

  predicate Fault(errno: Errno) { errno.BrokenPipe? || errno.ConnectionReset? }

  /** The connection drops `message`: it is closed, or the direct write fails for good. */
  predicate Drops(s: Stream, direct: bool, nWrote: int, errno: Errno) {
    s.state.Disconnected? || (direct && !s.writing && nWrote <= 0 && Fault(errno))
  }

  /** How much of a message goes to the kernel at once. */
  function Direct(s: Stream, direct: bool, nWrote: int): nat {
    if direct && !s.writing && nWrote > 0 then nWrote else 0
  }

  function Noticed(s: Stream, complete: bool, size: nat): seq<Notice> {
    if complete && s.hooks.writeComplete then s.notices + [WriteComplete(|s.wire|, |Concat(s.accepted)|)]
    else if size > s.hooks.mark && |s.buffered| < s.hooks.mark && s.hooks.highWater then s.notices + [HighWater(size)]
    else s.notices
  }

  /** `direct` says that the input buffer is empty; `nWrote` and `errno` are what write() answers if asked. */
  function Sent(s: Stream, message: seq<Byte>, direct: bool, nWrote: int, errno: Errno): Stream
    requires -1 <= nWrote <= |message|
  {
    if Drops(s, direct, nWrote, errno) then s
    else
      var n := Direct(s, direct, nWrote);
      var rest := message[n..];
      var t := s.(wire := s.wire + message[..n], accepted := s.accepted + [message]);
      t.(buffered := s.buffered + rest, writing := s.writing || rest != [],
         notices := Noticed(t, n > 0 && rest == [], if rest == [] then 0 else |s.buffered| + |rest|))
  }

  /** The socket is writable and write() takes `nWrite` bytes. A failure, -1, becomes the largest size_t. */
  function Flushed(s: Stream, nWrite: int): Stream
    requires -1 <= nWrite <= |s.buffered|
  {
    if !s.writing || nWrite == 0 then s
    else
      var rest := if nWrite < 0 then [] else s.buffered[nWrite..];
      var t := s.(wire := s.wire + if nWrite < 0 then [] else s.buffered[..nWrite],
                  buffered := rest, writing := rest != []);
      t.(notices := Noticed(t, rest == [], 0))
  }

  /** onClose and onError */
  function Closed(s: Stream): Stream {
    s.(state := Disconnected, reading := false, writing := false)
  }

  datatype Event =
    | Establish
    | Send(message: seq<Byte>, direct: bool, nWrote: int, errno: Errno)       // send, in the loop thread
    | SendInLoop(message: seq<Byte>, direct: bool, nWrote: int, errno: Errno) // queued by a send elsewhere
    | Writable(nWrite: int)
    | Shutdown
    | ForceClose
    | ForceCloseInLoop
    | PeerClosed // onClose, also by onRead at end of stream
    | Failed     // onError
    | Destroy

  /** The results of write() are in range; the connection is established once. */
  predicate Enabled(s: Stream, e: Event) {
    match e
    case Establish => s.state.Connecting?
    case Send(m, _, n, _) => -1 <= n <= |m|
    case SendInLoop(m, _, n, _) => -1 <= n <= |m|
    case Writable(n) => -1 <= n <= |s.buffered|
    case _ => true
  }

  predicate Open(s: Stream) { s.state.Connected? || s.state.Disconnecting? }

  function Next(s: Stream, e: Event): Stream
    requires Enabled(s, e)
  {
    match e
    case Establish => s.(state := Connected, reading := true)
    case Send(m, d, n, errno) => if s.state.Connected? then Sent(s, m, d, n, errno) else s
    case SendInLoop(m, d, n, errno) => Sent(s, m, d, n, errno)
    case Writable(n) => Flushed(s, n)
    case Shutdown => if s.state.Connected? then s.(state := Disconnecting) else s
    case ForceClose => if Open(s) then s.(state := Disconnecting) else s
    case ForceCloseInLoop => if Open(s) then Closed(s) else s
    case PeerClosed => Closed(s)
    case Failed => Closed(s)
    case Destroy => if s.state.Connected? then Closed(s) else s
  }

  predicate WriteFails(s: Stream, e: Event) { e.Writable? && s.writing && e.nWrite < 0 }

  /** `events` lead from `s` to `t`, no write of buffered bytes failing. */
  ghost predicate Runs(s: Stream, events: seq<Event>, t: Stream)
    decreases |events|
  {
    if events == [] then s == t
    else Enabled(s, events[0]) && !WriteFails(s, events[0]) && Runs(Next(s, events[0]), events[1..], t)
  }

  /** Wire and buffer together are the accepted messages, in order and whole. */
  ghost predicate Intact(s: Stream) { s.wire + s.buffered == Concat(s.accepted) }

  /** The socket is watched for writing exactly while something is buffered; a closed one never is. */
  ghost predicate Watched(s: Stream) {
    if s.state.Disconnected? then !s.writing else s.writing <==> s.buffered != []
  }

  ghost predicate Honest(s: Stream) {
    forall i :: 0 <= i < |s.notices| && s.notices[i].WriteComplete? ==> s.notices[i].onWire == s.notices[i].taken
  }

  /** A message is accepted whole or dropped whole, and when it is dropped nothing at all changes. */
  lemma AcceptedOrDropped(s: Stream, m: seq<Byte>, direct: bool, n: int, errno: Errno)
    requires Watched(s) && -1 <= n <= |m|
    ensures var t := Sent(s, m, direct, n, errno);
            if Drops(s, direct, n, errno) then t == s
            else t.accepted == s.accepted + [m] && t.wire + t.buffered == s.wire + s.buffered + m
  {
    if !Drops(s, direct, n, errno) {
      var k := Direct(s, direct, n);
      assert m == m[..k] + m[k..];
      if k > 0 {
        assert s.wire + m[..k] + (s.buffered + m[k..]) == s.wire + s.buffered + m;
      } else {
        assert s.wire + m[..k] == s.wire && m[k..] == m;
        assert s.wire + (s.buffered + m) == s.wire + s.buffered + m;
      }
    }
  }

  lemma SentKeeps(s: Stream, m: seq<Byte>, direct: bool, n: int, errno: Errno)
    requires Intact(s) && Watched(s) && Honest(s) && -1 <= n <= |m|
    ensures var t := Sent(s, m, direct, n, errno); Intact(t) && Watched(t) && Honest(t)
  {
    SentIntact(s, m, direct, n, errno);
    hide Concat;
  }

  lemma SentIntact(s: Stream, m: seq<Byte>, direct: bool, n: int, errno: Errno)
    requires Intact(s) && Watched(s) && -1 <= n <= |m|
    ensures Intact(Sent(s, m, direct, n, errno))
  {
    AcceptedOrDropped(s, m, direct, n, errno);
    ConcatSnoc(s.accepted, m);
    hide Concat, Sent;
  }

  /** A write of buffered bytes keeps the stream intact if and only if it does not fail. */
  lemma FlushedKeeps(s: Stream, n: int)
    requires Intact(s) && Watched(s) && Honest(s) && s.writing && -1 <= n <= |s.buffered|
    ensures var t := Flushed(s, n); Watched(t) && (Intact(t) <==> n >= 0) && (n >= 0 ==> Honest(t))
  {
    if n > 0 {
      assert s.buffered == s.buffered[..n] + s.buffered[n..];
      assert s.wire + s.buffered[..n] + s.buffered[n..] == s.wire + s.buffered;
    } else if n < 0 {
      assert |s.wire + []| < |s.wire + s.buffered|;
    }
  }

  lemma StepKeeps(s: Stream, e: Event)
    requires Intact(s) && Watched(s) && Honest(s) && Enabled(s, e) && !WriteFails(s, e)
    ensures Intact(Next(s, e)) && Watched(Next(s, e)) && Honest(Next(s, e))
  {
    match e
    case Send(m, d, n, errno) => SentKeeps(s, m, d, n, errno);
    case SendInLoop(m, d, n, errno) => SentKeeps(s, m, d, n, errno);
    case Writable(n) => if s.writing { FlushedKeeps(s, n); }
    case _ =>
  }

  lemma {:induction false} RunKeeps(s: Stream, events: seq<Event>, t: Stream)
    requires Intact(s) && Watched(s) && Honest(s) && Runs(s, events, t)
    ensures Intact(t) && Watched(t) && Honest(t)
    decreases |events|
  {
    if events != [] {
      StepKeeps(s, events[0]);
      RunKeeps(Next(s, events[0]), events[1..], t);
    }
  }

  /** In every run, the peer is sent a prefix of the accepted messages, in the order of sending; all of them
      once the socket is no longer watched for writing; and write-complete means what it says. */
  lemma StreamInOrder(hooks: Hooks, events: seq<Event>, s: Stream)
    requires Runs(Init(hooks), events, s)
    ensures s.wire + s.buffered == Concat(s.accepted)
    ensures !s.state.Disconnected? && !s.writing ==> s.wire == Concat(s.accepted)
    ensures forall i :: 0 <= i < |s.notices| && s.notices[i].WriteComplete? ==>
      s.notices[i].onWire == s.notices[i].taken
  {
    RunKeeps(Init(hooks), events, s);
  }

  /** When sending queues a notice: write-complete for a message that went to the kernel whole at once, when
      everything accepted is on the wire; high-water when the buffer goes from below the mark to above it (but
      not when it goes on from exactly the mark). */
  lemma NoticeWhen(s: Stream, m: seq<Byte>, direct: bool, n: int, errno: Errno)
    requires Watched(s) && Intact(s) && -1 <= n <= |m|
    ensures var t := Sent(s, m, direct, n, errno);
            t.notices == s.notices +
              (if s.hooks.writeComplete && t != s && m != [] && t.wire == s.wire + m
               then [WriteComplete(|t.wire|, |t.wire|)]
               else if s.hooks.highWater && |s.buffered| < s.hooks.mark < |t.buffered| then [HighWater(|t.buffered|)]
               else [])
  {
    var t := Sent(s, m, direct, n, errno);
    if !Drops(s, direct, n, errno) {
      var k := Direct(s, direct, n);
      assert |t.wire| == |s.wire| + k;
      ConcatSnoc(s.accepted, m);
      if k == |m| { assert m[..k] == m && m[k..] == []; }
    }
  }

  /** A flush that empties the buffer queues a write-complete notice, when everything accepted is on the wire. */
  lemma NoticeWhenFlushed(s: Stream, n: nat)
    requires Watched(s) && Intact(s) && s.writing && n <= |s.buffered|
    ensures var t := Flushed(s, n);
            t.notices == s.notices + if s.hooks.writeComplete && t.buffered == [] && n > 0
                                     then [WriteComplete(|t.wire|, |t.wire|)] else []
  {
    if n > 0 { assert s.wire + s.buffered[..n] + s.buffered[n..] == s.wire + s.buffered; }
  }

  // What a run accepts and puts on the wire, told from its events

  /** The state of the connection */
  function StateAfter(state: State, e: Event): State {
    match e
    case Establish => Connected
    case Shutdown => if state.Connected? then Disconnecting else state
    case ForceClose => if state.Connected? || state.Disconnecting? then Disconnecting else state
    case ForceCloseInLoop => if state.Connected? || state.Disconnecting? then Disconnected else state
    case PeerClosed => Disconnected
    case Failed => Disconnected
    case Destroy => if state.Connected? then Disconnected else state
    case _ => state
  }

  function StateAfterAll(state: State, events: seq<Event>): State
    decreases |events|
  {
    if events == [] then state else StateAfterAll(StateAfter(state, events[0]), events[1..])
  }

  /** A message gets through: `send` needs a connected connection, the loop one that is not disconnected. */
  predicate Admits(state: State, e: Event) {
    (e.Send? && state.Connected?) || (e.SendInLoop? && !state.Disconnected?)
  }

  /** The event's message is accepted: it gets through, and it is not the case that write() was tried, took nothing,
      and answered EPIPE or ECONNRESET. */
  predicate Accepts(state: State, writing: bool, e: Event) {
    && Admits(state, e)
    && !(e.direct && !writing && e.nWrote <= 0 && (e.errno == BrokenPipe || e.errno == ConnectionReset))
  }

  /** How many bytes the kernel takes */
  function Takes(state: State, writing: bool, e: Event): nat {
    if Admits(state, e) then (if e.direct && !writing && 0 < e.nWrote then e.nWrote else 0)
    else if e.Writable? && writing && 0 < e.nWrite then e.nWrite
    else 0
  }

  ghost function Kept(s: Stream, events: seq<Event>, t: Stream): seq<seq<Byte>>
    requires Runs(s, events, t)
    decreases |events|
  {
    if events == [] then []
    else
      (if Accepts(s.state, s.writing, events[0]) then [events[0].message] else [])
      + Kept(Next(s, events[0]), events[1..], t)
  }

  ghost function Written(s: Stream, events: seq<Event>, t: Stream): nat
    requires Runs(s, events, t)
    decreases |events|
  {
    if events == [] then 0
    else Takes(s.state, s.writing, events[0]) + Written(Next(s, events[0]), events[1..], t)
  }

  lemma StepAccounts(s: Stream, e: Event)
    requires Enabled(s, e) && !WriteFails(s, e)
    ensures Next(s, e).state == StateAfter(s.state, e)
    ensures Next(s, e).accepted == s.accepted + if Accepts(s.state, s.writing, e) then [e.message] else []
    ensures |Next(s, e).wire| == |s.wire| + Takes(s.state, s.writing, e)
    ensures (s.reading <==> Open(s)) ==> (Next(s, e).reading <==> Open(Next(s, e)))
  {
    hide Noticed;
  }

  lemma {:induction false} RunAccounts(s: Stream, events: seq<Event>, t: Stream)
    requires Runs(s, events, t)
    ensures t.state == StateAfterAll(s.state, events)
    ensures t.accepted == s.accepted + Kept(s, events, t)
    ensures |t.wire| == |s.wire| + Written(s, events, t)
    ensures (s.reading <==> Open(s)) ==> (t.reading <==> Open(t))
    decreases |events|
  {
    hide Next, Enabled, WriteFails, Takes, StateAfter, Open;
    if events == [] {
      assert s.accepted + [] == s.accepted;
    } else {
      StepAccounts(s, events[0]);
      RunAccounts(Next(s, events[0]), events[1..], t);
      var first := if Accepts(s.state, s.writing, events[0]) then [events[0].message] else [];
      assert t.accepted == s.accepted + (first + Kept(Next(s, events[0]), events[1..], t));
    }
  }

  /** Exactly what has been sent: the messages accepted one by one, and of these as many bytes as the kernel took. */
  lemma SentExactly(hooks: Hooks, events: seq<Event>, s: Stream)
    requires Runs(Init(hooks), events, s)
    ensures s.state == StateAfterAll(Connecting, events) && (s.reading <==> Open(s))
    ensures var all := Concat(Kept(Init(hooks), events, s));
            var n := Written(Init(hooks), events, s);
            n <= |all| && s.wire == all[..n] && s.buffered == all[n..]
  {
    RunKeeps(Init(hooks), events, s);
    RunAccounts(Init(hooks), events, s);
    assert [] + Kept(Init(hooks), events, s) == Kept(Init(hooks), events, s);
    hide Runs, Concat, Kept, Written, StateAfterAll;
    assert s.wire == (s.wire + s.buffered)[..|s.wire|] && s.buffered == (s.wire + s.buffered)[|s.wire|..];
  }

  /** The messages that get through, by the states that the events lead to */
  function Admitted(state: State, events: seq<Event>): seq<seq<Byte>>
    decreases |events|
  {
    if events == [] then []
    else
      (if Admits(state, events[0]) then [events[0].message] else [])
      + Admitted(StateAfter(state, events[0]), events[1..])
  }

  /** Unless write() answers EPIPE or ECONNRESET, a run accepts all messages sent while the connection admits them:
      a full socket buffer drops nothing. */
  lemma {:induction false} NothingDropped(s: Stream, events: seq<Event>, t: Stream)
    requires Runs(s, events, t)
    requires forall e <- events :: e.Send? || e.SendInLoop? ==> e.errno == WouldBlock || e.errno == OtherError
    ensures t.accepted == s.accepted + Admitted(s.state, events)
    decreases |events|
  {
    hide Next, StateAfter, Enabled, WriteFails, Takes, Open;
    if events == [] {
      assert s.accepted + [] == s.accepted;
    } else {
      var e := events[0];
      assert e in events;
      StepAccounts(s, e);
      NothingDropped(Next(s, e), events[1..], t);
      var first := if Admits(s.state, e) then [e.message] else [];
      assert t.accepted == s.accepted + (first + Admitted(StateAfter(s.state, e), events[1..]));
    }
  }

  /** The messages handed to the connection. */
  function Messages(events: seq<Event>): seq<seq<Byte>> {
    if events == [] then []
    else (if events[0].Send? || events[0].SendInLoop? then [events[0].message] else []) + Messages(events[1..])
  }

  /** What a run accepts are some of the messages sent in it, in that order. */
  lemma {:induction false} AcceptedAreSent(s: Stream, events: seq<Event>, t: Stream)
    requires Runs(s, events, t)
    ensures t.accepted == s.accepted + Kept(s, events, t) && Subsequence(Kept(s, events, t), Messages(events))
    decreases |events|
  {
    RunAccounts(s, events, t);
    hide Next, Enabled, WriteFails;
    if events != [] {
      var n, e, rest := Next(s, events[0]), events[0], Messages(events[1..]);
      AcceptedAreSent(n, events[1..], t);
      var kept := Kept(n, events[1..], t);
      if e.Send? || e.SendInLoop? {
        assert Messages(events)[1..] == rest && Messages(events)[0] == e.message;
        assert ([e.message] + kept)[1..] == kept && [] + kept == kept;
      } else {
        assert Messages(events) == rest && [] + kept == kept;
      }
    }
  }

  /** After the connection has closed nothing more goes out. */
  lemma {:induction false} SilentOnceClosed(s: Stream, events: seq<Event>, t: Stream)
    requires s.state.Disconnected? && Watched(s) && Runs(s, events, t)
    ensures t.state.Disconnected? && t.wire == s.wire && t.accepted == s.accepted
    decreases |events|
  {
    if events != [] { SilentOnceClosed(Next(s, events[0]), events[1..], t); }
  }

  /** What sending amounts to, field by field. */
  lemma SentIs(s: Stream, m: seq<Byte>, direct: bool, n: int, errno: Errno, t: Stream)
    requires -1 <= n <= |m|
    requires var tried := !s.state.Disconnected? && !s.writing && direct;
             var k := if tried && 0 < n then n else 0;
             if s.state.Disconnected? || (tried && n <= 0 && (errno == BrokenPipe || errno == ConnectionReset)) then
               t == s
             else
               && t == s.(wire := s.wire + m[..k], accepted := s.accepted + [m], buffered := s.buffered + m[k..],
                          writing := s.writing || k < |m|, notices := t.notices)
               && t.notices == Noticed(s.(wire := t.wire, accepted := t.accepted), 0 < k == |m|,
                                       if k == |m| then 0 else |t.buffered|)
    ensures t == Sent(s, m, direct, n, errno)
  {
    hide Noticed;
  }

  class Connection {
    var state: State
    var reading: bool
    var writing: bool
    const hooks: Hooks
    const input: Buffer
    const output: Buffer
    ghost var wire: seq<Byte>
    ghost var accepted: seq<seq<Byte>>
    ghost var notices: seq<Notice>

    ghost predicate Valid()
      reads this, input, output, output.block,
        if output.block == null then {} else output.block.owners + {output.block.data as object}
    {
      output.Live() && output.Unshared() && input != output && input.read <= input.write
    }

    ghost function Abs(): Stream
      requires Valid()
      reads this, input, output, output.block,
        if output.block == null then {} else output.block.owners + {output.block.data as object}
    {
      Stream(hooks, state, reading, writing, output.View(), wire, accepted, notices)
    }

    constructor (hooks: Hooks)
      ensures Valid() && Abs() == Init(hooks)
    {
      this.hooks := hooks;
      state, reading, writing := State.Connecting, false, false;
      input := new Buffer();
      output := new Buffer();
      wire, accepted, notices := [], [], [];
    }

    /** sendInLoop, and with the bytes of a buffer sendBufferInLoop, which does the same. */
    method SendInLoop(message: seq<Byte>, answer: int, errno: Errno)
      requires Valid() && -1 <= answer <= |message|
      modifies this, output, output.Mutable()
      ensures Valid() && Abs() == Sent(old(Abs()), message, old(input.ReadableBytes()) == 0, answer, errno)
      ensures var tried := old(state != Disconnected && !writing && input.ReadableBytes() == 0);
              var n := if tried && 0 < answer then answer else 0;
              && wire == old(wire) + message[..n]
              && if old(state) == Disconnected
                    || (tried && answer <= 0 && (errno == BrokenPipe || errno == ConnectionReset)) then
                   accepted == old(accepted) && output.View() == old(output.View())
                 else
                   accepted == old(accepted) + [message] && output.View() == old(output.View()) + message[n..]
    {
      hide Concat, Sent;
      ghost var s, direct := Abs(), input.ReadableBytes() == 0;
      var nWrote, remain, faultError := 0, |message|, false;
      if state.Disconnected? {
        SentIs(s, message, direct, answer, errno, s);
        return;
      }
      accepted := accepted + [message];
      if !writing && input.ReadableBytes() == 0 {
        nWrote := answer;
        if nWrote > 0 {
          wire := wire + message[..nWrote];
          remain := |message| - nWrote;
          if remain == 0 && hooks.writeComplete {
            notices := notices + [WriteComplete(|wire|, |Concat(accepted)|)];
          }
        } else {
          nWrote := 0;
          if !errno.WouldBlock? {
            if errno.BrokenPipe? || errno.ConnectionReset? {
              faultError := true;
              accepted := old(accepted);
            }
          }
        }
      }
      if !faultError && remain > 0 {
        KeepRest(message[nWrote..]);
      }
      if !faultError {
        assert wire == s.wire + message[..nWrote];
        assert output.View() == s.buffered + message[nWrote..];
      }
      SentIs(s, message, direct, answer, errno, Abs());
    }

    /** The end of sendInLoop: what the kernel has not taken is buffered. */
    method KeepRest(rest: seq<Byte>)
      requires Valid() && rest != []
      modifies this`writing, this`notices, output, output.Mutable()
      ensures Valid() && writing && output.View() == old(output.View()) + rest
      ensures notices == Noticed(old(Abs()), false, |output.View()|)
    {
      var oldLen := output.ReadableBytes();
      if oldLen + |rest| > hooks.mark && oldLen < hooks.mark && hooks.highWater {
        notices := notices + [HighWater(oldLen + |rest|)];
      }
      output.Append(rest);
      if !writing { writing := true; }
    }

    method OnWrite(answer: int)
      requires Valid() && -1 <= answer <= output.ReadableBytes() < 0xffff_ffff_ffff_ffff
      modifies this, output
      ensures Valid() && Abs() == Flushed(old(Abs()), answer)
      ensures var n := if old(writing) && 0 < answer then answer else 0;
              && wire == old(wire) + old(output.View())[..n] && accepted == old(accepted)
              && output.View() == if old(writing) && answer < 0 then [] else old(output.View())[n..]
    {
      if writing {
        var nWrite: nat := if answer < 0 then 0xffff_ffff_ffff_ffff else answer;
        if nWrite > 0 {
          if answer > 0 { wire := wire + output.View()[..answer]; }
          output.Skip(nWrite);
          if output.ReadableBytes() == 0 {
            writing := false;
            if hooks.writeComplete { notices := notices + [WriteComplete(|wire|, |Concat(accepted)|)]; }
          }
        }
      }
    }

    method Establish()
      requires Valid() && state.Connecting?
      modifies this
      ensures Valid() && Abs() == Next(old(Abs()), Event.Establish)
    {
      state := Connected;
      reading := true;
    }

    method Send(message: seq<Byte>, answer: int, errno: Errno)
      requires Valid() && -1 <= answer <= |message|
      modifies this, output, output.Mutable()
      ensures Valid() && Abs() == Next(old(Abs()), Event.Send(message, old(input.ReadableBytes()) == 0, answer, errno))
      ensures accepted
              == if old(state) == Connected
                    && !(!old(writing) && old(input.ReadableBytes()) == 0 && answer <= 0
                         && (errno == BrokenPipe || errno == ConnectionReset))
                 then old(accepted) + [message] else old(accepted)
    {
      if state.Connected? { SendInLoop(message, answer, errno); }
    }

    /** onClose and onError */
    method OnClose()
      requires Valid()
      modifies this
      ensures Valid() && Abs() == Next(old(Abs()), PeerClosed) == Next(old(Abs()), Failed)
    {
      reading, writing := false, false;
      state := Disconnected;
    }

    method ForceCloseInLoop()
      requires Valid()
      modifies this
      ensures Valid() && Abs() == Next(old(Abs()), Event.ForceCloseInLoop)
    {
      if state.Connected? || state.Disconnecting? { OnClose(); }
    }

    method OnConnectionDestroy()
      requires Valid()
      modifies this
      ensures Valid() && Abs() == Next(old(Abs()), Destroy)
    {
      if state.Connected? {
        reading, writing := false, false;
        state := Disconnected;
      }
    }
  }
}
