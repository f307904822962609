/** Channels and the epoll poller: the status field of a channel mirrors the kernel's interest set. */
module Epoll {

  datatype Status = New | Added | Deleted

  type Events = bv32

  const NONE_EVENT: Events := 0
  const READ_EVENT: Events := 3  // EPOLLIN | EPOLLPRI
  const WRITE_EVENT: Events := 4 // EPOLLOUT

  function Enabled(events: Events, bits: Events): Events { events | bits }

  function Disabled(events: Events, bits: Events): Events { events & !bits }

  /** Enabling sets the bits that it names, and all other bits stay. */
  lemma EnabledBits(events: Events, bits: Events)
    ensures Enabled(events, bits) & bits == bits
    ensures Enabled(events, bits) & !bits == events & !bits
  {
  }

  /** Disabling clears them, and all other bits stay. */
  lemma DisabledBits(events: Events, bits: Events)
    ensures Disabled(events, bits) & bits == 0
    ensures Disabled(events, bits) & !bits == events & !bits
  {
  }

  datatype Operation = Add | Mod | Del

  /** What the kernel holds of one descriptor: epoll_event with its data pointer. */
  datatype Interest = Interest(events: Events, channel: Channel)

  /** epoll_ctl: the descriptor must be one; ADD wants it absent, MOD and DEL want it present. Otherwise
      nothing changes. */
  ghost predicate Legal(kernel: map<int, Interest>, op: Operation, fd: int) {
    0 <= fd && (op.Add? <==> fd !in kernel)
  }

  ghost function Control(kernel: map<int, Interest>, op: Operation, fd: int, i: Interest): map<int, Interest> {
    if !Legal(kernel, op, fd) then kernel
    else if op.Del? then kernel - {fd}
    else kernel[fd := i]
  }

  class Channel {
    const poller: EpollPoller
    var fd: int
    var events: Events
    var status: Status

    constructor (poller: EpollPoller, fd: int)
      ensures this.poller == poller && this.fd == fd && events == NONE_EVENT && status.New?
    {
      this.poller, this.fd, events, status := poller, fd, NONE_EVENT, New;
    }

    predicate IsNoneEvent()
      reads this
    {
      events == NONE_EVENT
    }

    /** The descriptor may be registered through this channel. */
    ghost predicate Free()
      reads this, poller
    {
      this in poller.mine && (status.New? ==> 0 <= fd && fd !in poller.channels)
    }

    method EnableReading()
      requires poller.Valid() && Free()
      modifies this`events, this`status, poller`channels, poller`kernel, poller`faults
      ensures poller.Valid() && events == Enabled(old(events), READ_EVENT)
              && poller.Registers(this, old(poller.channels), old(poller.kernel))
    {
      hide Enabled;
      EnabledIsNotEmpty(events);
      events := Enabled(events, READ_EVENT);
      Update();
    }

    method EnableWriting()
      requires poller.Valid() && Free()
      modifies this`events, this`status, poller`channels, poller`kernel, poller`faults
      ensures poller.Valid() && events == Enabled(old(events), WRITE_EVENT)
              && poller.Registers(this, old(poller.channels), old(poller.kernel))
    {
      hide Enabled;
      EnabledIsNotEmpty(events);
      events := Enabled(events, WRITE_EVENT);
      Update();
    }

    method DisableReading()
      requires poller.Valid() && Free()
      modifies this`events, this`status, poller`channels, poller`kernel, poller`faults
      ensures poller.Valid() && events == Disabled(old(events), READ_EVENT)
      ensures poller.Withdraws(this, old(status), old(poller.channels), old(poller.kernel))
    {
      hide Disabled;
      events := Disabled(events, READ_EVENT);
      Update();
    }

    method DisableWriting()
      requires poller.Valid() && Free()
      modifies this`events, this`status, poller`channels, poller`kernel, poller`faults
      ensures poller.Valid() && events == Disabled(old(events), WRITE_EVENT)
      ensures poller.Withdraws(this, old(status), old(poller.channels), old(poller.kernel))
    {
      hide Disabled;
      events := Disabled(events, WRITE_EVENT);
      Update();
    }

    method DisableAll()
      requires poller.Valid() && Free()
      modifies this`events, this`status, poller`channels, poller`kernel, poller`faults
      ensures poller.Valid() && events == NONE_EVENT
      ensures poller.Withdraws(this, old(status), old(poller.channels), old(poller.kernel))
    {
      events := NONE_EVENT;
      Update();
    }

    /** update() of the channel, by way of its loop */
    method Update()
      requires poller.ValidBut(this) && Free()
      modifies this`status, poller`channels, poller`kernel, poller`faults
      ensures poller.Valid() && poller.Withdraws(this, old(status), old(poller.channels), old(poller.kernel))
    {
      poller.UpdateChannel(this);
    }

    method Remove()
      requires poller.Valid() && this in poller.mine && (status.New? ==> fd !in poller.channels)
      modifies this`status, poller`channels, poller`kernel, poller`faults
      ensures poller.Valid() && status.New?
      ensures poller.channels == old(poller.channels) - {fd} && poller.kernel == old(poller.kernel) - {fd}
    {
      poller.RemoveChannel(this);
    }

    method SetFd(fd: int)
      requires poller.Valid() && this in poller.mine && status.New?
      modifies this`fd
      ensures poller.Valid() && this.fd == fd
    {
      this.fd := fd;
    }
  }

  class EpollPoller {
    var channels: map<int, Channel>
    ghost var kernel: map<int, Interest>
    ghost var faults: nat         // epoll_ctl calls that failed
    ghost var mine: set<Channel>  // the channels of this poller

    constructor ()
      ensures Valid() && channels == map[] && kernel == map[] && mine == {}
    {
      channels, kernel, faults, mine := map[], map[], 0, {};
    }

    /** The map is the channels that are not new, and the kernel watches those that are added. */
    ghost predicate Mapped()
      reads this, mine
    {
      && (forall c <- mine :: c.poller == this)
      && (forall fd <- channels :: 0 <= fd && channels[fd] in mine && channels[fd].fd == fd
                                && !channels[fd].status.New?)
      && (forall c <- mine :: !c.status.New? ==> c.fd in channels && channels[c.fd] == c)
      && (forall fd <- kernel :: fd in channels && channels[fd].status.Added?)
      && (forall fd <- channels :: channels[fd].status.Added? ==> fd in kernel)
      && faults == 0
    }

    /** `but` may have an event mask that the kernel has not been told of. */
    ghost predicate ValidBut(but: Channel?)
      reads this, mine
    {
      && Mapped()
      && (forall fd <- kernel :: kernel[fd].channel == channels[fd])
      && (forall fd <- kernel :: channels[fd] != but ==> kernel[fd].events == channels[fd].events)
    }

    ghost predicate Valid()
      reads this, mine
    {
      ValidBut(null)
    }

    /** The channel is watched, with its present mask, and nothing else has changed. */
    ghost predicate Registers(c: Channel, channelsBefore: map<int, Channel>, kernelBefore: map<int, Interest>)
      reads this, c
    {
      c.status.Added? && channels == channelsBefore[c.fd := c] && kernel == kernelBefore[c.fd := Interest(c.events, c)]
    }

    /** An added channel with an empty mask is taken out of the kernel's set, but stays in the map; in all
        other cases the channel is watched, even with an empty mask. */
    ghost predicate Withdraws(c: Channel, before: Status, channelsBefore: map<int, Channel>,
                              kernelBefore: map<int, Interest>)
      reads this, c
    {
      if before.Added? && c.events == NONE_EVENT
      then c.status.Deleted? && channels == channelsBefore && kernel == kernelBefore - {c.fd}
      else Registers(c, channelsBefore, kernelBefore)
    }

    method UpdateChannel(channel: Channel)
      requires ValidBut(channel) && channel in mine
               && (channel.status.New? ==> 0 <= channel.fd && channel.fd !in channels)
      modifies channel`status, this`channels, this`kernel, this`faults
      ensures Valid() && Withdraws(channel, old(channel.status), old(channels), old(kernel))
    {
      var status := channel.status;
      if status.New? || status.Deleted? {
        if status.New? {
          var fd := channel.fd;
          channels := channels[fd := channel];
        }
        channel.status := Added;
        Update(Add, channel);
      } else {
        if channel.IsNoneEvent() {
          Update(Del, channel);
          channel.status := Deleted;
        } else {
          Update(Mod, channel);
        }
      }
    }

    method RemoveChannel(channel: Channel)
      requires Valid() && channel in mine && (channel.status.New? ==> channel.fd !in channels)
      modifies channel`status, this`channels, this`kernel, this`faults
      ensures Valid() && channel.status.New?
      ensures channels == old(channels) - {channel.fd} && kernel == old(kernel) - {channel.fd}
    {
      var fd := channel.fd;
      channels := channels - {fd};
      var status := channel.status;
      if status.Added? {
        Update(Del, channel);
      }
      channel.status := New;
    }

    /** epoll_ctl */
    method Update(operation: Operation, channel: Channel)
      modifies this`kernel, this`faults
      ensures kernel == Control(old(kernel), operation, channel.fd, Interest(channel.events, channel))
      ensures faults == old(faults) + if Legal(old(kernel), operation, channel.fd) then 0 else 1
    {
      var fd := channel.fd;
      if !Legal(kernel, operation, fd) { faults := faults + 1; }
      kernel := Control(kernel, operation, fd, Interest(channel.events, channel));
    }

    /** A new channel of this poller's loop */
    method Adopt(fd: int) returns (c: Channel)
      requires Valid()
      modifies this`mine
      ensures Valid() && fresh(c) && mine == old(mine) + {c} && c.poller == this && c.fd == fd && c.status.New?
              && c.events == NONE_EVENT
    {
      c := new Channel(this, fd);
      mine := mine + {c};
    }
  }

  datatype Op =
    | Make(fd: int)
    | SetFd(c: nat, fd: int)
    | EnableReading(c: nat)
    | EnableWriting(c: nat)
    | DisableReading(c: nat)
    | DisableWriting(c: nat)
    | DisableAll(c: nat)
    | Remove(c: nat)

  // What a program of operations makes of the channels, on values

  datatype State = State(fd: int, events: Events, status: Status)

  predicate InUse(ss: seq<State>, fd: int) { exists i :: 0 <= i < |ss| && ss[i].fd == fd }

  function Mask(events: Events, op: Op): Events {
    match op
    case EnableReading(_) => Enabled(events, READ_EVENT)
    case EnableWriting(_) => Enabled(events, WRITE_EVENT)
    case DisableReading(_) => Disabled(events, READ_EVENT)
    case DisableWriting(_) => Disabled(events, WRITE_EVENT)
    case DisableAll(_) => NONE_EVENT
    case _ => events
  }

  /** A change of the mask: an added channel whose mask gets empty is taken out; any other is added. */
  function Changed(s: State, op: Op): State {
    var events := Mask(s.events, op);
    State(s.fd, events, if s.status.Added? && events == NONE_EVENT then Deleted else Added)
  }

  /** One operation of a disciplined program: descriptors stay distinct, change only while the channel is
      new, and are there when it is registered. An operation that breaks this is not made. */
  function Step(ss: seq<State>, op: Op): seq<State> {
    if op.Make? then
      if op.fd < 0 || !InUse(ss, op.fd) then ss + [State(op.fd, NONE_EVENT, New)] else ss
    else if |ss| <= op.c then ss
    else
      var s := ss[op.c];
      if op.SetFd? then
        if s.status.New? && (op.fd < 0 || !InUse(ss, op.fd)) then ss[op.c := s.(fd := op.fd)] else ss
      else if op.Remove? then ss[op.c := s.(status := New)]
      else if !s.status.New? || 0 <= s.fd then ss[op.c := Changed(s, op)]
      else ss
  }

  function StepAll(ops: seq<Op>): seq<State> {
    if ops == [] then [] else Step(StepAll(ops[..|ops| - 1]), ops[|ops| - 1])
  }

  ghost predicate Emptied(ss: seq<State>) {
    forall s <- ss :: (s.status.Deleted? ==> s.events == NONE_EVENT) && (!s.status.New? ==> 0 <= s.fd)
  }

  ghost predicate Apart(ss: seq<State>) {
    forall i, j :: 0 <= i < j < |ss| && ss[i].fd == ss[j].fd ==> ss[i].fd < 0
  }

  /** What is asked of a channel in a run: to watch for reading, and for writing, by the last operation on it that
      says so, and whether to be registered at all. Nothing is asked of a channel that has no descriptor. */
  datatype Asked = Asked(reading: bool, writing: bool, registered: bool)

  function After(a: Asked, op: Op): Asked {
    match op
    case EnableReading(_) => a.(reading := true, registered := true)
    case DisableReading(_) => a.(reading := false, registered := true)
    case EnableWriting(_) => a.(writing := true, registered := true)
    case DisableWriting(_) => a.(writing := false, registered := true)
    case DisableAll(_) => Asked(false, false, true)
    case Remove(_) => a.(registered := false)
    case _ => a
  }

  function AskedOf(ops: seq<Op>, c: nat): Asked {
    if ops == [] then Asked(false, false, false)
    else
      var before, op := ops[..|ops| - 1], ops[|ops| - 1];
      var ss := StepAll(before);
      if !op.Make? && op.c == c && c < |ss| && (!ss[c].status.New? || 0 <= ss[c].fd) then After(AskedOf(before, c), op)
      else AskedOf(before, c)
  }

  /** The mask for what is asked: EPOLLIN and EPOLLPRI are 1 and 2, EPOLLOUT is 4. */
  function Wanted(a: Asked): Events { (if a.reading then 3 else 0) | (if a.writing then 4 else 0) }

  /** The channel has the mask that is asked for; it is known to the poller exactly if it is to be registered, and
      then watched if it has something to watch for. */
  predicate Served(s: State, a: Asked) {
    && s.events == Wanted(a)
    && (s.status.New? <==> !a.registered)
    && (a.registered && (a.reading || a.writing) ==> s.status.Added?)
  }

  lemma ChangedServes(s: State, a: Asked, op: Op)
    requires Served(s, a) && !op.Make? && !op.SetFd? && !op.Remove?
    ensures Served(Changed(s, op), After(a, op))
  {
  }

  lemma OthersServe(s: State, a: Asked, op: Op, fd: int)
    requires Served(s, a)
    ensures Served(s.(fd := fd), a)
    ensures op.Remove? ==> Served(s.(status := New), After(a, op))
  {
  }

  /** In every run, each channel is served as was last asked of it. */
  lemma {:induction false} ServedAsAsked(ops: seq<Op>, c: nat)
    requires c < |StepAll(ops)|
    ensures Served(StepAll(ops)[c], AskedOf(ops, c))
  {
    hide Served, Changed;
    if ops != [] {
      var before, op := ops[..|ops| - 1], ops[|ops| - 1];
      var ss, a := StepAll(before), AskedOf(before, c);
      if c < |ss| {
        ServedAsAsked(before, c);
        OthersServe(ss[c], a, op, StepAll(ops)[c].fd);
        if !op.Make? && !op.SetFd? && !op.Remove? { ChangedServes(ss[c], a, op); }
      } else {
        NothingAsked(before, c);
        NewServes(op);
      }
    }
  }

  lemma NewServes(op: Op)
    requires op.Make?
    ensures Served(State(op.fd, NONE_EVENT, New), Asked(false, false, false))
  {
  }

  lemma {:induction false} NothingAsked(ops: seq<Op>, c: nat)
    requires |StepAll(ops)| <= c
    ensures AskedOf(ops, c) == Asked(false, false, false)
  {
    if ops != [] { NothingAsked(ops[..|ops| - 1], c); }
  }

  lemma StepEmpties(ss: seq<State>, op: Op)
    requires Emptied(ss)
    ensures Emptied(Step(ss, op))
  {
    hide Enabled, Disabled, Mask;
  }

  lemma StepApart(ss: seq<State>, op: Op)
    requires Apart(ss)
    ensures Apart(Step(ss, op))
  {
    hide Enabled, Disabled, Mask;
  }

  /** In every run, a deleted channel has an empty mask, and descriptors are distinct. */
  lemma {:induction false} DeletedIsEmpty(ops: seq<Op>)
    ensures Emptied(StepAll(ops)) && Apart(StepAll(ops))
  {
    hide Step;
    if ops != [] {
      var ss := StepAll(ops[..|ops| - 1]);
      DeletedIsEmpty(ops[..|ops| - 1]);
      StepEmpties(ss, ops[|ops| - 1]);
      StepApart(ss, ops[|ops| - 1]);
    }
  }

  /** A disabling that registers its channel with an empty mask: the channel is not watched, or has been taken out,
      and the mask has no other event. */
  predicate Careless(ss: seq<State>, op: Op) {
    && !op.Make? && op.c < |ss| && (op.DisableReading? || op.DisableWriting? || op.DisableAll?)
    && !ss[op.c].status.Added? && (ss[op.c].status.New? ==> 0 <= ss[op.c].fd) && Mask(ss[op.c].events, op) == NONE_EVENT
  }

  predicate NoneWatchedEmpty(ss: seq<State>) { forall s <- ss :: s.status.Added? ==> s.events != NONE_EVENT }

  lemma EnabledIsNotEmpty(events: Events)
    ensures Enabled(events, READ_EVENT) != NONE_EVENT && Enabled(events, WRITE_EVENT) != NONE_EVENT
  {
  }

  /** No channel is watched for nothing at any time of a run exactly when no disabling of the run is careless. */
  lemma {:induction false} WatchedForSomethingIff(ops: seq<Op>)
    ensures (forall n :: 0 <= n <= |ops| ==> NoneWatchedEmpty(StepAll(ops[..n])))
            <==> forall n :: 0 <= n < |ops| ==> !Careless(StepAll(ops[..n]), ops[n])
  {
    hide NoneWatchedEmpty, Careless, Step;
    if forall n :: 0 <= n <= |ops| ==> NoneWatchedEmpty(StepAll(ops[..n])) {
      forall n | 0 <= n < |ops| ensures !Careless(StepAll(ops[..n]), ops[n]) {
        StepOf(ops, n);
        StepWatches(StepAll(ops[..n]), ops[n]);
        assert NoneWatchedEmpty(StepAll(ops[..n + 1]));
      }
    }
    if forall n :: 0 <= n < |ops| ==> !Careless(StepAll(ops[..n]), ops[n]) {
      forall n | 0 <= n <= |ops| ensures NoneWatchedEmpty(StepAll(ops[..n])) { WatchedSoFar(ops, n); }
    }
  }

  lemma {:induction false} WatchedSoFar(ops: seq<Op>, n: nat)
    requires n <= |ops| && forall k :: 0 <= k < n ==> !Careless(StepAll(ops[..k]), ops[k])
    ensures NoneWatchedEmpty(StepAll(ops[..n]))
  {
    hide Careless, Step;
    if n != 0 {
      WatchedSoFar(ops, n - 1);
      StepOf(ops, n - 1);
      StepWatches(StepAll(ops[..n - 1]), ops[n - 1]);
    }
  }

  lemma StepOf(ops: seq<Op>, n: nat)
    requires n < |ops|
    ensures StepAll(ops[..n + 1]) == Step(StepAll(ops[..n]), ops[n])
  {
    assert ops[..n + 1][..n] == ops[..n];
  }

  lemma StepWatches(ss: seq<State>, op: Op)
    requires NoneWatchedEmpty(ss)
    ensures NoneWatchedEmpty(Step(ss, op)) <==> !Careless(ss, op)
  {
    hide Enabled, Disabled;
    var ss' := Step(ss, op);
    if !op.Make? && op.c < |ss| {
      EnabledIsNotEmpty(ss[op.c].events);
      if Careless(ss, op) { assert ss'[op.c] in ss' && ss'[op.c].status.Added?; }
    }
  }

  // The objects

  ghost function StateOf(c: Channel): State
    reads c
  {
    State(c.fd, c.events, c.status)
  }

  ghost function States(cs: seq<Channel>): (ss: seq<State>)
    reads cs
    ensures |ss| == |cs| && forall i :: 0 <= i < |cs| ==> ss[i] == StateOf(cs[i])
  {
    seq(|cs|, i requires 0 <= i < |cs| reads cs => StateOf(cs[i]))
  }

  /** No two channels share a descriptor. */
  ghost predicate Distinct(cs: seq<Channel>)
    reads cs
  {
    forall i, j :: 0 <= i < j < |cs| ==> cs[i] != cs[j] && (cs[i].fd == cs[j].fd ==> cs[i].fd < 0)
  }

  ghost predicate Sound(p: EpollPoller, cs: seq<Channel>)
    reads p, p.mine, cs
  {
    p.Valid() && Distinct(cs) && (forall i :: 0 <= i < |cs| ==> cs[i] in p.mine) && (forall c <- p.mine :: c in cs)
  }

  predicate Taken(cs: seq<Channel>, fd: int)
    reads cs
  {
    exists i :: 0 <= i < |cs| && cs[i].fd == fd
  }

  lemma TakenIff(cs: seq<Channel>, fd: int)
    ensures Taken(cs, fd) <==> InUse(States(cs), fd)
  {
    var ss := States(cs);
    forall i | 0 <= i < |cs| ensures ss[i].fd == cs[i].fd {}
  }

  method PerformEvents(c: Channel, op: Op)
    requires c.poller.Valid() && c.Free()
    requires op.EnableReading? || op.EnableWriting? || op.DisableReading? || op.DisableWriting? || op.DisableAll?
    modifies c`events, c`status, c.poller`channels, c.poller`kernel, c.poller`faults
    ensures c.poller.Valid() && StateOf(c) == Changed(old(StateOf(c)), op)
  {
    hide Enabled, Disabled;
    EnabledIsNotEmpty(c.events);
    if op.EnableReading? { c.EnableReading(); }
    else if op.EnableWriting? { c.EnableWriting(); }
    else if op.DisableReading? { c.DisableReading(); }
    else if op.DisableWriting? { c.DisableWriting(); }
    else { c.DisableAll(); }
  }

  method PerformSetFd(p: EpollPoller, cs: seq<Channel>, c: nat, fd: int)
    requires Sound(p, cs) && c < |cs|
    modifies p.mine
    ensures Sound(p, cs) && p.mine == old(p.mine) && States(cs) == Step(old(States(cs)), SetFd(c, fd))
  {
    TakenIff(cs, fd);
    if cs[c].status.New? && (fd < 0 || !Taken(cs, fd)) {
      ghost var ss := States(cs);
      cs[c].SetFd(fd);
      assert States(cs) == ss[c := StateOf(cs[c])];
    }
  }

  method PerformRemove(p: EpollPoller, cs: seq<Channel>, c: nat)
    requires Sound(p, cs) && c < |cs|
    modifies p, p.mine
    ensures Sound(p, cs) && p.mine == old(p.mine) && States(cs) == Step(old(States(cs)), Remove(c))
  {
    ghost var ss := States(cs);
    cs[c].Remove();
    assert States(cs) == ss[c := StateOf(cs[c])];
  }

  lemma MayChange(p: EpollPoller, cs: seq<Channel>, i: nat)
    requires Sound(p, cs) && i < |cs| && (!cs[i].status.New? || 0 <= cs[i].fd)
    ensures cs[i].poller == p && cs[i].Free()
  {
    forall fd | fd in p.channels && fd == cs[i].fd ensures !cs[i].status.New? {
      var j :| 0 <= j < |cs| && cs[j] == p.channels[fd];
      assert i == j;
    }
  }

  method ChangeMask(p: EpollPoller, cs: seq<Channel>, i: nat, op: Op)
    requires op.EnableReading? || op.EnableWriting? || op.DisableReading? || op.DisableWriting? || op.DisableAll?
    requires Sound(p, cs) && i < |cs| && (!cs[i].status.New? || 0 <= cs[i].fd)
    modifies p, p.mine
    ensures Sound(p, cs) && p.mine == old(p.mine)
            && States(cs) == old(States(cs))[i := Changed(old(StateOf(cs[i])), op)]
  {
    hide Mask, Changed, EpollPoller.Valid, EpollPoller.ValidBut, EpollPoller.Mapped, Channel.Free;
    ghost var ss := States(cs);
    MayChange(p, cs, i);
    PerformEvents(cs[i], op);
    assert forall j :: 0 <= j < |cs| && j != i ==> cs[j] != cs[i] && StateOf(cs[j]) == ss[j];
  }

  method PerformMask(p: EpollPoller, cs: seq<Channel>, op: Op)
    requires op.EnableReading? || op.EnableWriting? || op.DisableReading? || op.DisableWriting? || op.DisableAll?
    requires Sound(p, cs) && op.c < |cs|
    modifies p, p.mine
    ensures Sound(p, cs) && p.mine == old(p.mine) && States(cs) == Step(old(States(cs)), op)
  {
    hide Sound, Changed;
    if !cs[op.c].status.New? || 0 <= cs[op.c].fd { ChangeMask(p, cs, op.c, op); }
  }

  method PerformOn(p: EpollPoller, cs: seq<Channel>, op: Op)
    requires Sound(p, cs) && !op.Make? && op.c < |cs|
    modifies p, p.mine
    ensures Sound(p, cs) && p.mine == old(p.mine) && States(cs) == Step(old(States(cs)), op)
  {
    hide Step, Sound;
    if op.SetFd? {
      PerformSetFd(p, cs, op.c, op.fd);
    } else if op.Remove? {
      PerformRemove(p, cs, op.c);
    } else {
      PerformMask(p, cs, op);
    }
  }

  method PerformMake(p: EpollPoller, cs: seq<Channel>, fd: int) returns (r: seq<Channel>)
    requires Sound(p, cs)
    modifies p`mine
    ensures Sound(p, r) && fresh(p.mine - old(p.mine)) && States(r) == Step(old(States(cs)), Make(fd))
  {
    r := cs;
    TakenIff(cs, fd);
    if fd < 0 || !Taken(cs, fd) {
      var c := p.Adopt(fd);
      r := cs + [c];
      assert States(r) == States(cs) + [StateOf(c)];
    }
  }

  lemma Mirrors(p: EpollPoller, cs: seq<Channel>)
    requires Sound(p, cs)
    ensures forall i :: 0 <= i < |cs| && cs[i].status.Added? ==>
              cs[i].fd in p.kernel && p.kernel[cs[i].fd] == Interest(cs[i].events, cs[i])
    ensures forall fd <- p.kernel ::
      p.kernel[fd].channel in cs && p.kernel[fd].channel.status.Added? && p.kernel[fd].channel.fd == fd
    ensures forall i :: 0 <= i < |cs| && !cs[i].status.New? ==> cs[i].fd in p.channels && p.channels[cs[i].fd] == cs[i]
    ensures forall fd <- p.channels :: p.channels[fd] in cs && !p.channels[fd].status.New? && p.channels[fd].fd == fd
  {
    forall i | 0 <= i < |cs| && cs[i].status.Added?
      ensures cs[i].fd in p.kernel && p.kernel[cs[i].fd] == Interest(cs[i].events, cs[i])
    {
      var c := cs[i];
      var fd := c.fd;
      assert p.Mapped() && c in p.mine && fd in p.channels && p.channels[fd].status.Added?;
    }
  }

  /** After any disciplined sequence of operations the kernel watches exactly the added channels, each with
      its present mask; the map holds exactly the channels that are not new; no epoll_ctl has failed. */
  method Run(ops: seq<Op>) returns (p: EpollPoller, cs: seq<Channel>)
    ensures States(cs) == StepAll(ops)
    ensures forall i :: 0 <= i < |cs| && cs[i].status.Added? ==>
              cs[i].fd in p.kernel && p.kernel[cs[i].fd] == Interest(cs[i].events, cs[i])
    ensures forall fd <- p.kernel ::
      p.kernel[fd].channel in cs && p.kernel[fd].channel.status.Added? && p.kernel[fd].channel.fd == fd
    ensures forall i :: 0 <= i < |cs| && !cs[i].status.New? ==> cs[i].fd in p.channels && p.channels[cs[i].fd] == cs[i]
    ensures forall fd <- p.channels :: p.channels[fd] in cs && !p.channels[fd].status.New? && p.channels[fd].fd == fd
    ensures p.faults == 0
  {
    p := new EpollPoller();
    cs := [];
    assert ops[..0] == [];
    for i := 0 to |ops|
      invariant fresh(p) && fresh(p.mine) && Sound(p, cs) && States(cs) == StepAll(ops[..i])
    {
      assert ops[..i + 1][..i] == ops[..i];
      if ops[i].Make? { cs := PerformMake(p, cs, ops[i].fd); }
      else if ops[i].c < |cs| { PerformOn(p, cs, ops[i]); }
    }
    assert ops[..|ops|] == ops;
    Mirrors(p, cs);
  }
}
