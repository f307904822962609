/** The timing wheel itself: four rotating wheels of slots. Every method is proved to do to the plain
    calendar (module Calendar) exactly what the calendar's own function of that name does. */
module TimerWheel {
  import opened Arithmetic
  import opened Calendar
  import opened CalendarFacts
  import opened CalendarRuns

  /** A pointer kept by a slot: to a node, or to the NodeTask made by `insertMinuteNode` and its like,
      which captures the remaining seconds and a pointer to the node. `uid` tells such NodeTasks apart. */
  datatype Entry = Direct(node: nat) | Wrapper(uid: nat, second: nat, node: nat)

  type Slot = set<Entry>
  type Wheel = seq<Slot>

  const SECONDS := 0
  const MINUTES := 1
  const HOURS := 2
  const DAYS := 3

  /** When the node of an entry is due, if the slot is popped at tick `base`. */
  function EntryDue(base: nat, e: Entry): nat {
    match e
    case Direct(_) => 2 * base
    case Wrapper(_, second, _) => WrapperDue(base, second)
  }

  function SlotAgenda(slot: Slot, base: nat): set<(nat, nat)> { set e | e in slot :: (EntryDue(base, e), e.node) }

  function SlotNodes(slot: Slot): set<nat> { set e | e in slot :: e.node }

  /** The appointments of a wheel whose front slot is popped at tick `base`, the next at `base + stride`. */
  function WheelAgenda(w: Wheel, base: nat, stride: nat): set<(nat, nat)>
    decreases |w|
  {
    if w == [] then {} else SlotAgenda(w[0], base) + WheelAgenda(w[1..], base + stride, stride)
  }

  function WheelNodes(w: Wheel): set<nat>
    decreases |w|
  {
    if w == [] then {} else SlotNodes(w[0]) + WheelNodes(w[1..])
  }

  lemma {:induction false} WheelAgendaAdd(w: Wheel, i: nat, e: Entry, base: nat, stride: nat)
    requires i < |w|
    ensures WheelAgenda(w[i := w[i] + {e}], base, stride)
            == WheelAgenda(w, base, stride) + {(EntryDue(base + i * stride, e), e.node)}
    decreases |w|
  {
    var v := w[i := w[i] + {e}];
    if i == 0 {
      assert v[1..] == w[1..];
      SlotAgendaAdd(w[0], e, base);
    } else {
      assert v[1..] == w[1..][i - 1 := w[1..][i - 1] + {e}];
      WheelAgendaAdd(w[1..], i - 1, e, base + stride, stride);
      assert base + stride + (i - 1) * stride == base + i * stride;
    }
  }

  /** The minute slot that `insertMinuteNode` chooses is popped at the right tick. */
  lemma MinuteSlot(now: Instant, delay: nat, uid: nat, n: nat)
    requires SECONDS_PER_MINUTE <= delay < SECONDS_PER_HOUR
    ensures 0 <= delay / SECONDS_PER_MINUTE - 1 < 60
    ensures EntryDue(SECONDS_PER_MINUTE * (MinutesPopped(now) + 1)
                     + (delay / SECONDS_PER_MINUTE - 1) * SECONDS_PER_MINUTE,
                     Wrapper(uid, delay % SECONDS_PER_MINUTE, n))
            == DueInstant(now, delay)
  {
  }

  lemma SlotAgendaAdd(slot: Slot, e: Entry, base: nat)
    ensures SlotAgenda(slot + {e}, base) == SlotAgenda(slot, base) + {(EntryDue(base, e), e.node)}
    ensures SlotNodes(slot + {e}) == SlotNodes(slot) + {e.node}
  {
    assert e in slot + {e};
    forall p <- SlotAgenda(slot, base) ensures p in SlotAgenda(slot + {e}, base) {
      var f :| f in slot && (EntryDue(base, f), f.node) == p;
      assert f in slot + {e};
    }
    forall n <- SlotNodes(slot) ensures n in SlotNodes(slot + {e}) {
      var f :| f in slot && f.node == n;
      assert f in slot + {e};
    }
  }

  lemma {:induction false} WheelNodesAdd(w: Wheel, i: nat, e: Entry)
    requires i < |w|
    ensures WheelNodes(w[i := w[i] + {e}]) == WheelNodes(w) + {e.node}
    decreases |w|
  {
    var v := w[i := w[i] + {e}];
    if i == 0 {
      assert v[1..] == w[1..];
      SlotAgendaAdd(w[0], e, 0);
    } else {
      assert v[1..] == w[1..][i - 1 := w[1..][i - 1] + {e}];
      WheelNodesAdd(w[1..], i - 1, e);
    }
  }

  lemma {:induction false} WheelAgendaNodes(w: Wheel, base: nat, stride: nat)
    ensures AgendaNodes(WheelAgenda(w, base, stride)) == WheelNodes(w)
    decreases |w|
  {
    if w != [] {
      SlotAgendaNodes(w[0], base);
      WheelAgendaNodes(w[1..], base + stride, stride);
      AgendaNodesUnion(SlotAgenda(w[0], base), WheelAgenda(w[1..], base + stride, stride));
    }
  }

  lemma SlotAgendaNodes(slot: Slot, base: nat)
    ensures AgendaNodes(SlotAgenda(slot, base)) == SlotNodes(slot)
  {
    forall n <- SlotNodes(slot) ensures n in AgendaNodes(SlotAgenda(slot, base)) {
      var e :| e in slot && e.node == n;
      assert (EntryDue(base, e), e.node) in SlotAgenda(slot, base);
    }
  }

  lemma AgendaNodesUnion(a: set<(nat, nat)>, b: set<(nat, nat)>)
    ensures AgendaNodes(a + b) == AgendaNodes(a) + AgendaNodes(b)
  {
    forall n | n in AgendaNodes(a) || n in AgendaNodes(b) ensures n in AgendaNodes(a + b) {
      var p :| (p in a || p in b) && p.1 == n;
      assert p in a + b;
    }
  }

  lemma AgendaNodesAll(v: Wheel, w: Wheel, slot: Slot, a: nat, b: nat, base: nat)
    ensures AgendaNodes(WheelAgenda(v, a, 1) + WheelAgenda(w, b, SECONDS_PER_MINUTE) + SlotAgenda(slot, base))
            == WheelNodes(v) + WheelNodes(w) + SlotNodes(slot)
  {
    WheelAgendaNodes(v, a, 1);
    WheelAgendaNodes(w, b, SECONDS_PER_MINUTE);
    SlotAgendaNodes(slot, base);
    AgendaNodesUnion(WheelAgenda(v, a, 1), WheelAgenda(w, b, SECONDS_PER_MINUTE));
    AgendaNodesUnion(WheelAgenda(v, a, 1) + WheelAgenda(w, b, SECONDS_PER_MINUTE), SlotAgenda(slot, base));
  }

  /** Rotation: the front slot is taken out, an empty one goes in at the back, and time moves on. */
  lemma Rotation(w: Wheel, base: nat, stride: nat)
    requires w != []
    ensures WheelAgenda(w, base, stride)
            == SlotAgenda(w[0], base) + WheelAgenda(w[1..] + [{}], base + stride, stride)
  {
    AppendEmpty(w[1..], base + stride, stride);
  }

  lemma {:induction false} AppendEmpty(w: Wheel, base: nat, stride: nat)
    ensures WheelAgenda(w + [{}], base, stride) == WheelAgenda(w, base, stride)
    decreases |w|
  {
    if w == [] {
      assert w + [{}] == [{}];
    } else {
      assert (w + [{}])[1..] == w[1..] + [{}];
      AppendEmpty(w[1..], base + stride, stride);
    }
  }

  lemma {:induction false} WheelAgendaLater(w: Wheel, base: nat, stride: nat)
    ensures forall p <- WheelAgenda(w, base, stride) :: 2 * base <= p.0
    decreases |w|
  {
    if w != [] { WheelAgendaLater(w[1..], base + stride, stride); }
  }

  lemma {:induction false} WrapperAgendaLater(w: Wheel, base: nat, stride: nat)
    requires forall i, e :: 0 <= i < |w| && e in w[i] ==> e.Wrapper?
    ensures forall p <- WheelAgenda(w, base, stride) :: 2 * base < p.0
    decreases |w|
  {
    if w != [] {
      WrapperAgendaLater(w[1..], base + stride, stride);
      forall p <- SlotAgenda(w[0], base) ensures 2 * base < p.0 {
        var e :| e in w[0] && p == (EntryDue(base, e), e.node);
        assert e.Wrapper?;
      }
    }
  }

  lemma SlotAgendaRemove(slot: Slot, e: Entry, base: nat)
    requires e in slot
    ensures SlotAgenda(slot, base) == SlotAgenda(slot - {e}, base) + {(EntryDue(base, e), e.node)}
  {
    assert slot - {e} + {e} == slot;
    SlotAgendaAdd(slot - {e}, e, base);
  }

  /** How the minute count moves with the clock. */
  lemma MinutesPoppedStep(now: Instant)
    ensures now % 2 == 1 ==> MinutesPopped(now + 1) == MinutesPopped(now) && (now + 1) / 2 == now / 2 + 1
    ensures now % 2 == 0 ==> (now + 1) / 2 == now / 2
    ensures now % 2 == 0 && now / 2 % SECONDS_PER_MINUTE != 0 ==> MinutesPopped(now + 1) == MinutesPopped(now)
    ensures now % 2 == 0 && now / 2 % SECONDS_PER_MINUTE == 0 ==>
              MinutesPopped(now + 1) == MinutesPopped(now) + 1
              && SECONDS_PER_MINUTE * (MinutesPopped(now) + 1) == now / 2
  {
    var k, r := MinutesPopped(now), (now - 1) % 120;
    assert now - 1 == 120 * k + r;
    if now % 2 == 1 { assert r % 2 == 0; } else { assert r % 2 == 1 && now / 2 == 60 * k + r / 2 + 1; }
  }

  /** The seconds pop: time moves to the next tick. */
  lemma SecondsPopped(wheels: seq<Wheel>, now: Instant)
    requires |wheels| == 4 && wheels[SECONDS] != [] && now % 2 == 1
    ensures AgendaOf(wheels[SECONDS := wheels[SECONDS][1..] + [{}]], wheels[SECONDS][0], now + 1)
            == AgendaOf(wheels, {}, now)
  {
    MinutesPoppedStep(now);
    hide MinutesPopped, WheelAgenda;
    Rotation(wheels[SECONDS], now / 2 + 1, 1);
  }

  /** The minute pop of a tick that starts a minute. */
  lemma MinutePopped(wheels: seq<Wheel>, now: Instant)
    requires |wheels| == 4 && wheels[MINUTES] != [] && now % 2 == 0 && now / 2 % SECONDS_PER_MINUTE == 0
    ensures AgendaOf(wheels[MINUTES := wheels[MINUTES][1..] + [{}]], wheels[MINUTES][0], now + 1)
            == AgendaOf(wheels, {}, now)
  {
    MinutesPoppedStep(now);
    hide MinutesPopped, WheelAgenda;
    Rotation(wheels[MINUTES], SECONDS_PER_MINUTE * (MinutesPopped(now) + 1), SECONDS_PER_MINUTE);
  }

  lemma NoMinutePop(wheels: seq<Wheel>, now: Instant)
    requires |wheels| == 4 && now % 2 == 0 && now / 2 % SECONDS_PER_MINUTE != 0
    ensures AgendaOf(wheels, {}, now + 1) == AgendaOf(wheels, {}, now)
  {
    MinutesPoppedStep(now);
    hide MinutesPopped, WheelAgenda;
  }

  /** Between pops it does not matter which wheel is popped next. */
  lemma NothingDraining(wheels: seq<Wheel>)
    requires Sizes(wheels)
    ensures SlotsOk(wheels, {}, true) == SlotsOk(wheels, {}, false)
  {
  }

  lemma {:induction false} ExpireAllSnoc(c: Calendar, order: seq<nat>, n: nat)
    ensures ExpireAll(c, order + [n]) == Expire(ExpireAll(c, order), n)
    decreases |order|
  {
    if order == [] {
      assert order + [n] == [n];
    } else {
      assert (order + [n])[1..] == order[1..] + [n];
      ExpireAllSnoc(Expire(c, order[0]), order[1..], n);
    }
  }

  /** Taking one entry out of the popped slot. */
  lemma AgendaRemove(wheels: seq<Wheel>, draining: Slot, e: Entry, now: Instant)
    requires |wheels| == 4 && e in draining
    ensures var pair := (EntryDue(now / 2, e), e.node);
            && AgendaOf(wheels, draining, now) == AgendaOf(wheels, draining - {e}, now) + {pair}
            && (pair in AgendaOf(wheels, {}, now) ==> pair in AgendaOf(wheels, draining - {e}, now))
  {
    SlotAgendaRemove(draining, e, now / 2);
  }

  lemma DrainingKind(wheels: seq<Wheel>, draining: Slot, e: Entry, now: Instant)
    requires Sizes(wheels) && e in draining && SlotsOk(wheels, draining, now % 2 == 0)
    ensures if now % 2 == 0 then e.Direct? else e.Wrapper? && e.second < SECONDS_PER_MINUTE
  {
  }

  lemma RemoveEntry(wheels: seq<Wheel>, draining: Slot, e: Entry, now: Instant)
    requires Sizes(wheels) && e in draining && SlotsOk(wheels, draining, now % 2 == 0)
    ensures SlotsOk(wheels, draining - {e}, now % 2 == 0)
    ensures var pair, rest := (EntryDue(now / 2, e), e.node), AgendaOf(wheels, draining - {e}, now);
            && (pair in AgendaOf(wheels, {}, now) ==> pair in rest)
            && rest == if pair in rest then AgendaOf(wheels, draining, now)
                       else AgendaOf(wheels, draining, now) - {pair}
  {
    AgendaRemove(wheels, draining, e, now);
    hide AgendaOf;
  }

  /** Moving the node of a minute entry to the seconds wheel changes none of its appointments. */
  lemma AlreadyThere(c: Calendar, e: Entry)
    requires e.Wrapper? && e.second < SECONDS_PER_MINUTE && (EntryDue(c.now / 2, e), e.node) in c.agenda
    ensures Insert(c, e.second, e.node) == c
  {
  }

  /** An entry of the slot popped at `now` is due at once, or was a minute entry with seconds left. */
  lemma EntryDueNow(now: Instant, e: Entry)
    requires if now % 2 == 0 then e.Direct? else e.Wrapper? && e.second < SECONDS_PER_MINUTE
    ensures if e.Wrapper? && 0 < e.second then EntryDue(now / 2, e) == DueInstant(now, e.second)
            else EntryDue(now / 2, e) == now
  {
  }

  /** The slots of `v` are those of `w`, with entries added at most. */
  ghost predicate Grown(w: Wheel, v: Wheel) {
    |w| == |v| && forall i :: 0 <= i < |w| ==> w[i] <= v[i]
  }

  /** No hour or day slot has moved or lost an entry. */
  ghost predicate LongGrown(before: seq<Wheel>, after: seq<Wheel>) {
    && |before| == |after| == 4
    && Grown(before[HOURS], after[HOURS]) && Grown(before[DAYS], after[DAYS])
  }

  /** The wheels with the books kept about the nodes: those that callers hold, how often each has been inserted,
      and the nodes of accepted tasks, wherever they were started. */
  datatype Ledger = Ledger(wheels: seq<Wheel>, held: set<nat>, next: nat, inserted: multiset<nat>, accepted: set<nat>)

  /** From one state to a later one: hour and day slots only gain entries, nothing but fresh nodes is counted as
      inserted or taken hold of, and what has been accepted stays so. */
  ghost predicate Follows(s: Ledger, t: Ledger) {
    && LongGrown(s.wheels, t.wheels) && s.next <= t.next && s.accepted <= t.accepted
    && (forall m: nat :: m < s.next ==> s.inserted[m] == t.inserted[m] && (m in t.held ==> m in s.held))
  }

  /** The accepted nodes were inserted once and are left to the wheel. */
  ghost predicate Once(accepted: set<nat>, held: set<nat>, next: nat, inserted: multiset<nat>) {
    forall n <- accepted :: n < next && n !in held && inserted[n] == 1
  }

  lemma FollowsSelf(s: Ledger)
    requires |s.wheels| == 4
    ensures Follows(s, s)
  {
  }

  lemma FollowsOn(s: Ledger, t: Ledger, u: Ledger)
    requires Follows(s, t) && Follows(t, u)
    ensures Follows(s, u)
  {
    LongGrownOn(s.wheels, t.wheels, u.wheels);
    hide LongGrown;
  }

  /** Only the node that was fresh in `s` is inserted or taken hold of. */
  lemma FollowsFresh(s: Ledger, t: Ledger, u: Ledger)
    requires Follows(s, t) && LongGrown(t.wheels, u.wheels) && t.next <= u.next && t.accepted <= u.accepted
    requires (u.inserted == t.inserted || u.inserted == t.inserted + multiset{s.next}) && u.held <= t.held + {s.next}
    ensures Follows(s, u)
  {
    LongGrownOn(s.wheels, t.wheels, u.wheels);
    hide LongGrown;
  }

  lemma Unchanged(s: Ledger, t: Ledger, n: nat)
    requires Follows(s, t) && n < s.next
    ensures s.next <= t.next && s.inserted[n] == t.inserted[n] && (n in t.held ==> n in s.held)
  {
    hide LongGrown;
  }

  lemma OnceMore(accepted: set<nat>, held: set<nat>, next: nat, inserted: multiset<nat>, n: nat)
    requires Once(accepted, held, next, inserted) && n !in accepted
    ensures Once(accepted, held, next, inserted + multiset{n})
            && Once(accepted, held - {n}, next, inserted + multiset{n})
    ensures n < next && inserted[n] == 0 ==> Once(accepted + {n}, held - {n}, next, inserted + multiset{n})
  {
  }

  lemma LongGrownOn(a: seq<Wheel>, b: seq<Wheel>, c: seq<Wheel>)
    requires LongGrown(a, b) && LongGrown(b, c)
    ensures LongGrown(a, c)
  {
    GrownOn(a[HOURS], b[HOURS], c[HOURS]);
    GrownOn(a[DAYS], b[DAYS], c[DAYS]);
    hide Grown;
  }

  lemma GrownSelf(w: seq<Wheel>)
    requires |w| == 4
    ensures LongGrown(w, w)
  {
  }

  lemma FreshCount(wheels: seq<Wheel>, draining: Slot, inserted: multiset<nat>, next: nat)
    requires |wheels| == 4 && CountedIn(wheels, draining, inserted, next)
    ensures inserted[next] == 0
  {
  }

  lemma FreshNotAccepted(accepted: set<nat>, held: set<nat>, next: nat, inserted: multiset<nat>)
    requires Once(accepted, held, next, inserted)
    ensures next !in accepted && Once(accepted, held + {next}, next + 1, inserted)
  {
  }

  lemma OnceLess(accepted: set<nat>, held: set<nat>, next: nat, inserted: multiset<nat>, n: nat)
    requires Once(accepted, held, next, inserted)
    ensures Once(accepted, held - {n}, next, inserted)
  {
  }

  lemma OnceAdd(accepted: set<nat>, held: set<nat>, next: nat, inserted: multiset<nat>, n: nat)
    requires Once(accepted, held, next, inserted) && n < next && n !in held && inserted[n] == 1
    ensures Once(accepted + {n}, held, next, inserted)
  {
  }

  lemma GrownOn(a: Wheel, b: Wheel, c: Wheel)
    requires Grown(a, b) && Grown(b, c)
    ensures Grown(a, c)
  {
  }

  ghost function AgendaOf(wheels: seq<Wheel>, draining: Slot, now: Instant): set<(nat, nat)>
    requires |wheels| == 4
  {
    WheelAgenda(wheels[SECONDS], now / 2 + 1, 1)
    + WheelAgenda(wheels[MINUTES], SECONDS_PER_MINUTE * (MinutesPopped(now) + 1), SECONDS_PER_MINUTE)
    + SlotAgenda(draining, now / 2)
  }

  ghost predicate Sizes(wheels: seq<Wheel>) {
    && |wheels| == 4
    && |wheels[SECONDS]| == 60 && |wheels[MINUTES]| == 60 && |wheels[HOURS]| == 24 && |wheels[DAYS]| == 30
  }

  /** What the slots may hold; `inSeconds` tells which pop `draining` is from. */
  ghost predicate SlotsOk(wheels: seq<Wheel>, draining: Slot, inSeconds: bool)
    requires Sizes(wheels)
  {
    && (forall i, e :: 0 <= i < 60 && e in wheels[SECONDS][i] ==> e.Direct?)
    && (forall i, e :: 0 <= i < 60 && e in wheels[MINUTES][i] ==> e.Wrapper? && e.second < SECONDS_PER_MINUTE)
    && (forall e <- draining :: if inSeconds then e.Direct? else e.Wrapper? && e.second < SECONDS_PER_MINUTE)
  }

  ghost function ParkedIn(wheels: seq<Wheel>): set<nat>
    requires |wheels| == 4
  {
    WheelNodes(wheels[HOURS]) + WheelNodes(wheels[DAYS])
  }

  lemma Rotated(wheels: seq<Wheel>, wheel: nat, now: Instant)
    requires Sizes(wheels) && SlotsOk(wheels, {}, now % 2 == 0)
    requires if now % 2 == 1 then wheel == SECONDS else wheel == MINUTES && now / 2 % SECONDS_PER_MINUTE == 0
    ensures var v := Turned(wheels, wheel);
            && Sizes(v) && SlotsOk(v, wheels[wheel][0], (now + 1) % 2 == 0)
            && AgendaOf(v, wheels[wheel][0], now + 1) == AgendaOf(wheels, {}, now)
            && ParkedIn(v) == ParkedIn(wheels)
            && v[HOURS] == wheels[HOURS] && v[DAYS] == wheels[DAYS]
            && (now + 1) / 2 == now / 2 + if now % 2 == 1 then 1 else 0
  {
    hide AgendaOf;
    if now % 2 == 1 { SecondsPopped(wheels, now); } else { MinutePopped(wheels, now); }
  }

  /** What `insertMinuteNode` does to the wheels. */
  lemma MinuteInserted(wheels: seq<Wheel>, draining: Slot, now: Instant, delay: nat, e: Entry)
    requires Sizes(wheels) && SlotsOk(wheels, draining, now % 2 == 0)
    requires SECONDS_PER_MINUTE <= delay < SECONDS_PER_HOUR && e.Wrapper? && e.second == delay % SECONDS_PER_MINUTE
    ensures var i := delay / SECONDS_PER_MINUTE - 1;
            && 0 <= i < 60
            && var v := Emplace(wheels, MINUTES, i, e);
            && Sizes(v) && SlotsOk(v, draining, now % 2 == 0)
            && ParkedIn(v) == ParkedIn(wheels)
            && AgendaOf(v, draining, now) == AgendaOf(wheels, draining, now) + {(DueInstant(now, delay), e.node)}
            && (DueInstant(now, delay), e.node) in AgendaOf(v, {}, now)
  {
    MinuteSlot(now, delay, e.uid, e.node);
    hide DueInstant, EntryDue, MinutesPopped, WrapperDue;
    WheelAgendaAdd(wheels[MINUTES], delay / SECONDS_PER_MINUTE - 1, e,
                   SECONDS_PER_MINUTE * (MinutesPopped(now) + 1), SECONDS_PER_MINUTE);
  }

  /** m_wheels[k][i].emplace(e) */
  function Emplace(wheels: seq<Wheel>, k: nat, i: nat, e: Entry): seq<Wheel>
    requires k < |wheels| && i < |wheels[k]|
  {
    wheels[k := wheels[k][i := wheels[k][i] + {e}]]
  }

  /** The front slot of a wheel is popped, and an empty one goes in at the back. */
  function Turned(wheels: seq<Wheel>, k: nat): seq<Wheel>
    requires k < |wheels| && wheels[k] != []
  {
    wheels[k := wheels[k][1..] + [{}]]
  }

  /** What `insertSecondNode` does to the wheels. */
  lemma SecondInserted(wheels: seq<Wheel>, draining: Slot, now: Instant, delay: nat, n: nat)
    requires Sizes(wheels) && SlotsOk(wheels, draining, now % 2 == 0) && 1 <= delay < SECONDS_PER_MINUTE
    ensures var v := Emplace(wheels, SECONDS, delay - 1, Direct(n));
            && Sizes(v) && SlotsOk(v, draining, now % 2 == 0)
            && ParkedIn(v) == ParkedIn(wheels)
            && AgendaOf(v, draining, now) == AgendaOf(wheels, draining, now) + {(2 * (now / 2 + delay), n)}
            && (2 * (now / 2 + delay), n) in AgendaOf(v, {}, now)
  {
    hide MinutesPopped;
    WheelAgendaAdd(wheels[SECONDS], delay - 1, Direct(n), now / 2 + 1, 1);
  }

  /** What `insertHourNode` and `insertDayNode` do to the wheels. */
  lemma LongInserted(wheels: seq<Wheel>, draining: Slot, now: Instant, k: nat, i: nat, e: Entry)
    requires Sizes(wheels) && SlotsOk(wheels, draining, now % 2 == 0) && (k == HOURS || k == DAYS) && i < |wheels[k]|
    ensures var v := Emplace(wheels, k, i, e);
            && Sizes(v) && SlotsOk(v, draining, now % 2 == 0)
            && AgendaOf(v, draining, now) == AgendaOf(wheels, draining, now)
            && ParkedIn(v) == ParkedIn(wheels) + {e.node}
  {
    hide MinutesPopped;
    WheelNodesAdd(wheels[k], i, e);
  }

  lemma {:induction false} EmptyWheel(w: Wheel, base: nat, stride: nat)
    requires forall i :: 0 <= i < |w| ==> w[i] == {}
    ensures WheelAgenda(w, base, stride) == {} && WheelNodes(w) == {}
    decreases |w|
  {
    if w != [] { EmptyWheel(w[1..], base + stride, stride); }
  }

  lemma EmptyWheels(wheels: seq<Wheel>)
    requires Sizes(wheels) && forall k, i :: 0 <= k < 4 && 0 <= i < |wheels[k]| ==> wheels[k][i] == {}
    ensures SlotsOk(wheels, {}, false) && AgendaOf(wheels, {}, 1) == {} && ParkedIn(wheels) == {}
    ensures Idle(EMPTY)
  {
    EmptyWheel(wheels[SECONDS], 1, 1);
    EmptyWheel(wheels[MINUTES], 60, 60);
    EmptyWheel(wheels[HOURS], 0, 0);
    EmptyWheel(wheels[DAYS], 0, 0);
  }

  // How many entries hold a node

  function SlotCount(slot: Slot, n: nat): nat { |set e | e in slot && e.node == n| }

  function WheelCount(w: Wheel, n: nat): nat
    decreases |w|
  {
    if w == [] then 0 else SlotCount(w[0], n) + WheelCount(w[1..], n)
  }

  function EntryCount(wheels: seq<Wheel>, draining: Slot, n: nat): nat
    requires |wheels| == 4
  {
    WheelCount(wheels[SECONDS], n) + WheelCount(wheels[MINUTES], n)
    + WheelCount(wheels[HOURS], n) + WheelCount(wheels[DAYS], n) + SlotCount(draining, n)
  }

  /** No node has more entries than it has been inserted, and ids not yet given out have none. */
  ghost predicate CountedIn(wheels: seq<Wheel>, draining: Slot, inserted: multiset<nat>, next: nat)
    requires |wheels| == 4
  {
    && (forall n: nat :: EntryCount(wheels, draining, n) <= inserted[n])
    && (forall n: nat :: next <= n ==> inserted[n] == 0)
  }

  lemma SlotCountAdd(slot: Slot, e: Entry, n: nat)
    ensures SlotCount(slot + {e}, n) <= SlotCount(slot, n) + if e.node == n then 1 else 0
  {
    var a, b := set f | f in slot && f.node == n, set f | f in slot + {e} && f.node == n;
    if e.node == n { assert b == a + {e}; } else { assert b == a; }
  }

  lemma SlotCountRemove(slot: Slot, e: Entry, n: nat)
    requires e in slot
    ensures SlotCount(slot, n) == SlotCount(slot - {e}, n) + if e.node == n then 1 else 0
  {
    var a, b := set f | f in slot - {e} && f.node == n, set f | f in slot && f.node == n;
    if e.node == n { assert b == a + {e}; } else { assert b == a; }
  }

  lemma {:induction false} WheelCountAdd(w: Wheel, i: nat, e: Entry, n: nat)
    requires i < |w|
    ensures WheelCount(w[i := w[i] + {e}], n) <= WheelCount(w, n) + if e.node == n then 1 else 0
    decreases |w|
  {
    var v := w[i := w[i] + {e}];
    if i == 0 {
      assert v[1..] == w[1..];
      SlotCountAdd(w[0], e, n);
    } else {
      assert v[1..] == w[1..][i - 1 := w[1..][i - 1] + {e}];
      WheelCountAdd(w[1..], i - 1, e, n);
    }
  }

  lemma {:induction false} CountEmptyLast(w: Wheel, n: nat)
    ensures WheelCount(w + [{}], n) == WheelCount(w, n)
    decreases |w|
  {
    if w == [] {
      assert w + [{}] == [{}] && (w + [{}])[1..] == [];
      assert (set e: Entry | e in {} && e.node == n) == {};
    } else {
      assert (w + [{}])[1..] == w[1..] + [{}];
      CountEmptyLast(w[1..], n);
    }
  }

  lemma {:induction false} EmptyWheelCount(w: Wheel, n: nat)
    requires forall i :: 0 <= i < |w| ==> w[i] == {}
    ensures WheelCount(w, n) == 0
    decreases |w|
  {
    if w != [] {
      EmptyWheelCount(w[1..], n);
      assert (set e | e in w[0] && e.node == n) == {};
    }
  }

  lemma {:induction false} CountedNodes(w: Wheel, n: nat)
    ensures n in WheelNodes(w) <==> 0 < WheelCount(w, n)
    decreases |w|
  {
    if w != [] {
      SlotCountedNodes(w[0], n);
      CountedNodes(w[1..], n);
    }
  }

  lemma SlotCountedNodes(slot: Slot, n: nat)
    ensures n in SlotNodes(slot) <==> 0 < SlotCount(slot, n)
  {
    var a := set e | e in slot && e.node == n;
    if n in SlotNodes(slot) {
      var e :| e in slot && e.node == n;
      assert e in a;
    }
    if a != {} {
      var e :| e in a;
      assert e.node in SlotNodes(slot);
    }
  }

  lemma InsertCounted(wheels: seq<Wheel>, draining: Slot, k: nat, i: nat, e: Entry, inserted: multiset<nat>, next: nat)
    requires |wheels| == 4 && k < 4 && i < |wheels[k]| && e.node < next && CountedIn(wheels, draining, inserted, next)
    ensures var v := Emplace(wheels, k, i, e);
            CountedIn(v, draining, inserted + multiset{e.node}, next) && LongGrown(wheels, v)
  {
    hide WheelCount, SlotCount;
    var v := Emplace(wheels, k, i, e);
    forall n: nat ensures EntryCount(v, draining, n) <= (inserted + multiset{e.node})[n] {
      WheelCountAdd(wheels[k], i, e, n);
      assert EntryCount(wheels, draining, n) <= inserted[n];
    }
  }

  lemma RotateCounted(wheels: seq<Wheel>, k: nat, inserted: multiset<nat>, next: nat)
    requires |wheels| == 4 && k < 4 && wheels[k] != [] && CountedIn(wheels, {}, inserted, next)
    ensures CountedIn(Turned(wheels, k), wheels[k][0], inserted, next)
    ensures k == SECONDS || k == MINUTES ==> LongGrown(wheels, Turned(wheels, k))
  {
    var v := Turned(wheels, k);
    forall n: nat ensures EntryCount(v, wheels[k][0], n) <= inserted[n] {
      CountEmptyLast(wheels[k][1..], n);
      assert EntryCount(wheels, {}, n) <= inserted[n];
      assert WheelCount(wheels[k], n) == SlotCount(wheels[k][0], n) + WheelCount(wheels[k][1..], n);
    }
  }

  /** An entry goes; if its node has just been inserted again in its place, that insertion is not a new one. */
  lemma RemoveCounted(wheels: seq<Wheel>, draining: Slot, e: Entry, inserted: multiset<nat>, next: nat)
    requires |wheels| == 4 && e in draining && CountedIn(wheels, draining, inserted, next)
    ensures CountedIn(wheels, draining - {e}, inserted, next)
    ensures CountedIn(wheels, draining - {e}, inserted - multiset{e.node}, next)
  {
    hide WheelCount, SlotCount;
    forall n: nat ensures EntryCount(wheels, draining - {e}, n) + (if e.node == n then 1 else 0) <= inserted[n] {
      SlotCountRemove(draining, e, n);
      assert EntryCount(wheels, draining, n) <= inserted[n];
    }
  }

  class TimerWheel {
    var wheels: seq<Wheel>
    var lastTime: int
    var tick: nat

    // The objects behind the shared pointers: NodeTasks not destroyed yet, those that a caller still
    // points to, and the entries of a popped slot that have not been destroyed yet.
    var jobs: map<nat, Closure>
    var next: nat
    var nextWrapper: nat
    var held: set<nat>
    var draining: Slot
    var log: seq<Firing>

    // The calendar's clock and accepted nodes, and the insertions of each node.
    ghost var now: Instant
    ghost var inserted: multiset<nat>
    ghost var accepted: set<nat>

    ghost predicate Shape()
      reads this
    {
      Slots() && tick == now / 2
    }

    ghost predicate Slots()
      reads this
    {
      Sizes(wheels) && SlotsOk(wheels, draining, now % 2 == 0)
    }

    /** The calendar that the wheel stands for. */
    ghost function Abs(): Calendar
      requires |wheels| == 4
      reads this
    {
      Calendar(now, next, jobs, AgendaOf(wheels, draining, now), ParkedIn(wheels), held, log, accepted)
    }

    ghost function Books(): Ledger
      reads this
    {
      Ledger(wheels, held, next, inserted, accepted)
    }

    ghost predicate Bounded()
      reads this
    {
      |wheels| == 4 && CountedIn(wheels, draining, inserted, next)
    }

    ghost predicate Counted()
      reads this
    {
      Bounded() && Once(accepted, held, next, inserted)
    }

    /** A node that was inserted once, and that no caller holds, is held by exactly one entry until it fires. */
    lemma HeldByOneEntry(n: nat)
      requires Shape() && Counted() && Valid(Abs()) && n in jobs && n !in held && inserted[n] == 1
      ensures EntryCount(wheels, draining, n) == 1
    {
      assert Live(Abs(), n);
      ReferencedIsLive(n);
      CountedNodes(wheels[SECONDS], n);
      CountedNodes(wheels[MINUTES], n);
      CountedNodes(wheels[HOURS], n);
      CountedNodes(wheels[DAYS], n);
      SlotCountedNodes(draining, n);
      assert EntryCount(wheels, draining, n) <= inserted[n];
    }

    /** A destroyed node is in no entry any more. */
    lemma NoEntry(n: nat)
      requires Shape() && Valid(Abs()) && n !in jobs
      ensures EntryCount(wheels, draining, n) == 0
    {
      assert !Live(Abs(), n);
      ReferencedIsLive(n);
      CountedNodes(wheels[SECONDS], n);
      CountedNodes(wheels[MINUTES], n);
      CountedNodes(wheels[HOURS], n);
      CountedNodes(wheels[DAYS], n);
      SlotCountedNodes(draining, n);
    }

    /** Does any pointer to the node exist? This is what the reference counts decide. */
    predicate Referenced(n: nat)
      requires |wheels| == 4
      reads this
    {
      || n in held || n in SlotNodes(draining)
      || n in WheelNodes(wheels[SECONDS]) || n in WheelNodes(wheels[MINUTES])
      || n in WheelNodes(wheels[HOURS]) || n in WheelNodes(wheels[DAYS])
    }

    lemma ReferencedIsLive(n: nat)
      requires |wheels| == 4
      ensures Referenced(n) <==> Live(Abs(), n)
    {
      AgendaNodesAll(wheels[SECONDS], wheels[MINUTES], draining, now / 2 + 1,
                     SECONDS_PER_MINUTE * (MinutesPopped(now) + 1), now / 2);
    }

    constructor ()
      ensures Shape() && Counted() && Idle(Abs()) && Abs() == EMPTY && draining == {}
    {
      wheels := [seq(60, _ => {}), seq(60, _ => {}), seq(24, _ => {}), seq(30, _ => {})];
      lastTime, tick := 0, 0;
      jobs, next, nextWrapper, held, draining, log := map[], 0, 0, {}, {}, [];
      now, inserted, accepted := 1, multiset{}, {};
      new;
      EmptyWheels(wheels);
      NothingCounted(wheels);
      hide AgendaOf, ParkedIn, SlotsOk, Idle;
    }

    method InsertNode(delay: nat, n: nat)
      requires Shape() && Bounded() && delay < 0x1_0000_0000 && n < next
      modifies this`wheels, this`nextWrapper, this`inserted
      ensures Shape() && Bounded() && Abs() == Insert(old(Abs()), delay, n)
      ensures inserted == old(inserted) + if 1 <= delay < 31 * SECONDS_PER_DAY then multiset{n} else multiset{}
      ensures 1 <= delay < SECONDS_PER_HOUR ==> (DueInstant(now, delay), n) in AgendaOf(wheels, {}, now)
      ensures LongGrown(old(wheels), wheels)
    {
      GrownSelf(wheels);
      hide CountedIn, LongGrown;
      if delay <= 0 {
        return;
      }
      if delay < SECONDS_PER_MINUTE {
        InsertSecondNode(delay, n);
      } else if delay < SECONDS_PER_HOUR {
        InsertMinuteNode(delay, n);
      } else if delay < SECONDS_PER_DAY {
        InsertHourNode(delay, n);
      } else {
        var days := delay / SECONDS_PER_DAY;
        if days > 30 {
          return;
        }
        InsertDayNode(delay, n);
      }
    }

    method InsertSecondNode(delay: nat, n: nat)
      requires Shape() && Bounded() && 1 <= delay < SECONDS_PER_MINUTE && n < next
      modifies this`wheels, this`inserted
      ensures Shape() && Bounded() && inserted == old(inserted) + multiset{n}
      ensures Abs() == old(Abs()).(agenda := old(Abs()).agenda + {(2 * (now / 2 + delay), n)})
      ensures (2 * (now / 2 + delay), n) in AgendaOf(wheels, {}, now)
      ensures LongGrown(old(wheels), wheels)
    {
      hide CountedIn, LongGrown, MinutesPopped, AgendaOf, SlotsOk, ParkedIn, Emplace, DueInstant;
      SecondInserted(wheels, draining, now, delay, n);
      InsertCounted(wheels, draining, SECONDS, delay - 1, Direct(n), inserted, next);
      inserted := inserted + multiset{n};
      wheels := Emplace(wheels, SECONDS, delay - 1, Direct(n));
    }

    method InsertMinuteNode(delay: nat, n: nat)
      requires Shape() && Bounded() && SECONDS_PER_MINUTE <= delay < SECONDS_PER_HOUR && n < next
      modifies this`wheels, this`nextWrapper, this`inserted
      ensures Shape() && Bounded() && inserted == old(inserted) + multiset{n}
      ensures Abs() == old(Abs()).(agenda := old(Abs()).agenda + {(DueInstant(now, delay), n)})
      ensures (DueInstant(now, delay), n) in AgendaOf(wheels, {}, now)
      ensures LongGrown(old(wheels), wheels)
    {
      hide CountedIn, LongGrown, MinutesPopped, AgendaOf, SlotsOk, ParkedIn, Emplace, DueInstant;
      var minute := delay / SECONDS_PER_MINUTE;
      var second := delay % SECONDS_PER_MINUTE;
      var e := Wrapper(nextWrapper, second, n);
      MinuteInserted(wheels, draining, now, delay, e);
      nextWrapper := nextWrapper + 1;
      InsertCounted(wheels, draining, MINUTES, minute - 1, e, inserted, next);
      inserted := inserted + multiset{n};
      wheels := Emplace(wheels, MINUTES, minute - 1, e);
    }

    method InsertHourNode(delay: nat, n: nat)
      requires Shape() && Bounded() && SECONDS_PER_HOUR <= delay < SECONDS_PER_DAY && n < next
      modifies this`wheels, this`nextWrapper, this`inserted
      ensures Shape() && Bounded() && inserted == old(inserted) + multiset{n}
      ensures Abs() == old(Abs()).(parked := old(Abs()).parked + {n})
      ensures LongGrown(old(wheels), wheels)
    {
      hide CountedIn, LongGrown, MinutesPopped, AgendaOf, SlotsOk, ParkedIn, Emplace, DueInstant;
      var hour := delay / SECONDS_PER_HOUR;
      var second := delay % SECONDS_PER_HOUR;
      var e := Wrapper(nextWrapper, second, n);
      nextWrapper := nextWrapper + 1;
      LongInserted(wheels, draining, now, HOURS, hour - 1, e);
      InsertCounted(wheels, draining, HOURS, hour - 1, e, inserted, next);
      inserted := inserted + multiset{n};
      wheels := Emplace(wheels, HOURS, hour - 1, e);
    }

    method InsertDayNode(delay: nat, n: nat)
      requires Shape() && Bounded() && SECONDS_PER_DAY <= delay < 31 * SECONDS_PER_DAY && n < next
      modifies this`wheels, this`nextWrapper, this`inserted
      ensures Shape() && Bounded() && inserted == old(inserted) + multiset{n}
      ensures Abs() == old(Abs()).(parked := old(Abs()).parked + {n})
      ensures LongGrown(old(wheels), wheels)
    {
      hide CountedIn, LongGrown, MinutesPopped, AgendaOf, SlotsOk, ParkedIn, Emplace, DueInstant;
      var day := delay / SECONDS_PER_DAY;
      var second := delay % SECONDS_PER_DAY;
      var e := Wrapper(nextWrapper, second, n);
      nextWrapper := nextWrapper + 1;
      LongInserted(wheels, draining, now, DAYS, day - 1, e);
      InsertCounted(wheels, draining, DAYS, day - 1, e, inserted, next);
      inserted := inserted + multiset{n};
      wheels := Emplace(wheels, DAYS, day - 1, e);
    }

    /** make_shared<NodeTask>; the caller points to the new node. */
    method MakeNode(job: Closure) returns (n: nat)
      requires Shape() && Counted()
      modifies this`jobs, this`next, this`held
      ensures Shape() && Counted() && n == old(next) && next == n + 1 && Abs() == New(old(Abs()), job)
    {
      n := next;
      next := next + 1;
      jobs := jobs[n := job];
      held := held + {n};
    }

    /** A pointer to `n` has just gone. */
    method Release(n: nat)
      requires Shape() && Counted() && n in jobs
      modifies this
      ensures Shape() && Abs() == Settle(old(Abs()), n, old(jobs)[n])
      ensures Counted() && Follows(old(Books()), Books())
      ensures now == old(now) && tick == old(tick) && lastTime == old(lastTime) && draining == old(draining)
      decreases jobs[n].task, 2
    {
      ReferencedIsLive(n);
      FollowsSelf(Books());
      hide CountedIn, Once, Follows;
      if !Referenced(n) {
        Destroy(n);
      }
    }

    /** ~NodeTask. */
    method Destroy(n: nat)
      requires Shape() && Counted() && n in jobs
      modifies this
      ensures Shape() && Abs() == Fire(old(Abs()), n, old(jobs)[n])
      ensures Counted() && Follows(old(Books()), Books())
      ensures now == old(now) && tick == old(tick) && lastTime == old(lastTime) && draining == old(draining)
      decreases jobs[n].task, 1
    {
      hide Insert, DueInstant, MinutesPopped, AgendaOf, ParkedIn, SlotsOk, Live, CountedIn, Once, Follows, LongGrown;
      var job := jobs[n];
      jobs := jobs - {n};
      log := log + [Firing(tick, n, OriginOf(n, job), job.task)];
      assert Abs() == Logged(old(Abs()), n, job);
      Execute(job.task.body);
      if job.Periodic? {
        ghost var mid := Books();
        StartPeriodic(job);
        FollowsOn(old(Books()), mid, Books());
      }
    }

    /** The body of `runEvery`: the wheel keeps the node, so dropping the local pointer destroys nothing. */
    method StartPeriodic(job: Closure)
      requires Shape() && Counted() && job.Periodic?
      modifies this
      ensures Shape() && Abs() == Keep(old(Abs()), job, job.interval)
      ensures Counted() && Follows(old(Books()), Books()) && old(next) in accepted
      ensures now == old(now) && tick == old(tick) && lastTime == old(lastTime) && draining == old(draining)
    {
      hide Insert, Settle, RunCommands, DueInstant, MinutesPopped, CountedIn, Once, Follows, LongGrown, AgendaOf,
        ParkedIn, SlotsOk, Sizes;
      ghost var c := Abs();
      FollowsSelf(Books());
      FreshCount(wheels, draining, inserted, next);
      FreshNotAccepted(accepted, held, next, inserted);
      var n := MakeNode(job);
      OnceMore(accepted, held, next, inserted, n);
      InsertNode(U32(job.interval), n);
      ghost var d := Abs();
      assert d == Insert(New(c, job), U32(job.interval), c.next);
      held := held - {n};
      accepted := accepted + {n};
      FollowsFresh(old(Books()), old(Books()), Books());
      assert Accepted(job.interval);
      assert Abs() == Accept(Unhold(d, c.next), job.interval, c.next);
    }

    method RunEvery(interval: Interval, task: TimerTask)
      requires Shape() && Counted()
      modifies this
      ensures Shape() && Abs() == RunCommand(old(Abs()), Command.RunEvery(interval, task))
      ensures Counted() && Follows(old(Books()), Books()) && old(next) in accepted
      ensures now == old(now) && tick == old(tick) && lastTime == old(lastTime) && draining == old(draining)
    {
      hide Insert, DueInstant, MinutesPopped, AgendaOf, ParkedIn, SlotsOk, Live, CountedIn, Once, Follows, LongGrown;
      StartPeriodic(Periodic(next, interval, task));
    }

    method RunAfter(delay: int, task: TimerTask)
      requires Shape() && Counted()
      modifies this
      ensures Shape() && Abs() == RunCommand(old(Abs()), Command.RunAfter(delay, task))
      ensures Counted() && Follows(old(Books()), Books())
      ensures Accepted(delay) ==> old(next) in accepted
      ensures now == old(now) && tick == old(tick) && lastTime == old(lastTime) && draining == old(draining)
      decreases task, 4
    {
      hide Insert, DueInstant, MinutesPopped, AgendaOf, ParkedIn, SlotsOk, Live, CountedIn, Once, Follows, LongGrown;
      FollowsSelf(Books());
      FreshCount(wheels, draining, inserted, next);
      FreshNotAccepted(accepted, held, next, inserted);
      var n := MakeNode(Plain(task));
      OnceMore(accepted, held, next, inserted, n);
      InsertNode(U32(delay), n);
      FollowsFresh(old(Books()), old(Books()), Books());
      ghost var mid := Books();
      LetGo(n);
      FollowsOn(old(Books()), mid, Books());
      Unchanged(mid, Books(), n);
      if Accepted(delay) {
        mid := Books();
        OnceAdd(accepted, held, next, inserted, n);
        GrownSelf(wheels);
        accepted := accepted + {n};
        FollowsFresh(old(Books()), mid, Books());
      }
    }

    /** A node that is inserted several times before its maker drops it. */
    method Share(delays: seq<int>, task: TimerTask)
      requires Shape() && Counted()
      modifies this
      ensures Shape() && Abs() == RunCommand(old(Abs()), Command.Share(delays, task))
      ensures Counted() && Follows(old(Books()), Books())
      ensures now == old(now) && tick == old(tick) && lastTime == old(lastTime) && draining == old(draining)
      decreases task, 4
    {
      hide Insert, DueInstant, MinutesPopped, AgendaOf, ParkedIn, SlotsOk, Live, CountedIn, Once, Follows, LongGrown;
      FollowsSelf(Books());
      FreshNotAccepted(accepted, held, next, inserted);
      var n := MakeNode(Plain(task));
      FollowsFresh(old(Books()), old(Books()), Books());
      ghost var c := Abs();
      var i := 0;
      while i < |delays|
        invariant 0 <= i <= |delays|
        invariant Shape() && n in jobs && n in held && jobs[n] == Plain(task)
        invariant Counted() && n == old(next) && next == n + 1 && n !in accepted && Follows(old(Books()), Books())
        invariant InsertAll(c, delays, n) == InsertAll(Abs(), delays[i..], n)
        invariant now == old(now) && tick == old(tick) && lastTime == old(lastTime) && draining == old(draining)
      {
        ghost var mid := Books();
        OnceMore(accepted, held, next, inserted, n);
        InsertNode(U32(delays[i]), n);
        FollowsFresh(old(Books()), mid, Books());
        assert delays[i..][1..] == delays[i + 1..];
        i := i + 1;
      }
      ghost var mid := Books();
      LetGo(n);
      FollowsOn(old(Books()), mid, Books());
    }

    /** The caller drops its pointer to the node. */
    method LetGo(n: nat)
      requires Shape() && Counted() && n in jobs
      modifies this
      ensures Shape() && Abs() == Settle(Unhold(old(Abs()), n), n, old(jobs)[n])
      ensures Counted() && Follows(old(Books()), Books()) && (n < old(next) ==> n !in held)
      ensures now == old(now) && tick == old(tick) && lastTime == old(lastTime) && draining == old(draining)
      decreases jobs[n].task, 3
    {
      hide Insert, DueInstant, MinutesPopped, AgendaOf, ParkedIn, SlotsOk, Live, CountedIn, Once, Follows, LongGrown;
      FollowsSelf(Books());
      OnceLess(accepted, held, next, inserted, n);
      GrownSelf(wheels);
      held := held - {n};
      assert Abs() == Unhold(old(Abs()), n);
      FollowsFresh(old(Books()), old(Books()), Books());
      ghost var mid := Books();
      Release(n);
      FollowsOn(old(Books()), mid, Books());
      if n < old(next) { Unchanged(mid, Books(), n); }
    }

    method ExecuteOne(cmd: Command)
      requires Shape() && Counted()
      modifies this
      ensures Shape() && Abs() == RunCommand(old(Abs()), cmd)
      ensures Counted() && Follows(old(Books()), Books())
      ensures now == old(now) && tick == old(tick) && lastTime == old(lastTime) && draining == old(draining)
      decreases cmd, 0
    {
      hide Insert, DueInstant, MinutesPopped, AgendaOf, ParkedIn, SlotsOk, Live, CountedIn, Once, Follows, LongGrown;
      match cmd {
        case RunAfter(delay, task) => RunAfter(delay, task);
        case RunEvery(interval, task) => RunEvery(interval, task);
        case Share(delays, task) => Share(delays, task);
      }
    }

    /** What a task does to the wheel when it runs. */
    method Execute(cmds: seq<Command>)
      requires Shape() && Counted()
      modifies this
      ensures Shape() && Abs() == RunCommands(old(Abs()), cmds)
      ensures Counted() && Follows(old(Books()), Books())
      ensures now == old(now) && tick == old(tick) && lastTime == old(lastTime) && draining == old(draining)
      decreases cmds, 0
    {
      hide Insert, DueInstant, MinutesPopped, AgendaOf, ParkedIn, SlotsOk, Live, CountedIn, Once, Follows, LongGrown;
      if cmds == [] {
        FollowsSelf(Books());
        return;
      }
      ExecuteOne(cmds[0]);
      ghost var mid := Books();
      Execute(cmds[1..]);
      FollowsOn(old(Books()), mid, Books());
    }

    /** The closure of a minute entry inserts the node again, for the seconds left. */
    method Cascade(e: Entry)
      requires Shape() && Counted() && Valid(Abs()) && e in draining
      modifies this`wheels, this`nextWrapper, this`inserted
      ensures Shape() && Bounded() && Abs() == old(Abs()) && LongGrown(old(wheels), wheels)
      ensures inserted == old(inserted) + if e.Wrapper? && 0 < e.second then multiset{e.node} else multiset{}
      ensures e.Wrapper? && 0 < e.second ==> (EntryDue(now / 2, e), e.node) in AgendaOf(wheels, {}, now)
    {
      hide Valid, Insert, DueInstant, MinutesPopped, AgendaOf, ParkedIn, WrapperDue, CountedIn, Once, LongGrown, Live,
        EntryDue;
      ghost var c := Abs();
      ghost var pair := (EntryDue(now / 2, e), e.node);
      EntryDueNow(now, e);
      AgendaRemove(wheels, draining, e, now);
      LiveHasJob(c, pair);
      GrownSelf(wheels);
      if e.Wrapper? {
        AlreadyThere(c, e);
        InsertNode(e.second, e.node);
      }
    }

    /** An entry of a popped slot goes, up to its pointer to the node. */
    method DropEntry(e: Entry) returns (ghost expired: bool)
      requires Shape() && Counted() && Valid(Abs()) && e in draining
      modifies this`wheels, this`nextWrapper, this`inserted, this`draining
      ensures Shape() && Counted() && draining == old(draining) - {e} && inserted == old(inserted) && e.node in jobs
      ensures Abs() == if expired then old(Abs()).(agenda := old(Abs()).agenda - {(now as nat, e.node)}) else old(Abs())
      ensures expired ==> e.node in DueNow(old(Abs()))
      ensures LongGrown(old(wheels), wheels)
    {
      hide Valid, MinutesPopped, AgendaOf, ParkedIn, WrapperDue, CountedIn, Once, LongGrown, Live, EntryDue,
        DueInstant, SlotsOk, DueNow;
      ghost var c := Abs();
      ghost var pair := (EntryDue(now / 2, e), e.node);
      DrainingKind(wheels, draining, e, now);
      EntryDueNow(now, e);
      AgendaRemove(wheels, draining, e, now);
      LiveHasJob(c, pair);
      Cascade(e);
      RemoveCounted(wheels, draining, e, inserted, next);
      RemoveEntry(wheels, draining, e, now);
      if e.Wrapper? && 0 < e.second { inserted := inserted - multiset{e.node}; }
      assert inserted == old(inserted);
      draining := draining - {e};
      expired := pair !in AgendaOf(wheels, draining, now);
    }

    /** One entry of a popped slot is destroyed; this makes its node expire unless another pointer that
        goes at the same instant, or a later one, remains. */
    method DestroyEntry(e: Entry) returns (ghost expired: bool)
      requires Shape() && Counted() && Valid(Abs()) && e in draining
      modifies this
      ensures Shape() && Valid(Abs()) && draining == old(draining) - {e}
      ensures Counted() && Follows(old(Books()), Books())
      ensures Abs() == if expired then Expire(old(Abs()), e.node) else old(Abs())
      ensures expired ==> e.node in DueNow(old(Abs()))
      ensures now == old(now) && tick == old(tick) && lastTime == old(lastTime)
    {
      hide Valid, ValidBut, Insert, Fire, RunCommands, AgendaOf, ParkedIn, SlotsOk, CountedIn, Once, Follows,
        LongGrown, DueNow;
      ghost var c := Abs();
      FollowsSelf(Books());
      expired := DropEntry(e);
      FollowsFresh(old(Books()), old(Books()), Books());
      if expired { ExpireOk(c, e.node, 0); } else { StaysLive(c, e.node); }
      ghost var mid := Books();
      Release(e.node);
      FollowsOn(old(Books()), mid, Books());
    }

    /** The popped slot goes out of scope: its entries are destroyed, in whatever order. */
    method Drain() returns (ghost order: seq<nat>)
      requires Shape() && Counted() && Valid(Abs())
      modifies this
      ensures Shape() && Valid(Abs()) && draining == {}
      ensures Counted() && Follows(old(Books()), Books())
      ensures IsOrderOf(order, DueNow(old(Abs()))) && Abs() == ExpireAll(old(Abs()), order)
      ensures now == old(now) && tick == old(tick) && lastTime == old(lastTime)
    {
      hide Valid, ValidBut, Insert, Fire, RunCommands, DueInstant, MinutesPopped, CountedIn, Once, Follows, LongGrown;
      order := [];
      ghost var c := Abs();
      FollowsSelf(Books());
      while draining != {}
        invariant Shape() && Valid(Abs())
        invariant Counted() && Follows(old(Books()), Books())
        invariant Abs() == ExpireAll(c, order)
        invariant forall i, j :: 0 <= i < j < |order| ==> order[i] != order[j]
        invariant forall n: nat :: n in DueNow(c) <==> n in order || n in DueNow(Abs())
        invariant forall n <- order :: n !in DueNow(Abs())
        invariant now == old(now) && tick == old(tick) && lastTime == old(lastTime)
        decreases draining
      {
        ghost var before := Abs();
        ghost var mid := Books();
        var e :| e in draining;
        ghost var expired := DestroyEntry(e);
        FollowsOn(old(Books()), mid, Books());
        if expired {
          ExpireOk(before, e.node, 0);
          ExpireAllSnoc(c, order, e.node);
          order := order + [e.node];
        }
      }
      NothingLeft(wheels, now);
      assert DueNow(Abs()) == {};
    }

    /** swap the front slot out, pop it, and put an empty one at the back. */
    method Rotate(wheel: nat)
      requires Slots() && Counted() && draining == {}
      requires || (wheel == SECONDS && now % 2 == 1 && tick == now / 2 + 1)
               || (wheel == MINUTES && now % 2 == 0 && tick == now / 2 && tick % SECONDS_PER_MINUTE == 0)
      modifies this`wheels, this`draining, this`now
      ensures Shape() && Counted() && Abs() == Advance(old(Abs())) && now == old(now) + 1
      ensures LongGrown(old(wheels), wheels)
    {
      hide CountedIn, LongGrown, MinutesPopped, AgendaOf, SlotsOk, ParkedIn, Turned;
      Rotated(wheels, wheel, now);
      RotateCounted(wheels, wheel, inserted, next);
      var tmp := wheels[wheel][0];
      wheels := Turned(wheels, wheel);
      now := now + 1;
      draining := tmp;
    }

    method PopUp(wheel: nat) returns (ghost order: seq<nat>)
      requires Slots() && Counted() && draining == {} && Valid(Advance(Abs()))
      requires || (wheel == SECONDS && now % 2 == 1 && tick == now / 2 + 1)
               || (wheel == MINUTES && now % 2 == 0 && tick == now / 2 && tick % SECONDS_PER_MINUTE == 0)
      modifies this
      ensures Shape() && Valid(Abs()) && draining == {} && now == old(now) + 1
      ensures Counted() && Follows(old(Books()), Books())
      ensures IsOrderOf(order, DueNow(Advance(old(Abs())))) && Abs() == ExpireAll(Advance(old(Abs())), order)
      ensures tick == old(tick) && lastTime == old(lastTime)
    {
      hide Valid, ExpireAll, MinutesPopped, AgendaOf, SlotsOk, ParkedIn, DueNow, IsOrderOf, CountedIn, Once, Follows,
        LongGrown;
      FollowsSelf(Books());
      Rotate(wheel);
      FollowsFresh(old(Books()), old(Books()), Books());
      ghost var mid := Books();
      order := Drain();
      FollowsOn(old(Books()), mid, Books());
    }

    /** The moment of the minute pop on a tick that has none. */
    ghost method SkipMinutePop()
      requires Shape() && draining == {} && now % 2 == 0 && tick % SECONDS_PER_MINUTE != 0
      modifies this`now
      ensures Shape() && Abs() == Advance(old(Abs())) && now == old(now) + 1
    {
      NoMinutePop(wheels, now);
      NothingDraining(wheels);
      hide AgendaOf, ParkedIn, MinutesPopped, Sizes, SlotsOk;
      now := now + 1;
    }

    /** What `onTime` does after the seconds pop. The second and third branch can never be taken: 60 divides 3600
        and 86400, so the hour and day wheels are never popped. */
    method PopLonger() returns (ghost second: seq<nat>)
      requires Shape() && Counted() && draining == {} && now % 2 == 0 && Valid(Abs()) && Valid(Advance(Abs()))
      modifies this
      ensures Shape() && draining == {} && tick == old(tick) && lastTime == old(lastTime)
      ensures Counted() && Follows(old(Books()), Books())
      ensures IsOrderOf(second, DueNow(Advance(old(Abs()))))
      ensures Abs() == if old(now) / 2 % SECONDS_PER_MINUTE == 0 then ExpireAll(Advance(old(Abs())), second)
                       else Advance(old(Abs()))
    {
      ghost var d := Abs();
      if tick % SECONDS_PER_MINUTE != 0 { NothingDueThen(d); }
      FollowsSelf(Books());
      hide Valid, ExpireAll, MinutesPopped, AgendaOf, SlotsOk, ParkedIn, DueNow, IsOrderOf, CountedIn, Once, Follows,
        LongGrown;
      if tick % SECONDS_PER_MINUTE == 0 {
        second := PopUp(MINUTES);
      } else {
        HourAndDayTicksStartMinutes(tick);
        if tick % SECONDS_PER_HOUR == 0 {
          assert false;
        } else if tick % SECONDS_PER_DAY == 0 {
          assert false;
        }
        SkipMinutePop();
        second := [];
      }
    }

    /** A tick */
    method OnTime(time: int) returns (ghost first: seq<nat>, ghost second: seq<nat>)
      requires Shape() && Counted() && Idle(Abs()) && draining == {}
      modifies this
      ensures Shape() && Idle(Abs()) && draining == {} && tick == old(tick) + 1 && lastTime == time
      ensures Counted() && Follows(old(Books()), Books())
      ensures Enabled(old(Abs()), Event.OnTime(first, second))
      ensures Abs() == Step(old(Abs()), Event.OnTime(first, second))
    {
      ghost var c := Abs();
      hide Valid, Idle, ExpireAll, MinutesPopped, AgendaOf, SlotsOk, ParkedIn, DueNow, IsOrderOf, Step, Enabled,
        CountedIn, Once, Follows, LongGrown;
      BeforeTick(c);
      lastTime := time;
      tick := tick + 1;
      first := PopUp(SECONDS);
      ghost var d := Abs();
      AfterFirstPop(c, d, first);
      ghost var mid := Books();
      second := PopLonger();
      FollowsOn(old(Books()), mid, Books());
      AfterSecondPop(c, d, Abs(), first, second);
    }
  }

  lemma NothingCounted(wheels: seq<Wheel>)
    requires Sizes(wheels) && forall k, i :: 0 <= k < 4 && 0 <= i < |wheels[k]| ==> wheels[k][i] == {}
    ensures CountedIn(wheels, {}, multiset{}, 0)
  {
    forall n: nat ensures EntryCount(wheels, {}, n) == 0 {
      EmptyWheelCount(wheels[SECONDS], n);
      EmptyWheelCount(wheels[MINUTES], n);
      EmptyWheelCount(wheels[HOURS], n);
      EmptyWheelCount(wheels[DAYS], n);
      assert (set e: Entry | e in {} && e.node == n) == {};
    }
  }

  lemma BeforeTick(c: Calendar)
    requires Idle(c)
    ensures Valid(Advance(c)) && c.now % 2 == 1
  {
    AdvanceOk(c);
  }

  lemma AfterFirstPop(c: Calendar, d: Calendar, first: seq<nat>)
    requires Idle(c) && IsOrderOf(first, DueNow(Advance(c))) && d == ExpireAll(Advance(c), first)
    ensures Valid(d) && Valid(Advance(d)) && d.now == c.now + 1 && d.now % 2 == 0
  {
    PopOk(c, first, 0);
    AdvanceOk(d);
  }

  lemma AfterSecondPop(c: Calendar, d: Calendar, e: Calendar, first: seq<nat>, second: seq<nat>)
    requires Idle(c) && IsOrderOf(first, DueNow(Advance(c))) && d == ExpireAll(Advance(c), first)
    requires IsOrderOf(second, DueNow(Advance(d)))
    requires e == if d.now / 2 % SECONDS_PER_MINUTE == 0 then ExpireAll(Advance(d), second) else Advance(d)
    ensures Enabled(c, Event.OnTime(first, second)) && e == Step(c, Event.OnTime(first, second)) && Idle(e)
  {
    TickOk(c, first, second, 0);
  }

  lemma StaysLive(c: Calendar, n: nat)
    requires Valid(c) && n in c.jobs
    ensures Settle(c, n, c.jobs[n]) == c
  {
  }

  lemma LiveHasJob(c: Calendar, pair: (nat, nat))
    requires Valid(c) && pair in c.agenda
    ensures pair.1 in c.jobs && pair.1 < c.next && Live(c, pair.1)
    ensures pair.0 == c.now ==> pair.1 in DueNow(c)
  {
    assert Live(c, pair.1);
  }

  lemma HourAndDayTicksStartMinutes(t: nat)
    ensures t % SECONDS_PER_HOUR == 0 || t % SECONDS_PER_DAY == 0 ==> t % SECONDS_PER_MINUTE == 0
  {
    if t % SECONDS_PER_HOUR == 0 { ModUnique(t, SECONDS_PER_MINUTE, 60 * (t / SECONDS_PER_HOUR), 0); }
    if t % SECONDS_PER_DAY == 0 { ModUnique(t, SECONDS_PER_MINUTE, 1440 * (t / SECONDS_PER_DAY), 0); }
  }

  lemma NothingLeft(wheels: seq<Wheel>, now: Instant)
    requires |wheels| == 4
    requires forall i, e :: 0 <= i < |wheels[MINUTES]| && e in wheels[MINUTES][i] ==> e.Wrapper?
    ensures forall p <- AgendaOf(wheels, {}, now) :: now < p.0
  {
    WheelAgendaLater(wheels[SECONDS], now / 2 + 1, 1);
    WrapperAgendaLater(wheels[MINUTES], SECONDS_PER_MINUTE * (MinutesPopped(now) + 1), SECONDS_PER_MINUTE);
    assert now <= 2 * (SECONDS_PER_MINUTE * (MinutesPopped(now) + 1));
  }

  lemma NothingDueThen(d: Calendar)
    requires Valid(d) && d.now % 2 == 0 && d.now / 2 % SECONDS_PER_MINUTE != 0
    ensures IsOrderOf([], DueNow(Advance(d)))
  {
    assert (d.now + 1) % 2 == 1 && (d.now + 1) / 2 == d.now / 2;
    forall p <- d.agenda ensures p.0 != d.now + 1 {}
  }
}
