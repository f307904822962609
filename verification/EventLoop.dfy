/** The event loop's task queue as a state machine: the loop thread, any number of producer threads, and the
    eventfd that wakes the loop. Each step is one atomic action of one thread. */
module EventLoop {

  /** Where the loop thread is. `Testing` is about to read m_quit; `Handling(ready)` runs the callbacks of the
      active channels, the wake-up channel being still among them if `ready`; `Calling` is about to swap the
      pending functors out. */
  datatype Place = Outside | Testing | Polling | Handling(ready: bool) | Calling | Running

  /** `batch` are the functors swapped out and not yet run. `inFlight` counts the other threads between
      their push (or their m_quit = true) and their wakeup(); `selfWaking` says the same of the loop thread.
      `queued` and `executed` list functors in the order of their pushes and of their runs; `early` tells of each
      push whether the loop thread made it outside loop(); and `mark` is how many functors had been pushed when
      poll last returned. */
  datatype Loop<F> = Loop(
    place: Place,
    pending: seq<F>,
    batch: seq<F>,
    counter: nat,
    callingPending: bool,
    quit: bool,
    inFlight: nat,
    selfWaking: bool,
    queued: seq<F>,
    executed: seq<F>,
    early: seq<bool>,
    mark: nat
  )

  datatype Step<F> =
    | Enter                  // loop(): m_quit = false
    | Test                   // while (!m_quit)
    | PollReturn(ready: bool)
    | ReadEventFd
    | StartCalls             // m_callingPendingFunctors = true
    | Swap
    | RunOne
    | EndCalls               // m_callingPendingFunctors = false
    | QueueHere(f: F)        // queueInLoop by the loop thread: the push
    | WakeHere               // and its wakeup()
    | QueueElsewhere(f: F)   // queueInLoop or runInLoop by another thread: the push
    | WakeElsewhere          // wakeup() by another thread that has pushed or quit
    | QuitHere
    | QuitElsewhere

  const MAX_COUNTER: nat := 0xffff_ffff_ffff_fffe

  function Init<F>(): Loop<F> {
    Loop(Outside, [], [], 0, false, false, 0, false, [], [], [], 0)
  }

  predicate Enabled<F>(l: Loop<F>, s: Step<F>) {
    match s
    case Enter => l.place.Outside?
    case Test => l.place.Testing?
    case PollReturn(ready) => l.place.Polling? && (ready ==> 0 < l.counter)
    case ReadEventFd => l.place == Handling(true)
    case StartCalls => l.place == Handling(false)
    case Swap => l.place.Calling?
    case RunOne => l.place.Running? && l.batch != [] && !l.selfWaking
    case EndCalls => l.place.Running? && l.batch == [] && !l.selfWaking
    case QueueHere(_) => (l.place.Outside? || l.place.Handling? || l.place.Running?) && !l.selfWaking
    case WakeHere => l.selfWaking
    case QueueElsewhere(_) => true
    case WakeElsewhere => 0 < l.inFlight
    case QuitHere => l.place.Outside? || l.place.Handling? || (l.place.Running? && !l.selfWaking)
    case QuitElsewhere => true
  }

  /** write(eventfd, 1): it fails without blocking when the counter is full. */
  function Signalled(counter: nat): nat {
    if counter < MAX_COUNTER then counter + 1 else counter
  }

  function Next<F>(l: Loop<F>, s: Step<F>): Loop<F>
    requires Enabled(l, s)
  {
    match s
    case Enter => l.(place := Testing, quit := false)
    case Test => l.(place := if l.quit then Outside else Polling)
    case PollReturn(ready) => l.(place := Handling(ready), mark := |l.queued|)
    case ReadEventFd => l.(place := Handling(false), counter := 0)
    case StartCalls => l.(place := Calling, callingPending := true)
    case Swap => l.(place := Running, batch := l.pending, pending := [])
    case RunOne => l.(batch := l.batch[1..], executed := l.executed + [l.batch[0]])
    case EndCalls => l.(place := Testing, callingPending := false)
    case QueueHere(f) =>
      l.(pending := l.pending + [f], queued := l.queued + [f], early := l.early + [l.place.Outside?],
         selfWaking := l.callingPending)
    case WakeHere => l.(selfWaking := false, counter := Signalled(l.counter))
    case QueueElsewhere(f) =>
      l.(pending := l.pending + [f], queued := l.queued + [f], early := l.early + [false], inFlight := l.inFlight + 1)
    case WakeElsewhere => l.(inFlight := l.inFlight - 1, counter := Signalled(l.counter))
    case QuitHere => l.(quit := true)
    case QuitElsewhere => l.(quit := true, inFlight := l.inFlight + 1)
  }

  /** `steps` lead from `l` to `r`. In a disciplined run the loop thread queues nothing outside loop(). */
  ghost predicate Runs<F>(l: Loop<F>, steps: seq<Step<F>>, r: Loop<F>, disciplined: bool)
    decreases |steps|
  {
    if steps == [] then l == r
    else
      && Enabled(l, steps[0])
      && (disciplined ==> !(l.place.Outside? && steps[0].QueueHere?))
      && Runs(Next(l, steps[0]), steps[1..], r, disciplined)
  }

  // What the steps of a run say, told from their arguments alone

  /** The functor that a step queues */
  function Push<F>(s: Step<F>): seq<F> {
    match s
    case QueueHere(f) => [f]
    case QueueElsewhere(f) => [f]
    case _ => []
  }

  /** The functors queued by a run, in the order of its steps */
  function Pushes<F>(steps: seq<Step<F>>): seq<F> {
    if steps == [] then [] else Push(steps[0]) + Pushes(steps[1..])
  }

  /** Whether the loop thread is outside loop(), and whether quit() has been called since loop() was entered. */
  datatype Asked = Asked(outside: bool, quit: bool)

  function After<F>(a: Asked, s: Step<F>): Asked {
    match s
    case Enter => Asked(false, false)
    case Test => a.(outside := a.quit)
    case QuitHere => a.(quit := true)
    case QuitElsewhere => a.(quit := true)
    case _ => a
  }

  function AfterAll<F>(a: Asked, steps: seq<Step<F>>): Asked
    decreases |steps|
  {
    if steps == [] then a else AfterAll(After(a, steps[0]), steps[1..])
  }

  /** For each functor queued: was it by the loop thread, outside loop()? */
  function Early<F>(a: Asked, s: Step<F>): (r: seq<bool>)
    ensures |r| == |Push(s)|
  {
    match s
    case QueueHere(_) => [a.outside]
    case QueueElsewhere(_) => [false]
    case _ => []
  }

  function EarlyPushes<F>(a: Asked, steps: seq<Step<F>>): (r: seq<bool>)
    ensures |r| == |Pushes(steps)|
    decreases |steps|
  {
    if steps == [] then [] else Early(a, steps[0]) + EarlyPushes(After(a, steps[0]), steps[1..])
  }

  lemma StepRecords<F>(l: Loop<F>, s: Step<F>)
    requires Enabled(l, s)
    ensures Next(l, s).queued == l.queued + Push(s)
    ensures Next(l, s).early == l.early + Early(Asked(l.place.Outside?, l.quit), s)
    ensures Asked(Next(l, s).place.Outside?, Next(l, s).quit) == After(Asked(l.place.Outside?, l.quit), s)
  {
  }

  /** Queueing queues: a run's queue, its record of who queued early, and m_quit are what its steps ask for. */
  lemma {:induction false} RunRecords<F>(l: Loop<F>, steps: seq<Step<F>>, r: Loop<F>, disciplined: bool)
    requires Runs(l, steps, r, disciplined)
    ensures r.queued == l.queued + Pushes(steps)
    ensures r.early == l.early + EarlyPushes(Asked(l.place.Outside?, l.quit), steps)
    ensures Asked(r.place.Outside?, r.quit) == AfterAll(Asked(l.place.Outside?, l.quit), steps)
    decreases |steps|
  {
    hide Next, Enabled, Push, Early, After;
    if steps != [] {
      var s, a := steps[0], Asked(l.place.Outside?, l.quit);
      StepRecords(l, s);
      RunRecords(Next(l, s), steps[1..], r, disciplined);
      assert r.queued == l.queued + (Push(s) + Pushes(steps[1..]));
      assert r.early == l.early + (Early(a, s) + EarlyPushes(After(a, s), steps[1..]));
    }
  }

  // What every step keeps

  /** Functors run in the order of their pushes, each at most once, and none is dropped. */
  ghost predicate Fifo<F>(l: Loop<F>) {
    && l.queued == l.executed + l.batch + l.pending
    && |l.early| == |l.queued|
    && (l.batch != [] ==> l.place.Running?)
  }

  ghost predicate Flags<F>(l: Loop<F>) {
    && (l.callingPending <==> l.place.Calling? || l.place.Running?)
    && (l.selfWaking ==> l.place.Running?)
  }

  /** A wake-up that poll will see has been written or is about to be. */
  ghost predicate WakeComing<F>(l: Loop<F>) { 0 < l.counter || 0 < l.inFlight || l.selfWaking }

  /** The i-th push is pending, and was not made by the loop thread outside loop(). */
  ghost predicate Owed<F>(l: Loop<F>, i: nat) {
    |l.executed| + |l.batch| <= i < |l.early| && !l.early[i]
  }

  ghost predicate NoLostWakeup<F>(l: Loop<F>) {
    && (forall i: nat :: Owed(l, i) && !l.place.Handling? && !l.place.Calling? ==> WakeComing(l))
    && (l.quit && l.place.Polling? ==> WakeComing(l))
  }

  ghost predicate NoneEarly<F>(l: Loop<F>) { forall i :: 0 <= i < |l.early| ==> !l.early[i] }

  /** What had been queued when poll returned has run before the loop polls again. */
  ghost predicate Timely<F>(l: Loop<F>) {
    && l.mark <= |l.queued|
    && (l.place.Running? ==> l.mark <= |l.executed| + |l.batch|)
    && (l.place.Polling? || l.place.Outside? || l.place.Testing? ==> l.mark <= |l.executed|)
  }

  lemma FifoStep<F>(l: Loop<F>, s: Step<F>)
    requires Fifo(l) && Flags(l) && Timely(l) && Enabled(l, s)
    ensures Fifo(Next(l, s)) && Flags(Next(l, s)) && Timely(Next(l, s))
  {
    match s
    case RunOne => assert l.executed + l.batch == (l.executed + [l.batch[0]]) + l.batch[1..];
    case Swap => assert l.executed + l.batch + l.pending == l.executed + l.pending;
    case QueueHere(f) => assert l.executed + l.batch + (l.pending + [f]) == l.executed + l.batch + l.pending + [f];
    case QueueElsewhere(f) => assert l.executed + l.batch + (l.pending + [f]) == l.executed + l.batch + l.pending + [f];
    case _ =>
  }

  lemma WakeupStep<F>(l: Loop<F>, s: Step<F>)
    requires Fifo(l) && Flags(l) && NoLostWakeup(l) && Enabled(l, s)
    ensures NoLostWakeup(Next(l, s))
    ensures NoneEarly(l) && !(l.place.Outside? && s.QueueHere?) ==> NoneEarly(Next(l, s))
  {
    var r := Next(l, s);
    forall i: nat | Owed(r, i) && !r.place.Handling? && !r.place.Calling? ensures WakeComing(r) {
      if i < |l.early| && !s.Swap? { assert Owed(l, i); }
    }
  }

  lemma {:induction false} RunKeeps<F>(l: Loop<F>, steps: seq<Step<F>>, r: Loop<F>, disciplined: bool)
    requires Fifo(l) && Flags(l) && Timely(l) && NoLostWakeup(l) && Runs(l, steps, r, disciplined)
    ensures Fifo(r) && Flags(r) && Timely(r) && NoLostWakeup(r)
    ensures disciplined && NoneEarly(l) ==> NoneEarly(r)
    decreases |steps|
  {
    if steps != [] {
      FifoStep(l, steps[0]);
      WakeupStep(l, steps[0]);
      RunKeeps(Next(l, steps[0]), steps[1..], r, disciplined);
    }
  }

  // Results, for every interleaving of producers with the loop

  lemma {:induction false} MarkGrows<F>(l: Loop<F>, steps: seq<Step<F>>, r: Loop<F>)
    requires Timely(l) && Fifo(l) && Flags(l) && Runs(l, steps, r, false)
    ensures l.mark <= r.mark
    decreases |steps|
  {
    if steps != [] {
      FifoStep(l, steps[0]);
      MarkGrows(Next(l, steps[0]), steps[1..], r);
    }
  }

  /** When poll returns, the mark passes everything queued before. */
  lemma {:induction false} PollMarks<F>(l: Loop<F>, steps: seq<Step<F>>, r: Loop<F>, i: nat)
    requires Timely(l) && Fifo(l) && Flags(l) && Runs(l, steps, r, false) && i < |steps| && steps[i].PollReturn?
    ensures |l.queued| + |Pushes(steps[..i])| <= r.mark
    decreases |steps|
  {
    FifoStep(l, steps[0]);
    if i == 0 {
      MarkGrows(Next(l, steps[0]), steps[1..], r);
    } else {
      StepRecords(l, steps[0]);
      PollMarks(Next(l, steps[0]), steps[1..], r, i - 1);
      assert steps[..i][0] == steps[0] && steps[..i][1..] == steps[1..][..i - 1];
    }
  }

  lemma {:induction false} PushesPrefix<F>(steps: seq<Step<F>>, i: nat)
    requires i <= |steps|
    ensures Pushes(steps[..i]) <= Pushes(steps)
    decreases |steps|
  {
    if i > 0 {
      PushesPrefix(steps[1..], i - 1);
      assert steps[..i][0] == steps[0] && steps[..i][1..] == steps[1..][..i - 1];
    }
  }

  /** Whatever has run, is about to run, or is pending, is what the steps have queued, each functor once and in
      the order of the pushes; and when the loop polls again, or leaves, everything that had been queued before
      poll returned has run. */
  lemma ExecutedInOrder<F>(steps: seq<Step<F>>, l: Loop<F>)
    requires Runs(Init(), steps, l, false)
    ensures l.executed + l.batch + l.pending == Pushes(steps)
    ensures forall i :: 0 <= i < |steps| && steps[i].PollReturn? && (l.place.Polling? || l.place.Outside?)
                        ==> Pushes(steps[..i]) <= l.executed
  {
    RunKeeps(Init(), steps, l, false);
    RunRecords(Init(), steps, l, false);
    assert [] + Pushes(steps) == Pushes(steps);
    forall i | 0 <= i < |steps| && steps[i].PollReturn? && (l.place.Polling? || l.place.Outside?)
      ensures Pushes(steps[..i]) <= l.executed
    {
      PollMarks(Init(), steps, l, i);
      PushesPrefix(steps, i);
    }
  }

  /** No lost wake-up: while the loop is at poll with a functor still to run, or after quit(), the eventfd is
      readable or some thread is about to write it. */
  lemma NoLostWakeups<F>(steps: seq<Step<F>>, l: Loop<F>)
    requires Runs(Init(), steps, l, true) && l.place.Polling?
    ensures l.executed != Pushes(steps) || AfterAll(Asked(true, false), steps).quit ==> 0 < l.counter || 0 < l.inFlight
  {
    RunKeeps(Init(), steps, l, true);
    RunRecords(Init(), steps, l, true);
    assert [] + Pushes(steps) == Pushes(steps);
    if l.pending != [] {
      assert Owed(l, |l.executed| + |l.batch|);
    } else {
      assert l.executed + [] + [] == l.executed;
    }
  }

  /** What a step does to the number of threads with a wakeup() to come, and whether the eventfd is readable then */
  function More<F>(s: Step<F>): int {
    if s.QueueElsewhere? || s.QuitElsewhere? then 1 else if s.WakeElsewhere? then -1 else 0
  }

  predicate Readable<F>(before: bool, s: Step<F>) { s.WakeHere? || s.WakeElsewhere? || (before && !s.ReadEventFd?) }

  /** How many threads have pushed, or set m_quit, and not yet called wakeup(), in a run that begins with `n`. */
  function Outstanding<F>(n: int, steps: seq<Step<F>>): int
    decreases |steps|
  {
    if steps == [] then n
    else
      var s := steps[0];
      Outstanding(n + More(s), steps[1..])
  }

  /** Some thread has called wakeup() since the eventfd was last read. */
  predicate SignalledSinceRead<F>(before: bool, steps: seq<Step<F>>)
    decreases |steps|
  {
    if steps == [] then before
    else
      var s := steps[0];
      SignalledSinceRead(Readable(before, s), steps[1..])
  }

  lemma StepSignals<F>(l: Loop<F>, s: Step<F>)
    requires Enabled(l, s)
    ensures Next(l, s).inFlight == l.inFlight + More(s)
    ensures 0 < Next(l, s).counter <==> Readable(0 < l.counter, s)
  {
  }

  lemma {:induction false} SignalsCounted<F>(l: Loop<F>, steps: seq<Step<F>>, r: Loop<F>, disciplined: bool)
    requires Runs(l, steps, r, disciplined)
    ensures r.inFlight == Outstanding(l.inFlight, steps)
    ensures 0 < r.counter <==> SignalledSinceRead(0 < l.counter, steps)
    decreases |steps|
  {
    hide Next, Enabled, More, Readable;
    if steps != [] {
      StepSignals(l, steps[0]);
      SignalsCounted(Next(l, steps[0]), steps[1..], r, disciplined);
    }
  }

  /** Without that discipline: in every run, functors are left lying at poll exactly when each of them was queued
      by the loop thread outside loop(), nobody has called wakeup() since the eventfd was last read, and nobody
      is between its push and its wakeup(). */
  lemma StrandedIff<F>(steps: seq<Step<F>>, l: Loop<F>)
    requires Runs(Init(), steps, l, false) && l.place.Polling? && l.executed != Pushes(steps)
    ensures l.executed < Pushes(steps)
    ensures !(0 < l.counter || 0 < l.inFlight)
            <==> && (forall i :: |l.executed| <= i < |Pushes(steps)| ==> EarlyPushes(Asked(true, false), steps)[i])
                 && !SignalledSinceRead(false, steps) && Outstanding(0, steps) == 0
  {
    RunKeeps(Init(), steps, l, false);
    SignalsCounted(Init(), steps, l, false);
    RunRecords(Init(), steps, l, false);
    assert [] + Pushes(steps) == Pushes(steps);
    var early := EarlyPushes(Asked(true, false), steps);
    assert [] + early == early == l.early;
    assert l.executed + [] + l.pending == Pushes(steps);
    if !(0 < l.counter || 0 < l.inFlight) {
      forall i | |l.executed| <= i < |early| ensures early[i] { assert !Owed(l, i); }
    }
  }

  lemma ThreeSteps<F>(l: Loop<F>, s: Step<F>, t: Step<F>, u: Step<F>, disciplined: bool)
    requires Enabled(l, s) && Enabled(Next(l, s), t) && Enabled(Next(Next(l, s), t), u)
    requires disciplined ==> !s.QueueHere? && !t.QueueHere? && !u.QueueHere?
    ensures Runs(l, [s, t, u], Next(Next(Next(l, s), t), u), disciplined)
  {
    var steps, r := [s, t, u], Next(Next(Next(l, s), t), u);
    assert steps[1..] == [t, u] && steps[1..][1..] == [u] && steps[1..][1..][1..] == [];
    assert Runs(r, steps[1..][1..][1..], r, disciplined);
    assert Runs(Next(Next(l, s), t), steps[1..][1..], r, disciplined);
    assert Runs(Next(l, s), steps[1..], r, disciplined);
  }

  /** It does happen: such a functor waits, on a loop that nobody else uses, until poll returns for another reason. */
  lemma EarlyQueueingLost<F>(f: F)
    ensures Runs(Init(), [QueueHere(f), Enter, Test],
                 Loop(Polling, [f], [], 0, false, false, 0, false, [f], [], [true], 0), false)
  {
    var l := Next(Init(), QueueHere(f));
    assert l.pending == [f] && l.queued == [f] && l.early == [true];
    ThreeSteps(Init(), QueueHere(f), Enter, Test, false);
  }

  /** A quit() that comes between the assignment of m_quit and its first test is kept: loop() returns without
      polling. */
  lemma QuitBeforeFirstTest<F>(l: Loop<F>)
    requires l.place.Outside?
    ensures Runs(l, [Enter, QuitElsewhere, Test], l.(quit := true, inFlight := l.inFlight + 1), true)
  {
    ThreeSteps(l, Enter, QuitElsewhere, Test, true);
  }

  /** Steps that only carry on what is under way. */
  predicate CarriesOn<F>(s: Step<F>) {
    !(s.QueueHere? || s.QueueElsewhere? || s.QuitHere? || s.QuitElsewhere? || s.Enter?)
  }

  lemma {:induction false} Then<F>(l: Loop<F>, before: seq<Step<F>>, m: Loop<F>, after: seq<Step<F>>, r: Loop<F>)
    requires Runs(l, before, m, true) && Runs(m, after, r, true)
    ensures Runs(l, before + after, r, true)
    decreases |before|
  {
    if before == [] {
      assert before + after == after;
    } else {
      assert (before + after)[1..] == before[1..] + after;
      Then(Next(l, before[0]), before[1..], m, after, r);
    }
  }

  /** The loop left to itself comes back from every place to poll, or leaves; what was in its batch, and
      what was pending before the swap, has then run. */
  lemma {:induction false} ComesBack<F>(l: Loop<F>) returns (steps: seq<Step<F>>, r: Loop<F>)
    requires Fifo(l) && Flags(l) && !l.place.Polling? && !l.place.Outside?
    ensures Runs(l, steps, r, true) && (r.place.Polling? || r.place.Outside?)
    ensures forall i :: 0 <= i < |steps| ==> CarriesOn(steps[i])
    ensures r.queued == l.queued && (r.place.Outside? <==> l.quit)
    ensures r.executed == if l.place.Running? || l.place.Testing? then l.executed + l.batch else l.queued
    decreases match l.place
              case Handling(true) => 4
              case Handling(false) => 3
              case Calling => 2
              case Running => 1
              case _ => 0,
              |l.batch|, l.selfWaking
  {
    var s: Step<F> := match l.place
      case Handling(ready) => if ready then ReadEventFd else StartCalls
      case Calling => Swap
      case Testing => Test
      case _ => if l.selfWaking then WakeHere else if l.batch != [] then RunOne else EndCalls;
    var n := Next(l, s);
    if s.Test? {
      assert Runs(n, [], n, true);
      steps, r := [s], n;
    } else {
      assert s.Swap? ==> l.executed + l.pending == l.queued;
      if s.RunOne? { assert l.executed + l.batch == (l.executed + [l.batch[0]]) + l.batch[1..]; }
      assert Fifo(n) && Flags(n);
      var rest;
      rest, r := ComesBack(n);
      steps := [s] + rest;
    }
  }

  /** Whatever has been queued while the loop polls gets run, and quit() is obeyed, without anyone queueing or
      quitting any more. */
  lemma PendingGetsRun<F>(before: seq<Step<F>>, l: Loop<F>) returns (steps: seq<Step<F>>, r: Loop<F>)
    requires Runs(Init(), before, l, true) && l.place.Polling?
    requires l.executed != Pushes(before) || AfterAll(Asked(true, false), before).quit
    ensures Runs(l, steps, r, true) && forall i :: 0 <= i < |steps| ==> CarriesOn(steps[i])
    ensures r.executed == Pushes(before)
    ensures if AfterAll(Asked(true, false), before).quit then r.place.Outside? else r.place.Polling?
  {
    RunKeeps(Init(), before, l, true);
    RunRecords(Init(), before, l, true);
    assert [] + Pushes(before) == Pushes(before);
    NoLostWakeups(before, l);
    hide Fifo, Flags, Timely, NoLostWakeup, NoneEarly, AfterAll;
    if l.counter == 0 { FifoStep(l, WakeElsewhere); }
    FifoStep(if l.counter > 0 then l else Next(l, WakeElsewhere), PollReturn(true));
    var poll: seq<Step<F>> := [PollReturn(true)];
    var m := if l.counter > 0 then l else Next(l, WakeElsewhere);
    var n := Next(m, PollReturn(true));
    assert poll[1..] == [] && Runs(n, [], n, true);
    assert Runs(m, poll, n, true);
    var first := if l.counter > 0 then poll else [WakeElsewhere] + poll;
    assert ([WakeElsewhere] + poll)[1..] == poll;
    assert Runs(l, first, n, true);
    var rest;
    rest, r := ComesBack(n);
    Then(l, first, n, rest, r);
    steps := first + rest;
  }

  lemma {:induction false} PushesConcat<F>(a: seq<Step<F>>, b: seq<Step<F>>)
    ensures Pushes(a + b) == Pushes(a) + Pushes(b)
    decreases |a|
  {
    if a == [] {
      assert a + b == b;
    } else {
      PushesConcat(a[1..], b);
      assert (a + b)[1..] == a[1..] + b;
    }
  }

  /** A functor that another thread queues while the loop polls can always be queued, wakes the loop, and is run
      after everything queued before it. */
  lemma QueuedGetsRun<F>(before: seq<Step<F>>, l: Loop<F>, f: F) returns (steps: seq<Step<F>>, r: Loop<F>)
    requires Runs(Init(), before, l, true) && l.place.Polling?
    ensures Runs(l, [QueueElsewhere(f)] + steps, r, true) && forall i :: 0 <= i < |steps| ==> CarriesOn(steps[i])
    ensures r.executed == Pushes(before) + [f]
  {
    var post: seq<Step<F>> := [QueueElsewhere(f)];
    var m := Next(l, post[0]);
    assert post[1..] == [] && Runs(m, [], m, true);
    assert Runs(l, post, m, true);
    Then(Init(), before, l, post, m);
    PushesConcat(before, post);
    assert Pushes(post) == [f] by { assert Pushes(post[1..]) == []; }
    ExecutedBound(before, l);
    hide Next, Enabled, Init;
    steps, r := PendingGetsRun(before + post, m);
    Then(l, post, m, steps, r);
  }

  lemma ExecutedBound<F>(before: seq<Step<F>>, l: Loop<F>)
    requires Runs(Init(), before, l, true)
    ensures |l.executed| <= |Pushes(before)|
  {
    RunKeeps(Init(), before, l, true);
    RunRecords(Init(), before, l, true);
  }

  /** A bound on how long an iteration can take */
  function Remaining<F>(l: Loop<F>): nat {
    l.inFlight + (if l.selfWaking then 1 else 0) + |l.batch| + |l.pending|
    + match l.place
      case Polling => 5
      case Handling(ready) => if ready then 4 else 3
      case Calling => 2
      case Running => 1
      case _ => 0
  }

  lemma {:induction false} ExecutedGrows<F>(l: Loop<F>, steps: seq<Step<F>>, r: Loop<F>)
    requires Runs(l, steps, r, false)
    ensures l.executed <= r.executed
    decreases |steps|
  {
    if steps != [] { ExecutedGrows(Next(l, steps[0]), steps[1..], r); }
  }

  lemma {:induction false} EveryRunServes<F>(l: Loop<F>, steps: seq<Step<F>>, r: Loop<F>, n: nat)
    requires Fifo(l) && Flags(l) && Timely(l) && !l.place.Outside? && !l.place.Testing? && n <= |l.queued|
    requires l.place.Running? ==> n <= |l.executed| + |l.batch|
    requires Runs(l, steps, r, false) && (forall i :: 0 <= i < |steps| ==> CarriesOn(steps[i]))
             && Remaining(l) < |steps|
    ensures n <= |r.executed|
    decreases |steps|
  {
    var s := steps[0];
    var m := Next(l, s);
    assert CarriesOn(s);
    if s.EndCalls? {
      ExecutedGrows(m, steps[1..], r);
    } else {
      FifoStep(l, s);
      EveryRunServes(m, steps[1..], r, n);
    }
  }

  /** Every continuation delivers: however the loop and the threads that have still to call wakeup() interleave,
      as soon as they have made more than `Remaining(l)` steps, everything queued by now has run. */
  lemma EveryContinuationDelivers<F>(before: seq<Step<F>>, l: Loop<F>, steps: seq<Step<F>>, r: Loop<F>)
    requires Runs(Init(), before, l, false) && l.place.Polling?
    requires Runs(l, steps, r, false) && (forall i :: 0 <= i < |steps| ==> CarriesOn(steps[i]))
             && Remaining(l) < |steps|
    ensures Pushes(before) <= r.executed
  {
    RunKeeps(Init(), before, l, false);
    RunRecords(Init(), before, l, false);
    assert [] + Pushes(before) == Pushes(before);
    EveryRunServes(l, steps, r, |l.queued|);
    RunKeeps(l, steps, r, false);
    QueuedGrows(l, steps, r);
    hide Remaining, CarriesOn, Flags, NoLostWakeup, Runs, Pushes;
  }

  lemma QueuedGrows<F>(l: Loop<F>, steps: seq<Step<F>>, r: Loop<F>)
    requires Runs(l, steps, r, false)
    ensures l.queued <= r.queued
  {
    RunRecords(l, steps, r, false);
  }

  lemma {:induction false} EveryRunQuits<F>(l: Loop<F>, steps: seq<Step<F>>, r: Loop<F>)
    requires Flags(l) && Fifo(l) && Timely(l) && l.quit && Runs(l, steps, r, false)
    requires forall i :: 0 <= i < |steps| ==> CarriesOn(steps[i])
    requires l.place.Outside? || Remaining(l) < |steps|
    ensures r.place.Outside?
    decreases |steps|
  {
    if steps != [] {
      assert CarriesOn(steps[0]);
      FifoStep(l, steps[0]);
      EveryRunQuits(Next(l, steps[0]), steps[1..], r);
    }
  }

  /** Every continuation obeys: once some thread has called quit() since loop() was entered, loop() has returned as
      soon as the loop and the waking threads have made more than `Remaining(l)` steps. */
  lemma EveryContinuationQuits<F>(before: seq<Step<F>>, l: Loop<F>, steps: seq<Step<F>>, r: Loop<F>)
    requires Runs(Init(), before, l, false) && AfterAll(Asked(true, false), before) == Asked(false, true)
    requires Runs(l, steps, r, false) && (forall i :: 0 <= i < |steps| ==> CarriesOn(steps[i]))
             && Remaining(l) < |steps|
    ensures r.place.Outside?
  {
    RunKeeps(Init(), before, l, false);
    RunRecords(Init(), before, l, false);
    EveryRunQuits(l, steps, r);
  }
}
