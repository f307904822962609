/** Whole runs of the timing wheel: any sequence of calls on a new wheel, and what they make of the firing laws. */
module WheelRuns {
  import opened Calendar
  import opened CalendarFacts
  import opened CalendarRuns
  import opened TimerLaws
  import opened SeriesLaws
  import opened TimerWheel

  type Word = n: nat | n < 0x1_0000_0000

  datatype Call =
    | Make(task: TimerTask)             // a caller makes a node and keeps a pointer to it
    | Put(node: nat, seconds: Word)     // insertNode, of a node the caller holds
    | LetGo(node: nat)
    | After(delay: int, task: TimerTask)
    | Every(interval: Interval, task: TimerTask)
    | OnTime(time: int)

  /** A call on a node that no caller holds is not made. */
  predicate Made(c: Calendar, call: Call) { call.Put? || call.LetGo? ==> call.node in c.held }

  /** The event that a call is */
  predicate Is(call: Call, e: Event) {
    match call
    case Make(task) => e == Event.Make(task)
    case Put(node, seconds) => e == Event.Put(node, seconds)
    case LetGo(node) => e == Event.LetGo(node)
    case After(delay, task) => e == Event.After(delay, task)
    case Every(interval, task) => e == Event.Every(interval, task)
    case OnTime(_) => e.OnTime?
  }

  /** `es` are the events of the calls that are made, one for each, in their order, from calendar `c` on. */
  ghost predicate Answers(c: Calendar, calls: seq<Call>, es: seq<Event>)
    decreases |calls|
  {
    if calls == [] then es == []
    else if !Made(c, calls[0]) then Answers(c, calls[1..], es)
    else es != [] && Is(calls[0], es[0]) && Enabled(c, es[0]) && Answers(Step(c, es[0]), calls[1..], es[1..])
  }

  lemma {:induction false} AnswersRun(c: Calendar, calls: seq<Call>, es: seq<Event>)
    requires Answers(c, calls, es)
    ensures AllEnabled(c, es)
    decreases |calls|
  {
    if calls != [] {
      if Made(c, calls[0]) { AnswersRun(Step(c, es[0]), calls[1..], es[1..]); }
      else { AnswersRun(c, calls[1..], es); }
    }
  }

  lemma {:induction false} AnswersOn(c: Calendar, calls: seq<Call>, es: seq<Event>, calls': seq<Call>, es': seq<Event>)
    requires Answers(c, calls, es) && Answers(Run(c, es), calls', es')
    ensures Answers(c, calls + calls', es + es') && Run(c, es + es') == Run(Run(c, es), es')
    decreases |calls|
  {
    if calls == [] {
      assert calls + calls' == calls' && es + es' == es';
    } else {
      assert (calls + calls')[1..] == calls[1..] + calls';
      if Made(c, calls[0]) {
        AnswersOn(Step(c, es[0]), calls[1..], es[1..], calls', es');
        assert (es + es')[1..] == es[1..] + es';
      } else {
        AnswersOn(c, calls[1..], es, calls', es');
        if es == [] { assert es + es' == es'; } else { assert (es + es')[0] == es[0]; }
      }
    }
  }

  /** How often the calls have `onTime` called */
  function Ticks(calls: seq<Call>): nat {
    if calls == [] then 0 else (if calls[0].OnTime? then 1 else 0) + Ticks(calls[1..])
  }

  lemma StepNow(c: Calendar, e: Event)
    requires Idle(c) && Enabled(c, e)
    ensures Idle(Step(c, e)) && Step(c, e).now == c.now + if e.OnTime? then 2 else 0
  {
    StepOk(c, e, 0);
    match e
    case LetGo(node) => StepOk(c, e, node);
    case After(delay, task) => RunCommandOk(c, RunAfter(delay, task));
    case Every(interval, task) => RunCommandOk(c, RunEvery(interval, task));
    case OnTime(first, second) => TickOk(c, first, second, 0);
    case _ =>
  }

  lemma {:induction false} TicksCounted(c: Calendar, calls: seq<Call>, es: seq<Event>)
    requires Idle(c) && Answers(c, calls, es)
    ensures Idle(Run(c, es)) && Run(c, es).now == c.now + 2 * Ticks(calls)
    decreases |calls|
  {
    if calls != [] {
      if Made(c, calls[0]) {
        StepNow(c, es[0]);
        TicksCounted(Step(c, es[0]), calls[1..], es[1..]);
      } else {
        TicksCounted(c, calls[1..], es);
      }
    }
  }

  // The calls, on the wheel

  ghost predicate Ready(w: TimerWheel)
    reads w
  {
    w.Shape() && w.Counted() && Idle(w.Abs()) && w.draining == {}
  }

  predicate Starts(call: Call) { (call.After? && Accepted(call.delay)) || call.Every? }

  /** What the calendar does at each call */
  lemma Steps(c: Calendar, e: Event)
    ensures e.Make? || e.After? || e.Every? ==> Enabled(c, e)
    ensures e.Put? || e.LetGo? ==> (Enabled(c, e) <==> e.node in c.held)
    ensures e.Make? ==> Step(c, e) == New(c, Plain(e.task))
    ensures e.Put? ==> Step(c, e) == Insert(c, e.seconds, e.node)
    ensures e.LetGo? && e.node in c.jobs ==> Step(c, e) == Settle(Unhold(c, e.node), e.node, c.jobs[e.node])
    ensures e.After? ==> Step(c, e) == RunCommand(c, RunAfter(e.delay, e.task))
    ensures e.Every? ==> Step(c, e) == RunCommand(c, RunEvery(e.interval, e.task))
  {
  }

  lemma HeldHasJob(c: Calendar, n: nat)
    requires Idle(c) && n in c.held
    ensures n in c.jobs && n < c.next
  {
    assert Live(c, n);
  }

  /** A call on a node that a caller holds */
  method PerformHeld(w: TimerWheel, call: Call) returns (ghost e: Event)
    requires Ready(w) && (call.Put? || call.LetGo?) && call.node in w.held
    modifies w
    ensures w.Shape() && w.Counted() && w.draining == {} && old(w.accepted) <= w.accepted
    ensures Is(call, e) && Enabled(old(w.Abs()), e) && w.Abs() == Step(old(w.Abs()), e)
  {
    ghost var c, books := w.Abs(), w.Books();
    HeldHasJob(c, call.node);
    HeldOnce(w.accepted, w.held, w.next, w.inserted, call.node);
    hide Valid, Idle, Step, Enabled, Insert, AgendaOf, ParkedIn, SlotsOk, CountedIn, Once, Follows, LongGrown, Settle,
      Unhold;
    if call.Put? {
      e := Event.Put(call.node, call.seconds);
      Steps(c, e);
      OnceMore(w.accepted, w.held, w.next, w.inserted, call.node);
      w.InsertNode(call.seconds, call.node);
    } else {
      e := Event.LetGo(call.node);
      Steps(c, e);
      w.LetGo(call.node);
      AcceptedKept(books, w.Books());
    }
  }

  lemma HeldOnce(accepted: set<nat>, held: set<nat>, next: nat, inserted: multiset<nat>, n: nat)
    requires Once(accepted, held, next, inserted) && n in held
    ensures n !in accepted
  {
  }

  lemma AcceptedKept(s: Ledger, t: Ledger)
    requires Follows(s, t)
    ensures s.accepted <= t.accepted
  {
    hide LongGrown;
  }

  method PerformOther(w: TimerWheel, call: Call) returns (ghost e: Event)
    requires Ready(w) && !call.Put? && !call.LetGo?
    modifies w
    ensures w.Shape() && w.Counted() && w.draining == {} && old(w.accepted) <= w.accepted
    ensures Is(call, e) && Enabled(old(w.Abs()), e) && w.Abs() == Step(old(w.Abs()), e)
    ensures Starts(call) ==> old(w.next) in w.accepted
  {
    ghost var c, books := w.Abs(), w.Books();
    hide Valid, Step, Enabled, AgendaOf, ParkedIn, SlotsOk, CountedIn, Once, Follows, LongGrown, RunCommand, New;
    if call.Make? {
      e := Event.Make(call.task);
      Steps(c, e);
      var n := w.MakeNode(Plain(call.task));
      return;
    }
    if call.After? {
      e := Event.After(call.delay, call.task);
      Steps(c, e);
      w.RunAfter(call.delay, call.task);
    } else if call.Every? {
      e := Event.Every(call.interval, call.task);
      Steps(c, e);
      w.RunEvery(call.interval, call.task);
    } else {
      ghost var first, second := w.OnTime(call.time);
      e := Event.OnTime(first, second);
    }
    AcceptedKept(books, w.Books());
  }

  lemma OneAnswer(c: Calendar, call: Call, e: Event)
    requires Idle(c) && Made(c, call) && Is(call, e) && Enabled(c, e)
    ensures Answers(c, [call], [e]) && Run(c, [e]) == Step(c, e) && Idle(Step(c, e))
  {
    StepNow(c, e);
    assert [call][1..] == [] && [e][1..] == [];
    assert Answers(Step(c, e), [], []) && Run(Step(c, e), []) == Step(c, e);
  }

  lemma NoAnswer(c: Calendar, call: Call)
    requires !Made(c, call)
    ensures Answers(c, [call], []) && Run(c, []) == c
  {
    assert [call][1..] == [] && Answers(c, [], []);
  }

  /** One call */
  method Perform(w: TimerWheel, call: Call) returns (ghost e: seq<Event>)
    requires Ready(w)
    modifies w
    ensures Ready(w) && Answers(old(w.Abs()), [call], e) && w.Abs() == Run(old(w.Abs()), e)
    ensures old(w.accepted) <= w.accepted && (Starts(call) ==> old(w.next) in w.accepted)
  {
    ghost var c := w.Abs();
    hide Valid, Idle, Step, Enabled, AgendaOf, ParkedIn, SlotsOk, CountedIn, Once, Answers, Run, Accepted, Is;
    if (call.Put? || call.LetGo?) && call.node !in w.held {
      NoAnswer(c, call);
      e := [];
      return;
    }
    ghost var ev: Event;
    if call.Put? || call.LetGo? { ev := PerformHeld(w, call); } else { ev := PerformOther(w, call); }
    OneAnswer(c, call, ev);
    e := [ev];
  }

  /** Any sequence of calls */
  method PerformAll(w: TimerWheel, calls: seq<Call>) returns (ghost es: seq<Event>)
    requires Ready(w)
    modifies w
    ensures Ready(w) && Answers(old(w.Abs()), calls, es) && w.Abs() == Run(old(w.Abs()), es)
    ensures old(w.accepted) <= w.accepted
  {
    hide Run, Answers, Idle, Valid, AgendaOf, ParkedIn, SlotsOk, CountedIn, Once;
    es := [];
    NothingYet(w.Abs());
    for k := 0 to |calls|
      invariant Ready(w) && Answers(old(w.Abs()), calls[..k], es) && w.Abs() == Run(old(w.Abs()), es)
      invariant old(w.accepted) <= w.accepted
    {
      ghost var e := Perform(w, calls[k]);
      AnswersOn(old(w.Abs()), calls[..k], es, [calls[k]], e);
      assert calls[..k] + [calls[k]] == calls[..k + 1];
      es := es + e;
    }
    assert calls[..|calls|] == calls;
  }

  lemma NothingYet(c: Calendar)
    ensures Answers(c, [], []) && Run(c, []) == c
  {
  }

  /** Any sequence of calls on a new wheel: the wheel does what the calendar does at these calls. Each task that is
      accepted, from a caller or from a task that runs, and each node of a series, has been destroyed and has run
      exactly once, or waits in exactly one slot entry. Which these are, the calendar says. */
  method RunCalls(calls: seq<Call>) returns (w: TimerWheel, ghost es: seq<Event>)
    ensures Ready(w) && Answers(EMPTY, calls, es) && w.Abs() == Run(EMPTY, es)
    ensures forall n <- Run(EMPTY, es).accepted :: OnceOrHeld(w, n)
  {
    hide Run, Answers, Idle, Valid, AgendaOf, ParkedIn, SlotsOk, CountedIn, Once;
    w := new TimerWheel();
    es := PerformAll(w, calls);
    forall n <- w.accepted ensures OnceOrHeld(w, n) { AcceptedOnceOrHeld(w, n); }
  }

  /** The node has fired once and is in no slot, or it has not fired and is in one. */
  ghost predicate OnceOrHeld(w: TimerWheel, n: nat)
    reads w
  {
    && |w.wheels| == 4
    && if n in w.jobs then FiringsOf(w.log, n) == [] && EntryCount(w.wheels, {}, n) == 1
       else |FiringsOf(w.log, n)| == 1 && EntryCount(w.wheels, {}, n) == 0
  }

  lemma AcceptedOnceOrHeld(w: TimerWheel, n: nat)
    requires Ready(w) && n in w.accepted
    ensures OnceOrHeld(w, n)
  {
    assert |FiringsOf(w.Abs().log, n)| == if n < w.Abs().next && n !in w.Abs().jobs then 1 else 0;
    if n in w.jobs { w.HeldByOneEntry(n); } else { w.NoEntry(n); }
  }

  // The firing laws, on the wheel

  lemma IdleFromEmpty()
    ensures Idle(EMPTY) && OriginsOk(EMPTY)
  {
    assert AgendaNodes({}) == {};
  }

  lemma OneEvent(c: Calendar, call: Call, e: seq<Event>)
    requires Answers(c, [call], e) && Made(c, call)
    ensures |e| == 1 && Is(call, e[0]) && Enabled(c, e[0]) && Run(c, e) == Step(c, e[0])
  {
    assert [call][1..] == [] && e[1..] == [];
    assert Run(Step(c, e[0]), []) == Step(c, e[0]);
  }

  /** The events `es` of the calls `before`, `call` and `after` on a new wheel: `e` is that of `call`, which makes
      node `n`. */
  ghost predicate Around(before: seq<Call>, call: Call, after: seq<Call>, es: seq<Event>, e: Event, n: nat) {
    exists k: nat :: k < |es| && Answers(EMPTY, before, es[..k]) && es[k] == e && n == Run(EMPTY, es[..k]).next
                     && Answers(EMPTY, before + [call] + after, es)
  }

  lemma AroundBy(before: seq<Call>, call: Call, after: seq<Call>, first: seq<Event>, e: seq<Event>, rest: seq<Event>)
    requires Answers(EMPTY, before, first) && Answers(Run(EMPTY, first), [call], e) && |e| == 1
    requires Answers(Run(Run(EMPTY, first), e), after, rest)
    ensures Around(before, call, after, first + e + rest, e[0], Run(EMPTY, first).next)
    ensures Run(EMPTY, first + e + rest) == Run(Run(Run(EMPTY, first), e), rest)
  {
    hide Answers, Run;
    AnswersOn(EMPTY, before, first, [call], e);
    AnswersOn(EMPTY, before + [call], first + e, after, rest);
    var es, k := first + e + rest, |first|;
    assert es[..k] == first && es[k] == e[0];
  }

  /** `runAfter` on the wheel: with any calls before and after, which are all made, the task has run once, at the
      closed-form tick, if that tick has come; and its node is among the accepted ones. */
  method RunAfterOnWheel(before: seq<Call>, delay: nat, task: TimerTask, after: seq<Call>)
    returns (w: TimerWheel, ghost es: seq<Event>, ghost n: nat)
    requires 1 <= delay < SECONDS_PER_HOUR
    ensures Ready(w) && w.Abs() == Run(EMPTY, es) && n in w.accepted
    ensures Around(before, Call.After(delay, task), after, es, Event.After(delay, task), n)
    ensures var due := DueTick(Ticks(before), delay);
            FiringsOf(w.log, n) == if due <= Ticks(before) + Ticks(after) then [Firing(due, n, n, task)] else []
  {
    hide Run, Answers, Around, Idle, Valid, AgendaOf, ParkedIn, SlotsOk, CountedIn, Once;
    w := new TimerWheel();
    ghost var first := PerformAll(w, before);
    n := w.next;
    ghost var c := w.Abs();
    ghost var e := Perform(w, Call.After(delay, task));
    ghost var rest := PerformAll(w, after);
    es := first + e + rest;
    OneEvent(c, Call.After(delay, task), e);
    AroundBy(before, Call.After(delay, task), after, first, e, rest);
    AfterAnswered(before, delay, task, after, first, e, rest, c);
  }

  lemma AfterAnswered(before: seq<Call>, delay: nat, task: TimerTask, after: seq<Call>,
                      first: seq<Event>, e: seq<Event>, rest: seq<Event>, c: Calendar)
    requires 1 <= delay < SECONDS_PER_HOUR && Answers(EMPTY, before, first) && c == Run(EMPTY, first)
    requires Answers(c, [Call.After(delay, task)], e) && Answers(Run(c, e), after, rest)
    ensures var due := DueTick(Ticks(before), delay);
            FiringsOf(Run(Run(c, e), rest).log, c.next)
            == if due <= Ticks(before) + Ticks(after) then [Firing(due, c.next, c.next, task)] else []
  {
    hide Answers, Run, Idle, AllEnabled, Step, Enabled, FiringsOf, DueTick, OriginsOk;
    IdleFromEmpty();
    TicksCounted(EMPTY, before, first);
    OneEvent(c, Call.After(delay, task), e);
    StepNow(c, e[0]);
    AnswersRun(Run(c, e), after, rest);
    TicksCounted(Run(c, e), after, rest);
    RunAfterFiresOnce(c, delay, task, rest);
  }

  /** `runEvery` on the wheel, in the same way: the runs of the series are exactly those whose closed-form ticks
      have come. */
  method RunEveryOnWheel(before: seq<Call>, interval: Interval, task: TimerTask, after: seq<Call>)
    returns (w: TimerWheel, ghost es: seq<Event>, ghost n: nat, ghost runs: nat)
    requires interval < SECONDS_PER_HOUR
    ensures Ready(w) && w.Abs() == Run(EMPTY, es) && n in w.accepted
    ensures Around(before, Call.Every(interval, task), after, es, Event.Every(interval, task), n)
    ensures OriginTicks(w.log, n) == SeriesTicks(Ticks(before), interval, runs)
    ensures 0 < runs ==> SeriesTick(Ticks(before), interval, runs) <= Ticks(before) + Ticks(after)
    ensures Ticks(before) + Ticks(after) < SeriesTick(Ticks(before), interval, runs + 1)
  {
    hide Run, Answers, Around, Idle, Valid, AgendaOf, ParkedIn, SlotsOk, CountedIn, Once, SeriesTick, SeriesTicks,
      OriginTicks;
    w := new TimerWheel();
    ghost var first := PerformAll(w, before);
    n := w.next;
    ghost var c := w.Abs();
    ghost var e := Perform(w, Call.Every(interval, task));
    ghost var rest := PerformAll(w, after);
    es := first + e + rest;
    OneEvent(c, Call.Every(interval, task), e);
    AroundBy(before, Call.Every(interval, task), after, first, e, rest);
    runs := EveryAnswered(before, interval, task, after, first, e, rest, c);
  }

  lemma EveryAnswered(before: seq<Call>, interval: Interval, task: TimerTask, after: seq<Call>,
                      first: seq<Event>, e: seq<Event>, rest: seq<Event>, c: Calendar) returns (runs: nat)
    requires interval < SECONDS_PER_HOUR && Answers(EMPTY, before, first) && c == Run(EMPTY, first)
    requires Answers(c, [Call.Every(interval, task)], e) && Answers(Run(c, e), after, rest)
    ensures OriginTicks(Run(Run(c, e), rest).log, c.next) == SeriesTicks(Ticks(before), interval, runs)
    ensures 0 < runs ==> SeriesTick(Ticks(before), interval, runs) <= Ticks(before) + Ticks(after)
    ensures Ticks(before) + Ticks(after) < SeriesTick(Ticks(before), interval, runs + 1)
  {
    hide Answers, Run, Idle, AllEnabled, Step, Enabled, SeriesTick, SeriesTicks, OriginTicks, OriginsOk;
    IdleFromEmpty();
    AnswersRun(EMPTY, before, first);
    TicksCounted(EMPTY, before, first);
    OneEvent(c, Call.Every(interval, task), e);
    StepNow(c, e[0]);
    AnswersRun(Run(c, e), after, rest);
    TicksCounted(Run(c, e), after, rest);
    RunEveryClosedForm(first, interval, task, rest, c, Run(Run(c, e), rest));
    var r: nat :| RanExactly(Run(Run(c, e), rest), c.next, c.now / 2, interval, r);
    runs := r;
  }
}
