/** The firing laws a user of the wheel relies on, over all runs. */
module TimerLaws {
  import opened Calendar
  import opened CalendarFacts
  import opened CalendarRuns

  /** The tick at which a task inserted between ticks, at tick `t`, fires. */
  function DueTick(t: nat, delay: nat): nat {
    if delay < SECONDS_PER_MINUTE then t + delay
    else SECONDS_PER_MINUTE * (t / SECONDS_PER_MINUTE + delay / SECONDS_PER_MINUTE) + delay % SECONDS_PER_MINUTE
  }

  /** The tick at which a task inserted during the seconds pop of tick `t` fires. */
  function ReentrantDueTick(t: nat, delay: nat): int {
    if delay < SECONDS_PER_MINUTE then t + delay else t + delay - ((t - 1) % SECONDS_PER_MINUTE + 1)
  }

  /** Never late; early by the seconds that had already passed of the current minute. */
  lemma NeverLate(t: nat, delay: nat)
    ensures DueTick(t, delay) == t + delay - if delay < SECONDS_PER_MINUTE then 0 else t % SECONDS_PER_MINUTE
  {
  }

  lemma DueInstantIdle(now: Instant, delay: nat)
    requires now % 2 == 1 && 1 <= delay < SECONDS_PER_HOUR
    ensures DueInstant(now, delay) / 2 == DueTick(now / 2, delay)
  {
    assert MinutesPopped(now) == now / 2 / SECONDS_PER_MINUTE;
  }

  lemma DueInstantReentrant(now: Instant, delay: nat)
    requires now % 2 == 0 && 1 <= delay < SECONDS_PER_HOUR
    ensures DueInstant(now, delay) / 2 == ReentrantDueTick(now / 2, delay)
  {
    assert MinutesPopped(now) == (now / 2 - 1) / SECONDS_PER_MINUTE;
  }

  lemma HalfOrder(now: nat, instant: nat)
    requires now % 2 == 1
    ensures now < instant <==> now / 2 < instant / 2
  {
  }

  lemma InsertShort(c: Calendar, delay: nat, n: nat)
    requires 1 <= delay < SECONDS_PER_HOUR
    ensures Insert(c, U32(delay), n) == c.(agenda := c.agenda + {(DueInstant(c.now, delay), n)})
  {
  }

  /** A node that was inserted survives its maker's pointer. */
  lemma SettleKept(c: Calendar, task: TimerTask, due: nat)
    ensures var d := Unhold(New(c, Plain(task)).(agenda := c.agenda + {(due, c.next)}), c.next);
            Settle(d, c.next, Plain(task)) == d
  {
    AgendaNodesAdd(c.agenda, due, c.next);
  }

  /** The node made by `runAfter` has that one appointment and no other reference. */
  lemma RunAfterMakes(c: Calendar, delay: nat, task: TimerTask)
    requires Valid(c) && 1 <= delay < SECONDS_PER_HOUR
    ensures var d := RunCommand(c, RunAfter(delay, task));
            && Valid(d) && d.now == c.now && c.next < d.next
            && c.next in d.jobs && d.jobs[c.next] == Plain(task)
            && c.next !in d.held && c.next !in d.parked && c.next in d.accepted
            && d.agenda == c.agenda + {(DueInstant(c.now, delay), c.next)}
            && IsLast(d, c.next, DueInstant(c.now, delay))
  {
    var due := DueInstant(c.now, delay);
    InsertShort(New(c, Plain(task)), delay, c.next);
    SettleKept(c, task, due);
    var d := RunCommand(c, RunAfter(delay, task));
    var e := Unhold(New(c, Plain(task)).(agenda := c.agenda + {(due, c.next)}), c.next);
    assert d == Accept(e, delay, c.next);
    hide Settle, Insert;
    RunCommandOk(c, RunAfter(delay, task));
    NewOk(c, Plain(task));
  }

  /** `runAfter` between ticks, for every delay below an hour and every run that follows. */
  lemma RunAfterFiresOnce(c: Calendar, delay: nat, task: TimerTask, es: seq<Event>)
    requires Idle(c) && 1 <= delay < SECONDS_PER_HOUR
    requires AllEnabled(Step(c, After(delay, task)), es)
    ensures var d := Run(Step(c, After(delay, task)), es);
            var due := DueTick(c.now / 2, delay);
            FiringsOf(d.log, c.next) == if due <= d.now / 2 then [Firing(due, c.next, c.next, task)] else []
  {
    RunAfterMakes(c, delay, task);
    StepOk(c, After(delay, task), 0);
    FiresOnceAtLastDue(Step(c, After(delay, task)), es, c.next, DueInstant(c.now, delay));
    DueInstantIdle(c.now, delay);
    HalfOrder(Run(Step(c, After(delay, task)), es).now, DueInstant(c.now, delay));
  }

  /** The node has that one appointment, and no reference but that. */
  ghost predicate Scheduled(c: Calendar, n: nat, task: TimerTask, last: nat) {
    n in c.jobs && c.jobs[n] == Plain(task) && n !in c.held && n !in c.parked && IsLast(c, n, last)
  }

  lemma ScheduledKept(c: Calendar, d: Calendar, n: nat, task: TimerTask, last: nat)
    requires Extends(c, d) && n < c.next && Scheduled(c, n, task, last)
    ensures Scheduled(d, n, task, last)
  {
    assert ((last, n) in d.agenda) == ((last, n) in c.agenda);
    forall k: nat | (k, n) in d.agenda ensures k <= last { assert (k, n) in c.agenda; }
  }

  lemma {:induction false} CommandsConcat(c: Calendar, a: seq<Command>, b: seq<Command>)
    ensures RunCommands(c, a + b) == RunCommands(RunCommands(c, a), b)
    decreases |a|
  {
    if a == [] {
      assert a + b == b;
    } else {
      assert (a + b)[0] == a[0] && (a + b)[1..] == a[1..] + b;
      CommandsConcat(RunCommand(c, a[0]), a[1..], b);
    }
  }

  predicate Short(delay: int) { 1 <= U32(delay) < SECONDS_PER_HOUR }

  /** The appointments that a list of delays gives */
  function DuesOf(now: Instant, delays: seq<int>): set<nat> {
    set i | 0 <= i < |delays| && Short(delays[i]) :: DueInstant(now, U32(delays[i]))
  }

  /** The command makes one node for `task`, whose last appointment is at instant `last`. */
  ghost predicate Schedules(cmd: Command, now: Instant, task: TimerTask, last: nat) {
    match cmd
    case RunAfter(delay, t) => t == task && Short(delay) && last == DueInstant(now, U32(delay))
    case Share(delays, t) =>
      && t == task && (forall delay <- delays :: Accepted(delay) ==> Short(delay))
      && last in DuesOf(now, delays) && forall k <- DuesOf(now, delays) :: k <= last
    case RunEvery(_, _) => false
  }

  lemma {:induction false} InsertAllShort(c: Calendar, delays: seq<int>, n: nat)
    requires forall delay <- delays :: Accepted(delay) ==> Short(delay)
    ensures var d := InsertAll(c, delays, n);
            && d == c.(agenda := d.agenda)
            && forall p: (nat, nat) :: p in d.agenda <==> p in c.agenda || (p.1 == n && p.0 in DuesOf(c.now, delays))
    decreases |delays|
  {
    if delays != [] {
      InsertAllShort(Insert(c, U32(delays[0]), n), delays[1..], n);
      DuesSplit(c.now, delays);
      assert Accepted(delays[0]) ==> Short(delays[0]);
    }
  }

  lemma DuesSplit(now: Instant, delays: seq<int>)
    requires delays != []
    ensures DuesOf(now, delays)
         == (if Short(delays[0]) then {DueInstant(now, U32(delays[0]))} else {}) + DuesOf(now, delays[1..])
  {
    forall k | k in DuesOf(now, delays[1..]) ensures k in DuesOf(now, delays) {
      var i :| 0 <= i < |delays| - 1 && Short(delays[1..][i]) && k == DueInstant(now, U32(delays[1..][i]));
      assert delays[i + 1] == delays[1..][i];
    }
    forall k | k in DuesOf(now, delays)
      ensures k in DuesOf(now, delays[1..]) || (Short(delays[0]) && k == DueInstant(now, U32(delays[0]))) {
      var i :| 0 <= i < |delays| && Short(delays[i]) && k == DueInstant(now, U32(delays[i]));
      if i > 0 { assert delays[1..][i - 1] == delays[i]; }
    }
  }

  /** A shared node, made between or in ticks, has exactly the appointments of its delays. */
  lemma ShareMakes(c: Calendar, delays: seq<int>, task: TimerTask, last: nat)
    requires Valid(c) && Schedules(Share(delays, task), c.now, task, last)
    ensures var d := RunCommand(c, Share(delays, task)); c.next < d.next && Scheduled(d, c.next, task, last)
  {
    var n, c0 := c.next, New(c, Plain(task));
    NewOk(c, Plain(task));
    InsertAllShort(c0, delays, n);
    var d := Unhold(InsertAll(c0, delays, n), n);
    assert (last, n) in d.agenda && (last, n).1 in AgendaNodes(d.agenda);
    assert Settle(d, n, Plain(task)) == d;
    forall k: nat | (k, n) in d.agenda ensures k <= last { assert (k, n) !in c.agenda; }
  }

  lemma CommandSchedules(c: Calendar, cmd: Command, task: TimerTask, last: nat)
    requires Valid(c) && Schedules(cmd, c.now, task, last)
    ensures var d := RunCommand(c, cmd); c.next < d.next && Scheduled(d, c.next, task, last)
  {
    match cmd
    case RunAfter(delay, _) =>
      U32Again(delay);
      RunAfterMakes(c, U32(delay), task);
    case Share(delays, _) => ShareMakes(c, delays, task, last);
  }

  lemma U32Again(delay: int)
    ensures U32(U32(delay)) == U32(delay)
  {
  }

  /** The node that the command behind the commands `before` makes, when node `n` is destroyed. */
  function MadeWhenFired(c: Calendar, n: nat, job: Closure, before: seq<Command>): nat {
    RunCommands(Logged(c, n, job), before).next
  }

  lemma OneCommand(c: Calendar, cmd: Command)
    ensures RunCommands(c, [cmd]) == RunCommand(c, cmd)
  {
    assert [cmd][1..] == [] && RunCommands(RunCommand(c, cmd), []) == RunCommand(c, cmd);
  }

  /** The command behind the commands `before`, in the body of a task: what it has done is still so when the node has
      been destroyed. */
  lemma CommandInBody(c: Calendar, n: nat, job: Closure, before: seq<Command>, cmd: Command, after: seq<Command>)
    requires ValidBut(c, n) && n in c.jobs && !Live(c, n) && job.task.body == before + [cmd] + after
    ensures var c1 := RunCommands(Logged(c, n, job), before);
            && Valid(c1) && c1.now == c.now && c1.next == MadeWhenFired(c, n, job, before)
            && Valid(Fire(c, n, job)) && Extends(RunCommand(c1, cmd), Fire(c, n, job))
  {
    var c0 := Logged(c, n, job);
    LoggedOk(c, n, job);
    RunCommandsOk(c0, before);
    var c1 := RunCommands(c0, before);
    RunCommandOk(c1, cmd);
    var c2 := RunCommand(c1, cmd);
    RunCommandsOk(c2, after);
    var c3 := RunCommands(c2, after);
    CommandsConcat(c0, before + [cmd], after);
    CommandsConcat(c0, before, [cmd]);
    OneCommand(c1, cmd);
    hide RunCommand, RunCommands, Valid, ValidBut, Extends;
    if job.Periodic? {
      KeepOk(c3, job, job.interval);
      ExtendsTransitive(c2, c3, Keep(c3, job, job.interval));
    }
  }

  /** Anywhere in the body of a task, periodic or not, a `runAfter` or a shared node: when the task has run, the
      node has its appointments, and no reference but those. */
  lemma FiredTaskSchedules(c: Calendar, n: nat, job: Closure, before: seq<Command>, cmd: Command, after: seq<Command>,
                           task: TimerTask, last: nat)
    requires ValidBut(c, n) && n in c.jobs && !Live(c, n) && Schedules(cmd, c.now, task, last)
    requires job.task.body == before + [cmd] + after
    ensures var m, d := MadeWhenFired(c, n, job, before), Fire(c, n, job);
            Valid(d) && d.now == c.now && m < d.next && Scheduled(d, m, task, last)
  {
    CommandInBody(c, n, job, before, cmd, after);
    hide RunCommand, RunCommands, DueInstant, Valid, ValidBut, IsLast, Schedules, Scheduled, Fire;
    var c1 := RunCommands(Logged(c, n, job), before);
    RunCommandOk(c1, cmd);
    CommandSchedules(c1, cmd, task, last);
    ScheduledKept(RunCommand(c1, cmd), Fire(c, n, job), c1.next, task, last);
  }

  /** The node of such a `runAfter` is among the accepted ones. */
  lemma FiredRunAfterAccepted(c: Calendar, n: nat, job: Closure, before: seq<Command>, delay: int, task: TimerTask,
                              after: seq<Command>)
    requires ValidBut(c, n) && n in c.jobs && !Live(c, n) && Accepted(delay)
    requires job.task.body == before + [RunAfter(delay, task)] + after
    ensures MadeWhenFired(c, n, job, before) in Fire(c, n, job).accepted
  {
    CommandInBody(c, n, job, before, RunAfter(delay, task), after);
    var c1 := RunCommands(Logged(c, n, job), before);
    assert c1.next in RunCommand(c1, RunAfter(delay, task)).accepted;
  }

  lemma ScheduledFires(c: Calendar, d: Calendar, n: nat, task: TimerTask, last: nat, es: seq<Event>)
    requires Scheduled(c, n, task, last) && Valid(c) && n < c.next && Progress(c, d, n) && Idle(d) && AllEnabled(d, es)
    ensures var e := Run(d, es);
            Idle(e) && FiringsOf(e.log, n) == if last <= e.now then [Firing(last / 2, n, n, task)] else []
  {
    if n in d.jobs {
      assert Live(d, n);
      assert n in AgendaNodes(d.agenda);
      var p :| p in d.agenda && p.1 == n;
      assert (p.0, n) in c.agenda && (p.0, n) in d.agenda;
      assert IsLast(d, n, last);
      FiresOnceAtLastDue(d, es, n, last);
    } else {
      StaysFired(d, es, n);
      NowGrows(d, es);
    }
  }

  /** A task that is run in the seconds pop makes a node with the last appointment `last`: it fires once, at that
      tick. `e` is the calendar after whatever else happens before the pop goes on, and `rest` the nodes of the slot
      still to be destroyed. */
  lemma ReentrantFiresOnce(c: Calendar, n: nat, job: Closure, before: seq<Command>, cmd: Command, after: seq<Command>,
                           task: TimerTask, last: nat, e: Calendar, rest: seq<nat>, second: seq<nat>, es: seq<Event>)
    requires ValidBut(c, n) && n in c.jobs && !Live(c, n) && Schedules(cmd, c.now, task, last) && c.now % 2 == 0
    requires job.task.body == before + [cmd] + after
    requires Valid(e) && Extends(Fire(c, n, job), e) && IsOrderOf(rest, DueNow(e))
    requires IsOrderOf(second, DueNow(Advance(ExpireAll(e, rest)))) && AllEnabled(FinishTick(e, rest, second), es)
    ensures var d, m := Run(FinishTick(e, rest, second), es), MadeWhenFired(c, n, job, before);
            FiringsOf(d.log, m) == if last / 2 <= d.now / 2 then [Firing(last / 2, m, m, task)] else []
  {
    var m := MadeWhenFired(c, n, job, before);
    FiredTaskSchedules(c, n, job, before, cmd, after, task, last);
    ScheduledKept(Fire(c, n, job), e, m, task, last);
    FinishTickOk(e, rest, second, m);
    hide FinishTick, Fire, MadeWhenFired, Valid, ValidBut, Progress, Scheduled, Extends, Schedules;
    ScheduledFires(e, FinishTick(e, rest, second), m, task, last, es);
    HalfOrder(Run(FinishTick(e, rest, second), es).now, last);
  }

  /** The same for a task that is run in the minute pop */
  lemma MinutePopFiresOnce(c: Calendar, n: nat, job: Closure, before: seq<Command>, cmd: Command, after: seq<Command>,
                           task: TimerTask, last: nat, e: Calendar, rest: seq<nat>, es: seq<Event>)
    requires ValidBut(c, n) && n in c.jobs && !Live(c, n) && Schedules(cmd, c.now, task, last) && c.now % 2 == 1
    requires job.task.body == before + [cmd] + after
    requires Valid(e) && Extends(Fire(c, n, job), e) && IsOrderOf(rest, DueNow(e)) && AllEnabled(ExpireAll(e, rest), es)
    ensures var d, m := Run(ExpireAll(e, rest), es), MadeWhenFired(c, n, job, before);
            FiringsOf(d.log, m) == if last / 2 <= d.now / 2 then [Firing(last / 2, m, m, task)] else []
  {
    var m := MadeWhenFired(c, n, job, before);
    FiredTaskSchedules(c, n, job, before, cmd, after, task, last);
    ScheduledKept(Fire(c, n, job), e, m, task, last);
    PopRestOk(e, rest, m);
    hide ExpireAll, Fire, MadeWhenFired, ValidBut, Progress, Scheduled, Schedules;
    ScheduledFires(e, ExpireAll(e, rest), m, task, last, es);
    HalfOrder(Run(ExpireAll(e, rest), es).now, last);
  }

  /** A `runAfter` in the seconds pop of tick `t`. On ticks that start a minute the minute wheel has not been popped
      yet, so a delay of a minute or more counts from one minute earlier. */
  lemma ReentrantRunAfterFiresOnce(c: Calendar, n: nat, job: Closure, before: seq<Command>, delay: nat, task: TimerTask,
                                   after: seq<Command>, e: Calendar, rest: seq<nat>, second: seq<nat>, es: seq<Event>)
    requires ValidBut(c, n) && n in c.jobs && !Live(c, n) && 1 <= delay < SECONDS_PER_HOUR && c.now % 2 == 0
    requires job.task.body == before + [RunAfter(delay, task)] + after
    requires Valid(e) && Extends(Fire(c, n, job), e) && IsOrderOf(rest, DueNow(e))
    requires IsOrderOf(second, DueNow(Advance(ExpireAll(e, rest)))) && AllEnabled(FinishTick(e, rest, second), es)
    ensures var d, m := Run(FinishTick(e, rest, second), es), MadeWhenFired(c, n, job, before);
            var due := ReentrantDueTick(c.now / 2, delay);
            FiringsOf(d.log, m) == if due <= d.now / 2 then [Firing(due, m, m, task)] else []
  {
    hide FinishTick, Fire, MadeWhenFired, Valid, ValidBut, Extends, DueInstant, ReentrantDueTick, IsOrderOf, ExpireAll;
    DueInstantReentrant(c.now, delay);
    ReentrantFiresOnce(c, n, job, before, RunAfter(delay, task), after, task, DueInstant(c.now, delay), e, rest,
                       second, es);
  }

  /** The same in the minute pop: the minute wheel has been popped, so the tick is that of a `runAfter` between
      ticks. */
  lemma MinutePopRunAfterFiresOnce(c: Calendar, n: nat, job: Closure, before: seq<Command>, delay: nat, task: TimerTask,
                                   after: seq<Command>, e: Calendar, rest: seq<nat>, es: seq<Event>)
    requires ValidBut(c, n) && n in c.jobs && !Live(c, n) && 1 <= delay < SECONDS_PER_HOUR && c.now % 2 == 1
    requires job.task.body == before + [RunAfter(delay, task)] + after
    requires Valid(e) && Extends(Fire(c, n, job), e) && IsOrderOf(rest, DueNow(e)) && AllEnabled(ExpireAll(e, rest), es)
    ensures var d, m := Run(ExpireAll(e, rest), es), MadeWhenFired(c, n, job, before);
            var due := DueTick(c.now / 2, delay);
            FiringsOf(d.log, m) == if due <= d.now / 2 then [Firing(due, m, m, task)] else []
  {
    hide Fire, MadeWhenFired, Valid, ValidBut, Extends, DueInstant, DueTick, IsOrderOf, ExpireAll;
    DueInstantIdle(c.now, delay);
    MinutePopFiresOnce(c, n, job, before, RunAfter(delay, task), after, task, DueInstant(c.now, delay), e, rest, es);
  }

  /** The appointments that the accepted insertions of node `n` in a run give. */
  ghost function Dues(c: Calendar, es: seq<Event>, n: nat): set<nat>
    decreases |es|
  {
    if es == [] then {}
    else
      Dues(Step(c, es[0]), es[1..], n)
      + if es[0].Put? && es[0].node == n && 1 <= es[0].seconds < SECONDS_PER_HOUR
        then {DueInstant(c.now, es[0].seconds)} else {}
  }

  ghost predicate OnlyBelowAnHour(es: seq<Event>, n: nat) {
    forall e <- es :: Names(e, n) ==> e.Put? && e.seconds < SECONDS_PER_HOUR
  }

  /** While a caller holds the node, its appointments are its future due instants and it does not fire. */
  lemma {:induction false} HeldNodeAgenda(c: Calendar, es: seq<Event>, n: nat)
    requires Idle(c) && AllEnabled(c, es) && OnlyBelowAnHour(es, n)
    requires n in c.held && n in c.jobs && n !in c.parked
    ensures var d := Run(c, es);
            && Idle(d) && c.now <= d.now && n in d.held && n !in d.parked && n in d.jobs && d.jobs[n] == c.jobs[n]
            && (forall k: nat :: (k, n) in d.agenda <==> d.now < k && ((k, n) in c.agenda || k in Dues(c, es, n)))
    decreases |es|
  {
    if es != [] {
      var d := Step(c, es[0]);
      StepOk(c, es[0], n);
      assert Live(c, n);
      if Names(es[0], n) { InsertOk(c, es[0].seconds, n); }
      assert Live(d, n);
      HeldNodeAgenda(d, es[1..], n);
      if Names(es[0], n) && 1 <= es[0].seconds { DueInstantLater(c.now, es[0].seconds); }
    }
  }

  /** A shared node: made, inserted any number of times in any run, let go, then any run. It fires
      exactly once, at the latest of the due ticks of its insertions, or as soon as it is let go when
      they have all passed. */
  lemma SharedNodeFiresAtMaximum(c: Calendar, task: TimerTask, before: seq<Event>, after: seq<Event>, last: nat)
    requires Idle(c) && OnlyBelowAnHour(before, c.next)
    requires AllEnabled(Step(c, Make(task)), before)
    requires AllEnabled(Step(Run(Step(c, Make(task)), before), LetGo(c.next)), after)
    requires var dues := Dues(Step(c, Make(task)), before, c.next);
             && (forall k <- dues :: k <= last)
             && (last in dues || last <= Run(Step(c, Make(task)), before).now)
    ensures var dropped := Run(Step(c, Make(task)), before);
            var d := Run(Step(dropped, LetGo(c.next)), after);
            var fireAt := if last <= dropped.now then dropped.now as nat else last;
            FiringsOf(d.log, c.next) == if fireAt <= d.now then [Firing(fireAt / 2, c.next, c.next, task)] else []
  {
    var n := c.next;
    var c0 := Step(c, Make(task));
    StepOk(c, Make(task), n);
    NewOk(c, Plain(task));
    HeldNodeAgenda(c0, before, n);
    var c1 := Run(c0, before);
    var c2 := Step(c1, LetGo(n));
    StepOk(c1, LetGo(n), n);
    NowGrows(c2, after);
    if last <= c1.now {
      NotLiveAfter(c2, n);
      StaysFired(c2, after, n);
    } else {
      assert (last, n) in c2.agenda;
      AppointmentIsReference(c2, last, n);
      assert IsLast(c2, n, last);
      FiresOnceAtLastDue(c2, after, n, last);
    }
  }

  lemma NotLiveAfter(c: Calendar, n: nat)
    requires Valid(c) && n !in c.held && n !in c.parked && forall k: nat :: (k, n) !in c.agenda
    ensures n !in c.jobs
  {
    forall p <- c.agenda ensures p.1 != n {
      assert p == (p.0, p.1);
    }
  }

  /** A delay of an hour or more (and at most 30 whole days) is accepted, and its node never fires. */
  lemma LongDelayIsHeld(c: Calendar, delay: nat, task: TimerTask, es: seq<Event>)
    requires Idle(c) && SECONDS_PER_HOUR <= delay < 31 * SECONDS_PER_DAY
    requires AllEnabled(Step(c, After(delay, task)), es)
    ensures var d := Run(Step(c, After(delay, task)), es);
            c.next in d.parked && c.next in d.jobs && FiringsOf(d.log, c.next) == []
  {
    StepOk(c, After(delay, task), c.next);
    NewOk(c, Plain(task));
    InsertOk(New(c, Plain(task)), U32(delay), c.next);
    var d := Step(c, After(delay, task));
    assert U32(delay) == delay;
    var c3 := Unhold(Insert(New(c, Plain(task)), delay, c.next), c.next);
    assert Live(c3, c.next);
    assert Settle(c3, c.next, Plain(task)) == c3;
    assert c.next in d.parked;
    ParkedForEver(d, es, c.next);
  }

  // Delays that are rejected, and delays of an hour or more

  /** All insertions of the command are rejected, so that its node is dropped at once. */
  predicate Rejected(cmd: Command, task: TimerTask) {
    match cmd
    case RunAfter(delay, t) => t == task && !Accepted(delay)
    case Share(delays, t) => t == task && forall delay <- delays :: !Accepted(delay)
    case RunEvery(_, _) => false
  }

  /** Some insertion is for an hour or more. */
  predicate Parks(cmd: Command) {
    match cmd
    case RunAfter(delay, _) => Accepted(delay) && !Short(delay)
    case Share(delays, _) => exists delay <- delays :: Accepted(delay) && !Short(delay)
    case RunEvery(interval, _) => SECONDS_PER_HOUR <= interval
  }

  lemma {:induction false} InsertAllRejected(c: Calendar, delays: seq<int>, n: nat)
    requires forall delay <- delays :: !Accepted(delay)
    ensures InsertAll(c, delays, n) == c
    decreases |delays|
  {
    if delays != [] {
      assert !Accepted(delays[0]);
      InsertAllRejected(c, delays[1..], n);
    }
  }

  lemma {:induction false} InsertAllParks(c: Calendar, delays: seq<int>, n: nat)
    requires n in c.parked || exists delay <- delays :: Accepted(delay) && !Short(delay)
    ensures n in InsertAll(c, delays, n).parked
    decreases |delays|
  {
    if delays != [] {
      InsertAllParks(Insert(c, U32(delays[0]), n), delays[1..], n);
    }
  }

  lemma DroppedAtOnce(c: Calendar, task: TimerTask)
    requires Valid(c)
    ensures var d := Settle(Unhold(New(c, Plain(task)), c.next), c.next, Plain(task));
            && c.next < d.next && c.next !in d.jobs
            && FiringsOf(d.log, c.next) == [Firing(c.now / 2, c.next, c.next, task)]
  {
    var n, c0 := c.next, New(c, Plain(task));
    NewOk(c, Plain(task));
    UnholdOk(c0, n);
    var c1 := Unhold(c0, n);
    assert !Live(c1, n);
    SettleOk(c1, n, Plain(task));
    LoggedOk(c1, n, Plain(task));
  }

  /** A node that no wheel takes is destroyed at once, so its task runs in the call itself. */
  lemma RejectedRunsAtOnce(c: Calendar, cmd: Command, task: TimerTask)
    requires Valid(c) && Rejected(cmd, task)
    ensures var d := RunCommand(c, cmd);
            && c.next < d.next && c.next !in d.jobs
            && FiringsOf(d.log, c.next) == [Firing(c.now / 2, c.next, c.next, task)]
  {
    DroppedAtOnce(c, task);
    if cmd.Share? { InsertAllRejected(New(c, Plain(task)), cmd.delays, c.next); }
  }

  /** A node with an insertion for an hour or more is kept, and has not run. */
  lemma ParksHolds(c: Calendar, cmd: Command)
    requires Valid(c) && Parks(cmd)
    ensures var d := RunCommand(c, cmd); c.next < d.next && c.next in d.parked && FiringsOf(d.log, c.next) == []
  {
    var n, d := c.next, RunCommand(c, cmd);
    RunCommandOk(c, cmd);
    match cmd {
      case RunAfter(delay, task) =>
        var e := Unhold(Insert(New(c, Plain(task)), U32(delay), n), n);
        assert n in e.parked && Live(e, n);
        assert Settle(e, n, Plain(task)) == e;
        assert d == Accept(e, delay, n);
      case Share(delays, task) =>
        InsertAllParks(New(c, Plain(task)), delays, n);
        var e := Unhold(InsertAll(New(c, Plain(task)), delays, n), n);
        assert n in e.parked && Live(e, n);
        assert d == Settle(e, n, Plain(task)) == e;
      case RunEvery(interval, task) =>
        assert U32(interval) == interval;
    }
    assert n in d.parked;
    ParkedUnfired(d, n);
  }

  lemma ParkedUnfired(c: Calendar, n: nat)
    requires Valid(c) && n in c.parked
    ensures n < c.next && n in c.jobs && FiringsOf(c.log, n) == []
  {
    assert Live(c, n);
  }

  /** In every run that follows a pop in which a task has run, with a command whose delays are rejected, or one of them
      an hour or more: the node of the first has run once, then, and the node of the second never does. */
  lemma BodyOutcome(c: Calendar, n: nat, job: Closure, before: seq<Command>, cmd: Command, after: seq<Command>,
                    task: TimerTask, e: Calendar, d: Calendar, es: seq<Event>)
    requires ValidBut(c, n) && n in c.jobs && !Live(c, n) && job.task.body == before + [cmd] + after
    requires Valid(e) && Extends(Fire(c, n, job), e) && Idle(d) && AllEnabled(d, es)
    requires var m := MadeWhenFired(c, n, job, before); m < e.next ==> m < d.next && Progress(e, d, m)
    ensures var r, m := Run(d, es), MadeWhenFired(c, n, job, before);
            && (Rejected(cmd, task) ==> FiringsOf(r.log, m) == [Firing(c.now / 2, m, m, task)])
            && (Parks(cmd) ==> m in r.parked && FiringsOf(r.log, m) == [])
  {
    var m, c1 := MadeWhenFired(c, n, job, before), RunCommands(Logged(c, n, job), before);
    CommandInBody(c, n, job, before, cmd, after);
    hide Fire, MadeWhenFired, RunCommand, RunCommands, Rejected, Parks, ValidBut;
    if Rejected(cmd, task) {
      RejectedRunsAtOnce(c1, cmd, task);
      StaysFired(d, es, m);
    }
    if Parks(cmd) {
      ParksHolds(c1, cmd);
      ParkedForEver(d, es, m);
    }
  }

  /** In the seconds pop, `rest` being the nodes of the slot still to be destroyed */
  lemma ReentrantOutcome(c: Calendar, n: nat, job: Closure, before: seq<Command>, cmd: Command, after: seq<Command>,
                         task: TimerTask, e: Calendar, rest: seq<nat>, second: seq<nat>, es: seq<Event>)
    requires ValidBut(c, n) && n in c.jobs && !Live(c, n) && c.now % 2 == 0 && job.task.body == before + [cmd] + after
    requires Valid(e) && Extends(Fire(c, n, job), e) && IsOrderOf(rest, DueNow(e))
    requires IsOrderOf(second, DueNow(Advance(ExpireAll(e, rest)))) && AllEnabled(FinishTick(e, rest, second), es)
    ensures var r, m := Run(FinishTick(e, rest, second), es), MadeWhenFired(c, n, job, before);
            && (Rejected(cmd, task) ==> FiringsOf(r.log, m) == [Firing(c.now / 2, m, m, task)])
            && (Parks(cmd) ==> m in r.parked && FiringsOf(r.log, m) == [])
  {
    FireOk(c, n, job);
    FinishTickOk(e, rest, second, MadeWhenFired(c, n, job, before));
    hide FinishTick, Fire, MadeWhenFired, Valid, ValidBut, Progress, Rejected, Parks, IsOrderOf, DueNow, Live;
    BodyOutcome(c, n, job, before, cmd, after, task, e, FinishTick(e, rest, second), es);
  }

  /** In the minute pop */
  lemma MinutePopOutcome(c: Calendar, n: nat, job: Closure, before: seq<Command>, cmd: Command, after: seq<Command>,
                         task: TimerTask, e: Calendar, rest: seq<nat>, es: seq<Event>)
    requires ValidBut(c, n) && n in c.jobs && !Live(c, n) && c.now % 2 == 1 && job.task.body == before + [cmd] + after
    requires Valid(e) && Extends(Fire(c, n, job), e) && IsOrderOf(rest, DueNow(e)) && AllEnabled(ExpireAll(e, rest), es)
    ensures var r, m := Run(ExpireAll(e, rest), es), MadeWhenFired(c, n, job, before);
            && (Rejected(cmd, task) ==> FiringsOf(r.log, m) == [Firing(c.now / 2, m, m, task)])
            && (Parks(cmd) ==> m in r.parked && FiringsOf(r.log, m) == [])
  {
    FireOk(c, n, job);
    PopRestOk(e, rest, MadeWhenFired(c, n, job, before));
    hide ExpireAll, Fire, MadeWhenFired, ValidBut, Progress, Rejected, Parks, IsOrderOf, DueNow, Live;
    BodyOutcome(c, n, job, before, cmd, after, task, e, ExpireAll(e, rest), es);
  }

  /** The same between ticks */
  lemma CallOutcome(c: Calendar, call: Event, cmd: Command, es: seq<Event>)
    requires Idle(c) && AllEnabled(Step(c, call), es)
    requires match call
             case After(delay, task) => cmd == RunAfter(delay, task)
             case Every(interval, task) => cmd == RunEvery(interval, task)
             case _ => false
    ensures var r := Run(Step(c, call), es);
            && (Rejected(cmd, cmd.task) ==> FiringsOf(r.log, c.next) == [Firing(c.now / 2, c.next, c.next, cmd.task)])
            && (Parks(cmd) ==> c.next in r.parked && FiringsOf(r.log, c.next) == [])
  {
    StepOk(c, call, 0);
    hide RunCommand, Rejected, Parks;
    if Rejected(cmd, cmd.task) {
      RejectedRunsAtOnce(c, cmd, cmd.task);
      StaysFired(Step(c, call), es, c.next);
    }
    if Parks(cmd) {
      ParksHolds(c, cmd);
      ParkedForEver(Step(c, call), es, c.next);
    }
  }
}
