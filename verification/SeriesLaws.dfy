/** The closed form of `runEvery`, over all runs. */
module SeriesLaws {
  import opened Calendar
  import opened CalendarFacts
  import opened CalendarRuns
  import opened TimerLaws

  /** Ticks at which the series that node `o` started has run its task. */
  function OriginTicks(log: seq<Firing>, o: nat): seq<nat> {
    if log == [] then []
    else
      var last := log[|log| - 1];
      OriginTicks(log[..|log| - 1], o) + if last.origin == o then [last.tick] else []
  }

  lemma OriginTicksSnoc(log: seq<Firing>, f: Firing, o: nat)
    ensures OriginTicks(log + [f], o) == OriginTicks(log, o) + if f.origin == o then [f.tick] else []
  {
    assert (log + [f])[..|log|] == log;
  }

  /** The tick of the k-th run (k >= 1) of a series started between ticks, at tick `t`. */
  function SeriesTick(t: nat, interval: nat, k: nat): int
  {
    if interval < SECONDS_PER_MINUTE then t + k * interval
    else SECONDS_PER_MINUTE * (t / SECONDS_PER_MINUTE) + interval
         + (k - 1) * (SECONDS_PER_MINUTE * (interval / SECONDS_PER_MINUTE))
  }

  function SeriesTicks(t: nat, interval: nat, k: nat): seq<int> {
    seq(k, j requires 0 <= j < k => SeriesTick(t, interval, j + 1))
  }

  /** The instant of that run: in the minute pop when the interval is a whole number of minutes. */
  function SeriesInstant(t: nat, interval: nat, k: nat): int {
    2 * SeriesTick(t, interval, k)
    + if SECONDS_PER_MINUTE <= interval && interval % SECONDS_PER_MINUTE == 0 then 1 else 0
  }

  /** Each run schedules the next. */
  lemma SeriesStep(t: nat, interval: nat, k: nat)
    requires 1 <= interval < SECONDS_PER_HOUR && 1 <= k
    ensures 1 <= SeriesInstant(t, interval, k)
    ensures DueInstant(SeriesInstant(t, interval, k), interval) == SeriesInstant(t, interval, k + 1)
  {
    var d := SeriesTick(t, interval, k);
    if interval < SECONDS_PER_MINUTE {
      assert k * interval >= interval;
      assert (k + 1) * interval == k * interval + interval;
    } else {
      var m, s := interval / SECONDS_PER_MINUTE, interval % SECONDS_PER_MINUTE;
      var q := t / SECONDS_PER_MINUTE + m + (k - 1) * m;
      assert (k - 1) * (SECONDS_PER_MINUTE * m) == SECONDS_PER_MINUTE * ((k - 1) * m);
      assert k * (SECONDS_PER_MINUTE * m) == SECONDS_PER_MINUTE * ((k - 1) * m) + SECONDS_PER_MINUTE * m;
      assert (k - 1) * m >= 0;
      MinuteStep(q, s, d);
    }
  }

  lemma TicksSnoc(t: nat, interval: nat, k: nat)
    ensures SeriesTicks(t, interval, k + 1) == SeriesTicks(t, interval, k) + [SeriesInstant(t, interval, k + 1) / 2]
  {
  }

  lemma MinuteStep(q: nat, s: nat, d: int)
    requires d == SECONDS_PER_MINUTE * q + s && s < SECONDS_PER_MINUTE && 1 <= q
    ensures MinutesPopped(if s == 0 then 2 * d + 1 else 2 * d) == q
  {
  }

  lemma SeriesStart(t: nat, interval: nat)
    requires 1 <= interval < SECONDS_PER_HOUR
    ensures DueInstant(2 * t + 1, interval) == SeriesInstant(t, interval, 1)
  {
    MinutesBetweenTicks(t);
    hide MinutesPopped;
    var m, s := interval / SECONDS_PER_MINUTE, interval % SECONDS_PER_MINUTE;
    assert interval == SECONDS_PER_MINUTE * m + s;
  }

  lemma MinutesBetweenTicks(t: nat)
    ensures MinutesPopped(2 * t + 1) == t / SECONDS_PER_MINUTE && (2 * t + 1) / 2 == t
  {
  }

  ghost predicate OriginsOk(c: Calendar) {
    && (forall n <- c.jobs :: OriginOf(n, c.jobs[n]) < c.next)
    && (forall o: nat :: c.next <= o ==> OriginTicks(c.log, o) == [])
  }

  /** No series that `c` knew has moved, and new nodes belong to new series. */
  ghost predicate Fresh(c: Calendar, d: Calendar) {
    && (forall o: nat :: o < c.next ==> OriginTicks(d.log, o) == OriginTicks(c.log, o))
    && (forall n <- d.jobs :: c.next <= n ==> c.next <= OriginOf(n, d.jobs[n]))
  }

  lemma LoggedFresh(c: Calendar, n: nat, job: Closure)
    requires OriginsOk(c) && OriginOf(n, job) < c.next
    ensures OriginsOk(Logged(c, n, job))
    ensures forall o: nat :: OriginTicks(Logged(c, n, job).log, o)
                             == OriginTicks(c.log, o) + if o == OriginOf(n, job) then [c.now / 2] else []
  {
    forall o: nat ensures OriginTicks(Logged(c, n, job).log, o)
                          == OriginTicks(c.log, o) + if o == OriginOf(n, job) then [c.now / 2] else [] {
      OriginTicksSnoc(c.log, Record(c, n, job), o);
    }
  }

  lemma {:induction false} MadeFresh(c: Calendar, task: TimerTask, c2: Calendar)
    requires Valid(c) && Valid(c2) && OriginsOk(c)
    requires c2 == New(c, Plain(task)).(agenda := c2.agenda, parked := c2.parked)
    ensures var d := Settle(Unhold(c2, c.next), c.next, Plain(task)); OriginsOk(d) && Fresh(c, d)
    decreases task, 3
  {
    var n := c.next;
    UnholdOk(c2, n);
    var c3 := Unhold(c2, n);
    assert OriginsOk(c3);
    if !Live(c3, n) {
      LoggedOk(c3, n, Plain(task));
      LoggedFresh(c3, n, Plain(task));
      RunCommandsFresh(Logged(c3, n, Plain(task)), task.body);
      RunCommandsOk(Logged(c3, n, Plain(task)), task.body);
    }
  }

  lemma {:induction false} RunCommandFresh(c: Calendar, cmd: Command)
    requires Valid(c) && OriginsOk(c)
    ensures OriginsOk(RunCommand(c, cmd)) && Fresh(c, RunCommand(c, cmd))
    decreases cmd, 0
  {
    match cmd
    case RunAfter(delay, task) =>
      NewOk(c, Plain(task));
      InsertOk(New(c, Plain(task)), U32(delay), c.next);
      MadeFresh(c, task, Insert(New(c, Plain(task)), U32(delay), c.next));
    case Share(delays, task) =>
      NewOk(c, Plain(task));
      InsertAllOk(New(c, Plain(task)), delays, c.next);
      MadeFresh(c, task, InsertAll(New(c, Plain(task)), delays, c.next));
    case RunEvery(interval, task) =>
  }

  lemma {:induction false} RunCommandsFresh(c: Calendar, cmds: seq<Command>)
    requires Valid(c) && OriginsOk(c)
    ensures OriginsOk(RunCommands(c, cmds)) && Fresh(c, RunCommands(c, cmds))
    decreases cmds, 0
  {
    if cmds != [] {
      var d := RunCommand(c, cmds[0]);
      RunCommandOk(c, cmds[0]);
      RunCommandFresh(c, cmds[0]);
      RunCommandsFresh(d, cmds[1..]);
      RunCommandsOk(d, cmds[1..]);
      var e := RunCommands(c, cmds);
      forall n <- e.jobs | c.next <= n ensures c.next <= OriginOf(n, e.jobs[n]) {
        if n < d.next { assert n in d.jobs && e.jobs[n] == d.jobs[n]; }
      }
    }
  }

  /** A running series: who started it, and with what. */
  datatype Series = Series(origin: nat, interval: nat, task: TimerTask, start: nat) {
    predicate Ok() { 1 <= interval < SECONDS_PER_HOUR }
    function Job(): Closure requires Ok() { Periodic(origin, interval, task) }
  }

  /** Node `n` carries the series `o`: it has one appointment, `due`, and `ticks` are the runs so far. */
  ghost predicate Carries(c: Calendar, o: nat, job: Closure, due: int, ticks: seq<int>, n: nat) {
    && OriginsOk(c) && o < c.next
    && n in c.jobs && c.jobs[n] == job && n !in c.held && n !in c.parked
    && (forall i: nat :: (i, n) in c.agenda <==> i == due)
    && (forall m <- c.jobs :: m != n ==> OriginOf(m, c.jobs[m]) != o)
    && OriginTicks(c.log, o) == ticks
  }

  ghost predicate Running(c: Calendar, s: Series, k: nat) {
    && s.Ok()
    && (0 < k ==> SeriesInstant(s.start, s.interval, k) <= c.now)
    && exists n: nat :: CarriesRun(c, s, k, n)
  }

  ghost predicate CarriesRun(c: Calendar, s: Series, k: nat, n: nat)
    requires s.Ok()
  {
    Carries(c, s.origin, s.Job(), SeriesInstant(s.start, s.interval, k + 1), SeriesTicks(s.start, s.interval, k), n)
  }

  /** What leaves the series alone. */
  lemma CarriesKept(c: Calendar, d: Calendar, o: nat, job: Closure, due: int, ticks: seq<int>, n: nat)
    requires Valid(c) && Carries(c, o, job, due, ticks, n) && Extends(c, d) && Fresh(c, d) && OriginsOk(d)
    ensures Carries(d, o, job, due, ticks, n)
  {
  }

  lemma CarriesLogged(c: Calendar, a: nat, o: nat, job: Closure, due: int, ticks: seq<int>, n: nat)
    requires a in c.jobs && a != n && Carries(c, o, job, due, ticks, n)
    ensures Carries(Logged(c, a, c.jobs[a]), o, job, due, ticks, n)
  {
    LoggedFresh(c, a, c.jobs[a]);
  }

  lemma KeepOrigins(c: Calendar, job: Closure, interval: Interval)
    requires OriginsOk(c) && job.Periodic? && job.origin < c.next
    ensures OriginsOk(Keep(c, job, interval))
  {
  }

  lemma CarriesBesideKeep(c: Calendar, job': Closure, o: nat, job: Closure, due: int, ticks: seq<int>, n: nat)
    requires Valid(c) && Carries(c, o, job, due, ticks, n)
    requires job'.Periodic? && job'.origin < c.next && job'.origin != o
    ensures Carries(Keep(c, job', job'.interval), o, job, due, ticks, n)
  {
    var d := Keep(c, job', job'.interval);
    KeepOk(c, job', job'.interval);
    NewOk(c, job');
    KeepOrigins(c, job', job'.interval);
    KeepAdds(c, job', job'.interval);
    hide Keep, Valid;
    assert n < c.next && Live(c, n);
    assert forall i: nat :: (i, n) in d.agenda <==> (i, n) in c.agenda;
  }

  lemma KeepAdds(c: Calendar, job: Closure, interval: Interval)
    ensures var d := Keep(c, job, interval); d.jobs == c.jobs[c.next := job] && d.log == c.log
  {
  }

  /** Settling another node, whatever it is. */
  lemma OtherSettles(c: Calendar, a: nat, o: nat, job: Closure, due: int, ticks: seq<int>, n: nat)
    requires ValidBut(c, a) && a in c.jobs && a != n && Carries(c, o, job, due, ticks, n)
    ensures Carries(Settle(c, a, c.jobs[a]), o, job, due, ticks, n)
  {
    var job' := c.jobs[a];
    if !Live(c, a) {
      LoggedOk(c, a, job');
      CarriesLogged(c, a, o, job, due, ticks, n);
      var c1 := Logged(c, a, job');
      RunCommandsOk(c1, job'.task.body);
      RunCommandsFresh(c1, job'.task.body);
      var c2 := RunCommands(c1, job'.task.body);
      CarriesKept(c1, c2, o, job, due, ticks, n);
      if job'.Periodic? {
        CarriesBesideKeep(c2, job', o, job, due, ticks, n);
      }
    }
  }

  /** The series gets a new carrier. */
  lemma CarriesNext(c: Calendar, o: nat, job: Closure, ticks: seq<int>)
    requires Valid(c) && OriginsOk(c) && o < c.next
    requires job.Periodic? && job.origin == o && job.interval < SECONDS_PER_HOUR
    requires forall m <- c.jobs :: OriginOf(m, c.jobs[m]) != o
    requires OriginTicks(c.log, o) == ticks
    ensures Carries(Keep(c, job, job.interval), o, job, DueInstant(c.now, job.interval), ticks, c.next)
  {
    KeepOk(c, job, job.interval);
    NewOk(c, job);
    assert U32(job.interval) == job.interval;
  }

  /** The carrier itself comes due: the series runs once more and gets a new carrier. */
  lemma CarrierFires(c: Calendar, o: nat, job: Closure, ticks: seq<int>, n: nat)
    requires Valid(c) && Carries(c, o, job, c.now, ticks, n)
    requires job.Periodic? && job.origin == o && job.interval < SECONDS_PER_HOUR
    ensures exists m: nat :: Carries(Expire(c, n), o, job, DueInstant(c.now, job.interval), ticks + [c.now / 2], m)
  {
    var c0 := c.(agenda := c.agenda - {(c.now as nat, n)});
    assert (c.now as nat, n) in c.agenda && n in AgendaNodes(c.agenda);
    ExpireLoose(c, n);
    assert !Live(c0, n) by {
      forall p <- c0.agenda ensures p.1 != n { assert p == (p.0, p.1); }
    }
    LoggedOk(c0, n, job);
    LoggedFresh(c0, n, job);
    var c1 := Logged(c0, n, job);
    RunCommandsOk(c1, job.task.body);
    RunCommandsFresh(c1, job.task.body);
    var c2 := RunCommands(c1, job.task.body);
    forall m <- c2.jobs ensures OriginOf(m, c2.jobs[m]) != o {
      assert m < c1.next ==> m in c1.jobs && c2.jobs[m] == c1.jobs[m];
    }
    CarriesNext(c2, o, job, ticks + [c.now / 2]);
    assert Settle(c0, n, job) == Fire(c0, n, job) == Keep(c2, job, job.interval);
    assert Expire(c, n) == Keep(c2, job, job.interval);
  }

  lemma ExpireLoose(c: Calendar, n: nat)
    requires Valid(c) && n in DueNow(c)
    ensures ValidBut(c.(agenda := c.agenda - {(c.now as nat, n)}), n) && n in c.jobs
  {
    var c1 := c.(agenda := c.agenda - {(c.now as nat, n)});
    assert n in AgendaNodes(c.agenda);
    assert Live(c, n);
    forall a: nat ensures Live(c1, a) ==> Live(c, a) {}
    forall a <- c.jobs ensures a == n || Live(c1, a) {
      assert Live(c, a);
      if a != n && a in AgendaNodes(c.agenda) {
        var p :| p in c.agenda && p.1 == a;
        assert p in c1.agenda;
      }
    }
  }

  lemma OtherExpires(c: Calendar, a: nat, o: nat, job: Closure, due: int, ticks: seq<int>, n: nat)
    requires Valid(c) && a in DueNow(c) && a != n && Carries(c, o, job, due, ticks, n)
    ensures Carries(Expire(c, a), o, job, due, ticks, n)
  {
    ExpireLoose(c, a);
    var c1 := c.(agenda := c.agenda - {(c.now as nat, a)});
    assert Carries(c1, o, job, due, ticks, n);
    OtherSettles(c1, a, o, job, due, ticks, n);
  }

  lemma CarrierExpires(c: Calendar, s: Series, k: nat, n: nat)
    requires Valid(c) && s.Ok() && CarriesRun(c, s, k, n) && n in DueNow(c)
    ensures Running(Expire(c, n), s, k + 1)
  {
    var ticks := SeriesTicks(s.start, s.interval, k);
    assert (c.now as nat, n) in c.agenda;
    CarrierFires(c, s.origin, s.Job(), ticks, n);
    var m: nat :| Carries(Expire(c, n), s.origin, s.Job(), DueInstant(c.now, s.interval), ticks + [c.now / 2], m);
    SeriesStep(s.start, s.interval, k + 1);
    TicksSnoc(s.start, s.interval, k);
    ExpireOk(c, n, n);
    hide SeriesInstant, SeriesTick, SeriesTicks, DueInstant, Carries;
    assert CarriesRun(Expire(c, n), s, k + 1, m);
  }

  lemma SeriesExpire(c: Calendar, a: nat, s: Series, k: nat)
    requires Valid(c) && Running(c, s, k) && a in DueNow(c)
    ensures Running(Expire(c, a), s, k) || Running(Expire(c, a), s, k + 1)
  {
    var n: nat :| CarriesRun(c, s, k, n);
    if a == n {
      CarrierExpires(c, s, k, n);
    } else {
      OtherExpires(c, a, s.origin, s.Job(), SeriesInstant(s.start, s.interval, k + 1),
                   SeriesTicks(s.start, s.interval, k), n);
      assert CarriesRun(Expire(c, a), s, k, n);
      ExpireOk(c, a, a);
    }
  }

  lemma {:induction false} SeriesExpireAll(c: Calendar, order: seq<nat>, s: Series, k: nat)
    requires Valid(c) && Running(c, s, k) && IsOrderOf(order, DueNow(c))
    ensures exists j: nat :: Running(ExpireAll(c, order), s, j)
    decreases |order|
  {
    if order == [] {
      assert Running(ExpireAll(c, order), s, k);
    } else {
      var a := order[0];
      var d := Expire(c, a);
      ExpireOk(c, a, a);
      SeriesExpire(c, a, s, k);
      assert IsOrderOf(order[1..], DueNow(d)) by {
        forall b: nat ensures b in order[1..] <==> b in DueNow(d) {
          assert b in order <==> b == a || b in order[1..];
        }
      }
      SeriesExpireAll(d, order[1..], s, if Running(d, s, k) then k else k + 1);
      assert ExpireAll(c, order) == ExpireAll(d, order[1..]);
    }
  }

  lemma SeriesAdvance(c: Calendar, s: Series, k: nat)
    requires Running(c, s, k)
    ensures Running(Advance(c), s, k)
  {
    var due, ticks := SeriesInstant(s.start, s.interval, k + 1), SeriesTicks(s.start, s.interval, k);
    var n: nat :| CarriesRun(c, s, k, n);
    assert CarriesRun(Advance(c), s, k, n);
  }

  /** Everything but a tick leaves the series where it is. */
  lemma SeriesBesides(c: Calendar, e: Event, o: nat, job: Closure, due: int, ticks: seq<int>, n: nat)
    requires Idle(c) && Enabled(c, e) && !e.OnTime? && Carries(c, o, job, due, ticks, n)
    ensures Carries(Step(c, e), o, job, due, ticks, n)
  {
    var d := Step(c, e);
    match e
    case Make(task) => NewOk(c, Plain(task));
    case Put(node, seconds) => InsertOk(c, seconds, node);
    case LetGo(node) =>
      UnholdOk(c, node);
      assert Live(c, node);
      assert Carries(Unhold(c, node), o, job, due, ticks, n);
      OtherSettles(Unhold(c, node), node, o, job, due, ticks, n);
    case After(delay, task) =>
      RunCommandOk(c, RunAfter(delay, task));
      RunCommandFresh(c, RunAfter(delay, task));
      CarriesKept(c, d, o, job, due, ticks, n);
    case Every(interval, task) =>
      RunCommandOk(c, RunEvery(interval, task));
      RunCommandFresh(c, RunEvery(interval, task));
      CarriesKept(c, d, o, job, due, ticks, n);
  }

  lemma SeriesPop(c: Calendar, order: seq<nat>, s: Series, k: nat)
    requires Valid(c) && (forall p <- c.agenda :: c.now < p.0) && Running(c, s, k)
    requires IsOrderOf(order, DueNow(Advance(c)))
    ensures var d := ExpireAll(Advance(c), order);
            Valid(d) && (forall p <- d.agenda :: d.now < p.0) && exists j: nat :: Running(d, s, j)
  {
    PopOk(c, order, 0);
    AdvanceOk(c);
    SeriesAdvance(c, s, k);
    SeriesExpireAll(Advance(c), order, s, k);
  }

  lemma SeriesSecondPop(d: Calendar, second: seq<nat>, s: Series, j: nat)
    requires Valid(d) && (forall p <- d.agenda :: d.now < p.0) && Running(d, s, j)
    requires IsOrderOf(second, DueNow(Advance(d)))
    ensures exists k: nat :: Running(ExpireAll(Advance(d), second), s, k)
    ensures exists k: nat :: Running(Advance(d), s, k)
  {
    SeriesPop(d, second, s, j);
    SeriesAdvance(d, s, j);
  }

  /** The rest of a tick whose seconds pop has still to destroy the nodes `first` */
  lemma SeriesFinishTick(c: Calendar, first: seq<nat>, second: seq<nat>, s: Series, k: nat)
    requires Valid(c) && Running(c, s, k) && IsOrderOf(first, DueNow(c))
    requires IsOrderOf(second, DueNow(Advance(ExpireAll(c, first))))
    ensures exists j: nat :: Running(FinishTick(c, first, second), s, j)
  {
    hide Valid, Running, ExpireAll, IsOrderOf, DueNow;
    SeriesExpireAll(c, first, s, k);
    PopRestOk(c, first, 0);
    var d := ExpireAll(c, first);
    var j: nat :| Running(d, s, j);
    SeriesSecondPop(d, second, s, j);
    var e := FinishTick(c, first, second);
    var k1: nat :| Running(ExpireAll(Advance(d), second), s, k1);
    var k2: nat :| Running(Advance(d), s, k2);
    assert Running(e, s, k1) || Running(e, s, k2);
  }

  lemma SeriesOnTime(c: Calendar, first: seq<nat>, second: seq<nat>, s: Series, k: nat)
    requires Idle(c) && Enabled(c, OnTime(first, second)) && Running(c, s, k)
    ensures exists j: nat :: Running(Tick(c, first, second), s, j)
  {
    AdvanceOk(c);
    SeriesAdvance(c, s, k);
    hide Valid, Running, ExpireAll, IsOrderOf, DueNow, FinishTick;
    SeriesFinishTick(Advance(c), first, second, s, k);
    var j: nat :| Running(FinishTick(Advance(c), first, second), s, j);
    assert Running(Tick(c, first, second), s, j);
  }

  lemma SeriesElsewhere(c: Calendar, e: Event, s: Series, k: nat)
    requires Idle(c) && Enabled(c, e) && !e.OnTime? && Running(c, s, k)
    ensures Running(Step(c, e), s, k)
  {
    StepOk(c, e, 0);
    var n: nat :| CarriesRun(c, s, k, n);
    SeriesBesides(c, e, s.origin, s.Job(), SeriesInstant(s.start, s.interval, k + 1),
                  SeriesTicks(s.start, s.interval, k), n);
    hide Valid, Idle, Carries, SeriesInstant, SeriesTicks, SeriesTick, Step, Progress, Enabled;
    assert CarriesRun(Step(c, e), s, k, n);
  }

  lemma SeriesStepOk(c: Calendar, e: Event, s: Series, k: nat)
    requires Idle(c) && Enabled(c, e) && Running(c, s, k)
    ensures exists j: nat :: Running(Step(c, e), s, j)
  {
    hide Valid, Running, Tick;
    if e.OnTime? {
      SeriesOnTime(c, e.first, e.second, s, k);
      assert Step(c, e) == Tick(c, e.first, e.second);
    } else {
      SeriesElsewhere(c, e, s, k);
    }
  }

  lemma {:induction false} SeriesRuns(c: Calendar, es: seq<Event>, s: Series, k: nat)
    requires Idle(c) && AllEnabled(c, es) && Running(c, s, k)
    ensures Idle(Run(c, es)) && exists j: nat :: Running(Run(c, es), s, j)
    decreases |es|
  {
    if es != [] {
      SeriesStepOk(c, es[0], s, k);
      StepOk(c, es[0], 0);
      var j: nat :| Running(Step(c, es[0]), s, j);
      SeriesRuns(Step(c, es[0]), es[1..], s, j);
    }
  }

  /** `OriginsOk` holds of every calendar a run can reach. */
  lemma {:induction false} OriginsAlwaysOk(c: Calendar, es: seq<Event>)
    requires Idle(c) && OriginsOk(c) && AllEnabled(c, es)
    ensures OriginsOk(Run(c, es)) && Idle(Run(c, es))
    decreases |es|
  {
    if es != [] {
      StepOk(c, es[0], 0);
      StepOrigins(c, es[0]);
      OriginsAlwaysOk(Step(c, es[0]), es[1..]);
    }
  }

  lemma SettleOrigins(c: Calendar, a: nat)
    requires ValidBut(c, a) && a in c.jobs && OriginsOk(c)
    ensures OriginsOk(Settle(c, a, c.jobs[a]))
  {
    var job := c.jobs[a];
    if !Live(c, a) {
      LoggedOk(c, a, job);
      LoggedFresh(c, a, job);
      var c1 := Logged(c, a, job);
      RunCommandsFresh(c1, job.task.body);
      RunCommandsOk(c1, job.task.body);
      var c2 := RunCommands(c1, job.task.body);
      if job.Periodic? { KeepOrigins(c2, job, job.interval); }
      assert Settle(c, a, job) == Fire(c, a, job);
    }
  }

  lemma {:induction false} ExpireAllOrigins(c: Calendar, order: seq<nat>)
    requires Valid(c) && OriginsOk(c) && IsOrderOf(order, DueNow(c))
    ensures OriginsOk(ExpireAll(c, order))
    decreases |order|
  {
    if order != [] {
      var a := order[0];
      ExpireOk(c, a, a);
      ExpireLoose(c, a);
      SettleOrigins(c.(agenda := c.agenda - {(c.now as nat, a)}), a);
      var d := Expire(c, a);
      assert IsOrderOf(order[1..], DueNow(d)) by {
        forall b: nat ensures b in order[1..] <==> b in DueNow(d) {
          assert b in order <==> b == a || b in order[1..];
        }
      }
      ExpireAllOrigins(d, order[1..]);
    }
  }

  lemma StepOrigins(c: Calendar, e: Event)
    requires Idle(c) && OriginsOk(c) && Enabled(c, e)
    ensures OriginsOk(Step(c, e))
  {
    match e
    case LetGo(node) =>
      assert Live(c, node);
      UnholdOk(c, node);
      SettleOrigins(Unhold(c, node), node);
    case After(delay, task) => RunCommandFresh(c, RunAfter(delay, task));
    case Every(interval, task) => RunCommandFresh(c, RunEvery(interval, task));
    case OnTime(first, second) =>
      AdvanceOk(c);
      ExpireAllOrigins(Advance(c), first);
      PopOk(c, first, 0);
      AdvanceOk(ExpireAll(Advance(c), first));
      if ExpireAll(Advance(c), first).now / 2 % SECONDS_PER_MINUTE == 0 {
        ExpireAllOrigins(Advance(ExpireAll(Advance(c), first)), second);
      }
    case _ =>
  }

  /** The series `o` has had its first `k` runs, at the closed-form ticks, and no run is overdue. */
  ghost predicate RanExactly(d: Calendar, o: nat, start: nat, interval: nat, k: nat) {
    && OriginTicks(d.log, o) == SeriesTicks(start, interval, k)
    && (0 < k ==> SeriesTick(start, interval, k) <= d.now / 2)
    && d.now / 2 < SeriesTick(start, interval, k + 1)
  }

  lemma SeriesBegins(c: Calendar, interval: Interval, task: TimerTask)
    requires Idle(c) && OriginsOk(c) && interval < SECONDS_PER_HOUR
    ensures Running(Step(c, Every(interval, task)), Series(c.next, interval, task, c.now / 2), 0)
  {
    var s := Series(c.next, interval, task, c.now / 2);
    var d := Step(c, Every(interval, task));
    assert d == Keep(c, s.Job(), interval);
    NewOk(c, s.Job());
    SeriesStart(s.start, interval);
    KeepShort(c, s.Job(), interval);
    hide Keep, Step, DueInstant, SeriesInstant, Valid;
    assert CarriesRun(d, s, 0, c.next);
  }

  lemma KeepShort(c: Calendar, job: Closure, interval: Interval)
    requires interval < SECONDS_PER_HOUR && c.next !in c.held
    ensures Keep(c, job, interval) == c.(next := c.next + 1, jobs := c.jobs[c.next := job],
      agenda := c.agenda + {(DueInstant(c.now, interval), c.next)}, accepted := c.accepted + {c.next})
  {
    InsertShort(New(c, job), interval, c.next);
    assert c.held + {c.next} - {c.next} == c.held;
  }

  lemma NextRunAhead(d: Calendar, s: Series, k: nat)
    requires Idle(d) && Running(d, s, k)
    ensures RanExactly(d, s.origin, s.start, s.interval, k)
  {
    var due := SeriesInstant(s.start, s.interval, k + 1);
    var n: nat :| CarriesRun(d, s, k, n);
    SeriesStart(s.start, s.interval);
    if 0 < k { SeriesStep(s.start, s.interval, k); }
    assert (due, n) in d.agenda;
  }

  /** Main result on `runEvery`: in every run that starts from a fresh wheel, a series started between
      ticks has at any later moment run exactly at the closed-form ticks that have passed. */
  lemma RunEveryClosedForm(before: seq<Event>, interval: Interval, task: TimerTask, after: seq<Event>,
                           c: Calendar, d: Calendar)
    requires AllEnabled(EMPTY, before) && c == Run(EMPTY, before) && interval < SECONDS_PER_HOUR
    requires AllEnabled(Step(c, Every(interval, task)), after) && d == Run(Step(c, Every(interval, task)), after)
    ensures exists k: nat :: RanExactly(d, c.next, c.now / 2, interval, k)
  {
    assert AgendaNodes({}) == {};
    OriginsAlwaysOk(EMPTY, before);
    SeriesBegins(c, interval, task);
    StepOk(c, Every(interval, task), 0);
    var s := Series(c.next, interval, task, c.now / 2);
    SeriesRuns(Step(c, Every(interval, task)), after, s, 0);
    var k: nat :| Running(d, s, k);
    NextRunAhead(d, s, k);
  }

  // Series started by tasks

  /** The tick between ticks from which a series started in the seconds pop of tick `t` could have come: the wheel
      has not been popped by the minute of this tick yet. */
  function ReentrantStart(t: nat, interval: nat): nat
    requires 1 <= t
  {
    if interval < SECONDS_PER_MINUTE then t else t - 1
  }

  /** The first run of a series started in the seconds pop or in the minute pop */
  lemma SeriesStartReentrant(now: Instant, interval: nat)
    requires 1 <= interval < SECONDS_PER_HOUR && (now % 2 == 0 ==> 2 <= now)
    ensures var start := if now % 2 == 0 then ReentrantStart(now / 2, interval) else now / 2;
            && DueInstant(now, interval) == SeriesInstant(start, interval, 1)
            && SeriesTick(start, interval, 1)
               == if now % 2 == 0 then ReentrantDueTick(now / 2, interval) else DueTick(now / 2, interval)
  {
    var t := now / 2;
    if now % 2 == 1 {
      SeriesStart(t, interval);
    } else if SECONDS_PER_MINUTE <= interval {
      assert MinutesPopped(now) == (t - 1) / SECONDS_PER_MINUTE;
      SeriesStart(t - 1, interval);
      assert MinutesPopped(2 * (t - 1) + 1) == MinutesPopped(now);
    }
  }

  /** A `runEvery` keeps one node, which carries a new series, with one appointment and no run yet. */
  lemma KeepCarries(c: Calendar, interval: Interval, task: TimerTask)
    requires Valid(c) && OriginsOk(c) && interval < SECONDS_PER_HOUR
    ensures Carries(RunCommand(c, RunEvery(interval, task)), c.next, Periodic(c.next, interval, task),
                    DueInstant(c.now, interval), [], c.next)
    ensures c.next in RunCommand(c, RunEvery(interval, task)).accepted
  {
    NewOk(c, Periodic(c.next, interval, task));
    KeepShort(c, Periodic(c.next, interval, task), interval);
  }

  /** Anywhere in the body of a task, one-shot or periodic, a `runEvery`: when the task has run, its node carries the
      series, with the task and the interval given, has one appointment, and is accepted. */
  lemma FiredTaskStartsSeries(c: Calendar, n: nat, job: Closure, before: seq<Command>, interval: Interval,
                              task: TimerTask, after: seq<Command>)
    requires ValidBut(c, n) && n in c.jobs && c.jobs[n] == job && !Live(c, n) && OriginsOk(c)
    requires job.task.body == before + [RunEvery(interval, task)] + after && interval < SECONDS_PER_HOUR
    ensures var m, d := MadeWhenFired(c, n, job, before), Fire(c, n, job);
            && Valid(d) && OriginsOk(d) && m in d.accepted
            && Carries(d, m, Periodic(m, interval, task), DueInstant(c.now, interval), [], m)
  {
    var cmd, due := RunEvery(interval, task), DueInstant(c.now, interval);
    var c0 := Logged(c, n, job);
    LoggedOk(c, n, job);
    LoggedFresh(c, n, job);
    var c1 := RunCommands(c0, before);
    RunCommandsOk(c0, before);
    RunCommandsFresh(c0, before);
    var m, carried := c1.next, Periodic(c1.next, interval, task);
    KeepCarries(c1, interval, task);
    var c2 := RunCommand(c1, cmd);
    RunCommandOk(c1, cmd);
    var c3 := RunCommands(c2, after);
    RunCommandsOk(c2, after);
    RunCommandsFresh(c2, after);
    CarriesKept(c2, c3, m, carried, due, [], m);
    CommandsConcat(c0, before + [cmd], after);
    CommandsConcat(c0, before, [cmd]);
    OneCommand(c1, cmd);
    if job.Periodic? {
      KeepOk(c3, job, job.interval);
      KeepOrigins(c3, job, job.interval);
      CarriesBesideKeep(c3, job, m, carried, due, [], m);
    }
  }

  /** Nothing that has happened since, in the same instant, was about the nodes and series of `c`. */
  ghost predicate Later(c: Calendar, e: Calendar) { Valid(e) && Extends(c, e) && OriginsOk(e) && Fresh(c, e) }

  lemma CarriedLater(c: Calendar, e: Calendar, s: Series)
    requires Valid(c) && Later(c, e) && s.Ok() && c.now == e.now && (c.now % 2 == 0 ==> 2 <= c.now)
    requires s.start == if c.now % 2 == 0 then ReentrantStart(c.now / 2, s.interval) else c.now / 2
    requires Carries(c, s.origin, s.Job(), DueInstant(c.now, s.interval), [], s.origin)
    ensures Running(e, s, 0)
  {
    SeriesStartReentrant(c.now, s.interval);
    CarriesKept(c, e, s.origin, s.Job(), DueInstant(c.now, s.interval), [], s.origin);
    assert CarriesRun(e, s, 0, s.origin);
  }

  /** A task that is run in the seconds pop of tick `t` starts a series: in every run that follows, the series has run
      at exactly those of its closed-form ticks that have passed. `e` is the calendar after whatever else happens
      before the pop goes on, and `rest` the nodes of the slot still to be destroyed. */
  lemma ReentrantSeriesClosedForm(c: Calendar, n: nat, job: Closure, before: seq<Command>, interval: Interval,
                                  task: TimerTask, after: seq<Command>, e: Calendar, rest: seq<nat>, second: seq<nat>,
                                  es: seq<Event>)
    requires ValidBut(c, n) && n in c.jobs && c.jobs[n] == job && !Live(c, n) && OriginsOk(c)
    requires job.task.body == before + [RunEvery(interval, task)] + after && interval < SECONDS_PER_HOUR
    requires c.now % 2 == 0 && Later(Fire(c, n, job), e) && IsOrderOf(rest, DueNow(e))
    requires IsOrderOf(second, DueNow(Advance(ExpireAll(e, rest)))) && AllEnabled(FinishTick(e, rest, second), es)
    ensures var d, m := Run(FinishTick(e, rest, second), es), MadeWhenFired(c, n, job, before);
            exists k: nat :: RanExactly(d, m, ReentrantStart(c.now / 2, interval), interval, k)
  {
    var m := MadeWhenFired(c, n, job, before);
    var s := Series(m, interval, task, ReentrantStart(c.now / 2, interval));
    FiredTaskStartsSeries(c, n, job, before, interval, task, after);
    FireOk(c, n, job);
    hide Fire, MadeWhenFired, FinishTick, ExpireAll, IsOrderOf, DueNow, RanExactly, Valid, ValidBut, Running, Run,
      DueInstant, OriginsOk, Carries, Live;
    CarriedLater(Fire(c, n, job), e, s);
    SeriesFinishTick(e, rest, second, s, 0);
    FinishTickOk(e, rest, second, 0);
    var j: nat :| Running(FinishTick(e, rest, second), s, j);
    SeriesRuns(FinishTick(e, rest, second), es, s, j);
    var k: nat :| Running(Run(FinishTick(e, rest, second), es), s, k);
    NextRunAhead(Run(FinishTick(e, rest, second), es), s, k);
  }

  /** In the minute pop: the ticks are those of a series started between ticks. */
  lemma MinutePopSeriesClosedForm(c: Calendar, n: nat, job: Closure, before: seq<Command>, interval: Interval,
                                  task: TimerTask, after: seq<Command>, e: Calendar, rest: seq<nat>, es: seq<Event>)
    requires ValidBut(c, n) && n in c.jobs && c.jobs[n] == job && !Live(c, n) && OriginsOk(c)
    requires job.task.body == before + [RunEvery(interval, task)] + after && interval < SECONDS_PER_HOUR
    requires c.now % 2 == 1 && Later(Fire(c, n, job), e) && IsOrderOf(rest, DueNow(e))
    requires AllEnabled(ExpireAll(e, rest), es)
    ensures var d, m := Run(ExpireAll(e, rest), es), MadeWhenFired(c, n, job, before);
            exists k: nat :: RanExactly(d, m, c.now / 2, interval, k)
  {
    var m := MadeWhenFired(c, n, job, before);
    var s := Series(m, interval, task, c.now / 2);
    FiredTaskStartsSeries(c, n, job, before, interval, task, after);
    FireOk(c, n, job);
    PopRestOk(e, rest, 0);
    hide Fire, MadeWhenFired, ExpireAll, IsOrderOf, DueNow, RanExactly, Valid, ValidBut, Running, Run,
      DueInstant, OriginsOk, Carries, Live;
    CarriedLater(Fire(c, n, job), e, s);
    SeriesExpireAll(e, rest, s, 0);
    var j: nat :| Running(ExpireAll(e, rest), s, j);
    SeriesRuns(ExpireAll(e, rest), es, s, j);
    var k: nat :| Running(Run(ExpireAll(e, rest), es), s, k);
    NextRunAhead(Run(ExpireAll(e, rest), es), s, k);
  }

  /** A pop that has got as far as the nodes `done` */
  lemma {:induction false} PopSoFar(c: Calendar, done: seq<nat>, rest: seq<nat>, m: nat)
    requires Valid(c) && OriginsOk(c) && IsOrderOf(done + rest, DueNow(c)) && m < c.next && m !in done
    ensures var d := ExpireAll(c, done);
            && Valid(d) && OriginsOk(d) && d.now == c.now && IsOrderOf(rest, DueNow(d)) && Popped(c, d, m, false)
            && ExpireAll(c, done + rest) == ExpireAll(d, rest)
    decreases |done|
  {
    hide Popped, Expire;
    if done == [] {
      assert done + rest == rest;
      PoppedNothing(c, m);
    } else {
      var a := done[0];
      assert (done + rest)[1..] == done[1..] + rest;
      OrderRest(done + rest, DueNow(c));
      ExpireOk(c, a, m);
      ExpireOrigins(c, a);
      hide Valid, OriginsOk, DueNow, IsOrderOf;
      var d := Expire(c, a);
      PopSoFar(d, done[1..], rest, m);
      PoppedOn(c, d, ExpireAll(d, done[1..]), m, false, false);
    }
  }

  lemma ExpireOrigins(c: Calendar, a: nat)
    requires Valid(c) && OriginsOk(c) && a in DueNow(c)
    ensures OriginsOk(Expire(c, a))
  {
    ExpireLoose(c, a);
    SettleOrigins(c.(agenda := c.agenda - {(c.now as nat, a)}), a);
  }

  /** A node whose last appointment is now is destroyed when it expires. */
  lemma LastExpires(c: Calendar, n: nat)
    requires Valid(c) && n in DueNow(c) && n !in c.held && n !in c.parked
    requires forall k: nat :: (k, n) in c.agenda ==> k == c.now
    ensures !Live(Dropped(c, n), n) && n in c.jobs && Expire(c, n) == Fire(Dropped(c, n), n, c.jobs[n])
    ensures ValidBut(Dropped(c, n), n)
  {
    DroppedOk(c, n);
    forall p <- Dropped(c, n).agenda ensures p.1 != n { assert p == (p.0, p.1); }
  }

  /** The node `n`, in a pop that has got as far as `done` */
  lemma NextToExpire(c: Calendar, n: nat, done: seq<nat>, rest: seq<nat>)
    requires Valid(c) && OriginsOk(c) && IsOrderOf(done + [n] + rest, DueNow(c)) && n in c.jobs
    requires n !in c.held && n !in c.parked && IsLast(c, n, c.now)
    ensures var x := ExpireAll(c, done);
            && x.now == c.now && OriginsOk(Dropped(x, n)) && ValidBut(Dropped(x, n), n) && !Live(Dropped(x, n), n)
            && n in x.jobs && x.jobs[n] == c.jobs[n] && Expire(x, n) == Fire(Dropped(x, n), n, c.jobs[n])
            && IsOrderOf(rest, DueNow(Expire(x, n)))
            && ExpireAll(c, done + [n] + rest) == ExpireAll(Expire(x, n), rest)
  {
    assert done + [n] + rest == done + ([n] + rest) && ([n] + rest)[1..] == rest;
    NotDoneYet(done, n, rest, DueNow(c));
    PopSoFar(c, done, [n] + rest, n);
    var x := ExpireAll(c, done);
    OrderRest([n] + rest, DueNow(x));
    hide IsOrderOf, OriginsOk, Valid, Expire, Fire;
    forall k: nat | (k, n) in x.agenda ensures k == x.now {
      assert (k, n) in c.agenda && k <= c.now && c.now <= k;
    }
    LastExpires(x, n);
    ExpireOk(x, n, n);
  }

  lemma NotDoneYet(done: seq<nat>, n: nat, rest: seq<nat>, nodes: set<nat>)
    requires IsOrderOf(done + [n] + rest, nodes)
    ensures n !in done
  {
    var all := done + [n] + rest;
    forall i | 0 <= i < |done| ensures done[i] != n { assert all[i] == done[i] && all[|done|] == n; }
  }

  /** A pop in which node `n` is destroyed, as its rest after that */
  lemma PopGoesOn(c: Calendar, n: nat, done: seq<nat>, rest: seq<nat>, second: seq<nat>)
    requires Valid(c) && OriginsOk(c) && IsOrderOf(done + [n] + rest, DueNow(c)) && n in c.jobs
    requires n !in c.held && n !in c.parked && IsLast(c, n, c.now)
    requires IsOrderOf(second, DueNow(Advance(ExpireAll(c, done + [n] + rest))))
    ensures var x := Dropped(ExpireAll(c, done), n);
            && x.now == c.now && OriginsOk(x) && ValidBut(x, n) && !Live(x, n) && n in x.jobs && x.jobs[n] == c.jobs[n]
            && var e := Fire(x, n, c.jobs[n]);
            && IsOrderOf(rest, DueNow(e)) && IsOrderOf(second, DueNow(Advance(ExpireAll(e, rest))))
            && FinishTick(e, rest, second) == FinishTick(c, done + [n] + rest, second)
  {
    NextToExpire(c, n, done, rest);
    hide IsOrderOf, OriginsOk, Valid, ValidBut, Expire, Fire, ExpireAll, Live;
  }

  lemma LaterSelf(c: Calendar)
    requires Valid(c) && OriginsOk(c)
    ensures Later(c, c)
  {
    ExtendsSelf(c);
  }

  lemma SeriesFromPop(c: Calendar, n: nat, done: seq<nat>, rest: seq<nat>, second: seq<nat>, before: seq<Command>,
                      interval: Interval, task: TimerTask, after: seq<Command>, es: seq<Event>)
    requires Valid(c) && OriginsOk(c) && IsOrderOf(done + [n] + rest, DueNow(c)) && n in c.jobs && c.now % 2 == 0
    requires n !in c.held && n !in c.parked && IsLast(c, n, c.now) && interval < SECONDS_PER_HOUR
    requires c.jobs[n].task.body == before + [RunEvery(interval, task)] + after
    requires IsOrderOf(second, DueNow(Advance(ExpireAll(c, done + [n] + rest))))
    requires AllEnabled(FinishTick(c, done + [n] + rest, second), es)
    ensures var m := MadeWhenFired(Dropped(ExpireAll(c, done), n), n, c.jobs[n], before);
            exists k: nat :: RanExactly(Run(FinishTick(c, done + [n] + rest, second), es), m,
                                        ReentrantStart(c.now / 2, interval), interval, k)
  {
    PopGoesOn(c, n, done, rest, second);
    var x, job := Dropped(ExpireAll(c, done), n), c.jobs[n];
    FiredTaskStartsSeries(x, n, job, before, interval, task, after);
    hide IsOrderOf, OriginsOk, Valid, ValidBut, Expire, Fire, ExpireAll, Live, Dropped, FinishTick, Carries, DueNow,
      RanExactly, IsLast, AllEnabled, MadeWhenFired, Run, Later;
    LaterSelf(Fire(x, n, job));
    ReentrantSeriesClosedForm(x, n, job, before, interval, task, after, Fire(x, n, job), rest, second, es);
  }

  lemma AdvancedRunOk(past: seq<Event>, n: nat)
    requires AllEnabled(EMPTY, past)
    ensures var c := Run(EMPTY, past);
            var a := Advance(c);
            Valid(a) && a.now % 2 == 0 && OriginsOk(a) && (IsLast(c, n, c.now + 1) ==> IsLast(a, n, a.now))
  {
    assert AgendaNodes({}) == {};
    OriginsAlwaysOk(EMPTY, past);
    AdvanceOk(Run(EMPTY, past));
  }

  /** End to end: in a run from a fresh wheel, node `n` is destroyed by the seconds pop of a tick, in whatever order,
      and the body of its task calls `runEvery`; then in every run that follows the new series has run at exactly
      those of its closed-form ticks that have passed. */
  lemma SeriesFromTask(past: seq<Event>, c: Calendar, n: nat, done: seq<nat>, rest: seq<nat>, second: seq<nat>,
                       before: seq<Command>, interval: Interval, task: TimerTask, after: seq<Command>, es: seq<Event>)
    requires AllEnabled(EMPTY, past) && c == Run(EMPTY, past) && interval < SECONDS_PER_HOUR
    requires n in c.jobs && n !in c.held && n !in c.parked && IsLast(c, n, c.now + 1)
    requires c.jobs[n].task.body == before + [RunEvery(interval, task)] + after
    requires Enabled(c, OnTime(done + [n] + rest, second))
    requires AllEnabled(Step(c, OnTime(done + [n] + rest, second)), es)
    ensures var a := Advance(c);
            var m := MadeWhenFired(Dropped(ExpireAll(a, done), n), n, c.jobs[n], before);
            exists k: nat :: RanExactly(Run(Step(c, OnTime(done + [n] + rest, second)), es), m,
                                        ReentrantStart(a.now / 2, interval), interval, k)
  {
    hide IsOrderOf, OriginsOk, Valid, ExpireAll, Dropped, FinishTick, RanExactly, IsLast, AllEnabled, MadeWhenFired,
      Run;
    AdvancedRunOk(past, n);
    var a := Advance(c);
    SeriesFromPop(a, n, done, rest, second, before, interval, task, after, es);
  }
}
