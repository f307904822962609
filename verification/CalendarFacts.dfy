/** What every step of the calendar keeps: a node is destroyed, and its task run, exactly once. */
module CalendarFacts {
  import opened Calendar

  /** The runs of the node's task, oldest first. */
  function FiringsOf(log: seq<Firing>, n: nat): seq<Firing> {
    if log == [] then []
    else
      var last := log[|log| - 1];
      FiringsOf(log[..|log| - 1], n) + if last.node == n then [last] else []
  }

  function Record(c: Calendar, n: nat, job: Closure): Firing {
    Firing(c.now / 2, n, OriginOf(n, job), job.task)
  }

  lemma FiringsOfSnoc(log: seq<Firing>, f: Firing, n: nat)
    ensures FiringsOf(log + [f], n) == FiringsOf(log, n) + if f.node == n then [f] else []
  {
    assert (log + [f])[..|log|] == log;
  }

  ghost predicate AgendaOk(c: Calendar) {
    forall p <- c.agenda :: c.now <= p.0 && (p.0 % 2 == 1 ==> p.0 / 2 % SECONDS_PER_MINUTE == 0)
  }

  /** Every id below `next` is either alive or fired exactly once. */
  ghost predicate LogOk(c: Calendar) {
    && (forall n <- c.jobs :: n < c.next)
    && (forall n: nat :: |FiringsOf(c.log, n)| == if n < c.next && n !in c.jobs then 1 else 0)
  }

  /** All nodes but possibly `loose` are alive exactly as long as somebody refers to them. */
  ghost predicate ValidBut(c: Calendar, loose: nat) {
    && AgendaOk(c)
    && LogOk(c)
    && (forall n: nat :: Live(c, n) ==> n in c.jobs)
    && (forall n <- c.jobs :: n == loose || Live(c, n))
  }

  ghost predicate Valid(c: Calendar) {
    && AgendaOk(c)
    && LogOk(c)
    && (forall n: nat :: n in c.jobs <==> Live(c, n))
  }

  /** `d` is a later state of the same instant: nothing has happened to the nodes `c` knew. */
  ghost predicate Extends(c: Calendar, d: Calendar) {
    && d.now == c.now
    && c.next <= d.next
    && c.log <= d.log && c.accepted <= d.accepted
    && (forall n: nat :: n < c.next ==> (n in d.jobs <==> n in c.jobs) && (n in c.jobs ==> d.jobs[n] == c.jobs[n]))
    && (forall n: nat :: n < c.next ==> (n in d.held <==> n in c.held) && (n in d.parked <==> n in c.parked))
    && (forall n: nat :: n < c.next ==> FiringsOf(d.log, n) == FiringsOf(c.log, n))
    && (forall p: (nat, nat) :: p.1 < c.next ==> (p in d.agenda <==> p in c.agenda))
    && (forall p: (nat, nat) :: p in d.agenda && c.next <= p.1 ==> c.now < p.0)
  }

  lemma AcceptOk(c: Calendar, d: Calendar, delay: int, n: nat)
    requires Valid(d) && Extends(c, d)
    ensures Valid(Accept(d, delay, n)) && Extends(c, Accept(d, delay, n))
  {
    var e := Accept(d, delay, n);
    forall m: nat ensures Live(e, m) == Live(d, m) {}
  }

  lemma ExtendsTransitive(c: Calendar, d: Calendar, e: Calendar)
    requires Extends(c, d) && Extends(d, e)
    ensures Extends(c, e)
  {
  }

  lemma ExtendsSelf(c: Calendar)
    requires Valid(c)
    ensures Extends(c, c)
  {
    forall p <- c.agenda ensures p.1 < c.next {
      assert p.1 in AgendaNodes(c.agenda);
      assert Live(c, p.1);
    }
  }

  lemma DueInstantLater(now: Instant, delay: nat)
    requires 1 <= delay < SECONDS_PER_HOUR
    ensures now < DueInstant(now, delay)
    ensures DueInstant(now, delay) % 2 == 1 ==> DueInstant(now, delay) / 2 % SECONDS_PER_MINUTE == 0
  {
  }

  lemma AgendaNodesAdd(agenda: set<(nat, nat)>, k: nat, n: nat)
    ensures AgendaNodes(agenda + {(k, n)}) == AgendaNodes(agenda) + {n}
  {
    assert (k, n) in agenda + {(k, n)};
    forall m <- AgendaNodes(agenda) ensures m in AgendaNodes(agenda + {(k, n)}) {
      var p :| p in agenda && p.1 == m;
      assert p in agenda + {(k, n)};
    }
  }

  /** An insertion only adds a reference to the node. */
  lemma InsertOk(c: Calendar, delay: nat, n: nat)
    requires Valid(c) && n in c.jobs
    ensures var d := Insert(c, delay, n);
            && Valid(d)
            && d == c.(agenda := d.agenda, parked := d.parked)
            && (forall m: nat :: m != n ==> (m in d.parked <==> m in c.parked))
            && (forall p: (nat, nat) :: p.1 != n ==> (p in d.agenda <==> p in c.agenda))
            && (forall p: (nat, nat) :: p in d.agenda ==> p in c.agenda || c.now < p.0)
            && c.agenda <= d.agenda && c.parked <= d.parked
  {
    if delay == 0 || delay / SECONDS_PER_DAY > 30 {
    } else if delay < SECONDS_PER_HOUR {
      DueInstantLater(c.now, delay);
      AgendaNodesAdd(c.agenda, DueInstant(c.now, delay), n);
    } else {
    }
  }

  lemma {:induction false} InsertAllOk(c: Calendar, delays: seq<int>, n: nat)
    requires Valid(c) && n in c.jobs
    ensures var d := InsertAll(c, delays, n);
            && Valid(d)
            && d == c.(agenda := d.agenda, parked := d.parked)
            && (forall m: nat :: m != n ==> (m in d.parked <==> m in c.parked))
            && (forall p: (nat, nat) :: p.1 != n ==> (p in d.agenda <==> p in c.agenda))
            && (forall p: (nat, nat) :: p in d.agenda ==> p in c.agenda || c.now < p.0)
    decreases |delays|
  {
    if delays != [] {
      InsertOk(c, U32(delays[0]), n);
      InsertAllOk(Insert(c, U32(delays[0]), n), delays[1..], n);
    }
  }

  lemma NewOk(c: Calendar, job: Closure)
    requires Valid(c)
    ensures Valid(New(c, job)) && Extends(c, New(c, job))
    ensures c.next !in c.jobs && c.next !in c.held && c.next !in c.parked
    ensures forall p <- c.agenda :: p.1 < c.next
  {
    var d := New(c, job);
    assert !Live(c, c.next);
    forall p <- c.agenda ensures p.1 < c.next {
      assert p.1 in AgendaNodes(c.agenda);
      assert Live(c, p.1);
    }
    forall n: nat ensures n in d.jobs <==> Live(d, n) {
      assert n in c.jobs <==> Live(c, n);
    }
  }

  /** Destroying a node that nobody refers to any more. */
  ghost predicate FiredFrom(c: Calendar, d: Calendar, n: nat, job: Closure) {
    Extends(Logged(c, n, job), d)
  }

  lemma LoggedOk(c: Calendar, n: nat, job: Closure)
    requires ValidBut(c, n) && n in c.jobs && !Live(c, n)
    ensures Valid(Logged(c, n, job))
    ensures forall m: nat ::
      FiringsOf(Logged(c, n, job).log, m) == FiringsOf(c.log, m) + if m == n then [Record(c, n, job)] else []
  {
    var d := Logged(c, n, job);
    forall m: nat ensures FiringsOf(d.log, m) == FiringsOf(c.log, m) + if m == n then [Record(c, n, job)] else [] {
      FiringsOfSnoc(c.log, Record(c, n, job), m);
    }
    forall m: nat ensures m in d.jobs <==> Live(d, m) {
      assert Live(d, m) == Live(c, m);
    }
  }

  lemma {:induction false} FireOk(c: Calendar, n: nat, job: Closure)
    requires ValidBut(c, n) && n in c.jobs && !Live(c, n)
    ensures Valid(Fire(c, n, job)) && FiredFrom(c, Fire(c, n, job), n, job)
    decreases job.task, 1
  {
    LoggedOk(c, n, job);
    var c1 := Logged(c, n, job);
    RunCommandsOk(c1, job.task.body);
    var c2 := RunCommands(c1, job.task.body);
    if job.Periodic? {
      KeepOk(c2, job, job.interval);
      ExtendsTransitive(c1, c2, Keep(c2, job, job.interval));
    }
  }

  lemma KeepOk(c: Calendar, job: Closure, interval: Interval)
    requires Valid(c)
    ensures Valid(Keep(c, job, interval)) && Extends(c, Keep(c, job, interval))
  {
    NewOk(c, job);
    var n := c.next;
    var c1 := New(c, job);
    InsertOk(c1, U32(interval), n);
    var c2 := Insert(c1, U32(interval), n);
    assert n in c2.parked || n in AgendaNodes(c2.agenda) by {
      if interval < SECONDS_PER_HOUR { AgendaNodesAdd(c1.agenda, DueInstant(c1.now, interval), n); }
    }
    var d := Unhold(c2, n);
    forall m: nat ensures m in d.jobs <==> Live(d, m) {
      assert m in c2.jobs <==> Live(c2, m);
    }
    AcceptOk(c, d, interval, n);
  }

  lemma {:induction false} SettleOk(c: Calendar, n: nat, job: Closure)
    requires ValidBut(c, n) && n in c.jobs
    ensures Valid(Settle(c, n, job))
    ensures if Live(c, n) then Settle(c, n, job) == c else FiredFrom(c, Settle(c, n, job), n, job)
    decreases job.task, 2
  {
    if !Live(c, n) { FireOk(c, n, job); }
  }

  lemma UnholdOk(c: Calendar, n: nat)
    requires Valid(c)
    ensures ValidBut(Unhold(c, n), n)
  {
    var d := Unhold(c, n);
    forall m: nat ensures Live(d, m) ==> Live(c, m) {}
    forall m: nat ensures m != n && Live(c, m) ==> Live(d, m) {}
  }

  /** A node made, inserted and let go of by its maker. */
  lemma {:induction false} MadeOk(c: Calendar, task: TimerTask, c2: Calendar)
    requires Valid(c) && Valid(c2)
    requires c2 == New(c, Plain(task)).(agenda := c2.agenda, parked := c2.parked)
    requires forall m: nat :: m != c.next ==> (m in c2.parked <==> m in c.parked)
    requires forall p: (nat, nat) :: p.1 != c.next ==> (p in c2.agenda <==> p in c.agenda)
    requires forall p: (nat, nat) :: p in c2.agenda ==> p in c.agenda || c.now < p.0
    ensures var d := Settle(Unhold(c2, c.next), c.next, Plain(task)); Valid(d) && Extends(c, d)
    decreases task, 3
  {
    var n := c.next;
    NewOk(c, Plain(task));
    UnholdOk(c2, n);
    var c3 := Unhold(c2, n);
    SettleOk(c3, n, Plain(task));
    assert Extends(c, c3);
    if !Live(c3, n) {
      var c4 := Logged(c3, n, Plain(task));
      LoggedOk(c3, n, Plain(task));
      assert Extends(c, c4);
      ExtendsTransitive(c, c4, Settle(c3, n, Plain(task)));
    }
  }

  lemma {:induction false} RunCommandOk(c: Calendar, cmd: Command)
    requires Valid(c)
    ensures Valid(RunCommand(c, cmd)) && Extends(c, RunCommand(c, cmd))
    decreases cmd, 0
  {
    match cmd
    case RunAfter(delay, task) =>
      NewOk(c, Plain(task));
      InsertOk(New(c, Plain(task)), U32(delay), c.next);
      var c2 := Insert(New(c, Plain(task)), U32(delay), c.next);
      MadeOk(c, task, c2);
      AcceptOk(c, Settle(Unhold(c2, c.next), c.next, Plain(task)), delay, c.next);
    case Share(delays, task) =>
      NewOk(c, Plain(task));
      InsertAllOk(New(c, Plain(task)), delays, c.next);
      MadeOk(c, task, InsertAll(New(c, Plain(task)), delays, c.next));
    case RunEvery(interval, task) =>
      KeepOk(c, Periodic(c.next, interval, task), interval);
  }

  lemma {:induction false} RunCommandsOk(c: Calendar, cmds: seq<Command>)
    requires Valid(c)
    ensures Valid(RunCommands(c, cmds)) && Extends(c, RunCommands(c, cmds))
    decreases cmds, 0
  {
    if cmds == [] {
      ExtendsSelf(c);
    } else {
      RunCommandOk(c, cmds[0]);
      RunCommandsOk(RunCommand(c, cmds[0]), cmds[1..]);
      ExtendsTransitive(c, RunCommand(c, cmds[0]), RunCommands(c, cmds));
    }
  }
}
