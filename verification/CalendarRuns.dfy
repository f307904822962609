/** When tasks fire, in every run of the calendar. */
module CalendarRuns {
  import opened Calendar
  import opened CalendarFacts

  /** Between two ticks. */
  ghost predicate Idle(c: Calendar) {
    Valid(c) && c.now % 2 == 1 && forall p <- c.agenda :: c.now < p.0
  }

  /** What the pop at instant `c.now` does to node `m`; `due` tells whether the node was in the slot. */
  ghost predicate Popped(c: Calendar, d: Calendar, m: nat, due: bool) {
    && (forall k: nat :: (k, m) in d.agenda <==> (k, m) in c.agenda && !(due && k == c.now))
    && (m in d.parked <==> m in c.parked)
    && (m in d.held <==> m in c.held)
    && (m in d.jobs ==> m in c.jobs && d.jobs[m] == c.jobs[m])
    && FiringsOf(d.log, m)
       == FiringsOf(c.log, m) + if m in c.jobs && m !in d.jobs then [Record(c, m, c.jobs[m])] else []
  }

  /** The calendar without the reference that expires */
  function Dropped(c: Calendar, n: nat): Calendar { c.(agenda := c.agenda - {(c.now as nat, n)}) }

  lemma DroppedOk(c: Calendar, n: nat)
    requires Valid(c) && n in DueNow(c)
    ensures Live(c, n) && n in c.jobs && ValidBut(Dropped(c, n), n)
  {
    var c1 := Dropped(c, n);
    assert n in AgendaNodes(c.agenda);
    forall a: nat ensures Live(c1, a) ==> Live(c, a) {}
    forall a <- c.jobs ensures a == n || Live(c1, a) {
      if a != n && a in AgendaNodes(c.agenda) {
        var p :| p in c.agenda && p.1 == a;
        assert p in c1.agenda;
      }
    }
  }

  lemma ExpireOk(c: Calendar, n: nat, m: nat)
    requires Valid(c) && n in DueNow(c)
    ensures var d := Expire(c, n);
            Valid(d) && d.now == c.now && c.next <= d.next && (m < c.next ==> Popped(c, d, m, m == n))
    ensures DueNow(Expire(c, n)) == DueNow(c) - {n}
  {
    var c1 := Dropped(c, n);
    DroppedOk(c, n);
    SettleOk(c1, n, c.jobs[n]);
    var d := Expire(c, n);
    if !Live(c1, n) { LoggedOk(c1, n, c.jobs[n]); }
    forall a: nat ensures a in DueNow(d) <==> a in DueNow(c) - {n} {
      assert a in DueNow(d) <==> (c.now as nat, a) in d.agenda;
      assert a in DueNow(c) <==> (c.now as nat, a) in c.agenda;
      if (c.now as nat, a) in c.agenda { assert a in AgendaNodes(c.agenda); assert Live(c, a); }
    }
  }

  lemma {:induction false} ExpireAllOk(c: Calendar, order: seq<nat>, m: nat)
    requires Valid(c) && IsOrderOf(order, DueNow(c))
    ensures var d := ExpireAll(c, order);
            Valid(d) && d.now == c.now && c.next <= d.next && DueNow(d) == {}
            && (m < c.next ==> Popped(c, d, m, m in order))
    decreases |order|
  {
    hide Valid, Popped, Expire, DueNow;
    if order == [] {
      forall a: nat ensures a !in DueNow(c) { assert a !in order; }
      PoppedNothing(c, m);
    } else {
      var n := order[0];
      OrderRest(order, DueNow(c));
      hide IsOrderOf;
      ExpireOk(c, n, m);
      ExpireAllOk(Expire(c, n), order[1..], m);
      if m < c.next { PoppedOn(c, Expire(c, n), ExpireAll(c, order), m, m == n, m in order[1..]); }
    }
  }

  lemma OrderRest(order: seq<nat>, nodes: set<nat>)
    requires IsOrderOf(order, nodes) && order != []
    ensures order[0] in nodes && order[0] !in order[1..] && IsOrderOf(order[1..], nodes - {order[0]})
  {
    forall a: nat ensures a in order[1..] <==> a in nodes - {order[0]} {
      assert a in order <==> a == order[0] || a in order[1..];
    }
  }

  lemma PoppedNothing(c: Calendar, m: nat)
    ensures Popped(c, c, m, false)
  {
  }

  lemma PoppedOn(c: Calendar, d: Calendar, e: Calendar, m: nat, now: bool, later: bool)
    requires Popped(c, d, m, now) && Popped(d, e, m, later) && d.now == c.now
    ensures Popped(c, e, m, now || later)
  {
    hide FiringsOf;
  }

  lemma AdvanceOk(c: Calendar)
    requires Valid(c)
    requires forall p <- c.agenda :: c.now < p.0
    ensures Valid(Advance(c))
  {
    forall n: nat ensures Live(Advance(c), n) == Live(c, n) {}
  }

  /** `last` is the last appointment of node `n`. */
  ghost predicate IsLast(c: Calendar, n: nat, last: nat) {
    (last, n) in c.agenda && forall k: nat :: (k, n) in c.agenda ==> k <= last
  }

  /** What a step that does not name node `m` does to it: its past appointments go, and once it is
      destroyed it has fired at the tick of its last appointment. */
  ghost predicate Progress(c: Calendar, d: Calendar, m: nat) {
    && c.now <= d.now && c.next <= d.next
    && (m in d.held <==> m in c.held) && (m in d.parked <==> m in c.parked)
    && (forall k: nat :: (k, m) in d.agenda <==> (k, m) in c.agenda && d.now < k)
    && (m in d.jobs ==> m in c.jobs && d.jobs[m] == c.jobs[m])
    && (m in c.jobs && m in d.jobs ==> FiringsOf(d.log, m) == FiringsOf(c.log, m))
    && (m !in c.jobs ==> FiringsOf(d.log, m) == FiringsOf(c.log, m))
    && (m in c.jobs && m !in d.jobs ==>
          exists last: nat :: IsLast(c, m, last) && last <= d.now
                              && FiringsOf(d.log, m) == [Firing(last / 2, m, OriginOf(m, c.jobs[m]), c.jobs[m].task)])
  }

  lemma AppointmentIsReference(c: Calendar, k: nat, m: nat)
    ensures (k, m) in c.agenda ==> Live(c, m)
  {
    if (k, m) in c.agenda { assert (k, m).1 in AgendaNodes(c.agenda); }
  }

  lemma NotLive(c: Calendar, m: nat)
    requires !Live(c, m)
    ensures m !in c.held && m !in c.parked && forall k: nat :: (k, m) !in c.agenda
  {
    forall k: nat ensures (k, m) !in c.agenda {
      AppointmentIsReference(c, k, m);
    }
  }

  /** The rest of a pop: the nodes `order` are still to be destroyed. */
  lemma PopRestOk(c: Calendar, order: seq<nat>, m: nat)
    requires Valid(c) && IsOrderOf(order, DueNow(c))
    ensures var d := ExpireAll(c, order);
            Valid(d) && d.now == c.now && (forall p <- d.agenda :: d.now < p.0) && c.next <= d.next
            && (m < c.next ==> Progress(c, d, m))
  {
    ExpireAllOk(c, order, m);
    var d := ExpireAll(c, order);
    forall p <- d.agenda ensures d.now < p.0 {
      assert p.1 !in DueNow(d);
    }
    forall k: nat | m < c.next ensures (k, m) in d.agenda <==> (k, m) in c.agenda && d.now < k {
      assert (c.now as nat, m) in c.agenda ==> m in DueNow(c);
    }
    if m < c.next && m in c.jobs && m !in d.jobs {
      NotLive(d, m);
      assert Live(c, m);
      assert m in AgendaNodes(c.agenda);
      var p :| p in c.agenda && p.1 == m;
      assert (p.0, m) in c.agenda;
      assert p.0 == c.now by { assert (p.0, m) !in d.agenda; }
      assert IsLast(c, m, p.0);
      assert |FiringsOf(c.log, m)| == 0;
    }
  }

  /** One of the two pops of a tick. */
  lemma PopOk(c: Calendar, order: seq<nat>, m: nat)
    requires Valid(c) && (forall p <- c.agenda :: c.now < p.0)
    requires IsOrderOf(order, DueNow(Advance(c)))
    ensures var d := ExpireAll(Advance(c), order);
            Valid(d) && d.now == c.now + 1 && (forall p <- d.agenda :: d.now < p.0) && c.next <= d.next
            && (m < c.next ==> Progress(c, d, m))
  {
    AdvanceOk(c);
    PopRestOk(Advance(c), order, m);
    var d := ExpireAll(Advance(c), order);
    if m < c.next && m in c.jobs && m !in d.jobs {
      var last: nat :| IsLast(Advance(c), m, last) && last <= d.now
                  && FiringsOf(d.log, m) == [Firing(last / 2, m, OriginOf(m, c.jobs[m]), c.jobs[m].task)];
      assert IsLast(c, m, last);
    }
  }

  lemma ProgressTransitive(c: Calendar, d: Calendar, e: Calendar, m: nat)
    requires Valid(c) && Valid(d) && Valid(e) && m < c.next
    requires Progress(c, d, m) && Progress(d, e, m)
    ensures Progress(c, e, m)
  {
    if m in d.jobs && m !in e.jobs {
      var last: nat :| IsLast(d, m, last) && last <= e.now
                  && FiringsOf(e.log, m) == [Firing(last / 2, m, OriginOf(m, d.jobs[m]), d.jobs[m].task)];
      forall k: nat | (k, m) in c.agenda ensures k <= last {
        if d.now < k { assert (k, m) in d.agenda; }
      }
      assert IsLast(c, m, last);
    } else if m in c.jobs && m !in d.jobs {
      var last: nat :| IsLast(c, m, last) && last <= d.now
                  && FiringsOf(d.log, m) == [Firing(last / 2, m, OriginOf(m, c.jobs[m]), c.jobs[m].task)];
      assert FiringsOf(e.log, m) == FiringsOf(d.log, m);
    }
  }

  /** No minute pop at this tick */
  lemma SkipPopOk(c: Calendar, d: Calendar, m: nat)
    requires Valid(d) && d.now % 2 == 0 && d.now / 2 % SECONDS_PER_MINUTE != 0 && (forall p <- d.agenda :: d.now < p.0)
             && c.now == d.now
    requires m < c.next ==> Progress(c, d, m)
    ensures Idle(Advance(d)) && (m < c.next ==> Progress(c, Advance(d), m))
  {
    AdvanceOk(d);
    assert (d.now + 1) % 2 == 1 && (d.now + 1) / 2 == d.now / 2;
    assert forall p <- d.agenda :: p.0 != d.now + 1;
    if m < c.next && m in c.jobs && m !in d.jobs {
      var last: nat :| IsLast(c, m, last) && last <= d.now
                && FiringsOf(d.log, m) == [Firing(last / 2, m, OriginOf(m, c.jobs[m]), c.jobs[m].task)];
    }
  }

  /** The minute pop */
  lemma MinutePopOk(c: Calendar, d: Calendar, second: seq<nat>, m: nat)
    requires Valid(c) && Valid(d) && d.now % 2 == 0 && (forall p <- d.agenda :: d.now < p.0) && c.now == d.now
    requires IsOrderOf(second, DueNow(Advance(d))) && c.next <= d.next && (m < c.next ==> Progress(c, d, m))
    ensures var e := ExpireAll(Advance(d), second);
            Idle(e) && e.now == d.now + 1 && d.next <= e.next && (m < c.next ==> Progress(c, e, m))
  {
    hide Progress, Valid, IsOrderOf, DueNow, ExpireAll;
    PopOk(d, second, m);
    if m < c.next { ProgressTransitive(c, d, ExpireAll(Advance(d), second), m); }
  }

  lemma FinishTickOk(c: Calendar, first: seq<nat>, second: seq<nat>, m: nat)
    requires Valid(c) && c.now % 2 == 0 && IsOrderOf(first, DueNow(c))
    requires IsOrderOf(second, DueNow(Advance(ExpireAll(c, first))))
    ensures var d := FinishTick(c, first, second);
            Idle(d) && d.now == c.now + 1 && c.next <= d.next && (m < c.next ==> Progress(c, d, m))
  {
    hide Progress, Valid, IsOrderOf, DueNow, ExpireAll, Idle;
    PopRestOk(c, first, m);
    var d := ExpireAll(c, first);
    if d.now / 2 % SECONDS_PER_MINUTE == 0 {
      MinutePopOk(c, d, second, m);
    } else {
      SkipPopOk(c, d, m);
    }
  }

  lemma TickOk(c: Calendar, first: seq<nat>, second: seq<nat>, m: nat)
    requires Idle(c) && Enabled(c, OnTime(first, second))
    ensures var d := Tick(c, first, second);
            Idle(d) && d.now == c.now + 2 && c.next <= d.next && (m < c.next ==> Progress(c, d, m))
  {
    AdvanceOk(c);
    var a := Advance(c);
    FinishTickOk(a, first, second, m);
    var d := Tick(c, first, second);
    if m < c.next && m in c.jobs && m !in d.jobs {
      var last: nat :| IsLast(a, m, last) && last <= d.now
                  && FiringsOf(d.log, m) == [Firing(last / 2, m, OriginOf(m, c.jobs[m]), c.jobs[m].task)];
      assert IsLast(c, m, last);
    }
  }

  /** Each `onTime` fires, of the nodes that no caller and no hour or day slot keeps, exactly those whose
      last appointment is at that tick, each with its own task. */
  lemma EachTickFiresExactlyTheDue(c: Calendar, first: seq<nat>, second: seq<nat>, n: nat)
    requires Idle(c) && Enabled(c, OnTime(first, second))
    requires n in c.jobs && n !in c.held && n !in c.parked
    ensures var d := Tick(c, first, second);
            var due := exists last: nat :: IsLast(c, n, last) && last / 2 == c.now / 2 + 1;
            && (n in d.jobs <==> !due)
            && FiringsOf(d.log, n)
               == if due then [Firing(c.now / 2 + 1, n, OriginOf(n, c.jobs[n]), c.jobs[n].task)] else []
  {
    var d := Tick(c, first, second);
    TickOk(c, first, second, n);
    assert |FiringsOf(c.log, n)| == 0;
    if n in d.jobs {
      assert Live(d, n);
      var p :| p in d.agenda && p.1 == n;
      assert (p.0, n) in d.agenda;
      assert (p.0, n) in c.agenda && d.now < p.0;
      forall last: nat | IsLast(c, n, last) ensures last / 2 != c.now / 2 + 1 {
        assert p.0 <= last;
      }
    }
  }

  ghost predicate Names(e: Event, m: nat) {
    match e
    case Put(node, _) => node == m
    case LetGo(node) => node == m
    case _ => false
  }

  /** Between ticks, what leaves a node alone is progress. */
  lemma StillProgress(c: Calendar, d: Calendar, m: nat)
    requires Idle(c) && d.now == c.now && c.next <= d.next
    requires (m in d.held <==> m in c.held) && (m in d.parked <==> m in c.parked)
    requires forall k: nat :: (k, m) in d.agenda <==> (k, m) in c.agenda
    requires (m in d.jobs <==> m in c.jobs) && (m in c.jobs ==> d.jobs[m] == c.jobs[m])
    requires FiringsOf(d.log, m) == FiringsOf(c.log, m)
    ensures Progress(c, d, m)
  {
  }

  lemma ExtendsProgress(c: Calendar, d: Calendar, m: nat)
    requires Idle(c) && Extends(c, d) && m < c.next
    ensures Progress(c, d, m)
  {
    StillProgress(c, d, m);
  }

  lemma ExtendsIdle(c: Calendar, d: Calendar)
    requires Idle(c) && Extends(c, d) && Valid(d)
    ensures Idle(d)
  {
    forall p <- d.agenda ensures d.now < p.0 {
      if p.1 < c.next { assert p in c.agenda; }
    }
  }

  lemma PutOk(c: Calendar, node: nat, seconds: nat, m: nat)
    requires Idle(c) && node in c.held
    ensures var d := Insert(c, seconds, node); Idle(d) && c.next <= d.next && c.now == d.now
    ensures m != node ==> Progress(c, Insert(c, seconds, node), m)
  {
    assert Live(c, node);
    InsertOk(c, seconds, node);
    if m != node { StillProgress(c, Insert(c, seconds, node), m); }
  }

  lemma LetGoOk(c: Calendar, node: nat, m: nat)
    requires Idle(c) && node in c.held
    ensures var d := Step(c, LetGo(node));
            && Idle(d) && c.next <= d.next && c.now == d.now && node in c.jobs
            && (m < c.next && m != node ==> Progress(c, d, m))
            && node !in d.held && (node in d.parked <==> node in c.parked)
            && (forall k: nat :: (k, node) in d.agenda <==> (k, node) in c.agenda)
            && (if node in d.jobs then d.jobs[node] == c.jobs[node]
                else FiringsOf(d.log, node) == [Record(c, node, c.jobs[node])])
  {
    assert Live(c, node);
    var c1, d := Unhold(c, node), Step(c, LetGo(node));
    UnholdOk(c, node);
    SettleOk(c1, node, c.jobs[node]);
    assert FiringsOf(c.log, node) == [];
    if Live(c1, node) {
      if m != node { StillProgress(c, d, m); }
    } else {
      var c2 := Logged(c1, node, c.jobs[node]);
      LoggedOk(c1, node, c.jobs[node]);
      LaterIdle(c, c2, d);
      if m < c.next && m != node { StillProgress(c, d, m); }
    }
  }

  lemma LaterIdle(c: Calendar, c2: Calendar, d: Calendar)
    requires Idle(c) && c2.agenda == c.agenda && c2.now == c.now && Valid(c2) && Valid(d) && Extends(c2, d)
    ensures Idle(d)
  {
    ExtendsIdle(c2, d);
  }

  lemma StepOk(c: Calendar, e: Event, m: nat)
    requires Idle(c) && Enabled(c, e)
    ensures Idle(Step(c, e)) && c.next <= Step(c, e).next && c.now <= Step(c, e).now
    ensures m < c.next && !Names(e, m) ==> Progress(c, Step(c, e), m)
    ensures e.LetGo? && e.node == m ==>
              var d := Step(c, e);
              && d.now == c.now && m !in d.held && (m in d.parked <==> m in c.parked)
              && (forall k: nat :: (k, m) in d.agenda <==> (k, m) in c.agenda)
              && (if m in d.jobs then d.jobs[m] == c.jobs[m] else FiringsOf(d.log, m) == [Record(c, m, c.jobs[m])])
  {
    var d := Step(c, e);
    if e.Put? {
      PutOk(c, e.node, e.seconds, m);
    } else if e.LetGo? {
      LetGoOk(c, e.node, m);
    } else if e.OnTime? {
      TickOk(c, e.first, e.second, m);
    } else {
      StartOk(c, e);
      hide Step, Progress, Idle, Valid, Extends;
      if m < c.next { ExtendsProgress(c, d, m); }
    }
  }

  lemma StartOk(c: Calendar, e: Event)
    requires Idle(c) && (e.Make? || e.After? || e.Every?)
    ensures Idle(Step(c, e)) && Extends(c, Step(c, e)) && c.next <= Step(c, e).next && c.now == Step(c, e).now
  {
    match e
    case Make(task) => NewOk(c, Plain(task));
    case After(delay, task) => RunCommandOk(c, RunAfter(delay, task));
    case Every(interval, task) => RunCommandOk(c, RunEvery(interval, task));
    ExtendsIdle(c, Step(c, e));
  }

  /** Main result on firing: from any moment between two ticks, a node whose callers have all let go
      fires exactly once, with its own task, at the tick of its last appointment -- whatever is called on
      the wheel, whatever the trees of commands in the bodies of other tasks start, and in whatever order the
      slots are destroyed. */
  lemma {:induction false} FiresOnceAtLastDue(c: Calendar, es: seq<Event>, n: nat, last: nat)
    requires Idle(c) && AllEnabled(c, es)
    requires n in c.jobs && n !in c.held && n !in c.parked && IsLast(c, n, last)
    ensures var d := Run(c, es);
            && Idle(d)
            && (if d.now < last then
                  n in d.jobs && FiringsOf(d.log, n) == []
                else
                  n !in d.jobs && FiringsOf(d.log, n) == [Firing(last / 2, n, OriginOf(n, c.jobs[n]), c.jobs[n].task)])
    decreases |es|
  {
    if es != [] {
      var d := Step(c, es[0]);
      StepOk(c, es[0], n);
      if n in d.jobs {
        assert d.now < last by {
          assert n in AgendaNodes(d.agenda);
          var p :| p in d.agenda && p.1 == n;
          assert (p.0, n) in c.agenda;
        }
        FiresOnceAtLastDue(d, es[1..], n, last);
      } else {
        StaysFired(d, es[1..], n);
        NowGrows(d, es[1..]);
        assert last <= d.now;
      }
    }
  }

  lemma {:induction false} StaysFired(c: Calendar, es: seq<Event>, n: nat)
    requires Idle(c) && AllEnabled(c, es) && n < c.next && n !in c.jobs
    ensures var d := Run(c, es); Idle(d) && n !in d.jobs && FiringsOf(d.log, n) == FiringsOf(c.log, n)
    decreases |es|
  {
    if es != [] {
      assert !Live(c, n);
      StepOk(c, es[0], n);
      StaysFired(Step(c, es[0]), es[1..], n);
    }
  }

  lemma {:induction false} NowGrows(c: Calendar, es: seq<Event>)
    requires Idle(c) && AllEnabled(c, es)
    ensures Idle(Run(c, es)) && c.now <= Run(c, es).now && c.next <= Run(c, es).next
    decreases |es|
  {
    if es != [] {
      StepOk(c, es[0], 0);
      NowGrows(Step(c, es[0]), es[1..]);
    }
  }

  /** Conservation: in every run, each node ever made has either fired exactly once or is still alive,
      referred to and not fired. */
  lemma {:induction false} Conservation(c: Calendar, es: seq<Event>, n: nat)
    requires Idle(c) && AllEnabled(c, es)
    ensures var d := Run(c, es);
            && Idle(d)
            && (n < d.next ==> |FiringsOf(d.log, n)| == if Live(d, n) then 0 else 1)
            && (d.next <= n ==> FiringsOf(d.log, n) == [] && !Live(d, n))
    decreases |es|
  {
    if es != [] {
      StepOk(c, es[0], n);
      Conservation(Step(c, es[0]), es[1..], n);
    }
  }

  /** An hour or a day entry is never popped: its node is kept for ever and never fires. */
  lemma {:induction false} ParkedForEver(c: Calendar, es: seq<Event>, n: nat)
    requires Idle(c) && AllEnabled(c, es) && n in c.parked
    ensures var d := Run(c, es); Idle(d) && n in d.parked && n in d.jobs && FiringsOf(d.log, n) == []
    decreases |es|
  {
    assert Live(c, n);
    if es != [] {
      StepOk(c, es[0], n);
      if es[0].Put? { InsertOk(c, es[0].seconds, es[0].node); }
      ParkedForEver(Step(c, es[0]), es[1..], n);
    }
  }
}
