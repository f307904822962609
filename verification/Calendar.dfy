/** The plain "task -> due tick" calendar that the timing wheel has to agree with.

    Time is counted in instants, two for each tick: instant `2 * t` is the moment of tick `t` at
    which the seconds wheel is popped, instant `2 * t + 1` the moment at which the minute wheel is
    (or would be) popped. Between two ticks the current instant is odd. */
module Calendar {

  const SECONDS_PER_MINUTE := 60
  const SECONDS_PER_HOUR := 3600
  const SECONDS_PER_DAY := 86400

  // The intervals for which `runEvery` is accepted by `insertNode` (1 s to 30 whole days).
  type Interval = i: int | 1 <= i < 31 * SECONDS_PER_DAY witness 1

  /** A user task: the commands it issues to the wheel when it runs, and a name. */
  datatype TimerTask = TimerTask(name: nat, body: seq<Command>)

  datatype Command =
    | RunAfter(delay: int, task: TimerTask)
    | RunEvery(interval: Interval, task: TimerTask)
    | Share(delays: seq<int>, task: TimerTask) // one node, inserted once for each delay, then dropped

  /** What a NodeTask holds. `origin` names the first node of the `runEvery` series. */
  datatype Closure =
    | Plain(task: TimerTask)
    | Periodic(origin: nat, interval: Interval, task: TimerTask)

  datatype Firing = Firing(tick: nat, node: nat, origin: nat, task: TimerTask)

  type Instant = i: nat | 1 <= i witness 1

  /** `jobs` are the nodes not destroyed yet, `agenda` the appointments (instant, node), `parked` the
      nodes kept by an hour or a day slot, `held` the nodes some caller still has a pointer to, `accepted`
      all nodes that `runAfter` and `runEvery` have put into the wheel and left to it, ever. */
  datatype Calendar = Calendar(
    now: Instant,
    next: nat,
    jobs: map<nat, Closure>,
    agenda: set<(nat, nat)>,
    parked: set<nat>,
    held: set<nat>,
    log: seq<Firing>,
    accepted: set<nat>
  )

  const EMPTY := Calendar(1, 0, map[], {}, {}, {}, [], {})

  /** The conversion of an `int` argument to `uint32_t`. */
  function U32(d: int): nat { d % 0x1_0000_0000 }

  /** Number of times the minute wheel has been popped at instant `now`. */
  function MinutesPopped(now: Instant): nat { (now - 1) / 120 }

  /** The appointment that a delay of less than an hour gives. */
  function DueInstant(now: Instant, delay: nat): nat
    requires 1 <= delay < SECONDS_PER_HOUR
  {
    if delay < SECONDS_PER_MINUTE then
      2 * (now / 2 + delay)
    else
      WrapperDue(SECONDS_PER_MINUTE * (MinutesPopped(now) + delay / SECONDS_PER_MINUTE), delay % SECONDS_PER_MINUTE)
  }

  /** A minute entry popped at tick `tick` with `second` seconds left. */
  function WrapperDue(tick: nat, second: nat): nat {
    if second == 0 then 2 * tick + 1 else 2 * (tick + second)
  }

  function AgendaNodes(agenda: set<(nat, nat)>): set<nat> { set p | p in agenda :: p.1 }

  predicate Live(c: Calendar, n: nat) {
    n in c.held || n in c.parked || n in AgendaNodes(c.agenda)
  }

  function Insert(c: Calendar, delay: nat, n: nat): Calendar {
    if delay == 0 || delay / SECONDS_PER_DAY > 30 then c
    else if delay < SECONDS_PER_HOUR then c.(agenda := c.agenda + {(DueInstant(c.now, delay), n)})
    else c.(parked := c.parked + {n})
  }

  function InsertAll(c: Calendar, delays: seq<int>, n: nat): Calendar
    decreases |delays|
  {
    if delays == [] then c else InsertAll(Insert(c, U32(delays[0]), n), delays[1..], n)
  }

  /** make_shared: the maker holds the node. */
  function New(c: Calendar, job: Closure): Calendar {
    c.(next := c.next + 1, jobs := c.jobs[c.next := job], held := c.held + {c.next})
  }

  function OriginOf(n: nat, job: Closure): nat {
    if job.Periodic? then job.origin else n
  }

  function Logged(c: Calendar, n: nat, job: Closure): Calendar {
    c.(jobs := c.jobs - {n}, log := c.log + [Firing(c.now / 2, n, OriginOf(n, job), job.task)])
  }

  /** The node is destroyed: its task runs, and a periodic one is started again. */
  function Fire(c: Calendar, n: nat, job: Closure): Calendar
    decreases job.task, 1
  {
    var c' := RunCommands(Logged(c, n, job), job.task.body);
    match job
    case Plain(_) => c'
    case Periodic(_, interval, _) => Keep(c', job, interval)
  }

  /** The delays that `insertNode` accepts: 1 s to 30 whole days. */
  predicate Accepted(delay: int) { 1 <= U32(delay) < 31 * SECONDS_PER_DAY }

  /** Node `n` has been left to the wheel for `delay` seconds, if it has taken it. */
  function Accept(c: Calendar, delay: int, n: nat): Calendar {
    if Accepted(delay) then c.(accepted := c.accepted + {n}) else c
  }

  /** `runEvery` for an accepted interval: the new node stays in the wheel. */
  function Keep(c: Calendar, job: Closure, interval: Interval): Calendar {
    Accept(Unhold(Insert(New(c, job), U32(interval), c.next), c.next), interval, c.next)
  }

  function Unhold(c: Calendar, n: nat): Calendar { c.(held := c.held - {n}) }

  /** A reference to `n` has just gone: the node is destroyed if that was the last one. */
  function Settle(c: Calendar, n: nat, job: Closure): Calendar
    decreases job.task, 2
  {
    if Live(c, n) then c else Fire(c, n, job)
  }

  function RunCommand(c: Calendar, cmd: Command): Calendar
    decreases cmd, 0
  {
    match cmd
    case RunAfter(delay, task) =>
      var d := Unhold(Insert(New(c, Plain(task)), U32(delay), c.next), c.next);
      Accept(Settle(d, c.next, Plain(task)), delay, c.next)
    case Share(delays, task) =>
      Settle(Unhold(InsertAll(New(c, Plain(task)), delays, c.next), c.next), c.next, Plain(task))
    case RunEvery(interval, task) =>
      Keep(c, Periodic(c.next, interval, task), interval)
  }

  function RunCommands(c: Calendar, cmds: seq<Command>): Calendar
    decreases cmds, 0
  {
    if cmds == [] then c else RunCommands(RunCommand(c, cmds[0]), cmds[1..])
  }

  /** The appointment of `n` at the current instant has come. */
  function Expire(c: Calendar, n: nat): Calendar {
    if n in c.jobs then Settle(c.(agenda := c.agenda - {(c.now as nat, n)}), n, c.jobs[n]) else c
  }

  function ExpireAll(c: Calendar, order: seq<nat>): Calendar
    decreases |order|
  {
    if order == [] then c else ExpireAll(Expire(c, order[0]), order[1..])
  }

  /** Nodes with an appointment at the current instant. */
  function DueNow(c: Calendar): set<nat> { set p | p in c.agenda && p.0 == c.now :: p.1 }

  function Advance(c: Calendar): Calendar { c.(now := c.now + 1) }

  /** One call of `onTime`; `first` and `second` are the orders in which the two popped slots happen
      to be destroyed. */
  function Tick(c: Calendar, first: seq<nat>, second: seq<nat>): Calendar {
    FinishTick(Advance(c), first, second)
  }

  /** The rest of a tick whose seconds pop still has the nodes `first` to destroy. */
  function FinishTick(c: Calendar, first: seq<nat>, second: seq<nat>): Calendar {
    var d := ExpireAll(c, first);
    if d.now / 2 % SECONDS_PER_MINUTE == 0 then ExpireAll(Advance(d), second) else Advance(d)
  }

  /** What can happen to the wheel between two ticks, and the tick itself. */
  datatype Event =
    | Make(task: TimerTask)                      // a caller makes a node and keeps a pointer to it
    | Put(node: nat, seconds: nat)               // insertNode
    | LetGo(node: nat)                           // the caller drops its pointer
    | After(delay: int, task: TimerTask)         // runAfter
    | Every(interval: Interval, task: TimerTask) // runEvery
    | OnTime(first: seq<nat>, second: seq<nat>)

  ghost predicate IsOrderOf(order: seq<nat>, nodes: set<nat>) {
    && (forall i, j :: 0 <= i < j < |order| ==> order[i] != order[j])
    && (forall n: nat :: n in order <==> n in nodes)
  }

  ghost predicate Enabled(c: Calendar, e: Event) {
    match e
    case Put(node, _) => node in c.held
    case LetGo(node) => node in c.held
    case OnTime(first, second) =>
      && IsOrderOf(first, DueNow(Advance(c)))
      && IsOrderOf(second, DueNow(Advance(ExpireAll(Advance(c), first))))
    case _ => true
  }

  function Step(c: Calendar, e: Event): Calendar {
    match e
    case Make(task) => New(c, Plain(task))
    case Put(node, seconds) => Insert(c, seconds, node)
    case LetGo(node) => if node in c.jobs then Settle(Unhold(c, node), node, c.jobs[node]) else c
    case After(delay, task) => RunCommand(c, RunAfter(delay, task))
    case Every(interval, task) => RunCommand(c, RunEvery(interval, task))
    case OnTime(first, second) => Tick(c, first, second)
  }

  function Run(c: Calendar, es: seq<Event>): Calendar
    decreases |es|
  {
    if es == [] then c else Run(Step(c, es[0]), es[1..])
  }

  ghost predicate AllEnabled(c: Calendar, es: seq<Event>)
    decreases |es|
  {
    es == [] || (Enabled(c, es[0]) && AllEnabled(Step(c, es[0]), es[1..]))
  }
}
