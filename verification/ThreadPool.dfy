/** The logger's thread pool: clients, workers and the destructor as steps of one state machine over the
    blocking queue, with both condition variables, lost and spurious wake-ups included. */
module ThreadPool {
  import opened RingQueue

  datatype Msg = Log(id: nat) | Flush(id: nat) | Terminate

  /** A worker in `dequeue` is about to test the queue (Awake) or waits on push_cv_ (Asleep); it has taken
      a message and has still to notify pop_cv_ (Notifying), then processes it; or its loop has ended. */
  datatype Worker = Awake | Asleep | Notifying(msg: Msg) | Processing(msg: Msg) | Exited

  /** `testing` and `waiting` are the messages of the producers inside `enqueue`: about to test for room,
      or waiting on pop_cv_. `notices` are pushes whose notify_one has not been called yet. `toPost` are
      the terminate messages that the destructor has still to post. */
  datatype Pool = Pool(
    room: nat,
    queue: seq<Msg>,
    workers: seq<Worker>,
    testing: seq<Msg>,
    waiting: seq<Msg>,
    notices: nat,
    closing: bool,
    toPost: nat,
    history: History<Msg>,
    overrun: nat,
    discarded: nat,
    processed: seq<Msg>
  )

  datatype Step =
    | PostBlock(msg: Msg)
    | PostOverrun(msg: Msg)
    | PostDiscard(msg: Msg)
    | Produce(k: nat)         // producer k tests for room
    | Notice(worker: nat)     // push_cv_.notify_one
    | Work(i: nat, wake: nat) // worker i goes on; `wake` is the producer its notify_one picks
    | Close                   // the destructor starts
    | PostTerminate
    | SpuriousWorker(i: nat)
    | SpuriousProducer(k: nat)

  function Init(room: nat, threads: nat): Pool {
    Pool(room, [], seq(threads, _ => Awake), [], [], 0, false, 0, History(0, [], [], []), 0, 0, [])
  }

  function Without<T>(s: seq<T>, k: nat): (r: seq<T>)
    requires k < |s|
    ensures |r| == |s| - 1 && forall i :: 0 <= i < |r| ==> r[i] == s[if i < k then i else i + 1]
  {
    s[..k] + s[k + 1..]
  }

  /** push_back, with its notify_one still to come */
  function Push(p: Pool, msg: Msg): Pool
    requires 0 < p.room && |p.queue| <= p.room
  {
    p.(queue := Pushed(p.queue, p.room, msg), notices := p.notices + 1,
       history := AcceptedOne(p.history, p.queue, p.room, msg),
       overrun := p.overrun + if |p.queue| == p.room then 1 else 0)
  }

  predicate Sleeping(p: Pool) { Asleep in p.workers }

  predicate Enabled(p: Pool, s: Step) {
    match s
    case PostBlock(m) => !p.closing && m != Terminate
    case PostOverrun(m) => !p.closing && m != Terminate
    case PostDiscard(m) => !p.closing && m != Terminate
    case Produce(k) => k < |p.testing|
    case Notice(w) => 0 < p.notices && (Sleeping(p) ==> w < |p.workers| && p.workers[w] == Asleep)
    case Work(i, wake) =>
      && i < |p.workers| && p.workers[i] != Asleep && p.workers[i] != Exited
      && (p.workers[i].Notifying? && p.waiting != [] ==> wake < |p.waiting|)
    case Close => !p.closing && p.testing == [] && p.waiting == [] && p.notices == 0
    case PostTerminate => p.closing && 0 < p.toPost && p.testing == [] && p.waiting == [] && p.notices == 0
    case SpuriousWorker(i) => i < |p.workers| && p.workers[i] == Asleep
    case SpuriousProducer(k) => k < |p.waiting|
  }

  /** process_next_msg_, one atomic piece at a time */
  function WorkerStep(p: Pool, i: nat, wake: nat): Pool
    requires i < |p.workers|
  {
    match p.workers[i]
    case Awake =>
      if p.queue == [] then p.(workers := p.workers[i := Asleep])
      else p.(workers := p.workers[i := Notifying(p.queue[0])], queue := p.queue[1..],
              history := DeliveredOne(p.history, p.queue[0]))
    case Notifying(m) =>
      var q := p.(workers := p.workers[i := Processing(m)]);
      if wake < |p.waiting| then q.(waiting := Without(p.waiting, wake), testing := p.testing + [p.waiting[wake]])
      else q
    case Processing(m) =>
      if m == Terminate then p.(workers := p.workers[i := Exited])
      else p.(workers := p.workers[i := Awake], processed := p.processed + [m])
    case _ => p
  }

  function Next(p: Pool, s: Step): Pool
    requires Enabled(p, s) && 0 < p.room && |p.queue| <= p.room
  {
    match s
    case PostBlock(m) => p.(testing := p.testing + [m])
    case PostOverrun(m) => Push(p, m)
    case PostDiscard(m) => if |p.queue| < p.room then Push(p, m)
                          else p.(discarded := p.discarded + 1, history := p.history.(offered := p.history.offered + 1))
    case Produce(k) =>
      var q := p.(testing := Without(p.testing, k));
      if |p.queue| < p.room then Push(q, p.testing[k]) else q.(waiting := p.waiting + [p.testing[k]])
    case Notice(w) =>
      var q := p.(notices := p.notices - 1);
      if Sleeping(p) then q.(workers := p.workers[w := Awake]) else q
    case Work(i, wake) => WorkerStep(p, i, wake)
    case Close => p.(closing := true, toPost := |p.workers|)
    case PostTerminate => p.(testing := [Terminate], toPost := p.toPost - 1)
    case SpuriousWorker(i) => p.(workers := p.workers[i := Awake])
    case SpuriousProducer(k) => p.(waiting := Without(p.waiting, k), testing := p.testing + [p.waiting[k]])
  }

  // Sums over the workers

  /** The message a worker has taken and not processed; a terminate message is kept for good. */
  function Held(w: Worker): seq<Msg> {
    match w
    case Notifying(m) => [m]
    case Processing(m) => [m]
    case Exited => [Terminate]
    case _ => []
  }

  datatype Sum = AwakeOnes | Notifiers | Holders(msg: Msg) | Energies

  function Weight(sum: Sum, w: Worker): nat {
    match sum
    case AwakeOnes => if w == Awake then 1 else 0
    case Notifiers => if w.Notifying? then 1 else 0
    case Holders(m) => if Held(w) == [m] then 1 else 0
    case Energies => if w.Notifying? then 4 else if w.Processing? then 2 else if w == Awake then 1 else 0
  }

  function Total(ws: seq<Worker>, sum: Sum): nat {
    if ws == [] then 0 else Weight(sum, ws[0]) + Total(ws[1..], sum)
  }

  lemma {:induction false} TotalUpdate(ws: seq<Worker>, sum: Sum, i: nat, w: Worker)
    requires i < |ws|
    ensures Total(ws[i := w], sum) + Weight(sum, ws[i]) == Total(ws, sum) + Weight(sum, w)
    decreases |ws|
  {
    var v := ws[i := w];
    if i == 0 {
      assert v[1..] == ws[1..];
    } else {
      assert v[1..] == ws[1..][i - 1 := w];
      TotalUpdate(ws[1..], sum, i - 1, w);
    }
  }

  lemma {:induction false} TotalAtLeast(ws: seq<Worker>, sum: Sum, i: nat)
    requires i < |ws|
    ensures Weight(sum, ws[i]) <= Total(ws, sum)
    decreases |ws|
  {
    if i != 0 { TotalAtLeast(ws[1..], sum, i - 1); }
  }

  /** If every worker has at most weight 1, and the total is the number of workers, each has weight 1. */
  lemma {:induction false} TotalFull(ws: seq<Worker>, sum: Sum)
    requires forall w <- ws :: Weight(sum, w) <= 1
    ensures Total(ws, sum) <= |ws|
    ensures Total(ws, sum) == |ws| ==> forall w <- ws :: Weight(sum, w) == 1
    decreases |ws|
  {
    if ws != [] { TotalFull(ws[1..], sum); }
  }

  lemma {:induction false} TotalZero(ws: seq<Worker>, sum: Sum)
    requires forall w <- ws :: Weight(sum, w) == 0
    ensures Total(ws, sum) == 0
    decreases |ws|
  {
    if ws != [] { TotalZero(ws[1..], sum); }
  }

  function Terminates(s: seq<Msg>): nat {
    if s == [] then 0 else (if s[0] == Terminate then 1 else 0) + Terminates(s[1..])
  }

  lemma {:induction false} TerminatesSnoc(s: seq<Msg>, m: Msg)
    ensures Terminates(s + [m]) == Terminates(s) + if m == Terminate then 1 else 0
  {
    if s == [] {
      assert s + [m] == [m];
    } else {
      assert (s + [m])[1..] == s[1..] + [m];
      TerminatesSnoc(s[1..], m);
    }
  }

  lemma {:induction false} AllTerminates(s: seq<Msg>)
    requires forall i :: 0 <= i < |s| ==> s[i] == Terminate
    ensures Terminates(s) == |s|
  {
    if s != [] { AllTerminates(s[1..]); }
  }

  // The invariant

  ghost predicate Shape(p: Pool) {
    0 < p.room && |p.queue| <= p.room && 0 < |p.workers|
  }

  ghost predicate AccountedFor(delivered: seq<Msg>, processed: seq<Msg>, workers: seq<Worker>) {
    forall m :: multiset(delivered)[m] == multiset(processed)[m] + Total(workers, Holders(m))
  }

  /** Every accepted message is queued or was removed, in order; every dequeued one has been processed or
      is in the hands of a worker. */
  ghost predicate Conserved(p: Pool) {
    && Balanced(p.history, p.queue, p.overrun, p.discarded)
    && AccountedFor(p.history.delivered, p.processed, p.workers)
  }

  /** No lost wake-up, on either condition variable. */
  ghost predicate NoLostWakeup(p: Pool) {
    && (Sleeping(p) ==> |p.queue| <= p.notices + Total(p.workers, AwakeOnes))
    && (p.waiting != [] ==> p.room <= |p.queue| + |p.testing| + Total(p.workers, Notifiers))
  }

  /** Terminate messages come last, one for each worker. */
  ghost predicate Closing(p: Pool) {
    && (forall i :: 0 <= i < |p.testing| ==> (p.testing[i] == Terminate <==> p.closing))
    && (forall i :: 0 <= i < |p.waiting| ==> (p.waiting[i] == Terminate <==> p.closing))
    && (forall i, j :: 0 <= i < j < |p.queue| && p.queue[i] == Terminate ==> p.queue[j] == Terminate)
    && (0 < Total(p.workers, Holders(Terminate)) ==> forall i :: 0 <= i < |p.queue| ==> p.queue[i] == Terminate)
    && p.toPost + (if p.closing then |p.testing| + |p.waiting| else 0) + Terminates(p.queue)
       + Total(p.workers, Holders(Terminate))
       == if p.closing then |p.workers| else 0
  }

  ghost predicate Inv(p: Pool) {
    Shape(p) && Conserved(p) && NoLostWakeup(p) && Closing(p) && InOrder(p)
  }

  lemma InitInv(room: nat, threads: nat)
    requires 0 < room && 0 < threads
    ensures Inv(Init(room, threads))
  {
    hide Total;
    var p := Init(room, threads);
    TotalZero(p.workers, Holders(Terminate));
    forall m ensures Total(p.workers, Holders(m)) == 0 { TotalZero(p.workers, Holders(m)); }
  }

  lemma PushConserved(p: Pool, m: Msg)
    requires Shape(p) && Conserved(p)
    ensures Shape(Push(p, m)) && Conserved(Push(p, m))
  {
    hide Balanced, AccountedFor;
    AcceptBalanced(p.history, p.queue, p.overrun, p.discarded, p.room, m);
  }

  /** What a worker takes it holds until it has processed it. */
  lemma MoveAccounted(delivered: seq<Msg>, processed: seq<Msg>, ws: seq<Worker>, i: nat, w: Worker, take: seq<Msg>,
                      done: seq<Msg>)
    requires AccountedFor(delivered, processed, ws) && i < |ws|
    requires take + Held(ws[i]) == done + Held(w)
    ensures AccountedFor(delivered + take, processed + done, ws[i := w])
  {
    hide Total;
    forall m ensures multiset(delivered + take)[m] == multiset(processed + done)[m] + Total(ws[i := w], Holders(m)) {
      TotalUpdate(ws, Holders(m), i, w);
      assert multiset(take)[m] + multiset(Held(ws[i]))[m] == multiset(take + Held(ws[i]))[m];
      assert multiset(done)[m] + multiset(Held(w))[m] == multiset(done + Held(w))[m];
    }
  }

  lemma WorkConserved(p: Pool, i: nat, wake: nat)
    requires Shape(p) && Conserved(p) && i < |p.workers|
    ensures Shape(WorkerStep(p, i, wake)) && Conserved(WorkerStep(p, i, wake))
  {
    hide Balanced, AccountedFor, Without;
    var d, r := p.history.delivered, p.processed;
    assert d + [] == d && r + [] == r;
    match p.workers[i]
    case Awake =>
      if p.queue == [] {
        MoveAccounted(d, r, p.workers, i, Asleep, [], []);
      } else {
        MoveAccounted(d, r, p.workers, i, Notifying(p.queue[0]), [p.queue[0]], []);
        DeliverBalanced(p.history, p.queue, p.overrun, p.discarded);
      }
    case Notifying(m) => MoveAccounted(d, r, p.workers, i, Processing(m), [], []);
    case Processing(m) =>
      if m == Terminate { MoveAccounted(d, r, p.workers, i, Exited, [], []); }
      else { MoveAccounted(d, r, p.workers, i, Awake, [], [m]); }
    case _ =>
  }

  lemma WakeConserved(p: Pool, i: nat)
    requires Conserved(p) && i < |p.workers| && p.workers[i] == Asleep
    ensures Conserved(p.(workers := p.workers[i := Awake]))
  {
    hide Balanced, AccountedFor;
    MoveAccounted(p.history.delivered, p.processed, p.workers, i, Awake, [], []);
    assert p.history.delivered + [] == p.history.delivered && p.processed + [] == p.processed;
  }

  lemma ConservedStep(p: Pool, s: Step)
    requires Shape(p) && Conserved(p) && Enabled(p, s)
    ensures Shape(Next(p, s)) && Conserved(Next(p, s))
  {
    hide AccountedFor, Push, WorkerStep, Without;
    match s
    case PostOverrun(m) => PushConserved(p, m);
    case PostDiscard(m) => if |p.queue| < p.room { PushConserved(p, m); }
    case Produce(k) => if |p.queue| < p.room { PushConserved(p.(testing := Without(p.testing, k)), p.testing[k]); }
    case Notice(w) => if Sleeping(p) { WakeConserved(p, w); }
    case Work(i, wake) => WorkConserved(p, i, wake);
    case SpuriousWorker(i) => WakeConserved(p, i);
    case _ =>
  }

  lemma SleepingElsewhere(ws: seq<Worker>, i: nat, w: Worker)
    requires i < |ws| && w != Asleep && Asleep in ws[i := w]
    ensures Asleep in ws
  {
    var j :| 0 <= j < |ws| && ws[i := w][j] == Asleep;
    assert ws[j] == Asleep;
  }

  lemma WorkWakes(p: Pool, i: nat, wake: nat)
    requires Shape(p) && NoLostWakeup(p) && Enabled(p, Work(i, wake))
    ensures NoLostWakeup(WorkerStep(p, i, wake))
  {
    hide Total, Without, DeliveredOne;
    var q := WorkerStep(p, i, wake);
    TotalUpdate(p.workers, AwakeOnes, i, q.workers[i]);
    TotalUpdate(p.workers, Notifiers, i, q.workers[i]);
    assert q.workers == p.workers[i := q.workers[i]];
    if q.workers[i] != Asleep && Sleeping(q) { SleepingElsewhere(p.workers, i, q.workers[i]); }
  }

  lemma WakeupStep(p: Pool, s: Step)
    requires Shape(p) && NoLostWakeup(p) && Enabled(p, s)
    ensures NoLostWakeup(Next(p, s))
  {
    hide Total, Without, WorkerStep;
    match s
    case Notice(w) =>
      if Sleeping(p) {
        TotalUpdate(p.workers, AwakeOnes, w, Awake);
        TotalUpdate(p.workers, Notifiers, w, Awake);
      }
    case Work(i, wake) => WorkWakes(p, i, wake);
    case SpuriousWorker(i) =>
      TotalUpdate(p.workers, AwakeOnes, i, Awake);
      TotalUpdate(p.workers, Notifiers, i, Awake);
    case _ =>
  }

  lemma {:induction false} NoTerminates(s: seq<Msg>)
    ensures Terminates(s) == 0 <==> forall i :: 0 <= i < |s| ==> s[i] != Terminate
  {
    if s != [] {
      NoTerminates(s[1..]);
      assert forall i :: 0 < i < |s| ==> s[i] == s[1..][i - 1];
    }
  }

  lemma PushPlain(s: seq<Msg>, room: nat, m: Msg)
    requires 0 < room && |s| <= room && m != Terminate && Terminates(s) == 0
    ensures Terminates(Pushed(s, room, m)) == 0
  {
    NoTerminates(s);
    NoTerminates(Pushed(s, room, m));
  }

  lemma PopTerminates(s: seq<Msg>)
    requires s != []
    ensures Terminates(s) == Terminates(s[1..]) + if s[0] == Terminate then 1 else 0
  {
  }

  lemma WorkClosing(p: Pool, i: nat, wake: nat)
    requires Shape(p) && Closing(p) && Enabled(p, Work(i, wake))
    ensures Closing(WorkerStep(p, i, wake))
  {
    hide Total, Terminates, Without, Shape, DeliveredOne;
    var q := WorkerStep(p, i, wake);
    TotalUpdate(p.workers, Holders(Terminate), i, q.workers[i]);
    assert q.workers == p.workers[i := q.workers[i]];
    if p.workers[i].Awake? {
      if p.queue != [] { PopTerminates(p.queue); }
      assert Closing(q);
    } else {
      assert Closing(q);
    }
  }

  lemma PlainClosing(p: Pool, m: Msg)
    requires Shape(p) && Closing(p) && !p.closing && m != Terminate
    ensures Closing(Push(p, m))
  {
    hide Total, Terminates, Without;
    PushPlain(p.queue, p.room, m);
    NoTerminates(Pushed(p.queue, p.room, m));
  }

  lemma ProduceClosing(p: Pool, k: nat)
    requires Shape(p) && Closing(p) && Enabled(p, Produce(k))
    ensures Closing(Next(p, Produce(k)))
  {
    hide Total, Terminates, Without;
    var q := Next(p, Produce(k));
    if |p.queue| < p.room { TerminatesSnoc(p.queue, p.testing[k]); }
    NoTerminates(p.queue);
    NoTerminates(q.queue);
  }

  lemma ClosingStep(p: Pool, s: Step)
    requires Shape(p) && Closing(p) && Enabled(p, s)
    ensures Closing(Next(p, s))
  {
    hide Total, Terminates, Push, WorkerStep, Without;
    match s
    case PostOverrun(m) => PlainClosing(p, m);
    case PostDiscard(m) => if |p.queue| < p.room { PlainClosing(p, m); }
    case Produce(k) => ProduceClosing(p, k);
    case Notice(w) => if Sleeping(p) { TotalUpdate(p.workers, Holders(Terminate), w, Awake); }
    case Work(i, wake) => WorkClosing(p, i, wake);
    case SpuriousWorker(i) => TotalUpdate(p.workers, Holders(Terminate), i, Awake);
    case _ =>
  }

  // Order, with one worker

  /** A single worker processes messages in the order in which they left the queue. */
  ghost predicate InOrder(p: Pool) {
    |p.workers| == 1 ==> p.history.delivered == p.processed + Held(p.workers[0])
  }

  lemma InOrderStep(p: Pool, s: Step)
    requires Shape(p) && InOrder(p) && Enabled(p, s)
    ensures InOrder(Next(p, s))
  {
    hide Without;
  }

  /** Every step of every thread keeps the invariant. */
  lemma InvStep(p: Pool, s: Step)
    requires Inv(p) && Enabled(p, s)
    ensures Inv(Next(p, s))
  {
    hide Conserved, NoLostWakeup, Closing, InOrder, Next, Enabled;
    ConservedStep(p, s);
    WakeupStep(p, s);
    ClosingStep(p, s);
    InOrderStep(p, s);
  }

  /** `steps` lead from `p` to `q`. */
  ghost predicate Runs(p: Pool, steps: seq<Step>, q: Pool)
    decreases |steps|
  {
    if steps == [] then p == q
    else Shape(p) && Enabled(p, steps[0]) && Runs(Next(p, steps[0]), steps[1..], q)
  }

  lemma {:induction false} RunInv(p: Pool, steps: seq<Step>, q: Pool)
    requires Inv(p) && Runs(p, steps, q)
    ensures Inv(q)
    decreases |steps|
  {
    if steps != [] {
      InvStep(p, steps[0]);
      RunInv(Next(p, steps[0]), steps[1..], q);
    }
  }

  // Results

  function OverrunOnly<T>(removed: seq<Removal<T>>): seq<T> {
    if removed == [] then []
    else
      var last := removed[|removed| - 1];
      OverrunOnly(removed[..|removed| - 1]) + if last.Overrun? then [last.item] else []
  }

  lemma {:induction false} ItemsSplit<T>(removed: seq<Removal<T>>)
    ensures multiset(Items(removed)) == multiset(DequeuedOnly(removed)) + multiset(OverrunOnly(removed))
  {
    if removed != [] {
      var rest, last := removed[..|removed| - 1], removed[|removed| - 1];
      ItemsSplit(rest);
      assert Items(removed) == Items(rest) + [last.item];
    }
  }

  // What was posted, told from the steps

  datatype Policy = Block | OverrunOldest | DiscardNew

  const ALL: set<Policy> := {Block, OverrunOldest, DiscardNew}

  /** The message that a step posts under one of these policies; the destructor posts its own blocking. */
  function Post(under: set<Policy>, s: Step): seq<Msg> {
    match s
    case PostBlock(m) => if Block in under then [m] else []
    case PostOverrun(m) => if OverrunOldest in under then [m] else []
    case PostDiscard(m) => if DiscardNew in under then [m] else []
    case PostTerminate => if Block in under then [Terminate] else []
    case _ => []
  }

  function Posts(under: set<Policy>, steps: seq<Step>): seq<Msg> {
    if steps == [] then [] else Post(under, steps[0]) + Posts(under, steps[1..])
  }

  /** The message that is lost on arrival, by a discarding post that finds the queue full */
  function Refusal(p: Pool, s: Step): seq<Msg> {
    if s.PostDiscard? && |p.queue| == p.room then [s.msg] else []
  }

  /** The message that is lost from the queue, by an overrunning post that finds it full */
  function Displaced(p: Pool, s: Step): seq<Msg> {
    if s.PostOverrun? && |p.queue| == p.room && p.queue != [] then [p.queue[0]] else []
  }

  ghost function Refusals(p: Pool, steps: seq<Step>, q: Pool): seq<Msg>
    requires Runs(p, steps, q)
    decreases |steps|
  {
    if steps == [] then [] else Refusal(p, steps[0]) + Refusals(Next(p, steps[0]), steps[1..], q)
  }

  ghost function Displacements(p: Pool, steps: seq<Step>, q: Pool): seq<Msg>
    requires Runs(p, steps, q)
    decreases |steps|
  {
    if steps == [] then [] else Displaced(p, steps[0]) + Displacements(Next(p, steps[0]), steps[1..], q)
  }

  /** How often `m` has been accepted by the queue, or is with a producer still inside `enqueue` */
  function Taken(p: Pool, m: Msg): nat {
    multiset(p.history.accepted)[m] + multiset(p.testing)[m] + multiset(p.waiting)[m]
  }

  lemma OverrunSnoc<T>(removed: seq<Removal<T>>, r: Removal<T>)
    ensures OverrunOnly(removed + [r]) == OverrunOnly(removed) + if r.Overrun? then [r.item] else []
  {
    assert (removed + [r])[..|removed|] == removed;
  }

  lemma WithoutOne<T>(s: seq<T>, k: nat)
    requires k < |s|
    ensures multiset(Without(s, k)) + multiset{s[k]} == multiset(s)
  {
    assert s == s[..k] + [s[k]] + s[k + 1..];
  }

  lemma RemovedStep(p: Pool, s: Step)
    requires Shape(p) && Enabled(p, s)
    ensures OverrunOnly(Next(p, s).history.removed) == OverrunOnly(p.history.removed) + Displaced(p, s)
    ensures Next(p, s).overrun == p.overrun + |Displaced(p, s)|
    ensures Next(p, s).discarded == p.discarded + |Refusal(p, s)|
  {
    hide Without, Pushed, OverrunOnly;
    assert OverrunOnly(p.history.removed) + [] == OverrunOnly(p.history.removed);
    match s
    case PostOverrun(m) => if |p.queue| == p.room { OverrunSnoc(p.history.removed, Removal.Overrun(p.queue[0])); }
    case Work(i, wake) => if p.queue != [] { OverrunSnoc(p.history.removed, Dequeued(p.queue[0])); }
    case _ =>
  }

  lemma SameTaken(p: Pool, q: Pool, m: Msg)
    requires q.history.accepted == p.history.accepted && q.testing == p.testing && q.waiting == p.waiting
    ensures Taken(q, m) == Taken(p, m)
  {
  }

  lemma TestTaken(p: Pool, q: Pool, msg: Msg, m: Msg)
    requires q.history.accepted == p.history.accepted && q.testing == p.testing + [msg] && q.waiting == p.waiting
    ensures Taken(q, m) == Taken(p, m) + multiset([msg])[m]
  {
  }

  lemma PushTaken(p: Pool, msg: Msg, m: Msg)
    requires Shape(p)
    ensures Taken(Push(p, msg), m) == Taken(p, m) + multiset([msg])[m]
  {
    hide Pushed;
  }

  /** A producer that waits tests again. */
  lemma MoveTaken(p: Pool, q: Pool, k: nat, m: Msg)
    requires k < |p.waiting| && q.history.accepted == p.history.accepted
    requires q.testing == p.testing + [p.waiting[k]] && q.waiting == Without(p.waiting, k)
    ensures Taken(q, m) == Taken(p, m)
  {
    hide Without;
    WithoutOne(p.waiting, k);
  }

  lemma ProduceTaken(p: Pool, k: nat, m: Msg)
    requires Shape(p) && Enabled(p, Produce(k))
    ensures Taken(Next(p, Produce(k)), m) == Taken(p, m)
  {
    hide Without, Push;
    var q := p.(testing := Without(p.testing, k));
    assert Taken(p, m) == Taken(q, m) + multiset([p.testing[k]])[m] by { WithoutOne(p.testing, k); }
    if |p.queue| < p.room {
      PushTaken(q, p.testing[k], m);
      hide Taken;
    }
  }

  lemma WorkTaken(p: Pool, i: nat, wake: nat, m: Msg)
    requires i < |p.workers|
    ensures Taken(WorkerStep(p, i, wake), m) == Taken(p, m)
  {
    hide Without, Taken;
    var q := WorkerStep(p, i, wake);
    if p.workers[i].Notifying? && wake < |p.waiting| {
      MoveTaken(p, q, wake, m);
    } else {
      SameTaken(p, q, m);
    }
  }

  /** A post is never forgotten: no step but a discarding post at a full queue drops the message posted. */
  lemma PostedStep(p: Pool, s: Step, m: Msg)
    requires Shape(p) && Enabled(p, s)
    ensures Taken(p, m) + multiset(Post(ALL, s))[m] == Taken(Next(p, s), m) + multiset(Refusal(p, s))[m]
  {
    hide Without, Push, WorkerStep, Taken;
    var q := Next(p, s);
    match s
    case PostBlock(msg) => TestTaken(p, q, msg, m);
    case PostOverrun(msg) => PushTaken(p, msg, m);
    case PostDiscard(msg) => if |p.queue| < p.room { PushTaken(p, msg, m); } else { SameTaken(p, q, m); }
    case Produce(k) => ProduceTaken(p, k, m);
    case Work(i, wake) => WorkTaken(p, i, wake, m);
    case PostTerminate => TestTaken(p, q, Terminate, m);
    case SpuriousProducer(k) => MoveTaken(p, q, k, m);
    case _ => SameTaken(p, q, m);
  }

  lemma {:induction false} PostedRun(p: Pool, steps: seq<Step>, q: Pool, m: Msg)
    requires Runs(p, steps, q)
    ensures Taken(p, m) + multiset(Posts(ALL, steps))[m] == Taken(q, m) + multiset(Refusals(p, steps, q))[m]
    decreases |steps|
  {
    hide Next, Enabled, Post, Refusal, Taken;
    if steps != [] {
      PostedStep(p, steps[0], m);
      PostedRun(Next(p, steps[0]), steps[1..], q, m);
    }
  }

  lemma {:induction false} LossesRun(p: Pool, steps: seq<Step>, q: Pool)
    requires Runs(p, steps, q)
    ensures OverrunOnly(q.history.removed) == OverrunOnly(p.history.removed) + Displacements(p, steps, q)
    ensures q.overrun == p.overrun + |Displacements(p, steps, q)|
    ensures q.discarded == p.discarded + |Refusals(p, steps, q)|
    decreases |steps|
  {
    hide Next, Enabled, Refusal, Displaced, OverrunOnly;
    if steps != [] {
      RemovedStep(p, steps[0]);
      LossesRun(Next(p, steps[0]), steps[1..], q);
      var first, later := Displaced(p, steps[0]), Displacements(Next(p, steps[0]), steps[1..], q);
      assert OverrunOnly(q.history.removed) == OverrunOnly(p.history.removed) + (first + later);
    } else {
      assert OverrunOnly(p.history.removed) + [] == OverrunOnly(p.history.removed);
    }
  }

  lemma PolicySplit(s: Step)
    ensures Post(ALL, s) == Post({Block, OverrunOldest}, s) + Post({DiscardNew}, s)
  {
  }

  lemma PolicyLosses(p: Pool, s: Step)
    ensures Refusal(p, s) == [] || Refusal(p, s) == Post({DiscardNew}, s)
    ensures |Displaced(p, s)| <= |Post({OverrunOldest}, s)|
  {
  }

  /** Only discarding posts are ever refused, and only overrunning posts displace anything, one message each. */
  lemma {:induction false} PoliciesKept(p: Pool, steps: seq<Step>, q: Pool, m: Msg)
    requires Runs(p, steps, q)
    ensures multiset(Posts(ALL, steps))[m]
         == multiset(Posts({Block, OverrunOldest}, steps))[m] + multiset(Posts({DiscardNew}, steps))[m]
    ensures multiset(Refusals(p, steps, q))[m] <= multiset(Posts({DiscardNew}, steps))[m]
    ensures |Displacements(p, steps, q)| <= |Posts({OverrunOldest}, steps)|
    decreases |steps|
  {
    hide Post, Refusal, Displaced, Next, Enabled;
    if steps != [] {
      PolicySplit(steps[0]);
      PolicyLosses(p, steps[0]);
      PoliciesKept(Next(p, steps[0]), steps[1..], q, m);
    }
  }

  /** In every run, each message posted, also by the destructor, is where it should be, as often as it was posted:
      processed or in the hands of a worker, queued, with a producer that waits for room, displaced by an
      overrunning post, or refused to a discarding post at a full queue. */
  lemma PostsConserved(room: nat, threads: nat, steps: seq<Step>, p: Pool, m: Msg)
    requires 0 < room && 0 < threads && Runs(Init(room, threads), steps, p)
    ensures var lost := Displacements(Init(room, threads), steps, p) + Refusals(Init(room, threads), steps, p);
            multiset(Posts(ALL, steps))[m]
            == multiset(p.processed)[m] + Total(p.workers, Holders(m)) + multiset(p.queue)[m]
               + multiset(p.testing)[m] + multiset(p.waiting)[m] + multiset(lost)[m]
    ensures p.overrun == |Displacements(Init(room, threads), steps, p)|
    ensures p.discarded == |Refusals(Init(room, threads), steps, p)|
  {
    var i := Init(room, threads);
    InitInv(room, threads);
    RunInv(i, steps, p);
    PostedRun(i, steps, p, m);
    LossesRun(i, steps, p);
    ItemsSplit(p.history.removed);
    assert OverrunOnly(i.history.removed) == [];
    hide Runs, NoLostWakeup, Closing, InOrder, Total, OverrunOnly, DequeuedOnly, Items, Refusals, Displacements, Posts;
    assert OverrunOnly(p.history.removed) == Displacements(i, steps, p);
  }

  predicate AllExited(p: Pool) { forall i :: 0 <= i < |p.workers| ==> p.workers[i] == Exited }

  predicate Active(w: Worker) { w != Asleep && w != Exited }

  /** No thread of the running pool has anything to do. */
  predicate Quiet(p: Pool) {
    p.testing == [] && p.notices == 0 && forall i :: 0 <= i < |p.workers| ==> !Active(p.workers[i])
  }

  lemma {:induction false} TotalExited(ws: seq<Worker>)
    requires forall i :: 0 <= i < |ws| ==> ws[i] == Exited
    ensures Total(ws, Holders(Terminate)) == |ws|
    decreases |ws|
  {
    if ws != [] { TotalExited(ws[1..]); }
  }

  lemma ExitedEmpty(p: Pool)
    requires Inv(p) && AllExited(p)
    ensures p.closing && p.toPost == 0 && p.testing == [] && p.waiting == [] && p.queue == []
  {
    hide Conserved, NoLostWakeup, InOrder;
    TotalExited(p.workers);
    AllTerminates(p.queue);
  }

  /** Once all workers have ended, the queue is empty, nobody is left blocked, and each message was processed
      exactly as often as it was posted and neither displaced nor refused; so whatever was not posted under the
      discarding policy was processed or displaced, and without overrunning posts all of it was processed. */
  lemma ShutdownDelivers(room: nat, threads: nat, steps: seq<Step>, p: Pool, m: Msg)
    requires 0 < room && 0 < threads && Runs(Init(room, threads), steps, p) && AllExited(p) && m != Terminate
    ensures p.closing && p.toPost == 0 && p.testing == [] && p.waiting == [] && p.queue == []
    ensures var lost := Displacements(Init(room, threads), steps, p) + Refusals(Init(room, threads), steps, p);
            multiset(Posts(ALL, steps))[m] == multiset(p.processed)[m] + multiset(lost)[m]
    ensures multiset(Posts({Block, OverrunOldest}, steps))[m]
            <= multiset(p.processed)[m] + multiset(Displacements(Init(room, threads), steps, p))[m]
    ensures Posts({OverrunOldest}, steps) == [] ==> Displacements(Init(room, threads), steps, p) == []
    ensures threads == 1 ==> p.processed + [Terminate] == DequeuedOnly(p.history.removed)
  {
    var i := Init(room, threads);
    SameThreads(i, steps, p);
    InitInv(room, threads);
    RunInv(i, steps, p);
    ExitedEmpty(p);
    TotalZero(p.workers, Holders(m));
    PostsConserved(room, threads, steps, p, m);
    PoliciesKept(i, steps, p, m);
    hide Init, Total, Runs, NoLostWakeup, Closing, Posts, Refusals, Displacements, AccountedFor;
  }

  lemma QuietEmpty(p: Pool)
    requires Inv(p) && !p.closing && Quiet(p)
    ensures p.queue == [] && p.waiting == [] && forall i :: 0 <= i < |p.workers| ==> p.workers[i] == Asleep
  {
    hide Conserved;
    forall i | 0 <= i < |p.workers| ensures p.workers[i] == Asleep { TotalAtLeast(p.workers, Holders(Terminate), i); }
    assert p.workers[0] == Asleep;
    TotalZero(p.workers, AwakeOnes);
    TotalZero(p.workers, Notifiers);
  }

  lemma QuietCounts(room: nat, threads: nat, steps: seq<Step>, p: Pool, m: Msg)
    requires 0 < room && 0 < threads && Runs(Init(room, threads), steps, p)
    requires p.testing == [] && p.queue == [] && p.waiting == []
    requires forall i :: 0 <= i < |p.workers| ==> p.workers[i] == Asleep
    ensures var i := Init(room, threads);
            multiset(Posts(ALL, steps))[m] == multiset(p.processed)[m] + multiset(Displacements(i, steps, p))[m]
                                              + multiset(Refusals(i, steps, p))[m]
    ensures multiset(Posts({Block, OverrunOldest}, steps))[m]
            <= multiset(p.processed)[m] + multiset(Displacements(Init(room, threads), steps, p))[m]
  {
    PostsConserved(room, threads, steps, p, m);
    PoliciesKept(Init(room, threads), steps, p, m);
    TotalZero(p.workers, Holders(m));
    hide Init, Total, Runs, Posts, Refusals, Displacements;
  }

  lemma QuietAccounts(room: nat, threads: nat, steps: seq<Step>, p: Pool)
    requires 0 < room && 0 < threads && Runs(Init(room, threads), steps, p)
    requires p.testing == [] && p.queue == [] && p.waiting == []
    requires forall i :: 0 <= i < |p.workers| ==> p.workers[i] == Asleep
    ensures var i := Init(room, threads);
            multiset(Posts(ALL, steps))
            == multiset(p.processed) + multiset(Displacements(i, steps, p)) + multiset(Refusals(i, steps, p))
    ensures multiset(Posts({Block, OverrunOldest}, steps))
            <= multiset(p.processed) + multiset(Displacements(Init(room, threads), steps, p))
  {
    hide Init, Total, Runs, Posts, Refusals, Displacements;
    var i := Init(room, threads);
    forall m
      ensures multiset(Posts(ALL, steps))[m] == multiset(p.processed)[m] + multiset(Displacements(i, steps, p))[m]
                                                + multiset(Refusals(i, steps, p))[m]
      ensures multiset(Posts({Block, OverrunOldest}, steps))[m]
              <= multiset(p.processed)[m] + multiset(Displacements(i, steps, p))[m]
    {
      QuietCounts(room, threads, steps, p, m);
    }
  }

  /** No wake-up is lost: when nothing can move, no message is queued, no producer blocked, and every message
      posted has been processed, as often as it was posted and neither displaced nor refused. */
  lemma QuietDelivers(room: nat, threads: nat, steps: seq<Step>, p: Pool)
    requires 0 < room && 0 < threads && Runs(Init(room, threads), steps, p) && !p.closing && Quiet(p)
    ensures p.queue == [] && p.waiting == []
    ensures multiset(Posts(ALL, steps))
            == multiset(p.processed) + multiset(Displacements(Init(room, threads), steps, p))
               + multiset(Refusals(Init(room, threads), steps, p))
    ensures multiset(Posts({Block, OverrunOldest}, steps))
            <= multiset(p.processed) + multiset(Displacements(Init(room, threads), steps, p))
    ensures Posts({OverrunOldest}, steps) == [] ==> Displacements(Init(room, threads), steps, p) == []
    ensures threads == 1 ==> p.processed == DequeuedOnly(p.history.removed)
  {
    var i := Init(room, threads);
    InitInv(room, threads);
    RunInv(i, steps, p);
    SameThreads(i, steps, p);
    QuietEmpty(p);
    QuietAccounts(room, threads, steps, p);
    PoliciesKept(i, steps, p, Terminate);
    hide Total, Runs, Posts, Refusals, Displacements, NoLostWakeup, Closing, AccountedFor;
  }

  lemma StepThreads(p: Pool, s: Step)
    requires Shape(p) && Enabled(p, s)
    ensures |Next(p, s).workers| == |p.workers|
  {
  }

  lemma {:induction false} SameThreads(p: Pool, steps: seq<Step>, q: Pool)
    requires Runs(p, steps, q)
    ensures |q.workers| == |p.workers|
    decreases |steps|
  {
    hide Enabled, Next;
    if steps != [] {
      StepThreads(p, steps[0]);
      SameThreads(Next(p, steps[0]), steps[1..], q);
    }
  }

  // Progress

  predicate Spurious(s: Step) { s.SpuriousWorker? || s.SpuriousProducer? }

  function Measure(p: Pool): nat {
    8 * p.toPost + 7 * |p.testing| + 6 * |p.waiting| + 4 * |p.queue| + 2 * p.notices + Total(p.workers, Energies)
  }

  /** Nobody posts, and the destructor does not start: the threads that are there carry on. */
  predicate CarriesOn(s: Step) { s.Produce? || s.Notice? || s.Work? || Spurious(s) }

  lemma WorkDown(p: Pool, i: nat, wake: nat)
    requires Enabled(p, Work(i, wake))
    ensures WorkerStep(p, i, wake).closing == p.closing && Measure(WorkerStep(p, i, wake)) + 1 <= Measure(p)
  {
    hide Total, Without;
    var q := WorkerStep(p, i, wake);
    TotalUpdate(p.workers, Energies, i, q.workers[i]);
    assert q.workers == p.workers[i := q.workers[i]];
  }

  /** Every step of a closing pool, and every step but a post of a running one, brings the pool nearer to rest; a
      spurious wake-up costs one step back. */
  lemma StepsDown(p: Pool, s: Step)
    requires Shape(p) && (p.closing || CarriesOn(s)) && Enabled(p, s)
    ensures Next(p, s).closing == p.closing
    ensures Measure(Next(p, s)) + 1 <= Measure(p) + if Spurious(s) then 2 else 0
  {
    hide Total, Without, WorkerStep;
    match s
    case Notice(w) => if Sleeping(p) { TotalUpdate(p.workers, Energies, w, Awake); }
    case Work(i, wake) => WorkDown(p, i, wake);
    case SpuriousWorker(i) => TotalUpdate(p.workers, Energies, i, Awake);
    case _ =>
  }

  function SpuriousSteps(steps: seq<Step>): nat {
    if steps == [] then 0 else (if Spurious(steps[0]) then 1 else 0) + SpuriousSteps(steps[1..])
  }

  /** No run of a closing pool is longer than this: with finitely many spurious wake-ups, shutting down
      cannot go on for ever. */
  lemma {:induction false} ShutdownBound(p: Pool, steps: seq<Step>, q: Pool)
    requires Inv(p) && p.closing && Runs(p, steps, q)
    ensures |steps| <= Measure(p) + 2 * SpuriousSteps(steps)
    decreases |steps|
  {
    hide Measure;
    if steps != [] {
      InvStep(p, steps[0]);
      StepsDown(p, steps[0]);
      ShutdownBound(Next(p, steps[0]), steps[1..], q);
    }
  }

  /** As long as the pool is not quiet, some thread can go on by itself. */
  lemma Progress(p: Pool) returns (s: Step)
    requires !Quiet(p)
    ensures Enabled(p, s) && CarriesOn(s) && !Spurious(s)
  {
    if i :| 0 <= i < |p.workers| && Active(p.workers[i]) {
      s := Work(i, 0);
    } else if p.notices > 0 {
      var w := 0;
      if Sleeping(p) { w :| 0 <= w < |p.workers| && p.workers[w] == Asleep; }
      s := Notice(w);
    } else {
      s := Produce(0);
    }
  }

  /** Shutting down cannot deadlock: until every worker has ended, some thread can go on by itself. */
  lemma ShutdownProgress(p: Pool) returns (s: Step)
    requires Inv(p) && p.closing && !AllExited(p)
    ensures Enabled(p, s) && !Spurious(s)
  {
    if Quiet(p) {
      StillToPost(p);
      s := PostTerminate;
    } else {
      s := Progress(p);
    }
  }

  /** If all threads wait, the destructor still has a message to post. */
  lemma StillToPost(p: Pool)
    requires Inv(p) && p.closing && Quiet(p) && !AllExited(p)
    ensures p.waiting == [] && 0 < p.toPost
  {
    hide Total, Terminates, Conserved, InOrder;
    var i :| 0 <= i < |p.workers| && p.workers[i] != Exited;
    TotalZero(p.workers, AwakeOnes);
    TotalZero(p.workers, Notifiers);
    assert p.workers[i] == Asleep && p.queue == [];
    NoTerminates(p.queue);
    TotalFull(p.workers, Holders(Terminate));
    assert Weight(Holders(Terminate), p.workers[i]) == 0;
  }

  /** From every state of a closing pool some run ends with all workers gone. */
  lemma {:induction false} ShutdownEnds(p: Pool) returns (steps: seq<Step>, q: Pool)
    requires Inv(p) && p.closing
    ensures Runs(p, steps, q) && AllExited(q) && |steps| <= Measure(p)
    decreases Measure(p)
  {
    hide Measure;
    if AllExited(p) {
      steps, q := [], p;
    } else {
      var s := ShutdownProgress(p);
      InvStep(p, s);
      StepsDown(p, s);
      var rest;
      rest, q := ShutdownEnds(Next(p, s));
      steps := [s] + rest;
    }
  }

  /** A running pool comes to rest: from every state the threads that are there can carry on, without further posts,
      until nothing can move. */
  lemma {:induction false} RestReached(p: Pool) returns (steps: seq<Step>, q: Pool)
    requires Inv(p) && !p.closing
    ensures Runs(p, steps, q) && !q.closing && Quiet(q)
    ensures |steps| <= Measure(p) && forall i :: 0 <= i < |steps| ==> CarriesOn(steps[i])
    decreases Measure(p)
  {
    hide Measure, Quiet;
    if Quiet(p) {
      steps, q := [], p;
    } else {
      var s := Progress(p);
      InvStep(p, s);
      StepsDown(p, s);
      var rest;
      rest, q := RestReached(Next(p, s));
      steps := [s] + rest;
    }
  }

  /** A running pool takes every post, of any policy, and deals with it. */
  lemma PostTaken(p: Pool, s: Step) returns (steps: seq<Step>, q: Pool)
    requires Inv(p) && !p.closing && (s.PostBlock? || s.PostOverrun? || s.PostDiscard?) && s.msg != Terminate
    ensures Runs(p, [s] + steps, q) && !q.closing && Quiet(q)
    ensures forall i :: 0 <= i < |steps| ==> CarriesOn(steps[i])
  {
    assert Enabled(p, s) && !Next(p, s).closing;
    InvStep(p, s);
    hide Measure, Quiet, Next, Enabled, Inv;
    steps, q := RestReached(Next(p, s));
    assert ([s] + steps)[1..] == steps;
  }

  /** A pool at rest can be shut down, to the end. */
  lemma ShutdownFromRest(p: Pool) returns (steps: seq<Step>, q: Pool)
    requires Inv(p) && !p.closing && Quiet(p)
    ensures Runs(p, [Close] + steps, q) && AllExited(q)
  {
    QuietEmpty(p);
    assert Enabled(p, Close) && Next(p, Close).closing;
    InvStep(p, Close);
    hide Measure, Quiet, Next, Enabled, Inv;
    steps, q := ShutdownEnds(Next(p, Close));
    assert ([Close] + steps)[1..] == steps;
  }
}
