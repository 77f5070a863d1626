/** The worker pool as a step system. Every worker, and every thread that appends a task or
    shuts the pool down, has a program counter; the push, the setting of the one-slot flag
    `m_ready` and calling `notify_all` are three separate steps. */
module ThreadPool {

  /** Where a worker stands in `do_work`. A worker inside `Condition::wait` is `ToWait` when it
      is about to check the predicate with the lock held, and `Blocked` when it has released it. */
  datatype Worker =
    | Unstarted
    | Taking
    | GotNull
    | ToPark
    | ToWait
    | Blocked
    | Woken
    | ToExit
    | Exited
    | GotTask(i: nat)
    | Running(i: nat)
    | Ran

  /** Where a thread stands in `append_task`, or in the notifying loop of a shutdown. */
  datatype Actor<T> = Idle | Checked(task: T) | ToFlag | ToNotify

  /** `appended`, `taken`, `finished` and `cleared` record the history: tasks are named by
      their position in `appended`. */
  datatype State<T> = State(
    workers: seq<Worker>,
    actors: seq<Actor<T>>,
    queue: seq<T>,
    ready: bool,
    exit: bool,
    running: int,
    appended: seq<T>,
    taken: nat,
    finished: set<nat>,
    cleared: set<nat>)

  /** The steps of `do_work` and of the wait inside it; `Spurious` is a wakeup nobody caused. */
  datatype Step =
    | Start | Take | Look | Park | Check | Spurious | Wake | Leave | Begin | Finish | End

  datatype Event<T> =
    | Work(w: nat, step: Step)
    | Append(a: nat, task: T)
    | Push(a: nat)
    | Flag(a: nat)
    | Notify(a: nat)
    | Kick(a: nat)
    | SetExit
    | Clear

  predicate CanStep(pc: Worker, step: Step) {
    match step
    case Start => pc.Unstarted?
    case Take => pc.Taking?
    case Look => pc.GotNull?
    case Park => pc.ToPark?
    case Check => pc.ToWait?
    case Spurious => pc.Blocked?
    case Wake => pc.Woken?
    case Leave => pc.ToExit?
    case Begin => pc.GotTask?
    case Finish => pc.Running?
    case End => pc.Ran?
  }

  predicate Enabled<T(!new)>(s: State<T>, e: Event<T>) {
    match e
    case Work(w, step) => w < |s.workers| && CanStep(s.workers[w], step)
    case Append(a, _) => a < |s.actors| && s.actors[a].Idle?
    case Push(a) => a < |s.actors| && s.actors[a].Checked?
    case Flag(a) => a < |s.actors| && s.actors[a].ToFlag?
    case Notify(a) => a < |s.actors| && s.actors[a].ToNotify?
    case Kick(a) => s.exit && a < |s.actors| && s.actors[a].Idle?
    case SetExit => true
    case Clear => true
  }

  /** Where the step leads and by how much it changes `m_running`. */
  function Next<T(!new)>(s: State<T>, pc: Worker, step: Step): (Worker, int)
    requires CanStep(pc, step)
  {
    match step
    case Start => (Taking, 1)
    case Take => (if |s.queue| == 0 then GotNull else GotTask(s.taken), 0)
    case Look => (if s.exit then ToExit else ToPark, 0)
    case Park => (ToWait, -1)
    case Check => (if s.ready then Woken else Blocked, 0)
    case Spurious => (ToWait, 0)
    case Wake => (Taking, 1)
    case Leave => (Exited, -1)
    case Begin => (Running(pc.i), 1)
    case Finish => (Ran, 0)
    case End => (Taking, -1)
  }

  /** What the step does besides: a take removes the front task, a successful check of the
      predicate resets the flag, a finished task is recorded. */
  function Worked<T(!new)>(s: State<T>, pc: Worker, step: Step): State<T>
    requires CanStep(pc, step)
  {
    match step
    case Take => if |s.queue| == 0 then s else s.(queue := s.queue[1..], taken := s.taken + 1)
    case Check => s.(ready := false)
    case Finish => s.(finished := s.finished + {pc.i})
    case _ => s
  }

  /** `notify_all` sends every blocked worker back to the predicate. */
  function Unblocked(w: Worker): Worker {
    if w.Blocked? then ToWait else w
  }

  function WakeAll(ws: seq<Worker>): seq<Worker> {
    seq(|ws|, i requires 0 <= i < |ws| => Unblocked(ws[i]))
  }

  function Interval(from: nat, limit: nat): (r: set<nat>)
    ensures forall i :: i in r <==> from <= i < limit
    decreases limit
  {
    if from >= limit then {} else Interval(from, limit - 1) + {limit - 1}
  }

  function Apply<T(!new)>(s: State<T>, e: Event<T>): State<T>
    requires Enabled(s, e)
  {
    match e
    case Work(w, step) =>
      var (pc, change) := Next(s, s.workers[w], step);
      Worked(s, s.workers[w], step).(workers := s.workers[w := pc], running := s.running + change)
    case Append(a, task) => if s.exit then s else s.(actors := s.actors[a := Checked(task)])
    case Push(a) =>
      s.(actors := s.actors[a := ToFlag], queue := s.queue + [s.actors[a].task],
         appended := s.appended + [s.actors[a].task])
    case Flag(a) => s.(actors := s.actors[a := ToNotify], ready := true)
    case Notify(a) => s.(actors := s.actors[a := Idle], workers := WakeAll(s.workers))
    case Kick(a) => s.(actors := s.actors[a := ToFlag])
    case SetExit => s.(exit := true)
    case Clear =>
      s.(queue := [], taken := |s.appended|,
         cleared := s.cleared + Interval(s.taken, |s.appended|))
  }

  ghost predicate Initial<T(!new)>(s: State<T>) {
    && (forall w | 0 <= w < |s.workers| :: s.workers[w] == Unstarted)
    && (forall a | 0 <= a < |s.actors| :: s.actors[a] == Idle)
    && s.queue == [] && !s.ready && !s.exit && s.running == 0
    && s.appended == [] && s.taken == 0 && s.finished == {} && s.cleared == {}
  }

  ghost predicate IsRun<T(!new)>(s: State<T>, es: seq<Event<T>>, t: State<T>)
    decreases |es|
  {
    if |es| == 0 then s == t else Enabled(s, es[0]) && IsRun(Apply(s, es[0]), es[1..], t)
  }

  // ----- no lost task -----

  /** About to call `take_task`, or executing a task and coming back to it. */
  predicate Busy(w: Worker) {
    w.Unstarted? || w.Taking? || w.Woken? || w.GotTask? || w.Running? || w.Ran?
  }

  ghost predicate SomeBusy(ws: seq<Worker>) {
    exists w :: 0 <= w < |ws| && Busy(ws[w])
  }

  ghost predicate SomeActor<T(!new)>(actors: seq<Actor<T>>, pc: Actor<T>) {
    exists a :: 0 <= a < |actors| && actors[a] == pc
  }

  ghost predicate NoLostTask<T(!new)>(s: State<T>) {
    |s.queue| > 0 ==> s.ready || SomeActor(s.actors, ToFlag) || SomeBusy(s.workers)
  }

  ghost predicate NoMissedWakeup<T(!new)>(s: State<T>) {
    s.ready && !SomeActor(s.actors, ToNotify) ==> forall w | 0 <= w < |s.workers| :: !s.workers[w].Blocked?
  }

  ghost predicate NoEarlyExit<T(!new)>(s: State<T>) {
    !s.exit ==> forall w | 0 <= w < |s.workers| :: !s.workers[w].ToExit? && !s.workers[w].Exited?
  }

  lemma BusyStays(ws: seq<Worker>, w: nat, pc: Worker)
    requires w < |ws| && Busy(pc)
    ensures SomeBusy(ws[w := pc])
  {
    assert ws[w := pc][w] == pc;
  }

  lemma BusyOther(ws: seq<Worker>, w: nat, pc: Worker)
    requires w < |ws| && (Busy(ws[w]) ==> Busy(pc)) && SomeBusy(ws)
    ensures SomeBusy(ws[w := pc])
  {
    var v :| 0 <= v < |ws| && Busy(ws[v]);
    assert Busy(ws[w := pc][v]);
  }

  lemma ActorOther<T(!new)>(actors: seq<Actor<T>>, a: nat, now: Actor<T>, pc: Actor<T>)
    requires a < |actors| && (actors[a] == pc ==> now == pc) && SomeActor(actors, pc)
    ensures SomeActor(actors[a := now], pc)
  {
    var b :| 0 <= b < |actors| && actors[b] == pc;
    assert actors[a := now][b] == pc;
  }

  lemma StepNoLostTask<T(!new)>(s: State<T>, e: Event<T>)
    requires NoLostTask(s) && Enabled(s, e)
    ensures NoLostTask(Apply(s, e))
  {
    var t := Apply(s, e);
    match e
    case Work(w, step) =>
      if Busy(t.workers[w]) {
        BusyStays(s.workers, w, t.workers[w]);
      } else if SomeBusy(s.workers) && !Busy(s.workers[w]) {
        BusyOther(s.workers, w, t.workers[w]);
      }
    case Append(a, task) =>
      if SomeActor(s.actors, ToFlag) && !s.exit {
        ActorOther(s.actors, a, Checked(task), ToFlag);
      }
    case Push(a) =>
      assert t.actors[a] == ToFlag;
    case Kick(a) =>
      assert t.actors[a] == ToFlag;
    case Notify(a) =>
      if SomeActor(s.actors, ToFlag) {
        ActorOther(s.actors, a, Idle, ToFlag);
      }
      if SomeBusy(s.workers) {
        var v :| 0 <= v < |s.workers| && Busy(s.workers[v]);
        assert Busy(t.workers[v]);
      }
    case Flag(_) =>
    case SetExit =>
    case Clear =>
  }

  lemma StepNoMissedWakeup<T(!new)>(s: State<T>, e: Event<T>)
    requires NoMissedWakeup(s) && Enabled(s, e)
    ensures NoMissedWakeup(Apply(s, e))
  {
    var t := Apply(s, e);
    match e
    case Append(a, task) =>
      if SomeActor(s.actors, ToNotify) && !s.exit {
        ActorOther(s.actors, a, Checked(task), ToNotify);
      }
    case Push(a) =>
      if SomeActor(s.actors, ToNotify) {
        ActorOther(s.actors, a, ToFlag, ToNotify);
      }
    case Kick(a) =>
      if SomeActor(s.actors, ToNotify) {
        ActorOther(s.actors, a, ToFlag, ToNotify);
      }
    case Flag(a) =>
      assert t.actors[a] == ToNotify;
    case Work(_, _) =>
    case Notify(_) =>
    case SetExit =>
    case Clear =>
  }

  lemma StepNoEarlyExit<T(!new)>(s: State<T>, e: Event<T>)
    requires NoEarlyExit(s) && Enabled(s, e)
    ensures NoEarlyExit(Apply(s, e))
  {
  }

  // ----- accounting -----

  /** A worker counts once while it is awake and once more while it executes a task. */
  function Weight(w: Worker): nat {
    match w
    case Taking => 1
    case GotNull => 1
    case ToPark => 1
    case ToExit => 1
    case GotTask(_) => 1
    case Running(_) => 2
    case Ran => 2
    case _ => 0
  }

  /** The sum of a measure over all workers. */
  function Sum(f: Worker -> nat, ws: seq<Worker>): nat {
    if ws == [] then 0 else Sum(f, ws[..|ws| - 1]) + f(ws[|ws| - 1])
  }

  lemma {:induction false} SumUpdate(f: Worker -> nat, ws: seq<Worker>, w: nat, pc: Worker)
    requires w < |ws|
    ensures Sum(f, ws[w := pc]) == Sum(f, ws) - f(ws[w]) + f(pc)
    decreases |ws|
  {
    var n := |ws| - 1;
    if w == n {
      assert ws[w := pc][..n] == ws[..n];
    } else {
      SumUpdate(f, ws[..n], w, pc);
      assert ws[w := pc][..n] == ws[..n][w := pc];
    }
  }

  lemma {:induction false} SumWake(f: Worker -> nat, ws: seq<Worker>)
    requires f(Blocked) == f(ToWait)
    ensures Sum(f, WakeAll(ws)) == Sum(f, ws)
    decreases |ws|
  {
    if ws != [] {
      var n := |ws| - 1;
      SumWake(f, ws[..n]);
      assert WakeAll(ws)[..n] == WakeAll(ws[..n]);
    }
  }

  lemma {:induction false} WeightBounds(ws: seq<Worker>)
    ensures Sum(Weight, ws) <= 2 * |ws|
    ensures Sum(Weight, ws) == 0 ==> forall w | 0 <= w < |ws| :: Weight(ws[w]) == 0
    decreases |ws|
  {
    if ws != [] {
      WeightBounds(ws[..|ws| - 1]);
    }
  }

  ghost predicate Accounted<T(!new)>(s: State<T>) {
    s.running == Sum(Weight, s.workers)
  }

  lemma StepAccounted<T(!new)>(s: State<T>, e: Event<T>)
    requires Accounted(s) && Enabled(s, e)
    ensures Accounted(Apply(s, e))
  {
    match e
    case Work(w, step) => SumUpdate(Weight, s.workers, w, Next(s, s.workers[w], step).0);
    case Notify(_) => SumWake(Weight, s.workers);
    case _ =>
  }

  // ----- every task once, in order -----

  predicate Holds(w: Worker, i: nat) {
    (w.GotTask? || w.Running?) && w.i == i
  }

  ghost predicate Held(ws: seq<Worker>, i: nat) {
    exists w :: 0 <= w < |ws| && Holds(ws[w], i)
  }

  /** The queue is what was appended and not yet taken. */
  ghost predicate InOrder<T(!new)>(s: State<T>) {
    && s.taken <= |s.appended|
    && s.queue == s.appended[s.taken..]
    && (forall i | i in s.finished || i in s.cleared :: i < s.taken)
    && s.finished !! s.cleared
  }

  /** Each taken task is with a worker, or finished, or was cleared. */
  ghost predicate Placed<T(!new)>(s: State<T>) {
    forall i | 0 <= i < s.taken :: i in s.finished || i in s.cleared || Held(s.workers, i)
  }

  /** A task with a worker is taken, and neither finished nor cleared. */
  ghost predicate HeldOpen<T(!new)>(s: State<T>) {
    forall w, i: nat {:trigger Holds(s.workers[w], i)} | 0 <= w < |s.workers| && Holds(s.workers[w], i) ::
      i < s.taken && i !in s.finished && i !in s.cleared
  }

  /** No two workers have the same task. */
  ghost predicate HeldOnce(ws: seq<Worker>) {
    forall v, w, i: nat {:trigger Holds(ws[v], i), Holds(ws[w], i)} |
      0 <= v < |ws| && 0 <= w < |ws| && Holds(ws[v], i) && Holds(ws[w], i) :: v == w
  }

  ghost predicate OnceInOrder<T(!new)>(s: State<T>) {
    InOrder(s) && Placed(s) && HeldOpen(s) && HeldOnce(s.workers)
  }

  lemma HeldBy(ws: seq<Worker>, w: nat, pc: Worker, i: nat)
    requires w < |ws| && Holds(pc, i)
    ensures Held(ws[w := pc], i)
  {
    assert Holds(ws[w := pc][w], i);
  }

  lemma HeldElsewhere(ws: seq<Worker>, w: nat, pc: Worker, i: nat)
    requires w < |ws| && Held(ws, i) && !Holds(ws[w], i)
    ensures Held(ws[w := pc], i)
  {
    var v :| 0 <= v < |ws| && Holds(ws[v], i);
    assert Holds(ws[w := pc][v], i);
  }

  /** A worker comes to hold a task only by taking it from the queue. */
  lemma WorkHolds<T(!new)>(s: State<T>, w: nat, step: Step, i: nat)
    requires Enabled(s, Work(w, step))
    ensures var t := Apply(s, Work(w, step));
            && (Holds(t.workers[w], i) ==>
                  Holds(s.workers[w], i) || (step.Take? && |s.queue| > 0 && i == s.taken))
            && (Holds(s.workers[w], i) && !Holds(t.workers[w], i) ==> i in t.finished)
  {
  }

  lemma WorkInOrder<T(!new)>(s: State<T>, w: nat, step: Step)
    requires InOrder(s) && HeldOpen(s) && Enabled(s, Work(w, step))
    ensures InOrder(Apply(s, Work(w, step)))
  {
    if step.Finish? {
      assert Holds(s.workers[w], s.workers[w].i);
    }
  }

  lemma WorkPlaced<T(!new)>(s: State<T>, w: nat, step: Step)
    requires InOrder(s) && Placed(s) && Enabled(s, Work(w, step))
    ensures Placed(Apply(s, Work(w, step)))
  {
    var t := Apply(s, Work(w, step));
    forall i: nat | i < t.taken && i !in t.finished && i !in t.cleared ensures Held(t.workers, i) {
      WorkHolds(s, w, step, i);
      if Holds(t.workers[w], i) {
        HeldBy(s.workers, w, t.workers[w], i);
      } else {
        HeldElsewhere(s.workers, w, t.workers[w], i);
      }
    }
  }

  lemma WorkHeldOpen<T(!new)>(s: State<T>, w: nat, step: Step)
    requires InOrder(s) && HeldOpen(s) && HeldOnce(s.workers) && Enabled(s, Work(w, step))
    ensures HeldOpen(Apply(s, Work(w, step)))
  {
    var t := Apply(s, Work(w, step));
    forall v, i: nat {:trigger Holds(t.workers[v], i)} | 0 <= v < |t.workers| && Holds(t.workers[v], i)
      ensures i < t.taken && i !in t.finished && i !in t.cleared
    {
      StillOpen(s, w, step, v, i);
    }
  }

  lemma StillOpen<T(!new)>(s: State<T>, w: nat, step: Step, v: nat, i: nat)
    requires InOrder(s) && HeldOpen(s) && HeldOnce(s.workers) && Enabled(s, Work(w, step))
    requires v < |s.workers| && Holds(Apply(s, Work(w, step)).workers[v], i)
    ensures var t := Apply(s, Work(w, step)); i < t.taken && i !in t.finished && i !in t.cleared
  {
    WorkHolds(s, w, step, i);
    if step.Finish? {
      assert Holds(s.workers[w], s.workers[w].i);
    }
    assert v != w ==> Holds(s.workers[v], i);
  }

  lemma WorkHeldOnce<T(!new)>(s: State<T>, w: nat, step: Step)
    requires HeldOpen(s) && HeldOnce(s.workers) && Enabled(s, Work(w, step))
    ensures HeldOnce(Apply(s, Work(w, step)).workers)
  {
    var t := Apply(s, Work(w, step));
    forall v, u, i: nat {:trigger Holds(t.workers[v], i), Holds(t.workers[u], i)} |
      0 <= v < |t.workers| && 0 <= u < |t.workers| && Holds(t.workers[v], i) && Holds(t.workers[u], i)
      ensures v == u
    {
      WorkHolds(s, w, step, i);
      assert v != w ==> Holds(s.workers[v], i);
      assert u != w ==> Holds(s.workers[u], i);
    }
  }

  lemma WokenHolds(ws: seq<Worker>, w: nat, i: nat)
    requires w < |ws|
    ensures Holds(WakeAll(ws)[w], i) <==> Holds(ws[w], i)
  {
  }

  lemma NotifyOnceInOrder<T(!new)>(s: State<T>, a: nat)
    requires OnceInOrder(s) && Enabled(s, Notify(a))
    ensures OnceInOrder(Apply(s, Notify(a)))
  {
    var t := Apply(s, Notify(a));
    forall w: nat, i: nat {:trigger Holds(t.workers[w], i)} | w < |s.workers|
      ensures Holds(t.workers[w], i) <==> Holds(s.workers[w], i)
    {
      WokenHolds(s.workers, w, i);
    }
    forall i: nat | Held(s.workers, i) ensures Held(t.workers, i) {
      var v :| 0 <= v < |s.workers| && Holds(s.workers[v], i);
      assert Holds(t.workers[v], i);
    }
  }

  lemma StepOnceInOrder<T(!new)>(s: State<T>, e: Event<T>)
    requires OnceInOrder(s) && Enabled(s, e)
    ensures OnceInOrder(Apply(s, e))
  {
    match e
    case Work(w, step) =>
      WorkInOrder(s, w, step);
      WorkPlaced(s, w, step);
      WorkHeldOpen(s, w, step);
      WorkHeldOnce(s, w, step);
    case Notify(a) => NotifyOnceInOrder(s, a);
    case _ =>
  }

  // ----- conservation of tasks -----

  /** 1 for a worker that holds a task. */
  function Load(w: Worker): nat {
    if w.GotTask? || w.Running? then 1 else 0
  }

  /** Every task taken from the queue is with a worker, finished or cleared. */
  ghost predicate Conserved<T(!new)>(s: State<T>) {
    s.taken == Sum(Load, s.workers) + |s.finished| + |s.cleared|
  }

  lemma {:induction false} IntervalSize(from: nat, limit: nat)
    requires from <= limit
    ensures |Interval(from, limit)| == limit - from
    decreases limit
  {
    if from < limit {
      IntervalSize(from, limit - 1);
    }
  }

  lemma WorkConserved<T(!new)>(s: State<T>, w: nat, step: Step)
    requires Conserved(s) && HeldOpen(s) && Enabled(s, Work(w, step))
    ensures Conserved(Apply(s, Work(w, step)))
  {
    SumUpdate(Load, s.workers, w, Next(s, s.workers[w], step).0);
    if step.Finish? {
      assert Holds(s.workers[w], s.workers[w].i);
    }
  }

  lemma StepConserved<T(!new)>(s: State<T>, e: Event<T>)
    requires Conserved(s) && OnceInOrder(s) && Enabled(s, e)
    ensures Conserved(Apply(s, e))
  {
    match e
    case Work(w, step) => WorkConserved(s, w, step);
    case Notify(_) => SumWake(Load, s.workers);
    case Clear =>
      IntervalSize(s.taken, |s.appended|);
      assert s.cleared !! Interval(s.taken, |s.appended|);
    case _ =>
  }

  // ----- every run -----

  ghost predicate Inv<T(!new)>(s: State<T>) {
    NoLostTask(s) && NoMissedWakeup(s) && NoEarlyExit(s) && Accounted(s) && OnceInOrder(s) && Conserved(s)
  }

  lemma StepInv<T(!new)>(s: State<T>, e: Event<T>)
    requires Inv(s) && Enabled(s, e)
    ensures Inv(Apply(s, e))
  {
    StepNoLostTask(s, e);
    StepNoMissedWakeup(s, e);
    StepNoEarlyExit(s, e);
    StepAccounted(s, e);
    StepOnceInOrder(s, e);
    StepConserved(s, e);
  }

  lemma {:induction false} ZeroSum(f: Worker -> nat, ws: seq<Worker>)
    requires forall w | 0 <= w < |ws| :: f(ws[w]) == 0
    ensures Sum(f, ws) == 0
    decreases |ws|
  {
    if ws != [] {
      ZeroSum(f, ws[..|ws| - 1]);
    }
  }

  lemma InitialInv<T(!new)>(s: State<T>)
    requires Initial(s)
    ensures Inv(s)
  {
    ZeroSum(Weight, s.workers);
    ZeroSum(Load, s.workers);
    forall w, i: nat | 0 <= w < |s.workers| ensures !Holds(s.workers[w], i) {
      assert s.workers[w] == Unstarted;
    }
  }

  lemma {:induction false} RunInv<T(!new)>(s: State<T>, es: seq<Event<T>>, t: State<T>)
    requires Inv(s) && IsRun(s, es, t)
    ensures Inv(t)
    decreases |es|
  {
    if |es| != 0 {
      StepInv(s, es[0]);
      RunInv(Apply(s, es[0]), es[1..], t);
    }
  }

  /** In every reachable state: a queued task has somebody who will see to it, a raised flag
      whose notification is over finds no worker blocked, `m_running` counts the awake and the
      executing workers and is 0 only if no task is executing, and tasks are taken in the order
      they were appended and each runs once. */
  lemma PoolOverRuns<T(!new)>(s: State<T>, es: seq<Event<T>>, t: State<T>)
    requires Initial(s) && IsRun(s, es, t)
    ensures Inv(t)
    ensures 0 <= t.running <= 2 * |t.workers|
    ensures t.running == 0 ==>
              forall w | 0 <= w < |t.workers| :: !t.workers[w].GotTask? && !t.workers[w].Running?
    ensures t.appended == t.appended[..t.taken] + t.queue
    ensures |t.appended| == |t.queue| + Sum(Load, t.workers) + |t.finished| + |t.cleared|
  {
    InitialInv(s);
    RunInv(s, es, t);
    WeightBounds(t.workers);
  }

  /** A task finishes at most once, and only after it was taken. */
  lemma FinishedOnce<T(!new)>(s: State<T>, w: nat)
    requires Inv(s) && Enabled(s, Work(w, Finish))
    ensures var i := s.workers[w].i;
            i !in s.finished && i < s.taken && Apply(s, Work(w, Finish)).finished == s.finished + {i}
  {
    assert Holds(s.workers[w], s.workers[w].i);
  }

  /** Before a shutdown the pool never sleeps on work: with a task in the queue and at least one
      worker, some worker or some thread in `append_task` can take a step of its own. */
  lemma NoStall<T(!new)>(s: State<T>) returns (e: Event<T>)
    requires Inv(s) && |s.queue| > 0 && !s.exit && |s.workers| > 0
    ensures Enabled(s, e)
    ensures match e
            case Work(_, step) => step != Spurious
            case Flag(_) => true
            case Notify(_) => true
            case _ => false
  {
    if SomeActor(s.actors, ToFlag) {
      var a :| 0 <= a < |s.actors| && s.actors[a] == ToFlag;
      return Flag(a);
    }
    if SomeActor(s.actors, ToNotify) {
      var a :| 0 <= a < |s.actors| && s.actors[a] == ToNotify;
      return Notify(a);
    }
    var w := 0;
    if SomeBusy(s.workers) {
      w :| 0 <= w < |s.workers| && Busy(s.workers[w]);
    }
    var step := match s.workers[w]
      case Unstarted => Start
      case Taking => Take
      case GotNull => Look
      case ToPark => Park
      case ToWait => Check
      case Woken => Wake
      case GotTask(_) => Begin
      case Running(_) => Finish
      case _ => End;
    return Work(w, step);
  }

  // ----- shutdown -----

  /** The flag is set and no thread is past its check in `append_task`. */
  ghost predicate Closing<T(!new)>(s: State<T>) {
    s.exit && forall a | 0 <= a < |s.actors| :: !s.actors[a].Checked?
  }

  /** Nobody holds a null task taken while the queue was still empty. */
  ghost predicate NoStaleNull<T(!new)>(s: State<T>) {
    |s.queue| > 0 ==> forall w | 0 <= w < |s.workers| :: !s.workers[w].GotNull? && !s.workers[w].ToExit?
  }

  /** Some worker leaves although a task is queued. */
  ghost predicate Deserts<T(!new)>(s: State<T>, e: Event<T>) {
    e.Work? && e.step.Leave? && Enabled(s, e) && |s.queue| > 0
  }

  lemma StepNoStaleNull<T(!new)>(s: State<T>, e: Event<T>)
    requires Closing(s) && NoStaleNull(s) && Enabled(s, e)
    ensures Closing(Apply(s, e)) && NoStaleNull(Apply(s, e)) && !Deserts(s, e)
  {
  }

  lemma {:induction false} RunNoStaleNull<T(!new)>(s: State<T>, es: seq<Event<T>>, t: State<T>)
    requires Closing(s) && NoStaleNull(s) && IsRun(s, es, t)
    ensures Closing(t) && NoStaleNull(t)
    decreases |es|
  {
    if |es| != 0 {
      StepNoStaleNull(s, es[0]);
      RunNoStaleNull(Apply(s, es[0]), es[1..], t);
    }
  }

  /** Once the pool is closing, the workers drain the queue before they leave, whatever happens
      next, if and only if no worker holds a null task from before the last append. */
  lemma DrainIff<T(!new)>(s: State<T>)
    requires Closing(s)
    ensures (forall es, t, e | IsRun(s, es, t) :: !Deserts(t, e)) <==> NoStaleNull(s)
  {
    if NoStaleNull(s) {
      forall es, t, e | IsRun(s, es, t) ensures !Deserts(t, e) {
        RunNoStaleNull(s, es, t);
      }
    } else {
      var w: nat :| w < |s.workers| && (s.workers[w].GotNull? || s.workers[w].ToExit?);
      Deserter(s, w);
    }
  }

  lemma Deserter<T(!new)>(s: State<T>, w: nat)
    requires s.exit && |s.queue| > 0
    requires w < |s.workers| && (s.workers[w].GotNull? || s.workers[w].ToExit?)
    ensures exists es, t, e :: IsRun(s, es, t) && Deserts(t, e)
  {
    var es: seq<Event<T>>, leave: Event<T> := [], Work(w, Leave);
    var t := s;
    if s.workers[w].GotNull? {
      es := [Work(w, Look)];
      t := Apply(s, es[0]);
      assert es[1..] == [];
    }
    assert IsRun(s, es, t) && Deserts(t, leave);
  }

  /** How a task is lost at a shutdown: the only worker finds the queue empty, then a task is
      appended and announced, then the exit flag is set, and the worker leaves on the null it
      already holds. */
  function LosingRun<T(!new)>(task: T): seq<Event<T>> {
    [Work(0, Start), Work(0, Take), Append(0, task), Push(0), Flag(0), Notify(0), SetExit,
     Work(0, Look), Work(0, Leave)]
  }

  function OneWorker<T(!new)>(): State<T> {
    State([Unstarted], [Idle], [], false, false, 0, [], 0, {}, {})
  }

  /** The states of that run. */
  function LosingStates<T(!new)>(task: T): seq<State<T>> {
    [OneWorker(),
     State([Taking], [Idle], [], false, false, 1, [], 0, {}, {}),
     State([GotNull], [Idle], [], false, false, 1, [], 0, {}, {}),
     State([GotNull], [Checked(task)], [], false, false, 1, [], 0, {}, {}),
     State([GotNull], [ToFlag], [task], false, false, 1, [task], 0, {}, {}),
     State([GotNull], [ToNotify], [task], true, false, 1, [task], 0, {}, {}),
     State([GotNull], [Idle], [task], true, false, 1, [task], 0, {}, {}),
     State([GotNull], [Idle], [task], true, true, 1, [task], 0, {}, {}),
     State([ToExit], [Idle], [task], true, true, 1, [task], 0, {}, {}),
     State([Exited], [Idle], [task], true, true, 0, [task], 0, {}, {})]
  }

  lemma TaskLostAtShutdown<T(!new)>(task: T)
    ensures Initial(OneWorker<T>())
    ensures var t := LosingStates(task)[9];
            && IsRun(OneWorker(), LosingRun(task), t)
            && t.queue == [task] && t.workers == [Exited] && t.actors == [Idle] && Closing(t)
            && forall es, u | IsRun(t, es, u) :: u.finished == {} && u.workers == [Exited]
  {
    var es, states := LosingRun(task), LosingStates(task);
    LosingSteps(task);
    LosingSteps2(task);
    Chain(es, states);
    var t := states[9];
    forall fs, u | IsRun(t, fs, u) ensures u.finished == {} && u.workers == [Exited] {
      NobodyLeft(t, fs, u);
    }
  }

  ghost predicate StepsTo<T(!new)>(s: State<T>, e: Event<T>, t: State<T>) {
    Enabled(s, e) && t == Apply(s, e)
  }

  lemma LosingSteps<T(!new)>(task: T)
    ensures var es, states := LosingRun(task), LosingStates(task);
            && StepsTo(states[0], es[0], states[1]) && StepsTo(states[1], es[1], states[2])
            && StepsTo(states[2], es[2], states[3]) && StepsTo(states[3], es[3], states[4])
  {
  }

  lemma LosingSteps2<T(!new)>(task: T)
    ensures var es, states := LosingRun(task), LosingStates(task);
            && StepsTo(states[4], es[4], states[5]) && StepsTo(states[5], es[5], states[6])
            && StepsTo(states[6], es[6], states[7]) && StepsTo(states[7], es[7], states[8])
            && StepsTo(states[8], es[8], states[9])
  {
    assert WakeAll([GotNull]) == [GotNull];
  }

  lemma {:induction false} Chain<T(!new)>(es: seq<Event<T>>, states: seq<State<T>>)
    requires |states| == |es| + 1
    requires forall i | 0 <= i < |es| :: StepsTo(states[i], es[i], states[i + 1])
    ensures IsRun(states[0], es, states[|es|])
    decreases |es|
  {
    if |es| != 0 {
      assert StepsTo(states[0], es[0], states[1]);
      Chain(es[1..], states[1..]);
    }
  }

  lemma {:induction false} NobodyLeft<T(!new)>(s: State<T>, es: seq<Event<T>>, t: State<T>)
    requires s.workers == [Exited] && s.finished == {} && IsRun(s, es, t)
    ensures t.workers == [Exited] && t.finished == {}
    decreases |es|
  {
    if |es| != 0 {
      var u := Apply(s, es[0]);
      assert |u.workers| == 1 && u.workers[0] == Exited;
      NobodyLeft(u, es[1..], t);
    }
  }
}
