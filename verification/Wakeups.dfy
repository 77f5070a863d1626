/** The one-slot condition of the pool, counted over runs: each time the flag is set, at most one
    worker leaves its wait. */
module Wakeups {
  import opened ThreadPool

  function Wakes<T(!new)>(es: seq<Event<T>>): nat {
    if |es| == 0 then 0 else (if es[0].Work? && es[0].step.Wake? then 1 else 0) + Wakes(es[1..])
  }

  function Flags<T(!new)>(es: seq<Event<T>>): nat {
    if |es| == 0 then 0 else (if es[0].Flag? then 1 else 0) + Flags(es[1..])
  }

  /** 1 for a worker that has been let out of its wait and has not gone on yet. */
  function Admitted(w: Worker): nat {
    if w.Woken? then 1 else 0
  }

  function Up<T(!new)>(s: State<T>): nat {
    if s.ready then 1 else 0
  }

  /** Wakeups in store: raised flags and workers let out. */
  function InStore<T(!new)>(s: State<T>): nat {
    Sum(Admitted, s.workers) + Up(s)
  }

  lemma StepWakes<T(!new)>(s: State<T>, e: Event<T>)
    requires Enabled(s, e)
    ensures Wakes([e]) + InStore(Apply(s, e)) <= Flags([e]) + InStore(s)
  {
    match e
    case Work(w, step) => SumUpdate(Admitted, s.workers, w, Next(s, s.workers[w], step).0);
    case Notify(_) => SumWake(Admitted, s.workers);
    case _ =>
  }

  lemma {:induction false} RunWakes<T(!new)>(s: State<T>, es: seq<Event<T>>, t: State<T>)
    requires IsRun(s, es, t)
    ensures Wakes(es) + InStore(t) <= Flags(es) + InStore(s)
    decreases |es|
  {
    if |es| != 0 {
      StepWakes(s, es[0]);
      RunWakes(Apply(s, es[0]), es[1..], t);
    }
  }

  /** In every run the workers leave their waits at most as often as the flag was set. */
  lemma WakesOverRuns<T(!new)>(s: State<T>, es: seq<Event<T>>, t: State<T>)
    requires Initial(s) && IsRun(s, es, t)
    ensures Wakes(es) <= Flags(es)
  {
    ZeroSum(Admitted, s.workers);
    RunWakes(s, es, t);
  }

  lemma {:induction false} StaysDown<T(!new)>(s: State<T>, es: seq<Event<T>>, t: State<T>)
    requires IsRun(s, es, t) && !s.ready && forall i | 0 <= i < |es| :: !es[i].Flag?
    ensures !t.ready && |t.workers| == |s.workers|
    ensures forall w | 0 <= w < |t.workers| && t.workers[w].Woken? :: s.workers[w].Woken?
    decreases |es|
  {
    if |es| != 0 {
      assert !es[0].Flag?;
      StaysDown(Apply(s, es[0]), es[1..], t);
    }
  }

  /** A worker that checks the predicate while the flag is up takes it down, and until the flag is
      set again nobody else is let out of the wait. */
  lemma FlagConsumed<T(!new)>(s: State<T>, w: nat, es: seq<Event<T>>, t: State<T>)
    requires Enabled(s, Work(w, Check)) && s.ready && IsRun(Apply(s, Work(w, Check)), es, t)
    requires forall i | 0 <= i < |es| :: !es[i].Flag?
    ensures Apply(s, Work(w, Check)).workers[w].Woken?
    ensures !t.ready && |t.workers| == |s.workers|
    ensures forall v | 0 <= v < |t.workers| && t.workers[v].Woken? :: v == w || s.workers[v].Woken?
  {
    StaysDown(Apply(s, Work(w, Check)), es, t);
  }

  lemma {:induction false} StaysBlocked<T(!new)>(s: State<T>, w: nat, es: seq<Event<T>>, t: State<T>)
    requires IsRun(s, es, t) && w < |s.workers| && s.workers[w].Blocked?
    requires forall i | 0 <= i < |es| :: !es[i].Notify? && es[i] != Work(w, Spurious)
    ensures w < |t.workers| && t.workers[w].Blocked?
    decreases |es|
  {
    if |es| != 0 {
      assert !es[0].Notify? && es[0] != Work(w, Spurious);
      StaysBlocked(Apply(s, es[0]), w, es[1..], t);
    }
  }

  /** A worker that checks it while the flag is down blocks, and stays so until somebody notifies
      or a wakeup comes that nobody caused. */
  lemma CheckBlocks<T(!new)>(s: State<T>, w: nat, es: seq<Event<T>>, t: State<T>)
    requires Enabled(s, Work(w, Check)) && !s.ready && IsRun(Apply(s, Work(w, Check)), es, t)
    requires forall i | 0 <= i < |es| :: !es[i].Notify? && es[i] != Work(w, Spurious)
    ensures w < |t.workers| && t.workers[w].Blocked?
  {
    StaysBlocked(Apply(s, Work(w, Check)), w, es, t);
  }

  /** A wakeup that nobody caused only leads back to the predicate. */
  lemma SpuriousChecks<T(!new)>(s: State<T>, w: nat)
    requires Enabled(s, Work(w, Spurious))
    ensures var t := Apply(s, Work(w, Spurious));
            && Enabled(t, Work(w, Check))
            && var pc := Apply(t, Work(w, Check)).workers[w];
               if s.ready then pc.Woken? else pc.Blocked?
  {
  }

  // ----- clearing and quitting -----

  lemma {:induction false} StaysCleared<T(!new)>(s: State<T>, i: nat, es: seq<Event<T>>, t: State<T>)
    requires Inv(s) && i in s.cleared && IsRun(s, es, t)
    ensures i in t.cleared && i !in t.finished && i < t.taken
    decreases |es|
  {
    if |es| != 0 {
      StepInv(s, es[0]);
      StaysCleared(Apply(s, es[0]), i, es[1..], t);
    }
  }

  /** A clear empties the queue, and what was in it is never executed. */
  lemma ClearDiscards<T(!new)>(s: State<T>, i: nat, es: seq<Event<T>>, t: State<T>)
    requires Inv(s) && s.taken <= i < |s.appended| && IsRun(Apply(s, Clear), es, t)
    ensures Apply(s, Clear).queue == [] && i in t.cleared && i !in t.finished && i < t.taken
  {
    StepInv(s, Clear);
    StaysCleared(Apply(s, Clear), i, es, t);
  }

  lemma RunCons<T(!new)>(s: State<T>, e: Event<T>, es: seq<Event<T>>, t: State<T>)
    requires Enabled(s, e) && IsRun(Apply(s, e), es, t)
    ensures IsRun(s, [e] + es, t)
  {
    assert ([e] + es)[1..] == es;
  }

  lemma KickWakes<T(!new)>(s: State<T>, a: nat, w: nat) returns (t: State<T>)
    requires s.exit && a < |s.actors| && s.actors[a].Idle?
    requires w < |s.workers| && (s.workers[w].Blocked? || s.workers[w].ToWait?)
    ensures t.exit && t.queue == s.queue && w < |t.workers| && t.workers[w].Taking?
    ensures forall es, u | IsRun(t, es, u) ::
              IsRun(s, [Kick(a)] + ([Flag(a)] + ([Notify(a)] + ([Work(w, Check)] + ([Work(w, Wake)] + es)))), u)
  {
    var s1 := Apply(s, Kick(a));
    var s2 := Apply(s1, Flag(a));
    var s3 := Apply(s2, Notify(a));
    var s4 := Apply(s3, Work(w, Check));
    t := Apply(s4, Work(w, Wake));
    forall es, u | IsRun(t, es, u)
      ensures IsRun(s, [Kick(a)] + ([Flag(a)] + ([Notify(a)] + ([Work(w, Check)] + ([Work(w, Wake)] + es)))), u)
    {
      RunCons(s4, Work(w, Wake), es, u);
      RunCons(s3, Work(w, Check), [Work(w, Wake)] + es, u);
      RunCons(s2, Notify(a), [Work(w, Check)] + ([Work(w, Wake)] + es), u);
      RunCons(s1, Flag(a), [Notify(a)] + ([Work(w, Check)] + ([Work(w, Wake)] + es)), u);
      RunCons(s, Kick(a), [Flag(a)] + ([Notify(a)] + ([Work(w, Check)] + ([Work(w, Wake)] + es))), u);
    }
  }

  /** One kick of a shutdown lets one waiting worker leave, once the queue is empty. */
  lemma KickReleases<T(!new)>(s: State<T>, a: nat, w: nat) returns (es: seq<Event<T>>, u: State<T>)
    requires s.exit && s.queue == [] && a < |s.actors| && s.actors[a].Idle?
    requires w < |s.workers| && (s.workers[w].Blocked? || s.workers[w].ToWait?)
    ensures IsRun(s, es, u) && w < |u.workers| && u.workers[w].Exited?
  {
    var t := KickWakes(s, a, w);
    var t1 := Apply(t, Work(w, Take));
    var t2 := Apply(t1, Work(w, Look));
    u := Apply(t2, Work(w, Leave));
    RunCons(t2, Work(w, Leave), [], u);
    RunCons(t1, Work(w, Look), [Work(w, Leave)] + [], u);
    RunCons(t, Work(w, Take), [Work(w, Look)] + ([Work(w, Leave)] + []), u);
    es := [Work(w, Take)] + ([Work(w, Look)] + ([Work(w, Leave)] + []));
    es := [Kick(a)] + ([Flag(a)] + ([Notify(a)] + ([Work(w, Check)] + ([Work(w, Wake)] + es))));
  }
}
