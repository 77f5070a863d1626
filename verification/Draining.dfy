/** Before a shutdown the pool can always finish its work: from every reachable state its own
    threads can execute every accepted task. */
module Draining {
  import opened ThreadPool

  ghost predicate Reaches<T(!new)>(s: State<T>, t: State<T>) {
    exists es :: IsRun(s, es, t)
  }

  lemma ReachesSelf<T(!new)>(s: State<T>)
    ensures Reaches(s, s)
  {
    assert IsRun(s, [], s);
  }

  lemma ReachesAfter<T(!new)>(s: State<T>, e: Event<T>, t: State<T>)
    requires Enabled(s, e) && Reaches(Apply(s, e), t)
    ensures Reaches(s, t)
  {
    var es :| IsRun(Apply(s, e), es, t);
    assert ([e] + es)[1..] == es;
    assert IsRun(s, [e] + es, t);
  }

  /** How many steps a worker is from its next `take_task` or from being blocked. */
  function Distance(w: Worker): nat {
    match w
    case GotNull => 5
    case ToPark => 4
    case ToWait => 3
    case GotTask(_) => 4
    case Running(_) => 3
    case Ran => 2
    case Woken => 2
    case Unstarted => 2
    case Taking => 1
    case _ => 0
  }

  ghost function ActorsAt<T(!new)>(s: State<T>, pc: Actor<T>): set<nat> {
    set a: nat | a < |s.actors| && s.actors[a] == pc
  }

  ghost predicate Nearer<T(!new)>(t: State<T>, s: State<T>) {
    || |t.queue| < |s.queue|
    || (|t.queue| == |s.queue|
        && (|| |ActorsAt(t, ToFlag)| < |ActorsAt(s, ToFlag)|
            || (|ActorsAt(t, ToFlag)| == |ActorsAt(s, ToFlag)|
                && (|| |ActorsAt(t, ToNotify)| < |ActorsAt(s, ToNotify)|
                    || (|ActorsAt(t, ToNotify)| == |ActorsAt(s, ToNotify)|
                        && Sum(Distance, t.workers) < Sum(Distance, s.workers))))))
  }

  lemma FlagNearer<T(!new)>(s: State<T>, a: nat)
    requires Enabled(s, Flag(a))
    ensures Nearer(Apply(s, Flag(a)), s)
  {
    var t := Apply(s, Flag(a));
    assert a in ActorsAt(s, ToFlag);
    assert ActorsAt(t, ToFlag) == ActorsAt(s, ToFlag) - {a};
  }

  lemma NotifyNearer<T(!new)>(s: State<T>, a: nat)
    requires Enabled(s, Notify(a))
    ensures Nearer(Apply(s, Notify(a)), s)
  {
    var t := Apply(s, Notify(a));
    assert ActorsAt(t, ToFlag) == ActorsAt(s, ToFlag);
    assert a in ActorsAt(s, ToNotify);
    assert ActorsAt(t, ToNotify) == ActorsAt(s, ToNotify) - {a};
  }

  /** A worker comes nearer unless it takes a null or is woken by nobody. */
  lemma WorkNearer<T(!new)>(s: State<T>, w: nat, step: Step)
    requires Enabled(s, Work(w, step)) && step != Spurious && !s.exit && s.workers[w] != ToExit
    requires step.Take? ==> |s.queue| > 0
    ensures Nearer(Apply(s, Work(w, step)), s)
  {
    var t := Apply(s, Work(w, step));
    SumUpdate(Distance, s.workers, w, Next(s, s.workers[w], step).0);
    assert ActorsAt(t, ToFlag) == ActorsAt(s, ToFlag);
    assert ActorsAt(t, ToNotify) == ActorsAt(s, ToNotify);
  }

  /** The next step towards an empty queue and idle workers. */
  lemma NextMove<T(!new)>(s: State<T>) returns (e: Event<T>)
    requires Inv(s) && !s.exit && |s.workers| > 0
    requires |s.queue| > 0 || exists w :: 0 <= w < |s.workers| && Load(s.workers[w]) > 0
    ensures Enabled(s, e) && Nearer(Apply(s, e), s) && (e.Work? || e.Flag? || e.Notify?)
    ensures var t := Apply(s, e);
            !t.exit && |t.workers| == |s.workers| && t.appended == s.appended && t.cleared == s.cleared
  {
    if |s.queue| > 0 {
      e := NoStall(s);
      match e
      case Work(w, step) => WorkNearer(s, w, step);
      case Flag(a) => FlagNearer(s, a);
      case Notify(a) => NotifyNearer(s, a);
    } else {
      var w: nat :| w < |s.workers| && Load(s.workers[w]) > 0;
      e := Work(w, if s.workers[w].GotTask? then Begin else Finish);
      WorkNearer(s, w, e.step);
    }
  }

  /** From every reachable state before a shutdown, with at least one worker, the pool's own
      steps lead to a state in which every accepted task is finished, but for those cleared. */
  lemma {:induction false} CanFinishAll<T(!new)>(s: State<T>) returns (t: State<T>)
    requires Inv(s) && !s.exit && |s.workers| > 0
    ensures Reaches(s, t) && t.appended == s.appended && t.cleared == s.cleared
    ensures t.queue == [] && |t.finished| + |s.cleared| == |s.appended|
    ensures forall i: nat | i < |s.appended| :: i in t.finished <==> i !in s.cleared
    decreases |s.queue|, |ActorsAt(s, ToFlag)|, |ActorsAt(s, ToNotify)|, Sum(Distance, s.workers)
  {
    if |s.queue| > 0 || exists w :: 0 <= w < |s.workers| && Load(s.workers[w]) > 0 {
      var e := NextMove(s);
      StepInv(s, e);
      t := CanFinishAll(Apply(s, e));
      ReachesAfter(s, e, t);
    } else {
      ZeroSum(Load, s.workers);
      assert forall w, i: nat {:trigger Holds(s.workers[w], i)} | 0 <= w < |s.workers| :: !Holds(s.workers[w], i);
      ReachesSelf(s);
      t := s;
    }
  }
}
