/** Every sequence of operations on the timer vector: what it does to each timer, seen from
    outside as the place the timer is in, and when the active timers stay a heap. */
module TimerRuns {
  import opened Heap
  import opened Timers
  import opened DisableSlots

  /** What the scheduler holds of a timer. */
  datatype Place = Absent | Inactive | Active(expired: int)

  function PlaceOf(s: State, timer: int): Place {
    var pos := IndexOf(s.heap, timer);
    if pos >= 0 then Active(s.heap[pos].expired)
    else if IndexOf(s.idle, timer) >= 0 then Inactive
    else Absent
  }

  ghost predicate At(s: State, timer: int, p: Place) {
    match p
    case Active(expired) => Entry(timer, expired) in multiset(s.heap)
    case Inactive => Has(multiset(s.idle), timer)
    case Absent => !Has(multiset(s.heap), timer) && !Has(multiset(s.idle), timer)
  }

  lemma NotBoth(s: State, e: Entry, f: Entry)
    requires Structure(s) && e in multiset(s.heap) && f in multiset(s.idle)
    ensures e.timer != f.timer
  {
    assert e in s.All() && f in s.All();
    assert s.All()[e] <= 1;
  }

  lemma OneActive(s: State, e: Entry, f: Entry)
    requires Structure(s) && e in multiset(s.heap) && f in multiset(s.heap) && e.timer == f.timer
    ensures e == f
  {
    assert e in s.All() && f in s.All();
  }

  lemma PlaceIsAt(s: State, timer: int, p: Place)
    requires Structure(s)
    ensures PlaceOf(s, timer) == p <==> At(s, timer, p)
  {
    NotFound(s.heap, timer);
    NotFound(s.idle, timer);
    var pos := IndexOf(s.heap, timer);
    if pos >= 0 {
      assert s.heap[pos] in multiset(s.heap);
      forall f | f in multiset(s.idle) ensures f.timer != timer {
        NotBoth(s, s.heap[pos], f);
      }
      forall e | e in multiset(s.heap) && e.timer == timer ensures e == s.heap[pos] {
        OneActive(s, e, s.heap[pos]);
      }
    }
  }

  /** A step that leaves the entries of a timer alone leaves it in its place. */
  lemma SamePlace(s: State, t: State, timer: int)
    requires Structure(s) && Structure(t)
    requires forall e: Entry | e.timer == timer ::
               (e in multiset(s.heap) <==> e in multiset(t.heap))
               && (e in multiset(s.idle) <==> e in multiset(t.idle))
    ensures PlaceOf(t, timer) == PlaceOf(s, timer)
  {
    var p := PlaceOf(s, timer);
    PlaceIsAt(s, timer, p);
    assert At(t, timer, p);
    PlaceIsAt(t, timer, p);
  }

  lemma OutPlaces(s: State, t: State, x: Entry, timer: int)
    requires Structure(s) && x in multiset(s.heap)
    requires multiset(t.heap) == multiset(s.heap) - multiset{x}
    requires multiset(t.idle) == multiset(s.idle) + multiset{x}
    ensures Structure(t)
    ensures PlaceOf(t, timer) == if timer == x.timer then Inactive else PlaceOf(s, timer)
  {
    MovedOut(s, t, x);
    if timer == x.timer {
      assert x in multiset(t.idle);
      PlaceIsAt(t, timer, Inactive);
    } else {
      SamePlace(s, t, timer);
    }
  }

  lemma InPlaces(s: State, t: State, was: Entry, e: Entry, timer: int)
    requires Structure(s) && was in multiset(s.idle) && was.timer == e.timer
    requires multiset(t.heap) == multiset(s.heap) + multiset{e}
    requires multiset(t.idle) == multiset(s.idle) - multiset{was}
    ensures Structure(t)
    ensures PlaceOf(t, timer) == if timer == e.timer then Active(e.expired) else PlaceOf(s, timer)
  {
    Exchanged(s, t, was, e);
    if timer == e.timer {
      PlaceIsAt(t, timer, Active(e.expired));
    } else {
      SamePlace(s, t, timer);
    }
  }

  lemma AddPlaces(s: State, timer: int, other: int)
    requires Structure(s)
    ensures Structure(Add(s, timer))
    ensures PlaceOf(Add(s, timer), other)
         == if other == timer && PlaceOf(s, other).Absent? then Inactive else PlaceOf(s, other)
  {
    var t := Add(s, timer);
    AddKeeps(s, timer);
    if t != s {
      assert Entry(timer, 0) in multiset(t.idle);
      assert multiset(t.idle) == multiset(s.idle) + multiset{Entry(timer, 0)};
      if other == timer {
        PlaceIsAt(t, timer, Inactive);
      } else {
        SamePlace(s, t, other);
      }
    }
  }

  lemma EnablePlaces(s: State, timer: int, expired: int, other: int)
    requires Structure(s)
    ensures Structure(Enable(s, timer, expired))
    ensures PlaceOf(Enable(s, timer, expired), other)
         == if other == timer && PlaceOf(s, other).Inactive? then Active(expired) else PlaceOf(s, other)
  {
    var pos := IndexOf(s.idle, timer);
    if pos >= 0 {
      assert s.idle[pos] in multiset(s.idle);
      PlaceIsAt(s, timer, Inactive);
      PushAtMoves(s, pos, expired);
      InPlaces(s, PushAt(s, pos, expired), s.idle[pos], Entry(timer, expired), other);
    }
  }

  lemma PopPlaces(s: State, pos: nat, other: int)
    requires Structure(s) && pos < |s.heap|
    ensures Structure(PopAt(s, pos))
    ensures PlaceOf(PopAt(s, pos), other)
         == if other == s.heap[pos].timer then Inactive else PlaceOf(s, other)
  {
    assert s.heap[pos] in multiset(s.heap);
    PopAtMoves(s, pos);
    OutPlaces(s, PopAt(s, pos), s.heap[pos], other);
  }

  lemma ErasePlaces(s: State, timer: int, other: int)
    requires Structure(s) && !PlaceOf(s, timer).Active?
    ensures Structure(Erase(s, timer))
    ensures PlaceOf(Erase(s, timer), other) == if other == timer then Absent else PlaceOf(s, other)
  {
    var t := Erase(s, timer);
    NotFound(s.heap, timer);
    EraseKeeps(s, timer);
    if other == timer {
      PlaceIsAt(t, timer, Absent);
    } else {
      SamePlace(s, t, other);
    }
  }

  lemma DisablePlaces(how: Removal, s: State, timer: int, other: int)
    requires Structure(s)
    ensures Structure(DisableAs(how, s, timer))
    ensures PlaceOf(DisableAs(how, s, timer), other)
         == if other == timer && PlaceOf(s, other).Active? then Inactive else PlaceOf(s, other)
  {
    var pos := IndexOf(s.heap, timer);
    if pos >= 0 {
      if how.AsWritten? {
        PopPlaces(s, pos, other);
      } else {
        assert s.heap[pos] in multiset(s.heap);
        RemovedMoves(s.heap, pos);
        OutPlaces(s, RemoveAt(s, pos), s.heap[pos], other);
      }
    }
  }

  lemma DrainPlaces(s: State, now: int, timer: int)
    requires Structure(s) && IsHeap(s.heap)
    ensures Structure(Drain(s, now).0)
    ensures var p := PlaceOf(s, timer);
            PlaceOf(Drain(s, now).0, timer) == if p.Active? && p.expired <= now then Inactive else p
  {
    var (t, batch) := Drain(s, now);
    var p := PlaceOf(s, timer);
    DrainExact(s, now);
    PlaceIsAt(s, timer, p);
    var q := if p.Active? && p.expired <= now then Inactive else p;
    DrainAt(s, now, t, batch, timer, p);
    PlaceIsAt(t, timer, q);
  }

  lemma DrainAt(s: State, now: int, t: State, batch: seq<Entry>, timer: int, p: Place)
    requires Structure(s) && Drained(s, now, t, batch) && At(s, timer, p)
    ensures At(t, timer, if p.Active? && p.expired <= now then Inactive else p)
  {
    match p
    case Active(expired) =>
      var e := Entry(timer, expired);
      assert e in multiset(batch) <==> expired <= now;
      assert e in t.All();
    case Inactive =>
      var f :| f in multiset(s.idle) && f.timer == timer;
      assert f in t.All();
      if f in multiset(t.heap) {
        NotBoth(s, f, f);
      }
    case Absent =>
      forall e | e in multiset(t.idle) ensures e.timer != timer {
        assert e in s.All();
      }
  }

  // ----- every sequence of operations -----

  datatype Op =
    | AddOp(timer: int)
    | EnableOp(timer: int, expired: int)
    | DisableOp(timer: int)
    | RemoveOp(timer: int)
    | DrainOp(now: int)

  function Do(how: Removal, s: State, op: Op): State {
    match op
    case AddOp(timer) => Add(s, timer)
    case EnableOp(timer, expired) => Enable(s, timer, expired)
    case DisableOp(timer) => DisableAs(how, s, timer)
    case RemoveOp(timer) => Erase(DisableAs(how, s, timer), timer)
    case DrainOp(now) => Drain(s, now).0
  }

  function DoAll(how: Removal, s: State, ops: seq<Op>): State
    decreases |ops|
  {
    if |ops| == 0 then s else DoAll(how, Do(how, s, ops[0]), ops[1..])
  }

  /** Where an operation is meant to put a timer that is in place `p`. */
  function Placed(op: Op, timer: int, p: Place): Place {
    match op
    case AddOp(t) => if t == timer && p.Absent? then Inactive else p
    case EnableOp(t, expired) => if t == timer && p.Inactive? then Active(expired) else p
    case DisableOp(t) => if t == timer && p.Active? then Inactive else p
    case RemoveOp(t) => if t == timer then Absent else p
    case DrainOp(now) => if p.Active? && p.expired <= now then Inactive else p
  }

  function PlacedAll(ops: seq<Op>, timer: int, p: Place): Place
    decreases |ops|
  {
    if |ops| == 0 then p else PlacedAll(ops[1..], timer, Placed(ops[0], timer, p))
  }

  /** A disable or remove that hits a safe slot or an inactive timer. */
  predicate CarefulOp(s: State, op: Op) {
    op.DisableOp? || op.RemoveOp? ==> Careful(s, op.timer)
  }

  predicate AllCareful(s: State, ops: seq<Op>)
    decreases |ops|
  {
    |ops| == 0 || (CarefulOp(s, ops[0]) && AllCareful(Do(AsWritten, s, ops[0]), ops[1..]))
  }

  lemma DoStructure(how: Removal, s: State, op: Op)
    requires Structure(s)
    ensures Structure(Do(how, s, op))
  {
    match op
    case AddOp(timer) => AddKeeps(s, timer);
    case EnableOp(timer, expired) => EnableKeeps(s, timer, expired);
    case DisableOp(timer) => DisablePlaces(how, s, timer, timer);
    case RemoveOp(timer) =>
      DisablePlaces(how, s, timer, timer);
      NotFound(DisableAs(how, s, timer).heap, timer);
      EraseKeeps(DisableAs(how, s, timer), timer);
    case DrainOp(now) => DrainStructure(s, now);
  }

  lemma DoHeap(how: Removal, s: State, op: Op)
    requires Structure(s) && IsHeap(s.heap) && (how.Intended? || CarefulOp(s, op))
    ensures IsHeap(Do(how, s, op).heap)
  {
    match op
    case AddOp(timer) => AddKeeps(s, timer);
    case EnableOp(timer, expired) => EnableKeeps(s, timer, expired);
    case DisableOp(timer) => DisableHeap(how, s, timer);
    case RemoveOp(timer) => DisableHeap(how, s, timer);
    case DrainOp(now) => DrainExact(s, now);
  }

  lemma DisableHeap(how: Removal, s: State, timer: int)
    requires IsHeap(s.heap) && (how.Intended? || Careful(s, timer))
    ensures IsHeap(DisableAs(how, s, timer).heap)
  {
    var pos := IndexOf(s.heap, timer);
    if pos >= 0 {
      if how.AsWritten? {
        SafeSlotKeeps(s.heap, pos);
      } else {
        RemovedKeepsHeap(s.heap, pos);
      }
    }
  }

  /** An operation moves exactly the timer it names; a drain, which names none, moves exactly
      the active timers that have expired, if the active entries are a heap. */
  lemma DoPlaces(how: Removal, s: State, op: Op, timer: int)
    requires Structure(s) && (op.DrainOp? ==> IsHeap(s.heap))
    ensures PlaceOf(Do(how, s, op), timer) == Placed(op, timer, PlaceOf(s, timer))
  {
    match op
    case AddOp(t) => AddPlaces(s, t, timer);
    case EnableOp(t, expired) => EnablePlaces(s, t, expired, timer);
    case DisableOp(t) => DisablePlaces(how, s, t, timer);
    case RemoveOp(t) =>
      DisablePlaces(how, s, t, t);
      DisablePlaces(how, s, t, timer);
      ErasePlaces(DisableAs(how, s, t), t, timer);
    case DrainOp(now) => DrainPlaces(s, now, timer);
  }

  /** Whatever the sequence of operations: no timer is held twice; and with the disable that is
      intended the active timers are always a heap, and every timer is where the operations
      that name it, and the drains, are meant to put it. The disable as it is written does the
      same as long as it is careful. */
  lemma {:induction false} RunKeeps(how: Removal, s: State, ops: seq<Op>)
    requires Structure(s)
    ensures var t := DoAll(how, s, ops);
            && Structure(t)
            && (IsHeap(s.heap) && (how.Intended? || AllCareful(s, ops)) ==>
                  IsHeap(t.heap)
                  && forall timer :: PlaceOf(t, timer) == PlacedAll(ops, timer, PlaceOf(s, timer)))
    decreases |ops|
  {
    if |ops| != 0 {
      DoStructure(how, s, ops[0]);
      var u := Do(how, s, ops[0]);
      RunKeeps(how, u, ops[1..]);
      if IsHeap(s.heap) && (how.Intended? || AllCareful(s, ops)) {
        DoHeap(how, s, ops[0]);
        forall timer ensures PlaceOf(DoAll(how, s, ops), timer) == PlacedAll(ops, timer, PlaceOf(s, timer)) {
          DoPlaces(how, s, ops[0], timer);
        }
      }
    }
  }

  lemma {:induction false} DrainStructure(s: State, now: int)
    requires Structure(s)
    ensures Structure(Drain(s, now).0)
    decreases |s.heap|
  {
    if Expired(s, now) {
      PopPlaces(s, 0, s.heap[0].timer);
      DrainStructure(PopAt(s, 0), now);
    }
  }
}
