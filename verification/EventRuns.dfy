/**
 The event ring over time: seen from the slot the next device tick consumes, with requests that start
 at a slot some ticks ahead, and runs of requests and ticks.
 */
module EventRuns {
  import opened Collections
  import opened EventRing

  /* ---- The ring over time ----------------------------------------------------------------- */

  // A ring of n slots seen from the one the next device tick consumes. A request for `time` ticks
  // ahead starts at slot (time - 1) mod n: a time of 0 means n ticks.
  function Turn(w: seq<Event>, k: nat): (r: seq<Event>)
    requires k <= |w|
    ensures |r| == |w|
  {
    w[k..] + w[..k]
  }

  function Target(n: nat, time: int): (i: nat)
    requires n > 0
    ensures i < n
    ensures 1 <= time <= n ==> i == time - 1
  {
    (time - 1) % n
  }

  ghost predicate Roomy(v: seq<Event>, low: int) {
    Bounded(v, low) && HasFree(v, low, 0)
  }

  function Schedule(v: seq<Event>, low: int, time: int, e: Event): (r: seq<Event>)
    requires Roomy(v, low) && e.device < low
    ensures |r| == |v| && Bounded(r, low)
  {
    var i := Target(|v|, time);
    TurnRoomy(v, low, i);
    Turn(Place(Turn(v, i), low, 0, e), |v| - i)
  }

  // A device tick consumes the first slot and frees it.
  function Dispatch(v: seq<Event>, low: int): (r: seq<Event>)
    requires v != []
    ensures |r| == |v|
  {
    v[1..] + [Event(low, 0)]
  }

  // The ring some device ticks later, if nothing is asked for meanwhile.
  function Later(v: seq<Event>, low: int, ticks: nat): (r: seq<Event>)
    requires v != []
    ensures |r| == |v|
  {
    if ticks == 0 then v else Dispatch(Later(v, low, ticks - 1), low)
  }

  lemma {:induction false} LaterRoomy(v: seq<Event>, low: int, ticks: nat)
    requires Roomy(v, low)
    ensures Roomy(Later(v, low, ticks), low)
  {
    if ticks > 0 {
      LaterRoomy(v, low, ticks - 1);
      var r := Later(v, low, ticks);
      HasFreeAt(r, low, 0, |r| - 1);
    }
  }

  lemma TurnRoomy(w: seq<Event>, low: int, k: nat)
    requires Roomy(w, low) && k <= |w|
    ensures Roomy(Turn(w, k), low)
  {
    var f := FirstFree(w, low, 0);
    HasFreeAt(Turn(w, k), low, 0, if f < k then f + (|w| - k) else f - k);
  }

  /* ---- When an event is delivered --------------------------------------------------------- */

  // With enough room behind the target slot an insertion does not wrap past the read pointer.
  lemma ScheduleStraight(v: seq<Event>, low: int, time: int, e: Event)
    requires Roomy(v, low) && e.device < low && HasFree(v, low, Target(|v|, time))
    ensures Schedule(v, low, time, e) == Place(v, low, Target(|v|, time), e)
  {
    var i := Target(|v|, time);
    TurnRoomy(v, low, i);
    TurnPlace(v, low, i, i, e);
    var r := Place(v, low, i, e);
    assert Turn(Turn(r, i), |v| - i) == r;
  }

  // Probing a turned ring from index k - i is probing the ring from index k, short of wrapping.
  lemma {:induction false} TurnPlace(w: seq<Event>, low: int, i: nat, k: nat, e: Event)
    requires Bounded(w, low) && i <= k && HasFree(w, low, k) && e.device < low
    ensures Bounded(Turn(w, i), low) && HasFree(Turn(w, i), low, k - i)
    ensures Place(Turn(w, i), low, k - i, e) == Turn(Place(w, low, k, e), i)
    decreases |w| - k
  {
    var t := Turn(w, i);
    HasFreeAt(t, low, k - i, FirstFree(w, low, k) - i);
    assert t[k - i] == w[k];
    if w[k].device <= e.device {
      TurnPlace(w, low, i, k + 1, e);
    } else if !Free(w[k], low) {
      TurnPlace(w, low, i, k + 1, w[k]);
      TurnUpdate(Place(w, low, k + 1, w[k]), i, k, e);
    } else {
      TurnUpdate(w, i, k, e);
    }
  }

  lemma TurnUpdate(w: seq<Event>, i: nat, k: nat, e: Event)
    requires i <= k < |w|
    ensures Turn(w[k := e], i) == Turn(w, i)[k - i := e]
  {
  }

  // Occupied slots in a row are at most as many as there are occupied slots.
  lemma RowOfOccupied(w: seq<Event>, low: int, a: nat, b: nat)
    requires a <= b <= |w| && (forall i :: a <= i < b ==> !Free(w[i], low))
    ensures b - a <= |Occupied(w, low)|
  {
    RowSize(w, low, a, b);
    SubsetSize(OccupiedIn(w, low, a, b), Occupied(w, low));
  }

  function OccupiedIn(w: seq<Event>, low: int, a: nat, b: nat): set<nat>
    requires b <= |w|
  {
    set i: nat | a <= i < b && !Free(w[i], low)
  }

  lemma {:induction false} RowSize(w: seq<Event>, low: int, a: nat, b: nat)
    requires a <= b <= |w| && (forall i :: a <= i < b ==> !Free(w[i], low))
    ensures |OccupiedIn(w, low, a, b)| == b - a
    decreases b - a
  {
    if a < b {
      RowSize(w, low, a, b - 1);
      assert !Free(w[b - 1], low);
      assert OccupiedIn(w, low, a, b) == OccupiedIn(w, low, a, b - 1) + {b - 1};
    } else {
      assert OccupiedIn(w, low, a, b) == {};
    }
  }

  // With p events pending, a request for `time` ticks ahead finds its slot between `time` and
  // time + p ticks away, and every event it displaces moves strictly later, the last one by then:
  // all provided time + p does not exceed the ring.
  lemma DeliveryWindow(v: seq<Event>, low: int, time: int, e: Event)
    requires Bounded(v, low) && e.device < low
    requires 1 <= time && time + |Occupied(v, low)| <= |v|
    ensures Roomy(v, low) && HasFree(v, low, time - 1)
    ensures
      var c, r := Chain(v, low, time - 1, e.device), Schedule(v, low, time, e);
      && IsChain(v, low, time - 1, e.device, c)
      && (forall t :: 0 <= t < |c| ==> time <= c[t] + 1 <= time + |Occupied(v, low)|)
      && Shifted(v, r, c, e)
  {
    var k := time - 1;
    if !HasFree(v, low, k) {
      NoneFree(v, low, k);
      RowOfOccupied(v, low, k, |v|);
    }
    var f := FirstFree(v, low, k);
    HasFreeAt(v, low, 0, f);
    RowOfOccupied(v, low, k, f);
    ScheduleStraight(v, low, time, e);
    ChainIsChain(v, low, k, e.device);
    PlaceShifts(v, low, k, e);
    var c := Chain(v, low, k, e.device);
    ChainBelowLast(v, low, k, e.device, c);
  }

  /* ---- Runs ------------------------------------------------------------------------------- */

  datatype Input = Request(time: int, e: Event) | Tick

  // Every request of the run is below the free level and finds a free slot somewhere.
  ghost predicate Runnable(v: seq<Event>, low: int, ins: seq<Input>)
    decreases |ins|
  {
    v != [] && Bounded(v, low) &&
    (ins == [] ||
     match ins[0]
     case Request(time, e) => e.device < low && HasFree(v, low, 0) && Runnable(Schedule(v, low, time, e), low, ins[1..])
     case Tick => Runnable(Dispatch(v, low), low, ins[1..]))
  }

  // The ring after the run, and the slots its ticks consumed.
  ghost function Run(v: seq<Event>, low: int, ins: seq<Input>): (r: (seq<Event>, seq<Event>))
    requires Runnable(v, low, ins)
    decreases |ins|
  {
    if ins == [] then (v, [])
    else match ins[0]
      case Request(time, e) => Run(Schedule(v, low, time, e), low, ins[1..])
      case Tick =>
        var r := Run(Dispatch(v, low), low, ins[1..]);
        (r.0, [v[0]] + r.1)
  }

  // The requests of the devices numbered d and below, and all ticks.
  function Urgent(ins: seq<Input>, d: int): seq<Input> {
    if ins == [] then []
    else if ins[0].Request? && ins[0].e.device > d then Urgent(ins[1..], d)
    else [ins[0]] + Urgent(ins[1..], d)
  }

  lemma FilterSchedule(v: seq<Event>, low: int, d: int, time: int, e: Event)
    requires Roomy(v, low) && e.device < low && d < low
    ensures Roomy(Filter(v, low, d), low)
    ensures Filter(Schedule(v, low, time, e), low, d)
         == if e.device <= d then Schedule(Filter(v, low, d), low, time, e) else Filter(v, low, d)
  {
    var i := Target(|v|, time);
    TurnRoomy(v, low, i);
    FilterHasFree(v, low, d, 0);
    FilterTurn(v, low, d, i);
    FilterTurn(Place(Turn(v, i), low, 0, e), low, d, |v| - i);
    if e.device <= d {
      PlaceSeen(Turn(v, i), low, d, 0, e);
    } else {
      PlaceUnseen(Turn(v, i), low, d, 0, e);
      TurnBack(Filter(v, low, d), i);
    }
  }

  lemma FilterTurn(w: seq<Event>, low: int, d: int, k: nat)
    requires k <= |w|
    ensures Filter(Turn(w, k), low, d) == Turn(Filter(w, low, d), k)
  {
  }

  lemma TurnBack(w: seq<Event>, k: nat)
    requires k <= |w|
    ensures Turn(Turn(w, k), |w| - k) == w
  {
  }

  lemma FilterTick(v: seq<Event>, low: int, d: int)
    requires v != []
    ensures Filter(Dispatch(v, low), low, d) == Dispatch(Filter(v, low, d), low)
  {
  }

  lemma FilterCons(e: Event, w: seq<Event>, low: int, d: int)
    ensures Filter([e] + w, low, d) == [Seen(e, low, d)] + Filter(w, low, d)
  {
  }

  // Unfolding a run by its first input.
  lemma RunRequest(v: seq<Event>, low: int, time: int, e: Event, rest: seq<Input>)
    requires Roomy(v, low) && e.device < low && Runnable(Schedule(v, low, time, e), low, rest)
    ensures Runnable(v, low, [Request(time, e)] + rest)
    ensures Run(v, low, [Request(time, e)] + rest) == Run(Schedule(v, low, time, e), low, rest)
  {
    assert ([Request(time, e)] + rest)[1..] == rest;
  }

  lemma RunTick(v: seq<Event>, low: int, rest: seq<Input>)
    requires v != [] && Bounded(v, low) && Runnable(Dispatch(v, low), low, rest)
    ensures Runnable(v, low, [Tick] + rest)
    ensures
      var r := Run(Dispatch(v, low), low, rest);
      Run(v, low, [Tick] + rest) == (r.0, [v[0]] + r.1)
  {
    assert ([Tick] + rest)[1..] == rest;
  }

  // What the devices numbered d and below get to see of a run is what they would see if the less
  // urgent devices had asked for nothing.
  lemma {:induction false} RunSeen(v: seq<Event>, low: int, d: int, ins: seq<Input>)
    requires Runnable(v, low, ins) && d < low
    ensures Runnable(Filter(v, low, d), low, Urgent(ins, d))
    ensures
      var r, q := Run(v, low, ins), Run(Filter(v, low, d), low, Urgent(ins, d));
      Filter(r.0, low, d) == q.0 && Filter(r.1, low, d) == q.1
    decreases |ins|
  {
    if ins != [] {
      var f, rest := Filter(v, low, d), ins[1..];
      match ins[0]
      case Request(time, e) =>
        FilterSchedule(v, low, d, time, e);
        RunSeen(Schedule(v, low, time, e), low, d, rest);
        if e.device > d {
          assert Urgent(ins, d) == Urgent(rest, d);
        } else {
          RunRequest(f, low, time, e, Urgent(rest, d));
        }
      case Tick =>
        FilterTick(v, low, d);
        RunSeen(Dispatch(v, low), low, d, rest);
        RunTick(f, low, Urgent(rest, d));
        FilterCons(v[0], Run(Dispatch(v, low), low, rest).1, low, d);
    }
  }

  /* ---- What waits in the ring over time --------------------------------------------------- */

  lemma {:induction false} PendingAppend(a: seq<Event>, b: seq<Event>, low: int)
    ensures Pending(a + b, low) == Pending(a, low) + Pending(b, low)
  {
    if a == [] {
      assert a + b == b;
    } else {
      assert (a + b)[1..] == a[1..] + b;
      PendingAppend(a[1..], b, low);
    }
  }

  lemma PendingTurn(w: seq<Event>, low: int, k: nat)
    requires k <= |w|
    ensures Pending(Turn(w, k), low) == Pending(w, low)
  {
    assert w == w[..k] + w[k..];
    PendingAppend(w[..k], w[k..], low);
    PendingAppend(w[k..], w[..k], low);
  }

  lemma ScheduleConserves(v: seq<Event>, low: int, time: int, e: Event)
    requires Roomy(v, low) && e.device < low
    ensures Pending(Schedule(v, low, time, e), low) == Pending(v, low) + multiset{e}
  {
    var i := Target(|v|, time);
    TurnRoomy(v, low, i);
    PendingTurn(v, low, i);
    PlaceConserves(Turn(v, i), low, 0, e);
    PendingTurn(Place(Turn(v, i), low, 0, e), low, |v| - i);
  }

  lemma {:induction false} DispatchConserves(v: seq<Event>, low: int)
    requires v != []
    ensures Pending(Dispatch(v, low), low) + Waiting(v[0], low) == Pending(v, low)
  {
    PendingAppend(v[1..], [Event(low, 0)], low);
    assert Pending([Event(low, 0)], low) == multiset{};
  }

  // A ring has a free slot exactly when it has fewer events than slots.
  lemma {:induction false} RoomIffFew(v: seq<Event>, low: int)
    ensures HasFree(v, low, 0) <==> |Pending(v, low)| < |v|
  {
    PendingSize(v, low);
    if HasFree(v, low, 0) {
      assert Free(v[FirstFree(v, low, 0)], low);
    } else {
      NoneFree(v, low, 0);
    }
  }

  lemma {:induction false} PendingSize(v: seq<Event>, low: int)
    ensures |Pending(v, low)| <= |v|
    ensures |Pending(v, low)| == |v| <==> forall i :: 0 <= i < |v| ==> !Free(v[i], low)
  {
    if v != [] {
      PendingSize(v[1..], low);
      assert forall i :: 1 <= i < |v| ==> v[i] == v[1..][i - 1];
    }
  }
}
