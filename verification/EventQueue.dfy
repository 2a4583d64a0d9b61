/**
 The queue as the program keeps it: an array of slots and the index of the slot consumed last, with
 the two nested loops of schedule_int and the alternation of clock and device ticks of dispatch_int.
 */
module EventQueue {
  import opened Collections
  import opened EventRing
  import opened EventRuns

  // The ring from the slot the next device tick consumes; what a free slot still holds is ignored.
  function Ahead(q: seq<Event>, ptr: nat, low: int): (v: seq<Event>)
    requires ptr < |q|
    ensures |v| == |q|
  {
    Filter(Turn(q, ptr + 1), low, low - 1)
  }

  class DeviceQueue {
    // The program's sizes: 256 slots, and the terminal as the least urgent device.
    const slots: array<Event>
    const low: int
    var ptr: nat
    var deviceTick: bool

    ghost predicate Laid()
      reads this, slots
    {
      slots.Length > 0 && ptr < slots.Length && Bounded(slots[..], low)
    }

    ghost function View(): (v: seq<Event>)
      requires Laid()
      reads this, slots
      ensures |v| == slots.Length
    {
      Ahead(slots[..], ptr, low)
    }

    constructor (n: nat, low: int)
      requires n > 0
      ensures Laid() && slots.Length == n && this.low == low && fresh(slots) && !deviceTick
      ensures View() == seq(n, i => Event(low, 0))
    {
      this.low := low;
      slots := new Event[n](i => Event(low, 0));
      ptr := 0;
      deviceTick := false;
      new;
      for i := 0 to n
        invariant ptr == 0 && !deviceTick
        invariant forall k :: 0 <= k < n ==> slots[k] == Event(low, 0)
      {
        slots[i] := Event(low, 0);
      }
    }

    // schedule_int.
    method ScheduleInt(device: int, arg: int, futureTime: int)
      requires Laid() && device < low && HasFree(View(), low, 0)
      modifies slots
      ensures Laid() && View() == Schedule(old(View()), low, futureTime, Event(device, arg))
    {
      var index := IndexAt(futureTime, ptr, slots.Length);
      InsertFrom(index, device, arg, futureTime);
    }

    // schedule_int interrupted by timer signals once it has computed its index: it goes on from that
    // index although the read pointer moves. So it inserts as if it had been called after the device
    // ticks, for so many ticks less.
    method ScheduleInterrupted(device: int, arg: int, futureTime: int, signals: nat) returns (ticks: nat)
      requires Laid() && device < low && HasFree(View(), low, 0)
      modifies this, slots
      ensures ticks == (signals + if old(deviceTick) then 1 else 0) / 2
      ensures Laid() && Roomy(Later(old(View()), low, ticks), low)
      ensures View() == Schedule(Later(old(View()), low, ticks), low, futureTime - ticks, Event(device, arg))
    {
      var index := IndexAt(futureTime, ptr, slots.Length);
      ghost var v := View();
      ticks := Signals(signals, index, futureTime);
      LaterRoomy(v, low, ticks);
      InsertFrom(index, device, arg, futureTime - ticks);
    }

    // A number of timer signals; the slot `index` was met by a request for `time` ticks ahead.
    method Signals(signals: nat, index: nat, ghost time: int) returns (ticks: nat)
      requires Laid() && Aims(slots.Length, ptr, time, index)
      modifies this, slots
      ensures 2 * ticks + (if deviceTick then 1 else 0) == signals + if old(deviceTick) then 1 else 0
      ensures Laid() && View() == Later(old(View()), low, ticks)
      ensures Aims(slots.Length, ptr, time - ticks, index)
    {
      ghost var v := View();
      ticks := 0;
      for i := 0 to signals
        invariant Laid() && View() == Later(v, low, ticks)
        invariant 2 * ticks + (if deviceTick then 1 else 0) == i + if old(deviceTick) then 1 else 0
        invariant Aims(slots.Length, ptr, time - ticks, index)
      {
        var isDevice := Signal(index, time - ticks);
        if isDevice {
          ticks := ticks + 1;
        }
      }
    }

    method Signal(index: nat, ghost time: int) returns (isDevice: bool)
      requires Laid() && Aims(slots.Length, ptr, time, index)
      modifies this, slots
      ensures Laid() && deviceTick == !old(deviceTick) && isDevice == old(deviceTick)
      ensures View() == if isDevice then Dispatch(old(View()), low) else old(View())
      ensures Aims(slots.Length, ptr, if isDevice then time - 1 else time, index)
    {
      MeetsNext(slots.Length, ptr, time, index);
      var e;
      isDevice, e := DispatchInt();
    }

    // The rest of schedule_int, from its index on.
    method InsertFrom(index: nat, device: int, arg: int, ghost time: int)
      requires Laid() && device < low && HasFree(View(), low, 0)
      requires Aims(slots.Length, ptr, time, index)
      modifies slots
      ensures Laid() && View() == Schedule(old(View()), low, time, Event(device, arg))
    {
      ghost var q := slots[..];
      StartFree(q, low, ptr, index);
      Probe(device, arg, index);
      ViewSchedule(q, slots[..], low, ptr, time, index, Event(device, arg));
    }

    // The index of the slot some ticks from now; both the ticks and the index wrap.
    static method IndexAt(ticks: int, ptr: nat, n: nat) returns (index: nat)
      requires ptr < n
      ensures Aims(n, ptr, ticks, index)
    {
      TargetStart(ticks, ptr, n);
      index := (ticks % n + ptr) % n;
    }

    // Its two loops: the outer one swaps, the inner one looks for a slot that gives way.
    method Probe(device: int, arg: int, start: nat)
      requires Laid() && start < slots.Length && device < low && HasFree(Turn(slots[..], start), low, 0)
      modifies slots
      ensures Laid() && Turn(slots[..], start) == Place(Turn(old(slots[..]), start), low, 0, Event(device, arg))
    {
      var n := slots.Length;
      var dev, a, index: nat := device, arg, start;
      ghost var k, result := 0, Place(Turn(slots[..], start), low, 0, Event(device, arg));
      while true
        invariant Probing(slots[..], low, start, k, index, Event(dev, a), result)
        decreases n - k, slots[index].device > dev
      {
        ghost var from := k;
        while slots[index].device <= dev
          invariant from <= k
          invariant Probing(slots[..], low, start, k, index, Event(dev, a), result)
          modifies {}
          decreases n - k
        {
          ProbeOn(slots[..], low, start, k, index, Event(dev, a), result);
          index := Wrap(index + 1, n);
          k := k + 1;
        }
        var victim := slots[index];
        ProbeSwap(slots[..], low, start, k, index, Event(dev, a), result);
        ghost var before := slots[..];
        slots[index] := Event(dev, a);
        assert slots[..] == before[index := Event(dev, a)];
        if victim.device == low {
          break;
        }
        dev, a := victim.device, victim.arg;
      }
    }

    // dispatch_int, up to the device's action: the clock's tick first, then the devices', in turn.
    // A device tick returns the event it consumed.
    method DispatchInt() returns (isDevice: bool, e: Event)
      requires Laid()
      modifies this, slots
      ensures Laid() && deviceTick == !old(deviceTick) && isDevice == old(deviceTick)
      ensures ptr == if isDevice then Wrap(old(ptr) + 1, slots.Length) else old(ptr)
      ensures !isDevice ==> View() == old(View())
      ensures isDevice ==> View() == Dispatch(old(View()), low)
      ensures isDevice ==> Seen(e, low, low - 1) == old(View())[0] && e.device <= low
    {
      deviceTick := !deviceTick;
      if deviceTick {
        return false, Event(low, 0);
      }
      ghost var q, p := slots[..], ptr;
      WrapIndex(p + 1, slots.Length);
      ptr := (ptr + 1) % slots.Length;
      e := slots[ptr];
      slots[ptr] := Event(low, e.arg);
      assert slots[..] == q[ptr := Event(low, e.arg)];
      isDevice := true;
      AheadDispatch(q, p, ptr, low, e.arg);
    }
  }

  /* ---- Indices that wrap ------------------------------------------------------------------ */

  function Wrap(x: nat, n: nat): nat
    requires x < 2 * n
  {
    if x < n then x else x - n
  }

  lemma WrapIndex(x: nat, n: nat)
    requires 0 < n && x < 2 * n
    ensures x % n == Wrap(x, n)
  {
  }

  lemma TurnAt(q: seq<Event>, start: nat, k: nat)
    requires start < |q| && k < |q|
    ensures Turn(q, start)[k] == q[Wrap(start + k, |q|)]
  {
  }

  lemma TurnPut(q: seq<Event>, start: nat, k: nat, e: Event)
    requires start < |q| && k < |q|
    ensures Turn(q[Wrap(start + k, |q|) := e], start) == Turn(q, start)[k := e]
  {
  }

  lemma TurnTwice(q: seq<Event>, a: nat, b: nat)
    requires a <= |q| && b < |q|
    ensures Turn(Turn(q, a), b) == Turn(q, if a + b <= |q| then a + b else a + b - |q|)
  {
  }

  // Between two probes: placing e from the k-th slot after `start` on would give `result`.
  ghost predicate Probing(q: seq<Event>, low: int, start: nat, k: nat, index: nat, e: Event, result: seq<Event>) {
    && start < |q| && k < |q| && index == Wrap(start + k, |q|) && index < |q|
    && Bounded(q, low) && e.device < low
    && HasFree(Turn(q, start), low, k)
    && Place(Turn(q, start), low, k, e) == result
  }

  lemma ProbeOn(q: seq<Event>, low: int, start: nat, k: nat, index: nat, e: Event, result: seq<Event>)
    requires Probing(q, low, start, k, index, e, result) && q[index].device <= e.device
    ensures Probing(q, low, start, k + 1, Wrap(index + 1, |q|), e, result)
  {
    TurnAt(q, start, k);
    assert HasFree(Turn(q, start), low, k + 1);
  }

  lemma ProbeSwap(q: seq<Event>, low: int, start: nat, k: nat, index: nat, e: Event, result: seq<Event>)
    requires Probing(q, low, start, k, index, e, result) && q[index].device > e.device
    ensures Bounded(q[index := e], low)
    ensures
      if q[index].device == low then Turn(q[index := e], start) == result
      else Probing(q[index := e], low, start, k, index, q[index], result)
  {
    TurnAt(q, start, k);
    TurnPut(q, start, k, e);
    if q[index].device != low {
      PlacePut(Turn(q, start), low, k, e, q[index]);
    }
  }

  // An insertion goes on from a slot it has just filled as if it had not been filled yet.
  lemma PlacePut(w: seq<Event>, low: int, k: nat, e: Event, victim: Event)
    requires Bounded(w, low) && HasFree(w, low, k) && k < |w|
    requires e.device < w[k].device && victim == w[k] && victim.device < low
    ensures Bounded(w[k := e], low) && HasFree(w[k := e], low, k)
    ensures Place(w[k := e], low, k, victim) == Place(w, low, k, e)
  {
    PlacePast(w, low, k, e, k + 1, victim);
  }

  lemma {:induction false} PlacePast(w: seq<Event>, low: int, i: nat, x: Event, k: nat, e: Event)
    requires i < k && i < |w| && x.device < low
    requires Bounded(w, low) && HasFree(w, low, k) && e.device < low
    ensures Bounded(w[i := x], low) && HasFree(w[i := x], low, k)
    ensures Place(w[i := x], low, k, e) == Place(w, low, k, e)[i := x]
    decreases |w| - k
  {
    if !Free(w[k], low) {
      PlacePast(w, low, i, x, k + 1, if w[k].device <= e.device then e else w[k]);
    }
  }

  /* ---- A full ring ------------------------------------------------------------------------ */

  // One round of schedule_int's loops: on to the next slot, or a swap. `left` is its exit.
  datatype Probe = Probe(q: seq<Event>, index: nat, e: Event, left: bool)

  function Round(p: Probe, low: int): (r: Probe)
    requires p.index < |p.q|
    ensures r.index < |r.q| == |p.q|
  {
    if p.left then p
    else if p.q[p.index].device <= p.e.device then p.(index := Wrap(p.index + 1, |p.q|))
    else Probe(p.q[p.index := p.e], p.index, p.q[p.index], p.q[p.index].device == low)
  }

  function Rounds(p: Probe, low: int, n: nat): (r: Probe)
    requires p.index < |p.q|
    ensures r.index < |r.q| == |p.q|
    decreases n
  {
    if n == 0 then p else Rounds(Round(p, low), low, n - 1)
  }

  // The free slot an insertion needs is needed indeed: on a full ring it goes round for ever.
  lemma {:induction false} FullRingNeverEnds(p: Probe, low: int, n: nat)
    requires p.index < |p.q| && !p.left && p.e.device < low
    requires forall i :: 0 <= i < |p.q| ==> p.q[i].device < low
    ensures !Rounds(p, low, n).left
    decreases n
  {
    if n > 0 {
      FullRingNeverEnds(Round(p, low), low, n - 1);
    }
  }

  // The slot `start` is the one the read pointer comes to i slots after the next.
  predicate Meets(n: nat, ptr: nat, i: nat, start: nat) {
    ptr < n && i < n && start < n && (start == ptr + 1 + i || start == ptr + 1 + i - n)
  }

  // A request for `time` ticks ahead would start at that slot.
  predicate Aims(n: nat, ptr: nat, time: int, start: nat) {
    n > 0 && Meets(n, ptr, Target(n, time), start)
  }

  lemma {:induction false} TargetStart(time: int, ptr: nat, n: nat)
    requires ptr < n
    ensures Meets(n, ptr, Target(n, time), (time % n + ptr) % n)
  {
    PreviousMod(time, n);
    WrapIndex(time % n + ptr, n);
  }

  // A slot comes one nearer with each device tick.
  lemma {:induction false} MeetsNext(n: nat, ptr: nat, time: int, index: nat)
    requires Aims(n, ptr, time, index)
    ensures Aims(n, Wrap(ptr + 1, n), time - 1, index)
  {
    PreviousMod(time - 1, n);
  }

  lemma {:induction false} PreviousMod(x: int, n: nat)
    requires n > 0
    ensures (x - 1) % n == if x % n == 0 then n - 1 else x % n - 1
  {
    var q, r := x / n, x % n;
    if r == 0 {
      UniqueDivision(x - 1, n, q - 1, n - 1);
    } else {
      UniqueDivision(x - 1, n, q, r - 1);
    }
  }

  // The same slots, seen from `start` and from the read pointer.
  lemma TurnToStart(q: seq<Event>, ptr: nat, i: nat, start: nat)
    requires Meets(|q|, ptr, i, start)
    ensures Turn(Turn(q, ptr + 1), i) == Turn(q, start)
  {
    TurnTwice(q, ptr + 1, i);
    if ptr + 1 + i == |q| {
      TurnWhole(q);
    }
  }

  lemma TurnWhole(q: seq<Event>)
    ensures Turn(q, 0) == q == Turn(q, |q|)
  {
  }

  lemma ViewSchedule(q: seq<Event>, q': seq<Event>, low: int, ptr: nat, time: int, start: nat, e: Event)
    requires |q'| == |q| && Bounded(q, low) && e.device < low
    requires |q| > 0 && Meets(|q|, ptr, Target(|q|, time), start)
    requires Roomy(Ahead(q, ptr, low), low)
    requires Roomy(Turn(q, start), low) && Turn(q', start) == Place(Turn(q, start), low, 0, e)
    ensures Ahead(q', ptr, low) == Schedule(Ahead(q, ptr, low), low, time, e)
  {
    var i := Target(|q|, time);
    TurnToStart(q, ptr, i, start);
    TurnToStart(q', ptr, i, start);
    ViewPlace(Turn(q, ptr + 1), Turn(q', ptr + 1), low, i, e);
  }

  lemma ViewPlace(w: seq<Event>, w': seq<Event>, low: int, i: nat, e: Event)
    requires i < |w| == |w'| && e.device < low && Roomy(Turn(w, i), low)
    requires Turn(w', i) == Place(Turn(w, i), low, 0, e)
    ensures
      var v := Filter(w, low, low - 1);
      Roomy(Turn(v, i), low) && Filter(w', low, low - 1) == Turn(Place(Turn(v, i), low, 0, e), |v| - i)
  {
    FilterTurn(w, low, low - 1, i);
    FilterTurn(w', low, low - 1, i);
    PlaceSeen(Turn(w, i), low, low - 1, 0, e);
    TurnBack(Filter(w', low, low - 1), i);
  }

  lemma AheadDispatch(q: seq<Event>, p: nat, ptr: nat, low: int, arg: int)
    requires p < |q| && ptr == Wrap(p + 1, |q|)
    ensures Seen(q[ptr], low, low - 1) == Ahead(q, p, low)[0]
    ensures Ahead(q[ptr := Event(low, arg)], ptr, low) == Dispatch(Ahead(q, p, low), low)
  {
  }

  lemma StartFree(q: seq<Event>, low: int, ptr: nat, start: nat)
    requires Bounded(q, low) && ptr < |q| && start < |q|
    requires HasFree(Ahead(q, ptr, low), low, 0)
    ensures HasFree(Turn(q, start), low, 0)
  {
    var v := Ahead(q, ptr, low);
    var f := FirstFree(v, low, 0);
    var i := if ptr + 1 + f < |q| then ptr + 1 + f else ptr + 1 + f - |q|;
    assert Turn(q, ptr + 1)[f] == q[i];
    var j := if i < start then i + |q| - start else i - start;
    assert Turn(q, start)[j] == q[i];
    HasFreeAt(Turn(q, start), low, 0, j);
  }
}
