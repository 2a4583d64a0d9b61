/**
 An insertion and device ticks step by step. Nothing keeps the timer signal out of schedule_int when
 interrupts are on, so a device tick may come between any two of its steps, also between reading a
 slot and writing it, or between the two stores of a swap. Which of those ticks do harm is exact.
 */
module TornInsertion {
  import opened EventRing
  import opened EventQueue

  // Where an insertion is: before its next comparison; holding what it read from a slot that gives
  // way; with the device stored there and the argument not yet; or done.
  datatype Stage = Looking | Holding(victim: Event) | HalfStored(victim: Event) | Done

  // The slots and the read pointer, the insertion's index, and the event it is to place.
  datatype State = State(q: seq<Event>, ptr: nat, index: nat, e: Event, stage: Stage)

  predicate Valid(s: State, low: int) {
    && s.ptr < |s.q| && s.index < |s.q| && Bounded(s.q, low) && s.e.device < low
    && (s.stage.Holding? ==> s.e.device < s.stage.victim.device <= low)
    && (s.stage.HalfStored? ==> s.e.device < s.stage.victim.device <= low)
  }

  // The next step of the insertion.
  function Go(s: State, low: int): (r: State)
    requires Valid(s, low)
    ensures Valid(r, low)
  {
    var at := s.q[s.index];
    match s.stage
    case Looking =>
      if at.device <= s.e.device then s.(index := Wrap(s.index + 1, |s.q|)) else s.(stage := Holding(at))
    case Holding(victim) =>
      s.(q := s.q[s.index := Event(s.e.device, at.arg)], stage := HalfStored(victim))
    case HalfStored(victim) =>
      var r := s.(q := s.q[s.index := Event(at.device, s.e.arg)]);
      if victim.device == low then r.(stage := Done) else r.(e := victim, stage := Looking)
    case Done => s
  }

  // A device tick, and the event it consumes.
  function Tick(s: State, low: int): (r: (State, Event))
    requires Valid(s, low)
    ensures Valid(r.0, low)
  {
    var p := Wrap(s.ptr + 1, |s.q|);
    (s.(ptr := p, q := s.q[p := Event(low, s.q[p].arg)]), s.q[p])
  }

  // Without ticks, the steps of one round of the loops are one round.
  lemma GoIsRound(s: State, low: int)
    requires Valid(s, low) && s.stage.Looking?
    ensures
      var r := Round(Probe(s.q, s.index, s.e, false), low);
      if s.q[s.index].device <= s.e.device then Go(s, low) == s.(index := r.index)
      else
        var t := Go(Go(Go(s, low), low), low);
        t.q == r.q && t.index == r.index && (if r.left then t.stage.Done? else t.stage.Looking? && t.e == r.e)
  {
  }

  /* ---- Conservation ----------------------------------------------------------------------- */

  // The events that wait, with the one in hand, once the swap under way is completed.
  function Held(s: State, low: int): multiset<Event>
    requires Valid(s, low)
  {
    var at := s.q[s.index];
    match s.stage
    case Looking => Pending(s.q, low) + multiset{s.e}
    case Holding(victim) => Pending(s.q[s.index := s.e], low) + Waiting(victim, low)
    case HalfStored(victim) => Pending(s.q[s.index := Event(at.device, s.e.arg)], low) + Waiting(victim, low)
    case Done => Pending(s.q, low)
  }

  lemma GoConserves(s: State, low: int)
    requires Valid(s, low)
    ensures Held(Go(s, low), low) == Held(s, low)
  {
    match s.stage
    case Looking =>
      if s.q[s.index].device > s.e.device { PendingUpdate(s.q, low, s.index, s.e); }
    case Holding(victim) =>
      var half := Go(s, low);
      assert half.q[s.index := s.e] == s.q[s.index := s.e];
    case HalfStored(victim) =>
    case Done =>
  }

  // A tick does harm when it consumes the very slot of a swap under way: an event that is in hand
  // already is delivered twice, and a half-stored one is delivered with the argument of another.
  predicate Harmful(s: State, low: int)
    requires Valid(s, low)
  {
    var at := s.q[s.index];
    && s.index == Wrap(s.ptr + 1, |s.q|) && !Free(at, low)
    && (s.stage.Holding? || (s.stage.HalfStored? && at.arg != s.e.arg))
  }

  // Exactly then the events are not conserved.
  lemma TickConserves(s: State, low: int)
    requires Valid(s, low)
    ensures
      var r := Tick(s, low);
      Held(r.0, low) + Waiting(r.1, low) == Held(s, low) <==> !Harmful(s, low)
  {
    if s.index != Wrap(s.ptr + 1, |s.q|) || s.stage.Looking? || s.stage.Done? {
      ApartConserves(s, low);
    } else if s.stage.Holding? {
      HoldingHit(s, low);
    } else {
      HalfStoredHit(s, low);
    }
  }

  lemma HoldingHit(s: State, low: int)
    requires Valid(s, low) && s.index == Wrap(s.ptr + 1, |s.q|) && s.stage.Holding?
    ensures
      var r := Tick(s, low);
      Held(r.0, low) + Waiting(r.1, low) == Held(s, low) <==> Free(s.q[s.index], low)
  {
    var at := s.q[s.index];
    assert s.q[s.index := Event(low, at.arg)][s.index := s.e] == s.q[s.index := s.e];
    Same(Held(s, low), Waiting(at, low));
  }

  lemma HalfStoredHit(s: State, low: int)
    requires Valid(s, low) && s.index == Wrap(s.ptr + 1, |s.q|) && s.stage.HalfStored?
    ensures
      var r, at := Tick(s, low), s.q[s.index];
      Held(r.0, low) + Waiting(r.1, low) == Held(s, low) <==> Free(at, low) || at.arg == s.e.arg
  {
    var at := s.q[s.index];
    var stored, gone := Event(at.device, s.e.arg), Event(low, s.e.arg);
    assert s.q[s.index := Event(low, at.arg)][s.index := gone] == s.q[s.index := gone];
    assert s.q[s.index := stored][s.index := gone] == s.q[s.index := gone];
    PendingUpdate(s.q[s.index := stored], low, s.index, gone);
    Exchange(Pending(s.q[s.index := gone], low), Waiting(s.stage.victim, low),
             Waiting(stored, low), Waiting(at, low), Pending(s.q[s.index := stored], low));
    Alike(stored, at, low);
  }

  lemma Alike(a: Event, b: Event, low: int)
    requires a.device == b.device
    ensures Waiting(a, low) == Waiting(b, low) <==> Free(a, low) || a == b
  {
    if !Free(a, low) {
      assert Waiting(a, low)[a] == 1;
    }
  }

  // A tick elsewhere, or while no swap is under way.
  lemma ApartConserves(s: State, low: int)
    requires Valid(s, low)
    requires Wrap(s.ptr + 1, |s.q|) != s.index || s.stage.Looking? || s.stage.Done?
    ensures Held(Tick(s, low).0, low) + Waiting(Tick(s, low).1, low) == Held(s, low)
  {
    var p := Wrap(s.ptr + 1, |s.q|);
    var freed := s.q[p := Event(low, s.q[p].arg)];
    assert Tick(s, low) == (s.(ptr := p, q := freed), s.q[p]);
    match s.stage
    case Looking =>
      FreedSlot(s.q, low, p);
      Shift(Pending(freed, low), Waiting(s.q[p], low), Pending(s.q, low), multiset{s.e});
    case Done => FreedSlot(s.q, low, p);
    case Holding(victim) =>
      ApartSwap(s.q, low, p, s.index, s.e, Waiting(victim, low));
    case HalfStored(victim) =>
      ApartSwap(s.q, low, p, s.index, Event(s.q[s.index].device, s.e.arg), Waiting(victim, low));
  }

  lemma ApartSwap(q: seq<Event>, low: int, p: nat, k: nat, x: Event, hand: multiset<Event>)
    requires p < |q| && k < |q| && p != k
    ensures (Pending(q[p := Event(low, q[p].arg)][k := x], low) + hand) + Waiting(q[p], low)
         == Pending(q[k := x], low) + hand
  {
    FreedApart(q, low, p, k, x);
    Shift(Pending(q[p := Event(low, q[p].arg)][k := x], low), Waiting(q[p], low), Pending(q[k := x], low), hand);
  }

  lemma Shift<T>(less: multiset<T>, part: multiset<T>, all: multiset<T>, hand: multiset<T>)
    requires less + part == all
    ensures (less + hand) + part == all + hand
  {
  }

  lemma FreedSlot(q: seq<Event>, low: int, p: nat)
    requires p < |q|
    ensures Pending(q[p := Event(low, q[p].arg)], low) + Waiting(q[p], low) == Pending(q, low)
  {
    PendingUpdate(q, low, p, Event(low, q[p].arg));
  }

  lemma FreedApart(q: seq<Event>, low: int, p: nat, k: nat, x: Event)
    requires p < |q| && k < |q| && p != k
    ensures Pending(q[p := Event(low, q[p].arg)][k := x], low) + Waiting(q[p], low) == Pending(q[k := x], low)
  {
    FreedSlot(q[k := x], low, p);
    assert q[p := Event(low, q[p].arg)][k := x] == q[k := x][p := Event(low, q[p].arg)];
  }

  lemma Same<T>(a: multiset<T>, w: multiset<T>)
    ensures a + w == a <==> w == multiset{}
  {
    assert |a + w| == |a| + |w|;
  }

  lemma Exchange<T>(rest: multiset<T>, v: multiset<T>, stored: multiset<T>, consumed: multiset<T>, all: multiset<T>)
    requires rest + stored == all
    ensures (rest + v) + consumed == all + v <==> consumed == stored
  {
    assert all + v == stored + (rest + v);
    assert (rest + v) + consumed == consumed + (rest + v);
    if (rest + v) + consumed == all + v {
      Cancel(consumed, stored, rest + v);
    }
  }

  /* ---- Whole insertions ------------------------------------------------------------------- */

  datatype Act = Step | Signal

  // The insertion's steps and the device ticks, in any order; and what the ticks consume.
  function Run(s: State, low: int, acts: seq<Act>): (r: (State, multiset<Event>))
    requires Valid(s, low)
    ensures Valid(r.0, low)
    decreases |acts|
  {
    if acts == [] then (s, multiset{})
    else if acts[0].Step? then Run(Go(s, low), low, acts[1..])
    else
      var t := Tick(s, low);
      var r := Run(t.0, low, acts[1..]);
      (r.0, Waiting(t.1, low) + r.1)
  }

  predicate Harmless(s: State, low: int, acts: seq<Act>)
    requires Valid(s, low)
    decreases |acts|
  {
    acts == [] ||
    if acts[0].Step? then Harmless(Go(s, low), low, acts[1..])
    else !Harmful(s, low) && Harmless(Tick(s, low).0, low, acts[1..])
  }

  // An insertion with device ticks anywhere in it, but none that does harm, loses no event, repeats
  // none and changes none.
  lemma {:induction false} InterruptedConserves(s: State, low: int, acts: seq<Act>)
    requires Valid(s, low) && Harmless(s, low, acts)
    ensures
      var r := Run(s, low, acts);
      Held(r.0, low) + r.1 == Held(s, low)
    decreases |acts|
  {
    if acts != [] {
      if acts[0].Step? {
        GoConserves(s, low);
        InterruptedConserves(Go(s, low), low, acts[1..]);
      } else {
        TickConserves(s, low);
        InterruptedConserves(Tick(s, low).0, low, acts[1..]);
      }
    }
  }

  // What the harm is between the stores: the event delivered has the old argument of the slot, and
  // the one asked for is gone.
  lemma WrongArgument(s: State, low: int)
    requires Valid(s, low) && s.stage.Holding? && Free(s.stage.victim, low)
    requires s.index == Wrap(s.ptr + 1, |s.q|) && s.q[s.index] == s.stage.victim
    ensures
      var t := Tick(Go(s, low), low);
      var r := Go(t.0, low);
      && t.1 == Event(s.e.device, s.stage.victim.arg)
      && r.stage.Done? && Pending(r.q, low) == Pending(s.q, low)
  {
    var half := Go(s, low);
    assert half.q[s.index] == Event(s.e.device, s.stage.victim.arg) && half.stage.HalfStored?;
    var t := Tick(half, low).0;
    assert t.q[s.index].device == low && t.index == s.index && t.stage == half.stage;
    var gone := Event(low, s.e.arg);
    assert Go(t, low).q == s.q[s.index := gone];
    PendingUpdate(s.q, low, s.index, gone);
    Cancel(Pending(s.q[s.index := gone], low), Pending(s.q, low), Waiting(gone, low));
  }

  // And before them: an event the insertion holds and will place again is delivered.
  lemma DeliveredTwice(s: State, low: int)
    requires Valid(s, low) && s.stage.Holding? && !Free(s.stage.victim, low)
    requires s.index == Wrap(s.ptr + 1, |s.q|) && s.q[s.index] == s.stage.victim
    ensures
      var t := Tick(s, low);
      var r := Go(Go(t.0, low), low);
      t.1 == s.stage.victim && r.stage.Looking? && r.e == s.stage.victim
  {
  }
}
