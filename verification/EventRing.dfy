/**
 The queue of pending device events of src/devices.c: a ring of slots that one device tick consumes
 at a time. Inserting an event probes from its target slot; an event that is more urgent (has a
 smaller device number) evicts a less urgent one, which probes on. A slot that holds the least
 urgent device, `low`, is free.

 A ring is looked at here from one of its slots on, as a sequence: index 0 is the slot that the next
 device tick consumes, or the slot an insertion starts at.
 */
module EventRing {

  datatype Event = Event(device: int, arg: int)

  predicate Free(e: Event, low: int) {
    e.device == low
  }

  predicate Bounded(w: seq<Event>, low: int) {
    forall i :: 0 <= i < |w| ==> w[i].device <= low
  }

  predicate HasFree(w: seq<Event>, low: int, k: nat)
    decreases |w| - k
  {
    k < |w| && (Free(w[k], low) || HasFree(w, low, k + 1))
  }

  // Insertion, probing from index k.
  function Place(w: seq<Event>, low: int, k: nat, e: Event): (r: seq<Event>)
    requires Bounded(w, low) && HasFree(w, low, k) && e.device < low
    ensures |r| == |w| && Bounded(r, low)
    decreases |w| - k
  {
    if w[k].device <= e.device then Place(w, low, k + 1, e)
    else if Free(w[k], low) then w[k := e]
    else Place(w, low, k + 1, w[k])[k := e]
  }

  /* ---- What an insertion does, in one look ------------------------------------------------ */

  // The slots that are written, in order.
  function Chain(w: seq<Event>, low: int, k: nat, device: int): (c: seq<nat>)
    requires Bounded(w, low) && HasFree(w, low, k) && device < low
    ensures c != []
    decreases |w| - k
  {
    if w[k].device <= device then Chain(w, low, k + 1, device)
    else if Free(w[k], low) then [k]
    else [k] + Chain(w, low, k + 1, w[k].device)
  }

  function FirstFree(w: seq<Event>, low: int, k: nat): (f: nat)
    requires HasFree(w, low, k)
    ensures k <= f < |w| && Free(w[f], low)
    ensures forall i :: k <= i < f ==> !Free(w[i], low)
    decreases |w| - k
  {
    if Free(w[k], low) then k else FirstFree(w, low, k + 1)
  }

  // The chain goes up in place and down in urgency, one level at least at each link, and ends in
  // the first free slot; its first slot is the first one from k on that gives way to the device.
  ghost predicate IsChain(w: seq<Event>, low: int, k: nat, device: int, c: seq<nat>) {
    && c != []
    && (forall t :: 0 <= t < |c| ==> k <= c[t] < |w|)
    && (forall t :: 0 < t < |c| ==> c[t - 1] < c[t] && w[c[t - 1]].device < w[c[t]].device)
    && device < w[c[0]].device
    && (forall i :: k <= i < c[0] ==> w[i].device <= device)
    && Free(w[c[|c| - 1]], low)
    && (forall i :: k <= i < c[|c| - 1] ==> !Free(w[i], low))
  }

  lemma {:induction false} ChainIsChain(w: seq<Event>, low: int, k: nat, device: int)
    requires Bounded(w, low) && HasFree(w, low, k) && device < low
    ensures
      var c := Chain(w, low, k, device);
      IsChain(w, low, k, device, c) && |c| <= low - device
    decreases |w| - k
  {
    if w[k].device <= device {
      ChainIsChain(w, low, k + 1, device);
      ChainSkip(w, low, k, device, Chain(w, low, k + 1, device));
    } else if !Free(w[k], low) {
      ChainIsChain(w, low, k + 1, w[k].device);
      ChainCons(w, low, k, device, Chain(w, low, k + 1, w[k].device));
    }
  }

  lemma ChainSkip(w: seq<Event>, low: int, k: nat, device: int, c: seq<nat>)
    requires k < |w| && w[k].device <= device < low
    requires IsChain(w, low, k + 1, device, c)
    ensures IsChain(w, low, k, device, c)
  {
  }

  lemma ChainCons(w: seq<Event>, low: int, k: nat, device: int, rest: seq<nat>)
    requires k < |w| && device < w[k].device && !Free(w[k], low)
    requires IsChain(w, low, k + 1, w[k].device, rest)
    ensures IsChain(w, low, k, device, [k] + rest)
  {
    var c := [k] + rest;
    assert c[|c| - 1] == rest[|rest| - 1];
    forall t | 0 < t < |c|
      ensures c[t - 1] < c[t] && w[c[t - 1]].device < w[c[t]].device
    {
      assert c[t] == rest[t - 1];
      if t > 1 {
        assert c[t - 1] == rest[t - 2];
      }
    }
  }

  // The events in some slots, in their order.
  function At(w: seq<Event>, c: seq<nat>): (r: seq<Event>)
    requires forall t :: 0 <= t < |c| ==> c[t] < |w|
    ensures |r| == |c|
  {
    seq(|c|, t requires 0 <= t < |c| && c[t] < |w| => w[c[t]])
  }

  // The events of a chain move one link on: e takes the first slot, every evicted event the next
  // one, and nothing else changes.
  ghost predicate Shifted(w: seq<Event>, r: seq<Event>, c: seq<nat>, e: Event) {
    && |r| == |w| && c != []
    && (forall t :: 0 <= t < |c| ==> c[t] < |w|)
    && At(r, c) == [e] + At(w, c)[..|c| - 1]
    && (forall i :: 0 <= i < |w| && i !in c ==> r[i] == w[i])
  }

  // Inserting e does that along its chain.
  lemma {:induction false} PlaceShifts(w: seq<Event>, low: int, k: nat, e: Event)
    requires Bounded(w, low) && HasFree(w, low, k) && e.device < low
    ensures Shifted(w, Place(w, low, k, e), Chain(w, low, k, e.device), e)
    decreases |w| - k
  {
    if w[k].device <= e.device {
      PlaceShifts(w, low, k + 1, e);
    } else if !Free(w[k], low) {
      PlaceShifts(w, low, k + 1, w[k]);
      ChainIsChain(w, low, k + 1, w[k].device);
      ShiftedCons(w, Place(w, low, k + 1, w[k]), k, Chain(w, low, k + 1, w[k].device), e);
    }
  }

  lemma ShiftedCons(w: seq<Event>, r: seq<Event>, k: nat, rest: seq<nat>, e: Event)
    requires k < |w| && Shifted(w, r, rest, w[k])
    requires forall t :: 0 <= t < |rest| ==> k < rest[t]
    ensures Shifted(w, r[k := e], [k] + rest, e)
  {
    var c := [k] + rest;
    assert At(w, c) == [w[k]] + At(w, rest);
    assert At(r[k := e], c) == [e] + At(r, rest);
    assert forall i :: i !in c ==> i !in rest && i != k;
  }

  lemma ChainBelowLast(w: seq<Event>, low: int, k: nat, device: int, c: seq<nat>)
    requires IsChain(w, low, k, device, c) && HasFree(w, low, k)
    ensures forall t :: 0 <= t < |c| ==> c[t] <= FirstFree(w, low, k)
  {
    Increasing(c, |c| - 1);
  }

  lemma {:induction false} Increasing(c: seq<nat>, u: nat)
    requires u < |c| && (forall t :: 0 < t < |c| ==> c[t - 1] < c[t])
    ensures forall t :: 0 <= t <= u ==> c[t] <= c[u]
  {
    if u > 0 {
      Increasing(c, u - 1);
    }
  }

  /* ---- Conservation ----------------------------------------------------------------------- */

  // The events that wait in the ring.
  function Pending(w: seq<Event>, low: int): multiset<Event> {
    if w == [] then multiset{} else Waiting(w[0], low) + Pending(w[1..], low)
  }

  function Waiting(e: Event, low: int): multiset<Event> {
    if Free(e, low) then multiset{} else multiset{e}
  }

  lemma {:induction false} PendingUpdate(w: seq<Event>, low: int, k: nat, e: Event)
    requires k < |w|
    ensures Pending(w[k := e], low) + Waiting(w[k], low) == Pending(w, low) + Waiting(e, low)
  {
    var u := w[k := e];
    if k == 0 {
      assert u[1..] == w[1..];
    } else {
      assert u[1..] == w[1..][k - 1 := e];
      PendingUpdate(w[1..], low, k - 1, e);
      Swap(Waiting(w[0], low), Pending(u[1..], low), Waiting(w[k], low), Pending(w[1..], low), Waiting(e, low));
    }
  }

  lemma Swap<T>(head: multiset<T>, a: multiset<T>, b: multiset<T>, c: multiset<T>, d: multiset<T>)
    requires a + b == c + d
    ensures (head + a) + b == (head + c) + d
  {
    assert (head + a) + b == head + (a + b);
  }

  // Nothing is lost and nothing is invented: an insertion adds exactly the new event.
  lemma {:induction false} PlaceConserves(w: seq<Event>, low: int, k: nat, e: Event)
    requires Bounded(w, low) && HasFree(w, low, k) && e.device < low
    ensures Pending(Place(w, low, k, e), low) == Pending(w, low) + multiset{e}
    decreases |w| - k
  {
    if w[k].device <= e.device {
      PlaceConserves(w, low, k + 1, e);
    } else if Free(w[k], low) {
      PendingUpdate(w, low, k, e);
    } else {
      var r := Place(w, low, k + 1, w[k]);
      PlaceConserves(w, low, k + 1, w[k]);
      PlaceBelow(w, low, k + 1, w[k]);
      PendingUpdate(r, low, k, e);
      Cancel(Pending(r[k := e], low), Pending(w, low) + multiset{e}, multiset{w[k]});
    }
  }

  lemma Cancel<T>(a: multiset<T>, b: multiset<T>, c: multiset<T>)
    requires a + c == b + c
    ensures a == b
  {
    assert a == (a + c) - c;
    assert b == (b + c) - c;
  }

  lemma {:induction false} PlaceBelow(w: seq<Event>, low: int, k: nat, e: Event)
    requires Bounded(w, low) && HasFree(w, low, k) && e.device < low
    ensures forall i :: 0 <= i < k && i < |w| ==> Place(w, low, k, e)[i] == w[i]
    decreases |w| - k
  {
    if w[k].device <= e.device {
      PlaceBelow(w, low, k + 1, e);
    } else if !Free(w[k], low) {
      PlaceBelow(w, low, k + 1, w[k]);
    }
  }

  function Occupied(w: seq<Event>, low: int): set<nat> {
    set i: nat | i < |w| && !Free(w[i], low)
  }

  // The occupied slots grow by the first free one from k on, as in linear probing.
  lemma {:induction false} PlaceOccupies(w: seq<Event>, low: int, k: nat, e: Event)
    requires Bounded(w, low) && HasFree(w, low, k) && e.device < low
    ensures Occupied(Place(w, low, k, e), low) == Occupied(w, low) + {FirstFree(w, low, k)}
    decreases |w| - k
  {
    if w[k].device <= e.device {
      PlaceOccupies(w, low, k + 1, e);
    } else if !Free(w[k], low) {
      PlaceOccupies(w, low, k + 1, w[k]);
      var r := Place(w, low, k + 1, w[k]);
      assert Occupied(r[k := e], low) == Occupied(r, low) + {k};
    }
  }

  /* ---- Room ------------------------------------------------------------------------------- */

  lemma {:induction false} HasFreeAt(w: seq<Event>, low: int, k: nat, i: nat)
    requires k <= i < |w| && Free(w[i], low)
    ensures HasFree(w, low, k)
    decreases i - k
  {
    if k < i {
      HasFreeAt(w, low, k + 1, i);
    }
  }

  lemma {:induction false} NoneFree(w: seq<Event>, low: int, k: nat)
    requires !HasFree(w, low, k)
    ensures forall i :: k <= i < |w| ==> !Free(w[i], low)
    decreases |w| - k
  {
    if k < |w| {
      NoneFree(w, low, k + 1);
    }
  }

  /* ---- Priorities do not interfere upwards ------------------------------------------------ */

  // The ring as the devices numbered d and below see it: all other slots look free.
  function Filter(w: seq<Event>, low: int, d: int): (r: seq<Event>)
    ensures |r| == |w|
    ensures forall i :: 0 <= i < |w| ==> r[i] == Seen(w[i], low, d)
  {
    seq(|w|, i requires 0 <= i < |w| => Seen(w[i], low, d))
  }

  function Seen(e: Event, low: int, d: int): Event {
    if e.device <= d then e else Event(low, 0)
  }

  lemma {:induction false} FilterHasFree(w: seq<Event>, low: int, d: int, k: nat)
    requires d < low && HasFree(w, low, k)
    ensures Bounded(Filter(w, low, d), low) && HasFree(Filter(w, low, d), low, k)
    decreases |w| - k
  {
    if !Free(w[k], low) {
      FilterHasFree(w, low, d, k + 1);
    }
  }

  // An insertion at level d or below is, to those levels, an insertion into what they see.
  lemma {:induction false} PlaceSeen(w: seq<Event>, low: int, d: int, k: nat, e: Event)
    requires Bounded(w, low) && HasFree(w, low, k) && e.device <= d < low
    ensures HasFree(Filter(w, low, d), low, k)
    ensures Filter(Place(w, low, k, e), low, d) == Place(Filter(w, low, d), low, k, e)
    decreases |w| - k
  {
    FilterHasFree(w, low, d, k);
    if w[k].device <= e.device {
      PlaceSeen(w, low, d, k + 1, e);
    } else if !Free(w[k], low) {
      if w[k].device <= d {
        PlaceSeen(w, low, d, k + 1, w[k]);
      } else {
        PlaceUnseen(w, low, d, k + 1, w[k]);
      }
      assert Filter(Place(w, low, k, e), low, d) == Filter(Place(w, low, k + 1, w[k]), low, d)[k := e];
    }
  }

  // An insertion above level d changes nothing that level d or below can see.
  lemma {:induction false} PlaceUnseen(w: seq<Event>, low: int, d: int, k: nat, e: Event)
    requires Bounded(w, low) && HasFree(w, low, k) && d < e.device < low
    ensures Filter(Place(w, low, k, e), low, d) == Filter(w, low, d)
    decreases |w| - k
  {
    if w[k].device <= e.device {
      PlaceUnseen(w, low, d, k + 1, e);
    } else if !Free(w[k], low) {
      PlaceUnseen(w, low, d, k + 1, w[k]);
    }
  }
}
