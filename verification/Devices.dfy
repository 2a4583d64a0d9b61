/**
 The devices together: the alarm, two disk units and four terminals, fed by one event ring, and the
 timer ticks that alternate between the clock and the ring.
 */
module Devices {
  import opened Collections
  import opened EventRing
  import opened EventRuns
  import D = Disk
  import T = Terminal

  const ALARM := 1
  const DISK := 2
  const LOW := 3
  const DISK_UNITS := 2

  datatype Sys = Sys(ring: seq<Event>, deviceTick: bool, armed: bool, disks: seq<D.Unit>, terms: T.Terms)

  // A timer tick brings the contents of the disk's buffer and what the terminal's input has.
  datatype Op =
    | AlarmRequest(unit: int, time: int)
    | AlarmStatus(unit: int)
    | DiskRequest(unit: int, req: D.Request)
    | DiskStatus(unit: int)
    | TermRequest(unit: int, control: bv32)
    | TermStatus(unit: int)
    | TimerTick(buffer: D.Sector, input: T.Incoming)

  datatype Obs =
    | Code(code: int)
    | Status(code: int, status: int)
    | TermAnswer(answer: T.Obs)
    | ClockInt
    | AlarmInt
    | DiskInt(unit: int, req: D.Request, effect: D.Effect)
    | TermPoll(raised: T.Obs)
    | Stopped
    | IllegalDevice
    | Diverges
  {
    // Nothing is observed after these.
    predicate Final() {
      Stopped? || IllegalDevice? || Diverges?
    }
  }

  predicate Laid(s: Sys) {
    && s.ring != [] && Bounded(s.ring, LOW)
    && |s.disks| == DISK_UNITS
    && T.Laid(s.terms)
  }

  predicate DiskUnit(unit: int) {
    0 <= unit < DISK_UNITS
  }

  const ALARM_EVENT := Event(ALARM, 0)

  function DiskEvent(unit: int): Event {
    Event(DISK, unit)
  }

  /* ---- One step --------------------------------------------------------------------------- */

  ghost function Step(s: Sys, op: Op): (r: (Sys, Obs))
    requires Laid(s)
    ensures Laid(r.0) && |r.0.ring| == |s.ring|
  {
    match op
    case AlarmRequest(unit, time) => AskAlarm(s, unit, time)
    case AlarmStatus(unit) =>
      if unit != 0 then (s, Code(D.DEV_INVALID))
      else (s, Status(D.DEV_OK, if s.armed then D.DEV_BUSY else D.DEV_READY))
    case DiskRequest(unit, req) => AskDisk(s, unit, req)
    case DiskStatus(unit) =>
      if !DiskUnit(unit) then (s, Code(D.DEV_INVALID))
      else var r := D.GetStatus(s.disks[unit]); (s.(disks := s.disks[unit := r.0]), Status(r.1, r.2))
    case TermRequest(unit, control) =>
      var r := T.Step(s.terms, T.Control(unit, control)); (s.(terms := r.0), TermAnswer(r.1))
    case TermStatus(unit) => var r := T.Step(s.terms, T.GetStatus(unit)); (s.(terms := r.0), TermAnswer(r.1))
    case TimerTick(buffer, input) =>
      if !s.deviceTick then (s.(deviceTick := true), ClockInt)
      else Dispatched(s.(deviceTick := false), buffer, input)
  }

  ghost function AskAlarm(s: Sys, unit: int, time: int): (r: (Sys, Obs))
    requires Laid(s)
    ensures Laid(r.0) && |r.0.ring| == |s.ring|
  {
    if unit != 0 then (s, Code(D.DEV_INVALID))
    else if !HasFree(s.ring, LOW, 0) then (s, Diverges)
    else (s.(armed := true, ring := Schedule(s.ring, LOW, time, ALARM_EVENT)), Code(D.DEV_OK))
  }

  ghost function AskDisk(s: Sys, unit: int, req: D.Request): (r: (Sys, Obs))
    requires Laid(s)
    ensures Laid(r.0) && |r.0.ring| == |s.ring|
  {
    if !DiskUnit(unit) then (s, Code(D.DEV_INVALID))
    else
      var r := D.Submit(s.disks[unit], req);
      match r.1
      case Refused(code) => (s, Code(code))
      case Accepted(delay) =>
        if !HasFree(s.ring, LOW, 0) then (s, Diverges)
        else
          (s.(disks := s.disks[unit := r.0], ring := Schedule(s.ring, LOW, delay, DiskEvent(unit))), Code(D.DEV_OK))
  }

  function Dispatched(s: Sys, buffer: D.Sector, input: T.Incoming): (r: (Sys, Obs))
    requires Laid(s)
    ensures Laid(r.0) && |r.0.ring| == |s.ring|
  {
    var e, s1 := s.ring[0], s.(ring := Dispatch(s.ring, LOW));
    if e.device == ALARM then (s1.(armed := false), AlarmInt)
    else if e.device == DISK then if DiskUnit(e.arg) then PerformDisk(s1, e.arg, buffer) else (s1, IllegalDevice)
    else if e.device == LOW then PollTerminal(s1, input)
    else (s1, IllegalDevice)
  }

  function PerformDisk(s: Sys, u: nat, buffer: D.Sector): (r: (Sys, Obs))
    requires Laid(s) && DiskUnit(u)
    ensures Laid(r.0) && |r.0.ring| == |s.ring|
  {
    match D.Complete(s.disks[u], buffer)
    case Completed(d, effect) => (s.(disks := s.disks[u := d]), DiskInt(u, s.disks[u].request, effect))
    case Stopped => (s, Stopped)
  }

  function PollTerminal(s: Sys, input: T.Incoming): (r: (Sys, Obs))
    requires Laid(s)
    ensures Laid(r.0) && r.1.TermPoll? && r.0 == s.(terms := r.0.terms)
  {
    var r := T.Step(s.terms, T.Tick(input));
    (s.(terms := r.0), TermPoll(r.1))
  }

  ghost function Run(s: Sys, ops: seq<Op>): (r: (Sys, seq<Obs>))
    requires Laid(s)
    ensures Laid(r.0) && |r.1| <= |ops|
    decreases |ops|
  {
    if ops == [] then (s, [])
    else
      var one := Step(s, ops[0]);
      if one.1.Final() then (one.0, [one.1])
      else
        var rest := Run(one.0, ops[1..]);
        (rest.0, [one.1] + rest.1)
  }

  // A run by its first step, with the requests that were answered.
  lemma RunFirst(s: Sys, ops: seq<Op>)
    requires Laid(s) && ops != []
    ensures
      var one, r := Step(s, ops[0]), Run(s, ops);
      && r.1 != [] && r.1[0] == one.1 && ops[..|r.1|][0] == ops[0]
      && if one.1.Final() then r.0 == one.0 && r.1[1..] == [] && ops[..|r.1|][1..] == []
         else
           var rest := Run(one.0, ops[1..]);
           r.0 == rest.0 && r.1[1..] == rest.1 && ops[..|r.1|][1..] == ops[1..][..|rest.1|]
  {
    var one, r := Step(s, ops[0]), Run(s, ops);
    if !one.1.Final() {
      var rest := Run(one.0, ops[1..]);
      assert ([one.1] + rest.1)[1..] == rest.1;
      assert ops[..|r.1|][1..] == ops[1..][..|rest.1|];
    }
  }

  function Initial(n: nat, disks: seq<D.Unit>): Sys {
    Sys(seq(n, i => Event(LOW, 0)), false, false, disks, T.INITIAL)
  }

  /* ---- What the ring owes ----------------------------------------------------------------- */

  predicate Busy(d: D.Unit) {
    d.status == D.DEV_BUSY
  }

  function Owed(d: D.Unit): nat {
    if Busy(d) then 1 else 0
  }

  function Alarms(s: Sys): nat {
    Pending(s.ring, LOW)[ALARM_EVENT]
  }

  // The ring holds one event for each busy disk unit, none for the others, and alarms: nothing else.
  predicate Accounts(p: multiset<Event>, disks: seq<D.Unit>)
    requires |disks| == DISK_UNITS
  {
    && p[DiskEvent(0)] == Owed(disks[0])
    && p[DiskEvent(1)] == Owed(disks[1])
    && (forall e :: e in p ==> e == ALARM_EVENT || e == DiskEvent(0) || e == DiskEvent(1))
    && (forall u :: 0 <= u < DISK_UNITS ==> (Busy(disks[u]) ==> disks[u].present))
  }

  predicate Sound(s: Sys) {
    Laid(s) && Accounts(Pending(s.ring, LOW), s.disks)
  }

  // A request that is put into the ring: for an alarm, or for a disk that is there and idle.
  predicate Inserts(s: Sys, op: Op)
    requires Laid(s)
  {
    match op
    case AlarmRequest(unit, _) => unit == 0
    case DiskRequest(unit, _) => DiskUnit(unit) && s.disks[unit].present && !Busy(s.disks[unit])
    case _ => false
  }

  // The alarms outstanding and the busy disks fill the ring.
  predicate RingFull(s: Sys)
    requires Laid(s)
  {
    Alarms(s) + Owed(s.disks[0]) + Owed(s.disks[1]) == |s.ring|
  }

  lemma ThreeKinds<X>(p: multiset<X>, a: X, b: X, c: X)
    requires a != b && b != c && a != c
    requires forall x :: x in p ==> x == a || x == b || x == c
    ensures |p| == p[a] + p[b] + p[c]
  {
    var p1 := p[a := 0];
    var p2 := p1[b := 0];
    var p3 := p2[c := 0];
    assert p3 == multiset{};
    assert |p1| == |p| - p[a] && |p2| == |p1| - p1[b] && |p3| == |p2| - p2[c];
  }

  lemma FullExactly(s: Sys)
    requires Sound(s)
    ensures HasFree(s.ring, LOW, 0) <==> !RingFull(s)
    ensures |Pending(s.ring, LOW)| == Alarms(s) + Owed(s.disks[0]) + Owed(s.disks[1]) <= |s.ring|
  {
    ThreeKinds(Pending(s.ring, LOW), ALARM_EVENT, DiskEvent(0), DiskEvent(1));
    RoomIffFew(s.ring, LOW);
    PendingSize(s.ring, LOW);
  }

  lemma AlarmSound(s: Sys, time: int)
    requires Sound(s) && HasFree(s.ring, LOW, 0)
    ensures Sound(s.(armed := true, ring := Schedule(s.ring, LOW, time, ALARM_EVENT)))
  {
    ScheduleConserves(s.ring, LOW, time, ALARM_EVENT);
  }

  lemma AcceptSound(s: Sys, u: nat, d: D.Unit, delay: int)
    requires Sound(s) && HasFree(s.ring, LOW, 0)
    requires DiskUnit(u) && !Busy(s.disks[u]) && Busy(d) && d.present
    ensures Sound(s.(disks := s.disks[u := d], ring := Schedule(s.ring, LOW, delay, DiskEvent(u))))
  {
    ScheduleConserves(s.ring, LOW, delay, DiskEvent(u));
    OneMoreOwed(Pending(s.ring, LOW), s.disks, u, d);
  }

  lemma OneMoreOwed(p: multiset<Event>, disks: seq<D.Unit>, u: nat, d: D.Unit)
    requires |disks| == DISK_UNITS && Accounts(p, disks)
    requires DiskUnit(u) && !Busy(disks[u]) && Busy(d) && d.present
    ensures Accounts(p + multiset{DiskEvent(u)}, disks[u := d])
  {
  }

  // The next event of the ring: none, an alarm, or that of a disk unit that is busy.
  lemma NextKind(s: Sys)
    requires Sound(s)
    ensures
      var e := s.ring[0];
      Free(e, LOW) || e == ALARM_EVENT || (0 <= e.arg < DISK_UNITS && e == DiskEvent(e.arg) && Busy(s.disks[e.arg]))
  {
    var e := s.ring[0];
    if !Free(e, LOW) {
      assert e in Pending(s.ring, LOW);
    }
  }

  lemma NextGone(s: Sys)
    requires Sound(s)
    ensures
      var e, p, q := s.ring[0], Pending(s.ring, LOW), Pending(Dispatch(s.ring, LOW), LOW);
      && (Free(e, LOW) ==> q == p)
      && (!Free(e, LOW) ==> q[e] == p[e] - 1 && q <= p && (forall x :: x != e ==> q[x] == p[x]))
  {
    DispatchConserves(s.ring, LOW);
  }

  lemma DeliverSound(s: Sys, u: nat, d: D.Unit)
    requires Sound(s) && DiskUnit(u) && s.ring[0] == DiskEvent(u) && !Busy(d)
    ensures Sound(s.(ring := Dispatch(s.ring, LOW), disks := s.disks[u := d]))
  {
    NextGone(s);
  }

  lemma SameSound(s: Sys, r: Sys)
    requires Sound(s) && Laid(r) && r.ring == s.ring && r.disks == s.disks
    ensures Sound(r)
  {
  }

  lemma OtherSound(s: Sys)
    requires Sound(s) && s.ring[0].device != DISK
    ensures Sound(s.(ring := Dispatch(s.ring, LOW)))
  {
    NextKind(s);
    NextGone(s);
  }

  // A request diverges exactly when it is to be inserted and the ring is full.
  lemma AlarmAnswered(s: Sys, unit: int, time: int)
    requires Sound(s)
    ensures
      var r := AskAlarm(s, unit, time);
      Sound(r.0) && if unit == 0 && RingFull(s) then r.1.Diverges? else !r.1.Final()
  {
    FullExactly(s);
    if unit == 0 && !RingFull(s) {
      AlarmSound(s, time);
    }
  }

  lemma DiskAnswered(s: Sys, unit: int, req: D.Request)
    requires Sound(s)
    ensures
      var r := AskDisk(s, unit, req);
      Sound(r.0) && if Inserts(s, DiskRequest(unit, req)) && RingFull(s) then r.1.Diverges? else !r.1.Final()
  {
    FullExactly(s);
    if DiskUnit(unit) {
      var r := D.Submit(s.disks[unit], req);
      match r.1
      case Refused(code) => assert AskDisk(s, unit, req) == (s, Code(code));
      case Accepted(delay) =>
        if RingFull(s) {
          assert AskDisk(s, unit, req) == (s, Diverges);
        } else {
          AcceptSound(s, unit, r.0, delay);
        }
    }
  }

  lemma TickSound(s: Sys, buffer: D.Sector, input: T.Incoming)
    requires Sound(s)
    ensures
      var r := Dispatched(s, buffer, input);
      !r.1.Stopped? ==> Sound(r.0) && !r.1.Final()
  {
    NextKind(s);
    if s.ring[0].device == DISK {
      DiskTick(s, s.ring[0].arg, buffer);
    } else {
      OtherSound(s);
      SameSound(s.(ring := Dispatch(s.ring, LOW)), Dispatched(s, buffer, input).0);
    }
  }

  // The unit whose event comes next performs the request it is busy with, and is busy no more.
  lemma DiskTick(s: Sys, u: nat, buffer: D.Sector)
    requires Sound(s) && DiskUnit(u) && s.ring[0] == DiskEvent(u)
    ensures
      var r := PerformDisk(s.(ring := Dispatch(s.ring, LOW)), u, buffer);
      !r.1.Stopped? ==>
        && Sound(r.0)
        && r.1.DiskInt? && r.1.unit == u && r.1.req == s.disks[u].request
        && Busy(s.disks[u]) && !Busy(r.0.disks[u])
        && r.0.disks == s.disks[u := r.0.disks[u]]
  {
    NextKind(s);
    var c := D.Complete(s.disks[u], buffer);
    if c.Completed? { DeliverSound(s, u, c.d); }
  }

  // Whatever is asked of the devices: every busy disk has exactly one event in the ring and no other
  // disk has any, the ring never holds an event dispatch_int has no case for, and an insertion fails
  // to find a slot exactly when the alarms outstanding and the busy disks fill the ring.
  lemma StepSound(s: Sys, op: Op)
    requires Sound(s)
    ensures
      var r := Step(s, op);
      && !r.1.IllegalDevice?
      && (r.1.Diverges? <==> Inserts(s, op) && RingFull(s))
      && (!r.1.Stopped? ==> Sound(r.0))
  {
    match op
    case AlarmRequest(unit, time) => AlarmAnswered(s, unit, time);
    case DiskRequest(unit, req) => DiskAnswered(s, unit, req);
    case TimerTick(buffer, input) =>
      if s.deviceTick { TickSound(s.(deviceTick := false), buffer, input); }
    case _ =>
  }

  lemma InitialSound(n: nat, disks: seq<D.Unit>)
    requires n > 0 && |disks| == DISK_UNITS
    requires forall d <- disks :: !Busy(d)
    ensures Sound(Initial(n, disks)) && Alarms(Initial(n, disks)) == 0
  {
    EmptyPending(n);
  }

  lemma {:induction false} EmptyPending(n: nat)
    ensures Pending(seq(n, i => Event(LOW, 0)), LOW) == multiset{}
  {
    if n > 0 {
      EmptyPending(n - 1);
      assert seq(n, i => Event(LOW, 0))[1..] == seq(n - 1, i => Event(LOW, 0));
    }
  }

  /* ---- Each accepted request is performed once -------------------------------------------- */

  function Accepted(u: int, ops: seq<Op>, obs: seq<Obs>): seq<D.Request>
    requires |obs| == |ops|
    decreases |ops|
  {
    if ops == [] then []
    else AcceptedNow(u, ops[0], obs[0]) + Accepted(u, ops[1..], obs[1..])
  }

  function Performed(u: int, obs: seq<Obs>): seq<D.Request>
    decreases |obs|
  {
    if obs == [] then []
    else PerformedNow(u, obs[0]) + Performed(u, obs[1..])
  }

  function InFlight(d: D.Unit): seq<D.Request> {
    if Busy(d) then [d.request] else []
  }

  predicate Finished(ops: seq<Op>, obs: seq<Obs>) {
    |obs| == |ops| && (forall o <- obs :: !o.Final())
  }

  // What one step accepts from and performs for unit u.
  function AcceptedNow(u: int, op: Op, o: Obs): seq<D.Request> {
    if op.DiskRequest? && op.unit == u && o == Code(D.DEV_OK) then [op.req] else []
  }

  function PerformedNow(u: int, o: Obs): seq<D.Request> {
    if o.DiskInt? && o.unit == u then [o.req] else []
  }

  lemma StepAccounts(s: Sys, op: Op, u: nat)
    requires Sound(s) && DiskUnit(u)
    ensures Balanced(s, op, u)
  {
    match op
    case TimerTick(buffer, input) => TickAccounts(s, buffer, input, u);
    case TermRequest(_, _) =>
    case TermStatus(_) =>
    case _ => DiskOpAccounts(s, op, u);
  }

  ghost predicate Balanced(s: Sys, op: Op, u: nat)
    requires Laid(s) && DiskUnit(u)
  {
    var r := Step(s, op);
    InFlight(s.disks[u]) + AcceptedNow(u, op, r.1) == PerformedNow(u, r.1) + InFlight(r.0.disks[u])
  }

  lemma DiskOpAccounts(s: Sys, op: Op, u: nat)
    requires Sound(s) && DiskUnit(u)
    requires op.AlarmRequest? || op.AlarmStatus? || op.DiskRequest? || op.DiskStatus?
    ensures Balanced(s, op, u)
  {
  }

  lemma TickAccounts(s: Sys, buffer: D.Sector, input: T.Incoming, u: nat)
    requires Sound(s) && DiskUnit(u)
    ensures Balanced(s, TimerTick(buffer, input), u)
  {
    var s1 := s.(deviceTick := false);
    if s.deviceTick {
      NextKind(s1);
      if s.ring[0].device == DISK {
        DiskTick(s1, s.ring[0].arg, buffer);
      }
    }
  }

  // Over every run the requests a unit accepted are, in order, those it performed, followed by the
  // one it is busy with: none is lost, none is performed twice and none is overwritten before. And no
  // illegal event comes up.
  lemma {:induction false} DiskAccounting(s: Sys, ops: seq<Op>, u: nat)
    requires Sound(s) && DiskUnit(u)
    ensures
      var r := Run(s, ops);
      && (forall o <- r.1 :: !o.IllegalDevice?)
      && InFlight(s.disks[u]) + Accepted(u, ops[..|r.1|], r.1) == Performed(u, r.1) + InFlight(r.0.disks[u])
    decreases |ops|
  {
    if ops != [] {
      var one, r := Step(s, ops[0]), Run(s, ops);
      RunFirst(s, ops);
      StepSound(s, ops[0]);
      StepAccounts(s, ops[0], u);
      assert r.1 == [one.1] + r.1[1..];
      if !one.1.Final() {
        DiskAccounting(one.0, ops[1..], u);
        Handover(InFlight(s.disks[u]), AcceptedNow(u, ops[0], one.1), Accepted(u, ops[..|r.1|][1..], r.1[1..]),
                 PerformedNow(u, one.1), InFlight(one.0.disks[u]), Performed(u, r.1[1..]), InFlight(r.0.disks[u]));
      }
    }
  }

  // In the run every request to be inserted finds room, and no disk request stops the simulator.
  ghost predicate Served(s: Sys, ops: seq<Op>)
    requires Laid(s)
    decreases |ops|
  {
    ops == [] ||
    (&& !(Inserts(s, ops[0]) && RingFull(s))
     && var one := Step(s, ops[0]);
     && !one.1.Stopped? && Served(one.0, ops[1..]))
  }

  // Those are the runs that go on to their end.
  lemma {:induction false} ServedFinishes(s: Sys, ops: seq<Op>)
    requires Sound(s)
    ensures Served(s, ops) <==> Finished(ops, Run(s, ops).1)
    ensures Served(s, ops) ==> Sound(Run(s, ops).0)
    decreases |ops|
  {
    if ops != [] {
      var one := Step(s, ops[0]);
      StepSound(s, ops[0]);
      if one.1.Final() {
        assert one.1 in Run(s, ops).1;
      } else {
        ServedFinishes(one.0, ops[1..]);
        var rest := Run(one.0, ops[1..]);
        assert Run(s, ops).1 == [one.1] + rest.1;
        assert forall o :: o in [one.1] + rest.1 <==> o == one.1 || o in rest.1;
      }
    }
  }

  /* ---- The terminals' turn ---------------------------------------------------------------- */

  predicate IsDeviceTick(o: Obs) {
    o.AlarmInt? || o.DiskInt? || o.TermPoll?
  }

  function DeviceTicks(obs: seq<Obs>): nat {
    if obs == [] then 0 else (if IsDeviceTick(obs[0]) then 1 else 0) + DeviceTicks(obs[1..])
  }

  // The alarm and disk events delivered.
  function Delivered(obs: seq<Obs>): nat {
    if obs == [] then 0 else (if obs[0].AlarmInt? || obs[0].DiskInt? then 1 else 0) + Delivered(obs[1..])
  }

  // A character accepted by a terminal is out, and its transmitter ready again, within four device
  // ticks more than the events the other devices have delivered meanwhile.
  lemma {:induction false} ReadyAgain(s: Sys, i: T.IdealTerms, u: nat, ops: seq<Op>) returns (k: nat)
    requires Laid(s) && T.AllStand(s.terms, i) && u < T.UNITS
    requires DeviceTicks(Run(s, ops).1) >= T.Distance(s.terms.last, u) + Delivered(Run(s, ops).1)
    ensures k <= |ops| && T.Xmit(Run(s, ops[..k]).0.terms.units[u].status) == 0
    decreases |ops|
  {
    var one, rest := Step(s, ops[0]), ops[1..];
    var j := TermsStep(s, i, u, ops[0]);
    assert Run(s, ops).1[0] == one.1;
    if one.1.TermPoll? && T.Distance(s.terms.last, u) == 1 {
      k := 1;
      assert ops[..1] == [ops[0]];
      assert Run(s, ops[..1]).0 == one.0;
    } else {
      assert Run(s, ops).1[1..] == if one.1.Final() then [] else Run(one.0, rest).1;
      var k1 := ReadyAgain(one.0, j, u, rest);
      k := k1 + 1;
      assert ops[..k][1..] == rest[..k1];
      assert ops[..k][0] == ops[0];
    }
  }

  lemma TermsStep(s: Sys, i: T.IdealTerms, u: nat, op: Op) returns (j: T.IdealTerms)
    requires Laid(s) && T.AllStand(s.terms, i) && u < T.UNITS
    ensures
      var r := Step(s, op);
      && T.AllStand(r.0.terms, j)
      && (if r.1.TermPoll? then
            (if T.Distance(s.terms.last, u) == 1 then T.Xmit(r.0.terms.units[u].status) == 0
             else T.Distance(r.0.terms.last, u) == T.Distance(s.terms.last, u) - 1)
          else r.0.terms.last == s.terms.last)
  {
    j := i;
    match op
    case TermRequest(unit, control) =>
      T.StepStands(s.terms, i, T.Control(unit, control));
      j := T.IdealStep(i, T.Control(unit, control)).0;
    case TermStatus(unit) =>
      T.StepStands(s.terms, i, T.GetStatus(unit));
      j := T.IdealStep(i, T.GetStatus(unit)).0;
    case TimerTick(buffer, input) =>
      if s.deviceTick && s.ring[0].device == LOW {
        T.TickStands(s.terms, i, input);
        T.TickTurns(s.terms, i, u, input);
        j := T.IdealStep(i, T.Tick(input)).0;
      }
    case _ =>
  }

  lemma {:induction false} TermsStand(s: Sys, i: T.IdealTerms, ops: seq<Op>) returns (j: T.IdealTerms)
    requires Laid(s) && T.AllStand(s.terms, i)
    ensures T.AllStand(Run(s, ops).0.terms, j)
    decreases |ops|
  {
    j := i;
    if ops != [] {
      j := TermsStep(s, i, 0, ops[0]);
      if !Step(s, ops[0]).1.Final() {
        j := TermsStand(Step(s, ops[0]).0, j, ops[1..]);
      }
    }
  }

  // The same at any moment after the start.
  lemma {:induction false} ReadyAfterStart(n: nat, disks: seq<D.Unit>, before: seq<Op>, u: nat, ops: seq<Op>)
    returns (k: nat)
    requires n > 0 && |disks| == DISK_UNITS && u < T.UNITS
    requires
      var s := Run(Initial(n, disks), before).0;
      DeviceTicks(Run(s, ops).1) >= 4 + Delivered(Run(s, ops).1)
    ensures k <= |ops| && T.Xmit(Run(Run(Initial(n, disks), before).0, ops[..k]).0.terms.units[u].status) == 0
  {
    T.InitialStands();
    var i := TermsStand(Initial(n, disks), T.IDEAL_INITIAL, before);
    k := ReadyAgain(Run(Initial(n, disks), before).0, i, u, ops);
  }
}
