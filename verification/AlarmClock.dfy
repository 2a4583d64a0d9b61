/**
 The alarm is documented as a count-down timer. It is the most urgent device of the event ring, so
 the ring, with all its probing and evicting, keeps every promise made to it to the tick, provided
 that no two alarms are asked for for the same tick.
 */
module AlarmClock {
  import opened Collections
  import opened EventRing
  import opened EventRuns
  import opened Devices
  import D = Disk
  import T = Terminal

  /* ---- One request ------------------------------------------------------------------------ */

  // A request gets exactly the slot it asks for, and disturbs nobody at its level or below, if and
  // only if that slot looks free from there.
  lemma ExactSlot(v: seq<Event>, low: int, d: int, time: int, e: Event)
    requires Roomy(v, low) && e.device <= d < low
    ensures
      var i := Target(|v|, time);
      (Filter(Schedule(v, low, time, e), low, d) == Filter(v, low, d)[i := e]) <==> Free(Filter(v, low, d)[i], low)
  {
    var i, f := Target(|v|, time), Filter(v, low, d);
    FilterSchedule(v, low, d, time, e);
    if Free(f[i], low) {
      HasFreeAt(f, low, i, i);
      ScheduleStraight(f, low, time, e);
    } else {
      ScheduleConserves(f, low, time, e);
      PendingUpdate(f, low, i, e);
      assert |Pending(Schedule(f, low, time, e), low)| == |Pending(f, low)| + 1;
      assert |Pending(f[i := e], low)| == |Pending(f, low)|;
    }
  }

  /* ---- A request interrupted -------------------------------------------------------------- */

  // The device ticks from a request to its slot when `inside` of them come after it has computed
  // its index: it then asks for `time - inside` ticks ahead.
  function TicksToSlot(n: nat, time: int, inside: nat): nat
    requires n > 0
  {
    inside + Target(n, time - inside) + 1
  }

  // So it keeps its tick exactly when fewer device ticks than it asked for come inside it.
  lemma KeepsItsTick(n: nat, time: int, inside: nat)
    requires 1 <= time <= n
    ensures TicksToSlot(n, time, inside) == time <==> inside < time
  {
  }

  // An alarm asked for when there is none is in that slot and nowhere else.
  lemma InterruptedAlarm(v: seq<Event>, time: int, inside: nat)
    requires Roomy(v, LOW) && 1 <= time <= |v|
    requires forall i :: 0 <= i < |v| ==> v[i].device > ALARM
    ensures Roomy(Later(v, LOW, inside), LOW)
    ensures
      var r := Schedule(Later(v, LOW, inside), LOW, time - inside, ALARM_EVENT);
      && (forall i :: 0 <= i < |r| ==> (r[i].device <= ALARM <==> inside + i + 1 == TicksToSlot(|v|, time, inside)))
      && ((exists i :: 0 <= i < |r| && r[i] == ALARM_EVENT && inside + i + 1 == time) <==> inside < time)
  {
    LaterRoomy(v, LOW, inside);
    LaterCalm(v, inside);
    LoneAlarm(Later(v, LOW, inside), time - inside);
    KeepsItsTick(|v|, time, inside);
  }

  lemma LoneAlarm(w: seq<Event>, time: int)
    requires Roomy(w, LOW) && forall i :: 0 <= i < |w| ==> w[i].device > ALARM
    ensures
      var r, k := Schedule(w, LOW, time, ALARM_EVENT), Target(|w|, time);
      r[k] == ALARM_EVENT && forall i :: 0 <= i < |w| && i != k ==> r[i].device > ALARM
  {
    var r, k := Schedule(w, LOW, time, ALARM_EVENT), Target(|w|, time);
    ExactSlot(w, LOW, ALARM, time, ALARM_EVENT);
    assert Filter(r, LOW, ALARM) == Filter(w, LOW, ALARM)[k := ALARM_EVENT];
    forall i | 0 <= i < |w|
      ensures Seen(r[i], LOW, ALARM) == if i == k then ALARM_EVENT else Event(LOW, 0)
    {
      assert Filter(r, LOW, ALARM)[i] == Filter(w, LOW, ALARM)[k := ALARM_EVENT][i];
    }
  }

  lemma {:induction false} LaterCalm(v: seq<Event>, ticks: nat)
    requires v != [] && forall i :: 0 <= i < |v| ==> v[i].device > ALARM
    ensures forall i :: 0 <= i < |v| ==> Later(v, LOW, ticks)[i].device > ALARM
  {
    if ticks > 0 {
      LaterCalm(v, ticks - 1);
    }
  }

  // One device tick inside a request for the next one is enough: the alarm comes a whole round of
  // the ring after that tick.
  lemma RoundLate(v: seq<Event>)
    requires Roomy(v, LOW) && forall i :: 0 <= i < |v| ==> v[i].device > ALARM
    ensures Roomy(Later(v, LOW, 1), LOW)
    ensures
      var r := Schedule(Later(v, LOW, 1), LOW, 0, ALARM_EVENT);
      r[|r| - 1] == ALARM_EVENT && forall i :: 0 <= i < |r| - 1 ==> r[i].device > ALARM
  {
    InterruptedAlarm(v, 1, 1);
  }

  /* ---- Whole runs ------------------------------------------------------------------------- */

  // The device ticks are numbered; `now` is the number of the last one. An alarm asked for n ticks
  // ahead is due at tick now + n (and one for 0 ticks ahead once round the ring).
  function DueTick(n: nat, now: nat, time: int): nat
    requires n > 0
    ensures 1 <= time <= n ==> DueTick(n, now, time) == now + time
  {
    now + Target(n, time) + 1
  }

  function After(now: nat, o: Obs): nat {
    if IsDeviceTick(o) then now + 1 else now
  }

  predicate Asks(op: Op) {
    op.AlarmRequest? && op.unit == 0
  }

  // The tick a request asks for an alarm for.
  function Ask(n: nat, now: nat, op: Op): set<nat>
    requires n > 0
  {
    if Asks(op) then {DueTick(n, now, op.time)} else {}
  }

  // No alarm is asked for for a tick at which one is due already.
  predicate Distinct(n: nat, now: nat, due: set<nat>, ops: seq<Op>, obs: seq<Obs>)
    requires n > 0 && |obs| == |ops|
    decreases |ops|
  {
    ops == [] ||
    var ask := Ask(n, now, ops[0]);
    ask !! due && Distinct(n, After(now, obs[0]), due + ask, ops[1..], obs[1..])
  }

  // The ticks at which alarms asked for in the run are due, and those at which alarms came.
  function Asked(n: nat, now: nat, ops: seq<Op>, obs: seq<Obs>): set<nat>
    requires n > 0 && |obs| == |ops|
    decreases |ops|
  {
    if ops == [] then {} else Ask(n, now, ops[0]) + Asked(n, After(now, obs[0]), ops[1..], obs[1..])
  }

  function Rang(now: nat, obs: seq<Obs>): set<nat>
    decreases |obs|
  {
    if obs == [] then {}
    else (if obs[0].AlarmInt? then {now + 1} else {}) + Rang(After(now, obs[0]), obs[1..])
  }

  // What the alarm sees of the ring: slot i holds an alarm exactly when one is due i + 1 ticks from now.
  predicate Promises(s: Sys, now: nat, due: set<nat>)
    requires Laid(s)
  {
    forall i :: 0 <= i < |s.ring| ==> Seen(s.ring[i], LOW, ALARM) == Slot(now + 1 + i, due)
  }

  function Slot(tick: nat, due: set<nat>): Event {
    if tick in due then ALARM_EVENT else Event(LOW, 0)
  }

  lemma AskKeeps(s: Sys, now: nat, due: set<nat>, time: int)
    requires Laid(s) && HasFree(s.ring, LOW, 0) && Promises(s, now, due)
    requires DueTick(|s.ring|, now, time) !in due
    ensures
      var r := s.(armed := true, ring := Schedule(s.ring, LOW, time, ALARM_EVENT));
      Promises(r, now, due + {DueTick(|s.ring|, now, time)})
  {
    var i, f := Target(|s.ring|, time), Filter(s.ring, LOW, ALARM);
    var r := Schedule(s.ring, LOW, time, ALARM_EVENT);
    ExactSlot(s.ring, LOW, ALARM, time, ALARM_EVENT);
    assert Filter(r, LOW, ALARM) == f[i := ALARM_EVENT];
    forall j | 0 <= j < |r|
      ensures Seen(r[j], LOW, ALARM) == f[i := ALARM_EVENT][j]
    {
      assert Filter(r, LOW, ALARM)[j] == Seen(r[j], LOW, ALARM);
    }
  }

  lemma DiskKeeps(s: Sys, now: nat, due: set<nat>, u: nat, delay: int)
    requires Laid(s) && HasFree(s.ring, LOW, 0) && Promises(s, now, due)
    ensures Promises(s.(ring := Schedule(s.ring, LOW, delay, DiskEvent(u))), now, due)
  {
    var r := Schedule(s.ring, LOW, delay, DiskEvent(u));
    FilterSchedule(s.ring, LOW, ALARM, delay, DiskEvent(u));
    forall j | 0 <= j < |r|
      ensures Seen(r[j], LOW, ALARM) == Seen(s.ring[j], LOW, ALARM)
    {
      assert Filter(r, LOW, ALARM)[j] == Seen(r[j], LOW, ALARM);
    }
  }

  lemma TickKeeps(s: Sys, now: nat, due: set<nat>, buffer: D.Sector, input: T.Incoming)
    requires Laid(s) && Promises(s, now, due) && !Dispatched(s, buffer, input).1.Final()
    ensures
      var r := Dispatched(s, buffer, input);
      && IsDeviceTick(r.1)
      && (r.1.AlarmInt? <==> now + 1 in due)
      && (|s.ring| + now + 1 !in due ==> Promises(r.0, now + 1, due))
  {
    assert Seen(s.ring[0], LOW, ALARM) == Slot(now + 1, due);
  }

  // Nothing is due further ahead than the ring reaches.
  predicate InReach(n: nat, now: nat, due: set<nat>) {
    forall k :: k in due ==> k <= now + n
  }

  lemma {:induction false} StepKeeps(s: Sys, now: nat, due: set<nat>, op: Op)
    requires Laid(s) && Promises(s, now, due) && InReach(|s.ring|, now, due) && !Step(s, op).1.Final()
    requires Ask(|s.ring|, now, op) !! due
    ensures
      var r, later := Step(s, op), due + Ask(|s.ring|, now, op);
      && Promises(r.0, After(now, r.1), later) && InReach(|s.ring|, After(now, r.1), later)
      && (r.1.AlarmInt? <==> IsDeviceTick(r.1) && now + 1 in due)
  {
    assert !Asks(op) ==> due + Ask(|s.ring|, now, op) == due;
    match op
    case AlarmRequest(unit, time) =>
      if unit == 0 { AskKeeps(s, now, due, time); }
    case DiskRequest(unit, req) =>
      if DiskUnit(unit) && D.Submit(s.disks[unit], req).1.Accepted? {
        DiskKeeps(s, now, due, unit, D.Submit(s.disks[unit], req).1.delay);
      }
    case TimerTick(buffer, input) =>
      if s.deviceTick { TickKeeps(s.(deviceTick := false), now, due, buffer, input); }
    case _ =>
  }

  // Over every run in which no two alarms are due at the same tick, whatever the disks and the
  // terminals do meanwhile, alarms come at exactly the ticks they are due at: an alarm asked for n
  // ticks ahead comes at the n-th later device tick, and there are no others.
  lemma {:induction false} AlarmsOnTime(s: Sys, now: nat, due: set<nat>, ops: seq<Op>)
    requires Laid(s) && Promises(s, now, due) && InReach(|s.ring|, now, due)
    requires
      var obs := Devices.Run(s, ops).1;
      Distinct(|s.ring|, now, due, ops[..|obs|], obs)
    ensures
      var obs := Devices.Run(s, ops).1;
      forall k :: k in Rang(now, obs) <==>
        now < k <= now + DeviceTicks(obs) && k in due + Asked(|s.ring|, now, ops[..|obs|], obs)
    decreases |ops|
  {
    if ops != [] {
      var one, obs := Step(s, ops[0]), Devices.Run(s, ops).1;
      var n, next, done := |s.ring|, After(now, one.1), ops[..|obs|];
      RunFirst(s, ops);
      if !one.1.Final() {
        var ask, asked := Ask(n, now, ops[0]), Asked(n, next, done[1..], obs[1..]);
        StepKeeps(s, now, due, ops[0]);
        AlarmsOnTime(one.0, next, due + ask, ops[1..]);
        AskedLater(n, next, done[1..], obs[1..]);
        TickKind(s, ops[0]);
        Combine(now, next, IsDeviceTick(one.1), one.1.AlarmInt?, due, ask, asked,
                Rang(next, obs[1..]), DeviceTicks(obs[1..]));
        assert Asked(n, now, done, obs) == ask + asked;
      }
    }
  }

  lemma TickKind(s: Sys, op: Op)
    requires Laid(s)
    ensures IsDeviceTick(Step(s, op).1) ==> op.TimerTick?
  {
  }

  // One step put before the rest of the run: `ask` is what it asks for, `rang` when the rest rang.
  lemma Combine(now: nat, next: nat, tick: bool, alarm: bool, due: set<nat>, ask: set<nat>, asked: set<nat>,
                rang: set<nat>, ticks: nat)
    requires next == if tick then now + 1 else now
    requires alarm <==> tick && now + 1 in due
    requires tick ==> ask == {}
    requires forall k :: k in asked ==> next < k
    requires forall k :: k in rang <==> next < k <= next + ticks && k in (due + ask) + asked
    ensures forall k :: k in (if alarm then {now + 1} else {}) + rang <==>
      now < k <= now + (if tick then 1 else 0) + ticks && k in due + (ask + asked)
  {
  }

  lemma {:induction false} AskedLater(n: nat, now: nat, ops: seq<Op>, obs: seq<Obs>)
    requires n > 0 && |obs| == |ops|
    ensures forall k :: k in Asked(n, now, ops, obs) ==> now < k
    decreases |ops|
  {
    if ops != [] {
      AskedLater(n, After(now, obs[0]), ops[1..], obs[1..]);
    }
  }

  lemma InitialPromises(n: nat, disks: seq<D.Unit>)
    requires n > 0 && |disks| == DISK_UNITS
    ensures Laid(Initial(n, disks)) && Promises(Initial(n, disks), 0, {}) && InReach(n, 0, {})
  {
  }

  /* ---- One alarm at a time ---------------------------------------------------------------- */

  // An alarm is asked for only when none is armed, and for 1 to n ticks ahead: what a caller can see
  // to that asks for the alarm's status first.
  ghost predicate OneAtATime(s: Sys, ops: seq<Op>)
    requires Laid(s)
    decreases |ops|
  {
    ops == [] ||
    (&& (Asks(ops[0]) ==> !s.armed && 1 <= ops[0].time <= |s.ring|)
     && var one := Step(s, ops[0]);
     && (one.1.Final() || OneAtATime(one.0, ops[1..])))
  }

  // The alarm is armed exactly when there is one in the ring, and then only one.
  predicate ArmedOnce(s: Sys) {
    Alarms(s) == if s.armed then 1 else 0
  }

  lemma ArmedStep(s: Sys, op: Op)
    requires Sound(s) && ArmedOnce(s) && |s.ring| >= 3 && (Asks(op) ==> !s.armed)
    ensures
      var r := Step(s, op);
      !r.1.Diverges? && !r.1.IllegalDevice? && (!r.1.Final() ==> Sound(r.0) && ArmedOnce(r.0))
  {
    StepSound(s, op);
    match op
    case AlarmRequest(unit, time) =>
      if unit == 0 { ArmedAlarm(s, time); }
    case DiskRequest(unit, req) => ArmedDisk(s, unit, req);
    case TimerTick(buffer, input) =>
      if s.deviceTick { ArmedTick(s.(deviceTick := false), buffer, input); }
    case _ =>
  }

  lemma ArmedAlarm(s: Sys, time: int)
    requires Sound(s) && !s.armed && Alarms(s) == 0 && |s.ring| >= 3
    ensures HasFree(s.ring, LOW, 0)
    ensures Pending(Schedule(s.ring, LOW, time, ALARM_EVENT), LOW)[ALARM_EVENT] == 1
  {
    FullExactly(s);
    ScheduleConserves(s.ring, LOW, time, ALARM_EVENT);
  }

  lemma ArmedDisk(s: Sys, unit: int, req: D.Request)
    requires Sound(s) && ArmedOnce(s) && |s.ring| >= 3
    ensures !AskDisk(s, unit, req).1.Diverges? && ArmedOnce(AskDisk(s, unit, req).0)
  {
    DiskAnswered(s, unit, req);
    DiskBalance(s, unit, req);
  }

  lemma ArmedTick(s: Sys, buffer: D.Sector, input: T.Incoming)
    requires Sound(s) && ArmedOnce(s)
    ensures ArmedOnce(Dispatched(s, buffer, input).0)
  {
    TickBalance(s, buffer, input);
    TickedAlarm(s, buffer, input);
  }

  lemma TickedAlarm(s: Sys, buffer: D.Sector, input: T.Incoming)
    requires Laid(s)
    ensures
      var r := Dispatched(s, buffer, input);
      && r.0.ring == Dispatch(s.ring, LOW) && r.0.armed == (s.armed && s.ring[0].device != ALARM)
      && (r.1.AlarmInt? <==> s.ring[0].device == ALARM)
  {
  }

  // At most one alarm is still due, and none when none is armed.
  predicate OneDue(s: Sys, now: nat, due: set<nat>) {
    forall k :: k in due && now < k ==> s.armed && (forall j :: j in due && now < j ==> j == k)
  }

  lemma {:induction false} OneAtATimeDistinct(s: Sys, now: nat, due: set<nat>, ops: seq<Op>)
    requires Sound(s) && ArmedOnce(s) && |s.ring| >= 3 && OneAtATime(s, ops)
    requires Promises(s, now, due) && InReach(|s.ring|, now, due) && OneDue(s, now, due)
    ensures
      var obs := Devices.Run(s, ops).1;
      && Distinct(|s.ring|, now, due, ops[..|obs|], obs)
      && (forall o <- obs :: !o.Diverges? && !o.IllegalDevice?)
    decreases |ops|
  {
    if ops != [] {
      var one, obs := Step(s, ops[0]), Devices.Run(s, ops).1;
      RunFirst(s, ops);
      ArmedStep(s, ops[0]);
      NotYetDue(s, now, due, ops[0]);
      if !one.1.Final() {
        StepKeeps(s, now, due, ops[0]);
        DueStep(s, now, due, ops[0]);
        OneAtATimeDistinct(one.0, After(now, one.1), due + Ask(|s.ring|, now, ops[0]), ops[1..]);
      }
      assert obs == [one.1] + obs[1..];
    }
  }

  lemma NotYetDue(s: Sys, now: nat, due: set<nat>, op: Op)
    requires Laid(s) && OneDue(s, now, due) && (Asks(op) ==> !s.armed)
    ensures Ask(|s.ring|, now, op) !! due
  {
  }

  lemma DueStep(s: Sys, now: nat, due: set<nat>, op: Op)
    requires Laid(s) && OneDue(s, now, due) && !Step(s, op).1.Final() && (Asks(op) ==> !s.armed)
    requires Step(s, op).1.AlarmInt? <==> IsDeviceTick(Step(s, op).1) && now + 1 in due
    ensures
      var r := Step(s, op);
      OneDue(r.0, After(now, r.1), due + Ask(|s.ring|, now, op))
  {
  }

  // From the start: as long as only one alarm is outstanding at a time, the devices never diverge and
  // never meet an illegal event, and an alarm asked for `time` ticks ahead rings at exactly the
  // `time`-th device tick from then on, whatever the disks and the terminals are asked for.
  lemma AlarmsFromStart(n: nat, disks: seq<D.Unit>, ops: seq<Op>)
    requires n >= 3 && |disks| == DISK_UNITS && (forall d <- disks :: !Busy(d))
    requires OneAtATime(Initial(n, disks), ops)
    ensures
      var obs := Devices.Run(Initial(n, disks), ops).1;
      && (forall o <- obs :: !o.Diverges? && !o.IllegalDevice?)
      && (forall k :: k in Rang(0, obs) <==> 1 <= k <= DeviceTicks(obs) && k in AskedFor(0, ops[..|obs|], obs))
  {
    var s := Initial(n, disks);
    InitialSound(n, disks);
    InitialPromises(n, disks);
    OneAtATimeDistinct(s, 0, {}, ops);
    AlarmsOnTime(s, 0, {}, ops);
    InTime(s, 0, ops);
    var obs := Devices.Run(s, ops).1;
    assert {} + Asked(n, 0, ops[..|obs|], obs) == AskedFor(0, ops[..|obs|], obs);
  }

  // The ticks the alarms are asked for: `time` after the last one.
  function AskedFor(now: nat, ops: seq<Op>, obs: seq<Obs>): set<int>
    requires |obs| == |ops|
    decreases |ops|
  {
    if ops == [] then {}
    else (if Asks(ops[0]) then {now + ops[0].time} else {}) + AskedFor(After(now, obs[0]), ops[1..], obs[1..])
  }

  lemma {:induction false} InTime(s: Sys, now: nat, ops: seq<Op>)
    requires Laid(s) && OneAtATime(s, ops)
    ensures
      var obs := Devices.Run(s, ops).1;
      Asked(|s.ring|, now, ops[..|obs|], obs) == AskedFor(now, ops[..|obs|], obs)
    decreases |ops|
  {
    if ops != [] {
      var one := Step(s, ops[0]);
      RunFirst(s, ops);
      AskInTime(|s.ring|, now, ops[0]);
      if !one.1.Final() {
        InTime(one.0, After(now, one.1), ops[1..]);
      }
    }
  }

  lemma AskInTime(n: nat, now: nat, op: Op)
    requires n > 0 && (Asks(op) ==> 1 <= op.time <= n)
    ensures Ask(n, now, op) == if Asks(op) then {now + op.time} else {}
  {
  }

  /* ---- Alarms on time are alarms for different ticks -------------------------------------- */

  function One(happens: bool): nat {
    if happens then 1 else 0
  }

  function AskCount(ops: seq<Op>): nat {
    if ops == [] then 0 else One(Asks(ops[0])) + AskCount(ops[1..])
  }

  function Rings(obs: seq<Obs>): nat {
    if obs == [] then 0 else One(obs[0].AlarmInt?) + Rings(obs[1..])
  }

  // No alarm comes twice at a tick.
  lemma {:induction false} RangSize(now: nat, obs: seq<Obs>)
    ensures |Rang(now, obs)| == Rings(obs) && forall k :: k in Rang(now, obs) ==> now < k
    decreases |obs|
  {
    if obs != [] {
      RangSize(After(now, obs[0]), obs[1..]);
      if obs[0].AlarmInt? {
        assert now + 1 !in Rang(now + 1, obs[1..]);
      } else {
        assert {} + Rang(After(now, obs[0]), obs[1..]) == Rang(After(now, obs[0]), obs[1..]);
      }
    }
  }

  // Every alarm asked for rings or is still in the ring.
  lemma {:induction false} AlarmBalance(s: Sys, ops: seq<Op>)
    requires Sound(s) && Finished(ops, Devices.Run(s, ops).1)
    ensures
      var r := Devices.Run(s, ops);
      Alarms(s) + AskCount(ops) == Rings(r.1) + Alarms(r.0)
    decreases |ops|
  {
    if ops != [] {
      var one, r := Step(s, ops[0]), Devices.Run(s, ops);
      RunFirst(s, ops);
      assert r.1[0] in r.1;
      StepSound(s, ops[0]);
      StepBalance(s, ops[0]);
      assert forall o <- r.1[1..] :: o in r.1;
      AlarmBalance(one.0, ops[1..]);
    }
  }

  lemma StepBalance(s: Sys, op: Op)
    requires Sound(s) && !Step(s, op).1.Final()
    ensures
      var r := Step(s, op);
      Alarms(s) + One(Asks(op)) == One(r.1.AlarmInt?) + Alarms(r.0)
  {
    if op.AlarmRequest? {
      AskBalance(s, op.unit, op.time);
    } else if op.DiskRequest? {
      DiskBalance(s, op.unit, op.req);
    } else if op.TimerTick? && s.deviceTick {
      TickBalance(s.(deviceTick := false), op.buffer, op.input);
    }
  }

  lemma AskBalance(s: Sys, unit: int, time: int)
    requires Laid(s) && !AskAlarm(s, unit, time).1.Final()
    ensures Alarms(AskAlarm(s, unit, time).0) == Alarms(s) + One(unit == 0)
  {
    if unit == 0 {
      ScheduleConserves(s.ring, LOW, time, ALARM_EVENT);
    }
  }

  lemma TickBalance(s: Sys, buffer: D.Sector, input: T.Incoming)
    requires Sound(s)
    ensures
      var r := Dispatched(s, buffer, input);
      Alarms(s) == One(r.1.AlarmInt?) + Alarms(r.0)
  {
    NextKind(s);
    TickedAlarm(s, buffer, input);
    var e, q := s.ring[0], Pending(Dispatch(s.ring, LOW), LOW);
    assert q[ALARM_EVENT] == if e == ALARM_EVENT then Alarms(s) - 1 else Alarms(s) by {
      NextGone(s);
    }
  }

  lemma DiskBalance(s: Sys, unit: int, req: D.Request)
    requires Sound(s)
    ensures Alarms(AskDisk(s, unit, req).0) == Alarms(s)
  {
    FullExactly(s);
    if DiskUnit(unit) {
      var r := D.Submit(s.disks[unit], req);
      if r.1.Accepted? && HasFree(s.ring, LOW, 0) {
        ScheduleConserves(s.ring, LOW, r.1.delay, DiskEvent(unit));
      }
    }
  }

  // Requests are for as many ticks as there are requests exactly when no two are for the same.
  lemma {:induction false} DistinctCount(n: nat, now: nat, due: set<nat>, ops: seq<Op>, obs: seq<Obs>)
    requires n > 0 && |obs| == |ops|
    ensures |due + Asked(n, now, ops, obs)| <= |due| + AskCount(ops)
    ensures |due + Asked(n, now, ops, obs)| == |due| + AskCount(ops) ==> Distinct(n, now, due, ops, obs)
    decreases |ops|
  {
    if ops != [] {
      var ask, next := Ask(n, now, ops[0]), After(now, obs[0]);
      DistinctCount(n, next, due + ask, ops[1..], obs[1..]);
      assert due + Asked(n, now, ops, obs) == (due + ask) + Asked(n, next, ops[1..], obs[1..]);
      UnionSize(due, ask);
    }
  }

  lemma UnionSize<T>(a: set<T>, b: set<T>)
    ensures |a + b| <= |a| + |b| && (|a + b| == |a| + |b| ==> a !! b)
  {
    assert |a + b| == |a| + |b| - |a * b|;
    if a * b != {} {
      var x :| x in a * b;
      assert |a * b| >= |{x}| by { SubsetSize({x}, a * b); }
    } else {
      assert forall x :: x in a ==> x in b ==> x in a * b;
    }
  }

  ghost predicate OnTime(n: nat, ops: seq<Op>, obs: seq<Obs>)
    requires n > 0 && |obs| == |ops|
  {
    forall k :: k in Rang(0, obs) <==> 0 < k <= DeviceTicks(obs) && k in Asked(n, 0, ops, obs)
  }

  // The condition is exact: from the start, over every run that delivers all the alarms it asks for,
  // they are on time if and only if no two are asked for for the same tick.
  lemma OnTimeExactly(n: nat, disks: seq<D.Unit>, ops: seq<Op>)
    requires n > 0 && |disks| == DISK_UNITS && (forall d <- disks :: !Busy(d))
    requires
      var r := Devices.Run(Initial(n, disks), ops);
      Finished(ops, r.1) && Alarms(r.0) == 0
    ensures
      var obs := Devices.Run(Initial(n, disks), ops).1;
      OnTime(n, ops, obs) <==> Distinct(n, 0, {}, ops, obs)
  {
    var s := Initial(n, disks);
    var obs := Devices.Run(s, ops).1;
    InitialSound(n, disks);
    InitialPromises(n, disks);
    assert ops[..|obs|] == ops;
    var asked := Asked(n, 0, ops, obs);
    assert {} + asked == asked;
    if Distinct(n, 0, {}, ops, obs) {
      AlarmsOnTime(s, 0, {}, ops);
    }
    if OnTime(n, ops, obs) {
      AlarmBalance(s, ops);
      RangSize(0, obs);
      DistinctCount(n, 0, {}, ops, obs);
      SubsetSize(Rang(0, obs), asked);
    }
  }
}
