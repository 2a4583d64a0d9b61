/**
 What a caller of the devices gets, in the numbers of usloss.h: the device types 1 to 3 and the codes
 0 to 2; and what the timer brings.
 */
module DeviceGuarantees {
  import opened EventRing
  import opened EventRuns
  import opened Devices
  import D = Disk
  import T = Terminal

  // The answers to requests, as long as the ring has room.
  lemma RequestAnswers(s: Sys, unit: int, time: int, req: D.Request)
    requires Sound(s) && !RingFull(s)
    ensures Step(s, AlarmRequest(unit, time)).1 == Code(if unit == 0 then 0 else 2)
    ensures Step(s, DiskRequest(unit, req)).1 == Code(
      if !(0 <= unit <= 1) || !s.disks[unit].present then 2 else if s.disks[unit].status == 1 then 1 else 0)
  {
    FullExactly(s);
  }

  // The answers to queries.
  lemma QueryAnswers(s: Sys, unit: int)
    requires Laid(s)
    ensures Step(s, AlarmStatus(unit)) == (s, if unit != 0 then Code(2) else Status(0, if s.armed then 1 else 0))
    ensures Step(s, DiskStatus(unit)).1 ==
      if !(0 <= unit <= 1) then Code(2)
      else if !s.disks[unit].present then Status(2, 0) else Status(0, s.disks[unit].status)
    ensures !(0 <= unit <= 3) ==> Step(s, TermStatus(unit)).1 == TermAnswer(T.Code(2))
    ensures 0 <= unit <= 3 ==> Step(s, TermStatus(unit)).1 == TermAnswer(T.Word(s.terms.units[unit].status))
  {
  }

  // The alarm is busy from its request to its interrupt.
  lemma AlarmTold(s: Sys, time: int)
    requires Sound(s) && !RingFull(s)
    ensures Step(Step(s, AlarmRequest(0, time)).0, AlarmStatus(0)).1 == Status(0, 1)
  {
    FullExactly(s);
  }

  lemma AlarmOver(s: Sys, buffer: D.Sector, input: T.Incoming)
    requires Laid(s)
    ensures
      var r := Step(s, TimerTick(buffer, input));
      r.1.AlarmInt? ==> Step(r.0, AlarmStatus(0)).1 == Status(0, 0)
  {
  }

  // At the start nothing is asked for, and the first timer tick is the clock's.
  lemma AtStart(n: nat, disks: seq<D.Unit>, buffer: D.Sector, input: T.Incoming)
    requires n > 0 && |disks| == 2
    ensures
      var s := Initial(n, disks);
      && Laid(s) && |s.ring| == n && (forall i :: 0 <= i < n ==> s.ring[i].device == 3)
      && s.disks == disks && s.terms == T.INITIAL
      && Step(s, AlarmStatus(0)).1 == Status(0, 0)
      && Step(s, TimerTick(buffer, input)).1 == ClockInt
  {
  }

  // A timer tick is the clock's or the devices', in turn, and a device tick is that of the device
  // whose event comes next, the terminals' if there is none.
  lemma TickTells(s: Sys, buffer: D.Sector, input: T.Incoming)
    requires Sound(s)
    ensures
      var r, e := Step(s, TimerTick(buffer, input)), s.ring[0];
      && r.0.deviceTick == !s.deviceTick
      && if !s.deviceTick then r.1 == ClockInt
         else if e.device == 1 then r.1 == AlarmInt
         else if e.device == 2 then
           && 0 <= e.arg <= 1
           && (r.1 == Stopped || (r.1.DiskInt? && r.1.unit == e.arg && r.1.req == s.disks[e.arg].request))
         else e.device == 3 && r.1 == TermPoll(T.Step(s.terms, T.Tick(input)).1)
  {
    NextKind(s);
  }

  function TimerTicks(ops: seq<Op>): nat {
    if ops == [] then 0 else (if ops[0].TimerTick? then 1 else 0) + TimerTicks(ops[1..])
  }

  function Half(s: Sys): nat {
    if s.deviceTick then 1 else 0
  }

  // So every second timer tick is a device tick.
  lemma {:induction false} TicksAlternate(s: Sys, ops: seq<Op>)
    requires Sound(s) && Served(s, ops)
    ensures
      var r := Devices.Run(s, ops);
      2 * DeviceTicks(r.1) + Half(r.0) == TimerTicks(ops) + Half(s)
    decreases |ops|
  {
    if ops != [] {
      RunFirst(s, ops);
      StepSound(s, ops[0]);
      TickKept(s, ops[0]);
      TicksAlternate(Step(s, ops[0]).0, ops[1..]);
    }
  }

  lemma TickKept(s: Sys, op: Op)
    requires Sound(s)
    ensures
      var r := Step(s, op);
      if op.TimerTick? then
        r.0.deviceTick == !s.deviceTick && (!r.1.Final() ==> (IsDeviceTick(r.1) <==> s.deviceTick))
      else r.0.deviceTick == s.deviceTick && !IsDeviceTick(r.1)
  {
    match op
    case TimerTick(buffer, input) => TickTells(s, buffer, input);
    case _ =>
  }

  // A disk request in an empty ring is performed at the device tick its delay says.
  lemma LoneRequest(s: Sys, unit: int, req: D.Request)
    requires Sound(s) && 0 <= unit <= 1 && s.disks[unit].present && s.disks[unit].status != 1
    requires forall i :: 0 <= i < |s.ring| ==> s.ring[i].device == 3
    ensures
      var r, delay := Step(s, DiskRequest(unit, req)), D.Delay(s.disks[unit].currentTrack, req);
      && r.1 == Code(0) && r.0.disks == s.disks[unit := s.disks[unit].(status := 1, request := req)]
      && (1 <= delay <= |s.ring| ==> r.0.ring == s.ring[delay - 1 := Event(2, unit)])
  {
    var delay := D.Delay(s.disks[unit].currentTrack, req);
    HasFreeAt(s.ring, LOW, 0, 0);
    if 1 <= delay <= |s.ring| {
      HasFreeAt(s.ring, LOW, delay - 1, delay - 1);
      ScheduleStraight(s.ring, LOW, delay, DiskEvent(unit));
    }
  }
}
