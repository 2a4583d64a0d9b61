/**
 The devices as the program keeps them: the queue, the disk units and the terminals, each updated in
 place, with the requests that feed the queue and the timer tick that empties it. Each does exactly
 one step of the devices the run theorems are about.
 */
module DeviceBoard {
  import opened EventRing
  import opened EventQueue
  import opened Devices
  import D = Disk
  import T = Terminal

  class Board {
    const queue: DeviceQueue
    const disks: seq<D.DiskInfo>
    const terms: T.TermDevice
    var armed: bool

    ghost predicate Valid()
      reads this, queue, queue.slots, disks, terms, terms.terms
    {
      && queue.Laid() && queue.low == LOW
      && |disks| == DISK_UNITS && disks[0] != disks[1]
      && terms.Valid()
    }

    ghost function State(): (s: Sys)
      requires Valid()
      reads this, queue, queue.slots, disks, terms, terms.terms
      ensures Laid(s)
    {
      Sys(queue.View(), queue.deviceTick, armed, DiskStates(), terms.State())
    }

    ghost function DiskStates(): seq<D.Unit>
      requires |disks| == DISK_UNITS
      reads this, disks
    {
      [disks[0].State(), disks[1].State()]
    }

    constructor (n: nat, disk0: D.DiskInfo, disk1: D.DiskInfo)
      requires n > 0 && disk0 != disk1
      ensures Valid() && State() == Initial(n, [disk0.State(), disk1.State()])
    {
      queue := new DeviceQueue(n, LOW);
      disks := [disk0, disk1];
      terms := new T.TermDevice();
      armed := false;
    }

    method AlarmRequest(unit: int, time: int) returns (code: int)
      requires Valid() && (Inserts(State(), Op.AlarmRequest(unit, time)) ==> HasFree(State().ring, LOW, 0))
      modifies this, queue.slots
      ensures Valid() && (State(), Code(code)) == Step(old(State()), Op.AlarmRequest(unit, time))
    {
      if unit != 0 {
        return D.DEV_INVALID;
      }
      armed := true;
      queue.ScheduleInt(ALARM, 0, time);
      return D.DEV_OK;
    }

    method AlarmStatus(unit: int) returns (obs: Obs)
      requires Valid()
      ensures obs == Step(State(), Op.AlarmStatus(unit)).1 && Step(State(), Op.AlarmStatus(unit)).0 == State()
    {
      if unit != 0 {
        return Code(D.DEV_INVALID);
      }
      return Status(D.DEV_OK, if armed then D.DEV_BUSY else D.DEV_READY);
    }

    method DiskRequest(unit: int, req: D.Request) returns (code: int)
      requires Valid() && (Inserts(State(), Op.DiskRequest(unit, req)) ==> HasFree(State().ring, LOW, 0))
      modifies disks, queue.slots
      ensures Valid() && (State(), Code(code)) == Step(old(State()), Op.DiskRequest(unit, req))
    {
      if unit < 0 || unit >= DISK_UNITS {
        return D.DEV_INVALID;
      }
      ghost var was := DiskStates();
      var answer := disks[unit].DiskRequest(req);
      assert DiskStates() == was[unit := D.Submit(was[unit], req).0];
      match answer {
        case Refused(c) =>
          assert DiskStates() == was;
          code := c;
        case Accepted(delay) =>
          queue.ScheduleInt(DISK, unit, delay);
          code := D.DEV_OK;
      }
    }

    // The disk's part of a tick.
    method PerformRequest(unit: int, buffer: D.Sector) returns (obs: Obs)
      requires Valid() && DiskUnit(unit)
      modifies disks
      ensures Valid() && (State(), obs) == PerformDisk(old(State()), unit, buffer)
    {
      ghost var was := DiskStates();
      var req := disks[unit].request;
      var stopped, effect := disks[unit].DiskAction(buffer);
      if stopped {
        assert DiskStates() == was;
        return Stopped;
      }
      assert DiskStates() == was[unit := D.Complete(was[unit], buffer).d];
      return DiskInt(unit, req, effect);
    }

    // One timer tick, with dispatch_int's switch over the devices.
    method TimerTick(buffer: D.Sector, input: T.Incoming) returns (obs: Obs)
      requires Valid()
      modifies this, queue, queue.slots, disks, terms, terms.terms
      ensures Valid() && (State(), obs) == Step(old(State()), Op.TimerTick(buffer, input))
    {
      var isDevice, e := queue.DispatchInt();
      if !isDevice {
        return ClockInt;
      }
      if e.device == ALARM {
        armed := false;
        return AlarmInt;
      } else if e.device == DISK {
        if e.arg < 0 || e.arg >= DISK_UNITS {
          return IllegalDevice;
        }
        obs := PerformRequest(e.arg, buffer);
      } else if e.device == LOW {
        var raised := terms.TermAction(input);
        return TermPoll(raised);
      } else {
        return IllegalDevice;
      }
    }
  }
}
