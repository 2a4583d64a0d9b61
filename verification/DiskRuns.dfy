/**
 The disks behind the ring. Whatever else goes on in a run of the devices, one unit goes through a run
 of its own, made of its requests, its status queries and its interrupts; so what its callers are
 shown is what an array of tracks of sectors would show them.
 */
module DiskRuns {
  import opened Devices
  import D = Disk

  // What the callers of a unit are shown.
  datatype Shown = Told(code: int) | Reported(code: int, status: int) | Did(effect: D.Effect) | Halted

  function ShownOf(o: D.Obs): Shown {
    match o
    case Asked(Accepted(_)) => Told(D.DEV_OK)
    case Asked(Refused(code)) => Told(code)
    case Queried(code, status) => Reported(code, status)
    case Performed(effect) => Did(effect)
    case Halt => Halted
  }

  function ShowAll(obs: seq<D.Obs>): seq<Shown> {
    if obs == [] then [] else [ShownOf(obs[0])] + ShowAll(obs[1..])
  }

  // The part of unit u in one step of the devices, and what the step shows of it.
  function Part(u: nat, op: Op, o: Obs): seq<D.Op> {
    match op
    case DiskRequest(unit, req) => if unit == u && o.Code? then [D.Ask(req)] else []
    case DiskStatus(unit) => if unit == u then [D.Query] else []
    case TimerTick(buffer, _) => if o.DiskInt? && o.unit == u then [D.Interrupt(buffer)] else []
    case _ => []
  }

  function Display(u: nat, op: Op, o: Obs): seq<Shown> {
    if Part(u, op, o) == [] then []
    else match o
      case Code(code) => [Told(code)]
      case Status(code, status) => [Reported(code, status)]
      case DiskInt(_, _, effect) => [Did(effect)]
      case _ => []
  }

  function Parts(u: nat, ops: seq<Op>, obs: seq<Obs>): seq<D.Op>
    requires |obs| == |ops|
    decreases |ops|
  {
    if ops == [] then [] else Part(u, ops[0], obs[0]) + Parts(u, ops[1..], obs[1..])
  }

  function Displays(u: nat, ops: seq<Op>, obs: seq<Obs>): seq<Shown>
    requires |obs| == |ops|
    decreases |ops|
  {
    if ops == [] then [] else Display(u, ops[0], obs[0]) + Displays(u, ops[1..], obs[1..])
  }

  // One step of the devices is for the unit its part, at most one step of its own.
  lemma StepPart(s: Sys, op: Op, u: nat)
    requires Laid(s) && DiskUnit(u)
    ensures
      var r, d := Step(s, op), s.disks[u];
      var part := Part(u, op, r.1);
      if part == [] then r.0.disks[u] == d
      else
        && part == [part[0]]
        && var one := D.Step(d, part[0]);
        && one.0 == r.0.disks[u] && one.1 != D.Halt && Display(u, op, r.1) == [ShownOf(one.1)]
  {
  }

  lemma RunCons(d: D.Unit, op: D.Op, rest: seq<D.Op>)
    requires D.Step(d, op).1 != D.Halt
    ensures
      var one := D.Step(d, op);
      var r, q := D.Run(d, [op] + rest), D.Run(one.0, rest);
      r.0 == q.0 && ShowAll(r.1) == [ShownOf(one.1)] + ShowAll(q.1)
  {
    var one := D.Step(d, op);
    assert ([op] + rest)[1..] == rest;
    assert ([one.1] + D.Run(one.0, rest).1)[1..] == D.Run(one.0, rest).1;
  }

  lemma {:induction false} UnitRun(s: Sys, ops: seq<Op>, u: nat)
    requires Laid(s) && DiskUnit(u)
    ensures
      var r := Devices.Run(s, ops);
      var q := D.Run(s.disks[u], Parts(u, ops[..|r.1|], r.1));
      q.0 == r.0.disks[u] && ShowAll(q.1) == Displays(u, ops[..|r.1|], r.1)
    decreases |ops|
  {
    if ops != [] {
      var one, r := Step(s, ops[0]), Devices.Run(s, ops);
      RunFirst(s, ops);
      StepPart(s, ops[0], u);
      var part, rest := Part(u, ops[0], one.1), Parts(u, ops[..|r.1|][1..], r.1[1..]);
      if !one.1.Final() {
        UnitRun(one.0, ops[1..], u);
      }
      if part == [] {
        assert part + rest == rest;
      } else {
        RunCons(s.disks[u], part[0], rest);
      }
    }
  }

  // Over every run of all the devices in which a unit is asked for no negative sector, its callers
  // are shown what the array of tracks shows, and its file ends up as that array.
  lemma {:induction false} DiskIsIdeal(s: Sys, ops: seq<Op>, u: nat)
    requires Laid(s) && DiskUnit(u) && D.DiskOk(s.disks[u]) && !D.NegativeSector(s.disks[u].request)
    requires forall op <- ops :: op.DiskRequest? && op.unit == u ==> !D.NegativeSector(op.req)
    ensures
      var r := Devices.Run(s, ops);
      var i := D.IdealRun(D.IdealOf(s.disks[u]), Parts(u, ops[..|r.1|], r.1));
      && D.DiskOk(r.0.disks[u]) && D.IdealOf(r.0.disks[u]) == i.0
      && Displays(u, ops[..|r.1|], r.1) == ShowAll(i.1)
  {
    var r := Devices.Run(s, ops);
    UnitRun(s, ops, u);
    PartsAsked(u, ops[..|r.1|], r.1);
    D.StorageRefines(s.disks[u], Parts(u, ops[..|r.1|], r.1));
  }

  lemma {:induction false} PartsAsked(u: nat, ops: seq<Op>, obs: seq<Obs>)
    requires |obs| == |ops|
    requires forall op <- ops :: op.DiskRequest? && op.unit == u ==> !D.NegativeSector(op.req)
    ensures D.NoNegativeSector(Parts(u, ops, obs))
    decreases |ops|
  {
    if ops != [] {
      PartsAsked(u, ops[1..], obs[1..]);
      assert ops[0] in ops;
    }
  }
}
