/**
 How much work the fault handler does, and what every run, documented or not, leaves intact.
 */
module MmuFaults {
  import opened MmuTypes
  import opened LazyMmu
  import opened MmuInvariant
  import opened MmuRefinement

  // The silent runs of the handler an access to page g costs: one per access bit it is about to set
  // that the page has not earned yet.
  function SilentRuns(g: Page, req: Request): int {
    if g.frame == -1 then 0
    else match req
      case Reading => if Readable(g.virtProt) && g.realProt == PROT_NONE then 1 else 0
      case Writing(_) => LevelOf(g.virtProt) - LevelOf(g.realProt)
  }

  predicate Allows(g: Page, req: Request) {
    g.frame != -1 && (if req.Writing? then Writable(g.virtProt) else Readable(g.virtProt))
  }

  // A load or store in the region ends in success or in one delivered interrupt, after exactly
  // SilentRuns runs of the handler: never more than two, and never more than the gap between the
  // page's virtual and real protection.
  lemma {:induction false} BoundedFaults(s: State, addr: int, req: Request)
    requires WellFormed(s) && Sound(s) && InRegion(s.cfg, addr)
    ensures
      var r, g := Access(s, addr, req), PageAt(s, addr);
      && r.2 == SilentRuns(g, req)
      && r.2 <= LevelOf(g.virtProt) - LevelOf(g.realProt) <= 2
      && (r.1.Loaded? || r.1.Stored? <==> Allows(g, req))
      && (!Allows(g, req) ==> r.1 == Trap(if g.frame == -1 then CAUSE_FAULT else CAUSE_ACCESS, addr))
    decreases 2 - Level(s, PageIndex(addr, s.cfg.pageSize))
  {
    var page := addr / s.cfg.pageSize;
    InRegionIndex(s.cfg, addr);
    HandlerStep(s, page, req);
    if !Permits(s, addr, req.Writing?) {
      var h := Handle(s, page);
      if h.1.Retry? {
        BoundedFaults(h.0, addr, req);
      }
    }
  }

  // What the handler leaves of the faults to come: one less, or an interrupt.
  lemma HandlerStep(s: State, page: int, req: Request)
    requires WellFormed(s) && Sound(s) && 0 <= page < s.cfg.numPages
    ensures
      var h, g, prot := Handle(s, page), Current(s)[page], s.host[page].prot;
      && WellFormed(h.0) && Sound(h.0)
      && (if (if req.Writing? then Writable(prot) else Readable(prot)) then SilentRuns(g, req) == 0 && Allows(g, req)
          else if h.1.Retry? then
            var g' := Current(h.0)[page];
            && SilentRuns(g, req) == SilentRuns(g', req) + 1
            && g' == g.(realProt := g'.realProt) && LevelOf(g'.realProt) == LevelOf(g.realProt) + 1
          else
            && h.1 == Interrupt(if g.frame == -1 then CAUSE_FAULT else CAUSE_ACCESS)
            && SilentRuns(g, req) == 0 && !Allows(g, req))
      && 0 <= LevelOf(g.virtProt) - LevelOf(g.realProt)
  {
    var g := Current(s)[page];
    assert HostAgreesAt(g, s.host[page]);
    assert PageOk(g, true, s.access);
    assert SoundPage(g);
    HandlePage(s, page);
    HandleKeeps(s, page);
  }

  // However it is called, the MMU never loses count of its mappings, never leaves the range of its
  // tables, never disagrees with the host and never forgets an access.
  lemma {:induction false} EveryRunKeeps(m: Machine, ops: seq<Op>)
    requires MachineOk(m) && Runnable(m, ops)
    ensures MachineOk(Run(m, ops).0)
    decreases |ops|
  {
    if ops != [] {
      StepKeeps(m, ops[0]);
      var one := Step(m, ops[0]);
      if !one.1.Fatal() {
        EveryRunKeeps(one.0, ops[1..]);
      }
    }
  }
}
