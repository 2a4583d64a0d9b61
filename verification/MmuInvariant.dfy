/**
 What holds in every state the MMU can reach, whatever its callers ask of it, including the calls
 its documentation rules out.
 */
module MmuInvariant {
  import opened CInt
  import opened MmuTypes
  import opened LazyMmu

  // One entry of a table; `current` says that its tag is the current one.
  predicate PageOk(g: Page, current: bool, access: seq<int>)
  {
    && -1 <= g.frame < |access|
    && TwoBits(g.virtProt)
    && (g.realProt == PROT_NONE || g.realProt == PROT_READ || g.realProt == PROT_RW)
    && (g.frame == -1 ==> g.realProt == PROT_NONE && g.virtProt == PROT_NONE)
    && (!current ==> g.realProt == PROT_NONE)
    // The access bits never under-report.
    && (Readable(g.realProt) ==> HasRef(access[g.frame]))
    && (Writable(g.realProt) ==> HasDirty(access[g.frame]))
  }

  predicate PagesOk(s: State)
    requires Shape(s)
  {
    forall t, i :: 0 <= t < NUM_TAG && 0 <= i < s.cfg.numPages ==> PageOk(s.pages[t][i], t == s.tag, s.access)
  }

  // The host maps a page of the current tag to its recorded frame with its real protection, and
  // gives no access to an unmapped page.
  predicate HostAgreesAt(g: Page, h: HostPage) {
    if g.frame == -1 then h.prot == PROT_NONE else h == HostPage(FileFrame(g.frame), g.realProt)
  }

  predicate HostAgrees(s: State)
    requires Shape(s)
  {
    forall i :: 0 <= i < s.cfg.numPages ==> HostAgreesAt(Current(s)[i], s.host[i])
  }

  // The (tag, page) pairs that have a frame, over all four tables.
  function Live(s: State): set<(int, int)>
    requires Shape(s)
  {
    set t, i | 0 <= t < NUM_TAG && 0 <= i < s.cfg.numPages && s.pages[t][i].frame != -1 :: (t, i)
  }

  predicate Counted(s: State)
    requires Shape(s)
  {
    s.numMaps == |Live(s)| <= s.cfg.maxMaps
  }

  // In page-table mode only tag 0 is ever used, and there is a mapping to spare for every page.
  predicate ModeOk(s: State)
    requires Shape(s)
  {
    s.cfg.mode == MODE_PAGETABLE ==>
      && s.tag == 0
      && s.cfg.maxMaps == s.cfg.numPages
      && (forall t, i :: 1 <= t < NUM_TAG && 0 <= i < s.cfg.numPages ==> s.pages[t][i].frame == -1)
  }

  predicate BitsOk(s: State) {
    forall f :: 0 <= f < |s.access| ==> TwoBits(s.access[f])
  }

  predicate WellFormed(s: State) {
    Shape(s) && PagesOk(s) && HostAgrees(s) && Counted(s) && ModeOk(s) && BitsOk(s)
  }

  predicate MachineOk(m: Machine) {
    m.On? ==> WellFormed(m.s)
  }

  /* ---- Each operation keeps it ------------------------------------------------------------ */

  lemma StartedWellFormed(cfg: Config)
    requires cfg.mode == MODE_TLB || cfg.mode == MODE_PAGETABLE
    requires cfg.mode == MODE_PAGETABLE ==> cfg.maxMaps == cfg.numPages
    ensures WellFormed(Started(cfg))
  {
    assert Live(Started(cfg)) == {};
  }

  lemma MapKeeps(s: State, tag: int, page: int, frame: int, prot: int)
    requires WellFormed(s)
    requires s.cfg.mode == MODE_TLB || tag == 0
    ensures WellFormed(MapPage(s, tag, page, frame, prot).0)
  {
    var r := MapPage(s, tag, page, frame, prot);
    if r.1 == OK {
      MapCounted(s, tag, page, frame, prot);
      assert PagesOk(r.0);
      assert HostAgrees(r.0);
      assert ModeOk(r.0);
    }
  }

  lemma MapCounted(s: State, tag: int, page: int, frame: int, prot: int)
    requires Shape(s) && Counted(s)
    requires MapPage(s, tag, page, frame, prot).1 == OK
    ensures Counted(MapPage(s, tag, page, frame, prot).0)
  {
    var r := MapPage(s, tag, page, frame, prot).0;
    assert Live(r) == Live(s) + {(tag, page)};
    assert (tag, page) !in Live(s);
  }

  lemma UnmapKeeps(s: State, tag: int, page: int)
    requires WellFormed(s)
    ensures WellFormed(UnmapPage(s, tag, page).0)
  {
    var r := UnmapPage(s, tag, page);
    if r.1 == OK {
      assert Live(r.0) == Live(s) - {(tag, page)};
      assert (tag, page) in Live(s);
    }
  }

  lemma SameLive(s: State, r: State)
    requires Shape(s) && Shape(r) && r.cfg == s.cfg
    requires forall t, i :: 0 <= t < NUM_TAG && 0 <= i < s.cfg.numPages ==> r.pages[t][i].frame == s.pages[t][i].frame
    ensures Live(r) == Live(s)
  {
  }

  lemma SwitchKeeps(s: State, newTag: int)
    requires WellFormed(s) && 0 <= newTag < NUM_TAG && s.cfg.mode == MODE_TLB
    ensures WellFormed(SwitchTag(s, newTag))
  {
    SameLive(s, SwitchTag(s, newTag));
  }

  // Taking real access from a frame's pages down to what its access bits account for.
  lemma ProtectKeeps(s: State, frame: int, prot: int, bits: int)
    requires WellFormed(s) && 0 <= frame < s.cfg.numFrames && TwoBits(bits)
    requires prot == PROT_NONE || (prot == PROT_READ && HasRef(bits))
    ensures WellFormed(Protect(s.(access := s.access[frame := bits]), frame, prot, s.cfg.numPages))
  {
    var r := Protect(s.(access := s.access[frame := bits]), frame, prot, s.cfg.numPages);
    SameLive(s, r);
    forall t, i | 0 <= t < NUM_TAG && 0 <= i < s.cfg.numPages
      ensures PageOk(r.pages[t][i], t == r.tag, r.access)
    {
      assert PageOk(s.pages[t][i], t == s.tag, s.access);
    }
    forall i | 0 <= i < s.cfg.numPages
      ensures HostAgreesAt(Current(r)[i], r.host[i])
    {
      assert HostAgreesAt(Current(s)[i], s.host[i]);
    }
  }

  lemma BitsKeeps(s: State, frame: int, bits: int)
    requires WellFormed(s)
    ensures WellFormed(SetBits(s, frame, bits).0)
  {
    var r := SetBits(s, frame, bits);
    if r.1 == OK {
      if !HasRef(bits) {
        ProtectKeeps(s, frame, PROT_NONE, bits);
      } else if !HasDirty(bits) {
        ProtectKeeps(s, frame, PROT_READ, bits);
      } else {
        SameLive(s, r.0);
      }
    }
  }

  // Raising the real protection together with the access bit that records it.
  lemma RaiseKeeps(s: State, page: int, prot: int)
    requires WellFormed(s) && 0 <= page < s.cfg.numPages && Current(s)[page].frame != -1
    requires (prot == PROT_READ && Current(s)[page].realProt == PROT_NONE)
          || (prot == PROT_RW && Current(s)[page].realProt == PROT_READ)
    ensures
      var f := Current(s)[page].frame;
      var bits := if prot == PROT_READ then OrRef(s.access[f]) else OrDirty(s.access[f]);
      var r := SetReal(s, page, prot).(access := s.access[f := bits]);
      Shape(r) && PagesOk(r) && HostAgrees(r) && BitsOk(r)
  {
  }

  lemma HandleKeeps(s: State, page: int)
    requires WellFormed(s)
    ensures WellFormed(Handle(s, page).0)
  {
    var h := Handle(s, page);
    SameLive(s, h.0);
    if h.1.Retry? {
      var g := Current(s)[page];
      RaiseKeeps(s, page, if g.realProt == PROT_NONE then PROT_READ else PROT_RW);
    }
  }

  lemma MemoryKeeps(s: State, mem: seq<seq<byte>>)
    requires WellFormed(s) && Shape(s.(mem := mem))
    ensures WellFormed(s.(mem := mem))
  {
    SameLive(s, s.(mem := mem));
  }

  lemma {:induction false} AccessKeeps(s: State, addr: int, req: Request)
    requires WellFormed(s)
    ensures WellFormed(Access(s, addr, req).0)
    decreases 2 - Level(s, PageIndex(addr, s.cfg.pageSize))
  {
    if Permits(s, addr, req.Writing?) {
      MemoryKeeps(s, Perform(s, addr, req).0.mem);
    } else {
      var h := Handle(s, PageIndex(addr, s.cfg.pageSize));
      HandleKeeps(s, PageIndex(addr, s.cfg.pageSize));
      if h.1.Retry? {
        AccessKeeps(h.0, addr, req);
      }
    }
  }

  lemma {:induction false} UnmapFromKeeps(s: State, i: int)
    requires WellFormed(s) && 0 <= i <= s.cfg.numPages
    ensures WellFormed(UnmapFrom(s, i))
    decreases s.cfg.numPages - i
  {
    if i < s.cfg.numPages {
      UnmapKeeps(s, 0, i);
      UnmapFromKeeps(UnmapPage(s, 0, i).0, i + 1);
    }
  }

  lemma {:induction false} MapFromKeeps(s: State, ptes: seq<Pte>, i: int)
    requires WellFormed(s) && 0 <= i <= s.cfg.numPages <= |ptes|
    ensures WellFormed(MapFrom(s, ptes, i).0)
    decreases s.cfg.numPages - i
  {
    if i < s.cfg.numPages {
      if !ptes[i].incore {
        MapFromKeeps(s, ptes, i + 1);
      } else if WantedProt(ptes[i]).Wanted? {
        MapKeeps(s, 0, i, ptes[i].frame, WantedProt(ptes[i]).prot);
        var r := MapPage(s, 0, i, ptes[i].frame, WantedProt(ptes[i]).prot);
        if r.1 == OK {
          MapFromKeeps(r.0, ptes, i + 1);
        }
      }
    }
  }

  lemma InitKeeps(op: Op)
    requires op.Init?
    ensures MachineOk(StepOff(op).0)
  {
    if InitStatus(op.numMaps, op.numPages, op.numFrames, op.mode) == OK {
      StartedWellFormed(Config(op.numPages, op.numFrames, op.pageSize,
                               InitMaxMaps(op.numMaps, op.numPages, op.mode), op.mode));
    }
  }

  lemma InstallKeeps(s: State, table: PageTable)
    requires WellFormed(s) && (table.Table? ==> s.cfg.numPages <= |table.ptes|)
    ensures WellFormed(InstallTable(s, table).0)
  {
    UnmapFromKeeps(s, 0);
    if table.Table? {
      MapFromKeeps(UnmapFrom(s, 0), table.ptes, 0);
    }
  }

  lemma MappingStepKeeps(s: State, op: Op)
    requires WellFormed(s) && Callable(On(s), op)
    requires op.Map? || op.Unmap? || op.SetTag? || op.SetAccess? || op.SetPageTable?
    ensures MachineOk(StepOn(s, op).0)
  {
    match op
    case Map(tag, page, frame, prot) =>
      if s.cfg.mode == MODE_TLB { MapKeeps(s, tag, page, frame, prot); }
    case Unmap(tag, page) => UnmapKeeps(s, tag, page);
    case SetTag(newTag) =>
      if s.cfg.mode == MODE_TLB && 0 <= newTag < NUM_TAG { SwitchKeeps(s, newTag); }
    case SetAccess(frame, bits) => BitsKeeps(s, frame, bits);
    case SetPageTable(table) => InstallKeeps(s, table);
  }

  lemma MemoryStepKeeps(s: State, op: Op)
    requires WellFormed(s) && (op.Load? || op.Store? || op.PokeFrame?)
    ensures MachineOk(StepOn(s, op).0)
  {
    match op
    case Load(addr) => AccessKeeps(s, addr, Reading);
    case Store(addr, b) => AccessKeeps(s, addr, Writing(b));
    case PokeFrame(f, o, b) =>
      if f < s.cfg.numFrames && o < s.cfg.pageSize { MemoryKeeps(s, WithByte(s.mem, f, o, b)); }
  }

  // Whatever is asked of it, documented or not, the MMU keeps its tables, its counter, its access
  // bits and the host's mapping consistent.
  lemma StepKeeps(m: Machine, op: Op)
    requires MachineOk(m) && Callable(m, op)
    ensures MachineOk(Step(m, op).0)
  {
    if m.Off? {
      if op.Init? { InitKeeps(op); }
    } else if op.Map? || op.Unmap? || op.SetTag? || op.SetAccess? || op.SetPageTable? {
      MappingStepKeeps(m.s, op);
    } else if op.Load? || op.Store? || op.PokeFrame? {
      MemoryStepKeeps(m.s, op);
    }
  }
}
