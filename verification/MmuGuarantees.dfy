/**
 What a caller of the MMU gets, in the numbers of usloss.h: protections 0, 1 and 3, access bits 1 and
 2, causes 1 and 2, and the error codes, over the state of the program.
 */
module MmuGuarantees {
  import opened CInt
  import opened MmuTypes
  import opened LazyMmu
  import opened MmuInvariant
  import opened MmuRefinement
  import Spec = EagerMmu

  /* ---- What an access does ---------------------------------------------------------------- */

  predicate MayLoad(prot: int) {
    prot == 1 || prot == 3
  }

  // The access bits of a frame once it has been referred to.
  function Marked(bits: int): int {
    if bits == 0 then 1 else if bits == 2 then 3 else bits
  }

  // What an access answers and leaves: its observation, the memory, the access bits and the cause.
  predicate Leaves(s: State, op: Op, o: Obs, mem: seq<seq<byte>>, access: seq<int>, cause: int)
    requires Shape(s) && Callable(On(s), op)
  {
    var r := Step(On(s), op);
    r.1 == o && r.0.On? && r.0.s.mem == mem && r.0.s.access == access && r.0.s.cause == cause
  }

  // Accesses to a page with a frame and a protection: the byte of the frame, or an access interrupt.
  predicate Loads(s: State, addr: int, frame: int, prot: int)
    requires Shape(s) && 0 <= frame < s.cfg.numFrames
  {
    if MayLoad(prot) then
      Leaves(s, Load(addr), Loaded(s.mem[frame][addr % s.cfg.pageSize]), s.mem, Referred(s, frame), s.cause)
    else Leaves(s, Load(addr), Trap(2, addr), s.mem, s.access, 2)
  }

  predicate Stores(s: State, addr: int, frame: int, prot: int, b: byte)
    requires Shape(s) && 0 <= frame < s.cfg.numFrames
  {
    if prot == 3 then
      Leaves(s, Store(addr, b), Stored, WithByte(s.mem, frame, addr % s.cfg.pageSize, b),
             s.access[frame := 3], s.cause)
    else Leaves(s, Store(addr, b), Trap(2, addr), s.mem, if MayLoad(prot) then Referred(s, frame) else s.access, 2)
  }

  function Referred(s: State, frame: int): seq<int>
    requires Shape(s) && 0 <= frame < s.cfg.numFrames
  {
    s.access[frame := Marked(s.access[frame])]
  }

  ghost predicate Reaches(s: State, addr: int, frame: int, prot: int)
    requires Shape(s)
  {
    && 0 <= frame < s.cfg.numFrames
    && Loads(s, addr, frame, prot)
    && forall b: byte :: Stores(s, addr, frame, prot, b)
  }

  // Without a frame every access is a fault.
  ghost predicate Faults(s: State, addr: int)
    requires Shape(s)
  {
    && Leaves(s, Load(addr), Trap(1, addr), s.mem, s.access, 1)
    && (forall b: byte :: Leaves(s, Store(addr, b), Trap(1, addr), s.mem, s.access, 1))
  }

  lemma AbsentFaults(s: State, addr: int)
    requires SoundMachine(On(s)) && InRegion(s.cfg, addr)
    requires Abs(s).maps[s.tag][addr / s.cfg.pageSize] == Spec.Absent
    ensures Faults(s, addr)
  {
    LoadLeaves(s, addr);
    forall b: byte
      ensures Leaves(s, Store(addr, b), Trap(1, addr), s.mem, s.access, 1)
    {
      StoreLeaves(s, addr, b);
    }
  }

  lemma PresentReaches(s: State, addr: int, frame: int, prot: int)
    requires SoundMachine(On(s)) && InRegion(s.cfg, addr)
    requires Abs(s).maps[s.tag][addr / s.cfg.pageSize] == Spec.Present(frame, prot)
    ensures Reaches(s, addr, frame, prot)
  {
    LoadReaches(s, addr, frame, prot);
    forall b: byte
      ensures Stores(s, addr, frame, prot, b)
    {
      StoreReaches(s, addr, frame, prot, b);
    }
  }

  lemma LoadReaches(s: State, addr: int, frame: int, prot: int)
    requires SoundMachine(On(s)) && InRegion(s.cfg, addr)
    requires Abs(s).maps[s.tag][addr / s.cfg.pageSize] == Spec.Present(frame, prot)
    ensures 0 <= frame < s.cfg.numFrames && Loads(s, addr, frame, prot)
  {
    BitsMarked(s, addr);
    EagerLoad(Abs(s), addr, frame, prot);
    LoadLeaves(s, addr);
  }

  lemma StoreReaches(s: State, addr: int, frame: int, prot: int, b: byte)
    requires SoundMachine(On(s)) && InRegion(s.cfg, addr)
    requires Abs(s).maps[s.tag][addr / s.cfg.pageSize] == Spec.Present(frame, prot)
    ensures 0 <= frame < s.cfg.numFrames && Stores(s, addr, frame, prot, b)
  {
    BitsMarked(s, addr);
    EagerStore(Abs(s), addr, frame, prot, b);
    StoreLeaves(s, addr, b);
  }

  // The same of the eager MMU.
  lemma EagerLoad(e: Spec.Eager, addr: int, frame: int, prot: int)
    requires Spec.Shape(e) && InRegion(e.cfg, addr) && 0 <= frame < e.cfg.numFrames
    requires e.maps[e.tag][addr / e.cfg.pageSize] == Spec.Present(frame, prot)
    requires OrRef(e.access[frame]) == Marked(e.access[frame])
    ensures
      var r := EagerAccess(e, addr, Reading);
      && r.1 == (if MayLoad(prot) then Loaded(e.mem[frame][addr % e.cfg.pageSize]) else Trap(2, addr))
      && r.0.mem == e.mem && r.0.cause == (if MayLoad(prot) then e.cause else 2)
      && r.0.access == if MayLoad(prot) then e.access[frame := Marked(e.access[frame])] else e.access
  {
  }

  lemma EagerStore(e: Spec.Eager, addr: int, frame: int, prot: int, b: byte)
    requires Spec.Shape(e) && InRegion(e.cfg, addr) && 0 <= frame < e.cfg.numFrames
    requires e.maps[e.tag][addr / e.cfg.pageSize] == Spec.Present(frame, prot)
    requires OrRef(e.access[frame]) == Marked(e.access[frame]) && OrDirty(OrRef(e.access[frame])) == 3
    ensures
      var r := EagerAccess(e, addr, Writing(b));
      && r.1 == (if prot == 3 then Stored else Trap(2, addr))
      && r.0.mem == (if prot == 3 then WithByte(e.mem, frame, addr % e.cfg.pageSize, b) else e.mem)
      && r.0.cause == (if prot == 3 then e.cause else 2)
      && r.0.access ==
           if prot == 3 then e.access[frame := 3]
           else if MayLoad(prot) then e.access[frame := Marked(e.access[frame])] else e.access
  {
  }

  lemma LoadLeaves(s: State, addr: int)
    requires SoundMachine(On(s)) && InRegion(s.cfg, addr)
    ensures
      var e := EagerAccess(Abs(s), addr, Reading);
      Leaves(s, Load(addr), e.1, e.0.mem, e.0.access, e.0.cause)
  {
    AccessRefines(s, addr, Reading);
    LoadStep(s, addr);
    AbsParts(Access(s, addr, Reading).0);
  }

  lemma StoreLeaves(s: State, addr: int, b: byte)
    requires SoundMachine(On(s)) && InRegion(s.cfg, addr)
    ensures
      var e := EagerAccess(Abs(s), addr, Writing(b));
      Leaves(s, Store(addr, b), e.1, e.0.mem, e.0.access, e.0.cause)
  {
    AccessRefines(s, addr, Writing(b));
    StoreStep(s, addr, b);
    AbsParts(Access(s, addr, Writing(b)).0);
  }

  // A load or a store of the machine is one access, with its silent runs.
  lemma LoadStep(s: State, addr: int)
    requires Shape(s)
    ensures
      var r := Access(s, addr, Reading);
      Step(On(s), Load(addr)) == (On(r.0), r.1)
  {
  }

  lemma StoreStep(s: State, addr: int, b: byte)
    requires Shape(s)
    ensures
      var r := Access(s, addr, Writing(b));
      Step(On(s), Store(addr, b)) == (On(r.0), r.1)
  {
  }

  lemma AbsParts(s: State)
    requires Shape(s)
    ensures Abs(s).mem == s.mem && Abs(s).access == s.access && Abs(s).cause == s.cause
  {
  }

  lemma BitsMarked(s: State, addr: int)
    requires SoundMachine(On(s)) && InRegion(s.cfg, addr)
    ensures
      var g := Abs(s).maps[s.tag][addr / s.cfg.pageSize];
      g.Present? ==>
        && (g.prot == 0 || g.prot == 1 || g.prot == 3)
        && OrRef(s.access[g.frame]) == Marked(s.access[g.frame])
        && OrDirty(OrRef(s.access[g.frame])) == 3
  {
    var g := Current(s)[addr / s.cfg.pageSize];
    assert Abs(s).maps[s.tag][addr / s.cfg.pageSize] == AbsPage(g);
    assert SoundPage(g);
  }

  /* ---- Page tables ------------------------------------------------------------------------ */

  // An entry that cannot be installed: write-only, or with a frame that does not exist.
  predicate Bad(cfg: Config, pte: Pte) {
    pte.incore && ((pte.write && !pte.read) || pte.frame >= cfg.numFrames)
  }

  lemma BadStatus(cfg: Config, pte: Pte)
    ensures Spec.EntryStatus(cfg, pte) ==
      if !Bad(cfg, pte) then 0 else if pte.write && !pte.read then 5 else 4
  {
  }

  lemma EntryGrants(cfg: Config, pte: Pte)
    requires !Bad(cfg, pte)
    ensures Spec.EntryStatus(cfg, pte) == OK
    ensures Spec.EntryOf(pte) ==
      if pte.incore then Spec.Present(pte.frame, if pte.write then 3 else if pte.read then 1 else 0) else Spec.Absent
  {
  }

  // After USLOSS_MmuSetPageTable, whatever its status, a page can be loaded from if and only if its
  // entry is in core and readable, and stored to if and only if it is writable as well, up to the
  // first entry that cannot be installed; from there on, and on pages not in core, accesses fault.
  lemma TableGrants(s: State, ptes: seq<Pte>, addr: int)
    requires SoundMachine(On(s)) && s.cfg.mode == 2 && s.cfg.numPages <= |ptes| && InRegion(s.cfg, addr)
    ensures
      var m := Step(On(s), SetPageTable(Table(ptes))).0;
      var page := addr / s.cfg.pageSize;
      var pte := ptes[page];
      && m.On? && m.s.mem == s.mem && m.s.access == s.access
      && if pte.incore && (forall j :: 0 <= j <= page ==> !Bad(s.cfg, ptes[j])) then
           Reaches(m.s, addr, pte.frame, if pte.write then 3 else if pte.read then 1 else 0)
         else Faults(m.s, addr)
  {
    var page := addr / s.cfg.pageSize;
    InstallTold(s, Table(ptes));
    FirstBadExactly(s.cfg, ptes, page);
    var pte, m := ptes[page], Step(On(s), SetPageTable(Table(ptes))).0.s;
    if page < Spec.FirstBad(s.cfg, ptes, 0) && pte.incore {
      EntryGrants(s.cfg, pte);
      PresentReaches(m, addr, pte.frame, if pte.write then 3 else if pte.read then 1 else 0);
    } else {
      EntryGrants(s.cfg, Pte(false, false, false, 0));
      AbsentFaults(m, addr);
    }
  }

  lemma FirstBadExactly(cfg: Config, ptes: seq<Pte>, page: nat)
    requires page < cfg.numPages <= |ptes|
    ensures page < Spec.FirstBad(cfg, ptes, 0) <==> forall j :: 0 <= j <= page ==> !Bad(cfg, ptes[j])
  {
    forall j | 0 <= j < |ptes|
      ensures Spec.EntryStatus(cfg, ptes[j]) == OK <==> !Bad(cfg, ptes[j])
    {
      BadStatus(cfg, ptes[j]);
    }
  }

  // Its status: 0 if and only if no entry is bad, and otherwise what is wrong with the first one.
  lemma TableAnswers(s: State, ptes: seq<Pte>)
    requires SoundMachine(On(s)) && s.cfg.mode == 2 && s.cfg.numPages <= |ptes|
    ensures
      var o := Step(On(s), SetPageTable(Table(ptes))).1;
      && ((forall j :: 0 <= j < s.cfg.numPages ==> !Bad(s.cfg, ptes[j])) <==> o == Status(0))
      && (forall i :: 0 <= i < s.cfg.numPages && Bad(s.cfg, ptes[i]) ==>
            (forall j :: 0 <= j < i ==> !Bad(s.cfg, ptes[j])) ==>
            o == Status(if ptes[i].write && !ptes[i].read then 5 else 4))
  {
    InstallTold(s, Table(ptes));
    forall j | 0 <= j < s.cfg.numPages
      ensures Spec.EntryStatus(s.cfg, ptes[j]) ==
        if !Bad(s.cfg, ptes[j]) then 0 else if ptes[j].write && !ptes[j].read then 5 else 4
    {
      BadStatus(s.cfg, ptes[j]);
    }
  }

  // So of a table that is accepted.
  lemma TableOutcomes(s: State, ptes: seq<Pte>, page: int, addr: int, b: byte)
    requires SoundMachine(On(s)) && s.cfg.mode == 2 && s.cfg.numPages <= |ptes|
    requires Step(On(s), SetPageTable(Table(ptes))).1 == Status(0)
    requires InRegion(s.cfg, addr) && addr / s.cfg.pageSize == page && 0 <= page
    ensures
      var m, pte := Step(On(s), SetPageTable(Table(ptes))).0, ptes[page];
      var load, store := Step(m, Load(addr)).1, Step(m, Store(addr, b)).1;
      && (load.Loaded? <==> pte.incore && pte.read)
      && (store.Stored? <==> pte.incore && pte.read && pte.write)
      && (!load.Loaded? ==> load == Trap(if pte.incore then 2 else 1, addr))
      && (!store.Stored? ==> store == Trap(if pte.incore then 2 else 1, addr))
  {
    TableAnswers(s, ptes);
    TableGrants(s, ptes, addr);
    var m, pte := Step(On(s), SetPageTable(Table(ptes))).0.s, ptes[page];
    assert !Bad(s.cfg, pte);
    if pte.incore {
      ReachesOutcome(m, addr, pte.frame, if pte.write then 3 else if pte.read then 1 else 0, b);
    } else {
      FaultsOutcome(m, addr, b);
    }
  }

  lemma ReachesOutcome(s: State, addr: int, frame: int, prot: int, b: byte)
    requires Shape(s) && Reaches(s, addr, frame, prot)
    ensures
      var load, store := Step(On(s), Load(addr)).1, Step(On(s), Store(addr, b)).1;
      && (if MayLoad(prot) then load.Loaded? else load == Trap(2, addr))
      && (if prot == 3 then store.Stored? else store == Trap(2, addr))
  {
    assert Stores(s, addr, frame, prot, b);
  }

  lemma FaultsOutcome(s: State, addr: int, b: byte)
    requires Shape(s) && Faults(s, addr)
    ensures Step(On(s), Load(addr)).1 == Trap(1, addr) && Step(On(s), Store(addr, b)).1 == Trap(1, addr)
  {
  }

  lemma NoTableFaults(s: State, addr: int)
    requires SoundMachine(On(s)) && s.cfg.mode == 2 && InRegion(s.cfg, addr)
    ensures
      var r := Step(On(s), SetPageTable(NoTable));
      r.1 == Status(0) && r.0.On? && Faults(r.0.s, addr)
  {
    InstallTold(s, NoTable);
    AbsentFaults(Step(On(s), SetPageTable(NoTable)).0.s, addr);
  }

  lemma InstallTold(s: State, table: PageTable)
    requires SoundMachine(On(s)) && s.cfg.mode == 2 && (table.Table? ==> s.cfg.numPages <= |table.ptes|)
    ensures
      var r := Step(On(s), SetPageTable(table));
      && SoundMachine(r.0) && r.0.On? && r.0.s.cfg == s.cfg && r.0.s.tag == 0
      && r.0.s.mem == s.mem && r.0.s.access == s.access
      && r.1 == Status(Spec.TableStatus(s.cfg, table))
      && Abs(r.0.s).maps[0] == Spec.TableRow(s.cfg, table)
  {
    StepRefines(On(s), SetPageTable(table));
    InstallRefines(s, table);
    var r := InstallTable(s, table);
    assert Abs(r.0) == Spec.LoadTable(Abs(s), table).0;
    assert Abs(r.0).mem == r.0.mem && Abs(r.0).access == r.0.access && Abs(r.0).tag == r.0.tag;
  }

  /* ---- Single mappings -------------------------------------------------------------------- */

  // What USLOSS_MmuMap answers, in the order of its tests.
  lemma MapAnswers(s: State, tag: int, page: int, frame: int, prot: int)
    requires WellFormed(s) && s.cfg.mode == 1
    ensures Step(On(s), Map(tag, page, frame, prot)).1 == Status(
      if !(0 <= page < s.cfg.numPages) then 3
      else if !(0 <= frame < s.cfg.numFrames) then 4
      else if |Live(s)| == s.cfg.maxMaps then 10
      else if !(0 <= prot <= 3) then 5
      else if !(0 <= tag <= 3) then 6
      else if s.pages[tag][page].frame != -1 then 7
      else 0)
  {
  }

  // After a mapping under a tag it is told by USLOSS_MmuGetMap, and the other mappings are as they were.
  lemma MapTold(s: State, tag: int, page: int, frame: int, prot: int)
    requires WellFormed(s) && s.cfg.mode == 1 && Step(On(s), Map(tag, page, frame, prot)).1 == Status(0)
    ensures
      var m := Step(On(s), Map(tag, page, frame, prot)).0;
      && m == On(MapPage(s, tag, page, frame, prot).0)
      && m.s.mem == s.mem && m.s.access == s.access && m.s.cfg == s.cfg
      && 0 <= tag <= 3 && 0 <= page < s.cfg.numPages && m.s.pages[tag][page] == Page(frame, prot, 0)
      && Step(m, GetMap(tag, page, false)).1 == Mapping(frame, prot)
      && (forall t, p :: t != tag || p != page ==>
            Step(m, GetMap(t, p, false)).1 == Step(On(s), GetMap(t, p, false)).1)
  {
  }

  // And under that tag the page can be accessed as its protection says.
  lemma MapGrants(s: State, tag: int, page: int, frame: int, prot: int, addr: int)
    requires SoundMachine(On(s)) && s.cfg.mode == 1 && (prot == 0 || prot == 1 || prot == 3)
    requires Step(On(s), Map(tag, page, frame, prot)).1 == Status(0)
    requires InRegion(s.cfg, addr) && addr / s.cfg.pageSize == page
    ensures
      var n := Step(Step(On(s), Map(tag, page, frame, prot)).0, SetTag(tag));
      && n.1 == Status(0) && n.0.On? && n.0.s.mem == s.mem && Step(n.0, GetTag(false)).1 == Answer(tag)
      && Reaches(n.0.s, addr, frame, prot)
  {
    MapTold(s, tag, page, frame, prot);
    MapSound(s, tag, page, frame, prot);
    MapKeeps(s, tag, page, frame, prot);
    TagShows(MapPage(s, tag, page, frame, prot).0, tag, addr);
  }

  // Under a tag its own mappings are in force.
  lemma TagShows(s: State, tag: int, addr: int)
    requires SoundMachine(On(s)) && s.cfg.mode == 1 && 0 <= tag <= 3 && InRegion(s.cfg, addr)
    ensures
      var g, n := s.pages[tag][addr / s.cfg.pageSize], Step(On(s), SetTag(tag));
      && n.1 == Status(0) && n.0.On? && n.0.s.mem == s.mem && Step(n.0, GetTag(false)).1 == Answer(tag)
      && if g.frame == -1 then Faults(n.0.s, addr) else Reaches(n.0.s, addr, g.frame, g.virtProt)
  {
    TagStep(s, tag);
    TagInForce(s, tag, addr);
  }

  lemma TagInForce(s: State, tag: int, addr: int)
    requires SoundMachine(On(s)) && s.cfg.mode == 1 && 0 <= tag <= 3 && InRegion(s.cfg, addr)
    ensures
      var g, r := s.pages[tag][addr / s.cfg.pageSize], SwitchTag(s, tag);
      if g.frame == -1 then Faults(r, addr) else Reaches(r, addr, g.frame, g.virtProt)
  {
    SwitchKeeps(s, tag);
    SwitchRefines(s, tag);
    var r, g := SwitchTag(s, tag), s.pages[tag][addr / s.cfg.pageSize];
    assert Abs(s).maps[tag][addr / s.cfg.pageSize] == AbsPage(g);
    if g.frame == -1 {
      AbsentFaults(r, addr);
    } else {
      PresentReaches(r, addr, g.frame, g.virtProt);
    }
  }

  lemma TagStep(s: State, tag: int)
    requires Shape(s) && s.cfg.mode == 1 && 0 <= tag <= 3
    ensures
      var r := SwitchTag(s, tag);
      && Step(On(s), SetTag(tag)) == (On(r), Status(0)) && Step(On(r), GetTag(false)).1 == Answer(tag)
      && r.tag == tag && r.cfg == s.cfg && r.mem == s.mem && r.access == s.access
  {
  }

  // After an unmapping the page is told as unmapped, and faults under its tag.
  lemma UnmapFaults(s: State, tag: int, page: int, addr: int)
    requires SoundMachine(On(s)) && s.cfg.mode == 1 && InRegion(s.cfg, addr) && addr / s.cfg.pageSize == page
    requires 0 <= tag <= 3 && s.pages[tag][page].frame != -1
    ensures
      var r := Step(On(s), Unmap(tag, page));
      && r.1 == Status(0) && r.0.On? && Step(r.0, GetMap(tag, page, false)).1 == Status(8)
      && var n := Step(r.0, SetTag(tag)).0;
      && n.On? && Faults(n.s, addr)
  {
    UnmapTold(s, tag, page);
    UnmapSound(s, tag, page);
    UnmapKeeps(s, tag, page);
    TagShows(UnmapPage(s, tag, page).0, tag, addr);
  }

  lemma UnmapTold(s: State, tag: int, page: int)
    requires WellFormed(s) && s.cfg.mode == 1 && 0 <= tag <= 3 && 0 <= page < s.cfg.numPages
    requires s.pages[tag][page].frame != -1
    ensures
      var r := Step(On(s), Unmap(tag, page));
      && r == (On(UnmapPage(s, tag, page).0), Status(0))
      && r.0.s.cfg == s.cfg && r.0.s.pages[tag][page].frame == -1
      && Step(r.0, GetMap(tag, page, false)).1 == Status(8)
  {
  }

  // The other answers.
  lemma OtherAnswers(s: State, tag: int, page: int, frame: int, bits: int)
    requires WellFormed(s) && s.cfg.mode == 1
    ensures Step(On(s), Unmap(tag, page)).1 == Status(
      if !(0 <= page < s.cfg.numPages) then 3 else if !(0 <= tag <= 3) then 6
      else if s.pages[tag][page].frame == -1 then 8 else 0)
    ensures Step(On(s), SetTag(tag)).1 == Status(if 0 <= tag <= 3 then 0 else 6)
    ensures Step(On(s), SetAccess(frame, bits)).1 == Status(
      if !(0 <= frame < s.cfg.numFrames) then 4 else if !(0 <= bits <= 3) then 9 else 0)
    ensures Step(On(s), SetPageTable(NoTable)).1 == Status(11)
    ensures Step(On(s), Done) == (Off, Status(0))
    ensures Step(On(s), GetCause).1 == Answer(s.cause)
  {
  }

  // In page-table mode the calls of the other mode are refused; and an MMU that is on cannot be started.
  lemma ModeAnswers(s: State, op: Op)
    requires Shape(s)
    ensures s.cfg.mode == 2 && (op.Map? || op.Unmap? || op.SetTag? || op.GetMap? || op.GetTag?) ==>
      Step(On(s), op) == (On(s), Status(11))
    ensures op.Init? ==> Step(On(s), op) == (On(s), Status(2))
  {
  }

  // Null pointers are refused once the rest is right, and nothing else is.
  lemma NullAnswers(s: State, tag: int, page: int, frame: int, isNull: bool)
    requires WellFormed(s) && s.cfg.mode == 1
    ensures Step(On(s), GetMap(tag, page, isNull)) == (On(s),
      if !(0 <= page < s.cfg.numPages) then Status(3) else if !(0 <= tag <= 3) then Status(6)
      else if s.pages[tag][page].frame == -1 then Status(8) else if isNull then Status(12)
      else Mapping(s.pages[tag][page].frame, s.pages[tag][page].virtProt))
    ensures Step(On(s), GetAccess(frame, isNull)) == (On(s),
      if !(0 <= frame < s.cfg.numFrames) then Status(4) else if isNull then Status(12) else Answer(s.access[frame]))
    ensures Step(On(s), GetTag(isNull)) == (On(s), if isNull then Status(12) else Answer(s.tag))
  {
  }

  // Direct accesses to physical memory, which mark nothing.
  lemma FramesTold(s: State, f: nat, o: nat, b: byte)
    requires Shape(s)
    ensures
      var there := f < s.cfg.numFrames && o < s.cfg.pageSize;
      && Step(On(s), PeekFrame(f, o)) == (On(s), if there then Loaded(s.mem[f][o]) else SegFault)
      && Step(On(s), PokeFrame(f, o, b)) ==
           if there then (On(s.(mem := WithByte(s.mem, f, o, b))), Stored) else (On(s), SegFault)
  {
  }

  // Access bits that are set are told, and nobody else's change.
  lemma BitsTold(s: State, frame: int, bits: int, other: int)
    requires WellFormed(s) && 0 <= frame < s.cfg.numFrames && 0 <= bits <= 3 && 0 <= other < s.cfg.numFrames
    ensures
      var m := Step(On(s), SetAccess(frame, bits)).0;
      && Step(m, GetAccess(frame, false)).1 == Answer(bits)
      && (other != frame ==> Step(m, GetAccess(other, false)).1 == Answer(s.access[other]))
  {
  }

  /* ---- Starting --------------------------------------------------------------------------- */

  lemma InitAnswers(numMaps: int32, numPages: int32, numFrames: int32, pageSize: pos, mode: int)
    ensures
      var r := Step(Off, Init(numMaps, numPages, numFrames, pageSize, mode));
      && r.1 == Status(
           if numPages < 1 then 3 else if numFrames < 1 then 4 else if mode == 2 then 0
           else if mode != 1 then 11 else if 1 <= numMaps <= 4 * numPages then 0 else 10)
      && (r.1 != Status(0) ==> r.0 == Off)
      && (r.1 == Status(0) ==>
            && r.0.On? && SoundMachine(r.0)
            && r.0.s.cfg == Config(numPages, numFrames, pageSize, if mode == 2 then numPages else numMaps, mode)
            && Live(r.0.s) == {} && r.0.s.tag == 0 && r.0.s.cause == 0
            && (forall f :: 0 <= f < numFrames ==> r.0.s.access[f] == 0)
            && (forall f, o :: 0 <= f < numFrames && 0 <= o < pageSize ==> r.0.s.mem[f][o] == 56))
  {
    var op := Init(numMaps, numPages, numFrames, pageSize, mode);
    if Step(Off, op).1 == Status(0) {
      StepRefines(Off, op);
    }
  }

  lemma OffAnswers(op: Op)
    requires !op.Init?
    ensures Step(Off, op) == (Off,
      if op.GetCause? then Answer(0)
      else if op.Load? || op.Store? || op.PeekFrame? || op.PokeFrame? then SegFault
      else Status(1))
  {
  }

  // Mappings of different pages and tags, all within the MMU.
  predicate NewMappings(s: State, ops: seq<Op>)
    requires Shape(s)
  {
    && (forall i :: 0 <= i < |ops| ==>
          && ops[i].Map? && 0 <= ops[i].tag <= 3 && 0 <= ops[i].page < s.cfg.numPages
          && 0 <= ops[i].frame < s.cfg.numFrames && 0 <= ops[i].prot <= 3
          && s.pages[ops[i].tag][ops[i].page].frame == -1)
    && (forall i, j :: 0 <= i < j < |ops| ==> ops[i].tag != ops[j].tag || ops[i].page != ops[j].page)
  }

  // Of so many requests for new mappings the MMU grants the first ones, up to the number it was
  // started with, and answers ERR_MAPS to the rest.
  lemma {:induction false} FillsUp(s: State, ops: seq<Op>)
    requires WellFormed(s) && s.cfg.mode == 1 && NewMappings(s, ops)
    ensures Runnable(On(s), ops) && |Run(On(s), ops).1| == |ops|
    ensures forall i :: 0 <= i < |ops| ==>
      Run(On(s), ops).1[i] == Status(if |Live(s)| + i < s.cfg.maxMaps then 0 else 10)
    decreases |ops|
  {
    if ops != [] {
      var op, one := ops[0], Step(On(s), ops[0]);
      MapAnswers(s, op.tag, op.page, op.frame, op.prot);
      MapKeeps(s, op.tag, op.page, op.frame, op.prot);
      OneMore(s, op);
      FillsUp(one.0.s, ops[1..]);
      var rest := Run(one.0, ops[1..]).1;
      assert Run(On(s), ops).1 == [one.1] + rest;
    }
  }

  lemma OneMore(s: State, op: Op)
    requires WellFormed(s) && s.cfg.mode == 1 && op.Map? && 0 <= op.tag <= 3 && 0 <= op.page < s.cfg.numPages
    requires 0 <= op.frame < s.cfg.numFrames && 0 <= op.prot <= 3 && s.pages[op.tag][op.page].frame == -1
    ensures
      var r := Step(On(s), op).0;
      && r.On? && r.s.cfg == s.cfg
      && |Live(r.s)| == (if |Live(s)| < s.cfg.maxMaps then |Live(s)| + 1 else |Live(s)|)
      && (forall t, p :: 0 <= t <= 3 && 0 <= p < s.cfg.numPages && (t != op.tag || p != op.page) ==>
            r.s.pages[t][p] == s.pages[t][p])
  {
    MapKeeps(s, op.tag, op.page, op.frame, op.prot);
    assert Counted(MapPage(s, op.tag, op.page, op.frame, op.prot).0);
  }

  // From the start of an MMU with k mappings.
  lemma {:induction false} MappingsFromStart(k: int32, numPages: int32, numFrames: int32, pageSize: pos, ops: seq<Op>)
    requires 1 <= numPages && 1 <= numFrames && 1 <= k <= 4 * numPages
    requires NewMappings(Started(Config(numPages, numFrames, pageSize, k, 1)), ops)
    ensures
      var m := Step(Off, Init(k, numPages, numFrames, pageSize, 1)).0;
      && m.On? && Runnable(m, ops)
      && (forall i :: 0 <= i < |Run(m, ops).1| ==> Run(m, ops).1[i] == Status(if i < k then 0 else 10))
  {
    InitAnswers(k, numPages, numFrames, pageSize, 1);
    FillsUp(Step(Off, Init(k, numPages, numFrames, pageSize, 1)).0.s, ops);
  }
}
