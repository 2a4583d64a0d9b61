/**
 The lazy MMU refines the eager one: over every run that keeps to the documentation, nobody can
 tell them apart. And the condition is exact: after any other request somebody can.
 */
module MmuRefinement {
  import opened CInt
  import opened Collections
  import opened MmuTypes
  import opened LazyMmu
  import opened MmuInvariant
  import Spec = EagerMmu

  /* ---- What a lazy state stands for ------------------------------------------------------- */

  function AbsPage(g: Page): Spec.Entry {
    if g.frame == -1 then Spec.Absent else Spec.Present(g.frame, g.virtProt)
  }

  function AbsRow(row: seq<Page>): (r: seq<Spec.Entry>)
    ensures |r| == |row|
  {
    seq(|row|, i requires 0 <= i < |row| => AbsPage(row[i]))
  }

  ghost function Abs(s: State): (e: Spec.Eager)
    requires Shape(s)
    ensures Spec.Shape(e)
  {
    Spec.Eager(s.cfg, seq(NUM_TAG, t requires 0 <= t < |s.pages| => AbsRow(s.pages[t])),
               s.access, s.tag, s.cause, s.mem)
  }

  ghost function AbsMachine(m: Machine): (e: Spec.EagerMachine)
    requires Good(m)
    ensures Spec.Good(e)
  {
    match m
    case Off => Spec.EagerMachine.Off
    case On(s) => Spec.EagerMachine.On(Abs(s))
  }

  // The real protection of a page never exceeds its virtual one, which is one of the documented three.
  predicate Sound(s: State)
    requires Shape(s)
  {
    forall t, i :: 0 <= t < NUM_TAG && 0 <= i < s.cfg.numPages ==> SoundPage(s.pages[t][i])
  }

  predicate SoundPage(g: Page) {
    && (g.virtProt == PROT_NONE || g.virtProt == PROT_READ || g.virtProt == PROT_RW)
    && g.realProt <= g.virtProt
  }

  predicate SoundMachine(m: Machine) {
    MachineOk(m) && (m.On? ==> Sound(m.s))
  }

  /* ---- Keeping to the documentation ------------------------------------------------------- */

  // What a caller can check before the call: no mapping with the undocumented protection 2, no
  // request to set the reference bit alone on a frame that is mapped without access under the
  // current tag, and no access to an address outside the region whose page number strays into it.
  ghost predicate Documented(m: Spec.EagerMachine, op: Op)
    requires Spec.Good(m) && Spec.Callable(m, op)
  {
    m.On? ==>
      match op
      case Map(_, _, _, prot) => prot == 2 ==> Spec.Step(m, op).1 != Status(OK)
      case SetAccess(frame, bits) =>
        0 <= frame < m.e.cfg.numFrames && bits == 1 ==>
          forall i :: 0 <= i < m.e.cfg.numPages ==> m.e.maps[m.e.tag][i] != Spec.Present(frame, PROT_NONE)
      case Load(addr) => !Strays(m.e.cfg, addr)
      case Store(addr, _) => !Strays(m.e.cfg, addr)
      case _ => true
  }

  predicate Strays(cfg: Config, addr: int) {
    !InRegion(cfg, addr) && 0 <= PageIndex(addr, cfg.pageSize) < cfg.numPages
  }

  /* ---- One operation at a time ------------------------------------------------------------ */

  lemma AbsLive(s: State)
    requires Shape(s)
    ensures Spec.Live(Abs(s)) == Live(s)
  {
    forall t, i | 0 <= t < NUM_TAG && 0 <= i < s.cfg.numPages
      ensures Abs(s).maps[t][i].Present? <==> s.pages[t][i].frame != -1
    {
    }
  }

  lemma AbsUpdate(s: State, tag: int, page: int, g: Page)
    requires Shape(s) && 0 <= tag < NUM_TAG && 0 <= page < s.cfg.numPages && FrameInRange(s.cfg, g.frame)
    ensures Abs(WithPage(s, tag, page, g)) == Abs(s).(maps := Abs(s).maps[tag := Abs(s).maps[tag][page := AbsPage(g)]])
  {
    var r := WithPage(s, tag, page, g);
    assert AbsRow(r.pages[tag]) == AbsRow(s.pages[tag])[page := AbsPage(g)];
    assert Abs(r).maps == Abs(s).maps[tag := Abs(s).maps[tag][page := AbsPage(g)]];
  }

  lemma MapRefines(s: State, tag: int, page: int, frame: int, prot: int)
    requires WellFormed(s)
    ensures
      var r := MapPage(s, tag, page, frame, prot);
      (Abs(r.0), r.1) == Spec.MapEntry(Abs(s), tag, page, frame, prot)
  {
    AbsLive(s);
    var r := MapPage(s, tag, page, frame, prot);
    if r.1 == OK {
      AbsUpdate(s, tag, page, Page(frame, prot, PROT_NONE));
      assert Abs(r.0) == Abs(WithPage(s, tag, page, Page(frame, prot, PROT_NONE)));
    }
  }

  lemma UnmapRefines(s: State, tag: int, page: int)
    requires WellFormed(s)
    ensures
      var r := UnmapPage(s, tag, page);
      (Abs(r.0), r.1) == Spec.UnmapEntry(Abs(s), tag, page)
  {
    var r := UnmapPage(s, tag, page);
    if r.1 == OK {
      AbsUpdate(s, tag, page, NO_PAGE);
      assert Abs(r.0) == Abs(WithPage(s, tag, page, NO_PAGE));
    }
  }

  // States whose tables differ in real protections only stand for the same tables.
  lemma SameMaps(s: State, r: State)
    requires Shape(s) && Shape(r) && r.cfg == s.cfg
    requires forall t, i :: 0 <= t < NUM_TAG && 0 <= i < s.cfg.numPages ==>
      AbsPage(r.pages[t][i]) == AbsPage(s.pages[t][i])
    ensures Abs(r).maps == Abs(s).maps
  {
    forall t | 0 <= t < NUM_TAG
      ensures AbsRow(r.pages[t]) == AbsRow(s.pages[t])
    {
    }
  }

  lemma SwitchRefines(s: State, newTag: int)
    requires WellFormed(s) && Sound(s) && 0 <= newTag < NUM_TAG
    ensures Abs(SwitchTag(s, newTag)) == Abs(s).(tag := newTag)
    ensures Sound(SwitchTag(s, newTag))
  {
    SameMaps(s, SwitchTag(s, newTag));
  }

  lemma BitsRefines(s: State, frame: int, bits: int)
    requires WellFormed(s) && 0 <= frame < s.cfg.numFrames && TwoBits(bits)
    ensures Abs(SetBits(s, frame, bits).0) == Abs(s).(access := s.access[frame := bits])
  {
    SameMaps(s, SetBits(s, frame, bits).0);
  }

  lemma BitsSound(s: State, frame: int, bits: int)
    requires WellFormed(s) && Sound(s)
    requires 0 <= frame < s.cfg.numFrames && bits == 1 ==>
      forall i :: 0 <= i < s.cfg.numPages ==> Abs(s).maps[s.tag][i] != Spec.Present(frame, PROT_NONE)
    ensures Sound(SetBits(s, frame, bits).0)
  {
    forall i | 0 <= i < s.cfg.numPages && s.pages[s.tag][i].frame == frame && bits == 1 && 0 <= frame < s.cfg.numFrames
      ensures s.pages[s.tag][i].virtProt != PROT_NONE
    {
      assert Abs(s).maps[s.tag][i] == AbsPage(s.pages[s.tag][i]);
    }
  }

  /* ---- Loads and stores ------------------------------------------------------------------- */

  // One silent run of the handler sets a bit that the access was about to set anyway.
  lemma {:induction false} RetryRefines(s: State, addr: int, req: Request)
    requires WellFormed(s) && Sound(s) && !Strays(s.cfg, addr)
    requires !Permits(s, addr, req.Writing?)
    requires Handle(s, PageIndex(addr, s.cfg.pageSize)).1.Retry?
    ensures
      var h := Handle(s, PageIndex(addr, s.cfg.pageSize)).0;
      && Sound(h)
      && EagerAccess(Abs(h), addr, req) == EagerAccess(Abs(s), addr, req)
  {
    var page := PageIndex(addr, s.cfg.pageSize);
    InRegionIndex(s.cfg, addr);
    var h := Handle(s, page).0;
    SameMaps(s, h);
    var g := Current(s)[page];
    assert Abs(s).maps[s.tag][page] == AbsPage(g);
    assert HostAgreesAt(g, s.host[page]);
    var bits := s.access[g.frame];
    var raised := if g.realProt == PROT_NONE then OrRef(bits) else OrDirty(bits);
    assert PageOk(g, true, s.access);
    assert SoundPage(g);
    assert Abs(h) == Abs(s).(access := s.access[g.frame := raised]);
    EagerMarkedEarly(Abs(s), addr, req, raised);
  }

  // A bit the access sets anyway may be set before it.
  lemma EagerMarkedEarly(e: Spec.Eager, addr: int, req: Request, raised: int)
    requires Spec.Shape(e) && 0 <= addr && addr / e.cfg.pageSize < e.cfg.numPages
    requires e.maps[e.tag][addr / e.cfg.pageSize].Present?
    requires
      var g := e.maps[e.tag][addr / e.cfg.pageSize];
      var bits := e.access[g.frame];
      && TwoBits(bits)
      && (|| (raised == OrRef(bits) && Readable(g.prot))
          || (raised == OrDirty(bits) && HasRef(bits) && Writable(g.prot) && req.Writing?))
    ensures
      var f := e.maps[e.tag][addr / e.cfg.pageSize].frame;
      EagerAccess(e.(access := e.access[f := raised]), addr, req) == EagerAccess(e, addr, req)
  {
    var f := e.maps[e.tag][addr / e.cfg.pageSize].frame;
    assert e.access[f := raised][f := OrRef(raised)] == e.access[f := OrRef(raised)];
    assert e.access[f := raised][f := OrDirty(OrRef(raised))] == e.access[f := OrDirty(OrRef(raised))];
  }

  ghost function EagerAccess(e: Spec.Eager, addr: int, req: Request): (Spec.Eager, Obs)
    requires Spec.Shape(e)
  {
    match req
    case Reading => Spec.Access(e, addr, false, 0)
    case Writing(b) => Spec.Access(e, addr, true, b)
  }

  // An access the host allows finds its access bits already set.
  lemma PermittedRefines(s: State, addr: int, req: Request)
    requires WellFormed(s) && Sound(s) && Permits(s, addr, req.Writing?)
    ensures
      var p := Perform(s, addr, req);
      Sound(p.0) && (Abs(p.0), p.1) == EagerAccess(Abs(s), addr, req)
  {
    var page := addr / s.cfg.pageSize;
    var g := Current(s)[page];
    assert Abs(s).maps[s.tag][page] == AbsPage(g);
    assert HostAgreesAt(g, s.host[page]);
    assert PageOk(g, true, s.access);
    assert SoundPage(g);
    assert s.access[g.frame := s.access[g.frame]] == s.access;
    var p := Perform(s, addr, req);
    SameMaps(s, p.0);
  }

  lemma {:induction false} RefusedRefines(s: State, addr: int, req: Request)
    requires WellFormed(s) && Sound(s) && !Strays(s.cfg, addr)
    requires !Permits(s, addr, req.Writing?)
    requires !Handle(s, PageIndex(addr, s.cfg.pageSize)).1.Retry?
    ensures
      var r := Access(s, addr, req);
      Sound(r.0) && (Abs(r.0), r.1) == EagerAccess(Abs(s), addr, req)
  {
    var page := PageIndex(addr, s.cfg.pageSize);
    DeniedAccess(s, addr, req);
    if InRegion(s.cfg, addr) {
      InRegionIndex(s.cfg, addr);
      RefusedPage(s, addr, page, req);
    }
  }

  lemma RefusedPage(s: State, addr: int, page: int, req: Request)
    requires WellFormed(s) && Sound(s) && InRegion(s.cfg, addr) && addr / s.cfg.pageSize == page
    requires !Permits(s, addr, req.Writing?) && !Handle(s, page).1.Retry?
    ensures
      var h := Handle(s, page);
      && Sound(h.0) && h.1.Interrupt?
      && (Abs(h.0), Trap(h.1.cause, addr)) == EagerAccess(Abs(s), addr, req)
  {
    var h, g := Handle(s, page), Current(s)[page];
    SameMaps(s, h.0);
    HandlePage(s, page);
    assert Abs(s).maps[s.tag][page] == AbsPage(g);
    assert HostAgreesAt(g, s.host[page]);
    if g.frame != -1 {
      assert PageOk(g, true, s.access);
      assert SoundPage(g);
      assert s.access[g.frame := s.access[g.frame]] == s.access;
    }
  }

  lemma {:induction false} AccessRefines(s: State, addr: int, req: Request)
    requires WellFormed(s) && Sound(s) && !Strays(s.cfg, addr)
    ensures
      var r := Access(s, addr, req);
      Sound(r.0) && (Abs(r.0), r.1) == EagerAccess(Abs(s), addr, req)
    decreases 2 - Level(s, PageIndex(addr, s.cfg.pageSize))
  {
    var page := PageIndex(addr, s.cfg.pageSize);
    if Permits(s, addr, req.Writing?) {
      PermittedRefines(s, addr, req);
    } else if Handle(s, page).1.Retry? {
      RetryRefines(s, addr, req);
      HandleKeeps(s, page);
      AccessRefines(Handle(s, page).0, addr, req);
    } else {
      RefusedRefines(s, addr, req);
    }
  }

  /* ---- Page tables ------------------------------------------------------------------------ */

  // States that agree on everything but the row of tag 0, the counter and the host.
  predicate SameButRow0(s: State, r: State)
    requires Shape(s) && Shape(r)
  {
    && r.cfg == s.cfg && r.access == s.access && r.tag == s.tag && r.cause == s.cause && r.mem == s.mem
    && (forall t :: 1 <= t < NUM_TAG ==> r.pages[t] == s.pages[t])
  }

  lemma {:induction false} UnmapFromRow(s: State, i: int)
    requires WellFormed(s) && 0 <= i <= s.cfg.numPages
    ensures
      var r := UnmapFrom(s, i);
      && SameButRow0(s, r)
      && (forall k :: 0 <= k < i ==> r.pages[0][k] == s.pages[0][k])
      && (forall k :: i <= k < s.cfg.numPages ==> r.pages[0][k].frame == -1)
    decreases s.cfg.numPages - i
  {
    if i < s.cfg.numPages {
      UnmapKeeps(s, 0, i);
      UnmapFromRow(UnmapPage(s, 0, i).0, i + 1);
    }
  }

  lemma {:induction false} RowCardinality(n: nat)
    ensures |set k | 0 <= k < n :: (0, k)| == n
  {
    var row := set k | 0 <= k < n :: (0, k);
    if n > 0 {
      RowCardinality(n - 1);
      assert row == (set k | 0 <= k < n - 1 :: (0, k)) + {(0, n - 1)};
    } else {
      assert row == {};
    }
  }

  // In page-table mode an unmapped page always finds a mapping to spare.
  lemma SpareMapping(s: State, i: int)
    requires WellFormed(s) && s.cfg.mode == MODE_PAGETABLE
    requires 0 <= i < s.cfg.numPages && s.pages[0][i].frame == -1
    ensures s.numMaps < s.cfg.maxMaps
  {
    var row := set k | 0 <= k < s.cfg.numPages :: (0, k);
    RowCardinality(s.cfg.numPages);
    forall p | p in Live(s)
      ensures p in row - {(0, i)}
    {
    }
    SubsetSize(Live(s), row - {(0, i)});
  }

  // Row 0 of s, and of the state r and status the loading of the table from page i on ends with.
  ghost predicate RowLoaded(s: State, ptes: seq<Pte>, i: int, row: seq<Page>, loaded: seq<Page>, status: int)
    requires 0 <= i <= s.cfg.numPages <= |ptes|
  {
    var n, b := s.cfg.numPages, Spec.FirstBad(s.cfg, ptes, i);
    && |row| == |loaded| == n
    && status == (if b == n then OK else Spec.EntryStatus(s.cfg, ptes[b]))
    && (forall k :: 0 <= k < i ==> loaded[k] == row[k])
    && (forall k :: i <= k < b ==> AbsPage(loaded[k]) == Spec.EntryOf(ptes[k]))
    && (forall k :: b <= k < n ==> loaded[k].frame == -1)
  }

  lemma {:induction false} MapFromRow(s: State, ptes: seq<Pte>, i: int)
    requires WellFormed(s) && s.cfg.mode == MODE_PAGETABLE && 0 <= i <= s.cfg.numPages <= |ptes|
    requires forall k :: i <= k < s.cfg.numPages ==> s.pages[0][k].frame == -1
    ensures
      var r := MapFrom(s, ptes, i);
      SameButRow0(s, r.0) && RowLoaded(s, ptes, i, s.pages[0], r.0.pages[0], r.1)
    decreases s.cfg.numPages - i
  {
    if i == s.cfg.numPages || Spec.EntryStatus(s.cfg, ptes[i]) != OK {
      RowEnds(s, ptes, i);
    }
    if i < s.cfg.numPages {
      if !ptes[i].incore {
        MapFromRow(s, ptes, i + 1);
        RowLoadedOn(s, s, ptes, i, MapFrom(s, ptes, i + 1).0.pages[0], MapFrom(s, ptes, i + 1).1);
      } else if WantedProt(ptes[i]).Wanted? {
        MapOneRow(s, ptes[i], i);
        var m := MapPage(s, 0, i, ptes[i].frame, WantedProt(ptes[i]).prot);
        if m.1 == OK {
          MapFromRow(m.0, ptes, i + 1);
          var r := MapFrom(m.0, ptes, i + 1);
          RowLoadedOn(s, m.0, ptes, i, r.0.pages[0], r.1);
        }
      }
    }
  }

  // A bad entry ends the loading, and so does the end of the table.
  lemma RowEnds(s: State, ptes: seq<Pte>, i: int)
    requires Shape(s) && 0 <= i <= s.cfg.numPages <= |ptes|
    requires i == s.cfg.numPages || Spec.EntryStatus(s.cfg, ptes[i]) != OK
    requires forall k :: i <= k < s.cfg.numPages ==> s.pages[0][k].frame == -1
    ensures RowLoaded(s, ptes, i, s.pages[0], s.pages[0],
                      if i == s.cfg.numPages then OK else Spec.EntryStatus(s.cfg, ptes[i]))
  {
  }

  // A good entry lets it go on.
  lemma RowLoadedOn(s: State, m: State, ptes: seq<Pte>, i: int, loaded: seq<Page>, status: int)
    requires Shape(s) && Shape(m) && m.cfg == s.cfg && 0 <= i < s.cfg.numPages <= |ptes|
    requires Spec.EntryStatus(s.cfg, ptes[i]) == OK
    requires m.pages[0][i].frame == -1 || ptes[i].incore
    requires m.pages[0] ==
      if ptes[i].incore then s.pages[0][i := Page(ptes[i].frame, WantedProt(ptes[i]).prot, PROT_NONE)] else s.pages[0]
    requires RowLoaded(m, ptes, i + 1, m.pages[0], loaded, status)
    ensures RowLoaded(s, ptes, i, s.pages[0], loaded, status)
  {
  }

  // Mapping the page of one in-core entry fails only on its frame.
  lemma MapOneRow(s: State, pte: Pte, i: int)
    requires WellFormed(s) && s.cfg.mode == MODE_PAGETABLE
    requires 0 <= i < s.cfg.numPages && s.pages[0][i].frame == -1
    requires pte.incore && WantedProt(pte).Wanted?
    ensures
      var m := MapPage(s, 0, i, pte.frame, WantedProt(pte).prot);
      && WellFormed(m.0)
      && SameButRow0(s, m.0)
      && m.1 == Spec.EntryStatus(s.cfg, pte)
      && (if m.1 == OK then m.0.pages[0] == s.pages[0][i := Page(pte.frame, WantedProt(pte).prot, PROT_NONE)]
          else m.0 == s)
  {
    SpareMapping(s, i);
    MapKeeps(s, 0, i, pte.frame, WantedProt(pte).prot);
  }

  // USLOSS_MmuSetPageTable is exact: the table is in force up to its first bad entry, nothing is
  // mapped from there on, and the status says what is wrong with that entry.
  lemma InstallRefines(s: State, table: PageTable)
    requires WellFormed(s) && s.cfg.mode == MODE_PAGETABLE
    requires table.Table? ==> s.cfg.numPages <= |table.ptes|
    ensures
      var r := InstallTable(s, table);
      (Abs(r.0), r.1) == Spec.LoadTable(Abs(s), table)
  {
    var u, r := UnmapFrom(s, 0), InstallTable(s, table);
    UnmapFromKeeps(s, 0);
    UnmapFromRow(s, 0);
    if table.Table? {
      MapFromRow(u, table.ptes, 0);
    }
    assert AbsRow(r.0.pages[0]) == Spec.TableRow(s.cfg, table);
    assert Abs(r.0).maps == Abs(s).maps[0 := Spec.TableRow(s.cfg, table)];
  }

  // So a page table can only be refused for a write-only entry or a frame out of range: there is
  // always a mapping to spare, and never one in the way.
  lemma InstallErrors(s: State, table: PageTable)
    requires WellFormed(s) && s.cfg.mode == MODE_PAGETABLE
    requires table.Table? ==> s.cfg.numPages <= |table.ptes|
    ensures
      var status := InstallTable(s, table).1;
      && (status == OK || status == ERR_PROT || status == ERR_FRAME)
      && (status == OK <==> (table.Table? ==>
            forall i :: 0 <= i < s.cfg.numPages ==> Spec.EntryStatus(s.cfg, table.ptes[i]) == OK))
  {
    InstallRefines(s, table);
  }

  lemma {:induction false} UnmapFromSound(s: State, i: int)
    requires Shape(s) && Sound(s) && 0 <= i <= s.cfg.numPages
    ensures Sound(UnmapFrom(s, i))
    decreases s.cfg.numPages - i
  {
    if i < s.cfg.numPages {
      UnmapFromSound(UnmapPage(s, 0, i).0, i + 1);
    }
  }

  lemma {:induction false} MapFromSound(s: State, ptes: seq<Pte>, i: int)
    requires Shape(s) && Sound(s) && 0 <= i <= s.cfg.numPages <= |ptes|
    ensures Sound(MapFrom(s, ptes, i).0)
    decreases s.cfg.numPages - i
  {
    if i < s.cfg.numPages {
      if !ptes[i].incore {
        MapFromSound(s, ptes, i + 1);
      } else if WantedProt(ptes[i]).Wanted? {
        var m := MapPage(s, 0, i, ptes[i].frame, WantedProt(ptes[i]).prot);
        if m.1 == OK {
          MapFromSound(m.0, ptes, i + 1);
        }
      }
    }
  }

  /* ---- One step, and whole runs ----------------------------------------------------------- */

  lemma StartedRefines(cfg: Config)
    requires cfg.mode == MODE_TLB || cfg.mode == MODE_PAGETABLE
    ensures Shape(Started(cfg)) && Abs(Started(cfg)) == Spec.Started(cfg)
    ensures Sound(Started(cfg))
  {
    assert Abs(Started(cfg)).maps == Spec.Started(cfg).maps by {
      assert AbsRow(seq(cfg.numPages, i => NO_PAGE)) == seq(cfg.numPages, i => Spec.Absent);
    }
  }

  lemma {:induction false} StepRefines(m: Machine, op: Op)
    requires SoundMachine(m) && Callable(m, op) && Documented(AbsMachine(m), op)
    ensures
      var r := Step(m, op);
      && SoundMachine(r.0)
      && (AbsMachine(r.0), r.1) == Spec.Step(AbsMachine(m), op)
  {
    StepKeeps(m, op);
    match m
    case Off =>
      if op.Init? && InitStatus(op.numMaps, op.numPages, op.numFrames, op.mode) == OK {
        StartedRefines(Config(op.numPages, op.numFrames, op.pageSize,
                              InitMaxMaps(op.numMaps, op.numPages, op.mode), op.mode));
      }
    case On(s) => StepOnRefines(s, op);
  }

  lemma StepOnRefines(s: State, op: Op)
    requires WellFormed(s) && Sound(s) && Callable(On(s), op) && Documented(AbsMachine(On(s)), op)
    ensures RefinedBy(s, op)
  {
    match op
    case Map(_, _, _, _) => TableStepRefines(s, op);
    case Unmap(_, _) => TableStepRefines(s, op);
    case SetTag(_) => TableStepRefines(s, op);
    case SetPageTable(_) => InstallStepRefines(s, op);
    case SetAccess(_, _) => MemoryStepRefines(s, op);
    case Load(_) => MemoryStepRefines(s, op);
    case Store(_, _) => MemoryStepRefines(s, op);
    case PokeFrame(_, _, _) => MemoryStepRefines(s, op);
    case GetMap(tag, page, _) =>
      if 0 <= tag < NUM_TAG && 0 <= page < s.cfg.numPages {
        assert Abs(s).maps[tag][page] == AbsPage(s.pages[tag][page]);
      }
    case _ =>
  }

  ghost predicate RefinedBy(s: State, op: Op)
    requires Shape(s) && Callable(On(s), op)
  {
    var r := StepOn(s, op);
    && (r.0.On? ==> Sound(r.0.s))
    && (AbsMachine(r.0), r.1) == Spec.StepOn(Abs(s), op)
  }

  lemma TableStepRefines(s: State, op: Op)
    requires WellFormed(s) && Sound(s) && Callable(On(s), op) && Documented(AbsMachine(On(s)), op)
    requires op.Map? || op.Unmap? || op.SetTag?
    ensures RefinedBy(s, op)
  {
    match op
    case Map(tag, page, frame, prot) =>
      MapRefines(s, tag, page, frame, prot);
      if s.cfg.mode == MODE_TLB { MapSound(s, tag, page, frame, prot); }
    case Unmap(tag, page) =>
      UnmapRefines(s, tag, page);
      UnmapSound(s, tag, page);
    case SetTag(newTag) =>
      if 0 <= newTag < NUM_TAG { SwitchRefines(s, newTag); }
  }

  lemma MapSound(s: State, tag: int, page: int, frame: int, prot: int)
    requires Shape(s) && Sound(s)
    requires prot == 2 ==> MapPage(s, tag, page, frame, prot).1 != OK
    ensures Sound(MapPage(s, tag, page, frame, prot).0)
  {
  }

  lemma UnmapSound(s: State, tag: int, page: int)
    requires Shape(s) && Sound(s)
    ensures Sound(UnmapPage(s, tag, page).0)
  {
  }

  lemma InstallStepRefines(s: State, op: Op)
    requires WellFormed(s) && Sound(s) && Callable(On(s), op) && op.SetPageTable?
    ensures RefinedBy(s, op)
  {
    if s.cfg.mode == MODE_PAGETABLE {
      InstallRefines(s, op.table);
      UnmapFromSound(s, 0);
      if op.table.Table? { MapFromSound(UnmapFrom(s, 0), op.table.ptes, 0); }
    }
  }

  lemma {:induction false} MemoryStepRefines(s: State, op: Op)
    requires WellFormed(s) && Sound(s) && Callable(On(s), op) && Documented(AbsMachine(On(s)), op)
    requires op.SetAccess? || op.Load? || op.Store? || op.PokeFrame?
    ensures RefinedBy(s, op)
  {
    match op
    case SetAccess(frame, bits) =>
      if 0 <= frame < s.cfg.numFrames && TwoBits(bits) {
        BitsRefines(s, frame, bits);
        BitsSound(s, frame, bits);
      }
    case Load(addr) => AccessRefines(s, addr, Reading);
    case Store(addr, b) => AccessRefines(s, addr, Writing(b));
    case PokeFrame(f, o, b) =>
      if f < s.cfg.numFrames && o < s.cfg.pageSize { SameMaps(s, s.(mem := WithByte(s.mem, f, o, b))); }
  }

  ghost predicate Clean(m: Spec.EagerMachine, ops: seq<Op>): (clean: bool)
    requires Spec.Good(m)
    ensures clean ==> Spec.Runnable(m, ops)
    decreases |ops|
  {
    ops == [] ||
    (&& Spec.Callable(m, ops[0])
     && Documented(m, ops[0])
     && var one := Spec.Step(m, ops[0]);
     && (one.1.Fatal() || Clean(one.0, ops[1..])))
  }

  // Over every run that keeps to the documentation, the lazy MMU shows its callers what the eager
  // one shows them, and ends in a state that stands for the eager one.
  lemma {:induction false} RunRefines(m: Machine, ops: seq<Op>)
    requires SoundMachine(m) && Clean(AbsMachine(m), ops)
    ensures Runnable(m, ops)
    ensures
      var r := Run(m, ops);
      && SoundMachine(r.0)
      && (AbsMachine(r.0), r.1) == Spec.Run(AbsMachine(m), ops)
    decreases |ops|
  {
    if ops != [] {
      StepRefines(m, ops[0]);
      var one := Step(m, ops[0]);
      if !one.1.Fatal() {
        RunRefines(one.0, ops[1..]);
      }
    }
  }

  // The same from power-on: before USLOSS_MmuInit both machines are off.
  lemma {:induction false} LazyRefinesEager(ops: seq<Op>)
    requires Clean(Spec.EagerMachine.Off, ops)
    ensures Runnable(Machine.Off, ops)
    ensures Run(Machine.Off, ops).1 == Spec.Run(Spec.EagerMachine.Off, ops).1
  {
    RunRefines(Machine.Off, ops);
  }

  /* ---- The condition is exact ------------------------------------------------------------- */

  // Nobody who goes on in a documented way after `op` can tell the lazy MMU from the eager one.
  ghost predicate Same(m: Machine, op: Op, k: seq<Op>)
    requires SoundMachine(m) && Callable(m, op)
  {
    Clean(Spec.Step(AbsMachine(m), op).0, k) ==>
      && Runnable(m, [op] + k)
      && Spec.Runnable(AbsMachine(m), [op] + k)
      && Run(m, [op] + k).1 == Spec.Run(AbsMachine(m), [op] + k).1
  }

  lemma DocumentedIsExact(m: Machine, op: Op)
    requires SoundMachine(m) && Callable(m, op)
    ensures Documented(AbsMachine(m), op) <==> forall k :: Same(m, op, k)
  {
    if Documented(AbsMachine(m), op) {
      forall k
        ensures Same(m, op, k)
      {
        DocumentedSame(m, op, k);
      }
    } else {
      var k := UndocumentedDiffers(m, op);
      assert !Same(m, op, k);
    }
  }

  lemma DocumentedSame(m: Machine, op: Op, k: seq<Op>)
    requires SoundMachine(m) && Callable(m, op) && Documented(AbsMachine(m), op)
    ensures Same(m, op, k)
  {
    if Clean(Spec.Step(AbsMachine(m), op).0, k) {
      assert ([op] + k)[1..] == k;
      assert Clean(AbsMachine(m), [op] + k);
      RunRefines(m, [op] + k);
    }
  }

  lemma UndocumentedDiffers(m: Machine, op: Op) returns (k: seq<Op>)
    requires SoundMachine(m) && Callable(m, op) && !Documented(AbsMachine(m), op)
    ensures !Same(m, op, k)
  {
    match op
    case Map(tag, page, frame, prot) =>
      var addr := PageStart(page, m.s.cfg);
      UndocumentedMap(m.s, tag, page, frame, Load(addr));
      k := [SetTag(tag)] + [Load(addr)];
    case SetAccess(frame, bits) =>
      var page :|
        0 <= page < m.s.cfg.numPages && Abs(m.s).maps[m.s.tag][page] == Spec.Present(frame, PROT_NONE);
      var addr := PageStart(page, m.s.cfg);
      UndocumentedSetAccess(m.s, frame, page, Load(addr));
      k := [Load(addr)];
    case Load(_) =>
      k := [];
      StrayDiffers(m.s, op);
    case Store(_, _) =>
      k := [];
      StrayDiffers(m.s, op);
  }

  function RequestOf(access: Op): Request
    requires access.Load? || access.Store?
  {
    if access.Load? then Reading else Writing(access.value)
  }

  predicate AccessTo(cfg: Config, access: Op, page: int) {
    (access.Load? || access.Store?) && InRegion(cfg, access.addr) && access.addr / cfg.pageSize == page
  }

  // An access that strays raises an MMU interrupt where the eager MMU ends the process.
  lemma {:induction false} StrayDiffers(s: State, op: Op)
    requires SoundMachine(On(s)) && (op.Load? || op.Store?) && Strays(s.cfg, op.addr)
    ensures Step(On(s), op).1.Trap? && Spec.Step(AbsMachine(On(s)), op).1 == SegFault
    ensures !Same(On(s), op, [])
  {
    StrayAccess(s, op.addr, RequestOf(op));
    assert Clean(Spec.Step(AbsMachine(On(s)), op).0, []);
    LazyCons(On(s), op, []);
    EagerCons(AbsMachine(On(s)), op, []);
    assert Run(On(s), [op] + []).1[0] != Spec.Run(AbsMachine(On(s)), [op] + []).1[0];
  }

  // Unfolding a run of the lazy and of the eager machine by one request.
  lemma LazyCons(m: Machine, op: Op, k: seq<Op>)
    requires Good(m) && Callable(m, op) && (Step(m, op).1.Fatal() || Runnable(Step(m, op).0, k))
    ensures Runnable(m, [op] + k)
    ensures
      var one := Step(m, op);
      Run(m, [op] + k).1 == [one.1] + (if one.1.Fatal() then [] else Run(one.0, k).1)
  {
    assert ([op] + k)[1..] == k;
  }

  lemma LazyOne(m: Machine, op: Op)
    requires Good(m) && Callable(m, op)
    ensures Runnable(m, [op]) && Run(m, [op]).1 == [Step(m, op).1]
  {
    LazyCons(m, op, []);
  }

  lemma LazyTwo(m: Machine, first: Op, second: Op)
    requires Good(m) && Callable(m, first) && !Step(m, first).1.Fatal() && Callable(Step(m, first).0, second)
    ensures Runnable(m, [first] + [second])
    ensures Run(m, [first] + [second]).1 == [Step(m, first).1] + [Step(Step(m, first).0, second).1]
  {
    LazyOne(Step(m, first).0, second);
    LazyCons(m, first, [second]);
  }

  lemma EagerOne(m: Spec.EagerMachine, op: Op)
    requires Spec.Good(m) && Spec.Callable(m, op)
    ensures Spec.Runnable(m, [op]) && Spec.Run(m, [op]).1 == [Spec.Step(m, op).1]
  {
    EagerCons(m, op, []);
  }

  lemma EagerCons(m: Spec.EagerMachine, op: Op, k: seq<Op>)
    requires Spec.Good(m) && Spec.Callable(m, op)
    requires Spec.Step(m, op).1.Fatal() || Spec.Runnable(Spec.Step(m, op).0, k)
    ensures Spec.Runnable(m, [op] + k)
    ensures
      var one := Spec.Step(m, op);
      Spec.Run(m, [op] + k).1 == [one.1] + (if one.1.Fatal() then [] else Spec.Run(one.0, k).1)
  {
    assert ([op] + k)[1..] == k;
  }

  // A page raised to its full virtual protection, with the access bits that go with it.
  function Raised(s: State, page: int): (r: State)
    requires Shape(s) && 0 <= page < s.cfg.numPages && Current(s)[page].frame != -1
  {
    var g := Current(s)[page];
    var bits := s.access[g.frame];
    var full :=
      if Writable(g.virtProt) then OrDirty(OrRef(bits)) else if Readable(g.virtProt) then OrRef(bits) else bits;
    SetReal(s, page, g.virtProt).(access := s.access[g.frame := full])
  }

  // What an access leaves that is taken for one to `page` without being one.
  function Strayed(s: State, page: int, addr: int): (State, Obs, int)
    requires Shape(s) && 0 <= page < s.cfg.numPages
  {
    var g := Current(s)[page];
    if g.frame == -1 then (s.(cause := CAUSE_FAULT), Trap(CAUSE_FAULT, addr), 0)
    else (Raised(s, page).(cause := CAUSE_ACCESS), Trap(CAUSE_ACCESS, addr), LevelOf(g.virtProt) - LevelOf(g.realProt))
  }

  // An access that strays ends in an MMU interrupt where there is no page at all. If its page number
  // is that of a mapped page, the silent runs of the handler before that raise the page to its full
  // virtual protection and set its access bits accordingly, the dirty bit even for a load.
  lemma {:induction false} StrayAccess(s: State, addr: int, req: Request)
    requires WellFormed(s) && Sound(s) && Strays(s.cfg, addr)
    ensures Access(s, addr, req) == Strayed(s, PageIndex(addr, s.cfg.pageSize), addr)
    decreases 2 - Level(s, PageIndex(addr, s.cfg.pageSize))
  {
    var page := PageIndex(addr, s.cfg.pageSize);
    DeniedAccess(s, addr, req);
    HandleKeeps(s, page);
    HandleStrays(s, page, addr);
    if Handle(s, page).1.Retry? {
      StrayAccess(Handle(s, page).0, addr, req);
    }
  }

  lemma HandleStrays(s: State, page: int, addr: int)
    requires WellFormed(s) && Sound(s) && 0 <= page < s.cfg.numPages
    ensures
      var h := Handle(s, page);
      && Sound(h.0)
      && if h.1.Retry? then var r := Strayed(h.0, page, addr); Strayed(s, page, addr) == (r.0, r.1, r.2 + 1)
         else h.1.Interrupt? && Strayed(s, page, addr) == (h.0, Trap(h.1.cause, addr), 0)
  {
    HandlePage(s, page);
    if Current(s)[page].frame != -1 {
      HandleRaises(s, page);
    }
  }

  lemma DeniedAccess(s: State, addr: int, req: Request)
    requires Shape(s) && !Permits(s, addr, req.Writing?)
    ensures
      var h := Handle(s, PageIndex(addr, s.cfg.pageSize));
      Access(s, addr, req) ==
        match h.1
        case Retry => (var r := Access(h.0, addr, req); (r.0, r.1, r.2 + 1))
        case Interrupt(cause) => (h.0, Trap(cause, addr), 0)
        case DefaultAction => (h.0, SegFault, 0)
        case InternalError => (h.0, Aborted, 0)
  {
  }

  // One run of the handler on a mapped page: a step towards the raised page, or the interrupt there.
  lemma HandleRaises(s: State, page: int)
    requires WellFormed(s) && Sound(s) && 0 <= page < s.cfg.numPages && Current(s)[page].frame != -1
    ensures
      var h, g := Handle(s, page), Current(s)[page];
      if h.1.Retry? then
        var g' := Current(h.0)[page];
        && g' == g.(realProt := g'.realProt) && LevelOf(g'.realProt) == LevelOf(g.realProt) + 1
        && Raised(h.0, page) == Raised(s, page)
      else
        h.1 == Interrupt(CAUSE_ACCESS) && g.realProt == g.virtProt && h.0 == Raised(s, page).(cause := CAUSE_ACCESS)
  {
    var h, g := Handle(s, page), Current(s)[page];
    assert PageOk(g, true, s.access) && SoundPage(g) && HostAgreesAt(g, s.host[page]);
    assert TwoBits(s.access[g.frame]);
    if h.1.Retry? {
      SetRealTwice(s, page, Current(h.0)[page].realProt, g.virtProt);
      assert Raised(h.0, page).access == Raised(s, page).access;
    } else {
      SetRealSame(s, page);
      assert s.access[g.frame := s.access[g.frame]] == s.access;
    }
  }

  lemma SetRealTwice(s: State, page: int, first: int, second: int)
    requires Shape(s) && 0 <= page < s.cfg.numPages && Current(s)[page].frame != -1
    ensures Current(SetReal(s, page, first))[page] == Current(s)[page].(realProt := first)
    ensures SetReal(SetReal(s, page, first), page, second) == SetReal(s, page, second)
  {
    var r := SetReal(SetReal(s, page, first), page, second);
    assert Current(r) == Current(SetReal(s, page, second));
    assert r.pages == SetReal(s, page, second).pages;
    assert r.host == SetReal(s, page, second).host;
  }

  lemma SetRealSame(s: State, page: int)
    requires Shape(s) && 0 <= page < s.cfg.numPages && Current(s)[page].frame != -1
    requires HostAgreesAt(Current(s)[page], s.host[page])
    ensures SetReal(s, page, Current(s)[page].realProt) == s
  {
    var r := SetReal(s, page, Current(s)[page].realProt);
    assert Current(r) == Current(s);
    assert r.pages == s.pages;
    assert r.host == s.host;
  }

  // Two kinds of addresses that stray: those on the guard page just below the region, to page 0...
  lemma BelowStrays(cfg: Config, addr: int)
    requires addr < 0 < addr + cfg.pageSize
    ensures Strays(cfg, addr) && PageIndex(addr, cfg.pageSize) == 0
  {
    assert (-addr) / cfg.pageSize == 0;
  }

  // ... and those a multiple of 2^32 pages past a page of the region, to that page.
  lemma {:induction false} FarStrays(cfg: Config, addr: int, pages: pos)
    requires InRegion(cfg, addr) && pages % 0x1_0000_0000 == 0
    ensures Strays(cfg, addr + pages * cfg.pageSize)
    ensures PageIndex(addr + pages * cfg.pageSize, cfg.pageSize) == addr / cfg.pageSize
  {
    MorePages(addr, pages, cfg.pageSize);
    FarNumber(cfg, addr + pages * cfg.pageSize, addr / cfg.pageSize, pages);
  }

  lemma FarNumber(cfg: Config, far: int, page: int, pages: pos)
    requires far >= 0 && far / cfg.pageSize == page + pages
    requires 0 <= page < cfg.numPages && pages % 0x1_0000_0000 == 0
    ensures Strays(cfg, far) && PageIndex(far, cfg.pageSize) == page
  {
    SameInt(page, pages);
  }

  lemma SameInt(n: int32, x: int)
    requires x % 0x1_0000_0000 == 0
    ensures AsInt(n + x) == n
  {
  }

  lemma {:induction false} MorePages(a: int, m: int, d: pos)
    requires a >= 0 && m >= 0
    ensures a + m * d >= 0 && (a + m * d) / d == a / d + m
  {
    assert m * d >= 0;
    assert (a / d + m) * d == a / d * d + m * d;
    UniqueDivision(a + m * d, d, a / d + m, a % d);
  }

  // On a page of the region the handler retries or interrupts: its "can't happen" combinations of
  // protections, and its internal error, are out of reach.
  lemma HandlePage(s: State, page: int)
    requires WellFormed(s) && Sound(s) && 0 <= page < s.cfg.numPages
    ensures Handle(s, page).1.Retry? || Handle(s, page).1.Interrupt?
    ensures Sound(Handle(s, page).0)
  {
    assert PageOk(Current(s)[page], true, s.access);
    assert SoundPage(Current(s)[page]);
  }

  /* A mapping with protection 2 is accepted, and the first access to it is an internal error. */

  lemma {:induction false} UndocumentedMap(s: State, tag: int, page: int, frame: int, access: Op)
    requires SoundMachine(On(s)) && s.cfg.mode == MODE_TLB && AccessTo(s.cfg, access, page)
    requires Spec.MapEntry(Abs(s), tag, page, frame, 2).1 == OK
    ensures
      var op, k := Map(tag, page, frame, 2), [SetTag(tag)] + [access];
      && Runnable(On(s), [op] + k) && Run(On(s), [op] + k).1 == [Status(OK)] + ([Status(OK)] + [Aborted])
      && Spec.Runnable(AbsMachine(On(s)), [op] + k) && Aborted !in Spec.Run(AbsMachine(On(s)), [op] + k).1
      && !Same(On(s), op, k)
  {
    var op, k := Map(tag, page, frame, 2), [SetTag(tag)] + [access];
    LazyAborts(s, tag, page, frame, access);
    EagerNeverAborts(Spec.Step(AbsMachine(On(s)), op).0, tag, access);
    EagerCons(AbsMachine(On(s)), op, k);
    LastDiffers(Run(On(s), [op] + k).1, Spec.Run(AbsMachine(On(s)), [op] + k).1);
  }

  lemma LastDiffers(lazy: seq<Obs>, eager: seq<Obs>)
    requires lazy == [Status(OK)] + ([Status(OK)] + [Aborted]) && Aborted !in eager
    ensures lazy != eager
  {
    assert lazy[2] == Aborted;
  }

  lemma {:induction false} LazyAborts(s: State, tag: int, page: int, frame: int, access: Op)
    requires SoundMachine(On(s)) && s.cfg.mode == MODE_TLB && AccessTo(s.cfg, access, page)
    requires Spec.MapEntry(Abs(s), tag, page, frame, 2).1 == OK
    ensures
      var ops := [Map(tag, page, frame, 2)] + ([SetTag(tag)] + [access]);
      Runnable(On(s), ops) && Run(On(s), ops).1 == [Status(OK)] + ([Status(OK)] + [Aborted])
  {
    MappedStep(s, tag, page, frame);
    MapKeeps(s, tag, page, frame, 2);
    SwitchedAborts(MapPage(s, tag, page, frame, 2).0, tag, page, access);
    LazyCons(On(s), Map(tag, page, frame, 2), [SetTag(tag)] + [access]);
  }

  lemma MappedStep(s: State, tag: int, page: int, frame: int)
    requires WellFormed(s) && s.cfg.mode == MODE_TLB && Spec.MapEntry(Abs(s), tag, page, frame, 2).1 == OK
    ensures 0 <= tag < NUM_TAG && 0 <= page < s.cfg.numPages && 0 <= frame
    ensures
      var r := MapPage(s, tag, page, frame, 2).0;
      && Step(On(s), Map(tag, page, frame, 2)) == (On(r), Status(OK))
      && r.cfg == s.cfg && r.pages[tag][page] == Page(frame, 2, PROT_NONE)
  {
    MapRefines(s, tag, page, frame, 2);
  }

  lemma SwitchedAborts(s: State, tag: int, page: int, access: Op)
    requires WellFormed(s) && s.cfg.mode == MODE_TLB && 0 <= tag < NUM_TAG && 0 <= page < s.cfg.numPages
    requires s.pages[tag][page].frame != -1
    requires s.pages[tag][page].virtProt == 2 && s.pages[tag][page].realProt == PROT_NONE
    requires AccessTo(s.cfg, access, page)
    ensures
      var ops := [SetTag(tag)] + [access];
      Runnable(On(s), ops) && Run(On(s), ops).1 == [Status(OK)] + [Aborted]
  {
    SwitchedPage(s, tag, page);
    SwitchedStep(s, tag);
    AbortingStep(SwitchTag(s, tag), page, access);
    LazyTwo(On(s), SetTag(tag), access);
  }

  lemma PageStart(page: int, cfg: Config) returns (addr: int)
    requires 0 <= page < cfg.numPages
    ensures InRegion(cfg, addr) && addr / cfg.pageSize == page
  {
    addr := page * cfg.pageSize;
    MorePages(0, page, cfg.pageSize);
  }

  lemma SwitchedStep(s: State, tag: int)
    requires Shape(s) && s.cfg.mode == MODE_TLB && 0 <= tag < NUM_TAG
    ensures Step(On(s), SetTag(tag)) == (On(SwitchTag(s, tag)), Status(OK))
  {
  }

  lemma SwitchedPage(s: State, tag: int, page: int)
    requires WellFormed(s) && s.cfg.mode == MODE_TLB && 0 <= tag < NUM_TAG && 0 <= page < s.cfg.numPages
    requires s.pages[tag][page].realProt == PROT_NONE
    ensures
      var r := SwitchTag(s, tag);
      WellFormed(r) && r.cfg == s.cfg && r.tag == tag && Current(r)[page] == s.pages[tag][page]
  {
    SwitchKeeps(s, tag);
  }

  lemma AbortingStep(s: State, page: int, access: Op)
    requires WellFormed(s) && 0 <= page < s.cfg.numPages && AccessTo(s.cfg, access, page)
    requires Current(s)[page].frame != -1 && Current(s)[page].virtProt == 2
    requires Current(s)[page].realProt == PROT_NONE
    ensures Step(On(s), access).1 == Aborted
  {
    InRegionIndex(s.cfg, access.addr);
    assert HostAgreesAt(Current(s)[page], s.host[page]);
    assert !Permits(s, access.addr, access.Store?);
    assert Handle(s, page).1 == InternalError;
    DeniedAccess(s, access.addr, RequestOf(access));
  }

  lemma EagerNeverAborts(m: Spec.EagerMachine, tag: int, access: Op)
    requires Spec.Good(m) && m.On? && (access.Load? || access.Store?) && InRegion(m.e.cfg, access.addr)
    ensures
      var k := [SetTag(tag)] + [access];
      Clean(m, k) && Aborted !in Spec.Run(m, k).1
  {
    var m1 := Spec.Step(m, SetTag(tag)).0;
    EagerOne(m1, access);
    EagerCons(m, SetTag(tag), [access]);
    CleanCons(m1, access, []);
    CleanCons(m, SetTag(tag), [access]);
  }

  lemma CleanCons(m: Spec.EagerMachine, op: Op, k: seq<Op>)
    requires Spec.Good(m) && Spec.Callable(m, op) && Documented(m, op)
    requires Spec.Step(m, op).1.Fatal() || Clean(Spec.Step(m, op).0, k)
    ensures Clean(m, [op] + k)
  {
    assert ([op] + k)[1..] == k;
  }

  /* Setting the reference bit alone opens the pages mapped to the frame without access: they can be
     loaded from, and a store to one is an internal error. */

  lemma {:induction false} UndocumentedSetAccess(s: State, frame: int, page: int, access: Op)
    requires SoundMachine(On(s)) && 0 <= page < s.cfg.numPages && AccessTo(s.cfg, access, page)
    requires Abs(s).maps[s.tag][page] == Spec.Present(frame, PROT_NONE)
    ensures
      var op, k, m := SetAccess(frame, 1), [access], AbsMachine(On(s));
      && Runnable(On(s), [op] + k) && |Run(On(s), [op] + k).1| == 2
      && (var o := Run(On(s), [op] + k).1[1]; if access.Load? then o.Loaded? else o == Aborted)
      && Spec.Runnable(m, [op] + k)
      && Spec.Run(m, [op] + k).1 == [Status(OK)] + [Trap(CAUSE_ACCESS, access.addr)]
      && !Same(On(s), op, k)
  {
    OpenedStep(s, frame, page, access);
    LazyTwo(On(s), SetAccess(frame, 1), access);
    EagerRefuses(AbsMachine(On(s)), frame, page, access);
  }

  lemma OpenedStep(s: State, frame: int, page: int, access: Op)
    requires SoundMachine(On(s)) && 0 <= page < s.cfg.numPages && AccessTo(s.cfg, access, page)
    requires Abs(s).maps[s.tag][page] == Spec.Present(frame, PROT_NONE)
    ensures
      var one := Step(On(s), SetAccess(frame, 1));
      var o := Step(one.0, access).1;
      one.1 == Status(OK) && if access.Load? then o.Loaded? else o == Aborted
  {
    OpenedPage(s, frame, page);
    var r := SetBits(s, frame, 1).0;
    if access.Load? {
      PermittedLoad(r, access.addr);
    } else {
      InRegionIndex(s.cfg, access.addr);
      DeniedAccess(r, access.addr, RequestOf(access));
    }
  }

  lemma PermittedLoad(s: State, addr: int)
    requires Shape(s) && Permits(s, addr, false)
    ensures Step(On(s), Load(addr)).1.Loaded?
  {
  }

  lemma {:induction false} EagerRefuses(m: Spec.EagerMachine, frame: int, page: int, access: Op)
    requires Spec.Good(m) && m.On? && 0 <= page < m.e.cfg.numPages && AccessTo(m.e.cfg, access, page)
    requires m.e.maps[m.e.tag][page] == Spec.Present(frame, PROT_NONE)
    ensures
      var ops := [SetAccess(frame, 1)] + [access];
      && Clean(Spec.Step(m, SetAccess(frame, 1)).0, [access])
      && Spec.Runnable(m, ops) && Spec.Run(m, ops).1 == [Status(OK)] + [Trap(CAUSE_ACCESS, access.addr)]
  {
    var e1 := Spec.Step(m, SetAccess(frame, 1)).0;
    RefusedStep(m, frame, page, access);
    EagerOne(e1, access);
    CleanCons(e1, access, []);
    EagerCons(m, SetAccess(frame, 1), [access]);
  }

  lemma RefusedStep(m: Spec.EagerMachine, frame: int, page: int, access: Op)
    requires Spec.Good(m) && m.On? && 0 <= page < m.e.cfg.numPages && AccessTo(m.e.cfg, access, page)
    requires m.e.maps[m.e.tag][page] == Spec.Present(frame, PROT_NONE)
    ensures
      var one := Spec.Step(m, SetAccess(frame, 1));
      && one.1 == Status(OK) && Documented(one.0, access)
      && Spec.Step(one.0, access).1 == Trap(CAUSE_ACCESS, access.addr)
  {
  }

  lemma OpenedPage(s: State, frame: int, page: int)
    requires WellFormed(s) && 0 <= page < s.cfg.numPages
    requires Abs(s).maps[s.tag][page] == Spec.Present(frame, PROT_NONE)
    ensures
      var r := SetBits(s, frame, 1);
      && r.1 == OK && r.0.cfg == s.cfg && r.0.host[page].prot == PROT_READ
      && Handle(r.0, page).1 == InternalError
  {
    assert Abs(s).maps[s.tag][page] == AbsPage(Current(s)[page]);
    assert PageOk(Current(s)[page], true, s.access);
  }
}
