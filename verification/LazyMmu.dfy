/**
 The MMU of src/mmu.c as functions on its state: four tables of pages with a virtual and a real
 protection, access bits per frame, a counter of live mappings, and behind them the mapping the
 host holds for each page of the region, which only `mmap` changes. Access bits are kept up to
 date lazily: a page starts with no real access and the fault handler raises it step by step.
 */
module LazyMmu {
  import opened CInt
  import opened MmuTypes

  // What a page of the region is backed by in the host: the memory the region was carved from, or
  // a frame of the physical-memory file. Frame number numFrames of that file is "nowhere".
  datatype Backing = Anonymous | FileFrame(n: int)
  datatype HostPage = HostPage(backing: Backing, prot: int)

  datatype Page = Page(frame: int, virtProt: int, realProt: int)

  const NO_PAGE := Page(-1, PROT_NONE, PROT_NONE)

  datatype State = State(
    cfg: Config,
    pages: seq<seq<Page>>,
    access: seq<int>,
    numMaps: int,
    tag: int,
    cause: int,
    host: seq<HostPage>,
    mem: seq<seq<byte>>)

  datatype Machine = Off | On(s: State)

  /* ---- What every state looks like -------------------------------------------------------- */

  predicate FrameInRange(cfg: Config, frame: int) {
    -1 <= frame < cfg.numFrames
  }

  predicate BackingInRange(cfg: Config, h: HostPage) {
    match h.backing
    case Anonymous => h.prot == PROT_NONE
    case FileFrame(n) => 0 <= n <= cfg.numFrames
  }

  predicate Shape(s: State) {
    && (s.cfg.mode == MODE_TLB || s.cfg.mode == MODE_PAGETABLE)
    && |s.pages| == NUM_TAG
    && (forall t :: 0 <= t < NUM_TAG ==> |s.pages[t]| == s.cfg.numPages)
    && (forall t, i :: 0 <= t < NUM_TAG && 0 <= i < s.cfg.numPages ==> FrameInRange(s.cfg, s.pages[t][i].frame))
    && |s.access| == s.cfg.numFrames
    && |s.host| == s.cfg.numPages
    && (forall i :: 0 <= i < s.cfg.numPages ==> BackingInRange(s.cfg, s.host[i]))
    && |s.mem| == s.cfg.numFrames + 1
    && (forall f :: 0 <= f < |s.mem| ==> |s.mem[f]| == s.cfg.pageSize)
    && 0 <= s.tag < NUM_TAG
  }

  function Current(s: State): (row: seq<Page>)
    requires Shape(s)
    ensures |row| == s.cfg.numPages
  {
    s.pages[s.tag]
  }

  function WithPage(s: State, tag: int, page: int, g: Page): (r: State)
    requires Shape(s) && 0 <= tag < NUM_TAG && 0 <= page < s.cfg.numPages && FrameInRange(s.cfg, g.frame)
    ensures Shape(r)
  {
    s.(pages := s.pages[tag := s.pages[tag][page := g]])
  }

  // `mmap` with MAP_FIXED of one page of the region.
  function WithHost(s: State, page: int, h: HostPage): (r: State)
    requires Shape(s) && 0 <= page < s.cfg.numPages && BackingInRange(s.cfg, h)
    ensures Shape(r)
  {
    s.(host := s.host[page := h])
  }

  function WithRow(s: State, row: seq<Page>, host: seq<HostPage>): (r: State)
    requires Shape(s) && |row| == |host| == s.cfg.numPages
    requires forall i :: 0 <= i < s.cfg.numPages ==> FrameInRange(s.cfg, row[i].frame) && BackingInRange(s.cfg, host[i])
    ensures Shape(r)
  {
    s.(pages := s.pages[s.tag := row], host := host)
  }

  /* ---- Map, Unmap, SetRealProt ------------------------------------------------------------ */

  function MapPage(s: State, tag: int, page: int, frame: int, prot: int): (r: (State, int))
    requires Shape(s)
    ensures Shape(r.0)
  {
    if page < 0 || page >= s.cfg.numPages then (s, ERR_PAGE)
    else if frame < 0 || frame >= s.cfg.numFrames then (s, ERR_FRAME)
    else if s.numMaps == s.cfg.maxMaps then (s, ERR_MAPS)
    else if !TwoBits(prot) then (s, ERR_PROT)
    else if tag < 0 || tag >= NUM_TAG then (s, ERR_TAG)
    else if s.pages[tag][page].frame != -1 then (s, ERR_REMAP)
    else
      var s1 := if tag == s.tag then WithHost(s, page, HostPage(FileFrame(frame), PROT_NONE)) else s;
      (WithPage(s1, tag, page, Page(frame, prot, PROT_NONE)).(numMaps := s.numMaps + 1), OK)
  }

  function UnmapPage(s: State, tag: int, page: int): (r: (State, int))
    requires Shape(s)
    ensures Shape(r.0)
  {
    if page < 0 || page >= s.cfg.numPages then (s, ERR_PAGE)
    else if tag < 0 || tag >= NUM_TAG then (s, ERR_TAG)
    else if s.pages[tag][page].frame == -1 then (s, ERR_NOMAP)
    else
      var s1 := if tag == s.tag then WithHost(s, page, HostPage(FileFrame(s.cfg.numFrames), PROT_NONE)) else s;
      (WithPage(s1, tag, page, NO_PAGE).(numMaps := s.numMaps - 1), OK)
  }

  function SetReal(s: State, page: int, prot: int): (r: State)
    requires Shape(s) && 0 <= page < s.cfg.numPages && Current(s)[page].frame != -1
    ensures Shape(r) && r.cfg == s.cfg
  {
    var g := Current(s)[page];
    WithHost(WithPage(s, s.tag, page, g.(realProt := prot)), page, HostPage(FileFrame(g.frame), prot))
  }

  // A page is selected when it is mapped, and mapped to `frame` unless that is -1.
  predicate Selected(g: Page, frame: int) {
    g.frame != -1 && (frame == -1 || g.frame == frame)
  }

  // The state after SetRealProt(i, prot) for every selected page i below k of the current tag.
  function Protect(s: State, frame: int, prot: int, k: int): (r: State)
    requires Shape(s)
    ensures Shape(r)
  {
    var row, n := Current(s), s.cfg.numPages;
    WithRow(s,
            seq(n, i requires 0 <= i < n && |row| == n =>
              if i < k && Selected(row[i], frame) then row[i].(realProt := prot) else row[i]),
            seq(n, i requires 0 <= i < n && |row| == |s.host| == n =>
              if i < k && Selected(row[i], frame) then HostPage(FileFrame(row[i].frame), prot) else s.host[i]))
  }

  // The state after the pages below k mapped under the current tag are given to the host, without access.
  function Show(s: State, k: int): (r: State)
    requires Shape(s)
    ensures Shape(r)
  {
    var row, n := Current(s), s.cfg.numPages;
    s.(host := seq(n, i requires 0 <= i < n && |row| == |s.host| == n =>
                 if i < k && row[i].frame != -1 then HostPage(FileFrame(row[i].frame), PROT_NONE) else s.host[i]))
  }

  function SwitchTag(s: State, newTag: int): (r: State)
    requires Shape(s) && 0 <= newTag < NUM_TAG
    ensures Shape(r)
  {
    if newTag == s.tag then s
    else Show(Protect(s, -1, PROT_NONE, s.cfg.numPages).(tag := newTag), s.cfg.numPages)
  }

  function SetBits(s: State, frame: int, bits: int): (r: (State, int))
    requires Shape(s)
    ensures Shape(r.0)
  {
    if frame < 0 || frame >= s.cfg.numFrames then (s, ERR_FRAME)
    else if !TwoBits(bits) then (s, ERR_ACC)
    else
      var s1 := s.(access := s.access[frame := bits]);
      if !HasRef(bits) then (Protect(s1, frame, PROT_NONE, s.cfg.numPages), OK)
      else if !HasDirty(bits) then (Protect(s1, frame, PROT_READ, s.cfg.numPages), OK)
      else (s1, OK)
  }

  /* ---- Page tables ------------------------------------------------------------------------ */

  function UnmapFrom(s: State, i: int): (r: State)
    requires Shape(s) && 0 <= i <= s.cfg.numPages
    ensures Shape(r) && r.cfg == s.cfg
    decreases s.cfg.numPages - i
  {
    if i == s.cfg.numPages then s else UnmapFrom(UnmapPage(s, 0, i).0, i + 1)
  }

  function MapFrom(s: State, ptes: seq<Pte>, i: int): (r: (State, int))
    requires Shape(s) && 0 <= i <= s.cfg.numPages <= |ptes|
    ensures Shape(r.0) && r.0.cfg == s.cfg
    decreases s.cfg.numPages - i
  {
    if i == s.cfg.numPages then (s, OK)
    else if !ptes[i].incore then MapFrom(s, ptes, i + 1)
    else match WantedProt(ptes[i])
      case WriteOnly => (s, ERR_PROT)
      case Wanted(prot) =>
        var r := MapPage(s, 0, i, ptes[i].frame, prot);
        if r.1 != OK then r else MapFrom(r.0, ptes, i + 1)
  }

  function InstallTable(s: State, table: PageTable): (r: (State, int))
    requires Shape(s) && (table.Table? ==> s.cfg.numPages <= |table.ptes|)
    ensures Shape(r.0) && r.0.cfg == s.cfg
  {
    var s1 := UnmapFrom(s, 0);
    match table
    case NoTable => (s1, OK)
    case Table(ptes) => MapFrom(s1, ptes, 0)
  }

  /* ---- The fault handler and the accesses that lead to it --------------------------------- */

  // The page number the handler computes for an address: the quotient is rounded towards zero, and
  // then stored in an int.
  function PageIndex(addr: int, pageSize: pos): int32 {
    AsInt(if addr >= 0 then addr / pageSize else -((-addr) / pageSize))
  }

  predicate InRegion(cfg: Config, addr: int) {
    0 <= addr && addr / cfg.pageSize < cfg.numPages
  }

  // The page of the current tag at an address.
  function PageAt(s: State, addr: int): Page
    requires Shape(s) && InRegion(s.cfg, addr)
  {
    Current(s)[addr / s.cfg.pageSize]
  }

  // It is right in the region. Outside, it may still be the number of a page.
  lemma InRegionIndex(cfg: Config, addr: int)
    requires InRegion(cfg, addr)
    ensures PageIndex(addr, cfg.pageSize) == addr / cfg.pageSize
  {
    assert 0 <= addr / cfg.pageSize;
  }

  datatype Verdict = Retry | Interrupt(cause: int) | DefaultAction | InternalError

  function Handle(s: State, page: int): (r: (State, Verdict))
    requires Shape(s)
    ensures Shape(r.0) && r.0.cfg == s.cfg && r.0.tag == s.tag
    ensures r.1.Retry? ==> 0 <= page < s.cfg.numPages && Level(r.0, page) == Level(s, page) + 1
  {
    if page < 0 || page >= s.cfg.numPages then (s, DefaultAction)
    else
      var g := Current(s)[page];
      if g.frame == -1 then (s.(cause := CAUSE_FAULT), Interrupt(CAUSE_FAULT))
      else if (g.realProt == PROT_NONE && g.virtProt == PROT_NONE)
        || (g.realProt == PROT_READ && g.virtProt == PROT_READ)
        || (g.realProt == PROT_RW && g.virtProt == PROT_RW) then
        (s.(cause := CAUSE_ACCESS), Interrupt(CAUSE_ACCESS))
      else if g.realProt == PROT_READ && g.virtProt == PROT_RW then
        (SetReal(s, page, PROT_RW).(access := s.access[g.frame := OrDirty(s.access[g.frame])]), Retry)
      else if g.realProt == PROT_NONE && (g.virtProt == PROT_READ || g.virtProt == PROT_RW) then
        (SetReal(s, page, PROT_READ).(access := s.access[g.frame := OrRef(s.access[g.frame])]), Retry)
      else (s, InternalError)
  }

  // How far the real protection of a page of the current tag has been raised.
  function Level(s: State, page: int): (r: int)
    requires Shape(s)
    ensures 0 <= r <= 2
  {
    if page < 0 || page >= s.cfg.numPages then 0 else LevelOf(Current(s)[page].realProt)
  }

  function LevelOf(prot: int): (r: nat) {
    if prot == PROT_NONE then 0 else if prot == PROT_READ then 1 else 2
  }

  // What the host allows at an address of the region; the pages around it are never accessible.
  predicate Permits(s: State, addr: int, write: bool)
    requires Shape(s)
  {
    && InRegion(s.cfg, addr)
    && var h := s.host[addr / s.cfg.pageSize];
    && (if write then Writable(h.prot) else Readable(h.prot))
  }

  datatype Request = Reading | Writing(value: byte)

  // The access itself, once the host allows it.
  function Perform(s: State, addr: int, req: Request): (r: (State, Obs))
    requires Shape(s) && Permits(s, addr, req.Writing?)
    ensures Shape(r.0)
  {
    var f, o := s.host[addr / s.cfg.pageSize].backing.n, addr % s.cfg.pageSize;
    match req
    case Reading => (s, Loaded(s.mem[f][o]))
    case Writing(b) => (s.(mem := WithByte(s.mem, f, o, b)), Stored)
  }

  // One load or store by a process: tried, and on denial tried again after each silent run of the
  // handler. The third component counts those silent runs.
  function Access(s: State, addr: int, req: Request): (r: (State, Obs, nat))
    requires Shape(s)
    ensures Shape(r.0)
    decreases 2 - Level(s, PageIndex(addr, s.cfg.pageSize))
  {
    if Permits(s, addr, req.Writing?) then
      var p := Perform(s, addr, req);
      (p.0, p.1, 0)
    else
      var h := Handle(s, PageIndex(addr, s.cfg.pageSize));
      match h.1
      case Retry =>
        var r := Access(h.0, addr, req);
        (r.0, r.1, r.2 + 1)
      case Interrupt(cause) => (h.0, Trap(cause, addr), 0)
      case DefaultAction => (h.0, SegFault, 0)
      case InternalError => (h.0, Aborted, 0)
  }

  /* ---- The whole machine ------------------------------------------------------------------ */

  function Started(cfg: Config): (s: State) {
    State(cfg,
          seq(NUM_TAG, t => seq(cfg.numPages, i => NO_PAGE)),
          seq(cfg.numFrames, f => 0),
          0, 0, 0,
          seq(cfg.numPages, i => HostPage(Anonymous, PROT_NONE)),
          seq(cfg.numFrames + 1, f => seq(cfg.pageSize, o => FILLER)))
  }

  // A page table a caller hands over has at least one entry for every page.
  predicate Callable(m: Machine, op: Op) {
    op.SetPageTable? && op.table.Table? && m.On? ==> m.s.cfg.numPages <= |op.table.ptes|
  }

  predicate Good(m: Machine) {
    m.On? ==> Shape(m.s)
  }

  function Step(m: Machine, op: Op): (r: (Machine, Obs))
    requires Good(m) && Callable(m, op)
    ensures Good(r.0)
  {
    match m
    case Off => StepOff(op)
    case On(s) => StepOn(s, op)
  }

  function StepOff(op: Op): (r: (Machine, Obs))
    ensures Good(r.0)
  {
    match op
    case Init(numMaps, numPages, numFrames, pageSize, mode) =>
      var status := InitStatus(numMaps, numPages, numFrames, mode);
      if status != OK then (Off, Status(status))
      else
        (On(Started(Config(numPages, numFrames, pageSize, InitMaxMaps(numMaps, numPages, mode), mode))), Status(OK))
    case _ => (Off, OffAnswer(op))
  }

  function StepOn(s: State, op: Op): (r: (Machine, Obs))
    requires Shape(s) && Callable(On(s), op)
    ensures Good(r.0)
  {
    match op
    case Init(_, _, _, _, _) => (On(s), Status(ERR_ON))
    case Done => (Off, Status(OK))
    case Map(tag, page, frame, prot) =>
      if s.cfg.mode != MODE_TLB then (On(s), Status(ERR_MODE))
      else var r := MapPage(s, tag, page, frame, prot); (On(r.0), Status(r.1))
    case Unmap(tag, page) =>
      if s.cfg.mode != MODE_TLB then (On(s), Status(ERR_MODE))
      else var r := UnmapPage(s, tag, page); (On(r.0), Status(r.1))
    case SetTag(newTag) =>
      if s.cfg.mode != MODE_TLB then (On(s), Status(ERR_MODE))
      else if newTag < 0 || newTag >= NUM_TAG then (On(s), Status(ERR_TAG))
      else (On(SwitchTag(s, newTag)), Status(OK))
    case SetAccess(frame, bits) => var r := SetBits(s, frame, bits); (On(r.0), Status(r.1))
    case SetPageTable(table) =>
      if s.cfg.mode != MODE_PAGETABLE then (On(s), Status(ERR_MODE))
      else var r := InstallTable(s, table); (On(r.0), Status(r.1))
    case GetMap(tag, page, isNull) =>
      if s.cfg.mode != MODE_TLB then (On(s), Status(ERR_MODE))
      else if page < 0 || page >= s.cfg.numPages then (On(s), Status(ERR_PAGE))
      else if tag < 0 || tag >= NUM_TAG then (On(s), Status(ERR_TAG))
      else if s.pages[tag][page].frame == -1 then (On(s), Status(ERR_NOMAP))
      else if isNull then (On(s), Status(ERR_NULL))
      else (On(s), Mapping(s.pages[tag][page].frame, s.pages[tag][page].virtProt))
    case GetAccess(frame, isNull) =>
      if frame < 0 || frame >= s.cfg.numFrames then (On(s), Status(ERR_FRAME))
      else if isNull then (On(s), Status(ERR_NULL))
      else (On(s), Answer(s.access[frame]))
    case GetTag(isNull) =>
      if s.cfg.mode != MODE_TLB then (On(s), Status(ERR_MODE))
      else if isNull then (On(s), Status(ERR_NULL))
      else (On(s), Answer(s.tag))
    case GetCause => (On(s), Answer(s.cause))
    case Load(addr) => var r := Access(s, addr, Reading); (On(r.0), r.1)
    case Store(addr, b) => var r := Access(s, addr, Writing(b)); (On(r.0), r.1)
    case PeekFrame(f, o) =>
      if f < s.cfg.numFrames && o < s.cfg.pageSize then (On(s), Loaded(s.mem[f][o])) else (On(s), SegFault)
    case PokeFrame(f, o, b) =>
      if f < s.cfg.numFrames && o < s.cfg.pageSize then
        (On(s.(mem := WithByte(s.mem, f, o, b))), Stored)
      else (On(s), SegFault)
  }

  // Every page table handed over in the run has an entry for every page.
  predicate Runnable(m: Machine, ops: seq<Op>)
    requires Good(m)
    decreases |ops|
  {
    ops == [] ||
    (&& Callable(m, ops[0])
     && var one := Step(m, ops[0]);
     && (one.1.Fatal() || Runnable(one.0, ops[1..])))
  }

  // A run stops after a request the process does not survive.
  function Run(m: Machine, ops: seq<Op>): (r: (Machine, seq<Obs>))
    requires Good(m) && Runnable(m, ops)
    ensures Good(r.0)
    decreases |ops|
  {
    if ops == [] then (m, [])
    else
      var one := Step(m, ops[0]);
      if one.1.Fatal() then (one.0, [one.1])
      else
        var rest := Run(one.0, ops[1..]);
        (rest.0, [one.1] + rest.1)
  }
}
