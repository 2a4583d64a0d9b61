/**
 The MMU as its documentation describes it: a set of mappings with a protection each, and access
 bits that every load and store sets at once. There is no real protection, no host mapping and no
 fault handler here; the number of mappings is counted, not kept; a page table is installed in one
 go. The lazy machine is compared with this one.
 */
module EagerMmu {
  import opened CInt
  import opened MmuTypes

  datatype Entry = Absent | Present(frame: int, prot: int)

  datatype Eager = Eager(
    cfg: Config,
    maps: seq<seq<Entry>>,
    access: seq<int>,
    tag: int,
    cause: int,
    mem: seq<seq<byte>>)

  datatype EagerMachine = Off | On(e: Eager)

  ghost predicate Shape(e: Eager) {
    && (e.cfg.mode == MODE_TLB || e.cfg.mode == MODE_PAGETABLE)
    && |e.maps| == NUM_TAG
    && (forall t :: 0 <= t < NUM_TAG ==> |e.maps[t]| == e.cfg.numPages)
    && (forall t, i :: 0 <= t < NUM_TAG && 0 <= i < e.cfg.numPages ==> InRange(e.cfg, e.maps[t][i]))
    && |e.access| == e.cfg.numFrames
    && |e.mem| == e.cfg.numFrames + 1
    && (forall f :: 0 <= f < |e.mem| ==> |e.mem[f]| == e.cfg.pageSize)
    && 0 <= e.tag < NUM_TAG
  }

  predicate InRange(cfg: Config, entry: Entry) {
    entry.Present? ==> 0 <= entry.frame < cfg.numFrames
  }

  // The (tag, page) pairs that have a mapping.
  ghost function Live(e: Eager): set<(int, int)>
    requires Shape(e)
  {
    set t, i | 0 <= t < NUM_TAG && 0 <= i < e.cfg.numPages && e.maps[t][i].Present? :: (t, i)
  }

  ghost function MapEntry(e: Eager, tag: int, page: int, frame: int, prot: int): (r: (Eager, int))
    requires Shape(e)
    ensures Shape(r.0)
  {
    if page < 0 || page >= e.cfg.numPages then (e, ERR_PAGE)
    else if frame < 0 || frame >= e.cfg.numFrames then (e, ERR_FRAME)
    else if |Live(e)| == e.cfg.maxMaps then (e, ERR_MAPS)
    else if !TwoBits(prot) then (e, ERR_PROT)
    else if tag < 0 || tag >= NUM_TAG then (e, ERR_TAG)
    else if e.maps[tag][page].Present? then (e, ERR_REMAP)
    else (e.(maps := e.maps[tag := e.maps[tag][page := Present(frame, prot)]]), OK)
  }

  ghost function UnmapEntry(e: Eager, tag: int, page: int): (r: (Eager, int))
    requires Shape(e)
    ensures Shape(r.0)
  {
    if page < 0 || page >= e.cfg.numPages then (e, ERR_PAGE)
    else if tag < 0 || tag >= NUM_TAG then (e, ERR_TAG)
    else if e.maps[tag][page].Absent? then (e, ERR_NOMAP)
    else (e.(maps := e.maps[tag := e.maps[tag][page := Absent]]), OK)
  }

  // What is wrong with one page-table entry, or OK.
  function EntryStatus(cfg: Config, pte: Pte): int {
    if !pte.incore then OK
    else if WantedProt(pte).WriteOnly? then ERR_PROT
    else if pte.frame >= cfg.numFrames then ERR_FRAME
    else OK
  }

  function EntryOf(pte: Pte): (entry: Entry)
    requires pte.incore ==> WantedProt(pte).Wanted?
  {
    if pte.incore then Present(pte.frame, WantedProt(pte).prot) else Absent
  }

  // The first entry with something wrong, or the number of pages.
  function FirstBad(cfg: Config, ptes: seq<Pte>, i: nat): (b: nat)
    requires i <= cfg.numPages <= |ptes|
    ensures i <= b <= cfg.numPages
    ensures forall k :: i <= k < b ==> EntryStatus(cfg, ptes[k]) == OK
    ensures b < cfg.numPages ==> EntryStatus(cfg, ptes[b]) != OK
    decreases cfg.numPages - i
  {
    if i == cfg.numPages || EntryStatus(cfg, ptes[i]) != OK then i else FirstBad(cfg, ptes, i + 1)
  }

  function TableStatus(cfg: Config, table: PageTable): int
    requires table.Table? ==> cfg.numPages <= |table.ptes|
  {
    match table
    case NoTable => OK
    case Table(ptes) =>
      var b := FirstBad(cfg, ptes, 0);
      if b == cfg.numPages then OK else EntryStatus(cfg, ptes[b])
  }

  // The row a page table stands for: its entries up to the first bad one, nothing after that.
  function TableRow(cfg: Config, table: PageTable): (row: seq<Entry>)
    requires table.Table? ==> cfg.numPages <= |table.ptes|
    ensures |row| == cfg.numPages
  {
    match table
    case NoTable => seq(cfg.numPages, i => Absent)
    case Table(ptes) =>
      var b := FirstBad(cfg, ptes, 0);
      seq(cfg.numPages, i requires 0 <= i < cfg.numPages <= |ptes| && (i < b ==> EntryStatus(cfg, ptes[i]) == OK) =>
        if i < b then EntryOf(ptes[i]) else Absent)
  }

  ghost function LoadTable(e: Eager, table: PageTable): (r: (Eager, int))
    requires Shape(e) && (table.Table? ==> e.cfg.numPages <= |table.ptes|)
    ensures Shape(r.0)
  {
    (e.(maps := e.maps[0 := TableRow(e.cfg, table)]), TableStatus(e.cfg, table))
  }

  // A load or store: the page decides whether it goes ahead, and what it marks on the frame. A
  // store to a read-only page is refused, but counts as a reference.
  ghost function Access(e: Eager, addr: int, write: bool, value: byte): (r: (Eager, Obs))
    requires Shape(e)
    ensures Shape(r.0)
  {
    if addr < 0 || addr / e.cfg.pageSize >= e.cfg.numPages then (e, SegFault)
    else match e.maps[e.tag][addr / e.cfg.pageSize]
      case Absent => (e.(cause := CAUSE_FAULT), Trap(CAUSE_FAULT, addr))
      case Present(f, prot) =>
        var o := addr % e.cfg.pageSize;
        var referenced := if Readable(prot) then Marked(e, f, false) else e;
        if !write then
          if Readable(prot) then (referenced, Loaded(e.mem[f][o]))
          else (e.(cause := CAUSE_ACCESS), Trap(CAUSE_ACCESS, addr))
        else
          if Writable(prot) then (Marked(e, f, true).(mem := WithByte(e.mem, f, o, value)), Stored)
          else (referenced.(cause := CAUSE_ACCESS), Trap(CAUSE_ACCESS, addr))
  }

  ghost function Marked(e: Eager, frame: int, dirty: bool): (r: Eager)
    requires Shape(e) && 0 <= frame < e.cfg.numFrames
    ensures Shape(r) && r.mem == e.mem && r.cfg == e.cfg
  {
    var bits := OrRef(e.access[frame]);
    e.(access := e.access[frame := if dirty then OrDirty(bits) else bits])
  }

  function Started(cfg: Config): Eager {
    Eager(cfg,
          seq(NUM_TAG, t => seq(cfg.numPages, i => Absent)),
          seq(cfg.numFrames, f => 0),
          0, 0,
          seq(cfg.numFrames + 1, f => seq(cfg.pageSize, o => FILLER)))
  }

  predicate Callable(m: EagerMachine, op: Op) {
    op.SetPageTable? && op.table.Table? && m.On? ==> m.e.cfg.numPages <= |op.table.ptes|
  }

  ghost predicate Good(m: EagerMachine) {
    m.On? ==> Shape(m.e)
  }

  ghost function Step(m: EagerMachine, op: Op): (r: (EagerMachine, Obs))
    requires Good(m) && Callable(m, op)
    ensures Good(r.0)
  {
    match m
    case Off => StepOff(op)
    case On(e) => StepOn(e, op)
  }

  ghost function StepOff(op: Op): (r: (EagerMachine, Obs))
    ensures Good(r.0)
  {
    match op
    case Init(numMaps, numPages, numFrames, pageSize, mode) =>
      var status := InitStatus(numMaps, numPages, numFrames, mode);
      if status != OK then (Off, Status(status))
      else
        (On(Started(Config(numPages, numFrames, pageSize, InitMaxMaps(numMaps, numPages, mode), mode))), Status(OK))
    case _ => (Off, OffAnswer(op))
  }

  ghost function StepOn(e: Eager, op: Op): (r: (EagerMachine, Obs))
    requires Shape(e) && Callable(On(e), op)
    ensures Good(r.0)
  {
    match op
    case Init(_, _, _, _, _) => (On(e), Status(ERR_ON))
    case Done => (Off, Status(OK))
    case Map(tag, page, frame, prot) =>
      if e.cfg.mode != MODE_TLB then (On(e), Status(ERR_MODE))
      else var r := MapEntry(e, tag, page, frame, prot); (On(r.0), Status(r.1))
    case Unmap(tag, page) =>
      if e.cfg.mode != MODE_TLB then (On(e), Status(ERR_MODE))
      else var r := UnmapEntry(e, tag, page); (On(r.0), Status(r.1))
    case SetTag(newTag) =>
      if e.cfg.mode != MODE_TLB then (On(e), Status(ERR_MODE))
      else if newTag < 0 || newTag >= NUM_TAG then (On(e), Status(ERR_TAG))
      else (On(e.(tag := newTag)), Status(OK))
    case SetAccess(frame, bits) =>
      if frame < 0 || frame >= e.cfg.numFrames then (On(e), Status(ERR_FRAME))
      else if !TwoBits(bits) then (On(e), Status(ERR_ACC))
      else (On(e.(access := e.access[frame := bits])), Status(OK))
    case SetPageTable(table) =>
      if e.cfg.mode != MODE_PAGETABLE then (On(e), Status(ERR_MODE))
      else var r := LoadTable(e, table); (On(r.0), Status(r.1))
    case GetMap(tag, page, isNull) =>
      if e.cfg.mode != MODE_TLB then (On(e), Status(ERR_MODE))
      else if page < 0 || page >= e.cfg.numPages then (On(e), Status(ERR_PAGE))
      else if tag < 0 || tag >= NUM_TAG then (On(e), Status(ERR_TAG))
      else if e.maps[tag][page].Absent? then (On(e), Status(ERR_NOMAP))
      else if isNull then (On(e), Status(ERR_NULL))
      else (On(e), Mapping(e.maps[tag][page].frame, e.maps[tag][page].prot))
    case GetAccess(frame, isNull) =>
      if frame < 0 || frame >= e.cfg.numFrames then (On(e), Status(ERR_FRAME))
      else if isNull then (On(e), Status(ERR_NULL))
      else (On(e), Answer(e.access[frame]))
    case GetTag(isNull) =>
      if e.cfg.mode != MODE_TLB then (On(e), Status(ERR_MODE))
      else if isNull then (On(e), Status(ERR_NULL))
      else (On(e), Answer(e.tag))
    case GetCause => (On(e), Answer(e.cause))
    case Load(addr) => var r := Access(e, addr, false, 0); (On(r.0), r.1)
    case Store(addr, b) => var r := Access(e, addr, true, b); (On(r.0), r.1)
    case PeekFrame(f, o) =>
      if f < e.cfg.numFrames && o < e.cfg.pageSize then (On(e), Loaded(e.mem[f][o])) else (On(e), SegFault)
    case PokeFrame(f, o, b) =>
      if f < e.cfg.numFrames && o < e.cfg.pageSize then (On(e.(mem := WithByte(e.mem, f, o, b))), Stored)
      else (On(e), SegFault)
  }

  // Every page table handed over in the run has an entry for every page.
  ghost predicate Runnable(m: EagerMachine, ops: seq<Op>)
    requires Good(m)
    decreases |ops|
  {
    ops == [] ||
    (&& Callable(m, ops[0])
     && var one := Step(m, ops[0]);
     && (one.1.Fatal() || Runnable(one.0, ops[1..])))
  }

  // A run stops after a request the process does not survive.
  ghost function Run(m: EagerMachine, ops: seq<Op>): (r: (EagerMachine, seq<Obs>))
    requires Good(m) && Runnable(m, ops)
    ensures Good(r.0)
    decreases |ops|
  {
    if ops == [] then (m, [])
    else
      var one := Step(m, ops[0]);
      if one.1.Fatal() then (one.0, [one.1])
      else
        var rest := Run(one.0, ops[1..]);
        (rest.0, [one.1] + rest.1)
  }
}
