/**
 Values shared by the code-level model of the MMU and by the reference model it is compared with:
 the numeric codes of usloss.h, the page-table entry, the requests a run is made of and what each
 of them lets its caller observe.
 */
module MmuTypes {
  import opened CInt

  const NUM_TAG := 4

  const MODE_TLB := 1
  const MODE_PAGETABLE := 2

  const OK := 0
  const ERR_OFF := 1
  const ERR_ON := 2
  const ERR_PAGE := 3
  const ERR_FRAME := 4
  const ERR_PROT := 5
  const ERR_TAG := 6
  const ERR_REMAP := 7
  const ERR_NOMAP := 8
  const ERR_ACC := 9
  const ERR_MAPS := 10
  const ERR_MODE := 11
  const ERR_NULL := 12

  const PROT_NONE := 0
  const PROT_READ := 1
  const PROT_RW := 3

  const CAUSE_FAULT := 1
  const CAUSE_ACCESS := 2

  const FILLER: byte := 56

  type pos = x: int | 1 <= x witness 1
  type size = x: int32 | 1 <= x witness 1
  type frame29 = x: int | 0 <= x < 0x2000_0000

  // One entry of a page table: three one-bit fields and a 29-bit frame number.
  datatype Pte = Pte(incore: bool, read: bool, write: bool, frame: frame29)

  // The sizes and the mode fixed when the MMU is started.
  datatype Config = Config(numPages: size, numFrames: size, pageSize: pos, maxMaps: nat, mode: int)

  // Everything the operating system and its processes can ask of the MMU. Addresses are byte
  // offsets from the start of the region; `isNull` says that a result pointer was null.
  datatype Op =
    | Init(numMaps: int32, numPages: int32, numFrames: int32, pageSize: pos, mode: int)
    | Done
    | Map(tag: int, page: int, frame: int, prot: int)
    | Unmap(tag: int, page: int)
    | SetTag(newTag: int)
    | SetAccess(frame: int, bits: int)
    | SetPageTable(table: PageTable)
    | GetMap(tag: int, page: int, isNull: bool)
    | GetAccess(frame: int, isNull: bool)
    | GetTag(isNull: bool)
    | GetCause
    | Load(addr: int)
    | Store(addr: int, value: byte)
    | PeekFrame(physFrame: nat, offset: nat)
    | PokeFrame(physFrame: nat, offset: nat, value: byte)

  datatype PageTable = NoTable | Table(ptes: seq<Pte>)

  // What one request lets its caller observe.
  datatype Obs =
    | Status(code: int)
    | Answer(answer: int)
    | Mapping(frame: int, prot: int)
    | Loaded(value: byte)
    | Stored
    | Trap(cause: int, addr: int)
    | SegFault
    | Aborted
  {
    // The process does not survive these.
    predicate Fatal() {
      SegFault? || Aborted?
    }
  }

  // `(x & ~3) == 0` for a 32-bit integer x: both for protections and for access bits.
  predicate TwoBits(x: int) {
    0 <= x <= 3
  }

  predicate HasRef(bits: int) {
    bits == 1 || bits == 3
  }

  predicate HasDirty(bits: int) {
    bits == 2 || bits == 3
  }

  function OrRef(bits: int): (r: int)
    ensures HasRef(bits) ==> r == bits
    ensures TwoBits(bits) ==> TwoBits(r) && HasRef(r) && (HasDirty(r) <==> HasDirty(bits))
  {
    if HasRef(bits) then bits else bits + 1
  }

  function OrDirty(bits: int): (r: int)
    ensures HasDirty(bits) ==> r == bits
    ensures TwoBits(bits) ==> TwoBits(r) && HasDirty(r) && (HasRef(r) <==> HasRef(bits))
  {
    if HasDirty(bits) then bits else bits + 2
  }

  predicate Readable(prot: int) {
    prot == PROT_READ || prot == PROT_RW
  }

  predicate Writable(prot: int) {
    prot == PROT_RW
  }

  // The protection a page-table entry asks for, or None for the write-only combination.
  datatype Wanted = Wanted(prot: int) | WriteOnly

  function WantedProt(pte: Pte): (w: Wanted)
    ensures w.Wanted? ==> w.prot == PROT_NONE || w.prot == PROT_READ || w.prot == PROT_RW
  {
    if pte.read && !pte.write then Wanted(PROT_READ)
    else if pte.read && pte.write then Wanted(PROT_RW)
    else if !pte.read && !pte.write then Wanted(PROT_NONE)
    else WriteOnly
  }

  // The status a request to start the MMU returns, and the number of mappings it then allows.
  function InitStatus(numMaps: int, numPages: int, numFrames: int, mode: int): int {
    if numPages < 1 then ERR_PAGE
    else if numFrames < 1 then ERR_FRAME
    else if mode == MODE_PAGETABLE then OK
    else if mode == MODE_TLB then if numMaps < 1 || numMaps > numPages * NUM_TAG then ERR_MAPS else OK
    else ERR_MODE
  }

  function InitMaxMaps(numMaps: int, numPages: int, mode: int): int {
    if mode == MODE_PAGETABLE then numPages else numMaps
  }

  // The answer of an MMU that is off to everything but a request that starts it.
  function OffAnswer(op: Op): Obs {
    match op
    case GetCause => Answer(0)
    case Load(_) => SegFault
    case Store(_, _) => SegFault
    case PeekFrame(_, _) => SegFault
    case PokeFrame(_, _, _) => SegFault
    case _ => Status(ERR_OFF)
  }

  // Physical memory with one byte of one frame replaced.
  function WithByte(mem: seq<seq<byte>>, frame: nat, offset: nat, b: byte): (r: seq<seq<byte>>)
    requires frame < |mem| && offset < |mem[frame]|
    ensures |r| == |mem|
    ensures forall f :: 0 <= f < |mem| ==> |r[f]| == |mem[f]|
    ensures r[frame][offset] == b
    ensures forall f, o :: 0 <= f < |mem| && 0 <= o < |mem[f]| && (f != frame || o != offset) ==> r[f][o] == mem[f][o]
  {
    var row: seq<byte> := mem[frame][offset := b];
    mem[frame := row]
  }
}
