/**
 One disk unit of src/dev_disk.c: the request register and its status, the head position, and the
 file that holds the sectors; and the disk its callers have in mind, an array of tracks of sectors.
 */
module Disk {
  import opened CInt

  const SECTOR_SIZE := 512
  const TRACK_SIZE := 16
  const TRACK_BYTES := SECTOR_SIZE * TRACK_SIZE

  const DEV_READY := 0
  const DEV_BUSY := 1
  const DEV_ERROR := 2
  const DEV_OK := DEV_READY
  const DEV_INVALID := DEV_ERROR

  const DISK_READ := 0
  const DISK_WRITE := 1
  const DISK_SEEK := 2
  const DISK_TRACKS := 3

  type Sector = s: seq<byte> | |s| == 512 witness seq(512, i => 0)

  // reg1 is a track, a sector or the address of an integer; reg2 the address of a buffer.
  datatype Request = Request(opr: int, reg1: int, reg2: int)

  datatype Unit = Unit(present: bool, tracks: nat, currentTrack: int, status: int, request: Request, file: seq<byte>)

  // What a completed request does to the caller's memory.
  datatype Effect = NoEffect | ToBuffer(addr: int, data: Sector) | ToInteger(addr: int, value: int)

  // Stopped: the simulator gives up on a request it cannot perform.
  datatype Outcome = Completed(d: Unit, effect: Effect) | Stopped

  /* ---- The program ------------------------------------------------------------------------ */

  // abs() and % of C: the least int has no absolute value, and a remainder the sign of its dividend.
  function Abs(x: int): int32 {
    AsInt(if x < 0 then -x else x)
  }

  function Rem(x: int, d: int): (r: int)
    requires d > 0
    ensures -d < r < d
  {
    if x < 0 then -((-x) % d) else x % d
  }

  function Delay(currentTrack: int, req: Request): (delay: int)
    ensures delay <= 3
  {
    var d := if req.opr == DISK_SEEK then 1 + Rem(Abs(AsInt(currentTrack - AsInt(req.reg1))), 10) else 1;
    if d > 3 then 3 else d
  }

  // A delay is one to three ticks, except for a seek by exactly -2^31 tracks: the ring takes its -7
  // for 249.
  lemma DelayShort(currentTrack: int, req: Request)
    ensures
      if req.opr == DISK_SEEK && AsInt(currentTrack - AsInt(req.reg1)) == -0x8000_0000
      then Delay(currentTrack, req) == -7
      else 1 <= Delay(currentTrack, req) <= 3
  {
  }

  // disk_request: the answer, and for an accepted request the delay of its interrupt.
  datatype Answer = Accepted(delay: int) | Refused(code: int)

  function Submit(d: Unit, req: Request): (r: (Unit, Answer))
    ensures r.1.Refused? ==> r.0 == d
    ensures r.1.Accepted? ==> d.present && d.status != DEV_BUSY && r.0 == d.(status := DEV_BUSY, request := req)
  {
    if !d.present then (d, Refused(DEV_INVALID))
    else if d.status == DEV_BUSY then (d, Refused(DEV_BUSY))
    else (d.(status := DEV_BUSY, request := req), Accepted(Delay(d.currentTrack, req)))
  }

  // disk_get_status.
  function GetStatus(d: Unit): (r: (Unit, int, int))
    ensures r.0 == d || (d.status == DEV_ERROR && r.0 == d.(status := DEV_READY))
  {
    if !d.present then (d, DEV_INVALID, 0)
    else (if d.status == DEV_ERROR then d.(status := DEV_READY) else d, DEV_OK, d.status)
  }

  // Where a sector is in the file, and what the program computes for it, in ints.
  function Offset(track: int, sector: int): int {
    (track * TRACK_SIZE + sector) * SECTOR_SIZE
  }

  function SeekLoc(currentTrack: int, sector: int): int32 {
    AsInt(Offset(currentTrack, sector))
  }

  // A write at an offset of the file; a gap before it reads as zeros.
  function WriteAt(file: seq<byte>, loc: nat, data: Sector): (r: seq<byte>)
    ensures |r| == if loc + 512 <= |file| then |file| else loc + 512
    ensures forall k :: 0 <= k < 512 ==> r[loc + k] == data[k]
    ensures forall k :: 0 <= k < |file| && !(loc <= k < loc + 512) ==> r[k] == file[k]
    ensures forall k :: |file| <= k < loc ==> r[k] == 0
  {
    if loc <= |file| then file[..loc] + data + (if loc + 512 <= |file| then file[loc + 512..] else [])
    else file + seq(loc - |file|, k => 0) + data
  }

  // disk_action: performs the stored request. `buffer` is what the caller's buffer holds now.
  function Complete(d: Unit, buffer: Sector): (r: Outcome)
    ensures r.Completed? ==> r.d.status != DEV_BUSY && r.d.present == d.present && r.d.request == d.request
  {
    var req, n := d.request, AsInt(d.request.reg1);
    if req.opr == DISK_SEEK then
      if n >= d.tracks || n < 0 then Completed(d.(status := DEV_ERROR), NoEffect)
      else Completed(d.(currentTrack := n, status := DEV_READY), NoEffect)
    else if req.opr == DISK_READ || req.opr == DISK_WRITE then
      if n >= TRACK_SIZE then Completed(d.(status := DEV_ERROR), NoEffect)
      else
        var loc := SeekLoc(d.currentTrack, n);
        if loc < 0 then Stopped
        else if req.opr == DISK_WRITE then
          Completed(d.(file := WriteAt(d.file, loc, buffer), status := DEV_READY), NoEffect)
        else if loc + SECTOR_SIZE > |d.file| then Stopped
        else Completed(d.(status := DEV_READY), ToBuffer(req.reg2, d.file[loc..loc + SECTOR_SIZE]))
    else if req.opr == DISK_TRACKS then
      Completed(d.(status := DEV_READY), ToInteger(req.reg1, d.tracks))
    else Stopped
  }

  // A disk of at least one track whose offsets are integers, as disk_init finds it and every
  // completed request leaves it.
  predicate DiskOk(d: Unit) {
    && d.present
    && 1 <= d.tracks && |d.file| == d.tracks * TRACK_BYTES <= MAX_INT
    && 0 <= d.currentTrack < d.tracks
    && (d.status == DEV_READY || d.status == DEV_BUSY || d.status == DEV_ERROR)
  }

  /* ---- The disk its callers have in mind -------------------------------------------------- */

  datatype Ideal = Ideal(cells: seq<seq<Sector>>, currentTrack: int, status: int, request: Request)

  datatype IdealOutcome = IdealCompleted(d: Ideal, effect: Effect) | IdealStopped

  predicate IdealOk(d: Ideal) {
    && (forall t :: 0 <= t < |d.cells| ==> |d.cells[t]| == TRACK_SIZE)
    && 0 <= d.currentTrack < |d.cells|
  }

  function WithCell(cells: seq<seq<Sector>>, t: nat, s: nat, data: Sector): (r: seq<seq<Sector>>)
    requires t < |cells| && s < |cells[t]|
  {
    var track: seq<Sector> := cells[t][s := data];
    cells[t := track]
  }

  // Impossible requests set the status to DEV_ERROR and do nothing else.
  function IdealComplete(d: Ideal, buffer: Sector): (r: IdealOutcome)
    requires IdealOk(d)
    ensures r.IdealCompleted? ==> IdealOk(r.d)
  {
    var req, n := d.request, AsInt(d.request.reg1);
    var done, impossible := d.(status := DEV_READY), IdealCompleted(d.(status := DEV_ERROR), NoEffect);
    match req.opr
    case 0 =>
      if 0 <= n < TRACK_SIZE then IdealCompleted(done, ToBuffer(req.reg2, d.cells[d.currentTrack][n]))
      else impossible
    case 1 =>
      if 0 <= n < TRACK_SIZE then
        IdealCompleted(done.(cells := WithCell(d.cells, d.currentTrack, n, buffer)), NoEffect)
      else impossible
    case 2 =>
      if 0 <= n < |d.cells| then IdealCompleted(done.(currentTrack := n), NoEffect) else impossible
    case 3 => IdealCompleted(done, ToInteger(req.reg1, |d.cells|))
    case _ => IdealStopped
  }

  function IdealSubmit(d: Ideal, req: Request): (r: (Ideal, Answer)) {
    if d.status == DEV_BUSY then (d, Refused(DEV_BUSY))
    else (d.(status := DEV_BUSY, request := req), Accepted(Delay(d.currentTrack, req)))
  }

  function IdealStatus(d: Ideal): (r: (Ideal, int, int)) {
    (if d.status == DEV_ERROR then d.(status := DEV_READY) else d, DEV_OK, d.status)
  }

  /* ---- The first is the second ------------------------------------------------------------ */

  function SectorAt(file: seq<byte>, tracks: nat, t: nat, s: nat): (r: Sector)
    requires |file| == tracks * TRACK_BYTES && t < tracks && s < TRACK_SIZE
  {
    file[Offset(t, s)..Offset(t, s) + SECTOR_SIZE]
  }

  function Cells(file: seq<byte>, tracks: nat): (r: seq<seq<Sector>>)
    requires |file| == tracks * TRACK_BYTES
    ensures |r| == tracks && (forall t :: 0 <= t < tracks ==> |r[t]| == TRACK_SIZE)
    ensures forall t, s :: 0 <= t < tracks && 0 <= s < TRACK_SIZE ==> r[t][s] == SectorAt(file, tracks, t, s)
  {
    seq(tracks, t requires 0 <= t < tracks && |file| == tracks * TRACK_BYTES =>
      seq(TRACK_SIZE, s requires 0 <= s < TRACK_SIZE => SectorAt(file, tracks, t, s)))
  }

  function IdealOf(d: Unit): (r: Ideal)
    requires DiskOk(d)
    ensures IdealOk(r)
  {
    Ideal(Cells(d.file, d.tracks), d.currentTrack, d.status, d.request)
  }

  // Different (track, sector) pairs occupy disjoint ranges of the file, all within it.
  lemma SectorsDisjoint(tracks: nat, t: nat, s: nat, u: nat, v: nat)
    requires t < tracks && u < tracks && s < TRACK_SIZE && v < TRACK_SIZE && (t != u || s != v)
    ensures 0 <= Offset(t, s) && Offset(t, s) + SECTOR_SIZE <= tracks * TRACK_BYTES
    ensures Offset(t, s) + SECTOR_SIZE <= Offset(u, v) || Offset(u, v) + SECTOR_SIZE <= Offset(t, s)
  {
    assert t * TRACK_SIZE + s != u * TRACK_SIZE + v;
  }

  lemma WriteCell(file: seq<byte>, tracks: nat, t: nat, s: nat, data: Sector)
    requires |file| == tracks * TRACK_BYTES && t < tracks && s < TRACK_SIZE
    ensures
      var r := WriteAt(file, Offset(t, s), data);
      |r| == |file| && Cells(r, tracks) == WithCell(Cells(file, tracks), t, s, data)
  {
    var at := Offset(t, s);
    var r := WriteAt(file, at, data);
    var cells := WithCell(Cells(file, tracks), t, s, data);
    SectorInside(tracks, t, s);
    forall u, v | 0 <= u < tracks && 0 <= v < TRACK_SIZE
      ensures Cells(r, tracks)[u][v] == cells[u][v]
    {
      SectorInside(tracks, u, v);
      if u == t && v == s {
        WrittenSector(file, at, data);
      } else {
        SectorsDisjoint(tracks, t, s, u, v);
        OtherSector(file, at, data, Offset(u, v));
      }
    }
    forall u | 0 <= u < tracks
      ensures Cells(r, tracks)[u] == cells[u]
    {
    }
  }

  lemma SectorInside(tracks: nat, t: nat, s: nat)
    requires t < tracks && s < TRACK_SIZE
    ensures 0 <= Offset(t, s) && Offset(t, s) + SECTOR_SIZE <= tracks * TRACK_BYTES
  {
  }

  lemma WrittenSector(file: seq<byte>, at: nat, data: Sector)
    requires at + SECTOR_SIZE <= |file|
    ensures |WriteAt(file, at, data)| == |file| && WriteAt(file, at, data)[at..at + SECTOR_SIZE] == data
  {
  }

  lemma OtherSector(file: seq<byte>, at: nat, data: Sector, other: nat)
    requires at + SECTOR_SIZE <= |file| && other + SECTOR_SIZE <= |file|
    requires at + SECTOR_SIZE <= other || other + SECTOR_SIZE <= at
    ensures |WriteAt(file, at, data)| == |file|
    ensures WriteAt(file, at, data)[other..other + SECTOR_SIZE] == file[other..other + SECTOR_SIZE]
  {
  }

  // The one request whose completion is not what the callers have in mind.
  predicate NegativeSector(req: Request) {
    (req.opr == DISK_READ || req.opr == DISK_WRITE) && AsInt(req.reg1) < 0
  }

  ghost predicate Matches(r: Outcome, i: IdealOutcome) {
    match i
    case IdealStopped => r == Stopped
    case IdealCompleted(id, effect) => r.Completed? && DiskOk(r.d) && IdealOf(r.d) == id && r.effect == effect
  }

  // The file performs a request as the array of tracks does, exactly when its sector is not negative.
  // A negative sector is not refused: it reaches into an earlier track, or before the file.
  lemma CompleteIsIdeal(d: Unit, buffer: Sector)
    requires DiskOk(d)
    ensures Matches(Complete(d, buffer), IdealComplete(IdealOf(d), buffer)) <==> !NegativeSector(d.request)
  {
    var req, n := d.request, AsInt(d.request.reg1);
    if req.opr == DISK_READ || req.opr == DISK_WRITE {
      if 0 <= n < TRACK_SIZE {
        TransferIsIdeal(d, buffer);
      } else if n < 0 {
        NegativeIsNot(d, buffer);
      }
    }
  }

  lemma TransferIsIdeal(d: Unit, buffer: Sector)
    requires DiskOk(d) && (d.request.opr == DISK_READ || d.request.opr == DISK_WRITE)
    requires 0 <= AsInt(d.request.reg1) < TRACK_SIZE
    ensures Matches(Complete(d, buffer), IdealComplete(IdealOf(d), buffer))
  {
    var n := AsInt(d.request.reg1);
    SectorInside(d.tracks, d.currentTrack, n);
    if d.request.opr == DISK_WRITE {
      WriteCell(d.file, d.tracks, d.currentTrack, n, buffer);
    } else {
      assert Cells(d.file, d.tracks)[d.currentTrack][n] == SectorAt(d.file, d.tracks, d.currentTrack, n);
    }
  }

  // The ideal disk reports an error; the file's is stopped or ready.
  lemma NegativeIsNot(d: Unit, buffer: Sector)
    requires DiskOk(d) && NegativeSector(d.request)
    ensures IdealComplete(IdealOf(d), buffer) == IdealCompleted(IdealOf(d).(status := DEV_ERROR), NoEffect)
    ensures Complete(d, buffer).Stopped? || Complete(d, buffer).d.status == DEV_READY
  {
  }

  // The sector, counted from the start of the file, that a request for a negative sector reaches:
  // multiplied by the size of a sector in ints, its number keeps 23 bits.
  function Reached(d: Unit): (block: int)
    ensures -0x40_0000 <= block < 0x40_0000
  {
    (d.currentTrack * TRACK_SIZE + AsInt(d.request.reg1) + 0x40_0000) % 0x80_0000 - 0x40_0000
  }

  // Where it leads: before the file, which stops the simulator; into the file, where that sector is
  // read or written although the request is impossible; or past its end, where a write extends it.
  lemma {:induction false} NegativeSectorReaches(d: Unit, buffer: Sector)
    requires DiskOk(d) && NegativeSector(d.request)
    ensures
      var block, i, r := Reached(d), IdealOf(d), Complete(d, buffer);
      if block < 0 then r == Stopped
      else if block < d.tracks * TRACK_SIZE then
        var t, s := block / TRACK_SIZE, block % TRACK_SIZE;
        && r.Completed? && DiskOk(r.d)
        && if d.request.opr == DISK_READ then
             r.d == d.(status := DEV_READY) && r.effect == ToBuffer(d.request.reg2, i.cells[t][s])
           else
             IdealOf(r.d) == i.(status := DEV_READY, cells := WithCell(i.cells, t, s, buffer)) && r.effect == NoEffect
      else if d.request.opr == DISK_READ then r == Stopped
      else r.Completed? && |d.file| < |r.d.file| && r.d.file[..|d.file|] == d.file
  {
    ReachedOffset(d);
    if 0 <= Reached(d) < d.tracks * TRACK_SIZE {
      ReachedInside(d, buffer);
    }
  }

  lemma ReachedInside(d: Unit, buffer: Sector)
    requires DiskOk(d) && NegativeSector(d.request) && 0 <= Reached(d) < d.tracks * TRACK_SIZE
    ensures
      var i, r := IdealOf(d), Complete(d, buffer);
      var t, s := Reached(d) / TRACK_SIZE, Reached(d) % TRACK_SIZE;
      && r.Completed? && DiskOk(r.d)
      && if d.request.opr == DISK_READ then
           r.d == d.(status := DEV_READY) && r.effect == ToBuffer(d.request.reg2, i.cells[t][s])
         else
           IdealOf(r.d) == i.(status := DEV_READY, cells := WithCell(i.cells, t, s, buffer)) && r.effect == NoEffect
  {
    var t, s := Reached(d) / TRACK_SIZE, Reached(d) % TRACK_SIZE;
    ReachedOffset(d);
    assert SeekLoc(d.currentTrack, AsInt(d.request.reg1)) == Offset(t, s);
    SectorInside(d.tracks, t, s);
    if d.request.opr == DISK_WRITE {
      WriteCell(d.file, d.tracks, t, s, buffer);
    } else {
      assert Cells(d.file, d.tracks)[t][s] == SectorAt(d.file, d.tracks, t, s);
    }
  }

  lemma ReachedOffset(d: Unit)
    ensures SeekLoc(d.currentTrack, AsInt(d.request.reg1)) == Reached(d) * SECTOR_SIZE
  {
  }

  // Unless the multiplication overflows, that sector is on an earlier track, or before the file.
  lemma EarlierTrack(d: Unit)
    requires DiskOk(d) && NegativeSector(d.request)
    requires -0x40_0000 <= d.currentTrack * TRACK_SIZE + AsInt(d.request.reg1)
    ensures
      var block := Reached(d);
      && block == d.currentTrack * TRACK_SIZE + AsInt(d.request.reg1)
      && (block < 0 || block / TRACK_SIZE < d.currentTrack)
  {
  }

  /* ---- Runs ------------------------------------------------------------------------------- */

  datatype Op = Ask(req: Request) | Interrupt(buffer: Sector) | Query

  datatype Obs = Asked(answer: Answer) | Performed(effect: Effect) | Halt | Queried(code: int, status: int)

  function Step(d: Unit, op: Op): (Unit, Obs) {
    match op
    case Ask(req) => var r := Submit(d, req); (r.0, Asked(r.1))
    case Interrupt(buffer) =>
      (match Complete(d, buffer)
       case Completed(d1, effect) => (d1, Performed(effect))
       case Stopped => (d, Halt))
    case Query => var r := GetStatus(d); (r.0, Queried(r.1, r.2))
  }

  function IdealStep(d: Ideal, op: Op): (r: (Ideal, Obs))
    requires IdealOk(d)
    ensures IdealOk(r.0)
  {
    match op
    case Ask(req) => var r := IdealSubmit(d, req); (r.0, Asked(r.1))
    case Interrupt(buffer) =>
      (match IdealComplete(d, buffer)
       case IdealCompleted(d1, effect) => (d1, Performed(effect))
       case IdealStopped => (d, Halt))
    case Query => var r := IdealStatus(d); (r.0, Queried(r.1, r.2))
  }

  function Run(d: Unit, ops: seq<Op>): (Unit, seq<Obs>)
    decreases |ops|
  {
    if ops == [] then (d, [])
    else
      var one := Step(d, ops[0]);
      if one.1 == Halt then (one.0, [Halt])
      else var rest := Run(one.0, ops[1..]); (rest.0, [one.1] + rest.1)
  }

  function IdealRun(d: Ideal, ops: seq<Op>): (Ideal, seq<Obs>)
    requires IdealOk(d)
    decreases |ops|
  {
    if ops == [] then (d, [])
    else
      var one := IdealStep(d, ops[0]);
      if one.1 == Halt then (one.0, [Halt])
      else var rest := IdealRun(one.0, ops[1..]); (rest.0, [one.1] + rest.1)
  }

  predicate NoNegativeSector(ops: seq<Op>) {
    forall i :: 0 <= i < |ops| && ops[i].Ask? ==> !NegativeSector(ops[i].req)
  }

  // Any run of requests, completions and status queries, with the buffers' contents taken when the
  // request is performed, shows what the array of tracks would show.
  lemma {:induction false} StorageRefines(d: Unit, ops: seq<Op>)
    requires DiskOk(d) && !NegativeSector(d.request) && NoNegativeSector(ops)
    ensures
      var r, i := Run(d, ops), IdealRun(IdealOf(d), ops);
      DiskOk(r.0) && IdealOf(r.0) == i.0 && r.1 == i.1
    decreases |ops|
  {
    if ops != [] {
      if ops[0].Interrupt? {
        CompleteIsIdeal(d, ops[0].buffer);
      }
      var one := Step(d, ops[0]);
      if one.1 != Halt {
        StorageRefines(one.0, ops[1..]);
      }
    }
  }

  /* ---- The unit as the program keeps it --------------------------------------------------- */

  class DiskInfo {
    var present: bool
    var tracks: nat
    var currentTrack: int
    var status: int
    var request: Request
    var file: seq<byte>

    function State(): Unit
      reads this
    {
      Unit(present, tracks, currentTrack, status, request, file)
    }

    // disk_init: without a file, or with one that does not end with a whole track, there is no disk.
    constructor (isOpen: bool, file: seq<byte>)
      ensures present <==> isOpen && |file| % TRACK_BYTES == 0
      ensures this.file == file && tracks == |file| / TRACK_BYTES && currentTrack == 0 && status == DEV_READY
      ensures present && |file| > 0 && |file| <= MAX_INT ==> DiskOk(State())
    {
      present := isOpen && |file| % TRACK_BYTES == 0;
      tracks := |file| / TRACK_BYTES;
      currentTrack := 0;
      status := DEV_READY;
      request := Request(0, 0, 0);
      this.file := file;
    }

    method DiskRequest(req: Request) returns (answer: Answer)
      modifies this
      ensures (State(), answer) == Submit(old(State()), req)
    {
      if !present {
        return Refused(DEV_INVALID);
      }
      if status == DEV_BUSY {
        return Refused(DEV_BUSY);
      }
      status := DEV_BUSY;
      request := req;
      var delay := 1;
      if req.opr == DISK_SEEK {
        delay := 1 + Rem(Abs(AsInt(currentTrack - AsInt(req.reg1))), 10);
      }
      if delay > 3 {
        delay := 3;
      }
      return Accepted(delay);
    }

    method DiskGetStatus() returns (code: int, s: int)
      modifies this
      ensures (State(), code, s) == GetStatus(old(State()))
    {
      if !present {
        return DEV_INVALID, 0;
      }
      s := status;
      if s == DEV_ERROR {
        status := DEV_READY;
      }
      code := DEV_OK;
    }

    method DiskAction(buffer: Sector) returns (stopped: bool, effect: Effect)
      modifies this
      ensures
        match Complete(old(State()), buffer)
        case Completed(d, e) => !stopped && State() == d && effect == e
        case Stopped => stopped && State() == old(State())
    {
      var result, n := DEV_READY, AsInt(request.reg1);
      stopped, effect := false, NoEffect;
      if request.opr == DISK_SEEK {
        if n >= tracks || n < 0 {
          result := DEV_ERROR;
        } else {
          currentTrack := n;
        }
      } else if request.opr == DISK_READ || request.opr == DISK_WRITE {
        if n >= TRACK_SIZE {
          result := DEV_ERROR;
        } else {
          var loc := AsInt((currentTrack * TRACK_SIZE + n) * SECTOR_SIZE);
          if loc < 0 {
            return true, NoEffect;
          }
          if request.opr == DISK_WRITE {
            file := WriteAt(file, loc, buffer);
          } else if loc + SECTOR_SIZE > |file| {
            return true, NoEffect;
          } else {
            effect := ToBuffer(request.reg2, file[loc..loc + SECTOR_SIZE]);
          }
        }
      } else if request.opr == DISK_TRACKS {
        effect := ToInteger(request.reg1, tracks);
      } else {
        return true, NoEffect;
      }
      status := result;
    }
  }
}
