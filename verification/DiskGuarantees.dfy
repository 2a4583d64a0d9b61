/**
 What a caller of a disk gets, in its own numbers: the operations, registers and codes of usloss.h.
 */
module DiskGuarantees {
  import opened CInt
  import opened Disk

  // The bytes of a sector: 16 sectors of 512 bytes to a track.
  function SectorOf(d: Unit, t: int, s: int): (r: Sector)
    requires DiskOk(d) && 0 <= t < d.tracks && 0 <= s < 16
  {
    SectorInside(d.tracks, t, s);
    d.file[(t * 16 + s) * 512..(t * 16 + s) * 512 + 512]
  }

  // A request that is taken and whose interrupt comes: the unit afterwards, and what was done.
  predicate Serves(d: Unit, req: Request, buffer: Sector, r: Unit, effect: Effect) {
    var asked := Step(d, Ask(req));
    asked.1 == Asked(Accepted(Delay(d.currentTrack, req))) && Step(asked.0, Interrupt(buffer)) == (r, Performed(effect))
  }

  // Nothing but the track, the status and the stored request.
  function Moved(d: Unit, req: Request, track: int, status: int): Unit {
    d.(request := req, currentTrack := track, status := status)
  }

  lemma SeekServes(d: Unit, t: int, reg2: int, buffer: Sector)
    requires DiskOk(d) && d.status != 1 && 0 <= t < d.tracks
    ensures Serves(d, Request(2, t, reg2), buffer, Moved(d, Request(2, t, reg2), t, 0), NoEffect)
  {
  }

  lemma ReadServes(d: Unit, s: int, reg2: int, buffer: Sector)
    requires DiskOk(d) && d.status != 1 && 0 <= s < 16
    ensures
      var req := Request(0, s, reg2);
      Serves(d, req, buffer, Moved(d, req, d.currentTrack, 0), ToBuffer(reg2, SectorOf(d, d.currentTrack, s)))
  {
    SectorInside(d.tracks, d.currentTrack, s);
  }

  lemma WriteServes(d: Unit, s: int, reg2: int, buffer: Sector) returns (r: Unit)
    requires DiskOk(d) && d.status != 1 && 0 <= s < 16
    ensures Serves(d, Request(1, s, reg2), buffer, r, NoEffect)
    ensures DiskOk(r) && r == Moved(d, Request(1, s, reg2), d.currentTrack, 0).(file := r.file)
    ensures SectorOf(r, d.currentTrack, s) == buffer
    ensures forall t, v :: 0 <= t < d.tracks && 0 <= v < 16 && (t != d.currentTrack || v != s) ==>
      SectorOf(r, t, v) == SectorOf(d, t, v)
  {
    var at := Offset(d.currentTrack, s);
    SectorInside(d.tracks, d.currentTrack, s);
    r := Step(Step(d, Ask(Request(1, s, reg2))).0, Interrupt(buffer)).0;
    WrittenSector(d.file, at, buffer);
    assert r.file == WriteAt(d.file, at, buffer);
    forall t, v | 0 <= t < d.tracks && 0 <= v < 16 && (t != d.currentTrack || v != s)
      ensures SectorOf(r, t, v) == SectorOf(d, t, v)
    {
      SectorInside(d.tracks, t, v);
      SectorsDisjoint(d.tracks, d.currentTrack, s, t, v);
      OtherSector(d.file, at, buffer, Offset(t, v));
    }
  }

  // What is written to a track and sector is read back from it, to the address asked for, whatever
  // the registers not used hold, and no other sector has changed.
  lemma WriteThenRead(d: Unit, t: int, s: int, regs: (int, int), to: int, data: Sector, buffers: (Sector, Sector))
    returns (sought: Unit, written: Unit, r: Unit)
    requires DiskOk(d) && d.status != 1 && 0 <= t < d.tracks && 0 <= s < 16
    ensures Serves(d, Request(2, t, regs.0), buffers.0, sought, NoEffect)
    ensures Serves(sought, Request(1, s, regs.1), data, written, NoEffect)
    ensures Serves(written, Request(0, s, to), buffers.1, r, ToBuffer(to, data))
    ensures DiskOk(r) && r.tracks == d.tracks && r.currentTrack == t && r.status == 0
    ensures forall u, v :: 0 <= u < d.tracks && 0 <= v < 16 ==>
      SectorOf(r, u, v) == if u == t && v == s then data else SectorOf(d, u, v)
  {
    SeekServes(d, t, regs.0, buffers.0);
    sought := Moved(d, Request(2, t, regs.0), t, 0);
    written := WriteServes(sought, s, regs.1, data);
    ReadServes(written, s, to, buffers.1);
    r := Moved(written, Request(0, s, to), t, 0);
    forall u, v | 0 <= u < d.tracks && 0 <= v < 16
      ensures SectorOf(r, u, v) == if u == t && v == s then data else SectorOf(d, u, v)
    {
      assert SectorOf(r, u, v) == SectorOf(written, u, v);
      assert SectorOf(sought, u, v) == SectorOf(d, u, v);
    }
  }

  lemma TracksServes(d: Unit, reg1: int, reg2: int, buffer: Sector)
    requires DiskOk(d) && d.status != 1
    ensures
      var req := Request(3, reg1, reg2);
      Serves(d, req, buffer, Moved(d, req, d.currentTrack, 0), ToInteger(reg1, d.tracks))
  {
  }

  // A seek off the disk or a sector past the track is performed as an error, which the status tells
  // once: the register is 2 at the first query and 0 at the next.
  lemma ErrorToldOnce(d: Unit, req: Request, buffer: Sector)
    requires DiskOk(d) && d.status != 1
    requires
      || (req.opr == 2 && !(0 <= AsInt(req.reg1) < d.tracks))
      || ((req.opr == 0 || req.opr == 1) && AsInt(req.reg1) >= 16)
    ensures
      var r := Moved(d, req, d.currentTrack, 2);
      && Serves(d, req, buffer, r, NoEffect)
      && Step(r, Query) == (r.(status := 0), Queried(0, 2))
      && Step(Step(r, Query).0, Query) == (r.(status := 0), Queried(0, 0))
  {
  }

  // The answers to a request and to a query. A busy unit keeps its request.
  lemma Answers(d: Unit, req: Request)
    ensures !d.present ==> Step(d, Ask(req)) == (d, Asked(Refused(2))) && Step(d, Query) == (d, Queried(2, 0))
    ensures d.present && d.status == 1 ==>
      Step(d, Ask(req)) == (d, Asked(Refused(1))) && Step(d, Query) == (d, Queried(0, 1))
    ensures d.present && d.status != 1 ==>
      && Step(d, Ask(req)) == (d.(request := req, status := 1), Asked(Accepted(Delay(d.currentTrack, req))))
      && Step(d, Query).1 == Queried(0, d.status)
  {
  }

  // Reads, writes and questions for the tracks take one tick; a seek over k tracks one more than the
  // last digit of k, and three at most.
  lemma DelayExact(currentTrack: int, req: Request)
    requires -0x8000_0000 < currentTrack - AsInt(req.reg1) < 0x8000_0000
    ensures req.opr != 2 ==> Delay(currentTrack, req) == 1
    ensures
      var t := AsInt(req.reg1);
      var k := if currentTrack < t then t - currentTrack else currentTrack - t;
      req.opr == 2 ==> Delay(currentTrack, req) == if k % 10 >= 2 then 3 else 1 + k % 10
  {
  }
}
