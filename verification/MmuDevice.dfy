/**
 The MMU as the program keeps it: tables in arrays, updated in place. Every method is proved
 against the function of LazyMmu that says what it does, and the program's own consistency checks
 (its assert calls) are proved never to fail.
 */
module MmuDevice {
  import opened CInt
  import opened MmuTypes
  import opened LazyMmu
  import opened MmuInvariant

  method NewArray<T>(n: nat, x: T) returns (a: array<T>)
    ensures fresh(a) && a[..] == seq(n, i => x)
  {
    a := new T[n](i => x);
  }

  class MmuInfo {
    const numPages: size
    const numFrames: size
    const pageSize: pos
    const maxMaps: nat
    const mode: int
    const pages: seq<array<Page>>
    const access: array<int>
    const host: array<HostPage>
    var numMaps: int
    var tag: int
    var cause: int
    var mem: seq<seq<byte>>

    ghost predicate Laid() {
      && |pages| == NUM_TAG
      && (forall t :: 0 <= t < NUM_TAG ==> pages[t].Length == numPages)
      && (forall t, u :: 0 <= t < u < NUM_TAG ==> pages[t] != pages[u])
      && access.Length == numFrames
      && host.Length == numPages
    }

    ghost function State(): State
      requires Laid()
      reads this, pages, access, host
    {
      LazyMmu.State(
        Config(numPages, numFrames, pageSize, maxMaps, mode),
        [pages[0][..], pages[1][..], pages[2][..], pages[3][..]],
        access[..], numMaps, tag, cause, host[..], mem)
    }

    ghost predicate Valid()
      reads this, pages, access, host
    {
      Laid() && WellFormed(State())
    }

    ghost function Repr(): set<object> {
      {this, access, host} + set a | a in pages
    }

    // USLOSS_MmuInit, once its arguments have been accepted.
    constructor (cfg: Config)
      requires cfg.mode == MODE_TLB || cfg.mode == MODE_PAGETABLE
      requires cfg.mode == MODE_PAGETABLE ==> cfg.maxMaps == cfg.numPages
      ensures Valid() && State() == Started(cfg)
      ensures fresh(Repr())
    {
      numPages, numFrames, pageSize, maxMaps, mode := cfg.numPages, cfg.numFrames, cfg.pageSize, cfg.maxMaps, cfg.mode;
      var frames := NewArray(cfg.numFrames, 0);
      var region := NewArray(cfg.numPages, HostPage(Anonymous, PROT_NONE));
      var tables: seq<array<Page>> := [];
      for t := 0 to NUM_TAG
        invariant |tables| == t
        invariant forall u :: 0 <= u < t ==> fresh(tables[u]) && tables[u][..] == seq(cfg.numPages, i => NO_PAGE)
        invariant forall u, v :: 0 <= u < v < t ==> tables[u] != tables[v]
        invariant frames[..] == seq(cfg.numFrames, f => 0)
        invariant region[..] == seq(cfg.numPages, i => HostPage(Anonymous, PROT_NONE))
      {
        var table := NewArray(cfg.numPages, NO_PAGE);
        tables := tables + [table];
      }
      pages, access, host := tables, frames, region;
      numMaps, tag, cause := 0, 0, 0;
      mem := seq(cfg.numFrames + 1, f => seq(cfg.pageSize, o => FILLER));
      new;
      StartedWellFormed(cfg);
      var started := Started(cfg);
      assert State().pages == started.pages;
      assert State().access == started.access;
      assert State().host == started.host;
      assert State() == started;
    }

    /* The single reads and writes that everything below is made of. */

    method Entry(t: int, page: int) returns (g: Page)
      requires Laid() && 0 <= t < NUM_TAG && 0 <= page < numPages
      ensures g == State().pages[t][page]
    {
      g := pages[t][page];
      assert State().pages[t] == pages[t][..];
    }

    method PutEntry(t: int, page: int, g: Page)
      requires Laid() && Shape(State()) && 0 <= t < NUM_TAG && 0 <= page < numPages
      requires FrameInRange(State().cfg, g.frame)
      modifies pages
      ensures State() == WithPage(old(State()), t, page, g)
    {
      pages[t][page] := g;
      assert pages[t][..] == old(pages[t][..])[page := g];
    }

    method Mmap(page: int, frame: int, prot: int)
      requires Laid() && Shape(State()) && 0 <= page < numPages && 0 <= frame <= numFrames
      modifies host
      ensures State() == WithHost(old(State()), page, HostPage(FileFrame(frame), prot))
    {
      host[page] := HostPage(FileFrame(frame), prot);
      assert host[..] == old(host[..])[page := HostPage(FileFrame(frame), prot)];
    }

    method PutBits(frame: int, bits: int)
      requires Laid() && 0 <= frame < numFrames
      modifies access
      ensures State() == old(State()).(access := old(State()).access[frame := bits])
    {
      access[frame] := bits;
      assert access[..] == old(access[..])[frame := bits];
    }

    // USLOSS_MmuTouch: whether the host lets an address of the page be read.
    method Touch(page: int) returns (touched: bool)
      requires Laid() && 0 <= page < numPages
      ensures touched == Readable(State().host[page].prot)
    {
      touched := Readable(host[page].prot);
    }

    // The program's own check: no unmapped page of the current tag is accessible.
    method CheckUnmapped()
      requires Laid() && Shape(State()) && HostAgrees(State())
    {
      for i := 0 to numPages {
        var g := Entry(tag, i);
        if g.frame == -1 {
          assert HostAgreesAt(Current(State())[i], State().host[i]);
          var touched := Touch(i);
          assert !touched;
        }
      }
    }

    method SetRealProt(page: int, prot: int)
      requires Laid() && Shape(State()) && HostAgrees(State())
      requires 0 <= page < numPages && Current(State())[page].frame != -1
      modifies pages, host
      ensures State() == SetReal(old(State()), page, prot)
      ensures HostAgrees(State())
    {
      var g := Entry(tag, page);
      PutEntry(tag, page, g.(realProt := prot));
      Mmap(page, g.frame, prot);
      SetRealHost(old(State()), page, prot);
      CheckUnmapped();
    }

    method Map(t: int, page: int, frame: int, prot: int) returns (status: int)
      requires Valid() && (mode == MODE_TLB || t == 0)
      modifies this, pages, host
      ensures Valid() && (State(), status) == MapPage(old(State()), t, page, frame, prot)
    {
      MapKeeps(State(), t, page, frame, prot);
      if page < 0 || page >= numPages {
        return ERR_PAGE;
      }
      if frame < 0 || frame >= numFrames {
        return ERR_FRAME;
      }
      if numMaps == maxMaps {
        return ERR_MAPS;
      }
      if !TwoBits(prot) {
        return ERR_PROT;
      }
      if t < 0 || t >= NUM_TAG {
        return ERR_TAG;
      }
      var g := Entry(t, page);
      if g.frame != -1 {
        return ERR_REMAP;
      }
      if t == tag {
        Mmap(page, frame, PROT_NONE);
      }
      PutEntry(t, page, Page(frame, prot, PROT_NONE));
      numMaps := numMaps + 1;
      assert numMaps <= maxMaps;
      return OK;
    }

    method Unmap(t: int, page: int) returns (status: int)
      requires Valid()
      modifies this, pages, host
      ensures Valid() && (State(), status) == UnmapPage(old(State()), t, page)
    {
      ghost var s := State();
      if page < 0 || page >= numPages {
        return ERR_PAGE;
      }
      if t < 0 || t >= NUM_TAG {
        return ERR_TAG;
      }
      var g := Entry(t, page);
      if g.frame == -1 {
        return ERR_NOMAP;
      }
      if t == tag {
        Mmap(page, numFrames, PROT_NONE);
        var touched := Touch(page);
        assert !touched;
      }
      ghost var s1 := State();
      PutEntry(t, page, NO_PAGE);
      numMaps := numMaps - 1;
      assert State() == WithPage(s1, t, page, NO_PAGE).(numMaps := s.numMaps - 1);
      UnmapKeeps(s, t, page);
      return OK;
    }

    method SetAccess(frame: int, bits: int) returns (status: int)
      requires Valid()
      modifies this, pages, access, host
      ensures Valid() && (State(), status) == SetBits(old(State()), frame, bits)
    {
      BitsKeeps(State(), frame, bits);
      if frame < 0 || frame >= numFrames {
        return ERR_FRAME;
      }
      if !TwoBits(bits) {
        return ERR_ACC;
      }
      PutBits(frame, bits);
      if !HasRef(bits) {
        ProtectPages(frame, PROT_NONE);
      } else if !HasDirty(bits) {
        ProtectPages(frame, PROT_READ);
      }
      return OK;
    }

    // The loops of USLOSS_MmuSetAccess and of SetTag over the pages of the current tag: those mapped
    // to `frame`, or, when that is -1, all that are mapped.
    method ProtectPages(frame: int, prot: int)
      requires Laid() && Shape(State()) && HostAgrees(State())
      modifies pages, host
      ensures State() == Protect(old(State()), frame, prot, numPages)
    {
      ghost var s := State();
      ProtectNothing(s, frame, prot);
      for i := 0 to numPages
        invariant State() == Protect(s, frame, prot, i)
        invariant HostAgrees(State())
      {
        ProtectStep(s, frame, prot, i);
        var g := Entry(tag, i);
        if g.frame != -1 && (frame == -1 || g.frame == frame) {
          SetRealProt(i, prot);
        }
      }
    }

    // SetTag, for a tag its caller has checked.
    method SetTag(newTag: int) returns (status: int)
      requires Valid() && 0 <= newTag < NUM_TAG && mode == MODE_TLB
      modifies this, pages, host
      ensures Valid() && State() == SwitchTag(old(State()), newTag) && status == OK
    {
      SwitchKeeps(State(), newTag);
      if tag == newTag {
        return OK;
      }
      ProtectPages(-1, PROT_NONE);
      tag := newTag;
      ShowPages();
      return OK;
    }

    method ShowPages()
      requires Laid() && Shape(State())
      modifies host
      ensures State() == Show(old(State()), numPages)
    {
      ghost var hidden := State();
      assert Show(hidden, 0).host == hidden.host;
      for i := 0 to numPages
        invariant State() == Show(hidden, i)
      {
        ShowStep(hidden, i);
        var g := Entry(tag, i);
        if g.frame != -1 {
          Mmap(i, g.frame, PROT_NONE);
        }
      }
    }

    // USLOSS_MmuHandler, up to the call of the interrupt handler.
    method Handler(page: int) returns (verdict: Verdict)
      requires Valid()
      modifies this, pages, access, host
      ensures Valid() && (State(), verdict) == Handle(old(State()), page)
    {
      HandleKeeps(State(), page);
      if page < 0 || page >= numPages {
        return DefaultAction;
      }
      var g := Entry(tag, page);
      if g.frame == -1 {
        cause := CAUSE_FAULT;
        return Interrupt(CAUSE_FAULT);
      }
      assert PageOk(g, true, State().access);
      assert TwoBits(g.realProt) && TwoBits(g.virtProt);
      match (g.realProt, g.virtProt) {
        case (0, 0) => cause := CAUSE_ACCESS; return Interrupt(CAUSE_ACCESS);
        case (1, 1) => cause := CAUSE_ACCESS; return Interrupt(CAUSE_ACCESS);
        case (3, 3) => cause := CAUSE_ACCESS; return Interrupt(CAUSE_ACCESS);
        case (1, 3) => Raise(page, g.frame, PROT_RW, OrDirty(access[g.frame]));
        case (0, 1) => Raise(page, g.frame, PROT_READ, OrRef(access[g.frame]));
        case (0, 3) => Raise(page, g.frame, PROT_READ, OrRef(access[g.frame]));
        case _ => return InternalError;
      }
      return Retry;
    }

    method Raise(page: int, frame: int, prot: int, bits: int)
      requires Laid() && Shape(State()) && HostAgrees(State())
      requires 0 <= page < numPages && Current(State())[page].frame == frame != -1
      modifies pages, access, host
      ensures
        var s := old(State());
        State() == SetReal(s, page, prot).(access := s.access[frame := bits])
    {
      SetRealProt(page, prot);
      PutBits(frame, bits);
    }

    // The host's side of a load or store.
    method HostPermits(addr: int, write: bool) returns (ok: bool)
      requires Valid()
      ensures ok == Permits(State(), addr, write)
    {
      if addr < 0 || addr / pageSize >= numPages {
        return false;
      }
      var h := host[addr / pageSize];
      assert State().host[addr / pageSize] == h;
      return if write then Writable(h.prot) else Readable(h.prot);
    }

    method Transfer(addr: int, req: Request) returns (obs: Obs)
      requires Valid() && Permits(State(), addr, req.Writing?)
      modifies `mem
      ensures Valid() && (State(), obs) == Perform(old(State()), addr, req)
    {
      ghost var s := State();
      assert BackingInRange(s.cfg, s.host[addr / pageSize]);
      var f, o := host[addr / pageSize].backing.n, addr % pageSize;
      match req {
        case Reading =>
          obs := Loaded(mem[f][o]);
        case Writing(b) =>
          mem := WithByte(mem, f, o, b);
          MemoryKeeps(s, mem);
          assert State() == s.(mem := mem);
          obs := Stored;
      }
    }

    method SetPageTable(table: array?<Pte>) returns (status: int)
      requires Valid() && (table != null ==> numPages <= table.Length)
      modifies this, pages, host
      ensures Valid()
      ensures (State(), status) == InstallTable(old(State()), if table == null then NoTable else Table(table[..]))
    {
      RemoveMappings();
      if table != null {
        status := AddMappings(table);
      } else {
        status := OK;
      }
    }

    method RemoveMappings()
      requires Valid()
      modifies this, pages, host
      ensures Valid() && State() == UnmapFrom(old(State()), 0)
    {
      ghost var cfg, goal := State().cfg, UnmapFrom(State(), 0);
      for i := 0 to numPages
        invariant Valid() && State().cfg == cfg && UnmapFrom(State(), i) == goal
      {
        RemoveMapping(i);
      }
    }

    method RemoveMapping(i: int)
      requires Valid() && 0 <= i < numPages
      modifies this, pages, host
      ensures Valid() && State().cfg == old(State()).cfg
      ensures UnmapFrom(State(), i + 1) == UnmapFrom(old(State()), i)
    {
      UnmapOne(State(), i);
      var status := Unmap(0, i);
      // Nothing else can go wrong with a page of tag 0.
      assert status == OK || status == ERR_NOMAP;
    }

    method AddMappings(table: array<Pte>) returns (status: int)
      requires Valid() && numPages <= table.Length
      modifies this, pages, host
      ensures Valid() && (State(), status) == MapFrom(old(State()), table[..], 0)
    {
      ghost var s, ptes := State(), table[..];
      for i := 0 to numPages
        invariant Valid() && State().cfg == s.cfg && MapFrom(State(), ptes, i) == MapFrom(s, ptes, 0)
      {
        if table[i].incore {
          var prot := PROT_NONE;
          if table[i].read && !table[i].write {
            prot := PROT_READ;
          } else if table[i].read && table[i].write {
            prot := PROT_RW;
          } else if !table[i].read && !table[i].write {
            prot := PROT_NONE;
          } else {
            return ERR_PROT;
          }
          status := Map(0, i, table[i].frame, prot);
          if status != OK {
            return status;
          }
        }
      }
      return OK;
    }
  }

  lemma SetRealHost(s: State, page: int, prot: int)
    requires Shape(s) && HostAgrees(s) && 0 <= page < s.cfg.numPages && Current(s)[page].frame != -1
    ensures HostAgrees(SetReal(s, page, prot))
  {
  }

  lemma ProtectNothing(s: State, frame: int, prot: int)
    requires Shape(s)
    ensures Protect(s, frame, prot, 0) == s
  {
    var r := Protect(s, frame, prot, 0);
    assert Current(r) == Current(s);
    assert r.pages == s.pages;
    assert r.host == s.host;
  }

  lemma ProtectStep(s: State, frame: int, prot: int, i: int)
    requires Shape(s) && 0 <= i < s.cfg.numPages
    ensures
      var r := Protect(s, frame, prot, i);
      && Current(r)[i].frame == Current(s)[i].frame
      && Protect(s, frame, prot, i + 1) == if Selected(Current(s)[i], frame) then SetReal(r, i, prot) else r
  {
    var r, q := Protect(s, frame, prot, i), Protect(s, frame, prot, i + 1);
    if Selected(Current(s)[i], frame) {
      assert Current(q) == Current(SetReal(r, i, prot));
      assert q.pages == SetReal(r, i, prot).pages;
      assert q.host == SetReal(r, i, prot).host;
    } else {
      assert Current(q) == Current(r);
      assert q.pages == r.pages;
      assert q.host == r.host;
    }
  }

  lemma ShowStep(s: State, i: int)
    requires Shape(s) && 0 <= i < s.cfg.numPages
    ensures Show(s, i + 1) ==
      (var g := Current(s)[i];
       if g.frame == -1 then Show(s, i) else WithHost(Show(s, i), i, HostPage(FileFrame(g.frame), PROT_NONE)))
  {
    var g := Current(s)[i];
    if g.frame == -1 {
      assert Show(s, i + 1).host == Show(s, i).host;
    } else {
      assert Show(s, i + 1).host == Show(s, i).host[i := HostPage(FileFrame(g.frame), PROT_NONE)];
    }
  }

  lemma UnmapOne(s: State, i: int)
    requires Shape(s) && 0 <= i < s.cfg.numPages
    ensures
      var u := UnmapPage(s, 0, i);
      UnmapFrom(s, i) == UnmapFrom(u.0, i + 1) && (u.1 == OK || u.1 == ERR_NOMAP)
  {
  }
}
