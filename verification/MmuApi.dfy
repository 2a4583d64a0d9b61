/**
 The MMU as its callers see it: the global pointer that is null while the MMU is off, the public
 calls, and the loads and stores of a process, which the hardware tries and the fault handler lets
 it try again. Each does exactly one step of the machine the run theorems are about.
 */
module MmuApi {
  import opened CInt
  import opened MmuTypes
  import opened LazyMmu
  import opened MmuDevice

  class Usloss {
    var mmuPtr: MmuInfo?
    // The mode bit of the status word, and the illegal-instruction interrupts raised for its sake.
    var kernel: bool
    var illegalInts: nat

    ghost function Footprint(): set<object>
      reads this
    {
      if mmuPtr == null then {} else mmuPtr.Repr()
    }

    ghost predicate Valid()
      reads this, Footprint()
    {
      mmuPtr != null ==> this !in Footprint() && mmuPtr.Valid()
    }

    ghost function Machine(): Machine
      requires Valid()
      reads this, Footprint()
    {
      if mmuPtr == null then Off else On(mmuPtr.State())
    }

    constructor ()
      ensures Valid() && Machine() == Off
    {
      mmuPtr, kernel, illegalInts := null, true, 0;
    }

    // check_kernel_mode: in user mode the illegal-instruction interrupt is raised, and when its
    // handler returns the call goes on.
    method CheckKernelMode()
      modifies this`illegalInts
      ensures illegalInts == if kernel then old(illegalInts) else old(illegalInts) + 1
    {
      if !kernel {
        illegalInts := illegalInts + 1;
      }
    }

    // The interrupts that a number of checks raise.
    function Refused(checks: nat): nat
      reads this`kernel
    {
      if kernel then 0 else checks
    }

    method MmuInit(numMaps: int32, numPages: int32, numFrames: int32, pageSize: pos, mode: int) returns (status: int)
      requires Valid()
      modifies this`mmuPtr, this`illegalInts
      ensures Valid() && fresh(Footprint() - old(Footprint()))
      ensures (Machine(), Status(status)) == Step(old(Machine()), Init(numMaps, numPages, numFrames, pageSize, mode))
      ensures illegalInts == old(illegalInts) + Refused(1)
    {
      CheckKernelMode();
      if mmuPtr != null {
        return ERR_ON;
      }
      if numPages < 1 {
        return ERR_PAGE;
      }
      if numFrames < 1 {
        return ERR_FRAME;
      }
      var maxMaps := numMaps;
      if mode == MODE_PAGETABLE {
        maxMaps := numPages;
      } else if mode == MODE_TLB {
        if numMaps < 1 || numMaps > numPages * NUM_TAG {
          return ERR_MAPS;
        }
      } else {
        return ERR_MODE;
      }
      mmuPtr := new MmuInfo(Config(numPages, numFrames, pageSize, maxMaps, mode));
      return OK;
    }

    method MmuDone() returns (status: int)
      requires Valid()
      modifies this`mmuPtr, this`illegalInts
      ensures Valid() && Footprint() <= old(Footprint())
      ensures (Machine(), Status(status)) == Step(old(Machine()), Done)
      ensures illegalInts == old(illegalInts) + Refused(1)
    {
      CheckKernelMode();
      if mmuPtr == null {
        return ERR_OFF;
      }
      mmuPtr := null;
      return OK;
    }

    method MmuMap(tag: int, page: int, frame: int, prot: int) returns (status: int)
      requires Valid()
      modifies this`illegalInts, Footprint()
      ensures Valid() && mmuPtr == old(mmuPtr)
      ensures (Machine(), Status(status)) == Step(old(Machine()), Map(tag, page, frame, prot))
      ensures illegalInts == old(illegalInts) + Refused(1)
    {
      CheckKernelMode();
      if mmuPtr == null {
        return ERR_OFF;
      }
      if mmuPtr.mode != MODE_TLB {
        return ERR_MODE;
      }
      status := mmuPtr.Map(tag, page, frame, prot);
    }

    method MmuUnmap(tag: int, page: int) returns (status: int)
      requires Valid()
      modifies this`illegalInts, Footprint()
      ensures Valid() && mmuPtr == old(mmuPtr)
      ensures (Machine(), Status(status)) == Step(old(Machine()), Unmap(tag, page))
      ensures illegalInts == old(illegalInts) + Refused(1)
    {
      CheckKernelMode();
      if mmuPtr == null {
        return ERR_OFF;
      }
      if mmuPtr.mode != MODE_TLB {
        return ERR_MODE;
      }
      status := mmuPtr.Unmap(tag, page);
    }

    method MmuSetTag(newTag: int) returns (status: int)
      requires Valid()
      modifies this`illegalInts, Footprint()
      ensures Valid() && mmuPtr == old(mmuPtr)
      ensures (Machine(), Status(status)) == Step(old(Machine()), Op.SetTag(newTag))
      ensures illegalInts == old(illegalInts) + Refused(if status == OK then 2 else 1)
    {
      CheckKernelMode();
      if mmuPtr == null {
        return ERR_OFF;
      }
      if mmuPtr.mode != MODE_TLB {
        return ERR_MODE;
      }
      if newTag < 0 || newTag >= NUM_TAG {
        return ERR_TAG;
      }
      status := SetTag(newTag);
    }

    // SetTag, which checks the mode once more.
    method SetTag(newTag: int) returns (status: int)
      requires Valid() && mmuPtr != null && mmuPtr.mode == MODE_TLB && 0 <= newTag < NUM_TAG
      modifies this`illegalInts, Footprint()
      ensures Valid() && mmuPtr == old(mmuPtr) && status == OK
      ensures (Machine(), Status(status)) == Step(old(Machine()), Op.SetTag(newTag))
      ensures illegalInts == old(illegalInts) + Refused(1)
    {
      CheckKernelMode();
      status := mmuPtr.SetTag(newTag);
    }

    method MmuSetAccess(frame: int, bits: int) returns (status: int)
      requires Valid()
      modifies this`illegalInts, Footprint()
      ensures Valid() && mmuPtr == old(mmuPtr)
      ensures (Machine(), Status(status)) == Step(old(Machine()), SetAccess(frame, bits))
      ensures illegalInts == old(illegalInts) + Refused(1)
    {
      CheckKernelMode();
      if mmuPtr == null {
        return ERR_OFF;
      }
      status := mmuPtr.SetAccess(frame, bits);
    }

    method MmuSetPageTable(table: array?<Pte>) returns (status: int)
      requires Valid()
      requires Callable(Machine(), SetPageTable(TableOf(table)))
      modifies this`illegalInts, Footprint()
      ensures Valid() && mmuPtr == old(mmuPtr)
      ensures (Machine(), Status(status)) == Step(old(Machine()), SetPageTable(old(TableOf(table))))
      ensures illegalInts == old(illegalInts) + Refused(1)
    {
      CheckKernelMode();
      if mmuPtr == null {
        return ERR_OFF;
      }
      if mmuPtr.mode != MODE_PAGETABLE {
        return ERR_MODE;
      }
      status := mmuPtr.SetPageTable(table);
    }

    // A load or store at an address relative to the region.
    method MemoryAccess(addr: int, req: Request) returns (obs: Obs)
      requires Valid()
      modifies Footprint()
      ensures Valid() && mmuPtr == old(mmuPtr)
      ensures mmuPtr == null ==> obs == SegFault
      ensures mmuPtr != null ==>
        var r := Access(old(mmuPtr.State()), addr, req);
        (mmuPtr.State(), obs) == (r.0, r.1)
    {
      if mmuPtr == null {
        return SegFault;
      }
      ghost var s := mmuPtr.State();
      var m: MmuInfo := mmuPtr;
      var page := PageIndex(addr, m.pageSize);
      while true
        invariant m.Valid() && m.State().cfg == s.cfg
        invariant
          var r, q := Access(m.State(), addr, req), Access(s, addr, req);
          (r.0, r.1) == (q.0, q.1)
        decreases 2 - Level(m.State(), page)
      {
        ghost var before := m.State();
        var ok := m.HostPermits(addr, req.Writing?);
        if ok {
          obs := m.Transfer(addr, req);
          return obs;
        }
        var verdict := m.Handler(page);
        match verdict {
          case Retry => assert (Access(before, addr, req).0, Access(before, addr, req).1)
                            == (Access(m.State(), addr, req).0, Access(m.State(), addr, req).1);
          case Interrupt(cause) => return Trap(cause, addr);
          case DefaultAction => return SegFault;
          case InternalError => return Aborted;
        }
      }
    }
  }

  ghost function TableOf(table: array?<Pte>): PageTable
    reads table
  {
    if table == null then NoTable else Table(table[..])
  }
}
