/**
 Page tables isolate contexts. When every context's tables name only frames of its own, what a
 context observes, over any interleaving of context switches, loads and stores, is what it would
 observe running alone: neither the other contexts' stores nor their tables can be seen.
 */
module MmuIsolation {
  import opened CInt
  import opened MmuTypes
  import Lazy = LazyMmu
  import Spec = EagerMmu
  import opened MmuRefinement

  // A context switch installs the page table of the context that is switched to.
  datatype Event = Switch(context: int, table: PageTable) | Read(addr: nat) | Write(addr: nat, value: byte)

  function OpOf(ev: Event): Op {
    match ev
    case Switch(_, table) => SetPageTable(table)
    case Read(addr) => Load(addr)
    case Write(addr, b) => Store(addr, b)
  }

  function OpsOf(evs: seq<Event>): (ops: seq<Op>)
    ensures |ops| == |evs|
    ensures evs != [] ==> ops[0] == OpOf(evs[0]) && ops[1..] == OpsOf(evs[1..])
  {
    if evs == [] then [] else [OpOf(evs[0])] + OpsOf(evs[1..])
  }

  // The context an event runs in: for a switch, the one switched to.
  function Runner(current: int, ev: Event): int {
    if ev.Switch? then ev.context else current
  }

  // The events of context c, and what was observed at them.
  function Own(c: int, current: int, evs: seq<Event>): seq<Event>
    decreases |evs|
  {
    if evs == [] then []
    else
      var now := Runner(current, evs[0]);
      (if now == c then [evs[0]] else []) + Own(c, now, evs[1..])
  }

  function OwnObs(c: int, current: int, evs: seq<Event>, obs: seq<Obs>): seq<Obs>
    requires |obs| == |evs|
    decreases |evs|
  {
    if evs == [] then []
    else
      var now := Runner(current, evs[0]);
      (if now == c then [obs[0]] else []) + OwnObs(c, now, evs[1..], obs[1..])
  }

  // Frame f belongs to context owner[f]. A switch installs a table without bad entries, naming only
  // frames of its context; loads and stores stay in the region.
  predicate Behaves(cfg: Config, owner: seq<int>, ev: Event) {
    match ev
    case Switch(c, NoTable) => true
    case Switch(c, Table(ptes)) =>
      && cfg.numPages <= |ptes|
      && Spec.FirstBad(cfg, ptes, 0) == cfg.numPages
      && (forall i :: 0 <= i < cfg.numPages && ptes[i].incore ==> ptes[i].frame < |owner| && owner[ptes[i].frame] == c)
    case Read(addr) => Lazy.InRegion(cfg, addr)
    case Write(addr, _) => Lazy.InRegion(cfg, addr)
  }

  predicate AllBehave(cfg: Config, owner: seq<int>, evs: seq<Event>) {
    forall ev <- evs :: Behaves(cfg, owner, ev)
  }

  ghost predicate OwnedRow(e: Spec.Eager, owner: seq<int>, c: int)
    requires Spec.Shape(e) && |owner| == e.cfg.numFrames
  {
    forall i :: 0 <= i < e.cfg.numPages && e.maps[0][i].Present? ==> owner[e.maps[0][i].frame] == c
  }

  ghost predicate Installed(e: Spec.Eager, owner: seq<int>, current: int) {
    && Spec.Shape(e) && e.cfg.mode == MODE_PAGETABLE && e.tag == 0
    && |owner| == e.cfg.numFrames
    && OwnedRow(e, owner, current)
  }

  // The whole machine e and the machine d on which context c runs alone look alike to c.
  ghost predicate Alike(e: Spec.Eager, d: Spec.Eager, owner: seq<int>, c: int, current: int) {
    && Installed(e, owner, current)
    && Spec.Shape(d) && d.cfg == e.cfg && d.tag == 0
    && (forall f :: 0 <= f < e.cfg.numFrames && owner[f] == c ==> d.mem[f] == e.mem[f])
    && (current == c ==> d.maps[0] == e.maps[0])
  }

  lemma EventStep(e: Spec.Eager, owner: seq<int>, current: int, ev: Event)
    requires Installed(e, owner, current) && Behaves(e.cfg, owner, ev)
    ensures Spec.Callable(Spec.On(e), OpOf(ev))
    ensures
      var r := Spec.Step(Spec.On(e), OpOf(ev));
      && r.0.On? && !r.1.Fatal() && r.0.e.cfg == e.cfg
      && Documented(Spec.On(e), OpOf(ev))
      && Installed(r.0.e, owner, Runner(current, ev))
  {
    if ev.Switch? && ev.table.Table? {
      var ptes := ev.table.ptes;
      forall i | 0 <= i < e.cfg.numPages && ptes[i].incore
        ensures Spec.TableRow(e.cfg, ev.table)[i] == Spec.EntryOf(ptes[i])
      {
      }
    }
  }

  // A step of another context leaves alone what c can see.
  lemma OtherStep(e: Spec.Eager, d: Spec.Eager, owner: seq<int>, c: int, current: int, ev: Event)
    requires Alike(e, d, owner, c, current) && Behaves(e.cfg, owner, ev) && Runner(current, ev) != c
    ensures Spec.Callable(Spec.On(e), OpOf(ev))
    ensures
      var r := Spec.Step(Spec.On(e), OpOf(ev));
      r.0.On? && Alike(r.0.e, d, owner, c, Runner(current, ev))
  {
    EventStep(e, owner, current, ev);
    if !ev.Switch? {
      OtherAccess(e, owner, c, current, ev);
    }
  }

  lemma OtherAccess(e: Spec.Eager, owner: seq<int>, c: int, current: int, ev: Event)
    requires Installed(e, owner, current) && Behaves(e.cfg, owner, ev) && !ev.Switch? && current != c
    ensures
      var r := Spec.Access(e, ev.addr, ev.Write?, if ev.Write? then ev.value else 0).0;
      && r.maps == e.maps && r.cfg == e.cfg && r.tag == e.tag
      && (forall f :: 0 <= f < e.cfg.numFrames && owner[f] == c ==> r.mem[f] == e.mem[f])
  {
    var page := ev.addr / e.cfg.pageSize;
    assert 0 <= page < e.cfg.numPages;
    if e.maps[0][page].Present? {
      assert owner[e.maps[0][page].frame] == current;
    }
  }

  // A step of c itself does the same on both machines.
  lemma OwnStep(e: Spec.Eager, d: Spec.Eager, owner: seq<int>, c: int, current: int, ev: Event)
    requires Alike(e, d, owner, c, current) && Behaves(e.cfg, owner, ev) && Runner(current, ev) == c
    ensures Spec.Callable(Spec.On(e), OpOf(ev)) && Spec.Callable(Spec.On(d), OpOf(ev))
    ensures Documented(Spec.On(d), OpOf(ev))
    ensures
      var r, q := Spec.Step(Spec.On(e), OpOf(ev)), Spec.Step(Spec.On(d), OpOf(ev));
      && r.1 == q.1
      && r.0.On? && q.0.On? && Alike(r.0.e, q.0.e, owner, c, c)
  {
    EventStep(e, owner, current, ev);
    if !ev.Switch? {
      OwnAccess(e, d, owner, c, ev);
    }
  }

  lemma OwnAccess(e: Spec.Eager, d: Spec.Eager, owner: seq<int>, c: int, ev: Event)
    requires Alike(e, d, owner, c, c) && Behaves(e.cfg, owner, ev) && !ev.Switch?
    ensures
      var r := Spec.Access(e, ev.addr, ev.Write?, if ev.Write? then ev.value else 0);
      var q := Spec.Access(d, ev.addr, ev.Write?, if ev.Write? then ev.value else 0);
      && r.1 == q.1
      && (forall f :: 0 <= f < e.cfg.numFrames && owner[f] == c ==> q.0.mem[f] == r.0.mem[f])
      && q.0.maps == d.maps && q.0.cfg == d.cfg && q.0.tag == d.tag
  {
    var page := ev.addr / e.cfg.pageSize;
    assert 0 <= page < e.cfg.numPages && d.maps[0][page] == e.maps[0][page];
    match e.maps[0][page]
    case Absent =>
    case Present(f, _) =>
      assert owner[f] == c && d.mem[f] == e.mem[f];
      SameByte(e.mem, d.mem, f, ev.addr % e.cfg.pageSize, if ev.Write? then ev.value else 0);
  }

  lemma SameByte(a: seq<seq<byte>>, b: seq<seq<byte>>, f: nat, o: nat, value: byte)
    requires f < |a| == |b| && a[f] == b[f] && o < |a[f]|
    ensures WithByte(a, f, o, value)[f] == WithByte(b, f, o, value)[f]
    ensures forall g :: 0 <= g < |a| && g != f ==>
      WithByte(a, f, o, value)[g] == a[g] && WithByte(b, f, o, value)[g] == b[g]
  {
  }

  lemma {:induction false} EagerIsolation(
    e: Spec.Eager, d: Spec.Eager, owner: seq<int>, c: int, current: int, evs: seq<Event>)
    requires Alike(e, d, owner, c, current) && AllBehave(e.cfg, owner, evs)
    ensures Clean(Spec.On(e), OpsOf(evs)) && Clean(Spec.On(d), OpsOf(Own(c, current, evs)))
    ensures |Spec.Run(Spec.On(e), OpsOf(evs)).1| == |evs|
    ensures OwnObs(c, current, evs, Spec.Run(Spec.On(e), OpsOf(evs)).1)
         == Spec.Run(Spec.On(d), OpsOf(Own(c, current, evs))).1
    decreases |evs|
  {
    if evs != [] {
      var ev, rest := evs[0], evs[1..];
      var now := Runner(current, ev);
      EventStep(e, owner, current, ev);
      var e1 := Spec.Step(Spec.On(e), OpOf(ev)).0.e;
      if now == c {
        OwnStep(e, d, owner, c, current, ev);
        var d1 := Spec.Step(Spec.On(d), OpOf(ev)).0.e;
        EagerIsolation(e1, d1, owner, c, now, rest);
        assert Own(c, current, evs)[1..] == Own(c, now, rest);
      } else {
        OtherStep(e, d, owner, c, current, ev);
        EagerIsolation(e1, d, owner, c, now, rest);
        assert Own(c, current, evs) == Own(c, now, rest);
      }
    }
  }

  // The same for the MMU as it is implemented, started in page-table mode.
  lemma {:induction false} Isolation(m: Lazy.Machine, owner: seq<int>, c: int, current: int, evs: seq<Event>)
    requires SoundMachine(m) && m.On? && m.s.cfg.mode == MODE_PAGETABLE
    requires |owner| == m.s.cfg.numFrames && OwnedRow(Abs(m.s), owner, current)
    requires AllBehave(m.s.cfg, owner, evs)
    ensures Lazy.Runnable(m, OpsOf(evs)) && Lazy.Runnable(m, OpsOf(Own(c, current, evs)))
    ensures |Lazy.Run(m, OpsOf(evs)).1| == |evs|
    ensures OwnObs(c, current, evs, Lazy.Run(m, OpsOf(evs)).1) == Lazy.Run(m, OpsOf(Own(c, current, evs))).1
  {
    var e := Abs(m.s);
    EagerIsolation(e, e, owner, c, current, evs);
    RunRefines(m, OpsOf(evs));
    RunRefines(m, OpsOf(Own(c, current, evs)));
  }
}
