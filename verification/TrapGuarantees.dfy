/**
 What the operating system gets from a trap, a signal, a context switch and the clock, with timer
 signals anywhere.
 */
module TrapGuarantees {
  import opened Traps

  /* ---- Timer signals inside a trap -------------------------------------------------------- */

  function Alarms(k: nat): seq<Action> {
    if k == 0 then [] else [Alarm] + Alarms(k - 1)
  }

  function Silents(k: nat): seq<Obs> {
    if k == 0 then [] else [Silent] + Silents(k - 1)
  }

  // The clock after a number of timer signals.
  function Ticked(m: Cpu, k: nat): Cpu {
    m.(ticks := m.ticks + k, partial := if k == 0 then m.partial else 0)
  }

  // They only move the clock.
  lemma {:induction false} AlarmsInTrap(m: Cpu, k: nat)
    requires Safe(m) && InTrap(Here(m).phase)
    ensures Run(m, Alarms(k)) == (Ticked(m, k), Silents(k)) && Safe(Ticked(m, k))
    decreases k
  {
    if k > 0 {
      AlarmInTrap(m);
      assert Alarms(k)[1..] == Alarms(k - 1);
      AlarmsInTrap(Ticked(m, 1), k - 1);
      assert Ticked(Ticked(m, 1), k - 1) == Ticked(m, k);
    }
  }

  lemma AlarmInTrap(m: Cpu)
    requires Safe(m) && InTrap(Here(m).phase)
    ensures Step(m, Alarm) == (Ticked(m, 1), Silent) && Safe(Ticked(m, 1)) && Here(Ticked(m, 1)) == Here(m)
  {
    assert ContextOk(Here(m), true, m.trap, m.syscallArg);
    AlarmSafe(m);
  }

  /* ---- Traps ------------------------------------------------------------------------------ */

  // USLOSS_Syscall and USLOSS_IllegalInstruction give up from kernel mode, and from there only.
  lemma TrapsFromUserMode(m: Cpu, arg: int)
    requires Safe(m) && Here(m).phase.Running?
    ensures Step(m, Syscall(arg)).1 == KernelTrap <==> m.psr & 0x1 == 1
    ensures Step(m, IllegalInstruction).1 == KernelTrap <==> m.psr & 0x1 == 1
    ensures m.psr & 0x1 == 0 ==> Step(m, Syscall(arg)).1 == Silent && Step(m, IllegalInstruction).1 == Silent
  {
    ModeBit(m.psr);
  }

  lemma ModeBit(psr: bv32)
    ensures Kernel(psr) <==> psr & 0x1 == 1
    ensures psr & 0x1 == 0 <==> psr & 0x1 != 1
  {
  }

  // A handler has been entered on the current context: in kernel mode with interrupts off, the
  // current fields being the previous ones now, and on its return the context goes on as it was.
  predicate EnteredFrom(m: Cpu, r: Cpu, k: nat, inCall: bool)
    requires Laid(m)
  {
    && r.current == m.current && |r.contexts| == |m.contexts|
    && r.contexts == m.contexts[m.current := Context(Running, Here(m).saved + [Saved(m.psr, inCall)])]
    && r.psr & 0x1 == 1 && r.psr & 0x2 == 0 && (r.psr >> 2) & 0x3 == m.psr & 0x3
    && r.trap == NoTrap && r.ticks == m.ticks + k && r.partial == (if k == 0 then m.partial else 0)
  }

  lemma EntryWord(psr: bv32)
    ensures Entered(psr) & 0x1 == 1 && Entered(psr) & 0x2 == 0 && (Entered(psr) >> 2) & 0x3 == psr & 0x3
  {
  }

  // A system call from user mode reaches its handler, with its argument, on the context that makes
  // it, however many timer signals come before each of its steps.
  lemma {:induction false} SyscallArrives(m: Cpu, arg: int, i: nat, j: nat)
    requires Safe(m) && Here(m).phase.Running? && m.psr & 0x1 == 0
    ensures
      var m1 := Step(m, Syscall(arg));
      var m2 := Run(m1.0, Alarms(i));
      var m3 := Step(m2.0, StoreArg);
      var m4 := Run(m3.0, Alarms(j));
      var r := Step(m4.0, RaiseTrap);
      && m1.1 == Silent && m2.1 == Silents(i) && m3.1 == Silent && m4.1 == Silents(j)
      && r.1 == SyscallInt(arg) && EnteredFrom(m, r.0, i + j, false)
  {
    TrapsFromUserMode(m, arg);
    StepSafe(m, Syscall(arg));
    var m1 := Step(m, Syscall(arg)).0;
    AlarmsInTrap(m1, i);
    var m2 := Ticked(m1, i);
    StepSafe(m2, StoreArg);
    var m3 := Step(m2, StoreArg).0;
    AlarmsInTrap(m3, j);
    RaiseArrives(Ticked(m3, j));
    EntryWord(m.psr);
  }

  lemma RaiseArrives(m: Cpu)
    requires Safe(m) && (Here(m).phase.ArgStored? || Here(m).phase.IllegalSet?)
    ensures
      Step(m, RaiseTrap) ==
        (Enter(m).(trap := NoTrap), if Here(m).phase.ArgStored? then SyscallInt(Here(m).phase.arg) else IllegalInt)
  {
    assert ContextOk(Here(m), true, m.trap, m.syscallArg);
  }

  // An illegal instruction from user mode reaches its handler in the same way; and so does a kernel
  // call made in user mode, which then goes on when the handler returns.
  lemma {:induction false} IllegalArrives(m: Cpu, a: Action, i: nat)
    requires Safe(m) && Here(m).phase.Running? && m.psr & 0x1 == 0 && (a.IllegalInstruction? || a.CheckMode?)
    ensures
      var m1 := Step(m, a);
      var m2 := Run(m1.0, Alarms(i));
      var r := Step(m2.0, RaiseTrap);
      && m1.1 == Silent && m2.1 == Silents(i)
      && r.1 == IllegalInt && EnteredFrom(m, r.0, i, a.CheckMode?)
  {
    ModeBit(m.psr);
    StepSafe(m, a);
    var m1 := Step(m, a).0;
    AlarmsInTrap(m1, i);
    RaiseArrives(Ticked(m1, i));
    EntryWord(m.psr);
  }

  // In kernel mode the check lets the call go on and does nothing else.
  lemma CheckPasses(m: Cpu)
    requires Safe(m) && Here(m).phase.Running? && m.psr & 0x1 == 1
    ensures Step(m, CheckMode) == (m.(contexts := m.contexts[m.current := Here(m).(phase := Checked)]), Silent)
  {
    ModeBit(m.psr);
  }

  /* ---- Signals ---------------------------------------------------------------------------- */

  // Between traps every timer signal and every fault reaches its handler.
  lemma SignalsArrive(m: Cpu)
    requires Safe(m) && !InTrap(Here(m).phase)
    ensures Step(m, Alarm).1 == DeviceInt && EnteredFrom(m, Step(m, Alarm).0, 1, Here(m).phase.Checked?)
    ensures Step(m, Fault).1 == MmuInt && EnteredFrom(m, Step(m, Fault).0, 0, Here(m).phase.Checked?)
  {
    assert ContextOk(Here(m), true, m.trap, m.syscallArg);
    EntryWord(m.psr);
  }

  // A handler's return takes the context back to what it left.
  lemma ReturnGoesBack(m: Cpu, saved: seq<Saved>, back: Saved)
    requires Safe(m) && Here(m) == Context(Running, saved + [back])
    ensures
      var here := Context(if back.inCall then Checked else Running, saved);
      Step(m, Return) == (m.(psr := back.psr, contexts := m.contexts[m.current := here]), Silent)
  {
    ReturnPops(m, saved, back);
  }

  /* ---- Context switches ------------------------------------------------------------------- */

  // A switch goes on in the new context. The one left is between instructions, its handlers as they
  // were, and everything else is untouched.
  lemma SwitchGoesOn(m: Cpu, to: nat)
    requires Safe(m) && Here(m).phase.Checked? && to < |m.contexts|
    ensures
      var left := Context(Running, Here(m).saved);
      Step(m, Switch(to)) == (m.(current := to, contexts := m.contexts[m.current := left]), Silent)
  {
  }

  // During the run another context than c is current, before each step.
  predicate Away(m: Cpu, acts: seq<Action>, c: nat)
    requires Laid(m)
    decreases |acts|
  {
    acts == [] ||
    (m.current != c && var one := Step(m, acts[0]); (Final(one.1) || Away(one.0, acts[1..], c)))
  }

  lemma {:induction false} AwayKept(m: Cpu, acts: seq<Action>, c: nat)
    requires Safe(m) && c < |m.contexts| && Away(m, acts, c)
    ensures Safe(Run(m, acts).0) && Run(m, acts).0.contexts[c] == m.contexts[c]
    decreases |acts|
  {
    if acts != [] {
      StepSafe(m, acts[0]);
      StepElsewhere(m, acts[0], c);
      var one := Step(m, acts[0]);
      if !Final(one.1) {
        AwayKept(one.0, acts[1..], c);
      }
    }
  }

  // Whatever the others do after a switch away from a context, the first switch back to it finds its
  // handlers as it left them.
  lemma SwitchBack(m: Cpu, to: nat, acts: seq<Action>)
    requires Safe(m) && Here(m).phase.Checked? && to < |m.contexts| && to != m.current
    requires
      var away := Step(m, Switch(to)).0;
      Away(away, acts, m.current) && Here(Run(away, acts).0).phase.Checked? && Run(away, acts).0.current != m.current
    ensures
      var r := Step(Run(Step(m, Switch(to)).0, acts).0, Switch(m.current));
      && r.1 == Silent && r.0.current == m.current
      && Here(r.0) == Context(Running, Here(m).saved)
  {
    var away, c := Step(m, Switch(to)).0, m.current;
    SwitchGoesOn(m, to);
    StepSafe(m, Switch(to));
    AwayKept(away, acts, c);
    SwitchGoesOn(Run(away, acts).0, c);
  }

  /* ---- Status words ----------------------------------------------------------------------- */

  // The word is checked on its upper 28 bits, exactly.
  lemma CorruptionCaught(m: Cpu)
    requires Laid(m)
    ensures Step(m, PsrGet).1 == CorruptedPsr <==> m.psr & 0xffff_fff0 != 0x45200
    ensures Step(m, Alarm).1 == CorruptedPsr <==> m.psr & 0xffff_fff0 != 0x45200
  {
    UpperBits(m.psr);
  }

  lemma UpperBits(psr: bv32)
    ensures HasMagic(psr) <==> psr & 0xffff_fff0 == 0x45200
  {
  }

  // In every state that can be reached the word in force and those to be restored have these bits, and
  // none is user mode with interrupts off.
  lemma WordsGood(m: Cpu, c: nat, i: nat)
    requires Safe(m) && c < |m.contexts| && i < |m.contexts[c].saved|
    ensures
      var saved := m.contexts[c].saved[i].psr;
      && m.psr & 0xffff_fff0 == 0x45200 && m.psr & 0x3 != 0
      && saved & 0xffff_fff0 == 0x45200 && saved & 0x3 != 0
  {
    assert ContextOk(m.contexts[c], c == m.current, m.trap, m.syscallArg);
    UpperBits(m.psr);
    UpperBits(m.contexts[c].saved[i].psr);
  }

  /* ---- The start and the clock ------------------------------------------------------------ */

  // Kernel mode with interrupts off, at time 0.
  lemma AtBoot(n: nat)
    requires n > 0
    ensures
      var m := Booted(n);
      && Step(m, PsrGet) == (m, Psr(0x1)) && m.psr == 0x45201
      && m.current == 0 && |m.contexts| == n && Here(m) == Context(Running, [])
      && m.ticks == 0 && m.partial == 0
  {
  }

  // USLOSSClock: 5 to 9 microseconds later each time.
  lemma ReadingExact(m: Cpu, jitter: nat)
    requires Safe(m) && Here(m).phase.Checked?
    ensures
      var r := Step(m, ReadClock(jitter));
      && r.1 == Clock(m.ticks * 10000 + m.partial + 5 + jitter % 5)
      && r.0.contexts == m.contexts[m.current := Here(m).(phase := Running)]
      && r.0.current == m.current && r.0.psr == m.psr && r.0.trap == m.trap
  {
  }

  // The simulator does not give up during the run.
  predicate Survives(m: Cpu, acts: seq<Action>)
    requires Laid(m)
    decreases |acts|
  {
    acts == [] || (!Final(Step(m, acts[0]).1) && Survives(Step(m, acts[0]).0, acts[1..]))
  }

  function Signals(acts: seq<Action>): nat {
    if acts == [] then 0 else (if acts[0].Alarm? then 1 else 0) + Signals(acts[1..])
  }

  // Without readings the clock counts the timer signals, those inside traps included.
  lemma {:induction false} ClockCounts(m: Cpu, acts: seq<Action>)
    requires Safe(m) && (forall a <- acts :: !a.ReadClock?) && Survives(m, acts)
    ensures
      var r := Run(m, acts).0;
      && r.ticks == m.ticks + Signals(acts)
      && r.partial == if Signals(acts) == 0 then m.partial else 0
    decreases |acts|
  {
    if acts != [] {
      assert acts[0] in acts && forall a <- acts[1..] :: a in acts;
      StepSafe(m, acts[0]);
      TickOnce(m, acts[0]);
      ClockCounts(Step(m, acts[0]).0, acts[1..]);
    }
  }

  lemma TickOnce(m: Cpu, a: Action)
    requires Safe(m) && !a.ReadClock?
    ensures
      var r := Step(m, a).0;
      if a.Alarm? then r.ticks == m.ticks + 1 && r.partial == 0 else r.ticks == m.ticks && r.partial == m.partial
  {
  }
}
