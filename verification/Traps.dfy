/**
 Interrupts and system calls of src/sig_ints.c with the processor status word and the clock of
 src/globals.c. Several contexts share one status word, one pending trap and one argument register;
 a timer signal may arrive between any two steps, and the kernel code it leads to may switch
 contexts. What a handler will restore is kept on the stack of the context it runs on.
 */
module Traps {
  import opened Collections

  const PSR_MAGIC: bv32 := 0x45200
  const PSR_MASK: bv32 := 0xf
  const PSR_CURRENT_MASK: bv32 := 0x3
  const PSR_PREV_MASK: bv32 := 0xc
  const PSR_CURRENT_MODE: bv32 := 0x1
  const ALARM_TIME := 10000

  const ERR_OK := 0
  const ERR_INVALID_PSR := 1

  /* ---- The status word -------------------------------------------------------------------- */

  predicate Kernel(psr: bv32) {
    psr & PSR_CURRENT_MODE != 0
  }

  predicate HasMagic(psr: bv32) {
    psr & !PSR_MASK == PSR_MAGIC
  }

  // The magic bits are in place, and it is not user mode with interrupts off.
  predicate GoodPsr(psr: bv32) {
    HasMagic(psr) && psr & PSR_CURRENT_MASK != 0
  }

  // On an interrupt the current fields become the previous ones, and the current ones kernel mode
  // with interrupts off.
  function Entered(psr: bv32): bv32 {
    (PSR_MAGIC | ((psr & PSR_CURRENT_MASK) << 2)) | PSR_CURRENT_MODE
  }

  lemma EnteredGood(psr: bv32)
    ensures GoodPsr(Entered(psr)) && Kernel(Entered(psr))
    ensures (Entered(psr) >> 2) & 0x3 == psr & 0x3
    ensures Entered(psr) & 0x2 == 0
  {
  }

  // What USLOSS_PsrSet accepts.
  predicate Settable(fields: bv32) {
    fields & !PSR_MASK == 0 && fields & PSR_CURRENT_MASK != 0
  }

  lemma SettableGood(fields: bv32)
    ensures Settable(fields) ==> GoodPsr(PSR_MAGIC | fields) && (PSR_MAGIC | fields) & PSR_MASK == fields
  {
  }

  /* ---- The machine ------------------------------------------------------------------------ */

  datatype Pending = NoTrap | SyscallPending | IllegalPending

  // Where a context is: between instructions, past the mode check of a kernel call, or inside
  // USLOSS_Syscall or USLOSS_IllegalInstruction.
  datatype Phase =
    | Running
    | Checked
    | TrapSet(arg: int)          // trap_pending is set, the argument not yet stored
    | ArgStored(arg: int)        // about to raise the signal
    | IllegalSet(inCall: bool)   // about to raise the signal, for a failed mode check or not

  // What an active handler returns to: the status word, and whether inside a kernel call.
  datatype Saved = Saved(psr: bv32, inCall: bool)

  // `saved` is what each active handler on the context's stack will restore, innermost last.
  datatype Context = Context(phase: Phase, saved: seq<Saved>)

  datatype Cpu = Cpu(
    psr: bv32,
    trap: Pending,
    syscallArg: int,
    contexts: seq<Context>,
    current: nat,
    ticks: int,
    partial: int)

  datatype Action =
    | Syscall(arg: int)       // USLOSS_Syscall, up to trap_pending
    | StoreArg
    | IllegalInstruction      // USLOSS_IllegalInstruction, up to trap_pending
    | CheckMode               // check_kernel_mode, with which every kernel call starts
    | RaiseTrap               // SIGUSR1 and its handler, up to the operating system's
    | Alarm                   // the timer signal and its handler, up to dispatch_int
    | Fault                   // SIGSEGV and its handler, up to the MMU's
    | Return                  // the rest of the handler
    | PsrSet(psr: bv32)       // this call, and the two below PsrGet, once the mode is checked
    | PsrGet
    | Switch(to: nat)
    | ReadClock(jitter: nat)  // USLOSSClock; rand() % 5 gave `jitter`

  datatype Obs =
    | Silent
    | SyscallInt(arg: int)
    | IllegalInt
    | DeviceInt
    | MmuInt
    | Status(code: int)
    | Psr(fields: bv32)
    | Clock(value: int)
    | Impossible              // the context is not where this could happen
    | KernelTrap              // a trap from kernel mode: the simulator gives up
    | CorruptedPsr            // an internal check failed
    | NoTrapPending           // an internal check failed

  predicate Laid(m: Cpu) {
    m.current < |m.contexts|
  }

  function Here(m: Cpu): Context
    requires Laid(m)
  {
    m.contexts[m.current]
  }

  function WithHere(m: Cpu, c: Context): (r: Cpu)
    requires Laid(m)
    ensures Laid(r)
  {
    m.(contexts := m.contexts[m.current := c])
  }

  // The handler's entry: it keeps the status word for its return and goes to kernel mode.
  function Enter(m: Cpu): (r: Cpu)
    requires Laid(m)
    ensures Laid(r)
  {
    WithHere(m, Pushed(Here(m), m.psr)).(psr := Entered(m.psr))
  }

  // A context with the activation of a handler on its stack.
  function Pushed(c: Context, psr: bv32): Context {
    Context(Running, c.saved + [Saved(psr, InCall(c.phase))])
  }

  predicate InTrap(phase: Phase) {
    !phase.Running? && !phase.Checked?
  }

  predicate InCall(phase: Phase) {
    phase.Checked? || (phase.IllegalSet? && phase.inCall)
  }

  function PhaseOf(inCall: bool): Phase {
    if inCall then Checked else Running
  }

  function Step(m: Cpu, a: Action): (r: (Cpu, Obs))
    requires Laid(m)
    ensures Laid(r.0) && |r.0.contexts| == |m.contexts|
  {
    var c := Here(m);
    match a
    case Syscall(arg) =>
      if !c.phase.Running? then (m, Impossible)
      else if Kernel(m.psr) then (m, KernelTrap)
      else (WithHere(m, c.(phase := TrapSet(arg))).(trap := SyscallPending), Silent)
    case StoreArg =>
      if !c.phase.TrapSet? then (m, Impossible)
      else (WithHere(m, c.(phase := ArgStored(c.phase.arg))).(syscallArg := c.phase.arg), Silent)
    case IllegalInstruction =>
      if !c.phase.Running? then (m, Impossible)
      else if Kernel(m.psr) then (m, KernelTrap)
      else (WithHere(m, c.(phase := IllegalSet(false))).(trap := IllegalPending), Silent)
    case CheckMode =>
      if !c.phase.Running? && !c.phase.Checked? then (m, Impossible)
      else if !HasMagic(m.psr) then (m, CorruptedPsr)
      else if Kernel(m.psr) then (WithHere(m, c.(phase := Checked)), Silent)
      else (WithHere(m, c.(phase := IllegalSet(true))).(trap := IllegalPending), Silent)
    case RaiseTrap =>
      if !c.phase.ArgStored? && !c.phase.IllegalSet? then (m, Impossible)
      else if !HasMagic(m.psr) then (m, CorruptedPsr)
      else
        (match m.trap
         case NoTrap => (m, NoTrapPending)
         case SyscallPending => (Enter(m).(trap := NoTrap), SyscallInt(m.syscallArg))
         case IllegalPending => (Enter(m).(trap := NoTrap), IllegalInt))
    case Alarm =>
      if !HasMagic(m.psr) then (m, CorruptedPsr)
      else
        var t := m.(ticks := m.ticks + 1, partial := 0);
        if m.trap != NoTrap then (t, Silent) else (Enter(t), DeviceInt)
    case Fault =>
      if !c.phase.Running? && !c.phase.Checked? then (m, Impossible)
      else if !HasMagic(m.psr) then (m, CorruptedPsr)
      else (Enter(m), MmuInt)
    case Return =>
      if !c.phase.Running? || c.saved == [] then (m, Impossible)
      else if !HasMagic(m.psr) then (m, CorruptedPsr)
      else
        var back := c.saved[|c.saved| - 1];
        (WithHere(m, Context(PhaseOf(back.inCall), c.saved[..|c.saved| - 1])).(psr := back.psr), Silent)
    case PsrGet =>
      if !HasMagic(m.psr) then (m, CorruptedPsr) else (m, Psr(m.psr & PSR_MASK))
    case _ => CallStep(m, a)
  }

  // A kernel call once its mode check is behind it.
  function CallStep(m: Cpu, a: Action): (r: (Cpu, Obs))
    requires Laid(m) && (a.PsrSet? || a.Switch? || a.ReadClock?)
    ensures Laid(r.0) && |r.0.contexts| == |m.contexts|
  {
    var c := Here(m);
    match a
    case PsrSet(psr) =>
      if !c.phase.Checked? then (m, Impossible)
      else if !HasMagic(m.psr) then (m, CorruptedPsr)
      else
        var done := WithHere(m, c.(phase := Running));
        if !Settable(psr) then (done, Status(ERR_INVALID_PSR)) else (done.(psr := PSR_MAGIC | psr), Status(ERR_OK))
    case Switch(to) =>
      if !c.phase.Checked? || to >= |m.contexts| then (m, Impossible)
      else (WithHere(m, c.(phase := Running)).(current := to), Silent)
    case ReadClock(jitter) =>
      if !c.phase.Checked? then (m, Impossible)
      else
        var p, done := m.partial + 5 + jitter % 5, WithHere(m, c.(phase := Running));
        var t :=
          if p >= ALARM_TIME then done.(ticks := m.ticks + 1, partial := p - ALARM_TIME) else done.(partial := p);
        (t, Clock(t.ticks * ALARM_TIME + t.partial))
  }

  predicate Final(o: Obs) {
    o.KernelTrap? || o.CorruptedPsr? || o.NoTrapPending?
  }

  function Run(m: Cpu, acts: seq<Action>): (r: (Cpu, seq<Obs>))
    requires Laid(m)
    ensures Laid(r.0) && |r.1| <= |acts| && |r.0.contexts| == |m.contexts|
    decreases |acts|
  {
    if acts == [] then (m, [])
    else
      var one := Step(m, acts[0]);
      if Final(one.1) then (one.0, [one.1])
      else
        var rest := Run(one.0, acts[1..]);
        (rest.0, [one.1] + rest.1)
  }

  // globals_init: kernel mode, interrupts off.
  function Booted(n: nat): (m: Cpu)
    requires n > 0
    ensures Laid(m)
  {
    Cpu(PSR_MAGIC | PSR_CURRENT_MODE, NoTrap, 0, seq(n, i => Context(Running, [])), 0, 0, 0)
  }

  /* ---- What holds in every state ---------------------------------------------------------- */

  predicate ContextOk(c: Context, current: bool, trap: Pending, syscallArg: int)
  {
    && (forall i :: 0 <= i < |c.saved| ==> GoodPsr(c.saved[i].psr))
    && (if !current then c.phase == Running
        else match c.phase
          case Running => trap == NoTrap
          case Checked => trap == NoTrap
          case TrapSet(_) => trap == SyscallPending
          case ArgStored(arg) => trap == SyscallPending && syscallArg == arg
          case IllegalSet(_) => trap == IllegalPending)
  }

  // Only the current context can be inside a trap, in user mode, and then the pending trap and the
  // argument register are its own; every status word, current or saved, is a good one.
  predicate Safe(m: Cpu) {
    && Laid(m)
    && GoodPsr(m.psr)
    && (InTrap(Here(m).phase) ==> !Kernel(m.psr))
    && 0 <= m.partial < ALARM_TIME
    && (forall i :: 0 <= i < |m.contexts| ==> ContextOk(m.contexts[i], i == m.current, m.trap, m.syscallArg))
  }

  lemma BootedSafe(n: nat)
    requires n > 0
    ensures Safe(Booted(n))
  {
    assert GoodPsr(PSR_MAGIC | PSR_CURRENT_MODE);
  }

  // The current context may go on to any phase that fits the pending trap and the argument.
  lemma HereSafe(m: Cpu, c: Context, trap: Pending, arg: int, psr: bv32)
    requires Safe(m) && ContextOk(c, true, trap, arg) && GoodPsr(psr) && (InTrap(c.phase) ==> !Kernel(psr))
    ensures Safe(WithHere(m, c).(trap := trap, syscallArg := arg, psr := psr))
  {
    var r := WithHere(m, c).(trap := trap, syscallArg := arg, psr := psr);
    forall i | 0 <= i < |r.contexts|
      ensures ContextOk(r.contexts[i], i == r.current, r.trap, r.syscallArg)
    {
      assert ContextOk(m.contexts[i], i == m.current, m.trap, m.syscallArg);
    }
  }

  lemma EnterSafe(m: Cpu)
    requires Safe(m)
    ensures Safe(Enter(m).(trap := NoTrap))
  {
    EnteredGood(m.psr);
    assert ContextOk(Here(m), true, m.trap, m.syscallArg);
    HereSafe(m, Pushed(Here(m), m.psr), NoTrap, m.syscallArg, Entered(m.psr));
  }

  predicate StaysSafe(m: Cpu, a: Action)
    requires Laid(m)
  {
    var r := Step(m, a);
    Safe(r.0) && !r.1.CorruptedPsr? && !r.1.NoTrapPending?
  }

  // Inside a trap.
  lemma TrapStepSafe(m: Cpu, a: Action)
    requires Safe(m) && (a.Syscall? || a.StoreArg? || a.IllegalInstruction? || a.CheckMode? || a.RaiseTrap?)
    ensures StaysSafe(m, a)
  {
    var c := Here(m);
    assert ContextOk(c, true, m.trap, m.syscallArg);
    match a
    case Syscall(arg) =>
      if !Kernel(m.psr) { HereSafe(m, c.(phase := TrapSet(arg)), SyscallPending, m.syscallArg, m.psr); }
    case StoreArg =>
      if c.phase.TrapSet? { HereSafe(m, c.(phase := ArgStored(c.phase.arg)), m.trap, c.phase.arg, m.psr); }
    case IllegalInstruction =>
      if !Kernel(m.psr) { HereSafe(m, c.(phase := IllegalSet(false)), IllegalPending, m.syscallArg, m.psr); }
    case CheckMode =>
      if !Kernel(m.psr) { HereSafe(m, c.(phase := IllegalSet(true)), IllegalPending, m.syscallArg, m.psr); }
      if m.trap == NoTrap { HereSafe(m, c.(phase := Checked), NoTrap, m.syscallArg, m.psr); }
    case RaiseTrap => EnterSafe(m);
  }

  lemma SwitchSafe(m: Cpu, to: nat)
    requires Safe(m)
    ensures StaysSafe(m, Switch(to))
  {
    if Here(m).phase.Checked? && to < |m.contexts| {
      CallSafe(m);
      OtherSafe(WithHere(m, Here(m).(phase := Running)), to);
    }
  }

  // Between traps it does not matter which context is the current one.
  lemma OtherSafe(m: Cpu, to: nat)
    requires Safe(m) && Here(m).phase.Running? && to < |m.contexts|
    ensures Safe(m.(current := to))
  {
    assert ContextOk(Here(m), true, m.trap, m.syscallArg);
    forall i | 0 <= i < |m.contexts|
      ensures ContextOk(m.contexts[i], i == to, m.trap, m.syscallArg)
    {
      assert ContextOk(m.contexts[i], i == m.current, m.trap, m.syscallArg);
    }
  }

  lemma ReturnSafe(m: Cpu)
    requires Safe(m)
    ensures StaysSafe(m, Return)
  {
    var c := Here(m);
    assert ContextOk(c, true, m.trap, m.syscallArg);
    if c.phase.Running? && c.saved != [] {
      var back := c.saved[|c.saved| - 1];
      HereSafe(m, Context(PhaseOf(back.inCall), c.saved[..|c.saved| - 1]), m.trap, m.syscallArg, back.psr);
    }
  }

  // Nothing but the status word and the clock.
  lemma ClockSafe(m: Cpu, psr: bv32, ticks: int, partial: int)
    requires Safe(m) && GoodPsr(psr) && (InTrap(Here(m).phase) ==> psr == m.psr) && 0 <= partial < ALARM_TIME
    ensures Safe(m.(psr := psr, ticks := ticks, partial := partial))
  {
  }

  lemma AlarmSafe(m: Cpu)
    requires Safe(m)
    ensures StaysSafe(m, Alarm)
  {
    ClockSafe(m, m.psr, m.ticks + 1, 0);
    if m.trap == NoTrap {
      EnterSafe(m.(ticks := m.ticks + 1, partial := 0));
    }
  }

  // The end of a kernel call.
  lemma CallSafe(m: Cpu)
    requires Safe(m) && Here(m).phase.Checked?
    ensures Safe(WithHere(m, Here(m).(phase := Running)))
  {
    assert ContextOk(Here(m), true, m.trap, m.syscallArg);
    HereSafe(m, Here(m).(phase := Running), m.trap, m.syscallArg, m.psr);
  }

  lemma ReadClockSafe(m: Cpu, jitter: nat)
    requires Safe(m)
    ensures StaysSafe(m, ReadClock(jitter))
  {
    if Here(m).phase.Checked? {
      var t := Step(m, ReadClock(jitter)).0;
      CallSafe(m);
      ClockSafe(WithHere(m, Here(m).(phase := Running)), m.psr, t.ticks, t.partial);
    }
  }

  lemma FaultSafe(m: Cpu)
    requires Safe(m)
    ensures StaysSafe(m, Fault)
  {
    EnterSafe(m);
    assert ContextOk(Here(m), true, m.trap, m.syscallArg);
  }

  lemma PsrSetSafe(m: Cpu, psr: bv32)
    requires Safe(m)
    ensures StaysSafe(m, PsrSet(psr))
  {
    SettableGood(psr);
    if Here(m).phase.Checked? {
      CallSafe(m);
      if Settable(psr) {
        ClockSafe(WithHere(m, Here(m).(phase := Running)), PSR_MAGIC | psr, m.ticks, m.partial);
      }
    }
  }

  lemma StepSafe(m: Cpu, a: Action)
    requires Safe(m)
    ensures Safe(Step(m, a).0)
    ensures !Step(m, a).1.CorruptedPsr? && !Step(m, a).1.NoTrapPending?
  {
    match a
    case Alarm => AlarmSafe(m);
    case Fault => FaultSafe(m);
    case Return => ReturnSafe(m);
    case PsrSet(psr) => PsrSetSafe(m, psr);
    case PsrGet =>
    case Switch(to) => SwitchSafe(m, to);
    case ReadClock(jitter) => ReadClockSafe(m, jitter);
    case _ => TrapStepSafe(m, a);
  }

  // With timer signals anywhere, the simulator's own checks of the status word and of the pending
  // trap never fail, and every status word stays good.
  lemma {:induction false} RunSafe(m: Cpu, acts: seq<Action>)
    requires Safe(m)
    ensures
      var r := Run(m, acts);
      Safe(r.0) && (forall o <- r.1 :: !o.CorruptedPsr? && !o.NoTrapPending?)
    decreases |acts|
  {
    if acts != [] {
      StepSafe(m, acts[0]);
      var one := Step(m, acts[0]);
      if !Final(one.1) {
        RunSafe(one.0, acts[1..]);
      }
    }
  }

  /* ---- Each system call reaches its handler with its own argument ------------------------- */

  // No device interrupt is dispatched while the current context is inside a trap. Nothing else is to
  // be shown there: a context that is about to raise a signal makes no calls and no accesses.
  lemma NothingInsideTraps(m: Cpu, a: Action)
    requires Safe(m) && InTrap(Here(m).phase)
    ensures
      var r := Step(m, a);
      && !r.1.DeviceInt? && !r.1.MmuInt? && r.0.current == m.current
      && (r.0.trap == m.trap || r.1.SyscallInt? || r.1.IllegalInt?)
  {
  }

  function Underway(c: Context): seq<int> {
    match c.phase
    case TrapSet(arg) => [arg]
    case ArgStored(arg) => [arg]
    case _ => []
  }

  // The arguments of the system calls that context c makes in the run, and those that the handler
  // is called with on c.
  function Issued(m: Cpu, acts: seq<Action>, c: nat): seq<int>
    requires Laid(m)
    decreases |acts|
  {
    if acts == [] then []
    else
      var one := Step(m, acts[0]);
      IssuedNow(m, acts[0], c) + (if Final(one.1) then [] else Issued(one.0, acts[1..], c))
  }

  function IssuedNow(m: Cpu, a: Action, c: nat): seq<int>
    requires Laid(m)
  {
    if a.Syscall? && Step(m, a).1 == Silent && m.current == c then [a.arg] else []
  }

  function Received(m: Cpu, acts: seq<Action>, c: nat): seq<int>
    requires Laid(m)
    decreases |acts|
  {
    if acts == [] then []
    else
      var one := Step(m, acts[0]);
      ReceivedNow(m, acts[0], c) + (if Final(one.1) then [] else Received(one.0, acts[1..], c))
  }

  function ReceivedNow(m: Cpu, a: Action, c: nat): seq<int>
    requires Laid(m)
  {
    if Step(m, a).1.SyscallInt? && m.current == c then [Step(m, a).1.arg] else []
  }

  lemma StepDelivers(m: Cpu, a: Action, c: nat)
    requires Safe(m) && c < |m.contexts|
    ensures Underway(m.contexts[c]) + IssuedNow(m, a, c) == ReceivedNow(m, a, c) + Underway(Step(m, a).0.contexts[c])
  {
    assert ContextOk(m.contexts[c], c == m.current, m.trap, m.syscallArg);
  }

  // Over every interleaving the handler is called, on each context, with exactly the arguments of
  // that context's own system calls, in order; only the call in progress is still missing.
  lemma {:induction false} SyscallsDelivered(m: Cpu, acts: seq<Action>, c: nat)
    requires Safe(m) && c < |m.contexts|
    ensures Underway(m.contexts[c]) + Issued(m, acts, c) == Received(m, acts, c) + Underway(Run(m, acts).0.contexts[c])
    decreases |acts|
  {
    if acts != [] {
      StepSafe(m, acts[0]);
      StepDelivers(m, acts[0], c);
      var one := Step(m, acts[0]);
      if !Final(one.1) {
        SyscallsDelivered(one.0, acts[1..], c);
        Handover(Underway(m.contexts[c]), IssuedNow(m, acts[0], c), Issued(one.0, acts[1..], c),
                 ReceivedNow(m, acts[0], c), Underway(one.0.contexts[c]),
                 Received(one.0, acts[1..], c), Underway(Run(m, acts).0.contexts[c]));
      } else {
        assert Issued(m, acts, c) == IssuedNow(m, acts[0], c);
        assert Received(m, acts, c) == ReceivedNow(m, acts[0], c);
      }
    }
  }

  // USLOSS_PsrSet, its mode check behind it, takes exactly the fields that are not user mode with
  // interrupts off, and USLOSS_PsrGet reads them back; others are refused, and only the call ends.
  lemma PsrRoundTrip(m: Cpu, fields: bv32)
    requires Safe(m) && Here(m).phase.Checked?
    ensures
      var r := Step(m, PsrSet(fields));
      if fields & 0xffff_fff0 == 0 && fields & 0x3 != 0
      then r.1 == Status(0) && Step(r.0, PsrGet).1 == Psr(fields)
      else r == (WithHere(m, Here(m).(phase := Running)), Status(1))
  {
    SettableGood(fields);
  }

  /* ---- A handler's return restores what it interrupted ------------------------------------ */

  // During the run the handler that context c was in at depth d does not return, and it is about to
  // when the run ends.
  predicate LeadsToReturn(m: Cpu, acts: seq<Action>, c: nat, d: nat)
    requires Laid(m) && c < |m.contexts|
    decreases |acts|
  {
    |m.contexts[c].saved| > d &&
    if acts == [] then m.current == c && |m.contexts[c].saved| == d + 1 && m.contexts[c].phase.Running?
    else
      var one := Step(m, acts[0]);
      !Final(one.1) && LeadsToReturn(one.0, acts[1..], c, d)
  }

  lemma {:induction false} SavedKept(m: Cpu, acts: seq<Action>, c: nat, d: nat)
    requires Laid(m) && c < |m.contexts| && LeadsToReturn(m, acts, c, d)
    ensures
      var r := Run(m, acts).0;
      r.current == c && Here(r).phase.Running? && Here(r).saved == m.contexts[c].saved[..d + 1]
    decreases |acts|
  {
    if acts != [] {
      SavedKeptOnce(m, acts[0], c, d + 1);
      SavedKept(Step(m, acts[0]).0, acts[1..], c, d);
    }
  }

  lemma {:induction false} SavedKeptOnce(m: Cpu, a: Action, c: nat, d: nat)
    requires Laid(m) && c < |m.contexts|
    requires |m.contexts[c].saved| >= d && |Step(m, a).0.contexts[c].saved| >= d
    ensures Step(m, a).0.contexts[c].saved[..d] == m.contexts[c].saved[..d]
  {
    StepSaved(m, a, c);
  }

  // A step pushes an activation, pops one, or does neither.
  lemma StepSaved(m: Cpu, a: Action, c: nat)
    requires Laid(m) && c < |m.contexts|
    ensures
      var was, r := m.contexts[c].saved, Step(m, a).0.contexts[c].saved;
      || r == was
      || r == was + [Saved(m.psr, InCall(m.contexts[c].phase))]
      || (was != [] && r == was[..|was| - 1])
  {
  }

  // A signal that starts the operating system's handler.
  predicate Enters(m: Cpu, a: Action)
    requires Laid(m)
  {
    var o := Step(m, a).1;
    o.SyscallInt? || o.IllegalInt? || o.DeviceInt? || o.MmuInt?
  }

  // Whatever a handler leads to, other handlers, system calls, changes of the status word or any
  // number of context switches, it can return, and its return leaves the status word, the place in
  // the program and the handlers below it as it found them. A failed mode check thus lets the kernel
  // call go on.
  lemma HandlerRestores(m: Cpu, entry: Action, acts: seq<Action>)
    requires Safe(m) && Enters(m, entry)
    requires LeadsToReturn(Step(m, entry).0, acts, m.current, |Here(m).saved|)
    ensures
      var r := Step(Run(Step(m, entry).0, acts).0, Return);
      && r.1 == Silent && r.0.psr == m.psr && r.0.current == m.current
      && Here(r.0) == Context(PhaseOf(InCall(Here(m).phase)), Here(m).saved)
  {
    var m1 := Step(m, entry).0;
    StepSafe(m, entry);
    RunSafe(m1, acts);
    SavedKept(m1, acts, m.current, |Here(m).saved|);
    Entry(m, entry);
    ReturnPops(Run(m1, acts).0, Here(m).saved, Saved(m.psr, InCall(Here(m).phase)));
  }

  // The header says that the return restores the current fields from the previous ones. It restores
  // the whole word as it was instead.
  function Documented(psr: bv32): bv32 {
    (psr >> 2) & PSR_CURRENT_MASK
  }

  // The two are the same exactly when the previous fields at the return are those of the entry: a
  // handler's change of them is lost.
  lemma ReturnAsDocumented(m: Cpu, entry: Action, acts: seq<Action>)
    requires Safe(m) && Enters(m, entry)
    requires LeadsToReturn(Step(m, entry).0, acts, m.current, |Here(m).saved|)
    ensures
      var last := Run(Step(m, entry).0, acts).0;
      && (Step(last, Return).0.psr & PSR_CURRENT_MASK == Documented(last.psr)
          <==> last.psr & PSR_PREV_MASK == Entered(m.psr) & PSR_PREV_MASK)
  {
    HandlerRestores(m, entry, acts);
    SameFields(Run(Step(m, entry).0, acts).0.psr, m.psr);
  }

  lemma SameFields(last: bv32, psr: bv32)
    ensures psr & PSR_CURRENT_MASK == Documented(last) <==> last & PSR_PREV_MASK == Entered(psr) & PSR_PREV_MASK
  {
  }

  // Such a change: a handler that sets the previous fields and returns.
  lemma PreviousIgnored(m: Cpu, entry: Action, fields: bv32)
    requires Safe(m) && Enters(m, entry) && Settable(fields)
    ensures
      var acts := [CheckMode] + [PsrSet(fields)];
      var last := Run(Step(m, entry).0, acts).0;
      && LeadsToReturn(Step(m, entry).0, acts, m.current, |Here(m).saved|)
      && last.psr & PSR_MASK == fields && Step(last, Return).0.psr == m.psr
  {
    var acts, m1 := [CheckMode] + [PsrSet(fields)], Step(m, entry).0;
    Entry(m, entry);
    EntryKernel(m, entry);
    var m2 := Step(m1, CheckMode).0;
    SetStep(m2, fields);
    var m3 := Step(m2, PsrSet(fields)).0;
    assert acts[1..] == [PsrSet(fields)] && [PsrSet(fields)][1..] == [];
    assert Run(m3, []).0 == m3;
    assert Run(m2, [PsrSet(fields)]).0 == m3;
    assert LeadsToReturn(m3, [], m.current, |Here(m).saved|);
    assert LeadsToReturn(m2, [PsrSet(fields)], m.current, |Here(m).saved|);
    HandlerRestores(m, entry, acts);
  }

  lemma EntryKernel(m: Cpu, entry: Action)
    requires Safe(m) && Enters(m, entry)
    ensures
      var r := Step(m, entry).0;
      r.current == m.current && Here(r).phase.Running? && HasMagic(r.psr) && Kernel(r.psr)
  {
    EnteredGood(m.psr);
  }

  lemma SetStep(m: Cpu, fields: bv32)
    requires Laid(m) && Here(m).phase.Checked? && HasMagic(m.psr) && Settable(fields)
    ensures Step(m, PsrSet(fields)) ==
      (WithHere(m, Here(m).(phase := Running)).(psr := PSR_MAGIC | fields), Status(ERR_OK))
    ensures (PSR_MAGIC | fields) & PSR_MASK == fields
  {
    SettableGood(fields);
  }

  lemma Entry(m: Cpu, entry: Action)
    requires Safe(m) && Enters(m, entry)
    ensures Here(Step(m, entry).0).saved == Here(m).saved + [Saved(m.psr, InCall(Here(m).phase))]
  {
  }

  lemma ReturnPops(m: Cpu, saved: seq<Saved>, back: Saved)
    requires Safe(m) && Here(m) == Context(Running, saved + [back])
    ensures Step(m, Return) == (WithHere(m, Context(PhaseOf(back.inCall), saved)).(psr := back.psr), Silent)
  {
    assert (saved + [back])[..|saved|] == saved;
  }

  /* ---- Kernel calls in user mode ---------------------------------------------------------- */

  // The kernel calls on context c that are past their mode check in user mode, or will be when the
  // handlers above them return.
  function Excused(m: Cpu, c: nat): nat
    requires Laid(m) && c < |m.contexts|
  {
    Excuses(m.contexts[c].saved) + if m.current == c && m.contexts[c].phase.Checked? && !Kernel(m.psr) then 1 else 0
  }

  function Excuses(saved: seq<Saved>): nat {
    if saved == [] then 0
    else
      var last := saved[|saved| - 1];
      Excuses(saved[..|saved| - 1]) + if last.inCall && !Kernel(last.psr) then 1 else 0
  }

  // Illegal-instruction interrupts on c for failed mode checks, and kernel calls that go on in user mode.
  function CaughtNow(m: Cpu, a: Action, c: nat): nat
    requires Laid(m)
  {
    if Step(m, a).1.IllegalInt? && m.current == c && InCall(Here(m).phase) then 1 else 0
  }

  function PassedNow(m: Cpu, a: Action, c: nat): nat
    requires Laid(m)
  {
    var r := Step(m, a);
    if (a.PsrSet? || a.Switch? || a.ReadClock? || a.CheckMode?) && !r.1.Impossible? && !Final(r.1)
       && m.current == c && Here(m).phase.Checked? && !Kernel(m.psr) then 1 else 0
  }

  function Caught(m: Cpu, acts: seq<Action>, c: nat): nat
    requires Laid(m)
    decreases |acts|
  {
    if acts == [] then 0
    else
      var one := Step(m, acts[0]);
      CaughtNow(m, acts[0], c) + if Final(one.1) then 0 else Caught(one.0, acts[1..], c)
  }

  function Passed(m: Cpu, acts: seq<Action>, c: nat): nat
    requires Laid(m)
    decreases |acts|
  {
    if acts == [] then 0
    else
      var one := Step(m, acts[0]);
      PassedNow(m, acts[0], c) + if Final(one.1) then 0 else Passed(one.0, acts[1..], c)
  }

  predicate Conserves(m: Cpu, a: Action, c: nat)
    requires Laid(m) && c < |m.contexts|
  {
    Excused(m, c) + CaughtNow(m, a, c) == PassedNow(m, a, c) + Excused(Step(m, a).0, c)
  }

  lemma {:induction false} StepExcused(m: Cpu, a: Action, c: nat)
    requires Safe(m) && c < |m.contexts|
    ensures Conserves(m, a, c)
  {
    if c != m.current {
      StepElsewhere(m, a, c);
    } else {
      match a
      case RaiseTrap => EntryExcused(m, a);
      case Alarm => EntryExcused(m, a);
      case Fault => EntryExcused(m, a);
      case Return => ReturnExcused(m);
      case _ => OtherExcused(m, a);
    }
  }

  lemma EntryExcused(m: Cpu, a: Action)
    requires Safe(m) && (a.RaiseTrap? || a.Alarm? || a.Fault?)
    ensures Conserves(m, a, m.current)
  {
    assert ContextOk(Here(m), true, m.trap, m.syscallArg);
    ExcusesPush(Here(m).saved, Saved(m.psr, InCall(Here(m).phase)));
  }

  lemma ReturnExcused(m: Cpu)
    requires Safe(m)
    ensures Conserves(m, Return, m.current)
  {
  }

  lemma OtherExcused(m: Cpu, a: Action)
    requires Safe(m) && !a.RaiseTrap? && !a.Alarm? && !a.Fault? && !a.Return?
    ensures Conserves(m, a, m.current)
  {
    assert Step(m, a).0.contexts[m.current].saved == Here(m).saved;
  }

  lemma ExcusesPush(saved: seq<Saved>, back: Saved)
    ensures Excuses(saved + [back]) == Excuses(saved) + if back.inCall && !Kernel(back.psr) then 1 else 0
  {
    assert (saved + [back])[..|saved|] == saved;
  }

  lemma StepElsewhere(m: Cpu, a: Action, c: nat)
    requires Safe(m) && c < |m.contexts| && c != m.current
    ensures m.contexts[c].phase == Running && Step(m, a).0.contexts[c] == m.contexts[c]
  {
    assert ContextOk(m.contexts[c], false, m.trap, m.syscallArg);
  }

  // Over every run, each kernel call that goes on in user mode has had an illegal-instruction
  // interrupt of its own before: from the start they are never more.
  lemma {:induction false} UserCallsCaught(m: Cpu, acts: seq<Action>, c: nat)
    requires Safe(m) && c < |m.contexts|
    ensures Excused(m, c) + Caught(m, acts, c) == Passed(m, acts, c) + Excused(Run(m, acts).0, c)
    decreases |acts|
  {
    if acts != [] {
      StepExcused(m, acts[0], c);
      StepSafe(m, acts[0]);
      var one := Step(m, acts[0]);
      if !Final(one.1) {
        UserCallsCaught(one.0, acts[1..], c);
      }
    }
  }

  lemma UserCallsFromStart(n: nat, acts: seq<Action>, c: nat)
    requires c < n
    ensures Passed(Booted(n), acts, c) <= Caught(Booted(n), acts, c)
  {
    BootedSafe(n);
    UserCallsCaught(Booted(n), acts, c);
  }

  /* ---- Time goes up ----------------------------------------------------------------------- */

  function Time(m: Cpu): int {
    m.ticks * ALARM_TIME + m.partial
  }

  lemma StepTime(m: Cpu, a: Action)
    requires Safe(m)
    ensures
      var r := Step(m, a);
      && Time(m) <= Time(r.0)
      && (r.1.Clock? ==> r.1.value == Time(r.0) && Time(m) + 5 <= r.1.value <= Time(m) + 9)
      && (a == Alarm ==> Time(m) < Time(r.0) == (m.ticks + 1) * 10000)
  {
  }

  // The clock readings of a run.
  function Readings(obs: seq<Obs>): seq<int> {
    if obs == [] then []
    else (if obs[0].Clock? then [obs[0].value] else []) + Readings(obs[1..])
  }

  // Each reading is later than the one before by at least 5, over any mix of reads and timer signals.
  predicate Rises(from: int, readings: seq<int>)
    decreases |readings|
  {
    readings == [] || (from + 5 <= readings[0] && Rises(readings[0], readings[1..]))
  }

  lemma RisesLater(from: int, to: int, readings: seq<int>)
    requires from <= to && Rises(to, readings)
    ensures Rises(from, readings)
  {
  }

  lemma {:induction false} ClockRises(m: Cpu, acts: seq<Action>)
    requires Safe(m)
    ensures Rises(Time(m), Readings(Run(m, acts).1))
    decreases |acts|
  {
    if acts != [] {
      StepSafe(m, acts[0]);
      StepTime(m, acts[0]);
      var one := Step(m, acts[0]);
      if !Final(one.1) {
        ClockRises(one.0, acts[1..]);
        var rest := Run(one.0, acts[1..]).1;
        assert ([one.1] + rest)[1..] == rest;
        if one.1.Clock? {
          assert Readings([one.1] + rest)[1..] == Readings(rest);
        } else {
          assert Readings([one.1] + rest) == Readings(rest);
          RisesLater(Time(m), Time(one.0), Readings(rest));
        }
      } else {
        assert Run(m, acts).1[1..] == [];
      }
    }
  }
}
