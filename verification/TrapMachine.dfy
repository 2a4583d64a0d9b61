/**
 The state of src/sig_ints.c and src/globals.c as the program keeps it, with its routines broken at
 the points where a timer signal can arrive.
 */
module TrapMachine {
  import opened Traps

  class Simulator {
    var currentPsr: bv32
    var trapPending: Pending
    var syscallArg: int
    var pclockTicks: int
    var partialTicks: int
    var contexts: seq<Context>
    var current: nat

    function State(): Cpu
      reads this
    {
      Cpu(currentPsr, trapPending, syscallArg, contexts, current, pclockTicks, partialTicks)
    }

    constructor (n: nat)
      requires n > 0
      ensures State() == Booted(n) && Safe(State())
    {
      currentPsr := PSR_MAGIC | PSR_CURRENT_MODE;
      trapPending, syscallArg := NoTrap, 0;
      pclockTicks, partialTicks := 0, 0;
      contexts, current := seq(n, i => Context(Running, [])), 0;
      new;
      BootedSafe(n);
    }

    method BeginSyscall(arg: int) returns (obs: Obs)
      requires Safe(State()) && contexts[current].phase == Running
      modifies this
      ensures Safe(State()) && (State(), obs) == Step(old(State()), Syscall(arg))
    {
      StepSafe(State(), Syscall(arg));
      if Kernel(currentPsr) {
        return KernelTrap;
      }
      trapPending := SyscallPending;
      contexts := contexts[current := contexts[current].(phase := TrapSet(arg))];
      return Silent;
    }

    method StoreSyscallArg() returns (obs: Obs)
      requires Safe(State()) && contexts[current].phase.TrapSet?
      modifies this
      ensures Safe(State()) && (State(), obs) == Step(old(State()), StoreArg)
    {
      StepSafe(State(), StoreArg);
      syscallArg := contexts[current].phase.arg;
      contexts := contexts[current := contexts[current].(phase := ArgStored(syscallArg))];
      return Silent;
    }

    method BeginIllegal() returns (obs: Obs)
      requires Safe(State()) && contexts[current].phase == Running
      modifies this
      ensures Safe(State()) && (State(), obs) == Step(old(State()), IllegalInstruction)
    {
      StepSafe(State(), IllegalInstruction);
      if Kernel(currentPsr) {
        return KernelTrap;
      }
      trapPending := IllegalPending;
      contexts := contexts[current := contexts[current].(phase := IllegalSet(false))];
      return Silent;
    }

    // check_kernel_mode: from user mode it raises the illegal-instruction interrupt, and the call goes
    // on when the handler returns.
    method CheckKernelMode() returns (obs: Obs)
      requires Safe(State()) && (contexts[current].phase == Running || contexts[current].phase == Checked)
      modifies this
      ensures Safe(State()) && (State(), obs) == Step(old(State()), CheckMode)
    {
      StepSafe(State(), CheckMode);
      assert HasMagic(currentPsr);
      if !Kernel(currentPsr) {
        trapPending := IllegalPending;
        contexts := contexts[current := contexts[current].(phase := IllegalSet(true))];
        return Silent;
      }
      contexts := contexts[current := contexts[current].(phase := Checked)];
      return Silent;
    }

    // The end of a kernel call.
    method EndCall()
      requires Laid(State())
      modifies this`contexts
      ensures State() == WithHere(old(State()), Here(old(State())).(phase := Running))
    {
      contexts := contexts[current := contexts[current].(phase := Running)];
    }

    // The part of sighandler before the switch on the signal: the status word is checked, kept in
    // a local variable for the return, and replaced.
    method EnterHandler() returns (oldPsr: bv32)
      requires HasMagic(currentPsr)
      modifies this`currentPsr
      ensures oldPsr == old(currentPsr) && currentPsr == Entered(oldPsr) && HasMagic(currentPsr)
    {
      oldPsr := currentPsr;
      assert HasMagic(currentPsr);
      currentPsr := PSR_MAGIC | ((currentPsr & PSR_CURRENT_MASK) << 2);
      currentPsr := currentPsr | PSR_CURRENT_MODE;
      EnteredGood(oldPsr);
    }

    // From here on the handler's activation stays on the stack of the context it runs on.
    method CallKernel(oldPsr: bv32)
      requires Laid(State())
      modifies this`contexts
      ensures State() == WithHere(old(State()), Pushed(old(contexts[current]), oldPsr))
    {
      contexts := contexts[current := Pushed(contexts[current], oldPsr)];
    }

    // sighandler for SIGUSR1, up to the call of the operating system's handler.
    method TrapSignal() returns (obs: Obs)
      requires Safe(State()) && (contexts[current].phase.ArgStored? || contexts[current].phase.IllegalSet?)
      modifies this
      ensures Safe(State()) && (State(), obs) == Step(old(State()), RaiseTrap)
      ensures obs == match old(contexts[current].phase) case ArgStored(arg) => SyscallInt(arg) case _ => IllegalInt
    {
      StepSafe(State(), RaiseTrap);
      assert ContextOk(contexts[current], true, trapPending, syscallArg);
      var oldPsr := EnterHandler();
      assert trapPending != NoTrap;
      if trapPending == SyscallPending {
        var arg := syscallArg;
        trapPending := NoTrap;
        CallKernel(oldPsr);
        return SyscallInt(arg);
      } else {
        trapPending := NoTrap;
        CallKernel(oldPsr);
        return IllegalInt;
      }
    }

    // sighandler for the timer signal, up to the call of dispatch_int, which a pending trap prevents.
    method TimerSignal() returns (obs: Obs)
      requires Safe(State())
      modifies this
      ensures Safe(State()) && (State(), obs) == Step(old(State()), Alarm)
      ensures obs == if old(trapPending) == NoTrap then DeviceInt else Silent
    {
      StepSafe(State(), Alarm);
      var oldPsr := EnterHandler();
      pclockTicks := pclockTicks + 1;
      partialTicks := 0;
      if trapPending != NoTrap {
        assert HasMagic(currentPsr);
        currentPsr := oldPsr;
        return Silent;
      }
      CallKernel(oldPsr);
      return DeviceInt;
    }

    // sighandler for SIGSEGV, up to the call of the MMU's handler.
    method FaultSignal() returns (obs: Obs)
      requires Safe(State()) && (contexts[current].phase == Running || contexts[current].phase == Checked)
      modifies this
      ensures Safe(State()) && (State(), obs) == Step(old(State()), Fault)
    {
      StepSafe(State(), Fault);
      var oldPsr := EnterHandler();
      CallKernel(oldPsr);
      return MmuInt;
    }

    // The end of sighandler.
    method HandlerReturn() returns (obs: Obs)
      requires Safe(State()) && contexts[current].phase == Running && contexts[current].saved != []
      modifies this
      ensures Safe(State()) && (State(), obs) == Step(old(State()), Return)
    {
      StepSafe(State(), Return);
      assert HasMagic(currentPsr);
      var c := contexts[current];
      var back := c.saved[|c.saved| - 1];
      currentPsr := back.psr;
      contexts := contexts[current := Context(PhaseOf(back.inCall), c.saved[..|c.saved| - 1])];
      return Silent;
    }

    method SetPsr(psr: bv32) returns (obs: Obs)
      requires Safe(State()) && contexts[current].phase == Checked
      modifies this
      ensures Safe(State()) && (State(), obs) == Step(old(State()), PsrSet(psr))
    {
      StepSafe(State(), PsrSet(psr));
      EndCall();
      if psr & !PSR_MASK != 0 {
        return Status(ERR_INVALID_PSR);
      }
      if psr & PSR_CURRENT_MASK == 0 {
        return Status(ERR_INVALID_PSR);
      }
      currentPsr := PSR_MAGIC | psr;
      return Status(ERR_OK);
    }

    method ContextSwitch(to: nat) returns (obs: Obs)
      requires Safe(State()) && contexts[current].phase == Checked && to < |contexts|
      modifies this
      ensures Safe(State()) && (State(), obs) == Step(old(State()), Switch(to))
      ensures current == to && obs == Silent
    {
      StepSafe(State(), Switch(to));
      EndCall();
      current := to;
      return Silent;
    }

    // USLOSSClock; `random` is what rand() returned.
    method ReadTheClock(random: nat) returns (value: int)
      requires Safe(State()) && contexts[current].phase == Checked
      modifies this
      ensures Safe(State()) && (State(), Clock(value)) == Step(old(State()), ReadClock(random))
    {
      StepSafe(State(), ReadClock(random));
      ghost var was := State();
      EndCall();
      assert State() == WithHere(was, Here(was).(phase := Running));
      partialTicks := partialTicks + 5 + random % 5;
      if partialTicks >= ALARM_TIME {
        pclockTicks := pclockTicks + 1;
        partialTicks := partialTicks - ALARM_TIME;
      }
      value := pclockTicks * ALARM_TIME + partialTicks;
    }
  }
}
