/** The DMC unit and the console's CPU cycle as objects. */
module DmaUnit {
  import opened Wrappers
  import opened Bits
  import opened Mos6502
  import opened CpuUnit
  import opened Dma

  class DMCUnit {
    var timer: nat
    var reload: nat
    var bits: nat
    var justReloaded: bool
    var delay: nat
    var filled: bool
    var length: nat
    var glitch: bool
    var glitch2: bool
    var glitch2End: bool
    var countdown: int
    var rdyCheck: int
    var callFromWrite: bool

    ghost function View(): Dmc
      reads this
    {
      Dmc(timer, reload, bits, justReloaded, delay, filled, length, glitch, glitch2, glitch2End,
          countdown, rdyCheck, callFromWrite)
    }

    constructor (pal: bool)
      ensures View() == PoweredOnDmc(pal)
    {
      timer, reload, bits, justReloaded := 1020, if pal then 398 else 428, 7, false;
      delay, filled, length := 0, false, 0;
      glitch, glitch2, glitch2End := false, false, false;
      countdown, rdyCheck, callFromWrite := -1, 0, false;
    }

    method Clock()
      modifies this`bits, this`filled
      ensures View() == Clocked(old(View()))
    {
      if bits == 0 {
        bits, filled := 7, false;
      } else {
        bits := bits - 1;
      }
    }

    /** One cycle, with the short cut. The result says whether RDY is pulled low. */
    method Run() returns (starts: bool)
      modifies this
      ensures View() == RunDmc(old(View()))
      ensures starts == StartsNow(Ticked(old(View())))
    {
      hide RunDmc, Ticked, Requested, Delayed, StartsNow, Clocked;
      if timer > 1 && delay == 0 && (filled || (length == 0 && !glitch2) || countdown != -1) {
        ShortCutExact(View());
        justReloaded := false;
        timer := timer - 1;
        return false;
      }
      Tick();
      starts := Request();
      Delay();
      RunDmcIs(old(View()));
    }

    lemma RunDmcIs(d: Dmc)
      ensures RunDmc(d) == Delayed(Requested(Ticked(d)))
    {
      hide Ticked, Requested, Delayed;
    }

    method Tick()
      modifies this`timer, this`justReloaded, this`bits, this`filled
      ensures View() == Ticked(old(View()))
    {
      hide Clocked;
      justReloaded := false;
      if timer > 0 {
        timer := timer - 1;
      }
      if timer == 0 {
        timer := reload;
        Clock();
        justReloaded := true;
      }
    }

    method Request() returns (starts: bool)
      modifies this`filled, this`glitch, this`delay, this`countdown, this`rdyCheck, this`glitch2End
      ensures View() == Requested(old(View()))
      ensures starts == StartsNow(old(View()))
    {
      starts := false;
      if !filled && (length > 0 || glitch2) && countdown == -1 && delay == 0 {
        if !glitch {
          if !callFromWrite {
            starts := true;
            if glitch2 {
              countdown, rdyCheck, glitch2End := -2, -2, true;
            } else {
              countdown, rdyCheck := 3, 2;
            }
          } else {
            delay := if timer % 2 == 0 then 3 else 2;
          }
        } else {
          filled, glitch := true, false;
        }
      }
    }

    method Delay()
      modifies this`delay, this`countdown, this`rdyCheck, this`callFromWrite
      ensures View() == Delayed(old(View()))
    {
      if delay != 0 {
        delay := delay - 1;
        if delay == 0 {
          countdown, rdyCheck, callFromWrite := 3, 2, false;
        }
      }
    }

    method Cancel()
      modifies this`countdown, this`glitch2, this`glitch2End
      ensures View() == Cancelled(old(View()))
    {
      countdown, glitch2, glitch2End := -1, false, false;
    }

    /** What the APU's registers leave of the unit at the end of a cycle. */
    method Refresh(apu: Apu)
      modifies this`reload, this`length, this`glitch2, this`callFromWrite
      ensures View() == old(View()).(reload := apu.reload, length := apu.length, glitch2 := apu.glitch2,
                                     callFromWrite := apu.callFromWrite)
    {
      reload, length, glitch2, callFromWrite := apu.reload, apu.length, apu.glitch2, apu.callFromWrite;
    }

    /** The fetch, and the two glitches it may leave. */
    method Fetch()
      modifies this`filled, this`countdown, this`glitch, this`glitch2
      ensures View() == SampleFetched(old(View()))
    {
      if length != 0 {
        filled := true;
      }
      countdown := -1;
      if timer == 2 && bits == 0 && length != 0 {
        glitch := true;
      }
      if timer == 4 && bits == 0 && length == 1 {
        glitch2 := true;
      }
    }
  }

  class Console {
    const cpu: MOS6502X
    const dmc: DMCUnit
    var oamExec: bool
    var oamIndex: nat
    var oamAddr: nat
    var oamByte: Byte
    var cpuDeadcounter: nat
    var dmcExec: bool
    var dmcRealign: bool

    ghost function View(): Nes
      reads this, cpu, dmc
    {
      Nes(cpu.View(), dmc.View(), OamView(), dmcExec, dmcRealign)
    }

    ghost function OamView(): Oam
      reads this
    {
      Oam(oamExec, oamIndex, oamAddr, oamByte, cpuDeadcounter)
    }

    constructor (held: Cpu, pal: bool)
      ensures fresh(cpu) && fresh(dmc) && View() == PoweredOn(held, pal) && NesInv(View())
    {
      hide NesInv;
      cpu := new MOS6502X(held);
      dmc := new DMCUnit(pal);
      oamExec, oamIndex, oamAddr, oamByte, cpuDeadcounter := false, 0, 0, 0, 0;
      dmcExec, dmcRealign := false, false;
      new;
      PowerOnInv(held, pal);
    }

    method StepOam(answer: Byte) returns (ops: seq<BusOp>)
      modifies this`oamExec, this`oamIndex, this`oamAddr, this`oamByte, this`cpuDeadcounter, this`dmcRealign
      ensures View() == old(View()).(oam := OamStepped(old(View()), answer), realign := false)
      ensures ops == OamOps(old(View()), answer)
    {
      ops := [];
      if oamExec && dmc.countdown != 1 && !dmcRealign {
        if cpuDeadcounter == 0 {
          if oamIndex % 2 == 0 {
            ops := [OamRead(oamAddr, answer, dmc.timer % 2 == 0)];
            oamByte := answer;
            oamAddr := (oamAddr + 1) % 0x10000;
          } else {
            ops := [OamWrite(OAM_DATA, oamByte, dmc.timer % 2 == 0)];
          }
          oamIndex := oamIndex + 1;
          if oamIndex == OAM_STEPS {
            oamExec := false;
          }
        } else {
          cpuDeadcounter := cpuDeadcounter - 1;
        }
      }
      dmcRealign := false;
    }

    /** A fetch that counts down; while the CPU is still writing in the cycle that is looked at, it is held
        back by two. */
    method StepDmc() returns (fetched: bool)
      modifies this`dmcExec, this`dmcRealign, cpu`rdy, dmc
      requires !dmcRealign
      ensures View() == DmcStepped(old(View())) && fetched == Fetches(old(View()))
    {
      fetched := false;
      if dmc.countdown > 0 {
        if dmc.countdown == 1 {
          dmcRealign := true;
        }
        if !cpu.rdy && !cpu.rdyFreeze && dmc.countdown == dmc.rdyCheck {
          dmc.countdown := dmc.countdown + 2;
        }
        cpu.rdy := false;
        dmcExec := true;
        dmc.countdown := dmc.countdown - 1;
        if dmc.countdown == 0 {
          dmc.Fetch();
          dmcExec := false;
          fetched := true;
        }
      }
    }

    /** The DMC unit, and the end of a fetch that was cancelled where it started. */
    method RunUnit()
      modifies this`dmcExec, cpu`rdy, dmc
      ensures View() == DmcRan(old(View()))
    {
      hide RunDmc, Ticked, StartsNow, Cancelled;
      var starts := dmc.Run();
      if starts {
        cpu.rdy := false;
        dmcExec := true;
      }
      if dmc.glitch2End {
        dmc.Cancel();
        dmcExec := false;
      }
    }

    method Store(wrote: Option<nat>, value: Byte)
      modifies this`oamExec, this`oamIndex, this`oamAddr, this`cpuDeadcounter, cpu`rdy
      ensures View() == Stored(old(View()), wrote, value)
    {
      if wrote == Some(OAM_DMA) {
        oamAddr := value as int * 256;
        cpuDeadcounter := if dmc.timer % 2 == 0 then 2 else 1;
        oamExec := true;
        cpu.rdy := false;
        oamIndex := 0;
      }
    }

    method End(apu: Apu)
      modifies cpu`rdy, dmc`reload, dmc`length, dmc`glitch2, dmc`callFromWrite
      ensures View() == Ended(old(View()), apu)
    {
      hide DMCUnit.View, MOS6502X.View;
      dmc.Refresh(apu);
      Release();
    }

    /** RDY is released when no DMA needs it. */
    method Release()
      modifies cpu`rdy
      ensures cpu.View() == old(cpu.View()).(rdy := old(cpu.View().rdy) || (!dmcExec && !oamExec))
    {
      if !cpu.rdy && !dmcExec && !oamExec {
        cpu.rdy := true;
      }
    }

    /** The reset button, as far as the CPU and the DMC see it. */
    method PressReset(length: nat)
      requires NesInv(View())
      modifies cpu`opcode, cpu`mi, cpu`iflagPending, cpu`regs, dmc`length, dmc`glitch, dmc`glitch2
      ensures View() == ButtonPressed(old(View()), length) && NesInv(View())
    {
      hide NesInv, MOS6502X.View, SoftReset;
      ButtonKept(View(), length);
      cpu.NESSoftReset();
      dmc.length, dmc.glitch, dmc.glitch2 := length, false, false;
    }

    lemma LineIs()
      requires NesInv(View())
      ensures cpu.rdy <==> !dmcExec && !oamExec
    {
      hide CpuInv, DmcInv, OamInv;
    }

    /** One CPU cycle of the console: the OAM DMA, the DMC fetch, the DMC unit, the CPU, the APU. */
    method RunCpuOne(input: Input) returns (ops: seq<BusOp>, fetched: bool, wrote: Option<nat>)
      requires NesInv(View()) && InputOk(input)
      modifies this, cpu, dmc
      ensures Dma.RunCpuOne(old(View()), input) == Call(View(), ops, fetched, wrote)
      ensures NesInv(View())
      ensures cpu.rdy <==> !dmcExec && !oamExec
    {
      hide NesInv, InputOk, OamStepped, OamOps, DmcStepped, DmcRan, Stored, Ended, Executed, CpuInv, Fetches, BeforeCpu;
      ghost var n := View();
      InvFacts(n);
      CallKept(n, input);
      ops := StepOam(input.answer);
      fetched := StepDmc();
      RunUnit();
      cpu.irq, cpu.nmi := input.irq, input.nmi;
      BeforeIs(n, input);
      assert View() == BeforeCpu(n, input);
      BeforeKeepsCpu(n, input);
      var depth: nat;
      wrote, depth := cpu.ExecuteOne(input.choice);
      Store(wrote, input.stored);
      End(input.apu);
      LineIs();
    }
  }
}
