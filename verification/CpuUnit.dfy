/** The 6502 as an object: the micro-operations change its fields, and some start the dispatch over. */
module CpuUnit {
  import opened Wrappers
  import opened Microcode
  import opened Mos6502

  class MOS6502X {
    var regs: Regs
    var opcode: int
    var mi: int
    var rdy: bool
    var irq: bool
    var nmi: bool
    var rdyFreeze: bool
    var iflagPending: bool
    var interruptPending: bool
    var branchIrqHack: bool
    var branchTaken: bool

    ghost function View(): Cpu
      reads this
    {
      Cpu(regs, opcode, mi, rdy, irq, nmi, rdyFreeze, iflagPending, interruptPending, branchIrqHack, branchTaken)
    }

    constructor (held: Cpu)
      ensures View() == PowerOn(held) && CpuInv(View())
    {
      regs := Regs(0, 0, 0, 0, NO_FLAGS, 0, held.regs.ea, held.regs.alu, held.regs.h);
      opcode, mi, iflagPending, rdy := RESET_ROW, 0, true, true;
      irq, nmi, rdyFreeze := held.irq, held.nmi, held.rdyFreeze;
      interruptPending, branchIrqHack, branchTaken := held.interruptPending, held.branchIrqHack, held.branchTaken;
      new;
      ResetInv(held);
    }

    method NESSoftReset()
      modifies this`opcode, this`mi, this`iflagPending, this`regs
      ensures View() == SoftReset(old(View())) && CpuInv(View())
    {
      ResetInv(View());
      opcode, mi, iflagPending := RESET_ROW, 0, true;
      regs := regs.(p := regs.p.(i := true));
    }

    /** One cycle. A CPU in its row never fails to find a micro-operation. */
    method ExecuteOne(choice: Choice) returns (wrote: Option<nat>, depth: nat)
      requires CpuInv(View())
      modifies this
      ensures Executed(old(View()), choice) == Ran(View(), wrote, depth)
      ensures CpuInv(View()) && depth <= 3
    {
      hide CpuInv, Retried, InRow, Executed;
      CycleInv(View(), choice);
      interruptPending := interruptPending || nmi || (irq && !regs.p.i);
      rdyFreeze := false;
      InvInRow(old(View()), View());
      ghost var start := View();
      wrote, depth := ExecuteOneRetry(choice);
      ExecutedIs(old(View()), choice, start, Ran(View(), wrote, depth));
      if !rdyFreeze {
        mi := mi + 1;
      }
    }

    /** The dispatch. */
    method ExecuteOneRetry(choice: Choice) returns (wrote: Option<nat>, depth: nat)
      requires InRow(View()) && !rdyFreeze
      modifies this
      ensures Retried(old(View()), choice) == Ran(View(), wrote, depth)
      decreases Rank(View()), 1
    {
      hide KindOf, Row, Rank, Retried;
      var k := KindOf(Row(opcode)[mi]);
      RowFacts(View());
      if k.Finish? || k.Suppress? {
        wrote, depth := Next(k, choice);
      } else if k.Interrupts? {
        wrote, depth := CheckInterrupts(choice);
      } else if k.ReadStage? {
        wrote, depth := ReadIfCarry(choice);
      } else if Waits(k) {
        WaitRetried(View(), choice);
        Wait(k, choice);
        wrote, depth := None, 1;
      } else {
        wrote := Write(k, choice);
        depth := 1;
      }
    }

    /** The stores, the pushes of an interrupt, and Jam. */
    method Write(k: Kind, choice: Choice) returns (wrote: Option<nat>)
      requires InRow(View()) && k == Now(View()) && (Writes(k) || k.Stuck?)
      modifies this`regs, this`rdyFreeze
      ensures Retried(old(View()), choice) == Ran(View(), wrote, 1)
    {
      hide KindOf, Row, Rank, Pushed;
      wrote := None;
      match k {
        case Store =>
          regs := choice.regs;
          wrote := Some(choice.address);
        case PushInterrupt(vector, b) =>
          wrote := Some(0x100 + regs.s as nat);
          regs := Pushed(regs, vector, b);
        case Stuck =>
          rdyFreeze := true;
      }
    }

    /** IndIdx_READ_Stage5 and AbsIdx_READ_Stage4: without a carry, the next stage happens in this cycle. */
    method ReadIfCarry(choice: Choice) returns (wrote: Option<nat>, depth: nat)
      requires InRow(View()) && !rdyFreeze && Now(View()).ReadStage?
      modifies this
      ensures Retried(old(View()), choice) == Ran(View(), wrote, depth)
      decreases Rank(View()), 0
    {
      hide KindOf, Row, Rank, Waited, Bit8;
      Descends(View());
      if Bit8(regs.alu) {
        Wait(ReadStage, choice);
        return None, 1;
      }
      mi := mi + 1;
      wrote, depth := ExecuteOneRetry(choice);
      depth := depth + 1;
    }

    /** End, End_ISpecial and End_SuppressInterrupt. */
    method Next(k: Kind, choice: Choice) returns (wrote: Option<nat>, depth: nat)
      requires InRow(View()) && !rdyFreeze && k == Now(View()) && (k.Finish? || k.Suppress?)
      modifies this
      ensures Retried(old(View()), choice) == Ran(View(), wrote, depth)
      decreases Rank(View()), 0
    {
      hide KindOf, Row, Rank, Retried, InRow, Now;
      DescendsFinish(View());
      AgainRetried(View(), choice);
      if k.Suppress? {
        opcode := FETCH1_NO_INTERRUPT;
        mi := 0;
      } else {
        opcode := FETCH1;
        mi := 0;
        if k.saveI {
          iflagPending := regs.p.i;
        }
      }
      assert View() == Finished(old(View()), k);
      wrote, depth := ExecuteOneRetry(choice);
      depth := depth + 1;
    }

    /** Fetch1. */
    method CheckInterrupts(choice: Choice) returns (wrote: Option<nat>, depth: nat)
      requires InRow(View()) && !rdyFreeze && Now(View()).Interrupts?
      modifies this
      ensures Retried(old(View()), choice) == Ran(View(), wrote, depth)
      decreases Rank(View()), 0
    {
      hide KindOf, Row, Rank, Retried, Waited, InRow, Now;
      Descends(View());
      AgainRetried(View(), choice);
      var myIflag := regs.p.i;
      regs := regs.(p := regs.p.(i := iflagPending));
      if !branchIrqHack {
        interruptPending := false;
        if nmi {
          regs := regs.(ea := NMI_VECTOR);
          opcode, nmi, mi := NMI_ROW, false, 0;
          wrote, depth := ExecuteOneRetry(choice);
          return wrote, depth + 1;
        }
        if irq && !myIflag {
          regs := regs.(ea := IRQ_VECTOR);
          opcode, mi := IRQ_ROW, 0;
          wrote, depth := ExecuteOneRetry(choice);
          return wrote, depth + 1;
        }
      }
      mi, opcode := 0, FETCH1_NO_INTERRUPT;
      Wait(Fetch, choice);
      wrote, depth := None, 1;
    }

    /** The micro-operations that wait for RDY. */
    method Wait(k: Kind, choice: Choice)
      modifies this`regs, this`opcode, this`mi, this`nmi, this`rdyFreeze, this`iflagPending, this`branchIrqHack,
        this`branchTaken
      ensures View() == Waited(old(View()), k, choice)
    {
      hide Begun, Resumed;
      Begin(k);
      rdyFreeze := !rdy;
      BegunKept(old(View()), k);
      if rdy {
        Resume(k, choice);
      }
    }

    method Begin(k: Kind)
      modifies this`iflagPending, this`branchTaken, this`regs
      ensures View() == Begun(old(View()), k)
    {
      hide TakesBranch;
      match k {
        case AssignI(value) => iflagPending := value;
        case Condition(op) => branchTaken := TakesBranch(op, regs.p);
        case Unstable => if !rdy { regs := regs.(h := 255); }
        case _ =>
      }
    }

    method Resume(k: Kind, choice: Choice)
      modifies this`regs, this`opcode, this`mi, this`nmi, this`iflagPending, this`branchIrqHack, this`branchTaken
      ensures View() == Resumed(old(View()), k, choice)
    {
      hide OpcodeFetched, VectorPicked, BranchDecided, OffsetAdded, FlagsPulled, View;
      match k {
        case Fetch =>
          FetchOpcode(choice);
        case PullI =>
          PullFlags(choice);
        case Vector =>
          PickVector(choice);
        case Condition(_) =>
          TakeBranch();
        case Target =>
          AddOffset(choice.regs.alu);
        case AssignI(_) =>
        case _ =>
          Compute(choice);
      }
    }

    method Compute(choice: Choice)
      modifies this`regs
      ensures View() == old(View()).(regs := choice.regs)
    {
      regs := choice.regs;
    }

    /** PullP_NoInc */
    method PullFlags(choice: Choice)
      modifies this`regs, this`iflagPending
      ensures View() == FlagsPulled(old(View()), choice)
    {
      iflagPending := choice.regs.p.i;
      regs := regs.(p := choice.regs.p.(i := regs.p.i));
    }

    /** Fetch1_Real */
    method FetchOpcode(choice: Choice)
      modifies this`regs, this`opcode, this`mi, this`branchIrqHack
      ensures View() == OpcodeFetched(old(View()), choice)
    {
      branchIrqHack, opcode, mi := false, choice.byte as int, -1;
      regs := NextPC(regs);
    }

    /** FetchPCLVector: an NMI may take over an interrupt that is on its way. */
    method PickVector(choice: Choice)
      modifies this`nmi, this`regs
      ensures View() == VectorPicked(old(View()), choice)
    {
      if regs.ea == BRK_VECTOR && regs.p.b && nmi {
        nmi := false;
        regs := regs.(ea := NMI_VECTOR);
      }
      if regs.ea == IRQ_VECTOR && !regs.p.b && nmi {
        nmi := false;
        regs := regs.(ea := NMI_VECTOR);
      }
      regs := regs.(alu := choice.byte as int);
    }

    /** RelBranch_Stage2 */
    method TakeBranch()
      modifies this`regs, this`branchTaken, this`opcode, this`mi
      ensures View() == BranchDecided(old(View()))
    {
      regs := NextPC(regs);
      if branchTaken {
        branchTaken, opcode, mi := false, RELATIVE_STUFF, -1;
      }
    }

    /** RelBranch_Stage3 */
    method AddOffset(alu: int)
      modifies this`regs, this`opcode, this`mi, this`branchIrqHack
      ensures View() == OffsetAdded(old(View()), alu)
    {
      regs := regs.(alu := alu, pc := WithLow(regs.pc, alu));
      if Bit8(alu) {
        opcode, mi := RELATIVE_STUFF2, -1;
      } else if !interruptPending {
        branchIrqHack := true;
      }
    }
  }
}
