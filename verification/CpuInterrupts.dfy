/** What a program sees of the CPU's sequencing: which interrupt is taken and when, when a change of the I flag is
    felt, which branches are taken, and what a page crossing costs. */
module CpuInterrupts {
  import opened Wrappers
  import opened Bits
  import opened Microcode
  import opened Mos6502

  /** What a cycle starts from. */
  function Start(c: Cpu): Cpu {
    c.(interruptPending := c.interruptPending || c.nmi || (c.irq && !c.regs.p.i), rdyFreeze := false)
  }

  lemma StartIs(c: Cpu)
    requires CpuInv(c)
    ensures Start(c) == c.(interruptPending := c.interruptPending || Interrupted(c), rdyFreeze := false)
    ensures InRow(c) && InRow(Start(c)) && Now(Start(c)) == Now(c)
  {
    hide KindOf, Row, Parked;
  }

  /** A cycle, by what the dispatch does. */
  lemma Cycle(c: Cpu, choice: Choice)
    requires CpuInv(c)
    ensures var o := Retried(Start(c), choice);
      && o.Ran? && Executed(c, choice).Ran? && Executed(c, choice).wrote == o.wrote
      && Executed(c, choice).depth == o.depth
      && Executed(c, choice).cpu == if o.cpu.rdyFreeze then o.cpu else o.cpu.(mi := o.cpu.mi + 1)
  {
    hide KindOf, Row, Retried, Parked, Start, Interrupted;
    CycleInv(c, choice);
    StartIs(c);
    ExecutedIs(c, choice, Start(c), Retried(Start(c), choice));
  }

  /** A cycle whose micro-operation waits for RDY. */
  lemma Waiting(c: Cpu, choice: Choice)
    requires CpuInv(c) && InRow(c) && Waits(Now(c))
    ensures var o := Waited(Start(c), Now(c), choice);
      && Executed(c, choice).Ran? && Executed(c, choice).wrote.None?
      && Executed(c, choice).cpu == if o.rdyFreeze then o else o.(mi := o.mi + 1)
  {
    hide KindOf, Row, Retried, Parked, Start, Waited, Rank;
    Cycle(c, choice);
    StartIs(c);
    WaitRetried(Start(c), choice);
  }

  lemma WaitedWork(c: Cpu, choice: Choice)
    ensures Waited(c, Work, choice) == c.(rdyFreeze := !c.rdy, regs := if c.rdy then choice.regs else c.regs)
  {
  }

  lemma WaitedAssign(c: Cpu, value: bool, choice: Choice)
    requires c.rdy
    ensures Waited(c, AssignI(value), choice) == c.(rdyFreeze := false, iflagPending := value)
  {
  }

  lemma WaitedPull(c: Cpu, choice: Choice)
    requires c.rdy
    ensures Waited(c, PullI, choice) == c.(rdyFreeze := false, iflagPending := choice.regs.p.i,
                                           regs := c.regs.(p := choice.regs.p.(i := c.regs.p.i)))
  {
  }

  lemma WaitedTarget(c: Cpu, choice: Choice)
    requires c.rdy
    ensures Waited(c, Target, choice) == OffsetAdded(c.(rdyFreeze := false), choice.regs.alu)
  {
    hide OffsetAdded;
  }

  lemma OffsetAddedIs(c: Cpu, alu: int)
    ensures var next, carry := OffsetAdded(c, alu), alu / 256 % 2 == 1;
      next == c.(regs := c.regs.(alu := alu, pc := c.regs.pc - c.regs.pc % 256 + alu % 256),
                 opcode := if carry then 258 else c.opcode, mi := if carry then -1 else c.mi,
                 branchIrqHack := c.branchIrqHack || (!carry && !c.interruptPending))
  {
    assert c.regs.pc / 256 * 256 == c.regs.pc - c.regs.pc % 256;
  }

  // ---- which interrupt is taken ----

  /** The I flag after an instruction that ends with `k`: `End` takes it as it is, `End_ISpecial` takes what is
      pending. */
  predicate NextI(c: Cpu, k: Kind)
    requires k.Finish?
  {
    if k.saveI then c.regs.p.i else c.iflagPending
  }

  /** The state in which Fetch1 is dispatched. */
  function AtFetch(c: Cpu, k: Kind): Cpu
    requires k.Finish?
  {
    Start(c).(opcode := FETCH1, mi := 0, iflagPending := NextI(c, k))
  }

  lemma EndRetried(c: Cpu, choice: Choice)
    requires CpuInv(c) && InRow(c) && Now(c).Finish?
    ensures var next := AtFetch(c, Now(c));
      InRow(next) && Now(next).Interrupts? && Retried(Start(c), choice) == Nested(Retried(next, choice))
  {
    hide KindOf, Row, Rank, Parked, Retried, Checked, Nested;
    FixedRows();
    FirstKinds();
    StartIs(c);
    AgainRetried(Start(c), choice);
  }

  /** The row that Fetch1 goes to. */
  function NextRow(c: Cpu): int {
    if !c.branchIrqHack && c.nmi then NMI_ROW
    else if !c.branchIrqHack && c.irq && !c.regs.p.i then IRQ_ROW
    else FETCH1_NO_INTERRUPT
  }

  /** An interrupt begins, with the first operation of its row. */
  lemma TakenRetried(c: Cpu, choice: Choice)
    requires InRow(c) && Now(c).Interrupts? && NextRow(c) != FETCH1_NO_INTERRUPT
    ensures var o := Retried(c, choice);
      && o.Ran? && o.wrote.None? && o.cpu.opcode == NextRow(c) && o.cpu.mi == 0
      && o.cpu.rdyFreeze == !c.rdy && !o.cpu.branchIrqHack && !o.cpu.interruptPending && !o.cpu.nmi
      && o.depth == 2
      && (!c.rdy ==> o.cpu.regs == c.regs.(p := c.regs.p.(i := c.iflagPending),
                                           ea := if NextRow(c) == NMI_ROW then 0xFFFA else 0xFFFE))
  {
    hide KindOf, Row, Rank, Retried, Waited;
    FixedRows();
    FirstKinds();
    Descends(c);
    AgainRetried(c, choice);
    WaitRetried(Checked(c), choice);
    WaitedWork(Checked(c), choice);
  }

  /** The next opcode is fetched, or with RDY low not yet. */
  lemma FetchRetried(c: Cpu, choice: Choice)
    requires InRow(c) && Now(c).Interrupts? && NextRow(c) == FETCH1_NO_INTERRUPT
    ensures var o := Retried(c, choice);
      && o.Ran? && o.wrote.None? && o.depth == 1 && o.cpu.rdyFreeze == !c.rdy && o.cpu.nmi == c.nmi
      && o.cpu.branchIrqHack == (c.branchIrqHack && !c.rdy)
      && o.cpu.interruptPending == (c.branchIrqHack && c.interruptPending)
      && (if c.rdy then o.cpu.opcode == choice.byte as int && o.cpu.mi == -1
          else o.cpu.opcode == FETCH1_NO_INTERRUPT && o.cpu.mi == 0)
      && o.cpu.regs == c.regs.(p := c.regs.p.(i := c.iflagPending),
                               pc := if c.rdy then (c.regs.pc + 1) % 0x10000 else c.regs.pc)
  {
    hide KindOf, Row, Rank, Retried;
    AgainRetried(c, choice);
  }

  /** The end of an instruction, with RDY high. After a branch that may not be interrupted the next opcode is fetched
      whatever the lines are. Otherwise an NMI comes first, and is used up; then an IRQ, unless the I flag masks it; or
      the next opcode is fetched. The I flag that counts is the one from before the instruction's own change of it. The
      dispatch nests three deep for an interrupt, and otherwise two. */
  lemma InstructionEnds(c: Cpu, choice: Choice)
    requires CpuInv(c) && c.rdy && InRow(c) && Now(c).Finish?
    ensures var o := Executed(c, choice);
      && o.Ran? && o.wrote.None? && !o.cpu.rdyFreeze && !o.cpu.branchIrqHack
      && (o.cpu.opcode == 260 <==> !c.branchIrqHack && c.nmi)
      && (o.cpu.opcode == 261 <==> !c.branchIrqHack && !c.nmi && c.irq && !c.regs.p.i)
      && (o.cpu.opcode == 260 || o.cpu.opcode == 261 ==> o.cpu.mi == 1)
      && o.depth == (if o.cpu.opcode == 260 || o.cpu.opcode == 261 then 3 else 2)
      && o.cpu.nmi == (c.nmi && c.branchIrqHack)
      && o.cpu.interruptPending == (c.branchIrqHack && (c.interruptPending || c.nmi || (c.irq && !c.regs.p.i)))
      && (o.cpu.opcode != 260 && o.cpu.opcode != 261
          ==> o.cpu.opcode == choice.byte as int && o.cpu.mi == 0
              && o.cpu.regs == c.regs.(pc := (c.regs.pc + 1) % 0x10000,
                                       p := c.regs.p.(i := if Now(c).saveI then c.regs.p.i else c.iflagPending)))
  {
    hide KindOf, Row, Rank, Retried, Parked;
    Cycle(c, choice);
    EndRetried(c, choice);
    var next := AtFetch(c, Now(c));
    if NextRow(next) == FETCH1_NO_INTERRUPT { FetchRetried(next, choice); } else { TakenRetried(next, choice); }
  }

  /** The same with RDY low: what comes next is decided, and waits. */
  lemma InstructionEndsLow(c: Cpu, choice: Choice)
    requires CpuInv(c) && !c.rdy && InRow(c) && Now(c).Finish?
    ensures var o := Executed(c, choice);
      && o.Ran? && o.wrote.None? && o.cpu.rdyFreeze && o.cpu.mi == 0
      && (o.cpu.opcode == 260 <==> !c.branchIrqHack && c.nmi)
      && (o.cpu.opcode == 261 <==> !c.branchIrqHack && !c.nmi && c.irq && !c.regs.p.i)
      && (o.cpu.opcode != 260 && o.cpu.opcode != 261 ==> o.cpu.opcode == 263)
      && o.cpu.nmi == (c.nmi && c.branchIrqHack)
      && o.cpu.regs == c.regs.(p := c.regs.p.(i := if Now(c).saveI then c.regs.p.i else c.iflagPending),
                               ea := if o.cpu.opcode == 260 then 0xFFFA else if o.cpu.opcode == 261 then 0xFFFE
                                     else c.regs.ea)
  {
    hide KindOf, Row, Rank, Retried, Parked;
    Cycle(c, choice);
    EndRetried(c, choice);
    var next := AtFetch(c, Now(c));
    if NextRow(next) == FETCH1_NO_INTERRUPT { FetchRetried(next, choice); } else { TakenRetried(next, choice); }
  }

  /** At the end of an interrupt or a reset, and where a fetch waited for RDY, the opcode is fetched whatever the lines
      are. */
  lemma FetchesAnyway(c: Cpu, choice: Choice)
    requires CpuInv(c) && c.rdy && InRow(c) && (Now(c).Suppress? || Now(c).Fetch?)
    ensures var o := Executed(c, choice);
      && o.Ran? && o.wrote.None? && o.cpu.opcode == choice.byte as int && o.cpu.mi == 0 && o.cpu.nmi == c.nmi
      && o.cpu.regs == c.regs.(pc := (c.regs.pc + 1) % 0x10000)
  {
    hide KindOf, Row, Rank, Retried, Parked;
    if Now(c).Fetch? {
      Waiting(c, choice);
    } else {
      Cycle(c, choice);
      StartIs(c);
      FixedRows();
      FirstKinds();
      AgainRetried(Start(c), choice);
      WaitRetried(Finished(Start(c), Suppress), choice);
    }
  }

  /** A store happens whatever RDY says. */
  lemma StoreHappens(c: Cpu, choice: Choice)
    requires CpuInv(c) && InRow(c) && Now(c).Store?
    ensures var o := Executed(c, choice);
      && o.Ran? && o.wrote == Some(choice.address) && o.depth == 1 && !o.cpu.rdyFreeze
      && o.cpu.opcode == c.opcode && o.cpu.mi == c.mi + 1 && o.cpu.regs == choice.regs && o.cpu.nmi == c.nmi
  {
    hide KindOf, Row, Rank, Retried, Parked, Executed;
    StartIs(c);
    Cycle(c, choice);
    StoreRetried(Start(c), choice);
  }

  lemma StoreRetried(c: Cpu, choice: Choice)
    requires InRow(c) && Now(c).Store?
    ensures Retried(c, choice) == Ran(c.(regs := choice.regs), Some(choice.address), 1)
  {
    hide KindOf, Row, Rank, Pushed, Waited, Finished, Checked;
  }

  /** Power-on clears the registers and the flags; the reset button masks IRQs and changes no register. Both start the
      reset sequence, with a set I flag pending. */
  lemma Starts(c: Cpu)
    ensures var on := PowerOn(c);
      && on.opcode == 262 && on.mi == 0 && on.rdy && on.iflagPending && !on.regs.p.i
      && on.regs.a == 0 && on.regs.x == 0 && on.regs.y == 0 && on.regs.s == 0 && on.regs.pc == 0
    ensures PlayEvent(c, Reset).Played? && PlayEvent(c, Reset).stores == [] && PlayEvent(c, Reset).depth == 0
    ensures var off := PlayEvent(c, Reset).cpu;
      && off.opcode == 262 && off.mi == 0 && off.rdy == c.rdy && off.iflagPending
      && off.regs == c.regs.(p := c.regs.p.(i := true))
  {
  }

  // ---- when a change of the I flag is felt ----

  lemma DelayShapes()
    ensures ShapeOf(0x28) == PullFlags && ShapeOf(0x58) == ClearInterrupt && ShapeOf(0x78) == SetInterrupt
  {
  }

  lemma DelayRows()
    ensures Row(0x58) == [ImpCli, EndISpecial] && Row(0x78) == [ImpSei, EndISpecial]
    ensures Row(0x28) == [FetchDummy, IncS, PullPNoInc, EndISpecial]
  {
    hide ShapeOf, ExpandRead, ExpandModify, ExpandStore;
    DelayShapes();
  }

  /** The last operation of CLI, SEI and PLP. */
  predicate ChangesI(c: Cpu) {
    (c.opcode == 0x58 && c.mi == 0) || (c.opcode == 0x78 && c.mi == 0) || (c.opcode == 0x28 && c.mi == 2)
  }

  lemma ChangeKinds()
    ensures KindOf(ImpCli) == AssignI(false) && KindOf(ImpSei) == AssignI(true)
  {
  }

  lemma PullKind()
    ensures KindOf(PullPNoInc) == PullI
  {
  }

  lemma EndKinds()
    ensures KindOf(EndISpecial) == Finish(false) && KindOf(End) == Finish(true)
  {
  }

  lemma ChangesKind(c: Cpu)
    requires ChangesI(c)
    ensures InRow(c) && InRow(c.(mi := c.mi + 1)) && Now(c.(mi := c.mi + 1)) == Finish(false)
    ensures Now(c) == if c.opcode == 0x28 then PullI else AssignI(c.opcode == 0x78)
  {
    hide Row, KindOf;
    DelayRows();
    ChangeKinds();
    PullKind();
    EndKinds();
    if c.opcode == 0x28 {} else if c.opcode == 0x58 {} else {}
  }

  /** It leaves the I flag alone and holds the new one ready. */
  lemma IPending(c: Cpu, choice: Choice)
    requires CpuInv(c) && c.rdy && ChangesI(c)
    ensures var o := Executed(c, choice);
      && o.Ran? && o.wrote.None? && CpuInv(o.cpu) && o.cpu.branchIrqHack == c.branchIrqHack
      && o.cpu.regs.p.i == c.regs.p.i && InRow(o.cpu) && Now(o.cpu) == Finish(false)
      && o.cpu.iflagPending == (if c.opcode == 0x58 then false else if c.opcode == 0x78 then true
                                else choice.regs.p.i)
  {
    hide KindOf, Row, Rank, Retried, Parked, Executed, Waited;
    ChangesKind(c);
    Waiting(c, choice);
    if c.opcode == 0x28 { WaitedPull(Start(c), choice); } else { WaitedAssign(Start(c), c.opcode == 0x78, choice); }
    CycleInv(c, choice);
    var e := Executed(c, choice).cpu;
    assert e.opcode == c.opcode && e.mi == c.mi + 1;
  }

  /** CLI, SEI and PLP: in the cycle that ends them an IRQ is still taken or not by the I flag from before; an
      instruction that follows has the new one. */
  lemma ChangeOfIIsLate(c: Cpu, choice: Choice, irq: bool, last: Choice)
    requires CpuInv(c) && c.rdy && !c.branchIrqHack && ChangesI(c)
    ensures Executed(c, choice).Ran?
    ensures var d := Executed(c, choice).cpu.(rdy := true, irq := irq, nmi := false);
      var o := Executed(d, last);
      && CpuInv(d) && o.Ran?
      && (if irq && !c.regs.p.i then o.cpu.opcode == 261
          else o.cpu.opcode == last.byte as int
               && o.cpu.regs.p.i == (if c.opcode == 0x58 then false else if c.opcode == 0x78 then true
                                     else choice.regs.p.i))
  {
    hide KindOf, Row, Rank, Retried, Parked, Executed, CpuInv, InRow, Now;
    IPending(c, choice);
    var d := Executed(c, choice).cpu.(rdy := true, irq := irq, nmi := false);
    LinesInv(Executed(c, choice).cpu, d);
    InstructionEnds(d, last);
  }

  lemma LinesInv(c: Cpu, d: Cpu)
    requires CpuInv(c) && d == c.(rdy := d.rdy, irq := d.irq, nmi := d.nmi)
    ensures CpuInv(d) && InRow(c) && InRow(d) && Now(d) == Now(c)
  {
    hide KindOf, Row, Parked;
    if c.rdyFreeze { ParkedSame(c, d); }
  }

  // ---- branches ----

  /** The eight branches, each with its flag. */
  predicate Holds(opcode: int, p: Flags) {
    || (opcode == 0x10 && !p.n) || (opcode == 0x30 && p.n) || (opcode == 0x50 && !p.v) || (opcode == 0x70 && p.v)
    || (opcode == 0x90 && !p.c) || (opcode == 0xB0 && p.c) || (opcode == 0xD0 && !p.z) || (opcode == 0xF0 && p.z)
  }

  const BRANCHES: seq<int> := [0x10, 0x30, 0x50, 0x70, 0x90, 0xB0, 0xD0, 0xF0]

  lemma BranchShapes(opcode: int)
    requires opcode in BRANCHES
    ensures ShapeOf(opcode) == Branch(match opcode case 0x10 => Bpl case 0x30 => Bmi case 0x50 => Bvc case 0x70 => Bvs
                                      case 0x90 => Bcc case 0xB0 => Bcs case 0xD0 => Bne case _ => Beq)
  {
    if opcode == 0x10 {} else if opcode == 0x30 {} else if opcode == 0x50 {} else if opcode == 0x70 {}
    else if opcode == 0x90 {} else if opcode == 0xB0 {} else if opcode == 0xD0 {} else {}
  }

  lemma BranchRows(opcode: int, p: Flags)
    requires opcode in BRANCHES
    ensures |Row(opcode)| == 2 && KindOf(Row(opcode)[0]).Condition? && KindOf(Row(opcode)[1]) == Finish(true)
    ensures TakesBranch(KindOf(Row(opcode)[0]).op, p) == Holds(opcode, p)
  {
    hide ShapeOf, ExpandRead, ExpandModify, ExpandStore;
    BranchShapes(opcode);
  }

  /** A branch, with RDY high: it is taken just if its flag says so. */
  lemma BranchByFlag(c: Cpu, choice: Choice)
    requires CpuInv(c) && c.rdy && c.opcode in BRANCHES && c.mi == 0
    ensures var o := Executed(c, choice);
      && o.Ran? && o.wrote.None? && !o.cpu.branchTaken
      && (if Holds(c.opcode, c.regs.p) then o.cpu.opcode == 257 && o.cpu.mi == 0
          else o.cpu.opcode == c.opcode && o.cpu.mi == 1)
      && o.cpu.regs == c.regs.(pc := (c.regs.pc + 1) % 0x10000)
      && o.cpu.branchIrqHack == c.branchIrqHack && o.cpu.nmi == c.nmi
  {
    hide KindOf, Row, Rank, Retried, Parked, Executed, TakesBranch, Holds;
    BranchRows(c.opcode, c.regs.p);
    Waiting(c, choice);
  }

  lemma TakenRows()
    ensures Row(257) == [RelBranchStage3, End] && KindOf(RelBranchStage3) == Target && KindOf(End) == Finish(true)
  {
    hide ShapeOf, ExpandRead, ExpandModify, ExpandStore, KindOf;
    TakenShapes();
    TargetKind();
    EndKinds();
  }

  lemma TargetKind()
    ensures KindOf(RelBranchStage3) == Target
  {
  }

  lemma TakenShapes()
    ensures ShapeOf(257) == Internal(BranchTaken)
  {
    hide Shapes00, Shapes20, Shapes40, Shapes60, Shapes80, ShapesA0, ShapesC0, ShapesE0;
  }

  /** The second cycle of a branch that is taken. */
  predicate AtOffset(c: Cpu) { c.opcode == 257 && c.mi == 0 }

  /** The offset is added to the low byte; without a carry the instruction ends next, and may not be interrupted if no
      interrupt was there by now. */
  predicate OffsetDone(c: Cpu, alu: int, o: Outcome) {
    && o.Ran? && o.wrote.None? && o.cpu.iflagPending == c.iflagPending
    && o.cpu.regs == c.regs.(alu := alu, pc := c.regs.pc - c.regs.pc % 256 + alu % 256)
    && (if alu / 256 % 2 == 1 then o.cpu.opcode == 258 && o.cpu.mi == 0 else o.cpu.opcode == 257 && o.cpu.mi == 1)
    && o.cpu.branchIrqHack == (c.branchIrqHack || (alu / 256 % 2 == 0 && !c.interruptPending
                                                   && !c.nmi && !(c.irq && !c.regs.p.i)))
  }

  /** A branch that is taken adds its offset; a carry into the high byte costs another cycle. */
  lemma OffsetIsAdded(c: Cpu, choice: Choice)
    requires CpuInv(c) && c.rdy && AtOffset(c)
    ensures OffsetDone(c, choice.regs.alu, Executed(c, choice))
  {
    hide KindOf, Row, Rank, Retried, Parked, Executed, Waited, OffsetAdded;
    TakenRows();
    Waiting(c, choice);
    WaitedTarget(Start(c), choice);
    OffsetAddedIs(Start(c), choice.regs.alu);
  }

  /** An interrupt that comes up in the last cycle of a branch that is taken within its page, and not before, has to
      wait for the end of the next instruction; one that was there before is taken. */
  lemma BranchDelaysInterrupt(c: Cpu, choice: Choice, irq: bool, nmi: bool, last: Choice)
    requires CpuInv(c) && c.rdy && AtOffset(c) && !c.branchIrqHack && choice.regs.alu / 256 % 2 == 0
    ensures Executed(c, choice).Ran?
    ensures var d := Executed(c, choice).cpu.(rdy := true, irq := irq, nmi := nmi);
      var before := c.interruptPending || c.nmi || (c.irq && !c.regs.p.i);
      && CpuInv(d) && Executed(d, last).Ran?
      && Executed(d, last).cpu.opcode == (if before && nmi then 260 else if before && irq && !c.regs.p.i then 261
                                          else last.byte as int)
  {
    hide KindOf, Row, Rank, Retried, Parked, Executed, CpuInv;
    OffsetIsAdded(c, choice);
    CycleInv(c, choice);
    var d := Executed(c, choice).cpu.(rdy := true, irq := irq, nmi := nmi);
    TakenRows();
    LinesInv(Executed(c, choice).cpu, d);
    InstructionEnds(d, last);
  }

  // ---- page crossings ----

  /** An indexed read takes one cycle more just if the index carries into the high byte of the address. */
  lemma CarryCosts(c: Cpu, choice: Choice)
    requires CpuInv(c) && c.rdy && InRow(c) && Now(c).ReadStage?
    ensures var o := Executed(c, choice);
      && o.Ran? && o.wrote.None? && o.cpu.opcode == c.opcode && o.cpu.regs == choice.regs
      && o.cpu.mi == c.mi + if c.regs.alu / 256 % 2 == 1 then 1 else 2
  {
    hide KindOf, Row, Retried, Parked;
    Cycle(c, choice);
    StartIs(c);
    CarryRetried(Start(c), choice);
  }

  lemma CarryRetried(c: Cpu, choice: Choice)
    requires InRow(c) && Now(c).ReadStage?
    ensures Bit8(c.regs.alu) ==> Retried(c, choice) == Ran(Waited(c, ReadStage, choice), None, 1)
    ensures !Bit8(c.regs.alu) ==>
      var next := c.(mi := c.mi + 1);
      InRow(next) && Now(next).Work? && Retried(c, choice) == Nested(Ran(Waited(next, Work, choice), None, 1))
  {
    hide KindOf, Row, Waited, Rank, Finished, Checked, Bit8;
    Descends(c);
    DescendsReadStage(c);
    if !Bit8(c.regs.alu) { WaitRetried(c.(mi := c.mi + 1), choice); }
  }

  // ---- the way to an interrupt's handler ----

  /** The push of the flags by BRK, an NMI and an IRQ. */
  predicate AtPush(c: Cpu) { (c.opcode == 0x00 && c.mi == 3) || ((c.opcode == 260 || c.opcode == 261) && c.mi == 4) }

  lemma PushShapes()
    ensures ShapeOf(0x00) == Break
  {
  }

  lemma PushRows()
    ensures Row(0x00) == [Fetch2, PushPCH, PushPCL, PushPBrk, FetchPCLVector, FetchPCHVector, EndSuppressInterrupt]
    ensures Row(260)
         == [FetchDummy, FetchDummy, PushPCH, PushPCL, PushPNmi, FetchPCLVector, FetchPCHVector, EndSuppressInterrupt]
    ensures Row(261)
         == [FetchDummy, FetchDummy, PushPCH, PushPCL, PushPIrq, FetchPCLVector, FetchPCHVector, EndSuppressInterrupt]
  {
    hide ShapeOf, ExpandRead, ExpandModify, ExpandStore;
    PushShapes();
    FixedShapes();
  }

  lemma PushKinds()
    ensures KindOf(PushPBrk) == PushInterrupt(0xFFFE, true) && KindOf(PushPNmi) == PushInterrupt(0xFFFA, false)
    ensures KindOf(PushPIrq) == PushInterrupt(0xFFFE, false)
  {
  }

  lemma VectorKind()
    ensures KindOf(FetchPCLVector) == Vector
  {
  }

  lemma PushKind(c: Cpu)
    requires AtPush(c)
    ensures InRow(c) && InRow(c.(mi := c.mi + 1)) && Now(c.(mi := c.mi + 1)) == Vector
    ensures Now(c) == PushInterrupt(if c.opcode == 260 then 0xFFFA else 0xFFFE, c.opcode == 0x00)
  {
    hide KindOf, Row;
    PushRows();
    PushKinds();
    VectorKind();
  }

  /** What the push leaves, whatever RDY says: B tells BRK from an interrupt, and from now on IRQs are masked. */
  predicate FlagsPushed(c: Cpu, o: Outcome) {
    && o.Ran? && o.wrote == Some(0x100 + c.regs.s as nat) && !o.cpu.rdyFreeze
    && o.cpu.opcode == c.opcode && o.cpu.mi == c.mi + 1 && o.cpu.nmi == c.nmi
    && o.cpu.regs == c.regs.(s := if c.regs.s == 0 then 255 else c.regs.s - 1,
                             p := c.regs.p.(b := c.opcode == 0x00, i := true),
                             ea := if c.opcode == 260 then 0xFFFA else 0xFFFE)
  }

  lemma InterruptPushes(c: Cpu, choice: Choice)
    requires CpuInv(c) && AtPush(c)
    ensures FlagsPushed(c, Executed(c, choice))
  {
    hide KindOf, Row, Retried, Parked, Executed;
    PushKind(c);
    StartIs(c);
    Cycle(c, choice);
    PushRetried(Start(c), choice);
  }

  lemma PushRetried(c: Cpu, choice: Choice)
    requires InRow(c) && Now(c).PushInterrupt?
    ensures Retried(c, choice) == Ran(c.(regs := Pushed(c.regs, Now(c).vector, Now(c).b)),
                                      Some(0x100 + c.regs.s as nat), 1)
  {
    hide KindOf, Row, Rank, Pushed, Waited, Finished, Checked;
  }

  /** Reading a vector, in every sequence: an NMI takes over just where the vector is that of BRK and IRQ. */
  lemma VectorIsRead(c: Cpu, choice: Choice)
    requires CpuInv(c) && c.rdy && InRow(c) && Now(c).Vector?
    ensures var o := Executed(c, choice);
      && o.Ran? && o.wrote.None? && o.cpu.opcode == c.opcode && o.cpu.mi == c.mi + 1
      && o.cpu.regs == c.regs.(ea := if c.nmi && c.regs.ea == 0xFFFE then 0xFFFA else c.regs.ea,
                               alu := choice.byte as int)
      && o.cpu.nmi == (c.nmi && c.regs.ea != 0xFFFE)
  {
    hide KindOf, Row, Retried, Parked, Executed;
    Waiting(c, choice);
  }

  /** In the next cycle the vector is picked: an NMI that has come up by then takes over a BRK or an IRQ, and is used
      up by that. */
  lemma VectorIsPicked(c: Cpu, choice: Choice, irq: bool, nmi: bool, next: Choice)
    requires CpuInv(c) && AtPush(c)
    ensures Executed(c, choice).Ran?
    ensures var d := Executed(c, choice).cpu.(rdy := true, irq := irq, nmi := nmi);
      var o := Executed(d, next);
      && CpuInv(d) && o.Ran? && o.wrote.None? && o.cpu.opcode == c.opcode && o.cpu.mi == c.mi + 2
      && o.cpu.regs.ea == (if c.opcode == 260 || nmi then 0xFFFA else 0xFFFE) && o.cpu.regs.alu == next.byte as int
      && o.cpu.regs.p.i && o.cpu.nmi == (nmi && c.opcode == 260)
  {
    hide KindOf, Row, Retried, Parked, Executed, CpuInv;
    PushKind(c);
    InterruptPushes(c, choice);
    CycleInv(c, choice);
    var d := Executed(c, choice).cpu.(rdy := true, irq := irq, nmi := nmi);
    LinesInv(Executed(c, choice).cpu, d);
    Waiting(d, next);
    CycleInv(d, next);
  }
}
