/** The sequencing of the 6502: one cycle of the CPU, what a low RDY line does to it, and interrupts. */
module Mos6502 {
  import opened Wrappers
  import opened Bits
  import opened Microcode

  datatype Flags = Flags(n: bool, v: bool, b: bool, d: bool, i: bool, z: bool, c: bool)

  datatype Regs = Regs(a: Byte, x: Byte, y: Byte, s: Byte, p: Flags, pc: nat, ea: int, alu: int, h: Byte)

  datatype Cpu = Cpu(
    regs: Regs, opcode: int, mi: int,
    rdy: bool, irq: bool, nmi: bool,
    rdyFreeze: bool, iflagPending: bool, interruptPending: bool, branchIrqHack: bool, branchTaken: bool)

  /** What memory answers in a cycle, where a store goes, and what the operations compute. */
  datatype Choice = Choice(byte: Byte, address: nat, regs: Regs)

  /** A cycle ends with the CPU in its next state, the address it wrote to if it wrote, and how deep the
      dispatch was nested; or it reads outside its row or finds nothing to dispatch. */
  datatype Outcome = Ran(cpu: Cpu, wrote: Option<nat>, depth: nat) | Trapped

  predicate InRow(c: Cpu) {
    0 <= c.opcode < ROWS && 0 <= c.mi < |Row(c.opcode)|
  }

  function Now(c: Cpu): Kind
    requires InRow(c)
  {
    KindOf(Row(c.opcode)[c.mi])
  }

  predicate Bit8(x: int) { x / 256 % 2 == 1 }

  predicate Interrupted(c: Cpu) { c.nmi || (c.irq && !c.regs.p.i) }

  predicate TakesBranch(op: Operation, p: Flags) {
    match op
    case Bpl => !p.n case Bmi => p.n case Bvc => !p.v case Bvs => p.v
    case Bcc => !p.c case Bcs => p.c case Bne => !p.z case _ => p.z
  }

  // ---- one micro-operation ----

  /** What a micro-operation does whatever RDY says. */
  function Begun(c: Cpu, k: Kind): Cpu {
    match k
    case AssignI(value) => c.(iflagPending := value)
    case Condition(op) => c.(branchTaken := TakesBranch(op, c.regs.p))
    case Unstable => if c.rdy then c else c.(regs := c.regs.(h := 255))
    case _ => c
  }

  /** What it does when RDY is high. */
  function Resumed(c: Cpu, k: Kind, choice: Choice): Cpu {
    match k
    case Fetch => OpcodeFetched(c, choice)
    case AssignI(_) => c
    case PullI => FlagsPulled(c, choice)
    case Vector => VectorPicked(c, choice)
    case Condition(_) => BranchDecided(c)
    case Target => OffsetAdded(c, choice.regs.alu)
    case _ => c.(regs := choice.regs)
  }

  function OpcodeFetched(c: Cpu, choice: Choice): Cpu {
    c.(branchIrqHack := false, opcode := choice.byte as int, mi := -1, regs := NextPC(c.regs))
  }

  function FlagsPulled(c: Cpu, choice: Choice): Cpu {
    c.(iflagPending := choice.regs.p.i, regs := c.regs.(p := choice.regs.p.(i := c.regs.p.i)))
  }

  /** An NMI may take over an interrupt that is on its way. */
  function VectorPicked(c: Cpu, choice: Choice): Cpu {
    var hijacked := c.nmi && ((c.regs.ea == BRK_VECTOR && c.regs.p.b) || (c.regs.ea == IRQ_VECTOR && !c.regs.p.b));
    c.(nmi := c.nmi && !hijacked,
       regs := c.regs.(ea := if hijacked then NMI_VECTOR else c.regs.ea, alu := choice.byte as int))
  }

  function BranchDecided(c: Cpu): Cpu {
    var next := c.(regs := NextPC(c.regs));
    if c.branchTaken then next.(branchTaken := false, opcode := RELATIVE_STUFF, mi := -1) else next
  }

  function OffsetAdded(c: Cpu, alu: int): Cpu {
    var next := c.(regs := c.regs.(alu := alu, pc := WithLow(c.regs.pc, alu)));
    if Bit8(alu) then next.(opcode := RELATIVE_STUFF2, mi := -1)
    else if !c.interruptPending then next.(branchIrqHack := true)
    else next
  }

  function WithLow(pc: nat, low: int): nat { pc / 256 * 256 + low % 256 }

  function NextPC(r: Regs): Regs { r.(pc := (r.pc + 1) % 0x10000) }

  /** A micro-operation that waits for RDY. */
  function Waited(c: Cpu, k: Kind, choice: Choice): Cpu {
    var begun := Begun(c, k).(rdyFreeze := !c.rdy);
    if c.rdy then Resumed(begun, k, choice) else begun
  }

  // ---- the dispatch, which may start over within a cycle ----

  function Rank(c: Cpu): nat {
    if !InRow(c) then 0
    else match Now(c)
      case Finish(_) | Suppress => 2
      case Interrupts | ReadStage => 1
      case _ => 0
  }

  /** The start of the next instruction, once the interrupts have been looked at. */
  function Checked(c: Cpu): Cpu {
    var next := c.(regs := c.regs.(p := c.regs.p.(i := c.iflagPending)));
    if c.branchIrqHack then next.(opcode := FETCH1_NO_INTERRUPT, mi := 0)
    else if c.nmi then
      next.(interruptPending := false, nmi := false, opcode := NMI_ROW, mi := 0, regs := next.regs.(ea := NMI_VECTOR))
    else if c.irq && !c.regs.p.i then
      next.(interruptPending := false, opcode := IRQ_ROW, mi := 0, regs := next.regs.(ea := IRQ_VECTOR))
    else next.(interruptPending := false, opcode := FETCH1_NO_INTERRUPT, mi := 0)
  }

  function Finished(c: Cpu, k: Kind): Cpu {
    if k.Suppress? then c.(opcode := FETCH1_NO_INTERRUPT, mi := 0)
    else c.(opcode := FETCH1, mi := 0, iflagPending := if k.Finish? && k.saveI then c.regs.p.i else c.iflagPending)
  }

  function Nested(o: Outcome): Outcome {
    if o.Ran? then o.(depth := o.depth + 1) else o
  }

  /** Where the dispatch goes from a micro-operation that starts it over: into a row, to one that starts it over
      fewer times. */
  lemma Descends(c: Cpu)
    requires InRow(c)
    ensures var k := Now(c);
      && (k.Finish? || k.Suppress? ==> InRow(Finished(c, k)) && !Writes(Now(Finished(c, k)))
                                       && !Now(Finished(c, k)).Stuck? && Rank(Finished(c, k)) < 2 == Rank(c))
      && (k.Interrupts? && Checked(c).opcode != FETCH1_NO_INTERRUPT
          ==> InRow(Checked(c)) && Waits(Now(Checked(c))) && Rank(Checked(c)) == 0 < 1 == Rank(c))
      && (k.ReadStage?
          ==> InRow(c.(mi := c.mi + 1)) && Waits(Now(c.(mi := c.mi + 1)))
              && Rank(c.(mi := c.mi + 1)) == 0 < 1 == Rank(c))
  {
    hide KindOf, Row, Rank, Finished, Checked, InRow, Now;
    var k := Now(c);
    if k.Finish? || k.Suppress? { DescendsFinish(c); }
    else if k.Interrupts? { DescendsInterrupts(c); }
    else if k.ReadStage? { DescendsReadStage(c); }
  }

  lemma DescendsFinish(c: Cpu)
    requires InRow(c) && (Now(c).Finish? || Now(c).Suppress?)
    ensures var next := Finished(c, Now(c));
      InRow(next) && !Writes(Now(next)) && !Now(next).Stuck? && Rank(next) < 2 == Rank(c)
  {
    hide KindOf, Row;
    FixedRows();
    FirstKinds();
  }

  lemma DescendsInterrupts(c: Cpu)
    requires InRow(c) && Now(c).Interrupts?
    ensures Rank(c) == 1
    ensures var next := Checked(c);
      next.opcode != FETCH1_NO_INTERRUPT ==> InRow(next) && Waits(Now(next)) && Rank(next) == 0
  {
    hide KindOf, Row;
    FixedRows();
    FirstKinds();
  }

  lemma DescendsReadStage(c: Cpu)
    requires InRow(c) && Now(c).ReadStage?
    ensures Rank(c) == 1
    ensures var next := c.(mi := c.mi + 1); InRow(next) && Now(next).Work? && Rank(next) == 0
  {
    hide KindOf, Row;
    RowSound(c.opcode);
    assert SoundAt(Row(c.opcode), c.mi);
  }

  lemma FirstKinds()
    ensures KindOf(Fetch1).Interrupts? && KindOf(Fetch1Real).Fetch? && KindOf(FetchDummy).Work?
  {
  }

  function Retried(c: Cpu, choice: Choice): Outcome
    decreases Rank(c)
  {
    hide InRow, Now, Rank, Checked, Finished, Waited, Pushed, Nested;
    if !InRow(c) then Trapped
    else
      Descends(c);
      match Now(c)
      case Undispatched => Trapped
      case Store => Ran(c.(regs := choice.regs), Some(choice.address), 1)
      case PushInterrupt(vector, b) =>
        Ran(c.(regs := Pushed(c.regs, vector, b)), Some(0x100 + c.regs.s as nat), 1)
      case Stuck => Ran(c.(rdyFreeze := true), None, 1)
      case Finish(_) => Nested(Retried(Finished(c, Now(c)), choice))
      case Suppress => Nested(Retried(Finished(c, Now(c)), choice))
      case Interrupts =>
        var next := Checked(c);
        if next.opcode == FETCH1_NO_INTERRUPT then Ran(Waited(next, Fetch, choice), None, 1)
        else Nested(Retried(next, choice))
      case ReadStage =>
        if Bit8(c.regs.alu) then Ran(Waited(c, ReadStage, choice), None, 1)
        else Nested(Retried(c.(mi := c.mi + 1), choice))
      case k => Ran(Waited(c, k, choice), None, 1)
  }

  lemma WaitRetried(c: Cpu, choice: Choice)
    requires InRow(c) && Waits(Now(c))
    ensures Retried(c, choice) == Ran(Waited(c, Now(c), choice), None, 1)
  {
    hide KindOf, Row, Waited, Rank, Finished, Checked;
  }

  lemma AgainRetried(c: Cpu, choice: Choice)
    requires InRow(c)
    ensures var k := Now(c);
      && (k.Finish? || k.Suppress? ==> Retried(c, choice) == Nested(Retried(Finished(c, k), choice)))
      && (k.Interrupts? && Checked(c).opcode == FETCH1_NO_INTERRUPT
          ==> Retried(c, choice) == Ran(Waited(Checked(c), Fetch, choice), None, 1))
      && (k.Interrupts? && Checked(c).opcode != FETCH1_NO_INTERRUPT
          ==> Retried(c, choice) == Nested(Retried(Checked(c), choice)))
  {
    hide KindOf, Row, Waited, Rank, Finished, Checked;
  }

  function Pushed(r: Regs, vector: nat, b: bool): Regs {
    r.(s := ((r.s as int + 255) % 256) as Byte, p := r.p.(b := b, i := true), ea := vector)
  }

  /** One cycle. */
  function Executed(c: Cpu, choice: Choice): Outcome {
    var o := Retried(c.(interruptPending := c.interruptPending || Interrupted(c), rdyFreeze := false), choice);
    if o.Trapped? then Trapped
    else
      var next := if o.cpu.rdyFreeze then o.cpu else o.cpu.(mi := o.cpu.mi + 1);
      if InRow(next) then o.(cpu := next) else Trapped
  }

  // ---- safety ----

  /** A state that a low RDY line holds the CPU in. */
  predicate Parked(c: Cpu) {
    InRow(c) && (Waits(Now(c)) || Now(c).Stuck? || (Now(c).ReadStage? && Bit8(c.regs.alu)))
  }

  predicate CpuInv(c: Cpu) {
    InRow(c) && (c.rdyFreeze ==> Parked(c))
  }

  /** The stores that follow before anything else can happen. */
  function WritesAhead(c: Cpu): nat
    requires InRow(c)
  {
    WritesFrom(Row(c.opcode), c.mi)
  }

  predicate SameRegisters(r: Regs, q: Regs) {
    r.a == q.a && r.x == q.x && r.y == q.y && r.s == q.s && r.pc == q.pc
  }

  predicate InRowNext(c: Cpu) { InRow(c.(mi := c.mi + 1)) }

  /** The CPU has met an opcode that stops it for good. */
  predicate Jammed(c: Cpu) { InRow(c) && Now(c).Stuck? }

  /** What is left of a cycle once the micro-operation `k` is done: where the CPU is, whether it wrote, and
      what is different when RDY is low. */
  predicate Kept(c: Cpu, k: Kind, o: Outcome) {
    && o.Ran?
    && (c.rdy ==> (o.cpu.rdyFreeze <==> k.Stuck?))
    && (o.cpu.rdyFreeze && !k.Stuck? ==> !Jammed(o.cpu))
    && o.cpu.rdy == c.rdy && o.cpu.irq == c.irq
    && (if o.cpu.rdyFreeze then Parked(o.cpu) else InRowNext(o.cpu))
    && o.wrote.Some? == Writes(k)
    && (Writes(k) ==> !o.cpu.rdyFreeze && o.cpu.opcode == c.opcode && o.cpu.mi == c.mi)
    && (!c.rdy && !Writes(k) ==> o.cpu.rdyFreeze && SameRegisters(o.cpu.regs, c.regs))
  }

  /** What soundness of the row says about the micro-operation at hand. */
  lemma RowFacts(c: Cpu)
    requires InRow(c)
    ensures !Now(c).Undispatched? && (Ends(Now(c)) || InRowNext(c)) && Rank(c) <= 2
    ensures Waits(Now(c)) ==> Rank(c) == 0
  {
    hide KindOf, Row;
    RowSound(c.opcode);
    assert SoundAt(Row(c.opcode), c.mi);
  }

  lemma RowBegins(opcode: int)
    requires 0 <= opcode < ROWS
    ensures |Row(opcode)| > 0
  {
    hide KindOf, Row;
    RowSound(opcode);
  }

  lemma WaitedKept(c: Cpu, k: Kind, choice: Choice)
    requires InRow(c) && k == Now(c) && (Waits(k) || (k.ReadStage? && Bit8(c.regs.alu)))
    ensures Kept(c, k, Ran(Waited(c, k, choice), None, 1))
  {
    hide KindOf, Row, Rank, Resumed, Begun;
    var begun := Begun(c, k).(rdyFreeze := !c.rdy);
    BegunKept(c, k);
    if c.rdy {
      ResumedKept(begun, k, choice);
    }
  }

  predicate SameLines(c: Cpu, d: Cpu) {
    c.rdy == d.rdy && c.irq == d.irq && c.rdyFreeze == d.rdyFreeze
  }

  predicate SamePosition(c: Cpu, d: Cpu) {
    c.opcode == d.opcode && c.mi == d.mi
  }

  /** About to be at the start of a row. */
  predicate Restarts(d: Cpu) {
    0 <= d.opcode < ROWS && d.mi == -1
  }

  lemma BegunKept(c: Cpu, k: Kind)
    ensures var begun := Begun(c, k);
      SameLines(c, begun) && SamePosition(c, begun) && begun.regs == c.regs.(h := begun.regs.h)
  {
    hide TakesBranch;
    if k.AssignI? {} else if k.Condition? {} else if k.Unstable? {} else {}
  }

  /** A micro-operation that RDY lets through leaves the CPU where it is, or at the start of another row. */
  lemma ResumedWhere(c: Cpu, k: Kind, choice: Choice)
    ensures var next := Resumed(c, k, choice);
      SameLines(c, next) && ((!k.Fetch? && SamePosition(c, next)) || Restarts(next))
  {
    hide OpcodeFetched, FlagsPulled, VectorPicked, BranchDecided, OffsetAdded, SamePosition, Restarts;
    if k.Fetch? {
      OpcodeWhere(c, choice);
    } else if k.PullI? {
      FlagsWhere(c, choice);
    } else if k.Vector? {
      VectorWhere(c, choice);
    } else if k.Condition? {
      BranchWhere(c);
    } else if k.Target? {
      OffsetWhere(c, choice.regs.alu);
    } else {
      OtherWhere(c, k, choice);
    }
  }

  lemma OtherWhere(c: Cpu, k: Kind, choice: Choice)
    requires !k.Fetch? && !k.PullI? && !k.Vector? && !k.Condition? && !k.Target?
    ensures var next := Resumed(c, k, choice); SameLines(c, next) && SamePosition(c, next)
  {
    hide OpcodeFetched, FlagsPulled, VectorPicked, BranchDecided, OffsetAdded;
    if k.AssignI? {} else {}
  }

  lemma OpcodeWhere(c: Cpu, choice: Choice)
    ensures var next := OpcodeFetched(c, choice); SameLines(c, next) && Restarts(next)
  {
    hide NextPC;
  }

  lemma FlagsWhere(c: Cpu, choice: Choice)
    ensures var next := FlagsPulled(c, choice); SameLines(c, next) && SamePosition(c, next)
  {
  }

  lemma VectorWhere(c: Cpu, choice: Choice)
    ensures var next := VectorPicked(c, choice); SameLines(c, next) && SamePosition(c, next)
  {
  }

  lemma BranchWhere(c: Cpu)
    ensures var next := BranchDecided(c); SameLines(c, next) && (SamePosition(c, next) || Restarts(next))
  {
    hide NextPC;
    if c.branchTaken {} else {}
  }

  lemma OffsetWhere(c: Cpu, alu: int)
    ensures var next := OffsetAdded(c, alu); SameLines(c, next) && (SamePosition(c, next) || Restarts(next))
  {
    hide Bit8, WithLow;
    if Bit8(alu) {} else if c.interruptPending {} else {}
  }

  lemma ResumedKept(c: Cpu, k: Kind, choice: Choice)
    requires InRow(c) && k == Now(c) && (!Ends(k) || k.Fetch?)
    ensures var next := Resumed(c, k, choice);
            InRowNext(next) && next.rdy == c.rdy && next.irq == c.irq && next.rdyFreeze == c.rdyFreeze
  {
    hide KindOf, Row, Resumed;
    RowFacts(c);
    ResumedWhere(c, k, choice);
    var next := Resumed(c, k, choice);
    if next.mi == -1 && 0 <= next.opcode < ROWS { RowBegins(next.opcode); }
  }

  lemma DirectKept(c: Cpu, choice: Choice)
    requires InRow(c) && !c.rdyFreeze && (Now(c).Stuck? || Writes(Now(c)))
    ensures Kept(c, Now(c), Retried(c, choice)) && Retried(c, choice).depth == 1
  {
    hide KindOf, Row, Rank, Retried, Kept;
    RowFacts(c);
    if Now(c).Stuck? { StuckKept(c, choice); } else { WriteKept(c, choice); }
  }

  lemma StuckKept(c: Cpu, choice: Choice)
    requires InRow(c) && !c.rdyFreeze && Now(c).Stuck?
    ensures Kept(c, Now(c), Retried(c, choice)) && Retried(c, choice).depth == 1
  {
    hide KindOf, Row, Rank, Pushed, Waited, Finished, Checked;
  }

  lemma WriteKept(c: Cpu, choice: Choice)
    requires InRow(c) && !c.rdyFreeze && Writes(Now(c)) && InRowNext(c)
    ensures Kept(c, Now(c), Retried(c, choice)) && Retried(c, choice).depth == 1
  {
    hide KindOf, Row, Rank, Pushed, Waited, Finished, Checked, Parked;
    if Now(c).Store? {} else {}
  }

  lemma FinishedSame(c: Cpu, k: Kind)
    ensures var next := Finished(c, k);
      next.rdy == c.rdy && next.irq == c.irq && next.rdyFreeze == c.rdyFreeze && next.regs == c.regs
  {
    if k.Suppress? {} else {}
  }

  lemma {:induction false} RetriedKept(c: Cpu, choice: Choice)
    requires InRow(c) && !c.rdyFreeze
    ensures Kept(c, Now(c), Retried(c, choice))
    ensures Retried(c, choice).depth <= 1 + Rank(c) <= 3
    decreases Rank(c)
  {
    hide KindOf, Row, Waited, Now, Parked, InRow, Rank, Checked, Finished, Pushed, Bit8, InRowNext, SameRegisters;
    RowFacts(c);
    FinishedSame(c, Now(c));
    Descends(c);
    var k := Now(c);
    if Waits(k) {
      assert Retried(c, choice) == Ran(Waited(c, k, choice), None, 1);
      WaitedKept(c, k, choice);
    } else {
      match k
      case Finish(_) => RetriedKept(Finished(c, Now(c)), choice);
      case Suppress => RetriedKept(Finished(c, Now(c)), choice);
      case Interrupts => InterruptsKept(c, choice);
      case ReadStage =>
        if Bit8(c.regs.alu) { WaitedKept(c, ReadStage, choice); } else { RetriedKept(c.(mi := c.mi + 1), choice); }
      case _ => DirectKept(c, choice);
    }
  }

  lemma {:induction false} InterruptsKept(c: Cpu, choice: Choice)
    requires InRow(c) && !c.rdyFreeze && Now(c).Interrupts?
    ensures Kept(c, Now(c), Retried(c, choice))
    ensures Retried(c, choice).depth <= 2
    decreases Rank(c), 0
  {
    hide KindOf, Row, Waited, Parked, Rank;
    Descends(c);
    FixedRows();
    FirstKinds();
    var next := Checked(c);
    if next.opcode == FETCH1_NO_INTERRUPT { WaitedKept(next, Fetch, choice); } else { RetriedKept(next, choice); }
  }

  /** Every cycle of a CPU in its row succeeds, nests the dispatch at most three deep, and leaves the CPU in a
      row. With RDY low a store still happens; anything else parks the CPU. */
  lemma CycleKept(c: Cpu, choice: Choice)
    requires CpuInv(c)
    ensures var o := Executed(c, choice);
      && o.Ran? && (c.rdy ==> (o.cpu.rdyFreeze <==> Jammed(c))) && (o.cpu.rdyFreeze && !Jammed(c) ==> !Jammed(o.cpu))
    ensures var o := Executed(c, choice);
      && o.Ran? && CpuInv(o.cpu) && o.depth <= 3 && o.cpu.rdy == c.rdy && o.cpu.irq == c.irq
      && o.wrote.Some? == (WritesAhead(c) > 0)
      && (WritesAhead(c) > 0 ==> !o.cpu.rdyFreeze && WritesAhead(o.cpu) == WritesAhead(c) - 1)
      && (!c.rdy && WritesAhead(c) == 0 ==> o.cpu.rdyFreeze && SameRegisters(o.cpu.regs, c.regs))
  {
    hide KindOf, Row, Retried, Parked, SameRegisters, Rank;
    var start := c.(interruptPending := c.interruptPending || Interrupted(c), rdyFreeze := false);
    RetriedKept(start, choice);
    assert SoundAt(Row(c.opcode), c.mi) by { RowSound(c.opcode); }
    var after := Retried(start, choice).cpu;
    if after.rdyFreeze { ParkedInRow(after); }
  }

  /** With RDY low, or once it has written, the CPU does not meet an opcode that stops it. */
  lemma NoNewJam(c: Cpu, choice: Choice)
    requires CpuInv(c) && (WritesAhead(c) > 0 || (!c.rdy && !Jammed(c)))
    ensures Executed(c, choice).Ran? && !Jammed(Executed(c, choice).cpu)
  {
    hide KindOf, Row, Retried, Parked, Rank, SameRegisters;
    CycleKept(c, choice);
    if WritesAhead(c) > 0 {
      var start := c.(interruptPending := c.interruptPending || Interrupted(c), rdyFreeze := false);
      RetriedKept(start, choice);
      RowSound(c.opcode);
      assert SoundAt(Row(c.opcode), c.mi);
      assert c.mi + 1 < |Row(c.opcode)| ==> SoundAt(Row(c.opcode), c.mi + 1);
    }
  }

  lemma ExecutedIs(c: Cpu, choice: Choice, start: Cpu, o: Outcome)
    requires start == c.(interruptPending := c.interruptPending || Interrupted(c), rdyFreeze := false)
    requires o == Retried(start, choice) && Executed(c, choice).Ran?
    ensures o.Ran?
    ensures Executed(c, choice) == o.(cpu := if o.cpu.rdyFreeze then o.cpu else o.cpu.(mi := o.cpu.mi + 1))
  {
    hide Retried, InRow;
  }

  lemma CycleInv(c: Cpu, choice: Choice)
    requires CpuInv(c)
    ensures var o := Executed(c, choice); o.Ran? && CpuInv(o.cpu) && o.depth <= 3
  {
    hide *;
    CycleKept(c, choice);
  }

  lemma ParkedInRow(c: Cpu)
    requires Parked(c)
    ensures InRow(c)
  {
  }

  lemma ParkedStands(c: Cpu)
    requires Parked(c)
    ensures InRow(c) && WritesAhead(c) == 0
  {
    hide KindOf, Row;
  }

  lemma FrozenStands(c: Cpu)
    requires CpuInv(c) && c.rdyFreeze
    ensures InRow(c) && WritesAhead(c) == 0
  {
    hide Parked;
    ParkedStands(c);
  }

  /** A parked CPU with RDY low is parked: it stays where it is, keeps its registers and writes nothing. */
  lemma ParkedStays(c: Cpu, choice: Choice)
    requires Parked(c) && !c.rdy
    ensures var o := Executed(c, choice);
      && o.Ran? && o.wrote.None? && o.depth == 1
      && o.cpu.rdyFreeze && Parked(o.cpu) && !o.cpu.rdy
      && o.cpu.opcode == c.opcode && o.cpu.mi == c.mi
      && o.cpu.regs == c.regs.(h := if InRow(c) && Now(c).Unstable? then 255 else c.regs.h)
  {
    hide KindOf, Row, Retried, Parked;
    var start := c.(interruptPending := c.interruptPending || Interrupted(c), rdyFreeze := false);
    ParkedSame(c, start);
    ParkedRetried(start, choice);
    var after := Retried(start, choice).cpu;
    ParkedSame(start, after);
  }

  /** Being parked depends on the place in the row and the carry only. */
  lemma ParkedSame(c: Cpu, d: Cpu)
    requires Parked(c) && d.opcode == c.opcode && d.mi == c.mi && d.regs.alu == c.regs.alu
    ensures Parked(d) && InRow(d)
  {
    hide KindOf, Row;
  }

  lemma BegunH(c: Cpu, k: Kind)
    ensures var begun := Begun(c, k);
      SameLines(c, begun) && SamePosition(c, begun)
      && begun.regs == c.regs.(h := if k.Unstable? && !c.rdy then 255 else c.regs.h)
  {
    hide TakesBranch;
    BegunKept(c, k);
    if k.Unstable? {} else {}
  }

  lemma ParkedRetried(c: Cpu, choice: Choice)
    requires Parked(c) && !c.rdy
    ensures var o := Retried(c, choice);
      && o.Ran? && o.wrote.None? && o.depth == 1 && o.cpu.rdyFreeze && !o.cpu.rdy
      && o.cpu.opcode == c.opcode && o.cpu.mi == c.mi
      && o.cpu.regs == c.regs.(h := if InRow(c) && Now(c).Unstable? then 255 else c.regs.h)
  {
    hide KindOf, Row, Begun, Resumed;
    var k := Now(c);
    BegunH(c, k);
    if k.Stuck? {
    } else if k.ReadStage? {
    } else {
      assert Retried(c, choice) == Ran(Waited(c, k, choice), None, 1);
    }
  }

  // ---- runs ----

  const NO_FLAGS := Flags(false, false, false, false, false, false, false)

  /** Power-on. What it does not set is whatever the memory of the CPU held. */
  function PowerOn(c: Cpu): Cpu {
    c.(regs := Regs(0, 0, 0, 0, NO_FLAGS, 0, c.regs.ea, c.regs.alu, c.regs.h),
       opcode := RESET_ROW, mi := 0, iflagPending := true, rdy := true)
  }

  function SoftReset(c: Cpu): Cpu {
    c.(opcode := RESET_ROW, mi := 0, iflagPending := true, regs := c.regs.(p := c.regs.p.(i := true)))
  }

  lemma ResetInv(c: Cpu)
    ensures CpuInv(PowerOn(c)) && CpuInv(SoftReset(c)) && Parked(PowerOn(c)) && Parked(SoftReset(c))
  {
    hide KindOf, Row;
    FixedRows();
    FirstKinds();
  }

  /** A cycle with any level on the RDY, IRQ and NMI lines and any memory, or the reset button. */
  datatype Event = Cycle(rdy: bool, irq: bool, nmi: bool, choice: Choice) | Reset

  /** The state after the events, the addresses written, and the deepest nesting of the dispatch. */
  datatype Play = Played(cpu: Cpu, stores: seq<nat>, depth: nat) | Failed

  function Stores(wrote: Option<nat>): seq<nat> {
    if wrote.Some? then [wrote.value] else []
  }

  function PlayEvent(c: Cpu, e: Event): Play {
    match e
    case Reset => Played(SoftReset(c), [], 0)
    case Cycle(rdy, irq, nmi, choice) =>
      match Executed(c.(rdy := rdy, irq := irq, nmi := nmi), choice)
      case Ran(next, wrote, depth) => Played(next, Stores(wrote), depth)
      case Trapped => Failed
  }

  function Max(a: nat, b: nat): nat { if a < b then b else a }

  function PlayAll(c: Cpu, events: seq<Event>): Play
    decreases |events|
  {
    if events == [] then Played(c, [], 0)
    else
      match PlayEvent(c, events[0])
      case Failed => Failed
      case Played(next, stores, depth) =>
        match PlayAll(next, events[1..])
        case Failed => Failed
        case Played(last, more, deepest) => Played(last, stores + more, Max(depth, deepest))
  }

  lemma EventKept(c: Cpu, e: Event)
    requires CpuInv(c)
    ensures PlayEvent(c, e).Played? && CpuInv(PlayEvent(c, e).cpu) && PlayEvent(c, e).depth <= 3
  {
    hide KindOf, Row, Executed, SoftReset;
    if e.Reset? {
      ResetInv(c);
    } else {
      var d := c.(rdy := e.rdy, irq := e.irq, nmi := e.nmi);
      if c.rdyFreeze { ParkedSame(c, d); }
      assert CpuInv(d) by { SamePlace(c, d); }
      CycleKept(d, e.choice);
    }
  }

  lemma InvInRow(c: Cpu, d: Cpu)
    requires CpuInv(c) && c.opcode == d.opcode && c.mi == d.mi
    ensures InRow(d)
  {
    hide KindOf, Row;
  }

  lemma SamePlace(c: Cpu, d: Cpu)
    requires InRow(c) && c.opcode == d.opcode && c.mi == d.mi
    ensures InRow(d) && WritesAhead(d) == WritesAhead(c)
  {
    hide KindOf, Row;
  }

  /** From power-on, whatever the memory holds, the lines do and however often reset is pressed, every cycle
      names a micro-operation inside its row, the trap of the dispatch is never reached, and the dispatch
      nests at most three deep. */
  lemma {:induction false} NeverTraps(c: Cpu, events: seq<Event>)
    requires CpuInv(c)
    ensures var r := PlayAll(c, events); r.Played? && CpuInv(r.cpu) && r.depth <= 3
    decreases |events|
  {
    hide KindOf, Row, PlayEvent, CpuInv;
    if events != [] {
      EventKept(c, events[0]);
      NeverTraps(PlayEvent(c, events[0]).cpu, events[1..]);
    }
  }

  predicate AllLow(events: seq<Event>) {
    forall e | e in events :: e.Cycle? && !e.rdy
  }

  /** RDY held low: the stores that are next still happen, at most three; the cycle after them freezes the
      CPU. */
  lemma {:induction false} LowRdyFreezes(c: Cpu, events: seq<Event>)
    requires CpuInv(c) && AllLow(events) && |events| == WritesAhead(c) + 1
    ensures var r := PlayAll(c, events);
      && r.Played? && |r.stores| == WritesAhead(c) <= 3
      && r.cpu.rdyFreeze && Parked(r.cpu) && !r.cpu.rdy
    decreases |events|
  {
    hide KindOf, Row, Executed, Parked;
    WritesAtMostThree(c);
    assert events[0] in events;
    var e := events[0];
    var d := c.(rdy := e.rdy, irq := e.irq, nmi := e.nmi);
    SamePlace(c, d);
    if c.rdyFreeze { ParkedSame(c, d); }
    CycleKept(d, e.choice);
    var next := Executed(d, e.choice).cpu;
    if WritesAhead(c) > 0 {
      LowRdyFreezes(next, events[1..]);
    } else {
      assert events[1..] == [];
    }
  }

  lemma WritesAtMostThree(c: Cpu)
    requires InRow(c)
    ensures WritesAhead(c) <= 3
  {
    hide KindOf, Row;
    RowSound(c.opcode);
    WritesBounded(Row(c.opcode), c.mi);
  }

  /** A frozen CPU with RDY low stays frozen, at the same micro-operation, with the same registers, and
      writes nothing, for as long as RDY is low. */
  lemma {:induction false} StaysFrozen(c: Cpu, events: seq<Event>)
    requires Parked(c) && !c.rdy && c.rdyFreeze && AllLow(events)
    ensures var r := PlayAll(c, events);
      && r.Played? && r.stores == [] && r.cpu.rdyFreeze && Parked(r.cpu)
      && r.cpu.opcode == c.opcode && r.cpu.mi == c.mi
      && r.cpu.regs == c.regs.(h := r.cpu.regs.h) && SameRegisters(r.cpu.regs, c.regs)
    decreases |events|
  {
    hide KindOf, Row, Executed, Parked;
    if events != [] {
      assert events[0] in events;
      var e := events[0];
      var d := c.(rdy := e.rdy, irq := e.irq, nmi := e.nmi);
      ParkedSame(c, d);
      ParkedStays(d, e.choice);
      StaysFrozen(Executed(d, e.choice).cpu, events[1..]);
    }
  }

  // ---- with RDY high ----

  /** RDY is high and no interrupt waits. */
  predicate Free(c: Cpu) { CpuInv(c) && c.rdy && !c.irq && !c.nmi && !c.rdyFreeze }

  /** An operation is done in one cycle. */
  lemma FreeWorks(c: Cpu, choice: Choice)
    requires Free(c) && (Now(c).Work? || Now(c).Vector?)
    ensures var o := Executed(c, choice);
      o.Ran? && o.wrote.None? && Free(o.cpu) && o.cpu.opcode == c.opcode && o.cpu.mi == c.mi + 1
  {
    hide KindOf, Row, Retried, Parked, Rank;
    CycleKept(c, choice);
    FreeStart(c);
    WaitRetried(c.(interruptPending := c.interruptPending || Interrupted(c), rdyFreeze := false), choice);
  }

  lemma FreeStart(c: Cpu)
    requires Free(c)
    ensures var start := c.(interruptPending := c.interruptPending || Interrupted(c), rdyFreeze := false);
      start == c && InRow(start)
  {
  }

  /** At the end of the reset sequence the next opcode is fetched. */
  lemma FreeFetches(c: Cpu, choice: Choice)
    requires Free(c) && Now(c).Suppress?
    ensures var o := Executed(c, choice);
      o.Ran? && o.wrote.None? && Free(o.cpu) && o.cpu.opcode == choice.byte as int && o.cpu.mi == 0
  {
    hide KindOf, Row, Retried, Parked, Rank;
    CycleKept(c, choice);
    FreeStart(c);
    FixedRows();
    FirstKinds();
    AgainRetried(c, choice);
    WaitRetried(Finished(c, Now(c)), choice);
  }

  lemma FreeStores(c: Cpu, choice: Choice)
    requires Free(c) && Now(c).Store?
    ensures Executed(c, choice).Ran? && Executed(c, choice).wrote == Some(choice.address)
  {
    hide KindOf, Row, Parked, Rank;
    CycleKept(c, choice);
    FreeStart(c);
  }

  /** A CPU that starts after a reset with memory that answers STA absolute: step `j` of the way to the store. */
  predicate Booting(c: Cpu, j: nat) {
    Free(c) && j <= 10
    && (if j <= 7 then c.opcode == RESET_ROW && c.mi == j else c.opcode == 0x8D && c.mi == j - 8)
  }

  lemma ResetKinds(j: nat)
    requires j <= 7
    ensures 7 < |Row(RESET_ROW)|
    ensures j < 7 ==> KindOf(Row(RESET_ROW)[j]).Work? || KindOf(Row(RESET_ROW)[j]).Vector?
    ensures j == 7 ==> KindOf(Row(RESET_ROW)[j]).Suppress?
  {
    assert Row(RESET_ROW) == ExpandInternal(ResetSequence);
  }

  lemma StaKinds()
    ensures 2 < |Row(0x8D)| && KindOf(Row(0x8D)[0]).Work? && KindOf(Row(0x8D)[1]).Work? && KindOf(Row(0x8D)[2]).Store?
  {
    assert Row(0x8D) == ExpandStore(Absolute, Sta);
  }

  lemma BootStep(c: Cpu, j: nat, choice: Choice)
    requires Booting(c, j) && choice.byte == 0x8D
    ensures var o := Executed(c, choice);
      && o.Ran? && (j < 10 ==> o.wrote.None? && Booting(o.cpu, j + 1))
      && (j == 10 ==> o.wrote == Some(choice.address))
  {
    hide KindOf, Row, Executed, CpuInv;
    if j <= 7 { ResetKinds(j); } else { StaKinds(); }
    FreeInRow(c);
    if j < 7 || j == 8 || j == 9 { FreeWorks(c, choice); }
    else if j == 7 { FreeFetches(c, choice); }
    else { FreeStores(c, choice); }
  }

  lemma FreeInRow(c: Cpu)
    requires Free(c)
    ensures InRow(c)
  {
  }
}
