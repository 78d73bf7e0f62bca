/** How many cycles the instructions take. */
module CpuTiming {
  import opened Wrappers
  import opened Bits
  import opened Microcode
  import opened Mos6502
  import opened CpuInterrupts

  // ---- cycle by cycle ----

  /** A micro-operation that is followed by the next one of its row. */
  predicate Straight(k: Kind) {
    k.Work? || k.Vector? || k.PullI? || k.AssignI? || k.Unstable? || k.Store? || k.PushInterrupt?
  }

  /** From index `i` on, up to the last one, which ends the instruction. */
  ghost predicate StraightFrom(opcode: int, i: nat)
    requires 0 <= opcode < ROWS
  {
    && i < |Row(opcode)|
    && (forall j: nat | i <= j < |Row(opcode)| - 1 :: Straight(KindOf(Row(opcode)[j])))
    && KindOf(Row(opcode)[|Row(opcode)| - 1]).Finish?
  }

  lemma StraightWaited(c: Cpu, k: Kind, choice: Choice)
    requires c.rdy && Straight(k) && Waits(k)
    ensures var o := Waited(c, k, choice); !o.rdyFreeze && o.opcode == c.opcode && o.mi == c.mi
  {
    hide Begun, Resumed;
    var begun := Begun(c, k).(rdyFreeze := !c.rdy);
    BegunKept(c, k);
    if k.PullI? { FlagsWhere(begun, choice); }
    else if k.Vector? { VectorWhere(begun, choice); }
    else { OtherWhere(begun, k, choice); }
    ResumedIs(begun, k, choice);
  }

  lemma ResumedIs(c: Cpu, k: Kind, choice: Choice)
    ensures k.PullI? ==> Resumed(c, k, choice) == FlagsPulled(c, choice)
    ensures k.Vector? ==> Resumed(c, k, choice) == VectorPicked(c, choice)
  {
    hide FlagsPulled, VectorPicked;
  }

  lemma StraightCycle(c: Cpu, choice: Choice)
    requires CpuInv(c) && c.rdy && InRow(c) && Straight(Now(c))
    ensures var o := Executed(c, choice);
      && o.Ran? && CpuInv(o.cpu) && o.cpu.opcode == c.opcode && o.cpu.mi == c.mi + 1 && !o.cpu.rdyFreeze
  {
    hide KindOf, Row, Retried, Parked, Executed, Waited;
    CycleInv(c, choice);
    StartIs(c);
    if Waits(Now(c)) {
      Waiting(c, choice);
      StraightWaited(Start(c), Now(c), choice);
    } else {
      CpuInterrupts.Cycle(c, choice);
      if Now(c).Store? { StoreRetried(Start(c), choice); } else { PushRetried(Start(c), choice); }
    }
  }

  /** Cycles with RDY high, whatever the other lines do and memory answers. */
  predicate AllHigh(events: seq<Event>) { forall e | e in events :: e.Cycle? && e.rdy }

  lemma {:induction false} RowRuns(c: Cpu, events: seq<Event>)
    requires CpuInv(c) && InRow(c) && StraightFrom(c.opcode, c.mi) && AllHigh(events)
    requires |events| == |Row(c.opcode)| - 1 - c.mi
    ensures var r := PlayAll(c, events);
      && r.Played? && CpuInv(r.cpu) && r.cpu.opcode == c.opcode && r.cpu.mi == |Row(c.opcode)| - 1
    decreases |events|
  {
    hide KindOf, Row, Executed, Parked, CpuInv;
    if events != [] {
      var e := events[0];
      assert e in events;
      var d := c.(rdy := e.rdy, irq := e.irq, nmi := e.nmi);
      LinesInv(c, d);
      StraightCycle(d, e.choice);
      RowRuns(Executed(d, e.choice).cpu, events[1..]);
    }
  }

  /** An instruction whose row is straight takes as many cycles as its row is long: the last of them fetches the next
      opcode, or begins the interrupt that is taken instead. */
  lemma InstructionTakes(c: Cpu, events: seq<Event>, last: Event)
    requires CpuInv(c) && c.mi == 0 && 0 <= c.opcode < ROWS && StraightFrom(c.opcode, 0)
    requires AllHigh(events) && AllHigh([last]) && |events| + 1 == |Row(c.opcode)|
    ensures PlayAll(c, events).Played?
    ensures var d := PlayAll(c, events).cpu;
      && d.opcode == c.opcode && d.mi == |events|
      && PlayEvent(d, last).Played?
      && var f := PlayEvent(d, last).cpu;
         (f.opcode == last.choice.byte as int && f.mi == 0) || ((f.opcode == 260 || f.opcode == 261) && f.mi == 1)
  {
    hide KindOf, Row, Executed, Parked, CpuInv, StraightFrom;
    StraightIs(c.opcode, 0);
    assert InRow(c);
    RowRuns(c, events);
    assert last in [last];
    var d := PlayAll(c, events).cpu;
    var e := d.(rdy := last.rdy, irq := last.irq, nmi := last.nmi);
    AtEnd(d);
    LinesInv(d, e);
    InstructionEnds(e, last.choice);
  }

  lemma StraightIs(opcode: int, i: nat)
    requires 0 <= opcode < ROWS && StraightFrom(opcode, i)
    ensures i < |Row(opcode)| && KindOf(Row(opcode)[|Row(opcode)| - 1]).Finish?
  {
  }

  lemma AtEnd(c: Cpu)
    requires 0 <= c.opcode < ROWS && |Row(c.opcode)| > 0 && c.mi == |Row(c.opcode)| - 1
    requires KindOf(Row(c.opcode)[|Row(c.opcode)| - 1]).Finish?
    ensures InRow(c) && Now(c).Finish?
  {
    hide KindOf, Row;
  }

  // ---- the lengths ----

  function AccessCycles(mode: Mode): nat {
    match mode
    case ZeroPage => 3
    case ZeroPageX | ZeroPageY | Absolute => 4
    case AbsoluteX | AbsoluteY => 5
    case IndexedIndirect | IndirectIndexed => 6
  }

  /** The cycles of an instruction, as every reference of the 6502 has them: for a read that is indexed with a carry,
      and for a branch that is not taken. */
  function Cycles(shape: Shape): nat
    requires !shape.Internal? && !shape.JamForever?
  {
    match shape
    case Reads(mode, _) => AccessCycles(mode)
    case Stores(mode, _) => AccessCycles(mode)
    case Modifies(mode, _) => AccessCycles(mode) + 2
    case Immediate(_) | Implied(_) | Skip | ClearInterrupt | SetInterrupt | Branch(_) => 2
    case PushFlags | PushAccumulator | JumpAbsolute => 3
    case PullFlags | PullAccumulator => 4
    case JumpIndirect | AbsoluteYUnstable(_) | AbsoluteXUnstable(_) => 5
    case JumpSubroutine | ReturnSubroutine | ReturnInterrupt | IndirectIndexedUnstable(_) => 6
    case Break => 7
  }

  /** An indexed read may skip a cycle, a branch may go elsewhere, and BRK goes to its handler. */
  predicate Plain(shape: Shape) {
    && !shape.Internal? && !shape.JamForever? && !shape.Branch? && !shape.Break?
    && !(shape.Reads? && (shape.mode.AbsoluteX? || shape.mode.AbsoluteY? || shape.mode.IndirectIndexed?))
  }

  predicate PlainUop(u: Uop) {
    && !u.AluBit? && !u.Fetch1? && !u.Fetch1Real? && !u.AbsIdxReadStage4? && !u.IndIdxReadStage5?
    && !u.RelBranchStage2? && !u.RelBranchStage3? && !u.End? && !u.EndISpecial? && !u.EndSuppressInterrupt? && !u.Jam?
  }

  lemma PlainIsStraight(u: Uop)
    requires PlainUop(u)
    ensures Straight(KindOf(u))
  {
  }

  /** The micro-operations that write. */
  predicate WritingUop(u: Uop) {
    || u.PushPCH? || u.PushPCL? || u.PushP? || u.PushA? || u.PushPBrk? || u.PushPNmi? || u.PushPIrq?
    || u.AbsWrite? || u.ZpWrite? || u.IdxIndStage6Write? || u.IndIdxWriteStage6? || u.AbsIdxWriteStage5?
    || u.AbsRmwStage5? || u.AbsRmwStage6? || u.ZpRmw? || u.ZpRmwStage5? || u.ZpIdxRmwStage6?
    || u.IdxIndStage7Rmw? || u.IdxIndStage8Rmw? || u.IndIdxRmwStage7? || u.IndIdxRmwStage8?
    || u.AbsIdxRmwStage6? || u.AbsIdxRmwStage7?
  }

  lemma WritingIs(u: Uop)
    ensures Writes(KindOf(u)) == WritingUop(u)
  {
    hide *;
    if WritingUop(u) { ThatWrites(u); } else { ThatDoesNot(u); }
  }

  lemma ThatWrites(u: Uop)
    requires WritingUop(u)
    ensures Writes(KindOf(u))
  {
  }

  lemma ThatDoesNot(u: Uop)
    requires !WritingUop(u)
    ensures !Writes(KindOf(u))
  {
  }

  /** An instruction writes in `n` cycles in a row, the first of them the one after `first` others. */
  datatype Span = Span(first: nat, n: nat)

  /** A store writes in its last cycle, an instruction that modifies memory in the last two, the old value first; a push
      in its last, JSR in two and BRK in three. */
  function Writing(shape: Shape): Span
    requires !shape.Internal? && !shape.JamForever?
  {
    var last := Cycles(shape) - 1;
    match shape
    case Modifies(_, _) => Span(last - 2, 2)
    case Stores(_, _) | PushFlags | PushAccumulator => Span(last - 1, 1)
    case IndirectIndexedUnstable(_) | AbsoluteYUnstable(_) | AbsoluteXUnstable(_) => Span(last - 1, 1)
    case JumpSubroutine => Span(2, 2)
    case Break => Span(1, 3)
    case _ => Span(0, 0)
  }

  ghost predicate WritesIn(row: seq<Uop>, span: Span) {
    forall j: nat | j < |row| :: WritingUop(row[j]) <==> span.first <= j < span.first + span.n
  }

  /** What a row is like: its length, its last micro-operation, and the ones before that. */
  ghost predicate Fits(row: seq<Uop>, length: nat, plain: bool) {
    && |row| == length >= 1
    && (plain ==> (row[length - 1].End? || row[length - 1].EndISpecial?)
                  && forall j: nat | j < length - 1 :: PlainUop(row[j]))
  }

  lemma ReadFits(mode: Mode, op: Operation)
    ensures Fits(ExpandRead(mode, op), AccessCycles(mode), Plain(Reads(mode, op)))
  {
    if mode.IndexedIndirect? {} else if mode.IndirectIndexed? {} else if mode.ZeroPage? {} else if mode.Absolute? {}
    else if mode.AbsoluteX? {} else if mode.AbsoluteY? {} else {}
  }

  lemma StoreFits(mode: Mode, op: Operation)
    ensures Fits(ExpandStore(mode, op), AccessCycles(mode), true)
  {
    if mode.IndexedIndirect? {} else if mode.IndirectIndexed? {} else if mode.ZeroPage? {} else if mode.Absolute? {}
    else if mode.AbsoluteX? {} else if mode.AbsoluteY? {} else {}
  }

  lemma ModifyFits(mode: Mode, op: Operation)
    ensures Fits(ExpandModify(mode, op), AccessCycles(mode) + 2, true)
  {
    hide *;
    if mode.IndexedIndirect? || mode.IndirectIndexed? || mode.ZeroPage? { ModifyFitsFirst(mode, op); }
    else { ModifyFitsSecond(mode, op); }
  }

  lemma ModifyFitsFirst(mode: Mode, op: Operation)
    requires mode.IndexedIndirect? || mode.IndirectIndexed? || mode.ZeroPage?
    ensures Fits(ExpandModify(mode, op), AccessCycles(mode) + 2, true)
  {
    if mode.IndexedIndirect? {} else if mode.IndirectIndexed? {} else {}
  }

  lemma ModifyFitsSecond(mode: Mode, op: Operation)
    requires !mode.IndexedIndirect? && !mode.IndirectIndexed? && !mode.ZeroPage?
    ensures Fits(ExpandModify(mode, op), AccessCycles(mode) + 2, true)
  {
    if mode.Absolute? {} else if mode.AbsoluteX? {} else if mode.AbsoluteY? {} else if mode.ZeroPageX? {} else {}
  }

  lemma ShapeFits(shape: Shape)
    requires !shape.Internal? && !shape.JamForever?
    ensures Fits(Expand(shape), Cycles(shape), Plain(shape))
  {
    hide Expand, ExpandRead, ExpandStore, ExpandModify, AccessCycles, Fits, Plain;
    ExpandModes(shape);
    match shape {
      case Reads(mode, op) => ReadFits(mode, op);
      case Stores(mode, op) => StoreFits(mode, op);
      case Modifies(mode, op) => ModifyFits(mode, op);
      case JumpSubroutine | ReturnSubroutine => SubroutineFits(shape);
      case ReturnInterrupt | Break | JumpIndirect => LongFits(shape);
      case IndirectIndexedUnstable(_) | AbsoluteYUnstable(_) | AbsoluteXUnstable(_) => UnstableFits(shape);
      case _ => ShortFits(shape);
    }
  }

  lemma ExpandModes(shape: Shape)
    ensures shape.Reads? ==> Expand(shape) == ExpandRead(shape.mode, shape.op)
    ensures shape.Stores? ==> Expand(shape) == ExpandStore(shape.mode, shape.op) && Plain(shape)
    ensures shape.Modifies? ==> Expand(shape) == ExpandModify(shape.mode, shape.op) && Plain(shape)
  {
    hide ExpandRead, ExpandStore, ExpandModify;
  }

  lemma SubroutineFits(shape: Shape)
    requires shape.JumpSubroutine? || shape.ReturnSubroutine?
    ensures Fits(Expand(shape), Cycles(shape), Plain(shape))
  {
    if shape.JumpSubroutine? {} else {}
  }

  lemma LongFits(shape: Shape)
    requires shape.ReturnInterrupt? || shape.Break? || shape.JumpIndirect?
    ensures Fits(Expand(shape), Cycles(shape), Plain(shape))
  {
    if shape.ReturnInterrupt? {} else if shape.Break? {} else {}
  }

  lemma UnstableFits(shape: Shape)
    requires shape.IndirectIndexedUnstable? || shape.AbsoluteYUnstable? || shape.AbsoluteXUnstable?
    ensures Fits(Expand(shape), Cycles(shape), Plain(shape))
  {
    if shape.IndirectIndexedUnstable? {} else if shape.AbsoluteYUnstable? {} else {}
  }

  /** At most four cycles. */
  lemma ShortFits(shape: Shape)
    requires !shape.Internal? && !shape.JamForever? && !shape.Reads? && !shape.Stores? && !shape.Modifies?
    requires Cycles(shape) <= 4
    ensures Fits(Expand(shape), Cycles(shape), Plain(shape))
  {
    hide ExpandRead, ExpandStore, ExpandModify, AccessCycles;
    if shape.PullFlags? {} else if shape.PullAccumulator? {} else if shape.PushFlags? {}
    else if shape.PushAccumulator? {} else if shape.JumpAbsolute? {} else {}
  }

  lemma ReadWritesIndirect(mode: Mode, op: Operation)
    requires mode.IndexedIndirect? || mode.IndirectIndexed?
    ensures WritesIn(ExpandRead(mode, op), Span(0, 0))
  {
    if mode.IndexedIndirect? {} else {}
  }

  lemma ReadWritesZero(mode: Mode, op: Operation)
    requires mode.ZeroPage? || mode.ZeroPageX? || mode.ZeroPageY?
    ensures WritesIn(ExpandRead(mode, op), Span(0, 0))
  {
    if mode.ZeroPage? {} else if mode.ZeroPageX? {} else {}
  }

  lemma ReadWritesAbsolute(mode: Mode, op: Operation)
    requires mode.Absolute? || mode.AbsoluteX? || mode.AbsoluteY?
    ensures WritesIn(ExpandRead(mode, op), Span(0, 0))
  {
    if mode.Absolute? {} else if mode.AbsoluteX? {} else {}
  }

  lemma StoreWritesIndirect(mode: Mode, op: Operation)
    requires mode.IndexedIndirect? || mode.IndirectIndexed?
    ensures WritesIn(ExpandStore(mode, op), Span(AccessCycles(mode) - 2, 1))
  {
    if mode.IndexedIndirect? {} else {}
  }

  lemma StoreWritesZero(mode: Mode, op: Operation)
    requires mode.ZeroPage? || mode.ZeroPageX? || mode.ZeroPageY?
    ensures WritesIn(ExpandStore(mode, op), Span(AccessCycles(mode) - 2, 1))
  {
    if mode.ZeroPage? {} else if mode.ZeroPageX? {} else {}
  }

  lemma StoreWritesAbsolute(mode: Mode, op: Operation)
    requires mode.Absolute? || mode.AbsoluteX? || mode.AbsoluteY?
    ensures WritesIn(ExpandStore(mode, op), Span(AccessCycles(mode) - 2, 1))
  {
    if mode.Absolute? {} else if mode.AbsoluteX? {} else {}
  }

  lemma ModifyWritesIndirect(mode: Mode, op: Operation)
    requires mode.IndexedIndirect? || mode.IndirectIndexed?
    ensures WritesIn(ExpandModify(mode, op), Span(AccessCycles(mode) - 1, 2))
  {
    if mode.IndexedIndirect? {} else {}
  }

  lemma ModifyWritesZero(mode: Mode, op: Operation)
    requires mode.ZeroPage? || mode.ZeroPageX? || mode.ZeroPageY?
    ensures WritesIn(ExpandModify(mode, op), Span(AccessCycles(mode) - 1, 2))
  {
    if mode.ZeroPage? {} else if mode.ZeroPageX? {} else {}
  }

  lemma ModifyWritesAbsolute(mode: Mode, op: Operation)
    requires mode.Absolute? || mode.AbsoluteX? || mode.AbsoluteY?
    ensures WritesIn(ExpandModify(mode, op), Span(AccessCycles(mode) - 1, 2))
  {
    if mode.Absolute? {} else if mode.AbsoluteX? {} else {}
  }

  lemma ShapeWrites(shape: Shape)
    requires !shape.Internal? && !shape.JamForever?
    ensures WritesIn(Expand(shape), Writing(shape))
  {
    hide Expand, ExpandRead, ExpandStore, ExpandModify, AccessCycles, WritesIn;
    ExpandModes(shape);
    if shape.Reads? || shape.Stores? || shape.Modifies? {
      WritingModes(shape);
      var mode, op := shape.mode, shape.op;
      if mode.IndexedIndirect? || mode.IndirectIndexed? {
        ReadWritesIndirect(mode, op);
        StoreWritesIndirect(mode, op);
        ModifyWritesIndirect(mode, op);
      } else if mode.ZeroPage? || mode.ZeroPageX? || mode.ZeroPageY? {
        ReadWritesZero(mode, op);
        StoreWritesZero(mode, op);
        ModifyWritesZero(mode, op);
      } else {
        ReadWritesAbsolute(mode, op);
        StoreWritesAbsolute(mode, op);
        ModifyWritesAbsolute(mode, op);
      }
    } else {
      match shape {
        case JumpSubroutine | ReturnSubroutine => SubroutineWrites(shape);
        case ReturnInterrupt | Break | JumpIndirect => LongWrites(shape);
        case IndirectIndexedUnstable(_) | AbsoluteYUnstable(_) | AbsoluteXUnstable(_) => UnstableWrites(shape);
        case PushFlags | PushAccumulator | PullFlags | PullAccumulator => StackWrites(shape);
        case _ => ShortWrites(shape);
      }
    }
  }

  lemma WritingModes(shape: Shape)
    ensures shape.Reads? ==> Writing(shape) == Span(0, 0)
    ensures shape.Stores? ==> Writing(shape) == Span(AccessCycles(shape.mode) - 2, 1)
    ensures shape.Modifies? ==> Writing(shape) == Span(AccessCycles(shape.mode) - 1, 2)
  {
    hide AccessCycles;
  }

  lemma SubroutineWrites(shape: Shape)
    requires shape.JumpSubroutine? || shape.ReturnSubroutine?
    ensures WritesIn(Expand(shape), Writing(shape))
  {
    if shape.JumpSubroutine? {} else {}
  }

  lemma LongWrites(shape: Shape)
    requires shape.ReturnInterrupt? || shape.Break? || shape.JumpIndirect?
    ensures WritesIn(Expand(shape), Writing(shape))
  {
    if shape.ReturnInterrupt? {} else if shape.Break? {} else {}
  }

  lemma UnstableWrites(shape: Shape)
    requires shape.IndirectIndexedUnstable? || shape.AbsoluteYUnstable? || shape.AbsoluteXUnstable?
    ensures WritesIn(Expand(shape), Writing(shape))
  {
    if shape.IndirectIndexedUnstable? {} else if shape.AbsoluteYUnstable? {} else {}
  }

  lemma StackWrites(shape: Shape)
    requires shape.PushFlags? || shape.PushAccumulator? || shape.PullFlags? || shape.PullAccumulator?
    ensures WritesIn(Expand(shape), Writing(shape))
  {
    if shape.PushFlags? {} else if shape.PushAccumulator? {} else if shape.PullFlags? {} else {}
  }

  lemma ShortWrites(shape: Shape)
    requires shape.Immediate? || shape.Implied? || shape.Skip? || shape.ClearInterrupt? || shape.SetInterrupt?
             || shape.Branch? || shape.JumpAbsolute?
    ensures WritesIn(Expand(shape), Writing(shape))
  {
    if shape.Immediate? {} else if shape.Implied? {} else if shape.Skip? {} else if shape.JumpAbsolute? {} else {}
  }

  /** Of every opcode: its row is as long as it takes cycles, and writes where it should; and unless it is one of
      those that may take another way, it is straight, so that `InstructionTakes` says of it that it takes so many. */
  lemma OpcodeCycles(opcode: int)
    requires 0 <= opcode < ROWS && !ShapeOf(opcode).Internal? && !ShapeOf(opcode).JamForever?
    ensures |Row(opcode)| == Cycles(ShapeOf(opcode))
    ensures forall j: nat | j < |Row(opcode)| ::
              var span := Writing(ShapeOf(opcode));
              Writes(KindOf(Row(opcode)[j])) <==> span.first <= j < span.first + span.n
    ensures Plain(ShapeOf(opcode)) ==> StraightFrom(opcode, 0)
  {
    hide ShapeOf, Expand, Cycles, Plain, KindOf, PlainUop, Straight, Writing, WritingUop;
    ShapeFits(ShapeOf(opcode));
    ShapeWrites(ShapeOf(opcode));
    EndKinds();
    forall u: Uop ensures Writes(KindOf(u)) == WritingUop(u) { WritingIs(u); }
    if Plain(ShapeOf(opcode)) {
      var row := Row(opcode);
      forall j: nat | j < |row| - 1 ensures Straight(KindOf(row[j])) { PlainIsStraight(row[j]); }
    }
  }
}
