/** The APU's frame sequencer, its interrupt, and the short cut through the end of an APU cycle. */
module ApuSequencer {
  import opened Bits

  const NTSC0 := [7457, 14913, 22371, 29830]
  const NTSC1 := [7457, 14913, 22371, 29830, 37282]
  const PAL0 := [8313, 16627, 24939, 33254]
  const PAL1 := [8313, 16627, 24939, 33254, 41566]

  function Lut(pal: bool, mode: nat): (lut: seq<nat>)
    requires mode <= 1
    ensures |lut| == 4 + mode
  {
    if pal then (if mode == 0 then PAL0 else PAL1) else (if mode == 0 then NTSC0 else NTSC1)
  }

  /** The sequencer proper, and how often it has clocked the envelopes and the length counters. */
  datatype Frame = Frame(mode: nat, counter: nat, step: nat, quarters: nat, halves: nat)

  /** The frame interrupt on its way, the flag of $4015, and the DMC's interrupt. */
  datatype Irq = Irq(inhibit: bool, count: nat, raised: bool, flag: bool, clearPending: bool, dmc: bool)

  /** The interrupt line as the APU and as the console last saw it. */
  datatype Out = Out(pending: bool, console: bool)

  /** What waits to happen: a $4017 write, another write (none if `reg` is -1), a strobe, the end of a DMC
      sample. */
  datatype Queue = Queue(seqTick: nat, seqVal: Byte, reg: int, val: Byte, strobed: bool, reload: nat)

  /** Marks that hold within a cycle, and the counts at which length counters are about to be clocked. */
  datatype Marks = Marks(lenClock: bool, tickQuarter: bool, check1: nat, check2: nat)

  /** What the end of an APU cycle reads and changes. */
  datatype Apu = Apu(frame: Frame, irq: Irq, out: Out, queue: Queue, marks: Marks)

  /** The DMC's timer, and whether a sample that ends now raises the DMC's interrupt. */
  datatype Input = Input(timer: nat, raises: bool)

  predicate FrameOk(pal: bool, f: Frame) {
    f.mode <= 1 && f.step < 4 + f.mode && Low(pal, f) <= f.counter < Lut(pal, f.mode)[f.step]
  }

  /** Where the current step began. */
  function Low(pal: bool, f: Frame): nat
    requires f.mode <= 1 && f.step < 4 + f.mode
  {
    if f.step == 0 then 0 else Lut(pal, f.mode)[f.step - 1]
  }

  function LastOf(pal: bool, mode: nat): nat
    requires mode <= 1
  {
    Lut(pal, mode)[3 + mode]
  }

  // ---- the sequencer ----

  /** The counter moves; a half frame comes one cycle before the last step. */
  function Counted(pal: bool, f: Frame): Frame
    requires f.mode <= 1
  {
    f.(counter := f.counter + 1, halves := f.halves + if f.counter + 1 == LastOf(pal, f.mode) - 1 then 1 else 0)
  }

  /** A step is reached. */
  function Stepped(f: Frame): Frame
    requires f.mode <= 1
  {
    var reset := f.step == 3 + f.mode;
    Frame(f.mode, if reset then 0 else f.counter, if reset then 0 else f.step + 1,
          f.quarters + if f.mode == 1 && f.step == 3 then 0 else 1, f.halves + if f.step == 1 then 1 else 0)
  }

  /** One cycle of the sequencer. */
  function Ticked(pal: bool, f: Frame): Frame
    requires f.mode <= 1 && f.step < 4 + f.mode
  {
    var g := Counted(pal, f);
    if Lut(pal, f.mode)[f.step] == g.counter then Stepped(g) else g
  }

  predicate SetsFlag(pal: bool, f: Frame, inhibit: bool)
    requires f.mode <= 1 && f.step < 4 + f.mode
  {
    var c := f.counter + 1;
    f.mode == 0 && !inhibit
    && (c == LastOf(pal, 0) - 1 || c == LastOf(pal, 0) - 2 || (f.step == 3 && c == LastOf(pal, 0)))
  }

  function IrqTicked(pal: bool, i: Irq, f: Frame): Irq
    requires f.mode <= 1 && f.step < 4 + f.mode
  {
    i.(flag := i.flag || SetsFlag(pal, f, i.inhibit),
       count := if f.mode == 0 && !i.inhibit && f.counter + 1 == LastOf(pal, 0) - 1 then 2 else i.count)
  }

  predicate Clocks(f: Frame, g: Frame) { f.quarters != g.quarters || f.halves != g.halves }

  function SequencerTick(pal: bool, a: Apu): Apu
    requires a.frame.mode <= 1 && a.frame.step < 4 + a.frame.mode
  {
    var next := Ticked(pal, a.frame);
    a.(frame := next, irq := IrqTicked(pal, a.irq, a.frame),
       marks := a.marks.(tickQuarter := a.marks.tickQuarter || Clocks(a.frame, next)))
  }

  /** The sequencer starts over; in the five-step mode with clocks of its own, unless there were some in this
      cycle. */
  function Restarted(f: Frame, val: Byte, clocked: bool): Frame {
    var mode := if BitAt(val, 7) then 1 else 0;
    var clocks := if mode == 1 && !clocked then 1 else 0;
    Frame(mode, 0, 0, f.quarters + clocks, f.halves + clocks)
  }

  function IrqRestarted(i: Irq, val: Byte): Irq {
    i.(inhibit := BitAt(val, 6), flag := i.flag && !BitAt(val, 6))
  }

  /** A write to $4017 takes effect some cycles later. */
  function SequencerWriteTick(pal: bool, a: Apu): Apu {
    if a.queue.seqTick == 0 then a
    else if a.queue.seqTick > 1 then a.(queue := a.queue.(seqTick := a.queue.seqTick - 1))
    else
      var frame := Restarted(a.frame, a.queue.seqVal, a.marks.tickQuarter);
      a.(frame := frame, irq := IrqRestarted(a.irq, a.queue.seqVal), queue := a.queue.(seqTick := 0),
         marks := a.marks.(tickQuarter := a.marks.tickQuarter || frame.mode == 1,
                           check2 := LastOf(pal, frame.mode) - 2))
  }

  // ---- the end of an APU cycle ----

  function Synced(a: Apu): (r: Apu)
    ensures r.frame == a.frame
  {
    a.(out := a.out.(pending := a.irq.raised || a.irq.dmc))
  }

  /** A register write, as far as the sequencer and the interrupts see it. */
  function Written(a: Apu, timer: nat): (r: Apu)
    ensures r.frame == a.frame
  {
    if a.queue.reg == 0x4010 then
      Synced(if BitAt(a.queue.val, 7) then a else a.(irq := a.irq.(dmc := false)))
    else if a.queue.reg == 0x4015 then
      Synced(a.(irq := a.irq.(dmc := false)))
    else if a.queue.reg == 0x4017 then
      a.(queue := a.queue.(seqTick := if timer % 2 == 0 then 3 else 4, seqVal := a.queue.val))
    else a
  }

  predicate WritesAtOnce(reg: int) {
    reg == 0x4003 || reg == 0x4007 || reg == 0x4010 || reg == 0x4015 || reg == 0x4017
  }

  function StrobedOrCleared(a: Apu, timer: nat): (r: Apu)
    ensures r.frame == a.frame
  {
    if timer % 2 == 1 then a.(queue := a.queue.(strobed := false))
    else if a.irq.clearPending then a.(irq := a.irq.(clearPending := false, flag := false))
    else a
  }

  function Reloaded(a: Apu, raises: bool): (r: Apu)
    ensures r.frame == a.frame
  {
    if a.queue.reload == 0 then a
    else
      a.(queue := a.queue.(reload := a.queue.reload - 1),
         irq := a.irq.(dmc := a.irq.dmc || (a.queue.reload == 1 && raises)))
  }

  function WroteIfDue(a: Apu, timer: nat): (r: Apu)
    ensures r.frame == a.frame
  {
    if a.queue.reg != -1 && (WritesAtOnce(a.queue.reg) || timer % 2 == 0) then
      var b := Written(a, timer);
      b.(queue := b.queue.(reg := -1))
    else a
  }

  function Asserted(i: Irq): Irq {
    if i.count == 0 then i else i.(count := i.count - 1, raised := i.raised || i.count == 1)
  }

  function LenMarked(a: Apu, mark: bool): (r: Apu)
    ensures r.frame == a.frame
  {
    a.(marks := a.marks.(lenClock := mark))
  }

  function Unmarked(a: Apu): Apu { a.(marks := a.marks.(tickQuarter := false)) }

  /** The body before the sequencer. */
  function BeforeTick(a: Apu, input: Input): (r: Apu)
    ensures r.frame == a.frame
  {
    var b := StrobedOrCleared(a, input.timer);
    var due := b.frame.counter == b.marks.check1 || b.frame.counter == b.marks.check2;
    LenMarked(WroteIfDue(Reloaded(LenMarked(b, b.marks.lenClock || due), input.raises), input.timer), false)
  }

  /** The body up to its last statement. */
  function BeforeClear(pal: bool, a: Apu, input: Input): Apu
    requires a.frame.mode <= 1 && a.frame.step < 4 + a.frame.mode
  {
    hide *;
    var b := Unmarked(SequencerWriteTick(pal, SequencerTick(pal, BeforeTick(a, input))));
    var c := Synced(b.(irq := Asserted(b.irq)));
    c.(out := c.out.(console := c.out.pending))
  }

  /** The whole body. */
  function FullBody(pal: bool, a: Apu, input: Input): Apu
    requires a.frame.mode <= 1 && a.frame.step < 4 + a.frame.mode
  {
    var b := BeforeClear(pal, a, input);
    b.(irq := b.irq.(raised := b.irq.raised && b.irq.flag))
  }

  /** The sequencer does something at this count. */
  predicate SeqEvent(pal: bool, f: Frame)
    requires f.mode <= 1 && f.step < 4 + f.mode
  {
    var c := f.counter + 1;
    || c == LastOf(pal, f.mode) - 1 || c == Lut(pal, f.mode)[f.step]
    || (f.mode == 0 && c == LastOf(pal, 0) - 2)
  }

  predicate NothingDue(a: Apu) {
    && !a.queue.strobed && !a.irq.clearPending && a.queue.reload == 0 && a.queue.reg == -1
    && a.queue.seqTick == 0 && a.irq.count == 0 && (!a.irq.raised || a.irq.flag)
  }

  /** The guard of the short cut. */
  predicate Quiescent(pal: bool, a: Apu)
    requires a.frame.mode <= 1 && a.frame.step < 4 + a.frame.mode
  {
    !SeqEvent(pal, a.frame) && NothingDue(a)
  }

  function RunOneLast(pal: bool, a: Apu, input: Input): Apu
    requires a.frame.mode <= 1 && a.frame.step < 4 + a.frame.mode
  {
    if Quiescent(pal, a) then a.(frame := a.frame.(counter := a.frame.counter + 1)) else FullBody(pal, a, input)
  }

  /** The interrupt outputs agree with the interrupt state. */
  predicate InSync(a: Apu) {
    a.out.pending == (a.irq.raised || a.irq.dmc) && a.out.console == a.out.pending
  }

  lemma QuietFrame(pal: bool, f: Frame, i: Irq)
    requires f.mode <= 1 && f.step < 4 + f.mode && !SeqEvent(pal, f)
    ensures Ticked(pal, f) == f.(counter := f.counter + 1) && !Clocks(f, Ticked(pal, f))
    ensures IrqTicked(pal, i, f) == i
  {
  }

  lemma QuietBefore(a: Apu, input: Input)
    requires NothingDue(a)
    ensures BeforeTick(a, input) == LenMarked(a, false)
  {
  }

  /** The short cut is exact if and only if the interrupt outputs are in sync and no clock is marked. */
  lemma ShortCutExact(pal: bool, a: Apu, input: Input)
    requires a.frame.mode <= 1 && a.frame.step < 4 + a.frame.mode && Quiescent(pal, a)
    ensures RunOneLast(pal, a, input) == FullBody(pal, a, input)
       <==> InSync(a) && !a.marks.lenClock && !a.marks.tickQuarter
  {
    hide BeforeTick, Ticked, IrqTicked, Clocks, SeqEvent, LastOf;
    QuietFrame(pal, a.frame, a.irq);
    QuietBefore(a, input);
  }

  /** Neither mark is ever set between cycles. */
  lemma MarksClear(pal: bool, a: Apu, input: Input)
    requires a.frame.mode <= 1 && a.frame.step < 4 + a.frame.mode
    requires !a.marks.lenClock && !a.marks.tickQuarter
    ensures var r := RunOneLast(pal, a, input); !r.marks.lenClock && !r.marks.tickQuarter
  {
    hide SequencerTick, Quiescent;
    if !Quiescent(pal, a) {
      var b := BeforeTick(a, input);
      assert !b.marks.lenClock;
      var c := SequencerTick(pal, b);
      assert !c.marks.lenClock by { TickKeepsLen(pal, b); }
      var d := SequencerWriteTick(pal, c);
      assert !d.marks.lenClock;
    }
  }

  lemma TickKeepsLen(pal: bool, a: Apu)
    requires a.frame.mode <= 1 && a.frame.step < 4 + a.frame.mode
    ensures SequencerTick(pal, a).marks.lenClock == a.marks.lenClock
  {
    hide Ticked, IrqTicked, Clocks;
  }

  /** The whole body leaves the outputs in sync, unless its last statement takes the frame interrupt back with no
      interrupt of the DMC's to keep the line up. */
  lemma SyncAfter(pal: bool, a: Apu, input: Input)
    requires a.frame.mode <= 1 && a.frame.step < 4 + a.frame.mode
    ensures InSync(FullBody(pal, a, input))
       <==> var i := BeforeClear(pal, a, input).irq; !(i.raised && !i.flag && !i.dmc)
  {
    hide BeforeTick, SequencerTick, SequencerWriteTick;
  }

  /** In a cycle in which only acknowledgements and strobes are due: exactly when an interrupt of the frame
      sequencer, and not of the DMC, is acknowledged. */
  lemma AcknowledgeLosesSync(pal: bool, a: Apu, input: Input)
    requires a.frame.mode <= 1 && a.frame.step < 4 + a.frame.mode && !SeqEvent(pal, a.frame)
    requires a.queue.reload == 0 && a.queue.reg == -1 && a.queue.seqTick == 0 && a.irq.count == 0
    ensures InSync(FullBody(pal, a, input))
       <==> !(a.irq.raised && !a.irq.dmc && (!a.irq.flag || (a.irq.clearPending && input.timer % 2 == 0)))
  {
    hide Ticked, IrqTicked, Clocks, SeqEvent, LastOf;
    QuietFrame(pal, a.frame, StrobedOrCleared(a, input.timer).irq);
  }

  // ---- runs ----

  /** What the console does to the APU between the ends of two cycles, and the end of a cycle. */
  datatype Event =
    | Cycle(input: Input)
    | WriteReg(reg: nat, val: Byte)
    | ReadStatus
    | Strobe
    | SampleRead // the DMC has read a sample
    | SoftReset
    | HardReset

  function FrameReset(f: Frame, val: Byte): (r: Frame)
    ensures r.mode <= 1
  {
    Frame(if BitAt(val, 7) then 1 else 0, 0, 0, f.quarters, f.halves)
  }

  /** The counter and the step a reset starts from. The mode is the one last written. */
  function Reset(pal: bool, a: Apu): Apu {
    var frame := FrameReset(a.frame, a.queue.seqVal);
    var i := IrqRestarted(Irq(a.irq.inhibit, a.irq.count, false, false, a.irq.clearPending, false), a.queue.seqVal);
    Apu(frame, i, Out(false, a.out.console), a.queue,
        a.marks.(check1 := Lut(pal, 0)[1] - 1, check2 := LastOf(pal, frame.mode) - 2))
  }

  /** The state at power-on: as if $4017 had been written some cycles before. */
  function PoweredOn(pal: bool): Apu {
    Apu(Frame(0, 2, 0, 0, 0), Irq(false, 0, false, false, false, false), Out(false, false),
        Queue(0, 0, -1, 0, false, 0), Marks(false, false, Lut(pal, 0)[1] - 1, LastOf(pal, 0) - 2))
  }

  /** A hard reset makes a new APU; the console keeps the interrupt line and the strobe. */
  function Rebuilt(pal: bool, a: Apu): Apu {
    var b := PoweredOn(pal);
    b.(out := Out(false, a.out.console), queue := b.queue.(strobed := a.queue.strobed))
  }

  function Done(pal: bool, a: Apu, e: Event): Apu
    requires FrameOk(pal, a.frame)
  {
    match e
    case Cycle(input) => RunOneLast(pal, a, input)
    case WriteReg(reg, val) => a.(queue := a.queue.(reg := reg, val := val))
    case ReadStatus => Synced(a.(irq := a.irq.(clearPending := true)))
    case Strobe => a.(queue := a.queue.(strobed := true))
    case SampleRead => a.(queue := a.queue.(reload := 3))
    case SoftReset => Reset(pal, a)
    case HardReset => Rebuilt(pal, a)
  }

  /** A write to $4017 takes effect in this cycle. */
  predicate Restarts(a: Apu) { a.queue.seqTick == 1 && a.queue.reg != 0x4017 }

  lemma BeforeQueue(a: Apu, input: Input)
    ensures var q := BeforeTick(a, input).queue;
      && (a.queue.reg != 0x4017 ==> q.seqTick == a.queue.seqTick && q.seqVal == a.queue.seqVal)
      && (a.queue.reg == 0x4017 ==> q.seqTick >= 3)
      && (q.reg == a.queue.reg || q.reg == -1)
  {
  }

  /** A cycle moves the sequencer by one tick, or starts it over when a write to $4017 takes effect. */
  lemma CycleFrame(pal: bool, a: Apu, input: Input)
    requires a.frame.mode <= 1 && a.frame.step < 4 + a.frame.mode
    ensures var r := RunOneLast(pal, a, input);
      && (!Restarts(a) ==> r.frame == Ticked(pal, a.frame))
      && (Restarts(a) ==> r.frame.counter == 0 && r.frame.step == 0 && r.frame.mode <= 1)
      && (a.queue.seqTick == 0 && a.queue.reg != 0x4017 ==> r.queue.seqTick == 0)
      && (r.queue.reg == a.queue.reg || r.queue.reg == -1)
  {
    hide Ticked, IrqTicked, Clocks, SeqEvent, BeforeTick;
    if Quiescent(pal, a) {
      QuietFrame(pal, a.frame, a.irq);
    } else {
      BeforeQueue(a, input);
    }
  }

  lemma TickedOk(pal: bool, f: Frame)
    requires FrameOk(pal, f)
    ensures FrameOk(pal, Ticked(pal, f))
  {
  }

  /** Whatever happens to the APU, the counter is in the step, and the step in the table. */
  lemma DoneOk(pal: bool, a: Apu, e: Event)
    requires FrameOk(pal, a.frame)
    ensures FrameOk(pal, Done(pal, a, e).frame)
  {
    hide RunOneLast, Ticked;
    if e.Cycle? {
      CycleFrame(pal, a, e.input);
      TickedOk(pal, a.frame);
    }
  }

  function Run(pal: bool, a: Apu, events: seq<Event>): (r: Apu)
    requires FrameOk(pal, a.frame)
    ensures FrameOk(pal, r.frame)
    decreases |events|
  {
    hide FrameOk, Done;
    if events == [] then a
    else
      DoneOk(pal, a, events[0]);
      Run(pal, Done(pal, a, events[0]), events[1..])
  }

  // ---- accounting ----

  function Ticks(pal: bool, f: Frame, n: nat): (r: Frame)
    requires FrameOk(pal, f)
    ensures FrameOk(pal, r)
    decreases n
  {
    hide Ticked;
    if n == 0 then f
    else
      TickedOk(pal, f);
      Ticks(pal, Ticked(pal, f), n - 1)
  }

  function Count(b: bool): nat { if b then 1 else 0 }

  /** The clocks that are due by count `c` of a period. */
  function QuartersBy(pal: bool, mode: nat, c: nat): nat
    requires mode <= 1
  {
    var lut := Lut(pal, mode);
    Count(lut[0] <= c) + Count(lut[1] <= c) + Count(lut[2] <= c) + Count(lut[3 + mode] <= c)
  }

  function HalvesBy(pal: bool, mode: nat, c: nat): nat
    requires mode <= 1
  {
    Count(Lut(pal, mode)[1] <= c) + Count(LastOf(pal, mode) - 1 <= c)
  }

  /** `q` and `h` are the clocks there were before this period. */
  predicate InPeriod(pal: bool, f: Frame, q: nat, h: nat) {
    && FrameOk(pal, f)
    && f.quarters == q + QuartersBy(pal, f.mode, f.counter) && f.halves == h + HalvesBy(pal, f.mode, f.counter)
  }

  lemma TickFourStep(pal: bool, f: Frame, q: nat, h: nat)
    requires InPeriod(pal, f, q, h) && f.mode == 0
    ensures var r := Ticked(pal, f);
      && r.mode == f.mode && FrameOk(pal, r)
      && (if f.counter + 1 < LastOf(pal, f.mode) then r.counter == f.counter + 1 && InPeriod(pal, r, q, h)
          else r.counter == 0 && InPeriod(pal, r, q + 4, h + 2))
  {
    if f.step == 0 {} else if f.step == 1 {} else if f.step == 2 {} else {}
  }

  lemma TickFiveStepEarly(pal: bool, f: Frame, q: nat, h: nat)
    requires InPeriod(pal, f, q, h) && f.mode == 1 && f.step <= 2
    ensures var r := Ticked(pal, f);
      && r.mode == f.mode && FrameOk(pal, r)
      && (if f.counter + 1 < LastOf(pal, f.mode) then r.counter == f.counter + 1 && InPeriod(pal, r, q, h)
          else r.counter == 0 && InPeriod(pal, r, q + 4, h + 2))
  {
    if f.step == 0 {} else if f.step == 1 {} else {}
  }

  lemma TickFiveStepLate(pal: bool, f: Frame, q: nat, h: nat)
    requires InPeriod(pal, f, q, h) && f.mode == 1 && f.step >= 3
    ensures var r := Ticked(pal, f);
      && r.mode == f.mode && FrameOk(pal, r)
      && (if f.counter + 1 < LastOf(pal, f.mode) then r.counter == f.counter + 1 && InPeriod(pal, r, q, h)
          else r.counter == 0 && InPeriod(pal, r, q + 4, h + 2))
  {
    if f.step == 3 {} else {}
  }

  lemma TickInPeriod(pal: bool, f: Frame, q: nat, h: nat)
    requires InPeriod(pal, f, q, h)
    ensures var r := Ticked(pal, f);
      && r.mode == f.mode && FrameOk(pal, r)
      && (if f.counter + 1 < LastOf(pal, f.mode) then r.counter == f.counter + 1 && InPeriod(pal, r, q, h)
          else r.counter == 0 && InPeriod(pal, r, q + 4, h + 2))
  {
    if f.mode == 0 { TickFourStep(pal, f, q, h); }
    else if f.step <= 2 { TickFiveStepEarly(pal, f, q, h); }
    else { TickFiveStepLate(pal, f, q, h); }
  }

  /** From the start of a period on, in both modes and both regions: after `n` ticks the counter is at `n` modulo
      the period, and there were four quarter-frame and two half-frame clocks for each whole period, and the
      ones that are due in the last. */
  lemma {:induction false} Accounting(pal: bool, f: Frame, n: nat)
    requires f.mode <= 1 && f.counter == 0 && f.step == 0
    ensures FrameOk(pal, f)
    ensures var period := LastOf(pal, f.mode);
      var r := Ticks(pal, f, n);
      && r.mode == f.mode && r.counter == n % period
      && r.quarters == f.quarters + 4 * (n / period) + QuartersBy(pal, f.mode, n % period)
      && r.halves == f.halves + 2 * (n / period) + HalvesBy(pal, f.mode, n % period)
  {
    hide Ticked, Ticks, LastOf, Lut;
    StartInPeriod(pal, f);
    AccountingFrom(pal, f, f.quarters, f.halves, n);
  }

  lemma StartInPeriod(pal: bool, f: Frame)
    requires f.mode <= 1 && f.counter == 0 && f.step == 0
    ensures InPeriod(pal, f, f.quarters, f.halves)
  {
  }

  lemma {:induction false} AccountingFrom(pal: bool, f: Frame, q: nat, h: nat, n: nat)
    requires InPeriod(pal, f, q, h)
    ensures FrameOk(pal, f)
    ensures var period := LastOf(pal, f.mode);
      var r := Ticks(pal, f, n);
      var total := f.counter + n;
      && r.mode == f.mode && r.counter == total % period
      && InPeriod(pal, r, q + 4 * (total / period), h + 2 * (total / period))
    decreases n
  {
    hide Ticked, LastOf, Lut, InPeriod, Low;
    TickInPeriod(pal, f, q, h);
    Within(pal, f, q, h);
    if n > 0 {
      var g := Ticked(pal, f);
      if f.counter + 1 < LastOf(pal, f.mode) {
        AccountingFrom(pal, g, q, h, n - 1);
        assert g.counter + (n - 1) == f.counter + n;
      } else {
        var period := LastOf(pal, f.mode);
        AccountingFrom(pal, g, q + 4, h + 2, n - 1);
        WholePeriod(pal, f.mode, n - 1);
        assert f.counter + n == n - 1 + period;
        assert (q + 4) + 4 * ((n - 1) / period) == q + 4 * ((n - 1 + period) / period);
        assert (h + 2) + 2 * ((n - 1) / period) == h + 2 * ((n - 1 + period) / period);
      }
    } else {
      assert q + 4 * (f.counter / LastOf(pal, f.mode)) == q && h + 2 * (f.counter / LastOf(pal, f.mode)) == h;
    }
  }

  lemma Within(pal: bool, f: Frame, q: nat, h: nat)
    requires InPeriod(pal, f, q, h)
    ensures FrameOk(pal, f) && f.counter < LastOf(pal, f.mode)
    ensures f.counter % LastOf(pal, f.mode) == f.counter && f.counter / LastOf(pal, f.mode) == 0
  {
  }

  lemma WholePeriod(pal: bool, mode: nat, n: nat)
    requires mode <= 1
    ensures var period := LastOf(pal, mode);
      (n + period) / period == n / period + 1 && (n + period) % period == n % period
  {
    if pal {
      if mode == 0 { assert LastOf(pal, mode) == 33254; } else { assert LastOf(pal, mode) == 41566; }
    } else {
      if mode == 0 { assert LastOf(pal, mode) == 29830; } else { assert LastOf(pal, mode) == 37282; }
    }
  }

  predicate NoRestart(events: seq<Event>) {
    forall e | e in events :: !e.SoftReset? && !e.HardReset? && (e.WriteReg? ==> e.reg != 0x4017)
  }

  function Cycles(events: seq<Event>): nat {
    if events == [] then 0 else (if events[0].Cycle? then 1 else 0) + Cycles(events[1..])
  }

  /** With no write to $4017 and no reset, the short cut and everything else that happens to the APU leave the
      sequencer alone: it ticks once a cycle. */
  lemma {:induction false} RunTicks(pal: bool, a: Apu, events: seq<Event>)
    requires FrameOk(pal, a.frame) && NoRestart(events) && a.queue.seqTick == 0 && a.queue.reg != 0x4017
    ensures Run(pal, a, events).frame == Ticks(pal, a.frame, Cycles(events))
    decreases |events|
  {
    hide FrameOk, RunOneLast, Ticked;
    if events != [] {
      var e := events[0];
      assert e in events;
      DoneOk(pal, a, e);
      if e.Cycle? { StepInTable(pal, a.frame); CycleFrame(pal, a, e.input); }
      RunTicks(pal, Done(pal, a, e), events[1..]);
    }
  }

  lemma StepInTable(pal: bool, f: Frame)
    requires FrameOk(pal, f)
    ensures f.mode <= 1 && f.step < 4 + f.mode
  {
  }

  // ---- an interrupt that stays ----

  function CyclesOf(inputs: seq<Input>): (events: seq<Event>)
    ensures |events| == |inputs| && forall k :: 0 <= k < |inputs| ==> events[k] == Cycle(inputs[k])
  {
    seq(|inputs|, k requires 0 <= k < |inputs| => Cycle(inputs[k]))
  }

  /** Nothing but the sequencer is at work. */
  predicate Still(a: Apu) { NothingDue(a) && InSync(a) && !a.marks.lenClock && !a.marks.tickQuarter }

  lemma StillCycle(pal: bool, a: Apu, input: Input)
    requires FrameOk(pal, a.frame) && a.frame.mode == 0 && a.frame.counter < LastOf(pal, 0) - 3 && Still(a)
    ensures FrameOk(pal, Ticked(pal, a.frame))
    ensures var f := Ticked(pal, a.frame);
      f.mode == 0 && f.counter == a.frame.counter + 1 && RunOneLast(pal, a, input) == a.(frame := f)
  {
    hide BeforeTick;
    EarlyTick(pal, a.frame);
    if Quiescent(pal, a) { QuietFrame(pal, a.frame, a.irq); } else { QuietBefore(a, input); }
  }

  lemma EarlyTick(pal: bool, f: Frame)
    requires FrameOk(pal, f) && f.mode == 0 && f.counter < LastOf(pal, 0) - 3
    ensures var g := Ticked(pal, f); g.mode == 0 && g.counter == f.counter + 1 && FrameOk(pal, g)
    ensures !SetsFlag(pal, f, false) && f.counter + 1 != LastOf(pal, 0) - 1
  {
  }

  /** Before the frame interrupt comes near, cycles change the sequencer and nothing else. */
  lemma {:induction false} StillRun(pal: bool, a: Apu, inputs: seq<Input>)
    requires FrameOk(pal, a.frame) && a.frame.mode == 0 && a.frame.counter + |inputs| <= LastOf(pal, 0) - 3 && Still(a)
    ensures Run(pal, a, CyclesOf(inputs)) == a.(frame := Ticks(pal, a.frame, |inputs|))
    decreases |inputs|
  {
    hide FrameOk, RunOneLast, Ticked, LastOf;
    if inputs != [] {
      StepInTable(pal, a.frame);
      StillCycle(pal, a, inputs[0]);
      StillRun(pal, a.(frame := Ticked(pal, a.frame)), inputs[1..]);
      assert CyclesOf(inputs)[1..] == CyclesOf(inputs[1..]);
    }
  }

  /** In step with three cycles to go until the frame interrupt, and nothing else going on. */
  function NearlyThere(pal: bool, q: nat, h: nat): Apu {
    PoweredOn(pal).(frame := Frame(0, LastOf(pal, 0) - 3, 3, q, h))
  }

  /** A hard reset and as many cycles as it takes. */
  lemma NearlyThereIsReached(pal: bool, inputs: seq<Input>)
    requires |inputs| == LastOf(pal, 0) - 5
    ensures FrameOk(pal, PoweredOn(pal).frame)
    ensures Run(pal, PoweredOn(pal), CyclesOf(inputs)) == NearlyThere(pal, 3, 1)
  {
    hide Ticks, Run, Ticked;
    FrameNearlyThere(pal);
    StillRun(pal, PoweredOn(pal), inputs);
  }

  lemma FrameNearlyThere(pal: bool)
    ensures FrameOk(pal, Frame(0, 2, 0, 0, 0))
    ensures Ticks(pal, Frame(0, 2, 0, 0, 0), LastOf(pal, 0) - 5) == Frame(0, LastOf(pal, 0) - 3, 3, 3, 1)
  {
    hide Ticks, LastOf, Lut, InPeriod, FrameOk;
    var f := Frame(0, 2, 0, 0, 0);
    FirstStep(pal, f);
    Within(pal, f, 0, 0);
    var n := NearEnd(pal);
    AccountingFrom(pal, f, 0, 0, n);
    LastStep(pal, Ticks(pal, f, n));
  }

  lemma FirstStep(pal: bool, f: Frame)
    requires f == Frame(0, 2, 0, 0, 0)
    ensures InPeriod(pal, f, 0, 0)
  {
  }

  lemma LastStep(pal: bool, f: Frame)
    requires f.mode == 0 && f.counter == (LastOf(pal, 0) - 3) % LastOf(pal, 0)
    requires InPeriod(pal, f, 4 * ((LastOf(pal, 0) - 3) / LastOf(pal, 0)), 2 * ((LastOf(pal, 0) - 3) / LastOf(pal, 0)))
    ensures f == Frame(0, LastOf(pal, 0) - 3, 3, 3, 1)
  {
    if pal { assert LastOf(pal, 0) == 33254; } else { assert LastOf(pal, 0) == 29830; }
    if f.step == 0 {} else if f.step == 1 {} else if f.step == 2 {} else {}
  }

  lemma FrameSoonAfter(pal: bool, n: nat)
    requires n < 100
    ensures FrameOk(pal, Frame(0, 0, 0, 4, 2))
    ensures var f := Ticks(pal, Frame(0, 0, 0, 4, 2), n); f.mode == 0 && f.counter == n
  {
    hide Ticks;
    AccountingFrom(pal, Frame(0, 0, 0, 4, 2), 4, 2, n);
  }

  /** The interrupt state after a frame interrupt that nobody has acknowledged. */
  function Unacknowledged(pal: bool, f: Frame): Apu {
    PoweredOn(pal).(frame := f, irq := Irq(false, 0, true, true, false, false), out := Out(true, true))
  }

  /** Three cycles from the frame interrupt: the flag, the countdown and the interrupt. */
  lemma Approach(pal: bool, q: nat, h: nat, i: Input, j: Input, k: Input)
    ensures var a := NearlyThere(pal, q, h);
      && FrameOk(pal, a.frame)
      && Run(pal, a, CyclesOf([i, j, k])) == Unacknowledged(pal, Frame(0, 0, 0, q + 1, h + 1))
  {
    var a := NearlyThere(pal, q, h);
    var c := LastOf(pal, 0);
    var b := FullBody(pal, a, i);
    assert b == a.(frame := Frame(0, c - 2, 3, q, h), irq := Irq(false, 0, false, true, false, false));
    var d := FullBody(pal, b, j);
    assert d == a.(frame := Frame(0, c - 1, 3, q, h + 1), irq := Irq(false, 1, false, true, false, false));
    var e := FullBody(pal, d, k);
    assert e == Unacknowledged(pal, Frame(0, 0, 0, q + 1, h + 1));
    ThreeCycles(pal, a, i, j, k);
    assert CyclesOf([i, j, k]) == [Cycle(i), Cycle(j), Cycle(k)];
  }

  lemma ThreeCycles(pal: bool, a: Apu, i: Input, j: Input, k: Input)
    requires FrameOk(pal, a.frame)
    ensures FrameOk(pal, RunOneLast(pal, a, i).frame)
    ensures FrameOk(pal, RunOneLast(pal, RunOneLast(pal, a, i), j).frame)
    ensures Run(pal, a, [Cycle(i), Cycle(j), Cycle(k)])
         == RunOneLast(pal, RunOneLast(pal, RunOneLast(pal, a, i), j), k)
  {
    hide RunOneLast;
    DoneOk(pal, a, Cycle(i));
    var b := RunOneLast(pal, a, i);
    DoneOk(pal, b, Cycle(j));
    var c := RunOneLast(pal, b, j);
    DoneOk(pal, c, Cycle(k));
    assert [Cycle(i), Cycle(j), Cycle(k)][1..] == [Cycle(j), Cycle(k)];
    assert [Cycle(j), Cycle(k)][1..] == [Cycle(k)];
    assert [Cycle(k)][1..] == [];
    assert Run(pal, c, [Cycle(k)]) == Run(pal, Done(pal, c, Cycle(k)), []);
  }

  /** The acknowledged interrupt that stays: after a read of $4015 and the cycle that clears the flag, the frame
      interrupt is gone, but the short cut leaves the console's interrupt line as it was, where the whole body
      would have let it go. */
  lemma StaysAsserted(pal: bool, a: Apu, even: Input, next: Input)
    requires FrameOk(pal, a.frame) && a.frame.counter < 100 && a.frame.mode == 0
    requires a.irq == Irq(false, 0, true, true, false, false) && InSync(a)
    requires a.queue.reg == -1 && a.queue.reload == 0 && a.queue.seqTick == 0 && !a.queue.strobed
    requires even.timer % 2 == 0
    ensures var b := Done(pal, a, ReadStatus);
      var c := Done(pal, b, Cycle(even));
      && FrameOk(pal, b.frame) && FrameOk(pal, c.frame)
      && !c.irq.raised && !c.irq.dmc
      && Done(pal, c, Cycle(next)).out.console && !FullBody(pal, c, next).out.console
  {
    var b := Done(pal, a, ReadStatus);
    QuietFrame(pal, b.frame, StrobedOrCleared(b, even.timer).irq);
    var c := FullBody(pal, b, even);
    assert c.frame == b.frame.(counter := b.frame.counter + 1) && c.irq == Irq(false, 0, false, false, false, false);
    assert c.queue == b.queue && c.out == Out(true, true);
    QuietFrame(pal, c.frame, c.irq);
  }

  lemma {:induction false} RunJoined(pal: bool, a: Apu, s: seq<Event>, t: seq<Event>)
    requires FrameOk(pal, a.frame)
    ensures Run(pal, a, s + t) == Run(pal, Run(pal, a, s), t)
    decreases |s|
  {
    hide FrameOk, Done;
    if s == [] {
      assert s + t == t;
    } else {
      DoneOk(pal, a, s[0]);
      RunJoined(pal, Done(pal, a, s[0]), s[1..], t);
      assert (s + t)[1..] == s[1..] + t;
    }
  }

  /** The frame interrupt comes, and waits. */
  lemma InterruptIsReached(pal: bool, inputs: seq<Input>)
    requires LastOf(pal, 0) - 2 <= |inputs| < LastOf(pal, 0) + 90
    ensures FrameOk(pal, PoweredOn(pal).frame)
    ensures var r := Run(pal, PoweredOn(pal), CyclesOf(inputs));
      r.frame.mode == 0 && r.frame.counter < 100 && r == Unacknowledged(pal, r.frame)
  {
    hide *;
    var n := NearEnd(pal);
    var a := PoweredOn(pal);
    NearlyThereIsReached(pal, inputs[..n]);
    Approach(pal, 3, 1, inputs[n], inputs[n + 1], inputs[n + 2]);
    StaysUnacknowledged(pal, inputs[n + 3..]);
    assert inputs[n..n + 3] == [inputs[n], inputs[n + 1], inputs[n + 2]];
    var s, t, u := CyclesOf(inputs[..n]), CyclesOf(inputs[n..n + 3]), CyclesOf(inputs[n + 3..]);
    RunJoined(pal, a, s, t);
    RunJoined(pal, a, s + t, u);
    assert CyclesOf(inputs) == s + t + u;
  }

  function NearEnd(pal: bool): (n: nat)
    ensures n == LastOf(pal, 0) - 5
  {
    LastOf(pal, 0) - 5
  }

  lemma StaysUnacknowledged(pal: bool, inputs: seq<Input>)
    requires |inputs| < 95
    ensures FrameOk(pal, Frame(0, 0, 0, 4, 2))
    ensures var r := Run(pal, Unacknowledged(pal, Frame(0, 0, 0, 4, 2)), CyclesOf(inputs));
      r.frame.mode == 0 && r.frame.counter == |inputs| && r == Unacknowledged(pal, r.frame)
  {
    hide Ticks, Run, Ticked;
    FrameSoonAfter(pal, |inputs|);
    StillRun(pal, Unacknowledged(pal, Frame(0, 0, 0, 4, 2)), inputs);
  }

  /** The short cut is not exact on every run from a reset: let cycles pass until the frame interrupt has come, read
      $4015, and let the cycle pass that clears the flag. The next cycle leaves the console's interrupt line up,
      where the whole body lets it go. The timer may have either parity when the interrupt comes. */
  lemma ShortCutFails(pal: bool, inputs: seq<Input>, even: Input, next: Input)
    requires LastOf(pal, 0) - 2 <= |inputs| < LastOf(pal, 0) + 90 && even.timer % 2 == 0
    ensures FrameOk(pal, PoweredOn(pal).frame)
    ensures var c := Run(pal, PoweredOn(pal), CyclesOf(inputs) + [ReadStatus, Cycle(even)]);
      && c.frame.mode <= 1 && c.frame.step < 4 + c.frame.mode && !c.irq.raised && !c.irq.dmc
      && RunOneLast(pal, c, next).out.console && !FullBody(pal, c, next).out.console
  {
    hide FullBody, RunOneLast, LastOf;
    var a := PoweredOn(pal);
    InterruptIsReached(pal, inputs);
    var b := Run(pal, a, CyclesOf(inputs));
    RunJoined(pal, a, CyclesOf(inputs), [ReadStatus, Cycle(even)]);
    StaysAsserted(pal, b, even, next);
    assert [ReadStatus, Cycle(even)][1..] == [Cycle(even)];
    assert [Cycle(even)][1..] == [];
    assert Run(pal, Done(pal, b, ReadStatus), [Cycle(even)])
        == Run(pal, Done(pal, Done(pal, b, ReadStatus), Cycle(even)), []);
  }

  // ---- the end of a sample ----

  /** No write waits. */
  predicate NoWrite(a: Apu) { a.queue.reg == -1 }

  lemma ReloadCycle(pal: bool, a: Apu, input: Input)
    requires FrameOk(pal, a.frame) && NoWrite(a)
    ensures a.frame.mode <= 1 && a.frame.step < 4 + a.frame.mode
    ensures var r := RunOneLast(pal, a, input);
      && NoWrite(r) && r.queue.reload == (if a.queue.reload > 0 then a.queue.reload - 1 else 0)
      && r.irq.dmc == (a.irq.dmc || (a.queue.reload == 1 && input.raises))
  {
    hide SequencerTick, SequencerWriteTick, SeqEvent, FrameOk, BeforeTick;
    StepInTable(pal, a.frame);
    if Quiescent(pal, a) {
    } else {
      ReloadBefore(a, input);
      ReloadTick(pal, BeforeTick(a, input));
    }
  }

  lemma ReloadTick(pal: bool, a: Apu)
    requires a.frame.mode <= 1 && a.frame.step < 4 + a.frame.mode
    ensures var r := SequencerWriteTick(pal, SequencerTick(pal, a));
      r.queue.reg == a.queue.reg && r.queue.reload == a.queue.reload && r.irq.dmc == a.irq.dmc
  {
    hide Ticked, Clocks, SetsFlag, LastOf, BitAt;
  }

  lemma ReloadBefore(a: Apu, input: Input)
    requires NoWrite(a)
    ensures var r := BeforeTick(a, input);
      && NoWrite(r) && r.queue.reload == (if a.queue.reload > 0 then a.queue.reload - 1 else 0)
      && r.irq.dmc == (a.irq.dmc || (a.queue.reload == 1 && input.raises))
  {
  }

  /** A sample that is read raises the DMC's interrupt, if it does, in the third cycle after it and not before. */
  lemma SampleEnds(pal: bool, a: Apu, i: Input, j: Input, k: Input)
    requires FrameOk(pal, a.frame) && NoWrite(a)
    ensures Run(pal, a, [SampleRead, Cycle(i)]).irq.dmc == a.irq.dmc
    ensures Run(pal, a, [SampleRead, Cycle(i), Cycle(j)]).irq.dmc == a.irq.dmc
    ensures Run(pal, a, [SampleRead, Cycle(i), Cycle(j), Cycle(k)]).irq.dmc == (a.irq.dmc || k.raises)
  {
    hide RunOneLast, FrameOk;
    assert [SampleRead] + [Cycle(i)] == [SampleRead, Cycle(i)];
    assert [SampleRead, Cycle(i)] + [Cycle(j)] == [SampleRead, Cycle(i), Cycle(j)];
    assert [SampleRead, Cycle(i), Cycle(j)] + [Cycle(k)] == [SampleRead, Cycle(i), Cycle(j), Cycle(k)];
    var b := Done(pal, a, SampleRead);
    DoneOk(pal, a, SampleRead);
    RunNext(pal, a, [], SampleRead);
    ReloadCycle(pal, b, i);
    RunNext(pal, a, [SampleRead], Cycle(i));
    ReloadCycle(pal, Run(pal, a, [SampleRead, Cycle(i)]), j);
    RunNext(pal, a, [SampleRead, Cycle(i)], Cycle(j));
    ReloadCycle(pal, Run(pal, a, [SampleRead, Cycle(i), Cycle(j)]), k);
    RunNext(pal, a, [SampleRead, Cycle(i), Cycle(j)], Cycle(k));
  }

  lemma RunNext(pal: bool, a: Apu, events: seq<Event>, e: Event)
    requires FrameOk(pal, a.frame)
    ensures Run(pal, a, events + [e]) == Done(pal, Run(pal, a, events), e)
    ensures [] + [e] == [e]
  {
    hide FrameOk, Done;
    RunJoined(pal, a, events, [e]);
    var m := Run(pal, a, events);
    DoneOk(pal, m, e);
    assert [e][1..] == [];
    assert Run(pal, m, [e]) == Run(pal, Done(pal, m, e), []);
  }

  // ---- the machine without the short cut ----

  /** Between the ends of cycles the sync is lost exactly by a reset that finds the line up. */
  lemma EventKeepsSync(pal: bool, a: Apu, e: Event)
    requires FrameOk(pal, a.frame) && !e.Cycle? && InSync(a)
    ensures InSync(Done(pal, a, e)) <==> !((e.SoftReset? || e.HardReset?) && a.out.console)
  {
    hide BitAt;
    if e.SoftReset? {} else if e.HardReset? {} else {}
  }

  /** The same, with the whole body in every cycle. */
  function DoneWhole(pal: bool, a: Apu, e: Event): Apu
    requires FrameOk(pal, a.frame)
  {
    if e.Cycle? then FullBody(pal, a, e.input) else Done(pal, a, e)
  }

  lemma WholeOk(pal: bool, a: Apu, e: Event)
    requires FrameOk(pal, a.frame)
    ensures FrameOk(pal, DoneWhole(pal, a, e).frame)
  {
    hide Ticked, IrqTicked, Clocks, SeqEvent, BeforeTick, FrameOk, Done, LastOf, Lut;
    DoneOk(pal, a, e);
    if e.Cycle? {
      StepInTable(pal, a.frame);
      WholeFrame(pal, a, e.input);
      TickedOk(pal, a.frame);
      StartFrameOk(pal, FullBody(pal, a, e.input).frame);
    }
  }

  lemma WholeFrame(pal: bool, a: Apu, input: Input)
    requires a.frame.mode <= 1 && a.frame.step < 4 + a.frame.mode
    ensures var f := FullBody(pal, a, input).frame;
      f == Ticked(pal, a.frame) || (f.counter == 0 && f.step == 0 && f.mode <= 1)
  {
    hide Ticked, IrqTicked, Clocks, BeforeTick;
  }

  lemma StartFrameOk(pal: bool, f: Frame)
    ensures f.counter == 0 && f.step == 0 && f.mode <= 1 ==> FrameOk(pal, f)
  {
  }

  function RunWhole(pal: bool, a: Apu, events: seq<Event>): (r: Apu)
    requires FrameOk(pal, a.frame)
    ensures FrameOk(pal, r.frame)
    decreases |events|
  {
    hide FrameOk, DoneWhole;
    if events == [] then a
    else
      WholeOk(pal, a, events[0]);
      RunWhole(pal, DoneWhole(pal, a, events[0]), events[1..])
  }

  /** Whenever the short cut is taken, the outputs are in sync. */
  predicate SyncedWhenTaken(pal: bool, a: Apu, events: seq<Event>)
    requires FrameOk(pal, a.frame)
    decreases |events|
  {
    events == []
    || (StepInTable(pal, a.frame); DoneOk(pal, a, events[0]);
        (events[0].Cycle? && Quiescent(pal, a) ==> InSync(a))
        && SyncedWhenTaken(pal, Done(pal, a, events[0]), events[1..]))
  }

  lemma DoneMarks(pal: bool, a: Apu, e: Event)
    requires FrameOk(pal, a.frame) && !a.marks.lenClock && !a.marks.tickQuarter
    ensures var r := Done(pal, a, e); !r.marks.lenClock && !r.marks.tickQuarter
  {
    hide RunOneLast, FrameOk;
    if e.Cycle? {
      StepInTable(pal, a.frame);
      MarksClear(pal, a, e.input);
    }
  }

  /** One event: the short cut makes no difference exactly if it is not taken out of sync. */
  lemma DoneExact(pal: bool, a: Apu, e: Event)
    requires FrameOk(pal, a.frame) && !a.marks.lenClock && !a.marks.tickQuarter
    ensures a.frame.mode <= 1 && a.frame.step < 4 + a.frame.mode
    ensures Done(pal, a, e) == DoneWhole(pal, a, e) <==> (e.Cycle? && Quiescent(pal, a) ==> InSync(a))
  {
    hide FullBody, FrameOk, Quiescent, InSync;
    StepInTable(pal, a.frame);
    if e.Cycle? && Quiescent(pal, a) { ShortCutExact(pal, a, e.input); }
  }

  /** The machine with the short cut goes through the same states as the machine without it if and only if its outputs
      are in sync whenever it takes the short cut. */
  lemma {:induction false} RunExact(pal: bool, a: Apu, events: seq<Event>)
    requires FrameOk(pal, a.frame) && !a.marks.lenClock && !a.marks.tickQuarter
    ensures (forall k: nat | k <= |events| :: Run(pal, a, events[..k]) == RunWhole(pal, a, events[..k]))
       <==> SyncedWhenTaken(pal, a, events)
    decreases |events|
  {
    hide FrameOk, Done, DoneWhole, Quiescent, InSync;
    if events == [] {
      assert events[..0] == [];
    } else {
      var e, rest := events[0], events[1..];
      DoneOk(pal, a, e);
      DoneMarks(pal, a, e);
      DoneExact(pal, a, e);
      WholeOk(pal, a, e);
      var b := Done(pal, a, e);
      RunExact(pal, b, rest);
      forall k: nat | k < |events| ensures events[..k + 1][0] == e && events[..k + 1][1..] == rest[..k] {
      }
      if b == DoneWhole(pal, a, e) {
        SamePrefixes(pal, a, events);
      } else {
        assert events[..1][1..] == [];
        assert Run(pal, a, events[..1]) == b && RunWhole(pal, a, events[..1]) == DoneWhole(pal, a, e);
      }
    }
  }

  lemma SamePrefixes(pal: bool, a: Apu, events: seq<Event>)
    requires FrameOk(pal, a.frame) && events != [] && Done(pal, a, events[0]) == DoneWhole(pal, a, events[0])
    ensures FrameOk(pal, Done(pal, a, events[0]).frame)
    ensures var b, rest := Done(pal, a, events[0]), events[1..];
      (forall k: nat | k <= |events| :: Run(pal, a, events[..k]) == RunWhole(pal, a, events[..k]))
      <==> (forall k: nat | k <= |rest| :: Run(pal, b, rest[..k]) == RunWhole(pal, b, rest[..k]))
  {
    hide FrameOk, Done, DoneWhole;
    DoneOk(pal, a, events[0]);
    var b, rest := Done(pal, a, events[0]), events[1..];
    forall k: nat | k <= |rest|
      ensures Run(pal, a, events[..k + 1]) == Run(pal, b, rest[..k])
      ensures RunWhole(pal, a, events[..k + 1]) == RunWhole(pal, b, rest[..k])
    {
      assert events[..k + 1][1..] == rest[..k];
    }
    assert events[..0] == [];
    assert forall k: nat | 1 <= k <= |events| ::
      && Run(pal, a, events[..k]) == Run(pal, b, rest[..k - 1])
      && RunWhole(pal, a, events[..k]) == RunWhole(pal, b, rest[..k - 1]);
  }

  /** What loses the sync: a reset with the line up, and a cycle that takes the frame interrupt back with no interrupt
      of the DMC's. */
  predicate Loses(pal: bool, a: Apu, e: Event)
    requires a.frame.mode <= 1 && a.frame.step < 4 + a.frame.mode
  {
    match e
    case Cycle(input) => var i := BeforeClear(pal, a, input).irq; i.raised && !i.flag && !i.dmc
    case SoftReset => a.out.console
    case HardReset => a.out.console
    case _ => false
  }

  predicate NeverLoses(pal: bool, a: Apu, events: seq<Event>)
    requires FrameOk(pal, a.frame)
    decreases |events|
  {
    events == []
    || (StepInTable(pal, a.frame); DoneOk(pal, a, events[0]);
        !Loses(pal, a, events[0]) && NeverLoses(pal, Done(pal, a, events[0]), events[1..]))
  }

  lemma StaysInSync(pal: bool, a: Apu, e: Event)
    requires FrameOk(pal, a.frame) && InSync(a) && !a.marks.lenClock && !a.marks.tickQuarter
    ensures a.frame.mode <= 1 && a.frame.step < 4 + a.frame.mode
    ensures InSync(Done(pal, a, e)) <==> !Loses(pal, a, e)
  {
    hide FullBody, FrameOk, BeforeClear, Quiescent, Reset, Rebuilt;
    StepInTable(pal, a.frame);
    if e.Cycle? {
      SyncAfter(pal, a, e.input);
      if Quiescent(pal, a) { ShortCutExact(pal, a, e.input); }
    } else {
      EventKeepsSync(pal, a, e);
    }
  }

  /** From a state in sync, a run in which nothing loses the sync is the run of the machine without the short cut. */
  lemma {:induction false} SyncedRun(pal: bool, a: Apu, events: seq<Event>)
    requires FrameOk(pal, a.frame) && InSync(a) && !a.marks.lenClock && !a.marks.tickQuarter
    requires NeverLoses(pal, a, events)
    ensures SyncedWhenTaken(pal, a, events) && Run(pal, a, events) == RunWhole(pal, a, events)
    ensures InSync(Run(pal, a, events))
    decreases |events|
  {
    hide FrameOk, Done, DoneWhole, Quiescent, InSync, Loses;
    if events != [] {
      var e := events[0];
      DoneOk(pal, a, e);
      DoneMarks(pal, a, e);
      DoneExact(pal, a, e);
      StaysInSync(pal, a, e);
      SyncedRun(pal, Done(pal, a, e), events[1..]);
    }
  }

  /** The other way to lose it: let the frame interrupt come and press reset. */
  lemma ShortCutFailsAfterReset(pal: bool, inputs: seq<Input>, reset: Event, next: Input)
    requires LastOf(pal, 0) - 2 <= |inputs| < LastOf(pal, 0) + 90 && (reset.SoftReset? || reset.HardReset?)
    ensures FrameOk(pal, PoweredOn(pal).frame)
    ensures var c := Run(pal, PoweredOn(pal), CyclesOf(inputs) + [reset]);
      && c.frame.mode <= 1 && c.frame.step < 4 + c.frame.mode && !c.irq.raised && !c.irq.dmc
      && RunOneLast(pal, c, next).out.console && !FullBody(pal, c, next).out.console
  {
    hide FullBody, RunOneLast, LastOf, Done;
    var a := PoweredOn(pal);
    InterruptIsReached(pal, inputs);
    var b := Run(pal, a, CyclesOf(inputs));
    RunJoined(pal, a, CyclesOf(inputs), [reset]);
    assert [reset][1..] == [];
    assert Run(pal, b, [reset]) == Run(pal, Done(pal, b, reset), []);
    ResetStaysUp(pal, b, reset, next);
  }

  lemma ResetStaysUp(pal: bool, a: Apu, reset: Event, next: Input)
    requires FrameOk(pal, a.frame) && a == Unacknowledged(pal, a.frame) && (reset.SoftReset? || reset.HardReset?)
    ensures var c := Done(pal, a, reset);
      && c.frame.mode <= 1 && c.frame.step < 4 + c.frame.mode && !c.irq.raised && !c.irq.dmc
      && RunOneLast(pal, c, next).out.console && !FullBody(pal, c, next).out.console
  {
    assert BitsOf(0) == [false, false, false, false, false, false, false, false];
    var c := Done(pal, a, reset);
    assert !SeqEvent(pal, c.frame) && NothingDue(c);
    QuietFrame(pal, c.frame, c.irq);
    QuietBefore(c, next);
  }

  // ---- the frame interrupt and $4017 ----

  /** The five-step mode, or the inhibit bit. */
  predicate Silent(a: Apu) {
    (a.frame.mode == 1 || a.irq.inhibit) && !a.irq.raised && !a.irq.flag && a.irq.count == 0
  }

  lemma SilentCycle(pal: bool, a: Apu, input: Input)
    requires FrameOk(pal, a.frame) && Silent(a) && a.queue.seqTick == 0 && a.queue.reg != 0x4017
    ensures Silent(RunOneLast(pal, a, input)) && RunOneLast(pal, a, input).frame.mode == a.frame.mode
  {
    hide Ticked, Lut, LastOf, SeqEvent, Clocks;
    StepInTable(pal, a.frame);
    TickedMode(pal, a.frame);
    if !Quiescent(pal, a) {
      BeforeQueue(a, input);
      BeforeIrq(a, input);
    }
  }

  lemma TickedMode(pal: bool, f: Frame)
    requires f.mode <= 1 && f.step < 4 + f.mode
    ensures Ticked(pal, f).mode == f.mode
  {
  }

  /** The frame interrupt is not raised before the sequencer ticks. */
  predicate IrqWaits(i: Irq, j: Irq) {
    j.inhibit == i.inhibit && j.raised == i.raised && j.count == i.count && (j.flag ==> i.flag)
  }

  lemma BeforeIrq(a: Apu, input: Input)
    ensures IrqWaits(a.irq, BeforeTick(a, input).irq)
  {
    hide StrobedOrCleared, WroteIfDue;
    var b := StrobedOrCleared(a, input.timer);
    assert IrqWaits(a.irq, b.irq) by { StrobedIrq(a, input.timer); }
    var due := b.frame.counter == b.marks.check1 || b.frame.counter == b.marks.check2;
    WroteIrq(Reloaded(LenMarked(b, b.marks.lenClock || due), input.raises), input.timer);
  }

  lemma StrobedIrq(a: Apu, timer: nat)
    ensures IrqWaits(a.irq, StrobedOrCleared(a, timer).irq)
  {
  }

  lemma WroteIrq(a: Apu, timer: nat)
    ensures IrqWaits(a.irq, WroteIfDue(a, timer).irq)
  {
    hide BitAt;
  }

  /** In the five-step mode, or with interrupts inhibited, no run without a $4017 write sets the flag or raises the
      frame interrupt. */
  lemma {:induction false} NoFrameInterrupt(pal: bool, a: Apu, events: seq<Event>)
    requires FrameOk(pal, a.frame) && Silent(a) && NoRestart(events)
    requires a.queue.seqTick == 0 && a.queue.reg != 0x4017
    ensures Silent(Run(pal, a, events))
    decreases |events|
  {
    hide FrameOk, RunOneLast;
    if events != [] {
      var e := events[0];
      assert e in events;
      DoneOk(pal, a, e);
      if e.Cycle? {
        StepInTable(pal, a.frame);
        CycleFrame(pal, a, e.input);
        SilentCycle(pal, a, e.input);
      }
      NoFrameInterrupt(pal, Done(pal, a, e), events[1..]);
    }
  }

  /** The cycles that a write to $4017 takes, the one that hands it on included. */
  function WriteDelay(timer: nat): nat { if timer % 2 == 0 then 3 else 4 }

  /** A cycle on the way: the delay is one less, and the written value is kept. */
  lemma DelayStep(pal: bool, a: Apu, input: Input)
    requires FrameOk(pal, a.frame) && a.queue.seqTick >= 1 && a.queue.reg != 0x4017
    ensures var q := RunOneLast(pal, a, input).queue;
      q.seqTick == a.queue.seqTick - 1 && q.seqVal == a.queue.seqVal && q.reg != 0x4017
    ensures a.queue.seqTick == 1 ==> TakenEffect(a.queue.seqVal, RunOneLast(pal, a, input))
  {
    hide Ticked, IrqTicked, SeqEvent, Clocks, BitAt, LastOf, Lut, BeforeTick;
    StepInTable(pal, a.frame);
    BeforeQueue(a, input);
  }

  /** The sequencer starts over in the mode of bit 7, with interrupts inhibited by bit 6, which also clears the
      flag. */
  predicate TakenEffect(val: Byte, a: Apu) {
    && a.frame.mode == (if BitAt(val, 7) then 1 else 0) && a.frame.counter == 0 && a.frame.step == 0
    && a.irq.inhibit == BitAt(val, 6) && (BitAt(val, 6) ==> !a.irq.flag && !a.irq.raised)
  }

  lemma HandOver(pal: bool, a: Apu, input: Input)
    requires FrameOk(pal, a.frame) && a.queue.reg == 0x4017
    ensures var q := RunOneLast(pal, a, input).queue;
      q.seqTick == WriteDelay(input.timer) - 1 && q.seqVal == a.queue.val && q.reg == -1
  {
    hide Ticked, IrqTicked, SeqEvent, Clocks, BitAt, LastOf, Lut;
    StepInTable(pal, a.frame);
  }

  /** The timer of each cycle has the other parity than that of the cycle before. */
  predicate Alternates(events: seq<Event>, timer: nat) {
    events == []
    || (if events[0].Cycle? then events[0].input.timer % 2 == timer % 2 && Alternates(events[1..], timer + 1)
        else Alternates(events[1..], timer))
  }

  /** While a write to $4017 is on its way, the sequencer ticks on. */
  lemma {:induction false} WriteWaits(pal: bool, a: Apu, events: seq<Event>)
    requires FrameOk(pal, a.frame) && a.queue.reg != 0x4017 && Cycles(events) < a.queue.seqTick && NoRestart(events)
    ensures var r := Run(pal, a, events);
      && r.frame == Ticks(pal, a.frame, Cycles(events))
      && r.queue.seqTick == a.queue.seqTick - Cycles(events) && r.queue.seqVal == a.queue.seqVal
      && r.queue.reg != 0x4017
    decreases |events|
  {
    hide FrameOk, RunOneLast, Ticked, TakenEffect;
    if events != [] {
      var e := events[0];
      assert e in events;
      DoneOk(pal, a, e);
      if e.Cycle? {
        StepInTable(pal, a.frame);
        CycleFrame(pal, a, e.input);
        DelayStep(pal, a, e.input);
      }
      WriteWaits(pal, Done(pal, a, e), events[1..]);
    }
  }

  lemma {:induction false} AlternatesLast(events: seq<Event>, last: Input, timer: nat)
    requires Alternates(events + [Cycle(last)], timer)
    ensures last.timer % 2 == (timer + Cycles(events)) % 2
  {
    if events == [] {
      assert events + [Cycle(last)] == [Cycle(last)];
    } else {
      assert (events + [Cycle(last)])[1..] == events[1..] + [Cycle(last)];
      AlternatesLast(events[1..], last, if events[0].Cycle? then timer + 1 else timer);
    }
  }

  /** A write to $4017 takes effect in the third or fourth cycle, always one with an even timer, whatever else
      happens to the APU in between; until then the sequencer ticks on. */
  lemma WriteTakesEffect(pal: bool, a: Apu, first: Input, events: seq<Event>, last: Input)
    requires FrameOk(pal, a.frame) && a.queue.reg == 0x4017
    requires NoRestart(events) && Cycles(events) + 2 == WriteDelay(first.timer)
    requires Alternates(events + [Cycle(last)], first.timer + 1)
    ensures last.timer % 2 == 0
    ensures var b := RunOneLast(pal, a, first);
      && FrameOk(pal, b.frame)
      && Run(pal, b, events).frame == Ticks(pal, a.frame, 1 + Cycles(events))
    ensures var r := Run(pal, a, [Cycle(first)] + events + [Cycle(last)]);
      TakenEffect(a.queue.val, r) && r.queue.seqTick == 0
  {
    hide FrameOk, RunOneLast, TakenEffect, Ticked;
    AlternatesLast(events, last, first.timer + 1);
    StepInTable(pal, a.frame);
    HandOver(pal, a, first);
    CycleFrame(pal, a, first);
    DoneOk(pal, a, Cycle(first));
    var b := Done(pal, a, Cycle(first));
    WriteWaits(pal, b, events);
    var c := Run(pal, b, events);
    DelayStep(pal, c, last);
    RunJoined(pal, a, [Cycle(first)] + events, [Cycle(last)]);
    assert ([Cycle(first)] + events)[1..] == events;
    assert [Cycle(last)][1..] == [];
    assert Run(pal, c, [Cycle(last)]) == Run(pal, Done(pal, c, Cycle(last)), []);
  }
}
