/** What the APU's registers do to the sequencer and the interrupts, over whole runs and in terms of the accesses. */
module ApuRegisters {
  import opened Bits
  import opened ApuSequencer

  // ---- in terms of the events alone ----

  /** These registers are written in the next cycle; the others wait for an even timer. */
  predicate AtOnce(reg: int) { reg in [0x4003, 0x4007, 0x4010, 0x4015, 0x4017] }

  /** The register whose write waits after `n` events, or -1. */
  function Waits(events: seq<Event>, n: nat): int
    requires n <= |events|
  {
    if n == 0 then -1
    else
      match events[n - 1]
      case WriteReg(reg, _) => reg
      case Cycle(input) => if AtOnce(Waits(events, n - 1)) || input.timer % 2 == 0 then -1 else Waits(events, n - 1)
      case HardReset => -1
      case _ => Waits(events, n - 1)
  }

  /** The value last written to any register. */
  function Value(events: seq<Event>, n: nat): Byte
    requires n <= |events|
  {
    if n == 0 || events[n - 1].HardReset? then 0 as Byte
    else if events[n - 1].WriteReg? then events[n - 1].val
    else Value(events, n - 1)
  }

  /** The cycles until a sample that was read ends. */
  function UntilEnd(events: seq<Event>, n: nat): nat
    requires n <= |events|
  {
    if n == 0 then 0
    else
      match events[n - 1]
      case SampleRead => 3
      case Cycle(_) => if UntilEnd(events, n - 1) > 0 then UntilEnd(events, n - 1) - 1 else 0
      case HardReset => 0
      case _ => UntilEnd(events, n - 1)
  }

  /** The value that last reached $4017. */
  function FrameValue(events: seq<Event>, n: nat): Byte
    requires n <= |events|
  {
    if n == 0 || events[n - 1].HardReset? then 0 as Byte
    else if events[n - 1].Cycle? && Waits(events, n - 1) == 0x4017 then Value(events, n - 1)
    else FrameValue(events, n - 1)
  }

  /** A sample ends in event `i`, and raises the interrupt. */
  predicate SampleEndsAt(events: seq<Event>, i: nat)
    requires i < |events|
  {
    events[i].Cycle? && events[i].input.raises && UntilEnd(events, i) == 1
  }

  /** Event `i` takes the DMC's interrupt back: a write to $4015, or to $4010 with bit 7 clear, or a reset. */
  predicate TakesBack(events: seq<Event>, i: nat)
    requires i < |events|
  {
    || events[i].SoftReset? || events[i].HardReset?
    || (events[i].Cycle? && (Waits(events, i) == 0x4015
                             || (Waits(events, i) == 0x4010 && !BitAt(Value(events, i), 7))))
  }

  /** A sample has raised the interrupt, and neither that cycle nor anything after it took it back. */
  ghost predicate DmcWaits(events: seq<Event>, n: nat)
    requires n <= |events|
  {
    exists i: nat :: i < n && SampleEndsAt(events, i) && forall j: nat | i <= j < n :: !TakesBack(events, j)
  }

  /** A strobe since the last cycle with an odd timer. */
  predicate StrobeWaits(events: seq<Event>, n: nat)
    requires n <= |events|
  {
    n > 0 && (events[n - 1].Strobe?
              || (!(events[n - 1].Cycle? && events[n - 1].input.timer % 2 == 1) && StrobeWaits(events, n - 1)))
  }

  // ---- one event ----

  /** What a write in this cycle may do to the DMC's interrupt. */
  predicate Silences(a: Apu) { a.queue.reg == 0x4015 || (a.queue.reg == 0x4010 && !BitAt(a.queue.val, 7)) }

  predicate CycleDone(a: Apu, input: Input, r: Apu) {
    && r.queue.reg == (if AtOnce(a.queue.reg) || input.timer % 2 == 0 then -1 else a.queue.reg)
    && r.queue.val == a.queue.val
    && r.queue.reload == (if a.queue.reload > 0 then a.queue.reload - 1 else 0)
    && r.queue.seqVal == (if a.queue.reg == 0x4017 then a.queue.val else a.queue.seqVal)
    && r.queue.strobed == (a.queue.strobed && input.timer % 2 == 0)
    && r.irq.dmc == ((a.irq.dmc || (a.queue.reload == 1 && input.raises)) && !Silences(a))
  }

  /** A write, as far as it reaches the sequencer and the interrupts. */
  lemma WroteIs(a: Apu, timer: nat)
    ensures var r, now := WroteIfDue(a, timer), AtOnce(a.queue.reg) || timer % 2 == 0;
      && r.irq == a.irq.(dmc := a.irq.dmc && !Silences(a)) && r.marks == a.marks
      && r.queue == a.queue.(reg := if now then -1 else a.queue.reg,
                             seqVal := if a.queue.reg == 0x4017 then a.queue.val else a.queue.seqVal,
                             seqTick := if a.queue.reg != 0x4017 then a.queue.seqTick
                                        else if timer % 2 == 0 then 3 else 4)
  {
    hide BitAt;
    if a.queue.reg == 0x4010 {} else if a.queue.reg == 0x4015 {} else if a.queue.reg == 0x4017 {} else {}
  }

  lemma BeforeDone(a: Apu, input: Input)
    ensures CycleDone(a, input, BeforeTick(a, input))
  {
    hide BitAt, WroteIfDue;
    WroteIs(BeforeWrite(a, input), input.timer);
  }

  /** What the cycle has done before it looks for a write. */
  function BeforeWrite(a: Apu, input: Input): Apu {
    var b := StrobedOrCleared(a, input.timer);
    var due := b.frame.counter == b.marks.check1 || b.frame.counter == b.marks.check2;
    Reloaded(LenMarked(b, b.marks.lenClock || due), input.raises)
  }

  lemma TickKeeps(pal: bool, a: Apu)
    requires a.frame.mode <= 1 && a.frame.step < 4 + a.frame.mode
    ensures var r := SequencerWriteTick(pal, SequencerTick(pal, a));
      r.queue == a.queue.(seqTick := r.queue.seqTick) && r.irq.dmc == a.irq.dmc
  {
    hide Ticked, Clocks, SetsFlag, LastOf, BitAt;
  }

  lemma CycleIs(pal: bool, a: Apu, input: Input)
    requires FrameOk(pal, a.frame)
    ensures a.frame.mode <= 1 && a.frame.step < 4 + a.frame.mode
    ensures CycleDone(a, input, RunOneLast(pal, a, input))
  {
    hide SequencerTick, SequencerWriteTick, SeqEvent, FrameOk, BeforeTick, BitAt;
    StepInTable(pal, a.frame);
    if !Quiescent(pal, a) {
      BeforeDone(a, input);
      TickKeeps(pal, BeforeTick(a, input));
    }
  }

  // ---- runs from power-on ----

  /** What the APU holds after `n` events. */
  ghost predicate Holds(events: seq<Event>, n: nat, a: Apu)
    requires n <= |events|
  {
    && a.queue.reg == Waits(events, n) && a.queue.val == Value(events, n)
    && a.queue.reload == UntilEnd(events, n) && a.queue.seqVal == FrameValue(events, n)
    && (a.queue.strobed <==> StrobeWaits(events, n)) && (a.irq.dmc <==> DmcWaits(events, n))
  }

  lemma DmcNext(events: seq<Event>, n: nat)
    requires 0 < n <= |events|
    ensures DmcWaits(events, n)
       <==> (SampleEndsAt(events, n - 1) || DmcWaits(events, n - 1)) && !TakesBack(events, n - 1)
  {
    hide SampleEndsAt, TakesBack;
    if SampleEndsAt(events, n - 1) && !TakesBack(events, n - 1) {
      assert forall j: nat | n - 1 <= j < n :: !TakesBack(events, j);
    }
  }

  lemma NextHolds(pal: bool, events: seq<Event>, n: nat, a: Apu)
    requires 0 < n <= |events| && FrameOk(pal, a.frame) && Holds(events, n - 1, a)
    ensures Holds(events, n, Done(pal, a, events[n - 1]))
  {
    hide RunOneLast, FrameOk, DmcWaits, AtOnce, BitAt, Lut;
    DmcNext(events, n);
    match events[n - 1]
    case Cycle(input) => CycleIs(pal, a, input);
    case _ =>
  }

  /** Over every run from power-on, whatever the short cut skips: which write waits, when it reaches its register,
      when a sample ends, which value $4017 has, whether the controllers wait to be strobed, and that the DMC's
      interrupt is raised just if a sample has raised it and no reset, and no write to $4015, or to $4010 with bit 7
      clear, has reached the APU since. */
  lemma {:induction false} RegistersHold(pal: bool, events: seq<Event>, n: nat)
    requires n <= |events|
    ensures FrameOk(pal, PoweredOn(pal).frame) && Holds(events, n, Run(pal, PoweredOn(pal), events[..n]))
    decreases n
  {
    hide FrameOk, Done, Holds;
    StartOk(pal);
    if n == 0 {
      StartHolds(pal, events);
      assert events[..0] == [];
    } else {
      RegistersHold(pal, events, n - 1);
      assert events[..n] == events[..n - 1] + [events[n - 1]];
      RunNext(pal, PoweredOn(pal), events[..n - 1], events[n - 1]);
      NextHolds(pal, events, n, Run(pal, PoweredOn(pal), events[..n - 1]));
    }
  }

  lemma StartOk(pal: bool)
    ensures FrameOk(pal, PoweredOn(pal).frame)
  {
  }

  lemma StartHolds(pal: bool, events: seq<Event>)
    ensures Holds(events, 0, PoweredOn(pal))
  {
  }

  // ---- the interrupt flag ----

  /** The last three counts of the four-step sequence. */
  predicate NearEnd(pal: bool, f: Frame) {
    f.mode == 0 && f.counter + 1 >= (if pal then 33254 else 29830) - 2
  }

  /** The flag of $4015: in each of the last three cycles of the four-step sequence it is set, unless that is
      inhibited; a read takes it back in a cycle with an even timer; and so does a write to $4017 with bit 6 set that
      takes effect. */
  lemma FlagCycle(pal: bool, a: Apu, input: Input)
    requires FrameOk(pal, a.frame)
    ensures a.frame.mode <= 1 && a.frame.step < 4 + a.frame.mode
    ensures var r := RunOneLast(pal, a, input);
      && r.irq.flag == (((a.irq.flag && !(a.irq.clearPending && input.timer % 2 == 0))
                         || (NearEnd(pal, a.frame) && !a.irq.inhibit))
                        && !(Restarts(a) && BitAt(a.queue.seqVal, 6)))
      && r.irq.clearPending == (a.irq.clearPending && input.timer % 2 == 1)
      && r.irq.inhibit == (if Restarts(a) then BitAt(a.queue.seqVal, 6) else a.irq.inhibit)
  {
    hide BeforeTick, SequencerTick, BitAt, SeqEvent, FrameOk;
    StepInTable(pal, a.frame);
    FlagTick(pal, a.frame);
    if Quiescent(pal, a) {
      FlagQuiet(pal, a.frame);
    } else {
      FlagBefore(a, input);
      TickFlag(pal, BeforeTick(a, input));
    }
  }

  lemma FlagTick(pal: bool, f: Frame)
    requires FrameOk(pal, f)
    ensures f.mode <= 1 && f.step < 4 + f.mode
    ensures forall inhibit: bool :: SetsFlag(pal, f, inhibit) == (NearEnd(pal, f) && !inhibit)
  {
    if f.step == 0 {} else if f.step == 1 {} else if f.step == 2 {} else {}
  }

  lemma FlagQuiet(pal: bool, f: Frame)
    requires FrameOk(pal, f)
    ensures f.mode <= 1 && f.step < 4 + f.mode
    ensures !SeqEvent(pal, f) ==> !NearEnd(pal, f)
  {
    if f.step == 0 {} else if f.step == 1 {} else if f.step == 2 {} else {}
  }

  lemma FlagBefore(a: Apu, input: Input)
    ensures var r := BeforeTick(a, input);
      && r.irq.flag == (a.irq.flag && !(a.irq.clearPending && input.timer % 2 == 0))
      && r.irq.clearPending == (a.irq.clearPending && input.timer % 2 == 1)
      && r.irq.inhibit == a.irq.inhibit && Restarts(a) == (r.queue.seqTick == 1)
      && (Restarts(a) ==> r.queue.seqVal == a.queue.seqVal)
  {
    hide BitAt, WroteIfDue;
    WroteIs(BeforeWrite(a, input), input.timer);
  }

  lemma TickFlag(pal: bool, a: Apu)
    requires a.frame.mode <= 1 && a.frame.step < 4 + a.frame.mode
    ensures var r := SequencerTick(pal, a);
      && r.queue == a.queue && r.irq.inhibit == a.irq.inhibit && r.irq.clearPending == a.irq.clearPending
      && r.irq.flag == (a.irq.flag || SetsFlag(pal, a.frame, a.irq.inhibit))
  {
    hide Ticked, Clocks, SetsFlag, LastOf;
  }

  // ---- a restart, and the reset button ----

  /** A write to $4017 that takes effect: the sequencer starts over in the mode of bit 7, and with bit 7 set
      everything is clocked at once, unless the tick of that cycle clocks something anyway. */
  lemma RestartClocks(pal: bool, a: Apu, input: Input)
    requires FrameOk(pal, a.frame) && Restarts(a) && !a.marks.tickQuarter
    ensures a.frame.mode <= 1 && a.frame.step < 4 + a.frame.mode
    ensures var f, t := RunOneLast(pal, a, input).frame, Ticked(pal, a.frame);
      var extra := if BitAt(a.queue.seqVal, 7) && t.quarters == a.frame.quarters && t.halves == a.frame.halves
                   then 1 else 0;
      && f.counter == 0 && f.step == 0 && f.mode == (if BitAt(a.queue.seqVal, 7) then 1 else 0)
      && f.quarters == t.quarters + extra && f.halves == t.halves + extra
  {
    hide Ticked, IrqTicked, SeqEvent, BeforeTick, BitAt;
    StepInTable(pal, a.frame);
    BeforeQueue(a, input);
    BeforeMarks(a, input);
  }

  lemma BeforeMarks(a: Apu, input: Input)
    ensures BeforeTick(a, input).marks.tickQuarter == a.marks.tickQuarter
    ensures BeforeTick(a, input).marks.check1 == a.marks.check1 && BeforeTick(a, input).marks.check2 == a.marks.check2
  {
    hide BitAt, WroteIfDue;
    WroteIs(BeforeWrite(a, input), input.timer);
  }

  /** The reset button: the sequencer starts over in the mode that was last written to $4017, and no interrupt is
      left. */
  lemma ResetStarts(pal: bool, a: Apu)
    requires FrameOk(pal, a.frame)
    ensures var r := Done(pal, a, SoftReset);
      && r.frame == Frame(if BitAt(a.queue.seqVal, 7) then 1 else 0, 0, 0, a.frame.quarters, a.frame.halves)
      && !r.irq.raised && !r.irq.flag && !r.irq.dmc && !r.out.pending && r.irq.inhibit == BitAt(a.queue.seqVal, 6)
  {
    hide BitAt;
  }

  // ---- writes while lengths are clocked ----

  /** The two counts the length counters are clocked after, as the APU keeps them. */
  predicate ChecksOk(pal: bool, a: Apu) {
    && a.frame.mode <= 1
    && a.marks.check1 == (if pal then 16627 else 14913) - 1
    && a.marks.check2 == (if a.frame.mode == 0 then (if pal then 33254 else 29830)
                          else (if pal then 41566 else 37282)) - 2
  }

  lemma ChecksKept(pal: bool, a: Apu, e: Event)
    requires FrameOk(pal, a.frame) && ChecksOk(pal, a)
    ensures ChecksOk(pal, Done(pal, a, e))
  {
    hide RunOneLast, BitAt;
    if e.Cycle? {
      StepInTable(pal, a.frame);
      ChecksCycle(pal, a, e.input);
    }
  }

  lemma ChecksCycle(pal: bool, a: Apu, input: Input)
    requires FrameOk(pal, a.frame) && ChecksOk(pal, a)
    ensures a.frame.mode <= 1 && a.frame.step < 4 + a.frame.mode
    ensures ChecksOk(pal, RunOneLast(pal, a, input))
  {
    hide Ticked, IrqTicked, Clocks, SeqEvent, BeforeTick, BitAt, FrameOk;
    StepInTable(pal, a.frame);
    TickedMode(pal, a.frame);
    if !Quiescent(pal, a) {
      BeforeQueue(a, input);
      BeforeMarks(a, input);
    }
  }

  lemma TickedMode(pal: bool, f: Frame)
    requires f.mode <= 1 && f.step < 4 + f.mode
    ensures Ticked(pal, f).mode == f.mode
  {
  }

  lemma {:induction false} ChecksHold(pal: bool, a: Apu, events: seq<Event>)
    requires FrameOk(pal, a.frame) && ChecksOk(pal, a)
    ensures ChecksOk(pal, Run(pal, a, events))
    decreases |events|
  {
    hide FrameOk, Done, ChecksOk;
    if events != [] {
      DoneOk(pal, a, events[0]);
      ChecksKept(pal, a, events[0]);
      ChecksHold(pal, Done(pal, a, events[0]), events[1..]);
    }
  }

  lemma HalfIs(pal: bool, f: Frame, check1: nat, check2: nat)
    requires FrameOk(pal, f)
    requires check1 == (if pal then 16627 else 14913) - 1
    requires check2 == (if f.mode == 0 then (if pal then 33254 else 29830) else (if pal then 41566 else 37282)) - 2
    ensures (f.counter == check1 || f.counter == check2) <==> Ticked(pal, f).halves > f.halves
  {
    if f.step == 0 {} else if f.step == 1 {} else if f.step == 2 {} else if f.step == 3 {} else {}
  }

  /** Over every run from power-on, a cycle that takes writes knows beforehand whether the length counters are clocked
      at its end: the counts it compares with name exactly the cycles in which they are. */
  lemma LengthClockForeseen(pal: bool, events: seq<Event>)
    ensures FrameOk(pal, PoweredOn(pal).frame)
    ensures var a := Run(pal, PoweredOn(pal), events);
      && a.frame.mode <= 1 && a.frame.step < 4 + a.frame.mode
      && (a.frame.counter == a.marks.check1 || a.frame.counter == a.marks.check2
          <==> Ticked(pal, a.frame).halves > a.frame.halves)
  {
    hide Run, Ticked, Lut, LastOf;
    StartOk(pal);
    StartChecks(pal);
    ChecksHold(pal, PoweredOn(pal), events);
    var a := Run(pal, PoweredOn(pal), events);
    StepInTable(pal, a.frame);
    HalfIs(pal, a.frame, a.marks.check1, a.marks.check2);
  }

  lemma StartChecks(pal: bool)
    ensures ChecksOk(pal, PoweredOn(pal))
  {
  }
}
