/** The APU's frame sequencer as an object. */
module ApuUnit {
  import opened Bits
  import opened ApuSequencer

  class APU {
    const pal: bool

    var sequencerCounter: nat
    var sequencerStep: nat
    var sequencerMode: nat
    var irqInhibit: bool
    var irqAssert: nat
    var sequencerIrq: bool
    var irqFlag: bool
    var irqClearPending: bool
    var seqTick: nat
    var seqVal: Byte
    var dmcIrq: bool
    var dmcReloadCountdown: nat
    var irqPending: bool
    var irqApu: bool
    var joypadStrobed: bool
    var pendingReg: int
    var pendingVal: Byte
    var lenClockActive: bool
    var doingTickQuarter: bool
    var check1: nat
    var check2: nat

    // how often the envelopes and the length counters were clocked
    ghost var quarters: nat
    ghost var halves: nat

    ghost function FrameView(): Frame
      reads `sequencerMode, `sequencerCounter, `sequencerStep, `quarters, `halves
    {
      Frame(sequencerMode, sequencerCounter, sequencerStep, quarters, halves)
    }

    ghost function IrqView(): Irq
      reads `irqInhibit, `irqAssert, `sequencerIrq, `irqFlag, `irqClearPending, `dmcIrq
    {
      Irq(irqInhibit, irqAssert, sequencerIrq, irqFlag, irqClearPending, dmcIrq)
    }

    ghost function QueueView(): Queue
      reads `seqTick, `seqVal, `pendingReg, `pendingVal, `joypadStrobed, `dmcReloadCountdown
    {
      Queue(seqTick, seqVal, pendingReg, pendingVal, joypadStrobed, dmcReloadCountdown)
    }

    ghost function MarksView(): Marks
      reads `lenClockActive, `doingTickQuarter, `check1, `check2
    {
      Marks(lenClockActive, doingTickQuarter, check1, check2)
    }

    ghost function View(): Apu
      reads this
    {
      Apu(FrameView(), IrqView(), Out(irqPending, irqApu), QueueView(), MarksView())
    }

    ghost predicate Valid()
      reads this
    {
      FrameOk(pal, FrameView())
    }

    constructor (pal: bool)
      ensures this.pal == pal && View() == PoweredOn(pal)
      ensures Valid() && InSync(View())
    {
      this.pal := pal;
      sequencerCounter, sequencerStep, sequencerMode := 2, 0, 0;
      irqInhibit, irqAssert, sequencerIrq, irqFlag, irqClearPending := false, 0, false, false, false;
      seqTick, seqVal, pendingReg, pendingVal := 0, 0, -1, 0;
      dmcIrq, dmcReloadCountdown, irqPending, irqApu, joypadStrobed := false, 0, false, false, false;
      lenClockActive, doingTickQuarter := false, false;
      check1, check2 := Lut(pal, 0)[1] - 1, LastOf(pal, 0) - 2;
      quarters, halves := 0, 0;
    }

    method QuarterFrame()
      modifies this`doingTickQuarter, this`quarters
      ensures doingTickQuarter && quarters == old(quarters) + 1
    {
      doingTickQuarter := true;
      quarters := quarters + 1;
    }

    method HalfFrame()
      modifies this`doingTickQuarter, this`halves
      ensures doingTickQuarter && halves == old(halves) + 1
    {
      doingTickQuarter := true;
      halves := halves + 1;
    }

    method SequencerCheck()
      requires sequencerMode <= 1 && sequencerStep < 4 + sequencerMode
      modifies this`sequencerCounter, this`sequencerStep, this`irqFlag, this`doingTickQuarter, this`quarters,
        this`halves
      ensures FrameView() == Stepped(old(FrameView()))
      ensures irqFlag == (old(irqFlag) || (sequencerMode == 0 && old(sequencerStep) == 3 && !irqInhibit))
      ensures doingTickQuarter == (old(doingTickQuarter) || Clocks(old(FrameView()), FrameView()))
    {
      var quarter, half, reset;
      if sequencerMode == 0 {
        quarter, half, reset := true, sequencerStep == 1, sequencerStep == 3;
        if reset && !irqInhibit {
          irqFlag := true;
        }
      } else {
        quarter, half, reset := sequencerStep != 3, sequencerStep == 1, sequencerStep == 4;
      }
      if reset {
        sequencerCounter := 0;
        sequencerStep := 0;
      } else {
        sequencerStep := sequencerStep + 1;
      }
      if quarter {
        QuarterFrame();
      }
      if half {
        HalfFrame();
      }
    }

    method Tick()
      requires sequencerMode <= 1 && sequencerStep < 4 + sequencerMode
      modifies this`sequencerCounter, this`sequencerStep, this`irqFlag, this`irqAssert, this`doingTickQuarter,
        this`quarters, this`halves
      ensures View() == SequencerTick(pal, old(View()))
    {
      hide Stepped, Counted, LastOf, Lut, IrqTicked, Ticked, Clocks, QueueView;
      ghost var f, i := FrameView(), IrqView();
      CountedSame(pal, f);
      CountUp();
      TickedIs(pal, f, i);
      CheckIfDue();
    }

    method CheckIfDue()
      requires sequencerMode <= 1 && sequencerStep < 4 + sequencerMode
      modifies this`sequencerCounter, this`sequencerStep, this`irqFlag, this`doingTickQuarter, this`quarters,
        this`halves
      ensures var f := old(FrameView());
        var due := Lut(pal, f.mode)[f.step] == f.counter;
        && FrameView() == (if due then Stepped(f) else f)
        && irqFlag == (old(irqFlag) || (due && f.mode == 0 && f.step == 3 && !irqInhibit))
        && doingTickQuarter == (old(doingTickQuarter) || (due && Clocks(f, Stepped(f))))
    {
      hide Stepped, Lut, Clocks;
      if Lut(pal, sequencerMode)[sequencerStep] != sequencerCounter {
        return;
      }
      SequencerCheck();
    }

    /** The counter, the half frame before the last step, and the interrupt on its way. */
    method CountUp()
      requires sequencerMode <= 1
      modifies this`sequencerCounter, this`irqFlag, this`irqAssert, this`doingTickQuarter, this`halves
      ensures FrameView() == Counted(pal, old(FrameView()))
      ensures doingTickQuarter == (old(doingTickQuarter) || halves != old(halves))
      ensures var quiet := sequencerMode != 0 || irqInhibit;
        && irqAssert == (if !quiet && sequencerCounter == LastOf(pal, 0) - 1 then 2 else old(irqAssert))
        && irqFlag == (old(irqFlag) || (!quiet && (sequencerCounter == LastOf(pal, 0) - 1
                                                   || sequencerCounter == LastOf(pal, 0) - 2)))
    {
      hide Lut;
      var last: int := LastOf(pal, sequencerMode);
      sequencerCounter := sequencerCounter + 1;
      if sequencerMode == 0 && sequencerCounter == last - 1 {
        if !irqInhibit {
          irqAssert := 2;
          irqFlag := true;
        }
        HalfFrame();
      }
      if sequencerMode == 0 && sequencerCounter == last - 2 && !irqInhibit {
        irqFlag := true;
      }
      if sequencerMode == 1 && sequencerCounter == last - 1 {
        HalfFrame();
      }
    }

    method WriteTick()
      modifies this`seqTick, this`sequencerMode, this`irqInhibit, this`irqFlag, this`sequencerCounter,
        this`sequencerStep, this`check2, this`doingTickQuarter, this`quarters, this`halves
      ensures View() == SequencerWriteTick(pal, old(View()))
    {
      hide LastOf, Restarted, IrqRestarted;
      if seqTick > 0 {
        seqTick := seqTick - 1;
        if seqTick == 0 {
          Restart();
        }
      }
    }

    /** A write to $4017 takes effect. */
    method Restart()
      modifies this`sequencerMode, this`irqInhibit, this`irqFlag, this`sequencerCounter,
        this`sequencerStep, this`check2, this`doingTickQuarter, this`quarters, this`halves
      ensures FrameView() == Restarted(old(FrameView()), seqVal, old(doingTickQuarter))
      ensures IrqView() == IrqRestarted(old(IrqView()), seqVal)
      ensures doingTickQuarter == (old(doingTickQuarter) || sequencerMode == 1)
      ensures sequencerMode <= 1 && check2 == LastOf(pal, sequencerMode) - 2
    {
      hide BitAt;
      RestartClocks();
      Inhibit();
      sequencerCounter := 0;
      sequencerStep := 0;
      check2 := LastOf(pal, sequencerMode) - 2;
    }

    /** The mode, and the clocks that come with the five-step mode. */
    method RestartClocks()
      modifies this`sequencerMode, this`doingTickQuarter, this`quarters, this`halves
      ensures sequencerMode == if BitAt(seqVal, 7) then 1 else 0
      ensures var clocks := if sequencerMode == 1 && !old(doingTickQuarter) then 1 else 0;
        quarters == old(quarters) + clocks && halves == old(halves) + clocks
      ensures doingTickQuarter == (old(doingTickQuarter) || sequencerMode == 1)
    {
      hide BitAt;
      sequencerMode := if BitAt(seqVal, 7) then 1 else 0;
      if sequencerMode == 1 && !doingTickQuarter {
        QuarterFrame();
        HalfFrame();
      }
    }

    /** Bit 6 of the value written to $4017 inhibits the interrupt and clears its flag. */
    method Inhibit()
      modifies this`irqInhibit, this`irqFlag
      ensures IrqView() == IrqRestarted(old(IrqView()), seqVal)
    {
      hide BitAt;
      irqInhibit := BitAt(seqVal, 6);
      if irqInhibit {
        irqFlag := false;
      }
    }

    method SyncIRQ()
      modifies this`irqPending
      ensures View() == Synced(old(View()))
    {
      irqPending := sequencerIrq || dmcIrq;
    }

    method DoWrite(timer: nat)
      modifies this`dmcIrq, this`irqPending, this`seqTick, this`seqVal
      ensures View() == Written(old(View()), timer)
    {
      hide BitAt;
      if pendingReg == 0x4010 {
        if !BitAt(pendingVal, 7) {
          dmcIrq := false;
        }
        SyncIRQ();
      } else if pendingReg == 0x4015 {
        dmcIrq := false;
        SyncIRQ();
      } else if pendingReg == 0x4017 {
        seqTick := if timer % 2 == 0 then 3 else 4;
        seqVal := pendingVal;
      }
    }

    method StrobeOrClear(timer: nat)
      modifies this`joypadStrobed, this`irqClearPending, this`irqFlag
      ensures View() == StrobedOrCleared(old(View()), timer)
    {
      if timer % 2 == 1 {
        joypadStrobed := false;
      } else if irqClearPending {
        irqClearPending := false;
        irqFlag := false;
      }
    }

    method Reload(raises: bool)
      modifies this`dmcReloadCountdown, this`dmcIrq
      ensures View() == Reloaded(old(View()), raises)
    {
      if dmcReloadCountdown > 0 {
        dmcReloadCountdown := dmcReloadCountdown - 1;
        if dmcReloadCountdown == 0 && raises {
          dmcIrq := true;
        }
      }
    }

    method WriteIfDue(timer: nat)
      modifies this`dmcIrq, this`irqPending, this`seqTick, this`seqVal, this`pendingReg
      ensures View() == WroteIfDue(old(View()), timer)
    {
      hide Written, WritesAtOnce;
      if pendingReg != -1 {
        if WritesAtOnce(pendingReg) || timer % 2 == 0 {
          DoWrite(timer);
          pendingReg := -1;
        }
      }
    }

    /** The body up to the sequencer. */
    method Prepare(input: Input)
      modifies this`joypadStrobed, this`irqClearPending, this`irqFlag, this`lenClockActive, this`dmcReloadCountdown,
        this`dmcIrq, this`irqPending, this`seqTick, this`seqVal, this`pendingReg
      ensures View() == BeforeTick(old(View()), input)
    {
      hide StrobedOrCleared, Reloaded, WroteIfDue;
      StrobeOrClear(input.timer);
      if sequencerCounter == check1 || sequencerCounter == check2 {
        lenClockActive := true;
      }
      Reload(input.raises);
      WriteIfDue(input.timer);
      lenClockActive := false;
    }

    method Assert()
      modifies this`irqAssert, this`sequencerIrq
      ensures IrqView() == Asserted(old(IrqView()))
    {
      if irqAssert > 0 {
        irqAssert := irqAssert - 1;
        if irqAssert == 0 {
          sequencerIrq := true;
        }
      }
    }

    /** The end of an APU cycle, with the short cut. */
    method RunOneLast(input: Input)
      requires Valid()
      modifies this
      ensures View() == ApuSequencer.RunOneLast(pal, old(View()), input) && Valid()
    {
      hide FullBody, FrameOk, Quiescent;
      DoneOk(pal, View(), Cycle(input));
      StepInTable(pal, FrameView());
      if IsQuiescent() {
        sequencerCounter := sequencerCounter + 1;
      } else {
        Body(input);
      }
    }

    method Body(input: Input)
      requires sequencerMode <= 1 && sequencerStep < 4 + sequencerMode
      modifies this
      ensures View() == FullBody(pal, old(View()), input)
    {
      hide BeforeClear;
      BodyToClear(input);
      if !irqFlag {
        sequencerIrq := false;
      }
    }

    method BodyToClear(input: Input)
      requires sequencerMode <= 1 && sequencerStep < 4 + sequencerMode
      modifies this
      ensures View() == BeforeClear(pal, old(View()), input)
    {
      hide BeforeTick, SequencerTick, SequencerWriteTick, Asserted, Unmarked;
      Sequence(input);
      Assert();
      SyncIRQ();
      irqApu := irqPending;
    }

    method Sequence(input: Input)
      requires sequencerMode <= 1 && sequencerStep < 4 + sequencerMode
      modifies this
      ensures View() == Unmarked(SequencerWriteTick(pal, SequencerTick(pal, BeforeTick(old(View()), input))))
    {
      hide BeforeTick, SequencerTick, SequencerWriteTick;
      Prepare(input);
      Tick();
      WriteTick();
      doingTickQuarter := false;
    }

    predicate IsQuiescent()
      reads this
      requires sequencerMode <= 1 && sequencerStep < 4 + sequencerMode
      ensures IsQuiescent() == Quiescent(pal, View())
    {
      var nc := sequencerCounter + 1;
      var last := Lut(pal, sequencerMode)[3 + sequencerMode];
      var seqEvent :=
        if sequencerMode == 0 then nc == last - 1 || nc == last - 2 || nc == Lut(pal, 0)[sequencerStep]
        else nc == last - 1 || nc == Lut(pal, 1)[sequencerStep];
      && !seqEvent && !joypadStrobed && !irqClearPending && dmcReloadCountdown == 0
      && pendingReg == -1 && seqTick == 0 && irqAssert == 0 && (!sequencerIrq || irqFlag)
    }

    method NESSoftReset()
      requires Valid()
      modifies this`sequencerIrq, this`irqFlag, this`dmcIrq, this`irqPending, this`sequencerMode, this`irqInhibit,
        this`sequencerCounter, this`sequencerStep, this`check1, this`check2
      ensures View() == Reset(pal, old(View()))
      ensures Valid()
    {
      hide IrqRestarted, LastOf, FrameOk, BitAt, Lut, FrameReset, FrameView, IrqView, QueueView, MarksView;
      StartOk(pal, View().frame, View().queue.seqVal);
      ClearIrqs();
      ResetMode();
      ResetChecks();
    }

    method ClearIrqs()
      modifies this`sequencerIrq, this`irqFlag, this`dmcIrq, this`irqPending
      ensures var i := old(View()).irq;
        View() == old(View()).(irq := Irq(i.inhibit, i.count, false, false, i.clearPending, false),
                               out := Out(false, old(View()).out.console))
    {
      sequencerIrq := false;
      irqFlag := false;
      dmcIrq := false;
      SyncIRQ();
    }

    method ResetChecks()
      requires View().frame.mode <= 1
      modifies this`check1, this`check2
      ensures View() == old(View()).(marks := old(View()).marks.(check1 := Lut(pal, 0)[1] - 1,
                                                                 check2 := LastOf(pal, old(View()).frame.mode) - 2))
    {
      check1 := Lut(pal, 0)[1] - 1;
      check2 := LastOf(pal, sequencerMode) - 2;
    }

    /** As if the value last written to $4017 were written again. */
    method ResetMode()
      modifies this`sequencerMode, this`irqInhibit, this`irqFlag, this`sequencerCounter, this`sequencerStep
      ensures var a := old(View());
        View() == a.(frame := FrameReset(a.frame, a.queue.seqVal), irq := IrqRestarted(a.irq, a.queue.seqVal))
    {
      hide BitAt, IrqView, IrqRestarted, MarksView;
      sequencerMode := if BitAt(seqVal, 7) then 1 else 0;
      Inhibit();
      sequencerCounter := 0;
      sequencerStep := 0;
    }
  }

  lemma StartOk(pal: bool, f: Frame, val: Byte)
    ensures FrameOk(pal, FrameReset(f, val))
  {
  }

  /** Counting leaves the step and the mode alone. */
  lemma CountedSame(pal: bool, f: Frame)
    requires f.mode <= 1
    ensures var g := Counted(pal, f);
      g.mode == f.mode && g.step == f.step && g.quarters == f.quarters && g.halves >= f.halves
      && g.counter == f.counter + 1
  {
  }

  /** A tick: the count, and the step if it is reached. */
  lemma TickedIs(pal: bool, f: Frame, i: Irq)
    requires f.mode <= 1 && f.step < 4 + f.mode
    ensures var g := Counted(pal, f);
      var due := Lut(pal, f.mode)[f.step] == f.counter + 1;
      var quiet := f.mode != 0 || i.inhibit;
      var near := f.counter + 1 == LastOf(pal, 0) - 1;
      && Ticked(pal, f) == (if due then Stepped(g) else g)
      && Clocks(f, Ticked(pal, f)) == (g.halves != f.halves || (due && Clocks(g, Stepped(g))))
      && IrqTicked(pal, i, f) ==
           i.(count := if !quiet && near then 2 else i.count,
              flag := i.flag || (!quiet && (near || f.counter + 1 == LastOf(pal, 0) - 2 || (f.step == 3 && due))))
  {
  }
}
