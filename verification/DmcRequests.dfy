/** How a fetch for the DMC begins: what asks for one, when it starts counting, and the two glitches. */
module DmcRequests {
  import opened Wrappers
  import opened Bits
  import opened Mos6502
  import opened Dma

  /** The output unit empties the sample buffer in this cycle. */
  predicate Empties(d: Dmc) { d.timer == 1 && d.bits == 0 }

  /** In this cycle the buffer is empty, there is something to fetch, and no fetch is on its way. */
  predicate Asks(d: Dmc) {
    (!d.filled || Empties(d)) && (d.length > 0 || d.glitch2) && d.countdown == -1 && d.delay == 0
  }

  lemma TickIs(d: Dmc)
    requires d.timer >= 1
    ensures Ticked(d) == d.(timer := if d.timer == 1 then d.reload else d.timer - 1, justReloaded := d.timer == 1,
                            bits := if d.timer > 1 then d.bits else if d.bits == 0 then 7 else d.bits - 1,
                            filled := d.filled && !Empties(d))
  {
    if d.timer == 1 {} else {}
  }

  lemma AsksIs(d: Dmc)
    requires d.timer >= 1
    ensures Asks(d) == Wants(Ticked(d))
  {
    hide Ticked;
    TickIs(d);
  }

  /** A cycle of the unit: the timer and the output unit go on; and if a fetch is asked for, the glitch fills the buffer
      without one, a register write has it wait two or three cycles until the timer is even, the other glitch starts one
      that is cancelled, and otherwise it starts counting from three. */
  predicate Requests(d: Dmc, r: Dmc) {
    && (d.glitch ==> r.filled && !r.glitch && r.countdown == -1 && r.delay == 0)
    && (!d.glitch && d.callFromWrite ==>
          !r.filled && r.countdown == -1 && r.delay == (if r.timer % 2 == 0 then 2 else 1))
    && (!d.glitch && !d.callFromWrite && d.glitch2 ==> !r.filled && r.countdown == -2 && r.glitch2End)
    && (!d.glitch && !d.callFromWrite && !d.glitch2 ==> !r.filled && r.countdown == 3 && r.rdyCheck == 2)
  }

  lemma UnitRequests(d: Dmc)
    requires d.timer >= 1 && Asks(d) && !d.glitch2End
    ensures Requests(d, RunDmc(d))
    ensures StartsNow(Ticked(d)) <==> !d.glitch && !d.callFromWrite
    ensures d.glitch || d.callFromWrite || !d.glitch2 ==> !RunDmc(d).glitch2End
  {
    hide Ticked;
    TickIs(d);
    if d.glitch {} else if d.callFromWrite {} else if d.glitch2 {} else {}
  }

  /** With nothing asked for, nothing starts; and a fetch that waits for its time counts down to its start. */
  predicate Waiting(d: Dmc, r: Dmc) {
    && !r.glitch2End && r.glitch == d.glitch
    && (d.delay == 0 ==> r.countdown == d.countdown && r.delay == 0 && r.callFromWrite == d.callFromWrite)
    && (d.delay == 1 ==> r.countdown == 3 && r.rdyCheck == 2 && r.delay == 0 && !r.callFromWrite)
    && (d.delay > 1 ==> r.countdown == d.countdown && r.delay == d.delay - 1 && r.callFromWrite == d.callFromWrite)
  }

  lemma UnitWaits(d: Dmc)
    requires d.timer >= 1 && !Asks(d) && !d.glitch2End
    ensures Waiting(d, RunDmc(d)) && !StartsNow(Ticked(d))
  {
    hide Ticked;
    TickIs(d);
    AsksIs(d);
  }

  // ---- on the console ----

  /** What a cycle of the console leaves of the unit: the registers of the APU have the last word on four fields. */
  lemma UnitAfter(n: Nes, input: Input)
    requires CpuInv(n.cpu)
    ensures var r := RunDmc(DmcStepped(n).dmc);
      RunCpuOne(n, input).nes.dmc
      == (if r.glitch2End then Cancelled(r) else r).(reload := input.apu.reload, length := input.apu.length,
                                                     glitch2 := input.apu.glitch2,
                                                     callFromWrite := input.apu.callFromWrite)
    ensures RunCpuOne(n, input).nes.dmcExec
         == ((DmcStepped(n).dmcExec || StartsNow(Ticked(DmcStepped(n).dmc))) && !RunDmc(DmcStepped(n).dmc).glitch2End)
  {
    hide *;
    CallIs(n, input);
    var m := BeforeCpu(n, input);
    BeforeUnit(n, input);
    var o := Executed(m.cpu, input.choice);
    EndUnit(m.(cpu := o.cpu), o.wrote, input.stored, input.apu);
  }

  lemma BeforeUnit(n: Nes, input: Input)
    ensures var s, m := DmcStepped(n), BeforeCpu(n, input);
      var r := RunDmc(s.dmc);
      && m.dmc == (if r.glitch2End then Cancelled(r) else r)
      && m.dmcExec == ((s.dmcExec || StartsNow(Ticked(s.dmc))) && !r.glitch2End)
  {
    hide OamStepped, RunDmc, Ticked, StartsNow, CountedDown, SampleFetched, Cancelled;
    SameCount(n, OamStepped(n, input.answer));
    if n.dmc.countdown <= 0 {} else {}
  }

  lemma EndUnit(n: Nes, wrote: Option<nat>, value: Byte, apu: Apu)
    ensures var next := Ended(Stored(n, wrote, value), apu);
      && next.dmc == n.dmc.(reload := apu.reload, length := apu.length, glitch2 := apu.glitch2,
                            callFromWrite := apu.callFromWrite)
      && next.dmcExec == n.dmcExec
  {
    if wrote == Some(OAM_DMA) {} else {}
  }

  lemma NoFetch(n: Nes)
    requires n.dmc.countdown <= 0
    ensures DmcStepped(n).dmc == n.dmc && DmcStepped(n).dmcExec == n.dmcExec && DmcStepped(n).cpu == n.cpu
  {
  }

  lemma IdleFacts(n: Nes)
    requires NesInv(n) && n.dmc.countdown == -1
    ensures CpuInv(n.cpu) && !n.dmcExec && n.dmc.timer >= 1 && !n.dmc.glitch2End
  {
    hide CpuInv, OamInv, IsRate;
  }

  /** A cycle in which a fetch is asked for. The glitch fills the buffer and is used up, without a fetch. A register
      write has the fetch wait until the timer is even. The other glitch pulls RDY low for this cycle only. Otherwise
      the fetch begins, with RDY low and three to count. */
  lemma RequestCycle(n: Nes, input: Input)
    requires NesInv(n) && InputOk(input) && Asks(n.dmc)
    ensures CpuInv(n.cpu)
    ensures var d, next := n.dmc, RunCpuOne(n, input).nes;
      && (d.glitch ==> next.dmc.filled && !next.dmc.glitch && next.dmc.countdown == -1 && !next.dmcExec)
      && (!d.glitch && d.callFromWrite ==>
            !next.dmc.filled && next.dmc.countdown == -1 && !next.dmcExec
            && next.dmc.delay == (if next.dmc.timer % 2 == 0 then 2 else 1))
      && (!d.glitch && !d.callFromWrite && d.glitch2 ==>
            !next.dmc.filled && next.dmc.countdown == -1 && !next.dmcExec && !next.dmc.glitch2End)
      && (!d.glitch && !d.callFromWrite && !d.glitch2 ==>
            !next.dmc.filled && next.dmc.countdown == 3 && next.dmcExec && !next.cpu.rdy)
  {
    hide CpuInv, NesInv, InputOk, RunCpuOne, RunDmc, Ticked, StartsNow, DmcStepped;
    IdleFacts(n);
    NoFetch(n);
    UnitRequests(n.dmc);
    UnitAfter(n, input);
    Released(n, input);
  }

  /** The glitch that is cancelled leaves no trace but the cycle it takes: the CPU is halted in it, unless it writes. */
  lemma CancelledFetch(n: Nes, input: Input)
    requires NesInv(n) && Asks(n.dmc) && !n.dmc.glitch && !n.dmc.callFromWrite && n.dmc.glitch2
    ensures InRow(n.cpu)
    ensures DmcRan(n).dmc.countdown == -1 && !DmcRan(n).dmc.glitch2 && !DmcRan(n).dmc.glitch2End
    ensures CpuInv(n.cpu) && RunCpuOne(n, input).nes.cpu.rdyFreeze == (WritesAhead(n.cpu) == 0)
  {
    hide CpuInv, NesInv, RunCpuOne, RunDmc, Ticked, StartsNow, DmcStepped, BeforeCpu, Executed, WritesAhead, InRow;
    IdleFacts(n);
    UnitRequests(n.dmc);
    CpuFacts(n, input);
    EndLines(n, input);
    LowBefore(n, input);
  }

  lemma LowBefore(n: Nes, input: Input)
    requires n.dmc.countdown <= 0 && StartsNow(Ticked(n.dmc))
    ensures !BeforeCpu(n, input).cpu.rdy
  {
    hide StartsNow, Ticked, RunDmc, OamStepped;
  }

  /** A cycle in which none is: a fetch that a register write asked for starts counting when its wait is over, with RDY
      still high; and nothing else starts. */
  lemma WaitCycle(n: Nes, input: Input)
    requires NesInv(n) && InputOk(input) && !Asks(n.dmc) && n.dmc.countdown == -1
    ensures CpuInv(n.cpu)
    ensures var next := RunCpuOne(n, input).nes;
      && next.dmc.countdown == (if n.dmc.delay == 1 then 3 else -1) && !next.dmcExec
      && next.dmc.delay == (if n.dmc.delay > 0 then n.dmc.delay - 1 else 0)
      && (n.dmc.delay == 1 ==> next.dmc.timer % 2 == 0) && next.dmc.glitch == n.dmc.glitch
  {
    hide CpuInv, NesInv, InputOk, RunCpuOne, RunDmc, Ticked, StartsNow, DmcStepped;
    IdleFacts(n);
    NoFetch(n);
    UnitWaits(n.dmc);
    UnitAfter(n, input);
    if n.dmc.delay == 1 { WriteStartsEven(n, input); }
  }

  /** The timer and the output unit go on in every cycle, whatever the two DMAs do. */
  lemma TimerCycle(n: Nes, input: Input)
    requires NesInv(n)
    ensures CpuInv(n.cpu)
    ensures var d, next := n.dmc, RunCpuOne(n, input).nes.dmc;
      && next.timer == (if d.timer == 1 then d.reload else d.timer - 1) && next.justReloaded == (d.timer == 1)
      && next.bits == (if d.timer > 1 then d.bits else if d.bits == 0 then 7 else d.bits - 1)
      && next.reload == input.apu.reload && next.length == input.apu.length
      && next.glitch2 == input.apu.glitch2 && next.callFromWrite == input.apu.callFromWrite
  {
    hide NesInv, CpuInv, RunCpuOne, RunDmc, DmcStepped, Cancelled;
    InvFacts(n);
    TimerPositive(n);
    UnitAfter(n, input);
    SteppedTimer(n);
    RunTimer(DmcStepped(n).dmc);
    SameTimer(RunDmc(DmcStepped(n).dmc));
  }

  lemma TimerPositive(n: Nes)
    requires NesInv(n)
    ensures n.dmc.timer >= 1
  {
    hide CpuInv, OamInv, IsRate;
  }

  lemma SteppedTimer(n: Nes)
    ensures var d := DmcStepped(n).dmc; d.timer == n.dmc.timer && d.reload == n.dmc.reload && d.bits == n.dmc.bits
  {
    hide CountedDown;
  }

  lemma RunTimer(d: Dmc)
    requires d.timer >= 1
    ensures var r := RunDmc(d);
      && r.timer == (if d.timer == 1 then d.reload else d.timer - 1) && r.justReloaded == (d.timer == 1)
      && r.bits == (if d.timer > 1 then d.bits else if d.bits == 0 then 7 else d.bits - 1)
  {
    hide Ticked;
    TickIs(d);
  }

  lemma SameTimer(d: Dmc)
    ensures var c := Cancelled(d); c.timer == d.timer && c.bits == d.bits && c.justReloaded == d.justReloaded
  {
  }

  /** The fetch itself: it fills the buffer if there is something to fetch, and leaves a glitch if it comes two
      cycles, or with a single byte left four cycles, before the output unit empties the buffer. */
  lemma FetchGlitches(n: Nes)
    requires NesInv(n) && n.dmc.countdown == 1
    ensures var d, r := n.dmc, DmcStepped(n);
      && r.dmc.countdown == -1 && !r.dmcExec && r.dmc.filled == (d.filled || d.length > 0)
      && r.dmc.glitch == (d.glitch || (d.timer == 2 && d.bits == 0 && d.length > 0))
      && r.dmc.glitch2 == (d.glitch2 || (d.timer == 4 && d.bits == 0 && d.length == 1))
  {
    hide CpuInv, OamInv, IsRate;
    LastCycle(n);
  }
}
