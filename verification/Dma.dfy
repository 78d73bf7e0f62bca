/** The two DMA units and how they share the RDY line of the CPU: one CPU cycle of the console. */
module Dma {
  import opened Wrappers
  import opened Bits
  import opened Mos6502

  // ---- the DMC's timer, sample buffer and requests ----

  /** `countdown` is -1 when no fetch is under way; `length` and `filled` say what there is to fetch. */
  datatype Dmc = Dmc(
    timer: nat, reload: nat, bits: nat, justReloaded: bool,
    delay: nat, filled: bool, length: nat,
    glitch: bool, glitch2: bool, glitch2End: bool,
    countdown: int, rdyCheck: int, callFromWrite: bool)

  /** The output unit is clocked: every eighth time the sample buffer is emptied. */
  function Clocked(d: Dmc): Dmc {
    if d.bits == 0 then d.(bits := 7, filled := false) else d.(bits := d.bits - 1)
  }

  function Ticked(d: Dmc): Dmc {
    var timer := if d.timer > 0 then d.timer - 1 else 0;
    if timer == 0 then Clocked(d.(timer := d.reload, justReloaded := false)).(justReloaded := true)
    else d.(timer := timer, justReloaded := false)
  }

  /** An empty buffer, something to fetch, and no fetch under way. */
  predicate Wants(d: Dmc) {
    !d.filled && (d.length > 0 || d.glitch2) && d.countdown == -1 && d.delay == 0
  }

  /** A fetch that starts at once and pulls RDY low. */
  predicate StartsNow(d: Dmc) { Wants(d) && !d.glitch && !d.callFromWrite }

  function Requested(d: Dmc): Dmc {
    if !Wants(d) then d
    else if d.glitch then d.(filled := true, glitch := false)
    else if d.callFromWrite then d.(delay := if d.timer % 2 == 0 then 3 else 2)
    else if d.glitch2 then d.(countdown := -2, rdyCheck := -2, glitch2End := true)
    else d.(countdown := 3, rdyCheck := 2)
  }

  function Delayed(d: Dmc): Dmc {
    if d.delay == 0 then d
    else if d.delay == 1 then d.(delay := 0, countdown := 3, rdyCheck := 2, callFromWrite := false)
    else d.(delay := d.delay - 1)
  }

  /** One cycle of the DMC unit. */
  function RunDmc(d: Dmc): Dmc { Delayed(Requested(Ticked(d))) }

  predicate Quiescent(d: Dmc) {
    d.timer > 1 && d.delay == 0 && (d.filled || (d.length == 0 && !d.glitch2) || d.countdown != -1)
  }

  /** The short cut is exact: nothing starts, and only the timer moves. */
  lemma ShortCutExact(d: Dmc)
    requires Quiescent(d)
    ensures RunDmc(d) == d.(timer := d.timer - 1, justReloaded := false) && !StartsNow(Ticked(d))
  {
  }

  // ---- the console ----

  datatype Oam = Oam(exec: bool, index: nat, addr: nat, byte: Byte, dead: nat)

  datatype Nes = Nes(cpu: Cpu, dmc: Dmc, oam: Oam, dmcExec: bool, realign: bool)

  /** What happens around a cycle: the levels of the interrupt lines, memory, the byte an OAM read answers,
      the value a store writes, and what the APU's registers leave of the DMC at the end of the cycle. */
  datatype Input = Input(irq: bool, nmi: bool, choice: Choice, answer: Byte, stored: Byte, apu: Apu)

  datatype Apu = Apu(reload: nat, length: nat, glitch2: bool, callFromWrite: bool)

  /** What the OAM DMA does on the bus, and whether the DMC's timer was even then. */
  datatype BusOp = OamRead(addr: nat, byte: Byte, even: bool) | OamWrite(addr: nat, byte: Byte, even: bool)

  const OAM_DATA := 0x2004
  const OAM_DMA := 0x4014
  const OAM_STEPS := 512

  /** The DMC fetch is in its last cycle, or it was in the cycle before. */
  predicate OamStalled(n: Nes) { n.dmc.countdown == 1 || n.realign }

  function OamOps(n: Nes, answer: Byte): seq<BusOp> {
    var even := n.dmc.timer % 2 == 0;
    if !n.oam.exec || OamStalled(n) || n.oam.dead > 0 then []
    else if n.oam.index % 2 == 0 then [OamRead(n.oam.addr, answer, even)]
    else [OamWrite(OAM_DATA, n.oam.byte, even)]
  }

  function OamStepped(n: Nes, answer: Byte): Oam {
    var oam := n.oam;
    if !oam.exec || OamStalled(n) then oam
    else if oam.dead > 0 then oam.(dead := oam.dead - 1)
    else
      var next := if oam.index % 2 == 0 then oam.(byte := answer, addr := (oam.addr + 1) % 0x10000) else oam;
      next.(index := oam.index + 1, exec := oam.index + 1 != OAM_STEPS)
  }

  /** The cycle in which the DMC reads its sample. */
  predicate Fetches(n: Nes) { CountedDown(n) == 0 && n.dmc.countdown > 0 }

  /** The countdown, held back while the CPU is still writing. */
  function CountedDown(n: Nes): int {
    var c := n.dmc.countdown;
    (if !n.cpu.rdy && !n.cpu.rdyFreeze && c == n.dmc.rdyCheck then c + 2 else c) - 1
  }

  function SampleFetched(d: Dmc): Dmc {
    d.(countdown := -1, filled := d.filled || d.length != 0,
       glitch := d.glitch || (d.timer == 2 && d.bits == 0 && d.length != 0),
       glitch2 := d.glitch2 || (d.timer == 4 && d.bits == 0 && d.length == 1))
  }

  function DmcStepped(n: Nes): Nes {
    if n.dmc.countdown <= 0 then n.(realign := false)
    else
      var dmc := if CountedDown(n) == 0 then SampleFetched(n.dmc) else n.dmc.(countdown := CountedDown(n));
      n.(dmc := dmc, dmcExec := CountedDown(n) != 0, realign := n.dmc.countdown == 1, cpu := n.cpu.(rdy := false))
  }

  function Cancelled(d: Dmc): Dmc { d.(countdown := -1, glitch2 := false, glitch2End := false) }

  /** The DMC unit runs; a fetch for a refill that was cancelled ends where it starts. */
  function DmcRan(n: Nes): Nes {
    var starts := StartsNow(Ticked(n.dmc));
    var dmc := RunDmc(n.dmc);
    var cancelled := dmc.glitch2End;
    n.(dmc := if cancelled then Cancelled(dmc) else dmc,
       dmcExec := (n.dmcExec || starts) && !cancelled,
       cpu := n.cpu.(rdy := n.cpu.rdy && !starts))
  }

  /** Everything before the CPU's own cycle. */
  function BeforeCpu(n: Nes, input: Input): Nes {
    var m := DmcRan(DmcStepped(n.(oam := OamStepped(n, input.answer), realign := false)));
    m.(cpu := m.cpu.(irq := input.irq, nmi := input.nmi))
  }

  /** A store to $4014 starts the OAM DMA, or starts it over. */
  function Stored(n: Nes, wrote: Option<nat>, value: Byte): Nes {
    if wrote != Some(OAM_DMA) then n
    else n.(oam := Oam(true, 0, value as int * 256, n.oam.byte, if n.dmc.timer % 2 == 0 then 2 else 1),
            cpu := n.cpu.(rdy := false))
  }

  /** The end of the cycle: what the APU's registers changed, and RDY is released when no DMA needs it. */
  function Ended(n: Nes, apu: Apu): Nes {
    n.(dmc := n.dmc.(reload := apu.reload, length := apu.length, glitch2 := apu.glitch2,
                     callFromWrite := apu.callFromWrite),
       cpu := n.cpu.(rdy := n.cpu.rdy || (!n.dmcExec && !n.oam.exec)))
  }

  /** A cycle: the state after it, the OAM DMA's bus operations, whether the DMC fetched, and the CPU's
      store. */
  datatype Call = Call(nes: Nes, ops: seq<BusOp>, fetched: bool, wrote: Option<nat>)

  function RunCpuOne(n: Nes, input: Input): Call
    requires CpuInv(n.cpu)
  {
    hide *;
    BeforeKeepsCpu(n, input);
    var m := BeforeCpu(n, input);
    CycleInv(m.cpu, input.choice);
    var o := Executed(m.cpu, input.choice);
    Call(Ended(Stored(m.(cpu := o.cpu), o.wrote, input.stored), input.apu),
         OamOps(n, input.answer), Fetches(n), o.wrote)
  }

  /** Only the lines of the CPU differ. */
  predicate LinesOnly(c: Cpu, d: Cpu) {
    d == c.(rdy := d.rdy, irq := d.irq, nmi := d.nmi)
  }

  lemma LinesOnlyInv(c: Cpu, d: Cpu)
    requires LinesOnly(c, d)
    ensures CpuInv(c) ==> CpuInv(d)
    ensures Parked(c) ==> Parked(d)
    ensures InRow(c) ==> InRow(d) && WritesAhead(c) == WritesAhead(d)
  {
    hide Microcode.KindOf, Microcode.Row;
    if Parked(c) { ParkedSame(c, d); }
    if InRow(c) { SamePlace(c, d); }
  }

  /** Before the CPU's cycle only its lines change. */
  lemma BeforeKeepsCpu(n: Nes, input: Input)
    ensures LinesOnly(n.cpu, BeforeCpu(n, input).cpu)
    ensures CpuInv(n.cpu) ==> CpuInv(BeforeCpu(n, input).cpu)
  {
    hide *;
    BeforeLines(n, input);
    LinesOnlyInv(n.cpu, BeforeCpu(n, input).cpu);
  }

  lemma BeforeIs(n: Nes, input: Input)
    ensures Fetches(n.(oam := OamStepped(n, input.answer), realign := false)) == Fetches(n)
    ensures var m := DmcRan(DmcStepped(n.(oam := OamStepped(n, input.answer), realign := false)));
      BeforeCpu(n, input) == m.(cpu := m.cpu.(irq := input.irq, nmi := input.nmi))
  {
    hide OamStepped, DmcStepped, DmcRan;
  }

  lemma BeforeLines(n: Nes, input: Input)
    ensures LinesOnly(n.cpu, BeforeCpu(n, input).cpu)
  {
    hide RunDmc, Ticked, StartsNow, CountedDown, SampleFetched, OamStepped;
    if n.dmc.countdown <= 0 {} else {}
  }

  // ---- the invariant ----

  /** The periods of the DMC's timer, NTSC and PAL: all even. */
  const DMC_RATES_NTSC := [428, 380, 340, 320, 286, 254, 226, 214, 190, 160, 142, 128, 106, 84, 72, 54]
  const DMC_RATES_PAL := [398, 354, 316, 298, 276, 236, 210, 198, 176, 148, 132, 118, 98, 78, 66, 50]

  predicate IsRate(reload: nat) { reload in DMC_RATES_NTSC || reload in DMC_RATES_PAL }

  lemma RatesEven(reload: nat)
    requires IsRate(reload)
    ensures reload % 2 == 0 && reload >= 50
  {
    if reload in DMC_RATES_NTSC { RatesEvenNtsc(reload); } else { RatesEvenPal(reload); }
  }

  lemma RatesEvenNtsc(reload: nat)
    requires reload in DMC_RATES_NTSC
    ensures reload % 2 == 0 && reload >= 50
  {
  }

  lemma RatesEvenPal(reload: nat)
    requires reload in DMC_RATES_PAL
    ensures reload % 2 == 0 && reload >= 50
  {
  }

  predicate DmcInv(d: Dmc) {
    && d.timer >= 1 && IsRate(d.reload)
    && (d.countdown == -1 || 1 <= d.countdown <= 3)
    && (d.countdown > 0 ==> d.delay == 0 && d.rdyCheck == 2)
    && d.delay <= 2 && !d.glitch2End && (d.delay > 0 ==> (d.delay + d.timer) % 2 == 0)
  }

  predicate OamInv(oam: Oam, timer: nat, realign: bool) {
    && oam.index < OAM_STEPS && oam.dead <= 2 && (oam.dead > 0 ==> oam.index == 0)
    && (oam.dead + oam.index + timer) % 2 == if realign then 1 else 0
  }

  /** Between cycles RDY is high just if neither DMA is under way. */
  predicate NesInv(n: Nes) {
    && CpuInv(n.cpu) && DmcInv(n.dmc) && (n.cpu.rdy <==> !n.oam.exec && !n.dmcExec)
    && (n.oam.exec ==> OamInv(n.oam, n.dmc.timer, n.realign))
    && (n.dmcExec ==> n.dmc.countdown > 0)
    && (1 <= n.dmc.countdown <= 2 ==> n.dmcExec)
    && (n.dmc.countdown == 1 ==> n.cpu.rdyFreeze)
    && (n.realign ==> n.dmc.countdown == -1 || n.dmc.countdown == 3)
  }

  lemma TickedKept(d: Dmc)
    requires DmcInv(d)
    ensures var t := Ticked(d);
      && t.timer % 2 != d.timer % 2 && t.timer >= 1
      && t == d.(timer := t.timer, justReloaded := t.justReloaded, bits := t.bits, filled := t.filled)
  {
    hide IsRate;
    RatesEven(d.reload);
    if d.timer == 1 {} else {}
  }

  /** A cycle of the DMC unit flips the parity of its timer, leaves a fetch that is under way alone, and
      otherwise may start one. */
  lemma RunDmcKept(d: Dmc)
    requires DmcInv(d)
    ensures var r := RunDmc(d);
      && r.timer % 2 != d.timer % 2 && r.timer >= 1 && r.reload == d.reload && r.delay <= 2
      && (d.countdown > 0 ==> r.countdown == d.countdown && r.rdyCheck == 2 && r.delay == 0 && !r.glitch2End
                              && !StartsNow(Ticked(d)))
      && (d.countdown == -1 ==> r.countdown == -1 || r.countdown == 3 || r.countdown == -2)
      && (r.countdown == 3 ==> r.rdyCheck == 2 && r.delay == 0)
      && (r.glitch2End <==> r.countdown == -2)
      && (StartsNow(Ticked(d)) ==> r.countdown == 3 || r.countdown == -2)
      && (r.delay > 0 ==> (r.delay + r.timer) % 2 == 0)
      && (d.countdown == -1 && r.countdown == 3 && !StartsNow(Ticked(d)) ==> r.timer % 2 == 0)
  {
    hide IsRate, Ticked;
    TickedKept(d);
    var t := Ticked(d);
    if !Wants(t) {} else if t.glitch {} else if t.callFromWrite {} else {}
  }

  /** Where the DMC stands when the CPU's own cycle begins. */
  lemma BeforeFacts(n: Nes, input: Input)
    requires NesInv(n)
    ensures var m := BeforeCpu(n, input);
      && DmcInv(m.dmc) && m.dmc.timer % 2 != n.dmc.timer % 2 && m.dmc.reload == n.dmc.reload
      && m.realign == (n.dmc.countdown == 1)
      && (n.dmc.countdown > 0 ==> !m.cpu.rdy)
      && (n.dmc.countdown > 0 && CountedDown(n) > 0 ==> m.dmc.countdown == CountedDown(n) && m.dmcExec)
      && (n.dmc.countdown <= 0 || CountedDown(n) == 0
          ==> (m.dmc.countdown == -1 && !m.dmcExec) || m.dmc.countdown == 3)
      && (m.dmcExec ==> !m.cpu.rdy && m.dmc.countdown > 0)
      && (!n.cpu.rdy ==> !m.cpu.rdy)
      && m.oam == OamStepped(n, input.answer)
  {
    hide CpuInv, RunDmc, Ticked, StartsNow, IsRate, OamStepped, OamInv;
    var s := DmcStepped(n);
    assert s.oam == n.oam && DmcInv(s.dmc);
    RunDmcKept(s.dmc);
  }

  lemma OamKept(n: Nes, answer: Byte, timer: nat)
    requires NesInv(n) && n.oam.exec && timer % 2 != n.dmc.timer % 2
    ensures var oam := OamStepped(n, answer);
      oam.exec ==> OamInv(oam, timer, n.dmc.countdown == 1)
  {
    hide CpuInv, DmcInv;
  }

  /** The CPU's own cycle: it writes nothing in the last cycle of a DMC fetch, and a low RDY freezes it after
      the stores that are next. */
  lemma CpuFacts(n: Nes, input: Input)
    requires NesInv(n)
    ensures var m := BeforeCpu(n, input);
      var o := Executed(m.cpu, input.choice);
      && InRow(n.cpu) && CpuInv(m.cpu) && o.Ran? && CpuInv(o.cpu) && InRow(o.cpu) && o.cpu.rdy == m.cpu.rdy
      && (n.dmc.countdown == 1 ==> o.wrote.None?)
      && (!m.cpu.rdy ==>
            var w := WritesAhead(n.cpu);
            && o.wrote.Some? == (w > 0) && o.cpu.rdyFreeze == (w == 0)
            && WritesAhead(o.cpu) == if w > 0 then w - 1 else 0)
      && (!m.cpu.rdy && n.cpu.rdyFreeze ==> o.cpu.rdyFreeze)
  {
    hide *;
    var m := BeforeCpu(n, input);
    InvFacts(n);
    BeforeKeepsCpu(n, input);
    LinesOnlyInv(n.cpu, m.cpu);
    CycleKept(m.cpu, input.choice);
    var o := Executed(m.cpu, input.choice);
    InvInRow(n.cpu, n.cpu);
    InvInRow(o.cpu, o.cpu);
    if n.cpu.rdyFreeze { FrozenStands(n.cpu); }
    if o.cpu.rdyFreeze { FrozenStands(o.cpu); }
    BeforeLow(n, input);
  }

  lemma InvFacts(n: Nes)
    requires NesInv(n)
    ensures CpuInv(n.cpu) && (n.dmc.countdown == 1 ==> n.cpu.rdyFreeze)
  {
    hide CpuInv, DmcInv, OamInv;
  }

  lemma BeforeLow(n: Nes, input: Input)
    requires NesInv(n)
    ensures n.dmc.countdown > 0 ==> !BeforeCpu(n, input).cpu.rdy
  {
    hide *;
    BeforeFacts(n, input);
  }

  predicate InputOk(input: Input) { IsRate(input.apu.reload) }

  /** Every cycle keeps the invariant. */
  lemma CallKept(n: Nes, input: Input)
    requires NesInv(n) && InputOk(input)
    ensures NesInv(RunCpuOne(n, input).nes)
  {
    hide CpuInv, IsRate, InputOk, OamStepped, BeforeCpu, Executed, OamInv, CountedDown, WritesAhead, InRow, OamOps;
    InvFacts(n);
    BeforeFacts(n, input);
    CpuFacts(n, input);
    var m := BeforeCpu(n, input);
    var o := Executed(m.cpu, input.choice);
    var r := RunCpuOne(n, input).nes;
    assert r == Ended(Stored(m.(cpu := o.cpu), o.wrote, input.stored), input.apu);
    CpuEndInv(o.cpu, r.cpu);
    assert DmcInv(r.dmc) by { InputRate(input); }
    OamCall(n, input);
    if n.dmc.countdown > 0 { LastCycle(n); }
    assert r.dmcExec ==> !r.cpu.rdy && r.dmc.countdown > 0;
    assert 1 <= r.dmc.countdown <= 2 ==> r.dmcExec;
    assert r.dmc.countdown == 1 ==> r.cpu.rdyFreeze;
    assert r.realign ==> r.dmc.countdown == -1 || r.dmc.countdown == 3;
    assert r.oam.exec ==> !r.cpu.rdy && OamInv(r.oam, r.dmc.timer, r.realign);
    assert !r.oam.exec && !r.dmcExec ==> r.cpu.rdy;
    assert CpuInv(r.cpu);
  }

  lemma InputRate(input: Input)
    requires InputOk(input)
    ensures IsRate(input.apu.reload)
  {
    hide IsRate;
  }

  lemma CpuEndInv(c: Cpu, d: Cpu)
    requires CpuInv(c) && LinesOnly(c, d)
    ensures CpuInv(d)
  {
    hide *;
    LinesOnlyInv(c, d);
  }

  /** The countdown reaches its last cycle only with the CPU frozen. */
  lemma LastCycle(n: Nes)
    requires NesInv(n) && n.dmc.countdown > 0
    ensures CountedDown(n) == 1 ==> n.dmc.countdown == 2 && n.cpu.rdyFreeze
    ensures CountedDown(n) == 0 <==> n.dmc.countdown == 1
    ensures 0 <= CountedDown(n) <= 3
  {
    hide CpuInv, OamInv;
  }

  /** The OAM DMA after a cycle, whether it went on or was started. */
  lemma OamCall(n: Nes, input: Input)
    requires NesInv(n)
    ensures var r := RunCpuOne(n, input).nes;
      r.oam.exec ==> !r.cpu.rdy && OamInv(r.oam, r.dmc.timer, r.realign)
  {
    hide CpuInv, IsRate, OamStepped, BeforeCpu, Executed, CountedDown, WritesAhead, InRow, OamOps, DmcInv;
    InvFacts(n);
    BeforeFacts(n, input);
    CpuFacts(n, input);
    var m := BeforeCpu(n, input);
    var o := Executed(m.cpu, input.choice);
    var r := RunCpuOne(n, input).nes;
    assert r == Ended(Stored(m.(cpu := o.cpu), o.wrote, input.stored), input.apu);
    if o.wrote == Some(0x4014) {
      assert !m.realign;
    } else if r.oam.exec {
      OamWasOn(n, input.answer);
      OamKept(n, input.answer, m.dmc.timer);
    }
  }

  lemma OamWasOn(n: Nes, answer: Byte)
    ensures OamStepped(n, answer).exec ==> n.oam.exec
    ensures NesInv(n) && n.oam.exec ==> !n.cpu.rdy
  {
    hide CpuInv, OamInv, DmcInv;
  }

  // ---- DMC fetches complete ----

  /** How many cycles a fetch takes that begins counting down from 3 with `writes` stores ahead. */
  function FromThree(writes: nat): nat {
    if writes == 0 then 3 else if writes <= 2 then 5 else 7
  }

  /** The number of cycles until the DMC reads its sample. */
  function CallsToFetch(n: Nes): nat
    requires InRow(n.cpu)
  {
    var w := WritesAhead(n.cpu);
    if n.dmc.countdown <= 1 then 1
    else if n.dmc.countdown == 2 then
      if n.cpu.rdyFreeze then 2 else 1 + FromThree(if w > 0 then w - 1 else 0)
    else FromThree(w)
  }

  lemma FetchCall(n: Nes, input: Input)
    requires NesInv(n) && InputOk(input) && n.dmc.countdown > 0
    ensures InRow(n.cpu) && RunCpuOne(n, input).fetched == (n.dmc.countdown == 1)
    ensures n.dmc.countdown > 1 ==>
      var next := RunCpuOne(n, input).nes;
      && NesInv(next) && next.dmc.countdown > 0 && InRow(next.cpu) && CallsToFetch(next) == CallsToFetch(n) - 1
    ensures n.dmc.countdown == 1 ==> RunCpuOne(n, input).wrote.None?
  {
    hide CpuInv, IsRate, InputOk, OamStepped, BeforeCpu, Executed, OamInv, CountedDown, WritesAhead, InRow, OamOps,
      DmcInv, NesInv, RunCpuOne, LinesOnly;
    CallKept(n, input);
    InvFacts(n);
    LastCycle(n);
    BeforeFacts(n, input);
    CpuFacts(n, input);
    CountedDownIs(n);
    WritesBoundedAhead(n);
    EndLines(n, input);
    CountAfter(n, input);
    LinesOnlyInv(Executed(BeforeCpu(n, input).cpu, input.choice).cpu, RunCpuOne(n, input).nes.cpu);
  }

  lemma CountAfter(n: Nes, input: Input)
    requires CpuInv(n.cpu)
    ensures RunCpuOne(n, input).nes.dmc.countdown == BeforeCpu(n, input).dmc.countdown
    ensures n.dmc.countdown > 0 ==> RunCpuOne(n, input).fetched == (CountedDown(n) == 0)
  {
    hide CpuInv, BeforeCpu, Executed, OamOps, CountedDown;
  }

  lemma CountedDownIs(n: Nes)
    requires NesInv(n) && n.dmc.countdown > 0
    ensures 1 <= n.dmc.countdown <= 3
    ensures CountedDown(n) == if n.dmc.countdown == 2 && !n.cpu.rdyFreeze then 3 else n.dmc.countdown - 1
  {
    hide CpuInv, OamInv;
  }

  lemma WritesBoundedAhead(n: Nes)
    requires NesInv(n)
    ensures InRow(n.cpu) && WritesAhead(n.cpu) <= 3
    ensures n.cpu.rdyFreeze ==> WritesAhead(n.cpu) == 0
  {
    hide OamInv, DmcInv, WritesAhead, Parked;
    WritesAtMostThree(n.cpu);
    if n.cpu.rdyFreeze { FrozenStands(n.cpu); }
  }

  datatype Calls = Calls(nes: Nes, fetches: seq<bool>)

  function RunAll(n: Nes, inputs: seq<Input>): Calls
    requires NesInv(n) && forall i | i in inputs :: InputOk(i)
    decreases |inputs|
  {
    if inputs == [] then Calls(n, [])
    else
      assert inputs[0] in inputs;
      InvFacts(n);
      CallKept(n, inputs[0]);
      var call := RunCpuOne(n, inputs[0]);
      var rest := RunAll(call.nes, inputs[1..]);
      Calls(rest.nes, [call.fetched] + rest.fetches)
  }

  /** Whatever memory, the interrupts and the APU's registers do, a DMC fetch that counts down happens in
      exactly the cycle that `CallsToFetch` names and in none before it; from a countdown of 3 that is the
      third, the fifth or the seventh. */
  lemma {:induction false} DmcCompletes(n: Nes, inputs: seq<Input>)
    requires NesInv(n) && n.dmc.countdown > 0 && InRow(n.cpu)
    requires |inputs| == CallsToFetch(n) && forall i | i in inputs :: InputOk(i)
    ensures var fetches := RunAll(n, inputs).fetches;
      && |fetches| == |inputs| <= 7 && fetches[|fetches| - 1]
      && forall k: nat | k < |fetches| - 1 :: !fetches[k]
    ensures n.dmc.countdown == 3 ==> |inputs| in {3, 5, 7}
    decreases |inputs|
  {
    hide InRow, NesInv, InputOk, RunCpuOne, CallsToFetch, FromThree;
    CallsBounded(n);
    assert inputs[0] in inputs;
    InvFacts(n);
    FetchCall(n, inputs[0]);
    var call := RunCpuOne(n, inputs[0]);
    if n.dmc.countdown > 1 {
      DmcCompletes(call.nes, inputs[1..]);
      assert RunAll(n, inputs).fetches == [call.fetched] + RunAll(call.nes, inputs[1..]).fetches;
    } else {
      assert inputs[1..] == [];
    }
  }

  lemma CallsBounded(n: Nes)
    requires NesInv(n) && n.dmc.countdown > 0 && InRow(n.cpu)
    ensures 1 <= CallsToFetch(n) <= 7 && (n.dmc.countdown == 1 <==> CallsToFetch(n) == 1)
    ensures n.dmc.countdown == 3 ==> CallsToFetch(n) in {3, 5, 7}
  {
    hide InRow, NesInv, WritesAhead;
    CountedDownIs(n);
    WritesBoundedAhead(n);
  }

  /** A fetch that starts at once, for a buffer that ran empty, takes three or five cycles. */
  lemma DirectStart(n: Nes, input: Input)
    requires NesInv(n) && InputOk(input) && n.dmc.countdown == -1
    requires StartsNow(Ticked(n.dmc)) && !n.dmc.glitch2
    ensures InRow(n.cpu)
    ensures var next := RunCpuOne(n, input).nes;
      NesInv(next) && InRow(next.cpu) && next.dmc.countdown == 3 && CallsToFetch(next) in {3, 5}
  {
    hide CpuInv, NesInv, InputOk, Executed, WritesAhead, InRow, OamOps, Ticked, StartsNow, BeforeCpu;
    CallKept(n, input);
    InvFacts(n);
    CpuFacts(n, input);
    WritesBoundedAhead(n);
    DirectBefore(n, input);
    var m := BeforeCpu(n, input);
    var next := RunCpuOne(n, input).nes;
    LinesOnlyInv(Executed(m.cpu, input.choice).cpu, next.cpu);
    WritesBoundedAhead(next);
  }

  lemma DirectBefore(n: Nes, input: Input)
    requires NesInv(n) && n.dmc.countdown == -1 && StartsNow(Ticked(n.dmc)) && !n.dmc.glitch2
    ensures var m := BeforeCpu(n, input); m.dmc.countdown == 3 && !m.cpu.rdy
  {
    hide CpuInv, OamStepped, OamInv, DmcInv, RunDmc, Ticked, StartsNow;
    DirectRun(n.dmc);
  }

  lemma DirectRun(d: Dmc)
    requires DmcInv(d) && d.countdown == -1 && StartsNow(Ticked(d)) && !d.glitch2
    ensures RunDmc(d).countdown == 3 && !RunDmc(d).glitch2End
  {
    hide IsRate, Ticked;
    TickedKept(d);
  }

  /** A fetch that a register write asks for starts counting down with an even timer, whatever the parity was
      when it was asked for. */
  lemma WriteStartsEven(n: Nes, input: Input)
    requires NesInv(n) && n.dmc.countdown == -1 && !StartsNow(Ticked(n.dmc))
    ensures CpuInv(n.cpu)
    ensures var next := RunCpuOne(n, input).nes; next.dmc.countdown == 3 ==> next.dmc.timer % 2 == 0
  {
    hide CpuInv, IsRate, OamStepped, Executed, OamInv, WritesAhead, InRow, OamOps, RunDmc, Ticked, StartsNow;
    InvFacts(n);
    RunDmcKept(n.dmc);
  }

  /** A fetch fills the sample buffer, unless the output unit empties it in the same cycle. */
  lemma FetchFills(n: Nes, input: Input)
    requires NesInv(n) && n.dmc.countdown == 1 && n.dmc.length > 0 && !(n.dmc.timer == 1 && n.dmc.bits == 0)
    ensures CpuInv(n.cpu) && RunCpuOne(n, input).nes.dmc.filled
  {
    hide CpuInv, IsRate, OamStepped, Executed, OamInv, WritesAhead, InRow, OamOps, RunDmc, StartsNow;
    InvFacts(n);
    LastCycle(n);
    FilledStays(SampleFetched(n.dmc));
  }

  lemma FilledStays(d: Dmc)
    requires d.filled && d.timer >= 1 && !(d.timer == 1 && d.bits == 0)
    ensures RunDmc(d).filled
  {
    if d.timer == 1 {} else {}
  }

  // ---- the OAM DMA is whole ----

  /** A run of cycles without a store to $4014: the state, what the OAM DMA did, and how often the last cycle
      of a DMC fetch fell into the transfer. */
  datatype Transfer = Transfer(nes: Nes, ops: seq<BusOp>, stalls: nat)

  function Stall(n: Nes): nat { if n.oam.exec && n.dmc.countdown == 1 then 1 else 0 }

  predicate NoRestart(n: Nes, inputs: seq<Input>)
    requires NesInv(n) && forall i | i in inputs :: InputOk(i)
    decreases |inputs|
  {
    if inputs == [] then true
    else
      assert inputs[0] in inputs;
      InvFacts(n);
      CallKept(n, inputs[0]);
      var call := RunCpuOne(n, inputs[0]);
      call.wrote != Some(0x4014) && NoRestart(call.nes, inputs[1..])
  }

  function Transferred(n: Nes, inputs: seq<Input>): Transfer
    requires NesInv(n) && forall i | i in inputs :: InputOk(i)
    decreases |inputs|
  {
    if inputs == [] then Transfer(n, [], 0)
    else
      assert inputs[0] in inputs;
      InvFacts(n);
      CallKept(n, inputs[0]);
      var call := RunCpuOne(n, inputs[0]);
      var rest := Transferred(call.nes, inputs[1..]);
      Transfer(rest.nes, call.ops + rest.ops, Stall(n) + rest.stalls)
  }

  /** Reads of consecutive addresses from `first` on, each followed by a store of the byte that was read to
      $2004; reads fall on cycles with an even timer. `held` is the byte of a read that went before, and
      `index` the number of steps that went before. */
  predicate InOrder(ops: seq<BusOp>, page: nat, index: nat, held: Byte)
    decreases |ops|
  {
    if ops == [] then true
    else if index % 2 == 0 then
      ops[0].OamRead? && ops[0].addr == page + index / 2 && ops[0].even
      && InOrder(ops[1..], page, index + 1, ops[0].byte)
    else
      ops[0].OamWrite? && ops[0].addr == 0x2004 && ops[0].byte == held && !ops[0].even
      && InOrder(ops[1..], page, index + 1, held)
  }

  predicate AtPage(oam: Oam, page: nat) {
    page <= 0xFF00 && oam.exec && oam.addr == (page + (oam.index + 1) / 2) % 0x10000
  }

  /** How far the transfer is: its steps, less the cycles it waits before the first. */
  function Progress(oam: Oam): int { oam.index - oam.dead }

  function Lag(n: Nes): nat { if n.realign then 1 else 0 }

  /** One cycle without a restart: the OAM DMA's operation is the next one, or it waits. */
  lemma OamCallStep(n: Nes, input: Input, page: nat)
    requires NesInv(n) && InputOk(input) && AtPage(n.oam, page)
    ensures CpuInv(n.cpu)
    ensures RunCpuOne(n, input).wrote != Some(0x4014) ==>
      var call := RunCpuOne(n, input);
      var oam := call.nes.oam;
      && InOrder(call.ops, page, n.oam.index, n.oam.byte) && |call.ops| <= 1
      && (oam.exec <==> n.oam.index + |call.ops| < OAM_STEPS)
      && (oam.exec ==> AtPage(oam, page) && oam.index == n.oam.index + |call.ops|)
      && oam.byte == (if |call.ops| == 1 then call.ops[0].byte else n.oam.byte)
      && (oam.exec ==> 1 + Progress(n.oam) == Progress(oam) + 2 * Stall(n) + Lag(n) - Lag(call.nes))
      && (!oam.exec ==> 1 + Progress(n.oam) == OAM_STEPS && Stall(n) == 0 && Lag(n) == 0)
  {
    hide CpuInv, Executed, IsRate, RunDmc, Ticked, StartsNow, CountedDown, SampleFetched, Now, InRow;
    InvFacts(n);
    OamParity(n);
    var call := RunCpuOne(n, input);
    assert call.wrote != Some(0x4014) ==> call.nes.oam == OamStepped(n, input.answer)
                                           && call.nes.realign == (n.dmc.countdown == 1);
  }

  lemma OamParity(n: Nes)
    requires NesInv(n) && n.oam.exec
    ensures OamInv(n.oam, n.dmc.timer, n.realign)
    ensures n.realign ==> n.dmc.countdown != 1
  {
    hide CpuInv, DmcInv, OamInv;
  }

  lemma InOrderEmpty(page: nat, index: nat, held: Byte)
    ensures InOrder([], page, index, held)
  {
  }

  lemma InOrderJoin(a: seq<BusOp>, b: seq<BusOp>, page: nat, index: nat, held: Byte)
    requires |a| <= 1 && InOrder(a, page, index, held)
    requires InOrder(b, page, index + |a|, if |a| == 1 then a[0].byte else held)
    ensures InOrder(a + b, page, index, held)
  {
    if |a| == 0 {
      assert a + b == b;
    } else {
      assert (a + b)[0] == a[0] && (a + b)[1..] == b;
    }
  }

  /** From a store to $4014 on, as long as there is no other, the OAM DMA reads the page in order and stores
      each byte to $2004, 256 pairs in all, every read on a cycle with the same parity of the DMC's timer.
      Each DMC fetch whose last cycle falls into the transfer delays it by two cycles; nothing else does. */
  lemma {:induction false} OamWhole(n: Nes, inputs: seq<Input>, page: nat)
    requires NesInv(n) && AtPage(n.oam, page) && forall i | i in inputs :: InputOk(i)
    requires NoRestart(n, inputs)
    ensures var t := Transferred(n, inputs);
      && NesInv(t.nes) && InOrder(t.ops, page, n.oam.index, n.oam.byte)
      && (if t.nes.oam.exec then n.oam.index + |t.ops| == t.nes.oam.index < OAM_STEPS
          else n.oam.index + |t.ops| == OAM_STEPS)
      && (t.nes.oam.exec ==>
            |inputs| + Progress(n.oam) == Progress(t.nes.oam) + 2 * t.stalls + Lag(n) - Lag(t.nes))
    decreases |inputs|
  {
    hide RunCpuOne, InputOk, CpuInv, InOrder, Lag, Stall, NesInv, AtPage;
    AtPageOn(n.oam, page);
    OamOn(n);
    if inputs != [] {
      assert inputs[0] in inputs;
      InvFacts(n);
      CallKept(n, inputs[0]);
      OamCallStep(n, inputs[0], page);
      var call := RunCpuOne(n, inputs[0]);
      var rest := Transferred(call.nes, inputs[1..]);
      if call.nes.oam.exec {
        OamWhole(call.nes, inputs[1..], page);
      } else {
        OamIdle(call.nes, inputs[1..]);
      }
      InOrderJoin(call.ops, rest.ops, page, n.oam.index, n.oam.byte);
    } else {
      InOrderEmpty(page, n.oam.index, n.oam.byte);
    }
  }

  /** The cycle that ends the transfer: as many cycles after the store as the transfer waits and has steps, and
      two for each DMC fetch. */
  lemma {:induction false} OamDuration(n: Nes, inputs: seq<Input>, last: Input, page: nat)
    requires NesInv(n) && AtPage(n.oam, page) && n.oam.index == 0 && !n.realign
    requires InputOk(last) && forall i | i in inputs + [last] :: InputOk(i)
    requires NoRestart(n, inputs + [last]) && (forall i | i in inputs :: InputOk(i))
    requires Transferred(n, inputs).nes.oam.exec && !Transferred(n, inputs + [last]).nes.oam.exec
    ensures |inputs| + 1 == n.oam.dead + OAM_STEPS + 2 * Transferred(n, inputs + [last]).stalls
    ensures |Transferred(n, inputs + [last]).ops| == OAM_STEPS
  {
    hide RunCpuOne, InputOk, CpuInv, InOrder, Stall, AtPage, NesInv;
    OamWhole(n, inputs + [last], page);
    TransferSplit(n, inputs, last);
    OamWhole(n, inputs, page);
    TransferPage(n, inputs, page);
    var m := Transferred(n, inputs).nes;
    OamCallStep(m, last, page);
  }

  lemma {:induction false} TransferSplit(n: Nes, inputs: seq<Input>, last: Input)
    requires NesInv(n) && (forall i | i in inputs :: InputOk(i)) && InputOk(last)
    requires forall i | i in inputs + [last] :: InputOk(i)
    ensures var t := Transferred(n, inputs);
      && NesInv(t.nes) && CpuInv(t.nes.cpu)
      && Transferred(n, inputs + [last]).nes == RunCpuOne(t.nes, last).nes
      && Transferred(n, inputs + [last]).stalls == t.stalls + Stall(t.nes)
      && (NoRestart(n, inputs + [last]) ==> NoRestart(n, inputs) && RunCpuOne(t.nes, last).wrote != Some(0x4014))
    decreases |inputs|
  {
    hide RunCpuOne, InputOk, CpuInv, Stall, NesInv;
    InvFacts(n);
    if inputs == [] {
      assert inputs + [last] == [last];
      CallKept(n, last);
    } else {
      assert inputs[0] in inputs;
      CallKept(n, inputs[0]);
      assert (inputs + [last])[0] == inputs[0] && (inputs + [last])[1..] == inputs[1..] + [last];
      TransferSplit(RunCpuOne(n, inputs[0]).nes, inputs[1..], last);
    }
  }

  lemma {:induction false} TransferPage(n: Nes, inputs: seq<Input>, page: nat)
    requires NesInv(n) && (forall i | i in inputs :: InputOk(i)) && NoRestart(n, inputs)
    requires AtPage(n.oam, page) && Transferred(n, inputs).nes.oam.exec
    ensures AtPage(Transferred(n, inputs).nes.oam, page)
    decreases |inputs|
  {
    hide RunCpuOne, InputOk, CpuInv, Stall, NesInv, AtPage, InOrder;
    if inputs != [] {
      assert inputs[0] in inputs;
      InvFacts(n);
      CallKept(n, inputs[0]);
      OamCallStep(n, inputs[0], page);
      var call := RunCpuOne(n, inputs[0]);
      if call.nes.oam.exec {
        TransferPage(call.nes, inputs[1..], page);
      } else {
        OamIdle(call.nes, inputs[1..]);
      }
    }
  }

  lemma AtPageOn(oam: Oam, page: nat)
    requires AtPage(oam, page)
    ensures oam.exec
  {
  }

  lemma OamOn(n: Nes)
    requires NesInv(n) && n.oam.exec
    ensures n.oam.index < OAM_STEPS
  {
    hide CpuInv, DmcInv;
  }

  lemma OamIdleStep(n: Nes, input: Input)
    requires NesInv(n) && InputOk(input) && !n.oam.exec
    ensures CpuInv(n.cpu) && RunCpuOne(n, input).ops == [] && Stall(n) == 0
    ensures RunCpuOne(n, input).wrote != Some(0x4014) ==> !RunCpuOne(n, input).nes.oam.exec
  {
    hide CpuInv, Executed, IsRate, RunDmc, Ticked, StartsNow, CountedDown, SampleFetched, Now, InRow, OamInv, DmcInv;
    InvFacts(n);
  }

  lemma {:induction false} OamIdle(n: Nes, inputs: seq<Input>)
    requires NesInv(n) && !n.oam.exec && (forall i | i in inputs :: InputOk(i)) && NoRestart(n, inputs)
    ensures var t := Transferred(n, inputs);
      NesInv(t.nes) && t.ops == [] && t.stalls == 0 && !t.nes.oam.exec
    decreases |inputs|
  {
    hide RunCpuOne, InputOk, CpuInv, Stall, NesInv;
    if inputs != [] {
      assert inputs[0] in inputs;
      InvFacts(n);
      CallKept(n, inputs[0]);
      OamIdleStep(n, inputs[0]);
      OamIdle(RunCpuOne(n, inputs[0]).nes, inputs[1..]);
    }
  }

  /** A store to $4014 begins a transfer of the page it names. */
  lemma OamBegins(n: Nes, input: Input)
    requires NesInv(n) && InputOk(input)
    ensures CpuInv(n.cpu)
    ensures RunCpuOne(n, input).wrote == Some(0x4014) ==>
      var next := RunCpuOne(n, input).nes;
      && NesInv(next) && AtPage(next.oam, input.stored as int * 256) && next.oam.index == 0 && !next.realign
      && next.oam.dead == (if next.dmc.timer % 2 == 0 then 2 else 1) && !next.cpu.rdy && !Jammed(next.cpu)
  {
    hide CpuInv, Executed, IsRate, RunDmc, Ticked, StartsNow, CountedDown, SampleFetched, Now, InRow, OamInv, DmcInv,
      BeforeCpu, NesInv, InputOk, WritesAhead, Jammed;
    InvFacts(n);
    CallUnjammed(n, input);
    CallKept(n, input);
    CpuFacts(n, input);
    BeforeFacts(n, input);
  }

  /** Three times the progress and this grow with every cycle of a transfer. */
  function Slack(n: Nes): nat { if n.dmc.countdown == 1 then 0 else if n.realign then 1 else 2 }

  function Reached(n: Nes): int { 3 * Progress(n.oam) + Slack(n) }

  lemma OamMoves(n: Nes, input: Input, page: nat)
    requires NesInv(n) && InputOk(input) && AtPage(n.oam, page)
    ensures CpuInv(n.cpu)
    ensures var call := RunCpuOne(n, input);
      call.wrote != Some(0x4014) && call.nes.oam.exec ==> Reached(call.nes) > Reached(n)
  {
    hide *;
    InvFacts(n);
    AtPageOn(n.oam, page);
    OamCallStep(n, input, page);
    NextSlack(n, input);
    ReachedIs(n);
    ReachedIs(RunCpuOne(n, input).nes);
  }

  lemma ReachedIs(n: Nes)
    ensures Reached(n) == 3 * Progress(n.oam) + if n.dmc.countdown == 1 then 0 else if n.realign then 1 else 2
    ensures Lag(n) == (if n.realign then 1 else 0) && (n.oam.exec ==> Stall(n) == if n.dmc.countdown == 1 then 1 else 0)
    ensures Progress(n.oam) == n.oam.index - n.oam.dead
  {
  }

  lemma NextSlack(n: Nes, input: Input)
    requires NesInv(n)
    ensures CpuInv(n.cpu)
    ensures RunCpuOne(n, input).nes.realign == (n.dmc.countdown == 1)
    ensures n.realign ==> n.dmc.countdown != 1
    ensures n.realign || n.dmc.countdown == 1 ==> RunCpuOne(n, input).nes.dmc.countdown != 1
  {
    hide CpuInv, DmcInv, OamInv, BeforeCpu, Executed, CountedDown, OamOps, OamStepped;
    InvFacts(n);
    BeforeFacts(n, input);
    if n.dmc.countdown > 0 { CountedDownIs(n); }
  }

  /** As long as no store to $4014 starts it over, the transfer ends: from its start in at most 1542 cycles, however
      often the DMC fetches. */
  lemma {:induction false} OamEnds(n: Nes, inputs: seq<Input>, page: nat)
    requires NesInv(n) && AtPage(n.oam, page) && (forall i | i in inputs :: InputOk(i)) && NoRestart(n, inputs)
    requires |inputs| + Reached(n) >= 3 * OAM_STEPS
    ensures var t := Transferred(n, inputs);
      !t.nes.oam.exec && n.oam.index + |t.ops| == OAM_STEPS
    decreases |inputs|
  {
    hide RunCpuOne, InputOk, CpuInv, InOrder, Lag, Stall, NesInv, AtPage, Reached;
    OamWhole(n, inputs, page);
    AtPageOn(n.oam, page);
    NotPast(n);
    assert inputs[0] in inputs;
    InvFacts(n);
    CallKept(n, inputs[0]);
    OamCallStep(n, inputs[0], page);
    OamMoves(n, inputs[0], page);
    var call := RunCpuOne(n, inputs[0]);
    if call.nes.oam.exec { OamEnds(call.nes, inputs[1..], page); } else { OamIdle(call.nes, inputs[1..]); }
  }

  lemma NotPast(n: Nes)
    requires NesInv(n) && n.oam.exec
    ensures -6 <= Reached(n) < 3 * OAM_STEPS
  {
    hide CpuInv, DmcInv;
  }

  // ---- the CPU goes on ----

  /** After every cycle RDY is high just if neither DMA is under way. */
  lemma Released(n: Nes, input: Input)
    requires NesInv(n) && InputOk(input)
    ensures CpuInv(n.cpu)
    ensures var next := RunCpuOne(n, input).nes; next.cpu.rdy <==> !next.dmcExec && !next.oam.exec
  {
    hide RunCpuOne, CpuInv, DmcInv, OamInv, InputOk;
    InvFacts(n);
    CallKept(n, input);
  }

  /** No DMC fetch counts down, and none begins in this cycle. */
  predicate DmcQuiet(n: Nes) { n.dmc.countdown <= 0 && !StartsNow(Ticked(n.dmc)) }

  lemma QuietBefore(n: Nes, input: Input)
    requires DmcQuiet(n)
    ensures BeforeCpu(n, input).cpu.rdy == n.cpu.rdy
  {
    hide StartsNow, Ticked, RunDmc, OamStepped;
  }

  /** With RDY high and no DMC fetch the CPU is not frozen, unless an opcode has stopped it for good. */
  lemma CpuGoesOn(n: Nes, input: Input)
    requires NesInv(n) && n.cpu.rdy && DmcQuiet(n)
    ensures CpuInv(n.cpu)
    ensures RunCpuOne(n, input).nes.cpu.rdyFreeze <==> Jammed(n.cpu)
  {
    hide *;
    InvFacts(n);
    QuietBefore(n, input);
    BeforeKeepsCpu(n, input);
    var m := BeforeCpu(n, input);
    JamLines(n.cpu, m.cpu);
    CycleKept(m.cpu, input.choice);
    EndLines(n, input);
  }

  lemma JamLines(c: Cpu, d: Cpu)
    requires LinesOnly(c, d)
    ensures Jammed(d) == Jammed(c)
  {
    hide Microcode.KindOf, Microcode.Row;
  }

  /** After the CPU's own cycle only its lines change. */
  lemma EndLines(n: Nes, input: Input)
    requires CpuInv(n.cpu)
    ensures CpuInv(BeforeCpu(n, input).cpu) && Executed(BeforeCpu(n, input).cpu, input.choice).Ran?
    ensures LinesOnly(Executed(BeforeCpu(n, input).cpu, input.choice).cpu, RunCpuOne(n, input).nes.cpu)
    ensures RunCpuOne(n, input).nes.cpu.rdyFreeze == Executed(BeforeCpu(n, input).cpu, input.choice).cpu.rdyFreeze
    ensures RunCpuOne(n, input).wrote == Executed(BeforeCpu(n, input).cpu, input.choice).wrote
  {
    hide *;
    CallIs(n, input);
    var m := BeforeCpu(n, input);
    var o := Executed(m.cpu, input.choice);
    StoredLines(m.(cpu := o.cpu), o.wrote, input.stored, input.apu);
  }

  lemma CallIs(n: Nes, input: Input)
    requires CpuInv(n.cpu)
    ensures var m := BeforeCpu(n, input);
      var o := Executed(m.cpu, input.choice);
      && CpuInv(m.cpu) && o.Ran?
      && RunCpuOne(n, input) == Call(Ended(Stored(m.(cpu := o.cpu), o.wrote, input.stored), input.apu),
                                     OamOps(n, input.answer), Fetches(n), o.wrote)
  {
    hide CpuInv, BeforeCpu, Executed, OamOps, Fetches, Ended, Stored;
    BeforeKeepsCpu(n, input);
    CycleInv(BeforeCpu(n, input).cpu, input.choice);
  }

  lemma StoredLines(n: Nes, wrote: Option<nat>, value: Byte, apu: Apu)
    ensures var next := Ended(Stored(n, wrote, value), apu);
      LinesOnly(n.cpu, next.cpu) && next.cpu.rdyFreeze == n.cpu.rdyFreeze
  {
    hide Ended, Stored;
    StoredRdy(n, wrote, value);
    EndedRdy(Stored(n, wrote, value), apu);
  }

  lemma StoredRdy(n: Nes, wrote: Option<nat>, value: Byte)
    ensures var r := Stored(n, wrote, value).cpu; r == n.cpu.(rdy := r.rdy)
  {
    if wrote == Some(0x4014) {} else {}
  }

  lemma EndedRdy(n: Nes, apu: Apu)
    ensures var r := Ended(n, apu).cpu; r == n.cpu.(rdy := r.rdy)
  {
  }

  /** A store, or a cycle with RDY low, leaves the CPU at an operation that does not stop it. */
  lemma CallUnjammed(n: Nes, input: Input)
    requires NesInv(n)
    ensures CpuInv(n.cpu)
    ensures RunCpuOne(n, input).wrote.Some? || (!n.cpu.rdy && !Jammed(n.cpu))
        ==> !Jammed(RunCpuOne(n, input).nes.cpu)
  {
    hide *;
    InvFacts(n);
    var m := BeforeCpu(n, input);
    EndLines(n, input);
    BeforeKeepsCpu(n, input);
    JamLines(n.cpu, m.cpu);
    BeforeFacts(n, input);
    CycleKept(m.cpu, input.choice);
    if RunCpuOne(n, input).wrote.Some? || (!n.cpu.rdy && !Jammed(n.cpu)) {
      NoNewJam(m.cpu, input.choice);
      JamLines(Executed(m.cpu, input.choice).cpu, RunCpuOne(n, input).nes.cpu);
    }
  }

  /** A DMC fetch that fills the buffer gives the CPU back, unless the OAM DMA still needs it. */
  lemma FetchReleases(n: Nes, input: Input)
    requires NesInv(n) && InputOk(input)
    requires n.dmc.countdown == 1 && n.dmc.length > 0 && !(n.dmc.timer == 1 && n.dmc.bits == 0)
    ensures CpuInv(n.cpu)
    ensures var next := RunCpuOne(n, input).nes;
      !next.dmcExec && (next.oam.exec ==> n.oam.exec) && (next.cpu.rdy <==> !next.oam.exec)
  {
    hide CpuInv, NesInv, InputOk, OamStepped, Executed, OamOps, RunDmc, Ticked, StartsNow, BeforeCpu;
    InvFacts(n);
    Released(n, input);
    FetchCall(n, input);
    FetchEnds(n, input);
    OamWasOn(n, input.answer);
  }

  lemma FetchEnds(n: Nes, input: Input)
    requires NesInv(n) && n.dmc.countdown == 1 && n.dmc.length > 0 && !(n.dmc.timer == 1 && n.dmc.bits == 0)
    ensures var m := BeforeCpu(n, input); !m.dmcExec && m.oam == OamStepped(n, input.answer)
  {
    hide CpuInv, OamStepped, OamInv, RunDmc, Ticked, StartsNow, IsRate;
    LastCycle(n);
    StillFilled(SampleFetched(n.dmc));
  }

  lemma StillFilled(d: Dmc)
    requires d.filled && d.timer >= 1 && !(d.timer == 1 && d.bits == 0)
    ensures !StartsNow(Ticked(d))
  {
    if d.timer == 1 {} else {}
  }

  lemma {:induction false} TransferUnjammed(n: Nes, inputs: seq<Input>)
    requires NesInv(n) && n.oam.exec && (forall i | i in inputs :: InputOk(i)) && NoRestart(n, inputs)
    requires Transferred(n, inputs).nes.oam.exec && !Jammed(n.cpu)
    ensures !Jammed(Transferred(n, inputs).nes.cpu)
    decreases |inputs|
  {
    hide RunCpuOne, InputOk, CpuInv, Stall, NesInv, Jammed;
    if inputs != [] {
      assert inputs[0] in inputs;
      InvFacts(n);
      CallKept(n, inputs[0]);
      OamLow(n);
      CallUnjammed(n, inputs[0]);
      var call := RunCpuOne(n, inputs[0]);
      if call.nes.oam.exec { TransferUnjammed(call.nes, inputs[1..]); } else { OamIdle(call.nes, inputs[1..]); }
    }
  }

  lemma OamLow(n: Nes)
    requires NesInv(n) && n.oam.exec
    ensures !n.cpu.rdy
  {
    hide CpuInv, DmcInv, OamInv;
  }

  /** A store to $4014 with no other after it: after at most 1542 cycles the whole page was transferred, and the
      transfer took 512 cycles, the one or two it waits, and two for each DMC fetch. Then the CPU has RDY back, unless a
      DMC fetch still needs it low, and in the next cycle it is not frozen, unless a DMC fetch begins. */
  lemma {:induction false} OamCompletes(n: Nes, inputs: seq<Input>, page: nat) returns (k: nat)
    requires NesInv(n) && AtPage(n.oam, page) && n.oam.index == 0 && !n.realign && !Jammed(n.cpu)
    requires (forall i | i in inputs :: InputOk(i)) && NoRestart(n, inputs) && |inputs| >= 1542
    ensures k <= |inputs| && forall i | i in inputs[..k] :: InputOk(i)
    ensures var t := Transferred(n, inputs[..k]);
      && !t.nes.oam.exec && |t.ops| == OAM_STEPS && InOrder(t.ops, page, 0, n.oam.byte)
      && k == n.oam.dead + OAM_STEPS + 2 * t.stalls
    ensures var after := Transferred(n, inputs[..k]).nes;
      && CpuInv(after.cpu) && (after.cpu.rdy <==> !after.dmcExec)
      && (after.cpu.rdy && DmcQuiet(after) ==> forall next: Input :: !RunCpuOne(after, next).nes.cpu.rdyFreeze)
  {
    hide RunCpuOne, InputOk, CpuInv, InOrder, Lag, Stall, NesInv, AtPage, Reached, NoRestart, Transferred, Jammed,
      DmcQuiet;
    AtPageOn(n.oam, page);
    NotPast(n);
    OamEnds(n, inputs, page);
    var j := LastOn(n, inputs);
    k := j + 1;
    assert inputs[..k] == inputs[..j] + [inputs[j]];
    assert inputs[j] in inputs;
    OamDuration(n, inputs[..j], inputs[j], page);
    OamWhole(n, inputs[..k], page);
    TransferSplit(n, inputs[..j], inputs[j]);
    var last := Transferred(n, inputs[..j]).nes;
    TransferUnjammed(n, inputs[..j]);
    OamLow(last);
    CallUnjammed(last, inputs[j]);
    Released(last, inputs[j]);
    var after := Transferred(n, inputs[..k]).nes;
    InvFacts(after);
    if after.cpu.rdy && DmcQuiet(after) {
      forall next: Input ensures !RunCpuOne(after, next).nes.cpu.rdyFreeze { CpuGoesOn(after, next); }
    }
  }

  /** The last cycle of the transfer. */
  lemma {:induction false} LastOn(n: Nes, inputs: seq<Input>) returns (j: nat)
    requires NesInv(n) && n.oam.exec && (forall i | i in inputs :: InputOk(i)) && NoRestart(n, inputs)
    requires !Transferred(n, inputs).nes.oam.exec
    ensures j < |inputs|
    ensures (forall i | i in inputs[..j] :: InputOk(i)) && (forall i | i in inputs[..j + 1] :: InputOk(i))
    ensures NoRestart(n, inputs[..j + 1])
    ensures Transferred(n, inputs[..j]).nes.oam.exec && !Transferred(n, inputs[..j + 1]).nes.oam.exec
    decreases |inputs|
  {
    hide RunCpuOne, InputOk, CpuInv, Stall, NesInv;
    assert inputs != [];
    var front, last := inputs[..|inputs| - 1], inputs[|inputs| - 1];
    assert inputs == front + [last];
    TransferSplit(n, front, last);
    if Transferred(n, front).nes.oam.exec {
      j := |inputs| - 1;
      assert inputs[..j + 1] == inputs;
    } else {
      j := LastOn(n, front);
      assert front[..j] == inputs[..j] && front[..j + 1] == inputs[..j + 1];
    }
  }

  // ---- the sample buffer is emptied every eighth clock ----

  /** The cycles until the output unit next empties the sample buffer, if the rate stays. */
  function Phase(d: Dmc): nat { d.timer + d.bits * d.reload }

  predicate InPhase(d: Dmc) { d.timer >= 1 && d.reload >= 1 && d.bits <= 7 }

  /** The glitch that leaves the buffer filled without a fetch. */
  predicate GlitchFills(d: Dmc) { d.glitch && (d.length > 0 || d.glitch2) && d.countdown == -1 && d.delay == 0 }

  lemma PhaseTick(d: Dmc)
    requires InPhase(d)
    ensures var r := RunDmc(d);
      && InPhase(r) && r.reload == d.reload && Phase(r) == (if Phase(d) == 1 then 8 * d.reload else Phase(d) - 1)
      && (Phase(d) > 1 && d.filled ==> r.filled) && (Phase(d) == 1 ==> (r.filled <==> GlitchFills(d)))
  {
    hide Requested, Delayed;
    PhaseKept(Ticked(d));
    if d.timer == 1 {
      if d.bits == 0 {} else { assert (d.bits - 1) * d.reload == d.bits * d.reload - d.reload; }
    } else {
      assert d.bits * d.reload >= 0;
    }
  }

  lemma PhaseKept(d: Dmc)
    ensures var r := Delayed(Requested(d));
      && r.timer == d.timer && r.bits == d.bits && r.reload == d.reload
      && (d.filled ==> r.filled) && (!d.filled ==> (r.filled <==> GlitchFills(d)))
  {
  }

  /** Whatever the two DMAs do, the buffer is emptied when its time has come, and not before; it is empty then, unless
      the glitch fills it at once. */
  lemma PhaseCall(n: Nes, input: Input)
    requires NesInv(n) && InPhase(n.dmc) && input.apu.reload == n.dmc.reload
    ensures CpuInv(n.cpu)
    ensures var next := RunCpuOne(n, input).nes.dmc;
      && InPhase(next) && next.reload == n.dmc.reload
      && Phase(next) == (if Phase(n.dmc) == 1 then 8 * n.dmc.reload else Phase(n.dmc) - 1)
      && (Phase(n.dmc) > 1 && n.dmc.filled ==> next.filled)
      && (Phase(n.dmc) == 1 ==> (next.filled <==> GlitchFills(DmcStepped(n).dmc)))
  {
    hide *;
    InvFacts(n);
    var s := DmcStepped(n);
    PhaseStep(n);
    PhaseTick(s.dmc);
    DmcAfter(n, input);
    PhaseFields(RunDmc(s.dmc), RunCpuOne(n, input).nes.dmc);
  }

  lemma PhaseStep(n: Nes)
    requires InPhase(n.dmc)
    ensures var d := DmcStepped(n).dmc;
      InPhase(d) && d.reload == n.dmc.reload && Phase(d) == Phase(n.dmc) && (n.dmc.filled ==> d.filled)
  {
    hide CountedDown;
    if n.dmc.countdown <= 0 {} else {}
  }

  /** What a cycle of the console does to the timer, the buffer and the rate is what a cycle of the unit does. */
  lemma DmcAfter(n: Nes, input: Input)
    requires CpuInv(n.cpu)
    ensures var r, next := RunDmc(DmcStepped(n).dmc), RunCpuOne(n, input).nes.dmc;
      && next.timer == r.timer && next.bits == r.bits && next.filled == r.filled && next.reload == input.apu.reload
  {
    hide CpuInv, OamStepped, Executed, RunDmc, Ticked, StartsNow, OamOps, CountedDown, SampleFetched;
    SameCount(n, OamStepped(n, input.answer));
    if n.dmc.countdown <= 0 {} else {}
  }

  lemma SameCount(n: Nes, oam: Oam)
    ensures CountedDown(n.(oam := oam, realign := false)) == CountedDown(n)
  {
  }

  lemma PhaseFields(d: Dmc, e: Dmc)
    requires e.timer == d.timer && e.bits == d.bits && e.reload == d.reload
    ensures Phase(e) == Phase(d) && InPhase(e) == InPhase(d)
  {
  }

  predicate KeepsRate(inputs: seq<Input>, reload: nat) { forall i | i in inputs :: i.apu.reload == reload }

  lemma {:induction false} NextEmpties(n: Nes, inputs: seq<Input>)
    requires NesInv(n) && InPhase(n.dmc) && KeepsRate(inputs, n.dmc.reload) && forall i | i in inputs :: InputOk(i)
    requires |inputs| == Phase(n.dmc)
    ensures var m := RunAll(n, inputs).nes;
      NesInv(m) && InPhase(m.dmc) && m.dmc.reload == n.dmc.reload && Phase(m.dmc) == 8 * n.dmc.reload
    ensures EmptiesLast(n, inputs)
    decreases |inputs|
  {
    hide RunCpuOne, InputOk, NesInv, Phase, GlitchFills, DmcStepped;
    PhasePositive(n.dmc);
    assert inputs[0] in inputs;
    InvFacts(n);
    CallKept(n, inputs[0]);
    PhaseCall(n, inputs[0]);
    if |inputs| == 1 {
      assert inputs[1..] == [] && inputs[..0] == [];
    } else {
      NextEmpties(RunCpuOne(n, inputs[0]).nes, inputs[1..]);
      assert inputs[..|inputs| - 1][1..] == inputs[1..][..|inputs[1..]| - 1];
    }
  }

  /** After the last of these cycles the buffer is empty, unless the glitch fills it in that cycle. */
  ghost predicate EmptiesLast(n: Nes, inputs: seq<Input>)
    requires NesInv(n) && forall i | i in inputs :: InputOk(i)
  {
    && inputs != []
    && var before := RunAll(n, inputs[..|inputs| - 1]).nes;
       RunAll(n, inputs).nes.dmc.filled <==> GlitchFills(DmcStepped(before).dmc)
  }

  lemma PhasePositive(d: Dmc)
    requires InPhase(d)
    ensures Phase(d) >= 1
  {
  }

  /** With the rate left alone, a byte lasts eight periods of the timer: the buffer is emptied in the cycle that
      `Phase` names, and from then on every eight periods; it is empty after that cycle, unless the glitch fills it
      at once. */
  lemma {:induction false} EveryEighthEmpties(n: Nes, inputs: seq<Input>, k: nat)
    requires NesInv(n) && InPhase(n.dmc) && KeepsRate(inputs, n.dmc.reload) && forall i | i in inputs :: InputOk(i)
    requires |inputs| == Phase(n.dmc) + k * (8 * n.dmc.reload)
    ensures var m := RunAll(n, inputs).nes;
      NesInv(m) && InPhase(m.dmc) && m.dmc.reload == n.dmc.reload && Phase(m.dmc) == 8 * n.dmc.reload
    ensures EmptiesLast(n, inputs)
    decreases k
  {
    hide InputOk, NesInv, Phase, RunAll, GlitchFills, DmcStepped, EmptiesLast, InPhase;
    var first := Phase(n.dmc);
    OneMore(k, 8 * n.dmc.reload);
    NextEmpties(n, inputs[..first]);
    var m := RunAll(n, inputs[..first]).nes;
    if k > 0 {
      EveryEighthEmpties(m, inputs[first..], k - 1);
      RunSplit(n, inputs, first);
      EmptiesJoined(n, m, inputs, first);
    } else {
      assert inputs[..first] == inputs;
    }
  }

  lemma OneMore(k: nat, whole: nat)
    ensures k * whole >= 0 && (k > 0 ==> k * whole == (k - 1) * whole + whole)
  {
  }

  lemma EmptiesJoined(n: Nes, m: Nes, inputs: seq<Input>, first: nat)
    requires NesInv(n) && (forall i | i in inputs :: InputOk(i)) && first <= |inputs|
    requires (forall i | i in inputs[..first] :: InputOk(i)) && (forall i | i in inputs[first..] :: InputOk(i))
    requires m == RunAll(n, inputs[..first]).nes && NesInv(m) && EmptiesLast(m, inputs[first..])
    ensures EmptiesLast(n, inputs)
  {
    hide InputOk, NesInv, RunAll, GlitchFills, DmcStepped;
    RunSplit(n, inputs, first);
    var front := inputs[..|inputs| - 1];
    assert front[..first] == inputs[..first] && front[first..] == inputs[first..][..|inputs[first..]| - 1];
    RunSplit(n, front, first);
  }

  lemma {:induction false} RunSplit(n: Nes, inputs: seq<Input>, k: nat)
    requires NesInv(n) && (forall i | i in inputs :: InputOk(i)) && k <= |inputs|
    ensures (forall i | i in inputs[..k] :: InputOk(i)) && (forall i | i in inputs[k..] :: InputOk(i))
    ensures var m := RunAll(n, inputs[..k]).nes;
      NesInv(m) && RunAll(n, inputs).nes == RunAll(m, inputs[k..]).nes
    decreases k
  {
    hide RunCpuOne, InputOk, NesInv;
    if k == 0 {
      assert inputs[..0] == [] && inputs[0..] == inputs;
    } else {
      assert inputs[0] in inputs;
      InvFacts(n);
      CallKept(n, inputs[0]);
      assert inputs[..k][1..] == inputs[1..][..k - 1] && inputs[1..][k - 1..] == inputs[k..];
      RunSplit(RunCpuOne(n, inputs[0]).nes, inputs[1..], k - 1);
    }
  }

  // ---- power-on and reset ----

  function PoweredOn(held: Cpu, pal: bool): Nes {
    Nes(PowerOn(held), PoweredOnDmc(pal), Oam(false, 0, 0, 0, 0), false, false)
  }

  function PoweredOnDmc(pal: bool): Dmc {
    Dmc(1020, if pal then 398 else 428, 7, false, 0, false, 0, false, false, false, -1, 0, false)
  }

  /** The console at power-on: the invariant holds, whatever the fields of the CPU held. */
  lemma PowerOnInv(held: Cpu, pal: bool)
    ensures NesInv(PoweredOn(held, pal))
    ensures var n := PoweredOn(held, pal);
      && !n.oam.exec && !n.dmcExec && !n.realign && n.cpu.rdy && n.dmc.countdown == -1 && n.dmc.timer == 1020
      && n.dmc.reload == (if pal then 398 else 428) && n.dmc.bits == 7 && !n.dmc.filled && n.dmc.length == 0
      && !n.dmc.glitch && !n.dmc.glitch2 && !n.dmc.callFromWrite && !n.dmc.justReloaded && n.dmc.delay == 0
  {
    hide CpuInv;
    ResetInv(held);
    assert 428 == DMC_RATES_NTSC[0] && 398 == DMC_RATES_PAL[0];
  }

  /** The reset button: the CPU starts its reset sequence, and the DMC forgets what to fetch, unless the end of a
      sample is too near. A DMA under way goes on. */
  function ButtonPressed(n: Nes, length: nat): Nes {
    n.(cpu := SoftReset(n.cpu), dmc := n.dmc.(length := length, glitch := false, glitch2 := false))
  }

  lemma ButtonKept(n: Nes, length: nat)
    requires NesInv(n)
    ensures NesInv(ButtonPressed(n, length))
  {
    hide CpuInv, IsRate, OamInv;
    ResetInv(n.cpu);
  }

  /** The button touches nothing of the two DMAs: it sends the CPU into its reset sequence, sets what is left to fetch
      and takes the two glitches back. */
  lemma ButtonOnly(n: Nes, length: nat)
    ensures var r := ButtonPressed(n, length);
      && r.cpu.opcode == 262 && r.cpu.mi == 0 && r.cpu.regs == n.cpu.regs.(p := n.cpu.regs.p.(i := true))
      && r.cpu.rdy == n.cpu.rdy && r.dmc == n.dmc.(length := length, glitch := false, glitch2 := false)
      && r.oam == n.oam && r.dmcExec == n.dmcExec && r.realign == n.realign
  {
  }

  /** A cycle of the console, or the reset button between two. */
  datatype Moment = CpuCycle(input: Input) | Button(length: nat)

  function Session(n: Nes, moments: seq<Moment>): (r: Nes)
    requires NesInv(n) && forall m | m in moments && m.CpuCycle? :: InputOk(m.input)
    ensures NesInv(r)
    decreases |moments|
  {
    hide RunCpuOne, InputOk, NesInv;
    if moments == [] then n
    else
      assert moments[0] in moments;
      InvFacts(n);
      match moments[0]
      case CpuCycle(input) =>
        CallKept(n, input);
        Session(RunCpuOne(n, input).nes, moments[1..])
      case Button(length) =>
        ButtonKept(n, length);
        Session(ButtonPressed(n, length), moments[1..])
  }

  /** From power-on, however often reset is pressed, the invariant always holds; so the two DMAs never leave the CPU
      running where they need it halted, and what is proved of one fetch or one transfer holds of every one. */
  lemma AlwaysSound(held: Cpu, pal: bool, moments: seq<Moment>)
    requires forall m | m in moments && m.CpuCycle? :: InputOk(m.input)
    ensures NesInv(PoweredOn(held, pal))
    ensures var n := Session(PoweredOn(held, pal), moments);
      && (n.cpu.rdy <==> !n.oam.exec && !n.dmcExec) && (n.dmc.countdown == 1 ==> n.cpu.rdyFreeze)
      && n.dmc.countdown <= 3 && (n.dmc.countdown == -1 || n.dmc.countdown >= 1)
  {
    hide CpuInv, OamInv, PoweredOn;
    PowerOnInv(held, pal);
  }

  /** A hard reset: a new CPU and a new APU, but the console's side of the two DMAs stays as it is. */
  function PowerPressed(n: Nes, held: Cpu, pal: bool): Nes {
    n.(cpu := PowerOn(held), dmc := PoweredOnDmc(pal))
  }

  /** It keeps the invariant if and only if neither DMA was under way. */
  lemma PowerKeepsInv(n: Nes, held: Cpu, pal: bool)
    requires NesInv(n)
    ensures NesInv(PowerPressed(n, held, pal)) <==> !n.oam.exec && !n.dmcExec
  {
    hide CpuInv, OamInv;
    ResetInv(held);
    assert 428 == DMC_RATES_NTSC[0] && 398 == DMC_RATES_PAL[0];
  }

  /** The console takes a DMC fetch to be under way, and the DMC has none and wants none. */
  predicate Abandoned(n: Nes) {
    && CpuInv(n.cpu) && n.dmcExec
    && n.dmc.countdown == -1 && n.dmc.delay == 0 && n.dmc.length == 0 && !n.dmc.glitch2 && !n.dmc.glitch2End
  }

  /** Nothing asks the DMC to play. */
  predicate NoSample(input: Input) { input.apu.length == 0 && !input.apu.glitch2 }

  lemma AbandonedUnit(d: Dmc)
    requires d.countdown == -1 && d.delay == 0 && d.length == 0 && !d.glitch2 && !d.glitch2End
    ensures var r := RunDmc(d);
      r.countdown == -1 && r.delay == 0 && !r.glitch2End && !StartsNow(Ticked(d))
  {
  }

  lemma AbandonedCall(n: Nes, input: Input)
    requires Abandoned(n) && NoSample(input)
    ensures var call := RunCpuOne(n, input);
      && Abandoned(call.nes) && !call.fetched
      && (!n.cpu.rdy || call.wrote == Some(0x4014) ==> !call.nes.cpu.rdy)
  {
    hide CpuInv, Executed, OamStepped, OamOps, Ticked, RunDmc, StartsNow;
    BeforeKeepsCpu(n, input);
    AbandonedUnit(n.dmc);
    var m := BeforeCpu(n, input);
    assert m.dmcExec && m.dmc.countdown == -1 && m.dmc.delay == 0 && !m.dmc.glitch2End && (!n.cpu.rdy ==> !m.cpu.rdy);
    CycleKept(m.cpu, input.choice);
    CpuEndInv(Executed(m.cpu, input.choice).cpu, RunCpuOne(n, input).nes.cpu);
  }

  function Onwards(n: Nes, inputs: seq<Input>): (r: Nes)
    requires Abandoned(n) && forall i | i in inputs :: NoSample(i)
    ensures Abandoned(r)
    decreases |inputs|
  {
    hide Abandoned, NoSample, RunCpuOne;
    if inputs == [] then n
    else
      assert inputs[0] in inputs;
      AbandonedCall(n, inputs[0]);
      assert CpuInv(n.cpu) by { AbandonedCpu(n); }
      Onwards(RunCpuOne(n, inputs[0]).nes, inputs[1..])
  }

  lemma AbandonedCpu(n: Nes)
    requires Abandoned(n)
    ensures CpuInv(n.cpu)
  {
  }

  lemma {:induction false} StaysLow(n: Nes, inputs: seq<Input>)
    requires Abandoned(n) && !n.cpu.rdy && forall i | i in inputs :: NoSample(i)
    ensures !Onwards(n, inputs).cpu.rdy
    decreases |inputs|
  {
    hide Abandoned, NoSample, RunCpuOne;
    if inputs != [] {
      assert inputs[0] in inputs;
      AbandonedCpu(n);
      AbandonedCall(n, inputs[0]);
      StaysLow(RunCpuOne(n, inputs[0]).nes, inputs[1..]);
    }
  }

  /** A hard reset in the middle of a DMC fetch: as long as the DMC is not used again, the first store to $4014
      halts the CPU for ever. */
  lemma PowerDuringFetch(n: Nes, held: Cpu, pal: bool, before: seq<Input>, store: Input, after: seq<Input>)
    requires n.dmcExec && NoSample(store)
    requires (forall i | i in before :: NoSample(i)) && (forall i | i in after :: NoSample(i))
    ensures Abandoned(PowerPressed(n, held, pal))
    ensures var m := Onwards(PowerPressed(n, held, pal), before);
      && CpuInv(m.cpu)
      && (RunCpuOne(m, store).wrote == Some(0x4014) ==>
            && Abandoned(RunCpuOne(m, store).nes)
            && !Onwards(RunCpuOne(m, store).nes, after).cpu.rdy)
  {
    hide RunCpuOne, CpuInv, NoSample;
    ResetInv(held);
    var m := Onwards(PowerPressed(n, held, pal), before);
    AbandonedCall(m, store);
    if RunCpuOne(m, store).wrote == Some(0x4014) { StaysLow(RunCpuOne(m, store).nes, after); }
  }

  // ---- such a run ----

  /** The DMC has a sample to play. */
  function Sample(held: Cpu): Input {
    Input(false, false, Choice(0, 0, held.regs), 0, 0, Apu(DMC_RATES_NTSC[0], 1, false, false))
  }

  /** Memory answers STA absolute with $4014 as its address, and nothing else happens. */
  function StaOamDma(held: Cpu): Input {
    Input(false, false, Choice(0x8D, OAM_DMA, held.regs), 0, 0, Apu(DMC_RATES_NTSC[0], 0, false, false))
  }

  lemma SampleOk(held: Cpu)
    ensures InputOk(Sample(held))
  {
    assert Sample(held).apu.reload == DMC_RATES_NTSC[0];
  }

  /** Two cycles after power-on a fetch may be under way. */
  lemma FetchBegins(held: Cpu, pal: bool)
    ensures var two := [Sample(held), Sample(held)];
      && NesInv(PoweredOn(held, pal)) && (forall i | i in two :: InputOk(i))
      && var n := RunAll(PoweredOn(held, pal), two).nes; n.dmcExec && n.dmc.countdown == 3
  {
    hide RunCpuOne, NesInv, InputOk;
    PowerOnInv(held, pal);
    SampleOk(held);
    var n, i := PoweredOn(held, pal), Sample(held);
    InvFacts(n);
    CallKept(n, i);
    FirstCycle(held, pal);
    var m := RunCpuOne(n, i).nes;
    InvFacts(m);
    CallKept(m, i);
    SecondCycle(m, i);
    assert [i, i][1..] == [i] && [i][1..] == [];
    assert RunAll(m, [i]).nes == RunAll(RunCpuOne(m, i).nes, []).nes;
  }

  lemma FirstCycle(held: Cpu, pal: bool)
    ensures CpuInv(PoweredOn(held, pal).cpu)
    ensures var d := RunCpuOne(PoweredOn(held, pal), Sample(held)).nes.dmc;
      d.timer == 1019 && !d.filled && d.length == 1 && d.countdown == -1 && d.delay == 0
      && !d.glitch && !d.glitch2 && !d.glitch2End && !d.callFromWrite
  {
    hide CpuInv, Executed;
    ResetInv(held);
  }

  lemma SecondCycle(n: Nes, input: Input)
    requires NesInv(n) && InputOk(input)
    requires n.dmc.timer == 1019 && !n.dmc.filled && n.dmc.length == 1 && n.dmc.countdown == -1 && n.dmc.delay == 0
    requires !n.dmc.glitch && !n.dmc.glitch2 && !n.dmc.glitch2End && !n.dmc.callFromWrite
    ensures CpuInv(n.cpu)
    ensures var r := RunCpuOne(n, input).nes; r.dmcExec && r.dmc.countdown == 3
  {
    hide CpuInv, Executed, NesInv, InputOk;
    InvFacts(n);
  }

  /** While the CPU is on its way, RDY stays high. */
  lemma BootCall(n: Nes, j: nat, held: Cpu)
    requires Abandoned(n) && Booting(n.cpu, j)
    ensures NoSample(StaOamDma(held))
    ensures var call := RunCpuOne(n, StaOamDma(held));
      && Abandoned(call.nes)
      && (j < 10 ==> Booting(call.nes.cpu, j + 1)) && (j == 10 ==> !call.nes.cpu.rdy)
  {
    hide CpuInv, Executed, OamStepped, OamOps, Ticked, RunDmc, StartsNow, Booting;
    var input := StaOamDma(held);
    AbandonedCall(n, input);
    AbandonedUnit(n.dmc);
    BootLines(n.cpu, j);
    var m := BeforeCpu(n, input);
    assert m.cpu == n.cpu.(irq := false, nmi := false);
    BootStep(m.cpu, j, input.choice);
    if j < 10 { BootLines(Executed(m.cpu, input.choice).cpu, j + 1); }
  }

  lemma BootLines(c: Cpu, j: nat)
    requires Booting(c, j)
    ensures c.rdy && !c.irq && !c.nmi && c.(irq := false, nmi := false) == c && c.(rdy := true) == c
  {
  }

  lemma {:induction false} Boots(n: Nes, j: nat, held: Cpu, after: seq<Input>)
    requires Abandoned(n) && Booting(n.cpu, j) && forall i | i in after :: NoSample(i)
    ensures var boot := seq(11 - j, _ => StaOamDma(held));
      (forall i | i in boot + after :: NoSample(i)) && !Onwards(n, boot + after).cpu.rdy
    decreases 11 - j
  {
    hide Abandoned, NoSample, RunCpuOne, Booting, StaOamDma;
    BootCall(n, j, held);
    AbandonedCpu(n);
    BootBound(n.cpu, j);
    var boot := seq(11 - j, _ => StaOamDma(held));
    assert boot + after != [] && (boot + after)[0] == StaOamDma(held);
    if j < 10 {
      Boots(RunCpuOne(n, StaOamDma(held)).nes, j + 1, held, after);
      assert (boot + after)[1..] == seq(11 - (j + 1), _ => StaOamDma(held)) + after;
    } else {
      assert (boot + after)[1..] == after;
      StaysLow(RunCpuOne(n, StaOamDma(held)).nes, after);
    }
  }

  lemma BootBound(c: Cpu, j: nat)
    requires Booting(c, j)
    ensures j <= 10
  {
  }

  /** From power-on: a fetch begins, the power button is pressed, the CPU starts, and its first instruction stores to
      $4014. Whatever happens from then on, as long as the DMC is not used, RDY stays low. */
  lemma HaltedForGood(held: Cpu, again: Cpu, pal: bool, after: seq<Input>)
    requires !again.irq && !again.nmi && !again.rdyFreeze && forall i | i in after :: NoSample(i)
    ensures var two := [Sample(held), Sample(held)];
      && NesInv(PoweredOn(held, pal)) && (forall i | i in two :: InputOk(i))
      && var n := PowerPressed(RunAll(PoweredOn(held, pal), two).nes, again, pal);
         var boot := seq(11, _ => StaOamDma(again));
         && Abandoned(n) && n.cpu.rdy && (forall i | i in boot + after :: NoSample(i))
         && !Onwards(n, boot + after).cpu.rdy
  {
    hide RunAll, NesInv, InputOk, NoSample, CpuInv, Onwards;
    FetchBegins(held, pal);
    ResetInv(again);
    var n := PowerPressed(RunAll(PoweredOn(held, pal), [Sample(held), Sample(held)]).nes, again, pal);
    Boots(n, 0, again, after);
  }
}
