/** The PPU's frame driver: three loops of dots, a dead frame after a reset, and the CPU cycles that the
    dots run. */
module PpuFrame {

  /** What a region fixes: the lines around the vertical blank, and whether odd frames drop a dot. */
  datatype Region = Region(preNMIlines: nat, postNMIlines: nat, chopdot: bool)

  const NTSC := Region(1, 20, true)
  const PAL := Region(1, 70, false)
  const DENDY := Region(51, 20, false)
  const RGB := Region(1, 20, false)

  const LINE := 341
  const VISIBLE := 241 // the pre-render line and the 240 that are shown

  /** Whether rendering is on, by the number of dots since power-on. */
  type Rendering = nat -> bool

  /** The odd-frame skip happens if rendering is on at dot 339 of the first visible line, in a frame that began
      with `idleSynch` clear. */
  predicate Skips(r: Region, idleSynch: bool, dots: nat, on: Rendering) {
    r.chopdot && !idleSynch && on(dots + LINE * r.postNMIlines + 339)
  }

  /** The dots of a frame that begins at the vertical blank, `dots` dots after power-on. */
  function FrameLength(r: Region, idleSynch: bool, dots: nat, on: Rendering): (n: nat)
    ensures n == LINE * (VISIBLE + r.preNMIlines + r.postNMIlines) - if Skips(r, idleSynch, dots, on) then 1 else 0
  {
    LINE * r.postNMIlines + (LINE * VISIBLE - if Skips(r, idleSynch, dots, on) then 1 else 0) + LINE * r.preNMIlines
  }

  /** The dots of `n` frames; `idleSynch` changes with every frame. */
  function Elapsed(r: Region, idleSynch: bool, dots: nat, n: nat, on: Rendering): nat
    decreases n
  {
    if n == 0 then 0
    else
      var length := FrameLength(r, idleSynch, dots, on);
      length + Elapsed(r, !idleSynch, dots + length, n - 1, on)
  }

  /** With rendering always on, every second frame of a region that skips is one dot short. */
  lemma {:induction false} ElapsedRendering(r: Region, idleSynch: bool, dots: nat, n: nat, on: Rendering)
    requires r.chopdot && forall d: nat :: on(d)
    ensures Elapsed(r, idleSynch, dots, n, on)
         == LINE * (VISIBLE + r.preNMIlines + r.postNMIlines) * n - (if idleSynch then n / 2 else (n + 1) / 2)
    decreases n
  {
    if n > 0 {
      var length := FrameLength(r, idleSynch, dots, on);
      ElapsedRendering(r, !idleSynch, dots + length, n - 1, on);
      var full := LINE * (VISIBLE + r.preNMIlines + r.postNMIlines);
      assert full * n == full * (n - 1) + full;
    }
  }

  /** Without the skip, or with rendering off, every frame is whole. */
  lemma {:induction false} ElapsedWhole(r: Region, idleSynch: bool, dots: nat, n: nat, on: Rendering)
    requires !r.chopdot || forall d: nat :: !on(d)
    ensures Elapsed(r, idleSynch, dots, n, on) == LINE * (VISIBLE + r.preNMIlines + r.postNMIlines) * n
    decreases n
  {
    if n > 0 {
      var length := FrameLength(r, idleSynch, dots, on);
      ElapsedWhole(r, !idleSynch, dots + length, n - 1, on);
      var full := LINE * (VISIBLE + r.preNMIlines + r.postNMIlines);
      assert full * n == full * (n - 1) + full;
    }
  }

  /** The frames of the four regions, in dots: 262 lines, or 312 with the longer blanking of PAL and Dendy. Only NTSC
      ever drops one: in a frame that begins with `idleSynch` clear, if rendering is on at dot 7159. */
  lemma FrameOfRegion(idleSynch: bool, dots: nat, on: Rendering)
    ensures FrameLength(NTSC, idleSynch, dots, on) == if !idleSynch && on(dots + 7159) then 89341 else 89342
    ensures FrameLength(RGB, idleSynch, dots, on) == 89342
    ensures FrameLength(PAL, idleSynch, dots, on) == 106392 && FrameLength(DENDY, idleSynch, dots, on) == 106392
  {
  }

  class PPU {
    const region: Region
    var cycle: nat
    var sl: nat
    var doVbl: bool
    var doActive: bool
    var doPreVbl: bool
    var ppudead: nat
    var startUpOffset: nat
    var idleSynch: bool
    var evenOddDestiny: bool
    var cpuStepcounter: nat
    var totalCycles: nat

    // the CPU cycles that were run
    ghost var cpuCycles: nat

    ghost predicate Valid()
      reads this
    {
      && region.postNMIlines > 0 && region.preNMIlines > 0 && startUpOffset == 4
      && cpuStepcounter <= 2 && 3 * cpuCycles + cpuStepcounter == totalCycles
    }

    /** Where a frame begins. */
    ghost predicate AtFrame()
      reads this
    {
      Valid() && cycle == 0 && !doActive && !doPreVbl
      && (ppudead == 0 ==> doVbl && sl == VISIBLE + region.preNMIlines)
    }

    constructor (region: Region)
      requires region in {NTSC, PAL, DENDY, RGB}
      ensures this.region == region && AtFrame() && ppudead == 1 && idleSynch && totalCycles == 0
    {
      this.region := region;
      cycle, sl, doVbl, doActive, doPreVbl := 0, 0, false, false, false;
      ppudead, startUpOffset, idleSynch, evenOddDestiny := 1, 4, true, false;
      cpuStepcounter, totalCycles, cpuCycles := 0, 0, 0;
    }

    /** One dot; every third runs a cycle of the CPU. */
    method RunPpu()
      requires Valid()
      modifies this`cycle, this`cpuStepcounter, this`totalCycles, this`cpuCycles
      ensures Valid() && cycle == old(cycle) + 1 && totalCycles == old(totalCycles) + 1
    {
      cycle := cycle + 1;
      cpuStepcounter := cpuStepcounter + 1;
      if cpuStepcounter == 3 {
        cpuStepcounter := 0;
        cpuCycles := cpuCycles + 1;
      }
      totalCycles := totalCycles + 1;
    }

    method InitFrame()
      modifies this`sl, this`cycle
      ensures sl == VISIBLE + region.preNMIlines && cycle == 0
    {
      sl, cycle := 241 + region.preNMIlines, 0;
    }

    /** A dot of the vertical blank. */
    method TickVbl()
      requires Valid() && doVbl && cycle <= 340
      modifies this`cycle, this`sl, this`doVbl, this`doActive, this`idleSynch, this`cpuStepcounter,
        this`totalCycles, this`cpuCycles
      ensures Valid() && totalCycles == old(totalCycles) + 1
      ensures var last := old(sl) == VISIBLE + region.preNMIlines + region.postNMIlines - 1 && old(cycle) == 340;
        && cycle == (if old(cycle) == 340 then 0 else old(cycle) + 1)
        && sl == (if last then 0 else if old(cycle) == 340 then old(sl) + 1 else old(sl))
        && doVbl == !last && doActive == (old(doActive) || last)
        && idleSynch == (if last then !old(idleSynch) else old(idleSynch))
    {
      if cycle == 340 {
        if sl == 241 + region.preNMIlines + region.postNMIlines - 1 {
          idleSynch := !idleSynch;
        }
      }
      RunPpu();
      if cycle == 341 {
        cycle := 0;
        sl := sl + 1;
        if sl == 241 + region.preNMIlines + region.postNMIlines {
          doVbl := false;
          sl := 0;
          doActive := true;
        }
      }
    }

    /** A dot of a visible line, or the end of one, which may run no dot. */
    method TickActive(on: bool)
      requires Valid() && doActive && cycle <= 340
      modifies this`cycle, this`sl, this`doActive, this`doPreVbl, this`evenOddDestiny, this`cpuStepcounter,
        this`totalCycles, this`cpuCycles
      ensures Valid()
      ensures var skip := old(cycle) == 340 && old(sl) == 0 && idleSynch && old(evenOddDestiny) && region.chopdot;
        var last := old(cycle) == 340 && old(sl) == 240;
        && totalCycles == old(totalCycles) + (if skip then 0 else 1)
        && cycle == (if old(cycle) == 340 then 0 else old(cycle) + 1)
        && sl == (if old(cycle) == 340 then old(sl) + 1 else old(sl))
        && doActive == !last && doPreVbl == (old(doPreVbl) || last)
        && evenOddDestiny == if old(cycle) == 339 then on else old(evenOddDestiny)
    {
      if cycle < 336 {
        RunPpu(); // the dots that fetch tiles and sprites
      } else if cycle < 340 {
        if cycle == 339 {
          evenOddDestiny := on;
        }
        RunPpu();
      } else {
        if sl == 0 && idleSynch && evenOddDestiny && region.chopdot {
          cycle := cycle + 1;
        } else {
          RunPpu();
        }
        cycle := 0;
        sl := sl + 1;
        if sl == 241 {
          doActive := false;
          doPreVbl := true;
        }
      }
    }

    /** A dot of the lines before the vertical blank. */
    method TickPreVbl()
      requires Valid() && doPreVbl && cycle <= 340
      modifies this`cycle, this`sl, this`doVbl, this`doPreVbl, this`cpuStepcounter, this`totalCycles, this`cpuCycles
      ensures Valid() && totalCycles == old(totalCycles) + 1
      ensures var last := old(cycle) == 340 && old(sl) == VISIBLE + region.preNMIlines - 1;
        && cycle == (if old(cycle) == 340 then 0 else old(cycle) + 1)
        && sl == (if old(cycle) == 340 then old(sl) + 1 else old(sl))
        && doPreVbl == !last && doVbl == (old(doVbl) || last)
    {
      RunPpu();
      if cycle == 341 {
        cycle := 0;
        sl := sl + 1;
        if sl == 241 + region.preNMIlines {
          doPreVbl := false;
          doVbl := true;
          InitFrame();
        }
      }
    }

    /** A dot of a dead frame. */
    method NewDead()
      requires Valid() && ppudead > 0 && cycle < 241 * 341 - startUpOffset
      modifies this`cycle, this`sl, this`doVbl, this`ppudead, this`cpuStepcounter, this`totalCycles, this`cpuCycles
      ensures Valid() && totalCycles == old(totalCycles) + 1
      ensures var last := old(cycle) == VISIBLE * LINE - startUpOffset - 1;
        && cycle == (if last then 0 else old(cycle) + 1)
        && ppudead == (if last then old(ppudead) - 1 else old(ppudead))
        && (last ==> doVbl && sl == VISIBLE + region.preNMIlines)
    {
      RunPpu();
      if cycle == 241 * 341 - startUpOffset {
        ppudead := ppudead - 1;
        InitFrame();
        doVbl := true;
      }
    }

    /** The dead frames after a reset. */
    method RunDead()
      requires AtFrame() && ppudead > 0
      modifies this`cycle, this`sl, this`doVbl, this`ppudead, this`cpuStepcounter, this`totalCycles, this`cpuCycles
      ensures AtFrame() && ppudead == 0
      ensures totalCycles == old(totalCycles) + old(ppudead) * (VISIBLE * LINE - 4)
    {
      ghost var length := VISIBLE * LINE - 4;
      while ppudead > 0
        invariant Valid() && !doActive && !doPreVbl && ppudead <= old(ppudead)
        invariant cycle < length && (ppudead == 0 ==> cycle == 0 && doVbl && sl == VISIBLE + region.preNMIlines)
        invariant totalCycles == old(totalCycles) + (old(ppudead) - ppudead) * length + cycle
        decreases ppudead, length - cycle
      {
        ghost var dead := ppudead;
        NewDead();
        assert ppudead == dead - 1 ==> (old(ppudead) - ppudead) * length == (old(ppudead) - dead) * length + length;
      }
    }

    /** The vertical blank. */
    method RunVbl()
      requires AtFrame() && ppudead == 0
      modifies this`cycle, this`sl, this`doVbl, this`doActive, this`idleSynch, this`cpuStepcounter,
        this`totalCycles, this`cpuCycles
      ensures Valid() && !doVbl && doActive && sl == 0 && cycle == 0 && idleSynch == !old(idleSynch)
      ensures totalCycles == old(totalCycles) + LINE * region.postNMIlines
    {
      ghost var first := VISIBLE + region.preNMIlines;
      while doVbl
        invariant Valid() && cycle <= 340
        invariant doVbl ==> !doActive && first <= sl < first + region.postNMIlines && idleSynch == old(idleSynch)
        invariant doVbl ==> totalCycles == old(totalCycles) + LINE * (sl - first) + cycle
        invariant !doVbl ==> doActive && sl == 0 && cycle == 0 && idleSynch == !old(idleSynch)
        invariant !doVbl ==> totalCycles == old(totalCycles) + LINE * region.postNMIlines
        decreases if doVbl then LINE * (first + region.postNMIlines - sl) - cycle else 0
      {
        TickVbl();
      }
    }

    /** The visible lines. */
    method RunActive(on: Rendering)
      requires Valid() && doActive && !doPreVbl && sl == 0 && cycle == 0
      modifies this`cycle, this`sl, this`doActive, this`doPreVbl, this`evenOddDestiny, this`cpuStepcounter,
        this`totalCycles, this`cpuCycles
      ensures Valid() && !doActive && doPreVbl && sl == VISIBLE && cycle == 0
      ensures var skip := region.chopdot && idleSynch && on(old(totalCycles) + 339);
        totalCycles == old(totalCycles) + LINE * VISIBLE - if skip then 1 else 0
    {
      ghost var skip := region.chopdot && idleSynch && on(totalCycles + 339);
      while doActive
        invariant Valid() && cycle <= 340 && doPreVbl == !doActive
        invariant if doActive then sl <= 240 else sl == VISIBLE && cycle == 0
        invariant sl == 0 && cycle == 340 ==> evenOddDestiny == on(old(totalCycles) + 339)
        invariant totalCycles == old(totalCycles) + LINE * sl + cycle - if sl > 0 && skip then 1 else 0
        decreases if doActive then LINE * (VISIBLE - sl) - cycle else 0
      {
        TickActive(on(totalCycles));
      }
    }

    method RunPreVbl()
      requires Valid() && doPreVbl && !doVbl && sl == VISIBLE && cycle == 0
      modifies this`cycle, this`sl, this`doVbl, this`doPreVbl, this`cpuStepcounter, this`totalCycles, this`cpuCycles
      ensures Valid() && !doPreVbl && doVbl && sl == VISIBLE + region.preNMIlines && cycle == 0
      ensures totalCycles == old(totalCycles) + LINE * region.preNMIlines
    {
      while doPreVbl
        invariant Valid() && cycle <= 340 && doVbl == !doPreVbl && VISIBLE <= sl
        invariant if doPreVbl then sl < VISIBLE + region.preNMIlines
                  else sl == VISIBLE + region.preNMIlines && cycle == 0
        invariant totalCycles == old(totalCycles) + LINE * (sl - VISIBLE) + cycle
        decreases if doPreVbl then LINE * (VISIBLE + region.preNMIlines - sl) - cycle else 0
      {
        TickPreVbl();
      }
    }

    /** One frame. A live frame has exactly the dots of `FrameLength`; after a reset it is a dead one. */
    method FrameAdvance(on: Rendering)
      requires AtFrame()
      modifies this
      ensures AtFrame() && ppudead == 0
      ensures old(ppudead) == 0 ==>
        totalCycles == old(totalCycles) + FrameLength(region, old(idleSynch), old(totalCycles), on)
        && idleSynch == !old(idleSynch)
      ensures old(ppudead) > 0 ==>
        totalCycles == old(totalCycles) + old(ppudead) * (VISIBLE * LINE - 4) && idleSynch == old(idleSynch)
    {
      if ppudead > 0 {
        RunDead();
      } else {
        RunVbl();
        RunActive(on);
        RunPreVbl();
      }
    }

    /** Frame after frame: the dots add up, and there was a CPU cycle for every three. */
    method Play(n: nat, on: Rendering)
      requires AtFrame() && ppudead == 0
      modifies this
      ensures AtFrame() && ppudead == 0
      ensures totalCycles == old(totalCycles) + Elapsed(region, old(idleSynch), old(totalCycles), n, on)
      ensures 3 * cpuCycles + cpuStepcounter == totalCycles && cpuStepcounter <= 2
    {
      for i := 0 to n
        invariant AtFrame() && ppudead == 0
        invariant totalCycles + Elapsed(region, idleSynch, totalCycles, n - i, on)
               == old(totalCycles) + Elapsed(region, old(idleSynch), old(totalCycles), n, on)
      {
        FrameAdvance(on);
      }
    }

    method NESSoftReset()
      requires AtFrame()
      modifies this`cycle, this`sl, this`ppudead, this`idleSynch, this`startUpOffset
      ensures AtFrame() && ppudead == 1 && idleSynch
    {
      cycle, sl := 0, 0;
      ppudead, idleSynch, startUpOffset := 1, true, 4;
    }
  }
}
