/** The MMC3's interrupt unit as an object. */
module Mmc3Unit {
  import opened Bits
  import opened Mmc3

  class MMC3 {
    var a12Old: bool
    var separatorCounter: nat
    var irqCountdown: nat
    var irqCounter: nat
    var irqReload: nat
    var irqEnable: bool
    var irqPending: bool
    var irqSignal: bool
    var justCleared: bool
    var justClearedPending: bool

    ghost function View(): Irq
      reads this
    {
      Irq(a12Old, separatorCounter, irqCountdown, irqCounter, irqReload, irqEnable, irqPending, irqSignal,
          justCleared, justClearedPending)
    }

    constructor ()
      ensures View() == START
    {
      a12Old, separatorCounter, irqCountdown := false, 0, 0;
      irqCounter, irqReload, irqEnable, irqPending, irqSignal := 0, 0, false, false, false;
      justCleared, justClearedPending := false, false;
    }

    method AddressPpu(addr: nat)
      modifies this`a12Old, this`separatorCounter, this`irqCountdown
      ensures View() == Addressed(old(View()), addr)
    {
      if addr >= 0x3F00 {
        return;
      }
      var a12 := A12(addr);
      if a12 && !a12Old {
        if separatorCounter > 0 {
          separatorCounter := 15;
        } else {
          separatorCounter := 15;
          irqCountdown := 5;
        }
      }
      a12Old := a12;
    }

    method ClockMmc3Irq()
      modifies this`irqCounter, this`irqPending, this`irqSignal
      ensures View() == Clocked(old(View()))
    {
      if irqCounter == 0 {
        irqCounter := irqReload;
      } else {
        irqCounter := irqCounter - 1;
      }
      if irqCounter == 0 {
        if irqEnable {
          irqPending := true;
        }
        irqSignal := irqPending;
      }
    }

    method ClockPpu()
      modifies this`separatorCounter, this`irqCountdown, this`irqCounter, this`irqPending, this`irqSignal,
        this`justCleared, this`justClearedPending
      ensures View() == Dotted(old(View()))
    {
      hide Clocked;
      if separatorCounter > 0 {
        separatorCounter := separatorCounter - 1;
      }
      if irqCountdown > 0 {
        irqCountdown := irqCountdown - 1;
        if irqCountdown == 0 {
          ClockMmc3Irq();
        }
      }
      assert View() == if ClocksNow(old(View())) then Clocked(Counted(old(View()))) else Counted(old(View()));
      if justCleared {
        irqCounter := 0;
      }
      justCleared := justClearedPending;
      justClearedPending := false;
    }

    /** The writes that concern the interrupt; the others go to the bank registers. */
    method WriteMmc3(addr: nat, value: Byte)
      modifies this`irqReload, this`justClearedPending, this`irqEnable, this`irqPending, this`irqSignal
      ensures View() == Wrote(old(View()), addr, value)
    {
      match (addr / 0x2000 % 4, addr % 2) {
        case (2, 0) => irqReload := value as nat;
        case (2, 1) => justClearedPending := true;
        case (3, 0) =>
          irqEnable := false;
          irqPending := false;
          irqSignal := irqPending;
        case (3, 1) =>
          irqEnable := true;
          irqSignal := irqPending;
        case _ =>
      }
    }

    /** A run of the unit is the run of its specification. */
    method Play(events: seq<Event>)
      modifies this
      ensures View() == After(old(View()), events, |events|)
    {
      for i := 0 to |events|
        invariant View() == After(old(View()), events, i)
      {
        match events[i] {
          case Address(addr) => AddressPpu(addr);
          case Dot => ClockPpu();
          case Write(addr, value) => WriteMmc3(addr, value);
        }
      }
    }
  }
}
