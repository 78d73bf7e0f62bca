/** The scanline interrupt of the MMC3: an edge filter on PPU address line A12, a delay, and a counter. */
module Mmc3 {
  import opened Bits

  /** `separator` counts the dots in which another rise is ignored, `countdown` those until the counter is
      clocked. */
  datatype Irq = Irq(
    a12: bool, separator: nat, countdown: nat,
    counter: nat, reload: nat, enable: bool, pending: bool, signal: bool,
    justCleared: bool, clearedPending: bool)

  /** The address the PPU puts on its bus, a dot, and a write of the CPU. */
  datatype Event = Address(addr: nat) | Dot | Write(addr: nat, value: Byte)

  const FILTER := 15
  const DELAY := 5

  predicate A12(addr: nat) { addr / 0x1000 % 2 == 1 }

  /** MMC3 does not see the palette and beyond. */
  predicate Seen(addr: nat) { addr < 0x3F00 }

  function Addressed(m: Irq, addr: nat): Irq {
    if !Seen(addr) then m
    else if A12(addr) && !m.a12 then
      m.(a12 := true, separator := FILTER, countdown := if m.separator > 0 then m.countdown else DELAY)
    else m.(a12 := A12(addr))
  }

  /** The counter is clocked. */
  function Clocked(m: Irq): Irq {
    var counter := if m.counter == 0 then m.reload else m.counter - 1;
    if counter == 0 then
      m.(counter := 0, pending := m.pending || m.enable, signal := m.pending || m.enable)
    else m.(counter := counter)
  }

  function Counted(m: Irq): Irq {
    m.(separator := if m.separator > 0 then m.separator - 1 else 0,
       countdown := if m.countdown > 0 then m.countdown - 1 else 0)
  }

  predicate ClocksNow(m: Irq) { m.countdown == 1 }

  function Dotted(m: Irq): Irq {
    var n := if ClocksNow(m) then Clocked(Counted(m)) else Counted(m);
    n.(counter := if m.justCleared then 0 else n.counter, justCleared := m.clearedPending, clearedPending := false)
  }

  /** $C000, $C001, $E000 and $E001, by the address lines that select them; the rest are bank registers. */
  function Wrote(m: Irq, addr: nat, value: Byte): Irq {
    var select := (addr / 0x2000 % 4, addr % 2);
    if select == (2, 0) then m.(reload := value as nat)
    else if select == (2, 1) then m.(clearedPending := true)
    else if select == (3, 0) then m.(enable := false, pending := false, signal := false)
    else if select == (3, 1) then m.(enable := true, signal := m.pending)
    else m
  }

  function Step(m: Irq, e: Event): Irq {
    match e
    case Address(addr) => Addressed(m, addr)
    case Dot => Dotted(m)
    case Write(addr, value) => Wrote(m, addr, value)
  }

  /** The unit after the first `n` events. */
  function After(m: Irq, events: seq<Event>, n: nat): Irq
    requires n <= |events|
  {
    if n == 0 then m else Step(After(m, events, n - 1), events[n - 1])
  }

  // ---- when the counter is clocked, in terms of the events alone ----

  /** Line A12 as the unit last saw it before event `i`. */
  predicate Level(a12: bool, events: seq<Event>, i: nat)
    requires i <= |events|
  {
    if i == 0 then a12
    else if events[i - 1].Address? && events[i - 1].addr < 0x3F00 then events[i - 1].addr % 0x2000 >= 0x1000
    else Level(a12, events, i - 1)
  }

  predicate Rise(a12: bool, events: seq<Event>, i: nat)
    requires i < |events|
  {
    events[i].Address? && events[i].addr < 0x3F00 && events[i].addr % 0x2000 >= 0x1000 && !Level(a12, events, i)
  }

  /** The dots among events `i` up to `j`. */
  function Dots(events: seq<Event>, i: nat, j: nat): nat
    requires i <= j <= |events|
    decreases j
  {
    if i == j then 0 else Dots(events, i, j - 1) + if events[j - 1].Dot? then 1 else 0
  }

  /** A rise that counts: no rise in the fifteen dots before it. */
  predicate Qualifies(a12: bool, events: seq<Event>, i: nat)
    requires i < |events|
  {
    Rise(a12, events, i) && forall k: nat | k < i :: Rise(a12, events, k) ==> Dots(events, k, i) >= 15
  }

  /** What the two counters hold after `n` events: the time since the last rise, and since the last that
      counted. */
  ghost predicate Tracks(m: Irq, events: seq<Event>, n: nat, s: Irq)
    requires n <= |events|
  {
    && s.a12 == Level(m.a12, events, n)
    && s.separator <= FILTER && s.countdown <= DELAY && (s.countdown > 0 ==> s.separator >= s.countdown + 10)
    && (forall k: nat | k < n && Rise(m.a12, events, k) :: s.separator + Dots(events, k, n) >= FILTER)
    && (s.separator > 0 ==>
          exists k: nat :: k < n && Rise(m.a12, events, k) && s.separator + Dots(events, k, n) == FILTER)
    && (forall k: nat | k < n && Qualifies(m.a12, events, k) ::
          Dots(events, k, n) < DELAY ==> s.countdown + Dots(events, k, n) == DELAY)
    && (s.countdown > 0 ==>
          exists k: nat :: k < n && Qualifies(m.a12, events, k) && s.countdown + Dots(events, k, n) == DELAY)
  }

  /** One more event, and the distance to it. */
  lemma DotsNext(events: seq<Event>, n: nat)
    requires 0 < n <= |events|
    ensures forall k: nat | k < n :: Dots(events, k, n) == Dots(events, k, n - 1) + if events[n - 1].Dot? then 1 else 0
  {
  }

  lemma TrackedWrite(m: Irq, events: seq<Event>, n: nat, s: Irq)
    requires 0 < n <= |events| && events[n - 1].Write? && Tracks(m, events, n - 1, s)
    ensures Tracks(m, events, n, Step(s, events[n - 1]))
  {
    hide A12, Dots, Qualifies, Wrote;
    WroteTimers(s, events[n - 1].addr, events[n - 1].value);
    DotsNext(events, n);
    assert !Rise(m.a12, events, n - 1);
    assert !Qualifies(m.a12, events, n - 1) by { QualifiesRise(m.a12, events, n - 1); }
  }

  lemma QualifiesRise(a12: bool, events: seq<Event>, i: nat)
    requires i < |events|
    ensures Qualifies(a12, events, i) ==> Rise(a12, events, i)
  {
    hide Rise, Dots;
  }

  lemma WroteTimers(s: Irq, addr: nat, value: Byte)
    ensures var t := Wrote(s, addr, value); t.a12 == s.a12 && t.separator == s.separator && t.countdown == s.countdown
  {
  }

  lemma DottedTimers(s: Irq)
    ensures var t := Dotted(s);
      t.a12 == s.a12 && t.separator == Counted(s).separator && t.countdown == Counted(s).countdown
  {
  }

  lemma TrackedDot(m: Irq, events: seq<Event>, n: nat, s: Irq)
    requires 0 < n <= |events| && events[n - 1].Dot? && Tracks(m, events, n - 1, s)
    ensures Tracks(m, events, n, Step(s, events[n - 1]))
  {
    hide A12, Dots, Qualifies, Dotted;
    DotsNext(events, n);
    DottedTimers(s);
    assert !Rise(m.a12, events, n - 1);
    assert !Qualifies(m.a12, events, n - 1) by { QualifiesRise(m.a12, events, n - 1); }
  }

  lemma TrackedAddress(m: Irq, events: seq<Event>, n: nat, s: Irq)
    requires 0 < n <= |events| && events[n - 1].Address? && Tracks(m, events, n - 1, s)
    ensures Tracks(m, events, n, Step(s, events[n - 1]))
  {
    hide A12, Dots, Qualifies, Rise;
    DotsNext(events, n);
    DotsNone(events, n - 1);
    RiseIs(m.a12, events, n - 1, s.a12);
    var i := n - 1;
    assert Dots(events, i, n) == 0;
    if Rise(m.a12, events, i) {
      if s.separator > 0 {
        var k: nat :| k < i && Rise(m.a12, events, k) && s.separator + Dots(events, k, i) == FILTER;
        assert !Qualifies(m.a12, events, i) by { NotQualified(m.a12, events, i, k); }
      } else {
        assert Qualifies(m.a12, events, i) by { Qualified(m.a12, events, i); }
        forall k: nat | k < i && Qualifies(m.a12, events, k) ensures Dots(events, k, n) >= FILTER {
          QualifiesRise(m.a12, events, k);
        }
      }
    } else {
      QualifiesRise(m.a12, events, i);
    }
  }

  lemma RiseIs(a12: bool, events: seq<Event>, i: nat, level: bool)
    requires i < |events| && events[i].Address? && level == Level(a12, events, i)
    ensures Rise(a12, events, i) <==> Seen(events[i].addr) && A12(events[i].addr) && !level
    ensures Level(a12, events, i + 1) == if Seen(events[i].addr) then A12(events[i].addr) else level
  {
  }

  lemma NotQualified(a12: bool, events: seq<Event>, i: nat, k: nat)
    requires k < i < |events| && Rise(a12, events, k) && Dots(events, k, i) < FILTER
    ensures !Qualifies(a12, events, i)
  {
  }

  lemma Qualified(a12: bool, events: seq<Event>, i: nat)
    requires i < |events| && Rise(a12, events, i)
    requires forall k: nat | k < i && Rise(a12, events, k) :: Dots(events, k, i) >= FILTER
    ensures Qualifies(a12, events, i)
  {
  }

  lemma DotsNone(events: seq<Event>, i: nat)
    requires i <= |events|
    ensures Dots(events, i, i) == 0
  {
  }

  lemma {:induction false} Tracked(m: Irq, events: seq<Event>, n: nat)
    requires n <= |events| && m.separator == 0 && m.countdown == 0
    ensures Tracks(m, events, n, After(m, events, n))
    decreases n
  {
    hide A12;
    if n > 0 {
      Tracked(m, events, n - 1);
      var s := After(m, events, n - 1);
      match events[n - 1]
      case Address(addr) => TrackedAddress(m, events, n, s);
      case Dot => TrackedDot(m, events, n, s);
      case Write(_, _) => TrackedWrite(m, events, n, s);
    }
  }

  /** The counter is clocked in exactly the fifth dot after each rise of A12 that no other rise precedes by fewer
      than fifteen dots, and in no other dot. */
  lemma ClockedFiveDotsAfter(m: Irq, events: seq<Event>, n: nat)
    requires n < |events| && events[n].Dot? && m.separator == 0 && m.countdown == 0
    ensures ClocksNow(After(m, events, n))
       <==> exists k: nat :: k < n && Qualifies(m.a12, events, k) && Dots(events, k, n + 1) == 5
  {
    hide A12, Qualifies, Dots;
    Tracked(m, events, n);
    DotsNext(events, n + 1);
  }

  // ---- the counter ----

  /** How often the counter was clocked in the first `n` events. */
  function Clocks(m: Irq, events: seq<Event>, n: nat): nat
    requires n <= |events|
  {
    if n == 0 then 0
    else Clocks(m, events, n - 1) + if events[n - 1].Dot? && ClocksNow(After(m, events, n - 1)) then 1 else 0
  }

  /** No write to the unit's own registers. */
  predicate Undisturbed(events: seq<Event>) {
    forall i: nat | i < |events| :: events[i].Write? ==> events[i].addr / 0x2000 % 4 < 2
  }

  /** From zero, with a steady reload value N, the counter is at zero exactly after every (N+1)-th clock, and the
      interrupt is pending from the first of them on. */
  lemma {:induction false} EveryReload(m: Irq, events: seq<Event>, n: nat)
    requires n <= |events| && Undisturbed(events)
    requires m.counter == 0 && m.enable && !m.pending && !m.signal && !m.justCleared && !m.clearedPending
    ensures var s := After(m, events, n);
      var period := m.reload + 1;
      var clocks := Clocks(m, events, n);
      && s.counter == (if clocks % period == 0 then 0 else period - clocks % period)
      && s.pending == (clocks >= period) && s.signal == s.pending
      && s.reload == m.reload && s.enable && !s.justCleared && !s.clearedPending
    decreases n
  {
    hide Addressed, Wrote, Dotted;
    if n > 0 {
      EveryReload(m, events, n - 1);
      var s := After(m, events, n - 1);
      match events[n - 1]
      case Address(addr) => AddressedCounter(s, addr);
      case Write(addr, value) => WroteElsewhere(s, addr, value);
      case Dot =>
        DottedCounter(s);
        NextClock(Clocks(m, events, n - 1), m.reload + 1);
    }
  }

  lemma WroteElsewhere(s: Irq, addr: nat, value: Byte)
    requires addr / 0x2000 % 4 < 2
    ensures Wrote(s, addr, value) == s
  {
  }

  lemma DottedCounter(s: Irq)
    requires !s.justCleared && !s.clearedPending && s.enable
    ensures var t := Dotted(s);
      && t.counter == (if !ClocksNow(s) then s.counter else if s.counter == 0 then s.reload else s.counter - 1)
      && t.pending == (s.pending || (ClocksNow(s) && t.counter == 0))
      && t.signal == (if ClocksNow(s) && t.counter == 0 then t.pending else s.signal)
      && t.reload == s.reload && t.enable && !t.justCleared && !t.clearedPending
  {
    if ClocksNow(s) {} else {}
  }

  lemma AddressedCounter(s: Irq, addr: nat)
    ensures var t := Addressed(s, addr);
      t == s.(a12 := t.a12, separator := t.separator, countdown := t.countdown)
  {
  }

  lemma NextClock(clocks: nat, period: nat)
    requires period > 0
    ensures (clocks + 1) % period == (if clocks % period == period - 1 then 0 else clocks % period + 1)
    ensures clocks + 1 < period ==> clocks % period == clocks
    ensures clocks % period == 0 || clocks % period <= clocks
    ensures clocks + 1 >= period && clocks < period ==> (clocks + 1) % period == 0
  {
    var q, r := clocks / period, clocks % period;
    assert clocks == q * period + r;
    if r == period - 1 {
      assert clocks + 1 == (q + 1) * period + 0;
      ModIs(clocks + 1, q + 1, period, 0);
    } else {
      ModIs(clocks + 1, q, period, r + 1);
    }
    if clocks < period { ModIs(clocks, 0, period, clocks); }
  }

  lemma ModIs(x: nat, q: nat, period: nat, r: nat)
    requires r < period && x == q * period + r
    ensures x % period == r
  {
    Unique(x, x / period, x % period, q, r, period);
  }

  lemma Unique(x: int, p: int, s: int, q: int, r: int, c: int)
    requires c > 0 && 0 <= r < c && 0 <= s < c && x == q * c + r && x == p * c + s
    ensures p == q && r == s
  {
    assert q * c == p * c + (q - p) * c;
    assert p * c == q * c + (p - q) * c;
    if p < q {
      Times(q - p, c);
    } else if q < p {
      Times(p - q, c);
    }
  }

  lemma {:induction false} Times(d: int, c: int)
    requires d >= 1 && c >= 0
    ensures d * c >= c
    decreases d
  {
    if d > 1 {
      Times(d - 1, c);
      assert d * c == (d - 1) * c + c;
    }
  }

  // ---- the registers, in terms of the events alone ----

  /** The unit as it is made. */
  const START := Irq(false, 0, 0, 0, 0, false, false, false, false, false)

  /** A write that the lines A13, A14 and A0 take to be one to $C000, $C001, $E000 or $E001. */
  predicate To(e: Event, register: nat) {
    e.Write? && 0x8000 + e.addr / 0x2000 % 4 * 0x2000 + e.addr % 2 == register
  }

  /** The reload value: that of the last write to $C000. */
  function ReloadOf(events: seq<Event>, n: nat): nat
    requires n <= |events|
  {
    if n == 0 then 0 else if To(events[n - 1], 0xC000) then events[n - 1].value as nat else ReloadOf(events, n - 1)
  }

  /** The interrupt is enabled: the last of the writes to $E000 and $E001 went to $E001. */
  predicate Enabled(events: seq<Event>, n: nat)
    requires n <= |events|
  {
    n > 0 && (To(events[n - 1], 0xE001) || (!To(events[n - 1], 0xE000) && Enabled(events, n - 1)))
  }

  /** Event `i` is a dot in which the counter is clocked. */
  ghost predicate ClockedAt(events: seq<Event>, i: nat)
    requires i < |events|
  {
    events[i].Dot? && exists k: nat :: k < i && Qualifies(false, events, k) && Dots(events, k, i + 1) == 5
  }

  /** After `n` events, the last write to $C001 but for those that are older or newer lies `dots` dots back. */
  ghost predicate ClearAgo(events: seq<Event>, n: nat, dots: nat)
    requires n <= |events|
  {
    exists k: nat :: k < n && To(events[k], 0xC001) && Dots(events, k, n) == dots
  }

  /** What a clock in event `i` leaves in the counter. */
  ghost function Left(events: seq<Event>, i: nat): nat
    requires i < |events|
    decreases i, 1
  {
    if Counter(events, i) == 0 then ReloadOf(events, i) else Counter(events, i) - 1
  }

  /** The counter: a clock takes one off or reloads it, and the second dot after a write to $C001 clears it. */
  ghost function Counter(events: seq<Event>, n: nat): nat
    requires n <= |events|
    decreases n, 0
  {
    if n == 0 then 0
    else if events[n - 1].Dot? && ClearAgo(events, n - 1, 1) then 0
    else if ClockedAt(events, n - 1) then Left(events, n - 1)
    else Counter(events, n - 1)
  }

  /** A clock leaves zero in the counter while the interrupt is enabled. */
  ghost predicate Raises(events: seq<Event>, i: nat)
    requires i < |events|
  {
    ClockedAt(events, i) && Left(events, i) == 0 && Enabled(events, i)
  }

  /** One of these since the last write to $E000. */
  ghost predicate Pends(events: seq<Event>, n: nat)
    requires n <= |events|
  {
    exists i: nat :: i < n && Raises(events, i) && forall j: nat | i < j < n :: !To(events[j], 0xE000)
  }

  lemma PendsNext(events: seq<Event>, n: nat)
    requires 0 < n <= |events|
    ensures Pends(events, n)
       <==> Raises(events, n - 1) || (Pends(events, n - 1) && !To(events[n - 1], 0xE000))
  {
    hide Raises, To;
  }

  lemma ClearNext(events: seq<Event>, n: nat, dots: nat)
    requires 0 < n <= |events|
    ensures events[n - 1].Dot? ==> (ClearAgo(events, n, dots) <==> dots > 0 && ClearAgo(events, n - 1, dots - 1))
    ensures !events[n - 1].Dot? ==>
      (ClearAgo(events, n, dots) <==> ClearAgo(events, n - 1, dots) || (dots == 0 && To(events[n - 1], 0xC001)))
  {
    hide To;
    DotsNext(events, n);
    DotsNone(events, n - 1);
    assert Dots(events, n - 1, n) == if events[n - 1].Dot? then 1 else 0;
    assert events[n - 1].Dot? ==> !To(events[n - 1], 0xC001) by { DotIsNoWrite(events[n - 1]); }
  }

  lemma DotIsNoWrite(e: Event)
    ensures To(e, 0xC001) || To(e, 0xE000) || To(e, 0xE001) || To(e, 0xC000) ==> e.Write?
  {
  }

  /** What the registers of the unit hold after `n` events, in terms of the events alone. */
  ghost predicate Registers(events: seq<Event>, n: nat, s: Irq)
    requires n <= |events|
  {
    && s.reload == ReloadOf(events, n) && s.enable == Enabled(events, n)
    && s.counter == Counter(events, n)
    && (s.clearedPending <==> ClearAgo(events, n, 0)) && (s.justCleared <==> ClearAgo(events, n, 1))
    && (s.pending <==> Pends(events, n)) && s.signal == s.pending
  }

  lemma RegistersWrite(events: seq<Event>, n: nat, s: Irq)
    requires 0 < n <= |events| && events[n - 1].Write? && Registers(events, n - 1, s)
    ensures Registers(events, n, Wrote(s, events[n - 1].addr, events[n - 1].value))
  {
    hide Pends, ClearAgo, ClockedAt;
    PendsNext(events, n);
    ClearNext(events, n, 0);
    ClearNext(events, n, 1);
    assert !ClockedAt(events, n - 1) by { NotClocked(events, n - 1); }
  }

  lemma NotClocked(events: seq<Event>, i: nat)
    requires i < |events|
    ensures ClockedAt(events, i) ==> events[i].Dot?
  {
  }

  lemma RegistersAddress(events: seq<Event>, n: nat, s: Irq)
    requires 0 < n <= |events| && events[n - 1].Address? && Registers(events, n - 1, s)
    ensures Registers(events, n, Addressed(s, events[n - 1].addr))
  {
    hide Pends, ClearAgo, ClockedAt, Addressed;
    AddressedCounter(s, events[n - 1].addr);
    PendsNext(events, n);
    ClearNext(events, n, 0);
    ClearNext(events, n, 1);
    assert !ClockedAt(events, n - 1) by { NotClocked(events, n - 1); }
  }

  lemma RegistersDot(events: seq<Event>, n: nat, s: Irq)
    requires 0 < n <= |events| && events[n - 1].Dot? && Registers(events, n - 1, s)
    requires ClocksNow(s) == ClockedAt(events, n - 1)
    ensures Registers(events, n, Dotted(s))
  {
    hide Pends, ClearAgo, ClockedAt, Dotted, ClocksNow;
    PendsNext(events, n);
    ClearNext(events, n, 0);
    ClearNext(events, n, 1);
    DottedRegisters(s);
    assert !To(events[n - 1], 0xE000) && !To(events[n - 1], 0xE001) && !To(events[n - 1], 0xC000);
    assert ReloadOf(events, n) == s.reload && Enabled(events, n) == s.enable;
    assert Dotted(s).counter == Counter(events, n);
    assert Dotted(s).pending == Pends(events, n);
  }

  lemma DottedRegisters(s: Irq)
    ensures var t := Dotted(s);
      var left := if s.counter == 0 then s.reload else s.counter - 1;
      && t.reload == s.reload && t.enable == s.enable && t.justCleared == s.clearedPending && !t.clearedPending
      && t.counter == (if s.justCleared then 0 else if ClocksNow(s) then left else s.counter)
      && t.pending == (s.pending || (ClocksNow(s) && left == 0 && s.enable))
      && t.signal == (if ClocksNow(s) && left == 0 then t.pending else s.signal)
  {
    hide ClocksNow;
    if ClocksNow(s) {} else {}
  }

  /** Over every run of a new unit, writes included: the reload value is that of the last write to $C000; the interrupt
      is pending just if, since the last write to $E000, a clock left zero in the counter while the last of the writes
      to $E000 and $E001 was to $E001; and the line is what is pending. */
  lemma {:induction false} RegistersHold(events: seq<Event>, n: nat)
    requires n <= |events|
    ensures Registers(events, n, After(START, events, n))
    decreases n
  {
    hide Registers, Addressed, Wrote, Dotted, ClocksNow, ClockedAt;
    if n == 0 {
      RegistersStart(events);
    } else {
      RegistersHold(events, n - 1);
      var s := After(START, events, n - 1);
      match events[n - 1]
      case Address(_) => RegistersAddress(events, n, s);
      case Write(_, _) => RegistersWrite(events, n, s);
      case Dot =>
        ClockIs(events, n - 1);
        RegistersDot(events, n, s);
    }
  }

  lemma RegistersStart(events: seq<Event>)
    ensures Registers(events, 0, START)
  {
  }

  lemma ClockIs(events: seq<Event>, i: nat)
    requires i < |events| && events[i].Dot?
    ensures ClocksNow(After(START, events, i)) == ClockedAt(events, i)
  {
    hide ClocksNow, Qualifies, After;
    ClockedFiveDotsAfter(START, events, i);
  }

  /** A write to $C001 takes effect in the second dot after it: the counter is zero then. */
  lemma ClearedTwoDotsLater(m: Irq, addr: nat, value: Byte)
    requires addr / 0x2000 % 4 == 2 && addr % 2 == 1
    ensures var s := Dotted(Wrote(m, addr, value));
      && (!m.justCleared ==> s.counter == Dotted(m).counter)
      && Dotted(s).counter == 0
  {
  }
}
