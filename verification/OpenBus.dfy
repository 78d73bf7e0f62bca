/** The PPU's open bus: eight bits that each fade about a second after they were last driven. The
    emulated timers are owed their steps in batches; the machine that steps them every cycle is `Bus`. */
module OpenBus {
  import opened Bits

  const DECAY: nat := 1786840

  // ---- the machine as it would be, stepped every cycle ----

  datatype Bus = Bus(value: Byte, timer: seq<nat>) {
    ghost predicate Ok() { |timer| == 8 }

    /** One cycle without an access: a bit whose timer is at zero is cleared and its timer restarts. */
    function Faded(): (r: Bus)
      requires Ok()
      ensures r.Ok()
    {
      Bus(ByteOf(seq(8, i requires 0 <= i < 8 => BitAt(value, i) && timer[i] != 0)),
          seq(8, i requires 0 <= i < 8 => if timer[i] == 0 then DECAY else timer[i] - 1))
    }

    function Driven(v: Byte): Bus { Bus(v, timer) }

    /** The timers of bits `lo .. hi` restart. */
    function Restarted(lo: nat, hi: nat): Bus
      requires Ok() && lo <= hi <= 8
    {
      Bus(value, seq(8, i requires 0 <= i < 8 => if lo <= i < hi then DECAY else timer[i]))
    }
  }

  /** A register access, with what the rest of the PPU contributes to it: the three status bits of
      $2002, the byte of $2004 or of the $2007 buffer, the colour of a palette read. Reads of the other
      registers, and a $2007 read right after another, find only the bus. */
  datatype Access =
    | ReadStatus(vblank: bool, hit: bool, overflow: bool)
    | ReadByte(v: Byte)
    | ReadPalette(colour: Byte)
    | ReadBusOnly
    | Write(v: Byte)

  /** What an access reads when the bus has the given value. */
  function Answer(bus: Byte, a: Access): Byte {
    match a
    case ReadStatus(vblank, hit, overflow) => ByteOf(BitsOf(bus)[..5] + [overflow, hit, vblank])
    case ReadByte(v) => v
    case ReadPalette(colour) => ByteOf(BitsOf(colour)[..6] + BitsOf(bus)[6..])
    case ReadBusOnly => bus
    case Write(v) => v
  }

  /** What an access does to the bus: the bits it drives do not fade for a while. Writes and bus-only
      reads restart no timer. */
  function After(b: Bus, a: Access): (r: Bus)
    requires b.Ok()
    ensures r.Ok()
  {
    match a
    case ReadStatus(_, _, _) => b.Driven(Answer(b.value, a)).Restarted(5, 8)
    case ReadByte(_) => b.Driven(Answer(b.value, a)).Restarted(0, 8)
    case ReadPalette(_) => b.Driven(Answer(b.value, a)).Restarted(0, 6)
    case ReadBusOnly => b
    case Write(v) => b.Driven(v)
  }

  /** The accesses made within a cycle, and what they read. */
  function AccessesOn(b: Bus, accesses: seq<Access>): (r: (Bus, seq<Byte>))
    requires b.Ok()
    ensures r.0.Ok()
    decreases |accesses|
  {
    if accesses == [] then (b, [])
    else
      var rest := AccessesOn(After(b, accesses[0]), accesses[1..]);
      (rest.0, [Answer(b.value, accesses[0])] + rest.1)
  }

  /** CPU cycles on the per-cycle machine, each with any number of accesses before its step of decay; and what the
      accesses read. */
  function CyclesOn(b: Bus, schedule: seq<seq<Access>>): (r: (Bus, seq<Byte>))
    requires b.Ok()
    ensures r.0.Ok()
    decreases |schedule|
  {
    if schedule == [] then (b, [])
    else
      var now := AccessesOn(b, schedule[0]);
      var rest := CyclesOn(now.0.Faded(), schedule[1..]);
      (rest.0, now.1 + rest.1)
  }

  /** `n` cycles without an access. */
  function Fade(b: Bus, n: nat): (r: Bus)
    requires b.Ok()
    ensures r.Ok()
    decreases n
  {
    if n == 0 then b else Fade(b.Faded(), n - 1)
  }

  /** The bits that an access drives for a second to come, the lowest being bit 0: the three status bits, a whole byte,
      the six bits of a colour, or none. */
  predicate Drives(a: Access, i: nat) {
    (a.ReadStatus? && i >= 5) || a.ReadByte? || (a.ReadPalette? && i < 6)
  }

  /** A single access, bit by bit: a read of $2002 has the vertical blank in bit 7, the sprite hit in bit 6 and the
      overflow in bit 5, and a palette read its colour in the low six; the other bits are the bus's. What is read or
      written stays on the bus, and a timer restarts just if its bit is driven. */
  lemma AccessBits(b: Bus, a: Access, i: nat)
    requires b.Ok() && i < 8
    ensures var r := AccessesOn(b, [a]);
      && |r.1| == 1 && r.0.value == r.1[0]
      && BitAt(r.1[0], i) == (match a
                              case ReadStatus(vblank, hit, overflow) =>
                                if i == 7 then vblank else if i == 6 then hit else if i == 5 then overflow
                                else BitAt(b.value, i)
                              case ReadPalette(colour) => BitAt(if i < 6 then colour else b.value, i)
                              case ReadByte(v) => BitAt(v, i)
                              case ReadBusOnly => BitAt(b.value, i)
                              case Write(v) => BitAt(v, i))
      && r.0.timer[i] == if Drives(a, i) then 1786840 else b.timer[i]
  {
    hide BitsOf;
    assert [a][1..] == [];
    var now := After(b, a);
    assert AccessesOn(now, []) == (now, []);
    assert BitsOf(b.value)[i] == BitAt(b.value, i);
    match a
    case ReadStatus(vblank, hit, overflow) =>
      assert BitsOf(Answer(b.value, a)) == BitsOf(b.value)[..5] + [overflow, hit, vblank];
    case ReadPalette(colour) =>
      assert BitsOf(Answer(b.value, a)) == BitsOf(colour)[..6] + BitsOf(b.value)[6..];
    case _ =>
  }

  // ---- what many cycles do to one bit ----

  /** A single timer after `n` steps, and whether it ran out meanwhile. */
  function TimerAfter(t: nat, n: nat): nat
    decreases n
  {
    if n == 0 then t else TimerAfter(if t == 0 then DECAY else t - 1, n - 1)
  }

  lemma {:induction false} FadeBitwise(b: Bus, n: nat)
    requires b.Ok()
    ensures forall i: nat | i < 8 :: Fade(b, n).timer[i] == TimerAfter(b.timer[i], n)
    ensures forall i: nat | i < 8 :: BitAt(Fade(b, n).value, i) == (BitAt(b.value, i) && n <= b.timer[i])
    decreases n
  {
    if n > 0 {
      hide BitAt;
      var c := b.Faded();
      FadeBitwise(c, n - 1);
      FadedBits(b);
      forall i: nat | i < 8
        ensures BitAt(Fade(b, n).value, i) == (BitAt(b.value, i) && n <= b.timer[i])
      {
      }
    }
  }

  lemma FadedBits(b: Bus)
    requires b.Ok()
    ensures forall i: nat | i < 8 :: BitAt(b.Faded().value, i) == (BitAt(b.value, i) && b.timer[i] != 0)
  {
    var bits := seq(8, i requires 0 <= i < 8 => BitAt(b.value, i) && b.timer[i] != 0);
    assert BitsOf(ByteOf(bits)) == bits;
  }

  lemma {:induction false} FadeFade(b: Bus, m: nat, n: nat)
    requires b.Ok()
    ensures Fade(Fade(b, m), n) == Fade(b, m + n)
    decreases m
  {
    if m > 0 { FadeFade(b.Faded(), m - 1, n); }
  }

  lemma {:induction false} TimerSteps(t: nat, n: nat)
    ensures n <= t ==> TimerAfter(t, n) == t - n
    ensures n == t + 1 ==> TimerAfter(t, n) == DECAY
    decreases n
  {
    if n > 0 { TimerSteps(if t == 0 then DECAY else t - 1, n - 1); }
  }

  lemma {:induction false} TimerCompose(t: nat, m: nat, n: nat)
    ensures TimerAfter(TimerAfter(t, m), n) == TimerAfter(t, m + n)
    decreases m
  {
    if m > 0 { TimerCompose(if t == 0 then DECAY else t - 1, m - 1, n); }
  }

  lemma BusExtensionality(a: Bus, b: Bus)
    requires a.Ok() && b.Ok()
    requires forall i: nat | i < 8 :: a.timer[i] == b.timer[i] && BitAt(a.value, i) == BitAt(b.value, i)
    ensures a == b
  {
    SameByte(a.value, b.value);
    assert a.timer == b.timer;
  }

  // ---- the machine as it is, with steps owed ----

  datatype Decay = NoAction | All | High | Low

  class PpuBus {
    var openBus: Byte
    var decayTimer: array<nat>
    var decayPending: nat
    var decayNextCheck: nat

    /** The state with nothing owed. */
    ghost function Stored(): Bus
      reads this, decayTimer
    {
      Bus(openBus, decayTimer[..])
    }

    /** The per-cycle machine at this moment. */
    ghost function Exact(): (b: Bus)
      requires decayTimer.Length == 8
      reads this, decayTimer
      ensures b.Ok()
    {
      Fade(Stored(), decayPending)
    }

    /** Before the deadline nothing has faded yet, so the stored value is the exact one. */
    ghost predicate Valid()
      reads this, decayTimer
    {
      && decayTimer.Length == 8
      && decayPending < decayNextCheck
      && (forall i: nat | i < 8 :: decayNextCheck <= decayTimer[i] + 1)
    }

    lemma ValueIsExact()
      requires Valid()
      ensures openBus == Exact().value
    {
      FadeBitwise(Stored(), decayPending);
      forall i: nat | i < 8 ensures BitAt(openBus, i) == BitAt(Exact().value, i) {
        assert decayNextCheck <= decayTimer[i] + 1;
      }
      SameByte(openBus, Exact().value);
    }

    constructor ()
      ensures Valid() && fresh(decayTimer)
      ensures decayPending == 0 && Exact() == SILENT_BUS
    {
      openBus := 0;
      decayTimer := new nat[8](i => 0);
      decayPending, decayNextCheck := 0, 1;
      new;
      assert decayTimer[..] == seq(8, i => 0);
    }

    method RecomputeDecayCheck()
      requires decayTimer.Length == 8
      modifies this`decayNextCheck
      ensures forall i: nat | i < 8 :: decayNextCheck <= decayTimer[i] + 1
      ensures exists i: nat :: i < 8 && decayNextCheck == decayTimer[i] + 1
    {
      var m := decayTimer[0];
      for i := 1 to 8
        invariant forall j: nat | j < i :: m <= decayTimer[j]
        invariant exists j: nat :: j < i && m == decayTimer[j]
      {
        if decayTimer[i] < m {
          m := decayTimer[i];
        }
      }
      decayNextCheck := m + 1;
    }

    /** Materializes the owed steps: nothing is owed afterwards, and the machine is where the per-cycle
        one is. */
    method Flush()
      requires decayTimer.Length == 8
      modifies this`openBus, this`decayPending, this`decayNextCheck, decayTimer
      ensures Valid() && decayPending == 0
      ensures Exact() == old(Exact()) == Stored()
    {
      ghost var start := Stored();
      if decayPending > 0 {
        for i := 0 to 8
          invariant decayTimer.Length == 8 && decayPending == old(decayPending)
          invariant forall j: nat | j < 8 :: decayTimer[j]
                      == if j < i then TimerAfter(start.timer[j], decayPending) else start.timer[j]
          invariant forall j: nat | j < 8 :: BitAt(openBus, j)
                      == (BitAt(start.value, j) && (j < i ==> decayPending <= start.timer[j]))
        {
          hide BitAt;
          var t, bus := SettleBit(decayTimer[i], decayPending, openBus, i);
          openBus := bus;
          decayTimer[i] := t;
        }
        FadeBitwise(start, decayPending);
        BusExtensionality(Stored(), Fade(start, decayPending));
        decayPending := 0;
      }
      RecomputeDecayCheck();
    }

    /** The inner loop of the flush: `k` steps of one timer, in jumps. */
    static method SettleBit(timer: nat, owed: nat, value: Byte, i: nat) returns (t: nat, bus: Byte)
      requires i < 8
      ensures t == TimerAfter(timer, owed)
      ensures forall j: nat | j < 8 :: BitAt(bus, j) == (BitAt(value, j) && (j == i ==> owed <= timer))
    {
      hide BitAt, WithBit;
      var k: nat := owed;
      t, bus := timer, value;
      while k > 0
        invariant k <= owed
        invariant TimerAfter(timer, owed) == TimerAfter(t, k)
        invariant if owed - k <= timer then t == timer - (owed - k) && bus == value
                  else forall j: nat | j < 8 :: BitAt(bus, j) == (BitAt(value, j) && j != i)
        decreases k
      {
        if t == 0 {
          bus := WithBit(bus, i, false);
          TimerSteps(t, 1);
          TimerCompose(t, 1, k - 1);
          t := 1786840;
          k := k - 1;
        } else {
          var d := if t < k then t else k;
          TimerSteps(t, d);
          TimerCompose(t, d, k - d);
          t := t - d;
          k := k - d;
        }
      }
    }

    method PpuOpenBusDecay(action: Decay)
      requires Valid() && (action.NoAction? || decayPending == 0)
      modifies this`openBus, this`decayPending, this`decayNextCheck, decayTimer
      ensures Valid() && (!action.NoAction? ==> decayPending == 0)
      ensures Exact() == match action
                         case NoAction => old(Exact()).Faded()
                         case All => old(Exact()).Restarted(0, 8)
                         case High => old(Exact()).Restarted(5, 8)
                         case Low => old(Exact()).Restarted(0, 6)
    {
      match action {
        case NoAction =>
          FadeFade(Stored(), decayPending, 1);
          decayPending := decayPending + 1;
          if decayPending >= decayNextCheck {
            Flush();
          }
        case All =>
          Restart(0, 8);
        case High =>
          decayTimer[7] := 1786840;
          decayTimer[6] := 1786840;
          decayTimer[5] := 1786840;
          assert decayTimer[..] == old(Stored()).Restarted(5, 8).timer;
          RecomputeDecayCheck();
        case Low =>
          Restart(0, 6);
      }
    }

    method Restart(lo: nat, hi: nat)
      requires Valid() && decayPending == 0 && lo <= hi <= 8
      modifies this`decayNextCheck, decayTimer
      ensures Valid() && Exact() == old(Exact()).Restarted(lo, hi)
    {
      for i := lo to hi
        invariant forall j: nat | j < 8 ::
                    decayTimer[j] == if lo <= j < i then DECAY else old(decayTimer[j])
      {
        decayTimer[i] := 1786840;
      }
      assert decayTimer[..] == old(Stored()).Restarted(lo, hi).timer;
      RecomputeDecayCheck();
    }

    /** A register access: it settles what is owed, and then reads and drives the bus. */
    method AccessReg(a: Access) returns (ret: Byte)
      requires Valid()
      modifies this`openBus, this`decayPending, this`decayNextCheck, decayTimer
      ensures Valid() && decayPending == 0
      ensures ret == Answer(old(Exact()).value, a) && Exact() == After(old(Exact()), a)
    {
      Flush();
      ret := Answer(openBus, a);
      match a {
        case ReadStatus(_, _, _) =>
          openBus := ret;
          PpuOpenBusDecay(High);
        case ReadByte(_) =>
          openBus := ret;
          PpuOpenBusDecay(All);
        case ReadPalette(_) =>
          openBus := ret;
          PpuOpenBusDecay(Low);
        case ReadBusOnly =>
        case Write(v) =>
          openBus := v;
      }
    }

    /** The accesses of one cycle, in order. */
    method AccessAll(accesses: seq<Access>) returns (answers: seq<Byte>)
      requires Valid()
      modifies this`openBus, this`decayPending, this`decayNextCheck, decayTimer
      ensures Valid() && (Exact(), answers) == AccessesOn(old(Exact()), accesses)
    {
      hide After, Answer, Exact;
      answers := [];
      assert accesses[0..] == accesses;
      PrefixStart(AccessesOn(Exact(), accesses));
      for i := 0 to |accesses|
        invariant Valid()
        invariant AccessesOn(old(Exact()), accesses) == Prefixed(answers, AccessesOn(Exact(), accesses[i..]))
      {
        AccessesStep(Exact(), accesses[i..], answers);
        assert accesses[i..][1..] == accesses[i + 1..];
        var ret := AccessReg(accesses[i]);
        answers := answers + [ret];
      }
      NoAccesses(answers, Exact(), accesses[|accesses|..]);
    }

    /** CPU cycles: accesses, then one step of decay. Whatever the schedule, the batched machine reads what the
        per-cycle one reads, and its bus has the same value at every moment. */
    method Cycles(schedule: seq<seq<Access>>) returns (answers: seq<Byte>)
      requires Valid()
      modifies this`openBus, this`decayPending, this`decayNextCheck, decayTimer
      ensures Valid()
      ensures (Exact(), answers) == CyclesOn(old(Exact()), schedule)
      ensures openBus == CyclesOn(old(Exact()), schedule).0.value
    {
      hide AccessesOn, Exact, Bus.Faded;
      answers := [];
      assert schedule[0..] == schedule;
      PrefixStart(CyclesOn(Exact(), schedule));
      for i := 0 to |schedule|
        invariant Valid()
        invariant CyclesOn(old(Exact()), schedule) == Prefixed(answers, CyclesOn(Exact(), schedule[i..]))
      {
        CyclesStep(Exact(), schedule[i..], answers);
        assert schedule[i..][1..] == schedule[i + 1..];
        var now := AccessAll(schedule[i]);
        answers := answers + now;
        PpuOpenBusDecay(NoAction);
      }
      PrefixEnd(answers, Exact(), schedule[|schedule|..]);
      ValueIsExact();
    }
  }

  ghost function Prefixed(answers: seq<Byte>, r: (Bus, seq<Byte>)): (Bus, seq<Byte>) {
    (r.0, answers + r.1)
  }

  lemma PrefixStart(r: (Bus, seq<Byte>))
    ensures Prefixed([], r) == r
  {
    assert [] + r.1 == r.1;
  }

  lemma PrefixEnd(answers: seq<Byte>, b: Bus, schedule: seq<seq<Access>>)
    requires b.Ok() && schedule == []
    ensures Prefixed(answers, CyclesOn(b, schedule)) == (b, answers)
  {
    assert answers + [] == answers;
  }

  lemma NoAccesses(answers: seq<Byte>, b: Bus, accesses: seq<Access>)
    requires b.Ok() && accesses == []
    ensures Prefixed(answers, AccessesOn(b, accesses)) == (b, answers)
  {
    assert answers + [] == answers;
  }

  lemma AccessesStep(b: Bus, accesses: seq<Access>, answers: seq<Byte>)
    requires b.Ok() && accesses != []
    ensures Prefixed(answers, AccessesOn(b, accesses))
         == Prefixed(answers + [Answer(b.value, accesses[0])], AccessesOn(After(b, accesses[0]), accesses[1..]))
  {
    hide After, Answer;
    var rest := AccessesOn(After(b, accesses[0]), accesses[1..]).1;
    assert answers + ([Answer(b.value, accesses[0])] + rest) == (answers + [Answer(b.value, accesses[0])]) + rest;
  }

  lemma CyclesStep(b: Bus, schedule: seq<seq<Access>>, answers: seq<Byte>)
    requires b.Ok() && schedule != []
    ensures var now := AccessesOn(b, schedule[0]);
      Prefixed(answers, CyclesOn(b, schedule)) == Prefixed(answers + now.1, CyclesOn(now.0.Faded(), schedule[1..]))
  {
    hide AccessesOn, Bus.Faded;
    var now := AccessesOn(b, schedule[0]);
    var rest := CyclesOn(now.0.Faded(), schedule[1..]).1;
    assert answers + (now.1 + rest) == (answers + now.1) + rest;
  }

  // ---- the timers stay in their range ----

  /** No timer is above its restart value. */
  predicate Bounded(timers: seq<nat>) { forall t | t in timers :: t <= DECAY }

  lemma FadedBounded(b: Bus)
    requires b.Ok() && Bounded(b.timer)
    ensures Bounded(b.Faded().timer)
  {
    forall t | t in b.Faded().timer ensures t <= DECAY {
      var i: nat :| i < 8 && b.Faded().timer[i] == t;
      assert b.timer[i] in b.timer;
    }
  }

  lemma AccessBounded(b: Bus, a: Access)
    requires b.Ok() && Bounded(b.timer)
    ensures Bounded(After(b, a).timer)
  {
    hide Answer;
    forall t | t in After(b, a).timer ensures t <= DECAY {
      var i: nat :| i < 8 && After(b, a).timer[i] == t;
      assert b.timer[i] in b.timer;
    }
  }

  lemma {:induction false} AccessesBounded(b: Bus, accesses: seq<Access>)
    requires b.Ok() && Bounded(b.timer)
    ensures Bounded(AccessesOn(b, accesses).0.timer)
    decreases |accesses|
  {
    hide After, Bounded;
    if accesses != [] {
      AccessBounded(b, accesses[0]);
      AccessesBounded(After(b, accesses[0]), accesses[1..]);
    }
  }

  /** Over any schedule of accesses the timers stay within the restart value. */
  lemma {:induction false} CyclesBounded(b: Bus, schedule: seq<seq<Access>>)
    requires b.Ok() && Bounded(b.timer)
    ensures Bounded(CyclesOn(b, schedule).0.timer)
    decreases |schedule|
  {
    hide AccessesOn, Bus.Faded, Bounded;
    if schedule != [] {
      AccessesBounded(b, schedule[0]);
      var now := AccessesOn(b, schedule[0]).0;
      FadedBounded(now);
      CyclesBounded(now.Faded(), schedule[1..]);
    }
  }

  /** The bus at power-on. */
  const SILENT_BUS := Bus(0, seq(8, i => 0))

  /** At power-on a read finds zeroes, and every timer is at its end, so that the first cycle restarts it. */
  lemma SilentAtFirst(cycles: nat)
    ensures SILENT_BUS.Ok() && AccessesOn(SILENT_BUS, [ReadBusOnly]).1 == [0]
    ensures forall i: nat | i < 8 :: Fade(SILENT_BUS, 1).timer[i] == DECAY
    ensures Fade(SILENT_BUS, cycles).value == 0
  {
    assert [ReadBusOnly][1..] == [];
    FadeBitwise(SILENT_BUS, 1);
    FadeBitwise(SILENT_BUS, cycles);
    assert BitsOf(0) == [false, false, false, false, false, false, false, false];
    SameByte(Fade(SILENT_BUS, cycles).value, 0);
    TimerSteps(0, 1);
  }

  /** From power-on, the timers of the per-cycle machine, and so of the batched one once it is flushed, are never
      above the restart value. */
  lemma AlwaysBounded(schedule: seq<seq<Access>>)
    ensures SILENT_BUS.Ok() && Bounded(CyclesOn(SILENT_BUS, schedule).0.timer)
  {
    CyclesBounded(SILENT_BUS, schedule);
  }
}
