/** Reading: what the drive's read register delivers from a tape, under any pattern of status reads. */
module FdsRead {
  import opened Bits
  import opened Wrappers
  import opened FdsDrive
  import Crc
  import FdsFormat

  // ---- the port and a bit string ----

  function TakeAll(p: Port, bits: seq<bool>): Port
    requires p.Inv()
    decreases |bits|
  {
    if bits == [] then p
    else
      TakeKeepsInv(p, bits[0]);
      TakeAll(p.Take(bits[0]), bits[1..])
  }

  /** True when the next bit completes a byte. */
  predicate Completing(p: Port) {
    !p.GapSearch() && p.readregpos == 7
  }

  /** The bytes that appear in the read latch while `bits` pass. */
  function Latched(p: Port, bits: seq<bool>): seq<Byte>
    requires p.Inv()
    decreases |bits|
  {
    if bits == [] then []
    else
      TakeKeepsInv(p, bits[0]);
      (if Completing(p) then [p.Take(bits[0]).readreglatch] else []) + Latched(p.Take(bits[0]), bits[1..])
  }

  lemma {:induction false} TakeConcat(p: Port, u: seq<bool>, v: seq<bool>)
    requires p.Inv()
    ensures TakeAll(p, u).Inv()
    ensures TakeAll(p, u + v) == TakeAll(TakeAll(p, u), v)
    decreases |u|
  {
    if u == [] {
      assert u + v == v;
    } else {
      assert (u + v)[1..] == u[1..] + v;
      TakeKeepsInv(p, u[0]);
      TakeConcat(p.Take(u[0]), u[1..], v);
    }
  }

  lemma {:induction false} LatchedConcat(p: Port, u: seq<bool>, v: seq<bool>)
    requires p.Inv() && TakeAll(p, u).Inv()
    ensures Latched(p, u + v) == Latched(p, u) + Latched(TakeAll(p, u), v)
    decreases |u|
  {
    if u == [] {
      assert u + v == v;
    } else {
      assert (u + v)[1..] == u[1..] + v;
      TakeKeepsInv(p, u[0]);
      TakeConcat(p.Take(u[0]), u[1..], []);
      LatchedConcat(p.Take(u[0]), u[1..], v);
      Regroup(if Completing(p) then [p.Take(u[0]).readreglatch] else [],
              Latched(p.Take(u[0]), u[1..]), Latched(TakeAll(p, u), v));
    }
  }

  lemma Regroup<T>(u: seq<T>, v: seq<T>, w: seq<T>)
    ensures u + (v + w) == u + v + w
  {
  }

  /** The read register with `bits` shifted in from position `pos` on. */
  function Filled(reg: Byte, pos: nat, bits: seq<bool>): (r: Byte)
    requires pos + |bits| <= 8
    ensures forall j: nat | j < 8 ::
              BitAt(r, j) == if pos <= j < pos + |bits| then bits[j - pos] else BitAt(reg, j)
    decreases |bits|
  {
    hide BitAt, WithBit;
    if bits == [] then reg
    else
      var first := WithBit(reg, pos, bits[0]);
      var r := Filled(first, pos + 1, bits[1..]);
      assert forall j: nat | j < 8 :: BitAt(r, j) == if pos < j < pos + |bits| then bits[j - pos] else BitAt(first, j);
      r
  }

  /** Fewer bits than complete a byte only fill the register. */
  lemma {:induction false} TakePart(p: Port, bits: seq<bool>)
    requires p.Inv() && !p.lookingforendofgap && p.readregpos + |bits| < 8
    ensures TakeAll(p, bits) == p.(crc := Crc.Feed(p.crc, bits), readreg := Filled(p.readreg, p.readregpos, bits),
                                   readregpos := p.readregpos + |bits|)
    ensures Latched(p, bits) == []
    decreases |bits|
  {
    if bits != [] {
      TakeKeepsInv(p, bits[0]);
      TakePart(p.Take(bits[0]), bits[1..]);
    }
  }

  /** The port after a whole byte. */
  function ByteTaken(p: Port, b: Byte): Port {
    p.(crc := Crc.Feed(p.crc, BitsOf(b)), readreg := b, readregpos := 0, readreglatch := b,
       bytetransferflag := true, irq := p.irq || BitAt(p.cached4025, 7),
       cached4025 := if BitAt(p.cached4025, 4) then WithBit(p.cached4025, 4, false) else p.cached4025)
  }

  lemma TakeByte(p: Port, b: Byte)
    requires p.Inv() && !p.lookingforendofgap && p.readregpos == 0
    ensures TakeAll(p, BitsOf(b)) == ByteTaken(p, b)
    ensures Latched(p, BitsOf(b)) == [b]
  {
    hide Port.Take, Crc.Ccitt;
    var u, v := BitsOf(b)[..7], [BitsOf(b)[7]];
    assert BitsOf(b) == u + v;
    TakePart(p, u);
    TakeConcat(p, u, v);
    LatchedConcat(p, u, v);
    Crc.FeedAppend(p.crc, u, v);
    var q := TakeAll(p, u);
    LastBit(q, b, v[0]);
    assert v[1..] == [];
  }

  lemma LastBit(q: Port, b: Byte, bit: bool)
    requires q.Inv() && !q.lookingforendofgap && q.readregpos == 7 && bit == BitAt(b, 7)
    requires forall j: nat | j < 7 :: BitAt(q.readreg, j) == BitAt(b, j)
    ensures q.Take(bit) == ByteTaken(q, b).(crc := Crc.Ccitt(q.crc, bit))
  {
    SameByte(WithBit(q.readreg, 7, bit), b);
  }

  /** Every byte of a byte string is delivered, and goes into the CRC. */
  lemma {:induction false} TakeBytes(p: Port, bytes: seq<Byte>)
    requires p.Inv() && !p.lookingforendofgap && p.readregpos == 0
    ensures Latched(p, AllBits(bytes)) == bytes
    ensures var q := TakeAll(p, AllBits(bytes));
            q.Inv() && !q.lookingforendofgap && q.readregpos == 0 && q.crc == Crc.FeedBytes(p.crc, bytes)
            && (bytes != [] ==> q.bytetransferflag && q.readreglatch == bytes[|bytes| - 1])
    decreases |bytes|
  {
    hide Port.Take, Crc.Feed;
    if bytes != [] {
      TakeByte(p, bytes[0]);
      TakeConcat(p, BitsOf(bytes[0]), AllBits(bytes[1..]));
      LatchedConcat(p, BitsOf(bytes[0]), AllBits(bytes[1..]));
      TakeBytes(ByteTaken(p, bytes[0]), bytes[1..]);
      assert bytes == [bytes[0]] + bytes[1..];
    }
  }

  function Falses(n: nat): (r: seq<bool>)
    ensures |r| == n
    ensures forall i: nat | i < n :: !r[i]
  {
    seq(n, i => false)
  }

  /** An armed gap search passes over zeroes and ends at the first one, which starts the CRC. */
  lemma {:induction false} TakeGap(p: Port, n: nat)
    requires p.Inv() && p.GapSearch()
    ensures TakeAll(p, Falses(n) + [true])
         == p.(lookingforendofgap := false, readregpos := 0, crc := Crc.Ccitt(Crc.ZERO, true))
    ensures Latched(p, Falses(n) + [true]) == []
    decreases n
  {
    if n > 0 {
      assert (Falses(n) + [true])[1..] == Falses(n - 1) + [true];
      TakeGap(p, n - 1);
    } else {
      assert Falses(0) + [true] == [true];
      assert [true][1..] == [];
    }
  }

  /** The end marker of a gap is seven more zeroes and a one, and counts as its own CRC. */
  lemma MarkerBits()
    ensures BitsOf(FdsFormat.MARKER) == Falses(7) + [true]
    ensures Crc.FeedBytes(Crc.ZERO, [FdsFormat.MARKER]) == Crc.Ccitt(Crc.ZERO, true)
  {
    assert BitsOf(0x80) == [false, false, false, false, false, false, false, true];
    Crc.FeedAppend(Crc.ZERO, Falses(7), [true]);
    assert [true][1..] == [];
    FeedFalses(7);
  }

  lemma {:induction false} FeedFalses(n: nat)
    ensures Crc.Feed(Crc.ZERO, Falses(n)) == Crc.ZERO
  {
    if n > 0 {
      assert Falses(n)[1..] == Falses(n - 1);
      assert Crc.Ccitt(Crc.ZERO, false) == Crc.ZERO;
      FeedFalses(n - 1);
    }
  }

  /** The bits of a gap of `n` zeroes with its ending one, followed by bytes. */
  function GapBits(n: nat, bytes: seq<Byte>): seq<bool> {
    (Falses(n) + [true]) + AllBits(bytes)
  }

  /** A gap, its marker, and then bytes: exactly those bytes are delivered. */
  lemma GapThenBytes(p: Port, n: nat, bytes: seq<Byte>)
    requires p.Inv() && p.GapSearch()
    ensures TakeAll(p, GapBits(n, bytes)).Inv()
    ensures Latched(p, GapBits(n, bytes)) == bytes
    ensures TakeAll(p, GapBits(n, bytes)).crc == Crc.FeedBytes(Crc.ZERO, [FdsFormat.MARKER] + bytes)
    ensures TakeAll(p, GapBits(n, bytes)).readregpos == 0
    ensures !TakeAll(p, GapBits(n, bytes)).lookingforendofgap
  {
    TakeGap(p, n);
    var q := p.(lookingforendofgap := false, readregpos := 0, crc := Crc.Ccitt(Crc.ZERO, true));
    TakeConcat(p, Falses(n) + [true], AllBits(bytes));
    LatchedConcat(p, Falses(n) + [true], AllBits(bytes));
    TakeBytes(q, bytes);
    MarkerBits();
    Crc.FeedBytesAppend(Crc.ZERO, [FdsFormat.MARKER], bytes);
  }

  /** Reading a block: its payload and its two CRC bytes are delivered, nothing else is, and the CRC
      ends at zero exactly when those two bytes are right. */
  lemma BlockTaken(p: Port, n: nat, payload: seq<Byte>, lo: Byte, hi: Byte)
    requires p.Inv() && p.GapSearch()
    ensures var bits := GapBits(n, payload + [lo, hi]);
            && Latched(p, bits) == payload + [lo, hi]
            && (TakeAll(p, bits).crc == Crc.ZERO <==> [lo, hi] == FdsFormat.Trailer(payload))
  {
    GapThenBytes(p, n, payload + [lo, hi]);
    TrailerCheck(payload, lo, hi);
  }

  lemma TrailerCheck(payload: seq<Byte>, lo: Byte, hi: Byte)
    ensures Crc.FeedBytes(Crc.ZERO, [FdsFormat.MARKER] + (payload + [lo, hi])) == Crc.ZERO
        <==> [lo, hi] == FdsFormat.Trailer(payload)
  {
    assert [FdsFormat.MARKER] + (payload + [lo, hi]) == ([FdsFormat.MARKER] + payload) + [lo, hi];
    Crc.FeedBytesAppend(Crc.ZERO, [FdsFormat.MARKER] + payload, [lo, hi]);
    Crc.ZeroIffTrailer(FdsFormat.BlockCrc(payload), lo, hi);
  }

  // ---- the drive and its clock ----

  /** What software may do while it waits for bytes: let time pass and read the status registers. */
  predicate Watching(op: Op) { op.Clock? || op.Read4030? || op.Read4031? || op.Read4032? }

  predicate ReadMode(d: Drive) {
    d.state.Running? && !d.transferreset && BitAt(d.port.cached4025, 2)
  }

  /** How many bits pass in `n` cycles when the next one is due in `wait`. */
  function BitTimes(wait: int, n: nat): nat
    requires wait >= 1
  {
    if n < wait then 0 else 1 + (n - wait) / 56
  }

  /** The bytes that appear in the read latch while `ops` happen. */
  function Delivered(d: Drive, ops: seq<Op>): seq<Byte>
    requires d.Inv()
    decreases |ops|
  {
    if ops == [] then []
    else
      ApplyKeepsInv(d, ops[0]);
      var e := Apply(d, ops[0]);
      (if ops[0].Clock? && ReadMode(d) && d.cycleswaiting == 1 && Completing(d.port)
       then [e.port.readreglatch] else [])
      + Delivered(e, ops[1..])
  }

  /** The port without the two flags that a status read clears. */
  function Quiet(p: Port): Port { p.(bytetransferflag := false, irq := false) }

  lemma {:induction false} QuietTake(p: Port, q: Port, bits: seq<bool>)
    requires p.Inv() && q.Inv() && Quiet(p) == Quiet(q)
    ensures Quiet(TakeAll(p, bits)) == Quiet(TakeAll(q, bits))
    ensures Latched(p, bits) == Latched(q, bits)
    decreases |bits|
  {
    if bits != [] {
      TakeKeepsInv(p, bits[0]);
      TakeKeepsInv(q, bits[0]);
      QuietTakeOne(p, q, bits[0]);
      QuietTake(p.Take(bits[0]), q.Take(bits[0]), bits[1..]);
    }
  }

  lemma QuietTakeOne(p: Port, q: Port, bit: bool)
    requires p.Inv() && q.Inv() && Quiet(p) == Quiet(q)
    ensures Quiet(p.Take(bit)) == Quiet(q.Take(bit))
    ensures p.Take(bit).readreglatch == q.Take(bit).readreglatch
    ensures Completing(p) == Completing(q)
  {
  }

  lemma {:induction false} AfterTheEnd(d: Drive, ops: seq<Op>)
    requires d.Inv() && d.state.Reset? && Clocks(ops) < d.cycleswaiting
    requires forall op | op in ops :: Watching(op)
    ensures Quiet(Run(d, ops).port) == Quiet(d.port) && Run(d, ops).diskpos == d.diskpos
    ensures Run(d, ops).disk == d.disk
    ensures Delivered(d, ops) == []
    decreases |ops|
  {
    if ops != [] {
      assert ops[0] in ops;
      ApplyKeepsInv(d, ops[0]);
      AfterTheEnd(Apply(d, ops[0]), ops[1..]);
    }
  }

  lemma BitTimesStep(wait: int, n: nat)
    requires wait >= 1 && n >= 1
    ensures wait > 1 ==> BitTimes(wait - 1, n - 1) == BitTimes(wait, n)
    ensures wait == 1 ==> BitTimes(wait, n) == 1 + BitTimes(56, n - 1)
    ensures BitTimes(56, n - 1) == 0 ==> n - 1 < 56
  {
  }

  /** One bit time of a running drive in read mode. */
  lemma ReadTick(d: Drive)
    requires d.Inv() && ReadMode(d) && d.cycleswaiting == 1 && d.diskpos < d.disksize
    ensures var e := Apply(d, Clock);
            && e.port == d.port.Take(TapeBit(d.disk, d.diskpos)) && e.diskpos == d.diskpos + 1
            && e.disk == d.disk && e.disksize == d.disksize && !e.transferreset
            && BitAt(e.port.cached4025, 2)
            && (if e.diskpos < e.disksize then ReadMode(e) && e.cycleswaiting == 56
                else e.state.Reset? && e.cycleswaiting == Wait(Reset))
  {
  }

  lemma WaitTick(d: Drive)
    requires d.Inv() && d.cycleswaiting != 1
    ensures d.Clocked() == d.(cycleswaiting := d.cycleswaiting - 1)
  {
  }

  lemma TapeBitsStep(s: seq<Byte>, p: nat, n: nat)
    requires n > 0 && p + n <= 8 * |s|
    ensures TapeBits(s, p, n)[0] == TapeBit(s, p) && TapeBits(s, p, n)[1..] == TapeBits(s, p + 1, n - 1)
  {
  }

  /** `n` bits of the tape went into the port, whatever the status reads in between. */
  ghost predicate ReadsTape(d: Drive, ops: seq<Op>, n: nat)
    requires d.Inv() && 0 <= d.diskpos && d.diskpos + n <= 8 * |d.disk|
  {
    var bits := TapeBits(d.disk, d.diskpos, n);
    && Quiet(Run(d, ops).port) == Quiet(TakeAll(d.port, bits))
    && Run(d, ops).diskpos == d.diskpos + n
    && Run(d, ops).disk == d.disk
    && Delivered(d, ops) == Latched(d.port, bits)
  }

  /** A drive in read mode hands its port exactly the bits under the head, one every 56 cycles, and
      status reads do not disturb this. */
  lemma {:induction false} ReadRun(d: Drive, ops: seq<Op>)
    requires d.Inv() && ReadMode(d)
    requires forall op | op in ops :: Watching(op)
    requires d.diskpos + BitTimes(d.cycleswaiting, Clocks(ops)) <= d.disksize
    ensures ReadsTape(d, ops, BitTimes(d.cycleswaiting, Clocks(ops)))
    decreases |ops|
  {
    hide Drive.Clocked, Port.Take, ReadsTape;
    if ops == [] {
      NoBits(d);
    } else {
      assert ops[0] in ops;
      ApplyKeepsInv(d, ops[0]);
      var e, n := Apply(d, ops[0]), BitTimes(d.cycleswaiting, Clocks(ops));
      if !ops[0].Clock? {
        StatusRead(d, ops[0]);
        ReadRun(e, ops[1..]);
        ReadsAfterStatus(d, ops, n);
      } else {
        BitTimesStep(d.cycleswaiting, Clocks(ops));
        if d.cycleswaiting > 1 {
          WaitTick(d);
          ReadRun(e, ops[1..]);
          ReadsAfterWait(d, ops, n);
        } else {
          ReadTick(d);
          if e.state.Reset? { NothingRead(e, ops[1..]); } else { ReadRun(e, ops[1..]); }
          ReadsOneMore(d, ops, n);
        }
      }
    }
  }

  lemma NoBits(d: Drive)
    requires d.Inv() && 0 <= d.diskpos <= 8 * |d.disk|
    ensures ReadsTape(d, [], 0)
  {
  }

  lemma ReadsAfterStatus(d: Drive, ops: seq<Op>, n: nat)
    requires d.Inv() && ReadMode(d) && ops != [] && Watching(ops[0]) && !ops[0].Clock?
    requires 0 <= d.diskpos && d.diskpos + n <= 8 * |d.disk|
    requires var e := Apply(d, ops[0]);
      e.Inv() && e == d.(port := e.port) && Quiet(e.port) == Quiet(d.port) && ReadsTape(e, ops[1..], n)
    ensures ReadsTape(d, ops, n)
  {
    hide Apply, TapeBits, Watching, TakeAll, Latched, Drive.Inv;
    PortOk(d);
    PortOk(Apply(d, ops[0]));
    QuietTake(d.port, Apply(d, ops[0]).port, TapeBits(d.disk, d.diskpos, n));
  }

  lemma PortOk(d: Drive)
    requires d.Inv()
    ensures d.port.Inv()
  {
  }

  lemma ReadsAfterWait(d: Drive, ops: seq<Op>, n: nat)
    requires d.Inv() && ReadMode(d) && ops != [] && ops[0].Clock? && d.cycleswaiting > 1
    requires 0 <= d.diskpos && d.diskpos + n <= 8 * |d.disk| && Apply(d, Clock).Inv()
    requires ReadsTape(d.(cycleswaiting := d.cycleswaiting - 1), ops[1..], n)
    ensures ReadsTape(d, ops, n)
  {
    hide Drive.Clocked, TapeBits, TakeAll, Latched;
    WaitTick(d);
  }

  lemma NothingRead(d: Drive, ops: seq<Op>)
    requires d.Inv() && d.state.Reset? && Clocks(ops) < d.cycleswaiting
    requires forall op | op in ops :: Watching(op)
    requires 0 <= d.diskpos <= 8 * |d.disk|
    ensures ReadsTape(d, ops, 0)
  {
    hide Apply, Delivered, Run;
    AfterTheEnd(d, ops);
  }

  lemma ReadsOneMore(d: Drive, ops: seq<Op>, n: nat)
    requires d.Inv() && ReadMode(d) && d.cycleswaiting == 1
    requires n > 0 && 0 <= d.diskpos && d.diskpos + n <= d.disksize
    requires ops != [] && ops[0].Clock?
    requires Apply(d, Clock).Inv()
    requires ReadsTape(Apply(d, Clock), ops[1..], n - 1)
    ensures ReadsTape(d, ops, n)
  {
    hide Drive.Clocked, Port.Take, TapeBit;
    ReadTick(d);
    TapeBitsStep(d.disk, d.diskpos, n);
    FirstBit(d.port, TapeBits(d.disk, d.diskpos, n));
  }

  lemma StatusRead(d: Drive, op: Op)
    requires d.Inv() && ReadMode(d) && Watching(op) && !op.Clock?
    ensures Apply(d, op) == d.(port := Apply(d, op).port) && Quiet(Apply(d, op).port) == Quiet(d.port)
    ensures ReadMode(Apply(d, op))
  {
  }

  lemma FirstBit(p: Port, bits: seq<bool>)
    requires p.Inv() && bits != []
    ensures p.Take(bits[0]).Inv()
    ensures TakeAll(p, bits) == TakeAll(p.Take(bits[0]), bits[1..])
    ensures Latched(p, bits)
         == (if Completing(p) then [p.Take(bits[0]).readreglatch] else []) + Latched(p.Take(bits[0]), bits[1..])
  {
    TakeKeepsInv(p, bits[0]);
  }

  // ---- blocks on a tape ----

  /** The tape holds `bytes` from bit `at` on, which need not be the start of a byte. */
  ghost predicate HoldsAt(disk: seq<Byte>, at: nat, bytes: seq<Byte>) {
    at + 8 * |bytes| <= 8 * |disk| && TapeBits(disk, at, 8 * |bytes|) == AllBits(bytes)
  }

  ghost predicate Blank(disk: seq<Byte>, from: nat, to: nat)
    requires to <= 8 * |disk|
  {
    forall q: nat | from <= q < to :: !TapeBit(disk, q)
  }

  lemma GapOnTape(disk: seq<Byte>, from: nat, at: nat, bytes: seq<Byte>)
    requires from <= at + 7 && HoldsAt(disk, at, [FdsFormat.MARKER] + bytes) && Blank(disk, from, at)
    ensures TapeBits(disk, from, at + 8 + 8 * |bytes| - from) == GapBits(at + 7 - from, bytes)
  {
    var all := [FdsFormat.MARKER] + bytes;
    assert all[1..] == bytes;
    MarkerBits();
    var tape := TapeBits(disk, from, at + 8 + 8 * |bytes| - from);
    var want := GapBits(at + 7 - from, bytes);
    forall i: nat | i < |tape| ensures tape[i] == want[i] {
      if from + i >= at {
        assert TapeBits(disk, at, 8 * |all|)[from + i - at] == AllBits(all)[from + i - at];
        assert AllBits(all)[from + i - at]
            == if from + i - at < 8 then BitsOf(FdsFormat.MARKER)[from + i - at] else AllBits(bytes)[from + i - at - 8];
      }
    }
  }

  /** A running drive in read mode with its gap search armed, somewhere in the gap before a block:
      whatever status reads happen meanwhile, exactly the bytes after the marker are delivered, and at
      their end the CRC is zero if and only if the last two of them are the CRC of the others. */
  lemma ReadBlock(d: Drive, ops: seq<Op>, at: nat, payload: seq<Byte>, lo: Byte, hi: Byte)
    requires d.Inv() && ReadMode(d) && d.port.GapSearch()
    requires forall op | op in ops :: Watching(op)
    requires d.diskpos <= at + 7 && HoldsAt(d.disk, at, [FdsFormat.MARKER] + (payload + [lo, hi]))
    requires Blank(d.disk, d.diskpos, at)
    requires at + 8 * (|payload| + 3) <= d.disksize
    requires BitTimes(d.cycleswaiting, Clocks(ops)) == at + 8 * (|payload| + 3) - d.diskpos
    ensures Delivered(d, ops) == payload + [lo, hi]
    ensures Run(d, ops).port.crc == Crc.ZERO <==> [lo, hi] == FdsFormat.Trailer(payload)
    ensures Run(d, ops).diskpos == at + 8 * (|payload| + 3) && Run(d, ops).disk == d.disk
  {
    hide Drive.Clocked, Port.Take, FdsFormat.Trailer, AllBits, Apply;
    ReadRun(d, ops);
    GapOnTape(d.disk, d.diskpos, at, payload + [lo, hi]);
    BlockTaken(d.port, at + 7 - d.diskpos, payload, lo, hi);
  }

  lemma SliceOnTape(s: seq<Byte>, a: nat, bytes: seq<Byte>)
    requires a + |bytes| <= |s| && s[a..a + |bytes|] == bytes
    ensures HoldsAt(s, 8 * a, bytes)
  {
    forall i: nat | i < 8 * |bytes| ensures TapeBits(s, 8 * a, 8 * |bytes|)[i] == AllBits(bytes)[i] {
      AllBitsAt(bytes, i);
      assert s[a + i / 8] == bytes[i / 8];
    }
  }

  lemma ZeroByte(k: nat)
    requires k < 8
    ensures !BitAt(0, k)
  {
    assert BitsOf(0) == [false, false, false, false, false, false, false, false];
  }

  /** Where the marker of block `i` starts, in bits. */
  function MarkerAt(blocks: seq<FdsFormat.Block>, i: nat): nat
    requires i < |blocks|
  {
    8 * (FdsFormat.BlockStart(blocks, i) + FdsFormat.Lead(blocks[i].pregap))
  }

  /** A formatted block: its gap is blank, and after the gap come marker, payload and CRC. */
  lemma FormattedBlock(blocks: seq<FdsFormat.Block>, i: nat)
    requires i < |blocks| && FdsFormat.Fits(blocks, i)
    ensures HoldsAt(FdsFormat.SideOf(blocks), MarkerAt(blocks, i), FdsFormat.Body(blocks[i].payload))
    ensures Blank(FdsFormat.SideOf(blocks), 8 * FdsFormat.BlockStart(blocks, i), MarkerAt(blocks, i))
  {
    hide FdsFormat.Encode, FdsFormat.Body, FdsFormat.SideOf, HoldsAt, Blank;
    FdsFormat.BlockPlaced(blocks, i);
    FdsFormat.EncodeParts(blocks[i]);
    BlockInSlice(FdsFormat.SideOf(blocks), FdsFormat.BlockStart(blocks, i), FdsFormat.Encode(blocks[i]),
                 FdsFormat.Lead(blocks[i].pregap), FdsFormat.Body(blocks[i].payload));
  }

  lemma BlockInSlice(side: seq<Byte>, start: nat, e: seq<Byte>, lead: nat, body: seq<Byte>)
    requires start + |e| <= |side| && side[start..start + |e|] == e
    requires lead <= |e| && e[..lead] == FdsFormat.Zeros(lead) && e[lead..] == body
    ensures HoldsAt(side, 8 * (start + lead), body) && Blank(side, 8 * start, 8 * (start + lead))
  {
    assert side[start + lead..start + |e|] == side[start..start + |e|][lead..];
    SliceOnTape(side, start + lead, body);
    forall q: nat | 8 * start <= q < 8 * (start + lead) ensures !TapeBit(side, q) {
      assert side[q / 8] == side[start..start + |e|][q / 8 - start] == e[..lead][q / 8 - start];
      ZeroByte(q % 8);
    }
  }

  /** Format, then read: every block of every dump the formatter accepts, as long as it fits the side,
      is read back from anywhere in its gap as its payload and its two CRC bytes, ending with a zero
      CRC, whatever the pattern of status reads. */
  lemma FormatThenRead(input: seq<Byte>, blocks: seq<FdsFormat.Block>, i: nat, d: Drive, ops: seq<Op>)
    requires FdsFormat.ParseSide(input) == Success(blocks) && FdsFormat.Format(input) == Success(d.disk)
    requires i < |blocks| && FdsFormat.Fits(blocks, i)
    requires d.Inv() && ReadMode(d) && d.port.GapSearch() && d.disksize == 8 * FdsFormat.SIDE_BYTES
    requires forall op | op in ops :: Watching(op)
    requires 8 * FdsFormat.BlockStart(blocks, i) <= d.diskpos <= MarkerAt(blocks, i) + 7
    requires BitTimes(d.cycleswaiting, Clocks(ops)) == MarkerAt(blocks, i) + 8 * (|blocks[i].payload| + 3) - d.diskpos
    ensures Delivered(d, ops) == blocks[i].payload + FdsFormat.Trailer(blocks[i].payload)
    ensures Run(d, ops).port.crc == Crc.ZERO
  {
    hide Delivered, Run, FdsFormat.Trailer, Drive.Inv, FdsFormat.SideOf;
    FormattedBlock(blocks, i);
    assert d.disk == FdsFormat.SideOf(blocks);
    var t := FdsFormat.Trailer(blocks[i].payload);
    assert t == [t[0], t[1]];
    BodyParts(blocks[i].payload);
    ReadBlock(d, ops, MarkerAt(blocks, i), blocks[i].payload, t[0], t[1]);
  }

  lemma BodyParts(payload: seq<Byte>)
    ensures var t := FdsFormat.Trailer(payload);
            FdsFormat.Body(payload) == [FdsFormat.MARKER] + (payload + [t[0], t[1]])
  {
  }
}
