/** Reading a whole side: the motor, and block after block, each after its gap search was armed again. */
module FdsSide {
  import opened Bits
  import opened Wrappers
  import opened FdsDrive
  import opened FdsRead
  import Crc
  import FdsFormat

  // ---- the drive keeps reading ----

  /** Control values that leave the drive in read mode. */
  predicate ReadValue(value: Byte) { BitAt(value, 2) && !BitAt(value, 1) }

  /** What software may do between blocks: let time pass, read the status registers, and set control values of read
      mode. */
  predicate Reading(op: Op) { Watching(op) || (op.Write4025? && ReadValue(op.value)) }

  /** The cycles until the next bit, `n` cycles later. */
  function WaitAfter(wait: int, n: nat): int
    requires wait >= 1
  {
    if n < wait then wait - n else 56 - (n - wait) % 56
  }

  lemma WaitStep(wait: int, n: nat)
    requires wait >= 1 && n >= 1
    ensures wait > 1 ==> WaitAfter(wait - 1, n - 1) == WaitAfter(wait, n)
    ensures wait == 1 ==> WaitAfter(wait, n) == WaitAfter(56, n - 1)
  {
  }

  /** Still in read mode, `n` cycles later. */
  ghost predicate Moved(d: Drive, e: Drive, n: nat)
    requires d.cycleswaiting >= 1
  {
    && e.Inv() && ReadMode(e) && e.diskpos == d.diskpos + BitTimes(d.cycleswaiting, n)
    && e.cycleswaiting == WaitAfter(d.cycleswaiting, n) && e.disk == d.disk && e.disksize == d.disksize
  }

  lemma ReadingStep(d: Drive, op: Op)
    requires d.Inv() && ReadMode(d) && Reading(op) && !op.Clock?
    ensures var e := Apply(d, op);
      && e.Inv() && ReadMode(e) && e == d.(port := e.port, transferreset := false)
  {
    hide Port.Rises;
    ApplyKeepsInv(d, op);
  }

  lemma {:induction false} ReadingRun(d: Drive, ops: seq<Op>)
    requires d.Inv() && ReadMode(d)
    requires forall op | op in ops :: Reading(op)
    requires d.diskpos + BitTimes(d.cycleswaiting, Clocks(ops)) < d.disksize
    ensures Moved(d, Run(d, ops), Clocks(ops))
    decreases |ops|
  {
    hide Apply, Drive.Clocked, Reading;
    if ops != [] {
      assert ops[0] in ops;
      ApplyKeepsInv(d, ops[0]);
      var e := Apply(d, ops[0]);
      if !ops[0].Clock? {
        ReadingStep(d, ops[0]);
        ReadingRun(e, ops[1..]);
      } else {
        ClockIs(d);
        BitTimesStep(d.cycleswaiting, Clocks(ops));
        WaitStep(d.cycleswaiting, Clocks(ops));
        if d.cycleswaiting > 1 { WaitTick(d); } else { ReadTick(d); }
        ReadingRun(e, ops[1..]);
      }
    }
  }

  lemma ClockIs(d: Drive)
    requires d.Inv()
    ensures Apply(d, Clock) == d.Clocked()
  {
  }

  // ---- the motor ----

  lemma SpinStep(d: Drive, op: Op)
    requires d.Inv() && d.state.Spinup? && !d.transferreset && BitAt(d.port.cached4025, 2) && Reading(op)
    ensures var e := Apply(d, op);
      && e.Inv() && !e.transferreset && BitAt(e.port.cached4025, 2)
      && e.disk == d.disk && e.disksize == d.disksize && e.diskpos == d.diskpos
      && (if !op.Clock? then e.state.Spinup? && e.cycleswaiting == d.cycleswaiting
          else if d.cycleswaiting == 1 then e.state.Running? && e.cycleswaiting == 56
          else e.state.Spinup? && e.cycleswaiting == d.cycleswaiting - 1)
  {
    ApplyKeepsInv(d, op);
  }

  lemma {:induction false} Spins(d: Drive, ops: seq<Op>)
    requires d.Inv() && d.state.Spinup? && !d.transferreset && BitAt(d.port.cached4025, 2)
    requires (forall op | op in ops :: Reading(op)) && Clocks(ops) == d.cycleswaiting
    requires ops != [] && ops[|ops| - 1].Clock?
    ensures var e := Run(d, ops);
      && ReadMode(e) && e.cycleswaiting == 56 && e.disk == d.disk && e.disksize == d.disksize && e.diskpos == d.diskpos
    decreases |ops|
  {
    hide Apply, Reading;
    assert ops[0] in ops;
    SpinStep(d, ops[0]);
    var e := Apply(d, ops[0]);
    if |ops| == 1 {
      assert ops[1..] == [];
    } else {
      assert ops[1..][|ops[1..]| - 1] == ops[|ops| - 1];
      ClocksLast(ops[1..]);
      Spins(e, ops[1..]);
    }
  }

  lemma {:induction false} ClocksLast(ops: seq<Op>)
    requires ops != [] && ops[|ops| - 1].Clock?
    ensures Clocks(ops) >= 1
  {
    if |ops| > 1 {
      assert ops[1..][|ops[1..]| - 1] == ops[|ops| - 1];
      ClocksLast(ops[1..]);
    }
  }

  /** An idle drive with a disk, told to start its motor in read mode, is at the start of the disk when the motor is up
      to speed. */
  lemma MotorStarts(d: Drive, value: Byte, spin: seq<Op>)
    requires d.Inv() && d.state.Idle? && d.disk != [] && BitAt(value, 0) && ReadValue(value)
    requires (forall op | op in spin :: Reading(op)) && Clocks(spin) == 1070000
    requires spin != [] && spin[|spin| - 1].Clock?
    ensures var e := Run(d, [Write4025(value)] + spin);
      && ReadMode(e) && e.cycleswaiting == 56 && e.disk == d.disk && e.disksize == d.disksize && e.diskpos == 0
  {
    hide Run;
    ApplyKeepsInv(d, Write4025(value));
    var t := Apply(d, Write4025(value));
    assert t.state.Spinup? && t.cycleswaiting == 1070000 && !t.transferreset && BitAt(t.port.cached4025, 2);
    Spins(t, spin);
    RunFirst(d, Write4025(value), spin);
  }

  lemma RunFirst(d: Drive, op: Op, ops: seq<Op>)
    requires d.Inv()
    ensures Apply(d, op).Inv() && Run(d, [op] + ops) == Run(Apply(d, op), ops)
  {
    ApplyKeepsInv(d, op);
    assert ([op] + ops)[1..] == ops;
  }

  // ---- block after block ----

  /** How software reads a block: it waits in the gap, lowers bit 6 of $4025 and raises it again, and waits for the
      bytes. */
  datatype Visit = Visit(pause: seq<Op>, low: Byte, high: Byte, read: seq<Op>) {
    predicate Ok() {
      && (forall op | op in pause :: Reading(op)) && (forall op | op in read :: Watching(op))
      && ReadValue(low) && !BitAt(low, 6) && ReadValue(high) && BitAt(high, 6) && !BitAt(high, 4)
    }

    function Before(): seq<Op> { pause + [Write4025(low), Write4025(high)] }
  }

  /** What a visit delivers, and whether the CRC is zero then. */
  datatype Delivery = Delivery(bytes: seq<Byte>, good: bool)

  function Visited(d: Drive, v: Visit): Drive
    requires d.Inv()
  {
    Run(Run(d, v.Before()), v.read)
  }

  function DeliveryOf(d: Drive, v: Visit): Delivery
    requires d.Inv()
  {
    var e := Run(d, v.Before());
    Delivery(Delivered(e, v.read), Run(e, v.read).port.crc == Crc.ZERO)
  }

  function Deliveries(d: Drive, visits: seq<Visit>): seq<Delivery>
    requires d.Inv()
    decreases |visits|
  {
    if visits == [] then []
    else [DeliveryOf(d, visits[0])] + Deliveries(Visited(d, visits[0]), visits[1..])
  }

  /** The block's payload and CRC, and a CRC that is right. */
  function BlockDelivery(b: FdsFormat.Block): Delivery { Delivery(b.payload + FdsFormat.Trailer(b.payload), true) }

  function BlockEnd(blocks: seq<FdsFormat.Block>, i: nat): nat
    requires i < |blocks|
  {
    MarkerAt(blocks, i) + 8 * (|blocks[i].payload| + 3)
  }

  /** The visit fits block `i`: it arms the search in the block's gap, and waits to the block's end. */
  ghost predicate InTime(d: Drive, v: Visit, blocks: seq<FdsFormat.Block>, i: nat)
    requires d.Inv() && d.cycleswaiting >= 1 && i < |blocks|
  {
    var at := d.diskpos + BitTimes(d.cycleswaiting, Clocks(v.pause));
    var wait := WaitAfter(d.cycleswaiting, Clocks(v.pause));
    at <= MarkerAt(blocks, i) + 7 && wait >= 1 && at + BitTimes(wait, Clocks(v.read)) == BlockEnd(blocks, i)
  }

  /** The visits are to the blocks from `i` on, in order, and all of these fit the side. */
  ghost predicate AllInTime(d: Drive, visits: seq<Visit>, blocks: seq<FdsFormat.Block>, i: nat)
    requires d.Inv()
    decreases |visits|
  {
    visits != [] ==>
      && i < |blocks| && FdsFormat.Fits(blocks, i) && d.cycleswaiting >= 1
      && visits[0].Ok() && InTime(d, visits[0], blocks, i)
      && AllInTime(Visited(d, visits[0]), visits[1..], blocks, i + 1)
  }

  /** Bit 6 rises in read mode. */
  lemma Armed(d: Drive, low: Byte, high: Byte)
    requires d.Inv() && ReadMode(d) && ReadValue(low) && !BitAt(low, 6)
    requires ReadValue(high) && BitAt(high, 6) && !BitAt(high, 4)
    ensures var e := Run(d, [Write4025(low), Write4025(high)]);
      && ReadMode(e) && e.port.GapSearch() && e == d.(port := e.port, transferreset := false)
  {
    hide Run, Port.Take;
    var ops := [Write4025(low), Write4025(high)];
    assert ops == [Write4025(low)] + [Write4025(high)] && [Write4025(high)] == [Write4025(high)] + [];
    ReadingStep(d, Write4025(low));
    var e := Apply(d, Write4025(low));
    ReadingStep(e, Write4025(high));
    RunFirst(d, Write4025(low), [Write4025(high)]);
    RunFirst(e, Write4025(high), []);
    NoOps(Apply(e, Write4025(high)));
  }

  lemma NoOps(d: Drive)
    requires d.Inv()
    ensures Run(d, []) == d
  {
  }

  lemma EndIsNextStart(blocks: seq<FdsFormat.Block>, i: nat)
    requires i < |blocks|
    ensures i + 1 < |blocks| ==> BlockEnd(blocks, i) == 8 * FdsFormat.BlockStart(blocks, i + 1)
    ensures FdsFormat.Fits(blocks, i) ==> BlockEnd(blocks, i) <= 8 * FdsFormat.SIDE_BYTES
  {
    hide FdsFormat.Encode;
    if i + 1 < |blocks| {
      assert blocks[..i + 1] == blocks[..i] + [blocks[i]];
      FdsFormat.EncodeAllConcat(blocks[..i], [blocks[i]]);
      assert [blocks[i]][1..] == [];
    }
  }

  /** A drive that reads, at the start of block `i`. */
  ghost predicate AtBlock(d: Drive, blocks: seq<FdsFormat.Block>, i: nat) {
    && d.Inv() && ReadMode(d) && d.disk == FdsFormat.SideOf(blocks) && d.disksize == 8 * FdsFormat.SIDE_BYTES
    && i < |blocks| && d.diskpos == 8 * FdsFormat.BlockStart(blocks, i)
  }

  /** One block. */
  lemma VisitReads(d: Drive, v: Visit, blocks: seq<FdsFormat.Block>, i: nat)
    requires AtBlock(d, blocks, i) && FdsFormat.Fits(blocks, i) && v.Ok() && InTime(d, v, blocks, i)
    ensures DeliveryOf(d, v) == BlockDelivery(blocks[i])
    ensures i + 1 < |blocks| && FdsFormat.Fits(blocks, i + 1) ==> AtBlock(Visited(d, v), blocks, i + 1)
    ensures Visited(d, v).Inv()
  {
    hide Run, Delivered, FdsFormat.Trailer, FdsFormat.Body, FdsFormat.SideOf, HoldsAt, Blank, Drive.Inv, Port.GapSearch;
    var t := Run(d, v.pause);
    EndIsNextStart(blocks, i);
    ReadingRun(d, v.pause);
    Armed(t, v.low, v.high);
    RunJoined(d, v.pause, [Write4025(v.low), Write4025(v.high)]);
    var e := Run(d, v.Before());
    ReadsIt(e, v.read, blocks, i);
    if i + 1 < |blocks| && FdsFormat.Fits(blocks, i + 1) {
      NextFits(blocks, i);
      WatchingIsReading(v.read);
      ReadingRun(e, v.read);
    }
  }

  lemma WatchingIsReading(ops: seq<Op>)
    requires forall op | op in ops :: Watching(op)
    ensures forall op | op in ops :: Reading(op)
  {
  }

  lemma NextFits(blocks: seq<FdsFormat.Block>, i: nat)
    requires i + 1 < |blocks| && FdsFormat.Fits(blocks, i + 1)
    ensures BlockEnd(blocks, i) < 8 * FdsFormat.SIDE_BYTES
  {
    EndIsNextStart(blocks, i);
  }

  lemma ReadsIt(e: Drive, ops: seq<Op>, blocks: seq<FdsFormat.Block>, i: nat)
    requires i < |blocks| && FdsFormat.Fits(blocks, i)
    requires e.Inv() && ReadMode(e) && e.port.GapSearch()
    requires e.disk == FdsFormat.SideOf(blocks) && e.disksize == 8 * FdsFormat.SIDE_BYTES
    requires forall op | op in ops :: Watching(op)
    requires 8 * FdsFormat.BlockStart(blocks, i) <= e.diskpos <= MarkerAt(blocks, i) + 7
    requires BitTimes(e.cycleswaiting, Clocks(ops)) == BlockEnd(blocks, i) - e.diskpos
    ensures Delivered(e, ops) == blocks[i].payload + FdsFormat.Trailer(blocks[i].payload)
    ensures Run(e, ops).port.crc == Crc.ZERO && Run(e, ops).diskpos == BlockEnd(blocks, i)
  {
    hide Delivered, Run, FdsFormat.Trailer, Drive.Inv, FdsFormat.SideOf;
    FormattedBlock(blocks, i);
    EndIsNextStart(blocks, i);
    var t := FdsFormat.Trailer(blocks[i].payload);
    assert t == [t[0], t[1]];
    BodyParts(blocks[i].payload);
    ReadBlock(e, ops, MarkerAt(blocks, i), blocks[i].payload, t[0], t[1]);
  }

  lemma {:induction false} BlocksRead(d: Drive, visits: seq<Visit>, blocks: seq<FdsFormat.Block>, i: nat)
    requires d.Inv() && AllInTime(d, visits, blocks, i) && (visits != [] ==> AtBlock(d, blocks, i))
    ensures i <= |blocks| ==> i + |visits| <= |blocks|
    ensures |Deliveries(d, visits)| == |visits|
    ensures forall j: nat | j < |visits| && i + j < |blocks| ::
      Deliveries(d, visits)[j] == BlockDelivery(blocks[i + j])
    decreases |visits|
  {
    hide AtBlock, InTime, Visited, DeliveryOf, BlockDelivery, FdsFormat.Fits;
    if visits != [] {
      VisitReads(d, visits[0], blocks, i);
      var e := Visited(d, visits[0]);
      BlocksRead(e, visits[1..], blocks, i + 1);
      var rest := Deliveries(e, visits[1..]);
      forall j: nat | j < |visits| && i + j < |blocks|
        ensures ([DeliveryOf(d, visits[0])] + rest)[j] == BlockDelivery(blocks[i + j])
      {
        if j > 0 { assert rest[j - 1] == BlockDelivery(blocks[i + 1 + (j - 1)]); }
      }
    }
  }

  /** Format, then read the side: a drive at rest with a formatted dump, told to start its motor in read mode, delivers
      block after block of the dump, as far as they fit, in order, each with its CRC and a CRC check that holds; in
      whatever pattern software reads the status registers, and wherever in a gap it arms the search. */
  lemma SideRead(input: seq<Byte>, d: Drive, value: Byte, spin: seq<Op>, visits: seq<Visit>)
    requires FdsFormat.Format(input) == Success(d.disk) && d.disksize == 8 * FdsFormat.SIDE_BYTES
    requires d.Inv() && d.state.Idle? && BitAt(value, 0) && ReadValue(value)
    requires (forall op | op in spin :: Reading(op)) && Clocks(spin) == 1070000
    requires spin != [] && spin[|spin| - 1].Clock?
    requires AllInTime(Run(d, [Write4025(value)] + spin), visits, FdsFormat.ParseSide(input).value, 0)
    ensures var blocks := FdsFormat.ParseSide(input).value;
      var got := Deliveries(Run(d, [Write4025(value)] + spin), visits);
      && |got| == |visits| <= |blocks|
      && forall j: nat | j < |visits| :: got[j] == BlockDelivery(blocks[j])
  {
    hide Run, Deliveries, BlockDelivery, FdsFormat.ParseSide, FdsFormat.SideOf, Drive.Inv, AtBlock, InTime, Visited;
    var blocks := FdsFormat.ParseSide(input).value;
    MotorStarts(d, value, spin);
    var e := Run(d, [Write4025(value)] + spin);
    if visits != [] { StartsAtBlock(e, blocks); }
    BlocksRead(e, visits, blocks, 0);
  }

  // ---- one such schedule ----

  /** The cycles from the start of a block, gap included, to its end. */
  function BlockCycles(blocks: seq<FdsFormat.Block>, i: nat): nat
    requires i < |blocks|
    ensures BlockEnd(blocks, i) - 8 * FdsFormat.BlockStart(blocks, i) > 0
  {
    56 * (BlockEnd(blocks, i) - 8 * FdsFormat.BlockStart(blocks, i))
  }

  /** Arm the search at once, and wait. */
  function PlainVisit(blocks: seq<FdsFormat.Block>, i: nat): Visit
    requires i < |blocks|
  {
    Visit([], 0x05, 0x45, Pass(BlockCycles(blocks, i)))
  }

  function PlainVisits(blocks: seq<FdsFormat.Block>, i: nat, n: nat): (r: seq<Visit>)
    requires i + n <= |blocks|
    ensures |r| == n
    decreases n
  {
    if n == 0 then [] else [PlainVisit(blocks, i)] + PlainVisits(blocks, i + 1, n - 1)
  }

  lemma {:induction false} PassClocks(n: nat)
    ensures Clocks(Pass(n)) == n && forall op | op in Pass(n) :: op.Clock?
  {
    if n > 0 {
      assert Pass(n)[1..] == Pass(n - 1);
      PassClocks(n - 1);
    }
  }

  lemma PlainValues()
    ensures ReadValue(0x05) && BitAt(0x05, 0) && !BitAt(0x05, 6)
    ensures ReadValue(0x45) && BitAt(0x45, 6) && !BitAt(0x45, 4)
  {
    hide BitsOf;
    LowValue();
    HighValue();
  }

  lemma LowValue()
    ensures BitsOf(0x05) == [true, false, true, false, false, false, false, false]
  {
  }

  lemma HighValue()
    ensures BitsOf(0x45) == [true, false, true, false, false, false, true, false]
  {
  }

  lemma WholeBits(n: nat)
    requires n > 0
    ensures BitTimes(56, 56 * n) == n && WaitAfter(56, 56 * n) == 56
  {
    assert 56 * n - 56 == 56 * (n - 1);
  }

  lemma PlainOk(blocks: seq<FdsFormat.Block>, i: nat)
    requires i < |blocks|
    ensures PlainVisit(blocks, i).Ok()
  {
    hide ReadValue, BitAt, BlockCycles;
    PlainValues();
    PassClocks(BlockCycles(blocks, i));
  }

  lemma PlainInTime(d: Drive, blocks: seq<FdsFormat.Block>, i: nat)
    requires AtBlock(d, blocks, i) && d.cycleswaiting == 56
    ensures d.Inv() && InTime(d, PlainVisit(blocks, i), blocks, i)
  {
    hide AtBlock, FdsFormat.BlockStart, Drive.Inv, BlockEnd, MarkerAt, Pass;
    BlockHere(d, blocks, i);
    PassClocks(BlockCycles(blocks, i));
    WholeBits(BlockEnd(blocks, i) - 8 * FdsFormat.BlockStart(blocks, i));
  }

  lemma BlockHere(d: Drive, blocks: seq<FdsFormat.Block>, i: nat)
    requires AtBlock(d, blocks, i)
    ensures d.Inv() && i < |blocks| && d.diskpos == 8 * FdsFormat.BlockStart(blocks, i) <= MarkerAt(blocks, i)
  {
    hide FdsFormat.SideOf, Drive.Inv;
  }

  /** After a plain visit the next bit is a whole bit time away again. */
  lemma PlainWaits(d: Drive, blocks: seq<FdsFormat.Block>, i: nat)
    requires AtBlock(d, blocks, i) && d.cycleswaiting == 56 && i + 1 < |blocks| && FdsFormat.Fits(blocks, i + 1)
    ensures Visited(d, PlainVisit(blocks, i)).cycleswaiting == 56
  {
    hide Run, FdsFormat.SideOf, Drive.Inv, Port.GapSearch, BlockEnd, FdsFormat.BlockStart, FdsFormat.Fits, ReadValue;
    PlainValues();
    var n := BlockCycles(blocks, i);
    PassClocks(n);
    WholeBits(BlockEnd(blocks, i) - 8 * FdsFormat.BlockStart(blocks, i));
    Armed(d, 0x05, 0x45);
    var v := PlainVisit(blocks, i);
    assert v.Before() == [Write4025(0x05), Write4025(0x45)];
    NextFits(blocks, i);
    ReadingRun(Run(d, v.Before()), Pass(n));
  }

  lemma {:induction false} PlainAllInTime(d: Drive, blocks: seq<FdsFormat.Block>, i: nat, n: nat)
    requires d.Inv() && i + n <= |blocks| && forall j: nat | i <= j < i + n :: FdsFormat.Fits(blocks, j)
    requires n > 0 ==> AtBlock(d, blocks, i) && d.cycleswaiting == 56
    ensures AllInTime(d, PlainVisits(blocks, i, n), blocks, i)
    decreases n
  {
    hide AtBlock, InTime, Visited, FdsFormat.Fits, PlainVisit, Visit.Ok, PlainVisits, AllInTime, Drive.Inv,
      BlockDelivery, DeliveryOf;
    if n == 0 {
      NoneLeft(d, blocks, i);
    } else {
      var v := PlainVisit(blocks, i);
      PlainOk(blocks, i);
      PlainInTime(d, blocks, i);
      assert FdsFormat.Fits(blocks, i);
      VisitReads(d, v, blocks, i);
      if n > 1 {
        assert FdsFormat.Fits(blocks, i + 1);
        PlainWaits(d, blocks, i);
      }
      PlainAllInTime(Visited(d, v), blocks, i + 1, n - 1);
      OneMore(d, blocks, i, n);
    }
  }

  lemma NoneLeft(d: Drive, blocks: seq<FdsFormat.Block>, i: nat)
    requires d.Inv() && i <= |blocks|
    ensures AllInTime(d, PlainVisits(blocks, i, 0), blocks, i)
  {
  }

  lemma OneMore(d: Drive, blocks: seq<FdsFormat.Block>, i: nat, n: nat)
    requires d.Inv() && n > 0 && i + n <= |blocks| && FdsFormat.Fits(blocks, i) && d.cycleswaiting >= 1
    requires var v := PlainVisit(blocks, i);
      v.Ok() && InTime(d, v, blocks, i) && Visited(d, v).Inv()
      && AllInTime(Visited(d, v), PlainVisits(blocks, i + 1, n - 1), blocks, i + 1)
    ensures AllInTime(d, PlainVisits(blocks, i, n), blocks, i)
  {
    hide InTime, Visited, FdsFormat.Fits, PlainVisit, Visit.Ok;
    assert PlainVisits(blocks, i, n)[1..] == PlainVisits(blocks, i + 1, n - 1);
  }

  /** So every block that fits the side can be read: for every dump that the formatter accepts, and any number of
      leading blocks that fit, one schedule delivers exactly these. */
  lemma AllReadable(input: seq<Byte>, d: Drive, n: nat)
    requires FdsFormat.Format(input) == Success(d.disk) && d.disksize == 8 * FdsFormat.SIDE_BYTES
    requires d.Inv() && d.state.Idle?
    requires n <= |FdsFormat.ParseSide(input).value|
    requires forall j: nat | j < n :: FdsFormat.Fits(FdsFormat.ParseSide(input).value, j)
    ensures var blocks := FdsFormat.ParseSide(input).value;
      Deliveries(Run(d, [Write4025(0x05)] + Pass(1070000)), PlainVisits(blocks, 0, n))
      == seq(n, j requires 0 <= j < n => BlockDelivery(blocks[j]))
  {
    hide Run, AllInTime, Deliveries, BlockDelivery, FdsFormat.ParseSide, FdsFormat.SideOf, Drive.Inv, AtBlock;
    var blocks := FdsFormat.ParseSide(input).value;
    PlainValues();
    PassClocks(1070000);
    MotorStarts(d, 0x05, Pass(1070000));
    var e := Run(d, [Write4025(0x05)] + Pass(1070000));
    if n > 0 { StartsAtBlock(e, blocks); }
    PlainAllInTime(e, blocks, 0, n);
    SideRead(input, d, 0x05, Pass(1070000), PlainVisits(blocks, 0, n));
  }

  lemma StartsAtBlock(e: Drive, blocks: seq<FdsFormat.Block>)
    requires e.Inv() && ReadMode(e) && e.disk == FdsFormat.SideOf(blocks) && e.disksize == 8 * FdsFormat.SIDE_BYTES
    requires e.diskpos == 0 && blocks != []
    ensures AtBlock(e, blocks, 0)
  {
    hide FdsFormat.SideOf;
    assert blocks[..0] == [];
  }
}
