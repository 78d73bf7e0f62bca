/** The disk drive of the RAM adapter, at the level of single bits. `Drive` is its state as a value,
    with the effect of every access; the drive itself is the class `FdsUnit.DiskDrive`, proved against it. */
module FdsDrive {
  import opened Bits
  import opened Wrappers
  import Crc

  datatype Motor = Running | Inserting | Spinup | Reset | Idle

  /** How long the drive stays in a motor state before the next action, in PPU cycles. */
  function Wait(m: Motor): nat {
    match m
    case Running => 56
    case Inserting => 535000
    case Spinup => 1070000
    case Reset => 535000
    case Idle => 100000
  }

  const DUMMY_STEP: nat := 5000

  /** The drive's serial side: control register, flags, CRC and the two shift registers. It sees the
      disk one bit at a time. */
  datatype Port = Port(
    cached4025: Byte,
    irq: bool,
    crc: Crc.Word,
    writecomputecrc: bool,
    readreg: Byte,
    writereg: Byte,
    readregpos: nat,
    writeregpos: nat,
    readreglatch: Byte,
    writereglatch: Byte,
    bytetransferflag: bool,
    lookingforendofgap: bool)
  {
    ghost predicate Inv() {
      readregpos < 8 && writeregpos < 8
    }

    function Wrote4024(value: Byte): Port {
      this.(bytetransferflag := false, writereglatch := value)
    }

    /** A rising bit 6 arms the gap search, and in write mode restarts the write register. */
    predicate Rises(value: Byte) {
      !BitAt(cached4025, 6) && BitAt(value, 6)
    }

    function Wrote4025(value: Byte): Port {
      if !Rises(value) then
        this.(irq := false, cached4025 := value)
      else if BitAt(value, 2) then
        this.(irq := false, cached4025 := value, lookingforendofgap := true)
      else
        this.(irq := false, cached4025 := value, lookingforendofgap := true,
              writeregpos := 0, writereg := writereglatch, bytetransferflag := true, crc := Crc.ZERO,
              writecomputecrc := true)
    }

    /** Status reads acknowledge the byte transfer. */
    function Acknowledged(): Port {
      this.(bytetransferflag := false, irq := false)
    }

    predicate GapSearch() {
      lookingforendofgap && !BitAt(cached4025, 4)
    }

    /** One bit read from the disk. */
    function Take(bit: bool): Port
      requires Inv()
    {
      if GapSearch() then
        if bit then this.(lookingforendofgap := false, readregpos := 0, crc := Crc.Ccitt(Crc.ZERO, true)) else this
      else
        var shifted := WithBit(readreg, readregpos, bit);
        if readregpos + 1 < 8 then
          this.(crc := Crc.Ccitt(crc, bit), readreg := shifted, readregpos := readregpos + 1)
        else
          this.(crc := Crc.Ccitt(crc, bit), readreg := shifted, readregpos := 0, bytetransferflag := true,
                irq := irq || BitAt(cached4025, 7), readreglatch := shifted,
                cached4025 := if BitAt(cached4025, 4) then WithBit(cached4025, 4, false) else cached4025)
    }

    /** The bit that write mode lays down: zeroes as long as bit 6 has not been raised. */
    predicate Out()
      requires Inv()
    {
      lookingforendofgap && BitAt(writereg, writeregpos)
    }

    /** One bit written to the disk. */
    function Given(): Port
      requires Inv()
    {
      if !lookingforendofgap then this
      else
        var sum := if writecomputecrc then Crc.Ccitt(crc, Out()) else crc;
        if writeregpos + 1 < 8 then
          this.(crc := sum, writeregpos := writeregpos + 1)
        else
          this.(crc := sum, writeregpos := 0, bytetransferflag := true, irq := irq || BitAt(cached4025, 7)).Reloaded()
    }

    /** The next byte to write comes from the latch, or from the CRC. */
    function Reloaded(): Port {
      if !BitAt(cached4025, 4) then
        this.(writereg := writereglatch)
      else if crc == Crc.ZERO then
        this.(cached4025 := WithBit(cached4025, 4, false), writereglatch := 0,
              writereg := Crc.Low(crc), crc := Crc.Shift8(crc), writecomputecrc := false)
      else
        this.(writereg := Crc.Low(crc), crc := Crc.Shift8(crc), writecomputecrc := false)
    }
  }

  datatype Drive = Drive(
    original: seq<Byte>,
    disk: seq<Byte>,
    diskpos: int,
    disksize: int,
    writeprotect: bool,
    cycleswaiting: int,
    state: Motor,
    transferreset: bool,
    port: Port)
  {
    /** What holds of a drive at all times. */
    ghost predicate Inv() {
      && port.Inv() && 0 <= diskpos
      && (disk != [] ==> 0 <= disksize <= 8 * |disk| && |original| == |disk|)
      && (disk != [] && !state.Running? && !state.Reset? ==> diskpos == 0)
      && (state.Spinup? || state.Running? ==> disk != [])
      && (state.Running? ==> diskpos < 8 * |disk| && (diskpos < disksize || diskpos == 0))
      && (!state.Idle? ==> 1 <= cycleswaiting <= Wait(state))
    }

    function Entering(m: Motor): Drive {
      this.(state := m, cycleswaiting := Wait(m))
    }

    function Ejected(): Drive {
      this.(disk := []).Entering(Idle)
    }

    predicate Insertable(side: seq<Byte>, bitlength: int) {
      0 <= bitlength <= 8 * |side|
    }

    function Inserted(side: seq<Byte>, bitlength: int, protect: bool): Drive {
      this.(disk := side, disksize := bitlength, diskpos := 0, writeprotect := protect, original := side)
          .Entering(Inserting)
    }

    function Wrote4025(value: Byte): Drive {
      var d := if BitAt(value, 0) && state.Idle? && disk != [] then Entering(Spinup) else this;
      d.(transferreset := BitAt(value, 1), port := port.Wrote4025(value))
    }

    /** What happens to the bit under the head: it passes unseen, is read, or is written. */
    function Moved(): Drive
      requires port.Inv() && 0 <= diskpos < 8 * |disk|
    {
      if transferreset then this.(diskpos := diskpos + DUMMY_STEP)
      else if BitAt(port.cached4025, 2) then
        this.(diskpos := diskpos + 1, port := port.Take(TapeBit(disk, diskpos)))
      else if writeprotect then this.(diskpos := diskpos + 1)
      else
        this.(diskpos := diskpos + 1, port := port.Given(), disk := WithTapeBit(disk, diskpos, port.Out()))
    }

    /** One PPU cycle. */
    function Clocked(): Drive
      requires Inv()
    {
      var d := this.(cycleswaiting := cycleswaiting - 1);
      if d.cycleswaiting != 0 then d
      else
        match state
        case Running =>
          var moved := d.Moved();
          moved.Entering(if moved.diskpos >= moved.disksize then Reset else Running)
        case Reset => d.(diskpos := 0).Entering(Idle)
        case Inserting => d.(diskpos := 0).Entering(Idle)
        case Spinup => d.Entering(Running)
        case Idle => d.Entering(Idle)
    }
  }

  /** A byte string with one bit replaced. */
  function WithTapeBit(s: seq<Byte>, p: nat, v: bool): (r: seq<Byte>)
    requires p < 8 * |s|
    ensures |r| == |s|
  {
    s[p / 8 := WithBit(s[p / 8], p % 8, v)]
  }

  const POWER_ON_PORT: Port := Port(0, false, Crc.ZERO, false, 0, 0, 0, 0, 0, 0, false, false)
  const POWER_ON: Drive := Drive([], [], 0, 0, true, 0, Idle, false, POWER_ON_PORT)

  // ---- runs ----

  datatype Op =
    | Clock
    | Read4030
    | Read4031
    | Read4032
    | Write4024(value: Byte)
    | Write4025(value: Byte)
    | Eject
    | Insert(side: seq<Byte>, bitlength: int, protect: bool)

  function Apply(d: Drive, op: Op): Drive
    requires d.Inv()
  {
    match op
    case Clock => d.Clocked()
    case Read4030 => d.(port := d.port.Acknowledged())
    case Read4031 => d.(port := d.port.Acknowledged())
    case Read4032 => d
    case Write4024(value) => d.(port := d.port.Wrote4024(value))
    case Write4025(value) => d.Wrote4025(value)
    case Eject => d.Ejected()
    case Insert(side, bitlength, protect) =>
      if d.Insertable(side, bitlength) then d.Inserted(side, bitlength, protect) else d
  }

  lemma TakeKeepsInv(p: Port, bit: bool)
    requires p.Inv()
    ensures p.Take(bit).Inv()
  {
  }

  lemma GivenKeepsInv(p: Port)
    requires p.Inv()
    ensures p.Given().Inv()
  {
  }

  /** Moving the head changes neither what disk is in the drive nor what the motor does. */
  lemma MovedMovesHead(d: Drive)
    requires d.port.Inv() && 0 <= d.diskpos < 8 * |d.disk|
    ensures var e := d.Moved();
            && e.port.Inv() && d.diskpos < e.diskpos && |e.disk| == |d.disk|
            && e == d.(diskpos := e.diskpos, disk := e.disk, port := e.port)
  {
    if !d.transferreset {
      if BitAt(d.port.cached4025, 2) { TakeKeepsInv(d.port, TapeBit(d.disk, d.diskpos)); }
      else { GivenKeepsInv(d.port); }
    }
  }

  lemma ClockKeepsInv(d: Drive)
    requires d.Inv()
    ensures d.Clocked().Inv()
  {
    if d.state.Running? {
      MovedMovesHead(d.(cycleswaiting := d.cycleswaiting - 1));
    }
  }

  /** Every operation keeps the drive sound. */
  lemma ApplyKeepsInv(d: Drive, op: Op)
    requires d.Inv()
    ensures Apply(d, op).Inv()
  {
    if op.Clock? {
      ClockKeepsInv(d);
    }
  }

  function Run(d: Drive, ops: seq<Op>): (r: Drive)
    requires d.Inv()
    ensures r.Inv()
    decreases |ops|
  {
    if ops == [] then d
    else
      ApplyKeepsInv(d, ops[0]);
      Run(Apply(d, ops[0]), ops[1..])
  }

  lemma {:induction false} RunJoined(d: Drive, u: seq<Op>, v: seq<Op>)
    requires d.Inv()
    ensures Run(d, u + v) == Run(Run(d, u), v)
    decreases |u|
  {
    hide Apply, Drive.Inv;
    if u == [] {
      assert u + v == v;
    } else {
      assert (u + v)[1..] == u[1..] + v;
      ApplyKeepsInv(d, u[0]);
      RunJoined(Apply(d, u[0]), u[1..], v);
    }
  }

  /** Nothing but time. */
  function Pass(n: nat): (ops: seq<Op>)
    ensures |ops| == n
  {
    seq(n, i => Clock)
  }

  /** Over any history, a drive whose motor is turning has a disk of the announced size under its head. */
  lemma HeadOnDisk(ops: seq<Op>)
    ensures POWER_ON.Inv()
    ensures var d := Run(POWER_ON, ops);
            && d.port.readregpos < 8 && d.port.writeregpos < 8
            && (d.state.Spinup? || d.state.Running? ==> d.disk != [] && 0 <= d.diskpos < 8 * |d.disk|)
            && ((d.state.Spinup? || d.state.Running?) && d.disksize > 0 ==>
                  0 <= d.diskpos < d.disksize <= 8 * |d.disk|)
  {
  }

  predicate KeepsDisk(op: Op) { !op.Eject? && !op.Insert? }

  function Clocks(ops: seq<Op>): nat {
    if ops == [] then 0 else (if ops[0].Clock? then 1 else 0) + Clocks(ops[1..])
  }

  /** Cycles until a running drive is done with its disk: 56 for every bit left. */
  function TimeToReset(d: Drive): int {
    d.cycleswaiting + 56 * ((if d.disksize > 0 then d.disksize else 1) - d.diskpos - 1)
  }

  lemma RunningStep(d: Drive, op: Op)
    requires d.Inv() && d.state.Running? && KeepsDisk(op)
    ensures var e := Apply(d, op);
            e.state.Reset? || (e.state.Running? && TimeToReset(e) <= TimeToReset(d) - Clocks([op]))
    ensures TimeToReset(d) >= 1
  {
    if op.Clock? {
      MovedMovesHead(d.(cycleswaiting := d.cycleswaiting - 1));
    }
  }

  /** A running drive that keeps its disk springs back within 56 cycles for every bit left, whatever
      its registers are told. */
  lemma {:induction false} ReachesReset(d: Drive, ops: seq<Op>) returns (i: nat)
    requires d.Inv() && d.state.Running?
    requires forall op | op in ops :: KeepsDisk(op)
    requires Clocks(ops) >= TimeToReset(d)
    ensures i <= |ops| && Run(d, ops[..i]).state.Reset?
    ensures Clocks(ops[..i]) <= TimeToReset(d)
    decreases |ops|
  {
    RunningStep(d, if ops == [] then Clock else ops[0]);
    var e := Apply(d, ops[0]);
    if e.state.Reset? {
      i := 1;
      assert ops[..1] == [ops[0]];
    } else {
      ApplyKeepsInv(d, ops[0]);
      var j := ReachesReset(e, ops[1..]);
      i := j + 1;
      assert ops[..i][1..] == ops[1..][..j];
    }
  }

  lemma ResetStep(d: Drive, op: Op)
    requires d.Inv() && d.state.Reset? && KeepsDisk(op)
    ensures var e := Apply(d, op);
            (op.Clock? && d.cycleswaiting == 1 && e.state.Idle? && e.diskpos == 0)
            || (e.state.Reset? && e.cycleswaiting == d.cycleswaiting - Clocks([op]))
    ensures d.cycleswaiting >= 1
  {
  }

  /** A drive whose head springs back is idle at the start of its disk after at most 535000 cycles. */
  lemma {:induction false} ReachesIdle(d: Drive, ops: seq<Op>) returns (i: nat)
    requires d.Inv() && d.state.Reset?
    requires forall op | op in ops :: KeepsDisk(op)
    requires Clocks(ops) >= d.cycleswaiting
    ensures i <= |ops| && Run(d, ops[..i]).state.Idle? && Run(d, ops[..i]).diskpos == 0
    ensures Clocks(ops[..i]) <= d.cycleswaiting <= 535000
    decreases |ops|
  {
    ResetStep(d, if ops == [] then Clock else ops[0]);
    var e := Apply(d, ops[0]);
    if e.state.Idle? {
      i := 1;
      assert ops[..1] == [ops[0]];
    } else {
      ApplyKeepsInv(d, ops[0]);
      var j := ReachesIdle(e, ops[1..]);
      i := j + 1;
      assert ops[..i][1..] == ops[1..][..j];
    }
  }

  // ---- differences ----

  function XorByte(a: Byte, b: Byte): Byte { ByteOf(Crc.Xor(BitsOf(a), BitsOf(b))) }

  lemma XorTwice(a: Byte, b: Byte)
    ensures XorByte(XorByte(a, b), b) == a
    ensures XorByte(a, a) == 0
    ensures XorByte(a, 0) == a
  {
    assert Crc.Xor(BitsOf(XorByte(a, b)), BitsOf(b)) == BitsOf(a);
    ByteOfUnique(a, BitsOf(a));
    assert BitsOf(0) == [false, false, false, false, false, false, false, false];
    assert Crc.Xor(BitsOf(a), BitsOf(a)) == BitsOf(0);
    ByteOfUnique(0, BitsOf(0));
    assert Crc.Xor(BitsOf(a), BitsOf(0)) == BitsOf(a);
  }

  lemma XorSwap(a: Byte, b: Byte)
    ensures XorByte(a, b) == XorByte(b, a)
  {
    assert Crc.Xor(BitsOf(a), BitsOf(b)) == Crc.Xor(BitsOf(b), BitsOf(a));
  }

  /** How many bytes hold `bits` bits. */
  function Bytes(bits: nat): nat { (bits + 7) / 8 }

  /** A size in bits as three bytes, high byte first. */
  function SizeBytes(bits: nat): (r: seq<Byte>)
    ensures |r| == 3
  {
    [(bits / 0x10000 % 256) as Byte, (bits / 0x100 % 256) as Byte, (bits % 256) as Byte]
  }

  function SizeOf(data: seq<Byte>): nat
    requires |data| >= 3
  {
    (data[0] as int) * 0x10000 + (data[1] as int) * 0x100 + (data[2] as int)
  }

  lemma SizeRoundTrip(bits: nat, rest: seq<Byte>)
    requires bits < 0x100_0000
    ensures SizeOf(SizeBytes(bits) + rest) == bits
  {
  }

  function XorAll(a: seq<Byte>, b: seq<Byte>, n: nat): (r: seq<Byte>)
    requires n <= |a| && n <= |b|
    ensures |r| == n
    ensures forall i: nat | i < n :: r[i] == XorByte(a[i], b[i])
  {
    seq(n, i requires 0 <= i < n => XorByte(a[i], b[i]))
  }

  /** What was written to a disk since it was put in. */
  function Diff(d: Drive): seq<Byte>
    requires 0 <= d.disksize <= 8 * |d.disk| && |d.original| == |d.disk|
  {
    SizeBytes(d.disksize) + XorAll(d.disk, d.original, Bytes(d.disksize))
  }

  /** A disk with a difference applied. */
  function Patch(disk: seq<Byte>, disksize: nat, data: seq<Byte>): (r: seq<Byte>)
    requires Bytes(disksize) <= |disk| && 3 + Bytes(disksize) <= |data|
    ensures |r| == |disk|
  {
    var n := Bytes(disksize);
    XorAll(disk, data[3..], n) + disk[n..]
  }

  /** Applying the difference to the disk as it was put in gives back the disk. */
  lemma PatchUndoesDiff(d: Drive)
    requires 0 <= d.disksize <= 8 * |d.disk| && |d.original| == |d.disk|
    requires d.disksize < 0x100_0000 && Bytes(d.disksize) == |d.disk|
    ensures |Diff(d)| == 3 + Bytes(d.disksize) && SizeOf(Diff(d)) == d.disksize
    ensures Patch(d.original, d.disksize, Diff(d)) == d.disk
  {
    var n := Bytes(d.disksize);
    SizeRoundTrip(d.disksize, XorAll(d.disk, d.original, n));
    var data := Diff(d);
    assert data[3..] == XorAll(d.disk, d.original, n);
    forall i: nat | i < n ensures Patch(d.original, d.disksize, data)[i] == d.disk[i] {
      XorSwap(d.original[i], data[3..][i]);
      XorTwice(d.disk[i], d.original[i]);
    }
  }
}
