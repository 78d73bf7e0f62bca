/** The drive as an object: the fields of the RAM adapter's drive and the methods that update them,
    each proved against the drive as a value. */
module FdsUnit {
  import opened Bits
  import opened Wrappers
  import opened FdsDrive
  import Crc
  import FdsFormat

  datatype DriveError = TooSmall | BadSide(reason: FdsFormat.FormatError) | WrongSize

  lemma ZeroBits()
    ensures forall k: nat | k < 8 :: !BitAt(0, k)
  {
    assert BitsOf(0) == [false, false, false, false, false, false, false, false];
  }

  lemma OneBits()
    ensures forall k: nat | k < 8 :: BitAt(0xFF, k)
  {
    assert BitsOf(0xFF) == [true, true, true, true, true, true, true, true];
  }

  lemma HeadOverDisk(d: Drive)
    requires d.Inv()
    ensures d.port.Inv() && (d.state.Running? ==> 0 <= d.diskpos < 8 * |d.disk|)
  {
  }

  class DiskDrive {
    var originaldisk: seq<Byte>
    var disk: array<Byte>
    var diskpos: int
    var disksize: int
    var writeprotect: bool
    var cycleswaiting: int
    var state: Motor
    var cached4025: Byte
    var irq: bool
    var transferreset: bool
    var crc: Crc.Word
    var writecomputecrc: bool
    var readreg: Byte
    var writereg: Byte
    var readregpos: nat
    var writeregpos: nat
    var readreglatch: Byte
    var writereglatch: Byte
    var bytetransferflag: bool
    var lookingforendofgap: bool

    ghost function PortView(): Port
      reads this`cached4025, this`irq, this`crc, this`writecomputecrc, this`readreg, this`writereg, this`readregpos,
            this`writeregpos, this`readreglatch, this`writereglatch, this`bytetransferflag, this`lookingforendofgap
    {
      Port(cached4025, irq, crc, writecomputecrc, readreg, writereg, readregpos, writeregpos, readreglatch,
           writereglatch, bytetransferflag, lookingforendofgap)
    }

    ghost function Surface(): seq<Byte>
      reads this`disk, disk
    {
      disk[..]
    }

    ghost function View(): Drive
      reads this, disk
    {
      Drive(originaldisk, Surface(), diskpos, disksize, writeprotect, cycleswaiting, state, transferreset, PortView())
    }

    ghost predicate Valid()
      reads this, disk
    {
      View().Inv()
    }

    lemma SurfaceLength()
      ensures |Surface()| == disk.Length
    {
    }

    lemma ViewDisk()
      ensures View().disk == disk[..] && View().disksize == disksize && |disk[..]| == disk.Length
    {
    }

    lemma SurfaceIs(side: seq<Byte>)
      requires disk[..] == side
      ensures Surface() == side
    {
    }

    constructor ()
      ensures Valid() && View() == POWER_ON && fresh(disk)
    {
      originaldisk, disk, diskpos, disksize, writeprotect := [], new Byte[0], 0, 0, true;
      cycleswaiting, state, transferreset := 0, Idle, false;
      cached4025, irq, crc, writecomputecrc := 0, false, Crc.ZERO, false;
      readreg, writereg, readregpos, writeregpos := 0, 0, 0, 0;
      readreglatch, writereglatch, bytetransferflag, lookingforendofgap := 0, 0, false, false;
    }

    method SetCycles()
      modifies this`cycleswaiting
      ensures cycleswaiting == Wait(state)
    {
      cycleswaiting := match state
        case Running => 56
        case Inserting => 535000
        case Spinup => 1070000
        case Idle => 100000
        case Reset => 535000;
    }

    method Eject()
      requires Valid()
      modifies this
      ensures fresh(disk) && View() == old(View()).Ejected()
      ensures Valid()
    {
      disk := new Byte[0];
      state := Idle;
      SetCycles();
    }

    method Insert(side: seq<Byte>, bitlength: int, protect: bool) returns (r: Result<(), DriveError>)
      requires Valid()
      modifies this
      ensures if 0 <= bitlength <= 8 * |side|
              then r == Success(()) && fresh(disk) && View() == old(View()).Inserted(side, bitlength, protect)
              else r == Failure(TooSmall) && disk == old(disk) && View() == old(View())
      ensures Valid()
    {
      hide Drive.Inv, PortView, Surface;
      ApplyKeepsInv(View(), FdsDrive.Insert(side, bitlength, protect));
      if bitlength < 0 || |side| * 8 < bitlength {
        return Failure(TooSmall);
      }
      PutIn(side, bitlength, protect);
      SurfaceIs(side);
      r := Success(());
    }

    /** The part of Insert after its check. */
    method PutIn(side: seq<Byte>, bitlength: int, protect: bool)
      modifies this`disk, this`disksize, this`diskpos, this`writeprotect, this`state, this`cycleswaiting,
               this`originaldisk
      ensures fresh(disk) && disk[..] == originaldisk == side
      ensures disksize == bitlength && diskpos == 0 && writeprotect == protect
      ensures state == Inserting && cycleswaiting == Wait(Inserting)
    {
      disk := Loaded(side);
      disksize := bitlength;
      diskpos := 0;
      writeprotect := protect;
      state := Inserting;
      SetCycles();
      originaldisk := disk[..];
    }

    static method Loaded(side: seq<Byte>) returns (a: array<Byte>)
      ensures fresh(a) && a[..] == side
    {
      a := new Byte[|side|](i requires 0 <= i < |side| => side[i]);
    }

    method InsertBrokenImage(side: seq<Byte>, protect: bool) returns (r: Result<(), DriveError>)
      requires Valid()
      modifies this
      ensures Valid()
      ensures match FdsFormat.Format(side)
              case Success(fixed) =>
                r == Success(()) && fresh(disk)
                && View() == old(View()).Inserted(fixed, 8 * FdsFormat.SIDE_BYTES, protect)
              case Failure(e) => r == Failure(BadSide(e)) && disk == old(disk) && View() == old(View())
    {
      var fixed := FdsFormat.FixFdsSide(side);
      match fixed {
        case Failure(e) => r := Failure(BadSide(e));
        case Success(bytes) => r := Insert(bytes, 8 * 65500, protect);
      }
    }

    /** The data must have a size, and if that is the size of the disk, as many bytes as it takes. */
    method ApplyDiff(data: seq<Byte>) returns (r: Result<(), DriveError>)
      requires Valid() && |data| >= 3
      requires SizeOf(data) == disksize ==> Bytes(disksize) <= disk.Length && 3 + Bytes(disksize) <= |data|
      modifies disk
      ensures if SizeOf(data) == disksize
              then r == Success(()) && View() == old(View()).(disk := Patch(old(disk[..]), disksize, data))
              else r == Failure(WrongSize) && View() == old(View())
    {
      var bitsize: int := SizeOf(data);
      if bitsize != disksize {
        return Failure(WrongSize);
      }
      var pos: nat := 0;
      while bitsize > 0
        invariant bitsize == disksize - 8 * pos && pos <= Bytes(disksize)
        invariant forall i: nat | i < disk.Length ::
                    disk[i] == if i < pos then XorByte(old(disk[i]), data[i + 3]) else old(disk[i])
      {
        disk[pos] := XorByte(disk[pos], data[pos + 3]);
        pos := pos + 1;
        bitsize := bitsize - 8;
      }
      assert disk[..] == Patch(old(disk[..]), disksize, data);
      r := Success(());
    }

    method MakeDiff() returns (r: seq<Byte>)
      requires Valid() && disk.Length > 0
      ensures r == Diff(View())
    {
      r := [(disksize / 0x10000 % 256) as Byte, (disksize / 0x100 % 256) as Byte, (disksize % 256) as Byte];
      var bitsize: int := disksize;
      var pos: nat := 0;
      while bitsize > 0
        invariant bitsize == disksize - 8 * pos && pos <= Bytes(disksize)
        invariant r == SizeBytes(disksize) + XorAll(disk[..], originaldisk, pos)
      {
        r := r + [XorByte(disk[pos], originaldisk[pos])];
        pos := pos + 1;
        bitsize := bitsize - 8;
      }
    }

    method Write4024(value: Byte)
      requires Valid()
      modifies this`bytetransferflag, this`writereglatch
      ensures View() == Apply(old(View()), FdsDrive.Write4024(value))
      ensures Valid()
    {
      bytetransferflag := false;
      writereglatch := value;
    }

    method Write4025(value: Byte)
      requires Valid()
      modifies this`state, this`cycleswaiting, this`transferreset, this`lookingforendofgap, this`writeregpos,
               this`writereg, this`bytetransferflag, this`crc, this`writecomputecrc, this`irq, this`cached4025
      ensures View() == Apply(old(View()), FdsDrive.Write4025(value))
      ensures Valid()
    {
      hide Port.Wrote4025, BitAt, Drive.Inv, PortView, Surface;
      SurfaceLength();
      ApplyKeepsInv(View(), FdsDrive.Write4025(value));
      if BitAt(value, 0) {
        StartMotor();
      }
      transferreset := BitAt(value, 1);
      Control(value);
    }

    /** The part of Write4025 that works on the motor. */
    method StartMotor()
      modifies this`state, this`cycleswaiting
      ensures View() == if old(View()).state.Idle? && old(View()).disk != [] then old(View()).Entering(Spinup)
                        else old(View())
    {
      hide PortView, Surface;
      SurfaceLength();
      if state == Idle && disk.Length > 0 {
        state := Spinup;
        SetCycles();
      }
    }

    /** The part of Write4025 that works on the serial side. */
    method Control(value: Byte)
      modifies this`lookingforendofgap, this`writeregpos, this`writereg, this`bytetransferflag, this`crc,
               this`writecomputecrc, this`irq, this`cached4025
      ensures PortView() == old(PortView()).Wrote4025(value)
    {
      hide BitAt;
      if !BitAt(cached4025, 6) && BitAt(value, 6) {
        lookingforendofgap := true;
        if !BitAt(value, 2) {
          writeregpos := 0;
          writereg := writereglatch;
          bytetransferflag := true;
          crc := Crc.ZERO;
          writecomputecrc := true;
        }
      }
      irq := false;
      cached4025 := value;
    }

    method Read4030() returns (ret: Byte)
      requires Valid()
      modifies this`bytetransferflag, this`irq
      ensures View() == Apply(old(View()), FdsDrive.Read4030)
      ensures Valid()
      ensures BitAt(ret, 1) == old(bytetransferflag) && BitAt(ret, 4) == (crc != Crc.ZERO)
      ensures BitAt(ret, 6) == (diskpos == disksize) && BitAt(ret, 7) == (disk.Length > 0 && !writeprotect)
      ensures !BitAt(ret, 0) && !BitAt(ret, 2) && !BitAt(ret, 3) && !BitAt(ret, 5)
    {
      ZeroBits();
      hide BitsOf, BitAt, WithBit;
      ret := WithBit(0, 1, bytetransferflag);
      ret := WithBit(ret, 4, crc != Crc.ZERO);
      ret := WithBit(ret, 6, diskpos == disksize);
      ret := WithBit(ret, 7, disk.Length > 0 && !writeprotect);
      bytetransferflag := false;
      irq := false;
    }

    method Read4031() returns (ret: Byte)
      requires Valid()
      modifies this`bytetransferflag, this`irq
      ensures View() == Apply(old(View()), FdsDrive.Read4031)
      ensures Valid()
      ensures ret == readreglatch
    {
      bytetransferflag := false;
      irq := false;
      ret := readreglatch;
    }

    /** Bit 0 is clear with a disk in the drive, bit 1 with a drive that is ready, bit 2 with a disk to write to. */
    method Read4032() returns (ret: Byte)
      requires Valid()
      ensures View() == Apply(View(), FdsDrive.Read4032)
      ensures BitAt(ret, 0) == (disk.Length == 0 || state == Inserting)
      ensures BitAt(ret, 1) == (transferreset || (state != Running && state != Idle))
      ensures BitAt(ret, 2) == (disk.Length == 0 || state == Inserting || writeprotect)
      ensures forall k: nat | 3 <= k < 8 :: BitAt(ret, k)
    {
      OneBits();
      hide BitsOf, BitAt, WithBit;
      ret := 0xFF;
      if disk.Length > 0 && state != Inserting {
        ret := WithBit(ret, 0, false);
      }
      if !transferreset && (state == Running || state == Idle) {
        ret := WithBit(ret, 1, false);
      }
      if disk.Length > 0 && state != Inserting && !writeprotect {
        ret := WithBit(ret, 2, false);
      }
    }

    method Clock()
      requires Valid()
      modifies this`cycleswaiting, this`state, this`diskpos, this`lookingforendofgap, this`readregpos, this`crc,
               this`readreg, this`bytetransferflag, this`irq, this`readreglatch, this`cached4025,
               this`writeregpos, this`writereg, this`writereglatch, this`writecomputecrc, disk
      ensures View() == Apply(old(View()), FdsDrive.Clock)
      ensures Valid()
    {
      hide Drive.Moved, Port.Inv, Drive.Inv, PortView, Surface;
      SurfaceLength();
      ApplyKeepsInv(View(), FdsDrive.Clock);
      HeadOverDisk(View());
      cycleswaiting := cycleswaiting - 1;
      if cycleswaiting != 0 {
        return;
      }
      match state {
        case Running =>
          RunHead();
        case Reset =>
          state := Idle;
          diskpos := 0;
          SetCycles();
        case Inserting =>
          state := Idle;
          diskpos := 0;
          SetCycles();
        case Spinup =>
          state := Running;
          SetCycles();
        case Idle =>
          SetCycles();
      }
    }

    /** The part of Clock for a running drive. */
    method RunHead()
      requires PortView().Inv() && 0 <= diskpos < 8 * disk.Length && state == Running
      modifies this`cycleswaiting, this`state, this`diskpos, this`lookingforendofgap, this`readregpos, this`crc,
               this`readreg, this`bytetransferflag, this`irq, this`readreglatch, this`cached4025,
               this`writeregpos, this`writereg, this`writereglatch, this`writecomputecrc, disk
      ensures var moved := old(View()).Moved();
              View() == moved.Entering(if moved.diskpos >= moved.disksize then Reset else Running)
    {
      hide Drive.Moved, PortView, Surface;
      Move();
      if diskpos >= disksize {
        state := Reset;
      }
      SetCycles();
    }

    /** The part of Clock that moves the head. */
    method Move()
      requires PortView().Inv() && 0 <= diskpos < 8 * disk.Length
      modifies this`diskpos, this`lookingforendofgap, this`readregpos, this`crc,
               this`readreg, this`bytetransferflag, this`irq, this`readreglatch, this`cached4025,
               this`writeregpos, this`writereg, this`writereglatch, this`writecomputecrc, disk
      ensures View() == old(View()).Moved()
    {
      hide Port.Take, Port.Given;
      if transferreset {
        MoveDummy();
      } else if BitAt(cached4025, 2) {
        Read();
      } else {
        Write();
      }
    }

    method Read()
      requires PortView().Inv() && 0 <= diskpos < 8 * disk.Length
      modifies this`diskpos, this`lookingforendofgap, this`readregpos, this`crc, this`readreg, this`bytetransferflag,
               this`irq, this`readreglatch, this`cached4025
      ensures diskpos == old(diskpos) + 1
      ensures PortView() == old(PortView()).Take(TapeBit(disk[..], old(diskpos)))
    {
      var bit := BitAt(disk[diskpos / 8], diskpos % 8);
      assert bit == TapeBit(disk[..], diskpos);
      diskpos := diskpos + 1;
      ShiftIn(bit);
    }

    /** The part of Read that works on the read register. */
    method ShiftIn(bit: bool)
      requires PortView().Inv()
      modifies this`lookingforendofgap, this`readregpos, this`crc, this`readreg, this`bytetransferflag,
               this`irq, this`readreglatch, this`cached4025
      ensures PortView() == old(PortView()).Take(bit)
    {
      hide BitsOf, Crc.Ccitt, WithBit;
      if lookingforendofgap && !BitAt(cached4025, 4) {
        if bit {
          lookingforendofgap := false;
          readregpos := 0;
          crc := Crc.ZERO;
          crc := Crc.Ccitt(crc, true);
        }
      } else {
        crc := Crc.Ccitt(crc, bit);
        readreg := WithBit(readreg, readregpos, bit);
        readregpos := readregpos + 1;
        if readregpos == 8 {
          readregpos := 0;
          bytetransferflag := true;
          if BitAt(cached4025, 7) {
            irq := true;
          }
          readreglatch := readreg;
          if BitAt(cached4025, 4) {
            cached4025 := WithBit(cached4025, 4, false);
          }
        }
      }
    }

    method Write()
      requires PortView().Inv() && 0 <= diskpos < 8 * disk.Length
      modifies this`diskpos, this`crc, this`writeregpos, this`writereg, this`bytetransferflag, this`irq,
               this`cached4025, this`writereglatch, this`writecomputecrc, disk
      ensures diskpos == old(diskpos) + 1
      ensures if writeprotect then disk[..] == old(disk[..]) && PortView() == old(PortView())
              else disk[..] == WithTapeBit(old(disk[..]), old(diskpos), old(PortView()).Out())
                   && PortView() == old(PortView()).Given()
    {
      hide BitsOf, Crc.Ccitt, WithBit, Port.Reloaded;
      if writeprotect {
        diskpos := diskpos + 1;
        return;
      }
      var bittowrite := false;
      if lookingforendofgap {
        bittowrite := ShiftOut();
      }
      disk[diskpos / 8] := WithBit(disk[diskpos / 8], diskpos % 8, bittowrite);
      diskpos := diskpos + 1;
    }

    /** The part of Write that works on the write register. */
    method ShiftOut() returns (bittowrite: bool)
      requires PortView().Inv() && lookingforendofgap
      modifies this`crc, this`writeregpos, this`writereg, this`bytetransferflag, this`irq, this`cached4025,
               this`writereglatch, this`writecomputecrc
      ensures bittowrite == old(PortView()).Out()
      ensures PortView() == old(PortView()).Given()
    {
      hide BitsOf, Crc.Ccitt, WithBit, Crc.Low, Crc.Shift8;
      bittowrite := BitAt(writereg, writeregpos);
      if writecomputecrc {
        crc := Crc.Ccitt(crc, bittowrite);
      }
      writeregpos := writeregpos + 1;
      if writeregpos == 8 {
        writeregpos := 0;
        writereg := writereglatch;
        bytetransferflag := true;
        if BitAt(cached4025, 7) {
          irq := true;
        }
        if BitAt(cached4025, 4) {
          if crc == Crc.ZERO {
            cached4025 := WithBit(cached4025, 4, false);
            writereglatch := 0;
          }
          writereg := Crc.Low(crc);
          crc := Crc.Shift8(crc);
          writecomputecrc := false;
        }
      }
    }

    method MoveDummy()
      modifies this`diskpos
      ensures diskpos == old(diskpos) + DUMMY_STEP
    {
      diskpos := diskpos + 5000;
    }
  }
}
