/** Histories from a fresh adapter in which what was written to a disk gets lost. */
module FdsLoss {
  import opened Bits
  import opened Wrappers
  import opened FdsDrive
  import opened FdsMedia
  import FdsFormat

  /** The bit that ends the first gap of every formatted side. */
  const FIRST_MARK: nat := 28295

  lemma FirstMark(input: seq<Byte>)
    requires FdsFormat.Format(input).Success?
    ensures TapeBit(FdsFormat.Format(input).value, FIRST_MARK)
  {
    hide FdsFormat.ParseSide, FdsFormat.SideOf;
    FirstGap(input);
    MarkByte(FdsFormat.ParseSide(input).value);
    assert BitsOf(0x80) == [false, false, false, false, false, false, false, true];
  }

  lemma FirstGap(input: seq<Byte>)
    requires FdsFormat.ParseSide(input).Success?
    ensures var blocks := FdsFormat.ParseSide(input).value; blocks != [] && blocks[0].pregap == 3537
  {
  }

  lemma MarkByte(blocks: seq<FdsFormat.Block>)
    requires blocks != [] && blocks[0].pregap == 3537
    ensures FdsFormat.SideOf(blocks)[3536] == FdsFormat.MARKER
  {
    hide FdsFormat.Encode, FdsFormat.Trailer;
    FdsFormat.EncodeParts(blocks[0]);
    var e := FdsFormat.Encode(blocks[0]);
    assert e[3536] == e[3536..][0] == FdsFormat.MARKER;
    assert FdsFormat.EncodeAll(blocks)[3536] == e[3536];
  }

  // ---- clocks ----

  lemma PassJoined(d: Drive, m: nat, n: nat)
    requires d.Inv()
    ensures Run(d, Pass(m + n)) == Run(Run(d, Pass(m)), Pass(n))
  {
    assert Pass(m + n) == Pass(m) + Pass(n);
    RunJoined(d, Pass(m), Pass(n));
  }

  lemma OneOp(d: Drive, op: Op)
    requires d.Inv()
    ensures Run(d, [op]) == Apply(d, op)
  {
    ApplyKeepsInv(d, op);
    assert [op][1..] == [];
  }

  lemma {:induction false} PassWaits(d: Drive, n: nat)
    requires d.Inv() && n < d.cycleswaiting
    ensures Run(d, Pass(n)) == d.(cycleswaiting := d.cycleswaiting - n)
    decreases n
  {
    if n > 0 {
      assert Pass(n)[1..] == Pass(n - 1);
      ApplyKeepsInv(d, Clock);
      assert Apply(d, Clock) == d.(cycleswaiting := d.cycleswaiting - 1);
      PassWaits(Apply(d, Clock), n - 1);
    }
  }

  /** A whole waiting time, and the action at its end. */
  lemma PassAll(d: Drive)
    requires d.Inv() && d.cycleswaiting >= 1
    ensures d.(cycleswaiting := 1).Inv()
    ensures Run(d, Pass(d.cycleswaiting)) == d.(cycleswaiting := 1).Clocked()
  {
    hide Drive.Clocked;
    var n := d.cycleswaiting;
    PassJoined(d, n - 1, 1);
    PassWaits(d, n - 1);
    assert Pass(1) == [Clock];
    OneOp(Run(d, Pass(n - 1)), Clock);
  }

  // ---- a disk in write mode with nothing to write ----

  /** The motor runs in write mode, but bit 6 of $4025 was never raised. */
  predicate Erasing(d: Drive) {
    && d.state.Running? && d.cycleswaiting == 56 && !d.transferreset && !d.writeprotect
    && !BitAt(d.port.cached4025, 2) && !d.port.lookingforendofgap
  }

  /** Bits from `from` to `to` are zero. */
  ghost predicate ErasedTo(disk: seq<Byte>, to: nat) {
    to <= 8 * |disk| && forall q: nat | q < to :: !TapeBit(disk, q)
  }

  lemma EraseBit(d: Drive)
    requires d.Inv() && Erasing(d) && d.diskpos < d.disksize && ErasedTo(d.disk, d.diskpos)
    ensures var e := d.(cycleswaiting := 1).Clocked();
      && e.Inv() && e.diskpos == d.diskpos + 1 && e.disksize == d.disksize && |e.disk| == |d.disk|
      && e.original == d.original && ErasedTo(e.disk, e.diskpos)
      && (e.diskpos < e.disksize ==> Erasing(e))
  {
    ClockKeepsInv(d.(cycleswaiting := 1));
    var e := d.(cycleswaiting := 1).Clocked();
    assert e.disk == WithTapeBit(d.disk, d.diskpos, false);
    forall q: nat | q < e.diskpos ensures !TapeBit(e.disk, q) {
      if q < d.diskpos { assert !TapeBit(d.disk, q); }
    }
  }

  /** It lays down zeroes. */
  lemma {:induction false} Erases(d: Drive, n: nat)
    requires d.Inv() && Erasing(d) && d.diskpos + n < d.disksize && ErasedTo(d.disk, d.diskpos)
    ensures var e := Run(d, Pass(56 * n));
      && Erasing(e) && e.disk != [] && e.diskpos == d.diskpos + n && e.disksize == d.disksize && |e.disk| == |d.disk|
      && e.original == d.original && ErasedTo(e.disk, e.diskpos)
    decreases n
  {
    hide Drive.Clocked, ErasedTo;
    if n > 0 {
      PassAll(d);
      EraseBit(d);
      PassJoined(d, 56, 56 * (n - 1));
      assert 56 + 56 * (n - 1) == 56 * n;
      Erases(d.(cycleswaiting := 1).Clocked(), n - 1);
    }
  }

  /** Wait until the side is in, start the motor, and let the head pass over the first mark. */
  function Careless(): seq<Op> {
    (Pass(535000) + [Write4025(0x01)]) + (Pass(1070000) + Pass(56 * (FIRST_MARK + 1)))
  }

  lemma One()
    ensures BitAt(0x01, 0) && !BitAt(0x01, 1) && !BitAt(0x01, 2) && !BitAt(0x01, 6)
  {
    assert BitsOf(0x01) == [true, false, false, false, false, false, false, false];
  }

  /** A side just put in, in a drive with whose registers nothing was done yet. */
  predicate JustIn(d: Drive) {
    && d.state.Inserting? && d.cycleswaiting == 535000 && d.diskpos == 0 && d.disk != [] && !d.writeprotect
    && d.port == POWER_ON_PORT
  }

  lemma MotorStarts(d: Drive)
    requires d.Inv() && JustIn(d)
    ensures var e := Run(d, (Pass(535000) + [Write4025(0x01)]) + Pass(1070000));
      && Erasing(e) && e.diskpos == 0 && e.disk == d.disk && e.disksize == d.disksize && e.original == d.original
  {
    One();
    PassAll(d);
    var idle := Run(d, Pass(535000));
    RunJoined(d, Pass(535000), [Write4025(0x01)]);
    OneOp(idle, Write4025(0x01));
    var turning := Apply(idle, Write4025(0x01));
    assert turning.state.Spinup? && turning.cycleswaiting == 1070000 && turning.disk == d.disk;
    RunJoined(d, Pass(535000) + [Write4025(0x01)], Pass(1070000));
    PassAll(turning);
  }

  lemma MarkLost(d: Drive)
    requires d.Inv() && JustIn(d) && d.disksize == SIDE_BITS && |d.disk| == FdsFormat.SIDE_BYTES
    ensures var e := Run(d, Careless());
      |e.disk| == |d.disk| && !TapeBit(e.disk, FIRST_MARK)
  {
    hide Drive.Clocked, Drive.Inv, Run, JustIn;
    MotorStarts(d);
    var start, passing := (Pass(535000) + [Write4025(0x01)]) + Pass(1070000), Pass(56 * (FIRST_MARK + 1));
    assert Careless() == start + passing;
    RunJoined(d, start, passing);
    Erases(Run(d, start), FIRST_MARK + 1);
  }

  // ---- the adapter ----

  function Accesses(ops: seq<Op>): (r: seq<Action>)
    ensures |r| == |ops| && forall k :: 0 <= k < |ops| ==> r[k] == Access(ops[k])
  {
    seq(|ops|, k requires 0 <= k < |ops| => Access(ops[k]))
  }

  lemma {:induction false} HistoryOfAccesses(a: Adapter, ops: seq<Op>)
    requires a.Inv() && forall op | op in ops :: KeepsDisk(op)
    ensures a.drive.Inv() && History(a, Accesses(ops)) == a.(drive := Run(a.drive, ops))
    decreases |ops|
  {
    hide Apply, Drive.Inv, Loadable, Sound;
    if ops != [] {
      assert ops[0] in ops;
      var b := Perform(a, Access(ops[0]));
      assert Accesses(ops)[1..] == Accesses(ops[1..]);
      HistoryOfAccesses(b, ops[1..]);
    }
  }

  /** A side goes into a fresh adapter, and is erased up to its first mark. */
  ghost function Erased(image: seq<Byte>, s: nat): (b: Adapter)
    requires (image == [] || |image| >= 16) && s < NumSides(image) && Loadable(image, s)
    ensures b.Inv() && b.image == image
  {
    FreshInv(image);
    History(Perform(Fresh(image), InsertSide(s)), Accesses(Careless()))
  }

  lemma ErasedWritten(image: seq<Byte>, s: nat)
    requires (image == [] || |image| >= 16) && s < NumSides(image) && Loadable(image, s)
    ensures var b := Erased(image, s);
      b.currentside == s && b.diskdiffs[s] == [] && b.Contents(s) != Fixed(image, s)
  {
    hide Careless, Drive.Inv, FdsFormat.Format;
    FreshInv(image);
    var a := Perform(Fresh(image), InsertSide(s));
    CarelessKeepsDisk();
    HistoryOfAccesses(a, Careless());
    MarkLost(a.drive);
    FirstMark(SideImage(image, s));
  }

  lemma CarelessKeepsDisk()
    ensures forall op | op in Careless() :: KeepsDisk(op)
  {
  }

  /** The next side goes in without an eject: what the drive did to the first one is lost. */
  lemma LostBySwap(image: seq<Byte>, s: nat, t: nat)
    requires (image == [] || |image| >= 16) && s < NumSides(image) && Loadable(image, s)
    requires t < NumSides(image) && Loadable(image, t)
    ensures var b := Erased(image, s);
      Perform(b, InsertSide(t)).Contents(s) == Fixed(image, s) != b.Contents(s)
  {
    hide Erased, Drive.Inv, FdsFormat.Format;
    ErasedWritten(image, s);
  }

  /** A save file of that adapter, loaded into a fresh one with the side in its drive, restores the side; loaded
      again, it undoes that. */
  lemma LostByLoad(image: seq<Byte>, s: nat)
    requires (image == [] || |image| >= 16) && s < NumSides(image) && Loadable(image, s)
    ensures Fresh(image).Inv()
    ensures var a, b := Erased(image, s), Perform(Fresh(image), InsertSide(s));
      && Restored(a, b).Contents(s) == a.Contents(s)
      && Restored(a, Restored(a, b)).Contents(s) == Fixed(image, s) != a.Contents(s)
  {
    hide Erased, Drive.Inv, FdsFormat.Format, Restored;
    FreshInv(image);
    ErasedWritten(image, s);
    var a, b := Erased(image, s), Perform(Fresh(image), InsertSide(s));
    SaveRestoresMounted(a, b);
    LoadedTwice(a, b);
  }

  // ---- an image ----

  /** A side without files, with its number in its header. */
  function EmptySide(number: Byte): (side: seq<Byte>)
    ensures |side| == 65500
  {
    (FdsFormat.SIGNATURE + (FdsFormat.Zeros(6) + [number] + FdsFormat.Zeros(34)))
    + ([0x02, 0x00] + FdsFormat.Zeros(65442))
  }

  /** Two of them behind a header. */
  function EmptyImage(): seq<Byte> {
    ([0x46, 0x44, 0x53, 0x1a, 0x02] + FdsFormat.Zeros(11)) + (EmptySide(0) + EmptySide(1))
  }

  lemma EmptySideFormats(number: Byte)
    ensures FdsFormat.Format(EmptySide(number)).Success? && EmptySide(number)[21] == number
  {
    hide FdsFormat.SideOf;
    var side := EmptySide(number);
    var head := FdsFormat.SIGNATURE + (FdsFormat.Zeros(6) + [number] + FdsFormat.Zeros(34));
    assert |head| == 56 && side[..56] == head && side[56] == 0x02 && side[57] == 0x00;
    assert side[..15] == head[..15] == FdsFormat.SIGNATURE;
    assert side[21] == head[21] == number;
  }

  lemma EmptySides()
    ensures OfSides(EmptyImage(), [EmptySide(0), EmptySide(1)]) && EmptyImage()[4] == 0x02
  {
    hide EmptySide;
    var head := [0x46, 0x44, 0x53, 0x1a, 0x02] + FdsFormat.Zeros(11);
    var sides := [EmptySide(0), EmptySide(1)];
    assert sides[1..] == [EmptySide(1)] && sides[1..][1..] == [];
    assert Joined(sides) == EmptySide(0) + EmptySide(1);
    assert EmptyImage()[16..] == EmptySide(0) + EmptySide(1);
  }

  lemma EmptyLoadable(s: nat)
    requires s < 2
    ensures Loadable(EmptyImage(), s)
  {
    hide EmptyImage, EmptySide, FdsFormat.Format, OfSides;
    EmptySides();
    SideOfImage(EmptyImage(), [EmptySide(0), EmptySide(1)], s);
    EmptySideFormats(0);
    EmptySideFormats(1);
  }

  /** So there are images with sides to lose: with this one, of two different sides, the losses above happen. */
  lemma LossesHappen()
    ensures var image := EmptyImage();
      && OfSides(image, [EmptySide(0), EmptySide(1)]) && EmptySide(0) != EmptySide(1)
      && |image| >= 16 && NumSides(image) == 2 && Loadable(image, 0) && Loadable(image, 1)
      && Perform(Erased(image, 0), InsertSide(1)).Contents(0) != Erased(image, 0).Contents(0)
  {
    hide EmptyImage, EmptySide, FdsFormat.Format, Erased, Loadable, OfSides;
    EmptySides();
    EmptySideFormats(0);
    EmptySideFormats(1);
    EmptyLoadable(0);
    EmptyLoadable(1);
    assert |EmptyImage()| >= 16 by { SideOfImage(EmptyImage(), [EmptySide(0), EmptySide(1)], 0); }
    LostBySwap(EmptyImage(), 0, 1);
  }
}
