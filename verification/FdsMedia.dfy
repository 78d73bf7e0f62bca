/** The disk system's media: sides going in and out of the drive, what was written to each kept as a
    difference, and the save file these differences are printed to. */
module FdsMedia {
  import opened Bits
  import opened Wrappers
  import opened FdsDrive
  import Crc
  import FdsFormat

  const SIDE_BITS: nat := 8 * FdsFormat.SIDE_BYTES

  /** The adapter as a value: the image as loaded, the drive, the side in it (-1: none), and the
      difference recorded for each side. */
  datatype Adapter = Adapter(image: seq<Byte>, drive: Drive, currentside: int, diskdiffs: seq<seq<Byte>>) {

    predicate Loaded() { 0 <= currentside < NumSides(image) }

    /** What holds of an adapter at all times, whatever save files were loaded. */
    ghost predicate Bounds() {
      && (image == [] || |image| >= 16)
      && |diskdiffs| == NumSides(image)
      && drive.Inv()
      && -1 <= currentside < NumSides(image)
      && (Loaded() ==> |drive.disk| == FdsFormat.SIDE_BYTES && drive.disksize == SIDE_BITS)
    }

    /** And given differences that adapters made themselves. */
    ghost predicate Inv() {
      && Bounds()
      && (currentside == -1 ==> drive.disk == [])
      && (Loaded() ==> Loadable(image, currentside) && drive.original == Fixed(image, currentside))
      && (forall s: nat | s < |diskdiffs| :: Sound(diskdiffs[s]))
    }

    /** What is on a side: the disk in the drive, or the image with the recorded difference. */
    ghost function Contents(s: nat): seq<Byte>
      requires Inv() && s < NumSides(image) && Loadable(image, s)
    {
      if s == currentside then drive.disk else Recorded(image, s, diskdiffs[s])
    }
  }

  function NumSides(image: seq<Byte>): nat { if |image| < 16 then 0 else image[4] as int }

  function SideImage(image: seq<Byte>, s: nat): seq<Byte>
    requires 16 + (s + 1) * 65500 <= |image|
  {
    image[16 + s * 65500..16 + s * 65500 + 65500]
  }

  /** The image has the side, and the formatter accepts it. */
  predicate Loadable(image: seq<Byte>, s: nat) {
    16 + (s + 1) * 65500 <= |image| && FdsFormat.Format(SideImage(image, s)).Success?
  }

  function Fixed(image: seq<Byte>, s: nat): (r: seq<Byte>)
    requires Loadable(image, s)
    ensures |r| == FdsFormat.SIDE_BYTES
  {
    FdsFormat.Format(SideImage(image, s)).value
  }

  /** A difference that the drive makes of a side, or none. */
  predicate Sound(diff: seq<Byte>) {
    diff == [] || (|diff| == 3 + FdsFormat.SIDE_BYTES && SizeOf(diff) == SIDE_BITS)
  }

  /** A difference that may be applied to a side: none, or as long as it says. */
  predicate Usable(diff: seq<Byte>) {
    diff == [] || (|diff| >= 3 && (SizeOf(diff) == SIDE_BITS ==> |diff| >= 3 + FdsFormat.SIDE_BYTES))
  }

  function Patched(side: seq<Byte>, diff: seq<Byte>): (r: seq<Byte>)
    requires |side| == FdsFormat.SIDE_BYTES && Sound(diff)
    ensures |r| == FdsFormat.SIDE_BYTES
  {
    if diff == [] then side else Patch(side, SIDE_BITS, diff)
  }

  function Recorded(image: seq<Byte>, s: nat, diff: seq<Byte>): (r: seq<Byte>)
    requires Loadable(image, s) && Sound(diff)
    ensures |r| == FdsFormat.SIDE_BYTES
  {
    Patched(Fixed(image, s), diff)
  }

  /** The adapter when the machine is switched on. */
  function Fresh(image: seq<Byte>): Adapter { Adapter(image, POWER_ON, -1, seq(NumSides(image), i => [])) }

  lemma FreshInv(image: seq<Byte>)
    requires image == [] || |image| >= 16
    ensures Fresh(image).Inv()
  {
  }

  // ---- sides in and out ----

  datatype MediaError = NoSide | ShortImage | BadSide(reason: FdsFormat.FormatError) | WrongDiff

  function Ejected(a: Adapter): Adapter
    requires a.Bounds()
  {
    if a.currentside >= 0 then
      a.(diskdiffs := a.diskdiffs[a.currentside := Diff(a.drive)], drive := a.drive.Ejected(), currentside := -1)
    else a
  }

  /** What is recorded for the side may be applied to it. */
  predicate CanInsert(a: Adapter, s: nat) {
    s < |a.diskdiffs| && Loadable(a.image, s) ==> Usable(a.diskdiffs[s])
  }

  /** Nothing is recorded for the side that was in the drive. */
  function SideInserted(a: Adapter, s: nat): Result<Adapter, MediaError>
    requires a.Bounds() && CanInsert(a, s)
  {
    if s >= NumSides(a.image) then Failure(NoSide)
    else if 16 + (s + 1) * 65500 > |a.image| then Failure(ShortImage)
    else
      match FdsFormat.Format(SideImage(a.image, s))
      case Failure(e) => Failure(BadSide(e))
      case Success(fixed) =>
        hide Patch, SizeOf, Loadable;
        var diff := a.diskdiffs[s];
        var inserted := a.drive.Inserted(fixed, SIDE_BITS, false);
        if diff == [] then Success(a.(drive := inserted, currentside := s))
        else if SizeOf(diff) != SIDE_BITS then Failure(WrongDiff)
        else Success(a.(drive := inserted.(disk := Patch(fixed, SIDE_BITS, diff)), currentside := s))
  }

  /** A side whose difference has another size is in the drive all the same, but the adapter takes it for the one that
      was there before. */
  function Refused(a: Adapter, s: nat): Adapter
    requires Loadable(a.image, s)
  {
    a.(drive := a.drive.Inserted(Fixed(a.image, s), SIDE_BITS, false))
  }

  lemma InvCanInsert(a: Adapter, s: nat)
    requires a.Inv()
    ensures CanInsert(a, s)
  {
    hide Loadable, SizeOf;
  }

  /** Saving first records what was written to the side in the drive. */
  function Recording(a: Adapter): (r: Adapter)
    requires a.Bounds()
    ensures r == a.(diskdiffs := r.diskdiffs)
  {
    if a.currentside >= 0 then a.(diskdiffs := a.diskdiffs[a.currentside := Diff(a.drive)]) else a
  }

  lemma DiffSound(a: Adapter)
    requires a.Inv() && a.Loaded()
    ensures Sound(Diff(a.drive))
    ensures Recorded(a.image, a.currentside, Diff(a.drive)) == a.drive.disk
  {
    PatchUndoesDiff(a.drive);
  }

  /** A difference begins with the size of a side in bits, highest byte first, and goes on with what was changed. */
  lemma DiffLayout(a: Adapter)
    requires a.Inv() && a.Loaded()
    ensures |Diff(a.drive)| == 65503 && Diff(a.drive)[..3] == [0x07, 0xFE, 0xE0]
    ensures forall i: nat | i < 65500 :: Diff(a.drive)[3 + i] == XorByte(a.drive.disk[i], a.drive.original[i])
  {
    hide XorByte, Loadable, Fixed, Sound, SizeBytes;
    SideSize();
    var d := a.drive;
    assert d.disksize == 524000 && Bytes(524000) == 65500;
    assert Diff(d) == SizeBytes(524000) + XorAll(d.disk, d.original, 65500);
  }

  lemma SideSize()
    ensures SizeBytes(524000) == [0x07, 0xFE, 0xE0]
  {
  }

  lemma RecordingKeepsInv(a: Adapter)
    requires a.Inv()
    ensures Recording(a).Inv()
  {
    if a.Loaded() { DiffSound(a); }
  }

  lemma EjectedKeepsInv(a: Adapter)
    requires a.Inv()
    ensures Ejected(a).Inv()
  {
    if a.Loaded() { DiffSound(a); }
  }

  lemma InsertedKeepsInv(a: Adapter, s: nat)
    requires a.Inv() && CanInsert(a, s) && SideInserted(a, s).Success?
    ensures SideInserted(a, s).value.Inv() && SideInserted(a, s).value.currentside == s
    ensures Loadable(a.image, s)
    ensures SideInserted(a, s).value.drive.disk == Recorded(a.image, s, a.diskdiffs[s])
    ensures SideInserted(a, s).value.drive.original == Fixed(a.image, s)
  {
    hide Patch, FdsFormat.Format, SizeOf;
  }

  /** Whatever is recorded, every action keeps the bounds. */
  lemma BoundsKept(a: Adapter, s: nat)
    requires a.Bounds()
    ensures Ejected(a).Bounds() && Recording(a).Bounds()
    ensures Loadable(a.image, s) ==> Refused(a, s).Bounds()
    ensures CanInsert(a, s) && SideInserted(a, s).Success? ==> SideInserted(a, s).value.Bounds()
    ensures CanInsert(a, s) && SideInserted(a, s) == Failure(WrongDiff) ==> Loadable(a.image, s)
  {
    hide Patch, FdsFormat.Format, SizeOf, Diff;
  }

  // ---- images of several sides ----

  function Joined(sides: seq<seq<Byte>>): seq<Byte> {
    if sides == [] then [] else sides[0] + Joined(sides[1..])
  }

  /** An image: sixteen bytes, and sides of 65500 bytes behind them. */
  ghost predicate OfSides(image: seq<Byte>, sides: seq<seq<Byte>>) {
    |image| >= 16 && image[16..] == Joined(sides) && forall side | side in sides :: |side| == 65500
  }

  lemma {:induction false} JoinedAt(sides: seq<seq<Byte>>, k: nat)
    requires k < |sides| && forall side | side in sides :: |side| == 65500
    ensures |Joined(sides)| == 65500 * |sides|
    ensures Joined(sides)[65500 * k..65500 * k + 65500] == sides[k]
    decreases |sides|
  {
    if |sides| == 1 {
      assert sides[1..] == [];
    } else {
      assert |sides[0]| == 65500 && forall side | side in sides[1..] :: side in sides;
      JoinedAt(sides[1..], if k > 0 then k - 1 else 0);
    }
  }

  lemma SideOfImage(image: seq<Byte>, sides: seq<seq<Byte>>, k: nat)
    requires OfSides(image, sides) && k < |sides|
    ensures |image| == 16 + 65500 * |sides| && 65500 * k + 65500 <= 65500 * |sides|
    ensures image[16 + 65500 * k..16 + 65500 * k + 65500] == sides[k]
  {
    JoinedAt(sides, k);
    assert |image| == 16 + |image[16..]|;
    assert image[16 + 65500 * k..16 + 65500 * k + 65500] == image[16..][65500 * k..65500 * k + 65500];
  }

  /** The drive holds side `k` with its gaps and checksums, as it is on the image or with what was recorded for it. */
  ghost predicate Holds(d: Drive, fixed: seq<Byte>, diff: seq<Byte>) {
    && d.original == fixed && d.disksize == 524000 && d.diskpos == 0 && d.state.Inserting? && !d.writeprotect
    && |d.disk| == |fixed| && (diff == [] || |diff| == 3 + |fixed|)
    && forall i: nat | i < |fixed| :: d.disk[i] == if diff == [] then fixed[i] else XorByte(fixed[i], diff[3 + i])
  }

  /** What putting in side `k` of an image ends with: that side and no other is in the drive, or it is reported what is
      wrong with that side. */
  ghost predicate Holding(d: Drive, current: int, r: Result<(), MediaError>, side: seq<Byte>, k: nat, diff: seq<Byte>) {
    match FdsFormat.Format(side)
    case Failure(e) => r == Failure(BadSide(e))
    case Success(fixed) => r == Success(()) && current == k && Holds(d, fixed, diff)
  }

  function Done(r: Result<Adapter, MediaError>): Result<(), MediaError> {
    if r.Success? then Success(()) else Failure(r.error)
  }

  /** This is so for every side of every image. */
  lemma InsertsThatSide(a: Adapter, sides: seq<seq<Byte>>, k: nat)
    requires a.Bounds() && OfSides(a.image, sides) && k < |sides| && k < a.image[4] as int && Sound(a.diskdiffs[k])
    ensures CanInsert(a, k)
    ensures var r := SideInserted(a, k);
      var b := if r.Success? then r.value else a;
      Holding(b.drive, b.currentside, Done(r), sides[k], k, a.diskdiffs[k])
  {
    hide Patch, FdsFormat.Format, SizeOf;
    SideOfImage(a.image, sides, k);
    match FdsFormat.Format(sides[k])
    case Failure(_) =>
    case Success(fixed) =>
      if a.diskdiffs[k] != [] { PatchedBytes(fixed, a.diskdiffs[k]); }
  }

  /** And a side that the image does not announce, or does not have, is refused. */
  lemma NoSuchSide(a: Adapter, sides: seq<seq<Byte>>, k: nat)
    requires a.Bounds() && OfSides(a.image, sides) && CanInsert(a, k)
    ensures k >= a.image[4] as int ==> SideInserted(a, k) == Failure(NoSide)
    ensures |sides| <= k < a.image[4] as int ==> SideInserted(a, k) == Failure(ShortImage)
  {
    hide Loadable;
    if sides != [] {
      JoinedAt(sides, 0);
    }
    assert |a.image| == 16 + |a.image[16..]|;
  }

  lemma PatchedBytes(side: seq<Byte>, diff: seq<Byte>)
    requires |side| == 65500 && |diff| == 65503
    ensures |Patch(side, 524000, diff)| == 65500
    ensures forall i: nat | i < 65500 :: Patch(side, 524000, diff)[i] == XorByte(side[i], diff[3 + i])
  {
    hide XorByte;
    assert forall i: nat | i < 65500 :: diff[3..][i] == diff[3 + i];
  }

  lemma NoImage(a: Adapter, k: nat)
    requires a.Bounds() && |a.image| < 16
    ensures CanInsert(a, k) && SideInserted(a, k) == Failure(NoSide)
  {
  }

  /** A side whose recorded difference has another size goes in as it is on the image, and the adapter goes on naming
      the one before it. */
  lemma RefusedHolds(a: Adapter, sides: seq<seq<Byte>>, k: nat)
    requires a.Bounds() && OfSides(a.image, sides) && k < |sides| && k < a.image[4] as int
    requires CanInsert(a, k) && SideInserted(a, k) == Failure(WrongDiff)
    ensures Loadable(a.image, k) && a.diskdiffs[k] != [] && |a.diskdiffs[k]| >= 3 && SizeOf(a.diskdiffs[k]) != 524000
    ensures FdsFormat.Format(sides[k]).Success?
    ensures var b := Refused(a, k);
      && Holds(b.drive, FdsFormat.Format(sides[k]).value, [])
      && b.currentside == a.currentside && b.diskdiffs == a.diskdiffs && b.image == a.image
  {
    hide Patch, FdsFormat.Format, SizeOf;
    SideOfImage(a.image, sides, k);
  }

  // ---- histories ----

  datatype Action =
    | Access(op: Op)       // the machine runs the drive
    | EjectSide
    | InsertSide(s: nat)
    | SaveRam

  function Perform(a: Adapter, action: Action): (r: Adapter)
    requires a.Inv()
    ensures r.Inv() && r.image == a.image
  {
    hide Apply, Diff, Patched, Loadable, Drive.Inv;
    match action
    case Access(op) =>
      if KeepsDisk(op) then
        DriveOpKeepsInv(a, op);
        a.(drive := Apply(a.drive, op))
      else a
    case EjectSide =>
      EjectedKeepsInv(a);
      Ejected(a)
    case InsertSide(s) =>
      InvCanInsert(a, s);
      if SideInserted(a, s).Success? then
        InsertedKeepsInv(a, s);
        SideInserted(a, s).value
      else a
    case SaveRam =>
      RecordingKeepsInv(a);
      Recording(a)
  }

  lemma OpKeepsMedia(d: Drive, op: Op)
    requires d.Inv() && KeepsDisk(op)
    ensures var e := Apply(d, op);
            && e.Inv() && |e.disk| == |d.disk| && e.original == d.original && e.disksize == d.disksize
            && (!op.Clock? ==> e.disk == d.disk)
  {
    hide Drive.Moved;
    ApplyKeepsInv(d, op);
    if op.Clock? && d.state.Running? {
      MovedMovesHead(d.(cycleswaiting := d.cycleswaiting - 1));
    }
  }

  lemma DriveOpKeepsInv(a: Adapter, op: Op)
    requires a.Inv() && KeepsDisk(op)
    ensures a.(drive := Apply(a.drive, op)).Inv()
    ensures !op.Clock? ==> Apply(a.drive, op).disk == a.drive.disk
  {
    hide Apply, Drive.Inv, Loadable, Sound;
    OpKeepsMedia(a.drive, op);
  }

  function History(a: Adapter, actions: seq<Action>): (r: Adapter)
    requires a.Inv()
    ensures r.Inv() && r.image == a.image
    decreases |actions|
  {
    if actions == [] then a else History(Perform(a, actions[0]), actions[1..])
  }

  /** An action that may change what is on side `s`: the clock of a drive that holds it, and putting a
      side into a drive that holds it. */
  predicate Touches(a: Adapter, action: Action, s: nat) {
    a.currentside == s && ((action.Access? && action.op.Clock?) || action.InsertSide?)
  }

  /** Everything else leaves every side as it is. */
  lemma PerformKeepsContents(a: Adapter, action: Action, s: nat)
    requires a.Inv() && s < NumSides(a.image) && Loadable(a.image, s) && !Touches(a, action, s)
    ensures Perform(a, action).Contents(s) == a.Contents(s)
  {
    hide Diff, Patched, Loadable, Drive.Inv, Drive.Clocked;
    match action
    case Access(op) => if KeepsDisk(op) { DriveOpKeepsInv(a, op); }
    case EjectSide => if a.Loaded() { DiffSound(a); }
    case InsertSide(t) =>
      InvCanInsert(a, t);
      if SideInserted(a, t).Success? { InsertedKeepsInv(a, t); }
    case SaveRam => if a.Loaded() { DiffSound(a); }
  }

  lemma {:induction false} HistoryKeepsContents(a: Adapter, actions: seq<Action>, s: nat)
    requires a.Inv() && s < NumSides(a.image) && Loadable(a.image, s)
    requires a.currentside != s
    requires forall t: nat :: InsertSide(t) in actions ==> t != s
    ensures History(a, actions).currentside != s
    ensures History(a, actions).Contents(s) == a.Contents(s)
    decreases |actions|
  {
    hide Diff, Patched, Loadable, Drive.Inv, Apply;
    if actions != [] {
      PerformKeepsContents(a, actions[0], s);
      var b := Perform(a, actions[0]);
      assert actions[0].InsertSide? ==> InsertSide(actions[0].s) in actions;
      assert b.currentside != s;
      HistoryKeepsContents(b, actions[1..], s);
    }
  }

  /** What was written to a side survives an eject: whatever happens meanwhile to other sides, the side
      goes back in with the bytes it had. */
  lemma SurvivesEject(a: Adapter, actions: seq<Action>)
    requires a.Inv() && a.Loaded()
    requires forall t: nat :: InsertSide(t) in actions ==> t != a.currentside
    ensures var b := History(Perform(a, EjectSide), actions);
            CanInsert(b, a.currentside)
            && SideInserted(b, a.currentside).Success?
            && SideInserted(b, a.currentside).value.drive.disk == a.drive.disk
            && SideInserted(b, a.currentside).value.drive.original == a.drive.original
  {
    hide Diff, Patched, Drive.Inv, Apply, SideInserted, Perform, History, Loadable, CanInsert, Adapter.Contents,
      Adapter.Inv;
    IsLoadable(a);
    PerformKeepsContents(a, EjectSide, a.currentside);
    var b := Perform(a, EjectSide);
    NoneMounted(a);
    HistoryKeepsContents(b, actions, a.currentside);
    GoesBack(History(b, actions), a.currentside);
    MountedContents(a);
  }

  lemma IsLoadable(a: Adapter)
    requires a.Inv() && a.Loaded()
    ensures Loadable(a.image, a.currentside) && a.drive.original == Fixed(a.image, a.currentside)
  {
    hide Loadable, Drive.Inv;
  }

  lemma NoneMounted(a: Adapter)
    requires a.Inv()
    ensures Perform(a, EjectSide).currentside == -1
  {
    hide Diff, Drive.Inv, Loadable;
  }

  lemma MountedContents(a: Adapter)
    requires a.Inv() && a.Loaded() && Loadable(a.image, a.currentside)
    ensures a.Contents(a.currentside) == a.drive.disk
  {
    hide Loadable, Drive.Inv;
  }

  /** A side that is not mounted goes in with its contents. */
  lemma GoesBack(a: Adapter, s: nat)
    requires a.Inv() && s < NumSides(a.image) && Loadable(a.image, s) && a.currentside != s
    ensures CanInsert(a, s) && SideInserted(a, s).Success?
    ensures SideInserted(a, s).value.drive.disk == a.Contents(s)
    ensures SideInserted(a, s).value.drive.original == Fixed(a.image, s)
  {
    hide Patch, FdsFormat.Format, SizeOf, Drive.Inv;
    InvCanInsert(a, s);
    assert Sound(a.diskdiffs[s]);
  }

  /** What was written since a difference was last recorded is none, or is that difference again. */
  predicate UpToDate(d: Drive, diff: seq<Byte>)
    requires 0 <= d.disksize <= 8 * |d.disk| && |d.original| == |d.disk|
  {
    Diff(d) == diff || (diff == [] && d.disk == d.original)
  }

  lemma SizeInjective(data: seq<Byte>, size: nat)
    requires |data| >= 3 && SizeOf(data) == size
    ensures data[..3] == SizeBytes(size)
  {
    var hi, mid, lo := data[0] as int, data[1] as int, data[2] as int;
    assert size / 0x100 == hi * 0x100 + mid && size % 256 == lo;
    assert size / 0x10000 == hi && size / 0x100 % 256 == mid;
  }

  /** A sound difference that leads from the original to the disk is the one that the drive makes. */
  lemma OnlyDiff(d: Drive, diff: seq<Byte>)
    requires d.disksize == SIDE_BITS && |d.original| == |d.disk| == FdsFormat.SIDE_BYTES
    requires Sound(diff) && diff != [] && Patched(d.original, diff) == d.disk
    ensures Diff(d) == diff
  {
    hide XorByte, SizeOf, SizeBytes;
    SizeInjective(diff, SIDE_BITS);
    forall i: nat | i < FdsFormat.SIDE_BYTES ensures XorByte(d.disk[i], d.original[i]) == diff[3..][i] {
      assert Patched(d.original, diff)[i] == XorByte(d.original[i], diff[3..][i]);
      XorSwap(d.original[i], diff[3..][i]);
      XorTwice(diff[3..][i], d.original[i]);
    }
    assert diff == diff[..3] + diff[3..];
    assert Diff(d)[3..] == diff[3..];
  }

  lemma UpToDateIff(d: Drive, diff: seq<Byte>)
    requires d.disksize == SIDE_BITS && |d.original| == |d.disk| == FdsFormat.SIDE_BYTES && Sound(diff)
    ensures UpToDate(d, diff) <==> d.disk == Patched(d.original, diff)
  {
    hide XorByte, SizeOf, SizeBytes;
    PatchUndoesDiff(d);
    if diff != [] && Patched(d.original, diff) == d.disk { OnlyDiff(d, diff); }
  }

  /** Not so without the eject: putting a side into a drive that still holds one keeps the contents of
      the side that was there if and only if the difference recorded for it is up to date. */
  lemma SwapWithoutEject(a: Adapter, t: nat)
    requires a.Inv() && a.Loaded() && CanInsert(a, t) && SideInserted(a, t).Success?
    ensures SideInserted(a, t).value.Inv()
    ensures SideInserted(a, t).value.Contents(a.currentside) == a.Contents(a.currentside)
        <==> UpToDate(a.drive, a.diskdiffs[a.currentside])
  {
    hide Diff, Patched, Drive.Inv, UpToDate;
    InsertedKeepsInv(a, t);
    UpToDateIff(a.drive, a.diskdiffs[a.currentside]);
  }

  // ---- the save file ----

  datatype SaveError = BadHeader | WrongSides | SaveTruncated | SaveWrongSize

  const SAVE_MAGIC: seq<Byte> := [0x46, 0x44, 0x53, 0x53]

  function Put32(v: nat): (r: seq<Byte>)
    ensures |r| == 4
  {
    [(v % 256) as Byte, (v / 256 % 256) as Byte, (v / 256 / 256 % 256) as Byte, (v / 256 / 256 / 256 % 256) as Byte]
  }

  function Get32(s: seq<Byte>): nat
    requires |s| >= 4
  {
    (s[0] as int) + 256 * ((s[1] as int) + 256 * ((s[2] as int) + 256 * (s[3] as int)))
  }

  lemma Get32Put32(v: nat, rest: seq<Byte>)
    requires v < 0x1_0000_0000
    ensures Get32(Put32(v) + rest) == v
  {
  }

  function PrintDiffs(diffs: seq<seq<Byte>>): seq<Byte> {
    if diffs == [] then [] else (Put32(|diffs[0]|) + diffs[0]) + PrintDiffs(diffs[1..])
  }

  function Print(diffs: seq<seq<Byte>>): seq<Byte> {
    (SAVE_MAGIC + Put32(|diffs|)) + PrintDiffs(diffs)
  }

  /** Up to `n` differences, and whether all of them were there. */
  function ParseDiffs(rest: seq<Byte>, n: nat): (r: (seq<seq<Byte>>, bool))
    ensures |r.0| <= n && (r.1 ==> |r.0| == n)
    decreases n
  {
    if n == 0 then ([], true)
    else if |rest| < 4 || |rest| < 4 + Get32(rest) then ([], false)
    else
      var more := ParseDiffs(rest[4 + Get32(rest)..], n - 1);
      ([rest[4..4 + Get32(rest)]] + more.0, more.1)
  }

  lemma {:induction false} ParseUndoesPrint(diffs: seq<seq<Byte>>)
    requires forall i: nat | i < |diffs| :: |diffs[i]| < 0x1_0000_0000
    ensures ParseDiffs(PrintDiffs(diffs), |diffs|) == (diffs, true)
    decreases |diffs|
  {
    if diffs != [] {
      var d, tail := diffs[0], PrintDiffs(diffs[1..]);
      ParseUndoesPrint(diffs[1..]);
      var rest := PrintDiffs(diffs);
      assert rest == Put32(|d|) + (d + tail);
      Get32Put32(|d|, d + tail);
      assert rest[4..4 + |d|] == d && rest[4 + |d|..] == tail;
      assert diffs == [d] + diffs[1..];
    }
  }

  /** What loading a save file does; a file that breaks off has replaced the differences before that. */
  function Stored(a: Adapter, data: seq<Byte>): (Adapter, Result<(), SaveError>)
    requires a.Bounds() && UsableSave(a, data)
  {
    if |data| < 8 || data[..4] != SAVE_MAGIC then (a, Failure(BadHeader))
    else if Get32(data[4..]) != NumSides(a.image) then (a, Failure(WrongSides))
    else
      hide Patch, SizeOf, Loadable;
      var parsed := ParseDiffs(data[8..], NumSides(a.image));
      var b := a.(diskdiffs := parsed.0 + a.diskdiffs[|parsed.0|..]);
      if !parsed.1 then (b, Failure(SaveTruncated))
      else if a.currentside < 0 || b.diskdiffs[a.currentside] == [] then (b, Success(()))
      else if SizeOf(b.diskdiffs[a.currentside]) != SIDE_BITS then (b, Failure(SaveWrongSize))
      else
        (b.(drive := a.drive.(disk := Patch(a.drive.disk, SIDE_BITS, b.diskdiffs[a.currentside]))), Success(()))
  }

  /** The difference in the file for the side in the drive may be applied. The others may be anything. */
  ghost predicate UsableSave(a: Adapter, data: seq<Byte>)
    requires a.Bounds()
  {
    |data| >= 8 && data[..4] == SAVE_MAGIC && Get32(data[4..]) == NumSides(a.image) ==>
      var parsed := ParseDiffs(data[8..], NumSides(a.image));
      parsed.1 && a.Loaded() ==>
        Usable(parsed.0[a.currentside])
  }

  lemma SoundIsUsable(a: Adapter, data: seq<Byte>)
    requires a.Inv() && SoundSave(a, data)
    ensures UsableSave(a, data)
  {
    hide SizeOf, Loadable, Drive.Inv;
    if |data| >= 8 && a.Loaded() {
      var parsed := ParseDiffs(data[8..], NumSides(a.image));
      if parsed.1 { assert parsed.0[a.currentside] in parsed.0; }
    }
  }

  /** The differences in the file are ones that a drive makes of a side. */
  ghost predicate SoundSave(a: Adapter, data: seq<Byte>) {
    |data| >= 8 ==> forall d | d in ParseDiffs(data[8..], NumSides(a.image)).0 :: Sound(d)
  }

  /** Differences that a drive makes leave the adapter sound, also when the file is refused. */
  lemma StoredKeepsInv(a: Adapter, data: seq<Byte>)
    requires a.Inv() && SoundSave(a, data)
    ensures UsableSave(a, data) && Stored(a, data).0.Inv()
  {
    hide Patch, SizeOf, Loadable, Get32;
    SoundIsUsable(a, data);
    var b := Stored(a, data).0;
    if |data| >= 8 {
      var parsed := ParseDiffs(data[8..], NumSides(a.image)).0;
      forall s: nat | s < |b.diskdiffs| ensures Sound(b.diskdiffs[s]) {
        if b.diskdiffs != a.diskdiffs && s < |parsed| { assert b.diskdiffs[s] == parsed[s] && parsed[s] in parsed; }
      }
    }
  }

  /** The file that saving produces. */
  function SaveFile(a: Adapter): seq<Byte>
    requires a.Bounds()
  {
    Print(Recording(a).diskdiffs)
  }

  lemma Sections<T>(u: seq<T>, v: seq<T>, w: seq<T>)
    requires |u| == |v| == 4
    ensures (u + v + w)[..4] == u && (u + v + w)[4..] == v + w && (u + v + w)[8..] == w
  {
  }

  lemma PrintParses(diffs: seq<seq<Byte>>)
    requires |diffs| < 0x1_0000_0000
    requires forall i: nat | i < |diffs| :: |diffs[i]| < 0x1_0000_0000
    ensures var data := Print(diffs);
            && |data| >= 8 && data[..4] == SAVE_MAGIC && Get32(data[4..]) == |diffs|
            && ParseDiffs(data[8..], |diffs|) == (diffs, true)
  {
    hide Get32, Put32, ParseDiffs, PrintDiffs;
    Sections(SAVE_MAGIC, Put32(|diffs|), PrintDiffs(diffs));
    Get32Put32(|diffs|, PrintDiffs(diffs));
    ParseUndoesPrint(diffs);
  }

  /** A number in four bytes, lowest first. */
  predicate IsWord(bytes: seq<Byte>, v: nat) {
    && |bytes| == 4 && bytes[0] as nat == v % 256 && bytes[1] as nat == v / 256 % 256
    && bytes[2] as nat == v / 0x10000 % 256 && bytes[3] as nat == v / 0x100_0000 % 256
  }

  lemma PutIsWord(v: nat)
    ensures IsWord(Put32(v), v)
  {
    assert v / 256 / 256 == v / 0x10000 && v / 256 / 256 / 256 == v / 0x100_0000;
  }

  /** The file begins with the letters FDSS and the number of sides, and every difference has its length in front. */
  lemma SaveFileLayout(diffs: seq<seq<Byte>>)
    ensures |Print(diffs)| >= 8 && Print(diffs)[..4] == [0x46, 0x44, 0x53, 0x53]
    ensures IsWord(Print(diffs)[4..8], |diffs|) && Print(diffs)[8..] == PrintDiffs(diffs)
    ensures diffs == [] ==> PrintDiffs(diffs) == []
    ensures diffs != [] ==>
      var n := |diffs[0]|;
      && |PrintDiffs(diffs)| >= 4 + n && IsWord(PrintDiffs(diffs)[..4], n)
      && PrintDiffs(diffs)[4..4 + n] == diffs[0] && PrintDiffs(diffs)[4 + n..] == PrintDiffs(diffs[1..])
  {
    hide Put32, IsWord;
    PutIsWord(|diffs|);
    Sections(SAVE_MAGIC, Put32(|diffs|), PrintDiffs(diffs));
    assert Print(diffs)[4..8] == Put32(|diffs|);
    if diffs != [] {
      PutIsWord(|diffs[0]|);
      assert PrintDiffs(diffs)[..4] == Put32(|diffs[0]|);
    }
  }

  lemma SaveFileParses(a: Adapter)
    requires a.Inv()
    ensures var data := SaveFile(a);
            && |data| >= 8 && data[..4] == SAVE_MAGIC && Get32(data[4..]) == NumSides(a.image)
            && ParseDiffs(data[8..], NumSides(a.image)) == (Recording(a).diskdiffs, true)
  {
    hide Get32, ParseDiffs, Print, Recording, Drive.Inv, Loadable;
    RecordingKeepsInv(a);
    PrintParses(Recording(a).diskdiffs);
  }

  /** Sound differences, one for each side, replace those of the adapter, and that of the mounted side is applied. */
  function WithDiffs(b: Adapter, diffs: seq<seq<Byte>>): Adapter
    requires b.Inv() && |diffs| == NumSides(b.image) && forall d | d in diffs :: Sound(d)
  {
    b.(diskdiffs := diffs,
       drive := if b.Loaded() then b.drive.(disk := Patched(b.drive.disk, diffs[b.currentside])) else b.drive)
  }

  lemma LoadedSave(a: Adapter, b: Adapter, diffs: seq<seq<Byte>>)
    requires a.Inv() && b.Inv() && b.image == a.image && diffs == Recording(a).diskdiffs
    requires |diffs| == NumSides(b.image) && forall d | d in diffs :: Sound(d)
    ensures SoundSave(b, SaveFile(a)) && UsableSave(b, SaveFile(a))
    ensures Stored(b, SaveFile(a)) == (WithDiffs(b, diffs), Success(()))
  {
    hide Patch, SizeOf, Print, Drive.Inv, Loadable, Get32, ParseDiffs;
    SaveFileParses(a);
    SoundIsUsable(b, SaveFile(a));
    assert diffs + b.diskdiffs[|diffs|..] == diffs;
    if b.Loaded() { assert diffs[b.currentside] in diffs; }
  }

  lemma RecordingSound(a: Adapter)
    requires a.Inv()
    ensures |Recording(a).diskdiffs| == NumSides(a.image) && forall d | d in Recording(a).diskdiffs :: Sound(d)
  {
    hide Recording, Loadable, Drive.Inv, Sound;
    RecordingKeepsInv(a);
  }

  lemma LoadKeepsInv(b: Adapter, diffs: seq<seq<Byte>>)
    requires b.Inv() && |diffs| == NumSides(b.image) && forall d | d in diffs :: Sound(d)
    ensures WithDiffs(b, diffs).Inv()
  {
    hide Patched, Loadable;
  }

  /** An adapter into which the save file of another one was loaded. */
  ghost function Restored(a: Adapter, b: Adapter): (r: Adapter)
    requires a.Inv() && b.Inv() && b.image == a.image
    ensures SoundSave(b, SaveFile(a)) && UsableSave(b, SaveFile(a)) && r == Stored(b, SaveFile(a)).0
    ensures r.Inv() && r.image == b.image && r.currentside == b.currentside
    ensures r.diskdiffs == Recording(a).diskdiffs
    ensures b.Loaded() ==> r.drive.disk == Patched(b.drive.disk, r.diskdiffs[b.currentside])
  {
    hide Patched, SaveFile, SoundSave, UsableSave, Diff, Recording, Loadable, Stored, Drive.Inv;
    RecordingSound(a);
    LoadedSave(a, b, Recording(a).diskdiffs);
    LoadKeepsInv(b, Recording(a).diskdiffs);
    Stored(b, SaveFile(a)).0
  }

  /** Save, then load into an adapter with the same image: every side that is not in the drive has the
      contents it had. */
  lemma SaveRestores(a: Adapter, b: Adapter, s: nat)
    requires a.Inv() && b.Inv() && b.image == a.image
    requires s < NumSides(a.image) && Loadable(a.image, s) && b.currentside != s
    ensures Restored(a, b).Contents(s) == a.Contents(s)
  {
    hide Patched, Restored, SaveFile, Stored, SoundSave, UsableSave, Diff, Loadable, Drive.Inv;
    if a.Loaded() { DiffSound(a); }
  }

  lemma {:induction false} PatchInjective(u: seq<Byte>, v: seq<Byte>, diff: seq<Byte>)
    requires |u| == |v| == FdsFormat.SIDE_BYTES && Sound(diff)
    ensures Patched(u, diff) == Patched(v, diff) <==> u == v
  {
    if diff != [] && Patched(u, diff) == Patched(v, diff) {
      var n := Bytes(SIDE_BITS);
      forall i: nat | i < |u| ensures u[i] == v[i] {
        assert Patched(u, diff)[i] == XorByte(u[i], diff[3..][i]);
        assert Patched(v, diff)[i] == XorByte(v[i], diff[3..][i]);
        XorTwice(u[i], diff[3..][i]);
        XorTwice(v[i], diff[3..][i]);
      }
    }
  }

  lemma PatchTwice(u: seq<Byte>, diff: seq<Byte>)
    requires |u| == FdsFormat.SIDE_BYTES && Sound(diff)
    ensures Patched(Patched(u, diff), diff) == u
  {
    hide XorByte;
    if diff != [] {
      var v := Patched(u, diff);
      forall i: nat | i < |u| ensures Patched(v, diff)[i] == u[i] {
        assert v[i] == XorByte(u[i], diff[3..][i]);
        assert Patched(v, diff)[i] == XorByte(v[i], diff[3..][i]);
        XorTwice(u[i], diff[3..][i]);
      }
    }
  }

  /** The side in the drive gets its contents back if and only if the drive still has it as it was put
      in: differences are applied to whatever is there. */
  lemma SaveRestoresMounted(a: Adapter, b: Adapter)
    requires a.Inv() && b.Inv() && b.image == a.image && b.Loaded()
    ensures Restored(a, b).Contents(b.currentside) == a.Contents(b.currentside)
        <==> b.drive.disk == b.drive.original
  {
    hide Patched, Restored, SaveFile, Stored, SoundSave, UsableSave, Diff, Loadable, Drive.Inv;
    PatchInjective(b.drive.disk, b.drive.original, Restored(a, b).diskdiffs[b.currentside]);
    if a.Loaded() { DiffSound(a); }
  }

  /** Loading the file again takes the first load back, so that the side in the drive has its contents only if they
      are those of the image. */
  lemma LoadedTwice(a: Adapter, b: Adapter)
    requires a.Inv() && b.Inv() && b.image == a.image && b.Loaded()
    ensures Restored(a, Restored(a, b)).drive.disk == b.drive.disk
    ensures b.drive.disk == b.drive.original ==>
      (Restored(a, Restored(a, b)).Contents(b.currentside) == a.Contents(b.currentside)
       <==> a.Contents(b.currentside) == Fixed(a.image, b.currentside))
  {
    hide Restored, SaveFile, Stored, SoundSave, UsableSave, Diff, Loadable, Drive.Inv, Patched;
    PatchTwice(b.drive.disk, Restored(a, b).diskdiffs[b.currentside]);
  }

  /** So a fresh adapter, whose drive has the side as it was put in, gets every side back. */
  lemma SaveRestoresFresh(a: Adapter, b: Adapter)
    requires a.Inv() && b.Inv() && b.image == a.image && (b.Loaded() ==> b.drive.disk == b.drive.original)
    ensures forall s: nat | s < NumSides(a.image) && Loadable(a.image, s) :: Restored(a, b).Contents(s) == a.Contents(s)
  {
    hide Restored, Adapter.Contents, Adapter.Inv, Loadable;
    forall s: nat | s < NumSides(a.image) && Loadable(a.image, s)
      ensures Restored(a, b).Contents(s) == a.Contents(s)
    {
      if b.currentside == s {
        SaveRestoresMounted(a, b);
      } else {
        SaveRestores(a, b, s);
      }
    }
  }
}
