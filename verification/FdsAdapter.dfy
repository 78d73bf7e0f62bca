/** The disk system board's half of the media: the object that puts sides in and out of its drive and
    prints and loads save files. */
module FdsAdapter {
  import opened Bits
  import opened Wrappers
  import opened FdsDrive
  import opened FdsMedia
  import FdsFormat
  import FdsUnit

  class RamAdapter {
    var diskimage: seq<Byte>
    const drive: FdsUnit.DiskDrive
    var currentside: int
    var diskdiffs: seq<seq<Byte>>

    ghost function View(): Adapter
      reads this, drive, drive.disk
    {
      Adapter(diskimage, drive.View(), currentside, diskdiffs)
    }

    ghost predicate Valid()
      reads this, drive, drive.disk
    {
      View().Bounds()
    }

    constructor (image: seq<Byte>)
      requires image == [] || |image| >= 16
      ensures Valid() && fresh(drive) && fresh(drive.disk)
      ensures View() == Fresh(image) && View().Inv()
    {
      diskimage, currentside, diskdiffs := image, -1, seq(NumSides(image), i => []);
      drive := new FdsUnit.DiskDrive();
    }

    method Eject()
      requires Valid()
      modifies this`currentside, this`diskdiffs, drive
      ensures View() == Ejected(old(View()))
      ensures Valid() && (drive.disk == old(drive.disk) || fresh(drive.disk))
    {
      hide FdsUnit.DiskDrive.View, Diff, Adapter.Bounds, Drive.Inv, Drive.Ejected;
      BoundsKept(View(), 0);
      assert Recording(View()).drive == View().drive;
      if currentside >= 0 {
        Record();
        RecordedDrive();
        drive.Eject();
        currentside := -1;
      }
    }

    lemma RecordedDrive()
      requires Valid()
      ensures drive.Valid()
    {
    }

    lemma DriveLoaded()
      requires Valid() && currentside >= 0
      ensures drive.Valid() && drive.disk.Length > 0 && currentside < |diskdiffs|
    {
    }

    method InsertSide(side: nat) returns (r: Result<(), MediaError>)
      requires Valid() && CanInsert(View(), side)
      modifies this`currentside, drive
      ensures match SideInserted(old(View()), side)
              case Success(after) => r == Success(()) && View() == after && fresh(drive.disk)
              case Failure(WrongDiff) =>
                r == Failure(WrongDiff) && View() == Refused(old(View()), side) && fresh(drive.disk)
              case Failure(e) => r == Failure(e) && View() == old(View()) && drive.disk == old(drive.disk)
      ensures forall sides: seq<seq<Byte>> | OfSides(diskimage, sides) && side < |sides| && side < |diskdiffs|
                                             && Sound(diskdiffs[side]) ::
                Holding(drive.View(), currentside, r, sides[side], side, diskdiffs[side])
      ensures Valid()
    {
      hide FdsUnit.DiskDrive.View, Patch, FdsFormat.Format, Drive.Inserted, Drive.Inv, Adapter.Bounds, Loadable, Usable,
        SizeOf, OfSides, Holds, Sound;
      ghost var before := View();
      BoundsKept(before, side);
      ThatSide(side);
      Facts();
      if side >= NumSides(diskimage) {
        return Failure(NoSide);
      }
      if 16 + side * 65500 + 65500 > |diskimage| {
        return Failure(ShortImage);
      }
      var bad := PutIn(side);
      match bad {
        case Some(e) =>
          r := Failure(e);
        case None =>
          currentside := side;
          r := Success(());
      }
    }

    lemma ThatSide(side: nat)
      requires Valid() && CanInsert(View(), side)
      ensures forall sides: seq<seq<Byte>> | OfSides(diskimage, sides) && side < |sides| && side < |diskdiffs|
                                             && Sound(diskdiffs[side]) ::
                var inserted := SideInserted(View(), side);
                var after := if inserted.Success? then inserted.value else View();
                Holding(after.drive, after.currentside, Done(inserted), sides[side], side, diskdiffs[side])
    {
      hide FdsUnit.DiskDrive.View, SideInserted, Holding, Sound, Drive.Inv, CanInsert;
      var a := View();
      forall sides: seq<seq<Byte>> | OfSides(a.image, sides) && side < |sides| && side < |a.diskdiffs|
                                     && Sound(a.diskdiffs[side])
        ensures var inserted := SideInserted(a, side);
          var after := if inserted.Success? then inserted.value else a;
          Holding(after.drive, after.currentside, Done(inserted), sides[side], side, a.diskdiffs[side])
      {
        InsertsThatSide(a, sides, side);
      }
    }

    lemma Facts()
      requires Valid()
      ensures |diskdiffs| == NumSides(diskimage) && drive.Valid()
    {
    }

    /** The part of InsertSide that loads the drive. */
    method PutIn(side: nat) returns (bad: Option<MediaError>)
      requires Valid() && CanInsert(View(), side) && side < NumSides(diskimage)
      requires 16 + (side + 1) * 65500 <= |diskimage|
      modifies drive
      ensures match SideInserted(old(View()), side)
              case Success(after) => bad == None && drive.View() == after.drive && fresh(drive.disk)
              case Failure(WrongDiff) =>
                bad == Some(WrongDiff) && drive.View() == Refused(old(View()), side).drive && fresh(drive.disk)
              case Failure(e) =>
                bad == Some(e) && drive.View() == old(drive.View()) && drive.disk == old(drive.disk)
    {
      hide Patch, FdsFormat.Format, FdsUnit.DiskDrive.View, FdsUnit.DiskDrive.Surface, SizeOf;
      assert drive.Valid();
      var inserted := drive.InsertBrokenImage(SideImage(diskimage, side), false);
      if inserted.Failure? {
        return Some(BadSide(inserted.error.reason));
      }
      ghost var fixed := FdsFormat.Format(SideImage(diskimage, side)).value;
      drive.ViewDisk();
      if diskdiffs[side] != [] {
        var applied := drive.ApplyDiff(diskdiffs[side]);
        if applied.Failure? {
          return Some(WrongDiff);
        }
      }
      bad := None;
    }

    method ReadSaveRam() returns (out: seq<Byte>)
      requires Valid()
      modifies this`diskdiffs
      ensures View() == Recording(old(View()))
      ensures out == SaveFile(old(View()))
      ensures Valid()
    {
      hide FdsUnit.DiskDrive.View, Diff, Put32, Print, Adapter.Bounds, Drive.Inv;
      BoundsKept(View(), 0);
      Record();
      out := PrintAll(diskdiffs);
    }

    /** The part of ReadSaveRam that updates the difference of the side in the drive. */
    method Record()
      requires Valid()
      modifies this`diskdiffs
      ensures View() == Recording(old(View())) && Valid()
    {
      hide FdsUnit.DiskDrive.View, Diff, Adapter.Bounds, Drive.Inv;
      BoundsKept(View(), 0);
      if currentside >= 0 {
        DriveLoaded();
        var diff := drive.MakeDiff();
        diskdiffs := diskdiffs[currentside := diff];
      }
    }

    /** The part of ReadSaveRam that prints. */
    static method PrintAll(diffs: seq<seq<Byte>>) returns (out: seq<Byte>)
      ensures out == Print(diffs)
    {
      hide Put32;
      out := SAVE_MAGIC;
      out := out + Put32(|diffs|);
      ghost var head := out;
      for i := 0 to |diffs|
        invariant out + PrintDiffs(diffs[i..]) == head + PrintDiffs(diffs)
      {
        assert diffs[i..][0] == diffs[i] && diffs[i..][1..] == diffs[i + 1..];
        var before := out;
        out := out + Put32(|diffs[i]|);
        out := out + diffs[i];
        assert out == before + (Put32(|diffs[i]|) + diffs[i]);
        assert before + ((Put32(|diffs[i]|) + diffs[i]) + PrintDiffs(diffs[i + 1..]))
            == (before + (Put32(|diffs[i]|) + diffs[i])) + PrintDiffs(diffs[i + 1..]);
      }
      assert diffs[|diffs|..] == [];
      assert out + [] == out;
    }

    method StoreSaveRam(data: seq<Byte>) returns (r: Result<(), SaveError>)
      requires Valid() && UsableSave(View(), data)
      modifies this`diskdiffs, drive.disk
      ensures View() == Stored(old(View()), data).0 && r == Stored(old(View()), data).1
      ensures Valid()
    {
      hide Get32, FdsUnit.DiskDrive.PortView;
      if |data| < 8 || data[..4] != SAVE_MAGIC {
        return Failure(BadHeader);
      }
      var sides := Get32(data[4..]);
      if sides != NumSides(diskimage) {
        return Failure(WrongSides);
      }
      var diffs, complete := ParseAll(data[8..], sides, diskdiffs);
      diskdiffs := diffs;
      if !complete {
        return Failure(SaveTruncated);
      }
      r := Reapply();
    }

    /** The part of StoreSaveRam that patches the disk in the drive. */
    method Reapply() returns (r: Result<(), SaveError>)
      requires drive.Valid() && currentside < |diskdiffs|
      requires currentside >= 0 ==> drive.disksize == SIDE_BITS && drive.disk.Length == FdsFormat.SIDE_BYTES
      requires currentside >= 0 ==>
                 var d := diskdiffs[currentside];
                 d == [] || (|d| >= 3 && (SizeOf(d) == SIDE_BITS ==> |d| >= 3 + FdsFormat.SIDE_BYTES))
      modifies drive.disk
      ensures var before := old(drive.View());
              if currentside < 0 || diskdiffs[currentside] == [] then r == Success(()) && drive.View() == before
              else if SizeOf(diskdiffs[currentside]) != SIDE_BITS then
                r == Failure(SaveWrongSize) && drive.View() == before
              else
                r == Success(())
                && drive.View() == before.(disk := Patch(before.disk, SIDE_BITS, diskdiffs[currentside]))
    {
      hide FdsUnit.DiskDrive.PortView, SizeOf, Patch;
      if currentside >= 0 && diskdiffs[currentside] != [] {
        var applied := drive.ApplyDiff(diskdiffs[currentside]);
        if applied.Failure? {
          return Failure(SaveWrongSize);
        }
      }
      r := Success(());
    }

    /** The part of StoreSaveRam that reads differences over the ones there are. */
    static method ParseAll(data: seq<Byte>, sides: nat, start: seq<seq<Byte>>)
      returns (diffs: seq<seq<Byte>>, complete: bool)
      requires |start| == sides
      ensures var parsed := ParseDiffs(data, sides);
              diffs == parsed.0 + start[|parsed.0|..] && complete == parsed.1
    {
      hide Get32;
      diffs := start;
      var rest := data;
      assert [] + ParseDiffs(data, sides).0 == ParseDiffs(data, sides).0;
      for i := 0 to sides
        invariant |diffs| == sides
        invariant Reads(ParseDiffs(data, sides), diffs[..i], ParseDiffs(rest, sides - i))
        invariant diffs[i..] == start[i..]
      {
        if |rest| < 4 || |rest| < 4 + Get32(rest) {
          assert diffs[..i] + [] == diffs[..i];
          return diffs, false;
        }
        var len := Get32(rest);
        ghost var more := ParseDiffs(rest[4 + len..], sides - i - 1);
        assert diffs[..i] + ([rest[4..4 + len]] + more.0) == (diffs[..i] + [rest[4..4 + len]]) + more.0;
        diffs := diffs[i := rest[4..4 + len]];
        assert diffs[..i + 1] == diffs[..i] + [rest[4..4 + len]];
        rest := rest[4 + len..];
      }
      assert diffs[..sides] + [] == diffs[..sides];
      complete := true;
    }

    static ghost predicate Reads(whole: (seq<seq<Byte>>, bool), done: seq<seq<Byte>>, rest: (seq<seq<Byte>>, bool)) {
      whole == (done + rest.0, rest.1)
    }
  }
}
