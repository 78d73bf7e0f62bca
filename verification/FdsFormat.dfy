/** The physical layout of a disk side: what the formatter puts back around the blocks of a dump in
    which gaps, block markers and CRCs were stripped out. */
module FdsFormat {
  import opened Bits
  import opened Wrappers
  import Crc

  datatype FormatError = SideTruncated | BadHeaderBlock | BadCountBlock

  /** One block of a side: its bytes as the dump has them, and the length of the gap before it, end
      marker included. */
  datatype Block = Block(payload: seq<Byte>, pregap: nat)

  const SIDE_BYTES: nat := 65500
  const MARKER: Byte := 0x80
  const SIGNATURE: seq<Byte> :=
    [0x01, 0x2a, 0x4e, 0x49, 0x4e, 0x54, 0x45, 0x4e, 0x44, 0x4f, 0x2d, 0x48, 0x56, 0x43, 0x2a]

  function Zeros(n: nat): (r: seq<Byte>)
    ensures |r| == n
    ensures forall i: nat | i < n :: r[i] == 0
  {
    seq(n, i => 0)
  }

  /** Lengthened with zeroes, or cut. */
  function Resize(s: seq<Byte>, n: nat): (r: seq<Byte>)
    ensures |r| == n
  {
    if |s| >= n then s[..n] else s + Zeros(n - |s|)
  }

  function BlockCrc(payload: seq<Byte>): Crc.Word {
    Crc.FeedBytes(Crc.ZERO, [MARKER] + payload)
  }

  function Trailer(payload: seq<Byte>): (r: seq<Byte>)
    ensures |r| == 2
  {
    [Crc.Low(BlockCrc(payload)), Crc.High(BlockCrc(payload))]
  }

  /** How many zero bytes come before the end marker of a gap. */
  function Lead(pregap: nat): nat { if pregap == 0 then 0 else pregap - 1 }

  /** A block on the disk: gap, marker, payload, CRC. */
  function Encode(b: Block): (r: seq<Byte>)
    ensures |r| == Lead(b.pregap) + 1 + |b.payload| + 2
  {
    Zeros(Lead(b.pregap)) + Body(b.payload)
  }

  /** What the drive's CRC covers, and the CRC. */
  function Body(payload: seq<Byte>): (r: seq<Byte>)
    ensures |r| == 1 + |payload| + 2
  {
    [MARKER] + payload + Trailer(payload)
  }

  function EncodeAll(blocks: seq<Block>): seq<Byte> {
    if blocks == [] then [] else Encode(blocks[0]) + EncodeAll(blocks[1..])
  }

  // ---- the file system of a dump ----

  function FileSize(header: seq<Byte>): nat
    requires |header| >= 16
  {
    (header[13] as int) + (header[14] as int) * 256
  }

  /** Where the file data announced by a header ends: it has one byte more than its size. */
  function FileEnd(rest: seq<Byte>): nat
    requires |rest| >= 16
  {
    16 + FileSize(rest) + 1
  }

  /** `n` times a 16-byte file header and the file data it announces. */
  function ParseFiles(rest: seq<Byte>, n: nat): Result<seq<Block>, FormatError> {
    if n == 0 then Success([])
    else if |rest| < 16 then Failure(SideTruncated)
    else
      var end := FileEnd(rest);
      if |rest| < end then Failure(SideTruncated)
      else
        var more :- ParseFiles(rest[end..], n - 1);
        Success([Block(rest[..16], 122), Block(rest[16..end], 122)] + more)
  }

  function ParseSide(input: seq<Byte>): Result<seq<Block>, FormatError> {
    if |input| < 56 then Failure(SideTruncated)
    else if input[..15] != SIGNATURE then Failure(BadHeaderBlock)
    else if |input| < 58 then Failure(SideTruncated)
    else if input[56] != 0x02 then Failure(BadCountBlock)
    else
      var files :- ParseFiles(input[58..], input[57] as int);
      Success([Block(input[..56], 3537), Block(input[56..58], 122)] + files)
  }

  /** The formatted side. */
  function Format(input: seq<Byte>): (r: Result<seq<Byte>, FormatError>)
    ensures r.Success? ==> |r.value| == SIDE_BYTES
  {
    var blocks :- ParseSide(input);
    Success(SideOf(blocks))
  }

  // ---- the formatter itself ----

  method WriteBlock(dest: seq<Byte>, data: seq<Byte>, pregap: nat) returns (r: seq<Byte>)
    ensures r == dest + Encode(Block(data, pregap))
  {
    r := WriteGap(dest, pregap);
    r := r + [MARKER];
    var crc;
    r, crc := WriteData(r, data);
    r := r + [Crc.Low(crc)];
    r := r + [Crc.High(crc)];
    Written(dest, data, pregap);
  }

  /** The start of WriteBlock: the gap, up to its end marker. */
  method WriteGap(dest: seq<Byte>, pregap: nat) returns (r: seq<Byte>)
    ensures r == dest + Zeros(Lead(pregap))
  {
    r := dest;
    for gap := 0 to Lead(pregap)
      invariant r == dest + Zeros(gap)
    {
      r := r + [0];
    }
  }

  /** The middle of WriteBlock: the data bytes, and the CRC of marker and data. */
  method WriteData(dest: seq<Byte>, data: seq<Byte>) returns (r: seq<Byte>, crc: Crc.Word)
    ensures r == dest + data
    ensures crc == BlockCrc(data)
  {
    hide BlockCrc, BitsOf, Crc.Feed;
    r := dest;
    crc := Crc.Ccitt8(Crc.ZERO, MARKER);
    BlockCrcNone();
    for i := 0 to |data|
      invariant r == dest + data[..i]
      invariant crc == BlockCrc(data[..i])
    {
      BlockCrcSnoc(data, i);
      r := r + [data[i]];
      crc := Crc.Ccitt8(crc, data[i]);
    }
    assert data[..|data|] == data;
  }

  lemma BlockCrcNone()
    ensures BlockCrc([]) == Crc.Feed(Crc.ZERO, BitsOf(MARKER))
  {
    assert [MARKER] + [] == [MARKER];
    Crc.FeedBytesSingle(Crc.ZERO, MARKER);
  }

  lemma BlockCrcSnoc(data: seq<Byte>, i: nat)
    requires i < |data|
    ensures BlockCrc(data[..i + 1]) == Crc.Feed(BlockCrc(data[..i]), BitsOf(data[i]))
  {
    assert [MARKER] + data[..i + 1] == [MARKER] + data[..i] + [data[i]];
    Crc.FeedBytesSnoc(Crc.ZERO, [MARKER] + data[..i], data[i]);
  }

  lemma Written(dest: seq<Byte>, data: seq<Byte>, pregap: nat)
    ensures dest + Zeros(Lead(pregap)) + [MARKER] + data + [Crc.Low(BlockCrc(data))] + [Crc.High(BlockCrc(data))]
         == dest + Encode(Block(data, pregap))
  {
    Regroup(dest, Zeros(Lead(pregap)), [MARKER], data, Crc.Low(BlockCrc(data)), Crc.High(BlockCrc(data)));
  }

  lemma Regroup<T>(u: seq<T>, v: seq<T>, w: seq<T>, x: seq<T>, a: T, b: T)
    ensures u + v + w + x + [a] + [b] == u + (v + (w + x + [a, b]))
  {
  }

  method CheckSignature(header: seq<Byte>) returns (ok: bool)
    requires |header| >= 15
    ensures ok <==> header[..15] == SIGNATURE
  {
    for i := 0 to 15
      invariant forall j: nat | j < i :: header[j] == SIGNATURE[j]
    {
      if SIGNATURE[i] != header[i] {
        assert header[..15][i] != SIGNATURE[i];
        return false;
      }
    }
    return true;
  }

  /** The repeating part of a side: file headers and file data. `rest` is what the cursor has not passed. */
  method FixFiles(input: seq<Byte>, count: nat, dest: seq<Byte>) returns (r: Result<seq<Byte>, FormatError>)
    ensures match ParseFiles(input, count)
            case Success(files) => r == Success(dest + EncodeAll(files))
            case Failure(e) => r == Failure(e)
  {
    hide ParseFiles, Continues, EncodeAll, Encode, FileSize;
    var ret, rest := dest, input;
    ghost var done: seq<Block> := [];
    NothingDone(dest);
    ContinuesStart(ParseFiles(input, count));
    for i := 0 to count
      invariant ret == dest + EncodeAll(done)
      invariant Continues(ParseFiles(input, count), done, ParseFiles(rest, count - i))
    {
      var one := FixFile(ret, rest);
      match one {
        case Failure(e) =>
          ParseFilesFails(rest, count - i);
          ContinuesFails(ParseFiles(input, count), done);
          return Failure(e);
        case Success(next) =>
          ParseFilesStep(rest, count - i);
          ghost var a, b := Block(rest[..16], 122), Block(rest[16..FileEnd(rest)], 122);
          EncodeTwo(dest, done, a, b);
          ContinuesOne(ParseFiles(input, count), done, a, b, ParseFiles(next.1, count - i - 1));
          ret, rest, done := next.0, next.1, done + [a, b];
      }
    }
    NoFiles(rest);
    ContinuesEnd(ParseFiles(input, count), done);
    r := Success(ret);
  }

  lemma NothingDone(dest: seq<Byte>)
    ensures dest == dest + EncodeAll([])
  {
  }

  lemma NoFiles(rest: seq<Byte>)
    ensures ParseFiles(rest, 0) == Success([])
  {
  }

  lemma ParseFilesFails(rest: seq<Byte>, n: nat)
    requires n > 0 && (|rest| < 16 || |rest| < FileEnd(rest))
    ensures ParseFiles(rest, n) == Failure(SideTruncated)
  {
  }

  lemma ContinuesFails(whole: Result<seq<Block>, FormatError>, done: seq<Block>)
    requires Continues(whole, done, Failure(SideTruncated))
    ensures whole == Failure(SideTruncated)
  {
  }

  /** One file header and its file data. */
  method FixFile(dest: seq<Byte>, rest: seq<Byte>) returns (r: Result<(seq<Byte>, seq<Byte>), FormatError>)
    ensures if |rest| < 16 || |rest| < FileEnd(rest) then r == Failure(SideTruncated)
            else r == Success((dest + Encode(Block(rest[..16], 122)) + Encode(Block(rest[16..FileEnd(rest)], 122)),
                               rest[FileEnd(rest)..]))
  {
    if |rest| < 16 {
      return Failure(SideTruncated);
    }
    var end := 16 + FileSize(rest[..16]) + 1;
    if |rest| < end {
      return Failure(SideTruncated);
    }
    var ret := WriteBlock(dest, rest[..16], 122);
    ret := WriteBlock(ret, rest[16..end], 122);
    r := Success((ret, rest[end..]));
  }

  /** Parsing the whole gives what was parsed so far followed by what the rest parses to. */
  ghost predicate Continues(whole: Result<seq<Block>, FormatError>, done: seq<Block>,
                            rest: Result<seq<Block>, FormatError>)
  {
    whole == match rest
             case Success(more) => Success(done + more)
             case Failure(e) => Failure(e)
  }

  lemma ContinuesStart(whole: Result<seq<Block>, FormatError>)
    ensures Continues(whole, [], whole)
  {
    match whole
    case Success(more) => assert [] + more == more;
    case Failure(_) =>
  }

  function InFront(a: Block, b: Block, rest: Result<seq<Block>, FormatError>): Result<seq<Block>, FormatError> {
    match rest
    case Success(more) => Success([a, b] + more)
    case Failure(e) => Failure(e)
  }

  lemma ParseFilesStep(rest: seq<Byte>, n: nat)
    requires n > 0 && |rest| >= 16 && |rest| >= FileEnd(rest)
    ensures var end := FileEnd(rest);
            ParseFiles(rest, n)
            == InFront(Block(rest[..16], 122), Block(rest[16..end], 122), ParseFiles(rest[end..], n - 1))
  {
  }

  lemma ContinuesOne(whole: Result<seq<Block>, FormatError>, done: seq<Block>, a: Block, b: Block,
                     rest: Result<seq<Block>, FormatError>)
    requires Continues(whole, done, InFront(a, b, rest))
    ensures Continues(whole, done + [a, b], rest)
  {
    match rest
    case Success(more) => assert done + ([a, b] + more) == (done + [a, b]) + more;
    case Failure(_) =>
  }

  lemma ContinuesEnd(whole: Result<seq<Block>, FormatError>, done: seq<Block>)
    requires Continues(whole, done, Success([]))
    ensures whole == Success(done)
  {
    assert done + [] == done;
  }

  method FixFdsSide(input: seq<Byte>) returns (r: Result<seq<Byte>, FormatError>)
    ensures r == Format(input)
  {
    if |input| < 56 {
      return Failure(SideTruncated);
    }
    var ok := CheckSignature(input);
    if !ok {
      return Failure(BadHeaderBlock);
    }
    var ret := WriteBlock([], input[..56], 3537);

    if |input| < 58 {
      return Failure(SideTruncated);
    }
    if input[56] != 0x02 {
      return Failure(BadCountBlock);
    }
    ret := WriteBlock(ret, input[56..58], 122);

    var fixed := FixFiles(input[58..], input[57] as int, ret);
    match fixed {
      case Failure(e) =>
        r := Failure(e);
      case Success(all) =>
        EncodeHeader(Block(input[..56], 3537), Block(input[56..58], 122),
                     ParseFiles(input[58..], input[57] as int).value);
        r := Success(Resize(all, SIDE_BYTES));
    }
  }

  // ---- what the layout keeps ----

  lemma {:induction false} EncodeAllConcat(u: seq<Block>, v: seq<Block>)
    ensures EncodeAll(u + v) == EncodeAll(u) + EncodeAll(v)
  {
    if u == [] {
      assert u + v == v;
    } else {
      assert (u + v)[1..] == u[1..] + v;
      EncodeAllConcat(u[1..], v);
    }
  }

  lemma EncodeTwo(dest: seq<Byte>, u: seq<Block>, a: Block, b: Block)
    ensures dest + EncodeAll(u + [a, b]) == dest + EncodeAll(u) + Encode(a) + Encode(b)
  {
    EncodeAllConcat(u, [a, b]);
    EncodePair(a, b);
    Regroup4(dest, EncodeAll(u), Encode(a), Encode(b));
  }

  lemma EncodePair(a: Block, b: Block)
    ensures EncodeAll([a, b]) == Encode(a) + Encode(b)
  {
    assert [a, b][1..] == [b];
    assert EncodeAll([b]) == Encode(b) + EncodeAll([]);
    assert Encode(b) + [] == Encode(b);
  }

  lemma EncodeHeader(a: Block, b: Block, files: seq<Block>)
    ensures EncodeAll([a, b] + files) == [] + Encode(a) + Encode(b) + EncodeAll(files)
  {
    EncodeAllConcat([a, b], files);
    EncodePair(a, b);
    assert [] + Encode(a) == Encode(a);
  }

  lemma Regroup4<T>(u: seq<T>, v: seq<T>, w: seq<T>, x: seq<T>)
    ensures u + (v + (w + x)) == u + v + w + x
  {
  }

  function Payloads(blocks: seq<Block>): seq<Byte> {
    if blocks == [] then [] else blocks[0].payload + Payloads(blocks[1..])
  }

  lemma {:induction false} FilesKeepInput(rest: seq<Byte>, n: nat)
    requires ParseFiles(rest, n).Success?
    ensures Payloads(ParseFiles(rest, n).value) <= rest
  {
    if n > 0 {
      var end := FileEnd(rest);
      var more := ParseFiles(rest[end..], n - 1).value;
      var two := [Block(rest[..16], 122), Block(rest[16..end], 122)];
      FilesKeepInput(rest[end..], n - 1);
      assert (two + more)[1..][1..] == more;
      assert rest == rest[..16] + (rest[16..end] + rest[end..]);
    }
  }

  /** The payloads of the blocks are the dump, from its first byte on, with nothing skipped. */
  lemma BlocksKeepInput(input: seq<Byte>)
    requires ParseSide(input).Success?
    ensures Payloads(ParseSide(input).value) <= input
  {
    var files := ParseFiles(input[58..], input[57] as int).value;
    var two := [Block(input[..56], 3537), Block(input[56..58], 122)];
    FilesKeepInput(input[58..], input[57] as int);
    assert (two + files)[1..][1..] == files;
    assert input == input[..56] + (input[56..58] + input[58..]);
  }

  /** Where block `i` starts, gap included. */
  function BlockStart(blocks: seq<Block>, i: nat): nat
    requires i < |blocks|
  {
    |EncodeAll(blocks[..i])|
  }

  lemma Middle<T>(u: seq<T>, v: seq<T>, w: seq<T>)
    ensures (u + (v + w))[|u|..|u| + |v|] == v
  {
  }

  lemma {:induction false} EncodedPlaced(blocks: seq<Block>, i: nat)
    requires i < |blocks|
    ensures BlockStart(blocks, i) + |Encode(blocks[i])| <= |EncodeAll(blocks)|
    ensures EncodeAll(blocks)[BlockStart(blocks, i)..BlockStart(blocks, i) + |Encode(blocks[i])|]
         == Encode(blocks[i])
  {
    EncodeSplit(blocks, i);
    Middle(EncodeAll(blocks[..i]), Encode(blocks[i]), EncodeAll(blocks[i + 1..]));
  }

  lemma EncodeSplit(blocks: seq<Block>, i: nat)
    requires i < |blocks|
    ensures EncodeAll(blocks) == EncodeAll(blocks[..i]) + (Encode(blocks[i]) + EncodeAll(blocks[i + 1..]))
  {
    assert blocks == blocks[..i] + blocks[i..];
    assert blocks[i..][1..] == blocks[i + 1..];
    EncodeAllConcat(blocks[..i], blocks[i..]);
  }

  lemma ResizeKeeps(s: seq<Byte>, n: nat, lo: nat, hi: nat)
    requires lo <= hi <= |s| && hi <= n
    ensures Resize(s, n)[lo..hi] == s[lo..hi]
  {
  }

  ghost predicate Fits(blocks: seq<Block>, i: nat)
    requires i < |blocks|
  {
    BlockStart(blocks, i) + |Encode(blocks[i])| <= SIDE_BYTES
  }

  lemma EncodeParts(b: Block)
    ensures Encode(b)[..Lead(b.pregap)] == Zeros(Lead(b.pregap))
    ensures Encode(b)[Lead(b.pregap)..] == Body(b.payload)
  {
  }

  /** The side with the given blocks. */
  function SideOf(blocks: seq<Block>): (r: seq<Byte>)
    ensures |r| == SIDE_BYTES
  {
    Resize(EncodeAll(blocks), SIDE_BYTES)
  }

  /** A block that fits the side is laid down whole, gap first, at its place. */
  lemma BlockPlaced(blocks: seq<Block>, i: nat)
    requires i < |blocks| && Fits(blocks, i)
    ensures var start, len := BlockStart(blocks, i), |Encode(blocks[i])|;
            SideOf(blocks)[start..start + len] == Encode(blocks[i])
  {
    EncodedPlaced(blocks, i);
    ResizeKeeps(EncodeAll(blocks), SIDE_BYTES, BlockStart(blocks, i),
                BlockStart(blocks, i) + |Encode(blocks[i])|);
  }

  /** What a dump that is refused is refused for, first things first. */
  lemma FirstError(input: seq<Byte>)
    ensures var signed := |input| >= 56
                          && input[..15] == [0x01, 0x2a, 0x4e, 0x49, 0x4e, 0x54, 0x45, 0x4e, 0x44, 0x4f, 0x2d, 0x48,
                                             0x56, 0x43, 0x2a];
      && (|input| < 56 ==> Format(input) == Failure(SideTruncated))
      && (|input| >= 56 && !signed ==> Format(input) == Failure(BadHeaderBlock))
      && (signed && |input| < 58 ==> Format(input) == Failure(SideTruncated))
      && (signed && |input| >= 58 && input[56] != 0x02 ==> Format(input) == Failure(BadCountBlock))
      && (signed && |input| >= 58 && input[56] == 0x02
          ==> Format(input).Success? || Format(input) == Failure(SideTruncated))
  {
    hide SideOf, ParseFiles;
    if |input| >= 58 { OnlyTruncated(input[58..], input[57] as int); }
  }

  lemma {:induction false} OnlyTruncated(rest: seq<Byte>, n: nat)
    ensures ParseFiles(rest, n).Success? || ParseFiles(rest, n) == Failure(SideTruncated)
    decreases n
  {
    if n > 0 && |rest| >= 16 && |rest| >= FileEnd(rest) { OnlyTruncated(rest[FileEnd(rest)..], n - 1); }
  }

  // ---- dumps of files ----

  /** A file in a dump: its header, which gives the size of its data low byte first, and the data behind the byte that
      marks it. */
  datatype File = File(header: seq<Byte>, marked: seq<Byte>)

  predicate FileOk(f: File) {
    |f.header| == 16 && |f.marked| == 1 + f.header[13] as int + 256 * f.header[14] as int
  }

  function FileDump(files: seq<File>): seq<Byte> {
    if files == [] then [] else files[0].header + files[0].marked + FileDump(files[1..])
  }

  /** The blocks of a list of files, each behind a gap of 122 bytes. */
  function FileBlocks(files: seq<File>): seq<Block> {
    if files == [] then []
    else [Block(files[0].header, 122), Block(files[0].marked, 122)] + FileBlocks(files[1..])
  }

  lemma {:induction false} FilesParse(files: seq<File>, rest: seq<Byte>)
    requires forall f | f in files :: FileOk(f)
    ensures ParseFiles(FileDump(files) + rest, |files|) == Success(FileBlocks(files))
    decreases |files|
  {
    if files != [] {
      var f, tail := files[0], FileDump(files[1..]) + rest;
      assert f in files;
      var dump := FileDump(files) + rest;
      Sections(f.header, f.marked, FileDump(files[1..]), rest);
      HeaderBytes(f.header, f.marked + tail);
      FilesParse(files[1..], rest);
      ParseFilesStep(dump, |files|);
    }
  }

  lemma HeaderBytes(header: seq<Byte>, rest: seq<Byte>)
    requires |header| == 16
    ensures |header + rest| >= 16 && FileEnd(header + rest) == 17 + header[13] as int + 256 * header[14] as int
  {
  }

  lemma Sections<T>(u: seq<T>, v: seq<T>, w: seq<T>, x: seq<T>)
    ensures u + v + w + x == u + (v + (w + x))
    ensures (u + v + w + x)[..|u|] == u && (u + v + w + x)[|u|..|u| + |v|] == v
    ensures (u + v + w + x)[|u| + |v|..] == w + x
  {
  }

  /** A dump of a disk's header, the number of its files and the files is taken apart into exactly these blocks,
      whatever comes behind the files. */
  lemma DumpParses(info: seq<Byte>, count: Byte, files: seq<File>, rest: seq<Byte>)
    requires |info| == 56 && info[..15] == SIGNATURE && |files| == count as int && forall f | f in files :: FileOk(f)
    ensures ParseSide(info + [0x02, count] + (FileDump(files) + rest))
         == Success([Block(info, 3537), Block([0x02, count], 122)] + FileBlocks(files))
  {
    hide ParseFiles, FileDump, FileBlocks;
    FilesParse(files, rest);
    var tail := FileDump(files) + rest;
    var input := info + [0x02, count] + tail;
    assert input[..56] == info && input[56..58] == [0x02, count] && input[58..] == tail;
    assert input[..15] == info[..15];
  }
}
