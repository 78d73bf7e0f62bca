/** Save states: one traversal of the machine's fields that saves, loads and measures, with buffers of
    variable length inside, and the open bus settled on the way. */
module Savestate {
  import opened Bits
  import opened OpenBus

  // ---- the format ----

  /** A field as the traversal meets it: plain bytes of a length the machine fixes, a buffer with its length
      before it, or a list of such buffers with its length before it. */
  datatype Item = Plain(bytes: seq<Byte>) | Buffer(bytes: seq<Byte>) | Buffers(all: seq<seq<Byte>>)

  /** What two machines built from the same cartridge have in common. */
  datatype Kind = PlainKind(length: nat) | BufferKind | BuffersKind

  const WORD := 0x1_0000_0000

  /** A number in `k` bytes, low byte first. */
  function Little(n: nat, k: nat): (r: seq<Byte>)
    ensures |r| == k
    decreases k
  {
    if k == 0 then [] else [(n % 256) as Byte] + Little(n / 256, k - 1)
  }

  function FromLittle(bytes: seq<Byte>): nat {
    if bytes == [] then 0 else bytes[0] as nat + 256 * FromLittle(bytes[1..])
  }

  function Pow256(k: nat): nat { if k == 0 then 1 else 256 * Pow256(k - 1) }

  lemma {:induction false} LittleRoundTrip(n: nat, k: nat)
    requires n < Pow256(k)
    ensures FromLittle(Little(n, k)) == n
    decreases k
  {
    if k > 0 {
      LittleRoundTrip(n / 256, k - 1);
    }
  }

  lemma WordRoundTrip(n: nat)
    requires n < WORD
    ensures FromLittle(Little(n, 4)) == n
  {
    assert Pow256(4) == 256 * Pow256(3) == 256 * 256 * Pow256(2) == WORD by {
      assert Pow256(2) == 256 * Pow256(1);
      assert Pow256(1) == 256 * Pow256(0);
    }
    LittleRoundTrip(n, 4);
  }

  predicate Fits(i: Item) {
    match i
    case Plain(_) => true
    case Buffer(bytes) => |bytes| < WORD
    case Buffers(all) => |all| < WORD && forall b | b in all :: |b| < WORD
  }

  function KindOf(i: Item): Kind {
    match i
    case Plain(bytes) => PlainKind(|bytes|)
    case Buffer(_) => BufferKind
    case Buffers(_) => BuffersKind
  }

  function Kinds(items: seq<Item>): (r: seq<Kind>)
    ensures |r| == |items|
  {
    seq(|items|, i requires 0 <= i < |items| => KindOf(items[i]))
  }

  function EncodeBuffer(b: seq<Byte>): seq<Byte> { Little(|b|, 4) + b }

  function EncodeBuffers(all: seq<seq<Byte>>): seq<Byte> {
    if all == [] then [] else EncodeBuffer(all[0]) + EncodeBuffers(all[1..])
  }

  function EncodeItem(i: Item): seq<Byte> {
    match i
    case Plain(bytes) => bytes
    case Buffer(bytes) => EncodeBuffer(bytes)
    case Buffers(all) => Little(|all|, 4) + EncodeBuffers(all)
  }

  function Encode(items: seq<Item>): seq<Byte> {
    if items == [] then [] else EncodeItem(items[0]) + Encode(items[1..])
  }

  lemma {:induction false} EncodeConcat(a: seq<Item>, b: seq<Item>)
    ensures Encode(a + b) == Encode(a) + Encode(b)
    decreases |a|
  {
    if a == [] {
      assert a + b == b;
    } else {
      assert (a + b)[1..] == a[1..] + b;
      EncodeConcat(a[1..], b);
    }
  }

  lemma {:induction false} EncodeBuffersSnoc(all: seq<seq<Byte>>, b: seq<Byte>)
    ensures EncodeBuffers(all + [b]) == EncodeBuffers(all) + EncodeBuffer(b)
    decreases |all|
  {
    if all == [] {
      assert all + [b] == [b];
    } else {
      assert (all + [b])[1..] == all[1..] + [b];
      EncodeBuffersSnoc(all[1..], b);
    }
  }

  /** Bytes of several buffers. */
  function Total(all: seq<seq<Byte>>): nat {
    if all == [] then 0 else |all[0]| + Total(all[1..])
  }

  lemma {:induction false} BuffersSize(all: seq<seq<Byte>>)
    ensures |EncodeBuffers(all)| == 4 * |all| + Total(all)
  {
    if all != [] { BuffersSize(all[1..]); }
  }

  /** A field of fixed length has nothing around it; a buffer and a list have their length in front, in four bytes, the
      lowest first. */
  lemma ItemLayout(i: Item)
    ensures i.Plain? ==> EncodeItem(i) == i.bytes
    ensures i.Buffer? ==> EncodeItem(i)[4..] == i.bytes
    ensures !i.Plain? ==>
      var n := if i.Buffer? then |i.bytes| else |i.all|;
      |EncodeItem(i)| >= 4 && forall k: nat | k < 4 :: EncodeItem(i)[k] as nat == Digit(n, k)
    ensures i.Buffers? ==> |EncodeItem(i)| == 4 + 4 * |i.all| + Total(i.all)
  {
    if !i.Plain? { WordDigits(if i.Buffer? then |i.bytes| else |i.all|); }
    if i.Buffers? { BuffersSize(i.all); }
  }

  /** Byte `k` of a number. */
  function Digit(n: nat, k: nat): nat {
    match k
    case 0 => n % 256
    case 1 => n / 256 % 256
    case 2 => n / 0x10000 % 256
    case _ => n / 0x100_0000 % 256
  }

  lemma WordDigits(n: nat)
    ensures forall k: nat | k < 4 :: Little(n, 4)[k] as nat == Digit(n, k)
  {
    var a, b, c := n / 256, n / 256 / 256, n / 256 / 256 / 256;
    assert Little(n, 4) == [(n % 256) as Byte] + Little(a, 3);
    assert Little(a, 3) == [(a % 256) as Byte] + Little(b, 2);
    assert Little(b, 2) == [(b % 256) as Byte] + Little(c, 1);
    assert Little(c, 1) == [(c % 256) as Byte] + Little(c / 256, 0);
    assert b == n / 0x10000 && c == n / 0x100_0000;
  }

  // ---- the traversals ----

  /** Writes bytes, or only counts them. */
  class StateSaver {
    const dry: bool
    var buf: seq<Byte>
    var pos: nat

    constructor (dry: bool)
      ensures this.dry == dry && buf == [] && pos == 0
    {
      this.dry, buf, pos := dry, [], 0;
    }

    ghost predicate Valid()
      reads this
    {
      !dry ==> pos == |buf|
    }

    method Bytes(p: seq<Byte>)
      requires Valid()
      modifies this`buf, this`pos
      ensures Valid() && pos == old(pos) + |p| && buf == if dry then old(buf) else old(buf) + p
    {
      if !dry {
        buf := buf + p;
      }
      pos := pos + |p|;
    }

    method SyncBytes(v: seq<Byte>)
      requires Valid()
      modifies this`buf, this`pos
      ensures Valid() && pos == old(pos) + |EncodeBuffer(v)|
      ensures buf == if dry then old(buf) else old(buf) + EncodeBuffer(v)
    {
      Bytes(Little(|v|, 4));
      if |v| != 0 {
        Bytes(v);
      }
      assert !dry ==> buf == old(buf) + EncodeBuffer(v);
    }

    method SyncMany(all: seq<seq<Byte>>)
      requires Valid()
      modifies this`buf, this`pos
      ensures Valid() && pos == old(pos) + |EncodeBuffers(all)|
      ensures buf == if dry then old(buf) else old(buf) + EncodeBuffers(all)
    {
      hide EncodeBuffer, EncodeBuffers;
      EncodeNone(buf);
      assert all[..0] == [];
      for k := 0 to |all|
        invariant Valid() && pos == old(pos) + |EncodeBuffers(all[..k])|
        invariant buf == if dry then old(buf) else old(buf) + EncodeBuffers(all[..k])
      {
        assert all[..k + 1] == all[..k] + [all[k]];
        EncodeBuffersSnoc(all[..k], all[k]);
        Append(old(buf), EncodeBuffers(all[..k]), EncodeBuffer(all[k]));
        SyncBytes(all[k]);
      }
      assert all[..|all|] == all;
    }

    method SyncItem(i: Item)
      requires Valid()
      modifies this`buf, this`pos
      ensures Valid() && pos == old(pos) + |EncodeItem(i)|
      ensures buf == if dry then old(buf) else old(buf) + EncodeItem(i)
    {
      hide EncodeBuffer, EncodeBuffers, Little;
      match i {
        case Plain(bytes) =>
          Bytes(bytes);
        case Buffer(bytes) =>
          SyncBytes(bytes);
        case Buffers(all) =>
          Bytes(Little(|all|, 4));
          SyncMany(all);
          Append(old(buf), Little(|all|, 4), EncodeBuffers(all));
      }
    }

    method SyncAll(items: seq<Item>)
      requires Valid()
      modifies this`buf, this`pos
      ensures Valid() && pos == old(pos) + |Encode(items)|
      ensures buf == if dry then old(buf) else old(buf) + Encode(items)
    {
      hide EncodeItem, Encode;
      EncodeNone(buf);
      assert items[..0] == [];
      for k := 0 to |items|
        invariant Valid() && pos == old(pos) + |Encode(items[..k])|
        invariant buf == if dry then old(buf) else old(buf) + Encode(items[..k])
      {
        assert items[..k + 1] == items[..k] + [items[k]];
        EncodeSnoc(items[..k], items[k]);
        Append(old(buf), Encode(items[..k]), EncodeItem(items[k]));
        SyncItem(items[k]);
      }
      assert items[..|items|] == items;
    }
  }

  lemma EncodeNone(buf: seq<Byte>)
    ensures Encode([]) == [] && EncodeBuffers([]) == [] && buf + [] == buf
  {
  }

  lemma EncodeSnoc(items: seq<Item>, i: Item)
    ensures Encode(items + [i]) == Encode(items) + EncodeItem(i)
  {
    hide EncodeItem;
    EncodeConcat(items, [i]);
    assert Encode([i]) == EncodeItem(i) + Encode([]);
  }

  lemma Append<T>(a: seq<T>, b: seq<T>, c: seq<T>)
    ensures (a + b) + c == a + (b + c)
  {
  }

  /** Reads bytes. It trusts its buffer, as the original does: the callers below show what it reads. */
  class StateLoader {
    const buf: seq<Byte>
    var pos: nat

    constructor (buf: seq<Byte>)
      ensures this.buf == buf && pos == 0
    {
      this.buf, pos := buf, 0;
    }

    method Bytes(n: nat, ghost p: seq<Byte>) returns (r: seq<Byte>)
      requires pos <= |buf| && |p| == n && p <= buf[pos..]
      modifies this`pos
      ensures pos == old(pos) + n <= |buf| && r == p
    {
      r := buf[pos..pos + n];
      assert r == buf[pos..][..n] == p;
      pos := pos + n;
    }

    method Number(ghost n: nat) returns (r: nat)
      requires pos <= |buf| && n < WORD && Little(n, 4) <= buf[pos..]
      modifies this`pos
      ensures pos == old(pos) + 4 <= |buf| && r == n
    {
      WordRoundTrip(n);
      var p := Bytes(4, Little(n, 4));
      r := FromLittle(p);
    }

    method SyncBytes(ghost v: seq<Byte>) returns (r: seq<Byte>)
      requires pos <= |buf| && |v| < WORD && EncodeBuffer(v) <= buf[pos..]
      modifies this`pos
      ensures pos == old(pos) + |EncodeBuffer(v)| <= |buf| && r == v
    {
      PrefixSplit(Little(|v|, 4), v, buf[pos..]);
      assert buf[pos..][4..] == buf[pos + 4..];
      var n := Number(|v|);
      r := [];
      if n != 0 {
        r := Bytes(n, v);
      }
    }

    /** A field of a known kind. `i` is the item that was saved. */
    method SyncItem(kind: Kind, ghost i: Item) returns (r: Item)
      requires pos <= |buf| && KindOf(i) == kind && Fits(i) && EncodeItem(i) <= buf[pos..]
      modifies this`pos
      ensures pos == old(pos) + |EncodeItem(i)| <= |buf| && r == i
    {
      match kind {
        case PlainKind(length) =>
          var p := Bytes(length, i.bytes);
          r := Plain(p);
        case BufferKind =>
          var p := SyncBytes(i.bytes);
          r := Buffer(p);
        case BuffersKind =>
          var all := SyncMany(i.all);
          r := Buffers(all);
      }
    }

    method SyncMany(ghost saved: seq<seq<Byte>>) returns (all: seq<seq<Byte>>)
      requires pos <= |buf| && Fits(Buffers(saved)) && EncodeItem(Buffers(saved)) <= buf[pos..]
      modifies this`pos
      ensures pos == old(pos) + |EncodeItem(Buffers(saved))| <= |buf| && all == saved
    {
      hide EncodeBuffer, Little;
      PrefixSplit(Little(|saved|, 4), EncodeBuffers(saved), buf[pos..]);
      assert buf[pos..][4..] == buf[pos + 4..];
      var n := Number(|saved|);
      all := [];
      assert saved[0..] == saved;
      ghost var end := pos + |EncodeBuffers(saved)|;
      for k := 0 to n
        invariant pos <= |buf| && all == saved[..k]
        invariant EncodeBuffers(saved[k..]) <= buf[pos..] && pos + |EncodeBuffers(saved[k..])| == end
      {
        assert saved[k..][0] == saved[k] && saved[k..][1..] == saved[k + 1..];
        PrefixSplit(EncodeBuffer(saved[k]), EncodeBuffers(saved[k + 1..]), buf[pos..]);
        ghost var here := pos;
        var b := SyncBytes(saved[k]);
        assert buf[here..][|EncodeBuffer(saved[k])|..] == buf[pos..];
        all := all + [b];
      }
      assert saved[n..] == [];
      assert saved[..n] == saved;
    }

    method SyncAll(kinds: seq<Kind>, ghost items: seq<Item>) returns (r: seq<Item>)
      requires pos <= |buf| && Kinds(items) == kinds && (forall i | i in items :: Fits(i))
      requires Encode(items) <= buf[pos..]
      modifies this`pos
      ensures pos == old(pos) + |Encode(items)| <= |buf| && r == items
    {
      hide EncodeItem, Fits, KindOf;
      r := [];
      assert items[0..] == items;
      ghost var end := pos + |Encode(items)|;
      for k := 0 to |kinds|
        invariant pos <= |buf| && r == items[..k]
        invariant Encode(items[k..]) <= buf[pos..] && pos + |Encode(items[k..])| == end
      {
        assert items[k..][0] == items[k] && items[k..][1..] == items[k + 1..];
        assert kinds[k] == KindOf(items[k]) && items[k] in items;
        PrefixSplit(EncodeItem(items[k]), Encode(items[k + 1..]), buf[pos..]);
        ghost var here := pos;
        var i := SyncItem(kinds[k], items[k]);
        assert buf[here..][|EncodeItem(items[k])|..] == buf[pos..];
        r := r + [i];
      }
      assert items[|kinds|..] == [];
      assert items[..|kinds|] == items;
    }
  }

  lemma PrefixSplit<T>(a: seq<T>, b: seq<T>, s: seq<T>)
    requires a + b <= s
    ensures a <= s && b <= s[|a|..]
  {
    assert s[..|a + b|] == a + b;
    assert s[..|a|] == (a + b)[..|a|];
    assert s[|a|..][..|b|] == s[..|a + b|][|a|..];
    assert (a + b)[|a|..] == b;
  }

  // ---- the machine ----

  /** The visited fields, in the order of the traversal. The open bus stands between others of the PPU. */
  datatype State = State(
    console: seq<Item>, originaldisk: seq<Byte>, disk: seq<Byte>, drive: seq<Item>, diskdiffs: seq<seq<Byte>>,
    adapter: seq<Item>, openBus: Byte, ppu: seq<Item>, decay: seq<nat>, rest: seq<Item>)

  predicate FieldsFit(s: State) {
    && (forall i | i in s.console + s.drive + s.adapter + s.ppu + s.rest :: Fits(i))
    && |s.originaldisk| < WORD && |s.disk| < WORD && Fits(Buffers(s.diskdiffs))
  }

  predicate StateFits(s: State) {
    FieldsFit(s) && |s.decay| == 8 && forall d | d in s.decay :: d < WORD
  }

  /** Built from the same cartridge: the same fields, plain ones of the same length. Disks and differences may
      have any length. */
  predicate SameCartridge(s: State, t: State) {
    && Kinds(s.console) == Kinds(t.console) && Kinds(s.drive) == Kinds(t.drive) && Kinds(s.adapter) == Kinds(t.adapter)
    && Kinds(s.ppu) == Kinds(t.ppu) && Kinds(s.rest) == Kinds(t.rest)
  }

  function Words(ns: seq<nat>): seq<Byte> {
    if ns == [] then [] else Little(ns[0], 4) + Words(ns[1..])
  }

  /** The console and the board, disks included. */
  function EncodeBoard(s: State): seq<Byte> {
    Encode(s.console) + (EncodeBuffer(s.originaldisk) + (EncodeBuffer(s.disk) + (Encode(s.drive)
    + (EncodeItem(Buffers(s.diskdiffs)) + Encode(s.adapter)))))
  }

  /** The PPU, and what comes after it. */
  function EncodePpu(s: State): seq<Byte> {
    [s.openBus] + (Encode(s.ppu) + (Words(s.decay) + Encode(s.rest)))
  }

  function EncodeState(s: State): seq<Byte> { EncodeBoard(s) + EncodePpu(s) }

  lemma {:induction false} WordsSnoc(ns: seq<nat>, n: nat)
    ensures Words(ns + [n]) == Words(ns) + Little(n, 4)
    decreases |ns|
  {
    if ns == [] {
      assert ns + [n] == [n];
    } else {
      assert (ns + [n])[1..] == ns[1..] + [n];
      WordsSnoc(ns[1..], n);
    }
  }

  method SaveWords(s: StateSaver, ns: seq<nat>)
    requires s.Valid()
    modifies s`buf, s`pos
    ensures s.Valid() && s.pos == old(s.pos) + |Words(ns)|
    ensures s.buf == if s.dry then old(s.buf) else old(s.buf) + Words(ns)
  {
    hide Little, Words;
    WordsNone(s.buf);
    assert ns[..0] == [];
    for k := 0 to |ns|
      invariant s.Valid() && s.pos == old(s.pos) + |Words(ns[..k])|
      invariant s.buf == if s.dry then old(s.buf) else old(s.buf) + Words(ns[..k])
    {
      assert ns[..k + 1] == ns[..k] + [ns[k]];
      WordsSnoc(ns[..k], ns[k]);
      Append(old(s.buf), Words(ns[..k]), Little(ns[k], 4));
      s.Bytes(Little(ns[k], 4));
    }
    assert ns[..|ns|] == ns;
  }

  lemma WordsNone(buf: seq<Byte>)
    ensures Words([]) == [] && buf + [] == buf
  {
  }

  method LoadWords(l: StateLoader, n: nat, ghost ns: seq<nat>) returns (r: seq<nat>)
    requires l.pos <= |l.buf| && |ns| == n && (forall x | x in ns :: x < WORD) && Words(ns) <= l.buf[l.pos..]
    modifies l`pos
    ensures l.pos == old(l.pos) + |Words(ns)| <= |l.buf| && r == ns
  {
    hide Little;
    r := [];
    assert ns[0..] == ns;
    ghost var end := l.pos + |Words(ns)|;
    for k := 0 to n
      invariant l.pos <= |l.buf| && r == ns[..k]
      invariant Words(ns[k..]) <= l.buf[l.pos..] && l.pos + |Words(ns[k..])| == end
    {
      assert ns[k..][0] == ns[k] && ns[k..][1..] == ns[k + 1..] && ns[k] in ns;
      PrefixSplit(Little(ns[k], 4), Words(ns[k + 1..]), l.buf[l.pos..]);
      ghost var here := l.pos;
      var x := l.Number(ns[k]);
      assert l.buf[here..][4..] == l.buf[l.pos..];
      r := r + [x];
    }
    assert ns[n..] == [];
    assert ns[..n] == ns;
  }

  class Machine {
    var console: seq<Item>
    var originaldisk: seq<Byte>
    var disk: seq<Byte>
    var drive: seq<Item>
    var diskdiffs: seq<seq<Byte>>
    var adapter: seq<Item>
    var ppu: seq<Item>
    var rest: seq<Item>
    const bus: PpuBus

    // not visited
    var wram: seq<Byte>
    var chr: int

    constructor (cartridge: State, wram: seq<Byte>)
      ensures fresh(bus) && fresh(bus.decayTimer) && bus.Valid()
      ensures SameCartridge(Visited(), cartridge)
    {
      console, originaldisk, disk, drive := cartridge.console, [], [], cartridge.drive;
      diskdiffs, adapter, ppu, rest := [], cartridge.adapter, cartridge.ppu, cartridge.rest;
      bus := new PpuBus();
      this.wram, chr := wram, 0;
    }

    ghost function Visited(): State
      reads this, bus, bus.decayTimer
    {
      State(console, originaldisk, disk, drive, diskdiffs, adapter, bus.openBus, ppu,
            bus.decayTimer[..], rest)
    }

    method SaveBoard(s: StateSaver)
      requires s.Valid()
      modifies s`buf, s`pos
      ensures s.Valid() && s.pos == old(s.pos) + |EncodeBoard(Visited())|
      ensures s.buf == if s.dry then old(s.buf) else old(s.buf) + EncodeBoard(Visited())
    {
      hide Encode, EncodeItem, EncodeBuffer, Words;
      s.SyncAll(console);
      s.SyncBytes(originaldisk);
      s.SyncBytes(disk);
      s.SyncAll(drive);
      s.SyncItem(Buffers(diskdiffs));
      s.SyncAll(adapter);
      SixParts(old(s.buf), Encode(console), EncodeBuffer(originaldisk), EncodeBuffer(disk), Encode(drive),
               EncodeItem(Buffers(diskdiffs)), Encode(adapter));
    }

    method SavePpu(s: StateSaver)
      requires s.Valid()
      modifies s`buf, s`pos
      ensures s.Valid() && s.pos == old(s.pos) + |EncodePpu(Visited())|
      ensures s.buf == if s.dry then old(s.buf) else old(s.buf) + EncodePpu(Visited())
    {
      hide Encode, Words;
      s.Bytes([bus.openBus]);
      s.SyncAll(ppu);
      SaveWords(s, bus.decayTimer[..]);
      s.SyncAll(rest);
      FourParts(old(s.buf), [bus.openBus], Encode(ppu), Words(bus.decayTimer[..]), Encode(rest));
    }

    /** The traversal with a saver. What the open bus is owed is settled, and that is all that changes. */
    method Save(s: StateSaver)
      requires bus.decayTimer.Length == 8 && s.Valid()
      modifies s`buf, s`pos, bus`openBus, bus`decayPending, bus`decayNextCheck, bus.decayTimer
      ensures bus.Valid() && bus.decayPending == 0 && bus.Exact() == old(bus.Exact()) == bus.Stored()
      ensures s.Valid() && s.pos == old(s.pos) + |EncodeState(Visited())|
      ensures s.buf == if s.dry then old(s.buf) else old(s.buf) + EncodeState(Visited())
    {
      hide EncodeBoard, EncodePpu;
      bus.Flush();
      SaveBoard(s);
      SavePpu(s);
      Append(old(s.buf), EncodeBoard(Visited()), EncodePpu(Visited()));
      bus.RecomputeDecayCheck();
    }

    /** The size of a state, measured by the same traversal. */
    method StateSize() returns (n: nat)
      requires bus.decayTimer.Length == 8
      modifies bus`openBus, bus`decayPending, bus`decayNextCheck, bus.decayTimer
      ensures n == |EncodeState(Visited())| && bus.Valid() && bus.Exact() == old(bus.Exact())
    {
      var s := new StateSaver(true);
      Save(s);
      n := s.pos;
    }

    method LoadBoard(l: StateLoader, ghost saved: State)
      requires l.pos <= |l.buf| && SameCartridge(Visited(), saved) && StateFits(saved)
      requires EncodeBoard(saved) <= l.buf[l.pos..]
      modifies l`pos, this`console, this`originaldisk, this`disk, this`drive, this`diskdiffs, this`adapter
      ensures l.pos == old(l.pos) + |EncodeBoard(saved)| <= |l.buf|
      ensures console == saved.console && originaldisk == saved.originaldisk && disk == saved.disk
      ensures drive == saved.drive && diskdiffs == saved.diskdiffs && adapter == saved.adapter
    {
      hide Encode, EncodeItem, EncodeBuffer, Fits;
      ghost var p0, data := l.pos, l.buf;
      ghost var a, b, c, d, e, f := Encode(saved.console), EncodeBuffer(saved.originaldisk), EncodeBuffer(saved.disk),
        Encode(saved.drive), EncodeItem(Buffers(saved.diskdiffs)), Encode(saved.adapter);
      SixPrefixes(data, p0, a, b, c, d, e, f);
      console := l.SyncAll(Kinds(console), saved.console);
      originaldisk := l.SyncBytes(saved.originaldisk);
      disk := l.SyncBytes(saved.disk);
      drive := l.SyncAll(Kinds(drive), saved.drive);
      diskdiffs := l.SyncMany(saved.diskdiffs);
      adapter := l.SyncAll(Kinds(adapter), saved.adapter);
    }

    method LoadPpu(l: StateLoader, ghost saved: State)
      requires bus.decayTimer.Length == 8
      requires l.pos <= |l.buf| && SameCartridge(Visited(), saved) && StateFits(saved)
      requires EncodePpu(saved) <= l.buf[l.pos..]
      modifies l`pos, this`ppu, this`rest, bus`openBus, bus.decayTimer
      ensures l.pos == old(l.pos) + |EncodePpu(saved)| <= |l.buf|
      ensures ppu == saved.ppu && rest == saved.rest && bus.openBus == saved.openBus
      ensures bus.decayTimer[..] == saved.decay
    {
      hide Encode, Words, Fits;
      ghost var p0, data := l.pos, l.buf;
      FourPrefixes(data, p0, [saved.openBus], Encode(saved.ppu), Words(saved.decay), Encode(saved.rest));
      var one := l.Bytes(1, [saved.openBus]);
      bus.openBus := one[0];
      ppu := l.SyncAll(Kinds(ppu), saved.ppu);
      var timers := LoadWords(l, 8, saved.decay);
      forall i | 0 <= i < 8 { bus.decayTimer[i] := timers[i]; }
      rest := l.SyncAll(Kinds(rest), saved.rest);
    }

    /** The traversal with a loader, over a machine built from the same cartridge: whatever state it is in, and
        whatever its open bus is owed, every visited field becomes the saved one, exactly the bytes that
        were saved are read, and the batching of the open bus is sound again. */
    method Load(l: StateLoader, ghost saved: State)
      requires bus.decayTimer.Length == 8
      requires l.pos <= |l.buf| && SameCartridge(Visited(), saved) && StateFits(saved)
      requires EncodeState(saved) <= l.buf[l.pos..]
      modifies l`pos, this`console, this`originaldisk, this`disk, this`drive, this`diskdiffs, this`adapter, this`ppu,
        this`rest, bus`openBus, bus`decayPending, bus`decayNextCheck, bus.decayTimer
      ensures Visited() == saved && l.pos == old(l.pos) + |EncodeState(saved)| <= |l.buf|
      ensures bus.Valid() && bus.decayPending == 0 && bus.Exact() == Bus(saved.openBus, saved.decay)
    {
      hide EncodeBoard, EncodePpu;
      bus.Flush();
      ghost var p0 := l.pos;
      PrefixSplit(EncodeBoard(saved), EncodePpu(saved), l.buf[p0..]);
      LoadBoard(l, saved);
      assert l.buf[p0..][|EncodeBoard(saved)|..] == l.buf[l.pos..];
      LoadPpu(l, saved);
      bus.RecomputeDecayCheck();
      FadeNone(bus.Stored());
    }
  }

  lemma FadeNone(b: Bus)
    requires b.Ok()
    ensures Fade(b, 0) == b
  {
  }

  lemma FourParts<T>(x: seq<T>, a: seq<T>, b: seq<T>, c: seq<T>, d: seq<T>)
    ensures x + a + b + c + d == x + (a + (b + (c + d)))
  {
    Append(x + a + b, c, d);
    Append(x + a, b, c + d);
    Append(x, a, b + (c + d));
  }

  lemma SixParts<T>(x: seq<T>, a: seq<T>, b: seq<T>, c: seq<T>, d: seq<T>, e: seq<T>, f: seq<T>)
    ensures x + a + b + c + d + e + f == x + (a + (b + (c + (d + (e + f)))))
  {
    FourParts(x + a + b, c, d, e, f);
    Append(x + a, b, c + (d + (e + f)));
    Append(x, a, b + (c + (d + (e + f))));
  }

  /** Parts in a row, each where the one before it ends. */
  lemma FourPrefixes<T>(data: seq<T>, p: nat, a: seq<T>, b: seq<T>, c: seq<T>, d: seq<T>)
    requires p <= |data| && a + (b + (c + d)) <= data[p..]
    ensures a <= data[p..] && p + |a| <= |data| && b <= data[p + |a|..] && p + |a| + |b| <= |data|
    ensures c <= data[p + |a| + |b|..] && p + |a| + |b| + |c| <= |data| && d <= data[p + |a| + |b| + |c|..]
  {
    PrefixAt(data, p, a, b + (c + d));
    PrefixAt(data, p + |a|, b, c + d);
    PrefixAt(data, p + |a| + |b|, c, d);
  }

  lemma PrefixAt<T>(data: seq<T>, p: nat, a: seq<T>, b: seq<T>)
    requires p <= |data| && a + b <= data[p..]
    ensures a <= data[p..] && p + |a| <= |data| && b <= data[p + |a|..]
  {
    PrefixSplit(a, b, data[p..]);
    assert data[p..][|a|..] == data[p + |a|..];
  }

  lemma SixPrefixes<T>(data: seq<T>, p: nat, a: seq<T>, b: seq<T>, c: seq<T>, d: seq<T>, e: seq<T>, f: seq<T>)
    requires p <= |data| && a + (b + (c + (d + (e + f)))) <= data[p..]
    ensures a <= data[p..] && p + |a| + |b| <= |data| && b <= data[p + |a|..] && c <= data[p + |a| + |b|..]
    ensures var q := p + |a| + |b|;
      && q + |c| <= |data| && d <= data[q + |c|..] && q + |c| + |d| <= |data| && e <= data[q + |c| + |d|..]
      && q + |c| + |d| + |e| <= |data| && f <= data[q + |c| + |d| + |e|..]
  {
    PrefixAt(data, p, a, b + (c + (d + (e + f))));
    PrefixAt(data, p + |a|, b, c + (d + (e + f)));
    FourPrefixes(data, p + |a| + |b|, c, d, e, f);
  }

  /** What one machine saves, another built from the same cartridge loads, whatever it was doing: all visited
      fields and the open bus are as they were, and the size that was announced is read. */
  method SaveThenLoad(source: Machine, target: Machine)
    requires source.bus != target.bus && source != target
    requires source.bus.decayTimer != target.bus.decayTimer
    requires source.bus.decayTimer.Length == 8 && target.bus.decayTimer.Length == 8
    requires SameCartridge(target.Visited(), source.Visited())
    requires FieldsFit(source.Visited()) && Bounded(source.bus.Exact().timer)
    modifies source.bus, source.bus.decayTimer
    modifies target, target.bus, target.bus.decayTimer
    ensures target.bus.Valid() && source.bus.Valid()
    ensures target.Visited() == source.Visited() && target.wram == old(target.wram) && target.chr == old(target.chr)
    ensures source.bus.Exact() == old(source.bus.Exact()) == target.bus.Exact()
  {
    hide EncodeState, Fits;
    var n := source.StateSize();
    var s := new StateSaver(false);
    source.Save(s);
    var l := new StateLoader(s.buf);
    assert [] + EncodeState(source.Visited()) == EncodeState(source.Visited());
    assert l.buf[0..] == l.buf;
    target.Load(l, source.Visited());
    assert l.pos == |l.buf|;
  }
}
