/** Sprite evaluation: the scan that picks the sprites of a line, dot by dot. */
module SpriteEval {
  import opened Bits

  /** OAMADDR, whether rendering is on, and whether it was at the end of the last dot. */
  datatype Addr = Addr(start: nat, on: bool, was: bool)

  /** The scanner. `index` counts slots of secondary OAM, `at` is the place in OAM, `count` the bytes of a
      sprite copied so far. */
  datatype Scan = Scan(
    cycle: nat, even: bool, index: nat, at: nat, count: nat, writing: bool, value: Byte,
    zero: bool, overflow: bool, soam: seq<Byte>, addr: Addr)

  /** What a line holds fixed: OAM, the line above and the height of sprites. */
  datatype Line = Line(oam: seq<Byte>, yp: int, height: nat)

  predicate LineOk(l: Line) {
    |l.oam| == 256 && 0 <= l.yp < 240 && (l.height == 8 || l.height == 16)
  }

  predicate Hits(l: Line, y: Byte) { l.yp >= y as int && l.yp < y as int + l.height }

  function Aligned(at: nat): nat { at / 4 * 4 % 512 }

  /** The first 64 dots clear secondary OAM. */
  function ClearDot(s: Scan): Scan
    requires s.index < 32 && |s.soam| == 256
  {
    if s.even then s else s.(soam := s.soam[s.index := 0xFF], index := s.index + 1)
  }

  /** A byte of OAM that may start a sprite, or goes on with one, while there is room. */
  function CopyDot(l: Line, s: Scan): Scan
    requires |s.soam| == 256 && s.index < 8 && s.count <= 3
  {
    var t := if s.count == 0 then s.(soam := s.soam[4 * s.index := s.value]) else s;
    if Hits(l, s.value) && s.count == 0 then
      t.(zero := s.zero || s.at == s.addr.start, at := s.at + 1, count := 1)
    else if s.count > 0 then
      var u := t.(soam := t.soam[4 * s.index + s.count := s.value], at := s.at + 1);
      if s.count < 3 then u.(count := s.count + 1)
      else u.(index := s.index + 1, count := 0, at := if Hits(l, s.value) then s.at + 1 else Aligned(s.at + 1))
    else
      t.(at := Aligned(s.at + 4))
  }

  /** Secondary OAM is full: the scan goes on, in its glitchy way, for the overflow flag. */
  function FullDot(l: Line, s: Scan): Scan
    requires |s.soam| == 256 && s.index <= 8 && s.count <= 3
  {
    var t := s.(overflow := s.overflow || (Hits(l, s.value) && s.addr.on), value := s.soam[4 * s.index % 32]);
    if Hits(l, s.value) && s.count == 0 then t.(count := 1, at := s.at + 1)
    else if s.count > 0 then
      if s.count < 3 then t.(at := s.at + 1, count := s.count + 1)
      else t.(count := 0, at := if Hits(l, s.value) then s.at + 1 else Aligned(s.at + 1))
    else t.(at := if (s.at + 1) % 4 != 0 then s.at + 5 else s.at + 1)
  }

  function ScanDot(l: Line, s: Scan): Scan
    requires LineOk(l) && |s.soam| == 256 && s.index <= 8 && s.count <= 3
  {
    var t := if s.at >= 256 then s.(at := 0, writing := false) else s;
    if t.even then t.(value := l.oam[t.at])
    else if !t.writing then t.(value := t.soam[4 * t.index % 32], at := t.at + 4)
    else if t.index < 8 then CopyDot(l, t)
    else FullDot(l, t)
  }

  /** The end of a dot that leaves rendering on or off: from dot 63 on, OAMADDR goes up when rendering falls. */
  function Stepped(a: Addr, cycle: nat, on: bool): Addr {
    Addr(if cycle >= 63 && a.was && !on then (a.start + 1) % 256 else a.start, on, on)
  }

  function Ended(s: Scan, on: bool): Scan {
    s.(cycle := s.cycle + 1, even := !s.even, addr := Stepped(s.addr, s.cycle, on))
  }

  /** A dot after the 64th. */
  function Turn(l: Line, s: Scan, on: bool): (r: Scan)
    requires LineOk(l) && |s.soam| == 256 && s.index <= 8 && s.count <= 3
    ensures |r.soam| == 256 && r.index <= 8 && r.count <= 3 && r.even == !s.even && r.cycle == s.cycle + 1
    ensures r.addr == Stepped(s.addr, s.cycle, on)
  {
    Ended(ScanDot(l, s), on)
  }

  /** One dot of a line; `on` is the level of the rendering enable that it leaves. */
  function Dot(l: Line, s: Scan, on: bool): Scan
    requires LineOk(l) && Ready(s)
  {
    if s.cycle < 64 then Ended(ClearDot(s), on)
    else if s.cycle == 64 then Turn(l, s.(index := 0, at := s.addr.start), on)
    else Turn(l, s, on)
  }

  /** What holds before every dot. */
  predicate Ready(s: Scan) {
    && |s.soam| == 256 && s.count <= 3 && s.addr.start < 256
    && (s.cycle < 64 ==> s.index == s.cycle / 2 && s.even == (s.cycle % 2 == 0) && s.count == 0 && s.writing)
    && (s.cycle > 64 ==> s.index <= 8)
    && (s.cycle == 64 ==> s.even && s.count == 0 && s.writing)
  }

  lemma DotReady(l: Line, s: Scan, on: bool)
    requires LineOk(l) && Ready(s)
    ensures Ready(Dot(l, s, on))
  {
  }

  /** The byte that a read of $2004 finds after a dot of the scan: in even dots that of OAM; in odd dots, once the scan
      is over or secondary OAM is full, that of secondary OAM, the first one when it is full. */
  lemma ByteSeen(l: Line, s: Scan, on: bool)
    requires LineOk(l) && Ready(s) && s.cycle > 64 && s.even == (s.cycle % 2 == 0)
    ensures var v := Dot(l, s, on).value;
      && (s.cycle % 2 == 0 ==> v == l.oam[if s.at < 256 then s.at else 0])
      && (s.cycle % 2 == 1 && s.index == 8 ==> v == s.soam[0])
      && (s.cycle % 2 == 1 && s.index < 8 && (!s.writing || s.at >= 256) ==> v == s.soam[4 * s.index])
      && (s.cycle % 2 == 1 && s.index < 8 && s.writing && s.at < 256 ==> v == s.value)
  {
  }

  /** The start of a line. */
  function Begun(s: Scan): Scan {
    s.(cycle := 0, even := true, index := 0, at := 0, count := 0, writing := true, zero := false)
  }

  /** The scanner after as many dots as there are levels of the rendering enable. */
  function Dots(l: Line, s: Scan, on: seq<bool>): (r: Scan)
    requires LineOk(l) && Ready(s)
    ensures Ready(r)
    decreases |on|
  {
    if on == [] then s
    else
      DotReady(l, s, on[0]);
      Dots(l, Dot(l, s, on[0]), on[1..])
  }

  // ---- OAMADDR ----

  /** OAMADDR and the enable before dot `dot`, if they are `a` before dot `cycle` and the dots from there on leave the
      levels `on`. */
  function AddrAt(a: Addr, cycle: nat, on: seq<bool>, dot: nat): Addr
    decreases |on|
  {
    if dot <= cycle || on == [] then a else AddrAt(Stepped(a, cycle, on[0]), cycle + 1, on[1..], dot)
  }

  /** How often rendering falls in the dots from `lo` to `hi`, as far as it matters. */
  function Falls(on: seq<bool>, lo: nat, hi: nat): nat
    decreases hi - lo
  {
    if lo >= hi || lo >= |on| then 0
    else (if lo >= 63 && on[lo - 1] && !on[lo] then 1 else 0) + Falls(on, lo + 1, hi)
  }

  /** OAMADDR before dot `dot` of a line with the levels `on`. */
  function OamAddr(start: nat, on: seq<bool>, dot: nat): nat { (start + Falls(on, 63, dot)) % 256 }

  lemma {:induction false} AddrAtFalls(a: Addr, cycle: nat, on: seq<bool>, dot: nat)
    requires a.start < 256 && cycle <= |on| && (cycle >= 63 ==> a.was == on[cycle - 1])
    ensures AddrAt(a, cycle, on[cycle..], dot).start == (a.start + Falls(on, cycle, dot)) % 256
    decreases |on| - cycle
  {
    hide AddrAt, Falls;
    AddrAtStep(a, cycle, on, dot);
    FallsStep(on, cycle, dot);
    if dot > cycle && cycle < |on| {
      AddrAtFalls(Stepped(a, cycle, on[cycle]), cycle + 1, on, dot);
    }
  }

  lemma AddrAtStep(a: Addr, cycle: nat, on: seq<bool>, dot: nat)
    requires cycle <= |on|
    ensures AddrAt(a, cycle, on[cycle..], dot)
         == if dot <= cycle || cycle == |on| then a
            else AddrAt(Stepped(a, cycle, on[cycle]), cycle + 1, on[cycle + 1..], dot)
  {
    if cycle < |on| { assert on[cycle..][1..] == on[cycle + 1..]; }
  }

  lemma FallsStep(on: seq<bool>, lo: nat, hi: nat)
    ensures Falls(on, lo, hi)
         == if lo >= hi || lo >= |on| then 0
            else (if lo >= 63 && on[lo - 1] && !on[lo] then 1 else 0) + Falls(on, lo + 1, hi)
  {
  }

  lemma {:induction false} LevelAt(a: Addr, cycle: nat, on: seq<bool>, dot: nat)
    requires cycle < dot <= |on|
    ensures AddrAt(a, cycle, on[cycle..], dot).on == on[dot - 1]
    decreases |on| - cycle
  {
    hide AddrAt;
    AddrAtStep(a, cycle, on, dot);
    if dot > cycle + 1 {
      LevelAt(Stepped(a, cycle, on[cycle]), cycle + 1, on, dot);
    } else {
      AddrAtStep(Stepped(a, cycle, on[cycle]), cycle + 1, on, dot);
    }
  }

  /** The first dots do not matter. */
  lemma {:induction false} FallsLate(on: seq<bool>, lo: nat, hi: nat)
    requires lo <= 63
    ensures Falls(on, lo, hi) == Falls(on, 63, hi)
    decreases 63 - lo
  {
    if lo < 63 { FallsLate(on, lo + 1, hi); }
  }

  /** From `s` with levels `on` on, OAMADDR and the enable are what they are from `t` with levels `rest` on. */
  ghost predicate Follows(s: Scan, on: seq<bool>, t: Scan, rest: seq<bool>) {
    forall dot: nat | dot >= t.cycle :: AddrAt(s.addr, s.cycle, on, dot) == AddrAt(t.addr, t.cycle, rest, dot)
  }

  lemma TurnFollows(s: Scan, on: seq<bool>, t: Scan)
    requires on != [] && t.cycle == s.cycle + 1 && t.addr == Stepped(s.addr, s.cycle, on[0])
    ensures Follows(s, on, t, on[1..])
  {
  }

  lemma FollowsOn(s: Scan, on: seq<bool>, t: Scan, rest: seq<bool>, u: Scan, more: seq<bool>)
    requires Follows(s, on, t, rest) && Follows(t, rest, u, more) && t.cycle <= u.cycle
    ensures Follows(s, on, u, more)
  {
    hide AddrAt;
  }

  // ---- what the scan finds ----

  /** A sprite in range: where its bytes begin in OAM, and the dot in which the scan finds it. */
  datatype Pick = Pick(at: nat, dot: nat)

  /** A scan that is not at the start of a sprite stays where it is only behind a sprite in range whose last byte
      looks like one too. */
  function NextOffset(l: Line, k: nat, off: nat): (next: nat)
    requires LineOk(l) && k < 64 && off < 4
    ensures next < 4
  {
    if off > 0 && k < 63 && Hits(l, l.oam[4 * k + off + 3]) then off else 0
  }

  /** What the scan finds from byte `off` of sprite `k` on, in the order of OAM, if it looks there in dot `dot`: a
      sprite in range takes eight dots, any other two. */
  function Picks(l: Line, k: nat, off: nat, dot: nat): (r: seq<Pick>)
    requires LineOk(l) && k <= 64 && off < 4
    ensures |r| <= 64 - k && forall i: nat | i < |r| :: 4 * k <= r[i].at < 256 && r[i].dot >= dot
    decreases 64 - k
  {
    if k == 64 then []
    else if Hits(l, l.oam[4 * k + off]) then
      [Pick(4 * k + off, dot)] + Picks(l, k + 1, NextOffset(l, k, off), dot + 8)
    else Picks(l, k + 1, 0, dot + 2)
  }

  /** The four bytes from `at` on, or as many as there are. */
  predicate SlotHolds(l: Line, soam: seq<Byte>, slot: nat, at: nat)
    requires LineOk(l) && |soam| == 256 && slot < 8 && at < 256
  {
    var n := Min(4, 256 - at);
    soam[4 * slot..4 * slot + n] == l.oam[at..at + n]
  }

  /** The picks that lie in OAM as a whole. */
  function Whole(picks: seq<Pick>): nat {
    if picks == [] then 0 else (if picks[0].at <= 252 then 1 else 0) + Whole(picks[1..])
  }

  /** One of the picks for which there is room is at OAMADDR in the dot in which it is found. */
  predicate SeesZero(picks: seq<Pick>, room: nat, a: Addr, cycle: nat, on: seq<bool>)
    decreases |picks|
  {
    picks != [] && room > 0
    && (picks[0].at == AddrAt(a, cycle, on, picks[0].dot).start || SeesZero(picks[1..], room - 1, a, cycle, on))
  }

  /** Before byte `off` of sprite `k`. */
  predicate AtSprite(l: Line, s: Scan, k: nat, off: nat) {
    && |s.soam| == 256 && s.even && s.count == 0 && s.writing && s.index < 8
    && s.at == 4 * k + off && k <= 64 && off < 4
    && forall j: nat | s.index <= j < 8 :: !Hits(l, s.soam[4 * j])
  }

  /** Nothing changes any more but the overflow flag, and that only if all slots are taken. */
  predicate Settled(s: Scan) {
    |s.soam| == 256 && s.index <= 8 && s.count <= 3 && (!s.writing || s.index == 8)
  }

  /** All slots are taken, and the scan looks for another sprite at byte `off` of sprite `k`. */
  predicate AtFull(s: Scan, k: nat, off: nat) {
    && |s.soam| == 256 && s.even && s.count == 0 && s.writing && s.index == 8
    && s.at == 4 * k + off && k <= 64 && off < 4
  }

  lemma SettledTurn(l: Line, s: Scan, on: bool)
    requires LineOk(l) && Settled(s)
    ensures var t := Turn(l, s, on);
      && Settled(t) && t.soam == s.soam && t.index == s.index && t.zero == s.zero
      && (s.index < 8 || !s.writing || !s.addr.on ==> t.overflow == s.overflow)
      && (s.overflow ==> t.overflow) && (!s.writing ==> !t.writing)
  {
  }

  /** A sprite that is not in range takes two dots, and the next one is looked at from its start. */
  lemma Passed(l: Line, s: Scan, k: nat, off: nat, on0: bool, on1: bool)
    requires LineOk(l) && AtSprite(l, s, k, off) && k < 64 && !Hits(l, l.oam[4 * k + off])
    ensures var t := Pair(l, s, on0, on1);
      && AtSprite(l, t, k + 1, 0) && t.index == s.index && t.zero == s.zero && t.overflow == s.overflow
      && t.soam == s.soam[4 * s.index := l.oam[4 * k + off]] && t.soam[..4 * s.index] == s.soam[..4 * s.index]
  {
  }

  /** Two dots: a byte is read, and used. */
  function Pair(l: Line, s: Scan, on0: bool, on1: bool): (t: Scan)
    requires LineOk(l) && |s.soam| == 256 && s.index <= 8 && s.count <= 3 && s.even
    ensures |t.soam| == 256 && t.index <= 8 && t.count <= 3 && t.even && t.cycle == s.cycle + 2
    ensures t.addr == Stepped(Stepped(s.addr, s.cycle, on0), s.cycle + 1, on1)
  {
    Turn(l, Turn(l, s, on0), on1)
  }

  /** After `c` bytes from place `at` on have been copied. */
  predicate AtByte(l: Line, s: Scan, at: nat, c: nat) {
    && |s.soam| == 256 && s.even && s.count == c && 1 <= c <= 3 && s.writing && s.index < 8 && s.at == at + c
    && forall j: nat | s.index < j < 8 :: !Hits(l, s.soam[4 * j])
  }

  lemma FirstByte(l: Line, s: Scan, k: nat, off: nat, on0: bool, on1: bool)
    requires LineOk(l) && AtSprite(l, s, k, off) && k < 64 && Hits(l, l.oam[4 * k + off])
    ensures var t := Pair(l, s, on0, on1);
      && AtByte(l, t, 4 * k + off, 1) && t.index == s.index && t.overflow == s.overflow
      && t.zero == (s.zero || 4 * k + off == Stepped(s.addr, s.cycle, on0).start)
      && t.soam == s.soam[4 * s.index := l.oam[4 * k + off]]
  {
  }

  lemma NextByte(l: Line, s: Scan, at: nat, c: nat, on0: bool, on1: bool)
    requires LineOk(l) && 1 <= c <= 2 && AtByte(l, s, at, c) && at + c < 256
    ensures var t := Pair(l, s, on0, on1);
      && AtByte(l, t, at, c + 1) && t.index == s.index && t.overflow == s.overflow && t.zero == s.zero
      && t.soam == s.soam[4 * s.index + c := l.oam[at + c]]
  {
  }

  lemma LastByte(l: Line, s: Scan, k: nat, off: nat, on0: bool, on1: bool)
    requires LineOk(l) && off < 4 && k < 64 && (off == 0 || k < 63) && AtByte(l, s, 4 * k + off, 3)
    ensures var t := Pair(l, s, on0, on1);
      var next := NextOffset(l, k, off);
      && (if s.index < 7 then AtSprite(l, t, k + 1, next) else AtFull(t, k + 1, next) && Settled(t))
      && t.index == s.index + 1 && t.overflow == s.overflow && t.zero == s.zero
      && t.soam == s.soam[4 * s.index + 3 := l.oam[4 * k + off + 3]]
  {
    hide Pair, Hits, NextOffset, Aligned;
    LastUsed(l, s, 4 * k + off, on0, on1);
    NextPlace(l, k, off);
  }

  lemma LastUsed(l: Line, s: Scan, at: nat, on0: bool, on1: bool)
    requires LineOk(l) && at <= 252 && AtByte(l, s, at, 3)
    ensures var t := Pair(l, s, on0, on1);
      && t.writing && t.count == 0 && t.index == s.index + 1 && t.overflow == s.overflow && t.zero == s.zero
      && t.at == (if Hits(l, l.oam[at + 3]) then at + 4 else Aligned(at + 4))
      && t.soam == s.soam[4 * s.index + 3 := l.oam[at + 3]]
  {
    hide Hits, Aligned, Stepped;
  }

  lemma NextPlace(l: Line, k: nat, off: nat)
    requires LineOk(l) && off < 4 && k < 64 && (off == 0 || k < 63)
    ensures 4 * (k + 1) + NextOffset(l, k, off)
         == if Hits(l, l.oam[4 * k + off + 3]) then 4 * k + off + 4 else Aligned(4 * k + off + 4)
  {
    hide Hits;
  }

  /** As many dots as there are levels. */
  function Turns(l: Line, s: Scan, on: seq<bool>): (r: Scan)
    requires LineOk(l) && |s.soam| == 256 && s.index <= 8 && s.count <= 3
    ensures |r.soam| == 256 && r.index <= 8 && r.count <= 3
    decreases |on|
  {
    if on == [] then s else Turns(l, Turn(l, s, on[0]), on[1..])
  }

  lemma TwoTurns(l: Line, s: Scan, on: seq<bool>)
    requires LineOk(l) && |s.soam| == 256 && s.index <= 8 && s.count <= 3 && s.even && |on| >= 2
    ensures var t := Pair(l, s, on[0], on[1]);
      && |t.soam| == 256 && t.index <= 8 && t.count <= 3 && Turns(l, s, on) == Turns(l, t, on[2..])
      && Follows(s, on, t, on[2..])
  {
    hide Turn, Follows, Stepped;
    assert on[1..][1..] == on[2..];
    assert on[1..][0] == on[1];
    var t := Turn(l, s, on[0]);
    var u := Turn(l, t, on[1]);
    TurnFollows(s, on, t);
    TurnFollows(t, on[1..], u);
    FollowsOn(s, on, t, on[1..], u, on[2..]);
  }

  /** Eight dots. */
  function FourPairs(l: Line, s: Scan, on: seq<bool>): (t: Scan)
    requires LineOk(l) && |s.soam| == 256 && s.index <= 8 && s.count <= 3 && s.even && |on| >= 8
    ensures |t.soam| == 256 && t.index <= 8 && t.count <= 3 && t.even && t.cycle == s.cycle + 8
  {
    Pair(l, Pair(l, Pair(l, Pair(l, s, on[0], on[1]), on[2], on[3]), on[4], on[5]), on[6], on[7])
  }

  lemma EightTurns(l: Line, s: Scan, on: seq<bool>)
    requires LineOk(l) && |s.soam| == 256 && s.index <= 8 && s.count <= 3 && s.even && |on| >= 8
    ensures Turns(l, s, on) == Turns(l, FourPairs(l, s, on), on[8..])
    ensures Follows(s, on, FourPairs(l, s, on), on[8..])
  {
    hide Pair, Turns, Follows, Stepped;
    TwoTurns(l, s, on);
    var s1 := Pair(l, s, on[0], on[1]);
    TwoTurns(l, s1, on[2..]);
    assert on[2..][2..] == on[4..];
    var s2 := Pair(l, s1, on[2], on[3]);
    TwoTurns(l, s2, on[4..]);
    assert on[4..][2..] == on[6..];
    var s3 := Pair(l, s2, on[4], on[5]);
    TwoTurns(l, s3, on[6..]);
    assert on[6..][2..] == on[8..];
    var s4 := Pair(l, s3, on[6], on[7]);
    FollowsOn(s, on, s1, on[2..], s2, on[4..]);
    FollowsOn(s, on, s2, on[4..], s3, on[6..]);
    FollowsOn(s, on, s3, on[6..], s4, on[8..]);
  }

  /** A sprite that is in range is copied in eight dots. */
  lemma Copied(l: Line, s: Scan, k: nat, off: nat, on: seq<bool>)
    requires LineOk(l) && AtSprite(l, s, k, off) && k < 64 && (off == 0 || k < 63)
    requires Hits(l, l.oam[4 * k + off]) && |on| >= 8
    ensures s.index < 8 && off < 4
    ensures var t := FourPairs(l, s, on);
      var next := NextOffset(l, k, off);
      && t.index == s.index + 1
      && (if s.index < 7 then AtSprite(l, t, k + 1, next) else AtFull(t, k + 1, next) && Settled(t))
      && t.overflow == s.overflow
      && t.zero == (s.zero || 4 * k + off == Stepped(s.addr, s.cycle, on[0]).start)
      && SlotHolds(l, t.soam, s.index, 4 * k + off) && t.soam[..4 * s.index] == s.soam[..4 * s.index]
  {
    hide Pair, AtSprite, AtByte, AtFull, Settled, SlotHolds, Hits, NextOffset, Stepped, LineOk;
    LineSize(l);
    Fits(l, s, k, off);
    var at := 4 * k + off;
    CopiedTwo(l, s, k, off, on);
    var s2 := Pair(l, Pair(l, s, on[0], on[1]), on[2], on[3]);
    NextByte(l, s2, at, 2, on[4], on[5]);
    var s3 := Pair(l, s2, on[4], on[5]);
    LastByte(l, s3, k, off, on[6], on[7]);
    SlotWritten(l, s.soam, s2.soam, s3.soam, Pair(l, s3, on[6], on[7]).soam, s.index, at);
  }

  lemma CopiedTwo(l: Line, s: Scan, k: nat, off: nat, on: seq<bool>)
    requires LineOk(l) && AtSprite(l, s, k, off) && k < 64 && (off == 0 || k < 63)
    requires Hits(l, l.oam[4 * k + off]) && |on| >= 4
    ensures |s.soam| == 256 && s.even && s.index < 8 && s.count <= 3 && off < 4
    ensures var t := Pair(l, Pair(l, s, on[0], on[1]), on[2], on[3]);
      && AtByte(l, t, 4 * k + off, 2) && t.index == s.index && t.overflow == s.overflow
      && t.zero == (s.zero || 4 * k + off == Stepped(s.addr, s.cycle, on[0]).start)
      && t.soam == s.soam[4 * s.index := l.oam[4 * k + off]][4 * s.index + 1 := l.oam[4 * k + off + 1]]
  {
    hide Pair, AtSprite, AtByte, Hits, Stepped, LineOk;
    LineSize(l);
    Fits(l, s, k, off);
    FirstByte(l, s, k, off, on[0], on[1]);
    NextByte(l, Pair(l, s, on[0], on[1]), 4 * k + off, 1, on[2], on[3]);
  }

  lemma LineSize(l: Line)
    requires LineOk(l)
    ensures |l.oam| == 256
  {
  }

  lemma SlotWritten(l: Line, u: seq<Byte>, u2: seq<Byte>, u3: seq<Byte>, u4: seq<Byte>, slot: nat, at: nat)
    requires LineOk(l) && |u| == 256 && slot < 8 && at <= 252
    requires u2 == u[4 * slot := l.oam[at]][4 * slot + 1 := l.oam[at + 1]]
    requires u3 == u2[4 * slot + 2 := l.oam[at + 2]] && u4 == u3[4 * slot + 3 := l.oam[at + 3]]
    ensures SlotHolds(l, u4, slot, at) && u4[..4 * slot] == u[..4 * slot]
  {
    FourBytes(u, 4 * slot, l.oam, at);
  }

  lemma FourBytes(u: seq<Byte>, i: nat, v: seq<Byte>, k: nat)
    requires i + 4 <= |u| && k + 4 <= |v|
    ensures var w := u[i := v[k]][i + 1 := v[k + 1]][i + 2 := v[k + 2]][i + 3 := v[k + 3]];
      w[i..i + 4] == v[k..k + 4] && w[..i] == u[..i]
  {
  }

  lemma Fits(l: Line, s: Scan, k: nat, off: nat)
    requires AtSprite(l, s, k, off)
    ensures |s.soam| == 256 && s.index < 8 && s.count == 0 && s.even && s.writing && s.at == 4 * k + off
    ensures k <= 64 && off < 4
  {
  }

  function Min(a: nat, b: nat): nat { if a < b then a else b }

  /** The slots from `s.index` on hold the picks, as far as there is room; the slots before are as they were,
      and a slot beyond them holds no sprite that is in range. */
  predicate Holds(l: Line, before: Scan, after: Scan, picks: seq<Pick>)
    requires LineOk(l) && |before.soam| == 256 && |after.soam| == 256 && before.index <= 8
    requires forall i: nat | i < |picks| :: picks[i].at < 256
  {
    var m := Min(8 - before.index, |picks|);
    && after.index == before.index + Min(8 - before.index, Whole(picks))
    && after.soam[..4 * before.index] == before.soam[..4 * before.index]
    && (forall i: nat | i < m :: SlotHolds(l, after.soam, before.index + i, picks[i].at))
    && (forall j: nat | before.index + m <= j < 8 :: !Hits(l, after.soam[4 * j]))
    && (|picks| < 8 - before.index ==> after.overflow == before.overflow)
  }

  /** What the scan from byte `off` of sprite `k` on finds. */
  predicate Finds(l: Line, before: Scan, after: Scan, k: nat, off: nat, on: seq<bool>)
    requires LineOk(l) && |before.soam| == 256 && |after.soam| == 256 && before.index <= 8 && k <= 64 && off < 4
  {
    var picks := Picks(l, k, off, before.cycle + 1);
    && Holds(l, before, after, picks)
    && after.zero == (before.zero || SeesZero(picks, 8 - before.index, before.addr, before.cycle, on))
  }

  /** The scan from byte `off` of sprite `k` on, with enough dots left. */
  lemma {:induction false} ScanFrom(l: Line, s: Scan, k: nat, off: nat, on: seq<bool>)
    requires LineOk(l) && AtSprite(l, s, k, off)
    requires |on| >= 2 * (64 - k) + 6 * (8 - s.index) + 2
    ensures |s.soam| == 256 && s.index < 8 && s.count <= 3 && k <= 64 && off < 4
    ensures Finds(l, s, Turns(l, s, on), k, off, on)
    decreases 64 - k
  {
    hide Pair, AtSprite, Turns, Settled, Hits, FourPairs, SlotHolds, Finds, Holds, NextOffset, Follows, Stepped;
    Fits(l, s, k, off);
    if k == 64 {
      ScanEnds(l, s, off, on);
    } else if !Hits(l, l.oam[4 * k + off]) {
      Passed(l, s, k, off, on[0], on[1]);
      TwoTurns(l, s, on);
      var t := Pair(l, s, on[0], on[1]);
      ScanFrom(l, t, k + 1, 0, on[2..]);
      PassedFinds(l, s, t, Turns(l, s, on), k, off, on);
    } else if off > 0 && k == 63 {
      CutShort(l, s, off, on);
    } else {
      Copied(l, s, k, off, on);
      EightTurns(l, s, on);
      var t := FourPairs(l, s, on);
      if s.index < 7 {
        ScanFrom(l, t, k + 1, NextOffset(l, k, off), on[8..]);
      } else {
        SettledTurns(l, t, on[8..]);
      }
      PickedFinds(l, s, t, Turns(l, s, on), k, off, on);
    }
  }

  lemma {:induction false} SeesSame(picks: seq<Pick>, room: nat, s: Scan, on: seq<bool>, t: Scan, rest: seq<bool>)
    requires Follows(s, on, t, rest) && forall i: nat | i < |picks| :: picks[i].dot >= t.cycle
    ensures SeesZero(picks, room, s.addr, s.cycle, on) == SeesZero(picks, room, t.addr, t.cycle, rest)
    decreases |picks|
  {
    hide AddrAt;
    if picks != [] && room > 0 { SeesSame(picks[1..], room - 1, s, on, t, rest); }
  }

  lemma AddrNow(a: Addr, cycle: nat, on: seq<bool>)
    requires on != []
    ensures AddrAt(a, cycle, on, cycle + 1) == Stepped(a, cycle, on[0])
  {
  }

  lemma PickedFinds(l: Line, s: Scan, t: Scan, r: Scan, k: nat, off: nat, on: seq<bool>)
    requires LineOk(l) && k < 64 && off < 4 && (off == 0 || k < 63) && s.index < 8 && t.index == s.index + 1
    requires Hits(l, l.oam[4 * k + off]) && |on| >= 8 && t.cycle == s.cycle + 8 && Follows(s, on, t, on[8..])
    requires |s.soam| == 256 && |t.soam| == 256 && |r.soam| == 256 && t.overflow == s.overflow
    requires SlotHolds(l, t.soam, s.index, 4 * k + off) && t.soam[..4 * s.index] == s.soam[..4 * s.index]
    requires t.zero == (s.zero || 4 * k + off == Stepped(s.addr, s.cycle, on[0]).start)
    requires if s.index < 7 then Finds(l, t, r, k + 1, NextOffset(l, k, off), on[8..])
             else r.soam == t.soam && r.index == t.index && r.zero == t.zero
    ensures Finds(l, s, r, k, off, on)
  {
    hide Hits, SlotHolds, Holds, Follows, Stepped, NextOffset, AddrAt, SeesZero;
    var rest := Picks(l, k + 1, NextOffset(l, k, off), s.cycle + 9);
    var p := Pick(4 * k + off, s.cycle + 1);
    HoldsPicked(l, s, t, r, p, rest);
    AddrNow(s.addr, s.cycle, on);
    SeesFirst(p, rest, 8 - s.index, s.addr, s.cycle, on);
    SeesSame(rest, 7 - s.index, s, on, t, on[8..]);
    NoRoom(rest, s.addr, s.cycle, on);
  }

  lemma SeesFirst(p: Pick, rest: seq<Pick>, room: nat, a: Addr, cycle: nat, on: seq<bool>)
    requires room > 0
    ensures SeesZero([p] + rest, room, a, cycle, on)
        == (p.at == AddrAt(a, cycle, on, p.dot).start || SeesZero(rest, room - 1, a, cycle, on))
  {
    assert ([p] + rest)[1..] == rest;
  }

  lemma NoRoom(picks: seq<Pick>, a: Addr, cycle: nat, on: seq<bool>)
    ensures !SeesZero(picks, 0, a, cycle, on)
  {
  }

  lemma PassedFinds(l: Line, s: Scan, t: Scan, r: Scan, k: nat, off: nat, on: seq<bool>)
    requires LineOk(l) && k < 64 && off < 4 && s.index < 8 && t.index == s.index && !Hits(l, l.oam[4 * k + off])
    requires |on| >= 2 && t.cycle == s.cycle + 2 && Follows(s, on, t, on[2..])
    requires |s.soam| == 256 && |t.soam| == 256 && |r.soam| == 256 && t.overflow == s.overflow
    requires t.soam[..4 * s.index] == s.soam[..4 * s.index] && t.zero == s.zero
    requires Finds(l, t, r, k + 1, 0, on[2..])
    ensures Finds(l, s, r, k, off, on)
  {
    hide Hits, SlotHolds, Follows, SeesZero, AddrAt, Holds, Picks;
    var picks := Picks(l, k + 1, 0, s.cycle + 3);
    PicksStep(l, k, off, s.cycle + 1);
    HoldsPassed(l, s, t, r, picks);
    SeesSame(picks, 8 - s.index, s, on, t, on[2..]);
  }

  lemma HoldsPassed(l: Line, s: Scan, t: Scan, r: Scan, picks: seq<Pick>)
    requires LineOk(l) && s.index < 8 && t.index == s.index && t.overflow == s.overflow
    requires forall i: nat | i < |picks| :: picks[i].at < 256
    requires |s.soam| == 256 && |t.soam| == 256 && |r.soam| == 256
    requires t.soam[..4 * s.index] == s.soam[..4 * s.index] && Holds(l, t, r, picks)
    ensures Holds(l, s, r, picks)
  {
    hide Hits, SlotHolds;
  }

  lemma HoldsPicked(l: Line, s: Scan, t: Scan, r: Scan, p: Pick, rest: seq<Pick>)
    requires LineOk(l) && p.at <= 252 && s.index < 8 && t.index == s.index + 1
    requires forall i: nat | i < |rest| :: rest[i].at < 256
    requires |s.soam| == 256 && |t.soam| == 256 && |r.soam| == 256 && t.overflow == s.overflow
    requires SlotHolds(l, t.soam, s.index, p.at) && t.soam[..4 * s.index] == s.soam[..4 * s.index]
    requires if s.index < 7 then Holds(l, t, r, rest) else r.soam == t.soam && r.index == t.index
    ensures Holds(l, s, r, [p] + rest)
  {
    hide Hits, SlotHolds;
    assert ([p] + rest)[1..] == rest;
    assert r.soam[..4 * t.index] == t.soam[..4 * t.index];
    PrefixSlot(t.soam, r.soam, s.index);
    SlotSame(l, t.soam, r.soam, s.index, p.at);
    forall i: nat | i < Min(8 - s.index, 1 + |rest|) ensures SlotHolds(l, r.soam, s.index + i, ([p] + rest)[i].at) {
      if i > 0 {
        RestSlot(l, t, r, rest, i - 1);
      }
    }
  }

  lemma RestSlot(l: Line, t: Scan, r: Scan, rest: seq<Pick>, i: nat)
    requires LineOk(l) && |t.soam| == 256 && |r.soam| == 256 && t.index < 8
    requires (forall i: nat | i < |rest| :: rest[i].at < 256) && Holds(l, t, r, rest) && i < Min(8 - t.index, |rest|)
    ensures SlotHolds(l, r.soam, t.index + i, rest[i].at)
  {
    hide Hits, SlotHolds;
  }

  lemma SlotSame(l: Line, u: seq<Byte>, v: seq<Byte>, slot: nat, at: nat)
    requires LineOk(l) && |u| == |v| == 256 && slot < 8 && at < 256 && SlotHolds(l, u, slot, at)
    requires u[4 * slot..4 * slot + 4] == v[4 * slot..4 * slot + 4]
    ensures SlotHolds(l, v, slot, at)
  {
    var n := Min(4, 256 - at);
    assert u[4 * slot..4 * slot + n] == u[4 * slot..4 * slot + 4][..n];
    assert v[4 * slot..4 * slot + n] == v[4 * slot..4 * slot + 4][..n];
  }

  lemma PrefixSlot<T>(u: seq<T>, v: seq<T>, slot: nat)
    requires |u| == |v| && 4 * slot + 4 <= |u| && v[..4 * (slot + 1)] == u[..4 * (slot + 1)]
    ensures v[..4 * slot] == u[..4 * slot] && u[4 * slot..4 * slot + 4] == v[4 * slot..4 * slot + 4]
  {
    assert v[..4 * slot] == v[..4 * (slot + 1)][..4 * slot];
    assert u[..4 * slot] == u[..4 * (slot + 1)][..4 * slot];
    assert v[4 * slot..4 * slot + 4] == v[..4 * (slot + 1)][4 * slot..];
    assert u[4 * slot..4 * slot + 4] == u[..4 * (slot + 1)][4 * slot..];
  }

  // ---- a sprite that OAM cuts short ----

  /** The slot that is being filled when the scan comes to the end of OAM. */
  predicate CutSlot(l: Line, before: Scan, after: Scan, at: nat)
    requires LineOk(l) && |before.soam| == 256 && |after.soam| == 256 && before.index < 8 && at < 256
  {
    && after.index == before.index && after.overflow == before.overflow
    && after.soam[..4 * before.index] == before.soam[..4 * before.index]
    && SlotHolds(l, after.soam, before.index, at)
    && forall j: nat | before.index < j < 8 :: !Hits(l, after.soam[4 * j])
  }

  /** With the place past OAM the scan stops copying. */
  lemma {:induction false} StopsThere(l: Line, s: Scan, on: seq<bool>)
    requires LineOk(l) && |s.soam| == 256 && s.index < 8 && s.count <= 3 && s.even && s.at >= 256 && on != []
    ensures var r := Turns(l, s, on);
      r.soam == s.soam && r.index == s.index && r.zero == s.zero && r.overflow == s.overflow
  {
    var t := Turn(l, s, on[0]);
    assert Settled(t) && t.soam == s.soam && t.index == s.index && t.zero == s.zero && t.overflow == s.overflow;
    SettledTurns(l, t, on[1..]);
  }

  /** A sprite that begins in the last three bytes of OAM loses its end, and its slot is not counted. */
  lemma CutEnds(l: Line, s: Scan, off: nat, on: seq<bool>)
    requires LineOk(l) && AtSprite(l, s, 63, off) && off > 0 && Hits(l, l.oam[252 + off]) && |on| >= 10
    ensures |s.soam| == 256 && s.index < 8 && s.count <= 3 && off < 4
    ensures var r := Turns(l, s, on);
      CutSlot(l, s, r, 252 + off) && r.overflow == s.overflow
      && r.zero == (s.zero || 252 + off == Stepped(s.addr, s.cycle, on[0]).start)
  {
    hide Pair, AtSprite, AtByte, Turns, Hits, Follows, Stepped, CutSlot, CopiedBytes;
    Fits(l, s, 63, off);
    FirstByte(l, s, 63, off, on[0], on[1]);
    TwoTurns(l, s, on);
    CopiedFirst(l, s.soam, 4 * s.index, 252 + off);
    CutFrom(l, s, Pair(l, s, on[0], on[1]), 252 + off, 1, on[2..]);
  }

  /** The bytes that are left, and the end of OAM. */
  lemma {:induction false} CutFrom(l: Line, s: Scan, u: Scan, at: nat, c: nat, on: seq<bool>)
    requires LineOk(l) && |s.soam| == 256 && |u.soam| == 256 && s.index < 8 && AtByte(l, u, at, c)
    requires 253 <= at && at + c <= 256 && CopiedBytes(l, s.soam, u.soam, 4 * s.index, at, c)
    requires u.index == s.index && u.overflow == s.overflow && |on| >= 2 * (256 - at - c) + 1
    ensures u.count <= 3
    ensures var r := Turns(l, u, on); CutSlot(l, s, r, at) && r.overflow == s.overflow && r.zero == u.zero
    decreases 256 - at - c
  {
    hide Pair, AtByte, Turns, Hits, Follows, Stepped, CutSlot, CopiedBytes;
    ByteFits(l, u, at, c);
    if at + c == 256 {
      StopsThere(l, u, on);
      SlotCut(l, s, u, Turns(l, u, on), at);
    } else {
      NextByte(l, u, at, c, on[0], on[1]);
      TwoTurns(l, u, on);
      CopiedNext(l, s.soam, u.soam, 4 * s.index, at, c);
      CutFrom(l, s, Pair(l, u, on[0], on[1]), at, c + 1, on[2..]);
    }
  }

  lemma CutShort(l: Line, s: Scan, off: nat, on: seq<bool>)
    requires LineOk(l) && AtSprite(l, s, 63, off) && off > 0 && Hits(l, l.oam[252 + off]) && |on| >= 10
    ensures |s.soam| == 256 && s.index < 8 && s.count <= 3 && off < 4
    ensures Finds(l, s, Turns(l, s, on), 63, off, on)
  {
    hide AtSprite, Turns, Hits, Stepped, CutSlot, Finds;
    CutEnds(l, s, off, on);
    CutFinds(l, s, Turns(l, s, on), off, on);
  }

  lemma ByteFits(l: Line, s: Scan, at: nat, c: nat)
    requires AtByte(l, s, at, c)
    ensures |s.soam| == 256 && s.even && 1 <= c == s.count <= 3 && s.index < 8 && s.at == at + c
    ensures forall j: nat | s.index < j < 8 :: !Hits(l, s.soam[4 * j])
  {
    hide Hits;
  }

  lemma SlotCut(l: Line, s: Scan, u: Scan, r: Scan, at: nat)
    requires LineOk(l) && 253 <= at < 256 && |s.soam| == 256 && |u.soam| == 256 && s.index < 8
    requires u.index == s.index && u.overflow == s.overflow && r.index == u.index && r.overflow == u.overflow
    requires CopiedBytes(l, s.soam, u.soam, 4 * s.index, at, 256 - at) && r.soam == u.soam
    requires forall j: nat | s.index < j < 8 :: !Hits(l, r.soam[4 * j])
    ensures |r.soam| == 256 && CutSlot(l, s, r, at)
  {
    hide Hits;
  }

  /** `n` bytes from place `at` on have been copied to place `i`. */
  predicate CopiedBytes(l: Line, u: seq<Byte>, v: seq<Byte>, i: nat, at: nat, n: nat)
    requires LineOk(l) && |u| == |v| == 256
  {
    i + n <= 256 && at + n <= 256 && v[..i] == u[..i] && v[i..i + n] == l.oam[at..at + n]
  }

  lemma CopiedFirst(l: Line, u: seq<Byte>, i: nat, at: nat)
    requires LineOk(l) && |u| == 256 && i < 256 && at < 256
    ensures CopiedBytes(l, u, u[i := l.oam[at]], i, at, 1)
  {
  }

  lemma CopiedNext(l: Line, u: seq<Byte>, v: seq<Byte>, i: nat, at: nat, n: nat)
    requires LineOk(l) && |u| == |v| == 256 && CopiedBytes(l, u, v, i, at, n) && i + n < 256 && at + n < 256
    ensures CopiedBytes(l, u, v[i + n := l.oam[at + n]], i, at, n + 1)
  {
    var w := v[i + n := l.oam[at + n]];
    assert w[i..i + n + 1] == v[i..i + n] + [l.oam[at + n]];
    assert l.oam[at..at + n + 1] == l.oam[at..at + n] + [l.oam[at + n]];
  }

  lemma CutFinds(l: Line, s: Scan, r: Scan, off: nat, on: seq<bool>)
    requires LineOk(l) && 1 <= off <= 3 && Hits(l, l.oam[252 + off]) && on != []
    requires |s.soam| == 256 && |r.soam| == 256 && s.index < 8 && CutSlot(l, s, r, 252 + off)
    requires r.zero == (s.zero || 252 + off == Stepped(s.addr, s.cycle, on[0]).start)
    ensures Finds(l, s, r, 63, off, on)
  {
    hide Hits, SlotHolds, Stepped, AddrAt;
    var p := Pick(252 + off, s.cycle + 1);
    assert Picks(l, 63, off, s.cycle + 1) == [p] by { assert [p] + [] == [p]; }
    AddrNow(s.addr, s.cycle, on);
    assert [p][1..] == [];
    assert Whole([p]) == 0;
    assert SeesZero([p], 8 - s.index, s.addr, s.cycle, on) == (p.at == AddrAt(s.addr, s.cycle, on, p.dot).start);
    assert Holds(l, s, r, [p]);
  }

  lemma {:induction false} SettledTurns(l: Line, s: Scan, on: seq<bool>)
    requires LineOk(l) && Settled(s)
    ensures |s.soam| == 256 && s.index <= 8 && s.count <= 3
    ensures var r := Turns(l, s, on);
      r.soam == s.soam && r.index == s.index && r.zero == s.zero && (s.index < 8 ==> r.overflow == s.overflow)
    decreases |on|
  {
    hide Turn;
    if on != [] {
      SettledTurn(l, s, on[0]);
      SettledTurns(l, Turn(l, s, on[0]), on[1..]);
    }
  }

  /** Past the last sprite the scan stops copying. */
  lemma ScanEnds(l: Line, s: Scan, off: nat, on: seq<bool>)
    requires LineOk(l) && AtSprite(l, s, 64, off) && |on| >= 1
    ensures |s.soam| == 256 && s.index < 8 && s.count <= 3 && off < 4
    ensures Finds(l, s, Turns(l, s, on), 64, off, on)
  {
    hide Hits, Turns;
    StopsThere(l, s, on);
    assert Picks(l, 64, off, s.cycle + 1) == [];
  }

  // ---- the whole line ----

  lemma {:induction false} Cleared(l: Line, s: Scan, on: seq<bool>, rest: seq<bool>)
    requires LineOk(l) && Ready(s) && |on| <= 64 && s.cycle + |on| <= 64
    requires forall i: nat | i < s.cycle / 2 :: s.soam[i] == 0xFF
    ensures var r := Dots(l, s, on);
      && r.cycle == s.cycle + |on| && r.zero == s.zero && r.overflow == s.overflow
      && (forall i: nat | i < r.cycle / 2 :: r.soam[i] == 0xFF)
      && Follows(s, on + rest, r, rest) && (on != [] ==> r.addr.on == r.addr.was == on[|on| - 1])
    decreases |on|
  {
    hide Follows;
    if on != [] {
      var t := Dot(l, s, on[0]);
      Cleared(l, t, on[1..], rest);
      assert (on + rest)[1..] == on[1..] + rest;
      TurnFollows(s, on + rest, t);
      FollowsOn(s, on + rest, t, on[1..] + rest, Dots(l, s, on), rest);
    } else {
      SelfFollows(s, rest);
      assert on + rest == rest;
    }
  }

  lemma SelfFollows(s: Scan, on: seq<bool>)
    ensures Follows(s, on, s, on)
  {
  }

  lemma {:induction false} DotsJoin(l: Line, s: Scan, a: seq<bool>, b: seq<bool>)
    requires LineOk(l) && Ready(s)
    ensures Dots(l, s, a + b) == Dots(l, Dots(l, s, a), b)
    decreases |a|
  {
    hide Dot, Ready;
    if a == [] {
      assert a + b == b;
    } else {
      DotReady(l, s, a[0]);
      assert (a + b)[0] == a[0] && (a + b)[1..] == a[1..] + b;
      DotsJoin(l, Dot(l, s, a[0]), a[1..], b);
    }
  }

  /** After the 64th dot, dots are turns. */
  lemma {:induction false} DotsAreTurns(l: Line, s: Scan, on: seq<bool>)
    requires LineOk(l) && Ready(s) && s.cycle >= 64 && on != []
    ensures |s.soam| == 256
    ensures Dots(l, s, on) == Turns(l, if s.cycle == 64 then s.(index := 0, at := s.addr.start) else s, on)
    decreases |on|
  {
    hide ScanDot, Stepped;
    DotReady(l, s, on[0]);
    var t := Dot(l, s, on[0]);
    assert t.cycle == s.cycle + 1;
    if on[1..] != [] {
      DotsAreTurns(l, t, on[1..]);
    }
  }

  lemma NothingHits(l: Line, s: Scan)
    requires LineOk(l) && |s.soam| == 256 && forall i: nat | i < 32 :: s.soam[i] == 0xFF
    ensures forall j: nat | j < 8 :: !Hits(l, s.soam[4 * j])
  {
  }

  /** OAMADDR before each dot, and at the end of a line. */
  lemma {:induction false} LineAddr(l: Line, s: Scan, on: seq<bool>)
    requires LineOk(l) && |s.soam| == 256 && s.addr.start < 256 && |on| == 256
    ensures forall dot: nat :: AddrAt(s.addr, 0, on, dot).start == OamAddr(s.addr.start, on, dot)
    ensures forall dot: nat | 1 <= dot <= 256 :: AddrAt(s.addr, 0, on, dot).on == on[dot - 1]
  {
    assert on[0..] == on;
    forall dot: nat
      ensures AddrAt(s.addr, 0, on, dot).start == OamAddr(s.addr.start, on, dot)
      ensures 1 <= dot <= 256 ==> AddrAt(s.addr, 0, on, dot).on == on[dot - 1]
    {
      AddrAtFalls(s.addr, 0, on, dot);
      FallsLate(on, 0, dot);
      if 1 <= dot <= 256 { LevelAt(s.addr, 0, on, dot); }
    }
  }

  /** Where the scan stands at dot 64. */
  lemma ScanStarts(l: Line, s: Scan, on: seq<bool>) returns (t: Scan)
    requires LineOk(l) && |s.soam| == 256 && s.addr.start < 256 && |on| == 256
    ensures var start := OamAddr(s.addr.start, on, 64);
      && AtSprite(l, t, start / 4, start % 4) && t.index == 0 && t.cycle == 64 && t.zero == false
      && t.overflow == s.overflow && t.addr.on == t.addr.was == on[63] && t.addr.start == start
      && |t.soam| == 256 && t.count <= 3 && Dots(l, Begun(s), on) == Turns(l, t, on[64..])
      && Follows(Begun(s), on, t, on[64..])
  {
    hide Dot, Dots, Turns, Turn, Hits, Follows, OamAddr, AddrAt;
    var a, b := on[..64], on[64..];
    assert on == a + b;
    DotsJoin(l, Begun(s), a, b);
    Cleared(l, Begun(s), a, b);
    var m := Dots(l, Begun(s), a);
    DotsAreTurns(l, m, b);
    t := m.(index := 0, at := m.addr.start);
    NothingHits(l, t);
    LineAddr(l, s, on);
    AddrHere(Begun(s), on, m, b);
    FollowsSame(Begun(s), on, m, t, b);
  }

  lemma FollowsSame(s: Scan, on: seq<bool>, t: Scan, u: Scan, rest: seq<bool>)
    requires Follows(s, on, t, rest) && u.addr == t.addr && u.cycle == t.cycle
    ensures Follows(s, on, u, rest)
  {
    hide AddrAt;
  }

  lemma AddrHere(s: Scan, on: seq<bool>, t: Scan, rest: seq<bool>)
    requires Follows(s, on, t, rest)
    ensures AddrAt(s.addr, s.cycle, on, t.cycle) == t.addr
  {
  }

  lemma AddrAtEnd(l: Line, s: Scan, on: seq<bool>)
    requires LineOk(l) && |s.soam| == 256 && s.addr.start < 256 && |on| == 256
    ensures Dots(l, Begun(s), on).addr.start == OamAddr(s.addr.start, on, 256)
  {
    hide Dots, Turns, Turn, Follows, OamAddr, AddrAt, AtSprite;
    var t := ScanStarts(l, s, on);
    TurnsFollow(l, t, on[64..]);
    var r := Turns(l, t, on[64..]);
    FollowsOn(Begun(s), on, t, on[64..], r, []);
    AddrHere(Begun(s), on, r, []);
    LineAddr(l, s, on);
  }

  lemma {:induction false} TurnsFollow(l: Line, s: Scan, on: seq<bool>)
    requires LineOk(l) && |s.soam| == 256 && s.index <= 8 && s.count <= 3
    ensures var r := Turns(l, s, on); r.cycle == s.cycle + |on| && Follows(s, on, r, [])
    decreases |on|
  {
    hide Turn, Follows, Stepped;
    if on == [] {
      SelfFollows(s, on);
    } else {
      var t := Turn(l, s, on[0]);
      TurnFollows(s, on, t);
      TurnsFollow(l, t, on[1..]);
      FollowsOn(s, on, t, on[1..], Turns(l, t, on[1..]), []);
    }
  }

  lemma {:induction false} SeesZeroIs(picks: seq<Pick>, room: nat, a: Addr, cycle: nat, on: seq<bool>)
    ensures SeesZero(picks, room, a, cycle, on)
       <==> exists i: nat :: i < Min(room, |picks|) && picks[i].at == AddrAt(a, cycle, on, picks[i].dot).start
    decreases |picks|
  {
    hide AddrAt;
    if picks != [] && room > 0 {
      SeesZeroIs(picks[1..], room - 1, a, cycle, on);
      var rest := picks[1..];
      if i: nat :| i < Min(room - 1, |rest|) && rest[i].at == AddrAt(a, cycle, on, rest[i].dot).start {
        assert picks[i + 1] == rest[i];
      }
      if i: nat :| i < Min(room, |picks|) && picks[i].at == AddrAt(a, cycle, on, picks[i].dot).start {
        if i > 0 { assert rest[i - 1] == picks[i]; }
      }
    }
  }

  /** For any OAMADDR and any levels of the rendering enable: the slots hold the first eight sprites that the scan
      finds, in the order of OAM from where OAMADDR is at dot 64; a slot that is left over holds nothing in range;
      sprite zero is reported exactly if one of them is found at a place that is OAMADDR just then; and with fewer
      than eight found the overflow flag is as it was. */
  lemma EvaluationIsFilter(l: Line, s: Scan, on: seq<bool>)
    requires LineOk(l) && |s.soam| == 256 && s.addr.start < 256 && |on| == 256
    ensures var r := Dots(l, Begun(s), on);
      var start := OamAddr(s.addr.start, on, 64);
      var picks := Picks(l, start / 4, start % 4, 65);
      && (forall i: nat | i < Min(8, |picks|) :: SlotHolds(l, r.soam, i, picks[i].at))
      && (forall j: nat | |picks| <= j < 8 :: !Hits(l, r.soam[4 * j]))
      && (r.zero <==> exists i: nat ::
            i < Min(8, |picks|) && picks[i].at == OamAddr(s.addr.start, on, picks[i].dot))
      && (|picks| < 8 ==> r.overflow == s.overflow)
      && r.index == Min(8, Whole(picks))
  {
    hide Dot, Dots, Turns, Turn, SlotHolds, Picks, Hits, AtSprite, OamAddr, AddrAt, SeesZero, Follows, Whole;
    var t := ScanStarts(l, s, on);
    var start := OamAddr(s.addr.start, on, 64);
    ScanFrom(l, t, start / 4, start % 4, on[64..]);
    var picks := Picks(l, start / 4, start % 4, 65);
    SeesSame(picks, 8, Begun(s), on, t, on[64..]);
    SeesZeroIs(picks, 8, s.addr, 0, on);
    LineAddr(l, s, on);
  }

  // ---- OAMADDR at a sprite ----

  /** A sprite shows on the 8 or 16 lines that follow the one its first byte names; the line that is prepared is the one
      after `yp`. */
  predicate Shows(l: Line, y: Byte) {
    var line := l.yp + 1;
    y as int + 1 <= line <= y as int + l.height
  }

  lemma HitsShows(l: Line, y: Byte)
    ensures Hits(l, y) == Shows(l, y)
  {
  }

  /** The sprites from `a` up to `b` that show on the line, in the order of OAM. */
  function InRange(l: Line, a: nat, b: nat): (r: seq<nat>)
    requires LineOk(l) && a <= b <= 64
    ensures |r| <= b - a && forall i: nat | i < |r| :: a <= r[i] < b
    decreases b - a
  {
    if a == b then [] else (if Shows(l, l.oam[4 * a]) then [a] else []) + InRange(l, a + 1, b)
  }

  /** From the start of a sprite on, the scan finds the sprites that are in range, the i-th of them in the dot that
      follows from how many there are before it. */
  lemma {:induction false} PicksInRange(l: Line, k: nat, dot: nat)
    requires LineOk(l) && k <= 64
    ensures var picks := Picks(l, k, 0, dot);
      ArePicks(picks, InRange(l, k, 64), k, dot) && Whole(picks) == |picks|
    decreases 64 - k
  {
    hide Hits, Shows, Whole, ArePicks;
    InRangeIs(l, k);
    if k < 64 { HitsShows(l, l.oam[4 * k]); }
    if k == 64 {
      NoPicks(dot);
    } else if Hits(l, l.oam[4 * k]) {
      PicksInRange(l, k + 1, dot + 8);
      OnePick(Picks(l, k + 1, 0, dot + 8), InRange(l, k + 1, 64), k, dot);
    } else {
      PicksInRange(l, k + 1, dot + 2);
      LaterPicks(Picks(l, k + 1, 0, dot + 2), InRange(l, k + 1, 64), k, dot);
    }
  }

  /** The picks are the sprites, each in the dot that follows from how many sprites there are before it and how many
      of them are in range. */
  predicate ArePicks(picks: seq<Pick>, sprites: seq<nat>, k: nat, dot: int) {
    && |picks| == |sprites|
    && forall i: nat | i < |picks| ::
         picks[i].at == 4 * sprites[i] && picks[i].dot == dot + 2 * (sprites[i] - k) + 6 * i
  }

  lemma NoPicks(dot: nat)
    ensures ArePicks([], [], 64, dot) && Whole([]) == 0
  {
  }

  lemma OnePick(rest: seq<Pick>, sprites: seq<nat>, k: nat, dot: nat)
    requires k < 64 && ArePicks(rest, sprites, k + 1, dot + 8) && Whole(rest) == |rest|
    ensures ArePicks([Pick(4 * k, dot)] + rest, [k] + sprites, k, dot)
    ensures Whole([Pick(4 * k, dot)] + rest) == 1 + |rest|
  {
    assert ([Pick(4 * k, dot)] + rest)[1..] == rest;
  }

  lemma LaterPicks(picks: seq<Pick>, sprites: seq<nat>, k: nat, dot: nat)
    requires ArePicks(picks, sprites, k + 1, dot + 2)
    ensures ArePicks(picks, sprites, k, dot)
  {
  }

  lemma InRangeIs(l: Line, k: nat)
    requires LineOk(l) && k <= 64
    ensures InRange(l, k, 64) ==
      if k == 64 then [] else if Shows(l, l.oam[4 * k]) then [k] + InRange(l, k + 1, 64) else InRange(l, k + 1, 64)
  {
    hide Shows;
    if k < 64 { assert [] + InRange(l, k + 1, 64) == InRange(l, k + 1, 64); }
  }

  /** The first of the sprites in range is the first sprite exactly if that is in range. */
  lemma InRangeFirst(l: Line, k: nat)
    requires LineOk(l) && k < 64
    ensures Shows(l, l.oam[4 * k]) <==> InRange(l, k, 64) != [] && InRange(l, k, 64)[0] == k
  {
    hide Shows;
  }

  lemma {:induction false} FallsAdd(on: seq<bool>, lo: nat, mid: nat, hi: nat)
    requires lo <= mid <= hi
    ensures Falls(on, lo, hi) == Falls(on, lo, mid) + Falls(on, mid, hi)
    decreases mid - lo
  {
    if lo < mid && lo < |on| { FallsAdd(on, lo + 1, mid, hi); }
    else if lo < mid { NoFalls(on, mid, hi); }
  }

  lemma NoFalls(on: seq<bool>, lo: nat, hi: nat)
    requires lo >= |on|
    ensures Falls(on, lo, hi) == 0
  {
  }

  /** Rendering falls at the end of this dot. */
  predicate FallsAt(on: seq<bool>, dot: nat)
    requires 1 <= dot < |on|
  {
    on[dot - 1] && !on[dot]
  }

  /** With OAMADDR at a sprite, the scan begins at a sprite if and only if rendering does not fall at dot 63, and
      then it is a filter: the slots hold the first eight sprites that show on the line. If there are at most three
      falls after that, sprite zero is reported exactly if it shows and none of them is at dot 64. */
  lemma SpritesInOrder(l: Line, s: Scan, on: seq<bool>)
    requires LineOk(l) && |s.soam| == 256 && s.addr.start < 256 && s.addr.start % 4 == 0 && |on| == 256
    ensures OamAddr(s.addr.start, on, 64) == s.addr.start + if FallsAt(on, 63) then 1 else 0
    ensures !FallsAt(on, 63) ==>
      var r := Dots(l, Begun(s), on);
      var sprites := InRange(l, s.addr.start / 4, 64);
      && (forall i: nat | i < Min(8, |sprites|) :: SlotHolds(l, r.soam, i, 4 * sprites[i]))
      && (forall j: nat | |sprites| <= j < 8 :: !Hits(l, r.soam[4 * j]))
      && (|sprites| < 8 ==> r.overflow == s.overflow)
      && r.index == Min(8, |sprites|)
      && (Falls(on, 64, 256) <= 3 ==> r.zero == (Shows(l, l.oam[s.addr.start]) && !FallsAt(on, 64)))
  {
    hide Dot, Dots, SlotHolds, Picks, Hits, Shows, InRange, Whole, LineOk, Begun;
    var start := s.addr.start;
    assert Falls(on, 63, 64) == if FallsAt(on, 63) then 1 else 0;
    if !FallsAt(on, 63) {
      EvaluationIsFilter(l, s, on);
      PicksInRange(l, start / 4, 65);
      if Falls(on, 64, 256) <= 3 { ZeroIsFirst(l, start, on); }
    }
  }

  lemma ZeroIsFirst(l: Line, start: nat, on: seq<bool>)
    requires LineOk(l) && start < 256 && start % 4 == 0 && |on| == 256 && !FallsAt(on, 63) && Falls(on, 64, 256) <= 3
    ensures var picks := Picks(l, start / 4, 0, 65);
      (exists i: nat :: i < Min(8, |picks|) && picks[i].at == OamAddr(start, on, picks[i].dot))
      <==> Shows(l, l.oam[start]) && !FallsAt(on, 64)
  {
    hide Hits, Shows, Picks, InRange, Falls;
    var k := start / 4;
    var picks, sprites := Picks(l, k, 0, 65), InRange(l, k, 64);
    PicksInRange(l, k, 65);
    InRangeFirst(l, k);
    forall i: nat | i < Min(8, |picks|)
      ensures picks[i].at == OamAddr(start, on, picks[i].dot) <==> sprites[i] == k && i == 0 && !FallsAt(on, 64)
    {
      Increasing(l, k, i);
      if sprites[i] == k { assert picks[i].dot == 65; }
      ZeroPick(start, on, sprites[i], picks[i].dot);
    }
  }

  lemma ZeroPick(start: nat, on: seq<bool>, sprite: nat, dot: nat)
    requires start < 256 && start % 4 == 0 && |on| == 256 && !FallsAt(on, 63) && Falls(on, 64, 256) <= 3
    requires start / 4 <= sprite < 64 && 65 <= dot <= 256 && (sprite == start / 4 ==> dot == 65)
    ensures 4 * sprite == OamAddr(start, on, dot) <==> sprite == start / 4 && !FallsAt(on, 64)
  {
    hide Falls;
    OneFall(on, 63);
    OneFall(on, 64);
    FallsAdd(on, 63, 64, dot);
    FallsAdd(on, 64, dot, 256);
    if sprite > start / 4 { FewFalls(start, sprite, Falls(on, 64, dot)); }
  }

  lemma OneFall(on: seq<bool>, dot: nat)
    requires 63 <= dot < |on|
    ensures Falls(on, dot, dot + 1) == if FallsAt(on, dot) then 1 else 0
  {
  }

  lemma FewFalls(start: nat, sprite: nat, falls: nat)
    requires start % 4 == 0 && start / 4 < sprite < 64 && falls <= 3
    ensures 4 * sprite != (start + falls) % 256
  {
  }

  lemma Increasing(l: Line, k: nat, i: nat)
    requires LineOk(l) && k < 64 && i < |InRange(l, k, 64)|
    ensures InRange(l, k, 64)[i] == k ==> i == 0
  {
    hide Shows;
    InRangeIs(l, k);
  }

  // ---- the overflow flag ----

  /** A byte on the diagonal, from byte `off` of sprite `k` on, is in range: the next byte of the next sprite, and so
      on. */
  predicate Diagonal(l: Line, k: nat, off: nat)
    requires LineOk(l) && off < 4
    decreases 64 - k
  {
    k < 64 && (Hits(l, l.oam[4 * k + off]) || Diagonal(l, k + 1, (off + 1) % 4))
  }

  lemma FullMissed(l: Line, s: Scan, k: nat, off: nat, on0: bool, on1: bool)
    requires LineOk(l) && AtFull(s, k, off) && k < 64 && !Hits(l, l.oam[4 * k + off])
    ensures var t := Pair(l, s, on0, on1); AtFull(t, k + 1, (off + 1) % 4) && t.overflow == s.overflow
  {
    hide Hits;
    if off == 3 {} else {}
  }

  lemma FullHit(l: Line, s: Scan, k: nat, off: nat, on1: bool)
    requires LineOk(l) && AtFull(s, k, off) && k < 64 && Hits(l, l.oam[4 * k + off])
    ensures var t := Pair(l, s, true, on1); Settled(t) && t.overflow
  {
    hide Hits;
  }

  lemma {:induction false} OverflowStays(l: Line, s: Scan, on: seq<bool>)
    requires LineOk(l) && Settled(s) && (s.overflow || !s.writing)
    ensures |s.soam| == 256 && s.index <= 8 && s.count <= 3
    ensures Turns(l, s, on).overflow == s.overflow
    decreases |on|
  {
    hide Turn;
    if on != [] {
      SettledTurn(l, s, on[0]);
      OverflowStays(l, Turn(l, s, on[0]), on[1..]);
    }
  }

  /** With all slots taken and rendering on, the flag is set exactly if the diagonal has a byte in range. */
  lemma {:induction false} FullScan(l: Line, s: Scan, k: nat, off: nat, on: seq<bool>)
    requires LineOk(l) && AtFull(s, k, off)
    requires |on| >= 2 * (64 - k) + 1 && forall i: nat | i < |on| :: on[i]
    ensures |s.soam| == 256 && s.index <= 8 && s.count <= 3 && off < 4
    ensures Turns(l, s, on).overflow == (s.overflow || Diagonal(l, k, off))
    decreases 64 - k
  {
    hide Pair, Hits, Turns, Stepped, Follows;
    if k == 64 {
      FullEnds(l, s, off, on);
    } else {
      TwoTurns(l, s, on);
      var t := Pair(l, s, on[0], on[1]);
      if Hits(l, l.oam[4 * k + off]) {
        FullHit(l, s, k, off, on[1]);
        OverflowStays(l, t, on[2..]);
      } else {
        FullMissed(l, s, k, off, on[0], on[1]);
        FullScan(l, t, k + 1, (off + 1) % 4, on[2..]);
      }
    }
  }

  lemma FullEnds(l: Line, s: Scan, off: nat, on: seq<bool>)
    requires LineOk(l) && AtFull(s, 64, off) && |on| >= 1
    ensures Turns(l, s, on).overflow == s.overflow
  {
    hide Hits;
    var t := Turn(l, s, on[0]);
    assert Settled(t) && !t.writing && t.overflow == s.overflow;
    OverflowStays(l, t, on[1..]);
  }

  /** The scan from byte `off` of sprite `k` on, with `room` slots left, comes to a byte on the diagonal that is in
      range. */
  predicate Crowded(l: Line, k: nat, off: nat, room: nat)
    requires LineOk(l) && k <= 64 && off < 4 && room >= 1
    decreases 64 - k
  {
    if k == 64 then false
    else if !Hits(l, l.oam[4 * k + off]) then Crowded(l, k + 1, 0, room)
    else if room == 1 then Diagonal(l, k + 1, NextOffset(l, k, off))
    else Crowded(l, k + 1, NextOffset(l, k, off), room - 1)
  }

  /** The diagonal behind a sprite that was found. */
  predicate DiagonalBehind(l: Line, p: Pick)
    requires LineOk(l) && p.at < 256
  {
    Diagonal(l, p.at / 4 + 1, NextOffset(l, p.at / 4, p.at % 4))
  }

  lemma {:induction false} CrowdedIs(l: Line, k: nat, off: nat, room: nat, dot: nat)
    requires LineOk(l) && k <= 64 && off < 4 && room >= 1
    ensures var picks := Picks(l, k, off, dot);
      Crowded(l, k, off, room) <==> |picks| >= room && DiagonalBehind(l, picks[room - 1])
    decreases 64 - k
  {
    hide Hits, Diagonal, NextOffset;
    if k < 64 {
      if !Hits(l, l.oam[4 * k + off]) {
        CrowdedIs(l, k + 1, 0, room, dot + 2);
      } else if room > 1 {
        CrowdedIs(l, k + 1, NextOffset(l, k, off), room - 1, dot + 8);
        var p, rest := Pick(4 * k + off, dot), Picks(l, k + 1, NextOffset(l, k, off), dot + 8);
        assert |[p] + rest| == |rest| + 1 && (|rest| >= room - 1 ==> ([p] + rest)[room - 1] == rest[room - 2]);
      }
    }
  }

  lemma {:induction false} OverflowFrom(l: Line, s: Scan, k: nat, off: nat, on: seq<bool>)
    requires LineOk(l) && AtSprite(l, s, k, off)
    requires |on| >= 2 * (64 - k) + 6 * (8 - s.index) + 2 && forall i: nat | i < |on| :: on[i]
    ensures |s.soam| == 256 && s.index < 8 && s.count <= 3 && k <= 64 && off < 4
    ensures Turns(l, s, on).overflow == (s.overflow || Crowded(l, k, off, 8 - s.index))
    decreases 64 - k
  {
    hide Pair, AtSprite, AtFull, Turns, Settled, Hits, FourPairs, SlotHolds, Diagonal, NextOffset, Follows, Stepped,
      Finds;
    Fits(l, s, k, off);
    if k == 64 {
      ScanEnds(l, s, off, on);
      FindsOverflow(l, s, Turns(l, s, on), 64, off, on);
    } else if !Hits(l, l.oam[4 * k + off]) {
      Passed(l, s, k, off, on[0], on[1]);
      TwoTurns(l, s, on);
      OverflowFrom(l, Pair(l, s, on[0], on[1]), k + 1, 0, on[2..]);
    } else if off > 0 && k == 63 {
      CutOverflow(l, s, off, on);
    } else {
      Copied(l, s, k, off, on);
      EightTurns(l, s, on);
      var t := FourPairs(l, s, on);
      if s.index < 7 {
        OverflowFrom(l, t, k + 1, NextOffset(l, k, off), on[8..]);
      } else {
        FullScan(l, t, k + 1, NextOffset(l, k, off), on[8..]);
      }
    }
  }

  lemma FindsOverflow(l: Line, s: Scan, r: Scan, k: nat, off: nat, on: seq<bool>)
    requires LineOk(l) && |s.soam| == 256 && |r.soam| == 256 && s.index < 8 && k == 64 && off < 4
    requires Finds(l, s, r, k, off, on)
    ensures r.overflow == s.overflow
  {
    hide Hits, SlotHolds, SeesZero;
  }

  lemma CutOverflow(l: Line, s: Scan, off: nat, on: seq<bool>)
    requires LineOk(l) && AtSprite(l, s, 63, off) && off > 0 && Hits(l, l.oam[252 + off]) && |on| >= 10
    ensures |s.soam| == 256 && s.index < 8 && s.count <= 3 && off < 4
    ensures Turns(l, s, on).overflow == s.overflow && !Crowded(l, 63, off, 8 - s.index)
  {
    hide Hits, Pair, Turns, AtSprite, Follows, Stepped, SlotHolds;
    CutEnds(l, s, off, on);
    assert NextOffset(l, 63, off) == 0;
  }

  // ---- the flag, whatever the levels ----

  /** Where the scan goes from a byte once all slots are taken, and how many bytes of a sprite it has passed then. */
  function FullNext(l: Line, at: nat, count: nat): (next: (nat, nat))
    requires LineOk(l) && at < 256 && count <= 3
    ensures next.1 <= 3
  {
    if count == 0 && !Hits(l, l.oam[at]) then (if (at + 1) % 4 != 0 then at + 5 else at + 1, 0)
    else if count < 3 then (at + 1, count + 1)
    else (if Hits(l, l.oam[at]) then at + 1 else Aligned(at + 1), 0)
  }

  /** The bytes that the scan looks at from then on, each with its dot, to the end of OAM or of the line. */
  function Looks(l: Line, at: nat, count: nat, dot: nat): (r: seq<Pick>)
    requires LineOk(l) && count <= 3
    ensures forall i: nat | i < |r| :: r[i].at < 256 && dot <= r[i].dot <= 255
    decreases 257 - dot
  {
    if at >= 256 || dot > 255 then []
    else [Pick(at, dot)] + Looks(l, FullNext(l, at, count).0, FullNext(l, at, count).1, dot + 2)
  }

  /** One of the bytes is in range and looked at with rendering on. */
  predicate SeesMore(l: Line, looks: seq<Pick>, a: Addr, cycle: nat, on: seq<bool>)
    requires LineOk(l) && forall i: nat | i < |looks| :: looks[i].at < 256
    decreases |looks|
  {
    looks != []
    && ((Hits(l, l.oam[looks[0].at]) && AddrAt(a, cycle, on, looks[0].dot).on) || SeesMore(l, looks[1..], a, cycle, on))
  }

  /** All slots are taken. */
  predicate Full(s: Scan) { |s.soam| == 256 && s.even && s.count <= 3 && s.writing && s.index == 8 }

  lemma FullPair(l: Line, s: Scan, on0: bool, on1: bool)
    requires LineOk(l) && Full(s) && s.at < 256
    ensures var t := Pair(l, s, on0, on1);
      && Full(t) && (t.at, t.count) == FullNext(l, s.at, s.count)
      && t.overflow == (s.overflow || (Hits(l, l.oam[s.at]) && Stepped(s.addr, s.cycle, on0).on))
  {
    hide Hits;
    if s.count == 0 {} else if s.count < 3 {} else {}
  }

  lemma {:induction false} MoreSame(l: Line, looks: seq<Pick>, s: Scan, on: seq<bool>, t: Scan, rest: seq<bool>)
    requires LineOk(l) && forall i: nat | i < |looks| :: looks[i].at < 256 && looks[i].dot >= t.cycle
    requires Follows(s, on, t, rest)
    ensures SeesMore(l, looks, s.addr, s.cycle, on) == SeesMore(l, looks, t.addr, t.cycle, rest)
    decreases |looks|
  {
    hide AddrAt, Hits;
    if looks != [] { MoreSame(l, looks[1..], s, on, t, rest); }
  }

  lemma MoreFirst(l: Line, p: Pick, rest: seq<Pick>, a: Addr, cycle: nat, on: seq<bool>)
    requires LineOk(l) && p.at < 256 && forall i: nat | i < |rest| :: rest[i].at < 256
    ensures SeesMore(l, [p] + rest, a, cycle, on)
        == ((Hits(l, l.oam[p.at]) && AddrAt(a, cycle, on, p.dot).on) || SeesMore(l, rest, a, cycle, on))
  {
    hide AddrAt, Hits;
    assert ([p] + rest)[1..] == rest;
  }

  /** Whole pairs of dots. */
  predicate Paired(on: seq<bool>) { |on| % 2 == 0 }

  /** From then on the flag is set exactly if one of these bytes is in range and looked at with rendering on. */
  lemma {:induction false} FullFrom(l: Line, s: Scan, on: seq<bool>)
    requires LineOk(l) && Full(s) && s.cycle + |on| == 256 && Paired(on)
    ensures Turns(l, s, on).overflow
         == (s.overflow || SeesMore(l, Looks(l, s.at, s.count, s.cycle + 1), s.addr, s.cycle, on))
    decreases |on|
  {
    hide Pair, Turns, Hits, Follows, Stepped, SeesMore, FullNext, AddrAt;
    var looks := Looks(l, s.at, s.count, s.cycle + 1);
    NothingSeen(l, s.addr, s.cycle, on);
    if on == [] {
      NoTurns(l, s);
    } else if s.at >= 256 {
      FullStops(l, s, on);
    } else {
      TwoTurns(l, s, on);
      FullPair(l, s, on[0], on[1]);
      var t := Pair(l, s, on[0], on[1]);
      FullFrom(l, t, on[2..]);
      var rest := Looks(l, t.at, t.count, t.cycle + 1);
      AddrNow(s.addr, s.cycle, on);
      MoreFirst(l, Pick(s.at, s.cycle + 1), rest, s.addr, s.cycle, on);
      MoreSame(l, rest, s, on, t, on[2..]);
    }
  }

  lemma NothingSeen(l: Line, a: Addr, cycle: nat, on: seq<bool>)
    requires LineOk(l)
    ensures !SeesMore(l, [], a, cycle, on)
  {
  }

  lemma NoTurns(l: Line, s: Scan)
    requires LineOk(l) && Full(s)
    ensures Turns(l, s, []) == s
  {
  }

  lemma FullStops(l: Line, s: Scan, on: seq<bool>)
    requires LineOk(l) && Full(s) && s.at >= 256 && on != []
    ensures Turns(l, s, on).overflow == s.overflow
  {
    var t := Turn(l, s, on[0]);
    assert Settled(t) && !t.writing && t.overflow == s.overflow;
    OverflowStays(l, t, on[1..]);
  }

  /** The bytes looked at behind a sprite that took the last slot. */
  function LooksBehind(l: Line, p: Pick): (r: seq<Pick>)
    requires LineOk(l) && p.at <= 252
    ensures forall i: nat | i < |r| :: r[i].at < 256 && p.dot + 8 <= r[i].dot <= 255
  {
    Looks(l, 4 * (p.at / 4 + 1) + NextOffset(l, p.at / 4, p.at % 4), 0, p.dot + 8)
  }

  /** The scan from byte `off` of sprite `k` on takes the last of `room` slots, and looks at such a byte after that. */
  predicate SeesBeyond(l: Line, picks: seq<Pick>, room: nat, a: Addr, cycle: nat, on: seq<bool>)
    requires LineOk(l) && room >= 1
  {
    |picks| >= room && picks[room - 1].at <= 252 && SeesMore(l, LooksBehind(l, picks[room - 1]), a, cycle, on)
  }

  lemma {:induction false} OverflowSeen(l: Line, s: Scan, k: nat, off: nat, on: seq<bool>)
    requires LineOk(l) && AtSprite(l, s, k, off) && s.cycle + |on| == 256 && Paired(on)
    requires |on| >= 2 * (64 - k) + 6 * (8 - s.index) + 2
    ensures |s.soam| == 256 && s.index < 8 && s.count <= 3 && k <= 64 && off < 4
    ensures Turns(l, s, on).overflow
         == (s.overflow || SeesBeyond(l, Picks(l, k, off, s.cycle + 1), 8 - s.index, s.addr, s.cycle, on))
    decreases 64 - k
  {
    hide Pair, AtSprite, AtFull, Turns, Settled, Hits, FourPairs, SlotHolds, NextOffset, Follows, Stepped, Finds,
      SeesBeyond, Picks, Paired;
    Fits(l, s, k, off);
    PicksStep(l, k, off, s.cycle + 1);
    if |on| >= 2 { TwoLess(on); }
    if |on| >= 8 { EightLess(on); }
    if k == 64 {
      ScanEnds(l, s, off, on);
      FindsOverflow(l, s, Turns(l, s, on), 64, off, on);
      NoneBeyond(l, 8 - s.index, s.addr, s.cycle, on);
    } else if !Hits(l, l.oam[4 * k + off]) {
      Passed(l, s, k, off, on[0], on[1]);
      TwoTurns(l, s, on);
      var t := Pair(l, s, on[0], on[1]);
      OverflowSeen(l, t, k + 1, 0, on[2..]);
      BeyondSame(l, Picks(l, k + 1, 0, t.cycle + 1), 8 - s.index, s, on, t, on[2..]);
    } else if off > 0 && k == 63 {
      CutOverflow(l, s, off, on);
      CutBeyond(l, s, off, on);
    } else {
      var t, next := FourPairs(l, s, on), NextOffset(l, k, off);
      if s.index < 7 {
        Copied(l, s, k, off, on);
        OverflowSeen(l, t, k + 1, next, on[8..]);
      }
      PickedBeyond(l, s, k, off, on);
    }
  }

  /** A sprite that is picked, with what the dots behind it see. */
  lemma PickedBeyond(l: Line, s: Scan, k: nat, off: nat, on: seq<bool>)
    requires LineOk(l) && AtSprite(l, s, k, off) && k < 64 && off < 4 && (off == 0 || k < 63)
    requires Hits(l, l.oam[4 * k + off]) && s.cycle + |on| == 256 && Paired(on) && |on| >= 8
    requires |s.soam| == 256 && s.index < 8 && s.count <= 3 && s.even
    requires var t, rest := FourPairs(l, s, on), Picks(l, k + 1, NextOffset(l, k, off), s.cycle + 9);
      s.index < 7 ==>
        Turns(l, t, on[8..]).overflow == (t.overflow || SeesBeyond(l, rest, 7 - s.index, t.addr, t.cycle, on[8..]))
    ensures var rest := Picks(l, k + 1, NextOffset(l, k, off), s.cycle + 9);
      Turns(l, s, on).overflow
      == (s.overflow || SeesBeyond(l, [Pick(4 * k + off, s.cycle + 1)] + rest, 8 - s.index, s.addr, s.cycle, on))
  {
    hide *;
    Copied(l, s, k, off, on);
    EightTurns(l, s, on);
    var t, next := FourPairs(l, s, on), NextOffset(l, k, off);
    var p, rest := Pick(4 * k + off, s.cycle + 1), Picks(l, k + 1, next, s.cycle + 9);
    if s.index < 7 {
      BeyondSame(l, rest, 7 - s.index, s, on, t, on[8..]);
      BeyondRest(l, p, rest, 8 - s.index, s.addr, s.cycle, on);
    } else {
      BeyondLast(l, s, t, k, off, rest, on);
    }
  }

  lemma PicksStep(l: Line, k: nat, off: nat, dot: nat)
    requires LineOk(l) && k <= 64 && off < 4
    ensures Picks(l, k, off, dot)
         == if k == 64 then []
            else if Hits(l, l.oam[4 * k + off]) then
              [Pick(4 * k + off, dot)] + Picks(l, k + 1, NextOffset(l, k, off), dot + 8)
            else Picks(l, k + 1, 0, dot + 2)
  {
    hide Hits, NextOffset;
  }

  lemma NoneBeyond(l: Line, room: nat, a: Addr, cycle: nat, on: seq<bool>)
    requires LineOk(l) && room >= 1
    ensures !SeesBeyond(l, [], room, a, cycle, on)
  {
    hide Hits, SeesMore, LooksBehind;
  }

  /** The last slot was taken. */
  lemma BeyondLast(l: Line, s: Scan, t: Scan, k: nat, off: nat, rest: seq<Pick>, on: seq<bool>)
    requires LineOk(l) && k < 64 && off < 4 && (off == 0 || k < 63) && AtFull(t, k + 1, NextOffset(l, k, off))
    requires t.cycle == s.cycle + 8 && t.overflow == s.overflow && s.cycle + |on| == 256 && Paired(on) && |on| >= 8
    requires Follows(s, on, t, on[8..]) && |s.soam| == 256 && s.index <= 8 && s.count <= 3
    requires Turns(l, s, on) == Turns(l, t, on[8..])
    ensures Turns(l, s, on).overflow
         == (s.overflow || SeesBeyond(l, [Pick(4 * k + off, s.cycle + 1)] + rest, 1, s.addr, s.cycle, on))
  {
    hide *;
    FullHere(t, k + 1, NextOffset(l, k, off));
    FullLater(l, s, t, on);
    var p := Pick(4 * k + off, s.cycle + 1);
    BehindIs(l, k, off, s.cycle + 1);
    OneBeyond(l, p, rest, s.addr, s.cycle, on);
  }

  lemma TwoLess(on: seq<bool>)
    requires |on| >= 2 && Paired(on)
    ensures |on[2..]| == |on| - 2 && Paired(on[2..])
  {
  }

  lemma EightLess(on: seq<bool>)
    requires |on| >= 8 && Paired(on)
    ensures |on[8..]| == |on| - 8 && Paired(on[8..])
  {
  }

  lemma FullLater(l: Line, s: Scan, t: Scan, on: seq<bool>)
    requires LineOk(l) && Full(t) && t.cycle == s.cycle + 8 && t.overflow == s.overflow && t.count == 0
    requires s.cycle + |on| == 256 && Paired(on) && |on| >= 8
    requires Follows(s, on, t, on[8..]) && |s.soam| == 256 && s.index <= 8 && s.count <= 3
    requires Turns(l, s, on) == Turns(l, t, on[8..])
    ensures Turns(l, s, on).overflow
         == (s.overflow || SeesMore(l, Looks(l, t.at, 0, t.cycle + 1), s.addr, s.cycle, on))
  {
    hide *;
    EightLess(on);
    FullFrom(l, t, on[8..]);
    MoreSame(l, Looks(l, t.at, 0, t.cycle + 1), s, on, t, on[8..]);
  }

  lemma BehindIs(l: Line, k: nat, off: nat, dot: nat)
    requires LineOk(l) && k < 64 && off < 4 && (off == 0 || k < 63)
    ensures LooksBehind(l, Pick(4 * k + off, dot)) == Looks(l, 4 * (k + 1) + NextOffset(l, k, off), 0, dot + 8)
  {
    hide Hits, NextOffset, Looks;
    assert (4 * k + off) / 4 == k && (4 * k + off) % 4 == off;
  }

  lemma OneBeyond(l: Line, p: Pick, rest: seq<Pick>, a: Addr, cycle: nat, on: seq<bool>)
    requires LineOk(l) && p.at <= 252
    ensures SeesBeyond(l, [p] + rest, 1, a, cycle, on) == SeesMore(l, LooksBehind(l, p), a, cycle, on)
  {
    hide Hits, SeesMore, LooksBehind;
    assert ([p] + rest)[0] == p;
  }

  lemma FullHere(t: Scan, k: nat, off: nat)
    requires AtFull(t, k, off)
    ensures Full(t) && t.at == 4 * k + off && t.count == 0
  {
  }

  lemma BeyondSame(l: Line, picks: seq<Pick>, room: nat, s: Scan, on: seq<bool>, t: Scan, rest: seq<bool>)
    requires LineOk(l) && room >= 1 && Follows(s, on, t, rest) && forall i: nat | i < |picks| :: picks[i].dot >= t.cycle
    ensures SeesBeyond(l, picks, room, s.addr, s.cycle, on) == SeesBeyond(l, picks, room, t.addr, t.cycle, rest)
  {
    hide Hits, SeesMore, LooksBehind, Follows;
    if |picks| >= room && picks[room - 1].at <= 252 {
      MoreSame(l, LooksBehind(l, picks[room - 1]), s, on, t, rest);
    }
  }

  lemma BeyondRest(l: Line, p: Pick, rest: seq<Pick>, room: nat, a: Addr, cycle: nat, on: seq<bool>)
    requires LineOk(l) && room >= 2
    ensures SeesBeyond(l, [p] + rest, room, a, cycle, on) == SeesBeyond(l, rest, room - 1, a, cycle, on)
  {
    hide Hits, SeesMore, LooksBehind;
    if |rest| >= room - 1 { assert ([p] + rest)[room - 1] == rest[room - 2]; }
  }

  lemma CutBeyond(l: Line, s: Scan, off: nat, on: seq<bool>)
    requires LineOk(l) && 1 <= off <= 3 && Hits(l, l.oam[252 + off]) && s.index < 8
    ensures !SeesBeyond(l, Picks(l, 63, off, s.cycle + 1), 8 - s.index, s.addr, s.cycle, on)
  {
    hide Hits, SeesMore, LooksBehind;
    assert Picks(l, 63, off, s.cycle + 1) == [Pick(252 + off, s.cycle + 1)] + [];
  }

  lemma {:induction false} SeesMoreIs(l: Line, looks: seq<Pick>, a: Addr, cycle: nat, on: seq<bool>)
    requires LineOk(l) && forall i: nat | i < |looks| :: looks[i].at < 256
    ensures SeesMore(l, looks, a, cycle, on)
       <==> exists i: nat :: i < |looks| && Hits(l, l.oam[looks[i].at]) && AddrAt(a, cycle, on, looks[i].dot).on
    decreases |looks|
  {
    hide AddrAt, Hits;
    if looks != [] {
      SeesMoreIs(l, looks[1..], a, cycle, on);
      if i: nat :| i < |looks[1..]| && Hits(l, l.oam[looks[1..][i].at]) && AddrAt(a, cycle, on, looks[1..][i].dot).on {
        assert looks[i + 1] == looks[1..][i];
      }
      if i: nat :| i < |looks| && Hits(l, l.oam[looks[i].at]) && AddrAt(a, cycle, on, looks[i].dot).on {
        if i > 0 { assert looks[1..][i - 1] == looks[i]; }
      }
    }
  }

  /** For any OAMADDR and any levels: the overflow flag is set after a line exactly if it was, or a sprite takes the
      eighth slot and one of the bytes that the scan looks at after that is in range with rendering on in that dot. */
  lemma OverflowIs(l: Line, s: Scan, on: seq<bool>)
    requires LineOk(l) && |s.soam| == 256 && s.addr.start < 256 && |on| == 256
    ensures var start := OamAddr(s.addr.start, on, 64);
      var picks := Picks(l, start / 4, start % 4, 65);
      Dots(l, Begun(s), on).overflow
      <==> s.overflow
           || (|picks| >= 8 && picks[7].at <= 252
               && exists i: nat ::
                    var looks := LooksBehind(l, picks[7]);
                    i < |looks| && looks[i].dot >= 1 && Hits(l, l.oam[looks[i].at]) && on[looks[i].dot - 1])
  {
    hide Dot, Dots, Turns, Turn, Picks, Hits, AtSprite, OamAddr, AddrAt, Follows, LooksBehind, SeesMore;
    var t := ScanStarts(l, s, on);
    var start := OamAddr(s.addr.start, on, 64);
    OverflowSeen(l, t, start / 4, start % 4, on[64..]);
    var picks := Picks(l, start / 4, start % 4, 65);
    BeyondSame(l, picks, 8, Begun(s), on, t, on[64..]);
    LineAddr(l, s, on);
    if |picks| >= 8 && picks[7].at <= 252 {
      SeesMoreIs(l, LooksBehind(l, picks[7]), s.addr, 0, on);
    }
  }

  // ---- a whole line with rendering on ----

  /** With rendering on, the overflow flag is set exactly if there are eight sprites and a byte on the diagonal
      behind the eighth is in range too. So it is set for a ninth sprite that follows the eighth at once, but a later
      one may be missed, and a byte that is no Y position may set it. */
  lemma OverflowIsDiagonal(l: Line, s: Scan, on: seq<bool>)
    requires LineOk(l) && |s.soam| == 256 && s.addr.start < 256 && |on| == 256 && forall i: nat | i < 256 :: on[i]
    ensures OamAddr(s.addr.start, on, 64) == s.addr.start
    ensures var picks := Picks(l, s.addr.start / 4, s.addr.start % 4, 65);
      Dots(l, Begun(s), on).overflow == (s.overflow || (|picks| >= 8 && DiagonalBehind(l, picks[7])))
  {
    hide Dot, Dots, Turns, Turn, Picks, Hits, Diagonal, Crowded, AtSprite, Follows;
    var start := s.addr.start;
    var t := ScanStarts(l, s, on);
    OverflowFrom(l, t, start / 4, start % 4, on[64..]);
    CrowdedIs(l, start / 4, start % 4, 8, 65);
  }
}
