/** Writing: what a block sent through $4024 and $4025 leaves on the tape. */
module FdsWrite {
  import opened Bits
  import opened FdsDrive
  import opened FdsRead
  import Crc
  import FdsFormat

  // ---- the port between bit times ----

  /** What the port sees in write mode: a bit time, or an access. */
  datatype Event = Tick | Access(op: Op)

  function Answer(p: Port, e: Event): (q: Port)
    requires p.Inv()
  {
    match e
    case Tick => p.Given()
    case Access(Write4024(v)) => p.Wrote4024(v)
    case Access(Write4025(v)) => p.Wrote4025(v)
    case Access(Read4030) => p.Acknowledged()
    case Access(Read4031) => p.Acknowledged()
    case Access(_) => p
  }

  lemma AnswerKeepsInv(p: Port, e: Event)
    requires p.Inv()
    ensures Answer(p, e).Inv()
  {
    if e.Tick? { GivenKeepsInv(p); }
  }

  function PortRun(p: Port, ev: seq<Event>): (q: Port)
    requires p.Inv()
    ensures q.Inv()
    decreases |ev|
  {
    if ev == [] then p
    else
      AnswerKeepsInv(p, ev[0]);
      PortRun(Answer(p, ev[0]), ev[1..])
  }

  /** The bits laid down while the events happen. */
  function BitsOut(p: Port, ev: seq<Event>): seq<bool>
    requires p.Inv()
    decreases |ev|
  {
    if ev == [] then []
    else
      AnswerKeepsInv(p, ev[0]);
      (if ev[0].Tick? then [p.Out()] else []) + BitsOut(Answer(p, ev[0]), ev[1..])
  }

  function Ticks(ev: seq<Event>): nat {
    if ev == [] then 0 else (if ev[0].Tick? then 1 else 0) + Ticks(ev[1..])
  }

  lemma {:induction false} PortRunConcat(p: Port, u: seq<Event>, v: seq<Event>)
    requires p.Inv()
    ensures PortRun(p, u + v) == PortRun(PortRun(p, u), v)
    decreases |u|
  {
    hide Answer;
    if u == [] {
      assert u + v == v;
    } else {
      assert (u + v)[1..] == u[1..] + v;
      AnswerKeepsInv(p, u[0]);
      PortRunConcat(Answer(p, u[0]), u[1..], v);
    }
  }

  lemma {:induction false} BitsOutConcat(p: Port, u: seq<Event>, v: seq<Event>)
    requires p.Inv()
    ensures BitsOut(p, u + v) == BitsOut(p, u) + BitsOut(PortRun(p, u), v)
    decreases |u|
  {
    hide Answer;
    if u == [] {
      assert u + v == v;
    } else {
      assert (u + v)[1..] == u[1..] + v;
      AnswerKeepsInv(p, u[0]);
      BitsOutConcat(Answer(p, u[0]), u[1..], v);
      Regroup(if u[0].Tick? then [p.Out()] else [], BitsOut(Answer(p, u[0]), u[1..]),
              BitsOut(PortRun(Answer(p, u[0]), u[1..]), v));
    }
  }

  /** Accesses that leave a write going: data, status reads, and control values that keep bit 6 set
      and stay in write mode. */
  predicate Sending(op: Op) {
    match op
    case Clock => true
    case Read4030 => true
    case Read4031 => true
    case Read4032 => true
    case Write4024(_) => true
    case Write4025(v) => BitAt(v, 6) && !BitAt(v, 2) && !BitAt(v, 1)
    case _ => false
  }

  predicate SendingEvents(ev: seq<Event>) {
    ev == [] || ((ev[0].Access? ==> Sending(ev[0].op)) && SendingEvents(ev[1..]))
  }

  /** The write latch after the events, unless the drive itself changes it. */
  function LatchAfter(latch: Byte, ev: seq<Event>): Byte
    decreases |ev|
  {
    if ev == [] then latch
    else LatchAfter(if ev[0].Access? && ev[0].op.Write4024? then ev[0].op.value else latch, ev[1..])
  }

  function ControlAfter(control: Byte, ev: seq<Event>): Byte
    decreases |ev|
  {
    if ev == [] then control
    else ControlAfter(if ev[0].Access? && ev[0].op.Write4025? then ev[0].op.value else control, ev[1..])
  }

  /** A port in the middle of a write. */
  predicate Busy(p: Port) {
    p.writeregpos < 8 && p.readregpos < 8 && p.lookingforendofgap
    && BitAt(p.cached4025, 6) && !BitAt(p.cached4025, 2)
  }

  /** The port once the rest of the current byte is out, with the accesses made meanwhile. */
  function ByteGiven(p: Port, ev: seq<Event>): Port
    requires Busy(p)
  {
    Shifted(p, ev).Reloaded()
  }

  function Shifted(p: Port, ev: seq<Event>): Port
    requires Busy(p)
  {
    p.(crc := if p.writecomputecrc then Crc.Feed(p.crc, BitsOf(p.writereg)[p.writeregpos..]) else p.crc,
       writeregpos := 0, cached4025 := ControlAfter(p.cached4025, ev),
       writereglatch := LatchAfter(p.writereglatch, ev))
  }

  predicate EndsWithTick(ev: seq<Event>) { ev != [] && ev[|ev| - 1].Tick? }

  /** A byte's worth of events lays down the byte in the write register, whenever the accesses come. */
  lemma {:induction false} RestOfByte(p: Port, ev: seq<Event>)
    requires Busy(p) && SendingEvents(ev) && EndsWithTick(ev)
    requires Ticks(ev) + p.writeregpos == 8
    ensures BitsOut(p, ev) == BitsOf(p.writereg)[p.writeregpos..]
    ensures Quiet(PortRun(p, ev)) == Quiet(ByteGiven(p, ev))
    decreases |ev|
  {
    hide Answer, ByteGiven;
    AnswerKeepsInv(p, ev[0]);
    var q := Answer(p, ev[0]);
    if |ev| == 1 {
      LastTick(p, ev);
    } else {
      var bits := BitsOf(p.writereg)[p.writeregpos..];
      assert ev[1..][|ev[1..]| - 1] == ev[|ev| - 1];
      if ev[0].Tick? {
        TicksPositive(ev[1..]);
        InnerTick(p, ev);
        assert bits == [bits[0]] + BitsOf(p.writereg)[p.writeregpos + 1..];
      } else {
        InnerAccess(p, ev);
      }
      RestOfByte(q, ev[1..]);
    }
  }

  lemma {:induction false} TicksPositive(ev: seq<Event>)
    requires EndsWithTick(ev)
    ensures Ticks(ev) >= 1
  {
    if |ev| > 1 {
      assert ev[1..][|ev[1..]| - 1] == ev[|ev| - 1];
      TicksPositive(ev[1..]);
    }
  }

  lemma LastTick(p: Port, ev: seq<Event>)
    requires Busy(p) && ev == [Tick] && p.writeregpos == 7
    ensures BitsOut(p, ev) == BitsOf(p.writereg)[7..]
    ensures Quiet(PortRun(p, ev)) == Quiet(ByteGiven(p, ev))
  {
    hide Port.Reloaded, Crc.Ccitt;
    assert ev[1..] == [];
    assert BitsOf(p.writereg)[7..] == [BitAt(p.writereg, 7)];
    FeedOne(p.crc, BitAt(p.writereg, 7));
    var q := Shifted(p, ev);
    var r := q.(bytetransferflag := true, irq := p.irq || BitAt(p.cached4025, 7));
    assert p.Out() == BitAt(p.writereg, 7);
    assert r.crc == if p.writecomputecrc then Crc.Ccitt(p.crc, p.Out()) else p.crc;
    assert LatchAfter(p.writereglatch, ev) == p.writereglatch;
    assert ControlAfter(p.cached4025, ev) == p.cached4025;
    assert r == p.(crc := r.crc, writeregpos := 0, bytetransferflag := true,
                   irq := p.irq || BitAt(p.cached4025, 7));
    assert p.Given() == r.Reloaded();
    QuietReload(q, r);
  }

  lemma FeedOne(crc: Crc.Word, bit: bool)
    ensures Crc.Feed(crc, [bit]) == Crc.Ccitt(crc, bit)
  {
    assert [bit][1..] == [];
  }

  lemma QuietReload(p: Port, q: Port)
    requires Quiet(p) == Quiet(q)
    ensures Quiet(p.Reloaded()) == Quiet(q.Reloaded())
  {
    hide Crc.Low, Crc.Shift8, WithBit, BitAt;
  }

  lemma InnerTick(p: Port, ev: seq<Event>)
    requires Busy(p) && ev != [] && ev[0].Tick? && p.writeregpos < 7
    ensures var q := Answer(p, ev[0]);
            Busy(q) && q.writeregpos == p.writeregpos + 1 && q.writereg == p.writereg
            && ByteGiven(q, ev[1..]) == ByteGiven(p, ev)
  {
    hide Port.Reloaded, Crc.Ccitt;
    var bits := BitsOf(p.writereg)[p.writeregpos..];
    assert bits[1..] == BitsOf(p.writereg)[p.writeregpos + 1..];
    assert Shifted(Answer(p, ev[0]), ev[1..]) == Shifted(p, ev);
  }

  lemma InnerAccess(p: Port, ev: seq<Event>)
    requires Busy(p) && ev != [] && ev[0].Access? && Sending(ev[0].op)
    ensures var q := Answer(p, ev[0]);
            Busy(q) && q.writeregpos == p.writeregpos && q.writereg == p.writereg
            && Quiet(ByteGiven(q, ev[1..])) == Quiet(ByteGiven(p, ev))
  {
    hide Port.Reloaded, Crc.Feed;
    var q := Answer(p, ev[0]);
    AccessKeepsByte(p, ev[0].op);
    QuietReload(Shifted(q, ev[1..]), Shifted(p, ev));
  }

  /** An access in the middle of a byte reaches the latches and flags, and nothing that is being sent. */
  lemma AccessKeepsByte(p: Port, op: Op)
    requires Busy(p) && Sending(op)
    ensures var q := Answer(p, Access(op));
            Busy(q) && Quiet(q) == Quiet(p.(cached4025 := q.cached4025, writereglatch := q.writereglatch))
            && q.cached4025 == (if op.Write4025? then op.value else p.cached4025)
            && q.writereglatch == (if op.Write4024? then op.value else p.writereglatch)
  {
  }

  // ---- a whole block ----

  predicate IsByte(ev: seq<Event>) { SendingEvents(ev) && EndsWithTick(ev) && Ticks(ev) == 8 }

  /** How software sends `bytes`, the first of which is already in the write register: during each byte
      it leaves the next one in the latch, and during the last one it raises the CRC bit. */
  predicate Sends(latch: Byte, control: Byte, bytes: seq<Byte>, segments: seq<seq<Event>>)
    decreases |bytes|
  {
    && |bytes| == |segments| >= 1
    && IsByte(segments[0])
    && if |bytes| == 1 then BitAt(ControlAfter(control, segments[0]), 4)
       else
         && !BitAt(ControlAfter(control, segments[0]), 4)
         && LatchAfter(latch, segments[0]) == bytes[1]
         && Sends(bytes[1], ControlAfter(control, segments[0]), bytes[1..], segments[1..])
  }

  function Flat(segments: seq<seq<Event>>): seq<Event> {
    if segments == [] then [] else segments[0] + Flat(segments[1..])
  }

  lemma {:induction false} ControlKeepsMode(control: Byte, ev: seq<Event>)
    requires SendingEvents(ev) && BitAt(control, 6) && !BitAt(control, 2)
    ensures BitAt(ControlAfter(control, ev), 6) && !BitAt(ControlAfter(control, ev), 2)
    decreases |ev|
  {
    if ev != [] {
      ControlKeepsMode(if ev[0].Access? && ev[0].op.Write4025? then ev[0].op.value else control, ev[1..]);
    }
  }

  /** The port right after the last byte under the CRC: the low CRC byte is in the write register, and
      the high one is left in the CRC register. */
  ghost predicate SendsCrc(q: Port, crc: Crc.Word) {
    && Busy(q) && q.writeregpos == 0 && !q.writecomputecrc
    && q.writereg == Crc.Low(crc) && q.crc == Crc.Shift8(crc)
    && (BitAt(q.cached4025, 4) || (crc == Crc.ZERO && q.writereglatch == 0))
  }

  /** The port between two bytes under the CRC. */
  lemma NextByte(p: Port, ev: seq<Event>)
    requires Busy(p) && p.writeregpos == 0 && p.writecomputecrc && IsByte(ev)
    ensures BitsOut(p, ev) == BitsOf(p.writereg)
    ensures var q, control, crc := PortRun(p, ev), ControlAfter(p.cached4025, ev), Crc.Feed(p.crc, BitsOf(p.writereg));
            if BitAt(control, 4) then SendsCrc(q, crc)
            else Busy(q) && q.writeregpos == 0 && q.writecomputecrc && q.crc == crc && q.cached4025 == control
                 && q.writereg == q.writereglatch == LatchAfter(p.writereglatch, ev)
  {
    hide PortRun, BitsOut, Crc.Feed, Crc.Low, Crc.Shift8;
    RestOfByte(p, ev);
    ControlKeepsMode(p.cached4025, ev);
    assert BitsOf(p.writereg)[0..] == BitsOf(p.writereg);
  }

  lemma {:induction false} SendBytes(p: Port, bytes: seq<Byte>, segments: seq<seq<Event>>)
    requires Busy(p) && p.writeregpos == 0 && p.writecomputecrc
    requires Sends(p.writereglatch, p.cached4025, bytes, segments) && p.writereg == bytes[0]
    ensures BitsOut(p, Flat(segments)) == AllBits(bytes)
    ensures SendsCrc(PortRun(p, Flat(segments)), Crc.FeedBytes(p.crc, bytes))
    decreases |bytes|
  {
    hide PortRun, BitsOut, Crc.Feed, SendsCrc, ControlAfter, LatchAfter, IsByte;
    NextByte(p, segments[0]);
    var q := PortRun(p, segments[0]);
    PortRunConcat(p, segments[0], Flat(segments[1..]));
    BitsOutConcat(p, segments[0], Flat(segments[1..]));
    if |bytes| == 1 {
      assert Flat(segments[1..]) == [];
      NothingHappens(q);
      assert bytes[1..] == [];
      assert BitsOf(bytes[0]) + [] == BitsOf(bytes[0]);
    } else {
      SendBytes(q, bytes[1..], segments[1..]);
    }
  }

  lemma NothingHappens(p: Port)
    requires p.Inv()
    ensures PortRun(p, []) == p && BitsOut(p, []) == []
  {
  }

  /** Nothing but status reads and control values that keep bits 4 and 6 set. */
  predicate KeepsCrc(ev: seq<Event>) {
    ev == [] || ((ev[0].Access? ==> Sending(ev[0].op) && !ev[0].op.Write4024?
                                    && (ev[0].op.Write4025? ==> BitAt(ev[0].op.value, 4)))
                 && KeepsCrc(ev[1..]))
  }

  lemma {:induction false} KeepsCrcKeeps(latch: Byte, control: Byte, ev: seq<Event>)
    requires KeepsCrc(ev)
    ensures LatchAfter(latch, ev) == latch
    ensures BitAt(ControlAfter(control, ev), 4) || ControlAfter(control, ev) == control
    decreases |ev|
  {
    hide BitAt;
    if ev != [] {
      KeepsCrcKeeps(latch, if ev[0].Access? && ev[0].op.Write4025? then ev[0].op.value else control, ev[1..]);
    }
  }

  /** One CRC byte goes out. */
  lemma CrcByte(q: Port, ev: seq<Event>)
    requires Busy(q) && q.writeregpos == 0 && !q.writecomputecrc && IsByte(ev)
    ensures BitsOut(q, ev) == BitsOf(q.writereg)
    ensures var r := PortRun(q, ev);
      && Busy(r) && r.writeregpos == 0 && !r.writecomputecrc
      && Quiet(r) == Quiet(q.(cached4025 := ControlAfter(q.cached4025, ev),
                              writereglatch := LatchAfter(q.writereglatch, ev)).Reloaded())
  {
    hide PortRun, BitsOut, Crc.Low, Crc.Shift8;
    RestOfByte(q, ev);
    ControlKeepsMode(q.cached4025, ev);
    assert BitsOf(q.writereg)[0..] == BitsOf(q.writereg);
  }

  lemma ShiftedCrc(crc: Crc.Word)
    ensures Crc.Low(Crc.Shift8(crc)) == Crc.High(crc)
    ensures Crc.Shift8(Crc.Shift8(crc)) == Crc.ZERO
    ensures Crc.Low(Crc.ZERO) == 0
    ensures Crc.Shift8(Crc.ZERO) == Crc.ZERO
    ensures Crc.Shift8(crc) == Crc.ZERO ==> Crc.High(crc) == 0
  {
    assert Crc.Shift8(crc)[..8] == crc[8..];
    assert Crc.Shift8(crc)[8..] + Crc.ZERO[..8] == Crc.ZERO;
    assert Crc.Shift8(Crc.ZERO) == Crc.ZERO;
    assert Crc.ZERO[..8] == BitsOf(0);
    ByteOfUnique(0, Crc.ZERO[..8]);
    if Crc.Shift8(crc) == Crc.ZERO {
      assert Crc.Shift8(crc)[..8] == Crc.ZERO[..8];
    }
  }

  /** Two bytes' time under the CRC: the two CRC bytes go out, low byte first, if and only if the CRC bit is set when
      the first of them is out, or the high byte happens to be in the latch. It is set if software keeps it, also
      when the CRC or its high byte is zero and the drive clears the bit early; then the CRC ends at zero and the bit
      is clear. */
  lemma CrcTail(q: Port, crc: Crc.Word, s1: seq<Event>, s2: seq<Event>)
    requires SendsCrc(q, crc) && IsByte(s1) && IsByte(s2)
    ensures BitsOut(q, s1 + s2) == BitsOf(Crc.Low(crc)) + BitsOf(Crc.High(crc))
       <==> BitAt(ControlAfter(q.cached4025, s1), 4) || LatchAfter(q.writereglatch, s1) == Crc.High(crc)
    ensures KeepsCrc(s1) ==>
      var r := PortRun(q, s1 + s2);
      && BitsOut(q, s1 + s2) == BitsOf(Crc.Low(crc)) + BitsOf(Crc.High(crc))
      && r.crc == Crc.ZERO && !BitAt(r.cached4025, 4) && r.writereg == r.writereglatch
      && (KeepsCrc(s2) ==> r.writereg == 0)
  {
    hide *;
    FirstCrcByte(q, crc, s1);
    PortRunConcat(q, s1, s2);
    BitsOutConcat(q, s1, s2);
    var r := PortRun(q, s1);
    SecondByte(Crc.Low(crc), r.writereg, Crc.High(crc));
    SecondCrcByte(r, s2);
  }

  lemma FirstCrcByte(q: Port, crc: Crc.Word, s1: seq<Event>)
    requires SendsCrc(q, crc) && IsByte(s1)
    ensures q.Inv() && BitsOut(q, s1) == BitsOf(Crc.Low(crc))
    ensures var r := PortRun(q, s1);
      && Busy(r) && r.writeregpos == 0 && !r.writecomputecrc
      && (r.writereg == Crc.High(crc)
          <==> BitAt(ControlAfter(q.cached4025, s1), 4) || LatchAfter(q.writereglatch, s1) == Crc.High(crc))
      && (KeepsCrc(s1) ==> r.writereg == Crc.High(crc) && r.crc == Crc.ZERO
                           && (BitAt(r.cached4025, 4) || r.writereglatch == 0))
  {
    hide PortRun, BitsOut, Crc.Low, Crc.High, Crc.Shift8, KeepsCrc, IsByte, ControlAfter, LatchAfter, BitsOf;
    ShiftedCrc(crc);
    CrcByte(q, s1);
    if KeepsCrc(s1) { KeepsCrcKeeps(q.writereglatch, q.cached4025, s1); }
  }

  lemma SecondCrcByte(r: Port, s2: seq<Event>)
    requires Busy(r) && r.writeregpos == 0 && !r.writecomputecrc && IsByte(s2)
    ensures BitsOut(r, s2) == BitsOf(r.writereg)
    ensures r.crc == Crc.ZERO ==>
      var t := PortRun(r, s2);
      && t.crc == Crc.ZERO && !BitAt(t.cached4025, 4) && t.writereg == t.writereglatch
      && (KeepsCrc(s2) && (BitAt(r.cached4025, 4) || r.writereglatch == 0) ==> t.writereg == 0)
  {
    hide PortRun, BitsOut, Crc.Low, Crc.Shift8, KeepsCrc, IsByte, ControlAfter, LatchAfter, BitsOf;
    ShiftedCrc(r.crc);
    CrcByte(r, s2);
    if KeepsCrc(s2) { KeepsCrcKeeps(r.writereglatch, r.cached4025, s2); }
  }

  lemma SecondByte(a: Byte, b: Byte, c: Byte)
    ensures BitsOf(a) + BitsOf(b) == BitsOf(a) + BitsOf(c) <==> b == c
  {
    if BitsOf(a) + BitsOf(b) == BitsOf(a) + BitsOf(c) {
      assert BitsOf(b) == (BitsOf(a) + BitsOf(b))[8..];
      assert BitsOf(c) == (BitsOf(a) + BitsOf(c))[8..];
      ByteOfUnique(b, BitsOf(b));
      ByteOfUnique(c, BitsOf(b));
    }
  }

  // ---- the drive and its clock ----

  ghost predicate WriteMode(d: Drive) {
    d.state.Running? && !d.transferreset && !d.writeprotect && Busy(d.port)
  }

  /** What the port of a running drive sees of `ops` when the next bit is due in `wait` cycles. */
  function EventsOf(wait: int, ops: seq<Op>): seq<Event>
    decreases |ops|
  {
    if ops == [] then []
    else if !ops[0].Clock? then [Access(ops[0])] + EventsOf(wait, ops[1..])
    else if wait == 1 then [Tick] + EventsOf(56, ops[1..])
    else EventsOf(wait - 1, ops[1..])
  }

  /** `s` with `bits` written over it from `p` on. */
  ghost predicate Overwritten(s: seq<Byte>, p: nat, bits: seq<bool>, t: seq<Byte>) {
    && |t| == |s| && p + |bits| <= 8 * |s|
    && forall q: nat | q < 8 * |s| :: TapeBit(t, q) == if p <= q < p + |bits| then bits[q - p] else TapeBit(s, q)
  }

  lemma WithTapeBitAt(s: seq<Byte>, p: nat, v: bool, q: nat)
    requires p < 8 * |s| && q < 8 * |s|
    ensures TapeBit(WithTapeBit(s, p, v), q) == if q == p then v else TapeBit(s, q)
  {
  }

  lemma OverwrittenStep(s: seq<Byte>, p: nat, bits: seq<bool>, t: seq<Byte>)
    requires bits != [] && p < 8 * |s|
    requires Overwritten(WithTapeBit(s, p, bits[0]), p + 1, bits[1..], t)
    ensures Overwritten(s, p, bits, t)
  {
    forall q: nat | q < 8 * |s|
      ensures TapeBit(t, q) == if p <= q < p + |bits| then bits[q - p] else TapeBit(s, q)
    {
      WithTapeBitAt(s, p, bits[0], q);
    }
  }

  lemma {:induction false} BitsOutTicks(p: Port, ev: seq<Event>)
    requires p.Inv()
    ensures |BitsOut(p, ev)| == Ticks(ev)
    decreases |ev|
  {
    hide Answer;
    if ev != [] {
      AnswerKeepsInv(p, ev[0]);
      BitsOutTicks(Answer(p, ev[0]), ev[1..]);
    }
  }

  /** One bit time of a drive in write mode. */
  lemma WriteTick(d: Drive)
    requires d.Inv() && WriteMode(d) && d.cycleswaiting == 1 && d.diskpos < d.disksize
    ensures var e := Apply(d, Clock);
            && e.port == d.port.Given() && e.diskpos == d.diskpos + 1
            && e.disk == WithTapeBit(d.disk, d.diskpos, d.port.Out()) && e.disksize == d.disksize
            && (if e.diskpos < e.disksize then e.state.Running? && e.cycleswaiting == 56
                else e.state.Reset? && e.cycleswaiting == Wait(Reset))
            && !e.transferreset && !e.writeprotect
  {
    GivenKeepsInv(d.port);
  }

  lemma GivenStaysBusy(p: Port)
    requires Busy(p)
    ensures Busy(p.Given())
  {
  }

  lemma WriteAccess(d: Drive, op: Op)
    requires d.Inv() && Busy(d.port) && !d.transferreset && !d.state.Idle? && Sending(op) && !op.Clock?
    ensures Apply(d, op) == d.(port := Answer(d.port, Access(op)))
    ensures Busy(Apply(d, op).port)
  {
    AccessKeepsByte(d.port, op);
  }

  /** Once the head has reached the end of the disk, it stays there while the motor springs back. */
  lemma {:induction false} WriteEnded(d: Drive, ops: seq<Op>, wait: int)
    requires d.Inv() && d.state.Reset? && !d.transferreset && Busy(d.port)
    requires forall op | op in ops :: Sending(op)
    requires 1 <= wait <= d.cycleswaiting && Ticks(EventsOf(wait, ops)) == 0
    ensures Run(d, ops).disk == d.disk && Run(d, ops).port == PortRun(d.port, EventsOf(wait, ops))
    ensures Run(d, ops).diskpos == d.diskpos && BitsOut(d.port, EventsOf(wait, ops)) == []
    decreases |ops|
  {
    hide Drive.Clocked, Port.Given, Busy;
    BitsOutTicks(d.port, EventsOf(wait, ops));
    if ops != [] {
      assert ops[0] in ops;
      ApplyKeepsInv(d, ops[0]);
      if !ops[0].Clock? {
        WriteAccess(d, ops[0]);
        WriteEnded(Apply(d, ops[0]), ops[1..], wait);
      } else {
        WaitTick(d);
        WriteEnded(Apply(d, ops[0]), ops[1..], wait - 1);
      }
    }
  }

  /** What a drive in write mode did. */
  ghost predicate WritesTape(d: Drive, ops: seq<Op>, ev: seq<Event>)
    requires d.Inv()
  {
    && 0 <= d.diskpos
    && Overwritten(d.disk, d.diskpos, BitsOut(d.port, ev), Run(d, ops).disk)
    && Run(d, ops).port == PortRun(d.port, ev)
    && Run(d, ops).diskpos == d.diskpos + Ticks(ev)
  }

  /** A drive in write mode lays down exactly what its port gives out, and touches nothing else. */
  lemma {:induction false} WriteRun(d: Drive, ops: seq<Op>)
    requires d.Inv() && WriteMode(d)
    requires forall op | op in ops :: Sending(op)
    requires d.diskpos + Ticks(EventsOf(d.cycleswaiting, ops)) <= d.disksize
    ensures WritesTape(d, ops, EventsOf(d.cycleswaiting, ops))
    decreases |ops|
  {
    hide Drive.Clocked, Port.Given, Busy, Answer;
    if ops != [] {
      assert ops[0] in ops;
      ApplyKeepsInv(d, ops[0]);
      if !ops[0].Clock? {
        WriteAccess(d, ops[0]);
        WriteRun(Apply(d, ops[0]), ops[1..]);
      } else if d.cycleswaiting != 1 {
        WaitTick(d);
        WriteRun(Apply(d, ops[0]), ops[1..]);
      } else {
        WriteTick(d);
        GivenStaysBusy(d.port);
        var e := Apply(d, ops[0]);
        if e.state.Reset? { WriteEnded(e, ops[1..], 56); } else { WriteRun(e, ops[1..]); }
        WritesOneMore(d, ops);
      }
    }
  }

  lemma WritesOneMore(d: Drive, ops: seq<Op>)
    requires d.Inv() && WriteMode(d) && d.cycleswaiting == 1 && d.diskpos < d.disksize
    requires ops != [] && ops[0].Clock? && Apply(d, Clock).Inv()
    requires WritesTape(Apply(d, Clock), ops[1..], EventsOf(56, ops[1..]))
    ensures WritesTape(d, ops, EventsOf(1, ops))
  {
    hide Drive.Clocked, Port.Given, Overwritten;
    WriteTick(d);
    var ev := EventsOf(1, ops);
    assert ev[1..] == EventsOf(56, ops[1..]);
    BitsOutTicks(d.port, ev);
    assert BitsOut(d.port, ev)[1..] == BitsOut(d.port.Given(), ev[1..]);
    OverwrittenStep(d.disk, d.diskpos, BitsOut(d.port, ev), Run(d, ops).disk);
  }

  /** Raising bit 6 with a byte in the latch starts a write with that byte, and a fresh CRC. */
  lemma WriteArmed(p: Port, value: Byte)
    requires p.Inv() && p.Rises(value) && !BitAt(value, 2)
    ensures var q := p.Wrote4025(value);
            Busy(q) && q.writeregpos == 0 && q.writecomputecrc && q.crc == Crc.ZERO
            && q.writereg == q.writereglatch == p.writereglatch && q.cached4025 == value
  {
  }

  /** Software sends a block: marker and data as Sends describes, then two bytes' time in the first of which
      the CRC bit stays. */
  ghost predicate SendsBlock(p: Port, ev: seq<Event>, data: seq<Byte>) {
    exists segments, s1, s2 :: SendsBlockAs(p, ev, data, segments, s1, s2)
  }

  ghost predicate SendsBlockAs(p: Port, ev: seq<Event>, data: seq<Byte>, segments: seq<seq<Event>>,
                               s1: seq<Event>, s2: seq<Event>)
  {
    && ev == Flat(segments) + (s1 + s2)
    && Sends(p.writereglatch, p.cached4025, [FdsFormat.MARKER] + data, segments)
    && IsByte(s1) && KeepsCrc(s1) && IsByte(s2)
  }

  lemma BlockSent(p: Port, ev: seq<Event>, data: seq<Byte>)
    requires Busy(p) && p.writeregpos == 0 && p.writecomputecrc && p.crc == Crc.ZERO
    requires p.writereg == FdsFormat.MARKER && SendsBlock(p, ev, data)
    ensures BitsOut(p, ev) == AllBits(FdsFormat.Body(data))
    ensures PortRun(p, ev).crc == Crc.ZERO && !BitAt(PortRun(p, ev).cached4025, 4)
  {
    hide PortRun, BitsOut, Sends, SendsCrc, KeepsCrc, IsByte, AllBits, FdsFormat.Body, Flat;
    var segments, s1, s2 :| SendsBlockAs(p, ev, data, segments, s1, s2);
    SendBytes(p, [FdsFormat.MARKER] + data, segments);
    var q := PortRun(p, Flat(segments));
    CrcTail(q, FdsFormat.BlockCrc(data), s1, s2);
    PortRunConcat(p, Flat(segments), s1 + s2);
    BitsOutConcat(p, Flat(segments), s1 + s2);
    BodyBits(data);
  }

  /** A block sent through the registers is laid down as marker, data and CRC, wherever the head is, and
      nothing else on the disk changes. */
  lemma BlockWritten(d: Drive, ops: seq<Op>, data: seq<Byte>)
    requires d.Inv() && WriteMode(d)
    requires d.port.writeregpos == 0 && d.port.writecomputecrc && d.port.crc == Crc.ZERO
    requires d.port.writereg == FdsFormat.MARKER
    requires forall op | op in ops :: Sending(op)
    requires SendsBlock(d.port, EventsOf(d.cycleswaiting, ops), data)
    requires d.diskpos + 8 * (|data| + 3) <= d.disksize
    ensures Overwritten(d.disk, d.diskpos, AllBits(FdsFormat.Body(data)), Run(d, ops).disk)
    ensures Run(d, ops).diskpos == d.diskpos + 8 * (|data| + 3)
    ensures Run(d, ops).port.crc == Crc.ZERO && !BitAt(Run(d, ops).port.cached4025, 4)
  {
    hide PortRun, BitsOut, Ticks, SendsBlock, Run, EventsOf, AllBits, FdsFormat.Body, Overwritten;
    var ev := EventsOf(d.cycleswaiting, ops);
    BlockSent(d.port, ev, data);
    BodyBits(data);
    BitsOutTicks(d.port, ev);
    WriteRun(d, ops);
  }

  lemma WrittenBlockHeld(s: seq<Byte>, at: nat, data: seq<Byte>, t: seq<Byte>)
    requires Overwritten(s, at, AllBits(FdsFormat.Body(data)), t)
    ensures HoldsAt(t, at, FdsFormat.Body(data))
    ensures forall from: nat :: Blank(s, from, at) ==> Blank(t, from, at)
  {
    hide FdsFormat.Body, AllBits;
    var body := FdsFormat.Body(data);
    assert TapeBits(t, at, 8 * |body|) == AllBits(body);
  }

  /** Write, then read: after a block was sent, a drive with the resulting disk, in read mode with its
      gap search armed in a blank stretch before it, delivers the same data and the CRC bytes and ends
      with a zero CRC. */
  lemma WriteThenRead(d: Drive, ops: seq<Op>, data: seq<Byte>, e: Drive, readOps: seq<Op>)
    requires d.Inv() && WriteMode(d)
    requires d.port.writeregpos == 0 && d.port.writecomputecrc && d.port.crc == Crc.ZERO
    requires d.port.writereg == FdsFormat.MARKER
    requires forall op | op in ops :: Sending(op)
    requires SendsBlock(d.port, EventsOf(d.cycleswaiting, ops), data)
    requires d.diskpos + 8 * (|data| + 3) <= d.disksize
    requires e.Inv() && ReadMode(e) && e.port.GapSearch()
    requires e.disk == Run(d, ops).disk && e.disksize == d.disksize
    requires e.diskpos <= d.diskpos + 7 && Blank(d.disk, e.diskpos, d.diskpos)
    requires forall op | op in readOps :: Watching(op)
    requires BitTimes(e.cycleswaiting, Clocks(readOps)) == d.diskpos + 8 * (|data| + 3) - e.diskpos
    ensures Delivered(e, readOps) == data + FdsFormat.Trailer(data)
    ensures Run(e, readOps).port.crc == Crc.ZERO
  {
    hide Run, EventsOf, SendsBlock, Overwritten, AllBits, Delivered, HoldsAt, Blank, FdsFormat.Body, FdsFormat.Trailer;
    BlockWritten(d, ops, data);
    WrittenBlockHeld(d.disk, d.diskpos, data, Run(d, ops).disk);
    var t := FdsFormat.Trailer(data);
    assert t == [t[0], t[1]];
    BodyParts(data);
    ReadBlock(e, readOps, d.diskpos, data, t[0], t[1]);
  }

  /** Nothing that lets the drive write: control values have read mode or the transfer reset set. */
  predicate Harmless(op: Op) { KeepsDisk(op) && (op.Write4025? ==> BitAt(op.value, 2) || BitAt(op.value, 1)) }

  predicate CannotWrite(d: Drive) { BitAt(d.port.cached4025, 2) || d.transferreset }

  lemma HarmlessStep(d: Drive, op: Op)
    requires d.Inv() && Harmless(op) && (CannotWrite(d) || op.Write4025?)
    ensures var e := Apply(d, op); e.Inv() && CannotWrite(e) && e.disk == d.disk && e.disksize == d.disksize
  {
    hide Port.Take, BitAt, Port.Rises;
    ApplyKeepsInv(d, op);
    if op.Clock? {
      if d.state.Running? && d.cycleswaiting == 1 && !d.transferreset {
        TakeKeepsMode(d.port, TapeBit(d.disk, d.diskpos));
      }
    }
  }

  lemma TakeKeepsMode(p: Port, bit: bool)
    requires p.Inv()
    ensures BitAt(p.Take(bit).cached4025, 2) == BitAt(p.cached4025, 2)
  {
  }

  /** In such hands the disk stays as it is. */
  lemma {:induction false} HarmlessRun(d: Drive, ops: seq<Op>)
    requires d.Inv() && (CannotWrite(d) || (ops != [] && ops[0].Write4025?))
    requires forall op | op in ops :: Harmless(op)
    ensures Run(d, ops).disk == d.disk && Run(d, ops).disksize == d.disksize
    decreases |ops|
  {
    hide Apply, CannotWrite, Harmless;
    if ops != [] {
      assert ops[0] in ops;
      HarmlessStep(d, ops[0]);
      HarmlessRun(Apply(d, ops[0]), ops[1..]);
    }
  }

  /** One drive writes a block, is told something else, and whatever it does then without writing, once it is before
      the block in read mode again with its gap search armed, it delivers the data. */
  lemma ReadsBack(d: Drive, ops: seq<Op>, data: seq<Byte>, between: seq<Op>, readOps: seq<Op>)
    requires d.Inv() && WriteMode(d)
    requires d.port.writeregpos == 0 && d.port.writecomputecrc && d.port.crc == Crc.ZERO
    requires d.port.writereg == FdsFormat.MARKER
    requires forall op | op in ops :: Sending(op)
    requires SendsBlock(d.port, EventsOf(d.cycleswaiting, ops), data)
    requires d.diskpos + 8 * (|data| + 3) <= d.disksize
    requires between != [] && between[0].Write4025? && forall op | op in between :: Harmless(op)
    requires var e := Run(Run(d, ops), between);
      && ReadMode(e) && e.port.GapSearch() && e.diskpos <= d.diskpos + 7 && Blank(d.disk, e.diskpos, d.diskpos)
      && BitTimes(e.cycleswaiting, Clocks(readOps)) == d.diskpos + 8 * (|data| + 3) - e.diskpos
    requires forall op | op in readOps :: Watching(op)
    ensures var e := Run(Run(d, ops), between);
      Delivered(e, readOps) == data + FdsFormat.Trailer(data) && Run(e, readOps).port.crc == Crc.ZERO
  {
    hide EventsOf, SendsBlock, Delivered, Blank, FdsFormat.Trailer, Harmless, Apply;
    HarmlessRun(Run(d, ops), between);
    SendingRun(d, ops);
    WriteThenRead(d, ops, data, Run(Run(d, ops), between), readOps);
  }

  lemma {:induction false} SendingRun(d: Drive, ops: seq<Op>)
    requires d.Inv() && forall op | op in ops :: Sending(op)
    ensures Run(d, ops).disksize == d.disksize && |Run(d, ops).disk| == |d.disk|
    decreases |ops|
  {
    hide Apply, Sending;
    if ops != [] {
      assert ops[0] in ops;
      SendingStep(d, ops[0]);
      SendingRun(Apply(d, ops[0]), ops[1..]);
    }
  }

  lemma SendingStep(d: Drive, op: Op)
    requires d.Inv() && Sending(op)
    ensures var e := Apply(d, op); e.Inv() && e.disksize == d.disksize && |e.disk| == |d.disk|
  {
    hide Drive.Moved;
    ApplyKeepsInv(d, op);
    if op.Clock? && d.state.Running? { MovedMovesHead(d.(cycleswaiting := d.cycleswaiting - 1)); }
  }

  lemma BodyBits(data: seq<Byte>)
    ensures AllBits(FdsFormat.Body(data))
         == AllBits([FdsFormat.MARKER] + data)
            + (BitsOf(Crc.Low(FdsFormat.BlockCrc(data))) + BitsOf(Crc.High(FdsFormat.BlockCrc(data))))
    ensures |AllBits(FdsFormat.Body(data))| == 8 * (|data| + 3)
  {
    hide Crc.Low, Crc.High, FdsFormat.BlockCrc, BitsOf;
    var t := FdsFormat.Trailer(data);
    AllBitsConcat([FdsFormat.MARKER] + data, t);
    assert t[1..] == [t[1]];
    assert [t[1]][1..] == [];
    assert BitsOf(t[1]) + [] == BitsOf(t[1]);
  }
}
