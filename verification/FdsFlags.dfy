/** What a program sees of the drive's byte transfers: when the transfer flag of $4030 is set and when the disk
    interrupt is raised, over whole runs and in terms of the accesses alone. */
module FdsFlags {
  import opened Bits
  import opened FdsDrive

  /** With the next clock the head passes the last bit of a byte: one that is read, once the gap has ended or while
      the CRC is read, or one that is written, once bit 6 has been raised. */
  predicate CompletesByte(d: Drive) {
    && d.state.Running? && d.cycleswaiting == 1 && !d.transferreset
    && if BitAt(d.port.cached4025, 2)
       then d.port.readregpos == 7 && (!d.port.lookingforendofgap || BitAt(d.port.cached4025, 4))
       else d.port.writeregpos == 7 && d.port.lookingforendofgap && !d.writeprotect
  }

  /** A write to $4025 that raises bit 6 in write mode. */
  predicate StartsWrite(d: Drive, op: Op) {
    op.Write4025? && !BitAt(d.port.cached4025, 6) && BitAt(op.value, 6) && !BitAt(op.value, 2)
  }

  predicate SetsTransfer(d: Drive, op: Op) { (op.Clock? && CompletesByte(d)) || StartsWrite(d, op) }

  predicate ClearsTransfer(op: Op) { op.Write4024? || op.Read4030? || op.Read4031? }

  predicate RaisesIrq(d: Drive, op: Op) { op.Clock? && CompletesByte(d) && BitAt(d.port.cached4025, 7) }

  predicate ClearsIrq(op: Op) { op.Write4025? || op.Read4030? || op.Read4031? }

  // ---- one access ----

  lemma TakeFlags(p: Port, bit: bool)
    requires p.Inv()
    ensures var completes, q := p.readregpos == 7 && !p.GapSearch(), p.Take(bit);
      && q.bytetransferflag == (p.bytetransferflag || completes)
      && q.irq == (p.irq || (completes && BitAt(p.cached4025, 7)))
      && (q.cached4025 == p.cached4025 || q.cached4025 == WithBit(p.cached4025, 4, false))
  {
    hide BitAt, WithBit;
  }

  lemma GivenFlags(p: Port)
    requires p.Inv()
    ensures var completes, q := p.writeregpos == 7 && p.lookingforendofgap, p.Given();
      && q.bytetransferflag == (p.bytetransferflag || completes)
      && q.irq == (p.irq || (completes && BitAt(p.cached4025, 7)))
      && (q.cached4025 == p.cached4025 || q.cached4025 == WithBit(p.cached4025, 4, false))
  {
    hide BitAt, WithBit;
  }

  /** Every access, in whatever state of the drive. */
  lemma ApplyFlags(d: Drive, op: Op)
    requires d.Inv()
    ensures var p, q := d.port, Apply(d, op).port;
      && q.bytetransferflag == (SetsTransfer(d, op) || (p.bytetransferflag && !ClearsTransfer(op)))
      && q.irq == (RaisesIrq(d, op) || (p.irq && !ClearsIrq(op)))
  {
    hide BitAt, WithBit, Port.Take, Port.Given;
    if op.Clock? && d.state.Running? && d.cycleswaiting == 1 && !d.transferreset {
      if BitAt(d.port.cached4025, 2) { TakeFlags(d.port, TapeBit(d.disk, d.diskpos)); } else { GivenFlags(d.port); }
    }
  }

  lemma ApplyControl(d: Drive, op: Op, k: nat)
    requires d.Inv() && k < 8 && k != 4
    ensures BitAt(Apply(d, op).port.cached4025, k) == BitAt(if op.Write4025? then op.value else d.port.cached4025, k)
  {
    hide BitAt, WithBit, Port.Take, Port.Given;
    OtherBit(d.port.cached4025, k);
    if op.Clock? && d.state.Running? && d.cycleswaiting == 1 && !d.transferreset {
      if BitAt(d.port.cached4025, 2) { TakeFlags(d.port, TapeBit(d.disk, d.diskpos)); } else { GivenFlags(d.port); }
    }
  }

  lemma OtherBit(b: Byte, k: nat)
    requires k < 8 && k != 4
    ensures BitAt(WithBit(b, 4, false), k) == BitAt(b, k)
  {
  }

  // ---- runs ----

  lemma RunLast(d: Drive, ops: seq<Op>, last: Op)
    requires d.Inv()
    ensures Run(d, ops + [last]) == Apply(Run(d, ops), last)
  {
    RunJoined(d, ops, [last]);
    ApplyKeepsInv(Run(d, ops), last);
    assert [last][1..] == [];
  }

  /** An access of a run sets the transfer flag, and none after it clears it. */
  ghost predicate TransferLeft(d: Drive, ops: seq<Op>)
    requires d.Inv()
  {
    exists i: nat :: i < |ops| && SetsTransfer(Run(d, ops[..i]), ops[i])
                     && forall j | i < j < |ops| :: !ClearsTransfer(ops[j])
  }

  ghost predicate IrqLeft(d: Drive, ops: seq<Op>)
    requires d.Inv()
  {
    exists i: nat :: i < |ops| && RaisesIrq(Run(d, ops[..i]), ops[i])
                     && forall j | i < j < |ops| :: !ClearsIrq(ops[j])
  }

  /** Over every run, the transfer flag is set just if a byte was completed, or a write started, since $4024, $4030 or
      $4031 was last accessed; or if it was set to begin with and none of them was. */
  lemma {:induction false} TransferFlag(d: Drive, ops: seq<Op>)
    requires d.Inv()
    ensures Run(d, ops).port.bytetransferflag
       <==> TransferLeft(d, ops) || (d.port.bytetransferflag && forall op | op in ops :: !ClearsTransfer(op))
    decreases |ops|
  {
    hide Apply, Drive.Inv, SetsTransfer, ClearsTransfer;
    if ops != [] {
      var front, last := ops[..|ops| - 1], ops[|ops| - 1];
      assert ops == front + [last];
      TransferFlag(d, front);
      RunLast(d, front, last);
      ApplyFlags(Run(d, front), last);
      assert forall i: nat | i < |front| :: ops[..i] == front[..i] && ops[i] == front[i];
      assert ops[..|front|] == front;
      SetsNotClears(Run(d, front), last);
    }
  }

  lemma SetsNotClears(d: Drive, op: Op)
    ensures !(SetsTransfer(d, op) && ClearsTransfer(op)) && !(RaisesIrq(d, op) && ClearsIrq(op))
  {
  }

  /** Over every run, the interrupt is raised just if a byte was completed with bit 7 of $4025 set since $4025, $4030 or
      $4031 was last accessed; or if it was raised to begin with and none of them was. */
  lemma {:induction false} DiskIrq(d: Drive, ops: seq<Op>)
    requires d.Inv()
    ensures Run(d, ops).port.irq
       <==> IrqLeft(d, ops) || (d.port.irq && forall op | op in ops :: !ClearsIrq(op))
    decreases |ops|
  {
    hide Apply, Drive.Inv, RaisesIrq, ClearsIrq;
    if ops != [] {
      var front, last := ops[..|ops| - 1], ops[|ops| - 1];
      assert ops == front + [last];
      DiskIrq(d, front);
      RunLast(d, front, last);
      ApplyFlags(Run(d, front), last);
      assert forall i: nat | i < |front| :: ops[..i] == front[..i] && ops[i] == front[i];
      assert ops[..|front|] == front;
      SetsNotClears(Run(d, front), last);
    }
  }

  /** The value last written to $4025. */
  function LastControl(before: Byte, ops: seq<Op>): Byte
    decreases |ops|
  {
    if ops == [] then before
    else
      var last := ops[|ops| - 1];
      if last.Write4025? then last.value else LastControl(before, ops[..|ops| - 1])
  }

  /** The drive itself changes no bit of $4025 but that of the CRC. */
  lemma {:induction false} ControlKept(d: Drive, ops: seq<Op>, k: nat)
    requires d.Inv() && k < 8 && k != 4
    ensures BitAt(Run(d, ops).port.cached4025, k) == BitAt(LastControl(d.port.cached4025, ops), k)
    decreases |ops|
  {
    hide Apply, Drive.Inv, BitAt;
    if ops != [] {
      var front, last := ops[..|ops| - 1], ops[|ops| - 1];
      assert ops == front + [last];
      ControlKept(d, front, k);
      RunLast(d, front, last);
      ApplyControl(Run(d, front), last, k);
    }
  }

  /** From power-on nothing is left over: the flag and the interrupt are there just if the run has set them, and $4025
      is what the run has written, or zero. */
  lemma FromPowerOn(ops: seq<Op>)
    ensures POWER_ON.Inv()
    ensures var p := Run(POWER_ON, ops).port;
      && (p.bytetransferflag <==> TransferLeft(POWER_ON, ops)) && (p.irq <==> IrqLeft(POWER_ON, ops))
      && forall k: nat | k < 8 && k != 4 :: BitAt(p.cached4025, k) == BitAt(LastControl(0, ops), k)
    ensures var d := Run(POWER_ON, []);
      d.disk == [] && d.state.Idle? && d.writeprotect && !d.transferreset
      && d.port.readreglatch == 0 && forall i: nat | i < 16 :: !d.port.crc[i]
  {
    TransferFlag(POWER_ON, ops);
    DiskIrq(POWER_ON, ops);
    forall k: nat | k < 8 && k != 4
      ensures BitAt(Run(POWER_ON, ops).port.cached4025, k) == BitAt(LastControl(0, ops), k)
    {
      ControlKept(POWER_ON, ops, k);
    }
  }

  // ---- the head ----

  /** The motor's turn takes the head one bit on, whether it reads, writes or passes a protected disk, or 5000 bits
      while transfers are reset; at the end of the disk it springs back. */
  lemma HeadMoves(d: Drive)
    requires d.Inv() && d.state.Running? && d.cycleswaiting == 1
    ensures var e, to := Apply(d, Clock), d.diskpos + if d.transferreset then 5000 else 1;
      && e.diskpos == to && (if to >= d.disksize then e.state.Reset? && e.cycleswaiting == 535000
                             else e.state.Running? && e.cycleswaiting == 56)
      && |e.disk| == |d.disk|
      && forall q: nat | q < 8 * |d.disk| && q != d.diskpos :: TapeBit(e.disk, q) == TapeBit(d.disk, q)
  {
    hide BitAt, WithBit, Port.Take, Port.Given, Port.Out;
    OnlyThatBit(d.disk, d.diskpos, d.port.Out());
  }

  lemma OnlyThatBit(s: seq<Byte>, p: nat, v: bool)
    requires p < 8 * |s|
    ensures forall q: nat | q < 8 * |s| && q != p :: TapeBit(WithTapeBit(s, p, v), q) == TapeBit(s, q)
  {
  }

  /** A protected disk stays as it is, whatever the registers are told. */
  lemma {:induction false} ProtectedKept(d: Drive, ops: seq<Op>)
    requires d.Inv() && d.writeprotect && forall op | op in ops :: KeepsDisk(op)
    ensures Run(d, ops).disk == d.disk && Run(d, ops).writeprotect
    decreases |ops|
  {
    hide Drive.Inv, Apply;
    if ops != [] {
      assert ops[0] in ops;
      ApplyKeepsInv(d, ops[0]);
      ProtectedStep(d, ops[0]);
      ProtectedKept(Apply(d, ops[0]), ops[1..]);
    }
  }

  lemma ProtectedStep(d: Drive, op: Op)
    requires d.Inv() && d.writeprotect && KeepsDisk(op)
    ensures Apply(d, op).disk == d.disk && Apply(d, op).writeprotect
  {
    hide BitAt, WithBit, Port.Take, Port.Given, Port.Wrote4025;
  }
}
