/** The opcode matrix of the 6502: what the three parts of an opcode say, where the instruction set is regular. */
module OpcodeMatrix {
  import opened Microcode

  /** Bits 2 to 4 of an opcode name the address mode. */
  function ModeOf(b: nat): Mode
    requires b < 8 && b != 2
  {
    match b
    case 0 => IndexedIndirect case 1 => ZeroPage case 3 => Absolute case 4 => IndirectIndexed
    case 5 => ZeroPageX case 6 => AbsoluteY case _ => AbsoluteX
  }

  /** Bits 5 to 7 name the operation, in a column for each value of the lowest two bits. */
  function Arithmetic(a: nat): Operation {
    match a
    case 0 => Ora case 1 => And case 2 => Eor case 3 => Adc case 4 => Sta case 5 => Lda case 6 => Cmp case _ => Sbc
  }

  function Shift(a: nat): Operation {
    match a
    case 0 => Asl case 1 => Rol case 2 => Lsr case 3 => Ror case 6 => Dec case _ => Inc
  }

  function Combined(a: nat): Operation {
    match a
    case 0 => Slo case 1 => Rla case 2 => Sre case 3 => Rra case 6 => Dcp case _ => Isc
  }

  function Test(a: nat): Operation {
    match a
    case 0 => Bpl case 1 => Bmi case 2 => Bvc case 3 => Bvs case 4 => Bcc case 5 => Bcs case 6 => Bne case _ => Beq
  }

  /** The entries of the matrix at row `a` and column `b`: arithmetic, which stores in row 4; the instructions that
      modify memory, official and not, outside the rows 4 and 5 of loads and stores; and the branches. */
  predicate Regular(a: nat, b: nat)
    requires a < 8 && b < 8
  {
    var first := 32 * a + 4 * b;
    && ShapeOf(first + 1) == (if b == 2 then Immediate(if a == 4 then Nothing else Arithmetic(a))
                              else if a == 4 then Stores(ModeOf(b), Sta) else Reads(ModeOf(b), Arithmetic(a)))
    && (a != 4 && a != 5 && b % 2 == 1 ==> ShapeOf(first + 2) == Modifies(ModeOf(b), Shift(a)))
    && (a != 4 && a != 5 && b != 2 ==> ShapeOf(first + 3) == Modifies(ModeOf(b), Combined(a)))
    && (b == 4 ==> ShapeOf(first) == Branch(Test(a)))
  }

  lemma Row0(b: nat)
    requires b < 8
    ensures Regular(0, b)
  {
    hide Shapes20, Shapes40, Shapes60, Shapes80, ShapesA0, ShapesC0, ShapesE0, Shapes100;
    match b {
      case 0 =>
      case 1 =>
      case 2 =>
      case 3 =>
      case 4 =>
      case 5 =>
      case 6 =>
      case _ =>
    }
  }

  lemma Row1(b: nat)
    requires b < 8
    ensures Regular(1, b)
  {
    hide Shapes00, Shapes40, Shapes60, Shapes80, ShapesA0, ShapesC0, ShapesE0, Shapes100;
    match b {
      case 0 =>
      case 1 =>
      case 2 =>
      case 3 =>
      case 4 =>
      case 5 =>
      case 6 =>
      case _ =>
    }
  }

  lemma Row2(b: nat)
    requires b < 8
    ensures Regular(2, b)
  {
    hide Shapes00, Shapes20, Shapes60, Shapes80, ShapesA0, ShapesC0, ShapesE0, Shapes100;
    match b {
      case 0 =>
      case 1 =>
      case 2 =>
      case 3 =>
      case 4 =>
      case 5 =>
      case 6 =>
      case _ =>
    }
  }

  lemma Row3(b: nat)
    requires b < 8
    ensures Regular(3, b)
  {
    hide Shapes00, Shapes20, Shapes40, Shapes80, ShapesA0, ShapesC0, ShapesE0, Shapes100;
    match b {
      case 0 =>
      case 1 =>
      case 2 =>
      case 3 =>
      case 4 =>
      case 5 =>
      case 6 =>
      case _ =>
    }
  }

  lemma Row4(b: nat)
    requires b < 8
    ensures Regular(4, b)
  {
    hide Shapes00, Shapes20, Shapes40, Shapes60, ShapesA0, ShapesC0, ShapesE0, Shapes100;
    match b {
      case 0 =>
      case 1 =>
      case 2 =>
      case 3 =>
      case 4 =>
      case 5 =>
      case 6 =>
      case _ =>
    }
  }

  lemma Row5(b: nat)
    requires b < 8
    ensures Regular(5, b)
  {
    hide Shapes00, Shapes20, Shapes40, Shapes60, Shapes80, ShapesC0, ShapesE0, Shapes100;
    match b {
      case 0 =>
      case 1 =>
      case 2 =>
      case 3 =>
      case 4 =>
      case 5 =>
      case 6 =>
      case _ =>
    }
  }

  lemma Row6(b: nat)
    requires b < 8
    ensures Regular(6, b)
  {
    hide Shapes00, Shapes20, Shapes40, Shapes60, Shapes80, ShapesA0, ShapesE0, Shapes100;
    match b {
      case 0 =>
      case 1 =>
      case 2 =>
      case 3 =>
      case 4 =>
      case 5 =>
      case 6 =>
      case _ =>
    }
  }

  lemma Row7(b: nat)
    requires b < 8
    ensures Regular(7, b)
  {
    hide Shapes00, Shapes20, Shapes40, Shapes60, Shapes80, ShapesA0, ShapesC0, Shapes100;
    match b {
      case 0 =>
      case 1 =>
      case 2 =>
      case 3 =>
      case 4 =>
      case 5 =>
      case 6 =>
      case _ =>
    }
  }

  /** The whole matrix. */
  lemma MatrixIsRegular(a: nat, b: nat)
    requires a < 8 && b < 8
    ensures Regular(a, b)
  {
    match a {
      case 0 => Row0(b);
      case 1 => Row1(b);
      case 2 => Row2(b);
      case 3 => Row3(b);
      case 4 => Row4(b);
      case 5 => Row5(b);
      case 6 => Row6(b);
      case _ => Row7(b);
    }
  }
}
