/** The microcode of the 6502: which micro-operations make up an instruction, and what each may do to
    the sequencing of the CPU. */
module Microcode {

  /** What an instruction computes. The results are not modelled; the names keep the table readable. */
  datatype Operation =
    | Adc | Anc | And | Ane | Arr | Asl | Asr | Axs | Bcc | Bcs | Beq | Bit | Bmi | Bne | Bpl | Bvc | Bvs | Clc
    | Cld | Clv | Cmp | Cpx | Cpy | Dcp | Dec | Dex | Dey | Eor | Inc | Inx | Iny | Isc | Las | Lax | Lda | Ldx
    | Ldy | Lsr | Lxa | Nop | Nothing | Ora | Rla | Rol | Ror | Rra | Sax | Sbc | Sec | Sed | Sha | Shs | Shx
    | Shy | Slo | Sre | Sta | Stx | Sty | Tax | Tay | Tsx | Txa | Txs | Tya

  /** The micro-operations that occur in a row, and one that occurs in none. */
  datatype Uop =
    | Fetch2 | PushPCH | PushPCL | PushPBrk | FetchPCLVector | FetchPCHVector | EndSuppressInterrupt
    | IdxIndStage3 | IdxIndStage4 | IdxIndStage5 | IdxIndStage6Read(op: Operation) | End | Jam | IdxIndStage6Rmw
    | IdxIndStage7Rmw(op: Operation) | IdxIndStage8Rmw | ZpRead(op: Operation) | ZpRmwStage3
    | ZpRmw(op: Operation) | ZpRmwStage5 | FetchDummy | PushP | Imm(op: Operation) | Imp(op: Operation) | Fetch3
    | AbsRead(op: Operation) | AbsRmwStage4 | AbsRmwStage5(op: Operation) | AbsRmwStage6
    | RelBranchStage2(op: Operation) | IndIdxStage3 | IndIdxStage4 | IndIdxReadStage5
    | IndIdxReadStage6(op: Operation) | IndIdxRmwStage5 | IndIdxRmwStage6 | IndIdxRmwStage7(op: Operation)
    | IndIdxRmwStage8 | ZpIdxStage3X | ZpIdxRmwStage4 | ZpIdxRmwStage6 | AbsIdxStage3Y | AbsIdxReadStage4
    | AbsIdxReadStage5(op: Operation) | AbsIdxStage4 | AbsIdxRmwStage5 | AbsIdxRmwStage6(op: Operation)
    | AbsIdxRmwStage7 | AbsIdxStage3X | NopRead | Jsr | IncS | PullPNoInc | EndISpecial | PullP | PullPCL
    | PullPCHNoInc | PushA | JmpAbs | ImpCli | IncPC | PullANoInc | AbsIndJmpStage4 | AbsIndJmpStage5 | ImpSei
    | IdxIndStage6Write(op: Operation) | ZpWrite(op: Operation) | AbsWrite(op: Operation) | IndIdxWriteStage5
    | IndIdxWriteStage6(op: Operation) | IndIdxWriteStage5Sha | ZpIdxStage3Y | AbsIdxWriteStage5(op: Operation)
    | AbsIdxStage4Unstable(op: Operation) | Fetch1 | RelBranchStage3 | RelBranchStage4 | PushPNmi | PushPIrq
    | PushDummy | PushPReset | Fetch1Real
    | AluBit // in the enumeration, but the dispatch has no case for it

  datatype Mode =
    | IndexedIndirect | IndirectIndexed | ZeroPageX | ZeroPageY | ZeroPage | AbsoluteX | AbsoluteY | Absolute

  /** The shapes of rows: instructions that read, modify or write what an address mode names, other
      instructions, and the eight rows that are not instructions. */
  datatype Shape =
    | Reads(mode: Mode, op: Operation) | Modifies(mode: Mode, op: Operation) | Stores(mode: Mode, op: Operation)
    | Break | JamForever | PushFlags | Immediate(op: Operation) | Implied(op: Operation) | Branch(op: Operation)
    | Skip | JumpSubroutine | PullFlags | ReturnInterrupt | PushAccumulator | JumpAbsolute | ClearInterrupt
    | ReturnSubroutine | PullAccumulator | JumpIndirect | SetInterrupt | IndirectIndexedUnstable(op: Operation)
    | AbsoluteYUnstable(op: Operation) | AbsoluteXUnstable(op: Operation)
    | Internal(row: InternalRow)

  datatype InternalRow = FetchRow | BranchTaken | BranchCarry | BranchUnused | NmiSequence | IrqSequence | ResetSequence
    | FetchRealRow

  const ROWS := 264
  const FETCH1 := 256
  const RELATIVE_STUFF := 257
  const RELATIVE_STUFF2 := 258
  const NMI_ROW := 260
  const IRQ_ROW := 261
  const RESET_ROW := 262
  const FETCH1_NO_INTERRUPT := 263

  function ExpandRead(mode: Mode, op: Operation): seq<Uop> {
    match mode
    case IndexedIndirect => [Fetch2, IdxIndStage3, IdxIndStage4, IdxIndStage5, IdxIndStage6Read(op), End]
    case IndirectIndexed => [Fetch2, IndIdxStage3, IndIdxStage4, IndIdxReadStage5, IndIdxReadStage6(op), End]
    case ZeroPageX => [Fetch2, ZpIdxStage3X, ZpRead(op), End]
    case ZeroPageY => [Fetch2, ZpIdxStage3Y, ZpRead(op), End]
    case ZeroPage => [Fetch2, ZpRead(op), End]
    case AbsoluteX => [Fetch2, AbsIdxStage3X, AbsIdxReadStage4, AbsIdxReadStage5(op), End]
    case AbsoluteY => [Fetch2, AbsIdxStage3Y, AbsIdxReadStage4, AbsIdxReadStage5(op), End]
    case Absolute => [Fetch2, Fetch3, AbsRead(op), End]
  }

  function ExpandModify(mode: Mode, op: Operation): seq<Uop> {
    match mode
    case IndexedIndirect =>
      [Fetch2, IdxIndStage3, IdxIndStage4, IdxIndStage5, IdxIndStage6Rmw, IdxIndStage7Rmw(op), IdxIndStage8Rmw, End]
    case IndirectIndexed =>
      [Fetch2, IndIdxStage3, IndIdxStage4, IndIdxRmwStage5, IndIdxRmwStage6, IndIdxRmwStage7(op), IndIdxRmwStage8, End]
    case ZeroPageX => [Fetch2, ZpIdxStage3X, ZpIdxRmwStage4, ZpRmw(op), ZpIdxRmwStage6, End]
    case ZeroPageY => [Fetch2, ZpIdxStage3Y, ZpIdxRmwStage4, ZpRmw(op), ZpIdxRmwStage6, End] // in no opcode
    case ZeroPage => [Fetch2, ZpRmwStage3, ZpRmw(op), ZpRmwStage5, End]
    case AbsoluteX => [Fetch2, AbsIdxStage3X, AbsIdxStage4, AbsIdxRmwStage5, AbsIdxRmwStage6(op), AbsIdxRmwStage7, End]
    case AbsoluteY => [Fetch2, AbsIdxStage3Y, AbsIdxStage4, AbsIdxRmwStage5, AbsIdxRmwStage6(op), AbsIdxRmwStage7, End]
    case Absolute => [Fetch2, Fetch3, AbsRmwStage4, AbsRmwStage5(op), AbsRmwStage6, End]
  }

  function ExpandStore(mode: Mode, op: Operation): seq<Uop> {
    match mode
    case IndexedIndirect => [Fetch2, IdxIndStage3, IdxIndStage4, IdxIndStage5, IdxIndStage6Write(op), End]
    case IndirectIndexed => [Fetch2, IndIdxStage3, IndIdxStage4, IndIdxWriteStage5, IndIdxWriteStage6(op), End]
    case ZeroPageX => [Fetch2, ZpIdxStage3X, ZpWrite(op), End]
    case ZeroPageY => [Fetch2, ZpIdxStage3Y, ZpWrite(op), End]
    case ZeroPage => [Fetch2, ZpWrite(op), End]
    case AbsoluteX => [Fetch2, AbsIdxStage3X, AbsIdxStage4, AbsIdxWriteStage5(op), End]
    case AbsoluteY => [Fetch2, AbsIdxStage3Y, AbsIdxStage4, AbsIdxWriteStage5(op), End]
    case Absolute => [Fetch2, Fetch3, AbsWrite(op), End]
  }

  function ExpandInternal(row: InternalRow): seq<Uop> {
    match row
    case FetchRow => [Fetch1]
    case BranchTaken => [RelBranchStage3, End]
    case BranchCarry => [RelBranchStage4, End]
    case BranchUnused => [EndSuppressInterrupt]
    case NmiSequence =>
      [FetchDummy, FetchDummy, PushPCH, PushPCL, PushPNmi, FetchPCLVector, FetchPCHVector, EndSuppressInterrupt]
    case IrqSequence =>
      [FetchDummy, FetchDummy, PushPCH, PushPCL, PushPIrq, FetchPCLVector, FetchPCHVector, EndSuppressInterrupt]
    case ResetSequence =>
      [FetchDummy, FetchDummy, PushDummy, PushDummy, PushPReset, FetchPCLVector, FetchPCHVector, EndSuppressInterrupt]
    case FetchRealRow => [Fetch1Real]
  }

  function Expand(shape: Shape): seq<Uop> {
    match shape
    case Reads(mode, op) => ExpandRead(mode, op)
    case Modifies(mode, op) => ExpandModify(mode, op)
    case Stores(mode, op) => ExpandStore(mode, op)
    case Internal(row) => ExpandInternal(row)
    case Break => [Fetch2, PushPCH, PushPCL, PushPBrk, FetchPCLVector, FetchPCHVector, EndSuppressInterrupt]
    case JamForever => [Jam]
    case PushFlags => [FetchDummy, PushP, End]
    case Immediate(op) => [Imm(op), End]
    case Implied(op) => [Imp(op), End]
    case Branch(op) => [RelBranchStage2(op), End]
    case Skip => [FetchDummy, End]
    case JumpSubroutine => [Fetch2, NopRead, PushPCH, PushPCL, Jsr, End]
    case PullFlags => [FetchDummy, IncS, PullPNoInc, EndISpecial]
    case ReturnInterrupt => [FetchDummy, IncS, PullP, PullPCL, PullPCHNoInc, End]
    case PushAccumulator => [FetchDummy, PushA, End]
    case JumpAbsolute => [Fetch2, JmpAbs, End]
    case ClearInterrupt => [ImpCli, EndISpecial]
    case ReturnSubroutine => [FetchDummy, IncS, PullPCL, PullPCHNoInc, IncPC, End]
    case PullAccumulator => [FetchDummy, IncS, PullANoInc, End]
    case JumpIndirect => [Fetch2, Fetch3, AbsIndJmpStage4, AbsIndJmpStage5, End]
    case SetInterrupt => [ImpSei, EndISpecial]
    case IndirectIndexedUnstable(op) =>
      [Fetch2, IndIdxStage3, IndIdxStage4, IndIdxWriteStage5Sha, IndIdxWriteStage6(op), End]
    case AbsoluteYUnstable(op) => [Fetch2, AbsIdxStage3Y, AbsIdxStage4Unstable(op), AbsIdxWriteStage5(op), End]
    case AbsoluteXUnstable(op) => [Fetch2, AbsIdxStage3X, AbsIdxStage4Unstable(op), AbsIdxWriteStage5(op), End]
  }

  function Shapes00(opcode: int): Shape
    requires 0 <= opcode < 32
  {
    match opcode
    case 0 => Break case 1 => Reads(IndexedIndirect, Ora) case 2 => JamForever
    case 3 => Modifies(IndexedIndirect, Slo) case 4 => Reads(ZeroPage, Nop) case 5 => Reads(ZeroPage, Ora)
    case 6 => Modifies(ZeroPage, Asl) case 7 => Modifies(ZeroPage, Slo) case 8 => PushFlags
    case 9 => Immediate(Ora) case 10 => Implied(Asl) case 11 => Immediate(Anc) case 12 => Reads(Absolute, Nop)
    case 13 => Reads(Absolute, Ora) case 14 => Modifies(Absolute, Asl) case 15 => Modifies(Absolute, Slo)
    case 16 => Branch(Bpl) case 17 => Reads(IndirectIndexed, Ora) case 18 => JamForever
    case 19 => Modifies(IndirectIndexed, Slo) case 20 => Reads(ZeroPageX, Nop) case 21 => Reads(ZeroPageX, Ora)
    case 22 => Modifies(ZeroPageX, Asl) case 23 => Modifies(ZeroPageX, Slo) case 24 => Implied(Clc)
    case 25 => Reads(AbsoluteY, Ora) case 26 => Skip case 27 => Modifies(AbsoluteY, Slo)
    case 28 => Reads(AbsoluteX, Nop) case 29 => Reads(AbsoluteX, Ora) case 30 => Modifies(AbsoluteX, Asl)
    case _ => Modifies(AbsoluteX, Slo)
  }

  function Shapes20(opcode: int): Shape
    requires 32 <= opcode < 64
  {
    match opcode
    case 32 => JumpSubroutine case 33 => Reads(IndexedIndirect, And) case 34 => JamForever
    case 35 => Modifies(IndexedIndirect, Rla) case 36 => Reads(ZeroPage, Bit) case 37 => Reads(ZeroPage, And)
    case 38 => Modifies(ZeroPage, Rol) case 39 => Modifies(ZeroPage, Rla) case 40 => PullFlags
    case 41 => Immediate(And) case 42 => Implied(Rol) case 43 => Immediate(Anc) case 44 => Reads(Absolute, Bit)
    case 45 => Reads(Absolute, And) case 46 => Modifies(Absolute, Rol) case 47 => Modifies(Absolute, Rla)
    case 48 => Branch(Bmi) case 49 => Reads(IndirectIndexed, And) case 50 => JamForever
    case 51 => Modifies(IndirectIndexed, Rla) case 52 => Reads(ZeroPageX, Nop) case 53 => Reads(ZeroPageX, And)
    case 54 => Modifies(ZeroPageX, Rol) case 55 => Modifies(ZeroPageX, Rla) case 56 => Implied(Sec)
    case 57 => Reads(AbsoluteY, And) case 58 => Skip case 59 => Modifies(AbsoluteY, Rla)
    case 60 => Reads(AbsoluteX, Nop) case 61 => Reads(AbsoluteX, And) case 62 => Modifies(AbsoluteX, Rol)
    case _ => Modifies(AbsoluteX, Rla)
  }

  function Shapes40(opcode: int): Shape
    requires 64 <= opcode < 96
  {
    match opcode
    case 64 => ReturnInterrupt case 65 => Reads(IndexedIndirect, Eor) case 66 => JamForever
    case 67 => Modifies(IndexedIndirect, Sre) case 68 => Reads(ZeroPage, Nop) case 69 => Reads(ZeroPage, Eor)
    case 70 => Modifies(ZeroPage, Lsr) case 71 => Modifies(ZeroPage, Sre) case 72 => PushAccumulator
    case 73 => Immediate(Eor) case 74 => Implied(Lsr) case 75 => Immediate(Asr) case 76 => JumpAbsolute
    case 77 => Reads(Absolute, Eor) case 78 => Modifies(Absolute, Lsr) case 79 => Modifies(Absolute, Sre)
    case 80 => Branch(Bvc) case 81 => Reads(IndirectIndexed, Eor) case 82 => JamForever
    case 83 => Modifies(IndirectIndexed, Sre) case 84 => Reads(ZeroPageX, Nop) case 85 => Reads(ZeroPageX, Eor)
    case 86 => Modifies(ZeroPageX, Lsr) case 87 => Modifies(ZeroPageX, Sre) case 88 => ClearInterrupt
    case 89 => Reads(AbsoluteY, Eor) case 90 => Skip case 91 => Modifies(AbsoluteY, Sre)
    case 92 => Reads(AbsoluteX, Nop) case 93 => Reads(AbsoluteX, Eor) case 94 => Modifies(AbsoluteX, Lsr)
    case _ => Modifies(AbsoluteX, Sre)
  }

  function Shapes60(opcode: int): Shape
    requires 96 <= opcode < 128
  {
    match opcode
    case 96 => ReturnSubroutine case 97 => Reads(IndexedIndirect, Adc) case 98 => JamForever
    case 99 => Modifies(IndexedIndirect, Rra) case 100 => Reads(ZeroPage, Nop) case 101 => Reads(ZeroPage, Adc)
    case 102 => Modifies(ZeroPage, Ror) case 103 => Modifies(ZeroPage, Rra) case 104 => PullAccumulator
    case 105 => Immediate(Adc) case 106 => Implied(Ror) case 107 => Immediate(Arr) case 108 => JumpIndirect
    case 109 => Reads(Absolute, Adc) case 110 => Modifies(Absolute, Ror) case 111 => Modifies(Absolute, Rra)
    case 112 => Branch(Bvs) case 113 => Reads(IndirectIndexed, Adc) case 114 => JamForever
    case 115 => Modifies(IndirectIndexed, Rra) case 116 => Reads(ZeroPageX, Nop) case 117 => Reads(ZeroPageX, Adc)
    case 118 => Modifies(ZeroPageX, Ror) case 119 => Modifies(ZeroPageX, Rra) case 120 => SetInterrupt
    case 121 => Reads(AbsoluteY, Adc) case 122 => Skip case 123 => Modifies(AbsoluteY, Rra)
    case 124 => Reads(AbsoluteX, Nop) case 125 => Reads(AbsoluteX, Adc) case 126 => Modifies(AbsoluteX, Ror)
    case _ => Modifies(AbsoluteX, Rra)
  }

  function Shapes80(opcode: int): Shape
    requires 128 <= opcode < 160
  {
    match opcode
    case 128 => Immediate(Nothing) case 129 => Stores(IndexedIndirect, Sta) case 130 => Immediate(Nothing)
    case 131 => Stores(IndexedIndirect, Sax) case 132 => Stores(ZeroPage, Sty) case 133 => Stores(ZeroPage, Sta)
    case 134 => Stores(ZeroPage, Stx) case 135 => Stores(ZeroPage, Sax) case 136 => Implied(Dey)
    case 137 => Immediate(Nothing) case 138 => Implied(Txa) case 139 => Immediate(Ane)
    case 140 => Stores(Absolute, Sty) case 141 => Stores(Absolute, Sta) case 142 => Stores(Absolute, Stx)
    case 143 => Stores(Absolute, Sax) case 144 => Branch(Bcc) case 145 => Stores(IndirectIndexed, Sta)
    case 146 => JamForever case 147 => IndirectIndexedUnstable(Sha) case 148 => Stores(ZeroPageX, Sty)
    case 149 => Stores(ZeroPageX, Sta) case 150 => Stores(ZeroPageY, Stx) case 151 => Stores(ZeroPageY, Sax)
    case 152 => Implied(Tya) case 153 => Stores(AbsoluteY, Sta) case 154 => Implied(Txs)
    case 155 => AbsoluteYUnstable(Shs) case 156 => AbsoluteXUnstable(Shy) case 157 => Stores(AbsoluteX, Sta)
    case 158 => AbsoluteYUnstable(Shx) case _ => AbsoluteYUnstable(Sha)
  }

  function ShapesA0(opcode: int): Shape
    requires 160 <= opcode < 192
  {
    match opcode
    case 160 => Immediate(Ldy) case 161 => Reads(IndexedIndirect, Lda) case 162 => Immediate(Ldx)
    case 163 => Reads(IndexedIndirect, Lax) case 164 => Reads(ZeroPage, Ldy) case 165 => Reads(ZeroPage, Lda)
    case 166 => Reads(ZeroPage, Ldx) case 167 => Reads(ZeroPage, Lax) case 168 => Implied(Tay)
    case 169 => Immediate(Lda) case 170 => Implied(Tax) case 171 => Immediate(Lxa)
    case 172 => Reads(Absolute, Ldy) case 173 => Reads(Absolute, Lda) case 174 => Reads(Absolute, Ldx)
    case 175 => Reads(Absolute, Lax) case 176 => Branch(Bcs) case 177 => Reads(IndirectIndexed, Lda)
    case 178 => JamForever case 179 => Reads(IndirectIndexed, Lax) case 180 => Reads(ZeroPageX, Ldy)
    case 181 => Reads(ZeroPageX, Lda) case 182 => Reads(ZeroPageY, Ldx) case 183 => Reads(ZeroPageY, Lax)
    case 184 => Implied(Clv) case 185 => Reads(AbsoluteY, Lda) case 186 => Implied(Tsx)
    case 187 => Reads(AbsoluteY, Las) case 188 => Reads(AbsoluteX, Ldy) case 189 => Reads(AbsoluteX, Lda)
    case 190 => Reads(AbsoluteY, Ldx) case _ => Reads(AbsoluteY, Lax)
  }

  function ShapesC0(opcode: int): Shape
    requires 192 <= opcode < 224
  {
    match opcode
    case 192 => Immediate(Cpy) case 193 => Reads(IndexedIndirect, Cmp) case 194 => Immediate(Nothing)
    case 195 => Modifies(IndexedIndirect, Dcp) case 196 => Reads(ZeroPage, Cpy) case 197 => Reads(ZeroPage, Cmp)
    case 198 => Modifies(ZeroPage, Dec) case 199 => Modifies(ZeroPage, Dcp) case 200 => Implied(Iny)
    case 201 => Immediate(Cmp) case 202 => Implied(Dex) case 203 => Immediate(Axs)
    case 204 => Reads(Absolute, Cpy) case 205 => Reads(Absolute, Cmp) case 206 => Modifies(Absolute, Dec)
    case 207 => Modifies(Absolute, Dcp) case 208 => Branch(Bne) case 209 => Reads(IndirectIndexed, Cmp)
    case 210 => JamForever case 211 => Modifies(IndirectIndexed, Dcp) case 212 => Reads(ZeroPageX, Nop)
    case 213 => Reads(ZeroPageX, Cmp) case 214 => Modifies(ZeroPageX, Dec) case 215 => Modifies(ZeroPageX, Dcp)
    case 216 => Implied(Cld) case 217 => Reads(AbsoluteY, Cmp) case 218 => Skip
    case 219 => Modifies(AbsoluteY, Dcp) case 220 => Reads(AbsoluteX, Nop) case 221 => Reads(AbsoluteX, Cmp)
    case 222 => Modifies(AbsoluteX, Dec) case _ => Modifies(AbsoluteX, Dcp)
  }

  function ShapesE0(opcode: int): Shape
    requires 224 <= opcode < 256
  {
    match opcode
    case 224 => Immediate(Cpx) case 225 => Reads(IndexedIndirect, Sbc) case 226 => Immediate(Nothing)
    case 227 => Modifies(IndexedIndirect, Isc) case 228 => Reads(ZeroPage, Cpx) case 229 => Reads(ZeroPage, Sbc)
    case 230 => Modifies(ZeroPage, Inc) case 231 => Modifies(ZeroPage, Isc) case 232 => Implied(Inx)
    case 233 => Immediate(Sbc) case 234 => Skip case 235 => Immediate(Sbc) case 236 => Reads(Absolute, Cpx)
    case 237 => Reads(Absolute, Sbc) case 238 => Modifies(Absolute, Inc) case 239 => Modifies(Absolute, Isc)
    case 240 => Branch(Beq) case 241 => Reads(IndirectIndexed, Sbc) case 242 => JamForever
    case 243 => Modifies(IndirectIndexed, Isc) case 244 => Reads(ZeroPageX, Nop) case 245 => Reads(ZeroPageX, Sbc)
    case 246 => Modifies(ZeroPageX, Inc) case 247 => Modifies(ZeroPageX, Isc) case 248 => Implied(Sed)
    case 249 => Reads(AbsoluteY, Sbc) case 250 => Skip case 251 => Modifies(AbsoluteY, Isc)
    case 252 => Reads(AbsoluteX, Nop) case 253 => Reads(AbsoluteX, Sbc) case 254 => Modifies(AbsoluteX, Inc)
    case _ => Modifies(AbsoluteX, Isc)
  }

  function Shapes100(opcode: int): Shape
    requires 256 <= opcode < ROWS
  {
    match opcode
    case 256 => Internal(FetchRow) case 257 => Internal(BranchTaken) case 258 => Internal(BranchCarry)
    case 259 => Internal(BranchUnused) case 260 => Internal(NmiSequence) case 261 => Internal(IrqSequence)
    case 262 => Internal(ResetSequence) case _ => Internal(FetchRealRow)
  }

  function ShapeOf(opcode: int): Shape
    requires 0 <= opcode < ROWS
  {
    if opcode < 32 then Shapes00(opcode)
    else if opcode < 64 then Shapes20(opcode)
    else if opcode < 96 then Shapes40(opcode)
    else if opcode < 128 then Shapes60(opcode)
    else if opcode < 160 then Shapes80(opcode)
    else if opcode < 192 then ShapesA0(opcode)
    else if opcode < 224 then ShapesC0(opcode)
    else if opcode < 256 then ShapesE0(opcode)
    else Shapes100(opcode)
  }

  /** The microcode row of an opcode, or of one of the eight rows that are not opcodes. */
  function Row(opcode: int): seq<Uop>
    requires 0 <= opcode < ROWS
  {
    Expand(ShapeOf(opcode))
  }

  /** What a micro-operation does to the sequencing. */
  datatype Kind =
    | Undispatched
    | Interrupts                         // Fetch1: looks for interrupts
    | Fetch                              // Fetch1_Real: fetches the opcode
    | Work                               // waits for RDY, then reads and computes
    | Vector                             // waits for RDY, then picks and reads the interrupt vector
    | PullI                              // waits for RDY, then pulls the flags, delaying the I flag
    | AssignI(value: bool)               // sets the pending I flag at once, then waits for RDY
    | Unstable                           // waits for RDY, forgetting H while it waits
    | ReadStage                          // nothing without a carry, otherwise waits for RDY
    | Condition(op: Operation)           // waits for RDY, then takes the branch or not
    | Target                             // waits for RDY, then adds the branch offset
    | Store                              // writes, whatever RDY says
    | PushInterrupt(vector: nat, b: bool) // pushes the flags, whatever RDY says
    | Finish(saveI: bool)                // goes on to the next instruction
    | Suppress                           // goes on to the next instruction, without interrupts
    | Stuck                              // stops for good

  const NMI_VECTOR := 0xFFFA
  const IRQ_VECTOR := 0xFFFE
  const BRK_VECTOR := 0xFFFE

  function KindOf(u: Uop): Kind {
    match u
    case AluBit => Undispatched
    case Fetch1 => Interrupts
    case Fetch1Real => Fetch
    case FetchPCLVector => Vector
    case PullPNoInc => PullI
    case ImpCli => AssignI(false)
    case ImpSei => AssignI(true)
    case IndIdxWriteStage5Sha | AbsIdxStage4Unstable(_) => Unstable
    case AbsIdxReadStage4 | IndIdxReadStage5 => ReadStage
    case RelBranchStage2(op) => Condition(op)
    case RelBranchStage3 => Target
    case PushPCH | PushPCL | PushP | PushA => Store
    case AbsWrite(_) | ZpWrite(_) | IdxIndStage6Write(_) | IndIdxWriteStage6(_) | AbsIdxWriteStage5(_) => Store
    case AbsRmwStage5(_) | AbsRmwStage6 | ZpRmw(_) | ZpRmwStage5 | ZpIdxRmwStage6 => Store
    case IdxIndStage7Rmw(_) | IdxIndStage8Rmw | IndIdxRmwStage7(_) | IndIdxRmwStage8 => Store
    case AbsIdxRmwStage6(_) | AbsIdxRmwStage7 => Store
    case PushPBrk => PushInterrupt(BRK_VECTOR, true)
    case PushPNmi => PushInterrupt(NMI_VECTOR, false)
    case PushPIrq => PushInterrupt(IRQ_VECTOR, false)
    case End => Finish(true)
    case EndISpecial => Finish(false)
    case EndSuppressInterrupt => Suppress
    case Jam => Stuck
    case _ => Work
  }

  predicate Writes(k: Kind) { k.Store? || k.PushInterrupt? }

  /** These wait for RDY, whatever else the CPU holds. */
  predicate Waits(k: Kind) {
    k.Fetch? || k.Work? || k.Vector? || k.PullI? || k.AssignI? || k.Unstable? || k.Condition? || k.Target?
  }

  /** These end a row. */
  predicate Ends(k: Kind) { k.Finish? || k.Suppress? || k.Stuck? || k.Interrupts? || k.Fetch? }

  /** What a row is like at index `i`: the micro-operation is dispatched, it ends the row just if it stands at
      the end, one that stops for good stands alone, a read stage is followed by one that reads and
      computes, and it is not the first of four that write. */
  predicate SoundAt(row: seq<Uop>, i: nat)
    requires i < |row|
  {
    var k := KindOf(row[i]);
    && !k.Undispatched?
    && (Ends(k) <==> i == |row| - 1) && (k.Stuck? ==> |row| == 1)
    && (k.ReadStage? && i + 1 < |row| ==> KindOf(row[i + 1]).Work?)
    && (i + 3 < |row| && Writes(k) && Writes(KindOf(row[i + 1])) && Writes(KindOf(row[i + 2]))
        ==> !Writes(KindOf(row[i + 3])))
  }

  predicate Sound(row: seq<Uop>) {
    1 <= |row| && forall i: nat | i < |row| :: SoundAt(row, i)
  }

  /** The number of micro-operations in a row, from index `i` on, that write. */
  function WritesFrom(row: seq<Uop>, i: nat): (n: nat)
    requires i <= |row|
    decreases |row| - i
  {
    if i < |row| && Writes(KindOf(row[i])) then 1 + WritesFrom(row, i + 1) else 0
  }

  lemma ReadSound(mode: Mode, op: Operation, i: nat)
    requires i < |ExpandRead(mode, op)|
    ensures SoundAt(ExpandRead(mode, op), i)
  {
    match mode {
      case IndexedIndirect =>
      case IndirectIndexed =>
      case ZeroPageX =>
      case ZeroPageY =>
      case ZeroPage =>
      case AbsoluteX =>
      case AbsoluteY =>
      case Absolute =>
    }
  }

  lemma ModifySound(mode: Mode, op: Operation, i: nat)
    requires i < |ExpandModify(mode, op)|
    ensures SoundAt(ExpandModify(mode, op), i)
  {
    hide SoundAt, ExpandModify;
    if i < 1 {
      ModifySoundFirst(mode, op);
    } else if i == 1 {
      ModifySoundSecond(mode, op);
    } else if i == 2 {
      ModifySoundThird(mode, op);
    } else {
      ModifySoundLate(mode, op, i);
    }
  }

  lemma ModifySoundFirst(mode: Mode, op: Operation)
    ensures |ExpandModify(mode, op)| > 3 && SoundAt(ExpandModify(mode, op), 0)
  {
  }

  lemma ModifySoundSecond(mode: Mode, op: Operation)
    ensures |ExpandModify(mode, op)| > 3 && SoundAt(ExpandModify(mode, op), 1)
  {
  }

  lemma ModifySoundThird(mode: Mode, op: Operation)
    ensures |ExpandModify(mode, op)| > 3 && SoundAt(ExpandModify(mode, op), 2)
  {
  }

  lemma ModifySoundLate(mode: Mode, op: Operation, i: nat)
    requires 3 <= i < |ExpandModify(mode, op)|
    ensures SoundAt(ExpandModify(mode, op), i)
  {
  }

  lemma StoreSound(mode: Mode, op: Operation, i: nat)
    requires i < |ExpandStore(mode, op)|
    ensures SoundAt(ExpandStore(mode, op), i)
  {
    match mode {
      case IndexedIndirect =>
      case IndirectIndexed =>
      case ZeroPageX =>
      case ZeroPageY =>
      case ZeroPage =>
      case AbsoluteX =>
      case AbsoluteY =>
      case Absolute =>
    }
  }

  lemma InternalSound(row: InternalRow, i: nat)
    requires i < |ExpandInternal(row)|
    ensures SoundAt(ExpandInternal(row), i)
  {
    hide SoundAt, ExpandInternal;
    if i < 2 { InternalSoundEarly(row, i); } else { InternalSoundLate(row, i); }
  }

  lemma InternalSoundEarly(row: InternalRow, i: nat)
    requires i < 2 && i < |ExpandInternal(row)|
    ensures SoundAt(ExpandInternal(row), i)
  {
  }

  lemma InternalSoundLate(row: InternalRow, i: nat)
    requires 2 <= i < |ExpandInternal(row)|
    ensures SoundAt(ExpandInternal(row), i)
  {
  }

  lemma ShapeSound(shape: Shape, i: nat)
    requires i < |Expand(shape)|
    ensures SoundAt(Expand(shape), i)
  {
    match shape
    case Reads(mode, op) => ReadSound(mode, op, i);
    case Modifies(mode, op) => ModifySound(mode, op, i);
    case Stores(mode, op) => StoreSound(mode, op, i);
    case Internal(row) => InternalSound(row, i);
    case _ => OtherSound(shape, i);
  }

  lemma OtherSound(shape: Shape, i: nat)
    requires !shape.Reads? && !shape.Modifies? && !shape.Stores? && !shape.Internal?
    requires i < |Expand(shape)|
    ensures SoundAt(Expand(shape), i)
  {
    hide SoundAt, Expand;
    if i < 1 {
      OtherSoundFirst(shape);
    } else if i < 2 {
      OtherSoundSecond(shape);
    } else if i < 4 {
      OtherSoundMiddle(shape, i);
    } else {
      OtherSoundLate(shape, i);
    }
  }

  lemma OtherSoundFirst(shape: Shape)
    requires !shape.Reads? && !shape.Modifies? && !shape.Stores? && !shape.Internal?
    requires 0 < |Expand(shape)|
    ensures SoundAt(Expand(shape), 0)
  {
    hide ExpandRead, ExpandModify, ExpandStore, ExpandInternal;
  }

  lemma OtherSoundSecond(shape: Shape)
    requires !shape.Reads? && !shape.Modifies? && !shape.Stores? && !shape.Internal?
    requires 1 < |Expand(shape)|
    ensures SoundAt(Expand(shape), 1)
  {
    hide SoundAt, Expand;
    if |Expand(shape)| <= 3 { ShortSoundSecond(shape); } else { LongSoundSecond(shape); }
  }

  lemma ShortSoundSecond(shape: Shape)
    requires !shape.Reads? && !shape.Modifies? && !shape.Stores? && !shape.Internal?
    requires 1 < |Expand(shape)| <= 3
    ensures SoundAt(Expand(shape), 1)
  {
    hide ExpandRead, ExpandModify, ExpandStore, ExpandInternal;
  }

  lemma LongSoundSecond(shape: Shape)
    requires !shape.Reads? && !shape.Modifies? && !shape.Stores? && !shape.Internal?
    requires 3 < |Expand(shape)|
    ensures SoundAt(Expand(shape), 1)
  {
    hide ExpandRead, ExpandModify, ExpandStore, ExpandInternal;
  }

  lemma OtherSoundMiddle(shape: Shape, i: nat)
    requires !shape.Reads? && !shape.Modifies? && !shape.Stores? && !shape.Internal?
    requires 2 <= i < 4 && i < |Expand(shape)|
    ensures SoundAt(Expand(shape), i)
  {
    hide ExpandRead, ExpandModify, ExpandStore, ExpandInternal;
  }

  lemma OtherSoundLate(shape: Shape, i: nat)
    requires !shape.Reads? && !shape.Modifies? && !shape.Stores? && !shape.Internal?
    requires 4 <= i < |Expand(shape)|
    ensures SoundAt(Expand(shape), i)
  {
    hide ExpandRead, ExpandModify, ExpandStore, ExpandInternal;
  }

  /** Every row of the microcode is sound. */
  lemma RowSound(opcode: int)
    requires 0 <= opcode < ROWS
    ensures Sound(Row(opcode))
  {
    hide SoundAt, ShapeOf;
    var row := Row(opcode);
    assert |row| > 0;
    forall i: nat | i < |row| ensures SoundAt(row, i) {
      ShapeSound(ShapeOf(opcode), i);
    }
  }

  lemma FixedShapes()
    ensures ShapeOf(FETCH1) == Internal(FetchRow) && ShapeOf(FETCH1_NO_INTERRUPT) == Internal(FetchRealRow)
    ensures ShapeOf(NMI_ROW) == Internal(NmiSequence) && ShapeOf(IRQ_ROW) == Internal(IrqSequence)
    ensures ShapeOf(RESET_ROW) == Internal(ResetSequence)
  {
    hide Shapes00, Shapes20, Shapes40, Shapes60, Shapes80, ShapesA0, ShapesC0, ShapesE0;
  }

  /** The rows that interrupts and the next instruction go to begin with a micro-operation that waits. */
  lemma FixedRows()
    ensures Row(FETCH1) == [Fetch1] && Row(FETCH1_NO_INTERRUPT) == [Fetch1Real]
    ensures forall r | r in [NMI_ROW, IRQ_ROW, RESET_ROW] :: |Row(r)| == 8 && Row(r)[0] == FetchDummy
  {
    hide ShapeOf, ExpandRead, ExpandModify, ExpandStore;
    FixedShapes();
  }

  /** From anywhere in a sound row, at most three writes come before something that does not write. */
  lemma {:induction false} WritesBounded(row: seq<Uop>, i: nat)
    requires Sound(row) && i < |row|
    ensures WritesFrom(row, i) <= 3 && i + WritesFrom(row, i) < |row|
    ensures !Writes(KindOf(row[i + WritesFrom(row, i)]))
  {
    hide KindOf;
    WritesStep(row, i);
    if i + 1 < |row| { WritesStep(row, i + 1); }
    if i + 2 < |row| { WritesStep(row, i + 2); }
    if i + 3 < |row| { WritesStep(row, i + 3); }
  }

  lemma WritesStep(row: seq<Uop>, i: nat)
    requires Sound(row) && i < |row|
    ensures WritesFrom(row, i) == if Writes(KindOf(row[i])) then 1 + WritesFrom(row, i + 1) else 0
    ensures Writes(KindOf(row[i])) ==> i + 1 < |row|
    ensures i + 3 < |row| ==> !(Writes(KindOf(row[i])) && Writes(KindOf(row[i + 1]))
                                && Writes(KindOf(row[i + 2])) && Writes(KindOf(row[i + 3])))
  {
    hide KindOf;
    assert SoundAt(row, i);
  }
}
