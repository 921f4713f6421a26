/** Operands of the DSP instruction set: what the assembler reads from the source
    text, how it rewrites the value for the operand type of a field, and what the
    disassembler prints for the bits it finds there. */
module Operands {
  import opened Bits

  /** An operand as written in assembly and as printed by the disassembler. */
  datatype Operand =
    | Named(reg: nat)                      // index into the register name table
    | XGpram(cell: nat)
    | YGpram(cell: nat)
    | IndLiteral(y: bool, addr: nat)       // @#addr_X, @#addr_Y
    | IndReg(y: bool, areg: nat)           // @A_Rr_X
    | IndInc(y: bool, areg: nat)           // @A_Rr_X_INC
    | IndPlusMdfr(y: bool, areg: nat, mreg: nat)   // @A_Rr_X += A_MDm
    | IndMdfrOffset(y: bool, areg: nat, mreg: nat) // @A_Rr_X + A_MDm
    | IndLitOffset(y: bool, areg: nat, off: int) // @A_Rr_X + off
    | Literal(val: nat)                    // a 32-bit pattern
    | StackTop(md: bool)                  // C_STK_TOP, C_STK_TOP_MD
    | StackBase(md: bool, slot: nat)      // C_STK_BASE + n, C_STK_BASE_MD + n
    | NoArgs

  /** The operands that exist: register names come from a table of 256 entries, the X and Y
      register files have 512 words, address and modifier registers are eight each, and
      values are 32 bits wide. The parser itself does not check register file and address
      register numbers. */
  predicate Valid(o: Operand) {
    match o
    case Named(r) => r < 256
    case XGpram(n) => n < 512
    case YGpram(n) => n < 512
    case IndLiteral(_, a) => a < 0x1_0000_0000
    case IndReg(_, r) => r < 8
    case IndInc(_, r) => r < 8
    case IndPlusMdfr(_, r, m) => r < 8 && m < 8
    case IndMdfrOffset(_, r, m) => r < 8 && m < 8
    case IndLitOffset(_, r, off) => r < 8 && -0x1000_0000 <= off < 0x1000_0000
    case Literal(v) => v < 0x1_0000_0000
    case StackTop(_) => true
    case StackBase(_, n) => n < 0x1_0000_0000
    case NoArgs => true
  }

  datatype SrcMdfr = MdfrNone | MdfrInc | MdfrDec | MdfrRR | MdfrRL | Mdfr16Upper | Mdfr16Signed

  /** Fields that hold one of the first 256 registers in a compressed form. */
  datatype NarrowType =
    | REG_2 | REG_2_4 | REG_2_8 | REG_2_12 | REG_2_T1 | REG_2_T2
    | REG_3_X_T1 | REG_3_Y_T1 | REG_3_X_T2 | REG_3_Y_T2 | REG_3 | REG_3_8 | REG_3_FMA | REG_3_ACC
    | REG_3_FMA_Y_T1 | REG_3_FMA_X_T1 | REG_3_FMA_Y_T2 | REG_3_FMA_X_T2 | REG_3_FMA_A_T1
    | REG_4 | REG_5 | REG_5_MOVX | REG_7 | REG_10

  /** Fields that hold any register, an offset from another register field, or a
      register taken by its low bits. */
  datatype WideType = REG_11 | REG_11_10_OFFSET | REG_11_4_OFFSET | A_REG_CALL | A_REG_CALL_MDFR

  datatype AddrType =
    | A_REG | A_REG_X | A_REG_Y | A_REG_X_INC | A_REG_Y_INC
    | A_REG_PLUS_MDFR | A_REG_X_PLUS_MDFR | A_REG_Y_PLUS_MDFR
    | A_REG_X_MDFR_OFFSET | A_REG_Y_MDFR_OFFSET

  datatype OffsetType =
    | A_REG_INT_7_OFFSET | A_REG_X_INT_11_OFFSET | A_REG_Y_INT_11_OFFSET | A_REG_INT_17_OFFSET

  datatype LiteralType =
    | LITERAL_7_INT | LITERAL_8_INT | LITERAL_8_INT_PC_OFFSET | LITERAL_8 | LITERAL_11
    | LITERAL_16 | LITERAL_16_ADDR | LITERAL_32

  datatype StackType = C_STK_5 | C_STK_11 | NOP_ARG

  datatype OperandType =
    | Nar(n: NarrowType) | Wid(w: WideType) | Adr(a: AddrType) | Ofs(f: OffsetType)
    | Lit(l: LiteralType) | Stk(s: StackType)

  /** Conversion of a signed value to uint32_t. */
  function Wrap(v: int): nat { v % 0x1_0000_0000 }

  /** v | p for a power of two p. */
  function SetBit(v: nat, p: nat): nat
    requires p > 0
  {
    if v / p % 2 == 1 then v else v + p
  }

  /** The low part of v (below the power of two n) read as a two's complement number. */
  function Signed(v: nat, n: nat): int
    requires n > 0
  {
    if v % n >= n / 2 then v % n - n else v % n
  }

  /** operand->val as get_operand_val_from_token leaves it. */
  function TokenVal(o: Operand): nat {
    match o
    case Named(r) => 0x300 + r
    case XGpram(n) => 0x400 + n
    case YGpram(n) => 0x600 + n
    case IndLiteral(_, a) => a
    case IndReg(y, r) => if y then 8 + r else r
    case IndInc(_, r) => 8 + r
    case IndPlusMdfr(y, r, m) => 8 * r + m + (if y then 0x40 else 0)
    case IndMdfrOffset(_, r, m) => 8 * m + r
    case IndLitOffset(_, r, off) => Wrap(8 * off + r)
    case Literal(v) => v
    case StackTop(md) => if md then 0x60 else 0x20
    case StackBase(md, n) => if md then SetBit(n, 0x80) else n
    case NoArgs => 0
  }

  predicate IsReg(o: Operand) { o.Named? || o.XGpram? || o.YGpram? }

  /* What check_operand_compatibility accepts. Registers are compared by the low eight
     bits of their value together with its two highest bits (the register file bits). */

  function RegVal(o: Operand): nat {
    TokenVal(o) % 256 + TokenVal(o) / 1024 % 4 * 1024
  }

  predicate NarrowAccepts(t: NarrowType, r: nat) {
    match t
    case REG_2 => r < 4
    case REG_2_4 => 3 < r < 8
    case REG_2_8 => 7 < r < 12
    case REG_2_12 => 11 < r < 16
    case REG_2_T1 => r == 12 || r == 13 || r == 8 || r == 9
    case REG_2_T2 => r == 4 || r == 5 || r == 0 || r == 1
    case REG_3_X_T1 => r < 8
    case REG_3_Y_T1 => r <= 5 || 12 <= r <= 13
    case REG_3_X_T2 => r / 8 % 2 == 1 && r < 16
    case REG_3_Y_T2 => 4 <= r <= 5 || 8 <= r <= 13
    case REG_3_ACC => 4 <= r <= 7 || 12 <= r <= 15
    case REG_3_FMA_Y_T1 => r < 6
    case REG_3_FMA_X_T1 => r <= 5 || 8 <= r <= 9
    case REG_3_FMA_Y_T2 => r / 8 % 2 == 1 && r < 13
    case REG_3_FMA_X_T2 => r <= 1 || 8 <= r <= 13
    case REG_3_FMA_A_T1 => 4 <= r <= 7 || 12 <= r <= 15
    case REG_3_FMA => r <= 1 || 4 <= r <= 5 || 8 <= r <= 9 || 12 <= r <= 13
    case REG_3 => r < 8
    case REG_4 => r < 0x10
    case REG_5_MOVX => r < 0x20
    case REG_5 => r < 0x20
    case REG_7 => r < 0x80
    case REG_3_8 => 7 < r < 0x10
    case REG_10 => r < 0x100
  }

  predicate WideAccepts(t: WideType, o: Operand, base: Operand) {
    IsReg(o) &&
    match t
    case REG_11 => true
    case REG_11_4_OFFSET => TokenVal(o) / 16 % 256 == TokenVal(base) / 16 % 256
    case REG_11_10_OFFSET => -0x200 < TokenVal(o) - TokenVal(base) < 0x200
    case A_REG_CALL_MDFR => TokenVal(o) % 0x20 > 0x17
    case A_REG_CALL => 0x0f < TokenVal(o) % 0x20 < 0x18
  }

  predicate AddrAccepts(t: AddrType, o: Operand) {
    match t
    case A_REG => o.IndReg?
    case A_REG_X => o.IndReg? && !o.y
    case A_REG_Y => o.IndReg? && o.y
    case A_REG_X_INC => o.IndInc? && !o.y
    case A_REG_Y_INC => o.IndInc? && o.y
    case A_REG_PLUS_MDFR => o.IndPlusMdfr?
    case A_REG_X_PLUS_MDFR => o.IndPlusMdfr? && !o.y
    case A_REG_Y_PLUS_MDFR => o.IndPlusMdfr? && o.y
    case A_REG_X_MDFR_OFFSET => o.IndMdfrOffset? && !o.y
    case A_REG_Y_MDFR_OFFSET => o.IndMdfrOffset? && o.y
  }

  /** restore_integer_offset(val >> 3) */
  function RestoreOffset(v: nat): int { Signed(v / 8, 0x2000_0000) }

  predicate OffsetAccepts(t: OffsetType, o: Operand) {
    o.IndLitOffset? &&
    var off := RestoreOffset(TokenVal(o));
    match t
    case A_REG_INT_7_OFFSET => -0x40 <= off <= 0x3f
    case A_REG_INT_17_OFFSET => -0x8000 <= off <= 0x7fff
    case A_REG_X_INT_11_OFFSET => !o.y && -0x400 <= off <= 0x3ff
    case A_REG_Y_INT_11_OFFSET => o.y && -0x400 <= off <= 0x3ff
  }

  predicate LiteralAccepts(t: LiteralType, o: Operand, twin: Operand, mdfr: SrcMdfr) {
    match t
    case LITERAL_7_INT => o.Literal? && -0x40 <= Signed(o.val, 0x1_0000_0000) <= 0x3f
    case LITERAL_8_INT => o.Literal? && -0x80 <= Signed(o.val, 0x1_0000_0000) <= 0x7f
    case LITERAL_8_INT_PC_OFFSET => o.Literal? && -0x80 <= Signed(o.val, 0x1_0000_0000) <= 0x7f
    case LITERAL_8 => o.Literal? && o.val < 0x100
    case LITERAL_11 => o.Literal? && o.val < 0x800
    case LITERAL_16 => o.Literal? && TokenVal(twin) == o.val && Fits16(o.val, mdfr)
    case LITERAL_16_ADDR => o.IndLiteral?
    case LITERAL_32 => o.Literal?
  }

  predicate Fits16(v: nat, mdfr: SrcMdfr) {
    match mdfr
    case Mdfr16Upper => v >= 0x10000 && v % 0x10000 == 0
    case Mdfr16Signed => -0x8000 <= Signed(v, 0x1_0000_0000) <= 0x7fff
    case _ => v < 0x10000
  }

  predicate StackAccepts(t: StackType, o: Operand) {
    match t
    case C_STK_5 => (o.StackTop? || o.StackBase?) && TokenVal(o) < 0x10
    case C_STK_11 => o.StackTop? || o.StackBase?
    case NOP_ARG => o.NoArgs?
  }

  /** check_operand_compatibility. `base` is the operand at the same position of the
      first parallel half, `twin` the one at the same position of the second half. */
  predicate Accepts(ty: OperandType, o: Operand, base: Operand, twin: Operand, mdfr: SrcMdfr) {
    match ty
    case Nar(t) => IsReg(o) && NarrowAccepts(t, RegVal(o))
    case Wid(t) => WideAccepts(t, o, base)
    case Adr(t) => AddrAccepts(t, o)
    case Ofs(t) => OffsetAccepts(t, o)
    case Lit(t) => LiteralAccepts(t, o, twin, mdfr)
    case Stk(t) => StackAccepts(t, o)
  }

  /* asm_op_operand_val_fixup: the value written into the field. */

  function NarrowFixed(t: NarrowType, v: nat): nat {
    match t
    case REG_2_4 => Wrap(v - 4)
    case REG_2_8 => Wrap(v - 8)
    case REG_2_12 => Wrap(v - 12)
    case REG_2_T1 => if v % 256 < 12 then 2 + v % 2 else v % 2
    case REG_2_T2 => if v % 256 < 4 then 2 + v % 2 else v % 2
    case REG_3_X_T1 => if v % 256 < 4 then 4 + v % 4 else v % 4
    case REG_3_Y_T1 => if v % 256 < 12 then v % 256 else 6 + v % 2
    case REG_3_X_T2 => if v % 256 < 12 then 4 + v % 4 else v % 4
    case REG_3_Y_T2 => if v % 256 > 11 then 6 + v % 2 else if v % 256 > 5 then v % 4 else v
    case REG_3_FMA_X_T1 => if v % 256 > 7 then 6 + v % 2 else v
    case REG_3_FMA_X_T2 => if v % 256 < 2 then 6 + v % 2 else Wrap(v - 8)
    case REG_3_FMA_A_T1 => if v % 256 > 11 then 4 + v % 4 else v % 4
    case REG_3_8 => Wrap(v - 8)
    case REG_3_FMA =>
      (match v / 2 % 8
       case 6 => 2
       case 4 => 6
       case 0 => 4
       case _ => 0) + v % 2
    case REG_3_ACC => if v % 256 < 12 then 4 + v % 4 else v % 4
    case REG_5_MOVX => if v % 256 > 0x0f then v % 32 + 32 else v
    case _ => v
  }

  function WideFixed(t: WideType, v: nat, base: nat): nat {
    match t
    case REG_11 => v
    case REG_11_4_OFFSET => (v % 16 - base % 16) % 16 * 2048
    case REG_11_10_OFFSET => (v % 2048 - base % 2048) % 1024 * 2048
    case A_REG_CALL => v % 8
    case A_REG_CALL_MDFR => v % 8
  }

  function OffsetFixed(t: OffsetType, y: bool, v: nat): nat {
    match t
    case A_REG_INT_7_OFFSET =>
      var shifted := Wrap(2 * v);
      v % 8 + (shifted - shifted % 16) + (if y then 8 else 0)
    case A_REG_INT_17_OFFSET => v % 0x100000 + (if y then 0x100000 else 0)
    case _ => v
  }

  function LiteralFixed(t: LiteralType, y: bool, v: nat, mdfr: SrcMdfr): nat {
    match t
    case LITERAL_16_ADDR => if y then SetBit(v, 0x100000) else v
    case LITERAL_16 => if mdfr.Mdfr16Upper? then v / 0x10000 else v
    case _ => v
  }

  /** The operand addresses Y memory. */
  predicate IsY(o: Operand) {
    match o
    case IndLiteral(y, _) => y
    case IndReg(y, _) => y
    case IndLitOffset(y, _, _) => y
    case _ => false
  }

  /** `base` is the operand four (or three) places earlier, which the relative types
      are measured from. */
  function FixedVal(ty: OperandType, o: Operand, base: Operand, mdfr: SrcMdfr): nat {
    match ty
    case Nar(t) => NarrowFixed(t, TokenVal(o))
    case Wid(t) => WideFixed(t, TokenVal(o), TokenVal(base))
    case Adr(t) => if t == A_REG && IsY(o) then SetBit(TokenVal(o), 8) else TokenVal(o)
    case Ofs(t) => OffsetFixed(t, IsY(o), TokenVal(o))
    case Lit(t) => LiteralFixed(t, IsY(o), TokenVal(o), mdfr)
    case Stk(_) => TokenVal(o)
  }

  predicate Relative(ty: OperandType) {
    ty == Wid(REG_11_4_OFFSET) || ty == Wid(REG_11_10_OFFSET)
  }

  /* What print_operand_str prints for a field value. */

  function NarrowDecode(t: NarrowType, v: nat): nat {
    match t
    case REG_2 => v % 4
    case REG_2_4 => 4 + v % 4
    case REG_2_8 => 8 + v % 4
    case REG_2_12 => 12 + v % 4
    case REG_2_T1 => (if v / 2 % 2 == 1 then 8 else 12) + v % 2
    case REG_2_T2 => (if v / 2 % 2 == 1 then 0 else 4) + v % 2
    case REG_3_X_T1 => (if v / 4 % 2 == 1 then 0 else 4) + v % 4
    case REG_3_Y_T1 => if v > 5 then 12 + v % 2 else v
    case REG_3_X_T2 => (if v / 4 % 2 == 1 then 8 else 12) + v % 4
    case REG_3_Y_T2 => if v <= 3 then 8 + v % 4 else if v <= 5 then v else if v <= 7 then 12 + v % 2 else 0
    case REG_3_FMA_X_T1 => if v > 5 then 8 + v % 2 else v
    case REG_3_FMA_X_T2 => if v > 5 then v % 2 else 8 + v
    case REG_3_FMA_A_T1 => (if v > 4 then 12 else 4) + v % 4
    case REG_3_FMA_Y_T1 => v % 8
    case REG_3 => v % 8
    case REG_4 => v % 16
    case REG_5 => v % 32
    case REG_5_MOVX => v % 32
    case REG_7 => v % 128
    case REG_3_FMA_Y_T2 => v % 8 + 8
    case REG_3_8 => v % 8 + 8
    case REG_10 => v % 256
    case REG_3_ACC => (if v / 4 % 2 == 1 then 4 else 12) + v % 4
    case REG_3_FMA =>
      (match v / 2 % 4
       case 3 => 8
       case 2 => 0
       case 1 => 12
       case _ => 4) + v % 2
  }

  function WideDecode(t: WideType, v: nat): Operand {
    match t
    case REG_11 => Reg11Decode(v)
    case REG_11_4_OFFSET => Reg4OffsetDecode(v)
    case REG_11_10_OFFSET => Reg10OffsetDecode(v)
    case A_REG_CALL_MDFR => Named(v + 0x18)
    case A_REG_CALL => Named(v + 0x10)
  }

  function Reg11Decode(v: nat): Operand {
    if v / 1024 % 2 == 1 then
      if v / 512 % 2 == 1 then YGpram(v % 256) else XGpram(v % 256)
    else Named(v % 256)
  }

  /** The base register's number with its low four bits moved by the offset. */
  function Sum4Offset(b: nat, off: nat): nat {
    var sum := b / 16 * 16 + (off + b % 16) % 16;
    if sum / 512 % 4 != b / 512 % 4 then sum % 512 + b / 512 % 4 * 512 else sum
  }

  /** The printing of a relative operand: bit 10 tells the register files apart from
      the named registers, bit 11 (which no 11-bit number has) the files from each other. */
  function Print4Offset(t: nat): Operand {
    if t / 1024 % 2 == 1 then
      if t / 2048 % 2 == 1 then YGpram(t % 1024) else XGpram(t % 128)
    else Named(t % 128)
  }

  /** The base register's number plus the sign-extended offset, the extension being
      16 bits wide and the sum 32. */
  function Sum10Offset(b: nat, off: nat): nat {
    b + (if off / 512 % 2 == 1 then off + 0xfc00 else off)
  }

  function Print10Offset(t: nat): Operand {
    if t / 1024 % 2 == 1 then
      if t / 2048 % 2 == 1 then YGpram(t % 1024) else XGpram(t % 128)
    else Named(t % 256)
  }

  /** A relative field reads as the offset above the base register's own 11 bits. */
  function Reg4OffsetDecode(v: nat): Operand {
    Print4Offset(Sum4Offset(v % 2048, v / 2048 % 16))
  }

  function Reg10OffsetDecode(v: nat): Operand {
    Print10Offset(Sum10Offset(v % 2048, v / 2048 % 1024))
  }

  function AddrDecode(t: AddrType, v: nat): Operand {
    match t
    case A_REG => IndReg(v / 8 % 2 == 1, v % 8)
    case A_REG_PLUS_MDFR => IndPlusMdfr(v / 64 % 2 == 1, v / 8 % 8, v % 8)
    case A_REG_X_PLUS_MDFR => IndPlusMdfr(false, v / 8 % 8, v % 8)
    case A_REG_Y_PLUS_MDFR => IndPlusMdfr(true, v / 8 % 8, v % 8)
    case A_REG_X_MDFR_OFFSET => IndMdfrOffset(false, v % 8, v / 8 % 8)
    case A_REG_Y_MDFR_OFFSET => IndMdfrOffset(true, v % 8, v / 8 % 8)
    case A_REG_X_INC => IndInc(false, v % 8)
    case A_REG_Y_INC => IndInc(true, v % 8)
    case A_REG_X => if v / 8 % 2 == 1 then IndInc(false, v % 8) else IndReg(false, v % 8)
    case A_REG_Y => if v / 8 % 2 == 1 then IndInc(true, v % 8) else IndReg(true, v % 8)
  }

  function OffsetDecode(t: OffsetType, v: nat): Operand {
    match t
    case A_REG_INT_7_OFFSET => IndLitOffset(v / 8 % 2 == 1, v % 8, Signed(v / 16, 128))
    case A_REG_INT_17_OFFSET => IndLitOffset(v / 0x100000 % 2 == 1, v % 8, Signed(v / 8, 0x20000))
    case A_REG_X_INT_11_OFFSET => IndLitOffset(false, v % 8, Signed(v / 8, 2048))
    case A_REG_Y_INT_11_OFFSET => IndLitOffset(true, v % 8, Signed(v / 8, 2048))
  }

  function LiteralDecode(t: LiteralType, v: nat, mdfr: SrcMdfr): Operand {
    match t
    case LITERAL_7_INT => Literal(Wrap(Signed(v, 128)))
    case LITERAL_8_INT => Literal(Wrap(Signed(v, 256)))
    case LITERAL_8_INT_PC_OFFSET => Literal(Wrap(Signed(v, 256)))
    case LITERAL_8 => Literal(v)
    case LITERAL_11 => Literal(v % 2048)
    case LITERAL_16 =>
      (match mdfr
       case Mdfr16Upper => Literal(Wrap(v * 0x10000))
       case Mdfr16Signed => Literal(Wrap(Signed(v, 0x10000)))
       case _ => Literal(v))
    case LITERAL_16_ADDR => IndLiteral(v >= 0x10000, v % 0x10000)
    case LITERAL_32 => Literal(v)
  }

  function StackDecode(t: StackType, v: nat): Operand {
    match t
    case C_STK_5 => StackBase(false, v)
    case C_STK_11 =>
      if v / 32 % 2 == 1 then StackTop(v / 64 % 2 == 1) else StackBase(v / 128 % 2 == 1, v % 32)
    case NOP_ARG => NoArgs
  }

  function Decode(ty: OperandType, v: nat, mdfr: SrcMdfr): Operand {
    match ty
    case Nar(t) => Named(NarrowDecode(t, v))
    case Wid(t) => WideDecode(t, v)
    case Adr(t) => AddrDecode(t, v)
    case Ofs(t) => OffsetDecode(t, v)
    case Lit(t) => LiteralDecode(t, v, mdfr)
    case Stk(t) => StackDecode(t, v)
  }

  /** Number of bits of the field (or fields) of an operand type in every layout. For the
      relative types this counts the offset only: the rest is the base operand's field. */
  function Width(ty: OperandType): nat {
    match ty
    case Nar(t) =>
      (match t
       case REG_2 => 2 case REG_2_4 => 2 case REG_2_8 => 2 case REG_2_12 => 2 case REG_2_T1 => 2 case REG_2_T2 => 2
       case REG_4 => 4 case REG_5 => 5 case REG_5_MOVX => 6 case REG_7 => 7 case REG_10 => 10
       case _ => 3)
    case Wid(t) =>
      (match t case REG_11 => 11 case REG_11_10_OFFSET => 10 case REG_11_4_OFFSET => 4 case _ => 3)
    case Adr(t) =>
      (match t
       case A_REG => 4 case A_REG_PLUS_MDFR => 7
       case A_REG_X_PLUS_MDFR => 6 case A_REG_Y_PLUS_MDFR => 6
       case A_REG_X_MDFR_OFFSET => 6 case A_REG_Y_MDFR_OFFSET => 6
       case _ => 3)
    case Ofs(t) =>
      (match t case A_REG_INT_7_OFFSET => 11 case A_REG_INT_17_OFFSET => 21 case _ => 14)
    case Lit(t) =>
      (match t
       case LITERAL_7_INT => 7 case LITERAL_11 => 11 case LITERAL_16 => 16
       case LITERAL_16_ADDR => 21 case LITERAL_32 => 32
       case _ => 8)
    case Stk(t) =>
      (match t case C_STK_5 => 5 case C_STK_11 => 11 case NOP_ARG => 1)
  }

  /** The number of values the field of an operand type can hold. */
  function Span(ty: OperandType): (m: nat)
    ensures m > 0
  {
    match Width(ty)
    case 1 => 2
    case 2 => 4
    case 3 => 8
    case 4 => 16
    case 5 => 32
    case 6 => 64
    case 7 => 128
    case 8 => 256
    case 10 => 1024
    case 11 => 2048
    case 14 => 0x4000
    case 16 => 0x1_0000
    case 21 => 0x20_0000
    case _ => 0x1_0000_0000
  }

  /** What the disassembler reads back from the field the assembler wrote. */
  function Raw(ty: OperandType, o: Operand, base: Operand, mdfr: SrcMdfr): nat {
    var v := FixedVal(ty, o, base, mdfr);
    if Relative(ty) then v / 2048 % Span(ty) * 2048 + TokenVal(base) % 2048
    else v % Span(ty)
  }

  /** The operands a field of this type cannot represent although the assembler accepts
      them: the disassembler prints a different operand for their encoding. */
  predicate Misread(ty: OperandType, o: Operand) {
    match ty
    case Nar(t) => t == REG_3_FMA_A_T1 && o == Named(12)
    case Wid(t) =>
      (match t
       case REG_11 => !o.Named? && IsReg(o) && o.cell >= 256
       case REG_11_4_OFFSET => o.YGpram? || (o.XGpram? && o.cell >= 128) || (o.Named? && o.reg >= 128)
       case REG_11_10_OFFSET => o.YGpram? || (o.XGpram? && o.cell >= 128)
       case A_REG_CALL => !(o.Named? && 16 <= o.reg < 24)
       case A_REG_CALL_MDFR => !(o.Named? && 24 <= o.reg < 32))
    case Lit(t) => t == LITERAL_16_ADDR && o.IndLiteral? && o.addr >= 0x10000
    case Stk(t) => t == C_STK_11 && o.StackBase? && o.slot >= 32
    case _ => false
  }

  lemma RegNamed(o: Operand)
    requires Valid(o) && IsReg(o)
    ensures o.Named? ==> RegVal(o) == o.reg
    ensures !o.Named? ==> RegVal(o) >= 1024
  {
  }

  lemma ModLit(v: nat, k: nat, m: nat)
    requires k == m > 0
    ensures v % k == v % m
  {
  }

  lemma Pow2s()
    ensures Pow2(1) == 2 && Pow2(2) == 4 && Pow2(3) == 8 && Pow2(4) == 16 && Pow2(5) == 32
    ensures Pow2(6) == 64 && Pow2(7) == 128 && Pow2(8) == 256 && Pow2(10) == 1024 && Pow2(11) == 2048
    ensures Pow2(14) == 16384 && Pow2(16) == 65536 && Pow2(21) == 0x200000 && Pow2(32) == 0x1_0000_0000
  {
  }

  lemma Narrow2Block(t: NarrowType, r: nat, v: nat)
    requires NarrowAccepts(t, r) && v == NarrowFixed(t, 0x300 + r) % 4
    requires t.REG_2? || t.REG_2_4? || t.REG_2_8? || t.REG_2_12?
    ensures NarrowDecode(t, v) == r <==> !(t == REG_3_FMA_A_T1 && r == 12)
  {
  }

  lemma Narrow2Split(t: NarrowType, r: nat, v: nat)
    requires NarrowAccepts(t, r) && v == NarrowFixed(t, 0x300 + r) % 4
    requires t.REG_2_T1? || t.REG_2_T2?
    ensures NarrowDecode(t, v) == r <==> !(t == REG_3_FMA_A_T1 && r == 12)
  {
  }

  lemma Narrow3Block(t: NarrowType, r: nat, v: nat)
    requires NarrowAccepts(t, r) && v == NarrowFixed(t, 0x300 + r) % 8
    requires t.REG_3? || t.REG_3_8? || t.REG_3_FMA_Y_T1? || t.REG_3_FMA_Y_T2?
    ensures NarrowDecode(t, v) == r <==> !(t == REG_3_FMA_A_T1 && r == 12)
  {
  }

  lemma LowByte(r: nat)
    requires r < 256
    ensures (0x300 + r) % 256 == r && (0x300 + r) % 2 == r % 2 && (0x300 + r) % 4 == r % 4 && (0x300 + r) % 8 == r % 8
    ensures (0x300 + r) / 2 % 8 == r / 2 % 8
  {
  }

  lemma Narrow3X1(r: nat)
    requires r < 8
    ensures NarrowDecode(REG_3_X_T1, NarrowFixed(REG_3_X_T1, 0x300 + r) % 8) == r
  {
    LowByte(r);
  }

  lemma Narrow3X2(r: nat)
    requires 8 <= r < 16
    ensures NarrowDecode(REG_3_X_T2, NarrowFixed(REG_3_X_T2, 0x300 + r) % 8) == r
  {
    LowByte(r);
  }

  lemma Narrow3X(t: NarrowType, r: nat, v: nat)
    requires NarrowAccepts(t, r) && v == NarrowFixed(t, 0x300 + r) % 8
    requires t.REG_3_X_T1? || t.REG_3_X_T2?
    ensures NarrowDecode(t, v) == r <==> !(t == REG_3_FMA_A_T1 && r == 12)
  {
    hide NarrowDecode, NarrowFixed;
    if t.REG_3_X_T1? { Narrow3X1(r); } else { Narrow3X2(r); }
  }

  lemma Narrow3Y(t: NarrowType, r: nat, v: nat)
    requires NarrowAccepts(t, r) && v == NarrowFixed(t, 0x300 + r) % 8
    requires t.REG_3_Y_T1? || t.REG_3_Y_T2?
    ensures NarrowDecode(t, v) == r <==> !(t == REG_3_FMA_A_T1 && r == 12)
  {
  }

  lemma Narrow3Acc(t: NarrowType, r: nat, v: nat)
    requires NarrowAccepts(t, r) && v == NarrowFixed(t, 0x300 + r) % 8
    requires t.REG_3_ACC? || t.REG_3_FMA_A_T1?
    ensures NarrowDecode(t, v) == r <==> !(t == REG_3_FMA_A_T1 && r == 12)
  {
  }

  lemma Narrow3FmaX1(r: nat)
    requires r <= 5 || 8 <= r <= 9
    ensures NarrowDecode(REG_3_FMA_X_T1, NarrowFixed(REG_3_FMA_X_T1, 0x300 + r) % 8) == r
  {
    LowByte(r);
  }

  lemma Narrow3FmaX2(r: nat)
    requires r <= 1 || 8 <= r <= 13
    ensures NarrowDecode(REG_3_FMA_X_T2, NarrowFixed(REG_3_FMA_X_T2, 0x300 + r) % 8) == r
  {
    LowByte(r);
    assert r >= 8 ==> Wrap(0x300 + r - 8) == 0x300 + (r - 8);
    if r >= 8 { LowByte(r - 8); }
  }

  lemma Narrow3FmaX(t: NarrowType, r: nat, v: nat)
    requires NarrowAccepts(t, r) && v == NarrowFixed(t, 0x300 + r) % 8
    requires t.REG_3_FMA_X_T1? || t.REG_3_FMA_X_T2?
    ensures NarrowDecode(t, v) == r <==> !(t == REG_3_FMA_A_T1 && r == 12)
  {
    hide NarrowDecode, NarrowFixed;
    if t.REG_3_FMA_X_T1? { Narrow3FmaX1(r); } else { Narrow3FmaX2(r); }
  }

  lemma Narrow3FmaWritten(h: nat, l: nat)
    requires l < 2 && h < 8 && h % 2 == 0
    ensures NarrowFixed(REG_3_FMA, 0x300 + 2 * h + l) == (if h == 6 then 2 else if h == 4 then 6 else if h == 0 then 4 else 0) + l
  {
    assert (0x300 + 2 * h + l) / 2 == 0x180 + h && (0x300 + 2 * h + l) % 2 == l;
  }

  lemma Narrow3FmaRead(c: nat, l: nat)
    requires l < 2 && c < 4
    ensures NarrowDecode(REG_3_FMA, (2 * c + l) % 8) == (if c == 3 then 8 else if c == 2 then 0 else if c == 1 then 12 else 4) + l
  {
    assert (2 * c + l) / 2 == c && (2 * c + l) % 2 == l;
  }

  lemma Narrow3FmaOne(r: nat)
    requires r <= 1 || 4 <= r <= 5 || 8 <= r <= 9 || 12 <= r <= 13
    ensures NarrowDecode(REG_3_FMA, NarrowFixed(REG_3_FMA, 0x300 + r) % 8) == r
  {
    hide NarrowDecode, NarrowFixed;
    var h, l := r / 2, r % 2;
    assert h == 0 || h == 2 || h == 4 || h == 6;
    Narrow3FmaWritten(h, l);
    Narrow3FmaRead(if h == 6 then 1 else if h == 4 then 3 else if h == 0 then 2 else 0, l);
  }

  lemma Narrow3Fma(t: NarrowType, r: nat, v: nat)
    requires NarrowAccepts(t, r) && v == NarrowFixed(t, 0x300 + r) % 8
    requires t.REG_3_FMA?
    ensures NarrowDecode(t, v) == r <==> !(t == REG_3_FMA_A_T1 && r == 12)
  {
    hide NarrowDecode, NarrowFixed;
    Narrow3FmaOne(r);
  }

  lemma Narrow4(t: NarrowType, r: nat, v: nat)
    requires NarrowAccepts(t, r) && v == NarrowFixed(t, 0x300 + r) % 16
    requires t.REG_4?
    ensures NarrowDecode(t, v) == r <==> !(t == REG_3_FMA_A_T1 && r == 12)
  {
  }

  lemma Narrow5(t: NarrowType, r: nat, v: nat)
    requires NarrowAccepts(t, r) && v == NarrowFixed(t, 0x300 + r) % 32
    requires t.REG_5?
    ensures NarrowDecode(t, v) == r <==> !(t == REG_3_FMA_A_T1 && r == 12)
  {
  }

  lemma Narrow5_MOVX(t: NarrowType, r: nat, v: nat)
    requires NarrowAccepts(t, r) && v == NarrowFixed(t, 0x300 + r) % 64
    requires t.REG_5_MOVX?
    ensures NarrowDecode(t, v) == r <==> !(t == REG_3_FMA_A_T1 && r == 12)
  {
  }

  lemma Narrow7(t: NarrowType, r: nat, v: nat)
    requires NarrowAccepts(t, r) && v == NarrowFixed(t, 0x300 + r) % 128
    requires t.REG_7?
    ensures NarrowDecode(t, v) == r <==> !(t == REG_3_FMA_A_T1 && r == 12)
  {
  }

  lemma Narrow10(t: NarrowType, r: nat, v: nat)
    requires NarrowAccepts(t, r) && v == NarrowFixed(t, 0x300 + r) % 1024
    requires t.REG_10?
    ensures NarrowDecode(t, v) == r <==> !(t == REG_3_FMA_A_T1 && r == 12)
  {
  }

  lemma NarrowRoundTrip(t: NarrowType, r: nat)
    requires NarrowAccepts(t, r)
    ensures NarrowDecode(t, NarrowFixed(t, 0x300 + r) % Span(Nar(t))) == r <==> !(t == REG_3_FMA_A_T1 && r == 12)
  {
    var f, k := NarrowFixed(t, 0x300 + r), Span(Nar(t));
    var v := f % k;
    if k == 4 {
      ModLit(f, k, 4);
      if t.REG_2_T1? || t.REG_2_T2? { Narrow2Split(t, r, v); } else { Narrow2Block(t, r, v); }
    } else if k == 8 {
      ModLit(f, k, 8);
      if t.REG_3_X_T1? || t.REG_3_X_T2? { Narrow3X(t, r, v); }
      else if t.REG_3_Y_T1? || t.REG_3_Y_T2? { Narrow3Y(t, r, v); }
      else if t.REG_3_ACC? || t.REG_3_FMA_A_T1? { Narrow3Acc(t, r, v); }
      else if t.REG_3_FMA_X_T1? || t.REG_3_FMA_X_T2? { Narrow3FmaX(t, r, v); }
      else if t.REG_3_FMA? { Narrow3Fma(t, r, v); }
      else { Narrow3Block(t, r, v); }
    } else {
      match t {
        case REG_4 => ModLit(f, k, 16); Narrow4(t, r, v);
        case REG_5 => ModLit(f, k, 32); Narrow5(t, r, v);
        case REG_5_MOVX => ModLit(f, k, 64); Narrow5_MOVX(t, r, v);
        case REG_7 => ModLit(f, k, 128); Narrow7(t, r, v);
        case REG_10 => ModLit(f, k, 1024); Narrow10(t, r, v);
      }
    }
  }

  lemma Reg11RoundTrip(o: Operand)
    requires Valid(o) && IsReg(o)
    ensures WideDecode(REG_11, TokenVal(o) % 2048) == o <==> !Misread(Wid(REG_11), o)
  {
    hide Reg11Decode;
    match o
    case Named(r) => Reg11Digits(0, 1, 256 + r);
    case XGpram(n) => Reg11Digits(1, 0, n);
    case YGpram(n) => Reg11Digits(1, 1, n);
  }

  lemma Reg11Digits(h: nat, m: nat, l: nat)
    requires h < 2 && m < 2 && l < 512
    ensures var v, r := h * 1024 + m * 512 + l, if l < 256 then l else l - 256;
            v % 2048 == v && Reg11Decode(v) == if h == 0 then Named(r) else if m == 1 then YGpram(r) else XGpram(r)
  {
    var v := h * 1024 + m * 512 + l;
    assert v / 1024 == h && v / 512 == h * 2 + m && v % 256 == if l < 256 then l else l - 256;
  }

  lemma Offset4Field(v: nat, b: nat)
    ensures WideFixed(REG_11_4_OFFSET, v, b) / 2048 % 16 == (v % 16 - b % 16) % 16
  {
  }

  lemma Wrap16(x: nat, y: nat)
    requires x < 16 && y < 16
    ensures ((y - x) % 16 + x) % 16 == y
  {
  }

  lemma SamePage(v: nat, b: nat)
    requires v / 16 == b / 16
    ensures v / 512 == b / 512 && v == b / 16 * 16 + v % 16
  {
    assert v / 512 == v / 16 / 32 && b / 512 == b / 16 / 32;
  }

  /** Base plus offset is the operand again. */
  lemma Offset4Sum(v: nat, b: nat)
    requires v < 2048 && b < 2048 && v / 16 == b / 16
    ensures var off := WideFixed(REG_11_4_OFFSET, v, b) / 2048 % 16;
            Sum4Offset(b, off) == v
  {
    hide WideFixed;
    Offset4Field(v, b);
    Wrap16(b % 16, v % 16);
    SamePage(v, b);
  }

  lemma Offset10Sum(v: nat, b: nat)
    requires v < 2048 && b < 2048 && -0x200 < v - b < 0x200
    ensures var off := WideFixed(REG_11_10_OFFSET, v, b) / 2048 % 1024;
            Sum10Offset(b, off) == v || Sum10Offset(b, off) == v + 0x10000
  {
    var d: int := v - b;
    assert WideFixed(REG_11_10_OFFSET, v, b) / 2048 % 1024 == d % 1024;
    assert d % 1024 == if d >= 0 then d else d + 1024;
  }

  lemma Print4Exact(o: Operand)
    requires Valid(o) && IsReg(o)
    ensures TokenVal(o) < 2048
    ensures Print4Offset(TokenVal(o)) == o <==> !Misread(Wid(REG_11_4_OFFSET), o)
  {
  }

  lemma AddMultiple(t: nat, k: nat, c: nat)
    requires k > 0
    ensures (t + c * k) / k == t / k + c && (t + c * k) % k == t % k
  {
    assert t + c * k == k * (t / k + c) + t % k;
    ModUnique(t + c * k, k, t / k + c, t % k);
  }

  lemma EvenMore(x: nat, c: nat)
    ensures (x + 2 * c) % 2 == x % 2
  {
  }

  lemma Print10Upper(t: nat)
    ensures Print10Offset(t + 0x10000) == Print10Offset(t)
  {
    AddMultiple(t, 1024, 64);
    AddMultiple(t, 2048, 32);
    AddMultiple(t, 128, 512);
    AddMultiple(t, 256, 256);
    EvenMore(t / 1024, 32);
    EvenMore(t / 2048, 16);
  }

  lemma Print10Plain(o: Operand)
    requires Valid(o) && IsReg(o)
    ensures Print10Offset(TokenVal(o)) == o <==> !Misread(Wid(REG_11_10_OFFSET), o)
  {
  }

  lemma Print10Exact(o: Operand, t: nat)
    requires Valid(o) && IsReg(o) && (t == TokenVal(o) || t == TokenVal(o) + 0x10000)
    ensures Print10Offset(t) == o <==> !Misread(Wid(REG_11_10_OFFSET), o)
  {
    hide Print10Offset, TokenVal, Misread;
    Print10Plain(o);
    Print10Upper(TokenVal(o));
  }

  lemma CallRoundTrip(t: WideType, o: Operand)
    requires t.A_REG_CALL? || t.A_REG_CALL_MDFR?
    requires Valid(o) && WideAccepts(t, o, o)
    ensures WideDecode(t, TokenVal(o) % 8 % 8) == o <==> !Misread(Wid(t), o)
  {
  }

  lemma AddrPlainRoundTrip(t: AddrType, o: Operand, v: nat)
    requires Valid(o) && AddrAccepts(t, o) && (o.IndReg? || o.IndInc?)
    requires v == (if t.A_REG? && IsY(o) then SetBit(TokenVal(o), 8) else TokenVal(o))
    ensures AddrDecode(t, if t.A_REG? then v % 16 else v % 8) == o
  {
    hide SetBit;
    assert v == (if o.IndInc? || o.y then 8 else 0) + o.areg by { AddrPlainToken(t, o, v); }
    OctalDigit(if o.IndInc? || o.y then 1 else 0, o.areg);
  }

  lemma OctalDigit(h: nat, l: nat)
    requires h < 2 && l < 8
    ensures (8 * h + l) % 8 == l && (8 * h + l) / 8 % 2 == h && (8 * h + l) % 16 == 8 * h + l
  {
  }

  lemma AddrPlainToken(t: AddrType, o: Operand, v: nat)
    requires Valid(o) && AddrAccepts(t, o) && (o.IndReg? || o.IndInc?)
    requires v == (if t.A_REG? && IsY(o) then SetBit(TokenVal(o), 8) else TokenVal(o))
    ensures v == (if o.IndInc? || o.y then 8 else 0) + o.areg
  {
  }

  lemma AddrMdfrRoundTrip(t: AddrType, o: Operand)
    requires Valid(o) && AddrAccepts(t, o) && (o.IndPlusMdfr? || o.IndMdfrOffset?)
    ensures AddrDecode(t, if t.A_REG_PLUS_MDFR? then TokenVal(o) % 128 else TokenVal(o) % 64) == o
  {
    if o.IndPlusMdfr? {
      TwoDigits(o.areg, o.mreg, if o.y then 1 else 0);
    } else {
      TwoDigits(o.mreg, o.areg, 0);
    }
  }

  lemma TwoDigits(h: nat, l: nat, y: nat)
    requires h < 8 && l < 8 && y < 2
    ensures var v := 8 * h + l + 64 * y;
            v % 64 == 8 * h + l && v % 128 == v && v % 8 == l && v / 8 % 8 == h && v / 64 % 2 == y
    ensures (8 * h + l) % 8 == l && (8 * h + l) / 8 % 8 == h
  {
  }

  /** The offset survives its trip through the token's 32-bit value. */
  lemma OffsetToken(o: Operand)
    requires Valid(o) && o.IndLitOffset?
    ensures TokenVal(o) == 8 * o.off + o.areg + (if o.off < 0 then 0x1_0000_0000 else 0)
    ensures RestoreOffset(TokenVal(o)) == o.off
  {
  }

  lemma Offset7RoundTrip(o: Operand, v: nat)
    requires Valid(o) && OffsetAccepts(A_REG_INT_7_OFFSET, o) && v == TokenVal(o)
    ensures OffsetDecode(A_REG_INT_7_OFFSET, OffsetFixed(A_REG_INT_7_OFFSET, o.y, v) % 2048) == o
  {
    OffsetToken(o);
    if o.off >= 0 { Fixed7Up(o.off, o.areg, o.y, v); } else { Fixed7Down(o.off, o.areg, o.y, v); }
    Read7(o.off, o.areg, o.y);
  }

  lemma Fixed7Up(off: int, r: nat, y: bool, v: nat)
    requires r < 8 && 0 <= off <= 0x3f && v == 8 * off + r
    ensures OffsetFixed(A_REG_INT_7_OFFSET, y, v) % 2048 == 16 * off + r + (if y then 8 else 0)
  {
    assert Wrap(2 * v) == 2 * v;
    assert v % 8 == r;
    assert 2 * v % 16 == 2 * r;
  }

  lemma Fixed7Down(off: int, r: nat, y: bool, v: nat)
    requires r < 8 && -0x40 <= off < 0 && v == 8 * off + r + 0x1_0000_0000
    ensures OffsetFixed(A_REG_INT_7_OFFSET, y, v) % 2048 == 16 * off + r + (if y then 8 else 0) + 2048
  {
    var w := 2 * v - 0x1_0000_0000;
    assert Wrap(2 * v) == w;
    assert v % 8 == r;
    assert w % 16 == 2 * r;
  }

  lemma Read7(off: int, r: nat, y: bool)
    requires r < 8 && -0x40 <= off <= 0x3f
    ensures var w := 16 * off + r + (if y then 8 else 0) + (if off < 0 then 2048 else 0);
            w % 8 == r && w / 8 % 2 == (if y then 1 else 0) && Signed(w / 16, 128) == off
  {
    var w := 16 * off + r + (if y then 8 else 0) + (if off < 0 then 2048 else 0);
    assert w / 16 == if off < 0 then off + 128 else off;
  }

  lemma Offset11RoundTrip(t: OffsetType, o: Operand)
    requires t.A_REG_X_INT_11_OFFSET? || t.A_REG_Y_INT_11_OFFSET?
    requires Valid(o) && OffsetAccepts(t, o)
    ensures OffsetDecode(t, TokenVal(o) % 0x4000) == o
  {
    OffsetToken(o);
    Read11(o.off, o.areg, TokenVal(o));
  }

  lemma Read11(off: int, r: nat, v: nat)
    requires r < 8 && -0x400 <= off <= 0x3ff && v == 8 * off + r + (if off < 0 then 0x1_0000_0000 else 0)
    ensures var w := v % 0x4000;
            w % 8 == r && Signed(w / 8, 2048) == off
  {
    var w := 8 * off + r + (if off < 0 then 0x4000 else 0);
    assert v % 0x4000 == w;
    assert w / 8 == if off < 0 then off + 2048 else off;
  }

  lemma Offset17RoundTrip(o: Operand, v: nat)
    requires Valid(o) && OffsetAccepts(A_REG_INT_17_OFFSET, o) && v == TokenVal(o)
    ensures OffsetDecode(A_REG_INT_17_OFFSET, OffsetFixed(A_REG_INT_17_OFFSET, o.y, v) % 0x20_0000) == o
  {
    OffsetToken(o);
    var w := 8 * o.off + o.areg + (if o.off < 0 then 0x10_0000 else 0);
    Fixed17(o.off, o.areg, v, w);
    Read17(o.off, o.areg, o.y, w + (if o.y then 0x10_0000 else 0));
  }

  lemma Fixed17(off: int, r: nat, v: nat, w: nat)
    requires r < 8 && -0x8000 <= off <= 0x7fff && v == 8 * off + r + (if off < 0 then 0x1_0000_0000 else 0)
    requires w == 8 * off + r + (if off < 0 then 0x10_0000 else 0)
    ensures v % 0x10_0000 == w
  {
  }

  lemma Read17(off: int, r: nat, y: bool, w: nat)
    requires r < 8 && -0x8000 <= off <= 0x7fff
    requires w == 8 * off + r + (if off < 0 then 0x10_0000 else 0) + (if y then 0x10_0000 else 0)
    ensures w % 0x20_0000 == w && w % 8 == r && w / 0x10_0000 % 2 == (if y then 1 else 0)
    ensures Signed(w / 8, 0x20000) == off
  {
    var u := off + (if off < 0 then 0x2_0000 else 0) + (if y then 0x2_0000 else 0);
    assert w / 8 == u;
  }

  lemma Signed7(v: nat)
    requires v < 0x1_0000_0000 && -0x40 <= Signed(v, 0x1_0000_0000) <= 0x3f
    ensures Wrap(Signed(v % 128, 128)) == v
  {
  }

  lemma Signed8(v: nat)
    requires v < 0x1_0000_0000 && -0x80 <= Signed(v, 0x1_0000_0000) <= 0x7f
    ensures Wrap(Signed(v % 256, 256)) == v
  {
  }

  lemma Literal16RoundTrip(v: nat, mdfr: SrcMdfr)
    requires v < 0x1_0000_0000 && Fits16(v, mdfr)
    ensures LiteralDecode(LITERAL_16, LiteralFixed(LITERAL_16, false, v, mdfr) % 0x10000, mdfr) == Literal(v)
  {
    if mdfr.Mdfr16Signed? { Signed16(v); }
  }

  lemma Signed16(v: nat)
    requires v < 0x1_0000_0000 && -0x8000 <= Signed(v, 0x1_0000_0000) <= 0x7fff
    ensures Wrap(Signed(v % 0x10000, 0x10000)) == v
  {
  }

  lemma AddrLiteralRoundTrip(o: Operand)
    requires Valid(o) && o.IndLiteral?
    ensures LiteralDecode(LITERAL_16_ADDR, LiteralFixed(LITERAL_16_ADDR, o.y, o.addr, MdfrNone) % 0x20_0000, MdfrNone) == o
            <==> !Misread(Lit(LITERAL_16_ADDR), o)
  {
  }

  lemma Stack5RoundTrip(o: Operand)
    requires Valid(o) && StackAccepts(C_STK_5, o)
    ensures StackDecode(C_STK_5, TokenVal(o) % 32) == o
  {
  }

  lemma Stack11Top(md: bool)
    ensures StackDecode(C_STK_11, TokenVal(StackTop(md)) % 2048) == StackTop(md)
  {
  }

  lemma Stack11Low(md: bool, n: nat)
    requires n < 32
    ensures StackDecode(C_STK_11, TokenVal(StackBase(md, n)) % 2048) == StackBase(md, n)
  {
    hide SetBit, StackDecode;
    assert TokenVal(StackBase(md, n)) == if md then n + 128 else n by { StackToken(md, n); }
    StackSlot(md, n);
  }

  lemma StackToken(md: bool, n: nat)
    requires n < 32
    ensures TokenVal(StackBase(md, n)) == if md then n + 128 else n
  {
  }

  lemma StackSlot(md: bool, n: nat)
    requires n < 32
    ensures var v := if md then n + 128 else n;
            v % 2048 == v && StackDecode(C_STK_11, v) == StackBase(md, n)
  {
  }

  lemma Stack11Slot(v: nat)
    ensures StackDecode(C_STK_11, v).StackBase? ==> StackDecode(C_STK_11, v).slot < 32
  {
  }

  lemma Stack11RoundTrip(o: Operand)
    requires Valid(o) && StackAccepts(C_STK_11, o)
    ensures StackDecode(C_STK_11, TokenVal(o) % 2048) == o <==> !Misread(Stk(C_STK_11), o)
  {
    hide StackDecode, TokenVal;
    match o
    case StackTop(md) => Stack11Top(md);
    case StackBase(md, n) =>
      Stack11Slot(TokenVal(o) % 2048);
      if n < 32 { Stack11Low(md, n); }
  }

  lemma Decode4(v: nat, b: nat, h: nat)
    requires v < 2048 && b < 2048 && v / 16 == b / 16
    requires h == WideFixed(REG_11_4_OFFSET, v, b) / 2048 % 16
    ensures Reg4OffsetDecode(h * 2048 + b) == Print4Offset(v)
  {
    Offset4Sum(v, b);
    Glue(h * 2048 + b, b, h);
    Unglue4(h * 2048 + b, b, h);
  }

  lemma Unglue4(v: nat, b: nat, h: nat)
    requires v % 2048 == b && v / 2048 % 16 == h
    ensures Reg4OffsetDecode(v) == Print4Offset(Sum4Offset(b, h))
  {
  }

  lemma Unglue10(v: nat, b: nat, h: nat)
    requires v % 2048 == b && v / 2048 % 1024 == h
    ensures Reg10OffsetDecode(v) == Print10Offset(Sum10Offset(b, h))
  {
  }

  lemma Glue(v: nat, b: nat, h: nat)
    requires v == h * 2048 + b && b < 2048 && h < 1024
    ensures v % 2048 == b && v / 2048 == h && v / 2048 % 1024 == h && (h < 16 ==> v / 2048 % 16 == h)
  {
  }

  lemma Decode10(v: nat, b: nat, h: nat)
    requires v < 2048 && b < 2048 && -0x200 < v - b < 0x200
    requires h == WideFixed(REG_11_10_OFFSET, v, b) / 2048 % 1024
    ensures var d := Reg10OffsetDecode(h * 2048 + b);
            d == Print10Offset(v) || d == Print10Offset(v + 0x10000)
  {
    Offset10Sum(v, b);
    Glue(h * 2048 + b, b, h);
    Unglue10(h * 2048 + b, b, h);
  }

  lemma Upper7(v: nat, b: nat)
    requires v < 2048 && b < 2048 && v / 16 % 256 == b / 16 % 256
    ensures v / 16 == b / 16
  {
  }

  lemma RelativeRaw(t: WideType, o: Operand, base: Operand, mdfr: SrcMdfr, b: nat, h: nat)
    requires Relative(Wid(t)) && b == TokenVal(base) && b < 2048
    requires h == WideFixed(t, TokenVal(o), b) / 2048 % (if t.REG_11_4_OFFSET? then 16 else 1024)
    ensures Raw(Wid(t), o, base, mdfr) == h * 2048 + b
  {
  }

  lemma RelativeRoundTrip(t: WideType, o: Operand, base: Operand, mdfr: SrcMdfr)
    requires Relative(Wid(t)) && Valid(o) && Valid(base) && IsReg(base) && WideAccepts(t, o, base)
    ensures WideDecode(t, Raw(Wid(t), o, base, mdfr)) == o <==> !Misread(Wid(t), o)
  {
    hide TokenVal, WideFixed, Raw, WideDecode, Misread;
    if t.REG_11_4_OFFSET? { Relative4(o, base, mdfr); } else { Relative10(o, base, mdfr); }
  }

  lemma Relative4(o: Operand, base: Operand, mdfr: SrcMdfr)
    requires Valid(o) && Valid(base) && IsReg(base) && WideAccepts(REG_11_4_OFFSET, o, base)
    ensures WideDecode(REG_11_4_OFFSET, Raw(Wid(REG_11_4_OFFSET), o, base, mdfr)) == o <==> !Misread(Wid(REG_11_4_OFFSET), o)
  {
    hide TokenVal, WideFixed, Raw, Misread, Print4Offset, Reg4OffsetDecode;
    var v, b := TokenVal(o), TokenVal(base);
    Print4Exact(o);
    Print4Exact(base);
    var h := WideFixed(REG_11_4_OFFSET, v, b) / 2048 % 16;
    RelativeRaw(REG_11_4_OFFSET, o, base, mdfr, b, h);
    Upper7(v, b);
    Decode4(v, b, h);
  }

  lemma Relative10(o: Operand, base: Operand, mdfr: SrcMdfr)
    requires Valid(o) && Valid(base) && IsReg(base) && WideAccepts(REG_11_10_OFFSET, o, base)
    ensures WideDecode(REG_11_10_OFFSET, Raw(Wid(REG_11_10_OFFSET), o, base, mdfr)) == o <==> !Misread(Wid(REG_11_10_OFFSET), o)
  {
    hide TokenVal, WideFixed, Raw, Misread, Print10Offset, Reg10OffsetDecode;
    var v, b := TokenVal(o), TokenVal(base);
    Print4Exact(o);
    Print4Exact(base);
    var h := WideFixed(REG_11_10_OFFSET, v, b) / 2048 % 1024;
    RelativeRaw(REG_11_10_OFFSET, o, base, mdfr, b, h);
    Decode10(v, b, h);
    Print10Exact(o, v);
    Print10Exact(o, v + 0x10000);
  }

  lemma WideRoundTrip(t: WideType, o: Operand, base: Operand, mdfr: SrcMdfr)
    requires Valid(o) && (Relative(Wid(t)) ==> Valid(base) && IsReg(base))
    requires WideAccepts(t, o, base)
    ensures WideDecode(t, Raw(Wid(t), o, base, mdfr)) == o <==> !Misread(Wid(t), o)
  {
    var f, k := WideFixed(t, TokenVal(o), TokenVal(base)), Span(Wid(t));
    if Relative(Wid(t)) {
      RelativeRoundTrip(t, o, base, mdfr);
    } else if t.REG_11? {
      ModLit(f, k, 2048);
      Reg11RoundTrip(o);
    } else {
      ModLit(f, k, 8);
      CallRoundTrip(t, o);
    }
  }

  lemma AddrRoundTrip(t: AddrType, o: Operand, base: Operand, mdfr: SrcMdfr)
    requires Valid(o) && AddrAccepts(t, o)
    ensures AddrDecode(t, Raw(Adr(t), o, base, mdfr)) == o
  {
    var f, k := FixedVal(Adr(t), o, base, mdfr), Span(Adr(t));
    if o.IndReg? || o.IndInc? {
      if t.A_REG? { ModLit(f, k, 16); } else { ModLit(f, k, 8); }
      AddrPlainRoundTrip(t, o, f);
    } else {
      if t.A_REG_PLUS_MDFR? { ModLit(f, k, 128); } else { ModLit(f, k, 64); }
      AddrMdfrRoundTrip(t, o);
    }
  }

  lemma OffsetRoundTrip(t: OffsetType, o: Operand, base: Operand, mdfr: SrcMdfr)
    requires Valid(o) && OffsetAccepts(t, o)
    ensures OffsetDecode(t, Raw(Ofs(t), o, base, mdfr)) == o
  {
    var f, k := OffsetFixed(t, IsY(o), TokenVal(o)), Span(Ofs(t));
    match t {
      case A_REG_INT_7_OFFSET => ModLit(f, k, 2048); Offset7RoundTrip(o, TokenVal(o));
      case A_REG_INT_17_OFFSET => ModLit(f, k, 0x20_0000); Offset17RoundTrip(o, TokenVal(o));
      case _ => ModLit(f, k, 0x4000); Offset11RoundTrip(t, o);
    }
  }

  lemma SignedLiteralRoundTrip(t: LiteralType, v: nat, mdfr: SrcMdfr)
    requires t.LITERAL_7_INT? || t.LITERAL_8_INT? || t.LITERAL_8_INT_PC_OFFSET?
    requires v < 0x1_0000_0000 && LiteralAccepts(t, Literal(v), Literal(v), mdfr)
    ensures LiteralDecode(t, v % Span(Lit(t)), mdfr) == Literal(v)
  {
    if t.LITERAL_7_INT? {
      ModLit(v, Span(Lit(t)), 128);
      Signed7(v);
    } else {
      ModLit(v, Span(Lit(t)), 256);
      Signed8(v);
    }
  }

  lemma UnsignedLiteralRoundTrip(t: LiteralType, v: nat, mdfr: SrcMdfr)
    requires t.LITERAL_8? || t.LITERAL_11? || t.LITERAL_32?
    requires v < 0x1_0000_0000 && LiteralAccepts(t, Literal(v), Literal(v), mdfr)
    ensures LiteralDecode(t, v % Span(Lit(t)), mdfr) == Literal(v)
  {
    if t.LITERAL_8? {
      ModLit(v, Span(Lit(t)), 256);
    } else if t.LITERAL_11? {
      ModLit(v, Span(Lit(t)), 2048);
    } else {
      ModLit(v, Span(Lit(t)), 0x1_0000_0000);
    }
  }

  lemma LiteralRoundTrip(t: LiteralType, o: Operand, base: Operand, twin: Operand, mdfr: SrcMdfr)
    requires Valid(o) && LiteralAccepts(t, o, twin, mdfr)
    ensures LiteralDecode(t, Raw(Lit(t), o, base, mdfr), mdfr) == o <==> !Misread(Lit(t), o)
  {
    var f, k := LiteralFixed(t, IsY(o), TokenVal(o), mdfr), Span(Lit(t));
    if t.LITERAL_16? {
      ModLit(f, k, 0x10000);
      Literal16RoundTrip(o.val, mdfr);
    } else if t.LITERAL_16_ADDR? {
      ModLit(f, k, 0x20_0000);
      AddrLiteralRoundTrip(o);
    } else if t.LITERAL_8? || t.LITERAL_11? || t.LITERAL_32? {
      UnsignedLiteralRoundTrip(t, o.val, mdfr);
    } else {
      SignedLiteralRoundTrip(t, o.val, mdfr);
    }
  }

  lemma StackRoundTrip(t: StackType, o: Operand, base: Operand, mdfr: SrcMdfr)
    requires Valid(o) && StackAccepts(t, o)
    ensures StackDecode(t, Raw(Stk(t), o, base, mdfr)) == o <==> !Misread(Stk(t), o)
  {
    var f, k := TokenVal(o), Span(Stk(t));
    match t {
      case C_STK_5 => ModLit(f, k, 32); Stack5RoundTrip(o);
      case C_STK_11 => ModLit(f, k, 2048); Stack11RoundTrip(o);
      case NOP_ARG =>
    }
  }

  /** The operand codec: what the disassembler prints for the field the assembler wrote
      is the operand that was written, except for exactly the misread operands. */
  lemma OperandRoundTrip(ty: OperandType, o: Operand, base: Operand, twin: Operand, mdfr: SrcMdfr)
    requires Valid(o) && (Relative(ty) ==> Valid(base) && IsReg(base))
    requires Accepts(ty, o, base, twin, mdfr)
    ensures Decode(ty, Raw(ty, o, base, mdfr), mdfr) == o <==> !Misread(ty, o)
  {
    match ty {
      case Nar(t) => RegNamed(o); NarrowRoundTrip(t, o.reg);
      case Wid(t) => WideRoundTrip(t, o, base, mdfr);
      case Adr(t) => AddrRoundTrip(t, o, base, mdfr);
      case Ofs(t) => OffsetRoundTrip(t, o, base, mdfr);
      case Lit(t) => LiteralRoundTrip(t, o, base, twin, mdfr);
      case Stk(t) => StackRoundTrip(t, o, base, mdfr);
    }
  }
}
