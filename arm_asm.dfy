/** The ARM assembly instruction model of the back end: operand shapes, the
    operand legality predicates, register lists and one closed datatype for the
    CPU and VFP instruction classes, with one constructor function per C++
    constructor. The C++ unions become tagged variants. */
module ArmAsm {
  import opened Wrappers

  /** A C++ `int`: 32-bit two's complement. */
  newtype int32 = x: int | -0x8000_0000 <= x < 0x8000_0000

  /** A register number; the header defining `reg_index` is not part of this
      model, so it is taken as a natural number. */
  type RegIndex = nat

  datatype ArmOp =
    // CPU branch
    | B | BL | BLX | BX
    // CPU data process
    | ADD | SUB | RSB | ADC | SBC | RSC | AND | ORR | EOR | BIC | CLZ | CMP | CMN
    | MOV | MVN | MOVW | MOVT | MUL | MLA | TST | TEQ
    // CPU multiple / single register load and store
    | LDM | STM | PUSH | POP | LDR | STR
    // VFP register transfer and data process
    | VMOV | VABS | VCPY | VNEG | VSQRT | VADD | VSUB | VDIV | VMLA | VNMLA
    | VMLS | VNMLS | VMUL | VNMUL | VCMP
    // VFP multiple / single register load and store
    | VLDM | VSTM | VPOP | VPUSH | VLDR | VSTR

  datatype ArmDataType = ByteType | SignedByte | Halfword | SignedHalfword | Word | Doubleword

  datatype ArmCondition =
    | NONE | EQ | NE | CS | HS | CC | LO | MI | PL | VS | VC | HI | LS | GE | LT | GT | LE | AL

  datatype Operand2ShiftOp =
    | NoShift | AsrN | LslN | LsrN | RorN | Rrx | AsrRs | LslRs | LsrRs | RorRs

  /** What a register-shift operand is shifted by: the C++ union of `n` and `Rs`,
      neither of which is set by the one-register constructor. */
  datatype ShiftAmount = NoAmount | ByConstant(n: int32) | ByRegister(rs: RegIndex)

  /** Operand2 of a data-process instruction (`struct operand2`). */
  datatype Operand2 =
    | Immed8r(immed: int32)
    | RmShift(rm: RegIndex, shiftOp: Operand2ShiftOp, amount: ShiftAmount)

  /** `operand2()`: the default operand is the immediate 0. */
  function DefaultOperand2(): (o: Operand2)
    ensures o.Immed8r? && o.immed == 0
  {
    Immed8r(0)
  }

  /** `operand2(Rm)`: the register itself, unshifted. */
  function Operand2Register(rm: RegIndex): (o: Operand2)
    ensures o.RmShift? && o.rm == rm && o.shiftOp == NoShift && o.amount.NoAmount?
  {
    RmShift(rm, NoShift, NoAmount)
  }

  /** `operand2(Rm, shift_op, n)`: Rm shifted by a constant. */
  function Operand2ShiftByConstant(rm: RegIndex, op: Operand2ShiftOp, n: int32): (o: Operand2)
    ensures o.RmShift? && o.rm == rm && o.shiftOp == op && o.amount == ByConstant(n)
  {
    RmShift(rm, op, ByConstant(n))
  }

  /** `operand2(Rm, shift_op, Rs)`: Rm shifted by the amount held in Rs. */
  function Operand2ShiftByRegister(rm: RegIndex, op: Operand2ShiftOp, rs: RegIndex): (o: Operand2)
    ensures o.RmShift? && o.rm == rm && o.shiftOp == op && o.amount == ByRegister(rs)
  {
    RmShift(rm, op, ByRegister(rs))
  }

  /** A 32-bit word rotated left by one position. */
  function RotateOne(w: bv32): bv32
  {
    (w << 1) | (w >> 31)
  }

  /** The byte mask 0xFF rotated left by r bit positions. */
  function Window(r: bv32): bv32
    requires r <= 32
    decreases r
  {
    if r == 0 then 0xFF else RotateOne(Window(r - 1))
  }

  /** Window in closed form: the two halves of the rotated byte. */
  lemma {:induction false} WindowClosedForm(r: bv32)
    requires r <= 32
    ensures Window(r) == ((0xFF as bv32) << r) | ((0xFF as bv32) >> (32 - r))
    decreases r
  {
    if r > 0 {
      WindowClosedForm(r - 1);
    }
  }

  /** Every set bit of x lies inside Window(r). */
  predicate FitsWindow(x: bv32, r: bv32)
    requires r <= 32
  {
    x & Window(r) == x
  }

  /** The rule `is_legal_immed_8r` implements: some rotation, odd or even, of
      the byte mask covers every set bit. */
  ghost predicate Legal8r(x: bv32)
  {
    exists r: bv32 :: r < 32 && FitsWindow(x, r)
  }

  /** The mask update after step n: a plain shift for the first 24 steps,
      shift-left-or-1 for the last 8. */
  function NextMask(mask: bv32, n: bv32): bv32
  {
    if n < 24 then mask << 1 else (mask << 1) | 1
  }

  /** Both updates rotate the window by one: below bit 24 the top bit is
      clear, from then on it is set and carried round by the `| 1`. */
  lemma NextMaskRotates(n: bv32)
    requires n < 32
    ensures NextMask(Window(n), n) == Window(n + 1)
  {
    WindowClosedForm(n);
  }

  /** The two loops of `is_legal_immed_8r` as one recursion over the steps
      n .. 31, starting from mask. */
  ghost predicate ScanFrom(x: bv32, mask: bv32, n: bv32)
    requires n <= 32
    decreases 32 - n
  {
    n < 32 && (x & mask == x || ScanFrom(x, NextMask(mask, n), n + 1))
  }

  ghost predicate FitsAtOrAbove(x: bv32, n: bv32)
  {
    exists r: bv32 :: n <= r < 32 && FitsWindow(x, r)
  }

  lemma FitsAtOrAboveStep(x: bv32, n: bv32)
    requires n < 31
    ensures FitsAtOrAbove(x, n) <==> FitsWindow(x, n) || FitsAtOrAbove(x, n + 1)
  {
    if FitsAtOrAbove(x, n) {
      var r: bv32 :| n <= r < 32 && FitsWindow(x, r);
      if r != n {
        assert FitsAtOrAbove(x, n + 1);
      }
    }
    if FitsAtOrAbove(x, n + 1) {
      var r: bv32 :| n + 1 <= r < 32 && FitsWindow(x, r);
      assert FitsAtOrAbove(x, n);
    }
  }

  lemma FitsAtOrAboveLast(x: bv32)
    ensures FitsAtOrAbove(x, 31) <==> FitsWindow(x, 31)
  {
    if FitsAtOrAbove(x, 31) {
      var r: bv32 :| 31 <= r < 32 && FitsWindow(x, r);
      assert r == 31;
    }
  }

  lemma ScanStep(x: bv32, n: bv32)
    requires n < 32
    ensures ScanFrom(x, Window(n), n) <==> FitsWindow(x, n) || (n < 31 && ScanFrom(x, Window(n + 1), n + 1))
  {
    NextMaskRotates(n);
  }

  /** Scanning from the window at step n finds exactly the rotations n .. 31
      that cover x. */
  lemma {:induction false} ScanFindsWindow(x: bv32, n: bv32)
    requires n < 32
    ensures ScanFrom(x, Window(n), n) <==> FitsAtOrAbove(x, n)
    decreases 32 - n
  {
    ScanStep(x, n);
    if n < 31 {
      ScanFindsWindow(x, n + 1);
      FitsAtOrAboveStep(x, n);
    } else {
      FitsAtOrAboveLast(x);
    }
  }

  /** `operand2::is_legal_immed_8r`: 24 masks 0xFF << i, then 8 masks rotated
      with the carried-in bit, stopping at the first mask covering x. The C++
      parameter is an `int`; `(immed_8r & mask) == immed_8r` compares it as an
      `unsigned int`, so the model takes its 32-bit pattern. */
  method IsLegalImmed8r(x: bv32) returns (legal: bool)
    ensures legal <==> Legal8r(x)
  {
    ScanFindsWindow(x, 0);
    var mask: bv32 := 255;
    var i: bv32 := 0;
    while i < 24
      invariant i <= 24
      invariant ScanFrom(x, 255, 0) == ScanFrom(x, mask, i)
    {
      if x & mask == x {
        return true;
      }
      mask := mask << 1;
      i := i + 1;
    }
    i := 0;
    while i < 8
      invariant i <= 8
      invariant ScanFrom(x, 255, 0) == ScanFrom(x, mask, 24 + i)
    {
      if x & mask == x {
        return true;
      }
      mask := (mask << 1) | 1;
      i := i + 1;
    }
    return false;
  }

  /** Every value 0..255 is legal, 0 included: the first mask is 255. */
  lemma {:induction false} ByteValuesAreLegal(x: bv32)
    requires x < 256
    ensures Legal8r(x)
  {
    assert FitsWindow(x, 0);
  }

  /** 0x1FE (0xFF << 1) is legal: the loop tries odd rotations too. */
  lemma OddShiftIsLegal()
    ensures Legal8r(0x1FE)
  {
    assert FitsWindow(0x1FE, 1);
  }

  /** 0x101 is illegal: its set bits span nine positions. */
  lemma NineBitSpanIsIllegal()
    ensures !Legal8r(0x101)
  {
    forall r: bv32 | r < 32
      ensures !FitsWindow(0x101, r)
    {
      WindowClosedForm(r);
    }
  }

  /** ROR(ZeroExtend(b, 32), 2 * rot): the modified immediate constant of
      section A5.2.4 of the ARMv7-A/R Architecture Reference Manual. */
  function ArmExpandImm(b: bv8, rot: bv32): bv32
    requires rot < 16
  {
    ((b as bv32) >> (2 * rot)) | ((b as bv32) << (32 - 2 * rot))
  }

  ghost predicate ArmModifiedImmediate(x: bv32)
  {
    exists b: bv8, rot: bv32 :: rot < 16 && x == ArmExpandImm(b, rot)
  }

  /** The check A5.2.4 calls for: only masks rotated by an even amount. */
  ghost predicate EvenLegal8r(x: bv32)
  {
    exists n: bv32 :: n < 16 && FitsEvenWindow(x, n)
  }

  /** x fits the mask rotated left by 2n. */
  predicate FitsEvenWindow(x: bv32, n: bv32)
    requires n < 16
  {
    FitsWindow(x, 2 * n)
  }

  /** `is_legal_immed_8r` accepts 0x1FE, which no modified immediate constant
      encodes: rotating by an odd amount is not expressible. */
  lemma OddRotationIsNotEncodable()
    ensures Legal8r(0x1FE) && !ArmModifiedImmediate(0x1FE)
  {
    OddShiftIsLegal();
    forall b: bv8, rot: bv32 | rot < 16
      ensures ArmExpandImm(b, rot) != 0x1FE
    {
    }
  }

  /** A mask rotated left by 2n covers only ROR(b, 2 * ((16 - n) % 16)). */
  lemma FitsExpand(x: bv32, n: bv32)
    requires n < 16 && FitsEvenWindow(x, n)
    ensures x == ArmExpandImm((((x >> (2 * n)) | (x << (32 - 2 * n))) & 0xFF) as bv8, (16 - n) % 16)
  {
    WindowClosedForm(2 * n);
  }

  /** ROR(b, 2 * rot) lies inside the mask rotated left by 2 * ((16 - rot) % 16). */
  lemma ExpandFits(b: bv8, rot: bv32)
    requires rot < 16
    ensures FitsEvenWindow(ArmExpandImm(b, rot), (16 - rot) % 16)
  {
    WindowClosedForm(2 * ((16 - rot) % 16));
  }

  /** The even-rotation check accepts exactly the modified immediate constants. */
  lemma {:induction false} EvenWindowsAreModifiedImmediates(x: bv32)
    ensures EvenLegal8r(x) <==> ArmModifiedImmediate(x)
  {
    if EvenLegal8r(x) {
      var n: bv32 :| n < 16 && FitsEvenWindow(x, n);
      FitsExpand(x, n);
    }
    if ArmModifiedImmediate(x) {
      var b: bv8, rot: bv32 :| rot < 16 && x == ArmExpandImm(b, rot);
      ExpandFits(b, rot);
    }
  }

  /** A 32-bit word rotated left by two positions. */
  function RotateTwo(w: bv32): bv32
  {
    (w << 2) | (w >> 30)
  }

  /** Rotating by two steps the even windows: Window(2n) to Window(2n + 2). */
  lemma RotateTwoSteps(n: bv32)
    requires n < 16
    ensures RotateTwo(Window(2 * n)) == Window(2 * n + 2)
  {
    assert Window(2 * n + 2) == RotateOne(RotateOne(Window(2 * n)));
  }

  /** The corrected scan: steps n .. 15 over the even windows, from mask. */
  ghost predicate EvenScanFrom(x: bv32, mask: bv32, n: bv32)
    requires n <= 16
    decreases 16 - n
  {
    n < 16 && (x & mask == x || EvenScanFrom(x, RotateTwo(mask), n + 1))
  }

  ghost predicate FitsEvenAtOrAbove(x: bv32, n: bv32)
  {
    exists m: bv32 :: n <= m < 16 && FitsEvenWindow(x, m)
  }

  lemma FitsEvenAtOrAboveStep(x: bv32, n: bv32)
    requires n < 15
    ensures FitsEvenAtOrAbove(x, n) <==> FitsEvenWindow(x, n) || FitsEvenAtOrAbove(x, n + 1)
  {
    if FitsEvenAtOrAbove(x, n) {
      var m: bv32 :| n <= m < 16 && FitsEvenWindow(x, m);
      if m != n {
        assert FitsEvenAtOrAbove(x, n + 1);
      }
    }
    if FitsEvenAtOrAbove(x, n + 1) {
      var m: bv32 :| n + 1 <= m < 16 && FitsEvenWindow(x, m);
      assert FitsEvenAtOrAbove(x, n);
    }
  }

  lemma FitsEvenAtOrAboveLast(x: bv32)
    ensures FitsEvenAtOrAbove(x, 15) <==> FitsEvenWindow(x, 15)
  {
    if FitsEvenAtOrAbove(x, 15) {
      var m: bv32 :| 15 <= m < 16 && FitsEvenWindow(x, m);
      assert m == 15;
    }
  }

  lemma EvenScanStep(x: bv32, n: bv32)
    requires n < 16
    ensures EvenScanFrom(x, Window(2 * n), n) <==>
            FitsEvenWindow(x, n) || (n < 15 && EvenScanFrom(x, Window(2 * n + 2), n + 1))
  {
    RotateTwoSteps(n);
  }

  lemma {:induction false} EvenScanFindsWindow(x: bv32, n: bv32)
    requires n < 16
    ensures EvenScanFrom(x, Window(2 * n), n) <==> FitsEvenAtOrAbove(x, n)
    decreases 16 - n
  {
    EvenScanStep(x, n);
    if n < 15 {
      EvenScanFindsWindow(x, n + 1);
      FitsEvenAtOrAboveStep(x, n);
    } else {
      FitsEvenAtOrAboveLast(x);
    }
  }

  lemma EvenScanIsModifiedImmediate(x: bv32)
    ensures EvenScanFrom(x, 255, 0) <==> ArmModifiedImmediate(x)
  {
    EvenScanFindsWindow(x, 0);
    EvenWindowsAreModifiedImmediates(x);
    if FitsEvenAtOrAbove(x, 0) {
      var m: bv32 :| 0 <= m < 16 && FitsEvenWindow(x, m);
      assert EvenLegal8r(x);
    }
    if EvenLegal8r(x) {
      var m: bv32 :| m < 16 && FitsEvenWindow(x, m);
      assert FitsEvenAtOrAbove(x, 0);
    }
  }

  /** The check `is_legal_immed_8r` evidently intends: the 16 masks 0xFF
      rotated by an even amount, so that exactly the values a data-processing
      instruction can encode are accepted. */
  method IsEncodableImmed8r(x: bv32) returns (legal: bool)
    ensures legal <==> ArmModifiedImmediate(x)
  {
    EvenScanIsModifiedImmediate(x);
    var mask: bv32 := 255;
    var i: bv32 := 0;
    while i < 16
      invariant i <= 16
      invariant EvenScanFrom(x, 255, 0) == EvenScanFrom(x, mask, i)
    {
      if x & mask == x {
        return true;
      }
      mask := RotateTwo(mask);
      i := i + 1;
    }
    return false;
  }

  /** Every value the corrected check accepts, the loop as written accepts too. */
  lemma {:induction false} EncodableIsLegal8r(x: bv32)
    requires ArmModifiedImmediate(x)
    ensures Legal8r(x)
  {
    EvenWindowsAreModifiedImmediates(x);
    var n: bv32 :| n < 16 && FitsEvenWindow(x, n);
    assert 2 * n < 32 && FitsWindow(x, 2 * n);
  }

  /** `flexoffset::is_legal_expr`: the byte offset of a load or store fits a
      sign and a 12-bit magnitude. */
  function IsLegalExpr(expr: int32): (legal: bool)
    ensures legal <==> (if expr < 0 then -(expr as int) else expr as int) < 0x1000
  {
    expr >= -4095 && expr <= 4095
  }

  /** The 32-bit pattern of a C++ `int`, as `is_legal_immed_8r` compares it. */
  function Bits(k: int32): bv32
  {
    if k >= 0 then k as int as bv32 else (k as int + 0x1_0000_0000) as bv32
  }

  /** The default operands are encodable: the immediate 0 passes both the
      loop as written and the corrected check, the offset 0 is in range. */
  lemma DefaultOperandsAreEncodable()
    ensures DefaultOperand2().Immed8r? && Legal8r(Bits(DefaultOperand2().immed))
    ensures ArmModifiedImmediate(Bits(DefaultOperand2().immed))
    ensures DefaultFlexOffset().Expr? && IsLegalExpr(DefaultFlexOffset().expr)
  {
    ByteValuesAreLegal(0);
    assert 0 == ArmExpandImm(0, 0);
  }

  /** The 16-bit immediate of MOVW/MOVT (`struct immed_16r`): a value, or the
      lower or upper half of a variable's address. */
  datatype AddressHalf = Lower16 | Upper16
  datatype Immed16r = Immed(data: int32) | VarAddr(variable: nat, half: AddressHalf)

  datatype AddressMode = NoMode | IA | IB | DA | DB

  datatype FlexOffsetShiftOp = NoOffsetShift | OffsetAsrN | OffsetLslN | OffsetLsrN | OffsetRorN | OffsetRrx

  /** FlexOffset of a single-register load or store (`struct flexoffset`). */
  datatype FlexOffset =
    | Expr(expr: int32)
    | OffsetRmShift(reverse: bool, rm: RegIndex, shiftOp: FlexOffsetShiftOp, n: int32)

  /** `flexoffset()`: the default offset is the expression 0. */
  function DefaultFlexOffset(): (o: FlexOffset)
    ensures o.Expr? && o.expr == 0
  {
    Expr(0)
  }

  /** `struct arm_registers`: an ordered register list. */
  datatype ArmRegisters = ArmRegisters(registers: seq<RegIndex>)

  /** The variadic constructor `arm_registers(num, ...)`: takes the first num
      variadic arguments, in order. Reading past the passed arguments is
      undefined in C++, so the caller must pass at least num of them. The
      constructor functions below write the lists they build, such as
      `arm_registers(1, Rd)`, as the literal `ArmRegisters([rd])` that this
      method returns for them, because a function cannot call a method. */
  method MakeRegisters(num: nat, args: seq<RegIndex>) returns (r: ArmRegisters)
    requires num <= |args|
    ensures |r.registers| == num
    ensures forall i :: 0 <= i < num ==> r.registers[i] == args[i]
  {
    var registers: seq<RegIndex> := [];
    for i := 0 to num
      invariant registers == args[..i]
    {
      registers := registers + [args[i]];
    }
    r := ArmRegisters(registers);
  }

  datatype Precision = Single | Double

  datatype DataProcessOperand = NoOperand | Op2(operand2: Operand2) | Imm16(immed16: Immed16r)

  /** How a single-register load or store addresses memory; the C++ object
      keeps a default-constructed FlexOffset (the expression 0) in the forms
      that take none, see `StoredOffset`. */
  datatype SingleAddressing =
    | ZeroOffset
    | PreIndexed(offset: FlexOffset, writeBack: bool)
    | ProgramRelative(labelName: string)
    | PostIndexed(offset: FlexOffset)
  {
    function StoredOffset(): FlexOffset
    {
      match this
      case PreIndexed(o, _) => o
      case PostIndexed(o) => o
      case _ => DefaultFlexOffset()
    }
  }

  /** The instruction classes of the model, one variant per C++ class. Every
      variant carries the `Arm_instruction` fields: opcode, condition,
      destination and source registers. `updateFlags` is None where the C++
      constructor leaves the field uninitialised (MOVW/MOVT). */
  datatype Instruction =
    | CpuBranch(op: ArmOp, cond: ArmCondition, destination: ArmRegisters, source: ArmRegisters,
                labelName: string)
    | CpuDataProcess(op: ArmOp, cond: ArmCondition, destination: ArmRegisters, source: ArmRegisters,
                     updateFlags: Option<bool>, data: DataProcessOperand)
    | CpuMultipleLoadStore(op: ArmOp, cond: ArmCondition, destination: ArmRegisters, source: ArmRegisters,
                           addressMode: AddressMode, writeBack: bool)
    | CpuSingleLoadStore(op: ArmOp, cond: ArmCondition, destination: ArmRegisters, source: ArmRegisters,
                         dataType: ArmDataType, addressing: SingleAddressing)
    | VfpDataProcess(op: ArmOp, cond: ArmCondition, destination: ArmRegisters, source: ArmRegisters,
                     precision: Precision, e: bool, compareWithZero: bool)

  /** The destination and source register lists of an instruction. */
  predicate HasRoles(i: Instruction, dest: seq<RegIndex>, src: seq<RegIndex>)
  {
    i.destination.registers == dest && i.source.registers == src
  }

  /** Branch to a label: no registers. */
  function BranchToLabel(op: ArmOp, cond: ArmCondition, labelName: string): (i: Instruction)
    ensures i.CpuBranch? && HasRoles(i, [], []) && i.op == op && i.cond == cond && i.labelName == labelName
  {
    CpuBranch(op, cond, ArmRegisters([]), ArmRegisters([]), labelName)
  }

  /** Branch to a register: the condition argument is ignored and NONE stored;
      the label stays default-constructed (empty name). */
  function BranchToRegister(op: ArmOp, cond: ArmCondition, rm: RegIndex): (i: Instruction)
    ensures i.CpuBranch? && HasRoles(i, [], [rm]) && i.op == op && i.cond == NONE && i.labelName == ""
  {
    CpuBranch(op, NONE, ArmRegisters([]), ArmRegisters([rm]), "")
  }

  /** ADD, SUB, RSB, ADC, SBC, RSC, AND, ORR, EOR, BIC. */
  function DataProcess(op: ArmOp, cond: ArmCondition, updateFlags: bool, rd: RegIndex, rn: RegIndex,
                       operand2: Operand2): (i: Instruction)
    ensures i.CpuDataProcess? && HasRoles(i, [rd], [rn]) && i.updateFlags == Some(updateFlags) && i.data == Op2(operand2)
    ensures i.op == op && i.cond == cond
  {
    CpuDataProcess(op, cond, ArmRegisters([rd]), ArmRegisters([rn]), Some(updateFlags), Op2(operand2))
  }

  /** CLZ. */
  function CountLeadingZeros(op: ArmOp, cond: ArmCondition, rd: RegIndex, rm: RegIndex): (i: Instruction)
    ensures i.CpuDataProcess? && HasRoles(i, [rd], [rm]) && i.updateFlags == Some(false) && i.data.NoOperand?
    ensures i.op == op && i.cond == cond
  {
    CpuDataProcess(op, cond, ArmRegisters([rd]), ArmRegisters([rm]), Some(false), NoOperand)
  }

  /** CMP, CMN, TST, TEQ. */
  function Compare(op: ArmOp, cond: ArmCondition, rn: RegIndex, operand2: Operand2): (i: Instruction)
    ensures i.CpuDataProcess? && HasRoles(i, [], [rn]) && i.updateFlags == Some(false) && i.data == Op2(operand2)
    ensures i.op == op && i.cond == cond
  {
    CpuDataProcess(op, cond, ArmRegisters([]), ArmRegisters([rn]), Some(false), Op2(operand2))
  }

  /** MOV, MVN. */
  function Move(op: ArmOp, cond: ArmCondition, updateFlags: bool, rd: RegIndex, operand2: Operand2): (i: Instruction)
    ensures i.CpuDataProcess? && HasRoles(i, [rd], []) && i.updateFlags == Some(updateFlags) && i.data == Op2(operand2)
    ensures i.op == op && i.cond == cond
  {
    CpuDataProcess(op, cond, ArmRegisters([rd]), ArmRegisters([]), Some(updateFlags), Op2(operand2))
  }

  /** MOVW, MOVT: the C++ constructor does not initialise update_flags_. */
  function MoveWide(op: ArmOp, cond: ArmCondition, rd: RegIndex, immed16: Immed16r): (i: Instruction)
    ensures i.CpuDataProcess? && HasRoles(i, [rd], []) && i.updateFlags.None? && i.data == Imm16(immed16)
    ensures i.op == op && i.cond == cond
  {
    CpuDataProcess(op, cond, ArmRegisters([rd]), ArmRegisters([]), None, Imm16(immed16))
  }

  /** MUL. */
  function Multiply(op: ArmOp, cond: ArmCondition, updateFlags: bool, rd: RegIndex, rm: RegIndex,
                    rs: RegIndex): (i: Instruction)
    ensures i.CpuDataProcess? && HasRoles(i, [rd], [rm, rs]) && i.updateFlags == Some(updateFlags) && i.data.NoOperand?
    ensures i.op == op && i.cond == cond
  {
    CpuDataProcess(op, cond, ArmRegisters([rd]), ArmRegisters([rm, rs]), Some(updateFlags), NoOperand)
  }

  /** MLA. */
  function MultiplyAccumulate(op: ArmOp, cond: ArmCondition, updateFlags: bool, rd: RegIndex, rm: RegIndex,
                              rs: RegIndex, rn: RegIndex): (i: Instruction)
    ensures i.CpuDataProcess? && HasRoles(i, [rd], [rm, rs, rn]) && i.updateFlags == Some(updateFlags) && i.data.NoOperand?
    ensures i.op == op && i.cond == cond
  {
    CpuDataProcess(op, cond, ArmRegisters([rd]), ArmRegisters([rm, rs, rn]), Some(updateFlags), NoOperand)
  }

  /** LDM, STM: the register list is the destination, the base register the source. */
  function LoadStoreMultiple(op: ArmOp, cond: ArmCondition, mode: AddressMode, rn: RegIndex, writeBack: bool,
                             regList: ArmRegisters): (i: Instruction)
    ensures i.CpuMultipleLoadStore? && HasRoles(i, regList.registers, [rn]) && i.addressMode == mode && i.writeBack == writeBack
    ensures i.op == op && i.cond == cond
  {
    CpuMultipleLoadStore(op, cond, regList, ArmRegisters([rn]), mode, writeBack)
  }

  /** PUSH, POP. */
  function PushPop(op: ArmOp, cond: ArmCondition, regList: ArmRegisters): (i: Instruction)
    ensures i.CpuMultipleLoadStore? && HasRoles(i, regList.registers, []) && i.addressMode == NoMode && !i.writeBack
    ensures i.op == op && i.cond == cond
  {
    CpuMultipleLoadStore(op, cond, regList, ArmRegisters([]), NoMode, false)
  }

  function LoadStoreZeroOffset(op: ArmOp, cond: ArmCondition, dataType: ArmDataType, rd: RegIndex,
                               rn: RegIndex): (i: Instruction)
    ensures i.CpuSingleLoadStore? && HasRoles(i, [rd], [rn]) && i.addressing.StoredOffset() == DefaultFlexOffset()
    ensures i.op == op && i.cond == cond && i.dataType == dataType && i.addressing == ZeroOffset
  {
    CpuSingleLoadStore(op, cond, ArmRegisters([rd]), ArmRegisters([rn]), dataType, ZeroOffset)
  }

  function LoadStorePreIndexed(op: ArmOp, cond: ArmCondition, dataType: ArmDataType, rd: RegIndex, rn: RegIndex,
                               offset: FlexOffset, writeBack: bool): (i: Instruction)
    ensures i.CpuSingleLoadStore? && HasRoles(i, [rd], [rn]) && i.addressing.StoredOffset() == offset
    ensures i.op == op && i.cond == cond && i.dataType == dataType && i.addressing == PreIndexed(offset, writeBack)
  {
    CpuSingleLoadStore(op, cond, ArmRegisters([rd]), ArmRegisters([rn]), dataType, PreIndexed(offset, writeBack))
  }

  function LoadStoreProgramRelative(op: ArmOp, cond: ArmCondition, dataType: ArmDataType, rd: RegIndex,
                                    labelName: string): (i: Instruction)
    ensures i.CpuSingleLoadStore? && HasRoles(i, [rd], []) && i.addressing.StoredOffset() == DefaultFlexOffset()
    ensures i.op == op && i.cond == cond && i.dataType == dataType && i.addressing == ProgramRelative(labelName)
  {
    CpuSingleLoadStore(op, cond, ArmRegisters([rd]), ArmRegisters([]), dataType, ProgramRelative(labelName))
  }

  function LoadStorePostIndexed(op: ArmOp, cond: ArmCondition, dataType: ArmDataType, rd: RegIndex, rn: RegIndex,
                                offset: FlexOffset): (i: Instruction)
    ensures i.CpuSingleLoadStore? && HasRoles(i, [rd], [rn]) && i.addressing.StoredOffset() == offset
    ensures i.op == op && i.cond == cond && i.dataType == dataType && i.addressing == PostIndexed(offset)
  {
    CpuSingleLoadStore(op, cond, ArmRegisters([rd]), ArmRegisters([rn]), dataType, PostIndexed(offset))
  }

  /** The four single-register forms stay apart: whatever the arguments, no
      two of them build the same instruction, so the addressing form of a
      built instruction tells which constructor made it. */
  lemma SingleLoadStoreFormsDiffer(op: ArmOp, cond: ArmCondition, dataType: ArmDataType, rd: RegIndex, rn: RegIndex,
                                   offset: FlexOffset, writeBack: bool, labelName: string)
    ensures var zero := LoadStoreZeroOffset(op, cond, dataType, rd, rn);
            var pre := LoadStorePreIndexed(op, cond, dataType, rd, rn, offset, writeBack);
            var rel := LoadStoreProgramRelative(op, cond, dataType, rd, labelName);
            var post := LoadStorePostIndexed(op, cond, dataType, rd, rn, offset);
            zero != pre && zero != rel && zero != post && pre != rel && pre != post && rel != post
  {
  }

  /** VABS, VCPY, VNEG, VSQRT. */
  function VfpUnary(op: ArmOp, cond: ArmCondition, precision: Precision, fd: RegIndex, fm: RegIndex): (i: Instruction)
    ensures i.VfpDataProcess? && HasRoles(i, [fd], [fm]) && !i.compareWithZero
    ensures i.op == op && i.cond == cond && i.precision == precision && !i.e
  {
    VfpDataProcess(op, cond, ArmRegisters([fd]), ArmRegisters([fm]), precision, false, false)
  }

  /** VADD, VSUB, VDIV, VMLA, VNMLA, VMLS, VNMLS, VMUL, VNMUL. */
  function VfpBinary(op: ArmOp, cond: ArmCondition, precision: Precision, fd: RegIndex, fn: RegIndex,
                     fm: RegIndex): (i: Instruction)
    ensures i.VfpDataProcess? && HasRoles(i, [fd], [fn, fm]) && !i.compareWithZero
    ensures i.op == op && i.cond == cond && i.precision == precision && !i.e
  {
    VfpDataProcess(op, cond, ArmRegisters([fd]), ArmRegisters([fn, fm]), precision, false, false)
  }

  /** VCMP against a register. */
  function VfpCompare(e: bool, cond: ArmCondition, precision: Precision, fd: RegIndex, fm: RegIndex): (i: Instruction)
    ensures i.VfpDataProcess? && i.op == VCMP && HasRoles(i, [fd], [fm]) && !i.compareWithZero && i.e == e
    ensures i.cond == cond && i.precision == precision
  {
    VfpDataProcess(VCMP, cond, ArmRegisters([fd]), ArmRegisters([fm]), precision, e, false)
  }

  /** VCMP against zero. */
  function VfpCompareWithZero(e: bool, cond: ArmCondition, precision: Precision, fd: RegIndex): (i: Instruction)
    ensures i.VfpDataProcess? && i.op == VCMP && HasRoles(i, [fd], []) && i.compareWithZero && i.e == e
    ensures i.cond == cond && i.precision == precision
  {
    VfpDataProcess(VCMP, cond, ArmRegisters([fd]), ArmRegisters([]), precision, e, true)
  }
}
