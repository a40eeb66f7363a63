/** `Arm_asm_generator` of src/arm_asm_generator.cpp: the mediator's static
    routing of an event to the components that handle it, and the register
    and flag-register description that `init` hands to the register
    manager. The handlers themselves are outside this model; a route says
    which handlers run, in which order, and whose answer is returned. */
module ArmAsmGenerator {
  import opened Wrappers

  /** The four components the mediator owns. */
  datatype Component = InstructionGenerator | RegisterManager | MemoryManager | IntermediateCodeManager

  /** Who raised an event: one of the four components, or any other
      pointer, which matches none of the comparisons. */
  datatype Sender = From(component: Component) | Stranger

  /** The event types `notify` names. */
  datatype EventType =
    | NextIc
    | GetRegForIntConst | GetRegForReadingVar | GetRegForWritingVar | GetSpReg | GetR0Reg | GetR1Reg
    | GetS0Reg | IsCpuReg | ReadyToPushContextSavedCpuRegs | ReadyToPushContextSavedVfpRegs | ClearFlag
    | ReturnVar | GetAddrReg | StartInstruction | EndInstruction | FuncRet | SaveRegsWhenCallingFunc
    | SaveRegsWhenCallingAbiFunc | PlaceArgumentInRegsWhenCallingFunc | CheckConstIntOwnValueReg
    | CheckVarOwnValueReg | ChangeFlagsForVar | CheckVarAttachedToFlag | GetVarCaredFlag
    | GetConstIntSValueReg | AllocateIdleCpuReg | AttachConstIntToReg
    | FuncDefine
    | ReadyToPushLocalVars | ReadyToPopLocalVars | ReadyToPopFParamCpuRegs | ReadyToPopFParamVfpRegs
    | ReadyToPopContextRecoveredCpuRegs | ReadyToPopContextRecoveredVfpRegs | GetVarStackPosFromSp
    | PushVarToStack | ReadyToPopTempVars | PushArgumentToStackWhenCallingFunc | CheckTempVarInStack
    | ReadyToPushFParamCpuRegs | ReadyToPushFParamVfpRegs
    | CallFunc | CallAbiFunc | MoveDataBetweenCpuRegs | AssignVar
    | RetFromCalledFunc | RetFromCalledAbiFunc | EndBasicBlockWithoutFlag
    | StoreVarToMem | LoadVarToReg | WriteConstIntToReg | WriteConstFloatToReg | WriteAddrToReg
    | PushTempVarFromRegToStack
    | GetRegByteSize | GetLrReg | GetPcReg | PopStack
    | StartBasicBlock | StartFunc | EndBasicBlock | EndFunc

  /** What `notify` does with an event: the handlers it calls, in order, and
      the component whose answer it returns; None returns the
      default-constructed event. */
  datatype Plan = Plan(calls: seq<Component>, answeredBy: Option<Component>)

  /** Nothing is called and the default event is returned. */
  const Silent: Plan := Plan([], None)

  /** One handler is called and its answer returned. */
  function Ask(c: Component): Plan
  {
    Plan([c], Some(c))
  }

  /** One handler is called and its answer dropped. */
  function Tell(c: Component): Plan
  {
    Plan([c], None)
  }

  // ---------------------------------------------------------------------------
  // The case labels of each sender's switch, listed apart from the routing

  /** The event types the instruction generator's switch has a case for. */
  predicate GeneratorLists(e: EventType)
  {
    e.NextIc? || e.GetRegForIntConst? || e.GetRegForReadingVar? || e.GetRegForWritingVar? || e.GetSpReg?
    || e.GetR0Reg? || e.GetR1Reg? || e.GetS0Reg? || e.IsCpuReg? || e.ReadyToPushContextSavedCpuRegs?
    || e.ReadyToPushContextSavedVfpRegs? || e.ClearFlag? || e.ReturnVar? || e.GetAddrReg?
    || e.StartInstruction? || e.EndInstruction? || e.FuncRet? || e.SaveRegsWhenCallingFunc?
    || e.SaveRegsWhenCallingAbiFunc? || e.PlaceArgumentInRegsWhenCallingFunc? || e.CheckConstIntOwnValueReg?
    || e.CheckVarOwnValueReg? || e.ChangeFlagsForVar? || e.CheckVarAttachedToFlag? || e.GetVarCaredFlag?
    || e.GetConstIntSValueReg? || e.AllocateIdleCpuReg? || e.AttachConstIntToReg? || e.FuncDefine?
    || e.ReadyToPushLocalVars? || e.ReadyToPopLocalVars? || e.ReadyToPopFParamCpuRegs?
    || e.ReadyToPopFParamVfpRegs? || e.ReadyToPopContextRecoveredCpuRegs?
    || e.ReadyToPopContextRecoveredVfpRegs? || e.GetVarStackPosFromSp? || e.PushVarToStack?
    || e.ReadyToPopTempVars? || e.PushArgumentToStackWhenCallingFunc? || e.CheckTempVarInStack?
    || e.ReadyToPushFParamCpuRegs? || e.ReadyToPushFParamVfpRegs? || e.CallFunc? || e.CallAbiFunc?
    || e.MoveDataBetweenCpuRegs? || e.AssignVar? || e.RetFromCalledFunc? || e.RetFromCalledAbiFunc?
    || e.EndBasicBlockWithoutFlag?
  }

  /** The event types the register manager's switch has a case for. */
  predicate RegisterManagerLists(e: EventType)
  {
    e.StoreVarToMem? || e.LoadVarToReg? || e.WriteConstIntToReg? || e.WriteConstFloatToReg?
    || e.WriteAddrToReg? || e.PushTempVarFromRegToStack? || e.MoveDataBetweenCpuRegs?
    || e.ReadyToPushContextSavedCpuRegs? || e.ReadyToPushContextSavedVfpRegs? || e.StartInstruction?
    || e.EndInstruction?
  }

  /** The event types the memory manager's switch has a case for. */
  predicate MemoryManagerLists(e: EventType)
  {
    e.GetRegByteSize? || e.StartInstruction? || e.EndInstruction? || e.GetLrReg? || e.GetPcReg?
    || e.PopStack?
  }

  /** The event types the intermediate-code manager's switch has a case for. */
  predicate IntermediateCodeLists(e: EventType)
  {
    e.StartBasicBlock? || e.StartFunc? || e.EndBasicBlock? || e.EndFunc?
  }

  /** The event types a sender's switch has a case for; an unknown sender
      has none. */
  predicate Lists(s: Sender, e: EventType)
  {
    match s
    case Stranger => false
    case From(InstructionGenerator) => GeneratorLists(e)
    case From(RegisterManager) => RegisterManagerLists(e)
    case From(MemoryManager) => MemoryManagerLists(e)
    case From(IntermediateCodeManager) => IntermediateCodeLists(e)
  }

  predicate NoDuplicates(cs: seq<Component>)
  {
    forall i, j :: 0 <= i < j < |cs| ==> cs[i] != cs[j]
  }

  // ---------------------------------------------------------------------------
  // notify

  /** `Arm_asm_generator::notify`: the switch on the sender, then on the
      event type. An answer is only ever taken from a component that is
      called, and no component is called twice. */
  function Route(s: Sender, e: EventType): (p: Plan)
    ensures p.answeredBy.Some? ==> p.answeredBy.value in p.calls
    ensures 1 <= |p.calls| <= 2 || p == Silent
    ensures NoDuplicates(p.calls)
  {
    match s
    case Stranger => Silent
    case From(InstructionGenerator) => FromGenerator(e)
    case From(RegisterManager) => FromRegisterManager(e)
    case From(MemoryManager) => FromMemoryManager(e)
    case From(IntermediateCodeManager) => FromIntermediateCodeManager(e)
  }

  /** The switch for events raised by the instruction generator. */
  function FromGenerator(e: EventType): Plan
  {
    match e
    case NextIc => Ask(IntermediateCodeManager)
    case GetRegForIntConst | GetRegForReadingVar | GetRegForWritingVar | GetSpReg | GetR0Reg | GetR1Reg
       | GetS0Reg | IsCpuReg | ReadyToPushContextSavedCpuRegs | ReadyToPushContextSavedVfpRegs | ClearFlag
       | ReturnVar | GetAddrReg | StartInstruction | EndInstruction | FuncRet | SaveRegsWhenCallingFunc
       | SaveRegsWhenCallingAbiFunc | PlaceArgumentInRegsWhenCallingFunc | CheckConstIntOwnValueReg
       | CheckVarOwnValueReg | ChangeFlagsForVar | CheckVarAttachedToFlag | GetVarCaredFlag
       | GetConstIntSValueReg | AllocateIdleCpuReg | AttachConstIntToReg
      => Ask(RegisterManager)
    case FuncDefine => Plan([MemoryManager, RegisterManager], None)
    case ReadyToPushLocalVars | ReadyToPopLocalVars | ReadyToPopFParamCpuRegs | ReadyToPopFParamVfpRegs
       | ReadyToPopContextRecoveredCpuRegs | ReadyToPopContextRecoveredVfpRegs | GetVarStackPosFromSp
       | PushVarToStack | ReadyToPopTempVars | PushArgumentToStackWhenCallingFunc | CheckTempVarInStack
      => Ask(MemoryManager)
    case ReadyToPushFParamCpuRegs | ReadyToPushFParamVfpRegs
      => Plan([RegisterManager, MemoryManager], Some(RegisterManager))
    case CallFunc | CallAbiFunc | MoveDataBetweenCpuRegs | AssignVar => Tell(InstructionGenerator)
    case RetFromCalledFunc | RetFromCalledAbiFunc | EndBasicBlockWithoutFlag
      => Plan([RegisterManager, MemoryManager], Some(MemoryManager))
    case _ => Silent
  }

  /** The switch for events raised by the register manager. */
  function FromRegisterManager(e: EventType): Plan
  {
    match e
    case StoreVarToMem | LoadVarToReg | WriteConstIntToReg | WriteConstFloatToReg | WriteAddrToReg
       | PushTempVarFromRegToStack | MoveDataBetweenCpuRegs
      => Tell(InstructionGenerator)
    case ReadyToPushContextSavedCpuRegs | ReadyToPushContextSavedVfpRegs => Tell(MemoryManager)
    case StartInstruction | EndInstruction => Tell(RegisterManager)
    case _ => Silent
  }

  /** The switch for events raised by the memory manager. */
  function FromMemoryManager(e: EventType): Plan
  {
    match e
    case GetRegByteSize | StartInstruction | EndInstruction | GetLrReg | GetPcReg => Ask(RegisterManager)
    case PopStack => Tell(InstructionGenerator)
    case _ => Silent
  }

  /** The switch for events raised by the intermediate-code manager. */
  function FromIntermediateCodeManager(e: EventType): Plan
  {
    match e
    case StartBasicBlock | StartFunc => Tell(InstructionGenerator)
    case EndBasicBlock => Plan([RegisterManager, MemoryManager], None)
    case EndFunc => Tell(RegisterManager)
    case _ => Silent
  }

  /** The event `notify` returns, given the answer each handler would give. */
  function Response<Event>(p: Plan, answer: Component -> Event, default: Event): (r: Event)
    requires p.answeredBy.Some? ==> p.answeredBy.value in p.calls
    ensures p.answeredBy.None? ==> r == default
    ensures p.answeredBy.Some? ==> exists c :: c in p.calls && r == answer(c)
    ensures p.answeredBy.Some? ==> r == answer(p.answeredBy.value)
  {
    match p.answeredBy
    case None => default
    case Some(c) => answer(c)
  }

  /** Something happens exactly for the event types the sender's switch
      lists; for the rest, and for an unknown sender, nothing is called. */
  lemma RoutedExactlyWhenListed(s: Sender, e: EventType)
    ensures Route(s, e).calls != [] <==> Lists(s, e)
    ensures Route(s, e) == Silent <==> !Lists(s, e)
  {
    if s.From? {
      SenderRoutedExactlyWhenListed(s.component, e);
    }
  }

  /** The same, for each component's switch in turn. */
  lemma SenderRoutedExactlyWhenListed(c: Component, e: EventType)
    ensures Route(From(c), e).calls != [] <==> Lists(From(c), e)
    ensures Route(From(c), e) == Silent <==> !Lists(From(c), e)
  {
    match c
    case InstructionGenerator => GeneratorSwitchIsListed(e);
    case RegisterManager => RegisterManagerSwitchIsListed(e);
    case MemoryManager => MemoryManagerSwitchIsListed(e);
    case IntermediateCodeManager => IntermediateCodeSwitchIsListed(e);
  }

  lemma GeneratorSwitchIsListed(e: EventType)
    ensures FromGenerator(e).calls != [] <==> GeneratorLists(e)
  {
  }

  lemma RegisterManagerSwitchIsListed(e: EventType)
    ensures FromRegisterManager(e).calls != [] <==> RegisterManagerLists(e)
  {
  }

  lemma MemoryManagerSwitchIsListed(e: EventType)
    ensures FromMemoryManager(e).calls != [] <==> MemoryManagerLists(e)
  {
  }

  lemma IntermediateCodeSwitchIsListed(e: EventType)
    ensures FromIntermediateCodeManager(e).calls != [] <==> IntermediateCodeLists(e)
  {
  }

  // ---------------------------------------------------------------------------
  // Routing facts

  /** A function definition from the generator reaches the memory manager,
      then the register manager, and answers with the default event. */
  lemma FuncDefineRouting<Event>(answer: Component -> Event, default: Event)
    ensures Route(From(InstructionGenerator), FuncDefine) == Plan([MemoryManager, RegisterManager], None)
    ensures Response(Route(From(InstructionGenerator), FuncDefine), answer, default) == default
  {
  }

  /** Pushing the formal parameters' registers asks the register manager,
      then tells the memory manager. */
  lemma PushFParamRouting<Event>(e: EventType, answer: Component -> Event, default: Event)
    requires e == ReadyToPushFParamCpuRegs || e == ReadyToPushFParamVfpRegs
    ensures Route(From(InstructionGenerator), e) == Plan([RegisterManager, MemoryManager], Some(RegisterManager))
    ensures Response(Route(From(InstructionGenerator), e), answer, default) == answer(RegisterManager)
  {
  }

  /** Returning from a call, and ending a block without a flag, tell the
      register manager and answer with the memory manager's result. */
  lemma ReturnRouting<Event>(e: EventType, answer: Component -> Event, default: Event)
    requires e == RetFromCalledFunc || e == RetFromCalledAbiFunc || e == EndBasicBlockWithoutFlag
    ensures Route(From(InstructionGenerator), e) == Plan([RegisterManager, MemoryManager], Some(MemoryManager))
    ensures Response(Route(From(InstructionGenerator), e), answer, default) == answer(MemoryManager)
  {
  }

  /** From the intermediate-code manager, the end of a basic block goes to
      the register manager, then the memory manager. */
  lemma EndBasicBlockRouting()
    ensures Route(From(IntermediateCodeManager), EndBasicBlock) == Plan([RegisterManager, MemoryManager], None)
  {
  }

  /** From the intermediate-code manager, the end of a function goes only to
      the register manager. */
  lemma EndFuncRouting()
    ensures Route(From(IntermediateCodeManager), EndFunc) == Plan([RegisterManager], None)
  {
  }

  /** From the intermediate-code manager, the start of a function or of a
      basic block goes only to the instruction generator. */
  lemma StartRouting(e: EventType)
    requires e == StartFunc || e == StartBasicBlock
    ensures Route(From(IntermediateCodeManager), e) == Plan([InstructionGenerator], None)
  {
  }

  /** Instruction boundaries go to the register manager alone, from the
      generator, the register manager or the memory manager; only the
      register manager's own report gets no answer back. */
  lemma InstructionBoundaryRouting<Event>(c: Component, e: EventType, answer: Component -> Event, default: Event)
    requires c != IntermediateCodeManager && (e == StartInstruction || e == EndInstruction)
    ensures Route(From(c), e).calls == [RegisterManager]
    ensures Route(From(c), e).answeredBy == if c == RegisterManager then None else Some(RegisterManager)
    ensures Response(Route(From(c), e), answer, default) ==
            if c == RegisterManager then default else answer(RegisterManager)
  {
  }

  /** An unknown sender, or an event its switch does not list, calls
      nothing, and the caller gets the default event. */
  lemma UnlistedEventsAreDropped<Event>(s: Sender, e: EventType, answer: Component -> Event, default: Event)
    requires s == Stranger || !Lists(s, e)
    ensures Route(s, e) == Silent
    ensures Response(Route(s, e), answer, default) == default
  {
    RoutedExactlyWhenListed(s, e);
  }

  // ---------------------------------------------------------------------------
  // init: the register and flag-register description

  /** `reg_attr`. */
  datatype RegRole = Argument | Temp | StackPointer | ReturnAddr | ProgramCounter

  /** `reg_processor`. */
  datatype Processor = Cpu | Vfp

  /** `reg_state`: every register starts unused. */
  datatype RegState = NotUsed

  /** One register of the target: name, number, role, whether the register
      is general purpose (the unnamed flag the table sets false only for sp
      and pc), initial state, width in bits and processor. */
  datatype Reg = Reg(name: string, index: nat, role: RegRole, general: bool, state: RegState,
                     bits: nat, processor: Processor)

  /** `flag_in_flag_reg`. */
  datatype Flag = Negative | Zero | Carry | Overflow

  datatype FlagReg = FlagReg(name: string, count: nat, flags: seq<Flag>)

  /** The registers `init` lists, in its order. */
  const ArmRegs: seq<Reg> := CpuArgumentRegs + CpuTempRegs + CpuSpecialRegs + VfpArgumentRegs + VfpTempRegs

  /** r0-r3, the CPU argument registers. */
  const CpuArgumentRegs: seq<Reg> := [
    Reg("r0", 0, Argument, true, NotUsed, 32, Cpu),
    Reg("r1", 1, Argument, true, NotUsed, 32, Cpu),
    Reg("r2", 2, Argument, true, NotUsed, 32, Cpu),
    Reg("r3", 3, Argument, true, NotUsed, 32, Cpu)
  ]

  /** r4-r12, the CPU temporaries. */
  const CpuTempRegs: seq<Reg> := [
    Reg("r4", 4, Temp, true, NotUsed, 32, Cpu),
    Reg("r5", 5, Temp, true, NotUsed, 32, Cpu),
    Reg("r6", 6, Temp, true, NotUsed, 32, Cpu),
    Reg("r7", 7, Temp, true, NotUsed, 32, Cpu),
    Reg("r8", 8, Temp, true, NotUsed, 32, Cpu),
    Reg("r9", 9, Temp, true, NotUsed, 32, Cpu),
    Reg("r10", 10, Temp, true, NotUsed, 32, Cpu),
    Reg("r11", 11, Temp, true, NotUsed, 32, Cpu),
    Reg("r12", 12, Temp, true, NotUsed, 32, Cpu)
  ]

  /** sp, lr and pc. */
  const CpuSpecialRegs: seq<Reg> := [
    Reg("sp", 13, StackPointer, false, NotUsed, 32, Cpu),
    Reg("lr", 14, ReturnAddr, true, NotUsed, 32, Cpu),
    Reg("pc", 15, ProgramCounter, false, NotUsed, 32, Cpu)
  ]

  /** s0-s15, the VFP argument registers. */
  const VfpArgumentRegs: seq<Reg> := [
    Reg("s0", 16, Argument, true, NotUsed, 32, Vfp),
    Reg("s1", 17, Argument, true, NotUsed, 32, Vfp),
    Reg("s2", 18, Argument, true, NotUsed, 32, Vfp),
    Reg("s3", 19, Argument, true, NotUsed, 32, Vfp),
    Reg("s4", 20, Argument, true, NotUsed, 32, Vfp),
    Reg("s5", 21, Argument, true, NotUsed, 32, Vfp),
    Reg("s6", 22, Argument, true, NotUsed, 32, Vfp),
    Reg("s7", 23, Argument, true, NotUsed, 32, Vfp),
    Reg("s8", 24, Argument, true, NotUsed, 32, Vfp),
    Reg("s9", 25, Argument, true, NotUsed, 32, Vfp),
    Reg("s10", 26, Argument, true, NotUsed, 32, Vfp),
    Reg("s11", 27, Argument, true, NotUsed, 32, Vfp),
    Reg("s12", 28, Argument, true, NotUsed, 32, Vfp),
    Reg("s13", 29, Argument, true, NotUsed, 32, Vfp),
    Reg("s14", 30, Argument, true, NotUsed, 32, Vfp),
    Reg("s15", 31, Argument, true, NotUsed, 32, Vfp)
  ]

  /** s16-s31, the VFP temporaries. */
  const VfpTempRegs: seq<Reg> := [
    Reg("s16", 32, Temp, true, NotUsed, 32, Vfp),
    Reg("s17", 33, Temp, true, NotUsed, 32, Vfp),
    Reg("s18", 34, Temp, true, NotUsed, 32, Vfp),
    Reg("s19", 35, Temp, true, NotUsed, 32, Vfp),
    Reg("s20", 36, Temp, true, NotUsed, 32, Vfp),
    Reg("s21", 37, Temp, true, NotUsed, 32, Vfp),
    Reg("s22", 38, Temp, true, NotUsed, 32, Vfp),
    Reg("s23", 39, Temp, true, NotUsed, 32, Vfp),
    Reg("s24", 40, Temp, true, NotUsed, 32, Vfp),
    Reg("s25", 41, Temp, true, NotUsed, 32, Vfp),
    Reg("s26", 42, Temp, true, NotUsed, 32, Vfp),
    Reg("s27", 43, Temp, true, NotUsed, 32, Vfp),
    Reg("s28", 44, Temp, true, NotUsed, 32, Vfp),
    Reg("s29", 45, Temp, true, NotUsed, 32, Vfp),
    Reg("s30", 46, Temp, true, NotUsed, 32, Vfp),
    Reg("s31", 47, Temp, true, NotUsed, 32, Vfp)
  ]

  /** The flag register: cpsr with its four condition flags. */
  const Cpsr: FlagReg := FlagReg("cpsr", 4, [Negative, Zero, Carry, Overflow])

  /** The memory description passed along with the registers, spelled as in
      the program. */
  const ArmMemoryInfo: string := "little_ending"

  /** What `init` passes to the generic initialisation. */
  datatype InitDescriptor = InitDescriptor(regs: seq<Reg>, flagReg: FlagReg, memoryInfo: string)

  /** `Arm_asm_generator::init`: the table, the flag register and the memory
      description it passes on. */
  function Init(): (d: InitDescriptor)
    ensures d.regs == ArmRegs && d.flagReg == Cpsr
    ensures |d.regs| == 48
    ensures d.flagReg.name == "cpsr" && d.flagReg.count == |d.flagReg.flags|
    ensures d.memoryInfo == ArmMemoryInfo
  {
    InitDescriptor(ArmRegs, Cpsr, ArmMemoryInfo)
  }

  // ---------------------------------------------------------------------------
  // Register table facts

  /** The role the table gives register number i. */
  function ExpectedRole(i: nat): RegRole
  {
    if i < 4 then Argument
    else if i < 13 then Temp
    else if i == 13 then StackPointer
    else if i == 14 then ReturnAddr
    else if i == 15 then ProgramCounter
    else if i < 32 then Argument
    else Temp
  }

  /** Entry i has number i, so the numbers are 0..47 and distinct; r0-r15
      are CPU registers and s0-s31 VFP registers; every register is 32 bits
      wide and starts unused; only sp and pc are not general purpose. */
  lemma RegisterTableLayout(i: int)
    requires 0 <= i < |ArmRegs|
    ensures |ArmRegs| == 48
    ensures ArmRegs[i].index == i
    ensures ArmRegs[i].processor == (if i < 16 then Cpu else Vfp)
    ensures ArmRegs[i].role == ExpectedRole(i)
    ensures ArmRegs[i].bits == 32 && ArmRegs[i].state == NotUsed
    ensures !ArmRegs[i].general <==> i == 13 || i == 15
  {
    if i < 4 {
      assert ArmRegs[i] == CpuArgumentRegs[i];
      CpuArgumentLayout();
    } else if i < 13 {
      assert ArmRegs[i] == CpuTempRegs[i - 4];
      CpuTempLayout();
    } else if i < 16 {
      assert ArmRegs[i] == CpuSpecialRegs[i - 13];
    } else if i < 32 {
      assert ArmRegs[i] == VfpArgumentRegs[i - 16];
      VfpArgumentLayout();
    } else {
      assert ArmRegs[i] == VfpTempRegs[i - 32];
      VfpTempLayout();
    }
  }

  /** A run of general-purpose registers of one role and one processor,
      numbered from `first` on. */
  predicate UniformGroup(group: seq<Reg>, first: nat, role: RegRole, processor: Processor)
  {
    forall k :: 0 <= k < |group| ==>
      group[k].index == first + k && group[k].role == role && group[k].processor == processor
      && group[k].general && group[k].bits == 32 && group[k].state == NotUsed
  }

  lemma CpuArgumentLayout()
    ensures UniformGroup(CpuArgumentRegs, 0, Argument, Cpu)
  {
  }

  lemma CpuTempLayout()
    ensures UniformGroup(CpuTempRegs, 4, Temp, Cpu)
  {
  }

  lemma VfpArgumentLayout()
    ensures UniformGroup(VfpArgumentRegs, 16, Argument, Vfp)
  {
  }

  lemma VfpTempLayout()
    ensures UniformGroup(VfpTempRegs, 32, Temp, Vfp)
  {
  }

  /** No two entries share a register number. */
  lemma RegisterNumbersDistinct(i: int, j: int)
    requires 0 <= i < |ArmRegs| && 0 <= j < |ArmRegs| && i != j
    ensures ArmRegs[i].index != ArmRegs[j].index
  {
    RegisterTableLayout(i);
    RegisterTableLayout(j);
  }

  /** The argument registers are r0-r3 and s0-s15, the temporaries r4-r12
      and s16-s31. */
  lemma RegisterRoles(i: int)
    requires 0 <= i < |ArmRegs|
    ensures ArmRegs[i].role == Argument <==> i < 4 || 16 <= i < 32
    ensures ArmRegs[i].role == Temp <==> 4 <= i < 13 || 32 <= i
  {
    RegisterTableLayout(i);
  }

  /** cpsr carries exactly N, Z, C and V, each once. */
  lemma FlagRegisterHasFourFlags()
    ensures Cpsr.count == |Cpsr.flags| == 4
    ensures forall f: Flag :: f in Cpsr.flags
    ensures forall i, j :: 0 <= i < j < |Cpsr.flags| ==> Cpsr.flags[i] != Cpsr.flags[j]
  {
    forall f: Flag
      ensures f in Cpsr.flags
    {
      match f
      case Negative => assert Cpsr.flags[0] == f;
      case Zero => assert Cpsr.flags[1] == f;
      case Carry => assert Cpsr.flags[2] == f;
      case Overflow => assert Cpsr.flags[3] == f;
    }
  }
}
