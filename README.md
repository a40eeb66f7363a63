# lrc core in Dafny

A Dafny model of three pieces of the `lrc` SysY compiler, with proofs about them.

- **ARM operands and instructions** (`arm_asm.dfy`, module `ArmAsm`):
  - the immediate-legality loop of `operand2` and the offset range check of `flexoffset`;
  - the variadic register-list constructor;
  - one closed datatype for the CPU and VFP instruction classes, with one constructor function per C++ constructor.
- **The grammar analyses of `Grammer`**:
  - `grammar_spec.dfy`, module `GrammarSpec`, gives what the analyses mean. Nullable variables, FIRST and FOLLOW are each defined as the least vector that satisfies one closure condition per production; nullable is also proved equal to the derivation meaning (some derivation tree rewrites the variable to empty symbols). It also holds the augmented grammar.
  - `grammer.dfy`, module `Grammer`, holds the class. Its three `while (tag)` fixpoint loops update arrays in place, and each is proved to end at exactly that least solution. The same module has the queries built on the analyses, augmentation, and the static name counter.
- **The code generator's mediator** (`arm_asm_generator.dfy`, module `ArmAsmGenerator`):
  - `notify` as a total function from (sender, event type) to a plan: the handlers called, in order, and whose answer is returned;
  - the register and flag-register table that `init` builds.
- **Findings** (`as_written.dfy`, module `AsWritten`): the places where `grammer.cpp` computes something other than the intended analysis. Each is modelled as written, with a concrete grammar that shows the difference. Wherever the difference rests on the grammar's analyses, the analysis vectors are proved to be that grammar's least solutions.
- `wrappers.dfy` holds the `Option` type.

Symbols are numbered as in the C++:
- terminators are `0 .. T-1`;
- the stack-bottom symbol is `T-2` and the empty symbol is `T-1`;
- syntax variables are `T .. N-1`.

The nullable flags and FOLLOW sets are indexed by `variable - T`, and FIRST sets by symbol.

## Model

| member | source | states |
|---|---|---|
| ArmAsm.IsLegalImmed8r | include/arm_asm.h:200-220 | the two mask loops (24 shifts, then 8 shift-or-1 steps) accept x exactly when every set bit of x lies inside 0xFF rotated left by some r in 0..31 |
| ArmAsm.ByteValuesAreLegal | include/arm_asm.h:202-208 | every value 0..255 is legal, 0 included, because the first mask is 255 |
| ArmAsm.OddShiftIsLegal | include/arm_asm.h:200-220 | 0x1FE (0xFF shifted by one) is accepted |
| ArmAsm.NineBitSpanIsIllegal | include/arm_asm.h:200-220 | 0x101 is rejected: its set bits span nine positions, so no rotated window covers them |
| ArmAsm.OddRotationIsNotEncodable | include/arm_asm.h:200-220 | the loop accepts 0x1FE, though no ARM modified immediate constant (8 bits rotated right by an even amount) equals it |
| ArmAsm.IsEncodableImmed8r | include/arm_asm.h:200-220 | corrected check: it tries only the 16 even rotations, and accepts x exactly when x is a modified immediate constant of section A5.2.4 of the ARMv7-A/R Architecture Reference Manual |
| ArmAsm.EncodableIsLegal8r | include/arm_asm.h:200-220 | every encodable value is accepted by the loop as written, so the corrected check only ever rejects more |
| ArmAsm.IsLegalExpr | include/arm_asm.h:366-370 | an offset is legal exactly when its magnitude is below 0x1000, that is, within -4095..4095 |
| ArmAsm.DefaultOperand2 | include/arm_asm.h:174-177 | `operand2()` builds an 8-bit-rotated immediate whose value is 0 |
| ArmAsm.Operand2Register | include/arm_asm.h:184-187 | `operand2(Rm)` builds a register operand over Rm, with no shift and no shift amount |
| ArmAsm.Operand2ShiftByConstant | include/arm_asm.h:189-192 | `operand2(Rm, shift_op, n)` builds a register operand over Rm with the given shift, by the constant n |
| ArmAsm.Operand2ShiftByRegister | include/arm_asm.h:194-197 | `operand2(Rm, shift_op, Rs)` builds a register operand over Rm with the given shift, by the amount in Rs |
| ArmAsm.DefaultFlexOffset | include/arm_asm.h:340-343 | `flexoffset()` builds an expression offset whose value is 0 |
| ArmAsm.DefaultOperandsAreEncodable | include/arm_asm.h:174-177 | the default operand2 is the immediate 0, which both immediate checks accept; the default flexoffset (lines 340-343) is the expression 0, which is in range |
| ArmAsm.MakeRegisters | include/arm_asm.h:396-405 | the list has exactly num registers: the first num arguments, in argument order |
| ArmAsm.BranchToLabel | include/arm_asm.h:683-686 | branch to a label: no destination or source registers, with the given opcode, condition and label |
| ArmAsm.BranchToRegister | include/arm_asm.h:688-691 | branch to a register: the condition argument is ignored and NONE stored; the only source is Rm |
| ArmAsm.DataProcess | include/arm_asm.h:730-734 | the given opcode and condition, destination [Rd], sources [Rn], the given update-flags value, and the operand2 kept |
| ArmAsm.CountLeadingZeros | include/arm_asm.h:736-740 | the given opcode and condition, destination [Rd], sources [Rm], flags not updated, no operand |
| ArmAsm.Compare | include/arm_asm.h:742-746 | CMP/CMN/TST/TEQ with the given opcode and condition: no destination, sources [Rn], update_flags false, the operand2 kept |
| ArmAsm.Move | include/arm_asm.h:748-752 | the given opcode and condition, destination [Rd], no sources, the given update-flags value, the operand2 kept |
| ArmAsm.MoveWide | include/arm_asm.h:754-758 | the given opcode and condition, destination [Rd], no sources, the 16-bit immediate; update_flags left unset |
| ArmAsm.Multiply | include/arm_asm.h:760-764 | MUL with the given opcode, condition and update-flags value: destination [Rd], sources [Rm, Rs], no operand |
| ArmAsm.MultiplyAccumulate | include/arm_asm.h:766-770 | MLA with the given opcode, condition and update-flags value: destination [Rd], sources [Rm, Rs, Rn], no operand |
| ArmAsm.LoadStoreMultiple | include/arm_asm.h:792-796 | the given opcode and condition; the register list is the destination and [Rn] the source; the address mode and write-back are kept |
| ArmAsm.PushPop | include/arm_asm.h:798-802 | PUSH/POP with the given opcode and condition: the list is the destination, address mode NONE, write-back false, no source registers |
| ArmAsm.LoadStoreZeroOffset | include/arm_asm.h:836-840 | the given opcode, condition and data type, destination [Rd], source [Rn], the ZERO_OFFSET form, and the offset left at its default |
| ArmAsm.LoadStorePreIndexed | include/arm_asm.h:842-846 | the given opcode, condition and data type, destination [Rd], source [Rn], the PRE_INDEXED_OFFSET form with the given offset and write-back |
| ArmAsm.LoadStoreProgramRelative | include/arm_asm.h:848-852 | the given opcode, condition and data type, destination [Rd], no source, the PROGRAM_RELATIVE form with the given label, and the offset left at its default |
| ArmAsm.LoadStorePostIndexed | include/arm_asm.h:854-858 | the given opcode, condition and data type, destination [Rd], source [Rn], the POST_INDEXED_OFFSET form with the given offset |
| ArmAsm.SingleLoadStoreFormsDiffer | include/arm_asm.h:836-858 | for any arguments the four single-register constructors build four different instructions, so the form records which one was used |
| ArmAsm.VfpUnary | include/arm_asm.h:920-924 | the given opcode, condition and precision, destination [Fd], source [Fm], E false, not a compare with zero |
| ArmAsm.VfpBinary | include/arm_asm.h:926-930 | the given opcode, condition and precision, destination [Fd], sources [Fn, Fm], E false, not a compare with zero |
| ArmAsm.VfpCompare | include/arm_asm.h:932-936 | VCMP with the given condition and precision, destination [Fd], source [Fm], the E flag kept, not a compare with zero |
| ArmAsm.VfpCompareWithZero | include/arm_asm.h:938-942 | VCMP with the given condition and precision, destination [Fd], no source, the E flag kept, and compare_with_zero set |
| GrammarSpec.NullableStepSound | src/grammer.cpp:372-375 | flagging the left side of a production whose right side derives empty keeps the flags below every closed vector |
| GrammarSpec.LeastNullableIsUnique | src/grammer.cpp:330-379 | the least nullable vector is unique |
| GrammarSpec.LeastNullableMeansNullable | src/grammer.cpp:330-379 | under the least vector, a variable is flagged exactly when it is nullable |
| GrammarSpec.DerivesEmptyWithinLift | src/grammer.cpp:330-379 | a derivation of the empty symbol within some height is one within every larger height |
| GrammarSpec.DerivationIsFlagged | src/grammer.cpp:330-379 | every closed flag vector flags each symbol that some derivation rewrites to empty |
| GrammarSpec.CommonHeight | src/grammer.cpp:364-375 | symbols that each derive empty all do so within one common height, so a production over them derives empty too |
| GrammarSpec.DerivableIsClosedAt | src/grammer.cpp:364-375 | the vector of derivable-empty variables is closed under one production |
| GrammarSpec.DerivableIsClosed | src/grammer.cpp:330-379 | the vector of derivable-empty variables is closed under every production |
| GrammarSpec.NullableIffDerivesEmpty | src/grammer.cpp:330-379 | a variable is nullable (flagged by every closed vector) exactly when some derivation tree rewrites it to empty symbols |
| GrammarSpec.DerivesEmptyMeansNullable | src/grammer.cpp:389-392 | under the least flags, a symbol derives empty exactly when it is the empty symbol or a nullable variable |
| GrammarSpec.AllDeriveEmptyMeansNullable | src/grammer.cpp:400-410 | under the least flags, a string derives empty exactly when each symbol is the empty symbol or nullable; the empty string does |
| GrammarSpec.EmptyProductionIsNullable | src/grammer.cpp:344-350 | the left side of a production whose right side is exactly [empty] is nullable |
| GrammarSpec.TerminatorBlocksEmpty | src/grammer.cpp:364-371 | a right side that holds a terminator other than the empty symbol does not derive empty |
| GrammarSpec.TerminatedVariableIsNotNullable | src/grammer.cpp:364-371 | a variable whose every production holds such a terminator is not nullable |
| GrammarSpec.FirstStepSound | src/grammer.cpp:523-551 | adding one production's FIRST contribution to FIRST of its left side keeps the vector below every closed one |
| GrammarSpec.LeadingTerminatorIsFirst | src/grammer.cpp:499-506 | in a closed FIRST vector, a normal terminator that begins a right side is in FIRST of the left side |
| GrammarSpec.TerminatorFirstIsItself | src/grammer.cpp:488-495 | in the least FIRST vector, FIRST of a terminator is exactly itself |
| GrammarSpec.StringFirstHasEmpty | src/grammer.cpp:567-589 | FIRST of a string holds the empty symbol exactly when the string is non-empty and every symbol's FIRST holds it |
| GrammarSpec.StringFirstFromSymbols | src/grammer.cpp:567-589 | every element of FIRST of a string comes from FIRST of one of its symbols |
| GrammarSpec.FollowOfLeftInFollowOfLast | src/grammer.cpp:631-633 | in a closed FOLLOW vector, for a production A -> ... B, FOLLOW(A) is part of FOLLOW(B) |
| GrammarSpec.FollowOfLeftInFollowOfNullableTail | src/grammer.cpp:631-633 | the same when everything after B derives empty and A differs from B |
| GrammarSpec.FollowFirstStepSound | src/grammer.cpp:627-629 | adding FIRST of what follows B, minus the empty symbol, to FOLLOW(B) keeps the vector below every closed one |
| GrammarSpec.FollowInheritStepSound | src/grammer.cpp:631-634 | adding FOLLOW(A) to FOLLOW(B) under the condition tested there keeps the vector below every closed one |
| GrammarSpec.AugmentedStartIsFresh | src/grammer.cpp:265-280 | the augmented grammar is well formed; its new start variable is new, is on the left of the first production only and occurs in no right side; the old productions follow unchanged |
| Grammer.GeneratedNamesDistinct | src/grammer.cpp:39-44 | two different counter values give two different names |
| Grammer.NameGenerator.Next | src/grammer.cpp:39-44 | returns "__" followed by the counter, and bumps the counter |
| Grammer.TwoNames | src/grammer.cpp:39-44 | two successive calls return different names |
| Grammer.Grammer.constructor | src/grammer.cpp:262-287 | the grammar is augmented when asked; then all three analyses hold their least solutions |
| Grammer.Grammer.AnalysedFacts | src/grammer.cpp:330-640 | when the analyses are done, the flags name exactly the nullable variables, which are exactly the variables some derivation rewrites to empty, FIRST of a terminator is itself, FOLLOW of the start symbol holds the stack bottom, and every FOLLOW set holds only terminators, never the empty symbol |
| Grammer.Grammer.Unparsed | src/grammer.cpp:55-160 | a constructor that returns early after the counters are zeroed (on a first line without a space, or on a later malformed line) keeps the variables counted and the productions and semantic rules pushed so far, but sets no symbol count, so is_init_success reports failure |
| Grammer.Grammer.IsInitSuccess | src/grammer.cpp:645-648 | every grammar that was read reports success |
| Grammer.Grammer.Augment | src/grammer.cpp:265-280 | the grammar becomes its augmented form; the variable count grows by one; a null semantic rule goes in front |
| Grammer.Grammer.RightSideDerivesEmpty | src/grammer.cpp:363-371 | the scan of one right side returns whether every symbol derives empty under the current flags |
| Grammer.Grammer.FlagEmptyProductions | src/grammer.cpp:343-350 | every left side of an [empty] production is flagged, and the flags stay below every closed vector; a flag is set afterwards exactly when it was set before or its variable is the left side of an [empty] production |
| Grammer.Grammer.NullablePass | src/grammer.cpp:355-377 | a pass that reports a change flags at least one more variable; one that reports none changed nothing and leaves the flags closed |
| Grammer.Grammer.ComputeDerivesEmpty | src/grammer.cpp:330-379 | the flags end as the least closed vector, and nothing else changes |
| Grammer.Grammer.DeriveEmpty | src/grammer.cpp:389-392 | corrected: a symbol derives empty exactly when it is the empty symbol or a nullable variable |
| Grammer.Grammer.StringDeriveEmpty | src/grammer.cpp:400-410 | corrected (derive_empty as in the :391 Findings row): true exactly when every symbol of the string derives empty; true for the empty string |
| Grammer.Grammer.SetDifferenceEmpty | src/grammer.cpp:419-438 | the set with the empty symbol removed and every other element kept |
| Grammer.Grammer.PrefixFirstOf | src/grammer.cpp:527-551 | corrected inner loop: FIRST without the empty symbol of the right side's prefix up to and including its first non-nullable symbol, plus the empty symbol when every symbol derives empty |
| Grammer.Grammer.FirstStep | src/grammer.cpp:523-554 | one production's step changes only FIRST of its left side, which gains exactly the production's contribution; it keeps the FIRST invariant; the sets only grow; the change flag is raised exactly when something was added; otherwise that production is closed |
| Grammer.Grammer.FirstPass | src/grammer.cpp:520-555 | a pass that reports a change adds at least one (symbol, terminator) pair; one that reports none changed nothing and leaves every production closed |
| Grammer.Grammer.ComputeFirsts | src/grammer.cpp:477-557 | corrected (derive_empty as in the :391 Findings row, the inner loop as in the :535-550 row): FIRST ends as the least closed vector, with FIRST of a terminator itself, and nothing else changes |
| Grammer.Grammer.StringFirst | src/grammer.cpp:567-589 | corrected: the result is FIRST of the string; the empty symbol is added only when the loop reached the last symbol of the string and FIRST of that symbol holds it |
| Grammer.Grammer.FollowStepInputs | src/grammer.cpp:627-631 | the two inputs of one FOLLOW step: FIRST of the suffix without the empty symbol, and whether FOLLOW(A) is inherited |
| Grammer.Grammer.FollowStep | src/grammer.cpp:621-636 | one occurrence's step changes only FOLLOW(B), which gains FIRST of the suffix without the empty symbol and, under the inherit test, FOLLOW(A); it keeps the FOLLOW invariant; the sets only grow; if nothing changed, that occurrence is closed |
| Grammer.Grammer.FollowProduction | src/grammer.cpp:619-637 | one production's steps, with the same guarantees over all of its variable occurrences |
| Grammer.Grammer.FollowPass | src/grammer.cpp:614-638 | a pass that reports a change adds a pair; one that reports none changed nothing and leaves every occurrence closed |
| Grammer.Grammer.ComputeFollows | src/grammer.cpp:594-640 | corrected (derive_empty as in the :391 Findings row, string_first as in the :583 rows): FOLLOW ends as the least closed vector: the start symbol holds the stack bottom, the empty symbol is in no FOLLOW set, and nothing else changes |
| AsWritten.DeriveEmptyAsWritten | src/grammer.cpp:389-392 | the raw index reads the flag of the variable numbered T further on, or outside the array |
| AsWritten.DeriveEmptyAsWrittenIsWrong | src/grammer.cpp:391 | a grammar with least flags [false, false, true] where the raw index says S derives empty, though S is not nullable |
| AsWritten.RightSideDerivesEmptyAsWritten | src/grammer.cpp:364-371 | the scan as written agrees with the corrected one unless the right side holds the empty symbol, whose flag is read at index -1 |
| AsWritten.EmptySymbolReadsOutsideFlags | src/grammer.cpp:366 | A -> [empty, empty] derives empty, yet the scan as written reads outside the flags |
| AsWritten.StringFirstAsWritten | src/grammer.cpp:567-589 | agrees with FIRST of the string except for the empty symbol, which it takes from FIRST of the symbol numbered length - 1 |
| AsWritten.StringFirstAsWrittenIsWrong | src/grammer.cpp:583 | with A -> [empty] and its proved least FIRST sets, the empty symbol is missed for [A] and added for [0, 0] |
| AsWritten.StringFirstIgnoresLoopStop | src/grammer.cpp:576-585 | with S -> [empty], A -> [empty] and their proved least FIRST sets, for A 0 A S the tested symbol is the last one, yet the empty symbol is added though the loop stopped at 0 |
| AsWritten.FirstContributionAsWritten | src/grammer.cpp:527-551 | the FIRST step as written, with no break in the inner loop |
| AsWritten.FirstLoopPassesNonNullable | src/grammer.cpp:535-545 | on 4 -> [empty], 5 -> 1, 6 -> 4 0 5, with its proved least nullable flags and FIRST sets, the step as written for 6 -> 4 0 5 goes on past the terminator 0 and adds 1, which is not in FIRST(6) |
| AsWritten.FirstLoopSkipsNullableTail | src/grammer.cpp:535-550 | on 4 -> [empty], 5 -> 0, 5 -> [empty], 6 -> 4 5, with its proved least analyses, the step as written for 6 -> 4 5, the only production of 6, adds only the empty symbol and misses 0 of FIRST(6) |
| ArmAsmGenerator.Route | src/arm_asm_generator.cpp:47-193 | the plan answers only with a component it calls, calls no component twice, and calls one or two handlers or none |
| ArmAsmGenerator.RoutedExactlyWhenListed | src/arm_asm_generator.cpp:47-193 | a handler is called exactly when the sender's switch lists the event type; otherwise nothing is called and the default event is returned |
| ArmAsmGenerator.Response | src/arm_asm_generator.cpp:49-192 | the default event when no component answers; otherwise the answer of exactly the component the plan names, which is one it calls |
| ArmAsmGenerator.FuncDefineRouting | src/arm_asm_generator.cpp:88-91 | FUNC_DEFINE from the instruction generator calls the memory manager, then the register manager, and `notify` returns the default event |
| ArmAsmGenerator.PushFParamRouting | src/arm_asm_generator.cpp:105-108 | pushing formal-parameter registers calls the register manager, then the memory manager, and `notify` returns the register manager's answer |
| ArmAsmGenerator.ReturnRouting | src/arm_asm_generator.cpp:117-122 | the two returns, and ending a block without a flag, call the register manager, then the memory manager, and `notify` returns the memory manager's answer |
| ArmAsmGenerator.EndBasicBlockRouting | src/arm_asm_generator.cpp:181-184 | END_BASIC_BLOCK from the intermediate-code manager goes to the register manager, then the memory manager |
| ArmAsmGenerator.EndFuncRouting | src/arm_asm_generator.cpp:185-187 | END_FUNC goes only to the register manager |
| ArmAsmGenerator.StartRouting | src/arm_asm_generator.cpp:177-180 | START_FUNC and START_BASIC_BLOCK go only to the instruction generator |
| ArmAsmGenerator.InstructionBoundaryRouting | src/arm_asm_generator.cpp:145-147 | START/END_INSTRUCTION reach only the register manager, whether the generator, the memory manager or the register manager itself sends them; `notify` returns its answer unless it sent them itself, and then the default event |
| ArmAsmGenerator.UnlistedEventsAreDropped | src/arm_asm_generator.cpp:123-124 | an unknown sender, or an event its switch does not list, calls nothing and yields the default event |
| ArmAsmGenerator.Init | src/arm_asm_generator.cpp:204-256 | init passes exactly the register table and the cpsr flag register below: 48 registers, cpsr with as many flags as it counts, and the memory description "little_ending" |
| ArmAsmGenerator.RegisterTableLayout | src/arm_asm_generator.cpp:205-254 | each entry has its position as its number; r0-r15 are CPU and s0-s31 VFP; roles are as listed; all are 32 bits and unused; only sp and pc are not general purpose |
| ArmAsmGenerator.RegisterNumbersDistinct | src/arm_asm_generator.cpp:205-254 | no two entries share a register number |
| ArmAsmGenerator.RegisterRoles | src/arm_asm_generator.cpp:205-254 | the argument registers are exactly r0-r3 and s0-s15, the temporaries exactly r4-r12 and s16-s31 |
| ArmAsmGenerator.FlagRegisterHasFourFlags | src/arm_asm_generator.cpp:255 | cpsr carries exactly N, Z, C and V, each once |

## Left out

- Reading the grammar file, tokenising lines, and the semantic-rule callback maps of the `Grammer` constructor (src/grammer.cpp:55-261). These are file I/O and foreign function pointers. The model takes the parsed productions and rules as constructor inputs; `Unparsed` stands for the early returns.
- The early return when the grammar file cannot be opened (src/grammer.cpp:69-73) happens before the symbol counters are set, so what `is_init_success` then reports depends on uninitialised memory; `Unparsed` models the early returns after that point (src/grammer.cpp:94, 116, 129, 142 and 156).
- Productions with an empty right side. The parser can produce one: when the previous line ended with a grammar symbol (so `is_semantic_rule` is false) and the two-space branch at src/grammer.cpp:149 is taken right after `->`, and the action is the last item (line 171), nothing is added to the right side and line 260 pushes the production. `get_all_firsts` then reads `right[0]` of the empty vector at lines 503 and 527, outside the vector. The constructor's `WellFormed` precondition excludes such productions, so the model does not describe what the program does on them.
- The destructor, and the `first`/`follow` accessors, which return pointers into the arrays.
- Grammer.NameGenerator.Next: the C++ counter is a 32-bit static `int`. Its overflow after 2^31 names is not modelled; the counter is a `nat`.
- All `to_string` renderers of the instruction classes: their bodies are not part of this model.
- The VFP register transfer class. One of its constructors takes a `float` immediate, which is floating point. The VFP multiple-register load/store class is also left out; it mirrors the CPU one.
- The VFP single-register load/store class (include/arm_asm.h:985-1029), which mirrors the CPU single-register one.
- C++ union aliasing and `malloc`/`free`. Unions are tagged variants; the analysis arrays are Dafny arrays.
- The handlers of the four mediator components. Each is a call into code that is not part of this model. `Route` says which handlers run, in order, and `Response` says whose answer comes back. The events a handler may raise in turn are not followed.
- The `event_type` enumeration and the register struct come from a header that is not part of this model:
  - the event names are the ones `notify` uses;
  - the register description's fourth field is named `general` here. It is false only for sp and pc.
- `Arm_asm_generator::init` returns the result of the generic `Asm_generator::init`, whose body is not part of this model. `Init` gives only the arguments it passes. The registers form a C++ `set`, which the model keeps as a sequence in listing order; `RegisterNumbersDistinct` shows that no two entries share a number.

## Findings

| source | as written | input that shows it | evidently intended | confidence | as-written member | corrected member |
|---|---|---|---|---|---|---|
| src/grammer.cpp:391 | `derive_empty` reads the nullable flag at the symbol number itself | T = 2 with S -> A, A -> S, B -> [empty]: S (number 2) reads B's flag and is reported as deriving empty | read the flag at symbol - T | high, not executed | AsWritten.DeriveEmptyAsWrittenIsWrong | Grammer.Grammer.DeriveEmpty |
| src/grammer.cpp:366 | the nullable scan reads the flag at symbol - T for the empty symbol too, which is index -1 | A -> [empty, empty]: the scan reads outside the flag array | treat the empty symbol as deriving empty | medium, not executed | AsWritten.EmptySymbolReadsOutsideFlags | Grammer.Grammer.RightSideDerivesEmpty |
| src/grammer.cpp:583 | `string_first` decides the empty symbol from FIRST of the symbol numbered length - 1 | A -> [empty] with T = 2: for [A] the empty symbol is missed, for [0, 0] it is added | add the empty symbol when the loop reached the last symbol of the string and FIRST of that last symbol holds it | high, not executed | AsWritten.StringFirstAsWrittenIsWrong | Grammer.Grammer.StringFirst |
| src/grammer.cpp:583 | the same test ignores where the loop stopped | T = 3 with S -> [empty], A -> [empty]: for A 0 A S the tested symbol is S, the last symbol, yet the empty symbol is added though the loop stopped at 0 | add the empty symbol only when the loop reached the last symbol (`i == string_length - 1`) and FIRST of that last symbol holds it | high, not executed | AsWritten.StringFirstIgnoresLoopStop | Grammer.Grammer.StringFirst |
| src/grammer.cpp:535-550 | the FIRST inner loop has no break after the first symbol that does not derive empty, and adds nothing when every symbol derives empty | 4 0 5 takes FIRST of 5 past the terminator 0; 4 5 with both nullable never takes FIRST of 5 | stop at the first non-nullable symbol, and add FIRST of every symbol when all derive empty | high, not executed | AsWritten.FirstLoopPassesNonNullable | Grammer.Grammer.ComputeFirsts |
| include/arm_asm.h:200-220 | `is_legal_immed_8r` tries all 32 rotations, odd ones included | 0x1FE is accepted, though no data-processing immediate encodes it | try only the 16 even rotations of section A5.2.4 of the ARMv7-A/R Architecture Reference Manual | medium, not executed | ArmAsm.OddRotationIsNotEncodable | ArmAsm.IsEncodableImmed8r |

The second input of the src/grammer.cpp:535-550 row is shown by `AsWritten.FirstLoopSkipsNullableTail`.

The slip at line 391 reaches the other two analyses: `get_all_firsts` asks `derive_empty` at lines 532 and 537, and `get_all_follows` asks `string_derive_empty`, which calls `derive_empty` for every symbol, at line 631. As the program computes them, FIRST and FOLLOW therefore read the nullable flag at the raw symbol number, or past the end of the array. `StringDeriveEmpty`, `ComputeFirsts` and `ComputeFollows` use the corrected query.

The two slips at line 583 do not affect FOLLOW for suffixes of at most N symbols, N the symbol count: `get_all_follows` removes the empty symbol from what `string_first` returns, and the rest agrees with the corrected function. For a longer suffix, `first(string_length-1)` reads past the end of `firsts_`, where `AsWritten.StringFirstAsWritten` is None.

The model keeps `is_legal_immed_8r` as the program computes it. The corrected check is proved alongside it.
