# Verified model of the llvmruby compilers

llvmruby binds LLVM to Ruby and builds three things on top of the bindings: a compiler from Ruby 1.9 stack bytecode to
LLVM functions (`lib/ruby_vm.rb`), a typed compiler for S-expressions (`lib/rcompiler.rb`), and a few functions that walk
over Ruby arrays (`lib/ruby_calls.rb`). This project models all three, together with the code they generate and machines
that run that code, and proves that the generated code means what its source means.

`dafny verify dfyconfig.toml` checks everything, with no further options. Lemmas carry `{:induction false}` wherever Dafny
would otherwise add an induction of its own: every induction is one that is written out.

## How the model is laid out

**The target.** `Machine.dfy` has the intermediate representation (blocks of numbered instructions, the identity of an
instruction being the register it defines) and a machine for it: registers, alloca'd objects, and a world that holds the
interpreter's arrays and a log of all calls made to the interpreter. The interpreter is an arbitrary function of a call
and of everything that happened before it. Anything the model gives no meaning to (a missing register, an access outside
an object, a value of the wrong type) makes the machine stop as `Wrong`. `Words.dfy` has fixed-width arithmetic; the
width of a machine word is a constant that is 32 or 64 and otherwise unspecified, so every theorem holds for both.
`WordFacts.dfy` says in bits what that arithmetic is.

**The bytecode compiler.** `StackMachine.dfy` is the source language with the meaning that the compiler gives it: only
the word 0 is false, `newhash` and `setinstancevariable` leave their operands, `send` pops nothing. `Builder.dfy` and
`Compiler.dfy` are the compiler as it works: a builder with a movable insertion point, class variables that every
`set_globals` overwrites, and a method for each opcode, all of them updating fields in place. `Emission.dfy` and
`Codegen.dfy` say as functions which instructions come out; each method is proved to emit exactly those. What the
instructions do is then proved bottom up: the helpers on Ruby values (`ValueCode.dfy`), the operand stack
(`StackCode.dfy`, `StackRefinement.dfy`), each instruction (`InsnCode.dfy`), the loop of `newhash` (`HashCode.dfy`,
`HashFacts.dfy`), whole programs (`Simulation.dfy`). `MemoryMachine.dfy` is a second source machine whose state is the
whole memory, and which therefore gives every bytecode a meaning, hashes of odd counts included. `WellFormedness.dfy`
is about control flow and dominance, `Typing.dfy` about the types of the generated instructions, `Safety.dfy` about
what these static conditions rule out in every run, `Sequences.dfy` about many compilations in one module,
`StackDiscipline.dfy` about stack depth, `Fixnums.dfy` and `Guards.dfy` about tagged numbers and the branches taken on
them. `Opcodes.dfy` states what the compiled block of each opcode does to the three memory objects of the function, in
plain values and without any function of the source language's meaning: it is the specification against which that
meaning and the emitted code are both held. `ArrayLoop.dfy` and `SimpleLoop.dfy` are about two complete programs.

**The array functions.** `LoopFunctions.dfy` runs any function of the shape that `add1` and `reverse` share: entry test, one
loop block with a phi, exit. `ArrayCalls.dfy` proves what the two compute, `ArrayCallsBuild.dfy` how they are built.

**The S-expression compiler.** `Sexpr.dfy` has the nested lists, the language they spell, its typing and its direct
evaluation; `TextIR.dfy` the typed straight-line code and its machine; `SexprCodegen.dfy` the code that comes out and its
types; `SexprShapes.dfy` which trees have a value; `SexprMethods.dfy` and `SexprSimulation.dfy` the meaning of the code;
`SexprSession.dfy` what becomes of several trees compiled one after the other; `SexprCompiler.dfy` the compiler with its
table of variables, its method tables and its loops over argument lists. `SexprSpelling.dfy` is the way back from trees to
lists, `Texts.dfy` reads decimal numbers and says what C makes of a string and printf of a format, and `SexprScripts.dfy`
goes from whole scripts, as lists, to the text that the compiled `main` prints.

## Results that do not go the obvious way

* A hash literal with an odd count pairs its last key with a cell above the top of the stack, left there by an earlier
  push. `HashFacts.OddCountsReadStale` gives the exact condition under which the result depends on the stack alone, and
  `HashFacts.OddHashShowsDropped`, for each such count, two programs that reach the newhash with equal stacks and log
  different calls; the stack machine gives odd counts no meaning, and `HashFacts.NewHashPairs`,
  `StackDiscipline.CompiledDepth` and `MemoryMachine.SimulatesMemory` say what the code does for them all the same.
* `fix2int` drops the sign. Addition, subtraction and multiplication come out right all the same; comparisons come out
  right exactly for two numbers of the same sign, and inverted otherwise (`Fixnums.ComparisonsBySign`).
* The array loop of the test suite reads an element before it tests the length: it returns exactly for non-empty arrays
  (`ArrayLoop.ReturnsIffNonEmpty`).
* The S-expression compiler accepts trees whose code goes wrong when it runs: `to_s` never sets the length of the string
  it makes (`SexprShapes.LengthOfNumberFails`), `puts` hands its text to printf as the format
  (`SexprShapes.DirectiveFails`), and the sum of strings is declared and has no body (`SexprShapes.ConcatenationFails`).
  `SexprShapes.ShapelyExact` is the exact condition, on the tree alone, under which none of this happens, and by
  `SexprShapes.CheckedStops` these three calls are all that can stop a tree that checks.
* `compile` always works on the one function `main` and on one table of variables. A second call adds a second block to
  `main`, whose instructions can use the cells of the first, and fits its types exactly when the tree checks in the scope
  that the earlier trees left (`SexprSession.LaterFitsIffChecks`); but nothing leads to that block, so `main` does what
  the first tree says and no more (`SexprSession.SessionRuns`).

## Model

| member | source | states |
|---|---|---|
| Building.Builder.SetGlobals | lib/ruby_vm.rb:29-34 | emits the three allocas and the store of the stack base, and leaves the new handles in the shared class variables |
| Building.Builder.Push | lib/ruby_vm.rb:44-49 | appends exactly the push code at the insertion point |
| Building.Builder.Pop | lib/ruby_vm.rb:51-56 | appends exactly the pop code; its result is the register of the value read |
| Building.Builder.Peek | lib/ruby_vm.rb:58-62 | appends exactly the peek code for any depth |
| Building.Builder.TopN | lib/ruby_vm.rb:64-69 | appends the 32-bit index computation and the load |
| Building.Builder.Num2Fix | lib/llvm.rb:108-111 | appends shift and flag |
| Building.Builder.Fix2Int | lib/llvm.rb:113-116 | appends the unused xor and the logical shift |
| Building.Builder.ALen | lib/llvm.rb:124-128 | appends the load of the length field |
| Building.Builder.ARef | lib/llvm.rb:130-136 | appends the load of an element |
| Building.Builder.ASet | lib/llvm.rb:138-144 | appends the store of an element |
| Building.Builder.AddIncoming | ext/llvm_basicblock.cpp:71-80 | adds an edge to a phi of any block of the function and changes nothing else, whatever was emitted in between |
| ValueCode.Fix2IntRuns | lib/llvm.rb:113-116 | running the code of fix2int yields the payload of a word, and touches neither memory nor world |
| ValueCode.Num2FixRuns | lib/llvm.rb:108-111 | running the code of num2fix yields the tag of a word: the shift and the xor are 2n + 1 modulo the word |
| ValueCode.ALenRuns | lib/llvm.rb:124-128 | running the code of alen yields the tagless length, and goes wrong exactly when there is no such array |
| ValueCode.ARefRuns | lib/llvm.rb:130-136 | running the code of aref yields the element, and goes wrong exactly outside the array |
| ValueCode.ASetRuns | lib/llvm.rb:138-144 | running the code of aset replaces one element of one array, and goes wrong exactly outside the array |
| ValueCode.ValueCallRuns | lib/llvm.rb:101-145 | every helper on values does what it means and keeps the registers before it |
| WordFacts.ModulusIsPower | ext/llvm_value.cpp:183-190 | an integer type of b bits has 2^b values, for the widths 1, 8, 32 and 64 |
| WordFacts.Readings | ext/llvm_value.cpp:183-190 | the unsigned and the two's complement reading of a number lie in the ranges of their type and differ from it by a multiple of 2^b |
| WordFacts.Orders | lib/ruby_vm.rb:172-203 | the signed comparisons of the machine are those of the integers on the signed range of a type, the unsigned ones those on the unsigned range |
| WordFacts.BitwiseOps | lib/llvm.rb:104-116 | xor and and, bit by bit |
| StackCode.PushRuns | lib/ruby_vm.rb:44-49 | push stores above the top and moves the pointer cell up; it goes wrong exactly on a full stack |
| StackCode.PopRuns | lib/ruby_vm.rb:51-56 | pop moves the pointer cell down and yields the value that was on top; it goes wrong exactly on an empty stack |
| StackCode.PeekRuns | lib/ruby_vm.rb:58-62 | peek yields the n-th cell below the pointer and changes nothing |
| StackCode.TopNRuns | lib/ruby_vm.rb:64-69 | topn yields the cell at -1 - n from the pointer, in 32-bit arithmetic |
| StackCode.CallsRun | lib/ruby_vm.rb:44-69 | the code of any list of helper calls does what the calls mean in order, each using the results of earlier ones |
| StackRefinement.StackRefinesSequence | lib/ruby_vm.rb:44-69 | under any interleaving of push, pop, peek, topn and local accesses within bounds, the emitted code keeps the cells below the pointer equal to an abstract sequence, and the locals apart from it |
| StackRefinement.TopNIsPeek | lib/ruby_vm.rb:58-69 | topn(n) reads what peek(n + 1) reads |
| Emission.CallsScoped | lib/ruby_vm.rb:87-258 | no opcode uses a result before it exists |
| WellFormedness.NothingMissing | lib/ruby_vm.rb:302-351 | hence no instruction of a compiled function has an operand that stands for a result that no helper has returned |
| InsnCode.StraightAgrees | lib/ruby_vm.rb:87-258 | the helper calls of every opcode without blocks of its own do to memory what the stack machine does to its stack, and go wrong exactly when it fails |
| InsnCode.TestMeans | lib/ruby_vm.rb:329-336 | the test of a conditional branch pops a word and asks whether it is 0 |
| HashCode.TurnRuns | lib/ruby_vm.rb:235-246 | one run of the loop block: reads a key and the cell after it, makes one call, decides whether to go on |
| HashCode.LoopRuns | lib/ruby_vm.rb:235-246 | the loop ends after (count + 1) / 2 turns, for every count that its cells allow, and goes wrong for every other |
| HashCode.PairsInOrder | lib/ruby_vm.rb:222-250 | for an even count, the calls are those of the stack machine: keys with the values pushed after them, in push order |
| HashFacts.NewHashPairs | lib/ruby_vm.rb:222-250 | in the compiled function, for any count up to the depth: one rb_hash_new, then exactly one rb_hash_aset for each pair in push order, operands left in place, the hash on top |
| HashFacts.OddCountsReadStale | lib/ruby_vm.rb:241-243 | the outcome of newhash depends on the stack alone if and only if the count is even, not positive, or larger than any stack |
| HashFacts.OddHashShowsDropped | lib/ruby_vm.rb:241-243 | for every odd count that a stack can hold, two programs that differ only in a word that they push and pop reach the newhash with the same stack, locals and world, and past it the last call has set a key to that word |
| Simulation.HashRuns | lib/ruby_vm.rb:222-250 | newhash from its first block to the block of the next instruction, all four blocks |
| Simulation.TestRuns | lib/ruby_vm.rb:329-336 | a conditional branch goes to the one block or the other by the word popped |
| Simulation.EntryRuns | lib/ruby_vm.rb:308-316 | the entry block leaves the argument as the only value on the stack and goes to the first block |
| Simulation.ExitRuns | lib/ruby_vm.rb:346-348 | the exit block returns the top of the stack |
| Simulation.OneStep | lib/ruby_vm.rb:320-344 | a step of the stack machine is one or more blocks of the compiled function, from matching states to matching states |
| Simulation.Simulates | lib/ruby_vm.rb:302-351 | compiler correctness, for every bytecode: after any number of steps that the stack machine survives, the compiled function stands at the same instruction with the same stack, locals, arrays and log of calls, or has finished with the same value; without odd hash counts it also fails whenever the stack machine does |
| Simulation.ReturnsToo | lib/ruby_vm.rb:302-351 | whenever the stack machine returns, the compiled function returns the same value after the same calls, for every bytecode |
| Simulation.SameReturns | lib/ruby_vm.rb:302-351 | without odd hash counts, the compiled function returns a value in a world if and only if the stack machine does |
| Simulation.SameFailures | lib/ruby_vm.rb:302-351 | without odd hash counts, the compiled function goes wrong at some point if and only if the stack machine fails at some point |
| MemoryMachine.SimulatesMemory | lib/ruby_vm.rb:302-351 | compiler correctness on memory, for every bytecode and with no condition on hashes: after any number of steps of the memory machine the compiled function stands at the same instruction with the same cells, stack pointer, locals, arrays and log of calls, or has finished with the same value, or has gone wrong as the memory machine has |
| MemoryMachine.SameReturnsOnMemory | lib/ruby_vm.rb:302-351 | for every bytecode, the compiled function returns a value in a world if and only if the memory machine does |
| MemoryMachine.SameFailuresOnMemory | lib/ruby_vm.rb:302-351 | for every bytecode, it goes wrong at some point if and only if the memory machine fails at some point |
| MemoryMachine.MemoryRefinesStack | lib/ruby_vm.rb:87-258 | every run of the stack machine that has not failed, and without odd hash counts every run, is what the run of the memory machine looks like from the top of the stack down |
| WellFormedness.CompiledIsCfg | lib/ruby_vm.rb:308-348 | every block, those of any number of newhash included, ends in its only terminator, every successor is a block of the function, and none is the entry block |
| WellFormedness.CompiledDefinesOnce | lib/ruby_vm.rb:302-351 | no register is defined twice |
| WellFormedness.MainDominates | lib/ruby_vm.rb:222-250 | the block of a newhash dominates the three blocks that it adds |
| WellFormedness.CompiledIsSsa | lib/ruby_vm.rb:302-351 | every use is dominated by its definition, every phi operand is available at the end of its edge, and every phi stands first in its block and lists each predecessor of the block once and nothing else |
| Typing.InsnTyped | lib/ruby_vm.rb:87-258 | the helper calls of every opcode get operands of the types they need, each from the results of earlier ones |
| Typing.CompiledIsTyped | lib/ruby_vm.rb:302-351 | the registers of a compiled function can be given types that every instruction of every block fits: one width for both operands, pointers to what is stored and loaded, the declared parameters of the interpreter's functions, agreeing edges of a phi, branches on a bit, a VALUE returned |
| Safety.StepSound | lib/ruby_vm.rb:302-351 | an instruction that fits its types, in a state whose registers and cells hold values of their types, leaves such a state, leaves for one of its targets or returns a VALUE; or it is stuck on an operand never initialised or an address out of bounds, and for no other reason |
| Safety.NothingUnread | lib/ruby_vm.rb:302-351 | in a function in static single assignment form, every register that an instruction reads has been defined when control gets there, on whatever path; so has the operand of a phi for the edge that was taken |
| Safety.RunSound | lib/ruby_vm.rb:302-351 | so it is for every run of any function that satisfies the static conditions: control moves along a path of its graph, and a run that goes wrong does so at an instruction with such a reason |
| Safety.CompiledIsSafe | lib/ruby_vm.rb:302-351 | and so for every run of every compiled function on two words, odd hashes included: no missing register and no mixed-up types, ever |
| WellFormedness.FunctionsApart | lib/ruby_vm.rb:29-42 | in any sequence of compilations, those that raise included, every operand of a function, those of phis included, is defined in that function and in no other, earlier or later |
| Sequences.CompileSequence | lib/ruby_vm.rb:302-351 | one compiler put to any list of bytecodes: exactly the valid ones give a function, each of which at the end still has the blocks of its own bytecode, and no two of which share a register |
| StackDiscipline.EffectDepth | lib/ruby_vm.rb:87-258 | with the values it needs and room for its result, an instruction fails exactly on a fault that is not about depth, and changes the depth as declared |
| StackDiscipline.RunDepth | lib/ruby_vm.rb:320-344 | if the stack effects admit a depth for every instruction, every state of every run has it |
| StackDiscipline.OnlyFaults | lib/ruby_vm.rb:320-344 | then no run fails for want of values or of room |
| StackDiscipline.CompiledDepth | lib/ruby_vm.rb:302-351 | then, after any number of blocks of any run of the compiled function, the stack-pointer cell is at exactly the depth of the instruction to whose code the current block belongs, the blocks of a newhash of any count included, within the 100 cells; and the function goes wrong only after it has met a fault of an operand |
| StackDiscipline.WrongIffFault | lib/ruby_vm.rb:302-351 | the compiled function has gone wrong if and only if it has met such a fault |
| Compiler.OpCodeBuilder.PutNil | lib/ruby_vm.rb:90-92 | appends at the insertion point exactly the helper calls of `putnil`, the list to which `InsnCode.StraightAgrees` gives its meaning |
| Compiler.OpCodeBuilder.PutSelf | lib/ruby_vm.rb:94-96 | appends at the insertion point exactly the helper calls of `putself`, the list to which `InsnCode.StraightAgrees` gives its meaning |
| Compiler.OpCodeBuilder.PutObject | lib/ruby_vm.rb:98-100 | appends at the insertion point exactly the helper calls of `putobject`, the list to which `InsnCode.StraightAgrees` gives its meaning |
| Compiler.OpCodeBuilder.Pop | lib/ruby_vm.rb:102-104 | appends at the insertion point exactly the helper calls of `pop`, the list to which `InsnCode.StraightAgrees` gives its meaning |
| Compiler.OpCodeBuilder.Dup | lib/ruby_vm.rb:106-108 | appends at the insertion point exactly the helper calls of `dup`, the list to which `InsnCode.StraightAgrees` gives its meaning |
| Compiler.OpCodeBuilder.Swap | lib/ruby_vm.rb:110-115 | appends at the insertion point exactly the helper calls of `swap`, the list to which `InsnCode.StraightAgrees` gives its meaning |
| Compiler.OpCodeBuilder.SetLocal | lib/ruby_vm.rb:117-121 | appends at the insertion point exactly the helper calls of `setlocal`, the list to which `InsnCode.StraightAgrees` gives its meaning |
| Compiler.OpCodeBuilder.GetLocal | lib/ruby_vm.rb:123-127 | appends at the insertion point exactly the helper calls of `getlocal`, the list to which `InsnCode.StraightAgrees` gives its meaning |
| Compiler.OpCodeBuilder.OptPlus | lib/ruby_vm.rb:129-134 | appends at the insertion point exactly the helper calls of `opt_plus`, the list to which `InsnCode.StraightAgrees` gives its meaning |
| Compiler.OpCodeBuilder.OptMinus | lib/ruby_vm.rb:136-141 | appends at the insertion point exactly the helper calls of `opt_minus`, operands exchanged, the list to which `InsnCode.StraightAgrees` gives its meaning |
| Compiler.OpCodeBuilder.OptMult | lib/ruby_vm.rb:143-148 | appends at the insertion point exactly the helper calls of `opt_mult`, the list to which `InsnCode.StraightAgrees` gives its meaning |
| Compiler.OpCodeBuilder.OptAref | lib/ruby_vm.rb:150-155 | appends at the insertion point exactly the helper calls of `opt_aref`, the list to which `InsnCode.StraightAgrees` gives its meaning |
| Compiler.OpCodeBuilder.OptAset | lib/ruby_vm.rb:157-163 | appends at the insertion point exactly the helper calls of `opt_aset`, the list to which `InsnCode.StraightAgrees` gives its meaning |
| Compiler.OpCodeBuilder.OptLength | lib/ruby_vm.rb:165-170 | appends at the insertion point exactly the helper calls of `opt_length`, the list to which `InsnCode.StraightAgrees` gives its meaning |
| Compiler.OpCodeBuilder.OptLt | lib/ruby_vm.rb:172-181 | appends at the insertion point exactly the helper calls of `opt_lt`, the list to which `InsnCode.StraightAgrees` gives its meaning |
| Compiler.OpCodeBuilder.OptGt | lib/ruby_vm.rb:183-192 | appends at the insertion point exactly the helper calls of `opt_gt`, the list to which `InsnCode.StraightAgrees` gives its meaning |
| Compiler.OpCodeBuilder.OptGe | lib/ruby_vm.rb:194-203 | appends at the insertion point exactly the helper calls of `opt_ge`, the list to which `InsnCode.StraightAgrees` gives its meaning |
| Compiler.OpCodeBuilder.GetIvar | lib/ruby_vm.rb:205-209 | appends at the insertion point exactly the helper calls of `getinstancevariable`, the list to which `InsnCode.StraightAgrees` gives its meaning |
| Compiler.OpCodeBuilder.SetIvar | lib/ruby_vm.rb:211-215 | appends at the insertion point exactly the helper calls of `setinstancevariable`, with a peek and no pop, the list to which `InsnCode.StraightAgrees` gives its meaning |
| Compiler.OpCodeBuilder.NewArray | lib/ruby_vm.rb:217-220 | appends at the insertion point exactly the helper calls of `newarray`, the list to which `InsnCode.StraightAgrees` gives its meaning |
| Compiler.OpCodeBuilder.NewHash | lib/ruby_vm.rb:222-250 | emits the four pieces of the loop into the current block and three new ones, and leaves the builder in the last of them |
| Compiler.OpCodeBuilder.Send | lib/ruby_vm.rb:252-258 | appends at the insertion point exactly the helper calls of `send`, with no pop, the list to which `InsnCode.StraightAgrees` gives its meaning |
| Compiler.RubyVM.BuildTest | lib/ruby_vm.rb:329-336 | emits pop, comparison with 0 and the branch |
| Compiler.RubyVM.BuildInsn | lib/ruby_vm.rb:320-344 | emits one instruction into its block and leaves every other block alone |
| Compiler.RubyVM.BuildEntry | lib/ruby_vm.rb:308-316 | emits the entry block and creates one block for each instruction and one for the exit |
| Compiler.RubyVM.BuildExit | lib/ruby_vm.rb:346-348 | emits the exit block |
| Compiler.RubyVM.CompileBytecode | lib/ruby_vm.rb:302-351 | compiles exactly the bytecodes whose jumps and operands are valid, into a fresh function whose blocks are those of the specification; earlier functions are unchanged |
| Fixnums.UntagTag | lib/llvm.rb:113-116 | untagging yields the residue of a number modulo half the word, not the number |
| Fixnums.NumberOfTag | lib/llvm.rb:108-111 | a tagged word reads back as the number in two's complement, one bit narrower than a word |
| Fixnums.FixnumRange | ext/llvm_value.cpp:183-190 | the fixnums are the numbers in [-2^62, 2^62) on a 64-bit word and in [-2^30, 2^30) on a 32-bit one |
| Fixnums.TagIs | lib/llvm.rb:108-111 | the word of n is 2n + 1 modulo 2 to the width of the word, and for a fixnum it reads back as n |
| Fixnums.WrapCongruent | lib/llvm.rb:108-116 | the reduction of a result is the one fixnum that differs from it by a multiple of 2^63 or 2^31 |
| Fixnums.ArithmeticWraps | lib/ruby_vm.rb:129-148 | opt_plus, opt_minus and opt_mult of any two numbers push the tag of the result reduced to one bit less than a word, signs included |
| Fixnums.ArithmeticExact | lib/ruby_vm.rb:129-148 | the word pushed reads back as the exact sum, difference or product if and only if that lies in [-2^62, 2^62) on a 64-bit word, in [-2^30, 2^30) on a 32-bit one |
| Fixnums.ComparesResidues | lib/ruby_vm.rb:172-203 | comparisons go by residues |
| Fixnums.ComparisonsBySign | lib/ruby_vm.rb:172-203 | a comparison gives the order of the integers if and only if the signs agree, and the opposite if and only if they differ |
| Fixnums.GeComplementsLt | lib/ruby_vm.rb:172-203 | one of opt_lt and opt_ge pushes the word 2, the other the word 0 |
| Fixnums.FixnumTest | lib/llvm.rb:104-106 | fixnum? yields 1 exactly for the words that are tags |
| Fixnums.GuardsDecide | lib/ruby_vm.rb:329-336 | a comparison and a branch consume both operands and jump exactly when the numbers compare, for numbers of one sign |
| Guards.GuardRuns | lib/ruby_vm.rb:320-344 | in the compiled function, exactly two blocks after a comparison and a branch begin, both operands are gone, nothing else has changed, and control is where the residues send it: where the numbers do if their signs agree, and the other way if they differ |
| Opcodes.EntryGoes | lib/ruby_vm.rb:308-316 | after the entry block the second argument is alone on the stack and control is at the first instruction |
| Opcodes.ExitGoes | lib/ruby_vm.rb:346-348 | the exit block returns the top value, and goes wrong exactly when there is none |
| Opcodes.PutRuns | lib/ruby_vm.rb:90-100 | putnil, putself, putobject and getlocal push their one value in one block, and go wrong exactly on 100 values |
| Opcodes.TopRuns | lib/ruby_vm.rb:102-108 | pop removes the top value, dup doubles it unless 100 are there, nop does nothing |
| Opcodes.SwapRuns | lib/ruby_vm.rb:110-115 | the two top values change places |
| Opcodes.SlotRuns | lib/ruby_vm.rb:117-127 | setlocal moves the top value into its slot and no other; a slot outside the hundred goes wrong |
| Opcodes.UnderflowRuns | lib/ruby_vm.rb:51-62 | an opcode that finds fewer values than it needs fails, and its block goes wrong |
| Opcodes.ArithRuns | lib/ruby_vm.rb:129-148 | the words of a and b make way for the word of a + b, a - b or a * b |
| Opcodes.OrderRuns | lib/ruby_vm.rb:172-203 | for two fixnums a and b, opt_lt, opt_gt and opt_ge leave the word 2 or 0 by the order of a and b if their signs agree, and the other word if they differ |
| Opcodes.ReadRuns | lib/ruby_vm.rb:150-155 | opt_aref leaves the element at the untagged index, and goes wrong exactly outside the array |
| Opcodes.WriteRuns | lib/ruby_vm.rb:157-163 | opt_aset makes one call, of rb_ary_store with array, untagged index and value in that order, and leaves the value |
| Opcodes.LengthRuns | lib/ruby_vm.rb:165-170 | opt_length leaves the word of the length, and goes wrong exactly on a word that is no array |
| Opcodes.AskRuns | lib/ruby_vm.rb:205-258 | getinstancevariable, newarray and send make exactly their calls, with these arguments, and push the last answer on what is there |
| Opcodes.IvarRuns | lib/ruby_vm.rb:211-215 | setinstancevariable stores the top value in self under the name, and leaves it where it is |
| Opcodes.JumpGoes | lib/ruby_vm.rb:327-328 | a jump to a >= 0 goes to instruction a, or to the exit for the length of the bytecode; to a < 0, to position length + 1 + a; in the stack machine and in the compiled function, with the stack as it was |
| Opcodes.BranchGoes | lib/ruby_vm.rb:329-336 | branchif pops a word and goes where a jump would exactly when it is not 0, branchunless exactly when it is 0, and otherwise to the next instruction; in both machines |
| Opcodes.WhichCompile | lib/ruby_vm.rb:318-344 | a bytecode compiles if and only if every jump target a has -(n + 1) <= a <= n, and every slot and every count is a 32-bit number; hashes are paired if and only if no count is odd and positive |
| ArrayLoop.CompiledDoubles | test/test_ruby_vm.rb:109-138 | the compiled array loop returns the array it was given with every element doubled in place and no other array changed; a double that is a fixnum reads back exactly |
| ArrayLoop.ReturnsIffNonEmpty | test/test_ruby_vm.rb:109-138 | it returns if and only if the array has an element |
| SimpleLoop.CompiledCounts | test/test_ruby_vm.rb:95-107 | the compiled loop, for every fixnum x: it branches back to its first instruction until it has counted to 10, and returns 10, if 0 <= x + 1 < 10; for every other x it returns x + 1 at once, which for the greatest fixnum is the least one |
| SimpleLoop.CountDepth | test/test_ruby_vm.rb:95-107 | its stack depths 1, 2, 1, 2, 3, 2 and 1 agree on all ways, so `StackDiscipline.CompiledDepth` applies to it |
| LoopFunctions.ValuesRun | lib/ruby_calls.rb:79-92 | the code of any list of helper calls on values does what the calls mean |
| LoopFunctions.TurnRuns | lib/ruby_calls.rb:84-93 | one run of a loop block, entered from the entry or from itself |
| LoopFunctions.PlanRuns | lib/ruby_calls.rb:70-97 | a chain of worlds that single turns lead through is what the whole function does, in exactly that many turns, and it returns the array |
| LoopFunctions.SkipRuns | lib/ruby_calls.rb:79-82 | an empty array skips the loop, and nothing happens |
| ArrayCalls.Add1Turn | lib/ruby_calls.rb:84-93 | turn i replaces element i by the tag of its successor and goes on exactly when i + 1 is below the length |
| ArrayCalls.Add1Adds | lib/ruby_calls.rb:70-97 | add1 replaces every tagged number n by the word 2(n + 1) + 1, in place, for every length, and returns the array; no other array changes and the interpreter is not called |
| ArrayCalls.Add1VisitsInOrder | lib/ruby_calls.rb:84-93 | it enters the loop block once for each index, in order |
| ArrayCalls.ReverseTurn | lib/ruby_calls.rb:118-133 | turn i swaps element i with its mirror image |
| ArrayCalls.ReverseReverses | lib/ruby_calls.rb:102-137 | reverse leaves the array exactly reversed for every length, 0 and 1 included, and nothing else changed, within bounds, in exactly length / 2 turns, one turn for a single element |
| ArrayCalls.ReverseTwice | lib/ruby_calls.rb:102-137 | running it twice restores the world |
| ArrayCalls.Reversed | lib/ruby_calls.rb:124-130 | the reversal of a sequence, element by element |
| ArrayCallsBuild.BuildAdd1 | lib/ruby_calls.rb:70-97 | the script builds exactly the blocks that `ArrayCalls.Add1Adds` runs |
| ArrayCallsBuild.BuildReverse | lib/ruby_calls.rb:102-137 | the script builds exactly the blocks that `ArrayCalls.ReverseReverses` runs |
| SexprCodegen.GenTyped | lib/rcompiler.rb:145-207 | for every tree that checks, compilation does not raise, every instruction fits the declared types, every object carries the table of the class of its value, and every variable has one cell of its own of the right type |
| SexprCodegen.FitsIffChecks | lib/rcompiler.rb:145-207 | for every tree and any table of typed variables: the compiler does not raise and the instructions fit their types, if and only if the tree checks |
| SexprCodegen.StoreTyped | lib/rcompiler.rb:182-195 | a store fits its cell, old or new, and distinct names keep distinct cells |
| SexprCodegen.CallTyped | lib/rcompiler.rb:157-160 | an emitted call matches the signature of the method exactly when every argument passes for the class that the method wants |
| SexprCodegen.BodiesFit | lib/rcompiler.rb:57-140 | every function that has a body returns its declared type |
| SexprSpelling.DecodeSpell | lib/rcompiler.rb:145-207 | a tree written as a list says that tree if and only if all its numbers have 32 bits; for every tag in front of an argument list, every head of a group, and with or without empty argument lists |
| SexprSpelling.WhatIsBad | lib/rcompiler.rb:145-207 | exactly these raise at once: what is no list, a str without a text, a lit without a number of 32 bits |
| SexprSpelling.CallSays | lib/rcompiler.rb:148-156 | a call with an argument list: its receiver, its selector, and every item of that list after the first as an argument, lists or not |
| SexprSpelling.CallWithoutList | lib/rcompiler.rb:148-152 | a call without one has no arguments; anything else in its place raises once the receiver is compiled |
| SexprSpelling.VariablesSay | lib/rcompiler.rb:182-202 | an assignment and a variable have the name and the right-hand side given |
| SexprSpelling.GroupSays | lib/rcompiler.rb:203-205 | every list with another head is the group of the lists after it, in order; an item that is no list is skipped |
| Texts.DecimalReads | lib/rcompiler.rb:102-104 | the decimal form of n reads back as n in 32-bit two's complement; it is digits after an optional minus sign, without leading zeros |
| Texts.CStringIs | lib/rcompiler.rb:165-172 | C sees a prefix without NUL, which ends at a NUL or at the end |
| Texts.CStringWhole | lib/rcompiler.rb:165-172 | a string is seen whole if and only if it has no NUL |
| Texts.FormatIff | lib/rcompiler.rb:139 | printf without arguments writes t if and only if its format is t with every percent sign doubled |
| SexprMethods.DecimalFits | lib/rcompiler.rb:102-104 | the decimal form of any 32-bit number has at most 11 characters, so the buffer holds it |
| SexprMethods.ArithRuns | lib/rcompiler.rb:87-97 | Num#+ and Num#- are addition and subtraction modulo 2^32 |
| SexprMethods.ToSRuns | lib/rcompiler.rb:99-108 | Num#to_s yields a fresh string with no recorded length and the decimal form, which, read from its most significant digit on, is the number in 32-bit two's complement |
| SexprMethods.LengthRuns | lib/rcompiler.rb:127-132 | String#length yields the recorded length and goes wrong exactly when there is none |
| SexprMethods.PutsRuns | lib/rcompiler.rb:134-140 | String#puts calls printf with the text as the format: it outputs what the format says, which is the text itself exactly when there is no percent sign in it, and goes wrong exactly when the format asks for an argument |
| SexprMethods.StrFromCstrRuns | lib/rcompiler.rb:57-68 | a literal becomes a fresh string of its characters and their number; `SexprShapes.LiteralMeans` says which characters those are |
| SexprMethods.MethodRuns | lib/rcompiler.rb:87-140 | calling a method's function is applying the method |
| SexprSimulation.StoreOld | lib/rcompiler.rb:185-194 | a store under a name changes that variable and no other |
| SexprSimulation.StoreNew | lib/rcompiler.rb:186-194 | the first store under a name goes to a fresh cell, and changes no other variable |
| SexprSimulation.GenRuns | lib/rcompiler.rb:145-207 | the emitted code yields the value, the variables and the output of direct evaluation, for every tree that checks, and goes wrong exactly when evaluation does |
| SexprSimulation.MainMeans | lib/rcompiler.rb:209-219 | the body of main, run from nothing, gets to its end if and only if the shapes of the tree go through, and then has printed what the tree prints and left every variable's last value in its cell |
| SexprShapes.ShapelyExact | lib/rcompiler.rb:99-140 | a tree has a value if and only if its shapes go through: a condition that looks at the tree alone and knows of a string only whether its length was recorded and whether it is a format without arguments |
| SexprShapes.CheckedCall | lib/rcompiler.rb:99-140 | of the calls that check, exactly these have no value: a sum of strings, a length that was not recorded, a puts of a text that is no format without arguments |
| SexprShapes.CheckedStops | lib/rcompiler.rb:99-140 | evaluation of a tree that checks stops if and only if it comes to one of those calls |
| SexprShapes.FormatSame | lib/rcompiler.rb:139 | printf writes a text as it stands exactly when it has no percent sign |
| SexprShapes.LiteralMeans | lib/rcompiler.rb:165-172 | a literal is its characters up to the first NUL, or all of them when there is none, with their number as its length |
| SexprShapes.LengthOfNumberFails | lib/rcompiler.rb:99-132 | for every number, asking for the length of its to_s checks and has no value |
| SexprShapes.DirectiveFails | lib/rcompiler.rb:139 | a puts of a literal checks; it prints t exactly when the literal up to its first NUL is t with every percent sign doubled, prints the literal itself, when that has no NUL, exactly when it has no percent sign, and has no value when that is no format without arguments |
| SexprShapes.ConcatenationFails | lib/rcompiler.rb:113-125 | the sum of any two literals checks and has no value |
| SexprCompiler.MethodTable.constructor | lib/rcompiler.rb:17-27 | declares a function for every entry, with the receiver's type in front of the arguments' |
| SexprCompiler.CreateNumMethods | lib/rcompiler.rb:73-85 | the table of Num has `+` and `-` of (INT, INT) to INT and `to_s` of INT to a string, with result kinds Num, Num and String, and nothing else |
| SexprCompiler.CreateStrMethods | lib/rcompiler.rb:113-125 | the table of String has `length` and `puts` of a string to INT and `+` of two strings to a string, with result kinds Num, none and String, and nothing else |
| SexprCompiler.NumToS | lib/rcompiler.rb:99-108 | builds the body of to_s |
| SexprCompiler.CStrToString | lib/rcompiler.rb:57-68 | builds the body of String_str_from_cstr |
| SexprCompiler.Compiler.constructor | lib/rcompiler.rb:38-71 | printf, sprintf, strlen and String_str_from_cstr with their types; both tables; all six bodies, and no others; no variables |
| SexprCompiler.Compiler.ParseSexpr | lib/rcompiler.rb:145-207 | emits, and changes the table of variables, exactly as specified for the tree that the list spells; raises exactly on the others, and then leaves exactly what came before the exception |
| SexprCompiler.Compiler.ParseCall | lib/rcompiler.rb:148-164 | receiver, then all arguments, then the call of what the receiver's table has; makes no call when there is nothing to call, with the code of receiver and arguments already there |
| SexprCompiler.Compiler.ParseArgs | lib/rcompiler.rb:152-156 | the loop over an argument list emits all arguments from left to right, up to the first that raises, and only then takes their values |
| SexprCompiler.Compiler.ParseAssign | lib/rcompiler.rb:182-195 | the right-hand side is emitted before the name is looked up, so a name that it assigns has its cell by then |
| SexprCompiler.Compiler.ParseParts | lib/rcompiler.rb:203-205 | the loop over any other list emits the lists in it, in order, and yields no object |
| SexprSession.AllFitIffCheck | lib/rcompiler.rb:209-219 | trees compiled one after the other raise no exception and give a main whose blocks all fit, if and only if each checks in the scope that those before it left |
| SexprSession.LaterFitsIffChecks | lib/rcompiler.rb:182-195 | after any trees that check, the block of any further tree fits among the results of all earlier blocks if and only if that tree checks in the scope they left: the cells of one compilation are used by the next |
| SexprSession.SessionRuns | lib/rcompiler.rb:209-219 | whatever is compiled after it, running main prints what the first tree prints, and gets to its end exactly when that tree's shapes go through |
| SexprCompiler.Compiler.Compile | lib/rcompiler.rb:209-219 | adds a block to main, found or declared, numbered after the instructions of its earlier blocks, which returns 0 exactly when nothing raises; the table of variables is kept; after an exception block and table stay exactly as they are at that point |
| SexprCompiler.CompileScript | lib/rcompiler.rb:237-238 | a new compiler put to a tree: main is complete and fits if and only if the tree checks, and then it prints what the tree prints, or goes wrong exactly when the shapes of the tree do not go through |
| SexprCompiler.CompileAll | lib/rcompiler.rb:209-219 | a new compiler put to any list of trees: main is the one that `SexprSession` speaks of, fits if and only if all trees check in turn, and does what the first of them says |
| SexprScripts.CompileSum | lib/rcompiler.rb:230-238 | the script that the file ends with, for any two 32-bit numbers and for plus and minus: the compiled main fits, runs to its end and prints one text, the sum or difference in decimal, modulo 2^32 |
| SexprScripts.CompileNumber | lib/rcompiler.rb:225 | a number put out through to_s and puts is printed as that number |
| SexprScripts.CompileText | lib/rcompiler.rb:228 | a literal without NUL and percent sign is printed as it stands |
| SexprScripts.CompileLength | lib/rcompiler.rb:223 | the length of a literal without NUL is printed as the number of its characters |
| SexprScripts.CompileOrder | lib/rcompiler.rb:148-160 | what the receiver of a call prints comes before what its argument prints |
| SexprScripts.NilHasNoMethods | lib/rcompiler.rb:157-164 | a call on the result of puts raises, whatever its selector and arguments are |

## Left out

- Simulation.Simulates: says nothing of a run of the stack machine after a hash of an odd count, because the stack is not enough to say what the code does there; `MemoryMachine.SimulatesMemory` does, for every bytecode.
- ArrayLoop.CompiledDoubles: relies on one property of the interpreter, that rb_ary_store on an index in range replaces that element; nothing else about the interpreter is assumed. The array is shorter than 2^31 or 2^63 elements, half of what a word can count.
- ArrayCalls.Add1Adds: is about arrays whose elements are tagged numbers, of a length below half of what a word can count.
- ArrayCalls.ReverseReverses: is about arrays of any words, of a length below half of what a word can count.
- StackDiscipline.CompiledDepth: gives the depth at the start of every block; inside a block the pointer moves by the pushes and pops of that block, and an access outside the 100 cells would make the function go wrong.
- SexprCompiler.Compiler.ParseCall: where a table has nothing under a selector the original hands nil to the builder, which its bindings dereference unchecked; the model takes that for an exception.
- The bodies of the interpreter's and the C library's functions: calls to the interpreter are logged and answered arbitrarily; printf without arguments writes its format with each `%%` as one percent sign and has no meaning for any other directive, sprintf formats a decimal number, strlen counts up to the first NUL.
- The words of nil and of symbols, which depend on the interpreter, are unspecified constants or operands; `slen` and `Symbol#llvm` are not modelled.
- The IR builder's constant folding: an instruction is emitted even where LLVM would fold it into a constant.
- The zero-count alloca of the stack pointer is one cell, and array headers and data pointers are abstract addresses rather than structs in memory.
- Numeric operands must fit a C int where the bindings convert them to one; compilation of the others is taken to raise.
- `last`, `swap` and the instance-variable example of lib/ruby_calls.rb, which are straight-line code of the same helpers.
- The bindings under ext/, LLVM passes, the execution engine, bitcode and assembly files, and all debugging output.
- S-expressions are consumed by shifts in the original; here positions in a list are read instead, and the lists stay as they are.
- Function names: a compiled function is identified by its counter, a method by its class and selector.
- The format string of to_s is made anew at each call; as nothing writes to it, that cannot be observed.
