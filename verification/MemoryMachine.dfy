// A machine whose state is the whole memory: the meaning of every bytecode, hashes of odd counts included.

module MemoryMachine {
  import opened Options
  import opened Words
  import opened IR
  import opened Machine
  import opened StackMachine
  import opened Emission
  import opened ValueCode
  import opened StackCode
  import opened InsnCode
  import opened Codegen
  import opened HashCode
  import opened Simulation

  /** Like the stack machine, with the cells above the top of the stack as part of the state. */
  datatype MemVm = Runs(pc: nat, m: Mem) | Ends(v: Val, m: Mem) | Fails

  predicate Sound(vm: MemVm) {
    !vm.Fails? ==> MemOk(vm.m)
  }

  /** The effect of an instruction that does not branch. */
  function MemEffect(env: Env, insn: Insn, m: Mem): (r: Option<Mem>)
    requires MemOk(m)
    ensures r.Some? ==> MemOk(r.value)
  {
    if insn.NewHash? then
      HashSemIs(env, insn.count, m);
      HashSem(env, insn.count, m)
    else
      var r := RunCalls(env, Calls(insn), 0, [], m);
      if r.None? then None else Some(r.value.1)
  }

  function StepMem(env: Env, bc: Bytecode, vm: MemVm): (vm': MemVm)
    requires WellFormed(bc) && Sound(vm)
    ensures Sound(vm')
  {
    match vm
    case Runs(pc, m) =>
      if pc > |bc| then Fails
      else if pc == |bc| then
        if m.depth == 0 then Fails else Ends(m.cells[m.depth - 1], m.(depth := m.depth - 1))
      else (
        match bc[pc]
        case Jump(t) => Runs(Target(|bc|, t), m)
        case BranchIf(t) =>
          if m.depth == 0 || !IsWord(TopCell(m)) then Fails
          else Runs(if IsZero(TopCell(m)) then pc + 1 else Target(|bc|, t), Popped(m))
        case BranchUnless(t) =>
          if m.depth == 0 || !IsWord(TopCell(m)) then Fails
          else Runs(if IsZero(TopCell(m)) then Target(|bc|, t) else pc + 1, Popped(m))
        case insn =>
          var r := MemEffect(env, insn, m);
          if r.None? then Fails else Runs(pc + 1, r.value)
      )
    case _ => vm
  }

  function RunMem(env: Env, bc: Bytecode, vm: MemVm, k: nat): (vm': MemVm)
    requires WellFormed(bc) && Sound(vm)
    ensures Sound(vm')
    decreases k
  {
    if k == 0 then vm else RunMem(env, bc, StepMem(env, bc, vm), k - 1)
  }

  function StartOnMem(env: Env, w: World): (vm: MemVm)
    ensures Sound(vm)
  {
    Runs(0, StartMem(env, w))
  }

  // ---------- the compiled function ----------

  /** The machine stands where the memory machine does, with the same memory. */
  predicate SameMemory(h: Handles, c: Config, vm: MemVm) {
    match vm
    case Runs(pc, m) => c.At? && c.block == BlockOf(pc) && Rel(h, c.st, m)
    case Ends(v, m) => c.Done? && c.v == v && Rel(h, c.final, m)
    case Fails => c.Wrong?
  }

  /** Where the memory machine goes from an instruction that jumps. */
  lemma JumpMem(env: Env, bc: Bytecode, i: nat, m: Mem)
    requires WellFormed(bc) && i < |bc| && IsJump(bc[i]) && MemOk(m)
    ensures WellFormedInsn(|bc|, bc[i]) && (bc[i].Jump? || bc[i].BranchIf? || bc[i].BranchUnless?)
    ensures ValidTarget(|bc|, bc[i].target)
    ensures var t := Target(|bc|, bc[i].target);
      StepMem(env, bc, Runs(i, m))
        == if bc[i].Jump? then Runs(t, m)
           else if m.depth == 0 || !IsWord(TopCell(m)) then Fails
           else Runs(if IsZero(TopCell(m)) == bc[i].BranchUnless? then t else i + 1, Popped(m))
  {
    hide MemEffect, IsZero, IsWord;
  }

  lemma PlainMem(env: Env, bc: Bytecode, i: nat, m: Mem)
    requires WellFormed(bc) && i < |bc| && !IsJump(bc[i]) && MemOk(m)
    ensures var r := MemEffect(env, bc[i], m);
      StepMem(env, bc, Runs(i, m)) == if r.None? then Fails else Runs(i + 1, r.value)
  {
    hide MemEffect, IsZero, IsWord;
  }

  lemma {:induction false} EffectParts(env: Env, insn: Insn, m: Mem)
    requires MemOk(m)
    ensures insn.NewHash? ==> MemEffect(env, insn, m) == HashSem(env, insn.count, m)
    ensures !insn.NewHash? ==>
              var r := RunCalls(env, Calls(insn), 0, [], m);
              MemEffect(env, insn, m) == if r.None? then None else Some(r.value.1)
  {
    hide HashSem, RunCalls, Calls;
  }

  lemma ExitMem(env: Env, bc: Bytecode, m: Mem)
    requires WellFormed(bc) && MemOk(m)
    ensures StepMem(env, bc, Runs(|bc|, m))
         == if m.depth == 0 then Fails else Ends(m.cells[m.depth - 1], m.(depth := m.depth - 1))
  {
    hide MemEffect;
  }

  lemma SameRuns(h: Handles, c: Config, pc: nat, m: Mem)
    requires c.At? && c.block == BlockOf(pc) && Rel(h, c.st, m)
    ensures SameMemory(h, c, Runs(pc, m))
  {
    hide Rel;
  }

  lemma SameFails(h: Handles, c: Config)
    requires c.Wrong?
    ensures SameMemory(h, c, Fails)
  {
  }

  lemma {:induction false} JumpKeepsMemory(env: Env, bc: Bytecode, base: nat, i: nat, prev: nat, st: State, m: Mem)
    requires WellFormed(bc) && i < |bc| && MemOk(m) && Rel(HandlesAt(base), st, m) && IsJump(bc[i])
    ensures SameMemory(HandlesAt(base), Run(env, Compile(bc, base).blocks, At(BlockOf(i), prev, st), 1),
                       StepMem(env, bc, Runs(i, m)))
  {
    hide *;
    PrefixWellFormed(bc, i);
    var code, f, h, n := CompileTo(bc, base, i), Compile(bc, base).blocks, HandlesAt(base), |bc|;
    CodeInPlace(bc, base, i);
    InPlaceIs(f, h, code.next, |code.blocks|, n, i, bc[i]);
    JumpOps(h, code.next, |code.blocks|, n, i, bc[i]);
    JumpMem(env, bc, i, m);
    var c, t, next := Run(env, f, At(BlockOf(i), prev, st), 1), Target(n, bc[i].target), i + 1;
    if bc[i].Jump? {
      JumpRuns(env, f, h, code.next, |code.blocks|, n, i, bc[i].target, prev, st, m);
      SameRuns(h, c, t, m);
    } else {
      var zero, other := if bc[i].BranchIf? then next else t, if bc[i].BranchIf? then t else next;
      TestRuns(env, f, h, code.next, BlockOf(i), BlockOf(zero), BlockOf(other), prev, st, m);
      if m.depth == 0 || !IsWord(TopCell(m)) {
        SameFails(h, c);
      } else {
        SameRuns(h, c, if IsZero(TopCell(m)) then zero else other, Popped(m));
      }
    }
  }

  lemma PlainKeepsMemory(env: Env, bc: Bytecode, base: nat, i: nat, prev: nat, st: State, m: Mem) returns (steps: nat)
    requires WellFormed(bc) && i < |bc| && MemOk(m) && Rel(HandlesAt(base), st, m) && !IsJump(bc[i])
    ensures steps >= 1
    ensures SameMemory(HandlesAt(base), Run(env, Compile(bc, base).blocks, At(BlockOf(i), prev, st), steps),
                       StepMem(env, bc, Runs(i, m)))
  {
    hide *;
    PrefixWellFormed(bc, i);
    var code, f, h, insn := CompileTo(bc, base, i), Compile(bc, base).blocks, HandlesAt(base), bc[i];
    CodeInPlace(bc, base, i);
    InPlaceIs(f, h, code.next, |code.blocks|, |bc|, i, insn);
    PlainMem(env, bc, i, m);
    EffectParts(env, insn, m);
    KindsOf(insn);
    steps := 1;
    if insn.NewHash? {
      FitsCInt(|bc|, insn);
      steps := HashRuns(env, f, h, code.next, |code.blocks|, i, insn.count, prev, st, m);
    } else {
      var st1 := StraightMemory(env, f, h, code.next, |code.blocks|, |bc|, i, insn, prev, st, m);
    }
    var c, r := Run(env, f, At(BlockOf(i), prev, st), steps), MemEffect(env, insn, m);
    if r.None? {
      SameFails(h, c);
    } else {
      SameRuns(h, c, i + 1, r.value);
    }
  }

  lemma FitsCInt(n: nat, insn: Insn)
    requires WellFormedInsn(n, insn) && insn.NewHash?
    ensures CInt(insn.count)
  {
  }

  lemma {:induction false} ExitKeepsMemory(env: Env, bc: Bytecode, base: nat, prev: nat, st: State, m: Mem)
    requires WellFormed(bc) && MemOk(m) && Rel(HandlesAt(base), st, m)
    ensures SameMemory(HandlesAt(base), Run(env, Compile(bc, base).blocks, At(BlockOf(|bc|), prev, st), 1),
                       StepMem(env, bc, Runs(|bc|, m)))
  {
    ExitMem(env, bc, m);
    var c, f, h := CompileTo(bc, base, |bc|), Compile(bc, base).blocks, HandlesAt(base);
    var code := Number(ExitOps(h, c.next), c.next);
    assert f[BlockOf(|bc|)] == code && HandlesBelow(h, c.next);
    hide HandlesAt, CompileTo, Compile, Rel, HandlesBelow, Run, Number, ExitOps, StepMem;
    var st' := ExitRuns(env, h, c.next, prev, st, m);
    RunOne(env, f, BlockOf(|bc|), code, prev, st);
  }

  lemma SameParts(h: Handles, c: Config, vm: MemVm)
    requires SameMemory(h, c, vm)
    ensures vm.Runs? ==> c == At(BlockOf(vm.pc), c.prev, c.st) && Rel(h, c.st, vm.m) && MemOk(vm.m)
    ensures !vm.Runs? ==> !c.At?
  {
    hide HandlesHeld;
  }

  lemma StaysInside(env: Env, bc: Bytecode, pc: nat, m: Mem)
    requires WellFormed(bc) && pc <= |bc| && MemOk(m)
    ensures var vm := StepMem(env, bc, Runs(pc, m)); vm.Runs? ==> vm.pc <= |bc|
  {
    hide MemEffect, IsZero, IsWord;
  }

  /** A step of the memory machine is one or more blocks of the compiled function. */
  lemma OneMemStep(env: Env, bc: Bytecode, base: nat, c: Config, vm: MemVm) returns (steps: nat)
    requires WellFormed(bc) && Sound(vm) && SameMemory(HandlesAt(base), c, vm) && (vm.Runs? ==> vm.pc <= |bc|)
    ensures steps >= 1
    ensures SameMemory(HandlesAt(base), Run(env, Compile(bc, base).blocks, c, steps), StepMem(env, bc, vm))
    ensures var vm' := StepMem(env, bc, vm); vm'.Runs? ==> vm'.pc <= |bc|
  {
    hide *;
    steps := 1;
    SameParts(HandlesAt(base), c, vm);
    if vm.Runs? {
      IsRuns(vm);
      StaysInside(env, bc, vm.pc, vm.m);
      if vm.pc == |bc| {
        ExitKeepsMemory(env, bc, base, c.prev, c.st, vm.m);
      } else if IsJump(bc[vm.pc]) {
        JumpKeepsMemory(env, bc, base, vm.pc, c.prev, c.st, vm.m);
      } else {
        steps := PlainKeepsMemory(env, bc, base, vm.pc, c.prev, c.st, vm.m);
      }
    } else {
      Stays(env, bc, vm);
      RunFinal(env, Compile(bc, base).blocks, c, 1);
    }
  }

  lemma IsRuns(vm: MemVm)
    requires vm.Runs?
    ensures vm == Runs(vm.pc, vm.m)
  {
  }

  lemma Stays(env: Env, bc: Bytecode, vm: MemVm)
    requires WellFormed(bc) && Sound(vm) && !vm.Runs?
    ensures StepMem(env, bc, vm) == vm
  {
    hide WellFormed;
  }

  lemma RunMemIs(env: Env, bc: Bytecode, vm: MemVm, k: nat)
    requires WellFormed(bc) && Sound(vm)
    ensures RunMem(env, bc, vm, k) == if k == 0 then vm else RunMem(env, bc, StepMem(env, bc, vm), k - 1)
  {
    hide StepMem, WellFormed, Sound;
  }

  lemma {:induction false} RunsOnMemory(env: Env, bc: Bytecode, base: nat, c: Config, vm: MemVm, k: nat)
    returns (steps: nat)
    requires WellFormed(bc) && Sound(vm) && SameMemory(HandlesAt(base), c, vm) && (vm.Runs? ==> vm.pc <= |bc|)
    ensures steps >= k
    ensures SameMemory(HandlesAt(base), Run(env, Compile(bc, base).blocks, c, steps), RunMem(env, bc, vm, k))
    decreases k
  {
    hide *;
    RunMemIs(env, bc, vm, k);
    var f := Compile(bc, base).blocks;
    if k == 0 {
      steps := 0;
      RunNone(env, f, c);
    } else {
      var a := OneMemStep(env, bc, base, c, vm);
      var b := RunsOnMemory(env, bc, base, Run(env, f, c, a), StepMem(env, bc, vm), k - 1);
      RunSplit(env, f, c, a, b);
      steps := a + b;
    }
  }

  lemma {:induction false} StartsSame(env: Env, bc: Bytecode, base: nat, w: World)
    requires WellFormed(bc)
    ensures StartOnMem(env, w).Runs? && StartOnMem(env, w).pc == 0
    ensures SameMemory(HandlesAt(base), Run(env, Compile(bc, base).blocks, Start(w), 1), StartOnMem(env, w))
  {
    EntryBlock(bc, base);
    var st' := EntryRuns(env, base, w);
    var f := Compile(bc, base).blocks;
    hide Compile, Rel, Exec, Number, EntryOps, HandlesAt, Run, WellFormed, StartMem;
    RunJump(env, f, 0, Number(EntryOps(base), base), 0, State(map[], [], w), 1, st');
  }

  /**
   * Compiler correctness on memory, for every bytecode and every run, with no condition on hashes. After any number k
   * of steps of the memory machine, the compiled function has run at least k blocks and stands where the memory machine
   * does, with the same cells, stack pointer, locals, arrays and calls into the interpreter; or has finished with the
   * same value; or has gone wrong as the memory machine has.
   */
  lemma SimulatesMemory(env: Env, bc: Bytecode, base: nat, w: World, k: nat) returns (steps: nat)
    requires WellFormed(bc)
    ensures steps >= k
    ensures SameMemory(HandlesAt(base), Run(env, Compile(bc, base).blocks, Start(w), steps),
                       RunMem(env, bc, StartOnMem(env, w), k))
  {
    hide *;
    var f := Compile(bc, base).blocks;
    StartsSame(env, bc, base, w);
    var n := RunsOnMemory(env, bc, base, Run(env, f, Start(w), 1), StartOnMem(env, w), k);
    RunSplit(env, f, Start(w), 1, n);
    steps := 1 + n;
  }

  ghost predicate ReturnsMem(env: Env, bc: Bytecode, w: World, v: Val, w': World)
    requires WellFormed(bc)
  {
    exists k: nat :: RunMem(env, bc, StartOnMem(env, w), k).Ends?
                     && RunMem(env, bc, StartOnMem(env, w), k).v == v
                     && RunMem(env, bc, StartOnMem(env, w), k).m.world == w'
  }

  ghost predicate FailsMem(env: Env, bc: Bytecode, w: World)
    requires WellFormed(bc)
  {
    exists k: nat :: RunMem(env, bc, StartOnMem(env, w), k).Fails?
  }

  lemma SameOutcome(h: Handles, c: Config, vm: MemVm)
    requires SameMemory(h, c, vm)
    ensures c.Done? <==> vm.Ends?
    ensures c.Wrong? <==> vm.Fails?
    ensures c.Done? ==> c.v == vm.v && c.final.world == vm.m.world
  {
    hide HandlesHeld;
  }

  /** A finished run of the compiled function is still the same after the blocks that the memory machine needs. */
  lemma {:induction false} MemoryCatchesUp(env: Env, bc: Bytecode, base: nat, w: World, steps: nat)
    requires WellFormed(bc) && !Run(env, Compile(bc, base).blocks, Start(w), steps).At?
    ensures SameMemory(HandlesAt(base), Run(env, Compile(bc, base).blocks, Start(w), steps),
                       RunMem(env, bc, StartOnMem(env, w), steps))
  {
    hide *;
    var f := Compile(bc, base).blocks;
    var more := SimulatesMemory(env, bc, base, w, steps);
    RunSplit(env, f, Start(w), steps, more - steps);
    RunFinal(env, f, Run(env, f, Start(w), steps), more - steps);
  }

  /** Returns coincide, for every bytecode. */
  lemma SameReturnsOnMemory(env: Env, bc: Bytecode, base: nat, w: World, v: Val, w': World)
    requires WellFormed(bc)
    ensures Returns(env, Compile(bc, base).blocks, w, v, w') <==> ReturnsMem(env, bc, w, v, w')
  {
    var f := Compile(bc, base).blocks;
    hide Run, RunMem, Compile, WellFormed, StartOnMem, SameMemory, HandlesAt;
    if ReturnsMem(env, bc, w, v, w') {
      var k: nat :| RunMem(env, bc, StartOnMem(env, w), k).Ends? && RunMem(env, bc, StartOnMem(env, w), k).v == v
                    && RunMem(env, bc, StartOnMem(env, w), k).m.world == w';
      var steps := SimulatesMemory(env, bc, base, w, k);
      SameOutcome(HandlesAt(base), Run(env, f, Start(w), steps), RunMem(env, bc, StartOnMem(env, w), k));
    }
    if Returns(env, f, w, v, w') {
      var steps: nat :| Run(env, f, Start(w), steps).Done? && Run(env, f, Start(w), steps).v == v
                        && Run(env, f, Start(w), steps).final.world == w';
      MemoryCatchesUp(env, bc, base, w, steps);
      SameOutcome(HandlesAt(base), Run(env, f, Start(w), steps), RunMem(env, bc, StartOnMem(env, w), steps));
    }
  }

  /** And so do failures. */
  lemma SameFailuresOnMemory(env: Env, bc: Bytecode, base: nat, w: World)
    requires WellFormed(bc)
    ensures GoesWrong(env, Compile(bc, base).blocks, w) <==> FailsMem(env, bc, w)
  {
    var f := Compile(bc, base).blocks;
    hide Run, RunMem, Compile, WellFormed, StartOnMem, SameMemory, HandlesAt;
    if k: nat :| RunMem(env, bc, StartOnMem(env, w), k).Fails? {
      var steps := SimulatesMemory(env, bc, base, w, k);
      SameOutcome(HandlesAt(base), Run(env, f, Start(w), steps), RunMem(env, bc, StartOnMem(env, w), k));
    }
    if steps: nat :| Run(env, f, Start(w), steps).Wrong? {
      MemoryCatchesUp(env, bc, base, w, steps);
      SameOutcome(HandlesAt(base), Run(env, f, Start(w), steps), RunMem(env, bc, StartOnMem(env, w), steps));
    }
  }

  // ---------- the stack machine ----------

  /** What the stack machine sees of the memory machine. */
  function Seen(vm: MemVm): Vm
    requires Sound(vm)
  {
    match vm
    case Runs(pc, m) => Running(pc, View(m))
    case Ends(v, m) => Finished(v, View(m))
    case Fails => Failed
  }

  predicate IsOddHash(insn: Insn) {
    insn.NewHash? && insn.count > 0 && insn.count % 2 == 1
  }

  lemma StraightSeen(env: Env, n: nat, insn: Insn, m: Mem)
    requires WellFormedInsn(n, insn) && MemOk(m) && !IsJump(insn) && !IsOddHash(insn)
    ensures var r, want := MemEffect(env, insn, m), Effect(env, insn, View(m));
      if want.None? then r.None? else r.Some? && View(r.value) == want.value
  {
    KindsOf(insn);
    EffectParts(env, insn, m);
    if insn.NewHash? {
      HashAgrees(env, insn.count, m);
    } else {
      StraightAgrees(env, n, insn, m);
      AgreesIs(RunCalls(env, Calls(insn), 0, [], m), Effect(env, insn, View(m)));
    }
    hide MemEffect, Effect, RunCalls, Calls, HashSem, View, Agrees;
  }

  /** On everything but a hash of an odd count, the memory machine does to its stack what the stack machine does. */
  lemma StepSeen(env: Env, bc: Bytecode, vm: MemVm)
    requires WellFormed(bc) && Sound(vm) && (vm.Runs? && vm.pc < |bc| ==> !IsOddHash(bc[vm.pc]))
    ensures Seen(StepMem(env, bc, vm)) == StepVm(env, bc, Seen(vm))
  {
    if vm.Runs? && vm.pc < |bc| {
      if IsJump(bc[vm.pc]) {
        JumpSeen(env, bc, vm.pc, vm.m);
      } else {
        PlainSeen(env, bc, vm.pc, vm.m);
      }
    } else if vm.Runs? && vm.pc == |bc| && vm.m.depth > 0 {
      PoppedView(vm.m);
    }
    hide MemEffect, Effect;
  }

  lemma JumpSeen(env: Env, bc: Bytecode, i: nat, m: Mem)
    requires WellFormed(bc) && i < |bc| && MemOk(m) && IsJump(bc[i])
    ensures Seen(StepMem(env, bc, Runs(i, m))) == StepVm(env, bc, Running(i, View(m)))
  {
    JumpMem(env, bc, i, m);
    JumpVm(env, bc, i, View(m));
    NoView(m);
    if m.depth > 0 {
      PoppedView(m);
    }
    hide StepMem, StepVm, IsZero, IsWord, WellFormed, View;
  }

  lemma PlainSeen(env: Env, bc: Bytecode, i: nat, m: Mem)
    requires WellFormed(bc) && i < |bc| && MemOk(m) && !IsJump(bc[i]) && !IsOddHash(bc[i])
    ensures Seen(StepMem(env, bc, Runs(i, m))) == StepVm(env, bc, Running(i, View(m)))
  {
    KindsOf(bc[i]);
    PlainMem(env, bc, i, m);
    StraightSeen(env, |bc|, bc[i], m);
    if bc[i].NewHash? {
      HashStep(env, bc, i, View(m));
    } else {
      StraightStep(env, bc, i, View(m));
    }
    hide StepMem, StepVm, MemEffect, Effect, View;
  }

  /** Every run of the stack machine that has not failed is the view of the run of the memory machine. */
  lemma {:induction false} RunSeen(env: Env, bc: Bytecode, vm: MemVm, k: nat)
    requires WellFormed(bc) && Sound(vm) && (PairedHashes(bc) || !RunVm(env, bc, Seen(vm), k).Failed?)
    ensures Seen(RunMem(env, bc, vm, k)) == RunVm(env, bc, Seen(vm), k)
    decreases k
  {
    hide *;
    RunMemIs(env, bc, vm, k);
    RunVmIs(env, bc, Seen(vm), k);
    if k > 0 {
      OddHashStops(env, bc, vm);
      if StepVm(env, bc, Seen(vm)).Failed? {
        FailedStays(env, bc, k - 1);
        IsFailed(StepVm(env, bc, Seen(vm)));
      }
      StepSeen(env, bc, vm);
      RunSeen(env, bc, StepMem(env, bc, vm), k - 1);
    }
  }

  lemma OddHashStops(env: Env, bc: Bytecode, vm: MemVm)
    requires WellFormed(bc) && Sound(vm)
    ensures vm.Runs? && vm.pc < |bc| && IsOddHash(bc[vm.pc]) ==>
              !PairedHashes(bc) && StepVm(env, bc, Seen(vm)).Failed?
  {
    if vm.Runs? && vm.pc < |bc| && IsOddHash(bc[vm.pc]) {
      OddHashFails(env, bc[vm.pc].count, View(vm.m));
      HashStep(env, bc, vm.pc, View(vm.m));
    }
    hide StepVm, Effect, WellFormed, View;
  }

  lemma StartSeen(env: Env, w: World)
    ensures Seen(StartOnMem(env, w)) == StartVm(env, w)
  {
    assert View(StartMem(env, w)).stack == [env.arg];
  }

  /** The memory machine refines the stack machine. */
  lemma {:induction false} MemoryRefinesStack(env: Env, bc: Bytecode, w: World, k: nat)
    requires WellFormed(bc) && (PairedHashes(bc) || !RunVm(env, bc, StartVm(env, w), k).Failed?)
    ensures Seen(RunMem(env, bc, StartOnMem(env, w), k)) == RunVm(env, bc, StartVm(env, w), k)
  {
    hide *;
    StartSeen(env, w);
    RunSeen(env, bc, StartOnMem(env, w), k);
  }
}
