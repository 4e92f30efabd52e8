// The compiled function simulates the stack machine.

module Simulation {
  import opened Options
  import opened Words
  import opened IR
  import opened Machine
  import opened StackMachine
  import opened Emission
  import opened ValueCode
  import opened StackCode
  import opened InsnCode
  import opened Codegen
  import opened HashCode

  /** The memory that a machine state holds. */
  function MemOf(st: State): Mem {
    if |st.mem| == 3 && |st.mem[1]| == 1 && st.mem[1][0].Cell? && st.mem[1][0].off >= 0
    then Mem(st.mem[0], st.mem[1][0].off, st.mem[2], st.world)
    else Mem([], 0, [], st.world)
  }

  lemma MemOfRel(h: Handles, st: State, m: Mem)
    requires Rel(h, st, m)
    ensures MemOf(st) == m
  {
  }

  /** The machine stands at the start of the block of instruction pc, or is done, as the stack machine is. */
  predicate Matches(h: Handles, c: Config, vm: Vm) {
    match vm
    case Running(pc, s) => c.At? && c.block == BlockOf(pc) && Rel(h, c.st, MemOf(c.st)) && View(MemOf(c.st)) == s
    case Finished(v, s) => c.Done? && c.v == v && Rel(h, c.final, MemOf(c.final)) && View(MemOf(c.final)) == s
    case Failed => c.Wrong?
  }

  // ---------- newhash ----------

  /** The hash, and the memory after the loop; None when the loop runs out of cells. */
  function AfterLoop(env: Env, count: int, m: Mem): Option<(Val, Mem)> {
    var (hash, w) := CallRuntime(env.rt, HashNew, [], m.world);
    var m1 := m.(world := w);
    if count > 0 && !LoopOk(m1, count) then None
    else Some((hash, if count > 0 then m1.(world := HashWorld(env, hash, m1, count, w)) else m1))
  }

  /** What the code of newhash does to memory, for any count. */
  function HashSem(env: Env, count: int, m: Mem): Option<Mem>
    requires MemOk(m)
  {
    var t := AfterLoop(env, count, m);
    if t.None? || m.depth == CELLS then None
    else Some(t.value.1.(cells := m.cells[m.depth := t.value.0], depth := m.depth + 1))
  }

  lemma HashAgreesPairs(env: Env, count: int, m: Mem)
    requires MemOk(m) && 0 < count <= m.depth && count % 2 == 0
    ensures var r, want := HashSem(env, count, m), Effect(env, NewHash(count), View(m));
      if want.None? then r.None? else r.Some? && MemOk(r.value) && View(r.value) == want.value
  {
    var (hash, w) := CallRuntime(env.rt, HashNew, [], m.world);
    var m1 := m.(world := w);
    hide CallRuntime, SetPairs, HashWorld;
    PairsInOrder(env, hash, m1, count, w);
    assert View(m).stack[m.depth - count..] == m.cells[m.depth - count..m.depth];
    ViewPush(m.(world := HashWorld(env, hash, m1, count, w)), hash);
  }

  /** For an even count, or none at all, that is what the stack machine does. */
  lemma HashAgrees(env: Env, count: int, m: Mem)
    requires MemOk(m) && (count > 0 ==> count % 2 == 0)
    ensures var r, want := HashSem(env, count, m), Effect(env, NewHash(count), View(m));
      if want.None? then r.None? else r.Some? && MemOk(r.value) && View(r.value) == want.value
  {
    var (hash, w) := CallRuntime(env.rt, HashNew, [], m.world);
    hide CallRuntime, SetPairs, HashWorld;
    if 0 < count <= m.depth {
      HashAgreesPairs(env, count, m);
      hide HashSem, Effect;
    } else {
      ViewPush(m.(world := w), hash);
    }
  }

  lemma {:induction false} HashNewRuns(env: Env, h: Handles, r: nat, prev: nat, st: State, m: Mem)
    requires Rel(h, st, m) && HandlesBelow(h, r)
    ensures var (hash, w) := CallRuntime(env.rt, HashNew, [], m.world);
      var res := Exec(env, Number([Op.Call(HashNew, [])], r), 0, prev, st);
      res.Fell? && Rel(h, res.st, m.(world := w)) && Keeps(st, res.st, r) && Holding(Reg(r), hash, res.st.regs)
  {
    var none := EvalAll(env, [], st.regs);
    assert none.Some? && none.value == [];
    OneCall(env, HashNew, [], [], r, prev, st);
    hide CallRuntime, Exec;
  }

  lemma CallThenBr(env: Env, h: Handles, r: nat, x: nat, prev: nat, st: State, m: Mem) returns (st': State)
    requires Rel(h, st, m) && HandlesBelow(h, r)
    ensures var (hash, w) := CallRuntime(env.rt, HashNew, [], m.world);
      Exec(env, Number(HashMain(x), r), 0, prev, st) == Jumped(x, st')
      && Rel(h, st', m.(world := w)) && Keeps(st, st', r) && Holding(Reg(r), hash, st'.regs)
  {
    hide CallRuntime, Rel, Keeps, HandlesBelow, Exec, Step, Holding;
    var call := Op.Call(HashNew, []);
    HashNewRuns(env, h, r, prev, st, m);
    assert [call, Br(x)] == [call] + [Br(x)];
    NumberAppend([call], [Br(x)], r);
    ExecAppend(env, Number([call], r), Number([Br(x)], r + 1), prev, st);
    st' := Exec(env, Number([call], r), 0, prev, st).st;
    ExecTerminator(env, Br(x), r + 1, prev, st');
    BrRuns(env, x, r + 1, prev, st');
  }

  lemma BrRuns(env: Env, x: nat, r: nat, prev: nat, st: State)
    ensures Step(env, Instr(r, Br(x)), prev, st) == Jumped(x, st)
  {
  }

  lemma HeadRuns(env: Env, h: Handles, r: nat, x: nat, count: int, prev: nat, st: State, m: Mem) returns (st': State)
    requires Rel(h, st, m) && HandlesBelow(h, r) && CInt(count)
    ensures Exec(env, Number(HashHead(r, x, count), r + 2), 0, prev, st)
         == Jumped(if count > 0 then x + 1 else x + 2, st')
    ensures Rel(h, st', m) && Keeps(st, st', r + 2)
  {
    SlotIndex(count);
    var cmp, br := Icmp(Sgt, Const(I32, count), Const(I32, 0)), CondBr(Reg(r + 2), x + 1, x + 2);
    HeadTest(env, count, st);
    assert HandlesBelow(h, r + 2);
    OnePure(env, cmp, r + 2, prev, st);
    hide Rel, Keeps, HandlesBelow, Exec, Step, Pure, Truth;
    assert HashHead(r, x, count) == [cmp] + [br];
    NumberAppend([cmp], [br], r + 2);
    ExecAppend(env, Number([cmp], r + 2), Number([br], r + 3), prev, st);
    st' := Exec(env, Number([cmp], r + 2), 0, prev, st).st;
    ExecTerminator(env, br, r + 3, prev, st');
    BranchOn(env, Reg(r + 2), x + 1, x + 2, r + 3, prev, st', count > 0);
  }

  lemma HeadTest(env: Env, count: int, st: State)
    requires CInt(count)
    ensures Pure(env, Icmp(Sgt, Const(I32, count), Const(I32, 0)), st.regs) == Some(Truth(count > 0))
  {
    SlotIndex(count);
    assert Signed(I32, Norm(I32, count)) == count && Signed(I32, Norm(I32, 0)) == 0;
  }

  lemma TailRuns(env: Env, h: Handles, r: nat, i: nat, hash: Val, prev: nat, st: State, m: Mem) returns (st': State)
    requires Rel(h, st, m) && HandlesBelow(h, r) && Holding(Reg(r), hash, st.regs)
    ensures var res := Exec(env, Number(HashTail(h, r, i), r + 19), 0, prev, st);
      if m.depth == CELLS then res == Stuck
      else res == Jumped(BlockOf(i + 1), st')
           && Rel(h, st', m.(cells := m.cells[m.depth := hash], depth := m.depth + 1))
  {
    assert HandlesBelow(h, r + 19);
    hide Rel, HandlesBelow, Exec, PushOps, Number;
    st' := PushThenBr(env, h, r + 19, Reg(r), hash, BlockOf(i + 1), prev, st, m);
  }

  /** The four blocks of newhash, in place in the function. */
  predicate HashBlocks(f: Func, h: Handles, r: nat, x: nat, i: nat, count: int) {
    BlockOf(i) < |f| && x + 2 < |f|
    && f[BlockOf(i)] == Number(HashMain(x), r)
    && f[x] == Number(HashHead(r, x, count), r + 2)
    && f[x + 1] == Number(HashLoop(h, r, x, count), r + 4)
    && f[x + 2] == Number(HashTail(h, r, i), r + 19)
  }

  lemma HashBlocksOpen(f: Func, h: Handles, r: nat, x: nat, i: nat, count: int)
    requires HashBlocks(f, h, r, x, i, count)
    ensures BlockOf(i) < |f| && x + 2 < |f|
    ensures f[BlockOf(i)] == Number(HashMain(x), r) && f[x] == Number(HashHead(r, x, count), r + 2)
    ensures f[x + 1] == Number(HashLoop(h, r, x, count), r + 4) && f[x + 2] == Number(HashTail(h, r, i), r + 19)
  {
    hide Number, HashMain, HashHead, HashLoop, HashTail;
  }

  lemma HoldingKept(id: nat, v: Val, st: State, st': State, r: nat)
    requires Holding(Reg(id), v, st.regs) && Keeps(st, st', r) && id < r
    ensures Holding(Reg(id), v, st'.regs)
  {
  }

  lemma EntersFromHead(r: nat, x: nat, count: int, regs: map<nat, Val>)
    requires CInt(count) && count > 0
    ensures Enters(r, x, count, count, x, regs) && Index(count)
  {
  }

  /** From the head to the tail: through the loop, or past it. */
  lemma HashMiddle(env: Env, f: Func, h: Handles, r: nat, x: nat, i: nat, count: int, hash: Val, prev: nat, st: State,
                   m: Mem)
    returns (steps: nat, last: nat, st': State)
    requires Rel(h, st, m) && HandlesBelow(h, r) && CInt(count) && HashBlocks(f, h, r, x, i, count)
    requires Holding(Reg(r), hash, st.regs)
    ensures if count > 0 && !LoopOk(m, count) then Run(env, f, At(x, prev, st), steps) == Wrong
      else Run(env, f, At(x, prev, st), steps) == At(x + 2, last, st')
           && Rel(h, st', if count > 0 then m.(world := HashWorld(env, hash, m, count, m.world)) else m)
           && Holding(Reg(r), hash, st'.regs)
  {
    hide *;
    HashBlocksOpen(f, h, r, x, i, count);
    var st1 := HeadRuns(env, h, r, x, count, prev, st, m);
    HoldingKept(r, hash, st, st1, r + 2);
    if count > 0 {
      RunJump(env, f, x, Number(HashHead(r, x, count), r + 2), prev, st, x + 1, st1);
      EntersFromHead(r, x, count, st1.regs);
      var n: nat;
      n, st' := LoopRuns(env, f, h, r, x, count, hash, count, x, st1, m);
      RunSplit(env, f, At(x, prev, st), 1, n);
      steps, last := 1 + n, x + 1;
      if LoopOk(m, count) {
        HoldingKept(r, hash, st1, st', r + 4);
      }
    } else {
      RunJump(env, f, x, Number(HashHead(r, x, count), r + 2), prev, st, x + 2, st1);
      steps, last, st' := 1, x, st1;
    }
  }

  lemma {:induction false} AfterLoopIs(env: Env, count: int, m: Mem, hash: Val, w: World)
    requires CallRuntime(env.rt, HashNew, [], m.world) == (hash, w)
    ensures var m1 := m.(world := w);
      AfterLoop(env, count, m)
        == if count > 0 && !LoopOk(m1, count) then None
           else Some((hash, if count > 0 then m1.(world := HashWorld(env, hash, m1, count, w)) else m1))
  {
  }

  lemma HashSemIs(env: Env, count: int, m: Mem)
    requires MemOk(m)
    ensures var t := AfterLoop(env, count, m);
      HashSem(env, count, m)
        == if t.None? || m.depth == CELLS then None
           else Some(t.value.1.(cells := m.cells[m.depth := t.value.0], depth := m.depth + 1))
    ensures var t := AfterLoop(env, count, m); t.Some? ==> t.value.1.depth == m.depth && t.value.1.cells == m.cells
  {
    hide HashWorld, CallRuntime;
  }

  lemma HashStarts(env: Env, f: Func, h: Handles, r: nat, x: nat, i: nat, count: int, prev: nat, st: State, m: Mem)
    returns (steps: nat, last: nat, st': State)
    requires Rel(h, st, m) && HandlesBelow(h, r) && CInt(count) && HashBlocks(f, h, r, x, i, count)
    ensures steps >= 1
    ensures var c, t := Run(env, f, At(BlockOf(i), prev, st), steps), AfterLoop(env, count, m);
      if t.None? then c == Wrong
      else c == At(x + 2, last, st') && Rel(h, st', t.value.1) && Holding(Reg(r), t.value.0, st'.regs)
  {
    hide *;
    HashBlocksOpen(f, h, r, x, i, count);
    var c0 := At(BlockOf(i), prev, st);
    var (hash, w) := CallRuntime(env.rt, HashNew, [], m.world);
    AfterLoopIs(env, count, m, hash, w);
    var st1 := CallThenBr(env, h, r, x, prev, st, m);
    RunJump(env, f, BlockOf(i), Number(HashMain(x), r), prev, st, x, st1);
    var n;
    n, last, st' := HashMiddle(env, f, h, r, x, i, count, hash, BlockOf(i), st1, m.(world := w));
    RunSplit(env, f, c0, 1, n);
    steps := 1 + n;
  }

  lemma HashRuns(env: Env, f: Func, h: Handles, r: nat, x: nat, i: nat, count: int, prev: nat, st: State, m: Mem)
    returns (steps: nat)
    requires Rel(h, st, m) && MemOk(m) && HandlesBelow(h, r) && CInt(count) && HashBlocks(f, h, r, x, i, count)
    ensures steps >= 1
    ensures var c, want := Run(env, f, At(BlockOf(i), prev, st), steps), HashSem(env, count, m);
      if want.None? then c.Wrong? else c.At? && c.block == BlockOf(i + 1) && Rel(h, c.st, want.value)
  {
    hide *;
    HashBlocksOpen(f, h, r, x, i, count);
    HashSemIs(env, count, m);
    var c0 := At(BlockOf(i), prev, st);
    var n, last, st2 := HashStarts(env, f, h, r, x, i, count, prev, st, m);
    steps := n;
    var t := AfterLoop(env, count, m);
    if t.Some? {
      var code := Number(HashTail(h, r, i), r + 19);
      var st3 := TailRuns(env, h, r, i, t.value.0, last, st2, t.value.1);
      if m.depth == CELLS {
        RunStuck(env, f, x + 2, code, last, st2);
      } else {
        RunJump(env, f, x + 2, code, last, st2, BlockOf(i + 1), st3);
      }
      RunSplit(env, f, c0, n, 1);
      steps := n + 1;
    }
  }

  // ---------- the other instructions ----------

  /** The code of instruction i is in place in the function. */
  predicate InPlace(f: Func, h: Handles, r: nat, x: nat, n: nat, i: nat, insn: Insn) {
    WellFormedInsn(n, insn) && BlockOf(i) < |f| && f[BlockOf(i)] == Number(MainOps(h, r, x, n, i, insn), r)
  }

  lemma NoOuts(env: Env, st: State, r: nat)
    ensures OutsHeld(env, [], [], st.regs, r)
  {
  }

  lemma AgreesIs(r: Option<(seq<Val>, Mem)>, want: Option<Frame>)
    requires Agrees(r, want)
    ensures if want.None? then r.None? else r.Some? && MemOk(r.value.1) && View(r.value.1) == want.value
  {
  }

  lemma InPlaceIs(f: Func, h: Handles, r: nat, x: nat, n: nat, i: nat, insn: Insn)
    requires InPlace(f, h, r, x, n, i, insn)
    ensures WellFormedInsn(n, insn) && BlockOf(i) < |f| && f[BlockOf(i)] == Number(MainOps(h, r, x, n, i, insn), r)
  {
    hide Number, MainOps, WellFormedInsn;
  }

  lemma MatchesNext(h: Handles, i: nat, last: nat, st: State, m: Mem)
    requires Rel(h, st, m)
    ensures MemOk(m) && Matches(h, At(BlockOf(i), last, st), Running(i, View(m)))
  {
    MemOfRel(h, st, m);
  }

  lemma MatchesFailed(h: Handles)
    ensures Matches(h, Wrong, Failed)
  {
  }

  /** One block, on the memory itself. */
  lemma StraightMemory(env: Env, f: Func, h: Handles, r: nat, x: nat, n: nat, i: nat, insn: Insn, prev: nat,
                       st: State, m: Mem) returns (st1: State)
    requires Rel(h, st, m) && HandlesBelow(h, r) && InPlace(f, h, r, x, n, i, insn) && IsStraight(insn)
    ensures var c, sem := Run(env, f, At(BlockOf(i), prev, st), 1), RunCalls(env, Calls(insn), 0, [], m);
      if sem.None? then c == Wrong else c == At(BlockOf(i + 1), BlockOf(i), st1) && Rel(h, st1, sem.value.1)
  {
    hide *;
    InPlaceIs(f, h, r, x, n, i, insn);
    StraightOps(h, r, x, n, i, insn);
    NoOuts(env, st, r);
    var sem := RunCalls(env, Calls(insn), 0, [], m);
    var t := Br(BlockOf(i + 1));
    var code := Number(AllOps(h, r, Calls(insn), 0, []) + [t], r);
    st1 := CallsThen(env, h, r, Calls(insn), [], [], t, prev, st, m);
    if sem.Some? {
      BrRuns(env, BlockOf(i + 1), r + |AllOps(h, r, Calls(insn), 0, [])|, prev, st1);
      RunJump(env, f, BlockOf(i), code, prev, st, BlockOf(i + 1), st1);
    } else {
      RunStuck(env, f, BlockOf(i), code, prev, st);
    }
  }

  lemma {:induction false} StraightRuns(env: Env, f: Func, h: Handles, r: nat, x: nat, n: nat, i: nat, insn: Insn,
                                        prev: nat, st: State, m: Mem)
    requires Rel(h, st, m) && MemOk(m) && HandlesBelow(h, r) && InPlace(f, h, r, x, n, i, insn) && IsStraight(insn)
    ensures var c, want := Run(env, f, At(BlockOf(i), prev, st), 1), Effect(env, insn, View(m));
      Matches(h, c, if want.None? then Failed else Running(i + 1, want.value))
  {
    hide *;
    InPlaceIs(f, h, r, x, n, i, insn);
    StraightAgrees(env, n, insn, m);
    AgreesIs(RunCalls(env, Calls(insn), 0, [], m), Effect(env, insn, View(m)));
    var st1 := StraightMemory(env, f, h, r, x, n, i, insn, prev, st, m);
    if RunCalls(env, Calls(insn), 0, [], m).Some? {
      MatchesNext(h, i + 1, BlockOf(i), st1, RunCalls(env, Calls(insn), 0, [], m).value.1);
    } else {
      MatchesFailed(h);
    }
  }

  lemma {:induction false} JumpRuns(env: Env, f: Func, h: Handles, r: nat, x: nat, n: nat, i: nat, t: int, prev: nat,
                                    st: State, m: Mem)
    requires Rel(h, st, m) && InPlace(f, h, r, x, n, i, Insn.Jump(t))
    ensures Run(env, f, At(BlockOf(i), prev, st), 1) == At(BlockOf(Target(n, t)), BlockOf(i), st)
  {
    hide Rel;
    ExecTerminator(env, Br(BlockOf(Target(n, t))), r, prev, st);
    RunJump(env, f, BlockOf(i), Number([Br(BlockOf(Target(n, t)))], r), prev, st, BlockOf(Target(n, t)), st);
  }

  lemma SecondHeld(env: Env, o1: nat, o2: nat, v1: Val, v2: Val, st: State, r: nat)
    requires OutsHeld(env, [Reg(o1), Reg(o2)], [v1, v2], st.regs, r)
    ensures Eval(env, Reg(o2), st.regs) == Some(v2)
  {
    assert [Reg(o1), Reg(o2)][1] == Reg(o2) && [v1, v2][1] == v2;
  }

  /** A conditional branch: one way when the popped word is 0, the other way when it is not. */
  lemma {:induction false} TestRuns(env: Env, f: Func, h: Handles, r: nat, block: nat, zero: nat, other: nat, prev: nat,
                                    st: State, m: Mem)
    requires Rel(h, st, m) && MemOk(m) && HandlesBelow(h, r) && block < |f|
    requires f[block] == Number(AllOps(h, r, TestCalls(), 0, []) + [CondBr(Reg(r + 4), zero, other)], r)
    ensures var c := Run(env, f, At(block, prev, st), 1);
      if m.depth == 0 || !IsWord(TopCell(m)) then c.Wrong?
      else c.At? && c.block == (if IsZero(TopCell(m)) then zero else other) && Rel(h, c.st, Popped(m))
  {
    hide Number, AllOps, AllOuts, TestCalls, Exec, Step, RunCalls, Rel, HandlesBelow, MemOk, Run, Truth;
    TestMeans(env, m);
    TestNumbers(h, r);
    NoOuts(env, st, r);
    var t := CondBr(Reg(r + 4), zero, other);
    var code := Number(AllOps(h, r, TestCalls(), 0, []) + [t], r);
    var st1 := CallsThen(env, h, r, TestCalls(), [], [], t, prev, st, m);
    if m.depth == 0 || !IsWord(TopCell(m)) {
      RunStuck(env, f, block, code, prev, st);
    } else {
      var b := IsZero(TopCell(m));
      SecondHeld(env, r + 3, r + 4, TopCell(m), Truth(b), st1, r + |AllOps(h, r, TestCalls(), 0, [])|);
      BranchOn(env, Reg(r + 4), zero, other, r + 5, prev, st1, b);
      RunJump(env, f, block, code, prev, st, if b then zero else other, st1);
    }
  }

  // ---------- entry and exit ----------

  function EmptyMem(w: World): Mem {
    Mem(seq(CELLS, _ => Undef), 0, seq(CELLS, _ => Undef), w)
  }

  /** set_globals allocates the three objects and points the stack pointer at the bottom of the stack. */
  lemma GlobalsRun(env: Env, code: Block, base: nat, w: World) returns (st': State)
    requires |code| == 4 && code[0] == Instr(base, Alloca(VALUE, CELLS))
    requires code[1] == Instr(base + 1, Alloca(P_VALUE, 0))
    requires code[2] == Instr(base + 2, Op.Store(Reg(base), Reg(base + 1)))
    requires code[3] == Instr(base + 3, Alloca(VALUE, CELLS))
    ensures Exec(env, code, 0, 0, State(map[], [], w)) == Fell(st') && Rel(HandlesAt(base), st', EmptyMem(w))
  {
    var s0 := State(map[], [], w);
    var cells := seq(CELLS, _ => Undef);
    var s1 := Step(env, code[0], 0, s0).st;
    var s2 := Step(env, code[1], 0, s1).st;
    DoStore(env, code, 2, 0, s2, Cell(0, 0), Cell(1, 0), s2.mem[1 := s2.mem[1][0 := Cell(0, 0)]], w);
    var s3 := State(s2.regs[base + 2 := Undef], s2.mem[1 := s2.mem[1][0 := Cell(0, 0)]], w);
    st' := Step(env, code[3], 0, s3).st;
    assert Exec(env, code, 3, 0, s3) == Exec(env, code, 4, 0, st');
    assert Exec(env, code, 0, 0, s0) == Exec(env, code, 1, 0, s1);
    assert Exec(env, code, 1, 0, s1) == Exec(env, code, 2, 0, s2);
  }

  /** Code of a push, closed by a branch. */
  lemma PushThenBr(env: Env, h: Handles, r: nat, v: Operand, x: Val, to: nat, prev: nat, st: State, m: Mem)
    returns (st': State)
    requires Rel(h, st, m) && HandlesBelow(h, r) && Below(v, r) && Eval(env, v, st.regs) == Some(x)
    ensures var res := Exec(env, Number(PushOps(h, r, v) + [Br(to)], r), 0, prev, st);
      if m.depth == CELLS then res == Stuck
      else res == Jumped(to, st') && Rel(h, st', m.(cells := m.cells[m.depth := x], depth := m.depth + 1))
  {
    var push := PushOps(h, r, v);
    assert MemOk(m) && |push| == 4;
    PushRuns(env, h, r, v, x, prev, st, m);
    hide Rel, Keeps, HandlesBelow, Exec, Step, PushOps, Number, MemOk, Eval, Below;
    NumberAppend(push, [Br(to)], r);
    ExecAppend(env, Number(push, r), Number([Br(to)], r + |push|), prev, st);
    st' := st;
    if m.depth < CELLS {
      st' := Exec(env, Number(push, r), 0, prev, st).st;
      ExecTerminator(env, Br(to), r + |push|, prev, st');
      BrRuns(env, to, r + |push|, prev, st');
    }
  }

  function StartMem(env: Env, w: World): Mem {
    EmptyMem(w).(cells := EmptyMem(w).cells[0 := env.arg], depth := 1)
  }

  lemma EntryRuns(env: Env, base: nat, w: World) returns (st': State)
    ensures Exec(env, Number(EntryOps(base), base), 0, 0, State(map[], [], w)) == Jumped(1, st')
    ensures Rel(HandlesAt(base), st', StartMem(env, w))
  {
    var h, s0 := HandlesAt(base), State(map[], [], w);
    var rest := PushOps(h, base + 4, Arg(1)) + [Br(1)];
    assert HandlesBelow(h, base + 4);
    var st1 := GlobalsRun(env, Number(GlobalOps(base), base), base, w);
    hide Exec, Rel, HandlesBelow, Number, HandlesAt, PushOps;
    NumberAppend(GlobalOps(base), rest, base);
    ExecAppend(env, Number(GlobalOps(base), base), Number(rest, base + 4), 0, s0);
    st' := PushThenBr(env, h, base + 4, Arg(1), env.arg, 1, 0, st1, EmptyMem(w));
  }

  lemma ExitRuns(env: Env, h: Handles, r: nat, prev: nat, st: State, m: Mem) returns (st': State)
    requires Rel(h, st, m) && HandlesBelow(h, r)
    ensures var res := Exec(env, Number(ExitOps(h, r), r), 0, prev, st);
      if m.depth == 0 then res == Stuck
      else res == Returned(m.cells[m.depth - 1], st') && Rel(h, st', m.(depth := m.depth - 1))
  {
    assert MemOk(m);
    var pop, ret := PopOps(h, r), Ret(Reg(r + 3));
    assert |pop| == 4;
    PopRuns(env, h, r, prev, st, m);
    hide Exec, Rel, HandlesBelow, Number, PopOps, Keeps;
    NumberAppend(pop, [ret], r);
    ExecAppend(env, Number(pop, r), Number([ret], r + 4), prev, st);
    st' := st;
    if m.depth > 0 {
      st' := Exec(env, Number(pop, r), 0, prev, st).st;
      ExecTerminator(env, ret, r + 4, prev, st');
    }
  }

  // ---------- steps of the stack machine ----------

  lemma HashBlocksClose(f: Func, h: Handles, r: nat, x: nat, n: nat, i: nat, insn: Insn)
    requires WellFormedInsn(n, insn) && insn.NewHash? && BlockOf(i) < |f| && x + 2 < |f|
    requires f[BlockOf(i)] == Number(MainOps(h, r, x, n, i, insn), r)
    requires f[x..x + 3] == ExtraBlocks(h, r, x, i, insn)
    ensures HashBlocks(f, h, r, x, i, insn.count)
  {
    HashParts(h, r, x, n, i, insn);
    hide Number, MainOps, ExtraBlocks, HashHead, HashLoop, HashTail, HashMain;
    assert f[x] == f[x..x + 3][0] && f[x + 1] == f[x..x + 3][1] && f[x + 2] == f[x..x + 3][2];
  }

  lemma {:induction false} HashInPlace(bc: Bytecode, base: nat, i: nat)
    requires WellFormed(bc) && i < |bc| && bc[i].NewHash? && WellFormedInsn(|bc|, bc[i])
    ensures var c := CompileTo(bc, base, i);
      HashBlocks(Compile(bc, base).blocks, HandlesAt(base), c.next, |c.blocks|, i, bc[i].count)
  {
    hide *;
    PrefixWellFormed(bc, i);
    var c := CompileTo(bc, base, i);
    MainBlock(bc, base, i);
    ExtraKept(bc, base, i);
    HashParts(HandlesAt(base), c.next, |c.blocks|, |bc|, i, bc[i]);
    BlockInRange(bc, base, i);
    HashBlocksClose(Compile(bc, base).blocks, HandlesAt(base), c.next, |c.blocks|, |bc|, i, bc[i]);
  }

  lemma BlockInRange(bc: Bytecode, base: nat, i: nat)
    requires WellFormed(bc) && i <= |bc|
    ensures BlockOf(i) < |Compile(bc, base).blocks|
  {
    hide Compile;
  }

  lemma {:induction false} HandlesInPlace(bc: Bytecode, base: nat, i: nat)
    requires WellFormed(bc) && i <= |bc|
    ensures HandlesBelow(HandlesAt(base), CompileTo(bc, base, i).next)
  {
    hide MainOps, ExtraBlocks, Sizes, EntryOps;
  }

  /** The code of the whole bytecode is in place. */
  lemma {:induction false} CodeInPlace(bc: Bytecode, base: nat, i: nat)
    requires WellFormed(bc) && i < |bc|
    ensures var c := CompileTo(bc, base, i);
      InPlace(Compile(bc, base).blocks, HandlesAt(base), c.next, |c.blocks|, |bc|, i, bc[i])
      && HandlesBelow(HandlesAt(base), c.next)
      && (bc[i].NewHash? ==>
            HashBlocks(Compile(bc, base).blocks, HandlesAt(base), c.next, |c.blocks|, i, bc[i].count))
  {
    hide Number, MainOps, CompileTo, Compile, HandlesAt, HandlesBelow, HashBlocks;
    MainBlock(bc, base, i);
    HandlesInPlace(bc, base, i);
    if bc[i].NewHash? {
      HashInPlace(bc, base, i);
    }
  }

  /** The code of any instruction but newhash is one block. */
  lemma {:induction false} OneBlock(env: Env, bc: Bytecode, base: nat, i: nat, prev: nat, st: State, m: Mem)
    requires WellFormed(bc) && i < |bc| && MemOk(m) && Rel(HandlesAt(base), st, m) && !bc[i].NewHash?
    ensures Matches(HandlesAt(base), Run(env, Compile(bc, base).blocks, At(BlockOf(i), prev, st), 1),
                    StepVm(env, bc, Running(i, View(m))))
  {
    var c := CompileTo(bc, base, i);
    var f, h, r, x, n, insn := Compile(bc, base).blocks, HandlesAt(base), c.next, |c.blocks|, |bc|, bc[i];
    CodeInPlace(bc, base, i);
    hide HandlesAt, CompileTo, Compile, Rel, HandlesBelow, InPlace, HashBlocks, Run, MemOk, MainOps, Effect;
    if IsStraight(insn) {
      StraightRuns(env, f, h, r, x, n, i, insn, prev, st, m);
      StraightStep(env, bc, i, View(m));
    } else {
      JumpStep(env, bc, base, i, prev, st, m, f, h, r, x);
    }
  }

  /** The machine runs instruction i's block from memory m. */
  lemma InsnRuns(env: Env, bc: Bytecode, base: nat, i: nat, prev: nat, st: State, m: Mem) returns (steps: nat)
    requires WellFormed(bc) && i < |bc| && MemOk(m) && Rel(HandlesAt(base), st, m)
    requires PairedHashes(bc) || !StepVm(env, bc, Running(i, View(m))).Failed?
    ensures steps >= 1
    ensures Matches(HandlesAt(base), Run(env, Compile(bc, base).blocks, At(BlockOf(i), prev, st), steps),
                    StepVm(env, bc, Running(i, View(m))))
  {
    var c := CompileTo(bc, base, i);
    var f, h, r, x, n, insn := Compile(bc, base).blocks, HandlesAt(base), c.next, |c.blocks|, |bc|, bc[i];
    CodeInPlace(bc, base, i);
    ViewDrop(m, 0);
    hide HandlesAt, CompileTo, Compile, Rel, HandlesBelow, InPlace, HashBlocks, Run, MemOk, MainOps, Effect;
    steps := 1;
    if insn.NewHash? {
      HashIsPaired(env, bc, i, View(m));
      HashAgrees(env, insn.count, m);
      steps := HashRuns(env, f, h, r, x, i, insn.count, prev, st, m);
      HashStep(env, bc, i, View(m));
      var d := Run(env, f, At(BlockOf(i), prev, st), steps);
      if d.At? {
        MemOfRel(h, d.st, HashSem(env, insn.count, m).value);
      }
    } else {
      OneBlock(env, bc, base, i, prev, st, m);
    }
  }

  lemma HashIsPaired(env: Env, bc: Bytecode, i: nat, s: Frame)
    requires WellFormed(bc) && i < |bc| && bc[i].NewHash?
    requires PairedHashes(bc) || !StepVm(env, bc, Running(i, s)).Failed?
    ensures bc[i].count > 0 ==> bc[i].count % 2 == 0
  {
    if !PairedHashes(bc) {
      OddHashFails(env, bc[i].count, s);
      hide Effect;
    }
  }

  lemma OddHashFails(env: Env, count: int, s: Frame)
    ensures count > 0 && count % 2 == 1 ==> Effect(env, NewHash(count), s) == None
  {
  }

  lemma StraightStep(env: Env, bc: Bytecode, i: nat, s: Frame)
    requires WellFormed(bc) && i < |bc| && IsStraight(bc[i])
    ensures var want := Effect(env, bc[i], s);
      StepVm(env, bc, Running(i, s)) == if want.None? then Failed else Running(i + 1, want.value)
  {
    hide Effect;
  }

  lemma HashStep(env: Env, bc: Bytecode, i: nat, s: Frame)
    requires WellFormed(bc) && i < |bc| && bc[i].NewHash?
    ensures var want := Effect(env, bc[i], s);
      StepVm(env, bc, Running(i, s)) == if want.None? then Failed else Running(i + 1, want.value)
  {
    hide Effect;
  }

  /** Where the stack machine goes from an instruction that jumps. */
  lemma JumpVm(env: Env, bc: Bytecode, i: nat, s: Frame)
    requires WellFormed(bc) && i < |bc| && IsJump(bc[i])
    ensures WellFormedInsn(|bc|, bc[i]) && (bc[i].Jump? || bc[i].BranchIf? || bc[i].BranchUnless?)
    ensures ValidTarget(|bc|, bc[i].target)
    ensures var t := Target(|bc|, bc[i].target);
      StepVm(env, bc, Running(i, s))
        == if bc[i].Jump? then Running(t, s)
           else if |s.stack| == 0 || !IsWord(Top(s, 1)) then Failed
           else Running(if IsZero(Top(s, 1)) == bc[i].BranchUnless? then t else i + 1, Drop(s, 1))
  {
    hide Effect, IsZero, IsWord;
  }

  lemma PoppedView(m: Mem)
    requires MemOk(m) && m.depth > 0
    ensures |View(m).stack| == m.depth && Top(View(m), 1) == TopCell(m) && Drop(View(m), 1) == View(Popped(m))
  {
    ViewDrop(m, 1);
  }

  lemma NoView(m: Mem)
    requires MemOk(m)
    ensures |View(m).stack| == m.depth
  {
  }

  lemma MatchesAt(h: Handles, c: Config, pc: nat, m: Mem)
    requires c.At? && c.block == BlockOf(pc) && Rel(h, c.st, m)
    ensures MemOk(m) && Matches(h, c, Running(pc, View(m)))
  {
    MemOfRel(h, c.st, m);
    hide MemOf;
  }

  lemma {:induction false} BranchStep(env: Env, bc: Bytecode, i: nat, prev: nat, st: State, m: Mem, f: Func, h: Handles,
                                      r: nat, x: nat)
    requires WellFormed(bc) && i < |bc| && MemOk(m) && Rel(h, st, m) && HandlesBelow(h, r)
    requires InPlace(f, h, r, x, |bc|, i, bc[i]) && (bc[i].BranchIf? || bc[i].BranchUnless?)
    ensures Matches(h, Run(env, f, At(BlockOf(i), prev, st), 1), StepVm(env, bc, Running(i, View(m))))
  {
    hide *;
    KindsOf(bc[i]);
    JumpVm(env, bc, i, View(m));
    InPlaceIs(f, h, r, x, |bc|, i, bc[i]);
    JumpOps(h, r, x, |bc|, i, bc[i]);
    NoView(m);
    var t, next := BlockOf(Target(|bc|, bc[i].target)), BlockOf(i + 1);
    var zero, other := if bc[i].BranchIf? then next else t, if bc[i].BranchIf? then t else next;
    TestRuns(env, f, h, r, BlockOf(i), zero, other, prev, st, m);
    MatchesFailed(h);
    if m.depth > 0 {
      PoppedView(m);
      if IsWord(TopCell(m)) {
        var pc := if IsZero(TopCell(m)) == bc[i].BranchUnless? then Target(|bc|, bc[i].target) else i + 1;
        MatchesAt(h, Run(env, f, At(BlockOf(i), prev, st), 1), pc, Popped(m));
      } else {
        IsWrong(Run(env, f, At(BlockOf(i), prev, st), 1));
      }
    } else {
      IsWrong(Run(env, f, At(BlockOf(i), prev, st), 1));
    }
  }

  lemma IsWrong(c: Config)
    ensures c.Wrong? ==> c == Wrong
  {
  }

  lemma {:induction false} JumpStep(env: Env, bc: Bytecode, base: nat, i: nat, prev: nat, st: State, m: Mem, f: Func,
                                    h: Handles, r: nat, x: nat)
    requires WellFormed(bc) && i < |bc| && MemOk(m) && Rel(h, st, m) && HandlesBelow(h, r)
    requires InPlace(f, h, r, x, |bc|, i, bc[i]) && IsJump(bc[i])
    ensures Matches(h, Run(env, f, At(BlockOf(i), prev, st), 1), StepVm(env, bc, Running(i, View(m))))
  {
    hide *;
    JumpVm(env, bc, i, View(m));
    if bc[i].Jump? {
      JumpRuns(env, f, h, r, x, |bc|, i, bc[i].target, prev, st, m);
      MatchesAt(h, Run(env, f, At(BlockOf(i), prev, st), 1), Target(|bc|, bc[i].target), m);
    } else {
      BranchStep(env, bc, i, prev, st, m, f, h, r, x);
    }
  }

  /** The exit block returns the top of the stack. */
  lemma {:induction false} ExitStep(env: Env, bc: Bytecode, base: nat, prev: nat, st: State, m: Mem)
    requires WellFormed(bc) && MemOk(m) && Rel(HandlesAt(base), st, m)
    ensures Matches(HandlesAt(base), Run(env, Compile(bc, base).blocks, At(BlockOf(|bc|), prev, st), 1),
                    StepVm(env, bc, Running(|bc|, View(m))))
  {
    var c, f, h := CompileTo(bc, base, |bc|), Compile(bc, base).blocks, HandlesAt(base);
    var code := Number(ExitOps(h, c.next), c.next);
    assert f[BlockOf(|bc|)] == code;
    assert HandlesBelow(h, c.next);
    ViewDrop(m, 0);
    hide HandlesAt, CompileTo, Compile, Rel, HandlesBelow, Run, Number, ExitOps, Effect, MemOf;
    var st' := ExitRuns(env, h, c.next, prev, st, m);
    RunOne(env, f, BlockOf(|bc|), code, prev, st);
    if m.depth > 0 {
      ViewDrop(m, 1);
      MemOfRel(h, st', m.(depth := m.depth - 1));
    }
  }

  // ---------- the theorem ----------

  /** A step of the stack machine is one or more blocks of the compiled function. */
  lemma OneStep(env: Env, bc: Bytecode, base: nat, c: Config, vm: Vm) returns (steps: nat)
    requires WellFormed(bc) && Matches(HandlesAt(base), c, vm) && (vm.Running? ==> vm.pc <= |bc|)
    requires PairedHashes(bc) || !StepVm(env, bc, vm).Failed?
    ensures steps >= 1
    ensures Matches(HandlesAt(base), Run(env, Compile(bc, base).blocks, c, steps), StepVm(env, bc, vm))
    ensures var vm' := StepVm(env, bc, vm); vm'.Running? ==> vm'.pc <= |bc|
  {
    var f := Compile(bc, base).blocks;
    match vm {
      case Running(pc, s) =>
        if pc < |bc| {
          steps := InsnRuns(env, bc, base, pc, c.prev, c.st, MemOf(c.st));
          StepStays(env, bc, pc, s);
        } else {
          steps := 1;
          ExitStep(env, bc, base, c.prev, c.st, MemOf(c.st));
        }
      case _ =>
        steps := 1;
        RunFinal(env, f, c, 1);
    }
  }

  lemma StepStays(env: Env, bc: Bytecode, pc: nat, s: Frame)
    requires WellFormed(bc) && pc < |bc|
    ensures var vm' := StepVm(env, bc, Running(pc, s)); vm'.Running? ==> vm'.pc <= |bc|
  {
    hide Effect;
  }

  lemma {:induction false} FailedStays(env: Env, bc: Bytecode, k: nat)
    requires WellFormed(bc)
    ensures RunVm(env, bc, Failed, k) == Failed
    decreases k
  {
    hide WellFormed;
    if k > 0 {
      FailedStays(env, bc, k - 1);
    }
  }

  lemma {:induction false} RunsMatch(env: Env, bc: Bytecode, base: nat, c: Config, vm: Vm, k: nat) returns (steps: nat)
    requires WellFormed(bc) && Matches(HandlesAt(base), c, vm) && (vm.Running? ==> vm.pc <= |bc|)
    requires PairedHashes(bc) || !RunVm(env, bc, vm, k).Failed?
    ensures steps >= k
    ensures Matches(HandlesAt(base), Run(env, Compile(bc, base).blocks, c, steps), RunVm(env, bc, vm, k))
    decreases k
  {
    hide *;
    RunVmIs(env, bc, vm, k);
    var f := Compile(bc, base).blocks;
    if k == 0 {
      steps := 0;
      RunNone(env, f, c);
    } else {
      if StepVm(env, bc, vm).Failed? {
        FailedStays(env, bc, k - 1);
        IsFailed(StepVm(env, bc, vm));
      }
      var a := OneStep(env, bc, base, c, vm);
      var b := RunsMatch(env, bc, base, Run(env, f, c, a), StepVm(env, bc, vm), k - 1);
      RunSplit(env, f, c, a, b);
      steps := a + b;
    }
  }

  lemma RunVmIs(env: Env, bc: Bytecode, vm: Vm, k: nat)
    requires WellFormed(bc)
    ensures RunVm(env, bc, vm, k) == if k == 0 then vm else RunVm(env, bc, StepVm(env, bc, vm), k - 1)
  {
    hide StepVm, WellFormed;
  }

  lemma {:induction false} RunNone(env: Env, f: Func, c: Config)
    ensures Run(env, f, c, 0) == c
  {
  }

  lemma IsFailed(vm: Vm)
    ensures vm.Failed? ==> vm == Failed
  {
  }

  lemma {:induction false} StartMatches(env: Env, bc: Bytecode, base: nat, w: World)
    requires WellFormed(bc)
    ensures Matches(HandlesAt(base), Run(env, Compile(bc, base).blocks, Start(w), 1), StartVm(env, w))
  {
    var h := HandlesAt(base);
    EntryBlock(bc, base);
    var st' := EntryRuns(env, base, w);
    var f := Compile(bc, base).blocks;
    hide Compile, Rel, Exec, Number, EntryOps, HandlesAt, Run;
    RunJump(env, f, 0, Number(EntryOps(base), base), 0, State(map[], [], w), 1, st');
    MemOfRel(h, st', StartMem(env, w));
    assert View(StartMem(env, w)).stack == [env.arg];
  }

  lemma StartsAtZero(env: Env, w: World)
    ensures StartVm(env, w).Running? && StartVm(env, w).pc == 0
  {
  }

  /**
   * Compiler correctness, for every bytecode. After any number k of steps of the stack machine, the compiled function
   * has run at least k blocks and stands where the stack machine does: at the same instruction, with the same stack,
   * locals, arrays and calls into the interpreter; or finished with the same value. If the stack machine has failed, so
   * has the function, unless the bytecode makes a hash of an odd number of values, which has no meaning on the stack.
   */
  lemma Simulates(env: Env, bc: Bytecode, base: nat, w: World, k: nat) returns (steps: nat)
    requires WellFormed(bc) && (PairedHashes(bc) || !RunVm(env, bc, StartVm(env, w), k).Failed?)
    ensures steps >= k
    ensures Matches(HandlesAt(base), Run(env, Compile(bc, base).blocks, Start(w), steps),
                    RunVm(env, bc, StartVm(env, w), k))
  {
    hide *;
    var f := Compile(bc, base).blocks;
    StartMatches(env, bc, base, w);
    StartsAtZero(env, w);
    var n := RunsMatch(env, bc, base, Run(env, f, Start(w), 1), StartVm(env, w), k);
    RunSplit(env, f, Start(w), 1, n);
    steps := 1 + n;
  }

  /** The compiled function returns v in the world w' after some number of blocks. */
  ghost predicate Returns(env: Env, f: Func, w: World, v: Val, w': World) {
    exists steps: nat :: Run(env, f, Start(w), steps).Done?
                         && Run(env, f, Start(w), steps).v == v && Run(env, f, Start(w), steps).final.world == w'
  }

  /** The stack machine does. */
  ghost predicate ReturnsVm(env: Env, bc: Bytecode, w: World, v: Val, w': World)
    requires WellFormed(bc)
  {
    exists k: nat :: RunVm(env, bc, StartVm(env, w), k).Finished?
                     && RunVm(env, bc, StartVm(env, w), k).v == v && RunVm(env, bc, StartVm(env, w), k).s.world == w'
  }

  /** Whenever the stack machine returns, the compiled function returns the same value after the same calls. */
  lemma ReturnsToo(env: Env, bc: Bytecode, base: nat, w: World, v: Val, w': World)
    requires WellFormed(bc) && ReturnsVm(env, bc, w, v, w')
    ensures Returns(env, Compile(bc, base).blocks, w, v, w')
  {
    var k: nat :| RunVm(env, bc, StartVm(env, w), k).Finished?
                  && RunVm(env, bc, StartVm(env, w), k).v == v && RunVm(env, bc, StartVm(env, w), k).s.world == w';
    var steps := Simulates(env, bc, base, w, k);
    assert Run(env, Compile(bc, base).blocks, Start(w), steps).Done?;
  }

  /** And the other way round, when no hash has an odd count. */
  lemma SameReturns(env: Env, bc: Bytecode, base: nat, w: World, v: Val, w': World)
    requires WellFormed(bc) && PairedHashes(bc)
    ensures Returns(env, Compile(bc, base).blocks, w, v, w') <==> ReturnsVm(env, bc, w, v, w')
  {
    var f := Compile(bc, base).blocks;
    if ReturnsVm(env, bc, w, v, w') {
      ReturnsToo(env, bc, base, w, v, w');
    }
    if Returns(env, f, w, v, w') {
      var steps: nat :| Run(env, f, Start(w), steps).Done?
                        && Run(env, f, Start(w), steps).v == v && Run(env, f, Start(w), steps).final.world == w';
      var more := Simulates(env, bc, base, w, steps);
      RunSplit(env, f, Start(w), steps, more - steps);
      RunFinal(env, f, Run(env, f, Start(w), steps), more - steps);
      assert RunVm(env, bc, StartVm(env, w), steps).Finished?;
    }
  }

  /** The compiled function goes wrong at some point. */
  ghost predicate GoesWrong(env: Env, f: Func, w: World) {
    exists steps: nat :: Run(env, f, Start(w), steps).Wrong?
  }

  /** The stack machine fails at some point. */
  ghost predicate FailsVm(env: Env, bc: Bytecode, w: World)
    requires WellFormed(bc)
  {
    exists k: nat :: RunVm(env, bc, StartVm(env, w), k).Failed?
  }

  /** So do failures. */
  lemma SameFailures(env: Env, bc: Bytecode, base: nat, w: World)
    requires WellFormed(bc) && PairedHashes(bc)
    ensures GoesWrong(env, Compile(bc, base).blocks, w) <==> FailsVm(env, bc, w)
  {
    var f := Compile(bc, base).blocks;
    if k: nat :| RunVm(env, bc, StartVm(env, w), k).Failed? {
      var steps := Simulates(env, bc, base, w, k);
      assert Run(env, f, Start(w), steps).Wrong?;
    }
    if steps: nat :| Run(env, f, Start(w), steps).Wrong? {
      var more := Simulates(env, bc, base, w, steps);
      RunSplit(env, f, Start(w), steps, more - steps);
      RunFinal(env, f, Run(env, f, Start(w), steps), more - steps);
      assert RunVm(env, bc, StartVm(env, w), steps).Failed?;
    }
  }
}
