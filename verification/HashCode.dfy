// newhash: one instruction that becomes a loop over three further blocks.

module HashCode {
  import opened Options
  import opened Words
  import opened IR
  import opened Machine
  import opened StackMachine
  import opened Emission
  import opened ValueCode
  import opened StackCode
  import opened InsnCode
  import opened Codegen

  // ---------- one turn of the loop ----------

  /** A loop index that the loop body can meet. */
  predicate Index(idx: int) {
    0 < idx < 0x8000_0000
  }

  /** Can the body read its two cells? The second is above the top of the stack when idx is 1. */
  predicate CanRead(m: Mem, idx: int) {
    MemOk(m) && 0 < idx <= m.depth && m.depth - idx + 1 < CELLS
  }

  function Index32(n: int): Val {
    Int(I32, Norm(I32, n))
  }

  lemma SubArith(idx: int, k: int)
    requires 0 <= k < 0x8000_0000
    ensures EvalBin(Sub, Index32(idx), Int(I32, Norm(I32, k))) == Some(Index32(idx - k))
  {
    assert Norm(I32, k) == k;
    NormNorm(I32, idx);
    NormAffine(I32, 1, idx, -k);
    hide Norm;
  }

  lemma SignArith(idx: int)
    requires Index(idx)
    ensures EvalIcmp(Sgt, Index32(idx - 2), Int(I32, Norm(I32, 0))) == Some(Truth(idx > 2))
  {
    assert Signed(I32, Norm(I32, idx - 2)) == idx - 2;
    assert Signed(I32, Norm(I32, 0)) == 0;
    hide Norm, Signed;
  }

  lemma IndexArith(idx: int)
    requires Index(idx)
    ensures EvalBin(Sub, Index32(idx), Int(I32, Norm(I32, 2))) == Some(Index32(idx - 2))
    ensures EvalBin(Sub, Index32(idx), Int(I32, Norm(I32, 1))) == Some(Index32(idx - 1))
    ensures EvalIcmp(Sgt, Index32(idx - 2), Int(I32, Norm(I32, 0))) == Some(Truth(idx > 2))
  {
    hide *;
    SubArith(idx, 2);
    SubArith(idx, 1);
    SignArith(idx);
  }

  lemma NegativeIndex(k: int)
    requires 0 <= k + 1 < 0x8000_0000
    ensures Signed(I32, -1 - Norm(I32, k)) == -1 - k
  {
    NormAffine(I32, -1, k, -1);
    var q := NormSplit(I32, -1 - k);
    if k == -1 {
      QuotientUnique(0x1_0000_0000, q, Norm(I32, -1 - k), 0, 0);
    } else {
      QuotientUnique(0x1_0000_0000, q, Norm(I32, -1 - k), -1, 0xFFFF_FFFF - k);
    }
    hide Norm;
  }

  lemma TopArith(m: Mem, k: int)
    requires MemOk(m) && 0 <= k + 1 < 0x8000_0000
    ensures ReadTop(m, Index32(k)) == ReadCell(m, m.depth - 1 - k)
  {
    NegativeIndex(k);
    hide Norm, Signed;
  }

  /** The results of one turn: the next index, two offsets, key, value, and whether to go on. */
  function TurnResults(hash: Val, m: Mem, idx: int, ret: Val): seq<Val>
    requires CanRead(m, idx)
  {
    TurnIndices(hash, idx)
    + [m.cells[m.depth - idx]] + [m.cells[m.depth - idx + 1]] + [ret] + [Truth(idx > 2)]
  }

  function TurnCall(env: Env, hash: Val, m: Mem, idx: int, w: World): (Val, World)
    requires CanRead(m, idx)
  {
    CallRuntime(env.rt, HashAset, [hash, m.cells[m.depth - idx], m.cells[m.depth - idx + 1]], w)
  }

  function TurnIndices(hash: Val, idx: int): seq<Val> {
    [hash, Index32(idx)] + [Index32(idx - 2)] + [Index32(idx - 1)] + [Index32(idx - 2)]
  }

  lemma {:induction false} TurnStarts(env: Env, cs: seq<BCall>, hash: Val, m: Mem, idx: int)
    requires MemOk(m) && Index(idx) && |cs| == 7
    requires cs[0] == BinOf(Sub, Res(1), Num32(2)) && cs[1] == BinOf(Sub, Res(1), Num32(1))
    requires cs[2] == BinOf(Sub, Res(1), Num32(2))
    ensures Ready(env, cs, 3, TurnIndices(hash, idx), m)
    ensures RunCalls(env, cs, 0, [hash, Index32(idx)], m) == RunCalls(env, cs, 3, TurnIndices(hash, idx), m)
  {
    IndexArith(idx);
    var o0 := [hash, Index32(idx)];
    var o1 := o0 + [Index32(idx - 2)];
    hide RunCalls, EvalBin, EvalIcmp, Norm, Index32, Truth;
    ValueStep(env, cs, 0, o0, m, Index32(idx - 2));
    ValueStep(env, cs, 1, o1, m, Index32(idx - 1));
    ValueStep(env, cs, 2, o1 + [Index32(idx - 1)], m, Index32(idx - 2));
  }

  lemma {:induction false} TurnReads(env: Env, cs: seq<BCall>, o3: seq<Val>, m: Mem, idx: int)
    requires Ready(env, cs, 3, o3, m) && Index(idx) && |cs| == 7 && cs[3] == TopN(Res(3)) && cs[4] == TopN(Res(4))
    requires |o3| == 5 && o3[3] == Index32(idx - 1) && o3[4] == Index32(idx - 2)
    ensures if !CanRead(m, idx) then RunCalls(env, cs, 3, o3, m) == None
      else
        var o5 := o3 + [m.cells[m.depth - idx]] + [m.cells[m.depth - idx + 1]];
        Ready(env, cs, 5, o5, m) && RunCalls(env, cs, 3, o3, m) == RunCalls(env, cs, 5, o5, m)
  {
    TopArith(m, idx - 1);
    TopArith(m, idx - 2);
    hide RunCalls, ReadTop, Norm, Index32;
    Next(env, cs, 3, o3, m);
    if idx <= m.depth {
      Next(env, cs, 4, o3 + [m.cells[m.depth - idx]], m);
    }
  }

  lemma {:induction false} TurnEnds(env: Env, cs: seq<BCall>, o5: seq<Val>, m: Mem, idx: int)
    requires Ready(env, cs, 5, o5, m) && Index(idx) && |cs| == 7
    requires cs[5] == Invoke(HashAset, [Res(0), Res(5), Res(6)]) && cs[6] == IcmpOf(Sgt, Res(2), Num32(0))
    requires |o5| == 7 && o5[2] == Index32(idx - 2)
    ensures var (ret, w) := CallRuntime(env.rt, HashAset, [o5[0], o5[5], o5[6]], m.world);
      RunCalls(env, cs, 5, o5, m) == Some((o5 + [ret] + [Truth(idx > 2)], m.(world := w)))
  {
    IndexArith(idx);
    hide RunCalls, EvalBin, EvalIcmp, Norm, Index32, Truth;
    assert ValsOf(env, cs[5].args, o5) == [o5[0], o5[5], o5[6]];
    InvokeStep(env, cs, 5, o5, m, [o5[0], o5[5], o5[6]]);
    var (ret, w) := CallRuntime(env.rt, HashAset, [o5[0], o5[5], o5[6]], m.world);
    ValueStep(env, cs, 6, o5 + [ret], m.(world := w), Truth(idx > 2));
    Last(env, cs, o5 + [ret] + [Truth(idx > 2)], m.(world := w));
  }

  lemma {:induction false} TurnCode(env: Env, cs: seq<BCall>, hash: Val, m: Mem, idx: int)
    requires MemOk(m) && Index(idx) && |cs| == 7
    requires cs[0] == BinOf(Sub, Res(1), Num32(2)) && cs[1] == BinOf(Sub, Res(1), Num32(1))
    requires cs[2] == BinOf(Sub, Res(1), Num32(2)) && cs[3] == TopN(Res(3)) && cs[4] == TopN(Res(4))
    requires cs[5] == Invoke(HashAset, [Res(0), Res(5), Res(6)]) && cs[6] == IcmpOf(Sgt, Res(2), Num32(0))
    ensures RunCalls(env, cs, 0, [hash, Index32(idx)], m)
         == if !CanRead(m, idx) then None
            else
              var (ret, w) := TurnCall(env, hash, m, idx, m.world);
              Some((TurnResults(hash, m, idx, ret), m.(world := w)))
  {
    hide RunCalls, Index32, Truth, Ready;
    var o3 := TurnIndices(hash, idx);
    TurnStarts(env, cs, hash, m, idx);
    TurnReads(env, cs, o3, m, idx);
    if CanRead(m, idx) {
      TurnEnds(env, cs, o3 + [m.cells[m.depth - idx]] + [m.cells[m.depth - idx + 1]], m, idx);
    }
  }

  lemma {:induction false} TurnMeans(env: Env, hash: Val, m: Mem, idx: int)
    requires MemOk(m) && Index(idx)
    ensures RunCalls(env, LoopCalls(), 0, [hash, Index32(idx)], m)
         == if !CanRead(m, idx) then None
            else
              var (ret, w) := TurnCall(env, hash, m, idx, m.world);
              Some((TurnResults(hash, m, idx, ret), m.(world := w)))
  {
    hide RunCalls;
    TurnCode(env, LoopCalls(), hash, m, idx);
  }

  // ---------- blocks ----------

  /** Code of a list of calls, closed by a terminator. */
  lemma CallsThen(env: Env, h: Handles, r: nat, cs: seq<BCall>, outs: seq<Operand>, vals: seq<Val>, t: Op,
                  prev: nat, st: State, m: Mem) returns (st1: State)
    requires Rel(h, st, m) && HandlesBelow(h, r) && OutsHeld(env, outs, vals, st.regs, r) && t.IsTerminator()
    ensures var ops, sem := AllOps(h, r, cs, 0, outs), RunCalls(env, cs, 0, vals, m);
      if sem.None? then Exec(env, Number(ops + [t], r), 0, prev, st) == Stuck
      else Exec(env, Number(ops + [t], r), 0, prev, st) == Step(env, Instr(r + |ops|, t), prev, st1)
           && Rel(h, st1, sem.value.1) && Keeps(st, st1, r)
           && OutsHeld(env, AllOuts(h, r, cs, 0, outs), sem.value.0, st1.regs, r + |ops|)
  {
    hide AllOps, AllOuts, RunCalls, Exec, Step, Rel, Keeps, OutsHeld, HandlesBelow;
    var ops := AllOps(h, r, cs, 0, outs);
    CallsRun(env, h, r, cs, 0, outs, vals, prev, st, m);
    NumberAppend(ops, [t], r);
    ExecAppend(env, Number(ops, r), Number([t], r + |ops|), prev, st);
    var res := Exec(env, Number(ops, r), 0, prev, st);
    st1 := if res.Fell? then res.st else st;
    if res.Fell? {
      ExecTerminator(env, t, r + |ops|, prev, st1);
    }
  }

  // ---------- the loop ----------

  /** Control enters the loop block with the given index: from the head, or from the block itself. */
  predicate Enters(r: nat, x: nat, count: int, idx: int, prev: nat, regs: map<nat, Val>) {
    (prev == x && idx == count) || (prev == x + 1 && Holding(Reg(r + 5), Index32(idx), regs))
  }

  lemma PhiRuns(env: Env, h: Handles, r: nat, x: nat, count: int, idx: int, prev: nat, st: State, m: Mem)
    returns (st1: State)
    requires Rel(h, st, m) && HandlesBelow(h, r) && Enters(r, x, count, idx, prev, st.regs)
    ensures Exec(env, Number([HashPhi(r, x, count)], r + 4), 0, prev, st) == Fell(st1)
    ensures Rel(h, st1, m) && Keeps(st, st1, r + 4) && Holding(Reg(r + 4), Index32(idx), st1.regs)
  {
    var code := Number([HashPhi(r, x, count)], r + 4);
    var inc := [(Const(I32, count), x), (Reg(r + 5), x + 1)];
    assert code[0] == Instr(r + 4, Phi(inc));
    assert inc[1..] == [(Reg(r + 5), x + 1)];
    assert Incoming(inc[1..], prev) == if prev == x + 1 then Some(Reg(r + 5)) else None;
    st1 := st.(regs := st.regs[r + 4 := Index32(idx)]);
    assert Step(env, code[0], prev, st) == Fell(st1);
    ExecEnd(env, code, prev, st1);
  }

  lemma PhiThen(env: Env, h: Handles, r: nat, x: nat, count: int, idx: int, rest: seq<Op>, prev: nat, st: State, m: Mem)
    returns (st1: State)
    requires Rel(h, st, m) && HandlesBelow(h, r) && Enters(r, x, count, idx, prev, st.regs)
    ensures Exec(env, Number([HashPhi(r, x, count)] + rest, r + 4), 0, prev, st)
         == Exec(env, Number(rest, r + 5), 0, prev, st1)
    ensures Rel(h, st1, m) && Keeps(st, st1, r + 4) && Holding(Reg(r + 4), Index32(idx), st1.regs)
  {
    hide Exec, Rel, HandlesBelow;
    st1 := PhiRuns(env, h, r, x, count, idx, prev, st, m);
    NumberAppend([HashPhi(r, x, count)], rest, r + 4);
    ExecAppend(env, Number([HashPhi(r, x, count)], r + 4), Number(rest, r + 5), prev, st);
  }

  lemma BodyHolds(h: Handles, r: nat, env: Env, hash: Val, idx: int, st: State)
    requires HandlesBelow(h, r) && Holding(Reg(r), hash, st.regs) && Holding(Reg(r + 4), Index32(idx), st.regs)
    ensures HandlesBelow(h, r + 5)
    ensures OutsHeld(env, [Reg(r), Reg(r + 4)], [hash, Index32(idx)], st.regs, r + 5)
  {
  }

  lemma {:induction false} LoopOpsSplit(h: Handles, r: nat, x: nat, count: int)
    ensures HashLoop(h, r, x, count)
         == [HashPhi(r, x, count)]
            + (AllOps(h, r + 5, LoopCalls(), 0, [Reg(r), Reg(r + 4)]) + [CondBr(Reg(r + 17), x + 1, x + 2)])
  {
  }

  lemma ResultsHeld(env: Env, outs: seq<Operand>, regs: map<nat, Val>, r: nat, r': nat, hash: Val, m: Mem, idx: int,
                    ret: Val)
    requires CanRead(m, idx) && OutsHeld(env, outs, TurnResults(hash, m, idx, ret), regs, r')
    requires |outs| == 9 && outs[2] == Reg(r + 5) && outs[8] == Reg(r + 17)
    ensures Holding(Reg(r + 5), Index32(idx - 2), regs) && Eval(env, Reg(r + 17), regs) == Some(Truth(idx > 2))
  {
    hide Index32, Truth;
    assert TurnResults(hash, m, idx, ret)[2] == Index32(idx - 2);
    assert TurnResults(hash, m, idx, ret)[8] == Truth(idx > 2);
  }

  /** The loop block after its phi. */
  lemma BodyRuns(env: Env, h: Handles, r: nat, x: nat, hash: Val, idx: int, prev: nat, st1: State, m: Mem)
    returns (st': State)
    requires Rel(h, st1, m) && MemOk(m) && HandlesBelow(h, r) && Index(idx)
    requires Holding(Reg(r), hash, st1.regs) && Holding(Reg(r + 4), Index32(idx), st1.regs)
    ensures var code := Number(AllOps(h, r + 5, LoopCalls(), 0, [Reg(r), Reg(r + 4)])
                               + [CondBr(Reg(r + 17), x + 1, x + 2)], r + 5);
      if !CanRead(m, idx) then Exec(env, code, 0, prev, st1) == Stuck
      else Exec(env, code, 0, prev, st1) == Jumped(if idx > 2 then x + 1 else x + 2, st')
           && Rel(h, st', m.(world := TurnCall(env, hash, m, idx, m.world).1)) && Keeps(st1, st', r + 5)
           && Holding(Reg(r + 5), Index32(idx - 2), st'.regs)
  {
    hide *;
    BodyHolds(h, r, env, hash, idx, st1);
    LoopNumbers(h, r);
    var t := CondBr(Reg(r + 17), x + 1, x + 2);
    TurnMeans(env, hash, m, idx);
    IsTerminatorBranch(Reg(r + 17), x + 1, x + 2);
    st' := CallsThen(env, h, r + 5, LoopCalls(), [Reg(r), Reg(r + 4)], [hash, Index32(idx)], t, prev, st1, m);
    if CanRead(m, idx) {
      var ret := TurnCall(env, hash, m, idx, m.world).0;
      ResultsHeld(env, AllOuts(h, r + 5, LoopCalls(), 0, [Reg(r), Reg(r + 4)]), st'.regs, r, r + 18, hash, m, idx, ret);
      BranchOn(env, Reg(r + 17), x + 1, x + 2, r + 18, prev, st', idx > 2);
    }
  }

  lemma IsTerminatorBranch(c: Operand, yes: nat, no: nat)
    ensures CondBr(c, yes, no).IsTerminator()
  {
  }

  /** One run of the loop block. */
  lemma TurnRuns(env: Env, h: Handles, r: nat, x: nat, count: int, hash: Val, idx: int, prev: nat, st: State, m: Mem)
    returns (st': State)
    requires Rel(h, st, m) && HandlesBelow(h, r) && Holding(Reg(r), hash, st.regs) && Index(idx)
    requires Enters(r, x, count, idx, prev, st.regs)
    ensures if !CanRead(m, idx) then Exec(env, Number(HashLoop(h, r, x, count), r + 4), 0, prev, st) == Stuck
      else Exec(env, Number(HashLoop(h, r, x, count), r + 4), 0, prev, st)
             == Jumped(if idx > 2 then x + 1 else x + 2, st')
           && Rel(h, st', m.(world := TurnCall(env, hash, m, idx, m.world).1)) && Keeps(st, st', r + 4)
           && Holding(Reg(r + 5), Index32(idx - 2), st'.regs)
  {
    assert MemOk(m);
    hide Exec, AllOps, Rel, HandlesBelow, Index32, HashLoop, HashPhi, Number, LoopCalls, MemOk;
    LoopOpsSplit(h, r, x, count);
    var rest := AllOps(h, r + 5, LoopCalls(), 0, [Reg(r), Reg(r + 4)]) + [CondBr(Reg(r + 17), x + 1, x + 2)];
    var st1 := PhiThen(env, h, r, x, count, idx, rest, prev, st, m);
    st' := BodyRuns(env, h, r, x, hash, idx, prev, st1, m);
  }

  /** Every turn finds its two cells. */
  predicate LoopOk(m: Mem, idx: int) {
    MemOk(m) && 0 < idx <= m.depth && (idx % 2 == 0 || m.depth < CELLS)
  }

  /** The calls the loop makes from index idx down: the pair at depth idx first. */
  function HashWorld(env: Env, hash: Val, m: Mem, idx: int, w: World): World
    requires LoopOk(m, idx)
    decreases idx
  {
    var w' := TurnCall(env, hash, m, idx, w).1;
    if idx > 2 then HashWorld(env, hash, m, idx - 2, w') else w'
  }

  lemma {:induction false} WorldMoves(env: Env, hash: Val, m: Mem, idx: int, w: World, w': World)
    requires LoopOk(m, idx)
    ensures HashWorld(env, hash, m.(world := w'), idx, w) == HashWorld(env, hash, m, idx, w)
    decreases idx
  {
    if idx > 2 {
      WorldMoves(env, hash, m, idx - 2, TurnCall(env, hash, m, idx, w).1, w');
    }
  }

  /** The whole loop: it ends, after one turn for every pair. */
  lemma {:induction false} LoopRuns(env: Env, f: Func, h: Handles, r: nat, x: nat, count: int, hash: Val, idx: int,
                                    prev: nat, st: State, m: Mem) returns (steps: nat, st': State)
    requires Rel(h, st, m) && HandlesBelow(h, r) && Holding(Reg(r), hash, st.regs) && Index(idx)
    requires Enters(r, x, count, idx, prev, st.regs)
    requires x + 2 < |f| && f[x + 1] == Number(HashLoop(h, r, x, count), r + 4)
    ensures steps == (if LoopOk(m, idx) then (idx + 1) / 2 else steps) && steps >= 1
    ensures if !LoopOk(m, idx) then Run(env, f, At(x + 1, prev, st), steps) == Wrong
      else Run(env, f, At(x + 1, prev, st), steps) == At(x + 2, x + 1, st')
           && Rel(h, st', m.(world := HashWorld(env, hash, m, idx, m.world))) && Keeps(st, st', r + 4)
    decreases idx
  {
    hide Exec, Step, Rel, HandlesBelow, Index32, HashLoop, CallRuntime;
    RunOne(env, f, x + 1, Number(HashLoop(h, r, x, count), r + 4), prev, st);
    var st1 := TurnRuns(env, h, r, x, count, hash, idx, prev, st, m);
    steps, st' := 1, st1;
    if idx > 2 && CanRead(m, idx) {
      var m1 := m.(world := TurnCall(env, hash, m, idx, m.world).1);
      var n: nat;
      n, st' := LoopRuns(env, f, h, r, x, count, hash, idx - 2, x + 1, st1, m1);
      RunSplit(env, f, At(x + 1, prev, st), 1, n);
      steps := 1 + n;
      if LoopOk(m, idx) {
        WorldMoves(env, hash, m, idx - 2, m1.world, m1.world);
      }
    }
  }

  /** For an even count, the loop sets the pairs in the order in which they were pushed. */
  lemma {:induction false} PairsInOrder(env: Env, hash: Val, m: Mem, idx: int, w: World)
    requires LoopOk(m, idx) && idx % 2 == 0
    ensures HashWorld(env, hash, m, idx, w) == SetPairs(env.rt, hash, m.cells[m.depth - idx..m.depth], w)
    decreases idx
  {
    var xs := m.cells[m.depth - idx..m.depth];
    var w' := TurnCall(env, hash, m, idx, w).1;
    assert xs[2..] == m.cells[m.depth - (idx - 2)..m.depth];
    assert SetPairs(env.rt, hash, xs, w) == SetPairs(env.rt, hash, xs[2..], w');
    if idx > 2 {
      PairsInOrder(env, hash, m, idx - 2, w');
    }
  }
}
