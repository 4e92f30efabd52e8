// What each builder call on Ruby values does, and the proof that its instructions do exactly that. None of these
// calls touches the memory of the running function: only registers and the interpreter's world.

module ValueCode {
  import opened Options
  import opened Words
  import opened IR
  import opened Machine
  import opened StackMachine
  import opened Emission

  function ValOf(env: Env, a: Ref, outs: seq<Val>): Val {
    match a
    case Res(k) => if k < |outs| then outs[k] else Int(I1, Norm(I1, 0))
    case Num(ty, n) => Int(ty, Norm(ty, n))
    case Self => env.self
    case StackBase => Cell(0, 0)
  }

  function ValsOf(env: Env, args: seq<Ref>, outs: seq<Val>): (vs: seq<Val>)
    ensures |vs| == |args|
  {
    seq(|args|, i requires 0 <= i < |args| => ValOf(env, args[i], outs))
  }

  function Untagged(v: Val): Option<Val> {
    if IsWord(v) then Some(Int(WORD, Untag(v))) else None
  }

  function Tagged(v: Val): Option<Val> {
    if IsWord(v) then Some(Tag(Norm(WORD, v.n))) else None
  }

  function LengthOf(ary: Val, w: World): Option<Val> {
    if IsWord(ary) && Norm(WORD, ary.n) in w.arrays
    then Some(WordVal(|w.arrays[Norm(WORD, ary.n)]|)) else None
  }

  function ElementOf(ary: Val, idx: Val, w: World): Option<Val> {
    if !IsWord(ary) || !idx.Int? || Norm(WORD, ary.n) !in w.arrays then None
    else
      var a, i := w.arrays[Norm(WORD, ary.n)], Signed(idx.ty, idx.n);
      if 0 <= i < |a| then Some(WordVal(a[i])) else None
  }

  function WithElement(ary: Val, idx: Val, v: Val, w: World): Option<World> {
    if !IsWord(ary) || !idx.Int? || !IsWord(v) || Norm(WORD, ary.n) !in w.arrays then None
    else
      var addr, i := Norm(WORD, ary.n), Signed(idx.ty, idx.n);
      var a := w.arrays[addr];
      if 0 <= i < |a| then Some(w.(arrays := w.arrays[addr := a[i := Norm(WORD, v.n)]])) else None
  }

  function Giving(v: Option<Val>, w: World): Option<(Val, World)> {
    if v.Some? then Some((v.value, w)) else None
  }

  /** The calls that touch the memory of the running function. */
  predicate IsMemoryCall(c: BCall) {
    c.PushVal? || c.PopVal? || c.PeekVal? || c.TopN? || c.GetSlot? || c.SetSlot?
  }

  /** The meaning of all other calls. */
  function ValueSem(env: Env, c: BCall, outs: seq<Val>, w: World): Option<(Val, World)> {
    match c
    case Fix2Int(v) => Giving(Untagged(ValOf(env, v, outs)), w)
    case Num2Fix(v) => Giving(Tagged(ValOf(env, v, outs)), w)
    case BinOf(op, x, y) => Giving(EvalBin(op, ValOf(env, x, outs), ValOf(env, y, outs)), w)
    case IcmpOf(pred, x, y) => Giving(EvalIcmp(pred, ValOf(env, x, outs), ValOf(env, y, outs)), w)
    case ToLong(v) => Giving(EvalCast(ValOf(env, v, outs), WORD, false), w)
    case ALen(a) => Giving(LengthOf(ValOf(env, a, outs), w), w)
    case ARef(a, i) => Giving(ElementOf(ValOf(env, a, outs), ValOf(env, i, outs), w), w)
    case ASet(a, i, v) =>
      var w' := WithElement(ValOf(env, a, outs), ValOf(env, i, outs), ValOf(env, v, outs), w);
      if w'.Some? then Some((Undef, w'.value)) else None
    case Invoke(callee, args) => Some(CallRuntime(env.rt, callee, ValsOf(env, args, outs), w))
    case _ => None
  }

  // ---------- registers ----------

  predicate Below(o: Operand, r: nat) {
    o.Reg? ==> o.id < r
  }

  predicate Holding(o: Operand, v: Val, regs: map<nat, Val>) {
    o.Reg? && o.id in regs && regs[o.id] == v
  }

  /** Registers below r keep their values. */
  predicate Keeps(st: State, st': State, r: nat) {
    forall id: nat :: id < r && id in st.regs ==> id in st'.regs && st'.regs[id] == st.regs[id]
  }

  predicate OutsHeld(env: Env, outs: seq<Operand>, vals: seq<Val>, regs: map<nat, Val>, r: nat) {
    |outs| == |vals|
    && forall k :: 0 <= k < |outs| ==> Below(outs[k], r) && Eval(env, outs[k], regs) == Some(vals[k])
  }

  lemma EvalKept(env: Env, o: Operand, st: State, st': State, r: nat, x: Val)
    requires Eval(env, o, st.regs) == Some(x) && Below(o, r) && Keeps(st, st', r)
    ensures Eval(env, o, st'.regs) == Some(x)
  {
  }

  lemma OutsKept(env: Env, outs: seq<Operand>, vals: seq<Val>, st: State, st': State, r: nat, r': nat, out: nat, v: Val)
    requires OutsHeld(env, outs, vals, st.regs, r) && Keeps(st, st', r) && Holding(Reg(out), v, st'.regs)
    requires r <= out < r'
    ensures OutsHeld(env, outs + [Reg(out)], vals + [v], st'.regs, r')
  {
  }

  /** Code that ran from st ended with the value and the world expected, the value in register out, memory untouched. */
  predicate Yields(res: Result, st: State, r: nat, out: nat, want: Option<(Val, World)>) {
    if want.None? then res.Stuck?
    else res.Fell? && res.st.mem == st.mem && res.st.world == want.value.1 && Keeps(st, res.st, r)
         && Holding(Reg(out), want.value.0, res.st.regs)
  }

  // ---------- one instruction at a time ----------

  /** Instruction k has run, leaving v in its register, everything before it in place, and the memory alone. */
  predicate Ran(env: Env, code: Block, k: nat, prev: nat, st: State, st': State, v: Val)
    requires k < |code|
  {
    Exec(env, code, k, prev, st) == Exec(env, code, k + 1, prev, st')
    && Holding(Reg(code[k].id), v, st'.regs) && Keeps(st, st', code[k].id)
  }

  /** A state of the same function: the registers below r, the memory and the world are as in st0. */
  predicate Near(st0: State, st: State, r: nat) {
    Keeps(st0, st, r) && st.mem == st0.mem && st.world == st0.world
  }

  lemma PureStep(env: Env, code: Block, k: nat, prev: nat, st0: State, st: State, r: nat, v: Val) returns (st': State)
    requires Near(st0, st, r) && k < |code| && r <= code[k].id && Pure(env, code[k].op, st.regs) == Some(v)
    ensures Ran(env, code, k, prev, st, st', v) && Near(st0, st', r)
  {
    st' := st.(regs := st.regs[code[k].id := v]);
    DoPure(env, code, k, prev, st, v);
  }

  lemma LoadStep(env: Env, code: Block, k: nat, prev: nat, st0: State, st: State, r: nat, q: Val, v: Val)
    returns (st': State)
    requires Near(st0, st, r) && k < |code| && r <= code[k].id && code[k].op.Load?
    requires Eval(env, code[k].op.p, st.regs) == Some(q) && LoadFrom(q, st.mem, st.world) == Some(v)
    ensures Ran(env, code, k, prev, st, st', v) && Near(st0, st', r)
  {
    st' := st.(regs := st.regs[code[k].id := v]);
    DoLoad(env, code, k, prev, st, q, v);
  }

  lemma {:induction false} PureFails(env: Env, code: Block, k: nat, prev: nat, st: State)
    requires k < |code| && code[k].op.IsPure() && Pure(env, code[k].op, st.regs).None?
    ensures Exec(env, code, k, prev, st) == Stuck
  {
    DoStuck(env, code, k, prev, st);
  }

  lemma {:induction false} Conclude(env: Env, code: Block, prev: nat, st0: State, st: State, r: nat, v: Val)
    requires |code| > 0 && Near(st0, st, r) && Holding(Reg(code[|code| - 1].id), v, st.regs)
    requires Exec(env, code, 0, prev, st0) == Exec(env, code, |code|, prev, st)
    ensures Yields(Exec(env, code, 0, prev, st0), st0, r, code[|code| - 1].id, Some((v, st0.world)))
  {
  }

  // ---------- tags ----------

  lemma {:induction false} XorFlagEven(e: nat)
    requires e % 2 == 0
    ensures XorBits(1, e) == e + 1
  {
    assert XorBits(0, e / 2) == e / 2;
  }

  lemma OneBit()
    ensures Norm(WORD, 1) == 1 && Pow2(1) == 2
  {
    assert Pow2(0) == 1;
  }

  lemma EvenWord(e: int)
    requires 0 <= e < Modulus(WORD) && e % 2 == 0
    ensures Norm(WORD, e + 1) == e + 1 && Norm(WORD, e) == e
  {
  }

  /** A residue doubled stays even, so setting the flag bit is adding 1. */
  lemma TagBits(n: int)
    ensures Norm(WORD, 2 * n) % 2 == 0
    ensures Norm(WORD, 2 * n) + 1 == Norm(WORD, 2 * n + 1)
  {
    var q := NormSplit(WORD, 2 * n);
    EvenMinusEven(n, q);
    EvenWord(Norm(WORD, 2 * n));
    NormShift(WORD, Norm(WORD, 2 * n) + 1, q);
    hide Norm, Modulus;
  }

  lemma EvenMinusEven(n: int, q: int)
    ensures (2 * n - q * Modulus(WORD)) % 2 == 0
  {
    var half := Modulus(WORD) / 2;
    assert Modulus(WORD) == 2 * half;
    assert 2 * n - q * (2 * half) == 2 * (n - q * half);
    hide Modulus;
  }

  lemma TagEvals(x: Val)
    requires IsWord(x)
    ensures var e := Norm(WORD, 2 * Norm(WORD, x.n));
      EvalBin(Shl, x, Int(WORD, Norm(WORD, 1))) == Some(Int(WORD, e))
      && EvalBin(Xor, Int(WORD, Norm(WORD, 1)), Int(WORD, e)) == Some(Tag(Norm(WORD, x.n)))
  {
    OneBit();
    var e := Norm(WORD, 2 * Norm(WORD, x.n));
    TagBits(Norm(WORD, x.n));
    NormNorm(WORD, 2 * Norm(WORD, x.n));
    XorFlagEven(e);
    hide Norm;
  }

  lemma {:induction false} Fix2IntRuns(env: Env, r: nat, v: Operand, x: Val, prev: nat, st: State)
    requires Below(v, r) && Eval(env, v, st.regs) == Some(x)
    ensures Yields(Exec(env, Number(Fix2IntOps(v), r), 0, prev, st), st, r, r + 1, Giving(Untagged(x), st.world))
  {
    var code := Number(Fix2IntOps(v), r);
    OneBit();
    if IsWord(x) {
      var s1 := PureStep(env, code, 0, prev, st, st, r, Pure(env, code[0].op, st.regs).value);
      var s2 := PureStep(env, code, 1, prev, st, s1, r, Int(WORD, Untag(x)));
      Conclude(env, code, prev, st, s2, r, Int(WORD, Untag(x)));
    } else {
      PureFails(env, code, 0, prev, st);
    }
  }

  lemma {:induction false} Num2FixRuns(env: Env, r: nat, v: Operand, x: Val, prev: nat, st: State)
    requires Below(v, r) && Eval(env, v, st.regs) == Some(x)
    ensures Yields(Exec(env, Number(Num2FixOps(r, v), r), 0, prev, st), st, r, r + 1, Giving(Tagged(x), st.world))
  {
    var code := Number(Num2FixOps(r, v), r);
    if IsWord(x) {
      var e := Int(WORD, Norm(WORD, 2 * Norm(WORD, x.n)));
      TagEvals(x);
      hide EvalBin, Tag, Norm;
      var s1 := PureStep(env, code, 0, prev, st, st, r, e);
      var s2 := PureStep(env, code, 1, prev, st, s1, r, Tag(Norm(WORD, x.n)));
      Conclude(env, code, prev, st, s2, r, Tag(Norm(WORD, x.n)));
    } else {
      PureFails(env, code, 0, prev, st);
    }
  }

  // ---------- arrays ----------

  lemma {:induction false} ALenRuns(env: Env, r: nat, a: Operand, x: Val, prev: nat, st: State)
    requires Below(a, r) && Eval(env, a, st.regs) == Some(x)
    ensures Yields(Exec(env, Number(ALenOps(r, a), r), 0, prev, st), st, r, r + 2,
                   Giving(LengthOf(x, st.world), st.world))
  {
    var code := Number(ALenOps(r, a), r);
    if IsWord(x) {
      var addr := Norm(WORD, x.n);
      var s1 := PureStep(env, code, 0, prev, st, st, r, ArrayHeader(addr));
      var s2 := PureStep(env, code, 1, prev, st, s1, r, ArrayLen(addr));
      if addr in st.world.arrays {
        var s3 := LoadStep(env, code, 2, prev, st, s2, r, ArrayLen(addr), WordVal(|st.world.arrays[addr]|));
        Conclude(env, code, prev, st, s3, r, WordVal(|st.world.arrays[addr]|));
      } else {
        DoStuck(env, code, 2, prev, s2);
      }
    } else {
      PureFails(env, code, 0, prev, st);
    }
  }

  /** The address of an element, as aref and aset compute it. */
  predicate IsSlotCode(code: Block, r: nat, a: Operand, i: Operand) {
    |code| == 5 && code[0] == Instr(r, IntToPtr(a)) && code[1] == Instr(r + 1, StructGep(Reg(r), 3))
    && code[2] == Instr(r + 2, Load(Reg(r + 1))) && code[3] == Instr(r + 3, Gep(Reg(r + 2), i)) && code[4].id == r + 4
  }

  lemma SlotRuns(env: Env, code: Block, r: nat, a: Operand, i: Operand, x: Val, y: Val, prev: nat, st: State)
    returns (st': State)
    requires Below(i, r) && Eval(env, a, st.regs) == Some(x) && Eval(env, i, st.regs) == Some(y)
    requires IsSlotCode(code, r, a, i)
    ensures if IsWord(x) && y.Int? && Norm(WORD, x.n) in st.world.arrays
      then Exec(env, code, 0, prev, st) == Exec(env, code, 4, prev, st') && Near(st, st', r)
           && Holding(Reg(r + 3), Slot(Norm(WORD, x.n), Signed(y.ty, y.n)), st'.regs)
      else Exec(env, code, 0, prev, st) == Stuck
  {
    hide Exec, Norm, Signed;
    st' := st;
    if !IsWord(x) {
      PureFails(env, code, 0, prev, st);
      return;
    }
    var addr := Norm(WORD, x.n);
    var s1 := PureStep(env, code, 0, prev, st, st, r, ArrayHeader(addr));
    var s2 := PureStep(env, code, 1, prev, st, s1, r, ArrayData(addr));
    if addr !in st.world.arrays {
      DoStuck(env, code, 2, prev, s2);
    } else {
      var s3 := LoadStep(env, code, 2, prev, st, s2, r, ArrayData(addr), Slot(addr, 0));
      if y.Int? {
        st' := PureStep(env, code, 3, prev, st, s3, r, Slot(addr, Signed(y.ty, y.n)));
      } else {
        PureFails(env, code, 3, prev, s3);
      }
    }
  }

  lemma {:induction false} ARefRuns(env: Env, r: nat, a: Operand, i: Operand, x: Val, y: Val, prev: nat, st: State)
    requires Below(a, r) && Below(i, r) && Eval(env, a, st.regs) == Some(x) && Eval(env, i, st.regs) == Some(y)
    ensures Yields(Exec(env, Number(ARefOps(r, a, i), r), 0, prev, st), st, r, r + 4,
                   Giving(ElementOf(x, y, st.world), st.world))
  {
    var code := Number(ARefOps(r, a, i), r);
    var s4 := SlotRuns(env, code, r, a, i, x, y, prev, st);
    hide Exec, Norm, Signed;
    if IsWord(x) && y.Int? && Norm(WORD, x.n) in st.world.arrays {
      if ElementOf(x, y, st.world).Some? {
        var v := ElementOf(x, y, st.world).value;
        var s5 := LoadStep(env, code, 4, prev, st, s4, r, Slot(Norm(WORD, x.n), Signed(y.ty, y.n)), v);
        Conclude(env, code, prev, st, s5, r, v);
      } else {
        DoStuck(env, code, 4, prev, s4);
      }
    }
  }

  lemma {:induction false} ASetRuns(env: Env, r: nat, a: Operand, i: Operand, v: Operand, x: Val, y: Val, z: Val,
                                    prev: nat, st: State)
    requires Below(a, r) && Below(i, r) && Below(v, r)
    requires Eval(env, a, st.regs) == Some(x) && Eval(env, i, st.regs) == Some(y) && Eval(env, v, st.regs) == Some(z)
    ensures var w := WithElement(x, y, z, st.world);
      Yields(Exec(env, Number(ASetOps(r, a, i, v), r), 0, prev, st), st, r, r + 4,
             if w.Some? then Some((Undef, w.value)) else None)
  {
    var code := Number(ASetOps(r, a, i, v), r);
    var s4 := SlotRuns(env, code, r, a, i, x, y, prev, st);
    hide Norm, Signed;
    if IsWord(x) && y.Int? && Norm(WORD, x.n) in st.world.arrays {
      EvalKept(env, v, st, s4, r, z);
      var w := WithElement(x, y, z, st.world);
      if w.Some? {
        DoStore(env, code, 4, prev, s4, z, Slot(Norm(WORD, x.n), Signed(y.ty, y.n)), st.mem, w.value);
      } else {
        DoStuck(env, code, 4, prev, s4);
      }
    }
  }

  // ---------- every call ----------

  /** An instruction that touches registers only, alone. */
  lemma {:induction false} OnePure(env: Env, op: Op, r: nat, prev: nat, st: State)
    requires op.IsPure()
    ensures Yields(Exec(env, Number([op], r), 0, prev, st), st, r, r, Giving(Pure(env, op, st.regs), st.world))
  {
    var code := Number([op], r);
    if Pure(env, op, st.regs).Some? {
      var s1 := PureStep(env, code, 0, prev, st, st, r, Pure(env, op, st.regs).value);
      Conclude(env, code, prev, st, s1, r, Pure(env, op, st.regs).value);
    } else {
      PureFails(env, code, 0, prev, st);
    }
  }

  lemma {:induction false} OneCall(env: Env, callee: Callee, args: seq<Operand>, xs: seq<Val>, r: nat, prev: nat,
                                   st: State)
    requires EvalAll(env, args, st.regs) == Some(xs)
    ensures Yields(Exec(env, Number([Op.Call(callee, args)], r), 0, prev, st), st, r, r,
                   Some(CallRuntime(env.rt, callee, xs, st.world)))
  {
    var code := Number([Op.Call(callee, args)], r);
    var (v, w) := CallRuntime(env.rt, callee, xs, st.world);
    var s1 := State(st.regs[r := v], st.mem, w);
    assert Step(env, code[0], prev, st) == Fell(s1);
    ExecEnd(env, code, prev, s1);
  }

  lemma {:induction false} ExecTerminator(env: Env, t: Op, r: nat, prev: nat, st: State)
    requires t.IsTerminator()
    ensures Exec(env, Number([t], r), 0, prev, st) == Step(env, Instr(r, t), prev, st)
  {
    var code := Number([t], r);
    assert code[0] == Instr(r, t);
    assert !Step(env, code[0], prev, st).Fell?;
  }

  lemma BranchOn(env: Env, c: Operand, yes: nat, no: nat, r: nat, prev: nat, st: State, b: bool)
    requires Eval(env, c, st.regs) == Some(Truth(b))
    ensures Step(env, Instr(r, CondBr(c, yes, no)), prev, st) == Jumped(if b then yes else no, st)
  {
  }

  /** The argument is available, and has the value that the meaning gives it. */
  predicate RefHeld(env: Env, h: Handles, a: Ref, outs: seq<Operand>, vals: seq<Val>, r: nat, st: State) {
    Eval(env, OperandOf(h, a, outs), st.regs) == Some(ValOf(env, a, vals)) && Below(OperandOf(h, a, outs), r)
  }

  predicate RefsHeld(env: Env, h: Handles, c: BCall, outs: seq<Operand>, vals: seq<Val>, r: nat, st: State) {
    match c
    case Fix2Int(v) => RefHeld(env, h, v, outs, vals, r, st)
    case Num2Fix(v) => RefHeld(env, h, v, outs, vals, r, st)
    case BinOf(_, x, y) => RefHeld(env, h, x, outs, vals, r, st) && RefHeld(env, h, y, outs, vals, r, st)
    case IcmpOf(_, x, y) => RefHeld(env, h, x, outs, vals, r, st) && RefHeld(env, h, y, outs, vals, r, st)
    case ToLong(v) => RefHeld(env, h, v, outs, vals, r, st)
    case ALen(a) => RefHeld(env, h, a, outs, vals, r, st)
    case ARef(a, i) => RefHeld(env, h, a, outs, vals, r, st) && RefHeld(env, h, i, outs, vals, r, st)
    case ASet(a, i, v) =>
      RefHeld(env, h, a, outs, vals, r, st) && RefHeld(env, h, i, outs, vals, r, st)
        && RefHeld(env, h, v, outs, vals, r, st)
    case Invoke(_, args) => forall i :: 0 <= i < |args| ==> RefHeld(env, h, args[i], outs, vals, r, st)
    case _ => true
  }

  lemma {:induction false} InvokeRuns(env: Env, h: Handles, r: nat, c: BCall, outs: seq<Operand>, vals: seq<Val>,
                                      prev: nat, st: State)
    requires c.Invoke? && RefsHeld(env, h, c, outs, vals, r, st)
    ensures Yields(Exec(env, Number(Ops(h, r, c, outs), r), 0, prev, st), st, r, r + |Ops(h, r, c, outs)| - 1,
                   ValueSem(env, c, vals, st.world))
  {
    var args := Operands(h, c.args, outs);
    forall i | 0 <= i < |args| ensures Eval(env, args[i], st.regs) == Some(ValOf(env, c.args[i], vals)) {
      assert RefHeld(env, h, c.args[i], outs, vals, r, st);
    }
    var xs := EvalAll(env, args, st.regs);
    assert xs.Some?;
    assert xs.value == ValsOf(env, c.args, vals);
    OneCall(env, c.callee, args, ValsOf(env, c.args, vals), r, prev, st);
  }

  /** The instructions of every call that leaves memory alone do what the call means. */
  lemma {:induction false} ValueCallRuns(env: Env, h: Handles, r: nat, c: BCall, outs: seq<Operand>, vals: seq<Val>,
                                         prev: nat, st: State)
    requires !IsMemoryCall(c) && RefsHeld(env, h, c, outs, vals, r, st)
    ensures Yields(Exec(env, Number(Ops(h, r, c, outs), r), 0, prev, st), st, r, r + |Ops(h, r, c, outs)| - 1,
                   ValueSem(env, c, vals, st.world))
  {
    hide EvalBin, EvalIcmp, EvalCast, Exec, Number, Step, Yields, OperandOf, ValOf, Norm, Signed, Eval;
    match c
    case Fix2Int(v) => Fix2IntRuns(env, r, OperandOf(h, v, outs), ValOf(env, v, vals), prev, st);
    case Num2Fix(v) => Num2FixRuns(env, r, OperandOf(h, v, outs), ValOf(env, v, vals), prev, st);
    case BinOf(op, x, y) => OnePure(env, Bin(op, OperandOf(h, x, outs), OperandOf(h, y, outs)), r, prev, st);
    case IcmpOf(p, x, y) => OnePure(env, Icmp(p, OperandOf(h, x, outs), OperandOf(h, y, outs)), r, prev, st);
    case ToLong(v) => OnePure(env, IntCast(OperandOf(h, v, outs), WORD, false), r, prev, st);
    case ALen(a) => ALenRuns(env, r, OperandOf(h, a, outs), ValOf(env, a, vals), prev, st);
    case ARef(a, i) =>
      ARefRuns(env, r, OperandOf(h, a, outs), OperandOf(h, i, outs), ValOf(env, a, vals), ValOf(env, i, vals), prev,
               st);
    case ASet(a, i, v) =>
      ASetRuns(env, r, OperandOf(h, a, outs), OperandOf(h, i, outs), OperandOf(h, v, outs),
               ValOf(env, a, vals), ValOf(env, i, vals), ValOf(env, v, vals), prev, st);
    case Invoke(_, _) => InvokeRuns(env, h, r, c, outs, vals, prev, st);
  }
}
