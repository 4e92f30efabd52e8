// What each builder call does to the operand stack, the locals and the interpreter, and
// the proof that the instructions it emits do exactly that.

module StackCode {
  import opened Options
  import opened Words
  import opened IR
  import opened Machine
  import opened StackMachine
  import opened Emission
  import opened ValueCode

  /** The memory of a running function: the stack array, how much of it is in use, and the locals. */
  datatype Mem = Mem(cells: seq<Val>, depth: nat, locals: seq<Val>, world: World)

  predicate MemOk(m: Mem) {
    |m.cells| == CELLS && m.depth <= CELLS && |m.locals| == CELLS
  }

  type Outcome = Option<(Val, Mem)>

  function ReadCell(m: Mem, i: int): Outcome {
    if 0 <= i < |m.cells| then Some((m.cells[i], m)) else None
  }

  /** The cell that topn(n) reads: -1 - n from the stack pointer, in 32 bits. */
  function ReadTop(m: Mem, n: Val): Outcome {
    if n.Int? && n.ty == I32 then ReadCell(m, m.depth + Signed(I32, -1 - n.n)) else None
  }

  /** The meaning of a builder call. */
  function CallSem(env: Env, c: BCall, outs: seq<Val>, m: Mem): (r: Outcome)
    ensures MemOk(m) && r.Some? ==> MemOk(r.value.1)
  {
    match c
    case PushVal(v) =>
      if m.depth >= |m.cells| then None
      else Some((Undef, m.(cells := m.cells[m.depth := ValOf(env, v, outs)], depth := m.depth + 1)))
    case PopVal =>
      if !(0 < m.depth <= |m.cells|) then None else Some((m.cells[m.depth - 1], m.(depth := m.depth - 1)))
    case PeekVal(n) => ReadCell(m, m.depth + Signed(WORD, -n))
    case TopN(n) => ReadTop(m, ValOf(env, n, outs))
    case GetSlot(k) =>
      var i := Signed(WORD, k);
      if 0 <= i < |m.locals| then Some((m.locals[i], m)) else None
    case SetSlot(k, v) =>
      var i := Signed(WORD, k);
      if 0 <= i < |m.locals| then Some((Undef, m.(locals := m.locals[i := ValOf(env, v, outs)]))) else None
    case _ =>
      var r := ValueSem(env, c, outs, m.world);
      if r.Some? then Some((r.value.0, m.(world := r.value.1))) else None
  }

  /** The meaning of a list of builder calls: the results of all of them, and the memory. */
  function RunCalls(env: Env, cs: seq<BCall>, k: nat, outs: seq<Val>, m: Mem): (r: Option<(seq<Val>, Mem)>)
    requires k <= |cs|
    ensures r.Some? ==> |r.value.0| == |outs| + |cs| - k && (MemOk(m) ==> MemOk(r.value.1))
    decreases |cs| - k
  {
    if k == |cs| then Some((outs, m))
    else
      var r := CallSem(env, cs[k], outs, m);
      if r.None? then None else RunCalls(env, cs, k + 1, outs + [r.value.0], r.value.1)
  }

  // ---------- the machine state of a compiled function ----------

  predicate HandlesBelow(h: Handles, r: nat) {
    h.stack.Reg? && h.sp.Reg? && h.locals.Reg? && Below(h.stack, r) && Below(h.sp, r) && Below(h.locals, r)
  }

  predicate HandlesHeld(h: Handles, regs: map<nat, Val>) {
    Holding(h.stack, Cell(0, 0), regs) && Holding(h.sp, Cell(1, 0), regs) && Holding(h.locals, Cell(2, 0), regs)
  }

  /** The three alloca'd objects hold the memory m. */
  predicate Rel(h: Handles, st: State, m: Mem) {
    MemOk(m) && HandlesHeld(h, st.regs) && |st.mem| == 3 && |st.mem[1]| == 1
    && st.mem[0] == m.cells && st.mem[1][0] == Cell(0, m.depth) && st.mem[2] == m.locals && st.world == m.world
  }

  /** Code that ran from st ended as the meaning expects, leaving its result in register out. */
  predicate Achieves(res: Result, st: State, h: Handles, r: nat, out: nat, want: Outcome) {
    if want.None? then res.Stuck?
    else res.Fell? && Rel(h, res.st, want.value.1) && Keeps(st, res.st, r)
         && Holding(Reg(out), want.value.0, res.st.regs)
  }

  // ---------- one instruction at a time ----------

  /** The machine stands in memory m, with the registers below r as they were in st0. */
  predicate Here(st0: State, st: State, h: Handles, r: nat, m: Mem) {
    HandlesBelow(h, r) && Rel(h, st, m) && Keeps(st0, st, r)
  }

  lemma StartHere(st: State, h: Handles, r: nat, m: Mem)
    requires Rel(h, st, m) && HandlesBelow(h, r)
    ensures Here(st, st, h, r, m)
  {
  }

  lemma PureStep(env: Env, code: Block, k: nat, prev: nat, st0: State, st: State, h: Handles, r: nat, m: Mem, v: Val)
    returns (st': State)
    requires Here(st0, st, h, r, m) && k < |code| && r <= code[k].id
    requires Pure(env, code[k].op, st.regs) == Some(v)
    ensures Ran(env, code, k, prev, st, st', v) && Here(st0, st', h, r, m)
  {
    st' := st.(regs := st.regs[code[k].id := v]);
    DoPure(env, code, k, prev, st, v);
  }

  lemma LoadStep(env: Env, code: Block, k: nat, prev: nat, st0: State, st: State, h: Handles, r: nat, m: Mem,
                 q: Val, v: Val) returns (st': State)
    requires Here(st0, st, h, r, m) && k < |code| && r <= code[k].id && code[k].op.Load?
    requires Eval(env, code[k].op.p, st.regs) == Some(q) && LoadFrom(q, st.mem, st.world) == Some(v)
    ensures Ran(env, code, k, prev, st, st', v) && Here(st0, st', h, r, m)
  {
    st' := st.(regs := st.regs[code[k].id := v]);
    DoLoad(env, code, k, prev, st, q, v);
  }

  lemma LoadSp(env: Env, code: Block, k: nat, prev: nat, st0: State, st: State, h: Handles, r: nat, m: Mem)
    returns (st': State)
    requires Here(st0, st, h, r, m) && k < |code| && r <= code[k].id && code[k].op == Load(h.sp)
    ensures Ran(env, code, k, prev, st, st', Cell(0, m.depth)) && Here(st0, st', h, r, m)
  {
    st' := LoadStep(env, code, k, prev, st0, st, h, r, m, Cell(1, 0), Cell(0, m.depth));
  }

  lemma LoadCell(env: Env, code: Block, k: nat, prev: nat, st0: State, st: State, h: Handles, r: nat, m: Mem,
                 i: int, q: Operand) returns (st': State)
    requires Here(st0, st, h, r, m) && k < |code| && r <= code[k].id
    requires code[k].op == Load(q) && Holding(q, Cell(0, i), st.regs) && 0 <= i < CELLS
    ensures Ran(env, code, k, prev, st, st', m.cells[i]) && Here(st0, st', h, r, m)
  {
    st' := LoadStep(env, code, k, prev, st0, st, h, r, m, Cell(0, i), m.cells[i]);
  }

  lemma StoreCell(env: Env, code: Block, k: nat, prev: nat, st0: State, st: State, h: Handles, r: nat, m: Mem,
                  i: int, x: Val, q: Operand) returns (st': State)
    requires Here(st0, st, h, r, m) && k < |code| && r <= code[k].id
    requires code[k].op.Store? && code[k].op.p == q && Holding(q, Cell(0, i), st.regs) && 0 <= i < CELLS
    requires Eval(env, code[k].op.v, st.regs) == Some(x)
    ensures Ran(env, code, k, prev, st, st', Undef) && Here(st0, st', h, r, m.(cells := m.cells[i := x]))
  {
    st' := State(st.regs[code[k].id := Undef], st.mem[0 := m.cells[i := x]], st.world);
    DoStore(env, code, k, prev, st, x, Cell(0, i), st'.mem, st'.world);
  }

  lemma StoreSp(env: Env, code: Block, k: nat, prev: nat, st0: State, st: State, h: Handles, r: nat, m: Mem,
                d: nat, q: Operand) returns (st': State)
    requires Here(st0, st, h, r, m) && k < |code| && r <= code[k].id
    requires code[k].op == Store(q, h.sp) && Holding(q, Cell(0, d), st.regs) && d <= CELLS
    ensures Ran(env, code, k, prev, st, st', Undef) && Here(st0, st', h, r, m.(depth := d))
  {
    st' := State(st.regs[code[k].id := Undef], st.mem[1 := st.mem[1][0 := Cell(0, d)]], st.world);
    DoStore(env, code, k, prev, st, Cell(0, d), Cell(1, 0), st'.mem, st'.world);
  }

  lemma GepCell(env: Env, code: Block, k: nat, prev: nat, st0: State, st: State, h: Handles, r: nat, m: Mem,
                i: int, n: int, q: Operand) returns (st': State)
    requires Here(st0, st, h, r, m) && k < |code| && r <= code[k].id
    requires code[k].op == Gep(q, Const(WORD, n)) && Holding(q, Cell(0, i), st.regs)
    ensures Ran(env, code, k, prev, st, st', Cell(0, i + Signed(WORD, n))) && Here(st0, st', h, r, m)
  {
    assert Signed(WORD, Norm(WORD, n)) == Signed(WORD, n);
    st' := PureStep(env, code, k, prev, st0, st, h, r, m, Cell(0, i + Signed(WORD, n)));
  }

  lemma SmallSteps()
    ensures Signed(WORD, 1) == 1 && Signed(WORD, -1) == -1
  {
  }

  lemma {:induction false} LoadCellFails(env: Env, code: Block, k: nat, prev: nat, st: State, h: Handles, m: Mem,
                                         i: int, q: Operand)
    requires Rel(h, st, m) && k < |code|
    requires code[k].op == Load(q) && Holding(q, Cell(0, i), st.regs) && !(0 <= i < CELLS)
    ensures Exec(env, code, k, prev, st) == Stuck
  {
    DoStuck(env, code, k, prev, st);
  }

  // ---------- one builder call at a time ----------

  lemma {:induction false} Conclude(env: Env, code: Block, prev: nat, st0: State, st: State, h: Handles, r: nat, m: Mem,
                                    v: Val)
    requires |code| > 0 && Here(st0, st, h, r, m) && Holding(Reg(code[|code| - 1].id), v, st.regs)
    requires Exec(env, code, 0, prev, st0) == Exec(env, code, |code|, prev, st)
    ensures Achieves(Exec(env, code, 0, prev, st0), st0, h, r, code[|code| - 1].id, Some((v, m)))
  {
  }

  /** The second half of a push: the stack pointer moves up. */
  lemma {:induction false} PushMoves(env: Env, code: Block, h: Handles, r: nat, prev: nat, st0: State, st: State,
                                     m: Mem)
    requires Here(st0, st, h, r, m) && Holding(Reg(r), Cell(0, m.depth), st.regs) && m.depth < CELLS
    requires |code| == 4 && code[2] == Instr(r + 2, Gep(Reg(r), Const(WORD, 1)))
    requires code[3] == Instr(r + 3, Store(Reg(r + 2), h.sp))
    requires Exec(env, code, 0, prev, st0) == Exec(env, code, 2, prev, st)
    ensures Achieves(Exec(env, code, 0, prev, st0), st0, h, r, r + 3, Some((Undef, m.(depth := m.depth + 1))))
  {
    SmallSteps();
    hide Exec, Step, Pure, Norm, Signed, Rel, Here, Achieves, MemOk, HandlesBelow, Eval;
    var s3 := GepCell(env, code, 2, prev, st0, st, h, r, m, m.depth, 1, Reg(r));
    var s4 := StoreSp(env, code, 3, prev, st0, s3, h, r, m, m.depth + 1, Reg(r + 2));
    Conclude(env, code, prev, st0, s4, h, r, m.(depth := m.depth + 1), Undef);
  }

  lemma {:induction false} PushSucceeds(env: Env, code: Block, h: Handles, r: nat, v: Operand, x: Val, prev: nat,
                                        st: State, m: Mem)
    requires Rel(h, st, m) && HandlesBelow(h, r) && Below(v, r)
    requires Eval(env, v, st.regs) == Some(x) && m.depth < CELLS
    requires |code| == 4 && code[0] == Instr(r, Load(h.sp)) && code[1] == Instr(r + 1, Store(v, Reg(r)))
    requires code[2] == Instr(r + 2, Gep(Reg(r), Const(WORD, 1))) && code[3] == Instr(r + 3, Store(Reg(r + 2), h.sp))
    ensures Achieves(Exec(env, code, 0, prev, st), st, h, r, r + 3,
                     Some((Undef, m.(cells := m.cells[m.depth := x], depth := m.depth + 1))))
  {
    StartHere(st, h, r, m);
    assert |m.cells| == CELLS;
    hide Exec, Step, Pure, Norm, Signed, Rel, Here, Achieves, MemOk, HandlesBelow, Eval;
    var s1 := LoadSp(env, code, 0, prev, st, st, h, r, m);
    EvalKept(env, v, st, s1, r, x);
    var s2 := StoreCell(env, code, 1, prev, st, s1, h, r, m, m.depth, x, Reg(r));
    PushMoves(env, code, h, r, prev, st, s2, m.(cells := m.cells[m.depth := x]));
  }

  lemma {:induction false} PushRuns(env: Env, h: Handles, r: nat, v: Operand, x: Val, prev: nat, st: State, m: Mem)
    requires Rel(h, st, m) && HandlesBelow(h, r) && Below(v, r)
    requires Eval(env, v, st.regs) == Some(x)
    ensures Achieves(Exec(env, Number(PushOps(h, r, v), r), 0, prev, st), st, h, r, r + 3,
                     if m.depth == CELLS then None
                     else Some((Undef, m.(cells := m.cells[m.depth := x], depth := m.depth + 1))))
  {
    var code := Number(PushOps(h, r, v), r);
    if m.depth < CELLS {
      PushSucceeds(env, code, h, r, v, x, prev, st, m);
    } else {
      var s1 := LoadSp(env, code, 0, prev, st, st, h, r, m);
      DoStuck(env, code, 1, prev, s1);
    }
  }

  lemma {:induction false} PopSucceeds(env: Env, code: Block, h: Handles, r: nat, prev: nat, st: State, m: Mem)
    requires Rel(h, st, m) && HandlesBelow(h, r) && m.depth > 0
    requires |code| == 4 && code[0] == Instr(r, Load(h.sp)) && code[1] == Instr(r + 1, Gep(Reg(r), Const(WORD, -1)))
    requires code[2] == Instr(r + 2, Store(Reg(r + 1), h.sp)) && code[3] == Instr(r + 3, Load(Reg(r + 1)))
    ensures Achieves(Exec(env, code, 0, prev, st), st, h, r, r + 3,
                     Some((m.cells[m.depth - 1], m.(depth := m.depth - 1))))
  {
    var d := m.depth;
    SmallSteps();
    StartHere(st, h, r, m);
    hide Exec, Step, Pure, Norm, Signed, Rel, Here, Achieves, HandlesBelow;
    var s1 := LoadSp(env, code, 0, prev, st, st, h, r, m);
    var s2 := GepCell(env, code, 1, prev, st, s1, h, r, m, d, -1, Reg(r));
    var s3 := StoreSp(env, code, 2, prev, st, s2, h, r, m, d - 1, Reg(r + 1));
    var s4 := LoadCell(env, code, 3, prev, st, s3, h, r, m.(depth := d - 1), d - 1, Reg(r + 1));
    Conclude(env, code, prev, st, s4, h, r, m.(depth := d - 1), m.cells[d - 1]);
  }

  /** Popping an empty stack moves the stack pointer below the array and then fails to read from it. */
  lemma {:induction false} PopFails(env: Env, code: Block, h: Handles, r: nat, prev: nat, st: State, m: Mem)
    requires Rel(h, st, m) && HandlesBelow(h, r) && m.depth == 0
    requires |code| == 4 && code[0] == Instr(r, Load(h.sp)) && code[1] == Instr(r + 1, Gep(Reg(r), Const(WORD, -1)))
    requires code[2] == Instr(r + 2, Store(Reg(r + 1), h.sp)) && code[3] == Instr(r + 3, Load(Reg(r + 1)))
    ensures Exec(env, code, 0, prev, st) == Stuck
  {
    SmallSteps();
    var s1 := LoadSp(env, code, 0, prev, st, st, h, r, m);
    var s2 := GepCell(env, code, 1, prev, st, s1, h, r, m, 0, -1, Reg(r));
    var s3 := State(s2.regs[r + 2 := Undef], s2.mem[1 := s2.mem[1][0 := Cell(0, -1)]], s2.world);
    DoStore(env, code, 2, prev, s2, Cell(0, -1), Cell(1, 0), s3.mem, s3.world);
    DoStuck(env, code, 3, prev, s3);
  }

  lemma {:induction false} PopRuns(env: Env, h: Handles, r: nat, prev: nat, st: State, m: Mem)
    requires Rel(h, st, m) && HandlesBelow(h, r)
    ensures Achieves(Exec(env, Number(PopOps(h, r), r), 0, prev, st), st, h, r, r + 3,
                     if m.depth == 0 then None
                     else Some((m.cells[m.depth - 1], m.(depth := m.depth - 1))))
  {
    hide Exec;
    var code := Number(PopOps(h, r), r);
    if m.depth == 0 {
      PopFails(env, code, h, r, prev, st, m);
    } else {
      PopSucceeds(env, code, h, r, prev, st, m);
    }
  }

  lemma {:induction false} PeekCode(env: Env, code: Block, h: Handles, r: nat, n: int, prev: nat, st: State, m: Mem)
    requires Rel(h, st, m) && HandlesBelow(h, r)
    requires |code| == 3 && code[0] == Instr(r, Load(h.sp)) && code[1] == Instr(r + 1, Gep(Reg(r), Const(WORD, -n)))
    requires code[2] == Instr(r + 2, Load(Reg(r + 1)))
    ensures Achieves(Exec(env, code, 0, prev, st), st, h, r, r + 2, ReadCell(m, m.depth + Signed(WORD, -n)))
  {
    var i := m.depth + Signed(WORD, -n);
    hide Exec, Step, Pure, Norm, Signed;
    var s1 := LoadSp(env, code, 0, prev, st, st, h, r, m);
    var s2 := GepCell(env, code, 1, prev, st, s1, h, r, m, m.depth, -n, Reg(r));
    if 0 <= i < CELLS {
      var s3 := LoadCell(env, code, 2, prev, st, s2, h, r, m, i, Reg(r + 1));
      Conclude(env, code, prev, st, s3, h, r, m, m.cells[i]);
    } else {
      LoadCellFails(env, code, 2, prev, s2, h, m, i, Reg(r + 1));
    }
  }

  lemma {:induction false} PeekRuns(env: Env, h: Handles, r: nat, n: int, prev: nat, st: State, m: Mem)
    requires Rel(h, st, m) && HandlesBelow(h, r)
    ensures Achieves(Exec(env, Number(PeekOps(h, r, n), r), 0, prev, st), st, h, r, r + 2,
                     ReadCell(m, m.depth + Signed(WORD, -n)))
  {
    hide Exec, Achieves;
    PeekCode(env, Number(PeekOps(h, r, n), r), h, r, n, prev, st, m);
  }

  lemma TopIndex(n: int)
    ensures Norm(I32, Norm(I32, Norm(I32, -1)) - Norm(I32, n)) == Norm(I32, -1 - n)
    ensures Signed(I32, Norm(I32, -1 - n)) == Signed(I32, -1 - n)
  {
  }

  lemma FromMinusOne(env: Env, code: Block, k: nat, prev: nat, st0: State, st: State, h: Handles, r: nat, m: Mem,
                     n: Operand, x: Val) returns (st': State)
    requires Here(st0, st, h, r, m) && k < |code| && r <= code[k].id && code[k].op == Bin(Sub, Const(I32, -1), n)
    requires Eval(env, n, st.regs) == Some(x) && x.Int? && x.ty == I32
    ensures Ran(env, code, k, prev, st, st', Int(I32, Norm(I32, -1 - x.n))) && Here(st0, st', h, r, m)
  {
    TopIndex(x.n);
    hide Exec, Norm;
    st' := PureStep(env, code, k, prev, st0, st, h, r, m, Int(I32, Norm(I32, -1 - x.n)));
  }

  lemma GepIndex(env: Env, code: Block, k: nat, prev: nat, st0: State, st: State, h: Handles, r: nat, m: Mem,
                 n: int, q: Operand, o: Operand) returns (st': State)
    requires Here(st0, st, h, r, m) && k < |code| && r <= code[k].id && code[k].op == Gep(q, o)
    requires Holding(q, Cell(0, m.depth), st.regs) && Holding(o, Int(I32, Norm(I32, -1 - n)), st.regs)
    ensures Ran(env, code, k, prev, st, st', Cell(0, m.depth + Signed(I32, -1 - n))) && Here(st0, st', h, r, m)
  {
    TopIndex(n);
    hide Exec, Norm, Signed;
    st' := PureStep(env, code, k, prev, st0, st, h, r, m, Cell(0, m.depth + Signed(I32, -1 - n)));
  }

  lemma {:induction false} TopNCode(env: Env, code: Block, h: Handles, r: nat, n: Operand, x: Val, prev: nat, st: State,
                                    m: Mem)
    requires Rel(h, st, m) && HandlesBelow(h, r) && Below(n, r)
    requires Eval(env, n, st.regs) == Some(x) && x.Int? && x.ty == I32
    requires |code| == 4 && code[0] == Instr(r, Load(h.sp)) && code[1] == Instr(r + 1, Bin(Sub, Const(I32, -1), n))
    requires code[2] == Instr(r + 2, Gep(Reg(r), Reg(r + 1))) && code[3] == Instr(r + 3, Load(Reg(r + 2)))
    ensures Achieves(Exec(env, code, 0, prev, st), st, h, r, r + 3, ReadCell(m, m.depth + Signed(I32, -1 - x.n)))
  {
    StartHere(st, h, r, m);
    assert |m.cells| == CELLS;
    var i := m.depth + Signed(I32, -1 - x.n);
    hide Exec, Step, Pure, Norm, Signed, Rel, Here, MemOk, HandlesBelow, Eval;
    var s1 := LoadSp(env, code, 0, prev, st, st, h, r, m);
    EvalKept(env, n, st, s1, r, x);
    var s2 := FromMinusOne(env, code, 1, prev, st, s1, h, r, m, n, x);
    var s3 := GepIndex(env, code, 2, prev, st, s2, h, r, m, x.n, Reg(r), Reg(r + 1));
    if 0 <= i < CELLS {
      hide Achieves;
      var s4 := LoadCell(env, code, 3, prev, st, s3, h, r, m, i, Reg(r + 2));
      Conclude(env, code, prev, st, s4, h, r, m, m.cells[i]);
    } else {
      HereRel(st, s3, h, r, m);
      LoadCellFails(env, code, 3, prev, s3, h, m, i, Reg(r + 2));
    }
  }

  lemma HereRel(st0: State, st: State, h: Handles, r: nat, m: Mem)
    requires Here(st0, st, h, r, m)
    ensures Rel(h, st, m) && Keeps(st0, st, r)
  {
  }

  lemma {:induction false} TopNRuns(env: Env, h: Handles, r: nat, n: Operand, x: Val, prev: nat, st: State, m: Mem)
    requires Rel(h, st, m) && HandlesBelow(h, r) && Below(n, r)
    requires Eval(env, n, st.regs) == Some(x)
    ensures Achieves(Exec(env, Number(TopNOps(h, r, n), r), 0, prev, st), st, h, r, r + 3,
                     ReadTop(m, x))
  {
    var code := Number(TopNOps(h, r, n), r);
    if x.Int? && x.ty == I32 {
      TopNCode(env, code, h, r, n, x, prev, st, m);
    } else {
      var s1 := LoadSp(env, code, 0, prev, st, st, h, r, m);
      PureFails(env, code, 1, prev, s1);
    }
  }

  lemma GepLocal(env: Env, code: Block, k: nat, prev: nat, st0: State, st: State, h: Handles, r: nat, m: Mem, n: int)
    returns (st': State)
    requires Here(st0, st, h, r, m) && k < |code| && r <= code[k].id && code[k].op == Gep(h.locals, Const(WORD, n))
    ensures Ran(env, code, k, prev, st, st', Cell(2, Signed(WORD, n))) && Here(st0, st', h, r, m)
  {
    assert Signed(WORD, Norm(WORD, n)) == Signed(WORD, n);
    hide Exec, Norm, Signed;
    st' := PureStep(env, code, k, prev, st0, st, h, r, m, Cell(2, Signed(WORD, n)));
  }

  lemma {:induction false} GetSlotCode(env: Env, code: Block, h: Handles, r: nat, k: int, prev: nat, st: State, m: Mem)
    requires Rel(h, st, m) && HandlesBelow(h, r)
    requires |code| == 2 && code[0] == Instr(r, Gep(h.locals, Const(WORD, k))) && code[1] == Instr(r + 1, Load(Reg(r)))
    ensures Achieves(Exec(env, code, 0, prev, st), st, h, r, r + 1,
                     if 0 <= Signed(WORD, k) < CELLS then Some((m.locals[Signed(WORD, k)], m)) else None)
  {
    StartHere(st, h, r, m);
    assert |m.locals| == CELLS;
    var i := Signed(WORD, k);
    hide Exec, Step, Pure, Norm, Signed, Rel, Here, MemOk, HandlesBelow, Eval;
    var s1 := GepLocal(env, code, 0, prev, st, st, h, r, m, k);
    if 0 <= i < CELLS {
      hide Achieves;
      var s2 := LoadLocal(env, code, 1, prev, st, s1, h, r, m, i, Reg(r));
      Conclude(env, code, prev, st, s2, h, r, m, m.locals[i]);
    } else {
      HereRel(st, s1, h, r, m);
      LoadLocalFails(env, code, 1, prev, s1, h, m, i, Reg(r));
    }
  }

  lemma LoadLocal(env: Env, code: Block, k: nat, prev: nat, st0: State, st: State, h: Handles, r: nat, m: Mem,
                  i: int, q: Operand) returns (st': State)
    requires Here(st0, st, h, r, m) && k < |code| && r <= code[k].id
    requires code[k].op == Load(q) && Holding(q, Cell(2, i), st.regs) && 0 <= i < CELLS
    ensures Ran(env, code, k, prev, st, st', m.locals[i]) && Here(st0, st', h, r, m)
  {
    st' := LoadStep(env, code, k, prev, st0, st, h, r, m, Cell(2, i), m.locals[i]);
  }

  lemma {:induction false} LoadLocalFails(env: Env, code: Block, k: nat, prev: nat, st: State, h: Handles, m: Mem,
                                          i: int, q: Operand)
    requires Rel(h, st, m) && k < |code|
    requires code[k].op == Load(q) && Holding(q, Cell(2, i), st.regs) && !(0 <= i < CELLS)
    ensures Exec(env, code, k, prev, st) == Stuck
  {
    DoStuck(env, code, k, prev, st);
  }

  lemma {:induction false} GetSlotRuns(env: Env, h: Handles, r: nat, k: int, prev: nat, st: State, m: Mem)
    requires Rel(h, st, m) && HandlesBelow(h, r)
    ensures Achieves(Exec(env, Number(GetSlotOps(h, r, k), r), 0, prev, st), st, h, r, r + 1,
                     if 0 <= Signed(WORD, k) < CELLS then Some((m.locals[Signed(WORD, k)], m)) else None)
  {
    hide Exec, Achieves, Rel, HandlesBelow, Signed;
    GetSlotCode(env, Number(GetSlotOps(h, r, k), r), h, r, k, prev, st, m);
  }

  lemma {:induction false} SetSlotCode(env: Env, code: Block, h: Handles, r: nat, k: int, v: Operand, x: Val, prev: nat,
                                       st: State, m: Mem)
    requires Rel(h, st, m) && HandlesBelow(h, r) && Below(v, r) && Eval(env, v, st.regs) == Some(x)
    requires |code| == 2 && code[0] == Instr(r, Gep(h.locals, Const(WORD, k)))
    requires code[1] == Instr(r + 1, Store(v, Reg(r)))
    ensures Achieves(Exec(env, code, 0, prev, st), st, h, r, r + 1,
                     if !(0 <= Signed(WORD, k) < CELLS) then None
                     else Some((Undef, m.(locals := m.locals[Signed(WORD, k) := x]))))
  {
    StartHere(st, h, r, m);
    assert |m.locals| == CELLS;
    var i := Signed(WORD, k);
    hide Exec, Step, Pure, Norm, Signed, Rel, Here, MemOk, HandlesBelow, Eval;
    var s1 := GepLocal(env, code, 0, prev, st, st, h, r, m, k);
    if 0 <= i < CELLS {
      EvalKept(env, v, st, s1, r, x);
      hide Achieves;
      var s2 := StoreLocal(env, code, 1, prev, st, s1, h, r, m, i, x, Reg(r));
      Conclude(env, code, prev, st, s2, h, r, m.(locals := m.locals[i := x]), Undef);
    } else {
      HereRel(st, s1, h, r, m);
      StoreLocalFails(env, code, 1, prev, s1, h, m, i, Reg(r));
    }
  }

  lemma {:induction false} StoreLocalFails(env: Env, code: Block, k: nat, prev: nat, st: State, h: Handles, m: Mem,
                                           i: int, q: Operand)
    requires Rel(h, st, m) && k < |code| && code[k].op.Store? && code[k].op.p == q
    requires Holding(q, Cell(2, i), st.regs) && !(0 <= i < CELLS)
    ensures Exec(env, code, k, prev, st) == Stuck
  {
    DoStuck(env, code, k, prev, st);
  }

  lemma {:induction false} SetSlotRuns(env: Env, h: Handles, r: nat, k: int, v: Operand, x: Val, prev: nat, st: State,
                                       m: Mem)
    requires Rel(h, st, m) && HandlesBelow(h, r) && Below(v, r)
    requires Eval(env, v, st.regs) == Some(x)
    ensures Achieves(Exec(env, Number(SetSlotOps(h, r, k, v), r), 0, prev, st), st, h, r, r + 1,
                     if !(0 <= Signed(WORD, k) < CELLS) then None
                     else Some((Undef, m.(locals := m.locals[Signed(WORD, k) := x]))))
  {
    hide Exec, Achieves, Rel, HandlesBelow, Signed, Eval, Below;
    SetSlotCode(env, Number(SetSlotOps(h, r, k, v), r), h, r, k, v, x, prev, st, m);
  }

  lemma StoreLocal(env: Env, code: Block, k: nat, prev: nat, st0: State, st: State, h: Handles, r: nat, m: Mem,
                   i: int, x: Val, q: Operand) returns (st': State)
    requires Here(st0, st, h, r, m) && k < |code| && r <= code[k].id
    requires code[k].op.Store? && code[k].op.p == q && Holding(q, Cell(2, i), st.regs) && 0 <= i < CELLS
    requires Eval(env, code[k].op.v, st.regs) == Some(x)
    ensures Ran(env, code, k, prev, st, st', Undef) && Here(st0, st', h, r, m.(locals := m.locals[i := x]))
  {
    st' := State(st.regs[code[k].id := Undef], st.mem[2 := m.locals[i := x]], st.world);
    DoStore(env, code, k, prev, st, x, Cell(2, i), st'.mem, st'.world);
  }

  lemma RefIsHeld(env: Env, h: Handles, a: Ref, outs: seq<Operand>, vals: seq<Val>, r: nat, st: State, m: Mem)
    requires Rel(h, st, m) && HandlesBelow(h, r) && OutsHeld(env, outs, vals, st.regs, r)
    ensures RefHeld(env, h, a, outs, vals, r, st)
    ensures Eval(env, OperandOf(h, a, outs), st.regs) == Some(ValOf(env, a, vals)) && Below(OperandOf(h, a, outs), r)
  {
  }

  lemma RefsAreHeld(env: Env, h: Handles, c: BCall, outs: seq<Operand>, vals: seq<Val>, r: nat, st: State, m: Mem)
    requires Rel(h, st, m) && HandlesBelow(h, r) && OutsHeld(env, outs, vals, st.regs, r)
    ensures RefsHeld(env, h, c, outs, vals, r, st)
  {
    forall a: Ref ensures RefHeld(env, h, a, outs, vals, r, st) {
      RefIsHeld(env, h, a, outs, vals, r, st, m);
    }
    hide RefHeld, Rel, HandlesBelow, OutsHeld;
  }

  /** Code that leaves memory alone keeps the relation. */
  lemma YieldsAchieves(h: Handles, st: State, m: Mem, res: Result, r: nat, out: nat, want: Option<(Val, World)>)
    requires Rel(h, st, m) && HandlesBelow(h, r) && Yields(res, st, r, out, want)
    ensures Achieves(res, st, h, r, out, if want.Some? then Some((want.value.0, m.(world := want.value.1))) else None)
  {
  }

  /** The instructions of a builder call did what the call means. */
  predicate Means(env: Env, h: Handles, r: nat, c: BCall, outs: seq<Operand>, vals: seq<Val>, prev: nat, st: State,
                  m: Mem) {
    Achieves(Exec(env, Number(Ops(h, r, c, outs), r), 0, prev, st), st, h, r, r + |Ops(h, r, c, outs)| - 1,
             CallSem(env, c, vals, m))
  }

  lemma {:induction false} MeansIs(env: Env, h: Handles, r: nat, c: BCall, outs: seq<Operand>, vals: seq<Val>,
                                   prev: nat, st: State, m: Mem, ops: seq<Op>, want: Outcome)
    requires Ops(h, r, c, outs) == ops && CallSem(env, c, vals, m) == want
    requires Achieves(Exec(env, Number(ops, r), 0, prev, st), st, h, r, r + |ops| - 1, want)
    ensures Means(env, h, r, c, outs, vals, prev, st, m)
  {
    hide Exec, Number, Ops, CallSem, Achieves;
  }

  lemma PushSem(env: Env, v: Ref, vals: seq<Val>, m: Mem)
    requires MemOk(m)
    ensures CallSem(env, PushVal(v), vals, m)
         == if m.depth == CELLS then None
            else Some((Undef, m.(cells := m.cells[m.depth := ValOf(env, v, vals)], depth := m.depth + 1)))
    ensures CallSem(env, PopVal, vals, m)
         == if m.depth == 0 then None else Some((m.cells[m.depth - 1], m.(depth := m.depth - 1)))
  {
    hide ValOf;
  }

  lemma SlotSem(env: Env, k: int, v: Ref, vals: seq<Val>, m: Mem)
    requires MemOk(m)
    ensures CallSem(env, GetSlot(k), vals, m)
         == if 0 <= Signed(WORD, k) < CELLS then Some((m.locals[Signed(WORD, k)], m)) else None
    ensures CallSem(env, SetSlot(k, v), vals, m)
         == if !(0 <= Signed(WORD, k) < CELLS) then None
            else Some((Undef, m.(locals := m.locals[Signed(WORD, k) := ValOf(env, v, vals)])))
  {
    hide ValOf, Signed;
  }

  lemma ReadSem(env: Env, n: int, a: Ref, vals: seq<Val>, m: Mem)
    ensures CallSem(env, PeekVal(n), vals, m) == ReadCell(m, m.depth + Signed(WORD, -n))
    ensures CallSem(env, TopN(a), vals, m) == ReadTop(m, ValOf(env, a, vals))
  {
    hide ValOf, Signed, ReadCell, ReadTop;
  }

  /** The instructions of the calls on memory, and how many there are. */
  lemma MemoryOps(h: Handles, r: nat, v: Ref, n: int, outs: seq<Operand>)
    ensures var o := OperandOf(h, v, outs);
      Ops(h, r, PushVal(v), outs) == PushOps(h, r, o) && Ops(h, r, PopVal, outs) == PopOps(h, r)
      && Ops(h, r, PeekVal(n), outs) == PeekOps(h, r, n) && Ops(h, r, TopN(v), outs) == TopNOps(h, r, o)
      && Ops(h, r, GetSlot(n), outs) == GetSlotOps(h, r, n) && Ops(h, r, SetSlot(n, v), outs) == SetSlotOps(h, r, n, o)
      && |PushOps(h, r, o)| == |PopOps(h, r)| == |TopNOps(h, r, o)| == 4 && |PeekOps(h, r, n)| == 3
      && |GetSlotOps(h, r, n)| == |SetSlotOps(h, r, n, o)| == 2
  {
    hide OperandOf;
  }

  lemma RelOk(h: Handles, st: State, m: Mem)
    requires Rel(h, st, m)
    ensures MemOk(m)
  {
  }

  lemma MemoryCallRuns(env: Env, h: Handles, r: nat, c: BCall, outs: seq<Operand>, vals: seq<Val>, prev: nat, st: State,
                       m: Mem)
    requires Rel(h, st, m) && HandlesBelow(h, r) && OutsHeld(env, outs, vals, st.regs, r)
    requires IsMemoryCall(c)
    ensures Means(env, h, r, c, outs, vals, prev, st, m)
  {
    hide *;
    RelOk(h, st, m);
    OneOfMemory(c);
    var v := if c.PushVal? || c.SetSlot? then c.v else if c.TopN? then c.idx else Self;
    var n := if c.PeekVal? then c.n else if c.GetSlot? || c.SetSlot? then c.slot else 0;
    var o, x := OperandOf(h, v, outs), ValOf(env, v, vals);
    RefIsHeld(env, h, v, outs, vals, r, st, m);
    MemoryOps(h, r, v, n, outs);
    PushSem(env, v, vals, m);
    SlotSem(env, n, v, vals, m);
    ReadSem(env, n, v, vals, m);
    match c {
      case PushVal(_) => PushRuns(env, h, r, o, x, prev, st, m);
      case PopVal => PopRuns(env, h, r, prev, st, m);
      case PeekVal(_) => PeekRuns(env, h, r, n, prev, st, m);
      case TopN(_) => TopNRuns(env, h, r, o, x, prev, st, m);
      case GetSlot(_) => GetSlotRuns(env, h, r, n, prev, st, m);
      case SetSlot(_, _) => SetSlotRuns(env, h, r, n, o, x, prev, st, m);
    }
    MeansIs(env, h, r, c, outs, vals, prev, st, m, Ops(h, r, c, outs), CallSem(env, c, vals, m));
  }

  lemma OneOfMemory(c: BCall)
    requires IsMemoryCall(c)
    ensures c.PushVal? || c.PopVal? || c.PeekVal? || c.TopN? || c.GetSlot? || c.SetSlot?
  {
  }

  lemma {:induction false} MeansOpen(env: Env, h: Handles, r: nat, c: BCall, outs: seq<Operand>, vals: seq<Val>,
                                     prev: nat, st: State, m: Mem)
    requires Means(env, h, r, c, outs, vals, prev, st, m)
    ensures Achieves(Exec(env, Number(Ops(h, r, c, outs), r), 0, prev, st), st, h, r,
                     r + |Ops(h, r, c, outs)| - 1, CallSem(env, c, vals, m))
  {
    hide Exec, Number, Ops, CallSem, Achieves;
  }

  lemma ValueOnMemory(env: Env, c: BCall, vals: seq<Val>, m: Mem)
    requires !IsMemoryCall(c)
    ensures CallSem(env, c, vals, m)
         == var r := ValueSem(env, c, vals, m.world);
            if r.Some? then Some((r.value.0, m.(world := r.value.1))) else None
  {
    hide ValueSem;
  }

  lemma RelWorld(h: Handles, st: State, m: Mem)
    requires Rel(h, st, m)
    ensures st.world == m.world
  {
  }

  /** The instructions of every builder call do what the call means. */
  lemma {:induction false} CallRuns(env: Env, h: Handles, r: nat, c: BCall, outs: seq<Operand>, vals: seq<Val>,
                                    prev: nat, st: State, m: Mem)
    requires Rel(h, st, m) && HandlesBelow(h, r) && OutsHeld(env, outs, vals, st.regs, r)
    ensures Achieves(Exec(env, Number(Ops(h, r, c, outs), r), 0, prev, st), st, h, r,
                     r + |Ops(h, r, c, outs)| - 1, CallSem(env, c, vals, m))
  {
    hide *;
    if IsMemoryCall(c) {
      MemoryCallRuns(env, h, r, c, outs, vals, prev, st, m);
      MeansOpen(env, h, r, c, outs, vals, prev, st, m);
    } else {
      RelWorld(h, st, m);
      RefsAreHeld(env, h, c, outs, vals, r, st, m);
      ValueCallRuns(env, h, r, c, outs, vals, prev, st);
      ValueOnMemory(env, c, vals, m);
      var res := Exec(env, Number(Ops(h, r, c, outs), r), 0, prev, st);
      YieldsAchieves(h, st, m, res, r, r + |Ops(h, r, c, outs)| - 1, ValueSem(env, c, vals, m.world));
    }
  }

  /** Code for a list of calls ended as the list's meaning says, with the results in the registers outs. */
  predicate AchievesAll(env: Env, res: Result, st: State, h: Handles, r: nat, r': nat, outs: seq<Operand>,
                        want: Option<(seq<Val>, Mem)>) {
    if want.None? then res.Stuck?
    else res.Fell? && Rel(h, res.st, want.value.1) && Keeps(st, res.st, r)
         && OutsHeld(env, outs, want.value.0, res.st.regs, r')
  }

  lemma {:induction false} NoCalls(env: Env, h: Handles, r: nat, cs: seq<BCall>, outs: seq<Operand>, vals: seq<Val>,
                                   prev: nat, st: State, m: Mem)
    requires Rel(h, st, m) && OutsHeld(env, outs, vals, st.regs, r)
    ensures var ops := AllOps(h, r, cs, |cs|, outs);
      AchievesAll(env, Exec(env, Number(ops, r), 0, prev, st), st, h, r, r + |ops|, AllOuts(h, r, cs, |cs|, outs),
                  RunCalls(env, cs, |cs|, vals, m))
  {
    ExecEnd(env, [], prev, st);
  }

  /** Two pieces of code, numbered one after the other. */
  lemma {:induction false} Sequence(env: Env, h: Handles, r: nat, ops: seq<Op>, rest: seq<Op>, prev: nat, st: State,
                                    r': nat, outs: seq<Operand>, want: Option<(seq<Val>, Mem)>)
    requires var res := Exec(env, Number(ops, r), 0, prev, st);
      if want.None? && res.Stuck? then true
      else res.Fell? && Keeps(st, res.st, r)
           && AchievesAll(env, Exec(env, Number(rest, r + |ops|), 0, prev, res.st), res.st, h, r + |ops|, r', outs,
                          want)
    ensures AchievesAll(env, Exec(env, Number(ops + rest, r), 0, prev, st), st, h, r, r', outs, want)
  {
    NumberAppend(ops, rest, r);
    ExecAppend(env, Number(ops, r), Number(rest, r + |ops|), prev, st);
  }

  /** One call extends the results by one. */
  lemma {:induction false} FirstCall(env: Env, h: Handles, r: nat, c: BCall, outs: seq<Operand>, vals: seq<Val>,
                                     prev: nat, st: State, m: Mem)
    requires Rel(h, st, m) && HandlesBelow(h, r) && OutsHeld(env, outs, vals, st.regs, r)
    ensures var r1, sem := r + |Ops(h, r, c, outs)|, CallSem(env, c, vals, m);
      var res := Exec(env, Number(Ops(h, r, c, outs), r), 0, prev, st);
      if sem.None? then res.Stuck?
      else res.Fell? && Rel(h, res.st, sem.value.1) && Keeps(st, res.st, r)
           && OutsHeld(env, outs + [Reg(r1 - 1)], vals + [sem.value.0], res.st.regs, r1)
  {
    assert |outs| == |vals| && MemOk(m);
    CallRuns(env, h, r, c, outs, vals, prev, st, m);
    hide Exec, Number, Ops, CallOk, CallSem, Rel, HandlesBelow, OutsHeld, Keeps;
    var ops := Ops(h, r, c, outs);
    var sem := CallSem(env, c, vals, m);
    if sem.Some? {
      OutsKept(env, outs, vals, st, Exec(env, Number(ops, r), 0, prev, st).st, r, r + |ops|, r + |ops| - 1,
               sem.value.0);
    }
  }

  lemma Unfold(env: Env, h: Handles, r: nat, cs: seq<BCall>, k: nat, outs: seq<Operand>, vals: seq<Val>, m: Mem)
    requires k < |cs|
    ensures var ops := Ops(h, r, cs[k], outs);
      AllOps(h, r, cs, k, outs) == ops + AllOps(h, r + |ops|, cs, k + 1, outs + [Reg(r + |ops| - 1)])
      && AllOuts(h, r, cs, k, outs) == AllOuts(h, r + |ops|, cs, k + 1, outs + [Reg(r + |ops| - 1)])
    ensures |Ops(h, r, cs[k], outs)| > 0
    ensures var sem := CallSem(env, cs[k], vals, m);
      RunCalls(env, cs, k, vals, m)
        == if sem.None? then None else RunCalls(env, cs, k + 1, vals + [sem.value.0], sem.value.1)
  {
  }

  /** The instructions of every list of builder calls do what the list means. */
  lemma {:induction false} CallsRun(env: Env, h: Handles, r: nat, cs: seq<BCall>, k: nat, outs: seq<Operand>,
                                    vals: seq<Val>, prev: nat, st: State, m: Mem)
    requires Rel(h, st, m) && HandlesBelow(h, r) && OutsHeld(env, outs, vals, st.regs, r)
    requires k <= |cs|
    ensures var ops := AllOps(h, r, cs, k, outs);
      AchievesAll(env, Exec(env, Number(ops, r), 0, prev, st), st, h, r, r + |ops|, AllOuts(h, r, cs, k, outs),
                  RunCalls(env, cs, k, vals, m))
    decreases |cs| - k
  {
    hide *;
    if k == |cs| {
      NoCalls(env, h, r, cs, outs, vals, prev, st, m);
    } else {
      Unfold(env, h, r, cs, k, outs, vals, m);
      FirstCall(env, h, r, cs[k], outs, vals, prev, st, m);
      var ops := Ops(h, r, cs[k], outs);
      var r1 := r + |ops|;
      var outs1 := outs + [Reg(r1 - 1)];
      var res := Exec(env, Number(ops, r), 0, prev, st);
      var sem := CallSem(env, cs[k], vals, m);
      if sem.Some? {
        HandlesStayBelow(h, r, r1);
        CallsRun(env, h, r1, cs, k + 1, outs1, vals + [sem.value.0], prev, res.st, sem.value.1);
      }
      Sequence(env, h, r, ops, AllOps(h, r1, cs, k + 1, outs1), prev, st, r + |AllOps(h, r, cs, k, outs)|,
               AllOuts(h, r, cs, k, outs), RunCalls(env, cs, k, vals, m));
    }
  }

  lemma HandlesStayBelow(h: Handles, r: nat, r1: nat)
    requires HandlesBelow(h, r) && r <= r1
    ensures HandlesBelow(h, r1)
  {
  }
}
