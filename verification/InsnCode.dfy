// The builder calls of each instruction, run in order, do what the stack machine says.

module InsnCode {
  import opened Options
  import opened Words
  import opened IR
  import opened Machine
  import opened StackMachine
  import opened Emission
  import opened ValueCode
  import opened StackCode

  /** The stack machine's view of memory: the cells in use, bottom first. */
  function View(m: Mem): Frame
    requires MemOk(m)
  {
    Frame(m.cells[..m.depth], m.locals, m.world)
  }

  predicate Agrees(r: Option<(seq<Val>, Mem)>, want: Option<Frame>) {
    if want.None? then r.None? else r.Some? && MemOk(r.value.1) && View(r.value.1) == want.value
  }

  /** The calls from the k-th on, given the results of those before it. */
  predicate Ready(env: Env, cs: seq<BCall>, k: nat, outs: seq<Val>, m: Mem) {
    MemOk(m) && k <= |cs| && k <= |outs|
  }

  /** One step of RunCalls. */
  lemma Next(env: Env, cs: seq<BCall>, k: nat, outs: seq<Val>, m: Mem)
    requires Ready(env, cs, k, outs, m) && k < |cs|
    ensures var r := CallSem(env, cs[k], outs, m);
      if r.None? then RunCalls(env, cs, k, outs, m) == None
      else Ready(env, cs, k + 1, outs + [r.value.0], r.value.1)
           && RunCalls(env, cs, k, outs, m) == RunCalls(env, cs, k + 1, outs + [r.value.0], r.value.1)
  {
  }

  lemma {:induction false} Last(env: Env, cs: seq<BCall>, outs: seq<Val>, m: Mem)
    requires Ready(env, cs, |cs|, outs, m)
    ensures RunCalls(env, cs, |cs|, outs, m) == Some((outs, m))
  {
  }

  lemma ViewPush(m: Mem, v: Val)
    requires MemOk(m)
    ensures m.depth < CELLS ==> Push(View(m), v) == Some(View(m.(cells := m.cells[m.depth := v], depth := m.depth + 1)))
    ensures m.depth == CELLS ==> Push(View(m), v) == None
  {
    if m.depth < CELLS {
      assert m.cells[m.depth := v][..m.depth + 1] == m.cells[..m.depth] + [v];
    }
  }

  lemma ViewDrop(m: Mem, n: nat)
    requires MemOk(m) && n <= m.depth
    ensures Drop(View(m), n) == View(m.(depth := m.depth - n))
    ensures forall i :: 1 <= i <= m.depth ==> Top(View(m), i) == m.cells[m.depth - i]
  {
    assert m.cells[..m.depth][..m.depth - n] == m.cells[..m.depth - n];
  }

  // ---------- patterns that several instructions share ----------

  function TopCell(m: Mem): Val
    requires MemOk(m) && m.depth > 0
  {
    m.cells[m.depth - 1]
  }

  function Popped(m: Mem): Mem
    requires m.depth > 0
  {
    m.(depth := m.depth - 1)
  }

  lemma PopStep(env: Env, cs: seq<BCall>, k: nat, outs: seq<Val>, m: Mem)
    requires Ready(env, cs, k, outs, m) && k < |cs| && cs[k] == PopVal
    ensures if m.depth == 0 then RunCalls(env, cs, k, outs, m) == None
      else Ready(env, cs, k + 1, outs + [TopCell(m)], Popped(m))
           && RunCalls(env, cs, k, outs, m) == RunCalls(env, cs, k + 1, outs + [TopCell(m)], Popped(m))
  {
    Next(env, cs, k, outs, m);
  }

  lemma FixStep(env: Env, cs: seq<BCall>, k: nat, outs: seq<Val>, m: Mem, j: nat)
    requires Ready(env, cs, k, outs, m) && k < |cs| && j < k && cs[k] == Fix2Int(Res(j))
    ensures if !IsWord(outs[j]) then RunCalls(env, cs, k, outs, m) == None
      else Ready(env, cs, k + 1, outs + [Int(WORD, Untag(outs[j]))], m)
           && RunCalls(env, cs, k, outs, m) == RunCalls(env, cs, k + 1, outs + [Int(WORD, Untag(outs[j]))], m)
  {
    Next(env, cs, k, outs, m);
  }

  /** A call that only computes a value. */
  lemma ValueStep(env: Env, cs: seq<BCall>, k: nat, outs: seq<Val>, m: Mem, v: Val)
    requires Ready(env, cs, k, outs, m) && k < |cs| && CallSem(env, cs[k], outs, m) == Some((v, m))
    ensures Ready(env, cs, k + 1, outs + [v], m)
    ensures RunCalls(env, cs, k, outs, m) == RunCalls(env, cs, k + 1, outs + [v], m)
  {
    Next(env, cs, k, outs, m);
  }

  /** A final push. */
  lemma {:induction false} PushEnds(env: Env, cs: seq<BCall>, k: nat, outs: seq<Val>, m: Mem, v: Val)
    requires Ready(env, cs, k, outs, m) && k + 1 == |cs| && cs[k].PushVal?
    requires ValOf(env, cs[k].v, outs) == v
    ensures Agrees(RunCalls(env, cs, k, outs, m), Push(View(m), v))
  {
    Next(env, cs, k, outs, m);
    ViewPush(m, v);
    if m.depth < CELLS {
      Last(env, cs, outs + [Undef], m.(cells := m.cells[m.depth := v], depth := m.depth + 1));
    }
  }

  // ---------- arithmetic and comparison ----------

  lemma TagNorm(c: int)
    ensures Tag(Norm(WORD, c)) == Tag(c) && Tagged(WordVal(c)) == Some(Tag(c))
  {
    NormNorm(WORD, c);
    NormAffine(WORD, 2, c, 1);
  }

  lemma UntagRange(v: Val)
    requires IsWord(v)
    ensures 0 <= Untag(v) && 2 * Untag(v) < Modulus(WORD) && Norm(WORD, Untag(v)) == Untag(v)
    ensures Signed(WORD, Untag(v)) == Untag(v)
  {
  }

  /** The operator, applied to the first and second value popped in the order given, computes f. */
  ghost predicate Computes(op: BinOp, x: nat, y: nat, f: (int, int) -> int) {
    ((x == 1 && y == 3) || (x == 3 && y == 1))
    && forall a: int, b: int :: 0 <= a < Modulus(WORD) && 0 <= b < Modulus(WORD) ==>
         EvalBin(op, Int(WORD, if x == 1 then a else b), Int(WORD, if x == 1 then b else a)) == Some(WordVal(f(b, a)))
  }

  lemma {:induction false} ArithPops(env: Env, cs: seq<BCall>, m: Mem)
    requires Ready(env, cs, 0, [], m) && |cs| == 7
    requires cs[0] == PopVal && cs[1] == Fix2Int(Res(0)) && cs[2] == PopVal && cs[3] == Fix2Int(Res(2))
    ensures if m.depth < 2 || !IsWord(m.cells[m.depth - 1]) || !IsWord(m.cells[m.depth - 2])
      then RunCalls(env, cs, 0, [], m) == None
      else
        var v0, v2 := m.cells[m.depth - 1], m.cells[m.depth - 2];
        var outs := [] + [v0] + [Int(WORD, Untag(v0))] + [v2] + [Int(WORD, Untag(v2))];
        Ready(env, cs, 4, outs, Popped(Popped(m)))
        && RunCalls(env, cs, 0, [], m) == RunCalls(env, cs, 4, outs, Popped(Popped(m)))
  {
    hide RunCalls, Norm;
    PopStep(env, cs, 0, [], m);
    if m.depth > 0 {
      var o1 := [] + [TopCell(m)];
      FixStep(env, cs, 1, o1, Popped(m), 0);
      if IsWord(TopCell(m)) {
        var o2 := o1 + [Int(WORD, Untag(TopCell(m)))];
        PopStep(env, cs, 2, o2, Popped(m));
        if m.depth > 1 {
          FixStep(env, cs, 3, o2 + [TopCell(Popped(m))], Popped(Popped(m)), 2);
        }
      }
    }
  }

  lemma {:induction false} ArithEnds(env: Env, cs: seq<BCall>, op: BinOp, x: nat, y: nat,
                                     f: (int, int) -> int, outs: seq<Val>, m: Mem, v0: Val, v2: Val)
    requires Ready(env, cs, 4, outs, m) && |outs| == 4 && |cs| == 7 && Computes(op, x, y, f)
    requires cs[4] == BinOf(op, Res(x), Res(y)) && cs[5] == Num2Fix(Res(4)) && cs[6] == PushVal(Res(5))
    requires IsWord(v0) && IsWord(v2) && outs[1] == Int(WORD, Untag(v0)) && outs[3] == Int(WORD, Untag(v2))
    ensures Agrees(RunCalls(env, cs, 4, outs, m), Push(View(m), Tag(f(Untag(v2), Untag(v0)))))
  {
    var c := f(Untag(v2), Untag(v0));
    UntagRange(v0);
    UntagRange(v2);
    TagNorm(c);
    assert EvalBin(op, outs[x], outs[y]) == Some(WordVal(c));
    hide RunCalls, EvalBin, Norm, Computes, Untag, Tagged, Tag, WordVal;
    ValueStep(env, cs, 4, outs, m, WordVal(c));
    ValueStep(env, cs, 5, outs + [WordVal(c)], m, Tag(c));
    PushEnds(env, cs, 6, outs + [WordVal(c)] + [Tag(c)], m, Tag(c));
  }

  lemma {:induction false} ArithCode(env: Env, cs: seq<BCall>, op: BinOp, x: nat, y: nat, m: Mem, f: (int, int) -> int)
    requires Ready(env, cs, 0, [], m) && |cs| == 7 && Computes(op, x, y, f)
    requires cs[0] == PopVal && cs[1] == Fix2Int(Res(0)) && cs[2] == PopVal && cs[3] == Fix2Int(Res(2))
    requires cs[4] == BinOf(op, Res(x), Res(y)) && cs[5] == Num2Fix(Res(4)) && cs[6] == PushVal(Res(5))
    ensures Agrees(RunCalls(env, cs, 0, [], m), Arith(View(m), f))
  {
    hide RunCalls, Norm, Computes;
    ArithPops(env, cs, m);
    ViewDrop(m, 0);
    if m.depth >= 2 && IsWord(m.cells[m.depth - 1]) && IsWord(m.cells[m.depth - 2]) {
      ViewDrop(m, 2);
      var v0, v2 := m.cells[m.depth - 1], m.cells[m.depth - 2];
      var outs := [] + [v0] + [Int(WORD, Untag(v0))] + [v2] + [Int(WORD, Untag(v2))];
      ArithEnds(env, cs, op, x, y, f, outs, Popped(Popped(m)), v0, v2);
    }
  }

  lemma {:induction false} ArithAgrees(env: Env, op: BinOp, x: nat, y: nat, m: Mem, f: (int, int) -> int)
    requires MemOk(m) && Computes(op, x, y, f)
    ensures Agrees(RunCalls(env, ArithCalls(op, x, y), 0, [], m), Arith(View(m), f))
  {
    hide RunCalls, Agrees;
    ArithCode(env, ArithCalls(op, x, y), op, x, y, m, f);
  }

  lemma SumComputes(a: int, b: int)
    requires 0 <= a < Modulus(WORD) && 0 <= b < Modulus(WORD)
    ensures EvalBin(Add, Int(WORD, a), Int(WORD, b)) == Some(WordVal(b + a))
    ensures EvalBin(Sub, Int(WORD, b), Int(WORD, a)) == Some(WordVal(b - a))
    ensures EvalBin(Mul, Int(WORD, a), Int(WORD, b)) == Some(WordVal(b * a))
  {
    assert Norm(WORD, a) == a && Norm(WORD, b) == b;
  }

  lemma PlusComputes()
    ensures Computes(Add, 1, 3, (x, y) => x + y)
  {
    hide EvalBin, WordVal, Modulus;
    forall a: int, b: int | 0 <= a < Modulus(WORD) && 0 <= b < Modulus(WORD)
      ensures EvalBin(Add, Int(WORD, a), Int(WORD, b)) == Some(WordVal(b + a))
    {
      SumComputes(a, b);
    }
  }

  lemma MinusComputes()
    ensures Computes(Sub, 3, 1, (x, y) => x - y)
  {
    hide EvalBin, WordVal, Modulus;
    forall a: int, b: int | 0 <= a < Modulus(WORD) && 0 <= b < Modulus(WORD)
      ensures EvalBin(Sub, Int(WORD, b), Int(WORD, a)) == Some(WordVal(b - a))
    {
      SumComputes(a, b);
    }
  }

  lemma MultComputes()
    ensures Computes(Mul, 1, 3, (x, y) => x * y)
  {
    hide EvalBin, WordVal, Modulus;
    forall a: int, b: int | 0 <= a < Modulus(WORD) && 0 <= b < Modulus(WORD)
      ensures EvalBin(Mul, Int(WORD, a), Int(WORD, b)) == Some(WordVal(b * a))
    {
      SumComputes(a, b);
    }
  }

  /** The predicate decides p on non-negative payloads. */
  ghost predicate Decides(pred: Pred, p: (int, int) -> bool) {
    forall a: int, b: int :: 0 <= a && 2 * a < Modulus(WORD) && 0 <= b && 2 * b < Modulus(WORD) ==>
      Holds(pred, WORD, a, b) == p(a, b)
  }

  lemma SmallSigned(a: int)
    requires 0 <= a && 2 * a < Modulus(WORD)
    ensures Signed(WORD, a) == a
  {
  }

  lemma OrderDecides()
    ensures Decides(Slt, (x, y) => x < y) && Decides(Sgt, (x, y) => x > y) && Decides(Sge, (x, y) => x >= y)
  {
    hide Norm, Modulus, Signed;
    forall a: int | 0 <= a && 2 * a < Modulus(WORD)
      ensures Signed(WORD, a) == a
    {
      SmallSigned(a);
    }
  }

  /** A truth value, widened without sign and doubled, is the word for true or false. */
  lemma BoolWord(b: bool)
    ensures EvalCast(Truth(b), WORD, false) == Some(WordVal(if b then 1 else 0))
    ensures EvalBin(Mul, WordVal(if b then 1 else 0), Int(WORD, Norm(WORD, 2))) == Some(Bool(b))
  {
  }

  lemma {:induction false} ComparePops(env: Env, cs: seq<BCall>, m: Mem)
    requires Ready(env, cs, 0, [], m) && |cs| == 8
    requires cs[0] == PopVal && cs[1] == PopVal && cs[2] == Fix2Int(Res(1)) && cs[3] == Fix2Int(Res(0))
    ensures if m.depth < 2 || !IsWord(m.cells[m.depth - 1]) || !IsWord(m.cells[m.depth - 2])
      then RunCalls(env, cs, 0, [], m) == None
      else
        var v0, v1 := m.cells[m.depth - 1], m.cells[m.depth - 2];
        var outs := [] + [v0] + [v1] + [Int(WORD, Untag(v1))] + [Int(WORD, Untag(v0))];
        Ready(env, cs, 4, outs, Popped(Popped(m)))
        && RunCalls(env, cs, 0, [], m) == RunCalls(env, cs, 4, outs, Popped(Popped(m)))
  {
    hide RunCalls, Norm;
    PopStep(env, cs, 0, [], m);
    if m.depth > 0 {
      PopStep(env, cs, 1, [] + [TopCell(m)], Popped(m));
      if m.depth > 1 {
        var o2 := [] + [TopCell(m)] + [TopCell(Popped(m))];
        FixStep(env, cs, 2, o2, Popped(Popped(m)), 1);
        if IsWord(o2[1]) {
          FixStep(env, cs, 3, o2 + [Int(WORD, Untag(o2[1]))], Popped(Popped(m)), 0);
        }
      }
    }
  }

  lemma {:induction false} CompareEnds(env: Env, cs: seq<BCall>, pred: Pred,
                                       p: (int, int) -> bool, outs: seq<Val>, m: Mem, x: Val, y: Val)
    requires Ready(env, cs, 4, outs, m) && |outs| == 4 && |cs| == 8 && Decides(pred, p)
    requires cs[4] == IcmpOf(pred, Res(2), Res(3)) && cs[5] == ToLong(Res(4))
    requires cs[6] == BinOf(Mul, Res(5), Word(2)) && cs[7] == PushVal(Res(6))
    requires IsWord(x) && IsWord(y) && outs[2] == Int(WORD, Untag(x)) && outs[3] == Int(WORD, Untag(y))
    ensures Agrees(RunCalls(env, cs, 4, outs, m), Push(View(m), Bool(p(Untag(x), Untag(y)))))
  {
    var b := p(Untag(x), Untag(y));
    UntagRange(x);
    UntagRange(y);
    BoolWord(b);
    var o4 := outs + [Truth(b)];
    var o5 := o4 + [WordVal(if b then 1 else 0)];
    assert EvalIcmp(pred, outs[2], outs[3]) == Some(Truth(b));
    hide RunCalls, EvalBin, EvalIcmp, EvalCast, Norm, Decides, Untag, Truth, Bool, WordVal;
    ValueStep(env, cs, 4, outs, m, Truth(b));
    ValueStep(env, cs, 5, o4, m, WordVal(if b then 1 else 0));
    ValueStep(env, cs, 6, o5, m, Bool(b));
    PushEnds(env, cs, 7, o5 + [Bool(b)], m, Bool(b));
  }

  lemma {:induction false} CompareCode(env: Env, cs: seq<BCall>, pred: Pred, m: Mem, p: (int, int) -> bool)
    requires Ready(env, cs, 0, [], m) && |cs| == 8 && Decides(pred, p)
    requires cs[0] == PopVal && cs[1] == PopVal && cs[2] == Fix2Int(Res(1)) && cs[3] == Fix2Int(Res(0))
    requires cs[4] == IcmpOf(pred, Res(2), Res(3)) && cs[5] == ToLong(Res(4))
    requires cs[6] == BinOf(Mul, Res(5), Word(2)) && cs[7] == PushVal(Res(6))
    ensures Agrees(RunCalls(env, cs, 0, [], m), Compare(View(m), p))
  {
    hide RunCalls, Norm, Decides;
    ComparePops(env, cs, m);
    ViewDrop(m, 0);
    if m.depth >= 2 && IsWord(m.cells[m.depth - 1]) && IsWord(m.cells[m.depth - 2]) {
      ViewDrop(m, 2);
      var v0, v1 := m.cells[m.depth - 1], m.cells[m.depth - 2];
      var outs := [] + [v0] + [v1] + [Int(WORD, Untag(v1))] + [Int(WORD, Untag(v0))];
      CompareEnds(env, cs, pred, p, outs, Popped(Popped(m)), v1, v0);
    }
  }

  lemma {:induction false} CompareAgrees(env: Env, pred: Pred, m: Mem, p: (int, int) -> bool)
    requires MemOk(m) && Decides(pred, p)
    ensures Agrees(RunCalls(env, CompareCalls(pred), 0, [], m), Compare(View(m), p))
  {
    hide RunCalls, Agrees;
    CompareCode(env, CompareCalls(pred), pred, m, p);
  }

  // ---------- moving values ----------

  lemma {:induction false} PushOnly(env: Env, v: Ref, m: Mem)
    requires MemOk(m)
    ensures Agrees(RunCalls(env, [PushVal(v)], 0, [], m), Push(View(m), ValOf(env, v, [])))
  {
    hide RunCalls;
    PushEnds(env, [PushVal(v)], 0, [], m, ValOf(env, v, []));
  }

  lemma {:induction false} PopAgrees(env: Env, m: Mem)
    requires MemOk(m)
    ensures Agrees(RunCalls(env, Calls(Insn.Pop), 0, [], m), Effect(env, Insn.Pop, View(m)))
  {
    var cs := [PopVal];
    PopStep(env, cs, 0, [], m);
    if m.depth > 0 {
      ViewDrop(m, 1);
      Last(env, cs, [] + [TopCell(m)], Popped(m));
    }
  }

  lemma {:induction false} DupAgrees(env: Env, m: Mem)
    requires MemOk(m)
    ensures Agrees(RunCalls(env, Calls(Dup), 0, [], m), Effect(env, Dup, View(m)))
  {
    var cs := [PeekVal(1), PushVal(Res(0))];
    SmallSteps();
    hide RunCalls, Signed, Norm;
    Next(env, cs, 0, [], m);
    if m.depth > 0 {
      ViewDrop(m, 0);
      PushEnds(env, cs, 1, [] + [TopCell(m)], m, TopCell(m));
    }
  }

  lemma SwapEffect(env: Env, s: Frame)
    ensures Effect(env, Swap, s)
         == if |s.stack| < 2 then None else Some(s.(stack := s.stack[..|s.stack| - 2] + [Top(s, 1), Top(s, 2)]))
  {
  }

  lemma {:induction false} SwapPushes(env: Env, cs: seq<BCall>, v1: Val, v2: Val, m: Mem)
    requires Ready(env, cs, 2, [v1, v2], m) && |cs| == 4 && cs[2] == PushVal(Res(0)) && cs[3] == PushVal(Res(1))
    requires m.depth <= CELLS - 2
    ensures Agrees(RunCalls(env, cs, 2, [v1, v2], m), Some(View(m).(stack := View(m).stack + [v1, v2])))
  {
    hide RunCalls;
    Next(env, cs, 2, [v1, v2], m);
    var m3 := m.(cells := m.cells[m.depth := v1], depth := m.depth + 1);
    PushEnds(env, cs, 3, [v1, v2] + [Undef], m3, v2);
    ViewPush(m, v1);
    assert View(m).stack + [v1] + [v2] == View(m).stack + [v1, v2];
  }

  lemma {:induction false} SwapCode(env: Env, cs: seq<BCall>, m: Mem)
    requires Ready(env, cs, 0, [], m) && |cs| == 4 && cs[0] == PopVal && cs[1] == PopVal
    requires cs[2] == PushVal(Res(0)) && cs[3] == PushVal(Res(1))
    ensures Agrees(RunCalls(env, cs, 0, [], m), Effect(env, Swap, View(m)))
  {
    SwapEffect(env, View(m));
    hide RunCalls, Effect;
    PopStep(env, cs, 0, [], m);
    if m.depth > 0 {
      PopStep(env, cs, 1, [] + [TopCell(m)], Popped(m));
      if m.depth > 1 {
        ViewDrop(m, 2);
        var v1, v2 := TopCell(m), TopCell(Popped(m));
        assert [] + [v1] + [v2] == [v1, v2];
        SwapPushes(env, cs, v1, v2, Popped(Popped(m)));
      }
    }
  }

  lemma {:induction false} SwapAgrees(env: Env, m: Mem)
    requires MemOk(m)
    ensures Agrees(RunCalls(env, Calls(Swap), 0, [], m), Effect(env, Swap, View(m)))
  {
    hide RunCalls, Effect, Agrees;
    SwapCode(env, Calls(Swap), m);
  }

  lemma {:induction false} SetLocalAgrees(env: Env, k: int, m: Mem)
    requires MemOk(m) && CInt(k)
    ensures Agrees(RunCalls(env, Calls(SetLocal(k)), 0, [], m), Effect(env, SetLocal(k), View(m)))
  {
    var cs := [PopVal, SetSlot(k, Res(0))];
    SlotIndex(k);
    hide RunCalls, Signed, Norm;
    PopStep(env, cs, 0, [], m);
    if m.depth > 0 {
      ViewDrop(m, 1);
      Next(env, cs, 1, [] + [TopCell(m)], Popped(m));
      if 0 <= k < CELLS {
        Last(env, cs, [] + [TopCell(m)] + [Undef], Popped(m).(locals := m.locals[k := TopCell(m)]));
      }
    }
  }

  lemma SlotIndex(k: int)
    requires CInt(k)
    ensures Signed(WORD, k) == k && Signed(I32, k) == k
  {
  }

  lemma {:induction false} GetLocalAgrees(env: Env, k: int, m: Mem)
    requires MemOk(m) && CInt(k)
    ensures Agrees(RunCalls(env, Calls(GetLocal(k)), 0, [], m), Effect(env, GetLocal(k), View(m)))
  {
    var cs := [GetSlot(k), PushVal(Res(0))];
    SlotIndex(k);
    hide RunCalls, Signed, Norm;
    Next(env, cs, 0, [], m);
    if 0 <= k < CELLS {
      PushEnds(env, cs, 1, [] + [m.locals[k]], m, m.locals[k]);
    }
  }

  // ---------- arrays ----------

  lemma {:induction false} ArefCode(env: Env, cs: seq<BCall>, m: Mem)
    requires Ready(env, cs, 0, [], m) && |cs| == 5
    requires cs[0] == PopVal && cs[1] == Fix2Int(Res(0)) && cs[2] == PopVal
    requires cs[3] == ARef(Res(2), Res(1)) && cs[4] == PushVal(Res(3))
    ensures Agrees(RunCalls(env, cs, 0, [], m), Effect(env, OptAref, View(m)))
  {
    hide RunCalls, Norm, Signed;
    ViewDrop(m, 0);
    PopStep(env, cs, 0, [], m);
    if m.depth > 0 {
      var v0 := TopCell(m);
      FixStep(env, cs, 1, [] + [v0], Popped(m), 0);
      if IsWord(v0) {
        UntagRange(v0);
        var o2 := [] + [v0] + [Int(WORD, Untag(v0))];
        PopStep(env, cs, 2, o2, Popped(m));
        if m.depth > 1 {
          ViewDrop(m, 2);
          var v2, m2 := TopCell(Popped(m)), Popped(Popped(m));
          Next(env, cs, 3, o2 + [v2], m2);
          if ElementOf(v2, o2[1], m.world).Some? {
            var e := ElementOf(v2, o2[1], m.world).value;
            PushEnds(env, cs, 4, o2 + [v2] + [e], m2, e);
          }
        }
      }
    }
  }

  lemma AsetEffect(env: Env, s: Frame)
    ensures Effect(env, OptAset, s)
         == if |s.stack| < 3 || !IsWord(Top(s, 2)) then None
            else
              var args := [Top(s, 3), Int(WORD, Untag(Top(s, 2))), Top(s, 1)];
              Push(Drop(CallWith(env.rt, s, AryStore, args).1, 3), Top(s, 1))
  {
    hide CallWith, Untag, IsWord;
  }

  /** The last three calls, on a stack from which index and value have been taken. */
  lemma {:induction false} AsetFromThird(env: Env, cs: seq<BCall>, v0: Val, v1: Val, m: Mem)
    requires IsWord(v1) && |cs| == 6 && cs[3] == PopVal && Ready(env, cs, 3, [v0, v1, Int(WORD, Untag(v1))], m)
    requires cs[4] == Invoke(AryStore, [Res(3), Res(2), Res(0)]) && cs[5] == PushVal(Res(0))
    ensures var outs := [v0, v1, Int(WORD, Untag(v1))];
      if m.depth == 0 then RunCalls(env, cs, 3, outs, m) == None
      else
        var m' := Popped(m);
        var (_, w) := CallRuntime(env.rt, AryStore, [TopCell(m), Int(WORD, Untag(v1)), v0], m.world);
        Agrees(RunCalls(env, cs, 3, outs, m), Push(View(m'.(world := w)), v0))
  {
    hide RunCalls, CallRuntime, Untag, IsWord, Agrees;
    var outs := [v0, v1, Int(WORD, Untag(v1))];
    PopStep(env, cs, 3, outs, m);
    if m.depth > 0 {
      AsetEnds(env, cs, outs + [TopCell(m)], Popped(m));
    }
  }

  lemma AsetDrops(env: Env, m: Mem, args: seq<Val>)
    requires MemOk(m) && m.depth >= 3
    ensures var w := CallRuntime(env.rt, AryStore, args, m.world).1;
      Drop(CallWith(env.rt, View(m), AryStore, args).1, 3) == View(m.(depth := m.depth - 3, world := w))
  {
    ViewDrop(m, 3);
    hide CallRuntime;
  }

  lemma {:induction false} AsetCode(env: Env, cs: seq<BCall>, m: Mem)
    requires Ready(env, cs, 0, [], m) && |cs| == 6
    requires cs[0] == PopVal && cs[1] == PopVal && cs[2] == Fix2Int(Res(1)) && cs[3] == PopVal
    requires cs[4] == Invoke(AryStore, [Res(3), Res(2), Res(0)]) && cs[5] == PushVal(Res(0))
    ensures Agrees(RunCalls(env, cs, 0, [], m), Effect(env, OptAset, View(m)))
  {
    AsetEffect(env, View(m));
    ViewDrop(m, 0);
    hide RunCalls, Norm, Untag, IsWord, Effect, CallWith, CallRuntime;
    PopStep(env, cs, 0, [], m);
    if m.depth > 0 {
      PopStep(env, cs, 1, [] + [TopCell(m)], Popped(m));
      if m.depth > 1 {
        var v0, v1 := TopCell(m), TopCell(Popped(m));
        FixStep(env, cs, 2, [] + [v0] + [v1], Popped(Popped(m)), 1);
        if IsWord(v1) {
          assert [] + [v0] + [v1] + [Int(WORD, Untag(v1))] == [v0, v1, Int(WORD, Untag(v1))];
          AsetFromThird(env, cs, v0, v1, Popped(Popped(m)));
          if m.depth > 2 {
            AsetDrops(env, m, [m.cells[m.depth - 3], Int(WORD, Untag(v1)), v0]);
          }
        }
      }
    }
  }

  lemma {:induction false} AsetEnds(env: Env, cs: seq<BCall>, outs: seq<Val>, m: Mem)
    requires Ready(env, cs, 4, outs, m) && |outs| == 4 && |cs| == 6
    requires cs[4] == Invoke(AryStore, [Res(3), Res(2), Res(0)]) && cs[5] == PushVal(Res(0))
    ensures var (v, w) := CallRuntime(env.rt, AryStore, [outs[3], outs[2], outs[0]], m.world);
      Agrees(RunCalls(env, cs, 4, outs, m), Push(View(m.(world := w)), outs[0]))
  {
    hide RunCalls;
    assert ValsOf(env, [Res(3), Res(2), Res(0)], outs) == [outs[3], outs[2], outs[0]];
    var (v, w) := CallRuntime(env.rt, AryStore, [outs[3], outs[2], outs[0]], m.world);
    Next(env, cs, 4, outs, m);
    PushEnds(env, cs, 5, outs + [v], m.(world := w), outs[0]);
  }

  lemma LengthStep(env: Env, cs: seq<BCall>, k: nat, outs: seq<Val>, m: Mem, j: nat)
    requires Ready(env, cs, k, outs, m) && k < |cs| && j < k && cs[k] == ALen(Res(j))
    ensures var n := LengthOf(outs[j], m.world);
      if n.None? then RunCalls(env, cs, k, outs, m) == None
      else Ready(env, cs, k + 1, outs + [n.value], m)
           && RunCalls(env, cs, k, outs, m) == RunCalls(env, cs, k + 1, outs + [n.value], m)
  {
    hide LengthOf;
    Next(env, cs, k, outs, m);
  }

  lemma TagStep(env: Env, cs: seq<BCall>, k: nat, outs: seq<Val>, m: Mem, j: nat)
    requires Ready(env, cs, k, outs, m) && k < |cs| && j < k && cs[k] == Num2Fix(Res(j)) && Tagged(outs[j]).Some?
    ensures var v := Tagged(outs[j]).value;
      Ready(env, cs, k + 1, outs + [v], m) && RunCalls(env, cs, k, outs, m) == RunCalls(env, cs, k + 1, outs + [v], m)
  {
    hide Tagged;
    Next(env, cs, k, outs, m);
  }

  lemma LengthEffect(env: Env, s: Frame)
    requires |s.stack| > 0
    ensures var n := LengthOf(Top(s, 1), s.world);
      if n.None? then Effect(env, OptLength, s) == None
      else Tagged(n.value).Some? && Effect(env, OptLength, s) == Push(Drop(s, 1), Tagged(n.value).value)
  {
    if LengthOf(Top(s, 1), s.world).Some? {
      TagNorm(|s.world.arrays[Norm(WORD, Top(s, 1).n)]|);
    }
    hide Norm, Tag, Tagged;
  }

  lemma NoLength(env: Env, s: Frame)
    ensures |s.stack| == 0 ==> Effect(env, OptLength, s) == None
  {
  }

  lemma {:induction false} LengthCode(env: Env, cs: seq<BCall>, m: Mem)
    requires Ready(env, cs, 0, [], m) && |cs| == 4
    requires cs[0] == PopVal && cs[1] == ALen(Res(0)) && cs[2] == Num2Fix(Res(1)) && cs[3] == PushVal(Res(2))
    ensures Agrees(RunCalls(env, cs, 0, [], m), Effect(env, OptLength, View(m)))
  {
    ViewDrop(m, 0);
    NoLength(env, View(m));
    hide RunCalls, Effect, LengthOf, Tagged;
    PopStep(env, cs, 0, [], m);
    if m.depth > 0 {
      ViewDrop(m, 1);
      LengthEffect(env, View(m));
      var v0, m1 := TopCell(m), Popped(m);
      LengthStep(env, cs, 1, [] + [v0], m1, 0);
      var n := LengthOf(v0, m.world);
      if n.Some? {
        TagStep(env, cs, 2, [] + [v0] + [n.value], m1, 1);
        PushEnds(env, cs, 3, [] + [v0] + [n.value] + [Tagged(n.value).value], m1, Tagged(n.value).value);
      }
    }
  }

  // ---------- calls into the interpreter ----------

  lemma InvokeStep(env: Env, cs: seq<BCall>, k: nat, outs: seq<Val>, m: Mem, args: seq<Val>)
    requires Ready(env, cs, k, outs, m) && k < |cs| && cs[k].Invoke? && ValsOf(env, cs[k].args, outs) == args
    ensures var (v, w) := CallRuntime(env.rt, cs[k].callee, args, m.world);
      Ready(env, cs, k + 1, outs + [v], m.(world := w))
      && RunCalls(env, cs, k, outs, m) == RunCalls(env, cs, k + 1, outs + [v], m.(world := w))
  {
    Next(env, cs, k, outs, m);
  }

  lemma {:induction false} GetIvarAgrees(env: Env, sym: int, m: Mem)
    requires MemOk(m)
    ensures Agrees(RunCalls(env, Calls(GetIvar(sym)), 0, [], m), Effect(env, GetIvar(sym), View(m)))
  {
    var cs := Calls(GetIvar(sym));
    hide RunCalls, Norm;
    InvokeStep(env, cs, 0, [], m, [WordVal(sym)]);
    var (id, w1) := CallRuntime(env.rt, ToId, [WordVal(sym)], m.world);
    var m1 := m.(world := w1);
    InvokeStep(env, cs, 1, [] + [id], m1, [env.self, id]);
    var (v, w2) := CallRuntime(env.rt, IvarGet, [env.self, id], w1);
    PushEnds(env, cs, 2, [] + [id] + [v], m.(world := w2), v);
  }

  lemma {:induction false} SetIvarAgrees(env: Env, sym: int, m: Mem)
    requires MemOk(m)
    ensures Agrees(RunCalls(env, Calls(SetIvar(sym)), 0, [], m), Effect(env, SetIvar(sym), View(m)))
  {
    var cs := Calls(SetIvar(sym));
    SmallSteps();
    hide RunCalls, Norm, Signed;
    ViewDrop(m, 0);
    Next(env, cs, 0, [], m);
    if m.depth > 0 {
      var x := TopCell(m);
      InvokeStep(env, cs, 1, [] + [x], m, [WordVal(sym)]);
      var (id, w1) := CallRuntime(env.rt, ToId, [WordVal(sym)], m.world);
      var m1 := m.(world := w1);
      InvokeStep(env, cs, 2, [] + [x] + [id], m1, [env.self, id, x]);
      var (v, w2) := CallRuntime(env.rt, IvarSet, [env.self, id, x], w1);
      Last(env, cs, [] + [x] + [id] + [v], m.(world := w2));
    }
  }

  lemma {:induction false} NewArrayAgrees(env: Env, m: Mem)
    requires MemOk(m)
    ensures Agrees(RunCalls(env, Calls(NewArray), 0, [], m), Effect(env, NewArray, View(m)))
  {
    var cs := Calls(NewArray);
    hide RunCalls;
    InvokeStep(env, cs, 0, [], m, []);
    var (v, w) := CallRuntime(env.rt, AryNew, [], m.world);
    PushEnds(env, cs, 1, [] + [v], m.(world := w), v);
  }

  lemma {:induction false} SendAgrees(env: Env, m: Mem)
    requires MemOk(m)
    ensures Agrees(RunCalls(env, Calls(Send), 0, [], m), Effect(env, Send, View(m)))
  {
    var cs := Calls(Send);
    hide RunCalls;
    InvokeStep(env, cs, 0, [], m, [WordVal(INSPECT)]);
    var (id, w1) := CallRuntime(env.rt, ToId, [WordVal(INSPECT)], m.world);
    var args := [WordVal(NIL), id, Int(I32, 0), Cell(0, 0)];
    InvokeStep(env, cs, 1, [] + [id], m.(world := w1), args);
    var (v, w2) := CallRuntime(env.rt, Funcall2, args, w1);
    PushEnds(env, cs, 2, [] + [id] + [v], m.(world := w2), v);
  }

  // ---------- all of them ----------

  lemma {:induction false} NopAgrees(env: Env, m: Mem)
    requires MemOk(m)
    ensures Agrees(RunCalls(env, [], 0, [], m), Some(View(m)))
  {
  }

  lemma {:induction false} ArrayAgrees(env: Env, insn: Insn, m: Mem)
    requires MemOk(m) && (insn.OptAref? || insn.OptAset? || insn.OptLength?)
    ensures Agrees(RunCalls(env, Calls(insn), 0, [], m), Effect(env, insn, View(m)))
  {
    hide RunCalls, Agrees, Effect;
    match insn
    case OptAref => ArefCode(env, Calls(insn), m);
    case OptAset => AsetCode(env, Calls(insn), m);
    case OptLength => LengthCode(env, Calls(insn), m);
  }

  lemma {:induction false} NumberAgrees(env: Env, insn: Insn, m: Mem)
    requires MemOk(m)
    requires insn.OptPlus? || insn.OptMinus? || insn.OptMult? || insn.OptLt? || insn.OptGt? || insn.OptGe?
    ensures Agrees(RunCalls(env, Calls(insn), 0, [], m), Effect(env, insn, View(m)))
  {
    PlusComputes();
    MinusComputes();
    MultComputes();
    OrderDecides();
    hide RunCalls, Agrees, ArithCalls, CompareCalls, Arith, Compare, Computes, Decides;
    match insn
    case OptPlus => ArithAgrees(env, Add, 1, 3, m, (x, y) => x + y);
    case OptMinus => ArithAgrees(env, Sub, 3, 1, m, (x, y) => x - y);
    case OptMult => ArithAgrees(env, Mul, 1, 3, m, (x, y) => x * y);
    case OptLt => CompareAgrees(env, Slt, m, (x, y) => x < y);
    case OptGt => CompareAgrees(env, Sgt, m, (x, y) => x > y);
    case OptGe => CompareAgrees(env, Sge, m, (x, y) => x >= y);
  }

  /** Every instruction other than a jump or a hash literal. */
  lemma {:induction false} StraightAgrees(env: Env, n: nat, insn: Insn, m: Mem)
    requires MemOk(m) && IsStraight(insn) && WellFormedInsn(n, insn)
    ensures Agrees(RunCalls(env, Calls(insn), 0, [], m), Effect(env, insn, View(m)))
  {
    hide RunCalls, Agrees;
    match insn
    case Nop => NopAgrees(env, m);
    case PutNil => PushOnly(env, Word(NIL), m);
    case PutSelf => PushOnly(env, Self, m);
    case PutObject(w) => PushOnly(env, Word(w), m);
    case Pop => PopAgrees(env, m);
    case Dup => DupAgrees(env, m);
    case Swap => SwapAgrees(env, m);
    case SetLocal(k) => SetLocalAgrees(env, k, m);
    case GetLocal(k) => GetLocalAgrees(env, k, m);
    case GetIvar(sym) => GetIvarAgrees(env, sym, m);
    case SetIvar(sym) => SetIvarAgrees(env, sym, m);
    case NewArray => NewArrayAgrees(env, m);
    case Send => SendAgrees(env, m);
    case OptAref => ArrayAgrees(env, insn, m);
    case OptAset => ArrayAgrees(env, insn, m);
    case OptLength => ArrayAgrees(env, insn, m);
    case _ => NumberAgrees(env, insn, m);
  }

  /** The test before a conditional branch pops a word and compares it with 0. */
  lemma {:induction false} TestMeans(env: Env, m: Mem)
    requires MemOk(m)
    ensures var r := RunCalls(env, TestCalls(), 0, [], m);
      if m.depth == 0 || !IsWord(TopCell(m)) then r == None
      else r == Some(([TopCell(m), Truth(IsZero(TopCell(m)))], Popped(m)))
  {
    var cs := TestCalls();
    hide RunCalls;
    PopStep(env, cs, 0, [], m);
    if m.depth > 0 {
      var v := TopCell(m);
      NormNorm(WORD, 0);
      Next(env, cs, 1, [] + [v], Popped(m));
      if IsWord(v) {
        var b := Truth(IsZero(v));
        assert CallSem(env, cs[1], [] + [v], Popped(m)) == Some((b, Popped(m)));
        Last(env, cs, [] + [v] + [b], Popped(m));
        assert [] + [v] + [b] == [v, b];
      }
    }
  }
}
