// The operand stack in memory refines a sequence, whatever the order of the accesses to it.

module StackRefinement {
  import opened Options
  import opened Words
  import opened IR
  import opened Machine
  import opened StackMachine
  import opened Emission
  import opened ValueCode
  import opened StackCode
  import opened InsnCode

  /** The number that topn is given, when it is one. */
  function Depth32(v: Val): int {
    if v.Int? && v.ty == I32 then Signed(I32, v.n) else -1
  }

  /** The accesses, on a sequence and an array of locals. None when out of bounds. */
  function Access(env: Env, c: BCall, outs: seq<Val>, s: Frame): Option<(Val, Frame)> {
    match c
    case PushVal(v) =>
      if |s.stack| < CELLS then Some((Undef, s.(stack := s.stack + [ValOf(env, v, outs)]))) else None
    case PopVal => if |s.stack| > 0 then Some((Top(s, 1), Drop(s, 1))) else None
    case PeekVal(n) => if 1 <= n <= |s.stack| then Some((Top(s, n), s)) else None
    case TopN(a) =>
      var n := Depth32(ValOf(env, a, outs));
      if 0 <= n < |s.stack| then Some((Top(s, n + 1), s)) else None
    case GetSlot(k) => if 0 <= k < |s.locals| then Some((s.locals[k], s)) else None
    case SetSlot(k, v) =>
      if 0 <= k < |s.locals| then Some((Undef, s.(locals := s.locals[k := ValOf(env, v, outs)]))) else None
    case _ => None
  }

  /** All of them in turn; each can use the results of those before it. */
  function Accesses(env: Env, cs: seq<BCall>, k: nat, outs: seq<Val>, s: Frame): Option<(seq<Val>, Frame)>
    requires k <= |cs|
    decreases |cs| - k
  {
    if k == |cs| then Some((outs, s))
    else
      var r := Access(env, cs[k], outs, s);
      if r.None? then None else Accesses(env, cs, k + 1, outs + [r.value.0], r.value.1)
  }

  lemma SignedSmall(n: int)
    requires -100 <= n <= 100
    ensures Signed(WORD, n) == n
  {
    if n < 0 {
      NormShift(WORD, n, 1);
    }
  }

  lemma SignedFlip(n: int)
    requires 0 <= Signed(I32, n) < CELLS
    ensures Signed(I32, -1 - n) == -1 - Signed(I32, n)
  {
  }

  lemma AccessRefines(env: Env, c: BCall, outs: seq<Val>, m: Mem)
    requires MemOk(m) && Access(env, c, outs, View(m)).Some?
    ensures var r := CallSem(env, c, outs, m);
      r.Some? && MemOk(r.value.1) && Access(env, c, outs, View(m)) == Some((r.value.0, View(r.value.1)))
  {
    ViewPush(m, if c.PushVal? then ValOf(env, c.v, outs) else Undef);
    ViewDrop(m, 0);
    if c.PopVal? {
      ViewDrop(m, 1);
    } else if c.PeekVal? {
      SignedSmall(-c.n);
    } else if c.TopN? {
      SignedFlip(ValOf(env, c.idx, outs).n);
    } else if c.GetSlot? || c.SetSlot? {
      SignedSmall(c.slot);
    }
    hide Signed, ValOf;
  }

  lemma {:induction false} AccessesRefine(env: Env, cs: seq<BCall>, k: nat, outs: seq<Val>, m: Mem)
    requires k <= |cs| && MemOk(m) && Accesses(env, cs, k, outs, View(m)).Some?
    ensures var r := RunCalls(env, cs, k, outs, m);
      r.Some? && MemOk(r.value.1) && Accesses(env, cs, k, outs, View(m)) == Some((r.value.0, View(r.value.1)))
    decreases |cs| - k
  {
    if k < |cs| {
      AccessRefines(env, cs[k], outs, m);
      hide Access, CallSem, View, MemOk;
      var r := CallSem(env, cs[k], outs, m).value;
      AccessesRefine(env, cs, k + 1, outs + [r.0], r.1);
    }
  }

  /**
   * Any interleaving of accesses that stays within bounds on the sequence runs on the memory: the code that the
   * builder emits ends with the same results in its registers, the sequence in the cells below the stack pointer,
   * and the locals as the accesses to them left them.
   */
  lemma StackRefinesSequence(env: Env, h: Handles, r: nat, cs: seq<BCall>, prev: nat, st: State, m: Mem)
    returns (st': State, m': Mem)
    requires Rel(h, st, m) && HandlesBelow(h, r) && Accesses(env, cs, 0, [], View(m)).Some?
    ensures var ops, done := AllOps(h, r, cs, 0, []), Accesses(env, cs, 0, [], View(m)).value;
      Exec(env, Number(ops, r), 0, prev, st) == Fell(st')
      && Rel(h, st', m') && View(m') == done.1
      && OutsHeld(env, AllOuts(h, r, cs, 0, []), done.0, st'.regs, r + |ops|)
  {
    assert MemOk(m);
    hide AllOps, AllOuts, RunCalls, Accesses, Exec, Rel, Number, View, HandlesBelow;
    AccessesRefine(env, cs, 0, [], m);
    CallsRun(env, h, r, cs, 0, [], [], prev, st, m);
    st' := Exec(env, Number(AllOps(h, r, cs, 0, []), r), 0, prev, st).st;
    m' := RunCalls(env, cs, 0, [], m).value.1;
  }

  /** topn(n) reads what peek(n + 1) reads. */
  lemma TopNIsPeek(env: Env, n: nat, m: Mem)
    requires MemOk(m) && n < m.depth
    ensures CallSem(env, TopN(Num(I32, n)), [], m) == CallSem(env, PeekVal(n + 1), [], m)
    ensures CallSem(env, PeekVal(n + 1), [], m) == Some((Top(View(m), n + 1), m))
  {
    SignedSmall(-(n + 1));
    assert Signed(I32, Norm(I32, n)) == n;
    SignedFlip(Norm(I32, n));
    ViewDrop(m, 0);
  }
}
