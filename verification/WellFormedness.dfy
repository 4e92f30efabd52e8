// The compiled function is a well-formed control-flow graph in static single assignment form.

module WellFormedness {
  import opened Words
  import opened IR
  import opened StackMachine
  import opened Emission
  import opened Codegen

  // ---------- what well-formed means, for any function ----------

  /** One terminator, at the end. */
  predicate Closed(block: Block) {
    |block| > 0 && block[|block| - 1].op.IsTerminator()
    && forall k :: 0 <= k < |block| - 1 ==> !block[k].op.IsTerminator()
  }

  function Successors(block: Block): set<nat> {
    if |block| == 0 then {} else block[|block| - 1].op.Targets()
  }

  predicate IsCfg(f: Func) {
    |f| > 0
    && forall b :: 0 <= b < |f| ==> Closed(f[b]) && forall t :: t in Successors(f[b]) ==> 0 < t < |f|
  }

  /** Registers that an operation reads in its own block; a phi reads at the end of its predecessors. */
  function Reads(op: Op): seq<Operand> {
    match op
    case Alloca(_, _) => []
    case Load(p) => [p]
    case Store(v, p) => [v, p]
    case Gep(p, i) => [p, i]
    case StructGep(p, _) => [p]
    case IntToPtr(v) => [v]
    case Bin(_, x, y) => [x, y]
    case Icmp(_, x, y) => [x, y]
    case IntCast(v, _, _) => [v]
    case Phi(_) => []
    case Call(_, args) => args
    case Br(_) => []
    case CondBr(c, _, _) => [c]
    case Ret(v) => [v]
  }

  /** A way through the function from its entry to block b. */
  ghost predicate IsPath(f: Func, path: seq<nat>, b: nat) {
    |path| > 0 && path[0] == 0 && path[|path| - 1] == b
    && (forall i :: 0 <= i < |path| ==> path[i] < |f|)
    && forall i :: 0 <= i < |path| - 1 ==> path[i + 1] in Successors(f[path[i]])
  }

  /** Every way to b goes through d. */
  ghost predicate Dominates(f: Func, d: nat, b: nat) {
    forall path :: IsPath(f, path, b) ==> d in path
  }

  predicate DefinedAt(f: Func, d: nat, k: nat, id: nat) {
    d < |f| && k < |f[d]| && f[d][k].id == id
  }

  /** Register id is defined before position k of block b, on every way there; a terminator defines nothing. */
  ghost predicate Available(f: Func, id: nat, b: nat, k: nat) {
    exists d: nat, j: nat ::
      DefinedAt(f, d, j, id) && !f[d][j].op.IsTerminator() && (if d == b then j < k else Dominates(f, d, b))
  }

  lemma MakesAvailable(f: Func, id: nat, b: nat, k: nat, d: nat, j: nat)
    requires d < |f| && Closed(f[d]) && j < |f[d]| - 1 && f[d][j].id == id
    requires if d == b then j < k else Dominates(f, d, b)
    ensures Available(f, id, b, k)
  {
    assert DefinedAt(f, d, j, id) && !f[d][j].op.IsTerminator();
    hide Dominates;
  }

  ghost predicate ReadsAvailable(f: Func, b: nat, k: nat)
    requires b < |f| && k < |f[b]|
  {
    (forall o :: o in Reads(f[b][k].op) && o.Reg? ==> Available(f, o.id, b, k))
    && (f[b][k].op.Phi? ==>
          forall e :: e in f[b][k].op.incoming && e.0.Reg? ==>
            e.1 < |f| && Available(f, e.0.id, e.1, |f[e.1]|))
  }

  predicate DefinedOnce(f: Func) {
    forall b, k, b', k' ::
      (0 <= b < |f| && 0 <= k < |f[b]| && 0 <= b' < |f| && 0 <= k' < |f[b']| && f[b][k].id == f[b'][k'].id)
      ==> b == b' && k == k'
  }

  predicate ComesFrom(incoming: seq<(Operand, nat)>, p: nat) {
    exists i :: 0 <= i < |incoming| && incoming[i].1 == p
  }

  /** A phi stands at the head of its block and lists each predecessor of the block once, and nothing else. */
  ghost predicate PhiFits(f: Func, b: nat, k: nat)
    requires b < |f| && k < |f[b]|
  {
    f[b][k].op.Phi? ==>
      var incoming := f[b][k].op.incoming;
      (forall j :: 0 <= j < k ==> f[b][j].op.Phi?)
      && (forall p: nat :: p < |f| ==> (b in Successors(f[p]) <==> ComesFrom(incoming, p)))
      && forall i, j :: 0 <= i < j < |incoming| ==> incoming[i].1 != incoming[j].1
  }

  ghost predicate IsSsa(f: Func) {
    DefinedOnce(f)
    && forall b, k :: 0 <= b < |f| && 0 <= k < |f[b]| ==> ReadsAvailable(f, b, k) && PhiFits(f, b, k)
  }

  // ---------- the blocks of a compiled function ----------

  datatype Place = Entry | Main(i: nat) | Extra(i: nat, j: nat) | Exit

  predicate PlaceOk(bc: Bytecode, p: Place) {
    match p
    case Main(i) => i < |bc|
    case Extra(i, j) => i < |bc| && bc[i].NewHash? && j < 3
    case _ => true
  }

  function Before(bc: Bytecode, base: nat, i: nat): Code
    requires WellFormed(bc) && i <= |bc|
  {
    CompileTo(bc, base, i)
  }

  function IndexOf(bc: Bytecode, base: nat, p: Place): nat
    requires WellFormed(bc) && PlaceOk(bc, p)
  {
    match p
    case Entry => 0
    case Main(i) => BlockOf(i)
    case Extra(i, j) => |Before(bc, base, i).blocks| + j
    case Exit => BlockOf(|bc|)
  }

  /** The identity of the first instruction of a block. */
  function StartOf(bc: Bytecode, base: nat, p: Place): nat
    requires WellFormed(bc) && PlaceOk(bc, p)
  {
    match p
    case Entry => base
    case Main(i) => Before(bc, base, i).next
    case Extra(i, j) => Before(bc, base, i).next + (if j == 0 then 2 else if j == 1 then 4 else 19)
    case Exit => Before(bc, base, |bc|).next
  }

  function CodeOf(bc: Bytecode, base: nat, p: Place): seq<Op>
    requires WellFormed(bc) && PlaceOk(bc, p)
  {
    var h := HandlesAt(base);
    match p
    case Entry => EntryOps(base)
    case Main(i) =>
      var c := Before(bc, base, i);
      MainOps(h, c.next, |c.blocks|, |bc|, i, bc[i])
    case Extra(i, j) =>
      var c := Before(bc, base, i);
      if j == 0 then HashHead(c.next, |c.blocks|, bc[i].count)
      else if j == 1 then HashLoop(h, c.next, |c.blocks|, bc[i].count)
      else HashTail(h, c.next, i)
    case Exit => ExitOps(h, Before(bc, base, |bc|).next)
  }

  lemma PlaceBlock(bc: Bytecode, base: nat, p: Place)
    requires WellFormed(bc) && PlaceOk(bc, p)
    ensures var f := Compile(bc, base).blocks;
      IndexOf(bc, base, p) < |f| && f[IndexOf(bc, base, p)] == Number(CodeOf(bc, base, p), StartOf(bc, base, p))
  {
    hide Number, MainOps, ExtraBlocks, HashHead, HashLoop, HashTail, EntryOps, ExitOps, CompileTo, HandlesAt;
    match p
    case Entry => EntryBlock(bc, base);
    case Main(i) => MainBlock(bc, base, i);
    case Extra(i, j) =>
      var c := Before(bc, base, i);
      ExtraKept(bc, base, i);
      HashParts(HandlesAt(base), c.next, |c.blocks|, |bc|, i, bc[i]);
      var f: Func := Compile(bc, base).blocks;
      assert f[|c.blocks|..|c.blocks| + 3][j] == f[|c.blocks| + j];
    case Exit =>
  }

  lemma {:induction false} ExtraPlace(bc: Bytecode, base: nat, k: nat, b: nat) returns (p: Place)
    requires WellFormed(bc) && k <= |bc| && |bc| + 2 <= b < |Before(bc, base, k).blocks|
    ensures PlaceOk(bc, p) && p.Extra? && IndexOf(bc, base, p) == b
    decreases k
  {
    hide MainOps, Number, HandlesAt, EntryOps, Sizes;
    if k > 0 {
      var x := |Before(bc, base, k - 1).blocks|;
      if b < x {
        p := ExtraPlace(bc, base, k - 1, b);
      } else {
        p := Extra(k - 1, b - x);
      }
    }
  }

  /** Every block of the function is one of these. */
  lemma EveryBlock(bc: Bytecode, base: nat, b: nat) returns (p: Place)
    requires WellFormed(bc) && b < |Compile(bc, base).blocks|
    ensures PlaceOk(bc, p) && IndexOf(bc, base, p) == b
  {
    hide CompileTo;
    if b == 0 {
      p := Entry;
    } else if b <= |bc| {
      p := Main(b - 1);
    } else if b == |bc| + 1 {
      p := Exit;
    } else {
      p := ExtraPlace(bc, base, |bc|, b);
    }
  }

  // ---------- operations in sequence ----------

  /** Neither terminators nor phis. */
  predicate Plain(ops: seq<Op>) {
    forall k :: 0 <= k < |ops| ==> !ops[k].IsTerminator() && !ops[k].Phi?
  }

  /** Each register read is one of outer, or was defined earlier in the sequence. */
  predicate Scoped(ops: seq<Op>, r: nat, outer: set<nat>) {
    forall k :: 0 <= k < |ops| ==> ScopedAt(ops[k], r, k, outer)
  }

  predicate ScopedAt(op: Op, r: nat, k: nat, outer: set<nat>) {
    forall o :: o in Reads(op) && o.Reg? ==> o.id in outer || r <= o.id < r + k
  }

  predicate HandlesIn(h: Handles, outer: set<nat>) {
    h.stack.Reg? && h.sp.Reg? && h.locals.Reg? && h.stack.id in outer && h.sp.id in outer && h.locals.id in outer
  }

  predicate AllIn(os: seq<Operand>, outer: set<nat>) {
    forall k :: 0 <= k < |os| && os[k].Reg? ==> os[k].id in outer
  }

  lemma OperandIn(h: Handles, a: Ref, outs: seq<Operand>, outer: set<nat>)
    requires HandlesIn(h, outer) && AllIn(outs, outer)
    ensures var o := OperandOf(h, a, outs); o.Reg? ==> o.id in outer
  {
  }

  lemma StackOpsScoped(h: Handles, r: nat, v: Operand, n: int, outer: set<nat>)
    requires HandlesIn(h, outer) && (v.Reg? ==> v.id in outer)
    ensures Scoped(PushOps(h, r, v), r, outer) && Plain(PushOps(h, r, v))
    ensures Scoped(PopOps(h, r), r, outer) && Plain(PopOps(h, r))
    ensures Scoped(PeekOps(h, r, n), r, outer) && Plain(PeekOps(h, r, n))
    ensures Scoped(TopNOps(h, r, v), r, outer) && Plain(TopNOps(h, r, v))
  {
  }

  lemma SlotOpsScoped(h: Handles, r: nat, v: Operand, n: int, outer: set<nat>)
    requires HandlesIn(h, outer) && (v.Reg? ==> v.id in outer)
    ensures Scoped(GetSlotOps(h, r, n), r, outer) && Plain(GetSlotOps(h, r, n))
    ensures Scoped(SetSlotOps(h, r, n, v), r, outer) && Plain(SetSlotOps(h, r, n, v))
  {
  }

  lemma ValueOpsScoped(r: nat, v: Operand, w: Operand, outer: set<nat>)
    requires (v.Reg? ==> v.id in outer) && (w.Reg? ==> w.id in outer)
    ensures Scoped(Fix2IntOps(v), r, outer) && Plain(Fix2IntOps(v))
    ensures Scoped(Num2FixOps(r, v), r, outer) && Plain(Num2FixOps(r, v))
    ensures Scoped(ALenOps(r, v), r, outer) && Plain(ALenOps(r, v))
    ensures Scoped(ARefOps(r, v, w), r, outer) && Plain(ARefOps(r, v, w))
  {
  }

  lemma ASetScoped(r: nat, v: Operand, w: Operand, u: Operand, outer: set<nat>)
    requires (v.Reg? ==> v.id in outer) && (w.Reg? ==> w.id in outer) && (u.Reg? ==> u.id in outer)
    ensures Scoped(ASetOps(r, v, w, u), r, outer) && Plain(ASetOps(r, v, w, u))
  {
  }

  lemma CallScoped(h: Handles, r: nat, c: BCall, outs: seq<Operand>, outer: set<nat>)
    requires HandlesIn(h, outer) && AllIn(outs, outer)
    ensures Scoped(Ops(h, r, c, outs), r, outer) && Plain(Ops(h, r, c, outs))
  {
    hide OperandOf, HandlesIn, AllIn, PushOps, PopOps, PeekOps, TopNOps, GetSlotOps, SetSlotOps, Fix2IntOps, Num2FixOps,
         ALenOps, ARefOps, ASetOps;
    match c
    case PushVal(v) =>
      OperandIn(h, v, outs, outer);
      StackOpsScoped(h, r, OperandOf(h, v, outs), 0, outer);
    case PopVal => StackOpsScoped(h, r, MISSING, 0, outer);
    case PeekVal(n) => StackOpsScoped(h, r, MISSING, n, outer);
    case TopN(v) =>
      OperandIn(h, v, outs, outer);
      StackOpsScoped(h, r, OperandOf(h, v, outs), 0, outer);
    case GetSlot(n) => SlotOpsScoped(h, r, MISSING, n, outer);
    case SetSlot(n, v) =>
      OperandIn(h, v, outs, outer);
      SlotOpsScoped(h, r, OperandOf(h, v, outs), n, outer);
    case Fix2Int(v) =>
      OperandIn(h, v, outs, outer);
      ValueOpsScoped(r, OperandOf(h, v, outs), MISSING, outer);
    case Num2Fix(v) =>
      OperandIn(h, v, outs, outer);
      ValueOpsScoped(r, OperandOf(h, v, outs), MISSING, outer);
    case ALen(v) =>
      OperandIn(h, v, outs, outer);
      ValueOpsScoped(r, OperandOf(h, v, outs), MISSING, outer);
    case ARef(v, w) =>
      OperandIn(h, v, outs, outer);
      OperandIn(h, w, outs, outer);
      ValueOpsScoped(r, OperandOf(h, v, outs), OperandOf(h, w, outs), outer);
    case ASet(v, w, u) =>
      OperandIn(h, v, outs, outer);
      OperandIn(h, w, outs, outer);
      OperandIn(h, u, outs, outer);
      ASetScoped(r, OperandOf(h, v, outs), OperandOf(h, w, outs), OperandOf(h, u, outs), outer);
    case BinOf(_, x, y) =>
      OperandIn(h, x, outs, outer);
      OperandIn(h, y, outs, outer);
    case IcmpOf(_, x, y) =>
      OperandIn(h, x, outs, outer);
      OperandIn(h, y, outs, outer);
    case ToLong(v) => OperandIn(h, v, outs, outer);
    case Invoke(_, args) =>
      forall i | 0 <= i < |args|
        ensures OperandOf(h, args[i], outs).Reg? ==> OperandOf(h, args[i], outs).id in outer
      {
        OperandIn(h, args[i], outs, outer);
      }
  }

  lemma {:induction false} ScopedAppend(a: seq<Op>, b: seq<Op>, r: nat, outer: set<nat>)
    requires Scoped(a, r, outer) && Scoped(b, r + |a|, outer + Ids(r, |a|))
    ensures Scoped(a + b, r, outer)
  {
    forall k | 0 <= k < |a + b|
      ensures ScopedAt((a + b)[k], r, k, outer)
    {
      if k >= |a| {
        assert ScopedAt(b[k - |a|], r + |a|, k - |a|, outer + Ids(r, |a|));
      }
    }
  }

  function Ids(r: nat, n: nat): (ids: set<nat>)
    ensures forall id :: id in ids <==> r <= id < r + n
  {
    if n == 0 then {} else Ids(r, n - 1) + {r + n - 1}
  }

  lemma {:induction false} AllOpsScoped(h: Handles, r: nat, cs: seq<BCall>, k: nat, outs: seq<Operand>, outer: set<nat>)
    requires HandlesIn(h, outer) && AllIn(outs, outer) && k <= |cs|
    ensures Scoped(AllOps(h, r, cs, k, outs), r, outer) && Plain(AllOps(h, r, cs, k, outs))
    decreases |cs| - k
  {
    hide Ops, ScopedAt;
    if k < |cs| {
      var ops := Ops(h, r, cs[k], outs);
      CallScoped(h, r, cs[k], outs, outer);
      AllOpsScoped(h, r + |ops|, cs, k + 1, outs + [Reg(r + |ops| - 1)], outer + Ids(r, |ops|));
      ScopedAppend(ops, AllOps(h, r + |ops|, cs, k + 1, outs + [Reg(r + |ops| - 1)]), r, outer);
    }
  }

  // ---------- each block ----------

  function HandleIds(base: nat): set<nat> {
    {base, base + 1, base + 3}
  }

  /** Registers from other blocks that a block reads. */
  function Outer(bc: Bytecode, base: nat, p: Place): set<nat>
    requires WellFormed(bc) && PlaceOk(bc, p)
  {
    match p
    case Entry => {}
    case Extra(i, _) => HandleIds(base) + {Before(bc, base, i).next}
    case _ => HandleIds(base)
  }

  /** The code of a block: perhaps a phi, plain operations, a terminator. */
  predicate Shaped(ops: seq<Op>, r: nat, outer: set<nat>, phi: bool) {
    |ops| > 0 && ops[|ops| - 1].IsTerminator() && Scoped(ops, r, outer)
    && (forall k :: 0 <= k < |ops| - 1 ==> !ops[k].IsTerminator())
    && (forall k :: 0 <= k < |ops| && ops[k].Phi? ==> phi && k == 0)
  }

  lemma ShapedBy(inner: seq<Op>, t: Op, r: nat, outer: set<nat>)
    requires Plain(inner) && t.IsTerminator() && Scoped(inner, r, outer) && ScopedAt(t, r, |inner|, outer)
    ensures Shaped(inner + [t], r, outer, false)
  {
    forall k | 0 <= k < |inner + [t]|
      ensures ScopedAt((inner + [t])[k], r, k, outer)
    {
      assert k < |inner| ==> ScopedAt(inner[k], r, k, outer);
    }
  }

  lemma {:induction false} GlobalsScoped(base: nat)
    ensures |GlobalOps(base)| == 4 && Scoped(GlobalOps(base), base, {}) && Plain(GlobalOps(base))
    ensures var p := PushOps(HandlesAt(base), base + 4, Arg(1)); Scoped(p, base + 4, {} + Ids(base, 4)) && Plain(p)
  {
    StackOpsScoped(HandlesAt(base), base + 4, Arg(1), 0, {} + Ids(base, 4));
    hide PushOps;
  }

  lemma PlainAppend(a: seq<Op>, b: seq<Op>)
    requires Plain(a) && Plain(b)
    ensures Plain(a + b)
  {
  }

  lemma EntryShaped(base: nat)
    ensures Shaped(EntryOps(base), base, {}, false)
  {
    var a, p := GlobalOps(base), PushOps(HandlesAt(base), base + 4, Arg(1));
    GlobalsScoped(base);
    hide GlobalOps, PushOps, Scoped, Plain, HandlesAt;
    ScopedAppend(a, p, base, {});
    PlainAppend(a, p);
    ShapedBy(a + p, Br(1), base, {});
    assert EntryOps(base) == (a + p) + [Br(1)];
  }

  lemma {:induction false} TestShaped(h: Handles, r: nat, yes: nat, no: nat, outer: set<nat>)
    requires HandlesIn(h, outer)
    ensures Shaped(AllOps(h, r, TestCalls(), 0, []) + [CondBr(Reg(r + 4), yes, no)], r, outer, false)
  {
    TestNumbers(h, r);
    NoneIn(outer);
    hide AllOps, TestCalls, Scoped, Plain, HandlesIn, AllIn;
    AllOpsScoped(h, r, TestCalls(), 0, [], outer);
    ShapedBy(AllOps(h, r, TestCalls(), 0, []), CondBr(Reg(r + 4), yes, no), r, outer);
  }

  lemma NoneIn(outer: set<nat>)
    ensures AllIn([], outer)
  {
  }

  lemma {:induction false} CodeShaped(h: Handles, r: nat, cs: seq<BCall>, to: nat, outer: set<nat>)
    requires HandlesIn(h, outer)
    ensures Shaped(AllOps(h, r, cs, 0, []) + [Br(to)], r, outer, false)
  {
    NoneIn(outer);
    hide AllOps, Scoped, Plain, HandlesIn, AllIn;
    AllOpsScoped(h, r, cs, 0, [], outer);
    ShapedBy(AllOps(h, r, cs, 0, []), Br(to), r, outer);
  }

  lemma ShortShaped(x: nat, r: nat, outer: set<nat>)
    ensures Shaped([Br(x)], r, outer, false) && Shaped(HashMain(x), r, outer, false)
  {
    ShapedBy([], Br(x), r, outer);
    assert [] + [Br(x)] == [Br(x)];
    ShapedBy([Op.Call(HashNew, [])], Br(x), r, outer);
    assert HashMain(x) == [Op.Call(HashNew, [])] + [Br(x)];
  }

  lemma MainShaped(h: Handles, r: nat, x: nat, n: nat, i: nat, insn: Insn, outer: set<nat>)
    requires WellFormedInsn(n, insn) && HandlesIn(h, outer)
    ensures Shaped(MainOps(h, r, x, n, i, insn), r, outer, false)
  {
    hide *;
    if IsStraight(insn) {
      StraightOps(h, r, x, n, i, insn);
      CodeShaped(h, r, Calls(insn), BlockOf(i + 1), outer);
    } else if IsJump(insn) {
      JumpOps(h, r, x, n, i, insn);
      var t, next := BlockOf(Target(n, insn.target)), BlockOf(i + 1);
      ShortShaped(t, r, outer);
      TestShaped(h, r, next, t, outer);
      TestShaped(h, r, t, next, outer);
    } else {
      NewHashOps(h, r, x, n, i, insn);
      ShortShaped(x, r, outer);
    }
  }

  lemma {:induction false} ThenScoped(first: Op, rest: seq<Op>, t: Op, r: nat, outer: set<nat>)
    requires !first.IsTerminator() && Plain(rest) && t.IsTerminator() && ScopedAt(first, r, 0, outer)
    requires Scoped(rest, r + 1, outer + Ids(r, 1)) && ScopedAt(t, r, 1 + |rest|, outer)
    ensures Shaped([first] + (rest + [t]), r, outer, true)
  {
    ScopedAppend([first], rest, r, outer);
    var ops := [first] + rest;
    assert [first] + (rest + [t]) == ops + [t];
    forall k | 0 <= k < |ops + [t]|
      ensures ScopedAt((ops + [t])[k], r, k, outer)
    {
      assert k < |ops| ==> ScopedAt(ops[k], r, k, outer);
    }
  }

  lemma LoopEndsScoped(r: nat, x: nat, count: int, outer: set<nat>)
    ensures var phi, t := HashPhi(r, x, count), CondBr(Reg(r + 17), x + 1, x + 2);
      !phi.IsTerminator() && t.IsTerminator() && ScopedAt(phi, r + 4, 0, outer) && ScopedAt(t, r + 4, 14, outer)
  {
  }

  lemma BodyScoped(h: Handles, r: nat, outer: set<nat>)
    requires HandlesIn(h, outer) && r in outer
    ensures var body := AllOps(h, r + 5, LoopCalls(), 0, [Reg(r), Reg(r + 4)]);
      Plain(body) && Scoped(body, r + 5, outer + Ids(r + 4, 1))
  {
    var outer1 := outer + Ids(r + 4, 1);
    assert AllIn([Reg(r), Reg(r + 4)], outer1) && HandlesIn(h, outer1);
    hide AllOps, LoopCalls, Scoped, AllIn, Plain, HandlesIn;
    AllOpsScoped(h, r + 5, LoopCalls(), 0, [Reg(r), Reg(r + 4)], outer1);
  }

  lemma LoopShaped(h: Handles, r: nat, x: nat, count: int, outer: set<nat>)
    requires HandlesIn(h, outer) && r in outer
    ensures Shaped(HashLoop(h, r, x, count), r + 4, outer, true)
  {
    hide AllOps, LoopCalls, Shaped, Scoped, ScopedAt, Plain, HashPhi;
    LoopNumbers(h, r);
    LoopEndsScoped(r, x, count, outer);
    BodyScoped(h, r, outer);
    var body := AllOps(h, r + 5, LoopCalls(), 0, [Reg(r), Reg(r + 4)]);
    ThenScoped(HashPhi(r, x, count), body, CondBr(Reg(r + 17), x + 1, x + 2), r + 4, outer);
  }

  lemma HeadShaped(r: nat, x: nat, count: int, outer: set<nat>)
    ensures Shaped(HashHead(r, x, count), r + 2, outer, false)
  {
    var cmp := Icmp(Sgt, Const(I32, count), Const(I32, 0));
    ShapedBy([cmp], CondBr(Reg(r + 2), x + 1, x + 2), r + 2, outer);
    assert HashHead(r, x, count) == [cmp] + [CondBr(Reg(r + 2), x + 1, x + 2)];
  }

  lemma TailShaped(h: Handles, r: nat, i: nat, outer: set<nat>)
    requires HandlesIn(h, outer) && r in outer
    ensures Shaped(HashTail(h, r, i), r + 19, outer, false)
  {
    StackOpsScoped(h, r + 19, Reg(r), 0, outer);
    hide PushOps;
    ShapedBy(PushOps(h, r + 19, Reg(r)), Br(BlockOf(i + 1)), r + 19, outer);
  }

  lemma ExitShaped(h: Handles, r: nat, outer: set<nat>)
    requires HandlesIn(h, outer)
    ensures Shaped(ExitOps(h, r), r, outer, false)
  {
    StackOpsScoped(h, r, MISSING, 0, outer);
    assert |PopOps(h, r)| == 4;
    hide PopOps;
    ShapedBy(PopOps(h, r), Ret(Reg(r + 3)), r, outer);
  }

  lemma OuterOfExtra(bc: Bytecode, base: nat, i: nat, j: nat)
    requires WellFormed(bc) && PlaceOk(bc, Extra(i, j))
    ensures var outer := Outer(bc, base, Extra(i, j));
      HandlesIn(HandlesAt(base), outer) && Before(bc, base, i).next in outer
  {
    hide CompileTo;
  }

  /** The extra blocks of a hash literal: their code and where their identities start. */
  lemma ExtraCode(bc: Bytecode, base: nat, i: nat, j: nat)
    requires WellFormed(bc) && PlaceOk(bc, Extra(i, j))
    ensures j < 3 && i < |bc| && bc[i].NewHash?
    ensures var c, count := Before(bc, base, i), bc[i].count;
      CodeOf(bc, base, Extra(i, j)) == (if j == 0 then HashHead(c.next, |c.blocks|, count)
                                        else if j == 1 then HashLoop(HandlesAt(base), c.next, |c.blocks|, count)
                                        else HashTail(HandlesAt(base), c.next, i))
      && StartOf(bc, base, Extra(i, j)) == c.next + (if j == 0 then 2 else if j == 1 then 4 else 19)
  {
    hide HashHead, HashLoop, HashTail, CompileTo, HandlesAt, WellFormed;
  }

  lemma ExtraShaped(bc: Bytecode, base: nat, i: nat, j: nat)
    requires WellFormed(bc) && PlaceOk(bc, Extra(i, j))
    ensures Shaped(CodeOf(bc, base, Extra(i, j)), StartOf(bc, base, Extra(i, j)), Outer(bc, base, Extra(i, j)), j == 1)
  {
    hide *;
    OuterOfExtra(bc, base, i, j);
    ExtraCode(bc, base, i, j);
    var h, outer, c := HandlesAt(base), Outer(bc, base, Extra(i, j)), Before(bc, base, i);
    if j == 0 {
      HeadShaped(c.next, |c.blocks|, bc[i].count, outer);
    } else if j == 1 {
      LoopShaped(h, c.next, |c.blocks|, bc[i].count, outer);
    } else {
      TailShaped(h, c.next, i, outer);
    }
  }

  lemma HandlesAreIn(base: nat)
    ensures HandlesIn(HandlesAt(base), HandleIds(base))
  {
  }

  lemma PlaceShaped(bc: Bytecode, base: nat, p: Place)
    requires WellFormed(bc) && PlaceOk(bc, p)
    ensures Shaped(CodeOf(bc, base, p), StartOf(bc, base, p), Outer(bc, base, p), p.Extra? && p.j == 1)
  {
    HandlesAreIn(base);
    hide HandleIds, HandlesAt, MainOps, EntryOps, ExitOps, CompileTo, Shaped, HandlesIn;
    match p
    case Entry => EntryShaped(base);
    case Main(i) =>
      var c := Before(bc, base, i);
      MainShaped(HandlesAt(base), c.next, |c.blocks|, |bc|, i, bc[i], HandleIds(base));
    case Extra(i, j) => ExtraShaped(bc, base, i, j);
    case Exit => ExitShaped(HandlesAt(base), Before(bc, base, |bc|).next, HandleIds(base));
  }

  // ---------- no result is missing ----------

  predicate Found(ops: seq<Op>) {
    forall k :: 0 <= k < |ops| ==> MISSING !in Reads(ops[k])
  }

  predicate NotMissing(os: seq<Operand>) {
    forall k :: 0 <= k < |os| ==> os[k] != MISSING
  }

  predicate Registers(h: Handles) {
    h.stack.Reg? && h.sp.Reg? && h.locals.Reg?
  }

  lemma RefFound(h: Handles, a: Ref, outs: seq<Operand>)
    requires Registers(h) && NotMissing(outs) && RefOk(a, |outs|)
    ensures OperandOf(h, a, outs) != MISSING
  {
  }

  lemma StackOpsFound(h: Handles, r: nat, v: Operand, n: int)
    requires Registers(h) && v != MISSING
    ensures Found(PushOps(h, r, v)) && Found(PopOps(h, r)) && Found(PeekOps(h, r, n)) && Found(TopNOps(h, r, v))
    ensures Found(GetSlotOps(h, r, n)) && Found(SetSlotOps(h, r, n, v))
  {
  }

  lemma ValueOpsFound(r: nat, v: Operand, w: Operand, u: Operand)
    requires v != MISSING && w != MISSING && u != MISSING
    ensures Found(Fix2IntOps(v)) && Found(Num2FixOps(r, v)) && Found(ALenOps(r, v)) && Found(ARefOps(r, v, w))
    ensures Found(ASetOps(r, v, w, u))
  {
  }

  lemma CallFound(h: Handles, r: nat, c: BCall, outs: seq<Operand>)
    requires Registers(h) && NotMissing(outs) && CallOk(c, |outs|)
    ensures Found(Ops(h, r, c, outs))
  {
    hide OperandOf, RefOk, NotMissing, PushOps, PopOps, PeekOps, TopNOps, GetSlotOps, SetSlotOps, Fix2IntOps,
         Num2FixOps, ALenOps, ARefOps, ASetOps;
    forall a | RefOk(a, |outs|)
      ensures OperandOf(h, a, outs) != MISSING
    {
      RefFound(h, a, outs);
    }
    match c
    case PushVal(v) => StackOpsFound(h, r, OperandOf(h, v, outs), 0);
    case PopVal => StackOpsFound(h, r, h.sp, 0);
    case PeekVal(n) => StackOpsFound(h, r, h.sp, n);
    case TopN(v) => StackOpsFound(h, r, OperandOf(h, v, outs), 0);
    case GetSlot(n) => StackOpsFound(h, r, h.sp, n);
    case SetSlot(n, v) => StackOpsFound(h, r, OperandOf(h, v, outs), n);
    case Fix2Int(v) => ValueOpsFound(r, OperandOf(h, v, outs), h.sp, h.sp);
    case Num2Fix(v) => ValueOpsFound(r, OperandOf(h, v, outs), h.sp, h.sp);
    case ALen(v) => ValueOpsFound(r, OperandOf(h, v, outs), h.sp, h.sp);
    case ARef(v, w) => ValueOpsFound(r, OperandOf(h, v, outs), OperandOf(h, w, outs), h.sp);
    case ASet(v, w, u) => ValueOpsFound(r, OperandOf(h, v, outs), OperandOf(h, w, outs), OperandOf(h, u, outs));
    case Invoke(_, args) =>
      assert forall i :: 0 <= i < |args| ==> RefOk(args[i], |outs|) && OperandOf(h, args[i], outs) != MISSING;
    case _ =>
  }

  lemma {:induction false} AllFound(h: Handles, r: nat, cs: seq<BCall>, k: nat, outs: seq<Operand>)
    requires Registers(h) && NotMissing(outs) && k <= |cs| && k <= |outs|
    requires forall j :: k <= j < |cs| ==> CallOk(cs[j], |outs| - k + j)
    ensures Found(AllOps(h, r, cs, k, outs))
    decreases |cs| - k
  {
    hide Ops, CallOk, Reads;
    if k < |cs| {
      var ops := Ops(h, r, cs[k], outs);
      assert CallOk(cs[k], |outs| - k + k);
      CallFound(h, r, cs[k], outs);
      AllFound(h, r + |ops|, cs, k + 1, outs + [Reg(r + |ops| - 1)]);
    }
  }

  lemma InsnFound(h: Handles, r: nat, insn: Insn)
    requires Registers(h)
    ensures Found(AllOps(h, r, Calls(insn), 0, [])) && Found(AllOps(h, r, TestCalls(), 0, []))
    ensures Found(AllOps(h, r + 5, LoopCalls(), 0, [Reg(r), Reg(r + 4)]))
  {
    CallsScoped(insn);
    LoopCallsScoped();
    hide Calls, TestCalls, LoopCalls, CallOk, Found, AllOps;
    AllFound(h, r, Calls(insn), 0, []);
    AllFound(h, r, TestCalls(), 0, []);
    AllFound(h, r + 5, LoopCalls(), 0, [Reg(r), Reg(r + 4)]);
  }

  lemma FoundThen(first: seq<Op>, inner: seq<Op>, t: Op)
    requires Found(first) && Found(inner) && MISSING !in Reads(t)
    ensures Found(inner + [t]) && Found(first + (inner + [t]))
  {
    hide Reads;
  }

  lemma BranchFound(c: Operand, yes: nat, no: nat)
    requires c.Reg?
    ensures MISSING !in Reads(CondBr(c, yes, no)) && MISSING !in Reads(Br(yes))
  {
  }

  lemma {:induction false} TestFound(h: Handles, r: nat, yes: nat, no: nat)
    requires Registers(h)
    ensures Found(AllOps(h, r, TestCalls(), 0, []) + [CondBr(Reg(r + 4), yes, no)])
  {
    hide *;
    InsnFound(h, r, Nop);
    BranchFound(Reg(r + 4), yes, no);
    NothingFound();
    FoundThen([], AllOps(h, r, TestCalls(), 0, []), CondBr(Reg(r + 4), yes, no));
  }

  lemma StraightFound(h: Handles, r: nat, x: nat, n: nat, i: nat, insn: Insn)
    requires Registers(h) && WellFormedInsn(n, insn) && IsStraight(insn)
    ensures Found(MainOps(h, r, x, n, i, insn))
  {
    hide *;
    InsnFound(h, r, insn);
    StraightOps(h, r, x, n, i, insn);
    BranchFound(Reg(r), BlockOf(i + 1), 0);
    NothingFound();
    FoundThen([], AllOps(h, r, Calls(insn), 0, []), Br(BlockOf(i + 1)));
  }

  lemma ShortFound(x: nat)
    ensures Found([Br(x)]) && Found(HashMain(x))
  {
  }

  lemma NewHashOps(h: Handles, r: nat, x: nat, n: nat, i: nat, insn: Insn)
    requires WellFormedInsn(n, insn) && !IsStraight(insn) && !IsJump(insn)
    ensures MainOps(h, r, x, n, i, insn) == HashMain(x)
  {
    hide HashMain;
  }

  lemma MainFound(h: Handles, r: nat, x: nat, n: nat, i: nat, insn: Insn)
    requires Registers(h) && WellFormedInsn(n, insn)
    ensures Found(MainOps(h, r, x, n, i, insn))
  {
    hide *;
    if IsStraight(insn) {
      StraightFound(h, r, x, n, i, insn);
    } else if IsJump(insn) {
      JumpOps(h, r, x, n, i, insn);
      var t, next := BlockOf(Target(n, insn.target)), BlockOf(i + 1);
      ShortFound(t);
      TestFound(h, r, next, t);
      TestFound(h, r, t, next);
    } else {
      NewHashOps(h, r, x, n, i, insn);
      ShortFound(x);
    }
  }

  lemma NothingFound()
    ensures Found([])
  {
  }

  lemma PhiFound(r: nat, x: nat, count: int)
    ensures Found([HashPhi(r, x, count)])
  {
  }

  lemma LoopFound(h: Handles, r: nat, x: nat, count: int)
    requires Registers(h)
    ensures Found(HashLoop(h, r, x, count))
  {
    InsnFound(h, r, Nop);
    PhiFound(r, x, count);
    BranchFound(Reg(r + 17), x + 1, x + 2);
    hide AllOps, LoopCalls, HashPhi, Found, Reads;
    FoundThen([HashPhi(r, x, count)], AllOps(h, r + 5, LoopCalls(), 0, [Reg(r), Reg(r + 4)]),
              CondBr(Reg(r + 17), x + 1, x + 2));
  }

  lemma OthersFound(base: nat, h: Handles, r: nat, x: nat, i: nat, count: int)
    requires Registers(h)
    ensures Found(EntryOps(base)) && Found(HashHead(r, x, count)) && Found(HashTail(h, r, i)) && Found(ExitOps(h, r))
  {
    StackOpsFound(HandlesAt(base), base + 4, Arg(1), 0);
    StackOpsFound(h, r + 19, Reg(r), 0);
    StackOpsFound(h, r, Reg(r), 0);
    assert Found(GlobalOps(base));
    hide PushOps, PopOps, GlobalOps;
  }

  /**
   * No instruction of a compiled function reads a result that does not exist: every result that a helper is given has
   * been returned by an earlier one.
   */
  lemma NothingMissing(bc: Bytecode, base: nat, b: nat, k: nat)
    requires WellFormed(bc) && b < |Compile(bc, base).blocks| && k < |Compile(bc, base).blocks[b]|
    ensures MISSING !in Reads(Compile(bc, base).blocks[b][k].op)
  {
    var p := EveryBlock(bc, base, b);
    PlaceBlock(bc, base, p);
    PlaceFound(bc, base, p);
    hide Compile, CompileTo, CodeOf, StartOf, IndexOf, Number, Reads;
  }

  lemma PlaceFound(bc: Bytecode, base: nat, p: Place)
    requires WellFormed(bc) && PlaceOk(bc, p)
    ensures Found(CodeOf(bc, base, p))
  {
    var h := HandlesAt(base);
    assert Registers(h);
    hide HandlesAt, MainOps, EntryOps, ExitOps, HashHead, HashLoop, HashTail, CompileTo, Found, Registers;
    match p
    case Entry => OthersFound(base, h, 0, 0, 0, 0);
    case Main(i) =>
      var c := Before(bc, base, i);
      MainFound(h, c.next, |c.blocks|, |bc|, i, bc[i]);
    case Extra(i, j) =>
      var c := Before(bc, base, i);
      OthersFound(base, h, c.next, |c.blocks|, i, bc[i].count);
      LoopFound(h, c.next, |c.blocks|, bc[i].count);
    case Exit => OthersFound(base, h, Before(bc, base, |bc|).next, 0, 0, 0);
  }

  // ---------- control flow ----------

  /** Where a block can go. */
  function Next(bc: Bytecode, base: nat, p: Place): set<nat>
    requires WellFormed(bc) && PlaceOk(bc, p)
  {
    match p
    case Entry => {1}
    case Main(i) =>
      (match bc[i]
       case Jump(t) => {BlockOf(Target(|bc|, t))}
       case BranchIf(t) => {BlockOf(i + 1), BlockOf(Target(|bc|, t))}
       case BranchUnless(t) => {BlockOf(i + 1), BlockOf(Target(|bc|, t))}
       case NewHash(_) => {|Before(bc, base, i).blocks|}
       case _ => {BlockOf(i + 1)})
    case Extra(i, j) =>
      var x := |Before(bc, base, i).blocks|;
      if j < 2 then {x + 1, x + 2} else {BlockOf(i + 1)}
    case Exit => {}
  }

  lemma PlaceTargets(bc: Bytecode, base: nat, p: Place)
    requires WellFormed(bc) && PlaceOk(bc, p)
    ensures var ops := CodeOf(bc, base, p); |ops| > 0 && ops[|ops| - 1].Targets() == Next(bc, base, p)
  {
    hide AllOps, Calls, TestCalls, CompileTo, PushOps, PopOps, GlobalOps, LoopCalls;
  }

  lemma PlaceSuccessors(bc: Bytecode, base: nat, p: Place)
    requires WellFormed(bc) && PlaceOk(bc, p)
    ensures var f, b := Compile(bc, base).blocks, IndexOf(bc, base, p);
      b < |f| && Successors(f[b]) == Next(bc, base, p) && forall t :: t in Successors(f[b]) ==> t < |f|
  {
    hide CodeOf, Number, Compile, CompileTo, StartOf;
    PlaceBlock(bc, base, p);
    PlaceTargets(bc, base, p);
    if p.Extra? {
      PlaceBlock(bc, base, Extra(p.i, 1));
      PlaceBlock(bc, base, Extra(p.i, 2));
    }
    if p.Main? && bc[p.i].NewHash? {
      PlaceBlock(bc, base, Extra(p.i, 0));
    }
  }

  lemma PlaceClosed(bc: Bytecode, base: nat, p: Place)
    requires WellFormed(bc) && PlaceOk(bc, p)
    ensures var f: Func, b := Compile(bc, base).blocks, IndexOf(bc, base, p); b < |f| && Closed(f[b])
  {
    PlaceBlock(bc, base, p);
    PlaceShaped(bc, base, p);
    hide CodeOf, Number, Compile, CompileTo, StartOf, IndexOf, Outer, Scoped;
  }

  lemma NeverEntry(bc: Bytecode, base: nat, p: Place)
    requires WellFormed(bc) && PlaceOk(bc, p)
    ensures 0 !in Next(bc, base, p)
  {
    hide CompileTo;
  }

  /**
   * Every block ends in its only terminator, and goes only to blocks of the function, never back to the entry block.
   */
  lemma CompiledIsCfg(bc: Bytecode, base: nat)
    requires WellFormed(bc)
    ensures IsCfg(Compile(bc, base).blocks)
  {
    hide Compile, CompileTo, Next, IndexOf, Closed, Successors;
    var f: Func := Compile(bc, base).blocks;
    forall b | 0 <= b < |f|
      ensures Closed(f[b]) && forall t :: t in Successors(f[b]) ==> 0 < t < |f|
    {
      var p := EveryBlock(bc, base, b);
      PlaceClosed(bc, base, p);
      PlaceSuccessors(bc, base, p);
      NeverEntry(bc, base, p);
    }
  }

  // ---------- identities ----------

  /** The instructions that come of one part of the bytecode: entry first, then each instruction, then exit. */
  function Rank(bc: Bytecode, p: Place): nat {
    match p
    case Entry => 0
    case Main(i) => i + 1
    case Extra(i, _) => i + 1
    case Exit => |bc| + 1
  }

  lemma PlaceSize(bc: Bytecode, base: nat, p: Place)
    requires WellFormed(bc) && PlaceOk(bc, p)
    ensures p.Entry? ==> |CodeOf(bc, base, p)| == 9
    ensures p.Main? && bc[p.i].NewHash? ==> |CodeOf(bc, base, p)| == 2
    ensures p.Extra? ==> |CodeOf(bc, base, p)| == (if p.j == 0 then 2 else if p.j == 1 then 15 else 5)
  {
    if p.Entry? {
      assert |EntryOps(base)| == 9;
    } else if p.Extra? {
      ExtraSize(bc, base, p.i, p.j);
    } else if p.Main? && bc[p.i].NewHash? {
      var c := Before(bc, base, p.i);
      HashParts(HandlesAt(base), c.next, |c.blocks|, |bc|, p.i, bc[p.i]);
    }
    hide EntryOps, CompileTo, HandlesAt, MainOps, HashHead, HashLoop, HashTail, ExitOps;
  }

  lemma ExtraSize(bc: Bytecode, base: nat, i: nat, j: nat)
    requires WellFormed(bc) && PlaceOk(bc, Extra(i, j))
    ensures |CodeOf(bc, base, Extra(i, j))| == (if j == 0 then 2 else if j == 1 then 15 else 5)
  {
    hide CompileTo, HandlesAt, HashHead, HashLoop, HashTail;
    var c := Before(bc, base, i);
    HashSizes(HandlesAt(base), c.next, |c.blocks|, bc[i].count);
  }

  lemma NextAfter(bc: Bytecode, base: nat, i: nat)
    requires WellFormed(bc) && i < |bc|
    ensures var c := Before(bc, base, i);
      Before(bc, base, i + 1).next
        == c.next + |CodeOf(bc, base, Main(i))| + Sizes(ExtraBlocks(HandlesAt(base), c.next, |c.blocks|, i, bc[i]))
  {
    hide MainOps, ExtraBlocks, HandlesAt, Sizes;
  }

  /** Where the identities of a part end. */
  lemma PlaceFits(bc: Bytecode, base: nat, p: Place)
    requires WellFormed(bc) && PlaceOk(bc, p) && (p.Main? || p.Extra?)
    ensures Before(bc, base, p.i).next <= StartOf(bc, base, p)
    ensures StartOf(bc, base, p) + |CodeOf(bc, base, p)| <= Before(bc, base, p.i + 1).next
  {
    var i := p.i;
    var c := Before(bc, base, i);
    NextAfter(bc, base, i);
    PlaceSize(bc, base, p);
    if bc[i].NewHash? {
      PlaceSize(bc, base, Main(i));
      HashTotal(HandlesAt(base), c.next, |c.blocks|, |bc|, i, bc[i]);
    }
    hide CodeOf, CompileTo, Sizes, ExtraBlocks, HandlesAt;
  }

  lemma HashTotal(h: Handles, r: nat, x: nat, n: nat, i: nat, insn: Insn)
    requires WellFormedInsn(n, insn) && insn.NewHash?
    ensures Sizes(ExtraBlocks(h, r, x, i, insn)) == 22
  {
    HashParts(h, r, x, n, i, insn);
    HashSizes(h, r, x, insn.count);
    hide AllOps, LoopCalls, HashHead, HashLoop, HashTail, Number;
    var e := ExtraBlocks(h, r, x, i, insn);
    assert e[1..] == [e[1], e[2]] && e[1..][1..] == [e[2]] && [e[2]][1..] == [];
    assert Sizes([e[2]]) == |e[2]| + Sizes([]);
  }

  lemma {:induction false} NextGrows(bc: Bytecode, base: nat, i: nat, j: nat)
    requires WellFormed(bc) && i <= j <= |bc|
    ensures base + 9 <= Before(bc, base, i).next <= Before(bc, base, j).next
    decreases j
  {
    hide CodeOf, CompileTo, Sizes, ExtraBlocks, HandlesAt;
    if i < j {
      NextAfter(bc, base, j - 1);
      NextGrows(bc, base, i, j - 1);
    }
  }

  lemma OwnIdsDisjoint(bc: Bytecode, base: nat, p: Place, q: Place)
    requires WellFormed(bc) && PlaceOk(bc, p) && PlaceOk(bc, q) && p != q
    requires Rank(bc, p) == Rank(bc, q) && StartOf(bc, base, p) <= StartOf(bc, base, q)
    ensures StartOf(bc, base, p) + |CodeOf(bc, base, p)| <= StartOf(bc, base, q)
  {
    PlaceSize(bc, base, p);
    PlaceSize(bc, base, q);
    hide CodeOf, CompileTo;
  }

  lemma StartsFrom(bc: Bytecode, base: nat, q: Place, i: nat)
    requires WellFormed(bc) && PlaceOk(bc, q) && Rank(bc, q) > i && i <= |bc|
    ensures Before(bc, base, i).next <= StartOf(bc, base, q)
  {
    hide CodeOf, CompileTo;
    NextGrows(bc, base, i, Rank(bc, q) - 1);
  }

  /** Two blocks have no identity in common. */
  lemma IdsDisjoint(bc: Bytecode, base: nat, p: Place, q: Place)
    requires WellFormed(bc) && PlaceOk(bc, p) && PlaceOk(bc, q) && p != q
    requires Rank(bc, p) <= Rank(bc, q) && (Rank(bc, p) == Rank(bc, q) ==> StartOf(bc, base, p) <= StartOf(bc, base, q))
    ensures StartOf(bc, base, p) + |CodeOf(bc, base, p)| <= StartOf(bc, base, q)
  {
    hide CodeOf, CompileTo;
    if Rank(bc, p) == Rank(bc, q) {
      OwnIdsDisjoint(bc, base, p, q);
    } else if p.Entry? {
      PlaceSize(bc, base, p);
      NextGrows(bc, base, 0, 0);
      StartsFrom(bc, base, q, 0);
    } else {
      PlaceFits(bc, base, p);
      StartsFrom(bc, base, q, p.i + 1);
    }
  }

  lemma CompiledDefinesOnce(bc: Bytecode, base: nat)
    requires WellFormed(bc)
    ensures DefinedOnce(Compile(bc, base).blocks)
  {
    var f: Func := Compile(bc, base).blocks;
    hide CodeOf, Number, Compile, CompileTo, StartOf, IndexOf;
    forall b, k, b', k' | 0 <= b < |f| && 0 <= k < |f[b]| && 0 <= b' < |f| && 0 <= k' < |f[b']|
      && f[b][k].id == f[b'][k'].id
      ensures b == b' && k == k'
    {
      var p := EveryBlock(bc, base, b);
      var q := EveryBlock(bc, base, b');
      PlaceBlock(bc, base, p);
      PlaceBlock(bc, base, q);
      if p != q {
        if Rank(bc, p) < Rank(bc, q) || (Rank(bc, p) == Rank(bc, q) && StartOf(bc, base, p) <= StartOf(bc, base, q)) {
          IdsDisjoint(bc, base, p, q);
        } else {
          IdsDisjoint(bc, base, q, p);
        }
      }
    }
  }

  // ---------- dominance ----------

  lemma EntryDominates(f: Func, b: nat)
    ensures Dominates(f, 0, b)
  {
    forall path | IsPath(f, path, b)
      ensures 0 in path
    {
      assert path[0] == 0;
    }
  }

  lemma NextOfOther(bc: Bytecode, base: nat, p: Place, t: nat)
    requires WellFormed(bc) && PlaceOk(bc, p) && t in Next(bc, base, p) && t > |bc| + 1
    ensures p.Main? || p.Extra?
    ensures bc[p.i].NewHash? && |Before(bc, base, p.i).blocks| <= t <= |Before(bc, base, p.i).blocks| + 2
  {
    hide CompileTo;
  }

  /** The blocks that can lead into the extra blocks of a hash literal. */
  lemma WayIn(bc: Bytecode, base: nat, i: nat, j: nat, p: Place)
    requires WellFormed(bc) && PlaceOk(bc, Extra(i, j)) && PlaceOk(bc, p)
    requires IndexOf(bc, base, Extra(i, j)) in Next(bc, base, p)
    ensures p == Main(i) || (p.Extra? && p.i == i)
  {
    ExtrasApart(bc, base, i, j, p);
    ExtraIndex(bc, base, i, j);
    hide CompileTo, Next, IndexOf;
    NextOfOther(bc, base, p, IndexOf(bc, base, Extra(i, j)));
  }

  lemma ExtraIndex(bc: Bytecode, base: nat, i: nat, j: nat)
    requires WellFormed(bc) && PlaceOk(bc, Extra(i, j))
    ensures IndexOf(bc, base, Extra(i, j)) == |Before(bc, base, i).blocks| + j
  {
    hide CompileTo;
  }

  lemma ExtrasApart(bc: Bytecode, base: nat, i: nat, j: nat, p: Place)
    requires WellFormed(bc) && PlaceOk(bc, Extra(i, j)) && PlaceOk(bc, p)
    ensures |Before(bc, base, i).blocks| >= |bc| + 2
    ensures (p.Main? || p.Extra?) && p.i != i ==>
              |Before(bc, base, p.i).blocks| + 2 < |Before(bc, base, i).blocks|
              || |Before(bc, base, i).blocks| + 2 < |Before(bc, base, p.i).blocks|
              || !bc[p.i].NewHash?
  {
    if (p.Main? || p.Extra?) && p.i < i && bc[p.i].NewHash? {
      ThreeMore(bc, base, p.i, i);
    } else if (p.Main? || p.Extra?) && p.i > i {
      ThreeMore(bc, base, i, p.i);
    }
  }

  lemma ThreeMore(bc: Bytecode, base: nat, i: nat, j: nat)
    requires WellFormed(bc) && i < j <= |bc| && bc[i].NewHash?
    ensures |Before(bc, base, i).blocks| + 3 <= |Before(bc, base, j).blocks|
  {
    hide MainOps, HandlesAt, Number, HashHead, HashLoop, HashTail, Sizes;
    BlocksKept(bc, base, i + 1, j);
  }

  lemma PathBefore(f: Func, path: seq<nat>, b: nat)
    requires IsPath(f, path, b) && b != 0
    ensures |path| > 1 && IsPath(f, path[..|path| - 1], path[|path| - 2])
    ensures path[|path| - 2] < |f| && b in Successors(f[path[|path| - 2]]) && path[|path| - 2] in path
  {
    hide Successors;
    var before := path[..|path| - 1];
    assert forall i :: 0 <= i < |before| ==> before[i] == path[i];
    assert path[|path| - 2 + 1] in Successors(f[path[|path| - 2]]);
  }

  /** The only way into the extra blocks of a hash literal is through its own block. */
  lemma {:induction false} MainDominates(bc: Bytecode, base: nat, i: nat, j: nat, path: seq<nat>)
    requires WellFormed(bc) && PlaceOk(bc, Extra(i, j))
    requires IsPath(Compile(bc, base).blocks, path, IndexOf(bc, base, Extra(i, j)))
    ensures BlockOf(i) in path
    decreases |path|
  {
    ExtraNotEntry(bc, base, i, j);
    hide Compile, CompileTo, IndexOf, Next, IsPath, Successors;
    var f: Func := Compile(bc, base).blocks;
    PathBefore(f, path, IndexOf(bc, base, Extra(i, j)));
    var q := path[|path| - 2];
    var p := EveryBlock(bc, base, q);
    PlaceSuccessors(bc, base, p);
    WayIn(bc, base, i, j, p);
    if p.Extra? {
      MainDominates(bc, base, i, p.j, path[..|path| - 1]);
    } else {
      MainIndex(bc, base, i);
    }
  }

  lemma ExtraNotEntry(bc: Bytecode, base: nat, i: nat, j: nat)
    requires WellFormed(bc) && PlaceOk(bc, Extra(i, j))
    ensures IndexOf(bc, base, Extra(i, j)) != 0
  {
    hide CompileTo;
  }

  lemma MainIndex(bc: Bytecode, base: nat, i: nat)
    requires WellFormed(bc) && i < |bc|
    ensures IndexOf(bc, base, Main(i)) == BlockOf(i)
  {
    hide CompileTo;
  }

  /** What a block reads from elsewhere is defined in the entry block, or in the block of its hash literal. */
  lemma OuterAvailable(bc: Bytecode, base: nat, p: Place, id: nat, k: nat)
    requires WellFormed(bc) && PlaceOk(bc, p) && id in Outer(bc, base, p)
    ensures Available(Compile(bc, base).blocks, id, IndexOf(bc, base, p), k)
  {
    var f: Func, b := Compile(bc, base).blocks, IndexOf(bc, base, p);
    hide Compile, CompileTo, CodeOf, Number;
    if id in HandleIds(base) {
      PlaceBlock(bc, base, Entry);
      PlaceSize(bc, base, Entry);
      PlaceClosed(bc, base, Entry);
      EntryDominates(f, b);
      MakesAvailable(f, id, b, k, 0, id - base);
    } else {
      var i := p.i;
      PlaceBlock(bc, base, Main(i));
      PlaceSize(bc, base, Main(i));
      PlaceClosed(bc, base, Main(i));
      forall path | IsPath(f, path, b)
        ensures BlockOf(i) in path
      {
        MainDominates(bc, base, i, p.j, path);
      }
      ExtrasApart(bc, base, i, p.j, p);
      MakesAvailable(f, id, b, k, BlockOf(i), 0);
    }
  }

  lemma FirstOfLoop(bc: Bytecode, base: nat, i: nat)
    requires WellFormed(bc) && PlaceOk(bc, Extra(i, 1))
    ensures var c, ops := Before(bc, base, i), CodeOf(bc, base, Extra(i, 1));
      |ops| == 15 && ops[0] == HashPhi(c.next, |c.blocks|, bc[i].count) && StartOf(bc, base, Extra(i, 1)) == c.next + 4
      && IndexOf(bc, base, Extra(i, 1)) == |c.blocks| + 1
  {
    PlaceSize(bc, base, Extra(i, 1));
    hide CompileTo, AllOps, LoopCalls, HashPhi;
  }

  lemma PhiReads(f: Func, b: nat, r: nat, x: nat, count: int)
    requires b == x + 1 < |f| && |f[b]| > 2 && f[b][0].op == HashPhi(r, x, count) && f[b][1].id == r + 5
    requires Closed(f[b])
    ensures ReadsAvailable(f, b, 0)
  {
    MakesAvailable(f, r + 5, b, |f[b]|, b, 1);
  }

  /** The edges of the phi: a constant, and a register of the loop block itself. */
  lemma PhiAvailable(bc: Bytecode, base: nat, i: nat)
    requires WellFormed(bc) && PlaceOk(bc, Extra(i, 1))
    ensures var f: Func, b := Compile(bc, base).blocks, IndexOf(bc, base, Extra(i, 1));
      b < |f| && |f[b]| > 0 && ReadsAvailable(f, b, 0)
  {
    hide Compile, CompileTo, Number, CodeOf, IndexOf, StartOf, ReadsAvailable, HashPhi;
    var f: Func, b, c := Compile(bc, base).blocks, IndexOf(bc, base, Extra(i, 1)), Before(bc, base, i);
    PlaceBlock(bc, base, Extra(i, 1));
    PlaceClosed(bc, base, Extra(i, 1));
    FirstOfLoop(bc, base, i);
    PhiReads(f, b, c.next, |c.blocks|, bc[i].count);
  }

  /** The loop block of a hash literal is entered from the first of its extra blocks, and from itself. */
  lemma LoopEntered(bc: Bytecode, base: nat, i: nat, p: Place)
    requires WellFormed(bc) && PlaceOk(bc, Extra(i, 1)) && PlaceOk(bc, p)
    ensures IndexOf(bc, base, Extra(i, 1)) in Next(bc, base, p) <==> p == Extra(i, 0) || p == Extra(i, 1)
  {
    hide *;
    ExtraIndex(bc, base, i, 1);
    NextInHash(bc, base, i);
    if IndexOf(bc, base, Extra(i, 1)) in Next(bc, base, p) {
      WayIn(bc, base, i, 1, p);
      ExtrasApart(bc, base, i, 1, p);
      OneOfThree(bc, p);
    }
  }

  lemma OneOfThree(bc: Bytecode, p: Place)
    requires PlaceOk(bc, p)
    ensures p.Extra? ==> p == Extra(p.i, 0) || p == Extra(p.i, 1) || p == Extra(p.i, 2)
  {
  }

  lemma NextInHash(bc: Bytecode, base: nat, i: nat)
    requires WellFormed(bc) && PlaceOk(bc, Extra(i, 1))
    ensures PlaceOk(bc, Main(i)) && forall j :: 0 <= j < 3 ==> PlaceOk(bc, Extra(i, j))
    ensures var x := |Before(bc, base, i).blocks|;
      Next(bc, base, Main(i)) == {x} && Next(bc, base, Extra(i, 0)) == Next(bc, base, Extra(i, 1)) == {x + 1, x + 2}
      && Next(bc, base, Extra(i, 2)) == {BlockOf(i + 1)} && BlockOf(i + 1) < x
  {
    hide CompileTo, WellFormed;
  }

  lemma LoopPredecessors(bc: Bytecode, base: nat, i: nat, q: nat)
    requires WellFormed(bc) && PlaceOk(bc, Extra(i, 1)) && q < |Compile(bc, base).blocks|
    ensures IndexOf(bc, base, Extra(i, 1)) in Successors(Compile(bc, base).blocks[q])
        <==> q == IndexOf(bc, base, Extra(i, 0)) || q == IndexOf(bc, base, Extra(i, 1))
  {
    hide Compile, CompileTo, IndexOf, Next, Successors;
    var p := EveryBlock(bc, base, q);
    PlaceSuccessors(bc, base, p);
    LoopEntered(bc, base, i, p);
    PlaceSuccessors(bc, base, Extra(i, 0));
    LoopEntered(bc, base, i, Extra(i, 0));
    PlaceSuccessors(bc, base, Extra(i, 1));
    LoopEntered(bc, base, i, Extra(i, 1));
  }

  lemma PhiFrom(r: nat, x: nat, count: int, q: nat)
    ensures var phi := HashPhi(r, x, count);
      phi.Phi? && |phi.incoming| == 2 && phi.incoming[0].1 != phi.incoming[1].1
      && (ComesFrom(phi.incoming, q) <==> q == x || q == x + 1)
  {
    var inc := HashPhi(r, x, count).incoming;
    assert inc[0].1 == x && inc[1].1 == x + 1;
  }

  lemma PhiFitsBlock(f: Func, b: nat, r: nat, x: nat, count: int)
    requires b < |f| && |f[b]| > 0 && f[b][0].op == HashPhi(r, x, count)
    requires forall q: nat :: q < |f| ==> (b in Successors(f[q]) <==> q == x || q == x + 1)
    ensures PhiFits(f, b, 0)
  {
    hide Successors, HashPhi, ComesFrom;
    PhiFrom(r, x, count, 0);
    forall q: nat | q < |f|
      ensures b in Successors(f[q]) <==> ComesFrom(f[b][0].op.incoming, q)
    {
      PhiFrom(r, x, count, q);
    }
  }

  lemma HashPhiFits(bc: Bytecode, base: nat, i: nat)
    requires WellFormed(bc) && PlaceOk(bc, Extra(i, 1))
    ensures var f: Func, b := Compile(bc, base).blocks, IndexOf(bc, base, Extra(i, 1));
      b < |f| && |f[b]| > 0 && PhiFits(f, b, 0)
  {
    var f: Func, b, c := Compile(bc, base).blocks, IndexOf(bc, base, Extra(i, 1)), Before(bc, base, i);
    PlaceBlock(bc, base, Extra(i, 1));
    FirstOfLoop(bc, base, i);
    ExtraIndex(bc, base, i, 0);
    hide Compile, CompileTo, CodeOf, IndexOf, StartOf, HashPhi, Successors, PhiFits;
    forall q: nat | q < |f|
      ensures b in Successors(f[q]) <==> q == |c.blocks| || q == |c.blocks| + 1
    {
      LoopPredecessors(bc, base, i, q);
    }
    PhiFitsBlock(f, b, c.next, |c.blocks|, bc[i].count);
  }

  lemma PlainAvailable(bc: Bytecode, base: nat, p: Place, k: nat)
    requires WellFormed(bc) && PlaceOk(bc, p) && k < |CodeOf(bc, base, p)| && !CodeOf(bc, base, p)[k].Phi?
    ensures var f: Func, b := Compile(bc, base).blocks, IndexOf(bc, base, p);
      b < |f| && k < |f[b]| && ReadsAvailable(f, b, k)
  {
    var f: Func, b := Compile(bc, base).blocks, IndexOf(bc, base, p);
    PlaceBlock(bc, base, p);
    PlaceShaped(bc, base, p);
    PlaceClosed(bc, base, p);
    hide Compile, CompileTo, Number, CodeOf, IndexOf, StartOf, Outer;
    assert ScopedAt(CodeOf(bc, base, p)[k], StartOf(bc, base, p), k, Outer(bc, base, p));
    forall o | o in Reads(f[b][k].op) && o.Reg?
      ensures Available(f, o.id, b, k)
    {
      if o.id in Outer(bc, base, p) {
        OuterAvailable(bc, base, p, o.id, k);
      } else {
        MakesAvailable(f, o.id, b, k, b, o.id - StartOf(bc, base, p));
      }
    }
  }

  /**
   * Every register is defined once, every use is dominated by its definition, and every phi stands first in its block
   * and has one entry for each predecessor.
   */
  lemma CompiledIsSsa(bc: Bytecode, base: nat)
    requires WellFormed(bc)
    ensures IsSsa(Compile(bc, base).blocks)
  {
    var f: Func := Compile(bc, base).blocks;
    CompiledDefinesOnce(bc, base);
    hide Compile, CompileTo, Number, CodeOf, IndexOf, StartOf, Outer, DefinedOnce, ReadsAvailable, Scoped, ComesFrom,
         Successors;
    forall b, k | 0 <= b < |f| && 0 <= k < |f[b]|
      ensures ReadsAvailable(f, b, k) && PhiFits(f, b, k)
    {
      var p := EveryBlock(bc, base, b);
      PlaceBlock(bc, base, p);
      PlaceShaped(bc, base, p);
      if CodeOf(bc, base, p)[k].Phi? {
        PhiAvailable(bc, base, p.i);
        HashPhiFits(bc, base, p.i);
      } else {
        PlainAvailable(bc, base, p, k);
      }
    }
  }

  lemma PlaceInRange(bc: Bytecode, base: nat, p: Place)
    requires WellFormed(bc) && PlaceOk(bc, p)
    ensures base <= StartOf(bc, base, p) && StartOf(bc, base, p) + |CodeOf(bc, base, p)| <= Compile(bc, base).next
  {
    hide *;
    CompiledNext(bc, base);
    NextGrows(bc, base, 0, |bc|);
    FixedStarts(bc, base);
    if p.Entry? {
      PlaceSize(bc, base, p);
    } else if p.Exit? {
      ExitSize(bc, base);
    } else {
      PlaceIndex(bc, p);
      PlaceFits(bc, base, p);
      NextGrows(bc, base, p.i, p.i);
      NextGrows(bc, base, p.i + 1, |bc|);
    }
  }

  lemma PlaceIndex(bc: Bytecode, p: Place)
    requires PlaceOk(bc, p) && (p.Main? || p.Extra?)
    ensures p.i < |bc|
  {
  }

  lemma FixedStarts(bc: Bytecode, base: nat)
    requires WellFormed(bc)
    ensures StartOf(bc, base, Entry) == base && StartOf(bc, base, Exit) == Before(bc, base, |bc|).next
  {
    hide CompileTo;
  }

  /** All identities of a function lie between its first and the one after its last. */
  lemma IdsInRange(bc: Bytecode, base: nat, b: nat, k: nat)
    requires WellFormed(bc) && b < |Compile(bc, base).blocks| && k < |Compile(bc, base).blocks[b]|
    ensures base <= Compile(bc, base).blocks[b][k].id < Compile(bc, base).next
  {
    hide Compile, CompileTo, Number, CodeOf, IndexOf, StartOf;
    var p := EveryBlock(bc, base, b);
    PlaceBlock(bc, base, p);
    PlaceInRange(bc, base, p);
  }

  lemma CompiledNext(bc: Bytecode, base: nat)
    requires WellFormed(bc)
    ensures Compile(bc, base).next == Before(bc, base, |bc|).next + 5
  {
    hide CompileTo, ExitOps, Number;
  }

  lemma ExitSize(bc: Bytecode, base: nat)
    requires WellFormed(bc)
    ensures |CodeOf(bc, base, Exit)| == 5
  {
    hide CompileTo;
  }

  // ---------- one function after another ----------

  /** The instruction has register id among its operands, those of a phi included. */
  ghost predicate Uses(op: Op, id: nat) {
    Reg(id) in Reads(op) || (op.Phi? && exists e :: e in op.incoming && e.0 == Reg(id))
  }

  /** Every register that a function uses is defined in it, and lies in its range. */
  lemma UsesOwn(bc: Bytecode, base: nat, b: nat, k: nat, id: nat)
    requires WellFormed(bc) && b < |Compile(bc, base).blocks| && k < |Compile(bc, base).blocks[b]|
    requires Uses(Compile(bc, base).blocks[b][k].op, id)
    ensures exists d, j :: DefinedAt(Compile(bc, base).blocks, d, j, id)
    ensures base <= id < Compile(bc, base).next
  {
    var f: Func := Compile(bc, base).blocks;
    CompiledIsSsa(bc, base);
    assert ReadsAvailable(f, b, k);
    var b', k' := b, k;
    if Reg(id) !in Reads(f[b][k].op) {
      var e :| e in f[b][k].op.incoming && e.0 == Reg(id);
      assert e.0.Reg?;
      b', k' := e.1, |f[e.1]|;
    }
    hide Compile, IsSsa, ReadsAvailable, Reads, Dominates;
    assert Available(f, id, b', k');
    var d: nat, j: nat :| DefinedAt(f, d, j, id);
    IdsInRange(bc, base, d, j);
  }

  /** Each compilation starts with identities that no earlier one has used, whether that came to an end or raised. */
  predicate OneAfterAnother(bcs: seq<Bytecode>, bases: seq<nat>) {
    |bases| == |bcs|
    && forall i :: 0 <= i < |bcs| - 1 ==>
         bases[i] <= bases[i + 1] && (WellFormed(bcs[i]) ==> Compile(bcs[i], bases[i]).next <= bases[i + 1])
  }

  lemma {:induction false} BasesGrow(bcs: seq<Bytecode>, bases: seq<nat>, i: nat, j: nat)
    requires OneAfterAnother(bcs, bases) && i < j < |bcs|
    ensures bases[i] <= bases[j] && (WellFormed(bcs[i]) ==> Compile(bcs[i], bases[i]).next <= bases[j])
    decreases j
  {
    assert bases[j - 1] <= bases[j - 1 + 1];
    hide Compile, WellFormed;
    if i < j - 1 {
      BasesGrow(bcs, bases, i, j - 1);
    }
  }

  /** Every register that g uses is defined in g, and none of them is defined in f. */
  ghost predicate Apart(f: Func, g: Func) {
    forall b, k, id: nat :: 0 <= b < |g| && 0 <= k < |g[b]| && Uses(g[b][k].op, id) ==>
      (exists d, l :: DefinedAt(g, d, l, id)) && forall d, l :: !DefinedAt(f, d, l, id)
  }

  /**
   * In any sequence of compilations, a function uses only registers of its own and none of any other function, earlier
   * or later, although the handles pass through class variables that every compilation overwrites.
   */
  lemma FunctionsApart(bcs: seq<Bytecode>, bases: seq<nat>, i: nat, j: nat)
    requires OneAfterAnother(bcs, bases) && i < |bcs| && j < |bcs| && i != j && WellFormed(bcs[i]) && WellFormed(bcs[j])
    ensures Apart(Compile(bcs[i], bases[i]).blocks, Compile(bcs[j], bases[j]).blocks)
  {
    assert |bases| == |bcs|;
    hide Compile, OneAfterAnother, Uses, WellFormed, DefinedAt;
    var f: Func, g: Func := Compile(bcs[i], bases[i]).blocks, Compile(bcs[j], bases[j]).blocks;
    forall b, k, id: nat | 0 <= b < |g| && 0 <= k < |g[b]| && Uses(g[b][k].op, id)
      ensures (exists d, l :: DefinedAt(g, d, l, id)) && forall d, l :: !DefinedAt(f, d, l, id)
    {
      UsesOwn(bcs[j], bases[j], b, k, id);
      NoneOfOther(bcs, bases, i, j, id);
    }
  }

  lemma NoneOfOther(bcs: seq<Bytecode>, bases: seq<nat>, i: nat, j: nat, id: nat)
    requires OneAfterAnother(bcs, bases) && i < |bcs| && j < |bcs| && i != j && WellFormed(bcs[i]) && WellFormed(bcs[j])
    requires bases[j] <= id < Compile(bcs[j], bases[j]).next
    ensures forall d, l :: !DefinedAt(Compile(bcs[i], bases[i]).blocks, d, l, id)
  {
    assert |bases| == |bcs|;
    hide Compile, OneAfterAnother, WellFormed;
    BasesGrow(bcs, bases, if i < j then i else j, if i < j then j else i);
    forall d: nat, l: nat ensures !DefinedAt(Compile(bcs[i], bases[i]).blocks, d, l, id) {
      if DefinedAt(Compile(bcs[i], bases[i]).blocks, d, l, id) {
        IdsInRange(bcs[i], bases[i], d, l);
      }
    }
  }
}
