// The function that compile_bytecode builds.

module Codegen {
  import opened Words
  import opened IR
  import opened StackMachine
  import opened Emission

  /** Blocks built so far, and the identity of the next instruction. */
  datatype Code = Code(blocks: Func, next: nat)

  /** The stack array, its pointer and the locals are the first, second and fourth instruction. */
  function HandlesAt(base: nat): Handles {
    Handles(Reg(base), Reg(base + 1), Reg(base + 3))
  }

  function GlobalOps(base: nat): seq<Op> {
    [Alloca(VALUE, CELLS), Alloca(P_VALUE, 0), Store(Reg(base), Reg(base + 1)), Alloca(VALUE, CELLS)]
  }

  function EntryOps(base: nat): seq<Op> {
    GlobalOps(base) + (PushOps(HandlesAt(base), base + 4, Arg(1)) + [Br(1)])
  }

  /** The block of the instruction at index i; block 0 is the entry block. */
  function BlockOf(i: nat): nat {
    i + 1
  }

  // newhash: r is its first instruction, x the first of its three extra blocks.

  function HashMain(x: nat): seq<Op> {
    [Op.Call(HashNew, []), Br(x)]
  }

  function HashHead(r: nat, x: nat, count: int): seq<Op> {
    [Icmp(Sgt, Const(I32, count), Const(I32, 0)), CondBr(Reg(r + 2), x + 1, x + 2)]
  }

  function HashPhi(r: nat, x: nat, count: int): Op {
    Phi([(Const(I32, count), x), (Reg(r + 5), x + 1)])
  }

  function HashLoop(h: Handles, r: nat, x: nat, count: int): seq<Op> {
    [HashPhi(r, x, count)]
    + (AllOps(h, r + 5, LoopCalls(), 0, [Reg(r), Reg(r + 4)]) + [CondBr(Reg(r + 17), x + 1, x + 2)])
  }

  function HashTail(h: Handles, r: nat, i: nat): seq<Op> {
    PushOps(h, r + 19, Reg(r)) + [Br(BlockOf(i + 1))]
  }

  /** What instruction i puts into its own block. */
  function MainOps(h: Handles, r: nat, x: nat, n: nat, i: nat, insn: Insn): seq<Op>
    requires WellFormedInsn(n, insn)
  {
    match insn
    case Jump(t) => [Br(BlockOf(Target(n, t)))]
    case BranchIf(t) =>
      AllOps(h, r, TestCalls(), 0, []) + [CondBr(Reg(r + 4), BlockOf(i + 1), BlockOf(Target(n, t)))]
    case BranchUnless(t) =>
      AllOps(h, r, TestCalls(), 0, []) + [CondBr(Reg(r + 4), BlockOf(Target(n, t)), BlockOf(i + 1))]
    case NewHash(_) => HashMain(x)
    case _ => AllOps(h, r, Calls(insn), 0, []) + [Br(BlockOf(i + 1))]
  }

  lemma {:induction false} StraightOps(h: Handles, r: nat, x: nat, n: nat, i: nat, insn: Insn)
    requires WellFormedInsn(n, insn) && IsStraight(insn)
    ensures MainOps(h, r, x, n, i, insn) == AllOps(h, r, Calls(insn), 0, []) + [Br(BlockOf(i + 1))]
    ensures Br(BlockOf(i + 1)).IsTerminator()
  {
    hide AllOps, Calls;
  }

  /** The code of the instructions that jump. */
  lemma {:induction false} JumpOps(h: Handles, r: nat, x: nat, n: nat, i: nat, insn: Insn)
    requires WellFormedInsn(n, insn) && IsJump(insn)
    ensures insn.Jump? || insn.BranchIf? || insn.BranchUnless?
    ensures ValidTarget(n, insn.target)
    ensures var t, next := BlockOf(Target(n, insn.target)), BlockOf(i + 1);
      MainOps(h, r, x, n, i, insn)
        == if insn.Jump? then [Br(t)]
           else AllOps(h, r, TestCalls(), 0, [])
                + [if insn.BranchIf? then CondBr(Reg(r + 4), next, t) else CondBr(Reg(r + 4), t, next)]
  {
    hide AllOps, TestCalls;
  }

  /** The blocks that instruction i adds to the function. */
  function ExtraBlocks(h: Handles, r: nat, x: nat, i: nat, insn: Insn): seq<Block> {
    match insn
    case NewHash(count) =>
      [Number(HashHead(r, x, count), r + 2), Number(HashLoop(h, r, x, count), r + 4), Number(HashTail(h, r, i), r + 19)]
    case _ => []
  }

  function Sizes(blocks: seq<Block>): nat {
    if blocks == [] then 0 else |blocks[0]| + Sizes(blocks[1..])
  }

  function EmptyBlocks(n: nat): (blocks: seq<Block>)
    ensures |blocks| == n && forall i :: 0 <= i < n ==> blocks[i] == []
  {
    seq(n, _ => [])
  }

  /** The code after the first k instructions. */
  function CompileTo(bc: Bytecode, base: nat, k: nat): (c: Code)
    requires k <= |bc| && WellFormedTo(bc, k)
    ensures |c.blocks| >= |bc| + 2 && c.next >= base + 9
  {
    if k == 0 then Code([Number(EntryOps(base), base)] + EmptyBlocks(|bc| + 1), base + 9)
    else
      var c := CompileTo(bc, base, k - 1);
      var h, x, i := HandlesAt(base), |c.blocks|, k - 1;
      var main := MainOps(h, c.next, x, |bc|, i, bc[i]);
      var extra := ExtraBlocks(h, c.next, x, i, bc[i]);
      Code(c.blocks[BlockOf(i) := Number(main, c.next)] + extra, c.next + |main| + Sizes(extra))
  }

  function ExitOps(h: Handles, r: nat): seq<Op> {
    PopOps(h, r) + [Ret(Reg(r + 3))]
  }

  /** The whole function; base is the identity of its first instruction. */
  function Compile(bc: Bytecode, base: nat): (c: Code)
    requires WellFormed(bc)
    ensures |c.blocks| >= |bc| + 2
  {
    var c := CompileTo(bc, base, |bc|);
    Code(c.blocks[BlockOf(|bc|) := Number(ExitOps(HandlesAt(base), c.next), c.next)], c.next + 5)
  }

  lemma HashParts(h: Handles, r: nat, x: nat, n: nat, i: nat, insn: Insn)
    requires WellFormedInsn(n, insn) && insn.NewHash?
    ensures MainOps(h, r, x, n, i, insn) == HashMain(x)
    ensures var extra := ExtraBlocks(h, r, x, i, insn);
      |extra| == 3 && extra[0] == Number(HashHead(r, x, insn.count), r + 2)
      && extra[1] == Number(HashLoop(h, r, x, insn.count), r + 4) && extra[2] == Number(HashTail(h, r, i), r + 19)
      && extra == [extra[0], extra[1], extra[2]]
  {
    hide Number, HashMain, HashHead, HashLoop, HashTail;
  }

  // ---------- register numbers ----------

  lemma UnfoldOps(h: Handles, r: nat, cs: seq<BCall>, k: nat, outs: seq<Operand>)
    requires k < |cs|
    ensures var ops := Ops(h, r, cs[k], outs);
      AllOps(h, r, cs, k, outs) == ops + AllOps(h, r + |ops|, cs, k + 1, outs + [Reg(r + |ops| - 1)])
      && AllOuts(h, r, cs, k, outs) == AllOuts(h, r + |ops|, cs, k + 1, outs + [Reg(r + |ops| - 1)])
  {
  }

  lemma UnfoldSized(h: Handles, r: nat, cs: seq<BCall>, k: nat, outs: seq<Operand>, size: nat)
    requires k < |cs| && |Ops(h, r, cs[k], outs)| == size
    ensures |AllOps(h, r, cs, k, outs)| == size + |AllOps(h, r + size, cs, k + 1, outs + [Reg(r + size - 1)])|
    ensures AllOuts(h, r, cs, k, outs) == AllOuts(h, r + size, cs, k + 1, outs + [Reg(r + size - 1)])
  {
    hide Ops, AllOps, AllOuts;
    UnfoldOps(h, r, cs, k, outs);
  }

  lemma UnfoldOne(h: Handles, r: nat, cs: seq<BCall>, k: nat, outs: seq<Operand>)
    requires k < |cs| && (cs[k].BinOf? || cs[k].IcmpOf? || cs[k].Invoke?)
    ensures |AllOps(h, r, cs, k, outs)| == 1 + |AllOps(h, r + 1, cs, k + 1, outs + [Reg(r)])|
    ensures AllOuts(h, r, cs, k, outs) == AllOuts(h, r + 1, cs, k + 1, outs + [Reg(r)])
  {
    hide AllOps, AllOuts;
    UnfoldSized(h, r, cs, k, outs, 1);
  }

  lemma UnfoldFour(h: Handles, r: nat, cs: seq<BCall>, k: nat, outs: seq<Operand>)
    requires k < |cs| && (cs[k].TopN? || cs[k].PopVal? || cs[k].PushVal?)
    ensures |AllOps(h, r, cs, k, outs)| == 4 + |AllOps(h, r + 4, cs, k + 1, outs + [Reg(r + 3)])|
    ensures AllOuts(h, r, cs, k, outs) == AllOuts(h, r + 4, cs, k + 1, outs + [Reg(r + 3)])
  {
    hide AllOps, AllOuts;
    UnfoldSized(h, r, cs, k, outs, 4);
  }

  lemma {:induction false} UnfoldNone(h: Handles, r: nat, cs: seq<BCall>, outs: seq<Operand>)
    ensures AllOps(h, r, cs, |cs|, outs) == [] && AllOuts(h, r, cs, |cs|, outs) == outs
  {
  }

  lemma {:induction false} TestNumbers(h: Handles, r: nat)
    ensures |AllOps(h, r, TestCalls(), 0, [])| == 5 && AllOuts(h, r, TestCalls(), 0, []) == [Reg(r + 3), Reg(r + 4)]
  {
    var cs := TestCalls();
    hide AllOps, AllOuts;
    UnfoldFour(h, r, cs, 0, []);
    UnfoldOne(h, r + 4, cs, 1, [] + [Reg(r + 3)]);
    UnfoldNone(h, r + 5, cs, [] + [Reg(r + 3)] + [Reg(r + 4)]);
    assert [] + [Reg(r + 3)] + [Reg(r + 4)] == [Reg(r + 3), Reg(r + 4)];
  }

  /** The first result of the loop body is in register r + 5, the last in r + 17. */
  lemma LoopNumbers(h: Handles, r: nat)
    ensures |AllOps(h, r + 5, LoopCalls(), 0, [Reg(r), Reg(r + 4)])| == 13
    ensures var outs := AllOuts(h, r + 5, LoopCalls(), 0, [Reg(r), Reg(r + 4)]);
      |outs| == 9 && outs[2] == Reg(r + 5) && outs[8] == Reg(r + 17)
  {
    LoopCallNumbers(h, r, LoopCalls());
  }

  lemma LoopCallNumbers(h: Handles, r: nat, cs: seq<BCall>)
    requires |cs| == 7 && cs[0].BinOf? && cs[1].BinOf? && cs[2].BinOf? && cs[3].TopN? && cs[4].TopN?
    requires cs[5].Invoke? && cs[6].IcmpOf?
    ensures |AllOps(h, r + 5, cs, 0, [Reg(r), Reg(r + 4)])| == 13
    ensures var outs := AllOuts(h, r + 5, cs, 0, [Reg(r), Reg(r + 4)]);
      |outs| == 9 && outs[2] == Reg(r + 5) && outs[8] == Reg(r + 17)
  {
    hide AllOps, AllOuts;
    var o := [Reg(r), Reg(r + 4)];
    UnfoldOne(h, r + 5, cs, 0, o);
    var o1 := o + [Reg(r + 5)];
    UnfoldOne(h, r + 6, cs, 1, o1);
    var o2 := o1 + [Reg(r + 6)];
    UnfoldOne(h, r + 7, cs, 2, o2);
    var o3 := o2 + [Reg(r + 7)];
    UnfoldFour(h, r + 8, cs, 3, o3);
    var o4 := o3 + [Reg(r + 11)];
    UnfoldFour(h, r + 12, cs, 4, o4);
    var o5 := o4 + [Reg(r + 15)];
    UnfoldOne(h, r + 16, cs, 5, o5);
    var o6 := o5 + [Reg(r + 16)];
    UnfoldOne(h, r + 17, cs, 6, o6);
    UnfoldNone(h, r + 18, cs, o6 + [Reg(r + 17)]);
  }

  lemma HashSizes(h: Handles, r: nat, x: nat, count: int)
    ensures |HashMain(x)| == 2 && |HashHead(r, x, count)| == 2 && |HashLoop(h, r, x, count)| == 15
    ensures |PushOps(h, r + 19, Reg(r))| == 4 && forall i :: |HashTail(h, r, i)| == 5
  {
    hide AllOps, LoopCalls;
    LoopNumbers(h, r);
  }

  // ---------- where each instruction's code ends up ----------

  /** Blocks that instructions from k on leave alone. */
  predicate Settled(n: nat, k: nat, b: nat) {
    b <= k || b > n + 1
  }

  lemma {:induction false} BlocksKept(bc: Bytecode, base: nat, k: nat, j: nat)
    requires WellFormed(bc) && k <= j <= |bc|
    ensures |CompileTo(bc, base, k).blocks| <= |CompileTo(bc, base, j).blocks|
    ensures forall b :: 0 <= b < |CompileTo(bc, base, k).blocks| && Settled(|bc|, k, b) ==>
              CompileTo(bc, base, j).blocks[b] == CompileTo(bc, base, k).blocks[b]
    decreases j
  {
    hide MainOps, ExtraBlocks, HandlesAt, EntryOps, Number, Sizes;
    if k < j {
      BlocksKept(bc, base, k, j - 1);
    }
  }

  /** The block of instruction i in the finished function. */
  lemma {:induction false} MainBlock(bc: Bytecode, base: nat, i: nat)
    requires WellFormed(bc) && i < |bc|
    ensures var c := CompileTo(bc, base, i);
      Compile(bc, base).blocks[BlockOf(i)]
        == Number(MainOps(HandlesAt(base), c.next, |c.blocks|, |bc|, i, bc[i]), c.next)
  {
    hide MainOps, ExtraBlocks, HandlesAt, EntryOps, Number, Sizes;
    BlocksKept(bc, base, i + 1, |bc|);
  }

  lemma ExtraAt(bc: Bytecode, base: nat, i: nat, j: nat)
    requires WellFormed(bc) && i < |bc|
    requires var c := CompileTo(bc, base, i); j < |ExtraBlocks(HandlesAt(base), c.next, |c.blocks|, i, bc[i])|
    ensures var c := CompileTo(bc, base, i);
      |c.blocks| + j < |Compile(bc, base).blocks|
      && Compile(bc, base).blocks[|c.blocks| + j]
         == ExtraBlocks(HandlesAt(base), c.next, |c.blocks|, i, bc[i])[j]
  {
    hide MainOps, ExtraBlocks, HandlesAt, EntryOps, Number, Sizes;
    var c := CompileTo(bc, base, i);
    var extra := ExtraBlocks(HandlesAt(base), c.next, |c.blocks|, i, bc[i]);
    assert CompileTo(bc, base, i + 1).blocks[|c.blocks| + j] == extra[j];
    BlocksKept(bc, base, i + 1, |bc|);
  }

  lemma {:induction false} BlocksGrow(bc: Bytecode, base: nat, i: nat)
    requires WellFormed(bc) && i < |bc|
    ensures var c := CompileTo(bc, base, i);
      |c.blocks| + |ExtraBlocks(HandlesAt(base), c.next, |c.blocks|, i, bc[i])| <= |Compile(bc, base).blocks|
  {
    hide MainOps, ExtraBlocks, HandlesAt, EntryOps, Number, Sizes;
    BlocksKept(bc, base, i + 1, |bc|);
  }

  /** The extra blocks of instruction i in the finished function. */
  lemma {:induction false} ExtraKept(bc: Bytecode, base: nat, i: nat)
    requires WellFormed(bc) && i < |bc|
    ensures var c, f := CompileTo(bc, base, i), Compile(bc, base).blocks;
      var extra := ExtraBlocks(HandlesAt(base), c.next, |c.blocks|, i, bc[i]);
      |c.blocks| + |extra| <= |f| && f[|c.blocks|..|c.blocks| + |extra|] == extra
  {
    hide ExtraBlocks, CompileTo, Compile, HandlesAt;
    var c, f := CompileTo(bc, base, i), Compile(bc, base).blocks;
    var extra := ExtraBlocks(HandlesAt(base), c.next, |c.blocks|, i, bc[i]);
    BlocksGrow(bc, base, i);
    forall j | 0 <= j < |extra|
      ensures f[|c.blocks| + j] == extra[j]
    {
      ExtraAt(bc, base, i, j);
    }
  }

  /** Before its turn, the block of an instruction is empty. */
  lemma {:induction false} Untouched(bc: Bytecode, base: nat, k: nat, j: nat)
    requires k <= j <= |bc| && WellFormedTo(bc, k)
    ensures CompileTo(bc, base, k).blocks[BlockOf(j)] == []
    decreases k
  {
    hide MainOps, ExtraBlocks, HandlesAt, EntryOps, Number, Sizes;
    if k > 0 {
      Untouched(bc, base, k - 1, j);
    }
  }

  lemma EntryBlock(bc: Bytecode, base: nat)
    requires WellFormed(bc)
    ensures Compile(bc, base).blocks[0] == Number(EntryOps(base), base)
  {
    BlocksKept(bc, base, 0, |bc|);
  }
}
