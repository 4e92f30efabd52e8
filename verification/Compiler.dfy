// The compiler: one method for each instruction, and the method that lays out the blocks.

module Compiler {
  import opened Options
  import opened Words
  import opened IR
  import opened StackMachine
  import opened Emission
  import opened Codegen
  import opened Building

  /** Emits the code of single instructions. */
  class OpCodeBuilder {
    constructor () {
    }

    function GetSelf(): Operand {
      Arg(0)
    }

    /** The builder is at the start of an instruction. */
    ghost predicate Begun(b: Builder)
      reads b, b.f, b.ids, b.vars
    {
      b.Valid() && b.calls == [] && b.outs == []
    }

    method PutNil(b: Builder)
      requires Begun(b)
      modifies b`calls, b`outs, b.f, b.ids
      ensures b.Valid() && b.calls == Calls(Insn.PutNil)
    {
      b.Push(Const(WORD, NIL), Word(NIL));
    }

    method PutSelf(b: Builder)
      requires Begun(b)
      modifies b`calls, b`outs, b.f, b.ids
      ensures b.Valid() && b.calls == Calls(Insn.PutSelf)
    {
      b.Push(GetSelf(), Self);
    }

    method PutObject(b: Builder, oprnd: int)
      requires Begun(b)
      modifies b`calls, b`outs, b.f, b.ids
      ensures b.Valid() && b.calls == Calls(Insn.PutObject(oprnd))
    {
      b.Push(Const(WORD, oprnd), Word(oprnd));
    }

    method Pop(b: Builder)
      requires Begun(b)
      modifies b`calls, b`outs, b.f, b.ids
      ensures b.Valid() && b.calls == Calls(Insn.Pop)
    {
      var _ := b.Pop();
    }

    method Dup(b: Builder)
      requires Begun(b)
      modifies b`calls, b`outs, b.f, b.ids
      ensures b.Valid() && b.calls == Calls(Insn.Dup)
    {
      var v := b.Peek(1);
      b.Push(v, Res(0));
    }

    method Swap(b: Builder)
      requires Begun(b)
      modifies b`calls, b`outs, b.f, b.ids
      ensures b.Valid() && b.calls == Calls(Insn.Swap)
    {
      var v1 := b.Pop();
      var v2 := b.Pop();
      b.Push(v1, Res(0));
      b.Push(v2, Res(1));
    }

    method SetLocal(b: Builder, oprnd: int)
      requires Begun(b)
      modifies b`calls, b`outs, b.f, b.ids
      ensures b.Valid() && b.calls == Calls(Insn.SetLocal(oprnd))
    {
      var v := b.Pop();
      ghost var c := b.Position();
      var slot := b.Emit(Gep(b.vars.locals, Const(WORD, oprnd)));
      var _ := b.Emit(Store(v, slot));
      PutTwo(c, Gep(b.vars.locals, Const(WORD, oprnd)), Store(v, slot));
      b.Record(SetSlot(oprnd, Res(0)), c);
    }

    method GetLocal(b: Builder, oprnd: int)
      requires Begun(b)
      modifies b`calls, b`outs, b.f, b.ids
      ensures b.Valid() && b.calls == Calls(Insn.GetLocal(oprnd))
    {
      ghost var c := b.Position();
      var slot := b.Emit(Gep(b.vars.locals, Const(WORD, oprnd)));
      var val := b.Emit(Load(slot));
      PutTwo(c, Gep(b.vars.locals, Const(WORD, oprnd)), Load(slot));
      b.Record(GetSlot(oprnd), c);
      b.Push(val, Res(0));
    }

    method OptPlus(b: Builder)
      requires Begun(b)
      modifies b`calls, b`outs, b.f, b.ids
      ensures b.Valid() && b.calls == Calls(Insn.OptPlus)
    {
      hide Put, AllOps, AllOuts, Ops, Number, Builder.Valid;
      var p1 := b.Pop();
      var v1 := b.Fix2Int(p1, Res(0));
      var p2 := b.Pop();
      var v2 := b.Fix2Int(p2, Res(2));
      var sum := b.BinOp(Add, v1, v2, Res(1), Res(3));
      var fix := b.Num2Fix(sum, Res(4));
      b.Push(fix, Res(5));
    }

    method OptMinus(b: Builder)
      requires Begun(b)
      modifies b`calls, b`outs, b.f, b.ids
      ensures b.Valid() && b.calls == Calls(Insn.OptMinus)
    {
      hide Put, AllOps, AllOuts, Ops, Number, Builder.Valid;
      var p1 := b.Pop();
      var v1 := b.Fix2Int(p1, Res(0));
      var p2 := b.Pop();
      var v2 := b.Fix2Int(p2, Res(2));
      var sum := b.BinOp(Sub, v2, v1, Res(3), Res(1));
      var fix := b.Num2Fix(sum, Res(4));
      b.Push(fix, Res(5));
    }

    method OptMult(b: Builder)
      requires Begun(b)
      modifies b`calls, b`outs, b.f, b.ids
      ensures b.Valid() && b.calls == Calls(Insn.OptMult)
    {
      hide Put, AllOps, AllOuts, Ops, Number, Builder.Valid;
      var p1 := b.Pop();
      var v1 := b.Fix2Int(p1, Res(0));
      var p2 := b.Pop();
      var v2 := b.Fix2Int(p2, Res(2));
      var mul := b.BinOp(Mul, v1, v2, Res(1), Res(3));
      var fix := b.Num2Fix(mul, Res(4));
      b.Push(fix, Res(5));
    }

    method OptAref(b: Builder)
      requires Begun(b)
      modifies b`calls, b`outs, b.f, b.ids
      ensures b.Valid() && b.calls == Calls(Insn.OptAref)
    {
      hide Put, AllOps, AllOuts, Ops, Number, Builder.Valid;
      var p := b.Pop();
      var idx := b.Fix2Int(p, Res(0));
      var ary := b.Pop();
      var out := b.ARef(ary, idx, Res(2), Res(1));
      b.Push(out, Res(3));
    }

    method OptAset(b: Builder)
      requires Begun(b)
      modifies b`calls, b`outs, b.f, b.ids
      ensures b.Valid() && b.calls == Calls(Insn.OptAset)
    {
      hide Put, AllOps, AllOuts, Ops, Number, Builder.Valid;
      var val := b.Pop();
      var p := b.Pop();
      var idx := b.Fix2Int(p, Res(1));
      var ary := b.Pop();
      var _ := b.Call(AryStore, [ary, idx, val], [Res(3), Res(2), Res(0)]);
      b.Push(val, Res(0));
    }

    method OptLength(b: Builder)
      requires Begun(b)
      modifies b`calls, b`outs, b.f, b.ids
      ensures b.Valid() && b.calls == Calls(Insn.OptLength)
    {
      var recv := b.Pop();
      var len := b.ALen(recv, Res(0));
      var fix := b.Num2Fix(len, Res(1));
      b.Push(fix, Res(2));
    }

    /** The last part of a comparison: the word 2 for true, the word 0 for false. */
    method PushBool(b: Builder, ghost pred: Pred, cmp: Operand)
      requires b.Valid() && b.calls == CompareCalls(pred)[..5] && |b.outs| == 5 && b.outs[4] == cmp
      modifies b`calls, b`outs, b.f, b.ids
      ensures b.Valid() && b.calls == CompareCalls(pred)
    {
      hide Put, AllOps, AllOuts, Ops, Number, Builder.Valid;
      var long := b.ToLong(cmp, Res(4));
      var val := b.BinOp(Mul, long, Const(WORD, 2), Res(5), Word(2));
      b.Push(val, Res(6));
    }

    method OptLt(b: Builder)
      requires Begun(b)
      modifies b`calls, b`outs, b.f, b.ids
      ensures b.Valid() && b.calls == Calls(Insn.OptLt)
    {
      hide Put, AllOps, AllOuts, Ops, Number, Builder.Valid;
      var obj := b.Pop();
      var recv := b.Pop();
      var x := b.Fix2Int(recv, Res(1));
      var y := b.Fix2Int(obj, Res(0));
      var cmp := b.ICmp(Slt, x, y, Res(2), Res(3));
      PushBool(b, Slt, cmp);
    }

    method OptGt(b: Builder)
      requires Begun(b)
      modifies b`calls, b`outs, b.f, b.ids
      ensures b.Valid() && b.calls == Calls(Insn.OptGt)
    {
      hide Put, AllOps, AllOuts, Ops, Number, Builder.Valid;
      var obj := b.Pop();
      var recv := b.Pop();
      var x := b.Fix2Int(recv, Res(1));
      var y := b.Fix2Int(obj, Res(0));
      var cmp := b.ICmp(Sgt, x, y, Res(2), Res(3));
      PushBool(b, Sgt, cmp);
    }

    method OptGe(b: Builder)
      requires Begun(b)
      modifies b`calls, b`outs, b.f, b.ids
      ensures b.Valid() && b.calls == Calls(Insn.OptGe)
    {
      hide Put, AllOps, AllOuts, Ops, Number, Builder.Valid;
      var obj := b.Pop();
      var recv := b.Pop();
      var x := b.Fix2Int(recv, Res(1));
      var y := b.Fix2Int(obj, Res(0));
      var cmp := b.ICmp(Sge, x, y, Res(2), Res(3));
      PushBool(b, Sge, cmp);
    }

    method GetIvar(b: Builder, sym: int)
      requires Begun(b)
      modifies b`calls, b`outs, b.f, b.ids
      ensures b.Valid() && b.calls == Calls(Insn.GetIvar(sym))
    {
      var id := b.Call(ToId, [Const(WORD, sym)], [Word(sym)]);
      var v := b.Call(IvarGet, [GetSelf(), id], [Self, Res(0)]);
      b.Push(v, Res(1));
    }

    method SetIvar(b: Builder, sym: int)
      requires Begun(b)
      modifies b`calls, b`outs, b.f, b.ids
      ensures b.Valid() && b.calls == Calls(Insn.SetIvar(sym))
    {
      hide Put, AllOps, AllOuts, Ops, Number, Builder.Valid;
      var newVal := b.Peek(1);
      var id := b.Call(ToId, [Const(WORD, sym)], [Word(sym)]);
      var _ := b.Call(IvarSet, [GetSelf(), id, newVal], [Self, Res(1), Res(0)]);
    }

    method NewArray(b: Builder)
      requires Begun(b)
      modifies b`calls, b`outs, b.f, b.ids
      ensures b.Valid() && b.calls == Calls(Insn.NewArray)
    {
      var ary := b.Call(AryNew, [], []);
      b.Push(ary, Res(0));
    }

    method Send(b: Builder)
      requires Begun(b)
      modifies b`calls, b`outs, b.f, b.ids
      ensures b.Valid() && b.calls == Calls(Insn.Send)
    {
      var id := b.Call(ToId, [Const(WORD, INSPECT)], [Word(INSPECT)]);
      var val := b.Call(Funcall2, [Const(WORD, NIL), id, Const(I32, 0), b.vars.stack],
                        [Word(NIL), Res(0), Num(I32, 0), StackBase]);
      b.Push(val, Res(1));
    }

    /** The head of the loop of newhash: go round at all? */
    method EmitHashHead(b: Builder, count: int, loop: nat, exit: nat)
      requires b.Placed()
      modifies b.f, b.ids
      ensures b.Placed()
      ensures b.Position() == Put(old(b.Position()),
                                  [Icmp(Sgt, Const(I32, count), Const(I32, 0)),
                                   CondBr(Reg(old(b.ids.next)), loop, exit)])
    {
      ghost var c := b.Position();
      var cmp := b.Emit(Icmp(Sgt, Const(I32, count), Const(I32, 0)));
      var _ := b.Emit(CondBr(cmp, loop, exit));
      PutTwo(c, Icmp(Sgt, Const(I32, count), Const(I32, 0)), CondBr(cmp, loop, exit));
    }

    /** The body of the loop, after the next index has been computed. */
    method EmitTurn(b: Builder, hash: Operand, idx: Operand, nextIdx: Operand) returns (again: Operand)
      requires b.Valid() && b.calls == LoopCalls()[..1] && b.outs == [hash, idx] + [nextIdx]
      modifies b`calls, b`outs, b.f, b.ids
      ensures b.Valid() && b.calls == LoopCalls() && |b.outs| == 9 && b.outs[2] == nextIdx && again == b.outs[8]
    {
      hide AllOps, AllOuts, Ops, Number, Put, Builder.Valid, AllOuts, Builder.Placed;
      var n1 := b.BinOp(Sub, idx, Const(I32, 1), Res(1), Num32(1));
      var n2 := b.BinOp(Sub, idx, Const(I32, 2), Res(1), Num32(2));
      var key := b.TopN(n1, Res(3));
      var val := b.TopN(n2, Res(4));
      var _ := b.Call(HashAset, [hash, key, val], [Res(0), Res(5), Res(6)]);
      again := b.ICmp(Sgt, nextIdx, Const(I32, 0), Res(2), Num32(0));
    }

    /** The loop index: a phi with an edge from the entry block and one from the loop itself. */
    method EmitHashIndex(b: Builder, hash: Operand, count: int, entry: nat, loop: nat)
      returns (idx: Operand, nextIdx: Operand)
      requires b.Placed()
      modifies b`start, b`seed, b`calls, b`outs, b.f, b.ids
      ensures b.Valid() && b.calls == LoopCalls()[..1] && b.seed == [hash, idx] && b.outs == [hash, idx] + [nextIdx]
      ensures b.start == Put(old(b.Position()), [Op.Phi([(Const(I32, count), entry), (nextIdx, loop)])])
      ensures idx == Reg(old(b.ids.next))
    {
      hide AllOps, AllOuts, Ops, Number;
      ghost var c := b.Position();
      var k: nat;
      idx, k := b.Phi();
      b.Begin([hash, idx]);
      PhiPut(c, [], Const(I32, count), entry);
      assert [] + [(Const(I32, count), entry)] == [(Const(I32, count), entry)];
      b.AddIncoming(b.point, k, Const(I32, count), entry);
      nextIdx := b.BinOp(Sub, idx, Const(I32, 2), Res(1), Num32(2));
      PhiPut(c, [(Const(I32, count), entry)], nextIdx, loop);
      assert [(Const(I32, count), entry)] + [(nextIdx, loop)] == [(Const(I32, count), entry), (nextIdx, loop)];
      b.AddIncoming(b.point, k, nextIdx, loop);
    }

    /** The loop of newhash: hash is register r, the three extra blocks are x, x + 1 and x + 2. */
    method EmitHashLoop(b: Builder, hash: Operand, count: int, entry: nat, loop: nat, exit: nat, ghost r: nat)
      requires b.Placed() && b.ids.next == r + 4 && hash == Reg(r)
      requires loop == entry + 1 && exit == entry + 2
      modifies b`start, b`seed, b`calls, b`outs, b.f, b.ids
      ensures b.Placed() && b.Position() == Put(old(b.Position()), HashLoop(b.vars.Handles(), r, entry, count))
    {
      hide AllOps, AllOuts, Ops, Number, LoopCalls, HashLoop;
      ghost var c := b.Position();
      var idx, nextIdx := EmitHashIndex(b, hash, count, entry, loop);
      var again := EmitTurn(b, hash, idx, nextIdx);
      LoopNumbers(b.vars.Handles(), r);
      ghost var c2 := b.Position();
      var _ := b.Emit(CondBr(again, loop, exit));
      LoopPut(c, b.vars.Handles(), r, entry, count, c2);
    }

    /** The call that makes the hash, and the branch to the first of three new blocks. */
    method EmitHashNew(b: Builder) returns (hash: Operand, entry: nat, loop: nat, exit: nat)
      requires Begun(b) && b.seed == []
      modifies b`calls, b`outs, b.f, b.ids
      ensures hash == Reg(old(b.ids.next)) && entry == |old(b.f.blocks)| && loop == entry + 1 && exit == entry + 2
      ensures var c := old(b.Position());
        c.point < |c.blocks| && b.ids.next == c.next + 2
        && b.f.blocks == c.blocks[c.point := c.blocks[c.point] + Number(HashMain(entry), c.next)] + [[], [], []]
    {
      ghost var c := b.Position();
      PutNone(b.start);
      assert b.start == c;
      hash := b.Call(HashNew, [], []);
      OnlyCall(b.vars.Handles(), c.next);
      assert b.calls == [Invoke(HashNew, [])];
      assert b.Position() == Put(c, [Op.Call(HashNew, [])]);
      entry := b.f.CreateBlock();
      loop := b.f.CreateBlock();
      exit := b.f.CreateBlock();
      var _ := b.Emit(Br(entry));
      MainJoined(c, entry);
    }

    method EmitHashTail(b: Builder, hash: Operand)
      requires b.Placed()
      modifies b`start, b`seed, b`calls, b`outs, b.f, b.ids
      ensures b.Placed()
      ensures b.Position() == Put(old(b.Position()), PushOps(b.vars.Handles(), old(b.ids.next), hash))
    {
      hide AllOps, AllOuts, PushOps, Number;
      b.Begin([hash]);
      OnlyPush(b.vars.Handles(), b.start.next, hash);
      b.Push(hash, Res(0));
      assert b.calls == [PushVal(Res(0))];
    }

    /** The hash literal: the builder ends in the last of three new blocks. */
    method NewHash(b: Builder, count: int)
      requires Begun(b) && b.seed == []
      modifies b, b.f, b.ids
      ensures b.Placed() && b.Position() == HashPut(old(b.Position()), b.vars.Handles(), count)
    {
      hide AllOps, AllOuts, HashLoop, PushOps, HashMain, Number, Builder.Valid, Put;
      ghost var c, h := b.Position(), b.vars.Handles();
      var hash, entry, loop, exit := EmitHashNew(b);
      ghost var c1 := b.Position();
      b.SetInsertPoint(entry);
      EmitHashHead(b, count, loop, exit);
      ghost var c2 := b.Position();
      b.SetInsertPoint(loop);
      EmitHashLoop(b, hash, count, entry, loop, exit, c.next);
      ghost var c3 := b.Position();
      b.SetInsertPoint(exit);
      HashSizes(h, c.next, entry, count);
      EmitHashTail(b, hash);
      HashJoined(c, h, count, c1, c2, c3, b.Position());
    }
  }

  lemma MainJoined(c: Cursor, x: nat)
    requires c.point < |c.blocks|
    ensures c.blocks[c.point] + Number([Op.Call(HashNew, [])], c.next) + Number([Br(x)], c.next + 1)
         == c.blocks[c.point] + Number(HashMain(x), c.next)
  {
    NumberAppend([Op.Call(HashNew, [])], [Br(x)], c.next);
    assert HashMain(x) == [Op.Call(HashNew, [])] + [Br(x)];
  }

  lemma {:induction false} OnlyCall(h: Handles, r: nat)
    ensures AllOps(h, r, [Invoke(HashNew, [])], 0, []) == [Op.Call(HashNew, [])]
    ensures AllOuts(h, r, [Invoke(HashNew, [])], 0, []) == [Reg(r)]
  {
    var cs := [Invoke(HashNew, [])];
    UnfoldOps(h, r, cs, 0, []);
    UnfoldNone(h, r + 1, cs, [] + [Reg(r)]);
    assert Operands(h, [], []) == [];
  }

  lemma {:induction false} OnlyPush(h: Handles, r: nat, v: Operand)
    ensures AllOps(h, r, [PushVal(Res(0))], 0, [v]) == PushOps(h, r, v)
  {
    var cs := [PushVal(Res(0))];
    UnfoldOps(h, r, cs, 0, [v]);
    UnfoldNone(h, r + 4, cs, [v] + [Reg(r + 3)]);
  }

  /** Where newhash leaves the builder. */
  function HashPut(c: Cursor, h: Handles, count: int): Cursor
    requires c.point < |c.blocks|
  {
    var r, x := c.next, |c.blocks|;
    Cursor(c.blocks[c.point := c.blocks[c.point] + Number(HashMain(x), r)]
           + [Number(HashHead(r, x, count), r + 2), Number(HashLoop(h, r, x, count), r + 4),
              Number(PushOps(h, r + 19, Reg(r)), r + 19)],
           x + 2, r + 23)
  }

  /** Filling an empty block. */
  lemma PutAt(before: Func, after: Func, ops: seq<Op>, next: nat)
    ensures Put(Cursor(before + [[]] + after, |before|, next), ops)
         == Cursor(before + [Number(ops, next)] + after, |before|, next + |ops|)
  {
    assert [] + Number(ops, next) == Number(ops, next);
    assert (before + [[]] + after)[|before| := Number(ops, next)] == before + [Number(ops, next)] + after;
  }

  lemma ThreePut(pre: Func, a: seq<Op>, b: seq<Op>, d: seq<Op>, r: nat, c1: Cursor, c2: Cursor, c3: Cursor, c4: Cursor)
    requires c1.blocks == pre + [[], [], []] && c1.next == r
    requires var x := |pre|;
      c2 == Put(c1.(point := x), a) && c3 == Put(c2.(point := x + 1), b) && c4 == Put(c3.(point := x + 2), d)
    ensures var r1, r2 := r + |a|, r + |a| + |b|;
      c4 == Cursor(pre + [Number(a, r), Number(b, r1), Number(d, r2)], |pre| + 2, r2 + |d|)
  {
    hide Number, Put;
    var n1, n2 := Number(a, r), Number(b, r + |a|);
    assert c1.blocks == pre + [[]] + [[], []];
    PutAt(pre, [[], []], a, r);
    assert pre + [n1] + [[], []] == (pre + [n1]) + [[]] + [[]];
    PutAt(pre + [n1], [[]], b, r + |a|);
    assert (pre + [n1]) + [n2] + [[]] == (pre + [n1] + [n2]) + [[]] + [];
    PutAt(pre + [n1] + [n2], [], d, r + |a| + |b|);
    var n3 := Number(d, r + |a| + |b|);
    assert (pre + [n1] + [n2]) + [n3] + [] == pre + [n1, n2, n3];
  }

  lemma HashJoined(c: Cursor, h: Handles, count: int, c1: Cursor, c2: Cursor, c3: Cursor, c4: Cursor)
    requires c.point < |c.blocks|
    requires var r, x := c.next, |c.blocks|;
      c1.blocks == c.blocks[c.point := c.blocks[c.point] + Number(HashMain(x), r)] + [[], [], []] && c1.next == r + 2
      && c2 == Put(c1.(point := x), HashHead(r, x, count))
      && c3 == Put(c2.(point := x + 1), HashLoop(h, r, x, count))
      && c4 == Put(c3.(point := x + 2), PushOps(h, r + 19, Reg(r)))
    ensures c4 == HashPut(c, h, count)
  {
    hide HashMain, HashHead, HashLoop, PushOps, Number, Put;
    var r, x := c.next, |c.blocks|;
    HashSizes(h, r, x, count);
    var pre := c.blocks[c.point := c.blocks[c.point] + Number(HashMain(x), r)];
    ThreePut(pre, HashHead(r, x, count), HashLoop(h, r, x, count), PushOps(h, r + 19, Reg(r)), r + 2, c1, c2, c3, c4);
  }

  lemma {:induction false} LoopPut(c: Cursor, h: Handles, r: nat, x: nat, count: int, c2: Cursor)
    requires c.point < |c.blocks| && c.next == r + 4
    requires c2 == Put(Put(c, [HashPhi(r, x, count)]), AllOps(h, r + 5, LoopCalls(), 0, [Reg(r), Reg(r + 4)]))
    ensures Put(c2, [CondBr(Reg(r + 17), x + 1, x + 2)]) == Put(c, HashLoop(h, r, x, count))
  {
    hide AllOps, LoopCalls, Number;
    var phi, body, br := [HashPhi(r, x, count)], AllOps(h, r + 5, LoopCalls(), 0, [Reg(r), Reg(r + 4)]),
      [CondBr(Reg(r + 17), x + 1, x + 2)];
    PutPut(c, phi, body);
    PutPut(c, phi + body, br);
    assert phi + body + br == phi + (body + br);
  }

  lemma PutMain(c: Cursor, ops: seq<Op>, t: Op)
    requires c.point < |c.blocks| && c.blocks[c.point] == []
    ensures Put(Put(c, ops), [t]).blocks == c.blocks[c.point := Number(ops + [t], c.next)]
    ensures Put(Put(c, ops), [t]).next == c.next + |ops| + 1
  {
    PutPut(c, ops, [t]);
    assert [] + Number(ops + [t], c.next) == Number(ops + [t], c.next);
  }

  lemma LastPut(pre: Func, a: Block, b: Block, push: seq<Op>, br: seq<Op>, r: nat)
    ensures Put(Cursor(pre + [a, b, Number(push, r)], |pre| + 2, r + |push|), br)
         == Cursor(pre + [a, b, Number(push + br, r)], |pre| + 2, r + |push| + |br|)
  {
    NumberAppend(push, br, r);
    hide Number;
    var d := Number(push, r);
    assert (pre + [a, b, d])[|pre| + 2] == d;
    assert (pre + [a, b, d])[|pre| + 2 := d + Number(br, r + |push|)] == pre + [a, b, d + Number(br, r + |push|)];
  }

  /** The blocks and the last three of newhash, with the given code in the tail. */
  function WithHash(c: Cursor, h: Handles, count: int, tail: seq<Op>): Func
    requires c.point < |c.blocks|
  {
    var r, x := c.next, |c.blocks|;
    c.blocks[c.point := Number(HashMain(x), r)]
    + [Number(HashHead(r, x, count), r + 2), Number(HashLoop(h, r, x, count), r + 4), Number(tail, r + 19)]
  }

  lemma HashPutEmpty(c: Cursor, h: Handles, count: int)
    requires c.point < |c.blocks| && c.blocks[c.point] == []
    ensures HashPut(c, h, count)
         == Cursor(WithHash(c, h, count, PushOps(h, c.next + 19, Reg(c.next))), |c.blocks| + 2, c.next + 23)
  {
    hide HashMain, HashHead, HashLoop, Number;
    assert [] + Number(HashMain(|c.blocks|), c.next) == Number(HashMain(|c.blocks|), c.next);
  }

  lemma AfterHash(c: Cursor, h: Handles, n: nat, i: nat, insn: Insn)
    requires c.point == BlockOf(i) && c.point < |c.blocks|
    requires insn.NewHash? && WellFormedInsn(n, insn)
    ensures AfterInsn(c, h, n, i, insn) == Code(WithHash(c, h, insn.count, HashTail(h, c.next, i)), c.next + 24)
  {
    hide *;
    var r, x, count := c.next, |c.blocks|, insn.count;
    HashSizes(h, r, x, count);
    HashParts(h, r, x, n, i, insn);
    SizesOfThree(Number(HashHead(r, x, count), r + 2), Number(HashLoop(h, r, x, count), r + 4),
                 Number(HashTail(h, r, i), r + 19));
    AfterInsnIs(c, h, n, i, insn);
    WithHashIs(c, h, count, HashTail(h, r, i));
  }

  lemma AfterInsnIs(c: Cursor, h: Handles, n: nat, i: nat, insn: Insn)
    requires WellFormedInsn(n, insn) && c.point == BlockOf(i) < |c.blocks|
    ensures var main, extra := MainOps(h, c.next, |c.blocks|, n, i, insn), ExtraBlocks(h, c.next, |c.blocks|, i, insn);
      AfterInsn(c, h, n, i, insn)
        == Code(c.blocks[c.point := Number(main, c.next)] + extra, c.next + |main| + Sizes(extra))
  {
    hide MainOps, ExtraBlocks, Number, Sizes, WellFormedInsn;
  }

  lemma WithHashIs(c: Cursor, h: Handles, count: int, tail: seq<Op>)
    requires c.point < |c.blocks|
    ensures var r, x := c.next, |c.blocks|;
      WithHash(c, h, count, tail)
        == c.blocks[c.point := Number(HashMain(x), r)]
           + [Number(HashHead(r, x, count), r + 2), Number(HashLoop(h, r, x, count), r + 4), Number(tail, r + 19)]
  {
    hide HashMain, HashHead, HashLoop, Number;
  }

  lemma TailParts(h: Handles, r: nat, i: nat)
    ensures |PushOps(h, r + 19, Reg(r))| == 4 && HashTail(h, r, i) == PushOps(h, r + 19, Reg(r)) + [Br(BlockOf(i + 1))]
  {
  }

  lemma HashPutDone(c: Cursor, h: Handles, n: nat, i: nat, insn: Insn)
    requires c.point == BlockOf(i) && c.point < |c.blocks| && c.blocks[c.point] == []
    requires insn.NewHash? && WellFormedInsn(n, insn)
    ensures HashPut(c, h, insn.count).point < |HashPut(c, h, insn.count).blocks|
    ensures var c1 := Put(HashPut(c, h, insn.count), [Br(BlockOf(i + 1))]);
      Code(c1.blocks, c1.next) == AfterInsn(c, h, n, i, insn)
  {
    hide *;
    var r, x, count := c.next, |c.blocks|, insn.count;
    var push, br := PushOps(h, r + 19, Reg(r)), [Br(BlockOf(i + 1))];
    TailParts(h, r, i);
    HashPutEmpty(c, h, count);
    AfterHash(c, h, n, i, insn);
    WithHashIs(c, h, count, push);
    WithHashIs(c, h, count, push + br);
    LastPut(c.blocks[c.point := Number(HashMain(x), r)], Number(HashHead(r, x, count), r + 2),
            Number(HashLoop(h, r, x, count), r + 4), push, br, r + 19);
  }

  lemma SizesOfThree(a: Block, b: Block, d: Block)
    ensures Sizes([a, b, d]) == |a| + |b| + |d|
  {
    assert [a, b, d][1..] == [b, d] && [b, d][1..] == [d] && [d][1..] == [];
    assert Sizes([d]) == |d| + Sizes([]);
  }

  /** The code after instruction i, when the builder stands at its empty block. */
  function AfterInsn(c: Cursor, h: Handles, n: nat, i: nat, insn: Insn): Code
    requires WellFormedInsn(n, insn) && BlockOf(i) < |c.blocks|
  {
    var main := MainOps(h, c.next, |c.blocks|, n, i, insn);
    var extra := ExtraBlocks(h, c.next, |c.blocks|, i, insn);
    Code(c.blocks[BlockOf(i) := Number(main, c.next)] + extra, c.next + |main| + Sizes(extra))
  }

  class RubyVM {
    const ids: Identities
    const vars: Globals
    const ops: OpCodeBuilder
    var functions: map<nat, Function>
    var funcN: nat

    /** Functions vm_func0, vm_func1, ... up to the counter have been handed out. */
    ghost predicate Valid()
      reads this
    {
      forall k :: k in functions ==> k < funcN
    }

    constructor ()
      ensures Valid() && functions == map[] && funcN == 0
    {
      ids := new Identities(0);
      vars := new Globals();
      ops := new OpCodeBuilder();
      functions, funcN := map[], 0;
    }

    /** The function of that name, created if the module does not have it. */
    method GetOrInsertFunction(name: nat) returns (f: Function)
      modifies this`functions
      ensures name in old(functions) ==> f == old(functions)[name] && functions == old(functions)
      ensures name !in old(functions) ==> fresh(f) && f.blocks == [] && functions == old(functions)[name := f]
    {
      if name in functions {
        f := functions[name];
      } else {
        f := new Function();
        functions := functions[name := f];
      }
    }

    /** The instructions that op_builder is sent. */
    method BuildStraight(b: Builder, insn: Insn)
      requires ops.Begun(b) && IsStraight(insn)
      modifies b`calls, b`outs, b.f, b.ids
      ensures b.Valid() && b.calls == Calls(insn)
    {
      hide Builder.Valid, Calls;
      match insn
      case Nop => NopHasNoCode();
      case PutNil => ops.PutNil(b);
      case PutSelf => ops.PutSelf(b);
      case PutObject(n) => ops.PutObject(b, n);
      case Pop => ops.Pop(b);
      case Dup => ops.Dup(b);
      case Swap => ops.Swap(b);
      case SetLocal(k) => ops.SetLocal(b, k);
      case GetLocal(k) => ops.GetLocal(b, k);
      case OptPlus => ops.OptPlus(b);
      case OptMinus => ops.OptMinus(b);
      case OptMult => ops.OptMult(b);
      case OptAref => ops.OptAref(b);
      case OptAset => ops.OptAset(b);
      case OptLength => ops.OptLength(b);
      case OptLt => ops.OptLt(b);
      case OptGt => ops.OptGt(b);
      case OptGe => ops.OptGe(b);
      case GetIvar(sym) => ops.GetIvar(b, sym);
      case SetIvar(sym) => ops.SetIvar(b, sym);
      case NewArray => ops.NewArray(b);
      case Send => ops.Send(b);
    }

    lemma NopHasNoCode()
      ensures Calls(Nop) == []
    {
    }

    /** The code of such an instruction, and the branch to the next one. */
    method BuildCode(b: Builder, insn: Insn, next: nat)
      requires ops.Begun(b) && b.seed == [] && b.start == b.Position() && IsStraight(insn)
      modifies b`calls, b`outs, b.f, b.ids
      ensures b.Placed()
      ensures b.Position()
           == Put(Put(old(b.Position()), AllOps(b.vars.Handles(), old(b.ids.next), Calls(insn), 0, [])), [Br(next)])
    {
      hide AllOps, AllOuts, Calls, Put;
      BuildStraight(b, insn);
      var _ := b.Emit(Br(next));
    }

    /** The test of a conditional branch. */
    method BuildTest(b: Builder, zero: nat, other: nat)
      requires ops.Begun(b) && b.seed == []
      modifies b`calls, b`outs, b.f, b.ids
      ensures b.Placed()
      ensures b.Position() == Put(Put(old(b.Position()), AllOps(b.vars.Handles(), old(b.ids.next), TestCalls(), 0, [])),
                                  [CondBr(Reg(old(b.ids.next) + 4), zero, other)])
    {
      PutNone(b.start);
      assert b.start == b.Position();
      var v := b.Pop();
      var cmp := b.ICmp(Eq, v, Const(WORD, 0), Res(0), Word(0));
      assert b.calls == TestCalls();
      TestNumbers(b.vars.Handles(), b.start.next);
      hide AllOps, AllOuts, TestCalls, Number;
      var _ := b.Emit(CondBr(cmp, zero, other));
    }

    /** The builder stands at the empty block of instruction i; blocks[j] is the block of instruction j. */
    ghost predicate AtBlock(b: Builder, blocks: seq<nat>, i: nat)
      reads b, b.f, b.ids, b.vars
    {
      i + 1 < |blocks| && (forall j :: 0 <= j < |blocks| ==> blocks[j] == BlockOf(j))
      && ops.Begun(b) && b.seed == [] && b.start == b.Position()
      && b.point == BlockOf(i) && b.f.blocks[b.point] == []
    }

    /** Instruction i has been added. */
    twostate predicate Built(b: Builder, n: nat, i: nat, insn: Insn)
      reads b, b.f, b.ids, b.vars
    {
      b.Placed() && WellFormedInsn(n, insn) && BlockOf(i) < |old(b.f.blocks)|
      && Code(b.f.blocks, b.ids.next) == AfterInsn(old(b.Position()), b.vars.Handles(), n, i, insn)
    }

    method BuildBranch(b: Builder, blocks: seq<nat>, i: nat, insn: Insn)
      requires AtBlock(b, blocks, i) && WellFormedInsn(|blocks| - 1, insn) && (insn.BranchIf? || insn.BranchUnless?)
      modifies b, b.f, b.ids
      ensures Built(b, |blocks| - 1, i, insn)
    {
      hide Put, Number, AllOps, AllOuts, Builder.Valid, AfterInsn, MainOps, TestCalls, WellFormedInsn, RubyVM.AtBlock,
           OpCodeBuilder.Begun;
      ghost var c, h := b.Position(), b.vars.Handles();
      AtBlockIs(b, blocks, i);
      JumpOps(h, c.next, |c.blocks|, |blocks| - 1, i, insn);
      var zero, other := blocks[Target(|blocks| - 1, insn.target)], blocks[i + 1];
      if insn.BranchIf? {
        zero, other := other, zero;
      }
      BuildTest(b, zero, other);
      MainIs(c, h, |blocks| - 1, i, insn, AllOps(h, c.next, TestCalls(), 0, []),
             CondBr(Reg(c.next + 4), zero, other));
    }

    method BuildJump(b: Builder, blocks: seq<nat>, i: nat, insn: Insn)
      requires AtBlock(b, blocks, i) && WellFormedInsn(|blocks| - 1, insn) && insn.Jump?
      modifies b, b.f, b.ids
      ensures Built(b, |blocks| - 1, i, insn)
    {
      ghost var n, c, h := |blocks| - 1, b.Position(), b.vars.Handles();
      var t := blocks[Target(|blocks| - 1, insn.target)];
      assert b.Placed();
      JumpOps(h, c.next, |c.blocks|, n, i, insn);
      hide Put, Number, Builder.Valid, AfterInsn, MainOps;
      PutNone(c);
      assert [] + [Br(t)] == [Br(t)];
      var _ := b.Emit(Br(t));
      MainIs(c, h, n, i, insn, [], Br(t));
    }

    method BuildHash(b: Builder, blocks: seq<nat>, i: nat, insn: Insn)
      requires AtBlock(b, blocks, i) && WellFormedInsn(|blocks| - 1, insn) && insn.NewHash?
      modifies b, b.f, b.ids
      ensures Built(b, |blocks| - 1, i, insn)
    {
      hide Put, Number, AllOps, AllOuts, MainOps, ExtraBlocks, HashPut, AfterInsn;
      HashPutDone(b.Position(), b.vars.Handles(), |blocks| - 1, i, insn);
      ops.NewHash(b, insn.count);
      var _ := b.Emit(Br(blocks[i + 1]));
    }

    lemma AtBlockIs(b: Builder, blocks: seq<nat>, i: nat)
      requires AtBlock(b, blocks, i)
      ensures i + 1 < |blocks| && (forall j :: 0 <= j < |blocks| ==> blocks[j] == BlockOf(j)) && ops.Begun(b)
      ensures b.seed == []
      ensures b.start == b.Position() && b.Placed() && b.point == BlockOf(i) && b.f.blocks[b.point] == []
      ensures b.Position().point < |b.Position().blocks|
    {
      hide Put, AllOps, AllOuts;
    }

    method BuildPlain(b: Builder, blocks: seq<nat>, i: nat, insn: Insn)
      requires AtBlock(b, blocks, i) && WellFormedInsn(|blocks| - 1, insn) && IsStraight(insn)
      modifies b, b.f, b.ids
      ensures Built(b, |blocks| - 1, i, insn)
    {
      hide Put, Number, AllOps, AllOuts, Calls, Builder.Valid, MainOps, ExtraBlocks, AfterInsn, WellFormedInsn,
           RubyVM.AtBlock, IsStraight, OpCodeBuilder.Begun;
      AtBlockIs(b, blocks, i);
      StraightDone(b.Position(), b.vars.Handles(), |blocks| - 1, i, insn);
      BuildCode(b, insn, blocks[i + 1]);
    }

    /** One turn of the loop over the bytecode. */
    method BuildInsn(b: Builder, blocks: seq<nat>, i: nat, insn: Insn)
      requires AtBlock(b, blocks, i) && WellFormedInsn(|blocks| - 1, insn)
      modifies b, b.f, b.ids
      ensures Built(b, |blocks| - 1, i, insn)
    {
      hide *;
      KindsOf(insn);
      if insn.Jump? {
        BuildJump(b, blocks, i, insn);
      } else if insn.BranchIf? || insn.BranchUnless? {
        BuildBranch(b, blocks, i, insn);
      } else if insn.NewHash? {
        BuildHash(b, blocks, i, insn);
      } else {
        BuildPlain(b, blocks, i, insn);
      }
    }

    /** The entry block: globals, the argument pushed, a branch to the first block. */
    method BuildEntry(b: Builder, n: nat)
      requires b.Placed() && b.point == 0 && b.f.blocks == [[]]
      modifies b, b.vars, b.f, b.ids
      ensures b.Placed() && b.vars.Handles() == HandlesAt(old(b.ids.next))
      ensures b.f.blocks == [Number(EntryOps(old(b.ids.next)), old(b.ids.next))] + EmptyBlocks(n + 1)
      ensures b.ids.next == old(b.ids.next) + 9
    {
      ghost var base, c0 := b.ids.next, b.Position();
      b.SetGlobals();
      ghost var h := b.vars.Handles();
      PushArg(b);
      ghost var c1 := b.Position();
      assert c1 == Put(Put(c0, GlobalOps(base)), PushOps(h, base + 4, Arg(1)));
      for i := 0 to n + 1
        invariant b.f.blocks == c1.blocks + EmptyBlocks(i) && b.ids.next == base + 8 && b.point == 0
        invariant b.vars.Handles() == h && b.Placed()
      {
        var _ := b.f.CreateBlock();
        assert EmptyBlocks(i) + [[]] == EmptyBlocks(i + 1);
      }
      var _ := b.Emit(Br(1));
      EntryJoined(c0, base, n);
    }

    method PushArg(b: Builder)
      requires b.Placed()
      modifies b`start, b`seed, b`calls, b`outs, b.f, b.ids
      ensures b.Placed()
      ensures b.Position() == Put(old(b.Position()), PushOps(b.vars.Handles(), old(b.ids.next), Arg(1)))
    {
      hide AllOps, AllOuts, PushOps, Number;
      b.Begin([Arg(1)]);
      OnlyPush(b.vars.Handles(), b.start.next, Arg(1));
      b.Push(Arg(1), Res(0));
      assert b.calls == [PushVal(Res(0))];
    }

    /** The exit block returns the top of the stack. */
    method BuildExit(b: Builder)
      requires b.Placed() && b.f.blocks[b.point] == []
      modifies b`start, b`seed, b`calls, b`outs, b.f, b.ids
      ensures b.f.blocks
           == old(b.f.blocks)[b.point := Number(ExitOps(b.vars.Handles(), old(b.ids.next)), old(b.ids.next))]
      ensures b.ids.next == old(b.ids.next) + 5
    {
      hide AllOps, AllOuts, Number, PopOps;
      b.Begin([]);
      ghost var c := b.Position();
      var retVal := b.Pop();
      OnlyPop(b.vars.Handles(), c.next);
      assert b.calls == [PopVal];
      var _ := b.Emit(Ret(retVal));
      PutMain(c, PopOps(b.vars.Handles(), c.next), Ret(retVal));
    }

    /** The loop over the bytecode. It stops at the first operand that the bindings do not accept. */
    method BuildAll(b: Builder, blocks: seq<nat>, bc: Bytecode, ghost base: nat) returns (ok: bool)
      requires |blocks| == |bc| + 1 && (forall j :: 0 <= j < |blocks| ==> blocks[j] == BlockOf(j))
      requires Code(b.f.blocks, b.ids.next) == CompileTo(bc, base, 0) && b.vars.Handles() == HandlesAt(base)
      modifies b, b.f, b.ids
      ensures ok <==> WellFormed(bc)
      ensures ok ==> Code(b.f.blocks, b.ids.next) == CompileTo(bc, base, |bc|)
      ensures b.ids.next >= base + 9
    {
      hide MainOps, ExtraBlocks, EntryOps, Number, HandlesAt, WellFormedInsn, Sizes, AllOps, AllOuts, Put;
      for i := 0 to |bc|
        invariant WellFormedTo(bc, i)
        invariant Code(b.f.blocks, b.ids.next) == CompileTo(bc, base, i)
        invariant b.vars.Handles() == HandlesAt(base)
      {
        if !WellFormedInsn(|bc|, bc[i]) {
          return false;
        }
        Untouched(bc, base, i, i);
        b.SetInsertPoint(blocks[i]);
        b.Begin([]);
        BuildInsn(b, blocks, i, bc[i]);
      }
      ok := true;
    }

    /**
     * Compiles a bytecode to a new function. The result is None when an operand is not one that the bindings
     * accept: a jump to a block that does not exist, or a number that does not fit a C int.
     */
    method CompileBytecode(bc: Bytecode) returns (r: Option<Function>)
      requires Valid()
      modifies this`functions, this`funcN, vars, ids
      ensures Valid() && funcN == old(funcN) + 1 && ids.next >= old(ids.next)
      ensures forall k :: k in old(functions) ==> k in functions && functions[k] == old(functions[k])
      ensures r.Some? <==> WellFormed(bc)
      ensures r.Some? ==> fresh(r.value) && old(funcN) in functions && functions[old(funcN)] == r.value
      ensures r.Some? ==> Code(r.value.blocks, ids.next) == Compile(bc, old(ids.next))
    {
      hide MainOps, ExtraBlocks, Number, HandlesAt, WellFormedInsn, Sizes, ExitOps, EntryOps, Builder.Valid, Put,
           AllOps, AllOuts;
      ghost var base := ids.next;
      var f := GetOrInsertFunction(funcN);
      funcN := funcN + 1;
      var entry := f.CreateBlock();
      var b := new Builder(f, ids, vars, entry);
      BuildEntry(b, |bc|);
      var blocks: seq<nat> := seq(|bc| + 1, (j: nat) => BlockOf(j));
      var ok := BuildAll(b, blocks, bc, base);
      if !ok {
        return None;
      }
      Untouched(bc, base, |bc|, |bc|);
      b.SetInsertPoint(blocks[|bc|]);
      BuildExit(b);
      r := Some(f);
    }
  }

  lemma {:induction false} OnlyPop(h: Handles, r: nat)
    ensures AllOps(h, r, [PopVal], 0, []) == PopOps(h, r) && AllOuts(h, r, [PopVal], 0, []) == [Reg(r + 3)]
  {
    var cs := [PopVal];
    UnfoldOps(h, r, cs, 0, []);
    UnfoldNone(h, r + 4, cs, [] + [Reg(r + 3)]);
  }

  lemma EntryJoined(c0: Cursor, base: nat, n: nat)
    requires c0 == Cursor([[]], 0, base)
    ensures var c1 := Put(Put(c0, GlobalOps(base)), PushOps(HandlesAt(base), base + 4, Arg(1)));
      var c2 := Put(c1.(blocks := c1.blocks + EmptyBlocks(n + 1)), [Br(1)]);
      c2.blocks == [Number(EntryOps(base), base)] + EmptyBlocks(n + 1)
  {
    var a, p, br := GlobalOps(base), PushOps(HandlesAt(base), base + 4, Arg(1)), [Br(1)];
    PutPut(c0, a, p);
    assert |a| == 4 && |p| == 4;
    hide GlobalOps, PushOps, Number;
    var rest := EmptyBlocks(n + 1);
    NumberAppend(a + p, br, base);
    assert a + p + br == a + (p + br);
    assert [] + Number(a + p, base) == Number(a + p, base);
    var c1 := Put(c0, a + p);
    assert c1.blocks == [Number(a + p, base)];
    assert ([Number(a + p, base)] + rest)[0 := Number(a + p, base) + Number(br, base + 8)]
        == [Number(a + p, base) + Number(br, base + 8)] + rest;
  }

  lemma MainIs(c: Cursor, h: Handles, n: nat, i: nat, insn: Insn, ops: seq<Op>, t: Op)
    requires c.point == BlockOf(i) && c.point < |c.blocks| && c.blocks[c.point] == []
    requires !insn.NewHash? && WellFormedInsn(n, insn)
    requires MainOps(h, c.next, |c.blocks|, n, i, insn) == ops + [t]
    ensures Put(c, ops).point < |Put(c, ops).blocks|
    ensures var c1 := Put(Put(c, ops), [t]); Code(c1.blocks, c1.next) == AfterInsn(c, h, n, i, insn)
  {
    hide MainOps;
    PutMain(c, ops, t);
    assert ExtraBlocks(h, c.next, |c.blocks|, i, insn) == [] && Sizes([]) == 0;
  }

  lemma {:induction false} StraightDone(c: Cursor, h: Handles, n: nat, i: nat, insn: Insn)
    requires c.point == BlockOf(i) && c.point < |c.blocks| && c.blocks[c.point] == []
    requires IsStraight(insn) && WellFormedInsn(n, insn)
    ensures var c1 := Put(Put(c, AllOps(h, c.next, Calls(insn), 0, [])), [Br(BlockOf(i + 1))]);
      Code(c1.blocks, c1.next) == AfterInsn(c, h, n, i, insn)
  {
    assert !insn.NewHash?;
    hide MainOps, AfterInsn, Put, AllOps, Calls, WellFormedInsn, IsStraight;
    StraightOps(h, c.next, |c.blocks|, n, i, insn);
    MainIs(c, h, n, i, insn, AllOps(h, c.next, Calls(insn), 0, []), Br(BlockOf(i + 1)));
  }
}
