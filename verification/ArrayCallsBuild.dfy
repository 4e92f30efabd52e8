// How add1 and reverse are built, one builder for each block.

module ArrayCallsBuild {
  import opened Words
  import opened IR
  import opened StackMachine
  import opened Emission
  import opened Building
  import opened LoopFunctions
  import opened ArrayCalls

  lemma {:induction false} EntryBuilt(p: Plan, h: Handles, r: nat, start: Cursor, c: Cursor)
    requires p.Ok() && start == Cursor([[], [], []], 0, r) && c == Put(start, AllOps(h, r, p.entry, 0, []))
    ensures Put(c, [CondBr(p.EntryOuts(h, r)[|p.entry| - 1], 2, 1)])
         == Cursor([Number(p.EntryCode(h, r), r), [], []], 0, p.Index(h, r))
  {
    hide AllOps, AllOuts, Number;
    PutPut(start, AllOps(h, r, p.entry, 0, []), [CondBr(p.EntryOuts(h, r)[|p.entry| - 1], 2, 1)]);
    assert [] + Number(p.EntryCode(h, r), r) == Number(p.EntryCode(h, r), r);
  }

  lemma LoopBuilt(p: Plan, h: Handles, r: nat, entry: Block, start: Cursor, c: Cursor)
    requires p.Ok() && start == Put(Cursor([entry, [], []], 1, p.Index(h, r)), [p.IndexPhi(h, r)])
    requires c == Put(start, p.BodyOps(h, r))
    ensures Put(c, [CondBr(p.BodyOuts(h, r)[|p.entry| + |p.body|], 1, 2)])
         == Cursor([entry, Number(p.LoopCode(h, r), p.Index(h, r)), []], 1, p.Index(h, r) + |p.LoopCode(h, r)|)
  {
    var c0, phi, body := Cursor([entry, [], []], 1, p.Index(h, r)), [p.IndexPhi(h, r)], p.BodyOps(h, r);
    var br := [CondBr(p.BodyOuts(h, r)[|p.entry| + |p.body|], 1, 2)];
    assert p.LoopCode(h, r) == phi + (body + br);
    hide AllOps, AllOuts, Number, Plan.Ok, Plan.IndexPhi, Plan.BodyOps, Plan.BodyOuts, Plan.LoopCode, Plan.Index;
    PutPut(c0, phi, body);
    PutPut(c0, phi + body, br);
    assert phi + body + br == phi + (body + br);
    assert [] + Number(p.LoopCode(h, r), p.Index(h, r)) == Number(p.LoopCode(h, r), p.Index(h, r));
  }

  /** What a builder has emitted when the calls of a loop block are done. */
  predicate LoopDone(p: Plan, h: Handles, r: nat, entry: Block, results: seq<Operand>, nextIdx: Operand, start: Cursor,
                     outs: seq<Operand>, c: Cursor)
    requires p.Ok()
  {
    results == p.EntryOuts(h, r) && |outs| == |p.entry| + 1 + |p.body| && outs[p.next] == nextIdx
    && start == Put(Cursor([entry, [], []], 1, p.Index(h, r)), [Op.Phi([(Const(WORD, 0), 0), (nextIdx, 1)])])
    && outs == AllOuts(h, p.Index(h, r) + 1, p.body, 0, results + [Reg(p.Index(h, r))])
    && c == Put(start, AllOps(h, p.Index(h, r) + 1, p.body, 0, results + [Reg(p.Index(h, r))]))
  }

  lemma LoopFinished(p: Plan, h: Handles, r: nat, entry: Block, results: seq<Operand>, nextIdx: Operand, start: Cursor,
                     outs: seq<Operand>, c: Cursor)
    requires p.Ok() && LoopDone(p, h, r, entry, results, nextIdx, start, outs, c)
    ensures c.point < |c.blocks| && |outs| == |p.entry| + 1 + |p.body|
    ensures Put(c, [CondBr(outs[|outs| - 1], 1, 2)])
         == Cursor([entry, Number(p.LoopCode(h, r), p.Index(h, r)), []], 1, p.Index(h, r) + |p.LoopCode(h, r)|)
  {
    assert outs == p.BodyOuts(h, r) && start == Put(Cursor([entry, [], []], 1, p.Index(h, r)), [p.IndexPhi(h, r)]);
    assert c == Put(start, p.BodyOps(h, r));
    hide *;
    LoopBuilt(p, h, r, entry, start, c);
  }

  /** The index of the loop: a phi with an edge from the entry, where it is 0, and one from the loop itself. */
  method BuildIndex(b: Builder, results: seq<Operand>) returns (idx: Operand, nextIdx: Operand)
    requires b.Placed() && |results| + 1 > 0
    modifies b`start, b`seed, b`calls, b`outs, b.f, b.ids
    ensures b.Valid() && idx == Reg(old(b.ids.next)) && b.seed == results + [idx]
    ensures b.outs == results + [idx] + [nextIdx]
    ensures b.calls == [BinOf(Add, Word(1), Res(|results|))]
    ensures b.start == Put(old(b.Position()), [Op.Phi([(Const(WORD, 0), 0), (nextIdx, 1)])])
  {
    hide AllOps, AllOuts, Ops, Number;
    ghost var c := b.Position();
    var k: nat;
    idx, k := b.Phi();
    b.Begin(results + [idx]);
    PhiPut(c, [], Const(WORD, 0), 0);
    assert [] + [(Const(WORD, 0), 0)] == [(Const(WORD, 0), 0)];
    b.AddIncoming(b.point, k, Const(WORD, 0), 0);
    nextIdx := b.BinOp(Add, Const(WORD, 1), idx, Word(1), Res(|results|));
    PhiPut(c, [(Const(WORD, 0), 0)], nextIdx, 1);
    assert [(Const(WORD, 0), 0)] + [(nextIdx, 1)] == [(Const(WORD, 0), 0), (nextIdx, 1)];
    b.AddIncoming(b.point, k, nextIdx, 1);
  }

  /** Each function starts with three empty blocks. */
  method ThreeBlocks() returns (f: Function)
    ensures fresh(f) && f.blocks == [[], [], []]
  {
    f := new Function();
    var _ := f.CreateBlock();
    var _ := f.CreateBlock();
    var _ := f.CreateBlock();
    assert f.blocks == [[], [], []];
  }

  method BuildExit(f: Function, ids: Identities, vars: Globals, ghost p: Plan, ghost h: Handles, ghost r: nat)
    requires p.Ok() && ids.next == p.Index(h, r) + |p.LoopCode(h, r)|
    requires f.blocks == [Number(p.EntryCode(h, r), r), Number(p.LoopCode(h, r), p.Index(h, r)), []]
    modifies f, ids
    ensures f.blocks == p.Blocks(h, r)
  {
    hide AllOps, AllOuts, Number, Plan.Ok, Plan.EntryCode, Plan.LoopCode, Plan.Index;
    var b := new Builder(f, ids, vars, 2);
    ghost var next := ids.next;
    var _ := b.Emit(Ret(Arg(0)));
    assert [] + Number([Ret(Arg(0))], next) == Number([Ret(Arg(0))], next);
  }

  // ---------- add1 ----------

  method Add1EntryBlock(f: Function, ids: Identities, vars: Globals) returns (len: Operand, cmp: Operand)
    requires f.blocks == [[], [], []]
    modifies f, ids
    ensures Add1().Ok() && [len, cmp] == Add1().EntryOuts(vars.Handles(), old(ids.next))
    ensures ids.next == Add1().Index(vars.Handles(), old(ids.next))
    ensures f.blocks == [Number(Add1().EntryCode(vars.Handles(), old(ids.next)), old(ids.next)), [], []]
  {
    hide AllOps, AllOuts, Ops, Number, Plan.Ok, Put, Plan.EntryCode;
    PlansAreOk();
    var b := new Builder(f, ids, vars, 0);
    len := b.ALen(Arg(0), Self);
    cmp := b.ICmp(Eq, Const(WORD, 0), len, Word(0), Res(0));
    assert b.calls == Add1().entry;
    ghost var c := b.Position();
    var _ := b.Emit(CondBr(cmp, 2, 1));
    EntryBuilt(Add1(), vars.Handles(), old(ids.next), b.start, c);
  }

  /** The new element, after the next index. */
  method Add1Element(b: Builder, ary: Operand, idx: Operand, nextIdx: Operand, len: Operand, cmp: Operand)
    returns (fix: Operand)
    requires b.Valid() && b.calls == [BinOf(Add, Word(1), Res(2))] && ary == Arg(0)
    requires b.outs == [len, cmp, idx, nextIdx]
    modifies b`calls, b`outs, b.f, b.ids
    ensures b.Valid() && b.calls == Add1().body[..5] && |b.outs| == 8 && b.outs[7] == fix
    ensures b.outs[0] == len && b.outs[2] == idx && b.outs[3] == nextIdx
  {
    hide AllOps, AllOuts, Ops, Number, Put, Builder.Valid, Add1;
    var elem := b.ARef(ary, idx, Self, Res(2));
    var v := b.Fix2Int(elem, Res(4));
    var v1 := b.BinOp(Add, Const(WORD, 1), v, Word(1), Res(5));
    fix := b.Num2Fix(v1, Res(6));
    Add1Body(Add1().body);
  }

  /** The rest of the loop block, after the next index. */
  method Add1Rest(b: Builder, ary: Operand, idx: Operand, nextIdx: Operand, len: Operand, cmp: Operand)
    returns (again: Operand)
    requires b.Valid() && b.calls == [BinOf(Add, Word(1), Res(2))] && ary == Arg(0)
    requires b.outs == [len, cmp, idx, nextIdx]
    modifies b`calls, b`outs, b.f, b.ids
    ensures b.Valid() && b.calls == Add1().body && |b.outs| == 10 && b.outs[3] == nextIdx && again == b.outs[9]
  {
    hide AllOps, AllOuts, Ops, Number, Put, Builder.Valid, Add1;
    var fix := Add1Element(b, ary, idx, nextIdx, len, cmp);
    b.ASet(ary, idx, fix, Self, Res(2), Res(7));
    again := b.ICmp(Ult, nextIdx, len, Res(3), Res(0));
    Add1Body(Add1().body);
  }

  method Add1LoopBlock(f: Function, ids: Identities, vars: Globals, len: Operand, cmp: Operand, ghost r: nat,
                       ghost e: Block)
    requires f.blocks == [e, [], []] && Add1().Ok() && ids.next == Add1().Index(vars.Handles(), r)
    requires [len, cmp] == Add1().EntryOuts(vars.Handles(), r)
    modifies f, ids
    ensures var r1, code := Add1().Index(vars.Handles(), r), Add1().LoopCode(vars.Handles(), r);
      f.blocks == [e, Number(code, r1), []] && ids.next == r1 + |code|
  {
    hide AllOps, AllOuts, Ops, Number, Plan.Ok, Put, Plan.EntryCode, Plan.LoopCode, Plan.EntryOuts, Plan.Index, Add1,
         IsAdd1Body;
    Add1Body(Add1().body);
    var b := new Builder(f, ids, vars, 1);
    var idx, nextIdx := BuildIndex(b, [len, cmp]);
    assert [len, cmp] + [idx] + [nextIdx] == [len, cmp, idx, nextIdx];
    var again := Add1Rest(b, Arg(0), idx, nextIdx, len, cmp);
    ghost var c, h := b.Position(), vars.Handles();
    assert LoopDone(Add1(), h, r, e, [len, cmp], nextIdx, b.start, b.outs, c);
    LoopFinished(Add1(), h, r, e, [len, cmp], nextIdx, b.start, b.outs, c);
    var _ := b.Emit(CondBr(again, 1, 2));
  }

  /** The script that builds add1. */
  method BuildAdd1(ids: Identities, vars: Globals) returns (f: Function)
    modifies ids
    ensures fresh(f) && Add1().Ok() && f.blocks == Add1().Blocks(vars.Handles(), old(ids.next))
  {
    hide Number, Plan.Ok, Plan.EntryCode, Plan.LoopCode, Plan.EntryOuts, Plan.Index, Plan.Blocks, Add1;
    ghost var r, h := ids.next, vars.Handles();
    f := ThreeBlocks();
    var len, cmp := Add1EntryBlock(f, ids, vars);
    Add1LoopBlock(f, ids, vars, len, cmp, r, Number(Add1().EntryCode(h, r), r));
    BuildExit(f, ids, vars, Add1(), h, r);
  }

  // ---------- reverse ----------

  method ReverseEntryCalls(b: Builder, ary: Operand) returns (len: Operand, half: Operand, last: Operand, cmp: Operand)
    requires b.Valid() && b.calls == [] && b.outs == [] && ary == Arg(0)
    modifies b`calls, b`outs, b.f, b.ids
    ensures b.Valid() && b.calls == Reverse().entry && b.outs == [len, half, last, cmp]
  {
    hide AllOps, AllOuts, Ops, Number, Put, Builder.Valid, Reverse;
    len := b.ALen(ary, Self);
    half := b.BinOp(UDiv, len, Const(WORD, 2), Res(0), Word(2));
    last := b.BinOp(Sub, len, Const(WORD, 1), Res(0), Word(1));
    cmp := b.ICmp(Eq, Const(WORD, 0), len, Word(0), Res(0));
    ReverseEntry(Reverse().entry);
  }

  method ReverseEntryBlock(f: Function, ids: Identities, vars: Globals)
    returns (len: Operand, half: Operand, last: Operand, cmp: Operand)
    requires f.blocks == [[], [], []]
    modifies f, ids
    ensures Reverse().Ok() && [len, half, last, cmp] == Reverse().EntryOuts(vars.Handles(), old(ids.next))
    ensures ids.next == Reverse().Index(vars.Handles(), old(ids.next))
    ensures f.blocks == [Number(Reverse().EntryCode(vars.Handles(), old(ids.next)), old(ids.next)), [], []]
  {
    hide AllOps, AllOuts, Ops, Number, Plan.Ok, Put, Plan.EntryCode, Reverse;
    PlansAreOk();
    var b := new Builder(f, ids, vars, 0);
    len, half, last, cmp := ReverseEntryCalls(b, Arg(0));
    ReverseEntry(Reverse().entry);
    ghost var c := b.Position();
    var _ := b.Emit(CondBr(cmp, 2, 1));
    EntryBuilt(Reverse(), vars.Handles(), old(ids.next), b.start, c);
  }

  /** The swap, after the next index. */
  method ReverseSwap(b: Builder, ary: Operand, idx: Operand, nextIdx: Operand, half: Operand, last: Operand)
    requires b.Valid() && b.calls == [BinOf(Add, Word(1), Res(4))] && ary == Arg(0)
    requires |b.outs| == 6 && b.outs[1] == half && b.outs[2] == last && b.outs[4] == idx && b.outs[5] == nextIdx
    modifies b`calls, b`outs, b.f, b.ids
    ensures b.Valid() && b.calls == Reverse().body[..6] && |b.outs| == 11 && b.outs[1] == half && b.outs[5] == nextIdx
  {
    hide AllOps, AllOuts, Ops, Number, Put, Builder.Valid, Reverse;
    var idxX := idx;
    var idxY := b.BinOp(Sub, last, idx, Res(2), Res(4));
    var x := b.ARef(ary, idxX, Self, Res(4));
    var y := b.ARef(ary, idxY, Self, Res(6));
    b.ASet(ary, idxX, y, Self, Res(4), Res(8));
    b.ASet(ary, idxY, x, Self, Res(6), Res(7));
    ReverseBody(Reverse().body);
  }

  /** The rest of the loop block, after the next index: the swap and the test. */
  method ReverseRest(b: Builder, ary: Operand, idx: Operand, nextIdx: Operand, half: Operand, last: Operand)
    returns (again: Operand)
    requires b.Valid() && b.calls == [BinOf(Add, Word(1), Res(4))] && ary == Arg(0)
    requires |b.outs| == 6 && b.outs[1] == half && b.outs[2] == last && b.outs[4] == idx && b.outs[5] == nextIdx
    modifies b`calls, b`outs, b.f, b.ids
    ensures b.Valid() && b.calls == Reverse().body && |b.outs| == 12 && b.outs[5] == nextIdx && again == b.outs[11]
  {
    hide AllOps, AllOuts, Ops, Number, Put, Builder.Valid, Reverse;
    ReverseSwap(b, ary, idx, nextIdx, half, last);
    again := b.ICmp(Ult, nextIdx, half, Res(5), Res(1));
    ReverseBody(Reverse().body);
  }

  method ReverseLoopBlock(f: Function, ids: Identities, vars: Globals, len: Operand, half: Operand, last: Operand,
                          cmp: Operand, ghost r: nat, ghost e: Block)
    requires f.blocks == [e, [], []] && Reverse().Ok() && ids.next == Reverse().Index(vars.Handles(), r)
    requires [len, half, last, cmp] == Reverse().EntryOuts(vars.Handles(), r)
    modifies f, ids
    ensures var r1, code := Reverse().Index(vars.Handles(), r), Reverse().LoopCode(vars.Handles(), r);
      f.blocks == [e, Number(code, r1), []] && ids.next == r1 + |code|
  {
    hide AllOps, AllOuts, Ops, Number, Plan.Ok, Put, Plan.EntryCode, Plan.LoopCode, Plan.EntryOuts, Plan.Index, Reverse,
         IsReverseBody;
    ReverseBody(Reverse().body);
    var b := new Builder(f, ids, vars, 1);
    var idx, nextIdx := BuildIndex(b, [len, half, last, cmp]);
    assert [len, half, last, cmp] + [idx] + [nextIdx] == [len, half, last, cmp, idx, nextIdx];
    var again := ReverseRest(b, Arg(0), idx, nextIdx, half, last);
    ghost var c, h := b.Position(), vars.Handles();
    assert LoopDone(Reverse(), h, r, e, [len, half, last, cmp], nextIdx, b.start, b.outs, c);
    LoopFinished(Reverse(), h, r, e, [len, half, last, cmp], nextIdx, b.start, b.outs, c);
    var _ := b.Emit(CondBr(again, 1, 2));
  }

  /** The script that builds reverse. */
  method BuildReverse(ids: Identities, vars: Globals) returns (f: Function)
    modifies ids
    ensures fresh(f) && Reverse().Ok() && f.blocks == Reverse().Blocks(vars.Handles(), old(ids.next))
  {
    hide Number, Plan.Ok, Plan.EntryCode, Plan.LoopCode, Plan.EntryOuts, Plan.Index, Plan.Blocks, Reverse;
    ghost var r, h := ids.next, vars.Handles();
    f := ThreeBlocks();
    var len, half, last, cmp := ReverseEntryBlock(f, ids, vars);
    ReverseLoopBlock(f, ids, vars, len, half, last, cmp, r, Number(Reverse().EntryCode(h, r), r));
    BuildExit(f, ids, vars, Reverse(), h, r);
  }
}
