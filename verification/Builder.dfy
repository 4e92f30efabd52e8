// The instruction builder: a movable insertion point, the primitive instructions, and the
// helpers for the operand stack and for Ruby values.

module Building {
  import opened Words
  import opened IR
  import opened StackMachine
  import opened Emission
  import opened Codegen

  /** Where a builder stands: the function so far, the block it appends to, the next identity. */
  datatype Cursor = Cursor(blocks: Func, point: nat, next: nat)

  /** Appending instructions at the insertion point. */
  function Put(c: Cursor, ops: seq<Op>): (c': Cursor)
    requires c.point < |c.blocks|
    ensures c'.point == c.point && |c'.blocks| == |c.blocks| && c'.next == c.next + |ops|
  {
    Cursor(c.blocks[c.point := c.blocks[c.point] + Number(ops, c.next)], c.point, c.next + |ops|)
  }

  lemma PutPut(c: Cursor, a: seq<Op>, b: seq<Op>)
    requires c.point < |c.blocks|
    ensures Put(Put(c, a), b) == Put(c, a + b)
  {
    NumberAppend(a, b, c.next);
    assert c.blocks[c.point] + Number(a, c.next) + Number(b, c.next + |a|) == c.blocks[c.point] + Number(a + b, c.next);
  }

  lemma PutNone(c: Cursor)
    requires c.point < |c.blocks|
    ensures Put(c, []) == c
  {
    assert c.blocks[c.point] + Number([], c.next) == c.blocks[c.point];
  }

  lemma PutTwo(c: Cursor, a: Op, b: Op)
    requires c.point < |c.blocks|
    ensures Put(Put(c, [a]), [b]) == Put(c, [a, b])
  {
    PutPut(c, [a], [b]);
    assert [a] + [b] == [a, b];
  }

  lemma PutThree(c: Cursor, a: Op, b: Op, d: Op)
    requires c.point < |c.blocks|
    ensures Put(Put(Put(c, [a]), [b]), [d]) == Put(c, [a, b, d])
  {
    PutPut(c, [a], [b]);
    PutPut(c, [a] + [b], [d]);
    assert [a] + [b] + [d] == [a, b, d];
  }

  lemma PutFour(c: Cursor, a: Op, b: Op, d: Op, e: Op)
    requires c.point < |c.blocks|
    ensures Put(Put(Put(Put(c, [a]), [b]), [d]), [e]) == Put(c, [a, b, d, e])
  {
    PutThree(c, a, b, d);
    PutPut(c, [a, b, d], [e]);
    assert [a, b, d] + [e] == [a, b, d, e];
  }

  lemma PutFive(c: Cursor, a: Op, b: Op, d: Op, e: Op, g: Op)
    requires c.point < |c.blocks|
    ensures Put(Put(Put(Put(Put(c, [a]), [b]), [d]), [e]), [g]) == Put(c, [a, b, d, e, g])
  {
    PutFour(c, a, b, d, e);
    PutPut(c, [a, b, d, e], [g]);
    assert [a, b, d, e] + [g] == [a, b, d, e, g];
  }

  /** One more call at the end of a list. */
  lemma {:induction false} AllOpsSnoc(h: Handles, r: nat, cs: seq<BCall>, k: nat, outs: seq<Operand>, c: BCall)
    requires k <= |cs|
    ensures var ops, res := AllOps(h, r, cs, k, outs), AllOuts(h, r, cs, k, outs);
      var last := Ops(h, r + |ops|, c, res);
      AllOps(h, r, cs + [c], k, outs) == ops + last
      && AllOuts(h, r, cs + [c], k, outs) == res + [Reg(r + |ops| + |last| - 1)]
    decreases |cs| - k
  {
    hide Ops;
    if k == |cs| {
      assert (cs + [c])[k] == c;
      var last := Ops(h, r, c, outs);
      assert AllOps(h, r + |last|, cs + [c], k + 1, outs + [Reg(r + |last| - 1)]) == [];
    } else {
      assert (cs + [c])[k] == cs[k];
      var ops := Ops(h, r, cs[k], outs);
      AllOpsSnoc(h, r + |ops|, cs, k + 1, outs + [Reg(r + |ops| - 1)], c);
    }
  }

  predicate IsPhi(blocks: Func, b: nat, k: nat) {
    b < |blocks| && k < |blocks[b]| && blocks[b][k].op.Phi?
  }

  /** One more edge for the phi at position k of block b. */
  function WithEdge(blocks: Func, b: nat, k: nat, val: Operand, from: nat): (blocks': Func)
    requires IsPhi(blocks, b, k)
    ensures |blocks'| == |blocks|
  {
    var i := blocks[b][k];
    blocks[b := blocks[b][k := Instr(i.id, Op.Phi(i.op.incoming + [(val, from)]))]]
  }

  /** For a phi of the current block. */
  function WithIncoming(c: Cursor, k: nat, val: Operand, from: nat): (c': Cursor)
    requires IsPhi(c.blocks, c.point, k)
    ensures c'.point == c.point && c'.next == c.next && |c'.blocks| == |c.blocks|
  {
    c.(blocks := WithEdge(c.blocks, c.point, k, val, from))
  }

  /** The edge can be added before or after other instructions. */
  lemma PutWithEdge(c: Cursor, ops: seq<Op>, b: nat, k: nat, val: Operand, from: nat)
    requires c.point < |c.blocks| && IsPhi(c.blocks, b, k)
    ensures IsPhi(Put(c, ops).blocks, b, k)
    ensures Put(c.(blocks := WithEdge(c.blocks, b, k, val, from)), ops).blocks
         == WithEdge(Put(c, ops).blocks, b, k, val, from)
  {
    var block, n := c.blocks[b], Number(ops, c.next);
    var i' := Instr(block[k].id, Op.Phi(block[k].op.incoming + [(val, from)]));
    if b == c.point {
      assert block[k := i'] + n == (block + n)[k := i'];
      assert (block + n)[k] == block[k];
    }
    hide Number;
    assert Put(c.(blocks := WithEdge(c.blocks, b, k, val, from)), ops).blocks
        == WithEdge(Put(c, ops).blocks, b, k, val, from);
  }

  lemma PhiPut(c: Cursor, inc: seq<(Operand, nat)>, val: Operand, from: nat)
    requires c.point < |c.blocks|
    ensures var c1, k := Put(c, [Op.Phi(inc)]), |c.blocks[c.point]|;
      k < |c1.blocks[c1.point]| && c1.blocks[c1.point][k].op.Phi?
      && WithIncoming(c1, k, val, from) == Put(c, [Op.Phi(inc + [(val, from)])])
  {
    var b, k := c.blocks[c.point], |c.blocks[c.point]|;
    var phi := Op.Phi(inc + [(val, from)]);
    assert (b + Number([Op.Phi(inc)], c.next))[k := Instr(c.next, phi)] == b + Number([phi], c.next);
  }

  /** A function under construction. */
  class Function {
    var blocks: Func

    constructor ()
      ensures blocks == []
    {
      blocks := [];
    }

    method CreateBlock() returns (b: nat)
      modifies this
      ensures b == |old(blocks)| && blocks == old(blocks) + [[]]
    {
      b := |blocks|;
      blocks := blocks + [[]];
    }
  }

  /** Gives every instruction its identity. */
  class Identities {
    var next: nat

    constructor (first: nat)
      ensures next == first
    {
      next := first;
    }
  }

  /** The class variables of Builder, shared by all builders and overwritten by each set_globals. */
  class Globals {
    var stack: Operand
    var stackPtr: Operand
    var locals: Operand

    constructor ()
    {
      stack, stackPtr, locals := MISSING, MISSING, MISSING;
    }

    function Handles(): Handles
      reads this
    {
      Emission.Handles(stack, stackPtr, locals)
    }
  }

  class Builder {
    const f: Function
    const ids: Identities
    const vars: Globals
    var point: nat

    // The helper calls made since Begin: where it stood, what results existed, the calls, all results.
    ghost var start: Cursor
    ghost var seed: seq<Operand>
    ghost var calls: seq<BCall>
    ghost var outs: seq<Operand>

    constructor (f: Function, ids: Identities, vars: Globals, block: nat)
      requires block < |f.blocks|
      ensures this.f == f && this.ids == ids && this.vars == vars && point == block
      ensures Valid() && calls == [] && start == Position() && outs == seed == []
    {
      this.f, this.ids, this.vars, this.point := f, ids, vars, block;
      start, seed, calls, outs := Cursor(f.blocks, block, ids.next), [], [], [];
      new;
      PutNone(start);
    }

    function Position(): Cursor
      reads this, f, ids
    {
      Cursor(f.blocks, point, ids.next)
    }

    ghost predicate Placed()
      reads this, f
    {
      point < |f.blocks|
    }

    /** The code since Begin is the code of the calls recorded since then. */
    ghost predicate Valid()
      reads this, f, ids, vars
    {
      Placed() && start.point < |start.blocks|
      && Position() == Put(start, AllOps(vars.Handles(), start.next, calls, 0, seed))
      && outs == AllOuts(vars.Handles(), start.next, calls, 0, seed)
    }

    /** Starts a new list of calls, given the results that exist so far. */
    ghost method Begin(existing: seq<Operand>)
      requires Placed()
      modifies this`start, this`seed, this`calls, this`outs
      ensures Valid() && calls == [] && start == Position() && outs == seed == existing
    {
      start, seed, calls, outs := Position(), existing, [], existing;
      PutNone(start);
    }

    /** The method has made this helper call, and nothing else. */
    twostate predicate Did(c: BCall)
      reads this, f, ids, vars
    {
      Valid() && calls == old(calls) + [c] && ids.next > 0 && outs == old(outs) + [Reg(ids.next - 1)]
    }

    /** Records a call whose instructions have just been emitted. */
    ghost method Record(c: BCall, before: Cursor)
      requires Placed() && start.point < |start.blocks| && before.point < |before.blocks|
      requires before == Put(start, AllOps(vars.Handles(), start.next, calls, 0, seed))
      requires outs == AllOuts(vars.Handles(), start.next, calls, 0, seed)
      requires Position() == Put(before, Ops(vars.Handles(), before.next, c, outs))
      modifies this`calls, this`outs
      ensures Did(c)
    {
      hide Ops, AllOps, AllOuts, Put, Number;
      AllOpsSnoc(vars.Handles(), start.next, calls, 0, seed, c);
      PutPut(start, AllOps(vars.Handles(), start.next, calls, 0, seed), Ops(vars.Handles(), before.next, c, outs));
      calls, outs := calls + [c], outs + [Reg(ids.next - 1)];
    }

    method SetInsertPoint(block: nat)
      requires block < |f.blocks|
      modifies this`point
      ensures point == block
    {
      point := block;
    }

    /** Appends one instruction; every primitive below is this one. */
    method Emit(op: Op) returns (v: Operand)
      requires Placed()
      modifies f, ids
      ensures Placed() && v == Reg(old(ids.next)) && Position() == Put(old(Position()), [op])
    {
      v := Reg(ids.next);
      assert Number([op], ids.next) == [Instr(ids.next, op)];
      f.blocks := f.blocks[point := f.blocks[point] + [Instr(ids.next, op)]];
      ids.next := ids.next + 1;
    }

    /** Allocates stack, stack pointer and locals, and leaves the handles in the class variables. */
    method SetGlobals()
      requires Placed()
      modifies vars, f, ids
      ensures Placed() && vars.Handles() == HandlesAt(old(ids.next))
      ensures Position() == Put(old(Position()), GlobalOps(old(ids.next)))
    {
      ghost var c := Position();
      vars.stack := Emit(Alloca(VALUE, CELLS));
      vars.stackPtr := Emit(Alloca(P_VALUE, 0));
      var _ := Emit(Op.Store(vars.stack, vars.stackPtr));
      vars.locals := Emit(Alloca(VALUE, CELLS));
      PutFour(c, Alloca(VALUE, CELLS), Alloca(P_VALUE, 0), Op.Store(vars.stack, vars.stackPtr), Alloca(VALUE, CELLS));
    }

    /** Creates a phi without incoming edges; it is instruction k of the current block. */
    method Phi() returns (v: Operand, k: nat)
      requires Placed()
      modifies f, ids
      ensures Placed() && v == Reg(old(ids.next)) && k == |old(f.blocks[point])|
      ensures Position() == Put(old(Position()), [Op.Phi([])])
    {
      k := |f.blocks[point]|;
      v := Emit(Op.Phi([]));
    }

    /**
     * Adds an edge to the phi at position k of a block, which may be any block of the function. When the phi was there
     * at Begin, the edge counts as one that it had then.
     */
    method AddIncoming(block: nat, k: nat, val: Operand, from: nat)
      requires IsPhi(f.blocks, block, k)
      modifies this`start, f
      ensures f.blocks == WithEdge(old(f.blocks), block, k, val, from)
      ensures old(Valid()) && IsPhi(old(start).blocks, block, k) ==>
                Valid() && start == old(start).(blocks := WithEdge(old(start).blocks, block, k, val, from))
    {
      ghost var known := Valid() && IsPhi(start.blocks, block, k);
      if known {
        PutWithEdge(start, AllOps(vars.Handles(), start.next, calls, 0, seed), block, k, val, from);
      }
      hide Put, AllOps, AllOuts, Number;
      var i := f.blocks[block][k];
      f.blocks := f.blocks[block := f.blocks[block][k := Instr(i.id, Op.Phi(i.op.incoming + [(val, from)]))]];
      if known {
        start := start.(blocks := WithEdge(start.blocks, block, k, val, from));
      }
    }

    // ---------- the operand stack ----------

    method Push(v: Operand, ghost a: Ref)
      requires Valid() && OperandOf(vars.Handles(), a, outs) == v
      modifies this`calls, this`outs, f, ids
      ensures Did(PushVal(a))
    {
      ghost var c := Position();
      var sp := Emit(Load(vars.stackPtr));
      var _ := Emit(Op.Store(v, sp));
      var newSp := Emit(Gep(sp, Const(WORD, 1)));
      var _ := Emit(Op.Store(newSp, vars.stackPtr));
      PutFour(c, Load(vars.stackPtr), Op.Store(v, sp), Gep(sp, Const(WORD, 1)), Op.Store(newSp, vars.stackPtr));
      Record(PushVal(a), c);
    }

    method Pop() returns (v: Operand)
      requires Valid()
      modifies this`calls, this`outs, f, ids
      ensures Did(PopVal) && v == outs[|old(outs)|]
    {
      ghost var c := Position();
      var sp := Emit(Load(vars.stackPtr));
      var newSp := Emit(Gep(sp, Const(WORD, -1)));
      var _ := Emit(Op.Store(newSp, vars.stackPtr));
      v := Emit(Load(newSp));
      PutFour(c, Load(vars.stackPtr), Gep(sp, Const(WORD, -1)), Op.Store(newSp, vars.stackPtr), Load(newSp));
      Record(PopVal, c);
    }

    method Peek(n: int) returns (v: Operand)
      requires Valid()
      modifies this`calls, this`outs, f, ids
      ensures Did(PeekVal(n)) && v == outs[|old(outs)|]
    {
      ghost var c := Position();
      var sp := Emit(Load(vars.stackPtr));
      var peekSp := Emit(Gep(sp, Const(WORD, -n)));
      v := Emit(Load(peekSp));
      PutThree(c, Load(vars.stackPtr), Gep(sp, Const(WORD, -n)), Load(peekSp));
      Record(PeekVal(n), c);
    }

    method TopN(n: Operand, ghost a: Ref) returns (v: Operand)
      requires Valid() && OperandOf(vars.Handles(), a, outs) == n
      modifies this`calls, this`outs, f, ids
      ensures Did(BCall.TopN(a)) && v == outs[|old(outs)|]
    {
      ghost var c := Position();
      var sp := Emit(Load(vars.stackPtr));
      var idx := Emit(Bin(Sub, Const(I32, -1), n));
      var topSp := Emit(Gep(sp, idx));
      v := Emit(Load(topSp));
      PutFour(c, Load(vars.stackPtr), Bin(Sub, Const(I32, -1), n), Gep(sp, idx), Load(topSp));
      Record(BCall.TopN(a), c);
    }

    // ---------- Ruby values ----------

    method Num2Fix(val: Operand, ghost a: Ref) returns (v: Operand)
      requires Valid() && OperandOf(vars.Handles(), a, outs) == val
      modifies this`calls, this`outs, f, ids
      ensures Did(BCall.Num2Fix(a)) && v == outs[|old(outs)|]
    {
      ghost var c := Position();
      var shifted := Emit(Bin(Shl, val, Const(WORD, 1)));
      v := Emit(Bin(Xor, FLAG, shifted));
      PutTwo(c, Bin(Shl, val, Const(WORD, 1)), Bin(Xor, FLAG, shifted));
      Record(BCall.Num2Fix(a), c);
    }

    method Fix2Int(val: Operand, ghost a: Ref) returns (v: Operand)
      requires Valid() && OperandOf(vars.Handles(), a, outs) == val
      modifies this`calls, this`outs, f, ids
      ensures Did(BCall.Fix2Int(a)) && v == outs[|old(outs)|]
    {
      ghost var c := Position();
      var _ := Emit(Bin(Xor, FLAG, val));
      v := Emit(Bin(LShr, val, Const(WORD, 1)));
      PutTwo(c, Bin(Xor, FLAG, val), Bin(LShr, val, Const(WORD, 1)));
      Record(BCall.Fix2Int(a), c);
    }

    method ALen(ary: Operand, ghost a: Ref) returns (v: Operand)
      requires Valid() && OperandOf(vars.Handles(), a, outs) == ary
      modifies this`calls, this`outs, f, ids
      ensures Did(BCall.ALen(a)) && v == outs[|old(outs)|]
    {
      ghost var c := Position();
      var valPtr := Emit(IntToPtr(ary));
      var lenPtr := Emit(StructGep(valPtr, 1));
      v := Emit(Load(lenPtr));
      PutThree(c, IntToPtr(ary), StructGep(valPtr, 1), Load(lenPtr));
      Record(BCall.ALen(a), c);
    }

    method ARef(ary: Operand, idx: Operand, ghost a: Ref, ghost i: Ref) returns (v: Operand)
      requires Valid() && OperandOf(vars.Handles(), a, outs) == ary && OperandOf(vars.Handles(), i, outs) == idx
      modifies this`calls, this`outs, f, ids
      ensures Did(BCall.ARef(a, i)) && v == outs[|old(outs)|]
    {
      hide Put, AllOps, AllOuts, Number, OperandOf;
      ghost var c := Position();
      var valPtr := Emit(IntToPtr(ary));
      var dataField := Emit(StructGep(valPtr, 3));
      var dataPtr := Emit(Load(dataField));
      var slot := Emit(Gep(dataPtr, idx));
      v := Emit(Load(slot));
      PutFive(c, IntToPtr(ary), StructGep(valPtr, 3), Load(dataField), Gep(dataPtr, idx), Load(slot));
      Record(BCall.ARef(a, i), c);
    }

    method ASet(ary: Operand, idx: Operand, val: Operand, ghost a: Ref, ghost i: Ref, ghost x: Ref)
      requires Valid() && OperandOf(vars.Handles(), a, outs) == ary && OperandOf(vars.Handles(), i, outs) == idx
      requires OperandOf(vars.Handles(), x, outs) == val
      modifies this`calls, this`outs, f, ids
      ensures Did(BCall.ASet(a, i, x))
    {
      hide Put, AllOps, AllOuts, Number, OperandOf;
      ghost var c := Position();
      var valPtr := Emit(IntToPtr(ary));
      var dataField := Emit(StructGep(valPtr, 3));
      var dataPtr := Emit(Load(dataField));
      var slot := Emit(Gep(dataPtr, idx));
      var _ := Emit(Op.Store(val, slot));
      PutFive(c, IntToPtr(ary), StructGep(valPtr, 3), Load(dataField), Gep(dataPtr, idx), Op.Store(val, slot));
      Record(BCall.ASet(a, i, x), c);
    }

    // ---------- single instructions ----------

    method BinOp(op: BinOp, x: Operand, y: Operand, ghost a: Ref, ghost b: Ref) returns (v: Operand)
      requires Valid() && OperandOf(vars.Handles(), a, outs) == x && OperandOf(vars.Handles(), b, outs) == y
      modifies this`calls, this`outs, f, ids
      ensures Did(BinOf(op, a, b)) && v == outs[|old(outs)|]
    {
      ghost var c := Position();
      v := Emit(Bin(op, x, y));
      Record(BinOf(op, a, b), c);
    }

    method ICmp(pred: Pred, x: Operand, y: Operand, ghost a: Ref, ghost b: Ref) returns (v: Operand)
      requires Valid() && OperandOf(vars.Handles(), a, outs) == x && OperandOf(vars.Handles(), b, outs) == y
      modifies this`calls, this`outs, f, ids
      ensures Did(IcmpOf(pred, a, b)) && v == outs[|old(outs)|]
    {
      ghost var c := Position();
      v := Emit(Icmp(pred, x, y));
      Record(IcmpOf(pred, a, b), c);
    }

    method ToLong(val: Operand, ghost a: Ref) returns (v: Operand)
      requires Valid() && OperandOf(vars.Handles(), a, outs) == val
      modifies this`calls, this`outs, f, ids
      ensures Did(BCall.ToLong(a)) && v == outs[|old(outs)|]
    {
      ghost var c := Position();
      v := Emit(IntCast(val, WORD, false));
      Record(BCall.ToLong(a), c);
    }

    method Call(callee: Callee, args: seq<Operand>, ghost refs: seq<Ref>) returns (v: Operand)
      requires Valid() && args == Operands(vars.Handles(), refs, outs)
      modifies this`calls, this`outs, f, ids
      ensures Did(Invoke(callee, refs)) && v == outs[|old(outs)|]
    {
      ghost var c := Position();
      v := Emit(Op.Call(callee, args));
      Record(Invoke(callee, refs), c);
    }
  }
}
