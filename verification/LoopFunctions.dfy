// Functions that walk over an array: an entry block that tests for an empty array, one loop block that
// starts with the phi of the index and ends with the test, and an exit block that returns the array.

module LoopFunctions {
  import opened Options
  import opened Words
  import opened IR
  import opened Machine
  import opened StackMachine
  import opened Emission
  import opened ValueCode

  /** No argument is the stack array, which these functions do not have. */
  predicate NoBase(c: BCall) {
    match c
    case Fix2Int(v) => !v.StackBase?
    case Num2Fix(v) => !v.StackBase?
    case BinOf(_, x, y) => !x.StackBase? && !y.StackBase?
    case IcmpOf(_, x, y) => !x.StackBase? && !y.StackBase?
    case ToLong(v) => !v.StackBase?
    case ALen(a) => !a.StackBase?
    case ARef(a, i) => !a.StackBase? && !i.StackBase?
    case ASet(a, i, v) => !a.StackBase? && !i.StackBase? && !v.StackBase?
    case _ => false
  }

  predicate ValueCalls(cs: seq<BCall>) {
    forall k :: 0 <= k < |cs| ==> NoBase(cs[k])
  }

  /** The meaning of a list of calls: the results of all of them, and the world. */
  function RunValues(env: Env, cs: seq<BCall>, k: nat, vals: seq<Val>, w: World): (r: Option<(seq<Val>, World)>)
    requires k <= |cs|
    ensures r.Some? ==> |r.value.0| == |vals| + |cs| - k
    decreases |cs| - k
  {
    if k == |cs| then Some((vals, w))
    else
      var r := ValueSem(env, cs[k], vals, w);
      if r.None? then None else RunValues(env, cs, k + 1, vals + [r.value.0], r.value.1)
  }

  lemma RefsAreHeld(env: Env, h: Handles, c: BCall, outs: seq<Operand>, vals: seq<Val>, r: nat, st: State)
    requires NoBase(c) && OutsHeld(env, outs, vals, st.regs, r)
    ensures RefsHeld(env, h, c, outs, vals, r, st)
  {
    forall a: Ref | !a.StackBase? ensures RefHeld(env, h, a, outs, vals, r, st) {
    }
    hide RefHeld, OutsHeld;
  }

  /** Code for a list of calls ended as the list's meaning says, with the results in the registers outs. */
  predicate YieldsAll(env: Env, res: Result, st: State, r: nat, r': nat, outs: seq<Operand>,
                      want: Option<(seq<Val>, World)>) {
    if want.None? then res.Stuck?
    else res.Fell? && res.st.mem == st.mem && res.st.world == want.value.1 && Keeps(st, res.st, r)
         && OutsHeld(env, outs, want.value.0, res.st.regs, r')
  }

  /** The code of one call, followed by that of others. */
  lemma {:induction false} FirstValue(env: Env, h: Handles, r: nat, c: BCall, outs: seq<Operand>, vals: seq<Val>,
                                      prev: nat, st: State)
    requires NoBase(c) && OutsHeld(env, outs, vals, st.regs, r)
    ensures var ops, sem := Ops(h, r, c, outs), ValueSem(env, c, vals, st.world);
      var res := Exec(env, Number(ops, r), 0, prev, st);
      if sem.None? then res.Stuck?
      else res.Fell? && res.st.mem == st.mem && res.st.world == sem.value.1 && Keeps(st, res.st, r)
           && OutsHeld(env, outs + [Reg(r + |ops| - 1)], vals + [sem.value.0], res.st.regs, r + |ops|)
  {
    assert !IsMemoryCall(c) && |outs| == |vals|;
    RefsAreHeld(env, h, c, outs, vals, r, st);
    ValueCallRuns(env, h, r, c, outs, vals, prev, st);
    hide Exec, Ops, Number, ValueSem, OutsHeld, Keeps, RefsHeld;
    var ops, sem := Ops(h, r, c, outs), ValueSem(env, c, vals, st.world);
    if sem.Some? {
      var res := Exec(env, Number(ops, r), 0, prev, st);
      OutsKept(env, outs, vals, st, res.st, r, r + |ops|, r + |ops| - 1, sem.value.0);
    }
  }

  lemma UnfoldValues(env: Env, h: Handles, r: nat, cs: seq<BCall>, k: nat, outs: seq<Operand>, vals: seq<Val>, w: World)
    requires k < |cs| && ValueCalls(cs)
    ensures NoBase(cs[k])
    ensures var ops := Ops(h, r, cs[k], outs);
      AllOps(h, r, cs, k, outs) == ops + AllOps(h, r + |ops|, cs, k + 1, outs + [Reg(r + |ops| - 1)])
      && AllOuts(h, r, cs, k, outs) == AllOuts(h, r + |ops|, cs, k + 1, outs + [Reg(r + |ops| - 1)])
    ensures var sem := ValueSem(env, cs[k], vals, w);
      RunValues(env, cs, k, vals, w)
        == if sem.None? then None else RunValues(env, cs, k + 1, vals + [sem.value.0], sem.value.1)
  {
    hide Ops, ValueSem, NoBase;
  }

  lemma KeepsOn(st: State, st1: State, st2: State, r: nat, r1: nat)
    requires Keeps(st, st1, r) && Keeps(st1, st2, r1) && r <= r1
    ensures Keeps(st, st2, r)
  {
  }

  lemma {:induction false} JoinValues(env: Env, r: nat, ops: seq<Op>, rest: seq<Op>, prev: nat, st: State, r': nat,
                                      outs: seq<Operand>, want: Option<(seq<Val>, World)>)
    requires var res := Exec(env, Number(ops, r), 0, prev, st);
      res.Fell? && res.st.mem == st.mem && Keeps(st, res.st, r)
      && YieldsAll(env, Exec(env, Number(rest, r + |ops|), 0, prev, res.st), res.st, r + |ops|, r', outs, want)
    ensures YieldsAll(env, Exec(env, Number(ops + rest, r), 0, prev, st), st, r, r', outs, want)
  {
    hide Exec, Number, OutsHeld;
    NumberAppend(ops, rest, r);
    ExecAppend(env, Number(ops, r), Number(rest, r + |ops|), prev, st);
  }

  lemma {:induction false} StuckFirst(env: Env, r: nat, ops: seq<Op>, rest: seq<Op>, prev: nat, st: State, r': nat,
                                      outs: seq<Operand>)
    requires Exec(env, Number(ops, r), 0, prev, st).Stuck?
    ensures YieldsAll(env, Exec(env, Number(ops + rest, r), 0, prev, st), st, r, r', outs, None)
  {
    hide Exec, Number;
    NumberAppend(ops, rest, r);
    ExecAppend(env, Number(ops, r), Number(rest, r + |ops|), prev, st);
  }

  lemma {:induction false} NoValues(env: Env, h: Handles, r: nat, cs: seq<BCall>, outs: seq<Operand>, vals: seq<Val>,
                                    prev: nat, st: State)
    requires OutsHeld(env, outs, vals, st.regs, r)
    ensures AllOps(h, r, cs, |cs|, outs) == []
    ensures YieldsAll(env, Exec(env, Number([], r), 0, prev, st), st, r, r, AllOuts(h, r, cs, |cs|, outs),
                      RunValues(env, cs, |cs|, vals, st.world))
  {
    ExecEnd(env, [], prev, st);
  }

  /** The code of a list of calls does what the list means. */
  lemma {:induction false} ValuesRun(env: Env, h: Handles, r: nat, cs: seq<BCall>, k: nat, outs: seq<Operand>,
                                     vals: seq<Val>, prev: nat, st: State)
    requires ValueCalls(cs) && k <= |cs| && OutsHeld(env, outs, vals, st.regs, r)
    ensures var ops := AllOps(h, r, cs, k, outs);
      YieldsAll(env, Exec(env, Number(ops, r), 0, prev, st), st, r, r + |ops|, AllOuts(h, r, cs, k, outs),
                RunValues(env, cs, k, vals, st.world))
    decreases |cs| - k
  {
    hide *;
    if k == |cs| {
      NoValues(env, h, r, cs, outs, vals, prev, st);
    } else {
      UnfoldValues(env, h, r, cs, k, outs, vals, st.world);
      FirstValue(env, h, r, cs[k], outs, vals, prev, st);
      var ops := Ops(h, r, cs[k], outs);
      var r1, outs1 := r + |ops|, outs + [Reg(r + |ops| - 1)];
      var rest := AllOps(h, r1, cs, k + 1, outs1);
      var outs2 := AllOuts(h, r, cs, k, outs);
      var res := Exec(env, Number(ops, r), 0, prev, st);
      var sem := ValueSem(env, cs[k], vals, st.world);
      if sem.Some? {
        ValuesRun(env, h, r1, cs, k + 1, outs1, vals + [sem.value.0], prev, res.st);
        JoinValues(env, r, ops, rest, prev, st, r1 + |rest|, outs2, RunValues(env, cs, k, vals, st.world));
      } else {
        StuckFirst(env, r, ops, rest, prev, st, r1 + |rest|, outs2);
      }
    }
  }

  // ---------- the function ----------

  /**
   * The calls of the entry block, of which the last asks whether to skip the loop; the calls of the loop block,
   * which can use the results of the entry and then the index, and of which the last asks whether to go on; and
   * which result is the next index.
   */
  datatype Plan = Plan(entry: seq<BCall>, body: seq<BCall>, next: nat) {
    predicate Ok() {
      entry != [] && body != [] && ValueCalls(entry) && ValueCalls(body)
      && |entry| < next < |entry| + 1 + |body|
    }

    function EntryOuts(h: Handles, r: nat): (outs: seq<Operand>)
      ensures |outs| == |entry|
    {
      AllOuts(h, r, entry, 0, [])
    }

    function EntryCode(h: Handles, r: nat): seq<Op>
      requires Ok()
    {
      AllOps(h, r, entry, 0, []) + [CondBr(EntryOuts(h, r)[|entry| - 1], 2, 1)]
    }

    /** The register of the phi, which is the first instruction after the entry. */
    function Index(h: Handles, r: nat): nat
      requires Ok()
    {
      r + |EntryCode(h, r)|
    }

    function BodyOps(h: Handles, r: nat): seq<Op>
      requires Ok()
    {
      AllOps(h, Index(h, r) + 1, body, 0, EntryOuts(h, r) + [Reg(Index(h, r))])
    }

    function BodyOuts(h: Handles, r: nat): (outs: seq<Operand>)
      requires Ok()
      ensures |outs| == |entry| + 1 + |body|
    {
      AllOuts(h, Index(h, r) + 1, body, 0, EntryOuts(h, r) + [Reg(Index(h, r))])
    }

    function IndexPhi(h: Handles, r: nat): Op
      requires Ok()
    {
      Op.Phi([(Const(WORD, 0), 0), (BodyOuts(h, r)[next], 1)])
    }

    function LoopCode(h: Handles, r: nat): seq<Op>
      requires Ok()
    {
      [IndexPhi(h, r)] + (BodyOps(h, r) + [CondBr(BodyOuts(h, r)[|entry| + |body|], 1, 2)])
    }

    function Blocks(h: Handles, r: nat): (f: Func)
      requires Ok()
      ensures |f| == 3
    {
      var r1 := Index(h, r);
      [Number(EntryCode(h, r), r), Number(LoopCode(h, r), r1), Number([Ret(Arg(0))], r1 + |LoopCode(h, r)|)]
    }
  }

  // ---------- running it ----------

  lemma CodeThenBranch(env: Env, ops: seq<Op>, r: nat, outs: seq<Operand>, vals: seq<Val>, w: World,
                       yes: nat, no: nat, prev: nat, st: State, b: bool) returns (st': State)
    requires YieldsAll(env, Exec(env, Number(ops, r), 0, prev, st), st, r, r + |ops|, outs, Some((vals, w)))
    requires vals != [] && vals[|vals| - 1] == Truth(b)
    ensures |outs| == |vals|
    ensures Exec(env, Number(ops + [CondBr(outs[|outs| - 1], yes, no)], r), 0, prev, st)
         == Jumped(if b then yes else no, st')
    ensures st'.mem == st.mem && st'.world == w && Keeps(st, st', r) && OutsHeld(env, outs, vals, st'.regs, r + |ops|)
  {
    hide Exec, Keeps, Truth, Number, Step;
    st' := Exec(env, Number(ops, r), 0, prev, st).st;
    var c := outs[|outs| - 1];
    NumberAppend(ops, [CondBr(c, yes, no)], r);
    ExecAppend(env, Number(ops, r), Number([CondBr(c, yes, no)], r + |ops|), prev, st);
    ExecTerminator(env, CondBr(c, yes, no), r + |ops|, prev, st');
    BranchOn(env, c, yes, no, r + |ops|, prev, st', b);
  }

  /** Calls and a branch on the last result. */
  lemma CallsThenBranch(env: Env, h: Handles, r: nat, cs: seq<BCall>, outs: seq<Operand>, vals: seq<Val>,
                        vals': seq<Val>, w': World, yes: nat, no: nat, prev: nat, st: State, b: bool)
    returns (st': State)
    requires ValueCalls(cs) && OutsHeld(env, outs, vals, st.regs, r)
    requires RunValues(env, cs, 0, vals, st.world) == Some((vals', w')) && vals' != [] && vals'[|vals'| - 1] == Truth(b)
    ensures var ops, outs' := AllOps(h, r, cs, 0, outs), AllOuts(h, r, cs, 0, outs);
      |outs'| == |vals'|
      && Exec(env, Number(ops + [CondBr(outs'[|outs'| - 1], yes, no)], r), 0, prev, st)
         == Jumped(if b then yes else no, st')
      && st'.mem == st.mem && st'.world == w' && Keeps(st, st', r) && OutsHeld(env, outs', vals', st'.regs, r + |ops|)
  {
    hide *;
    ValuesRun(env, h, r, cs, 0, outs, vals, prev, st);
    st' := CodeThenBranch(env, AllOps(h, r, cs, 0, outs), r, AllOuts(h, r, cs, 0, outs), vals', w', yes, no, prev, st,
                          b);
  }

  /** What the entry computes. */
  function Enter(env: Env, p: Plan, w: World): (r: Option<(seq<Val>, World)>)
    ensures r.Some? ==> |r.value.0| == |p.entry|
  {
    RunValues(env, p.entry, 0, [], w)
  }

  /** What one turn computes. */
  function Turn(env: Env, p: Plan, vals: seq<Val>, idx: int, w: World): (r: Option<(seq<Val>, World)>)
    ensures r.Some? ==> |r.value.0| == |vals| + 1 + |p.body|
  {
    RunValues(env, p.body, 0, vals + [WordVal(idx)], w)
  }

  /** The entry finds vals and leaves the world alone. */
  predicate EnterGives(env: Env, p: Plan, w: World, vals: seq<Val>, skip: bool) {
    p.Ok() && Enter(env, p, w) == Some((vals, w)) && |vals| == |p.entry| && vals[|vals| - 1] == Truth(skip)
  }

  /** The turn at idx takes world w to w', and then the loop goes on or not. */
  predicate TurnGives(env: Env, p: Plan, vals: seq<Val>, idx: int, w: World, w': World, again: bool) {
    p.Ok() && |vals| == |p.entry|
    && var r := Turn(env, p, vals, idx, w);
       r.Some? && r.value.1 == w' && r.value.0[p.next] == WordVal(idx + 1)
       && r.value.0[|p.entry| + |p.body|] == Truth(again)
  }

  lemma {:induction false} TurnIs(env: Env, p: Plan, vals: seq<Val>, idx: int, w: World, vals': seq<Val>, w': World,
                                  again: bool)
    requires p.Ok() && |vals| == |p.entry| && RunValues(env, p.body, 0, vals + [WordVal(idx)], w) == Some((vals', w'))
    requires |vals'| == |p.entry| + 1 + |p.body| && p.next < |vals'|
    requires vals'[p.next] == WordVal(idx + 1) && vals'[|p.entry| + |p.body|] == Truth(again)
    ensures TurnGives(env, p, vals, idx, w, w', again)
  {
    hide RunValues, WordVal, Truth;
  }

  lemma EntryRuns(env: Env, p: Plan, h: Handles, r: nat, w: World, vals: seq<Val>, skip: bool) returns (st': State)
    requires EnterGives(env, p, w, vals, skip)
    ensures Run(env, p.Blocks(h, r), Start(w), 1) == At(if skip then 2 else 1, 0, st')
    ensures st'.world == w && OutsHeld(env, p.EntryOuts(h, r), vals, st'.regs, p.Index(h, r))
  {
    var st := State(map[], [], w);
    hide AllOps, AllOuts, RunValues, Exec, Run, Number, ValueCalls, Truth;
    assert OutsHeld(env, [], [], st.regs, r);
    st' := CallsThenBranch(env, h, r, p.entry, [], [], vals, w, 2, 1, 0, st, skip);
    RunJump(env, p.Blocks(h, r), 0, Number(p.EntryCode(h, r), r), 0, st, if skip then 2 else 1, st');
    assert |p.EntryCode(h, r)| == |AllOps(h, r, p.entry, 0, [])| + 1;
    hide *;
    HeldHigher(env, p.EntryOuts(h, r), vals, st'.regs, r + |AllOps(h, r, p.entry, 0, [])|, p.Index(h, r));
  }

  lemma HeldHigher(env: Env, outs: seq<Operand>, vals: seq<Val>, regs: map<nat, Val>, r: nat, r': nat)
    requires OutsHeld(env, outs, vals, regs, r) && r <= r'
    ensures OutsHeld(env, outs, vals, regs, r')
  {
  }

  /** The index with which control enters the loop block: 0 from the entry, the next index from the block itself. */
  predicate Enters(env: Env, p: Plan, h: Handles, r: nat, idx: int, prev: nat, st: State)
    requires p.Ok()
  {
    (prev == 0 && idx == 0) || (prev == 1 && Eval(env, p.BodyOuts(h, r)[p.next], st.regs) == Some(WordVal(idx)))
  }

  lemma PhiRuns(env: Env, p: Plan, h: Handles, r: nat, idx: int, prev: nat, st: State) returns (st': State)
    requires p.Ok() && Enters(env, p, h, r, idx, prev, st)
    ensures var r1 := p.Index(h, r);
      Exec(env, Number([p.IndexPhi(h, r)], r1), 0, prev, st) == Fell(st')
      && st' == st.(regs := st.regs[r1 := WordVal(idx)])
  {
    var r1, o := p.Index(h, r), p.BodyOuts(h, r)[p.next];
    var code := Number([p.IndexPhi(h, r)], r1);
    var inc := [(Const(WORD, 0), 0), (o, 1)];
    hide Plan.BodyOuts, Plan.Index, Plan.Ok;
    assert code[0] == Instr(r1, Op.Phi(inc));
    assert inc[1..] == [(o, 1)];
    assert Incoming(inc[1..], prev) == if prev == 1 then Some(o) else None;
    st' := st.(regs := st.regs[r1 := WordVal(idx)]);
    assert Step(env, code[0], prev, st) == Fell(st');
    ExecEnd(env, code, prev, st');
  }

  lemma IndexHeld(env: Env, outs: seq<Operand>, vals: seq<Val>, st: State, r1: nat, v: Val)
    requires OutsHeld(env, outs, vals, st.regs, r1)
    ensures var regs := st.regs[r1 := v]; OutsHeld(env, outs + [Reg(r1)], vals + [v], regs, r1 + 1)
    ensures Keeps(st, st.(regs := st.regs[r1 := v]), r1)
  {
  }

  lemma OutsStay(env: Env, outs: seq<Operand>, vals: seq<Val>, st: State, st': State, r: nat)
    requires OutsHeld(env, outs, vals, st.regs, r) && Keeps(st, st', r)
    ensures OutsHeld(env, outs, vals, st'.regs, r)
  {
  }

  lemma OutHeld(env: Env, outs: seq<Operand>, vals: seq<Val>, regs: map<nat, Val>, r: nat, k: nat)
    requires OutsHeld(env, outs, vals, regs, r) && k < |vals|
    ensures |outs| == |vals| && Eval(env, outs[k], regs) == Some(vals[k])
  {
  }

  lemma TurnParts(env: Env, p: Plan, h: Handles, r: nat, vals: seq<Val>, idx: int, w: World, w': World, again: bool)
    returns (vals': seq<Val>)
    requires TurnGives(env, p, vals, idx, w, w', again)
    ensures p.Ok() && ValueCalls(p.body) && p.next < |vals'| == |p.entry| + 1 + |p.body|
    ensures RunValues(env, p.body, 0, vals + [WordVal(idx)], w) == Some((vals', w'))
    ensures vals'[p.next] == WordVal(idx + 1) && vals'[|vals'| - 1] == Truth(again)
    ensures var outs := p.EntryOuts(h, r) + [Reg(p.Index(h, r))];
      p.BodyOuts(h, r) == AllOuts(h, p.Index(h, r) + 1, p.body, 0, outs)
      && p.BodyOps(h, r) == AllOps(h, p.Index(h, r) + 1, p.body, 0, outs)
  {
    hide RunValues, ValueCalls, AllOps, AllOuts, Plan.Index, Plan.EntryOuts, WordVal, Truth;
    vals' := Turn(env, p, vals, idx, w).value.0;
  }

  lemma BodyRuns(env: Env, p: Plan, h: Handles, r: nat, vals: seq<Val>, idx: int, w': World, again: bool, prev: nat,
                 st: State)
    returns (st': State)
    requires TurnGives(env, p, vals, idx, st.world, w', again)
    requires OutsHeld(env, p.EntryOuts(h, r) + [Reg(p.Index(h, r))], vals + [WordVal(idx)], st.regs, p.Index(h, r) + 1)
    ensures Exec(env,
                 Number(p.BodyOps(h, r) + [CondBr(p.BodyOuts(h, r)[|p.entry| + |p.body|], 1, 2)], p.Index(h, r) + 1),
                 0, prev, st)
         == Jumped(if again then 1 else 2, st')
    ensures st'.world == w' && Keeps(st, st', p.Index(h, r) + 1)
    ensures Eval(env, p.BodyOuts(h, r)[p.next], st'.regs) == Some(WordVal(idx + 1))
  {
    hide *;
    var vals' := TurnParts(env, p, h, r, vals, idx, st.world, w', again);
    var r1, outs := p.Index(h, r) + 1, p.EntryOuts(h, r) + [Reg(p.Index(h, r))];
    st' := CallsThenBranch(env, h, r1, p.body, outs, vals + [WordVal(idx)], vals', w', 1, 2, prev, st, again);
    OutHeld(env, p.BodyOuts(h, r), vals', st'.regs, r1 + |p.BodyOps(h, r)|, p.next);
  }

  lemma {:induction false} ExecGoesOn(env: Env, a: Block, b: Block, prev: nat, st: State, st1: State)
    requires Exec(env, a, 0, prev, st) == Fell(st1)
    ensures Exec(env, a + b, 0, prev, st) == Exec(env, b, 0, prev, st1)
  {
    hide Exec;
    ExecAppend(env, a, b, prev, st);
  }

  lemma TurnIsOk(env: Env, p: Plan, vals: seq<Val>, idx: int, w: World, w': World, again: bool)
    requires TurnGives(env, p, vals, idx, w, w', again)
    ensures p.Ok()
  {
  }

  lemma LoopBlock(p: Plan, h: Handles, r: nat)
    requires p.Ok()
    ensures p.next < |p.BodyOuts(h, r)| && |p.entry| + |p.body| < |p.BodyOuts(h, r)|
    ensures p.LoopCode(h, r)
         == [p.IndexPhi(h, r)] + (p.BodyOps(h, r) + [CondBr(p.BodyOuts(h, r)[|p.entry| + |p.body|], 1, 2)])
    ensures |p.Blocks(h, r)| == 3 && p.Blocks(h, r)[1] == Number(p.LoopCode(h, r), p.Index(h, r))
  {
    hide Plan.BodyOps, Plan.IndexPhi, Plan.Index, Number, AllOps, AllOuts;
  }

  lemma EntersFromLoop(env: Env, p: Plan, h: Handles, r: nat, idx: int, st: State)
    requires p.Ok() && Eval(env, p.BodyOuts(h, r)[p.next], st.regs) == Some(WordVal(idx))
    ensures Enters(env, p, h, r, idx, 1, st)
  {
    hide Plan.BodyOuts, Plan.Ok, WordVal;
  }

  /** One run of the loop block. */
  lemma TurnRuns(env: Env, p: Plan, h: Handles, r: nat, vals: seq<Val>, idx: int, w': World, again: bool, prev: nat,
                 st: State)
    returns (st': State)
    requires TurnGives(env, p, vals, idx, st.world, w', again) && Enters(env, p, h, r, idx, prev, st)
    requires OutsHeld(env, p.EntryOuts(h, r), vals, st.regs, p.Index(h, r))
    ensures Run(env, p.Blocks(h, r), At(1, prev, st), 1) == At(if again then 1 else 2, 1, st')
    ensures st'.world == w' && OutsHeld(env, p.EntryOuts(h, r), vals, st'.regs, p.Index(h, r))
    ensures Enters(env, p, h, r, idx + 1, 1, st')
  {
    hide *;
    TurnIsOk(env, p, vals, idx, st.world, w', again);
    LoopBlock(p, h, r);
    var r1 := p.Index(h, r);
    var rest := p.BodyOps(h, r) + [CondBr(p.BodyOuts(h, r)[|p.entry| + |p.body|], 1, 2)];
    var st1 := PhiRuns(env, p, h, r, idx, prev, st);
    IndexHeld(env, p.EntryOuts(h, r), vals, st, r1, WordVal(idx));
    st' := BodyRuns(env, p, h, r, vals, idx, w', again, prev, st1);
    NumberAppend([p.IndexPhi(h, r)], rest, r1);
    ExecGoesOn(env, Number([p.IndexPhi(h, r)], r1), Number(rest, r1 + 1), prev, st, st1);
    RunJump(env, p.Blocks(h, r), 1, Number(p.LoopCode(h, r), r1), prev, st, if again then 1 else 2, st');
    KeepsOn(st, st1, st', r1, r1 + 1);
    OutsStay(env, p.EntryOuts(h, r), vals, st, st', r1);
    EntersFromLoop(env, p, h, r, idx + 1, st');
  }

  /** A whole loop: turn i takes world i to world i + 1, and all but the last go on. */
  predicate Turns(env: Env, p: Plan, vals: seq<Val>, idx: int, ws: seq<World>) {
    |ws| >= 2 && forall i :: 0 <= i < |ws| - 1 ==> TurnGives(env, p, vals, idx + i, ws[i], ws[i + 1], i + 2 < |ws|)
  }

  lemma TurnsSplit(env: Env, p: Plan, vals: seq<Val>, idx: int, ws: seq<World>)
    requires Turns(env, p, vals, idx, ws)
    ensures TurnGives(env, p, vals, idx, ws[0], ws[1], |ws| > 2)
    ensures |ws| > 2 ==> Turns(env, p, vals, idx + 1, ws[1..])
  {
    hide TurnGives;
    assert TurnGives(env, p, vals, idx + 0, ws[0], ws[0 + 1], 0 + 2 < |ws|);
    forall i | 0 <= i < |ws[1..]| - 1
      ensures TurnGives(env, p, vals, idx + 1 + i, ws[1..][i], ws[1..][i + 1], i + 2 < |ws[1..]|)
    {
      assert TurnGives(env, p, vals, idx + (i + 1), ws[i + 1], ws[i + 1 + 1], (i + 1) + 2 < |ws|);
    }
  }

  lemma {:induction false} LoopRuns(env: Env, p: Plan, h: Handles, r: nat, vals: seq<Val>, idx: int, ws: seq<World>,
                                    prev: nat, st: State) returns (st': State)
    requires Turns(env, p, vals, idx, ws) && st.world == ws[0] && p.Ok() && Enters(env, p, h, r, idx, prev, st)
    requires OutsHeld(env, p.EntryOuts(h, r), vals, st.regs, p.Index(h, r))
    ensures Run(env, p.Blocks(h, r), At(1, prev, st), |ws| - 1) == At(2, 1, st') && st'.world == ws[|ws| - 1]
    decreases |ws|
  {
    TurnsSplit(env, p, vals, idx, ws);
    hide Run, Turns, TurnGives, Plan.Blocks, OutsHeld, Plan.Index, Plan.EntryOuts, Plan.Ok, Enters;
    var st1 := TurnRuns(env, p, h, r, vals, idx, ws[1], |ws| > 2, prev, st);
    st' := st1;
    if |ws| > 2 {
      st' := LoopRuns(env, p, h, r, vals, idx + 1, ws[1..], 1, st1);
      RunSplit(env, p.Blocks(h, r), At(1, prev, st), 1, |ws| - 2);
    }
  }

  /** Where a loop is after k turns, if that is not all of them. */
  lemma {:induction false} LoopAfter(env: Env, p: Plan, h: Handles, r: nat, vals: seq<Val>, idx: int, ws: seq<World>,
                                     prev: nat, st: State, k: nat) returns (prev': nat, st': State)
    requires Turns(env, p, vals, idx, ws) && st.world == ws[0] && p.Ok() && Enters(env, p, h, r, idx, prev, st)
    requires OutsHeld(env, p.EntryOuts(h, r), vals, st.regs, p.Index(h, r)) && k < |ws| - 1
    ensures Run(env, p.Blocks(h, r), At(1, prev, st), k) == At(1, prev', st') && st'.world == ws[k]
    decreases k
  {
    TurnsSplit(env, p, vals, idx, ws);
    hide Turns, TurnGives, Plan.Blocks, OutsHeld, Plan.Index, Plan.EntryOuts, Plan.Ok, Enters, StepBlock;
    prev', st' := prev, st;
    if k > 0 {
      var st1 := TurnRuns(env, p, h, r, vals, idx, ws[1], true, prev, st);
      prev', st' := LoopAfter(env, p, h, r, vals, idx + 1, ws[1..], 1, st1, k - 1);
      hide Run;
      RunSplit(env, p.Blocks(h, r), At(1, prev, st), 1, k - 1);
    }
  }

  lemma {:induction false} ExitRuns(env: Env, p: Plan, h: Handles, r: nat, prev: nat, st: State)
    requires p.Ok()
    ensures Run(env, p.Blocks(h, r), At(2, prev, st), 1) == Done(env.self, st)
  {
    var r2 := p.Index(h, r) + |p.LoopCode(h, r)|;
    ExecTerminator(env, Ret(Arg(0)), r2, prev, st);
    hide Exec, Number, Plan.Index, Plan.LoopCode, Run;
    RunOne(env, p.Blocks(h, r), 2, Number([Ret(Arg(0))], r2), prev, st);
  }

  /** An array to skip: nothing happens. */
  lemma SkipRuns(env: Env, p: Plan, h: Handles, r: nat, w: World, vals: seq<Val>) returns (st': State)
    requires EnterGives(env, p, w, vals, true)
    ensures p.Ok() && Run(env, p.Blocks(h, r), Start(w), 2) == Done(env.self, st') && st'.world == w
  {
    hide Run, Plan.Blocks, Plan.Ok;
    st' := EntryRuns(env, p, h, r, w, vals, true);
    RunSplit(env, p.Blocks(h, r), Start(w), 1, 1);
    ExitRuns(env, p, h, r, 0, st');
  }

  /** The entry, one turn for every two neighbours in ws, and the exit: the loop ends, and the array is returned. */
  lemma PlanRuns(env: Env, p: Plan, h: Handles, r: nat, w: World, vals: seq<Val>, ws: seq<World>) returns (st': State)
    requires EnterGives(env, p, w, vals, false) && Turns(env, p, vals, 0, ws) && ws[0] == w
    ensures p.Ok() && Run(env, p.Blocks(h, r), Start(w), 1 + (|ws| - 1) + 1) == Done(env.self, st')
    ensures st'.world == ws[|ws| - 1]
  {
    var n := |ws| - 1;
    assert p.Ok();
    hide Run, Plan.Blocks, Plan.Ok, OutsHeld, Turns, TurnGives, EnterGives, Plan.EntryOuts, Plan.Index;
    var st1 := EntryRuns(env, p, h, r, w, vals, false);
    st' := LoopRuns(env, p, h, r, vals, 0, ws, 0, st1);
    RunSplit(env, p.Blocks(h, r), Start(w), 1, n);
    RunSplit(env, p.Blocks(h, r), Start(w), 1 + n, 1);
    ExitRuns(env, p, h, r, 1, st');
  }

  /** After the entry and k turns, control is at the loop block again, in world k: turn k is the one that leaves it. */
  lemma PlanAfter(env: Env, p: Plan, h: Handles, r: nat, w: World, vals: seq<Val>, ws: seq<World>, k: nat)
    returns (prev: nat, st: State)
    requires EnterGives(env, p, w, vals, false) && Turns(env, p, vals, 0, ws) && ws[0] == w && k < |ws| - 1
    ensures p.Ok() && Run(env, p.Blocks(h, r), Start(w), 1 + k) == At(1, prev, st) && st.world == ws[k]
  {
    assert p.Ok();
    hide Run, Plan.Blocks, Plan.Ok, OutsHeld, Turns, TurnGives, EnterGives, Plan.EntryOuts, Plan.Index;
    var st1 := EntryRuns(env, p, h, r, w, vals, false);
    prev, st := LoopAfter(env, p, h, r, vals, 0, ws, 0, st1, k);
    RunSplit(env, p.Blocks(h, r), Start(w), 1, k);
  }
}
