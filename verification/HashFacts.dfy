// What newhash does: the calls it makes, in which order, and what it reads.

module HashFacts {
  import opened Options
  import opened Words
  import opened IR
  import opened Machine
  import opened StackMachine
  import opened Emission
  import opened ValueCode
  import opened StackCode
  import opened InsnCode
  import opened Codegen
  import opened HashCode
  import opened Simulation

  /** How many turns a loop over count values takes. */
  function Turns(count: int): nat {
    if count > 0 then (count + 1) / 2 else 0
  }

  /** Turn j sets the key at its depth to the value in the cell after it. */
  predicate PairAt(log: seq<Event>, n: nat, hash: Val, m: Mem, idx: int, j: nat)
    requires LoopOk(m, idx)
  {
    j < Turns(idx) && n + j < |log| && log[n + j].callee == HashAset
    && log[n + j].args == [hash, m.cells[m.depth - idx + 2 * j], m.cells[m.depth - idx + 2 * j + 1]]
  }

  /** From position n of the log on: one call for each turn, with a key and the cell after it, the deepest first. */
  predicate SetsPairs(log: seq<Event>, n: nat, hash: Val, m: Mem, idx: int)
    requires LoopOk(m, idx)
  {
    |log| == n + Turns(idx) && forall j: nat :: j < Turns(idx) ==> PairAt(log, n, hash, m, idx, j)
  }

  lemma TurnLogs(env: Env, hash: Val, m: Mem, idx: int, w: World)
    requires CanRead(m, idx)
    ensures var w' := TurnCall(env, hash, m, idx, w).1;
      |w'.log| == |w.log| + 1 && w'.log[..|w.log|] == w.log && w'.log[|w.log|].callee == HashAset
      && w'.log[|w.log|].args == [hash, m.cells[m.depth - idx], m.cells[m.depth - idx + 1]]
  {
  }

  lemma {:induction false} LoopLogs(env: Env, hash: Val, m: Mem, idx: int, w: World)
    requires LoopOk(m, idx)
    ensures var w' := HashWorld(env, hash, m, idx, w);
      w.log <= w'.log && SetsPairs(w'.log, |w.log|, hash, m, idx)
    decreases idx
  {
    TurnLogs(env, hash, m, idx, w);
    var w1 := TurnCall(env, hash, m, idx, w).1;
    if idx > 2 {
      LoopLogs(env, hash, m, idx - 2, w1);
      var w' := HashWorld(env, hash, m, idx - 2, w1);
      assert HashWorld(env, hash, m, idx, w) == w';
      hide TurnCall, HashWorld;
      OneMorePair(w.log, w1.log, w'.log, hash, m, idx);
    } else {
      assert HashWorld(env, hash, m, idx, w) == w1;
    }
  }

  lemma OneMorePair(log: seq<Event>, log1: seq<Event>, log': seq<Event>, hash: Val, m: Mem, idx: int)
    requires LoopOk(m, idx) && idx > 2 && |log1| == |log| + 1 && log <= log1 <= log'
    requires log1[|log|].callee == HashAset
    requires log1[|log|].args == [hash, m.cells[m.depth - idx], m.cells[m.depth - idx + 1]]
    requires SetsPairs(log', |log1|, hash, m, idx - 2)
    ensures log <= log' && SetsPairs(log', |log|, hash, m, idx)
  {
    forall j: nat | j < Turns(idx)
      ensures PairAt(log', |log|, hash, m, idx, j)
    {
      if j == 0 {
        assert log'[|log|] == log1[|log|];
      } else {
        assert PairAt(log', |log1|, hash, m, idx - 2, j - 1);
        assert |log1| + (j - 1) == |log| + j && m.depth - (idx - 2) + 2 * (j - 1) == m.depth - idx + 2 * j;
      }
    }
  }

  /** The outcome of newhash: the values below are untouched, the hash is on top, and the calls are in the log. */
  predicate Hashed(count: int, m: Mem, hash: Val, m': Mem)
    requires MemOk(m) && m.depth < CELLS && (count > 0 ==> LoopOk(m, count))
  {
    m'.depth == m.depth + 1 && |m'.cells| == |m.cells| && m'.cells[..m.depth] == m.cells[..m.depth]
    && m'.cells[m.depth] == hash && m'.locals == m.locals
    && |m'.world.log| == |m.world.log| + 1 + Turns(count) && m.world.log <= m'.world.log
    && m'.world.log[|m.world.log|] == Event(HashNew, [], hash)
    && (count > 0 ==> SetsPairs(m'.world.log, |m.world.log| + 1, hash, m, count))
  }

  lemma HashEffect(env: Env, count: int, m: Mem)
    requires MemOk(m) && m.depth < CELLS && count <= m.depth
    ensures HashSem(env, count, m).Some?
    ensures Hashed(count, m, CallRuntime(env.rt, HashNew, [], m.world).0, HashSem(env, count, m).value)
  {
    var (hash, w) := CallRuntime(env.rt, HashNew, [], m.world);
    var m1 := m.(world := w);
    assert w.log == m.world.log + [Event(HashNew, [], hash)];
    if count > 0 {
      LoopLogs(env, hash, m1, count, w);
      var log := HashWorld(env, hash, m1, count, w).log;
      assert log[|m.world.log|] == w.log[|m.world.log|] && m.world.log <= log;
      SamePairs(log, |m.world.log| + 1, hash, m1, m, count);
    }
    hide HashWorld, SetsPairs, CallRuntime;
  }

  lemma SamePairs(log: seq<Event>, n: nat, hash: Val, m: Mem, m': Mem, idx: int)
    requires LoopOk(m, idx) && m' == m.(world := m'.world) && SetsPairs(log, n, hash, m, idx)
    ensures SetsPairs(log, n, hash, m', idx)
  {
    forall j: nat | j < Turns(idx)
      ensures PairAt(log, n, hash, m', idx, j)
    {
      assert PairAt(log, n, hash, m, idx, j);
    }
  }

  /**
   * newhash in the compiled function, for any count up to the depth of the stack: the loop ends, and by then it has
   * created one hash and called rb_hash_aset once for every two values, each key with the value pushed after
   * it, in the order in which they were pushed. The operands are still there, and the hash is on top of them.
   */
  lemma NewHashPairs(env: Env, bc: Bytecode, base: nat, i: nat, prev: nat, st: State, m: Mem)
    returns (steps: nat, m': Mem)
    requires WellFormed(bc) && i < |bc| && bc[i].NewHash? && MemOk(m) && Rel(HandlesAt(base), st, m)
    requires bc[i].count <= m.depth < CELLS
    ensures var c := Run(env, Compile(bc, base).blocks, At(BlockOf(i), prev, st), steps);
      c.At? && c.block == BlockOf(i + 1) && Rel(HandlesAt(base), c.st, m')
    ensures Hashed(bc[i].count, m, CallRuntime(env.rt, HashNew, [], m.world).0, m')
  {
    hide *;
    PrefixWellFormed(bc, i);
    CodeInPlace(bc, base, i);
    var c := CompileTo(bc, base, i);
    IsCInt(bc, i);
    HashEffect(env, bc[i].count, m);
    m' := HashSem(env, bc[i].count, m).value;
    steps := HashRuns(env, Compile(bc, base).blocks, HandlesAt(base), c.next, |c.blocks|, i, bc[i].count, prev, st, m);
  }

  lemma IsCInt(bc: Bytecode, i: nat)
    requires WellFormed(bc) && i < |bc| && bc[i].NewHash?
    ensures CInt(bc[i].count)
  {
  }

  // ---------- odd counts ----------

  /** The two memories hold the same stack, locals and world; they may differ above the stack pointer. */
  predicate SameView(m1: Mem, m2: Mem) {
    MemOk(m1) && MemOk(m2) && View(m1) == View(m2)
  }

  function ViewOf(env: Env, count: int, m: Mem): Option<Frame>
    requires MemOk(m)
  {
    var r := HashSem(env, count, m);
    if r.Some? && MemOk(r.value) then Some(View(r.value)) else None
  }

  /** The outcome depends on nothing above the stack pointer. */
  ghost predicate IgnoresStale(env: Env, count: int) {
    forall m1, m2 :: SameView(m1, m2) ==> ViewOf(env, count, m1) == ViewOf(env, count, m2)
  }

  lemma PairedIgnores(env: Env, count: int, m1: Mem, m2: Mem)
    requires SameView(m1, m2) && (count > 0 ==> count % 2 == 0)
    ensures ViewOf(env, count, m1) == ViewOf(env, count, m2)
  {
    HashAgrees(env, count, m1);
    HashAgrees(env, count, m2);
    hide HashSem, Effect;
  }

  lemma TooMany(env: Env, count: int, m: Mem)
    requires MemOk(m) && count >= CELLS && count % 2 == 1
    ensures ViewOf(env, count, m) == None
  {
  }

  function Filled(v: Val): seq<Val> {
    seq(CELLS, _ => v)
  }

  /** A stack of count equal values, and one more value left above it. */
  function Stale(count: nat, v: Val): Mem
    requires count < CELLS
  {
    Mem(Filled(Undef)[count := v], count, Filled(Undef), World(map[], []))
  }

  lemma StaleViews(count: nat, v: Val, v': Val)
    requires count < CELLS
    ensures SameView(Stale(count, v), Stale(count, v'))
  {
    assert Stale(count, v).cells[..count] == Stale(count, v').cells[..count];
  }

  lemma StaleIsUsed(env: Env, count: nat, v: Val)
    requires 0 < count < CELLS && count % 2 == 1
    ensures ViewOf(env, count, Stale(count, v)).Some?
    ensures var log := ViewOf(env, count, Stale(count, v)).value.world.log;
      |log| == 1 + Turns(count) && |log[|log| - 1].args| == 3 && log[|log| - 1].args[2] == v
  {
    var m := Stale(count, v);
    HashEffect(env, count, m);
    var m' := HashSem(env, count, m).value;
    hide HashSem;
    assert SetsPairs(m'.world.log, 1, CallRuntime(env.rt, HashNew, [], m.world).0, m, count);
    var j := Turns(count) - 1;
    assert PairAt(m'.world.log, 1, CallRuntime(env.rt, HashNew, [], m.world).0, m, count, j);
    assert MemOk(m');
  }

  /**
   * A hash literal of an odd count sets its last key to whatever an earlier push left above the stack pointer: the
   * result is a function of the stack exactly when the count is even, zero or negative, or more than any stack holds.
   */
  lemma OddCountsReadStale(env: Env, count: int)
    ensures IgnoresStale(env, count) <==> count <= 0 || count % 2 == 0 || count >= CELLS
  {
    if count <= 0 || count % 2 == 0 || count >= CELLS {
      forall m1, m2 | SameView(m1, m2) ensures ViewOf(env, count, m1) == ViewOf(env, count, m2) {
        if count > 0 && count % 2 == 1 {
          TooMany(env, count, m1);
          TooMany(env, count, m2);
        } else {
          PairedIgnores(env, count, m1, m2);
        }
      }
    } else {
      var a, b := WordVal(0), WordVal(1);
      StaleViews(count, a, b);
      StaleIsUsed(env, count, a);
      StaleIsUsed(env, count, b);
      hide ViewOf, SameView;
      assert ViewOf(env, count, Stale(count, a)) != ViewOf(env, count, Stale(count, b));
    }
  }

  // ---------- programs that get there ----------

  /** Pushes count - 1 times the word 0, then once the word a, drops that again, and makes a hash of count values. */
  function OddProgram(count: nat, a: int): (bc: Bytecode)
    requires count > 0
    ensures |bc| == count + 2 && bc[count - 1] == PutObject(a) && bc[count] == Pop && bc[count + 1] == NewHash(count)
    ensures forall i :: 0 <= i < count - 1 ==> bc[i] == PutObject(0)
  {
    seq(count - 1, _ => PutObject(0)) + [PutObject(a), Pop, NewHash(count)]
  }

  function Pushed(m: Mem, v: Val): Mem
    requires MemOk(m) && m.depth < CELLS
  {
    m.(cells := m.cells[m.depth := v], depth := m.depth + 1)
  }

  /** The memory after k pushes of the word 0. */
  function Zeros(env: Env, w: World, k: nat): (m: Mem)
    requires k < CELLS
    ensures MemOk(m) && m.depth == k + 1
  {
    if k == 0 then StartMem(env, w) else Pushed(Zeros(env, w, k - 1), WordVal(0))
  }

  lemma {:induction false} PushMemory(env: Env, a: int, m: Mem)
    requires MemOk(m) && m.depth < CELLS
    ensures var sem := RunCalls(env, Calls(PutObject(a)), 0, [], m);
      sem.Some? && sem.value.1 == Pushed(m, WordVal(a))
  {
    var cs := Calls(PutObject(a));
    assert CallSem(env, cs[0], [], m) == Some((Undef, Pushed(m, WordVal(a))));
    hide WordVal;
    Next(env, cs, 0, [], m);
    Last(env, cs, [] + [Undef], Pushed(m, WordVal(a)));
  }

  lemma {:induction false} PopMemory(env: Env, m: Mem)
    requires MemOk(m) && m.depth > 0
    ensures var sem := RunCalls(env, Calls(Pop), 0, [], m); sem.Some? && sem.value.1 == m.(depth := m.depth - 1)
  {
    var cs := Calls(Pop);
    assert RunCalls(env, cs, 1, [] + [m.cells[m.depth - 1]], m.(depth := m.depth - 1)).Some?;
  }

  lemma OddFits(count: nat, a: int)
    requires 0 < count < CELLS
    ensures WellFormed(OddProgram(count, a))
  {
  }

  /** Control stands at instruction i with memory m. */
  predicate StandsWith(env: Env, bc: Bytecode, base: nat, w: World, steps: nat, i: nat, m: Mem)
    requires WellFormed(bc)
  {
    var c := Run(env, Compile(bc, base).blocks, Start(w), steps);
    c.At? && c.block == BlockOf(i) && Rel(HandlesAt(base), c.st, m)
  }

  lemma {:induction false} StraightStands(env: Env, bc: Bytecode, base: nat, w: World, steps: nat, i: nat, m: Mem)
    requires WellFormed(bc) && i < |bc| && IsStraight(bc[i]) && StandsWith(env, bc, base, w, steps, i, m)
    requires RunCalls(env, Calls(bc[i]), 0, [], m).Some?
    ensures StandsWith(env, bc, base, w, steps + 1, i + 1, RunCalls(env, Calls(bc[i]), 0, [], m).value.1)
  {
    PrefixWellFormed(bc, i);
    var f, code := Compile(bc, base).blocks, CompileTo(bc, base, i);
    CodeInPlace(bc, base, i);
    hide RunCalls, Calls, Compile, CompileTo, Rel, HandlesAt, HandlesBelow, InPlace, Run, HashBlocks, WellFormed;
    var c := Run(env, f, Start(w), steps);
    var st1 := StraightMemory(env, f, HandlesAt(base), code.next, |code.blocks|, |bc|, i, bc[i], c.prev, c.st, m);
    RunSplit(env, f, Start(w), steps, 1);
  }

  lemma StandsAtStart(env: Env, bc: Bytecode, base: nat, w: World)
    requires WellFormed(bc)
    ensures StandsWith(env, bc, base, w, 1, 0, StartMem(env, w))
  {
    EntryBlock(bc, base);
    var st' := EntryRuns(env, base, w);
    var f := Compile(bc, base).blocks;
    hide Compile, Rel, Exec, Number, EntryOps, HandlesAt, Run, WellFormed;
    RunJump(env, f, 0, Number(EntryOps(base), base), 0, State(map[], [], w), 1, st');
  }

  lemma {:induction false} ZerosStand(env: Env, bc: Bytecode, base: nat, w: World, k: nat)
    requires WellFormed(bc) && k < CELLS && k <= |bc| && forall i :: 0 <= i < k ==> bc[i] == PutObject(0)
    ensures StandsWith(env, bc, base, w, k + 1, k, Zeros(env, w, k))
    decreases k
  {
    hide StandsWith, Calls, RunCalls, WellFormed, StartMem;
    if k == 0 {
      StandsAtStart(env, bc, base, w);
    } else {
      ZerosStand(env, bc, base, w, k - 1);
      PushMemory(env, 0, Zeros(env, w, k - 1));
      StraightStands(env, bc, base, w, k, k - 1, Zeros(env, w, k - 1));
    }
  }

  /** The memory that the program finds at its newhash: count values, and a in the cell above them. */
  function BeforeHash(env: Env, w: World, count: nat, a: int): (m: Mem)
    requires 0 < count < CELLS
    ensures MemOk(m) && m.depth == count && m.cells[count] == WordVal(a)
    ensures View(m) == View(Zeros(env, w, count - 1))
  {
    var m0 := Zeros(env, w, count - 1);
    var m := Pushed(m0, WordVal(a)).(depth := count);
    assert m.cells[..count] == m0.cells[..count];
    m
  }

  lemma ReachesHash(env: Env, base: nat, w: World, count: nat, a: int)
    requires 0 < count < CELLS
    ensures WellFormed(OddProgram(count, a))
    ensures StandsWith(env, OddProgram(count, a), base, w, count + 2, count + 1, BeforeHash(env, w, count, a))
  {
    hide *;
    OddFits(count, a);
    var bc, m0 := OddProgram(count, a), Zeros(env, w, count - 1);
    ZerosStand(env, bc, base, w, count - 1);
    AreStraight(a);
    PushMemory(env, a, m0);
    StraightStands(env, bc, base, w, count, count - 1, m0);
    Room(m0);
    var m1 := Pushed(m0, WordVal(a));
    PopMemory(env, m1);
    StraightStands(env, bc, base, w, count + 1, count, m1);
    BeforeHashIs(env, w, count, a);
  }

  lemma AreStraight(a: int)
    ensures IsStraight(PutObject(a)) && IsStraight(Pop)
  {
  }

  lemma Room(m: Mem)
    requires MemOk(m) && m.depth < CELLS
    ensures forall v :: MemOk(Pushed(m, v)) && Pushed(m, v).depth == m.depth + 1
  {
  }

  lemma {:induction false} BeforeHashIs(env: Env, w: World, count: nat, a: int)
    requires 0 < count < CELLS
    ensures BeforeHash(env, w, count, a)
         == var m1 := Pushed(Zeros(env, w, count - 1), WordVal(a)); m1.(depth := m1.depth - 1)
  {
    hide WordVal, Zeros;
  }

  lemma LastPair(m: Mem, m': Mem, hash: Val, count: nat)
    requires MemOk(m) && m.depth == count < CELLS && count % 2 == 1 && Hashed(count, m, hash, m')
    ensures var log := m'.world.log;
      |log| == |m.world.log| + 1 + Turns(count) && log[|log| - 1].callee == HashAset
      && log[|log| - 1].args == [hash, m.cells[count - 1], m.cells[count]]
  {
    var n, j := |m.world.log| + 1, Turns(count) - 1;
    assert PairAt(m'.world.log, n, hash, m, count, j);
  }

  /** The last call so far sets a key to the given value, in the world of control at instruction i. */
  predicate LastSets(env: Env, bc: Bytecode, base: nat, w: World, steps: nat, i: nat, v: Val)
    requires WellFormed(bc)
  {
    var c := Run(env, Compile(bc, base).blocks, Start(w), steps);
    c.At? && c.block == BlockOf(i)
    && var log := c.st.world.log;
       log != [] && log[|log| - 1].callee == HashAset && |log[|log| - 1].args| == 3 && log[|log| - 1].args[2] == v
  }

  lemma SetsDropped(env: Env, base: nat, w: World, count: nat, a: int) returns (steps: nat)
    requires 0 < count < CELLS && count % 2 == 1
    ensures WellFormed(OddProgram(count, a))
    ensures LastSets(env, OddProgram(count, a), base, w, steps, count + 2, WordVal(a))
  {
    hide *;
    ReachesHash(env, base, w, count, a);
    var bc, m := OddProgram(count, a), BeforeHash(env, w, count, a);
    var f := Compile(bc, base).blocks;
    StandsOpen(env, bc, base, w, count + 2, count + 1, m);
    var c := Run(env, f, Start(w), count + 2);
    var k, m' := NewHashPairs(env, bc, base, count + 1, c.prev, c.st, m);
    LastPair(m, m', CallRuntime(env.rt, HashNew, [], m.world).0, count);
    RunSplit(env, f, Start(w), count + 2, k);
    steps := count + 2 + k;
    StandsClose(env, bc, base, w, steps, count + 2, m');
    SetsClose(env, bc, base, w, steps, count + 2, m', WordVal(a));
  }

  lemma {:induction false} StandsOpen(env: Env, bc: Bytecode, base: nat, w: World, steps: nat, i: nat, m: Mem)
    requires WellFormed(bc) && StandsWith(env, bc, base, w, steps, i, m)
    ensures var c := Run(env, Compile(bc, base).blocks, Start(w), steps);
      c.At? && c == At(BlockOf(i), c.prev, c.st) && Rel(HandlesAt(base), c.st, m)
  {
    hide Run, Compile, HandlesAt, Rel;
  }

  lemma {:induction false} StandsClose(env: Env, bc: Bytecode, base: nat, w: World, steps: nat, i: nat, m: Mem)
    requires WellFormed(bc)
    requires var c := Run(env, Compile(bc, base).blocks, Start(w), steps);
      c.At? && c.block == BlockOf(i) && Rel(HandlesAt(base), c.st, m)
    ensures StandsWith(env, bc, base, w, steps, i, m)
  {
    hide Run, Compile, HandlesAt, Rel;
  }

  lemma SetsClose(env: Env, bc: Bytecode, base: nat, w: World, steps: nat, i: nat, m: Mem, v: Val)
    requires WellFormed(bc) && StandsWith(env, bc, base, w, steps, i, m)
    requires var log := m.world.log;
      log != [] && log[|log| - 1].callee == HashAset && |log[|log| - 1].args| == 3 && log[|log| - 1].args[2] == v
    ensures LastSets(env, bc, base, w, steps, i, v)
  {
    hide Run, Compile, HandlesAt;
  }

  /**
   * A hash of an odd count shows a value that the program has dropped: for every odd count that the stack can hold, two
   * programs that differ only in the word that they push and pop reach the newhash with the same stack, locals and
   * world, and past it the last call has set a key to that word.
   */
  lemma OddHashShowsDropped(env: Env, base: nat, w: World, count: nat, a: int, b: int)
    returns (m: Mem, m': Mem, k: nat, k': nat)
    requires 0 < count < CELLS && count % 2 == 1
    ensures WellFormed(OddProgram(count, a)) && WellFormed(OddProgram(count, b)) && SameView(m, m')
    ensures StandsWith(env, OddProgram(count, a), base, w, count + 2, count + 1, m)
    ensures StandsWith(env, OddProgram(count, b), base, w, count + 2, count + 1, m')
    ensures LastSets(env, OddProgram(count, a), base, w, k, count + 2, WordVal(a))
    ensures LastSets(env, OddProgram(count, b), base, w, k', count + 2, WordVal(b))
  {
    ReachesHash(env, base, w, count, a);
    ReachesHash(env, base, w, count, b);
    m, m' := BeforeHash(env, w, count, a), BeforeHash(env, w, count, b);
    k := SetsDropped(env, base, w, count, a);
    k' := SetsDropped(env, base, w, count, b);
    hide StandsWith, LastSets, WordVal, Zeros, OddProgram;
  }
}
