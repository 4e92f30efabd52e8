// Two functions on arrays: add1, which adds 1 to every element in place, and reverse.

module ArrayCalls {
  import opened Options
  import opened Words
  import opened IR
  import opened Machine
  import opened StackMachine
  import opened Emission
  import opened ValueCode
  import opened Fixnums
  import opened LoopFunctions

  // Results: the length and the test in the entry, then the index; the loop block's own follow from 3.
  function Add1(): Plan {
    Plan(
      [ALen(Self), IcmpOf(Eq, Word(0), Res(0))],
      [BinOf(Add, Word(1), Res(2)), ARef(Self, Res(2)), Fix2Int(Res(4)), BinOf(Add, Word(1), Res(5)), Num2Fix(Res(6)),
       ASet(Self, Res(2), Res(7)), IcmpOf(Ult, Res(3), Res(0))],
      3)
  }

  // Results: length, half of it, last index and test in the entry, then the index; the loop block's from 5.
  function Reverse(): Plan {
    Plan(
      [ALen(Self), BinOf(UDiv, Res(0), Word(2)), BinOf(Sub, Res(0), Word(1)), IcmpOf(Eq, Word(0), Res(0))],
      [BinOf(Add, Word(1), Res(4)), BinOf(Sub, Res(2), Res(4)), ARef(Self, Res(4)), ARef(Self, Res(6)),
       ASet(Self, Res(4), Res(8)), ASet(Self, Res(6), Res(7)), IcmpOf(Ult, Res(5), Res(1))],
      5)
  }

  lemma PlansAreOk()
    ensures Add1().Ok() && Reverse().Ok()
  {
    Add1IsOk(Add1());
    ReverseIsOk(Reverse());
  }

  lemma Add1IsOk(p: Plan)
    requires p == Add1()
    ensures p.Ok()
  {
  }

  lemma ReverseIsOk(p: Plan)
    requires p == Reverse()
    ensures p.Ok()
  {
  }

  // ---------- words ----------

  /** The array at addr, all of its elements words, and short enough for its indices to be words. */
  predicate Stands(w: World, addr: int, a: seq<int>) {
    0 <= addr < Modulus(WORD) && addr in w.arrays && w.arrays[addr] == a && |a| < RANGE
    && forall j :: 0 <= j < |a| ==> 0 <= a[j] < Modulus(WORD)
  }

  function Moved(w: World, addr: int, a: seq<int>): World {
    w.(arrays := w.arrays[addr := a])
  }

  lemma IndexWord(n: int)
    requires 0 <= n < RANGE
    ensures Norm(WORD, n) == n && Signed(WORD, n) == n && WordVal(n) == Int(WORD, n)
  {
  }

  lemma NextWord(n: int)
    requires 0 <= n < RANGE
    ensures EvalBin(Add, Int(WORD, Norm(WORD, 1)), WordVal(n)) == Some(WordVal(n + 1))
  {
    IndexWord(n);
    NormNorm(WORD, 1);
  }

  lemma LessWord(a: int, b: int)
    requires 0 <= a <= RANGE && 0 <= b < RANGE
    ensures EvalIcmp(Ult, WordVal(a), WordVal(b)) == Some(Truth(a < b))
  {
    assert Norm(WORD, a) == a && Norm(WORD, b) == b;
  }

  lemma EmptyWord(n: int)
    requires 0 <= n < RANGE
    ensures EvalIcmp(Eq, Int(WORD, Norm(WORD, 0)), WordVal(n)) == Some(Truth(n == 0))
  {
    IndexWord(n);
  }

  lemma LengthWord(w: World, addr: int, a: seq<int>)
    requires Stands(w, addr, a)
    ensures LengthOf(Int(WORD, addr), w) == Some(WordVal(|a|))
  {
    assert Norm(WORD, addr) == addr;
  }

  lemma ReadWord(w: World, addr: int, a: seq<int>, j: int)
    requires Stands(w, addr, a) && 0 <= j < |a|
    ensures ElementOf(Int(WORD, addr), WordVal(j), w) == Some(Int(WORD, a[j]))
  {
    IndexWord(j);
    assert Norm(WORD, addr) == addr && Norm(WORD, a[j]) == a[j];
  }

  lemma WriteWord(w: World, addr: int, a: seq<int>, j: int, v: int)
    requires Stands(w, addr, a) && 0 <= j < |a| && 0 <= v < Modulus(WORD)
    ensures WithElement(Int(WORD, addr), WordVal(j), Int(WORD, v), w) == Some(Moved(w, addr, a[j := v]))
    ensures Stands(Moved(w, addr, a[j := v]), addr, a[j := v])
  {
    IndexWord(j);
    assert Norm(WORD, addr) == addr && Norm(WORD, v) == v;
    hide Norm, Signed;
  }

  // ---------- lists of calls, one at a time ----------

  /** One more call: its result comes after those before it. */
  lemma Value(env: Env, cs: seq<BCall>, k: nat, vals: seq<Val>, w: World, v: Val, w': World) returns (vals': seq<Val>)
    requires k < |cs| && ValueSem(env, cs[k], vals, w) == Some((v, w'))
    ensures |vals'| == |vals| + 1 && vals'[|vals|] == v && forall j :: 0 <= j < |vals| ==> vals'[j] == vals[j]
    ensures RunValues(env, cs, k, vals, w) == RunValues(env, cs, k + 1, vals', w')
  {
    hide ValueSem;
    vals' := vals + [v];
  }

  lemma BinValue(env: Env, cs: seq<BCall>, k: nat, vals: seq<Val>, w: World, v: Val) returns (vals': seq<Val>)
    requires k < |cs| && cs[k].BinOf?
    requires EvalBin(cs[k].op, ValOf(env, cs[k].x, vals), ValOf(env, cs[k].y, vals)) == Some(v)
    ensures |vals'| == |vals| + 1 && vals'[|vals|] == v && forall j :: 0 <= j < |vals| ==> vals'[j] == vals[j]
    ensures RunValues(env, cs, k, vals, w) == RunValues(env, cs, k + 1, vals', w)
  {
    vals' := Value(env, cs, k, vals, w, v, w);
  }

  lemma IcmpValue(env: Env, cs: seq<BCall>, k: nat, vals: seq<Val>, w: World, v: Val) returns (vals': seq<Val>)
    requires k < |cs| && cs[k].IcmpOf?
    requires EvalIcmp(cs[k].pred, ValOf(env, cs[k].x, vals), ValOf(env, cs[k].y, vals)) == Some(v)
    ensures |vals'| == |vals| + 1 && vals'[|vals|] == v && forall j :: 0 <= j < |vals| ==> vals'[j] == vals[j]
    ensures RunValues(env, cs, k, vals, w) == RunValues(env, cs, k + 1, vals', w)
  {
    vals' := Value(env, cs, k, vals, w, v, w);
  }

  lemma TagValue(env: Env, cs: seq<BCall>, k: nat, vals: seq<Val>, w: World, v: Val) returns (vals': seq<Val>)
    requires k < |cs| && (cs[k].Fix2Int? || cs[k].Num2Fix?)
    requires (if cs[k].Fix2Int? then Untagged(ValOf(env, cs[k].v, vals)) else Tagged(ValOf(env, cs[k].v, vals)))
         == Some(v)
    ensures |vals'| == |vals| + 1 && vals'[|vals|] == v && forall j :: 0 <= j < |vals| ==> vals'[j] == vals[j]
    ensures RunValues(env, cs, k, vals, w) == RunValues(env, cs, k + 1, vals', w)
  {
    vals' := Value(env, cs, k, vals, w, v, w);
  }

  lemma ReadValue(env: Env, cs: seq<BCall>, k: nat, vals: seq<Val>, w: World, v: Val) returns (vals': seq<Val>)
    requires k < |cs| && cs[k].ARef?
    requires ElementOf(ValOf(env, cs[k].ary, vals), ValOf(env, cs[k].idx, vals), w) == Some(v)
    ensures |vals'| == |vals| + 1 && vals'[|vals|] == v && forall j :: 0 <= j < |vals| ==> vals'[j] == vals[j]
    ensures RunValues(env, cs, k, vals, w) == RunValues(env, cs, k + 1, vals', w)
  {
    vals' := Value(env, cs, k, vals, w, v, w);
  }

  lemma WriteValue(env: Env, cs: seq<BCall>, k: nat, vals: seq<Val>, w: World, w': World) returns (vals': seq<Val>)
    requires k < |cs| && cs[k].ASet?
    requires WithElement(ValOf(env, cs[k].ary, vals), ValOf(env, cs[k].idx, vals), ValOf(env, cs[k].v, vals), w)
         == Some(w')
    ensures |vals'| == |vals| + 1 && forall j :: 0 <= j < |vals| ==> vals'[j] == vals[j]
    ensures RunValues(env, cs, k, vals, w) == RunValues(env, cs, k + 1, vals', w')
  {
    vals' := Value(env, cs, k, vals, w, Undef, w');
  }

  lemma LengthValue(env: Env, cs: seq<BCall>, k: nat, vals: seq<Val>, w: World, v: Val) returns (vals': seq<Val>)
    requires k < |cs| && cs[k].ALen? && LengthOf(ValOf(env, cs[k].ary, vals), w) == Some(v)
    ensures |vals'| == |vals| + 1 && vals'[|vals|] == v && forall j :: 0 <= j < |vals| ==> vals'[j] == vals[j]
    ensures RunValues(env, cs, k, vals, w) == RunValues(env, cs, k + 1, vals', w)
  {
    vals' := Value(env, cs, k, vals, w, v, w);
  }

  lemma {:induction false} NoMore(env: Env, cs: seq<BCall>, vals: seq<Val>, w: World)
    ensures RunValues(env, cs, |cs|, vals, w) == Some((vals, w))
  {
  }

  // ---------- add1 ----------

  lemma Add1Enters(env: Env, w: World, addr: int, a: seq<int>)
    requires env.self == Int(WORD, addr) && Stands(w, addr, a)
    ensures EnterGives(env, Add1(), w, [WordVal(|a|), Truth(a == [])], a == [])
  {
    PlansAreOk();
    LengthWord(w, addr, a);
    EmptyWord(|a|);
    var cs := Add1().entry;
    assert |cs| == 2 && cs[0] == ALen(Self) && cs[1] == IcmpOf(Eq, Word(0), Res(0));
    hide RunValues, LengthOf, EvalIcmp, Norm, Truth, WordVal, Plan.Ok, Stands, Add1, ValueSem;
    var v1 := LengthValue(env, cs, 0, [], w, WordVal(|a|));
    var v2 := IcmpValue(env, cs, 1, v1, w, Truth(a == []));
    NoMore(env, cs, v2, w);
    assert v2 == [WordVal(|a|), Truth(a == [])];
  }

  /** The element after a turn: tag of the successor. */
  lemma Successor(x: int)
    ensures Untagged(Tag(x)) == Some(Int(WORD, x % RANGE))
    ensures EvalBin(Add, Int(WORD, Norm(WORD, 1)), Int(WORD, x % RANGE)) == Some(WordVal(x % RANGE + 1))
    ensures Tagged(WordVal(x % RANGE + 1)) == Some(Tag(x + 1))
  {
    UntagTag(x);
    RangeIsEven();
    IndexWord(x % RANGE);
    NormNorm(WORD, 1);
    assert Norm(WORD, x % RANGE + 1) == x % RANGE + 1;
    SumResidueOne(x);
  }

  lemma SumResidueOne(x: int)
    ensures Tag(x % RANGE + 1) == Tag(x + 1)
  {
    RangeIsEven();
    var q := x / RANGE;
    assert 2 * (x + 1) + 1 == (2 * (x % RANGE + 1) + 1) + q * Modulus(WORD);
    NormShift(WORD, 2 * (x % RANGE + 1) + 1, q);
  }

  lemma ReadTag(w: World, addr: int, ys: seq<int>, i: int)
    requires Stands(w, addr, TagAll(ys)) && 0 <= i < |ys|
    ensures ElementOf(Int(WORD, addr), WordVal(i), w) == Some(Tag(ys[i]))
  {
    ReadWord(w, addr, TagAll(ys), i);
  }

  lemma WriteTag(w: World, addr: int, ys: seq<int>, i: int, n: int)
    requires Stands(w, addr, TagAll(ys)) && 0 <= i < |ys|
    ensures WithElement(Int(WORD, addr), WordVal(i), Tag(n), w) == Some(Moved(w, addr, TagAll(ys[i := n])))
    ensures Stands(Moved(w, addr, TagAll(ys[i := n])), addr, TagAll(ys[i := n]))
  {
    TagNorm(n);
    WriteWord(w, addr, TagAll(ys), i, Tag(n).n);
    assert TagAll(ys)[i := Tag(n).n] == TagAll(ys[i := n]);
  }

  /** The results with which a turn at index i starts. */
  predicate Add1Starts(vals: seq<Val>, n: int, i: int) {
    |vals| == 3 && vals[0] == WordVal(n) && vals[2] == WordVal(i)
  }

  predicate IsAdd1Body(cs: seq<BCall>) {
    |cs| == 7 && cs[0] == BinOf(Add, Word(1), Res(2)) && cs[1] == ARef(Self, Res(2)) && cs[2] == Fix2Int(Res(4))
    && cs[3] == BinOf(Add, Word(1), Res(5)) && cs[4] == Num2Fix(Res(6))
    && cs[5] == ASet(Self, Res(2), Res(7)) && cs[6] == IcmpOf(Ult, Res(3), Res(0))
  }

  lemma Add1Body(cs: seq<BCall>)
    requires cs == Add1().body
    ensures IsAdd1Body(cs) && |cs| == 7 && |Add1().entry| == 2 && Add1().next == 3
  {
  }

  /** The next index, and the element. */
  lemma Add1Reads(env: Env, cs: seq<BCall>, vals: seq<Val>, w: World, addr: int, ys: seq<int>, i: int)
    returns (vals': seq<Val>)
    requires IsAdd1Body(cs) && |cs| == 7
    requires env.self == Int(WORD, addr) && Stands(w, addr, TagAll(ys)) && 0 <= i < |ys| && Add1Starts(vals, |ys|, i)
    ensures |vals'| == 5 && vals'[0] == WordVal(|ys|) && vals'[2] == WordVal(i) && vals'[3] == WordVal(i + 1)
    ensures vals'[4] == Tag(ys[i]) && RunValues(env, cs, 0, vals, w) == RunValues(env, cs, 2, vals', w)
  {
    NextWord(i);
    ReadTag(w, addr, ys, i);
    hide RunValues, ElementOf, EvalBin, Norm, WordVal, Stands, Tag, ValueSem, TagAll;
    var v3 := BinValue(env, cs, 0, vals, w, WordVal(i + 1));
    vals' := ReadValue(env, cs, 1, v3, w, Tag(ys[i]));
  }

  /** The new element. */
  lemma Add1Computes(env: Env, cs: seq<BCall>, vals: seq<Val>, w: World, x: int) returns (vals': seq<Val>)
    requires IsAdd1Body(cs) && |cs| == 7
    requires |vals| == 5 && vals[4] == Tag(x)
    ensures |vals'| == 8 && vals'[7] == Tag(x + 1)
    ensures vals'[0] == vals[0] && vals'[2] == vals[2] && vals'[3] == vals[3]
    ensures RunValues(env, cs, 2, vals, w) == RunValues(env, cs, 5, vals', w)
  {
    Successor(x);
    hide RunValues, EvalBin, Untagged, Tagged, Norm, WordVal, Tag, ValueSem;
    var v5 := TagValue(env, cs, 2, vals, w, Int(WORD, x % RANGE));
    var v6 := BinValue(env, cs, 3, v5, w, WordVal(x % RANGE + 1));
    vals' := TagValue(env, cs, 4, v6, w, Tag(x + 1));
  }

  /** The other half: the element is stored, and the next index tested. */
  lemma Add1Stores(env: Env, cs: seq<BCall>, vals: seq<Val>, w: World, addr: int, ys: seq<int>, i: int)
    returns (vals': seq<Val>)
    requires IsAdd1Body(cs) && |cs| == 7
    requires env.self == Int(WORD, addr) && Stands(w, addr, TagAll(ys)) && 0 <= i < |ys|
    requires |vals| == 8 && vals[0] == WordVal(|ys|) && vals[2] == WordVal(i) && vals[3] == WordVal(i + 1)
    requires vals[7] == Tag(ys[i] + 1)
    ensures RunValues(env, cs, 5, vals, w) == Some((vals', Moved(w, addr, TagAll(ys[i := ys[i] + 1]))))
    ensures |vals'| == 10 && vals'[3] == WordVal(i + 1) && vals'[9] == Truth(i + 1 < |ys|)
  {
    WriteTag(w, addr, ys, i, ys[i] + 1);
    LessWord(i + 1, |ys|);
    var w' := Moved(w, addr, TagAll(ys[i := ys[i] + 1]));
    hide RunValues, WithElement, EvalIcmp, Norm, Truth, WordVal, Stands, Tag, ValueSem, TagAll, Moved;
    var v8 := WriteValue(env, cs, 5, vals, w, w');
    vals' := IcmpValue(env, cs, 6, v8, w', Truth(i + 1 < |ys|));
    NoMore(env, cs, vals', w');
  }

  lemma Add1Start(n: int, i: int)
    ensures Add1Starts([WordVal(n), Truth(false)] + [WordVal(i)], n, i)
  {
  }

  /** Turn i replaces element i by the tag of its successor. */
  lemma Add1Turn(env: Env, w: World, addr: int, ys: seq<int>, i: int)
    requires env.self == Int(WORD, addr) && Stands(w, addr, TagAll(ys)) && 0 <= i < |ys|
    ensures TurnGives(env, Add1(), [WordVal(|ys|), Truth(false)], i, w, Moved(w, addr, TagAll(ys[i := ys[i] + 1])),
                      i + 1 < |ys|)
  {
    hide *;
    PlansAreOk();
    var cs, vals := Add1().body, [WordVal(|ys|), Truth(false)] + [WordVal(i)];
    Add1Body(cs);
    Add1Start(|ys|, i);
    var v4 := Add1Reads(env, cs, vals, w, addr, ys, i);
    var v7 := Add1Computes(env, cs, v4, w, ys[i]);
    var v9 := Add1Stores(env, cs, v7, w, addr, ys, i);
    TurnIs(env, Add1(), [WordVal(|ys|), Truth(false)], i, w, v9, Moved(w, addr, TagAll(ys[i := ys[i] + 1])),
           i + 1 < |ys|);
  }

  /** The numbers when those before index i have been increased. */
  function Increased(xs: seq<int>, i: int): (ys: seq<int>)
    ensures |ys| == |xs|
  {
    seq(|xs|, j requires 0 <= j < |xs| => if j < i then xs[j] + 1 else xs[j])
  }

  lemma IncreasedNext(xs: seq<int>, i: int)
    requires 0 <= i < |xs|
    ensures Increased(xs, i)[i := Increased(xs, i)[i] + 1] == Increased(xs, i + 1)
  {
  }

  lemma IncreasedNone(xs: seq<int>)
    ensures Increased(xs, 0) == xs
  {
  }

  lemma TagsStand(w: World, addr: int, xs: seq<int>, ys: seq<int>)
    requires Stands(w, addr, TagAll(xs)) && |ys| == |xs|
    ensures Stands(Moved(w, addr, TagAll(ys)), addr, TagAll(ys))
  {
  }

  lemma MovedTwice(w: World, addr: int, a: seq<int>, b: seq<int>)
    ensures Moved(Moved(w, addr, a), addr, b) == Moved(w, addr, b)
  {
  }

  lemma MovedSame(w: World, addr: int, a: seq<int>)
    requires addr in w.arrays && w.arrays[addr] == a
    ensures Moved(w, addr, a) == w
  {
    assert w.arrays[addr := a] == w.arrays;
  }

  /** The worlds of add1: in world i, the first i elements have been increased. */
  function Add1Worlds(w: World, addr: int, xs: seq<int>): (ws: seq<World>)
    ensures |ws| == |xs| + 1
  {
    seq(|xs| + 1, i requires 0 <= i < |xs| + 1 => Moved(w, addr, TagAll(Increased(xs, i))))
  }

  lemma Add1TurnAt(env: Env, w: World, addr: int, xs: seq<int>, i: int)
    requires env.self == Int(WORD, addr) && Stands(w, addr, TagAll(xs)) && 0 <= i < |xs|
    ensures TurnGives(env, Add1(), [WordVal(|xs|), Truth(false)], i, Moved(w, addr, TagAll(Increased(xs, i))),
                      Moved(w, addr, TagAll(Increased(xs, i + 1))), i + 1 < |xs|)
  {
    hide *;
    var ys := Increased(xs, i);
    TagsStand(w, addr, xs, ys);
    IncreasedNext(xs, i);
    Add1Turn(env, Moved(w, addr, TagAll(ys)), addr, ys, i);
    MovedTwice(w, addr, TagAll(ys), TagAll(Increased(xs, i + 1)));
  }

  lemma Add1Turns(env: Env, w: World, addr: int, xs: seq<int>)
    requires env.self == Int(WORD, addr) && Stands(w, addr, TagAll(xs)) && xs != []
    ensures Turns(env, Add1(), [WordVal(|xs|), Truth(false)], 0, Add1Worlds(w, addr, xs))
    ensures Add1Worlds(w, addr, xs)[0] == w
  {
    var ws, vals := Add1Worlds(w, addr, xs), [WordVal(|xs|), Truth(false)];
    IncreasedNone(xs);
    MovedSame(w, addr, TagAll(xs));
    hide TurnGives, Add1, TagAll, Increased, Moved, Truth, WordVal, Stands;
    forall i | 0 <= i < |ws| - 1
      ensures TurnGives(env, Add1(), vals, 0 + i, ws[i], ws[i + 1], i + 2 < |ws|)
    {
      Add1TurnAt(env, w, addr, xs, i);
    }
  }

  function Successors(xs: seq<int>): (ys: seq<int>)
    ensures |ys| == |xs|
  {
    seq(|xs|, j requires 0 <= j < |xs| => xs[j] + 1)
  }

  lemma IncreasedAll(xs: seq<int>)
    ensures Increased(xs, |xs|) == Successors(xs)
  {
  }

  lemma Add1WorldAt(w: World, addr: int, xs: seq<int>, k: nat)
    requires k <= |xs|
    ensures Add1Worlds(w, addr, xs)[k] == Moved(w, addr, TagAll(Increased(xs, k)))
  {
  }

  /** One array has changed, to a, and nothing else has. */
  predicate OnlyArray(w: World, addr: int, a: seq<int>, w': World) {
    addr in w.arrays && w'.arrays.Keys == w.arrays.Keys && w'.arrays[addr] == a && w'.log == w.log
    && forall b :: b in w.arrays && b != addr ==> w'.arrays[b] == w.arrays[b]
  }

  lemma MovedIsOnly(w: World, addr: int, a: seq<int>)
    requires addr in w.arrays
    ensures OnlyArray(w, addr, a, Moved(w, addr, a))
  {
  }

  lemma SuccessorWords(xs: seq<int>)
    ensures |TagAll(Successors(xs))| == |xs|
    ensures forall j :: 0 <= j < |xs| ==> TagAll(Successors(xs))[j] == Norm(WORD, 2 * (xs[j] + 1) + 1)
  {
  }

  lemma StandsIn(w: World, addr: int, a: seq<int>)
    requires Stands(w, addr, a)
    ensures addr in w.arrays
  {
  }

  /**
   * add1 replaces every tagged number by the tag of its successor, in place, and returns the array; an empty array is
   * left alone.
   */
  lemma Add1Adds(env: Env, h: Handles, r: nat, w: World, addr: int, xs: seq<int>) returns (st: State)
    requires env.self == Int(WORD, addr) && Stands(w, addr, TagAll(xs))
    ensures Add1().Ok() && Run(env, Add1().Blocks(h, r), Start(w), |xs| + 2) == Done(env.self, st)
    ensures st.world == Moved(w, addr, TagAll(Successors(xs)))
    ensures OnlyArray(w, addr, TagAll(Successors(xs)), st.world) && |TagAll(Successors(xs))| == |xs|
    ensures forall j :: 0 <= j < |xs| ==> TagAll(Successors(xs))[j] == Norm(WORD, 2 * (xs[j] + 1) + 1)
  {
    hide *;
    StandsIn(w, addr, TagAll(xs));
    SuccessorWords(xs);
    MovedIsOnly(w, addr, TagAll(Successors(xs)));
    PlansAreOk();
    Add1Enters(env, w, addr, TagAll(xs));
    IncreasedAll(xs);
    if xs == [] {
      st := SkipRuns(env, Add1(), h, r, w, [WordVal(|xs|), Truth(true)]);
      assert Successors(xs) == xs == [];
      EmptyMoved(w, addr, xs);
    } else {
      Add1Turns(env, w, addr, xs);
      Add1WorldAt(w, addr, xs, |xs|);
      st := PlanRuns(env, Add1(), h, r, w, [WordVal(|xs|), Truth(false)], Add1Worlds(w, addr, xs));
    }
  }

  /** It enters the loop block once for each element, in order: before turn k, the first k elements have changed. */
  lemma {:induction false} Add1VisitsInOrder(env: Env, h: Handles, r: nat, w: World, addr: int, xs: seq<int>, k: nat)
    requires env.self == Int(WORD, addr) && Stands(w, addr, TagAll(xs)) && k < |xs|
    ensures Add1().Ok()
    ensures var c := Run(env, Add1().Blocks(h, r), Start(w), 1 + k);
      c.At? && c.block == 1 && c.st.world == Moved(w, addr, TagAll(Increased(xs, k)))
  {
    hide *;
    PlansAreOk();
    Add1Enters(env, w, addr, TagAll(xs));
    Add1Turns(env, w, addr, xs);
    Add1WorldAt(w, addr, xs, k);
    var prev, s := PlanAfter(env, Add1(), h, r, w, [WordVal(|xs|), Truth(false)], Add1Worlds(w, addr, xs), k);
  }

  lemma EmptyMoved(w: World, addr: int, xs: seq<int>)
    requires Stands(w, addr, TagAll(xs))
    ensures Moved(w, addr, TagAll(xs)) == w
  {
    MovedSame(w, addr, TagAll(xs));
  }

  // ---------- reverse ----------

  lemma HalfWord(n: int)
    requires 0 <= n < RANGE
    ensures EvalBin(UDiv, WordVal(n), Int(WORD, Norm(WORD, 2))) == Some(WordVal(n / 2))
  {
    IndexWord(n);
    assert Norm(WORD, 2) == 2 && Norm(WORD, Norm(WORD, 2)) == 2 && Norm(WORD, n / 2) == n / 2;
  }

  lemma LastWord(n: int)
    ensures EvalBin(Sub, WordVal(n), Int(WORD, Norm(WORD, 1))) == Some(WordVal(n - 1))
  {
    NormNorm(WORD, n);
    NormNorm(WORD, 1);
    assert Norm(WORD, 1) == 1;
    NormAffine(WORD, 1, n, -1);
  }

  lemma MirrorWord(n: int, i: int)
    requires 0 <= i < n < RANGE
    ensures EvalBin(Sub, WordVal(n - 1), WordVal(i)) == Some(WordVal(n - 1 - i))
  {
    IndexWord(n - 1);
    IndexWord(i);
    NormNorm(WORD, i);
    NormNorm(WORD, n - 1);
  }

  function ReverseValues(n: int): seq<Val> {
    [WordVal(n), WordVal(n / 2), WordVal(n - 1), Truth(n == 0)]
  }

  lemma ReverseEntry(cs: seq<BCall>)
    requires cs == Reverse().entry
    ensures |cs| == 4 && cs[0] == ALen(Self) && cs[1] == BinOf(UDiv, Res(0), Word(2))
    ensures cs[2] == BinOf(Sub, Res(0), Word(1)) && cs[3] == IcmpOf(Eq, Word(0), Res(0))
  {
  }

  /** What the references of the entry stand for, once the length is known. */
  lemma EntryRefs(env: Env, vals: seq<Val>, n: int)
    requires vals != []
    ensures ValOf(env, Self, []) == env.self && ValOf(env, Res(0), vals) == vals[0]
    ensures ValOf(env, Word(n), vals) == Int(WORD, Norm(WORD, n))
  {
    hide Norm;
  }

  lemma {:induction false} ReverseEntryMeans(env: Env, cs: seq<BCall>, w: World, addr: int, a: seq<int>)
    requires |cs| == 4 && cs[0] == ALen(Self) && cs[1] == BinOf(UDiv, Res(0), Word(2))
    requires cs[2] == BinOf(Sub, Res(0), Word(1)) && cs[3] == IcmpOf(Eq, Word(0), Res(0))
    requires env.self == Int(WORD, addr) && Stands(w, addr, a)
    ensures RunValues(env, cs, 0, [], w) == Some((ReverseValues(|a|), w))
  {
    hide *;
    FewElements(w, addr, a);
    LengthWord(w, addr, a);
    HalfWord(|a|);
    LastWord(|a|);
    EmptyWord(|a|);
    EntryRefs(env, [WordVal(|a|)], 0);
    var v1 := LengthValue(env, cs, 0, [], w, WordVal(|a|));
    EntryRefs(env, v1, 2);
    var v2 := BinValue(env, cs, 1, v1, w, WordVal(|a| / 2));
    EntryRefs(env, v2, 1);
    var v3 := BinValue(env, cs, 2, v2, w, WordVal(|a| - 1));
    EntryRefs(env, v3, 0);
    var v4 := IcmpValue(env, cs, 3, v3, w, Truth(|a| == 0));
    NoMore(env, cs, v4, w);
    ReverseValuesAre(v4, |a|);
  }

  lemma ReverseValuesAre(vals: seq<Val>, n: int)
    requires |vals| == 4 && vals[0] == WordVal(n) && vals[1] == WordVal(n / 2) && vals[2] == WordVal(n - 1)
    requires vals[3] == Truth(n == 0)
    ensures vals == ReverseValues(n)
  {
    hide WordVal, Truth;
  }

  lemma ReverseEnters(env: Env, w: World, addr: int, a: seq<int>)
    requires env.self == Int(WORD, addr) && Stands(w, addr, a)
    ensures EnterGives(env, Reverse(), w, ReverseValues(|a|), a == [])
  {
    hide RunValues, Truth, WordVal, Plan.Ok, Stands, Reverse;
    PlansAreOk();
    ReverseEntry(Reverse().entry);
    ReverseEntryMeans(env, Reverse().entry, w, addr, a);
  }

  /** The results with which a turn at index i starts. */
  predicate ReverseStarts(vals: seq<Val>, n: int, i: int) {
    |vals| == 5 && vals[1] == WordVal(n / 2) && vals[2] == WordVal(n - 1) && vals[4] == WordVal(i)
  }

  function Swapped(a: seq<int>, i: int, j: int): seq<int>
    requires 0 <= i < |a| && 0 <= j < |a|
  {
    a[i := a[j]][j := a[i]]
  }

  predicate IsReverseBody(cs: seq<BCall>) {
    |cs| == 7 && cs[0] == BinOf(Add, Word(1), Res(4)) && cs[1] == BinOf(Sub, Res(2), Res(4))
    && cs[2] == ARef(Self, Res(4)) && cs[3] == ARef(Self, Res(6))
    && cs[4] == ASet(Self, Res(4), Res(8)) && cs[5] == ASet(Self, Res(6), Res(7))
    && cs[6] == IcmpOf(Ult, Res(5), Res(1))
  }

  lemma ReverseBody(cs: seq<BCall>)
    requires cs == Reverse().body
    ensures IsReverseBody(cs) && |cs| == 7 && |Reverse().entry| == 4 && Reverse().next == 5
  {
  }

  /** The next index, and the mirror image of the index. */
  lemma ReverseIndices(env: Env, cs: seq<BCall>, vals: seq<Val>, w: World, n: int, i: int) returns (vals': seq<Val>)
    requires IsReverseBody(cs) && |cs| == 7
    requires 0 <= i < n < RANGE && ReverseStarts(vals, n, i)
    ensures |vals'| == 7 && vals'[1] == WordVal(n / 2) && vals'[4] == WordVal(i) && vals'[5] == WordVal(i + 1)
    ensures vals'[6] == WordVal(n - 1 - i)
    ensures RunValues(env, cs, 0, vals, w) == RunValues(env, cs, 2, vals', w)
  {
    NextWord(i);
    MirrorWord(n, i);
    hide RunValues, EvalBin, Norm, WordVal, ValueSem;
    var v5 := BinValue(env, cs, 0, vals, w, WordVal(i + 1));
    vals' := BinValue(env, cs, 1, v5, w, WordVal(n - 1 - i));
  }

  /** Both elements. */
  lemma ReverseReads(env: Env, cs: seq<BCall>, vals: seq<Val>, w: World, addr: int, a: seq<int>, i: int, j: int)
    returns (vals': seq<Val>)
    requires IsReverseBody(cs) && |cs| == 7
    requires env.self == Int(WORD, addr) && Stands(w, addr, a) && 0 <= i < |a| && 0 <= j < |a|
    requires |vals| == 7 && vals[4] == WordVal(i) && vals[6] == WordVal(j)
    ensures |vals'| == 9 && vals'[7] == Int(WORD, a[i]) && vals'[8] == Int(WORD, a[j])
    ensures vals'[1] == vals[1] && vals'[4] == vals[4] && vals'[5] == vals[5] && vals'[6] == vals[6]
    ensures RunValues(env, cs, 2, vals, w) == RunValues(env, cs, 4, vals', w)
  {
    ReadWord(w, addr, a, i);
    ReadWord(w, addr, a, j);
    hide RunValues, ElementOf, Norm, WordVal, Stands, ValueSem;
    var v7 := ReadValue(env, cs, 2, vals, w, Int(WORD, a[i]));
    vals' := ReadValue(env, cs, 3, v7, w, Int(WORD, a[j]));
  }

  /** The two elements change places, and the next index is compared with half the length. */
  lemma ReverseWrites(env: Env, cs: seq<BCall>, vals: seq<Val>, w: World, addr: int, a: seq<int>, i: int)
    returns (vals': seq<Val>)
    requires IsReverseBody(cs) && |cs| == 7
    requires env.self == Int(WORD, addr) && Stands(w, addr, a) && 0 <= i < |a|
    requires |vals| == 9 && vals[1] == WordVal(|a| / 2) && vals[4] == WordVal(i) && vals[5] == WordVal(i + 1)
    requires vals[6] == WordVal(|a| - 1 - i) && vals[7] == Int(WORD, a[i]) && vals[8] == Int(WORD, a[|a| - 1 - i])
    ensures RunValues(env, cs, 4, vals, w) == Some((vals', Moved(w, addr, Swapped(a, i, |a| - 1 - i))))
    ensures |vals'| == 12 && vals'[5] == WordVal(i + 1) && vals'[11] == Truth(i + 1 < |a| / 2)
  {
    var n, j := |a|, |a| - 1 - i;
    var b := a[i := a[j]];
    var w1, w2 := Moved(w, addr, b), Moved(w, addr, b[j := a[i]]);
    WriteWord(w, addr, a, i, a[j]);
    WriteWord(w1, addr, b, j, a[i]);
    MovedTwice(w, addr, b, b[j := a[i]]);
    LessWord(i + 1, n / 2);
    hide RunValues, WithElement, EvalIcmp, Norm, Truth, WordVal, Stands, ValueSem, Moved;
    var v9 := WriteValue(env, cs, 4, vals, w, w1);
    var v10 := WriteValue(env, cs, 5, v9, w1, w2);
    vals' := IcmpValue(env, cs, 6, v10, w2, Truth(i + 1 < n / 2));
    NoMore(env, cs, vals', w2);
  }

  lemma ReverseMeans(env: Env, cs: seq<BCall>, vals: seq<Val>, w: World, addr: int, a: seq<int>, i: int)
    returns (vals': seq<Val>)
    requires IsReverseBody(cs) && |cs| == 7
    requires env.self == Int(WORD, addr) && Stands(w, addr, a) && 0 <= i < |a| && ReverseStarts(vals, |a|, i)
    ensures RunValues(env, cs, 0, vals, w) == Some((vals', Moved(w, addr, Swapped(a, i, |a| - 1 - i))))
    ensures |vals'| == 12 && vals'[5] == WordVal(i + 1) && vals'[11] == Truth(i + 1 < |a| / 2)
  {
    hide *;
    FewElements(w, addr, a);
    var v6 := ReverseIndices(env, cs, vals, w, |a|, i);
    var v8 := ReverseReads(env, cs, v6, w, addr, a, i, |a| - 1 - i);
    vals' := ReverseWrites(env, cs, v8, w, addr, a, i);
  }

  lemma FewElements(w: World, addr: int, a: seq<int>)
    requires Stands(w, addr, a)
    ensures |a| < RANGE
  {
  }

  lemma ReverseStart(n: int, i: int)
    ensures ReverseStarts(ReverseValues(n) + [WordVal(i)], n, i) && |ReverseValues(n)| == 4
  {
  }

  /** Turn i swaps element i with its mirror image. */
  lemma ReverseTurn(env: Env, w: World, addr: int, a: seq<int>, i: int)
    requires env.self == Int(WORD, addr) && Stands(w, addr, a) && 0 <= i < |a|
    ensures TurnGives(env, Reverse(), ReverseValues(|a|), i, w, Moved(w, addr, Swapped(a, i, |a| - 1 - i)),
                      i + 1 < |a| / 2)
  {
    hide *;
    PlansAreOk();
    ReverseBody(Reverse().body);
    ReverseStart(|a|, i);
    var vals := ReverseValues(|a|) + [WordVal(i)];
    var v11 := ReverseMeans(env, Reverse().body, vals, w, addr, a, i);
    TurnIs(env, Reverse(), ReverseValues(|a|), i, w, v11, Moved(w, addr, Swapped(a, i, |a| - 1 - i)), i + 1 < |a| / 2);
  }

  function Reversed(a: seq<int>): (b: seq<int>)
    ensures |b| == |a| && forall j :: 0 <= j < |a| ==> b[j] == a[|a| - 1 - j]
  {
    if a == [] then [] else Reversed(a[1..]) + [a[0]]
  }

  /** The array when the outermost i elements on both sides have changed places. */
  function ReversedTo(a: seq<int>, i: int): (b: seq<int>)
    ensures |b| == |a|
  {
    seq(|a|, j requires 0 <= j < |a| => if j < i || j >= |a| - i then a[|a| - 1 - j] else a[j])
  }

  /** How many turns the loop takes: at least one, even when half the length is 0. */
  function ReverseTurns(n: nat): nat {
    if n == 1 then 1 else n / 2
  }

  lemma ReversedNext(a: seq<int>, i: int)
    requires 0 <= i < ReverseTurns(|a|)
    ensures i < |a| && Swapped(ReversedTo(a, i), i, |a| - 1 - i) == ReversedTo(a, i + 1)
  {
  }

  lemma {:induction false} ReversedEnds(a: seq<int>)
    ensures ReversedTo(a, 0) == a && ReversedTo(a, ReverseTurns(|a|)) == Reversed(a)
  {
    hide Reversed;
    var n, t := |a|, ReverseTurns(|a|);
    forall j | 0 <= j < n ensures ReversedTo(a, t)[j] == Reversed(a)[j] {
      assert j < t || j >= n - t || 2 * j + 1 == n;
    }
  }

  lemma WordsStand(w: World, addr: int, a: seq<int>, b: seq<int>)
    requires Stands(w, addr, a) && |b| == |a| && forall j :: 0 <= j < |b| ==> 0 <= b[j] < Modulus(WORD)
    ensures Stands(Moved(w, addr, b), addr, b)
  {
  }

  function ReverseWorlds(w: World, addr: int, a: seq<int>): (ws: seq<World>)
    ensures |ws| == ReverseTurns(|a|) + 1
  {
    seq(ReverseTurns(|a|) + 1, i requires 0 <= i < ReverseTurns(|a|) + 1 => Moved(w, addr, ReversedTo(a, i)))
  }

  lemma ReversedStands(w: World, addr: int, a: seq<int>, i: int)
    requires Stands(w, addr, a)
    ensures Stands(Moved(w, addr, ReversedTo(a, i)), addr, ReversedTo(a, i))
  {
    WordsStand(w, addr, a, ReversedTo(a, i));
  }

  lemma ReverseTurnAt(env: Env, w: World, addr: int, a: seq<int>, i: int)
    requires env.self == Int(WORD, addr) && Stands(w, addr, a) && 0 <= i < ReverseTurns(|a|)
    ensures TurnGives(env, Reverse(), ReverseValues(|a|), i, Moved(w, addr, ReversedTo(a, i)),
                      Moved(w, addr, ReversedTo(a, i + 1)), i + 1 < |a| / 2)
  {
    hide *;
    ReversedNext(a, i);
    ReversedStands(w, addr, a, i);
    var b := ReversedTo(a, i);
    ReverseTurn(env, Moved(w, addr, b), addr, b, i);
    MovedTwice(w, addr, b, ReversedTo(a, i + 1));
  }

  lemma ReverseTurnsAll(env: Env, w: World, addr: int, a: seq<int>)
    requires env.self == Int(WORD, addr) && Stands(w, addr, a) && a != []
    ensures Turns(env, Reverse(), ReverseValues(|a|), 0, ReverseWorlds(w, addr, a)) && ReverseWorlds(w, addr, a)[0] == w
  {
    var ws, vals, n := ReverseWorlds(w, addr, a), ReverseValues(|a|), |a|;
    ReversedEnds(a);
    MovedSame(w, addr, a);
    assert forall i :: 0 <= i < |ws| ==> ws[i] == Moved(w, addr, ReversedTo(a, i));
    assert |ws| == ReverseTurns(n) + 1 && n >= 1;
    hide TurnGives, Reverse, ReversedTo, Moved, Truth, WordVal, Stands, ReverseValues, ReverseWorlds, Reversed;
    forall i | 0 <= i < |ws| - 1
      ensures TurnGives(env, Reverse(), vals, 0 + i, ws[i], ws[i + 1], i + 2 < |ws|)
    {
      ReverseTurnAt(env, w, addr, a, i);
    }
  }

  lemma {:induction false} ReverseWorldsEnd(w: World, addr: int, a: seq<int>)
    ensures ReverseWorlds(w, addr, a)[ReverseTurns(|a|)] == Moved(w, addr, Reversed(a))
  {
    ReversedEnds(a);
    hide Reversed, ReversedTo;
  }

  /**
   * reverse leaves the array exactly reversed and returns it, for every length. It ends: one block for the entry, one
   * for each turn, one for the exit.
   */
  lemma ReverseReverses(env: Env, h: Handles, r: nat, w: World, addr: int, a: seq<int>) returns (st: State)
    requires env.self == Int(WORD, addr) && Stands(w, addr, a)
    ensures Reverse().Ok() && Run(env, Reverse().Blocks(h, r), Start(w), ReverseTurns(|a|) + 2) == Done(env.self, st)
    ensures st.world == Moved(w, addr, Reversed(a)) && OnlyArray(w, addr, Reversed(a), st.world)
  {
    hide *;
    StandsIn(w, addr, a);
    MovedIsOnly(w, addr, Reversed(a));
    PlansAreOk();
    ReverseEnters(env, w, addr, a);
    if a == [] {
      ReverseEmpty(a);
      st := SkipRuns(env, Reverse(), h, r, w, ReverseValues(|a|));
      StandsMoved(w, addr, a);
    } else {
      ReverseTurnsAll(env, w, addr, a);
      ReverseWorldsEnd(w, addr, a);
      st := PlanRuns(env, Reverse(), h, r, w, ReverseValues(|a|), ReverseWorlds(w, addr, a));
    }
  }

  lemma {:induction false} ReverseEmpty(a: seq<int>)
    requires a == []
    ensures ReverseTurns(|a|) == 0 && Reversed(a) == a
  {
  }

  lemma StandsMoved(w: World, addr: int, a: seq<int>)
    requires Stands(w, addr, a)
    ensures Moved(w, addr, a) == w
  {
    MovedSame(w, addr, a);
  }

  lemma {:induction false} ReversedTwice(a: seq<int>)
    ensures Reversed(Reversed(a)) == a
  {
  }

  /** Calling reverse again restores the world. */
  lemma ReverseTwice(env: Env, h: Handles, r: nat, w: World, addr: int, a: seq<int>) returns (st: State, st': State)
    requires env.self == Int(WORD, addr) && Stands(w, addr, a)
    ensures Reverse().Ok()
    ensures Run(env, Reverse().Blocks(h, r), Start(w), ReverseTurns(|a|) + 2) == Done(env.self, st)
    ensures Run(env, Reverse().Blocks(h, r), Start(st.world), ReverseTurns(|a|) + 2) == Done(env.self, st')
    ensures st'.world == w
  {
    st := ReverseReverses(env, h, r, w, addr, a);
    WordsStand(w, addr, a, Reversed(a));
    ReversedTwice(a);
    assert |Reversed(a)| == |a|;
    hide *;
    st' := ReverseReverses(env, h, r, st.world, addr, Reversed(a));
    MovedTwice(w, addr, Reversed(a), a);
    StandsMoved(w, addr, a);
  }
}
