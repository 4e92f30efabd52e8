// One compiler put to many bytecodes.

module Sequences {
  import opened Options
  import opened IR
  import opened StackMachine
  import opened Codegen
  import opened Building
  import opened WellFormedness
  import opened Compiler

  /** The functions that some bytecodes have been compiled to, as they are now. */
  ghost predicate AreCompiled(fs: seq<Option<Function>>, bcs: seq<Bytecode>, bases: seq<nat>)
    reads set i | 0 <= i < |fs| && fs[i].Some? :: fs[i].value
  {
    |fs| == |bcs| == |bases|
    && forall i :: 0 <= i < |fs| ==>
         (fs[i].Some? <==> WellFormed(bcs[i]))
         && (fs[i].Some? ==> fs[i].value.blocks == Compile(bcs[i], bases[i]).blocks)
  }

  /** Every two of them are different functions, and neither uses a register of the other. */
  ghost predicate AllApart(fs: seq<Option<Function>>)
    reads set i | 0 <= i < |fs| && fs[i].Some? :: fs[i].value
  {
    forall i, j :: 0 <= i < |fs| && 0 <= j < |fs| && i != j && fs[i].Some? && fs[j].Some? ==>
      fs[i].value != fs[j].value && Apart(fs[i].value.blocks, fs[j].value.blocks)
  }

  ghost predicate Distinct(fs: seq<Option<Function>>) {
    forall i, j :: 0 <= i < j < |fs| && fs[i].Some? && fs[j].Some? ==> fs[i].value != fs[j].value
  }

  lemma CompiledApart(fs: seq<Option<Function>>, bcs: seq<Bytecode>, bases: seq<nat>)
    requires AreCompiled(fs, bcs, bases) && OneAfterAnother(bcs, bases) && Distinct(fs)
    ensures AllApart(fs)
  {
    hide Compile, WellFormed, Apart, OneAfterAnother;
    forall i, j | 0 <= i < |fs| && 0 <= j < |fs| && i != j && fs[i].Some? && fs[j].Some?
      ensures Apart(fs[i].value.blocks, fs[j].value.blocks)
    {
      FunctionsApart(bcs, bases, i, j);
    }
  }

  /** Nothing that is compiled later starts before next. */
  predicate AllBefore(bcs: seq<Bytecode>, bases: seq<nat>, next: nat) {
    OneAfterAnother(bcs, bases)
    && (bcs != [] ==>
          var k := |bcs| - 1; bases[k] <= next && (WellFormed(bcs[k]) ==> Compile(bcs[k], bases[k]).next <= next))
  }

  lemma OneMore(bcs: seq<Bytecode>, bases: seq<nat>, bc: Bytecode, base: nat, next: nat)
    requires AllBefore(bcs, bases, base) && base <= next && (WellFormed(bc) ==> Compile(bc, base).next <= next)
    ensures AllBefore(bcs + [bc], bases + [base], next)
  {
    hide Compile, WellFormed;
  }

  /**
   * Compiles one bytecode after the other, those that raise included. At the end every function that was returned still
   * consists of the blocks that its bytecode was compiled to, and no two functions share a register.
   */
  method CompileSequence(vm: RubyVM, bcs: seq<Bytecode>) returns (fs: seq<Option<Function>>, ghost bases: seq<nat>)
    requires vm.Valid()
    modifies vm`functions, vm`funcN, vm.vars, vm.ids
    ensures vm.Valid() && vm.funcN == old(vm.funcN) + |bcs|
    ensures forall k :: k in old(vm.functions) ==> k in vm.functions && vm.functions[k] == old(vm.functions[k])
    ensures OneAfterAnother(bcs, bases) && AreCompiled(fs, bcs, bases) && AllApart(fs)
    ensures forall i :: 0 <= i < |fs| && fs[i].Some? ==> fresh(fs[i].value)
  {
    hide Compile, WellFormed, OneAfterAnother, AllApart, Apart;
    fs, bases := [], [];
    NoneYet(vm.ids.next);
    for n := 0 to |bcs|
      invariant vm.Valid() && vm.funcN == old(vm.funcN) + n
      invariant forall k :: k in old(vm.functions) ==> k in vm.functions && vm.functions[k] == old(vm.functions[k])
      invariant AllBefore(bcs[..n], bases, vm.ids.next) && AreCompiled(fs, bcs[..n], bases) && Distinct(fs)
      invariant forall i :: 0 <= i < |fs| && fs[i].Some? ==> fresh(fs[i].value)
    {
      ghost var base := vm.ids.next;
      var f := vm.CompileBytecode(bcs[n]);
      OneMore(bcs[..n], bases, bcs[n], base, vm.ids.next);
      assert bcs[..n + 1] == bcs[..n] + [bcs[n]];
      fs, bases := fs + [f], bases + [base];
    }
    assert bcs[..|bcs|] == bcs;
    CompiledApart(fs, bcs, bases);
    OrderOnly(bcs, bases, vm.ids.next);
  }

  lemma NoneYet(next: nat)
    ensures AllBefore([], [], next)
  {
  }

  lemma OrderOnly(bcs: seq<Bytecode>, bases: seq<nat>, next: nat)
    requires AllBefore(bcs, bases, next)
    ensures OneAfterAnother(bcs, bases)
  {
  }
}
