/** A module whose store is traced by lane, through a pointer with the usual three
    indices: it is accepted. */
module LaneWitness {
  import opened Words
  import opened Ops
  import opened Meaning
  import opened Instrumenter
  import opened InstrumentSound
  import opened ProbeFit
  import opened ProbeAccepted

  const BOUND := 60
  const WORKGROUP := 4

  /** The unsigned type is %6, its constant 7 is %10, the chain is %30. */
  function TheInsts(): seq<Inst> {
    [[Head(5, ENTRY_POINT), GL_COMPUTE, 4, NAME_MAIN, 0],
     [Head(4, DECORATE), 20, BUILT_IN, WORKGROUP_ID],
     [Head(4, DECORATE), 21, BUILT_IN, LOCAL_INVOCATION_ID],
     [Head(4, TYPE_INT), UINT_TYPE, 32, 0],
     [Head(4, TYPE_POINTER), 7, CLASS_INPUT, UINT_TYPE],
     [Head(4, TYPE_POINTER), 8, WORKGROUP, UINT_TYPE],
     [Head(4, CONSTANT), UINT_TYPE, 10, 7],
     [Head(5, FUNCTION), 2, 4, 0, 3],
     [Head(2, LABEL), 5],
     [Head(7, ACCESS_CHAIN), 8, 30, 31, 10, 10, 10],
     [Head(3, STORE), 30, 10]]
  }

  predicate Typed(op: nat) { op == CONSTANT || op == FUNCTION || op == ACCESS_CHAIN }

  function TheTarget(): Target { Target(30, 10, 105, Partial, Full) }

  function TheProbing(): Probing { Probing(Typed, Module([MAGIC, 0x1_0300, 0, BOUND, 0], TheInsts()), 0, 1, [TheTarget()]) }

  lemma ChainHere()
    ensures forall words :: ChainIs(TheInsts(), 30, words) <==> words == [31, 10, 10, 10]
  {
    var insts := TheInsts();
    assert DefinesChain(insts[9], 30) && insts[9][3..] == [31, 10, 10, 10];
    forall k: nat | k < |insts| && k != 9 ensures !DefinesChain(insts[k], 30) {}
  }

  lemma TenIsUnsigned()
    ensures TypedAs(Typed, TheInsts(), 10, UINT_TYPE)
  {
    var insts := TheInsts();
    assert TypedId(Typed, insts[6]) == Some((10, UINT_TYPE as Word));
    forall j | 6 < j < |insts| ensures TypedId(Typed, insts[j]).Some? ==> TypedId(Typed, insts[j]).value.0 != 10 {}
    assert TypedAt(Typed, insts, 10, UINT_TYPE, 6);
  }

  lemma BuiltinsHere()
    ensures ReadsBuiltins(TheInsts(), UINT_TYPE)
  {
    var insts := TheInsts();
    assert IsBuiltin(insts[1], WORKGROUP_ID) && IsBuiltin(insts[2], LOCAL_INVOCATION_ID) && IsPointerTo(insts[4], CLASS_INPUT, UINT_TYPE);
  }

  lemma AnchorsHere()
    ensures Anchored(TheProbing().m) && TheProbing().Uint() == UINT_TYPE && |TheInsts()| == 11
  {
    hide First;
    var insts := TheInsts();
    assert IsUint(insts[3]) && IsMain(insts[0]) && IsType(insts[3]) && IsFunction(insts[7]);
    assert forall k: nat :: k < |insts| && IsUint(insts[k]) ==> k == 3;
    assert forall k: nat :: k < |insts| && IsMain(insts[k]) ==> k == 0;
  }

  lemma StoredHere()
    ensures Stored(TheInsts(), 30, 10)
  {
    assert Op(TheInsts()[10]) == STORE;
  }

  lemma TheFit()
    ensures Fits(Typed, TheInsts(), UINT_TYPE, TheTarget()) && OldIds(TheInsts(), TheTarget(), BOUND)
  {
    hide TypedAs, ChainIs, ReadsBuiltins, TheInsts;
    ChainHere();
    TenIsUnsigned();
    BuiltinsHere();
    assert ChainIs(TheInsts(), 30, [31, 10, 10, 10]);
  }

  lemma TheParts()
    ensures var x := TheProbing();
      && x.m.insts == TheInsts() && x.typed == Typed && x.targets == [TheTarget()] && |x.m.header| == HEADER && x.m.Bound() == BOUND
      && Sensible(x.typed) && TheTarget().pointer == 30 && TheTarget().stored == 10 && TheTarget().role == Partial && TheTarget().phase == Full
      && BOUND + 5 < WORD && x.m.Bound() + 27 + 13 * |x.targets| + 55 * (11 + 32 + 13 * |x.targets|) < WORD
  {
    hide TheInsts;
  }

  /** A Partial store of the full path with three indices is probed. */
  lemma LaneAccepted()
    ensures TheProbing().Accepted() && |TheProbing().targets| == 1 && TraceBase(TheProbing().targets[0]).Some?
    ensures ChainIs(TheProbing().m.insts, TheProbing().targets[0].pointer, [31, 10, 10, 10])
  {
    hide Fits, TheInsts, Anchored, NewBound, DeclareBuffer, TheProbing, OldIds, Sensible, Stored, Probing.Accepted, ChainIs;
    var x := TheProbing();
    TheParts();
    AnchorsHere();
    TheFit();
    StoredHere();
    ChainHere();
    DeclaresIff(x.m, x.set_, x.binding);
    BoundSmall(x);
    forall inst, i: nat | inst in x.m.insts && Matches(x.targets, inst, i) ensures Fits(x.typed, x.m.insts, x.Uint(), x.targets[i]) {}
    AcceptedInSource(x);
  }
}
