/** Which stores can be probed, read off the instructions. */
module ProbeFit {
  import opened Words
  import opened Ops
  import opened Meaning
  import opened Instrumenter

  /** The last instruction that gives the id a type gives it this one. */
  ghost predicate TypedAs(typed: nat -> bool, insts: seq<Inst>, id: nat, t: Word) {
    exists k: nat :: TypedAt(typed, insts, id, t, k)
  }

  predicate TypedAt(typed: nat -> bool, insts: seq<Inst>, id: nat, t: Word, k: nat) {
    && k < |insts| && TypedId(typed, insts[k]) == Some((id, t))
    && forall j :: k < j < |insts| ==> (TypedId(typed, insts[j]).Some? ==> TypedId(typed, insts[j]).value.0 != id)
  }

  /** The last access chain that defines the pointer has these words: its base,
      then its indices. */
  ghost predicate ChainIs(insts: seq<Inst>, pointer: nat, words: seq<Word>) {
    exists k: nat :: k < |insts| && DefinesChain(insts[k], pointer) && words == insts[k][3..]
      && forall j :: k < j < |insts| ==> !DefinesChain(insts[j], pointer)
  }

  predicate DefinesChain(inst: Inst, pointer: nat) { Op(inst) == ACCESS_CHAIN && |inst| >= 4 && inst[2] == pointer }

  /** The builtins and a pointer type to read them through. */
  ghost predicate ReadsBuiltins(insts: seq<Inst>, uintT: Word) {
    && (exists k: nat :: k < |insts| && IsBuiltin(insts[k], WORKGROUP_ID))
    && (exists k: nat :: k < |insts| && IsBuiltin(insts[k], LOCAL_INVOCATION_ID))
    && exists k: nat :: k < |insts| && IsPointerTo(insts[k], CLASS_INPUT, uintT)
  }

  /** A final store needs a chain that ends in an unsigned index. */
  ghost predicate FinalFits(typed: nat -> bool, insts: seq<Inst>, uintT: Word, t: Target) {
    ReadsBuiltins(insts, uintT)
    && exists words :: ChainIs(insts, t.pointer, words) && words != [] && TypedAs(typed, insts, words[|words| - 1], uintT)
  }

  /** A store of the full path that is traced by lane needs at least three indices,
      the first two of them unsigned. */
  ghost predicate TraceFits(typed: nat -> bool, insts: seq<Inst>, uintT: Word, t: Target) {
    ReadsBuiltins(insts, uintT)
    && exists words :: ChainIs(insts, t.pointer, words) && |words| >= 4 && TypedAs(typed, insts, words[1], uintT) && TypedAs(typed, insts, words[2], uintT)
  }

  /** The store can be probed: its value is a word or a 32-bit float. */
  ghost predicate Fits(typed: nat -> bool, insts: seq<Inst>, uintT: Word, t: Target) {
    && (TypedAs(typed, insts, t.stored, UINT_TYPE) || TypedAs(typed, insts, t.stored, FLOAT_TYPE))
    && (t.role == FinalStore ==> FinalFits(typed, insts, uintT, t))
    && (t.phase == Full && (t.role == Partial || t.role == Reduction) ==> TraceFits(typed, insts, uintT, t))
  }

  // ---- the lookups find them ----

  lemma {:induction false} TypesIff(typed: nat -> bool, insts: seq<Inst>, id: nat, t: Word)
    ensures TypeIs(ResultTypes(typed, insts), id, t) <==> TypedAs(typed, insts, id, t)
  {
    if insts != [] {
      var front, inst := insts[..|insts| - 1], insts[|insts| - 1];
      TypesIff(typed, front, id, t);
      assert insts == front + [inst];
      TypedMore(typed, front, inst, id, t);
    }
  }

  lemma TypedMore(typed: nat -> bool, front: seq<Inst>, inst: Inst, id: nat, t: Word)
    ensures TypedAs(typed, front + [inst], id, t) <==>
      match TypedId(typed, inst) case Some((other, u)) => if other == id then u == t else TypedAs(typed, front, id, t) case None => TypedAs(typed, front, id, t)
  {
    hide TypedId;
    var insts := front + [inst];
    assert insts[|front|] == inst && forall k :: 0 <= k < |front| ==> insts[k] == front[k];
    if k: nat :| TypedAt(typed, insts, id, t, k) {
      if k < |front| {
        assert TypedAt(typed, front, id, t, k);
        assert TypedId(typed, insts[|front|]).Some? ==> TypedId(typed, insts[|front|]).value.0 != id;
      }
    }
    if TypedId(typed, inst) == Some((id, t)) { assert TypedAt(typed, insts, id, t, |front|); }
    if k: nat :| TypedAt(typed, front, id, t, k) {
      if TypedId(typed, inst).None? || TypedId(typed, inst).value.0 != id { assert TypedAt(typed, insts, id, t, k); }
    }
  }

  lemma {:induction false} ChainsIff(insts: seq<Inst>, pointer: nat, words: seq<Word>)
    ensures pointer in Chains(insts) && Chains(insts)[pointer] == words <==> ChainIs(insts, pointer, words)
  {
    if insts != [] {
      var front, inst := insts[..|insts| - 1], insts[|insts| - 1];
      ChainsIff(front, pointer, words);
      assert insts == front + [inst];
      ChainMore(front, inst, pointer, words);
    }
  }

  lemma ChainMore(front: seq<Inst>, inst: Inst, pointer: nat, words: seq<Word>)
    ensures ChainIs(front + [inst], pointer, words) <==> if DefinesChain(inst, pointer) then words == inst[3..] else ChainIs(front, pointer, words)
  {
    hide DefinesChain;
    assert DefinesChain(inst, pointer) ==> |inst| >= 4 by { DefinesLong(inst, pointer); }
    var insts := front + [inst];
    assert insts[|front|] == inst && forall k :: 0 <= k < |front| ==> insts[k] == front[k];
  }

  lemma DefinesLong(inst: Inst, pointer: nat)
    ensures DefinesChain(inst, pointer) ==> |inst| >= 4
  {}

  lemma OperandsIff(typed: nat -> bool, insts: seq<Inst>, uintT: Word, bound: nat, t: Target, words: seq<Word>)
    ensures var d := NamesOf(typed, insts, uintT, bound);
      (words != [] ==> (Operands(d, t) == words <==> ChainIs(insts, t.pointer, words)))
  {
    ChainsIff(insts, t.pointer, words);
  }

  lemma BuiltinsIff(typed: nat -> bool, insts: seq<Inst>, uintT: Word, bound: nat)
    ensures var d := NamesOf(typed, insts, uintT, bound);
      d.groupVar.Some? && d.localVar.Some? && d.ptrInput.Some? <==> ReadsBuiltins(insts, uintT)
  {
    hide First;
    FirstIff(BuiltinNamed(WORKGROUP_ID), insts);
    FirstIff(BuiltinNamed(LOCAL_INVOCATION_ID), insts);
    FirstIff(InputPointer(uintT), insts);
  }

  lemma FirstIff(p: Inst -> bool, insts: seq<Inst>)
    ensures First(p, insts).Some? <==> exists k: nat :: k < |insts| && p(insts[k])
  {}

  ghost predicate FinalFound(d: Names, t: Target) {
    && d.groupVar.Some? && d.localVar.Some? && d.ptrInput.Some?
    && Operands(d, t) != [] && TypeIs(d.types, Operands(d, t)[|Operands(d, t)| - 1], d.uintT)
  }

  ghost predicate TraceFound(d: Names, t: Target) {
    && d.groupVar.Some? && d.localVar.Some? && d.ptrInput.Some?
    && |Operands(d, t)| >= 4 && TypeIs(d.types, Operands(d, t)[1], d.uintT) && TypeIs(d.types, Operands(d, t)[2], d.uintT)
  }

  lemma RefusalParts(d: Names, t: Target)
    ensures Refusal(d, t).None? <==>
      && (TypeIs(d.types, t.stored, UINT_TYPE) || TypeIs(d.types, t.stored, FLOAT_TYPE))
      && (t.role == FinalStore ==> FinalFound(d, t))
      && (t.phase == Full && (t.role == Partial || t.role == Reduction) ==> TraceFound(d, t))
  {
    hide Operands, TypeIs;
  }

  lemma FinalIff(typed: nat -> bool, insts: seq<Inst>, uintT: Word, bound: nat, t: Target)
    ensures FinalFound(NamesOf(typed, insts, uintT, bound), t) <==> FinalFits(typed, insts, uintT, t)
  {
    hide TypedAs, ChainIs, ReadsBuiltins, ResultTypes, Chains, First, Operands;
    var words := Operands(NamesOf(typed, insts, uintT, bound), t);
    BuiltinsIff(typed, insts, uintT, bound);
    if FinalFits(typed, insts, uintT, t) {
      var other :| ChainIs(insts, t.pointer, other) && other != [] && TypedAs(typed, insts, other[|other| - 1], uintT);
      OperandsIff(typed, insts, uintT, bound, t, other);
    }
    if words != [] {
      OperandsIff(typed, insts, uintT, bound, t, words);
      TypesIff(typed, insts, words[|words| - 1], uintT);
    }
  }

  lemma TraceIff(typed: nat -> bool, insts: seq<Inst>, uintT: Word, bound: nat, t: Target)
    ensures TraceFound(NamesOf(typed, insts, uintT, bound), t) <==> TraceFits(typed, insts, uintT, t)
  {
    hide TypedAs, ChainIs, ReadsBuiltins, ResultTypes, Chains, First, Operands;
    var words := Operands(NamesOf(typed, insts, uintT, bound), t);
    BuiltinsIff(typed, insts, uintT, bound);
    if TraceFits(typed, insts, uintT, t) {
      var other :| ChainIs(insts, t.pointer, other) && |other| >= 4 && TypedAs(typed, insts, other[1], uintT) && TypedAs(typed, insts, other[2], uintT);
      OperandsIff(typed, insts, uintT, bound, t, other);
    }
    if |words| >= 4 {
      OperandsIff(typed, insts, uintT, bound, t, words);
      TypesIff(typed, insts, words[1], uintT);
      TypesIff(typed, insts, words[2], uintT);
    }
  }

  /** A matched store is refused exactly if it cannot be probed. */
  lemma RefusedIff(typed: nat -> bool, insts: seq<Inst>, uintT: Word, bound: nat, t: Target)
    ensures Refusal(NamesOf(typed, insts, uintT, bound), t).None? <==> Fits(typed, insts, uintT, t)
  {
    hide Refusal, TypedAs, FinalFits, TraceFits, FinalFound, TraceFound, TypeIs, ResultTypes;
    RefusalParts(NamesOf(typed, insts, uintT, bound), t);
    TypesIff(typed, insts, t.stored, UINT_TYPE);
    TypesIff(typed, insts, t.stored, FLOAT_TYPE);
    FinalIff(typed, insts, uintT, bound, t);
    TraceIff(typed, insts, uintT, bound, t);
  }

  // ---- the targets ----

  /** The store is target `i`'s, and no later target's. */
  predicate Matches(targets: seq<Target>, inst: Inst, i: nat) {
    && i < |targets| && Op(inst) == STORE && |inst| >= 3 && targets[i].pointer == inst[1] && targets[i].stored == inst[2]
    && forall j :: i < j < |targets| ==> !(targets[j].pointer == inst[1] && targets[j].stored == inst[2])
  }

  lemma {:induction false} MatchesIff(targets: seq<Target>, inst: Inst, i: nat)
    ensures FindTarget(targets, inst) == Some(i) <==> Matches(targets, inst, i)
  {
    if targets != [] { MatchesIff(targets[..|targets| - 1], inst, i); }
  }

  // ---- the buffer's declarations do not count ----

  /** An instruction that gives no old id a type, no pointer its chain, and is
      neither a builtin nor an input pointer. */
  predicate Beside(typed: nat -> bool, bound: nat, inst: Inst) {
    && (TypedId(typed, inst).Some? ==> TypedId(typed, inst).value.0 >= bound)
    && Op(inst) != ACCESS_CHAIN && !(Op(inst) == DECORATE && |inst| >= 3 && inst[2] == BUILT_IN)
    && !(Op(inst) == TYPE_POINTER && |inst| >= 3 && inst[2] == CLASS_INPUT)
  }

  predicate AllBeside(typed: nat -> bool, bound: nat, insts: seq<Inst>) {
    forall i :: 0 <= i < |insts| ==> Beside(typed, bound, insts[i])
  }

  /** The two lists say the same about old ids. */
  ghost predicate Alike(typed: nat -> bool, bound: nat, a: seq<Inst>, b: seq<Inst>) {
    && (forall id: nat, t: Word :: id < bound ==> (TypeIs(ResultTypes(typed, a), id, t) <==> TypeIs(ResultTypes(typed, b), id, t)))
    && Chains(a) == Chains(b)
    && forall inst :: !Beside(typed, bound, inst) ==> (inst in a <==> inst in b)
  }

  lemma {:induction false} AlikeBehind(typed: nat -> bool, bound: nat, a: seq<Inst>, b: seq<Inst>, c: seq<Inst>)
    requires Alike(typed, bound, a, b)
    ensures Alike(typed, bound, a + c, b + c)
    decreases |c|
  {
    hide Alike;
    if c == [] {
      assert a + c == a && b + c == b;
    } else {
      var front, inst := c[..|c| - 1], c[|c| - 1];
      AlikeBehind(typed, bound, a, b, front);
      assert a + c == a + front + [inst] && b + c == b + front + [inst];
      AlikeNext(typed, bound, a + front, b + front, inst);
    }
  }

  lemma AlikeNext(typed: nat -> bool, bound: nat, a: seq<Inst>, b: seq<Inst>, inst: Inst)
    requires Alike(typed, bound, a, b)
    ensures Alike(typed, bound, a + [inst], b + [inst])
  {
    hide Beside, TypedId;
    assert (a + [inst])[..|a|] == a && (b + [inst])[..|b|] == b;
    forall id: nat, t: Word | id < bound
      ensures TypeIs(ResultTypes(typed, a + [inst]), id, t) <==> TypeIs(ResultTypes(typed, b + [inst]), id, t)
    {
      assert TypeIs(ResultTypes(typed, a), id, t) <==> TypeIs(ResultTypes(typed, b), id, t);
    }
    assert Chains(a + [inst]) == Chains(b + [inst]);
  }

  lemma {:induction false} AlikeMore(typed: nat -> bool, bound: nat, a: seq<Inst>, x: seq<Inst>)
    requires AllBeside(typed, bound, x)
    ensures Alike(typed, bound, a, a + x)
    decreases |x|
  {
    if x == [] {
      assert a + x == a;
    } else {
      AlikeMore(typed, bound, a, x[..|x| - 1]);
      assert (a + x)[..|a + x| - 1] == a + x[..|x| - 1];
      assert x == x[..|x| - 1] + [x[|x| - 1]];
    }
  }

  lemma AlikeSplice(typed: nat -> bool, bound: nat, a: seq<Inst>, insts: seq<Inst>, at: nat, x: seq<Inst>)
    requires at <= |insts| && Alike(typed, bound, a, insts) && AllBeside(typed, bound, x)
    ensures Alike(typed, bound, a, Splice(insts, at, x))
  {
    hide ResultTypes, Chains, Beside, AllBeside;
    AlikeMore(typed, bound, insts[..at], x);
    AlikeBehind(typed, bound, insts[..at], insts[..at] + x, insts[at..]);
    assert insts[..at] + insts[at..] == insts;
  }

  lemma AlikeReplace(typed: nat -> bool, bound: nat, insts: seq<Inst>, e: nat, y: Inst)
    requires e < |insts| && Beside(typed, bound, insts[e]) && Beside(typed, bound, y)
    ensures Alike(typed, bound, insts, insts[e := y])
  {
    hide ResultTypes, Chains, Beside;
    var front, back := insts[..e], insts[e + 1..];
    AlikeMore(typed, bound, front, [insts[e]]);
    AlikeMore(typed, bound, front, [y]);
    AlikeBehind(typed, bound, front, front + [insts[e]], back);
    AlikeBehind(typed, bound, front, front + [y], back);
    assert front + [insts[e]] + back == insts && front + [y] + back == insts[e := y];
  }

  /** Entry points and decorations have no result, and an old id is no new one. */
  predicate Sensible(typed: nat -> bool) {
    !typed(ENTRY_POINT) && !typed(DECORATE) && !typed(MEMBER_DECORATE) && !typed(TYPE_POINTER) && !typed(TYPE_RUNTIME_ARRAY) && !typed(TYPE_STRUCT)
  }

  lemma AdditionsBeside(typed: nat -> bool, bound: nat, set_: Word, binding: Word, uintT: Word)
    requires Sensible(typed) && bound + 5 < WORD
    ensures AllBeside(typed, bound, Annotations(bound, set_, binding)) && AllBeside(typed, bound, BufferDeclarations(bound, uintT))
  {}

  lemma InterfaceBeside(typed: nat -> bool, bound: nat, inst: Inst, id: nat)
    requires Sensible(typed) && IsMain(inst) && |inst| < 65535
    ensures Beside(typed, bound, inst) && Beside(typed, bound, WithInterface(inst, id))
  {}

  lemma LinesAlike(typed: nat -> bool, m: Module, set_: Word, binding: Word)
    requires |m.header| == HEADER && DeclareBuffer(m, set_, binding).Ok? && Sensible(typed) && m.Bound() + 5 < WORD
    ensures Alike(typed, m.Bound(), m.insts, DeclareBuffer(m, set_, binding).value)
  {
    hide First, Annotations, BufferDeclarations, Splice, Alike, AllBeside, Beside, WithInterface;
    var bound: nat := m.Bound();
    var u, e := First(IsUint, m.insts).value, First(IsMain, m.insts).value;
    var y := WithInterface(m.insts[e], bound + 3);
    InterfaceBeside(typed, bound, m.insts[e], bound + 3);
    AlikeReplace(typed, bound, m.insts, e, y);
    var lines := m.insts[e := y];
    var t := First(IsType, lines).value;
    AdditionsBeside(typed, bound, set_, binding, m.insts[u][1]);
    AlikeSplice(typed, bound, m.insts, lines, t, Annotations(bound, set_, binding));
    var annotated := Splice(lines, t, Annotations(bound, set_, binding));
    AlikeSplice(typed, bound, m.insts, annotated, First(IsFunction, annotated).value, BufferDeclarations(bound, m.insts[u][1]));
  }

  /** The ids that are looked up are the module's own. */
  ghost predicate OldIds(insts: seq<Inst>, t: Target, bound: nat) {
    && t.stored < bound
    && forall words :: ChainIs(insts, t.pointer, words) ==> forall i :: 0 <= i < |words| ==> words[i] < bound
  }

  lemma BuiltinsAlike(typed: nat -> bool, bound: nat, a: seq<Inst>, b: seq<Inst>, uintT: Word)
    requires Alike(typed, bound, a, b)
    ensures ReadsBuiltins(a, uintT) ==> ReadsBuiltins(b, uintT)
  {
    if ReadsBuiltins(a, uintT) {
      var g: nat :| g < |a| && IsBuiltin(a[g], WORKGROUP_ID);
      var l: nat :| l < |a| && IsBuiltin(a[l], LOCAL_INVOCATION_ID);
      var q: nat :| q < |a| && IsPointerTo(a[q], CLASS_INPUT, uintT);
      assert a[g] in a && a[l] in a && a[q] in a;
      assert a[g] in b && a[l] in b && a[q] in b;
    }
  }

  lemma ChainsAlike(typed: nat -> bool, bound: nat, a: seq<Inst>, b: seq<Inst>, pointer: nat, words: seq<Word>)
    requires Alike(typed, bound, a, b)
    ensures ChainIs(a, pointer, words) <==> ChainIs(b, pointer, words)
  {
    hide Alike;
    assert Chains(a) == Chains(b) by { AlikeChains(typed, bound, a, b); }
    ChainsIff(a, pointer, words);
    ChainsIff(b, pointer, words);
  }

  lemma AlikeChains(typed: nat -> bool, bound: nat, a: seq<Inst>, b: seq<Inst>)
    requires Alike(typed, bound, a, b)
    ensures Chains(a) == Chains(b)
  {}

  lemma TypedAlike(typed: nat -> bool, bound: nat, a: seq<Inst>, b: seq<Inst>, id: nat, t: Word)
    requires Alike(typed, bound, a, b) && id < bound
    ensures TypedAs(typed, a, id, t) <==> TypedAs(typed, b, id, t)
  {
    hide TypedAs, Chains, Beside, ResultTypes;
    TypesIff(typed, a, id, t);
    TypesIff(typed, b, id, t);
  }

  /** So whether a store can be probed is seen in the module itself. */
  lemma FitsInSource(typed: nat -> bool, m: Module, set_: Word, binding: Word, uintT: Word, t: Target)
    requires |m.header| == HEADER && DeclareBuffer(m, set_, binding).Ok? && Sensible(typed) && m.Bound() + 5 < WORD
    requires OldIds(m.insts, t, m.Bound())
    ensures Fits(typed, DeclareBuffer(m, set_, binding).value, uintT, t) <==> Fits(typed, m.insts, uintT, t)
  {
    hide Alike, TypedAs, ChainIs, ReadsBuiltins, DeclareBuffer, Sensible;
    var a, b, bound := m.insts, DeclareBuffer(m, set_, binding).value, m.Bound();
    LinesAlike(typed, m, set_, binding);
    BuiltinsAlike(typed, bound, a, b, uintT);
    AlikeTurned(typed, bound, a, b);
    BuiltinsAlike(typed, bound, b, a, uintT);
    forall words: seq<Word> ensures ChainIs(a, t.pointer, words) <==> ChainIs(b, t.pointer, words) { ChainsAlike(typed, bound, a, b, t.pointer, words); }
    forall id: nat, u: Word | id < bound ensures TypedAs(typed, a, id, u) <==> TypedAs(typed, b, id, u) { TypedAlike(typed, bound, a, b, id, u); }
  }

  lemma AlikeTurned(typed: nat -> bool, bound: nat, a: seq<Inst>, b: seq<Inst>)
    requires Alike(typed, bound, a, b)
    ensures Alike(typed, bound, b, a)
  {}
}
