/** When the instrumenter returns. */
module ProbeAccepted {
  import opened Words
  import opened Ops
  import opened Meaning
  import opened Instrumenter
  import opened InstrumentSound
  import opened ProbeFit

  /** What it looks for in every module. */
  predicate Anchored(m: Module) {
    && First(IsUint, m.insts).Some? && First(IsType, m.insts).Some? && First(IsFunction, m.insts).Some?
    && match First(IsMain, m.insts) case Some(e) => |m.insts[e]| < 65535 case None => false
  }

  lemma FirstIn(p: Inst -> bool, insts: seq<Inst>, inst: Inst)
    requires inst in insts && p(inst)
    ensures First(p, insts).Some?
  {}

  lemma DeclaresIff(m: Module, set_: Word, binding: Word)
    requires |m.header| == HEADER
    ensures DeclareBuffer(m, set_, binding).Ok? <==> Anchored(m)
  {
    hide Annotations, BufferDeclarations, First;
    var bound: nat := m.Bound();
    if First(IsMain, m.insts).Some? && |m.insts[First(IsMain, m.insts).value]| < 65535 {
      var e := First(IsMain, m.insts).value;
      var y := WithInterface(m.insts[e], bound + 3);
      var lines := m.insts[e := y];
      SameFirst(IsType, m.insts, e, y);
      SameFirst(IsFunction, m.insts, e, y);
      if First(IsType, lines).Some? {
        var t, x := First(IsType, lines).value, Annotations(bound, set_, binding);
        NoFunctions(bound, set_, binding);
        SpliceFirst(IsFunction, lines, t, x);
      }
    }
  }

  lemma SameFirst(p: Inst -> bool, insts: seq<Inst>, e: nat, y: Inst)
    requires e < |insts| && !p(insts[e]) && !p(y)
    ensures First(p, insts[e := y]).Some? <==> First(p, insts).Some?
  {
    hide First;
    var out := insts[e := y];
    if First(p, insts).Some? { assert out[First(p, insts).value] == insts[First(p, insts).value]; }
    if First(p, out).Some? { assert out[First(p, out).value] == insts[First(p, out).value]; }
  }

  lemma NoFunctions(bound: nat, set_: Word, binding: Word)
    ensures forall i :: 0 <= i < |Annotations(bound, set_, binding)| ==> !IsFunction(Annotations(bound, set_, binding)[i])
  {}

  lemma SpliceFirst(p: Inst -> bool, insts: seq<Inst>, at: nat, x: seq<Inst>)
    requires at <= |insts| && forall i :: 0 <= i < |x| ==> !p(x[i])
    ensures First(p, Splice(insts, at, x)).Some? <==> First(p, insts).Some?
  {
    hide First;
    var out := Splice(insts, at, x);
    if First(p, insts).Some? {
      var inst := insts[First(p, insts).value];
      SpliceHas(insts, at, x, inst);
      FirstIn(p, out, inst);
    }
    if First(p, out).Some? {
      var inst := out[First(p, out).value];
      SpliceHas(insts, at, x, inst);
      FirstIn(p, insts, inst);
    }
  }

  // ---- the stores ----

  /** No matched store is refused. */
  ghost predicate NoneRefused(d: Names, targets: seq<Target>, insts: seq<Inst>) {
    forall k :: 0 <= k < |insts| && FindTarget(targets, insts[k]).Some? ==> Refusal(d, targets[FindTarget(targets, insts[k]).value]).None?
  }

  /** The first id after the probes of `insts`. */
  function EndOf(d: Names, targets: seq<Target>, insts: seq<Inst>, n: nat): nat {
    if insts == [] then n
    else
      var before, inst := EndOf(d, targets, insts[..|insts| - 1], n), insts[|insts| - 1];
      match FindTarget(targets, inst) case Some(i) => ProbeEnd(d, targets[i], before) case None => before
  }

  lemma {:induction false} ProbesIff(d: Names, p: Pool, targets: seq<Target>, insts: seq<Inst>, n: nat)
    ensures ProbeAll(d, p, targets, insts, n).Ok? <==> NoneRefused(d, targets, insts)
    ensures ProbeAll(d, p, targets, insts, n).Ok? ==> ProbeAll(d, p, targets, insts, n).value.next == EndOf(d, targets, insts, n)
  {
    hide Block, Refusal, ProbeEnd, FindTarget;
    if insts != [] {
      var front, inst := insts[..|insts| - 1], insts[|insts| - 1];
      ProbesIff(d, p, targets, front, n);
      assert insts[|front|] == inst;
      assert forall k :: 0 <= k < |front| ==> front[k] == insts[k];
      if NoneRefused(d, targets, insts) { assert NoneRefused(d, targets, front); }
    }
  }

  /** The module with the constants, before its stores are probed. */
  function WithConstants(x: Probing): seq<Inst> {
    if x.targets == [] || |x.m.header| != HEADER || First(IsFunction, x.Lines()).None? then x.Lines()
    else Splice(x.Lines(), First(IsFunction, x.Lines()).value, Prelude(x.Uint(), x.targets, x.m.Bound() + 5).constants)
  }

  function NewBound(x: Probing): nat
    requires |x.m.header| == HEADER
  {
    if x.targets == [] then x.m.Bound() + 5
    else EndOf(x.Found(), x.targets, WithConstants(x), Prelude(x.Uint(), x.targets, x.m.Bound() + 5).next)
  }

  /** Every store that a target matches can be probed. */
  ghost predicate StoresFit(x: Probing) {
    forall inst, i: nat :: inst in x.m.insts && Matches(x.targets, inst, i) ==> Fits(x.typed, x.Lines(), x.Uint(), x.targets[i])
  }

  /** The instrumenter returns exactly if it finds its anchors, every target is
      stored somewhere, every matched store can be probed, and the new bound fits a
      word. */
  lemma AcceptedIff(x: Probing)
    requires |x.m.header| == HEADER
    ensures x.Accepted() <==>
      && Anchored(x.m) && NewBound(x) < WORD
      && (x.targets != [] ==> StoresFit(x) && forall i :: 0 <= i < |x.targets| ==> Stored(x.m.insts, x.targets[i].pointer, x.targets[i].stored))
  {
    hide DeclareBuffer, First, NamesOf, Prelude, ProbeAll, Stored, NoneRefused, EndOf, Splice, StoresFit, WithConstants;
    DeclaresIff(x.m, x.set_, x.binding);
    if Anchored(x.m) {
      LinesHaveFunction(x);
      AcceptedParts(x);
      if x.targets != [] {
        NoneRefusedIff(x);
        MissingIff(x);
      }
    }
  }

  lemma AcceptedParts(x: Probing)
    requires |x.m.header| == HEADER && Anchored(x.m) && DeclareBuffer(x.m, x.set_, x.binding).Ok? && First(IsFunction, x.Lines()).Some?
    ensures x.Accepted() <==>
      NewBound(x) < WORD && (x.targets != [] ==> NoneRefused(x.Found(), x.targets, WithConstants(x)) && !Missing(x.targets, WithConstants(x)))
  {
    hide DeclareBuffer, First, NamesOf, Prelude, ProbeAll, Missing, NoneRefused, EndOf, Splice;
    ProbesIff(x.Found(), Prelude(x.Uint(), x.targets, x.m.Bound() + 5), x.targets, WithConstants(x), Prelude(x.Uint(), x.targets, x.m.Bound() + 5).next);
  }

  // ---- only the module's own stores are looked at ----

  /** The module with something added that stores nothing. */
  ghost predicate SameStores(a: seq<Inst>, b: seq<Inst>) { forall inst :: Op(inst) == STORE ==> (inst in a <==> inst in b) }

  predicate StoresNothing(insts: seq<Inst>) { forall i :: 0 <= i < |insts| ==> Op(insts[i]) != STORE }

  lemma SpliceStores(a: seq<Inst>, insts: seq<Inst>, at: nat, x: seq<Inst>)
    requires at <= |insts| && SameStores(a, insts) && StoresNothing(x)
    ensures SameStores(a, Splice(insts, at, x))
  {
    hide Op;
    forall inst | Op(inst) == STORE ensures inst in insts <==> inst in Splice(insts, at, x) {
      assert insts == insts[..at] + insts[at..];
      assert inst !in x;
    }
  }

  lemma ReplaceStores(insts: seq<Inst>, e: nat, y: Inst)
    requires e < |insts| && Op(insts[e]) != STORE && Op(y) != STORE
    ensures SameStores(insts, insts[e := y])
  {
    hide Op;
    var out := insts[e := y];
    forall inst | Op(inst) == STORE ensures inst in insts <==> inst in out {
      if inst in insts { var k :| 0 <= k < |insts| && insts[k] == inst; assert out[k] == inst; }
    }
  }

  lemma NothingStored(x: Probing)
    requires |x.m.header| == HEADER
    ensures StoresNothing(Annotations(x.m.Bound(), x.set_, x.binding))
    ensures forall u: Word :: StoresNothing(BufferDeclarations(x.m.Bound(), u))
  {}

  lemma LinesStores(x: Probing)
    requires |x.m.header| == HEADER && DeclareBuffer(x.m, x.set_, x.binding).Ok?
    ensures SameStores(x.m.insts, x.Lines())
  {
    hide First, Annotations, BufferDeclarations, Splice, SameStores;
    var bound: nat := x.m.Bound();
    var u, e := First(IsUint, x.m.insts).value, First(IsMain, x.m.insts).value;
    var y := WithInterface(x.m.insts[e], bound + 3);
    ReplaceStores(x.m.insts, e, y);
    var lines := x.m.insts[e := y];
    var t := First(IsType, lines).value;
    NothingStored(x);
    SpliceStores(x.m.insts, lines, t, Annotations(bound, x.set_, x.binding));
    var annotated := Splice(lines, t, Annotations(bound, x.set_, x.binding));
    SpliceStores(x.m.insts, annotated, First(IsFunction, annotated).value, BufferDeclarations(bound, x.m.insts[u][1]));
  }

  lemma WithConstantsStores(x: Probing)
    requires |x.m.header| == HEADER && DeclareBuffer(x.m, x.set_, x.binding).Ok?
    ensures SameStores(x.m.insts, WithConstants(x))
  {
    hide First, Splice, SameStores, DeclareBuffer;
    LinesStores(x);
    if x.targets != [] && First(IsFunction, x.Lines()).Some? {
      var p := Prelude(x.Uint(), x.targets, x.m.Bound() + 5);
      ConstantsOnly(x.Uint(), x.targets, x.m.Bound() + 5);
      SpliceStores(x.m.insts, x.Lines(), First(IsFunction, x.Lines()).value, p.constants);
    }
  }

  lemma ConstantsOnly(uintT: Word, targets: seq<Target>, next: nat)
    ensures var p := Prelude(uintT, targets, next); StoresNothing(p.constants)
  {
    hide RecordRequests, CommonRequests, Serve;
    ServedOnly(uintT, Pool(map[], map[], [], next), RecordRequests(targets) + CommonRequests());
  }

  lemma {:induction false} ServedOnly(uintT: Word, p: Pool, rs: seq<Request>)
    requires StoresNothing(p.constants)
    ensures var q := Serve(uintT, p, rs); StoresNothing(q.constants)
  {
    if rs != [] {
      ServedOnly(uintT, p, rs[..|rs| - 1]);
      AskedOnly(uintT, Serve(uintT, p, rs[..|rs| - 1]), rs[|rs| - 1]);
    }
  }

  lemma AskedOnly(uintT: Word, p: Pool, r: Request)
    requires StoresNothing(p.constants)
    ensures var q := Ask(uintT, p, r); StoresNothing(q.constants)
  {
    assert Op(ConstantInst(uintT, p.next, Number(r))) == CONSTANT;
  }

  lemma NoneRefusedIff(x: Probing)
    requires |x.m.header| == HEADER && DeclareBuffer(x.m, x.set_, x.binding).Ok?
    ensures NoneRefused(x.Found(), x.targets, WithConstants(x)) <==> StoresFit(x)
  {
    hide WithConstants, Refusal, Fits, NamesOf, DeclareBuffer, First;
    var all := WithConstants(x);
    WithConstantsStores(x);
    forall t: Target ensures Refusal(x.Found(), t).None? <==> Fits(x.typed, x.Lines(), x.Uint(), t) {
      RefusedIff(x.typed, x.Lines(), x.Uint(), x.m.Bound(), t);
    }
    forall inst: Inst, i: nat ensures FindTarget(x.targets, inst) == Some(i) <==> Matches(x.targets, inst, i) { MatchesIff(x.targets, inst, i); }
    if NoneRefused(x.Found(), x.targets, all) {
      forall inst, i: nat | inst in x.m.insts && Matches(x.targets, inst, i) ensures Fits(x.typed, x.Lines(), x.Uint(), x.targets[i]) {
        assert inst in all;
        var k :| 0 <= k < |all| && all[k] == inst;
      }
    }
    if StoresFit(x) {
      forall k | 0 <= k < |all| && FindTarget(x.targets, all[k]).Some? ensures Refusal(x.Found(), x.targets[FindTarget(x.targets, all[k]).value]).None? {
        assert Matches(x.targets, all[k], FindTarget(x.targets, all[k]).value);
        assert all[k] in x.m.insts;
      }
    }
  }

  lemma MissingIff(x: Probing)
    requires |x.m.header| == HEADER && DeclareBuffer(x.m, x.set_, x.binding).Ok?
    ensures Missing(x.targets, WithConstants(x)) <==> !(forall i :: 0 <= i < |x.targets| ==> Stored(x.m.insts, x.targets[i].pointer, x.targets[i].stored))
  {
    hide WithConstants, DeclareBuffer, SameStores;
    WithConstantsStores(x);
    forall i | 0 <= i < |x.targets|
      ensures Stored(WithConstants(x), x.targets[i].pointer, x.targets[i].stored) <==> Stored(x.m.insts, x.targets[i].pointer, x.targets[i].stored)
    {
      StoredSame(x.m.insts, WithConstants(x), x.targets[i].pointer, x.targets[i].stored);
    }
  }

  lemma StoredSame(a: seq<Inst>, b: seq<Inst>, pointer: Word, stored: Word)
    requires SameStores(a, b)
    ensures Stored(a, pointer, stored) <==> Stored(b, pointer, stored)
  {
    hide Op;
    if Stored(a, pointer, stored) {
      var k :| 0 <= k < |a| && Op(a[k]) == STORE && |a[k]| >= 3 && a[k][1] == pointer && a[k][2] == stored;
      assert a[k] in b;
    }
    if Stored(b, pointer, stored) {
      var k :| 0 <= k < |b| && Op(b[k]) == STORE && |b[k]| >= 3 && b[k][1] == pointer && b[k][2] == stored;
      assert b[k] in a;
    }
  }

  lemma LinesHaveFunction(x: Probing)
    requires |x.m.header| == HEADER && DeclareBuffer(x.m, x.set_, x.binding).Ok?
    ensures First(IsFunction, x.Lines()).Some?
  {
    hide First, Annotations, BufferDeclarations;
    var bound: nat := x.m.Bound();
    var u, e := First(IsUint, x.m.insts).value, First(IsMain, x.m.insts).value;
    var lines := x.m.insts[e := WithInterface(x.m.insts[e], bound + 3)];
    var annotated := Splice(lines, First(IsType, lines).value, Annotations(bound, x.set_, x.binding));
    NoFunctionDeclared(bound, x.m.insts[u][1]);
    SpliceFirst(IsFunction, annotated, First(IsFunction, annotated).value, BufferDeclarations(bound, x.m.insts[u][1]));
  }

  lemma NoFunctionDeclared(bound: nat, uintT: Word)
    ensures forall i :: 0 <= i < |BufferDeclarations(bound, uintT)| ==> !IsFunction(BufferDeclarations(bound, uintT)[i])
  {}

  /** From the module alone: its matched stores can be probed, read off its own
      instructions. */
  lemma AcceptedInSource(x: Probing)
    requires |x.m.header| == HEADER && x.m.Bound() + 5 < WORD && Sensible(x.typed)
    requires forall i :: 0 <= i < |x.targets| ==> OldIds(x.m.insts, x.targets[i], x.m.Bound())
    ensures x.Accepted() <==>
      && Anchored(x.m) && NewBound(x) < WORD
      && (x.targets != [] ==>
            && (forall inst, i: nat :: inst in x.m.insts && Matches(x.targets, inst, i) ==> Fits(x.typed, x.m.insts, x.Uint(), x.targets[i]))
            && forall i :: 0 <= i < |x.targets| ==> Stored(x.m.insts, x.targets[i].pointer, x.targets[i].stored))
  {
    hide Anchored, NewBound, Fits, Sensible, Stored, OldIds, First, Splice, DeclareBuffer, Probing.Accepted, Probing.Uint;
    AcceptedIff(x);
    DeclaresIff(x.m, x.set_, x.binding);
    if Anchored(x.m) {
      forall inst, i: nat | inst in x.m.insts && Matches(x.targets, inst, i)
        ensures Fits(x.typed, x.Lines(), x.Uint(), x.targets[i]) <==> Fits(x.typed, x.m.insts, x.Uint(), x.targets[i])
      {
        FitsInSource(x.typed, x.m, x.set_, x.binding, x.Uint(), x.targets[i]);
      }
    }
  }

  // ---- the new bound ----

  lemma {:induction false} EndSmall(d: Names, targets: seq<Target>, insts: seq<Inst>, n: nat)
    ensures EndOf(d, targets, insts, n) <= n + 55 * |insts|
  {
    if insts != [] { EndSmall(d, targets, insts[..|insts| - 1], n); }
  }

  lemma {:induction false} ServeSmall(uintT: Word, p: Pool, rs: seq<Request>)
    ensures Serve(uintT, p, rs).next <= p.next + |rs| && |Serve(uintT, p, rs).constants| <= |p.constants| + |rs|
  {
    if rs != [] { ServeSmall(uintT, p, rs[..|rs| - 1]); }
  }

  lemma {:induction false} RequestsMany(targets: seq<Target>)
    ensures |RecordRequests(targets)| == 13 * |targets|
  {
    if targets != [] { RequestsMany(targets[..|targets| - 1]); }
  }

  /** Probing a small module leaves the bound small. */
  lemma BoundSmall(x: Probing)
    requires |x.m.header| == HEADER && DeclareBuffer(x.m, x.set_, x.binding).Ok?
    ensures NewBound(x) <= x.m.Bound() + 27 + 13 * |x.targets| + 55 * (|x.m.insts| + 32 + 13 * |x.targets|)
  {
    hide First, EndOf, Serve, RecordRequests;
    var start := Pool(map[], map[], [], x.m.Bound() + 5);
    RequestsMany(x.targets);
    ServeSmall(x.Uint(), start, RecordRequests(x.targets) + CommonRequests());
    LinesLength(x);
    EndSmall(x.Found(), x.targets, WithConstants(x), Prelude(x.Uint(), x.targets, x.m.Bound() + 5).next);
  }

  lemma LinesLength(x: Probing)
    requires |x.m.header| == HEADER && DeclareBuffer(x.m, x.set_, x.binding).Ok?
    ensures |x.Lines()| == |x.m.insts| + 10
  {
    hide First;
  }
}
