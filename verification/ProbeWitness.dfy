/** A module, a dispatch and a world that meet every premise of the probe
    theorems; and what happens to the same module if the probe's descriptor is one
    that it uses itself. */
module ProbeWitness {
  import opened Words
  import opened Ops
  import opened Machine
  import opened Translation
  import opened Reproduction
  import opened Meaning
  import opened Instrumenter
  import opened ProbeBlocks
  import opened InstrumentSound
  import opened ProbeSound
  import opened ProbeSharing
  import opened ProbeAccepted
  import L = ProbeLog
  import E = ProbeEvents
  import S = ProbeRun
  import R = ProbeProtocol
  import I = ProbeIds

  // ---- the module: it stores the constant 7 to its only buffer ----

  const RETURN := 253
  const FUNCTION_END := 56
  const BUFFER := 9
  const SEVEN := 10
  const BOUND := 60

  /** The id of the constant 0: the one the instrumenter takes it to have, or the next. */
  type Zero = z: Word | z == 52 || z == 53 witness 52

  function Decls(zero: Zero): seq<Inst> {
    [[Head(5, ENTRY_POINT), GL_COMPUTE, 4, NAME_MAIN, 0],
     [Head(4, DECORATE), BUFFER, DESCRIPTOR_SET, 0],
     [Head(4, DECORATE), BUFFER, BINDING, 0],
     [Head(4, TYPE_INT), UINT_TYPE, 32, 0],
     [Head(4, TYPE_POINTER), 7, STORAGE_BUFFER, UINT_TYPE],
     [Head(4, CONSTANT), UINT_TYPE, zero, 0],
     [Head(4, CONSTANT), UINT_TYPE, SEVEN, 7],
     [Head(4, VARIABLE), 7, BUFFER, STORAGE_BUFFER]]
  }

  function Opening(): seq<Inst> { [[Head(5, FUNCTION), 2, 4, 0, 3], [Head(2, LABEL), 5]] }

  function TheStore(): Inst { [Head(3, STORE), BUFFER, SEVEN] }

  function Closing(): seq<Inst> { [[Head(1, RETURN)], [Head(1, FUNCTION_END)]] }

  function Body(): seq<Inst> { Opening() + [TheStore()] + Closing() }

  function TheModule(zero: Zero): Module { Module([MAGIC, 0x1_0300, 0, BOUND, 0], Decls(zero) + Body()) }

  predicate Typed(op: nat) { op == CONSTANT || op == VARIABLE || op == FUNCTION }

  function TheTarget(): Target { Target(BUFFER, SEVEN, 39, Partial, Tail) }

  /** The probe's buffer at set 0 and the given binding; the module's is at 0. */
  function Attempt(zero: Zero, binding: Word): Probing { Probing(Typed, TheModule(zero), 0, binding, [TheTarget()]) }

  /** Cells of a buffer: its own number for the whole, one cell for each word. */
  function TheCells(buffer: nat, path: seq<Val>): nat {
    if path == [] then buffer
    else if |path| == 2 && path[1].Scalar? then buffer + 1000 * (path[1].w + 1)
    else buffer + 1
  }

  /** A store writes its value through its pointer into buffer 100; nothing else
      changes memory. */
  function Wrote(inst: Inst, view: Env, mem: Mem): Mem {
    if Op(inst) == STORE && |inst| >= 3 && inst[1] in view && inst[2] in view && view[inst[1]].Ptr?
    then mem[TheCells(100, view[inst[1]].path) := view[inst[2]]] else mem
  }

  ghost function TheWorld(): World {
    World(map[], (v, path) => None, (inv, v, path) => None, BOUND + 3, inst => {}, inst => None,
          (inst, view, mem, inv, pred) => Effect(Undef, Wrote(inst, view, mem), if Op(inst) == RETURN then Stop else Fall),
          inst => Undef, (inst, vals) => Undef)
  }

  ghost function TheLaunch(): Launch { Launch([], map[(0, 0) := 100, (0, 1) := 101], 1, 5, 1, map[]) }

  // ---- the source ----

  lemma SourceSized(zero: Zero)
    ensures TheModule(zero).Valid() && AllSized(Decls(zero)) && AllSized(Body())
  {
    assert AllSized(Opening()) && WellSized(TheStore()) && AllSized(Closing());
  }

  lemma SourceIds(zero: Zero)
    ensures Ids(TheModule(zero).insts) == [UINT_TYPE, 7, zero, SEVEN, BUFFER] && Code(TheModule(zero).insts) == Body()
  {
    hide Ids, Code, Executable, Body, Decls;
    DeclsIds(zero);
    BodyRuns();
    CodeExecutable(Body());
    IdsAppend(Decls(zero), Body());
    CodeAppend(Decls(zero), Body());
    assert Code(Decls(zero)) == [] by { DeclsCode(zero); }
  }

  lemma DeclsIds(zero: Zero)
    ensures Ids(Decls(zero)) == [UINT_TYPE, 7, zero, SEVEN, BUFFER]
  {
    var d := Decls(zero);
    NoIds(d[..3]);
    DeclareEach(d[3..], [UINT_TYPE, 7, zero, SEVEN, BUFFER]);
    assert d == d[..3] + d[3..];
    IdsAppend(d[..3], d[3..]);
  }

  lemma DeclsCode(zero: Zero)
    ensures Code(Decls(zero)) == []
  {
    NoCode(Decls(zero));
  }

  lemma BodyRuns()
    ensures Executable(Body())
  {
    assert Executable(Opening()) && Executable([TheStore()]) && Executable(Closing());
  }

  lemma {:induction false} NoCode(insts: seq<Inst>)
    requires forall i :: 0 <= i < |insts| ==> Declarative(Op(insts[i]))
    ensures Code(insts) == []
  {
    if insts != [] { NoCode(insts[..|insts| - 1]); }
  }

  lemma InstIs(zero: Zero, inst: Inst)
    requires inst in TheModule(zero).insts
    ensures inst in Decls(zero) || inst in Opening() || inst == TheStore() || inst in Closing()
  {}

  lemma SourceReadsOld(zero: Zero)
    ensures AllReadOld(TheModule(zero).insts, BOUND)
  {
    var insts := TheModule(zero).insts;
    forall k | 0 <= k < |insts| ensures ReadsOld(insts[k], BOUND) {
      InstIs(zero, insts[k]);
    }
  }

  lemma SourceReads()
    ensures ReadsBelow(TheWorld(), Body(), BOUND)
  {
    forall k | 0 <= k < |Body()| ensures Reads(TheWorld(), Body()[k]) <= {BUFFER, SEVEN} {
      if k == 2 { assert Body()[k] == TheStore(); }
      else if k < 2 { assert Body()[k] == Opening()[k]; }
      else { assert Body()[k] == Closing()[k - 3]; }
    }
  }

  lemma SourceSourced(zero: Zero)
    ensures Sourced(TheWorld(), TheModule(zero))
  {
    hide AllSized, AllReadOld, ReadsBelow, Decorations, Ids, Code, Decls, Body;
    SourceSized(zero);
    SourceIds(zero);
    SourceReadsOld(zero);
    SourceReads();
    DecoratedBelow(zero, DESCRIPTOR_SET);
    DecoratedBelow(zero, BINDING);
  }

  lemma DecoratedBelow(zero: Zero, decoration: nat)
    ensures forall v :: v in Decorations(TheModule(zero).insts, decoration) ==> v < BOUND
  {
    forall v | v in Decorations(TheModule(zero).insts, decoration)
      ensures v < BOUND
    {
      var k := DecorationFrom(TheModule(zero).insts, decoration, v);
      InstIs(zero, TheModule(zero).insts[k]);
    }
  }

  lemma {:induction false} DecorationFrom(insts: seq<Inst>, decoration: nat, v: nat) returns (k: nat)
    requires v in Decorations(insts, decoration)
    ensures k < |insts| && Decorates(insts[k], decoration) && insts[k][1] == v && insts[k][3] == Decorations(insts, decoration)[v]
  {
    var last := |insts| - 1;
    if Decorates(insts[last], decoration) && insts[last][1] == v {
      k := last;
    } else {
      k := DecorationFrom(insts[..last], decoration, v);
    }
  }

  // ---- the declared module ----

  function Declared0(zero: Zero, binding: Word): seq<Inst> {
    Splice(Decls(zero)[0 := WithInterface(Decls(zero)[0], BOUND + 3)], 3, Annotations(BOUND, 0, binding)) + BufferDeclarations(BOUND, UINT_TYPE)
  }

  lemma FirstIs(p: Inst -> bool, insts: seq<Inst>, k: nat)
    requires k < |insts| && p(insts[k]) && forall i :: 0 <= i < k ==> !p(insts[i])
    ensures First(p, insts) == Some(k)
  {}

  lemma TheAnchors(zero: Zero)
    ensures Anchored(TheModule(zero)) && First(IsUint, TheModule(zero).insts) == Some(3) && First(IsMain, TheModule(zero).insts) == Some(0)
  {
    var insts := TheModule(zero).insts;
    assert insts[0] == Decls(zero)[0] && insts[1] == Decls(zero)[1] && insts[2] == Decls(zero)[2] && insts[3] == Decls(zero)[3];
    FirstIs(IsUint, insts, 3);
    FirstIs(IsMain, insts, 0);
    FirstIn(IsType, insts, insts[3]);
    assert insts[8] == Opening()[0];
    FirstIn(IsFunction, insts, insts[8]);
  }

  /** The module with the probe variable in its interface, and annotated. */
  function Entered(zero: Zero): seq<Inst> { Decls(zero)[0 := WithInterface(Decls(zero)[0], BOUND + 3)] }

  lemma EnteredIs(zero: Zero)
    ensures |Entered(zero)| == 8 && IsType(Entered(zero)[3]) && forall i :: 0 <= i < 3 ==> !IsType(Entered(zero)[i])
    ensures forall i :: 0 <= i < 8 ==> !IsFunction(Entered(zero)[i])
    ensures |Body()| == 5 && IsFunction(Body()[0])
    ensures TheModule(zero).insts[0 := WithInterface(TheModule(zero).insts[0], BOUND + 3)] == Entered(zero) + Body()
  {
    assert Body()[0] == Opening()[0];
    assert TheModule(zero).insts[0] == Decls(zero)[0];
  }

  lemma AnnotatedIs(d: seq<Inst>, a: seq<Inst>, body: seq<Inst>)
    requires |d| == 8 && body != [] && IsFunction(body[0])
    requires (forall i :: 0 <= i < 8 ==> !IsFunction(d[i])) && forall i :: 0 <= i < |a| ==> !IsFunction(a[i])
    ensures Splice(d + body, 3, a) == Splice(d, 3, a) + body
    ensures First(IsFunction, Splice(d, 3, a) + body) == Some(8 + |a|)
  {
    var annotated := Splice(d, 3, a) + body;
    assert Splice(d + body, 3, a) == annotated;
    forall i | 0 <= i < 8 + |a| ensures !IsFunction(annotated[i]) {
      if 3 <= i < 3 + |a| { assert annotated[i] == a[i - 3]; } else { assert annotated[i] == d[if i < 3 then i else i - |a|]; }
    }
    assert annotated[8 + |a|] == body[0];
    FirstIs(IsFunction, annotated, 8 + |a|);
  }

  lemma BufferedIs(d: seq<Inst>, b: seq<Inst>, body: seq<Inst>)
    requires First(IsFunction, d + body) == Some(|d|) && forall i :: 0 <= i < |b| ==> !IsFunction(b[i])
    ensures Splice(d + body, |d|, b) == (d + b) + body
    ensures First(IsFunction, (d + b) + body) == Some(|d + b|)
  {
    var all := (d + b) + body;
    assert Splice(d + body, |d|, b) == all;
    forall i | 0 <= i < |d + b| ensures !IsFunction(all[i]) {
      if i < |d| { assert all[i] == (d + body)[i]; } else { assert all[i] == b[i - |d|]; }
    }
    assert all[|d + b|] == (d + body)[|d|];
    FirstIs(IsFunction, all, |d + b|);
  }

  lemma TheLines(zero: Zero, binding: Word)
    ensures DeclareBuffer(TheModule(zero), 0, binding) == Ok(Declared0(zero, binding) + Body())
    ensures Attempt(zero, binding).Lines() == Declared0(zero, binding) + Body() && Attempt(zero, binding).Uint() == UINT_TYPE
    ensures First(IsFunction, Declared0(zero, binding) + Body()) == Some(|Declared0(zero, binding)|)
  {
    TheAnchors(zero);
    hide Annotations, BufferDeclarations, Splice, First, Entered, Body, IsFunction, IsType;
    var d, a, b := Entered(zero), Annotations(BOUND, 0, binding), BufferDeclarations(BOUND, UINT_TYPE);
    EnteredIs(zero);
    NoFunctions(BOUND, 0, binding);
    NoFunctionDeclared(BOUND, UINT_TYPE);
    FirstIs(IsType, d + Body(), 3);
    AnnotatedIs(d, a, Body());
    SpliceSize(d, 3, a);
    BufferedIs(Splice(d, 3, a), b, Body());
    TheAttempt(zero, binding);
  }

  lemma SpliceSize(d: seq<Inst>, at: nat, a: seq<Inst>)
    requires at <= |d|
    ensures |Splice(d, at, a)| == |d| + |a|
  {}

  lemma TheAttempt(zero: Zero, binding: Word)
    ensures Declared0(zero, binding) == Splice(Entered(zero), 3, Annotations(BOUND, 0, binding)) + BufferDeclarations(BOUND, UINT_TYPE)
    ensures |TheModule(zero).insts| > 3 && |TheModule(zero).insts[3]| == 4 && TheModule(zero).insts[3][1] == UINT_TYPE && |TheModule(zero).insts[0]| == 5
  {
    assert TheModule(zero).insts[3] == Decls(zero)[3] && TheModule(zero).insts[0] == Decls(zero)[0];
  }

  lemma LineIs(zero: Zero, binding: Word, inst: Inst)
    requires inst in Declared0(zero, binding) + Body()
    ensures inst in Declared0(zero, binding) || inst in Body()
    ensures inst in Declared0(zero, binding) ==>
      inst == WithInterface(Decls(zero)[0], BOUND + 3) || inst in Decls(zero) || inst in Annotations(BOUND, 0, binding) || inst in BufferDeclarations(BOUND, UINT_TYPE)
  {
    hide Annotations, BufferDeclarations, Body;
    if inst in Declared0(zero, binding) {
      var d := Decls(zero)[0 := WithInterface(Decls(zero)[0], BOUND + 3)];
      SpliceHas(d, 3, Annotations(BOUND, 0, binding), inst);
    }
  }

  /** Nothing is decorated as a built-in, and %10 has the unsigned type. */
  lemma TheNames(zero: Zero, binding: Word)
    ensures var d := Attempt(zero, binding).Found(); d.groupVar.None? && d.localVar.None? && TypeIs(d.types, SEVEN, UINT_TYPE) && d.uintT == UINT_TYPE
  {
    hide First, ResultTypes, Chains;
    TheLines(zero, binding);
    var lines := Declared0(zero, binding) + Body();
    forall inst | inst in lines ensures !IsBuiltin(inst, WORKGROUP_ID) && !IsBuiltin(inst, LOCAL_INVOCATION_ID) {
      LineIs(zero, binding, inst);
      PlainLine(zero, binding, inst);
    }
    NoneFound(BuiltinNamed(WORKGROUP_ID), lines);
    NoneFound(BuiltinNamed(LOCAL_INVOCATION_ID), lines);
    forall inst | inst in lines && TypedId(Typed, inst).Some? && TypedId(Typed, inst).value.0 == SEVEN
      ensures TypedId(Typed, inst).value.1 == UINT_TYPE
    {
      LineIs(zero, binding, inst);
      PlainLine(zero, binding, inst);
    }
    var d := Decls(zero)[0 := WithInterface(Decls(zero)[0], BOUND + 3)];
    SpliceHas(d, 3, Annotations(BOUND, 0, binding), Decls(zero)[6]);
    assert d[6] == Decls(zero)[6] && Decls(zero)[6] in lines;
    TypeFound(Typed, lines, Decls(zero)[6], SEVEN, UINT_TYPE);
  }

  lemma PlainLine(zero: Zero, binding: Word, inst: Inst)
    requires inst == WithInterface(Decls(zero)[0], BOUND + 3) || inst in Decls(zero) || inst in Annotations(BOUND, 0, binding)
      || inst in BufferDeclarations(BOUND, UINT_TYPE) || inst in Body()
    ensures !IsBuiltin(inst, WORKGROUP_ID) && !IsBuiltin(inst, LOCAL_INVOCATION_ID)
    ensures TypedId(Typed, inst).Some? && TypedId(Typed, inst).value.0 == SEVEN ==> TypedId(Typed, inst).value.1 == UINT_TYPE
    ensures Op(inst) == STORE ==> inst == TheStore()
  {
    if inst in Body() { assert inst in Opening() || inst == TheStore() || inst in Closing(); }
  }

  lemma NoneFound(p: Inst -> bool, insts: seq<Inst>)
    requires forall inst :: inst in insts ==> !p(inst)
    ensures First(p, insts).None?
  {}

  lemma {:induction false} TypeFound(typed: nat -> bool, insts: seq<Inst>, inst: Inst, id: nat, t: Word)
    requires inst in insts && TypedId(typed, inst) == Some((id, t))
    requires forall other :: other in insts && TypedId(typed, other).Some? && TypedId(typed, other).value.0 == id ==> TypedId(typed, other).value.1 == t
    ensures TypeIs(ResultTypes(typed, insts), id, t)
  {
    hide TypedId;
    var front, last := insts[..|insts| - 1], insts[|insts| - 1];
    if inst in front {
      TypeFound(typed, front, inst, id, t);
    }
  }

  // ---- the probed module ----

  lemma {:induction false} ProbesAppend(d: Names, p: Pool, targets: seq<Target>, a: seq<Inst>, b: seq<Inst>, n: nat)
    requires ProbeAll(d, p, targets, a, n).Ok?
    ensures var r := ProbeAll(d, p, targets, a, n).value;
      ProbeAll(d, p, targets, a + b, n) == match ProbeAll(d, p, targets, b, r.next)
        case Ok(s) => Ok(Probed(r.insts + s.insts, s.next)) case Err(e) => Err(e)
    decreases |b|
  {
    hide ProbeOne;
    if b == [] {
      assert a + b == a && ProbeAll(d, p, targets, a, n).value.insts + [] == ProbeAll(d, p, targets, a, n).value.insts;
    } else {
      var front, last := b[..|b| - 1], b[|b| - 1];
      assert (a + b)[..|a + b| - 1] == a + front && (a + b)[|a + b| - 1] == last;
      ProbesAppend(d, p, targets, a, front, n);
      var r := ProbeAll(d, p, targets, a, n).value;
      if ProbeAll(d, p, targets, front, r.next).Ok? {
        var q := ProbeAll(d, p, targets, front, r.next).value;
        var here := ProbeOne(d, p, targets, last, q.next);
        if here.Ok? { assert (r.insts + q.insts) + here.value.insts == r.insts + (q.insts + here.value.insts); }
      }
    }
  }

  lemma {:induction false} ProbesNone(d: Names, p: Pool, targets: seq<Target>, insts: seq<Inst>, n: nat)
    requires forall i :: 0 <= i < |insts| ==> Op(insts[i]) != STORE
    ensures ProbeAll(d, p, targets, insts, n) == Ok(Probed(insts, n))
  {
    hide Op, ProbeOne;
    if insts != [] {
      var front, last := insts[..|insts| - 1], insts[|insts| - 1];
      assert forall i :: 0 <= i < |front| ==> front[i] == insts[i];
      ProbesNone(d, p, targets, front, n);
      ProbeNot(d, p, targets, last, n);
      assert front + [last] == insts;
    }
  }

  lemma ProbeNot(d: Names, p: Pool, targets: seq<Target>, inst: Inst, n: nat)
    requires Op(inst) != STORE
    ensures ProbeOne(d, p, targets, inst, n) == Ok(Probed([inst], n))
  {}

  lemma ProbesOne(d: Names, p: Pool, targets: seq<Target>, before: seq<Inst>, inst: Inst, after: seq<Inst>, i: nat, n: nat)
    requires (forall k :: 0 <= k < |before| ==> Op(before[k]) != STORE) && (forall k :: 0 <= k < |after| ==> Op(after[k]) != STORE)
    requires FindTarget(targets, inst) == Some(i) && i < |targets| && Refusal(d, targets[i]).None?
    ensures ProbeAll(d, p, targets, before + [inst] + after, n)
      == Ok(Probed(before + ([inst] + Block(d, p, targets[i], i, n)) + after, ProbeEnd(d, targets[i], n)))
  {
    hide Block, Refusal, ProbeEnd;
    ProbesNone(d, p, targets, before, n);
    ProbesAppend(d, p, targets, before, [inst], n);
    var one := [inst];
    assert one[..0] == [] && [] + ([inst] + Block(d, p, targets[i], i, n)) == [inst] + Block(d, p, targets[i], i, n);
    ProbesAppend(d, p, targets, before + [inst], after, n);
    ProbesNone(d, p, targets, after, ProbeEnd(d, targets[i], n));
  }

  lemma {:induction false} ServeNext(uintT: Word, p: Pool, rs: seq<Request>)
    ensures p.next <= Serve(uintT, p, rs).next <= p.next + |rs|
  {
    if rs != [] { ServeNext(uintT, p, rs[..|rs| - 1]); }
  }

  /** The pool and first id of the block. */
  function ThePool(): Pool { Prelude(UINT_TYPE, [TheTarget()], BOUND + 5) }

  lemma PoolSize()
    ensures BOUND + 5 <= ThePool().next <= BOUND + 40
  {
    hide Serve;
    RequestCount([TheTarget()]);
    assert |CommonRequests()| == 22;
    ServeNext(UINT_TYPE, Pool(map[], map[], [], BOUND + 5), RecordRequests([TheTarget()]) + CommonRequests());
  }

  /** The constants are declarations. */
  lemma PoolDeclares()
    ensures forall i :: 0 <= i < |ThePool().constants| ==> Op(ThePool().constants[i]) == CONSTANT
  {
    PreludeOk(UINT_TYPE, [TheTarget()], BOUND + 5);
  }

  function Before(zero: Zero, binding: Word): seq<Inst> { Declared0(zero, binding) + ThePool().constants + Opening() }

  lemma TheConstants(zero: Zero, binding: Word)
    ensures WithConstants(Attempt(zero, binding)) == Before(zero, binding) + [TheStore()] + Closing()
  {
    hide Prelude, First, Declared0, Opening, Closing, TheStore;
    TheLines(zero, binding);
  }

  lemma TheTargets(zero: Zero, binding: Word)
    ensures FindTarget([TheTarget()], TheStore()) == Some(0)
    ensures Refusal(Attempt(zero, binding).Found(), TheTarget()).None?
    ensures forall d: Names, n: nat :: n < WORD - 100 ==> IsFloat(d, TheTarget()) || ProbeEnd(d, TheTarget(), n) == n + 3
  {
    var targets := [TheTarget()];
    assert targets[..0] == [];
    TheNames(zero, binding);
  }

  lemma TheOutput(zero: Zero, binding: Word)
    ensures Attempt(zero, binding).Accepted()
    ensures var d := Attempt(zero, binding).Found();
      && Refusal(d, TheTarget()).None?
      && Attempt(zero, binding).Output().insts == Before(zero, binding) + ([TheStore()] + Block(d, ThePool(), TheTarget(), 0, ThePool().next)) + Closing()
  {
    hide *;
    var x := Attempt(zero, binding);
    var d, p, targets := x.Found(), ThePool(), [TheTarget()];
    TheConstants(zero, binding);
    TheTargets(zero, binding);
    PoolSize();
    BeforePlain(zero, binding);
    ClosingPlain();
    ProbesOne(d, p, targets, Before(zero, binding), TheStore(), Closing(), 0, p.next);
    ProbesIff(d, p, targets, WithConstants(x), p.next);
    StoredThere(zero, binding);
    TheEnd(zero, binding);
    TheAnchors(zero);
    AttemptIs(zero, binding);
    DeclaresIff(x.m, x.set_, x.binding);
    LinesHaveFunction(x);
    AcceptedParts(x);
    TheResult(zero, binding);
  }

  lemma AttemptIs(zero: Zero, binding: Word)
    ensures var x := Attempt(zero, binding);
      && x.m == TheModule(zero) && x.targets == [TheTarget()] && |x.m.header| == HEADER && BOUND + 100 < WORD
      && NewBound(x) == EndOf(x.Found(), [TheTarget()], WithConstants(x), ThePool().next)
  {
    hide Prelude, First, NamesOf, EndOf, WithConstants;
    TheLines(zero, binding);
  }

  lemma ClosingPlain()
    ensures forall k :: 0 <= k < |Closing()| ==> Op(Closing()[k]) != STORE
  {}

  lemma StoredThere(zero: Zero, binding: Word)
    ensures !Missing([TheTarget()], Before(zero, binding) + [TheStore()] + Closing())
  {
    hide Before, Closing;
    var all := Before(zero, binding) + [TheStore()] + Closing();
    assert all[|Before(zero, binding)|] == TheStore();
    assert Stored(all, BUFFER, SEVEN);
  }

  lemma TheEnd(zero: Zero, binding: Word)
    ensures ProbeEnd(Attempt(zero, binding).Found(), TheTarget(), ThePool().next) == ThePool().next + 3
  {
    hide Prelude, First, Attempt;
    PoolSize();
    TheNames(zero, binding);
  }

  lemma TheResult(zero: Zero, binding: Word)
    requires Attempt(zero, binding).Accepted()
    requires ProbeAll(Attempt(zero, binding).Found(), ThePool(), [TheTarget()], WithConstants(Attempt(zero, binding)), ThePool().next).Ok?
    ensures Attempt(zero, binding).Output().insts
      == ProbeAll(Attempt(zero, binding).Found(), ThePool(), [TheTarget()], WithConstants(Attempt(zero, binding)), ThePool().next).value.insts
  {
    hide Prelude, First, NamesOf, ProbeAll, Missing, Declared0, Splice;
    TheLines(zero, binding);
  }

  lemma BeforePlain(zero: Zero, binding: Word)
    ensures forall k :: 0 <= k < |Before(zero, binding)| ==> Op(Before(zero, binding)[k]) != STORE
  {
    PoolDeclares();
    forall inst | inst in Before(zero, binding)
      ensures Op(inst) != STORE
    {
      if inst in Declared0(zero, binding) {
        assert inst in Declared0(zero, binding) + Body();
        LineIs(zero, binding, inst);
        DeclaredPlain(zero, binding, inst);
      } else if inst in ThePool().constants {
        var k :| 0 <= k < |ThePool().constants| && ThePool().constants[k] == inst;
      }
    }
  }

  lemma DeclaredPlain(zero: Zero, binding: Word, inst: Inst)
    requires inst == WithInterface(Decls(zero)[0], BOUND + 3) || inst in Decls(zero) || inst in Annotations(BOUND, 0, binding)
      || inst in BufferDeclarations(BOUND, UINT_TYPE)
    ensures Declarative(Op(inst)) && Op(inst) != STORE
  {}

  // ---- the premises ----

  lemma TheProbeable(zero: Zero, binding: Word)
    ensures Probeable(Attempt(zero, binding), TheWorld(), TheLaunch())
    ensures zero == MEMBER_ZERO ==> FixedIds(Attempt(zero, binding))
  {
    hide Sourced, First, NamesOf, Prelude, Refusal, DeclareBuffer, Instrumented, StaticsOf, Body, Before, Closing, Opening;
    SourceSourced(zero);
    TheOutput(zero, binding);
    TheNames(zero, binding);
    forall inst | inst in TheModule(zero).insts ensures !IsBuiltin(inst, WORKGROUP_ID) && !IsBuiltin(inst, LOCAL_INVOCATION_ID) { NoVectors(zero, inst); }
    assert TheModule(zero).insts[5] == Decls(zero)[5];
    if zero == MEMBER_ZERO { assert ZeroThere(TheModule(zero).insts); }
  }

  lemma {:induction false} DecorationThere(insts: seq<Inst>, decoration: nat, k: nat)
    requires k < |insts| && Decorates(insts[k], decoration)
    ensures insts[k][1] in Decorations(insts, decoration)
    decreases |insts|
  {
    if k < |insts| - 1 { DecorationThere(insts[..|insts| - 1], decoration, k); }
  }

  /** The module's only buffer is at binding 0 of set 0. */
  lemma TheDescriptor(zero: Zero)
    ensures BUFFER in Buffers(TheModule(zero).insts, TheLaunch().table)
    ensures forall v :: v in Buffers(TheModule(zero).insts, TheLaunch().table) ==> Buffers(TheModule(zero).insts, TheLaunch().table)[v] == 100
  {
    var insts := TheModule(zero).insts;
    assert insts[1] == Decls(zero)[1] && insts[2] == Decls(zero)[2];
    DecorationThere(insts, DESCRIPTOR_SET, 1);
    DecorationThere(insts, BINDING, 2);
    forall v | v in Decorations(insts, DESCRIPTOR_SET) ensures Decorations(insts, DESCRIPTOR_SET)[v] == 0 {
      var k := DecorationFrom(insts, DESCRIPTOR_SET, v);
      InstIs(zero, insts[k]);
    }
    forall v | v in Decorations(insts, BINDING) ensures Decorations(insts, BINDING)[v] == 0 {
      var k := DecorationFrom(insts, BINDING, v);
      InstIs(zero, insts[k]);
    }
  }

  lemma FreeAtOne(zero: Zero)
    ensures Free(TheWorld(), TheModule(zero), 0, 1, TheLaunch().table) && !Free(TheWorld(), TheModule(zero), 0, 0, TheLaunch().table)
  {
    hide Buffers, TheModule;
    TheDescriptor(zero);
  }

  // ---- the source's runs ----

  /** Code without loads and bitcasts does not fault. */
  predicate Faultless(code: seq<Inst>) {
    forall k :: 0 <= k < |code| ==> Op(code[k]) != LOAD && Op(code[k]) != BITCAST
  }

  lemma StepSafe(p: Program, w: World, lanes: nat, c: Config, choice: Choice)
    requires Faultless(p.code) && NoFault(c) && Exec(p, w, lanes, c, choice).Some?
    ensures NoFault(Exec(p, w, lanes, c, choice).value)
  {
    hide Private, Arith;
  }

  lemma {:induction false} RunSafe(p: Program, w: World, lanes: nat, c: Config, schedule: seq<Choice>)
    requires Faultless(p.code) && NoFault(c) && Run(p, w, lanes, c, schedule).Some?
    ensures NoFault(Run(p, w, lanes, c, schedule).value)
    decreases |schedule|
  {
    hide Exec, NoFault, Faultless;
    if schedule != [] {
      StepSafe(p, w, lanes, c, schedule[0]);
      RunSafe(p, w, lanes, Exec(p, w, lanes, c, schedule[0]).value, schedule[1..]);
    }
  }

  lemma BodyIs(k: nat)
    requires k < |Body()|
    ensures Body()[k] in Opening() || Body()[k] == TheStore() || Body()[k] in Closing()
  {}

  lemma TheSourceSafe(zero: Zero, binding: Word)
    ensures SourceSafe(Attempt(zero, binding), TheWorld(), TheLaunch()) && SourceProgram(Attempt(zero, binding), TheWorld(), TheLaunch()).code == Body()
  {
    hide Body, StaticsOf, Run, TheWorld;
    SourceIds(zero);
    forall k | 0 <= k < |Body()| ensures Op(Body()[k]) != LOAD && Op(Body()[k]) != BITCAST { BodyIs(k); }
    var p, l := SourceProgram(Attempt(zero, binding), TheWorld(), TheLaunch()), TheLaunch();
    forall schedule | Run(p, TheWorld(), l.lanes, Begin(p, l), schedule).Some?
      ensures NoFault(Run(p, TheWorld(), l.lanes, Begin(p, l), schedule).value)
    {
      RunSafe(p, TheWorld(), l.lanes, Begin(p, l), schedule);
    }
  }

  /** The source's only store writes the whole of its buffer. */
  ghost predicate Tame(p: Program) {
    && (forall k :: 0 <= k < |p.code| && Op(p.code[k]) == STORE && |p.code[k]| >= 3 ==> p.code[k][1] == BUFFER)
    && BUFFER in p.statics.consts && p.statics.consts[BUFFER] == Ptr(BUFFER, [])
  }

  predicate OnlyWhole(mem: Mem) { forall k :: k in mem ==> k == 100 }

  lemma {:induction false} RunTame(p: Program, lanes: nat, c: Config, schedule: seq<Choice>)
    requires Tame(p) && OnlyWhole(c.mem) && Run(p, TheWorld(), lanes, c, schedule).Some?
    ensures OnlyWhole(Run(p, TheWorld(), lanes, c, schedule).value.mem)
    decreases |schedule|
  {
    hide Exec, Tame, TheWorld, OnlyWhole;
    if schedule != [] {
      StepTame(p, lanes, c, schedule[0]);
      RunTame(p, lanes, Exec(p, TheWorld(), lanes, c, schedule[0]).value, schedule[1..]);
    }
  }

  lemma StepTame(p: Program, lanes: nat, c: Config, choice: Choice)
    requires Tame(p) && OnlyWhole(c.mem) && Exec(p, TheWorld(), lanes, c, choice).Some?
    ensures OnlyWhole(Exec(p, TheWorld(), lanes, c, choice).value.mem)
  {
    hide Act, Wrote;
    if choice.Invoke? {
      var l := c.locals[choice.i];
      WroteTame(p, p.code[l.pc], l.env, c.mem, l.pc);
    }
  }

  lemma WroteTame(p: Program, inst: Inst, env: Env, mem: Mem, k: nat)
    requires Tame(p) && OnlyWhole(mem) && k < |p.code| && inst == p.code[k]
    ensures OnlyWhole(Wrote(inst, View(p.statics, env, Reads(TheWorld(), inst)), mem))
  {}

  lemma TheDiscreet()
    ensures L.Discreet(TheWorld()) && E.StoresFall(TheWorld())
  {}

  lemma NoVectors(zero: Zero, inst: Inst)
    requires inst in TheModule(zero).insts
    ensures !IsBuiltin(inst, WORKGROUP_ID) && !IsBuiltin(inst, LOCAL_INVOCATION_ID)
  {
    InstIs(zero, inst);
  }

  lemma TheLanes(zero: Zero, count: nat)
    ensures S.LocalLanes(TheWorld(), TheModule(zero).insts, count)
  {
    hide TheModule;
    forall inst | inst in TheModule(zero).insts ensures !IsBuiltin(inst, LOCAL_INVOCATION_ID) { NoVectors(zero, inst); }
  }

  /** Every premise of the probe theorems is met at once. */
  lemma PremisesMet()
    ensures var x, w, l := Attempt(MEMBER_ZERO, 1), TheWorld(), TheLaunch();
      && Undisturbed(x, w, l) && SourceSafe(x, w, l) && L.Discreet(w) && E.StoresFall(w) && S.LocalLanes(w, x.m.insts, l.count) && R.AllFit(x.targets)
      && x.targets != []
  {
    hide Probeable, FixedIds, Free, SourceSafe, L.Discreet, E.StoresFall, S.LocalLanes, TheModule, TheWorld, TheLaunch;
    var zero: Zero := MEMBER_ZERO;
    TheProbeable(zero, 1);
    FreeAtOne(zero);
    TheSourceSafe(zero, 1);
    TheDiscreet();
    TheLanes(zero, TheLaunch().count);
    TheModuleOf(zero, 1);
    TheTargetFits();
  }

  lemma TheModuleOf(zero: Zero, binding: Word)
    ensures Attempt(zero, binding).m == TheModule(zero) && Attempt(zero, binding).set_ == 0 && Attempt(zero, binding).binding == binding && Attempt(zero, binding).targets == [TheTarget()]
  {}

  lemma TheTargetFits()
    ensures R.AllFit([TheTarget()])
  {}

  // ---- a shared descriptor ----

  function TheBlock(zero: Zero, binding: Word): seq<Inst> {
    var d := Attempt(zero, binding).Found();
    if Refusal(d, TheTarget()).None? then Block(d, ThePool(), TheTarget(), 0, ThePool().next) else []
  }

  /** A block that opens with a chain under the id `n` and a store through it. */
  predicate Opens(b: seq<Inst>, n: nat) {
    && |b| >= 2 && Op(b[0]) == ACCESS_CHAIN && |b[0]| == 6 && b[0][2] == n && b[0][3] == BOUND + 3
    && Op(b[1]) == STORE && |b[1]| == 3 && b[1][1] == n
  }

  lemma BlockOpens(zero: Zero, binding: Word)
    ensures Opens(TheBlock(zero, binding), ThePool().next)
  {
    hide Attempt, ThePool, DebugWords, Trace, Opens, RecordFields;
    TheTargets(zero, binding);
    TheNames(zero, binding);
    PoolSize();
    var d, p, n := Attempt(zero, binding).Found(), ThePool(), ThePool().next;
    NotFloat(d);
    var fields := RecordFields(d, p, TheTarget(), 0, n);
    FoundVariable(zero, binding);
    WordsOpen(d, fields, n);
    OpensMore(DebugWords(d, fields, n), Trace(d, p, TheTarget(), n), n);
    assert [] + [] + DebugWords(d, fields, n) == DebugWords(d, fields, n);
  }

  lemma FoundVariable(zero: Zero, binding: Word)
    ensures Attempt(zero, binding).Found().variable == BOUND + 3
  {
    hide First, ResultTypes, Chains;
  }

  lemma NotFloat(d: Names)
    requires TypeIs(d.types, SEVEN, UINT_TYPE)
    ensures !IsFloat(d, TheTarget())
  {}

  lemma OpensMore(a: seq<Inst>, b: seq<Inst>, n: nat)
    requires Opens(a, n)
    ensures Opens(a + b, n)
  {}

  lemma {:induction false} WordsOpen(d: Names, fields: seq<Field>, n: nat)
    requires fields != [] && n < WORD && d.variable == BOUND + 3
    ensures Opens(DebugWords(d, fields, n), n)
  {
    var front, f := fields[..|fields| - 1], fields[|fields| - 1];
    if front != [] {
      WordsOpen(d, front, n);
      OpensMore(DebugWords(d, front, n), DebugWord(d, f.slot, f.value, n + |fields| - 1), n);
    }
  }

  /** The probed code: up to the store it is the source's. */
  lemma TheCode(zero: Zero, binding: Word)
    ensures ProbedProgram(Attempt(zero, binding), TheWorld(), TheLaunch()).code == Opening() + [TheStore()] + TheBlock(zero, binding) + Closing()
  {
    hide Prelude, First, NamesOf, Block, Refusal, Declared0, Code, StaticsOf, Before, Opening, Closing, TheStore, Attempt;
    TheOutput(zero, binding);
    TheEnd(zero, binding);
    PoolSize();
    var b := TheBlock(zero, binding);
    BlockDeclaresNothing(Attempt(zero, binding).Found(), ThePool(), TheTarget(), 0, ThePool().next);
    PieceCodes(zero, binding);
    CodeAppend([TheStore()], b);
    CodeAppend(Before(zero, binding), [TheStore()] + b);
    CodeAppend(Before(zero, binding) + ([TheStore()] + b), Closing());
    assert Opening() + ([TheStore()] + b) + Closing() == Opening() + [TheStore()] + b + Closing();
  }

  lemma PieceCodes(zero: Zero, binding: Word)
    ensures Code(Before(zero, binding)) == Opening() && Code([TheStore()]) == [TheStore()] && Code(Closing()) == Closing()
  {
    hide Declared0, Prelude;
    CodeExecutable(Opening());
    CodeExecutable([TheStore()]);
    CodeExecutable(Closing());
    var decls := Declared0(zero, binding) + ThePool().constants;
    PoolDeclares();
    forall i | 0 <= i < |decls| ensures Declarative(Op(decls[i])) {
      if i < |Declared0(zero, binding)| {
        assert decls[i] in Declared0(zero, binding) + Body();
        LineIs(zero, binding, decls[i]);
        DeclaredPlain(zero, binding, decls[i]);
      } else {
        assert decls[i] == ThePool().constants[i - |Declared0(zero, binding)|];
      }
    }
    NoCode(decls);
    CodeAppend(decls, Opening());
  }

  /** Four steps of the only invocation: label, store, chain, and the store that
      the instrumenter inserted. It writes a word of the buffer. */
  lemma FourSteps(p: Program, lanes: nat, b: seq<Inst>, n: nat) returns (schedule: seq<Choice>)
    requires p.code == Opening() + [TheStore()] + b + Closing() && !Private(p.statics, TheWorld()) && Opens(b, n)
    requires n !in p.statics.consts && Lookup(p.statics, map[], b[0][3]) == Ptr(BOUND + 3, []) && b[0][3] in p.statics.consts
    ensures Run(p, TheWorld(), lanes, Start(p, 5, 1, map[]), schedule).Some?
    ensures !OnlyWhole(Run(p, TheWorld(), lanes, Start(p, 5, 1, map[]), schedule).value.mem)
  {
    hide Private, Exec, TheWorld;
    var c0 := Start(p, 5, 1, map[]);
    assert p.code[0] == Opening()[0] && p.code[1] == Opening()[1] && p.code[2] == TheStore() && p.code[3] == b[0] && p.code[4] == b[1];
    LabelAt(p.code);
    LabelStep(p, lanes, c0);
    var c1 := Exec(p, TheWorld(), lanes, c0, Invoke(0)).value;
    SharedStore(p, lanes, c1);
    var c2 := Exec(p, TheWorld(), lanes, c1, Invoke(0)).value;
    SharedChain(p, lanes, c2);
    var c3 := Exec(p, TheWorld(), lanes, c2, Invoke(0)).value;
    SharedStore(p, lanes, c3);
    WordWritten(p, b[1], c3.locals[0].env, c3.mem);
    schedule := [Invoke(0), Invoke(0), Invoke(0), Invoke(0)];
    assert schedule[1..][1..][1..][1..] == [];
  }

  lemma WordWritten(p: Program, inst: Inst, env: Env, mem: Mem)
    requires Op(inst) == STORE && |inst| == 3
    requires Lookup(p.statics, env, inst[1]).Ptr? && Lookup(p.statics, env, inst[1]).path != []
    ensures !OnlyWhole(Wrote(inst, View(p.statics, env, Reads(TheWorld(), inst)), mem))
  {
    var path := Lookup(p.statics, env, inst[1]).path;
    assert TheCells(100, path) != 100;
    assert TheCells(100, path) in Wrote(inst, View(p.statics, env, Reads(TheWorld(), inst)), mem);
  }

  lemma LabelAt(code: seq<Inst>)
    requires |code| > 1 && code[0] == Opening()[0] && code[1] == Opening()[1]
    ensures FindLabel(code, 5) == 1
  {
    assert code[1..][0] == code[1];
  }

  lemma LabelStep(p: Program, lanes: nat, c: Config)
    requires |c.locals| == 1 && CanStep(p, c.locals[0])
    requires var inst := p.code[c.locals[0].pc]; Op(inst) == LABEL && |inst| == 2
    ensures Exec(p, TheWorld(), lanes, c, Invoke(0)).Some?
    ensures var next, l := Exec(p, TheWorld(), lanes, c, Invoke(0)).value, c.locals[0];
      |next.locals| == 1 && next.locals[0].pc == l.pc + 1 && next.locals[0].status == l.status && next.mem == c.mem
  {}

  lemma SharedStore(p: Program, lanes: nat, c: Config)
    requires !Private(p.statics, TheWorld()) && |c.locals| == 1 && CanStep(p, c.locals[0])
    requires var inst := p.code[c.locals[0].pc]; Op(inst) == STORE && |inst| == 3
    ensures Exec(p, TheWorld(), lanes, c, Invoke(0)).Some?
    ensures var inst, next, l := p.code[c.locals[0].pc], Exec(p, TheWorld(), lanes, c, Invoke(0)).value, c.locals[0];
      && |next.locals| == 1 && next.locals[0].pc == l.pc + 1 && next.locals[0].status == l.status
      && next.mem == Wrote(inst, View(p.statics, l.env, Reads(TheWorld(), inst)), c.mem)
  {
    hide Private, Wrote;
    var inst, l := p.code[c.locals[0].pc], c.locals[0];
    assert Act(p.statics, TheWorld(), 0, inst, l.env) == External;
    hide Act;
    var e := TheWorld().ext(inst, View(p.statics, l.env, Reads(TheWorld(), inst)), c.mem, 0, l.pred);
    assert e.mem == Wrote(inst, View(p.statics, l.env, Reads(TheWorld(), inst)), c.mem) && e.control == Fall;
  }

  lemma SharedChain(p: Program, lanes: nat, c: Config)
    requires |c.locals| == 1 && CanStep(p, c.locals[0])
    requires var inst := p.code[c.locals[0].pc]; Op(inst) == ACCESS_CHAIN && |inst| == 6
    requires var inst := p.code[c.locals[0].pc]; inst[2] !in p.statics.consts && inst[3] in p.statics.consts && p.statics.consts[inst[3]].Ptr?
    ensures Exec(p, TheWorld(), lanes, c, Invoke(0)).Some?
    ensures var inst, next, l := p.code[c.locals[0].pc], Exec(p, TheWorld(), lanes, c, Invoke(0)).value, c.locals[0];
      && |next.locals| == 1 && next.locals[0].pc == l.pc + 1 && next.locals[0].status == l.status && next.mem == c.mem
      && Lookup(p.statics, next.locals[0].env, inst[2]).Ptr? && Lookup(p.statics, next.locals[0].env, inst[2]).path != []
  {
    var inst := p.code[c.locals[0].pc];
    assert Act(p.statics, TheWorld(), 0, inst, c.locals[0].env).Set?;
  }

  /** With the descriptor of its own buffer the same module is accepted and every
      other premise holds, stores being real; but the probed module writes words
      into that buffer where the original does not: it is not equivalent. */
  lemma SharedLeaks()
    ensures var x, w, l := Attempt(MEMBER_ZERO, 0), TheWorld(), TheLaunch();
      && Probeable(x, w, l) && FixedIds(x) && SourceSafe(x, w, l) && !Free(w, x.m, x.set_, x.binding, l.table)
      && StoresWrite(w, SourceProgram(x, w, l).statics, TheCells) && StoresWrite(w, ProbedProgram(x, w, l).statics, TheCells)
      && var p, p' := SourceProgram(x, w, l), ProbedProgram(x, w, l); !Equivalent(p', Begin(p', l), p, Begin(p, l), w, l.lanes)
  {
    hide Probeable, FixedIds, SourceSafe, Free, Equivalent, TheWorld, TheLaunch, Attempt, TheModule, StoresWrite, StaticsOf, Private;
    var zero: Zero := MEMBER_ZERO;
    TheProbeable(zero, 0);
    FreeAtOne(zero);
    TheSourceSafe(zero, 0);
    TheModuleOf(zero, 0);
    var j := TheShared(zero);
    TheDescriptor(zero);
    SourceBuffers(zero);
    TheStores(SourceProgram(Attempt(zero, 0), TheWorld(), TheLaunch()).statics);
    TheStores(ProbedProgram(Attempt(zero, 0), TheWorld(), TheLaunch()).statics);
    Differs(zero);
  }

  lemma SourceBuffers(zero: Zero)
    ensures SourceProgram(Attempt(zero, 0), TheWorld(), TheLaunch()).statics.buffers == Buffers(TheModule(zero).insts, TheLaunch().table)
  {
    hide Buffers, Consts, Moduli, Quads, Code, SizeOf;
  }

  lemma TheStores(st: Statics)
    requires forall v :: v in st.buffers ==> st.buffers[v] == 100
    ensures StoresWrite(TheWorld(), st, TheCells)
  {
    forall inst, view, mem, inv, pred ensures StoreWrites(TheWorld(), st, TheCells, inst, view, mem, inv, pred) { TheStoreWrites(st, inst, view, mem, inv, pred); }
  }

  lemma TheStoreWrites(st: Statics, inst: Inst, view: Env, mem: Mem, inv: nat, pred: nat)
    requires forall v :: v in st.buffers ==> st.buffers[v] == 100
    ensures StoreWrites(TheWorld(), st, TheCells, inst, view, mem, inv, pred)
  {
    hide TheCells;
  }

  /** The probe buffer is the module's own. */
  lemma TheShared(zero: Zero) returns (j: Job)
    requires zero == MEMBER_ZERO
    ensures var st := ProbedProgram(Attempt(zero, 0), TheWorld(), TheLaunch()).statics;
      && !Private(st, TheWorld()) && (forall v :: v in st.buffers ==> st.buffers[v] == 100)
      && (forall id :: id in st.consts ==> id < ThePool().next)
      && BOUND + 3 in st.consts && st.consts[BOUND + 3] == Ptr(BOUND + 3, [])
    ensures Attempt(zero, 0).Found().variable == BOUND + 3
  {
    hide Probeable, Free, TheModule, TheWorld, TheLaunch, StaticsOf, Code, Private, Linked, Observable, Attempt, ThePool, Probing.Found, ProbedProgram;
    var x, w, l := Attempt(zero, 0), TheWorld(), TheLaunch();
    TheProbeable(zero, 0);
    TheModuleOf(zero, 0);
    j := JobObservable(x, w, l);
    FoundVariable(zero, 0);
    JobUint(zero, j);
    ProbedStatics(x, w, l);
    SharedJob(zero, w, j, l);
  }

  lemma ProbedStatics(x: Probing, w: World, l: Launch)
    ensures ProbedProgram(x, w, l).statics == StaticsOf(w, x.Output().insts, l.entries, l.table)
  {
    hide StaticsOf, Code;
  }

  lemma JobUint(zero: Zero, j: Job)
    requires Linked(j) && j.m == TheModule(zero) && j.targets == [TheTarget()] && DeclareBuffer(TheModule(zero), 0, 0) == Ok(j.lines)
      && j.x == Attempt(zero, 0) && j.d == Attempt(zero, 0).Found()
    ensures j.uintT == UINT_TYPE
  {
    hide Prelude, ProbeAll, Missing, Prepared, DeclareBuffer, First, ResultTypes, Chains;
    TheNames(zero, 0);
  }

  lemma SharedJob(zero: Zero, w: World, j: Job, l: Launch)
    requires zero == MEMBER_ZERO
    requires w == TheWorld() && l == TheLaunch() && Linked(j) && Observable(w, j, l.entries, l.table) && j.uintT == UINT_TYPE
    requires j.m == TheModule(zero) && j.targets == [TheTarget()] && j.x.set_ == 0 && j.x.binding == 0 && j.d.variable == BOUND + 3
    ensures var st := StaticsOf(w, j.out.insts, l.entries, l.table);
      && !Private(st, TheWorld()) && (forall v :: v in st.buffers ==> st.buffers[v] == 100)
      && (forall id :: id in st.consts ==> id < ThePool().next)
      && BOUND + 3 in st.consts && st.consts[BOUND + 3] == Ptr(BOUND + 3, [])
  {
    hide Free, TheModule, TheWorld, StaticsOf, Private, Linked, Observable, Supplies, ThePool;
    FreeAtOne(zero);
    assert (0, 0) in l.table;
    JobPrivate(w, j, l.entries, l.table);
    JobIs(zero, j);
    SharedBuffers(zero, w, j, l);
    ZeroHere(zero);
    JobSupplies(w, j, l.entries, l.table);
    SuppliesMean(StaticsOf(w, j.out.insts, l.entries, l.table), w, j.d, j.p, j.all.next);
  }

  lemma JobIs(zero: Zero, j: Job)
    requires Linked(j) && j.targets == [TheTarget()] && j.m == TheModule(zero) && j.uintT == UINT_TYPE
    ensures j.all.next == ThePool().next
  {
    hide Prelude, ProbeAll, NamesOf, Missing;
  }

  lemma ZeroHere(zero: Zero)
    requires zero == MEMBER_ZERO
    ensures ZeroThere(TheModule(zero).insts)
  {
    assert TheModule(zero).insts[5] == Decls(zero)[5];
  }

  lemma SuppliesMean(st: Statics, w: World, d: Names, p: Pool, lo: nat)
    requires Supplies(st, w, d, p, lo)
    ensures d.variable in st.consts && st.consts[d.variable] == Ptr(d.variable, []) && w.debug == d.variable && forall id :: id in st.consts ==> id < lo
  {}

  /** Both descriptors are the same. */
  lemma SharedBuffers(zero: Zero, w: World, j: Job, l: Launch)
    requires Linked(j) && Observable(w, j, l.entries, l.table) && j.m == TheModule(zero) && j.x.set_ == 0 && j.x.binding == 0 && l == TheLaunch() && w == TheWorld()
    ensures var st := StaticsOf(w, j.out.insts, l.entries, l.table); forall v :: v in st.buffers ==> st.buffers[v] == 100
  {
    hide Linked, Observable, TheModule, Buffers, Consts, Moduli, Quads, Code, SizeOf, Extended, Described;
    TheHeader(zero);
    TheDescriptor(zero);
    AllExtended(w, j, l.entries, l.table);
    JobDescribed(w, j, l.entries, l.table);
    OutStatics(w, j, l.entries, l.table);
    var st := StaticsOf(w, j.all.insts, l.entries, l.table);
    assert st.buffers == Buffers(j.all.insts, l.table);
    forall v | v in st.buffers ensures st.buffers[v] == 100 {
      if v != DebugVar(BOUND) {
        ExtendedSame(w, SpecializationOf(j.m.insts, l.entries), j.m, j.all.insts, j.uintT, j.all.next);
        BuffersSame(w, SpecializationOf(j.m.insts, l.entries), j.m.Bound(), j.all.insts, j.m.insts, l.table, v);
      } else {
        DebugBuffer(j.all.insts, j.m.Bound());
      }
    }
  }

  lemma TheHeader(zero: Zero)
    ensures |TheModule(zero).header| == HEADER && TheModule(zero).Bound() == BOUND
  {}

  lemma ExtendedSame(w: World, s: Specialization, m: Module, lines: seq<Inst>, uintT: Word, next: nat)
    requires |m.header| == HEADER && Extended(w, s, m, lines, uintT, next)
    ensures Same(w, s, m.Bound(), lines, m.insts)
  {}

  lemma DebugBuffer(insts: seq<Inst>, bound: nat)
    requires Described(insts, bound, 0, 0)
    ensures DebugVar(bound) in Buffers(insts, TheLaunch().table) ==> Buffers(insts, TheLaunch().table)[DebugVar(bound)] == 100
  {}

  lemma Differs(zero: Zero)
    requires zero == MEMBER_ZERO
    ensures var x, w, l := Attempt(zero, 0), TheWorld(), TheLaunch();
      var p, p' := SourceProgram(x, w, l), ProbedProgram(x, w, l); !Equivalent(p', Begin(p', l), p, Begin(p, l), w, l.lanes)
  {
    hide SourceProgram, ProbedProgram, TheWorld, TheBlock, ThePool, Opening, Closing, TheStore, Run, Private, Opens, Attempt, Begin, SourceSafe, Body, OnlyWhole, Tame;
    var x, w, l := Attempt(zero, 0), TheWorld(), TheLaunch();
    TheSourceSafe(zero, 0);
    TheCode(zero, 0);
    BlockOpens(zero, 0);
    PoolSize();
    var j := TheShared(zero);
    SourceTame(zero);
    var p, p' := SourceProgram(x, w, l), ProbedProgram(x, w, l);
    OpensAt(TheBlock(zero, 0), ThePool().next);
    var schedule' := FourSteps(p', l.lanes, TheBlock(zero, 0), ThePool().next);
    Begins(p');
    Begins(p);
    var out' := Run(p', w, l.lanes, Begin(p', l), schedule').value;
    NothingWhole();
    if Equivalent(p', Begin(p', l), p, Begin(p, l), w, l.lanes) {
      var schedule :| Run(p, w, l.lanes, Begin(p, l), schedule).Some? && SameOutcome(p', out', p, Run(p, w, l.lanes, Begin(p, l), schedule).value);
      RunTame(p, l.lanes, Begin(p, l), schedule);
      assert false;
    }
  }

  lemma OpensAt(b: seq<Inst>, n: nat)
    requires Opens(b, n)
    ensures |b| >= 2 && |b[0]| == 6 && b[0][3] == BOUND + 3
  {}

  lemma NothingWhole()
    ensures OnlyWhole(map[])
  {}

  lemma Begins(p: Program)
    ensures Begin(p, TheLaunch()) == Start(p, 5, 1, map[]) && Begin(p, TheLaunch()).mem == map[] && TheLaunch().lanes == 1
  {}

  lemma SourceTame(zero: Zero)
    ensures Tame(SourceProgram(Attempt(zero, 0), TheWorld(), TheLaunch()))
  {
    hide Body, Moduli, Quads, Buffers, SizeOf, Consts, TheWorld, Declared;
    var p, insts := SourceProgram(Attempt(zero, 0), TheWorld(), TheLaunch()), TheModule(zero).insts;
    SourceIds(zero);
    SourceGood(zero);
    var spec := SpecializationOf(insts, []);
    assert insts[7] == Decls(zero)[7];
    BufferDeclared(zero, TheWorld(), spec, Consts(TheWorld(), spec, insts[..7]));
    ConstAt(TheWorld(), spec, insts, BOUND, 7);
    forall k | 0 <= k < |Body()| && Op(Body()[k]) == STORE && |Body()[k]| >= 3 ensures Body()[k][1] == BUFFER { BodyIs(k); }
  }

  lemma SourceGood(zero: Zero)
    ensures GoodIds(TheModule(zero).insts, BOUND)
  {
    SourceIds(zero);
  }

  lemma BufferDeclared(zero: Zero, w: World, s: Specialization, env: Env)
    ensures Declared(w, s, env, Decls(zero)[7]) == Some(Ptr(BUFFER, [])) && DeclaredId(Decls(zero)[7]) == Some(BUFFER)
  {}

  // ---- a module without %52 ----

  lemma BodyProduces()
    ensures forall k :: 0 <= k < |Body()| ==> !Produces(Op(Body()[k]))
    ensures !I.Original(TheWorld(), Body(), MEMBER_ZERO)
  {
    hide TheWorld;
    forall k | 0 <= k < |Body()| ensures !Produces(Op(Body()[k])) { BodyIs(k); }
    NoDefines();
  }

  lemma NoDefines()
    ensures forall inst :: TheWorld().defines(inst).None?
  {}

  lemma SourceUses(zero: Zero)
    ensures forall inst :: inst in TheModule(zero).insts ==> I.Uses(TheWorld(), inst) <= {BUFFER as nat, SEVEN} && !Produces(Op(inst))
  {
    forall inst | inst in TheModule(zero).insts
      ensures I.Uses(TheWorld(), inst) <= {BUFFER as nat, SEVEN} && !Produces(Op(inst))
    {
      InstIs(zero, inst);
    }
  }

  lemma SourceComplete(zero: Zero)
    ensures I.Complete(TheWorld(), Body(), TheModule(zero).insts, BOUND) && ResultsBelow(TheModule(zero).insts, BOUND)
  {
    hide TheWorld, TheModule, I.Uses, I.Original;
    SourceUses(zero);
    SourceIds(zero);
    forall i, id | 0 <= i < |TheModule(zero).insts| && id in I.Uses(TheWorld(), TheModule(zero).insts[i]) ensures id in Ids(TheModule(zero).insts) {
      assert TheModule(zero).insts[i] in TheModule(zero).insts;
      assert Ids(TheModule(zero).insts)[4] == BUFFER && Ids(TheModule(zero).insts)[3] == SEVEN;
    }
  }

  /** A module whose constant 0 is %53 is accepted, and all it uses itself is there;
      but the probed module uses %52, which nothing declares or defines. */
  lemma ZeroMissing()
    ensures var x, w, l := Attempt(53, 1), TheWorld(), TheLaunch();
      && x.Accepted() && Probeable(x, w, l) && I.Complete(w, Code(x.m.insts), x.m.insts, x.m.Bound())
      && !I.Complete(w, Code(x.m.insts), x.Output().insts, x.m.Bound())
  {
    hide Probeable, Ids, I.Complete, I.Original, TheModule, TheWorld, Attempt, ResultsBelow, TheLaunch, Body, Probing.Output, Probing.Accepted, Code,
      Before, Closing, TheStore, ThePool, Block, ProbeEnd, Refusal, Produces;
    var x, w, l := Attempt(53, 1), TheWorld(), TheLaunch();
    TheProbeable(53, 1);
    TheOutput(53, 1);
    TheModuleOf(53, 1);
    TheHeader(53);
    SourceIds(53);
    SourceComplete(53);
    BodyProduces();
    NotDeclared();
    I.NothingLate(x, w, l);
  }

  lemma NotDeclared()
    ensures MEMBER_ZERO !in Ids(TheModule(53).insts) && MEMBER_ZERO < BOUND
  {
    hide TheModule;
    SourceIds(53);
  }
}
