/** The instrumenter only adds: taking the additions out gives back the source,
    and the output is again a stream of well-sized instructions. */
module ProbeShape {
  import opened Words
  import opened Ops
  import opened Machine
  import opened Translation
  import opened Meaning
  import opened Instrumenter
  import opened ProbeBlocks
  import opened InstrumentSound
  import opened ProbeSound

  // ---- erasing ----

  /** An instruction that declares, decorates or computes an id from `bound` on. */
  predicate Added(inst: Inst, bound: nat) {
    || (DeclaredId(inst).Some? && DeclaredId(inst).value >= bound)
    || (Op(inst) in {DECORATE, MEMBER_DECORATE} && |inst| >= 2 && inst[1] >= bound)
    || Inserted(inst, bound)
  }

  function Erase(insts: seq<Inst>, bound: nat): seq<Inst> {
    if insts == [] then []
    else
      var before, inst := Erase(insts[..|insts| - 1], bound), insts[|insts| - 1];
      if Added(inst, bound) then before else before + [inst]
  }

  lemma {:induction false} EraseAppend(a: seq<Inst>, b: seq<Inst>, bound: nat)
    ensures Erase(a + b, bound) == Erase(a, bound) + Erase(b, bound)
    decreases |b|
  {
    hide Added;
    if b == [] {
      assert a + b == a;
    } else {
      assert (a + b)[..|a + b| - 1] == a + b[..|b| - 1];
      EraseAppend(a, b[..|b| - 1], bound);
    }
  }

  lemma {:induction false} ErasesAll(x: seq<Inst>, bound: nat)
    requires forall i :: 0 <= i < |x| ==> Added(x[i], bound)
    ensures Erase(x, bound) == []
  {
    if x != [] { ErasesAll(x[..|x| - 1], bound); }
  }

  lemma {:induction false} ErasesNone(x: seq<Inst>, bound: nat)
    requires forall i :: 0 <= i < |x| ==> !Added(x[i], bound)
    ensures Erase(x, bound) == x
  {
    if x != [] { ErasesNone(x[..|x| - 1], bound); }
  }

  lemma EraseSplice(insts: seq<Inst>, at: nat, x: seq<Inst>, bound: nat)
    requires at <= |insts| && Erase(x, bound) == []
    ensures Erase(Splice(insts, at, x), bound) == Erase(insts, bound)
  {
    hide Erase;
    assert insts == insts[..at] + insts[at..];
    EraseAppend(insts[..at], insts[at..], bound);
    EraseAppend(insts[..at], x, bound);
    EraseAppend(insts[..at] + x, insts[at..], bound);
  }

  lemma EraseOne(inst: Inst, bound: nat)
    ensures Erase([inst], bound) == if Added(inst, bound) then [] else [inst]
  {
    var one := [inst];
    assert one[..0] == [];
  }

  lemma {:induction false} EraseProbes(d: Names, p: Pool, targets: seq<Target>, insts: seq<Inst>, n: nat, bound: nat)
    requires ProbeAll(d, p, targets, insts, n).Ok? && ProbeAll(d, p, targets, insts, n).value.next < WORD && bound <= n
    ensures Erase(ProbeAll(d, p, targets, insts, n).value.insts, bound) == Erase(insts, bound)
  {
    if insts != [] {
      hide Block, Refusal, Added;
      var front, inst := insts[..|insts| - 1], insts[|insts| - 1];
      var before := ProbeAll(d, p, targets, front, n).value;
      UnitsAllFlat(d, p, targets, front, n);
      UnitsForFlat(d, p, targets, inst, before.next);
      EraseProbes(d, p, targets, front, n, bound);
      EraseOne(inst, bound);
      match FindTarget(targets, inst) {
        case None => EraseAppend(before.insts, [inst], bound);
        case Some(i) =>
          var block := Block(d, p, targets[i], i, before.next);
          EraseBlock(d, p, targets[i], i, before.next, bound);
          EraseAppend([inst], block, bound);
          EraseAppend(before.insts, [inst] + block, bound);
      }
    }
  }

  lemma EraseBlock(d: Names, p: Pool, t: Target, index: nat, n: nat, bound: nat)
    requires Refusal(d, t).None? && ProbeEnd(d, t, n) < WORD && bound <= n
    ensures Erase(Block(d, p, t, index, n), bound) == []
  {
    hide Block, Refusal;
    BlockInserted(d, p, t, index, n, bound);
    ErasesAll(Block(d, p, t, index, n), bound);
  }

  lemma EraseDeclared(m: Module, set_: Word, binding: Word)
    requires |m.header| == HEADER && m.Bound() + 5 <= WORD && DeclareBuffer(m, set_, binding).Ok?
    requires forall k :: 0 <= k < |m.insts| ==> !Added(m.insts[k], m.Bound())
    ensures First(IsMain, m.insts).Some? && 0 < |m.insts[First(IsMain, m.insts).value]| < 65535
    ensures var e := First(IsMain, m.insts).value;
      Erase(DeclareBuffer(m, set_, binding).value, m.Bound()) == m.insts[e := WithInterface(m.insts[e], m.Bound() + 3)]
  {
    hide Annotations, BufferDeclarations, Added, Erase, WithInterface, First, Splice, Op;
    var bound: nat := m.Bound();
    var u, e := First(IsUint, m.insts).value, First(IsMain, m.insts).value;
    var lines := m.insts[e := WithInterface(m.insts[e], bound + 3)];
    EntryStays(m.insts[e], bound);
    ErasesNone(lines, bound);
    var t, x, y := First(IsType, lines).value, Annotations(bound, set_, binding), BufferDeclarations(bound, m.insts[u][1]);
    AdditionsErased(bound, set_, binding, m.insts[u][1]);
    EraseSplice(lines, t, x, bound);
    var annotated := Splice(lines, t, x);
    EraseSplice(annotated, First(IsFunction, annotated).value, y, bound);
  }

  lemma EntryStays(inst: Inst, bound: nat)
    requires IsMain(inst) && |inst| < 65535
    ensures |inst| > 0 && !Added(WithInterface(inst, bound + 3), bound)
  {}

  lemma AdditionsErased(bound: nat, set_: Word, binding: Word, uintT: Word)
    requires bound + 5 <= WORD
    ensures Erase(Annotations(bound, set_, binding), bound) == [] && Erase(BufferDeclarations(bound, uintT), bound) == []
  {
    ErasesAll(Annotations(bound, set_, binding), bound);
    ErasesAll(BufferDeclarations(bound, uintT), bound);
  }

  lemma EraseConstants(uintT: Word, p: Pool, start: nat, bound: nat)
    requires PoolOk(uintT, p, start) && bound <= start && p.next <= WORD
    ensures Erase(p.constants, bound) == []
  {
    forall i | 0 <= i < |p.constants| ensures Added(p.constants[i], bound) {
      assert p.constants[i][2] == start + i;
    }
    ErasesAll(p.constants, bound);
  }

  /** Taking the additions out of the output gives back the source, but for the
      probe variable at the end of the entry point's interface. */
  lemma ErasureRestores(x: Probing)
    requires x.m.Valid() && x.Accepted()
    requires forall k :: 0 <= k < |x.m.insts| ==> !Added(x.m.insts[k], x.m.Bound())
    ensures First(IsMain, x.m.insts).Some? && 0 < |x.m.insts[First(IsMain, x.m.insts).value]| < 65535
    ensures var e := First(IsMain, x.m.insts).value;
      Erase(x.Output().insts, x.m.Bound()) == x.m.insts[e := WithInterface(x.m.insts[e], x.m.Bound() + 3)]
  {
    hide ProbeAll, NamesOf, Missing, DeclareBuffer, Added, Erase, WithInterface, Instrumented, Prelude, PoolOk, Splice, First;
    var j := JobOf(x);
    Bounds(j);
    EraseDeclared(x.m, x.set_, x.binding);
    if j.targets != [] {
      PreludeOk(j.uintT, j.targets, j.m.Bound() + 5);
      EraseConstants(j.uintT, j.p, j.m.Bound() + 5, j.m.Bound());
      EraseSplice(j.lines, First(IsFunction, j.lines).value, j.p.constants, j.m.Bound());
      EraseProbes(j.d, j.p, j.targets, j.all.insts, j.all.next, j.m.Bound());
    }
  }

  lemma Bounds(j: Job)
    requires Linked(j)
    ensures |j.m.header| == HEADER && j.m.Bound() + 5 <= j.all.next <= j.out.Bound() < WORD
    ensures j.targets != [] ==> j.all.next == j.p.next
  {
    hide Prelude, ProbeAll, NamesOf, Missing;
  }

  // ---- well-sized instructions ----

  lemma {:induction false} WordsSized(d: Names, fields: seq<Field>, n: nat)
    ensures AllSized(DebugWords(d, fields, n))
  {
    if fields != [] {
      WordsSized(d, fields[..|fields| - 1], n);
      WordSized(d, fields[|fields| - 1].slot, fields[|fields| - 1].value, n + |fields| - 1);
      hide DebugWord;
    }
  }

  lemma WordSized(d: Names, slot: nat, value: nat, n: nat)
    ensures AllSized(DebugWord(d, slot, value, n))
  {}

  lemma {:induction false} LanesSized(d: Names, base: nat, fields: seq<Field>, n: nat)
    ensures AllSized(LaneWords(d, base, fields, n))
  {
    hide DebugWord;
    if fields != [] {
      var f := fields[|fields| - 1];
      LanesSized(d, base, fields[..|fields| - 1], n);
      WordSized(d, n + 2 * (|fields| - 1), f.value, n + 2 * (|fields| - 1) + 1);
    }
  }

  lemma VectorSized(d: Names, p: Pool, v: Word, n: nat)
    requires d.ptrInput.Some?
    ensures AllSized(LoadVector(d, p, v, n)) && AllSized(LoadComponent(d, p, v, 0, n))
  {}

  lemma BlockSized(d: Names, p: Pool, t: Target, index: nat, n: nat)
    requires Refusal(d, t).None?
    ensures AllSized(Block(d, p, t, index, n))
  {
    hide LoadVector, LoadComponent, DebugWords, LaneWords, RecordFields, LaneFields, HeaderFields;
    WordsSized(d, RecordFields(d, p, t, index, n), FieldsStart(d, t, n));
    var n3 := TraceStart(d, t, n);
    if t.role == FinalStore {
      VectorSized(d, p, d.groupVar.value, RecordStart(d, t, n));
      VectorSized(d, p, d.localVar.value, RecordStart(d, t, n) + 6);
    }
    if TraceBase(t).Some? {
      VectorSized(d, p, d.groupVar.value, n3 + 2);
      VectorSized(d, p, d.localVar.value, n3);
      WordsSized(d, HeaderFields(p), n3 + 10);
      LanesSized(d, n3 + 9, LaneFields(d, p, t, n, n3), n3 + 15);
    }
  }

  lemma {:induction false} ProbesSized(d: Names, p: Pool, targets: seq<Target>, insts: seq<Inst>, n: nat)
    requires ProbeAll(d, p, targets, insts, n).Ok? && AllSized(insts)
    ensures AllSized(ProbeAll(d, p, targets, insts, n).value.insts)
  {
    if insts != [] {
      hide Block, Refusal;
      var front, inst := insts[..|insts| - 1], insts[|insts| - 1];
      ProbesSized(d, p, targets, front, n);
      match FindTarget(targets, inst) {
        case None =>
        case Some(i) => BlockSized(d, p, targets[i], i, ProbeAll(d, p, targets, front, n).value.next);
      }
    }
  }

  lemma DeclaredSized(m: Module, set_: Word, binding: Word)
    requires m.Valid() && DeclareBuffer(m, set_, binding).Ok?
    ensures AllSized(DeclareBuffer(m, set_, binding).value)
  {
    var bound: nat := m.Bound();
    var u, e := First(IsUint, m.insts).value, First(IsMain, m.insts).value;
    InterfaceSized(m.insts[e], bound + 3);
    var lines := m.insts[e := WithInterface(m.insts[e], bound + 3)];
    assert AllSized(lines);
    hide Annotations, BufferDeclarations, WithInterface, AllSized, Splice;
    var t, x, y := First(IsType, lines).value, Annotations(bound, set_, binding), BufferDeclarations(bound, m.insts[u][1]);
    AdditionsSized(bound, set_, binding, m.insts[u][1]);
    SpliceSized(lines, t, x);
    var annotated := Splice(lines, t, x);
    SpliceSized(annotated, First(IsFunction, annotated).value, y);
  }

  lemma InterfaceSized(inst: Inst, id: nat)
    requires 0 < |inst| < 65535
    ensures WellSized(WithInterface(inst, id))
  {}

  lemma SpliceSized(insts: seq<Inst>, at: nat, x: seq<Inst>)
    requires at <= |insts| && AllSized(insts) && AllSized(x)
    ensures AllSized(Splice(insts, at, x))
  {}

  lemma AdditionsSized(bound: nat, set_: Word, binding: Word, uintT: Word)
    ensures AllSized(Annotations(bound, set_, binding)) && AllSized(BufferDeclarations(bound, uintT))
  {}

  /** The output is a module again: its words parse to its instructions. */
  lemma OutputValid(x: Probing)
    requires x.m.Valid() && x.Accepted()
    ensures x.Output().Valid() && ModuleOf(x.Output().Words()) == Ok(x.Output())
  {
    hide ProbeAll, NamesOf, Missing, DeclareBuffer, Instrumented, Prelude;
    var j := JobOf(x);
    DeclaredSized(x.m, x.set_, x.binding);
    if j.targets != [] {
      PreludeOk(j.uintT, j.targets, j.m.Bound() + 5);
      assert AllSized(j.p.constants);
      ProbesSized(j.d, j.p, j.targets, j.all.insts, j.all.next);
    }
    WordsRoundTrip(x.Output());
  }

  // ---- types ----

  /** `id` has the unsigned type: a constant of the pool, a result in the block,
      or an id of the source. */
  ghost predicate Unsigned(d: Names, p: Pool, block: seq<Inst>, id: nat) {
    || (exists r :: p.Has(r) && p.Id(r) == id)
    || (exists k :: 0 <= k < |block| && Produces(Op(block[k])) && |block[k]| >= 3 && block[k][2] == id && block[k][1] == d.uintT)
    || TypeIs(d.types, id, d.uintT)
  }

  ghost predicate StoresUnsigned(d: Names, p: Pool, whole: seq<Inst>, part: seq<Inst>) {
    forall i :: 0 <= i < |part| && Op(part[i]) == STORE ==> |part[i]| == 3 && Unsigned(d, p, whole, part[i][2])
  }

  ghost predicate FieldsUnsigned(d: Names, p: Pool, whole: seq<Inst>, fields: seq<Field>) {
    forall i :: 0 <= i < |fields| ==> fields[i].value < WORD && Unsigned(d, p, whole, fields[i].value)
  }

  lemma {:induction false} WordsUnsigned(d: Names, p: Pool, whole: seq<Inst>, fields: seq<Field>, n: nat)
    requires FieldsUnsigned(d, p, whole, fields)
    ensures StoresUnsigned(d, p, whole, DebugWords(d, fields, n))
  {
    hide Unsigned;
    if fields != [] { WordsUnsigned(d, p, whole, fields[..|fields| - 1], n); }
  }

  lemma {:induction false} LanesUnsigned(d: Names, p: Pool, whole: seq<Inst>, base: nat, fields: seq<Field>, n: nat)
    requires FieldsUnsigned(d, p, whole, fields)
    ensures StoresUnsigned(d, p, whole, LaneWords(d, base, fields, n))
  {
    hide Unsigned;
    if fields != [] { LanesUnsigned(d, p, whole, base, fields[..|fields| - 1], n); }
  }

  lemma {:induction false} WordAt(d: Names, fields: seq<Field>, n: nat, i: nat)
    requires i < |fields|
    ensures |DebugWords(d, fields, n)| == 2 * |fields|
    ensures DebugWords(d, fields, n)[2 * i + 1] == [Head(3, STORE), W(n + i), W(fields[i].value)]
    decreases |fields|
  {
    var front := fields[..|fields| - 1];
    if front != [] { WordAt(d, front, n, if i < |front| then i else 0); }
  }

  lemma VectorAt(d: Names, p: Pool, v: Word, n: nat, k: nat)
    requires d.ptrInput.Some? && k < 3 && n + 6 <= WORD
    ensures |LoadVector(d, p, v, n)| == 6 && LoadVector(d, p, v, n)[2 * k + 1] == [Head(4, LOAD), d.uintT, W(n + 2 * k + 1), W(n + 2 * k)]
  {
    if k == 0 {} else if k == 1 {} else {}
  }

  /** `inst` of `part` is an instruction of the block. */
  lemma InBlock(d: Names, p: Pool, before: seq<Inst>, part: seq<Inst>, after: seq<Inst>, k: nat, id: nat)
    requires k < |part| && Produces(Op(part[k])) && |part[k]| >= 3 && part[k][2] == id && part[k][1] == d.uintT
    ensures Unsigned(d, p, before + part + after, id)
  {
    assert (before + part + after)[|before| + k] == part[k];
  }

  lemma ValueUnsigned(d: Names, p: Pool, t: Target, index: nat, n: nat)
    requires Refusal(d, t).None? && WordOrFloat(d, t) && ProbeEnd(d, t, n) < WORD
    ensures Unsigned(d, p, Block(d, p, t, index, n), ValueId(d, t, n))
  {
    hide Position, DebugWords, Trace;
    var rest := Position(d, p, t, n) + DebugWords(d, RecordFields(d, p, t, index, n), FieldsStart(d, t, n)) + Trace(d, p, t, n);
    if IsFloat(d, t) {
      InBlock(d, p, [], Convert(d, t, n), rest, 0, n);
      assert [] + Convert(d, t, n) + rest == Block(d, p, t, index, n);
    }
  }

  lemma PositionUnsigned(d: Names, p: Pool, t: Target, index: nat, n: nat, i: nat)
    requires Refusal(d, t).None? && t.role == FinalStore && ProbeEnd(d, t, n) < WORD && i < 6
    ensures Unsigned(d, p, Block(d, p, t, index, n), RecordStart(d, t, n) + 2 * i + 1)
  {
    hide DebugWords, Trace, LoadVector;
    var n1 := RecordStart(d, t, n);
    var g, l := LoadVector(d, p, d.groupVar.value, n1), LoadVector(d, p, d.localVar.value, n1 + 6);
    var rest := DebugWords(d, RecordFields(d, p, t, index, n), FieldsStart(d, t, n)) + Trace(d, p, t, n);
    if i < 3 {
      VectorAt(d, p, d.groupVar.value, n1, i);
      InBlock(d, p, Convert(d, t, n), g, l + rest, 2 * i + 1, n1 + 2 * i + 1);
      assert Convert(d, t, n) + g + (l + rest) == Block(d, p, t, index, n);
    } else {
      VectorAt(d, p, d.localVar.value, n1 + 6, i - 3);
      InBlock(d, p, Convert(d, t, n) + g, l, rest, 2 * (i - 3) + 1, n1 + 2 * i + 1);
      assert Convert(d, t, n) + g + l + rest == Block(d, p, t, index, n);
    }
  }

  lemma RecordUnsigned(d: Names, p: Pool, t: Target, index: nat, n: nat)
    requires Refusal(d, t).None? && WordOrFloat(d, t) && ProbeEnd(d, t, n) < WORD && Common(p) && OwnConstants(p, t, index) && PoolSmall(p)
    ensures FieldsUnsigned(d, p, Block(d, p, t, index, n), RecordFields(d, p, t, index, n))
  {
    hide Block, Common, OwnConstants, PoolSmall, Unsigned;
    var block := Block(d, p, t, index, n);
    ValueUnsigned(d, p, t, index, n);
    PoolUnsigned(d, p, block, Value(t.candidate), t, index);
    PoolUnsigned(d, p, block, Value(RoleCode(t.role)), t, index);
    PoolUnsigned(d, p, block, Value(RECORD_SCHEMA), t, index);
    forall i | 0 <= i < RecordLength(t)
      ensures RecordValueId(d, p, t, n, i) < WORD && Unsigned(d, p, block, RecordValueId(d, p, t, n, i))
    {
      if i == 3 {
        OperandUnsigned(d, p, block, Operands(d, t)[|Operands(d, t)| - 1]);
      } else if 4 <= i < 10 {
        PositionUnsigned(d, p, t, index, n, i - 4);
      }
    }
  }

  ghost predicate PoolSmall(p: Pool) { forall r :: p.Has(r) ==> p.Id(r) < WORD }

  lemma OperandUnsigned(d: Names, p: Pool, block: seq<Inst>, id: nat)
    requires TypeIs(d.types, id, d.uintT)
    ensures Unsigned(d, p, block, id)
  {}

  lemma PoolUnsigned(d: Names, p: Pool, block: seq<Inst>, r: Request, t: Target, index: nat)
    requires Common(p) && OwnConstants(p, t, index) && PoolSmall(p)
    requires r in [Value(t.candidate), Value(RoleCode(t.role)), Value(RECORD_SCHEMA)] || exists i: nat :: i < 5 && r == Value(HeaderValue(i))
    ensures p.Id(r) < WORD && Unsigned(d, p, block, p.Id(r))
  {
    assert p.Has(r);
  }

  lemma TraceUnsigned(d: Names, p: Pool, t: Target, index: nat, n: nat)
    requires Refusal(d, t).None? && WordOrFloat(d, t) && ProbeEnd(d, t, n) < WORD && Common(p) && OwnConstants(p, t, index) && PoolSmall(p)
    requires TraceBase(t).Some?
    ensures FieldsUnsigned(d, p, Block(d, p, t, index, n), LaneFields(d, p, t, n, TraceStart(d, t, n)))
    ensures FieldsUnsigned(d, p, Block(d, p, t, index, n), HeaderFields(p))
  {
    hide Block, Common, OwnConstants, PoolSmall, Unsigned;
    var block, n3 := Block(d, p, t, index, n), TraceStart(d, t, n);
    ValueUnsigned(d, p, t, index, n);
    PoolUnsigned(d, p, block, Value(t.candidate), t, index);
    forall i: nat | i < 5 ensures p.Id(Value(HeaderValue(i))) < WORD && Unsigned(d, p, block, p.Id(Value(HeaderValue(i)))) {
      PoolUnsigned(d, p, block, Value(HeaderValue(i)), t, index);
    }
    forall i | 0 <= i < 8
      ensures LaneValueId(d, p, t, n, n3, i) < WORD && Unsigned(d, p, block, LaneValueId(d, p, t, n, n3, i))
    {
      if i == 0 || 2 <= i < 5 {
        LaneUnsigned(d, p, t, index, n, if i == 0 then 0 else i - 1);
      } else if i >= 6 {
        OperandUnsigned(d, p, block, Operands(d, t)[i - 5]);
      }
    }
  }

  lemma LoadAt(d: Names, p: Pool, v: Word, n: nat)
    requires d.ptrInput.Some? && n + 2 <= WORD
    ensures |LoadComponent(d, p, v, 0, n)| == 2 && LoadComponent(d, p, v, 0, n)[1] == [Head(4, LOAD), d.uintT, W(n + 1), W(n)]
  {}

  /** Local x and the three workgroup ids. */
  lemma LaneUnsigned(d: Names, p: Pool, t: Target, index: nat, n: nat, k: nat)
    requires Refusal(d, t).None? && ProbeEnd(d, t, n) < WORD && TraceBase(t).Some? && k < 4
    ensures Unsigned(d, p, Block(d, p, t, index, n), TraceStart(d, t, n) + 2 * k + 1)
  {
    hide DebugWords, LoadVector, LoadComponent, LaneSlot, LaneWords, LaneFields, HeaderFields, RecordFields, Convert, Position, Unsigned;
    var n3 := TraceStart(d, t, n);
    var head := Convert(d, t, n) + Position(d, p, t, n) + DebugWords(d, RecordFields(d, p, t, index, n), FieldsStart(d, t, n));
    var x, g := LoadComponent(d, p, d.localVar.value, 0, n3), LoadVector(d, p, d.groupVar.value, n3 + 2);
    var rest := LaneSlot(d, p, TraceBase(t).value, n3) + DebugWords(d, HeaderFields(p), n3 + 10) + LaneWords(d, n3 + 9, LaneFields(d, p, t, n, n3), n3 + 15);
    if k == 0 {
      LoadAt(d, p, d.localVar.value, n3);
      InBlock(d, p, head, x, g + rest, 1, n3 + 1);
      assert head + x + (g + rest) == Block(d, p, t, index, n);
    } else {
      VectorAt(d, p, d.groupVar.value, n3 + 2, k - 1);
      InBlock(d, p, head + x, g, rest, 2 * (k - 1) + 1, n3 + 2 * k + 1);
      assert head + x + g + rest == Block(d, p, t, index, n);
    }
  }

  lemma NoStores(d: Names, p: Pool, whole: seq<Inst>, t: Target, n: nat)
    requires Refusal(d, t).None?
    ensures StoresUnsigned(d, p, whole, Convert(d, t, n) + Position(d, p, t, n))
    ensures var n3 := TraceStart(d, t, n);
      TraceBase(t).Some? ==> StoresUnsigned(d, p, whole,
        LoadComponent(d, p, d.localVar.value, 0, n3) + LoadVector(d, p, d.groupVar.value, n3 + 2) + LaneSlot(d, p, TraceBase(t).value, n3))
  {
    hide Unsigned;
  }

  lemma StoresJoin(d: Names, p: Pool, whole: seq<Inst>, a: seq<Inst>, b: seq<Inst>)
    requires StoresUnsigned(d, p, whole, a) && StoresUnsigned(d, p, whole, b)
    ensures StoresUnsigned(d, p, whole, a + b)
  {
    hide Unsigned;
  }

  /** Every word that a block stores has the unsigned type if and only if the
      stored value is of type %14, and so converted, or the module's unsigned type
      is %6, which the instrumenter takes it to be. */
  lemma ProbesTyped(d: Names, p: Pool, t: Target, index: nat, n: nat)
    requires Refusal(d, t).None? && ProbeEnd(d, t, n) < WORD && Common(p) && OwnConstants(p, t, index) && PoolSmall(p)
    requires t.stored < n && forall r :: p.Has(r) ==> p.Id(r) != t.stored
    ensures StoresUnsigned(d, p, Block(d, p, t, index, n), Block(d, p, t, index, n)) <==> WordOrFloat(d, t)
  {
    hide Block, Unsigned, Common, OwnConstants, PoolSmall, StoresUnsigned;
    if WordOrFloat(d, t) { TypedBlock(d, p, t, index, n); } else { UntypedBlock(d, p, t, index, n); }
  }

  lemma TypedBlock(d: Names, p: Pool, t: Target, index: nat, n: nat)
    requires Refusal(d, t).None? && ProbeEnd(d, t, n) < WORD && Common(p) && OwnConstants(p, t, index) && PoolSmall(p) && WordOrFloat(d, t)
    ensures StoresUnsigned(d, p, Block(d, p, t, index, n), Block(d, p, t, index, n))
  {
    hide Unsigned, Common, OwnConstants, PoolSmall, StoresUnsigned, Convert, Position, DebugWords, LaneWords, LoadComponent, LoadVector, LaneSlot, FieldsUnsigned;
    var whole, n3 := Block(d, p, t, index, n), TraceStart(d, t, n);
    var head, fields := Convert(d, t, n) + Position(d, p, t, n), DebugWords(d, RecordFields(d, p, t, index, n), FieldsStart(d, t, n));
    NoStores(d, p, whole, t, n);
    RecordUnsigned(d, p, t, index, n);
    WordsUnsigned(d, p, whole, RecordFields(d, p, t, index, n), FieldsStart(d, t, n));
    StoresJoin(d, p, whole, head, fields);
    if TraceBase(t).Some? {
      TraceUnsigned(d, p, t, index, n);
      var a := LoadComponent(d, p, d.localVar.value, 0, n3) + LoadVector(d, p, d.groupVar.value, n3 + 2) + LaneSlot(d, p, TraceBase(t).value, n3);
      WordsUnsigned(d, p, whole, HeaderFields(p), n3 + 10);
      LanesUnsigned(d, p, whole, n3 + 9, LaneFields(d, p, t, n, n3), n3 + 15);
      StoresJoin(d, p, whole, a, DebugWords(d, HeaderFields(p), n3 + 10));
      StoresJoin(d, p, whole, a + DebugWords(d, HeaderFields(p), n3 + 10), LaneWords(d, n3 + 9, LaneFields(d, p, t, n, n3), n3 + 15));
      StoresJoin(d, p, whole, head + fields, Trace(d, p, t, n));
    } else {
      assert head + fields + [] == head + fields;
    }
  }

  lemma UntypedBlock(d: Names, p: Pool, t: Target, index: nat, n: nat)
    requires Refusal(d, t).None? && ProbeEnd(d, t, n) < WORD && !WordOrFloat(d, t)
    requires t.stored < n && forall r :: p.Has(r) ==> p.Id(r) != t.stored
    ensures !StoresUnsigned(d, p, Block(d, p, t, index, n), Block(d, p, t, index, n))
  {
    hide Convert, Position, Trace, DebugWords;
    var whole, fields, n2 := Block(d, p, t, index, n), RecordFields(d, p, t, index, n), FieldsStart(d, t, n);
    var head := Convert(d, t, n) + Position(d, p, t, n);
    WordAt(d, fields, n2, 2);
    assert whole[|head| + 5] == DebugWords(d, fields, n2)[5];
    BlockInserted(d, p, t, index, n, n);
  }
}
