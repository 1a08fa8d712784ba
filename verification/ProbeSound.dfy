/** The probed module against the original, for the host and for every value the
    original computes. */
module ProbeSound {
  import opened Words
  import opened Ops
  import opened Machine
  import opened Translation
  import opened Reproduction
  import opened Meaning
  import opened Instrumenter
  import opened ProbeBlocks
  import opened InstrumentSound

  // ---- inserted instructions ----

  /** A store through a fresh id, or an instruction whose result is one. */
  predicate Inserted(inst: Inst, lo: nat) {
    || (Op(inst) == STORE && |inst| >= 3 && inst[1] >= lo)
    || (Op(inst) in {ACCESS_CHAIN, LOAD, BITCAST, I_ADD, I_MUL} && |inst| >= 4 && inst[2] >= lo)
  }

  predicate AllInserted(block: seq<Inst>, lo: nat) {
    forall i :: 0 <= i < |block| ==> Inserted(block[i], lo)
  }

  lemma {:induction false} WordsInserted(d: Names, fields: seq<Field>, n: nat, lo: nat)
    requires lo <= n && n + |fields| <= WORD
    ensures AllInserted(DebugWords(d, fields, n), lo)
  {
    if fields != [] { WordsInserted(d, fields[..|fields| - 1], n, lo); }
  }

  lemma {:induction false} LanesInserted(d: Names, base: nat, fields: seq<Field>, n: nat, lo: nat)
    requires lo <= n && n + 2 * |fields| <= WORD
    ensures AllInserted(LaneWords(d, base, fields, n), lo)
  {
    if fields != [] { LanesInserted(d, base, fields[..|fields| - 1], n, lo); }
  }

  lemma VectorInserted(d: Names, p: Pool, v: Word, n: nat, lo: nat)
    requires d.ptrInput.Some? && lo <= n && n + 6 <= WORD
    ensures AllInserted(LoadVector(d, p, v, n), lo)
  {
    forall c: nat, k: nat | c < 3 && n <= k && k + 2 <= WORD
      ensures AllInserted(LoadComponent(d, p, v, c, k), lo)
    {}
  }

  lemma TraceInserted(d: Names, p: Pool, t: Target, n: nat, lo: nat)
    requires Refusal(d, t).None? && lo <= n && ProbeEnd(d, t, n) < WORD
    ensures AllInserted(Trace(d, p, t, n), lo)
  {
    if TraceBase(t).Some? {
      hide LoadVector, DebugWords, LaneWords;
      var n3 := TraceStart(d, t, n);
      VectorInserted(d, p, d.groupVar.value, n3 + 2, lo);
      WordsInserted(d, HeaderFields(p), n3 + 10, lo);
      LanesInserted(d, n3 + 9, LaneFields(d, p, t, n, n3), n3 + 15, lo);
    }
  }

  /** A block has only inserted instructions, and some. */
  lemma BlockInserted(d: Names, p: Pool, t: Target, index: nat, n: nat, lo: nat)
    requires Refusal(d, t).None? && lo <= n && ProbeEnd(d, t, n) < WORD
    ensures AllInserted(Block(d, p, t, index, n), lo) && Block(d, p, t, index, n) != []
  {
    hide LoadVector, DebugWords, Trace;
    var fields := RecordFields(d, p, t, index, n);
    if t.role == FinalStore {
      VectorInserted(d, p, d.groupVar.value, RecordStart(d, t, n), lo);
      VectorInserted(d, p, d.localVar.value, RecordStart(d, t, n) + 6, lo);
    }
    WordsInserted(d, fields, FieldsStart(d, t, n), lo);
    WordsNonEmpty(d, fields, FieldsStart(d, t, n));
    TraceInserted(d, p, t, n, lo);
  }

  lemma WordsNonEmpty(d: Names, fields: seq<Field>, n: nat)
    requires fields != []
    ensures DebugWords(d, fields, n) != []
  {}

  lemma InsertedPlain(block: seq<Inst>, lo: nat)
    requires AllInserted(block, lo)
    ensures Executable(block) && Plain(block)
  {}

  /** Inserted instructions leave every older id as it is, wherever they stop. */
  lemma {:induction false} InsertedKeeps(st: Statics, w: World, inv: nat, block: seq<Inst>, env: Env, lo: nat)
    requires AllInserted(block, lo) && RunQuiet(st, w, inv, block, env).Done?
    ensures forall id: nat :: id < lo ==> Lookup(st, RunQuiet(st, w, inv, block, env).env, id) == Lookup(st, env, id)
    decreases |block|
  {
    if block != [] {
      var a := Act(st, w, inv, block[0], env);
      InsertedAct(st, w, inv, block[0], env, lo);
      InsertedKeeps(st, w, inv, block[1..], if a.Set? then env[a.id := a.value] else env, lo);
    }
  }

  lemma InsertedAct(st: Statics, w: World, inv: nat, inst: Inst, env: Env, lo: nat)
    requires Inserted(inst, lo)
    ensures Act(st, w, inv, inst, env).Set? ==> Act(st, w, inv, inst, env).id >= lo
  {}

  // ---- the units ----

  function UnitsFor(d: Names, p: Pool, targets: seq<Target>, inst: Inst, n: nat): seq<Unit>
    requires ProbeOne(d, p, targets, inst, n).Ok?
  {
    match FindTarget(targets, inst)
    case None => [Unit([inst], [inst])]
    case Some(i) => [Unit([inst], [inst]), Unit([], Block(d, p, targets[i], i, n))]
  }

  function UnitsAll(d: Names, p: Pool, targets: seq<Target>, insts: seq<Inst>, n: nat): seq<Unit>
    requires ProbeAll(d, p, targets, insts, n).Ok?
  {
    if insts == [] then []
    else
      var front := insts[..|insts| - 1];
      UnitsAll(d, p, targets, front, n) + UnitsFor(d, p, targets, insts[|insts| - 1], ProbeAll(d, p, targets, front, n).value.next)
  }

  lemma UnitsForFlat(d: Names, p: Pool, targets: seq<Target>, inst: Inst, n: nat)
    requires ProbeOne(d, p, targets, inst, n).Ok?
    ensures Flatten(Srcs(UnitsFor(d, p, targets, inst, n))) == [inst]
    ensures Flatten(Dsts(UnitsFor(d, p, targets, inst, n))) == ProbeOne(d, p, targets, inst, n).value.insts
    ensures ProbeOne(d, p, targets, inst, n).value.next >= n
  {
    hide Block, Refusal;
    var copy := Unit([inst], [inst]);
    var none: seq<Unit> := [];
    match FindTarget(targets, inst) {
      case None =>
        UnitsParts(none, copy, none);
        assert none + [copy] + none == [copy];
      case Some(i) =>
        var more := Unit([], Block(d, p, targets[i], i, n));
        UnitsParts([copy], more, none);
        UnitsParts(none, copy, none);
        assert none + [copy] + none == [copy];
        assert [copy] + [more] + none == [copy, more];
    }
  }

  lemma {:induction false} UnitsAllFlat(d: Names, p: Pool, targets: seq<Target>, insts: seq<Inst>, n: nat)
    requires ProbeAll(d, p, targets, insts, n).Ok?
    ensures Flatten(Srcs(UnitsAll(d, p, targets, insts, n))) == insts
    ensures Flatten(Dsts(UnitsAll(d, p, targets, insts, n))) == ProbeAll(d, p, targets, insts, n).value.insts
    ensures ProbeAll(d, p, targets, insts, n).value.next >= n
  {
    hide ProbeOne, UnitsFor, Flatten, Srcs, Dsts;
    if insts == [] {
      NoUnits();
    } else {
      var front, inst := insts[..|insts| - 1], insts[|insts| - 1];
      UnitsAllFlat(d, p, targets, front, n);
      var m := ProbeAll(d, p, targets, front, n).value.next;
      UnitsForFlat(d, p, targets, inst, m);
      SrcsAppend(UnitsAll(d, p, targets, front, n), UnitsFor(d, p, targets, inst, m));
      assert front + [inst] == insts;
    }
  }

  lemma NoUnits()
    ensures Flatten(Srcs([])) == [] && Flatten(Dsts([])) == []
  {}

  /** A unit is a copied instruction or the block of a probed store. */
  ghost predicate Kind(d: Names, p: Pool, targets: seq<Target>, insts: seq<Inst>, unit: Unit, k: nat, i: nat, m: nat) {
    && k < |insts|
    && (unit == Unit([insts[k]], [insts[k]])
        || (FindTarget(targets, insts[k]) == Some(i) && i < |targets| && Refusal(d, targets[i]).None?
            && unit == Unit([], Block(d, p, targets[i], i, m))))
  }

  lemma {:induction false} UnitKind(d: Names, p: Pool, targets: seq<Target>, insts: seq<Inst>, n: nat, u: nat) returns (k: nat, i: nat, m: nat)
    requires ProbeAll(d, p, targets, insts, n).Ok? && u < |UnitsAll(d, p, targets, insts, n)|
    ensures Kind(d, p, targets, insts, UnitsAll(d, p, targets, insts, n)[u], k, i, m)
    ensures n <= m
    ensures UnitsAll(d, p, targets, insts, n)[u].src == [] ==> ProbeEnd(d, targets[i], m) <= ProbeAll(d, p, targets, insts, n).value.next
  {
    hide Block, Refusal;
    var front, inst := insts[..|insts| - 1], insts[|insts| - 1];
    var before := UnitsAll(d, p, targets, front, n);
    UnitsAllFlat(d, p, targets, front, n);
    var m0 := ProbeAll(d, p, targets, front, n).value.next;
    UnitsForFlat(d, p, targets, inst, m0);
    if u < |before| {
      k, i, m := UnitKind(d, p, targets, front, n, u);
    } else {
      k, m := |front|, m0;
      i := match FindTarget(targets, inst) case Some(j) => j case None => 0;
    }
  }

  // ---- the rewrite ----

  /** The ids a block reads are the source's. */
  lemma {:induction false} ChainsOld(w: World, lines: seq<Inst>, bound: nat, id: nat)
    requires ReadsBelow(w, Code(lines), bound) && id in Chains(lines)
    ensures forall i :: 0 <= i < |Chains(lines)[id]| ==> Chains(lines)[id][i] < bound
  {
    var front, inst := lines[..|lines| - 1], lines[|lines| - 1];
    assert forall k :: 0 <= k < |Code(front)| ==> Code(lines)[k] == Code(front)[k];
    if Op(inst) == ACCESS_CHAIN && |inst| >= 4 && inst[2] == id {
      assert Code(lines)[|Code(front)|] == inst;
      forall i | 0 <= i < |inst[3..]| ensures inst[3..][i] < bound {
        assert inst[3..][i] in IdSet(inst[3..]);
        assert inst[3..][i] in Reads(w, Code(lines)[|Code(front)|]);
      }
    } else {
      ChainsOld(w, front, bound, id);
    }
  }

  lemma StoreOld(w: World, insts: seq<Inst>, bound: nat, k: nat)
    requires ReadsBelow(w, Code(insts), bound) && k < |insts| && Op(insts[k]) == STORE && |insts[k]| >= 3
    ensures insts[k][1] < bound && insts[k][2] < bound
  {
    CodeIndex(insts, k);
    assert insts[k][1] in Reads(w, insts[k]) && insts[k][2] in Reads(w, insts[k]);
  }

  /** The intermediate results of a run of the instrumenter that returned. */
  datatype Job = Job(x: Probing, m: Module, targets: seq<Target>, lines: seq<Inst>, uintT: Word, d: Names, p: Pool, all: Probed, out: Module)

  ghost predicate Linked(j: Job) {
    && j.m.Valid() && |j.out.header| == HEADER && j.x.m == j.m && j.x.targets == j.targets
    && Prepared(j.lines, j.targets, j.uintT, j.m.Bound()) == Ok(j.all)
    && j.d == NamesOf(j.x.typed, j.lines, j.uintT, j.m.Bound()) && j.p == Prelude(j.uintT, j.targets, j.m.Bound() + 5)
    && j.m.Bound() + 5 <= j.all.next <= j.out.Bound()
    && (j.targets == [] ==> j.out.insts == j.all.insts && j.out.Bound() == j.all.next)
    && (j.targets != [] ==> ProbeAll(j.d, j.p, j.targets, j.all.insts, j.all.next) == Ok(Probed(j.out.insts, j.out.Bound())))
    && (j.targets != [] ==> !Missing(j.targets, j.all.insts))
  }

  lemma InsertParts(typed: nat -> bool, lines: seq<Inst>, targets: seq<Target>, uintT: Word, bound: nat)
    requires Insert(typed, lines, targets, uintT, bound).Ok?
    ensures Prepared(lines, targets, uintT, bound).Ok?
    ensures targets == [] ==> Insert(typed, lines, targets, uintT, bound) == Prepared(lines, targets, uintT, bound)
    ensures targets != [] ==> var all := Prepared(lines, targets, uintT, bound).value;
      ProbeAll(NamesOf(typed, lines, uintT, bound), Prelude(uintT, targets, bound + 5), targets, all.insts, all.next)
        == Insert(typed, lines, targets, uintT, bound)
      && !Missing(targets, all.insts)
  {
    hide Prelude, ProbeAll, NamesOf, Missing;
  }

  lemma NextGrows(d: Names, p: Pool, targets: seq<Target>, lines: seq<Inst>, uintT: Word, bound: nat, all: Probed)
    requires targets != [] && Prepared(lines, targets, uintT, bound) == Ok(all)
    requires ProbeAll(d, p, targets, all.insts, all.next).Ok?
    ensures bound + 5 <= all.next <= ProbeAll(d, p, targets, all.insts, all.next).value.next
  {
    hide Prelude, Prepared, ProbeAll;
    PreparedNext(lines, targets, uintT, bound);
    PreludeOk(uintT, targets, bound + 5);
    UnitsAllFlat(d, p, targets, all.insts, all.next);
  }

  lemma JobOf(x: Probing) returns (j: Job)
    requires x.m.Valid() && x.Accepted()
    ensures Linked(j) && j.x == x && j.m == x.m && j.targets == x.targets && j.out == x.Output()
    ensures First(IsUint, x.m.insts).Some? && j.uintT == x.Uint() && j.d == x.Found()
    ensures DeclareBuffer(x.m, x.set_, x.binding) == Ok(j.lines)
  {
    hide DeclareBuffer, Insert, Prepared, NamesOf, Prelude, ProbeAll, Missing;
    var bound: nat := x.m.Bound();
    var lines, uintT := x.Lines(), x.Uint();
    InsertParts(x.typed, lines, x.targets, uintT, bound);
    var all, d, p := Prepared(lines, x.targets, uintT, bound).value, NamesOf(x.typed, lines, uintT, bound), Prelude(uintT, x.targets, bound + 5);
    j := Job(x, x.m, x.targets, lines, uintT, d, p, all, x.Output());
    if x.targets == [] { PreparedEmpty(lines, uintT, bound); } else { NextGrows(d, p, x.targets, lines, uintT, bound, all); }
  }

  lemma PreparedEmpty(lines: seq<Inst>, uintT: Word, bound: nat)
    ensures Prepared(lines, [], uintT, bound) == Ok(Probed(lines, bound + 5))
  {}

  ghost function UnitsOf(j: Job): seq<Unit>
    requires Linked(j)
  {
    if j.targets == [] then Copies(j.all.insts) else UnitsAll(j.d, j.p, j.targets, j.all.insts, j.all.next)
  }

  lemma UnitsOfFlat(j: Job)
    requires Linked(j)
    ensures Flatten(Srcs(UnitsOf(j))) == j.all.insts && Flatten(Dsts(UnitsOf(j))) == j.out.insts
  {
    hide Prelude, ProbeAll, NamesOf, Prepared, UnitsAll;
    if j.targets == [] { CopiesFlat(j.all.insts); }
    else { UnitsAllFlat(j.d, j.p, j.targets, j.all.insts, j.all.next); }
  }

  ghost function RewriteOf(w: World, j: Job, entries: seq<Entry>, table: Table): Rewrite
    requires Linked(j)
  {
    Rewrite(ExecUnits(UnitsOf(j)), Scope(j.m.Bound(), {}), true,
            StaticsOf(w, j.m.insts, entries, table), StaticsOf(w, j.out.insts, entries, table))
  }

  /** What is asked of the source and the dispatch. */
  ghost predicate Observable(w: World, j: Job, entries: seq<Entry>, table: Table)
    requires Linked(j)
  {
    && Sourced(w, j.m) && InputsReadable(w, StaticsOf(w, j.m.insts, entries, table), j.d)
    && Extended(w, SpecializationOf(j.m.insts, entries), j.m, j.lines, j.uintT, j.m.Bound() + 5)
    && HasBuffer(j.lines, j.m.Bound(), j.uintT) && Described(j.lines, j.m.Bound(), j.x.set_, j.x.binding)
  }

  ghost predicate Unshared(w: World, j: Job, table: Table)
    requires Linked(j)
  {
    Free(w, j.m, j.x.set_, j.x.binding, table) && (j.targets != [] ==> ZeroThere(j.m.insts))
  }

  // ---- every unit is correct ----

  /** A unit of the whole module: a copy, or a block that fits its store. */
  ghost predicate Fits(w: World, j: Job, unit: Unit, k: nat, i: nat, n: nat)
    requires Linked(j)
  {
    && k < |j.all.insts|
    && (unit == Unit([j.all.insts[k]], [j.all.insts[k]])
        || (i < |j.targets| && Refusal(j.d, j.targets[i]).None? && Older(j.d, j.targets[i], n)
            && j.all.next <= n && ProbeEnd(j.d, j.targets[i], n) <= j.out.Bound()
            && unit == Unit([], Block(j.d, j.p, j.targets[i], i, n))))
  }

  lemma UnitFits(w: World, j: Job, entries: seq<Entry>, table: Table, u: nat) returns (k: nat, i: nat, n: nat)
    requires Linked(j) && Observable(w, j, entries, table) && u < |UnitsOf(j)|
    ensures Fits(w, j, UnitsOf(j)[u], k, i, n)
  {
    hide Prelude, ProbeAll, NamesOf, Prepared, UnitsAll, Block, Refusal, HasBuffer, InputsReadable;
    if j.targets == [] {
      k, i, n := u, 0, 0;
    } else {
      k, i, n := UnitKind(j.d, j.p, j.targets, j.all.insts, j.all.next, u);
      if UnitsOf(j)[u] != Unit([j.all.insts[k]], [j.all.insts[k]]) {
        TargetOld(w, j, entries, table, k, i, n);
      }
    }
  }

  lemma TargetOld(w: World, j: Job, entries: seq<Entry>, table: Table, k: nat, i: nat, n: nat)
    requires Linked(j) && Observable(w, j, entries, table)
    requires k < |j.all.insts| && FindTarget(j.targets, j.all.insts[k]) == Some(i) && j.all.next <= n
    ensures Older(j.d, j.targets[i], n)
  {
    hide Prelude, ProbeAll, Prepared, HasBuffer, InputsReadable, Extended, Same, ReadsBelow;
    var s := SpecializationOf(j.m.insts, entries);
    PreparedWell(w, s, j.m, j.lines, j.uintT, j.targets);
    SameCode(w, s, j.m, j.all.insts, j.uintT, j.all.next);
    SameCode(w, s, j.m, j.lines, j.uintT, j.m.Bound() + 5);
    StoreOld(w, j.all.insts, j.m.Bound(), k);
    var t := j.targets[i];
    if t.pointer in Chains(j.lines) { ChainsOld(w, j.lines, j.m.Bound(), t.pointer); }
  }

  lemma SameCode(w: World, s: Specialization, m: Module, lines: seq<Inst>, uintT: Word, next: nat)
    requires |m.header| == HEADER && Extended(w, s, m, lines, uintT, next)
    ensures Code(lines) == Code(m.insts)
  {}

  lemma ConstantsThere(uintT: Word, targets: seq<Target>, next: nat, i: nat)
    requires i < |targets|
    ensures Common(Prelude(uintT, targets, next)) && OwnConstants(Prelude(uintT, targets, next), targets[i], i)
  {
    hide Prelude, CommonRequests, TargetRequests;
    PreludeServes(uintT, targets, next);
    CommonServed(Prelude(uintT, targets, next));
    TargetServed(Prelude(uintT, targets, next), targets[i], i);
  }

  lemma BlockDeclaresNothing(d: Names, p: Pool, t: Target, index: nat, n: nat)
    requires Refusal(d, t).None? && ProbeEnd(d, t, n) < WORD
    ensures var b := Block(d, p, t, index, n);
      Code(b) == b && Declarations(b) == [] && Ids(b) == [] && b != []
  {
    hide Block, Refusal;
    BlockInserted(d, p, t, index, n, n);
    InsertedPlain(Block(d, p, t, index, n), n);
    CodeExecutable(Block(d, p, t, index, n));
  }

  lemma OutStatics(w: World, j: Job, entries: seq<Entry>, table: Table)
    requires Linked(j) && Observable(w, j, entries, table)
    ensures StaticsOf(w, j.out.insts, entries, table) == StaticsOf(w, j.all.insts, entries, table)
  {
    hide Linked, Observable, Block, Refusal, StaticsOf, Older, UnitsOf;
    var units := UnitsOf(j);
    UnitsOfFlat(j);
    forall u | 0 <= u < |units|
      ensures Declarations(units[u].dst) == Declarations(units[u].src)
    {
      var k, i, n := UnitFits(w, j, entries, table, u);
      if units[u] != Unit([j.all.insts[k]], [j.all.insts[k]]) {
        BlockDeclaresNothing(j.d, j.p, j.targets[i], i, n);
      }
    }
    UnitsDeclarations(units);
    SameStatics(w, j.out.insts, j.all.insts, entries, table);
  }

  lemma AllExtended(w: World, j: Job, entries: seq<Entry>, table: Table)
    requires Linked(j) && Observable(w, j, entries, table)
    ensures Extended(w, SpecializationOf(j.m.insts, entries), j.m, j.all.insts, j.uintT, j.all.next)
    ensures Code(j.all.insts) == Code(j.m.insts)
  {
    hide Extended, HasBuffer, InputsReadable, Prepared, Prelude, ProbeAll, NamesOf;
    PreparedWell(w, SpecializationOf(j.m.insts, entries), j.m, j.lines, j.uintT, j.targets);
    SameCode(w, SpecializationOf(j.m.insts, entries), j.m, j.all.insts, j.uintT, j.all.next);
  }

  lemma JobDescribed(w: World, j: Job, entries: seq<Entry>, table: Table)
    requires Linked(j) && Observable(w, j, entries, table)
    ensures Described(j.all.insts, j.m.Bound(), j.x.set_, j.x.binding)
  {
    hide Prelude, ProbeAll, NamesOf, Described, Extended, Sourced, InputsReadable;
    if j.targets != [] {
      PreludeOk(j.uintT, j.targets, j.m.Bound() + 5);
      DescribedMore(j.lines, First(IsFunction, j.lines).value, j.p.constants, j.m.Bound(), j.x.set_, j.x.binding);
    }
  }

  /** The probes have their buffer to themselves exactly if the dispatch leaves
      it to them. */
  lemma JobPrivate(w: World, j: Job, entries: seq<Entry>, table: Table)
    requires Linked(j) && Observable(w, j, entries, table) && (j.x.set_ as nat, j.x.binding as nat) in table
    ensures Private(StaticsOf(w, j.out.insts, entries, table), w) <==> Free(w, j.m, j.x.set_, j.x.binding, table)
    ensures Private(StaticsOf(w, j.m.insts, entries, table), w)
  {
    hide Linked, Extended, Described, Sourced, InputsReadable, HasBuffer, Private, Free;
    AllExtended(w, j, entries, table);
    JobDescribed(w, j, entries, table);
    OutStatics(w, j, entries, table);
    PrivateIffFree(w, SpecializationOf(j.m.insts, entries), j.m, j.all.insts, j.uintT, j.all.next, j.x.set_, j.x.binding, table,
                   StaticsOf(w, j.all.insts, entries, table));
    assert StaticsOf(w, j.m.insts, entries, table).buffers == Buffers(j.m.insts, table);
  }

  lemma UnsharedBound(w: World, j: Job, table: Table)
    requires Linked(j) && Unshared(w, j, table)
    ensures |j.m.header| == HEADER && (j.x.set_ as nat, j.x.binding as nat) in table
    ensures Free(w, j.m, j.x.set_, j.x.binding, table) && (j.targets != [] ==> ZeroThere(j.m.insts))
  {}

  lemma FitStatics(w: World, j: Job, entries: seq<Entry>, table: Table)
    requires Linked(j) && Observable(w, j, entries, table) && Unshared(w, j, table)
    ensures StaticsFit(RewriteOf(w, j, entries, table), w)
  {
    AllExtended(w, j, entries, table);
    OutStatics(w, j, entries, table);
    UnsharedBound(w, j, table);
    JobPrivate(w, j, entries, table);
    var s, bound := SpecializationOf(j.m.insts, entries), j.m.Bound();
    FitBelow(w, s, j.m, j.all.insts, entries, table, j.uintT, j.all.next, RewriteOf(w, j, entries, table));
  }

  lemma FitBelow(w: World, s: Specialization, m: Module, all: seq<Inst>, entries: seq<Entry>, table: Table, uintT: Word, next: nat, t: Rewrite)
    requires Sourced(w, m) && s == SpecializationOf(m.insts, entries) && Extended(w, s, m, all, uintT, next)
    requires t.scope == Scope(m.Bound(), {})
    requires t.before == StaticsOf(w, m.insts, entries, table) && t.after == StaticsOf(w, all, entries, table)
    requires Private(t.before, w) && Private(t.after, w)
    ensures StaticsFit(t, w)
  {
    hide Private, Consts, Buffers, GoodIds, AllReadOld, HasInt, Decorations, Moduli, Quads, Code, SizeOf, ReadsBelow;
    assert Decorations(all, SPEC_ID) == Decorations(m.insts, SPEC_ID);
    forall v | v != w.debug
      ensures v in t.after.buffers <==> v in t.before.buffers
      ensures v in t.before.buffers ==> t.after.buffers[v] == t.before.buffers[v]
    {
      BuffersSame(w, s, m.Bound(), all, m.insts, table, v);
    }
  }

  /** A probe's block, as a unit of the rewrite. */
  lemma BlockUnitOk(w: World, j: Job, entries: seq<Entry>, table: Table, t: Rewrite, i: nat, n: nat)
    requires Linked(j) && t.scope == Scope(j.m.Bound(), {}) && t.hidden && j.m.Bound() <= j.all.next
    requires Supports(t.after, w, j.d, j.p, j.all.next) && Common(j.p) && i < |j.targets| && OwnConstants(j.p, j.targets[i], i)
    requires Refusal(j.d, j.targets[i]).None? && Older(j.d, j.targets[i], n) && j.all.next <= n && ProbeEnd(j.d, j.targets[i], n) < WORD
    ensures Replaced(t, w, Unit([], Block(j.d, j.p, j.targets[i], i, n)))
  {
    hide Block, Refusal, Older, Supports, Common, OwnConstants, Linked;
    var unit := Unit([], Block(j.d, j.p, j.targets[i], i, n));
    BlockInserted(j.d, j.p, j.targets[i], i, n, n);
    InsertedPlain(unit.dst, n);
    forall inv: nat, e': Env, e: Env
      ensures BlockHolds(t, w, unit, inv, e', e)
    {
      var env' := ProbeRuns(t.after, w, inv, j.d, j.p, j.all.next, j.targets[i], i, n, e');
      forall id: nat | id < t.scope.bound
        ensures Lookup(t.after, env', id) == Lookup(t.after, e', id)
      {
        ExtendsLookup(t.after, e', env', n, ProbeEnd(j.d, j.targets[i], n), id);
      }
      assert RunQuiet(t.before, w, inv, [], e) == Done(e, []);
    }
  }

  lemma JobSupplies(w: World, j: Job, entries: seq<Entry>, table: Table)
    requires Linked(j) && Observable(w, j, entries, table) && j.targets != [] && ZeroThere(j.m.insts)
    ensures Supplies(StaticsOf(w, j.out.insts, entries, table), w, j.d, j.p, j.all.next)
  {
    hide Prelude, ProbeAll, NamesOf, Prepared, Extended, HasBuffer, InputsReadable, StaticsOf, Supplies, ZeroThere, Described;
    OutStatics(w, j, entries, table);
    PreparedSupplies(j.x.typed, w, j.m, j.lines, j.uintT, j.targets, entries, table, j.all);
  }

  lemma JobSupports(w: World, j: Job, entries: seq<Entry>, table: Table)
    requires Linked(j) && Observable(w, j, entries, table) && Unshared(w, j, table) && j.targets != []
    ensures Supports(StaticsOf(w, j.out.insts, entries, table), w, j.d, j.p, j.all.next)
  {
    hide Linked, Observable, StaticsOf, Supplies, Private, Unshared, Free, ZeroThere;
    UnsharedBound(w, j, table);
    JobSupplies(w, j, entries, table);
    JobPrivate(w, j, entries, table);
  }

  lemma CopyFits(w: World, j: Job, entries: seq<Entry>, table: Table, t: Rewrite, k: nat)
    requires Linked(j) && Observable(w, j, entries, table) && t.scope == Scope(j.m.Bound(), {})
    requires k < |j.all.insts| && !Declarative(Op(j.all.insts[k]))
    ensures Copied(t, w, Unit([j.all.insts[k]], [j.all.insts[k]]))
  {
    hide Prelude, ProbeAll, NamesOf, Prepared, Extended, HasBuffer, InputsReadable;
    AllExtended(w, j, entries, table);
    CodeIndex(j.all.insts, k);
  }

  lemma UnitCorrect(w: World, j: Job, entries: seq<Entry>, table: Table, u: nat)
    requires Linked(j) && Observable(w, j, entries, table) && Unshared(w, j, table) && u < |ExecUnits(UnitsOf(j))|
    ensures var t := RewriteOf(w, j, entries, table); UnitOk(t, w, t.units[u]) && !Fence(t.units[u])
  {
    hide Linked, Observable, StaticsOf, Block, Refusal, Older, UnitsOf, Replaced, Copied, Common, OwnConstants, Supports;
    var t := RewriteOf(w, j, entries, table);
    var v := ExecUnitIn(UnitsOf(j), u);
    var k, i, n := UnitFits(w, j, entries, table, v);
    if UnitsOf(j)[v] == Unit([j.all.insts[k]], [j.all.insts[k]]) {
      CodeOne(j.all.insts[k]);
      CopyFits(w, j, entries, table, t, k);
    } else {
      BlockDeclaresNothing(j.d, j.p, j.targets[i], i, n);
      JobSupports(w, j, entries, table);
      JobConstants(j, i);
      BlockUnitOk(w, j, entries, table, t, i, n);
      BlockNoFence(t, w, Block(j.d, j.p, j.targets[i], i, n));
      NothingCode();
    }
  }

  lemma NothingCode()
    ensures Code([]) == []
  {}

  lemma JobConstants(j: Job, i: nat)
    requires Linked(j) && i < |j.targets|
    ensures Common(j.p) && OwnConstants(j.p, j.targets[i], i) && j.m.Bound() <= j.all.next
  {
    hide Prelude, Common, OwnConstants, Prepared, ProbeAll, NamesOf;
    ConstantsThere(j.uintT, j.targets, j.m.Bound() + 5, i);
  }

  lemma BlockNoFence(t: Rewrite, w: World, block: seq<Inst>)
    requires Replaced(t, w, Unit([], block))
    ensures !Fence(Unit([], block))
  {}

  lemma JobPrograms(w: World, j: Job, entries: seq<Entry>, table: Table)
    requires Linked(j) && Observable(w, j, entries, table)
    ensures RewriteOf(w, j, entries, table).Source() == ProgramOf(w, j.m.insts, entries, table)
    ensures RewriteOf(w, j, entries, table).Target() == ProgramOf(w, j.out.insts, entries, table)
  {
    hide StaticsOf, UnitsOf, Extended, Linked, Observable;
    UnitsOfFlat(j);
    ExecUnitsCode(UnitsOf(j));
    AllExtended(w, j, entries, table);
  }

  lemma JobCorrect(w: World, j: Job, entries: seq<Entry>, table: Table)
    requires Linked(j) && Observable(w, j, entries, table) && Unshared(w, j, table)
    ensures Correct(RewriteOf(w, j, entries, table), w) && NoFences(RewriteOf(w, j, entries, table))
  {
    hide Linked, Observable, UnitOk, StaticsFit, UnitsOf, StaticsOf;
    var t := RewriteOf(w, j, entries, table);
    FitStatics(w, j, entries, table);
    forall u | 0 <= u < |t.units|
      ensures UnitOk(t, w, t.units[u]) && !Fence(t.units[u])
    {
      UnitCorrect(w, j, entries, table, u);
    }
  }

  // ---- the results ----

  /** A dispatch: specialization data, descriptor table, invocations and memory. */
  datatype Launch = Launch(entries: seq<Entry>, table: Table, lanes: nat, entry: nat, count: nat, mem: Mem)

  ghost function SourceProgram(x: Probing, w: World, l: Launch): Program {
    ProgramOf(w, x.m.insts, l.entries, l.table)
  }

  ghost function ProbedProgram(x: Probing, w: World, l: Launch): Program {
    ProgramOf(w, x.Output().insts, l.entries, l.table)
  }

  ghost function Begin(p: Program, l: Launch): Config { Start(p, l.entry, l.count, l.mem) }

  ghost function RunOf(p: Program, w: World, l: Launch, schedule: seq<Choice>): Option<Config> {
    Run(p, w, l.lanes, Begin(p, l), schedule)
  }

  /** The source is well formed, its ids stay below its bound, and the built-in
      vectors it names are readable. */
  ghost predicate Probeable(x: Probing, w: World, l: Launch) {
    Sourced(w, x.m) && x.Accepted() && VectorsReadable(w, StaticsOf(w, x.m.insts, l.entries, l.table), x.m.insts)
  }

  ghost predicate FloatThere(insts: seq<Inst>) {
    exists k :: 0 <= k < |insts| && Op(insts[k]) == TYPE_FLOAT && |insts[k]| >= 3 && insts[k][1] == FLOAT_TYPE && insts[k][2] == 32
  }

  /** The three ids that the instrumenter names outright are what it takes them
      for: %52 the constant 0, and %14 and %6, where they matter, the 32-bit float
      and unsigned types. */
  ghost predicate FixedIds(x: Probing) {
    x.targets != [] ==>
      && ZeroThere(x.m.insts)
      && forall i :: 0 <= i < |x.targets| ==>
           WordOrFloat(x.Found(), x.targets[i]) && (IsFloat(x.Found(), x.targets[i]) ==> FloatThere(x.m.insts))
  }

  /** And the dispatch leaves the probe buffer to the probes. */
  ghost predicate Undisturbed(x: Probing, w: World, l: Launch) {
    Probeable(x, w, l) && FixedIds(x) && Free(w, x.m, x.set_, x.binding, l.table)
  }

  /** No schedule drives the source into a fault. */
  ghost predicate SourceSafe(x: Probing, w: World, l: Launch) {
    Safe(SourceProgram(x, w, l), w, l.lanes, Begin(SourceProgram(x, w, l), l))
  }

  lemma VectorsFound(x: Probing, w: World, st: Statics, lines: seq<Inst>)
    requires x.m.Valid() && DeclareBuffer(x.m, x.set_, x.binding) == Ok(lines) && VectorsReadable(w, st, x.m.insts) && x.m.Bound() + 5 <= WORD
    ensures InputsReadable(w, st, x.Found())
  {
    hide DeclareBuffer, InputVector, ResultTypes, Chains;
    var group, local := First(BuiltinNamed(WORKGROUP_ID), lines), First(BuiltinNamed(LOCAL_INVOCATION_ID), lines);
    if group.Some? { BuiltinOld(x.m, x.set_, x.binding, lines, lines[group.value], WORKGROUP_ID); }
    if local.Some? { BuiltinOld(x.m, x.set_, x.binding, lines, lines[local.value], LOCAL_INVOCATION_ID); }
  }

  lemma JobObservable(x: Probing, w: World, l: Launch) returns (j: Job)
    requires Probeable(x, w, l)
    ensures Linked(j) && Observable(w, j, l.entries, l.table) && j.x == x && j.m == x.m && j.targets == x.targets && j.out == x.Output()
    ensures j.d == x.Found() && DeclareBuffer(x.m, x.set_, x.binding) == Ok(j.lines)
  {
    hide Prelude, ProbeAll, NamesOf, Prepared, Extended, HasBuffer, VectorsReadable, InputsReadable, Instrumented, DeclareBuffer, First, StaticsOf, Described, ZeroThere;
    j := JobOf(x);
    JobBound(j);
    JobFits(j);
    VectorsFound(x, w, StaticsOf(w, x.m.insts, l.entries, l.table), j.lines);
    DeclareWell(w, SpecializationOf(x.m.insts, l.entries), x.m, x.set_, x.binding);
    DeclareDescribes(w, x.m, x.set_, x.binding);
  }

  lemma UnsharedHere(x: Probing, w: World, l: Launch, j: Job)
    requires Undisturbed(x, w, l) && Linked(j) && j.x == x
    ensures Unshared(w, j, l.table)
  {}

  lemma JobFits(j: Job)
    requires Linked(j)
    ensures j.m.Bound() + 5 <= WORD
  {
    hide Prelude, ProbeAll, NamesOf, Prepared, Missing;
  }

  /** Non-interference: for the host the probed module does exactly what the
      original does, and nothing else, for any number of invocations under any
      schedule. Only the probe buffer tells them apart. */
  lemma InstrumentationInvisible(x: Probing, w: World, l: Launch)
    requires Undisturbed(x, w, l) && SourceSafe(x, w, l)
    ensures var p, p' := SourceProgram(x, w, l), ProbedProgram(x, w, l); Equivalent(p', Begin(p', l), p, Begin(p, l), w, l.lanes)
  {
    hide Probeable, Linked, Observable, Correct, RewriteOf, ProgramOf, Free, Start;
    var j := JobObservable(x, w, l);
    JobPrograms(w, j, l.entries, l.table);
    JobCorrect(w, j, l.entries, l.table);
    RewriteEquivalent(RewriteOf(w, j, l.entries, l.table), w, l.lanes, l.entry, l.count, l.mem);
  }

  /** Within a block an invocation's older ids keep their values. */
  lemma TrackedKeeps(w: World, j: Job, entries: seq<Entry>, table: Table, i: nat, k: Track, l': Local, l: Local, id: nat)
    requires Linked(j) && Observable(w, j, entries, table) && id < j.m.Bound()
    requires var t := RewriteOf(w, j, entries, table); Tracked(t, w, i, k, l', l) && l.status.Running?
    ensures Lookup(StaticsOf(w, j.out.insts, entries, table), l'.env, id) == Lookup(StaticsOf(w, j.m.insts, entries, table), l.env, id)
  {
    hide Linked, Observable, StaticsOf, UnitsOf, Block, Refusal, Older;
    var t := RewriteOf(w, j, entries, table);
    JobBound(j);
    assert t.scope.Visible(id);
    if k.j > 0 {
      var v := ExecUnitIn(UnitsOf(j), k.u);
      var m, o, n := UnitFits(w, j, entries, table, v);
      if UnitsOf(j)[v] == Unit([j.all.insts[m]], [j.all.insts[m]]) {
        CodeOne(j.all.insts[m]);
      } else {
        var block := Block(j.d, j.p, j.targets[o], o, n);
        BlockDeclaresNothing(j.d, j.p, j.targets[o], o, n);
        BlockInserted(j.d, j.p, j.targets[o], o, n, n);
        JobBound(j);
        InsertedKeeps(t.after, w, i, block[..k.j], k.env0, n);
      }
    }
  }

  lemma JobBound(j: Job)
    requires Linked(j)
    ensures |j.m.header| == HEADER && j.m.Bound() <= j.all.next
  {
    hide Prelude, ProbeAll, NamesOf, Prepared;
  }

  /** The values that both programs know are the same. */
  ghost predicate SameValues(p': Program, c': Config, p: Program, c: Config, bound: nat) {
    forall i: nat, id: nat :: i < |c.locals| && i < |c'.locals| && c.locals[i].status.Running? && id < bound ==>
      Lookup(p'.statics, c'.locals[i].env, id) == Lookup(p.statics, c.locals[i].env, id)
  }

  lemma ValuesKept(w: World, j: Job, entries: seq<Entry>, table: Table, t: Rewrite, tracks: seq<Track>, c': Config, c: Config)
    requires Linked(j) && Observable(w, j, entries, table) && t == RewriteOf(w, j, entries, table) && Related(t, w, tracks, c', c)
    ensures |j.m.header| == HEADER && SameValues(t.Target(), c', t.Source(), c, j.m.Bound())
  {
    hide Linked, Observable, RewriteOf, StaticsOf, Tracked;
    JobBound(j);
    RewriteStatics(w, j, entries, table);
    forall i: nat, id: nat | i < |c.locals| && c.locals[i].status.Running? && id < j.m.Bound()
      ensures Lookup(t.after, c'.locals[i].env, id) == Lookup(t.before, c.locals[i].env, id)
    {
      assert Tracked(t, w, i, tracks[i], c'.locals[i], c.locals[i]);
      TrackedKeeps(w, j, entries, table, i, tracks[i], c'.locals[i], c.locals[i], id);
    }
  }

  lemma RewriteStatics(w: World, j: Job, entries: seq<Entry>, table: Table)
    requires Linked(j)
    ensures var t := RewriteOf(w, j, entries, table);
      t.before == StaticsOf(w, j.m.insts, entries, table) && t.after == StaticsOf(w, j.out.insts, entries, table)
  {}

  lemma JobKeepsValues(w: World, j: Job, entries: seq<Entry>, table: Table, t: Rewrite, lanes: nat, entry: nat, count: nat, mem: Mem, schedule': seq<Choice>)
    returns (schedule: seq<Choice>)
    requires Linked(j) && Observable(w, j, entries, table) && Unshared(w, j, table) && t == RewriteOf(w, j, entries, table)
    requires Safe(t.Source(), w, lanes, Start(t.Source(), entry, count, mem))
    requires Run(t.Target(), w, lanes, Start(t.Target(), entry, count, mem), schedule').Some?
    ensures Run(t.Source(), w, lanes, Start(t.Source(), entry, count, mem), schedule).Some?
    ensures var out', out := Run(t.Target(), w, lanes, Start(t.Target(), entry, count, mem), schedule').value,
                             Run(t.Source(), w, lanes, Start(t.Source(), entry, count, mem), schedule).value;
      SameOutcome(t.Target(), out', t.Source(), out) && |j.m.header| == HEADER && SameValues(t.Target(), out', t.Source(), out, j.m.Bound())
  {
    hide Linked, Observable, RewriteOf, Correct, Related, SameOutcome, SameValues;
    JobCorrect(w, j, entries, table);
    var tracks := StartTracks(t, w, entry, count, mem);
    var tracks2;
    schedule, tracks2 := Simulate(t, w, lanes, Start(t.Target(), entry, count, mem), Start(t.Source(), entry, count, mem), tracks, schedule');
    var out', out := Run(t.Target(), w, lanes, Start(t.Target(), entry, count, mem), schedule').value,
                     Run(t.Source(), w, lanes, Start(t.Source(), entry, count, mem), schedule).value;
    RelatedOutcome(t, w, tracks2, out', out);
    ValuesKept(w, j, entries, table, t, tracks2, out', out);
  }

  /** And at every step of every run each id of the original has, in every
      invocation, the value it has in the original, and memory is the same. */
  lemma ProbesKeepValues(x: Probing, w: World, l: Launch, schedule': seq<Choice>) returns (schedule: seq<Choice>)
    requires Undisturbed(x, w, l) && SourceSafe(x, w, l) && RunOf(ProbedProgram(x, w, l), w, l, schedule').Some?
    ensures var p, p' := SourceProgram(x, w, l), ProbedProgram(x, w, l);
      && RunOf(p, w, l, schedule).Some?
      && var out', out := RunOf(p', w, l, schedule').value, RunOf(p, w, l, schedule).value;
         SameOutcome(p', out', p, out) && |x.m.header| == HEADER && SameValues(p', out', p, out, x.m.Bound())
  {
    hide Linked, Observable, RewriteOf, Probeable, Free, ProgramOf, SameOutcome, SameValues, Run, Start;
    var j := JobObservable(x, w, l);
    JobPrograms(w, j, l.entries, l.table);
    schedule := JobKeepsValues(w, j, l.entries, l.table, RewriteOf(w, j, l.entries, l.table), l.lanes, l.entry, l.count, l.mem, schedule');
  }
}
