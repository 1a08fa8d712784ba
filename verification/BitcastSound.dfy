/** Stage 4 is a refinement, and a byte-exact one: the eight instructions leave
    in the result of each bitcast the four bytes of the word, lowest first. */
module BitcastSound {
  import opened Words
  import opened Ops
  import opened Machine
  import opened Translation
  import opened Reproduction
  import opened Meaning
  import opened Bitcasts

  // ---- bytes ----

  /** The four bytes of a word are its little-endian digits. */
  lemma BytesRecombine(w: nat)
    requires w < WORD
    ensures LittleEndian(Bytes(w)) == w
    ensures forall i :: 0 <= i < 4 ==> Bytes(w)[i] < 256
  {
    var b := Bytes(w);
    assert b[1..][1..] == b[2..] && b[2..][1..] == b[3..] && b[3..][1..] == [];
    assert LittleEndian(b[3..]) == b[3];
    assert LittleEndian(b[2..]) == b[2] + 256 * b[3];
    assert LittleEndian(b[1..]) == b[1] + 256 * (b[2] + 256 * b[3]);
    DigitStep(w);
  }

  lemma DigitStep(w: nat)
    requires w < WORD
    ensures w == w % 256 + 256 * (w / 256 % 256 + 256 * (w / 65536 % 256 + 256 * (w / 0x100_0000 % 256)))
  {
    var a := w / 256;
    var b := a / 256;
    assert w / 65536 == b;
    assert w / 0x100_0000 == b / 256;
  }

  lemma Powers()
    ensures Pow2(8) == 256 && Pow2(16) == 65536 && Pow2(24) == 0x100_0000
  {
    assert Pow2(4) == 16;
    assert Pow2(8) == 256 by { assert Pow2(6) == 64; }
    assert Pow2(12) == 4096 by { assert Pow2(10) == 1024; }
    assert Pow2(16) == 65536 by { assert Pow2(14) == 16384; }
    assert Pow2(20) == 0x10_0000 by { assert Pow2(18) == 0x4_0000; }
    assert Pow2(24) == 0x100_0000 by { assert Pow2(22) == 0x40_0000; }
  }

  // ---- what the scan finds is declared ----

  ghost predicate HasQuad(insts: seq<Inst>, id: nat) {
    exists k :: 0 <= k < |insts| && QuadAt(insts, k, id)
  }

  ghost predicate QuadAt(insts: seq<Inst>, k: nat, id: nat)
    requires k < |insts|
  {
    Op(insts[k]) == TYPE_VECTOR && |insts[k]| >= 4 && insts[k][1] == id && insts[k][3] == 4 && HasInt(insts[..k], insts[k][2], 8)
  }

  ghost predicate FoundInts(insts: seq<Inst>, t: Types) {
    (t.uintT != 0 ==> HasInt(insts, t.uintT, 32)) && (t.ucharT != 0 ==> HasInt(insts, t.ucharT, 8))
  }

  ghost predicate FoundQuad(insts: seq<Inst>, t: Types) {
    t.quadT != 0 ==> HasQuad(insts, t.quadT)
  }

  ghost predicate FoundConsts(insts: seq<Inst>, t: Types) {
    && (t.eight != 0 ==> HasConst(insts, t.eight, 8))
    && (t.sixteen != 0 ==> HasConst(insts, t.sixteen, 16))
    && (t.twentyFour != 0 ==> HasConst(insts, t.twentyFour, 24))
  }

  lemma HasIntMore(a: seq<Inst>, x: Inst, id: nat, width: nat)
    ensures HasInt(a, id, width) ==> HasInt(a + [x], id, width)
    ensures IsInt(x, width) && x[1] == id ==> HasInt(a + [x], id, width)
  {
    if HasInt(a, id, width) {
      var k :| 0 <= k < |a| && IsInt(a[k], width) && a[k][1] == id;
      assert (a + [x])[k] == a[k];
    } else {
      assert (a + [x])[|a|] == x;
    }
  }

  lemma HasConstMore(a: seq<Inst>, x: Inst, id: nat, value: nat)
    ensures HasConst(a, id, value) ==> HasConst(a + [x], id, value)
    ensures ConstDecl(x, id, value) ==> HasConst(a + [x], id, value)
  {
    if HasConst(a, id, value) {
      var k :| 0 <= k < |a| && ConstDecl(a[k], id, value);
      assert ConstDecl((a + [x])[k], id, value);
    } else {
      assert (a + [x])[|a|] == x;
    }
  }

  lemma HasQuadMore(a: seq<Inst>, x: Inst, id: nat)
    ensures HasQuad(a, id) ==> HasQuad(a + [x], id)
    ensures Op(x) == TYPE_VECTOR && |x| >= 4 && x[1] == id && x[3] == 4 && HasInt(a, x[2], 8) ==> HasQuad(a + [x], id)
  {
    assert (a + [x])[..|a|] == a;
    if HasQuad(a, id) {
      var k :| 0 <= k < |a| && QuadAt(a, k, id);
      assert (a + [x])[..k] == a[..k];
      assert QuadAt(a + [x], k, id);
    } else if Op(x) == TYPE_VECTOR && |x| >= 4 && x[1] == id && x[3] == 4 && HasInt(a, x[2], 8) {
      assert QuadAt(a + [x], |a|, id);
    }
  }

  lemma SeeInts(a: seq<Inst>, x: Inst, t: Types)
    requires FoundInts(a, t)
    ensures FoundInts(a + [x], See(t, x))
  {
    HasIntMore(a, x, See(t, x).uintT, 32);
    HasIntMore(a, x, See(t, x).ucharT, 8);
  }

  lemma SeeQuad(a: seq<Inst>, x: Inst, t: Types)
    requires FoundInts(a, t) && FoundQuad(a, t)
    ensures FoundQuad(a + [x], See(t, x))
  {
    HasQuadMore(a, x, See(t, x).quadT);
  }

  lemma SeeConsts(a: seq<Inst>, x: Inst, t: Types)
    requires FoundConsts(a, t)
    ensures FoundConsts(a + [x], See(t, x))
  {
    HasConstMore(a, x, See(t, x).eight, 8);
    HasConstMore(a, x, See(t, x).sixteen, 16);
    HasConstMore(a, x, See(t, x).twentyFour, 24);
  }

  lemma {:induction false} ScanFound(insts: seq<Inst>)
    ensures FoundInts(insts, Scan(insts)) && FoundQuad(insts, Scan(insts)) && FoundConsts(insts, Scan(insts))
  {
    if insts != [] {
      var front, x := insts[..|insts| - 1], insts[|insts| - 1];
      ScanFound(front);
      SeeInts(front, x, Scan(front));
      SeeQuad(front, x, Scan(front));
      SeeConsts(front, x, Scan(front));
      assert front + [x] == insts;
    }
  }

  lemma {:induction false} QuadMeans(insts: seq<Inst>, bound: nat, k: nat, id: nat)
    requires GoodIds(insts, bound) && k < |insts| && QuadAt(insts, k, id)
    ensures id in Quads(insts)
    decreases |insts|
  {
    var front := insts[..|insts| - 1];
    GoodFront(insts, bound);
    if k < |front| {
      assert front[..k] == insts[..k];
      assert QuadAt(front, k, id);
      QuadMeans(front, bound, k, id);
    } else {
      HasIntMeans(front, bound, insts[k][2], 8);
    }
  }

  /** The ids the replacement relies on mean what the scan took them for. */
  ghost predicate TypesMean(st: Statics, t: Types) {
    && t.uintT in st.moduli && st.moduli[t.uintT] == WORD
    && t.ucharT in st.moduli && st.moduli[t.ucharT] == 0x100
    && t.quadT in st.quads
    && t.eight in st.consts && st.consts[t.eight] == Scalar(8)
    && t.sixteen in st.consts && st.consts[t.sixteen] == Scalar(16)
    && t.twentyFour in st.consts && st.consts[t.twentyFour] == Scalar(24)
  }

  // ---- the block ----

  function BlockIds(n: nat, result: nat): (r: seq<nat>)
    ensures |r| == 8
  {
    [n, n + 1, n + 2, n + 3, n + 4, n + 5, n + 6, result]
  }

  function BlockVals(w: nat): (r: seq<Val>)
    ensures |r| == 8
  {
    [Scalar(w % 256), Scalar(w / 256), Scalar(w / 256 % 256), Scalar(w / 65536), Scalar(w / 65536 % 256),
     Scalar(w / 0x100_0000), Scalar(w / 0x100_0000 % 256), Composite(Scalars(Bytes(w)))]
  }

  /** The replacement of a bitcast of the word `x` is entered with `env`. */
  ghost predicate Entered(st: Statics, t: Types, inst: Inst, n: nat, env: Env, x: nat) {
    && |inst| == 4 && n + 7 <= WORD && TypesMean(st, t)
    && (forall id :: id in st.consts ==> id < n)
    && inst[3] < n && Lookup(st, env, inst[3]) == Scalar(x) && x < WORD
  }

  ghost predicate SetsAt(st: Statics, w: World, t: Types, inst: Inst, n: nat, env: Env, x: nat, inv: nat, i: nat)
    requires |inst| == 4 && n + 7 <= WORD && i < 8
  {
    var ids, vals := BlockIds(n, inst[2]), BlockVals(x);
    Act(st, w, inv, Lowered(t, inst, n)[i], EnvAt(env, ids, vals, i)) == Set(ids[i], vals[i])
  }

  lemma OldLookup(st: Statics, env: Env, n: nat, result: nat, x: nat, i: nat, id: nat)
    requires i <= 7 && (id < n || id in st.consts)
    ensures Lookup(st, EnvAt(env, BlockIds(n, result), BlockVals(x), i), id) == Lookup(st, env, id)
  {
    if id !in st.consts {
      EnvAtOther(env, BlockIds(n, result), BlockVals(x), i, id);
    }
  }

  lemma NewLookup(st: Statics, env: Env, n: nat, result: nat, x: nat, i: nat, j: nat)
    requires j < i <= 7
    requires forall id :: id in st.consts ==> id < n
    ensures Lookup(st, EnvAt(env, BlockIds(n, result), BlockVals(x), i), n + j) == BlockVals(x)[j]
  {
    EnvAtSet(env, BlockIds(n, result), BlockVals(x), i, j);
  }

  lemma ByteSets(st: Statics, w: World, t: Types, inst: Inst, n: nat, env: Env, x: nat, inv: nat, i: nat)
    requires Entered(st, t, inst, n, env, x) && i in {0, 2, 4, 6}
    ensures SetsAt(st, w, t, inst, n, env, x, inv, i)
  {
    var env' := EnvAt(env, BlockIds(n, inst[2]), BlockVals(x), i);
    var line := Lowered(t, inst, n)[i];
    if i == 0 {
      OldLookup(st, env, n, inst[2], x, i, inst[3]);
      ActConvert(st, w, inv, line, env', x);
    } else {
      NewLookup(st, env, n, inst[2], x, i, i - 1);
      ActConvert(st, w, inv, line, env', BlockVals(x)[i - 1].w);
    }
  }

  lemma ShiftSets(st: Statics, w: World, t: Types, inst: Inst, n: nat, env: Env, x: nat, inv: nat, i: nat)
    requires Entered(st, t, inst, n, env, x) && i in {1, 3, 5}
    ensures SetsAt(st, w, t, inst, n, env, x, inv, i)
  {
    var env' := EnvAt(env, BlockIds(n, inst[2]), BlockVals(x), i);
    var line := Lowered(t, inst, n)[i];
    var amount, id := if i == 1 then 8 else if i == 3 then 16 else 24, if i == 1 then t.eight else if i == 3 then t.sixteen else t.twentyFour;
    OldLookup(st, env, n, inst[2], x, i, inst[3]);
    OldLookup(st, env, n, inst[2], x, i, id);
    Powers();
    ActArith(st, w, inv, line, env', x, amount);
  }

  lemma QuadSets(st: Statics, w: World, t: Types, inst: Inst, n: nat, env: Env, x: nat, inv: nat)
    requires Entered(st, t, inst, n, env, x)
    ensures SetsAt(st, w, t, inst, n, env, x, inv, 7)
  {
    var env' := EnvAt(env, BlockIds(n, inst[2]), BlockVals(x), 7);
    var line := Lowered(t, inst, n)[7];
    NewLookup(st, env, n, inst[2], x, 7, 0);
    NewLookup(st, env, n, inst[2], x, 7, 2);
    NewLookup(st, env, n, inst[2], x, 7, 4);
    NewLookup(st, env, n, inst[2], x, 7, 6);
    var parts := Scalars(Bytes(x));
    assert Lookups(st, env', line[3..]) == parts;
    ActConstruct(st, w, inv, line, env', parts);
  }

  lemma LoweredRuns(st: Statics, w: World, t: Types, inst: Inst, n: nat, env: Env, x: nat, inv: nat)
    requires Entered(st, t, inst, n, env, x)
    ensures RunQuiet(st, w, inv, Lowered(t, inst, n), env) == Done(EnvAt(env, BlockIds(n, inst[2]), BlockVals(x), 8), [])
  {
    var ids, vals, block := BlockIds(n, inst[2]), BlockVals(x), Lowered(t, inst, n);
    forall i | 0 <= i < 8
      ensures Act(st, w, inv, block[i], EnvAt(env, ids, vals, i)) == Set(ids[i], vals[i])
    {
      if i == 7 { QuadSets(st, w, t, inst, n, env, x, inv); }
      else if i in {1, 3, 5} { ShiftSets(st, w, t, inst, n, env, x, inv, i); }
      else { ByteSets(st, w, t, inst, n, env, x, inv, i); }
      assert SetsAt(st, w, t, inst, n, env, x, inv, i);
    }
    QuietSets(st, w, inv, block, env, ids, vals, 0);
    assert block[0..] == block;
  }

  /** A match may be replaced: it reads what both programs know. */
  ghost predicate Replaceable(r: Rewrite, w: World, t: Types, inst: Inst, n: nat) {
    && Matches(t, inst) && n + 7 <= WORD
    && r.before == r.after && !r.hidden && TypesMean(r.before, t)
    && r.scope.bound <= n && (forall id :: id in r.before.consts ==> id < r.scope.bound)
    && r.scope.Visible(inst[3])
  }

  /** What OpBitcast meant, the replacement means. */
  lemma LoweredHolds(r: Rewrite, w: World, t: Types, inst: Inst, n: nat, inv: nat, e': Env, e: Env)
    requires Replaceable(r, w, t, inst, n)
    ensures BlockHolds(r, w, Unit([inst], Lowered(t, inst, n)), inv, e', e)
  {
    if Agree(r, e', e) {
      var st := r.before;
      ActQuad(st, w, inv, inst, e);
      var one: seq<Inst>, none: seq<Inst> := [inst], [];
      assert one[1..] == none;
      var a := Lookup(st, e, inst[3]);
      if a.Scalar? && a.w < WORD {
        var v := Composite(Scalars(Bytes(a.w)));
        assert RunQuiet(st, w, inv, none, e[inst[2] := v]) == Done(e[inst[2] := v], []);
        assert RunQuiet(st, w, inv, one, e) == Done(e[inst[2] := v], []);
        LoweredRuns(st, w, t, inst, n, e', a.w, inv);
        LoweredAgree(r, inst, n, e', e, a.w);
      } else {
        assert RunQuiet(st, w, inv, one, e) == Broken;
      }
    }
  }

  lemma LoweredAgree(r: Rewrite, inst: Inst, n: nat, e': Env, e: Env, x: nat)
    requires Agree(r, e', e) && |inst| == 4 && r.before == r.after && r.scope.bound <= n
    ensures Agree(r, EnvAt(e', BlockIds(n, inst[2]), BlockVals(x), 8), e[inst[2] := Composite(Scalars(Bytes(x)))])
  {
    var ids, vals := BlockIds(n, inst[2]), BlockVals(x);
    forall id | r.scope.Visible(id)
      ensures Lookup(r.after, EnvAt(e', ids, vals, 8), id) == Lookup(r.before, e[inst[2] := Composite(Scalars(Bytes(x)))], id)
    {
      if id == inst[2] { EnvAtSet(e', ids, vals, 8, 7); } else { EnvAtOther(e', ids, vals, 8, id); }
      assert Lookup(r.after, e', id) == Lookup(r.before, e, id);
    }
  }

  // ---- the whole module ----

  ghost function RewriteOf(w: World, m: Module, entries: seq<Entry>, table: Table): Rewrite
    requires |m.header| == HEADER && NewBound(m) < WORD
  {
    var st := StaticsOf(w, m.insts, entries, table);
    Rewrite(ExecUnits(Units(m)), Scope(m.Bound(), {}), false, st, st)
  }

  lemma {:induction false} UnitIs(t: Types, insts: seq<Inst>, n: nat, u: nat) returns (n': nat)
    requires n + 7 * Count(t, insts) <= WORD && u < |insts|
    ensures n <= n' && n' + Fresh(t, insts[u]) <= n + 7 * Count(t, insts) && UnitsFrom(t, insts, n)[u] == UnitOf(t, insts[u], n')
  {
    UnitsStep(t, insts, n);
    if u == 0 { n' := n; } else { n' := UnitIs(t, insts[1..], n + Fresh(t, insts[0]), u - 1); }
  }

  lemma TypesKnown(w: World, m: Module, entries: seq<Entry>, table: Table)
    requires WellFormed(w, m) && Complete(Scan(m.insts))
    ensures TypesMean(StaticsOf(w, m.insts, entries, table), Scan(m.insts))
    ensures forall id :: id in StaticsOf(w, m.insts, entries, table).consts ==> id < m.Bound()
  {
    var t, s := Scan(m.insts), SpecializationOf(m.insts, entries);
    ScanFound(m.insts);
    HasIntMeans(m.insts, m.Bound(), t.uintT, 32);
    HasIntMeans(m.insts, m.Bound(), t.ucharT, 8);
    var k :| 0 <= k < |m.insts| && QuadAt(m.insts, k, t.quadT);
    QuadMeans(m.insts, m.Bound(), k, t.quadT);
    HasConstMeans(w, s, m.insts, m.Bound(), t.eight, 8);
    HasConstMeans(w, s, m.insts, m.Bound(), t.sixteen, 16);
    HasConstMeans(w, s, m.insts, m.Bound(), t.twentyFour, 24);
    ConstsKeys(w, s, m.insts);
  }

  lemma MatchUnitOk(r: Rewrite, w: World, t: Types, inst: Inst, n: nat)
    requires Replaceable(r, w, t, inst, n)
    ensures var unit := UnitOf(t, inst, n);
      Unit(Code(unit.src), Code(unit.dst)) == unit && Replaced(r, w, unit)
  {
    hide Code, BlockHolds;
    var unit := UnitOf(t, inst, n);
    CodeExecutable(unit.src);
    CodeExecutable(unit.dst);
    forall inv: nat, e': Env, e: Env
      ensures BlockHolds(r, w, unit, inv, e', e)
    {
      LoweredHolds(r, w, t, inst, n, inv, e', e);
    }
  }

  lemma KeptUnitOk(w: World, m: Module, entries: seq<Entry>, table: Table, v: nat)
    requires WellFormed(w, m) && NewBound(m) < WORD && v < |m.insts| && !Declarative(Op(m.insts[v]))
    ensures Copied(RewriteOf(w, m, entries, table), w, Unit([m.insts[v]], [m.insts[v]]))
  {
    CodeIndex(m.insts, v);
  }

  lemma MatchFits(w: World, m: Module, entries: seq<Entry>, table: Table, v: nat, n: nat)
    requires WellFormed(w, m) && Applies(m) && NewBound(m) < WORD && v < |m.insts|
    requires Matches(Scan(m.insts), m.insts[v]) && m.Bound() <= n && n + 7 <= WORD
    ensures Replaceable(RewriteOf(w, m, entries, table), w, Scan(m.insts), m.insts[v], n)
  {
    TypesKnown(w, m, entries, table);
    CodeIndex(m.insts, v);
    assert m.insts[v][3] in Reads(w, m.insts[v]);
  }

  lemma UnitFits(w: World, m: Module, entries: seq<Entry>, table: Table, u: nat)
    requires WellFormed(w, m) && Applies(m) && NewBound(m) < WORD && u < |ExecUnits(Units(m))|
    ensures UnitOk(RewriteOf(w, m, entries, table), w, ExecUnits(Units(m))[u])
    ensures ExecUnits(Units(m))[u].src != []
  {
    var v := ExecUnitIn(Units(m), u);
    var n := UnitIs(Scan(m.insts), m.insts, m.Bound(), v);
    CodeOne(m.insts[v]);
    if Matches(Scan(m.insts), m.insts[v]) {
      MatchFits(w, m, entries, table, v, n);
      MatchUnitOk(RewriteOf(w, m, entries, table), w, Scan(m.insts), m.insts[v], n);
    } else {
      KeptUnitOk(w, m, entries, table, v);
    }
  }

  lemma UnitDeclares(t: Types, inst: Inst, n: nat)
    requires Matches(t, inst) ==> n + 7 <= WORD
    ensures Declarations(UnitOf(t, inst, n).dst) == Declarations([inst]) && Ids(UnitOf(t, inst, n).dst) == Ids([inst])
  {
    if Matches(t, inst) {
      CodeOne(inst);
      CodeExecutable(Lowered(t, inst, n));
    }
  }

  lemma UnitsSrcs(t: Types, insts: seq<Inst>, n: nat)
    requires n + 7 * Count(t, insts) <= WORD
    ensures Flatten(Srcs(UnitsFrom(t, insts, n))) == insts
    decreases |insts|
  {
    if insts != [] {
      UnitsStep(t, insts, n);
      UnitsSrcs(t, insts[1..], n + Fresh(t, insts[0]));
      UnitsHead(UnitsFrom(t, insts, n), UnitOf(t, insts[0], n), UnitsFrom(t, insts[1..], n + Fresh(t, insts[0])));
    }
  }

  lemma UnitsHead(all: seq<Unit>, unit: Unit, rest: seq<Unit>)
    requires all == [unit] + rest
    ensures Flatten(Srcs(all)) == unit.src + Flatten(Srcs(rest))
    ensures Flatten(Dsts(all)) == unit.dst + Flatten(Dsts(rest))
  {
    UnitsCons(all);
    assert all[1..] == rest;
  }

  lemma LowerDeclares(m: Module)
    requires m.Valid() && Applies(m) && NewBound(m) < WORD
    ensures Declarations(LowerModule(m).value.insts) == Declarations(m.insts)
    ensures Ids(LowerModule(m).value.insts) == Ids(m.insts)
  {
    var t, units := Scan(m.insts), Units(m);
    forall u | 0 <= u < |units|
      ensures Declarations(units[u].dst) == Declarations(units[u].src) && Ids(units[u].dst) == Ids(units[u].src)
    {
      var n := UnitIs(t, m.insts, m.Bound(), u);
      UnitDeclares(t, m.insts[u], n);
    }
    UnitsDeclarations(units);
    UnitsIds(units);
    UnitsSrcs(t, m.insts, m.Bound());
  }

  lemma LowerStatics(w: World, m: Module, entries: seq<Entry>, table: Table)
    requires m.Valid() && Applies(m) && NewBound(m) < WORD
    ensures RewriteOf(w, m, entries, table).Source() == ProgramOf(w, m.insts, entries, table)
    ensures RewriteOf(w, m, entries, table).Target() == ProgramOf(w, LowerModule(m).value.insts, entries, table)
  {
    ExecUnitsCode(Units(m));
    UnitsSrcs(Scan(m.insts), m.insts, m.Bound());
    LowerDeclares(m);
    SameStatics(w, LowerModule(m).value.insts, m.insts, entries, table);
  }

  lemma LowerCorrect(w: World, m: Module, entries: seq<Entry>, table: Table)
    requires WellFormed(w, m) && Applies(m) && NewBound(m) < WORD
    ensures Correct(RewriteOf(w, m, entries, table), w) && NoFences(RewriteOf(w, m, entries, table))
  {
    var r := RewriteOf(w, m, entries, table);
    forall u | 0 <= u < |r.units|
      ensures UnitOk(r, w, r.units[u]) && r.units[u].src != []
    {
      UnitFits(w, m, entries, table, u);
    }
  }

  /** Stage 4 preserves meaning: the lowered module does what the source does
      and nothing else, if the source never faults (in particular, never
      bitcasts anything but one 32-bit word to four bytes). */
  lemma LowerEquivalent(w: World, m: Module, entries: seq<Entry>, table: Table, lanes: nat, entry: nat, count: nat, mem: Mem)
    requires WellFormed(w, m) && LowerModule(m).Ok?
    requires var p := ProgramOf(w, m.insts, entries, table); Safe(p, w, lanes, Start(p, entry, count, mem))
    ensures var p, p' := ProgramOf(w, m.insts, entries, table), ProgramOf(w, LowerModule(m).value.insts, entries, table);
      Equivalent(p', Start(p', entry, count, mem), p, Start(p, entry, count, mem), w, lanes)
  {
    var p := ProgramOf(w, m.insts, entries, table);
    if Applies(m) {
      LowerStatics(w, m, entries, table);
      LowerCorrect(w, m, entries, table);
      RewriteEquivalent(RewriteOf(w, m, entries, table), w, lanes, entry, count, mem);
    } else {
      RefinesReflexive(p, Start(p, entry, count, mem), w, lanes);
    }
  }

  // ---- exact accounting ----

  lemma LoweredLength(t: Types, inst: Inst, n: nat)
    requires |inst| == 4 && n + 7 <= WORD
    ensures |Flatten(Lowered(t, inst, n))| == 38 && AllSized(Lowered(t, inst, n))
  {
    var b := Lowered(t, inst, n);
    assert |Flatten(b[7..])| == 7;
    assert |Flatten(b[6..])| == 11 by { assert b[6..][1..] == b[7..]; }
    assert |Flatten(b[5..])| == 16 by { assert b[5..][1..] == b[6..]; }
    assert |Flatten(b[4..])| == 20 by { assert b[4..][1..] == b[5..]; }
    assert |Flatten(b[3..])| == 25 by { assert b[3..][1..] == b[4..]; }
    assert |Flatten(b[2..])| == 29 by { assert b[2..][1..] == b[3..]; }
    assert |Flatten(b[1..])| == 34 by { assert b[1..][1..] == b[2..]; }
  }

  lemma {:induction false} PendingLength(t: Types, insts: seq<Inst>, n: nat)
    requires n + 7 * Count(t, insts) <= WORD
    ensures |Pending(t, insts, n)| == |Flatten(insts)| + 34 * Count(t, insts)
    decreases |insts|
  {
    if insts != [] {
      PendingStep(t, insts, n);
      PendingLength(t, insts[1..], n + Fresh(t, insts[0]));
      FlatOne(insts[0]);
      if Matches(t, insts[0]) { LoweredLength(t, insts[0], n); }
    }
  }

  lemma LowerLength(m: Module)
    requires m.Valid() && Applies(m) && NewBound(m) < WORD
    ensures |LowerModule(m).value.Words()| == |m.Words()| + 34 * Count(Scan(m.insts), m.insts)
  {
    PendingLength(Scan(m.insts), m.insts, m.Bound());
  }

  /** Where an instruction of the lowered module comes from. */
  lemma OutputInst(m: Module, i: nat) returns (j: nat, n: nat)
    requires m.Valid() && Applies(m) && NewBound(m) < WORD && i < |LowerModule(m).value.insts|
    ensures j < |m.insts|
    ensures var out := LowerModule(m).value.insts[i];
      || out == m.insts[j]
      || (Matches(Scan(m.insts), m.insts[j]) && m.Bound() <= n && n + 7 <= NewBound(m)
          && out in Lowered(Scan(m.insts), m.insts[j], n))
  {
    var b, o := FlattenIn(Dsts(Units(m)), i);
    n := UnitIs(Scan(m.insts), m.insts, m.Bound(), b);
    j := b;
  }

  /** The lowered module has unique declared ids below its new bound, well-sized
      instructions and one-word constants, and its code reads nothing at or above
      the bound. */
  lemma LowerWellFormed(w: World, m: Module)
    requires WellFormed(w, m) && LowerModule(m).Ok?
    ensures WellFormed(w, LowerModule(m).value)
  {
    if Applies(m) {
      var t, out := Scan(m.insts), LowerModule(m).value;
      LowerDeclares(m);
      forall i | 0 <= i < |out.insts|
        ensures WellSized(out.insts[i])
        ensures Op(out.insts[i]) == CONSTANT || Op(out.insts[i]) == SPEC_CONSTANT ==> |out.insts[i]| == 4
      {
        var j, n := OutputInst(m, i);
      }
      forall k, id | 0 <= k < |Code(out.insts)| && id in Reads(w, Code(out.insts)[k])
        ensures id < out.Bound()
      {
        OutputReads(w, m, k, id);
      }
    }
  }

  lemma LoweredReads(w: World, t: Types, inst: Inst, n: nat, o: nat, bound: nat)
    requires |inst| == 4 && n + 7 <= WORD && n + 7 <= bound && o < 8
    requires inst[3] < bound && t.eight < bound && t.sixteen < bound && t.twentyFour < bound
    ensures forall id :: id in Reads(w, Lowered(t, inst, n)[o]) ==> id < bound
  {}

  lemma OutputReads(w: World, m: Module, k: nat, id: nat)
    requires WellFormed(w, m) && Applies(m) && NewBound(m) < WORD
    requires k < |Code(LowerModule(m).value.insts)| && id in Reads(w, Code(LowerModule(m).value.insts)[k])
    ensures id < NewBound(m)
  {
    var t, out := Scan(m.insts), LowerModule(m).value.insts;
    var i := CodeIn(out, k);
    var j, n := OutputInst(m, i);
    var inst := m.insts[j];
    if out[i] == inst {
      CodeIndex(m.insts, j);
    } else {
      ConstantsBelow(w, m);
      CodeIndex(m.insts, j);
      assert inst[3] in Reads(w, inst);
      var o :| 0 <= o < 8 && out[i] == Lowered(t, inst, n)[o];
      LoweredReads(w, t, inst, n, o, NewBound(m));
    }
  }

  lemma ConstantsBelow(w: World, m: Module)
    requires WellFormed(w, m) && Complete(Scan(m.insts))
    ensures var t := Scan(m.insts); t.eight < m.Bound() && t.sixteen < m.Bound() && t.twentyFour < m.Bound()
  {
    TypesKnown(w, m, [], map[]);
  }

  // ---- fresh ids ----

  lemma LoweredDefs(t: Types, inst: Inst, n: nat, bound: nat)
    requires |inst| == 4 && n + 7 <= WORD && bound <= n && inst[2] < bound
    ensures Defs(Lowered(t, inst, n), bound) == Range(n, n + 7)
  {
    var b := Lowered(t, inst, n);
    DefsFirst(b, bound, n, 7);
    assert b[..8][..7] == b[..7] && b[..8] == b;
  }

  lemma UnitDefs(t: Types, inst: Inst, n: nat, bound: nat)
    requires (Matches(t, inst) ==> n + 7 <= WORD) && bound <= n
    requires Produces(Op(inst)) && |inst| >= 3 ==> inst[2] < bound
    ensures Defs(UnitOf(t, inst, n).dst, bound) == Range(n, n + Fresh(t, inst))
  {
    DefsOne(inst, bound);
    if Matches(t, inst) { LoweredDefs(t, inst, n, bound); }
  }

  lemma DefsHead(all: seq<Unit>, unit: Unit, rest: seq<Unit>, bound: nat)
    requires all == [unit] + rest
    ensures Defs(Flatten(Dsts(all)), bound) == Defs(unit.dst, bound) + Defs(Flatten(Dsts(rest)), bound)
  {
    UnitsHead(all, unit, rest);
    DefsAppend(unit.dst, Flatten(Dsts(rest)), bound);
  }

  lemma {:induction false} UnitsDefs(t: Types, insts: seq<Inst>, n: nat, bound: nat, end: nat, units: seq<Unit>)
    requires end == n + 7 * Count(t, insts) <= WORD && bound <= n && ResultsBelow(insts, bound)
    requires units == UnitsFrom(t, insts, n)
    ensures Defs(Flatten(Dsts(units)), bound) == Range(n, end)
    decreases |insts|
  {
    if insts == [] {
      assert units == [];
    } else {
      var n' := n + Fresh(t, insts[0]);
      UnitsStep(t, insts, n);
      var unit, rest := UnitOf(t, insts[0], n), UnitsFrom(t, insts[1..], n');
      assert units == [unit] + rest;
      UnitDefs(t, insts[0], n, bound);
      DefsHead(units, unit, rest, bound);
      UnitsDefs(t, insts[1..], n', bound, end, rest);
      RangeSplit(n, n', end);
    }
  }

  /** Every reserved id is defined exactly once, in order. */
  lemma LowerDefs(m: Module)
    requires m.Valid() && Applies(m) && NewBound(m) < WORD && ResultsBelow(m.insts, m.Bound())
    ensures Defs(LowerModule(m).value.insts, m.Bound()) == Range(m.Bound(), NewBound(m))
    ensures LowerModule(m).value.Bound() == NewBound(m)
  {
    UnitsDefs(Scan(m.insts), m.insts, m.Bound(), m.Bound(), NewBound(m), Units(m));
  }
}
