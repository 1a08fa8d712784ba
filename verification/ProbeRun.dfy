/** The whole probe protocol: instrument, dispatch under any schedule, read back. */
module ProbeRun {
  import opened Words
  import opened Ops
  import opened Machine
  import opened Translation
  import opened Meaning
  import opened Instrumenter
  import opened ProbeBlocks
  import opened InstrumentSound
  import opened ProbeSound
  import opened ProbeLog
  import opened ProbeEvents
  import R = ProbeProtocol
  import P = ProbeParser

  // ---- every block stands behind its store ----

  predicate IsCopy(unit: Unit) {
    |unit.src| == 1 && unit.dst == unit.src && !Declarative(Op(unit.src[0]))
  }

  /** `unit` is the block of the store `inst`, with ids from `lo` up to `hi`. */
  ghost predicate BlockFor(d: Names, p: Pool, targets: seq<Target>, unit: Unit, inst: Inst, lo: nat, hi: nat) {
    var f := FindTarget(targets, inst);
    && f.Some? && Refusal(d, targets[f.value]).None? && unit.src == []
    && exists n: nat :: lo <= n && ProbeEnd(d, targets[f.value], n) <= hi && unit.dst == Block(d, p, targets[f.value], f.value, n)
  }

  /** A copied instruction, with its block behind it if it is a matched store; or
      such a block. */
  ghost predicate PairedAt(d: Names, p: Pool, targets: seq<Target>, units: seq<Unit>, u: nat, lo: nat, hi: nat)
    requires u < |units|
  {
    || (IsCopy(units[u])
        && (FindTarget(targets, units[u].src[0]).Some? ==> u + 1 < |units| && BlockFor(d, p, targets, units[u + 1], units[u].src[0], lo, hi)))
    || (u > 0 && IsCopy(units[u - 1]) && BlockFor(d, p, targets, units[u], units[u - 1].src[0], lo, hi))
  }

  ghost predicate Paired(d: Names, p: Pool, targets: seq<Target>, units: seq<Unit>, lo: nat, hi: nat) {
    forall u: nat :: u < |units| ==> PairedAt(d, p, targets, units, u, lo, hi)
  }

  lemma PairedAppend(d: Names, p: Pool, targets: seq<Target>, a: seq<Unit>, b: seq<Unit>, lo: nat, mid: nat, hi: nat)
    requires Paired(d, p, targets, a, lo, mid) && Paired(d, p, targets, b, mid, hi) && lo <= mid <= hi
    ensures Paired(d, p, targets, a + b, lo, hi)
  {
    hide PairedAt;
    forall u: nat | u < |a + b| ensures PairedAt(d, p, targets, a + b, u, lo, hi) {
      if u < |a| {
        PairedThere(d, p, targets, [], a, b, u, lo, mid, lo, hi);
        assert [] + a + b == a + b;
      } else {
        PairedThere(d, p, targets, a, b, [], u - |a|, mid, hi, lo, hi);
        assert a + b + [] == a + b;
      }
    }
  }

  lemma PairedThere(d: Names, p: Pool, targets: seq<Target>, a: seq<Unit>, b: seq<Unit>, c: seq<Unit>, u: nat, lo: nat, hi: nat, lo': nat, hi': nat)
    requires u < |b| && PairedAt(d, p, targets, b, u, lo, hi) && lo' <= lo && hi <= hi'
    ensures PairedAt(d, p, targets, a + b + c, |a| + u, lo', hi')
  {
    hide BlockFor, IsCopy, FindTarget;
    var all := a + b + c;
    assert all[|a| + u] == b[u];
    if u + 1 < |b| {
      assert all[|a| + u + 1] == b[u + 1];
      if IsCopy(b[u]) { CopyLength(b[u]); BlockWider(d, p, targets, b[u + 1], b[u].src[0], lo, hi, lo', hi'); }
    }
    if u > 0 {
      assert all[|a| + u - 1] == b[u - 1];
      if IsCopy(b[u - 1]) { CopyLength(b[u - 1]); BlockWider(d, p, targets, b[u], b[u - 1].src[0], lo, hi, lo', hi'); }
    }
  }

  lemma CopyLength(unit: Unit)
    requires IsCopy(unit)
    ensures |unit.src| == 1
  {}

  lemma BlockWider(d: Names, p: Pool, targets: seq<Target>, unit: Unit, inst: Inst, lo: nat, hi: nat, lo': nat, hi': nat)
    requires lo' <= lo && hi <= hi'
    ensures BlockFor(d, p, targets, unit, inst, lo, hi) ==> BlockFor(d, p, targets, unit, inst, lo', hi')
  {
    hide Block, Refusal, FindTarget, ProbeEnd;
  }

  lemma {:induction false} ExecAppend(a: seq<Unit>, b: seq<Unit>)
    ensures ExecUnits(a + b) == ExecUnits(a) + ExecUnits(b)
    decreases |a|
  {
    hide Code;
    if a == [] {
      assert a + b == b;
    } else {
      assert (a + b)[1..] == a[1..] + b && (a + b)[0] == a[0];
      ExecAppend(a[1..], b);
    }
  }

  lemma ExecOne(unit: Unit)
    ensures ExecUnits([unit]) == if Code(unit.src) == [] && Code(unit.dst) == [] then [] else [Unit(Code(unit.src), Code(unit.dst))]
  {
    var one := [unit];
    assert one[1..] == [];
  }

  lemma CopyPaired(d: Names, p: Pool, targets: seq<Target>, inst: Inst, n: nat)
    requires FindTarget(targets, inst).None?
    ensures Paired(d, p, targets, ExecUnits([Unit([inst], [inst])]), n, n)
  {
    hide Block, Refusal, Code, BlockFor, FindTarget;
    CodeOne(inst);
    ExecOne(Unit([inst], [inst]));
  }

  lemma BlockPaired(d: Names, p: Pool, targets: seq<Target>, inst: Inst, n: nat)
    requires FindTarget(targets, inst).Some? && FindTarget(targets, inst).value < |targets| && Refusal(d, targets[FindTarget(targets, inst).value]).None?
    requires ProbeEnd(d, targets[FindTarget(targets, inst).value], n) < WORD
    ensures var i := FindTarget(targets, inst).value;
      Paired(d, p, targets, ExecUnits([Unit([inst], [inst]), Unit([], Block(d, p, targets[i], i, n))]), n, ProbeEnd(d, targets[i], n))
  {
    hide Block, Refusal, Code, ExecUnits, ProbeEnd, BlockFor;
    var i := FindTarget(targets, inst).value;
    var block := Block(d, p, targets[i], i, n);
    CodeOne(inst);
    ExecOne(Unit([inst], [inst]));
    BlockDeclaresNothing(d, p, targets[i], i, n);
    NothingCode();
    ExecOne(Unit([], block));
    ExecAppend([Unit([inst], [inst])], [Unit([], block)]);
    var units := [Unit([inst], [inst]), Unit([], block)];
    assert [Unit([inst], [inst])] + [Unit([], block)] == units && ExecUnits(units) == units;
    IsBlockFor(d, p, targets, inst, n);
  }

  lemma IsBlockFor(d: Names, p: Pool, targets: seq<Target>, inst: Inst, n: nat)
    requires FindTarget(targets, inst).Some? && FindTarget(targets, inst).value < |targets| && Refusal(d, targets[FindTarget(targets, inst).value]).None?
    ensures var i := FindTarget(targets, inst).value;
      BlockFor(d, p, targets, Unit([], Block(d, p, targets[i], i, n)), inst, n, ProbeEnd(d, targets[i], n))
  {
    hide Block, Refusal, ProbeEnd, FindTarget;
  }

  lemma OnePaired(d: Names, p: Pool, targets: seq<Target>, inst: Inst, n: nat)
    requires ProbeOne(d, p, targets, inst, n).Ok? && ProbeOne(d, p, targets, inst, n).value.next < WORD
    ensures n <= ProbeOne(d, p, targets, inst, n).value.next
    ensures Paired(d, p, targets, ExecUnits(UnitsFor(d, p, targets, inst, n)), n, ProbeOne(d, p, targets, inst, n).value.next)
  {
    hide Block, Refusal, Code, Paired, ExecUnits, ProbeEnd, FindTarget;
    UnitsForFlat(d, p, targets, inst, n);
    if FindTarget(targets, inst).None? { CopyPaired(d, p, targets, inst, n); } else { BlockPaired(d, p, targets, inst, n); }
  }

  lemma {:induction false} AllPaired(d: Names, p: Pool, targets: seq<Target>, insts: seq<Inst>, n: nat)
    requires ProbeAll(d, p, targets, insts, n).Ok? && ProbeAll(d, p, targets, insts, n).value.next < WORD
    ensures n <= ProbeAll(d, p, targets, insts, n).value.next
    ensures Paired(d, p, targets, ExecUnits(UnitsAll(d, p, targets, insts, n)), n, ProbeAll(d, p, targets, insts, n).value.next)
  {
    hide ProbeOne, UnitsFor, Paired, ExecUnits;
    if insts == [] {
      NonePaired(d, p, targets, n);
    } else {
      var front, inst := insts[..|insts| - 1], insts[|insts| - 1];
      var mid := ProbeAll(d, p, targets, front, n).value.next;
      UnitsForFlat(d, p, targets, inst, mid);
      AllPaired(d, p, targets, front, n);
      OnePaired(d, p, targets, inst, mid);
      ExecAppend(UnitsAll(d, p, targets, front, n), UnitsFor(d, p, targets, inst, mid));
      PairedAppend(d, p, targets, ExecUnits(UnitsAll(d, p, targets, front, n)), ExecUnits(UnitsFor(d, p, targets, inst, mid)), n, mid,
                   ProbeAll(d, p, targets, insts, n).value.next);
    }
  }

  lemma NonePaired(d: Names, p: Pool, targets: seq<Target>, n: nat)
    ensures Paired(d, p, targets, ExecUnits([]), n, n)
  {}

  lemma {:induction false} CopiesPaired(d: Names, p: Pool, insts: seq<Inst>, lo: nat, hi: nat)
    requires lo <= hi
    ensures Paired(d, p, [], ExecUnits(Copies(insts)), lo, hi)
    decreases |insts|
  {
    hide ExecUnits, Paired;
    if insts == [] {
      NoCopies(d, p, lo, hi);
    } else {
      var first, more := Unit([insts[0]], [insts[0]]), Copies(insts[1..]);
      assert Copies(insts) == [first] + more;
      CopiesPaired(d, p, insts[1..], lo, hi);
      CopyPaired(d, p, [], insts[0], lo);
      ExecAppend([first], more);
      PairedAppend(d, p, [], ExecUnits([first]), ExecUnits(more), lo, lo, hi);
    }
  }

  lemma NoCopies(d: Names, p: Pool, lo: nat, hi: nat)
    ensures Paired(d, p, [], ExecUnits(Copies([])), lo, hi)
  {}

  lemma JobPaired(w: World, j: Job, entries: seq<Entry>, table: Table, t: Rewrite)
    requires Linked(j) && t == RewriteOf(w, j, entries, table)
    ensures |j.out.header| == HEADER && Paired(j.d, j.p, j.targets, t.units, j.all.next, j.out.Bound())
  {
    hide Prelude, ProbeAll, NamesOf, Prepared, Missing, Paired, ExecUnits, StaticsOf, UnitsAll, Copies;
    JobEnds(j);
    if j.targets == [] { CopiesPaired(j.d, j.p, j.all.insts, j.all.next, j.out.Bound()); }
    else { AllPaired(j.d, j.p, j.targets, j.all.insts, j.all.next); }
  }

  lemma JobEnds(j: Job)
    requires Linked(j)
    ensures |j.out.header| == HEADER && j.all.next <= j.out.Bound() < WORD
  {
    hide Prelude, ProbeAll, NamesOf, Prepared, Missing;
  }

  /** What stands at unit `u` of the job's rewrite. */
  lemma UnitStands(w: World, j: Job, entries: seq<Entry>, table: Table, t: Rewrite, u: nat)
    requires Linked(j) && Observable(w, j, entries, table) && Unshared(w, j, table) && t == RewriteOf(w, j, entries, table) && u < |t.units|
    ensures IsCopy(t.units[u]) ==> Copied(t, w, t.units[u])
    ensures t.units[u].src == [] ==> Replaced(t, w, t.units[u])
  {
    hide Linked, Observable, Unshared, StaticsOf, Block, Refusal, Older, UnitsOf, Replaced, Copied;
    UnitCorrect(w, j, entries, table, u);
    CopiedShape(t, w, t.units[u]);
    if IsCopy(t.units[u]) {
      var v := ExecUnitIn(UnitsOf(j), u);
      var k, i, n := UnitFits(w, j, entries, table, v);
      ScopeOf(w, j, entries, table);
      if UnitsOf(j)[v] == Unit([j.all.insts[k]], [j.all.insts[k]]) {
        CodeOne(j.all.insts[k]);
        CopyFits(w, j, entries, table, t, k);
      } else {
        NothingCode();
      }
    }
  }

  lemma CopiedShape(t: Rewrite, w: World, unit: Unit)
    ensures Copied(t, w, unit) ==> |unit.src| == 1
    ensures Fence(unit) ==> unit.src == []
  {}

  lemma JobGated(w: World, j: Job, entries: seq<Entry>, table: Table, t: Rewrite)
    requires Linked(j) && Observable(w, j, entries, table) && Unshared(w, j, table) && t == RewriteOf(w, j, entries, table)
    ensures Gated(t, w)
  {
    hide Linked, Observable, Unshared, RewriteOf, Replaced, Copied;
    JobPaired(w, j, entries, table, t);
    forall u: nat | u < |t.units|
      ensures Copied(t, w, t.units[u]) || Gate(t, w, u)
    {
      assert PairedAt(j.d, j.p, j.targets, t.units, u, j.all.next, j.out.Bound());
      UnitStands(w, j, entries, table, t, u);
      if !IsCopy(t.units[u]) { UnitStands(w, j, entries, table, t, u - 1); }
    }
  }

  lemma ScopeOf(w: World, j: Job, entries: seq<Entry>, table: Table)
    requires Linked(j)
    ensures |j.m.header| == HEADER && RewriteOf(w, j, entries, table).scope == Scope(j.m.Bound(), {})
  {}

  /** The target whose block unit `u` is. */
  ghost function TargetAt(t: Rewrite, targets: seq<Target>, u: nat): Option<nat> {
    if 0 < u < |t.units| && |t.units[u - 1].src| == 1 then FindTarget(targets, t.units[u - 1].src[0]) else None
  }

  /** A matched store has its gate behind it. */
  lemma GateBehind(w: World, j: Job, entries: seq<Entry>, table: Table, t: Rewrite, u: nat)
    requires Linked(j) && Observable(w, j, entries, table) && Unshared(w, j, table) && t == RewriteOf(w, j, entries, table)
    requires u < |t.units| && |t.units[u].src| == 1 && FindTarget(j.targets, t.units[u].src[0]).Some?
    ensures Gate(t, w, u + 1) && TargetAt(t, j.targets, u + 1) == FindTarget(j.targets, t.units[u].src[0])
  {
    hide Linked, Observable, Unshared, RewriteOf, Replaced, Copied, Block, Refusal;
    JobPaired(w, j, entries, table, t);
    assert PairedAt(j.d, j.p, j.targets, t.units, u, j.all.next, j.out.Bound());
    UnitStands(w, j, entries, table, t, u);
    UnitStands(w, j, entries, table, t, u + 1);
  }

  /** And a gate is the block of the target in front of it. */
  lemma GateTarget(w: World, j: Job, entries: seq<Entry>, table: Table, t: Rewrite, u: nat) returns (i: nat, n: nat)
    requires Linked(j) && Observable(w, j, entries, table) && Unshared(w, j, table) && t == RewriteOf(w, j, entries, table) && Gate(t, w, u)
    ensures TargetAt(t, j.targets, u) == Some(i) && i < |j.targets| && Refusal(j.d, j.targets[i]).None?
    ensures t.units[u].dst == Block(j.d, j.p, j.targets[i], i, n) && t.units[u].src == []
    ensures |j.out.header| == HEADER && j.all.next <= n && ProbeEnd(j.d, j.targets[i], n) <= j.out.Bound()
    ensures Older(j.d, j.targets[i], n) && |j.m.header| == HEADER && j.targets[i].stored < j.m.Bound()
  {
    hide Linked, Observable, Unshared, RewriteOf, Replaced, Copied, Block, Refusal, Older, ProbeEnd;
    JobPaired(w, j, entries, table, t);
    assert PairedAt(j.d, j.p, j.targets, t.units, u, j.all.next, j.out.Bound());
    var inst := t.units[u - 1].src[0];
    i := FindTarget(j.targets, inst).value;
    n :| j.all.next <= n && ProbeEnd(j.d, j.targets[i], n) <= j.out.Bound() && t.units[u].dst == Block(j.d, j.p, j.targets[i], i, n);
    var k := StoreIn(w, j, entries, table, t, u - 1);
    TargetOld(w, j, entries, table, k, i, n);
    StoredBelow(w, j, entries, table, k);
  }

  lemma StoredBelow(w: World, j: Job, entries: seq<Entry>, table: Table, k: nat)
    requires Linked(j) && Observable(w, j, entries, table) && k < |j.all.insts| && Op(j.all.insts[k]) == STORE && |j.all.insts[k]| >= 3
    ensures |j.m.header| == HEADER && j.all.insts[k][2] < j.m.Bound()
  {
    hide Prelude, ProbeAll, Prepared, NamesOf, HasBuffer, InputsReadable, Extended, Described, Missing;
    AllExtended(w, j, entries, table);
    StoreOld(w, j.all.insts, j.m.Bound(), k);
  }

  /** A copied unit's instruction, in the prepared module. */
  lemma StoreIn(w: World, j: Job, entries: seq<Entry>, table: Table, t: Rewrite, u: nat) returns (k: nat)
    requires Linked(j) && Observable(w, j, entries, table) && t == RewriteOf(w, j, entries, table) && u < |t.units| && |t.units[u].src| == 1
    ensures k < |j.all.insts| && j.all.insts[k] == t.units[u].src[0]
  {
    hide Linked, Observable, StaticsOf, Block, Refusal, Older, UnitsOf;
    var v := ExecUnitIn(UnitsOf(j), u);
    var i, n;
    k, i, n := UnitFits(w, j, entries, table, v);
    CodeOne(j.all.insts[k]);
    NothingCode();
  }

  // ---- visits and passes ----

  /** A visit to a block is a pass through its target. */
  ghost predicate PassFor(w: World, j: Job, t: Rewrite, v: Visit, p: R.Pass) {
    && TargetAt(t, j.targets, v.u) == Some(p.target) && p.target < |j.targets| && p.inv == v.inv
    && p.value == Lookup(t.after, v.env, j.targets[p.target].stored)
    && v.u < |t.units| && Total(t, w, v) == R.PassWrites(w, SpotOf(j.d), j.targets, p)
  }

  lemma VisitPass(w: World, j: Job, entries: seq<Entry>, table: Table, t: Rewrite, v: Visit) returns (p: R.Pass)
    requires Linked(j) && Observable(w, j, entries, table) && Unshared(w, j, table) && t == RewriteOf(w, j, entries, table) && Gate(t, w, v.u)
    ensures PassFor(w, j, t, v, p)
  {
    hide Linked, Observable, Unshared, StaticsOf, UnitsOf, Block, Refusal, Older, Copied, Replaced, Supports, Common, OwnConstants, RecordWrites, TraceWrites, RunQuiet;
    var i, n := GateTarget(w, j, entries, table, t, v.u);
    NonEmptyTargets(j, i);
    JobSupports(w, j, entries, table);
    JobConstants(j, i);
    JobEnds(j);
    RewriteStatics(w, j, entries, table);
    var st := t.after;
    var env' := ProbeRuns(st, w, v.inv, j.d, j.p, j.all.next, j.targets[i], i, n, v.env);
    p := R.Pass(i, v.inv, Lookup(st, v.env, j.targets[i].stored), PlaceOf(st, j.d, j.targets[i], v.env),
                OperandOf(st, j.d, j.targets[i], v.env, 1), OperandOf(st, j.d, j.targets[i], v.env, 2));
  }

  lemma NonEmptyTargets(j: Job, i: nat)
    requires i < |j.targets|
    ensures j.targets != []
  {}

  lemma {:induction false} VisitPasses(w: World, j: Job, entries: seq<Entry>, table: Table, t: Rewrite, visits: seq<Visit>) returns (passes: seq<R.Pass>)
    requires Linked(j) && Observable(w, j, entries, table) && Unshared(w, j, table) && t == RewriteOf(w, j, entries, table)
    requires forall n :: 0 <= n < |visits| ==> Gate(t, w, visits[n].u)
    ensures |passes| == |visits| && forall n :: 0 <= n < |visits| ==> PassFor(w, j, t, visits[n], passes[n])
  {
    hide Linked, Observable, Unshared, RewriteOf, Gate, PassFor;
    passes := [];
    if visits != [] {
      var front := VisitPasses(w, j, entries, table, t, visits[..|visits| - 1]);
      var last := VisitPass(w, j, entries, table, t, visits[|visits| - 1]);
      passes := front + [last];
    }
  }

  /** Every invocation is in one of the 32 lanes the trace has room for. */
  ghost predicate LocalLanes(w: World, insts: seq<Inst>, count: nat) {
    forall inst, inv: nat :: inst in insts && IsBuiltin(inst, LOCAL_INVOCATION_ID) && inv < count ==> ComponentOf(w, inv, inst[1], 0) < TRACE_LANES
  }

  ghost predicate LanesBelow(w: World, d: Names, count: nat) {
    forall inv: nat :: inv < count ==> ProbeBlocks.At(w, inv, SpotOf(d), 3) < TRACE_LANES
  }

  lemma LanesFound(x: Probing, w: World, j: Job, count: nat)
    requires Linked(j) && j.x == x && j.m == x.m && DeclareBuffer(x.m, x.set_, x.binding) == Ok(j.lines) && LocalLanes(w, x.m.insts, count)
    ensures LanesBelow(w, j.d, count)
  {
    hide DeclareBuffer, Prelude, ProbeAll, Prepared, Missing, ResultTypes, Chains, ComponentOf;
    var local := First(BuiltinNamed(LOCAL_INVOCATION_ID), j.lines);
    if local.Some? { BuiltinOld(x.m, x.set_, x.binding, j.lines, j.lines[local.value], LOCAL_INVOCATION_ID); }
  }

  lemma PassesWhole(w: World, j: Job, t: Rewrite, visits: seq<Visit>, passes: seq<R.Pass>, log: seq<Write>, count: nat)
    requires WholeBlocks(t, w, visits, log) && R.AllFit(j.targets) && LanesBelow(w, j.d, count)
    requires |passes| == |visits| && forall n :: 0 <= n < |visits| ==> visits[n].inv < count && PassFor(w, j, t, visits[n], passes[n])
    ensures R.Settled(w, SpotOf(j.d), j.targets, passes, log)
  {
    hide Total, R.PassWrites, R.AllFit, Copied;
    forall x | x in log
      ensures exists n :: 0 <= n < |passes| && x in R.PassWrites(w, SpotOf(j.d), j.targets, passes[n])
    {
      assert FromVisit(t, w, visits, x);
      var n :| 0 <= n < |visits| && visits[n].u < |t.units| && x in Total(t, w, visits[n]);
      assert x in R.PassWrites(w, SpotOf(j.d), j.targets, passes[n]);
    }
  }

  /** No running invocation is about to execute an instruction of a block. */
  ghost predicate Outside(p: Program, c: Config, bound: nat) {
    forall i :: 0 <= i < |c.locals| && c.locals[i].status.Running? && c.locals[i].pc < |p.code| ==> !Inserted(p.code[c.locals[i].pc], bound)
  }

  /** Inside a block the next instruction is an inserted one. */
  lemma InsideBlock(w: World, j: Job, entries: seq<Entry>, table: Table, t: Rewrite, i: nat, k: Track, l': Local, l: Local)
    requires Linked(j) && Observable(w, j, entries, table) && t == RewriteOf(w, j, entries, table)
    requires Tracked(t, w, i, k, l', l) && k.j > 0
    ensures |j.m.header| == HEADER && l'.status.Running? && l'.pc < |t.Target().code| && Inserted(t.Target().code[l'.pc], j.m.Bound())
  {
    hide Linked, Observable, RewriteOf, RunQuiet, Agree, Replaced, Inserted;
    JobBound(j);
    LongInserted(w, j, entries, table, t, k.u);
    DstInside(t.units, k.u, k.j);
  }

  /** A unit of several instructions is a block. */
  lemma LongInserted(w: World, j: Job, entries: seq<Entry>, table: Table, t: Rewrite, u: nat)
    requires Linked(j) && Observable(w, j, entries, table) && t == RewriteOf(w, j, entries, table)
    requires u < |t.units| && |t.units[u].dst| > 1
    ensures |j.m.header| == HEADER && AllInserted(t.units[u].dst, j.m.Bound())
  {
    hide Linked, Observable, StaticsOf, UnitsOf, Block, Refusal, Older, ExecUnits;
    JobBound(j);
    JobEnds(j);
    var v := ExecUnitIn(UnitsOf(j), u);
    var m, o, n := UnitFits(w, j, entries, table, v);
    CodeOne(j.all.insts[m]);
    if UnitsOf(j)[v] != Unit([j.all.insts[m]], [j.all.insts[m]]) {
      BlockDeclaresNothing(j.d, j.p, j.targets[o], o, n);
      BlockInserted(j.d, j.p, j.targets[o], o, n, j.m.Bound());
    }
  }

  lemma DstInside(units: seq<Unit>, u: nat, k: nat)
    requires u < |units| && k < |units[u].dst|
    ensures DstPos(units, u) + k < |Flatten(Dsts(units))| && Flatten(Dsts(units))[DstPos(units, u) + k] == units[u].dst[k]
  {
    CodeAt(units, u);
    assert Flatten(Dsts(units))[DstPos(units, u)..DstPos(units, u) + |units[u].dst|][k] == units[u].dst[k];
  }

  lemma OutsideAtRest(w: World, j: Job, entries: seq<Entry>, table: Table, t: Rewrite, tracks: seq<Track>, c': Config, c: Config)
    requires Linked(j) && Observable(w, j, entries, table) && t == RewriteOf(w, j, entries, table)
    requires Related(t, w, tracks, c', c) && |j.m.header| == HEADER && Outside(t.Target(), c', j.m.Bound())
    ensures AtRest(tracks)
  {
    hide Linked, Observable, RewriteOf, Tracked, Inserted;
    forall i | 0 <= i < |tracks|
      ensures tracks[i].j == 0
    {
      assert Tracked(t, w, i, tracks[i], c'.locals[i], c.locals[i]);
      if tracks[i].j > 0 { InsideBlock(w, j, entries, table, t, i, tracks[i], c'.locals[i], c.locals[i]); }
    }
  }

  /** The source does not know the probe variable. */
  lemma JobSilent(w: World, j: Job, entries: seq<Entry>, table: Table, t: Rewrite, entry: nat, count: nat, mem: Mem, lanes: nat)
    requires Linked(j) && Observable(w, j, entries, table) && t == RewriteOf(w, j, entries, table) && Discreet(w)
    ensures Silent(t.Source(), w, lanes, Start(t.Source(), entry, count, mem))
  {
    hide Linked, StaticsOf, InputsReadable, Extended, Described, HasBuffer, Discreet, Silent, Consts;
    RewriteStatics(w, j, entries, table);
    IdsBelow(w, j);
    ConstsAway(w, SpecializationOf(j.m.insts, entries), j.m.insts);
    StaticsConsts(w, j.m.insts, entries, table);
    DiscreetSilent(t.Source(), w, lanes, entry, count, mem);
  }

  lemma StaticsConsts(w: World, insts: seq<Inst>, entries: seq<Entry>, table: Table)
    ensures StaticsOf(w, insts, entries, table).consts == Consts(w, SpecializationOf(insts, entries), insts)
  {}

  lemma IdsBelow(w: World, j: Job)
    requires Linked(j) && Sourced(w, j.m)
    ensures forall id :: id in Ids(j.m.insts) ==> id != w.debug
  {
    hide Prelude, ProbeAll, NamesOf, Prepared;
    forall id | id in Ids(j.m.insts)
      ensures id != w.debug
    {
      var i :| 0 <= i < |Ids(j.m.insts)| && Ids(j.m.insts)[i] == id;
    }
  }

  // ---- executed stores ----

  /** Invocation and values of an execution of a store of target `i`. */
  ghost predicate StoreOf(x: Probing, p: Program, e: Event, i: nat) {
    e.pc < |p.code| && FindTarget(x.targets, p.code[e.pc]) == Some(i)
  }

  ghost predicate StoreRan(x: Probing, p: Program, events: seq<Event>, i: nat) {
    exists e :: e in events && StoreOf(x, p, e, i)
  }

  /** The passes are the executions of the matched stores, with the values they
      stored. */
  ghost predicate PassesRan(j: Job, p: Program, events: seq<Event>, passes: seq<R.Pass>) {
    && (forall n :: 0 <= n < |passes| ==> PassRan(j, p, events, passes[n]))
    && (forall e, i: nat :: e in events && StoreOf(j.x, p, e, i) ==> R.Ran(passes, i))
  }

  ghost predicate PassRan(j: Job, p: Program, events: seq<Event>, pass: R.Pass) {
    pass.target < |j.targets| && exists e :: e in events && StoreOf(j.x, p, e, pass.target) && StoredValue(j, p, e, pass)
  }

  ghost predicate StoredValue(j: Job, p: Program, e: Event, pass: R.Pass)
    requires pass.target < |j.targets|
  {
    pass.value == Lookup(p.statics, e.env, j.targets[pass.target].stored)
  }

  /** The instruction of the source in front of a gate. */
  lemma GateStore(w: World, j: Job, entries: seq<Entry>, table: Table, t: Rewrite, v: Visit, p: R.Pass, e: Event)
    requires Linked(j) && Observable(w, j, entries, table) && Unshared(w, j, table) && t == RewriteOf(w, j, entries, table)
    requires Gate(t, w, v.u) && Matching(t, v, e) && PassFor(w, j, t, v, p)
    ensures StoreOf(j.x, t.Source(), e, p.target) && p.value == Lookup(t.before, e.env, j.targets[p.target].stored)
  {
    hide Observable, Unshared, Replaced, Prelude, ProbeAll, NamesOf, Prepared, Missing, R.PassWrites, Total, StaticsOf, UnitsOf, Block;
    var i, n := GateTarget(w, j, entries, table, t, v.u);
    CopyStepPos(t, w, v.u - 1);
    assert t.scope.Visible(j.targets[i].stored);
  }

  lemma {:induction false} SrcUnit(units: seq<Unit>, pc: nat, u: nat) returns (v: nat)
    requires u <= |units| && pc < SrcPos(units, u)
    ensures v < u && SrcPos(units, v) <= pc < SrcPos(units, v) + |units[v].src|
  {
    SrcZero(units);
    PosStep(units, u - 1);
    if pc < SrcPos(units, u - 1) { v := SrcUnit(units, pc, u - 1); } else { v := u - 1; }
  }

  lemma SrcZero(units: seq<Unit>)
    ensures SrcPos(units, 0) == 0
  {
    assert Srcs(units)[..0] == [];
  }

  /** An executed matched store has been followed by a visit to its block. */
  lemma StoreVisited(w: World, j: Job, entries: seq<Entry>, table: Table, t: Rewrite, c': Config, c: Config, tracks: seq<Track>, visits: seq<Visit>, events: seq<Event>,
                     e: Event, i: nat) returns (v: Visit)
    requires Linked(j) && Observable(w, j, entries, table) && Unshared(w, j, table) && t == RewriteOf(w, j, entries, table) && Gated(t, w)
    requires Related(t, w, tracks, c', c) && Accounted(t, w, tracks, c, visits, events)
    requires |j.m.header| == HEADER && Outside(t.Target(), c', j.m.Bound())
    requires e in events && StoreOf(j.x, t.Source(), e, i)
    ensures v in visits && TargetAt(t, j.targets, v.u) == Some(i)
  {
    hide Observable, Unshared, Replaced, Prelude, ProbeAll, NamesOf, Prepared, Missing, StaticsOf, UnitsOf, Block, Gate, Gated, Copied, Outside, Related, RewriteOf, TargetAt;
    PosEnd(t.units);
    var u := SrcUnit(t.units, e.pc, |t.units|);
    GatedShort(t, w, u);
    CopyStepPos(t, w, u);
    assert e.pc == SrcPos(t.units, u);
    GateBehind(w, j, entries, table, t, u);
    assert Fronts(t, w, u + 1, e.pc);
    assert Answered(t, w, tracks, c, visits, e);
    if Pending(tracks, c, e, u + 1) { NobodyPending(w, j, entries, table, t, c', c, tracks, e.inv, u + 1); }
    v :| v in visits && v.u == u + 1 && Matching(t, v, e);
  }

  lemma GatedShort(t: Rewrite, w: World, u: nat)
    requires Gated(t, w) && u < |t.units| && t.units[u].src != []
    ensures Copied(t, w, t.units[u]) && |t.units[u].src| == 1
  {}

  /** Outside all blocks nobody stands in front of one either. */
  lemma NobodyPending(w: World, j: Job, entries: seq<Entry>, table: Table, t: Rewrite, c': Config, c: Config, tracks: seq<Track>, i: nat, u: nat)
    requires Linked(j) && Observable(w, j, entries, table) && Unshared(w, j, table) && t == RewriteOf(w, j, entries, table) && Gate(t, w, u)
    requires Related(t, w, tracks, c', c) && |j.m.header| == HEADER && Outside(t.Target(), c', j.m.Bound())
    ensures !(i < |tracks| && c.locals[i].status.Running? && tracks[i].u == u && tracks[i].j == 0)
  {
    hide Linked, Observable, Unshared, StaticsOf, UnitsOf, Block, Refusal, Older, Copied, Replaced;
    if i < |tracks| && c.locals[i].status.Running? && tracks[i].u == u && tracks[i].j == 0 {
      assert Tracked(t, w, i, tracks[i], c'.locals[i], c.locals[i]);
      BlockFirst(w, j, entries, table, t, u);
      assert false;
    }
  }

  lemma BlockFirst(w: World, j: Job, entries: seq<Entry>, table: Table, t: Rewrite, u: nat)
    requires Linked(j) && Observable(w, j, entries, table) && Unshared(w, j, table) && t == RewriteOf(w, j, entries, table) && Gate(t, w, u)
    ensures |j.m.header| == HEADER && DstPos(t.units, u) < |t.Target().code| && Inserted(t.Target().code[DstPos(t.units, u)], j.m.Bound())
  {
    hide Linked, Observable, Unshared, StaticsOf, UnitsOf, Block, Refusal, Older, Copied, Replaced;
    JobBound(j);
    JobEnds(j);
    var i, n := GateTarget(w, j, entries, table, t, u);
    BlockInserted(j.d, j.p, j.targets[i], i, n, n);
    CodeAt(t.units, u);
    assert t.Target().code[DstPos(t.units, u)] == t.units[u].dst[0];
  }

  lemma PassesAre(w: World, j: Job, entries: seq<Entry>, table: Table, t: Rewrite, c': Config, c: Config, tracks: seq<Track>, visits: seq<Visit>, events: seq<Event>, passes: seq<R.Pass>)
    requires Linked(j) && Observable(w, j, entries, table) && Unshared(w, j, table) && t == RewriteOf(w, j, entries, table) && Gated(t, w)
    requires Related(t, w, tracks, c', c) && Accounted(t, w, tracks, c, visits, events)
    requires |j.m.header| == HEADER && Outside(t.Target(), c', j.m.Bound())
    requires |passes| == |visits| && forall n :: 0 <= n < |visits| ==> Gate(t, w, visits[n].u) && PassFor(w, j, t, visits[n], passes[n])
    ensures PassesRan(j, t.Source(), events, passes)
  {
    hide Linked, Observable, Unshared, RewriteOf, Gated, Gate, Related, Outside, Matching, StoreOf, Total, R.PassWrites, TargetAt;
    forall n | 0 <= n < |passes|
      ensures PassRan(j, t.Source(), events, passes[n])
    {
      assert visits[n] in visits;
      assert Caused(t, events, visits[n]);
      var e :| e in events && Matching(t, visits[n], e);
      GateStore(w, j, entries, table, t, visits[n], passes[n], e);
      assert StoredValue(j, t.Source(), e, passes[n]);
    }
    forall e, i: nat | e in events && StoreOf(j.x, t.Source(), e, i)
      ensures R.Ran(passes, i)
    {
      var v := StoreVisited(w, j, entries, table, t, c', c, tracks, visits, events, e, i);
      var n :| 0 <= n < |visits| && visits[n] == v;
      assert passes[n].target == i;
    }
  }

  lemma StartAccounted(t: Rewrite, w: World, tracks: seq<Track>, entry: nat, count: nat, mem: Mem)
    requires Correct(t, w) && Gated(t, w) && Related(t, w, tracks, Start(t.Target(), entry, count, mem), Start(t.Source(), entry, count, mem)) && AtRest(tracks)
    ensures Accounted(t, w, tracks, Start(t.Source(), entry, count, mem), [], [])
  {
    hide Correct, Gated, Gate, Related;
    var c', c := Start(t.Target(), entry, count, mem), Start(t.Source(), entry, count, mem);
    LabelFound(t.Target().code, entry);
    forall i: nat ensures Entered(t, w, tracks, c, [], i) {
      if i < |tracks| && i < count && Gate(t, w, tracks[i].u) { GateNoLabel(t, w, tracks, c', c, i); }
    }
  }

  lemma GateNoLabel(t: Rewrite, w: World, tracks: seq<Track>, c': Config, c: Config, i: nat)
    requires Related(t, w, tracks, c', c) && i < |tracks| && tracks[i].j == 0 && c.locals[i].status.Running? && Gate(t, w, tracks[i].u)
    ensures c'.locals[i].pc < |t.Target().code| && Op(t.Target().code[c'.locals[i].pc]) != LABEL
  {
    hide BlockHolds, Agree;
    assert Tracked(t, w, i, tracks[i], c'.locals[i], c.locals[i]);
    CodeAt(t.units, tracks[i].u);
    assert t.units[tracks[i].u].dst[0] == t.Target().code[DstPos(t.units, tracks[i].u)];
  }

  /** Once no invocation is inside a block, the buffer has been written by passes
      only, one for each matched store that an invocation executed. */
  lemma DispatchSettles(w: World, j: Job, entries: seq<Entry>, table: Table, t: Rewrite, lanes: nat, entry: nat, count: nat, mem: Mem, schedule': seq<Choice>)
    returns (passes: seq<R.Pass>, schedule: seq<Choice>)
    requires Linked(j) && Observable(w, j, entries, table) && Unshared(w, j, table) && t == RewriteOf(w, j, entries, table)
    requires R.AllFit(j.targets) && LanesBelow(w, j.d, count) && Discreet(w) && StoresFall(w)
    requires Safe(t.Source(), w, lanes, Start(t.Source(), entry, count, mem))
    requires Run(t.Target(), w, lanes, Start(t.Target(), entry, count, mem), schedule').Some?
    requires |j.m.header| == HEADER && Outside(t.Target(), Run(t.Target(), w, lanes, Start(t.Target(), entry, count, mem), schedule').value, j.m.Bound())
    ensures Run(t.Source(), w, lanes, Start(t.Source(), entry, count, mem), schedule).Some?
    ensures SameOutcome(t.Target(), Run(t.Target(), w, lanes, Start(t.Target(), entry, count, mem), schedule').value,
                        t.Source(), Run(t.Source(), w, lanes, Start(t.Source(), entry, count, mem), schedule).value)
    ensures R.Settled(w, SpotOf(j.d), j.targets, passes, Run(t.Target(), w, lanes, Start(t.Target(), entry, count, mem), schedule').value.log)
    ensures PassesRan(j, t.Source(), Events(t.Source(), w, lanes, Start(t.Source(), entry, count, mem), schedule), passes)
  {
    hide Linked, Observable, Unshared, RewriteOf, Correct, R.AllFit, LanesBelow, R.Settled, Safe, Silent, Run, Outside, Related, Logged, Discreet, StoresFall, Gated, Gate,
      Accounted, PassFor, PassesRan, SameOutcome, Events, Start;
    JobCorrect(w, j, entries, table);
    JobGated(w, j, entries, table, t);
    JobSilent(w, j, entries, table, t, entry, count, mem, lanes);
    var c', c := Start(t.Target(), entry, count, mem), Start(t.Source(), entry, count, mem);
    var tracks := StartTracks(t, w, entry, count, mem);
    StartsEmpty(t.Target(), entry, count, mem);
    StartLogged(t, w, tracks);
    StartAccounted(t, w, tracks, entry, count, mem);
    var tracks2, visits;
    schedule, tracks2, visits := EventRuns(t, w, lanes, c', c, tracks, [], [], schedule');
    var out', out, events := Run(t.Target(), w, lanes, c', schedule').value, Run(t.Source(), w, lanes, c, schedule).value, Events(t.Source(), w, lanes, c, schedule);
    assert [] + events == events;
    RelatedOutcome(t, w, tracks2, out', out);
    OutsideAtRest(w, j, entries, table, t, tracks2, out', out);
    WholeLog(t, w, tracks2, visits, out'.log);
    RelatedCount(t, w, tracks2, out', out);
    RunCount(t.Target(), w, lanes, c', schedule');
    forall n | 0 <= n < |visits| ensures Gate(t, w, visits[n].u) { GatedAt(t, w, visits[n].u); }
    passes := VisitPasses(w, j, entries, table, t, visits);
    PassesWhole(w, j, t, visits, passes, out'.log, count);
    PassesAre(w, j, entries, table, t, out', out, tracks2, visits, events, passes);
  }

  lemma RelatedCount(t: Rewrite, w: World, tracks: seq<Track>, c': Config, c: Config)
    requires Related(t, w, tracks, c', c)
    ensures |tracks| == |c'.locals|
  {}

  lemma StartsEmpty(p: Program, entry: nat, count: nat, mem: Mem)
    ensures |Start(p, entry, count, mem).locals| == count && Start(p, entry, count, mem).log == []
  {}

  /** A record was written by some pass exactly when its first slot was. */
  lemma RanWritten(w: World, s: Spot, targets: seq<Target>, passes: seq<R.Pass>, log: seq<Write>, i: nat)
    requires R.Settled(w, s, targets, passes, log) && i < P.RECORDS
    ensures R.Ran(passes, i) <==> R.Written(log, SlotBase(i))
  {
    hide R.Settled, R.IsRecordWord;
    if R.Written(log, SlotBase(i)) {
      var n :| 0 <= n < |log| && log[n].slot == SlotBase(i);
      assert log[n] in log;
      var m := R.RecordWriter(w, s, targets, passes, log, log[n], i, 0);
    }
    if R.Ran(passes, i) {
      var n :| 0 <= n < |passes| && passes[n].target == i;
      R.PassTarget(w, s, targets, passes, log, n);
      R.RecordWrote(w, s, targets, passes, log, n, 0);
    }
  }

  /** What the reader must say about a dispatch whose log is `log`. */
  ghost predicate CleanReport(log: seq<Write>, bits: Val -> nat, size: nat, writeback: P.Sampled) {
    var r := P.ReportOf(R.Readback(bits, log, size), writeback);
    && r.failures == [] && r.unexpected == {} && r.lanes.summary != P.Fail
    && (forall i :: 0 <= i < P.RECORDS ==> r.records[i].status == if R.Written(log, SlotBase(i)) then P.Passed else P.NotExecuted)
    && (r.pass <==> R.Written(log, SlotBase(4)) || R.Written(log, SlotBase(9)))
  }

  lemma SettledReport(w: World, s: Spot, targets: seq<Target>, passes: seq<R.Pass>, log: seq<Write>, bits: Val -> nat, size: nat, writeback: P.Sampled)
    requires R.Settled(w, s, targets, passes, log) && R.Faithful(bits) && size >= P.LAST_SLOT
    requires writeback == map[] || writeback == R.Readback(bits, log, size)
    ensures CleanReport(log, bits, size, writeback)
  {
    hide R.Settled, R.Readback, P.ReportOf, R.Ran, R.Written;
    R.ReportClean(w, s, targets, passes, log, bits, size, writeback);
    forall i: nat | i < P.RECORDS
      ensures R.Ran(passes, i) <==> R.Written(log, SlotBase(i))
    {
      RanWritten(w, s, targets, passes, log, i);
    }
  }

  lemma {:induction false} CellWritten(bits: Val -> nat, log: seq<Write>, slot: nat) returns (x: Write)
    requires R.Written(log, slot)
    ensures x in log && x.slot == slot && R.Cell(bits, log, slot) == bits(x.value)
  {
    var front, last := log[..|log| - 1], log[|log| - 1];
    if last.slot == slot {
      x := last;
    } else {
      var n :| 0 <= n < |log| && log[n].slot == slot;
      assert front[n] == log[n];
      x := CellWritten(bits, front, slot);
    }
  }

  /** The value slot of a record holds what some pass found. */
  lemma ValueWritten(w: World, s: Spot, targets: seq<Target>, passes: seq<R.Pass>, log: seq<Write>, bits: Val -> nat, i: nat) returns (n: nat)
    requires R.Settled(w, s, targets, passes, log) && i < P.RECORDS && R.Ran(passes, i)
    ensures n < |passes| && passes[n].target == i && R.Cell(bits, log, SlotBase(i) + 2) == bits(passes[n].value)
  {
    hide R.Settled, R.PassWrites, R.IsRecordWord;
    var m :| 0 <= m < |passes| && passes[m].target == i;
    R.PassTarget(w, s, targets, passes, log, m);
    ValueLength(targets[i]);
    R.RecordWrote(w, s, targets, passes, log, m, 2);
    var x := CellWritten(bits, log, SlotBase(i) + 2);
    n := R.RecordWriter(w, s, targets, passes, log, x, i, 2);
    ValueWord(w, s, targets[i], passes[n], x);
  }

  lemma ValueLength(t: Target)
    ensures 2 < RecordLength(t)
  {}

  lemma ValueWord(w: World, s: Spot, t: Target, p: R.Pass, x: Write)
    requires R.IsRecordWord(w, s, t, p, x, 2)
    ensures x.value == p.value
  {}

  /** The reader accepts the buffer, and reports as executed exactly the targets
      whose store was executed, each with a value that was stored there. */
  ghost predicate Faithful(x: Probing, p: Program, events: seq<Event>, log: seq<Write>, bits: Val -> nat, size: nat, writeback: P.Sampled) {
    var r := P.ReportOf(R.Readback(bits, log, size), writeback);
    && CleanReport(log, bits, size, writeback)
    && forall i :: 0 <= i < P.RECORDS ==>
         && (r.records[i].status == P.Passed <==> StoreRan(x, p, events, i))
         && (r.records[i].status == P.Passed ==> ValueStored(x, p, events, i, R.Cell(bits, log, SlotBase(i) + 2), bits))
  }

  ghost predicate ValueStored(x: Probing, p: Program, events: seq<Event>, i: nat, word: nat, bits: Val -> nat) {
    i < |x.targets| && exists e :: e in events && StoreOf(x, p, e, i) && word == bits(Lookup(p.statics, e.env, x.targets[i].stored))
  }

  lemma PassesFaithful(w: World, j: Job, p: Program, events: seq<Event>, passes: seq<R.Pass>, log: seq<Write>, bits: Val -> nat, size: nat, writeback: P.Sampled)
    requires R.Settled(w, SpotOf(j.d), j.targets, passes, log) && PassesRan(j, p, events, passes) && j.x.targets == j.targets
    requires CleanReport(log, bits, size, writeback)
    ensures Faithful(j.x, p, events, log, bits, size, writeback)
  {
    hide R.Settled, R.Readback, P.ReportOf, R.Written, StoreOf, R.Cell;
    forall i | 0 <= i < P.RECORDS
      ensures R.Written(log, SlotBase(i)) <==> StoreRan(j.x, p, events, i)
      ensures R.Written(log, SlotBase(i)) ==> ValueStored(j.x, p, events, i, R.Cell(bits, log, SlotBase(i) + 2), bits)
    {
      RanWritten(w, SpotOf(j.d), j.targets, passes, log, i);
      if R.Ran(passes, i) {
        var n := ValueWritten(w, SpotOf(j.d), j.targets, passes, log, bits, i);
        assert PassRan(j, p, events, passes[n]);
        var e :| e in events && StoreOf(j.x, p, e, passes[n].target) && StoredValue(j, p, e, passes[n]);
      }
    }
  }

  /** The concurrent probe protocol. For any number of workgroups and any
      interleaving of their words, whenever no invocation of an instrumented
      dispatch is at a block, the reader accepts what is in the buffer: no
      candidate, role, lane-identity or trace-metadata failure and no unexpected
      nonzero slot. Some run of the source has the same outcome, and a record is
      reported as executed if and only if that run executed the target's store;
      the value then reported is one that was stored there. The report passes
      exactly if a final store was among them. */
  lemma ProtocolHolds(x: Probing, w: World, l: Launch, schedule': seq<Choice>, bits: Val -> nat, size: nat, writeback: P.Sampled)
    returns (schedule: seq<Choice>)
    requires Undisturbed(x, w, l) && SourceSafe(x, w, l) && Discreet(w) && StoresFall(w) && LocalLanes(w, x.m.insts, l.count)
    requires R.AllFit(x.targets) && R.Faithful(bits) && size >= P.LAST_SLOT
    requires RunOf(ProbedProgram(x, w, l), w, l, schedule').Some?
    requires var end := RunOf(ProbedProgram(x, w, l), w, l, schedule').value;
      && |x.m.header| == HEADER && Outside(ProbedProgram(x, w, l), end, x.m.Bound())
      && (writeback == map[] || writeback == R.Readback(bits, end.log, size))
    ensures var p, p' := SourceProgram(x, w, l), ProbedProgram(x, w, l);
      && RunOf(p, w, l, schedule).Some?
      && SameOutcome(p', RunOf(p', w, l, schedule').value, p, RunOf(p, w, l, schedule).value)
      && Faithful(x, p, Events(p, w, l.lanes, Begin(p, l), schedule), RunOf(p', w, l, schedule').value.log, bits, size, writeback)
  {
    hide Linked, Observable, Unshared, RewriteOf, Probeable, FixedIds, Free, ProgramOf, Run, Start, R.AllFit, LocalLanes, LanesBelow, DeclareBuffer, Safe, Discreet, StoresFall, Outside,
      CleanReport, Faithful, R.Settled, R.Readback, SameOutcome, Events, PassesRan;
    var j := JobObservable(x, w, l);
    UnsharedHere(x, w, l, j);
    LanesFound(x, w, j, l.count);
    JobPrograms(w, j, l.entries, l.table);
    var t := RewriteOf(w, j, l.entries, l.table);
    var passes;
    passes, schedule := DispatchSettles(w, j, l.entries, l.table, t, l.lanes, l.entry, l.count, l.mem, schedule');
    var log := RunOf(ProbedProgram(x, w, l), w, l, schedule').value.log;
    SettledReport(w, SpotOf(j.d), j.targets, passes, log, bits, size, writeback);
    PassesFaithful(w, j, t.Source(), Events(t.Source(), w, l.lanes, Begin(t.Source(), l), schedule), passes, log, bits, size, writeback);
  }
}
