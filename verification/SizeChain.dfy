/** What stage 2 keeps specializable: exactly what hangs on the workgroup size,
    where that size cannot be fixed. */
module SizeChain {
  import opened Words
  import opened Ops
  import opened Machine
  import opened Meaning
  import opened Specializing
  import Finite

  // ---- hanging on the size ----

  /** Operand `o` of the composite `i`, which decoration `j` makes the workgroup
      size. The tables have `bound` slots: other ids do not take part. */
  ghost predicate ConstituentAt(insts: seq<Inst>, bound: nat, id: nat, i: nat, j: nat, o: nat) {
    && i < |insts| && j < |insts|
    && Op(insts[i]) == SPEC_CONSTANT_COMPOSITE && 3 <= o < |insts[i]| && insts[i][o] == id && id < bound
    && MarksWorkgroupSize(insts[j]) && insts[j][1] == insts[i][2] && insts[i][2] < bound
  }

  ghost predicate Constituent(insts: seq<Inst>, bound: nat, id: nat) {
    exists i: nat, j: nat, o: nat :: ConstituentAt(insts, bound, id, i, j, o)
  }

  /** Word `o` of the specialization operator `k`, which defines `id`. */
  ghost predicate OperandAt(insts: seq<Inst>, bound: nat, id: nat, k: nat, o: nat) {
    && k < |insts| && Op(insts[k]) == SPEC_CONSTANT_OP && insts[k] != [] && 4 <= o < |insts[k]|
    && insts[k][2] == id && id < bound
  }

  /** A chain of `n` operators leads from the id to a constituent of the size.
      A literal operand counts by its number, as in the code. */
  ghost predicate Chain(insts: seq<Inst>, bound: nat, id: nat, n: nat)
    decreases n
  {
    if n == 0 then Constituent(insts, bound, id)
    else exists k: nat, o: nat :: OperandAt(insts, bound, id, k, o) && Chain(insts, bound, insts[k][o], n - 1)
  }

  ghost predicate Hangs(insts: seq<Inst>, bound: nat, id: nat) { exists n: nat :: Chain(insts, bound, id, n) }

  // ---- the skipped ids are those ----

  lemma {:induction false} MarkedIff(insts: seq<Inst>, id: nat)
    ensures id in WorkgroupIds(insts) <==> exists j :: 0 <= j < |insts| && MarksWorkgroupSize(insts[j]) && insts[j][1] == id
  {
    if insts != [] {
      var front := insts[..|insts| - 1];
      MarkedIff(front, id);
      if id in WorkgroupIds(front) {
        var j :| 0 <= j < |front| && MarksWorkgroupSize(front[j]) && front[j][1] == id;
        assert MarksWorkgroupSize(insts[j]) && insts[j][1] == id;
      }
      if j :| 0 <= j < |insts| && MarksWorkgroupSize(insts[j]) && insts[j][1] == id {
        if j < |front| { assert front[j] == insts[j]; }
      }
    }
  }

  ghost predicate SeedAt(insts: seq<Inst>, wg: set<nat>, bound: nat, id: nat, i: nat, o: nat) {
    && i < |insts| && Op(insts[i]) == SPEC_CONSTANT_COMPOSITE && 3 <= o < |insts[i]| && insts[i][o] == id && id < bound
    && insts[i][2] < bound && insts[i][2] in wg
  }

  lemma BelowIff(inst: Inst, bound: nat, id: nat)
    requires |inst| >= 3
    ensures id in IdsBelow(inst[3..], bound) <==> id < bound && exists o :: 3 <= o < |inst| && inst[o] == id
  {
    if id in IdsBelow(inst[3..], bound) {
      var i :| 0 <= i < |inst[3..]| && inst[3..][i] < bound && inst[3..][i] == id;
      assert inst[i + 3] == id;
    }
    if o :| 3 <= o < |inst| && inst[o] == id { assert inst[3..][o - 3] == id; }
  }

  lemma {:induction false} SeedsIff(insts: seq<Inst>, wg: set<nat>, bound: nat, id: nat)
    ensures id in Seeds(insts, wg, bound) <==> exists i: nat, o: nat :: SeedAt(insts, wg, bound, id, i, o)
  {
    if insts != [] {
      var front, inst := insts[..|insts| - 1], insts[|insts| - 1];
      SeedsIff(front, wg, bound, id);
      if |inst| >= 3 { BelowIff(inst, bound, id); }
      if id in Seeds(front, wg, bound) {
        var i: nat, o: nat :| SeedAt(front, wg, bound, id, i, o);
        assert SeedAt(insts, wg, bound, id, i, o);
      } else if id in Seeds(insts, wg, bound) {
        var o :| 3 <= o < |inst| && inst[o] == id;
        assert SeedAt(insts, wg, bound, id, |front|, o);
      }
      if i: nat, o: nat :| SeedAt(insts, wg, bound, id, i, o) {
        if i < |front| { assert SeedAt(front, wg, bound, id, i, o); }
      }
    }
  }

  lemma SeedsHang(insts: seq<Inst>, bound: nat, id: nat)
    ensures id in Seeds(insts, SizeIds(insts, bound), bound) <==> Chain(insts, bound, id, 0)
  {
    var wg := SizeIds(insts, bound);
    SeedsIff(insts, wg, bound, id);
    if i: nat, o: nat :| SeedAt(insts, wg, bound, id, i, o) {
      MarkedIff(insts, insts[i][2]);
      var j :| 0 <= j < |insts| && MarksWorkgroupSize(insts[j]) && insts[j][1] == insts[i][2];
      assert ConstituentAt(insts, bound, id, i, j, o);
    }
    if i: nat, j: nat, o: nat :| ConstituentAt(insts, bound, id, i, j, o) {
      MarkedIff(insts, insts[i][2]);
      assert SeedAt(insts, wg, bound, id, i, o);
    }
  }

  ghost predicate AllHang(insts: seq<Inst>, bound: nat, ids: set<nat>) { forall id :: id in ids ==> Hangs(insts, bound, id) }

  /** One pass adds only ids that hang on the size. */
  lemma {:induction false} SpreadHangs(insts: seq<Inst>, bound: nat, skip: set<nat>, n: nat)
    requires n <= |insts| && AllHang(insts, bound, skip)
    ensures AllHang(insts, bound, Spread(insts[..n], bound, skip))
  {
    if n > 0 {
      SpreadHangs(insts, bound, skip, n - 1);
      assert insts[..n][..n - 1] == insts[..n - 1];
      var before, inst := Spread(insts[..n - 1], bound, skip), insts[n - 1];
      if Spreads(before, bound, inst) {
        var i :| 0 <= i < |inst[4..]| && inst[4..][i] < bound && inst[4..][i] in before;
        var c: nat :| Chain(insts, bound, inst[i + 4], c);
        assert OperandAt(insts, bound, inst[2], n - 1, i + 4);
        assert Chain(insts, bound, inst[2], c + 1);
      }
    }
  }

  lemma {:induction false} ClosureHangs(insts: seq<Inst>, bound: nat, skip: set<nat>)
    requires (forall id :: id in skip ==> id < bound) && AllHang(insts, bound, skip)
    ensures AllHang(insts, bound, Closure(insts, bound, skip))
    decreases bound - |skip|
  {
    var next := Spread(insts, bound, skip);
    assert insts[..|insts|] == insts;
    SpreadHangs(insts, bound, skip, |insts|);
    if next != skip {
      Finite.Pigeonhole(next, bound);
      Finite.SmallerSet(skip, next);
      ClosureHangs(insts, bound, next);
    }
  }

  /** At the fixpoint no operator outside reads a skipped id. */
  lemma {:induction false} SpreadStable(insts: seq<Inst>, bound: nat, skip: set<nat>, k: nat)
    requires k < |insts| && Spread(insts, bound, skip) == skip
    ensures !Spreads(skip, bound, insts[k])
    decreases |insts|
  {
    var front := insts[..|insts| - 1];
    if k < |front| { SpreadStable(front, bound, skip, k); }
  }

  lemma {:induction false} ChainSkipped(insts: seq<Inst>, bound: nat, skip: set<nat>, id: nat, n: nat)
    requires Spread(insts, bound, skip) == skip && Chain(insts, bound, id, n)
    requires (forall c :: Chain(insts, bound, c, 0) ==> c in skip) && (forall c :: c in skip ==> c < bound)
    ensures id in skip
    decreases n
  {
    if n > 0 {
      var k: nat, o: nat :| OperandAt(insts, bound, id, k, o) && Chain(insts, bound, insts[k][o], n - 1);
      ChainSkipped(insts, bound, skip, insts[k][o], n - 1);
      SpreadStable(insts, bound, skip, k);
      assert insts[k][4..][o - 4] == insts[k][o];
    }
  }

  /** The fixpoint keeps open exactly what hangs on a size that cannot be fixed. */
  lemma SkippedIff(insts: seq<Inst>, bound: nat, entries: seq<Entry>, id: nat)
    ensures id in Skipped(insts, bound, entries) <==> Preserves(insts, bound, entries) && Hangs(insts, bound, id)
  {
    hide Seeds, Preserves, Spread, Closure;
    if Preserves(insts, bound, entries) {
      var seeds := Seeds(insts, SizeIds(insts, bound), bound);
      forall c: nat ensures c in seeds <==> Chain(insts, bound, c, 0) { SeedsHang(insts, bound, c); }
      ClosureHangs(insts, bound, seeds);
      if Hangs(insts, bound, id) {
        var n: nat :| Chain(insts, bound, id, n);
        ChainSkipped(insts, bound, Closure(insts, bound, seeds), id, n);
      }
    } else {
      NothingSkipped(insts, bound);
    }
  }

  lemma NothingSkipped(insts: seq<Inst>, bound: nat)
    ensures Closure(insts, bound, {}) == {}
  {
    SpreadEmpty(insts, bound);
  }

  // ---- what that means for the output ----

  /** The id stays specializable. */
  ghost predicate Open(m: Module, entries: seq<Entry>, id: nat)
    requires |m.header| == HEADER
  {
    Preserves(m.insts, m.Bound(), entries) && Hangs(m.insts, m.Bound(), id)
  }

  /** What is skipped stays. */
  lemma {:induction false} SkippedStays(p: Plan, insts: seq<Inst>, k: nat)
    requires AllSized(insts) && FoldAll(p, insts).Ok? && k < |insts| && IsSpec(insts[k]) && |insts[k]| >= 3 && insts[k][2] in p.skip
    ensures insts[k] in FoldAll(p, insts).value.out
    decreases |insts|
  {
    var front, inst := insts[..|insts| - 1], insts[|insts| - 1];
    var emitted := StepShape(p, FoldAll(p, front).value, inst);
    if k < |front| { SkippedStays(p, front, k); }
  }

  /** Any other specializable instruction goes. */
  lemma {:induction false} OthersGo(p: Plan, insts: seq<Inst>, y: Inst)
    requires AllSized(insts) && FoldAll(p, insts).Ok? && SpecShapes(insts) && GoodIds(insts, p.bound)
    requires forall i :: 0 <= i < |insts| ==> !Spreads(p.skip, p.bound, insts[i])
    requires y in FoldAll(p, insts).value.out && IsSpec(y)
    ensures y in insts && |y| >= 3 && y[2] in p.skip
  {
    var front, inst := insts[..|insts| - 1], insts[|insts| - 1];
    var s := FoldAll(p, front).value;
    GoodFront(insts, p.bound);
    assert insts == front + [inst];
    if y in s.out {
      OthersGo(p, front, y);
    } else {
      var emitted := StepShape(p, s, inst);
      assert inst in insts;
    }
  }

  /** A specialization constant, composite or operator is in the output exactly if
      it is in the source and hangs on a size that cannot be fixed; and the same
      ids keep their SpecId. */
  lemma MaterializeOpenIff(m: Module, entries: seq<Entry>)
    requires Readied(m) && SpecShapes(m.insts) && Materialized(m, entries).Ok?
    ensures var out := Materialized(m, entries).value.insts;
      && (forall inst :: IsSpec(inst) && |inst| >= 3 ==> (inst in out <==> inst in m.insts && Open(m, entries, inst[2])))
      && (forall inst :: IsSpec(inst) && inst in out ==> |inst| >= 3)
      && (forall id: nat :: id in Decorations(out, SPEC_ID) <==> id in Decorations(m.insts, SPEC_ID) && Open(m, entries, id))
  {
    hide FoldAll, Spreads, Skipped, Decorations, SpecShapes, Hangs, Preserves, Strips;
    var p, out := PlanOf(m, entries), Materialized(m, entries).value.insts;
    FoldFolds(p, {}, m.insts);
    SkippedFixed(m, entries);
    forall id: nat ensures id in p.skip <==> Open(m, entries, id) { SkippedIff(m.insts, m.Bound(), entries, id); }
    forall i | 0 <= i < |m.insts| ensures !Spreads(p.skip, p.bound, m.insts[i]) { SpreadStable(m.insts, p.bound, p.skip, i); }
    forall inst | IsSpec(inst) && inst in out ensures inst in m.insts && |inst| >= 3 && inst[2] in p.skip { OthersGo(p, m.insts, inst); }
    forall inst | IsSpec(inst) && |inst| >= 3 && inst in m.insts && inst[2] in p.skip ensures inst in out {
      var k :| 0 <= k < |m.insts| && m.insts[k] == inst;
      SkippedStays(p, m.insts, k);
    }
  }

  /** Something specializable hangs on a size that cannot be fixed. */
  ghost predicate StaysOpen(m: Module, entries: seq<Entry>)
    requires |m.header| == HEADER
  {
    || (exists inst :: inst in m.insts && IsSpec(inst) && |inst| >= 3 && Open(m, entries, inst[2]))
    || exists id: nat :: id in Decorations(m.insts, SPEC_ID) && Open(m, entries, id)
  }

  /** So the output is closed exactly if nothing does. */
  lemma MaterializeClosesIff(m: Module, entries: seq<Entry>)
    requires Readied(m) && SpecShapes(m.insts) && Materialized(m, entries).Ok?
    ensures Closed(Materialized(m, entries).value.insts) <==> !StaysOpen(m, entries)
  {
    hide Open, Decorations;
    var out := Materialized(m, entries).value.insts;
    MaterializeOpenIff(m, entries);
    if Closed(out) {
      assert forall inst :: inst in out ==> !IsSpec(inst);
    } else if j :| 0 <= j < |out| && IsSpec(out[j]) {
      assert out[j] in out && out[j] in m.insts;
    } else {
      var id :| id in Decorations(out, SPEC_ID);
    }
  }

  /** Unless the workgroup size must stay open, no numeric specialization
      constant and no SpecId is left. */
  lemma MaterializeCloses(m: Module, entries: seq<Entry>)
    requires Readied(m) && SpecShapes(m.insts) && Materialized(m, entries).Ok?
    requires !Preserves(m.insts, m.Bound(), entries)
    ensures Closed(Materialized(m, entries).value.insts) && !StaysOpen(m, entries)
  {
    hide Hangs, Closed;
    MaterializeClosesIff(m, entries);
  }

  // ---- when the size cannot be fixed ----

  /** What an instruction says about dimension `d` of the size: nothing, unless it
      is the size composite and its member has a SpecId; then the entries' word. */
  datatype Say = Silent | Missing | Given(word: Word)

  function SayOf(ids: map<nat, Word>, wg: set<nat>, bound: nat, entries: seq<Entry>, inst: Inst, d: nat): Say
    requires d < 3
  {
    if Op(inst) == SPEC_CONSTANT_COMPOSITE && |inst| >= 6 && inst[2] < bound && inst[2] in wg && inst[3 + d] < bound && inst[3 + d] in ids then
      match EntryValue(entries, ids[inst[3 + d]]) case Some(v) => Given(v) case None => Missing
    else Silent
  }

  function Says(ids: map<nat, Word>, wg: set<nat>, bound: nat, entries: seq<Entry>, insts: seq<Inst>, d: nat): (r: seq<Say>)
    requires d < 3
    ensures |r| == |insts|
  {
    seq(|insts|, i requires 0 <= i < |insts| => SayOf(ids, wg, bound, entries, insts[i], d))
  }

  function AtLeastOne(size: Word, said: bool): Word { if size == 0 && said then 1 else size }

  /** The last word given counts, or else the literal; where a member without an
      entry follows, a 0 is read as 1. */
  ghost predicate Selects(says: seq<Say>, literal: Word, r: Word) {
    && (forall k :: LastGivenAt(says, k) ==> r == AtLeastOne(says[k].word, Missing in says[k + 1..]))
    && ((forall k :: 0 <= k < |says| ==> !says[k].Given?) ==> r == AtLeastOne(literal, Missing in says))
  }

  /** The word at the last given position, if there is one. */
  ghost predicate LastGivenAt(says: seq<Say>, k: int) {
    0 <= k < |says| && says[k].Given? && forall i :: k < i < |says| ==> !says[i].Given?
  }

  lemma SelectsNext(says: seq<Say>, say: Say, literal: Word, before: Word)
    requires Selects(says, literal, before)
    ensures Selects(says + [say], literal, match say case Given(v) => v case Missing => AtLeastOne(before, true) case Silent => before)
  {
    var more, r := says + [say], match say case Given(v) => v case Missing => AtLeastOne(before, true) case Silent => before;
    assert more[|says|] == say && forall i :: 0 <= i < |says| ==> more[i] == says[i];
    forall k | LastGivenAt(more, k) ensures r == AtLeastOne(more[k].word, Missing in more[k + 1..]) {
      if k < |says| {
        assert LastGivenAt(says, k);
        assert more[k + 1..] == says[k + 1..] + [say];
      } else {
        assert more[k + 1..] == [];
      }
    }
    if forall k :: 0 <= k < |more| ==> !more[k].Given? {
      assert forall k :: 0 <= k < |says| ==> !says[k].Given?;
    }
  }

  lemma {:induction false} ResolveSelects(ids: map<nat, Word>, wg: set<nat>, bound: nat, entries: seq<Entry>, insts: seq<Inst>, size: seq<Word>, d: nat)
    requires |size| == 3 && d < 3
    ensures Selects(Says(ids, wg, bound, entries, insts, d), size[d], ResolveAll(ids, wg, bound, entries, insts, size)[d])
  {
    hide Selects, SayOf;
    if insts == [] {
      SelectsNothing(size[d]);
      assert Says(ids, wg, bound, entries, insts, d) == [];
    } else {
      var front, inst := insts[..|insts| - 1], insts[|insts| - 1];
      ResolveSelects(ids, wg, bound, entries, front, size, d);
      var before := ResolveAll(ids, wg, bound, entries, front, size);
      SelectsNext(Says(ids, wg, bound, entries, front, d), SayOf(ids, wg, bound, entries, inst, d), size[d], before[d]);
      ResolveOne(ids, wg, bound, entries, before, inst, d);
      assert Says(ids, wg, bound, entries, insts, d) == Says(ids, wg, bound, entries, front, d) + [SayOf(ids, wg, bound, entries, inst, d)];
    }
  }

  lemma SelectsNothing(literal: Word)
    ensures Selects([], literal, literal)
  {}

  lemma ResolveOne(ids: map<nat, Word>, wg: set<nat>, bound: nat, entries: seq<Entry>, size: seq<Word>, inst: Inst, d: nat)
    requires |size| == 3 && d < 3
    ensures ResolveComposite(ids, wg, bound, entries, size, inst)[d]
      == match SayOf(ids, wg, bound, entries, inst, d) case Given(v) => v case Missing => AtLeastOne(size[d], true) case Silent => size[d]
  {}

  /** The size cannot be fixed exactly if it is given by ids, or a dimension of the
      literal is not the one selected. */
  lemma PreservesIff(insts: seq<Inst>, bound: nat, entries: seq<Entry>, size: seq<Word>)
    requires |size| == 3
    requires forall d: nat :: d < 3 ==> Selects(Says(SpecIds(insts, bound), SizeIds(insts, bound), bound, entries, insts, d), LastMode(insts, false)[d], size[d])
    ensures Preserves(insts, bound, entries) <==> LastMode(insts, true) != [0, 0, 0] || LastMode(insts, false) != size
  {
    hide Says;
    var ids, wg, r := SpecIds(insts, bound), SizeIds(insts, bound), ResolvedSize(insts, bound, entries);
    forall d: nat | d < 3 ensures r[d] == size[d] {
      ResolveSelects(ids, wg, bound, entries, insts, LastMode(insts, false), d);
      SelectsOne(Says(ids, wg, bound, entries, insts, d), LastMode(insts, false)[d], r[d], size[d]);
    }
    assert r == size;
  }

  lemma {:induction false} LastGiven(says: seq<Say>) returns (k: int)
    ensures -1 <= k < |says| && (k >= 0 ==> says[k].Given?) && forall i :: k < i < |says| ==> !says[i].Given?
  {
    if says == [] || says[|says| - 1].Given? { k := |says| - 1; }
    else { k := LastGiven(says[..|says| - 1]); }
  }

  lemma SelectsOne(says: seq<Say>, literal: Word, a: Word, b: Word)
    requires Selects(says, literal, a) && Selects(says, literal, b)
    ensures a == b
  {
    var k := LastGiven(says);
    if k >= 0 { assert LastGivenAt(says, k); }
  }

  // ---- when folding succeeds ----

  /** A number whose value the pass knows when it comes to `k`: a constant, or one
      that was folded. */
  ghost predicate NumberAt(open: set<nat>, insts: seq<Inst>, j: nat, id: nat) {
    && j < |insts| && |insts[j]| >= 4 && insts[j][2] == id
    && (Op(insts[j]) == CONSTANT || (id !in open && (Op(insts[j]) == SPEC_CONSTANT || (Op(insts[j]) == SPEC_CONSTANT_OP && |insts[j]| >= 5))))
  }

  ghost predicate Number(open: set<nat>, insts: seq<Inst>, k: nat, id: nat) { exists j: nat :: j < k && NumberAt(open, insts, j, id) }

  /** A composite of `n` or more known numbers; four are remembered. */
  ghost predicate VectorAt(open: set<nat>, insts: seq<Inst>, j: nat, id: nat, n: nat) {
    && j < |insts| && |insts[j]| > 3 && insts[j][2] == id && n == (if |insts[j]| <= 7 then |insts[j]| - 3 else 4)
    && (Op(insts[j]) == CONSTANT_COMPOSITE || (Op(insts[j]) == SPEC_CONSTANT_COMPOSITE && id !in open && forall o :: 3 <= o < |insts[j]| ==> insts[j][o] as nat !in open))
    && forall o :: 3 <= o < |insts[j]| ==> Number(open, insts, j, insts[j][o])
  }

  ghost predicate Vector(open: set<nat>, insts: seq<Inst>, k: nat, id: nat, n: nat) { exists j: nat :: j < k && VectorAt(open, insts, j, id, n) }

  /** The operator `k` is a division of known numbers, not by zero, or picks a
      component of a known composite. */
  ghost predicate Foldable(w: World, spec: Specialization, open: set<nat>, insts: seq<Inst>, k: nat)
    requires k < |insts| && |insts[k]| >= 5
  {
    var inst := insts[k];
    |inst| == 6
    && ((inst[3] == U_DIV && Number(open, insts, k, inst[4]) && Number(open, insts, k, inst[5]) && Get(Consts(w, spec, insts[..k]), inst[5]) != Scalar(0))
        || (inst[3] == COMPOSITE_EXTRACT && exists n: nat :: Vector(open, insts, k, inst[4], n) && inst[5] < n))
  }

  ghost predicate KeysFit(open: set<nat>, insts: seq<Inst>, k: nat, s: State) {
    && (forall id: nat :: id in s.scalars <==> Number(open, insts, k, id))
    && (forall id: nat, n: nat :: id in s.composites && |s.composites[id]| == n <==> Vector(open, insts, k, id, n))
  }

  /** What the pass remembers is true, whatever becomes of booleans. */
  lemma StepKnown(w: World, p: Plan, spec: Specialization, env: Env, s: State, inst: Inst)
    requires WellSized(inst) && Known(env, s) && StepInst(p, s, inst).Ok? && spec == Specialization(p.ids, p.entries)
    requires DeclaredId(inst).Some? ==> DeclaredId(inst).value < p.bound && DeclaredId(inst).value !in env
    requires Op(inst) == CONSTANT || Op(inst) == SPEC_CONSTANT ==> |inst| == 4
    ensures Known(Declare(w, spec, env, inst), StepInst(p, s, inst).value)
  {
    hide StepInst, Known;
    if Op(inst) == SPEC_CONSTANT_TRUE || Op(inst) == SPEC_CONSTANT_FALSE {
      BooleanKept(p, s, inst);
      var v := Declared(w, spec, env, inst);
      if v.Some? { KnownSet(env, s, DeclaredId(inst).value, v.value); }
      KnownKeep(env, s, inst);
      KnownKeep(Declare(w, spec, env, inst), s, inst);
    } else {
      var after := Specialization(map id | id in p.ids && id in p.skip :: p.ids[id], p.entries);
      StepMeaning(w, p, spec, after, env, s, inst);
    }
  }

  lemma BooleanKept(p: Plan, s: State, inst: Inst)
    requires WellSized(inst) && (Op(inst) == SPEC_CONSTANT_TRUE || Op(inst) == SPEC_CONSTANT_FALSE)
    ensures StepInst(p, s, inst) == Ok(Keep(s, inst))
  {}

  lemma KnownKeep(env: Env, s: State, inst: Inst)
    ensures Known(env, Keep(s, inst)) == Known(env, s)
  {}

  lemma {:induction false} FoldKnown(w: World, p: Plan, spec: Specialization, insts: seq<Inst>)
    requires AllSized(insts) && FoldAll(p, insts).Ok? && spec == Specialization(p.ids, p.entries) && GoodIds(insts, p.bound) && OneWord(insts)
    ensures Known(Consts(w, spec, insts), FoldAll(p, insts).value)
  {
    hide StepInst, Declare, GoodIds;
    if insts != [] {
      var front, inst := insts[..|insts| - 1], insts[|insts| - 1];
      GoodFront(insts, p.bound);
      FoldKnown(w, p, spec, front);
      ConstsKeys(w, spec, front);
      StepKnown(w, p, spec, Consts(w, spec, front), FoldAll(p, front).value, inst);
    }
  }

  /** The operator must be folded. */
  ghost predicate Asked(open: set<nat>, inst: Inst) { Op(inst) == SPEC_CONSTANT_OP && |inst| >= 5 && inst[2] as nat !in open }

  lemma DeclaredOnce(insts: seq<Inst>, bound: nat, j: nat, k: nat)
    requires GoodIds(insts, bound) && j < k < |insts| && DeclaredId(insts[k]).Some?
    ensures DeclaredId(insts[j]) != DeclaredId(insts[k])
  {
    hide GoodIds;
    GoodPrefix(insts, bound, k + 1);
    assert insts[..k + 1][..k] == insts[..k];
    GoodFront(insts[..k + 1], bound);
    if DeclaredId(insts[j]).Some? { IdIn(insts[..k], j); }
  }

  lemma {:induction false} GoodPrefix(insts: seq<Inst>, bound: nat, k: nat)
    requires GoodIds(insts, bound) && k <= |insts|
    ensures GoodIds(insts[..k], bound)
    decreases |insts|
  {
    if k < |insts| {
      GoodFront(insts, bound);
      GoodPrefix(insts[..|insts| - 1], bound, k);
      assert insts[..|insts| - 1][..k] == insts[..k];
    } else {
      assert insts[..k] == insts;
    }
  }

  lemma NumbersNext(open: set<nat>, insts: seq<Inst>, k: nat, id: nat)
    requires k < |insts|
    ensures Number(open, insts, k + 1, id) <==> Number(open, insts, k, id) || NumberAt(open, insts, k, id)
  {}

  lemma VectorsNext(open: set<nat>, insts: seq<Inst>, k: nat, id: nat, n: nat)
    requires k < |insts|
    ensures Vector(open, insts, k + 1, id, n) <==> Vector(open, insts, k, id, n) || VectorAt(open, insts, k, id, n)
  {}

  /** The declaration at `k` is the first of its id. */
  lemma NotBefore(open: set<nat>, insts: seq<Inst>, bound: nat, k: nat, n: nat)
    requires GoodIds(insts, bound) && k < |insts| && DeclaredId(insts[k]).Some?
    ensures !Number(open, insts, k, DeclaredId(insts[k]).value) && !Vector(open, insts, k, DeclaredId(insts[k]).value, n)
  {
    var id := DeclaredId(insts[k]).value;
    if j: nat :| j < k && NumberAt(open, insts, j, id) { DeclaredOnce(insts, bound, j, k); }
    if j: nat :| j < k && VectorAt(open, insts, j, id, n) { DeclaredOnce(insts, bound, j, k); }
  }

  /** What one step adds to the known numbers and composites. */
  lemma StepKeys(p: Plan, s: State, inst: Inst)
    requires WellSized(inst) && StepInst(p, s, inst).Ok? && !Spreads(p.skip, p.bound, inst)
    requires DeclaredId(inst).Some? ==> DeclaredId(inst).value < p.bound
    ensures var t := StepInst(p, s, inst).value;
      && (forall id: nat :: id in t.scalars <==> id in s.scalars || NumberAt(p.skip, [inst], 0, id))
      && (t.composites == s.composites
          || (|inst| >= 3 && (Op(inst) == CONSTANT_COMPOSITE || (Op(inst) == SPEC_CONSTANT_COMPOSITE && inst[2] !in p.skip))
              && t.composites == Remember(s.composites, inst[2], Values(s.scalars, if Op(inst) == CONSTANT_COMPOSITE then {} else p.skip, inst[3..]))))
      && (|inst| >= 3 && (Op(inst) == CONSTANT_COMPOSITE || (Op(inst) == SPEC_CONSTANT_COMPOSITE && inst[2] !in p.skip))
          ==> t.composites == Remember(s.composites, inst[2], Values(s.scalars, if Op(inst) == CONSTANT_COMPOSITE then {} else p.skip, inst[3..])))
  {}

  predicate Remembers(open: set<nat>, inst: Inst) {
    |inst| >= 3 && (Op(inst) == CONSTANT_COMPOSITE || (Op(inst) == SPEC_CONSTANT_COMPOSITE && inst[2] as nat !in open))
  }

  lemma ValuesIff(open: set<nat>, insts: seq<Inst>, k: nat, scalars: map<nat, Word>, id: nat, n: nat)
    requires k < |insts| && Remembers(open, insts[k])
    requires forall i: nat :: i in scalars <==> Number(open, insts, k, i)
    ensures var values := Values(scalars, if Op(insts[k]) == CONSTANT_COMPOSITE then {} else open, insts[k][3..]);
      values != [] && id == insts[k][2] && n == |FirstFour(values)| <==> VectorAt(open, insts, k, id, n)
  {
    hide Number;
    var inst := insts[k];
    var operands := inst[3..];
    assert forall o :: 3 <= o < |inst| ==> inst[o] == operands[o - 3];
    assert forall i :: 0 <= i < |operands| ==> operands[i] == inst[i + 3];
  }

  lemma KeysNext(p: Plan, insts: seq<Inst>, k: nat, s: State)
    requires k < |insts| && WellSized(insts[k]) && KeysFit(p.skip, insts, k, s) && StepInst(p, s, insts[k]).Ok?
    requires GoodIds(insts, p.bound) && !Spreads(p.skip, p.bound, insts[k])
    ensures KeysFit(p.skip, insts, k + 1, StepInst(p, s, insts[k]).value)
  {
    hide StepInst, GoodIds, Spreads, Values, Number, Vector, Remember;
    var inst, t, next := insts[k], StepInst(p, s, insts[k]).value, k + 1;
    IdBelow(insts, p.bound, k, inst);
    StepKeys(p, s, inst);
    forall id: nat ensures id in t.scalars <==> Number(p.skip, insts, k + 1, id) { NumbersNext(p.skip, insts, k, id); }
    forall id: nat, n: nat ensures id in t.composites && |t.composites[id]| == n <==> Vector(p.skip, insts, next, id, n) {
      VectorsNext(p.skip, insts, k, id, n);
      if Remembers(p.skip, inst) {
        NotBefore(p.skip, insts, p.bound, k, n);
        ValuesIff(p.skip, insts, k, s.scalars, id, n);
        RememberIs(s.composites, inst[2], Values(s.scalars, if Op(inst) == CONSTANT_COMPOSITE then {} else p.skip, inst[3..]), id);
      }
    }
  }

  lemma RememberIs(composites: map<nat, seq<Word>>, id: nat, values: seq<Word>, other: nat)
    ensures var r := Remember(composites, id, values);
      && (other in r <==> other in composites || (other == id && values != []))
      && (other in r ==> r[other] == if other == id && values != [] then FirstFour(values) else composites[other])
  {}

  /** A step fails exactly on an operator that must be folded and cannot be. */
  lemma StepIff(w: World, p: Plan, spec: Specialization, insts: seq<Inst>, k: nat, s: State)
    requires k < |insts| && WellSized(insts[k]) && KeysFit(p.skip, insts, k, s) && Known(Consts(w, spec, insts[..k]), s)
    requires GoodIds(insts, p.bound) && !Spreads(p.skip, p.bound, insts[k])
    ensures StepInst(p, s, insts[k]).Ok? <==> (Asked(p.skip, insts[k]) ==> Foldable(w, spec, p.skip, insts, k))
  {
    hide GoodIds, Number, Vector, Consts;
    var inst := insts[k];
    IdBelow(insts, p.bound, k, inst);
    if Asked(p.skip, inst) {
      if inst[3] == COMPOSITE_EXTRACT && |inst| == 6 && inst[4] in s.composites { assert Vector(p.skip, insts, k, inst[4], |s.composites[inst[4]]|); }
    }
  }

  lemma {:induction false} FoldPrefix(w: World, p: Plan, spec: Specialization, insts: seq<Inst>, k: nat)
    requires k <= |insts| && AllSized(insts) && GoodIds(insts, p.bound) && OneWord(insts) && spec == Specialization(p.ids, p.entries)
    requires forall i :: 0 <= i < |insts| ==> !Spreads(p.skip, p.bound, insts[i])
    ensures FoldAll(p, insts[..k]).Ok? <==> forall i :: 0 <= i < k && Asked(p.skip, insts[i]) ==> Foldable(w, spec, p.skip, insts, i)
    ensures FoldAll(p, insts[..k]).Ok? ==> KeysFit(p.skip, insts, k, FoldAll(p, insts[..k]).value)
  {
    hide StepInst, GoodIds, Spreads, Foldable, Asked, KeysFit;
    if k == 0 {
      NoKeys(p.skip, insts);
    } else {
      FoldPrefix(w, p, spec, insts, k - 1);
      assert insts[..k][..k - 1] == insts[..k - 1];
      if FoldAll(p, insts[..k - 1]).Ok? {
        var s := FoldAll(p, insts[..k - 1]).value;
        GoodPrefix(insts, p.bound, k - 1);
        FoldKnown(w, p, spec, insts[..k - 1]);
        StepIff(w, p, spec, insts, k - 1, s);
        if StepInst(p, s, insts[k - 1]).Ok? { KeysNext(p, insts, k - 1, s); }
      }
    }
  }

  lemma NoKeys(open: set<nat>, insts: seq<Inst>)
    ensures KeysFit(open, insts, 0, START)
  {}

  /** Folding succeeds exactly if every operator that does not hang on the size is
      a division of known numbers, not by zero, or picks a component of a known
      composite. */
  lemma MaterializeSucceedsIff(w: World, m: Module, entries: seq<Entry>, open: set<nat>)
    requires Readied(m) && forall id: nat :: id in open <==> Open(m, entries, id)
    ensures Materialized(m, entries).Ok? <==>
      forall k :: 0 <= k < |m.insts| && Asked(open, m.insts[k]) ==> Foldable(w, SpecializationOf(m.insts, entries), open, m.insts, k)
  {
    hide Hangs, Foldable, Asked, Preserves, Skipped, FoldAll, KeysFit, Decorations;
    var p := PlanOf(m, entries);
    forall id: nat ensures id in p.skip <==> id in open { SkippedIff(m.insts, m.Bound(), entries, id); }
    assert p.skip == open;
    SkippedFixed(m, entries);
    forall i | 0 <= i < |m.insts| ensures !Spreads(p.skip, p.bound, m.insts[i]) { SpreadStable(m.insts, p.bound, p.skip, i); }
    assert SpecIds(m.insts, m.Bound()) == Decorations(m.insts, SPEC_ID);
    FoldPrefix(w, p, SpecializationOf(m.insts, entries), m.insts, |m.insts|);
    assert m.insts[..|m.insts|] == m.insts;
  }
}
