/** The effective-module compiler: the six stages one after the other, and what
    the whole of them preserves. */
module Reconstruction {
  import opened Words
  import opened Ops
  import opened Machine
  import opened Translation
  import opened Reproduction
  import opened Meaning
  import opened Definitions
  import LocalSize
  import Specializing
  import SizeChain
  import Storage16
  import Storage16Sound
  import Storage16Shape
  import Bitcasts
  import BitcastSound
  import Barriers
  import Bindings
  import BindingsSound
  import StageIds
  import StorageIds

  // ---- stage 1 before stage 2 ----

  lemma {:induction false} SizeWritten(insts: seq<Inst>, dims: seq<Word>)
    requires |dims| == 3 && LocalSize.CountModes(insts, false) > 0
    ensures LastMode(LocalSize.WithSize(insts, dims), false) == dims
  {
    var front, out := insts[..|insts| - 1], LocalSize.WithSize(insts, dims);
    if IsLocalSize(insts[|insts| - 1]) {
      assert out[|insts| - 1][3..6] == dims;
    } else {
      assert out[..|insts| - 1] == LocalSize.WithSize(front, dims);
      SizeWritten(front, dims);
    }
  }

  /** Every workgroup size composite lists the same constituents. */
  ghost predicate OneComposite(insts: seq<Inst>) {
    var ids := WorkgroupIds(insts);
    forall i :: 0 <= i < |insts| && LocalSize.SpecComposite(ids, insts[i]) ==>
      LocalSize.Members(ids, insts) == Some(insts[i][3..6])
  }

  lemma {:induction false} ResolveStays(ids: map<nat, Word>, wg: set<nat>, bound: nat, entries: seq<Entry>, insts: seq<Inst>,
                                        size: seq<Word>, members: seq<Word>)
    requires |size| == 3 && |members| == 3
    requires forall d :: 0 <= d < 3 ==> Specializing.ResolveMember(ids, bound, entries, members[d], size[d]) == size[d]
    requires forall i :: 0 <= i < |insts| && LocalSize.SpecComposite(wg, insts[i]) ==> insts[i][3..6] == members
    ensures Specializing.ResolveAll(ids, wg, bound, entries, insts, size) == size
  {
    if insts != [] {
      var inst := insts[|insts| - 1];
      ResolveStays(ids, wg, bound, entries, insts[..|insts| - 1], size, members);
      if LocalSize.SpecComposite(wg, inst) {
        forall d | 0 <= d < 3
          ensures inst[3 + d] == members[d]
        {
          assert inst[3..6][d] == members[d];
        }
      }
    }
  }

  /** The size that stage 1 wrote is the one stage 2 resolves. */
  lemma PatchedSizeResolves(m: Module, entries: seq<Entry>)
    requires m.Valid() && LocalSize.Eligible(m.insts, entries) && OneComposite(m.insts)
    ensures !Specializing.Preserves(LocalSize.Patched(m, entries).insts, m.Bound(), entries)
  {
    var dims, ids := LocalSize.Resolved(m.insts, entries), WorkgroupIds(m.insts);
    var out := LocalSize.WithSize(m.insts, dims);
    var members := LocalSize.Members(ids, m.insts).value;
    var w: World :| true;
    LocalSize.WithSizeFolds(w, SpecializationOf(m.insts, entries), ids, m.insts, dims);
    SizeWritten(m.insts, dims);
    LocalSize.NoMode2(m.insts);
    var known, wg := Specializing.SpecIds(out, m.Bound()), Specializing.SizeIds(out, m.Bound());
    forall d | 0 <= d < 3
      ensures Specializing.ResolveMember(known, m.Bound(), entries, members[d], dims[d]) == dims[d]
    {
      assert dims[d] == LocalSize.ResolveDim(Specialization(Decorations(m.insts, SPEC_ID), entries), members[d], [1, 1, 1][d]);
    }
    ResolveStays(known, wg, m.Bound(), entries, out, dims, members);
  }

  lemma PatchReadied(m: Module, entries: seq<Entry>)
    requires Specializing.Readied(m)
    ensures Specializing.Readied(LocalSize.Patched(m, entries))
    ensures Specializing.SpecShapes(m.insts) ==> Specializing.SpecShapes(LocalSize.Patched(m, entries).insts)
  {
    LocalSize.PatchValid(m, entries);
    if LocalSize.Eligible(m.insts, entries) {
      var w: World :| true;
      LocalSize.WithSizeFolds(w, SpecializationOf(m.insts, entries), {}, m.insts, LocalSize.Resolved(m.insts, entries));
    }
  }

  /** Where the size was patched, materialization closes the module: nothing
      specializable is left, and materializing again is the identity. */
  lemma PatchThenMaterialize(m: Module, entries: seq<Entry>, again: seq<Entry>)
    requires Specializing.Readied(m) && Specializing.SpecShapes(m.insts)
    requires LocalSize.Eligible(m.insts, entries) && OneComposite(m.insts)
    requires Specializing.Materialized(LocalSize.Patched(m, entries), entries).Ok?
    ensures var out := Specializing.Materialized(LocalSize.Patched(m, entries), entries).value;
      out.Valid() && Specializing.Closed(out.insts) && Specializing.Materialized(out, again) == Ok(out)
  {
    var patched := LocalSize.Patched(m, entries);
    PatchReadied(m, entries);
    PatchedSizeResolves(m, entries);
    SizeChain.MaterializeCloses(patched, entries);
    Specializing.FoldSizes(Specializing.PlanOf(patched, entries), patched.insts);
    Specializing.MaterializeIdempotent(Specializing.Materialized(patched, entries).value, again);
  }

  // ---- the pipeline ----

  datatype Final = Final(mod: Module, aliases: seq<Bindings.Alias>)

  /** Stages 1 and 2. */
  function Closing(m: Module, entries: seq<Entry>): Result<Module>
    requires m.Valid()
  {
    LocalSize.PatchValid(m, entries);
    Specializing.Materialized(LocalSize.Patched(m, entries), entries)
  }

  /** Stages 3 to 5. */
  function Lowering(m: Module): (r: Result<Module>)
    requires m.Valid()
    ensures r.Ok? ==> r.value.Valid()
  {
    StorageValid(m);
    var lowered :- Bitcasts.LowerModule(Storage16.LowerModule(m));
    BitcastValid(Storage16.LowerModule(m));
    Barriers.GuardShape(lowered);
    Ok(Barriers.Guarded(lowered))
  }

  function Effective(m: Module, entries: seq<Entry>, details: seq<int>): Result<Final>
    requires m.Valid()
  {
    var closed :- Closing(m, entries);
    ClosingValid(m, entries);
    var lowered :- Lowering(closed);
    var out :- Bindings.Rewritten(lowered, details);
    Ok(Final(lowered.(insts := out.insts), out.aliases))
  }

  lemma ClosingValid(m: Module, entries: seq<Entry>)
    requires m.Valid() && Closing(m, entries).Ok?
    ensures Closing(m, entries).value.Valid()
  {
    LocalSize.PatchValid(m, entries);
    var patched := LocalSize.Patched(m, entries);
    Specializing.FoldSizes(Specializing.PlanOf(patched, entries), patched.insts);
  }

  lemma StorageValid(m: Module)
    requires m.Valid()
    ensures Storage16.LowerModule(m).Valid()
  {
    var out := Storage16.LowerModule(m);
    if Storage16.Applies(m) {
      forall i | 0 <= i < |out.insts|
        ensures WellSized(out.insts[i])
      {
        var j, n := Storage16Shape.OutputInst(m, i);
      }
    }
  }

  lemma BitcastValid(m: Module)
    requires m.Valid() && Bitcasts.LowerModule(m).Ok?
    ensures Bitcasts.LowerModule(m).value.Valid()
  {
    if Bitcasts.Applies(m) {
      var out := Bitcasts.LowerModule(m).value;
      forall i | 0 <= i < |out.insts|
        ensures WellSized(out.insts[i])
      {
        var j, n := BitcastSound.OutputInst(m, i);
      }
    }
  }

  /** The stages over words, each reading the words the one before wrote. */
  method Reconstruct(words: seq<Word>, entries: seq<Entry>, details: seq<int>) returns (r: Result<seq<Word>>)
    requires HEADER <= |words|
    ensures ModuleOf(words).Err? ==> r == Err(ModuleOf(words).error)
    ensures ModuleOf(words).Ok? ==> ModuleOf(words).value.Valid() && match Effective(ModuleOf(words).value, entries, details)
      case Err(e) => r == Err(e)
      case Ok(final) => r == Ok(final.mod.Words())
  {
    var step1 :- LocalSize.PatchLiteralLocalSizeFromSpec(words, entries);
    ModuleRoundTrip(words);
    ghost var m := ModuleOf(words).value;
    LocalSize.PatchValid(m, entries);
    WordsRoundTrip(LocalSize.Patched(m, entries));
    var step2 :- Specializing.MaterializeSpecializationConstants(step1.words, entries);
    ClosingValid(m, entries);
    ghost var closed := Closing(m, entries).value;
    WordsRoundTrip(closed);
    var step3 := Storage16.LowerStorage16LoadsToStorage8(step2.words);
    StorageValid(closed);
    WordsRoundTrip(Storage16.LowerModule(closed));
    var step4 :- Bitcasts.LowerU32ToU8vec4Bitcasts(step3.value.words);
    BitcastValid(Storage16.LowerModule(closed));
    ghost var lowered := Bitcasts.LowerModule(Storage16.LowerModule(closed)).value;
    WordsRoundTrip(lowered);
    var step5 := Barriers.InsertFinalStorePreBarrier(step4.words);
    Barriers.GuardShape(lowered);
    WordsRoundTrip(Barriers.Guarded(lowered));
    var step6 :- Bindings.RewriteDuplicateDescriptorBindings(step5.value.words, details);
    r := Ok(step6.words);
  }

  // ---- the whole pipeline preserves meaning ----

  /** What the compiler silently relies on: a well-formed module (unique ids
      below the bound, one-word constants, decorations of declared ids), no
      boolean specialization constant switched by the dispatch, where a load is
      lowered two views of one read-only block buffer and view pointers used once,
      and a binding table in which set 0 has only what the dispatch reports. */
  ghost predicate Sound(w: World, m: Module, entries: seq<Entry>, details: seq<int>, table: Table) {
    && Specializing.Readied(m)
    && Specializing.BoolsKept(Specializing.PlanOf(LocalSize.Patched(m, entries), entries), LocalSize.Patched(m, entries).insts)
    && WellFormed(w, m)
    && (Closing(m, entries).Ok? && Storage16.Applies(Closing(m, entries).value) ==>
          Storage16Sound.ViewsSound(w, StaticsOf(w, m.insts, entries, table), Code(m.insts)))
    && BindingsSound.Bound(m, details, table)
  }

  lemma {:induction false} OneWordKept(p: Specializing.Plan, insts: seq<Inst>)
    requires AllSized(insts) && OneWord(insts) && Specializing.FoldAll(p, insts).Ok?
    ensures OneWord(Specializing.FoldAll(p, insts).value.out)
  {
    if insts != [] {
      OneWordKept(p, insts[..|insts| - 1]);
      var emitted := Specializing.StepShape(p, Specializing.FoldAll(p, insts[..|insts| - 1]).value, insts[|insts| - 1]);
    }
  }

  /** Stages 1 and 2 keep the program and all that the later stages ask. */
  lemma ClosingKeeps(w: World, m: Module, entries: seq<Entry>, details: seq<int>, table: Table)
    requires Sound(w, m, entries, details, table) && Closing(m, entries).Ok?
    ensures var out := Closing(m, entries).value;
      && ProgramOf(w, out.insts, entries, table) == ProgramOf(w, m.insts, entries, table)
      && Storage16Sound.Ready(w, out, entries, table) && BindingsSound.Bound(out, details, table)
  {
    var patched, out := LocalSize.Patched(m, entries), Closing(m, entries).value;
    var plan := Specializing.PlanOf(patched, entries);
    PatchReadied(m, entries);
    LocalSize.PatchPreservesProgram(w, m, entries, entries, table);
    LocalSize.WithSizeFolds(w, SpecializationOf(m.insts, entries), {}, m.insts, LocalSize.Resolved(m.insts, entries));
    Specializing.MaterializePreservesProgram(w, patched, entries, table);
    Specializing.FoldFolds(plan, {}, patched.insts);
    OneWordKept(plan, patched.insts);
    ClosingValid(m, entries);
  }

  /** Stages 3 to 5 keep the declarations that stage 6 reads. */
  lemma LoweringKeeps(w: World, m: Module, entries: seq<Entry>, details: seq<int>, table: Table)
    requires Storage16Sound.Ready(w, m, entries, table) && BindingsSound.Bound(m, details, table) && Lowering(m).Ok?
    ensures BindingsSound.Bound(Lowering(m).value, details, table)
  {
    var m3 := Storage16.LowerModule(m);
    var m4 := Bitcasts.LowerModule(m3).value;
    StorageKeeps(w, m);
    if Bitcasts.Applies(m3) { BitcastSound.LowerDeclares(m3); }
    if Barriers.Place(m4).Some? {
      Barriers.InsertDeclares(m4.insts, Barriers.Place(m4).value, Barriers.BarrierInst(Barriers.Scan(m4.insts)));
    }
    SameDecorations(m.insts, DESCRIPTOR_SET);
    SameDecorations(m3.insts, DESCRIPTOR_SET);
    SameDecorations(m4.insts, DESCRIPTOR_SET);
    SameDecorations(Barriers.Guarded(m4).insts, DESCRIPTOR_SET);
  }

  /** The barrier of stage 5 is not added: it is there already, or the label is not. */
  predicate Unguarded(m: Module)
    requires m.Valid()
  {
    Lowering(m).Ok? && Barriers.Place(Bitcasts.LowerModule(Storage16.LowerModule(m)).value).None?
  }

  /** What a rewrite of the whole module must give: it does only what the source
      does, and all of it if no barrier was added. */
  ghost predicate Preserves(p': Program, p: Program, w: World, lanes: nat, entry: nat, count: nat, mem: Mem, unguarded: bool) {
    var c', c := Start(p', entry, count, mem), Start(p, entry, count, mem);
    Refines(p', c', p, c, w, lanes) && (unguarded ==> Refines(p, c, p', c', w, lanes))
  }

  /** Stages 3 to 5 together. */
  lemma LoweringPreserves(w: World, m: Module, entries: seq<Entry>, table: Table, lanes: nat, entry: nat, count: nat, mem: Mem)
    requires Storage16Sound.Ready(w, m, entries, table) && Lowering(m).Ok?
    requires var p := ProgramOf(w, m.insts, entries, table); Safe(p, w, lanes, Start(p, entry, count, mem))
    ensures Preserves(ProgramOf(w, Lowering(m).value.insts, entries, table), ProgramOf(w, m.insts, entries, table),
                      w, lanes, entry, count, mem, Unguarded(m))
  {
    var m3 := Storage16.LowerModule(m);
    var m4 := Bitcasts.LowerModule(m3).value;
    var p, p3, p4, p5 := ProgramOf(w, m.insts, entries, table), ProgramOf(w, m3.insts, entries, table),
      ProgramOf(w, m4.insts, entries, table), ProgramOf(w, Barriers.Guarded(m4).insts, entries, table);
    var c, c3, c4, c5 := Start(p, entry, count, mem), Start(p3, entry, count, mem), Start(p4, entry, count, mem), Start(p5, entry, count, mem);
    StorageKeeps(w, m);
    Storage16Sound.LowerEquivalent(w, m, entries, table, lanes, entry, count, mem);
    RefinesSafe(p3, c3, p, c, w, lanes);
    BitcastSound.LowerEquivalent(w, m3, entries, table, lanes, entry, count, mem);
    RefinesSafe(p4, c4, p3, c3, w, lanes);
    BitcastSound.LowerWellFormed(w, m3);
    Barriers.GuardRefines(w, m4, entries, table, lanes, entry, count, mem);
    EquivalentTransitive(p4, c4, p3, c3, p, c, w, lanes);
    RefinesTransitive(p5, c5, p4, c4, p, c, w, lanes);
  }

  lemma StorageKeeps(w: World, m: Module)
    requires WellFormed(w, m)
    ensures WellFormed(w, Storage16.LowerModule(m))
    ensures Declarations(Storage16.LowerModule(m).insts) == Declarations(m.insts)
    ensures Storage16.LowerModule(m).Bound() >= m.Bound()
  {
    if Storage16.Applies(m) {
      Storage16Shape.LowerWellFormed(w, m);
      Storage16Sound.LowerDeclares(m);
    }
  }

  /** The whole pipeline, from the closed module on, whatever specialization
      data the output is run with. */
  lemma OutputPreserves(w: World, m: Module, entries: seq<Entry>, details: seq<int>, table: Table, lanes: nat, entry: nat, count: nat, mem: Mem)
    requires Storage16Sound.Ready(w, m, entries, table) && BindingsSound.Bound(m, details, table)
    requires Lowering(m).Ok? && Bindings.Rewritten(Lowering(m).value, details).Ok?
    requires var p := ProgramOf(w, m.insts, entries, table); Safe(p, w, lanes, Start(p, entry, count, mem))
    ensures var o := Bindings.Rewritten(Lowering(m).value, details).value;
      Preserves(ProgramOf(w, o.insts, entries, BindingsSound.Rebound(table, o.aliases)), ProgramOf(w, m.insts, entries, table),
                w, lanes, entry, count, mem, Unguarded(m))
  {
    LoweringKeeps(w, m, entries, details, table);
    LoweringPreserves(w, m, entries, table, lanes, entry, count, mem);
    BindingsSound.RewritePreservesProgram(w, Lowering(m).value, details, entries, table);
  }

  /** Whole-pipeline correctness. Whenever the compiler returns a module, every
      run of that module under the event's entries, by any number of invocations
      under any schedule, with the aliases bound to the buffers they stand for,
      ends like some run of the source under those entries: with the same stored
      memory and the same status of every invocation. If no barrier was added,
      every run of the source is matched by a run of the output as well. */
  lemma EffectivePreserves(w: World, m: Module, entries: seq<Entry>, details: seq<int>, table: Table, lanes: nat, entry: nat, count: nat, mem: Mem)
    requires Sound(w, m, entries, details, table) && Effective(m, entries, details).Ok?
    requires var p := ProgramOf(w, m.insts, entries, table); Safe(p, w, lanes, Start(p, entry, count, mem))
    ensures Closing(m, entries).Ok? && Closing(m, entries).value.Valid()
    ensures var f := Effective(m, entries, details).value;
      Preserves(ProgramOf(w, f.mod.insts, entries, BindingsSound.Rebound(table, f.aliases)), ProgramOf(w, m.insts, entries, table),
                w, lanes, entry, count, mem, Unguarded(Closing(m, entries).value))
  {
    ClosingKeeps(w, m, entries, details, table);
    ClosingValid(m, entries);
    OutputPreserves(w, Closing(m, entries).value, entries, details, table, lanes, entry, count, mem);
  }

  /** Where folding closes the module, the output needs no specialization data:
      run with any entries, or none, it does what the source does with the event's. */
  lemma EffectiveWithoutEntries(w: World, m: Module, entries: seq<Entry>, details: seq<int>, table: Table, lanes: nat, entry: nat, count: nat, mem: Mem,
                                data: seq<Entry>)
    requires Sound(w, m, entries, details, table) && Effective(m, entries, details).Ok?
    requires Specializing.SpecShapes(m.insts)
    requires !SizeChain.StaysOpen(LocalSize.Patched(m, entries), entries)
    requires var p := ProgramOf(w, m.insts, entries, table); Safe(p, w, lanes, Start(p, entry, count, mem))
    ensures Closing(m, entries).Ok? && Closing(m, entries).value.Valid()
    ensures var f := Effective(m, entries, details).value;
      Preserves(ProgramOf(w, f.mod.insts, data, BindingsSound.Rebound(table, f.aliases)), ProgramOf(w, m.insts, entries, table),
                w, lanes, entry, count, mem, Unguarded(Closing(m, entries).value))
  {
    var closed := Closing(m, entries).value;
    PatchReadied(m, entries);
    SizeChain.MaterializeClosesIff(LocalSize.Patched(m, entries), entries);
    ClosingKeeps(w, m, entries, details, table);
    ClosingValid(m, entries);
    Specializing.ClosedIgnoresEntries(w, closed.insts, entries, data, table);
    OutputPreserves(w, closed, data, details, table, lanes, entry, count, mem);
  }

  /** The patched case: one WorkgroupSize composite and a literal that stage 1
      replaced. */
  lemma PatchedNeedsNoEntries(w: World, m: Module, entries: seq<Entry>, details: seq<int>, table: Table, lanes: nat, entry: nat, count: nat, mem: Mem,
                              data: seq<Entry>)
    requires Sound(w, m, entries, details, table) && Effective(m, entries, details).Ok?
    requires Specializing.SpecShapes(m.insts) && LocalSize.Eligible(m.insts, entries) && OneComposite(m.insts)
    requires var p := ProgramOf(w, m.insts, entries, table); Safe(p, w, lanes, Start(p, entry, count, mem))
    ensures Closing(m, entries).Ok? && Closing(m, entries).value.Valid()
    ensures var f := Effective(m, entries, details).value;
      Preserves(ProgramOf(w, f.mod.insts, data, BindingsSound.Rebound(table, f.aliases)), ProgramOf(w, m.insts, entries, table),
                w, lanes, entry, count, mem, Unguarded(Closing(m, entries).value))
  {
    PatchedSizeResolves(m, entries);
    PatchReadied(m, entries);
    SizeChain.MaterializeCloses(LocalSize.Patched(m, entries), entries);
    EffectiveWithoutEntries(w, m, entries, details, table, lanes, entry, count, mem, data);
  }

  /** Stages 1 and 2 keep a module well formed, whatever the dispatch supplies. */
  lemma ClosingWellFormed(w: World, m: Module, entries: seq<Entry>)
    requires Specializing.Readied(m) && WellFormed(w, m) && Closing(m, entries).Ok?
    ensures WellFormed(w, Closing(m, entries).value) && Closing(m, entries).value.Bound() == m.Bound()
  {
    hide Specializing.FoldAll, LocalSize.WithSize;
    var patched, out := LocalSize.Patched(m, entries), Closing(m, entries).value;
    var plan := Specializing.PlanOf(patched, entries);
    PatchReadied(m, entries);
    LocalSize.WithSizeFolds(w, SpecializationOf(m.insts, entries), {}, m.insts, LocalSize.Resolved(m.insts, entries));
    Specializing.FoldFolds(plan, {}, patched.insts);
    OneWordKept(plan, patched.insts);
    ClosingValid(m, entries);
  }

  lemma RewriteWellFormed(w: World, m: Module, details: seq<int>)
    requires WellFormed(w, m) && Bindings.Rewritten(m, details).Ok?
    ensures WellFormed(w, m.(insts := Bindings.Rewritten(m, details).value.insts))
  {
    hide Bindings.Rewrite6;
    var zero, out := BindingsSound.ZeroOf(m), Bindings.Rewritten(m, details).value.insts;
    BindingsSound.RewriteValid(m, details);
    BindingsSound.RewriteShapes(zero, m.insts, Bindings.Used(m, details), {});
    forall i | 0 <= i < |out| && (Op(out[i]) == CONSTANT || Op(out[i]) == SPEC_CONSTANT) ensures |out[i]| == 4 {
      assert BindingsSound.SameButBinding(m.insts[i], out[i]);
    }
  }

  /** The output is a well-formed module. It is well sized, and written out and
      parsed again it is itself. Its declarations are unique and below its bound,
      and its code reads nothing at or above it. Every id, declared or defined by
      the code, is defined at most once. The binding numbers of set 0 are pairwise
      distinct. */
  lemma EffectiveWellFormed(w: World, m: Module, entries: seq<Entry>, details: seq<int>)
    requires Specializing.Readied(m) && WellFormed(w, m) && DefinedOnce(w, m.insts, m.Bound()) && Effective(m, entries, details).Ok?
    ensures var out := Effective(m, entries, details).value.mod;
      && WellFormed(w, out) && ModuleOf(out.Words()) == Ok(out) && DefinedOnce(w, out.insts, out.Bound())
      && BindingsSound.Distinct(BindingsSound.Operands(BindingsSound.ZeroOf(out), out.insts))
  {
    hide DefinedOnce, Closing, Lowering, Specializing.Readied, Storage16.LowerModule, Bitcasts.LowerModule, Barriers.Guarded, Bindings.Rewritten;
    Stages(m, entries, details);
    ClosingWellFormed(w, m, entries);
    OnceThrough(w, m, entries, details);
    var m2 := Closing(m, entries).value;
    var m3 := Storage16.LowerModule(m2);
    StorageKeeps(w, m2);
    BitcastSound.LowerWellFormed(w, m3);
    var m4 := Bitcasts.LowerModule(m3).value;
    StageIds.GuardWellFormed(w, m4);
    var m5 := Barriers.Guarded(m4);
    RewriteWellFormed(w, m5, details);
    BindingsSound.RewriteSameSets(m5, details);
    BindingsSound.BindingsDistinct(m5, details);
    WordsRoundTrip(Effective(m, entries, details).value.mod);
  }

  /** What the stages give one another. */
  lemma Stages(m: Module, entries: seq<Entry>, details: seq<int>)
    requires m.Valid() && Effective(m, entries, details).Ok?
    ensures LocalSize.Patched(m, entries).Valid() && Closing(m, entries).Ok? && Closing(m, entries).value.Valid()
    ensures Closing(m, entries) == Specializing.Materialized(LocalSize.Patched(m, entries), entries)
    ensures var m3 := Storage16.LowerModule(Closing(m, entries).value);
      && m3.Valid() && Bitcasts.LowerModule(m3).Ok? && Bitcasts.LowerModule(m3).value.Valid()
      && var m5 := Barriers.Guarded(Bitcasts.LowerModule(m3).value);
         m5.Valid() && Bindings.Rewritten(m5, details).Ok?
         && Effective(m, entries, details).value.mod == m5.(insts := Bindings.Rewritten(m5, details).value.insts)
  {
    hide Specializing.Materialized, Storage16.LowerModule, Bitcasts.LowerModule, Barriers.Guarded, Bindings.Rewritten, LocalSize.Patched;
    LocalSize.PatchValid(m, entries);
    ClosingValid(m, entries);
    StorageValid(Closing(m, entries).value);
    BitcastValid(Storage16.LowerModule(Closing(m, entries).value));
    Barriers.GuardShape(Bitcasts.LowerModule(Storage16.LowerModule(Closing(m, entries).value)).value);
  }

  lemma OnceThrough(w: World, m: Module, entries: seq<Entry>, details: seq<int>)
    requires m.Valid() && DefinedOnce(w, m.insts, m.Bound()) && Effective(m, entries, details).Ok?
    ensures var out := Effective(m, entries, details).value.mod; |out.header| == HEADER && DefinedOnce(w, out.insts, out.Bound())
  {
    hide DefinedOnce, Effective, Closing, Specializing.Materialized, Storage16.LowerModule, Bitcasts.LowerModule, Barriers.Guarded, Bindings.Rewritten, LocalSize.Patched;
    Stages(m, entries, details);
    var m2 := Closing(m, entries).value;
    var m3 := Storage16.LowerModule(m2);
    var m4 := Bitcasts.LowerModule(m3).value;
    StageIds.PatchTidy(w, m, entries);
    StageIds.MaterializeTidy(w, LocalSize.Patched(m, entries), entries);
    StorageIds.LoadsOnce(w, m2);
    StageIds.CastTidy(w, m3);
    StageIds.GuardTidy(w, m4);
    StageIds.RewriteTidy(w, Barriers.Guarded(m4), details);
  }

  /** Every id is defined before it is used, if it was so in the source and, where
      loads are lowered, the byte view stands in front of them and their pointers
      are used by them alone. */
  lemma EffectiveTidy(w: World, m: Module, entries: seq<Entry>, details: seq<int>)
    requires m.Valid() && Tidy(w, m) && Effective(m, entries, details).Ok?
    requires Closing(m, entries).Ok? && Storage16.Applies(Closing(m, entries).value) ==>
      StorageIds.LoadsClean(w, Storage16.TypesOf(Closing(m, entries).value.insts), Closing(m, entries).value.insts)
    ensures var out := Effective(m, entries, details).value.mod; |out.header| == HEADER && Tidy(w, out)
  {
    hide Tidy, DefinedOnce, Effective, Closing, Specializing.Materialized, Storage16.LowerModule, Bitcasts.LowerModule, Barriers.Guarded, Bindings.Rewritten,
      LocalSize.Patched, Storage16.Applies, StorageIds.LoadsClean;
    Stages(m, entries, details);
    var m2 := Closing(m, entries).value;
    var m3 := Storage16.LowerModule(m2);
    var m4 := Bitcasts.LowerModule(m3).value;
    StageIds.PatchTidy(w, m, entries);
    StageIds.MaterializeTidy(w, LocalSize.Patched(m, entries), entries);
    StorageIds.LoadsTidy(w, m2);
    StageIds.CastTidy(w, m3);
    StageIds.GuardTidy(w, m4);
    StageIds.RewriteTidy(w, Barriers.Guarded(m4), details);
  }
}
