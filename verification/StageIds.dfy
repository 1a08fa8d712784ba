/** Every stage of the effective-module compiler keeps result ids defined once,
    below the bound, and before their uses. */
module StageIds {
  import opened Words
  import opened Ops
  import opened Machine
  import opened Translation
  import opened Meaning
  import opened Definitions
  import LocalSize
  import Specializing
  import S16 = Storage16
  import Shape16 = Storage16Shape
  import Sound16 = Storage16Sound
  import Bitcasts
  import BitcastSound
  import Barriers
  import Bindings
  import BindingsSound

  // ---- instruction by instruction ----

  function Pairs(a: seq<Inst>, b: seq<Inst>): (r: seq<Unit>)
    requires |a| == |b|
    ensures |r| == |a|
  {
    seq(|a|, i requires 0 <= i < |a| => Unit([a[i]], [b[i]]))
  }

  lemma {:induction false} PairsFlat(a: seq<Inst>, b: seq<Inst>)
    requires |a| == |b|
    ensures Flatten(Srcs(Pairs(a, b))) == a && Flatten(Dsts(Pairs(a, b))) == b
  {
    if a != [] {
      UnitsCons(Pairs(a, b));
      assert Pairs(a, b)[1..] == Pairs(a[1..], b[1..]);
      PairsFlat(a[1..], b[1..]);
    }
  }

  /** Streams that agree place by place are tidy together. */
  lemma PairsTidy(w: World, a: Module, b: Module)
    requires |a.header| == HEADER && |b.header| == HEADER && b.Bound() == a.Bound() && |b.insts| == |a.insts|
    requires forall i :: 0 <= i < |a.insts| ==> Alike(w, a.insts[i], b.insts[i])
    ensures DefinedOnce(w, a.insts, a.Bound()) ==> DefinedOnce(w, b.insts, b.Bound())
    ensures Tidy(w, a) ==> Tidy(w, b)
  {
    hide Alike, DefinedFirst, Layered;
    PairsFlat(a.insts, b.insts);
    InPlace(w, Pairs(a.insts, b.insts));
  }

  /** Stage 1. */
  lemma PatchTidy(w: World, m: Module, entries: seq<Entry>)
    requires m.Valid()
    ensures var out := LocalSize.Patched(m, entries);
      |out.header| == HEADER && (DefinedOnce(w, m.insts, m.Bound()) ==> DefinedOnce(w, out.insts, out.Bound())) && (Tidy(w, m) ==> Tidy(w, out))
  {
    hide Tidy, DefinedOnce, Alike, LocalSize.Sized;
    var out := LocalSize.Patched(m, entries);
    if LocalSize.Eligible(m.insts, entries) {
      forall i | 0 <= i < |m.insts| ensures Alike(w, m.insts[i], out.insts[i]) { SizedAlike(w, m.insts[i], LocalSize.Resolved(m.insts, entries)); }
      PairsTidy(w, m, out);
    }
  }

  lemma SizedAlike(w: World, inst: Inst, dims: seq<Word>)
    requires |dims| == 3
    ensures Alike(w, inst, LocalSize.Sized(inst, dims))
  {}

  // ---- stage 2 ----

  /** The fold as a list of units: instructions that stay or change in place, and
      decorations that go. */
  lemma {:induction false} FoldUnits(w: World, p: Specializing.Plan, insts: seq<Inst>) returns (units: seq<Unit>)
    requires AllSized(insts) && Specializing.FoldAll(p, insts).Ok?
    ensures Flatten(Srcs(units)) == insts && Flatten(Dsts(units)) == Specializing.FoldAll(p, insts).value.out
    ensures forall u :: 0 <= u < |units| ==> Stays(w, units[u]) || Goes(w, units[u])
  {
    hide Stays, Goes, Specializing.StepInst;
    if insts == [] {
      units := [];
    } else {
      var front, inst := insts[..|insts| - 1], insts[|insts| - 1];
      var before := FoldUnits(w, p, front);
      var s := Specializing.FoldAll(p, front).value;
      var emitted := Specializing.StepShape(p, s, inst);
      var unit := Unit([inst], match emitted case None => [] case Some(y) => [y]);
      FoldUnit(w, p, inst, emitted);
      units := before + [unit];
      UnitsParts(before, unit, []);
      assert before + [unit] + [] == units && Flatten(Srcs([])) == [] && Flatten(Dsts([])) == [];
    }
  }

  lemma FoldUnit(w: World, p: Specializing.Plan, inst: Inst, emitted: Option<Inst>)
    requires emitted.None? ==> Specializing.Strips(p, inst)
    requires emitted.Some? ==> Specializing.Replacement(emitted.value, inst)
    ensures var unit := Unit([inst], match emitted case None => [] case Some(y) => [y]); Stays(w, unit) || Goes(w, unit)
  {
    if emitted.Some? && Op(inst) == SPEC_CONSTANT_COMPOSITE && |inst| >= 3 {
      assert emitted.value[3..] == emitted.value[1..][2..] && inst[3..] == inst[1..][2..];
      assert emitted.value[1] == emitted.value[1..][0] && inst[1] == inst[1..][0];
    }
  }

  lemma MaterializeTidy(w: World, m: Module, entries: seq<Entry>)
    requires m.Valid() && Specializing.Materialized(m, entries).Ok?
    ensures var out := Specializing.Materialized(m, entries).value;
      |out.header| == HEADER && (DefinedOnce(w, m.insts, m.Bound()) ==> DefinedOnce(w, out.insts, out.Bound())) && (Tidy(w, m) ==> Tidy(w, out))
  {
    hide Stays, Goes, DefinedFirst, Layered, Specializing.FoldAll;
    var units := FoldUnits(w, Specializing.PlanOf(m, entries), m.insts);
    InPlace(w, units);
  }

  // ---- stage 6 ----

  lemma RewriteTidy(w: World, m: Module, details: seq<int>)
    requires m.Valid() && Bindings.Rewritten(m, details).Ok?
    ensures var out := m.(insts := Bindings.Rewritten(m, details).value.insts);
      (DefinedOnce(w, m.insts, m.Bound()) ==> DefinedOnce(w, out.insts, out.Bound())) && (Tidy(w, m) ==> Tidy(w, out))
  {
    hide Tidy, DefinedOnce, Alike, Bindings.Rewrite6;
    var zero, out := BindingsSound.ZeroOf(m), Bindings.Rewritten(m, details).value.insts;
    BindingsSound.RewriteShapes(zero, m.insts, Bindings.Used(m, details), {});
    forall i | 0 <= i < |m.insts| ensures Alike(w, m.insts[i], out[i]) { BindingAlike(w, m.insts[i], out[i]); }
    PairsTidy(w, m, m.(insts := out));
  }

  lemma BindingAlike(w: World, x: Inst, y: Inst)
    requires BindingsSound.SameButBinding(x, y)
    ensures Alike(w, x, y)
  {}

  // ---- what a scan finds ----

  /** A type or constant of the stream. */
  ghost predicate Typed(w: World, insts: seq<Inst>, id: nat) {
    exists k :: 0 <= k < |insts| && Global(Op(insts[k])) && ResultOf(w, insts[k]) == Some(id)
  }

  lemma TypedMore(w: World, a: seq<Inst>, b: seq<Inst>, id: nat)
    ensures Typed(w, a, id) || Typed(w, b, id) ==> Typed(w, a + b, id)
  {
    hide Global, ResultOf;
    var s := a + b;
    if Typed(w, a, id) {
      var k :| 0 <= k < |a| && Global(Op(a[k])) && ResultOf(w, a[k]) == Some(id);
      assert s[k] == a[k];
    } else if Typed(w, b, id) {
      var k :| 0 <= k < |b| && Global(Op(b[k])) && ResultOf(w, b[k]) == Some(id);
      assert s[|a| + k] == b[k];
    }
  }

  lemma TypedOne(w: World, inst: Inst, id: nat)
    requires Global(Op(inst)) && ResultOf(w, inst) == Some(id)
    ensures Typed(w, [inst], id)
  {
    var one := [inst];
    assert one[0] == inst;
  }

  lemma TypedBefore(w: World, insts: seq<Inst>, k: nat, id: nat)
    requires Typed(w, insts, id) && Layered(insts) && k < |insts| && Inner(Op(insts[k]))
    ensures Times(w, insts[..k], id) > 0
  {
    hide Global, Inner, ResultOf;
    var j :| 0 <= j < |insts| && Global(Op(insts[j])) && ResultOf(w, insts[j]) == Some(id);
    GlobalBefore(w, insts, j, k, id);
  }

  // ---- stage 5 ----

  ghost predicate BarrierTyped(w: World, insts: seq<Inst>, f: Barriers.Found) {
    && (f.uintT != 0 ==> Typed(w, insts, f.uintT)) && (f.boolT != 0 ==> Typed(w, insts, f.boolT)) && (f.zero != 0 ==> Typed(w, insts, f.zero))
    && (f.two != 0 ==> Typed(w, insts, f.two)) && (f.scope264 != 0 ==> Typed(w, insts, f.scope264))
  }

  lemma BarrierSee(w: World, front: seq<Inst>, x: Inst, f: Barriers.Found)
    requires BarrierTyped(w, front, f)
    ensures BarrierTyped(w, front + [x], Barriers.See(f, x))
  {
    hide Typed, Seen, Barriers.See;
    var g := Barriers.See(f, x);
    BarrierSeen(w, x, f);
    SeenTyped(w, front, x, f.uintT, g.uintT);
    SeenTyped(w, front, x, f.boolT, g.boolT);
    SeenTyped(w, front, x, f.zero, g.zero);
    SeenTyped(w, front, x, f.two, g.two);
    SeenTyped(w, front, x, f.scope264, g.scope264);
  }

  lemma BarrierSeen(w: World, x: Inst, f: Barriers.Found)
    ensures var g := Barriers.See(f, x);
      && Seen(w, x, f.uintT, g.uintT) && Seen(w, x, f.boolT, g.boolT) && Seen(w, x, f.zero, g.zero)
      && Seen(w, x, f.two, g.two) && Seen(w, x, f.scope264, g.scope264)
  {}

  /** An id found so far, or defined by the type or constant `x`. */
  ghost predicate Seen(w: World, x: Inst, was: nat, now: nat) { now == was || (Global(Op(x)) && ResultOf(w, x) == Some(now)) }

  lemma SeenTyped(w: World, front: seq<Inst>, x: Inst, was: nat, now: nat)
    requires Seen(w, x, was, now) && (was != 0 ==> Typed(w, front, was))
    ensures now != 0 ==> Typed(w, front + [x], now)
  {
    hide Typed, Global, ResultOf;
    TypedMore(w, front, [x], now);
    if Global(Op(x)) && ResultOf(w, x) == Some(now) { TypedOne(w, x, now); }
  }

  lemma {:induction false} BarrierScan(w: World, insts: seq<Inst>)
    ensures BarrierTyped(w, insts, Barriers.Scan(insts))
  {
    hide BarrierTyped, Barriers.See;
    if insts != [] {
      var front, x := insts[..|insts| - 1], insts[|insts| - 1];
      BarrierScan(w, front);
      BarrierSee(w, front, x, Barriers.Scan(front));
      assert front + [x] == insts;
    } else {
      NoBarrier(w);
    }
  }

  lemma NoBarrier(w: World)
    ensures BarrierTyped(w, [], Barriers.NOTHING)
  {}

  lemma BarrierUses(w: World, insts: seq<Inst>, k: nat, id: nat)
    requires Barriers.Complete(Barriers.Scan(insts)) && Barriers.Matches(Barriers.Scan(insts), insts, k)
    requires id in Uses(w, Barriers.BarrierInst(Barriers.Scan(insts)))
    ensures Typed(w, insts, id) && Inner(Op(insts[k]))
  {
    hide Typed;
    BarrierScan(w, insts);
    var b := Barriers.BarrierInst(Barriers.Scan(insts));
    assert b[1..] == [b[1], b[2], b[3]];
  }

  lemma PlaceMatches(m: Module)
    requires Barriers.Place(m).Some?
    ensures var k, f := Barriers.Place(m).value, Barriers.Scan(m.insts); k < |m.insts| && Barriers.Complete(f) && Barriers.Matches(f, m.insts, k)
  {}

  /** The barrier's units: copies, and the barrier behind the instruction `k`. */
  lemma BarrierUnit(w: World, m: Module, u: nat)
    requires Barriers.Place(m).Some? && Layered(m.insts)
    requires u < |Barriers.Units(m.insts, Barriers.Place(m).value, Barriers.BarrierInst(Barriers.Scan(m.insts)))|
    ensures var units := Barriers.Units(m.insts, Barriers.Place(m).value, Barriers.BarrierInst(Barriers.Scan(m.insts)));
      Keeps(w, units[u], {}) && Grounded(w, units, {}, u) && LayerKept(units, u)
  {
    hide Barriers.Scan, Barriers.Place, Uses, Times, Inner, Global, Grounded, Keeps, LayerKept, Layered, ResultOf, Stays;
    var k, inst := Barriers.Place(m).value, Barriers.BarrierInst(Barriers.Scan(m.insts));
    var units := Barriers.Units(m.insts, k, inst);
    Barriers.UnitsFlat(m.insts, k, inst);
    Barriers.UnitAt(m.insts, k, inst, u);
    if u == k + 1 {
      CopiesBefore(m.insts, k, inst);
      BarrierGrounded(w, m, units, u);
    } else {
      CopyStays(w, units[u]);
      StaysSound(w, units, {}, u);
    }
  }

  lemma CopyStays(w: World, unit: Unit)
    requires |unit.src| == 1 && unit.dst == unit.src
    ensures Stays(w, unit)
  {}

  lemma CopiesBefore(insts: seq<Inst>, k: nat, inst: Inst)
    requires k < |insts|
    ensures Flatten(Srcs(Barriers.Units(insts, k, inst)[..k + 1])) == insts[..k + 1]
  {
    assert Barriers.Units(insts, k, inst)[..k + 1] == Copies(insts[..k + 1]);
    CopiesFlat(insts[..k + 1]);
  }

  lemma BarrierGrounded(w: World, m: Module, units: seq<Unit>, u: nat)
    requires Barriers.Place(m).Some? && Layered(m.insts) && u == Barriers.Place(m).value + 1 < |units|
    requires units[u] == Unit([], [Barriers.BarrierInst(Barriers.Scan(m.insts))]) && Flatten(Srcs(units[..u])) == m.insts[..u]
    ensures Keeps(w, units[u], {}) && Grounded(w, units, {}, u) && LayerKept(units, u)
  {
    hide Barriers.Scan, Barriers.Place, Times, Layered, ResultOf, Uses;
    var k, inst := Barriers.Place(m).value, Barriers.BarrierInst(Barriers.Scan(m.insts));
    PlaceMatches(m);
    forall o, id | 0 <= o < |units[u].dst| && id in Uses(w, units[u].dst[o]) ensures There(w, units, {}, u, o, id) {
      BarrierUses(w, m.insts, k, id);
      TypedBefore(w, m.insts, k, id);
      TimesCut(w, m.insts[..k + 1], k, id);
      assert m.insts[..k + 1][..k] == m.insts[..k];
    }
    NoTimes(w);
  }

  lemma NoTimes(w: World)
    ensures forall id :: Times(w, [], id) == 0
  {}

  /** Stage 5. */
  lemma GuardTidy(w: World, m: Module)
    requires m.Valid()
    ensures var out := Barriers.Guarded(m);
      |out.header| == HEADER && (DefinedOnce(w, m.insts, m.Bound()) ==> DefinedOnce(w, out.insts, out.Bound())) && (Tidy(w, m) ==> Tidy(w, out))
  {
    hide Barriers.Scan, Barriers.Place, Times, Layered, ResultOf, Uses, DefinedFirst, Barriers.Units, Keeps, Grounded, LayerKept;
    if Barriers.Place(m).Some? {
      var k, inst := Barriers.Place(m).value, Barriers.BarrierInst(Barriers.Scan(m.insts));
      PlaceMatches(m);
      forall id ensures Times(w, Barriers.InsertAfter(m.insts, k, inst), id) == Times(w, m.insts, id) { BarrierTimes(w, m.insts, k, inst, id); }
      if Tidy(w, m) {
        var units := Barriers.Units(m.insts, k, inst);
        Barriers.UnitsFlat(m.insts, k, inst);
        forall u | 0 <= u < |units| ensures Keeps(w, units[u], {}) && Grounded(w, units, {}, u) && LayerKept(units, u) { BarrierUnit(w, m, u); }
        UnitsDefined(w, units, {});
        UnitsLayered(units);
      }
    }
  }

  lemma BarrierTimes(w: World, insts: seq<Inst>, k: nat, inst: Inst, id: nat)
    requires k < |insts| && Op(inst) == CONTROL_BARRIER
    ensures Times(w, Barriers.InsertAfter(insts, k, inst), id) == Times(w, insts, id)
  {
    TimesCut(w, insts, k + 1, id);
    TimesAppend(w, insts[..k + 1] + [inst], insts[k + 1..], id);
    TimesAppend(w, insts[..k + 1], [inst], id);
    TimesOne(w, inst, id);
  }

  /** The barrier reads only declared ids. */
  lemma GuardWellFormed(w: World, m: Module)
    requires WellFormed(w, m)
    ensures WellFormed(w, Barriers.Guarded(m)) && Barriers.Guarded(m).Bound() == m.Bound()
  {
    hide Barriers.Scan, Barriers.Place, Uses, Typed, Barriers.Matches, Barriers.Complete;
    Barriers.GuardShape(m);
    if Barriers.Place(m).Some? {
      var k, inst, out := Barriers.Place(m).value, Barriers.BarrierInst(Barriers.Scan(m.insts)), Barriers.Guarded(m);
      PlaceMatches(m);
      forall i, id | 0 <= i < |Code(out.insts)| && id in Reads(w, Code(out.insts)[i]) ensures id < m.Bound() {
        var j := CodeIn(out.insts, i);
        if j == k + 1 {
          BarrierUse(w, inst, id);
          BarrierUses(w, m.insts, k, id);
          TypedBelow(w, m, id);
        } else {
          CodeIndex(m.insts, if j <= k then j else j - 1);
        }
      }
    }
  }

  lemma BarrierUse(w: World, inst: Inst, id: nat)
    requires Op(inst) == CONTROL_BARRIER && id in Reads(w, inst)
    ensures id in Uses(w, inst)
  {}

  lemma TypedBelow(w: World, m: Module, id: nat)
    requires |m.header| == HEADER && GoodIds(m.insts, m.Bound()) && Typed(w, m.insts, id)
    ensures id < m.Bound()
  {
    var k :| 0 <= k < |m.insts| && Global(Op(m.insts[k])) && ResultOf(w, m.insts[k]) == Some(id);
    GlobalDeclares(w, m.insts[k], id);
    IdIn(m.insts, k);
  }

  lemma GlobalDeclares(w: World, inst: Inst, id: nat)
    requires Global(Op(inst)) && ResultOf(w, inst) == Some(id)
    ensures DeclaredId(inst) == Some(id)
  {}

  // ---- blocks of fresh ids ----

  /** A block whose instructions define `n` and the ids after it, in order. */
  lemma {:induction false} TimesFresh(w: World, block: seq<Inst>, n: nat, id: nat)
    requires forall i :: 0 <= i < |block| ==> ResultOf(w, block[i]) == Some(n + i)
    ensures Times(w, block, id) == if n <= id < n + |block| then 1 else 0
  {
    hide ResultOf;
    if block != [] {
      TimesFresh(w, block[..|block| - 1], n, id);
    }
  }

  /** Such a block, and a last instruction that defines an older id. */
  lemma TimesBlock(w: World, block: seq<Inst>, n: nat, last: nat, id: nat)
    requires block != [] && forall i :: 0 <= i < |block| - 1 ==> ResultOf(w, block[i]) == Some(n + i)
    requires ResultOf(w, block[|block| - 1]) == Some(last)
    ensures Times(w, block, id) == (if n <= id < n + |block| - 1 then 1 else 0) + if id == last then 1 else 0
  {
    hide ResultOf;
    TimesFresh(w, block[..|block| - 1], n, id);
  }

  /** An id that an earlier instruction of the block defines is there. */
  lemma OwnThere(w: World, units: seq<Unit>, gone: set<nat>, u: nat, j: nat, o: nat, id: nat)
    requires u < |units| && j < o < |units[u].dst| && ResultOf(w, units[u].dst[j]) == Some(id)
    ensures There(w, units, gone, u, o, id)
  {
    hide ResultOf;
    TimesBefore(w, units[u].dst, j, o, id);
  }

  /** So is a type or constant, if the unit stands at a body instruction. */
  lemma TypedThere(w: World, units: seq<Unit>, gone: set<nat>, u: nat, o: nat, insts: seq<Inst>, k: nat, id: nat)
    requires u < |units| && o < |units[u].dst| && k < |insts| && Flatten(Srcs(units[..u])) == insts[..k]
    requires Typed(w, insts, id) && Layered(insts) && Inner(Op(insts[k])) && id !in gone
    ensures There(w, units, gone, u, o, id)
  {
    hide Typed, Inner, Global, ResultOf;
    TypedBefore(w, insts, k, id);
  }

  /** And what the first instruction of the unit's source needed. */
  lemma NeededThere(w: World, units: seq<Unit>, gone: set<nat>, u: nat, o: nat, id: nat)
    requires u < |units| && o < |units[u].dst| && |units[u].src| >= 1 && Op(units[u].src[0]) != PHI
    requires id in Uses(w, units[u].src[0]) && id !in gone
    ensures There(w, units, gone, u, o, id)
  {
    hide Uses, ResultOf;
    assert units[u].src[..0] == [];
    assert Needed(w, units[u], 0, o, id);
  }

  // ---- stage 4 ----

  ghost predicate CastTyped(w: World, insts: seq<Inst>, t: Bitcasts.Types) {
    && (t.uintT != 0 ==> Typed(w, insts, t.uintT)) && (t.ucharT != 0 ==> Typed(w, insts, t.ucharT)) && (t.quadT != 0 ==> Typed(w, insts, t.quadT))
    && (t.eight != 0 ==> Typed(w, insts, t.eight)) && (t.sixteen != 0 ==> Typed(w, insts, t.sixteen))
    && (t.twentyFour != 0 ==> Typed(w, insts, t.twentyFour))
  }

  lemma CastSeen(w: World, x: Inst, t: Bitcasts.Types)
    ensures var s := Bitcasts.See(t, x);
      && Seen(w, x, t.uintT, s.uintT) && Seen(w, x, t.ucharT, s.ucharT) && Seen(w, x, t.quadT, s.quadT)
      && Seen(w, x, t.eight, s.eight) && Seen(w, x, t.sixteen, s.sixteen) && Seen(w, x, t.twentyFour, s.twentyFour)
  {}

  lemma CastSee(w: World, front: seq<Inst>, x: Inst, t: Bitcasts.Types)
    requires CastTyped(w, front, t)
    ensures CastTyped(w, front + [x], Bitcasts.See(t, x))
  {
    hide Typed, Seen, Bitcasts.See;
    var s := Bitcasts.See(t, x);
    CastSeen(w, x, t);
    SeenTyped(w, front, x, t.uintT, s.uintT);
    SeenTyped(w, front, x, t.ucharT, s.ucharT);
    SeenTyped(w, front, x, t.quadT, s.quadT);
    SeenTyped(w, front, x, t.eight, s.eight);
    SeenTyped(w, front, x, t.sixteen, s.sixteen);
    SeenTyped(w, front, x, t.twentyFour, s.twentyFour);
  }

  lemma {:induction false} CastScan(w: World, insts: seq<Inst>)
    ensures CastTyped(w, insts, Bitcasts.Scan(insts))
  {
    hide CastTyped, Bitcasts.See;
    if insts != [] {
      var front, x := insts[..|insts| - 1], insts[|insts| - 1];
      CastScan(w, front);
      CastSee(w, front, x, Bitcasts.Scan(front));
      assert front + [x] == insts;
    } else {
      NoCast(w);
    }
  }

  lemma NoCast(w: World)
    ensures CastTyped(w, [], Bitcasts.NO_TYPES)
  {}

  predicate CastId(t: Bitcasts.Types, id: nat) { id in {t.uintT as nat, t.ucharT, t.quadT, t.eight, t.sixteen, t.twentyFour} }

  /** What the eight instructions define and need. */
  lemma CastBlock(w: World, t: Bitcasts.Types, inst: Inst, n: nat, o: nat)
    requires Op(inst) == BITCAST && |inst| == 4 && n + 7 <= WORD && o < 8
    ensures var b := Bitcasts.Lowered(t, inst, n);
      && ResultOf(w, b[o]) == Some(if o < 7 then n + o else inst[2])
      && Op(b[o]) != PHI && !Global(Op(b[o]))
      && inst[3] in Uses(w, inst) && Inner(Op(inst)) && ResultOf(w, inst) == Some(inst[2])
    ensures forall id :: id in Uses(w, Bitcasts.Lowered(t, inst, n)[o]) ==> CastId(t, id) || id == inst[3] || n <= id < n + o
  {
    var b := Bitcasts.Lowered(t, inst, n);
    if o == 7 { assert b[7][3..] == [n as Word, (n + 2) as Word, (n + 4) as Word, (n + 6) as Word]; }
  }

  lemma HeadPrefix(all: seq<Unit>, unit: Unit, rest: seq<Unit>, u: nat)
    requires all == [unit] + rest && u <= |rest|
    ensures Flatten(Srcs(all[..u + 1])) == unit.src + Flatten(Srcs(rest[..u]))
  {
    BitcastSound.UnitsHead(all[..u + 1], unit, rest[..u]);
  }

  lemma CastPrefix(t: Bitcasts.Types, insts: seq<Inst>, n: nat, u: nat)
    requires n + 7 * Bitcasts.Count(t, insts) <= WORD && u <= |insts|
    ensures Flatten(Srcs(Bitcasts.UnitsFrom(t, insts, n)[..u])) == insts[..u]
    decreases |insts|
  {
    if u > 0 {
      Bitcasts.UnitsStep(t, insts, n);
      CastPrefix(t, insts[1..], n + Bitcasts.Fresh(t, insts[0]), u - 1);
      HeadPrefix(Bitcasts.UnitsFrom(t, insts, n), Bitcasts.UnitOf(t, insts[0], n),
                 Bitcasts.UnitsFrom(t, insts[1..], n + Bitcasts.Fresh(t, insts[0])), u - 1);
      assert insts[1..][..u - 1] == insts[1..u] && insts[..u] == [insts[0]] + insts[1..u];
    }
  }

  lemma {:induction false} CastTimes(w: World, t: Bitcasts.Types, insts: seq<Inst>, n: nat, id: nat)
    requires n + 7 * Bitcasts.Count(t, insts) <= WORD
    ensures Times(w, Flatten(Dsts(Bitcasts.UnitsFrom(t, insts, n))), id)
      == Times(w, insts, id) + if n <= id < n + 7 * Bitcasts.Count(t, insts) then 1 else 0
    decreases |insts|
  {
    hide *;
    if insts != [] {
      CastTimesStep(w, t, insts, n, id);
      CastTimes(w, t, insts[1..], n + Bitcasts.Fresh(t, insts[0]), id);
    } else {
      NoCastTimes(w, t, n, id);
    }
  }

  lemma NoCastTimes(w: World, t: Bitcasts.Types, n: nat, id: nat)
    requires n <= WORD
    ensures Bitcasts.Count(t, []) == 0 && Times(w, Flatten(Dsts(Bitcasts.UnitsFrom(t, [], n))), id) == Times(w, [], id)
  {}

  lemma CastTimesStep(w: World, t: Bitcasts.Types, insts: seq<Inst>, n: nat, id: nat)
    requires insts != [] && n + 7 * Bitcasts.Count(t, insts) <= WORD
    ensures n + Bitcasts.Fresh(t, insts[0]) + 7 * Bitcasts.Count(t, insts[1..]) == n + 7 * Bitcasts.Count(t, insts)
    ensures Times(w, insts, id) == Times(w, [insts[0]], id) + Times(w, insts[1..], id)
    ensures Times(w, Flatten(Dsts(Bitcasts.UnitsFrom(t, insts, n))), id)
      == Times(w, [insts[0]], id) + (if n <= id < n + Bitcasts.Fresh(t, insts[0]) then 1 else 0)
        + Times(w, Flatten(Dsts(Bitcasts.UnitsFrom(t, insts[1..], n + Bitcasts.Fresh(t, insts[0])))), id)
  {
    hide Times, ResultOf, Bitcasts.Lowered;
    var inst, rest := insts[0], Bitcasts.UnitsFrom(t, insts[1..], n + Bitcasts.Fresh(t, insts[0]));
    Bitcasts.UnitsStep(t, insts, n);
    BitcastSound.UnitsHead(Bitcasts.UnitsFrom(t, insts, n), Bitcasts.UnitOf(t, inst, n), rest);
    TimesCut(w, insts, 1, id);
    assert insts[..1] == [inst];
    TimesAppend(w, Bitcasts.UnitOf(t, inst, n).dst, Flatten(Dsts(rest)), id);
    if Bitcasts.Matches(t, inst) {
      forall o | 0 <= o < 8 ensures ResultOf(w, Bitcasts.Lowered(t, inst, n)[o]) == Some(if o < 7 then n + o else inst[2]) { CastBlock(w, t, inst, n, o); }
      TimesBlock(w, Bitcasts.Lowered(t, inst, n), n, inst[2], id);
      CastBlock(w, t, inst, n, 0);
      TimesOne(w, inst, id);
    }
  }

  lemma CastUnit(w: World, m: Module, u: nat)
    requires m.Valid() && Bitcasts.Applies(m) && Bitcasts.NewBound(m) < WORD && Layered(m.insts) && u < |m.insts|
    ensures Flatten(Srcs(Bitcasts.Units(m))) == m.insts
    ensures var units := Bitcasts.Units(m); Keeps(w, units[u], {}) && Grounded(w, units, {}, u) && LayerKept(units, u)
  {
    hide Times, ResultOf, Uses, Bitcasts.Lowered, Keeps, Grounded, LayerKept, Layered, Inner, Global, Stays, Bitcasts.Scan;
    var t, units := Bitcasts.Scan(m.insts), Bitcasts.Units(m);
    BitcastSound.UnitsSrcs(t, m.insts, m.Bound());
    var n := BitcastSound.UnitIs(t, m.insts, m.Bound(), u);
    if Bitcasts.Matches(t, m.insts[u]) {
      CastPrefix(t, m.insts, m.Bound(), u);
      CastGrounded(w, m.insts, units, u, n);
    } else {
      CopyStays(w, units[u]);
      StaysSound(w, units, {}, u);
    }
  }

  lemma CastGrounded(w: World, insts: seq<Inst>, units: seq<Unit>, u: nat, n: nat)
    requires u < |units| && u < |insts| && Flatten(Srcs(units[..u])) == insts[..u] && Layered(insts) && n + 7 <= WORD
    requires Bitcasts.Complete(Bitcasts.Scan(insts)) && Bitcasts.Matches(Bitcasts.Scan(insts), insts[u])
    requires units[u] == Unit([insts[u]], Bitcasts.Lowered(Bitcasts.Scan(insts), insts[u], n))
    ensures Keeps(w, units[u], {}) && Grounded(w, units, {}, u) && LayerKept(units, u)
  {
    hide Times, ResultOf, Uses, Bitcasts.Lowered, Layered, Inner, Global, Bitcasts.Scan, Typed, There;
    var t, inst := Bitcasts.Scan(insts), insts[u];
    CastScan(w, insts);
    forall o | 0 <= o < 8
      ensures ResultOf(w, units[u].dst[o]) == Some(if o < 7 then n + o else inst[2]) && !Global(Op(units[u].dst[o]))
    {
      CastBlock(w, t, inst, n, o);
    }
    forall o, id | 0 <= o < 8 && id in Uses(w, units[u].dst[o]) ensures There(w, units, {}, u, o, id) {
      CastBlock(w, t, inst, n, o);
      if CastId(t, id) { TypedThere(w, units, {}, u, o, insts, u, id); }
      else if id == inst[3] { NeededThere(w, units, {}, u, o, id); }
      else { OwnThere(w, units, {}, u, id - n, o, id); }
    }
    forall id | Times(w, units[u].src, id) > 0 ensures Times(w, units[u].dst, id) > 0 {
      CastBlock(w, t, inst, n, 0);
      TimesOne(w, inst, id);
      TimesBlock(w, units[u].dst, n, inst[2], id);
    }
    CastBlock(w, t, inst, n, 0);
    assert HasInner(units[u].src) by { assert Inner(Op(units[u].src[0])); }
  }

  /** Stage 4: every id is defined as often as before, and the reserved ones once. */
  lemma CastIds(w: World, m: Module, id: nat)
    requires m.Valid() && Bitcasts.LowerModule(m).Ok?
    ensures Times(w, Bitcasts.LowerModule(m).value.insts, id)
      == Times(w, m.insts, id) + if m.Bound() <= id < Bitcasts.LowerModule(m).value.Bound() then 1 else 0
  {
    hide Times, Bitcasts.UnitsFrom;
    if Bitcasts.Applies(m) { CastTimes(w, Bitcasts.Scan(m.insts), m.insts, m.Bound(), id); }
  }

  lemma CastTidy(w: World, m: Module)
    requires m.Valid() && Bitcasts.LowerModule(m).Ok?
    ensures var out := Bitcasts.LowerModule(m).value;
      |out.header| == HEADER && (DefinedOnce(w, m.insts, m.Bound()) ==> DefinedOnce(w, out.insts, out.Bound())) && (Tidy(w, m) ==> Tidy(w, out))
  {
    hide Times, ResultOf, Uses, Keeps, Grounded, LayerKept, Layered, DefinedFirst, Bitcasts.UnitsFrom, Bitcasts.Scan, Bitcasts.Applies;
    var out := Bitcasts.LowerModule(m).value;
    forall id: nat ensures Times(w, out.insts, id) == Times(w, m.insts, id) + if m.Bound() <= id < out.Bound() then 1 else 0 { CastIds(w, m, id); }
    if Tidy(w, m) && Bitcasts.Applies(m) {
      var units := Bitcasts.Units(m);
      BitcastSound.UnitsSrcs(Bitcasts.Scan(m.insts), m.insts, m.Bound());
      CastCount(m);
      forall u | 0 <= u < |units| ensures Keeps(w, units[u], {}) && Grounded(w, units, {}, u) && LayerKept(units, u) { CastUnit(w, m, u); }
      UnitsDefined(w, units, {});
      UnitsLayered(units);
    }
  }

  lemma CastCount(m: Module)
    requires |m.header| == HEADER && Bitcasts.NewBound(m) < WORD
    ensures |Bitcasts.Units(m)| == |m.insts|
  {}
}
