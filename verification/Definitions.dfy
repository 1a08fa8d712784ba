/** Result ids of a stream of instructions: defined once, and before they are
    used (sections 2.4 and 2.16). */
module Definitions {
  import opened Words
  import opened Ops
  import opened Machine
  import opened Translation
  import opened Meaning

  /** Types and constants. */
  predicate Global(op: nat) { 19 <= op <= 39 || 41 <= op <= 52 }

  /** Instructions of a function body that the rewrites read or write. */
  predicate Inner(op: nat) { Produces(op) || op == LABEL }

  /** The id an instruction defines, if any. */
  ghost function ResultOf(w: World, inst: Inst): Option<nat> {
    var op := Op(inst);
    if op in {STRING, EXT_INST_IMPORT, DECORATION_GROUP} && |inst| >= 2 then Some(inst[1])
    else if Declarative(op) then DeclaredId(inst)
    else if op == LABEL && |inst| >= 2 then Some(inst[1])
    else if op == CONTROL_BARRIER then None
    else if Produces(op) && |inst| >= 3 then Some(inst[2])
    else w.defines(inst)
  }

  /** The ids an instruction needs: of a type, constant or variable what it is
      made of, of any other its operands and its result type. Names, decorations,
      entry points and modes may come before what they name. */
  ghost function Uses(w: World, inst: Inst): set<nat> {
    var op := Op(inst);
    if Declarative(op) then
      if op == TYPE_POINTER && |inst| >= 4 then {inst[3] as nat}
      else if op in {CONSTANT, SPEC_CONSTANT} && |inst| >= 3 then {inst[1] as nat}
      else if op in {CONSTANT_COMPOSITE, SPEC_CONSTANT_COMPOSITE} && |inst| >= 3 then {inst[1] as nat} + IdSet(inst[3..])
      else if op == SPEC_CONSTANT_OP && |inst| >= 3 then {inst[1] as nat} + w.uses(inst)
      else if Global(op) || op == VARIABLE then w.uses(inst)
      else {}
    else if Produces(op) && |inst| >= 3 then Reads(w, inst) + {inst[1] as nat}
    else Reads(w, inst)
  }

  /** How many instructions define the id. */
  ghost function Times(w: World, insts: seq<Inst>, id: nat): nat {
    if insts == [] then 0
    else Times(w, insts[..|insts| - 1], id) + if ResultOf(w, insts[|insts| - 1]) == Some(id) then 1 else 0
  }

  /** Every id is defined at most once, and below the bound. */
  ghost predicate DefinedOnce(w: World, insts: seq<Inst>, bound: nat) {
    forall id: nat :: Times(w, insts, id) <= 1 && (Times(w, insts, id) > 0 ==> id < bound)
  }

  /** Every id is defined before the instruction that uses it; for a phi, anywhere. */
  ghost predicate DefinedFirst(w: World, insts: seq<Inst>) {
    forall i, id :: 0 <= i < |insts| && id in Uses(w, insts[i]) ==> Times(w, if Op(insts[i]) == PHI then insts else insts[..i], id) > 0
  }

  /** Types and constants come before function bodies. */
  predicate Layered(insts: seq<Inst>) {
    forall j, k :: 0 <= j < k < |insts| && Inner(Op(insts[j])) ==> !Global(Op(insts[k]))
  }

  ghost predicate Tidy(w: World, m: Module)
    requires |m.header| == HEADER
  {
    DefinedOnce(w, m.insts, m.Bound()) && DefinedFirst(w, m.insts) && Layered(m.insts)
  }

  // ---- counting ----

  lemma {:induction false} TimesAppend(w: World, a: seq<Inst>, b: seq<Inst>, id: nat)
    ensures Times(w, a + b, id) == Times(w, a, id) + Times(w, b, id)
    decreases |b|
  {
    if b == [] {
      assert a + b == a;
    } else {
      assert (a + b)[..|a + b| - 1] == a + b[..|b| - 1];
      TimesAppend(w, a, b[..|b| - 1], id);
    }
  }

  lemma TimesOne(w: World, inst: Inst, id: nat)
    ensures Times(w, [inst], id) == if ResultOf(w, inst) == Some(id) then 1 else 0
  {
    var one := [inst];
    assert one[..0] == [];
  }

  lemma TimesCut(w: World, insts: seq<Inst>, k: nat, id: nat)
    requires k <= |insts|
    ensures Times(w, insts, id) == Times(w, insts[..k], id) + Times(w, insts[k..], id)
  {
    assert insts == insts[..k] + insts[k..];
    TimesAppend(w, insts[..k], insts[k..], id);
  }

  /** An instruction before `k` that defines the id. */
  lemma TimesBefore(w: World, insts: seq<Inst>, j: nat, k: nat, id: nat)
    requires j < k <= |insts| && ResultOf(w, insts[j]) == Some(id)
    ensures Times(w, insts[..k], id) > 0
  {
    TimesCut(w, insts[..k], j + 1, id);
    assert insts[..k][..j + 1] == insts[..j + 1] && insts[..j + 1][..j] == insts[..j];
  }

  lemma {:induction false} TimesFrom(w: World, insts: seq<Inst>, id: nat) returns (k: nat)
    requires Times(w, insts, id) > 0
    ensures k < |insts| && ResultOf(w, insts[k]) == Some(id)
  {
    var last := |insts| - 1;
    if ResultOf(w, insts[last]) == Some(id) { k := last; } else { k := TimesFrom(w, insts[..last], id); }
  }

  /** Two instructions with one result are the same. */
  lemma OnlyOne(w: World, insts: seq<Inst>, j: nat, k: nat, id: nat)
    requires j < |insts| && k < |insts| && ResultOf(w, insts[j]) == Some(id) && ResultOf(w, insts[k]) == Some(id)
    requires Times(w, insts, id) <= 1
    ensures j == k
  {
    if j < k { TwoTimes(w, insts, j, k, id); }
    if k < j { TwoTimes(w, insts, k, j, id); }
  }

  lemma TwoTimes(w: World, insts: seq<Inst>, j: nat, k: nat, id: nat)
    requires j < k < |insts| && ResultOf(w, insts[j]) == Some(id) && ResultOf(w, insts[k]) == Some(id)
    ensures Times(w, insts, id) >= 2
  {
    TimesBefore(w, insts, j, k, id);
    TimesCut(w, insts, k + 1, id);
    assert insts[..k + 1][..k] == insts[..k];
  }

  /** A type or constant stands before any body instruction. */
  lemma GlobalBefore(w: World, insts: seq<Inst>, j: nat, k: nat, id: nat)
    requires Layered(insts) && j < |insts| && k < |insts| && Global(Op(insts[j])) && Inner(Op(insts[k])) && ResultOf(w, insts[j]) == Some(id)
    ensures j < k && Times(w, insts[..k], id) > 0
  {
    Apart(Op(insts[j]));
    TimesBefore(w, insts, j, k, id);
  }

  // ---- a rewrite, unit by unit ----

  /** What a unit's source defines its target defines, but for dropped ids. */
  ghost predicate Keeps(w: World, unit: Unit, gone: set<nat>) {
    forall id :: Times(w, unit.src, id) > 0 && id !in gone ==> Times(w, unit.dst, id) > 0
  }

  /** The id is defined in front of instruction `o` of the target of unit `u`:
      earlier in the unit, or it was needed by the unit's source, or in front of it. */
  ghost predicate There(w: World, units: seq<Unit>, gone: set<nat>, u: nat, o: nat, id: nat)
    requires u < |units| && o <= |units[u].dst|
  {
    || Times(w, units[u].dst[..o], id) > 0
    || Times(w, Flatten(Dsts(units[..u])), id) > 0
    || (id !in gone && Times(w, Flatten(Srcs(units[..u])), id) > 0)
    || (id !in gone && o < |units[u].dst| && exists s :: 0 <= s < |units[u].src| && Needed(w, units[u], s, o, id))
  }

  /** Instruction `s` of the source needs it, and it comes from outside the unit. */
  ghost predicate Needed(w: World, unit: Unit, s: nat, o: nat, id: nat)
    requires s < |unit.src| && o < |unit.dst|
  {
    id in Uses(w, unit.src[s]) && Times(w, unit.src[..s], id) == 0 && (Op(unit.src[s]) == PHI ==> Op(unit.dst[o]) == PHI)
  }

  ghost predicate Grounded(w: World, units: seq<Unit>, gone: set<nat>, u: nat)
    requires u < |units|
  {
    forall o, id :: 0 <= o < |units[u].dst| && id in Uses(w, units[u].dst[o]) ==> There(w, units, gone, u, o, id)
  }

  lemma {:induction false} AllKept(w: World, units: seq<Unit>, gone: set<nat>, id: nat)
    requires (forall u :: 0 <= u < |units| ==> Keeps(w, units[u], gone)) && id !in gone && Times(w, Flatten(Srcs(units)), id) > 0
    ensures Times(w, Flatten(Dsts(units)), id) > 0
  {
    hide Keeps;
    UnitsCons(units);
    TimesAppend(w, units[0].src, Flatten(Srcs(units[1..])), id);
    TimesAppend(w, units[0].dst, Flatten(Dsts(units[1..])), id);
    if Times(w, units[0].src, id) > 0 { KeptHere(w, units[0], gone, id); } else { AllKept(w, units[1..], gone, id); }
  }

  lemma KeptHere(w: World, unit: Unit, gone: set<nat>, id: nat)
    requires Keeps(w, unit, gone) && id !in gone && Times(w, unit.src, id) > 0
    ensures Times(w, unit.dst, id) > 0
  {}

  /** Where an instruction of a flattened list comes from. */
  lemma {:induction false} Locate<T>(blocks: seq<seq<T>>, i: nat) returns (b: nat, o: nat)
    requires i < |Flatten(blocks)|
    ensures b < |blocks| && o < |blocks[b]| && Flatten(blocks)[i] == blocks[b][o]
    ensures Flatten(blocks)[..i] == Flatten(blocks[..b]) + blocks[b][..o]
  {
    var first := blocks[0];
    if i < |first| {
      b, o := 0, i;
    } else {
      var rest := blocks[1..];
      b, o := Locate(rest, i - |first|);
      assert blocks[..b + 1][1..] == rest[..b];
      assert Flatten(blocks)[..i] == first + Flatten(rest)[..i - |first|];
      b := b + 1;
    }
  }

  lemma Parts(units: seq<Unit>, u: nat)
    requires u < |units|
    ensures Srcs(units)[..u] == Srcs(units[..u]) && Dsts(units)[..u] == Dsts(units[..u])
    ensures Flatten(Srcs(units)) == Flatten(Srcs(units[..u])) + units[u].src + Flatten(Srcs(units[u + 1..]))
    ensures Flatten(Dsts(units)) == Flatten(Dsts(units[..u])) + units[u].dst + Flatten(Dsts(units[u + 1..]))
  {
    assert units == units[..u] + [units[u]] + units[u + 1..];
    UnitsParts(units[..u], units[u], units[u + 1..]);
  }

  /** What an instruction of the source needs is there. */
  lemma SourceHas(w: World, units: seq<Unit>, gone: set<nat>, u: nat, s: nat, id: nat)
    requires u < |units| && s < |units[u].src| && DefinedFirst(w, Flatten(Srcs(units))) && id in Uses(w, units[u].src[s])
    requires Times(w, units[u].src[..s], id) == 0
    ensures if Op(units[u].src[s]) == PHI then Times(w, Flatten(Srcs(units)), id) > 0 else Times(w, Flatten(Srcs(units[..u])), id) > 0
  {
    hide Uses, Times, ResultOf;
    Parts(units, u);
    var all, front, src := Flatten(Srcs(units)), Flatten(Srcs(units[..u])), units[u].src;
    var i := |front| + s;
    assert all[i] == src[s];
    assert all[..i] == front + src[..s];
    TimesAppend(w, front, src[..s], id);
  }

  /** A rewrite whose units are grounded keeps definitions before uses. */
  lemma UnitsDefined(w: World, units: seq<Unit>, gone: set<nat>)
    requires DefinedFirst(w, Flatten(Srcs(units)))
    requires forall u :: 0 <= u < |units| ==> Keeps(w, units[u], gone) && Grounded(w, units, gone, u)
    ensures DefinedFirst(w, Flatten(Dsts(units)))
  {
    hide Uses, Times, Keeps, Grounded, Needed, There, ResultOf;
    var out := Flatten(Dsts(units));
    forall i, id | 0 <= i < |out| && id in Uses(w, out[i])
      ensures Times(w, if Op(out[i]) == PHI then out else out[..i], id) > 0
    {
      var u, o := Locate(Dsts(units), i);
      Parts(units, u);
      DefinedHere(w, units, gone, u, o, id);
      TimesCut(w, out, i, id);
    }
  }

  lemma DefinedHere(w: World, units: seq<Unit>, gone: set<nat>, u: nat, o: nat, id: nat)
    requires DefinedFirst(w, Flatten(Srcs(units))) && u < |units| && o < |units[u].dst| && id in Uses(w, units[u].dst[o])
    requires forall v :: 0 <= v < |units| ==> Keeps(w, units[v], gone)
    requires Grounded(w, units, gone, u)
    ensures Times(w, Flatten(Dsts(units[..u])) + units[u].dst[..o], id) > 0
      || (Op(units[u].dst[o]) == PHI && Times(w, Flatten(Dsts(units)), id) > 0)
  {
    hide Uses, Times, Keeps, DefinedFirst, ResultOf;
    TimesAppend(w, Flatten(Dsts(units[..u])), units[u].dst[..o], id);
    assert There(w, units, gone, u, o, id);
    if id !in gone {
      if Times(w, Flatten(Srcs(units[..u])), id) > 0 { AllKept(w, units[..u], gone, id); }
      if s :| 0 <= s < |units[u].src| && Needed(w, units[u], s, o, id) {
        SourceHas(w, units, gone, u, s, id);
        if Op(units[u].src[s]) == PHI { AllKept(w, units, gone, id); } else { AllKept(w, units[..u], gone, id); }
      }
    }
  }

  // ---- layers ----

  predicate HasInner(insts: seq<Inst>) { exists i | 0 <= i < |insts| :: Inner(Op(insts[i])) }

  predicate HasGlobal(insts: seq<Inst>) { exists i | 0 <= i < |insts| :: Global(Op(insts[i])) }

  /** Body instructions come from such, and no type or constant comes behind one. */
  predicate LayerKept(units: seq<Unit>, u: nat)
    requires u < |units|
  {
    && (HasInner(units[u].dst) ==> HasInner(units[u].src))
    && (HasGlobal(units[u].dst) ==> !HasInner(units[u].dst) && !HasInner(Flatten(Srcs(units[..u]))))
  }

  lemma InnerIn(a: seq<Inst>, b: seq<Inst>)
    ensures HasInner(a + b) <==> HasInner(a) || HasInner(b)
  {
    var s := a + b;
    if HasInner(a) { var i :| 0 <= i < |a| && Inner(Op(a[i])); assert s[i] == a[i]; }
    if HasInner(b) { var i :| 0 <= i < |b| && Inner(Op(b[i])); assert s[|a| + i] == b[i]; }
  }

  /** An instruction's block is not behind that of a later one. */
  lemma LocateOrder<T>(blocks: seq<seq<T>>, b: nat, o: nat, c: nat, q: nat)
    requires b < |blocks| && c < |blocks| && o < |blocks[b]| && q < |blocks[c]|
    requires |Flatten(blocks[..b])| + o < |Flatten(blocks[..c])| + q
    ensures b <= c
  {
    if c < b {
      assert blocks[..b] == blocks[..c] + [blocks[c]] + blocks[c + 1..b];
      FlattenAppend(blocks[..c] + [blocks[c]], blocks[c + 1..b]);
      FlattenSnoc(blocks[..c], blocks[c]);
    }
  }

  lemma UnitsLayered(units: seq<Unit>)
    requires forall u :: 0 <= u < |units| ==> LayerKept(units, u)
    ensures Layered(Flatten(Dsts(units)))
  {
    hide LayerKept, Inner, Global;
    var out := Flatten(Dsts(units));
    forall j, k | 0 <= j < k < |out| && Inner(Op(out[j]))
      ensures !Global(Op(out[k]))
    {
      var b, o := Locate(Dsts(units), j);
      var c, q := Locate(Dsts(units), k);
      LocateOrder(Dsts(units), b, o, c, q);
      Behind(units, b, o, c, q);
    }
  }

  lemma Behind(units: seq<Unit>, b: nat, o: nat, c: nat, q: nat)
    requires b <= c < |units| && o < |units[b].dst| && q < |units[c].dst| && LayerKept(units, b) && LayerKept(units, c)
    requires Inner(Op(units[b].dst[o]))
    ensures !Global(Op(units[c].dst[q]))
  {
    hide Inner, Global;
    assert HasInner(units[b].dst);
    if b < c {
      Parts(units[..c], b);
      assert units[..c][..b] == units[..b];
      InnerIn(Flatten(Srcs(units[..b])), units[b].src);
      InnerIn(Flatten(Srcs(units[..b])) + units[b].src, Flatten(Srcs(units[..c][b + 1..])));
    }
  }

  // ---- instructions that stay, change in place, or go ----

  /** `y` defines what `x` does, needs no more, and is of the same layer. */
  ghost predicate Alike(w: World, x: Inst, y: Inst) {
    && ResultOf(w, y) == ResultOf(w, x) && Uses(w, y) <= Uses(w, x)
    && (Op(y) == PHI <==> Op(x) == PHI) && (Global(Op(y)) <==> Global(Op(x))) && (Inner(Op(y)) <==> Inner(Op(x)))
  }

  ghost predicate Stays(w: World, unit: Unit) {
    |unit.src| == 1 && |unit.dst| == 1 && Alike(w, unit.src[0], unit.dst[0])
  }

  ghost predicate Goes(w: World, unit: Unit) {
    |unit.src| == 1 && unit.dst == [] && ResultOf(w, unit.src[0]).None?
  }

  lemma StaysSound(w: World, units: seq<Unit>, gone: set<nat>, u: nat)
    requires u < |units| && (Stays(w, units[u]) || Goes(w, units[u])) && Layered(Flatten(Srcs(units)))
    requires forall id :: id in gone && Stays(w, units[u]) ==> id !in Uses(w, units[u].src[0])
    ensures Keeps(w, units[u], gone) && Grounded(w, units, gone, u) && LayerKept(units, u)
    ensures forall id :: Times(w, units[u].dst, id) == Times(w, units[u].src, id)
  {
    hide Uses, Inner, Global, ResultOf;
    var unit := units[u];
    assert unit.src == [unit.src[0]];
    forall id ensures Times(w, unit.dst, id) == Times(w, unit.src, id) {
      TimesOne(w, unit.src[0], id);
      if unit.dst != [] { assert unit.dst == [unit.dst[0]]; TimesOne(w, unit.dst[0], id); }
    }
    if unit.dst != [] {
      forall o, id | 0 <= o < |unit.dst| && id in Uses(w, unit.dst[o]) ensures There(w, units, gone, u, o, id) {
        assert unit.src[..0] == [];
        assert Needed(w, unit, 0, o, id);
      }
      if Global(Op(unit.src[0])) { GlobalClear(units, u); }
    }
  }

  lemma GlobalClear(units: seq<Unit>, u: nat)
    requires u < |units| && |units[u].src| >= 1 && Global(Op(units[u].src[0])) && Layered(Flatten(Srcs(units)))
    ensures !HasInner(Flatten(Srcs(units[..u])))
    ensures !Inner(Op(units[u].src[0]))
  {
    hide Inner, Global;
    Parts(units, u);
    var all, front := Flatten(Srcs(units)), Flatten(Srcs(units[..u]));
    assert all[|front|] == units[u].src[0];
    forall i | 0 <= i < |front| ensures !Inner(Op(front[i])) { assert all[i] == front[i]; }
    Apart(Op(units[u].src[0]));
  }

  lemma Apart(op: nat)
    requires Global(op)
    ensures !Inner(op)
  {}

  lemma {:induction false} SameTimes(w: World, units: seq<Unit>, id: nat)
    requires forall u :: 0 <= u < |units| ==> Times(w, units[u].dst, id) == Times(w, units[u].src, id)
    ensures Times(w, Flatten(Dsts(units)), id) == Times(w, Flatten(Srcs(units)), id)
  {
    if units != [] {
      UnitsCons(units);
      SameTimes(w, units[1..], id);
      TimesAppend(w, units[0].src, Flatten(Srcs(units[1..])), id);
      TimesAppend(w, units[0].dst, Flatten(Dsts(units[1..])), id);
    }
  }

  /** A rewrite in place, instruction by instruction, keeps a stream tidy. */
  lemma InPlace(w: World, units: seq<Unit>)
    requires forall u :: 0 <= u < |units| ==> Stays(w, units[u]) || Goes(w, units[u])
    ensures forall id :: Times(w, Flatten(Dsts(units)), id) == Times(w, Flatten(Srcs(units)), id)
    ensures Layered(Flatten(Srcs(units))) ==> Layered(Flatten(Dsts(units)))
    ensures Layered(Flatten(Srcs(units))) && DefinedFirst(w, Flatten(Srcs(units))) ==> DefinedFirst(w, Flatten(Dsts(units)))
  {
    hide Stays, Goes, Times, Layered, DefinedFirst, Uses, Keeps, Grounded, LayerKept;
    forall id ensures Times(w, Flatten(Dsts(units)), id) == Times(w, Flatten(Srcs(units)), id) {
      forall u | 0 <= u < |units| ensures Times(w, units[u].dst, id) == Times(w, units[u].src, id) { StayTimes(w, units[u], id); }
      SameTimes(w, units, id);
    }
    if Layered(Flatten(Srcs(units))) {
      forall u | 0 <= u < |units| ensures Keeps(w, units[u], {}) && Grounded(w, units, {}, u) && LayerKept(units, u) { StaysSound(w, units, {}, u); }
      UnitsLayered(units);
      if DefinedFirst(w, Flatten(Srcs(units))) { UnitsDefined(w, units, {}); }
    }
  }

  lemma StayTimes(w: World, unit: Unit, id: nat)
    requires Stays(w, unit) || Goes(w, unit)
    ensures Times(w, unit.dst, id) == Times(w, unit.src, id)
  {
    hide ResultOf;
    assert unit.src == [unit.src[0]];
    TimesOne(w, unit.src[0], id);
    if unit.dst != [] { assert unit.dst == [unit.dst[0]]; TimesOne(w, unit.dst[0], id); }
  }
}
