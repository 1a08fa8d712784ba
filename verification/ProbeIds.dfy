/** The ids of a probed module: every id from the old bound to the new one is
    declared or defined exactly once, and everything an inserted instruction
    uses is there before it. */
module ProbeIds {
  import opened Words
  import opened Ops
  import opened Machine
  import opened Translation
  import opened Meaning
  import opened Instrumenter
  import opened ProbeBlocks
  import opened InstrumentSound
  import opened ProbeSound

  /** The ids an instruction of the code needs: what it reads and its result type. */
  ghost function Uses(w: World, inst: Inst): set<nat> {
    if Declarative(Op(inst)) then {}
    else if Produces(Op(inst)) && |inst| >= 3 then Reads(w, inst) + {inst[1] as nat}
    else Reads(w, inst)
  }

  /** `known` ids need no definition; new ones start at `bound`. */
  datatype Context = Context(w: World, bound: nat, known: nat -> bool)

  /** Every id that `block` uses is known, or from `base` on and below `lo`, or
      defined earlier in the block. */
  ghost predicate Closed(c: Context, block: seq<Inst>, base: nat, lo: nat) {
    forall i, id :: 0 <= i < |block| && id in Uses(c.w, block[i]) ==> c.known(id) || base <= id < lo || id in Defs(block[..i], c.bound)
  }

  /** `block` defines `lo` up to `hi`, in order, and is closed. */
  ghost predicate Emits(c: Context, block: seq<Inst>, base: nat, lo: nat, hi: nat) {
    base <= lo <= hi && Defs(block, c.bound) == Range(lo, hi) && Closed(c, block, base, lo)
  }

  /** An id that may be used where `n` is the next to be defined. */
  predicate Usable(c: Context, base: nat, n: nat, id: nat) { c.known(id) || base <= id < n }

  lemma Nothing(c: Context, base: nat, lo: nat)
    requires base <= lo
    ensures Emits(c, [], base, lo, lo)
  {}

  lemma OneMore(c: Context, inst: Inst, base: nat, lo: nat)
    requires c.bound <= lo && base <= lo && Produces(Op(inst)) && |inst| >= 3 && inst[2] == lo
    requires forall id :: id in Uses(c.w, inst) ==> Usable(c, base, lo, id)
    ensures Emits(c, [inst], base, lo, lo + 1)
  {
    DefsOne(inst, c.bound);
    assert Range(lo, lo + 1) == [lo];
  }

  lemma NoMore(c: Context, inst: Inst, base: nat, lo: nat)
    requires base <= lo && (Produces(Op(inst)) && |inst| >= 3 ==> inst[2] < c.bound)
    requires forall id :: id in Uses(c.w, inst) ==> Usable(c, base, lo, id)
    ensures Emits(c, [inst], base, lo, lo)
  {
    DefsOne(inst, c.bound);
    assert Range(lo, lo) == [];
  }

  lemma Both(c: Context, a: seq<Inst>, b: seq<Inst>, base: nat, lo: nat, mid: nat, hi: nat)
    requires Emits(c, a, base, lo, mid) && Emits(c, b, base, mid, hi)
    ensures Emits(c, a + b, base, lo, hi)
  {
    hide Uses, Defs;
    DefsAppend(a, b, c.bound);
    RangeSplit(lo, mid, hi);
    forall i, id | 0 <= i < |a + b| && id in Uses(c.w, (a + b)[i])
      ensures c.known(id) || base <= id < lo || id in Defs((a + b)[..i], c.bound)
    {
      if i < |a| {
        assert (a + b)[..i] == a[..i] && (a + b)[i] == a[i];
      } else {
        assert (a + b)[..i] == a + b[..i - |a|] && (a + b)[i] == b[i - |a|];
        DefsAppend(a, b[..i - |a|], c.bound);
        if base <= id < mid && !(base <= id < lo) { assert Range(lo, mid)[id - lo] == id; }
      }
    }
  }

  /** Later code may also use what came before. */
  lemma Rebased(c: Context, block: seq<Inst>, base: nat, base': nat, lo: nat, hi: nat)
    requires Emits(c, block, base, lo, hi) && base' <= base
    ensures Emits(c, block, base', lo, hi)
  {
    hide Uses, Defs;
  }

  // ---- the pieces of a block ----

  /** What a block uses of the module around it. */
  ghost predicate Supplied(c: Context, d: Names, p: Pool) {
    && c.known(d.uintT) && c.known(d.ptrU32) && c.known(d.variable) && c.known(MEMBER_ZERO)
    && (d.ptrInput.Some? ==> c.known(d.ptrInput.value))
    && (d.groupVar.Some? ==> c.known(d.groupVar.value))
    && (d.localVar.Some? ==> c.known(d.localVar.value))
    && Common(p) && forall r :: p.Has(r) ==> p.Id(r) < WORD && c.known(p.Id(r))
  }

  /** And of its store. */
  ghost predicate StoreKnown(c: Context, d: Names, t: Target) {
    c.known(t.stored) && forall i :: 0 <= i < |Operands(d, t)| ==> c.known(Operands(d, t)[i])
  }

  ghost predicate FieldsUsable(c: Context, fields: seq<Field>, base: nat, n: nat) {
    forall i :: 0 <= i < |fields| ==>
      && Usable(c, base, n, fields[i].slot) && fields[i].slot < WORD
      && Usable(c, base, n, fields[i].value) && fields[i].value < WORD
  }

  lemma DebugWordIds(c: Context, d: Names, p: Pool, slot: nat, value: nat, base: nat, n: nat)
    requires c.bound <= n < WORD && base <= n && Supplied(c, d, p)
    requires Usable(c, base, n, slot) && Usable(c, base, n, value) && slot < WORD && value < WORD
    ensures Emits(c, DebugWord(d, slot, value, n), base, n, n + 1)
  {
    hide Common;
    var b := DebugWord(d, slot, value, n);
    assert b[0][3..] == [d.variable, MEMBER_ZERO, slot];
    OneMore(c, b[0], base, n);
    NoMore(c, b[1], base, n + 1);
    Both(c, [b[0]], [b[1]], base, n, n + 1, n + 1);
    assert [b[0]] + [b[1]] == b;
  }

  lemma {:induction false} DebugWordsIds(c: Context, d: Names, p: Pool, fields: seq<Field>, base: nat, n: nat)
    requires c.bound <= n && base <= n && n + |fields| <= WORD && Supplied(c, d, p) && FieldsUsable(c, fields, base, n)
    ensures Emits(c, DebugWords(d, fields, n), base, n, n + |fields|)
  {
    hide DebugWord, Emits, Supplied;
    if fields == [] {
      Nothing(c, base, n);
    } else {
      var front, f, m := fields[..|fields| - 1], fields[|fields| - 1], n + |fields| - 1;
      DebugWordsIds(c, d, p, front, base, n);
      DebugWordIds(c, d, p, f.slot, f.value, base, m);
      Both(c, DebugWords(d, front, n), DebugWord(d, f.slot, f.value, m), base, n, m, m + 1);
    }
  }

  lemma LaneWordIds(c: Context, d: Names, p: Pool, lane: nat, f: Field, base: nat, n: nat)
    requires c.bound <= n && base <= n && n + 2 <= WORD && Supplied(c, d, p)
    requires Usable(c, base, n, lane) && Usable(c, base, n, f.slot) && Usable(c, base, n, f.value) && lane < WORD && f.slot < WORD && f.value < WORD
    ensures Emits(c, LaneWord(d, lane, f, n), base, n, n + 2)
  {
    hide Emits, DebugWord, Common;
    var add: Inst := [Head(5, I_ADD), d.uintT, W(n), W(lane), W(f.slot)];
    OneMore(c, add, base, n);
    DebugWordIds(c, d, p, n, f.value, base, n + 1);
    Both(c, [add], DebugWord(d, n, f.value, n + 1), base, n, n + 1, n + 2);
  }

  lemma {:induction false} LaneWordsIds(c: Context, d: Names, p: Pool, lane: nat, fields: seq<Field>, base: nat, n: nat)
    requires c.bound <= n && base <= n && n + 2 * |fields| <= WORD && Supplied(c, d, p)
    requires Usable(c, base, n, lane) && lane < WORD && FieldsUsable(c, fields, base, n)
    ensures Emits(c, LaneWords(d, lane, fields, n), base, n, n + 2 * |fields|)
  {
    hide LaneWord, Emits, Supplied;
    if fields == [] {
      Nothing(c, base, n);
    } else {
      var front, f, m := fields[..|fields| - 1], fields[|fields| - 1], n + 2 * (|fields| - 1);
      LaneWordsIds(c, d, p, lane, front, base, n);
      LaneWordIds(c, d, p, lane, f, base, m);
      Both(c, LaneWords(d, lane, front, n), LaneWord(d, lane, f, m), base, n, m, m + 2);
    }
  }

  lemma LoadIds(c: Context, d: Names, p: Pool, v: Word, k: nat, base: nat, n: nat)
    requires d.ptrInput.Some? && c.bound <= n && base <= n && n + 2 <= WORD && Supplied(c, d, p) && c.known(v) && k < 3
    ensures Emits(c, LoadComponent(d, p, v, k, n), base, n, n + 2)
  {
    var b := LoadComponent(d, p, v, k, n);
    assert p.Has(Value(k));
    hide Common;
    assert b[0][3..] == [v, p.Id(Value(k))];
    OneMore(c, b[0], base, n);
    OneMore(c, b[1], base, n + 1);
    Both(c, [b[0]], [b[1]], base, n, n + 1, n + 2);
    assert [b[0]] + [b[1]] == b;
  }

  lemma VectorIds(c: Context, d: Names, p: Pool, v: Word, base: nat, n: nat)
    requires d.ptrInput.Some? && c.bound <= n && base <= n && n + 6 <= WORD && Supplied(c, d, p) && c.known(v)
    ensures Emits(c, LoadVector(d, p, v, n), base, n, n + 6)
  {
    hide Emits, LoadComponent, Supplied;
    LoadIds(c, d, p, v, 0, base, n);
    LoadIds(c, d, p, v, 1, base, n + 2);
    LoadIds(c, d, p, v, 2, base, n + 4);
    Both(c, LoadComponent(d, p, v, 0, n), LoadComponent(d, p, v, 1, n + 2), base, n, n + 2, n + 4);
    Both(c, LoadComponent(d, p, v, 0, n) + LoadComponent(d, p, v, 1, n + 2), LoadComponent(d, p, v, 2, n + 4), base, n, n + 4, n + 6);
  }

  lemma LaneSlotIds(c: Context, d: Names, p: Pool, region: nat, base: nat, n3: nat)
    requires c.bound <= n3 && base <= n3 && n3 + 10 <= WORD && Supplied(c, d, p) && p.Has(Value(region)) && p.Has(Value(TRACE_WORDS))
    ensures Emits(c, LaneSlot(d, p, region, n3), base, n3 + 8, n3 + 10)
  {
    hide Common;
    var b := LaneSlot(d, p, region, n3);
    OneMore(c, b[0], base, n3 + 8);
    OneMore(c, b[1], base, n3 + 9);
    Both(c, [b[0]], [b[1]], base, n3 + 8, n3 + 9, n3 + 10);
    assert [b[0]] + [b[1]] == b;
  }

  lemma RecordFieldsUsable(c: Context, d: Names, p: Pool, t: Target, index: nat, n: nat)
    requires Refusal(d, t).None? && ProbeEnd(d, t, n) < WORD && Supplied(c, d, p) && StoreKnown(c, d, t) && OwnConstants(p, t, index)
    ensures FieldsUsable(c, RecordFields(d, p, t, index, n), n, FieldsStart(d, t, n))
  {
    var fields := RecordFields(d, p, t, index, n);
    forall i | 0 <= i < |fields|
      ensures Usable(c, n, FieldsStart(d, t, n), fields[i].slot) && fields[i].slot < WORD
      ensures Usable(c, n, FieldsStart(d, t, n), fields[i].value) && fields[i].value < WORD
    {
      assert p.Has(Slot(SlotBase(index) + i));
      if i == 0 { assert p.Has(Value(t.candidate)); }
      else if i == 1 { assert p.Has(Value(RoleCode(t.role))); }
      else if i == 10 { assert p.Has(Value(RECORD_SCHEMA)); }
    }
  }

  lemma LaneFieldsUsable(c: Context, d: Names, p: Pool, t: Target, index: nat, n: nat, n3: nat)
    requires Refusal(d, t).None? && TraceBase(t).Some? && n <= n3 && n3 + 31 <= WORD && RecordStart(d, t, n) <= n3
    requires Supplied(c, d, p) && StoreKnown(c, d, t) && OwnConstants(p, t, index)
    ensures FieldsUsable(c, LaneFields(d, p, t, n, n3), n, n3 + 15)
  {
    var fields := LaneFields(d, p, t, n, n3);
    forall i | 0 <= i < 8
      ensures Usable(c, n, n3 + 15, fields[i].slot) && fields[i].slot < WORD
      ensures Usable(c, n, n3 + 15, fields[i].value) && fields[i].value < WORD
    {
      assert p.Has(Value(i));
      if i == 5 { assert p.Has(Value(t.candidate)); }
    }
  }

  lemma HeaderFieldsUsable(c: Context, d: Names, p: Pool, base: nat, n: nat)
    requires Supplied(c, d, p)
    ensures FieldsUsable(c, HeaderFields(p), base, n)
  {
    forall i | 0 <= i < 5
      ensures p.Has(Slot(TRACE_HEADER + i)) && p.Has(Value(HeaderValue(i)))
    {}
  }

  lemma TraceIds(c: Context, d: Names, p: Pool, t: Target, index: nat, n: nat)
    requires Refusal(d, t).None? && c.bound <= n && ProbeEnd(d, t, n) < WORD
    requires Supplied(c, d, p) && StoreKnown(c, d, t) && OwnConstants(p, t, index)
    ensures Emits(c, Trace(d, p, t, n), n, TraceStart(d, t, n), ProbeEnd(d, t, n))
  {
    hide Emits, LoadComponent, LoadVector, LaneSlot, DebugWords, LaneWords, FieldsUsable, LaneFields, HeaderFields, OwnConstants, StoreKnown, Common;
    var n3 := TraceStart(d, t, n);
    if TraceBase(t).None? {
      Nothing(c, n, n3);
    } else {
      RegionThere(p, t);
      LaneFieldsUsable(c, d, p, t, index, n, n3);
      HeaderFieldsUsable(c, d, p, n, n3 + 10);
      var a, b, e := LoadComponent(d, p, d.localVar.value, 0, n3), LoadVector(d, p, d.groupVar.value, n3 + 2), LaneSlot(d, p, TraceBase(t).value, n3);
      var f, g := DebugWords(d, HeaderFields(p), n3 + 10), LaneWords(d, n3 + 9, LaneFields(d, p, t, n, n3), n3 + 15);
      LoadIds(c, d, p, d.localVar.value, 0, n, n3);
      VectorIds(c, d, p, d.groupVar.value, n, n3 + 2);
      LaneSlotIds(c, d, p, TraceBase(t).value, n, n3);
      DebugWordsIds(c, d, p, HeaderFields(p), n, n3 + 10);
      LaneWordsIds(c, d, p, n3 + 9, LaneFields(d, p, t, n, n3), n, n3 + 15);
      Both(c, a, b, n, n3, n3 + 2, n3 + 8);
      Both(c, a + b, e, n, n3, n3 + 8, n3 + 10);
      Both(c, a + b + e, f, n, n3, n3 + 10, n3 + 15);
      Both(c, a + b + e + f, g, n, n3, n3 + 15, n3 + 31);
    }
  }

  lemma RegionThere(p: Pool, t: Target)
    requires Common(p) && TraceBase(t).Some?
    ensures p.Has(Value(TraceBase(t).value)) && p.Has(Value(TRACE_WORDS))
  {}

  /** A block uses up its reserved ids exactly, in order. */
  lemma BlockIds(c: Context, d: Names, p: Pool, t: Target, index: nat, n: nat)
    requires Refusal(d, t).None? && c.bound <= n && ProbeEnd(d, t, n) < WORD
    requires Supplied(c, d, p) && StoreKnown(c, d, t) && OwnConstants(p, t, index)
    ensures Emits(c, Block(d, p, t, index, n), n, n, ProbeEnd(d, t, n))
  {
    hide Emits, LoadVector, DebugWords, Trace, RecordFields, FieldsUsable, Common, OwnConstants;
    var n1, n2, n3 := RecordStart(d, t, n), FieldsStart(d, t, n), TraceStart(d, t, n);
    if IsFloat(d, t) { OneMore(c, [Head(4, BITCAST), d.uintT, W(n), t.stored], n, n); } else { Nothing(c, n, n); }
    if t.role == FinalStore {
      VectorIds(c, d, p, d.groupVar.value, n, n1);
      VectorIds(c, d, p, d.localVar.value, n, n1 + 6);
      Both(c, LoadVector(d, p, d.groupVar.value, n1), LoadVector(d, p, d.localVar.value, n1 + 6), n, n1, n1 + 6, n2);
    } else {
      Nothing(c, n, n1);
    }
    var fields := DebugWords(d, RecordFields(d, p, t, index, n), n2);
    RecordFieldsUsable(c, d, p, t, index, n);
    DebugWordsIds(c, d, p, RecordFields(d, p, t, index, n), n, n2);
    TraceIds(c, d, p, t, index, n);
    Both(c, Convert(d, t, n), Position(d, p, t, n), n, n, n1, n2);
    Both(c, Convert(d, t, n) + Position(d, p, t, n), fields, n, n, n2, n3);
    Both(c, Convert(d, t, n) + Position(d, p, t, n) + fields, Trace(d, p, t, n), n, n, n3, ProbeEnd(d, t, n));
  }

  // ---- the whole module ----

  /** What the probes use of the module before them. */
  ghost predicate Grounded(c: Context, d: Names, p: Pool, targets: seq<Target>, insts: seq<Inst>) {
    && Supplied(c, d, p)
    && (forall k, id :: 0 <= k < |insts| && id in Uses(c.w, insts[k]) ==> c.known(id))
    && (forall k, i :: 0 <= k < |insts| && FindTarget(targets, insts[k]) == Some(i) ==> StoreKnown(c, d, targets[i]) && OwnConstants(p, targets[i], i))
  }

  lemma OneProbeIds(c: Context, d: Names, p: Pool, targets: seq<Target>, inst: Inst, n: nat)
    requires ProbeOne(d, p, targets, inst, n).Ok? && ProbeOne(d, p, targets, inst, n).value.next < WORD
    requires c.bound <= n && (Produces(Op(inst)) && |inst| >= 3 ==> inst[2] < c.bound) && Grounded(c, d, p, targets, [inst])
    ensures Emits(c, ProbeOne(d, p, targets, inst, n).value.insts, n, n, ProbeOne(d, p, targets, inst, n).value.next)
  {
    hide Block, Refusal, Emits, Uses, Supplied, StoreKnown, OwnConstants;
    var one := [inst];
    assert one[0] == inst;
    NoMore(c, inst, n, n);
    match FindTarget(targets, inst) {
      case None =>
      case Some(i) =>
        BlockIds(c, d, p, targets[i], i, n);
        Both(c, [inst], Block(d, p, targets[i], i, n), n, n, n, ProbeEnd(d, targets[i], n));
    }
  }

  lemma GroundedParts(c: Context, d: Names, p: Pool, targets: seq<Target>, insts: seq<Inst>)
    requires insts != [] && Grounded(c, d, p, targets, insts)
    ensures Grounded(c, d, p, targets, insts[..|insts| - 1]) && Grounded(c, d, p, targets, [insts[|insts| - 1]])
  {
    hide Uses, Supplied, StoreKnown, OwnConstants;
    var one := [insts[|insts| - 1]];
    assert forall k :: 0 <= k < |one| ==> one[k] == insts[|insts| - 1];
  }

  lemma {:induction false} AllProbeIds(c: Context, d: Names, p: Pool, targets: seq<Target>, insts: seq<Inst>, n: nat)
    requires ProbeAll(d, p, targets, insts, n).Ok? && ProbeAll(d, p, targets, insts, n).value.next < WORD
    requires c.bound <= n && ResultsBelow(insts, c.bound) && Grounded(c, d, p, targets, insts)
    ensures Emits(c, ProbeAll(d, p, targets, insts, n).value.insts, n, n, ProbeAll(d, p, targets, insts, n).value.next)
  {
    hide Emits, ProbeOne, Produces, Grounded;
    if insts == [] {
      Nothing(c, n, n);
    } else {
      var front, inst := insts[..|insts| - 1], insts[|insts| - 1];
      var before := ProbeAll(d, p, targets, front, n).value;
      UnitsAllFlat(d, p, targets, front, n);
      UnitsForFlat(d, p, targets, inst, before.next);
      GroundedParts(c, d, p, targets, insts);
      AllProbeIds(c, d, p, targets, front, n);
      OneProbeIds(c, d, p, targets, inst, before.next);
      Rebased(c, ProbeOne(d, p, targets, inst, before.next).value.insts, before.next, n, before.next, ProbeAll(d, p, targets, insts, n).value.next);
      Both(c, before.insts, ProbeOne(d, p, targets, inst, before.next).value.insts, n, n, before.next, ProbeAll(d, p, targets, insts, n).value.next);
    }
  }

  lemma {:induction false} ResultsFromCode(insts: seq<Inst>, code: seq<Inst>, bound: nat)
    requires Code(insts) == code && ResultsBelow(code, bound)
    ensures ResultsBelow(insts, bound)
  {
    forall k | 0 <= k < |insts| && Produces(Op(insts[k])) && |insts[k]| >= 3
      ensures insts[k][2] < bound
    {
      CodeIndex(insts, k);
    }
  }

  lemma {:induction false} NoDefs(insts: seq<Inst>, bound: nat)
    requires ResultsBelow(insts, bound)
    ensures Defs(insts, bound) == []
  {
    if insts != [] { NoDefs(insts[..|insts| - 1], bound); }
  }

  lemma OutIds(w: World, j: Job, entries: seq<Entry>, table: Table)
    requires Linked(j) && Observable(w, j, entries, table)
    ensures Ids(j.out.insts) == Ids(j.all.insts)
  {
    hide Linked, Observable, Block, Refusal, Older, UnitsOf;
    var units := UnitsOf(j);
    UnitsOfFlat(j);
    forall u | 0 <= u < |units|
      ensures Ids(units[u].dst) == Ids(units[u].src)
    {
      var k, i, n := UnitFits(w, j, entries, table, u);
      if units[u] != Unit([j.all.insts[k]], [j.all.insts[k]]) {
        BlockDeclaresNothing(j.d, j.p, j.targets[i], i, n);
      }
    }
    UnitsIds(units);
  }

  lemma SameGood(a: seq<Inst>, b: seq<Inst>, bound: nat)
    requires Ids(a) == Ids(b) && GoodIds(a, bound)
    ensures GoodIds(b, bound)
  {}

  /** The output's code under a context in which everything old is known. */
  lemma JobEmits(c: Context, j: Job)
    requires Linked(j) && c.bound == j.m.Bound() && ResultsBelow(j.all.insts, c.bound)
    requires if j.targets == [] then forall k, id :: 0 <= k < |j.all.insts| && id in Uses(c.w, j.all.insts[k]) ==> c.known(id)
      else Grounded(c, j.d, j.p, j.targets, j.all.insts)
    ensures |j.out.header| == HEADER && Emits(c, j.out.insts, j.all.next, j.all.next, j.out.Bound())
  {
    hide Prelude, ProbeAll, NamesOf, Prepared, Grounded, Uses, Missing;
    if j.targets != [] {
      AllProbeIds(c, j.d, j.p, j.targets, j.all.insts, j.all.next);
    } else {
      NoDefs(j.all.insts, c.bound);
      assert Range(j.all.next, j.all.next) == [];
    }
  }

  /** The pool's ids are the constants' ids. */
  lemma PoolDeclared(j: Job, r: Request)
    requires Linked(j) && j.targets != [] && j.all.next <= WORD && j.p.Has(r)
    ensures j.p.Id(r) < j.all.next && j.p.Id(r) in Ids(j.all.insts)
  {
    hide Prelude, ProbeAll, NamesOf, Missing;
    PreludeOk(j.uintT, j.targets, j.m.Bound() + 5);
    ConstantsNeutral(j.uintT, j.p, j.m.Bound() + 5, j.m.Bound());
    var lo, id := j.m.Bound() + 5, j.p.Id(r);
    assert Range(lo, j.p.next)[id - lo] == id;
    SpliceIds(j.lines, First(IsFunction, j.lines).value, j.p.constants, id);
  }

  lemma JobOverflows(j: Job)
    requires Linked(j)
    ensures j.all.next <= j.out.Bound() < WORD
  {
    hide Prelude, ProbeAll, NamesOf, Prepared, Missing;
  }

  /** Exact accounting. The declarations of the output use each id below the
      first probed store's exactly once, the probes define each of the remaining
      ids up to the new bound once and in order, and the new bound is one past
      the last. */
  lemma ProbedIdsExact(x: Probing, w: World, l: Launch) returns (first: nat)
    requires Probeable(x, w, l) && ResultsBelow(Code(x.m.insts), x.m.Bound())
    ensures var out := x.Output();
      && |out.header| == HEADER && x.m.Bound() + 5 <= first <= out.Bound()
      && GoodIds(out.insts, first) && |Ids(out.insts)| + x.m.Bound() == |Ids(x.m.insts)| + first
      && Defs(out.insts, x.m.Bound()) == Range(first, out.Bound())
  {
    hide Observable, InputsReadable, GoodIds, Prelude, ProbeAll, NamesOf, Prepared, Missing, Extended, Emits, Sourced, UnitsOf;
    var j := JobObservable(x, w, l);
    first := j.all.next;
    AllExtended(w, j, l.entries, l.table);
    ExtendedParts(w, SpecializationOf(j.m.insts, l.entries), j.m, j.all.insts, j.uintT, j.all.next);
    OutIds(w, j, l.entries, l.table);
    SameGood(j.all.insts, j.out.insts, first);
    JobOverflows(j);
    ResultsFromCode(j.all.insts, Code(j.m.insts), j.m.Bound());
    var c := Context(w, j.m.Bound(), id => true);
    if j.targets != [] { EverythingGrounded(c, j); }
    JobEmits(c, j);
    EmitsDefs(c, j.out.insts, first, j.out.Bound());
  }

  lemma EmitsDefs(c: Context, block: seq<Inst>, lo: nat, hi: nat)
    requires Emits(c, block, lo, lo, hi)
    ensures Defs(block, c.bound) == Range(lo, hi)
  {}

  lemma EverythingGrounded(c: Context, j: Job)
    requires Linked(j) && j.targets != [] && j.all.next <= WORD && forall id :: c.known(id)
    ensures Grounded(c, j.d, j.p, j.targets, j.all.insts)
  {
    hide Linked, Common, OwnConstants;
    JobConstants(j, 0);
    forall r | j.p.Has(r) ensures j.p.Id(r) < WORD { PoolDeclared(j, r); }
    forall k, i | 0 <= k < |j.all.insts| && FindTarget(j.targets, j.all.insts[k]) == Some(i)
      ensures OwnConstants(j.p, j.targets[i], i)
    {
      JobConstants(j, i);
    }
  }

  // ---- nothing is used that is not there ----

  /** The original's code defines `id`. */
  ghost predicate Original(w: World, code: seq<Inst>, id: nat) {
    exists k :: 0 <= k < |code| && (if Produces(Op(code[k])) && |code[k]| >= 3 then id == code[k][2] else w.defines(code[k]) == Some(id))
  }

  /** Every id that the code of `insts` uses is declared, or defined by `code`,
      or, from `bound` on, defined earlier in `insts`. */
  ghost predicate Complete(w: World, code: seq<Inst>, insts: seq<Inst>, bound: nat) {
    forall i, id :: 0 <= i < |insts| && id in Uses(w, insts[i]) ==>
      id in Ids(insts) || Original(w, code, id) || id in Defs(insts[..i], bound)
  }

  ghost function Old(w: World, code: seq<Inst>, all: seq<Inst>): nat -> bool {
    (id: nat) => id in Ids(all) || Original(w, code, id)
  }

  lemma {:induction false} IdDeclared(insts: seq<Inst>, inst: Inst)
    requires inst in insts && DeclaredId(inst).Some?
    ensures DeclaredId(inst).value in Ids(insts)
  {
    if inst in insts[..|insts| - 1] { IdDeclared(insts[..|insts| - 1], inst); }
  }

  lemma LinesIds(j: Job, id: nat)
    requires Linked(j) && id in Ids(j.lines)
    ensures id in Ids(j.all.insts)
  {
    hide Prelude, ProbeAll, NamesOf, Missing;
    if j.targets != [] { SpliceIds(j.lines, First(IsFunction, j.lines).value, j.p.constants, id); }
  }

  /** What the source's code uses is known. */
  lemma CodeKnown(w: World, j: Job, entries: seq<Entry>, table: Table, insts: seq<Inst>, k: nat, id: nat)
    requires Linked(j) && Observable(w, j, entries, table) && Complete(w, Code(j.m.insts), j.m.insts, j.m.Bound())
    requires ResultsBelow(j.m.insts, j.m.Bound()) && Code(insts) == Code(j.m.insts)
    requires k < |insts| && id in Uses(w, insts[k])
    ensures Old(w, Code(j.m.insts), j.all.insts)(id)
  {
    hide Prelude, ProbeAll, NamesOf, Prepared, Missing, HasBuffer, InputsReadable, Described, Original, Same, Reads;
    CodeIndex(insts, k);
    var i := CodeIn(j.m.insts, |Code(insts[..k])|);
    assert j.m.insts[i] == insts[k];
    NoDefsBefore(j.m.insts, i, j.m.Bound());
    AllExtended(w, j, entries, table);
    if id in Ids(j.m.insts) { IdsSurvive(w, j, entries, id); }
  }

  lemma NoDefsBefore(insts: seq<Inst>, i: nat, bound: nat)
    requires ResultsBelow(insts, bound) && i <= |insts|
    ensures Defs(insts[..i], bound) == []
  {
    NoDefs(insts[..i], bound);
  }

  lemma IdsSurvive(w: World, j: Job, entries: seq<Entry>, id: nat)
    requires Linked(j) && Sourced(w, j.m) && id in Ids(j.m.insts)
    requires Extended(w, SpecializationOf(j.m.insts, entries), j.m, j.all.insts, j.uintT, j.all.next)
    ensures id in Ids(j.all.insts)
  {
    hide Prelude, ProbeAll, NamesOf, Prepared, Missing;
    var i :| 0 <= i < |Ids(j.m.insts)| && Ids(j.m.insts)[i] == id;
  }

  lemma {:induction false} ChainsKnown(w: World, known: nat -> bool, lines: seq<Inst>, id: nat)
    requires (forall k, v :: 0 <= k < |lines| && v in Uses(w, lines[k]) ==> known(v)) && id in Chains(lines)
    ensures forall i :: 0 <= i < |Chains(lines)[id]| ==> known(Chains(lines)[id][i])
  {
    var front, inst := lines[..|lines| - 1], lines[|lines| - 1];
    if Op(inst) == ACCESS_CHAIN && |inst| >= 4 && inst[2] == id {
      assert lines[|front|] == inst;
      forall i | 0 <= i < |inst[3..]| ensures known(inst[3..][i]) {
        assert inst[3..][i] in IdSet(inst[3..]);
        assert inst[3..][i] in Uses(w, lines[|front|]);
      }
    } else {
      ChainsKnown(w, known, front, id);
    }
  }

  /** The names the instrumenter looked up are declared. */
  lemma NamesDeclared(w: World, j: Job, entries: seq<Entry>, table: Table)
    requires Linked(j) && Observable(w, j, entries, table) && j.m.Bound() + 5 <= WORD
    ensures j.d.uintT in Ids(j.all.insts) && j.d.ptrU32 in Ids(j.all.insts) && j.d.variable in Ids(j.all.insts)
    ensures j.d.ptrInput.Some? ==> j.d.ptrInput.value in Ids(j.all.insts)
    ensures j.d.groupVar.Some? ==> j.d.groupVar.value in Ids(j.all.insts)
    ensures j.d.localVar.Some? ==> j.d.localVar.value in Ids(j.all.insts)
  {
    hide Prelude, ProbeAll, Prepared, Missing, Described, ResultTypes, Chains, Same, Consts, Ids;
    var bound: nat := j.m.Bound();
    IdDeclared(j.lines, DebugVariable(bound));
    IdDeclared(j.lines, WordPointer(bound, j.uintT));
    LinesIds(j, bound + 3);
    LinesIds(j, bound + 4);
    IntDeclared(j.lines, j.uintT);
    LinesIds(j, j.uintT);
    var at := First(InputPointer(j.uintT), j.lines);
    if at.Some? {
      IdDeclared(j.lines, j.lines[at.value]);
      LinesIds(j, j.lines[at.value][1]);
    }
    AllExtended(w, j, entries, table);
    ConstsKeys(w, SpecializationOf(j.m.insts, entries), j.m.insts);
    if j.d.groupVar.Some? { IdsSurvive(w, j, entries, j.d.groupVar.value); }
    if j.d.localVar.Some? { IdsSurvive(w, j, entries, j.d.localVar.value); }
  }

  lemma IntDeclared(lines: seq<Inst>, uintT: Word)
    requires HasInt(lines, uintT, 32)
    ensures uintT in Ids(lines)
  {
    var k :| 0 <= k < |lines| && IsInt(lines[k], 32) && lines[k][1] == uintT;
    IdDeclared(lines, lines[k]);
  }

  lemma JobSupplied(w: World, j: Job, entries: seq<Entry>, table: Table, c: Context)
    requires Linked(j) && Observable(w, j, entries, table) && j.targets != [] && j.all.next <= WORD && j.m.Bound() + 5 <= WORD
    requires c == Context(w, j.m.Bound(), Old(w, Code(j.m.insts), j.all.insts)) && c.known(MEMBER_ZERO)
    ensures Supplied(c, j.d, j.p)
  {
    hide Linked, Observable, Common, OwnConstants, Original, Ids;
    JobConstants(j, 0);
    NamesDeclared(w, j, entries, table);
    forall r | j.p.Has(r) ensures j.p.Id(r) < WORD && c.known(j.p.Id(r)) { PoolDeclared(j, r); }
  }

  lemma JobGrounded(w: World, j: Job, entries: seq<Entry>, table: Table, c: Context)
    requires Linked(j) && Observable(w, j, entries, table) && Complete(w, Code(j.m.insts), j.m.insts, j.m.Bound())
    requires ResultsBelow(j.m.insts, j.m.Bound()) && j.targets != [] && j.all.next <= WORD && j.m.Bound() + 5 <= WORD
    requires c == Context(w, j.m.Bound(), Old(w, Code(j.m.insts), j.all.insts)) && c.known(MEMBER_ZERO)
    ensures Grounded(c, j.d, j.p, j.targets, j.all.insts)
  {
    hide Linked, Observable, Common, OwnConstants, Uses, Complete, Old, Supplied, StoreKnown, ResultsBelow;
    JobSupplied(w, j, entries, table, c);
    AllExtended(w, j, entries, table);
    forall k, id | 0 <= k < |j.all.insts| && id in Uses(w, j.all.insts[k]) ensures c.known(id) {
      CodeKnown(w, j, entries, table, j.all.insts, k, id);
    }
    forall k, i | 0 <= k < |j.all.insts| && FindTarget(j.targets, j.all.insts[k]) == Some(i)
      ensures StoreKnown(c, j.d, j.targets[i]) && OwnConstants(j.p, j.targets[i], i)
    {
      JobConstants(j, i);
      TargetKnown(w, j, entries, table, c, k, i);
    }
  }

  lemma TargetKnown(w: World, j: Job, entries: seq<Entry>, table: Table, c: Context, k: nat, i: nat)
    requires Linked(j) && Observable(w, j, entries, table) && Complete(w, Code(j.m.insts), j.m.insts, j.m.Bound())
    requires ResultsBelow(j.m.insts, j.m.Bound()) && c.known == Old(w, Code(j.m.insts), j.all.insts)
    requires k < |j.all.insts| && FindTarget(j.targets, j.all.insts[k]) == Some(i)
    ensures StoreKnown(c, j.d, j.targets[i])
  {
    hide Prelude, ProbeAll, Prepared, Missing, HasBuffer, InputsReadable, Described, Complete, Extended, Old, ResultTypes;
    var inst, t := j.all.insts[k], j.targets[i];
    AllExtended(w, j, entries, table);
    assert t.stored in Uses(w, inst);
    CodeKnown(w, j, entries, table, j.all.insts, k, t.stored);
    SameCode(w, SpecializationOf(j.m.insts, entries), j.m, j.lines, j.uintT, j.m.Bound() + 5);
    forall n, v | 0 <= n < |j.lines| && v in Uses(w, j.lines[n]) ensures c.known(v) {
      CodeKnown(w, j, entries, table, j.lines, n, v);
    }
    if t.pointer in Chains(j.lines) { ChainsKnown(w, c.known, j.lines, t.pointer); }
  }

  /** A probed store comes with a chain through member 0. */
  lemma {:induction false} ZeroUsed(d: Names, p: Pool, targets: seq<Target>, insts: seq<Inst>, n: nat, k: nat) returns (i: nat)
    requires ProbeAll(d, p, targets, insts, n).Ok? && k < |insts| && FindTarget(targets, insts[k]).Some?
    ensures i < |ProbeAll(d, p, targets, insts, n).value.insts|
    ensures var inst := ProbeAll(d, p, targets, insts, n).value.insts[i]; Op(inst) == ACCESS_CHAIN && |inst| == 6 && inst[4] == MEMBER_ZERO
  {
    hide Block, Refusal;
    var front, inst := insts[..|insts| - 1], insts[|insts| - 1];
    var before := ProbeAll(d, p, targets, front, n).value;
    if k < |front| {
      i := ZeroUsed(d, p, targets, front, n, k);
    } else {
      var t := FindTarget(targets, inst).value;
      i := BlockZero(d, p, targets[t], t, before.next);
      i := |before.insts| + 1 + i;
    }
  }

  lemma BlockZero(d: Names, p: Pool, t: Target, index: nat, n: nat) returns (i: nat)
    requires Refusal(d, t).None?
    ensures i < |Block(d, p, t, index, n)|
    ensures var inst := Block(d, p, t, index, n)[i]; Op(inst) == ACCESS_CHAIN && |inst| == 6 && inst[4] == MEMBER_ZERO
  {
    hide Convert, Position, Trace;
    var head := Convert(d, t, n) + Position(d, p, t, n);
    var fields := RecordFields(d, p, t, index, n);
    i := WordsZero(d, fields, FieldsStart(d, t, n));
    i := |head| + i;
  }

  lemma {:induction false} WordsZero(d: Names, fields: seq<Field>, n: nat) returns (i: nat)
    requires fields != []
    ensures i < |DebugWords(d, fields, n)|
    ensures var inst := DebugWords(d, fields, n)[i]; Op(inst) == ACCESS_CHAIN && |inst| == 6 && inst[4] == MEMBER_ZERO
  {
    i := |DebugWords(d, fields[..|fields| - 1], n)|;
  }

  /** No late constants: if all that the source's code uses is there, then so is
      all that the probed module's code uses, if and only if nothing is probed or
      the id taken for member 0 is there. */
  lemma NothingLate(x: Probing, w: World, l: Launch)
    requires Probeable(x, w, l) && ResultsBelow(x.m.insts, x.m.Bound()) && Complete(w, Code(x.m.insts), x.m.insts, x.m.Bound())
    requires MEMBER_ZERO < x.m.Bound()
    ensures Complete(w, Code(x.m.insts), x.Output().insts, x.m.Bound())
      <==> x.targets == [] || MEMBER_ZERO in Ids(x.m.insts) || Original(w, Code(x.m.insts), MEMBER_ZERO)
  {
    hide Linked, Observable, Probeable, Complete, Original, Ids, Grounded, Emits;
    var j := JobObservable(x, w, l);
    JobBounds(j);
    OutIds(w, j, l.entries, l.table);
    ZeroSurvives(w, j, l.entries, l.table);
    if j.targets == [] || Old(w, Code(j.m.insts), j.all.insts)(MEMBER_ZERO) {
      LateNever(w, j, l.entries, l.table);
    } else {
      LateZero(w, j, l.entries, l.table);
    }
  }

  lemma JobBounds(j: Job)
    requires Linked(j)
    ensures |j.m.header| == HEADER && j.m.Bound() + 5 <= j.all.next <= j.out.Bound() < WORD
  {
    hide Prelude, ProbeAll, NamesOf, Prepared, Missing;
  }

  lemma ZeroSurvives(w: World, j: Job, entries: seq<Entry>, table: Table)
    requires Linked(j) && Observable(w, j, entries, table) && MEMBER_ZERO < j.m.Bound()
    ensures MEMBER_ZERO in Ids(j.all.insts) <==> MEMBER_ZERO in Ids(j.m.insts)
  {
    hide Prelude, ProbeAll, NamesOf, Prepared, Missing, HasBuffer, InputsReadable, Described, Same;
    AllExtended(w, j, entries, table);
  }

  lemma LateNever(w: World, j: Job, entries: seq<Entry>, table: Table)
    requires Linked(j) && Observable(w, j, entries, table) && Complete(w, Code(j.m.insts), j.m.insts, j.m.Bound())
    requires ResultsBelow(j.m.insts, j.m.Bound()) && j.m.Bound() + 5 <= j.all.next <= j.out.Bound() < WORD
    requires j.targets == [] || Old(w, Code(j.m.insts), j.all.insts)(MEMBER_ZERO)
    requires Ids(j.out.insts) == Ids(j.all.insts)
    ensures Complete(w, Code(j.m.insts), j.out.insts, j.m.Bound())
  {
    hide Linked, Observable, Old, Ids, Grounded, Uses, Complete, ResultsBelow, Emits;
    JobBound(j);
    var c := Context(w, j.m.Bound(), Old(w, Code(j.m.insts), j.all.insts));
    AllExtended(w, j, entries, table);
    ResultsOfCode(j.m.insts, j.m.Bound());
    ResultsFromCode(j.all.insts, Code(j.m.insts), j.m.Bound());
    if j.targets == [] {
      forall k, id | 0 <= k < |j.all.insts| && id in Uses(w, j.all.insts[k]) ensures c.known(id) {
        CodeKnown(w, j, entries, table, j.all.insts, k, id);
      }
    } else {
      JobGrounded(w, j, entries, table, c);
    }
    JobEmits(c, j);
    EmitsComplete(c, Code(j.m.insts), j.all.insts, j.out.insts, j.all.next, j.out.Bound());
  }

  lemma EmitsComplete(c: Context, code: seq<Inst>, all: seq<Inst>, out: seq<Inst>, lo: nat, hi: nat)
    requires Emits(c, out, lo, lo, hi) && c.known == Old(c.w, code, all) && Ids(out) == Ids(all)
    ensures Complete(c.w, code, out, c.bound)
  {
    hide Uses, Ids, Original, Defs;
    forall i, id | 0 <= i < |out| && id in Uses(c.w, out[i])
      ensures id in Ids(out) || Original(c.w, code, id) || id in Defs(out[..i], c.bound)
    {
      assert c.known(id) ==> Old(c.w, code, all)(id);
    }
  }

  lemma ResultsOfCode(insts: seq<Inst>, bound: nat)
    requires ResultsBelow(insts, bound)
    ensures ResultsBelow(Code(insts), bound)
  {
    forall k | 0 <= k < |Code(insts)| && Produces(Op(Code(insts)[k])) && |Code(insts)[k]| >= 3
      ensures Code(insts)[k][2] < bound
    {
      var i := CodeIn(insts, k);
    }
  }

  lemma LateZero(w: World, j: Job, entries: seq<Entry>, table: Table)
    requires Linked(j) && Observable(w, j, entries, table) && j.targets != [] && MEMBER_ZERO < j.m.Bound()
    requires !Old(w, Code(j.m.insts), j.all.insts)(MEMBER_ZERO) && Ids(j.out.insts) == Ids(j.all.insts)
    ensures !Complete(w, Code(j.m.insts), j.out.insts, j.m.Bound())
  {
    hide Prelude, ProbeAll, NamesOf, Prepared, Observable, Original, Ids;
    assert Stored(j.all.insts, j.targets[0].pointer, j.targets[0].stored);
    var k :| 0 <= k < |j.all.insts| && Op(j.all.insts[k]) == STORE && |j.all.insts[k]| >= 3
      && j.all.insts[k][1] == j.targets[0].pointer && j.all.insts[k][2] == j.targets[0].stored;
    FindsSome(j.targets, j.all.insts[k], 0);
    var i := ZeroUsed(j.d, j.p, j.targets, j.all.insts, j.all.next, k);
    var inst := j.out.insts[i];
    assert inst[3..][1] in IdSet(inst[3..]);
    assert MEMBER_ZERO in Uses(w, inst);
    DefsFrom(j.out.insts[..i], j.m.Bound());
  }

  lemma {:induction false} FindsSome(targets: seq<Target>, inst: Inst, i: nat)
    requires i < |targets| && Op(inst) == STORE && |inst| >= 3 && inst[1] == targets[i].pointer && inst[2] == targets[i].stored
    ensures FindTarget(targets, inst).Some?
    decreases |targets|
  {
    if i < |targets| - 1 { FindsSome(targets[..|targets| - 1], inst, i); }
  }

  lemma {:induction false} DefsFrom(insts: seq<Inst>, bound: nat)
    ensures forall id :: id in Defs(insts, bound) ==> id >= bound
  {
    if insts != [] { DefsFrom(insts[..|insts| - 1], bound); }
  }
}
