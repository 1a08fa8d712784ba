/** Stage 3 keeps modules well formed: exact lengths, fresh ids used up once
    each, and everything the next stage asks for. */
module Storage16Shape {
  import opened Words
  import opened Ops
  import opened Machine
  import opened Translation
  import opened Meaning
  import opened Storage16
  import opened Storage16Sound

  // ---- lengths ----

  lemma LoweredLength(c: Lowering, chain: Inst, load: Inst, n: nat)
    requires |chain| == 8 && |load| == 4 && n + 10 <= ID_LIMIT
    ensures |Flatten(Lowered(c, chain, load, n))| == 56 && AllSized(Lowered(c, chain, load, n))
  {
    var b := Lowered(c, chain, load, n);
    assert |Flatten(b[10..])| == 4;
    assert |Flatten(b[9..])| == 9 by { assert b[9..][1..] == b[10..]; }
    assert |Flatten(b[8..])| == 14 by { assert b[8..][1..] == b[9..]; }
    assert |Flatten(b[7..])| == 18 by { assert b[7..][1..] == b[8..]; }
    assert |Flatten(b[6..])| == 22 by { assert b[6..][1..] == b[7..]; }
    assert |Flatten(b[5..])| == 30 by { assert b[5..][1..] == b[6..]; }
    assert |Flatten(b[4..])| == 35 by { assert b[4..][1..] == b[5..]; }
    assert |Flatten(b[3..])| == 39 by { assert b[3..][1..] == b[4..]; }
    assert |Flatten(b[2..])| == 43 by { assert b[2..][1..] == b[3..]; }
    assert |Flatten(b[1..])| == 51 by { assert b[1..][1..] == b[2..]; }
  }

  /** The end of the 8-bit type is not in the middle of a match. */
  ghost predicate EndClear(c: Lowering, insts: seq<Inst>) {
    c.t.ucharEnd.Some? && forall k :: 0 <= k < |insts| && c.t.ucharEnd == Some(k + 1) ==> !Matches(c.t, insts, k)
  }

  /** Words added from the instruction `k` on. */
  function Growth(c: Lowering, insts: seq<Inst>, k: nat): nat
    requires c.t.ucharEnd.Some?
  {
    44 * Count(c.t, insts, k) + if c.add && k <= c.t.ucharEnd.value < |insts| then 4 else 0
  }

  lemma EmittedLength(c: Lowering, insts: seq<Inst>, k: nat, n: nat)
    requires k < |insts| && (Matches(c.t, insts, k) ==> n + 10 <= ID_LIMIT)
    ensures |Emitted(c, insts, k, n)| == |AddedWords(c, k)| +
      if Matches(c.t, insts, k) then 56 else |insts[k]|
  {
    if Matches(c.t, insts, k) { LoweredLength(c, insts[k], insts[k + 1], n); }
  }

  lemma GrowthStep(c: Lowering, insts: seq<Inst>, k: nat)
    requires k < |insts| && EndClear(c, insts)
    ensures k + Width(c.t, insts, k) <= |insts|
    ensures var k' := k + Width(c.t, insts, k);
      |AddedWords(c, k)| + (if Matches(c.t, insts, k) then 56 else |insts[k]|) + |Flatten(insts[k'..])| + Growth(c, insts, k')
        == |Flatten(insts[k..])| + Growth(c, insts, k)
  {
    CountStep(c.t, insts, k);
    FlattenAt(insts, k);
    if Matches(c.t, insts, k) { FlattenAt(insts, k + 1); }
  }

  lemma PendingLengthStep(c: Lowering, insts: seq<Inst>, k: nat, n: nat)
    requires n + 10 * Count(c.t, insts, k) <= ID_LIMIT && k < |insts|
    ensures n + Fresh(c.t, insts, k) + 10 * Count(c.t, insts, k + Width(c.t, insts, k)) <= ID_LIMIT
    ensures |Pending(c, insts, k, n)| == |AddedWords(c, k)| + (if Matches(c.t, insts, k) then 56 else |insts[k]|)
      + |Pending(c, insts, k + Width(c.t, insts, k), n + Fresh(c.t, insts, k))|
  {
    PendingStep(c, insts, k, n);
    EmittedLength(c, insts, k, n);
  }

  lemma {:induction false} PendingLength(c: Lowering, insts: seq<Inst>, k: nat, n: nat)
    requires n + 10 * Count(c.t, insts, k) <= ID_LIMIT && k <= |insts| && EndClear(c, insts)
    ensures |Pending(c, insts, k, n)| == |Flatten(insts[k..])| + Growth(c, insts, k)
    decreases |insts| - k
  {
    if k == |insts| {
      PendingEnd(c, insts, k, n);
    } else {
      PendingLengthStep(c, insts, k, n);
      GrowthStep(c, insts, k);
      PendingLength(c, insts, k + Width(c.t, insts, k), n + Fresh(c.t, insts, k));
    }
  }

  lemma {:induction false} EndIsType(insts: seq<Inst>)
    ensures Scan(insts).ucharEnd.Some? ==>
      0 < Scan(insts).ucharEnd.value <= |insts| && IsInt(insts[Scan(insts).ucharEnd.value - 1], 8)
  {
    if insts != [] { EndIsType(insts[..|insts| - 1]); }
  }

  lemma EndIsClear(m: Module)
    requires m.Valid() && Applies(m)
    ensures EndClear(LoweringOf(m), m.insts) && LoweringOf(m).t.ucharEnd.value <= |m.insts|
  {
    EndIsType(m.insts[..FunctionAt(m.insts)]);
  }

  /** The exact growth: 44 words for each lowered load, and four more when the
      pointer type is declared, which happens once unless the 8-bit type is the
      very last instruction. */
  lemma LowerLength(m: Module)
    requires m.Valid() && Applies(m)
    ensures var end := TypesOf(m.insts).ucharEnd.value;
      |LowerModule(m).Words()| == |m.Words()| + 44 * Count(TypesOf(m.insts), m.insts, 0)
        + if LoweringOf(m).add && end < |m.insts| then 4 else 0
  {
    EndIsClear(m);
    PendingLength(LoweringOf(m), m.insts, 0, FirstId(m));
    assert m.insts[0..] == m.insts;
  }

  // ---- fresh ids ----

  lemma LoweredDefs(c: Lowering, chain: Inst, load: Inst, n: nat, bound: nat)
    requires |chain| == 8 && |load| == 4 && n + 10 <= ID_LIMIT && bound <= n && load[2] < bound
    ensures Defs(Lowered(c, chain, load, n), bound) == Range(n, n + 10)
  {
    var b := Lowered(c, chain, load, n);
    DefsFirst(b, bound, n, 10);
    assert b == b[..10] + [b[10]];
    assert b[..11][..10] == b[..10] && b[..11] == b;
  }

  lemma UnitDefs(c: Lowering, insts: seq<Inst>, k: nat, n: nat, bound: nat)
    requires k < |insts| && (Matches(c.t, insts, k) ==> n + 10 <= ID_LIMIT) && bound <= n && ResultsBelow(insts, bound)
    ensures Defs(UnitAt(c, insts, k, n).dst, bound) == Range(n, n + Fresh(c.t, insts, k))
  {
    if Matches(c.t, insts, k) {
      LoweredDefs(c, insts[k], insts[k + 1], n, bound);
    } else {
      DefsOne(insts[k], bound);
    }
  }

  lemma DefsOf(all: seq<Unit>, a: seq<Unit>, unit: Unit, b: seq<Unit>, bound: nat)
    requires all == a + [unit] + b && Defs(Flatten(Dsts(a)), bound) == []
    ensures Defs(Flatten(Dsts(all)), bound) == Defs(unit.dst, bound) + Defs(Flatten(Dsts(b)), bound)
  {
    UnitsParts(a, unit, b);
    DefsAppend(Flatten(Dsts(a)) + unit.dst, Flatten(Dsts(b)), bound);
    DefsAppend(Flatten(Dsts(a)), unit.dst, bound);
  }

  lemma UnitsDefsStep(c: Lowering, insts: seq<Inst>, k: nat, n: nat, bound: nat)
    requires n + 10 * Count(c.t, insts, k) <= ID_LIMIT && k < |insts| && bound <= n && ResultsBelow(insts, bound)
    ensures k + Width(c.t, insts, k) <= |insts|
    ensures n + Fresh(c.t, insts, k) + 10 * Count(c.t, insts, k + Width(c.t, insts, k)) == n + 10 * Count(c.t, insts, k)
    ensures Defs(Flatten(Dsts(UnitsFrom(c, insts, k, n))), bound) == Range(n, n + Fresh(c.t, insts, k))
      + Defs(Flatten(Dsts(UnitsFrom(c, insts, k + Width(c.t, insts, k), n + Fresh(c.t, insts, k)))), bound)
  {
    UnitsStep(c, insts, k, n);
    CountStep(c.t, insts, k);
    AddedFlat(c, k);
    DefsOne(PtrType(c), bound);
    DefsOf(UnitsFrom(c, insts, k, n), Added(c, k), UnitAt(c, insts, k, n),
           UnitsFrom(c, insts, k + Width(c.t, insts, k), n + Fresh(c.t, insts, k)), bound);
    UnitDefs(c, insts, k, n, bound);
  }

  lemma {:induction false} UnitsDefs(c: Lowering, insts: seq<Inst>, k: nat, n: nat, bound: nat)
    requires n + 10 * Count(c.t, insts, k) <= ID_LIMIT && k <= |insts| && bound <= n && ResultsBelow(insts, bound)
    ensures Defs(Flatten(Dsts(UnitsFrom(c, insts, k, n))), bound) == Range(n, n + 10 * Count(c.t, insts, k))
    decreases |insts| - k
  {
    hide *;
    if k < |insts| {
      var k', n', hi := k + Width(c.t, insts, k), n + Fresh(c.t, insts, k), n + 10 * Count(c.t, insts, k);
      UnitsDefsStep(c, insts, k, n, bound);
      UnitsDefs(c, insts, k', n', bound);
      RangeSplit(n, n', hi);
    } else {
      NoUnitsDefs(c, insts, n, bound);
    }
  }

  lemma NoUnitsDefs(c: Lowering, insts: seq<Inst>, n: nat, bound: nat)
    requires n <= ID_LIMIT
    ensures Count(c.t, insts, |insts|) == 0
    ensures Defs(Flatten(Dsts(UnitsFrom(c, insts, |insts|, n))), bound) == Range(n, n)
  {}

  /** Every reserved id is defined exactly once, in order, and no other id from
      the old bound on is. */
  lemma LowerDefs(m: Module)
    requires m.Valid() && Applies(m) && ResultsBelow(m.insts, m.Bound())
    ensures Defs(LowerModule(m).insts, m.Bound()) == Range(FirstId(m), NewBound(m))
    ensures LowerModule(m).Bound() == NewBound(m)
  {
    UnitsDefs(LoweringOf(m), m.insts, 0, FirstId(m), m.Bound());
  }

  // ---- what the next stage asks for ----

  /** Where an instruction of the lowered module comes from. */
  lemma OutputInst(m: Module, i: nat) returns (j: nat, n: nat)
    requires m.Valid() && Applies(m) && i < |LowerModule(m).insts|
    ensures var c, out := LoweringOf(m), LowerModule(m).insts[i];
      || out == PtrType(c)
      || (j < |m.insts| && out == m.insts[j])
      || (Matches(c.t, m.insts, j) && FirstId(m) <= n && n + 10 <= NewBound(m)
          && out in Lowered(c, m.insts[j], m.insts[j + 1], n))
  {
    var b, o := FlattenIn(Dsts(Units(m)), i);
    j, n := UnitKind(LoweringOf(m), m.insts, 0, FirstId(m), b);
  }

  function AddedIds(c: Lowering, k: nat): seq<nat> {
    if c.add && c.t.ucharEnd == Some(k) then [c.ptr] else []
  }

  /** `out` is `ids`, with the new pointer type somewhere in between if its
      place is at `k` or later. */
  ghost predicate Inserted(c: Lowering, k: nat, ids: seq<nat>, out: seq<nat>, a: seq<nat>, b: seq<nat>) {
    ids == a + b && (out == a + b || (c.add && c.t.ucharEnd.Some? && k <= c.t.ucharEnd.value && out == a + [c.ptr as nat] + b))
  }

  /** One unit in front of the rest. */
  lemma InsertStep(c: Lowering, k: nat, k': nat, here: seq<nat>, ids: seq<nat>, out: seq<nat>, a: seq<nat>, b: seq<nat>)
    returns (a2: seq<nat>, b2: seq<nat>)
    requires Inserted(c, k', ids, out, a, b) && k < k'
    ensures Inserted(c, k, here + ids, AddedIds(c, k) + here + out, a2, b2)
  {
    if c.add && c.t.ucharEnd == Some(k) {
      a2, b2 := [], here + ids;
      assert [c.ptr as nat] + here + out == [] + [c.ptr as nat] + (here + ids);
    } else {
      a2, b2 := here + a, b;
      assert [] + here + (a + [c.ptr as nat] + b) == (here + a) + [c.ptr as nat] + b;
      assert [] + here + (a + b) == (here + a) + b;
    }
  }

  lemma AddedAre(c: Lowering, k: nat)
    ensures Ids(Flatten(Dsts(Added(c, k)))) == AddedIds(c, k)
  {
    AddedFlat(c, k);
    CodeOne(PtrType(c));
  }

  lemma UnitIdsKept(c: Lowering, insts: seq<Inst>, k: nat, n: nat)
    requires k < |insts| && (Matches(c.t, insts, k) ==> n + 10 <= ID_LIMIT)
    ensures k + Width(c.t, insts, k) <= |insts|
    ensures Ids(UnitAt(c, insts, k, n).dst) == Ids(insts[k..k + Width(c.t, insts, k)])
  {
    if Matches(c.t, insts, k) {
      CodeExecutable(insts[k..k + 2]);
      CodeExecutable(Lowered(c, insts[k], insts[k + 1], n));
    }
  }

  lemma UnitsIdsStep(c: Lowering, insts: seq<Inst>, k: nat, n: nat)
    requires n + 10 * Count(c.t, insts, k) <= ID_LIMIT && k < |insts|
    ensures k + Width(c.t, insts, k) <= |insts|
    ensures n + Fresh(c.t, insts, k) + 10 * Count(c.t, insts, k + Width(c.t, insts, k)) <= ID_LIMIT
    ensures Ids(Flatten(Dsts(UnitsFrom(c, insts, k, n)))) ==
      AddedIds(c, k) + Ids(insts[k..k + Width(c.t, insts, k)])
        + Ids(Flatten(Dsts(UnitsFrom(c, insts, k + Width(c.t, insts, k), n + Fresh(c.t, insts, k)))))
  {
    UnitsStep(c, insts, k, n);
    AddedAre(c, k);
    UnitIdsKept(c, insts, k, n);
    IdsOf(UnitsFrom(c, insts, k, n), Added(c, k), UnitAt(c, insts, k, n),
          UnitsFrom(c, insts, k + Width(c.t, insts, k), n + Fresh(c.t, insts, k)));
  }

  lemma IdsSplit(insts: seq<Inst>, k: nat, k': nat)
    requires k <= k' <= |insts|
    ensures Ids(insts[k..]) == Ids(insts[k..k']) + Ids(insts[k'..])
  {
    assert insts[k..] == insts[k..k'] + insts[k'..];
    IdsAppend(insts[k..k'], insts[k'..]);
  }

  lemma {:induction false} UnitsIds(c: Lowering, insts: seq<Inst>, k: nat, n: nat) returns (a: seq<nat>, b: seq<nat>)
    requires n + 10 * Count(c.t, insts, k) <= ID_LIMIT && k <= |insts|
    ensures Inserted(c, k, Ids(insts[k..]), Ids(Flatten(Dsts(UnitsFrom(c, insts, k, n)))), a, b)
    decreases |insts| - k
  {
    hide *;
    if k < |insts| {
      var k', n' := k + Width(c.t, insts, k), n + Fresh(c.t, insts, k);
      UnitsIdsStep(c, insts, k, n);
      IdsSplit(insts, k, k');
      a, b := UnitsIds(c, insts, k', n');
      a, b := InsertStep(c, k, k', Ids(insts[k..k']), Ids(insts[k'..]), Ids(Flatten(Dsts(UnitsFrom(c, insts, k', n')))), a, b);
    } else {
      a, b := [], [];
      NoUnitsIds(c, insts, n);
    }
  }

  lemma NoUnitsIds(c: Lowering, insts: seq<Inst>, n: nat)
    requires n <= ID_LIMIT
    ensures n + 10 * Count(c.t, insts, |insts|) <= ID_LIMIT
    ensures Inserted(c, |insts|, Ids(insts[|insts|..]), Ids(Flatten(Dsts(UnitsFrom(c, insts, |insts|, n)))), [], [])
  {}

  lemma IdsOf(all: seq<Unit>, a: seq<Unit>, unit: Unit, b: seq<Unit>)
    requires all == a + [unit] + b
    ensures Ids(Flatten(Dsts(all))) == Ids(Flatten(Dsts(a))) + Ids(unit.dst) + Ids(Flatten(Dsts(b)))
  {
    UnitsParts(a, unit, b);
    IdsAppend(Flatten(Dsts(a)) + unit.dst, Flatten(Dsts(b)));
    IdsAppend(Flatten(Dsts(a)), unit.dst);
  }

  lemma GoodInsert(a: seq<nat>, x: nat, b: seq<nat>)
    requires forall i, j :: 0 <= i < j < |a + b| ==> (a + b)[i] != (a + b)[j]
    requires forall i :: 0 <= i < |a + b| ==> (a + b)[i] != x
    ensures forall i, j :: 0 <= i < j < |a + [x] + b| ==> (a + [x] + b)[i] != (a + [x] + b)[j]
  {
    var s, t := a + b, a + [x] + b;
    forall i, j | 0 <= i < j < |t|
      ensures t[i] != t[j]
    {
      var i', j' := if i < |a| then i else i - 1, if j < |a| then j else j - 1;
      if i != |a| && j != |a| {
        assert t[i] == s[i'] && t[j] == s[j'];
      } else if i == |a| {
        assert t[j] == s[j'];
      } else {
        assert t[i] == s[i'];
      }
    }
  }

  lemma LowerGoodIds(m: Module)
    requires m.Valid() && Applies(m) && GoodIds(m.insts, m.Bound())
    ensures GoodIds(LowerModule(m).insts, NewBound(m))
  {
    var c := LoweringOf(m);
    var a, b := UnitsIds(c, m.insts, 0, FirstId(m));
    assert m.insts[0..] == m.insts;
    if Ids(LowerModule(m).insts) != a + b {
      assert forall i :: 0 <= i < |a + b| ==> (a + b)[i] == Ids(m.insts)[i];
      GoodInsert(a, c.ptr, b);
      var s, t := a + b, a + [c.ptr as nat] + b;
      forall i | 0 <= i < |t|
        ensures t[i] < NewBound(m)
      {
        if i < |a| { assert s[i] == t[i]; }
        else if i > |a| { assert s[i - 1] == t[i]; }
      }
    }
  }

  lemma LoweredReads(w: World, c: Lowering, chain: Inst, load: Inst, n: nat, i: nat, bound: nat)
    requires ViewPair(chain, load) && n + 10 <= ID_LIMIT && n + 10 <= bound && i < 11
    requires c.t.one < bound && c.t.two < bound && c.t.eight < bound && VIEW8 < bound
    requires forall id :: id in Reads(w, chain) ==> id < bound
    ensures forall id :: id in Reads(w, Lowered(c, chain, load, n)[i]) ==> id < bound
  {
    ChainReads(w, chain, 4);
    ChainReads(w, chain, 5);
    ChainReads(w, chain, 6);
    ChainReads(w, chain, 7);
  }

  /** The lowered module has unique declared ids below its new bound, one-word
      constants, and its code reads nothing at or above the bound. */
  lemma LowerWellFormed(w: World, m: Module)
    requires WellFormed(w, m) && Applies(m)
    ensures WellFormed(w, LowerModule(m)) && LowerModule(m).Bound() == NewBound(m)
  {
    LowerGoodIds(m);
    var c, out := LoweringOf(m), LowerModule(m);
    forall i | 0 <= i < |out.insts|
      ensures WellSized(out.insts[i])
      ensures Op(out.insts[i]) == CONSTANT || Op(out.insts[i]) == SPEC_CONSTANT ==> |out.insts[i]| == 4
    {
      var j, n := OutputInst(m, i);
    }
    forall k, id | 0 <= k < |Code(out.insts)| && id in Reads(w, Code(out.insts)[k])
      ensures id < NewBound(m)
    {
      OutputReads(w, m, k, id);
    }
  }

  lemma OutputReads(w: World, m: Module, k: nat, id: nat)
    requires WellFormed(w, m) && Applies(m)
    requires k < |Code(LowerModule(m).insts)| && id in Reads(w, Code(LowerModule(m).insts)[k])
    ensures id < NewBound(m)
  {
    var c, out := LoweringOf(m), LowerModule(m);
    var i := CodeIn(out.insts, k);
    var j, n := OutputInst(m, i);
    TypesKnown(w, m, [], map[]);
    if j < |m.insts| && out.insts[i] == m.insts[j] {
      CodeIndex(m.insts, j);
    } else {
      CodeIndex(m.insts, j);
      var o :| 0 <= o < 11 && out.insts[i] == Lowered(c, m.insts[j], m.insts[j + 1], n)[o];
      LoweredReads(w, c, m.insts[j], m.insts[j + 1], n, o, NewBound(m));
    }
  }
}
