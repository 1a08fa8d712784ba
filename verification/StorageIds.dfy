/** Stage 3 keeps result ids defined once, below the bound, and before their
    uses: the pointers it drops were used by the lowered loads alone. */
module StorageIds {
  import opened Words
  import opened Ops
  import opened Machine
  import opened Translation
  import opened Meaning
  import opened Definitions
  import opened StageIds
  import opened Storage16
  import Shape = Storage16Shape
  import Sound = Storage16Sound

  // ---- what the scan finds ----

  ghost predicate TypesTyped(w: World, insts: seq<Inst>, t: Types) {
    && (t.uintT != 0 ==> Typed(w, insts, t.uintT)) && (t.ucharT != 0 ==> Typed(w, insts, t.ucharT)) && (t.ushortT != 0 ==> Typed(w, insts, t.ushortT))
    && (t.ptrUchar != 0 ==> Typed(w, insts, t.ptrUchar))
    && (t.one != 0 ==> Typed(w, insts, t.one)) && (t.two != 0 ==> Typed(w, insts, t.two)) && (t.eight != 0 ==> Typed(w, insts, t.eight))
  }

  lemma TypesSeen(w: World, x: Inst, t: Types, end: nat)
    ensures var s := See(t, x, end);
      && Seen(w, x, t.uintT, s.uintT) && Seen(w, x, t.ucharT, s.ucharT) && Seen(w, x, t.ushortT, s.ushortT) && Seen(w, x, t.ptrUchar, s.ptrUchar)
      && Seen(w, x, t.one, s.one) && Seen(w, x, t.two, s.two) && Seen(w, x, t.eight, s.eight)
  {}

  lemma TypesSee(w: World, front: seq<Inst>, x: Inst, t: Types, end: nat)
    requires TypesTyped(w, front, t)
    ensures TypesTyped(w, front + [x], See(t, x, end))
  {
    hide Typed, Seen, See;
    var s := See(t, x, end);
    TypesSeen(w, x, t, end);
    SeenTyped(w, front, x, t.uintT, s.uintT);
    SeenTyped(w, front, x, t.ucharT, s.ucharT);
    SeenTyped(w, front, x, t.ushortT, s.ushortT);
    SeenTyped(w, front, x, t.ptrUchar, s.ptrUchar);
    SeenTyped(w, front, x, t.one, s.one);
    SeenTyped(w, front, x, t.two, s.two);
    SeenTyped(w, front, x, t.eight, s.eight);
  }

  lemma {:induction false} TypesScan(w: World, insts: seq<Inst>)
    ensures TypesTyped(w, insts, Scan(insts))
  {
    hide TypesTyped, See;
    if insts != [] {
      var front, x := insts[..|insts| - 1], insts[|insts| - 1];
      TypesScan(w, front);
      TypesSee(w, front, x, Scan(front), |insts|);
      assert front + [x] == insts;
    } else {
      NoTypes(w);
    }
  }

  lemma NoTypes(w: World)
    ensures TypesTyped(w, [], NO_TYPES)
  {}

  lemma TypesFound(w: World, insts: seq<Inst>)
    ensures TypesTyped(w, insts, TypesOf(insts))
  {
    hide Typed, Scan;
    var k, t := FunctionAt(insts), TypesOf(insts);
    TypesScan(w, insts[..k]);
    assert insts[..k] + insts[k..] == insts;
    TypedMore(w, insts[..k], insts[k..], t.uintT);
    TypedMore(w, insts[..k], insts[k..], t.ucharT);
    TypedMore(w, insts[..k], insts[k..], t.ushortT);
    TypedMore(w, insts[..k], insts[k..], t.ptrUchar);
    TypedMore(w, insts[..k], insts[k..], t.one);
    TypedMore(w, insts[..k], insts[k..], t.two);
    TypedMore(w, insts[..k], insts[k..], t.eight);
  }

  // ---- the block ----

  predicate BlockId(c: Lowering, id: nat) { id in {c.t.uintT as nat, c.t.ucharT, c.t.ushortT, c.t.one, c.t.two, c.t.eight} }

  predicate Operand(chain: Inst, id: nat)
    requires |chain| == 8
  {
    id in {chain[4] as nat, chain[5], chain[6], chain[7]}
  }

  /** What the eleven instructions define and need. */
  lemma BlockInst(w: World, c: Lowering, chain: Inst, load: Inst, n: nat, o: nat)
    requires |chain| == 8 && |load| == 4 && n + 10 <= ID_LIMIT && o < 11
    ensures var b := Lowered(c, chain, load, n);
      ResultOf(w, b[o]) == Some(if o < 10 then n + o else load[2]) && Op(b[o]) != PHI && !Global(Op(b[o]))
    ensures forall id :: id in Uses(w, Lowered(c, chain, load, n)[o]) ==>
      BlockId(c, id) || id == c.ptr || id == VIEW8 || Operand(chain, id) || n <= id < n + o
  {
    var b := Lowered(c, chain, load, n);
    if o == 1 { assert b[1][3..] == [VIEW8 as Word, chain[4], chain[5], chain[6], n as Word]; }
    if o == 5 { assert b[5][3..] == [VIEW8 as Word, chain[4], chain[5], chain[6], (n + 4) as Word]; }
  }

  lemma PairInsts(w: World, chain: Inst, load: Inst)
    requires |chain| == 8 && |load| == 4 && Op(chain) == ACCESS_CHAIN && Op(load) == LOAD
    ensures ResultOf(w, chain) == Some(chain[2]) && ResultOf(w, load) == Some(load[2]) && Inner(Op(chain)) && Inner(Op(load)) && Op(chain) != PHI
    ensures forall id :: Operand(chain, id) ==> id in Uses(w, chain)
  {
    assert chain[3..] == [chain[3], chain[4], chain[5], chain[6], chain[7]];
    Sound.ChainReads(w, chain, 4);
    Sound.ChainReads(w, chain, 5);
    Sound.ChainReads(w, chain, 6);
    Sound.ChainReads(w, chain, 7);
  }

  lemma PairTimes(w: World, chain: Inst, load: Inst, id: nat)
    requires |chain| == 8 && |load| == 4 && Op(chain) == ACCESS_CHAIN && Op(load) == LOAD
    ensures Times(w, [chain, load], id) == (if id == chain[2] then 1 else 0) + if id == load[2] then 1 else 0
  {
    hide Times, ResultOf;
    PairInsts(w, chain, load);
    TimesOne(w, chain, id);
    TimesOne(w, load, id);
    TimesAppend(w, [chain], [load], id);
    assert [chain] + [load] == [chain, load];
  }

  lemma BlockTimes(w: World, c: Lowering, chain: Inst, load: Inst, n: nat, id: nat)
    requires |chain| == 8 && |load| == 4 && n + 10 <= ID_LIMIT
    ensures Times(w, Lowered(c, chain, load, n), id) == (if n <= id < n + 10 then 1 else 0) + if id == load[2] then 1 else 0
  {
    hide Times, ResultOf, Lowered;
    forall o | 0 <= o < 11 ensures ResultOf(w, Lowered(c, chain, load, n)[o]) == Some(if o < 10 then n + o else load[2]) { BlockInst(w, c, chain, load, n, o); }
    TimesBlock(w, Lowered(c, chain, load, n), n, load[2], id);
  }

  // ---- how often an id is defined ----

  /** How many of the dropped pointers are `id`. */
  function Dropped(t: Types, insts: seq<Inst>, k: nat, id: nat): nat
    decreases |insts| - k
  {
    if k >= |insts| then 0
    else (if Matches(t, insts, k) && insts[k][2] == id then 1 else 0) + Dropped(t, insts, k + Width(t, insts, k), id)
  }

  function PtrAdded(c: Lowering, insts: seq<Inst>, k: nat, id: nat): nat {
    if c.add && c.t.ucharEnd.Some? && k <= c.t.ucharEnd.value < |insts| && id == c.ptr then 1 else 0
  }

  lemma UnitTimes(w: World, c: Lowering, insts: seq<Inst>, k: nat, n: nat, id: nat)
    requires k < |insts| && (Matches(c.t, insts, k) ==> n + 10 <= ID_LIMIT)
    ensures k + Width(c.t, insts, k) <= |insts|
    ensures Times(w, UnitAt(c, insts, k, n).dst, id) + (if Matches(c.t, insts, k) && insts[k][2] == id then 1 else 0)
      == Times(w, insts[k..k + Width(c.t, insts, k)], id) + if n <= id < n + Fresh(c.t, insts, k) then 1 else 0
  {
    hide Times, ResultOf, Lowered;
    if Matches(c.t, insts, k) {
      assert insts[k..k + 2] == [insts[k], insts[k + 1]];
      PairTimes(w, insts[k], insts[k + 1], id);
      BlockTimes(w, c, insts[k], insts[k + 1], n, id);
    } else {
      assert insts[k..k + 1] == [insts[k]];
    }
  }

  lemma AddedTimes(w: World, c: Lowering, k: nat, id: nat)
    ensures Times(w, Flatten(Dsts(Added(c, k))), id) == if c.add && c.t.ucharEnd == Some(k) && id == c.ptr then 1 else 0
  {
    AddedFlat(c, k);
    TimesOne(w, PtrType(c), id);
  }

  lemma StorageTimesStep(w: World, c: Lowering, insts: seq<Inst>, k: nat, n: nat, id: nat)
    requires n + 10 * Count(c.t, insts, k) <= ID_LIMIT && k < |insts| && Shape.EndClear(c, insts)
    ensures k + Width(c.t, insts, k) <= |insts|
    ensures n + Fresh(c.t, insts, k) + 10 * Count(c.t, insts, k + Width(c.t, insts, k)) == n + 10 * Count(c.t, insts, k)
    ensures var k', n' := k + Width(c.t, insts, k), n + Fresh(c.t, insts, k);
      && Dropped(c.t, insts, k, id) == (if Matches(c.t, insts, k) && insts[k][2] == id then 1 else 0) + Dropped(c.t, insts, k', id)
      && PtrAdded(c, insts, k, id) == (if c.add && c.t.ucharEnd == Some(k) && id == c.ptr then 1 else 0) + PtrAdded(c, insts, k', id)
      && Times(w, insts[k..], id) == Times(w, insts[k..k'], id) + Times(w, insts[k'..], id)
      && Times(w, Flatten(Dsts(UnitsFrom(c, insts, k, n))), id)
        == Times(w, Flatten(Dsts(Added(c, k))), id) + Times(w, UnitAt(c, insts, k, n).dst, id) + Times(w, Flatten(Dsts(UnitsFrom(c, insts, k', n'))), id)
  {
    hide Times, ResultOf, Lowered;
    UnitsStep(c, insts, k, n);
    CountStep(c.t, insts, k);
    var k', n' := k + Width(c.t, insts, k), n + Fresh(c.t, insts, k);
    assert insts[k..] == insts[k..k'] + insts[k'..];
    TimesAppend(w, insts[k..k'], insts[k'..], id);
    var a, unit, rest := Added(c, k), UnitAt(c, insts, k, n), UnitsFrom(c, insts, k', n');
    UnitsParts(a, unit, rest);
    TimesAppend(w, Flatten(Dsts(a)) + unit.dst, Flatten(Dsts(rest)), id);
    TimesAppend(w, Flatten(Dsts(a)), unit.dst, id);
  }

  lemma {:induction false} StorageTimes(w: World, c: Lowering, insts: seq<Inst>, k: nat, n: nat, id: nat)
    requires n + 10 * Count(c.t, insts, k) <= ID_LIMIT && k <= |insts| && Shape.EndClear(c, insts)
    ensures Times(w, Flatten(Dsts(UnitsFrom(c, insts, k, n))), id) + Dropped(c.t, insts, k, id)
      == Times(w, insts[k..], id) + (if n <= id < n + 10 * Count(c.t, insts, k) then 1 else 0) + PtrAdded(c, insts, k, id)
    decreases |insts| - k
  {
    hide *;
    if k < |insts| {
      StorageTimesStep(w, c, insts, k, n, id);
      AddedTimes(w, c, k, id);
      WithinCount(c, insts, k, n);
      UnitTimes(w, c, insts, k, n, id);
      StorageTimes(w, c, insts, k + Width(c.t, insts, k), n + Fresh(c.t, insts, k), id);
    } else {
      NoStorageTimes(w, c, insts, n, id);
    }
  }

  lemma WithinCount(c: Lowering, insts: seq<Inst>, k: nat, n: nat)
    requires n + 10 * Count(c.t, insts, k) <= ID_LIMIT && k < |insts|
    ensures Matches(c.t, insts, k) ==> n + 10 <= ID_LIMIT
  {}

  lemma NoStorageTimes(w: World, c: Lowering, insts: seq<Inst>, n: nat, id: nat)
    requires n <= ID_LIMIT
    ensures n + 10 * Count(c.t, insts, |insts|) == n && Dropped(c.t, insts, |insts|, id) == 0 && PtrAdded(c, insts, |insts|, id) == 0
    ensures Times(w, Flatten(Dsts(UnitsFrom(c, insts, |insts|, n))), id) == Times(w, insts[|insts|..], id) == 0
  {}

  /** Stage 3: every id is defined as often as before, less the dropped pointers;
      each reserved id once, and the pointer type if it is added. */
  lemma LoadIds(w: World, m: Module, id: nat)
    requires m.Valid() && Applies(m)
    ensures var c := LoweringOf(m);
      Times(w, LowerModule(m).insts, id) + Dropped(c.t, m.insts, 0, id)
        == Times(w, m.insts, id) + (if FirstId(m) <= id < NewBound(m) then 1 else 0) + PtrAdded(c, m.insts, 0, id)
  {
    hide Times, UnitsFrom;
    Shape.EndIsClear(m);
    StorageTimes(w, LoweringOf(m), m.insts, 0, FirstId(m), id);
    assert m.insts[0..] == m.insts;
  }

  lemma LoadsOnce(w: World, m: Module)
    requires m.Valid() && DefinedOnce(w, m.insts, m.Bound())
    ensures DefinedOnce(w, LowerModule(m).insts, LowerModule(m).Bound())
  {
    hide Times, UnitsFrom, Applies, Dropped;
    if Applies(m) {
      forall id: nat ensures Times(w, LowerModule(m).insts, id) <= 1 && (Times(w, LowerModule(m).insts, id) > 0 ==> id < NewBound(m)) {
        LoadIds(w, m, id);
      }
    }
  }

  // ---- where the units stand ----

  /** A unit of the rewrite, with the instruction it stands at. */
  ghost predicate Place(c: Lowering, insts: seq<Inst>, unit: Unit, j: nat, n: nat) {
    || (unit == Unit([], [PtrType(c)]) && c.add && c.t.ucharEnd == Some(j))
    || (j < |insts| && (Matches(c.t, insts, j) ==> n + 10 <= ID_LIMIT) && (j == 0 || !Matches(c.t, insts, j - 1)) && unit == UnitAt(c, insts, j, n))
  }

  lemma {:induction false} UnitPlace(c: Lowering, insts: seq<Inst>, k: nat, n: nat, u: nat) returns (j: nat, n': nat)
    requires n + 10 * Count(c.t, insts, k) <= ID_LIMIT && u < |UnitsFrom(c, insts, k, n)| && (k == 0 || !Matches(c.t, insts, k - 1))
    ensures k <= j <= |insts| && Place(c, insts, UnitsFrom(c, insts, k, n)[u], j, n')
    ensures Flatten(Srcs(UnitsFrom(c, insts, k, n)[..u])) == insts[k..j]
    decreases |insts| - k
  {
    hide *;
    Sound.StepPast(c, insts, k, n);
    UnitsStep(c, insts, k, n);
    CountStep(c.t, insts, k);
    var k', m, before := k + Width(c.t, insts, k), n + Fresh(c.t, insts, k), |Added(c, k)| + 1;
    if u >= before {
      j, n' := UnitPlace(c, insts, k', m, u - before);
      PrefixOf(c, insts, k, n, u, j);
    } else {
      j, n' := k, n;
      PlaceHere(c, insts, k, n, u);
    }
  }

  lemma PlaceHere(c: Lowering, insts: seq<Inst>, k: nat, n: nat, u: nat)
    requires n + 10 * Count(c.t, insts, k) <= ID_LIMIT && k < |insts| && u <= |Added(c, k)| && (k == 0 || !Matches(c.t, insts, k - 1))
    requires Matches(c.t, insts, k) ==> n + 10 <= ID_LIMIT
    requires u < |UnitsFrom(c, insts, k, n)|
    ensures Place(c, insts, UnitsFrom(c, insts, k, n)[u], k, n) && Flatten(Srcs(UnitsFrom(c, insts, k, n)[..u])) == insts[k..k]
  {
    UnitsStep(c, insts, k, n);
    AddedFlat(c, k);
    if u == 1 { assert UnitsFrom(c, insts, k, n)[..1] == Added(c, k); }
  }

  lemma PrefixOf(c: Lowering, insts: seq<Inst>, k: nat, n: nat, u: nat, j: nat)
    requires n + 10 * Count(c.t, insts, k) <= ID_LIMIT && k < |insts| && u >= |Added(c, k)| + 1 && u <= |UnitsFrom(c, insts, k, n)|
    requires var k', m := k + Width(c.t, insts, k), n + Fresh(c.t, insts, k);
      && k' <= j <= |insts| && m + 10 * Count(c.t, insts, k') <= ID_LIMIT && u - |Added(c, k)| - 1 <= |UnitsFrom(c, insts, k', m)|
      && Flatten(Srcs(UnitsFrom(c, insts, k', m)[..u - |Added(c, k)| - 1])) == insts[k'..j]
    ensures Flatten(Srcs(UnitsFrom(c, insts, k, n)[..u])) == insts[k..j]
  {
    hide *;
    var k', m := k + Width(c.t, insts, k), n + Fresh(c.t, insts, k);
    UnitsStep(c, insts, k, n);
    AddedFlat(c, k);
    SrcAt(c, insts, k, n);
    PartsPrefix(UnitsFrom(c, insts, k, n), Added(c, k), UnitAt(c, insts, k, n), UnitsFrom(c, insts, k', m), u - |Added(c, k)| - 1);
    Joined(insts, k, k', j);
  }

  lemma Joined<T>(s: seq<T>, k: nat, k': nat, j: nat)
    requires k <= k' <= j <= |s|
    ensures [] + s[k..k'] + s[k'..j] == s[k..j]
  {}

  lemma PartsPrefix(all: seq<Unit>, a: seq<Unit>, unit: Unit, rest: seq<Unit>, v: nat)
    requires all == a + [unit] + rest && v <= |rest|
    ensures |a| + 1 + v <= |all| && Flatten(Srcs(all[..|a| + 1 + v])) == Flatten(Srcs(a)) + unit.src + Flatten(Srcs(rest[..v]))
  {
    UnitsParts(a, unit, rest[..v]);
    assert all[..|a| + 1 + v] == a + [unit] + rest[..v];
  }

  lemma NotInside(c: Lowering, insts: seq<Inst>, k: nat)
    requires Shape.EndClear(c, insts) && k < |insts| && k < c.t.ucharEnd.value
    ensures k + Width(c.t, insts, k) <= c.t.ucharEnd.value
  {}

  /** The unit of the added pointer type. */
  lemma {:induction false} PtrPlace(c: Lowering, insts: seq<Inst>, k: nat, n: nat) returns (v: nat)
    requires n + 10 * Count(c.t, insts, k) <= ID_LIMIT && c.add && Shape.EndClear(c, insts) && k <= c.t.ucharEnd.value < |insts|
    ensures v < |UnitsFrom(c, insts, k, n)| && UnitsFrom(c, insts, k, n)[v] == Unit([], [PtrType(c)])
    ensures Flatten(Srcs(UnitsFrom(c, insts, k, n)[..v])) == insts[k..c.t.ucharEnd.value]
    decreases |insts| - k
  {
    hide Matches, Lowered, Flatten, Count, UnitsFrom, Fresh, Width, UnitAt, Srcs;
    var e, k', m := c.t.ucharEnd.value, k + Width(c.t, insts, k), n + Fresh(c.t, insts, k);
    assert insts[k..k] == [];
    if k < e { NotInside(c, insts, k); }
    assert Flatten(Srcs([])) == [] by { AddedFlat(Lowering(c.t, c.ptr, false), k); }
    UnitsStep(c, insts, k, n);
    CountStep(c.t, insts, k);
    if k == e {
      v := 0;
    } else {
      assert Added(c, k) == [];
      v := PtrPlace(c, insts, k', m);
      v := v + 1;
      PrefixOf(c, insts, k, n, v, e);
    }
  }

  // ---- definitions before uses ----

  /** In front of every lowered load the byte view is declared, and nothing but
      the load uses its pointer. */
  ghost predicate LoadsClean(w: World, t: Types, insts: seq<Inst>) {
    forall k :: 0 <= k < |insts| && Matches(t, insts, k) ==> LoadClean(w, insts, k)
  }

  ghost predicate LoadClean(w: World, insts: seq<Inst>, k: nat)
    requires k < |insts|
  {
    && Times(w, insts[..k], VIEW8) > 0
    && (|insts[k]| == 8 ==> forall i :: 0 <= i < |insts| && i != k + 1 ==> insts[k][2] !in Uses(w, insts[i]))
  }

  lemma GoneIs(t: Types, insts: seq<Inst>, id: nat) returns (q: nat)
    requires id in Sound.Gone(t, insts)
    ensures q < |insts| && Matches(t, insts, q) && insts[q][2] == id
  {
    q :| 0 <= q < |insts| && Matches(t, insts, q) && Sound.Pointer(insts[q]) == id;
  }

  /** Dropped pointers are no types, no constants and not the view. */
  lemma GoneApart(w: World, m: Module, id: nat)
    requires m.Valid() && DefinedOnce(w, m.insts, m.Bound()) && LoadsClean(w, TypesOf(m.insts), m.insts) && id in Sound.Gone(TypesOf(m.insts), m.insts)
    ensures !Typed(w, m.insts, id) && id != VIEW8
  {
    hide Global, Inner, Uses, Times;
    var q := GoneIs(TypesOf(m.insts), m.insts, id);
    PairInsts(w, m.insts[q], m.insts[q + 1]);
    assert LoadClean(w, m.insts, q);
    assert Times(w, m.insts, id) <= 1;
    if Typed(w, m.insts, id) {
      var j :| 0 <= j < |m.insts| && Global(Op(m.insts[j])) && ResultOf(w, m.insts[j]) == Some(id);
      OnlyOne(w, m.insts, j, q, id);
      Apart(Op(m.insts[j]));
    }
    if id == VIEW8 {
      var j := TimesFrom(w, m.insts[..q], VIEW8);
      OnlyOne(w, m.insts, j, q, id);
    }
  }

  /** No instruction but the lowered load uses a dropped pointer. */
  lemma GoneUnused(w: World, m: Module, i: nat, id: nat)
    requires m.Valid() && LoadsClean(w, TypesOf(m.insts), m.insts) && id in Sound.Gone(TypesOf(m.insts), m.insts)
    requires i < |m.insts| && (i == 0 || !Matches(TypesOf(m.insts), m.insts, i - 1))
    ensures id !in Uses(w, m.insts[i])
  {
    var q := GoneIs(TypesOf(m.insts), m.insts, id);
    assert LoadClean(w, m.insts, q);
  }

  /** The premises under which the units are looked at. */
  ghost predicate Lowerable(w: World, m: Module) {
    m.Valid() && Applies(m) && Tidy(w, m) && LoadsClean(w, TypesOf(m.insts), m.insts)
  }

  lemma TypedSafe(w: World, m: Module, id: nat)
    requires Lowerable(w, m) && BlockId(LoweringOf(m), id)
    ensures Typed(w, m.insts, id) && id !in Sound.Gone(TypesOf(m.insts), m.insts)
  {
    hide Typed, Times, DefinedFirst, Layered, LoadsClean;
    TypesFound(w, m.insts);
    if id in Sound.Gone(TypesOf(m.insts), m.insts) { GoneApart(w, m, id); }
  }

  lemma PtrDefines(w: World, c: Lowering)
    ensures ResultOf(w, PtrType(c)) == Some(c.ptr) && Uses(w, PtrType(c)) == {c.t.ucharT as nat} && Global(Op(PtrType(c)))
  {}

  /** The pointer type that a lowered load uses is in front of it. */
  lemma PtrThere(w: World, m: Module, u: nat, o: nat, j: nat)
    requires Lowerable(w, m) && u < |Units(m)| && o < |Units(m)[u].dst| && Units(m)[u].src != []
    requires j < |m.insts| && Matches(TypesOf(m.insts), m.insts, j) && Flatten(Srcs(Units(m)[..u])) == m.insts[..j]
    ensures There(w, Units(m), Sound.Gone(TypesOf(m.insts), m.insts), u, o, LoweringOf(m).ptr)
  {
    hide Typed, Times, DefinedFirst, LoadsClean, UnitsFrom, Uses, ResultOf, Matches, Inner, Global, Layered, DefinedOnce, Sound.Gone;
    var c, insts, units := LoweringOf(m), m.insts, Units(m);
    MatchInner(w, c.t, insts, j);
    if c.add {
      Shape.EndIsClear(m);
      EndBefore(m, j);
      var v := PtrPlace(c, insts, 0, FirstId(m));
      Earlier(units, v, u);
      PtrInPrefix(w, c, units, v, u);
    } else {
      TypesFound(w, insts);
      if c.ptr as nat in Sound.Gone(c.t, insts) { GoneApart(w, m, c.ptr); }
      TypedThere(w, units, Sound.Gone(c.t, insts), u, o, insts, j, c.ptr);
    }
  }

  lemma MatchInner(w: World, t: Types, insts: seq<Inst>, j: nat)
    requires Matches(t, insts, j)
    ensures j + 1 < |insts| && Inner(Op(insts[j])) && |insts[j]| == 8 && |insts[j + 1]| == 4
    ensures Op(insts[j]) == ACCESS_CHAIN && Op(insts[j + 1]) == LOAD
  {}

  /** The 8-bit type ends before any body instruction. */
  lemma EndBefore(m: Module, j: nat)
    requires m.Valid() && Applies(m) && Layered(m.insts) && j < |m.insts| && Inner(Op(m.insts[j]))
    ensures LoweringOf(m).t.ucharEnd.Some? && 0 < LoweringOf(m).t.ucharEnd.value <= j
    ensures Op(m.insts[LoweringOf(m).t.ucharEnd.value - 1]) == TYPE_INT
    ensures m.insts[LoweringOf(m).t.ucharEnd.value - 1][1..] != [] && m.insts[LoweringOf(m).t.ucharEnd.value - 1][1] == LoweringOf(m).t.ucharT
  {
    var k := FunctionAt(m.insts);
    EndType(m.insts[..k]);
    var e := TypesOf(m.insts).ucharEnd.value;
    assert m.insts[e - 1] == m.insts[..k][e - 1];
    assert Global(Op(m.insts[e - 1]));
    Apart(Op(m.insts[e - 1]));
  }

  lemma {:induction false} EndType(insts: seq<Inst>)
    ensures Scan(insts).ucharEnd.Some? ==>
      0 < Scan(insts).ucharEnd.value <= |insts| && IsInt(insts[Scan(insts).ucharEnd.value - 1], 8)
      && insts[Scan(insts).ucharEnd.value - 1][1] == Scan(insts).ucharT
  {
    if insts != [] { EndType(insts[..|insts| - 1]); }
  }

  /** A unit with a source whose prefix is no shorter comes later. */
  lemma Earlier(units: seq<Unit>, v: nat, u: nat)
    requires v < |units| && u < |units| && units[v].src == [] && units[u].src != []
    requires |Flatten(Srcs(units[..v]))| <= |Flatten(Srcs(units[..u]))|
    ensures v < u
  {
    if u < v { PrefixGrows(units, u, v); }
  }

  lemma PrefixGrows(units: seq<Unit>, u: nat, v: nat)
    requires u < v <= |units|
    ensures |Flatten(Srcs(units[..v]))| >= |Flatten(Srcs(units[..u]))| + |units[u].src|
  {
    Parts(units[..v], u);
    assert units[..v][..u] == units[..u];
  }

  lemma PtrInPrefix(w: World, c: Lowering, units: seq<Unit>, v: nat, u: nat)
    requires v < u < |units| && units[v] == Unit([], [PtrType(c)])
    ensures Times(w, Flatten(Dsts(units[..u])), c.ptr) > 0
  {
    hide Times, ResultOf;
    PtrDefines(w, c);
    Parts(units[..u], v);
    assert units[..u][..v] == units[..v];
    TimesOne(w, PtrType(c), c.ptr);
    TimesAppend(w, Flatten(Dsts(units[..v])) + [PtrType(c)], Flatten(Dsts(units[..u][v + 1..])), c.ptr);
    TimesAppend(w, Flatten(Dsts(units[..v])), [PtrType(c)], c.ptr);
  }

  /** What an instruction of a lowered load needs is there. */
  lemma BlockThere(w: World, m: Module, u: nat, o: nat, j: nat, n: nat, id: nat)
    requires Lowerable(w, m) && u < |Units(m)| && j < |m.insts| && Matches(TypesOf(m.insts), m.insts, j) && n + 10 <= ID_LIMIT
    requires Flatten(Srcs(Units(m)[..u])) == m.insts[..j] && (j == 0 || !Matches(TypesOf(m.insts), m.insts, j - 1))
    requires Units(m)[u] == Unit([m.insts[j], m.insts[j + 1]], Lowered(LoweringOf(m), m.insts[j], m.insts[j + 1], n)) && o < 11
    requires id in Uses(w, Units(m)[u].dst[o])
    ensures There(w, Units(m), Sound.Gone(TypesOf(m.insts), m.insts), u, o, id)
  {
    hide Typed, Times, DefinedFirst, LoadsClean, Units, Uses, ResultOf, Matches, Inner, Global, Layered, DefinedOnce, Sound.Gone, There, Lowered;
    var c, insts, units, gone := LoweringOf(m), m.insts, Units(m), Sound.Gone(TypesOf(m.insts), m.insts);
    MatchInner(w, c.t, insts, j);
    BlockInst(w, c, insts[j], insts[j + 1], n, o);
    if BlockId(c, id) {
      TypedSafe(w, m, id);
      TypedThere(w, units, gone, u, o, insts, j, id);
    } else if id == c.ptr {
      PtrThere(w, m, u, o, j);
    } else if id == VIEW8 {
      ViewThere(w, m, u, o, j);
    } else if Operand(insts[j], id) {
      PairInsts(w, insts[j], insts[j + 1]);
      if id in gone { GoneUnused(w, m, j, id); }
      NeededThere(w, units, gone, u, o, id);
    } else {
      BlockInst(w, c, insts[j], insts[j + 1], n, id - n);
      OwnThere(w, units, gone, u, id - n, o, id);
    }
  }

  lemma ViewThere(w: World, m: Module, u: nat, o: nat, j: nat)
    requires Lowerable(w, m) && u < |Units(m)| && o < |Units(m)[u].dst| && j < |m.insts| && Matches(TypesOf(m.insts), m.insts, j)
    requires Flatten(Srcs(Units(m)[..u])) == m.insts[..j]
    ensures There(w, Units(m), Sound.Gone(TypesOf(m.insts), m.insts), u, o, VIEW8)
  {
    hide Times, DefinedFirst, UnitsFrom, Uses, ResultOf, Matches, Sound.Gone;
    assert LoadClean(w, m.insts, j);
    if VIEW8 as nat in Sound.Gone(TypesOf(m.insts), m.insts) { GoneApart(w, m, VIEW8); }
  }

  lemma StorageUnit(w: World, m: Module, u: nat)
    requires Lowerable(w, m) && u < |Units(m)|
    ensures var units, gone := Units(m), Sound.Gone(TypesOf(m.insts), m.insts);
      Flatten(Srcs(units)) == m.insts && Keeps(w, units[u], gone) && Grounded(w, units, gone, u) && LayerKept(units, u)
  {
    hide Typed, Times, DefinedFirst, LoadsClean, UnitsFrom, Uses, ResultOf, Matches, Inner, Global, Sound.Gone, There, Lowered, Keeps, Grounded, LayerKept, Stays, Layered;
    var c, insts, units, gone := LoweringOf(m), m.insts, Units(m), Sound.Gone(TypesOf(m.insts), m.insts);
    UnitsSrcs(c, insts, 0, FirstId(m));
    assert insts[0..] == insts;
    var j, n := UnitPlace(c, insts, 0, FirstId(m), u);
    assert insts[0..j] == insts[..j];
    if units[u] == Unit([], [PtrType(c)]) && c.add && c.t.ucharEnd == Some(j) {
      PtrGrounded(w, m, u, j);
    } else if Matches(c.t, insts, j) {
      BlockGrounded(w, m, u, j, n);
    } else {
      CopyStays(w, units[u]);
      forall id | id in gone ensures id !in Uses(w, insts[j]) { GoneUnused(w, m, j, id); }
      StaysSound(w, units, gone, u);
    }
  }

  lemma PtrGrounded(w: World, m: Module, u: nat, j: nat)
    requires Lowerable(w, m) && u < |Units(m)| && Units(m)[u] == Unit([], [PtrType(LoweringOf(m))])
    requires LoweringOf(m).t.ucharEnd == Some(j) && j <= |m.insts| && Flatten(Srcs(Units(m)[..u])) == m.insts[..j]
    ensures var units, gone := Units(m), Sound.Gone(TypesOf(m.insts), m.insts);
      Keeps(w, units[u], gone) && Grounded(w, units, gone, u) && LayerKept(units, u)
  {
    hide Typed, Times, DefinedFirst, LoadsClean, Units, Uses, ResultOf, Matches, Inner, Global, Sound.Gone;
    var c, insts, units, gone := LoweringOf(m), m.insts, Units(m), Sound.Gone(TypesOf(m.insts), m.insts);
    PtrDefines(w, c);
    TypedSafe(w, m, c.t.ucharT);
    UcharInPrefix(w, m, j);
    forall o, id | 0 <= o < |units[u].dst| && id in Uses(w, units[u].dst[o]) ensures There(w, units, gone, u, o, id) {
      assert id == c.t.ucharT;
    }
    NoTimes(w);
    Apart(Op(PtrType(c)));
  }

  lemma UcharInPrefix(w: World, m: Module, j: nat)
    requires m.Valid() && Applies(m) && Layered(m.insts) && LoweringOf(m).t.ucharEnd == Some(j) && j <= |m.insts|
    ensures Times(w, m.insts[..j], LoweringOf(m).t.ucharT) > 0 && !HasInner(m.insts[..j])
  {
    hide Times, Layered, Inner;
    var k := FunctionAt(m.insts);
    EndType(m.insts[..k]);
    assert m.insts[j - 1] == m.insts[..k][j - 1];
    UcharType(w, m.insts[j - 1]);
    TimesBefore(w, m.insts, j - 1, j, LoweringOf(m).t.ucharT);
    LayerPrefix(m.insts, j);
  }

  lemma UcharType(w: World, inst: Inst)
    requires IsInt(inst, 8)
    ensures ResultOf(w, inst) == Some(inst[1]) && Global(Op(inst))
  {}

  lemma LayerPrefix(insts: seq<Inst>, j: nat)
    requires Layered(insts) && 0 < j <= |insts| && Global(Op(insts[j - 1]))
    ensures !HasInner(insts[..j])
  {
    hide Inner, Global;
    Apart(Op(insts[j - 1]));
    forall i | 0 <= i < j ensures !Inner(Op(insts[..j][i])) { assert insts[..j][i] == insts[i]; }
  }

  lemma BlockGrounded(w: World, m: Module, u: nat, j: nat, n: nat)
    requires Lowerable(w, m) && u < |Units(m)| && j < |m.insts| && Matches(TypesOf(m.insts), m.insts, j) && n + 10 <= ID_LIMIT
    requires Flatten(Srcs(Units(m)[..u])) == m.insts[..j] && (j == 0 || !Matches(TypesOf(m.insts), m.insts, j - 1))
    requires Units(m)[u] == Unit([m.insts[j], m.insts[j + 1]], Lowered(LoweringOf(m), m.insts[j], m.insts[j + 1], n))
    ensures var units, gone := Units(m), Sound.Gone(TypesOf(m.insts), m.insts);
      Keeps(w, units[u], gone) && Grounded(w, units, gone, u) && LayerKept(units, u)
  {
    hide Typed, Times, DefinedFirst, LoadsClean, Units, Uses, ResultOf, Matches, Inner, Global, Sound.Gone, There, Lowered, Tidy;
    var c, insts, units, gone := LoweringOf(m), m.insts, Units(m), Sound.Gone(TypesOf(m.insts), m.insts);
    MatchInner(w, c.t, insts, j);
    forall o, id | 0 <= o < |units[u].dst| && id in Uses(w, units[u].dst[o]) ensures There(w, units, gone, u, o, id) { BlockThere(w, m, u, o, j, n, id); }
    forall id | Times(w, units[u].src, id) > 0 && id !in gone ensures Times(w, units[u].dst, id) > 0 {
      PairTimes(w, insts[j], insts[j + 1], id);
      BlockTimes(w, c, insts[j], insts[j + 1], n, id);
      PointerGone(c.t, insts, j);
    }
    forall o | 0 <= o < 11 ensures !Global(Op(units[u].dst[o])) { BlockInst(w, c, insts[j], insts[j + 1], n, o); }
    assert Inner(Op(units[u].src[0]));
  }

  lemma PointerGone(t: Types, insts: seq<Inst>, j: nat)
    requires j < |insts| && Matches(t, insts, j)
    ensures insts[j][2] as nat in Sound.Gone(t, insts)
  {
    assert Sound.Pointer(insts[j]) in Sound.Gone(t, insts);
  }

  lemma LoadSources(m: Module)
    requires m.Valid() && Applies(m)
    ensures Flatten(Srcs(Units(m))) == m.insts
  {
    UnitsSrcs(LoweringOf(m), m.insts, 0, FirstId(m));
    assert m.insts[0..] == m.insts;
  }

  /** Stage 3 keeps a stream tidy. */
  lemma LoadsTidy(w: World, m: Module)
    requires m.Valid() && Tidy(w, m) && (Applies(m) ==> LoadsClean(w, TypesOf(m.insts), m.insts))
    ensures Tidy(w, LowerModule(m))
  {
    hide Times, DefinedFirst, LoadsClean, UnitsFrom, Applies, Layered, Keeps, Grounded, LayerKept, DefinedOnce, Sound.Gone;
    LoadsOnce(w, m);
    if Applies(m) {
      var units, gone := Units(m), Sound.Gone(TypesOf(m.insts), m.insts);
      forall u | 0 <= u < |units| ensures Keeps(w, units[u], gone) && Grounded(w, units, gone, u) && LayerKept(units, u) { StorageUnit(w, m, u); }
      LoadSources(m);
      UnitsDefined(w, units, gone);
      UnitsLayered(units);
    }
  }
}
