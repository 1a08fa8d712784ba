/** Which loads stage 3 lowers and when, read off the instructions. */
module LoadPlaces {
  import opened Words
  import opened Ops
  import opened Machine
  import opened Translation
  import opened Meaning
  import opened Latest
  import S = Storage16

  /** The ids that the declarations must have; `pointer8` is 0 where there is none. */
  datatype Ids = Ids(word: Word, byte: Word, short: Word, pointer16: Word, pointer8: Word, one: Word, two: Word, eight: Word)

  /** Each is the latest of its kind among the declarations in front of the first
      function. */
  ghost predicate Declared(insts: seq<Inst>, ids: Ids) {
    && Remembers(insts, Unsigned(32), 1, ids.word) && Remembers(insts, Unsigned(8), 1, ids.byte) && Remembers(insts, Unsigned(16), 1, ids.short)
    && Remembers(insts, Pointer(16), 1, ids.pointer16) && Remembers(insts, Pointer(8), 1, ids.pointer8)
    && Remembers(insts, Number(1), 2, ids.one) && Remembers(insts, Number(2), 2, ids.two) && Remembers(insts, Number(8), 2, ids.eight)
  }

  /** What stands in front of the first function. */
  ghost predicate HeadIs(insts: seq<Inst>, n: nat) {
    n <= |insts| && (forall i :: 0 <= i < n ==> Op(insts[i]) != FUNCTION) && (n < |insts| ==> Op(insts[n]) == FUNCTION)
  }

  function IdsOf(t: S.Types): Ids { Ids(t.uintT, t.ucharT, t.ushortT, t.ptrUshort, t.ptrUchar, t.one, t.two, t.eight) }

  lemma {:induction false} ScanDeclares(insts: seq<Inst>)
    ensures Declared(insts, IdsOf(S.Scan(insts)))
    ensures S.Scan(insts).ucharT != 0 ==> S.Scan(insts).ucharEnd.Some?
  {
    hide Remembers;
    if insts == [] {
      NothingDeclared();
    } else {
      var front, inst := insts[..|insts| - 1], insts[|insts| - 1];
      var t := S.Scan(front);
      ScanDeclares(front);
      assert insts == front + [inst];
      UnsignedNext(front, inst, 32, t.uintT);
      UnsignedNext(front, inst, 8, t.ucharT);
      UnsignedNext(front, inst, 16, t.ushortT);
      PointerNext(front, inst, 16, t.ushortT, t.ptrUshort);
      PointerNext(front, inst, 8, t.ucharT, t.ptrUchar);
      NumberNext(front, inst, 1, t.uintT, t.one);
      NumberNext(front, inst, 2, t.uintT, t.two);
      NumberNext(front, inst, 8, t.uintT, t.eight);
      SeeFields(t, inst, |insts|);
    }
  }

  lemma NothingDeclared()
    ensures Declared([], IdsOf(S.Scan([])))
  {
    RemembersNone(Unsigned(32), 1);
    RemembersNone(Unsigned(8), 1);
    RemembersNone(Unsigned(16), 1);
    RemembersNone(Pointer(16), 1);
    RemembersNone(Pointer(8), 1);
    RemembersNone(Number(1), 2);
    RemembersNone(Number(2), 2);
    RemembersNone(Number(8), 2);
  }

  predicate IsCount(inst: Inst, type_: Word, v: Word) { Op(inst) == CONSTANT && |inst| >= 4 && type_ != 0 && inst[1] == type_ && inst[3] == v }

  predicate IsPointer(inst: Inst, type_: Word) {
    Op(inst) == TYPE_POINTER && |inst| >= 4 && inst[2] == STORAGE_BUFFER && type_ != 0 && inst[3] == type_
  }

  lemma SeeFields(t: S.Types, inst: Inst, end: nat)
    ensures var s := S.See(t, inst, end);
      && s.uintT == (if IsInt(inst, 32) then inst[1] else t.uintT)
      && s.ucharT == (if IsInt(inst, 8) then inst[1] else t.ucharT)
      && s.ushortT == (if IsInt(inst, 16) then inst[1] else t.ushortT)
      && s.ptrUshort == (if IsPointer(inst, t.ushortT) then inst[1] else t.ptrUshort)
      && s.ptrUchar == (if IsPointer(inst, t.ucharT) then inst[1] else t.ptrUchar)
      && s.one == (if IsCount(inst, t.uintT, 1) then inst[2] else t.one)
      && s.two == (if IsCount(inst, t.uintT, 2) then inst[2] else t.two)
      && s.eight == (if IsCount(inst, t.uintT, 8) then inst[2] else t.eight)
      && s.ucharEnd == (if IsInt(inst, 8) then Some(end) else t.ucharEnd)
  {}

  /** An access chain into %371 and, directly behind it, the load of its result. */
  predicate PairAt(ids: Ids, insts: seq<Inst>, k: nat) {
    && k + 1 < |insts|
    && Op(insts[k]) == ACCESS_CHAIN && |insts[k]| == 8 && insts[k][1] == ids.pointer16 && insts[k][3] == 371
    && Op(insts[k + 1]) == LOAD && |insts[k + 1]| == 4 && insts[k + 1][1] == ids.short && insts[k + 1][3] == insts[k][2]
  }

  function Pairs(ids: Ids, insts: seq<Inst>, from: nat): set<nat> { set k: nat | from <= k < |insts| && PairAt(ids, insts, k) }

  lemma {:induction false} CountPairs(t: S.Types, insts: seq<Inst>, k: nat)
    ensures S.Count(t, insts, k) == |Pairs(IdsOf(t), insts, k)|
    decreases |insts| - k
  {
    if k < |insts| {
      CountPairs(t, insts, k + 1);
      assert S.Matches(t, insts, k) == PairAt(IdsOf(t), insts, k);
      assert Pairs(IdsOf(t), insts, k) == Pairs(IdsOf(t), insts, k + 1) + if PairAt(IdsOf(t), insts, k) then {k} else {};
    }
  }

  /** The stage changes a module exactly if: its bound is above 371 and at most
      65536, it has the types and constants, 1 to 256 pairs, and room for ten ids a
      pair, and one for the pointer type if that is missing. */
  lemma LowersIff(m: Module, n: nat, ids: Ids)
    requires |m.header| == HEADER && HeadIs(m.insts, n) && Declared(m.insts[..n], ids)
    ensures S.Applies(m) <==>
      && m.header[0] == MAGIC && 371 < m.Bound() <= 65536
      && ids.word != 0 && ids.byte != 0 && ids.short != 0 && ids.pointer16 != 0 && ids.one != 0 && ids.two != 0 && ids.eight != 0
      && 1 <= |Pairs(ids, m.insts, 0)| <= 256
      && m.Bound() + (if ids.pointer8 == 0 then 1 else 0) + 10 * |Pairs(ids, m.insts, 0)| <= 65536
  {
    hide Remembers, Pairs, S.Scan;
    var t := S.TypesOf(m.insts);
    HeadOne(m.insts, n);
    ScanDeclares(m.insts[..n]);
    DeclaredOne(m.insts[..n], ids, IdsOf(t));
    CountPairs(t, m.insts, 0);
  }

  lemma HeadOne(insts: seq<Inst>, n: nat)
    requires HeadIs(insts, n)
    ensures n == S.FunctionAt(insts)
  {}

  lemma DeclaredOne(insts: seq<Inst>, a: Ids, b: Ids)
    requires Declared(insts, a) && Declared(insts, b)
    ensures a == b
  {
    hide Remembers;
    RemembersOne(insts, Unsigned(32), 1, a.word, b.word);
    RemembersOne(insts, Unsigned(8), 1, a.byte, b.byte);
    RemembersOne(insts, Unsigned(16), 1, a.short, b.short);
    RemembersOne(insts, Pointer(16), 1, a.pointer16, b.pointer16);
    RemembersOne(insts, Pointer(8), 1, a.pointer8, b.pointer8);
    RemembersOne(insts, Number(1), 2, a.one, b.one);
    RemembersOne(insts, Number(2), 2, a.two, b.two);
    RemembersOne(insts, Number(8), 2, a.eight, b.eight);
  }

  // ---- no pair is left ----

  ghost predicate NoPair(ids: Ids, insts: seq<Inst>) { forall k: nat :: !PairAt(ids, insts, k) }

  predicate PairOf(ids: Ids, chain: Inst, load: Inst) {
    && Op(chain) == ACCESS_CHAIN && |chain| == 8 && chain[1] == ids.pointer16 && chain[3] == 371
    && Op(load) == LOAD && |load| == 4 && load[1] == ids.short && load[3] == chain[2]
  }

  lemma NoPairJoin(ids: Ids, a: seq<Inst>, b: seq<Inst>)
    requires NoPair(ids, a) && NoPair(ids, b)
    requires a != [] && b != [] ==> !PairOf(ids, a[|a| - 1], b[0])
    ensures NoPair(ids, a + b)
  {
    hide PairOf;
    forall k: nat ensures !PairAt(ids, a + b, k) {
      PairIs(ids, a + b, k);
      if k + 1 < |a| { PairIs(ids, a, k); assert !PairAt(ids, a, k); }
      else if |a| <= k && k + 1 < |a + b| { PairIs(ids, b, k - |a|); assert !PairAt(ids, b, k - |a|); }
    }
  }

  lemma PairIs(ids: Ids, insts: seq<Inst>, k: nat)
    ensures PairAt(ids, insts, k) <==> k + 1 < |insts| && PairOf(ids, insts[k], insts[k + 1])
  {}

  ghost function Out(c: S.Lowering, insts: seq<Inst>, k: nat, n: nat): seq<Inst>
    requires n + 10 * S.Count(c.t, insts, k) <= S.ID_LIMIT
  {
    Flatten(Dsts(S.UnitsFrom(c, insts, k, n)))
  }

  lemma OutStep(c: S.Lowering, insts: seq<Inst>, k: nat, n: nat)
    requires n + 10 * S.Count(c.t, insts, k) <= S.ID_LIMIT && k < |insts|
    ensures S.Matches(c.t, insts, k) ==> n + 10 <= S.ID_LIMIT
    ensures var k', n' := k + S.Width(c.t, insts, k), n + S.Fresh(c.t, insts, k);
      && k' <= |insts| && n' + 10 * S.Count(c.t, insts, k') <= S.ID_LIMIT
      && Out(c, insts, k, n) == Flatten(Dsts(S.Added(c, k))) + S.UnitAt(c, insts, k, n).dst + Out(c, insts, k', n')
  {
    hide S.UnitAt, S.Added, Flatten, S.UnitsFrom, S.Matches, S.Count;
    S.UnitsStep(c, insts, k, n);
    UnitsParts(S.Added(c, k), S.UnitAt(c, insts, k, n), S.UnitsFrom(c, insts, k + S.Width(c.t, insts, k), n + S.Fresh(c.t, insts, k)));
  }

  lemma UnitNoPair(c: S.Lowering, insts: seq<Inst>, k: nat, n: nat)
    requires k < |insts| && (S.Matches(c.t, insts, k) ==> n + 10 <= S.ID_LIMIT)
    ensures var dst := S.UnitAt(c, insts, k, n).dst;
      && NoPair(IdsOf(c.t), dst) && dst != []
      && (S.Matches(c.t, insts, k) ==> Op(dst[0]) != LOAD && Op(dst[|dst| - 1]) != ACCESS_CHAIN)
      && (!S.Matches(c.t, insts, k) ==> dst == [insts[k]])
  {
    hide S.Matches, S.LoweredInst;
    if S.Matches(c.t, insts, k) {
      assert |insts[k]| == 8 && |insts[k + 1]| == 4 by { MatchLengths(c.t, insts, k); }
      var block := S.Lowered(c, insts[k], insts[k + 1], n);
      forall i | 0 <= i < 11
        ensures var x := block[i];
          (Op(x) == ACCESS_CHAIN ==> |x| >= 4 && x[3] != 371) && (i == 0 ==> Op(x) != LOAD) && (i == 10 ==> Op(x) != ACCESS_CHAIN)
      {
        LoweredOps(c, insts[k], insts[k + 1], n, i);
      }
    }
  }

  lemma MatchLengths(t: S.Types, insts: seq<Inst>, k: nat)
    requires S.Matches(t, insts, k)
    ensures k + 1 < |insts| && |insts[k]| == 8 && |insts[k + 1]| == 4
  {}

  lemma LoweredOps(c: S.Lowering, chain: Inst, load: Inst, n: nat, i: nat)
    requires |chain| == 8 && |load| == 4 && n + 10 <= S.ID_LIMIT && i < 11
    ensures var x := S.LoweredInst(c, chain, load, n, i);
      (Op(x) == ACCESS_CHAIN ==> |x| >= 4 && x[3] != 371) && (i == 0 ==> Op(x) != LOAD) && (i == 10 ==> Op(x) != ACCESS_CHAIN)
  {}

  lemma AddedNoPair(c: S.Lowering, k: nat)
    ensures var x := Flatten(Dsts(S.Added(c, k)));
      NoPair(IdsOf(c.t), x) && (x != [] ==> Op(x[0]) != LOAD && Op(x[|x| - 1]) != ACCESS_CHAIN)
  {
    S.AddedFlat(c, k);
  }

  lemma FirstOf(c: S.Lowering, insts: seq<Inst>, k: nat, n: nat)
    requires n + 10 * S.Count(c.t, insts, k) <= S.ID_LIMIT && Out(c, insts, k, n) != [] && Op(Out(c, insts, k, n)[0]) == LOAD
    ensures k < |insts| && Out(c, insts, k, n)[0] == insts[k]
  {
    hide Out, S.UnitAt, S.Added, S.Matches, S.Count, Flatten;
    if k < |insts| {
      OutStep(c, insts, k, n);
      AddedNoPair(c, k);
      UnitNoPair(c, insts, k, n);
    } else {
      OutEnd(c, insts, k, n);
    }
  }

  lemma OutEnd(c: S.Lowering, insts: seq<Inst>, k: nat, n: nat)
    requires n + 10 * S.Count(c.t, insts, k) <= S.ID_LIMIT && k >= |insts|
    ensures Out(c, insts, k, n) == []
  {}

  lemma {:induction false} OutNoPair(c: S.Lowering, insts: seq<Inst>, k: nat, n: nat)
    requires n + 10 * S.Count(c.t, insts, k) <= S.ID_LIMIT
    ensures NoPair(IdsOf(c.t), Out(c, insts, k, n))
    decreases |insts| - k
  {
    hide Out, S.UnitAt, S.Added, S.Count, Flatten, NoPair, S.Matches;
    if k < |insts| {
      var k', n' := k + S.Width(c.t, insts, k), n + S.Fresh(c.t, insts, k);
      OutStep(c, insts, k, n);
      OutNoPair(c, insts, k', n');
      AddedNoPair(c, k);
      UnitNoPair(c, insts, k, n);
      var x, y, z := Flatten(Dsts(S.Added(c, k))), S.UnitAt(c, insts, k, n).dst, Out(c, insts, k', n');
      if z != [] && Op(z[0]) == LOAD { FirstOf(c, insts, k', n'); }
      if z != [] { UnitEnds(c, insts, k, y, z); }
      NoPairJoin(IdsOf(c.t), y, z);
      NoPairJoin(IdsOf(c.t), x, y + z);
      assert x + (y + z) == x + y + z;
    } else {
      OutEnd(c, insts, k, n);
      NoPairNone(IdsOf(c.t));
    }
  }

  lemma UnitEnds(c: S.Lowering, insts: seq<Inst>, k: nat, y: seq<Inst>, z: seq<Inst>)
    requires k < |insts| && y != [] && z != []
    requires S.Matches(c.t, insts, k) ==> Op(y[|y| - 1]) != ACCESS_CHAIN
    requires !S.Matches(c.t, insts, k) ==> y == [insts[k]] && (Op(z[0]) == LOAD ==> k + 1 < |insts| && z[0] == insts[k + 1])
    ensures !PairOf(IdsOf(c.t), y[|y| - 1], z[0])
  {}

  lemma NoPairNone(ids: Ids)
    ensures NoPair(ids, [])
  {}

  /** No pair is left where the stage applies; the only new pointer type is there
      if none was. */
  lemma NoneLeft(m: Module, n: nat, ids: Ids)
    requires |m.header| == HEADER && HeadIs(m.insts, n) && Declared(m.insts[..n], ids) && S.Applies(m)
    ensures NoPair(ids, S.LowerModule(m).insts)
  {
    hide Remembers, S.Scan;
    var t := S.TypesOf(m.insts);
    HeadOne(m.insts, n);
    ScanDeclares(m.insts[..n]);
    DeclaredOne(m.insts[..n], ids, IdsOf(t));
    OutNoPair(S.LoweringOf(m), m.insts, 0, S.FirstId(m));
  }
}
