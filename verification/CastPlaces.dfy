/** Which bitcasts stage 4 lowers and when, read off the instructions. */
module CastPlaces {
  import opened Words
  import opened Ops
  import opened Machine
  import opened Translation
  import opened Meaning
  import opened Latest
  import S = Bitcasts

  datatype Ids = Ids(word: Word, byte: Word, quad: Word, eight: Word, sixteen: Word, twentyFour: Word)

  /** Each is the latest of its kind in the module. */
  ghost predicate Declared(insts: seq<Inst>, ids: Ids) {
    && Remembers(insts, Unsigned(32), 1, ids.word) && Remembers(insts, Unsigned(8), 1, ids.byte) && Remembers(insts, Quad(), 1, ids.quad)
    && Remembers(insts, Number(8), 2, ids.eight) && Remembers(insts, Number(16), 2, ids.sixteen) && Remembers(insts, Number(24), 2, ids.twentyFour)
  }

  function IdsOf(t: S.Types): Ids { Ids(t.uintT, t.ucharT, t.quadT, t.eight, t.sixteen, t.twentyFour) }

  lemma {:induction false} ScanDeclares(insts: seq<Inst>)
    ensures Declared(insts, IdsOf(S.Scan(insts)))
  {
    hide Remembers;
    if insts == [] {
      NothingDeclared();
    } else {
      var front, inst := insts[..|insts| - 1], insts[|insts| - 1];
      var t := S.Scan(front);
      ScanDeclares(front);
      assert insts == front + [inst];
      UnsignedNext(front, inst, 32, t.uintT);
      UnsignedNext(front, inst, 8, t.ucharT);
      QuadNext(front, inst, t.ucharT, t.quadT);
      NumberNext(front, inst, 8, t.uintT, t.eight);
      NumberNext(front, inst, 16, t.uintT, t.sixteen);
      NumberNext(front, inst, 24, t.uintT, t.twentyFour);
      SeeFields(t, inst);
    }
  }

  lemma NothingDeclared()
    ensures Declared([], IdsOf(S.Scan([])))
  {
    RemembersNone(Unsigned(32), 1);
    RemembersNone(Unsigned(8), 1);
    RemembersNone(Quad(), 1);
    RemembersNone(Number(8), 2);
    RemembersNone(Number(16), 2);
    RemembersNone(Number(24), 2);
  }

  predicate IsCount(inst: Inst, type_: Word, v: Word) { Op(inst) == CONSTANT && |inst| >= 4 && type_ != 0 && inst[1] == type_ && inst[3] == v }

  lemma SeeFields(t: S.Types, inst: Inst)
    ensures var s := S.See(t, inst);
      && s.uintT == (if IsInt(inst, 32) then inst[1] else t.uintT)
      && s.ucharT == (if IsInt(inst, 8) then inst[1] else t.ucharT)
      && s.quadT == (if Op(inst) == TYPE_VECTOR && |inst| >= 4 && t.ucharT != 0 && inst[2] == t.ucharT && inst[3] == 4 then inst[1] else t.quadT)
      && s.eight == (if IsCount(inst, t.uintT, 8) then inst[2] else t.eight)
      && s.sixteen == (if IsCount(inst, t.uintT, 16) then inst[2] else t.sixteen)
      && s.twentyFour == (if IsCount(inst, t.uintT, 24) then inst[2] else t.twentyFour)
  {}

  /** A bitcast to the vector of four bytes. */
  predicate CastTo(ids: Ids, inst: Inst) { Op(inst) == BITCAST && |inst| == 4 && inst[1] == ids.quad }

  function Casts(ids: Ids, insts: seq<Inst>, from: nat): set<nat> { set k: nat | from <= k < |insts| && CastTo(ids, insts[k]) }

  lemma {:induction false} CountCasts(t: S.Types, insts: seq<Inst>, from: nat)
    requires from <= |insts|
    ensures S.Count(t, insts[from..]) == |Casts(IdsOf(t), insts, from)|
    decreases |insts| - from
  {
    hide CastTo, S.Matches;
    if from < |insts| {
      CountCasts(t, insts, from + 1);
      assert insts[from..][1..] == insts[from + 1..];
      FirstIs(t, insts[from]);
      assert Casts(IdsOf(t), insts, from) == Casts(IdsOf(t), insts, from + 1) + if CastTo(IdsOf(t), insts[from]) then {from} else {};
    }
  }

  lemma FirstIs(t: S.Types, inst: Inst)
    ensures S.Matches(t, inst) == CastTo(IdsOf(t), inst)
  {}

  /** The stage changes a module exactly if it has the types and constants and 1 to
      256 bitcasts; then it fails exactly if seven ids a bitcast are too many. */
  lemma LowersIff(m: Module, ids: Ids)
    requires |m.header| == HEADER && Declared(m.insts, ids)
    ensures S.Applies(m) <==>
      && m.header[0] == MAGIC
      && ids.word != 0 && ids.byte != 0 && ids.quad != 0 && ids.eight != 0 && ids.sixteen != 0 && ids.twentyFour != 0
      && 1 <= |Casts(ids, m.insts, 0)| <= 256
    ensures S.LowerModule(m).Err? <==> S.Applies(m) && m.Bound() + 7 * |Casts(ids, m.insts, 0)| >= WORD
  {
    hide Remembers, Casts, S.Scan;
    ScanDeclares(m.insts);
    DeclaredOne(m.insts, ids, IdsOf(S.Scan(m.insts)));
    CountCasts(S.Scan(m.insts), m.insts, 0);
    assert m.insts[0..] == m.insts;
  }

  lemma DeclaredOne(insts: seq<Inst>, a: Ids, b: Ids)
    requires Declared(insts, a) && Declared(insts, b)
    ensures a == b
  {
    hide Remembers;
    RemembersOne(insts, Unsigned(32), 1, a.word, b.word);
    RemembersOne(insts, Unsigned(8), 1, a.byte, b.byte);
    RemembersOne(insts, Quad(), 1, a.quad, b.quad);
    RemembersOne(insts, Number(8), 2, a.eight, b.eight);
    RemembersOne(insts, Number(16), 2, a.sixteen, b.sixteen);
    RemembersOne(insts, Number(24), 2, a.twentyFour, b.twentyFour);
  }

  // ---- none is left ----

  ghost predicate NoCast(ids: Ids, insts: seq<Inst>) { forall inst :: inst in insts ==> !CastTo(ids, inst) }

  lemma UnitNoCast(t: S.Types, inst: Inst, n: nat)
    requires S.Matches(t, inst) ==> n + 7 <= WORD
    ensures NoCast(IdsOf(t), S.UnitOf(t, inst, n).dst)
  {
    hide S.LoweredInst;
    if S.Matches(t, inst) {
      var block := S.Lowered(t, inst, n);
      forall i | 0 <= i < 8 ensures !CastTo(IdsOf(t), block[i]) { LoweredOps(t, inst, n, i); }
    }
  }

  lemma LoweredOps(t: S.Types, inst: Inst, n: nat, i: nat)
    requires |inst| == 4 && n + 7 <= WORD && i < 8
    ensures Op(S.LoweredInst(t, inst, n, i)) != BITCAST
  {}

  lemma {:induction false} OutNoCast(t: S.Types, insts: seq<Inst>, n: nat)
    requires n + 7 * S.Count(t, insts) <= WORD
    ensures NoCast(IdsOf(t), Flatten(Dsts(S.UnitsFrom(t, insts, n))))
    decreases |insts|
  {
    hide S.UnitOf, CastTo, S.Matches;
    if insts != [] {
      S.UnitsStep(t, insts, n);
      OutNoCast(t, insts[1..], n + S.Fresh(t, insts[0]));
      UnitNoCast(t, insts[0], n);
      var rest := S.UnitsFrom(t, insts[1..], n + S.Fresh(t, insts[0]));
      UnitsParts([], S.UnitOf(t, insts[0], n), rest);
      assert S.UnitsFrom(t, insts, n) == [] + [S.UnitOf(t, insts[0], n)] + rest;
      NoneFlat();
    }
  }

  lemma NoneFlat()
    ensures Flatten(Dsts([])) == []
  {}

  lemma NoneLeft(m: Module, ids: Ids)
    requires |m.header| == HEADER && Declared(m.insts, ids) && S.Applies(m) && S.LowerModule(m).Ok?
    ensures NoCast(ids, S.LowerModule(m).value.insts)
  {
    hide Remembers, S.Scan;
    ScanDeclares(m.insts);
    DeclaredOne(m.insts, ids, IdsOf(S.Scan(m.insts)));
    OutNoCast(S.Scan(m.insts), m.insts, m.Bound());
  }
}
