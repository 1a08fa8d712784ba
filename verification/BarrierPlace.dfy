/** Where stage 5 puts a barrier, and which one, read off the instructions. */
module BarrierPlace {
  import opened Words
  import opened Ops
  import opened Machine
  import opened Meaning
  import opened Barriers
  import opened Definitions

  /** The last boolean type. */
  ghost predicate LastBool(insts: seq<Inst>, id: Word) {
    exists k: nat :: IsBool(insts, k) && insts[k][1] == id && forall j: nat :: k < j ==> !IsBool(insts, j)
  }

  predicate IsBool(insts: seq<Inst>, k: nat) { k < |insts| && Op(insts[k]) == TYPE_BOOL && |insts[k]| >= 2 }

  predicate IsUnsigned(insts: seq<Inst>, k: nat) { k < |insts| && IsInt(insts[k], 32) }

  /** Constant `k` of value `v` has the type last declared as unsigned in front of it. */
  ghost predicate CountAt(insts: seq<Inst>, k: nat, v: Word) {
    && k < |insts| && Op(insts[k]) == CONSTANT && |insts[k]| >= 4 && insts[k][3] == v
    && exists t: nat :: t < k && IsUnsigned(insts, t) && insts[t][1] != 0 && insts[k][1] == insts[t][1] && forall j: nat :: t < j < k ==> !IsUnsigned(insts, j)
  }

  /** The first such constant; id 0 stands for none. */
  ghost predicate FirstCount(insts: seq<Inst>, v: Word, id: Word) {
    exists k: nat :: CountAt(insts, k, v) && insts[k][2] == id && forall j: nat :: j < k && CountAt(insts, j, v) ==> insts[j][2] == 0
  }

  // ---- the scan finds them ----

  lemma BoolMore(front: seq<Inst>, inst: Inst, id: Word)
    ensures LastBool(front + [inst], id) <==> if Op(inst) == TYPE_BOOL && |inst| >= 2 then inst[1] == id else LastBool(front, id)
  {
    var insts := front + [inst];
    forall k: nat ensures IsBool(insts, k) <==> IsBool(front, k) || (k == |front| && Op(inst) == TYPE_BOOL && |inst| >= 2) {}
    if LastBool(front, id) && !(Op(inst) == TYPE_BOOL && |inst| >= 2) {
      var k: nat :| IsBool(front, k) && front[k][1] == id && forall j: nat :: k < j ==> !IsBool(front, j);
      assert IsBool(insts, k);
    }
    if Op(inst) == TYPE_BOOL && |inst| >= 2 { assert IsBool(insts, |front|); }
  }

  lemma {:induction false} BoolFound(insts: seq<Inst>, id: Word)
    requires id != 0
    ensures Scan(insts).boolT == id <==> LastBool(insts, id)
  {
    if insts != [] {
      var front, inst := insts[..|insts| - 1], insts[|insts| - 1];
      BoolFound(front, id);
      BoolMore(front, inst, id);
      assert insts == front + [inst];
    }
  }

  /** The unsigned type the scan knows is the one last declared. */
  ghost predicate LastUnsigned(insts: seq<Inst>, id: Word) {
    exists t: nat :: IsUnsigned(insts, t) && insts[t][1] == id && forall j: nat :: t < j ==> !IsUnsigned(insts, j)
  }

  lemma UnsignedMore(front: seq<Inst>, inst: Inst, id: Word)
    ensures LastUnsigned(front + [inst], id) <==> if IsInt(inst, 32) then inst[1] == id else LastUnsigned(front, id)
  {
    hide IsInt;
    assert IsInt(inst, 32) ==> |inst| >= 4 by { IntLong(inst); }
    var insts := front + [inst];
    forall k: nat ensures IsUnsigned(insts, k) <==> IsUnsigned(front, k) || (k == |front| && IsInt(inst, 32)) {}
    assert forall k: nat :: IsUnsigned(front, k) ==> |front[k]| >= 4 by {
      forall k: nat | IsUnsigned(front, k) ensures |front[k]| >= 4 { IntLong(front[k]); }
    }
    if LastUnsigned(front, id) && !IsInt(inst, 32) {
      var k: nat :| IsUnsigned(front, k) && front[k][1] == id && forall j: nat :: k < j ==> !IsUnsigned(front, j);
      assert IsUnsigned(insts, k);
    }
    if IsInt(inst, 32) { assert IsUnsigned(insts, |front|); }
  }

  lemma IntLong(inst: Inst)
    ensures IsInt(inst, 32) ==> |inst| >= 4
  {}

  lemma {:induction false} UnsignedFound(insts: seq<Inst>, id: Word)
    requires id != 0
    ensures Scan(insts).uintT == id <==> LastUnsigned(insts, id)
  {
    if insts != [] {
      var front, inst := insts[..|insts| - 1], insts[|insts| - 1];
      UnsignedFound(front, id);
      UnsignedMore(front, inst, id);
      assert insts == front + [inst];
    }
  }

  lemma CountLast(front: seq<Inst>, inst: Inst, v: Word)
    ensures CountAt(front + [inst], |front|, v) <==>
      Op(inst) == CONSTANT && |inst| >= 4 && inst[3] == v && Scan(front).uintT != 0 && inst[1] == Scan(front).uintT
  {
    hide Scan, IsInt;
    var insts, k := front + [inst], |front|;
    assert forall t: nat :: t < k ==> insts[t] == front[t];
    assert forall t: nat :: t < k ==> (IsUnsigned(insts, t) <==> IsUnsigned(front, t));
    assert forall t: nat :: IsUnsigned(front, t) ==> t < k;
    if |inst| >= 2 && inst[1] != 0 { UnsignedFound(front, inst[1]); }
  }

  lemma CountOld(front: seq<Inst>, inst: Inst, k: nat, v: Word)
    requires k < |front|
    ensures CountAt(front + [inst], k, v) <==> CountAt(front, k, v)
  {
    hide IsInt;
    var insts := front + [inst];
    assert insts[k] == front[k] && forall t: nat :: t < k ==> (IsUnsigned(insts, t) <==> IsUnsigned(front, t)) && insts[t] == front[t];
  }

  lemma CountMore(front: seq<Inst>, inst: Inst, v: Word, id: Word)
    requires id != 0
    ensures FirstCount(front + [inst], v, id) <==>
      || FirstCount(front, v, id)
      || (CountAt(front + [inst], |front|, v) && inst[2] == id && forall j: nat :: j < |front| && CountAt(front, j, v) ==> front[j][2] == 0)
  {
    hide CountAt;
    var insts := front + [inst];
    forall k: nat | k < |front| ensures CountAt(insts, k, v) <==> CountAt(front, k, v) { CountOld(front, inst, k, v); }
    forall k: nat ensures CountAt(insts, k, v) ==> k <= |front| && |insts[k]| >= 4 { CountLong(insts, k, v); }
    forall k: nat ensures CountAt(front, k, v) ==> k < |front| && |front[k]| >= 4 { CountLong(front, k, v); }
    assert forall k: nat :: k < |front| ==> insts[k] == front[k];
    if FirstCount(insts, v, id) {
      var k: nat :| CountAt(insts, k, v) && insts[k][2] == id && forall j: nat :: j < k && CountAt(insts, j, v) ==> insts[j][2] == 0;
      if k < |front| { assert CountAt(front, k, v); }
    }
    if FirstCount(front, v, id) {
      var k: nat :| CountAt(front, k, v) && front[k][2] == id && forall j: nat :: j < k && CountAt(front, j, v) ==> front[j][2] == 0;
      assert CountAt(insts, k, v);
    }
  }

  lemma CountLong(insts: seq<Inst>, k: nat, v: Word)
    ensures CountAt(insts, k, v) ==> k < |insts| && |insts[k]| >= 4
  {}

  /** What the scan has for 0, 2 and 264. */
  function Kept(f: Found, v: Word): Word { if v == 0 then f.zero else if v == 2 then f.two else f.scope264 }

  lemma SeeKept(f: Found, inst: Inst, v: Word)
    requires v == 0 || v == 2 || v == 264
    ensures Kept(See(f, inst), v)
      == if Op(inst) == CONSTANT && |inst| >= 4 && f.uintT != 0 && inst[1] == f.uintT && inst[3] == v && Kept(f, v) == 0 then inst[2] else Kept(f, v)
  {}

  lemma {:induction false} CountFound(insts: seq<Inst>, v: Word, id: Word)
    requires id != 0 && (v == 0 || v == 2 || v == 264)
    ensures Kept(Scan(insts), v) == id <==> FirstCount(insts, v, id)
    ensures Kept(Scan(insts), v) == 0 <==> forall k: nat :: CountAt(insts, k, v) ==> insts[k][2] == 0
  {
    hide CountAt, FirstCount, See, Kept;
    if insts == [] {
      NothingCounted(v, id);
    } else {
      var front, inst := insts[..|insts| - 1], insts[|insts| - 1];
      assert insts == front + [inst];
      CountFound(front, v, id);
      CountLast(front, inst, v);
      CountMore(front, inst, v, id);
      SeeKept(Scan(front), inst, v);
      forall k: nat | k < |front| ensures CountAt(insts, k, v) <==> CountAt(front, k, v) { CountOld(front, inst, k, v); }
      forall k: nat ensures CountAt(insts, k, v) ==> k <= |front| && |insts[k]| >= 4 { CountLong(insts, k, v); }
      forall k: nat ensures CountAt(front, k, v) ==> k < |front| && |front[k]| >= 4 { CountLong(front, k, v); }
      FirstSome(front, v, id);
    }
  }

  lemma FirstSome(insts: seq<Inst>, v: Word, id: Word)
    requires id != 0
    ensures FirstCount(insts, v, id) ==> !(forall k: nat :: CountAt(insts, k, v) ==> insts[k][2] == 0)
  {}

  lemma NothingCounted(v: Word, id: Word)
    requires id != 0
    ensures !FirstCount([], v, id) && Kept(Scan([]), v) == 0 && forall k: nat :: !CountAt([], k, v)
  {}

  // ---- the barrier ----

  /** The module has the ids, and at `k` the exit label of the reduction, directly
      followed by the comparison of the lane with 0. */
  ghost predicate Asks(insts: seq<Inst>, boolT: Word, zero: Word, two: Word, semantics: Word, k: nat) {
    && boolT != 0 && zero != 0 && two != 0 && semantics != 0
    && LastBool(insts, boolT) && FirstCount(insts, 0, zero) && FirstCount(insts, 2, two) && FirstCount(insts, 264, semantics)
    && k + 1 < |insts| && Op(insts[k]) == LABEL && |insts[k]| == 2 && insts[k][1] == 1806
    && Op(insts[k + 1]) == I_EQUAL && |insts[k + 1]| == 5
    && insts[k + 1][1] == boolT && insts[k + 1][2] == 1807 && insts[k + 1][3] == 915 && insts[k + 1][4] == zero
  }

  ghost predicate FirstAsks(insts: seq<Inst>, boolT: Word, zero: Word, two: Word, semantics: Word, k: nat) {
    Asks(insts, boolT, zero, two, semantics, k) && forall j: nat :: j < k ==> !Asks(insts, boolT, zero, two, semantics, j)
  }

  lemma AsksIff(insts: seq<Inst>, boolT: Word, zero: Word, two: Word, semantics: Word, k: nat)
    ensures var f := Scan(insts);
      Asks(insts, boolT, zero, two, semantics, k) <==>
      Complete(f) && f.boolT == boolT && f.zero == zero && f.two == two && f.scope264 == semantics && Matches(f, insts, k)
  {
    hide Scan, LastBool, FirstCount;
    if boolT != 0 { BoolFound(insts, boolT); }
    if zero != 0 { CountFound(insts, 0, zero); }
    if two != 0 { CountFound(insts, 2, two); }
    if semantics != 0 { CountFound(insts, 264, semantics); }
  }

  /** The words in front of the comparison end with the label: a constant %1806
      would be needed for them to be the barrier. */
  lemma NeverPresent(w: World, m: Module, k: nat)
    requires m.Valid() && DefinedOnce(w, m.insts, m.Bound()) && Complete(Scan(m.insts)) && Matches(Scan(m.insts), m.insts, k)
    ensures !Present(m, k)
  {
    hide Scan, DefinedOnce, FirstCount, Flatten, Module.Words;
    var s := Scan(m.insts).scope264;
    CountFound(m.insts, 264, s);
    FirstDefines(w, m.insts, s);
    LabelDefines(w, m, k, s);
    LastWord(m, k, [0, 0, 0, 0]);
    if Present(m, k) { LastWord(m, k, BarrierInst(Scan(m.insts))); }
  }

  /** The word in front of the comparison is the label's id. */
  lemma LastWord(m: Module, k: nat, piece: seq<Word>)
    requires k < |m.insts| && |m.insts[k]| == 2 && |piece| == 4
    ensures var at := |m.header + Flatten(m.insts[..k + 1])|;
      4 <= at <= |m.Words()| && m.Words()[at - 4..at] == piece ==> piece[3] == m.insts[k][1]
  {
    hide Flatten;
    FlattenAt(m.insts, k);
    var a, x, b := m.header + Flatten(m.insts[..k]), m.insts[k], Flatten(m.insts[k + 1..]);
    assert m.Words() == a + x + b;
    var at := |m.header + Flatten(m.insts[..k + 1])|;
    assert at == |a| + 2;
    if 4 <= at <= |m.Words()| && m.Words()[at - 4..at] == piece { assert piece[3] == m.Words()[at - 1] == x[1]; }
  }

  ghost predicate DefinesCount(w: World, insts: seq<Inst>, id: nat) {
    exists j: nat :: j < |insts| && Op(insts[j]) == CONSTANT && ResultOf(w, insts[j]) == Some(id)
  }

  lemma FirstDefines(w: World, insts: seq<Inst>, id: Word)
    ensures FirstCount(insts, 264, id) ==> DefinesCount(w, insts, id)
  {
    if FirstCount(insts, 264, id) {
      var j: nat :| CountAt(insts, j, 264) && insts[j][2] == id;
      assert ResultOf(w, insts[j]) == Some(id as nat);
    }
  }

  lemma LabelDefines(w: World, m: Module, k: nat, id: Word)
    requires |m.header| == HEADER && DefinedOnce(w, m.insts, m.Bound()) && DefinesCount(w, m.insts, id)
    requires k < |m.insts| && IsLabel(m.insts[k], EXIT_LABEL)
    ensures id != 1806
  {
    var j: nat :| j < |m.insts| && Op(m.insts[j]) == CONSTANT && ResultOf(w, m.insts[j]) == Some(id as nat);
    assert ResultOf(w, m.insts[k]) == Some(1806 as nat);
    if id == 1806 { OnlyOne(w, m.insts, j, k, 1806); }
  }

  /** The barrier is put in exactly if the module asks for one, behind the first
      such label; else nothing changes. */
  lemma GuardInserts(w: World, m: Module)
    requires m.Valid() && DefinedOnce(w, m.insts, m.Bound())
    ensures forall boolT, zero, two, semantics, k :: FirstAsks(m.insts, boolT, zero, two, semantics, k) ==>
      Guarded(m).insts == m.insts[..k + 1] + [[Head(4, CONTROL_BARRIER), two, two, semantics]] + m.insts[k + 1..]
    ensures (forall boolT, zero, two, semantics, k :: !Asks(m.insts, boolT, zero, two, semantics, k)) ==> Guarded(m) == m
  {
    hide Scan, DefinedOnce, Asks, Matches, Complete, Present;
    var f := Scan(m.insts);
    forall boolT, zero, two, semantics, k
      ensures Asks(m.insts, boolT, zero, two, semantics, k) <==>
        Complete(f) && f.boolT == boolT && f.zero == zero && f.two == two && f.scope264 == semantics && Matches(f, m.insts, k)
    {
      AsksIff(m.insts, boolT, zero, two, semantics, k);
    }
    var first := FirstMatch(f, m.insts, 0);
    if Complete(f) && first.Some? {
      NeverPresent(w, m, first.value);
      assert Place(m) == first;
      assert Asks(m.insts, f.boolT, f.zero, f.two, f.scope264, first.value);
      forall boolT, zero, two, semantics, k | FirstAsks(m.insts, boolT, zero, two, semantics, k)
        ensures Guarded(m).insts == m.insts[..k + 1] + [[Head(4, CONTROL_BARRIER), two, two, semantics]] + m.insts[k + 1..]
      {
        MatchShort(f, m.insts, k);
        assert first.value == k;
      }
    } else if Complete(f) {
      forall boolT, zero, two, semantics, k ensures !Asks(m.insts, boolT, zero, two, semantics, k) { MatchShort(f, m.insts, k); }
    }
  }

  lemma MatchShort(f: Found, insts: seq<Inst>, k: nat)
    ensures Matches(f, insts, k) ==> k + 1 < |insts|
  {}

  /** Its operands mean workgroup scope twice, and acquire and release of workgroup
      memory. */
  lemma BarrierMeans(w: World, spec: Specialization, insts: seq<Inst>, bound: nat, boolT: Word, zero: Word, two: Word, semantics: Word, k: nat)
    requires GoodIds(insts, bound) && OneWord(insts) && Asks(insts, boolT, zero, two, semantics, k)
    ensures Get(Consts(w, spec, insts), two) == Scalar(2) && Get(Consts(w, spec, insts), semantics) == Scalar(264)
  {
    hide Consts, GoodIds;
    CountMeans(w, spec, insts, bound, 2, two);
    CountMeans(w, spec, insts, bound, 264, semantics);
  }

  lemma CountMeans(w: World, spec: Specialization, insts: seq<Inst>, bound: nat, v: Word, id: Word)
    requires GoodIds(insts, bound) && OneWord(insts) && FirstCount(insts, v, id)
    ensures Get(Consts(w, spec, insts), id) == Scalar(v)
  {
    hide Consts, GoodIds;
    var k: nat :| CountAt(insts, k, v) && insts[k][2] == id;
    ConstAt(w, spec, insts, bound, k);
  }
}
