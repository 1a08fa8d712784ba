/** When stage 1 writes the workgroup size down, and what it writes. */
module SizePatch {
  import opened Words
  import opened Ops
  import opened Machine
  import opened Meaning
  import opened LocalSize

  /** The only LocalSize is the declaration `k`, and there is no LocalSizeId. */
  ghost predicate OnlyMode(insts: seq<Inst>, k: nat) {
    OnlyAt(insts, k) && forall i :: 0 <= i < |insts| ==> !IsLocalSizeId(insts[i])
  }

  /** The first specialization composite that carries the WorkgroupSize built-in. */
  ghost predicate SizeComposite(insts: seq<Inst>, c: nat) {
    c < |insts| && CarriesSize(insts, insts[c]) && forall i :: 0 <= i < c ==> !CarriesSize(insts, insts[i])
  }

  ghost predicate CarriesSize(insts: seq<Inst>, inst: Inst) {
    Op(inst) == SPEC_CONSTANT_COMPOSITE && |inst| >= 6 && exists j :: 0 <= j < |insts| && MarksWorkgroupSize(insts[j]) && insts[j][1] == inst[2]
  }

  /** The word the dispatch supplies for the constant, if any. */
  function Supplied(insts: seq<Inst>, entries: seq<Entry>, id: nat): Option<Word> {
    var ids := Decorations(insts, SPEC_ID);
    if id in ids then EntryValue(entries, ids[id]) else None
  }

  lemma {:induction false} ModesNone(insts: seq<Inst>, byId: bool)
    ensures CountModes(insts, byId) == 0 <==> forall i :: 0 <= i < |insts| ==> !(if byId then IsLocalSizeId(insts[i]) else IsLocalSize(insts[i]))
  {
    if insts != [] {
      var front := insts[..|insts| - 1];
      ModesNone(front, byId);
      assert forall i :: 0 <= i < |front| ==> front[i] == insts[i];
    }
  }

  ghost predicate OnlyAt(insts: seq<Inst>, k: nat) {
    k < |insts| && IsLocalSize(insts[k]) && forall i :: 0 <= i < |insts| && i != k ==> !IsLocalSize(insts[i])
  }

  lemma {:induction false} ModesOne(insts: seq<Inst>)
    ensures CountModes(insts, false) == 1 <==> exists k: nat :: OnlyAt(insts, k)
  {
    hide IsLocalSize, OnlyAt;
    if insts == [] {
      NotEmpty();
    } else {
      var front, last := insts[..|insts| - 1], |insts| - 1;
      ModesOne(front);
      ModesNone(front, false);
      assert insts == front + [insts[last]];
      forall k: nat ensures OnlyAt(insts, k) <==> if IsLocalSize(insts[last]) then k == last && CountModes(front, false) == 0 else OnlyAt(front, k) {
        OnlyMore(front, insts[last], k);
      }
      if IsLocalSize(insts[last]) {
        if CountModes(front, false) == 0 { assert OnlyAt(insts, last); }
      } else if k: nat :| OnlyAt(front, k) {
        assert OnlyAt(insts, k);
      }
    }
  }

  lemma NotEmpty()
    ensures forall k: nat :: !OnlyAt([], k)
  {}

  lemma OnlyMore(front: seq<Inst>, inst: Inst, k: nat)
    ensures OnlyAt(front + [inst], k) <==>
      if IsLocalSize(inst) then k == |front| && forall i :: 0 <= i < |front| ==> !IsLocalSize(front[i]) else OnlyAt(front, k)
  {
    hide IsLocalSize;
    var insts := front + [inst];
    assert insts[|front|] == inst && forall i :: 0 <= i < |front| ==> insts[i] == front[i];
  }

  lemma {:induction false} LastOnly(insts: seq<Inst>, k: nat)
    requires k < |insts| && IsLocalSize(insts[k]) && forall i :: k < i < |insts| ==> !IsLocalSize(insts[i])
    ensures LastMode(insts, false) == insts[k][3..6]
    decreases |insts|
  {
    if k < |insts| - 1 { LastOnly(insts[..|insts| - 1], k); }
  }

  lemma {:induction false} MarkedIff(insts: seq<Inst>, id: nat)
    ensures id in WorkgroupIds(insts) <==> exists j :: 0 <= j < |insts| && MarksWorkgroupSize(insts[j]) && insts[j][1] == id
  {
    if insts != [] {
      var front := insts[..|insts| - 1];
      MarkedIff(front, id);
      assert forall i :: 0 <= i < |front| ==> front[i] == insts[i];
      if id in WorkgroupIds(front) {
        var j :| 0 <= j < |front| && MarksWorkgroupSize(front[j]) && front[j][1] == id;
        assert MarksWorkgroupSize(insts[j]) && insts[j][1] == id;
      }
    }
  }

  lemma CarriesIff(insts: seq<Inst>, inst: Inst)
    ensures CarriesSize(insts, inst) <==> SpecComposite(WorkgroupIds(insts), inst)
  {
    if |inst| >= 6 { MarkedIff(insts, inst[2]); }
  }

  lemma CompositeMembers(insts: seq<Inst>, c: nat)
    requires SizeComposite(insts, c)
    ensures Members(WorkgroupIds(insts), insts) == Some(insts[c][3..6])
  {
    forall i | 0 <= i <= c ensures CarriesSize(insts, insts[i]) <==> SpecComposite(WorkgroupIds(insts), insts[i]) { CarriesIff(insts, insts[i]); }
    MembersAt(WorkgroupIds(insts), insts, c);
  }

  lemma MembersComposite(insts: seq<Inst>)
    requires Members(WorkgroupIds(insts), insts).Some?
    ensures exists c: nat :: SizeComposite(insts, c)
  {
    var c := FirstFrom(WorkgroupIds(insts), insts);
    forall i | 0 <= i <= c ensures CarriesSize(insts, insts[i]) <==> SpecComposite(WorkgroupIds(insts), insts[i]) { CarriesIff(insts, insts[i]); }
    assert SizeComposite(insts, c);
  }

  lemma {:induction false} FirstFrom(ids: set<nat>, insts: seq<Inst>) returns (c: nat)
    requires Members(ids, insts).Some?
    ensures c < |insts| && SpecComposite(ids, insts[c]) && forall i :: 0 <= i < c ==> !SpecComposite(ids, insts[i])
  {
    c := 0;
    if !SpecComposite(ids, insts[0]) {
      var r := FirstFrom(ids, insts[1..]);
      c := r + 1;
    }
  }

  /** The dispatch selects 32 by 1 by 1: the first member is supplied as 32, and the
      others as 1 or not at all. */
  ghost predicate Selects32(insts: seq<Inst>, entries: seq<Entry>, c: nat)
    requires c < |insts| && |insts[c]| >= 6
  {
    && Supplied(insts, entries, insts[c][3]) == Some(32)
    && Supplied(insts, entries, insts[c][4]) in {None, Some(1)}
    && Supplied(insts, entries, insts[c][5]) in {None, Some(1)}
  }

  ghost predicate Patches(insts: seq<Inst>, entries: seq<Entry>, k: nat, c: nat) {
    OnlyMode(insts, k) && insts[k][3..6] == [1, 1, 1] && SizeComposite(insts, c) && Selects32(insts, entries, c)
  }

  lemma DimIs(insts: seq<Inst>, entries: seq<Entry>, member: Word)
    ensures ResolveDim(SpecializationOf(insts, entries), member, 1) == match Supplied(insts, entries, member) case Some(v) => v case None => 1
  {}

  lemma ResolvedIs(insts: seq<Inst>, entries: seq<Entry>, c: nat)
    requires SizeComposite(insts, c) && LastMode(insts, false) == [1, 1, 1]
    ensures Resolved(insts, entries) == [32, 1, 1] <==> Selects32(insts, entries, c)
  {
    hide SizeComposite, Decorations, Members, WorkgroupIds, LastMode, Supplied, ResolveDim;
    CompositeMembers(insts, c);
    CompositeLong(insts, c);
    var members, r := insts[c][3..6], Resolved(insts, entries);
    assert members[0] == insts[c][3] && members[1] == insts[c][4] && members[2] == insts[c][5];
    DimIs(insts, entries, members[0]);
    DimIs(insts, entries, members[1]);
    DimIs(insts, entries, members[2]);
    assert r[0] == ResolveDim(SpecializationOf(insts, entries), members[0], 1);
    assert r[1] == ResolveDim(SpecializationOf(insts, entries), members[1], 1);
    assert r[2] == ResolveDim(SpecializationOf(insts, entries), members[2], 1);
    if r[0] == 32 && r[1] == 1 && r[2] == 1 { assert r == [32, 1, 1]; }
  }

  lemma CompositeLong(insts: seq<Inst>, c: nat)
    requires SizeComposite(insts, c)
    ensures c < |insts| && |insts[c]| >= 6
  {}

  /** The module is patched exactly if its only size is the literal 1 by 1 by 1 and
      the dispatch selects 32 by 1 by 1. */
  lemma PatchesIff(insts: seq<Inst>, entries: seq<Entry>)
    ensures Eligible(insts, entries) <==> exists k: nat, c: nat :: Patches(insts, entries, k, c)
  {
    hide Resolved, CountModes, LastMode, SizeComposite, Selects32, IsLocalSize, IsLocalSizeId;
    ModesOne(insts);
    ModesNone(insts, true);
    if Eligible(insts, entries) {
      var k: nat :| OnlyAt(insts, k);
      LastOnly(insts, k);
      NoMembers(insts, entries);
      MembersComposite(insts);
      var c: nat :| SizeComposite(insts, c);
      CompositeLong(insts, c);
      ResolvedIs(insts, entries, c);
      ModeLong(insts[k]);
      assert Patches(insts, entries, k, c);
    }
    if k: nat, c: nat :| Patches(insts, entries, k, c) {
      LastOnly(insts, k);
      CompositeLong(insts, c);
      ResolvedIs(insts, entries, c);
    }
  }

  lemma ModeLong(inst: Inst)
    ensures IsLocalSize(inst) ==> |inst| >= 6
  {}

  lemma NoMembers(insts: seq<Inst>, entries: seq<Entry>)
    requires LastMode(insts, false) == [1, 1, 1] && Resolved(insts, entries) == [32, 1, 1]
    ensures Members(WorkgroupIds(insts), insts).Some?
  {
    assert [1, 1, 1][0] != [32, 1, 1][0];
  }

  /** Then its three words are 32, 1 and 1, and nothing else changes. */
  lemma PatchWrites(m: Module, entries: seq<Entry>, k: nat, c: nat)
    requires Patches(m.insts, entries, k, c)
    ensures |m.insts[k]| >= 6 && Patched(m, entries) == m.(insts := m.insts[k := m.insts[k][..3] + [32, 1, 1] + m.insts[k][6..]])
  {
    hide SizeComposite, Selects32, Eligible;
    PatchesIff(m.insts, entries);
    EligibleSize(m.insts, entries);
    var out := WithSize(m.insts, [32, 1, 1]);
    assert out == m.insts[k := m.insts[k][..3] + [32, 1, 1] + m.insts[k][6..]];
  }

  lemma EligibleSize(insts: seq<Inst>, entries: seq<Entry>)
    ensures Eligible(insts, entries) ==> Resolved(insts, entries) == [32, 1, 1]
  {}
}
