/** Stage 1 of the effective-module compiler: make the literal LocalSize agree
    with the workgroup size that specialization selects. */
module LocalSize {
  import opened Words
  import opened Ops
  import opened Machine
  import opened Meaning

  datatype Step = Step(words: seq<Word>, changed: bool, localSize: seq<Word>, resolved: seq<Word>)

  predicate SpecComposite(ids: set<nat>, inst: Inst) {
    Op(inst) == SPEC_CONSTANT_COMPOSITE && |inst| >= 6 && inst[2] in ids
  }

  /** Constituents of the first specialized composite among `ids`. */
  function Members(ids: set<nat>, insts: seq<Inst>): (r: Option<seq<Word>>)
    ensures r.Some? ==> |r.value| == 3
  {
    if insts == [] then None
    else if SpecComposite(ids, insts[0]) then Some(insts[0][3..6])
    else Members(ids, insts[1..])
  }

  function ResolveDim(spec: Specialization, member: Word, size: Word): Word {
    spec.Word(member, if size == 0 then 1 else size)
  }

  function Resolve(spec: Specialization, members: Option<seq<Word>>, size: seq<Word>): (r: seq<Word>)
    requires |size| == 3 && (members.Some? ==> |members.value| == 3)
    ensures |r| == 3
  {
    if members.None? then size
    else seq(3, d requires 0 <= d < 3 => ResolveDim(spec, members.value[d], size[d]))
  }

  function Resolved(insts: seq<Inst>, entries: seq<Entry>): (r: seq<Word>)
    ensures |r| == 3
  {
    Resolve(Specialization(Decorations(insts, SPEC_ID), entries), Members(WorkgroupIds(insts), insts), LastMode(insts, false))
  }

  function CountModes(insts: seq<Inst>, byId: bool): nat {
    if insts == [] then 0
    else
      var inst := insts[|insts| - 1];
      var one := if byId then IsLocalSizeId(inst) else IsLocalSize(inst);
      CountModes(insts[..|insts| - 1], byId) + (if one then 1 else 0)
  }

  predicate Eligible(insts: seq<Inst>, entries: seq<Entry>) {
    && CountModes(insts, false) == 1 && CountModes(insts, true) == 0
    && LastMode(insts, false) == [1, 1, 1]
    && Resolved(insts, entries) == [32, 1, 1]
  }

  /** The module with its LocalSize literal replaced. */
  function WithSize(insts: seq<Inst>, dims: seq<Word>): (r: seq<Inst>)
    requires |dims| == 3
    ensures |r| == |insts|
  {
    seq(|insts|, i requires 0 <= i < |insts| => Sized(insts[i], dims))
  }

  function Sized(inst: Inst, dims: seq<Word>): Inst
    requires |dims| == 3
  {
    if IsLocalSize(inst) then inst[..3] + dims + inst[6..] else inst
  }

  function Patched(m: Module, entries: seq<Entry>): Module {
    if Eligible(m.insts, entries) then m.(insts := WithSize(m.insts, Resolved(m.insts, entries))) else m
  }

  // ---- the loops ----

  /** With exactly one LocalSize, it is the one found last. */
  lemma {:induction false} OnlyMode(insts: seq<Inst>, k: nat)
    requires k < |insts| && IsLocalSize(insts[k])
    ensures CountModes(insts, false) >= 1
    ensures CountModes(insts, false) == 1 ==> forall i :: 0 <= i < |insts| && i != k ==> !IsLocalSize(insts[i])
    decreases |insts|
  {
    var front := insts[..|insts| - 1];
    if k < |front| {
      OnlyMode(front, k);
    } else {
      NoMode(front);
    }
  }

  lemma {:induction false} NoMode(insts: seq<Inst>)
    ensures CountModes(insts, false) == 0 ==> forall i :: 0 <= i < |insts| ==> !IsLocalSize(insts[i])
  {
    if insts != [] {
      NoMode(insts[..|insts| - 1]);
    }
  }

  /** Overwriting three words in the stream is the same as rewriting the one
      instruction they belong to. */
  lemma SpliceWords(before: seq<Word>, x: seq<Word>, after: seq<Word>, dims: seq<Word>)
    requires |x| >= 6 && |dims| == 3
    ensures var words, at := before + x + after, |before|;
      words[..at + 3] + dims + words[at + 6..] == before + (x[..3] + dims + x[6..]) + after
  {
    var words, at := before + x + after, |before|;
    assert words[..at + 3] == before + x[..3];
    assert words[at + 6..] == x[6..] + after;
  }

  lemma SpliceMode(m: Module, k: nat, at: nat, dims: seq<Word>)
    requires m.Valid() && k < |m.insts| && IsLocalSize(m.insts[k]) && |dims| == 3
    requires at == HEADER + |Flatten(m.insts[..k])|
    requires forall i :: 0 <= i < |m.insts| && i != k ==> !IsLocalSize(m.insts[i])
    ensures at + 6 <= |m.Words()|
    ensures m.Words()[..at + 3] + dims + m.Words()[at + 6..] == m.(insts := WithSize(m.insts, dims)).Words()
  {
    var out := m.(insts := WithSize(m.insts, dims));
    WordsAt(m, k);
    WordsAt(out, k);
    assert out.insts[..k] == m.insts[..k] && out.insts[k + 1..] == m.insts[k + 1..];
    SpliceWords(m.header + Flatten(m.insts[..k]), m.insts[k], Flatten(m.insts[k + 1..]), dims);
  }

  datatype Modes = Modes(localSize: seq<Word>, localSizeId: seq<Word>, literalAt: Option<nat>, literalCount: nat, idCount: nat)

  /** `at` is the word index of the LocalSize declaration `k`. */
  ghost predicate ModeAt(items: seq<Located>, k: nat, at: nat) {
    k < |items| && IsLocalSize(items[k].inst) && items[k].index == at
  }

  method ScanModes(items: seq<Located>) returns (r: Modes)
    ensures var insts := Instructions(items);
      && r.localSize == LastMode(insts, false) && r.localSizeId == LastMode(insts, true)
      && r.literalCount == CountModes(insts, false) && r.idCount == CountModes(insts, true)
      && (r.literalAt.None? <==> r.literalCount == 0)
      && (r.literalAt.Some? ==> exists k :: ModeAt(items, k, r.literalAt.value))
  {
    ghost var insts := Instructions(items);
    var localSize: seq<Word>, localSizeId: seq<Word> := [0, 0, 0], [0, 0, 0];
    var literalAt: Option<nat> := None;
    var idCount, literalCount := 0, 0;
    for n := 0 to |items|
      invariant localSize == LastMode(insts[..n], false) && localSizeId == LastMode(insts[..n], true)
      invariant literalCount == CountModes(insts[..n], false) && idCount == CountModes(insts[..n], true)
      invariant literalAt.None? <==> literalCount == 0
      invariant literalAt.Some? ==> exists k :: ModeAt(items, k, literalAt.value)
    {
      var inst := items[n].inst;
      assert insts[..n + 1][..n] == insts[..n];
      if Op(inst) == EXECUTION_MODE && |inst| >= 6 && inst[2] == MODE_LOCAL_SIZE {
        literalCount := literalCount + 1;
        localSize := inst[3..6];
        literalAt := Some(items[n].index);
        assert ModeAt(items, n, items[n].index);
      } else if Op(inst) == EXECUTION_MODE_ID && |inst| >= 6 && inst[2] == MODE_LOCAL_SIZE_ID {
        idCount := idCount + 1;
        localSizeId := inst[3..6];
      }
    }
    assert insts[..|items|] == insts;
    r := Modes(localSize, localSizeId, literalAt, literalCount, idCount);
  }

  method ResolveMembers(specIds: map<nat, Word>, entries: seq<Entry>, members: Option<seq<Word>>, localSize: seq<Word>)
    returns (resolved: seq<Word>)
    requires |localSize| == 3 && (members.Some? ==> |members.value| == 3)
    ensures resolved == Resolve(Specialization(specIds, entries), members, localSize)
  {
    resolved := localSize;
    if members.Some? {
      for d := 0 to 3
        invariant |resolved| == 3
        invariant forall e :: 0 <= e < d ==> resolved[e] == ResolveDim(Specialization(specIds, entries), members.value[e], localSize[e])
        invariant forall e :: d <= e < 3 ==> resolved[e] == localSize[e]
      {
        var default: Word := if resolved[d] == 0 then 1 else resolved[d];
        var id := members.value[d];
        resolved := resolved[d := if id in specIds then EntryWord(entries, specIds[id], default) else default];
      }
    }
  }

  method PatchLiteralLocalSizeFromSpec(words: seq<Word>, entries: seq<Entry>) returns (r: Result<Step>)
    requires HEADER <= |words|
    ensures r.Ok? == ModuleOf(words).Ok?
    ensures r.Err? ==> ModuleOf(words) == Err(r.error)
    ensures r.Ok? ==> var m := ModuleOf(words).value;
      && r.value.words == Patched(m, entries).Words()
      && r.value.changed == Eligible(m.insts, entries)
      && r.value.localSize == LastMode(m.insts, false)
      && r.value.resolved == Resolved(m.insts, entries)
  {
    var items :- IterInstructions(words);
    ghost var m := ModuleOf(words).value;
    ModuleRoundTrip(words);
    var modes := ScanModes(items);
    var specIds := SpecIdDecorations(items);
    var members := WorkgroupSizeCompositeMembers(items);
    var resolved := ResolveMembers(specIds, entries, members, modes.localSize);
    NoMode2(m.insts);
    if !(modes.literalCount == 1 && modes.idCount == 0 && modes.localSize == [1, 1, 1] && modes.localSizeId == [0, 0, 0]
         && resolved == [32, 1, 1] && modes.literalAt.Some?) {
      return Ok(Step(words, false, modes.localSize, resolved));
    }
    var at := modes.literalAt.value;
    ghost var k :| ModeAt(items, k, at);
    OnlyMode(m.insts, k);
    SpliceMode(m, k, at, resolved);
    r := Ok(Step(words[..at + 3] + resolved + words[at + 6..], true, modes.localSize, resolved));
  }

  lemma {:induction false} NoMode2(insts: seq<Inst>)
    ensures CountModes(insts, true) == 0 ==> LastMode(insts, true) == [0, 0, 0]
  {
    if insts != [] {
      NoMode2(insts[..|insts| - 1]);
    }
  }

  method SpecIdDecorations(items: seq<Located>) returns (ids: map<nat, Word>)
    ensures ids == Decorations(Instructions(items), SPEC_ID)
  {
    ids := map[];
    var insts := Instructions(items);
    for n := 0 to |items|
      invariant ids == Decorations(insts[..n], SPEC_ID)
    {
      var inst := items[n].inst;
      assert insts[..n + 1][..n] == insts[..n];
      if Op(inst) == DECORATE && |inst| >= 4 && inst[2] == SPEC_ID {
        ids := ids[inst[1] := inst[3]];
      }
    }
    assert insts[..|items|] == insts;
  }

  method WorkgroupSizeCompositeMembers(items: seq<Located>) returns (r: Option<seq<Word>>)
    ensures r == Members(WorkgroupIds(Instructions(items)), Instructions(items))
  {
    var ids: set<nat> := {};
    var insts := Instructions(items);
    for n := 0 to |items|
      invariant ids == WorkgroupIds(insts[..n])
    {
      var inst := items[n].inst;
      assert insts[..n + 1][..n] == insts[..n];
      if Op(inst) == DECORATE && |inst| >= 4 && inst[2] == BUILT_IN && inst[3] == WORKGROUP_SIZE {
        ids := ids + {inst[1] as nat};
      }
    }
    assert insts[..|items|] == insts;
    for n := 0 to |items|
      invariant Members(ids, insts) == Members(ids, insts[n..])
    {
      var inst := items[n].inst;
      if Op(inst) == SPEC_CONSTANT_COMPOSITE && |inst| >= 6 && inst[2] in ids {
        return Some(inst[3..6]);
      }
    }
    r := None;
  }

  // ---- what the patch means ----

  lemma WithSizeSnoc(insts: seq<Inst>, dims: seq<Word>)
    requires |dims| == 3 && insts != []
    ensures WithSize(insts, dims)[..|insts| - 1] == WithSize(insts[..|insts| - 1], dims)
    ensures WithSize(insts, dims)[|insts| - 1] == Sized(insts[|insts| - 1], dims)
  {}

  lemma {:induction false} WithSizeConstants(w: World, spec: Specialization, insts: seq<Inst>, dims: seq<Word>)
    requires |dims| == 3
    ensures var out := WithSize(insts, dims);
      Consts(w, spec, out) == Consts(w, spec, insts) && Moduli(out) == Moduli(insts) && Quads(out) == Quads(insts)
  {
    if insts != [] {
      WithSizeSnoc(insts, dims);
      WithSizeConstants(w, spec, insts[..|insts| - 1], dims);
    }
  }

  lemma {:induction false} WithSizeCode(insts: seq<Inst>, dims: seq<Word>)
    requires |dims| == 3
    ensures var out := WithSize(insts, dims);
      && LastMode(out, true) == LastMode(insts, true) && Ids(out) == Ids(insts) && Code(out) == Code(insts)
  {
    if insts != [] {
      WithSizeSnoc(insts, dims);
      WithSizeCode(insts[..|insts| - 1], dims);
    }
  }

  lemma {:induction false} WithSizeDecorations(ids: set<nat>, insts: seq<Inst>, dims: seq<Word>)
    requires |dims| == 3
    ensures var out := WithSize(insts, dims);
      && WorkgroupIds(out) == WorkgroupIds(insts) && WorkgroupConstant(ids, out) == WorkgroupConstant(ids, insts)
      && (forall d :: Decorations(out, d) == Decorations(insts, d))
  {
    if insts != [] {
      WithSizeSnoc(insts, dims);
      WithSizeDecorations(ids, insts[..|insts| - 1], dims);
    }
  }

  lemma WithSizeFolds(w: World, spec: Specialization, ids: set<nat>, insts: seq<Inst>, dims: seq<Word>)
    requires |dims| == 3
    ensures var out := WithSize(insts, dims);
      && Consts(w, spec, out) == Consts(w, spec, insts)
      && Moduli(out) == Moduli(insts) && Quads(out) == Quads(insts)
      && WorkgroupIds(out) == WorkgroupIds(insts)
      && WorkgroupConstant(ids, out) == WorkgroupConstant(ids, insts)
      && LastMode(out, true) == LastMode(insts, true)
      && Ids(out) == Ids(insts) && Code(out) == Code(insts)
      && (forall d :: Decorations(out, d) == Decorations(insts, d))
  {
    WithSizeConstants(w, spec, insts, dims);
    WithSizeCode(insts, dims);
    WithSizeDecorations(ids, insts, dims);
  }

  lemma {:induction false} MembersHaveConstant(ids: set<nat>, insts: seq<Inst>)
    requires Members(ids, insts).Some?
    ensures WorkgroupConstant(ids, insts).Some?
    decreases |insts|
  {
    var k := FirstComposite(ids, insts);
    ConstantFound(ids, insts, k);
  }

  lemma {:induction false} FirstComposite(ids: set<nat>, insts: seq<Inst>) returns (k: nat)
    requires Members(ids, insts).Some?
    ensures k < |insts| && SpecComposite(ids, insts[k]) && Members(ids, insts).value == insts[k][3..6]
  {
    if SpecComposite(ids, insts[0]) { k := 0; }
    else { k := FirstComposite(ids, insts[1..]); k := k + 1; }
  }

  lemma {:induction false} ConstantFound(ids: set<nat>, insts: seq<Inst>, k: nat)
    requires k < |insts| && SpecComposite(ids, insts[k])
    ensures WorkgroupConstant(ids, insts).Some?
    decreases |insts|
  {
    if k < |insts| - 1 { ConstantFound(ids, insts[..|insts| - 1], k); }
  }

  /** The patch leaves the program alone, workgroup size included, whatever the
      dispatch supplies: it only writes down what the WorkgroupSize constant
      already overrides. */
  lemma PatchPreservesProgram(w: World, m: Module, patchEntries: seq<Entry>, entries: seq<Entry>, table: Table)
    ensures ProgramOf(w, Patched(m, patchEntries).insts, entries, table) == ProgramOf(w, m.insts, entries, table)
    ensures Ids(Patched(m, patchEntries).insts) == Ids(m.insts)
  {
    if Eligible(m.insts, patchEntries) {
      var dims := Resolved(m.insts, patchEntries);
      assert Members(WorkgroupIds(m.insts), m.insts).Some?;
      WithSizeFolds(w, SpecializationOf(m.insts, entries), WorkgroupIds(m.insts), m.insts, dims);
      MembersHaveConstant(WorkgroupIds(m.insts), m.insts);
    }
  }

  lemma PatchValid(m: Module, entries: seq<Entry>)
    requires m.Valid()
    ensures Patched(m, entries).Valid() && |Patched(m, entries).Words()| == |m.Words()|
  {
    if Eligible(m.insts, entries) {
      SameLengths(m.insts, WithSize(m.insts, Resolved(m.insts, entries)));
    }
  }

  lemma {:induction false} SameLengths(a: seq<Inst>, b: seq<Inst>)
    requires |a| == |b| && forall i :: 0 <= i < |a| ==> |a[i]| == |b[i]|
    ensures |Flatten(a)| == |Flatten(b)|
    decreases |a|
  {
    if a != [] { SameLengths(a[1..], b[1..]); }
  }

  // ---- when the new literal is the size the shader really has ----

  /** The dispatch supplies the value of this constant. */
  predicate Supplied(insts: seq<Inst>, entries: seq<Entry>, id: nat) {
    var ids := Decorations(insts, SPEC_ID);
    id in ids && EntryValue(entries, ids[id]).Some?
  }

  /** `k` declares a one-word specialization constant or plain constant. */
  predicate ScalarDecl(inst: Inst) {
    (Op(inst) == SPEC_CONSTANT || Op(inst) == CONSTANT) && |inst| == 4
  }

  /** A size literal resolved from member `d` is the member's own value exactly
      when the dispatch supplies it or its default is 1 as the literal was. A
      default other than 1 that no entry replaces is resolved wrongly. */
  lemma ResolvedDimExact(w: World, m: Module, entries: seq<Entry>, k: nat, d: nat)
    requires m.Valid() && GoodIds(m.insts, m.Bound()) && Eligible(m.insts, entries) && d < 3
    requires k < |m.insts| && ScalarDecl(m.insts[k])
    requires m.insts[k][2] == Members(WorkgroupIds(m.insts), m.insts).value[d]
    requires Op(m.insts[k]) == CONSTANT ==> m.insts[k][2] !in Decorations(m.insts, SPEC_ID)
    ensures Get(Consts(w, SpecializationOf(m.insts, entries), m.insts), m.insts[k][2]) == Scalar(Resolved(m.insts, entries)[d])
       <==> (Supplied(m.insts, entries, m.insts[k][2]) || m.insts[k][3] == 1)
  {
    ConstAt(w, SpecializationOf(m.insts, entries), m.insts, m.Bound(), k);
    assert LastMode(m.insts, false)[d] == 1;
  }

  // ---- a size that is resolved wrongly ----

  function OpenSize(): seq<Inst> {
    [[Head(6, EXECUTION_MODE), 4, MODE_LOCAL_SIZE, 1, 1, 1],
     [Head(4, DECORATE), 3, BUILT_IN, WORKGROUP_SIZE],
     [Head(4, DECORATE), 1, SPEC_ID, 0],
     [Head(4, DECORATE), 2, SPEC_ID, 1],
     [Head(4, SPEC_CONSTANT), 9, 1, 1],
     [Head(4, SPEC_CONSTANT), 9, 2, 5],
     [Head(6, SPEC_CONSTANT_COMPOSITE), 8, 3, 1, 2, 2]]
  }

  function OpenModule(): Module { Module([MAGIC, 0, 0, 10, 0], OpenSize()) }

  /** What the scans find. */
  datatype Scans = Scans(specs: map<nat, Word>, wg: set<nat>, modes: nat, size: seq<Word>, ids: seq<nat>)

  function After(s: Scans, inst: Inst): Scans {
    Scans(if Decorates(inst, SPEC_ID) then s.specs[inst[1] := inst[3]] else s.specs,
          if MarksWorkgroupSize(inst) then s.wg + {inst[1] as nat} else s.wg,
          if IsLocalSize(inst) then s.modes + 1 else s.modes, if IsLocalSize(inst) then inst[3..6] else s.size,
          match DeclaredId(inst) case Some(id) => s.ids + [id] case None => s.ids)
  }

  ghost predicate Found(insts: seq<Inst>, s: Scans) {
    && Decorations(insts, SPEC_ID) == s.specs && WorkgroupIds(insts) == s.wg && CountModes(insts, false) == s.modes && CountModes(insts, true) == 0
    && LastMode(insts, false) == s.size && Ids(insts) == s.ids
  }

  lemma FoundMore(front: seq<Inst>, inst: Inst, s: Scans)
    requires Found(front, s) && !IsLocalSizeId(inst)
    ensures Found(front + [inst], After(s, inst))
  {
    assert (front + [inst])[..|front|] == front;
  }

  lemma OpenScans() returns (s: Scans)
    ensures Found(OpenSize(), s) && s.specs == map[1 := 0, 2 := 1] && s.wg == {3} && s.modes == 1 && s.size == [1, 1, 1] && s.ids == [1, 2, 3]
  {
    hide Found, After;
    var insts := OpenSize();
    s := Scans(map[], {}, 0, [0, 0, 0], []);
    NothingFound();
    ghost var start := s;
    for k := 0 to 7
      invariant Found(insts[..k], s) && s == Scanned(start, insts[..k])
    {
      FoundMore(insts[..k], insts[k], s);
      assert insts[..k] + [insts[k]] == insts[..k + 1] && insts[..k + 1][..k] == insts[..k];
      s := After(s, insts[k]);
    }
    assert insts[..7] == insts;
    OpenScanned();
  }

  function Scanned(s: Scans, insts: seq<Inst>): Scans {
    if insts == [] then s else After(Scanned(s, insts[..|insts| - 1]), insts[|insts| - 1])
  }

  lemma OpenScanned()
    ensures var s := Scanned(Scans(map[], {}, 0, [0, 0, 0], []), OpenSize());
      s.specs == map[1 := 0, 2 := 1] && s.wg == {3} && s.modes == 1 && s.size == [1, 1, 1] && s.ids == [1, 2, 3]
  {
    var s := OpenSize();
    var start := Scans(map[], {}, 0, [0, 0, 0], []);
    assert s[..6][..5] == s[..5] && s[..5][..4] == s[..4] && s[..4][..3] == s[..3] && s[..3][..2] == s[..2] && s[..2][..1] == s[..1];
    assert Scanned(start, s[..1]) == Scans(map[], {}, 1, [1, 1, 1], []) by { assert s[0][3..6] == [1, 1, 1]; }
    assert Scanned(start, s[..2]) == Scans(map[], {3}, 1, [1, 1, 1], []);
    assert Scanned(start, s[..4]) == Scans(map[1 := 0, 2 := 1], {3}, 1, [1, 1, 1], []);
    assert Scanned(start, s[..6]) == Scans(map[1 := 0, 2 := 1], {3}, 1, [1, 1, 1], [1, 2]);
    assert s[..|s| - 1] == s[..6];
  }

  lemma NothingFound()
    ensures Found([], Scans(map[], {}, 0, [0, 0, 0], []))
  {}

  lemma OpenMembers()
    ensures Members({3}, OpenSize()) == Some([1, 2, 2])
  {
    var s := OpenSize();
    MembersAt({3}, s, 6);
    assert s[6][3..6] == [1, 2, 2];
  }

  lemma MembersAt(ids: set<nat>, insts: seq<Inst>, k: nat)
    requires k < |insts| && SpecComposite(ids, insts[k]) && forall i :: 0 <= i < k ==> !SpecComposite(ids, insts[i])
    ensures Members(ids, insts) == Some(insts[k][3..6])
  {
    if k > 0 { MembersAt(ids, insts[1..], k - 1); }
  }

  /** The dispatch supplies the first dimension only. The module is patched to 32,
      1 and 1, but the second member's own value is 5. */
  lemma UnsuppliedDefault(w: World)
    ensures var m, entries := OpenModule(), [Entry(0, Some(32))];
      && m.Valid() && GoodIds(m.insts, m.Bound()) && Eligible(m.insts, entries) && Members(WorkgroupIds(m.insts), m.insts) == Some([1, 2, 2])
      && Resolved(m.insts, entries) == [32, 1, 1] && Get(Consts(w, SpecializationOf(m.insts, entries), m.insts), 2) == Scalar(5)
  {
    hide Decorations, WorkgroupIds, CountModes, LastMode, Ids, Consts, OpenSize;
    var m, entries := OpenModule(), [Entry(0, Some(32))];
    var scans := OpenScans();
    OpenMembers();
    OpenSized();
    assert EntryValue(entries, 0) == Some(32) && EntryValue(entries, 1) == None;
    var size := Resolved(m.insts, entries);
    assert size == [32, 1, 1] by { assert size[0] == 32 && size[1] == 1 && size[2] == 1; }
    OpenConstant(w, SpecializationOf(m.insts, entries), Consts(w, SpecializationOf(m.insts, entries), m.insts[..5]));
    ConstAt(w, SpecializationOf(m.insts, entries), m.insts, m.Bound(), 5);
  }

  lemma OpenSized()
    ensures OpenModule().Valid() && |OpenSize()| == 7
  {}

  lemma OpenConstant(w: World, s: Specialization, env: Env)
    requires s == Specialization(map[1 := 0, 2 := 1], [Entry(0, Some(32))])
    ensures DeclaredId(OpenSize()[5]) == Some(2) && Declared(w, s, env, OpenSize()[5]) == Some(Scalar(5))
  {
    assert EntryValue(s.entries, 1) == None;
  }
}
