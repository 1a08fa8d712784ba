/** Exactly which manifests the verifier accepts, field by field. */
module ManifestAccepted {
  import opened Words
  import opened Ops
  import opened Analysis
  import opened Manifest

  /** The file it names, if it names one, is the one it describes. */
  ghost predicate Describes(m: Manifest, source: Source, hash: File -> nat) {
    && m.words.Some? && m.words.value > 0 && m.bytes == Some(4 * m.words.value)
    && match source
       case Unnamed => true
       case Gone => false
       case Found(file) => m.words == Some(|file.words|) && file.rest == 0 && m.hash == hash(file)
  }

  /** The declared descriptor has another number than the probe's. */
  predicate NumberApart(m: Manifest, i: nat)
    requires i < |m.declared|
  {
    m.declared[i].0.Some? && m.declared[i].1.Some? && m.declared[i].1 != m.binding
  }

  /** The probe's descriptor is within the limits, the one checked for collisions,
      reported to have none, and its number is no declared one's. */
  ghost predicate DescriptorSafe(m: Manifest) {
    && m.available == Some(true)
    && m.set_.Some? && 0 <= m.set_.value < 8 && m.binding.Some? && 0 <= m.binding.value < 16
    && m.pass && m.proposedSet == m.set_ && m.proposedBinding == m.binding && m.within == Some(true)
    && m.flags.pair == Some(false) && m.flags.number == Some(false) && m.flags.duplicate == Some(false)
    && forall i :: 0 <= i < |m.declared| ==> NumberApart(m, i)
  }

  ghost predicate Within(v: Option<int>, words: Option<int>) { v.Some? && words.Some? && 0 <= v.value < words.value }

  ghost predicate CandidateSafe(c: Candidate, lo: int, hi: int, words: Option<int>) {
    && c.id.Some? && lo <= c.id.value < hi
    && Within(c.wordIndex, words) && Within(c.entry, words) && Within(c.exit, words) && c.entry.value <= c.exit.value
    && c.fn.Some? && c.block.Some? && c.ordinal.Some?
  }

  /** The candidates are those of the range, each once. */
  ghost predicate SelectionSafe(m: Manifest) {
    && m.span.Some? && 0 <= m.span.value.0 < m.span.value.1
    && m.count == Some(|m.candidates|) && |m.candidates| == m.span.value.1 - m.span.value.0
    && (forall k :: 0 <= k < |m.candidates| ==> CandidateSafe(m.candidates[k], m.span.value.0, m.span.value.1, m.words))
    && (forall j, k :: 0 <= j < k < |m.candidates| ==> m.candidates[j].id != m.candidates[k].id)
  }

  /** The range lists its own indices and says how many they are. */
  ghost predicate RangeSafe(r: Range) {
    && r.span.Some? && 0 <= r.span.value.0 <= r.span.value.1
    && r.count == Some(r.span.value.1 - r.span.value.0) && |r.indices| == r.span.value.1 - r.span.value.0
    && forall i :: 0 <= i < |r.indices| ==> r.indices[i] == r.span.value.0 + i
  }

  ghost predicate TargetSafe(t: Target, words: Option<int>) {
    && t.role in {Role.FinalStore, Role.Partial, Role.Reduction, Role.PostReduction}
    && Within(t.wordIndex, words) && t.block.fn.Some? && t.block.block.Some? && t.block.ordinal.Some? && t.candidate.Some?
    && t.capture.Some? && StoredBits in t.capture.value && OutputIndex in t.capture.value
    && (t.role == FinalStore ==> t.site.kind == "descriptor" && t.site.binding == Some(2))
    && (t.role != FinalStore ==> t.site.kind == "variable" && t.site.shared && t.related.Some?)
  }

  ghost predicate PhaseSafe(p: Phase, words: Option<int>) {
    && p.name in {PhaseName.Tail, PhaseName.Full, PhaseName.Single}
    && (forall i :: 0 <= i < |p.sources| ==> p.sources[i].Some?)
    && TargetSafe(p.output, words) && forall i :: 0 <= i < |p.preceding| ==> TargetSafe(p.preceding[i], words)
  }

  /** All targets are sound; an available plan has a final store, a reduction and a phase. */
  ghost predicate TargetsSafe(m: Manifest) {
    && m.outputBinding == Some(2) && m.targetsAvailable.Some?
    && m.finals.Some? && m.finals.value >= 0 && m.shared.Some? && m.shared.value >= 0
    && (forall i :: 0 <= i < |m.phases| ==> PhaseSafe(m.phases[i], m.words))
    && (forall i :: 0 <= i < |m.priority| ==> TargetSafe(m.priority[i], m.words))
    && (m.targetsAvailable == Some(true) ==>
          && (exists i :: 0 <= i < |m.priority| && m.priority[i].role == FinalStore)
          && (exists i :: 0 <= i < |m.priority| && m.priority[i].role == Reduction)
          && m.phases != [])
  }

  /** The fields with fixed values have them; nothing but an approved transform of
      a whole module came before. */
  ghost predicate FixedRight(f: Fixed) {
    && f.schema == Some("pdocker.spirv.probe-manifest.v1") && f.analysis == Some("pdocker.spirv.analysis.v1") && f.basis == Some("effective-pre-debug")
    && (f.transforms.None? || f.transforms.value == [] || f.transforms.value == ["noop-debug-ssbo-declaration"] || f.transforms.value == ["q6-debug-ssbo-probe-writes"])
    && f.submission == Some("valid-module-instrumentation")
    && f.fragments == Some(false) && f.llama == Some(false) && f.docker == Some(false) && f.order == Some(false)
    && f.transport == Some("append-as-normal-vulkan-dispatch-v4-binding") && f.buffer == Some("storage_buffer") && f.access == Some("write_only")
    && f.duplicates && f.validate == Some(true) && f.dispatch == Some(false)
    && InputValid in f.messages && OutputValid in f.messages && NoCollision in f.messages
    && f.selection == Some("instrument-valid-module-not-arbitrary-fragment") && f.targets == Some("structural-output-descriptor-and-workgroup-store-chain")
  }

  // ---- part by part ----

  lemma FixedIff(f: Fixed)
    ensures FixedRight(f) <==> Approved(f) && Allowed(f.transforms)
  {
    hide MESSAGES, Allowed;
    MessagesIff(f.messages);
    AllowedIff(f.transforms);
  }

  lemma AllowedIff(t: Option<seq<string>>)
    ensures Allowed(t) <==> t.None? || t.value == [] || t.value == ["noop-debug-ssbo-declaration"] || t.value == ["q6-debug-ssbo-probe-writes"]
  {
    var all: seq<Option<seq<string>>> := [None, Some([]), Some(["noop-debug-ssbo-declaration"]), Some(["q6-debug-ssbo-probe-writes"])];
    if t.Some? {
      if t.value == [] { assert t == all[1]; }
      if t.value == ["noop-debug-ssbo-declaration"] { assert t == all[2]; }
      if t.value == ["q6-debug-ssbo-probe-writes"] { assert t == all[3]; }
    } else {
      assert t == all[0];
    }
    if Allowed(t) {
      assert t in all;
      var i :| 0 <= i < 4 && all[i] == t;
    }
  }

  lemma MessagesIff(messages: seq<Gate>)
    ensures (forall i | 0 <= i < |MESSAGES| :: MESSAGES[i] in messages) <==> InputValid in messages && OutputValid in messages && NoCollision in messages
  {
    assert MESSAGES[0] == InputValid && MESSAGES[1] == OutputValid && MESSAGES[2] == NoCollision && |MESSAGES| == 3;
  }

  lemma DescriptorIff(m: Manifest)
    ensures DescriptorSafe(m) <==> DebugErrors(m) == [] && CollisionErrors(m) == [] && Flatten(DeclaredErrors(m)) == []
  {
    hide DebugErrors, CollisionErrors, DeclaredErrors, Flatten;
    DebugFine(m);
    CollisionIff(m);
    DeclaredIff(m);
  }

  lemma CollisionIff(m: Manifest)
    ensures CollisionErrors(m) == [] <==>
      && m.pass && m.proposedSet == m.set_ && m.proposedBinding == m.binding && m.within == Some(true)
      && m.flags.pair == Some(false) && m.flags.number == Some(false) && m.flags.duplicate == Some(false)
  {}

  lemma DeclaredOne(m: Manifest, i: nat)
    requires i < |m.declared|
    ensures DeclaredErrors(m)[i] == [] <==> NumberApart(m, i)
  {}

  lemma DeclaredIff(m: Manifest)
    ensures Flatten(DeclaredErrors(m)) == [] <==> forall i :: 0 <= i < |m.declared| ==> NumberApart(m, i)
  {
    hide Flatten, DeclaredError, NumberApart;
    FlattenEmpty(DeclaredErrors(m));
    forall i | 0 <= i < |m.declared| ensures DeclaredErrors(m)[i] == [] <==> NumberApart(m, i) { DeclaredOne(m, i); }
  }

  lemma CandidateIff(m: Manifest, k: nat)
    requires k < |m.candidates| && m.words.Some? && m.span.Some?
    ensures CandidateError(m, k) == [] <==>
      CandidateSafe(m.candidates[k], m.span.value.0, m.span.value.1, m.words) && m.candidates[k].id.value !in SeenIds(m.candidates[..k])
  {
    hide SeenIds;
  }

  lemma SeenIff(cs: seq<Candidate>, k: nat)
    requires k < |cs| && cs[k].id.Some?
    ensures cs[k].id.value in SeenIds(cs[..k]) <==> exists j :: 0 <= j < k && cs[j].id == cs[k].id
  {
    var front := cs[..k];
    if cs[k].id.value in SeenIds(front) {
      var j :| 0 <= j < |front| && front[j].id.Some? && front[j].id.value == cs[k].id.value;
      assert cs[j].id == cs[k].id;
    }
    if j :| 0 <= j < k && cs[j].id == cs[k].id { assert front[j] == cs[j]; }
  }

  lemma AllCandidatesIff(m: Manifest)
    requires m.words.Some? && m.span.Some?
    ensures Flatten(CandidateErrors(m)) == [] <==>
      && (forall k :: 0 <= k < |m.candidates| ==> CandidateSafe(m.candidates[k], m.span.value.0, m.span.value.1, m.words))
      && (forall j, k :: 0 <= j < k < |m.candidates| ==> m.candidates[j].id != m.candidates[k].id)
  {
    hide CandidateError, CandidateSafe, SeenIds, Flatten;
    FlattenEmpty(CandidateErrors(m));
    forall k | 0 <= k < |m.candidates|
      ensures CandidateErrors(m)[k] == [] <==>
        CandidateSafe(m.candidates[k], m.span.value.0, m.span.value.1, m.words) && forall j :: 0 <= j < k ==> m.candidates[j].id != m.candidates[k].id
    {
      CandidateIff(m, k);
      SafeHasId(m.candidates[k], m.span.value.0, m.span.value.1, m.words);
      if m.candidates[k].id.Some? { SeenIff(m.candidates, k); }
    }
  }

  lemma SafeHasId(c: Candidate, lo: int, hi: int, words: Option<int>)
    ensures CandidateSafe(c, lo, hi, words) ==> c.id.Some? && lo <= c.id.value < hi
  {}

  /** Ids of the range, as many as it has and all different, are all of it. */
  lemma {:induction false} RangeFilled(ids: set<int>, lo: int, hi: int)
    requires lo <= hi && |ids| == hi - lo && forall id :: id in ids ==> lo <= id < hi
    ensures forall id :: lo <= id < hi ==> id in ids
    decreases hi - lo
  {
    if lo < hi {
      var rest := ids - {hi - 1};
      if hi - 1 !in ids {
        assert rest == ids;
        TooFew(ids, lo, hi - 1);
        assert false;
      }
      assert ids == rest + {hi - 1};
      RangeFilled(rest, lo, hi - 1);
    }
  }

  lemma {:induction false} TooFew(ids: set<int>, lo: int, hi: int)
    requires lo <= hi && forall id :: id in ids ==> lo <= id < hi
    ensures |ids| <= hi - lo
    decreases hi - lo
  {
    if lo == hi {
      if id :| id in ids { assert false; }
    } else {
      TooFew(ids - {hi - 1}, lo, hi - 1);
      if hi - 1 in ids { assert |ids| == |ids - {hi - 1}| + 1; } else { assert ids - {hi - 1} == ids; }
    }
  }

  lemma {:induction false} SeenCount(cs: seq<Candidate>)
    requires forall k :: 0 <= k < |cs| ==> cs[k].id.Some?
    requires forall j, k :: 0 <= j < k < |cs| ==> cs[j].id != cs[k].id
    ensures |SeenIds(cs)| == |cs|
  {
    hide SeenIds;
    if cs == [] {
      NothingSeen();
    } else {
      var n := |cs| - 1;
      SeenCount(cs[..n]);
      SeenMore(cs, n);
      SeenIff(cs, n);
      assert cs[..n + 1] == cs;
    }
  }

  lemma NothingSeen()
    ensures SeenIds([]) == {}
  {}

  lemma SeenIn(cs: seq<Candidate>, id: int)
    requires id in SeenIds(cs)
    ensures exists k :: 0 <= k < |cs| && cs[k].id == Some(id)
  {}

  lemma CoversRange(m: Manifest)
    requires SelectionSafe(m)
    ensures SeenIds(m.candidates) == Between(m.span.value.0, m.span.value.1)
  {
    hide SeenIds, Between, CandidateSafe;
    var lo, hi := m.span.value.0, m.span.value.1;
    forall k | 0 <= k < |m.candidates| ensures m.candidates[k].id.Some? && lo <= m.candidates[k].id.value < hi { SafeHasId(m.candidates[k], lo, hi, m.words); }
    SeenCount(m.candidates);
    forall id | id in SeenIds(m.candidates) ensures lo <= id < hi { SeenIn(m.candidates, id); }
    RangeFilled(SeenIds(m.candidates), lo, hi);
    forall id ensures id in Between(lo, hi) <==> lo <= id < hi { BetweenIs(lo, hi, id); }
    assert SeenIds(m.candidates) == Between(lo, hi);
  }

  lemma BetweenIs(lo: int, hi: int, id: int)
    ensures id in Between(lo, hi) <==> lo <= id < hi
  {
    if lo <= id < hi { assert Indices(lo, hi)[id - lo] == id; }
  }

  lemma SelectionIff(m: Manifest)
    requires m.words.Some?
    ensures SelectionSafe(m) <==> SelectionErrors(m) == []
  {
    hide CandidateErrors, SeenIds, Between, SelectionErrors, CandidateSafe, Flatten;
    SelectionParts(m);
    if m.span.Some? { AllCandidatesIff(m); }
    if SelectionSafe(m) { CoversRange(m); }
  }

  lemma RangeIff(r: Range)
    ensures RangeSafe(r) <==> RangeError(r) == []
  {
    if r.span.Some? && 0 <= r.span.value.0 <= r.span.value.1 && RangeSafe(r) { assert r.indices == Indices(r.span.value.0, r.span.value.1); }
  }

  lemma RangesIff(m: Manifest)
    ensures Flatten(RangeErrors(m)) == [] <==> forall i :: 0 <= i < |m.ranges| ==> RangeSafe(m.ranges[i])
  {
    hide RangeSafe, RangeError;
    FlattenEmpty(RangeErrors(m));
    forall i | 0 <= i < |m.ranges| ensures RangeErrors(m)[i] == [] <==> RangeSafe(m.ranges[i]) { RangeIff(m.ranges[i]); }
  }

  lemma TargetIff(m: Manifest, t: Target)
    requires m.words.Some?
    ensures TargetSafe(t, m.words) <==> TargetError(m, t) == []
  {}

  lemma TargetListIff(m: Manifest, ts: seq<Target>)
    requires m.words.Some?
    ensures Flatten(TargetErrors(m, ts)) == [] <==> forall i :: 0 <= i < |ts| ==> TargetSafe(ts[i], m.words)
  {
    hide TargetSafe, TargetError;
    FlattenEmpty(TargetErrors(m, ts));
    forall i | 0 <= i < |ts| ensures TargetErrors(m, ts)[i] == [] <==> TargetSafe(ts[i], m.words) { TargetIff(m, ts[i]); }
  }

  lemma PhaseIff(m: Manifest, p: Phase)
    requires m.words.Some?
    ensures PhaseSafe(p, m.words) <==> PhaseError(m, p) == []
  {
    hide TargetSafe, TargetError, TargetErrors;
    TargetIff(m, p.output);
    TargetListIff(m, p.preceding);
  }

  lemma PhaseListIff(m: Manifest)
    requires m.words.Some?
    ensures Flatten(PhaseErrors(m, m.phases)) == [] <==> forall i :: 0 <= i < |m.phases| ==> PhaseSafe(m.phases[i], m.words)
  {
    hide PhaseSafe, PhaseError;
    FlattenEmpty(PhaseErrors(m, m.phases));
    forall i | 0 <= i < |m.phases| ensures PhaseErrors(m, m.phases)[i] == [] <==> PhaseSafe(m.phases[i], m.words) { PhaseIff(m, m.phases[i]); }
  }

  lemma TargetsIff(m: Manifest)
    requires m.words.Some?
    ensures TargetsSafe(m) <==> TargetsErrors(m) == []
  {
    hide PhaseSafe, TargetSafe, PhaseErrors, TargetErrors;
    PhaseListIff(m);
    TargetListIff(m, m.priority);
  }

  // ---- the whole ----

  /** The verifier finds nothing exactly if all of this holds. */
  lemma AcceptedExactly(m: Manifest, source: Source, hash: File -> nat)
    ensures Errors(m, source, hash) == [] <==>
      && FixedRight(m.fixed) && Describes(m, source, hash) && DescriptorSafe(m) && SelectionSafe(m)
      && (forall i :: 0 <= i < |m.ranges| ==> RangeSafe(m.ranges[i])) && TargetsSafe(m)
  {
    hide *;
    NoErrors(m, source, hash);
    BasisFine(m, source, hash);
    FixedIff(m.fixed);
    DescribesIs(m, source, hash);
    DescriptorIff(m);
    RangesIff(m);
    if m.words.Some? {
      SelectionIff(m);
      TargetsIff(m);
    }
  }

  lemma DescribesIs(m: Manifest, source: Source, hash: File -> nat)
    ensures Describes(m, source, hash) <==>
      && m.words.Some? && m.words.value > 0 && m.bytes == Some(4 * m.words.value)
      && !source.Gone? && (source.Found? ==> m.words == Some(|source.file.words|) && source.file.rest == 0 && hash(source.file) == m.hash)
  {}

  /** A manifest that names no file is accepted whatever hash it gives, if it is
      accepted with its file. */
  lemma UnnamedUnchecked(m: Manifest, file: File, hash: File -> nat, other: nat)
    requires Errors(m, Found(file), hash) == []
    ensures Errors(m.(hash := other), Unnamed, hash) == []
  {
    hide FixedRight, DescriptorSafe, SelectionSafe, RangeSafe, TargetsSafe, Errors;
    AcceptedExactly(m, Found(file), hash);
    AcceptedExactly(m.(hash := other), Unnamed, hash);
    Unhashed(m, other);
  }

  lemma Unhashed(m: Manifest, other: nat)
    ensures var n := m.(hash := other);
      DescriptorSafe(n) == DescriptorSafe(m) && SelectionSafe(n) == SelectionSafe(m) && TargetsSafe(n) == TargetsSafe(m)
  {
    hide CandidateSafe, PhaseSafe, TargetSafe;
    var n := m.(hash := other);
    assert forall i :: 0 <= i < |m.declared| ==> NumberApart(n, i) == NumberApart(m, i);
  }
}
