/** The probe manifest: what the analyser writes and what the verifier asks of
    one. A field that is missing or has the wrong type is `None`. */
module Manifest {
  import opened Words
  import opened Ops
  import opened ControlFlow
  import opened Analysis
  import B = Bisection

  datatype Candidate = Candidate(id: Option<int>, wordIndex: Option<int>, entry: Option<int>, exit: Option<int>,
                                 fn: Option<int>, block: Option<int>, ordinal: Option<int>)

  datatype BlockRef = BlockRef(fn: Option<int>, block: Option<int>, ordinal: Option<int>)

  /** Where a store goes; `shared` is workgroup memory. */
  datatype Site = Site(kind: string, binding: Option<int>, shared: bool)

  datatype Role = FinalStore | Partial | Reduction | PostReduction | OtherRole

  datatype Target = Target(role: Role, wordIndex: Option<int>, block: BlockRef, candidate: Option<int>, capture: Option<seq<Captured>>, site: Site,
                           related: Option<int>)

  datatype PhaseName = Tail | Full | Single | OtherName

  datatype Phase = Phase(name: PhaseName, sources: seq<Option<int>>, output: Target, preceding: seq<Target>)

  datatype Range = Range(span: Option<(int, int)>, indices: seq<int>, count: Option<int>)

  /** Fields with fixed values: what the manifest is, what it allows, how the
      probe buffer is passed, and what must be checked before a dispatch. */
  datatype Fixed = Fixed(
    schema: Option<string>, analysis: Option<string>, basis: Option<string>, transforms: Option<seq<string>>,
    submission: Option<string>, fragments: Option<bool>, llama: Option<bool>, docker: Option<bool>, order: Option<bool>,
    transport: Option<string>, buffer: Option<string>, access: Option<string>, duplicates: bool,
    validate: Option<bool>, dispatch: Option<bool>, messages: seq<Gate>, selection: Option<string>, targets: Option<string>)

  const SCHEMA := "pdocker.spirv.probe-manifest.v1"
  const ANALYSIS_SCHEMA := "pdocker.spirv.analysis.v1"
  const BASIS := "effective-pre-debug"
  const SUBMISSION := "valid-module-instrumentation"
  const TRANSPORT := "append-as-normal-vulkan-dispatch-v4-binding"
  const PROBE_METHOD := "instrument-valid-module-not-arbitrary-fragment"
  const TARGETS_METHOD := "structural-output-descriptor-and-workgroup-store-chain"
  /** The checks a manifest lists before a dispatch; three of them it must list. */
  datatype Gate = InputValid | OutputValid | NoCollision | PhiOrder | MergeOrder | DistinctSlots | HashRecorded | OtherGate(text: string)

  /** What a probe records; the stored bits and the index it must record. */
  datatype Captured = LocalInvocation | WorkgroupNumber | OutputIndex | StoredBits | CandidateNumber | OtherValue(text: string)

  const MESSAGES := [InputValid, OutputValid, NoCollision]

  /** The three kinds of collision that are reported. */
  datatype Flags = Flags(pair: Option<bool>, number: Option<bool>, duplicate: Option<bool>)

  datatype Manifest = Manifest(
    fixed: Fixed, words: Option<int>, bytes: Option<int>, hash: nat,
    available: Option<bool>, set_: Option<int>, binding: Option<int>,
    pass: bool, proposedSet: Option<int>, proposedBinding: Option<int>, flags: Flags, within: Option<bool>,
    declared: seq<(Option<int>, Option<int>)>,
    span: Option<(int, int)>, count: Option<int>, candidates: seq<Candidate>, ranges: seq<Range>,
    outputBinding: Option<int>, targetsAvailable: Option<bool>, finals: Option<int>, shared: Option<int>,
    phases: seq<Phase>, priority: seq<Target>)

  type Rest = n: nat | n < 4

  /** The source file: its words and up to three bytes behind them. */
  datatype File = File(words: seq<Word>, rest: Rest) {
    function Bytes(): nat { 4 * |words| + rest }
  }

  /** What the manifest's path leads to; without a path no file is looked at. */
  datatype Source = Unnamed | Gone | Found(file: File)

  // ---- the verifier ----

  /** No part has a finding. */
  lemma {:induction false} FlattenEmpty<T>(parts: seq<seq<T>>)
    ensures Flatten(parts) == [] <==> forall i :: 0 <= i < |parts| ==> parts[i] == []
  {
    if parts != [] {
      FlattenEmpty(parts[1..]);
      assert forall i :: 1 <= i < |parts| ==> parts[i] == parts[1..][i - 1];
    }
  }

  function If(c: bool, e: string): seq<string> { if c then [e] else [] }

  function Outside(v: Option<int>, words: Option<int>): bool {
    words.Some? && v.Some? && !(0 <= v.value < words.value)
  }

  function HeadErrors(f: Fixed): seq<string> {
    If(f.schema != Some(SCHEMA), "schema") + If(f.analysis != Some(ANALYSIS_SCHEMA), "analysis_schema") + If(f.basis != Some(BASIS), "instrumentation_basis")
  }

  /** Nothing, or one of the two transforms of a whole module. */
  predicate Allowed(transforms: Option<seq<string>>) {
    transforms in [None, Some([]), Some(["noop-debug-ssbo-declaration"]), Some(["q6-debug-ssbo-probe-writes"])]
  }

  function PolicyErrors(f: Fixed): seq<string> {
    If(f.submission != Some(SUBMISSION), "submission_model") + If(f.fragments != Some(false), "fragments") + If(f.llama != Some(false), "llama")
    + If(f.docker != Some(false), "docker") + If(f.order != Some(false), "order")
  }

  function TransportErrors(f: Fixed): seq<string> {
    If(f.transport != Some(TRANSPORT), "transport") + If(f.buffer != Some("storage_buffer"), "descriptor_type") + If(f.access != Some("write_only"), "access")
  }

  function GateErrors(f: Fixed): seq<string> {
    If(f.validate != Some(true), "spirv-val") + If(f.dispatch != Some(false), "dispatch")
    + Flatten(seq(|MESSAGES|, i requires 0 <= i < |MESSAGES| => If(MESSAGES[i] !in f.messages, "messages")))
  }

  function BasisErrors(m: Manifest, source: Source, hash: File -> nat): seq<string> {
    If(m.words.None? || m.words.value <= 0, "module_words")
    + (if m.bytes.None? || m.bytes.value <= 0 || m.bytes.value % 4 != 0 then ["module_bytes"]
       else If(m.words.Some? && m.bytes.value != m.words.value * 4, "module_bytes and module_words"))
    + If(!Allowed(m.fixed.transforms), "prior_transforms")
    + match source
      case Unnamed => []
      case Gone => ["source_spirv"]
      case Found(data) =>
        If(m.bytes.Some? && data.Bytes() != m.bytes.value, "source size") + If(m.words.Some? && |data.words| != m.words.value, "source words")
        + If(hash(data) != m.hash, "module_hash")
  }

  function DebugErrors(m: Manifest): seq<string> {
    If(m.available != Some(true), "available")
    + If(m.set_.None? || m.binding.None?, "set and binding")
    + If(m.set_.None? || m.set_.value < 0 || m.binding.None? || m.binding.value < 0, "negative")
    + If(m.set_.Some? && m.set_.value >= MAX_SETS, "set limit")
    + If(m.binding.Some? && m.binding.value >= MAX_BINDINGS, "binding limit")
  }

  function CollisionErrors(m: Manifest): seq<string> {
    If(!m.pass, "decision")
    + If(m.proposedSet != m.set_ || m.proposedBinding != m.binding, "proposed")
    + If(m.flags.pair != Some(false), "static_declared_collision") + If(m.flags.number != Some(false), "static_binding_number_collision")
    + If(m.flags.duplicate != Some(false), "duplicate_binding_collision")
    + If(m.within != Some(true), "limits")
  }

  function DeclaredError(m: Manifest, i: nat): seq<string>
    requires i < |m.declared|
  {
    var (s, b) := m.declared[i];
    if s.None? || b.None? then ["declared set and binding"]
    else If(s == m.set_ && b == m.binding, "declared pair") + If(b == m.binding, "declared binding")
  }

  function DeclaredErrors(m: Manifest): (parts: seq<seq<string>>)
    ensures |parts| == |m.declared|
  {
    seq(|m.declared|, i requires 0 <= i < |m.declared| => DeclaredError(m, i))
  }

  function FieldErrors(c: Candidate, words: Option<int>): seq<string> {
    If(c.wordIndex.None? || Outside(c.wordIndex, words), "word_index")
    + If(c.entry.None? || Outside(c.entry, words), "entry")
    + If(c.exit.None? || Outside(c.exit, words), "exit")
    + If(c.fn.None?, "function_id") + If(c.block.None?, "block_label") + If(c.ordinal.None?, "block_ordinal")
  }

  function CandidateError(m: Manifest, k: nat): seq<string>
    requires k < |m.candidates|
  {
    var c := m.candidates[k];
    if c.id.None? then ["candidate_id"]
    else
      If(c.id.value in SeenIds(m.candidates[..k]), "duplicate candidate_id")
      + If(m.span.Some? && !(m.span.value.0 <= c.id.value < m.span.value.1), "candidate_id range")
      + FieldErrors(c, m.words)
      + If(c.entry.Some? && c.exit.Some? && c.entry.value > c.exit.value, "entry after exit")
  }

  function CandidateErrors(m: Manifest): (parts: seq<seq<string>>)
    ensures |parts| == |m.candidates|
  {
    seq(|m.candidates|, k requires 0 <= k < |m.candidates| => CandidateError(m, k))
  }

  function SeenIds(candidates: seq<Candidate>): set<int> {
    set k | 0 <= k < |candidates| && candidates[k].id.Some? :: candidates[k].id.value
  }

  function Between(lo: int, hi: int): set<int> { set i | i in Indices(lo, hi) }

  function WidthErrors(m: Manifest): seq<string> {
    match m.span
    case Some((lo, hi)) =>
      if 0 <= lo < hi then If(m.count != Some(|m.candidates|), "selected_candidate_count") + If(m.count != Some(hi - lo), "range width")
      else ["candidate_range"]
    case None => ["candidate_range"]
  }

  function IdErrors(m: Manifest, seen: set<int>): seq<string> {
    match m.span
    case Some((lo, hi)) => If(seen != {} && seen != Between(lo, hi), "candidate ids")
    case None => []
  }

  function SelectionErrors(m: Manifest): seq<string> {
    WidthErrors(m) + Flatten(CandidateErrors(m)) + IdErrors(m, SeenIds(m.candidates))
  }

  function Indices(lo: int, hi: int): seq<int> {
    if lo < hi then seq(hi - lo, i requires 0 <= i < hi - lo => lo + i) else []
  }

  function RangeError(r: Range): seq<string> {
    match r.span
    case Some((lo, hi)) =>
      if 0 <= lo <= hi then If(r.indices != Indices(lo, hi), "range indices") + If(r.count != Some(hi - lo), "range count") else ["range"]
    case None => ["range"]
  }

  function RangeErrors(m: Manifest): (parts: seq<seq<string>>)
    ensures |parts| == |m.ranges|
  {
    seq(|m.ranges|, i requires 0 <= i < |m.ranges| => RangeError(m.ranges[i]))
  }

  function TargetError(m: Manifest, t: Target): seq<string> {
    If(t.role == OtherRole, "role")
    + If(t.wordIndex.None? || Outside(t.wordIndex, m.words), "target word_index")
    + If(t.block.fn.None?, "target function") + If(t.block.block.None?, "target block") + If(t.block.ordinal.None?, "target ordinal")
    + If(t.candidate.None?, "target candidate")
    + If(t.capture.None? || StoredBits !in t.capture.value || OutputIndex !in t.capture.value, "capture")
    + if t.role == FinalStore then If(t.site.kind != "descriptor" || t.site.binding != Some(OUTPUT_BINDING), "target base")
      else if t.role == OtherRole then []
      else If(t.site.kind != "variable" || !t.site.shared, "target base") + If(t.related.None?, "related store")
  }

  function TargetErrors(m: Manifest, ts: seq<Target>): (parts: seq<seq<string>>)
    ensures |parts| == |ts|
  {
    seq(|ts|, i requires 0 <= i < |ts| => TargetError(m, ts[i]))
  }

  function PhaseError(m: Manifest, p: Phase): seq<string> {
    If(p.name == OtherName, "phase name")
    + If(exists i | 0 <= i < |p.sources| :: p.sources[i].None?, "phase sources")
    + TargetError(m, p.output)
    + Flatten(TargetErrors(m, p.preceding))
  }

  function PhaseErrors(m: Manifest, phases: seq<Phase>): (parts: seq<seq<string>>)
    ensures |parts| == |phases|
  {
    seq(|phases|, i requires 0 <= i < |phases| => PhaseError(m, phases[i]))
  }

  predicate HasRole(ts: seq<Target>, role: Role) { exists i | 0 <= i < |ts| :: ts[i].role == role }

  function TargetsErrors(m: Manifest): seq<string> {
    If(m.outputBinding != Some(OUTPUT_BINDING), "output_descriptor_binding")
    + If(m.targetsAvailable.None?, "targets available")
    + If(m.finals.None? || m.finals.value < 0, "final count") + If(m.shared.None? || m.shared.value < 0, "workgroup count")
    + Flatten(PhaseErrors(m, m.phases))
    + Flatten(TargetErrors(m, m.priority))
    + if m.targetsAvailable == Some(true) then
        If(!HasRole(m.priority, FinalStore), "no final store") + If(!HasRole(m.priority, Reduction), "no reduction") + If(m.phases == [], "no phases")
      else []
  }

  /** All findings, in the verifier's order. */
  function Errors(m: Manifest, source: Source, hash: File -> nat): seq<string> {
    HeadErrors(m.fixed) + BasisErrors(m, source, hash) + PolicyErrors(m.fixed) + TransportErrors(m.fixed) + DebugErrors(m) + CollisionErrors(m)
    + If(!m.fixed.duplicates, "duplicate_bindings") + Flatten(DeclaredErrors(m)) + GateErrors(m.fixed)
    + If(m.fixed.selection != Some(PROBE_METHOD), "probe_selection.method") + SelectionErrors(m)
    + Flatten(RangeErrors(m))
    + If(m.fixed.targets != Some(TARGETS_METHOD), "q6_probe_targets.method") + TargetsErrors(m)
  }

  // ---- its loops ----

  method CheckDeclared(m: Manifest) returns (errors: seq<string>)
    ensures errors == Flatten(DeclaredErrors(m))
  {
    errors := [];
    for i := 0 to |m.declared|
      invariant errors == Flatten(DeclaredErrors(m)[..i])
    {
      FlattenAt(DeclaredErrors(m), i);
      var (s, b) := m.declared[i];
      if s.None? || b.None? {
        errors := errors + ["declared set and binding"];
        continue;
      }
      var found: seq<string> := [];
      if s == m.set_ && b == m.binding { found := found + ["declared pair"]; }
      if b == m.binding { found := found + ["declared binding"]; }
      assert found == DeclaredError(m, i);
      errors := errors + found;
    }
    assert DeclaredErrors(m)[..|m.declared|] == DeclaredErrors(m);
  }

  /** What the loop does with one candidate. */
  method CheckCandidate(m: Manifest, k: nat, seen: set<int>) returns (found: seq<string>)
    requires k < |m.candidates| && seen == SeenIds(m.candidates[..k])
    ensures found == CandidateError(m, k)
  {
    var c := m.candidates[k];
    if c.id.None? { return ["candidate_id"]; }
    var inside, order: seq<string> := [], [];
    if m.span.Some? { inside := If(c.id.value < m.span.value.0 || c.id.value >= m.span.value.1, "candidate_id range"); }
    if c.entry.Some? && c.exit.Some? { order := If(c.entry.value > c.exit.value, "entry after exit"); }
    found := If(c.id.value in seen, "duplicate candidate_id") + inside + FieldErrors(c, m.words) + order;
  }

  /** The ids seen so far are kept in a set. */
  method CheckCandidates(m: Manifest) returns (errors: seq<string>, seen: set<int>)
    ensures errors == Flatten(CandidateErrors(m)) && seen == SeenIds(m.candidates)
  {
    errors, seen := [], {};
    for k := 0 to |m.candidates|
      invariant errors == Flatten(CandidateErrors(m)[..k]) && seen == SeenIds(m.candidates[..k])
    {
      var found := CheckCandidate(m, k, seen);
      FlattenAt(CandidateErrors(m), k);
      SeenMore(m.candidates, k);
      errors := errors + found;
      if m.candidates[k].id.Some? { seen := seen + {m.candidates[k].id.value}; }
    }
    assert m.candidates[..|m.candidates|] == m.candidates && CandidateErrors(m)[..|m.candidates|] == CandidateErrors(m);
  }

  lemma SeenMore(cs: seq<Candidate>, k: nat)
    requires k < |cs|
    ensures SeenIds(cs[..k + 1]) == SeenIds(cs[..k]) + if cs[k].id.Some? then {cs[k].id.value} else {}
  {
    var front, more := cs[..k], cs[..k + 1];
    forall x ensures x in SeenIds(more) <==> x in SeenIds(front) || (cs[k].id.Some? && x == cs[k].id.value) {
      if x in SeenIds(front) {
        var j :| 0 <= j < |front| && front[j].id.Some? && front[j].id.value == x;
        assert more[j] == front[j];
      }
      if cs[k].id.Some? && x == cs[k].id.value { assert more[k] == cs[k]; }
    }
  }

  /** The collected findings. */
  method VerifyManifest(m: Manifest, source: Source, hash: File -> nat) returns (errors: seq<string>)
    ensures errors == Errors(m, source, hash)
  {
    hide HeadErrors, PolicyErrors, TransportErrors, BasisErrors, DebugErrors, CollisionErrors, DeclaredErrors, WidthErrors, CandidateErrors, IdErrors, SeenIds,
      RangeErrors, RangeError, TargetsErrors, Errors, MESSAGES;
    var declared := CheckDeclared(m);
    var candidates, seen := CheckCandidates(m);
    var ranges: seq<string> := [];
    for i := 0 to |m.ranges|
      invariant ranges == Flatten(RangeErrors(m)[..i])
    {
      FlattenAt(RangeErrors(m), i);
      RangeErrorsAt(m, i);
      ranges := ranges + RangeError(m.ranges[i]);
    }
    assert RangeErrors(m)[..|m.ranges|] == RangeErrors(m);
    var messages: seq<string> := [];
    for i := 0 to |MESSAGES|
      invariant messages == Flatten(seq(i, j requires 0 <= j < i => If(MESSAGES[j] !in m.fixed.messages, "messages")))
    {
      MessageNext(m.fixed, i);
      if MESSAGES[i] !in m.fixed.messages { messages := messages + ["messages"]; }
    }
    var front := HeadErrors(m.fixed) + BasisErrors(m, source, hash) + PolicyErrors(m.fixed) + TransportErrors(m.fixed) + DebugErrors(m) + CollisionErrors(m);
    var gates := If(m.fixed.validate != Some(true), "spirv-val") + If(m.fixed.dispatch != Some(false), "dispatch") + messages;
    errors := front + If(!m.fixed.duplicates, "duplicate_bindings") + declared + gates
      + If(m.fixed.selection != Some(PROBE_METHOD), "probe_selection.method") + WidthErrors(m) + candidates + IdErrors(m, seen) + ranges
      + If(m.fixed.targets != Some(TARGETS_METHOD), "q6_probe_targets.method") + TargetsErrors(m);
    ErrorsAre(m, source, hash);
  }

  // ---- what acceptance means ----

  lemma MessageNext(f: Fixed, i: nat)
    requires i < |MESSAGES|
    ensures Flatten(seq(i + 1, j requires 0 <= j < i + 1 => If(MESSAGES[j] !in f.messages, "messages")))
      == Flatten(seq(i, j requires 0 <= j < i => If(MESSAGES[j] !in f.messages, "messages"))) + If(MESSAGES[i] !in f.messages, "messages")
  {
    hide MESSAGES;
    var all := seq(i + 1, j requires 0 <= j < i + 1 => If(MESSAGES[j] !in f.messages, "messages"));
    var front := seq(i, j requires 0 <= j < i => If(MESSAGES[j] !in f.messages, "messages"));
    assert all == front + [If(MESSAGES[i] !in f.messages, "messages")];
    FlattenSnoc(front, If(MESSAGES[i] !in f.messages, "messages"));
  }

  lemma RangeErrorsAt(m: Manifest, i: nat)
    requires i < |m.ranges|
    ensures RangeErrors(m)[i] == RangeError(m.ranges[i])
  {}

  lemma ErrorsAre(m: Manifest, source: Source, hash: File -> nat)
    ensures Errors(m, source, hash) == HeadErrors(m.fixed) + BasisErrors(m, source, hash) + PolicyErrors(m.fixed) + TransportErrors(m.fixed) + DebugErrors(m)
      + CollisionErrors(m) + If(!m.fixed.duplicates, "duplicate_bindings") + Flatten(DeclaredErrors(m)) + GateErrors(m.fixed)
      + If(m.fixed.selection != Some(PROBE_METHOD), "probe_selection.method") + WidthErrors(m) + Flatten(CandidateErrors(m)) + IdErrors(m, SeenIds(m.candidates))
      + Flatten(RangeErrors(m)) + If(m.fixed.targets != Some(TARGETS_METHOD), "q6_probe_targets.method") + TargetsErrors(m)
  {
    hide HeadErrors, PolicyErrors, TransportErrors, GateErrors, If, BasisErrors, DebugErrors, CollisionErrors, DeclaredErrors, WidthErrors, CandidateErrors, IdErrors, SeenIds, RangeErrors, TargetsErrors;
  }

  predicate Distinct(cs: seq<Candidate>) { forall j, k :: 0 <= j < k < |cs| ==> cs[j].id.Some? && cs[j].id != cs[k].id }

  predicate Names(cs: seq<Candidate>, id: int) { exists k | 0 <= k < |cs| :: cs[k].id == Some(id) }

  /** A manifest the verifier accepts names every candidate of its range exactly
      once, each with its insertion points inside the module and in order, and a
      probe descriptor within the limits whose number no declared descriptor has;
      it asks for validation and allows no dispatch and no fragments. */
  lemma AcceptedIsSafe(m: Manifest, source: Source, hash: File -> nat)
    requires Errors(m, source, hash) == []
    ensures m.words.Some? && m.words.value > 0 && m.bytes == Some(4 * m.words.value)
    ensures source.Found? ==> m.words == Some(|source.file.words|) && source.file.rest == 0 && hash(source.file) == m.hash
    ensures m.span.Some? && 0 <= m.span.value.0 < m.span.value.1
    ensures forall id :: m.span.value.0 <= id < m.span.value.1 ==> Names(m.candidates, id)
    ensures Distinct(m.candidates)
    ensures forall k :: 0 <= k < |m.candidates| ==> var c := m.candidates[k];
      c.entry.Some? && c.exit.Some? && 0 <= c.entry.value <= c.exit.value < m.words.value
    ensures m.set_.Some? && 0 <= m.set_.value < MAX_SETS && m.binding.Some? && 0 <= m.binding.value < MAX_BINDINGS
    ensures forall i :: 0 <= i < |m.declared| ==> m.declared[i].1.Some? && m.declared[i].1 != m.binding
    ensures m.fixed.fragments == Some(false) && m.fixed.dispatch == Some(false) && m.fixed.validate == Some(true)
  {
    hide *;
    ApprovedMeans(m.fixed);
    NoErrors(m, source, hash);
    BasisFine(m, source, hash);
    DebugFine(m);
    SelectionFine(m);
    FlattenEmpty(DeclaredErrors(m));
    forall i | 0 <= i < |m.declared| ensures m.declared[i].1.Some? && m.declared[i].1 != m.binding { DeclaredFine(m, i); }
  }

  lemma NoErrors(m: Manifest, source: Source, hash: File -> nat)
    ensures Errors(m, source, hash) == [] <==>
      && Approved(m.fixed) && BasisErrors(m, source, hash) == [] && DebugErrors(m) == [] && CollisionErrors(m) == []
      && Flatten(DeclaredErrors(m)) == [] && SelectionErrors(m) == [] && Flatten(RangeErrors(m)) == [] && TargetsErrors(m) == []
  {
    hide BasisErrors, DebugErrors, CollisionErrors, DeclaredErrors, SelectionErrors, RangeErrors, TargetsErrors, HeadErrors, PolicyErrors, TransportErrors, GateErrors,
      MESSAGES;
    FixedFine(m.fixed);
  }

  /** The fixed fields have their values; the transforms are looked at with the file. */
  predicate Approved(f: Fixed) {
    && f.schema == Some(SCHEMA) && f.analysis == Some(ANALYSIS_SCHEMA) && f.basis == Some(BASIS) && f.submission == Some(SUBMISSION)
    && f.fragments == Some(false) && f.llama == Some(false) && f.docker == Some(false) && f.order == Some(false)
    && f.transport == Some(TRANSPORT) && f.buffer == Some("storage_buffer") && f.access == Some("write_only") && f.duplicates
    && f.validate == Some(true) && f.dispatch == Some(false) && (forall i | 0 <= i < |MESSAGES| :: MESSAGES[i] in f.messages)
    && f.selection == Some(PROBE_METHOD) && f.targets == Some(TARGETS_METHOD)
  }

  lemma FixedFine(f: Fixed)
    ensures Approved(f) <==>
      && HeadErrors(f) == [] && PolicyErrors(f) == [] && TransportErrors(f) == [] && f.duplicates && GateErrors(f) == []
      && f.selection == Some(PROBE_METHOD) && f.targets == Some(TARGETS_METHOD)
  {
    hide SCHEMA, ANALYSIS_SCHEMA, BASIS, SUBMISSION, TRANSPORT, PROBE_METHOD, TARGETS_METHOD, MESSAGES;
    var parts := seq(|MESSAGES|, i requires 0 <= i < |MESSAGES| => If(MESSAGES[i] !in f.messages, "messages"));
    FlattenEmpty(parts);
    if GateErrors(f) == [] {
      forall i | 0 <= i < |MESSAGES| ensures MESSAGES[i] in f.messages { assert parts[i] == []; }
    }
  }

  lemma BasisFine(m: Manifest, source: Source, hash: File -> nat)
    ensures BasisErrors(m, source, hash) == [] <==>
      && m.words.Some? && m.words.value > 0 && m.bytes == Some(4 * m.words.value) && Allowed(m.fixed.transforms)
      && !source.Gone? && (source.Found? ==> m.words == Some(|source.file.words|) && source.file.rest == 0 && hash(source.file) == m.hash)
  {}

  lemma DebugFine(m: Manifest)
    ensures DebugErrors(m) == [] <==>
      && m.available == Some(true) && m.set_.Some? && 0 <= m.set_.value < MAX_SETS && m.binding.Some? && 0 <= m.binding.value < MAX_BINDINGS
  {}

  lemma SelectionParts(m: Manifest)
    ensures SelectionErrors(m) == [] <==>
      && m.span.Some? && 0 <= m.span.value.0 < m.span.value.1
      && m.count == Some(|m.candidates|) && |m.candidates| == m.span.value.1 - m.span.value.0
      && Flatten(CandidateErrors(m)) == []
      && (SeenIds(m.candidates) != {} ==> SeenIds(m.candidates) == Between(m.span.value.0, m.span.value.1))
  {
    hide CandidateErrors, SeenIds, Between;
  }

  lemma SelectionFine(m: Manifest)
    requires SelectionErrors(m) == [] && m.words.Some?
    ensures m.span.Some? && 0 <= m.span.value.0 < m.span.value.1
    ensures forall id :: m.span.value.0 <= id < m.span.value.1 ==> Names(m.candidates, id)
    ensures Distinct(m.candidates)
    ensures forall k :: 0 <= k < |m.candidates| ==> var c := m.candidates[k];
      c.entry.Some? && c.exit.Some? && 0 <= c.entry.value <= c.exit.value < m.words.value
  {
    hide CandidateErrors, SelectionErrors;
    SelectionParts(m);
    FlattenEmpty(CandidateErrors(m));
    forall k | 0 <= k < |m.candidates|
      ensures var c := m.candidates[k]; c.id.Some? && c.entry.Some? && c.exit.Some? && 0 <= c.entry.value <= c.exit.value < m.words.value
      ensures forall j :: 0 <= j < k ==> m.candidates[j].id != m.candidates[k].id
    {
      CandidateFine(m, k);
      SeenEarlier(m.candidates, k);
    }
    assert m.candidates[0].id.value in SeenIds(m.candidates);
    forall id | m.span.value.0 <= id < m.span.value.1
      ensures Names(m.candidates, id)
    {
      assert Indices(m.span.value.0, m.span.value.1)[id - m.span.value.0] == id;
      assert id in Between(m.span.value.0, m.span.value.1);
    }
  }

  lemma ApprovedMeans(f: Fixed)
    ensures Approved(f) ==> f.fragments == Some(false) && f.dispatch == Some(false) && f.validate == Some(true)
  {}

  lemma DeclaredFine(m: Manifest, i: nat)
    requires i < |m.declared| && DeclaredErrors(m)[i] == []
    ensures m.declared[i].0.Some? && m.declared[i].1.Some? && m.declared[i].1 != m.binding
  {}

  lemma CandidateFine(m: Manifest, k: nat)
    requires k < |m.candidates| && CandidateErrors(m)[k] == [] && m.words.Some?
    ensures var c := m.candidates[k]; c.id.Some? && c.entry.Some? && c.exit.Some? && 0 <= c.entry.value <= c.exit.value < m.words.value
    ensures m.candidates[k].id.value !in SeenIds(m.candidates[..k])
  {}

  lemma SeenEarlier(cs: seq<Candidate>, k: nat)
    requires k < |cs| && cs[k].id.Some? && cs[k].id.value !in SeenIds(cs[..k])
    ensures forall j :: 0 <= j < k ==> cs[j].id != cs[k].id
  {
    forall j | 0 <= j < k ensures cs[j].id != cs[k].id { assert cs[..k][j] == cs[j]; }
  }
}
