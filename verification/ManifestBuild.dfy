/** The analyser's side of the probe manifest: what it plans for a module, and
    exactly when the verifier accepts the plan. */
module ManifestBuild {
  import opened Words
  import opened Ops
  import opened ControlFlow
  import opened Analysis
  import opened Manifest
  import B = Bisection

  /** What the analyser knows of a module file. */
  datatype Analysed = Analysed(file: File, insts: seq<Inst>) {
    function Items(): seq<Located> { Placed(insts) }
    function Candidates(): seq<Spot> { Spots(Summary(Items()).funcs) }
    function Pairs(): seq<(Word, Word)> { DeclaredPairs(insts, VariableOrder(insts)) }
    function Stores(): seq<Store> { StoresOf(insts, Items()) }
  }

  /** The instructions with their word indices. */
  function Placed(insts: seq<Inst>): seq<Located> {
    seq(|insts|, k requires 0 <= k < |insts| => Located(HEADER + |Flatten(insts[..k])|, insts[k]))
  }

  function Analyze(file: File): Result<Analysed> {
    if file.Bytes() < 20 || file.Bytes() % 4 != 0 then Err(Malformed("size"))
    else if file.words[0] != MAGIC then Err(Malformed("magic"))
    else
      var insts :- Parse(file.words, HEADER);
      Ok(Analysed(file, insts))
  }

  // ---- the plan ----

  /** The requested range, cut to the candidates there are. */
  function Selected(range: Option<(int, int)>, n: nat): (r: (nat, nat))
    ensures r.0 <= r.1 <= n
  {
    match range
    case None => (0, n)
    case Some((start, end)) =>
      var lo: nat := if start <= 0 then 0 else if start < n then start else n;
      (lo, if end <= lo then lo else if end < n then end else n)
  }

  function CandidateOf(spots: seq<Spot>, k: nat): Candidate
    requires k < |spots|
  {
    var b := spots[k].block;
    Candidate(Some(k), Some(b.wordIndex), Index(b.entry), Index(b.exit), Some(spots[k].fn), Some(b.labelId), Some(spots[k].ordinal))
  }

  function Index(at: Option<nat>): Option<int> { match at case None => None case Some(i) => Some(i) }

  function CandidatesOf(spots: seq<Spot>, lo: nat, hi: nat): (r: seq<Candidate>)
    requires lo <= hi <= |spots|
    ensures |r| == hi - lo
  {
    seq(hi - lo, i requires 0 <= i < hi - lo => CandidateOf(spots, lo + i))
  }

  /** From the label to the last instruction; a block without any is skipped. */
  predicate Holds(b: Block, word: nat) {
    b.body != [] && b.wordIndex <= word <= b.body[|b.body| - 1].index
  }

  function BlockFor(spots: seq<Spot>, word: nat): (r: Option<Spot>)
    ensures r.Some? ==> r.value in spots && Holds(r.value.block, word)
    ensures r.None? ==> forall s :: s in spots ==> !Holds(s.block, word)
  {
    if spots == [] then None else if Holds(spots[0].block, word) then Some(spots[0]) else BlockFor(spots[1..], word)
  }

  /** A block is looked up by function and label; the last one wins. */
  function CandidateFor(spots: seq<Spot>, fn: Word, labelId: Word): (r: Option<nat>)
    ensures r.Some? <==> exists s :: s in spots && s.fn == fn && s.block.labelId == labelId
    ensures r.Some? ==> r.value < |spots| && spots[r.value].fn == fn && spots[r.value].block.labelId == labelId
  {
    if spots == [] then None
    else
      var last := spots[|spots| - 1];
      if last.fn == fn && last.block.labelId == labelId then Some(|spots| - 1) else CandidateFor(spots[..|spots| - 1], fn, labelId)
  }

  function SiteOf(base: Base): Site {
    match base
    case Descriptor(_, _, b) => Site("descriptor", Some(b), false)
    case Variable(_, storage) => Site("variable", None, storage == CLASS_WORKGROUP)
    case PushConstant(_) => Site("push_constant", None, false)
    case Plain(_) => Site("id", None, false)
  }

  const CAPTURE := [LocalInvocation, WorkgroupNumber, OutputIndex, StoredBits, CandidateNumber]

  /** The fixed fields, as the analyser writes them. */
  function Written(): Fixed {
    Fixed(Some(SCHEMA), Some(ANALYSIS_SCHEMA), Some(BASIS), Some([]), Some(SUBMISSION), Some(false), Some(false), Some(false), Some(false),
          Some(TRANSPORT), Some("storage_buffer"), Some("write_only"), true, Some(true), Some(false), GATES, Some(PROBE_METHOD), Some(TARGETS_METHOD))
  }

  const GATES := [InputValid, OutputValid, PhiOrder, MergeOrder, NoCollision, DistinctSlots, HashRecorded]

  lemma WrittenApproved()
    ensures Approved(Written()) && Allowed(Written().transforms)
  {
    hide SCHEMA, ANALYSIS_SCHEMA, BASIS, SUBMISSION, TRANSPORT, PROBE_METHOD, TARGETS_METHOD;
    assert GATES[0] == InputValid && GATES[1] == OutputValid && GATES[4] == NoCollision;
  }

  function Annotate(spots: seq<Spot>, s: Store, role: Role, related: Option<int>): Target {
    match BlockFor(spots, s.wordIndex)
    case None => Target(role, Some(s.wordIndex), BlockRef(None, None, None), None, Some(CAPTURE), SiteOf(s.origin.base), related)
    case Some(at) =>
      Target(role, Some(s.wordIndex), BlockRef(Some(at.fn), Some(at.block.labelId), Some(at.ordinal)),
             Index(CandidateFor(spots, at.fn, at.block.labelId)), Some(CAPTURE), SiteOf(s.origin.base), related)
  }

  predicate IsFinal(s: Store) { s.origin.base.Descriptor? && s.origin.base.binding == OUTPUT_BINDING }

  predicate IsShared(s: Store) { s.origin.base.Variable? && s.origin.base.storage == CLASS_WORKGROUP }

  function Filter(s: seq<Store>, keep: Store -> bool): (r: seq<Store>)
    ensures forall x :: x in r <==> x in s && keep(x)
  {
    if s == [] then [] else Filter(s[..|s| - 1], keep) + if keep(s[|s| - 1]) then [s[|s| - 1]] else []
  }

  /** Stores to workgroup memory between two output stores, limited to the
      variables that feed the second, if any do. */
  predicate Feeds(s: Store, previous: int, output: nat, sources: set<nat>) {
    previous < s.wordIndex < output && (sources == {} || (s.origin.Chain? && s.origin.base.id as nat in sources))
  }

  function RoleAt(i: nat): Role { if i == 0 then Partial else if i == 1 then Reduction else PostReduction }

  function Annotated(spots: seq<Spot>, stores: seq<Store>, output: int): (r: seq<Target>)
    ensures |r| == |stores|
  {
    seq(|stores|, j requires 0 <= j < |stores| => Annotate(spots, stores[j], RoleAt(j), Some(output)))
  }

  /** `feeds` gives the workgroup variables that an expression reads. */
  datatype Plan = Plan(spots: seq<Spot>, finals: seq<Store>, shared: seq<Store>, feeds: Word -> set<nat>) {
    function Preceding(i: nat): seq<Store>
      requires i < |finals|
    {
      var previous := if i == 0 then -1 else finals[i - 1].wordIndex;
      Filter(shared, (s: Store) => Feeds(s, previous, finals[i].wordIndex, feeds(finals[i].stored)))
    }

    function PhaseAt(i: nat): Phase
      requires i < |finals|
    {
      var output, stores := finals[i], Preceding(i);
      Phase(if |finals| == 1 then Single else if i == 0 then Tail else Full,
            SourceIds(feeds(output.stored)),
            Annotate(spots, output, FinalStore, None),
            Annotated(spots, stores, output.wordIndex))
    }

    function Phases(): (r: seq<Phase>)
      ensures |r| == |finals|
    {
      seq(|finals|, i requires 0 <= i < |finals| => PhaseAt(i))
    }
  }

  function SourceIds(ids: set<nat>): seq<Option<int>> {
    var sorted := Sorted(ids);
    seq(|sorted|, i requires 0 <= i < |sorted| => Some(sorted[i]))
  }

  function Targets(p: Phase): seq<Target> { p.preceding + [p.output] }

  function Priority(phases: seq<Phase>): seq<Target> {
    if phases == [] then [] else Priority(phases[..|phases| - 1]) + Targets(phases[|phases| - 1])
  }

  function PlanOf(a: Analysed, feeds: Word -> set<nat>): Plan {
    Plan(a.Candidates(), Filter(a.Stores(), IsFinal), Filter(a.Stores(), IsShared), feeds)
  }

  function RangesOf(rounds: seq<seq<B.Group>>): seq<Range> {
    if rounds == [] then []
    else RangesOf(rounds[..|rounds| - 1]) + RangesIn(rounds[|rounds| - 1])
  }

  function RangesIn(gs: seq<B.Group>): (r: seq<Range>)
    ensures |r| == |gs|
  {
    seq(|gs|, i requires 0 <= i < |gs| => Range(Some((gs[i].start, gs[i].end)), Indices(gs[i].start, gs[i].end), Some(gs[i].end - gs[i].start)))
  }

  function Declared(pairs: seq<(Word, Word)>): (r: seq<(Option<int>, Option<int>)>)
    ensures |r| == |pairs|
  {
    seq(|pairs|, i requires 0 <= i < |pairs| => (Some(pairs[i].0), Some(pairs[i].1)))
  }

  function Build(a: Analysed, range: Option<(int, int)>, feeds: Word -> set<nat>, hash: File -> nat, rounds: seq<seq<B.Group>>): Manifest {
    var spots, choice, plan := a.Candidates(), ChoiceOf(a.Pairs()), PlanOf(a, feeds);
    var (lo, hi) := Selected(range, |spots|);
    var found := choice.Some?;
    var set_: Option<int> := if found then Some(choice.value.set_) else None;
    var binding: Option<int> := if found then Some(choice.value.binding) else None;
    var flag := if found then Some(false) else None;
    Manifest(Written(), Some(|a.file.words|), Some(a.file.Bytes()), hash(a.file),
             Some(found), set_, binding, found, set_, binding, Flags(flag, flag, flag), Some(found),
             Declared(a.Pairs()),
             Some((lo, hi)), Some(hi - lo), CandidatesOf(spots, lo, hi), RangesOf(rounds),
             Some(OUTPUT_BINDING), Some(plan.finals != [] && plan.shared != []), Some(|plan.finals|), Some(|plan.shared|),
             plan.Phases(), Priority(plan.Phases()))
  }

  // ---- when the verifier accepts it ----

  /** The store is an instruction of a block. */
  predicate InBlock(spots: seq<Spot>, s: Store) {
    exists spot | spot in spots :: exists at | at in spot.block.body :: at.index == s.wordIndex
  }

  predicate StoresInBlocks(plan: Plan) {
    && (forall s | s in plan.finals :: InBlock(plan.spots, s))
    && forall i | 0 <= i < |plan.finals| :: forall s | s in plan.Preceding(i) :: InBlock(plan.spots, s)
  }

  predicate Reduces(plan: Plan) {
    exists i | 0 <= i < |plan.finals| :: |plan.Preceding(i)| >= 2
  }

  /** Something is selected, every selected block ends, a descriptor within the
      limits is free, stores are in blocks, and an output that has workgroup stores
      at all has two in front of some output store. */
  predicate Acceptable(a: Analysed, range: Option<(int, int)>, feeds: Word -> set<nat>) {
    var spots, plan, choice := a.Candidates(), PlanOf(a, feeds), ChoiceOf(a.Pairs());
    var (lo, hi) := Selected(range, |spots|);
    && lo < hi && (forall k | lo <= k < hi :: spots[k].block.exit.Some?)
    && choice.Some? && choice.value.set_ < MAX_SETS
    && StoresInBlocks(plan)
    && (plan.finals != [] && plan.shared != [] ==> Reduces(plan))
  }

  // ---- positions ----

  lemma PlacedOrdered(a: Analysed)
    requires Analyze(a.file) == Ok(a)
    ensures Ordered(a.Items(), |a.file.words|)
  {
    ParseSound(a.file.words, HEADER);
    var items, insts := a.Items(), a.insts;
    forall j, k | 0 <= j < k < |items| ensures items[j].index < items[k].index { PositionsGrow(insts, j, k); }
    forall k | 0 <= k < |items| ensures items[k].index < |a.file.words| {
      PositionsGrow(insts, k, |insts|);
      assert insts[..|insts|] == insts;
    }
  }

  lemma SpotFacts(a: Analysed, spot: Spot)
    requires Analyze(a.file) == Ok(a) && spot in a.Candidates()
    ensures Points(spot.block) && Stands(a.Items(), spot.block)
  {
    hide Spots, Summary, Points, Stands, Placed, Analyze, Described;
    SpotIn(Summary(a.Items()).funcs, spot);
    SummaryDescribes(a.Items());
    InSummary(a.Items(), spot);
  }

  lemma InSummary(items: seq<Located>, spot: Spot)
    requires Described(items, Summary(items))
    requires exists f :: f in Summary(items).funcs && spot.fn == f.id && spot.ordinal < |f.blocks| && f.blocks[spot.ordinal] == spot.block
    ensures Points(spot.block) && Stands(items, spot.block)
  {
    var f :| f in Summary(items).funcs && spot.fn == f.id && spot.ordinal < |f.blocks| && f.blocks[spot.ordinal] == spot.block;
    assert spot.block in f.blocks;
  }

  /** A block's word range holds exactly its own instructions. */
  lemma HoldsOwn(items: seq<Located>, words: nat, b: Block, q: nat)
    requires Ordered(items, words) && Stands(items, b) && q < |items| && Op(items[q].inst) != LABEL
    ensures Holds(b, items[q].index) <==> exists at :: at in b.body && at.index == items[q].index
  {
    hide *;
    var p := StandsSomewhere(items, b);
    if Holds(b, items[q].index) { HoldsIn(items, words, b, p, q); }
    if at :| at in b.body && at.index == items[q].index {
      var k :| 0 <= k < |b.body| && b.body[k] == at;
      InHolds(items, words, b, p, k);
    }
  }

  lemma StandsSomewhere(items: seq<Located>, b: Block) returns (p: nat)
    requires Stands(items, b)
    ensures StandsAt(items, b, p)
  {
    p :| StandsAt(items, b, p);
  }

  lemma PositionsOrdered(items: seq<Located>, words: nat, p: nat, q: nat, r: nat)
    requires Ordered(items, words) && p < |items| && q < |items| && r < |items| && items[p].index <= items[q].index <= items[r].index
    ensures p <= q <= r
  {}

  lemma HoldsIn(items: seq<Located>, words: nat, b: Block, p: nat, q: nat)
    requires Ordered(items, words) && StandsAt(items, b, p) && q < |items| && Op(items[q].inst) != LABEL && Holds(b, items[q].index)
    ensures exists at :: at in b.body && at.index == items[q].index
  {
    var n := |b.body|;
    assert b.body[n - 1] == items[p + n];
    PositionsOrdered(items, words, p, q, p + n);
    assert b.body[q - p - 1] == items[q];
    assert items[q] in b.body;
  }

  lemma InHolds(items: seq<Located>, words: nat, b: Block, p: nat, k: nat)
    requires Ordered(items, words) && StandsAt(items, b, p) && k < |b.body|
    ensures Holds(b, b.body[k].index)
  {
    var n := |b.body|;
    assert b.body[k] == items[p + 1 + k] && b.body[n - 1] == items[p + n];
    assert items[p].index < items[p + 1 + k].index;
    if k < n - 1 { assert items[p + 1 + k].index < items[p + n].index; }
  }

  lemma FoundInBlock(a: Analysed, s: Store)
    requires Analyze(a.file) == Ok(a) && s in a.Stores()
    ensures BlockFor(a.Candidates(), s.wordIndex).Some? <==> InBlock(a.Candidates(), s)
    ensures s.wordIndex < |a.file.words|
  {
    hide Placed, Analyze, Spots, Summary, StoresOf, BlockFor, Holds, Points, Stands;
    PlacedOrdered(a);
    StoresAre(a.insts, a.Items(), s);
    var items := a.Items();
    var q :| 0 <= q < |items| && items[q].index == s.wordIndex && Op(items[q].inst) == STORE && |items[q].inst| >= 3;
    forall spot | spot in a.Candidates()
      ensures Holds(spot.block, s.wordIndex) <==> exists at :: at in spot.block.body && at.index == s.wordIndex
    {
      SpotFacts(a, spot);
      HoldsOwn(items, |a.file.words|, spot.block, q);
    }
  }

  // ---- the verifier on the plan, part by part ----

  /** The role goes with the site. */
  predicate Fits(s: Store, role: Role, related: Option<int>) {
    if role == FinalStore then IsFinal(s) else role != OtherRole && IsShared(s) && related.Some?
  }

  lemma TargetFine(a: Analysed, m: Manifest, s: Store, role: Role, related: Option<int>)
    requires Analyze(a.file) == Ok(a) && s in a.Stores() && Fits(s, role, related) && m.words == Some(|a.file.words|)
    ensures TargetError(m, Annotate(a.Candidates(), s, role, related)) == [] <==> InBlock(a.Candidates(), s)
  {
    hide Analyze, InBlock, StoresOf;
    FoundInBlock(a, s);
    AnnotateIs(a.Candidates(), s, role, related);
    TargetErrorIs(m, Annotate(a.Candidates(), s, role, related), s);
  }

  lemma AnnotateIs(spots: seq<Spot>, s: Store, role: Role, related: Option<int>)
    ensures var t := Annotate(spots, s, role, related);
      && t.role == role && t.capture == Some(CAPTURE) && t.wordIndex == Some(s.wordIndex) && t.site == SiteOf(s.origin.base) && t.related == related
      && (BlockFor(spots, s.wordIndex).Some? <==> t.block.fn.Some? && t.block.block.Some? && t.block.ordinal.Some? && t.candidate.Some?)
  {}

  lemma TargetErrorIs(m: Manifest, t: Target, s: Store)
    requires Fits(s, t.role, t.related) && t.site == SiteOf(s.origin.base) && t.wordIndex == Some(s.wordIndex) && t.capture == Some(CAPTURE)
    requires m.words.Some? && s.wordIndex < m.words.value
    ensures TargetError(m, t) == [] <==> t.block.fn.Some? && t.block.block.Some? && t.block.ordinal.Some? && t.candidate.Some?
  {}

  lemma PhaseFine(a: Analysed, m: Manifest, plan: Plan, i: nat)
    requires Analyze(a.file) == Ok(a) && m.words == Some(|a.file.words|) && plan == PlanOf(a, plan.feeds) && i < |plan.finals|
    ensures PhaseError(m, plan.PhaseAt(i)) == [] <==>
      InBlock(a.Candidates(), plan.finals[i]) && forall s :: s in plan.Preceding(i) ==> InBlock(a.Candidates(), s)
  {
    hide Analyze, InBlock, TargetError, Annotate;
    var output, stores, p := plan.finals[i], plan.Preceding(i), plan.PhaseAt(i);
    assert output in plan.finals;
    TargetFine(a, m, output, FinalStore, None);
    FlattenEmpty(TargetErrors(m, p.preceding));
    forall j | 0 <= j < |stores|
      ensures TargetErrors(m, p.preceding)[j] == [] <==> InBlock(a.Candidates(), stores[j])
    {
      assert stores[j] in stores;
      TargetFine(a, m, stores[j], RoleAt(j), Some(output.wordIndex));
    }
  }

  /** Every target of the priority list is one of some phase, and the other way round. */
  lemma {:induction false} PriorityHolds(phases: seq<Phase>, t: Target)
    ensures t in Priority(phases) <==> exists p :: p in phases && t in Targets(p)
  {
    if phases != [] {
      var front, last := phases[..|phases| - 1], phases[|phases| - 1];
      PriorityHolds(front, t);
      assert phases == front + [last];
    }
  }

  /** What a phase without findings says of its targets. */
  lemma PhaseTargets(m: Manifest, p: Phase, t: Target)
    requires PhaseError(m, p) == [] && t in Targets(p)
    ensures TargetError(m, t) == []
  {
    hide TargetError;
    FlattenEmpty(TargetErrors(m, p.preceding));
    if t != p.output {
      var j :| 0 <= j < |p.preceding| && p.preceding[j] == t;
      assert TargetErrors(m, p.preceding)[j] == [];
    }
  }

  lemma PriorityFine(m: Manifest, phases: seq<Phase>)
    requires forall p :: p in phases ==> PhaseError(m, p) == []
    ensures Flatten(TargetErrors(m, Priority(phases))) == []
  {
    hide PhaseError, TargetError, Targets, Priority;
    var ts := Priority(phases);
    FlattenEmpty(TargetErrors(m, ts));
    forall i | 0 <= i < |ts| ensures TargetErrors(m, ts)[i] == [] {
      PriorityHolds(phases, ts[i]);
      var p :| p in phases && ts[i] in Targets(p);
      PhaseTargets(m, p, ts[i]);
    }
  }

  lemma PhasesFine(a: Analysed, m: Manifest, plan: Plan)
    requires Analyze(a.file) == Ok(a) && m.words == Some(|a.file.words|) && plan == PlanOf(a, plan.feeds)
    ensures Flatten(PhaseErrors(m, plan.Phases())) == [] <==> StoresInBlocks(plan)
    ensures StoresInBlocks(plan) ==> Flatten(TargetErrors(m, Priority(plan.Phases()))) == []
  {
    hide Analyze, InBlock, PhaseError, Plan.PhaseAt, Plan.Preceding, TargetErrors, Priority;
    var phases := plan.Phases();
    FlattenEmpty(PhaseErrors(m, phases));
    forall i | 0 <= i < |phases|
      ensures PhaseErrors(m, phases)[i] == [] <==>
        InBlock(a.Candidates(), plan.finals[i]) && forall s :: s in plan.Preceding(i) ==> InBlock(a.Candidates(), s)
    {
      PhaseFine(a, m, plan, i);
    }
    if StoresInBlocks(plan) {
      forall p | p in phases ensures PhaseError(m, p) == [] {
        var i :| 0 <= i < |phases| && phases[i] == p;
        assert PhaseErrors(m, phases)[i] == [];
      }
      PriorityFine(m, phases);
    }
  }

  lemma RolesAre(plan: Plan)
    ensures HasRole(Priority(plan.Phases()), FinalStore) <==> plan.finals != []
    ensures HasRole(Priority(plan.Phases()), Reduction) <==> Reduces(plan)
  {
    hide Priority, Plan.Preceding, Annotate;
    RoleIn(plan, FinalStore);
    RoleIn(plan, Reduction);
    if plan.finals != [] { assert PhaseRole(plan, 0, FinalStore) by { PhaseRoles(plan, 0); } }
    forall i | 0 <= i < |plan.finals| { PhaseRoles(plan, i); }
  }

  predicate PhaseRole(plan: Plan, i: nat, role: Role)
    requires i < |plan.finals|
  {
    HasRole(Targets(plan.PhaseAt(i)), role)
  }

  lemma PhaseRoles(plan: Plan, i: nat)
    requires i < |plan.finals|
    ensures PhaseRole(plan, i, FinalStore)
    ensures PhaseRole(plan, i, Reduction) <==> |plan.Preceding(i)| >= 2
  {
    hide Plan.Preceding, Annotate;
    var p, stores := plan.PhaseAt(i), plan.Preceding(i);
    var ts := Targets(p);
    AnnotateIs(plan.spots, plan.finals[i], FinalStore, None);
    assert ts[|ts| - 1] == p.output;
    forall j | 0 <= j < |stores| ensures ts[j].role == RoleAt(j) {
      AnnotateIs(plan.spots, stores[j], RoleAt(j), Some(plan.finals[i].wordIndex));
    }
    if |stores| >= 2 { assert ts[1].role == Reduction; }
  }

  lemma RoleIn(plan: Plan, role: Role)
    ensures HasRole(Priority(plan.Phases()), role) <==> exists i :: 0 <= i < |plan.finals| && PhaseRole(plan, i, role)
  {
    hide Priority, Targets, Plan.PhaseAt;
    var phases := plan.Phases();
    var ts := Priority(phases);
    if HasRole(ts, role) {
      var k :| 0 <= k < |ts| && ts[k].role == role;
      PriorityHolds(phases, ts[k]);
      var p :| p in phases && ts[k] in Targets(p);
      var i :| 0 <= i < |phases| && phases[i] == p;
      assert PhaseRole(plan, i, role);
    }
    if i :| 0 <= i < |plan.finals| && PhaseRole(plan, i, role) {
      var own := Targets(plan.PhaseAt(i));
      var k :| 0 <= k < |own| && own[k].role == role;
      PriorityHolds(phases, own[k]);
      assert phases[i] in phases && own[k] in Targets(phases[i]);
    }
  }

  lemma TargetsFine(a: Analysed, m: Manifest, plan: Plan)
    requires Analyze(a.file) == Ok(a) && m.words == Some(|a.file.words|) && plan == PlanOf(a, plan.feeds)
    requires m.phases == plan.Phases() && m.priority == Priority(plan.Phases()) && m.outputBinding == Some(OUTPUT_BINDING)
    requires m.targetsAvailable == Some(plan.finals != [] && plan.shared != []) && m.finals == Some(|plan.finals|) && m.shared == Some(|plan.shared|)
    ensures TargetsErrors(m) == [] <==>
      StoresInBlocks(plan) && (plan.finals != [] && plan.shared != [] ==> Reduces(plan))
  {
    hide Analyze, StoresInBlocks, Reduces, Plan.Phases, PlanOf, PhaseErrors, TargetErrors, Priority, HasRole;
    PhasesFine(a, m, plan);
    RolesAre(plan);
    assert |plan.Phases()| == |plan.finals|;
  }

  lemma {:induction false} RangeOfGroup(rounds: seq<seq<B.Group>>, range: Range)
    requires range in RangesOf(rounds)
    ensures exists k, i :: 0 <= k < |rounds| && 0 <= i < |rounds[k]| && range == RangesIn(rounds[k])[i]
  {
    var front, last := rounds[..|rounds| - 1], rounds[|rounds| - 1];
    if range in RangesOf(front) {
      RangeOfGroup(front, range);
      var k, i :| 0 <= k < |front| && 0 <= i < |front[k]| && range == RangesIn(front[k])[i];
      assert rounds[k] == front[k];
    } else {
      var i :| 0 <= i < |last| && range == RangesIn(last)[i];
      assert rounds[|rounds| - 1] == last;
    }
  }

  lemma GroupOrdered(rounds: seq<seq<B.Group>>, n: nat, k: nat, i: nat)
    requires B.Schedule(rounds, n) && k < |rounds| && i < |rounds[k]|
    ensures rounds[k][i].start <= rounds[k][i].end
  {
    if k < |rounds| - 1 || n <= 1 { B.TilesAt(rounds[k], 0, n, i); } else { assert 0 <= B.Size(rounds[k][i]); }
  }

  lemma RangesFine(m: Manifest, rounds: seq<seq<B.Group>>, n: nat)
    requires B.Schedule(rounds, n) && m.ranges == RangesOf(rounds)
    ensures Flatten(RangeErrors(m)) == []
  {
    hide B.Schedule, RangesOf, B.Holding, B.HoldingAll, B.Tiles, Flatten;
    FlattenEmpty(RangeErrors(m));
    forall j | 0 <= j < |m.ranges| ensures RangeErrors(m)[j] == [] {
      RangeOfGroup(rounds, m.ranges[j]);
      var k, i :| 0 <= k < |rounds| && 0 <= i < |rounds[k]| && m.ranges[j] == RangesIn(rounds[k])[i];
      GroupOrdered(rounds, n, k, i);
    }
  }

  /** No declared descriptor has the number of the chosen one. */
  lemma DeclaredFree(m: Manifest, pairs: seq<(Word, Word)>)
    requires ChoiceOf(pairs).Some? && m.binding == Some(ChoiceOf(pairs).value.binding) && m.declared == Declared(pairs)
    ensures Flatten(DeclaredErrors(m)) == []
  {
    ChoiceMeans(pairs);
    FlattenEmpty(DeclaredErrors(m));
    forall i | 0 <= i < |m.declared| ensures DeclaredErrors(m)[i] == [] {
      assert pairs[i] in pairs && pairs[i].1 as nat in NumbersOf(pairs);
    }
  }

  lemma CollisionFine(m: Manifest, found: bool)
    requires m.pass == found && m.proposedSet == m.set_ && m.proposedBinding == m.binding && m.within == Some(found)
    requires var flag := if found then Some(false) else None; m.flags == Flags(flag, flag, flag)
    ensures CollisionErrors(m) == [] <==> found
  {}

  // ---- the selection ----

  lemma {:induction false} SeenPrefix(spots: seq<Spot>, lo: nat, hi: nat, k: nat)
    requires lo <= hi <= |spots| && k <= hi - lo
    ensures SeenIds(CandidatesOf(spots, lo, hi)[..k]) == Between(lo, lo + k)
    decreases k
  {
    var cs := CandidatesOf(spots, lo, hi);
    if k > 0 {
      SeenPrefix(spots, lo, hi, k - 1);
      SeenMore(cs, k - 1);
      BetweenMore(lo, lo + k - 1);
      assert cs[k - 1] == CandidateOf(spots, lo + (k - 1));
      assert cs[..k - 1 + 1] == cs[..k] && lo + k - 1 + 1 == lo + k;
    } else {
      assert SeenIds(cs[..0]) == {} && Between(lo, lo) == {};
    }
  }

  lemma BetweenMore(lo: int, hi: int)
    requires lo <= hi
    ensures Between(lo, hi + 1) == Between(lo, hi) + {hi} && hi !in Between(lo, hi)
  {
    forall x ensures x in Between(lo, hi + 1) <==> x in Between(lo, hi) || x == hi {
      InBetween(lo, hi + 1, x);
      InBetween(lo, hi, x);
    }
    InBetween(lo, hi, hi);
  }

  lemma InBetween(lo: int, hi: int, x: int)
    ensures x in Between(lo, hi) <==> lo <= x < hi
  {
    if lo <= x < hi { assert Indices(lo, hi)[x - lo] == x; }
  }

  lemma OneCandidate(a: Analysed, m: Manifest, lo: nat, hi: nat, i: nat)
    requires Analyze(a.file) == Ok(a) && m.words == Some(|a.file.words|) && m.span == Some((lo, hi))
    requires lo <= hi <= |a.Candidates()| && m.candidates == CandidatesOf(a.Candidates(), lo, hi) && i < hi - lo
    ensures CandidateError(m, i) == [] <==> a.Candidates()[lo + i].block.exit.Some?
  {
    hide *;
    SeenPrefix(a.Candidates(), lo, hi, i);
    InBetween(lo, lo + i, lo + i);
    PlacedOrdered(a);
    var spot := a.Candidates()[lo + i];
    SpotFacts(a, spot);
    EntryBeforeExit(a.Items(), |a.file.words|, spot.block);
    TheCandidate(a.Candidates(), lo, hi, i);
    CandidateErrorIs(m, i, spot.block);
  }

  lemma TheCandidate(spots: seq<Spot>, lo: nat, hi: nat, i: nat)
    requires lo <= hi <= |spots| && i < hi - lo
    ensures CandidatesOf(spots, lo, hi)[i].id == Some(lo + i) && Describes(CandidatesOf(spots, lo, hi)[i], spots[lo + i].block)
  {
    assert CandidatesOf(spots, lo, hi)[i] == CandidateOf(spots, lo + i);
  }

  predicate Describes(c: Candidate, b: Block) {
    && c.wordIndex == Some(b.wordIndex) && c.fn.Some? && c.block.Some? && c.ordinal.Some?
    && SameIndex(c.entry, b.entry) && SameIndex(c.exit, b.exit)
  }

  predicate SameIndex(a: Option<int>, b: Option<nat>) {
    match (a, b)
    case (Some(x), Some(y)) => x == y
    case (None, None) => true
    case _ => false
  }

  lemma CandidateErrorIs(m: Manifest, i: nat, b: Block)
    requires i < |m.candidates| && m.words.Some? && b.wordIndex < m.words.value && m.span.Some?
    requires m.candidates[i].id.Some? && m.span.value.0 <= m.candidates[i].id.value < m.span.value.1
    requires m.candidates[i].id.value !in SeenIds(m.candidates[..i])
    requires Describes(m.candidates[i], b)
    requires b.exit.Some? ==> b.entry.Some? && b.entry.value <= b.exit.value < m.words.value
    ensures CandidateError(m, i) == [] <==> b.exit.Some?
  {
    hide SeenIds, FieldErrors;
    FieldsFine(m.candidates[i], b, m.words);
  }

  lemma FieldsFine(c: Candidate, b: Block, words: Option<int>)
    requires Describes(c, b) && words.Some? && b.wordIndex < words.value
    requires b.exit.Some? ==> b.entry.Some? && b.entry.value <= b.exit.value < words.value
    ensures if b.exit.Some? then FieldErrors(c, words) == [] && c.entry.Some? && c.exit.Some? && c.entry.value <= c.exit.value else FieldErrors(c, words) != []
  {}

  lemma SelectionFits(a: Analysed, m: Manifest, lo: nat, hi: nat)
    requires Analyze(a.file) == Ok(a) && m.words == Some(|a.file.words|) && m.span == Some((lo, hi)) && m.count == Some(hi - lo)
    requires lo <= hi <= |a.Candidates()| && m.candidates == CandidatesOf(a.Candidates(), lo, hi)
    ensures SelectionErrors(m) == [] <==> lo < hi && forall k :: lo <= k < hi ==> a.Candidates()[k].block.exit.Some?
  {
    hide Analyze, SeenIds, Between, CandidateError, SelectionErrors, CandidatesOf, Analysed.Candidates;
    var n := hi - lo;
    SelectionParts(m);
    SeenPrefix(a.Candidates(), lo, hi, n);
    assert m.candidates[..n] == m.candidates;
    FlattenEmpty(CandidateErrors(m));
    forall i | 0 <= i < n ensures CandidateErrors(m)[i] == [] <==> a.Candidates()[lo + i].block.exit.Some? { OneCandidate(a, m, lo, hi, i); }
    forall k | lo <= k < hi ensures CandidateErrors(m)[k - lo] == [] <==> a.Candidates()[k].block.exit.Some? {}
  }

  // ---- the two scripts together ----

  /** The verifier accepts the analyser's plan for a module exactly if the plan is
      acceptable. */
  lemma PlanAccepted(a: Analysed, range: Option<(int, int)>, feeds: Word -> set<nat>, hash: File -> nat, rounds: seq<seq<B.Group>>)
    requires Analyze(a.file) == Ok(a) && B.Schedule(rounds, |a.Candidates()|)
    ensures Errors(Build(a, range, feeds, hash, rounds), Found(a.file), hash) == [] <==> Acceptable(a, range, feeds)
  {
    hide *;
    var m := Build(a, range, feeds, hash, rounds);
    BuildIs(a, range, feeds, hash, rounds);
    var (lo, hi) := Selected(range, |a.Candidates()|);
    var plan := PlanOf(a, feeds);
    NoErrors(m, Found(a.file), hash);
    BasisFine(m, Found(a.file), hash);
    FileWhole(a);
    WrittenApproved();
    DebugFine(m);
    CollisionFine(m, ChoiceOf(a.Pairs()).Some?);
    SelectionFits(a, m, lo, hi);
    RangesFine(m, rounds, |a.Candidates()|);
    TargetsFine(a, m, plan);
    if ChoiceOf(a.Pairs()).Some? {
      ChoiceMeans(a.Pairs());
      DeclaredFree(m, a.Pairs());
    }
    AcceptableIs(a, range, feeds);
  }

  lemma FileWhole(a: Analysed)
    requires Analyze(a.file) == Ok(a)
    ensures a.file.rest == 0 && a.file.words != [] && a.file.Bytes() == 4 * |a.file.words|
  {}

  lemma BuildIs(a: Analysed, range: Option<(int, int)>, feeds: Word -> set<nat>, hash: File -> nat, rounds: seq<seq<B.Group>>)
    ensures var m, choice, plan, found := Build(a, range, feeds, hash, rounds), ChoiceOf(a.Pairs()), PlanOf(a, feeds), ChoiceOf(a.Pairs()).Some?;
      var (lo, hi) := Selected(range, |a.Candidates()|); var flag := if found then Some(false) else None;
      && m.fixed == Written() && m.words == Some(|a.file.words|) && m.bytes == Some(a.file.Bytes()) && m.hash == hash(a.file)
      && m.available == Some(found) && m.pass == found && m.within == Some(found) && m.flags == Flags(flag, flag, flag)
      && m.proposedSet == m.set_ && m.proposedBinding == m.binding && m.declared == Declared(a.Pairs())
      && m.set_ == (if found then Some(choice.value.set_) else None) && m.binding == (if found then Some(choice.value.binding) else None)
      && m.span == Some((lo, hi)) && m.count == Some(hi - lo) && lo <= hi <= |a.Candidates()|
      && m.candidates == CandidatesOf(a.Candidates(), lo, hi) && m.ranges == RangesOf(rounds)
      && m.outputBinding == Some(OUTPUT_BINDING) && m.targetsAvailable == Some(plan.finals != [] && plan.shared != [])
      && m.finals == Some(|plan.finals|) && m.shared == Some(|plan.shared|) && m.phases == plan.Phases() && m.priority == Priority(plan.Phases())
      && plan.feeds == feeds
  {}

  lemma AcceptableIs(a: Analysed, range: Option<(int, int)>, feeds: Word -> set<nat>)
    ensures var spots, plan, choice := a.Candidates(), PlanOf(a, feeds), ChoiceOf(a.Pairs());
      var (lo, hi) := Selected(range, |spots|);
      Acceptable(a, range, feeds) <==>
      && lo < hi && (forall k :: lo <= k < hi ==> spots[k].block.exit.Some?)
      && choice.Some? && choice.value.set_ < MAX_SETS
      && StoresInBlocks(plan)
      && (plan.finals != [] && plan.shared != [] ==> Reduces(plan))
  {}

  method AnnotateStores(spots: seq<Spot>, stores: seq<Store>, output: int) returns (annotated: seq<Target>)
    ensures annotated == Annotated(spots, stores, output)
  {
    annotated := [];
    for j := 0 to |stores|
      invariant annotated == Annotated(spots, stores, output)[..j]
    {
      annotated := annotated + [Annotate(spots, stores[j], RoleAt(j), Some(output))];
    }
  }

  /** The phases and, with a second loop, the list of targets. */
  method BuildTargets(plan: Plan) returns (phases: seq<Phase>, priority: seq<Target>)
    ensures phases == plan.Phases() && priority == Priority(plan.Phases())
  {
    phases, priority := [], [];
    var previous: int := -1;
    for i := 0 to |plan.finals|
      invariant phases == plan.Phases()[..i]
      invariant previous == if i == 0 then -1 else plan.finals[i - 1].wordIndex
    {
      var output := plan.finals[i];
      var sources := plan.feeds(output.stored);
      var stores := Filter(plan.shared, (s: Store) => Feeds(s, previous, output.wordIndex, sources));
      assert stores == plan.Preceding(i);
      var annotated := AnnotateStores(plan.spots, stores, output.wordIndex);
      phases := phases + [Phase(if i == 0 && |plan.finals| > 1 then Tail else if |plan.finals| > 1 then Full else Single,
                                SourceIds(sources), Annotate(plan.spots, output, FinalStore, None), annotated)];
      assert phases[i] == plan.PhaseAt(i);
      previous := output.wordIndex;
    }
    for i := 0 to |phases|
      invariant priority == Priority(phases[..i])
    {
      assert phases[..i + 1][..i] == phases[..i];
      priority := priority + phases[i].preceding;
      priority := priority + [phases[i].output];
    }
    assert phases[..|phases|] == phases;
  }

  method BuildProbeManifest(file: File, range: Option<(int, int)>, feeds: Word -> set<nat>, hash: File -> nat) returns (r: Result<Manifest>)
    ensures r.Ok? <==> Analyze(file).Ok?
    ensures r.Ok? ==> (Errors(r.value, Found(file), hash) == [] <==> Acceptable(Analyze(file).value, range, feeds))
    ensures r.Ok? ==> exists rounds :: B.Schedule(rounds, |Analyze(file).value.Candidates()|) && r.value == Build(Analyze(file).value, range, feeds, hash, rounds)
  {
    if file.Bytes() < 20 || file.Bytes() % 4 != 0 { return Err(Malformed("size")); }
    if file.words[0] != MAGIC { return Err(Malformed("magic")); }
    var items :- IterInstructions(file.words);
    var a := Analysed(file, Instructions(items));
    ghost var placed := a.Items();
    assert placed == items;
    var funcs := SummarizeCfg(items);
    var spots := ProbeCandidates(funcs);
    var rounds := B.BisectRounds(|spots|);
    PlanAccepted(a, range, feeds, hash, rounds);
    r := Ok(Build(a, range, feeds, hash, rounds));
  }

  // ---- a plan that is refused ----

  /** One descriptor, at set 8, and a function of one block. */
  function SetEight(): seq<Inst> {
    [[Head(4, DECORATE), 9, DESCRIPTOR_SET, 8], [Head(4, DECORATE), 9, BINDING, 0], [Head(4, VARIABLE), 7, 9, STORAGE_BUFFER],
     [Head(5, FUNCTION), 2, 4, 0, 3], [Head(2, LABEL), 5], [Head(1, 253)], [Head(1, FUNCTION_END)]]
  }

  function SetEightFile(): File { File([MAGIC, 0, 0, 10, 0] + Flatten(SetEight()), 0) }

  /** The tables of the first `k` instructions. */
  ghost predicate TablesAre(s: seq<Inst>, k: nat, sets: map<Word, Word>, bindings: map<Word, Word>, variables: map<Word, Word>, order: seq<Word>) {
    k <= |s| && TagsOf(s[..k], DESCRIPTOR_SET) == sets && TagsOf(s[..k], BINDING) == bindings && VariablesOf(s[..k]) == variables && VariableOrder(s[..k]) == order
  }

  lemma TablesNext(s: seq<Inst>, k: nat, sets: map<Word, Word>, bindings: map<Word, Word>, variables: map<Word, Word>, order: seq<Word>)
    requires k < |s| && TablesAre(s, k, sets, bindings, variables, order)
    ensures Op(s[k]) == DECORATE && |s[k]| == 4 && s[k][2] == DESCRIPTOR_SET ==> TablesAre(s, k + 1, sets[s[k][1] := s[k][3]], bindings, variables, order)
    ensures Op(s[k]) == DECORATE && |s[k]| == 4 && s[k][2] == BINDING ==> TablesAre(s, k + 1, sets, bindings[s[k][1] := s[k][3]], variables, order)
    ensures Op(s[k]) == VARIABLE && |s[k]| >= 4 && s[k][2] !in order ==> TablesAre(s, k + 1, sets, bindings, variables[s[k][2] := s[k][3]], order + [s[k][2]])
    ensures Op(s[k]) != VARIABLE && Op(s[k]) != DECORATE ==> TablesAre(s, k + 1, sets, bindings, variables, order)
  {
    assert s[..k + 1][..k] == s[..k];
  }

  lemma TablesNone(s: seq<Inst>)
    ensures TablesAre(s, 0, map[], map[], map[], [])
  {}

  lemma TablesWhole(s: seq<Inst>, sets: map<Word, Word>, bindings: map<Word, Word>, variables: map<Word, Word>, order: seq<Word>)
    requires TablesAre(s, |s|, sets, bindings, variables, order)
    ensures TagsOf(s, DESCRIPTOR_SET) == sets && TagsOf(s, BINDING) == bindings && VariablesOf(s) == variables && VariableOrder(s) == order
  {
    assert s[..|s|] == s;
  }

  lemma SetEightPairs()
    ensures DeclaredPairs(SetEight(), VariableOrder(SetEight())) == [(8, 0)]
  {
    hide TablesAre, DeclaredPairs, TagsOf, VariablesOf, VariableOrder;
    var s := SetEight();
    var none: map<Word, Word> := map[];
    var order: seq<Word> := [];
    TablesNone(s);
    TablesNext(s, 0, none, none, none, order);
    TablesNext(s, 1, none[9 := 8], none, none, order);
    TablesNext(s, 2, none[9 := 8], none[9 := 0], none, order);
    var variables := none[9 := STORAGE_BUFFER as Word];
    assert order + [9] == [9];
    TablesNext(s, 3, none[9 := 8], none[9 := 0], variables, [9]);
    TablesNext(s, 4, none[9 := 8], none[9 := 0], variables, [9]);
    TablesNext(s, 5, none[9 := 8], none[9 := 0], variables, [9]);
    TablesNext(s, 6, none[9 := 8], none[9 := 0], variables, [9]);
    TablesWhole(s, none[9 := 8], none[9 := 0], variables, [9]);
    SetEightBase();
  }

  lemma SetEightBase()
    requires TagsOf(SetEight(), DESCRIPTOR_SET) == map[9 := 8] && TagsOf(SetEight(), BINDING) == map[9 := 0]
    requires 9 in VariablesOf(SetEight())
    ensures DeclaredPairs(SetEight(), [9]) == [(8, 0)]
  {
    hide TagsOf, VariablesOf, SetEight;
    var order: seq<Word> := [9];
    assert order[..0] == [] && DeclaredPairs(SetEight(), []) == [];
    assert BaseOf(SetEight(), 9) == Descriptor(9, 8, 0);
  }

  lemma SetEightAnalysed()
    ensures Analyze(SetEightFile()) == Ok(Analysed(SetEightFile(), SetEight()))
  {
    hide Flatten, Parse;
    assert AllSized(SetEight());
    ParseFlatten([MAGIC, 0, 0, 10, 0], SetEight());
  }

  /** The analyser plans probes for this module, and the verifier refuses the plan,
      whatever range is asked for. */
  lemma PlanRefused(range: Option<(int, int)>, feeds: Word -> set<nat>, hash: File -> nat, rounds: seq<seq<B.Group>>)
    requires B.Schedule(rounds, |Analysed(SetEightFile(), SetEight()).Candidates()|)
    ensures Analyze(SetEightFile()).Ok?
    ensures Errors(Build(Analyze(SetEightFile()).value, range, feeds, hash, rounds), Found(SetEightFile()), hash) != []
  {
    hide *;
    var a := Analysed(SetEightFile(), SetEight());
    SetEightAnalysed();
    SetEightChoice(a);
    AcceptableIs(a, range, feeds);
    PlanAccepted(a, range, feeds, hash, rounds);
  }

  lemma SetEightChoice(a: Analysed)
    requires a.insts == SetEight()
    ensures ChoiceOf(a.Pairs()) == Some(Choice(8, 1)) && MAX_SETS == 8
  {
    hide SetEight, DeclaredPairs, VariableOrder, ChoiceOf;
    SetEightPairs();
    SetTooLarge();
  }
}
