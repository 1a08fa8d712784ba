/** What the analyser plans for each output store, and where it says a store is. */
module PlanShape {
  import opened Words
  import opened Ops
  import opened ControlFlow
  import opened Analysis
  import opened Manifest
  import opened ManifestBuild
  import Finite
  import B = Bisection

  /** `at` lists, in order, exactly the positions of `s` that are kept. */
  ghost predicate Picks(s: seq<Store>, keep: Store -> bool, r: seq<Store>, at: seq<nat>) {
    && |at| == |r|
    && (forall j :: 0 <= j < |at| ==> at[j] < |s| && r[j] == s[at[j]] && keep(r[j]))
    && (forall i, j :: 0 <= i < j < |at| ==> at[i] < at[j])
    && forall k: nat :: k < |s| && keep(s[k]) ==> k in at
  }

  lemma {:induction false} FilterPicks(s: seq<Store>, keep: Store -> bool) returns (at: seq<nat>)
    ensures Picks(s, keep, Filter(s, keep), at)
  {
    hide Picks;
    at := [];
    if s == [] {
      PicksNone(keep);
    } else {
      var n := |s| - 1;
      at := FilterPicks(s[..n], keep);
      PicksMore(s[..n], s[n], keep, Filter(s[..n], keep), at);
      assert s[..n] + [s[n]] == s;
      assert Filter(s[..n], keep) + [] == Filter(s[..n], keep);
      if keep(s[n]) { at := at + [n]; }
    }
  }

  lemma PicksNone(keep: Store -> bool)
    ensures Picks([], keep, [], [])
  {}

  lemma PicksMore(s: seq<Store>, x: Store, keep: Store -> bool, r: seq<Store>, at: seq<nat>)
    requires Picks(s, keep, r, at)
    ensures keep(x) ==> Picks(s + [x], keep, r + [x], at + [|s|])
    ensures !keep(x) ==> Picks(s + [x], keep, r, at)
  {
    var more := s + [x];
    assert more[|s|] == x && forall k: nat :: k < |s| ==> more[k] == s[k];
    if keep(x) {
      var ids := at + [|s|];
      forall i, j | 0 <= i < j < |ids| ensures ids[i] < ids[j] {}
      forall k: nat | k < |more| && keep(more[k]) ensures k in ids { if k < |s| { assert keep(s[k]) && k in at; } }
    } else {
      forall k: nat | k < |more| && keep(more[k]) ensures k in at { assert k < |s|; }
    }
  }

  /** The output stores and the workgroup stores of the module, in its order. */
  lemma StoresPicked(a: Analysed, feeds: Word -> set<nat>) returns (finals: seq<nat>, shared: seq<nat>)
    ensures var plan, all := PlanOf(a, feeds), a.Stores();
      && |finals| == |plan.finals| && |shared| == |plan.shared|
      && (forall j :: 0 <= j < |finals| ==> finals[j] < |all| && plan.finals[j] == all[finals[j]])
      && (forall j :: 0 <= j < |shared| ==> shared[j] < |all| && plan.shared[j] == all[shared[j]])
      && (forall i, j :: 0 <= i < j < |finals| ==> finals[i] < finals[j]) && (forall i, j :: 0 <= i < j < |shared| ==> shared[i] < shared[j])
      && (forall k: nat :: k < |all| ==> (k in finals <==> all[k].origin.base.Descriptor? && all[k].origin.base.binding == 2))
      && forall k: nat :: k < |all| ==> (k in shared <==> all[k].origin.base.Variable? && all[k].origin.base.storage == 4)
  {
    hide StoresOf;
    finals := FilterPicks(a.Stores(), IsFinal);
    shared := FilterPicks(a.Stores(), IsShared);
  }

  /** A workgroup store between the output store before and this one, to one of the
      variables that feed this one, if any do. */
  ghost predicate Wanted(plan: Plan, i: nat, s: Store)
    requires i < |plan.finals|
  {
    && (i > 0 ==> plan.finals[i - 1].wordIndex < s.wordIndex) && s.wordIndex < plan.finals[i].wordIndex
    && (plan.feeds(plan.finals[i].stored) == {}
        || (s.origin.Chain? && s.origin.base.id as nat in plan.feeds(plan.finals[i].stored)))
  }

  /** The target is probed where the store is, and says to which output it belongs. */
  predicate TargetOf(t: Target, s: Store, related: Option<int>) {
    t.wordIndex == Some(s.wordIndex) && t.site == SiteOf(s.origin.base) && t.related == related
  }

  predicate Grows(ids: seq<Option<int>>) {
    forall j, k :: 0 <= j < k < |ids| ==> ids[j].Some? && ids[k].Some? && ids[j].value < ids[k].value
  }

  /** The stores that belong to an output store, in order: the first is the partial
      result, the second the reduction, the others come after it. */
  ghost predicate PhaseIs(plan: Plan, i: nat, p: Phase, at: seq<nat>)
    requires i < |plan.finals|
  {
    && p.name == (if |plan.finals| == 1 then Single else if i == 0 then Tail else Full)
    && TargetOf(p.output, plan.finals[i], None) && p.output.role == FinalStore
    && |at| == |p.preceding| && (forall j, k :: 0 <= j < k < |at| ==> at[j] < at[k])
    && (forall k: nat :: k < |plan.shared| ==> (k in at <==> Wanted(plan, i, plan.shared[k])))
    && (forall j :: 0 <= j < |at| ==> at[j] < |plan.shared| && TargetOf(p.preceding[j], plan.shared[at[j]], Some(plan.finals[i].wordIndex)))
    && (forall j :: 0 <= j < |at| ==> p.preceding[j].role == if j == 0 then Partial else if j == 1 then Reduction else PostReduction)
    && (forall id: nat :: Some(id as int) in p.sources <==> id in plan.feeds(plan.finals[i].stored))
    && Grows(p.sources)
  }

  lemma {:induction false} SortedGrows(s: set<nat>)
    ensures forall j, k :: 0 <= j < k < |Sorted(s)| ==> Sorted(s)[j] < Sorted(s)[k]
    decreases |s|
  {
    if s != {} {
      var m := Min(s);
      Finite.SmallerSet(s - {m}, s);
      SortedGrows(s - {m});
      var rest := Sorted(s - {m});
      forall k | 0 <= k < |rest| ensures m < rest[k] { assert rest[k] in rest && rest[k] in s - {m}; }
    }
  }

  lemma SourcesAre(ids: set<nat>)
    ensures forall id: nat :: Some(id as int) in SourceIds(ids) <==> id in ids
    ensures Grows(SourceIds(ids))
  {
    SortedGrows(ids);
    var sorted, r := Sorted(ids), SourceIds(ids);
    forall id: nat ensures Some(id as int) in r <==> id in ids {
      if id in ids {
        assert id in sorted;
        var j :| 0 <= j < |sorted| && sorted[j] == id;
        assert r[j] == Some(id as int);
      }
    }
  }

  lemma PrecedingPicked(plan: Plan, i: nat) returns (at: seq<nat>)
    requires i < |plan.finals|
    ensures var r := plan.Preceding(i);
      && |at| == |r| && (forall j, k :: 0 <= j < k < |at| ==> at[j] < at[k])
      && (forall k: nat :: k < |plan.shared| ==> (k in at <==> Wanted(plan, i, plan.shared[k])))
      && forall j :: 0 <= j < |at| ==> at[j] < |plan.shared| && r[j] == plan.shared[at[j]]
  {
    hide Wanted, Filter;
    var previous := if i == 0 then -1 else plan.finals[i - 1].wordIndex;
    var keep := (s: Store) => Feeds(s, previous, plan.finals[i].wordIndex, plan.feeds(plan.finals[i].stored));
    at := FilterPicks(plan.shared, keep);
    forall s: Store ensures keep(s) <==> Wanted(plan, i, s) { KeepIs(plan, i, s); }
  }

  lemma KeepIs(plan: Plan, i: nat, s: Store)
    requires i < |plan.finals|
    ensures Feeds(s, if i == 0 then -1 else plan.finals[i - 1].wordIndex, plan.finals[i].wordIndex, plan.feeds(plan.finals[i].stored)) <==> Wanted(plan, i, s)
  {}

  lemma AnnotatedAre(spots: seq<Spot>, stores: seq<Store>, output: int)
    ensures forall j :: 0 <= j < |stores| ==> var t := Annotated(spots, stores, output)[j];
      TargetOf(t, stores[j], Some(output)) && t.role == if j == 0 then Partial else if j == 1 then Reduction else PostReduction
  {
    hide Annotate;
    forall j | 0 <= j < |stores|
      ensures var t := Annotated(spots, stores, output)[j];
        TargetOf(t, stores[j], Some(output)) && t.role == if j == 0 then Partial else if j == 1 then Reduction else PostReduction
    {
      AnnotateIs(spots, stores[j], RoleAt(j), Some(output));
    }
  }

  lemma PhaseExact(plan: Plan, i: nat) returns (at: seq<nat>)
    requires i < |plan.finals|
    ensures PhaseIs(plan, i, plan.Phases()[i], at)
  {
    hide Annotate, Annotated, Sorted, SourceIds, Wanted, Plan.Preceding, TargetOf, Grows;
    at := PrecedingPicked(plan, i);
    SourcesAre(plan.feeds(plan.finals[i].stored));
    AnnotateTarget(plan.spots, plan.finals[i]);
    AnnotatedAre(plan.spots, plan.Preceding(i), plan.finals[i].wordIndex);
    var p, r := plan.Phases()[i], plan.Preceding(i);
    assert p == plan.PhaseAt(i) && p.preceding == Annotated(plan.spots, r, plan.finals[i].wordIndex) && p.sources == SourceIds(plan.feeds(plan.finals[i].stored));
    forall j | 0 <= j < |at|
      ensures TargetOf(p.preceding[j], plan.shared[at[j]], Some(plan.finals[i].wordIndex))
      ensures p.preceding[j].role == if j == 0 then Partial else if j == 1 then Reduction else PostReduction
    {
      assert r[j] == plan.shared[at[j]];
    }
  }

  lemma AnnotateTarget(spots: seq<Spot>, s: Store)
    ensures var t := Annotate(spots, s, FinalStore, None); TargetOf(t, s, None) && t.role == FinalStore
  {
    AnnotateIs(spots, s, FinalStore, None);
  }

  /** The targets are listed phase by phase, the output store last. */
  lemma PriorityMore(phases: seq<Phase>, p: Phase)
    ensures Priority(phases + [p]) == Priority(phases) + p.preceding + [p.output] && Priority([]) == []
  {
    assert (phases + [p])[..|phases|] == phases;
  }

  // ---- where a store is ----

  /** The first block whose range has the word, and the last candidate with its
      function and label. */
  ghost predicate PlaceIs(spots: seq<Spot>, word: nat, t: Target, k: nat, c: nat) {
    && k < |spots| && c < |spots|
    && HasWord(spots[k].block, word) && (forall j :: 0 <= j < k ==> !HasWord(spots[j].block, word))
    && t.block == BlockRef(Some(spots[k].fn), Some(spots[k].block.labelId), Some(spots[k].ordinal))
    && t.candidate == Some(c) && SameLabel(spots[c], spots[k]) && forall j :: c < j < |spots| ==> !SameLabel(spots[j], spots[k])
  }

  predicate SameLabel(a: Spot, b: Spot) { a.fn == b.fn && a.block.labelId == b.block.labelId }

  predicate HasWord(b: Block, word: nat) { b.body != [] && b.wordIndex <= word <= b.body[|b.body| - 1].index }

  lemma {:induction false} BlockFirst(spots: seq<Spot>, word: nat) returns (k: nat)
    ensures k <= |spots| && forall j :: 0 <= j < k ==> !HasWord(spots[j].block, word)
    ensures k < |spots| ==> HasWord(spots[k].block, word) && BlockFor(spots, word) == Some(spots[k])
    ensures k == |spots| ==> BlockFor(spots, word) == None
  {
    k := 0;
    if spots != [] && !HasWord(spots[0].block, word) {
      k := BlockFirst(spots[1..], word);
      k := k + 1;
    }
  }

  lemma {:induction false} CandidateLast(spots: seq<Spot>, at: Spot)
    requires CandidateFor(spots, at.fn, at.block.labelId).Some?
    ensures var c := CandidateFor(spots, at.fn, at.block.labelId).value;
      c < |spots| && SameLabel(spots[c], at) && forall j :: c < j < |spots| ==> !SameLabel(spots[j], at)
  {
    var n := |spots| - 1;
    if !SameLabel(spots[n], at) { CandidateLast(spots[..n], at); }
  }

  /** Every target has the place of its store, or none if no block has it. */
  lemma TargetPlaced(spots: seq<Spot>, s: Store, role: Role, related: Option<int>) returns (k: nat, c: nat)
    ensures var t := Annotate(spots, s, role, related);
      || PlaceIs(spots, s.wordIndex, t, k, c)
      || ((forall spot :: spot in spots ==> !HasWord(spot.block, s.wordIndex)) && t.block == BlockRef(None, None, None) && t.candidate.None?)
  {
    c := 0;
    k := BlockFirst(spots, s.wordIndex);
    if k < |spots| {
      assert spots[k] in spots;
      CandidateLast(spots, spots[k]);
      c := CandidateFor(spots, spots[k].fn, spots[k].block.labelId).value;
    }
  }

  // ---- the candidates ----

  /** Selected are the candidates there are in the range asked for. */
  lemma SelectedExact(range: Option<(int, int)>, n: nat, i: int)
    ensures var (lo, hi) := Selected(range, n);
      lo <= i < hi <==> 0 <= i < n && (range.Some? ==> range.value.0 <= i < range.value.1)
  {}

  /** Each names its block, with its number in the whole module. */
  lemma CandidatesExact(a: Analysed, range: Option<(int, int)>, feeds: Word -> set<nat>, hash: File -> nat, rounds: seq<seq<B.Group>>, k: nat)
    requires var (lo, hi) := Selected(range, |a.Candidates()|); k < hi - lo
    ensures var m, spots := Build(a, range, feeds, hash, rounds), a.Candidates(); var (lo, hi) := Selected(range, |spots|);
      && m.span == Some((lo, hi)) && m.count == Some(hi - lo) && |m.candidates| == hi - lo
      && var c, spot := m.candidates[k], spots[lo + k];
         && c.id == Some(lo + k) && c.fn == Some(spot.fn) && c.block == Some(spot.block.labelId) && c.ordinal == Some(spot.ordinal)
         && c.wordIndex == Some(spot.block.wordIndex) && SameIndex(c.entry, spot.block.entry) && SameIndex(c.exit, spot.block.exit)
  {
    hide Analysed.Candidates, ChoiceOf, PlanOf, Written, Declared, RangesOf, Priority;
  }
}
