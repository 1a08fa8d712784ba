/** The summary has every block of every function, whole and in order. */
module BlockCover {
  import opened Words
  import opened Ops
  import opened ControlFlow

  predicate Starts(items: seq<Located>, p: nat) { p < |items| && Op(items[p].inst) == FUNCTION && |items[p].inst| >= 5 }

  predicate Ends(items: seq<Located>, p: nat) { p < |items| && Op(items[p].inst) == FUNCTION_END }

  predicate Labels(items: seq<Located>, p: nat) { p < |items| && Op(items[p].inst) == LABEL && |items[p].inst| >= 2 }

  predicate Closes(items: seq<Located>, p: nat) { Starts(items, p) || Ends(items, p) || Labels(items, p) }

  /** Position `p` is in the function that starts at `f`. */
  predicate Owner(items: seq<Located>, p: nat, f: nat) {
    f < p && Starts(items, f) && forall j: nat :: f < j < p ==> !Starts(items, j) && !Ends(items, j)
  }

  /** The labels between the two positions. */
  function LabelCount(items: seq<Located>, lo: nat, hi: nat): nat {
    if hi <= lo + 1 then 0 else LabelCount(items, lo, hi - 1) + if Labels(items, hi - 1) then 1 else 0
  }

  /** The block is the label at `p` and all that follows up to the next label, or
      to where the function ends; its number counts the labels of the function. */
  ghost predicate Covers(items: seq<Located>, spot: Spot, p: nat) {
    var b := spot.block;
    && Labels(items, p) && b.wordIndex == items[p].index && b.labelId == items[p].inst[1]
    && p + 1 + |b.body| <= |items| && b.body == items[p + 1..p + 1 + |b.body|]
    && (forall q: nat :: p < q <= p + |b.body| ==> !Closes(items, q))
    && (p + 1 + |b.body| < |items| ==> Closes(items, p + 1 + |b.body|))
    && exists f: nat :: InFunction(items, spot, p, f)
  }

  ghost predicate InFunction(items: seq<Located>, spot: Spot, p: nat, f: nat) {
    Owner(items, p, f) && spot.fn == items[f].inst[2] && spot.ordinal == LabelCount(items, f, p)
  }

  ghost predicate Owned(items: seq<Located>, p: nat) { exists f: nat :: Owner(items, p, f) }

  /** `at` has the labels of the blocks: all that are in a function, in order. */
  ghost predicate AllCovered(items: seq<Located>, spots: seq<Spot>, at: seq<nat>) {
    && |at| == |spots| && (forall i, j :: 0 <= i < j < |at| ==> at[i] < at[j])
    && (forall i :: 0 <= i < |at| ==> Covers(items, spots[i], at[i]))
    && forall p: nat :: Labels(items, p) && Owned(items, p) ==> p in at
  }

  // ---- one more instruction ----

  lemma KindsMore(items: seq<Located>, x: Located, p: nat)
    requires p < |items|
    ensures Starts(items + [x], p) == Starts(items, p) && Ends(items + [x], p) == Ends(items, p) && Labels(items + [x], p) == Labels(items, p)
  {}

  lemma OwnerMore(items: seq<Located>, x: Located, p: nat, f: nat)
    requires p <= |items|
    ensures Owner(items + [x], p, f) == Owner(items, p, f)
  {
    hide Starts, Ends;
    if f < |items| { KindsMore(items, x, f); }
    forall j: nat | f < j < p ensures Starts(items + [x], j) == Starts(items, j) && Ends(items + [x], j) == Ends(items, j) { KindsMore(items, x, j); }
  }

  lemma {:induction false} CountMore(items: seq<Located>, x: Located, lo: nat, hi: nat)
    requires hi <= |items|
    ensures LabelCount(items + [x], lo, hi) == LabelCount(items, lo, hi)
  {
    if hi > lo + 1 {
      CountMore(items, x, lo, hi - 1);
      KindsMore(items, x, hi - 1);
    }
  }

  /** A covered block stays covered, if it ended before or ends here. */
  lemma CoversMore(items: seq<Located>, x: Located, spot: Spot, p: nat)
    requires Covers(items, spot, p) && (p + 1 + |spot.block.body| == |items| ==> Closes(items + [x], |items|))
    ensures Covers(items + [x], spot, p)
  {
    hide Starts, Ends, Labels, Owner;
    var more, b := items + [x], spot.block;
    assert p < |items| && more[p] == items[p] && more[p + 1..p + 1 + |b.body|] == items[p + 1..p + 1 + |b.body|] by { LabelBelow(items, p); }
    KindsMore(items, x, p);
    forall q: nat | p < q <= p + |b.body| ensures !Closes(more, q) { KindsMore(items, x, q); assert !Closes(items, q); }
    if p + 1 + |b.body| < |items| { KindsMore(items, x, p + 1 + |b.body|); }
    var f: nat :| InFunction(items, spot, p, f);
    OwnerMore(items, x, p, f);
    CountMore(items, x, f, p);
    OwnerBelow(items, p, f);
    assert more[f] == items[f] && InFunction(more, spot, p, f);
  }

  lemma LabelBelow(items: seq<Located>, p: nat)
    ensures Labels(items, p) ==> p < |items|
  {}

  lemma OwnerBelow(items: seq<Located>, p: nat, f: nat)
    ensures Owner(items, p, f) ==> f < p && f < |items| && |items[f].inst| >= 5
  {}

  /** The open block takes the instruction in. */
  lemma CoversVisit(items: seq<Located>, x: Located, spot: Spot, p: nat)
    requires Covers(items, spot, p) && p + 1 + |spot.block.body| == |items| && !Closes(items + [x], |items|)
    ensures Covers(items + [x], spot.(block := Visit(spot.block, x)), p)
  {
    hide Starts, Ends, Labels, Owner;
    var more, b := items + [x], Visit(spot.block, x);
    LabelBelow(items, p);
    KindsMore(items, x, p);
    assert more[p] == items[p] && b.body == more[p + 1..p + 1 + |b.body|];
    forall q: nat | p < q <= p + |b.body| ensures !Closes(more, q) {
      if q < |items| { KindsMore(items, x, q); assert !Closes(items, q); }
    }
    var f: nat :| InFunction(items, spot, p, f);
    OwnerMore(items, x, p, f);
    CountMore(items, x, f, p);
    OwnerBelow(items, p, f);
    assert more[f] == items[f] && InFunction(more, spot.(block := b), p, f);
  }

  lemma CoversNew(items: seq<Located>, x: Located, f: nat, fn: Word, n: nat)
    requires Labels(items + [x], |items|) && Owner(items, |items|, f) && fn == items[f].inst[2] && n == LabelCount(items, f, |items|)
    ensures Covers(items + [x], Spot(fn, n, NewBlock(x)), |items|)
  {
    var more := items + [x];
    OwnerMore(items, x, |items|, f);
    CountMore(items, x, f, |items|);
    assert more[f] == items[f] && more[|items|] == x;
    assert InFunction(more, Spot(fn, n, NewBlock(x)), |items|, f);
  }

  // ---- the state of the scan ----

  /** The function that is open, and how many labels it has had. */
  ghost predicate OpenIs(items: seq<Located>, s: Scan, f: nat) {
    && Owner(items, |items|, f) && s.funcs != []
    && var last := s.funcs[|s.funcs| - 1]; last.id == items[f].inst[2] && |last.blocks| == LabelCount(items, f, |items|)
  }

  ghost predicate State(items: seq<Located>, s: Scan, at: seq<nat>) {
    var spots := Spots(s.funcs);
    && AllCovered(items, spots, at)
    && (s.inFunction <==> Owned(items, |items|)) && (s.inFunction ==> exists f: nat :: OpenIs(items, s, f))
    && (s.inBlock <==> s.inFunction && s.funcs != [] && s.funcs[|s.funcs| - 1].blocks != [])
    && (s.inBlock ==> spots != [] && at[|at| - 1] + 1 + |spots[|spots| - 1].block.body| == |items|)
    && forall i :: 0 <= i < |at| && (i < |at| - 1 || !s.inBlock) ==> at[i] + 1 + |spots[i].block.body| < |items|
  }

  lemma SpotsMore(funcs: seq<Func>, f: Func)
    ensures Spots(funcs + [f]) == Spots(funcs) + SpotsOf(f)
  {
    assert (funcs + [f])[..|funcs|] == funcs;
  }

  /** A new function has no blocks; a label adds one; an instruction goes to the last. */
  lemma SpotsNew(funcs: seq<Func>, id: Word, index: nat)
    ensures Spots(funcs + [Func(id, index, [])]) == Spots(funcs)
  {
    SpotsMore(funcs, Func(id, index, []));
  }

  lemma SpotsLabel(s: Scan, b: Block)
    requires s.funcs != []
    ensures var last := s.funcs[|s.funcs| - 1];
      Spots(LastFunc(s, last.blocks + [b])) == Spots(s.funcs) + [Spot(last.id, |last.blocks|, b)]
  {
    var n := |s.funcs| - 1;
    var last := s.funcs[n];
    SpotsMore(s.funcs[..n], last);
    SpotsMore(s.funcs[..n], last.(blocks := last.blocks + [b]));
    assert s.funcs[..n] + [last] == s.funcs;
    assert SpotsOf(last.(blocks := last.blocks + [b])) == SpotsOf(last) + [Spot(last.id, |last.blocks|, b)];
  }

  lemma SpotsVisit(s: Scan, x: Located)
    requires s.funcs != [] && s.funcs[|s.funcs| - 1].blocks != []
    ensures var blocks, spots := s.funcs[|s.funcs| - 1].blocks, Spots(s.funcs);
      && spots != [] && spots[|spots| - 1].block == blocks[|blocks| - 1]
      && Spots(LastFunc(s, blocks[..|blocks| - 1] + [Visit(blocks[|blocks| - 1], x)]))
        == spots[..|spots| - 1] + [spots[|spots| - 1].(block := Visit(blocks[|blocks| - 1], x))]
  {
    var n := |s.funcs| - 1;
    var last := s.funcs[n];
    var k := |last.blocks| - 1;
    var next := last.(blocks := last.blocks[..k] + [Visit(last.blocks[k], x)]);
    SpotsMore(s.funcs[..n], last);
    SpotsMore(s.funcs[..n], next);
    assert s.funcs[..n] + [last] == s.funcs;
    assert SpotsOf(next) == SpotsOf(last)[..k] + [Spot(last.id, k, Visit(last.blocks[k], x))];
  }

  // ---- the steps ----

  lemma OwnedNext(items: seq<Located>, x: Located)
    ensures Owned(items + [x], |items| + 1) <==>
      Starts(items + [x], |items|) || (Owned(items, |items|) && !Ends(items + [x], |items|))
  {
    hide Starts, Ends;
    var more, n := items + [x], |items|;
    StartNotEnd(more, n);
    var next := n + 1;
    if f: nat :| Owner(more, next, f) && f < n {
      forall j: nat | f < j < n ensures !Starts(items, j) && !Ends(items, j) { KindsMore(items, x, j); }
      KindsMore(items, x, f);
      assert Owner(items, n, f);
      assert !Ends(more, n);
    }
    if Starts(more, n) { assert Owner(more, n + 1, n); }
    if f: nat :| Owner(items, n, f) && !Ends(more, n) && !Starts(more, n) {
      OwnerMore(items, x, n, f);
      assert Owner(more, n + 1, f);
    }
  }

  lemma StartNotEnd(items: seq<Located>, p: nat)
    ensures !(Starts(items, p) && Ends(items, p)) && !(Starts(items, p) && Labels(items, p)) && !(Ends(items, p) && Labels(items, p))
  {}

  lemma OwnerNext(items: seq<Located>, x: Located, f: nat)
    requires Owner(items, |items|, f) && !Starts(items + [x], |items|) && !Ends(items + [x], |items|)
    ensures Owner(items + [x], |items| + 1, f)
  {
    hide Starts, Ends;
    OwnerMore(items, x, |items|, f);
  }

  /** Nothing else changes where no label of a function comes. */
  lemma CoveredStill(items: seq<Located>, x: Located, spots: seq<Spot>, at: seq<nat>)
    requires AllCovered(items, spots, at) && !(Labels(items + [x], |items|) && Owned(items, |items|))
    requires forall i :: 0 <= i < |at| && at[i] + 1 + |spots[i].block.body| == |items| ==> Closes(items + [x], |items|)
    ensures AllCovered(items + [x], spots, at)
  {
    hide Starts, Ends, Labels, Covers, Owner, Closes;
    var more := items + [x];
    forall i | 0 <= i < |at| ensures Covers(more, spots[i], at[i]) { CoversMore(items, x, spots[i], at[i]); }
    forall p: nat | Labels(more, p) && Owned(more, p) ensures p in at { LabelsOld(items, x, p); }
  }

  lemma LabelsOld(items: seq<Located>, x: Located, p: nat)
    requires Labels(items + [x], p) && Owned(items + [x], p)
    ensures if p == |items| then Owned(items, p) else Labels(items, p) && Owned(items, p)
  {
    hide Owner;
    var f: nat :| Owner(items + [x], p, f);
    OwnerMore(items, x, p, f);
  }

  lemma StepStart(items: seq<Located>, s: Scan, x: Located, at: seq<nat>)
    requires State(items, s, at) && Starts(items + [x], |items|)
    ensures State(items + [x], Step(s, x), at)
  {
    hide Labels, Ends, Covers, AllCovered;
    var more, n := items + [x], |items|;
    StartNotEnd(more, n);
    SpotsNew(s.funcs, x.inst[2], x.index);
    CoveredStill(items, x, Spots(s.funcs), at);
    OwnedNext(items, x);
    assert Owner(more, n + 1, n);
    assert OpenIs(more, Step(s, x), n);
    AtBelow(items, Spots(s.funcs), at);
  }

  lemma AtBelow(items: seq<Located>, spots: seq<Spot>, at: seq<nat>)
    requires AllCovered(items, spots, at)
    ensures |at| == |spots| && forall i :: 0 <= i < |at| ==> at[i] + 1 + |spots[i].block.body| <= |items|
  {
    hide Labels, Owner;
  }

  lemma StepEnd(items: seq<Located>, s: Scan, x: Located, at: seq<nat>)
    requires State(items, s, at) && Ends(items + [x], |items|)
    ensures State(items + [x], Step(s, x), at)
  {
    hide Labels, Starts, Covers, AllCovered;
    StartNotEnd(items + [x], |items|);
    CoveredStill(items, x, Spots(s.funcs), at);
    OwnedNext(items, x);
    AtBelow(items, Spots(s.funcs), at);
    NotStart(items, x);
  }

  lemma NotStart(items: seq<Located>, x: Located)
    ensures Starts(items + [x], |items|) <==> Op(x.inst) == FUNCTION && |x.inst| >= 5
    ensures Ends(items + [x], |items|) <==> Op(x.inst) == FUNCTION_END
    ensures Labels(items + [x], |items|) <==> Op(x.inst) == LABEL && |x.inst| >= 2
  {}

  /** Outside functions, and in front of the first label of one. */
  lemma StepOutside(items: seq<Located>, s: Scan, x: Located, at: seq<nat>)
    requires State(items, s, at) && !Starts(items + [x], |items|) && !Ends(items + [x], |items|)
    requires !s.inBlock && !(s.inFunction && Labels(items + [x], |items|))
    ensures State(items + [x], Step(s, x), at)
  {
    hide Labels, Starts, Ends, Covers, AllCovered, Owner;
    NotStart(items, x);
    CoveredStill(items, x, Spots(s.funcs), at);
    OwnedNext(items, x);
    if s.inFunction {
      var f: nat :| OpenIs(items, s, f);
      OpenNext(items, s, x, f);
    }
  }

  lemma OpenNext(items: seq<Located>, s: Scan, x: Located, f: nat)
    requires OpenIs(items, s, f) && !Starts(items + [x], |items|) && !Ends(items + [x], |items|) && !Labels(items + [x], |items|)
    ensures OpenIs(items + [x], s, f)
  {
    hide Labels, Starts, Ends, Owner;
    OwnerNext(items, x, f);
    OwnerBelow(items, |items|, f);
    CountMore(items, x, f, |items|);
    assert (items + [x])[f] == items[f];
  }

  lemma StepVisit(items: seq<Located>, s: Scan, x: Located, at: seq<nat>)
    requires State(items, s, at) && !Closes(items + [x], |items|) && s.inBlock
    ensures State(items + [x], Step(s, x), at)
  {
    hide Labels, Starts, Ends, Covers, Owner;
    var more, spots, t := items + [x], Spots(s.funcs), Step(s, x);
    NotStart(items, x);
    SpotsVisit(s, x);
    var f: nat :| OpenIs(items, s, f);
    OpenNext(items, s, x, f);
    OwnedNext(items, x);
    var k := |at| - 1;
    CoversVisit(items, x, spots[k], at[k]);
    var next := Spots(t.funcs);
    assert next == spots[..k] + [spots[k].(block := Visit(spots[k].block, x))];
    forall i | 0 <= i < |at| ensures Covers(more, next[i], at[i]) { if i < k { CoversMore(items, x, spots[i], at[i]); } }
    forall p: nat | Labels(more, p) && Owned(more, p) ensures p in at { LabelsOld(items, x, p); }
    VisitOpen(more, s, x, f);
  }

  lemma VisitOpen(more: seq<Located>, s: Scan, x: Located, f: nat)
    requires OpenIs(more, s, f) && s.inFunction && s.inBlock && s.funcs[|s.funcs| - 1].blocks != []
    requires !(Op(x.inst) == FUNCTION && |x.inst| >= 5) && Op(x.inst) != FUNCTION_END && !(Op(x.inst) == LABEL && |x.inst| >= 2)
    ensures OpenIs(more, Step(s, x), f)
  {
    hide Owner;
  }

  lemma StepLabel(items: seq<Located>, s: Scan, x: Located, at: seq<nat>)
    requires State(items, s, at) && Labels(items + [x], |items|) && s.inFunction
    ensures State(items + [x], Step(s, x), at + [|items|])
  {
    hide Labels, Starts, Ends, Covers, Owner;
    var more, spots, n := items + [x], Spots(s.funcs), |items|;
    NotStart(items, x);
    StartNotEnd(more, n);
    var f: nat :| OpenIs(items, s, f);
    var last := s.funcs[|s.funcs| - 1];
    CoversNew(items, x, f, last.id, |last.blocks|);
    SpotsLabel(s, NewBlock(x));
    OwnedNext(items, x);
    AtBelow(items, spots, at);
    AtLabels(items, spots, at);
    var ids, next := at + [n], Spots(Step(s, x).funcs);
    assert next == spots + [Spot(last.id, |last.blocks|, NewBlock(x))];
    forall i | 0 <= i < |ids| ensures Covers(more, next[i], ids[i]) { if i < |at| { CoversMore(items, x, spots[i], at[i]); } }
    forall p: nat | Labels(more, p) && Owned(more, p) ensures p in ids { LabelsOld(items, x, p); LabelBelow(more, p); }
    OwnerNext(items, x, f);
    OwnerBelow(items, n, f);
    CountMore(items, x, f, n);
    assert OpenIs(more, Step(s, x), f);
  }

  lemma AtLabels(items: seq<Located>, spots: seq<Spot>, at: seq<nat>)
    requires AllCovered(items, spots, at)
    ensures forall i :: 0 <= i < |at| ==> at[i] < |items|
  {
    hide Owner;
  }

  lemma StateNone()
    ensures State([], Scan([], false, false), [])
  {}

  lemma {:induction false} SummaryState(items: seq<Located>) returns (at: seq<nat>)
    ensures State(items, Summary(items), at)
  {
    hide State, Step, Starts, Ends, Labels;
    at := [];
    if items == [] {
      StateNone();
    } else {
      var front, x := items[..|items| - 1], items[|items| - 1];
      at := SummaryState(front);
      var s := Summary(front);
      assert front + [x] == items;
      StateBlock(front, s, at);
      if Starts(items, |front|) { StepStart(front, s, x, at); }
      else if Ends(items, |front|) { StepEnd(front, s, x, at); }
      else if s.inFunction && Labels(items, |front|) {
        StepLabel(front, s, x, at);
        at := at + [|front|];
      }
      else if s.inBlock { StepVisit(front, s, x, at); }
      else { StepOutside(front, s, x, at); }
    }
  }

  lemma StateBlock(items: seq<Located>, s: Scan, at: seq<nat>)
    requires State(items, s, at)
    ensures s.inBlock ==> s.inFunction
  {
    hide AllCovered, Owned, OpenIs;
  }

  /** Every label in a function is a block of the summary, in order, with all the
      instructions up to the next label or the end of the function. */
  lemma SummaryCovers(items: seq<Located>) returns (at: seq<nat>)
    ensures AllCovered(items, Spots(Summary(items).funcs), at)
  {
    at := SummaryState(items);
    StateCovers(items, Summary(items), at);
  }

  lemma StateCovers(items: seq<Located>, s: Scan, at: seq<nat>)
    requires State(items, s, at)
    ensures AllCovered(items, Spots(s.funcs), at)
  {}

  // ---- the insertion points ----

  /** The word index of the first instruction that is no phi; of the first that is a
      loop merge, a selection merge or a terminator; and the last terminator. */
  ghost predicate PointsAre(b: Block) {
    && (match b.entry
        case None => forall k :: 0 <= k < |b.body| ==> Op(b.body[k].inst) == 245
        case Some(index) => exists k :: 0 <= k < |b.body| && b.body[k].index == index && EntryAt(b, k))
    && match b.exit
       case None => forall k :: 0 <= k < |b.body| ==> !(246 <= Op(b.body[k].inst) <= 247 || 249 <= Op(b.body[k].inst) <= 255)
       case Some(index) => exists k :: 0 <= k < |b.body| && b.body[k].index == index && ExitAt(b, k)
  }

  predicate EntryAt(b: Block, k: nat)
    requires k < |b.body|
  {
    Op(b.body[k].inst) != 245 && forall j :: 0 <= j < k ==> Op(b.body[j].inst) == 245
  }

  predicate ExitAt(b: Block, k: nat)
    requires k < |b.body|
  {
    && (246 <= Op(b.body[k].inst) <= 247 || 249 <= Op(b.body[k].inst) <= 255)
    && forall j :: 0 <= j < k ==> !(246 <= Op(b.body[j].inst) <= 247 || 249 <= Op(b.body[j].inst) <= 255)
  }

  lemma PointsExact(b: Block)
    requires Points(b)
    ensures PointsAre(b)
  {
    hide Op;
    if b.entry.Some? {
      var k :| 0 <= k < |b.body| && b.body[k].index == b.entry.value && NotPhi(Op(b.body[k].inst)) && forall j :: 0 <= j < k ==> !NotPhi(Op(b.body[j].inst));
      assert EntryAt(b, k);
    }
    if b.exit.Some? {
      var k :| 0 <= k < |b.body| && b.body[k].index == b.exit.value && Leaves(Op(b.body[k].inst)) && forall j :: 0 <= j < k ==> !Leaves(Op(b.body[j].inst));
      assert ExitAt(b, k);
    }
  }

  /** So are those of every block of the summary. */
  lemma SummaryPoints(items: seq<Located>, spot: Spot)
    requires spot in Spots(Summary(items).funcs)
    ensures PointsAre(spot.block)
  {
    hide PointsAre, Points, Summary, Spots;
    SummaryDescribes(items);
    SpotIn(Summary(items).funcs, spot);
    PointsExact(spot.block);
  }
}
