/** The bisection schedule of the analyser: rounds of candidate ranges, halved
    until every candidate stands alone. */
module Bisection {

  /** A range of candidate indices; its candidates are `start` up to `end`. */
  datatype Group = Group(start: nat, end: nat, leaf: bool)

  function Size(g: Group): int { g.end - g.start }

  /** The groups cover `lo` up to `hi` in order, without gap or overlap. */
  predicate Tiles(gs: seq<Group>, lo: nat, hi: nat) {
    if gs == [] then lo == hi
    else
      var last := gs[|gs| - 1];
      last.end == hi && last.start <= last.end && Tiles(gs[..|gs| - 1], lo, last.start)
  }

  /** How many groups hold the index `x`, all of them or the leaves only. */
  function Holding(gs: seq<Group>, x: nat, leavesOnly: bool): nat {
    if gs == [] then 0
    else
      var last := gs[|gs| - 1];
      Holding(gs[..|gs| - 1], x, leavesOnly) + if last.start <= x < last.end && (last.leaf || !leavesOnly) then 1 else 0
  }

  function HoldingAll(rounds: seq<seq<Group>>, x: nat): nat {
    if rounds == [] then 0 else HoldingAll(rounds[..|rounds| - 1], x) + Holding(rounds[|rounds| - 1], x, true)
  }

  /** Every size is `m` or one less. */
  predicate Balanced(gs: seq<Group>, m: int) {
    forall i :: 0 <= i < |gs| ==> m - 1 <= Size(gs[i]) <= m
  }

  predicate Reaches(gs: seq<Group>, m: int) {
    exists i :: 0 <= i < |gs| && Size(gs[i]) == m
  }

  /** Rounds of halving until nothing is larger than one. */
  function CeilLog2(n: nat): nat {
    if n <= 1 then 0 else 1 + CeilLog2((n + 1) / 2)
  }

  function Pow2(k: nat): nat { if k == 0 then 1 else 2 * Pow2(k - 1) }

  /** It is the least exponent whose power of two reaches `n`. */
  lemma {:induction false} CeilLog2Least(n: nat)
    ensures n <= Pow2(CeilLog2(n))
    ensures forall k: nat :: k < CeilLog2(n) ==> Pow2(k) < n
  {
    if n > 1 {
      var h := (n + 1) / 2;
      CeilLog2Least(h);
      forall k: nat | k < CeilLog2(n)
        ensures Pow2(k) < n
      {
        if k > 0 { assert Pow2(k - 1) < h; }
      }
    }
  }

  // ---- one round ----

  /** The pending ranges: all of the range, balanced with largest size `m`. */
  ghost predicate Pending(gs: seq<Group>, n: nat, m: nat) {
    gs != [] && Tiles(gs, 0, n) && Balanced(gs, m) && Reaches(gs, m)
  }

  /** What a round has done with the ranges up to `done`: each index is in one
      leaf of the round or in one range of the next. */
  ghost predicate Covered(groups: seq<Group>, next: seq<Group>, done: nat) {
    forall x: nat :: Holding(groups, x, true) + Holding(next, x, false) == if x < done then 1 else 0
  }

  lemma HoldingSnoc(gs: seq<Group>, g: Group, x: nat, leavesOnly: bool)
    ensures Holding(gs + [g], x, leavesOnly) == Holding(gs, x, leavesOnly) + if g.start <= x < g.end && (g.leaf || !leavesOnly) then 1 else 0
  {
    assert (gs + [g])[..|gs|] == gs;
  }

  lemma TilesSnoc(gs: seq<Group>, g: Group, lo: nat)
    requires Tiles(gs, lo, g.start) && g.start <= g.end
    ensures Tiles(gs + [g], lo, g.end)
  {
    assert (gs + [g])[..|gs|] == gs;
  }

  lemma CoveredLeaf(groups: seq<Group>, next: seq<Group>, g: Group)
    requires Covered(groups, next, g.start) && g.leaf && g.start <= g.end
    ensures Covered(groups + [g], next, g.end)
  {
    forall x: nat
      ensures Holding(groups + [g], x, true) + Holding(next, x, false) == if x < g.end then 1 else 0
    {
      HoldingSnoc(groups, g, x, true);
    }
  }

  lemma CoveredSplit(groups: seq<Group>, next: seq<Group>, l: Group, r: Group)
    requires Covered(groups, next, l.start) && !l.leaf && !r.leaf && l.start <= l.end == r.start <= r.end
    ensures Covered(groups + [l, r], next + [l, r], r.end)
  {
    forall x: nat
      ensures Holding(groups + [l, r], x, true) + Holding(next + [l, r], x, false) == if x < r.end then 1 else 0
    {
      HoldingSnoc(groups, l, x, true);
      HoldingSnoc(groups + [l], r, x, true);
      HoldingSnoc(next, l, x, false);
      HoldingSnoc(next + [l], r, x, false);
      assert groups + [l] + [r] == groups + [l, r] && next + [l] + [r] == next + [l, r];
    }
  }

  lemma TilesAt(gs: seq<Group>, lo: nat, hi: nat, i: nat)
    requires Tiles(gs, lo, hi) && i < |gs|
    ensures Tiles(gs[..i], lo, gs[i].start) && gs[i].start <= gs[i].end && Tiles(gs[..i + 1], lo, gs[i].end)
    decreases |gs|
  {
    if i < |gs| - 1 {
      var front := gs[..|gs| - 1];
      TilesAt(front, lo, gs[|gs| - 1].start, i);
      assert front[..i] == gs[..i] && front[..i + 1] == gs[..i + 1];
    } else {
      assert gs[..i + 1] == gs;
    }
  }

  predicate NoLeaf(gs: seq<Group>) { forall i :: 0 <= i < |gs| ==> !gs[i].leaf }

  lemma {:induction false} NoLeafHolds(gs: seq<Group>, x: nat)
    requires NoLeaf(gs)
    ensures Holding(gs, x, true) == 0
  {
    if gs != [] { NoLeafHolds(gs[..|gs| - 1], x); }
  }

  predicate NonEmpty(gs: seq<Group>) { forall i :: 0 <= i < |gs| ==> Size(gs[i]) >= 1 }

  /** A range of more than one candidate in two halves, the left one not larger; any
      other as a leaf. */
  function Parts(g: Group): seq<Group> {
    if Size(g) <= 1 then [Group(g.start, g.end, true)]
    else
      var mid := g.start + (g.end - g.start) / 2;
      [Group(g.start, mid, false), Group(mid, g.end, false)]
  }

  function AllParts(gs: seq<Group>): seq<Group> {
    if gs == [] then [] else AllParts(gs[..|gs| - 1]) + Parts(gs[|gs| - 1])
  }

  function Unfinished(gs: seq<Group>): seq<Group> {
    if gs == [] then [] else Unfinished(gs[..|gs| - 1]) + if gs[|gs| - 1].leaf then [] else [gs[|gs| - 1]]
  }

  lemma {:induction false} UnfinishedAppend(a: seq<Group>, b: seq<Group>)
    ensures Unfinished(a + b) == Unfinished(a) + Unfinished(b)
    decreases |b|
  {
    if b == [] {
      assert a + b == a;
    } else {
      assert (a + b)[..|a + b| - 1] == a + b[..|b| - 1];
      UnfinishedAppend(a, b[..|b| - 1]);
    }
  }

  /** The pass over the first `i` ranges, as lists. */
  ghost predicate Passed(pending: seq<Group>, i: nat, groups: seq<Group>, next: seq<Group>)
    requires i <= |pending|
  {
    groups == AllParts(pending[..i]) && next == Unfinished(groups)
  }

  lemma PassedMore(pending: seq<Group>, i: nat, groups: seq<Group>, next: seq<Group>)
    requires i < |pending| && Passed(pending, i, groups, next)
    ensures var more := Parts(pending[i]); Passed(pending, i + 1, groups + more, next + if Size(pending[i]) <= 1 then [] else more)
  {
    hide Parts;
    assert pending[..i + 1][..i] == pending[..i];
    var more := Parts(pending[i]);
    UnfinishedAppend(groups, more);
    UnfinishedParts(pending[i]);
  }

  lemma UnfinishedParts(g: Group)
    ensures Unfinished(Parts(g)) == if Size(g) <= 1 then [] else Parts(g)
  {
    var more := Parts(g);
    if Size(g) <= 1 {
      assert more[..0] == [] && Unfinished(more) == Unfinished([]) + [];
    } else {
      assert more[..1] == [more[0]] && [more[0]][..0] == [];
      assert Unfinished([more[0]]) == Unfinished([]) + [more[0]];
      assert Unfinished(more) == Unfinished([more[0]]) + [more[1]];
    }
  }

  lemma PassedNone(pending: seq<Group>)
    ensures Passed(pending, 0, [], [])
  {
    assert pending[..0] == [];
  }

  lemma PassedAll(pending: seq<Group>, groups: seq<Group>, next: seq<Group>)
    requires Passed(pending, |pending|, groups, next)
    ensures groups == AllParts(pending) && next == Unfinished(groups)
  {
    assert pending[..|pending|] == pending;
  }

  function Done(pending: seq<Group>, i: nat): nat
    requires i <= |pending|
  {
    if i == 0 then 0 else pending[i - 1].end
  }

  /** The pass has dealt with the first `i` ranges. */
  ghost predicate Halved(pending: seq<Group>, i: nat, m: nat, groups: seq<Group>, next: seq<Group>)
    requires i <= |pending|
  {
    && Tiles(groups, 0, Done(pending, i)) && Covered(groups, next, Done(pending, i)) && |groups| >= i
    && (m <= 1 ==> next == [] && groups == Leaves(pending[..i]))
    && (m == 2 ==> Balanced(groups, 1) && Balanced(next, 1))
    && (m > 2 ==> next == groups && Balanced(next, (m + 1) / 2) && NoLeaf(groups))
    && (m >= 2 ==> NonEmpty(next) && (Reaches(pending[..i], m) ==> Reaches(next, (m + 1) / 2)))
  }

  lemma LeafStep(pending: seq<Group>, i: nat, n: nat, m: nat, groups: seq<Group>, next: seq<Group>)
    requires Pending(pending, n, m) && i < |pending| && Halved(pending, i, m, groups, next) && Size(pending[i]) <= 1
    ensures Halved(pending, i + 1, m, groups + [Group(pending[i].start, pending[i].end, true)], next)
  {
    var range := pending[i];
    var leaf := Group(range.start, range.end, true);
    Touches(pending, n, i);
    TilesSnoc(groups, leaf, 0);
    CoveredLeaf(groups, next, leaf);
    assert pending[..i + 1] == pending[..i] + [range];
    ReachesSnoc(pending[..i], range, m);
    assert Size(leaf) == Size(range);
  }

  lemma SplitStep(pending: seq<Group>, i: nat, n: nat, m: nat, groups: seq<Group>, next: seq<Group>, l: Group, r: Group)
    requires Pending(pending, n, m) && i < |pending| && Halved(pending, i, m, groups, next) && Size(pending[i]) > 1
    requires var mid := pending[i].start + (pending[i].end - pending[i].start) / 2;
      l == Group(pending[i].start, mid, false) && r == Group(mid, pending[i].end, false)
    ensures Halved(pending, i + 1, m, groups + [l, r], next + [l, r])
  {
    hide Holding, Tiles, Covered, Leaves;
    var range := pending[i];
    Touches(pending, n, i);
    TilesSnoc(groups, l, 0);
    TilesSnoc(groups + [l], r, 0);
    CoveredSplit(groups, next, l, r);
    assert groups + [l] + [r] == groups + [l, r];
    assert pending[..i + 1] == pending[..i] + [range];
    ReachesSnoc(pending[..i], range, m);
    if Reaches(pending[..i + 1], m) {
      var all := next + [l, r];
      if Reaches(pending[..i], m) { ReachesMore(next, [l, r], (m + 1) / 2); }
      else { assert all[|next| + 1] == r && Size(all[|next| + 1]) == (m + 1) / 2; }
    }
  }

  lemma ReachesSnoc(gs: seq<Group>, g: Group, m: int)
    ensures Reaches(gs + [g], m) <==> Reaches(gs, m) || Size(g) == m
  {
    var all := gs + [g];
    assert all[|gs|] == g;
    if Reaches(gs, m) { ReachesMore(gs, [g], m); }
    if Reaches(all, m) && Size(g) != m {
      var i :| 0 <= i < |all| && Size(all[i]) == m;
      assert gs[i] == all[i];
    }
  }

  lemma Touches(pending: seq<Group>, n: nat, i: nat)
    requires pending != [] && Tiles(pending, 0, n) && i < |pending|
    ensures pending[i].start == Done(pending, i) && pending[i].start <= pending[i].end
  {
    TilesAt(pending, 0, n, i);
    if i == 0 { assert pending[..0] == []; } else { TilesEnd(pending, i); }
  }

  /** One pass over the pending ranges: a range of at most one candidate becomes
      a leaf, any other is halved. */
  method Halve(pending: seq<Group>, ghost n: nat, ghost m: nat) returns (groups: seq<Group>, next: seq<Group>)
    requires Pending(pending, n, m)
    ensures Tiles(groups, 0, n) && Covered(groups, next, n) && |groups| > 0
    ensures m <= 1 ==> next == [] && groups == Leaves(pending)
    ensures m == 2 ==> next != [] && Balanced(next, 1) && Balanced(groups, 1)
    ensures m > 2 ==> next == groups && Pending(next, n, (m + 1) / 2) && NoLeaf(groups)
    ensures groups == AllParts(pending) && next == Unfinished(groups)
  {
    hide Passed, AllParts, Unfinished, Halved, Pending, Tiles;
    groups, next := [], [];
    PassedNone(pending);
    HalvedNone(pending, m);
    for i := 0 to |pending|
      invariant Halved(pending, i, m, groups, next) && Passed(pending, i, groups, next)
    {
      var start, end := pending[i].start, pending[i].end;
      RangeOrdered(pending, n, m, i);
      PassedMore(pending, i, groups, next);
      if end - start <= 1 {
        LeafStep(pending, i, n, m, groups, next);
        assert next + [] == next;
        groups := groups + [Group(start, end, true)];
      } else {
        var mid := start + (end - start) / 2;
        var l, r := Group(start, mid, false), Group(mid, end, false);
        SplitStep(pending, i, n, m, groups, next, l, r);
        groups := groups + [l, r];
        next := next + [l, r];
      }
    }
    PassedAll(pending, groups, next);
    HalvedAll(pending, n, m, groups, next);
  }

  lemma RangeOrdered(pending: seq<Group>, n: nat, m: nat, i: nat)
    requires Pending(pending, n, m) && i < |pending|
    ensures pending[i].start <= pending[i].end
  {
    Touches(pending, n, i);
  }

  lemma HalvedNone(pending: seq<Group>, m: nat)
    ensures Halved(pending, 0, m, [], [])
  {
    assert pending[..0] == [];
  }

  lemma HalvedAll(pending: seq<Group>, n: nat, m: nat, groups: seq<Group>, next: seq<Group>)
    requires Pending(pending, n, m) && Halved(pending, |pending|, m, groups, next)
    ensures Tiles(groups, 0, n) && Covered(groups, next, n) && |groups| > 0
    ensures m <= 1 ==> next == [] && groups == Leaves(pending)
    ensures m == 2 ==> next != [] && Balanced(next, 1) && Balanced(groups, 1)
    ensures m > 2 ==> next == groups && Pending(next, n, (m + 1) / 2) && NoLeaf(groups)
  {
    assert pending[..|pending|] == pending;
    TilesWhole(pending, n);
  }

  function Leaves(gs: seq<Group>): seq<Group> {
    seq(|gs|, i requires 0 <= i < |gs| => Group(gs[i].start, gs[i].end, true))
  }

  lemma ReachesMore(gs: seq<Group>, more: seq<Group>, m: int)
    requires Reaches(gs, m)
    ensures Reaches(gs + more, m)
  {
    var i :| 0 <= i < |gs| && Size(gs[i]) == m;
    assert (gs + more)[i] == gs[i];
  }

  /** Consecutive ranges touch. */
  lemma TilesEnd(gs: seq<Group>, i: nat)
    requires 0 < i < |gs| && Tiles(gs[..i], 0, gs[i].start)
    ensures gs[i - 1].end == gs[i].start
  {
    assert gs[..i][i - 1] == gs[i - 1];
  }

  lemma TilesWhole(gs: seq<Group>, n: nat)
    requires gs != [] && Tiles(gs, 0, n)
    ensures gs[|gs| - 1].end == n
  {}

  // ---- the whole schedule ----

  /** The first `k` rounds each cover all candidates in order, with sizes that
      differ by at most one. */
  ghost predicate Partitions(rounds: seq<seq<Group>>, n: nat, k: nat)
    requires k <= |rounds|
  {
    forall r :: 0 <= r < k ==> Tiles(rounds[r], 0, n) && exists m :: Balanced(rounds[r], m)
  }

  lemma HoldingAllSnoc(rounds: seq<seq<Group>>, gs: seq<Group>, x: nat)
    ensures HoldingAll(rounds + [gs], x) == HoldingAll(rounds, x) + Holding(gs, x, true)
  {
    assert (rounds + [gs])[..|rounds|] == rounds;
  }

  lemma {:induction false} LeavesHold(gs: seq<Group>, x: nat)
    ensures Holding(Leaves(gs), x, true) == Holding(gs, x, false)
  {
    if gs != [] {
      LeavesHold(gs[..|gs| - 1], x);
      assert Leaves(gs)[..|gs| - 1] == Leaves(gs[..|gs| - 1]);
    }
  }

  predicate AllSmall(gs: seq<Group>) {
    forall i :: 0 <= i < |gs| ==> gs[i].end - gs[i].start <= 1
  }

  /** The rounds so far, before the pending ranges are halved. */
  ghost predicate Going(rounds: seq<seq<Group>>, pending: seq<Group>, n: nat, m: nat) {
    && Pending(pending, n, m) && (rounds != [] ==> m >= 2)
    && |rounds| + CeilLog2(m) == CeilLog2(n)
    && Partitions(rounds, n, |rounds|)
    && forall x: nat :: HoldingAll(rounds, x) == 0
  }

  predicate AllLeaves(gs: seq<Group>) {
    forall i :: 0 <= i < |gs| ==> gs[i].leaf && 0 <= Size(gs[i]) <= 1
  }

  /** Everything the schedule promises. */
  ghost predicate Schedule(rounds: seq<seq<Group>>, n: nat) {
    && |rounds| == CeilLog2(n) + 1
    && Partitions(rounds, n, if n <= 1 then |rounds| else |rounds| - 1)
    && AllLeaves(rounds[|rounds| - 1])
    && forall x: nat :: HoldingAll(rounds, x) == if x < n then 1 else 0
  }

  /** Each round halves the ranges of the one before that are not done; the last has
      the leaves that are left. */
  ghost predicate Chained(rounds: seq<seq<Group>>, n: nat) {
    && rounds != [] && rounds[0] == AllParts([Group(0, n, false)])
    && (forall r :: 0 < r < |rounds| - 1 ==> rounds[r] == AllParts(Unfinished(rounds[r - 1])))
    && (|rounds| > 1 ==> rounds[|rounds| - 1] == Leaves(Unfinished(rounds[|rounds| - 2])))
  }

  /** The rounds so far are chained, and what is pending is what they left. */
  ghost predicate Linked(rounds: seq<seq<Group>>, pending: seq<Group>, n: nat) {
    && (rounds == [] ==> pending == [Group(0, n, false)])
    && (rounds != [] ==> rounds[0] == AllParts([Group(0, n, false)]) && pending == Unfinished(rounds[|rounds| - 1]))
    && forall r :: 0 < r < |rounds| ==> rounds[r] == AllParts(Unfinished(rounds[r - 1]))
  }

  lemma LinkedMore(rounds: seq<seq<Group>>, pending: seq<Group>, n: nat, groups: seq<Group>)
    requires Linked(rounds, pending, n) && groups == AllParts(pending)
    ensures Linked(rounds + [groups], Unfinished(groups), n)
    ensures Unfinished(groups) != [] ==> Chained(rounds + [groups] + [Leaves(Unfinished(groups))], n)
    ensures rounds == [] ==> Chained([groups], n)
  {
    hide AllParts, Unfinished, Leaves;
    var more := rounds + [groups];
    forall r | 0 < r < |more| ensures more[r] == AllParts(Unfinished(more[r - 1])) { if r < |rounds| { assert more[r - 1] == rounds[r - 1]; } }
    var all := more + [Leaves(Unfinished(groups))];
    forall r | 0 < r < |all| - 1 ensures all[r] == AllParts(Unfinished(all[r - 1])) { assert all[r] == more[r] && all[r - 1] == more[r - 1]; }
  }

  lemma GoingOn(rounds: seq<seq<Group>>, pending: seq<Group>, n: nat, m: nat, groups: seq<Group>)
    requires Going(rounds, pending, n, m) && m > 2 && Pending(groups, n, (m + 1) / 2)
    requires NoLeaf(groups)
    ensures Going(rounds + [groups], groups, n, (m + 1) / 2)
  {
    var more := rounds + [groups];
    forall x: nat ensures HoldingAll(more, x) == 0 {
      HoldingAllSnoc(rounds, groups, x);
      NoLeafHolds(groups, x);
    }
    forall r | 0 <= r < |more|
      ensures Tiles(more[r], 0, n) && exists m :: Balanced(more[r], m)
    {
      if r < |rounds| { assert more[r] == rounds[r]; } else { assert Balanced(more[r], (m + 1) / 2); }
    }
  }

  /** The last round of halving, and the round of leaves behind it. */
  lemma Finished(rounds: seq<seq<Group>>, pending: seq<Group>, n: nat, m: nat, groups: seq<Group>, next: seq<Group>)
    requires Going(rounds, pending, n, m) && m == 2 && Tiles(groups, 0, n) && Balanced(groups, 1) && Balanced(next, 1) && Covered(groups, next, n)
    ensures Schedule(rounds + [groups] + [Leaves(next)], n)
  {
    var more, all := rounds + [groups], rounds + [groups] + [Leaves(next)];
    forall x: nat ensures HoldingAll(all, x) == if x < n then 1 else 0 {
      HoldingAllSnoc(rounds, groups, x);
      HoldingAllSnoc(more, Leaves(next), x);
      LeavesHold(next, x);
    }
    forall r | 0 <= r < |all| - 1
      ensures Tiles(all[r], 0, n) && exists m :: Balanced(all[r], m)
    {
      if r < |rounds| { assert all[r] == rounds[r]; } else { assert Balanced(all[r], 1); }
    }
    AtLeastTwo(n, pending, m);
  }

  lemma AtLeastTwo(n: nat, pending: seq<Group>, m: nat)
    requires Pending(pending, n, m) && m >= 2
    ensures n >= 2
  {
    var i :| 0 <= i < |pending| && Size(pending[i]) == m;
    TilesAt(pending, 0, n, i);
    TilesBound(pending, 0, n, i);
  }

  lemma {:induction false} TilesBound(gs: seq<Group>, lo: nat, hi: nat, i: nat)
    requires Tiles(gs, lo, hi) && i < |gs|
    ensures lo <= hi && gs[i].end <= hi
    decreases |gs|
  {
    var front := gs[..|gs| - 1];
    if i < |front| {
      TilesBound(front, lo, gs[|gs| - 1].start, i);
    } else if front != [] {
      TilesBound(front, lo, gs[|gs| - 1].start, 0);
    }
  }

  lemma SingleHolds(rounds: seq<seq<Group>>, groups: seq<Group>, n: nat)
    requires (forall x: nat :: HoldingAll(rounds, x) == 0) && Covered(groups, [], n)
    ensures forall x: nat :: HoldingAll(rounds + [groups], x) == if x < n then 1 else 0
  {
    forall x: nat ensures HoldingAll(rounds + [groups], x) == if x < n then 1 else 0 { HoldingAllSnoc(rounds, groups, x); }
  }

  lemma SingleStart(rounds: seq<seq<Group>>, pending: seq<Group>, n: nat, m: nat)
    requires pending == [Group(0, n, false)] && Going(rounds, pending, n, m) && m <= 1
    ensures n == m && rounds == [] && Leaves(pending) == [Group(0, n, true)] && forall x: nat :: HoldingAll(rounds, x) == 0
  {}

  lemma SingleLeaf(groups: seq<Group>, n: nat)
    requires groups == [Group(0, n, true)] && n <= 1 && Tiles(groups, 0, n)
    requires forall x: nat :: HoldingAll([groups], x) == if x < n then 1 else 0
    ensures Schedule([groups], n)
  {
    hide Holding, HoldingAll, Tiles;
    assert Balanced(groups, n);
  }

  /** Nothing to halve: at most one candidate. */
  lemma Single(rounds: seq<seq<Group>>, pending: seq<Group>, n: nat, m: nat, groups: seq<Group>)
    requires Going(rounds, pending, n, m) && m <= 1 && groups == Leaves(pending) && Tiles(groups, 0, n) && Covered(groups, [], n)
    requires pending == [Group(0, n, false)]
    ensures Schedule(rounds + [groups], n)
  {
    hide *;
    SingleStart(rounds, pending, n, m);
    assert rounds + [groups] == [groups];
    SingleHolds(rounds, groups, n);
    SingleLeaf(groups, n);
  }

  /** For every candidate count the schedule terminates; there are the ceiling of
      log2 plus one rounds; every round but the final round of leaves covers all
      candidates in order, in groups whose sizes differ by at most one; and each
      candidate is in exactly one leaf. */
  method BisectRounds(n: nat) returns (rounds: seq<seq<Group>>)
    ensures Schedule(rounds, n) && Chained(rounds, n)
  {
    rounds := [];
    var pending := [Group(0, n, false)];
    ghost var m := n;
    assert Pending(pending, n, n) by { assert Size(pending[0]) == n; assert pending[..0] == []; }
    while true
      invariant Going(rounds, pending, n, m) && (rounds == [] ==> m == n && pending == [Group(0, n, false)])
      invariant Linked(rounds, pending, n)
      decreases m
    {
      var groups, next := Halve(pending, n, m);
      LinkedMore(rounds, pending, n, groups);
      assert m == 2 ==> AllSmall(next);
      if m > 2 { NotSmall(next, n, (m + 1) / 2); }
      if AllSmall(next) {
        if next != [] {
          Finished(rounds, pending, n, m, groups, next);
          rounds := rounds + [groups] + [Leaves(next)];
        } else {
          Single(rounds, pending, n, m, groups);
          rounds := rounds + [groups];
        }
        return;
      }
      GoingOn(rounds, pending, n, m, groups);
      rounds := rounds + [groups];
      pending := next;
      m := (m + 1) / 2;
    }
  }

  lemma NotSmall(gs: seq<Group>, n: nat, m: nat)
    requires Pending(gs, n, m) && m >= 2
    ensures !AllSmall(gs)
  {
    var i :| 0 <= i < |gs| && Size(gs[i]) == m;
  }
}
