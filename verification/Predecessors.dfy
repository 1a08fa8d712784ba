/** The analyser's edges between blocks: the targets of a terminator, the
    predecessors of a block, and on which side of a condition it is reached. */
module Predecessors {
  import opened Words
  import opened Ops
  import opened ControlFlow

  const BRANCH := 249
  const BRANCH_CONDITIONAL := 250
  const SWITCH := 251

  /** A switch has its default first and then every second word. */
  function Targets(inst: Inst): seq<Word> {
    var op := Op(inst);
    if op == BRANCH && |inst| >= 2 then [inst[1]]
    else if op == BRANCH_CONDITIONAL && |inst| >= 4 then [inst[2], inst[3]]
    else if op == SWITCH && |inst| >= 3 then [inst[2]] + CaseLabels(inst)
    else []
  }

  function CaseLabels(inst: Inst): (r: seq<Word>)
    requires |inst| >= 3
    ensures forall k :: 0 <= k < |r| ==> 4 + 2 * k < |inst| && r[k] == inst[4 + 2 * k]
    ensures |inst| <= 4 + 2 * |r|
  {
    seq((|inst| - 3) / 2, k requires 0 <= k < (|inst| - 3) / 2 => inst[4 + 2 * k])
  }

  method BranchTargets(inst: Inst) returns (targets: seq<Word>)
    ensures targets == Targets(inst)
  {
    var op := Op(inst);
    if op == BRANCH && |inst| >= 2 { return [inst[1]]; }
    if op == BRANCH_CONDITIONAL && |inst| >= 4 { return [inst[2], inst[3]]; }
    if op != SWITCH || |inst| < 3 { return []; }
    targets := [inst[2]];
    var i := 4;
    while i < |inst|
      invariant i == 2 + 2 * |targets| && |targets| <= 1 + |CaseLabels(inst)|
      invariant targets == [inst[2]] + CaseLabels(inst)[..|targets| - 1]
    {
      targets := targets + [inst[i]];
      i := i + 2;
    }
  }

  function Successors(b: Block): seq<Word> {
    match b.terminator
    case None => []
    case Some(inst) => Targets(inst)
  }

  // ---- predecessors ----

  datatype Edge = Edge(fn: Word, labelId: Word, ordinal: nat, terminator: Option<Inst>)

  function EdgeOf(s: Spot): Edge { Edge(s.fn, s.block.labelId, s.ordinal, s.block.terminator) }

  function Repeated(e: Edge, n: nat): (r: seq<Edge>)
    ensures |r| == n && forall k :: 0 <= k < n ==> r[k] == e
  {
    seq(n, _ => e)
  }

  /** The edges of one block to a label, one for each time it is named. */
  function EdgesFrom(s: Spot, target: Word): seq<Edge> { Repeated(EdgeOf(s), multiset(Successors(s.block))[target]) }

  /** The predecessors of a label, in the order of the blocks they come from. */
  function Entering(spots: seq<Spot>, target: Word): seq<Edge> {
    if spots == [] then [] else Entering(spots[..|spots| - 1], target) + EdgesFrom(spots[|spots| - 1], target)
  }

  function Lookup<K, V>(m: map<K, seq<V>>, key: K): seq<V> { if key in m then m[key] else [] }

  ghost predicate Holds(preds: map<Word, seq<Edge>>, spots: seq<Spot>) {
    forall target :: Lookup(preds, target) == Entering(spots, target)
  }

  /** The edge was put in once for each of the labels. */
  ghost predicate Gained(was: map<Word, seq<Edge>>, now: map<Word, seq<Edge>>, e: Edge, labels: seq<Word>) {
    forall target :: Lookup(now, target) == Lookup(was, target) + Repeated(e, multiset(labels)[target])
  }

  /** The map from labels to their predecessors, built block by block and
      successor by successor. */
  method PredMap(funcs: seq<Func>) returns (preds: map<Word, seq<Edge>>)
    ensures Holds(preds, Spots(funcs))
  {
    hide Entering, EdgesFrom, Holds, Gained;
    preds := map[];
    HoldsNothing();
    for n := 0 to |funcs|
      invariant Holds(preds, Spots(funcs[..n]))
    {
      assert funcs[..n + 1][..n] == funcs[..n];
      var f := funcs[n];
      ghost var before := Spots(funcs[..n]);
      assert before + SpotsOf(f)[..0] == before;
      for i := 0 to |f.blocks|
        invariant Holds(preds, before + SpotsOf(f)[..i])
      {
        var s := SpotsOf(f)[i];
        ghost var was := preds;
        preds := AddEdges(preds, s);
        assert before + SpotsOf(f)[..i + 1] == before + SpotsOf(f)[..i] + [s];
        HoldsNext(was, preds, before + SpotsOf(f)[..i], s);
      }
      assert SpotsOf(f)[..|f.blocks|] == SpotsOf(f);
    }
    assert funcs[..|funcs|] == funcs;
  }

  lemma HoldsNothing()
    ensures Holds(map[], Spots([]))
  {}

  lemma HoldsNext(was: map<Word, seq<Edge>>, now: map<Word, seq<Edge>>, spots: seq<Spot>, s: Spot)
    requires Holds(was, spots) && Gained(was, now, EdgeOf(s), Successors(s.block))
    ensures Holds(now, spots + [s])
  {
    hide Entering, Successors, Repeated, EdgeOf, Lookup;
    forall target ensures Lookup(now, target) == Entering(spots + [s], target) { EnteringSnoc(spots, s, target); }
  }

  method AddEdges(preds: map<Word, seq<Edge>>, s: Spot) returns (more: map<Word, seq<Edge>>)
    ensures Gained(preds, more, EdgeOf(s), Successors(s.block))
  {
    hide Gained, Targets;
    var successors: seq<Word> := [];
    if s.block.terminator.Some? { successors := BranchTargets(s.block.terminator.value); }
    more := preds;
    GainedNothing(preds, EdgeOf(s));
    for j := 0 to |successors|
      invariant Gained(preds, more, EdgeOf(s), successors[..j])
    {
      assert successors[..j + 1] == successors[..j] + [successors[j]];
      GainedNext(preds, more, EdgeOf(s), successors[..j], successors[j]);
      more := more[successors[j] := Lookup(more, successors[j]) + [EdgeOf(s)]];
    }
    assert successors[..|successors|] == successors;
  }

  lemma GainedNothing(was: map<Word, seq<Edge>>, e: Edge)
    ensures Gained(was, was, e, [])
  {
    forall target ensures Lookup(was, target) == Lookup(was, target) + Repeated(e, multiset([])[target]) {}
  }

  lemma GainedNext(was: map<Word, seq<Edge>>, now: map<Word, seq<Edge>>, e: Edge, labels: seq<Word>, id: Word)
    requires Gained(was, now, e, labels)
    ensures Gained(was, now[id := Lookup(now, id) + [e]], e, labels + [id])
  {
    hide *;
    var next := now[id := Lookup(now, id) + [e]];
    forall target ensures Lookup(next, target) == Lookup(was, target) + Repeated(e, multiset(labels + [id])[target]) {
      GainedAt(was, now, e, labels, target);
      OneMore(now, e, id, Lookup(was, target), labels, target);
    }
    GainedAll(was, next, e, labels + [id]);
  }

  lemma OneMore(now: map<Word, seq<Edge>>, e: Edge, id: Word, was: seq<Edge>, labels: seq<Word>, target: Word)
    requires Lookup(now, target) == was + Repeated(e, multiset(labels)[target])
    ensures Lookup(now[id := Lookup(now, id) + [e]], target) == was + Repeated(e, multiset(labels + [id])[target])
  {
    hide Repeated;
    var n := multiset(labels)[target];
    RepeatedNext(e, n);
    assert multiset(labels + [id]) == multiset(labels) + multiset{id};
    if target == id { assert Lookup(now, id) + [e] == was + Repeated(e, n + 1); }
  }

  lemma GainedAt(was: map<Word, seq<Edge>>, now: map<Word, seq<Edge>>, e: Edge, labels: seq<Word>, target: Word)
    requires Gained(was, now, e, labels)
    ensures Lookup(now, target) == Lookup(was, target) + Repeated(e, multiset(labels)[target])
  {}

  lemma GainedAll(was: map<Word, seq<Edge>>, now: map<Word, seq<Edge>>, e: Edge, labels: seq<Word>)
    requires forall target :: Lookup(now, target) == Lookup(was, target) + Repeated(e, multiset(labels)[target])
    ensures Gained(was, now, e, labels)
  {}

  lemma RepeatedNext(e: Edge, n: nat)
    ensures Repeated(e, n + 1) == Repeated(e, n) + [e]
  {}

  lemma EnteringSnoc(spots: seq<Spot>, s: Spot, target: Word)
    ensures Entering(spots + [s], target) == Entering(spots, target) + EdgesFrom(s, target)
  {
    assert (spots + [s])[..|spots|] == spots;
  }

  /** A block is a predecessor of exactly the labels its terminator names. */
  lemma {:induction false} EnteringIff(spots: seq<Spot>, target: Word, e: Edge)
    ensures e in Entering(spots, target) <==> exists s :: s in spots && Jumping(s, target, e)
  {
    hide Successors, EdgesFrom, Jumping;
    if spots != [] {
      var front, last := spots[..|spots| - 1], spots[|spots| - 1];
      EnteringIff(front, target, e);
      FromIff(last, target, e);
      assert spots == front + [last];
      assert forall s :: s in spots <==> s in front || s == last;
    }
  }

  predicate Jumping(s: Spot, target: Word, e: Edge) { EdgeOf(s) == e && target in Successors(s.block) }

  lemma FromIff(s: Spot, target: Word, e: Edge)
    ensures e in EdgesFrom(s, target) <==> Jumping(s, target, e)
  {
    hide Successors;
    if target in Successors(s.block) { assert EdgesFrom(s, target)[0] == EdgeOf(s); }
  }

  /** All the labels the blocks jump to. */
  function Jumps(spots: seq<Spot>): seq<Word> {
    if spots == [] then [] else Jumps(spots[..|spots| - 1]) + Successors(spots[|spots| - 1].block)
  }

  /** No edge is lost or added: a label has as many predecessors as jumps to it. */
  lemma {:induction false} EdgesConserved(spots: seq<Spot>, target: Word)
    ensures |Entering(spots, target)| == multiset(Jumps(spots))[target]
  {
    if spots != [] { EdgesConserved(spots[..|spots| - 1], target); }
  }

  // ---- sides of a condition ----

  datatype Dependency = Dependency(labelId: Word, ordinal: nat, condition: Word, side: Option<bool>)

  predicate Conditional(e: Edge) {
    e.terminator.Some? && Op(e.terminator.value) == BRANCH_CONDITIONAL && |e.terminator.value| >= 4
  }

  /** The true label is looked at first. */
  function DependencyOf(e: Edge, target: Word): Dependency
    requires Conditional(e)
  {
    var inst := e.terminator.value;
    Dependency(e.labelId, e.ordinal, inst[1], if inst[2] == target then Some(true) else if inst[3] == target then Some(false) else None)
  }

  function Dependencies(edges: seq<Edge>, target: Word): seq<Dependency> {
    if edges == [] then []
    else
      var e := edges[|edges| - 1];
      Dependencies(edges[..|edges| - 1], target) + if Conditional(e) then [DependencyOf(e, target)] else []
  }

  /** Blocks of one function with one label share an entry. */
  function Depends(spots: seq<Spot>, all: seq<Spot>, fn: Word, target: Word): seq<Dependency> {
    if spots == [] then []
    else
      var s := spots[|spots| - 1];
      Depends(spots[..|spots| - 1], all, fn, target)
      + if s.fn == fn && s.block.labelId == target then Dependencies(Entering(all, target), target) else []
  }

  ghost predicate Found(found: map<(Word, Word), seq<Dependency>>, spots: seq<Spot>, all: seq<Spot>) {
    forall fn, target :: Lookup(found, (fn, target)) == Depends(spots, all, fn, target)
  }

  method ConditionalPredecessors(spots: seq<Spot>, preds: map<Word, seq<Edge>>) returns (found: map<(Word, Word), seq<Dependency>>)
    requires Holds(preds, spots)
    ensures Found(found, spots, spots)
  {
    hide Found, Entering;
    found := map[];
    FoundNothing(spots);
    for n := 0 to |spots|
      invariant Found(found, spots[..n], spots)
    {
      var here := spots[n].block.labelId;
      var edges := Lookup(preds, here);
      var more := FilterConditional(edges, here);
      FoundNext(found, spots[..n], spots, spots[n]);
      assert spots[..n + 1] == spots[..n] + [spots[n]];
      found := found[(spots[n].fn, here) := Lookup(found, (spots[n].fn, here)) + more];
    }
    assert spots[..|spots|] == spots;
  }

  method FilterConditional(edges: seq<Edge>, target: Word) returns (found: seq<Dependency>)
    ensures found == Dependencies(edges, target)
  {
    found := [];
    for k := 0 to |edges|
      invariant found == Dependencies(edges[..k], target)
    {
      assert edges[..k + 1][..k] == edges[..k];
      if Conditional(edges[k]) { found := found + [DependencyOf(edges[k], target)]; }
    }
    assert edges[..|edges|] == edges;
  }

  lemma FoundNothing(all: seq<Spot>)
    ensures Found(map[], [], all)
  {}

  lemma FoundNext(found: map<(Word, Word), seq<Dependency>>, spots: seq<Spot>, all: seq<Spot>, s: Spot)
    requires Found(found, spots, all)
    ensures var key := (s.fn, s.block.labelId);
      Found(found[key := Lookup(found, key) + Dependencies(Entering(all, key.1), key.1)], spots + [s], all)
  {
    hide Entering, Dependencies;
    var key := (s.fn, s.block.labelId);
    var next := found[key := Lookup(found, key) + Dependencies(Entering(all, key.1), key.1)];
    assert (spots + [s])[..|spots|] == spots;
    forall fn, target ensures Lookup(next, (fn, target)) == Depends(spots + [s], all, fn, target) {
      assert Lookup(found, (fn, target)) == Depends(spots, all, fn, target);
    }
  }

  /** What a conditional branch really does: to a label on its true side, on its
      false side, or on both. */
  function RealSides(inst: Inst, target: Word): seq<Option<bool>>
    requires |inst| >= 4
  {
    (if inst[2] == target then [Some(true)] else []) + if inst[3] == target then [Some(false)] else []
  }

  function Sides(found: seq<Dependency>): seq<Option<bool>> {
    seq(|found|, i requires 0 <= i < |found| => found[i].side)
  }

  /** The sides reported for a conditional branch are the real ones exactly if not
      both of them lead to this label; a side is always found. */
  lemma SidesExactIff(s: Spot, target: Word)
    requires Conditional(EdgeOf(s))
    ensures var inst, found := s.block.terminator.value, Dependencies(EdgesFrom(s, target), target);
      && (Sides(found) == RealSides(inst, target) <==> !(inst[2] == target && inst[3] == target))
      && |found| == |RealSides(inst, target)| && forall d :: d in found ==> d.side.Some?
  {
    var inst, edges := s.block.terminator.value, EdgesFrom(s, target);
    assert multiset(Targets(inst)) == multiset{inst[2], inst[3]};
    var n := |edges|;
    assert n == |RealSides(inst, target)|;
    var d := if n > 0 then [DependencyOf(EdgeOf(s), target)] else [];
    if n == 1 { assert edges[..0] == [] && Dependencies(edges, target) == d; }
    if n == 2 {
      assert edges[..1][..0] == [] && Dependencies(edges[..1], target) == d && Dependencies(edges, target) == d + d;
      assert Sides(d + d)[1] == Some(true) && RealSides(inst, target)[1] == Some(false);
    }
  }

  /** Both sides of a branch lead to block 5; it is listed twice as the true side. */
  lemma BothSidesTrue()
    ensures var s := Spot(1, 0, Block(4, 10, [], None, None, Some([Head(4, BRANCH_CONDITIONAL), 9, 5, 5])));
      Conditional(EdgeOf(s)) && Sides(Dependencies(EdgesFrom(s, 5), 5)) == [Some(true), Some(true)]
  {
    var inst: Inst := [Head(4, BRANCH_CONDITIONAL), 9, 5, 5];
    var s := Spot(1, 0, Block(4, 10, [], None, None, Some(inst)));
    var edges := EdgesFrom(s, 5);
    assert Targets(inst) == [5, 5] && edges == [EdgeOf(s), EdgeOf(s)];
    var d := DependencyOf(EdgeOf(s), 5);
    assert edges[..1] == [EdgeOf(s)] && [EdgeOf(s)][..0] == [];
    assert Dependencies([EdgeOf(s)], 5) == [d] && Dependencies(edges, 5) == [d, d];
  }

  /** The labels a terminator names: of a branch its target, of a conditional one
      both sides, of a switch the default and every second word behind it. */
  lemma TargetsIff(inst: Inst, id: Word)
    ensures id in Targets(inst) <==>
      || (Op(inst) == 249 && |inst| >= 2 && inst[1] == id)
      || (Op(inst) == 250 && |inst| >= 4 && (inst[2] == id || inst[3] == id))
      || (Op(inst) == 251 && |inst| >= 3 && (inst[2] == id || exists k :: 0 <= k && 4 + 2 * k < |inst| && inst[4 + 2 * k] == id))
  {
    if Op(inst) == 251 && |inst| >= 3 {
      var r := CaseLabels(inst);
      assert Targets(inst) == [inst[2]] + r;
      if k :| 0 <= k && 4 + 2 * k < |inst| && inst[4 + 2 * k] == id { assert r[k] == id; }
      if id in r { var k :| 0 <= k < |r| && r[k] == id; assert inst[4 + 2 * k] == id; }
    }
  }
}
