/** The structural analyser's view of a function: its blocks, where a probe may
    be put at their entry and exit, and the list of probe candidates. */
module ControlFlow {
  import opened Words
  import opened Ops

  const FUNCTION_END := 56
  const LOOP_MERGE := 246
  const SELECTION_MERGE := 247

  predicate IsTerminator(op: nat) { 249 <= op <= 255 }

  /** A merge instruction or, without one, the terminator: an exit probe goes in front. */
  predicate Leaves(op: nat) { op == LOOP_MERGE || op == SELECTION_MERGE || IsTerminator(op) }

  predicate NotPhi(op: nat) { op != PHI }

  /** `body` is what follows the label; `entry` and `exit` are word indices. */
  datatype Block = Block(labelId: Word, wordIndex: nat, body: seq<Located>, entry: Option<nat>, exit: Option<nat>, terminator: Option<Inst>)

  datatype Func = Func(id: Word, wordIndex: nat, blocks: seq<Block>)

  /** The functions so far, and whether the last one and its last block are open. */
  datatype Scan = Scan(funcs: seq<Func>, inFunction: bool, inBlock: bool)

  function Visit(b: Block, at: Located): Block {
    var op := Op(at.inst);
    Block(b.labelId, b.wordIndex, b.body + [at],
          if b.entry.None? && op != PHI then Some(at.index) else b.entry,
          if b.exit.None? && Leaves(op) then Some(at.index) else b.exit,
          if IsTerminator(op) then Some(at.inst) else b.terminator)
  }

  function NewBlock(at: Located): Block
    requires |at.inst| >= 2
  {
    Block(at.inst[1], at.index, [], None, None, None)
  }

  function LastFunc(s: Scan, blocks: seq<Block>): seq<Func>
    requires s.funcs != []
  {
    s.funcs[..|s.funcs| - 1] + [s.funcs[|s.funcs| - 1].(blocks := blocks)]
  }

  function Step(s: Scan, at: Located): Scan {
    var op := Op(at.inst);
    if op == FUNCTION && |at.inst| >= 5 then Scan(s.funcs + [Func(at.inst[2], at.index, [])], true, false)
    else if op == FUNCTION_END then Scan(s.funcs, false, false)
    else if !s.inFunction || s.funcs == [] then s
    else
      var blocks := s.funcs[|s.funcs| - 1].blocks;
      if op == LABEL && |at.inst| >= 2 then Scan(LastFunc(s, blocks + [NewBlock(at)]), true, true)
      else if !s.inBlock || blocks == [] then s
      else Scan(LastFunc(s, blocks[..|blocks| - 1] + [Visit(blocks[|blocks| - 1], at)]), true, true)
  }

  function Summary(items: seq<Located>): Scan {
    if items == [] then Scan([], false, false) else Step(Summary(items[..|items| - 1]), items[|items| - 1])
  }

  method SummarizeCfg(items: seq<Located>) returns (funcs: seq<Func>)
    ensures funcs == Summary(items).funcs
  {
    funcs := [];
    var inFunction, inBlock := false, false;
    for n := 0 to |items|
      invariant Scan(funcs, inFunction, inBlock) == Summary(items[..n])
    {
      var at := items[n];
      var op := Op(at.inst);
      assert items[..n + 1][..n] == items[..n];
      if op == FUNCTION && |at.inst| >= 5 {
        funcs, inFunction, inBlock := funcs + [Func(at.inst[2], at.index, [])], true, false;
        continue;
      }
      if op == FUNCTION_END {
        inFunction, inBlock := false, false;
        continue;
      }
      if !inFunction || funcs == [] { continue; }
      var last := |funcs| - 1;
      var blocks := funcs[last].blocks;
      if op == LABEL && |at.inst| >= 2 {
        funcs, inBlock := funcs[..last] + [funcs[last].(blocks := blocks + [NewBlock(at)])], true;
        continue;
      }
      if !inBlock || blocks == [] { continue; }
      funcs := funcs[..last] + [funcs[last].(blocks := blocks[..|blocks| - 1] + [Visit(blocks[|blocks| - 1], at)])];
    }
    assert items[..|items|] == items;
  }

  // ---- what the entries and exits are ----

  /** The word index of the first instruction with a property, if there is one. */
  ghost predicate FirstWith(body: seq<Located>, p: nat -> bool, at: Option<nat>) {
    match at
    case None => forall k :: 0 <= k < |body| ==> !p(Op(body[k].inst))
    case Some(index) =>
      exists k :: 0 <= k < |body| && body[k].index == index && p(Op(body[k].inst)) && forall j :: 0 <= j < k ==> !p(Op(body[j].inst))
  }

  /** The last terminator. */
  ghost predicate LastTerminator(body: seq<Located>, t: Option<Inst>) {
    match t
    case None => forall k :: 0 <= k < |body| ==> !IsTerminator(Op(body[k].inst))
    case Some(inst) =>
      exists k :: 0 <= k < |body| && body[k].inst == inst && IsTerminator(Op(inst)) && forall j :: k < j < |body| ==> !IsTerminator(Op(body[j].inst))
  }

  ghost predicate Points(b: Block) {
    && FirstWith(b.body, NotPhi, b.entry)
    && FirstWith(b.body, Leaves, b.exit)
    && LastTerminator(b.body, b.terminator)
  }

  /** The block is a label of the stream and the instructions behind it. */
  ghost predicate Stands(items: seq<Located>, b: Block) {
    exists p: nat :: StandsAt(items, b, p)
  }

  ghost predicate StandsAt(items: seq<Located>, b: Block, p: nat) {
    && p + 1 + |b.body| <= |items| && items[p].index == b.wordIndex && Op(items[p].inst) == LABEL
    && |items[p].inst| >= 2 && items[p].inst[1] == b.labelId && b.body == items[p + 1..p + 1 + |b.body|]
  }

  ghost predicate Described(items: seq<Located>, s: Scan) {
    && (forall f, b :: f in s.funcs && b in f.blocks ==> Points(b) && Stands(items, b))
    && (s.inBlock ==> s.inFunction) && (s.inFunction ==> s.funcs != [])
    && (s.inBlock ==> OpenAt(items, s))
  }

  /** The open block ends where the stream read so far ends. */
  ghost predicate OpenAt(items: seq<Located>, s: Scan) {
    s.funcs != [] && s.funcs[|s.funcs| - 1].blocks != []
    && var b := s.funcs[|s.funcs| - 1].blocks[|s.funcs[|s.funcs| - 1].blocks| - 1];
       1 + |b.body| <= |items| && StandsAt(items, b, |items| - 1 - |b.body|)
  }

  lemma FirstMore(body: seq<Located>, p: nat -> bool, was: Option<nat>, at: Located)
    requires FirstWith(body, p, was)
    ensures FirstWith(body + [at], p, if was.None? && p(Op(at.inst)) then Some(at.index) else was)
  {
    var more := body + [at];
    match was {
      case None => if p(Op(at.inst)) { assert more[|body|] == at; }
      case Some(index) =>
        var k :| 0 <= k < |body| && body[k].index == index && p(Op(body[k].inst)) && forall j :: 0 <= j < k ==> !p(Op(body[j].inst));
        assert more[k] == body[k];
    }
  }

  lemma LastMore(body: seq<Located>, was: Option<Inst>, at: Located)
    requires LastTerminator(body, was)
    ensures LastTerminator(body + [at], if IsTerminator(Op(at.inst)) then Some(at.inst) else was)
  {
    var more := body + [at];
    if IsTerminator(Op(at.inst)) {
      assert more[|body|] == at;
    } else if was.Some? {
      var k :| 0 <= k < |body| && body[k].inst == was.value && IsTerminator(Op(was.value)) && forall j :: k < j < |body| ==> !IsTerminator(Op(body[j].inst));
      assert more[k] == body[k];
    }
  }

  lemma VisitPoints(b: Block, at: Located)
    requires Points(b)
    ensures Points(Visit(b, at))
  {
    FirstMore(b.body, NotPhi, b.entry, at);
    FirstMore(b.body, Leaves, b.exit, at);
    LastMore(b.body, b.terminator, at);
  }

  lemma StandsMore(items: seq<Located>, b: Block, at: Located)
    requires Stands(items, b)
    ensures Stands(items + [at], b)
  {
    var p: nat :| StandsAt(items, b, p);
    assert (items + [at])[p + 1..p + 1 + |b.body|] == items[p + 1..p + 1 + |b.body|];
    assert StandsAt(items + [at], b, p);
  }

  lemma VisitStands(items: seq<Located>, b: Block, at: Located)
    requires 1 + |b.body| <= |items| && StandsAt(items, b, |items| - 1 - |b.body|)
    ensures StandsAt(items + [at], Visit(b, at), |items| - 1 - |b.body|)
  {
    var p := |items| - 1 - |b.body|;
    assert (items + [at])[p + 1..p + 2 + |b.body|] == items[p + 1..] + [at];
  }

  lemma NewStands(items: seq<Located>, at: Located)
    requires Op(at.inst) == LABEL && |at.inst| >= 2
    ensures StandsAt(items + [at], NewBlock(at), |items|) && Points(NewBlock(at))
  {}

  lemma StepDescribed(items: seq<Located>, s: Scan, at: Located)
    requires Described(items, s)
    ensures Described(items + [at], Step(s, at))
  {
    hide Points, Stands, StandsAt;
    var more := items + [at];
    forall f, b | f in s.funcs && b in f.blocks ensures Points(b) && Stands(more, b) { StandsMore(items, b, at); }
    if s.inFunction && s.funcs != [] && Op(at.inst) != FUNCTION_END && !(Op(at.inst) == FUNCTION && |at.inst| >= 5) {
      var blocks := s.funcs[|s.funcs| - 1].blocks;
      assert s.funcs[|s.funcs| - 1] in s.funcs;
      if Op(at.inst) == LABEL && |at.inst| >= 2 {
        NewStands(items, at);
        LastDescribed(more, s, blocks, NewBlock(at));
      } else if s.inBlock && blocks != [] {
        var b := blocks[|blocks| - 1];
        VisitPoints(b, at);
        VisitStands(items, b, at);
        assert forall c :: c in blocks[..|blocks| - 1] ==> c in blocks;
        LastDescribed(more, s, blocks[..|blocks| - 1], Visit(b, at));
      }
    }
  }

  /** The open function gets a new last block. */
  lemma LastDescribed(items: seq<Located>, s: Scan, blocks: seq<Block>, b: Block)
    requires s.funcs != [] && 1 + |b.body| <= |items| && StandsAt(items, b, |items| - 1 - |b.body|) && Points(b)
    requires forall f, c :: f in s.funcs && c in f.blocks ==> Points(c) && Stands(items, c)
    requires forall c :: c in blocks ==> Points(c) && Stands(items, c)
    ensures Described(items, Scan(LastFunc(s, blocks + [b]), true, true))
  {
    hide Points, Stands, StandsAt;
    StandsFrom(items, b, |items| - 1 - |b.body|);
  }

  lemma StandsFrom(items: seq<Located>, b: Block, p: nat)
    requires StandsAt(items, b, p)
    ensures Stands(items, b)
  {}

  /** Every summarised block is a label of the stream with the instructions
      behind it; its entry point is the first of them that is no phi, its exit point
      the first that merges or terminates. */
  lemma {:induction false} SummaryDescribes(items: seq<Located>)
    ensures Described(items, Summary(items))
  {
    if items != [] {
      var front := items[..|items| - 1];
      SummaryDescribes(front);
      StepDescribed(front, Summary(front), items[|items| - 1]);
      assert front + [items[|items| - 1]] == items;
    }
  }

  // ---- positions ----

  /** The stream's word indices grow and stay below `words`. */
  ghost predicate Ordered(items: seq<Located>, words: nat) {
    && (forall j, k :: 0 <= j < k < |items| ==> items[j].index < items[k].index)
    && (forall k :: 0 <= k < |items| ==> items[k].index < words)
  }

  /** Insertion points lie in the module, the entry never behind the exit. */
  lemma EntryBeforeExit(items: seq<Located>, words: nat, b: Block)
    requires Ordered(items, words) && Points(b) && Stands(items, b)
    ensures b.wordIndex < words
    ensures b.exit.Some? ==> b.entry.Some? && b.wordIndex < b.entry.value <= b.exit.value < words
  {
    hide Points, Stands;
    BodyOrdered(items, words, b);
    if b.exit.Some? { var j, k := PointOrder(b); }
  }

  lemma BodyOrdered(items: seq<Located>, words: nat, b: Block)
    requires Ordered(items, words) && Stands(items, b)
    ensures b.wordIndex < words && Ordered(b.body, words)
    ensures forall k :: 0 <= k < |b.body| ==> b.wordIndex < b.body[k].index
  {
    var p: nat :| StandsAt(items, b, p);
    assert forall k :: 0 <= k < |b.body| ==> b.body[k] == items[p + 1 + k];
  }

  lemma PointOrder(b: Block) returns (j: nat, k: nat)
    requires Points(b) && b.exit.Some?
    ensures b.entry.Some? && j <= k < |b.body| && b.body[j].index == b.entry.value && b.body[k].index == b.exit.value
  {
    k :| 0 <= k < |b.body| && b.body[k].index == b.exit.value && Leaves(Op(b.body[k].inst)) && forall i :: 0 <= i < k ==> !Leaves(Op(b.body[i].inst));
    assert NotPhi(Op(b.body[k].inst));
    j :| 0 <= j < |b.body| && b.body[j].index == b.entry.value && NotPhi(Op(b.body[j].inst)) && forall i :: 0 <= i < j ==> !NotPhi(Op(b.body[i].inst));
  }

  // ---- the candidates ----

  /** One candidate for each block, in order. */
  datatype Spot = Spot(fn: Word, ordinal: nat, block: Block)

  function SpotsOf(f: Func): (r: seq<Spot>)
    ensures |r| == |f.blocks|
  {
    seq(|f.blocks|, i requires 0 <= i < |f.blocks| => Spot(f.id, i, f.blocks[i]))
  }

  function Spots(funcs: seq<Func>): seq<Spot> {
    if funcs == [] then [] else Spots(funcs[..|funcs| - 1]) + SpotsOf(funcs[|funcs| - 1])
  }

  method ProbeCandidates(funcs: seq<Func>) returns (spots: seq<Spot>)
    ensures spots == Spots(funcs)
  {
    spots := [];
    for n := 0 to |funcs|
      invariant spots == Spots(funcs[..n])
    {
      assert funcs[..n + 1][..n] == funcs[..n];
      var f := funcs[n];
      ghost var before := spots;
      for i := 0 to |f.blocks|
        invariant spots == before + SpotsOf(f)[..i]
      {
        spots := spots + [Spot(f.id, i, f.blocks[i])];
      }
      assert SpotsOf(f)[..|f.blocks|] == SpotsOf(f);
    }
    assert funcs[..|funcs|] == funcs;
  }

  lemma {:induction false} SpotIn(funcs: seq<Func>, spot: Spot)
    requires spot in Spots(funcs)
    ensures exists f :: f in funcs && spot.fn == f.id && spot.ordinal < |f.blocks| && f.blocks[spot.ordinal] == spot.block
  {
    var front, last := funcs[..|funcs| - 1], funcs[|funcs| - 1];
    if spot in Spots(front) {
      SpotIn(front, spot);
    } else {
      var i :| 0 <= i < |SpotsOf(last)| && SpotsOf(last)[i] == spot;
      assert last in funcs;
    }
  }
}
