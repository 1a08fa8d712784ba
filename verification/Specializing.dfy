/** Stage 2 of the effective-module compiler: replace specialization constants
    by the plain constants that a dispatch's entries select, except those the
    workgroup size must keep open. */
module Specializing {
  import opened Words
  import opened Ops
  import opened Machine
  import opened Meaning
  import Finite

  // ---- which ids stay specializable ----

  function ResolveComposite(ids: map<nat, Word>, wg: set<nat>, bound: nat, entries: seq<Entry>, size: seq<Word>, inst: Inst): (r: seq<Word>)
    requires |size| == 3
    ensures |r| == 3
  {
    if Op(inst) == SPEC_CONSTANT_COMPOSITE && |inst| >= 6 && inst[2] < bound && inst[2] in wg then
      seq(3, d requires 0 <= d < 3 => ResolveMember(ids, bound, entries, inst[3 + d], size[d]))
    else size
  }

  function ResolveMember(ids: map<nat, Word>, bound: nat, entries: seq<Entry>, member: Word, size: Word): Word {
    if member < bound && member in ids then EntryWord(entries, ids[member], if size == 0 then 1 else size) else size
  }

  function ResolveAll(ids: map<nat, Word>, wg: set<nat>, bound: nat, entries: seq<Entry>, insts: seq<Inst>, size: seq<Word>): (r: seq<Word>)
    requires |size| == 3
    ensures |r| == 3
  {
    if insts == [] then size
    else ResolveComposite(ids, wg, bound, entries, ResolveAll(ids, wg, bound, entries, insts[..|insts| - 1], size), insts[|insts| - 1])
  }

  /** The tables are arrays of `bound` slots: decorations of other ids are dropped. */
  function SpecIds(insts: seq<Inst>, bound: nat): map<nat, Word> {
    var all := Decorations(insts, SPEC_ID);
    map id | id in all && id < bound :: all[id]
  }

  function SizeIds(insts: seq<Inst>, bound: nat): set<nat> {
    set id | id in WorkgroupIds(insts) && id < bound
  }

  function ResolvedSize(insts: seq<Inst>, bound: nat, entries: seq<Entry>): (r: seq<Word>)
    ensures |r| == 3
  {
    ResolveAll(SpecIds(insts, bound), SizeIds(insts, bound), bound, entries, insts, LastMode(insts, false))
  }

  /** The workgroup size cannot be fixed: keep its constants specializable. */
  predicate Preserves(insts: seq<Inst>, bound: nat, entries: seq<Entry>) {
    LastMode(insts, true) != [0, 0, 0] || LastMode(insts, false) != ResolvedSize(insts, bound, entries)
  }

  function IdsBelow(ids: seq<Word>, bound: nat): set<nat> {
    set i | 0 <= i < |ids| && ids[i] < bound :: ids[i] as nat
  }

  function Seeds(insts: seq<Inst>, wg: set<nat>, bound: nat): (skip: set<nat>)
    ensures forall id :: id in skip ==> id < bound
  {
    if insts == [] then {}
    else
      var before, inst := Seeds(insts[..|insts| - 1], wg, bound), insts[|insts| - 1];
      if Op(inst) == SPEC_CONSTANT_COMPOSITE && |inst| >= 3 && inst[2] < bound && inst[2] in wg
      then before + IdsBelow(inst[3..], bound) else before
  }

  predicate UsesSkipped(skip: set<nat>, bound: nat, operands: seq<Word>) {
    exists i | 0 <= i < |operands| :: operands[i] < bound && operands[i] in skip
  }

  predicate Spreads(skip: set<nat>, bound: nat, inst: Inst) {
    Op(inst) == SPEC_CONSTANT_OP && |inst| >= 5 && inst[2] < bound && inst[2] !in skip && UsesSkipped(skip, bound, inst[4..])
  }

  /** One pass of the fixpoint. */
  function Spread(insts: seq<Inst>, bound: nat, skip: set<nat>): (r: set<nat>)
    ensures skip <= r
    ensures (forall id :: id in skip ==> id < bound) ==> (forall id :: id in r ==> id < bound)
  {
    if insts == [] then skip
    else
      var before, inst := Spread(insts[..|insts| - 1], bound, skip), insts[|insts| - 1];
      if Spreads(before, bound, inst) then before + {inst[2] as nat} else before
  }

  /** The skipped ids at the fixpoint. Each pass that changes something adds an
      id below the bound, so there are at most `bound` passes. */
  function Closure(insts: seq<Inst>, bound: nat, skip: set<nat>): (r: set<nat>)
    requires forall id :: id in skip ==> id < bound
    ensures skip <= r && Spread(insts, bound, r) == r
    ensures forall id :: id in r ==> id < bound
    decreases bound - |skip|
  {
    var next := Spread(insts, bound, skip);
    if next == skip then skip
    else
      Finite.Pigeonhole(next, bound);
      Finite.SmallerSet(skip, next);
      Closure(insts, bound, next)
  }

  function Skipped(insts: seq<Inst>, bound: nat, entries: seq<Entry>): (r: set<nat>)
    ensures forall id :: id in r ==> id < bound
  {
    if Preserves(insts, bound, entries) then Closure(insts, bound, Seeds(insts, SizeIds(insts, bound), bound))
    else Closure(insts, bound, {})
  }

  // ---- the rewriting pass ----

  datatype Plan = Plan(bound: nat, ids: map<nat, Word>, entries: seq<Entry>, skip: set<nat>)

  datatype State = State(out: seq<Inst>, scalars: map<nat, Word>, composites: map<nat, seq<Word>>, changed: bool)

  const START := State([], map[], map[], false)

  /** The known values of a composite's constituents; empty as soon as one is
      unknown. Only the first four are kept. */
  function Values(scalars: map<nat, Word>, blocked: set<nat>, operands: seq<Word>): seq<Word> {
    if forall i | 0 <= i < |operands| :: operands[i] in scalars && operands[i] !in blocked
    then seq(|operands|, i requires 0 <= i < |operands| && operands[i] in scalars => scalars[operands[i]])
    else []
  }

  function FirstFour(values: seq<Word>): seq<Word> {
    if |values| <= 4 then values else values[..4]
  }

  function Remember(composites: map<nat, seq<Word>>, id: nat, values: seq<Word>): map<nat, seq<Word>> {
    if values == [] then composites else composites[id := FirstFour(values)]
  }

  function PlainConstant(resultType: Word, id: Word, value: Word): Inst {
    [Head(4, CONSTANT), resultType, id, value]
  }

  /** The value of a specialization operator that the compiler can fold. */
  function FoldOp(s: State, inst: Inst): Option<Word>
    requires |inst| >= 5
  {
    if inst[3] == U_DIV && |inst| == 6 then
      if inst[4] in s.scalars && inst[5] in s.scalars && s.scalars[inst[5]] != 0
      then Some(Quotient(s.scalars[inst[4]], s.scalars[inst[5]])) else None
    else if inst[3] == COMPOSITE_EXTRACT && |inst| == 6 then
      if inst[4] in s.composites && inst[5] < |s.composites[inst[4]]|
      then Some(s.composites[inst[4]][inst[5]]) else None
    else None
  }

  function Quotient(a: Word, b: Word): (q: Word)
    requires b != 0
    ensures q == a / b
  {
    QuotientSmall(a, b);
    a / b
  }

  lemma {:induction false} MulBounds(b: nat, q: int)
    requires b > 0
    ensures q >= 0 ==> b * q >= q
    ensures q < 0 ==> b * q + b <= 0
    decreases b
  {
    if b > 1 {
      MulBounds(b - 1, q);
      assert b * q == (b - 1) * q + q;
    }
  }

  lemma DivBounds(a: nat, b: nat, q: int, r: int)
    requires b > 0 && a == b * q + r && 0 <= r < b
    ensures 0 <= q <= a
  {
    MulBounds(b, q);
  }

  lemma QuotientSmall(a: nat, b: nat)
    requires b > 0
    ensures 0 <= a / b <= a
  {
    DivBounds(a, b, a / b, a % b);
  }

  function Keep(s: State, inst: Inst): State { s.(out := s.out + [inst]) }

  function FoldConstant(p: Plan, s: State, inst: Inst): State
    requires |inst| >= 4
  {
    var v := if inst[2] in p.ids then EntryWord(p.entries, p.ids[inst[2]], inst[3]) else inst[3];
    s.(out := s.out + [PlainConstant(inst[1], inst[2], v)], scalars := s.scalars[inst[2] := v], changed := true)
  }

  function FoldComposite(p: Plan, s: State, inst: Inst): State
    requires 3 <= |inst| && WellSized(inst)
  {
    s.(out := s.out + [[Head(|inst|, CONSTANT_COMPOSITE)] + inst[1..]],
       composites := Remember(s.composites, inst[2], Values(s.scalars, p.skip, inst[3..])),
       changed := true)
  }

  function FoldSpecOp(p: Plan, s: State, inst: Inst): Result<State>
    requires |inst| >= 5
  {
    if inst[2] in p.skip || UsesSkipped(p.skip, p.bound, inst[4..]) then Ok(Keep(s, inst))
    else match FoldOp(s, inst)
      case None => Err(UnsupportedSpecOp(inst[3], inst[2]))
      case Some(v) =>
        Ok(s.(out := s.out + [PlainConstant(inst[1], inst[2], v)], scalars := s.scalars[inst[2] := v], changed := true))
  }

  predicate Strips(p: Plan, inst: Inst) {
    Decorates(inst, SPEC_ID) && inst[1] < p.bound && inst[1] !in p.skip
  }

  function StepInst(p: Plan, s: State, inst: Inst): Result<State>
    requires WellSized(inst)
  {
    var op := Op(inst);
    if Strips(p, inst) then Ok(s.(changed := true))
    else if |inst| < 3 || inst[2] >= p.bound then Ok(Keep(s, inst))
    else if op == CONSTANT && |inst| >= 4 then Ok(Keep(s, inst).(scalars := s.scalars[inst[2] := inst[3]]))
    else if op == CONSTANT_COMPOSITE then
      Ok(Keep(s, inst).(composites := Remember(s.composites, inst[2], Values(s.scalars, {}, inst[3..]))))
    else if op == SPEC_CONSTANT && |inst| >= 4 && inst[2] !in p.skip then Ok(FoldConstant(p, s, inst))
    else if op == SPEC_CONSTANT_COMPOSITE && inst[2] !in p.skip then Ok(FoldComposite(p, s, inst))
    else if op == SPEC_CONSTANT_OP && |inst| >= 5 then FoldSpecOp(p, s, inst)
    else Ok(Keep(s, inst))
  }

  function FoldAll(p: Plan, insts: seq<Inst>): Result<State>
    requires forall i :: 0 <= i < |insts| ==> WellSized(insts[i])
  {
    if insts == [] then Ok(START)
    else
      var s :- FoldAll(p, insts[..|insts| - 1]);
      StepInst(p, s, insts[|insts| - 1])
  }

  function PlanOf(m: Module, entries: seq<Entry>): Plan
    requires |m.header| == HEADER
  {
    Plan(m.Bound(), SpecIds(m.insts, m.Bound()), entries, Skipped(m.insts, m.Bound(), entries))
  }

  function Materialized(m: Module, entries: seq<Entry>): Result<Module>
    requires |m.header| == HEADER && forall i :: 0 <= i < |m.insts| ==> WellSized(m.insts[i])
  {
    var s :- FoldAll(PlanOf(m, entries), m.insts);
    Ok(m.(insts := s.out))
  }

  // ---- facts about the pass ----

  lemma {:induction false} ErrorSticks(p: Plan, insts: seq<Inst>, n: nat)
    requires n <= |insts| && AllSized(insts) && FoldAll(p, insts[..n]).Err?
    ensures FoldAll(p, insts) == FoldAll(p, insts[..n])
    decreases |insts| - n
  {
    if n == |insts| {
      assert insts[..n] == insts;
    } else {
      assert insts[..n + 1][..n] == insts[..n];
      ErrorSticks(p, insts, n + 1);
    }
  }

  /** `y` is what `inst` may be turned into: itself, a plain one-word constant
      or a plain composite with the same id. */
  predicate Replacement(y: Inst, inst: Inst) {
    || y == inst
    || ((Op(inst) == SPEC_CONSTANT || Op(inst) == SPEC_CONSTANT_OP) && |inst| >= 4
        && Op(y) == CONSTANT && |y| == 4 && y[1] == inst[1] && y[2] == inst[2])
    || (Op(inst) == SPEC_CONSTANT_COMPOSITE && Op(y) == CONSTANT_COMPOSITE
        && |y| == |inst| >= 3 && y[1..] == inst[1..])
  }

  /** One step drops a SpecId decoration and emits nothing, or it emits one
      well-sized instruction no longer than its source; if it emits a different
      one it reports a change. */
  lemma StepShape(p: Plan, s: State, inst: Inst) returns (emitted: Option<Inst>)
    requires WellSized(inst) && StepInst(p, s, inst).Ok?
    ensures var t := StepInst(p, s, inst).value;
      match emitted
      case None => Strips(p, inst) && t.out == s.out && t.changed
      case Some(y) =>
        !Strips(p, inst) && t.out == s.out + [y] && WellSized(y) && |y| <= |inst|
        && (t.changed || y == inst) && (s.changed ==> t.changed) && Replacement(y, inst)
  {
    var t := StepInst(p, s, inst).value;
    emitted := if t.out == s.out then None else Some(t.out[|s.out|]);
  }

  /** Every instruction becomes at most one, never longer, well-sized one; when
      nothing is folded nothing is different. So the guard that refuses a
      longer module never fires. */
  lemma {:induction false} FoldSizes(p: Plan, insts: seq<Inst>)
    requires AllSized(insts) && FoldAll(p, insts).Ok?
    ensures AllSized(FoldAll(p, insts).value.out)
    ensures |Flatten(FoldAll(p, insts).value.out)| <= |Flatten(insts)|
    ensures !FoldAll(p, insts).value.changed ==> FoldAll(p, insts).value.out == insts
  {
    if insts != [] {
      var front, inst := insts[..|insts| - 1], insts[|insts| - 1];
      FoldSizes(p, front);
      assert insts == front + [inst];
      FlattenSnoc(front, inst);
      var s := FoldAll(p, front).value;
      var emitted := StepShape(p, s, inst);
      if emitted.Some? { FlattenSnoc(s.out, emitted.value); }
    }
  }

  // ---- the loops ----

  datatype Step = Step(words: seq<Word>, changed: bool, preserves: bool, localSize: seq<Word>, resolved: seq<Word>)

  method ScanDecorations(insts: seq<Inst>, bound: nat)
    returns (ids: map<nat, Word>, wg: set<nat>, localSize: seq<Word>, localSizeId: seq<Word>)
    ensures ids == SpecIds(insts, bound) && wg == SizeIds(insts, bound)
    ensures localSize == LastMode(insts, false) && localSizeId == LastMode(insts, true)
  {
    ids, wg, localSize, localSizeId := map[], {}, [0, 0, 0], [0, 0, 0];
    for n := 0 to |insts|
      invariant ids == SpecIds(insts[..n], bound) && wg == SizeIds(insts[..n], bound)
      invariant localSize == LastMode(insts[..n], false) && localSizeId == LastMode(insts[..n], true)
    {
      var inst := insts[n];
      assert insts[..n + 1][..n] == insts[..n];
      if Op(inst) == EXECUTION_MODE && |inst| >= 6 && inst[2] == MODE_LOCAL_SIZE {
        localSize := inst[3..6];
      } else if Op(inst) == EXECUTION_MODE_ID && |inst| >= 6 && inst[2] == MODE_LOCAL_SIZE_ID {
        localSizeId := inst[3..6];
      } else if Op(inst) == DECORATE && |inst| >= 4 && inst[1] < bound {
        if inst[2] == SPEC_ID {
          ids := ids[inst[1] := inst[3]];
        } else if inst[2] == BUILT_IN && inst[3] == WORKGROUP_SIZE {
          wg := wg + {inst[1] as nat};
        }
      }
    }
    assert insts[..|insts|] == insts;
  }

  method ResolveWorkgroupSize(insts: seq<Inst>, ids: map<nat, Word>, wg: set<nat>, bound: nat, entries: seq<Entry>, localSize: seq<Word>)
    returns (resolved: seq<Word>)
    requires |localSize| == 3
    ensures resolved == ResolveAll(ids, wg, bound, entries, insts, localSize)
  {
    resolved := localSize;
    for n := 0 to |insts|
      invariant resolved == ResolveAll(ids, wg, bound, entries, insts[..n], localSize)
    {
      var inst := insts[n];
      assert insts[..n + 1][..n] == insts[..n];
      if Op(inst) == SPEC_CONSTANT_COMPOSITE && |inst| >= 6 && inst[2] < bound && inst[2] in wg {
        ghost var before := resolved;
        for d := 0 to 3
          invariant |resolved| == 3
          invariant forall e :: 0 <= e < d ==> resolved[e] == ResolveMember(ids, bound, entries, inst[3 + e], before[e])
          invariant forall e :: d <= e < 3 ==> resolved[e] == before[e]
        {
          var member := inst[3 + d];
          if member < bound && member in ids {
            resolved := resolved[d := EntryWord(entries, ids[member], if resolved[d] == 0 then 1 else resolved[d])];
          }
        }
      }
    }
    assert insts[..|insts|] == insts;
  }

  method SeedSkip(insts: seq<Inst>, wg: set<nat>, bound: nat) returns (skip: set<nat>)
    ensures skip == Seeds(insts, wg, bound)
  {
    skip := {};
    for n := 0 to |insts|
      invariant skip == Seeds(insts[..n], wg, bound)
    {
      var inst := insts[n];
      assert insts[..n + 1][..n] == insts[..n];
      if Op(inst) == SPEC_CONSTANT_COMPOSITE && |inst| >= 3 && inst[2] < bound && inst[2] in wg {
        ghost var before := skip;
        for o := 3 to |inst|
          invariant skip == before + IdsBelow(inst[3..o], bound)
        {
          assert inst[3..o + 1] == inst[3..o] + [inst[o]];
          IdsBelowSnoc(inst[3..o], inst[o], bound);
          if inst[o] < bound { skip := skip + {inst[o] as nat}; }
        }
        assert inst[3..|inst|] == inst[3..];
      }
    }
    assert insts[..|insts|] == insts;
  }

  lemma IdsBelowSnoc(ids: seq<Word>, id: Word, bound: nat)
    ensures IdsBelow(ids + [id], bound) == IdsBelow(ids, bound) + (if id < bound then {id as nat} else {})
  {
    var all := ids + [id];
    forall x
      ensures x in IdsBelow(all, bound) <==> x in IdsBelow(ids, bound) + (if id < bound then {id as nat} else {})
    {
      if x in IdsBelow(ids, bound) {
        var i :| 0 <= i < |ids| && ids[i] < bound && ids[i] == x;
        assert all[i] == x;
      }
      if id < bound && x == id { assert all[|ids|] == x; }
    }
  }

  /** The fixpoint loop: passes over the module until one changes nothing. */
  method SpreadSkip(insts: seq<Inst>, bound: nat, seeds: set<nat>) returns (skip: set<nat>)
    requires forall id :: id in seeds ==> id < bound
    ensures skip == Closure(insts, bound, seeds)
  {
    skip := seeds;
    var changed := true;
    while changed
      invariant forall id :: id in skip ==> id < bound
      invariant Closure(insts, bound, skip) == Closure(insts, bound, seeds)
      invariant !changed ==> Spread(insts, bound, skip) == skip
      decreases bound - |skip|, changed
    {
      changed := false;
      ghost var before := skip;
      for n := 0 to |insts|
        invariant skip == Spread(insts[..n], bound, before)
        invariant !changed ==> skip == before
        invariant changed ==> skip != before
      {
        var inst := insts[n];
        assert insts[..n + 1][..n] == insts[..n];
        if Op(inst) == SPEC_CONSTANT_OP && |inst| >= 5 && inst[2] < bound && inst[2] !in skip {
          if UsesSkipped(skip, bound, inst[4..]) {
            skip := skip + {inst[2] as nat};
            changed := true;
          }
        }
      }
      assert insts[..|insts|] == insts;
      Finite.Pigeonhole(skip, bound);
      if changed { Finite.SmallerSet(before, skip); }
    }
  }

  /** What becomes of one instruction; nothing is emitted for a dropped one. */
  method RewriteOne(p: Plan, inst: Inst, scalars0: map<nat, Word>, composites0: map<nat, seq<Word>>, changed0: bool, ghost before: seq<Inst>)
    returns (r: Result<Inst>, scalars: map<nat, Word>, composites: map<nat, seq<Word>>, changed: bool)
    requires WellSized(inst)
    ensures match StepInst(p, State(before, scalars0, composites0, changed0), inst)
      case Err(e) => r == Err(e)
      case Ok(t) => r.Ok? && t == State(if r.value == [] then before else before + [r.value], scalars, composites, changed)
  {
    scalars, composites, changed := scalars0, composites0, changed0;
    var emit: Inst := inst;
    var op := Op(inst);
    if op == DECORATE && |inst| >= 4 && inst[2] == SPEC_ID && inst[1] < p.bound && inst[1] !in p.skip {
      changed := true;
      emit := [];
    } else if |inst| >= 3 && inst[2] < p.bound {
      var id := inst[2];
      if op == CONSTANT && |inst| >= 4 {
        scalars := scalars[id := inst[3]];
      } else if op == CONSTANT_COMPOSITE {
        composites := Remember(composites, id, Values(scalars, {}, inst[3..]));
      } else if op == SPEC_CONSTANT && |inst| >= 4 && id !in p.skip {
        var value := inst[3];
        if id in p.ids { value := EntryWord(p.entries, p.ids[id], value); }
        emit := [Head(4, CONSTANT), inst[1], id, value];
        scalars := scalars[id := value];
        changed := true;
      } else if op == SPEC_CONSTANT_COMPOSITE && id !in p.skip {
        emit := [Head(|inst|, CONSTANT_COMPOSITE)] + inst[1..];
        composites := Remember(composites, id, Values(scalars, p.skip, inst[3..]));
        changed := true;
      } else if op == SPEC_CONSTANT_OP && |inst| >= 5 && id !in p.skip && !UsesSkipped(p.skip, p.bound, inst[4..]) {
        var value: Option<Word> := None;
        if inst[3] == U_DIV && |inst| == 6 {
          if inst[4] in scalars && inst[5] in scalars && scalars[inst[5]] != 0 {
            value := Some(Quotient(scalars[inst[4]], scalars[inst[5]]));
          }
        } else if inst[3] == COMPOSITE_EXTRACT && |inst| == 6 {
          if inst[4] in composites && inst[5] < |composites[inst[4]]| {
            value := Some(composites[inst[4]][inst[5]]);
          }
        }
        if value.None? { return Err(UnsupportedSpecOp(inst[3], id)), scalars, composites, changed; }
        emit := [Head(4, CONSTANT), inst[1], id, value.value];
        scalars := scalars[id := value.value];
        changed := true;
      }
    }
    r := Ok(emit);
  }

  lemma FoldNext(p: Plan, insts: seq<Inst>, n: nat)
    requires n < |insts| && AllSized(insts) && FoldAll(p, insts[..n]).Ok?
    ensures FoldAll(p, insts[..n + 1]) == StepInst(p, FoldAll(p, insts[..n]).value, insts[n])
    ensures FoldAll(p, insts[..n + 1]).Err? ==> FoldAll(p, insts) == FoldAll(p, insts[..n + 1])
  {
    assert insts[..n + 1][..n] == insts[..n];
    if FoldAll(p, insts[..n + 1]).Err? { ErrorSticks(p, insts, n + 1); }
  }

  /** The pass itself: the instructions in order, the output grown word by word. */
  method RewriteConstants(words: seq<Word>, p: Plan, insts: seq<Inst>) returns (r: Result<seq<Word>>, changed: bool)
    requires HEADER <= |words| && forall i :: 0 <= i < |insts| ==> WellSized(insts[i])
    ensures match FoldAll(p, insts)
      case Err(e) => r == Err(e)
      case Ok(s) => r == Ok(words[..HEADER] + Flatten(s.out)) && changed == s.changed
  {
    var out := words[..HEADER];
    var scalars: map<nat, Word>, composites: map<nat, seq<Word>> := map[], map[];
    changed := false;
    ghost var s := START;
    assert out + Flatten(s.out) == out;
    for n := 0 to |insts|
      invariant FoldAll(p, insts[..n]) == Ok(s)
      invariant out == words[..HEADER] + Flatten(s.out)
      invariant scalars == s.scalars && composites == s.composites && changed == s.changed
    {
      var inst: Inst := insts[n];
      FoldNext(p, insts, n);
      ghost var next := StepInst(p, s, inst);
      var emit: Result<Inst>;
      emit, scalars, composites, changed := RewriteOne(p, inst, scalars, composites, changed, s.out);
      if emit.Err? { return Err(emit.error), changed; }
      FlattenBehind(words[..HEADER], s.out, emit.value);
      s := next.value;
      out := out + emit.value;
    }
    assert insts[..|insts|] == insts;
    r := Ok(out);
  }

  /** `r` is what the stage returns on the module `m`. */
  ghost predicate MaterializedAs(m: Module, entries: seq<Entry>, r: Result<Step>)
    requires m.Valid()
  {
    match Materialized(m, entries)
    case Err(e) => r == Err(e)
    case Ok(out) =>
      && r.Ok? && r.value.words == out.Words()
      && (r.value.changed <==> FoldAll(PlanOf(m, entries), m.insts).value.changed)
      && (r.value.preserves <==> Preserves(m.insts, m.Bound(), entries))
      && r.value.localSize == LastMode(m.insts, false)
      && r.value.resolved == ResolvedSize(m.insts, m.Bound(), entries)
  }

  method MaterializeSpecializationConstants(words: seq<Word>, entries: seq<Entry>) returns (r: Result<Step>)
    requires HEADER <= |words|
    ensures ModuleOf(words).Err? ==> r == Err(ModuleOf(words).error)
    ensures ModuleOf(words).Ok? ==> ModuleOf(words).value.Valid()
    ensures ModuleOf(words).Ok? ==> MaterializedAs(ModuleOf(words).value, entries, r)
  {
    var bound := words[3];
    var items :- IterInstructions(words);
    ModuleRoundTrip(words);
    ghost var m := ModuleOf(words).value;
    var insts := Instructions(items);
    var ids, wg, localSize, localSizeId := ScanDecorations(insts, bound);
    var resolved := ResolveWorkgroupSize(insts, ids, wg, bound, entries, localSize);
    var preserves := localSizeId != [0, 0, 0] || localSize != resolved;
    var skip: set<nat> := {};
    if preserves {
      skip := SeedSkip(insts, wg, bound);
    }
    skip := SpreadSkip(insts, bound, skip);
    var plan := Plan(bound, ids, entries, skip);
    assert plan == PlanOf(m, entries);
    var out, changed :- RewriteConstants(words, plan, insts);
    FoldSizes(plan, insts);
    if !changed || |out| > |words| {
      return Ok(Step(words, false, preserves, localSize, resolved));
    }
    r := Ok(Step(out, true, preserves, localSize, resolved));
  }

  // ---- what folding means ----

  /** A boolean specialization constant that loses its SpecId. */
  predicate LosesSpecId(p: Plan, inst: Inst) {
    (Op(inst) == SPEC_CONSTANT_TRUE || Op(inst) == SPEC_CONSTANT_FALSE) && |inst| >= 3 && inst[2] !in p.skip && inst[2] in p.ids
  }

  function BoolDefault(inst: Inst): Word {
    if Op(inst) == SPEC_CONSTANT_TRUE then 1 else 0
  }

  /** The dispatch leaves the boolean at its default. */
  predicate BoolKept(p: Plan, inst: Inst) {
    LosesSpecId(p, inst) ==> ((EntryWord(p.entries, p.ids[inst[2]], BoolDefault(inst)) != 0) <==> BoolDefault(inst) != 0)
  }

  ghost predicate BoolsKept(p: Plan, insts: seq<Inst>) {
    forall i :: 0 <= i < |insts| ==> BoolKept(p, insts[i])
  }

  /** Specialization data as the source module and as the folded one see it. */
  ghost predicate SpecFits(p: Plan, before: Specialization, after: Specialization) {
    && before == Specialization(p.ids, p.entries) && after.entries == p.entries
    && forall id :: id < p.bound ==>
         (id in after.ids <==> id in p.ids && id in p.skip) && (id in after.ids ==> after.ids[id] == p.ids[id])
  }

  /** What the pass remembers is true. */
  ghost predicate Known(env: Env, s: State) {
    && (forall id :: id in s.scalars ==> id in env && env[id] == Scalar(s.scalars[id]))
    && (forall id :: id in s.composites ==> id in env && KnownComposite(env[id], s.composites[id]))
  }

  ghost predicate KnownComposite(v: Val, values: seq<Word>) {
    v.Composite? && |values| <= |v.parts| && forall i :: 0 <= i < |values| ==> v.parts[i] == Scalar(values[i])
  }

  lemma KnownSet(env: Env, s: State, id: nat, v: Val)
    requires Known(env, s) && id !in env
    ensures Known(env[id := v], s)
  {}

  lemma RememberKnown(env: Env, s: State, blocked: set<nat>, id: nat, operands: seq<Word>)
    requires Known(env, s) && id !in env
    ensures Known(env[id := Composite(Gets(env, operands))],
                  s.(composites := Remember(s.composites, id, Values(s.scalars, blocked, operands))))
  {
    var values := Values(s.scalars, blocked, operands);
    forall i | 0 <= i < |FirstFour(values)|
      ensures Gets(env, operands)[i] == Scalar(FirstFour(values)[i])
    {
      assert operands[i] in s.scalars;
    }
  }

  lemma FoldOpTrue(w: World, env: Env, s: State, inst: Inst)
    requires Known(env, s) && |inst| >= 5 && FoldOp(s, inst).Some?
    ensures SpecOpValue(w, env, inst) == Scalar(FoldOp(s, inst).value)
  {
    if inst[3] == U_DIV {
      assert env[inst[4]] == Scalar(s.scalars[inst[4]]) && env[inst[5]] == Scalar(s.scalars[inst[5]]);
    } else {
      assert KnownComposite(env[inst[4]], s.composites[inst[4]]);
    }
  }

  /** An instruction and what it becomes declare the same value. */
  ghost predicate SameDeclaration(w: World, before: Specialization, after: Specialization, env: Env, s: State, inst: Inst, t: State) {
    && (t.out == s.out ==> Declare(w, before, env, inst) == env)
    && (t.out != s.out ==> |t.out| == |s.out| + 1 && Declare(w, after, env, t.out[|s.out|]) == Declare(w, before, env, inst))
    && Known(Declare(w, before, env, inst), t)
  }

  /** `inst` may be read in `env`: it declares a new id, in one word if a number. */
  ghost predicate Readable(p: Plan, env: Env, inst: Inst) {
    && WellSized(inst)
    && (DeclaredId(inst).Some? ==> DeclaredId(inst).value < p.bound && DeclaredId(inst).value !in env)
    && ((Op(inst) == CONSTANT || Op(inst) == SPEC_CONSTANT) ==> |inst| == 4)
    && BoolKept(p, inst)
  }

  lemma KeptMeaning(w: World, p: Plan, before: Specialization, after: Specialization, env: Env, s: State, inst: Inst)
    requires Readable(p, env, inst) && Known(env, s) && SpecFits(p, before, after)
    requires Op(inst) == SPEC_CONSTANT ==> inst[2] in p.skip
    ensures Declare(w, after, env, inst) == Declare(w, before, env, inst)
    ensures Known(Declare(w, before, env, inst), Keep(s, inst))
  {
    var v := Declared(w, before, env, inst);
    if v.Some? {
      KnownSet(env, s, DeclaredId(inst).value, v.value);
    }
  }

  lemma ConstantMeaning(w: World, p: Plan, before: Specialization, after: Specialization, env: Env, s: State, inst: Inst)
    requires Readable(p, env, inst) && Known(env, s) && SpecFits(p, before, after)
    requires Op(inst) == SPEC_CONSTANT
    ensures SameDeclaration(w, before, after, env, s, inst, FoldConstant(p, s, inst))
  {}

  lemma CompositeMeaning(w: World, p: Plan, before: Specialization, after: Specialization, env: Env, s: State, inst: Inst)
    requires Readable(p, env, inst) && Known(env, s) && SpecFits(p, before, after)
    requires Op(inst) == SPEC_CONSTANT_COMPOSITE && |inst| >= 3
    ensures SameDeclaration(w, before, after, env, s, inst, FoldComposite(p, s, inst))
  {
    var y := FoldComposite(p, s, inst).out[|s.out|];
    assert y[3..] == inst[3..];
    RememberKnown(env, s, p.skip, inst[2], inst[3..]);
  }

  lemma SpecOpMeaning(w: World, p: Plan, before: Specialization, after: Specialization, env: Env, s: State, inst: Inst)
    requires Readable(p, env, inst) && Known(env, s) && SpecFits(p, before, after)
    requires Op(inst) == SPEC_CONSTANT_OP && |inst| >= 5 && FoldSpecOp(p, s, inst).Ok?
    ensures SameDeclaration(w, before, after, env, s, inst, FoldSpecOp(p, s, inst).value)
  {
    if inst[2] in p.skip || UsesSkipped(p.skip, p.bound, inst[4..]) {
      KeptMeaning(w, p, before, after, env, s, inst);
    } else {
      FoldOpTrue(w, env, s, inst);
    }
  }

  lemma StepMeaning(w: World, p: Plan, before: Specialization, after: Specialization, env: Env, s: State, inst: Inst)
    requires Readable(p, env, inst) && Known(env, s) && SpecFits(p, before, after) && StepInst(p, s, inst).Ok?
    ensures SameDeclaration(w, before, after, env, s, inst, StepInst(p, s, inst).value)
  {
    var op := Op(inst);
    if Strips(p, inst) {
    } else if |inst| >= 3 && op == SPEC_CONSTANT_OP && |inst| >= 5 && inst[2] < p.bound {
      SpecOpMeaning(w, p, before, after, env, s, inst);
    } else if |inst| >= 3 && op == SPEC_CONSTANT && inst[2] !in p.skip {
      ConstantMeaning(w, p, before, after, env, s, inst);
    } else if |inst| >= 3 && op == SPEC_CONSTANT_COMPOSITE && inst[2] !in p.skip {
      CompositeMeaning(w, p, before, after, env, s, inst);
    } else {
      KeptMeaning(w, p, before, after, env, s, inst);
      if |inst| >= 3 && op == CONSTANT_COMPOSITE {
        RememberKnown(env, s, {}, inst[2], inst[3..]);
      }
    }
  }

  lemma {:induction false} FoldMeaning(w: World, p: Plan, before: Specialization, after: Specialization, insts: seq<Inst>)
    requires AllSized(insts) && FoldAll(p, insts).Ok? && SpecFits(p, before, after)
    requires GoodIds(insts, p.bound) && OneWord(insts) && BoolsKept(p, insts)
    ensures Consts(w, after, FoldAll(p, insts).value.out) == Consts(w, before, insts)
    ensures Known(Consts(w, before, insts), FoldAll(p, insts).value)
  {
    if insts != [] {
      var front, inst := insts[..|insts| - 1], insts[|insts| - 1];
      GoodFront(insts, p.bound);
      FoldMeaning(w, p, before, after, front);
      ConstsKeys(w, before, front);
      var s := FoldAll(p, front).value;
      var env := Consts(w, before, front);
      StepMeaning(w, p, before, after, env, s, inst);
      var emitted := StepShape(p, s, inst);
      if emitted.Some? {
        assert (s.out + [emitted.value])[..|s.out|] == s.out;
      }
    }
  }

  /** What the stripped decorations leave behind. */
  function Unstripped(p: Plan, ids: map<nat, Word>): map<nat, Word> {
    map id | id in ids && !(id < p.bound && id !in p.skip) :: ids[id]
  }

  ghost predicate SameFolds(p: Plan, ids: set<nat>, out: seq<Inst>, insts: seq<Inst>) {
    && Moduli(out) == Moduli(insts) && Quads(out) == Quads(insts)
    && WorkgroupIds(out) == WorkgroupIds(insts)
    && WorkgroupConstant(ids, out) == WorkgroupConstant(ids, insts)
    && LastMode(out, true) == LastMode(insts, true) && LastMode(out, false) == LastMode(insts, false)
    && Ids(out) == Ids(insts) && Code(out) == Code(insts)
    && Decorations(out, DESCRIPTOR_SET) == Decorations(insts, DESCRIPTOR_SET)
    && Decorations(out, BINDING) == Decorations(insts, BINDING)
    && Decorations(out, SPEC_ID) == Unstripped(p, Decorations(insts, SPEC_ID))
  }

  lemma SameFoldsDrop(p: Plan, ids: set<nat>, out: seq<Inst>, front: seq<Inst>, inst: Inst)
    requires SameFolds(p, ids, out, front) && Strips(p, inst)
    ensures SameFolds(p, ids, out, front + [inst])
  {
    assert (front + [inst])[..|front|] == front;
  }

  lemma SameFoldsEmit(p: Plan, ids: set<nat>, out: seq<Inst>, front: seq<Inst>, y: Inst, inst: Inst)
    requires SameFolds(p, ids, out, front) && Replacement(y, inst) && !Strips(p, inst)
    ensures SameFolds(p, ids, out + [y], front + [inst])
  {
    assert (front + [inst])[..|front|] == front && (out + [y])[..|out|] == out;
    if y != inst {
      assert DeclaredId(y) == DeclaredId(inst);
    }
  }

  lemma {:induction false} FoldFolds(p: Plan, ids: set<nat>, insts: seq<Inst>)
    requires AllSized(insts) && FoldAll(p, insts).Ok?
    ensures SameFolds(p, ids, FoldAll(p, insts).value.out, insts)
  {
    if insts != [] {
      var front, inst := insts[..|insts| - 1], insts[|insts| - 1];
      FoldFolds(p, ids, front);
      var s := FoldAll(p, front).value;
      assert insts == front + [inst];
      var emitted := StepShape(p, s, inst);
      if emitted.Some? {
        SameFoldsEmit(p, ids, s.out, front, emitted.value, inst);
      } else {
        SameFoldsDrop(p, ids, s.out, front, inst);
      }
    }
  }

  /** A module whose constants the stage can read: unique ids below the bound,
      one-word numbers, and decorations only on such ids. */
  ghost predicate Readied(m: Module) {
    && m.Valid() && GoodIds(m.insts, m.Bound()) && OneWord(m.insts)
    && forall id :: id in Decorations(m.insts, SPEC_ID) ==> id < m.Bound()
  }

  lemma SpecFitsOut(m: Module, entries: seq<Entry>)
    requires Readied(m) && Materialized(m, entries).Ok?
    ensures SpecFits(PlanOf(m, entries), SpecializationOf(m.insts, entries),
                     SpecializationOf(Materialized(m, entries).value.insts, entries))
  {
    FoldFolds(PlanOf(m, entries), {}, m.insts);
    assert SpecIds(m.insts, m.Bound()) == Decorations(m.insts, SPEC_ID);
  }

  /** Folding preserves meaning, in both modes: under the same entries, the
      folded module gives every constant, type, buffer and the workgroup size
      what the source gives them, and has the same code. */
  lemma MaterializePreservesProgram(w: World, m: Module, entries: seq<Entry>, table: Table)
    requires Readied(m) && Materialized(m, entries).Ok?
    requires BoolsKept(PlanOf(m, entries), m.insts)
    ensures ProgramOf(w, Materialized(m, entries).value.insts, entries, table) == ProgramOf(w, m.insts, entries, table)
    ensures Ids(Materialized(m, entries).value.insts) == Ids(m.insts)
  {
    var p, out := PlanOf(m, entries), Materialized(m, entries).value.insts;
    SpecFitsOut(m, entries);
    FoldFolds(p, WorkgroupIds(m.insts), m.insts);
    FoldMeaning(w, p, SpecializationOf(m.insts, entries), SpecializationOf(out, entries), m.insts);
  }

  // ---- exactly when boolean specialization constants allow it ----

  lemma {:induction false} BoolStays(p: Plan, insts: seq<Inst>, k: nat) returns (j: nat)
    requires AllSized(insts) && FoldAll(p, insts).Ok? && k < |insts| && LosesSpecId(p, insts[k])
    ensures j < |FoldAll(p, insts).value.out| && FoldAll(p, insts).value.out[j] == insts[k]
    decreases |insts|
  {
    var front, inst := insts[..|insts| - 1], insts[|insts| - 1];
    var s := FoldAll(p, front).value;
    var emitted := StepShape(p, s, inst);
    if k < |front| {
      j := BoolStays(p, front, k);
    } else {
      j := |s.out|;
    }
  }

  /** Meaning is preserved exactly when every boolean specialization constant
      that loses its SpecId is left at its default by the dispatch: the pass
      strips their SpecId but folds only numeric constants. */
  lemma MaterializePreservesConstantsIff(w: World, m: Module, entries: seq<Entry>)
    requires Readied(m) && Materialized(m, entries).Ok?
    ensures Consts(w, SpecializationOf(Materialized(m, entries).value.insts, entries), Materialized(m, entries).value.insts)
         == Consts(w, SpecializationOf(m.insts, entries), m.insts)
       <==> BoolsKept(PlanOf(m, entries), m.insts)
  {
    var p, out := PlanOf(m, entries), Materialized(m, entries).value.insts;
    var before, after := SpecializationOf(m.insts, entries), SpecializationOf(out, entries);
    SpecFitsOut(m, entries);
    if BoolsKept(p, m.insts) {
      FoldMeaning(w, p, before, after, m.insts);
    } else {
      BooleanDiffers(w, m, entries);
    }
  }

  lemma BooleanDiffers(w: World, m: Module, entries: seq<Entry>)
    requires Readied(m) && Materialized(m, entries).Ok? && !BoolsKept(PlanOf(m, entries), m.insts)
    ensures Consts(w, SpecializationOf(Materialized(m, entries).value.insts, entries), Materialized(m, entries).value.insts)
         != Consts(w, SpecializationOf(m.insts, entries), m.insts)
  {
    var p, out := PlanOf(m, entries), Materialized(m, entries).value.insts;
    var before, after := SpecializationOf(m.insts, entries), SpecializationOf(out, entries);
    SpecFitsOut(m, entries);
    hide Consts, Declared, DeclaredId, LosesSpecId, SpecFits, SameFolds, Decorations;
    var k :| 0 <= k < |m.insts| && !BoolKept(p, m.insts[k]);
    var j := BoolStays(p, m.insts, k);
    FoldedGood(m, entries);
    IdBelow(m.insts, m.Bound(), k, m.insts[k]);
    BooleanDeclared(w, p, before, after, m.insts[k], Consts(w, before, m.insts[..k]), Consts(w, after, out[..j]));
    ConstAt(w, before, m.insts, m.Bound(), k);
    ConstAt(w, after, out, m.Bound(), j);
  }

  lemma FoldedGood(m: Module, entries: seq<Entry>)
    requires Readied(m) && Materialized(m, entries).Ok?
    ensures GoodIds(Materialized(m, entries).value.insts, m.Bound())
  {
    FoldFolds(PlanOf(m, entries), {}, m.insts);
  }

  lemma IdBelow(insts: seq<Inst>, bound: nat, k: nat, inst: Inst)
    requires GoodIds(insts, bound) && k < |insts| && insts[k] == inst
    ensures DeclaredId(inst).Some? ==> DeclaredId(inst).value < bound
  {
    if DeclaredId(inst).Some? { IdIn(insts, k); }
  }

  /** The two specializations give the boolean different values. */
  lemma BooleanDeclared(w: World, p: Plan, before: Specialization, after: Specialization, inst: Inst, e1: Env, e2: Env)
    requires SpecFits(p, before, after) && !BoolKept(p, inst) && (DeclaredId(inst).Some? ==> DeclaredId(inst).value < p.bound)
    ensures LosesSpecId(p, inst) && Declared(w, before, e1, inst).Some? && Declared(w, after, e2, inst).Some?
    ensures Declared(w, before, e1, inst) != Declared(w, after, e2, inst)
  {}

  // ---- the closed mode ----

  predicate IsSpec(inst: Inst) {
    Op(inst) in {SPEC_CONSTANT, SPEC_CONSTANT_COMPOSITE, SPEC_CONSTANT_OP}
  }

  /** Specialization constants have the operands the grammar asks for. */
  ghost predicate SpecShapes(insts: seq<Inst>) {
    forall i :: 0 <= i < |insts| && IsSpec(insts[i]) ==>
      |insts[i]| >= 3 && (Op(insts[i]) == SPEC_CONSTANT ==> |insts[i]| == 4) && (Op(insts[i]) == SPEC_CONSTANT_OP ==> |insts[i]| >= 5)
  }

  lemma {:induction false} SpreadEmpty(insts: seq<Inst>, bound: nat)
    ensures Spread(insts, bound, {}) == {}
  {
    if insts != [] {
      SpreadEmpty(insts[..|insts| - 1], bound);
    }
  }

  lemma {:induction false} DecoratedIn(insts: seq<Inst>, k: nat, decoration: nat)
    requires k < |insts| && Decorates(insts[k], decoration)
    ensures insts[k][1] in Decorations(insts, decoration)
    decreases |insts|
  {
    if k < |insts| - 1 { DecoratedIn(insts[..|insts| - 1], k, decoration); }
  }

  /** Nothing specializable is left. */
  ghost predicate Closed(insts: seq<Inst>) {
    && (forall i :: 0 <= i < |insts| ==> !IsSpec(insts[i]))
    && Decorations(insts, SPEC_ID) == map[]
  }

  lemma SkippedFixed(m: Module, entries: seq<Entry>)
    requires |m.header| == HEADER
    ensures var p := PlanOf(m, entries); Spread(m.insts, p.bound, p.skip) == p.skip
    ensures !Preserves(m.insts, m.Bound(), entries) ==> PlanOf(m, entries).skip == {}
  {
    SpreadEmpty(m.insts, m.Bound());
  }

  lemma {:induction false} ConstsWithoutIds(w: World, a: seq<Entry>, b: seq<Entry>, insts: seq<Inst>)
    ensures Consts(w, Specialization(map[], a), insts) == Consts(w, Specialization(map[], b), insts)
  {
    if insts != [] { ConstsWithoutIds(w, a, b, insts[..|insts| - 1]); }
  }

  /** A closed module means the same whatever specialization data it is given. */
  lemma ClosedIgnoresEntries(w: World, insts: seq<Inst>, a: seq<Entry>, b: seq<Entry>, table: Table)
    requires Closed(insts)
    ensures ProgramOf(w, insts, a, table) == ProgramOf(w, insts, b, table)
  {
    ConstsWithoutIds(w, a, b, insts);
  }

  lemma {:induction false} Inert(p: Plan, insts: seq<Inst>)
    requires AllSized(insts)
    requires forall i :: 0 <= i < |insts| ==> !IsSpec(insts[i]) && !Strips(p, insts[i])
    ensures FoldAll(p, insts).Ok? && FoldAll(p, insts).value.out == insts
  {
    if insts != [] {
      Inert(p, insts[..|insts| - 1]);
    }
  }

  /** Materializing a closed module again, with any entries, changes nothing. */
  lemma MaterializeIdempotent(m: Module, entries: seq<Entry>)
    requires m.Valid() && Closed(m.insts)
    ensures Materialized(m, entries) == Ok(m)
  {
    forall i | 0 <= i < |m.insts|
      ensures !Strips(PlanOf(m, entries), m.insts[i])
    {
      if Decorates(m.insts[i], SPEC_ID) { DecoratedIn(m.insts, i, SPEC_ID); }
    }
    Inert(PlanOf(m, entries), m.insts);
  }

  /** One SpecId-decorated boolean, switched on by the dispatch: the folded
      module has it off. */
  lemma BooleanLosesItsValue(w: World)
    ensures var m := Module([MAGIC, 0, 0, 2, 0], [[Head(4, DECORATE), 1, SPEC_ID, 7], [Head(3, SPEC_CONSTANT_FALSE), 9, 1]]);
      var entries := [Entry(7, Some(1))];
      && m.Valid() && Materialized(m, entries).Ok?
      && Get(Consts(w, SpecializationOf(m.insts, entries), m.insts), 1) == Scalar(1)
      && Get(Consts(w, SpecializationOf(Materialized(m, entries).value.insts, entries), Materialized(m, entries).value.insts), 1) == Scalar(0)
  {
    var d: Inst, c: Inst := [Head(4, DECORATE), 1, SPEC_ID, 7], [Head(3, SPEC_CONSTANT_FALSE), 9, 1];
    var m := Module([MAGIC, 0, 0, 2, 0], [d, c]);
    var entries := [Entry(7, Some(1))];
    assert [d, c][..1] == [d] && [d][..0] == [] && [c][..0] == [];
    assert Decorations([d, c], SPEC_ID) == map[1 := 7] by {
      assert Decorations([d], SPEC_ID) == map[1 := 7];
    }
    assert WorkgroupIds([d, c]) == {} by { assert WorkgroupIds([d]) == {}; }
    assert LastMode([d, c], true) == [0, 0, 0] by { assert LastMode([d], true) == [0, 0, 0]; }
    assert LastMode([d, c], false) == [0, 0, 0] by { assert LastMode([d], false) == [0, 0, 0]; }
    assert SpecIds([d, c], 2) == map[1 := 7] && SizeIds([d, c], 2) == {};
    assert !Preserves(m.insts, 2, entries) by {
      assert ResolveAll(map[1 := 7], {}, 2, entries, [d], [0, 0, 0]) == [0, 0, 0];
      assert ResolveAll(map[1 := 7], {}, 2, entries, [d, c], [0, 0, 0]) == [0, 0, 0];
    }
    SpreadEmpty(m.insts, 2);
    var p := PlanOf(m, entries);
    assert p.skip == {};
    assert FoldAll(p, [d]) == Ok(State([], map[], map[], true));
    var none: seq<Inst> := [];
    assert none + [c] == [c];
    assert StepInst(p, State([], map[], map[], true), c) == Ok(State([c], map[], map[], true));
    assert FoldAll(p, [d, c]) == Ok(State([c], map[], map[], true));
    assert Consts(w, SpecializationOf(m.insts, entries), [d]) == map[];
    assert Decorations([c], SPEC_ID) == map[];
  }
}
