/** Stage 5 of the effective-module compiler: a control barrier before the final
    lane-zero comparison of the Q6 reduction. */
module Barriers {
  import opened Words
  import opened Ops
  import opened Machine
  import opened Translation
  import opened Meaning

  const EXIT_LABEL := 1806
  const LANE0_COMPARE := 1807
  const LOCAL_X := 915

  /** Ids the scan finds; 0 means not found. */
  datatype Found = Found(boolT: Word, uintT: Word, zero: Word, two: Word, scope264: Word)

  const NOTHING := Found(0, 0, 0, 0, 0)

  function See(f: Found, inst: Inst): Found {
    if Op(inst) == TYPE_BOOL && |inst| >= 2 then f.(boolT := inst[1])
    else if IsInt(inst, 32) then f.(uintT := inst[1])
    else if Op(inst) == CONSTANT && |inst| >= 4 && f.uintT != 0 && inst[1] == f.uintT then
      if inst[3] == 0 && f.zero == 0 then f.(zero := inst[2])
      else if inst[3] == 2 && f.two == 0 then f.(two := inst[2])
      else if inst[3] == 264 && f.scope264 == 0 then f.(scope264 := inst[2])
      else f
    else f
  }

  function Scan(insts: seq<Inst>): Found {
    if insts == [] then NOTHING else See(Scan(insts[..|insts| - 1]), insts[|insts| - 1])
  }

  predicate Complete(f: Found) {
    f.boolT != 0 && f.zero != 0 && f.two != 0 && f.scope264 != 0
  }

  predicate IsCompare(f: Found, inst: Inst) {
    Op(inst) == I_EQUAL && |inst| == 5 && inst[1] == f.boolT && inst[2] == LANE0_COMPARE && inst[3] == LOCAL_X && inst[4] == f.zero
  }

  /** The reduction exit label directly followed by the lane-zero comparison. */
  predicate Matches(f: Found, insts: seq<Inst>, k: nat) {
    k + 1 < |insts| && IsLabel(insts[k], EXIT_LABEL) && IsCompare(f, insts[k + 1])
  }

  function FirstMatch(f: Found, insts: seq<Inst>, from: nat): (r: Option<nat>)
    ensures r.Some? ==> from <= r.value < |insts| && Matches(f, insts, r.value)
    ensures forall k :: from <= k < (if r.Some? then r.value else |insts|) ==> !Matches(f, insts, k)
    decreases |insts| - from
  {
    if from >= |insts| then None
    else if Matches(f, insts, from) then Some(from)
    else FirstMatch(f, insts, from + 1)
  }

  function BarrierInst(f: Found): Inst {
    [Head(4, CONTROL_BARRIER), f.two, f.two, f.scope264]
  }

  /** The four words before the comparison are already the barrier. */
  predicate Present(m: Module, k: nat)
    requires k < |m.insts|
  {
    var at := |m.header + Flatten(m.insts[..k + 1])|;
    4 <= at <= |m.Words()| && m.Words()[at - 4..at] == BarrierInst(Scan(m.insts))
  }

  /** Where the barrier goes: after the instruction `value`. */
  function Place(m: Module): (r: Option<nat>)
    ensures r.Some? ==> r.value < |m.insts| && Matches(Scan(m.insts), m.insts, r.value)
  {
    var f := Scan(m.insts);
    if !Complete(f) then None
    else match FirstMatch(f, m.insts, 0)
      case None => None
      case Some(k) => if Present(m, k) then None else Some(k)
  }

  function InsertAfter(insts: seq<Inst>, k: nat, inst: Inst): seq<Inst>
    requires k < |insts|
  {
    insts[..k + 1] + [inst] + insts[k + 1..]
  }

  function Guarded(m: Module): Module {
    match Place(m)
    case None => m
    case Some(k) => m.(insts := InsertAfter(m.insts, k, BarrierInst(Scan(m.insts))))
  }

  // ---- the loops ----

  datatype Step = Step(words: seq<Word>, changed: bool)

  method FindIds(insts: seq<Inst>) returns (f: Found)
    ensures f == Scan(insts)
  {
    f := NOTHING;
    for n := 0 to |insts|
      invariant f == Scan(insts[..n])
    {
      var inst := insts[n];
      assert insts[..n + 1][..n] == insts[..n];
      if Op(inst) == TYPE_BOOL && |inst| >= 2 {
        f := f.(boolT := inst[1]);
      } else if IsInt(inst, 32) {
        f := f.(uintT := inst[1]);
      } else if Op(inst) == CONSTANT && |inst| >= 4 && f.uintT != 0 && inst[1] == f.uintT {
        if inst[3] == 0 && f.zero == 0 { f := f.(zero := inst[2]); }
        else if inst[3] == 2 && f.two == 0 { f := f.(two := inst[2]); }
        else if inst[3] == 264 && f.scope264 == 0 { f := f.(scope264 := inst[2]); }
      }
    }
    assert insts[..|insts|] == insts;
  }

  lemma SpliceAt(m: Module, k: nat, inst: Inst)
    requires m.Valid() && k < |m.insts|
    ensures var at := HEADER + |Flatten(m.insts[..k + 1])|;
      at <= |m.Words()| && m.Words()[..at] + inst + m.Words()[at..] == m.(insts := InsertAfter(m.insts, k, inst)).Words()
  {
    var a, b := m.insts[..k + 1], m.insts[k + 1..];
    assert m.insts == a + b;
    FlattenAppend(a, b);
    FlattenSnoc(a, inst);
    FlattenAppend(a + [inst], b);
    var front := m.header + Flatten(a);
    Regroup(m.header, Flatten(a), inst, Flatten(b));
    Regroup(m.header, Flatten(a), [], Flatten(b));
    assert m.Words() == front + Flatten(b);
    assert m.(insts := InsertAfter(m.insts, k, inst)).Words() == m.header + ((Flatten(a) + inst) + Flatten(b));
    assert (Flatten(a) + inst) + Flatten(b) == Flatten(a) + (inst + Flatten(b));
  }

  /** The word index of the comparison after the first reduction exit label. */
  method FindPlace(items: seq<Located>, f: Found) returns (at: Option<nat>)
    ensures match FirstMatch(f, Instructions(items), 0)
      case None => at.None?
      case Some(k) => at == Some(items[k + 1].index)
  {
    var insts := Instructions(items);
    at := None;
    for pos := 0 to |items|
      invariant FirstMatch(f, insts, pos) == FirstMatch(f, insts, 0)
    {
      var inst := items[pos].inst;
      if Op(inst) != LABEL || |inst| != 2 || inst[1] != EXIT_LABEL { continue; }
      if pos + 1 >= |items| { continue; }
      var next := items[pos + 1].inst;
      if Op(next) == I_EQUAL && |next| == 5 && next[1] == f.boolT && next[2] == LANE0_COMPARE && next[3] == LOCAL_X && next[4] == f.zero {
        return Some(items[pos + 1].index);
      }
    }
  }

  lemma GuardedWords(m: Module, k: nat)
    requires m.Valid() && Complete(Scan(m.insts)) && FirstMatch(Scan(m.insts), m.insts, 0) == Some(k)
    ensures var at, b := HEADER + |Flatten(m.insts[..k + 1])|, BarrierInst(Scan(m.insts));
      && 4 <= at <= |m.Words()|
      && (m.Words()[at - 4..at] == b ==> Place(m).None? && Guarded(m) == m)
      && (m.Words()[at - 4..at] != b ==> Place(m) == Some(k) && Guarded(m).Words() == m.Words()[..at] + b + m.Words()[at..])
  {
    SpliceAt(m, k, BarrierInst(Scan(m.insts)));
  }

  method InsertFinalStorePreBarrier(words: seq<Word>) returns (r: Result<Step>)
    requires HEADER <= |words|
    ensures ModuleOf(words).Err? ==> r == Err(ModuleOf(words).error)
    ensures ModuleOf(words).Ok? ==> ModuleOf(words).value.Valid() && r.Ok?
    ensures ModuleOf(words).Ok? ==> r.value.words == Guarded(ModuleOf(words).value).Words()
    ensures ModuleOf(words).Ok? ==> (r.value.changed <==> Place(ModuleOf(words).value).Some?)
  {
    hide Scan, Flatten, Parse, Complete, FirstMatch, InsertAfter, BarrierInst;
    var items :- IterInstructions(words);
    ModuleRoundTrip(words);
    ghost var m := ModuleOf(words).value;
    var insts := Instructions(items);
    var f := FindIds(insts);
    if !Complete(f) { return Ok(Step(words, false)); }
    var place := FindPlace(items, f);
    if place.None? { return Ok(Step(words, false)); }
    var at := place.value;
    GuardedWords(m, FirstMatch(f, insts, 0).value);
    var barrier: seq<Word> := BarrierInst(f);
    if at >= 4 && words[at - 4..at] == barrier { return Ok(Step(words, false)); }
    r := Ok(Step(words[..at] + barrier + words[at..], true));
  }

  // ---- what the barrier means ----

  /** Everything copied, and the barrier between. */
  function Units(insts: seq<Inst>, k: nat, inst: Inst): seq<Unit>
    requires k < |insts|
  {
    Copies(insts[..k + 1]) + [Unit([], [inst])] + Copies(insts[k + 1..])
  }

  lemma UnitsFlat(insts: seq<Inst>, k: nat, inst: Inst)
    requires k < |insts|
    ensures Flatten(Srcs(Units(insts, k, inst))) == insts
    ensures Flatten(Dsts(Units(insts, k, inst))) == InsertAfter(insts, k, inst)
  {
    CopiesFlat(insts[..k + 1]);
    CopiesFlat(insts[k + 1..]);
    UnitsParts(Copies(insts[..k + 1]), Unit([], [inst]), Copies(insts[k + 1..]));
    assert insts == insts[..k + 1] + [] + insts[k + 1..];
  }

  ghost function InsertRewrite(st: Statics, bound: nat, insts: seq<Inst>, k: nat, inst: Inst): Rewrite
    requires k < |insts|
  {
    Rewrite(ExecUnits(Units(insts, k, inst)), Scope(bound, {}), false, st, st)
  }

  lemma UnitAt(insts: seq<Inst>, k: nat, inst: Inst, v: nat)
    requires k < |insts| && v < |Units(insts, k, inst)|
    ensures v == k + 1 ==> Units(insts, k, inst)[v] == Unit([], [inst])
    ensures v != k + 1 ==> var j := if v <= k then v else v - 1;
      j < |insts| && Units(insts, k, inst)[v] == Unit([insts[j]], [insts[j]])
  {}

  lemma CopyFits(w: World, bound: nat, insts: seq<Inst>, j: nat, t: Rewrite)
    requires j < |insts| && !Declarative(Op(insts[j])) && ReadsBelow(w, Code(insts), bound) && t.scope == Scope(bound, {})
    ensures Copied(t, w, Unit([insts[j]], [insts[j]]))
  {
    CodeIndex(insts, j);
  }

  lemma UnitFits(w: World, st: Statics, bound: nat, insts: seq<Inst>, k: nat, inst: Inst, u: nat)
    requires k < |insts| && ReadsBelow(w, Code(insts), bound) && Op(inst) == CONTROL_BARRIER
    requires u < |InsertRewrite(st, bound, insts, k, inst).units|
    ensures var t := InsertRewrite(st, bound, insts, k, inst); Copied(t, w, t.units[u]) || Fence(t.units[u])
  {
    var t := InsertRewrite(st, bound, insts, k, inst);
    var v := ExecUnitIn(Units(insts, k, inst), u);
    UnitAt(insts, k, inst, v);
    CodeOne(inst);
    if v != k + 1 {
      var j := if v <= k then v else v - 1;
      CodeOne(insts[j]);
      CopyFits(w, bound, insts, j, t);
    }
  }

  lemma InsertDeclares(insts: seq<Inst>, k: nat, inst: Inst)
    requires k < |insts| && Op(inst) == CONTROL_BARRIER
    ensures Declarations(InsertAfter(insts, k, inst)) == Declarations(insts)
    ensures Ids(InsertAfter(insts, k, inst)) == Ids(insts)
  {
    var front, back := insts[..k + 1], insts[k + 1..];
    assert insts == front + back;
    CodeOne(inst);
    DeclarationsAppend(front, back);
    DeclarationsAppend(front + [inst], back);
    DeclarationsAppend(front, [inst]);
    IdsAppend(front, back);
    IdsAppend(front + [inst], back);
    IdsAppend(front, [inst]);
  }

  lemma InsertPrograms(w: World, insts: seq<Inst>, entries: seq<Entry>, table: Table, bound: nat, k: nat, inst: Inst)
    requires k < |insts| && Op(inst) == CONTROL_BARRIER
    ensures var t := InsertRewrite(StaticsOf(w, insts, entries, table), bound, insts, k, inst);
      t.Source() == ProgramOf(w, insts, entries, table)
      && t.Target() == ProgramOf(w, InsertAfter(insts, k, inst), entries, table)
  {
    UnitsFlat(insts, k, inst);
    ExecUnitsCode(Units(insts, k, inst));
    InsertDeclares(insts, k, inst);
    SameStatics(w, InsertAfter(insts, k, inst), insts, entries, table);
  }

  ghost function RewriteOf(w: World, m: Module, entries: seq<Entry>, table: Table): Rewrite
    requires m.Valid() && Place(m).Some?
  {
    InsertRewrite(StaticsOf(w, m.insts, entries, table), m.Bound(), m.insts, Place(m).value, BarrierInst(Scan(m.insts)))
  }

  lemma GuardStatics(w: World, m: Module, entries: seq<Entry>, table: Table)
    requires m.Valid() && Place(m).Some?
    ensures var t := RewriteOf(w, m, entries, table);
      t.Source() == ProgramOf(w, m.insts, entries, table) && t.Target() == ProgramOf(w, Guarded(m).insts, entries, table)
  {
    InsertPrograms(w, m.insts, entries, table, m.Bound(), Place(m).value, BarrierInst(Scan(m.insts)));
  }

  /** Guarding keeps the declared ids and adds four words. */
  lemma GuardShape(m: Module)
    requires m.Valid()
    ensures Guarded(m).Valid() && Ids(Guarded(m).insts) == Ids(m.insts)
    ensures |Guarded(m).Words()| == |m.Words()| + if Place(m).Some? then 4 else 0
  {
    if Place(m).Some? {
      InsertDeclares(m.insts, Place(m).value, BarrierInst(Scan(m.insts)));
      SpliceAt(m, Place(m).value, BarrierInst(Scan(m.insts)));
    }
  }

  /** The barrier only removes behaviours: every run of the guarded module, by
      any number of invocations, with the steps over the inserted barrier erased
      from its schedule, is a run of the source with the same memory, the same
      statuses and the same probe writes. */
  lemma GuardErases(w: World, m: Module, entries: seq<Entry>, table: Table, lanes: nat, entry: nat, count: nat, mem: Mem, schedule': seq<Choice>)
    returns (schedule: seq<Choice>)
    requires m.Valid() && ReadsBelow(w, Code(m.insts), m.Bound())
    requires var p := ProgramOf(w, m.insts, entries, table); Safe(p, w, lanes, Start(p, entry, count, mem))
    requires var p' := ProgramOf(w, Guarded(m).insts, entries, table); Run(p', w, lanes, Start(p', entry, count, mem), schedule').Some?
    ensures Erases(schedule', schedule)
    ensures var p, p' := ProgramOf(w, m.insts, entries, table), ProgramOf(w, Guarded(m).insts, entries, table);
      && Run(p, w, lanes, Start(p, entry, count, mem), schedule).Some?
      && SameOutcome(p', Run(p', w, lanes, Start(p', entry, count, mem), schedule').value,
                     p, Run(p, w, lanes, Start(p, entry, count, mem), schedule).value)
      && Run(p', w, lanes, Start(p', entry, count, mem), schedule').value.log ==
         Run(p, w, lanes, Start(p, entry, count, mem), schedule).value.log
  {
    if Place(m).None? {
      schedule := schedule';
      ErasesSelf(schedule);
    } else {
      var t := RewriteOf(w, m, entries, table);
      GuardStatics(w, m, entries, table);
      GuardCorrect(w, m, entries, table);
      var tracks := StartTracks(t, w, entry, count, mem);
      var tracks2;
      schedule, tracks2 := Simulate(t, w, lanes, Start(t.Target(), entry, count, mem), Start(t.Source(), entry, count, mem), tracks, schedule');
      RelatedOutcome(t, w, tracks2, Run(t.Target(), w, lanes, Start(t.Target(), entry, count, mem), schedule').value,
                     Run(t.Source(), w, lanes, Start(t.Source(), entry, count, mem), schedule).value);
    }
  }

  lemma GuardCorrect(w: World, m: Module, entries: seq<Entry>, table: Table)
    requires m.Valid() && Place(m).Some? && ReadsBelow(w, Code(m.insts), m.Bound())
    ensures Correct(RewriteOf(w, m, entries, table), w) && OnlyFences(RewriteOf(w, m, entries, table), w)
  {
    var t := RewriteOf(w, m, entries, table);
    forall u | 0 <= u < |t.units|
      ensures Copied(t, w, t.units[u]) || Fence(t.units[u])
    {
      UnitFits(w, t.before, m.Bound(), m.insts, Place(m).value, BarrierInst(Scan(m.insts)), u);
    }
  }

  lemma {:induction false} ErasesSelf(s: seq<Choice>)
    ensures Erases(s, s)
    decreases |s|
  {
    if s != [] { ErasesSelf(s[1..]); }
  }

  /** The same, as refinement. */
  lemma GuardRefines(w: World, m: Module, entries: seq<Entry>, table: Table, lanes: nat, entry: nat, count: nat, mem: Mem)
    requires m.Valid() && ReadsBelow(w, Code(m.insts), m.Bound())
    requires var p := ProgramOf(w, m.insts, entries, table); Safe(p, w, lanes, Start(p, entry, count, mem))
    ensures var p, p' := ProgramOf(w, m.insts, entries, table), ProgramOf(w, Guarded(m).insts, entries, table);
      Refines(p', Start(p', entry, count, mem), p, Start(p, entry, count, mem), w, lanes)
  {
    var p, p' := ProgramOf(w, m.insts, entries, table), ProgramOf(w, Guarded(m).insts, entries, table);
    var c, c' := Start(p, entry, count, mem), Start(p', entry, count, mem);
    forall s' | Run(p', w, lanes, c', s').Some?
      ensures Reaches(p, w, lanes, c, p', Run(p', w, lanes, c', s').value)
    {
      var s := GuardErases(w, m, entries, table, lanes, entry, count, mem, s');
    }
  }

  // ---- a second application ----

  lemma {:induction false} ScanSkipsBarrier(a: seq<Inst>, b: seq<Inst>, inst: Inst)
    requires Op(inst) == CONTROL_BARRIER
    ensures Scan(a + [inst] + b) == Scan(a + b)
    decreases |b|
  {
    var whole, without := a + [inst] + b, a + b;
    if b == [] {
      assert whole[..|whole| - 1] == a && without == a;
    } else {
      ScanSkipsBarrier(a, b[..|b| - 1], inst);
      assert whole[..|whole| - 1] == a + [inst] + b[..|b| - 1];
      assert without[..|without| - 1] == a + b[..|b| - 1];
    }
  }

  /** With one reduction exit label, guarding twice is guarding once. */
  lemma GuardIdempotent(m: Module)
    requires m.Valid()
    requires forall j, k :: 0 <= j < k < |m.insts| && IsLabel(m.insts[j], EXIT_LABEL) ==> !IsLabel(m.insts[k], EXIT_LABEL)
    ensures Guarded(Guarded(m)) == Guarded(m)
  {
    if Place(m).Some? {
      var k, f, out := Place(m).value, Scan(m.insts), Guarded(m);
      ScanSkipsBarrier(m.insts[..k + 1], m.insts[k + 1..], BarrierInst(f));
      assert m.insts[..k + 1] + m.insts[k + 1..] == m.insts;
      forall j | 0 <= j < |out.insts|
        ensures !Matches(f, out.insts, j)
      {
        if j < k { assert out.insts[j] == m.insts[j]; }
        if j > k + 1 { assert out.insts[j] == m.insts[j - 1]; }
      }
    }
  }
}
