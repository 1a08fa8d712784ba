/** What an inserted block does: from any values it runs to its end, sets only
    fresh ids and writes known words to the debug buffer, nothing else. */
module ProbeBlocks {
  import opened Words
  import opened Ops
  import opened Machine
  import opened Translation
  import opened Instrumenter

  /** A built-in input vector that every invocation can read. */
  ghost predicate InputVector(st: Statics, w: World, v: nat) {
    && v in st.consts && st.consts[v] == Ptr(v, [])
    && v != w.debug && !(v in st.buffers && st.buffers[v] in w.rom)
    && forall inv: nat, c: nat :: c < 3 ==> Component(w, inv, v, c).Some?
  }

  function Component(w: World, inv: nat, v: nat, c: nat): Option<nat> {
    match w.input(inv, v, [Scalar(c)])
    case Some(Scalar(x)) => if x < WORD then Some(x) else None
    case _ => None
  }

  function ComponentOf(w: World, inv: nat, v: nat, c: nat): nat {
    match Component(w, inv, v, c) case Some(x) => x case None => 0
  }

  /** The pool's constants are declared, below `lo`, with their values. */
  ghost predicate PoolIn(st: Statics, p: Pool, lo: nat) {
    forall r :: p.Has(r) ==> p.Id(r) < lo && p.Id(r) in st.consts && st.consts[p.Id(r)] == Scalar(W(Number(r)))
  }

  /** What a block needs of the declarations around it. */
  ghost predicate Supplies(st: Statics, w: World, d: Names, p: Pool, lo: nat) {
    && d.uintT in st.moduli && st.moduli[d.uintT] == WORD && d.uintT !in st.quads
    && d.variable in st.consts && st.consts[d.variable] == Ptr(d.variable, []) && w.debug == d.variable
    && MEMBER_ZERO in st.consts && st.consts[MEMBER_ZERO] == Scalar(0)
    && PoolIn(st, p, lo)
    && (forall id :: id in st.consts ==> id < lo)
    && (d.groupVar.Some? ==> InputVector(st, w, d.groupVar.value))
    && (d.localVar.Some? ==> InputVector(st, w, d.localVar.value))
  }

  /** And of the dispatch: the probe buffer is for probes only. */
  ghost predicate Supports(st: Statics, w: World, d: Names, p: Pool, lo: nat) {
    Supplies(st, w, d, p, lo) && Private(st, w)
  }

  /** Only ids from `lo` up to `hi` differ. */
  ghost predicate Extends(env: Env, env': Env, lo: nat, hi: nat) {
    forall id :: !(lo <= id < hi) ==> (id in env' <==> id in env) && (id in env ==> env'[id] == env[id])
  }

  lemma ExtendsLookup(st: Statics, env: Env, env': Env, lo: nat, hi: nat, id: nat)
    requires Extends(env, env', lo, hi) && !(lo <= id < hi)
    ensures Lookup(st, env', id) == Lookup(st, env, id)
  {}

  lemma RunsTwo(st: Statics, w: World, inv: nat, a: Inst, b: Inst, env: Env, id: nat, v: Val, env2: Env, writes: seq<Write>)
    requires Act(st, w, inv, a, env) == Set(id, v)
    requires RunQuiet(st, w, inv, [b], env[id := v]) == Done(env2, writes)
    ensures RunQuiet(st, w, inv, [a, b], env) == Done(env2, writes)
  {
    assert [a, b][1..] == [b];
  }

  lemma RunsOne(st: Statics, w: World, inv: nat, a: Inst, env: Env)
    ensures var act := Act(st, w, inv, a, env);
      && (act.Set? ==> RunQuiet(st, w, inv, [a], env) == Done(env[act.id := act.value], []))
      && (act.Emit? ==> RunQuiet(st, w, inv, [a], env) == Done(env, [act.write]))
  {
    var one := [a];
    assert one[1..] == [];
    var act := Act(st, w, inv, a, env);
    if act.Set? { assert RunQuiet(st, w, inv, one[1..], env[act.id := act.value]) == Done(env[act.id := act.value], []); }
    if act.Emit? { assert RunQuiet(st, w, inv, one[1..], env) == Done(env, []); }
  }

  // ---- the pieces ----

  lemma LoadRuns(st: Statics, w: World, inv: nat, d: Names, p: Pool, lo: nat, v: Word, c: nat, n: nat, env: Env) returns (env': Env)
    requires Supplies(st, w, d, p, lo) && lo <= n && n + 2 <= WORD
    requires d.ptrInput.Some? && InputVector(st, w, v) && c < 3 && p.Has(Value(c))
    ensures RunQuiet(st, w, inv, LoadComponent(d, p, v, c, n), env) == Done(env', [])
    ensures Extends(env, env', n, n + 2)
    ensures Lookup(st, env', n + 1) == Scalar(ComponentOf(w, inv, v, c))
  {
    var block := LoadComponent(d, p, v, c, n);
    var chain, load := block[0], block[1];
    assert chain[4..] == [W(p.Id(Value(c)))];
    assert Lookups(st, env, chain[4..]) == [Scalar(c)];
    ActChain(st, w, inv, chain, env, v, [Scalar(c)]);
    var env1 := env[n := Ptr(v, [Scalar(c)])];
    var x := Scalar(ComponentOf(w, inv, v, c));
    assert Component(w, inv, v, c).Some?;
    assert Lookup(st, env1, n) == Ptr(v, [Scalar(c)]);
    assert Act(st, w, inv, load, env1) == Set(n + 1, x);
    RunsOne(st, w, inv, load, env1);
    env' := env1[n + 1 := x];
    RunsTwo(st, w, inv, chain, load, env, n, Ptr(v, [Scalar(c)]), env', []);
    assert block == [chain, load];
  }

  lemma Joins(st: Statics, w: World, inv: nat, a: seq<Inst>, b: seq<Inst>, env: Env, env1: Env, env2: Env, ws1: seq<Write>, ws2: seq<Write>, lo: nat, mid: nat, hi: nat)
    requires RunQuiet(st, w, inv, a, env) == Done(env1, ws1) && Extends(env, env1, lo, mid)
    requires RunQuiet(st, w, inv, b, env1) == Done(env2, ws2) && Extends(env1, env2, mid, hi)
    requires lo <= mid <= hi
    ensures RunQuiet(st, w, inv, a + b, env) == Done(env2, ws1 + ws2) && Extends(env, env2, lo, hi)
  {
    RunQuietAppend(st, w, inv, a, b, env);
  }

  /** `block` loads component `c` of `v` into `n + 1`. */
  ghost predicate Loads(st: Statics, w: World, inv: nat, block: seq<Inst>, v: nat, c: nat, n: nat) {
    forall env: Env :: LoadsFrom(st, w, inv, block, v, c, n, env)
  }

  ghost predicate LoadsFrom(st: Statics, w: World, inv: nat, block: seq<Inst>, v: nat, c: nat, n: nat, env: Env) {
    var r := RunQuiet(st, w, inv, block, env);
    r.Done? && r.writes == [] && Extends(env, r.env, n, n + 2) && Lookup(st, r.env, n + 1) == Scalar(ComponentOf(w, inv, v, c))
  }

  lemma LoadsAlways(st: Statics, w: World, inv: nat, d: Names, p: Pool, lo: nat, v: Word, c: nat, n: nat)
    requires Supplies(st, w, d, p, lo) && lo <= n && n + 2 <= WORD
    requires d.ptrInput.Some? && InputVector(st, w, v) && c < 3 && p.Has(Value(c))
    ensures Loads(st, w, inv, LoadComponent(d, p, v, c, n), v, c, n)
  {
    forall env: Env
      ensures LoadsFrom(st, w, inv, LoadComponent(d, p, v, c, n), v, c, n, env)
    {
      var env' := LoadRuns(st, w, inv, d, p, lo, v, c, n, env);
    }
  }

  lemma LoadVectorRuns(st: Statics, w: World, inv: nat, d: Names, p: Pool, lo: nat, v: Word, n: nat, env: Env) returns (env': Env)
    requires Supplies(st, w, d, p, lo) && lo <= n && n + 6 <= WORD
    requires d.ptrInput.Some? && InputVector(st, w, v) && p.Has(Value(0)) && p.Has(Value(1)) && p.Has(Value(2))
    ensures RunQuiet(st, w, inv, LoadVector(d, p, v, n), env) == Done(env', [])
    ensures Extends(env, env', n, n + 6)
    ensures Lookup(st, env', n + 1) == Scalar(ComponentOf(w, inv, v, 0))
    ensures Lookup(st, env', n + 3) == Scalar(ComponentOf(w, inv, v, 1))
    ensures Lookup(st, env', n + 5) == Scalar(ComponentOf(w, inv, v, 2))
  {
    LoadsAlways(st, w, inv, d, p, lo, v, 0, n);
    LoadsAlways(st, w, inv, d, p, lo, v, 1, n + 2);
    LoadsAlways(st, w, inv, d, p, lo, v, 2, n + 4);
    env' := LoadThree(st, w, inv, LoadComponent(d, p, v, 0, n), LoadComponent(d, p, v, 1, n + 2), LoadComponent(d, p, v, 2, n + 4), v, n, env);
  }

  lemma LoadThree(st: Statics, w: World, inv: nat, a: seq<Inst>, b: seq<Inst>, c: seq<Inst>, v: nat, n: nat, env: Env) returns (env': Env)
    requires Loads(st, w, inv, a, v, 0, n) && Loads(st, w, inv, b, v, 1, n + 2) && Loads(st, w, inv, c, v, 2, n + 4)
    ensures RunQuiet(st, w, inv, a + b + c, env) == Done(env', [])
    ensures Extends(env, env', n, n + 6)
    ensures Lookup(st, env', n + 1) == Scalar(ComponentOf(w, inv, v, 0))
    ensures Lookup(st, env', n + 3) == Scalar(ComponentOf(w, inv, v, 1))
    ensures Lookup(st, env', n + 5) == Scalar(ComponentOf(w, inv, v, 2))
  {
    assert LoadsFrom(st, w, inv, a, v, 0, n, env);
    var env1 := RunQuiet(st, w, inv, a, env).env;
    assert LoadsFrom(st, w, inv, b, v, 1, n + 2, env1);
    var env2 := RunQuiet(st, w, inv, b, env1).env;
    assert LoadsFrom(st, w, inv, c, v, 2, n + 4, env2);
    env' := RunQuiet(st, w, inv, c, env2).env;
    LoadsJoin(st, w, inv, a, b, c, env, env1, env2, env', n);
  }

  lemma LoadsJoin(st: Statics, w: World, inv: nat, a: seq<Inst>, b: seq<Inst>, c: seq<Inst>, env: Env, env1: Env, env2: Env, env3: Env, n: nat)
    requires RunQuiet(st, w, inv, a, env) == Done(env1, []) && Extends(env, env1, n, n + 2)
    requires RunQuiet(st, w, inv, b, env1) == Done(env2, []) && Extends(env1, env2, n + 2, n + 4)
    requires RunQuiet(st, w, inv, c, env2) == Done(env3, []) && Extends(env2, env3, n + 4, n + 6)
    ensures RunQuiet(st, w, inv, a + b + c, env) == Done(env3, []) && Extends(env, env3, n, n + 6)
    ensures Lookup(st, env3, n + 1) == Lookup(st, env1, n + 1) && Lookup(st, env3, n + 3) == Lookup(st, env2, n + 3)
  {
    var none: seq<Write> := [];
    assert none + none == none;
    Joins(st, w, inv, a, b, env, env1, env2, none, none, n, n + 2, n + 4);
    Joins(st, w, inv, a + b, c, env, env2, env3, none, none, n, n + 4, n + 6);
    ExtendsLookup(st, env1, env2, n + 2, n + 4, n + 1);
    ExtendsLookup(st, env2, env3, n + 4, n + 6, n + 1);
    ExtendsLookup(st, env2, env3, n + 4, n + 6, n + 3);
  }

  lemma DebugWordRuns(st: Statics, w: World, inv: nat, d: Names, p: Pool, lo: nat, slot: nat, value: nat, n: nat, env: Env) returns (env': Env)
    requires Supports(st, w, d, p, lo) && lo <= n < WORD && slot < n && value < n
    requires Lookup(st, env, slot).Scalar?
    ensures RunQuiet(st, w, inv, DebugWord(d, slot, value, n), env) == Done(env', [Write(Lookup(st, env, slot).w, Lookup(st, env, value))])
    ensures Extends(env, env', n, n + 1)
  {
    var block := DebugWord(d, slot, value, n);
    var chain, store := block[0], block[1];
    var path := [Lookup(st, env, MEMBER_ZERO), Lookup(st, env, slot)];
    assert chain[4..] == [MEMBER_ZERO, W(slot)];
    assert Lookups(st, env, chain[4..]) == path;
    ActChain(st, w, inv, chain, env, d.variable, path);
    env' := env[n := Ptr(d.variable, path)];
    assert Lookup(st, env', n) == Ptr(d.variable, path);
    assert Act(st, w, inv, store, env') == Emit(Write(Lookup(st, env, slot).w, Lookup(st, env, value)));
    RunsOne(st, w, inv, store, env');
    RunsTwo(st, w, inv, chain, store, env, n, Ptr(d.variable, path), env', [Write(Lookup(st, env, slot).w, Lookup(st, env, value))]);
    assert block == [chain, store];
  }

  /** Slots are known and every id is older than the block's. */
  ghost predicate Writable(st: Statics, env: Env, fields: seq<Field>, n: nat) {
    forall i :: 0 <= i < |fields| ==> fields[i].slot < n && fields[i].value < n && Lookup(st, env, fields[i].slot).Scalar?
  }

  ghost function FieldWrite(st: Statics, env: Env, f: Field): Write {
    Write(if Lookup(st, env, f.slot).Scalar? then Lookup(st, env, f.slot).w else 0, Lookup(st, env, f.value))
  }

  ghost function FieldWrites(st: Statics, env: Env, fields: seq<Field>): (r: seq<Write>)
    ensures |r| == |fields|
  {
    seq(|fields|, i requires 0 <= i < |fields| => FieldWrite(st, env, fields[i]))
  }

  lemma FieldWritesSnoc(st: Statics, env: Env, fields: seq<Field>)
    requires fields != []
    ensures FieldWrites(st, env, fields) == FieldWrites(st, env, fields[..|fields| - 1]) + [FieldWrite(st, env, fields[|fields| - 1])]
  {}

  lemma NothingRuns(st: Statics, w: World, inv: nat, env: Env, n: nat)
    ensures RunQuiet(st, w, inv, [], env) == Done(env, []) && Extends(env, env, n, n)
  {}

  lemma {:induction false} DebugWordsRun(st: Statics, w: World, inv: nat, d: Names, p: Pool, lo: nat, fields: seq<Field>, n: nat, env: Env) returns (env': Env)
    requires Supports(st, w, d, p, lo) && lo <= n && n + |fields| <= WORD && Writable(st, env, fields, n)
    ensures RunQuiet(st, w, inv, DebugWords(d, fields, n), env) == Done(env', FieldWrites(st, env, fields))
    ensures Extends(env, env', n, n + |fields|)
  {
    hide DebugWord, Supports, RunQuiet, Extends, Lookup;
    if fields == [] {
      env' := env;
      NothingRuns(st, w, inv, env, n);
      assert FieldWrites(st, env, fields) == [];
    } else {
      var front, f, m := fields[..|fields| - 1], fields[|fields| - 1], n + |fields| - 1;
      var env1 := DebugWordsRun(st, w, inv, d, p, lo, front, n, env);
      ExtendsLookup(st, env, env1, n, m, f.slot);
      ExtendsLookup(st, env, env1, n, m, f.value);
      env' := DebugWordRuns(st, w, inv, d, p, lo, f.slot, f.value, m, env1);
      Joins(st, w, inv, DebugWords(d, front, n), DebugWord(d, f.slot, f.value, m), env, env1, env', FieldWrites(st, env, front),
            [FieldWrite(st, env, f)], n, m, m + 1);
      FieldWritesSnoc(st, env, fields);
    }
  }

  /** A write at an offset from the lane's first slot. */
  ghost function LaneWrite(st: Statics, env: Env, base: nat, f: Field): Write {
    Write((base + FieldWrite(st, env, f).slot) % WORD, Lookup(st, env, f.value))
  }

  ghost function LaneWrites(st: Statics, env: Env, base: nat, fields: seq<Field>): (r: seq<Write>)
    ensures |r| == |fields|
  {
    seq(|fields|, i requires 0 <= i < |fields| => LaneWrite(st, env, base, fields[i]))
  }

  lemma LaneWordRuns(st: Statics, w: World, inv: nat, d: Names, p: Pool, lo: nat, baseId: nat, base: nat, f: Field, n: nat, env: Env) returns (env': Env)
    requires Supports(st, w, d, p, lo) && lo <= n && n + 2 <= WORD
    requires baseId < n && f.slot < n && f.value < n && Lookup(st, env, baseId) == Scalar(base) && Lookup(st, env, f.slot).Scalar?
    ensures RunQuiet(st, w, inv, LaneWord(d, baseId, f, n), env) == Done(env', [LaneWrite(st, env, base, f)])
    ensures Extends(env, env', n, n + 2)
  {
    hide RunQuiet, Supports, Extends, DebugWord, Lookup;
    var add: Inst := [Head(5, I_ADD), d.uintT, W(n), W(baseId), W(f.slot)];
    var env1 := LaneAdds(st, w, inv, d, p, lo, baseId, base, f, n, env);
    ExtendsLookup(st, env, env1, n, n + 1, f.value);
    env' := DebugWordRuns(st, w, inv, d, p, lo, n, f.value, n + 1, env1);
    Joins(st, w, inv, [add], DebugWord(d, n, f.value, n + 1), env, env1, env', [], [LaneWrite(st, env, base, f)], n, n + 1, n + 2);
    assert [] + [LaneWrite(st, env, base, f)] == [LaneWrite(st, env, base, f)];
  }

  /** The slot of a lane's word. */
  lemma LaneAdds(st: Statics, w: World, inv: nat, d: Names, p: Pool, lo: nat, baseId: nat, base: nat, f: Field, n: nat, env: Env) returns (env1: Env)
    requires Supports(st, w, d, p, lo) && lo <= n && n + 2 <= WORD
    requires baseId < n && f.slot < n && Lookup(st, env, baseId) == Scalar(base) && Lookup(st, env, f.slot).Scalar?
    ensures RunQuiet(st, w, inv, [[Head(5, I_ADD), d.uintT, W(n), W(baseId), W(f.slot)]], env) == Done(env1, [])
    ensures Extends(env, env1, n, n + 1) && Lookup(st, env1, n) == Scalar((base + Lookup(st, env, f.slot).w) % WORD)
  {
    hide RunQuiet;
    var add: Inst := [Head(5, I_ADD), d.uintT, W(n), W(baseId), W(f.slot)];
    var o := Lookup(st, env, f.slot).w;
    ActArith(st, w, inv, add, env, base, o);
    RunsOne(st, w, inv, add, env);
    env1 := env[n := Scalar((base + o) % WORD)];
  }

  lemma LaneWritesSnoc(st: Statics, env: Env, base: nat, fields: seq<Field>)
    requires fields != []
    ensures LaneWrites(st, env, base, fields) == LaneWrites(st, env, base, fields[..|fields| - 1]) + [LaneWrite(st, env, base, fields[|fields| - 1])]
  {}

  lemma {:induction false} LaneWordsRun(st: Statics, w: World, inv: nat, d: Names, p: Pool, lo: nat, baseId: nat, base: nat, fields: seq<Field>, n: nat, env: Env)
    returns (env': Env)
    requires Supports(st, w, d, p, lo) && lo <= n && n + 2 * |fields| <= WORD
    requires baseId < n && Lookup(st, env, baseId) == Scalar(base) && Writable(st, env, fields, n)
    ensures RunQuiet(st, w, inv, LaneWords(d, baseId, fields, n), env) == Done(env', LaneWrites(st, env, base, fields))
    ensures Extends(env, env', n, n + 2 * |fields|)
  {
    hide LaneWord, Supports;
    if fields == [] {
      env' := env;
    } else {
      var front, f, m := fields[..|fields| - 1], fields[|fields| - 1], n + 2 * (|fields| - 1);
      var env1 := LaneWordsRun(st, w, inv, d, p, lo, baseId, base, front, n, env);
      ExtendsLookup(st, env, env1, n, m, f.slot);
      ExtendsLookup(st, env, env1, n, m, f.value);
      ExtendsLookup(st, env, env1, n, m, baseId);
      env' := LaneWordRuns(st, w, inv, d, p, lo, baseId, base, f, m, env1);
      Joins(st, w, inv, LaneWords(d, baseId, front, n), LaneWord(d, baseId, f, m), env, env1, env', LaneWrites(st, env, base, front),
            [LaneWrite(st, env, base, f)], n, m, m + 2);
      LaneWritesSnoc(st, env, base, fields);
    }
  }

  // ---- the whole block ----

  /** Where an invocation is: both id vectors, component by component. */
  datatype Spot = Spot(group: Option<nat>, local: Option<nat>)

  function SpotOf(d: Names): Spot { Spot(d.groupVar, d.localVar) }

  function Part(w: World, inv: nat, v: Option<nat>, c: nat): nat {
    match v case Some(x) => ComponentOf(w, inv, x, c) case None => 0
  }

  function At(w: World, inv: nat, s: Spot, i: nat): nat {
    if i < 3 then Part(w, inv, s.group, i) else Part(w, inv, s.local, i - 3)
  }

  /** The value in slot `i` of the fixed record. */
  function RecordValue(w: World, inv: nat, s: Spot, t: Target, value: Val, place: Val, i: nat): Val {
    if i == 0 then Scalar(t.candidate)
    else if i == 1 then Scalar(RoleCode(t.role))
    else if i == 2 || t.role != FinalStore then value
    else if i == 3 then place
    else if i < 10 then Scalar(At(w, inv, s, i - 4))
    else Scalar(RECORD_SCHEMA)
  }

  /** The fixed record of a target, in slots from `SlotBase(index)` on. */
  function RecordWrites(w: World, inv: nat, s: Spot, t: Target, index: nat, value: Val, place: Val): (r: seq<Write>)
    ensures |r| == RecordLength(t)
  {
    seq(RecordLength(t), i requires 0 <= i < RecordLength(t) => Write(W(SlotBase(index) + i), RecordValue(w, inv, s, t, value, place, i)))
  }

  function HeaderWrites(): (r: seq<Write>)
    ensures |r| == 5
  {
    seq(5, i requires 0 <= i < 5 => Write(TRACE_HEADER + i, Scalar(HeaderValue(i))))
  }

  /** First slot of the invocation's lane. */
  function LaneBase(w: World, inv: nat, s: Spot, region: nat): nat {
    ((At(w, inv, s, 3) * TRACE_WORDS) % WORD + region) % WORD
  }

  /** The value at offset `i` of the lane's slots. */
  function LaneValue(w: World, inv: nat, s: Spot, t: Target, value: Val, col: Val, row: Val, i: nat): Val {
    if i == 0 then Scalar(At(w, inv, s, 3))
    else if i == 1 then value
    else if i < 5 then Scalar(At(w, inv, s, i - 2))
    else if i == 5 then Scalar(t.candidate)
    else if i == 6 then col
    else row
  }

  function TraceWrites(w: World, inv: nat, s: Spot, t: Target, value: Val, col: Val, row: Val): seq<Write> {
    match TraceBase(t)
    case None => []
    case Some(region) => HeaderWrites() + LanesWritten(w, inv, s, t, region, value, col, row)
  }

  function LanesWritten(w: World, inv: nat, s: Spot, t: Target, region: nat, value: Val, col: Val, row: Val): (r: seq<Write>)
    ensures |r| == 8
  {
    seq(8, i requires 0 <= i < 8 => Write((LaneBase(w, inv, s, region) + i) % WORD, LaneValue(w, inv, s, t, value, col, row, i)))
  }

  /** The ids the block reads are older than the block. */
  ghost predicate Older(d: Names, t: Target, n: nat) {
    t.stored < n && forall i :: 0 <= i < |Operands(d, t)| ==> Operands(d, t)[i] < n
  }

  /** The constants that every block uses. */
  ghost predicate Common(p: Pool) {
    && (forall v :: 0 <= v <= 8 ==> p.Has(Value(v)))
    && p.Has(Value(TRACE_LANES)) && p.Has(Value(PRE_REDUCTION)) && p.Has(Value(REDUCTION))
    && (forall s :: TRACE_HEADER <= s < TRACE_HEADER + 5 ==> p.Has(Slot(s)))
  }

  /** The values found before the record is written. */
  ghost predicate Ready(st: Statics, w: World, inv: nat, d: Names, t: Target, n: nat, env: Env, env3: Env) {
    var n1 := RecordStart(d, t, n);
    && Extends(env, env3, n, FieldsStart(d, t, n))
    && Lookup(st, env3, ValueId(d, t, n)) == Lookup(st, env, t.stored)
    && (t.role == FinalStore ==> forall i :: 0 <= i < 6 ==> Lookup(st, env3, n1 + (2 * i + 1)) == Scalar(At(w, inv, SpotOf(d), i)))
  }

  lemma ConvertRuns(st: Statics, w: World, inv: nat, d: Names, p: Pool, lo: nat, t: Target, n: nat, env: Env) returns (env1: Env)
    requires Supplies(st, w, d, p, lo) && lo <= n < WORD && t.stored < n
    ensures RunQuiet(st, w, inv, Convert(d, t, n), env) == Done(env1, [])
    ensures Extends(env, env1, n, RecordStart(d, t, n))
    ensures Lookup(st, env1, ValueId(d, t, n)) == Lookup(st, env, t.stored)
  {
    if IsFloat(d, t) {
      var cast: Inst := [Head(4, BITCAST), d.uintT, W(n), t.stored];
      RunsOne(st, w, inv, cast, env);
      env1 := env[n := Lookup(st, env, t.stored)];
    } else {
      env1 := env;
    }
  }

  lemma PositionRuns(st: Statics, w: World, inv: nat, d: Names, p: Pool, lo: nat, t: Target, n: nat, env1: Env) returns (env3: Env)
    requires Supplies(st, w, d, p, lo) && lo <= n && FieldsStart(d, t, n) <= WORD && Refusal(d, t).None? && Common(p)
    ensures RunQuiet(st, w, inv, Position(d, p, t, n), env1) == Done(env3, [])
    ensures Extends(env1, env3, RecordStart(d, t, n), FieldsStart(d, t, n))
    ensures t.role == FinalStore ==>
      forall i :: 0 <= i < 6 ==> Lookup(st, env3, RecordStart(d, t, n) + (2 * i + 1)) == Scalar(At(w, inv, SpotOf(d), i))
  {
    if t.role == FinalStore {
      env3 := TwoVectors(st, w, inv, d, p, lo, d.groupVar.value, d.localVar.value, RecordStart(d, t, n), env1);
    } else {
      env3 := env1;
    }
  }

  lemma TwoVectors(st: Statics, w: World, inv: nat, d: Names, p: Pool, lo: nat, g: Word, l: Word, n1: nat, env1: Env) returns (env3: Env)
    requires Supplies(st, w, d, p, lo) && lo <= n1 && n1 + 12 <= WORD && Common(p)
    requires d.ptrInput.Some? && InputVector(st, w, g) && InputVector(st, w, l)
    ensures RunQuiet(st, w, inv, LoadVector(d, p, g, n1) + LoadVector(d, p, l, n1 + 6), env1) == Done(env3, [])
    ensures Extends(env1, env3, n1, n1 + 12)
    ensures forall i :: 0 <= i < 6 ==> Lookup(st, env3, n1 + (2 * i + 1)) == Scalar(At(w, inv, Spot(Some(g), Some(l)), i))
  {
    hide RunQuiet, LoadVector;
    var a, b := LoadVector(d, p, g, n1), LoadVector(d, p, l, n1 + 6);
    var env2 := LoadVectorRuns(st, w, inv, d, p, lo, g, n1, env1);
    env3 := LoadVectorRuns(st, w, inv, d, p, lo, l, n1 + 6, env2);
    PositionJoin(st, w, inv, a, b, env1, env2, env3, Spot(Some(g), Some(l)), n1);
  }

  lemma PositionJoin(st: Statics, w: World, inv: nat, a: seq<Inst>, b: seq<Inst>, env1: Env, env2: Env, env3: Env, s: Spot, n1: nat)
    requires RunQuiet(st, w, inv, a, env1) == Done(env2, []) && Extends(env1, env2, n1, n1 + 6)
    requires RunQuiet(st, w, inv, b, env2) == Done(env3, []) && Extends(env2, env3, n1 + 6, n1 + 12)
    requires Lookup(st, env2, n1 + 1) == Scalar(Part(w, inv, s.group, 0))
    requires Lookup(st, env2, n1 + 3) == Scalar(Part(w, inv, s.group, 1))
    requires Lookup(st, env2, n1 + 5) == Scalar(Part(w, inv, s.group, 2))
    requires Lookup(st, env3, n1 + 7) == Scalar(Part(w, inv, s.local, 0))
    requires Lookup(st, env3, n1 + 9) == Scalar(Part(w, inv, s.local, 1))
    requires Lookup(st, env3, n1 + 11) == Scalar(Part(w, inv, s.local, 2))
    ensures RunQuiet(st, w, inv, a + b, env1) == Done(env3, []) && Extends(env1, env3, n1, n1 + 12)
    ensures forall i :: 0 <= i < 6 ==> Lookup(st, env3, n1 + (2 * i + 1)) == Scalar(At(w, inv, s, i))
  {
    var none: seq<Write> := [];
    assert none + none == none;
    Joins(st, w, inv, a, b, env1, env2, env3, none, none, n1, n1 + 6, n1 + 12);
    ExtendsLookup(st, env2, env3, n1 + 6, n1 + 12, n1 + 1);
    ExtendsLookup(st, env2, env3, n1 + 6, n1 + 12, n1 + 3);
    ExtendsLookup(st, env2, env3, n1 + 6, n1 + 12, n1 + 5);
    forall i | 0 <= i < 6
      ensures Lookup(st, env3, n1 + (2 * i + 1)) == Scalar(At(w, inv, s, i))
    {
      if i == 0 {} else if i == 1 {} else if i == 2 {} else if i == 3 {} else if i == 4 {} else {}
    }
  }

  lemma RecordReady(st: Statics, w: World, inv: nat, d: Names, p: Pool, lo: nat, t: Target, index: nat, n: nat, env: Env) returns (env3: Env)
    requires Supplies(st, w, d, p, lo) && lo <= n && FieldsStart(d, t, n) < WORD && Refusal(d, t).None? && Common(p)
    requires Older(d, t, n)
    ensures RunQuiet(st, w, inv, Convert(d, t, n) + Position(d, p, t, n), env) == Done(env3, [])
    ensures Ready(st, w, inv, d, t, n, env, env3)
  {
    var env1 := ConvertRuns(st, w, inv, d, p, lo, t, n, env);
    env3 := PositionRuns(st, w, inv, d, p, lo, t, n, env1);
    var none: seq<Write> := [];
    assert none + none == none;
    Joins(st, w, inv, Convert(d, t, n), Position(d, p, t, n), env, env1, env3, none, none, n, RecordStart(d, t, n), FieldsStart(d, t, n));
    ExtendsLookup(st, env1, env3, RecordStart(d, t, n), FieldsStart(d, t, n), ValueId(d, t, n));
  }

  /** The constants of one target. */
  ghost predicate OwnConstants(p: Pool, t: Target, index: nat) {
    && p.Has(Value(t.candidate)) && p.Has(Value(RoleCode(t.role)))
    && forall s: nat :: SlotBase(index) <= s < SlotBase(index) + 11 ==> p.Has(Slot(s))
  }

  lemma ConstantLookup(st: Statics, w: World, d: Names, p: Pool, lo: nat, r: Request, env: Env)
    requires Supports(st, w, d, p, lo) && p.Has(r)
    ensures p.Id(r) < lo && Lookup(st, env, p.Id(r)) == Scalar(W(Number(r)))
  {}

  ghost function PlaceOf(st: Statics, d: Names, t: Target, env: Env): Val {
    var ops := Operands(d, t);
    if ops == [] then Undef else Lookup(st, env, ops[|ops| - 1])
  }

  /** The record's fields hold what they should. */
  lemma RecordHolds(st: Statics, w: World, inv: nat, d: Names, p: Pool, lo: nat, t: Target, index: nat, n: nat, env: Env, env3: Env, i: nat)
    requires Supports(st, w, d, p, lo) && lo <= n && Refusal(d, t).None? && Common(p) && OwnConstants(p, t, index)
    requires Older(d, t, n) && Ready(st, w, inv, d, t, n, env, env3) && i < RecordLength(t)
    ensures var slot, id, n2 := p.Id(Slot(SlotBase(index) + i)), RecordValueId(d, p, t, n, i), FieldsStart(d, t, n);
      && slot < n2 && id < n2 && Lookup(st, env3, slot) == Scalar(W(SlotBase(index) + i))
      && Lookup(st, env3, id) == RecordValue(w, inv, SpotOf(d), t, Lookup(st, env, t.stored), PlaceOf(st, d, t, env), i)
  {
    ConstantLookup(st, w, d, p, lo, Slot(SlotBase(index) + i), env3);
    if i == 0 { ConstantLookup(st, w, d, p, lo, Value(t.candidate), env3); }
    else if i == 1 { ConstantLookup(st, w, d, p, lo, Value(RoleCode(t.role)), env3); }
    else if i == 2 {}
    else if i == 3 { ExtendsLookup(st, env, env3, n, FieldsStart(d, t, n), Operands(d, t)[|Operands(d, t)| - 1]); }
    else if i < 10 { assert Lookup(st, env3, RecordStart(d, t, n) + (2 * (i - 4) + 1)) == Scalar(At(w, inv, SpotOf(d), i - 4)); }
    else { ConstantLookup(st, w, d, p, lo, Value(RECORD_SCHEMA), env3); }
  }

  /** The record as the block writes it. */
  lemma RecordRuns(st: Statics, w: World, inv: nat, d: Names, p: Pool, lo: nat, t: Target, index: nat, n: nat, env: Env, env3: Env) returns (env4: Env)
    requires Supports(st, w, d, p, lo) && lo <= n && TraceStart(d, t, n) <= WORD && Refusal(d, t).None? && Common(p) && OwnConstants(p, t, index)
    requires Older(d, t, n) && Ready(st, w, inv, d, t, n, env, env3)
    ensures RunQuiet(st, w, inv, DebugWords(d, RecordFields(d, p, t, index, n), FieldsStart(d, t, n)), env3)
         == Done(env4, RecordWrites(w, inv, SpotOf(d), t, index, Lookup(st, env, t.stored), PlaceOf(st, d, t, env)))
    ensures Extends(env3, env4, FieldsStart(d, t, n), TraceStart(d, t, n))
  {
    hide RunQuiet, DebugWords, Supports;
    var fields, ws := RecordFields(d, p, t, index, n), RecordWrites(w, inv, SpotOf(d), t, index, Lookup(st, env, t.stored), PlaceOf(st, d, t, env));
    forall i | 0 <= i < |fields|
      ensures fields[i].slot < FieldsStart(d, t, n) && fields[i].value < FieldsStart(d, t, n)
      ensures Lookup(st, env3, fields[i].slot).Scalar? && FieldWrite(st, env3, fields[i]) == ws[i]
    {
      RecordHolds(st, w, inv, d, p, lo, t, index, n, env, env3, i);
    }
    env4 := DebugWordsRun(st, w, inv, d, p, lo, fields, FieldsStart(d, t, n), env3);
    assert FieldWrites(st, env3, fields) == ws;
  }

  ghost function OperandOf(st: Statics, d: Names, t: Target, env: Env, i: nat): Val {
    if i < |Operands(d, t)| then Lookup(st, env, Operands(d, t)[i]) else Undef
  }

  /** Everything a block writes, as a function of the values it finds. */
  ghost function BlockWrites(st: Statics, w: World, inv: nat, d: Names, t: Target, index: nat, env: Env): seq<Write> {
    var value := Lookup(st, env, t.stored);
    RecordWrites(w, inv, SpotOf(d), t, index, value, PlaceOf(st, d, t, env))
    + TraceWrites(w, inv, SpotOf(d), t, value, OperandOf(st, d, t, env, 1), OperandOf(st, d, t, env, 2))
  }

  // ---- the lane trace ----

  /** The values found before the lane's words are written. */
  ghost predicate LaneReady(st: Statics, w: World, inv: nat, d: Names, t: Target, n: nat, n3: nat, value: Val, col: Val, row: Val, env: Env) {
    var s := SpotOf(d);
    && TraceBase(t).Some? && |Operands(d, t)| >= 4 && Older(d, t, n) && n < n3 && ValueId(d, t, n) < n3
    && Lookup(st, env, ValueId(d, t, n)) == value
    && Lookup(st, env, Operands(d, t)[1]) == col && Lookup(st, env, Operands(d, t)[2]) == row
    && Lookup(st, env, n3 + 1) == Scalar(At(w, inv, s, 3))
    && Lookup(st, env, n3 + 3) == Scalar(At(w, inv, s, 0))
    && Lookup(st, env, n3 + 5) == Scalar(At(w, inv, s, 1))
    && Lookup(st, env, n3 + 7) == Scalar(At(w, inv, s, 2))
  }

  lemma LaneHolds(st: Statics, w: World, inv: nat, d: Names, p: Pool, lo: nat, t: Target, index: nat, n: nat, n3: nat,
                  value: Val, col: Val, row: Val, env: Env, i: nat)
    requires Supports(st, w, d, p, lo) && lo <= n && Common(p) && OwnConstants(p, t, index)
    requires LaneReady(st, w, inv, d, t, n, n3, value, col, row, env) && i < 8
    ensures var slot, id := p.Id(Value(i)), LaneValueId(d, p, t, n, n3, i);
      && slot < n3 + 10 && id < n3 + 10 && Lookup(st, env, slot) == Scalar(i)
      && Lookup(st, env, id) == LaneValue(w, inv, SpotOf(d), t, value, col, row, i)
  {
    ConstantLookup(st, w, d, p, lo, Value(i), env);
    if i == 0 {} else if i == 1 {} else if i == 2 {} else if i == 3 {} else if i == 4 {}
    else if i == 5 { ConstantLookup(st, w, d, p, lo, Value(t.candidate), env); }
    else if i == 6 {} else {}
  }

  /** The eight words of the lane. */
  lemma LanesRun(st: Statics, w: World, inv: nat, d: Names, p: Pool, lo: nat, t: Target, index: nat, n: nat, n3: nat,
                 value: Val, col: Val, row: Val, env: Env) returns (env': Env)
    requires Supports(st, w, d, p, lo) && lo <= n && Common(p) && OwnConstants(p, t, index) && n3 + 31 <= WORD
    requires LaneReady(st, w, inv, d, t, n, n3, value, col, row, env)
    requires Lookup(st, env, n3 + 9) == Scalar(LaneBase(w, inv, SpotOf(d), TraceBase(t).value))
    ensures RunQuiet(st, w, inv, LaneWords(d, n3 + 9, LaneFields(d, p, t, n, n3), n3 + 15), env)
         == Done(env', LanesWritten(w, inv, SpotOf(d), t, TraceBase(t).value, value, col, row))
    ensures Extends(env, env', n3 + 15, n3 + 31)
  {
    hide RunQuiet, LaneWords, Supports;
    var fields, base := LaneFields(d, p, t, n, n3), LaneBase(w, inv, SpotOf(d), TraceBase(t).value);
    forall i | 0 <= i < 8
      ensures fields[i].slot < n3 + 10 && fields[i].value < n3 + 10 && Lookup(st, env, fields[i].slot).Scalar?
      ensures LaneWrite(st, env, base, fields[i]) == LanesWritten(w, inv, SpotOf(d), t, TraceBase(t).value, value, col, row)[i]
    {
      LaneHolds(st, w, inv, d, p, lo, t, index, n, n3, value, col, row, env, i);
    }
    env' := LaneWordsRun(st, w, inv, d, p, lo, n3 + 9, base, fields, n3 + 15, env);
    assert LaneWrites(st, env, base, fields) == LanesWritten(w, inv, SpotOf(d), t, TraceBase(t).value, value, col, row);
  }

  lemma HeaderRuns(st: Statics, w: World, inv: nat, d: Names, p: Pool, lo: nat, n: nat, env: Env) returns (env': Env)
    requires Supports(st, w, d, p, lo) && lo <= n && n + 5 <= WORD && Common(p)
    ensures RunQuiet(st, w, inv, DebugWords(d, HeaderFields(p), n), env) == Done(env', HeaderWrites())
    ensures Extends(env, env', n, n + 5)
  {
    var fields := HeaderFields(p);
    forall i | 0 <= i < 5
      ensures fields[i].slot < n && fields[i].value < n && Lookup(st, env, fields[i].slot).Scalar?
      ensures FieldWrite(st, env, fields[i]) == HeaderWrites()[i]
    {
      ConstantLookup(st, w, d, p, lo, Slot(TRACE_HEADER + i), env);
      ConstantLookup(st, w, d, p, lo, Value(HeaderValue(i)), env);
    }
    env' := DebugWordsRun(st, w, inv, d, p, lo, fields, n, env);
    assert FieldWrites(st, env, fields) == HeaderWrites();
  }

  /** Scaling the lane and adding the region's base. */
  lemma LaneSlotRuns(st: Statics, w: World, inv: nat, d: Names, p: Pool, lo: nat, region: Word, n3: nat, x: nat, env: Env) returns (env': Env)
    requires Supports(st, w, d, p, lo) && lo <= n3 && n3 + 10 <= WORD && p.Has(Value(TRACE_WORDS)) && p.Has(Value(region))
    requires Lookup(st, env, n3 + 1) == Scalar(x)
    ensures RunQuiet(st, w, inv, LaneSlot(d, p, region, n3), env) == Done(env', [])
    ensures Extends(env, env', n3 + 8, n3 + 10)
    ensures Lookup(st, env', n3 + 9) == Scalar(((x * TRACE_WORDS) % WORD + region) % WORD)
  {
    var block := LaneSlot(d, p, region, n3);
    var mul, add := block[0], block[1];
    ConstantLookup(st, w, d, p, lo, Value(TRACE_WORDS), env);
    ActArith(st, w, inv, mul, env, x, TRACE_WORDS);
    var scaled := Scalar((x * TRACE_WORDS) % WORD);
    var env1 := env[n3 + 8 := scaled];
    ConstantLookup(st, w, d, p, lo, Value(region), env1);
    assert Lookup(st, env1, n3 + 8) == scaled;
    ActArith(st, w, inv, add, env1, scaled.w, region);
    RunsOne(st, w, inv, add, env1);
    env' := env1[n3 + 9 := Scalar((scaled.w + region) % WORD)];
    RunsTwo(st, w, inv, mul, add, env, n3 + 8, scaled, env', []);
    assert block == [mul, add];
  }

  /** What the trace needs before its first instruction. */
  ghost predicate Recorded(st: Statics, d: Names, t: Target, n: nat, value: Val, col: Val, row: Val, env: Env) {
    && TraceBase(t).Some? && |Operands(d, t)| >= 4 && Older(d, t, n)
    && Lookup(st, env, ValueId(d, t, n)) == value
    && Lookup(st, env, Operands(d, t)[1]) == col && Lookup(st, env, Operands(d, t)[2]) == row
  }

  lemma PrepareJoin(st: Statics, w: World, inv: nat, a: seq<Inst>, b: seq<Inst>, c: seq<Inst>, env: Env, env1: Env, env2: Env, env3: Env, n3: nat)
    requires RunQuiet(st, w, inv, a, env) == Done(env1, []) && Extends(env, env1, n3, n3 + 2)
    requires RunQuiet(st, w, inv, b, env1) == Done(env2, []) && Extends(env1, env2, n3 + 2, n3 + 8)
    requires RunQuiet(st, w, inv, c, env2) == Done(env3, []) && Extends(env2, env3, n3 + 8, n3 + 10)
    ensures RunQuiet(st, w, inv, a + b + c, env) == Done(env3, []) && Extends(env, env3, n3, n3 + 10)
    ensures Lookup(st, env2, n3 + 1) == Lookup(st, env1, n3 + 1) == Lookup(st, env3, n3 + 1)
    ensures Lookup(st, env3, n3 + 3) == Lookup(st, env2, n3 + 3)
    ensures Lookup(st, env3, n3 + 5) == Lookup(st, env2, n3 + 5)
    ensures Lookup(st, env3, n3 + 7) == Lookup(st, env2, n3 + 7)
  {
    var none: seq<Write> := [];
    assert none + none == none;
    Joins(st, w, inv, a, b, env, env1, env2, none, none, n3, n3 + 2, n3 + 8);
    Joins(st, w, inv, a + b, c, env, env2, env3, none, none, n3, n3 + 8, n3 + 10);
    ExtendsLookup(st, env1, env2, n3 + 2, n3 + 8, n3 + 1);
    ExtendsLookup(st, env2, env3, n3 + 8, n3 + 10, n3 + 1);
    ExtendsLookup(st, env2, env3, n3 + 8, n3 + 10, n3 + 3);
    ExtendsLookup(st, env2, env3, n3 + 8, n3 + 10, n3 + 5);
    ExtendsLookup(st, env2, env3, n3 + 8, n3 + 10, n3 + 7);
  }

  /** The ids of the invocation and its lane's first slot. */
  lemma PrepareRuns(st: Statics, w: World, inv: nat, d: Names, p: Pool, lo: nat, g: Word, l: Word, region: Word, n3: nat, env: Env) returns (env3: Env)
    requires Supports(st, w, d, p, lo) && lo <= n3 && n3 + 10 <= WORD && Common(p) && p.Has(Value(region))
    requires d.ptrInput.Some? && InputVector(st, w, g) && InputVector(st, w, l)
    ensures RunQuiet(st, w, inv, LoadComponent(d, p, l, 0, n3) + LoadVector(d, p, g, n3 + 2) + LaneSlot(d, p, region, n3), env) == Done(env3, [])
    ensures Extends(env, env3, n3, n3 + 10)
    ensures var s := Spot(Some(g), Some(l));
      && Lookup(st, env3, n3 + 1) == Scalar(At(w, inv, s, 3))
      && Lookup(st, env3, n3 + 3) == Scalar(At(w, inv, s, 0))
      && Lookup(st, env3, n3 + 5) == Scalar(At(w, inv, s, 1))
      && Lookup(st, env3, n3 + 7) == Scalar(At(w, inv, s, 2))
      && Lookup(st, env3, n3 + 9) == Scalar(LaneBase(w, inv, s, region))
  {
    hide RunQuiet, LoadComponent, LoadVector, LaneSlot;
    var a, b, c := LoadComponent(d, p, l, 0, n3), LoadVector(d, p, g, n3 + 2), LaneSlot(d, p, region, n3);
    var env1 := LoadRuns(st, w, inv, d, p, lo, l, 0, n3, env);
    var env2 := LoadVectorRuns(st, w, inv, d, p, lo, g, n3 + 2, env1);
    ExtendsLookup(st, env1, env2, n3 + 2, n3 + 8, n3 + 1);
    env3 := LaneSlotRuns(st, w, inv, d, p, lo, region, n3, At(w, inv, Spot(Some(g), Some(l)), 3), env2);
    PrepareJoin(st, w, inv, a, b, c, env, env1, env2, env3, n3);
  }

  lemma SupportsVectors(st: Statics, w: World, d: Names, p: Pool, lo: nat)
    requires Supports(st, w, d, p, lo)
    ensures d.groupVar.Some? ==> InputVector(st, w, d.groupVar.value)
    ensures d.localVar.Some? ==> InputVector(st, w, d.localVar.value)
  {}

  lemma TraceRuns(st: Statics, w: World, inv: nat, d: Names, p: Pool, lo: nat, t: Target, index: nat, n: nat,
                  value: Val, col: Val, row: Val, env: Env) returns (env': Env)
    requires Supports(st, w, d, p, lo) && lo <= n && Common(p) && OwnConstants(p, t, index) && ProbeEnd(d, t, n) <= WORD
    requires Refusal(d, t).None? && Recorded(st, d, t, n, value, col, row, env)
    ensures RunQuiet(st, w, inv, Trace(d, p, t, n), env) == Done(env', TraceWrites(w, inv, SpotOf(d), t, value, col, row))
    ensures Extends(env, env', TraceStart(d, t, n), ProbeEnd(d, t, n))
  {
    hide RunQuiet, LoadComponent, LoadVector, LaneSlot, DebugWords, LaneWords, Supports, OwnConstants, Lookup, LaneBase, HeaderWrites, LanesWritten, LaneFields, HeaderFields;
    SupportsVectors(st, w, d, p, lo);
    var n3, region, g, l := TraceStart(d, t, n), TraceBase(t).value, d.groupVar.value, d.localVar.value;
    var env1 := PrepareRuns(st, w, inv, d, p, lo, g, l, region, n3, env);
    ExtendsLookup(st, env, env1, n3, n3 + 10, ValueId(d, t, n));
    ExtendsLookup(st, env, env1, n3, n3 + 10, Operands(d, t)[1]);
    ExtendsLookup(st, env, env1, n3, n3 + 10, Operands(d, t)[2]);
    var env2 := HeaderRuns(st, w, inv, d, p, lo, n3 + 10, env1);
    LaneStays(st, w, inv, d, t, n, n3, value, col, row, env1, env2, region);
    env' := LanesRun(st, w, inv, d, p, lo, t, index, n, n3, value, col, row, env2);
    TraceJoin(st, w, inv, LoadComponent(d, p, l, 0, n3) + LoadVector(d, p, g, n3 + 2) + LaneSlot(d, p, region, n3),
              DebugWords(d, HeaderFields(p), n3 + 10), LaneWords(d, n3 + 9, LaneFields(d, p, t, n, n3), n3 + 15),
              env, env1, env2, env', HeaderWrites(), LanesWritten(w, inv, SpotOf(d), t, region, value, col, row), n3);
  }

  lemma LaneStays(st: Statics, w: World, inv: nat, d: Names, t: Target, n: nat, n3: nat, value: Val, col: Val, row: Val, env1: Env, env2: Env, region: nat)
    requires LaneReady(st, w, inv, d, t, n, n3, value, col, row, env1) && Extends(env1, env2, n3 + 10, n3 + 15)
    requires Lookup(st, env1, n3 + 9) == Scalar(LaneBase(w, inv, SpotOf(d), region))
    ensures LaneReady(st, w, inv, d, t, n, n3, value, col, row, env2)
    ensures Lookup(st, env2, n3 + 9) == Scalar(LaneBase(w, inv, SpotOf(d), region))
  {
    hide Lookup, Extends, At, Refusal, LaneBase;
    ExtendsLookup(st, env1, env2, n3 + 10, n3 + 15, n3 + 9);
    ExtendsLookup(st, env1, env2, n3 + 10, n3 + 15, Operands(d, t)[1]);
    ExtendsLookup(st, env1, env2, n3 + 10, n3 + 15, Operands(d, t)[2]);
    ExtendsLookup(st, env1, env2, n3 + 10, n3 + 15, ValueId(d, t, n));
    ExtendsLookup(st, env1, env2, n3 + 10, n3 + 15, n3 + 1);
    ExtendsLookup(st, env1, env2, n3 + 10, n3 + 15, n3 + 3);
    ExtendsLookup(st, env1, env2, n3 + 10, n3 + 15, n3 + 5);
    ExtendsLookup(st, env1, env2, n3 + 10, n3 + 15, n3 + 7);
  }

  lemma TraceJoin(st: Statics, w: World, inv: nat, a: seq<Inst>, b: seq<Inst>, c: seq<Inst>, env: Env, env1: Env, env2: Env, env3: Env,
                  ws: seq<Write>, ws2: seq<Write>, n3: nat)
    requires RunQuiet(st, w, inv, a, env) == Done(env1, []) && Extends(env, env1, n3, n3 + 10)
    requires RunQuiet(st, w, inv, b, env1) == Done(env2, ws) && Extends(env1, env2, n3 + 10, n3 + 15)
    requires RunQuiet(st, w, inv, c, env2) == Done(env3, ws2) && Extends(env2, env3, n3 + 15, n3 + 31)
    ensures RunQuiet(st, w, inv, a + b + c, env) == Done(env3, ws + ws2) && Extends(env, env3, n3, n3 + 31)
  {
    assert [] + ws == ws;
    Joins(st, w, inv, a, b, env, env1, env2, [], ws, n3, n3 + 10, n3 + 15);
    Joins(st, w, inv, a + b, c, env, env2, env3, ws, ws2, n3, n3 + 15, n3 + 31);
  }

  lemma SupportsSupplies(st: Statics, w: World, d: Names, p: Pool, lo: nat)
    requires Supports(st, w, d, p, lo)
    ensures Supplies(st, w, d, p, lo)
  {}

  /** From any values an inserted block runs to its end without fault or effect
      on the shared memory, sets only its own fresh ids, and writes exactly the
      words of its record and its lane trace. */
  lemma ProbeRuns(st: Statics, w: World, inv: nat, d: Names, p: Pool, lo: nat, t: Target, index: nat, n: nat, env: Env) returns (env': Env)
    requires Supports(st, w, d, p, lo) && lo <= n && Common(p) && OwnConstants(p, t, index) && ProbeEnd(d, t, n) < WORD
    requires Refusal(d, t).None? && Older(d, t, n)
    ensures RunQuiet(st, w, inv, Block(d, p, t, index, n), env) == Done(env', BlockWrites(st, w, inv, d, t, index, env))
    ensures Extends(env, env', n, ProbeEnd(d, t, n))
  {
    hide RunQuiet, Convert, Position, DebugWords, LoadComponent, LoadVector, LaneSlot, LaneWords, RecordWrites, Supports, Supplies, RecordFields;
    SupportsSupplies(st, w, d, p, lo);
    var value, col, row := Lookup(st, env, t.stored), OperandOf(st, d, t, env, 1), OperandOf(st, d, t, env, 2);
    var env3 := RecordReady(st, w, inv, d, p, lo, t, index, n, env);
    var env4 := RecordRuns(st, w, inv, d, p, lo, t, index, n, env, env3);
    var record := RecordWrites(w, inv, SpotOf(d), t, index, value, PlaceOf(st, d, t, env));
    var n2, n3 := FieldsStart(d, t, n), TraceStart(d, t, n);
    var head, fields := Convert(d, t, n) + Position(d, p, t, n), DebugWords(d, RecordFields(d, p, t, index, n), n2);
    assert [] + record == record;
    Joins(st, w, inv, head, fields, env, env3, env4, [], record, n, n2, n3);
    if TraceBase(t).None? {
      env' := env4;
      assert head + fields + [] == head + fields && record + [] == record;
    } else {
      ExtendsLookup(st, env3, env4, n2, n3, ValueId(d, t, n));
      ExtendsLookup(st, env, env4, n, n3, Operands(d, t)[1]);
      ExtendsLookup(st, env, env4, n, n3, Operands(d, t)[2]);
      env' := TraceRuns(st, w, inv, d, p, lo, t, index, n, value, col, row, env4);
      Joins(st, w, inv, head + fields, Trace(d, p, t, n), env, env4, env', record, TraceWrites(w, inv, SpotOf(d), t, value, col, row), n, n3, ProbeEnd(d, t, n));
    }
  }
}
