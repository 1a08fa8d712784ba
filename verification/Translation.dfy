/** A rewrite of straight-line blocks and its correctness, once for all
    rewrites: a translated program may do only what the original may do. The
    code is cut into units; each unit is copied, replaced by a block that ends
    in the same visible values, or is a barrier that the original lacks. */
module Translation {
  import opened Words
  import opened Ops
  import opened Machine

  datatype Unit = Unit(src: seq<Inst>, dst: seq<Inst>)

  /** The ids both programs know: those below the original bound, except the
      results that the translation no longer computes. */
  datatype Scope = Scope(bound: nat, gone: set<nat>) {
    predicate Visible(id: nat) { id < bound && id !in gone }
  }

  /** `hidden` blocks may write to the probe buffer, which the original does not see. */
  datatype Rewrite = Rewrite(units: seq<Unit>, scope: Scope, hidden: bool, before: Statics, after: Statics) {
    function Source(): Program { Program(before, Flatten(Srcs(units))) }
    function Target(): Program { Program(after, Flatten(Dsts(units))) }
  }

  function Srcs(units: seq<Unit>): (r: seq<seq<Inst>>)
    ensures |r| == |units|
  { seq(|units|, i requires 0 <= i < |units| => units[i].src) }

  function Dsts(units: seq<Unit>): (r: seq<seq<Inst>>)
    ensures |r| == |units|
  { seq(|units|, i requires 0 <= i < |units| => units[i].dst) }

  lemma UnitAtIndex(units: seq<Unit>, u: nat)
    requires u < |units|
    ensures Srcs(units)[u] == units[u].src && Dsts(units)[u] == units[u].dst
  {}

  function SrcPos(units: seq<Unit>, u: nat): nat
    requires u <= |units|
  { |Flatten(Srcs(units)[..u])| }

  function DstPos(units: seq<Unit>, u: nat): nat
    requires u <= |units|
  { |Flatten(Dsts(units)[..u])| }

  // ---- blocks that neither jump nor touch the shared memory ----

  datatype Outcome = Done(env: Env, writes: seq<Write>) | Broken | Loud

  ghost function RunQuiet(st: Statics, w: World, inv: nat, block: seq<Inst>, env: Env): Outcome
    decreases |block|
  {
    if block == [] then Done(env, [])
    else match Act(st, w, inv, block[0], env)
      case Set(id, v) => RunQuiet(st, w, inv, block[1..], env[id := v])
      case Emit(write) =>
        (match RunQuiet(st, w, inv, block[1..], env)
         case Done(e, ws) => Done(e, [write] + ws)
         case Broken => Broken
         case Loud => Loud)
      case Fault => Broken
      case External => Loud
  }

  lemma {:induction false} RunQuietAppend(st: Statics, w: World, inv: nat, a: seq<Inst>, b: seq<Inst>, env: Env)
    ensures RunQuiet(st, w, inv, a, env).Done? ==>
      var first := RunQuiet(st, w, inv, a, env);
      var second := RunQuiet(st, w, inv, b, first.env);
      RunQuiet(st, w, inv, a + b, env) ==
        (if second.Done? then Done(second.env, first.writes + second.writes) else second)
    ensures !RunQuiet(st, w, inv, a, env).Done? ==> RunQuiet(st, w, inv, a + b, env) == RunQuiet(st, w, inv, a, env)
    decreases |a|
  {
    hide Act;
    if a == [] {
      assert a + b == b;
    } else {
      assert (a + b)[1..] == a[1..] + b;
      match Act(st, w, inv, a[0], env) {
        case Set(id, v) => RunQuietAppend(st, w, inv, a[1..], b, env[id := v]);
        case Emit(write) => RunQuietAppend(st, w, inv, a[1..], b, env);
        case Fault =>
        case External =>
      }
    }
  }

  predicate Plain(block: seq<Inst>) {
    forall k :: 0 <= k < |block| ==> Op(block[k]) != LABEL && Op(block[k]) != CONTROL_BARRIER
  }

  // ---- when a rewrite is correct ----

  ghost predicate Agree(t: Rewrite, e': Env, e: Env) {
    forall id :: t.scope.Visible(id) ==> Lookup(t.after, e', id) == Lookup(t.before, e, id)
  }

  ghost predicate StaticsFit(t: Rewrite, w: World) {
    && t.after.moduli == t.before.moduli && t.after.quads == t.before.quads
    && (forall id :: t.scope.Visible(id) ==>
          (id in t.after.consts <==> id in t.before.consts)
          && (id in t.before.consts ==> t.after.consts[id] == t.before.consts[id]))
    && (forall v :: v != w.debug ==>
          (v in t.after.buffers <==> v in t.before.buffers)
          && (v in t.before.buffers ==> t.after.buffers[v] == t.before.buffers[v]))
    && (Private(t.after, w) <==> Private(t.before, w))
  }

  ghost predicate Copied(t: Rewrite, w: World, unit: Unit) {
    && |unit.src| == 1 && unit.dst == unit.src
    && forall id :: id in Reads(w, unit.src[0]) ==> t.scope.Visible(id)
  }

  predicate Fence(unit: Unit) {
    unit.src == [] && |unit.dst| == 1 && Op(unit.dst[0]) == CONTROL_BARRIER
  }

  /** From agreeing values, the replacement ends in agreeing values whenever
      the original block does not fault. */
  ghost predicate BlockHolds(t: Rewrite, w: World, unit: Unit, inv: nat, e': Env, e: Env) {
    Agree(t, e', e) ==>
      var r := RunQuiet(t.before, w, inv, unit.src, e);
      var r' := RunQuiet(t.after, w, inv, unit.dst, e');
      && !r.Loud?
      && (r.Done? ==> r.writes == [] && r'.Done? && Agree(t, r'.env, r.env) && (t.hidden || r'.writes == []))
  }

  ghost predicate Replaced(t: Rewrite, w: World, unit: Unit) {
    && unit.dst != [] && Plain(unit.src) && Plain(unit.dst)
    && forall inv: nat, e': Env, e: Env :: BlockHolds(t, w, unit, inv, e', e)
  }

  ghost predicate UnitOk(t: Rewrite, w: World, unit: Unit) {
    Copied(t, w, unit) || Fence(unit) || Replaced(t, w, unit)
  }

  ghost predicate Correct(t: Rewrite, w: World) {
    StaticsFit(t, w) && forall u :: 0 <= u < |t.units| ==> UnitOk(t, w, t.units[u])
  }

  // ---- blocks that set a known list of ids ----

  /** `env` after the first `n` of the assignments. */
  function EnvAt(env: Env, ids: seq<nat>, vals: seq<Val>, n: nat): Env
    requires n <= |ids| == |vals|
  {
    if n == 0 then env else EnvAt(env, ids, vals, n - 1)[ids[n - 1] := vals[n - 1]]
  }

  lemma {:induction false} EnvAtOther(env: Env, ids: seq<nat>, vals: seq<Val>, n: nat, id: nat)
    requires n <= |ids| == |vals| && forall j :: 0 <= j < n ==> ids[j] != id
    ensures (id in EnvAt(env, ids, vals, n) <==> id in env) && (id in env ==> EnvAt(env, ids, vals, n)[id] == env[id])
  {
    if n > 0 { EnvAtOther(env, ids, vals, n - 1, id); }
  }

  lemma EnvAtSet(env: Env, ids: seq<nat>, vals: seq<Val>, n: nat, k: nat)
    requires k < n <= |ids| == |vals| && forall j :: k < j < n ==> ids[j] != ids[k]
    ensures ids[k] in EnvAt(env, ids, vals, n) && EnvAt(env, ids, vals, n)[ids[k]] == vals[k]
    decreases n
  {
    if k < n - 1 { EnvAtSet(env, ids, vals, n - 1, k); }
  }

  ghost predicate SetsEach(st: Statics, w: World, inv: nat, block: seq<Inst>, env: Env, ids: seq<nat>, vals: seq<Val>) {
    && |block| == |ids| == |vals|
    && forall i :: 0 <= i < |block| ==> Act(st, w, inv, block[i], EnvAt(env, ids, vals, i)) == Set(ids[i], vals[i])
  }

  lemma {:induction false} QuietSets(st: Statics, w: World, inv: nat, block: seq<Inst>, env: Env, ids: seq<nat>, vals: seq<Val>, from: nat)
    requires SetsEach(st, w, inv, block, env, ids, vals) && from <= |block|
    ensures RunQuiet(st, w, inv, block[from..], EnvAt(env, ids, vals, from)) == Done(EnvAt(env, ids, vals, |block|), [])
    decreases |block| - from
  {
    hide RunQuiet, Act, EnvAt;
    if from < |block| {
      QuietSets(st, w, inv, block, env, ids, vals, from + 1);
      QuietOne(st, w, inv, block, env, ids, vals, from);
    } else {
      QuietNone(st, w, inv, block, EnvAt(env, ids, vals, from));
    }
  }

  lemma QuietNone(st: Statics, w: World, inv: nat, block: seq<Inst>, env: Env)
    ensures RunQuiet(st, w, inv, block[|block|..], env) == Done(env, [])
  {}

  lemma QuietOne(st: Statics, w: World, inv: nat, block: seq<Inst>, env: Env, ids: seq<nat>, vals: seq<Val>, from: nat)
    requires SetsEach(st, w, inv, block, env, ids, vals) && from < |block|
    ensures RunQuiet(st, w, inv, block[from..], EnvAt(env, ids, vals, from)) == RunQuiet(st, w, inv, block[from + 1..], EnvAt(env, ids, vals, from + 1))
  {
    hide Act;
    assert block[from..][1..] == block[from + 1..];
  }

  // ---- positions ----

  lemma PosStep(units: seq<Unit>, u: nat)
    requires u < |units|
    ensures SrcPos(units, u + 1) == SrcPos(units, u) + |units[u].src|
    ensures DstPos(units, u + 1) == DstPos(units, u) + |units[u].dst|
  {
    FlattenAt(Srcs(units), u);
    FlattenAt(Dsts(units), u);
  }

  lemma CodeAt(units: seq<Unit>, u: nat)
    requires u < |units|
    ensures SrcPos(units, u) + |units[u].src| <= |Flatten(Srcs(units))|
    ensures DstPos(units, u) + |units[u].dst| <= |Flatten(Dsts(units))|
    ensures Flatten(Srcs(units))[SrcPos(units, u)..SrcPos(units, u) + |units[u].src|] == units[u].src
    ensures Flatten(Dsts(units))[DstPos(units, u)..DstPos(units, u) + |units[u].dst|] == units[u].dst
  {
    FlattenAt(Srcs(units), u);
    FlattenAt(Dsts(units), u);
  }

  lemma {:induction false} PosMonotone(t: Rewrite, w: World, u: nat, v: nat)
    requires Correct(t, w) && u < v <= |t.units|
    ensures DstPos(t.units, u) < DstPos(t.units, v)
    decreases v - u
  {
    assert UnitOk(t, w, t.units[v - 1]);
    PosStep(t.units, v - 1);
    if u < v - 1 {
      PosMonotone(t, w, u, v - 1);
    }
  }

  lemma PosEnd(units: seq<Unit>)
    ensures SrcPos(units, |units|) == |Flatten(Srcs(units))|
    ensures DstPos(units, |units|) == |Flatten(Dsts(units))|
  {
    assert Srcs(units)[..|units|] == Srcs(units);
    assert Dsts(units)[..|units|] == Dsts(units);
  }

  // ---- labels ----

  lemma {:induction false} FindSkips(a: seq<Inst>, b: seq<Inst>, id: nat)
    requires forall k :: 0 <= k < |a| ==> !IsLabel(a[k], id)
    ensures FindLabel(a + b, id) == |a| + FindLabel(b, id)
    decreases |a|
  {
    if a == [] {
      assert a + b == b;
    } else {
      assert (a + b)[1..] == a[1..] + b;
      FindSkips(a[1..], b, id);
    }
  }

  /** A label is copied, or it is in no block. */
  lemma UnitLabels(t: Rewrite, w: World, unit: Unit, id: nat)
    requires UnitOk(t, w, unit)
    ensures || (|unit.src| == 1 && unit.src == unit.dst && IsLabel(unit.src[0], id))
            || ((forall k :: 0 <= k < |unit.src| ==> !IsLabel(unit.src[k], id)) && (forall k :: 0 <= k < |unit.dst| ==> !IsLabel(unit.dst[k], id)))
  {}

  /** A jump lands in both programs at the same unit. */
  lemma {:induction false} LandUnit(t: Rewrite, w: World, id: nat, from: nat) returns (u: nat)
    requires Correct(t, w) && from <= |t.units|
    ensures from <= u <= |t.units|
    ensures FindLabel(Flatten(Srcs(t.units)[from..]), id) == SrcPos(t.units, u) - SrcPos(t.units, from)
    ensures FindLabel(Flatten(Dsts(t.units)[from..]), id) == DstPos(t.units, u) - DstPos(t.units, from)
    decreases |t.units| - from
  {
    if from == |t.units| {
      u := from;
    } else {
      hide UnitOk, IsLabel, Srcs, Dsts;
      var unit := t.units[from];
      assert UnitOk(t, w, unit);
      UnitLabels(t, w, unit, id);
      UnitAtIndex(t.units, from);
      FlattenAt(Srcs(t.units), from);
      FlattenAt(Dsts(t.units), from);
      if |unit.src| == 1 && unit.src == unit.dst && IsLabel(unit.src[0], id) {
        u := from;
      } else {
        u := LandUnit(t, w, id, from + 1);
        FindSkips(unit.src, Flatten(Srcs(t.units)[from + 1..]), id);
        FindSkips(unit.dst, Flatten(Dsts(t.units)[from + 1..]), id);
      }
    }
  }

  // ---- the simulation ----

  /** Where an invocation of the translated program stands: in unit `u`, after
      `j` instructions of its replacement, which it entered with `env0`. */
  datatype Track = Track(u: nat, j: nat, env0: Env)

  ghost predicate Inside(t: Rewrite, w: World, inv: nat, k: Track, env': Env) {
    if k.j == 0 then k.env0 == env'
    else
      && k.u < |t.units| && k.j < |t.units[k.u].dst|
      && Replaced(t, w, t.units[k.u])
      && var r := RunQuiet(t.after, w, inv, t.units[k.u].dst[..k.j], k.env0);
         r.Done? && r.env == env'
  }

  ghost predicate Tracked(t: Rewrite, w: World, inv: nat, k: Track, l': Local, l: Local) {
    && l'.status == l.status && l'.block == l.block && l'.pred == l.pred
    && (!l.status.Running? ==> k.j == 0)
    && (l.status.Running? ==>
        && k.u <= |t.units|
        && l.pc == SrcPos(t.units, k.u) && l'.pc == DstPos(t.units, k.u) + k.j
        && Agree(t, k.env0, l.env)
        && Inside(t, w, inv, k, l'.env))
  }

  ghost predicate Related(t: Rewrite, w: World, tracks: seq<Track>, c': Config, c: Config) {
    && |c'.locals| == |c.locals| == |tracks|
    && (forall i :: 0 <= i < |tracks| ==> Tracked(t, w, i, tracks[i], c'.locals[i], c.locals[i]))
    && c'.mem == c.mem
    && (t.hidden || c'.log == c.log)
  }

  /** Instructions do the same from agreeing values. */
  lemma ActAgree(t: Rewrite, w: World, inv: nat, inst: Inst, e': Env, e: Env)
    requires StaticsFit(t, w) && Agree(t, e', e)
    requires forall id :: id in Reads(w, inst) ==> t.scope.Visible(id)
    ensures Act(t.after, w, inv, inst, e') == Act(t.before, w, inv, inst, e)
    ensures View(t.after, e', Reads(w, inst)) == View(t.before, e, Reads(w, inst))
  {
    hide RomValue, Arith, Bytes, Scalars, Extend, Lookup, Private;
    if Op(inst) == ACCESS_CHAIN && |inst| >= 4 {
      assert inst[3..][0] in IdSet(inst[3..]);
      forall i | 0 <= i < |inst[4..]|
        ensures Lookup(t.after, e', inst[4..][i]) == Lookup(t.before, e, inst[4..][i])
      {
        assert inst[3..][i + 1] in IdSet(inst[3..]);
      }
      assert Lookups(t.after, e', inst[4..]) == Lookups(t.before, e, inst[4..]);
    } else if Op(inst) == COMPOSITE_CONSTRUCT && |inst| >= 3 {
      forall i | 0 <= i < |inst[3..]|
        ensures Lookup(t.after, e', inst[3..][i]) == Lookup(t.before, e, inst[3..][i])
      {
        assert inst[3..][i] in IdSet(inst[3..]);
      }
      assert Lookups(t.after, e', inst[3..]) == Lookups(t.before, e, inst[3..]);
    }
  }

  lemma AgreeSet(t: Rewrite, w: World, e': Env, e: Env, id: nat, v: Val)
    requires StaticsFit(t, w) && Agree(t, e', e)
    ensures Agree(t, e'[id := v], e[id := v])
  {}

  /** Moving one invocation on both sides keeps the others related. */
  lemma Retrack(t: Rewrite, w: World, tracks: seq<Track>, c': Config, c: Config, i: nat,
                k: Track, l': Local, l: Local, mem: Mem, log': seq<Write>, log: seq<Write>)
    requires Related(t, w, tracks, c', c) && i < |tracks|
    requires Tracked(t, w, i, k, l', l)
    requires t.hidden || log' == log
    ensures Related(t, w, tracks[i := k], Config(c'.locals[i := l'], mem, log'), Config(c.locals[i := l], mem, log))
  {
    var locals', locals, tracks2 := c'.locals[i := l'], c.locals[i := l], tracks[i := k];
    forall n | 0 <= n < |tracks|
      ensures Tracked(t, w, n, tracks2[n], locals'[n], locals[n])
    {
      assert Tracked(t, w, n, tracks[n], c'.locals[n], c.locals[n]);
    }
  }

  lemma AgreeDefine(t: Rewrite, w: World, e': Env, e: Env, id: Option<nat>, v: Val)
    requires StaticsFit(t, w) && Agree(t, e', e)
    ensures Agree(t, Define(id, v, e'), Define(id, v, e))
  {
    if id.Some? { AgreeSet(t, w, e', e, id.value, v); }
  }

  /** The same number of writes is added to either log. */
  ghost predicate GrewAlike(log': seq<Write>, more': seq<Write>, log: seq<Write>, more: seq<Write>) {
    log' <= more' && log <= more && |more'| - |log'| == |more| - |log|
  }

  /** The same action, on both sides of an invocation at the same unit. */
  lemma ApplyBoth(t: Rewrite, w: World, i: nat, k: Track, inst: Inst, a: Action, e: Effect,
                  l': Local, l: Local, mem: Mem, log': seq<Write>, log: seq<Write>)
    returns (k2: Track)
    requires Correct(t, w) && Tracked(t, w, i, k, l', l) && l.status.Running?
    requires k.u < |t.units| && Copied(t, w, t.units[k.u]) && k.j == 0
    requires t.hidden || log' == log
    ensures var s', s := Apply(t.Target(), w, inst, a, e, l', mem, log'), Apply(t.Source(), w, inst, a, e, l, mem, log);
      Tracked(t, w, i, k2, s'.local, s.local) && s'.mem == s.mem && (t.hidden || s'.log == s.log)
    ensures k2.j == 0
    ensures GrewAlike(log', Apply(t.Target(), w, inst, a, e, l', mem, log').log, log, Apply(t.Source(), w, inst, a, e, l, mem, log).log)
  {
    PosStep(t.units, k.u);
    match a {
      case Set(id, v) =>
        AgreeSet(t, w, l'.env, l.env, id, v);
        k2 := Track(k.u + 1, 0, l'.env[id := v]);
      case Emit(_) => k2 := Track(k.u + 1, 0, l'.env);
      case Fault => k2 := k;
      case External =>
        AgreeDefine(t, w, l'.env, l.env, w.defines(inst), e.value);
        var u := k.u + 1;
        if e.control.Jump? {
          u := LandUnit(t, w, e.control.target, 0);
          assert Srcs(t.units)[0..] == Srcs(t.units) && Dsts(t.units)[0..] == Dsts(t.units);
        }
        k2 := Track(u, 0, Define(w.defines(inst), e.value, l'.env));
    }
  }

  /** A copied instruction, on one invocation. */
  lemma CopyLocal(t: Rewrite, w: World, i: nat, k: Track, l': Local, l: Local, mem: Mem, log': seq<Write>, log: seq<Write>)
    returns (k2: Track)
    requires Correct(t, w) && Tracked(t, w, i, k, l', l) && CanStep(t.Target(), l')
    requires k.u < |t.units| && Copied(t, w, t.units[k.u]) && k.j == 0
    requires t.hidden || log' == log
    ensures CanStep(t.Source(), l)
    ensures var s', s := StepLocal(t.Target(), w, i, l', mem, log'), StepLocal(t.Source(), w, i, l, mem, log);
      Tracked(t, w, i, k2, s'.local, s.local) && s'.mem == s.mem && (t.hidden || s'.log == s.log)
    ensures k2.j == 0
    ensures GrewAlike(log', StepLocal(t.Target(), w, i, l', mem, log').log, log, StepLocal(t.Source(), w, i, l, mem, log).log)
  {
    CodeAt(t.units, k.u);
    PosStep(t.units, k.u);
    var inst := t.units[k.u].src[0];
    assert t.Source().code[l.pc] == inst;
    assert t.Target().code[l'.pc] == inst;
    ActAgree(t, w, i, inst, l'.env, l.env);
    if Op(inst) == LABEL && |inst| == 2 {
      k2 := Track(k.u + 1, 0, l'.env);
    } else {
      var a, e := Act(t.before, w, i, inst, l.env), w.ext(inst, View(t.before, l.env, Reads(w, inst)), mem, i, l.pred);
      k2 := ApplyBoth(t, w, i, k, inst, a, e, l', l, mem, log', log);
    }
  }

  /** Invocation `i` now stands before a unit; the others have not moved. */
  ghost predicate MovedOut(tracks: seq<Track>, i: nat, tracks2: seq<Track>) {
    i < |tracks| == |tracks2| && tracks2 == tracks[i := tracks2[i]] && tracks2[i].j == 0
  }

  lemma CopyStep(t: Rewrite, w: World, lanes: nat, c': Config, c: Config, tracks: seq<Track>, i: nat)
    returns (tracks2: seq<Track>)
    requires Correct(t, w) && Related(t, w, tracks, c', c)
    requires i < |c'.locals| && CanStep(t.Target(), c'.locals[i])
    requires tracks[i].u < |t.units| && Copied(t, w, t.units[tracks[i].u]) && tracks[i].j == 0
    ensures Exec(t.Source(), w, lanes, c, Invoke(i)).Some?
    ensures Related(t, w, tracks2, Exec(t.Target(), w, lanes, c', Invoke(i)).value,
                    Exec(t.Source(), w, lanes, c, Invoke(i)).value)
    ensures MovedOut(tracks, i, tracks2)
    ensures GrewAlike(c'.log, Exec(t.Target(), w, lanes, c', Invoke(i)).value.log, c.log, Exec(t.Source(), w, lanes, c, Invoke(i)).value.log)
  {
    var l', l := c'.locals[i], c.locals[i];
    assert Tracked(t, w, i, tracks[i], l', l);
    var k2 := CopyLocal(t, w, i, tracks[i], l', l, c.mem, c'.log, c.log);
    var s', s := StepLocal(t.Target(), w, i, l', c.mem, c'.log), StepLocal(t.Source(), w, i, l, c.mem, c.log);
    Retrack(t, w, tracks, c', c, i, k2, s'.local, s.local, s.mem, s'.log, s.log);
    tracks2 := tracks[i := k2];
  }

  ghost function AfterBlock(c: Config, i: nat, n: nat, r: Outcome): Config
    requires i < |c.locals| && r.Done?
  {
    Config(c.locals[i := c.locals[i].(pc := c.locals[i].pc + n, env := r.env)], c.mem, c.log + r.writes)
  }

  /** Invocation `i` one instruction further on. */
  ghost function Move(c: Config, i: nat, env: Env, writes: seq<Write>): Config
    requires i < |c.locals|
  {
    Config(c.locals[i := c.locals[i].(pc := c.locals[i].pc + 1, env := env)], c.mem, c.log + writes)
  }

  lemma AfterBlockCons(c: Config, i: nat, n: nat, env: Env, first: seq<Write>, rest: Outcome)
    requires i < |c.locals| && rest.Done?
    ensures AfterBlock(Move(c, i, env, first), i, n, rest)
         == AfterBlock(c, i, n + 1, Done(rest.env, first + rest.writes))
  {
    var l := c.locals[i];
    var mid := c.locals[i := l.(pc := l.pc + 1, env := env)];
    assert mid[i := mid[i].(pc := mid[i].pc + n, env := rest.env)] == c.locals[i := l.(pc := l.pc + (n + 1), env := rest.env)];
    assert c.log + first + rest.writes == c.log + (first + rest.writes);
  }

  /** One quiet instruction at the head of a block. */
  lemma QuietHead(p: Program, w: World, lanes: nat, c: Config, i: nat, block: seq<Inst>)
    requires i < |c.locals| && c.locals[i].status.Running? && Plain(block) && block != []
    requires c.locals[i].pc + |block| <= |p.code|
    requires p.code[c.locals[i].pc..c.locals[i].pc + |block|] == block
    ensures var l := c.locals[i]; var a := Act(p.statics, w, i, block[0], l.env);
      && Exec(p, w, lanes, c, Invoke(i)).Some?
      && (a.Fault? ==> !NoFault(Exec(p, w, lanes, c, Invoke(i)).value))
      && (a.Set? ==> Exec(p, w, lanes, c, Invoke(i)).value == Move(c, i, l.env[a.id := a.value], []))
      && (a.Emit? ==> Exec(p, w, lanes, c, Invoke(i)).value == Move(c, i, l.env, [a.write]))
  {
    var l := c.locals[i];
    assert p.code[l.pc] == p.code[l.pc..l.pc + |block|][0] == block[0];
    var a := Act(p.statics, w, i, block[0], l.env);
    var s := StepLocal(p, w, i, l, c.mem, c.log);
    assert c.log + [] == c.log;
    if a.Fault? {
      assert Exec(p, w, lanes, c, Invoke(i)).value.locals[i].status.Faulted?;
    }
  }

  /** A quiet block, run by one invocation without interruption. */
  lemma {:induction false} QuietSchedule(p: Program, w: World, lanes: nat, c: Config, i: nat, block: seq<Inst>)
    returns (schedule: seq<Choice>)
    requires i < |c.locals| && c.locals[i].status.Running? && Plain(block)
    requires c.locals[i].pc + |block| <= |p.code|
    requires p.code[c.locals[i].pc..c.locals[i].pc + |block|] == block
    ensures Run(p, w, lanes, c, schedule).Some? && |schedule| <= |block|
    ensures RunQuiet(p.statics, w, i, block, c.locals[i].env).Broken? ==> !NoFault(Run(p, w, lanes, c, schedule).value)
    ensures RunQuiet(p.statics, w, i, block, c.locals[i].env).Done? ==>
      Run(p, w, lanes, c, schedule).value == AfterBlock(c, i, |block|, RunQuiet(p.statics, w, i, block, c.locals[i].env))
    decreases |block|
  {
    hide Act;
    var l := c.locals[i];
    if block == [] {
      schedule := [];
      assert c.locals[i := l] == c.locals;
      assert c.log + [] == c.log;
      return;
    }
    QuietHead(p, w, lanes, c, i, block);
    var next := Exec(p, w, lanes, c, Invoke(i)).value;
    var a := Act(p.statics, w, i, block[0], l.env);
    if a.External? {
      schedule := [];
    } else if a.Fault? {
      schedule := [Invoke(i)];
      assert schedule[1..] == [];
    } else {
      var env := if a.Set? then l.env[a.id := a.value] else l.env;
      var first := if a.Emit? then [a.write] else [];
      var more := block[1..];
      assert p.code[l.pc + 1..l.pc + 1 + |more|] == more;
      var rest := QuietSchedule(p, w, lanes, next, i, more);
      schedule := [Invoke(i)] + rest;
      assert schedule[1..] == rest;
      var r := RunQuiet(p.statics, w, i, more, env);
      if r.Done? {
        AfterBlockCons(c, i, |more|, env, first, r);
        assert [] + r.writes == r.writes;
      }
    }
  }

  /** The replacement block is never cut short by a fault. */
  lemma BlockRuns(t: Rewrite, w: World, lanes: nat, c: Config, i: nat, u: nat, env0: Env)
    returns (schedule: seq<Choice>, env: Env)
    requires Correct(t, w) && Safe(t.Source(), w, lanes, c)
    requires u < |t.units| && Replaced(t, w, t.units[u])
    requires i < |c.locals| && c.locals[i].status.Running? && c.locals[i].pc == SrcPos(t.units, u)
    requires Agree(t, env0, c.locals[i].env)
    ensures RunQuiet(t.after, w, i, t.units[u].dst, env0).Done?
    ensures t.hidden || RunQuiet(t.after, w, i, t.units[u].dst, env0).writes == []
    ensures RunQuiet(t.before, w, i, t.units[u].src, c.locals[i].env) == Done(env, [])
    ensures Run(t.Source(), w, lanes, c, schedule).Some? && |schedule| <= |t.units[u].src|
    ensures Agree(t, RunQuiet(t.after, w, i, t.units[u].dst, env0).env, env)
    ensures Run(t.Source(), w, lanes, c, schedule).value ==
            c.(locals := c.locals[i := c.locals[i].(pc := SrcPos(t.units, u + 1), env := env)])
  {
    var unit, l := t.units[u], c.locals[i];
    assert BlockHolds(t, w, unit, i, env0, l.env);
    CodeAt(t.units, u);
    PosStep(t.units, u);
    schedule := QuietSchedule(t.Source(), w, lanes, c, i, unit.src);
    var r := RunQuiet(t.before, w, i, unit.src, l.env);
    assert r.Done?;
    env := r.env;
    assert c.log + r.writes == c.log;
  }

  /** The next instruction of a replacement block whose whole run is quiet. */
  lemma InsideStep(t: Rewrite, w: World, i: nat, dst: seq<Inst>, j: nat, env0: Env, env: Env)
    returns (env2: Env, writes: seq<Write>)
    requires j < |dst| && RunQuiet(t.after, w, i, dst, env0).Done?
    requires t.hidden || RunQuiet(t.after, w, i, dst, env0).writes == []
    requires if j == 0 then env0 == env else RunQuiet(t.after, w, i, dst[..j], env0).Done? && RunQuiet(t.after, w, i, dst[..j], env0).env == env
    ensures var a := Act(t.after, w, i, dst[j], env);
      (a.Set? && env2 == env[a.id := a.value] && writes == []) || (a.Emit? && t.hidden && env2 == env && writes == [a.write])
    ensures RunQuiet(t.after, w, i, dst[..j + 1], env0).Done? && RunQuiet(t.after, w, i, dst[..j + 1], env0).env == env2
    ensures RunQuiet(t.after, w, i, dst[..j], env0).Done?
    ensures RunQuiet(t.after, w, i, dst[..j + 1], env0).writes == RunQuiet(t.after, w, i, dst[..j], env0).writes + writes
  {
    var one: seq<Inst> := [dst[j]];
    assert dst == dst[..j] + dst[j..];
    assert dst[..j + 1] == dst[..j] + one;
    assert dst[..0] == [] && one[1..] == [];
    RunQuietAppend(t.after, w, i, dst[..j], dst[j..], env0);
    RunQuietAppend(t.after, w, i, dst[..j], one, env0);
    var a := Act(t.after, w, i, dst[j], env);
    env2 := if a.Set? then env[a.id := a.value] else env;
    writes := if a.Emit? then [a.write] else [];
  }

  /** The writes of a block up to and with its instruction `k.j`. */
  ghost predicate Advances(t: Rewrite, w: World, i: nat, k: Track, writes: seq<Write>)
    requires k.u < |t.units| && k.j < |t.units[k.u].dst|
  {
    var dst := t.units[k.u].dst;
    var was, now := RunQuiet(t.after, w, i, dst[..k.j], k.env0), RunQuiet(t.after, w, i, dst[..k.j + 1], k.env0);
    was.Done? && now.Done? && now.writes == was.writes + writes
  }

  lemma BlockHead(t: Rewrite, w: World, lanes: nat, c': Config, i: nat, k: Track)
    returns (env2: Env, writes: seq<Write>)
    requires Correct(t, w) && i < |c'.locals| && c'.locals[i].status.Running?
    requires k.u < |t.units| && Replaced(t, w, t.units[k.u]) && k.j < |t.units[k.u].dst|
    requires c'.locals[i].pc == DstPos(t.units, k.u) + k.j && Inside(t, w, i, k, c'.locals[i].env)
    requires RunQuiet(t.after, w, i, t.units[k.u].dst, k.env0).Done?
    requires t.hidden || RunQuiet(t.after, w, i, t.units[k.u].dst, k.env0).writes == []
    ensures Exec(t.Target(), w, lanes, c', Invoke(i)) == Some(Move(c', i, env2, writes))
    ensures writes == [] || t.hidden
    ensures var r := RunQuiet(t.after, w, i, t.units[k.u].dst[..k.j + 1], k.env0); r.Done? && r.env == env2
    ensures Advances(t, w, i, k, writes)
  {
    hide RunQuiet, BlockHolds, Correct, Act;
    var dst := t.units[k.u].dst;
    CodeAt(t.units, k.u);
    var l' := c'.locals[i];
    var code := t.Target().code;
    env2, writes := InsideStep(t, w, i, dst, k.j, k.env0, l'.env);
    var rest := dst[k.j..];
    assert code[l'.pc..l'.pc + |rest|] == rest;
    QuietHead(t.Target(), w, lanes, c', i, rest);
  }

  /** Invocation `i` is one instruction further in its block, or past it, and
      the log has what that instruction writes. */
  ghost predicate BlockMoved(t: Rewrite, w: World, tracks: seq<Track>, i: nat, tracks2: seq<Track>, log: seq<Write>, log2: seq<Write>) {
    && i < |tracks| && tracks[i].u < |t.units| && tracks[i].j < |t.units[tracks[i].u].dst|
    && log <= log2 && Advances(t, w, i, tracks[i], log2[|log|..])
    && RunQuiet(t.after, w, i, t.units[tracks[i].u].dst, tracks[i].env0).Done?
    && if tracks[i].j + 1 < |t.units[tracks[i].u].dst| then tracks2 == tracks[i := tracks[i].(j := tracks[i].j + 1)]
       else MovedOut(tracks, i, tracks2) && tracks2[i].u == tracks[i].u + 1
  }

  lemma BlockStep(t: Rewrite, w: World, lanes: nat, c': Config, c: Config, tracks: seq<Track>, i: nat)
    returns (schedule: seq<Choice>, tracks2: seq<Track>)
    requires Correct(t, w) && Related(t, w, tracks, c', c) && Safe(t.Source(), w, lanes, c)
    requires i < |c'.locals| && CanStep(t.Target(), c'.locals[i])
    requires tracks[i].u < |t.units| && Replaced(t, w, t.units[tracks[i].u])
    ensures Run(t.Source(), w, lanes, c, schedule).Some? && |schedule| <= |t.units[tracks[i].u].src|
    ensures Exec(t.Target(), w, lanes, c', Invoke(i)).Some?
    ensures Related(t, w, tracks2, Exec(t.Target(), w, lanes, c', Invoke(i)).value,
                    Run(t.Source(), w, lanes, c, schedule).value)
    ensures BlockMoved(t, w, tracks, i, tracks2, c'.log, Exec(t.Target(), w, lanes, c', Invoke(i)).value.log)
  {
    hide RunQuiet, Exec, BlockHolds, StepLocal, Agree;
    var k, l', l := tracks[i], c'.locals[i], c.locals[i];
    assert Tracked(t, w, i, k, l', l);
    var whole, env := BlockRuns(t, w, lanes, c, i, k.u, k.env0);
    var env2, writes := BlockHead(t, w, lanes, c', i, k);
    if k.j + 1 < |t.units[k.u].dst| {
      schedule := [];
      tracks2 := BlockMiddle(t, w, c', c, tracks, i, env2, writes);
    } else {
      schedule := whole;
      assert t.units[k.u].dst[..k.j + 1] == t.units[k.u].dst;
      tracks2 := BlockEnd(t, w, c', c, tracks, i, env2, writes, env);
    }
  }

  /** Inside a replacement block the original stands still. */
  lemma BlockMiddle(t: Rewrite, w: World, c': Config, c: Config, tracks: seq<Track>, i: nat, env2: Env, writes: seq<Write>)
    returns (tracks2: seq<Track>)
    requires Related(t, w, tracks, c', c) && i < |tracks| && c.locals[i].status.Running?
    requires tracks[i].u < |t.units| && Replaced(t, w, t.units[tracks[i].u])
    requires tracks[i].j + 1 < |t.units[tracks[i].u].dst|
    requires writes == [] || t.hidden
    requires var r := RunQuiet(t.after, w, i, t.units[tracks[i].u].dst[..tracks[i].j + 1], tracks[i].env0); r.Done? && r.env == env2
    ensures Related(t, w, tracks2, Move(c', i, env2, writes), c)
    ensures tracks2 == tracks[i := tracks[i].(j := tracks[i].j + 1)]
  {
    var k, l', l := tracks[i], c'.locals[i], c.locals[i];
    assert Tracked(t, w, i, k, l', l);
    assert t.hidden || c'.log + writes == c'.log;
    var k2 := k.(j := k.j + 1);
    Retrack(t, w, tracks, c', c, i, k2, l'.(pc := l'.pc + 1, env := env2), l, c.mem, c'.log + writes, c.log);
    assert c.locals[i := l] == c.locals;
    tracks2 := tracks[i := k2];
  }

  /** At its end the original has run its own block. */
  lemma BlockEnd(t: Rewrite, w: World, c': Config, c: Config, tracks: seq<Track>, i: nat, env2: Env, writes: seq<Write>, env: Env)
    returns (tracks2: seq<Track>)
    requires Related(t, w, tracks, c', c) && i < |tracks| && c.locals[i].status.Running?
    requires tracks[i].u < |t.units|
    requires tracks[i].j + 1 == |t.units[tracks[i].u].dst|
    requires writes == [] || t.hidden
    requires Agree(t, env2, env)
    ensures Related(t, w, tracks2, Move(c', i, env2, writes),
                    c.(locals := c.locals[i := c.locals[i].(pc := SrcPos(t.units, tracks[i].u + 1), env := env)]))
    ensures MovedOut(tracks, i, tracks2) && tracks2[i].u == tracks[i].u + 1
  {
    var k, l', l := tracks[i], c'.locals[i], c.locals[i];
    assert Tracked(t, w, i, k, l', l);
    PosStep(t.units, k.u);
    assert t.hidden || c'.log + writes == c'.log;
    var k2 := Track(k.u + 1, 0, env2);
    Retrack(t, w, tracks, c', c, i, k2, l'.(pc := l'.pc + 1, env := env2),
            l.(pc := SrcPos(t.units, k.u + 1), env := env), c.mem, c'.log + writes, c.log);
    tracks2 := tracks[i := k2];
  }

  lemma SyncUnit(t: Rewrite, w: World, lanes: nat, c': Config, c: Config, tracks: seq<Track>, g: nat, i: nat)
    requires Correct(t, w) && Related(t, w, tracks, c', c)
    requires CanSync(t.Target(), c', lanes, g)
    requires g * lanes <= i < g * lanes + lanes
    ensures var k := tracks[i];
      && k.u < |t.units| && k.j == 0 && k.u == tracks[g * lanes].u
      && (Fence(t.units[k.u]) || (Copied(t, w, t.units[k.u]) && AtBarrier(t.Source(), c.locals[i])))
  {
    var first := g * lanes;
    var k, k0 := tracks[i], tracks[first];
    assert AtBarrier(t.Target(), c'.locals[i]) && AtBarrier(t.Target(), c'.locals[first]);
    assert Tracked(t, w, i, k, c'.locals[i], c.locals[i]);
    assert Tracked(t, w, first, k0, c'.locals[first], c.locals[first]);
    PosEnd(t.units);
    AtBarrierUnit(t, w, i, k, c'.locals[i], c.locals[i]);
    AtBarrierUnit(t, w, first, k0, c'.locals[first], c.locals[first]);
    if k.u < k0.u { PosMonotone(t, w, k.u, k0.u); }
    if k0.u < k.u { PosMonotone(t, w, k0.u, k.u); }
  }

  lemma AtBarrierUnit(t: Rewrite, w: World, i: nat, k: Track, l': Local, l: Local)
    requires Correct(t, w) && Tracked(t, w, i, k, l', l) && AtBarrier(t.Target(), l')
    ensures k.u < |t.units| && k.j == 0
    ensures Fence(t.units[k.u]) || (Copied(t, w, t.units[k.u]) && AtBarrier(t.Source(), l))
  {
    PosEnd(t.units);
    assert k.u < |t.units|;
    var unit := t.units[k.u];
    assert UnitOk(t, w, unit);
    CodeAt(t.units, k.u);
    assert t.Target().code[l'.pc] == unit.dst[k.j];
    if Copied(t, w, unit) {
      assert t.Source().code[l.pc] == unit.src[0];
    }
  }

  /** The invocations of a group step over the barrier that ends unit `u`. */
  ghost function PastUnit(tracks: seq<Track>, lo: nat, hi: nat, u: nat): seq<Track> {
    seq(|tracks|, i requires 0 <= i < |tracks| => if lo <= i < hi then tracks[i].(u := u + 1) else tracks[i])
  }

  lemma FenceStep(t: Rewrite, w: World, c': Config, c: Config, tracks: seq<Track>, lo: nat, hi: nat, u: nat)
    requires Related(t, w, tracks, c', c) && lo < hi <= |tracks|
    requires u < |t.units| && Fence(t.units[u])
    requires forall i :: lo <= i < hi ==> tracks[i].u == u && tracks[i].j == 0
    ensures Related(t, w, PastUnit(tracks, lo, hi, u), PassBarrier(c', lo, hi), c)
  {
    PosStep(t.units, u);
    forall i | 0 <= i < |tracks|
      ensures Tracked(t, w, i, PastUnit(tracks, lo, hi, u)[i], PassBarrier(c', lo, hi).locals[i], c.locals[i])
    {
      assert Tracked(t, w, i, tracks[i], c'.locals[i], c.locals[i]);
    }
  }

  lemma CommonBarrierStep(t: Rewrite, w: World, c': Config, c: Config, tracks: seq<Track>, lo: nat, hi: nat, u: nat)
    requires Related(t, w, tracks, c', c) && lo < hi <= |tracks|
    requires u < |t.units| && Copied(t, w, t.units[u])
    requires forall i :: lo <= i < hi ==> tracks[i].u == u && tracks[i].j == 0
    ensures Related(t, w, PastUnit(tracks, lo, hi, u), PassBarrier(c', lo, hi), PassBarrier(c, lo, hi))
  {
    PosStep(t.units, u);
    forall i | 0 <= i < |tracks|
      ensures Tracked(t, w, i, PastUnit(tracks, lo, hi, u)[i], PassBarrier(c', lo, hi).locals[i], PassBarrier(c, lo, hi).locals[i])
    {
      assert Tracked(t, w, i, tracks[i], c'.locals[i], c.locals[i]);
    }
  }

  lemma SyncStep(t: Rewrite, w: World, lanes: nat, c': Config, c: Config, tracks: seq<Track>, g: nat)
    returns (schedule: seq<Choice>, tracks2: seq<Track>)
    requires Correct(t, w) && Related(t, w, tracks, c', c)
    requires CanSync(t.Target(), c', lanes, g)
    ensures schedule == [] || schedule == [Sync(g)]
    ensures g * lanes < |tracks| && tracks2 == PastUnit(tracks, g * lanes, g * lanes + lanes, tracks[g * lanes].u)
    ensures forall i :: g * lanes <= i < g * lanes + lanes && i < |tracks| ==> tracks[i].j == 0
    ensures Run(t.Source(), w, lanes, c, schedule).Some?
    ensures Related(t, w, tracks2, PassBarrier(c', g * lanes, g * lanes + lanes),
                    Run(t.Source(), w, lanes, c, schedule).value)
  {
    var lo, hi := g * lanes, g * lanes + lanes;
    forall i | lo <= i < hi
      ensures tracks[i].u < |t.units| && tracks[i].u == tracks[lo].u && tracks[i].j == 0
      ensures !Fence(t.units[tracks[i].u]) ==> AtBarrier(t.Source(), c.locals[i])
      ensures c.locals[i].pc == c.locals[lo].pc
    {
      SyncUnit(t, w, lanes, c', c, tracks, g, i);
      assert Tracked(t, w, i, tracks[i], c'.locals[i], c.locals[i]);
      assert Tracked(t, w, lo, tracks[lo], c'.locals[lo], c.locals[lo]);
      assert AtBarrier(t.Target(), c'.locals[i]) && AtBarrier(t.Target(), c'.locals[lo]);
    }
    SyncUnit(t, w, lanes, c', c, tracks, g, lo);
    var u := tracks[lo].u;
    tracks2 := PastUnit(tracks, lo, hi, u);
    if Fence(t.units[u]) {
      schedule := [];
      FenceStep(t, w, c', c, tracks, lo, hi, u);
    } else {
      schedule := [Sync(g)];
      assert CanSync(t.Source(), c, lanes, g);
      assert schedule[1..] == [];
      CommonBarrierStep(t, w, c', c, tracks, lo, hi, u);
    }
  }

  /** The rewrite only adds barriers. */
  ghost predicate OnlyFences(t: Rewrite, w: World) {
    forall u :: 0 <= u < |t.units| ==> Copied(t, w, t.units[u]) || Fence(t.units[u])
  }

  /** `s` is `s'` without some of its barrier steps. */
  predicate Erases(s': seq<Choice>, s: seq<Choice>)
    decreases |s'|
  {
    if s' == [] then s == []
    else (s != [] && s[0] == s'[0] && Erases(s'[1..], s[1..])) || (s'[0].Sync? && Erases(s'[1..], s))
  }

  /** How the tracks and the log move in one step, if the original logs nothing
      (`silent`). */
  ghost predicate Moved(t: Rewrite, w: World, lanes: nat, tracks: seq<Track>, choice: Choice, tracks2: seq<Track>, log: seq<Write>, log2: seq<Write>, silent: bool) {
    match choice
    case Sync(g) =>
      && g * lanes < |tracks| && tracks2 == PastUnit(tracks, g * lanes, g * lanes + lanes, tracks[g * lanes].u) && log2 == log
      && (forall i :: g * lanes <= i < g * lanes + lanes && i < |tracks| ==> tracks[i].j == 0)
    case Invoke(i) =>
      || (i < |tracks| && tracks[i].u < |t.units| && Copied(t, w, t.units[tracks[i].u])
          && MovedOut(tracks, i, tracks2) && tracks[i].j == 0 && (silent ==> log2 == log))
      || (i < |tracks| && tracks[i].u < |t.units| && Replaced(t, w, t.units[tracks[i].u]) && !Copied(t, w, t.units[tracks[i].u])
          && BlockMoved(t, w, tracks, i, tracks2, log, log2))
  }

  /** How the original answers one step: a copied instruction with itself, a block
      that replaces nothing not at all. */
  ghost predicate Answers(t: Rewrite, w: World, tracks: seq<Track>, choice: Choice, schedule: seq<Choice>) {
    match choice
    case Sync(_) => schedule == [] || schedule == [choice]
    case Invoke(i) =>
      && i < |tracks| && tracks[i].u < |t.units|
      && if Copied(t, w, t.units[tracks[i].u]) then schedule == [choice] else |schedule| <= |t.units[tracks[i].u].src|
  }

  /** One step of the translated program is some steps of the original. */
  lemma StepRefines(t: Rewrite, w: World, lanes: nat, c': Config, c: Config, tracks: seq<Track>, choice: Choice)
    returns (schedule: seq<Choice>, tracks2: seq<Track>)
    requires Correct(t, w) && Related(t, w, tracks, c', c) && Safe(t.Source(), w, lanes, c)
    requires Exec(t.Target(), w, lanes, c', choice).Some?
    ensures Run(t.Source(), w, lanes, c, schedule).Some?
    ensures OnlyFences(t, w) ==> schedule == [choice] || (choice.Sync? && schedule == [])
    ensures Answers(t, w, tracks, choice, schedule)
    ensures Related(t, w, tracks2, Exec(t.Target(), w, lanes, c', choice).value,
                    Run(t.Source(), w, lanes, c, schedule).value)
    ensures Moved(t, w, lanes, tracks, choice, tracks2, c'.log, Exec(t.Target(), w, lanes, c', choice).value.log,
                  |Run(t.Source(), w, lanes, c, schedule).value.log| == |c.log|)
  {
    hide Correct, Related, BlockMoved, StepLocal, CanStep, CanSync, Copied, Replaced, PassBarrier, PastUnit;
    match choice {
      case Sync(g) =>
        SyncEnabled(t, w, lanes, c', g);
        schedule, tracks2 := SyncStep(t, w, lanes, c', c, tracks, g);
      case Invoke(i) =>
        StandsAt(t, w, lanes, c', c, tracks, i);
        if Copied(t, w, t.units[tracks[i].u]) {
          tracks2 := CopyStep(t, w, lanes, c', c, tracks, i);
          schedule := [Invoke(i)];
          assert schedule[1..] == [];
        } else {
          schedule, tracks2 := BlockStep(t, w, lanes, c', c, tracks, i);
        }
    }
  }

  lemma SyncEnabled(t: Rewrite, w: World, lanes: nat, c': Config, g: nat)
    requires Exec(t.Target(), w, lanes, c', Sync(g)).Some?
    ensures CanSync(t.Target(), c', lanes, g)
    ensures Exec(t.Target(), w, lanes, c', Sync(g)).value == PassBarrier(c', g * lanes, g * lanes + lanes)
    ensures PassBarrier(c', g * lanes, g * lanes + lanes).log == c'.log
  {}

  /** An invocation that can step stands at a copied unit or in a block. */
  lemma StandsAt(t: Rewrite, w: World, lanes: nat, c': Config, c: Config, tracks: seq<Track>, i: nat)
    requires Correct(t, w) && Related(t, w, tracks, c', c) && Exec(t.Target(), w, lanes, c', Invoke(i)).Some?
    ensures i < |tracks| == |c'.locals| && CanStep(t.Target(), c'.locals[i]) && tracks[i].u < |t.units|
    ensures if Copied(t, w, t.units[tracks[i].u]) then tracks[i].j == 0 else Replaced(t, w, t.units[tracks[i].u])
    ensures OnlyFences(t, w) ==> Copied(t, w, t.units[tracks[i].u])
  {
    hide StepLocal, Agree, BlockHolds;
    var k := tracks[i];
    assert Tracked(t, w, i, k, c'.locals[i], c.locals[i]);
    PosEnd(t.units);
    assert UnitOk(t, w, t.units[k.u]);
    CodeAt(t.units, k.u);
    assert t.Target().code[c'.locals[i].pc] == t.units[k.u].dst[k.j];
  }

  lemma ErasesCons(s': seq<Choice>, first: seq<Choice>, rest: seq<Choice>)
    requires s' != [] && Erases(s'[1..], rest)
    requires first == [s'[0]] || (s'[0].Sync? && first == [])
    ensures Erases(s', first + rest)
  {
    assert first != [] ==> (first + rest)[1..] == rest;
    assert first == [] ==> first + rest == rest;
  }

  /** Refinement: every run of the translated program, under any schedule, is
      matched by a run of the original. */
  lemma {:induction false} Simulate(
      t: Rewrite, w: World, lanes: nat, c': Config, c: Config, tracks: seq<Track>, schedule': seq<Choice>)
    returns (schedule: seq<Choice>, tracks2: seq<Track>)
    requires Correct(t, w) && Related(t, w, tracks, c', c) && Safe(t.Source(), w, lanes, c)
    requires Run(t.Target(), w, lanes, c', schedule').Some?
    ensures Run(t.Source(), w, lanes, c, schedule).Some?
    ensures Related(t, w, tracks2, Run(t.Target(), w, lanes, c', schedule').value,
                    Run(t.Source(), w, lanes, c, schedule).value)
    ensures OnlyFences(t, w) ==> Erases(schedule', schedule)
    decreases |schedule'|
  {
    if schedule' == [] {
      schedule, tracks2 := [], tracks;
    } else {
      var first, tracks1 := StepRefines(t, w, lanes, c', c, tracks, schedule'[0]);
      var next' := Exec(t.Target(), w, lanes, c', schedule'[0]).value;
      var next := Run(t.Source(), w, lanes, c, first).value;
      SafeLater(t.Source(), w, lanes, c, first);
      var rest;
      rest, tracks2 := Simulate(t, w, lanes, next', next, tracks1, schedule'[1..]);
      RunAppend(t.Source(), w, lanes, c, first, rest);
      schedule := first + rest;
      if OnlyFences(t, w) { ErasesCons(schedule', first, rest); }
    }
  }

  // ---- refinement between programs ----

  /** The invocation has run off the end of its code: it can do nothing more. */
  predicate Off(p: Program, l: Local) {
    l.status.Running? && l.pc >= |p.code|
  }

  /** What the host sees of a dispatch: the memory and how each invocation
      stands. The translated program is not stuck where the original is not. */
  ghost predicate SameOutcome(p': Program, c': Config, p: Program, c: Config) {
    && c'.mem == c.mem && |c'.locals| == |c.locals|
    && forall i :: 0 <= i < |c.locals| ==>
         c'.locals[i].status == c.locals[i].status && (Off(p', c'.locals[i]) ==> Off(p, c.locals[i]))
  }

  ghost predicate Reaches(p: Program, w: World, lanes: nat, c: Config, p': Program, outcome: Config) {
    exists schedule :: Run(p, w, lanes, c, schedule).Some? && SameOutcome(p', outcome, p, Run(p, w, lanes, c, schedule).value)
  }

  /** Everything `p'` can do from `c'`, `p` can do from `c`. */
  ghost predicate Refines(p': Program, c': Config, p: Program, c: Config, w: World, lanes: nat) {
    forall schedule :: Run(p', w, lanes, c', schedule).Some? ==>
      Reaches(p, w, lanes, c, p', Run(p', w, lanes, c', schedule).value)
  }

  lemma RefinesSafe(p': Program, c': Config, p: Program, c: Config, w: World, lanes: nat)
    requires Refines(p', c', p, c, w, lanes) && Safe(p, w, lanes, c)
    ensures Safe(p', w, lanes, c')
  {
    forall s' | Run(p', w, lanes, c', s').Some?
      ensures NoFault(Run(p', w, lanes, c', s').value)
    {
      var out := Run(p', w, lanes, c', s').value;
      var s :| Run(p, w, lanes, c, s).Some? && SameOutcome(p', out, p, Run(p, w, lanes, c, s).value);
      assert NoFault(Run(p, w, lanes, c, s).value);
    }
  }

  lemma RefinesTransitive(p2: Program, c2: Config, p1: Program, c1: Config, p0: Program, c0: Config, w: World, lanes: nat)
    requires Refines(p2, c2, p1, c1, w, lanes) && Refines(p1, c1, p0, c0, w, lanes)
    ensures Refines(p2, c2, p0, c0, w, lanes)
  {
    forall s2 | Run(p2, w, lanes, c2, s2).Some?
      ensures Reaches(p0, w, lanes, c0, p2, Run(p2, w, lanes, c2, s2).value)
    {
      var s1 :| Run(p1, w, lanes, c1, s1).Some? && SameOutcome(p2, Run(p2, w, lanes, c2, s2).value, p1, Run(p1, w, lanes, c1, s1).value);
      var s0 :| Run(p0, w, lanes, c0, s0).Some? && SameOutcome(p1, Run(p1, w, lanes, c1, s1).value, p0, Run(p0, w, lanes, c0, s0).value);
      assert SameOutcome(p2, Run(p2, w, lanes, c2, s2).value, p0, Run(p0, w, lanes, c0, s0).value);
    }
  }

  lemma RefinesReflexive(p: Program, c: Config, w: World, lanes: nat)
    ensures Refines(p, c, p, c, w, lanes)
  {
    forall s | Run(p, w, lanes, c, s).Some?
      ensures Reaches(p, w, lanes, c, p, Run(p, w, lanes, c, s).value)
    {
      assert SameOutcome(p, Run(p, w, lanes, c, s).value, p, Run(p, w, lanes, c, s).value);
    }
  }

  /** A correct rewrite started at the same label of any function refines. */
  lemma RewriteRefines(t: Rewrite, w: World, lanes: nat, entry: nat, count: nat, mem: Mem)
    requires Correct(t, w)
    requires Safe(t.Source(), w, lanes, Start(t.Source(), entry, count, mem))
    ensures Refines(t.Target(), Start(t.Target(), entry, count, mem),
                    t.Source(), Start(t.Source(), entry, count, mem), w, lanes)
  {
    var c', c := Start(t.Target(), entry, count, mem), Start(t.Source(), entry, count, mem);
    var tracks := StartTracks(t, w, entry, count, mem);
    forall s' | Run(t.Target(), w, lanes, c', s').Some?
      ensures Reaches(t.Source(), w, lanes, c, t.Target(), Run(t.Target(), w, lanes, c', s').value)
    {
      var s, tracks2 := Simulate(t, w, lanes, c', c, tracks, s');
      RelatedOutcome(t, w, tracks2, Run(t.Target(), w, lanes, c', s').value, Run(t.Source(), w, lanes, c, s).value);
    }
  }

  lemma RelatedOutcome(t: Rewrite, w: World, tracks: seq<Track>, c': Config, c: Config)
    requires Correct(t, w) && Related(t, w, tracks, c', c)
    ensures SameOutcome(t.Target(), c', t.Source(), c)
  {
    PosEnd(t.units);
    forall i | 0 <= i < |c.locals|
      ensures c'.locals[i].status == c.locals[i].status && (Off(t.Target(), c'.locals[i]) ==> Off(t.Source(), c.locals[i]))
    {
      var u := tracks[i].u;
      assert Tracked(t, w, i, tracks[i], c'.locals[i], c.locals[i]);
      if c.locals[i].status.Running? && u < |t.units| {
        assert UnitOk(t, w, t.units[u]);
        CodeAt(t.units, u);
      }
    }
  }

  lemma StartTracks(t: Rewrite, w: World, entry: nat, count: nat, mem: Mem) returns (tracks: seq<Track>)
    requires Correct(t, w)
    ensures Related(t, w, tracks, Start(t.Target(), entry, count, mem), Start(t.Source(), entry, count, mem))
    ensures forall i :: 0 <= i < |tracks| ==> tracks[i].j == 0
  {
    var u := LandUnit(t, w, entry, 0);
    assert Srcs(t.units)[0..] == Srcs(t.units) && Dsts(t.units)[0..] == Dsts(t.units);
    assert Agree(t, map[], map[]);
    tracks := seq(count, _ => Track(u, 0, map[]));
    var c', c := Start(t.Target(), entry, count, mem), Start(t.Source(), entry, count, mem);
    forall i | 0 <= i < count
      ensures Tracked(t, w, i, tracks[i], c'.locals[i], c.locals[i])
    {
    }
  }
}
