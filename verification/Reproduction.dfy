/** The other direction of a rewrite's correctness: without inserted barriers the
    translated program can do everything the original does. The translation runs
    a replacement block as soon as the original enters the block it replaces. */
module Reproduction {
  import opened Words
  import opened Ops
  import opened Machine
  import opened Translation

  /** Where an invocation of the original stands: before unit `u`, with the
      translation there too, or after `j` instructions of its block, with the
      translation already past it. */
  datatype Back = At(u: nat) | In(u: nat, j: nat)

  /** What is left of the original block leads to the values the translation
      already has. */
  ghost predicate Rest(t: Rewrite, w: World, i: nat, block: seq<Inst>, env': Env, env: Env) {
    var r := RunQuiet(t.before, w, i, block, env);
    r.Done? && r.writes == [] && Agree(t, env', r.env)
  }

  ghost predicate Place(t: Rewrite, w: World, i: nat, k: Back, l': Local, l: Local) {
    match k
    case At(u) => u <= |t.units| && l.pc == SrcPos(t.units, u) && l'.pc == DstPos(t.units, u) && Agree(t, l'.env, l.env)
    case In(u, j) =>
      && u < |t.units| && 0 < j < |t.units[u].src| && Replaced(t, w, t.units[u])
      && l.pc == SrcPos(t.units, u) + j && l'.pc == DstPos(t.units, u + 1)
      && Rest(t, w, i, t.units[u].src[j..], l'.env, l.env)
  }

  ghost predicate Followed(t: Rewrite, w: World, i: nat, k: Back, l': Local, l: Local) {
    && l'.status == l.status && l'.block == l.block && l'.pred == l.pred
    && (l.status.Running? ==> Place(t, w, i, k, l', l))
  }

  ghost predicate Follows(t: Rewrite, w: World, backs: seq<Back>, c': Config, c: Config) {
    && |c'.locals| == |c.locals| == |backs|
    && (forall i :: 0 <= i < |backs| ==> Followed(t, w, i, backs[i], c'.locals[i], c.locals[i]))
    && c'.mem == c.mem
    && (t.hidden || c'.log == c.log)
  }

  ghost predicate NoFences(t: Rewrite) {
    forall u :: 0 <= u < |t.units| ==> !Fence(t.units[u])
  }

  /** All invocations but `i` stand where `backs` says. */
  ghost predicate OthersFollow(t: Rewrite, w: World, backs: seq<Back>, c': Config, c: Config, i: nat) {
    && |c'.locals| == |c.locals| == |backs| && i < |backs|
    && (forall n :: 0 <= n < |backs| && n != i ==> Followed(t, w, n, backs[n], c'.locals[n], c.locals[n]))
    && c'.mem == c.mem
    && (t.hidden || c'.log == c.log)
  }

  lemma Refollow(t: Rewrite, w: World, backs: seq<Back>, c': Config, c: Config, i: nat,
                 k: Back, l': Local, l: Local, mem: Mem, log': seq<Write>, log: seq<Write>)
    requires OthersFollow(t, w, backs, c', c, i)
    requires Followed(t, w, i, k, l', l)
    requires t.hidden || log' == log
    ensures Follows(t, w, backs[i := k], Config(c'.locals[i := l'], mem, log'), Config(c.locals[i := l], mem, log))
  {
    var locals', locals, backs2 := c'.locals[i := l'], c.locals[i := l], backs[i := k];
    forall n | 0 <= n < |backs|
      ensures Followed(t, w, n, backs2[n], locals'[n], locals[n])
    {
      if n != i { assert Followed(t, w, n, backs[n], c'.locals[n], c.locals[n]); }
    }
  }

  // ---- the translation runs ahead ----

  /** The whole replacement block of unit `u`, run by one invocation. */
  lemma RunAhead(t: Rewrite, w: World, lanes: nat, c': Config, i: nat, u: nat)
    returns (schedule: seq<Choice>)
    requires u < |t.units| && Replaced(t, w, t.units[u])
    requires i < |c'.locals| && c'.locals[i].status.Running? && c'.locals[i].pc == DstPos(t.units, u)
    requires RunQuiet(t.after, w, i, t.units[u].dst, c'.locals[i].env).Done?
    ensures var r := RunQuiet(t.after, w, i, t.units[u].dst, c'.locals[i].env);
      Run(t.Target(), w, lanes, c', schedule) ==
        Some(Config(c'.locals[i := c'.locals[i].(pc := DstPos(t.units, u + 1), env := r.env)], c'.mem, c'.log + r.writes))
  {
    CodeAt(t.units, u);
    PosStep(t.units, u);
    schedule := QuietSchedule(t.Target(), w, lanes, c', i, t.units[u].dst);
  }

  predicate Settled(t: Rewrite, k: Back) {
    k.At? ==> k.u >= |t.units| || t.units[k.u].src != []
  }

  /** One block that replaces nothing. */
  lemma SettleOne(t: Rewrite, w: World, lanes: nat, c': Config, c: Config, backs: seq<Back>, i: nat) returns (schedule: seq<Choice>)
    requires Correct(t, w) && NoFences(t) && Follows(t, w, backs, c', c) && i < |backs|
    requires c.locals[i].status.Running? && !Settled(t, backs[i])
    ensures Run(t.Target(), w, lanes, c', schedule).Some? && backs[i].u < |t.units|
    ensures Follows(t, w, backs[i := At(backs[i].u + 1)], Run(t.Target(), w, lanes, c', schedule).value, c)
  {
    hide RunQuiet, Act, Exec;
    var l', l, k := c'.locals[i], c.locals[i], backs[i];
    assert Followed(t, w, i, k, l', l);
    assert UnitOk(t, w, t.units[k.u]);
    assert BlockHolds(t, w, t.units[k.u], i, l'.env, l.env);
    NothingRuns(t, w, i, l.env);
    var r := RunQuiet(t.after, w, i, t.units[k.u].dst, l'.env);
    schedule := RunAhead(t, w, lanes, c', i, k.u);
    PosStep(t.units, k.u);
    assert t.hidden || c'.log + r.writes == c'.log;
    Refollow(t, w, backs, c', c, i, At(k.u + 1), l'.(pc := DstPos(t.units, k.u + 1), env := r.env), l, c.mem, c'.log + r.writes, c.log);
    assert c.locals[i := l] == c.locals;
  }

  lemma NothingRuns(t: Rewrite, w: World, i: nat, env: Env)
    ensures RunQuiet(t.before, w, i, [], env) == Done(env, [])
  {}

  lemma FollowsSame(t: Rewrite, w: World, backs: seq<Back>, c': Config, c: Config)
    requires Follows(t, w, backs, c', c)
    ensures |backs| == |c.locals| == |c'.locals|
  {}

  /** The translation runs blocks that replace nothing as soon as it meets them. */
  lemma Settle(t: Rewrite, w: World, lanes: nat, c': Config, c: Config, backs: seq<Back>, i: nat)
    returns (schedule: seq<Choice>, k: Back)
    requires Correct(t, w) && NoFences(t) && Follows(t, w, backs, c', c) && i < |backs|
    ensures Run(t.Target(), w, lanes, c', schedule).Some?
    ensures Follows(t, w, backs[i := k], Run(t.Target(), w, lanes, c', schedule).value, c)
    ensures i < |c.locals| && (c.locals[i].status.Running? ==> Settled(t, k))
    decreases |t.units| - backs[i].u
  {
    hide Follows, Correct, NoFences, Exec;
    FollowsSame(t, w, backs, c', c);
    k := backs[i];
    if !c.locals[i].status.Running? || Settled(t, k) {
      schedule := [];
      assert backs[i := k] == backs;
    } else {
      var first := SettleOne(t, w, lanes, c', c, backs, i);
      var next := Run(t.Target(), w, lanes, c', first).value;
      var rest;
      rest, k := Settle(t, w, lanes, next, c, backs[i := At(backs[i].u + 1)], i);
      RunAppend(t.Target(), w, lanes, c', first, rest);
      schedule := first + rest;
      assert backs[i := At(backs[i].u + 1)][i := k] == backs[i := k];
    }
  }

  ghost predicate SettledAll(t: Rewrite, backs: seq<Back>, c: Config, lo: nat, hi: nat)
    requires |backs| == |c.locals| && hi <= |backs|
  {
    forall i :: lo <= i < hi && c.locals[i].status.Running? ==> Settled(t, backs[i])
  }

  lemma {:induction false} SettleRange(t: Rewrite, w: World, lanes: nat, c': Config, c: Config, backs: seq<Back>, lo: nat, hi: nat)
    returns (schedule: seq<Choice>, backs2: seq<Back>)
    requires Correct(t, w) && NoFences(t) && Follows(t, w, backs, c', c) && lo <= hi <= |backs|
    ensures Run(t.Target(), w, lanes, c', schedule).Some?
    ensures Follows(t, w, backs2, Run(t.Target(), w, lanes, c', schedule).value, c)
    ensures SettledAll(t, backs2, c, lo, hi)
    ensures forall i :: 0 <= i < |backs| && !(lo <= i < hi) ==> backs2[i] == backs[i]
    decreases hi - lo
  {
    if lo == hi {
      schedule, backs2 := [], backs;
    } else {
      var first, k := Settle(t, w, lanes, c', c, backs, lo);
      var next := Run(t.Target(), w, lanes, c', first).value;
      var rest;
      rest, backs2 := SettleRange(t, w, lanes, next, c, backs[lo := k], lo + 1, hi);
      RunAppend(t.Target(), w, lanes, c', first, rest);
      schedule := first + rest;
      assert backs2[lo] == k;
    }
  }

  // ---- one step of the original ----

  /** The next instruction of a block the translation is already past. */
  ghost predicate Inner(t: Rewrite, w: World, i: nat, u: nat, j: nat, l': Local, l: Local) {
    && l'.status == l.status && l'.block == l.block && l'.pred == l.pred && l.status.Running?
    && u < |t.units| && j < |t.units[u].src| && Replaced(t, w, t.units[u])
    && l.pc == SrcPos(t.units, u) + j && l'.pc == DstPos(t.units, u + 1)
    && Rest(t, w, i, t.units[u].src[j..], l'.env, l.env)
  }

  lemma InnerLocal(t: Rewrite, w: World, i: nat, u: nat, j: nat, l': Local, l: Local) returns (k: Back, env2: Env)
    requires Inner(t, w, i, u, j, l', l)
    ensures var a := Act(t.before, w, i, t.units[u].src[j], l.env); a.Set? && env2 == l.env[a.id := a.value]
    ensures Followed(t, w, i, k, l', l.(pc := l.pc + 1, env := env2))
  {
    var src := t.units[u].src;
    PosStep(t.units, u);
    assert src[j..][0] == src[j] && src[j..][1..] == src[j + 1..];
    var a := Act(t.before, w, i, src[j], l.env);
    env2 := if a.Set? then l.env[a.id := a.value] else l.env;
    var rest, more := src[j..], src[j + 1..];
    assert RunQuiet(t.before, w, i, rest, l.env) == RunQuiet(t.before, w, i, more, env2);
    if j + 1 == |src| { assert more == [] && RunQuiet(t.before, w, i, more, env2) == Done(env2, []); }
    k := if j + 1 < |src| then In(u, j + 1) else At(u + 1);
  }

  lemma InnerStep(t: Rewrite, w: World, lanes: nat, c': Config, c: Config, backs: seq<Back>, i: nat, u: nat, j: nat)
    returns (k: Back)
    requires OthersFollow(t, w, backs, c', c, i) && Inner(t, w, i, u, j, c'.locals[i], c.locals[i])
    ensures Exec(t.Source(), w, lanes, c, Invoke(i)).Some?
    ensures Follows(t, w, backs[i := k], c', Exec(t.Source(), w, lanes, c, Invoke(i)).value)
  {
    var l', l, src := c'.locals[i], c.locals[i], t.units[u].src;
    CodeAt(t.units, u);
    var code, rest := t.Source().code, src[j..];
    assert code[l.pc..l.pc + |rest|] == code[SrcPos(t.units, u)..SrcPos(t.units, u) + |src|][j..];
    QuietHead(t.Source(), w, lanes, c, i, rest);
    var env2;
    k, env2 := InnerLocal(t, w, i, u, j, l', l);
    Refollow(t, w, backs, c', c, i, k, l', l.(pc := l.pc + 1, env := env2), c.mem, c'.log, c.log);
    assert c'.locals[i := l'] == c'.locals && c.log + [] == c.log;
  }

  /** Entering a block: the translation runs all of its own. */
  lemma EnterBlock(t: Rewrite, w: World, lanes: nat, c': Config, c: Config, backs: seq<Back>, i: nat)
    returns (schedule: seq<Choice>, k: Back)
    requires Correct(t, w) && Safe(t.Source(), w, lanes, c) && Follows(t, w, backs, c', c) && i < |backs|
    requires c.locals[i].status.Running? && backs[i].At? && backs[i].u < |t.units|
    requires t.units[backs[i].u].src != [] && Replaced(t, w, t.units[backs[i].u])
    ensures Run(t.Target(), w, lanes, c', schedule).Some? && Exec(t.Source(), w, lanes, c, Invoke(i)).Some?
    ensures Follows(t, w, backs[i := k], Run(t.Target(), w, lanes, c', schedule).value, Exec(t.Source(), w, lanes, c, Invoke(i)).value)
  {
    var u, l', l := backs[i].u, c'.locals[i], c.locals[i];
    assert Followed(t, w, i, backs[i], l', l);
    var whole, env := BlockRuns(t, w, lanes, c, i, u, l'.env);
    schedule := RunAhead(t, w, lanes, c', i, u);
    var next := Run(t.Target(), w, lanes, c', schedule).value;
    var r := RunQuiet(t.after, w, i, t.units[u].dst, l'.env);
    assert t.hidden || c'.log + r.writes == c'.log;
    assert t.units[u].src[0..] == t.units[u].src;
    k := InnerStep(t, w, lanes, next, c, backs, i, u, 0);
  }

  /** A copied instruction. */
  lemma CopyBoth(t: Rewrite, w: World, lanes: nat, c': Config, c: Config, backs: seq<Back>, i: nat)
    returns (k: Back)
    requires Correct(t, w) && Follows(t, w, backs, c', c) && i < |backs| && CanStep(t.Source(), c.locals[i])
    requires backs[i].At? && backs[i].u < |t.units| && Copied(t, w, t.units[backs[i].u])
    ensures Exec(t.Target(), w, lanes, c', Invoke(i)).Some? && Exec(t.Source(), w, lanes, c, Invoke(i)).Some?
    ensures Follows(t, w, backs[i := k], Exec(t.Target(), w, lanes, c', Invoke(i)).value, Exec(t.Source(), w, lanes, c, Invoke(i)).value)
  {
    var u, l', l := backs[i].u, c'.locals[i], c.locals[i];
    assert Followed(t, w, i, backs[i], l', l);
    CodeAt(t.units, u);
    assert t.Source().code[l.pc] == t.units[u].src[0] == t.Target().code[l'.pc];
    var track := CopyLocal(t, w, i, Track(u, 0, l'.env), l', l, c.mem, c'.log, c.log);
    var s', s := StepLocal(t.Target(), w, i, l', c.mem, c'.log), StepLocal(t.Source(), w, i, l, c.mem, c.log);
    k := At(track.u);
    CopyLands(t, w, i, track, s'.local, s.local);
    Refollow(t, w, backs, c', c, i, k, s'.local, s.local, s.mem, s'.log, s.log);
  }

  /** After a copied instruction both stand before a unit. */
  lemma CopyLands(t: Rewrite, w: World, i: nat, track: Track, l': Local, l: Local)
    requires Tracked(t, w, i, track, l', l) && track.j == 0
    ensures Followed(t, w, i, At(track.u), l', l)
  {}

  /** One invocation of the original moves. */
  lemma InvokeBoth(t: Rewrite, w: World, lanes: nat, c': Config, c: Config, backs: seq<Back>, i: nat)
    returns (schedule: seq<Choice>, k: Back)
    requires Correct(t, w) && NoFences(t) && Safe(t.Source(), w, lanes, c) && Follows(t, w, backs, c', c)
    requires SettledAll(t, backs, c, 0, |backs|) && i < |backs| && CanStep(t.Source(), c.locals[i])
    ensures Exec(t.Source(), w, lanes, c, Invoke(i)).Some? && Run(t.Target(), w, lanes, c', schedule).Some?
    ensures Follows(t, w, backs[i := k], Run(t.Target(), w, lanes, c', schedule).value, Exec(t.Source(), w, lanes, c, Invoke(i)).value)
  {
    assert Followed(t, w, i, backs[i], c'.locals[i], c.locals[i]);
    match backs[i] {
      case In(u, j) =>
        schedule := [];
        k := InnerStep(t, w, lanes, c', c, backs, i, u, j);
      case At(u) =>
        PosEnd(t.units);
        assert Settled(t, backs[i]);
        assert u < |t.units|;
        assert UnitOk(t, w, t.units[u]) && !Fence(t.units[u]);
        if Copied(t, w, t.units[u]) {
          k := CopyBoth(t, w, lanes, c', c, backs, i);
          schedule := [Invoke(i)];
          assert schedule[1..] == [];
        } else {
          schedule, k := EnterBlock(t, w, lanes, c', c, backs, i);
        }
    }
  }

  // ---- barriers ----

  lemma {:induction false} SrcMonotone(units: seq<Unit>, u: nat, v: nat)
    requires u <= v <= |units|
    ensures SrcPos(units, u) <= SrcPos(units, v)
    decreases v - u
  {
    if u < v {
      PosStep(units, v - 1);
      SrcMonotone(units, u, v - 1);
    }
  }

  /** An invocation of the original that waits at a barrier has the translation
      waiting at the same one. */
  lemma WaitingAt(t: Rewrite, w: World, i: nat, k: Back, l': Local, l: Local)
    requires Correct(t, w) && NoFences(t) && Followed(t, w, i, k, l', l) && AtBarrier(t.Source(), l) && Settled(t, k)
    ensures k.At? && k.u < |t.units| && Copied(t, w, t.units[k.u]) && AtBarrier(t.Target(), l')
  {
    PosEnd(t.units);
    match k {
      case At(u) =>
        assert u < |t.units|;
        CodeAt(t.units, u);
        assert UnitOk(t, w, t.units[u]);
        assert t.Source().code[l.pc] == t.units[u].src[0];
        assert t.Target().code[l'.pc] == t.units[u].dst[0];
      case In(u, j) =>
        InsideBlock(t, w, u, j);
    }
  }

  /** No instruction of a replaced block is a barrier. */
  lemma InsideBlock(t: Rewrite, w: World, u: nat, j: nat)
    requires u < |t.units| && j < |t.units[u].src| && Replaced(t, w, t.units[u])
    ensures SrcPos(t.units, u) + j < |t.Source().code|
    ensures Op(t.Source().code[SrcPos(t.units, u) + j]) != CONTROL_BARRIER
  {
    CodeAt(t.units, u);
    assert t.Source().code[SrcPos(t.units, u) + j] == t.units[u].src[j];
  }

  ghost function PastBarrier(backs: seq<Back>, lo: nat, hi: nat): seq<Back> {
    seq(|backs|, i requires 0 <= i < |backs| => if lo <= i < hi && backs[i].At? then At(backs[i].u + 1) else backs[i])
  }

  lemma SyncBoth(t: Rewrite, w: World, lanes: nat, c': Config, c: Config, backs: seq<Back>, g: nat)
    requires Correct(t, w) && NoFences(t) && Follows(t, w, backs, c', c)
    requires SettledAll(t, backs, c, 0, |backs|) && CanSync(t.Source(), c, lanes, g)
    ensures CanSync(t.Target(), c', lanes, g)
    ensures Follows(t, w, PastBarrier(backs, g * lanes, g * lanes + lanes),
                    PassBarrier(c', g * lanes, g * lanes + lanes), PassBarrier(c, g * lanes, g * lanes + lanes))
  {
    var lo, hi := g * lanes, g * lanes + lanes;
    forall i | lo <= i < hi
      ensures AtBarrier(t.Target(), c'.locals[i]) && backs[i].At? && backs[i].u == backs[lo].u
      ensures backs[i].u < |t.units| && Copied(t, w, t.units[backs[i].u])
      ensures c'.locals[i].pc == c'.locals[lo].pc
    {
      assert AtBarrier(t.Source(), c.locals[i]) && AtBarrier(t.Source(), c.locals[lo]);
      assert Followed(t, w, i, backs[i], c'.locals[i], c.locals[i]);
      assert Followed(t, w, lo, backs[lo], c'.locals[lo], c.locals[lo]);
      WaitingAt(t, w, i, backs[i], c'.locals[i], c.locals[i]);
      WaitingAt(t, w, lo, backs[lo], c'.locals[lo], c.locals[lo]);
      PosStep(t.units, backs[i].u);
      PosStep(t.units, backs[lo].u);
      if backs[i].u < backs[lo].u { SrcMonotone(t.units, backs[i].u + 1, backs[lo].u); }
      if backs[lo].u < backs[i].u { SrcMonotone(t.units, backs[lo].u + 1, backs[i].u); }
    }
    forall i | 0 <= i < |backs|
      ensures Followed(t, w, i, PastBarrier(backs, lo, hi)[i], PassBarrier(c', lo, hi).locals[i], PassBarrier(c, lo, hi).locals[i])
    {
      assert Followed(t, w, i, backs[i], c'.locals[i], c.locals[i]);
      if lo <= i < hi { PosStep(t.units, backs[i].u); }
    }
  }

  // ---- whole runs ----

  lemma StepBoth(t: Rewrite, w: World, lanes: nat, c': Config, c: Config, backs: seq<Back>, choice: Choice)
    returns (schedule: seq<Choice>, backs2: seq<Back>)
    requires Correct(t, w) && NoFences(t) && Safe(t.Source(), w, lanes, c) && Follows(t, w, backs, c', c)
    requires SettledAll(t, backs, c, 0, |backs|) && Exec(t.Source(), w, lanes, c, choice).Some?
    ensures Run(t.Target(), w, lanes, c', schedule).Some?
    ensures Follows(t, w, backs2, Run(t.Target(), w, lanes, c', schedule).value, Exec(t.Source(), w, lanes, c, choice).value)
  {
    match choice {
      case Invoke(i) =>
        var k;
        schedule, k := InvokeBoth(t, w, lanes, c', c, backs, i);
        backs2 := backs[i := k];
      case Sync(g) =>
        SyncBoth(t, w, lanes, c', c, backs, g);
        schedule := [choice];
        assert schedule[1..] == [];
        backs2 := PastBarrier(backs, g * lanes, g * lanes + lanes);
    }
  }

  /** Every run of the original is matched by a run of the translation. */
  lemma {:induction false} Reproduce(t: Rewrite, w: World, lanes: nat, c': Config, c: Config, backs: seq<Back>, schedule: seq<Choice>)
    returns (schedule': seq<Choice>, backs2: seq<Back>)
    requires Correct(t, w) && NoFences(t) && Safe(t.Source(), w, lanes, c) && Follows(t, w, backs, c', c)
    requires SettledAll(t, backs, c, 0, |backs|) && Run(t.Source(), w, lanes, c, schedule).Some?
    ensures Run(t.Target(), w, lanes, c', schedule').Some?
    ensures var out', out := Run(t.Target(), w, lanes, c', schedule').value, Run(t.Source(), w, lanes, c, schedule).value;
      Follows(t, w, backs2, out', out) && SettledAll(t, backs2, out, 0, |backs2|)
    decreases |schedule|
  {
    if schedule == [] {
      schedule', backs2 := [], backs;
    } else {
      var first, backs1 := StepBoth(t, w, lanes, c', c, backs, schedule[0]);
      var next', next := Run(t.Target(), w, lanes, c', first).value, Exec(t.Source(), w, lanes, c, schedule[0]).value;
      var settle, backs3 := SettleRange(t, w, lanes, next', next, backs1, 0, |backs1|);
      var settled := Run(t.Target(), w, lanes, next', settle).value;
      RunAppend(t.Target(), w, lanes, c', first, settle);
      SafeAfter(t.Source(), w, lanes, c, schedule[0]);
      var rest;
      rest, backs2 := Reproduce(t, w, lanes, settled, next, backs3, schedule[1..]);
      RunAppend(t.Target(), w, lanes, c', first + settle, rest);
      schedule' := first + settle + rest;
    }
  }

  lemma SafeAfter(p: Program, w: World, lanes: nat, c: Config, choice: Choice)
    requires Safe(p, w, lanes, c) && Exec(p, w, lanes, c, choice).Some?
    ensures Safe(p, w, lanes, Exec(p, w, lanes, c, choice).value)
  {
    var one := [choice];
    assert one[1..] == [];
    assert Run(p, w, lanes, c, one) == Exec(p, w, lanes, c, choice);
    SafeLater(p, w, lanes, c, one);
  }

  lemma FollowedOutcome(t: Rewrite, w: World, backs: seq<Back>, c': Config, c: Config)
    requires Correct(t, w) && Follows(t, w, backs, c', c) && SettledAll(t, backs, c, 0, |backs|)
    ensures SameOutcome(t.Source(), c, t.Target(), c')
  {
    PosEnd(t.units);
    forall i | 0 <= i < |c.locals|
      ensures c.locals[i].status == c'.locals[i].status && (Off(t.Source(), c.locals[i]) ==> Off(t.Target(), c'.locals[i]))
    {
      assert Followed(t, w, i, backs[i], c'.locals[i], c.locals[i]);
      if c.locals[i].status.Running? && backs[i].u < |t.units| {
        CodeAt(t.units, backs[i].u);
        assert Settled(t, backs[i]);
      }
    }
  }

  /** A correct rewrite without fences reproduces whatever the original does. */
  lemma RewriteReproduces(t: Rewrite, w: World, lanes: nat, entry: nat, count: nat, mem: Mem)
    requires Correct(t, w) && NoFences(t)
    requires Safe(t.Source(), w, lanes, Start(t.Source(), entry, count, mem))
    ensures Refines(t.Source(), Start(t.Source(), entry, count, mem),
                    t.Target(), Start(t.Target(), entry, count, mem), w, lanes)
  {
    var c', c := Start(t.Target(), entry, count, mem), Start(t.Source(), entry, count, mem);
    var tracks := StartTracks(t, w, entry, count, mem);
    var backs := seq(count, i requires 0 <= i < count => At(tracks[i].u));
    forall i | 0 <= i < count
      ensures Followed(t, w, i, backs[i], c'.locals[i], c.locals[i])
    {
      assert Tracked(t, w, i, tracks[i], c'.locals[i], c.locals[i]);
    }
    var settle, backs1 := SettleRange(t, w, lanes, c', c, backs, 0, count);
    var settled := Run(t.Target(), w, lanes, c', settle).value;
    forall s | Run(t.Source(), w, lanes, c, s).Some?
      ensures Reaches(t.Target(), w, lanes, c', t.Source(), Run(t.Source(), w, lanes, c, s).value)
    {
      var s', backs2 := Reproduce(t, w, lanes, settled, c, backs1, s);
      RunAppend(t.Target(), w, lanes, c', settle, s');
      FollowedOutcome(t, w, backs2, Run(t.Target(), w, lanes, settled, s').value, Run(t.Source(), w, lanes, c, s).value);
    }
  }

  /** Each can do exactly what the other can. */
  ghost predicate Equivalent(p': Program, c': Config, p: Program, c: Config, w: World, lanes: nat) {
    Refines(p', c', p, c, w, lanes) && Refines(p, c, p', c', w, lanes)
  }

  lemma EquivalentTransitive(p2: Program, c2: Config, p1: Program, c1: Config, p0: Program, c0: Config, w: World, lanes: nat)
    requires Equivalent(p2, c2, p1, c1, w, lanes) && Equivalent(p1, c1, p0, c0, w, lanes)
    ensures Equivalent(p2, c2, p0, c0, w, lanes)
  {
    RefinesTransitive(p2, c2, p1, c1, p0, c0, w, lanes);
    RefinesTransitive(p0, c0, p1, c1, p2, c2, w, lanes);
  }

  lemma RewriteEquivalent(t: Rewrite, w: World, lanes: nat, entry: nat, count: nat, mem: Mem)
    requires Correct(t, w) && NoFences(t)
    requires Safe(t.Source(), w, lanes, Start(t.Source(), entry, count, mem))
    ensures Equivalent(t.Target(), Start(t.Target(), entry, count, mem),
                       t.Source(), Start(t.Source(), entry, count, mem), w, lanes)
  {
    RewriteRefines(t, w, lanes, entry, count, mem);
    RewriteReproduces(t, w, lanes, entry, count, mem);
  }
}
