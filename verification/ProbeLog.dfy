/** What the probe buffer receives. Many invocations write it one word at a time
    in any order, yet when none stands inside a block it has received exactly the
    words of whole blocks. */
module ProbeLog {
  import opened Words
  import opened Ops
  import opened Machine
  import opened Translation
  import opened Meaning

  /** Invocation `inv` went through the block of unit `u`, which it entered with `env`. */
  datatype Visit = Visit(inv: nat, u: nat, env: Env)

  ghost function Total(t: Rewrite, w: World, v: Visit): seq<Write>
    requires v.u < |t.units|
  {
    var r := RunQuiet(t.after, w, v.inv, t.units[v.u].dst, v.env);
    if r.Done? then r.writes else []
  }

  ghost predicate AllIn(writes: seq<Write>, log: seq<Write>) {
    forall x :: x in writes ==> x in log
  }

  ghost predicate Current(tracks: seq<Track>, v: Visit) {
    v.inv < |tracks| && tracks[v.inv].j > 0 && tracks[v.inv].u == v.u && tracks[v.inv].env0 == v.env
  }

  ghost predicate FromVisit(t: Rewrite, w: World, visits: seq<Visit>, x: Write) {
    exists n :: 0 <= n < |visits| && visits[n].u < |t.units| && x in Total(t, w, visits[n])
  }

  ghost predicate VisitOk(t: Rewrite, w: World, tracks: seq<Track>, log: seq<Write>, v: Visit) {
    && v.u < |t.units| && Replaced(t, w, t.units[v.u]) && !Copied(t, w, t.units[v.u]) && v.inv < |tracks|
    && (AllIn(Total(t, w, v), log) || Current(tracks, v))
  }

  /** The part of its block that an invocation has behind it is in the log. */
  ghost predicate TrackOk(t: Rewrite, w: World, visits: seq<Visit>, log: seq<Write>, i: nat, k: Track) {
    k.j > 0 ==>
      && k.u < |t.units| && k.j <= |t.units[k.u].dst| && Visit(i, k.u, k.env0) in visits
      && var r := RunQuiet(t.after, w, i, t.units[k.u].dst[..k.j], k.env0);
         r.Done? && AllIn(r.writes, log)
  }

  ghost predicate Logged(t: Rewrite, w: World, tracks: seq<Track>, visits: seq<Visit>, log: seq<Write>) {
    && (forall x :: x in log ==> FromVisit(t, w, visits, x))
    && (forall n :: 0 <= n < |visits| ==> VisitOk(t, w, tracks, log, visits[n]))
    && (forall i :: 0 <= i < |tracks| ==> TrackOk(t, w, visits, log, i, tracks[i]))
  }

  /** The program writes nothing to the probe buffer. */
  ghost predicate Silent(p: Program, w: World, lanes: nat, c: Config) {
    forall schedule :: Run(p, w, lanes, c, schedule).Some? ==> Run(p, w, lanes, c, schedule).value.log == []
  }

  lemma SilentLater(p: Program, w: World, lanes: nat, c: Config, schedule: seq<Choice>)
    requires Silent(p, w, lanes, c) && Run(p, w, lanes, c, schedule).Some?
    ensures Silent(p, w, lanes, Run(p, w, lanes, c, schedule).value)
  {
    var later := Run(p, w, lanes, c, schedule).value;
    forall more | Run(p, w, lanes, later, more).Some?
      ensures Run(p, w, lanes, later, more).value.log == []
    {
      RunAppend(p, w, lanes, c, schedule, more);
    }
  }

  lemma PrefixWrites(t: Rewrite, w: World, i: nat, dst: seq<Inst>, j: nat, env: Env)
    requires j <= |dst| && RunQuiet(t.after, w, i, dst, env).Done?
    ensures RunQuiet(t.after, w, i, dst[..j], env).Done?
    ensures RunQuiet(t.after, w, i, dst[..j], env).writes <= RunQuiet(t.after, w, i, dst, env).writes
  {
    assert dst == dst[..j] + dst[j..];
    RunQuietAppend(t.after, w, i, dst[..j], dst[j..], env);
  }

  /** A step outside every block. */
  lemma LoggedAside(t: Rewrite, w: World, tracks: seq<Track>, visits: seq<Visit>, log: seq<Write>, tracks2: seq<Track>)
    requires Logged(t, w, tracks, visits, log) && |tracks2| == |tracks|
    requires forall i :: 0 <= i < |tracks| ==> tracks2[i] == tracks[i] || (tracks[i].j == 0 && tracks2[i].j == 0)
    ensures Logged(t, w, tracks2, visits, log)
  {
    hide Total, RunQuiet, AllIn, Replaced;
    forall n | 0 <= n < |visits|
      ensures VisitOk(t, w, tracks2, log, visits[n])
    {
      assert VisitOk(t, w, tracks, log, visits[n]);
    }
    forall i | 0 <= i < |tracks2|
      ensures TrackOk(t, w, visits, log, i, tracks2[i])
    {
      assert TrackOk(t, w, visits, log, i, tracks[i]);
    }
  }

  /** The visit that invocation `i` is on after one instruction of a block. */
  ghost function Enter(visits: seq<Visit>, v: Visit): seq<Visit> {
    if v in visits then visits else visits + [v]
  }

  /** The words written so far in a block, with those of one more instruction. */
  lemma BlockWords(t: Rewrite, w: World, tracks: seq<Track>, visits: seq<Visit>, log: seq<Write>, i: nat, tracks2: seq<Track>, log2: seq<Write>)
    requires Logged(t, w, tracks, visits, log) && BlockMoved(t, w, tracks, i, tracks2, log, log2)
    ensures var k := tracks[i]; var dst := t.units[k.u].dst;
      var now := RunQuiet(t.after, w, i, dst[..k.j + 1], k.env0);
      && now.Done? && AllIn(now.writes, log2)
      && AllIn(log2[|log|..], Total(t, w, Visit(i, k.u, k.env0)))
      && (k.j + 1 == |dst| ==> Total(t, w, Visit(i, k.u, k.env0)) == now.writes)
      && AllIn(log, log2)
  {
    var k := tracks[i];
    var dst := t.units[k.u].dst;
    assert TrackOk(t, w, visits, log, i, k);
    PrefixWrites(t, w, i, dst, k.j + 1, k.env0);
    if k.j == 0 { assert dst[..0] == []; }
    if k.j + 1 == |dst| { assert dst[..k.j + 1] == dst; }
    assert log2 == log + log2[|log|..];
    var was, now := RunQuiet(t.after, w, i, dst[..k.j], k.env0), RunQuiet(t.after, w, i, dst[..k.j + 1], k.env0);
    var total := Total(t, w, Visit(i, k.u, k.env0));
    forall x | x in log2[|log|..]
      ensures x in total
    {
      assert x in now.writes;
      var n :| 0 <= n < |now.writes| && now.writes[n] == x;
      assert total[n] == x;
    }
  }

  lemma LoggedBlock(t: Rewrite, w: World, tracks: seq<Track>, visits: seq<Visit>, log: seq<Write>, i: nat, tracks2: seq<Track>, log2: seq<Write>)
    requires Logged(t, w, tracks, visits, log) && BlockMoved(t, w, tracks, i, tracks2, log, log2)
    requires Replaced(t, w, t.units[tracks[i].u]) && !Copied(t, w, t.units[tracks[i].u])
    ensures Logged(t, w, tracks2, Enter(visits, Visit(i, tracks[i].u, tracks[i].env0)), log2)
  {
    hide Total, RunQuiet, Replaced, Advances;
    var k := tracks[i];
    var v := Visit(i, k.u, k.env0);
    var visits2 := Enter(visits, v);
    BlockWords(t, w, tracks, visits, log, i, tracks2, log2);
    assert v in visits2;
    forall x | x in log2
      ensures FromVisit(t, w, visits2, x)
    {
      if x in log {
        var n :| 0 <= n < |visits| && visits[n].u < |t.units| && x in Total(t, w, visits[n]);
        assert visits2[n] == visits[n];
      } else {
        assert x in log2[|log|..] by { assert log2 == log + log2[|log|..]; }
        var n :| 0 <= n < |visits2| && visits2[n] == v;
      }
    }
    forall n | 0 <= n < |visits2|
      ensures VisitOk(t, w, tracks2, log2, visits2[n])
    {
      if n < |visits| { assert visits2[n] == visits[n] && VisitOk(t, w, tracks, log, visits[n]); }
    }
    forall n | 0 <= n < |tracks2|
      ensures TrackOk(t, w, visits2, log2, n, tracks2[n])
    {
      assert TrackOk(t, w, visits, log, n, tracks[n]);
    }
  }

  lemma SilentNow(p: Program, w: World, lanes: nat, c: Config)
    requires Silent(p, w, lanes, c)
    ensures c.log == []
  {
    assert Run(p, w, lanes, c, []) == Some(c);
  }

  /** No invocation stands inside a block. */
  ghost predicate AtRest(tracks: seq<Track>) {
    forall i :: 0 <= i < |tracks| ==> tracks[i].j == 0
  }

  /** Every word in the log is of some visit to a block, and all words of every
      visit are in the log. */
  ghost predicate WholeBlocks(t: Rewrite, w: World, visits: seq<Visit>, log: seq<Write>) {
    && (forall x :: x in log ==> FromVisit(t, w, visits, x))
    && forall n :: 0 <= n < |visits| ==>
         visits[n].u < |t.units| && !Copied(t, w, t.units[visits[n].u]) && AllIn(Total(t, w, visits[n]), log)
  }

  lemma StartLogged(t: Rewrite, w: World, tracks: seq<Track>)
    requires AtRest(tracks)
    ensures Logged(t, w, tracks, [], [])
  {}

  /** When no invocation stands inside a block, the log is made of whole blocks. */
  lemma WholeLog(t: Rewrite, w: World, tracks: seq<Track>, visits: seq<Visit>, log: seq<Write>)
    requires Logged(t, w, tracks, visits, log) && AtRest(tracks)
    ensures WholeBlocks(t, w, visits, log)
    ensures forall n :: 0 <= n < |visits| ==> visits[n].inv < |tracks|
  {
    hide Total, Replaced, RunQuiet;
    forall n | 0 <= n < |visits|
      ensures visits[n].u < |t.units| && !Copied(t, w, t.units[visits[n].u]) && AllIn(Total(t, w, visits[n]), log) && visits[n].inv < |tracks|
    {
      assert VisitOk(t, w, tracks, log, visits[n]);
    }
  }

  lemma {:induction false} RunCount(p: Program, w: World, lanes: nat, c: Config, schedule: seq<Choice>)
    requires Run(p, w, lanes, c, schedule).Some?
    ensures |Run(p, w, lanes, c, schedule).value.locals| == |c.locals|
    decreases |schedule|
  {
    if schedule != [] { RunCount(p, w, lanes, Exec(p, w, lanes, c, schedule[0]).value, schedule[1..]); }
  }

  // ---- a source that does not know the probe buffer ----

  /** Nothing in the value points to the probe variable. */
  ghost predicate Away(w: World, v: Val) {
    match v
    case Ptr(root, _) => root != w.debug
    case Composite(parts) => forall i :: 0 <= i < |parts| ==> Away(w, parts[i])
    case _ => true
  }

  /** What the program does not compute itself never points to the probe variable. */
  ghost predicate Discreet(w: World) {
    && (forall inst, view, mem, inv, pred :: Away(w, w.ext(inst, view, mem, inv, pred).value))
    && (forall inv, root, path :: w.input(inv, root, path).Some? ==> Away(w, w.input(inv, root, path).value))
    && (forall inst :: Away(w, w.constant(inst)))
    && (forall inst, vals :: Away(w, w.specOp(inst, vals)))
  }

  ghost predicate EnvAway(w: World, env: Env) {
    forall id :: id in env ==> Away(w, env[id])
  }

  ghost predicate ConfigAway(w: World, c: Config) {
    forall i :: 0 <= i < |c.locals| ==> EnvAway(w, c.locals[i].env)
  }

  /** Then no store reaches the probe buffer. */
  lemma ActAway(st: Statics, w: World, inv: nat, inst: Inst, env: Env)
    requires Discreet(w) && EnvAway(w, st.consts) && EnvAway(w, env)
    ensures var a := Act(st, w, inv, inst, env); !a.Emit? && (a.Set? ==> Away(w, a.value))
  {
    hide Private, Arith, RomValue;
    if Op(inst) == LOAD && |inst| >= 4 {
      RomAway(st, w, inst, env);
    }
  }

  lemma RomAway(st: Statics, w: World, inst: Inst, env: Env)
    ensures forall buffer, root, path, modulus :: buffer in w.rom ==>
      RomValue(w, buffer, root, path, modulus).Some? ==> RomValue(w, buffer, root, path, modulus).value.Scalar?
  {}

  lemma ExecAway(p: Program, w: World, lanes: nat, c: Config, choice: Choice)
    requires Discreet(w) && EnvAway(w, p.statics.consts) && ConfigAway(w, c) && Exec(p, w, lanes, c, choice).Some?
    ensures ConfigAway(w, Exec(p, w, lanes, c, choice).value) && Exec(p, w, lanes, c, choice).value.log == c.log
  {
    hide Act, Private, Discreet;
    if choice.Invoke? {
      var i := choice.i;
      var inst := p.code[c.locals[i].pc];
      ActAway(p.statics, w, i, inst, c.locals[i].env);
      ExtAway(w, inst, View(p.statics, c.locals[i].env, Reads(w, inst)), c.mem, i, c.locals[i].pred);
    }
  }

  lemma ExtAway(w: World, inst: Inst, view: Env, mem: Mem, inv: nat, pred: nat)
    requires Discreet(w)
    ensures Away(w, w.ext(inst, view, mem, inv, pred).value)
  {}

  lemma {:induction false} RunAway(p: Program, w: World, lanes: nat, c: Config, schedule: seq<Choice>)
    requires Discreet(w) && EnvAway(w, p.statics.consts) && ConfigAway(w, c) && Run(p, w, lanes, c, schedule).Some?
    ensures Run(p, w, lanes, c, schedule).value.log == c.log
    decreases |schedule|
  {
    hide Exec, Discreet, EnvAway, ConfigAway;
    if schedule != [] {
      ExecAway(p, w, lanes, c, schedule[0]);
      RunAway(p, w, lanes, Exec(p, w, lanes, c, schedule[0]).value, schedule[1..]);
    }
  }

  lemma DiscreetSilent(p: Program, w: World, lanes: nat, entry: nat, count: nat, mem: Mem)
    requires Discreet(w) && EnvAway(w, p.statics.consts)
    ensures Silent(p, w, lanes, Start(p, entry, count, mem))
  {
    hide Discreet, Run;
    var c := Start(p, entry, count, mem);
    forall schedule | Run(p, w, lanes, c, schedule).Some?
      ensures Run(p, w, lanes, c, schedule).value.log == []
    {
      RunAway(p, w, lanes, c, schedule);
    }
  }

  /** The constants of a module whose ids stay clear of the probe variable. */
  lemma {:induction false} ConstsAway(w: World, s: Specialization, insts: seq<Inst>)
    requires Discreet(w) && forall id :: id in Ids(insts) ==> id != w.debug
    ensures EnvAway(w, Consts(w, s, insts))
  {
    if insts != [] {
      var front, inst := insts[..|insts| - 1], insts[|insts| - 1];
      assert forall id :: id in Ids(front) ==> id in Ids(insts);
      ConstsAway(w, s, front);
      DeclaredAway(w, s, Consts(w, s, front), inst);
    }
  }

  lemma DeclaredAway(w: World, s: Specialization, env: Env, inst: Inst)
    requires Discreet(w) && EnvAway(w, env) && DeclaredId(inst) != Some(w.debug)
    ensures Declared(w, s, env, inst).Some? ==> Away(w, Declared(w, s, env, inst).value)
  {}
}
