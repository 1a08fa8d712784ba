/** Which instructions a run executes, and that the probed program goes through a
    block exactly when an invocation executes the store in front of it. */
module ProbeEvents {
  import opened Words
  import opened Ops
  import opened Machine
  import opened Translation
  import opened ProbeLog
  import R = Reproduction

  /** Invocation `inv` executed the instruction `pc` and went on to the next one,
      with the values `env`. */
  datatype Event = Event(inv: nat, pc: nat, env: Env)

  ghost function Fell(p: Program, w: World, lanes: nat, c: Config, choice: Choice): seq<Event> {
    if choice.Sync? || Exec(p, w, lanes, c, choice).None? then []
    else
      var i, next := choice.i, Exec(p, w, lanes, c, choice).value;
      if i < |c.locals| && i < |next.locals| && next.locals[i].status.Running? && next.locals[i].pc == c.locals[i].pc + 1
      then [Event(i, c.locals[i].pc, next.locals[i].env)]
      else []
  }

  /** What was executed on the way, in order. */
  ghost function Events(p: Program, w: World, lanes: nat, c: Config, schedule: seq<Choice>): seq<Event>
    decreases |schedule|
  {
    if schedule == [] || Exec(p, w, lanes, c, schedule[0]).None? then []
    else Fell(p, w, lanes, c, schedule[0]) + Events(p, w, lanes, Exec(p, w, lanes, c, schedule[0]).value, schedule[1..])
  }

  lemma {:induction false} EventsAppend(p: Program, w: World, lanes: nat, c: Config, a: seq<Choice>, b: seq<Choice>)
    requires Run(p, w, lanes, c, a).Some?
    ensures Events(p, w, lanes, c, a + b) == Events(p, w, lanes, c, a) + Events(p, w, lanes, Run(p, w, lanes, c, a).value, b)
    decreases |a|
  {
    hide Exec, Fell;
    if a == [] {
      assert a + b == b;
    } else {
      assert (a + b)[1..] == a[1..] + b && (a + b)[0] == a[0];
      EventsAppend(p, w, lanes, Exec(p, w, lanes, c, a[0]).value, a[1..], b);
    }
  }

  /** Every unit is copied or a block behind a copied store. */
  ghost predicate Gated(t: Rewrite, w: World) {
    forall u: nat :: u < |t.units| ==> Copied(t, w, t.units[u]) || Gate(t, w, u)
  }

  /** Unit `u` is a block, and unit `u - 1` the store it belongs to. */
  ghost predicate Gate(t: Rewrite, w: World, u: nat) {
    && 0 < u < |t.units| && t.units[u].src == [] && Replaced(t, w, t.units[u])
    && Copied(t, w, t.units[u - 1]) && Op(t.units[u - 1].src[0]) == STORE && |t.units[u - 1].src[0]| >= 3
  }

  /** A store has no effect on control. */
  ghost predicate StoresFall(w: World) {
    forall inst, view, mem, inv, pred :: Op(inst) == STORE ==> w.ext(inst, view, mem, inv, pred).control == Fall
  }

  // ---- events and visits ----

  /** The visit went through the block behind the executed store, with its values. */
  ghost predicate Matching(t: Rewrite, v: Visit, e: Event) {
    && v.u < |t.units| && t.units[v.u].src == [] && e.inv == v.inv
    && e.pc + 1 == SrcPos(t.units, v.u) && Agree(t, v.env, e.env)
  }

  ghost predicate Caused(t: Rewrite, events: seq<Event>, v: Visit) {
    exists e :: e in events && Matching(t, v, e)
  }

  ghost predicate Visited(t: Rewrite, visits: seq<Visit>, e: Event, u: nat) {
    exists v :: v in visits && v.u == u && Matching(t, v, e)
  }

  /** The invocation stands in front of the block. */
  ghost predicate Pending(tracks: seq<Track>, c: Config, e: Event, u: nat) {
    && e.inv < |tracks| && e.inv < |c.locals| && c.locals[e.inv].status.Running?
    && tracks[e.inv].u == u && tracks[e.inv].j == 0 && c.locals[e.inv].env == e.env
  }

  /** The block `u` follows the instruction `pc`. */
  ghost predicate Fronts(t: Rewrite, w: World, u: nat, pc: nat) {
    Gate(t, w, u) && SrcPos(t.units, u) == pc + 1
  }

  ghost predicate Answered(t: Rewrite, w: World, tracks: seq<Track>, c: Config, visits: seq<Visit>, e: Event) {
    forall u: nat :: Fronts(t, w, u, e.pc) ==> Visited(t, visits, e, u) || Pending(tracks, c, e, u)
  }

  /** An invocation at a block has executed its store. */
  ghost predicate Entered(t: Rewrite, w: World, tracks: seq<Track>, c: Config, events: seq<Event>, i: nat) {
    i < |tracks| && i < |c.locals| && c.locals[i].status.Running? && Gate(t, w, tracks[i].u) ==>
      SrcPos(t.units, tracks[i].u) >= 1 && Event(i, SrcPos(t.units, tracks[i].u) - 1, c.locals[i].env) in events
  }

  ghost predicate Accounted(t: Rewrite, w: World, tracks: seq<Track>, c: Config, visits: seq<Visit>, events: seq<Event>) {
    && (forall v :: v in visits ==> Caused(t, events, v))
    && (forall e :: e in events ==> Answered(t, w, tracks, c, visits, e))
    && (forall i: nat :: Entered(t, w, tracks, c, events, i))
  }

  // ---- a step inside a block ----

  lemma GateNext(t: Rewrite, w: World, u: nat)
    requires Gated(t, w) && Gate(t, w, u)
    ensures !Gate(t, w, u + 1)
  {}

  lemma BlockAccounted(t: Rewrite, w: World, c': Config, c: Config, tracks: seq<Track>, visits: seq<Visit>, events: seq<Event>,
                       i: nat, tracks2: seq<Track>, log: seq<Write>, log2: seq<Write>)
    requires Gated(t, w) && Related(t, w, tracks, c', c) && Accounted(t, w, tracks, c, visits, events)
    requires i < |tracks| && c.locals[i].status.Running? && Gate(t, w, tracks[i].u) && BlockMoved(t, w, tracks, i, tracks2, log, log2)
    ensures Accounted(t, w, tracks2, c, Enter(visits, Visit(i, tracks[i].u, tracks[i].env0)), events)
  {
    hide Gated, Gate, Advances, RunQuiet, Agree, Fronts, Answered, Entered, Caused, Matching;
    var v := Visit(i, tracks[i].u, tracks[i].env0);
    GateShape(t, w, tracks[i].u);
    TracksAgree(t, w, c', c, tracks, i);
    BlockCaused(t, w, c, tracks, visits, events, i);
    forall e | e in events ensures Answered(t, w, tracks2, c, Enter(visits, v), e) {
      BlockAnswered(t, w, tracks, c, visits, i, tracks2, e, v);
    }
    forall k: nat ensures Entered(t, w, tracks2, c, events, k) {
      BlockEntered(t, w, tracks, c, events, i, tracks2, k);
    }
  }

  lemma TracksAgree(t: Rewrite, w: World, c': Config, c: Config, tracks: seq<Track>, i: nat)
    requires Related(t, w, tracks, c', c) && i < |tracks| && c.locals[i].status.Running?
    ensures Agree(t, tracks[i].env0, c.locals[i].env)
  {
    assert Tracked(t, w, i, tracks[i], c'.locals[i], c.locals[i]);
  }

  lemma BlockCaused(t: Rewrite, w: World, c: Config, tracks: seq<Track>, visits: seq<Visit>, events: seq<Event>, i: nat)
    requires (forall v :: v in visits ==> Caused(t, events, v)) && i < |tracks| && i < |c.locals| && c.locals[i].status.Running?
    requires Gate(t, w, tracks[i].u) && Entered(t, w, tracks, c, events, i) && Agree(t, tracks[i].env0, c.locals[i].env)
    ensures forall v :: v in Enter(visits, Visit(i, tracks[i].u, tracks[i].env0)) ==> Caused(t, events, v)
  {
    hide Agree;
    var v := Visit(i, tracks[i].u, tracks[i].env0);
    var e := Event(i, SrcPos(t.units, tracks[i].u) - 1, c.locals[i].env);
    assert e in events && Matching(t, v, e);
    hide Matching;
  }

  lemma BlockEntered(t: Rewrite, w: World, tracks: seq<Track>, c: Config, events: seq<Event>, i: nat, tracks2: seq<Track>, k: nat)
    requires Gated(t, w) && Entered(t, w, tracks, c, events, k) && i < |tracks| == |tracks2| && tracks2 == tracks[i := tracks2[i]]
    requires tracks2[i].u == tracks[i].u || (Gate(t, w, tracks[i].u) && tracks2[i].u == tracks[i].u + 1)
    ensures Entered(t, w, tracks2, c, events, k)
  {
    if k == i && tracks2[i].u == tracks[i].u + 1 { GateNext(t, w, tracks[i].u); }
  }

  lemma GateShape(t: Rewrite, w: World, u: nat)
    requires Gate(t, w, u)
    ensures 0 < u < |t.units| && t.units[u].src == []
  {}

  lemma BlockAnswered(t: Rewrite, w: World, tracks: seq<Track>, c: Config, visits: seq<Visit>, i: nat, tracks2: seq<Track>, e: Event, v: Visit)
    requires Answered(t, w, tracks, c, visits, e) && i < |tracks| && |tracks2| == |tracks| && tracks2 == tracks[i := tracks2[i]]
    requires i < |c.locals| && v == Visit(i, tracks[i].u, tracks[i].env0) && v.u < |t.units| && t.units[v.u].src == []
    requires Agree(t, v.env, c.locals[i].env)
    ensures Answered(t, w, tracks2, c, Enter(visits, v), e)
  {
    hide Gate, Agree;
    var visits2 := Enter(visits, v);
    forall u: nat | Fronts(t, w, u, e.pc)
      ensures Visited(t, visits2, e, u) || Pending(tracks2, c, e, u)
    {
      if Visited(t, visits, e, u) {
        var x :| x in visits && x.u == u && Matching(t, x, e);
        assert x in visits2;
      } else if e.inv == i {
        assert v in visits2 && Matching(t, v, e);
      }
    }
  }

  // ---- a copied instruction ----

  lemma {:induction false} LabelFound(code: seq<Inst>, id: nat)
    ensures FindLabel(code, id) < |code| ==> IsLabel(code[FindLabel(code, id)], id)
  {
    hide IsLabel;
    if code != [] && !IsLabel(code[0], id) { LabelFound(code[1..], id); }
  }

  /** One step of the translated program either falls to the next instruction or
      lands on a label or past the end. */
  lemma StepLands(p: Program, w: World, lanes: nat, c: Config, i: nat)
    requires Exec(p, w, lanes, c, Invoke(i)).Some?
    ensures i < |c.locals| == |Exec(p, w, lanes, c, Invoke(i)).value.locals|
    ensures var l2 := Exec(p, w, lanes, c, Invoke(i)).value.locals[i];
      l2.status.Running? ==> l2.pc == c.locals[i].pc + 1 || l2.pc >= |p.code| || Op(p.code[l2.pc]) == LABEL
  {
    hide Act;
    var l := c.locals[i];
    var inst := p.code[l.pc];
    var e := w.ext(inst, View(p.statics, l.env, Reads(w, inst)), c.mem, i, l.pred);
    if e.control.Jump? { LabelFound(p.code, e.control.target); }
  }

  /** A store falls to the next instruction. */
  lemma StoreFalls(p: Program, w: World, lanes: nat, c: Config, i: nat)
    requires Exec(p, w, lanes, c, Invoke(i)).Some? && StoresFall(w)
    requires i < |c.locals| && c.locals[i].pc < |p.code| && Op(p.code[c.locals[i].pc]) == STORE && |p.code[c.locals[i].pc]| >= 3
    ensures i < |Exec(p, w, lanes, c, Invoke(i)).value.locals|
    ensures var l2 := Exec(p, w, lanes, c, Invoke(i)).value.locals[i]; l2.status.Running? && l2.pc == c.locals[i].pc + 1
  {
    hide StoresFall, Private;
    var l := c.locals[i];
    var inst := p.code[l.pc];
    var a := Act(p.statics, w, i, inst, l.env);
    assert a.Emit? || a.External?;
    FallsAt(w, inst, View(p.statics, l.env, Reads(w, inst)), c.mem, i, l.pred);
  }

  lemma FallsAt(w: World, inst: Inst, view: Env, mem: Mem, inv: nat, pred: nat)
    requires StoresFall(w) && Op(inst) == STORE
    ensures w.ext(inst, view, mem, inv, pred).control == Fall
  {}

  lemma SamePlace(t: Rewrite, w: World, u: nat, v: nat)
    requires Correct(t, w) && u <= |t.units| && v <= |t.units| && DstPos(t.units, u) == DstPos(t.units, v)
    ensures u == v
  {
    hide Correct;
    if u < v { PosMonotone(t, w, u, v); }
    if v < u { PosMonotone(t, w, v, u); }
  }

  /** The store in front of a gate is the unit that starts where it ends. */
  lemma GateOf(t: Rewrite, w: World, u: nat, g: nat)
    requires u < |t.units| && Copied(t, w, t.units[u]) && Gate(t, w, g) && SrcPos(t.units, g) == SrcPos(t.units, u) + 1
    ensures g == u + 1
  {
    PosStep(t.units, u);
    PosStep(t.units, g - 1);
    if g - 1 < u { R.SrcMonotone(t.units, g, u); }
    if g - 1 > u { R.SrcMonotone(t.units, u + 1, g - 1); }
  }

  /** Copying unit `u`: whoever then stands at a block comes from its store. */
  lemma CopyArrives(t: Rewrite, w: World, lanes: nat, c': Config, c: Config, tracks: seq<Track>, i: nat, c2': Config, c2: Config, tracks2: seq<Track>)
    requires Correct(t, w) && Related(t, w, tracks, c', c) && Related(t, w, tracks2, c2', c2)
    requires Exec(t.Target(), w, lanes, c', Invoke(i)) == Some(c2') && i < |tracks| == |tracks2|
    requires tracks[i].u < |t.units| && Copied(t, w, t.units[tracks[i].u]) && tracks[i].j == 0 && tracks2[i].j == 0
    requires c2.locals[i].status.Running? && Gate(t, w, tracks2[i].u)
    ensures tracks2[i].u == tracks[i].u + 1
  {
    hide Correct, Copied, Exec, Inside, Agree, BlockHolds;
    var u, g := tracks[i].u, tracks2[i].u;
    assert Tracked(t, w, i, tracks[i], c'.locals[i], c.locals[i]);
    assert Tracked(t, w, i, tracks2[i], c2'.locals[i], c2.locals[i]);
    StepLands(t.Target(), w, lanes, c', i);
    StepsWhileRunning(t, w, lanes, c', i);
    CodeAt(t.units, g);
    assert t.Target().code[DstPos(t.units, g)] == t.units[g].dst[0];
    CopyStepPos(t, w, u);
    SamePlace(t, w, g, u + 1);
  }

  lemma StepsWhileRunning(t: Rewrite, w: World, lanes: nat, c': Config, i: nat)
    requires Exec(t.Target(), w, lanes, c', Invoke(i)).Some?
    ensures i < |c'.locals| && c'.locals[i].status.Running?
  {}

  lemma CopyStepPos(t: Rewrite, w: World, u: nat)
    requires u < |t.units| && Copied(t, w, t.units[u])
    ensures DstPos(t.units, u + 1) == DstPos(t.units, u) + 1 && SrcPos(t.units, u + 1) == SrcPos(t.units, u) + 1
    ensures SrcPos(t.units, u) < |t.Source().code| && t.Source().code[SrcPos(t.units, u)] == t.units[u].src[0]
    ensures DstPos(t.units, u) < |t.Target().code| && t.Target().code[DstPos(t.units, u)] == t.units[u].src[0]
  {
    PosStep(t.units, u);
    CodeAt(t.units, u);
    assert Flatten(Srcs(t.units))[SrcPos(t.units, u)] == t.units[u].src[0];
    assert Flatten(Dsts(t.units))[DstPos(t.units, u)] == t.units[u].dst[0];
  }

  /** Executing the store of a gate leads to the gate. */
  lemma StoreArrives(t: Rewrite, w: World, lanes: nat, c': Config, c: Config, tracks: seq<Track>, i: nat, c2': Config, c2: Config, tracks2: seq<Track>)
    requires Correct(t, w) && Related(t, w, tracks, c', c) && Related(t, w, tracks2, c2', c2) && StoresFall(w)
    requires Exec(t.Target(), w, lanes, c', Invoke(i)) == Some(c2') && i < |tracks| == |tracks2|
    requires tracks[i].u < |t.units| && Copied(t, w, t.units[tracks[i].u]) && tracks[i].j == 0 && tracks2[i].j == 0
    requires Gate(t, w, tracks[i].u + 1)
    ensures c2.locals[i].status.Running? && tracks2[i].u == tracks[i].u + 1
  {
    hide Correct, Exec, Inside, Agree, BlockHolds, StoresFall;
    var u := tracks[i].u;
    assert Tracked(t, w, i, tracks[i], c'.locals[i], c.locals[i]);
    assert Tracked(t, w, i, tracks2[i], c2'.locals[i], c2.locals[i]);
    StepsWhileRunning(t, w, lanes, c', i);
    CopyStepPos(t, w, u);
    StoreFalls(t.Target(), w, lanes, c', i);
    SamePlace(t, w, tracks2[i].u, u + 1);
  }

  lemma CopyAccounted(t: Rewrite, w: World, lanes: nat, c': Config, c: Config, tracks: seq<Track>, visits: seq<Visit>, events: seq<Event>,
                      i: nat, c2': Config, c2: Config, tracks2: seq<Track>)
    requires Correct(t, w) && StoresFall(w) && Related(t, w, tracks, c', c) && Related(t, w, tracks2, c2', c2)
    requires Accounted(t, w, tracks, c, visits, events) && MovedOut(tracks, i, tracks2)
    requires Exec(t.Target(), w, lanes, c', Invoke(i)) == Some(c2') && Exec(t.Source(), w, lanes, c, Invoke(i)) == Some(c2)
    requires tracks[i].u < |t.units| && Copied(t, w, t.units[tracks[i].u]) && tracks[i].j == 0
    ensures Accounted(t, w, tracks2, c2, visits, events + Fell(t.Source(), w, lanes, c, Invoke(i)))
  {
    hide Correct, Gate, Copied, StoresFall, Exec, Tracked, Agree, Fell;
    var u, fell := tracks[i].u, Fell(t.Source(), w, lanes, c, Invoke(i));
    OthersStand(t.Source(), w, lanes, c, i, c2);
    SourceAt(t, w, c', c, tracks, i, lanes);
    forall v | v in visits ensures Caused(t, events + fell, v) {
      var e :| e in events && Matching(t, v, e);
      assert e in events + fell;
    }
    forall e | e in events + fell ensures Answered(t, w, tracks2, c2, visits, e) {
      if e in events {
        CopyAnswered(t, w, tracks, c, visits, i, c2, tracks2, e);
      } else {
        FellIs(t.Source(), w, lanes, c, i, e);
        forall g: nat | Fronts(t, w, g, e.pc)
          ensures Pending(tracks2, c2, e, g)
        {
          GateOf(t, w, u, g);
          StoreArrives(t, w, lanes, c', c, tracks, i, c2', c2, tracks2);
        }
      }
    }
    forall k: nat ensures Entered(t, w, tracks2, c2, events + fell, k) {
      assert Entered(t, w, tracks, c, events, k);
      if k == i && c2.locals[i].status.Running? && Gate(t, w, tracks2[i].u) {
        CopyArrives(t, w, lanes, c', c, tracks, i, c2', c2, tracks2);
        CopyStepPos(t, w, u);
        FellThrough(t, w, lanes, c', c, tracks, i, c2', c2, tracks2);
      }
    }
  }

  lemma OthersStand(p: Program, w: World, lanes: nat, c: Config, i: nat, c2: Config)
    requires Exec(p, w, lanes, c, Invoke(i)) == Some(c2)
    ensures i < |c.locals| == |c2.locals| && forall k :: 0 <= k < |c.locals| && k != i ==> c2.locals[k] == c.locals[k]
  {}

  lemma SourceAt(t: Rewrite, w: World, c': Config, c: Config, tracks: seq<Track>, i: nat, lanes: nat)
    requires Related(t, w, tracks, c', c) && Exec(t.Source(), w, lanes, c, Invoke(i)).Some? && i < |tracks|
    ensures c.locals[i].pc == SrcPos(t.units, tracks[i].u) && tracks[i].u <= |t.units|
  {
    assert Tracked(t, w, i, tracks[i], c'.locals[i], c.locals[i]);
  }

  lemma FellIs(p: Program, w: World, lanes: nat, c: Config, i: nat, e: Event)
    requires e in Fell(p, w, lanes, c, Invoke(i)) && i < |c.locals|
    ensures Exec(p, w, lanes, c, Invoke(i)).Some? && i < |Exec(p, w, lanes, c, Invoke(i)).value.locals|
    ensures e == Event(i, c.locals[i].pc, Exec(p, w, lanes, c, Invoke(i)).value.locals[i].env)
  {}

  lemma FellThrough(t: Rewrite, w: World, lanes: nat, c': Config, c: Config, tracks: seq<Track>, i: nat, c2': Config, c2: Config, tracks2: seq<Track>)
    requires Related(t, w, tracks, c', c) && Related(t, w, tracks2, c2', c2) && i < |tracks| == |tracks2|
    requires Exec(t.Source(), w, lanes, c, Invoke(i)) == Some(c2) && c2.locals[i].status.Running?
    requires tracks[i].u < |t.units| && tracks2[i].u == tracks[i].u + 1
    requires SrcPos(t.units, tracks[i].u + 1) == SrcPos(t.units, tracks[i].u) + 1
    ensures Event(i, SrcPos(t.units, tracks2[i].u) - 1, c2.locals[i].env) in Fell(t.Source(), w, lanes, c, Invoke(i))
  {
    hide Exec;
    SourceAt(t, w, c', c, tracks, i, lanes);
    assert Tracked(t, w, i, tracks2[i], c2'.locals[i], c2.locals[i]);
  }

  lemma CopyAnswered(t: Rewrite, w: World, tracks: seq<Track>, c: Config, visits: seq<Visit>, i: nat, c2: Config, tracks2: seq<Track>, e: Event)
    requires Answered(t, w, tracks, c, visits, e) && MovedOut(tracks, i, tracks2) && |c.locals| == |c2.locals|
    requires forall k :: 0 <= k < |c.locals| && k != i ==> c2.locals[k] == c.locals[k]
    requires tracks[i].u < |t.units| && Copied(t, w, t.units[tracks[i].u])
    ensures Answered(t, w, tracks2, c2, visits, e)
  {
    forall u: nat | Fronts(t, w, u, e.pc)
      ensures Visited(t, visits, e, u) || Pending(tracks2, c2, e, u)
    {
      assert t.units[u].src == [];
    }
  }

  // ---- a barrier ----

  lemma SyncAccounted(t: Rewrite, w: World, lanes: nat, c': Config, c: Config, tracks: seq<Track>, visits: seq<Visit>, events: seq<Event>,
                      g: nat, c2: Config, tracks2: seq<Track>)
    requires Correct(t, w) && Gated(t, w) && Related(t, w, tracks, c', c) && Accounted(t, w, tracks, c, visits, events)
    requires CanSync(t.Target(), c', lanes, g) && g * lanes < |tracks|
    requires tracks2 == PastUnit(tracks, g * lanes, g * lanes + lanes, tracks[g * lanes].u)
    requires |c2.locals| == |c.locals| && forall k :: 0 <= k < |c.locals| ==> c2.locals[k].env == c.locals[k].env && c2.locals[k].status == c.locals[k].status
    ensures Accounted(t, w, tracks2, c2, visits, events)
  {
    hide Correct, Related, Gated, Gate, CanSync;
    var lo, hi := g * lanes, g * lanes + lanes;
    SyncLocals(t, w, lanes, c', c, tracks, g);
    forall e | e in events ensures Answered(t, w, tracks2, c2, visits, e) {
      assert Answered(t, w, tracks, c, visits, e);
      forall u: nat | Fronts(t, w, u, e.pc)
        ensures Visited(t, visits, e, u) || Pending(tracks2, c2, e, u)
      {
        if Pending(tracks, c, e, u) && lo <= e.inv < hi { SyncNoGate(t, w, lanes, c', c, tracks, g, e.inv); }
      }
    }
    forall k: nat ensures Entered(t, w, tracks2, c2, events, k) {
      assert Entered(t, w, tracks, c, events, k);
      if lo <= k < hi { SyncNoGate(t, w, lanes, c', c, tracks, g, k); }
    }
  }

  lemma SyncLocals(t: Rewrite, w: World, lanes: nat, c': Config, c: Config, tracks: seq<Track>, g: nat)
    requires Related(t, w, tracks, c', c) && CanSync(t.Target(), c', lanes, g)
    ensures g * lanes + lanes <= |tracks| == |c.locals|
  {}

  /** Nobody at a barrier is at a block, nor right in front of one. */
  lemma SyncNoGate(t: Rewrite, w: World, lanes: nat, c': Config, c: Config, tracks: seq<Track>, g: nat, i: nat)
    requires Correct(t, w) && Gated(t, w) && Related(t, w, tracks, c', c) && CanSync(t.Target(), c', lanes, g)
    requires g * lanes <= i < g * lanes + lanes
    ensures i < |tracks| && g * lanes < |tracks| && !Gate(t, w, tracks[i].u) && !Gate(t, w, tracks[g * lanes].u + 1)
    ensures tracks[i].u == tracks[g * lanes].u
  {
    hide BlockHolds, Agree, Inside, Correct;
    SyncUnit(t, w, lanes, c', c, tracks, g, i);
    SyncUnit(t, w, lanes, c', c, tracks, g, g * lanes);
    var u := tracks[i].u;
    assert AtBarrier(t.Target(), c'.locals[i]);
    assert Tracked(t, w, i, tracks[i], c'.locals[i], c.locals[i]);
    GatedDst(t, w, u);
    DstHead(t.units, u);
  }

  lemma GatedDst(t: Rewrite, w: World, u: nat)
    requires Gated(t, w) && u < |t.units|
    ensures t.units[u].dst != [] && (Gate(t, w, u) ==> Op(t.units[u].dst[0]) != CONTROL_BARRIER)
    ensures Gate(t, w, u + 1) ==> Op(t.units[u].dst[0]) == STORE
  {
    hide BlockHolds;
  }

  lemma DstHead(units: seq<Unit>, u: nat)
    requires u < |units| && units[u].dst != []
    ensures DstPos(units, u) < |Flatten(Dsts(units))| && Flatten(Dsts(units))[DstPos(units, u)] == units[u].dst[0]
  {
    CodeAt(units, u);
  }

  // ---- whole runs ----

  /** Both books are kept over any run, with any interleaving. */
  lemma {:induction false} EventRuns(t: Rewrite, w: World, lanes: nat, c': Config, c: Config, tracks: seq<Track>, visits: seq<Visit>, events: seq<Event>, schedule': seq<Choice>)
    returns (schedule: seq<Choice>, tracks2: seq<Track>, visits2: seq<Visit>)
    requires Correct(t, w) && Gated(t, w) && StoresFall(w) && Related(t, w, tracks, c', c)
    requires Safe(t.Source(), w, lanes, c) && Silent(t.Source(), w, lanes, c)
    requires Logged(t, w, tracks, visits, c'.log) && Accounted(t, w, tracks, c, visits, events) && Run(t.Target(), w, lanes, c', schedule').Some?
    ensures Run(t.Source(), w, lanes, c, schedule).Some?
    ensures var out', out := Run(t.Target(), w, lanes, c', schedule').value, Run(t.Source(), w, lanes, c, schedule).value;
      && Related(t, w, tracks2, out', out) && Logged(t, w, tracks2, visits2, out'.log)
      && Accounted(t, w, tracks2, out, visits2, events + Events(t.Source(), w, lanes, c, schedule))
    decreases |schedule'|
  {
    hide Correct, Related, Logged, Accounted, Exec, Safe, Silent, Moved, Gated, StoresFall, Answers, Events;
    if schedule' == [] {
      schedule, tracks2, visits2 := [], tracks, visits;
      NoEvents(t.Source(), w, lanes, c);
      assert events + [] == events;
    } else {
      var first, tracks1 := StepRefines(t, w, lanes, c', c, tracks, schedule'[0]);
      var next' := Exec(t.Target(), w, lanes, c', schedule'[0]).value;
      var next := Run(t.Source(), w, lanes, c, first).value;
      SafeLater(t.Source(), w, lanes, c, first);
      SilentLater(t.Source(), w, lanes, c, first);
      SilentNow(t.Source(), w, lanes, c);
      SilentNow(t.Source(), w, lanes, next);
      var visits1 := StepBooks(t, w, lanes, c', c, tracks, visits, events, schedule'[0], first, next', next, tracks1);
      var rest;
      rest, tracks2, visits2 := EventRuns(t, w, lanes, next', next, tracks1, visits1, events + Events(t.Source(), w, lanes, c, first), schedule'[1..]);
      RunAppend(t.Source(), w, lanes, c, first, rest);
      EventsAppend(t.Source(), w, lanes, c, first, rest);
      schedule := first + rest;
      var a, b := Events(t.Source(), w, lanes, c, first), Events(t.Source(), w, lanes, next, rest);
      assert (events + a) + b == events + (a + b);
    }
  }

  lemma NoEvents(p: Program, w: World, lanes: nat, c: Config)
    ensures Events(p, w, lanes, c, []) == []
  {}

  lemma OneEvent(p: Program, w: World, lanes: nat, c: Config, choice: Choice)
    requires Run(p, w, lanes, c, [choice]).Some?
    ensures Exec(p, w, lanes, c, choice) == Some(Run(p, w, lanes, c, [choice]).value)
    ensures Events(p, w, lanes, c, [choice]) == Fell(p, w, lanes, c, choice)
  {
    hide Exec, Fell;
    var one := [choice];
    assert one[1..] == [];
    var next := Exec(p, w, lanes, c, choice).value;
    assert Run(p, w, lanes, next, []) == Some(next);
    NoEvents(p, w, lanes, next);
  }

  lemma SyncKeeps(p: Program, w: World, lanes: nat, c: Config, g: nat)
    requires Exec(p, w, lanes, c, Sync(g)).Some?
    ensures var c2 := Exec(p, w, lanes, c, Sync(g)).value;
      |c2.locals| == |c.locals| && forall k :: 0 <= k < |c.locals| ==> c2.locals[k].env == c.locals[k].env && c2.locals[k].status == c.locals[k].status
    ensures Fell(p, w, lanes, c, Sync(g)) == []
  {}

  /** One step keeps both books. */
  lemma StepBooks(t: Rewrite, w: World, lanes: nat, c': Config, c: Config, tracks: seq<Track>, visits: seq<Visit>, events: seq<Event>,
                  choice: Choice, first: seq<Choice>, next': Config, next: Config, tracks1: seq<Track>)
    returns (visits1: seq<Visit>)
    requires Correct(t, w) && Gated(t, w) && StoresFall(w) && Related(t, w, tracks, c', c) && Related(t, w, tracks1, next', next)
    requires Logged(t, w, tracks, visits, c'.log) && Accounted(t, w, tracks, c, visits, events)
    requires Exec(t.Target(), w, lanes, c', choice) == Some(next') && Run(t.Source(), w, lanes, c, first) == Some(next)
    requires Answers(t, w, tracks, choice, first) && Moved(t, w, lanes, tracks, choice, tracks1, c'.log, next'.log, true)
    ensures Logged(t, w, tracks1, visits1, next'.log)
    ensures Accounted(t, w, tracks1, next, visits1, events + Events(t.Source(), w, lanes, c, first))
  {
    hide Correct, Related, Logged, Accounted, Exec, Gated, Gate, StoresFall, Copied, Replaced, BlockMoved, Fell, Events, PastUnit, CanSync;
    NoEvents(t.Source(), w, lanes, c);
    assert events + [] == events;
    if first == [choice] { OneEvent(t.Source(), w, lanes, c, choice); }
    match choice {
      case Sync(g) =>
        SyncEnabled(t, w, lanes, c', g);
        SyncSides(t, w, lanes, c', c, tracks, g, tracks1);
        LoggedAside(t, w, tracks, visits, c'.log, tracks1);
        if first == [choice] { SyncKeeps(t.Source(), w, lanes, c, g); }
        SyncAccounted(t, w, lanes, c', c, tracks, visits, events, g, next, tracks1);
        visits1 := visits;
      case Invoke(i) =>
        StandsAt(t, w, lanes, c', c, tracks, i);
        if Copied(t, w, t.units[tracks[i].u]) {
          LoggedAside(t, w, tracks, visits, c'.log, tracks1);
          CopyAccounted(t, w, lanes, c', c, tracks, visits, events, i, next', next, tracks1);
          visits1 := visits;
        } else {
          GatedAt(t, w, tracks[i].u);
          LoggedBlock(t, w, tracks, visits, c'.log, i, tracks1, next'.log);
          RunningBoth(t, w, lanes, c', c, tracks, i);
          BlockAccounted(t, w, c', c, tracks, visits, events, i, tracks1, c'.log, next'.log);
          visits1 := Enter(visits, Visit(i, tracks[i].u, tracks[i].env0));
        }
    }
  }

  lemma SyncSides(t: Rewrite, w: World, lanes: nat, c': Config, c: Config, tracks: seq<Track>, g: nat, tracks1: seq<Track>)
    requires CanSync(t.Target(), c', lanes, g) && Related(t, w, tracks, c', c) && g * lanes < |tracks|
    requires tracks1 == PastUnit(tracks, g * lanes, g * lanes + lanes, tracks[g * lanes].u)
    requires forall i :: g * lanes <= i < g * lanes + lanes && i < |tracks| ==> tracks[i].j == 0
    ensures |tracks1| == |tracks| && forall i :: 0 <= i < |tracks| ==> tracks1[i] == tracks[i] || (tracks[i].j == 0 && tracks1[i].j == 0)
  {}

  lemma GatedAt(t: Rewrite, w: World, u: nat)
    requires Gated(t, w) && u < |t.units| && !Copied(t, w, t.units[u])
    ensures Gate(t, w, u) && t.units[u].src == []
  {}

  lemma RunningBoth(t: Rewrite, w: World, lanes: nat, c': Config, c: Config, tracks: seq<Track>, i: nat)
    requires Related(t, w, tracks, c', c) && i < |tracks| == |c'.locals| && CanStep(t.Target(), c'.locals[i])
    ensures i < |c.locals| && c.locals[i].status.Running?
  {
    assert Tracked(t, w, i, tracks[i], c'.locals[i], c.locals[i]);
  }
}
