/** What the inserted stores do where the probe buffer is not the probes' alone:
    the words of every block overwrite cells of the shared buffer. */
module ProbeSharing {
  import opened Words
  import opened Ops
  import opened Machine
  import opened Translation
  import opened Meaning
  import opened Instrumenter
  import opened ProbeBlocks
  import opened InstrumentSound
  import opened ProbeSound

  /** Where a buffer keeps what a path leads to. */
  type Cells = (nat, seq<Val>) -> nat

  /** Stores are real: one that acts on the shared memory, through a pointer into a
      bound buffer, writes its value to the cell that root and path lead to, and
      goes on. */
  ghost predicate StoresWrite(w: World, st: Statics, cells: Cells) {
    forall inst, view, mem, inv, pred :: StoreWrites(w, st, cells, inst, view, mem, inv, pred)
  }

  ghost predicate StoreWrites(w: World, st: Statics, cells: Cells, inst: Inst, view: Env, mem: Mem, inv: nat, pred: nat) {
    Op(inst) == STORE && |inst| >= 3 && inst[1] in view && inst[2] in view && view[inst[1]].Ptr? && view[inst[1]].root in st.buffers ==>
      var e, a := w.ext(inst, view, mem, inv, pred), view[inst[1]];
      e.mem == mem[cells(st.buffers[a.root], a.path) := view[inst[2]]] && e.control == Fall && w.defines(inst).None?
  }

  // ---- a block on the shared memory ----

  datatype Ran = Ran(env: Env, mem: Mem, log: seq<Write>)

  /** A block run from its first instruction to its last; nothing if it faults or
      leaves the block on the way. */
  ghost function RunShared(st: Statics, w: World, inv: nat, pred: nat, block: seq<Inst>, env: Env, mem: Mem): Option<Ran>
    decreases |block|
  {
    if block == [] then Some(Ran(env, mem, []))
    else match Act(st, w, inv, block[0], env)
      case Set(id, v) => RunShared(st, w, inv, pred, block[1..], env[id := v], mem)
      case Emit(write) =>
        (match RunShared(st, w, inv, pred, block[1..], env, mem)
         case Some(r) => Some(r.(log := [write] + r.log))
         case None => None)
      case Fault => None
      case External =>
        var e := w.ext(block[0], View(st, env, Reads(w, block[0])), mem, inv, pred);
        if e.control != Fall then None
        else RunShared(st, w, inv, pred, block[1..], Define(w.defines(block[0]), e.value, env), e.mem)
  }

  /** The invocation behind the block. */
  ghost function Behind(c: Config, i: nat, n: nat, r: Ran): Config
    requires i < |c.locals|
  {
    Config(c.locals[i := c.locals[i].(pc := c.locals[i].pc + n, env := r.env)], r.mem, c.log + r.log)
  }

  lemma BehindHead(p: Program, w: World, lanes: nat, c: Config, i: nat, block: seq<Inst>)
    requires i < |c.locals| && c.locals[i].status.Running? && Plain(block) && block != []
    requires c.locals[i].pc + |block| <= |p.code| && p.code[c.locals[i].pc..c.locals[i].pc + |block|] == block
    ensures var l := c.locals[i]; var a, e := Act(p.statics, w, i, block[0], l.env), w.ext(block[0], View(p.statics, l.env, Reads(w, block[0])), c.mem, i, l.pred);
      && Exec(p, w, lanes, c, Invoke(i)).Some?
      && (a.Set? ==> Exec(p, w, lanes, c, Invoke(i)).value == Behind(c, i, 1, Ran(l.env[a.id := a.value], c.mem, [])))
      && (a.Emit? ==> Exec(p, w, lanes, c, Invoke(i)).value == Behind(c, i, 1, Ran(l.env, c.mem, [a.write])))
      && (a.External? && e.control == Fall ==>
            Exec(p, w, lanes, c, Invoke(i)).value == Behind(c, i, 1, Ran(Define(w.defines(block[0]), e.value, l.env), e.mem, [])))
  {
    hide Act, View, Reads;
    var l := c.locals[i];
    assert p.code[l.pc] == p.code[l.pc..l.pc + |block|][0] == block[0];
    assert c.log + [] == c.log;
  }

  lemma BehindCons(c: Config, i: nat, n: nat, first: Ran, rest: Ran)
    requires i < |c.locals|
    ensures Behind(Behind(c, i, 1, first), i, n, rest) == Behind(c, i, n + 1, rest.(log := first.log + rest.log))
  {
    var l := c.locals[i];
    var mid := c.locals[i := l.(pc := l.pc + 1, env := first.env)];
    assert mid[i := mid[i].(pc := mid[i].pc + n, env := rest.env)] == c.locals[i := l.(pc := l.pc + (n + 1), env := rest.env)];
    assert c.log + first.log + rest.log == c.log + (first.log + rest.log);
  }

  lemma BehindNothing(c: Config, i: nat)
    requires i < |c.locals|
    ensures Behind(c, i, 0, Ran(c.locals[i].env, c.mem, [])) == c
  {
    assert c.locals[i := c.locals[i]] == c.locals && c.log + [] == c.log;
  }

  /** That is what the machine does when one invocation runs the block without
      interruption. */
  lemma {:induction false} SharedSchedule(p: Program, w: World, lanes: nat, c: Config, i: nat, block: seq<Inst>) returns (schedule: seq<Choice>)
    requires i < |c.locals| && c.locals[i].status.Running? && Plain(block)
    requires c.locals[i].pc + |block| <= |p.code| && p.code[c.locals[i].pc..c.locals[i].pc + |block|] == block
    requires RunShared(p.statics, w, i, c.locals[i].pred, block, c.locals[i].env, c.mem).Some?
    ensures Run(p, w, lanes, c, schedule).Some?
    ensures Run(p, w, lanes, c, schedule).value == Behind(c, i, |block|, RunShared(p.statics, w, i, c.locals[i].pred, block, c.locals[i].env, c.mem).value)
    decreases |block|
  {
    hide Act, Exec, View, Reads;
    var l := c.locals[i];
    if block == [] {
      schedule := [];
      BehindNothing(c, i);
    } else {
      BehindHead(p, w, lanes, c, i, block);
      var inst := block[0];
      var a, e := Act(p.statics, w, i, inst, l.env), w.ext(inst, View(p.statics, l.env, Reads(w, inst)), c.mem, i, l.pred);
      var first := match a
        case Set(id, v) => Ran(l.env[id := v], c.mem, [])
        case Emit(write) => Ran(l.env, c.mem, [write])
        case _ => Ran(Define(w.defines(inst), e.value, l.env), e.mem, []);
      var next, more := Behind(c, i, 1, first), block[1..];
      assert p.code[l.pc + 1..l.pc + 1 + |more|] == more;
      var rest := SharedSchedule(p, w, lanes, next, i, more);
      schedule := [Invoke(i)] + rest;
      assert schedule[1..] == rest;
      BehindCons(c, i, |more|, first, RunShared(p.statics, w, i, l.pred, more, first.env, first.mem).value);
      var r := RunShared(p.statics, w, i, l.pred, more, first.env, first.mem).value;
      assert [] + r.log == r.log;
      assert r.(log := r.log) == r;
    }
  }

  // ---- its words in the shared buffer ----

  /** The buffer with the words written to it, the last one for each slot last. */
  function Overwritten(mem: Mem, buffer: nat, writes: seq<Write>, cells: Cells): Mem
    decreases |writes|
  {
    if writes == [] then mem
    else Overwritten(mem[cells(buffer, [Scalar(0), Scalar(writes[0].slot)]) := writes[0].value], buffer, writes[1..], cells)
  }

  lemma {:induction false} OverwrittenHas(mem: Mem, buffer: nat, writes: seq<Write>, cells: Cells)
    ensures forall k :: k in mem ==> k in Overwritten(mem, buffer, writes, cells)
    ensures forall i :: 0 <= i < |writes| ==> cells(buffer, [Scalar(0), Scalar(writes[i].slot)]) in Overwritten(mem, buffer, writes, cells)
    decreases |writes|
  {
    if writes != [] {
      OverwrittenHas(mem[cells(buffer, [Scalar(0), Scalar(writes[0].slot)]) := writes[0].value], buffer, writes[1..], cells);
      forall i | 0 <= i < |writes| ensures cells(buffer, [Scalar(0), Scalar(writes[i].slot)]) in Overwritten(mem, buffer, writes, cells) {
        if i > 0 { assert writes[i] == writes[1..][i - 1]; }
      }
    }
  }

  /** The same declarations, without a buffer for the probe variable: there the
      probes are by themselves. */
  ghost function Aside(st: Statics, w: World): Statics {
    st.(buffers := map v | v in st.buffers && v != w.debug :: st.buffers[v])
  }

  /** What is a word for the host there is a store to the shared buffer here. */
  lemma AsideActs(st: Statics, w: World, inv: nat, inst: Inst, env: Env)
    requires !Private(st, w)
    ensures var a := Act(Aside(st, w), w, inv, inst, env);
      && (a.Set? ==> Act(st, w, inv, inst, env) == a)
      && (a.Emit? ==>
            && Act(st, w, inv, inst, env) == External && Op(inst) == STORE && |inst| >= 3
            && Lookup(st, env, inst[1]) == Ptr(w.debug, [Scalar(0), Scalar(a.write.slot)]) && Lookup(st, env, inst[2]) == a.write.value)
  {
    hide RomValue, Arith, Bytes;
    assert forall id :: Lookup(Aside(st, w), env, id) == Lookup(st, env, id);
    assert |inst| >= 3 ==> Lookups(Aside(st, w), env, inst[3..]) == Lookups(st, env, inst[3..]);
    assert |inst| >= 4 ==> Lookups(Aside(st, w), env, inst[4..]) == Lookups(st, env, inst[4..]);
    if Op(inst) == STORE && |inst| >= 3 {
      var a := Lookup(st, env, inst[1]);
      if a.Ptr? && |a.path| == 2 && a.path[0] == Scalar(0) && a.path[1].Scalar? { assert a.path == [Scalar(0), Scalar(a.path[1].w)]; }
    }
  }

  lemma StoreRuns(st: Statics, w: World, inv: nat, pred: nat, inst: Inst, env: Env, mem: Mem, slot: nat, value: Val, cells: Cells)
    requires StoresWrite(w, st, cells) && Op(inst) == STORE && |inst| >= 3 && w.debug in st.buffers
    requires Lookup(st, env, inst[1]) == Ptr(w.debug, [Scalar(0), Scalar(slot)]) && Lookup(st, env, inst[2]) == value
    ensures var e := w.ext(inst, View(st, env, Reads(w, inst)), mem, inv, pred);
      e.mem == mem[cells(st.buffers[w.debug], [Scalar(0), Scalar(slot)]) := value] && e.control == Fall && w.defines(inst).None?
  {
    var view := View(st, env, Reads(w, inst));
    assert StoreWrites(w, st, cells, inst, view, mem, inv, pred);
  }

  lemma {:induction false} BlockOverwrites(st: Statics, w: World, inv: nat, pred: nat, block: seq<Inst>, env: Env, mem: Mem, cells: Cells)
    requires !Private(st, w) && StoresWrite(w, st, cells) && RunQuiet(Aside(st, w), w, inv, block, env).Done?
    ensures w.debug in st.buffers
    ensures var r := RunQuiet(Aside(st, w), w, inv, block, env);
      RunShared(st, w, inv, pred, block, env, mem) == Some(Ran(r.env, Overwritten(mem, st.buffers[w.debug], r.writes, cells), []))
    decreases |block|
  {
    NotPrivate(st, w);
    hide Act, Private, View, Reads, StoresWrite, Aside;
    if block != [] {
      var inst, a := block[0], Act(Aside(st, w), w, inv, block[0], env);
      AsideActs(st, w, inv, inst, env);
      if a.Set? {
        BlockOverwrites(st, w, inv, pred, block[1..], env[a.id := a.value], mem, cells);
      } else {
        StoreRuns(st, w, inv, pred, inst, env, mem, a.write.slot, a.write.value, cells);
        var cell := cells(st.buffers[w.debug], [Scalar(0), Scalar(a.write.slot)]);
        BlockOverwrites(st, w, inv, pred, block[1..], env, mem[cell := a.write.value], cells);
        var r := RunQuiet(Aside(st, w), w, inv, block[1..], env);
        assert ([a.write] + r.writes)[1..] == r.writes;
      }
    }
  }

  lemma NotPrivate(st: Statics, w: World)
    ensures !Private(st, w) ==> w.debug in st.buffers
    ensures Private(Aside(st, w), w)
  {}

  lemma {:induction false} BlockQuiet(st: Statics, w: World, inv: nat, pred: nat, block: seq<Inst>, env: Env, mem: Mem)
    requires RunQuiet(st, w, inv, block, env).Done?
    ensures var r := RunQuiet(st, w, inv, block, env); RunShared(st, w, inv, pred, block, env, mem) == Some(Ran(r.env, mem, r.writes))
    decreases |block|
  {
    hide Act;
    if block != [] {
      var a := Act(st, w, inv, block[0], env);
      BlockQuiet(st, w, inv, pred, block[1..], if a.Set? then env[a.id := a.value] else env, mem);
    }
  }

  // ---- the blocks of a module ----

  lemma AsideSupplies(st: Statics, w: World, d: Names, p: Pool, lo: nat)
    requires Supplies(st, w, d, p, lo)
    ensures Supports(Aside(st, w), w, d, p, lo)
  {}

  lemma AsideWrites(st: Statics, w: World, inv: nat, d: Names, t: Target, index: nat, env: Env)
    ensures BlockWrites(Aside(st, w), w, inv, d, t, index, env) == BlockWrites(st, w, inv, d, t, index, env)
  {
    assert forall id :: Lookup(Aside(st, w), env, id) == Lookup(st, env, id);
  }

  /** From any values and any memory, a block runs to its end. Its words go to the
      host if the buffer is private, and overwrite the shared buffer if it is not. */
  lemma BlockShares(st: Statics, w: World, inv: nat, pred: nat, d: Names, p: Pool, lo: nat, t: Target, index: nat, n: nat, env: Env, mem: Mem, cells: Cells)
    requires Supplies(st, w, d, p, lo) && lo <= n && Common(p) && OwnConstants(p, t, index) && ProbeEnd(d, t, n) < WORD
    requires Refusal(d, t).None? && Older(d, t, n) && StoresWrite(w, st, cells)
    ensures var writes := BlockWrites(st, w, inv, d, t, index, env);
      && RunShared(st, w, inv, pred, Block(d, p, t, index, n), env, mem).Some?
      && var r := RunShared(st, w, inv, pred, Block(d, p, t, index, n), env, mem).value;
         if Private(st, w) then r.mem == mem && r.log == writes
         else w.debug in st.buffers && r.mem == Overwritten(mem, st.buffers[w.debug], writes, cells) && r.log == []
  {
    hide RunQuiet, Block, BlockWrites, Supplies, Common, OwnConstants, Private, Older, Refusal, StoresWrite, RunShared, Aside;
    if Private(st, w) {
      var env' := ProbeRuns(st, w, inv, d, p, lo, t, index, n, env);
      BlockQuiet(st, w, inv, pred, Block(d, p, t, index, n), env, mem);
    } else {
      AsideSupplies(st, w, d, p, lo);
      AsideWrites(st, w, inv, d, t, index, env);
      var env' := ProbeRuns(Aside(st, w), w, inv, d, p, lo, t, index, n, env);
      BlockOverwrites(st, w, inv, pred, Block(d, p, t, index, n), env, mem, cells);
    }
  }

  /** A block writes at least its candidate's number. */
  lemma WritesFirst(st: Statics, w: World, inv: nat, d: Names, t: Target, index: nat, env: Env)
    ensures BlockWrites(st, w, inv, d, t, index, env) != []
  {}

  lemma EmptyOverwritten(buffer: nat, writes: seq<Write>, cells: Cells)
    requires writes != []
    ensures Overwritten(map[], buffer, writes, cells) != map[]
  {
    OverwrittenHas(map[], buffer, writes, cells);
    assert cells(buffer, [Scalar(0), Scalar(writes[0].slot)]) in Overwritten(map[], buffer, writes, cells);
  }

  /** The unit leaves the shared memory alone, whatever is in it. */
  ghost predicate LeavesMemory(st: Statics, w: World, inv: nat, pred: nat, block: seq<Inst>, env: Env) {
    forall mem :: RunShared(st, w, inv, pred, block, env, mem).Some? && RunShared(st, w, inv, pred, block, env, mem).value.mem == mem
  }

  /** The condition is exact. Where stores are real and a buffer is bound to the
      probe's descriptor, every inserted block runs to its end, and leaves the
      shared memory as it was if and only if that buffer is left to the probes. */
  lemma QuietIffFree(x: Probing, w: World, l: Launch, cells: Cells) returns (j: Job)
    requires Probeable(x, w, l) && ZeroThere(x.m.insts) && (x.set_ as nat, x.binding as nat) in l.table
    requires StoresWrite(w, StaticsOf(w, x.Output().insts, l.entries, l.table), cells)
    ensures Linked(j) && j.x == x && j.out == x.Output() && Flatten(Srcs(UnitsOf(j))) == j.all.insts && Flatten(Dsts(UnitsOf(j))) == j.out.insts
    ensures forall u: nat, inv: nat, pred: nat, env: Env, mem: Mem :: u < |UnitsOf(j)| && UnitsOf(j)[u].src == [] ==>
      RunShared(StaticsOf(w, j.out.insts, l.entries, l.table), w, inv, pred, UnitsOf(j)[u].dst, env, mem).Some?
    ensures forall u: nat, inv: nat, pred: nat, env: Env :: u < |UnitsOf(j)| && UnitsOf(j)[u].src == [] ==>
      (LeavesMemory(StaticsOf(w, j.out.insts, l.entries, l.table), w, inv, pred, UnitsOf(j)[u].dst, env) <==> Free(w, x.m, x.set_, x.binding, l.table))
  {
    hide Probeable, Linked, Observable, UnitsOf, StaticsOf, Private, Free, StoresWrite, RunShared, LeavesMemory;
    j := JobObservable(x, w, l);
    UnitsOfFlat(j);
    var st := StaticsOf(w, j.out.insts, l.entries, l.table);
    JobPrivate(w, j, l.entries, l.table);
    forall u: nat, inv: nat, pred: nat, env: Env, mem: Mem | u < |UnitsOf(j)| && UnitsOf(j)[u].src == []
      ensures RunShared(st, w, inv, pred, UnitsOf(j)[u].dst, env, mem).Some?
    {
      var writes := UnitShares(w, j, l, u, inv, pred, env, mem, cells);
    }
    forall u: nat, inv: nat, pred: nat, env: Env | u < |UnitsOf(j)| && UnitsOf(j)[u].src == []
      ensures LeavesMemory(st, w, inv, pred, UnitsOf(j)[u].dst, env) <==> Private(st, w)
    {
      UnitLeaves(w, j, l, u, inv, pred, env, cells);
    }
  }

  lemma UnitShares(w: World, j: Job, l: Launch, u: nat, inv: nat, pred: nat, env: Env, mem: Mem, cells: Cells) returns (writes: seq<Write>)
    requires Linked(j) && Observable(w, j, l.entries, l.table) && ZeroThere(j.m.insts) && u < |UnitsOf(j)| && UnitsOf(j)[u].src == []
    requires StoresWrite(w, StaticsOf(w, j.out.insts, l.entries, l.table), cells)
    ensures writes != []
    ensures var st := StaticsOf(w, j.out.insts, l.entries, l.table);
      && RunShared(st, w, inv, pred, UnitsOf(j)[u].dst, env, mem).Some?
      && var r := RunShared(st, w, inv, pred, UnitsOf(j)[u].dst, env, mem).value;
         if Private(st, w) then r.mem == mem && r.log == writes
         else w.debug in st.buffers && r.mem == Overwritten(mem, st.buffers[w.debug], writes, cells) && r.log == []
  {
    hide Linked, Observable, UnitsOf, StaticsOf, Block, Refusal, Older, Common, OwnConstants, Supplies, Private, RunShared, StoresWrite, BlockWrites;
    var st := StaticsOf(w, j.out.insts, l.entries, l.table);
    var k, i, n := UnitFits(w, j, l.entries, l.table, u);
    JobSupplies(w, j, l.entries, l.table);
    JobConstants(j, i);
    writes := BlockWrites(st, w, inv, j.d, j.targets[i], i, env);
    WritesFirst(st, w, inv, j.d, j.targets[i], i, env);
    BlockShares(st, w, inv, pred, j.d, j.p, j.all.next, j.targets[i], i, n, env, mem, cells);
  }

  lemma UnitLeaves(w: World, j: Job, l: Launch, u: nat, inv: nat, pred: nat, env: Env, cells: Cells)
    requires Linked(j) && Observable(w, j, l.entries, l.table) && ZeroThere(j.m.insts) && u < |UnitsOf(j)| && UnitsOf(j)[u].src == []
    requires StoresWrite(w, StaticsOf(w, j.out.insts, l.entries, l.table), cells)
    ensures var st := StaticsOf(w, j.out.insts, l.entries, l.table);
      LeavesMemory(st, w, inv, pred, UnitsOf(j)[u].dst, env) <==> Private(st, w)
  {
    hide Linked, Observable, UnitsOf, StaticsOf, Private, RunShared, StoresWrite;
    var st := StaticsOf(w, j.out.insts, l.entries, l.table);
    if Private(st, w) {
      forall mem ensures RunShared(st, w, inv, pred, UnitsOf(j)[u].dst, env, mem).Some? && RunShared(st, w, inv, pred, UnitsOf(j)[u].dst, env, mem).value.mem == mem {
        var writes := UnitShares(w, j, l, u, inv, pred, env, mem, cells);
      }
    } else {
      var writes := UnitShares(w, j, l, u, inv, pred, env, map[], cells);
      EmptyOverwritten(st.buffers[w.debug], writes, cells);
      assert RunShared(st, w, inv, pred, UnitsOf(j)[u].dst, env, map[]).value.mem != map[];
    }
  }
}
