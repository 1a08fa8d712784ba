/** The instrumentation does not interfere: the probed module does, for the host,
    exactly what the original does. */
module InstrumentSound {
  import opened Words
  import opened Ops
  import opened Machine
  import opened Translation
  import opened Reproduction
  import opened Meaning
  import opened Instrumenter
  import opened ProbeBlocks

  // ---- modules that mean the same to ids below a bound ----

  ghost predicate SameBelow<V>(a: map<nat, V>, b: map<nat, V>, bound: nat) {
    forall id :: id < bound ==> (id in a <==> id in b) && (id in b ==> a[id] == b[id])
  }

  ghost predicate SameExcept<V>(a: map<nat, V>, b: map<nat, V>, v: nat) {
    forall id :: id != v ==> (id in a <==> id in b) && (id in b ==> a[id] == b[id])
  }

  /** Id of the debug variable. */
  function DebugVar(bound: nat): nat { bound + 3 }

  ghost predicate Same(w: World, s: Specialization, bound: nat, a: seq<Inst>, b: seq<Inst>) {
    && Code(a) == Code(b) && Moduli(a) == Moduli(b) && Quads(a) == Quads(b)
    && Decorations(a, SPEC_ID) == Decorations(b, SPEC_ID)
    && SameBelow(Consts(w, s, a), Consts(w, s, b), bound)
    && SameExcept(Decorations(a, DESCRIPTOR_SET), Decorations(b, DESCRIPTOR_SET), DebugVar(bound))
    && SameExcept(Decorations(a, BINDING), Decorations(b, BINDING), DebugVar(bound))
  }

  /** A declaration that only concerns ids from `bound` on. */
  predicate Neutral(inst: Inst, bound: nat) {
    && Declarative(Op(inst)) && !IntType(inst) && Op(inst) != TYPE_VECTOR
    && !Decorates(inst, SPEC_ID)
    && (Decorates(inst, DESCRIPTOR_SET) || Decorates(inst, BINDING) ==> inst[1] == DebugVar(bound))
    && (DeclaredId(inst).Some? ==> DeclaredId(inst).value >= bound)
  }

  /** Constants are made of constants below the bound. */
  predicate ReadsOld(inst: Inst, bound: nat) {
    && (Op(inst) == CONSTANT_COMPOSITE || Op(inst) == SPEC_CONSTANT_COMPOSITE ==> forall i :: 3 <= i < |inst| ==> inst[i] < bound)
    && (Op(inst) == SPEC_CONSTANT_OP ==> forall i :: 4 <= i < |inst| ==> inst[i] < bound)
  }

  predicate AllReadOld(insts: seq<Inst>, bound: nat) {
    forall k :: 0 <= k < |insts| ==> ReadsOld(insts[k], bound)
  }

  lemma GetsSame(a: Env, b: Env, bound: nat, ids: seq<Word>)
    requires SameBelow(a, b, bound) && forall i :: 0 <= i < |ids| ==> ids[i] < bound
    ensures Gets(a, ids) == Gets(b, ids)
  {}

  lemma DeclaredSame(w: World, s: Specialization, bound: nat, a: Env, b: Env, inst: Inst)
    requires SameBelow(a, b, bound) && ReadsOld(inst, bound)
    ensures Declared(w, s, a, inst) == Declared(w, s, b, inst)
  {
    if (Op(inst) == CONSTANT_COMPOSITE || Op(inst) == SPEC_CONSTANT_COMPOSITE) && |inst| >= 3 {
      GetsSame(a, b, bound, inst[3..]);
    } else if Op(inst) == SPEC_CONSTANT_OP && |inst| >= 5 {
      GetsSame(a, b, bound, inst[4..]);
      assert Get(a, inst[4]) == Get(b, inst[4]);
      if |inst| == 6 { assert Get(a, inst[5]) == Get(b, inst[5]); }
    }
  }

  lemma SameSnoc(w: World, s: Specialization, bound: nat, a: seq<Inst>, b: seq<Inst>, inst: Inst)
    requires Same(w, s, bound, a, b) && ReadsOld(inst, bound)
    ensures Same(w, s, bound, a + [inst], b + [inst])
  {
    assert (a + [inst])[..|a|] == a && (b + [inst])[..|b|] == b;
    DeclaredSame(w, s, bound, Consts(w, s, a), Consts(w, s, b), inst);
  }

  lemma SameExtra(w: World, s: Specialization, bound: nat, a: seq<Inst>, b: seq<Inst>, inst: Inst)
    requires Same(w, s, bound, a, b) && Neutral(inst, bound)
    ensures Same(w, s, bound, a + [inst], b)
  {
    assert (a + [inst])[..|a|] == a;
  }

  lemma {:induction false} SameExtras(w: World, s: Specialization, bound: nat, a: seq<Inst>, x: seq<Inst>)
    requires forall i :: 0 <= i < |x| ==> Neutral(x[i], bound)
    ensures Same(w, s, bound, a + x, a)
    decreases |x|
  {
    if x == [] {
      assert a + x == a;
    } else {
      var front, last := x[..|x| - 1], x[|x| - 1];
      SameExtras(w, s, bound, a, front);
      SameExtra(w, s, bound, a + front, a, last);
      assert a + x == (a + front) + [last];
    }
  }

  /** Neutral declarations may be inserted anywhere. */
  lemma {:induction false} SameInserted(w: World, s: Specialization, bound: nat, a: seq<Inst>, x: seq<Inst>, b: seq<Inst>)
    requires forall i :: 0 <= i < |x| ==> Neutral(x[i], bound)
    requires AllReadOld(b, bound)
    ensures Same(w, s, bound, a + x + b, a + b)
    decreases |b|
  {
    if b == [] {
      SameExtras(w, s, bound, a, x);
      assert a + x + b == a + x && a + b == a;
    } else {
      var front, last := b[..|b| - 1], b[|b| - 1];
      SameInserted(w, s, bound, a, x, front);
      SameSnoc(w, s, bound, a + x + front, a + front, last);
      assert a + x + b == (a + x + front) + [last] && a + b == (a + front) + [last];
    }
  }

  lemma SameTransitive(w: World, s: Specialization, bound: nat, a: seq<Inst>, b: seq<Inst>, c: seq<Inst>)
    requires Same(w, s, bound, a, b) && Same(w, s, bound, b, c)
    ensures Same(w, s, bound, a, c)
  {}

  lemma SpliceSame(w: World, s: Specialization, bound: nat, insts: seq<Inst>, at: nat, x: seq<Inst>)
    requires at <= |insts| && AllReadOld(insts, bound)
    requires forall i :: 0 <= i < |x| ==> Neutral(x[i], bound)
    ensures Same(w, s, bound, Splice(insts, at, x), insts)
  {
    SameInserted(w, s, bound, insts[..at], x, insts[at..]);
    assert insts[..at] + insts[at..] == insts;
  }

  lemma ReplaceSame(w: World, s: Specialization, bound: nat, insts: seq<Inst>, at: nat, y: Inst)
    requires at < |insts| && AllReadOld(insts, bound) && Neutral(insts[at], bound) && Neutral(y, bound)
    ensures Same(w, s, bound, insts[at := y], insts)
  {
    var a, b := insts[..at], insts[at + 1..];
    SameInserted(w, s, bound, a, [insts[at]], b);
    SameInserted(w, s, bound, a, [y], b);
    assert a + [insts[at]] + b == insts && a + [y] + b == insts[at := y];
  }

  lemma SpliceReads(insts: seq<Inst>, at: nat, x: seq<Inst>, bound: nat)
    requires at <= |insts| && AllReadOld(insts, bound) && AllReadOld(x, bound)
    ensures AllReadOld(Splice(insts, at, x), bound)
  {}

  // ---- unique ids ----

  lemma GoodSplice(insts: seq<Inst>, at: nat, x: seq<Inst>, bound: nat, bound': nat)
    requires at <= |insts| && GoodIds(insts, bound) && bound <= bound'
    requires forall i, j :: 0 <= i < j < |Ids(x)| ==> Ids(x)[i] != Ids(x)[j]
    requires forall i :: 0 <= i < |Ids(x)| ==> bound <= Ids(x)[i] < bound'
    ensures GoodIds(Splice(insts, at, x), bound')
  {
    var a, b := insts[..at], insts[at..];
    assert insts == a + b;
    IdsAppend(a, b);
    IdsAppend(a, x);
    IdsAppend(a + x, b);
    Interleaved(Ids(a), Ids(x), Ids(b), bound, bound');
  }

  lemma Interleaved(a: seq<nat>, x: seq<nat>, b: seq<nat>, bound: nat, bound': nat)
    requires forall i, j :: 0 <= i < j < |a + b| ==> (a + b)[i] != (a + b)[j]
    requires forall i :: 0 <= i < |a + b| ==> (a + b)[i] < bound
    requires forall i, j :: 0 <= i < j < |x| ==> x[i] != x[j]
    requires forall i :: 0 <= i < |x| ==> bound <= x[i] < bound'
    requires bound <= bound'
    ensures forall i, j :: 0 <= i < j < |a + x + b| ==> (a + x + b)[i] != (a + x + b)[j]
    ensures forall i :: 0 <= i < |a + x + b| ==> (a + x + b)[i] < bound'
  {
    var s, t := a + b, a + x + b;
    forall i | 0 <= i < |t|
      ensures Inside(i, a, x) ==> i - |a| < |x| && t[i] == x[i - |a|]
      ensures !Inside(i, a, x) ==> Outside(i, a, x) < |s| && t[i] == s[Outside(i, a, x)]
    {}
    forall i, j | 0 <= i < j < |t|
      ensures t[i] != t[j]
    {
      if Inside(i, a, x) && Inside(j, a, x) { assert x[i - |a|] != x[j - |a|]; }
      else if !Inside(i, a, x) && !Inside(j, a, x) { assert s[Outside(i, a, x)] != s[Outside(j, a, x)]; }
    }
  }

  predicate Inside(i: nat, a: seq<nat>, x: seq<nat>) { |a| <= i < |a| + |x| }

  function Outside(i: nat, a: seq<nat>, x: seq<nat>): nat
    requires !Inside(i, a, x)
  {
    if i < |a| then i else i - |x|
  }

  // ---- the constants ----

  /** Constant `i` of the pool has the id `start + i`, and each request its own. */
  ghost predicate PoolOk(uintT: Word, p: Pool, start: nat) {
    && p.next == start + |p.constants|
    && (forall i :: 0 <= i < |p.constants| ==> |p.constants[i]| == 4 && p.constants[i] == ConstantInst(uintT, start + i, p.constants[i][3]))
    && (forall r :: p.Has(r) ==> start <= p.Id(r) < p.next && p.constants[p.Id(r) - start][3] == W(Number(r)))
  }

  lemma AskOk(uintT: Word, p: Pool, r: Request, start: nat)
    requires PoolOk(uintT, p, start)
    ensures PoolOk(uintT, Ask(uintT, p, r), start)
  {
    var q := Ask(uintT, p, r);
    if !p.Has(r) {
      forall i | 0 <= i < |q.constants|
        ensures |q.constants[i]| == 4 && q.constants[i] == ConstantInst(uintT, start + i, q.constants[i][3])
      {
        if i < |p.constants| { assert q.constants[i] == p.constants[i]; }
      }
      forall o | q.Has(o)
        ensures start <= q.Id(o) < q.next && q.constants[q.Id(o) - start][3] == W(Number(o))
      {
        if o != r { assert p.Has(o) && q.Id(o) == p.Id(o); }
      }
    }
  }

  lemma {:induction false} ServeOk(uintT: Word, p: Pool, rs: seq<Request>, start: nat)
    requires PoolOk(uintT, p, start)
    ensures PoolOk(uintT, Serve(uintT, p, rs), start)
  {
    if rs != [] {
      ServeOk(uintT, p, rs[..|rs| - 1], start);
      AskOk(uintT, Serve(uintT, p, rs[..|rs| - 1]), rs[|rs| - 1], start);
    }
  }

  lemma PreludeOk(uintT: Word, targets: seq<Target>, start: nat)
    ensures PoolOk(uintT, Prelude(uintT, targets, start), start)
  {
    ServeOk(uintT, Pool(map[], map[], [], start), RecordRequests(targets) + CommonRequests(), start);
  }

  // ---- the declared module ----

  lemma AnnotationsNeutral(bound: nat, set_: Word, binding: Word)
    requires bound + 5 <= WORD
    ensures var x := Annotations(bound, set_, binding);
      && (forall i :: 0 <= i < |x| ==> Neutral(x[i], bound)) && AllReadOld(x, bound) && Ids(x) == []
  {
    var x := Annotations(bound, set_, binding);
    forall i | 0 <= i < |x| ensures Neutral(x[i], bound) && DeclaredId(x[i]).None? {
      if i == 0 {} else if i == 1 {} else if i == 2 {} else if i == 3 {} else {}
    }
    NoIds(x);
  }

  lemma {:induction false} NoIds(x: seq<Inst>)
    requires forall i :: 0 <= i < |x| ==> DeclaredId(x[i]).None?
    ensures Ids(x) == []
  {
    if x != [] { NoIds(x[..|x| - 1]); }
  }

  /** The type of pointers to its words. */
  function WordPointer(bound: nat, uintT: Word): Inst {
    [Head(4, TYPE_POINTER), W(bound + 4), STORAGE_BUFFER, uintT]
  }

  ghost predicate HasBuffer(lines: seq<Inst>, bound: nat, uintT: Word) {
    DebugVariable(bound) in lines && WordPointer(bound, uintT) in lines
  }

  lemma DeclarationsNeutral(bound: nat, uintT: Word)
    requires bound + 5 <= WORD
    ensures var x := BufferDeclarations(bound, uintT);
      && (forall i :: 0 <= i < |x| ==> Neutral(x[i], bound)) && AllReadOld(x, bound)
      && Ids(x) == [bound, bound + 1, bound + 2, bound + 4, bound + 3] && HasBuffer(x, bound, uintT)
  {
    var x := BufferDeclarations(bound, uintT);
    forall i | 0 <= i < |x| ensures Neutral(x[i], bound) && DeclaredId(x[i]).Some? {
      if i == 0 {} else if i == 1 {} else if i == 2 {} else if i == 3 {} else {}
    }
    DeclareEach(x, [bound, bound + 1, bound + 2, bound + 4, bound + 3]);
    assert x[3] == WordPointer(bound, uintT) && x[4] == DebugVariable(bound);
  }

  lemma {:induction false} DeclareEach(x: seq<Inst>, ids: seq<nat>)
    requires |x| == |ids| && forall i :: 0 <= i < |x| ==> DeclaredId(x[i]) == Some(ids[i])
    ensures Ids(x) == ids
  {
    if x != [] {
      DeclareEach(x[..|x| - 1], ids[..|ids| - 1]);
      assert ids == ids[..|ids| - 1] + [ids[|ids| - 1]];
    }
  }

  lemma ConstantsNeutral(uintT: Word, p: Pool, start: nat, bound: nat)
    requires PoolOk(uintT, p, start) && bound <= start && p.next <= WORD
    ensures (forall i :: 0 <= i < |p.constants| ==> Neutral(p.constants[i], bound)) && AllReadOld(p.constants, bound)
    ensures Ids(p.constants) == Range(start, p.next)
  {
    DeclareEach(p.constants, Range(start, p.next));
  }

  lemma SpliceHas(insts: seq<Inst>, at: nat, x: seq<Inst>, inst: Inst)
    requires at <= |insts|
    ensures inst in Splice(insts, at, x) <==> inst in insts || inst in x
  {
    assert insts == insts[..at] + insts[at..];
  }

  /** What the instrumenter relies on: unique ids below the bound, constants and
      instructions that read only such ids, and no decorated id above it. */
  ghost predicate Sourced(w: World, m: Module) {
    && m.Valid() && GoodIds(m.insts, m.Bound()) && AllReadOld(m.insts, m.Bound())
    && ReadsBelow(w, Code(m.insts), m.Bound())
    && (forall v :: v in Decorations(m.insts, DESCRIPTOR_SET) ==> v < m.Bound())
    && (forall v :: v in Decorations(m.insts, BINDING) ==> v < m.Bound())
    && w.debug == DebugVar(m.Bound())
  }

  /** `lines` is the module `m` with neutral declarations, its ids below `next`. */
  ghost predicate Extended(w: World, s: Specialization, m: Module, lines: seq<Inst>, uintT: Word, next: nat)
    requires |m.header| == HEADER
  {
    && Same(w, s, m.Bound(), lines, m.insts) && AllReadOld(lines, m.Bound()) && GoodIds(lines, next)
    && HasInt(lines, uintT, 32)
    && |Ids(lines)| + m.Bound() == |Ids(m.insts)| + next
    && (forall id: nat :: id < m.Bound() ==> (id in Ids(lines) <==> id in Ids(m.insts)))
  }

  lemma SpliceIds(insts: seq<Inst>, at: nat, x: seq<Inst>, id: nat)
    requires at <= |insts|
    ensures id in Ids(Splice(insts, at, x)) <==> id in Ids(insts) || id in Ids(x)
  {
    assert insts == insts[..at] + insts[at..];
    IdsAppend(insts[..at], insts[at..]);
    IdsAppend(insts[..at], x);
    IdsAppend(insts[..at] + x, insts[at..]);
  }

  lemma SpliceCount(insts: seq<Inst>, at: nat, x: seq<Inst>)
    requires at <= |insts|
    ensures |Ids(Splice(insts, at, x))| == |Ids(insts)| + |Ids(x)|
  {
    assert insts == insts[..at] + insts[at..];
    IdsAppend(insts[..at], insts[at..]);
    IdsAppend(insts[..at], x);
    IdsAppend(insts[..at] + x, insts[at..]);
  }

  lemma ExtendMore(w: World, s: Specialization, m: Module, lines: seq<Inst>, uintT: Word, next: nat, at: nat, x: seq<Inst>, next': nat)
    requires |m.header| == HEADER && Extended(w, s, m, lines, uintT, next) && at <= |lines| && m.Bound() <= next
    requires (forall i :: 0 <= i < |x| ==> Neutral(x[i], m.Bound())) && AllReadOld(x, m.Bound())
    requires forall i, j :: 0 <= i < j < |Ids(x)| ==> Ids(x)[i] != Ids(x)[j]
    requires next + |Ids(x)| == next' && forall i :: 0 <= i < |Ids(x)| ==> next <= Ids(x)[i] < next'
    ensures Extended(w, s, m, Splice(lines, at, x), uintT, next')
  {
    hide Same, GoodIds, HasInt, Splice, AllReadOld, Neutral;
    var out := Splice(lines, at, x);
    assert AllReadOld(lines, m.Bound()) && GoodIds(lines, next);
    SpliceSame(w, s, m.Bound(), lines, at, x);
    SameTransitive(w, s, m.Bound(), out, lines, m.insts);
    SpliceReads(lines, at, x, m.Bound());
    GoodSplice(lines, at, x, next, next');
    SpliceInt(lines, at, x, uintT);
    SpliceCount(lines, at, x);
    forall id: nat | id < m.Bound() ensures id in Ids(out) <==> id in Ids(m.insts) { SpliceIds(lines, at, x, id); }
  }

  lemma SpliceInt(lines: seq<Inst>, at: nat, x: seq<Inst>, uintT: Word)
    requires at <= |lines| && HasInt(lines, uintT, 32)
    ensures HasInt(Splice(lines, at, x), uintT, 32)
  {
    var k :| 0 <= k < |lines| && IsInt(lines[k], 32) && lines[k][1] == uintT;
    SpliceHas(lines, at, x, lines[k]);
    var out := Splice(lines, at, x);
    var j :| 0 <= j < |out| && out[j] == lines[k];
    assert IsInt(out[j], 32);
  }

  lemma AnnotateWell(w: World, s: Specialization, m: Module, lines: seq<Inst>, uintT: Word, t: nat, x: seq<Inst>, set_: Word, binding: Word)
    requires |m.header| == HEADER && m.Bound() + 5 <= WORD && Extended(w, s, m, lines, uintT, m.Bound()) && t <= |lines|
    requires x == Annotations(m.Bound(), set_, binding)
    ensures Extended(w, s, m, Splice(lines, t, x), uintT, m.Bound())
  {
    hide Annotations, Extended, Neutral, AllReadOld;
    AnnotationsNeutral(m.Bound(), set_, binding);
    ExtendMore(w, s, m, lines, uintT, m.Bound(), t, x, m.Bound());
  }

  lemma BufferWell(w: World, s: Specialization, m: Module, lines: seq<Inst>, uintT: Word, f: nat, x: seq<Inst>)
    requires |m.header| == HEADER && m.Bound() + 5 <= WORD && Extended(w, s, m, lines, uintT, m.Bound()) && f <= |lines|
    requires x == BufferDeclarations(m.Bound(), uintT)
    ensures Extended(w, s, m, Splice(lines, f, x), uintT, m.Bound() + 5) && HasBuffer(Splice(lines, f, x), m.Bound(), uintT)
  {
    hide BufferDeclarations, Extended, Neutral, AllReadOld;
    DeclarationsNeutral(m.Bound(), uintT);
    ExtendMore(w, s, m, lines, uintT, m.Bound(), f, x, m.Bound() + 5);
    SpliceHas(lines, f, x, DebugVariable(m.Bound()));
    SpliceHas(lines, f, x, WordPointer(m.Bound(), uintT));
  }

  lemma DeclareWell(w: World, s: Specialization, m: Module, set_: Word, binding: Word)
    requires Sourced(w, m) && m.Bound() + 5 <= WORD && DeclareBuffer(m, set_, binding).Ok?
    ensures First(IsUint, m.insts).Some?
    ensures var lines, uintT := DeclareBuffer(m, set_, binding).value, m.insts[First(IsUint, m.insts).value][1];
      Extended(w, s, m, lines, uintT, m.Bound() + 5) && HasBuffer(lines, m.Bound(), uintT)
  {
    hide Annotations, BufferDeclarations, Extended, HasBuffer;
    var bound: nat := m.Bound();
    var u, e := First(IsUint, m.insts).value, First(IsMain, m.insts).value;
    var uintT := m.insts[u][1];
    var lines := m.insts[e := WithInterface(m.insts[e], bound + 3)];
    EntryReplaced(w, s, m, e, u);
    var t := First(IsType, lines).value;
    AnnotateWell(w, s, m, lines, uintT, t, Annotations(bound, set_, binding), set_, binding);
    var annotated := Splice(lines, t, Annotations(bound, set_, binding));
    BufferWell(w, s, m, annotated, uintT, First(IsFunction, annotated).value, BufferDeclarations(bound, uintT));
  }

  lemma EntryReplaced(w: World, s: Specialization, m: Module, e: nat, u: nat)
    requires Sourced(w, m) && e < |m.insts| && IsMain(m.insts[e]) && |m.insts[e]| < 65535
    requires u < |m.insts| && IsUint(m.insts[u])
    ensures Extended(w, s, m, m.insts[e := WithInterface(m.insts[e], m.Bound() + 3)], m.insts[u][1], m.Bound())
  {
    assert IsInt(m.insts[e := WithInterface(m.insts[e], m.Bound() + 3)][u], 32);
    var y := WithInterface(m.insts[e], m.Bound() + 3);
    ReplaceSame(w, s, m.Bound(), m.insts, e, y);
    IdsReplaced(m.insts, e, y);
  }

  lemma IdsReplaced(insts: seq<Inst>, e: nat, y: Inst)
    requires e < |insts| && DeclaredId(insts[e]) == DeclaredId(y)
    ensures Ids(insts[e := y]) == Ids(insts)
    decreases |insts|
  {
    var out := insts[e := y];
    if e < |insts| - 1 {
      assert out[..|out| - 1] == insts[..|insts| - 1][e := y];
      IdsReplaced(insts[..|insts| - 1], e, y);
    } else {
      assert out[..|out| - 1] == insts[..|insts| - 1];
    }
  }

  // ---- the descriptor of the probe variable ----

  /** The last operand of a decoration of `v`. */
  function Decorated(insts: seq<Inst>, decoration: nat, v: nat): Option<Word> {
    if v in Decorations(insts, decoration) then Some(Decorations(insts, decoration)[v]) else None
  }

  lemma {:induction false} DecoratedAppend(a: seq<Inst>, b: seq<Inst>, decoration: nat, v: nat)
    ensures Decorated(a + b, decoration, v) ==
      if Decorated(b, decoration, v).Some? then Decorated(b, decoration, v) else Decorated(a, decoration, v)
    decreases |b|
  {
    if b == [] {
      assert a + b == a;
    } else {
      assert (a + b)[..|a + b| - 1] == a + b[..|b| - 1];
      DecoratedAppend(a, b[..|b| - 1], decoration, v);
    }
  }

  lemma DecoratedSplice(insts: seq<Inst>, at: nat, x: seq<Inst>, decoration: nat, v: nat)
    requires at <= |insts|
    ensures Decorated(x, decoration, v).None? ==> Decorated(Splice(insts, at, x), decoration, v) == Decorated(insts, decoration, v)
    ensures Decorated(insts, decoration, v).None? ==> Decorated(Splice(insts, at, x), decoration, v) == Decorated(x, decoration, v)
  {
    hide Decorated;
    assert insts == insts[..at] + insts[at..];
    DecoratedAppend(insts[..at], insts[at..], decoration, v);
    DecoratedAppend(insts[..at], x, decoration, v);
    DecoratedAppend(insts[..at] + x, insts[at..], decoration, v);
  }

  lemma {:induction false} Undecorated(x: seq<Inst>, decoration: nat, v: nat)
    requires forall i :: 0 <= i < |x| ==> !(Decorates(x[i], decoration) && x[i][1] == v)
    ensures Decorated(x, decoration, v).None?
  {
    if x != [] { Undecorated(x[..|x| - 1], decoration, v); }
  }

  lemma {:induction false} AnnotationsDecorate(bound: nat, set_: Word, binding: Word)
    requires bound + 5 <= WORD
    ensures Decorated(Annotations(bound, set_, binding), DESCRIPTOR_SET, DebugVar(bound)) == Some(set_)
    ensures Decorated(Annotations(bound, set_, binding), BINDING, DebugVar(bound)) == Some(binding)
  {
    var x, v := Annotations(bound, set_, binding), DebugVar(bound);
    Undecorated(x[..3], DESCRIPTOR_SET, v);
    Undecorated(x[..3], BINDING, v);
    assert x[..4][..3] == x[..3] && x[..5][..4] == x[..4] && x[..5] == x;
    assert Decorations(x[..4], DESCRIPTOR_SET) == Decorations(x[..3], DESCRIPTOR_SET)[v := set_];
    assert Decorations(x[..4], BINDING) == Decorations(x[..3], BINDING);
  }

  /** The probe variable has the descriptor asked for. */
  ghost predicate Described(lines: seq<Inst>, bound: nat, set_: Word, binding: Word) {
    Decorated(lines, DESCRIPTOR_SET, DebugVar(bound)) == Some(set_) && Decorated(lines, BINDING, DebugVar(bound)) == Some(binding)
  }

  lemma DescribedMore(lines: seq<Inst>, at: nat, x: seq<Inst>, bound: nat, set_: Word, binding: Word)
    requires Described(lines, bound, set_, binding) && at <= |lines|
    requires forall i :: 0 <= i < |x| ==> Op(x[i]) != DECORATE
    ensures Described(Splice(lines, at, x), bound, set_, binding)
  {
    hide Decorated;
    var v := DebugVar(bound);
    Undecorated(x, DESCRIPTOR_SET, v);
    Undecorated(x, BINDING, v);
    DecoratedSplice(lines, at, x, DESCRIPTOR_SET, v);
    DecoratedSplice(lines, at, x, BINDING, v);
  }

  lemma EntryUndecorated(insts: seq<Inst>, e: nat, y: Inst, decoration: nat, v: nat)
    requires e < |insts| && Op(insts[e]) != DECORATE && Op(y) != DECORATE && Decorated(insts, decoration, v).None?
    ensures Decorated(insts[e := y], decoration, v).None?
  {
    hide Decorated;
    var a, b := insts[..e], insts[e + 1..];
    Undecorated([insts[e]], decoration, v);
    Undecorated([y], decoration, v);
    DecoratedSplice(a + b, e, [insts[e]], decoration, v);
    DecoratedSplice(a + b, e, [y], decoration, v);
    assert Splice(a + b, e, [insts[e]]) == insts && Splice(a + b, e, [y]) == insts[e := y];
  }

  lemma DeclareDescribes(w: World, m: Module, set_: Word, binding: Word)
    requires Sourced(w, m) && m.Bound() + 5 <= WORD && DeclareBuffer(m, set_, binding).Ok?
    ensures Described(DeclareBuffer(m, set_, binding).value, m.Bound(), set_, binding)
  {
    hide Annotations, BufferDeclarations, Decorated, Decorations;
    var bound: nat := m.Bound();
    var u, e := First(IsUint, m.insts).value, First(IsMain, m.insts).value;
    var lines := m.insts[e := WithInterface(m.insts[e], bound + 3)];
    NotDecorated(w, m, DebugVar(bound));
    EntryUndecorated(m.insts, e, lines[e], DESCRIPTOR_SET, DebugVar(bound));
    EntryUndecorated(m.insts, e, lines[e], BINDING, DebugVar(bound));
    var t, x := First(IsType, lines).value, Annotations(bound, set_, binding);
    AnnotationsDecorate(bound, set_, binding);
    DecoratedSplice(lines, t, x, DESCRIPTOR_SET, DebugVar(bound));
    DecoratedSplice(lines, t, x, BINDING, DebugVar(bound));
    var annotated := Splice(lines, t, x);
    BufferUndecorated(bound, m.insts[u][1]);
    DescribedMore(annotated, First(IsFunction, annotated).value, BufferDeclarations(bound, m.insts[u][1]), bound, set_, binding);
  }

  lemma NotDecorated(w: World, m: Module, v: nat)
    requires Sourced(w, m) && v >= m.Bound()
    ensures Decorated(m.insts, DESCRIPTOR_SET, v).None? && Decorated(m.insts, BINDING, v).None?
  {}

  lemma BufferUndecorated(bound: nat, uintT: Word)
    ensures forall i :: 0 <= i < |BufferDeclarations(bound, uintT)| ==> Op(BufferDeclarations(bound, uintT)[i]) != DECORATE
  {}

  /** What the dispatch must grant: it binds a buffer to the probe's descriptor
      that is neither read-only nor bound to a variable of the module. */
  ghost predicate Free(w: World, m: Module, set_: Word, binding: Word, table: Table) {
    var key := (set_ as nat, binding as nat);
    && key in table && table[key] !in w.rom
    && forall v :: v in Buffers(m.insts, table) ==> Buffers(m.insts, table)[v] != table[key]
  }

  /** Exactly then the probe buffer is for probes only. */
  lemma PrivateIffFree(w: World, s: Specialization, m: Module, all: seq<Inst>, uintT: Word, next: nat, set_: Word, binding: Word, table: Table, st: Statics)
    requires Sourced(w, m) && Extended(w, s, m, all, uintT, next) && Described(all, m.Bound(), set_, binding)
    requires (set_ as nat, binding as nat) in table && st.buffers == Buffers(all, table)
    ensures Private(st, w) <==> Free(w, m, set_, binding, table)
    ensures forall t: Statics :: t.buffers == Buffers(m.insts, table) ==> Private(t, w)
  {
    hide AllReadOld, GoodIds, HasInt, ReadsBelow, Decorations;
    forall v | v != w.debug
      ensures v in st.buffers <==> v in Buffers(m.insts, table)
      ensures v in st.buffers ==> st.buffers[v] == Buffers(m.insts, table)[v]
    {
      BuffersSame(w, s, m.Bound(), all, m.insts, table, v);
    }
    if Free(w, m, set_, binding, table) {
      assert Private(st, w);
    }
    if Private(st, w) {
      forall v | v in Buffers(m.insts, table)
        ensures Buffers(m.insts, table)[v] != table[(set_ as nat, binding as nat)]
      {
        assert v in st.buffers && v != w.debug;
      }
    }
  }

  // ---- the module before its stores are probed ----

  /** The declared lines, with the constants if anything is to be probed. */
  function Prepared(lines: seq<Inst>, targets: seq<Target>, uintT: Word, bound: nat): (r: Result<Probed>) {
    if targets == [] then Ok(Probed(lines, bound + 5))
    else match First(IsFunction, lines)
      case None => Err(Unprobed("function"))
      case Some(f) =>
        var p := Prelude(uintT, targets, bound + 5);
        Ok(Probed(Splice(lines, f, p.constants), p.next))
  }

  lemma RangeDistinct(lo: nat, hi: nat)
    requires lo <= hi
    ensures (forall i, j :: 0 <= i < j < |Range(lo, hi)| ==> Range(lo, hi)[i] != Range(lo, hi)[j])
    ensures forall i :: 0 <= i < |Range(lo, hi)| ==> lo <= Range(lo, hi)[i] < hi
  {}

  lemma FirstFits(lines: seq<Inst>)
    ensures First(IsFunction, lines).Some? ==> First(IsFunction, lines).value <= |lines|
  {}

  lemma PoolGrows(uintT: Word, p: Pool, start: nat)
    requires PoolOk(uintT, p, start)
    ensures start <= p.next
  {}

  lemma PreparedWell(w: World, s: Specialization, m: Module, lines: seq<Inst>, uintT: Word, targets: seq<Target>)
    requires |m.header| == HEADER && Extended(w, s, m, lines, uintT, m.Bound() + 5)
    requires Prepared(lines, targets, uintT, m.Bound()).Ok? && Prepared(lines, targets, uintT, m.Bound()).value.next <= WORD
    ensures var all := Prepared(lines, targets, uintT, m.Bound()).value;
      Extended(w, s, m, all.insts, uintT, all.next) && forall inst :: inst in lines ==> inst in all.insts
  {
    hide Extended, CommonRequests, RecordRequests, Prelude, PoolOk, AllReadOld, Neutral, Splice, Ids, Range, First;
    if targets != [] {
      var bound: nat := m.Bound();
      var f, p := First(IsFunction, lines).value, Prelude(uintT, targets, bound + 5);
      PreludeOk(uintT, targets, bound + 5);
      ConstantsNeutral(uintT, p, bound + 5, bound);
      PoolGrows(uintT, p, bound + 5);
      RangeDistinct(bound + 5, p.next);
      FirstFits(lines);
      ExtendMore(w, s, m, lines, uintT, bound + 5, f, p.constants, p.next);
      forall inst | inst in lines
        ensures inst in Splice(lines, f, p.constants)
      {
        SpliceHas(lines, f, p.constants, inst);
      }
    }
  }

  lemma PreparedConstant(lines: seq<Inst>, uintT: Word, targets: seq<Target>, bound: nat, r: Request)
    requires Prepared(lines, targets, uintT, bound).Ok? && targets != []
    requires Prelude(uintT, targets, bound + 5).Has(r)
    ensures ConstantInst(uintT, Prelude(uintT, targets, bound + 5).Id(r), W(Number(r))) in Prepared(lines, targets, uintT, bound).value.insts
    ensures Prelude(uintT, targets, bound + 5).Id(r) < Prelude(uintT, targets, bound + 5).next
  {
    hide CommonRequests, RecordRequests, Prelude;
    var f, p := First(IsFunction, lines).value, Prelude(uintT, targets, bound + 5);
    PreludeOk(uintT, targets, bound + 5);
    var c := p.constants[p.Id(r) - (bound + 5)];
    assert c == ConstantInst(uintT, p.Id(r), W(Number(r)));
    SpliceHas(lines, f, p.constants, c);
  }

  // ---- the statics of the prepared module ----

  lemma BuffersSame(w: World, s: Specialization, bound: nat, a: seq<Inst>, b: seq<Inst>, table: Table, v: nat)
    requires Same(w, s, bound, a, b) && v != DebugVar(bound)
    ensures v in Buffers(a, table) <==> v in Buffers(b, table)
    ensures v in Buffers(b, table) ==> Buffers(a, table)[v] == Buffers(b, table)[v]
  {}

  /** An id is not both an integer type and a vector. */
  lemma {:induction false} QuadsApart(insts: seq<Inst>, bound: nat)
    requires GoodIds(insts, bound)
    ensures forall id :: id in Moduli(insts) ==> id in Ids(insts) && id !in Quads(insts)
    ensures forall id :: id in Quads(insts) ==> id in Ids(insts)
  {
    if insts != [] {
      GoodFront(insts, bound);
      QuadsApart(insts[..|insts| - 1], bound);
    }
  }

  lemma DeclaredConst(w: World, s: Specialization, insts: seq<Inst>, bound: nat, inst: Inst, v: Val)
    requires GoodIds(insts, bound) && inst in insts && DeclaredId(inst).Some?
    requires forall env: Env :: Declared(w, s, env, inst) == Some(v)
    ensures DeclaredId(inst).value in Consts(w, s, insts) && Consts(w, s, insts)[DeclaredId(inst).value] == v
  {
    var k :| 0 <= k < |insts| && insts[k] == inst;
    assert Declared(w, s, Consts(w, s, insts[..k]), inst) == Some(v);
    ConstAt(w, s, insts, bound, k);
  }

  /** The variables that a module decorates as one of the two id vectors. */
  ghost predicate VectorsReadable(w: World, st: Statics, insts: seq<Inst>) {
    forall inst :: inst in insts && (IsBuiltin(inst, WORKGROUP_ID) || IsBuiltin(inst, LOCAL_INVOCATION_ID)) ==> InputVector(st, w, inst[1])
  }

  /** The declarations decorate no built-in. */
  lemma BuiltinOld(m: Module, set_: Word, binding: Word, lines: seq<Inst>, inst: Inst, name: Word)
    requires |m.header| == HEADER && DeclareBuffer(m, set_, binding) == Ok(lines) && inst in lines && IsBuiltin(inst, name)
    requires name == WORKGROUP_ID || name == LOCAL_INVOCATION_ID
    ensures inst in m.insts
  {
    hide First;
    var bound: nat := m.Bound();
    var u, e := First(IsUint, m.insts).value, First(IsMain, m.insts).value;
    var entered := m.insts[e := WithInterface(m.insts[e], bound + 3)];
    var t, x, y := First(IsType, entered).value, Annotations(bound, set_, binding), BufferDeclarations(bound, m.insts[u][1]);
    NoBuiltins(bound, set_, binding, m.insts[u][1], inst, name);
    hide Annotations, BufferDeclarations, Splice, WithInterface;
    var annotated := Splice(entered, t, x);
    SpliceHas(annotated, First(IsFunction, annotated).value, y, inst);
    SpliceHas(entered, t, x, inst);
    var k :| 0 <= k < |entered| && entered[k] == inst;
    assert k != e ==> m.insts[k] == inst;
  }

  lemma NoBuiltins(bound: nat, set_: Word, binding: Word, uintT: Word, inst: Inst, name: Word)
    requires IsBuiltin(inst, name) && (name == WORKGROUP_ID || name == LOCAL_INVOCATION_ID)
    ensures inst !in Annotations(bound, set_, binding) && inst !in BufferDeclarations(bound, uintT)
  {}

  /** What the probes need of the original's built-in vectors. */
  ghost predicate InputsReadable(w: World, st: Statics, d: Names) {
    && (d.groupVar.Some? ==> InputVector(st, w, d.groupVar.value))
    && (d.localVar.Some? ==> InputVector(st, w, d.localVar.value))
  }

  lemma InputsStay(w: World, s: Specialization, m: Module, all: seq<Inst>, entries: seq<Entry>, table: Table, uintT: Word, next: nat, v: nat)
    requires Sourced(w, m) && Extended(w, s, m, all, uintT, next) && s == SpecializationOf(m.insts, entries)
    requires InputVector(StaticsOf(w, m.insts, entries, table), w, v)
    ensures InputVector(StaticsOf(w, all, entries, table), w, v)
  {
    ConstsKeys(w, s, m.insts);
    assert v in Ids(m.insts);
    assert v < m.Bound();
    BuffersSame(w, s, m.Bound(), all, m.insts, table, v);
  }

  lemma ConstantMeans(w: World, s: Specialization, insts: seq<Inst>, bound: nat, uintT: Word, id: nat, value: nat)
    requires GoodIds(insts, bound) && ConstantInst(uintT, id, value) in insts && id < WORD
    ensures id in Consts(w, s, insts) && Consts(w, s, insts)[id] == Scalar(W(value))
  {
    DeclaredConst(w, s, insts, bound, ConstantInst(uintT, id, value), Scalar(W(value)));
  }

  lemma VariableMeans(w: World, s: Specialization, insts: seq<Inst>, next: nat, bound: nat)
    requires GoodIds(insts, next) && DebugVariable(bound) in insts && bound + 5 <= WORD
    ensures DebugVar(bound) in Consts(w, s, insts) && Consts(w, s, insts)[DebugVar(bound)] == Ptr(DebugVar(bound), [])
  {
    DeclaredConst(w, s, insts, next, DebugVariable(bound), Ptr(DebugVar(bound), []));
  }

  lemma PreparedPool(w: World, s: Specialization, lines: seq<Inst>, uintT: Word, targets: seq<Target>, bound: nat, all: Probed, st: Statics)
    requires targets != [] && Prepared(lines, targets, uintT, bound) == Ok(all) && all.next <= WORD && GoodIds(all.insts, all.next)
    requires st.consts == Consts(w, s, all.insts)
    ensures PoolIn(st, Prelude(uintT, targets, bound + 5), all.next)
  {
    hide Prelude, CommonRequests, RecordRequests, Prepared, GoodIds;
    var p := Prelude(uintT, targets, bound + 5);
    PreparedNext(lines, targets, uintT, bound);
    forall r | p.Has(r)
      ensures p.Id(r) < all.next && p.Id(r) in st.consts && st.consts[p.Id(r)] == Scalar(W(Number(r)))
    {
      PreparedConstant(lines, uintT, targets, bound, r);
      ConstantMeans(w, s, all.insts, all.next, uintT, p.Id(r), W(Number(r)));
    }
  }

  /** The types, the variable and the ids that a block needs. */
  lemma PreparedTypes(w: World, s: Specialization, all: seq<Inst>, next: nat, uintT: Word, bound: nat, st: Statics)
    requires GoodIds(all, next) && HasInt(all, uintT, 32) && DebugVariable(bound) in all && bound + 5 <= WORD
    requires st.consts == Consts(w, s, all) && st.moduli == Moduli(all) && st.quads == Quads(all)
    ensures uintT in st.moduli && st.moduli[uintT] == WORD && uintT !in st.quads
    ensures DebugVar(bound) in st.consts && st.consts[DebugVar(bound)] == Ptr(DebugVar(bound), [])
    ensures forall id :: id in st.consts ==> id < next
  {
    HasIntMeans(all, next, uintT, 32);
    QuadsApart(all, next);
    ConstsKeys(w, s, all);
    VariableMeans(w, s, all, next, bound);
  }

  /** The id that every chain into the probe buffer uses for member 0 is the
      constant 0. The instrumenter takes this for granted. */
  ghost predicate ZeroThere(insts: seq<Inst>) {
    exists k :: 0 <= k < |insts| && |insts[k]| == 4 && ConstDecl(insts[k], MEMBER_ZERO, 0)
  }

  lemma ZeroMeans(w: World, s: Specialization, m: Module, all: seq<Inst>, uintT: Word, next: nat)
    requires Sourced(w, m) && Extended(w, s, m, all, uintT, next) && ZeroThere(m.insts)
    ensures MEMBER_ZERO in Consts(w, s, all) && Consts(w, s, all)[MEMBER_ZERO] == Scalar(0)
  {
    hide AllReadOld, HasInt, ReadsBelow, Decorations, Ids, Code, Moduli, Quads;
    var k :| 0 <= k < |m.insts| && |m.insts[k]| == 4 && ConstDecl(m.insts[k], MEMBER_ZERO, 0);
    DeclaredConst(w, s, m.insts, m.Bound(), m.insts[k], Scalar(0));
    ConstsKeys(w, s, m.insts);
    assert MEMBER_ZERO < m.Bound();
  }

  /** The prepared module supplies every block. */
  lemma PreparedSupplies(typed: nat -> bool, w: World, m: Module, lines: seq<Inst>, uintT: Word, targets: seq<Target>, entries: seq<Entry>, table: Table, all: Probed)
    requires Sourced(w, m) && m.Bound() + 5 <= WORD && targets != []
    requires Extended(w, SpecializationOf(m.insts, entries), m, lines, uintT, m.Bound() + 5) && HasBuffer(lines, m.Bound(), uintT)
    requires Prepared(lines, targets, uintT, m.Bound()) == Ok(all) && all.next <= WORD
    requires InputsReadable(w, StaticsOf(w, m.insts, entries, table), NamesOf(typed, lines, uintT, m.Bound()))
    requires ZeroThere(m.insts)
    ensures Supplies(StaticsOf(w, all.insts, entries, table), w, NamesOf(typed, lines, uintT, m.Bound()), Prelude(uintT, targets, m.Bound() + 5), all.next)
  {
    hide Prelude, Extended, DebugVariable, Prepared, GoodIds, Same, HasInt, PoolIn, InputVector, ResultTypes, Chains, First, Ids, ReadsBelow, AllReadOld, Consts, Moduli, Quads, SizeOf, Buffers, Decorations;
    var bound: nat := m.Bound();
    var s, d := SpecializationOf(m.insts, entries), NamesOf(typed, lines, uintT, bound);
    PreparedWell(w, s, m, lines, uintT, targets);
    ExtendedParts(w, s, m, all.insts, uintT, all.next);
    var st := StaticsOf(w, all.insts, entries, table);
    assert SpecializationOf(all.insts, entries) == s;
    ZeroMeans(w, s, m, all.insts, uintT, all.next);
    PreparedTypes(w, s, all.insts, all.next, uintT, bound, st);
    PreparedPool(w, s, lines, uintT, targets, bound, all, st);
    if d.groupVar.Some? { InputsStay(w, s, m, all.insts, entries, table, uintT, all.next, d.groupVar.value); }
    if d.localVar.Some? { InputsStay(w, s, m, all.insts, entries, table, uintT, all.next, d.localVar.value); }
  }

  lemma PreparedNext(lines: seq<Inst>, targets: seq<Target>, uintT: Word, bound: nat)
    requires targets != [] && Prepared(lines, targets, uintT, bound).Ok?
    ensures Prepared(lines, targets, uintT, bound).value.next == Prelude(uintT, targets, bound + 5).next
  {
    hide Prelude;
  }

  lemma ExtendedParts(w: World, s: Specialization, m: Module, lines: seq<Inst>, uintT: Word, next: nat)
    requires |m.header| == HEADER && Extended(w, s, m, lines, uintT, next)
    ensures Same(w, s, m.Bound(), lines, m.insts) && GoodIds(lines, next) && HasInt(lines, uintT, 32)
    ensures Decorations(lines, SPEC_ID) == Decorations(m.insts, SPEC_ID)
    ensures |Ids(lines)| + m.Bound() == |Ids(m.insts)| + next
  {}
}
