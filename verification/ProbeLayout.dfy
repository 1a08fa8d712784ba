/** Where the instrumenter puts its declarations, and which they are. */
module ProbeLayout {
  import opened Words
  import opened Ops
  import opened Meaning
  import opened Instrumenter
  import opened InstrumentSound

  predicate DeclaresType(inst: Inst) { 19 <= Op(inst) <= 39 }

  predicate OfFunction(inst: Inst) { 54 <= Op(inst) <= 57 }

  /** OpEntryPoint GLCompute with the name "main". */
  predicate MainEntry(inst: Inst) { Op(inst) == 15 && |inst| >= 5 && inst[1] == 5 && inst[3] == 0x6e69616d && inst[4] == 0 }

  predicate Unsigned32(inst: Inst) { Op(inst) == 21 && |inst| == 4 && inst[2] == 32 && inst[3] == 0 }

  ghost predicate FirstIs(insts: seq<Inst>, kind: Inst -> bool, k: nat) { k < |insts| && kind(insts[k]) && forall j: nat :: j < k ==> !kind(insts[j]) }

  /** The module with its parts put in: stride, offset, block, set and binding of the
      debug buffer in front of the first type, its types and its variable in front of
      the first function, and the variable in the interface of the entry point. */
  ghost predicate LaidOut(insts: seq<Inst>, n: nat, set_: Word, binding: Word, lines: seq<Inst>, u: nat, e: nat, t: nat, f: nat)
    requires n + 5 < WORD
  {
    && FirstIs(insts, Unsigned32, u) && FirstIs(insts, MainEntry, e) && FirstIs(insts, DeclaresType, t) && FirstIs(insts, OfFunction, f)
    && |insts[e]| < 65535
    && var s, notes, types := insts[e := Entry(insts[e], n + 3)], Notes(n, set_, binding), Types(n, insts[u][1]);
       lines == if t <= f then s[..t] + notes + s[t..f] + types + s[f..] else s[..f] + types + s[f..t] + notes + s[t..]
  }

  /** The entry point with one more interface variable. */
  function Entry(inst: Inst, id: Word): Inst
    requires 0 < |inst| < 65535
  {
    [Head(|inst| + 1, 15)] + inst[1..] + [id]
  }

  function Notes(n: nat, set_: Word, binding: Word): seq<Inst>
    requires n + 5 < WORD
  {
    [[Head(4, 71), n, 6, 4], [Head(5, 72), n + 1, 0, 35, 0], [Head(3, 71), n + 1, 2], [Head(4, 71), n + 3, 34, set_], [Head(4, 71), n + 3, 33, binding]]
  }

  function Types(n: nat, uintT: Word): seq<Inst>
    requires n + 5 < WORD
  {
    [[Head(3, 29), n, uintT], [Head(3, 30), n + 1, n], [Head(4, 32), n + 2, 12, n + 1], [Head(4, 32), n + 4, 12, uintT], [Head(4, 59), n + 2, n + 3, 12]]
  }

  lemma FirstsSame(insts: seq<Inst>, p: Inst -> bool, q: Inst -> bool)
    requires forall inst :: p(inst) == q(inst)
    ensures First(p, insts).Some? ==> FirstIs(insts, q, First(p, insts).value)
  {}

  /** The first of a kind in a list into which others were put. */
  lemma FirstShifts(insts: seq<Inst>, at: nat, x: seq<Inst>, f: nat)
    requires at < |insts| && FirstIs(insts, IsFunction, f) && (forall i :: 0 <= i < |x| ==> !IsFunction(x[i])) && First(IsFunction, Splice(insts, at, x)).Some?
    ensures First(IsFunction, Splice(insts, at, x)).value == if f < at then f else f + |x|
  {
    hide First, IsFunction;
    var out, k := Splice(insts, at, x), if f < at then f else f + |x|;
    var g := First(IsFunction, out).value;
    assert out[k] == insts[f];
    forall j: nat | j < k ensures !IsFunction(out[j]) {
      if j < at { assert out[j] == insts[j]; } else if j < at + |x| { assert out[j] == x[j - at]; } else { assert out[j] == insts[j - |x|]; }
    }
  }

  lemma EntryIs(insts: seq<Inst>, e: nat, y: Inst, k: nat, kind: Inst -> bool)
    requires e < |insts| && !kind(insts[e]) && !kind(y)
    ensures FirstIs(insts[e := y], kind, k) <==> FirstIs(insts, kind, k)
  {
    var out := insts[e := y];
    assert |out| == |insts| && forall j: nat :: j < |insts| ==> (kind(out[j]) <==> kind(insts[j]));
  }

  lemma Kinds()
    ensures forall inst :: IsUint(inst) == Unsigned32(inst) && IsMain(inst) == MainEntry(inst) && IsType(inst) == DeclaresType(inst) && IsFunction(inst) == OfFunction(inst)
  {}

  lemma NoneOfFunction(bound: nat, set_: Word, binding: Word)
    ensures forall i :: 0 <= i < |Annotations(bound, set_, binding)| ==> !IsFunction(Annotations(bound, set_, binding)[i])
  {}

  lemma EntryNoType(inst: Inst, id: nat)
    requires IsMain(inst) && |inst| < 65535
    ensures !IsType(inst) && !IsFunction(inst) && !IsType(WithInterface(inst, id)) && !IsFunction(WithInterface(inst, id))
    ensures |inst| > 0 && WithInterface(inst, id) == Entry(inst, W(id))
  {}

  lemma PartsAre(n: nat, set_: Word, binding: Word, uintT: Word)
    requires n + 5 < WORD
    ensures Annotations(n, set_, binding) == Notes(n, set_, binding) && BufferDeclarations(n, uintT) == Types(n, uintT)
  {}

  lemma TwoSplices(s: seq<Inst>, t: nat, f: nat, x: seq<Inst>, y: seq<Inst>)
    requires t < |s| && f < |s|
    ensures var mid := Splice(s, t, x); var g := if f < t then f else f + |x|;
      g <= |mid| && Splice(mid, g, y) == if t <= f then s[..t] + x + s[t..f] + y + s[f..] else s[..f] + y + s[f..t] + x + s[t..]
  {
    var mid, g := Splice(s, t, x), if f < t then f else f + |x|;
    if t <= f {
      assert mid[..g] == s[..t] + x + s[t..f] && mid[g..] == s[f..];
    } else {
      assert mid[..g] == s[..f] && mid[g..] == s[f..t] + x + s[t..];
    }
  }

  /** What the instrumenter declares, and where. */
  lemma DeclaredLayout(m: Module, set_: Word, binding: Word) returns (u: nat, e: nat, t: nat, f: nat)
    requires |m.header| == HEADER && DeclareBuffer(m, set_, binding).Ok? && m.Bound() + 5 < WORD
    ensures LaidOut(m.insts, m.Bound(), set_, binding, DeclareBuffer(m, set_, binding).value, u, e, t, f)
  {
    hide First, IsFunction, IsType, IsUint, IsMain, Annotations, BufferDeclarations, FirstIs, Unsigned32, MainEntry, DeclaresType, OfFunction, Splice, WithInterface,
      DeclareBuffer, Entry, Notes, Types, LaidOut;
    var n: nat := m.Bound();
    Kinds();
    DeclareParts(m, set_, binding);
    u, e := First(IsUint, m.insts).value, First(IsMain, m.insts).value;
    FirstsSame(m.insts, IsUint, Unsigned32);
    FirstsSame(m.insts, IsMain, MainEntry);
    EntryNoType(m.insts[e], n + 3);
    var y := WithInterface(m.insts[e], n + 3);
    var s := m.insts[e := y];
    t := First(IsType, s).value;
    FirstsSame(s, IsType, DeclaresType);
    EntryIs(m.insts, e, y, t, DeclaresType);
    NoneOfFunction(n, set_, binding);
    f := FunctionIn(s, t, Annotations(n, set_, binding));
    EntryIs(m.insts, e, y, f, IsFunction);
    FirstIff(m.insts, f, IsFunction, OfFunction);
    FirstShifts(s, t, Annotations(n, set_, binding), f);
    PartsAre(n, set_, binding, m.insts[u][1]);
    FirstBelow(s, f, IsFunction);
    TwoSplices(s, t, f, Annotations(n, set_, binding), BufferDeclarations(n, m.insts[u][1]));
    SmallId(n + 3);
    LaidOutIs(m.insts, n, set_, binding, DeclareBuffer(m, set_, binding).value, u, e, t, f);
  }

  lemma SmallId(id: nat)
    requires id < WORD
    ensures W(id) == id
  {}

  lemma LaidOutIs(insts: seq<Inst>, n: nat, set_: Word, binding: Word, lines: seq<Inst>, u: nat, e: nat, t: nat, f: nat)
    requires n + 5 < WORD && u < |insts| && |insts[u]| >= 2 && e < |insts| && 0 < |insts[e]| < 65535 && t < |insts| && f < |insts|
    requires FirstIs(insts, Unsigned32, u) && FirstIs(insts, MainEntry, e) && FirstIs(insts, DeclaresType, t) && FirstIs(insts, OfFunction, f)
    requires var s, notes, types := insts[e := Entry(insts[e], n + 3)], Notes(n, set_, binding), Types(n, insts[u][1]);
      lines == if t <= f then s[..t] + notes + s[t..f] + types + s[f..] else s[..f] + types + s[f..t] + notes + s[t..]
    ensures LaidOut(insts, n, set_, binding, lines, u, e, t, f)
  {
    hide Notes, Types, Entry, Unsigned32, MainEntry, DeclaresType, OfFunction;
  }

  /** The searches all succeed, one list after the other. */
  ghost predicate Parts(m: Module, set_: Word, binding: Word, lines: seq<Inst>)
    requires |m.header| == HEADER
  {
    var n: nat := m.Bound(); var u, e := First(IsUint, m.insts), First(IsMain, m.insts);
    && u.Some? && |m.insts[u.value]| >= 2 && e.Some? && IsMain(m.insts[e.value]) && 0 < |m.insts[e.value]| < 65535
    && var s := m.insts[e.value := WithInterface(m.insts[e.value], n + 3)]; var t := First(IsType, s);
       && t.Some? && t.value < |s|
       && var mid := Splice(s, t.value, Annotations(n, set_, binding)); var g := First(IsFunction, mid);
          g.Some? && lines == Splice(mid, g.value, BufferDeclarations(n, m.insts[u.value][1]))
  }

  lemma DeclareParts(m: Module, set_: Word, binding: Word)
    requires |m.header| == HEADER && DeclareBuffer(m, set_, binding).Ok?
    ensures Parts(m, set_, binding, DeclareBuffer(m, set_, binding).value)
  {
    hide Annotations, BufferDeclarations, Splice;
  }

  lemma FirstIff(insts: seq<Inst>, k: nat, p: Inst -> bool, q: Inst -> bool)
    requires forall inst :: p(inst) == q(inst)
    ensures FirstIs(insts, p, k) == FirstIs(insts, q, k)
  {}

  lemma FirstBelow(insts: seq<Inst>, k: nat, p: Inst -> bool)
    ensures FirstIs(insts, p, k) ==> k < |insts|
  {}

  lemma FunctionIn(s: seq<Inst>, t: nat, x: seq<Inst>) returns (f: nat)
    requires t < |s| && (forall i :: 0 <= i < |x| ==> !IsFunction(x[i])) && First(IsFunction, Splice(s, t, x)).Some?
    ensures FirstIs(s, IsFunction, f)
  {
    hide First, IsFunction;
    var out := Splice(s, t, x);
    var g := First(IsFunction, out).value;
    forall j | t <= j < t + |x| ensures !IsFunction(out[j]) { assert out[j] == x[j - t]; }
    assert out[g] in s by { if g < t { assert out[g] == s[g]; } else { assert out[g] == s[g - |x|]; } }
    var k :| 0 <= k < |s| && s[k] == out[g];
    FirstSome(s, k);
    FirstsSame(s, IsFunction, IsFunction);
    f := First(IsFunction, s).value;
  }

  lemma FirstSome(s: seq<Inst>, k: nat)
    requires k < |s| && IsFunction(s[k])
    ensures First(IsFunction, s).Some?
  {
    hide IsFunction;
  }
}
