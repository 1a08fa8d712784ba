/** Stage 3 of the effective-module compiler: a 16-bit load from the Q6 block
    view becomes two 8-bit loads from the byte view of the same buffer. */
module Storage16 {
  import opened Words
  import opened Ops
  import opened Machine
  import opened Translation
  import opened Meaning

  const VIEW8 := 346
  const VIEW16 := 371
  const ID_LIMIT := 65536
  const PATTERN_LIMIT := 256

  // ---- what the scan of the declarations finds; 0 means not found ----

  datatype Types = Types(
    uintT: Word, ucharT: Word, ushortT: Word, ptrUshort: Word, ptrUchar: Word,
    one: Word, two: Word, eight: Word,
    ucharEnd: Option<nat>)   // index of the instruction after the 8-bit type

  const NO_TYPES := Types(0, 0, 0, 0, 0, 0, 0, 0, None)

  /** One declaration, which ends at `end`. */
  function See(t: Types, inst: Inst, end: nat): Types {
    if IsInt(inst, 32) then t.(uintT := inst[1])
    else if IsInt(inst, 8) then t.(ucharT := inst[1], ucharEnd := Some(end))
    else if IsInt(inst, 16) then t.(ushortT := inst[1])
    else if Op(inst) == TYPE_POINTER && |inst| >= 4 && inst[2] == STORAGE_BUFFER then
      t.(ptrUshort := if t.ushortT != 0 && inst[3] == t.ushortT then inst[1] else t.ptrUshort,
         ptrUchar := if t.ucharT != 0 && inst[3] == t.ucharT then inst[1] else t.ptrUchar)
    else if Op(inst) == CONSTANT && |inst| >= 4 && t.uintT != 0 && inst[1] == t.uintT then
      if inst[3] == 1 then t.(one := inst[2])
      else if inst[3] == 2 then t.(two := inst[2])
      else if inst[3] == 8 then t.(eight := inst[2])
      else t
    else t
  }

  function Scan(insts: seq<Inst>): Types {
    if insts == [] then NO_TYPES
    else See(Scan(insts[..|insts| - 1]), insts[|insts| - 1], |insts|)
  }

  /** The declarations end at the first function. */
  function FunctionAt(insts: seq<Inst>): (k: nat)
    ensures k <= |insts|
    ensures forall i :: 0 <= i < k ==> Op(insts[i]) != FUNCTION
    ensures k < |insts| ==> Op(insts[k]) == FUNCTION
  {
    if insts == [] || Op(insts[0]) == FUNCTION then 0 else 1 + FunctionAt(insts[1..])
  }

  function TypesOf(insts: seq<Inst>): Types { Scan(insts[..FunctionAt(insts)]) }

  predicate Complete(t: Types) {
    t.uintT != 0 && t.ucharT != 0 && t.ushortT != 0 && t.ptrUshort != 0 && t.one != 0 && t.two != 0 && t.eight != 0
    && t.ucharEnd.Some?
  }

  // ---- the pattern ----

  predicate IsViewChain(t: Types, inst: Inst) {
    Op(inst) == ACCESS_CHAIN && |inst| == 8 && inst[1] == t.ptrUshort && inst[3] == VIEW16
  }

  predicate IsViewLoad(t: Types, chain: Inst, load: Inst)
    requires |chain| == 8
  {
    Op(load) == LOAD && |load| == 4 && load[1] == t.ushortT && load[3] == chain[2]
  }

  predicate Matches(t: Types, insts: seq<Inst>, k: nat) {
    k + 1 < |insts| && IsViewChain(t, insts[k]) && IsViewLoad(t, insts[k], insts[k + 1])
  }

  /** The counting pass: every position of the instruction list is looked at. */
  function Count(t: Types, insts: seq<Inst>, k: nat): nat
    decreases |insts| - k
  {
    if k >= |insts| then 0 else (if Matches(t, insts, k) then 1 else 0) + Count(t, insts, k + 1)
  }

  /** The rewriting pass jumps over the load of a match; the counting pass does
      not, but never counts there. */
  lemma CountJump(t: Types, insts: seq<Inst>, k: nat)
    requires Matches(t, insts, k)
    ensures Count(t, insts, k) == 1 + Count(t, insts, k + 2)
  {
    assert Count(t, insts, k + 1) == Count(t, insts, k + 2);
  }

  // ---- the rewrite ----

  /** `ptr` is the 8-bit pointer type to use, `add` whether it must be declared. */
  datatype Lowering = Lowering(t: Types, ptr: Word, add: bool)

  function PtrType(c: Lowering): Inst {
    [Head(4, TYPE_POINTER), c.ptr, STORAGE_BUFFER, c.t.ucharT]
  }

  /** The eleven instructions, with ten fresh ids from `n` on. */
  function LoweredInst(c: Lowering, chain: Inst, load: Inst, n: nat, i: nat): Inst
    requires |chain| == 8 && |load| == 4 && n + 10 <= ID_LIMIT
  {
    match i
    case 0 => [Head(5, I_MUL), c.t.uintT, n, chain[7], c.t.two]
    case 1 => [Head(8, ACCESS_CHAIN), c.ptr, n + 1, VIEW8, chain[4], chain[5], chain[6], n]
    case 2 => [Head(4, LOAD), c.t.ucharT, n + 2, n + 1]
    case 3 => [Head(4, U_CONVERT), c.t.uintT, n + 3, n + 2]
    case 4 => [Head(5, I_ADD), c.t.uintT, n + 4, n, c.t.one]
    case 5 => [Head(8, ACCESS_CHAIN), c.ptr, n + 5, VIEW8, chain[4], chain[5], chain[6], n + 4]
    case 6 => [Head(4, LOAD), c.t.ucharT, n + 6, n + 5]
    case 7 => [Head(4, U_CONVERT), c.t.uintT, n + 7, n + 6]
    case 8 => [Head(5, SHIFT_LEFT_LOGICAL), c.t.uintT, n + 8, n + 7, c.t.eight]
    case 9 => [Head(5, BITWISE_OR), c.t.uintT, n + 9, n + 3, n + 8]
    case _ => [Head(4, U_CONVERT), c.t.ushortT, load[2], n + 9]
  }

  function Lowered(c: Lowering, chain: Inst, load: Inst, n: nat): (r: seq<Inst>)
    requires |chain| == 8 && |load| == 4 && n + 10 <= ID_LIMIT
    ensures |r| == 11
  {
    seq(11, i requires 0 <= i < 11 => LoweredInst(c, chain, load, n, i))
  }

  /** The declaration of the pointer type goes where the 8-bit type ends. */
  function Added(c: Lowering, k: nat): seq<Unit> {
    if c.add && c.t.ucharEnd == Some(k) then [Unit([], [PtrType(c)])] else []
  }

  function UnitsFrom(c: Lowering, insts: seq<Inst>, k: nat, n: nat): seq<Unit>
    requires n + 10 * Count(c.t, insts, k) <= ID_LIMIT
    decreases |insts| - k
  {
    if k >= |insts| then []
    else if Matches(c.t, insts, k) then
      CountJump(c.t, insts, k);
      Added(c, k) + [Unit([insts[k], insts[k + 1]], Lowered(c, insts[k], insts[k + 1], n))] + UnitsFrom(c, insts, k + 2, n + 10)
    else Added(c, k) + [Unit([insts[k]], [insts[k]])] + UnitsFrom(c, insts, k + 1, n)
  }

  /** The unit of the instruction `k`. */
  function UnitAt(c: Lowering, insts: seq<Inst>, k: nat, n: nat): Unit
    requires k < |insts| && (Matches(c.t, insts, k) ==> n + 10 <= ID_LIMIT)
  {
    if Matches(c.t, insts, k) then Unit([insts[k], insts[k + 1]], Lowered(c, insts[k], insts[k + 1], n))
    else Unit([insts[k]], [insts[k]])
  }

  function Width(t: Types, insts: seq<Inst>, k: nat): (w: nat)
    ensures w > 0
  {
    if Matches(t, insts, k) then 2 else 1
  }

  function Fresh(t: Types, insts: seq<Inst>, k: nat): nat { if Matches(t, insts, k) then 10 else 0 }

  lemma CountStep(t: Types, insts: seq<Inst>, k: nat)
    requires k < |insts|
    ensures k + Width(t, insts, k) <= |insts|
    ensures Fresh(t, insts, k) + 10 * Count(t, insts, k + Width(t, insts, k)) == 10 * Count(t, insts, k)
  {
    if Matches(t, insts, k) { CountJump(t, insts, k); }
  }

  lemma UnitsStep(c: Lowering, insts: seq<Inst>, k: nat, n: nat)
    requires n + 10 * Count(c.t, insts, k) <= ID_LIMIT && k < |insts|
    ensures Matches(c.t, insts, k) ==> n + 10 <= ID_LIMIT
    ensures n + Fresh(c.t, insts, k) + 10 * Count(c.t, insts, k + Width(c.t, insts, k)) <= ID_LIMIT
    ensures k + Width(c.t, insts, k) <= |insts|
    ensures UnitsFrom(c, insts, k, n) == Added(c, k) + [UnitAt(c, insts, k, n)]
      + UnitsFrom(c, insts, k + Width(c.t, insts, k), n + Fresh(c.t, insts, k))
  {
    CountStep(c.t, insts, k);
  }

  function LoweringOf(m: Module): Lowering
    requires |m.header| == HEADER
  {
    var t := TypesOf(m.insts);
    Lowering(t, if t.ptrUchar == 0 then m.Bound() else t.ptrUchar, t.ptrUchar == 0)
  }

  function FirstId(m: Module): nat
    requires |m.header| == HEADER
  {
    m.Bound() + if LoweringOf(m).add then 1 else 0
  }

  function NewBound(m: Module): nat
    requires |m.header| == HEADER
  {
    FirstId(m) + 10 * Count(TypesOf(m.insts), m.insts, 0)
  }

  predicate Applies(m: Module)
    requires |m.header| == HEADER
  {
    var t := TypesOf(m.insts);
    && m.header[0] == MAGIC
    && VIEW16 < m.Bound() <= ID_LIMIT
    && Complete(t)
    && 0 < Count(t, m.insts, 0) <= PATTERN_LIMIT
    && NewBound(m) <= ID_LIMIT
  }

  function Units(m: Module): seq<Unit>
    requires |m.header| == HEADER && Applies(m)
  {
    UnitsFrom(LoweringOf(m), m.insts, 0, FirstId(m))
  }

  function LowerModule(m: Module): Module
    requires |m.header| == HEADER
  {
    if Applies(m) then Module(m.header[3 := NewBound(m)], Flatten(Dsts(Units(m)))) else m
  }

  // ---- shape of the result ----

  lemma SrcsStep(c: Lowering, insts: seq<Inst>, k: nat, n: nat)
    requires n + 10 * Count(c.t, insts, k) <= ID_LIMIT && k < |insts|
    ensures k + Width(c.t, insts, k) <= |insts|
    ensures n + Fresh(c.t, insts, k) + 10 * Count(c.t, insts, k + Width(c.t, insts, k)) <= ID_LIMIT
    ensures Flatten(Srcs(UnitsFrom(c, insts, k, n))) == insts[k..k + Width(c.t, insts, k)]
      + Flatten(Srcs(UnitsFrom(c, insts, k + Width(c.t, insts, k), n + Fresh(c.t, insts, k))))
  {
    UnitsStep(c, insts, k, n);
    AddedFlat(c, k);
    SrcAt(c, insts, k, n);
    SrcsOf(UnitsFrom(c, insts, k, n), Added(c, k), UnitAt(c, insts, k, n),
           UnitsFrom(c, insts, k + Width(c.t, insts, k), n + Fresh(c.t, insts, k)));
  }

  lemma SrcsOf(all: seq<Unit>, a: seq<Unit>, unit: Unit, b: seq<Unit>)
    requires all == a + [unit] + b && Flatten(Srcs(a)) == []
    ensures Flatten(Srcs(all)) == unit.src + Flatten(Srcs(b))
  {
    UnitsParts(a, unit, b);
  }

  lemma {:induction false} UnitsSrcs(c: Lowering, insts: seq<Inst>, k: nat, n: nat)
    requires n + 10 * Count(c.t, insts, k) <= ID_LIMIT && k <= |insts|
    ensures Flatten(Srcs(UnitsFrom(c, insts, k, n))) == insts[k..]
    decreases |insts| - k
  {
    hide *;
    if k < |insts| {
      var k', n' := k + Width(c.t, insts, k), n + Fresh(c.t, insts, k);
      SrcsStep(c, insts, k, n);
      UnitsSrcs(c, insts, k', n');
      Cut(insts, k, k');
    } else {
      NoSrcs(c, insts, n);
    }
  }

  lemma Cut<T>(s: seq<T>, k: nat, k': nat)
    requires k <= k' <= |s|
    ensures s[k..] == s[k..k'] + s[k'..]
  {}

  lemma NoSrcs(c: Lowering, insts: seq<Inst>, n: nat)
    requires n <= ID_LIMIT
    ensures n + 10 * Count(c.t, insts, |insts|) <= ID_LIMIT
    ensures Flatten(Srcs(UnitsFrom(c, insts, |insts|, n))) == insts[|insts|..]
  {}

  lemma SrcAt(c: Lowering, insts: seq<Inst>, k: nat, n: nat)
    requires k < |insts| && (Matches(c.t, insts, k) ==> n + 10 <= ID_LIMIT)
    ensures k + Width(c.t, insts, k) <= |insts|
    ensures UnitAt(c, insts, k, n).src == insts[k..k + Width(c.t, insts, k)]
  {}

  lemma AddedFlat(c: Lowering, k: nat)
    ensures Flatten(Srcs(Added(c, k))) == []
    ensures Flatten(Dsts(Added(c, k))) == if c.add && c.t.ucharEnd == Some(k) then [PtrType(c)] else []
  {
    if Added(c, k) != [] { UnitsCons(Added(c, k)); }
  }

  /** The words the rest of the rewriting pass will append. */
  function Pending(c: Lowering, insts: seq<Inst>, k: nat, n: nat): seq<Word>
    requires n + 10 * Count(c.t, insts, k) <= ID_LIMIT
  {
    Flatten(Flatten(Dsts(UnitsFrom(c, insts, k, n))))
  }

  function AddedWords(c: Lowering, k: nat): seq<Word> {
    if c.add && c.t.ucharEnd == Some(k) then PtrType(c) else []
  }

  /** What is appended for the instruction `k`, and the load after it if it matches. */
  function Emitted(c: Lowering, insts: seq<Inst>, k: nat, n: nat): seq<Word>
    requires k < |insts| && (Matches(c.t, insts, k) ==> n + 10 <= ID_LIMIT)
  {
    AddedWords(c, k) + if Matches(c.t, insts, k) then Flatten(Lowered(c, insts[k], insts[k + 1], n)) else insts[k]
  }

  lemma PendingStep(c: Lowering, insts: seq<Inst>, k: nat, n: nat)
    requires n + 10 * Count(c.t, insts, k) <= ID_LIMIT && k < |insts|
    ensures n + Fresh(c.t, insts, k) + 10 * Count(c.t, insts, k + Width(c.t, insts, k)) <= ID_LIMIT
    ensures Matches(c.t, insts, k) ==> n + 10 <= ID_LIMIT
    ensures Pending(c, insts, k, n) ==
      Emitted(c, insts, k, n) + Pending(c, insts, k + Width(c.t, insts, k), n + Fresh(c.t, insts, k))
  {
    UnitsStep(c, insts, k, n);
    var unit := UnitAt(c, insts, k, n);
    PendingParts(Added(c, k), unit, UnitsFrom(c, insts, k + Width(c.t, insts, k), n + Fresh(c.t, insts, k)));
    AddedFlat(c, k);
    FlatOne(PtrType(c));
    FlatOne(insts[k]);
  }

  lemma FlatOne(inst: Inst)
    ensures Flatten([inst]) == inst
  {
    var one := [inst];
    assert one[1..] == [];
  }

  lemma PendingParts(added: seq<Unit>, unit: Unit, rest: seq<Unit>)
    ensures Flatten(Flatten(Dsts(added + [unit] + rest))) ==
      Flatten(Flatten(Dsts(added))) + Flatten(unit.dst) + Flatten(Flatten(Dsts(rest)))
  {
    UnitsParts(added, unit, rest);
    FlattenAppend(Flatten(Dsts(added)) + unit.dst, Flatten(Dsts(rest)));
    FlattenAppend(Flatten(Dsts(added)), unit.dst);
  }

  // ---- the loops ----

  datatype Step = Step(words: seq<Word>, changed: bool, lowered: nat, added: bool)

  /** `t` is what the scan of the first `n` instructions finds, with the end of
      the 8-bit type given as a word index. */
  ghost predicate Found(insts: seq<Inst>, n: nat, t: Types)
    requires n <= |insts|
  {
    var spec := Scan(insts[..n]);
    && t == spec.(ucharEnd := t.ucharEnd)
    && match spec.ucharEnd
       case None => t.ucharEnd.None?
       case Some(k) => k <= n && t.ucharEnd == Some(HEADER + |Flatten(insts[..k])|)
  }

  lemma FoundStep(insts: seq<Inst>, n: nat, t: Types)
    requires n < |insts| && Found(insts, n, t)
    ensures Found(insts, n + 1, See(t, insts[n], HEADER + |Flatten(insts[..n + 1])|))
  {
    assert insts[..n + 1][..n] == insts[..n];
  }

  lemma {:induction false} FunctionIs(insts: seq<Inst>, k: nat)
    requires k <= |insts| && (forall i :: 0 <= i < k ==> Op(insts[i]) != FUNCTION)
    requires k < |insts| ==> Op(insts[k]) == FUNCTION
    ensures FunctionAt(insts) == k
  {
    if k > 0 { FunctionIs(insts[1..], k - 1); }
  }

  method NoteInst(t0: Types, inst: Inst, end: nat) returns (t: Types)
    ensures t == See(t0, inst, end)
  {
    t := t0;
    if IsInt(inst, 32) { t := t.(uintT := inst[1]); }
    else if IsInt(inst, 8) { t := t.(ucharT := inst[1], ucharEnd := Some(end)); }
    else if IsInt(inst, 16) { t := t.(ushortT := inst[1]); }
    else if Op(inst) == TYPE_POINTER && |inst| >= 4 && inst[2] == STORAGE_BUFFER {
      if t.ushortT != 0 && inst[3] == t.ushortT { t := t.(ptrUshort := inst[1]); }
      if t.ucharT != 0 && inst[3] == t.ucharT { t := t.(ptrUchar := inst[1]); }
    } else if Op(inst) == CONSTANT && |inst| >= 4 && t.uintT != 0 && inst[1] == t.uintT {
      if inst[3] == 1 { t := t.(one := inst[2]); }
      else if inst[3] == 2 { t := t.(two := inst[2]); }
      else if inst[3] == 8 { t := t.(eight := inst[2]); }
    }
  }

  /** The scanning loop has passed `k` instructions, none of them a function. */
  ghost predicate ScannedTo(m: Module, k: nat, i: nat, t: Types) {
    && m.Valid() && k <= |m.insts| && i == HEADER + |Flatten(m.insts[..k])|
    && Found(m.insts, k, t)
    && forall j :: 0 <= j < k ==> Op(m.insts[j]) != FUNCTION
  }

  lemma ScanNext(m: Module, k: nat, i: nat, t: Types)
    requires ScannedTo(m, k, i, t)
    ensures i < |m.Words()| <==> k < |m.insts|
    ensures k < |m.insts| ==> InstAt(m.Words(), i) == Ok(m.insts[k])
    ensures k < |m.insts| && Op(m.insts[k]) != FUNCTION ==>
      ScannedTo(m, k + 1, i + |m.insts[k]|, See(t, m.insts[k], i + |m.insts[k]|))
    ensures (k < |m.insts| ==> Op(m.insts[k]) == FUNCTION) ==> k == FunctionAt(m.insts)
  {
    ReadAt(m, k);
    if k < |m.insts| { FoundStep(m.insts, k, t); }
    if k < |m.insts| ==> Op(m.insts[k]) == FUNCTION { FunctionIs(m.insts, k); }
  }

  /** The first loop stops at the first function without reading the rest. */
  method FindTypes(words: seq<Word>) returns (r: Result<Types>)
    requires HEADER <= |words|
    ensures ModuleOf(words).Ok? ==> r.Ok?
    ensures ModuleOf(words).Ok? ==>
      var insts := ModuleOf(words).value.insts; Found(insts, FunctionAt(insts), r.value)
  {
    ghost var good := ModuleOf(words).Ok?;
    ghost var m := if good then ModuleOf(words).value else Module([], []);
    ModuleRoundTrip(words);
    var t := NO_TYPES;
    var i := HEADER;
    ghost var k: nat := 0;
    while i < |words|
      invariant good ==> ScannedTo(m, k, i, t)
      decreases |words| - i
    {
      if good { ScanNext(m, k, i, t); }
      var inst :- InstAt(words, i);
      if Op(inst) == FUNCTION { break; }
      t := NoteInst(t, inst, i + |inst|);
      i := i + |inst|;
      k := k + 1;
    }
    if good { ScanNext(m, k, i, t); }
    r := Ok(t);
  }

  /** The counting pass over the instruction list. */
  method CountPatterns(t: Types, insts: seq<Inst>) returns (count: nat)
    ensures count == Count(t, insts, 0)
  {
    count := 0;
    for n := 0 to |insts|
      invariant count + Count(t, insts, n) == Count(t, insts, 0)
    {
      var inst := insts[n];
      if Op(inst) == ACCESS_CHAIN && |inst| == 8 && inst[1] == t.ptrUshort && inst[3] == VIEW16 && n + 1 < |insts| {
        var load := insts[n + 1];
        if Op(load) == LOAD && |load| == 4 && load[1] == t.ushortT && load[3] == inst[2] {
          count := count + 1;
        }
      }
    }
  }

  /** The load that the jumping loop finds at a word index is the next
      instruction of the module. */
  lemma NextInst(m: Module, k: nat)
    requires m.Valid() && k < |m.insts|
    ensures var at := HEADER + |Flatten(m.insts[..k + 1])|;
      at < |m.Words()| <==> k + 1 < |m.insts|
    ensures k + 1 < |m.insts| ==> var at := HEADER + |Flatten(m.insts[..k + 1])|;
      InstAt(m.Words(), at) == Ok(m.insts[k + 1])
  {
    ReadAt(m, k + 1);
  }

  /** The lowering as the loops hold it: like `spec`, with the end of the 8-bit
      type as a word index. */
  ghost predicate Held(c: Lowering, spec: Lowering, m: Module) {
    && c == spec.(t := spec.t.(ucharEnd := c.t.ucharEnd))
    && c.t.ucharEnd.Some? && spec.t.ucharEnd.Some? && spec.t.ucharEnd.value <= |m.insts|
    && c.t.ucharEnd.value == HEADER + |Flatten(m.insts[..spec.t.ucharEnd.value])|
  }

  /** The load that completes the pattern begun by the instruction at `i`. */
  method MatchAt(words: seq<Word>, t: Types, i: nat, inst: Inst, ghost m: Module, ghost k: nat) returns (load: Option<Inst>)
    requires m.Valid() && words == m.Words() && k < |m.insts|
    requires i == HEADER + |Flatten(m.insts[..k])| && inst == m.insts[k]
    ensures load.Some? <==> Matches(t, m.insts, k)
    ensures load.Some? ==> load.value == m.insts[k + 1]
  {
    load := None;
    ReadAt(m, k);
    NextInst(m, k);
    if Op(inst) == ACCESS_CHAIN && |inst| == 8 && inst[1] == t.ptrUshort && inst[3] == VIEW16 && i + |inst| < |words| {
      var at := i + |inst|;
      var count := words[at] / 65536;
      ReadAt(m, k + 1);
      if count == 4 && at + count <= |words| {
        var next := words[at..at + count];
        if Op(next) == LOAD && next[1] == t.ushortT && next[3] == inst[2] {
          load := Some(next);
        }
      }
    }
  }

  /** The words that one iteration of the rewriting loop appends, and how far it
      moves. */
  method RewriteAt(words: seq<Word>, c: Lowering, i: nat, next: nat, ghost m: Module, ghost spec: Lowering, ghost k: nat)
    returns (emit: seq<Word>, size: nat, hit: bool)
    requires m.Valid() && words == m.Words() && Held(c, spec, m)
    requires k < |m.insts| && i == HEADER + |Flatten(m.insts[..k])|
    requires i < |words| && InstAt(words, i).Ok?
    requires Matches(spec.t, m.insts, k) ==> next + 10 <= ID_LIMIT
    ensures hit == Matches(spec.t, m.insts, k)
    ensures emit == Emitted(spec, m.insts, k, next)
    ensures size == |m.insts[k]| + if hit then |m.insts[k + 1]| else 0
  {
    ReadAt(m, k);
    SamePosition(m.insts, k, spec.t.ucharEnd.value);
    var inst := InstAt(words, i).value;
    size, emit := |inst|, [];
    if c.add && Some(i) == c.t.ucharEnd {
      emit := [Head(4, TYPE_POINTER), c.ptr, STORAGE_BUFFER, c.t.ucharT];
    }
    assert emit == AddedWords(spec, k);
    var load := MatchAt(words, c.t, i, inst, m, k);
    hit := load.Some?;
    if hit {
      emit := emit + LowerWords(c, inst, load.value, next, spec);
      size := size + |load.value|;
    } else {
      emit := emit + inst;
    }
  }

  lemma Advance(insts: seq<Inst>, t: Types, k: nat)
    requires AllSized(insts) && k < |insts|
    ensures k + Width(t, insts, k) <= |insts|
    ensures |Flatten(insts[..k + Width(t, insts, k)])| ==
      |Flatten(insts[..k])| + |insts[k]| + if Matches(t, insts, k) then |insts[k + 1]| else 0
  {
    FlattenAt(insts, k);
    if Matches(t, insts, k) { FlattenAt(insts, k + 1); }
  }

  /** The appended words depend on the ids found, not on where the types end. */
  function LowerWords(c: Lowering, chain: Inst, load: Inst, n: nat, ghost spec: Lowering): (r: seq<Word>)
    requires |chain| == 8 && |load| == 4 && n + 10 <= ID_LIMIT
    requires c == spec.(t := spec.t.(ucharEnd := c.t.ucharEnd))
    ensures r == Flatten(Lowered(spec, chain, load, n))
  {
    assert Lowered(c, chain, load, n) == Lowered(spec, chain, load, n);
    Flatten(Lowered(c, chain, load, n))
  }

  /** Where the rewriting pass stands before the instruction `k`. */
  ghost predicate Progress(c: Lowering, m: Module, first: nat, k: nat, i: nat, lowered: nat, next: nat, out: seq<Word>) {
    && m.Valid() && k <= |m.insts| && i == HEADER + |Flatten(m.insts[..k])|
    && first + 10 * Count(c.t, m.insts, 0) <= ID_LIMIT
    && lowered + Count(c.t, m.insts, k) == Count(c.t, m.insts, 0) && next == first + 10 * lowered
    && out + Pending(c, m.insts, k, next) == m.header + Pending(c, m.insts, 0, first)
  }

  lemma ProgressStep(c: Lowering, m: Module, first: nat, k: nat, i: nat, lowered: nat, next: nat, out: seq<Word>,
                     k': nat, i': nat, lowered': nat, next': nat, out': seq<Word>)
    requires Progress(c, m, first, k, i, lowered, next, out) && k < |m.insts|
    requires var hit := Matches(c.t, m.insts, k);
      && (hit ==> next + 10 <= ID_LIMIT)
      && k' == k + Width(c.t, m.insts, k)
      && i' == i + |m.insts[k]| + (if hit then |m.insts[k + 1]| else 0)
      && lowered' == lowered + (if hit then 1 else 0) && next' == next + Fresh(c.t, m.insts, k)
      && out' == out + Emitted(c, m.insts, k, next)
    ensures Progress(c, m, first, k', i', lowered', next', out')
  {
    PendingStep(c, m.insts, k, next);
    CountStep(c.t, m.insts, k);
    Advance(m.insts, c.t, k);
    Reassociate(out, Emitted(c, m.insts, k, next), Pending(c, m.insts, k', next'));
  }

  lemma Reassociate(a: seq<Word>, b: seq<Word>, c: seq<Word>)
    ensures a + (b + c) == (a + b) + c
  {}

  lemma ProgressRoom(c: Lowering, m: Module, first: nat, k: nat, i: nat, lowered: nat, next: nat, out: seq<Word>)
    requires Progress(c, m, first, k, i, lowered, next, out) && k < |m.insts|
    ensures Matches(c.t, m.insts, k) ==> next + 10 <= ID_LIMIT
  {
    PendingStep(c, m.insts, k, next);
  }

  lemma ProgressStart(c: Lowering, m: Module, first: nat)
    requires m.Valid() && first + 10 * Count(c.t, m.insts, 0) <= ID_LIMIT
    ensures m.Words()[..HEADER] == m.header && Progress(c, m, first, 0, HEADER, 0, first, m.header)
  {}

  lemma ProgressRead(c: Lowering, m: Module, first: nat, k: nat, i: nat, lowered: nat, next: nat, out: seq<Word>)
    requires Progress(c, m, first, k, i, lowered, next, out)
    ensures i <= |m.Words()| && (i < |m.Words()| <==> k < |m.insts|)
    ensures i < |m.Words()| ==> InstAt(m.Words(), i) == Ok(m.insts[k])
    ensures i == |m.Words()| ==> out == m.header + Pending(c, m.insts, 0, first) && lowered == Count(c.t, m.insts, 0)
  {
    ReadAt(m, k);
    if k == |m.insts| {
      PendingEnd(c, m.insts, k, next);
      assert out + [] == out;
    }
  }

  /** The rewriting pass: a word index that jumps from instruction to
      instruction, and over the load of every match. It rewrites exactly the
      counted matches and uses up exactly the reserved ids. */
  method RewriteLoads(words: seq<Word>, c: Lowering, first: nat, ghost m: Module, ghost spec: Lowering)
    returns (r: Result<seq<Word>>, lowered: nat, next: nat)
    requires m.Valid() && words == m.Words() && Held(c, spec, m)
    requires first + 10 * Count(spec.t, m.insts, 0) <= ID_LIMIT
    ensures r == Ok(m.header + Pending(spec, m.insts, 0, first))
    ensures lowered == Count(spec.t, m.insts, 0) && next == first + 10 * lowered
  {
    var out := words[..HEADER];
    var i := HEADER;
    lowered, next := 0, first;
    ghost var k: nat := 0;
    ProgressStart(spec, m, first);
    while i < |words|
      invariant Progress(spec, m, first, k, i, lowered, next, out)
      decreases |words| - i
    {
      ProgressRead(spec, m, first, k, i, lowered, next, out);
      ProgressRoom(spec, m, first, k, i, lowered, next, out);
      var inst := InstAt(words, i);
      if inst.Err? { return Err(Truncated(i)), lowered, next; }
      var emit, size, hit := RewriteAt(words, c, i, next, m, spec, k);
      ghost var before := (k, i, lowered, next, out);
      k := k + Width(spec.t, m.insts, k);
      out := out + emit;
      if hit {
        next := next + 10;
        lowered := lowered + 1;
      }
      i := i + size;
      ProgressStep(spec, m, first, before.0, before.1, before.2, before.3, before.4, k, i, lowered, next, out);
    }
    ProgressRead(spec, m, first, k, i, lowered, next, out);
    r := Ok(out);
  }

  lemma PendingEnd(c: Lowering, insts: seq<Inst>, k: nat, n: nat)
    requires n <= ID_LIMIT && k >= |insts|
    ensures Pending(c, insts, k, n) == []
  {}

  /** What the stage returns on the module `m`. */
  ghost predicate LoweredAs(m: Module, s: Step)
    requires m.Valid()
  {
    && s.words == LowerModule(m).Words()
    && (s.changed <==> Applies(m))
    && (s.changed ==> s.lowered == Count(TypesOf(m.insts), m.insts, 0) && s.added == LoweringOf(m).add)
  }

  method LowerStorage16LoadsToStorage8(words: seq<Word>) returns (r: Result<Step>)
    requires HEADER <= |words|
    ensures ModuleOf(words).Ok? ==> ModuleOf(words).value.Valid() && r.Ok? && LoweredAs(ModuleOf(words).value, r.value)
    ensures ModuleOf(words).Err? ==> r.Err? || r.value == Step(words, false, 0, false)
  {
    ModuleRoundTrip(words);
    if words[0] != MAGIC { return Ok(Step(words, false, 0, false)); }
    if words[3] <= VIEW16 || words[3] > ID_LIMIT { return Ok(Step(words, false, 0, false)); }
    var t :- FindTypes(words);
    if !Complete(t) { if ModuleOf(words).Ok? { NotApplies(ModuleOf(words).value, t); } return Ok(Step(words, false, 0, false)); }
    r := LowerWith(words, t);
  }

  lemma LowerModuleIs(m: Module, body: seq<Word>)
    requires m.Valid() && Applies(m) && body == m.header + Pending(LoweringOf(m), m.insts, 0, FirstId(m))
    ensures body[3 := NewBound(m)] == LowerModule(m).Words()
  {
    HeaderUpdate(m.header, Pending(LoweringOf(m), m.insts, 0, FirstId(m)), NewBound(m));
  }

  lemma LoweringHeld(m: Module, t: Types, c: Lowering)
    requires m.Valid() && Found(m.insts, FunctionAt(m.insts), t) && Complete(t)
    requires c == Lowering(t, if t.ptrUchar == 0 then m.Bound() else t.ptrUchar, t.ptrUchar == 0)
    ensures Held(c, LoweringOf(m), m) && Complete(TypesOf(m.insts))
    ensures Count(t, m.insts, 0) == Count(TypesOf(m.insts), m.insts, 0)
  {
    CountSame(t, TypesOf(m.insts), m.insts, 0);
  }

  lemma NotApplies(m: Module, t: Types)
    requires m.Valid() && Found(m.insts, FunctionAt(m.insts), t) && !Complete(t)
    ensures !Applies(m)
  {}

  /** The rest of the stage, once the types are known. */
  method LowerWith(words: seq<Word>, t: Types) returns (r: Result<Step>)
    requires HEADER <= |words| && words[0] == MAGIC && VIEW16 < words[3] <= ID_LIMIT && Complete(t)
    requires ModuleOf(words).Ok? ==>
      var insts := ModuleOf(words).value.insts; Found(insts, FunctionAt(insts), t)
    ensures ModuleOf(words).Ok? ==> ModuleOf(words).value.Valid() && r.Ok? && LoweredAs(ModuleOf(words).value, r.value)
    ensures ModuleOf(words).Err? ==> r.Err?
  {
    var bound := words[3];
    var items :- IterInstructions(words);
    ModuleRoundTrip(words);
    ghost var m := ModuleOf(words).value;
    var add := t.ptrUchar == 0;
    var c := Lowering(t, if add then bound else t.ptrUchar, add);
    LoweringHeld(m, t, c);
    var count := CountPatterns(t, Instructions(items));
    if count == 0 || count > PATTERN_LIMIT { return Ok(Step(words, false, 0, false)); }
    var first: nat := bound + if add then 1 else 0;
    var newBound := first + count * 10;
    assert first == FirstId(m) && newBound == NewBound(m);
    if newBound <= bound || newBound > ID_LIMIT { return Ok(Step(words, false, 0, false)); }
    var body, lowered, next := RewriteLoads(words, c, first, m, LoweringOf(m));
    match body {
      case Err(e) => return Err(e);
      case Ok(out) =>
        if lowered != count || next != newBound { return Err(Accounting); }
        LowerModuleIs(m, out);
        r := Ok(Step(out[3 := newBound], true, lowered, add));
    }
  }

  lemma HeaderUpdate(header: seq<Word>, body: seq<Word>, bound: Word)
    requires |header| == HEADER
    ensures (header + body)[3 := bound] == header[3 := bound] + body
  {}

  /** Counting looks at ids only, not at where the 8-bit type ends. */
  lemma {:induction false} CountSame(a: Types, b: Types, insts: seq<Inst>, k: nat)
    requires a == b.(ucharEnd := a.ucharEnd)
    ensures Count(a, insts, k) == Count(b, insts, k)
    decreases |insts| - k
  {
    if k < |insts| { CountSame(a, b, insts, k + 1); }
  }
}
