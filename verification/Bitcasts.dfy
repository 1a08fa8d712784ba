/** Stage 4 of the effective-module compiler: a bitcast of one 32-bit word to a
    vector of four bytes becomes shifts and conversions. */
module Bitcasts {
  import opened Words
  import opened Ops
  import opened Machine
  import opened Translation
  import opened Meaning

  const PATTERN_LIMIT := 256

  /** What the scan of the module finds; 0 means not found. */
  datatype Types = Types(uintT: Word, ucharT: Word, quadT: Word, eight: Word, sixteen: Word, twentyFour: Word)

  const NO_TYPES := Types(0, 0, 0, 0, 0, 0)

  function See(t: Types, inst: Inst): Types {
    if IsInt(inst, 32) then t.(uintT := inst[1])
    else if IsInt(inst, 8) then t.(ucharT := inst[1])
    else if Op(inst) == TYPE_VECTOR && |inst| >= 4 && t.ucharT != 0 && inst[2] == t.ucharT && inst[3] == 4 then
      t.(quadT := inst[1])
    else if Op(inst) == CONSTANT && |inst| >= 4 && t.uintT != 0 && inst[1] == t.uintT then
      if inst[3] == 8 then t.(eight := inst[2])
      else if inst[3] == 16 then t.(sixteen := inst[2])
      else if inst[3] == 24 then t.(twentyFour := inst[2])
      else t
    else t
  }

  function Scan(insts: seq<Inst>): Types {
    if insts == [] then NO_TYPES else See(Scan(insts[..|insts| - 1]), insts[|insts| - 1])
  }

  predicate Complete(t: Types) {
    t.uintT != 0 && t.ucharT != 0 && t.quadT != 0 && t.eight != 0 && t.sixteen != 0 && t.twentyFour != 0
  }

  predicate Matches(t: Types, inst: Inst) {
    Op(inst) == BITCAST && |inst| == 4 && inst[1] == t.quadT
  }

  function Count(t: Types, insts: seq<Inst>): nat {
    if insts == [] then 0 else (if Matches(t, insts[0]) then 1 else 0) + Count(t, insts[1..])
  }

  /** The eight instructions that take the place of a bitcast, with seven fresh
      ids from `n` on. */
  function LoweredInst(t: Types, inst: Inst, n: nat, i: nat): Inst
    requires |inst| == 4 && n + 7 <= WORD
  {
    match i
    case 0 => [Head(4, U_CONVERT), t.ucharT, n, inst[3]]
    case 1 => [Head(5, SHIFT_RIGHT_LOGICAL), t.uintT, n + 1, inst[3], t.eight]
    case 2 => [Head(4, U_CONVERT), t.ucharT, n + 2, n + 1]
    case 3 => [Head(5, SHIFT_RIGHT_LOGICAL), t.uintT, n + 3, inst[3], t.sixteen]
    case 4 => [Head(4, U_CONVERT), t.ucharT, n + 4, n + 3]
    case 5 => [Head(5, SHIFT_RIGHT_LOGICAL), t.uintT, n + 5, inst[3], t.twentyFour]
    case 6 => [Head(4, U_CONVERT), t.ucharT, n + 6, n + 5]
    case _ => [Head(7, COMPOSITE_CONSTRUCT), t.quadT, inst[2], n, n + 2, n + 4, n + 6]
  }

  function Lowered(t: Types, inst: Inst, n: nat): (r: seq<Inst>)
    requires |inst| == 4 && n + 7 <= WORD
    ensures |r| == 8
  {
    seq(8, i requires 0 <= i < 8 => LoweredInst(t, inst, n, i))
  }

  function UnitOf(t: Types, inst: Inst, n: nat): Unit
    requires Matches(t, inst) ==> n + 7 <= WORD
  {
    Unit([inst], if Matches(t, inst) then Lowered(t, inst, n) else [inst])
  }

  function Fresh(t: Types, inst: Inst): nat { if Matches(t, inst) then 7 else 0 }

  function UnitsFrom(t: Types, insts: seq<Inst>, n: nat): (r: seq<Unit>)
    requires n + 7 * Count(t, insts) <= WORD
    ensures |r| == |insts|
  {
    if insts == [] then [] else [UnitOf(t, insts[0], n)] + UnitsFrom(t, insts[1..], n + Fresh(t, insts[0]))
  }

  function NewBound(m: Module): nat
    requires |m.header| == HEADER
  {
    m.Bound() + 7 * Count(Scan(m.insts), m.insts)
  }

  predicate Applies(m: Module)
    requires |m.header| == HEADER
  {
    m.header[0] == MAGIC && Complete(Scan(m.insts)) && 0 < Count(Scan(m.insts), m.insts) <= PATTERN_LIMIT
  }

  function Units(m: Module): seq<Unit>
    requires |m.header| == HEADER && NewBound(m) < WORD
  {
    UnitsFrom(Scan(m.insts), m.insts, m.Bound())
  }

  function LowerModule(m: Module): Result<Module>
    requires |m.header| == HEADER
  {
    if !Applies(m) then Ok(m)
    else if NewBound(m) >= WORD then Err(BoundOverflow)
    else Ok(Module(m.header[3 := NewBound(m)], Flatten(Dsts(Units(m)))))
  }

  // ---- the loops ----

  datatype Step = Step(words: seq<Word>, changed: bool, lowered: nat)

  method FindTypes(insts: seq<Inst>) returns (t: Types)
    ensures t == Scan(insts)
  {
    t := NO_TYPES;
    for n := 0 to |insts|
      invariant t == Scan(insts[..n])
    {
      var inst := insts[n];
      assert insts[..n + 1][..n] == insts[..n];
      if Op(inst) == TYPE_INT && |inst| >= 4 {
        if inst[2] == 32 && inst[3] == 0 { t := t.(uintT := inst[1]); }
        else if inst[2] == 8 && inst[3] == 0 { t := t.(ucharT := inst[1]); }
      } else if Op(inst) == TYPE_VECTOR && |inst| >= 4 && t.ucharT != 0 && inst[2] == t.ucharT && inst[3] == 4 {
        t := t.(quadT := inst[1]);
      } else if Op(inst) == CONSTANT && |inst| >= 4 && t.uintT != 0 && inst[1] == t.uintT {
        if inst[3] == 8 { t := t.(eight := inst[2]); }
        else if inst[3] == 16 { t := t.(sixteen := inst[2]); }
        else if inst[3] == 24 { t := t.(twentyFour := inst[2]); }
      }
    }
    assert insts[..|insts|] == insts;
  }

  method CountPatterns(t: Types, insts: seq<Inst>) returns (count: nat)
    ensures count == Count(t, insts)
  {
    count := 0;
    for n := 0 to |insts|
      invariant count + Count(t, insts[n..]) == Count(t, insts)
    {
      if Op(insts[n]) == BITCAST && |insts[n]| == 4 && insts[n][1] == t.quadT { count := count + 1; }
    }
  }

  /** The words that the rest of the rewriting pass appends. */
  function Pending(t: Types, insts: seq<Inst>, n: nat): seq<Word>
    requires n + 7 * Count(t, insts) <= WORD
  {
    Flatten(Flatten(Dsts(UnitsFrom(t, insts, n))))
  }

  lemma UnitsStep(t: Types, insts: seq<Inst>, n: nat)
    requires n + 7 * Count(t, insts) <= WORD && insts != []
    ensures Matches(t, insts[0]) ==> n + 7 <= WORD
    ensures n + Fresh(t, insts[0]) + 7 * Count(t, insts[1..]) == n + 7 * Count(t, insts)
    ensures UnitsFrom(t, insts, n) == [UnitOf(t, insts[0], n)] + UnitsFrom(t, insts[1..], n + Fresh(t, insts[0]))
  {}

  lemma PendingStep(t: Types, insts: seq<Inst>, n: nat)
    requires n + 7 * Count(t, insts) <= WORD && insts != []
    ensures Matches(t, insts[0]) ==> n + 7 <= WORD
    ensures n + Fresh(t, insts[0]) + 7 * Count(t, insts[1..]) == n + 7 * Count(t, insts)
    ensures Pending(t, insts, n) == Flatten(UnitOf(t, insts[0], n).dst) + Pending(t, insts[1..], n + Fresh(t, insts[0]))
  {
    UnitsStep(t, insts, n);
    PendingCons(UnitsFrom(t, insts, n), UnitOf(t, insts[0], n), UnitsFrom(t, insts[1..], n + Fresh(t, insts[0])));
  }

  lemma PendingCons(all: seq<Unit>, unit: Unit, rest: seq<Unit>)
    requires all == [unit] + rest
    ensures Flatten(Flatten(Dsts(all))) == Flatten(unit.dst) + Flatten(Flatten(Dsts(rest)))
  {
    UnitsCons(all);
    assert all[1..] == rest;
    FlattenAppend(unit.dst, Flatten(Dsts(rest)));
  }

  lemma FlatOne(inst: Inst)
    ensures Flatten([inst]) == inst
  {
    var one := [inst];
    assert one[1..] == [];
  }

  /** Where the rewriting pass stands before the instruction `k`. */
  ghost predicate Progress(t: Types, m: Module, k: nat, i: nat, lowered: nat, next: nat, out: seq<Word>) {
    && m.Valid() && k <= |m.insts| && i == HEADER + |Flatten(m.insts[..k])|
    && m.Bound() + 7 * Count(t, m.insts) <= WORD
    && lowered + Count(t, m.insts[k..]) == Count(t, m.insts) && next == m.Bound() + 7 * lowered
    && out + Pending(t, m.insts[k..], next) == m.header + Pending(t, m.insts, m.Bound())
  }

  lemma ProgressStart(t: Types, m: Module)
    requires m.Valid() && m.Bound() + 7 * Count(t, m.insts) <= WORD
    ensures m.Words()[..HEADER] == m.header && Progress(t, m, 0, HEADER, 0, m.Bound(), m.header)
  {
    assert m.insts[0..] == m.insts;
  }

  lemma ProgressRead(t: Types, m: Module, k: nat, i: nat, lowered: nat, next: nat, out: seq<Word>)
    requires Progress(t, m, k, i, lowered, next, out)
    ensures i <= |m.Words()| && (i < |m.Words()| <==> k < |m.insts|)
    ensures i < |m.Words()| ==> InstAt(m.Words(), i) == Ok(m.insts[k])
    ensures i < |m.Words()| && Matches(t, m.insts[k]) ==> next + 7 <= WORD
    ensures i == |m.Words()| ==> out == m.header + Pending(t, m.insts, m.Bound()) && lowered == Count(t, m.insts)
  {
    ReadAt(m, k);
    if k == |m.insts| {
      assert out + [] == out;
    } else {
      PendingStep(t, m.insts[k..], next);
    }
  }

  lemma ProgressStep(t: Types, m: Module, k: nat, i: nat, lowered: nat, next: nat, out: seq<Word>,
                     i': nat, lowered': nat, next': nat, out': seq<Word>)
    requires Progress(t, m, k, i, lowered, next, out) && k < |m.insts|
    requires var hit := Matches(t, m.insts[k]);
      && (hit ==> next + 7 <= WORD)
      && i' == i + |m.insts[k]|
      && lowered' == lowered + (if hit then 1 else 0) && next' == next + Fresh(t, m.insts[k])
      && out' == out + Flatten(UnitOf(t, m.insts[k], next).dst)
    ensures Progress(t, m, k + 1, i', lowered', next', out')
  {
    PendingStep(t, m.insts[k..], next);
    assert m.insts[k..][1..] == m.insts[k + 1..];
    FlattenAt(m.insts, k);
    Reassociate(out, Flatten(UnitOf(t, m.insts[k], next).dst), Pending(t, m.insts[k + 1..], next'));
  }

  lemma Reassociate(a: seq<Word>, b: seq<Word>, c: seq<Word>)
    ensures a + (b + c) == (a + b) + c
  {}

  /** The rewriting pass walks the words, the counting pass the instruction list;
      they agree, and the reserved ids are used up exactly. */
  method RewriteBitcasts(words: seq<Word>, t: Types, ghost m: Module) returns (r: Result<seq<Word>>, lowered: nat, next: nat)
    requires m.Valid() && words == m.Words() && m.Bound() + 7 * Count(t, m.insts) <= WORD
    ensures r == Ok(m.header + Pending(t, m.insts, m.Bound()))
    ensures lowered == Count(t, m.insts) && next == m.Bound() + 7 * lowered
  {
    var out := words[..HEADER];
    var i := HEADER;
    lowered, next := 0, words[3];
    ghost var k: nat := 0;
    ProgressStart(t, m);
    while i < |words|
      invariant Progress(t, m, k, i, lowered, next, out)
      decreases |words| - i
    {
      ProgressRead(t, m, k, i, lowered, next, out);
      var inst := InstAt(words, i);
      if inst.Err? { return Err(Truncated(i)), lowered, next; }
      ghost var before := (i, lowered, next, out);
      FlatOne(m.insts[k]);
      if Op(inst.value) == BITCAST && |inst.value| == 4 && inst.value[1] == t.quadT {
        out := out + Flatten(Lowered(t, inst.value, next));
        next := next + 7;
        lowered := lowered + 1;
      } else {
        out := out + inst.value;
      }
      i := i + |inst.value|;
      ProgressStep(t, m, k, before.0, before.1, before.2, before.3, i, lowered, next, out);
      k := k + 1;
    }
    ProgressRead(t, m, k, i, lowered, next, out);
    r := Ok(out);
  }

  /** What the stage returns on the module `m`. */
  ghost predicate LoweredAs(m: Module, r: Result<Step>)
    requires m.Valid()
  {
    match LowerModule(m)
    case Err(e) => r == Err(e)
    case Ok(out) =>
      && r.Ok? && r.value.words == out.Words() && (r.value.changed <==> Applies(m))
      && (r.value.changed ==> r.value.lowered == Count(Scan(m.insts), m.insts))
  }

  lemma HeaderUpdate(header: seq<Word>, body: seq<Word>, bound: Word)
    requires |header| == HEADER
    ensures (header + body)[3 := bound] == header[3 := bound] + body
  {}

  method LowerU32ToU8vec4Bitcasts(words: seq<Word>) returns (r: Result<Step>)
    requires HEADER <= |words|
    ensures ModuleOf(words).Ok? ==> ModuleOf(words).value.Valid() && LoweredAs(ModuleOf(words).value, r)
    ensures ModuleOf(words).Err? ==> r.Err? || r.value == Step(words, false, 0)
  {
    hide Count, Scan, UnitsFrom, Parse;
    ModuleRoundTrip(words);
    if words[0] != MAGIC { return Ok(Step(words, false, 0)); }
    var items :- IterInstructions(words);
    ghost var m := ModuleOf(words).value;
    var t := FindTypes(Instructions(items));
    if !Complete(t) { return Ok(Step(words, false, 0)); }
    var count := CountPatterns(t, Instructions(items));
    if count == 0 || count > PATTERN_LIMIT { return Ok(Step(words, false, 0)); }
    var newBound := words[3] + count * 7;
    if newBound >= WORD { return Err(BoundOverflow); }   // it would not fit in its header word
    var body, lowered, next := RewriteBitcasts(words, t, m);
    match body {
      case Err(e) => return Err(e);
      case Ok(out) =>
        if lowered != count || next != newBound { return Err(Accounting); }
        HeaderUpdate(m.header, Pending(t, m.insts, m.Bound()), newBound);
        r := Ok(Step(out[3 := newBound], true, lowered));
    }
  }
}
