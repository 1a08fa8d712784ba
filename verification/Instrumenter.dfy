/** The instrumenter: a debug storage buffer is declared in a complete module and
    after selected stores the stored value, with its context, is written to it.
    Assembly text is modelled as the sequence of its instructions. */
module Instrumenter {
  import opened Words
  import opened Ops
  import opened Meaning

  // ---- the layout of the debug buffer, in 32-bit slots ----

  const RECORD_BASE := 8
  const RECORD_STRIDE := 12
  const TRACE_SCHEMA := 1
  const TRACE_HEADER := 128
  const TRACE_LANES := 32
  const TRACE_WORDS := 8
  const PRE_REDUCTION := 144
  const REDUCTION := 400   // PRE_REDUCTION + TRACE_LANES * TRACE_WORDS
  const RECORD_SCHEMA := 2

  // ---- ids that the source's assembly fixes ----

  const UINT_TYPE := 6
  const FLOAT_TYPE := 14
  const MEMBER_ZERO := 52

  const ENTRY_POINT := 15
  const GL_COMPUTE := 5
  const NAME_MAIN := 0x6e69616d
  const TYPE_RUNTIME_ARRAY := 29
  const TYPE_STRUCT := 30
  const MEMBER_DECORATE := 72
  const ARRAY_STRIDE := 6
  const OFFSET := 35
  const BLOCK := 2
  const CLASS_INPUT := 1
  const WORKGROUP_ID := 26
  const LOCAL_INVOCATION_ID := 27

  datatype Role = Partial | Reduction | PostReduction | FinalStore | OtherRole
  datatype Phase = Tail | Full | OtherPhase

  /** A store to probe. */
  datatype Target = Target(pointer: Word, stored: Word, candidate: Word, role: Role, phase: Phase)

  function RoleCode(role: Role): Word {
    match role
    case Partial => 1
    case Reduction => 2
    case PostReduction => 3
    case FinalStore => 4
    case OtherRole => 0
  }

  /** Stores of the full path whose value is also kept per lane. */
  function TraceBase(t: Target): Option<Word> {
    if t.phase != Full then None
    else if t.role == Partial then Some(PRE_REDUCTION)
    else if t.role == Reduction then Some(REDUCTION)
    else None
  }

  function SlotBase(index: nat): nat { RECORD_BASE + index * RECORD_STRIDE }

  /** An id as a word. Ids beyond the last word end in `BoundOverflow`. */
  function W(id: nat): Word { if id < WORD then id else 0 }

  // ---- constants on demand ----

  datatype Request = Slot(slot: nat) | Value(value: nat)

  datatype Pool = Pool(slots: map<nat, nat>, values: map<nat, nat>, constants: seq<Inst>, next: nat) {
    predicate Has(r: Request) {
      match r case Slot(s) => s in slots case Value(v) => v in values
    }
    function Id(r: Request): nat {
      if !Has(r) then 0 else match r case Slot(s) => slots[s] case Value(v) => values[v]
    }
  }

  function Number(r: Request): nat {
    match r case Slot(s) => s case Value(v) => v
  }

  function ConstantInst(uintT: Word, id: nat, value: nat): Inst {
    [Head(4, CONSTANT), uintT, W(id), W(value)]
  }

  /** The pool after a request: a new constant only for a new key. */
  function Ask(uintT: Word, p: Pool, r: Request): Pool {
    if p.Has(r) then p
    else
      var q := p.(constants := p.constants + [ConstantInst(uintT, p.next, Number(r))], next := p.next + 1);
      match r
      case Slot(s) => q.(slots := q.slots[s := p.next])
      case Value(v) => q.(values := q.values[v := p.next])
  }

  function Serve(uintT: Word, p: Pool, rs: seq<Request>): Pool {
    if rs == [] then p else Ask(uintT, Serve(uintT, p, rs[..|rs| - 1]), rs[|rs| - 1])
  }

  /** What the prelude asks for one target. */
  function TargetRequests(t: Target, index: nat): seq<Request> {
    seq(11, o requires 0 <= o => Slot(SlotBase(index) + o)) + [Value(t.candidate), Value(RoleCode(t.role))]
  }

  function RecordRequests(targets: seq<Target>): seq<Request> {
    if targets == [] then []
    else RecordRequests(targets[..|targets| - 1]) + TargetRequests(targets[|targets| - 1], |targets| - 1)
  }

  function CommonRequests(): seq<Request> {
    [Value(0), Value(1), Value(2), Value(TRACE_SCHEMA), Value(TRACE_LANES), Value(TRACE_WORDS),
     Value(TRACE_HEADER), Value(PRE_REDUCTION), Value(REDUCTION)]
    + seq(TRACE_WORDS, v requires 0 <= v => Value(v))
    + seq(5, o requires 0 <= o => Slot(TRACE_HEADER + o))
  }

  function Prelude(uintT: Word, targets: seq<Target>, next: nat): Pool {
    Serve(uintT, Pool(map[], map[], [], next), RecordRequests(targets) + CommonRequests())
  }

  // ---- what the instrumenter looks up in the module ----

  datatype Names = Names(
    uintT: Word, ptrU32: Word, variable: Word,
    ptrInput: Option<Word>, groupVar: Option<Word>, localVar: Option<Word>,
    types: map<nat, Word>,        // result type of each id
    chains: map<nat, seq<Word>>)  // base and indices of each access chain

  /** Types that are declared over another type: the first operand is an id. */
  predicate IsTypeOver(op: nat) { op in {23, 24, 25, 27, 28, 29, 30, 33} }

  /** An id and the first id behind its opcode, which is its result type if the
      opcode has one. `typed` tells the opcodes with a result type and a result id. */
  function TypedId(typed: nat -> bool, inst: Inst): Option<(nat, Word)> {
    if |inst| < 3 then None
    else if typed(Op(inst)) then Some((inst[2], inst[1]))
    else if IsTypeOver(Op(inst)) then Some((inst[1], inst[2]))
    else None
  }

  function ResultTypes(typed: nat -> bool, insts: seq<Inst>): map<nat, Word> {
    if insts == [] then map[]
    else
      var before := ResultTypes(typed, insts[..|insts| - 1]);
      match TypedId(typed, insts[|insts| - 1])
      case Some((id, t)) => before[id := t]
      case None => before
  }

  function Chains(insts: seq<Inst>): map<nat, seq<Word>> {
    if insts == [] then map[]
    else
      var before, inst := Chains(insts[..|insts| - 1]), insts[|insts| - 1];
      if Op(inst) == ACCESS_CHAIN && |inst| >= 4 then before[inst[2] := inst[3..]] else before
  }

  predicate TypeIs(types: map<nat, Word>, id: nat, t: Word) { id in types && types[id] == t }

  // ---- the probe of one store ----

  function LoadComponent(d: Names, p: Pool, variable: Word, component: nat, n: nat): seq<Inst>
    requires d.ptrInput.Some?
  {
    [[Head(5, ACCESS_CHAIN), d.ptrInput.value, W(n), variable, W(p.Id(Value(component)))],
     [Head(4, LOAD), d.uintT, W(n + 1), W(n)]]
  }

  /** Components 0 to 2; their values are `n + 1`, `n + 3` and `n + 5`. */
  function LoadVector(d: Names, p: Pool, variable: Word, n: nat): seq<Inst>
    requires d.ptrInput.Some?
  {
    LoadComponent(d, p, variable, 0, n) + LoadComponent(d, p, variable, 1, n + 2) + LoadComponent(d, p, variable, 2, n + 4)
  }

  function DebugWord(d: Names, slot: nat, value: nat, n: nat): seq<Inst> {
    [[Head(6, ACCESS_CHAIN), d.ptrU32, W(n), d.variable, MEMBER_ZERO, W(slot)],
     [Head(3, STORE), W(n), W(value)]]
  }

  /** A word to write: the id of its slot and the id of its value. */
  datatype Field = Field(slot: nat, value: nat)

  function DebugWords(d: Names, fields: seq<Field>, n: nat): seq<Inst> {
    if fields == [] then []
    else DebugWords(d, fields[..|fields| - 1], n) + DebugWord(d, fields[|fields| - 1].slot, fields[|fields| - 1].value, n + |fields| - 1)
  }

  /** The same, at a slot computed from the lane: the field's slot is the id of
      an offset from `base`. */
  function LaneWord(d: Names, base: nat, f: Field, n: nat): seq<Inst> {
    [[Head(5, I_ADD), d.uintT, W(n), W(base), W(f.slot)]] + DebugWord(d, n, f.value, n + 1)
  }

  function LaneWords(d: Names, base: nat, fields: seq<Field>, n: nat): seq<Inst> {
    if fields == [] then []
    else LaneWords(d, base, fields[..|fields| - 1], n) + LaneWord(d, base, fields[|fields| - 1], n + 2 * (|fields| - 1))
  }

  predicate IsFloat(d: Names, t: Target) { TypeIs(d.types, t.stored, FLOAT_TYPE) }

  /** The value is converted from a 32-bit float, or is a word as it stands. */
  predicate WordOrFloat(d: Names, t: Target) { IsFloat(d, t) || d.uintT == UINT_TYPE }

  /** Id of the word that is recorded, with `n` the first fresh id. */
  function ValueId(d: Names, t: Target, n: nat): nat { if IsFloat(d, t) then n else t.stored }

  function RecordStart(d: Names, t: Target, n: nat): nat { if IsFloat(d, t) then n + 1 else n }

  function Operands(d: Names, t: Target): seq<Word> {
    if t.pointer in d.chains then d.chains[t.pointer] else []
  }

  /** The final store also records where it is. */
  function RecordLength(t: Target): nat { if t.role == FinalStore then 11 else 3 }

  /** Id of the value that goes to slot `i` of the fixed record. */
  function RecordValueId(d: Names, p: Pool, t: Target, n: nat, i: nat): nat
    requires t.role == FinalStore ==> Operands(d, t) != []
  {
    if i == 0 then p.Id(Value(t.candidate))
    else if i == 1 then p.Id(Value(RoleCode(t.role)))
    else if i == 2 || t.role != FinalStore then ValueId(d, t, n)
    else if i == 3 then Operands(d, t)[|Operands(d, t)| - 1]
    else if i < 10 then RecordStart(d, t, n) + 2 * (i - 4) + 1
    else p.Id(Value(RECORD_SCHEMA))
  }

  function RecordFields(d: Names, p: Pool, t: Target, index: nat, n: nat): (r: seq<Field>)
    requires t.role == FinalStore ==> Operands(d, t) != []
    ensures |r| == RecordLength(t)
  {
    seq(RecordLength(t), i requires 0 <= i < RecordLength(t) => Field(p.Id(Slot(SlotBase(index) + i)), RecordValueId(d, p, t, n, i)))
  }

  /** The five words that describe the lane trace. */
  function HeaderValue(i: nat): Word {
    if i == 0 then TRACE_SCHEMA else if i == 1 then TRACE_LANES else if i == 2 then TRACE_WORDS else if i == 3 then PRE_REDUCTION else REDUCTION
  }

  function HeaderFields(p: Pool): (r: seq<Field>)
    ensures |r| == 5
  {
    seq(5, i requires 0 <= i < 5 => Field(p.Id(Slot(TRACE_HEADER + i)), p.Id(Value(HeaderValue(i)))))
  }

  /** Id of the value kept at offset `i` of the lane's slots; `n3` is the first
      id of the lane trace. */
  function LaneValueId(d: Names, p: Pool, t: Target, n: nat, n3: nat, i: nat): nat
    requires |Operands(d, t)| >= 4
  {
    if i == 0 then n3 + 1
    else if i == 1 then ValueId(d, t, n)
    else if i < 5 then n3 + 2 * i - 1
    else if i == 5 then p.Id(Value(t.candidate))
    else if i == 6 then Operands(d, t)[1]
    else Operands(d, t)[2]
  }

  function LaneFields(d: Names, p: Pool, t: Target, n: nat, n3: nat): (r: seq<Field>)
    requires |Operands(d, t)| >= 4
    ensures |r| == 8
  {
    seq(8, i requires 0 <= i < 8 => Field(p.Id(Value(i)), LaneValueId(d, p, t, n, n3, i)))
  }

  /** Why a matched store cannot be probed. */
  function Refusal(d: Names, t: Target): Option<string> {
    if !TypeIs(d.types, t.stored, UINT_TYPE) && !TypeIs(d.types, t.stored, FLOAT_TYPE) then Some("object type")
    else if t.role == FinalStore && (d.groupVar.None? || d.localVar.None?) then Some("builtins")
    else if t.role == FinalStore && Operands(d, t) == [] then Some("access chain")
    else if t.role == FinalStore && !TypeIs(d.types, Operands(d, t)[|Operands(d, t)| - 1], d.uintT) then Some("index type")
    else if t.role == FinalStore && d.ptrInput.None? then Some("input pointer")
    else if TraceBase(t).Some? && (d.groupVar.None? || d.localVar.None?) then Some("builtins")
    else if TraceBase(t).Some? && d.ptrInput.None? then Some("input pointer")
    else if TraceBase(t).Some? && |Operands(d, t)| < 4 then Some("lane operands")
    else if TraceBase(t).Some? && !(TypeIs(d.types, Operands(d, t)[1], d.uintT) && TypeIs(d.types, Operands(d, t)[2], d.uintT)) then
      Some("lane operand types")
    else None
  }

  function Convert(d: Names, t: Target, n: nat): seq<Inst> {
    if IsFloat(d, t) then [[Head(4, BITCAST), d.uintT, W(n), t.stored]] else []
  }

  /** Where the final store is: both id vectors. */
  function Position(d: Names, p: Pool, t: Target, n: nat): seq<Inst>
    requires Refusal(d, t).None?
  {
    if t.role == FinalStore
    then LoadVector(d, p, d.groupVar.value, RecordStart(d, t, n)) + LoadVector(d, p, d.localVar.value, RecordStart(d, t, n) + 6)
    else []
  }

  function FieldsStart(d: Names, t: Target, n: nat): nat {
    RecordStart(d, t, n) + if t.role == FinalStore then 12 else 0
  }

  function TraceStart(d: Names, t: Target, n: nat): nat {
    FieldsStart(d, t, n) + if t.role == FinalStore then 11 else 3
  }

  /** The lane's first slot: eight slots a lane, from the region's base. */
  function LaneSlot(d: Names, p: Pool, base: nat, n3: nat): seq<Inst> {
    [[Head(5, I_MUL), d.uintT, W(n3 + 8), W(n3 + 1), W(p.Id(Value(TRACE_WORDS)))],
     [Head(5, I_ADD), d.uintT, W(n3 + 9), W(n3 + 8), W(p.Id(Value(base)))]]
  }

  function Trace(d: Names, p: Pool, t: Target, n: nat): seq<Inst>
    requires Refusal(d, t).None?
  {
    if TraceBase(t).None? then []
    else
      var n3 := TraceStart(d, t, n);
      LoadComponent(d, p, d.localVar.value, 0, n3) + LoadVector(d, p, d.groupVar.value, n3 + 2)
      + LaneSlot(d, p, TraceBase(t).value, n3)
      + DebugWords(d, HeaderFields(p), n3 + 10)
      + LaneWords(d, n3 + 9, LaneFields(d, p, t, n, n3), n3 + 15)
  }

  /** All that is inserted after a probed store. */
  function Block(d: Names, p: Pool, t: Target, index: nat, n: nat): seq<Inst>
    requires Refusal(d, t).None?
  {
    Convert(d, t, n) + Position(d, p, t, n)
    + DebugWords(d, RecordFields(d, p, t, index, n), FieldsStart(d, t, n))
    + Trace(d, p, t, n)
  }

  /** The first id after the block. */
  function ProbeEnd(d: Names, t: Target, n: nat): nat {
    TraceStart(d, t, n) + if TraceBase(t).Some? then 31 else 0
  }

  // ---- the stores ----

  /** The last target with the operands of a store. */
  function FindTarget(targets: seq<Target>, inst: Inst): (r: Option<nat>)
    ensures r.Some? ==> r.value < |targets| && Op(inst) == STORE && |inst| >= 3
    ensures r.Some? ==> targets[r.value].pointer == inst[1] && targets[r.value].stored == inst[2]
  {
    if targets == [] || Op(inst) != STORE || |inst| < 3 then None
    else
      var last := targets[|targets| - 1];
      if last.pointer == inst[1] && last.stored == inst[2] then Some(|targets| - 1)
      else FindTarget(targets[..|targets| - 1], inst)
  }

  /** The instructions after probing, and the first id that is then free. */
  datatype Probed = Probed(insts: seq<Inst>, next: nat)

  function ProbeOne(d: Names, p: Pool, targets: seq<Target>, inst: Inst, n: nat): Result<Probed> {
    match FindTarget(targets, inst)
    case None => Ok(Probed([inst], n))
    case Some(i) =>
      match Refusal(d, targets[i])
      case Some(why) => Err(Unprobed(why))
      case None => Ok(Probed([inst] + Block(d, p, targets[i], i, n), ProbeEnd(d, targets[i], n)))
  }

  function ProbeAll(d: Names, p: Pool, targets: seq<Target>, insts: seq<Inst>, n: nat): Result<Probed> {
    if insts == [] then Ok(Probed([], n))
    else
      var before :- ProbeAll(d, p, targets, insts[..|insts| - 1], n);
      var here :- ProbeOne(d, p, targets, insts[|insts| - 1], before.next);
      Ok(Probed(before.insts + here.insts, here.next))
  }

  /** Some target's pair of operands is stored nowhere. */
  predicate Missing(targets: seq<Target>, insts: seq<Inst>) {
    exists i | 0 <= i < |targets| :: !Stored(insts, targets[i].pointer, targets[i].stored)
  }

  predicate Stored(insts: seq<Inst>, pointer: Word, stored: Word) {
    exists k | 0 <= k < |insts| :: Op(insts[k]) == STORE && |insts[k]| >= 3 && insts[k][1] == pointer && insts[k][2] == stored
  }

  // ---- the declarations ----

  predicate IsType(inst: Inst) { 19 <= Op(inst) <= 39 }

  predicate IsFunction(inst: Inst) { 54 <= Op(inst) <= 57 }

  predicate IsUint(inst: Inst) { IsInt(inst, 32) && |inst| == 4 }

  predicate IsMain(inst: Inst) {
    Op(inst) == ENTRY_POINT && |inst| >= 5 && inst[1] == GL_COMPUTE && inst[3] == NAME_MAIN && inst[4] == 0
  }

  predicate IsPointerTo(inst: Inst, class_: Word, pointee: Word) {
    Op(inst) == TYPE_POINTER && |inst| == 4 && inst[2] == class_ && inst[3] == pointee
  }

  predicate IsBuiltin(inst: Inst, name: Word) {
    Op(inst) == DECORATE && |inst| == 4 && inst[2] == BUILT_IN && inst[3] == name
  }

  function First(p: Inst -> bool, insts: seq<Inst>): (r: Option<nat>)
    ensures r.Some? ==> r.value < |insts| && p(insts[r.value]) && forall i :: 0 <= i < r.value ==> !p(insts[i])
    ensures r.None? ==> forall i :: 0 <= i < |insts| ==> !p(insts[i])
  {
    if insts == [] then None
    else if p(insts[0]) then Some(0)
    else match First(p, insts[1..]) case None => None case Some(i) => Some(i + 1)
  }

  function Splice(insts: seq<Inst>, at: nat, x: seq<Inst>): seq<Inst>
    requires at <= |insts|
  {
    insts[..at] + x + insts[at..]
  }

  /** The five ids of the debug buffer, from the old bound on. */
  function Annotations(bound: nat, set_: Word, binding: Word): seq<Inst> {
    [[Head(4, DECORATE), W(bound), ARRAY_STRIDE, 4],
     [Head(5, MEMBER_DECORATE), W(bound + 1), 0, OFFSET, 0],
     [Head(3, DECORATE), W(bound + 1), BLOCK],
     [Head(4, DECORATE), W(bound + 3), DESCRIPTOR_SET, set_],
     [Head(4, DECORATE), W(bound + 3), BINDING, binding]]
  }

  function DebugVariable(bound: nat): Inst {
    [Head(4, VARIABLE), W(bound + 2), W(bound + 3), STORAGE_BUFFER]
  }

  function BufferDeclarations(bound: nat, uintT: Word): seq<Inst> {
    [[Head(3, TYPE_RUNTIME_ARRAY), W(bound), uintT],
     [Head(3, TYPE_STRUCT), W(bound + 1), W(bound)],
     [Head(4, TYPE_POINTER), W(bound + 2), STORAGE_BUFFER, W(bound + 1)],
     [Head(4, TYPE_POINTER), W(bound + 4), STORAGE_BUFFER, uintT],
     DebugVariable(bound)]
  }

  function WithInterface(inst: Inst, id: nat): Inst
    requires 0 < |inst| < 65535
  {
    [Head(|inst| + 1, Op(inst))] + inst[1..] + [W(id)]
  }

  /** The module with the debug buffer declared. */
  function DeclareBuffer(m: Module, set_: Word, binding: Word): Result<seq<Inst>>
    requires |m.header| == HEADER
  {
    var bound: nat := m.Bound();
    match First(IsUint, m.insts)
    case None => Err(Unprobed("uint type"))
    case Some(u) =>
      match First(IsMain, m.insts)
      case None => Err(Unprobed("entry point"))
      case Some(e) =>
        if |m.insts[e]| >= 65535 then Err(BoundOverflow)
        else
          var lines := m.insts[e := WithInterface(m.insts[e], bound + 3)];
          match First(IsType, lines)
          case None => Err(Unprobed("type"))
          case Some(t) =>
            var annotated := Splice(lines, t, Annotations(bound, set_, binding));
            match First(IsFunction, annotated)
            case None => Err(Unprobed("function"))
            case Some(f) => Ok(Splice(annotated, f, BufferDeclarations(bound, m.insts[u][1])))
  }

  function InputPointer(uintT: Word): Inst -> bool { inst => IsPointerTo(inst, CLASS_INPUT, uintT) }

  function BuiltinNamed(name: Word): Inst -> bool { inst => IsBuiltin(inst, name) }

  function NamesOf(typed: nat -> bool, lines: seq<Inst>, uintT: Word, bound: nat): Names {
    var ptr := First(InputPointer(uintT), lines);
    var group, local := First(BuiltinNamed(WORKGROUP_ID), lines), First(BuiltinNamed(LOCAL_INVOCATION_ID), lines);
    Names(uintT, W(bound + 4), W(bound + 3),
          if ptr.Some? then Some(lines[ptr.value][1]) else None,
          if group.Some? then Some(lines[group.value][1]) else None,
          if local.Some? then Some(lines[local.value][1]) else None,
          ResultTypes(typed, lines), Chains(lines))
  }

  /** The probed module: constants before the first function, a block after each
      matched store. */
  function Insert(typed: nat -> bool, lines: seq<Inst>, targets: seq<Target>, uintT: Word, bound: nat): Result<Probed> {
    if targets == [] then Ok(Probed(lines, bound + 5))
    else
      var d, p := NamesOf(typed, lines, uintT, bound), Prelude(uintT, targets, bound + 5);
      match First(IsFunction, lines)
      case None => Err(Unprobed("function"))
      case Some(f) =>
        var all := Splice(lines, f, p.constants);
        var r :- ProbeAll(d, p, targets, all, p.next);
        if Missing(targets, all) then Err(Unprobed("missing target")) else Ok(r)
  }

  function Instrumented(typed: nat -> bool, m: Module, set_: Word, binding: Word, targets: seq<Target>): Result<Module>
    requires |m.header| == HEADER
  {
    var lines :- DeclareBuffer(m, set_, binding);
    var u := First(IsUint, m.insts);
    if u.None? then Err(Unprobed("uint type"))
    else
      var r :- Insert(typed, lines, targets, m.insts[u.value][1], m.Bound());
      if r.next >= WORD then Err(BoundOverflow)
      else Ok(Module(m.header[3 := r.next], r.insts))
  }

  /** An application of the instrumenter to a module. */
  datatype Probing = Probing(typed: nat -> bool, m: Module, set_: Word, binding: Word, targets: seq<Target>) {
    /** The instrumenter returns. */
    predicate Accepted() {
      |m.header| == HEADER && Instrumented(typed, m, set_, binding, targets).Ok?
    }
    function Output(): Module {
      if Accepted() then Instrumented(typed, m, set_, binding, targets).value else m
    }
    /** The module with the probe buffer declared. */
    function Lines(): seq<Inst> {
      if |m.header| == HEADER && DeclareBuffer(m, set_, binding).Ok? then DeclareBuffer(m, set_, binding).value else m.insts
    }
    function Uint(): Word {
      match First(IsUint, m.insts) case Some(u) => m.insts[u][1] case None => 0
    }
    function Found(): Names {
      NamesOf(typed, Lines(), Uint(), if |m.header| == HEADER then m.Bound() else 0)
    }
  }

  // ---- the code ----

  /** Everything an emission asks for is there already. */
  ghost predicate Served(p: Pool, rs: seq<Request>) {
    forall i :: 0 <= i < |rs| ==> p.Has(rs[i])
  }

  lemma {:induction false} ServeAppend(uintT: Word, p: Pool, a: seq<Request>, b: seq<Request>)
    ensures Serve(uintT, p, a + b) == Serve(uintT, Serve(uintT, p, a), b)
    decreases |b|
  {
    if b == [] {
      assert a + b == a;
    } else {
      assert (a + b)[..|a + b| - 1] == a + b[..|b| - 1];
      ServeAppend(uintT, p, a, b[..|b| - 1]);
    }
  }

  /** After a list of requests all of them are served, and nothing that was is lost. */
  lemma {:induction false} ServeServes(uintT: Word, p: Pool, rs: seq<Request>)
    ensures Served(Serve(uintT, p, rs), rs)
    ensures forall r :: p.Has(r) ==> Serve(uintT, p, rs).Has(r)
  {
    if rs != [] {
      ServeServes(uintT, p, rs[..|rs| - 1]);
      var q := Serve(uintT, p, rs);
      forall i | 0 <= i < |rs|
        ensures q.Has(rs[i])
      {
        if i < |rs| - 1 { assert rs[i] == rs[..|rs| - 1][i]; }
      }
    }
  }

  /** The prelude serves every request that a block makes. */
  lemma PreludeServes(uintT: Word, targets: seq<Target>, next: nat)
    ensures Served(Prelude(uintT, targets, next), CommonRequests())
    ensures forall i :: 0 <= i < |targets| ==> Served(Prelude(uintT, targets, next), TargetRequests(targets[i], i))
  {
    var rs := RecordRequests(targets) + CommonRequests();
    var p := Prelude(uintT, targets, next);
    ServeServes(uintT, Pool(map[], map[], [], next), rs);
    forall i | 0 <= i < |CommonRequests()|
      ensures p.Has(CommonRequests()[i])
    {
      assert rs[|RecordRequests(targets)| + i] == CommonRequests()[i];
    }
    forall i | 0 <= i < |targets|
      ensures Served(p, TargetRequests(targets[i], i))
    {
      RecordRequestsHold(targets, i);
      forall o | 0 <= o < 13
        ensures p.Has(TargetRequests(targets[i], i)[o])
      {
        assert rs[13 * i + o] == RecordRequests(targets)[13 * i + o];
      }
    }
  }

  lemma {:induction false} RecordRequestsHold(targets: seq<Target>, i: nat)
    requires i < |targets|
    ensures |RecordRequests(targets)| == 13 * |targets|
    ensures RecordRequests(targets)[13 * i..13 * i + 13] == TargetRequests(targets[i], i)
  {
    RequestCount(targets);
    var front := targets[..|targets| - 1];
    RequestCount(front);
    if i < |front| {
      RecordRequestsHold(front, i);
      assert RecordRequests(targets)[13 * i..13 * i + 13] == RecordRequests(front)[13 * i..13 * i + 13];
    }
  }

  lemma {:induction false} RequestCount(targets: seq<Target>)
    ensures |RecordRequests(targets)| == 13 * |targets|
  {
    if targets != [] { RequestCount(targets[..|targets| - 1]); }
  }

  lemma CommonServed(p: Pool)
    requires Served(p, CommonRequests())
    ensures forall v :: 0 <= v <= 8 ==> p.Has(Value(v))
    ensures p.Has(Value(TRACE_LANES)) && p.Has(Value(PRE_REDUCTION)) && p.Has(Value(REDUCTION))
    ensures forall s :: TRACE_HEADER <= s < TRACE_HEADER + 5 ==> p.Has(Slot(s))
  {
    var rs := CommonRequests();
    assert rs[4] == Value(32) && rs[5] == Value(8) && rs[7] == Value(144) && rs[8] == Value(400);
    forall v | 0 <= v < 8 ensures p.Has(Value(v)) { assert rs[9 + v] == Value(v); }
    forall s | TRACE_HEADER <= s < TRACE_HEADER + 5 ensures p.Has(Slot(s)) { assert rs[17 + (s - TRACE_HEADER)] == Slot(s); }
  }

  lemma TargetServed(p: Pool, t: Target, index: nat)
    requires Served(p, TargetRequests(t, index))
    ensures p.Has(Value(t.candidate)) && p.Has(Value(RoleCode(t.role)))
    ensures forall s: nat :: SlotBase(index) <= s < SlotBase(index) + 11 ==> p.Has(Slot(s))
  {
    var rs := TargetRequests(t, index);
    assert rs[11] == Value(t.candidate) && rs[12] == Value(RoleCode(t.role));
    forall s: nat | SlotBase(index) <= s < SlotBase(index) + 11 ensures p.Has(Slot(s)) { assert rs[s - SlotBase(index)] == Slot(s); }
  }

  /** The state that the nested functions of the instrumenter share: the two
      constant tables, the list of constants, the next free id and the output. */
  class Probe {
    const d: Names
    var slots: map<nat, nat>
    var values: map<nat, nat>
    var constants: seq<Inst>
    var next: nat
    var out: seq<Inst>

    ghost function Contents(): Pool
      reads this
    {
      Pool(slots, values, constants, next)
    }

    /** The constants are those of the prelude: none came late. */
    ghost predicate Frozen(p: Pool)
      reads this
    {
      slots == p.slots && values == p.values && constants == p.constants
    }

    constructor (d: Names, next: nat)
      ensures this.d == d && Contents() == Pool(map[], map[], [], next) && out == []
    {
      this.d, this.next := d, next;
      slots, values, constants, out := map[], map[], [], [];
    }

    method ConstId(value: nat) returns (id: nat)
      modifies this`values, this`constants, this`next
      ensures Contents() == Ask(d.uintT, old(Contents()), Value(value)) && id == Contents().Id(Value(value))
    {
      if value !in values {
        values := values[value := next];
        constants := constants + [[Head(4, CONSTANT), d.uintT, W(next), W(value)]];
        next := next + 1;
      }
      id := values[value];
    }

    method SlotId(slot: nat) returns (id: nat)
      modifies this`slots, this`constants, this`next
      ensures Contents() == Ask(d.uintT, old(Contents()), Slot(slot)) && id == Contents().Id(Slot(slot))
    {
      if slot !in slots {
        slots := slots[slot := next];
        constants := constants + [[Head(4, CONSTANT), d.uintT, W(next), W(slot)]];
        next := next + 1;
      }
      id := slots[slot];
    }

    method Request(r: Request)
      modifies this`slots, this`values, this`constants, this`next
      ensures Contents() == Ask(d.uintT, old(Contents()), r)
    {
      match r {
        case Slot(s) => var id := SlotId(s);
        case Value(v) => var id := ConstId(v);
      }
    }

    method LoadBuiltinComponent(variable: Word, component: nat, ghost p: Pool) returns (value: nat)
      requires d.ptrInput.Some? && Frozen(p) && p.Has(Value(component))
      modifies this
      ensures Frozen(p) && value == old(next) + 1 && next == old(next) + 2
      ensures out == old(out) + LoadComponent(d, p, variable, component, old(next))
    {
      var ptr := next;
      value := next + 1;
      next := next + 2;
      var c := ConstId(component);
      var chain: Inst := [Head(5, ACCESS_CHAIN), d.ptrInput.value, W(ptr), variable, W(c)];
      var load: Inst := [Head(4, LOAD), d.uintT, W(value), W(ptr)];
      out := out + [chain, load];
    }

    method LoadBuiltinVector(variable: Word, ghost p: Pool)
      requires d.ptrInput.Some? && Frozen(p) && p.Has(Value(0)) && p.Has(Value(1)) && p.Has(Value(2))
      modifies this
      ensures Frozen(p) && next == old(next) + 6
      ensures out == old(out) + LoadVector(d, p, variable, old(next))
    {
      var a := LoadBuiltinComponent(variable, 0, p);
      var b := LoadBuiltinComponent(variable, 1, p);
      var c := LoadBuiltinComponent(variable, 2, p);
    }

    method EmitDebugWord(slot: nat, value: nat, ghost p: Pool)
      requires Frozen(p)
      modifies this
      ensures Frozen(p) && next == old(next) + 1
      ensures out == old(out) + DebugWord(d, slot, value, old(next))
    {
      var ptr := next;
      next := next + 1;
      var chain: Inst := [Head(6, ACCESS_CHAIN), d.ptrU32, W(ptr), d.variable, MEMBER_ZERO, W(slot)];
      var store: Inst := [Head(3, STORE), W(ptr), W(value)];
      out := out + [chain, store];
    }

    method EmitLaneWord(base: nat, offset: nat, value: nat, ghost p: Pool)
      requires Frozen(p) && p.Has(Value(offset))
      modifies this
      ensures Frozen(p) && next == old(next) + 2
      ensures out == old(out) + LaneWord(d, base, Field(p.Id(Value(offset)), value), old(next))
    {
      var slot := next;
      next := next + 1;
      var o := ConstId(offset);
      var add: Inst := [Head(5, I_ADD), d.uintT, W(slot), W(base), W(o)];
      out := out + [add];
      EmitDebugWord(slot, value, p);
    }

    method EmitFields(fields: seq<Field>, ghost p: Pool)
      requires Frozen(p)
      modifies this
      ensures Frozen(p) && next == old(next) + |fields|
      ensures out == old(out) + DebugWords(d, fields, old(next))
    {
      assert old(out) + [] == old(out);
      for i := 0 to |fields|
        invariant Frozen(p) && next == old(next) + i
        invariant out == old(out) + DebugWords(d, fields[..i], old(next))
      {
        assert fields[..i + 1][..i] == fields[..i];
        EmitDebugWord(fields[i].slot, fields[i].value, p);
      }
      assert fields[..|fields|] == fields;
    }

    /** The value `i` goes to offset `i` of the lane's slots. */
    method EmitLaneWords(base: nat, vals: seq<nat>, ghost fields: seq<Field>, ghost p: Pool)
      requires Frozen(p) && |fields| == |vals|
      requires forall i :: 0 <= i < |vals| ==> p.Has(Value(i)) && fields[i] == Field(p.Id(Value(i)), vals[i])
      modifies this
      ensures Frozen(p) && next == old(next) + 2 * |vals|
      ensures out == old(out) + LaneWords(d, base, fields, old(next))
    {
      assert old(out) + [] == old(out);
      for i := 0 to |vals|
        invariant Frozen(p) && next == old(next) + 2 * i
        invariant out == old(out) + LaneWords(d, base, fields[..i], old(next))
      {
        assert fields[..i + 1][..i] == fields[..i];
        EmitLaneWord(base, i, vals[i], p);
      }
      assert fields[..|vals|] == fields;
    }

    method AskRecordValues(t: Target, index: nat, n: nat, ghost p: Pool) returns (vals: seq<nat>)
      requires Frozen(p) && Served(p, TargetRequests(t, index)) && Served(p, CommonRequests())
      requires t.role == FinalStore ==> Operands(d, t) != []
      modifies this
      ensures Frozen(p) && next == old(next) && out == old(out)
      ensures |vals| == RecordLength(t) && forall i :: 0 <= i < |vals| ==> vals[i] == RecordValueId(d, p, t, n, i)
    {
      TargetServed(p, t, index);
      CommonServed(p);
      var candidate := ConstId(t.candidate);
      var role := ConstId(RoleCode(t.role));
      vals := [candidate, role, ValueId(d, t, n)];
      if t.role == FinalStore {
        var two := ConstId(RECORD_SCHEMA);
        var n1 := RecordStart(d, t, n);
        vals := vals + [Operands(d, t)[|Operands(d, t)| - 1], n1 + 1, n1 + 3, n1 + 5, n1 + 7, n1 + 9, n1 + 11, two];
      }
    }

    /** The values of the fixed record, then a slot for each. */
    method AskRecordFields(t: Target, index: nat, n: nat, ghost p: Pool) returns (fields: seq<Field>)
      requires Frozen(p) && Served(p, TargetRequests(t, index)) && Served(p, CommonRequests())
      requires t.role == FinalStore ==> Operands(d, t) != []
      modifies this
      ensures Frozen(p) && next == old(next) && out == old(out)
      ensures fields == RecordFields(d, p, t, index, n)
    {
      var vals := AskRecordValues(t, index, n, p);
      TargetServed(p, t, index);
      fields := [];
      for i := 0 to |vals|
        invariant Frozen(p) && next == old(next) && out == old(out)
        invariant |fields| == i
        invariant forall k :: 0 <= k < i ==> fields[k] == RecordFields(d, p, t, index, n)[k]
      {
        assert p.Has(Slot(SlotBase(index) + i));
        var s := SlotId(SlotBase(index) + i);
        fields := fields + [Field(s, vals[i])];
      }
    }

    method AskHeaderFields(ghost p: Pool) returns (fields: seq<Field>)
      requires Frozen(p) && Served(p, CommonRequests())
      modifies this
      ensures Frozen(p) && next == old(next) && out == old(out)
      ensures fields == HeaderFields(p)
    {
      CommonServed(p);
      fields := [];
      for i := 0 to 5
        invariant Frozen(p) && next == old(next) && out == old(out)
        invariant |fields| == i
        invariant forall k :: 0 <= k < i ==> fields[k] == HeaderFields(p)[k]
      {
        assert p.Has(Value(HeaderValue(i))) && p.Has(Slot(TRACE_HEADER + i));
        var s := SlotId(TRACE_HEADER + i);
        var v := ConstId(HeaderValue(i));
        fields := fields + [Field(s, v)];
      }
    }

    method EmitPosition(t: Target, ghost n: nat, ghost p: Pool)
      requires Refusal(d, t).None? && Frozen(p) && Served(p, CommonRequests()) && next == RecordStart(d, t, n)
      modifies this
      ensures Frozen(p) && next == FieldsStart(d, t, n) && out == old(out) + Position(d, p, t, n)
    {
      CommonServed(p);
      assert out + [] == out;
      if t.role == FinalStore {
        LoadBuiltinVector(d.groupVar.value, p);
        LoadBuiltinVector(d.localVar.value, p);
      }
    }

    /** The invocation's own slots of the lane region. */
    method EmitLaneSlot(localX: nat, base: Word, ghost p: Pool) returns (slot: nat)
      requires Frozen(p) && p.Has(Value(TRACE_WORDS)) && p.Has(Value(base)) && next >= 8 && localX == next - 7
      modifies this
      ensures Frozen(p) && next == old(next) + 2 && slot == old(next) + 1
      ensures out == old(out) + LaneSlot(d, p, base, old(next) - 8)
    {
      var scaled := next;
      slot := next + 1;
      next := next + 2;
      var eight := ConstId(TRACE_WORDS);
      var region := ConstId(base);
      var mul: Inst := [Head(5, I_MUL), d.uintT, W(scaled), W(localX), W(eight)];
      var add: Inst := [Head(5, I_ADD), d.uintT, W(slot), W(scaled), W(region)];
      out := out + [mul, add];
    }

    method EmitTrace(t: Target, n: nat, ghost p: Pool)
      requires Refusal(d, t).None? && Frozen(p) && Served(p, CommonRequests()) && p.Has(Value(t.candidate))
      requires next == TraceStart(d, t, n)
      modifies this
      ensures Frozen(p) && next == ProbeEnd(d, t, n) && out == old(out) + Trace(d, p, t, n)
    {
      CommonServed(p);
      if TraceBase(t).None? {
        assert out + [] == out;
      } else {
        ghost var n3 := next;
        var localX := LoadBuiltinComponent(d.localVar.value, 0, p);
        var group := next;
        LoadBuiltinVector(d.groupVar.value, p);
        var slot := EmitLaneSlot(localX, TraceBase(t).value, p);
        var header := AskHeaderFields(p);
        EmitFields(header, p);
        EmitLanes(t, n, slot, localX, group, p, n3);
        TraceParts(old(out), LoadComponent(d, p, d.localVar.value, 0, n3), LoadVector(d, p, d.groupVar.value, n3 + 2),
                   LaneSlot(d, p, TraceBase(t).value, n3), DebugWords(d, HeaderFields(p), n3 + 10),
                   LaneWords(d, n3 + 9, LaneFields(d, p, t, n, n3), n3 + 15));
      }
    }

    method EmitLanes(t: Target, n: nat, slot: nat, localX: nat, group: nat, ghost p: Pool, ghost n3: nat)
      requires |Operands(d, t)| >= 4 && Frozen(p) && Served(p, CommonRequests()) && p.Has(Value(t.candidate))
      requires localX == n3 + 1 && group == n3 + 2 && slot == n3 + 9 && next == n3 + 15
      modifies this
      ensures Frozen(p) && next == n3 + 31
      ensures out == old(out) + LaneWords(d, n3 + 9, LaneFields(d, p, t, n, n3), n3 + 15)
    {
      CommonServed(p);
      var candidate := ConstId(t.candidate);
      var vals: seq<nat> := [localX, ValueId(d, t, n), group + 1, group + 3, group + 5, candidate, Operands(d, t)[1], Operands(d, t)[2]];
      EmitLaneWords(slot, vals, LaneFields(d, p, t, n, n3), p);
    }

    /** The block of one store, or why there is none. */
    method ProbeStore(t: Target, index: nat, ghost p: Pool) returns (refusal: Option<string>)
      requires Frozen(p) && Served(p, TargetRequests(t, index)) && Served(p, CommonRequests())
      modifies this
      ensures refusal == Refusal(d, t) && Frozen(p)
      ensures refusal.None? ==> next == ProbeEnd(d, t, old(next)) && out == old(out) + Block(d, p, t, index, old(next))
    {
      refusal := Refusal(d, t);
      if refusal.Some? { return; }
      TargetServed(p, t, index);
      var n := next;
      ghost var before := out;
      if IsFloat(d, t) {
        next := next + 1;
        var cast: Inst := [Head(4, BITCAST), d.uintT, W(n), t.stored];
        out := out + [cast];
      }
      EmitPosition(t, n, p);
      var fields := AskRecordFields(t, index, n, p);
      EmitFields(fields, p);
      EmitTrace(t, n, p);
      assert before + [] == before;
      TraceParts(before, Convert(d, t, n), Position(d, p, t, n), DebugWords(d, RecordFields(d, p, t, index, n), FieldsStart(d, t, n)),
                 Trace(d, p, t, n), []);
      assert Block(d, p, t, index, n) + [] == Block(d, p, t, index, n);
    }
  }

  /** Appending part by part. */
  lemma TraceParts<T>(o: seq<T>, a: seq<T>, b: seq<T>, c: seq<T>, d: seq<T>, e: seq<T>)
    ensures ((((o + a) + b) + c) + d) + e == o + (a + b + c + d + e)
  {}

  method FindFirst(p: Inst -> bool, insts: seq<Inst>) returns (r: Option<nat>)
    ensures r == First(p, insts)
  {
    r := None;
    for i := 0 to |insts|
      invariant First(p, insts) == match First(p, insts[i..]) case None => None case Some(k) => Some(k + i)
    {
      if p(insts[i]) { return Some(i); }
    }
  }

  method ResultTypeById(typed: nat -> bool, lines: seq<Inst>) returns (types: map<nat, Word>)
    ensures types == ResultTypes(typed, lines)
  {
    types := map[];
    for i := 0 to |lines|
      invariant types == ResultTypes(typed, lines[..i])
    {
      assert lines[..i + 1][..i] == lines[..i];
      match TypedId(typed, lines[i]) {
        case Some((id, t)) => types := types[id := t];
        case None =>
      }
    }
    assert lines[..|lines|] == lines;
  }

  method AccessChainOperands(lines: seq<Inst>) returns (chains: map<nat, seq<Word>>)
    ensures chains == Chains(lines)
  {
    chains := map[];
    for i := 0 to |lines|
      invariant chains == Chains(lines[..i])
    {
      assert lines[..i + 1][..i] == lines[..i];
      if Op(lines[i]) == ACCESS_CHAIN && |lines[i]| >= 4 { chains := chains[lines[i][2] := lines[i][3..]]; }
    }
    assert lines[..|lines|] == lines;
  }

  method LookUpNames(typed: nat -> bool, lines: seq<Inst>, uintT: Word, bound: nat) returns (d: Names)
    ensures d == NamesOf(typed, lines, uintT, bound)
  {
    var types := ResultTypeById(typed, lines);
    var chains := AccessChainOperands(lines);
    var ptr := FindFirst(InputPointer(uintT), lines);
    var group := FindFirst(BuiltinNamed(WORKGROUP_ID), lines);
    var local := FindFirst(BuiltinNamed(LOCAL_INVOCATION_ID), lines);
    d := Names(uintT, W(bound + 4), W(bound + 3),
               if ptr.Some? then Some(lines[ptr.value][1]) else None,
               if group.Some? then Some(lines[group.value][1]) else None,
               if local.Some? then Some(lines[local.value][1]) else None,
               types, chains);
  }

  method AskAll(probe: Probe, rs: seq<Request>)
    modifies probe`slots, probe`values, probe`constants, probe`next
    ensures probe.Contents() == Serve(probe.d.uintT, old(probe.Contents()), rs)
  {
    for i := 0 to |rs|
      invariant probe.Contents() == Serve(probe.d.uintT, old(probe.Contents()), rs[..i])
    {
      assert rs[..i + 1][..i] == rs[..i];
      probe.Request(rs[i]);
    }
    assert rs[..|rs|] == rs;
  }

  /** All constants, before any store is looked at. */
  method AskPrelude(probe: Probe, targets: seq<Target>)
    requires probe.Contents() == Pool(map[], map[], [], probe.next)
    modifies probe`slots, probe`values, probe`constants, probe`next
    ensures probe.Contents() == Prelude(probe.d.uintT, targets, old(probe.next))
  {
    ghost var start := probe.Contents();
    for i := 0 to |targets|
      invariant probe.Contents() == Serve(probe.d.uintT, start, RecordRequests(targets[..i]))
    {
      assert targets[..i + 1][..i] == targets[..i];
      AskAll(probe, TargetRequests(targets[i], i));
      ServeAppend(probe.d.uintT, start, RecordRequests(targets[..i]), TargetRequests(targets[i], i));
    }
    assert targets[..|targets|] == targets;
    AskAll(probe, CommonRequests());
    ServeAppend(probe.d.uintT, start, RecordRequests(targets), CommonRequests());
  }

  type Pair = (Word, Word)

  function PairOf(t: Target): Pair { (t.pointer, t.stored) }

  method TargetByStore(targets: seq<Target>) returns (byStore: map<Pair, nat>)
    ensures Indexed(targets, byStore)
  {
    byStore := map[];
    for i := 0 to |targets|
      invariant Indexed(targets[..i], byStore)
    {
      assert targets[..i + 1][..i] == targets[..i];
      byStore := byStore[PairOf(targets[i]) := i];
    }
    assert targets[..|targets|] == targets;
  }

  lemma {:induction false} ProbeError(d: Names, p: Pool, targets: seq<Target>, insts: seq<Inst>, n: nat, k: nat)
    requires k <= |insts| && ProbeAll(d, p, targets, insts[..k], n).Err?
    ensures ProbeAll(d, p, targets, insts, n) == ProbeAll(d, p, targets, insts[..k], n)
    decreases |insts| - k
  {
    if k == |insts| {
      assert insts[..k] == insts;
    } else {
      assert insts[..k + 1][..k] == insts[..k];
      ProbeError(d, p, targets, insts, n, k + 1);
    }
  }

  /** What one more line does. */
  lemma ProbeNext(d: Names, p: Pool, targets: seq<Target>, insts: seq<Inst>, n: nat, k: nat)
    requires k < |insts| && ProbeAll(d, p, targets, insts[..k], n).Ok?
    ensures var before := ProbeAll(d, p, targets, insts[..k], n).value;
      var here := ProbeOne(d, p, targets, insts[k], before.next);
      && (here.Ok? ==> ProbeAll(d, p, targets, insts[..k + 1], n) == Ok(Probed(before.insts + here.value.insts, here.value.next)))
      && (here.Err? ==> ProbeAll(d, p, targets, insts, n) == Err(here.error))
  {
    assert insts[..k + 1][..k] == insts[..k];
    if ProbeAll(d, p, targets, insts[..k + 1], n).Err? { ProbeError(d, p, targets, insts, n, k + 1); }
  }

  predicate HoldsStore(insts: seq<Inst>, pair: Pair) { Stored(insts, pair.0, pair.1) }

  lemma StoredNext(insts: seq<Inst>, k: nat, pair: Pair)
    requires k < |insts|
    ensures HoldsStore(insts[..k + 1], pair) <==>
      HoldsStore(insts[..k], pair) || (Op(insts[k]) == STORE && |insts[k]| >= 3 && pair == (insts[k][1], insts[k][2]))
  {
    assert forall j :: 0 <= j < k ==> insts[..k + 1][j] == insts[..k][j];
    assert insts[..k + 1][k] == insts[k];
  }

  /** The pairs whose store was met among the first `k` lines. */
  ghost predicate EmittedAre(targets: seq<Target>, lines: seq<Inst>, k: nat, emitted: set<Pair>)
    requires k <= |lines|
  {
    forall i :: 0 <= i < |targets| ==> (PairOf(targets[i]) in emitted <==> HoldsStore(lines[..k], PairOf(targets[i])))
  }

  lemma EmittedNext(targets: seq<Target>, lines: seq<Inst>, k: nat, emitted: set<Pair>)
    requires k < |lines| && EmittedAre(targets, lines, k, emitted)
    ensures FindTarget(targets, lines[k]).None? ==> EmittedAre(targets, lines, k + 1, emitted)
    ensures FindTarget(targets, lines[k]).Some? ==> EmittedAre(targets, lines, k + 1, emitted + {(lines[k][1], lines[k][2])})
  {
    forall i | 0 <= i < |targets|
      ensures FindTarget(targets, lines[k]).None? ==>
        (PairOf(targets[i]) in emitted <==> HoldsStore(lines[..k + 1], PairOf(targets[i])))
      ensures FindTarget(targets, lines[k]).Some? ==>
        (PairOf(targets[i]) in emitted + {(lines[k][1], lines[k][2])} <==> HoldsStore(lines[..k + 1], PairOf(targets[i])))
    {
      StoredNext(lines, k, PairOf(targets[i]));
      if Op(lines[k]) == STORE && |lines[k]| >= 3 && PairOf(targets[i]) == (lines[k][1], lines[k][2]) {
        FindsPair(targets, i, lines[k]);
      }
    }
  }

  /** The table of stores is the search for a target. */
  ghost predicate Indexed(targets: seq<Target>, byStore: map<Pair, nat>) {
    forall inst: Inst :: Op(inst) == STORE && |inst| >= 3 ==>
      FindTarget(targets, inst) == if (inst[1], inst[2]) in byStore then Some(byStore[(inst[1], inst[2])]) else None
  }

  /** One line: copied, and followed by a block if some target names it. */
  method RewriteLine(probe: Probe, targets: seq<Target>, byStore: map<Pair, nat>, line: Inst, ghost p: Pool)
    returns (refusal: Option<string>, found: bool)
    requires Indexed(targets, byStore) && probe.Frozen(p) && Served(p, CommonRequests())
    requires forall i :: 0 <= i < |targets| ==> Served(p, TargetRequests(targets[i], i))
    modifies probe
    ensures probe.Frozen(p) && found == FindTarget(targets, line).Some?
    ensures match ProbeOne(probe.d, p, targets, line, old(probe.next))
      case Err(e) => refusal.Some? && e == Unprobed(refusal.value)
      case Ok(here) => refusal.None? && probe.out == old(probe.out) + here.insts && probe.next == here.next
  {
    ghost var before, n := probe.out, probe.next;
    probe.out := probe.out + [line];
    if Op(line) != STORE || |line| < 3 || (line[1], line[2]) !in byStore { return None, false; }
    var i := byStore[(line[1], line[2])];
    assert FindTarget(targets, line) == Some(i);
    refusal := probe.ProbeStore(targets[i], i, p);
    ProbeOneIs(probe.d, p, targets, line, n, i, before);
    found := true;
  }

  lemma ProbeOneIs(d: Names, p: Pool, targets: seq<Target>, line: Inst, n: nat, i: nat, before: seq<Inst>)
    requires FindTarget(targets, line) == Some(i)
    ensures Refusal(d, targets[i]).Some? ==> ProbeOne(d, p, targets, line, n) == Err(Unprobed(Refusal(d, targets[i]).value))
    ensures Refusal(d, targets[i]).None? ==>
      (before + [line]) + Block(d, p, targets[i], i, n) == before + ProbeOne(d, p, targets, line, n).value.insts
    ensures Refusal(d, targets[i]).None? ==> ProbeOne(d, p, targets, line, n).value.next == ProbeEnd(d, targets[i], n)
  {
    if Refusal(d, targets[i]).None? { Behind(before, line, Block(d, p, targets[i], i, n)); }
  }

  lemma Behind(a: seq<Inst>, x: Inst, b: seq<Inst>)
    ensures (a + [x]) + b == a + ([x] + b)
  {}

  /** The loop over the lines. */
  method RewriteStores(probe: Probe, targets: seq<Target>, lines: seq<Inst>, ghost p: Pool)
    returns (refusal: Option<string>, emitted: set<Pair>)
    requires probe.Frozen(p) && probe.out == [] && Served(p, CommonRequests())
    requires forall i :: 0 <= i < |targets| ==> Served(p, TargetRequests(targets[i], i))
    modifies probe
    ensures probe.Frozen(p)
    ensures match ProbeAll(probe.d, p, targets, lines, old(probe.next))
      case Err(e) => refusal.Some? && e == Unprobed(refusal.value)
      case Ok(r) => refusal.None? && probe.out == r.insts && probe.next == r.next
    ensures refusal.None? ==> EmittedAre(targets, lines, |lines|, emitted)
  {
    ghost var n := probe.next;
    var byStore := TargetByStore(targets);
    emitted := {};
    for k := 0 to |lines|
      invariant probe.Frozen(p)
      invariant ProbeAll(probe.d, p, targets, lines[..k], n) == Ok(Probed(probe.out, probe.next))
      invariant EmittedAre(targets, lines, k, emitted)
    {
      ProbeNext(probe.d, p, targets, lines, n, k);
      EmittedNext(targets, lines, k, emitted);
      var found;
      refusal, found := RewriteLine(probe, targets, byStore, lines[k], p);
      if refusal.Some? { return; }
      if found { emitted := emitted + {(lines[k][1], lines[k][2])}; }
    }
    assert lines[..|lines|] == lines;
    refusal := None;
  }

  lemma {:induction false} FindsPair(targets: seq<Target>, i: nat, inst: Inst)
    requires i < |targets| && Op(inst) == STORE && |inst| >= 3 && PairOf(targets[i]) == (inst[1], inst[2])
    ensures FindTarget(targets, inst).Some?
    decreases |targets|
  {
    if i < |targets| - 1 { FindsPair(targets[..|targets| - 1], i, inst); }
  }

  method CheckMissing(targets: seq<Target>, lines: seq<Inst>, emitted: set<Pair>) returns (missing: bool)
    requires EmittedAre(targets, lines, |lines|, emitted)
    ensures missing == Missing(targets, lines)
  {
    assert lines[..|lines|] == lines;
    for i := 0 to |targets|
      invariant forall k :: 0 <= k < i ==> Stored(lines, targets[k].pointer, targets[k].stored)
    {
      assert PairOf(targets[i]) in emitted <==> HoldsStore(lines, PairOf(targets[i]));
      if PairOf(targets[i]) !in emitted { return true; }
    }
    missing := false;
  }

  method InsertProbeWrites(typed: nat -> bool, lines: seq<Inst>, targets: seq<Target>, uintT: Word, bound: nat) returns (r: Result<Probed>)
    ensures r == Insert(typed, lines, targets, uintT, bound)
  {
    if targets == [] { return Ok(Probed(lines, bound + 5)); }
    var d := LookUpNames(typed, lines, uintT, bound);
    var at := FindFirst(IsFunction, lines);
    if at.None? { return Err(Unprobed("function")); }
    r := InsertWith(d, lines, targets, at.value, bound);
  }

  method InsertWith(d: Names, lines: seq<Inst>, targets: seq<Target>, at: nat, bound: nat) returns (r: Result<Probed>)
    requires at <= |lines|
    ensures var p := Prelude(d.uintT, targets, bound + 5); var all := Splice(lines, at, p.constants);
      r == match ProbeAll(d, p, targets, all, p.next)
           case Err(e) => Err(e)
           case Ok(out) => if Missing(targets, all) then Err(Unprobed("missing target")) else Ok(out)
  {
    var probe := new Probe(d, bound + 5);
    AskPrelude(probe, targets);
    ghost var p := probe.Contents();
    PreludeServes(d.uintT, targets, bound + 5);
    var spliced := lines[..at] + probe.constants + lines[at..];
    var refusal, emitted := RewriteStores(probe, targets, spliced, p);
    if refusal.Some? { return Err(Unprobed(refusal.value)); }
    var missing := CheckMissing(targets, spliced, emitted);
    r := if missing then Err(Unprobed("missing target")) else Ok(Probed(probe.out, probe.next));
  }

  method InstrumentAssembly(typed: nat -> bool, m: Module, debugSet: Word, debugBinding: Word, targets: seq<Target>) returns (r: Result<Module>)
    requires |m.header| == HEADER
    ensures r == Instrumented(typed, m, debugSet, debugBinding, targets)
  {
    var bound: nat := m.Bound();
    var u := FindFirst(IsUint, m.insts);
    if u.None? { return Err(Unprobed("uint type")); }
    var uintT := m.insts[u.value][1];
    var e := FindFirst(IsMain, m.insts);
    if e.None? { return Err(Unprobed("entry point")); }
    if |m.insts[e.value]| >= 65535 { return Err(BoundOverflow); }
    var lines := m.insts[e.value := WithInterface(m.insts[e.value], bound + 3)];
    var t := FindFirst(IsType, lines);
    if t.None? { return Err(Unprobed("type")); }
    lines := lines[..t.value] + Annotations(bound, debugSet, debugBinding) + lines[t.value..];
    var f := FindFirst(IsFunction, lines);
    if f.None? { return Err(Unprobed("function")); }
    lines := lines[..f.value] + BufferDeclarations(bound, uintT) + lines[f.value..];
    var out :- InsertProbeWrites(typed, lines, targets, uintT, bound);
    if out.next >= WORD { return Err(BoundOverflow); }
    r := Ok(Module(m.header[3 := out.next], out.insts));
  }
}
