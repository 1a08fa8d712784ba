/** What a module means once it is specialized and its descriptors are bound:
    the program that its invocations run. */
module Meaning {
  import opened Words
  import opened Ops
  import opened Machine
  import opened Translation

  /** One specialization entry of a dispatch; `value` may be missing. */
  datatype Entry = Entry(constantId: int, value: Option<int>)

  /** The value an entry list supplies for a constant id: that of the first
      entry with this id. */
  function EntryValue(entries: seq<Entry>, constantId: Word): Option<Word> {
    if entries == [] then None
    else if entries[0].constantId == constantId then
      match entries[0].value case Some(v) => Some(v % WORD) case None => None
    else EntryValue(entries[1..], constantId)
  }

  function EntryWord(entries: seq<Entry>, constantId: Word, default: Word): Word {
    match EntryValue(entries, constantId) case Some(v) => v case None => default
  }

  // ---- decorations ----

  predicate Decorates(inst: Inst, decoration: nat) {
    Op(inst) == DECORATE && |inst| >= 4 && inst[2] == decoration
  }

  /** Target to operand, the last decoration winning. */
  function Decorations(insts: seq<Inst>, decoration: nat): map<nat, Word> {
    if insts == [] then map[]
    else
      var before, inst := Decorations(insts[..|insts| - 1], decoration), insts[|insts| - 1];
      if Decorates(inst, decoration) then before[inst[1] := inst[3]] else before
  }

  predicate MarksWorkgroupSize(inst: Inst) {
    Decorates(inst, BUILT_IN) && inst[3] == WORKGROUP_SIZE
  }

  function WorkgroupIds(insts: seq<Inst>): set<nat> {
    if insts == [] then {}
    else
      var before, inst := WorkgroupIds(insts[..|insts| - 1]), insts[|insts| - 1];
      if MarksWorkgroupSize(inst) then before + {inst[1] as nat} else before
  }

  // ---- types ----

  function Modulus(width: nat): Option<nat> {
    if width == 8 then Some(0x100)
    else if width == 16 then Some(0x1_0000)
    else if width == 32 then Some(WORD)
    else if width == 64 then Some(WORD * WORD)
    else None
  }

  predicate IntType(inst: Inst) {
    Op(inst) == TYPE_INT && |inst| >= 4 && Modulus(inst[2]).Some?
  }

  function Moduli(insts: seq<Inst>): map<nat, nat> {
    if insts == [] then map[]
    else
      var before, inst := Moduli(insts[..|insts| - 1]), insts[|insts| - 1];
      if IntType(inst) then before[inst[1] := Modulus(inst[2]).value] else before
  }

  function Quads(insts: seq<Inst>): set<nat> {
    if insts == [] then {}
    else
      var front, inst := insts[..|insts| - 1], insts[|insts| - 1];
      var before := Quads(front);
      if Op(inst) == TYPE_VECTOR && |inst| >= 4 && inst[3] == 4
         && inst[2] in Moduli(front) && Moduli(front)[inst[2]] == 0x100
      then before + {inst[1] as nat} else before
  }

  // ---- constants ----

  /** How a dispatch specializes a module: the SpecId of each decorated constant
      and the entries supplied. */
  datatype Specialization = Specialization(ids: map<nat, Word>, entries: seq<Entry>) {
    function Word(id: nat, default: Word): Word {
      if id in ids then EntryWord(entries, ids[id], default) else default
    }
  }

  function Get(env: Env, id: nat): Val {
    if id in env then env[id] else Undef
  }

  function Gets(env: Env, ids: seq<Word>): seq<Val> {
    seq(|ids|, i requires 0 <= i < |ids| => Get(env, ids[i]))
  }

  ghost function SpecOpValue(w: World, env: Env, inst: Inst): Val
    requires |inst| >= 5
  {
    var a := Get(env, inst[4]);
    if inst[3] == U_DIV && |inst| == 6 && a.Scalar? && Get(env, inst[5]).Scalar? && Get(env, inst[5]).w != 0 then
      Scalar(a.w / Get(env, inst[5]).w)
    else if inst[3] == COMPOSITE_EXTRACT && |inst| == 6 && a.Composite? && inst[5] < |a.parts| then
      a.parts[inst[5]]
    else w.specOp(inst, Gets(env, inst[4..]))
  }

  function BoolVal(b: bool): Val { Scalar(if b then 1 else 0) }

  /** The id a declaration introduces. */
  function DeclaredId(inst: Inst): Option<nat> {
    var op := Op(inst);
    if 19 <= op <= 39 && |inst| >= 2 then Some(inst[1])
    else if (41 <= op <= 52 || op == VARIABLE) && |inst| >= 3 then Some(inst[2])
    else None
  }

  /** The value a constant or variable declaration gives its id. */
  ghost function Declared(w: World, s: Specialization, env: Env, inst: Inst): Option<Val> {
    var op := Op(inst);
    if op == CONSTANT && |inst| == 4 then Some(Scalar(inst[3]))
    else if (op == CONSTANT_COMPOSITE || op == SPEC_CONSTANT_COMPOSITE) && |inst| >= 3 then
      Some(Composite(Gets(env, inst[3..])))
    else if op == SPEC_CONSTANT && |inst| == 4 then Some(Scalar(s.Word(inst[2], inst[3])))
    else if op == SPEC_CONSTANT_TRUE && |inst| >= 3 then Some(BoolVal(s.Word(inst[2], 1) != 0))
    else if op == SPEC_CONSTANT_FALSE && |inst| >= 3 then Some(BoolVal(s.Word(inst[2], 0) != 0))
    else if op == SPEC_CONSTANT_OP && |inst| >= 5 then Some(SpecOpValue(w, env, inst))
    else if op in {CONSTANT_TRUE, CONSTANT_FALSE, CONSTANT, 45, 46, SPEC_CONSTANT} && |inst| >= 3 then Some(w.constant(inst))
    else if op == VARIABLE && |inst| >= 3 then Some(Ptr(inst[2], []))
    else None
  }

  ghost function Declare(w: World, s: Specialization, env: Env, inst: Inst): Env {
    match Declared(w, s, env, inst)
    case Some(v) => assert DeclaredId(inst).Some?; env[DeclaredId(inst).value := v]
    case None => env
  }

  ghost function Consts(w: World, s: Specialization, insts: seq<Inst>): Env {
    if insts == [] then map[]
    else Declare(w, s, Consts(w, s, insts[..|insts| - 1]), insts[|insts| - 1])
  }

  // ---- workgroup size ----

  /** The first constant composite that carries the WorkgroupSize built-in. */
  function WorkgroupConstant(ids: set<nat>, insts: seq<Inst>): Option<nat> {
    if insts == [] then None
    else
      var before, inst := WorkgroupConstant(ids, insts[..|insts| - 1]), insts[|insts| - 1];
      if before.Some? then before
      else if (Op(inst) == CONSTANT_COMPOSITE || Op(inst) == SPEC_CONSTANT_COMPOSITE) && |inst| >= 6 && inst[2] in ids
      then Some(inst[2])
      else None
  }

  predicate IsLocalSize(inst: Inst) {
    Op(inst) == EXECUTION_MODE && |inst| >= 6 && inst[2] == MODE_LOCAL_SIZE
  }

  predicate IsLocalSizeId(inst: Inst) {
    Op(inst) == EXECUTION_MODE_ID && |inst| >= 6 && inst[2] == MODE_LOCAL_SIZE_ID
  }

  /** Operands of the last mode declaration that `p` picks; zeros if there is none. */
  function LastMode(insts: seq<Inst>, byId: bool): (r: seq<Word>)
    ensures |r| == 3
  {
    if insts == [] then [0, 0, 0]
    else
      var inst := insts[|insts| - 1];
      if (if byId then IsLocalSizeId(inst) else IsLocalSize(inst)) then inst[3..6]
      else LastMode(insts[..|insts| - 1], byId)
  }

  /** A WorkgroupSize constant overrides LocalSizeId, which overrides LocalSize. */
  function SizeOf(insts: seq<Inst>, consts: Env): Size {
    var wg := WorkgroupConstant(WorkgroupIds(insts), insts);
    if wg.Some? then FromConstant(Get(consts, wg.value))
    else if LastMode(insts, true) != [0, 0, 0] then FromIds(Gets(consts, LastMode(insts, true)))
    else FromLiteral(LastMode(insts, false))
  }

  /** Invocations in one workgroup. */
  function Lanes(size: Size): nat {
    match size
    case FromConstant(v) => if v.Composite? then Product(v.parts) else 0
    case FromIds(vs) => Product(vs)
    case FromLiteral(ds) => Product(Scalars(ds))
  }

  function Product(vals: seq<Val>): nat {
    if |vals| == 3 && vals[0].Scalar? && vals[1].Scalar? && vals[2].Scalar?
    then vals[0].w * vals[1].w * vals[2].w else 0
  }

  // ---- descriptors ----

  /** Buffers the dispatch binds at (set, binding). */
  type Table = map<(nat, nat), nat>

  function Buffers(insts: seq<Inst>, table: Table): map<nat, nat> {
    var sets, bindings := Decorations(insts, DESCRIPTOR_SET), Decorations(insts, BINDING);
    map v | v in sets && v in bindings && (sets[v], bindings[v]) in table :: table[(sets[v], bindings[v])]
  }

  // ---- the program ----

  function Code(insts: seq<Inst>): seq<Inst> {
    if insts == [] then []
    else if Declarative(Op(insts[|insts| - 1])) then Code(insts[..|insts| - 1])
    else Code(insts[..|insts| - 1]) + [insts[|insts| - 1]]
  }

  ghost function SpecializationOf(insts: seq<Inst>, entries: seq<Entry>): Specialization {
    Specialization(Decorations(insts, SPEC_ID), entries)
  }

  ghost function StaticsOf(w: World, insts: seq<Inst>, entries: seq<Entry>, table: Table): Statics {
    var consts := Consts(w, SpecializationOf(insts, entries), insts);
    Statics(consts, Moduli(insts), Quads(insts), Buffers(insts, table), SizeOf(insts, consts))
  }

  ghost function ProgramOf(w: World, insts: seq<Inst>, entries: seq<Entry>, table: Table): Program {
    Program(StaticsOf(w, insts, entries, table), Code(insts))
  }

  // ---- facts every rewrite uses ----

  /** The ids a module declares, in order. */
  function Ids(insts: seq<Inst>): seq<nat> {
    if insts == [] then []
    else
      var before, inst := Ids(insts[..|insts| - 1]), insts[|insts| - 1];
      match DeclaredId(inst) case Some(id) => before + [id] case None => before
  }

  /** No id is declared twice, and all are below the bound (section 2.16). */
  ghost predicate GoodIds(insts: seq<Inst>, bound: nat) {
    && (forall i, j :: 0 <= i < j < |Ids(insts)| ==> Ids(insts)[i] != Ids(insts)[j])
    && (forall i :: 0 <= i < |Ids(insts)| ==> Ids(insts)[i] < bound)
  }

  /** Numeric constants take one word. */
  ghost predicate OneWord(insts: seq<Inst>) {
    forall i :: 0 <= i < |insts| && (Op(insts[i]) == CONSTANT || Op(insts[i]) == SPEC_CONSTANT) ==> |insts[i]| == 4
  }

  lemma {:induction false} IdIn(insts: seq<Inst>, k: nat)
    requires k < |insts| && DeclaredId(insts[k]).Some?
    ensures DeclaredId(insts[k]).value in Ids(insts)
    decreases |insts|
  {
    if k < |insts| - 1 {
      IdIn(insts[..|insts| - 1], k);
    }
  }

  lemma GoodFront(insts: seq<Inst>, bound: nat)
    requires GoodIds(insts, bound) && insts != []
    ensures GoodIds(insts[..|insts| - 1], bound)
    ensures var id := DeclaredId(insts[|insts| - 1]); id.Some? ==> id.value < bound && id.value !in Ids(insts[..|insts| - 1])
  {
    var front := Ids(insts[..|insts| - 1]);
    assert forall i :: 0 <= i < |front| ==> Ids(insts)[i] == front[i];
    if DeclaredId(insts[|insts| - 1]).Some? {
      assert Ids(insts)[|front|] == DeclaredId(insts[|insts| - 1]).value;
    }
  }

  lemma {:induction false} ConstsKeys(w: World, s: Specialization, insts: seq<Inst>)
    ensures forall id :: id in Consts(w, s, insts) ==> id in Ids(insts)
  {
    if insts != [] {
      ConstsKeys(w, s, insts[..|insts| - 1]);
    }
  }

  /** A constant keeps the value its declaration gave it. */
  lemma {:induction false} ConstAt(w: World, s: Specialization, insts: seq<Inst>, bound: nat, k: nat)
    requires GoodIds(insts, bound) && k < |insts|
    requires Declared(w, s, Consts(w, s, insts[..k]), insts[k]).Some?
    ensures DeclaredId(insts[k]).Some? && DeclaredId(insts[k]).value in Consts(w, s, insts)
    ensures Consts(w, s, insts)[DeclaredId(insts[k]).value] == Declared(w, s, Consts(w, s, insts[..k]), insts[k]).value
    decreases |insts|
  {
    var front := insts[..|insts| - 1];
    if k < |front| {
      assert front[..k] == insts[..k] && front[k] == insts[k];
      GoodFront(insts, bound);
      ConstAt(w, s, front, bound, k);
      IdIn(front, k);
    } else {
      assert front == insts[..k];
    }
  }

  lemma {:induction false} ModulusAt(insts: seq<Inst>, bound: nat, k: nat)
    requires GoodIds(insts, bound) && k < |insts| && IntType(insts[k])
    ensures insts[k][1] in Moduli(insts) && Moduli(insts)[insts[k][1]] == Modulus(insts[k][2]).value
    decreases |insts|
  {
    var front := insts[..|insts| - 1];
    if k < |front| {
      assert front[k] == insts[k];
      GoodFront(insts, bound);
      ModulusAt(front, bound, k);
      IdIn(front, k);
    }
  }

  lemma {:induction false} CodeAppend(a: seq<Inst>, b: seq<Inst>)
    ensures Code(a + b) == Code(a) + Code(b)
    decreases |b|
  {
    if b == [] {
      assert a + b == a;
    } else {
      assert (a + b)[..|a + b| - 1] == a + b[..|b| - 1];
      CodeAppend(a, b[..|b| - 1]);
    }
  }

  lemma {:induction false} IdsAppend(a: seq<Inst>, b: seq<Inst>)
    ensures Ids(a + b) == Ids(a) + Ids(b)
    decreases |b|
  {
    if b == [] {
      assert a + b == a;
    } else {
      assert (a + b)[..|a + b| - 1] == a + b[..|b| - 1];
      IdsAppend(a, b[..|b| - 1]);
    }
  }

  /** The declarations that the statics of a module depend on. */
  function Declarations(insts: seq<Inst>): seq<Inst> {
    if insts == [] then []
    else
      var before, inst := Declarations(insts[..|insts| - 1]), insts[|insts| - 1];
      if Declarative(Op(inst)) && Op(inst) != TYPE_POINTER then before + [inst] else before
  }

  lemma {:induction false} DeclarationsAppend(a: seq<Inst>, b: seq<Inst>)
    ensures Declarations(a + b) == Declarations(a) + Declarations(b)
    decreases |b|
  {
    if b == [] {
      assert a + b == a;
    } else {
      assert (a + b)[..|a + b| - 1] == a + b[..|b| - 1];
      DeclarationsAppend(a, b[..|b| - 1]);
    }
  }

  lemma {:induction false} SameDecorations(insts: seq<Inst>, decoration: nat)
    ensures Decorations(insts, decoration) == Decorations(Declarations(insts), decoration)
  {
    if insts != [] {
      SameDecorations(insts[..|insts| - 1], decoration);
    }
  }

  lemma {:induction false} SameTypes(insts: seq<Inst>)
    ensures Moduli(insts) == Moduli(Declarations(insts))
    ensures Quads(insts) == Quads(Declarations(insts))
    ensures WorkgroupIds(insts) == WorkgroupIds(Declarations(insts))
  {
    if insts != [] {
      SameTypes(insts[..|insts| - 1]);
    }
  }

  lemma {:induction false} SameModes(ids: set<nat>, insts: seq<Inst>, byId: bool)
    ensures WorkgroupConstant(ids, insts) == WorkgroupConstant(ids, Declarations(insts))
    ensures LastMode(insts, byId) == LastMode(Declarations(insts), byId)
  {
    if insts != [] {
      SameModes(ids, insts[..|insts| - 1], byId);
    }
  }

  lemma {:induction false} SameConsts(w: World, s: Specialization, insts: seq<Inst>)
    ensures Consts(w, s, insts) == Consts(w, s, Declarations(insts))
  {
    if insts != [] {
      SameConsts(w, s, insts[..|insts| - 1]);
    }
  }

  /** Statics are a matter of declarations alone. */
  lemma SameStatics(w: World, a: seq<Inst>, b: seq<Inst>, entries: seq<Entry>, table: Table)
    requires Declarations(a) == Declarations(b)
    ensures StaticsOf(w, a, entries, table) == StaticsOf(w, b, entries, table)
  {
    SameTypes(a);
    SameTypes(b);
    SameDecorations(a, SPEC_ID);
    SameDecorations(b, SPEC_ID);
    SameDecorations(a, DESCRIPTOR_SET);
    SameDecorations(b, DESCRIPTOR_SET);
    SameDecorations(a, BINDING);
    SameDecorations(b, BINDING);
    SameModes(WorkgroupIds(a), a, true);
    SameModes(WorkgroupIds(b), b, true);
    SameModes(WorkgroupIds(a), a, false);
    SameModes(WorkgroupIds(b), b, false);
    SameConsts(w, SpecializationOf(a, entries), a);
    SameConsts(w, SpecializationOf(b, entries), b);
  }

  // ---- rewrites of whole modules ----

  /** The executable part of a module rewrite. */
  function ExecUnits(units: seq<Unit>): seq<Unit> {
    if units == [] then []
    else
      var u := Unit(Code(units[0].src), Code(units[0].dst));
      (if u.src == [] && u.dst == [] then [] else [u]) + ExecUnits(units[1..])
  }

  lemma SrcsAppend(a: seq<Unit>, b: seq<Unit>)
    ensures Flatten(Srcs(a + b)) == Flatten(Srcs(a)) + Flatten(Srcs(b))
    ensures Flatten(Dsts(a + b)) == Flatten(Dsts(a)) + Flatten(Dsts(b))
  {
    assert Srcs(a + b) == Srcs(a) + Srcs(b);
    assert Dsts(a + b) == Dsts(a) + Dsts(b);
    FlattenAppend(Srcs(a), Srcs(b));
    FlattenAppend(Dsts(a), Dsts(b));
  }

  lemma UnitsCons(units: seq<Unit>)
    requires units != []
    ensures Flatten(Srcs(units)) == units[0].src + Flatten(Srcs(units[1..]))
    ensures Flatten(Dsts(units)) == units[0].dst + Flatten(Dsts(units[1..]))
  {
    assert Srcs(units)[1..] == Srcs(units[1..]);
    assert Dsts(units)[1..] == Dsts(units[1..]);
  }

  lemma UnitsParts(a: seq<Unit>, unit: Unit, b: seq<Unit>)
    ensures Flatten(Srcs(a + [unit] + b)) == Flatten(Srcs(a)) + unit.src + Flatten(Srcs(b))
    ensures Flatten(Dsts(a + [unit] + b)) == Flatten(Dsts(a)) + unit.dst + Flatten(Dsts(b))
  {
    SrcsAppend(a + [unit], b);
    SrcsAppend(a, [unit]);
    UnitsCons([unit]);
    assert [unit][1..] == [];
    assert Flatten(Srcs([unit])) == unit.src && Flatten(Dsts([unit])) == unit.dst;
  }

  /** Units that change nothing. */
  function Copies(insts: seq<Inst>): (r: seq<Unit>)
    ensures |r| == |insts|
  {
    seq(|insts|, i requires 0 <= i < |insts| => Unit([insts[i]], [insts[i]]))
  }

  lemma {:induction false} CopiesFlat(insts: seq<Inst>)
    ensures Flatten(Srcs(Copies(insts))) == insts && Flatten(Dsts(Copies(insts))) == insts
  {
    if insts != [] {
      var c := Copies(insts);
      UnitsCons(c);
      assert c[1..] == Copies(insts[1..]);
      CopiesFlat(insts[1..]);
    }
  }

  lemma {:induction false} ExecUnitsCode(units: seq<Unit>)
    ensures Flatten(Srcs(ExecUnits(units))) == Code(Flatten(Srcs(units)))
    ensures Flatten(Dsts(ExecUnits(units))) == Code(Flatten(Dsts(units)))
  {
    if units != [] {
      UnitsCons(units);
      ExecUnitsCode(units[1..]);
      CodeAppend(units[0].src, Flatten(Srcs(units[1..])));
      CodeAppend(units[0].dst, Flatten(Dsts(units[1..])));
      var u := Unit(Code(units[0].src), Code(units[0].dst));
      var more := ExecUnits(units[1..]);
      if u.src == [] && u.dst == [] {
        assert ExecUnits(units) == more;
      } else {
        assert ExecUnits(units) == [u] + more;
        UnitsCons([u] + more);
        assert ([u] + more)[1..] == more;
      }
    }
  }

  lemma {:induction false} ExecUnitIn(units: seq<Unit>, k: nat) returns (j: nat)
    requires k < |ExecUnits(units)|
    ensures j < |units| && ExecUnits(units)[k] == Unit(Code(units[j].src), Code(units[j].dst))
    ensures ExecUnits(units)[k].src != [] || ExecUnits(units)[k].dst != []
  {
    var u := Unit(Code(units[0].src), Code(units[0].dst));
    var skip := u.src == [] && u.dst == [];
    if !skip && k == 0 {
      j := 0;
    } else {
      j := ExecUnitIn(units[1..], if skip then k else k - 1);
      j := j + 1;
    }
  }

  /** Units that declare the same things leave the statics alone. */
  lemma {:induction false} UnitsDeclarations(units: seq<Unit>)
    requires forall u :: 0 <= u < |units| ==> Declarations(units[u].dst) == Declarations(units[u].src)
    ensures Declarations(Flatten(Dsts(units))) == Declarations(Flatten(Srcs(units)))
  {
    if units != [] {
      UnitsCons(units);
      UnitsDeclarations(units[1..]);
      DeclarationsAppend(units[0].src, Flatten(Srcs(units[1..])));
      DeclarationsAppend(units[0].dst, Flatten(Dsts(units[1..])));
    }
  }

  /** Units that keep the declared ids keep those of the module. */
  lemma {:induction false} UnitsIds(units: seq<Unit>)
    requires forall u :: 0 <= u < |units| ==> Ids(units[u].dst) == Ids(units[u].src)
    ensures Ids(Flatten(Dsts(units))) == Ids(Flatten(Srcs(units)))
  {
    if units != [] {
      UnitsCons(units);
      UnitsIds(units[1..]);
      IdsAppend(units[0].src, Flatten(Srcs(units[1..])));
      IdsAppend(units[0].dst, Flatten(Dsts(units[1..])));
    }
  }

  lemma CodeOne(inst: Inst)
    ensures Code([inst]) == if Declarative(Op(inst)) then [] else [inst]
    ensures Declarations([inst]) == if Declarative(Op(inst)) && Op(inst) != TYPE_POINTER then [inst] else []
    ensures Ids([inst]) == match DeclaredId(inst) case Some(id) => [id] case None => []
  {
    var one := [inst];
    assert one[..0] == [];
  }

  predicate Executable(block: seq<Inst>) {
    forall i :: 0 <= i < |block| ==> !Declarative(Op(block[i]))
  }

  lemma {:induction false} CodeExecutable(block: seq<Inst>)
    requires Executable(block)
    ensures Code(block) == block && Declarations(block) == [] && Ids(block) == []
  {
    if block != [] {
      CodeExecutable(block[..|block| - 1]);
    }
  }

  /** Where an executable instruction of a module stands in its code. */
  lemma CodeIndex(insts: seq<Inst>, k: nat)
    requires k < |insts| && !Declarative(Op(insts[k]))
    ensures |Code(insts[..k])| < |Code(insts)| && Code(insts)[|Code(insts[..k])|] == insts[k]
    ensures |Code(insts[..k + 1])| == |Code(insts[..k])| + 1
  {
    assert insts[..k + 1][..k] == insts[..k];
    assert insts == insts[..k + 1] + insts[k + 1..];
    CodeAppend(insts[..k + 1], insts[k + 1..]);
  }

  lemma CodeIndexDiffers(insts: seq<Inst>, j: nat, k: nat)
    requires j < |insts| && k < |insts| && j != k
    requires !Declarative(Op(insts[j])) && !Declarative(Op(insts[k]))
    ensures |Code(insts[..j])| != |Code(insts[..k])|
  {
    CodeIndex(insts, j);
    CodeIndex(insts, k);
    var lo, hi := if j < k then j else k, if j < k then k else j;
    assert insts[..hi] == insts[..lo + 1] + insts[lo + 1..hi];
    CodeAppend(insts[..lo + 1], insts[lo + 1..hi]);
  }

  /** Executable instructions read only ids below the bound (section 2.16). */
  ghost predicate ReadsBelow(w: World, code: seq<Inst>, bound: nat) {
    forall k, id :: 0 <= k < |code| && id in Reads(w, code[k]) ==> id < bound
  }

  /** A well-formed module, as far as the rewrites read it (sections 2.3 and 2.16). */
  ghost predicate WellFormed(w: World, m: Module) {
    m.Valid() && GoodIds(m.insts, m.Bound()) && OneWord(m.insts) && ReadsBelow(w, Code(m.insts), m.Bound())
  }

  lemma CodeIn(insts: seq<Inst>, k: nat) returns (j: nat)
    requires k < |Code(insts)|
    ensures j < |insts| && insts[j] == Code(insts)[k] && !Declarative(Op(insts[j]))
  {
    var front, inst := insts[..|insts| - 1], insts[|insts| - 1];
    if k < |Code(front)| { j := CodeIn(front, k); } else { j := |insts| - 1; }
  }

  lemma {:induction false} FlattenIn<T>(blocks: seq<seq<T>>, i: nat) returns (b: nat, j: nat)
    requires i < |Flatten(blocks)|
    ensures b < |blocks| && j < |blocks[b]| && Flatten(blocks)[i] == blocks[b][j]
  {
    if i < |blocks[0]| {
      b, j := 0, i;
    } else {
      b, j := FlattenIn(blocks[1..], i - |blocks[0]|);
      b := b + 1;
    }
  }

  // ---- fresh results ----

  /** Opcodes that produce a value under the id in their second operand. */
  predicate Produces(op: nat) {
    op in {ACCESS_CHAIN, LOAD, COMPOSITE_CONSTRUCT, U_CONVERT, BITCAST, I_ADD, I_MUL, SHIFT_RIGHT_LOGICAL, SHIFT_LEFT_LOGICAL, BITWISE_OR}
  }

  /** Ids from `bound` on that the code defines, in order of definition. */
  function Defs(insts: seq<Inst>, bound: nat): seq<nat> {
    if insts == [] then []
    else
      var before, inst := Defs(insts[..|insts| - 1], bound), insts[|insts| - 1];
      if Produces(Op(inst)) && |inst| >= 3 && inst[2] >= bound then before + [inst[2] as nat] else before
  }

  lemma {:induction false} DefsAppend(a: seq<Inst>, b: seq<Inst>, bound: nat)
    ensures Defs(a + b, bound) == Defs(a, bound) + Defs(b, bound)
    decreases |b|
  {
    if b == [] {
      assert a + b == a;
    } else {
      assert (a + b)[..|a + b| - 1] == a + b[..|b| - 1];
      DefsAppend(a, b[..|b| - 1], bound);
    }
  }

  function Range(lo: nat, hi: nat): (r: seq<nat>)
    requires lo <= hi
    ensures |r| == hi - lo
  {
    seq(hi - lo, i requires 0 <= i < hi - lo => lo + i)
  }

  // ---- declarations that a scan has found ----

  /** An unsigned integer type. */
  predicate IsInt(inst: Inst, width: nat) {
    Op(inst) == TYPE_INT && |inst| >= 4 && inst[2] == width && inst[3] == 0
  }

  ghost predicate HasInt(insts: seq<Inst>, id: nat, width: nat) {
    exists k :: 0 <= k < |insts| && IsInt(insts[k], width) && insts[k][1] == id
  }

  predicate ConstDecl(inst: Inst, id: nat, value: nat) {
    Op(inst) == CONSTANT && |inst| >= 4 && inst[2] == id && inst[3] == value
  }

  ghost predicate HasConst(insts: seq<Inst>, id: nat, value: nat) {
    exists k :: 0 <= k < |insts| && ConstDecl(insts[k], id, value)
  }

  lemma HasIntMeans(insts: seq<Inst>, bound: nat, id: nat, width: nat)
    requires GoodIds(insts, bound) && HasInt(insts, id, width) && Modulus(width).Some?
    ensures id in Moduli(insts) && Moduli(insts)[id] == Modulus(width).value
  {
    var k :| 0 <= k < |insts| && IsInt(insts[k], width) && insts[k][1] == id;
    ModulusAt(insts, bound, k);
  }

  lemma HasConstMeans(w: World, s: Specialization, insts: seq<Inst>, bound: nat, id: nat, value: nat)
    requires GoodIds(insts, bound) && OneWord(insts) && HasConst(insts, id, value)
    ensures id in Consts(w, s, insts) && Consts(w, s, insts)[id] == Scalar(value)
    ensures id < bound
  {
    var k :| 0 <= k < |insts| && ConstDecl(insts[k], id, value);
    ConstAt(w, s, insts, bound, k);
    IdIn(insts, k);
  }

  /** `count` producers in a row, with consecutive results. */
  lemma {:induction false} DefsFirst(b: seq<Inst>, bound: nat, n: nat, count: nat)
    requires count <= |b| && bound <= n
    requires forall i :: 0 <= i < count ==> Produces(Op(b[i])) && |b[i]| >= 3 && b[i][2] == n + i
    ensures Defs(b[..count], bound) == Range(n, n + count)
  {
    if count > 0 {
      DefsFirst(b, bound, n, count - 1);
      assert b[..count][..count - 1] == b[..count - 1];
      assert Range(n, n + count) == Range(n, n + count - 1) + [n + count - 1];
    }
  }

  lemma DefsOne(inst: Inst, bound: nat)
    ensures Defs([inst], bound) == if Produces(Op(inst)) && |inst| >= 3 && inst[2] >= bound then [inst[2] as nat] else []
  {
    var one := [inst];
    assert one[..0] == [];
  }

  ghost predicate ResultsBelow(insts: seq<Inst>, bound: nat) {
    forall i :: 0 <= i < |insts| && Produces(Op(insts[i])) && |insts[i]| >= 3 ==> insts[i][2] < bound
  }

  lemma RangeSplit(lo: nat, mid: nat, hi: nat)
    requires lo <= mid <= hi
    ensures Range(lo, hi) == Range(lo, mid) + Range(mid, hi)
  {}
}
