/** A small operational semantics for the executable part of a compute shader.
    The opcodes the rewrites touch have their meaning; every other opcode is an
    uninterpreted step of the `World`, which sees the values of the ids the
    instruction reads and the shared memory, and nothing else. Any number of
    invocations are interleaved one instruction at a time over one memory. */
module Machine {
  import opened Words
  import opened Ops

  datatype Val =
    | Undef
    | Scalar(w: nat)
    | Composite(parts: seq<Val>)
    | Ptr(root: nat, path: seq<Val>)

  type Env = map<nat, Val>
  type Mem = map<nat, Val>

  /** A word stored through the debug probe variable. */
  datatype Write = Write(slot: nat, value: Val)

  /** Where control goes after an uninterpreted instruction. */
  datatype Control = Fall | Jump(target: nat) | Stop
  datatype Effect = Effect(value: Val, mem: Mem, control: Control)

  /** Everything the shader text does not fix. */
  datatype World = World(
    rom: map<nat, seq<nat>>,                  // buffers nobody writes, as bytes
    layout: (nat, seq<Val>) -> Option<nat>,   // byte offset of a path below a variable
    input: (nat, nat, seq<Val>) -> Option<Val>,  // built-in inputs, per invocation
    debug: nat,                               // the write-only probe variable
    uses: Inst -> set<nat>,                   // ids an uninterpreted instruction reads
    defines: Inst -> Option<nat>,             // and the id it defines
    ext: (Inst, Env, Mem, nat, nat) -> Effect,
    constant: Inst -> Val,                    // constants other than numbers and composites
    specOp: (Inst, seq<Val>) -> Val)          // specialization operators the compiler does not fold

  /** What the declarations of a module mean to its code. */
  datatype Statics = Statics(
    consts: Env,               // constants and global variables
    moduli: map<nat, nat>,     // integer types: 2 to the width
    quads: set<nat>,           // vectors of four 8-bit integers
    buffers: map<nat, nat>,    // buffer bound to a variable
    size: Size)                // how large a workgroup is

  datatype Size = FromConstant(value: Val) | FromIds(values: seq<Val>) | FromLiteral(dims: seq<nat>)

  datatype Program = Program(statics: Statics, code: seq<Inst>)

  // ---- values ----

  function Lookup(st: Statics, env: Env, id: nat): Val {
    if id in st.consts then st.consts[id]
    else if id in env then env[id]
    else Undef
  }

  function Lookups(st: Statics, env: Env, ids: seq<Word>): (vals: seq<Val>)
    ensures |vals| == |ids|
  {
    seq(|ids|, i requires 0 <= i < |ids| => Lookup(st, env, ids[i]))
  }

  ghost function View(st: Statics, env: Env, ids: set<nat>): Env {
    map id | id in ids :: Lookup(st, env, id)
  }

  function Pow2(n: nat): (p: nat)
    ensures p > 0
  {
    if n == 0 then 1 else 2 * Pow2(n - 1)
  }

  function Or(a: nat, b: nat): nat
    decreases a + b
  {
    if a == 0 && b == 0 then 0
    else (if a % 2 == 1 || b % 2 == 1 then 1 else 0) + 2 * Or(a / 2, b / 2)
  }

  predicate IsArith(op: nat) {
    op in {I_ADD, I_MUL, SHIFT_LEFT_LOGICAL, SHIFT_RIGHT_LOGICAL, BITWISE_OR}
  }

  function Arith(op: nat, a: nat, b: nat): int
    requires IsArith(op)
  {
    if op == I_ADD then a + b
    else if op == I_MUL then a * b
    else if op == SHIFT_LEFT_LOGICAL then a * Pow2(b)
    else if op == SHIFT_RIGHT_LOGICAL then a / Pow2(b)
    else Or(a, b)
  }

  /** The four bytes of a 32-bit word, lowest first. */
  function Bytes(w: nat): seq<nat> {
    [w % 256, w / 256 % 256, w / 65536 % 256, w / 0x100_0000 % 256]
  }

  function Scalars(ws: seq<nat>): seq<Val> {
    seq(|ws|, i requires 0 <= i < |ws| => Scalar(ws[i]))
  }

  /** Little-endian value of a run of bytes. */
  function LittleEndian(bytes: seq<nat>): nat {
    if bytes == [] then 0 else bytes[0] + 256 * LittleEndian(bytes[1..])
  }

  /** A load of `modulus`-sized integers from a read-only buffer. */
  ghost function RomValue(w: World, buffer: nat, root: nat, path: seq<Val>, modulus: nat): Option<Val>
    requires buffer in w.rom
  {
    var size := if modulus == 0x100 then 1 else if modulus == 0x1_0000 then 2 else if modulus == WORD then 4 else 8;
    match w.layout(root, path)
    case None => None
    case Some(at) =>
      if at + size > |w.rom[buffer]| then None
      else Some(Scalar(LittleEndian(w.rom[buffer][at..at + size])))
  }

  // ---- one instruction ----

  datatype Action =
    | Set(id: nat, value: Val)
    | Emit(write: Write)
    | Fault
    | External

  ghost function Act(st: Statics, w: World, inv: nat, inst: Inst, env: Env): Action {
    var op := Op(inst);
    if op == ACCESS_CHAIN && |inst| >= 4 then
      Set(inst[2], Extend(Lookup(st, env, inst[3]), Lookups(st, env, inst[4..])))
    else if op == LOAD && |inst| >= 4 then LoadAction(st, w, inv, inst, env)
    else if op == STORE && |inst| >= 3 then StoreAction(st, w, inst, env)
    else if IsArith(op) && |inst| == 5 then ArithAction(st, inst, env)
    else if op == U_CONVERT && |inst| == 4 then ConvertAction(st, inst, env)
    else if op == BITCAST && |inst| == 4 then BitcastAction(st, inst, env)
    else if op == COMPOSITE_CONSTRUCT && |inst| >= 3 then ConstructAction(st, inst, env)
    else External
  }

  function Extend(base: Val, indices: seq<Val>): Val {
    if base.Ptr? then Ptr(base.root, base.path + indices) else Undef
  }

  /** The probe buffer is write-only; a read-only buffer is read byte by byte,
      and a read outside it is a fault; inputs belong to the invocation. */
  ghost function LoadAction(st: Statics, w: World, inv: nat, inst: Inst, env: Env): Action
    requires |inst| >= 4
  {
    var a := Lookup(st, env, inst[3]);
    if !a.Ptr? then External
    else if a.root == w.debug then Set(inst[2], Undef)
    else if a.root in st.buffers && st.buffers[a.root] in w.rom && inst[1] in st.moduli then
      var v := RomValue(w, st.buffers[a.root], a.root, a.path, st.moduli[inst[1]]);
      if v.Some? then Set(inst[2], v.value) else Fault
    else
      var v := w.input(inv, a.root, a.path);
      if v.Some? then Set(inst[2], v.value) else External
  }

  /** The buffer of the probe variable is bound to no other variable, and is not
      one of the read-only buffers. */
  ghost predicate Private(st: Statics, w: World) {
    w.debug in st.buffers ==>
      && st.buffers[w.debug] !in w.rom
      && forall v :: v in st.buffers && v != w.debug ==> st.buffers[v] != st.buffers[w.debug]
  }

  /** A store to member 0 of the probe buffer, if nobody shares that buffer, is a
      word for the host. Every other store acts on the shared memory. */
  ghost function StoreAction(st: Statics, w: World, inst: Inst, env: Env): Action
    requires |inst| >= 3
  {
    var a := Lookup(st, env, inst[1]);
    if Private(st, w) && a.Ptr? && a.root == w.debug && |a.path| == 2 && a.path[0] == Scalar(0) && a.path[1].Scalar?
    then Emit(Write(a.path[1].w, Lookup(st, env, inst[2])))
    else External
  }

  function ArithAction(st: Statics, inst: Inst, env: Env): Action
    requires |inst| == 5 && IsArith(Op(inst))
  {
    var a, b := Lookup(st, env, inst[3]), Lookup(st, env, inst[4]);
    if inst[1] in st.moduli && st.moduli[inst[1]] > 0 && a.Scalar? && b.Scalar?
    then Set(inst[2], Scalar(Arith(Op(inst), a.w, b.w) % st.moduli[inst[1]]))
    else External
  }

  function ConvertAction(st: Statics, inst: Inst, env: Env): Action
    requires |inst| == 4
  {
    var a := Lookup(st, env, inst[3]);
    if inst[1] in st.moduli && st.moduli[inst[1]] > 0 && a.Scalar?
    then Set(inst[2], Scalar(a.w % st.moduli[inst[1]]))
    else External
  }

  /** A bitcast to four bytes is defined on one 32-bit word; to an integer it
      keeps the bits. */
  function BitcastAction(st: Statics, inst: Inst, env: Env): Action
    requires |inst| == 4
  {
    var a := Lookup(st, env, inst[3]);
    if inst[1] in st.quads then
      if a.Scalar? && a.w < WORD then Set(inst[2], Composite(Scalars(Bytes(a.w)))) else Fault
    else if inst[1] in st.moduli then Set(inst[2], a)
    else External
  }

  function ConstructAction(st: Statics, inst: Inst, env: Env): Action
    requires |inst| >= 3
  {
    var parts := Lookups(st, env, inst[3..]);
    if forall i | 0 <= i < |parts| :: parts[i].Scalar? then Set(inst[2], Composite(parts)) else External
  }

  // ---- the actions of single instructions ----

  lemma ActArith(st: Statics, w: World, inv: nat, inst: Inst, env: Env, a: nat, b: nat)
    requires |inst| == 5 && IsArith(Op(inst)) && inst[1] in st.moduli && st.moduli[inst[1]] > 0
    requires Lookup(st, env, inst[3]) == Scalar(a) && Lookup(st, env, inst[4]) == Scalar(b)
    ensures Act(st, w, inv, inst, env) == Set(inst[2], Scalar(Arith(Op(inst), a, b) % st.moduli[inst[1]]))
  {}

  lemma ActConvert(st: Statics, w: World, inv: nat, inst: Inst, env: Env, a: nat)
    requires |inst| == 4 && Op(inst) == U_CONVERT && inst[1] in st.moduli && st.moduli[inst[1]] > 0
    requires Lookup(st, env, inst[3]) == Scalar(a)
    ensures Act(st, w, inv, inst, env) == Set(inst[2], Scalar(a % st.moduli[inst[1]]))
  {}

  lemma ActChain(st: Statics, w: World, inv: nat, inst: Inst, env: Env, root: nat, path: seq<Val>)
    requires |inst| >= 4 && Op(inst) == ACCESS_CHAIN && Lookup(st, env, inst[3]) == Ptr(root, [])
    requires Lookups(st, env, inst[4..]) == path
    ensures Act(st, w, inv, inst, env) == Set(inst[2], Ptr(root, path))
  {
    assert [] + path == path;
  }

  lemma ActRomLoad(st: Statics, w: World, inv: nat, inst: Inst, env: Env, root: nat, path: seq<Val>)
    requires |inst| >= 4 && Op(inst) == LOAD && Lookup(st, env, inst[3]) == Ptr(root, path)
    requires root != w.debug && root in st.buffers && st.buffers[root] in w.rom && inst[1] in st.moduli
    ensures var v := RomValue(w, st.buffers[root], root, path, st.moduli[inst[1]]);
      Act(st, w, inv, inst, env) == if v.Some? then Set(inst[2], v.value) else Fault
  {}

  lemma ActQuad(st: Statics, w: World, inv: nat, inst: Inst, env: Env)
    requires |inst| == 4 && Op(inst) == BITCAST && inst[1] in st.quads
    ensures var a := Lookup(st, env, inst[3]);
      Act(st, w, inv, inst, env) ==
        if a.Scalar? && a.w < WORD then Set(inst[2], Composite(Scalars(Bytes(a.w)))) else Fault
  {}

  lemma ActConstruct(st: Statics, w: World, inv: nat, inst: Inst, env: Env, parts: seq<Val>)
    requires |inst| >= 3 && Op(inst) == COMPOSITE_CONSTRUCT && Lookups(st, env, inst[3..]) == parts
    requires forall i :: 0 <= i < |parts| ==> parts[i].Scalar?
    ensures Act(st, w, inv, inst, env) == Set(inst[2], Composite(parts))
  {}

  /** The ids an instruction reads. */
  ghost function Reads(w: World, inst: Inst): set<nat> {
    var op := Op(inst);
    if op == ACCESS_CHAIN && |inst| >= 4 then IdSet(inst[3..])
    else if op == LOAD && |inst| >= 4 then {inst[3]}
    else if op == STORE && |inst| >= 3 then {inst[1], inst[2]}
    else if IsArith(op) && |inst| == 5 then {inst[3], inst[4]}
    else if (op == U_CONVERT || op == BITCAST) && |inst| == 4 then {inst[3]}
    else if op == COMPOSITE_CONSTRUCT && |inst| >= 3 then IdSet(inst[3..])
    else if op == CONTROL_BARRIER && |inst| >= 1 then IdSet(inst[1..])
    else w.uses(inst)
  }

  function IdSet(ids: seq<Word>): set<nat> {
    set i | 0 <= i < |ids| :: ids[i] as nat
  }

  // ---- invocations and the interleaving ----

  datatype Status = Running | Halted | Faulted

  /** `block` and `pred` are the labels last passed, for OpPhi. */
  datatype Local = Local(pc: nat, env: Env, block: nat, pred: nat, status: Status)

  datatype Config = Config(locals: seq<Local>, mem: Mem, log: seq<Write>)

  predicate IsLabel(inst: Inst, id: nat) {
    Op(inst) == LABEL && |inst| == 2 && inst[1] == id
  }

  function FindLabel(code: seq<Inst>, id: nat): (k: nat)
    ensures k <= |code|
  {
    if code == [] || IsLabel(code[0], id) then 0 else 1 + FindLabel(code[1..], id)
  }

  predicate AtBarrier(p: Program, l: Local) {
    l.status.Running? && l.pc < |p.code| && Op(p.code[l.pc]) == CONTROL_BARRIER
  }

  predicate CanStep(p: Program, l: Local) {
    l.status.Running? && l.pc < |p.code| && Op(p.code[l.pc]) != CONTROL_BARRIER
  }

  datatype Stepped = Stepped(local: Local, mem: Mem, log: seq<Write>)

  /** One instruction of one invocation. */
  ghost function StepLocal(p: Program, w: World, inv: nat, l: Local, mem: Mem, log: seq<Write>): Stepped
    requires CanStep(p, l)
  {
    var inst := p.code[l.pc];
    if Op(inst) == LABEL && |inst| == 2 then
      Stepped(l.(pc := l.pc + 1, block := inst[1], pred := l.block), mem, log)
    else
      Apply(p, w, inst, Act(p.statics, w, inv, inst, l.env),
            w.ext(inst, View(p.statics, l.env, Reads(w, inst)), mem, inv, l.pred), l, mem, log)
  }

  /** What an action does to an invocation; `e` is the effect if the action is external. */
  ghost function Apply(p: Program, w: World, inst: Inst, a: Action, e: Effect, l: Local, mem: Mem, log: seq<Write>): Stepped {
    match a
    case Set(id, v) => Stepped(l.(pc := l.pc + 1, env := l.env[id := v]), mem, log)
    case Emit(write) => Stepped(l.(pc := l.pc + 1), mem, log + [write])
    case Fault => Stepped(l.(status := Faulted), mem, log)
    case External => Stepped(Land(p, l.(env := Define(w.defines(inst), e.value, l.env)), e.control), e.mem, log)
  }

  function Define(id: Option<nat>, v: Val, env: Env): Env {
    match id case None => env case Some(d) => env[d := v]
  }

  function Land(p: Program, l: Local, c: Control): Local {
    match c
    case Fall => l.(pc := l.pc + 1)
    case Jump(target) => l.(pc := FindLabel(p.code, target))
    case Stop => l.(status := Halted)
  }

  /** The scheduler either runs one invocation or lets one workgroup, all of
      whose invocations wait at the same barrier, pass it. */
  datatype Choice = Invoke(i: nat) | Sync(group: nat)

  ghost predicate CanSync(p: Program, c: Config, lanes: nat, group: nat) {
    && 0 < lanes
    && group * lanes + lanes <= |c.locals|
    && forall i :: group * lanes <= i < group * lanes + lanes ==>
         AtBarrier(p, c.locals[i]) && c.locals[i].pc == c.locals[group * lanes].pc
  }

  ghost function PassBarrier(c: Config, lo: nat, hi: nat): Config {
    c.(locals := seq(|c.locals|, i requires 0 <= i < |c.locals| =>
      if lo <= i < hi then c.locals[i].(pc := c.locals[i].pc + 1) else c.locals[i]))
  }

  ghost function Exec(p: Program, w: World, lanes: nat, c: Config, choice: Choice): Option<Config> {
    match choice
    case Invoke(i) =>
      if i < |c.locals| && CanStep(p, c.locals[i]) then
        var s := StepLocal(p, w, i, c.locals[i], c.mem, c.log);
        Some(Config(c.locals[i := s.local], s.mem, s.log))
      else None
    case Sync(g) =>
      if CanSync(p, c, lanes, g) then Some(PassBarrier(c, g * lanes, g * lanes + lanes)) else None
  }

  /** The configuration a schedule leads to, if every choice in it is enabled. */
  ghost function Run(p: Program, w: World, lanes: nat, c: Config, schedule: seq<Choice>): Option<Config>
    decreases |schedule|
  {
    if schedule == [] then Some(c)
    else match Exec(p, w, lanes, c, schedule[0])
      case None => None
      case Some(next) => Run(p, w, lanes, next, schedule[1..])
  }

  lemma {:induction false} RunAppend(p: Program, w: World, lanes: nat, c: Config, a: seq<Choice>, b: seq<Choice>)
    requires Run(p, w, lanes, c, a).Some?
    ensures Run(p, w, lanes, c, a + b) == Run(p, w, lanes, Run(p, w, lanes, c, a).value, b)
    decreases |a|
  {
    if a == [] {
      assert a + b == b;
    } else {
      assert (a + b)[1..] == a[1..] + b;
      RunAppend(p, w, lanes, Exec(p, w, lanes, c, a[0]).value, a[1..], b);
    }
  }

  ghost predicate NoFault(c: Config) {
    forall i :: 0 <= i < |c.locals| ==> !c.locals[i].status.Faulted?
  }

  /** No schedule drives any invocation into a fault. */
  ghost predicate Safe(p: Program, w: World, lanes: nat, c: Config) {
    forall schedule :: Run(p, w, lanes, c, schedule).Some? ==> NoFault(Run(p, w, lanes, c, schedule).value)
  }

  lemma SafeLater(p: Program, w: World, lanes: nat, c: Config, schedule: seq<Choice>)
    requires Safe(p, w, lanes, c) && Run(p, w, lanes, c, schedule).Some?
    ensures Safe(p, w, lanes, Run(p, w, lanes, c, schedule).value)
  {
    var later := Run(p, w, lanes, c, schedule).value;
    forall more | Run(p, w, lanes, later, more).Some?
      ensures NoFault(Run(p, w, lanes, later, more).value)
    {
      RunAppend(p, w, lanes, c, schedule, more);
    }
  }

  /** Every invocation stands before the entry label with nothing computed. */
  ghost function Start(p: Program, entry: nat, count: nat, mem: Mem): Config {
    Config(seq(count, _ => Local(FindLabel(p.code, entry), map[], 0, 0, Running)), mem, [])
  }
}
