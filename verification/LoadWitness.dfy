/** A module with a lowered load that meets every premise of the compiler's
    theorems at once. */
module LoadWitness {
  import opened Words
  import opened Ops
  import opened Machine
  import opened Translation
  import opened Meaning
  import opened Storage16
  import Sound = Storage16Sound
  import Shape = Storage16Shape
  import LocalSize
  import Specializing
  import Bitcasts
  import BitcastSound
  import Barriers
  import Bindings
  import BindingsSound
  import Reconstruction

  // ---- the module: it loads one 16-bit element of its buffer ----

  const CHAIN_ID := 402
  const RETURN := 253
  const FUNCTION_END := 56

  /** Both views are at set 1, binding 0. */
  function Names(): seq<Inst> {
    [[Head(4, DECORATE), VIEW8, DESCRIPTOR_SET, 1], [Head(4, DECORATE), VIEW8, BINDING, 0],
     [Head(4, DECORATE), VIEW16, DESCRIPTOR_SET, 1], [Head(4, DECORATE), VIEW16, BINDING, 0]]
  }

  function Types1(): seq<Inst> {
    [[Head(4, TYPE_INT), 6, 32, 0], [Head(4, TYPE_INT), 8, 8, 0], [Head(4, TYPE_INT), 16, 16, 0], [Head(4, TYPE_POINTER), 17, STORAGE_BUFFER, 16]]
  }

  function Constants(): seq<Inst> {
    [[Head(4, CONSTANT), 6, 1, 1], [Head(4, CONSTANT), 6, 2, 2], [Head(4, CONSTANT), 6, 3, 8],
     [Head(4, VARIABLE), 17, VIEW8, STORAGE_BUFFER], [Head(4, VARIABLE), 17, VIEW16, STORAGE_BUFFER]]
  }

  function Globals(): seq<Inst> { Names() + Types1() + Constants() }

  function Chain(): Inst { [Head(8, ACCESS_CHAIN), 17, CHAIN_ID, VIEW16, 1, 1, 1, 1] }

  function TheLoad(): Inst { [Head(4, LOAD), 16, 403, CHAIN_ID] }

  function Body(): seq<Inst> {
    [[Head(5, FUNCTION), 2, 400, 0, 3], [Head(2, LABEL), 401], Chain(), TheLoad(), [Head(1, RETURN)], [Head(1, FUNCTION_END)]]
  }

  const BOUND := 410

  function TheModule(): Module { Module([MAGIC, 0x1_0300, 0, BOUND, 0], Globals() + Body()) }

  /** One element is two bytes; the views count elements and bytes. */
  function Place(v: nat, path: seq<Val>): Option<nat> {
    if |path| != 4 || !path[3].Scalar? then None
    else if v == VIEW8 then Some(path[3].w)
    else if v == VIEW16 && 2 * path[3].w + 1 < WORD then Some(2 * path[3].w)
    else None
  }

  ghost function TheWorld(): World {
    World(map[0 := [1, 2, 3, 4]], Place, (inv, v, path) => None, 0, inst => {}, inst => None,
          (inst, view, mem, inv, pred) => Effect(Undef, mem, if Op(inst) == RETURN then Stop else Fall), inst => Undef, (inst, vals) => Undef)
  }

  function TheTable(): Table { map[(1, 0) := 0] }

  // ---- its shape ----

  lemma Sized()
    ensures TheModule().Valid() && |Names()| == 4 && |Types1()| == 4 && |Constants()| == 5 && |Body()| == 6 && |TheModule().insts| == 19
    ensures forall inst :: inst in Names() + Types1() + Constants() + Body() ==> WellSized(inst)
  {
    assert AllSized(Names()) && AllSized(Types1()) && AllSized(Constants()) && AllSized(Body());
  }

  lemma InstIs(inst: Inst)
    requires inst in TheModule().insts
    ensures inst in Names() || inst in Types1() || inst in Constants() || inst in Body()
  {}

  /** Declared ids, in order. */
  lemma DeclaredIds()
    ensures Ids(TheModule().insts) == [6, 8, 16, 17, 1, 2, 3, VIEW8, VIEW16] && Code(TheModule().insts) == Body()
  {
    Plainly();
    IdsAppend(Names() + Types1() + Constants(), Body());
    IdsAppend(Names() + Types1(), Constants());
    IdsAppend(Names(), Types1());
    CodeExecutable(Body());
    CodeAppend(Globals(), Body());
    TypeIds();
    ConstantIds();
    NameIds();
    NoCode(Globals());
  }

  lemma Plainly()
    ensures Executable(Body()) && forall i :: 0 <= i < |Globals()| ==> Declarative(Op(Globals()[i]))
  {
    forall inst | inst in Globals() ensures Declarative(Op(inst)) { assert inst in Names() || inst in Types1() || inst in Constants(); }
  }

  lemma {:induction false} NoCode(insts: seq<Inst>)
    requires forall i :: 0 <= i < |insts| ==> Declarative(Op(insts[i]))
    ensures Code(insts) == []
  {
    if insts != [] { NoCode(insts[..|insts| - 1]); }
  }

  lemma {:induction false} IdsEach(insts: seq<Inst>, ids: seq<nat>)
    requires |insts| == |ids| && forall i :: 0 <= i < |insts| ==> DeclaredId(insts[i]) == Some(ids[i])
    ensures Ids(insts) == ids
  {
    if insts != [] { IdsEach(insts[..|insts| - 1], ids[..|ids| - 1]); }
  }

  lemma {:induction false} IdsNone(insts: seq<Inst>)
    requires forall i :: 0 <= i < |insts| ==> DeclaredId(insts[i]).None?
    ensures Ids(insts) == []
  {
    if insts != [] { IdsNone(insts[..|insts| - 1]); }
  }

  lemma NameIds()
    ensures Ids(Names()) == []
  {
    IdsNone(Names());
  }

  lemma TypeIds()
    ensures Ids(Types1()) == [6, 8, 16, 17]
  {
    IdsEach(Types1(), [6, 8, 16, 17]);
  }

  lemma ConstantIds()
    ensures Ids(Constants()) == [1, 2, 3, VIEW8, VIEW16]
  {
    IdsEach(Constants(), [1, 2, 3, VIEW8, VIEW16]);
  }

  lemma ReadsLow()
    ensures ReadsBelow(TheWorld(), Body(), BOUND)
  {
    assert Chain()[3..] == [VIEW16 as Word, 1, 1, 1, 1];
    forall k | 0 <= k < |Body()| ensures Reads(TheWorld(), Body()[k]) <= {VIEW16 as nat, 1, CHAIN_ID} {}
  }

  lemma Formed()
    ensures WellFormed(TheWorld(), TheModule())
  {
    hide TheWorld, Globals, Body, Ids, Code;
    Sized();
    DeclaredIds();
    ReadsLow();
    OneWords();
  }

  lemma OneWords()
    ensures OneWord(TheModule().insts)
  {
    forall i | 0 <= i < |TheModule().insts| && (Op(TheModule().insts[i]) == CONSTANT || Op(TheModule().insts[i]) == SPEC_CONSTANT)
      ensures |TheModule().insts[i]| == 4
    {
      InstIs(TheModule().insts[i]);
    }
  }

  // ---- decorations ----

  lemma {:induction false} Undecorated(insts: seq<Inst>, decoration: nat)
    requires forall i :: 0 <= i < |insts| ==> !Decorates(insts[i], decoration)
    ensures Decorations(insts, decoration) == map[]
  {
    if insts != [] { Undecorated(insts[..|insts| - 1], decoration); }
  }

  lemma {:induction false} DecorationsAppend(a: seq<Inst>, b: seq<Inst>, decoration: nat)
    requires forall i :: 0 <= i < |b| ==> !Decorates(b[i], decoration)
    ensures Decorations(a + b, decoration) == Decorations(a, decoration)
    decreases |b|
  {
    if b == [] {
      assert a + b == a;
    } else {
      assert (a + b)[..|a + b| - 1] == a + b[..|b| - 1];
      DecorationsAppend(a, b[..|b| - 1], decoration);
    }
  }

  lemma TheDecorations()
    ensures Decorations(TheModule().insts, SPEC_ID) == map[]
    ensures Decorations(TheModule().insts, DESCRIPTOR_SET) == map[VIEW8 := 1 as Word, VIEW16 := 1]
    ensures Decorations(TheModule().insts, BINDING) == map[VIEW8 := 0 as Word, VIEW16 := 0]
  {
    var rest := Types1() + Constants() + Body();
    assert TheModule().insts == Names() + rest;
    forall i, d | 0 <= i < |rest| && 0 <= d ensures !Decorates(rest[i], d) {
      assert rest[i] in Types1() || rest[i] in Constants() || rest[i] in Body();
    }
    DecorationsAppend(Names(), rest, SPEC_ID);
    DecorationsAppend(Names(), rest, DESCRIPTOR_SET);
    DecorationsAppend(Names(), rest, BINDING);
    NameDecorations();
  }

  lemma NameDecorations()
    ensures Decorations(Names(), SPEC_ID) == map[]
    ensures Decorations(Names(), DESCRIPTOR_SET) == map[VIEW8 := 1 as Word, VIEW16 := 1]
    ensures Decorations(Names(), BINDING) == map[VIEW8 := 0 as Word, VIEW16 := 0]
  {
    var n := Names();
    Undecorated(n, SPEC_ID);
    assert n[..3][..2] == n[..2] && n[..2][..1] == n[..1] && n[..1][..0] == n[..0] && n[..0] == [];
    assert Decorations(n[..1], DESCRIPTOR_SET) == map[VIEW8 := 1 as Word] && Decorations(n[..1], BINDING) == map[];
    assert Decorations(n[..2], DESCRIPTOR_SET) == map[VIEW8 := 1 as Word] && Decorations(n[..2], BINDING) == map[VIEW8 := 0 as Word];
    assert n[..|n| - 1] == n[..3];
  }

  // ---- stages 1 and 2 leave it alone ----

  lemma {:induction false} NoModes(insts: seq<Inst>)
    requires forall i :: 0 <= i < |insts| ==> !IsLocalSize(insts[i])
    ensures LocalSize.CountModes(insts, false) == 0
  {
    if insts != [] { NoModes(insts[..|insts| - 1]); }
  }

  lemma PlainInst(inst: Inst)
    requires inst in TheModule().insts
    ensures !IsLocalSize(inst) && !Specializing.IsSpec(inst) && Op(inst) !in {SPEC_CONSTANT_TRUE, SPEC_CONSTANT_FALSE} && Op(inst) != BITCAST
  {
    InstIs(inst);
  }

  lemma Closes()
    ensures TheModule().Valid() && LocalSize.Patched(TheModule(), []) == TheModule() && Reconstruction.Closing(TheModule(), []) == Ok(TheModule())
    ensures Specializing.Readied(TheModule()) && Specializing.BoolsKept(Specializing.PlanOf(TheModule(), []), TheModule().insts)
  {
    hide TheModule, Specializing.FoldAll, TheWorld, Ids, Decorations, LocalSize.Resolved;
    Sized();
    Formed();
    TheDecorations();
    forall i | 0 <= i < |TheModule().insts|
      ensures !IsLocalSize(TheModule().insts[i]) && !Specializing.IsSpec(TheModule().insts[i])
      ensures Op(TheModule().insts[i]) !in {SPEC_CONSTANT_TRUE, SPEC_CONSTANT_FALSE}
    {
      PlainInst(TheModule().insts[i]);
    }
    NoModes(TheModule().insts);
    Specializing.MaterializeIdempotent(TheModule(), []);
  }

  // ---- stage 3 applies ----

  function TheTypes(): Storage16.Types { Storage16.Types(6, 8, 16, 17, 0, 1, 2, 3, Some(6)) }

  lemma GlobalCuts()
    ensures |Globals()| == 13 && Globals()[..4] == Names()
    ensures (forall i :: 0 <= i < 4 ==> Globals()[4 + i] == Types1()[i]) && (forall i :: 0 <= i < 5 ==> Globals()[8 + i] == Constants()[i])
  {}

  lemma ScanNames()
    ensures Scan(Names()) == NO_TYPES
  {
    var n := Names();
    assert n[..3][..2] == n[..2] && n[..2][..1] == n[..1] && n[..1][..0] == n[..0] && n[..0] == [];
    assert Scan(n[..1]) == NO_TYPES;
    assert Scan(n[..2]) == NO_TYPES;
    assert n[..|n| - 1] == n[..3];
  }

  lemma ScanNext(g: seq<Inst>, k: nat, t: Storage16.Types)
    requires k < |g| && Scan(g[..k]) == t
    ensures Scan(g[..k + 1]) == See(t, g[k], k + 1)
  {
    assert g[..k + 1][..k] == g[..k];
  }

  lemma ScanGlobals()
    ensures Scan(Globals()) == TheTypes()
  {
    var g := Globals();
    GlobalCuts();
    ScanNames();
    hide Scan, Names;
    ScanNext(g, 4, NO_TYPES);
    ScanNext(g, 5, Scan(g[..5]));
    ScanNext(g, 6, Scan(g[..6]));
    ScanNext(g, 7, Scan(g[..7]));
    assert Scan(g[..8]) == Storage16.Types(6, 8, 16, 17, 0, 0, 0, 0, Some(6));
    ScanNext(g, 8, Scan(g[..8]));
    ScanNext(g, 9, Scan(g[..9]));
    ScanNext(g, 10, Scan(g[..10]));
    assert Scan(g[..11]) == TheTypes();
    ScanNext(g, 11, TheTypes());
    ScanNext(g, 12, TheTypes());
    assert g[..13] == g;
  }

  lemma FoundTypes()
    ensures TypesOf(TheModule().insts) == TheTypes()
  {
    hide Scan, FunctionAt;
    ScanGlobals();
    Sized();
    var insts := TheModule().insts;
    forall i | 0 <= i < 13 ensures Op(insts[i]) != FUNCTION { assert insts[i] in Names() || insts[i] in Types1() || insts[i] in Constants(); }
    assert insts[13] == Body()[0];
    FunctionIs(insts, 13);
    assert insts[..13] == Globals();
  }

  lemma {:induction false} CountNone(t: Storage16.Types, insts: seq<Inst>, k: nat)
    requires forall i :: k <= i < |insts| ==> !Matches(t, insts, i)
    ensures Count(t, insts, k) == 0
    decreases |insts| - k
  {
    hide Matches;
    if k < |insts| { CountNone(t, insts, k + 1); }
  }

  lemma {:induction false} CountOne(t: Storage16.Types, insts: seq<Inst>, k: nat, j: nat)
    requires k <= j < |insts| && Matches(t, insts, j) && forall i :: k <= i < |insts| && i != j ==> !Matches(t, insts, i)
    ensures Count(t, insts, k) == 1
    decreases j - k
  {
    hide Matches;
    if k < j { CountOne(t, insts, k + 1, j); } else { CountNone(t, insts, k + 1); }
  }

  lemma OneLoad()
    ensures Count(TheTypes(), TheModule().insts, 0) == 1 && Matches(TheTypes(), TheModule().insts, 15)
  {
    hide Count;
    var insts := TheModule().insts;
    Sized();
    assert insts[15] == Body()[2] && insts[16] == Body()[3];
    forall i | 0 <= i < 19 && i != 15 ensures Op(insts[i]) != ACCESS_CHAIN {
      if i < 13 { assert insts[i] in Names() || insts[i] in Types1() || insts[i] in Constants(); } else { assert insts[i] == Body()[i - 13]; }
    }
    CountOne(TheTypes(), insts, 0, 15);
  }

  lemma StageApplies()
    ensures Applies(TheModule())
  {
    hide Count, TypesOf;
    FoundTypes();
    OneLoad();
  }

  // ---- the views ----

  ghost function TheStatics(): Statics { StaticsOf(TheWorld(), TheModule().insts, [], TheTable()) }

  lemma ViewDeclared(k: nat, s: Specialization, env: Env)
    requires k == 11 || k == 12
    ensures |TheModule().insts| == 19 && TheModule().insts[k] == Constants()[k - 8]
    ensures DeclaredId(Constants()[k - 8]) == Some(if k == 11 then VIEW8 else VIEW16)
    ensures Declared(TheWorld(), s, env, Constants()[k - 8]) == Some(Ptr(if k == 11 then VIEW8 else VIEW16, []))
  {
    Sized();
    GlobalCuts();
    assert TheModule().insts[k] == Globals()[k];
  }

  lemma ViewConstants()
    ensures VIEW8 in TheStatics().consts && TheStatics().consts[VIEW8] == Ptr(VIEW8, [])
    ensures VIEW16 in TheStatics().consts && TheStatics().consts[VIEW16] == Ptr(VIEW16, [])
  {
    hide TheModule, TheWorld, Consts, Moduli, Quads, Buffers, Code, SizeOf, Declared, Constants, GoodIds;
    var spec, insts := SpecializationOf(TheModule().insts, []), TheModule().insts;
    TheGoodIds();
    Sized();
    ViewDeclared(11, spec, Consts(TheWorld(), spec, insts[..11]));
    ViewDeclared(12, spec, Consts(TheWorld(), spec, insts[..12]));
    ConstAt(TheWorld(), spec, insts, BOUND, 11);
    ConstAt(TheWorld(), spec, insts, BOUND, 12);
  }

  lemma TheGoodIds()
    ensures GoodIds(TheModule().insts, BOUND)
  {
    DeclaredIds();
  }

  lemma ViewBuffers()
    ensures TheStatics().buffers == map[VIEW8 := 0, VIEW16 := 0]
  {
    hide TheModule, Consts, Moduli, Quads, Code, SizeOf, Decorations;
    TheDecorations();
  }

  lemma TheViewsAgree()
    ensures Sound.ViewsAgree(TheWorld())
  {
    forall a: Val, b: Val, c: Val, k: Val | TheWorld().layout(VIEW16, [a, b, c, k]).Some?
      ensures k.Scalar? && 2 * k.w + 1 < WORD
      ensures TheWorld().layout(VIEW8, [a, b, c, Scalar(2 * k.w)]) == TheWorld().layout(VIEW16, [a, b, c, k])
      ensures TheWorld().layout(VIEW8, [a, b, c, Scalar(2 * k.w + 1)]) == Some(TheWorld().layout(VIEW16, [a, b, c, k]).value + 1)
    {
      assert [a, b, c, k][3] == k;
    }
  }

  lemma TheViewsBound()
    ensures Sound.ViewsBound(TheWorld(), TheStatics())
  {
    hide TheStatics, Sound.ViewsAgree;
    ViewConstants();
    ViewBuffers();
    TheViewsAgree();
    TheRom();
  }

  lemma TheRom()
    ensures TheWorld().rom == map[0 := [1, 2, 3, 4]] && TheWorld().debug == 0
  {}

  lemma UsedOnce()
    ensures Sound.ViewsUsedOnce(TheWorld(), Body(), TheStatics().consts)
  {
    hide TheStatics;
    NotConstant();
    assert Chain()[3..] == [VIEW16 as Word, 1, 1, 1, 1];
    forall a, b | 0 <= a < a + 1 == b < |Body()| && Sound.ViewPair(Body()[a], Body()[b])
      ensures Body()[a][2] !in TheStatics().consts && Sound.OnlyReader(TheWorld(), Body(), b, Body()[a][2])
    {
      assert a == 2;
      forall k | 0 <= k < |Body()| && k != b ensures CHAIN_ID !in Reads(TheWorld(), Body()[k]) {}
    }
  }

  lemma NotConstant()
    ensures CHAIN_ID !in TheStatics().consts
  {
    hide TheModule, TheWorld, Consts, Moduli, Quads, Buffers, Code, SizeOf;
    ConstsKeys(TheWorld(), SpecializationOf(TheModule().insts, []), TheModule().insts);
    DeclaredIds();
  }

  lemma TheSound()
    ensures Reconstruction.Sound(TheWorld(), TheModule(), [], [], TheTable())
  {
    hide TheModule, TheWorld, Sound.ViewsBound, Sound.ViewsUsedOnce, StaticsOf, Decorations, Body, Reconstruction.Closing, Specializing.PlanOf;
    Closes();
    Formed();
    DeclaredIds();
    TheViewsBound();
    UsedOnce();
    TheDecorations();
    TheBound();
  }

  lemma TheBound()
    ensures |TheModule().header| == HEADER && TheModule().Bound() == BOUND
  {}

  // ---- stages 3 to 6 return ----

  lemma {:induction false} NoCasts(t: Bitcasts.Types, insts: seq<Inst>)
    requires forall i :: 0 <= i < |insts| ==> Op(insts[i]) != BITCAST
    ensures Bitcasts.Count(t, insts) == 0
  {
    if insts != [] {
      assert insts[0] in insts;
      NoCasts(t, insts[1..]);
    }
  }

  lemma LoweredCasts()
    ensures LowerModule(TheModule()).Valid() && Bitcasts.LowerModule(LowerModule(TheModule())) == Ok(LowerModule(TheModule()))
  {
    hide TheModule, LowerModule, Bitcasts.Scan, Applies;
    Sized();
    StageApplies();
    Reconstruction.StorageValid(TheModule());
    var m3 := LowerModule(TheModule());
    forall i | 0 <= i < |m3.insts| ensures Op(m3.insts[i]) != BITCAST { LoweredAt(i); }
    NoCasts(Bitcasts.Scan(m3.insts), m3.insts);
  }

  lemma LoweredAt(i: nat)
    requires TheModule().Valid() && Applies(TheModule()) && i < |LowerModule(TheModule()).insts|
    ensures Op(LowerModule(TheModule()).insts[i]) != BITCAST
  {
    hide TheModule, LowerModule, LoweringOf, Lowered, Applies, Matches, PtrType, FirstId;
    BoundSmall();
    var j, n := Shape.OutputInst(TheModule(), i);
    LoweredPlain(j, n, LowerModule(TheModule()).insts[i]);
  }

  lemma BoundSmall()
    requires Applies(TheModule())
    ensures |TheModule().header| == HEADER && NewBound(TheModule()) <= ID_LIMIT
  {}

  lemma LoweredPlain(j: nat, n: nat, out: Inst)
    requires TheModule().Valid() && Applies(TheModule())
    requires var m, c := TheModule(), LoweringOf(TheModule());
      out == PtrType(c) || (j < |m.insts| && out == m.insts[j])
      || (Matches(c.t, m.insts, j) && n + 10 <= ID_LIMIT && out in Lowered(c, m.insts[j], m.insts[j + 1], n))
    ensures Op(out) != BITCAST
  {
    hide TheModule, LoweringOf, Applies;
    var m, c := TheModule(), LoweringOf(TheModule());
    if j < |m.insts| && out == m.insts[j] { PlainInst(out); }
  }

  /** No decoration puts an id into set 0. */
  lemma {:induction false} NoSlots(insts: seq<Inst>)
    ensures BindingsSound.Operands({}, insts) == []
  {
    if insts != [] { NoSlots(insts[1..]); }
  }

  lemma Returns()
    ensures TheModule().Valid() && Reconstruction.Effective(TheModule(), [], []).Ok?
  {
    hide TheModule, LowerModule, Bitcasts.LowerModule, Barriers.Guarded, Reconstruction.Closing, Bindings.Rewritten, Applies, Decorations, Barriers.Place, Barriers.Scan;
    Sized();
    Closes();
    StageApplies();
    LoweredCasts();
    Formed();
    var m3 := LowerModule(TheModule());
    Reconstruction.BitcastValid(m3);
    Barriers.GuardShape(m3);
    var m5 := Barriers.Guarded(m3);
    SetsKept(m3, m5);
    NoZero(m5);
    NoSlots(m5.insts);
    BindingsSound.RewriteFailsIff(m5, []);
    NoDetails();
  }

  lemma NoDetails()
    ensures |Bindings.Details([]) + BindingsSound.Elems([])| == 0 && |BindingsSound.Elems([])| == 0
  {
    assert Bindings.Details([]) == {} && BindingsSound.Elems([]) == {};
  }

  lemma SetsKept(m3: Module, m5: Module)
    requires TheModule().Valid() && Applies(TheModule()) && m3 == LowerModule(TheModule()) && m3.Valid() && m5 == Barriers.Guarded(m3)
    ensures Decorations(m5.insts, DESCRIPTOR_SET) == Decorations(TheModule().insts, DESCRIPTOR_SET)
  {
    hide TheModule, LowerModule, Applies, Barriers.Scan;
    Sound.LowerDeclares(TheModule());
    if Barriers.Place(m3).Some? { Barriers.InsertDeclares(m3.insts, Barriers.Place(m3).value, Barriers.BarrierInst(Barriers.Scan(m3.insts))); }
    SameDecorations(TheModule().insts, DESCRIPTOR_SET);
    SameDecorations(m3.insts, DESCRIPTOR_SET);
    SameDecorations(m5.insts, DESCRIPTOR_SET);
  }

  lemma NoZero(m5: Module)
    requires |m5.header| == HEADER && Decorations(m5.insts, DESCRIPTOR_SET) == Decorations(TheModule().insts, DESCRIPTOR_SET)
    ensures BindingsSound.ZeroOf(m5) == {}
  {
    hide TheModule, Decorations;
    TheDecorations();
  }

  // ---- the source does not fault ----

  /** The only invocation does not fault, and in front of the load the pointer
      leads to an element of the buffer. */
  ghost predicate Good(p: Program, c: Config) {
    && |c.locals| == 1 && !c.locals[0].status.Faulted?
    && (c.locals[0].pc == 3 ==> Lookup(p.statics, c.locals[0].env, CHAIN_ID) == Ptr(VIEW16, [Scalar(1), Scalar(1), Scalar(1), Scalar(1)]))
  }

  ghost predicate ThePrograms(p: Program) {
    && p.code == Body() && CHAIN_ID !in p.statics.consts && 1 in p.statics.consts && p.statics.consts[1] == Scalar(1)
    && VIEW16 in p.statics.consts && p.statics.consts[VIEW16] == Ptr(VIEW16, [])
    && p.statics.buffers == map[VIEW8 := 0, VIEW16 := 0] && 16 in p.statics.moduli && p.statics.moduli[16] == 0x1_0000
  }

  lemma ChainActs(p: Program, env: Env)
    requires ThePrograms(p)
    ensures Act(p.statics, TheWorld(), 0, Body()[2], env) == Set(CHAIN_ID, Ptr(VIEW16, [Scalar(1), Scalar(1), Scalar(1), Scalar(1)]))
  {
    hide TheWorld;
    var path := [Scalar(1), Scalar(1), Scalar(1), Scalar(1)];
    assert Chain()[4..] == [1 as Word, 1, 1, 1];
    assert Lookups(p.statics, env, Chain()[4..]) == path;
    ActChain(p.statics, TheWorld(), 0, Chain(), env, VIEW16, path);
  }

  lemma LoadActs(p: Program, env: Env)
    requires ThePrograms(p) && Lookup(p.statics, env, CHAIN_ID) == Ptr(VIEW16, [Scalar(1), Scalar(1), Scalar(1), Scalar(1)])
    ensures Act(p.statics, TheWorld(), 0, Body()[3], env).Set?
  {
    var path := [Scalar(1), Scalar(1), Scalar(1), Scalar(1)];
    ActRomLoad(p.statics, TheWorld(), 0, TheLoad(), env, VIEW16, path);
    assert TheWorld().layout(VIEW16, path) == Some(2);
  }

  /** Every other instruction is an uninterpreted step or a label. */
  lemma OtherActs(p: Program, k: nat, env: Env)
    requires ThePrograms(p) && k < 6 && k != 2 && k != 3
    ensures Op(p.code[k]) != LOAD && Op(p.code[k]) != CONTROL_BARRIER
    ensures Op(p.code[k]) == LABEL ==> |p.code[k]| == 2
    ensures Op(p.code[k]) == LABEL || Act(p.statics, TheWorld(), 0, p.code[k], env) == External
  {
    hide TheWorld;
    if k == 0 { assert p.code[k] == Body()[0]; }
    if k == 1 { assert p.code[k] == Body()[1]; }
    if k == 4 { assert p.code[k] == Body()[4]; }
    if k == 5 { assert p.code[k] == Body()[5]; }
  }

  lemma StepGood(p: Program, lanes: nat, c: Config, choice: Choice)
    requires ThePrograms(p) && Good(p, c) && Exec(p, TheWorld(), lanes, c, choice).Some?
    ensures Good(p, Exec(p, TheWorld(), lanes, c, choice).value)
  {
    hide Act, Body;
    NoBarrier(p);
    match choice {
      case Sync(g) =>
        NoSync(p, c, lanes, g);
      case Invoke(i) =>
        var l := c.locals[0];
        BodySize();
        if l.pc == 2 {
          ChainActs(p, l.env);
        } else if l.pc == 3 {
          LoadActs(p, l.env);
        } else {
          OtherActs(p, l.pc, l.env);
          OtherStep(p, l, c.mem, c.log);
        }
    }
  }

  lemma NoSync(p: Program, c: Config, lanes: nat, g: nat)
    requires forall k :: 0 <= k < |p.code| ==> Op(p.code[k]) != CONTROL_BARRIER
    ensures !CanSync(p, c, lanes, g)
  {
    if 0 < lanes && g * lanes + lanes <= |c.locals| { assert !AtBarrier(p, c.locals[g * lanes]); }
  }

  /** It goes one on, or stops. */
  lemma OtherStep(p: Program, l: Local, mem: Mem, log: seq<Write>)
    requires CanStep(p, l) && (Op(p.code[l.pc]) == LABEL || Act(p.statics, TheWorld(), 0, p.code[l.pc], l.env) == External)
    requires Op(p.code[l.pc]) == LABEL ==> |p.code[l.pc]| == 2
    ensures var s := StepLocal(p, TheWorld(), 0, l, mem, log); !s.local.status.Faulted? && (s.local.pc == l.pc || s.local.pc == l.pc + 1)
  {
    hide Act, View, Reads;
  }

  lemma BodySize()
    ensures |Body()| == 6 && Op(Body()[2]) == ACCESS_CHAIN && Op(Body()[3]) == LOAD
  {}

  lemma NoBarrier(p: Program)
    requires ThePrograms(p)
    ensures forall k :: 0 <= k < |p.code| ==> Op(p.code[k]) != CONTROL_BARRIER
  {
    forall k | 0 <= k < |p.code| ensures Op(p.code[k]) != CONTROL_BARRIER { assert p.code[k] == Body()[k]; }
  }

  lemma {:induction false} RunGood(p: Program, lanes: nat, c: Config, schedule: seq<Choice>)
    requires ThePrograms(p) && Good(p, c) && Run(p, TheWorld(), lanes, c, schedule).Some?
    ensures Good(p, Run(p, TheWorld(), lanes, c, schedule).value)
    decreases |schedule|
  {
    hide Exec, Good, ThePrograms, TheWorld;
    if schedule != [] {
      StepGood(p, lanes, c, schedule[0]);
      RunGood(p, lanes, Exec(p, TheWorld(), lanes, c, schedule[0]).value, schedule[1..]);
    }
  }

  lemma TheProgramIs()
    ensures ThePrograms(ProgramOf(TheWorld(), TheModule().insts, [], TheTable()))
  {
    hide TheModule, TheWorld, Consts, Moduli, Quads, Buffers, SizeOf, Code, Body, GoodIds, OneWord;
    DeclaredIds();
    NotConstant();
    ViewConstants();
    ViewBuffers();
    OneDeclared();
  }

  lemma OneDeclared()
    ensures 1 in TheStatics().consts && TheStatics().consts[1] == Scalar(1)
    ensures 16 in TheStatics().moduli && TheStatics().moduli[16] == 0x1_0000
  {
    hide TheModule, TheWorld, Consts, Moduli, Quads, Buffers, SizeOf, Code, GoodIds, OneWord, Globals;
    Sized();
    GlobalCuts();
    GlobalsFirst();
    TheGoodIds();
    OneWords();
    var insts := TheModule().insts;
    assert insts[8] == Constants()[0] && insts[6] == Types1()[2];
    assert HasConst(insts, 1, 1) by { assert ConstDecl(insts[8], 1, 1); }
    assert HasInt(insts, 16, 16) by { assert IsInt(insts[6], 16) && insts[6][1] == 16; }
    HasConstMeans(TheWorld(), SpecializationOf(insts, []), insts, BOUND, 1, 1);
    HasIntMeans(insts, BOUND, 16, 16);
  }

  lemma GlobalsFirst()
    ensures |Globals()| == 13 && forall k :: 0 <= k < 13 ==> k < |TheModule().insts| && TheModule().insts[k] == Globals()[k]
  {
    hide Globals, Body;
    GlobalCuts();
    assert TheModule().insts == Globals() + Body();
  }

  lemma TheSafe()
    ensures var p := ProgramOf(TheWorld(), TheModule().insts, [], TheTable()); Safe(p, TheWorld(), 1, Start(p, 401, 1, map[]))
  {
    hide ThePrograms, Run, TheWorld, TheModule, StaticsOf, Code;
    TheProgramIs();
    var p := ProgramOf(TheWorld(), TheModule().insts, [], TheTable());
    var c := Start(p, 401, 1, map[]);
    StartGood(p);
    forall schedule | Run(p, TheWorld(), 1, c, schedule).Some? ensures NoFault(Run(p, TheWorld(), 1, c, schedule).value) {
      RunGood(p, 1, c, schedule);
    }
  }

  lemma StartGood(p: Program)
    requires ThePrograms(p)
    ensures Good(p, Start(p, 401, 1, map[]))
  {
    assert Body()[1..][0] == Body()[1];
    assert FindLabel(Body(), 401) == 1 by { assert FindLabel(Body()[1..], 401) == 0; }
  }

  /** One module that lowers a load, one dispatch and one world meet every premise
      of the compiler's theorems. */
  lemma CompilerPremisesMet()
    ensures var w, m, table := TheWorld(), TheModule(), TheTable(); var p := ProgramOf(w, m.insts, [], table);
      && Reconstruction.Sound(w, m, [], [], table) && Reconstruction.Effective(m, [], []).Ok?
      && Reconstruction.Closing(m, []).Ok? && Applies(Reconstruction.Closing(m, []).value)
      && Safe(p, w, 1, Start(p, 401, 1, map[]))
  {
    hide *;
    TheSound();
    Returns();
    Closes();
    StageApplies();
    TheSafe();
  }
}
