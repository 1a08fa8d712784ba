/** Stage 3 is a refinement: each eleven-instruction replacement leaves in the
    load's result the value that the 16-bit load left there. */
module Storage16Sound {
  import opened Words
  import opened Ops
  import opened Machine
  import opened Translation
  import opened Reproduction
  import opened Meaning
  import opened Storage16

  // ---- arithmetic ----

  lemma {:induction false} OrZero(b: nat)
    ensures Or(0, b) == b
  {
    if b > 0 { OrZero(b / 2); }
  }

  lemma OrEven(lo: nat, c: nat)
    ensures Or(lo, 2 * c) == lo % 2 + 2 * Or(lo / 2, c)
  {
    assert 2 * c / 2 == c && 2 * c % 2 == 0;
    if lo == 0 && c == 0 {}
  }

  /** Or of parts that do not overlap is their sum. */
  lemma {:induction false} OrDisjoint(lo: nat, hi: nat, n: nat)
    requires lo < Pow2(n)
    ensures Or(lo, Pow2(n) * hi) == lo + Pow2(n) * hi
    decreases n
  {
    if n == 0 {
      OrZero(hi);
    } else {
      hide *;
      var p := Pow2(n - 1);
      Pow2Twice(n);
      OrDisjoint(lo / 2, hi, n - 1);
      OrEven(lo, p * hi);
      TimesTwice(p, hi);
    }
  }

  lemma Pow2Twice(n: nat)
    requires n > 0
    ensures Pow2(n) == 2 * Pow2(n - 1)
  {}

  lemma TimesTwice(p: nat, x: nat)
    ensures 2 * p * x == 2 * (p * x)
  {}

  lemma Pow2Eight()
    ensures Pow2(8) == 256
  {
    assert Pow2(4) == 16;
    assert Pow2(6) == 64;
  }

  /** The reassembly of a 16-bit word from its bytes. */
  lemma Reassemble(b0: nat, b1: nat)
    requires b0 < 256 && b1 < 256
    ensures Arith(SHIFT_LEFT_LOGICAL, b1, 8) % WORD == 256 * b1
    ensures Arith(BITWISE_OR, b0, 256 * b1) % WORD == b0 + 256 * b1
    ensures (b0 + 256 * b1) % 0x1_0000 == b0 + 256 * b1
  {
    hide Or, Pow2;
    Pow2Eight();
    OrDisjoint(b0, b1, 8);
    assert Pow2(8) * b1 == 256 * b1;
  }

  // ---- what the scan finds is declared ----

  ghost predicate Declared16(insts: seq<Inst>, t: Types) {
    && (t.uintT != 0 ==> HasInt(insts, t.uintT, 32))
    && (t.ucharT != 0 ==> HasInt(insts, t.ucharT, 8))
    && (t.ushortT != 0 ==> HasInt(insts, t.ushortT, 16))
    && (t.one != 0 ==> HasConst(insts, t.one, 1))
    && (t.two != 0 ==> HasConst(insts, t.two, 2))
    && (t.eight != 0 ==> HasConst(insts, t.eight, 8))
  }

  lemma Declared16More(a: seq<Inst>, b: seq<Inst>, t: Types)
    requires Declared16(a, t)
    ensures Declared16(a + b, t)
  {
    forall k | 0 <= k < |a| ensures (a + b)[k] == a[k] {}
    if t.uintT != 0 { var k :| 0 <= k < |a| && IsInt(a[k], 32) && a[k][1] == t.uintT; assert IsInt((a + b)[k], 32); }
    if t.ucharT != 0 { var k :| 0 <= k < |a| && IsInt(a[k], 8) && a[k][1] == t.ucharT; assert IsInt((a + b)[k], 8); }
    if t.ushortT != 0 { var k :| 0 <= k < |a| && IsInt(a[k], 16) && a[k][1] == t.ushortT; assert IsInt((a + b)[k], 16); }
    if t.one != 0 { var k :| 0 <= k < |a| && ConstDecl(a[k], t.one, 1); assert ConstDecl((a + b)[k], t.one, 1); }
    if t.two != 0 { var k :| 0 <= k < |a| && ConstDecl(a[k], t.two, 2); assert ConstDecl((a + b)[k], t.two, 2); }
    if t.eight != 0 { var k :| 0 <= k < |a| && ConstDecl(a[k], t.eight, 8); assert ConstDecl((a + b)[k], t.eight, 8); }
  }

  lemma ScanStep(front: seq<Inst>, inst: Inst, insts: seq<Inst>)
    requires insts == front + [inst] && Declared16(front, Scan(front))
    ensures Declared16(insts, See(Scan(front), inst, |insts|))
  {
    var t, last := Scan(front), insts[|front|];
    Declared16More(front, [inst], t);
    hide Scan;
    assert IsInt(last, 32) ==> HasInt(insts, last[1], 32);
    assert IsInt(last, 8) ==> HasInt(insts, last[1], 8);
    assert IsInt(last, 16) ==> HasInt(insts, last[1], 16);
    assert Op(last) == CONSTANT && |last| >= 4 ==> ConstDecl(last, last[2], last[3]) && HasConst(insts, last[2], last[3]);
  }

  lemma {:induction false} ScanDeclared(insts: seq<Inst>)
    ensures Declared16(insts, Scan(insts))
  {
    if insts == [] {
    } else {
      ScanDeclared(insts[..|insts| - 1]);
      ScanStep(insts[..|insts| - 1], insts[|insts| - 1], insts);
    }
  }

  lemma TypesDeclared(insts: seq<Inst>)
    ensures Declared16(insts, TypesOf(insts))
  {
    var k := FunctionAt(insts);
    ScanDeclared(insts[..k]);
    Declared16More(insts[..k], insts[k..], TypesOf(insts));
    assert insts[..k] + insts[k..] == insts;
  }

  // ---- the block ----

  /** The two views of the block buffer, as bytes: a 16-bit element is the two
      bytes at twice its index, and twice its index plus one fits in 32 bits. */
  ghost predicate ViewsAgree(w: World) {
    forall a: Val, b: Val, c: Val, k: Val :: w.layout(VIEW16, [a, b, c, k]).Some? ==>
      && k.Scalar? && 2 * k.w + 1 < WORD
      && w.layout(VIEW8, [a, b, c, Scalar(2 * k.w)]) == w.layout(VIEW16, [a, b, c, k])
      && w.layout(VIEW8, [a, b, c, Scalar(2 * k.w + 1)]) == Some(w.layout(VIEW16, [a, b, c, k]).value + 1)
  }

  /** Both views are bound to one buffer that nobody writes. */
  ghost predicate ViewsBound(w: World, st: Statics) {
    && VIEW8 in st.consts && st.consts[VIEW8] == Ptr(VIEW8, [])
    && VIEW16 in st.consts && st.consts[VIEW16] == Ptr(VIEW16, [])
    && VIEW8 in st.buffers && VIEW16 in st.buffers && st.buffers[VIEW8] == st.buffers[VIEW16]
    && st.buffers[VIEW16] in w.rom
    && (forall i :: 0 <= i < |w.rom[st.buffers[VIEW16]]| ==> w.rom[st.buffers[VIEW16]][i] < 256)
    && w.debug != VIEW8 && w.debug != VIEW16
    && ViewsAgree(w)
  }

  /** The ids the replacement relies on mean what the scan took them for. */
  ghost predicate TypesMean(st: Statics, t: Types) {
    && t.uintT in st.moduli && st.moduli[t.uintT] == WORD
    && t.ucharT in st.moduli && st.moduli[t.ucharT] == 0x100
    && t.ushortT in st.moduli && st.moduli[t.ushortT] == 0x1_0000
    && t.one in st.consts && st.consts[t.one] == Scalar(1)
    && t.two in st.consts && st.consts[t.two] == Scalar(2)
    && t.eight in st.consts && st.consts[t.eight] == Scalar(8)
  }

  function BlockIds(n: nat, result: nat): seq<nat> {
    [n, n + 1, n + 2, n + 3, n + 4, n + 5, n + 6, n + 7, n + 8, n + 9, result]
  }

  /** What the replacement computes, from the index and the two bytes. */
  function BlockVals(base: seq<Val>, k: nat, b0: nat, b1: nat): seq<Val> {
    [Scalar(2 * k), Ptr(VIEW8, base + [Scalar(2 * k)]), Scalar(b0), Scalar(b0),
     Scalar(2 * k + 1), Ptr(VIEW8, base + [Scalar(2 * k + 1)]), Scalar(b1), Scalar(b1),
     Scalar(256 * b1), Scalar(b0 + 256 * b1), Scalar(b0 + 256 * b1)]
  }

  /** A byte of the buffer, as the 8-bit view loads it. */
  lemma RomByte(w: World, buffer: nat, root: nat, path: seq<Val>, at: nat)
    requires buffer in w.rom && w.layout(root, path) == Some(at) && at < |w.rom[buffer]|
    ensures RomValue(w, buffer, root, path, 0x100) == Some(Scalar(w.rom[buffer][at]))
  {
    var s := w.rom[buffer][at..at + 1];
    assert s[1..] == [];
    assert LittleEndian(s) == s[0];
  }

  lemma RomShort(w: World, buffer: nat, root: nat, path: seq<Val>, at: nat)
    requires buffer in w.rom && w.layout(root, path) == Some(at) && at + 2 <= |w.rom[buffer]|
    ensures RomValue(w, buffer, root, path, 0x1_0000) == Some(Scalar(w.rom[buffer][at] + 256 * w.rom[buffer][at + 1]))
  {
    var s := w.rom[buffer][at..at + 2];
    assert s[1..][1..] == [];
    assert LittleEndian(s[1..]) == s[1];
  }

  /** The replacement of `chain` and `load` is entered with `env`: the indices
      are `base` and `k`, and the bytes its two loads reach are `b0` and `b1`. */
  ghost predicate Entered(st: Statics, w: World, c: Lowering, chain: Inst, load: Inst, n: nat, env: Env,
                          base: seq<Val>, k: nat, b0: nat, b1: nat) {
    && |chain| == 8 && |load| == 4 && n + 10 <= ID_LIMIT && |base| == 3
    && TypesMean(st, c.t)
    && (forall id :: id in st.consts ==> id < n)
    && VIEW8 in st.consts && st.consts[VIEW8] == Ptr(VIEW8, []) && VIEW8 != w.debug
    && VIEW8 in st.buffers && st.buffers[VIEW8] in w.rom
    && chain[4] < n && chain[5] < n && chain[6] < n && chain[7] < n
    && Lookup(st, env, chain[4]) == base[0] && Lookup(st, env, chain[5]) == base[1] && Lookup(st, env, chain[6]) == base[2]
    && Lookup(st, env, chain[7]) == Scalar(k) && 2 * k + 1 < WORD
    && b0 < 256 && b1 < 256
    && RomValue(w, st.buffers[VIEW8], VIEW8, base + [Scalar(2 * k)], 0x100) == Some(Scalar(b0))
    && RomValue(w, st.buffers[VIEW8], VIEW8, base + [Scalar(2 * k + 1)], 0x100) == Some(Scalar(b1))
  }

  lemma OldLookup(st: Statics, env: Env, n: nat, result: nat, vals: seq<Val>, i: nat, id: nat)
    requires i <= 10 && |vals| == 11 && (id < n || id in st.consts)
    ensures Lookup(st, EnvAt(env, BlockIds(n, result), vals, i), id) == Lookup(st, env, id)
  {
    if id !in st.consts {
      EnvAtOther(env, BlockIds(n, result), vals, i, id);
    }
  }

  lemma NewLookup(st: Statics, env: Env, n: nat, result: nat, vals: seq<Val>, i: nat, j: nat)
    requires j < i <= 10 && |vals| == 11
    requires forall id :: id in st.consts ==> id < n
    ensures Lookup(st, EnvAt(env, BlockIds(n, result), vals, i), n + j) == vals[j]
  {
    EnvAtSet(env, BlockIds(n, result), vals, i, j);
  }

  /** Instruction `i` of the replacement sets its id to its value. */
  ghost predicate SetsAt(st: Statics, w: World, c: Lowering, chain: Inst, load: Inst, n: nat, env: Env,
                         base: seq<Val>, k: nat, b0: nat, b1: nat, inv: nat, i: nat)
    requires |chain| == 8 && |load| == 4 && n + 10 <= ID_LIMIT && i < 11
  {
    var ids, vals := BlockIds(n, load[2]), BlockVals(base, k, b0, b1);
    Act(st, w, inv, Lowered(c, chain, load, n)[i], EnvAt(env, ids, vals, i)) == Set(ids[i], vals[i])
  }

  lemma Sets0(st: Statics, w: World, c: Lowering, chain: Inst, load: Inst, n: nat, env: Env, base: seq<Val>, k: nat, b0: nat, b1: nat, inv: nat)
    requires Entered(st, w, c, chain, load, n, env, base, k, b0, b1)
    ensures SetsAt(st, w, c, chain, load, n, env, base, k, b0, b1, inv, 0)
  {
    var vals := BlockVals(base, k, b0, b1);
    var env' := EnvAt(env, BlockIds(n, load[2]), vals, 0);
    var inst := Lowered(c, chain, load, n)[0];
    OldLookup(st, env, n, load[2], vals, 0, chain[7]);
    OldLookup(st, env, n, load[2], vals, 0, c.t.two);
    ActArith(st, w, inv, inst, env', k, 2);
  }

  lemma Sets1(st: Statics, w: World, c: Lowering, chain: Inst, load: Inst, n: nat, env: Env, base: seq<Val>, k: nat, b0: nat, b1: nat, inv: nat)
    requires Entered(st, w, c, chain, load, n, env, base, k, b0, b1)
    ensures SetsAt(st, w, c, chain, load, n, env, base, k, b0, b1, inv, 1)
  {
    var vals := BlockVals(base, k, b0, b1);
    var env' := EnvAt(env, BlockIds(n, load[2]), vals, 1);
    var inst := Lowered(c, chain, load, n)[1];
    OldLookup(st, env, n, load[2], vals, 1, VIEW8);
    OldLookup(st, env, n, load[2], vals, 1, chain[4]);
    OldLookup(st, env, n, load[2], vals, 1, chain[5]);
    OldLookup(st, env, n, load[2], vals, 1, chain[6]);
    NewLookup(st, env, n, load[2], vals, 1, 0);
    assert Lookups(st, env', inst[4..]) == base + [Scalar(2 * k)];
    ActChain(st, w, inv, inst, env', VIEW8, base + [Scalar(2 * k)]);
  }

  lemma Sets5(st: Statics, w: World, c: Lowering, chain: Inst, load: Inst, n: nat, env: Env, base: seq<Val>, k: nat, b0: nat, b1: nat, inv: nat)
    requires Entered(st, w, c, chain, load, n, env, base, k, b0, b1)
    ensures SetsAt(st, w, c, chain, load, n, env, base, k, b0, b1, inv, 5)
  {
    var vals := BlockVals(base, k, b0, b1);
    var env' := EnvAt(env, BlockIds(n, load[2]), vals, 5);
    var inst := Lowered(c, chain, load, n)[5];
    OldLookup(st, env, n, load[2], vals, 5, VIEW8);
    OldLookup(st, env, n, load[2], vals, 5, chain[4]);
    OldLookup(st, env, n, load[2], vals, 5, chain[5]);
    OldLookup(st, env, n, load[2], vals, 5, chain[6]);
    NewLookup(st, env, n, load[2], vals, 5, 4);
    assert Lookups(st, env', inst[4..]) == base + [Scalar(2 * k + 1)];
    ActChain(st, w, inv, inst, env', VIEW8, base + [Scalar(2 * k + 1)]);
  }

  lemma Sets2(st: Statics, w: World, c: Lowering, chain: Inst, load: Inst, n: nat, env: Env, base: seq<Val>, k: nat, b0: nat, b1: nat, inv: nat)
    requires Entered(st, w, c, chain, load, n, env, base, k, b0, b1)
    ensures SetsAt(st, w, c, chain, load, n, env, base, k, b0, b1, inv, 2)
  {
    var vals := BlockVals(base, k, b0, b1);
    var env' := EnvAt(env, BlockIds(n, load[2]), vals, 2);
    var inst := Lowered(c, chain, load, n)[2];
    NewLookup(st, env, n, load[2], vals, 2, 1);
    ActRomLoad(st, w, inv, inst, env', VIEW8, base + [Scalar(2 * k)]);
  }

  lemma Sets6(st: Statics, w: World, c: Lowering, chain: Inst, load: Inst, n: nat, env: Env, base: seq<Val>, k: nat, b0: nat, b1: nat, inv: nat)
    requires Entered(st, w, c, chain, load, n, env, base, k, b0, b1)
    ensures SetsAt(st, w, c, chain, load, n, env, base, k, b0, b1, inv, 6)
  {
    var vals := BlockVals(base, k, b0, b1);
    var env' := EnvAt(env, BlockIds(n, load[2]), vals, 6);
    var inst := Lowered(c, chain, load, n)[6];
    NewLookup(st, env, n, load[2], vals, 6, 5);
    ActRomLoad(st, w, inv, inst, env', VIEW8, base + [Scalar(2 * k + 1)]);
  }

  lemma Sets3(st: Statics, w: World, c: Lowering, chain: Inst, load: Inst, n: nat, env: Env, base: seq<Val>, k: nat, b0: nat, b1: nat, inv: nat)
    requires Entered(st, w, c, chain, load, n, env, base, k, b0, b1)
    ensures SetsAt(st, w, c, chain, load, n, env, base, k, b0, b1, inv, 3)
  {
    var vals := BlockVals(base, k, b0, b1);
    var env' := EnvAt(env, BlockIds(n, load[2]), vals, 3);
    var inst := Lowered(c, chain, load, n)[3];
    NewLookup(st, env, n, load[2], vals, 3, 2);
    ActConvert(st, w, inv, inst, env', b0);
  }

  lemma Sets7(st: Statics, w: World, c: Lowering, chain: Inst, load: Inst, n: nat, env: Env, base: seq<Val>, k: nat, b0: nat, b1: nat, inv: nat)
    requires Entered(st, w, c, chain, load, n, env, base, k, b0, b1)
    ensures SetsAt(st, w, c, chain, load, n, env, base, k, b0, b1, inv, 7)
  {
    var vals := BlockVals(base, k, b0, b1);
    var env' := EnvAt(env, BlockIds(n, load[2]), vals, 7);
    var inst := Lowered(c, chain, load, n)[7];
    NewLookup(st, env, n, load[2], vals, 7, 6);
    ActConvert(st, w, inv, inst, env', b1);
  }

  lemma Sets4(st: Statics, w: World, c: Lowering, chain: Inst, load: Inst, n: nat, env: Env, base: seq<Val>, k: nat, b0: nat, b1: nat, inv: nat)
    requires Entered(st, w, c, chain, load, n, env, base, k, b0, b1)
    ensures SetsAt(st, w, c, chain, load, n, env, base, k, b0, b1, inv, 4)
  {
    var vals := BlockVals(base, k, b0, b1);
    var env' := EnvAt(env, BlockIds(n, load[2]), vals, 4);
    var inst := Lowered(c, chain, load, n)[4];
    OldLookup(st, env, n, load[2], vals, 4, c.t.one);
    NewLookup(st, env, n, load[2], vals, 4, 0);
    ActArith(st, w, inv, inst, env', 2 * k, 1);
  }

  lemma Sets8(st: Statics, w: World, c: Lowering, chain: Inst, load: Inst, n: nat, env: Env, base: seq<Val>, k: nat, b0: nat, b1: nat, inv: nat)
    requires Entered(st, w, c, chain, load, n, env, base, k, b0, b1)
    ensures SetsAt(st, w, c, chain, load, n, env, base, k, b0, b1, inv, 8)
  {
    var vals := BlockVals(base, k, b0, b1);
    var env' := EnvAt(env, BlockIds(n, load[2]), vals, 8);
    var inst := Lowered(c, chain, load, n)[8];
    OldLookup(st, env, n, load[2], vals, 8, c.t.eight);
    NewLookup(st, env, n, load[2], vals, 8, 7);
    Reassemble(b0, b1);
    ActArith(st, w, inv, inst, env', b1, 8);
  }

  lemma Sets9(st: Statics, w: World, c: Lowering, chain: Inst, load: Inst, n: nat, env: Env, base: seq<Val>, k: nat, b0: nat, b1: nat, inv: nat)
    requires Entered(st, w, c, chain, load, n, env, base, k, b0, b1)
    ensures SetsAt(st, w, c, chain, load, n, env, base, k, b0, b1, inv, 9)
  {
    var vals := BlockVals(base, k, b0, b1);
    var env' := EnvAt(env, BlockIds(n, load[2]), vals, 9);
    var inst := Lowered(c, chain, load, n)[9];
    NewLookup(st, env, n, load[2], vals, 9, 3);
    NewLookup(st, env, n, load[2], vals, 9, 8);
    Reassemble(b0, b1);
    ActArith(st, w, inv, inst, env', b0, 256 * b1);
  }

  lemma Sets10(st: Statics, w: World, c: Lowering, chain: Inst, load: Inst, n: nat, env: Env, base: seq<Val>, k: nat, b0: nat, b1: nat, inv: nat)
    requires Entered(st, w, c, chain, load, n, env, base, k, b0, b1)
    ensures SetsAt(st, w, c, chain, load, n, env, base, k, b0, b1, inv, 10)
  {
    var vals := BlockVals(base, k, b0, b1);
    var env' := EnvAt(env, BlockIds(n, load[2]), vals, 10);
    var inst := Lowered(c, chain, load, n)[10];
    NewLookup(st, env, n, load[2], vals, 10, 9);
    Reassemble(b0, b1);
    ActConvert(st, w, inv, inst, env', b0 + 256 * b1);
  }

  lemma SetsLow(st: Statics, w: World, c: Lowering, chain: Inst, load: Inst, n: nat, env: Env, base: seq<Val>, k: nat, b0: nat, b1: nat, inv: nat)
    requires Entered(st, w, c, chain, load, n, env, base, k, b0, b1)
    ensures forall i :: 0 <= i < 5 ==> SetsAt(st, w, c, chain, load, n, env, base, k, b0, b1, inv, i)
  {
    Sets0(st, w, c, chain, load, n, env, base, k, b0, b1, inv);
    Sets1(st, w, c, chain, load, n, env, base, k, b0, b1, inv);
    Sets2(st, w, c, chain, load, n, env, base, k, b0, b1, inv);
    Sets3(st, w, c, chain, load, n, env, base, k, b0, b1, inv);
    Sets4(st, w, c, chain, load, n, env, base, k, b0, b1, inv);
  }

  lemma SetsHigh(st: Statics, w: World, c: Lowering, chain: Inst, load: Inst, n: nat, env: Env, base: seq<Val>, k: nat, b0: nat, b1: nat, inv: nat)
    requires Entered(st, w, c, chain, load, n, env, base, k, b0, b1)
    ensures forall i :: 5 <= i < 11 ==> SetsAt(st, w, c, chain, load, n, env, base, k, b0, b1, inv, i)
  {
    Sets5(st, w, c, chain, load, n, env, base, k, b0, b1, inv);
    Sets6(st, w, c, chain, load, n, env, base, k, b0, b1, inv);
    Sets7(st, w, c, chain, load, n, env, base, k, b0, b1, inv);
    Sets8(st, w, c, chain, load, n, env, base, k, b0, b1, inv);
    Sets9(st, w, c, chain, load, n, env, base, k, b0, b1, inv);
    Sets10(st, w, c, chain, load, n, env, base, k, b0, b1, inv);
  }

  /** The replacement runs to its end and each instruction of it computes what
      it should. */
  lemma LoweredRuns(st: Statics, w: World, c: Lowering, chain: Inst, load: Inst, n: nat, env: Env, base: seq<Val>, k: nat, b0: nat, b1: nat, inv: nat)
    requires Entered(st, w, c, chain, load, n, env, base, k, b0, b1)
    ensures RunQuiet(st, w, inv, Lowered(c, chain, load, n), env) ==
        Done(EnvAt(env, BlockIds(n, load[2]), BlockVals(base, k, b0, b1), 11), [])
  {
    var ids, vals, block := BlockIds(n, load[2]), BlockVals(base, k, b0, b1), Lowered(c, chain, load, n);
    SetsLow(st, w, c, chain, load, n, env, base, k, b0, b1, inv);
    SetsHigh(st, w, c, chain, load, n, env, base, k, b0, b1, inv);
    forall i | 0 <= i < 11
      ensures Act(st, w, inv, block[i], EnvAt(env, ids, vals, i)) == Set(ids[i], vals[i])
    {
      assert SetsAt(st, w, c, chain, load, n, env, base, k, b0, b1, inv, i);
    }
    QuietSets(st, w, inv, block, env, ids, vals, 0);
    assert block[0..] == block;
  }

  // ---- the pair against its replacement ----

  /** A 16-bit load from the block view, adjacent to the chain that points at it. */
  predicate ViewPair(chain: Inst, load: Inst) {
    Op(chain) == ACCESS_CHAIN && |chain| == 8 && chain[3] == VIEW16 && Op(load) == LOAD && |load| == 4 && load[3] == chain[2]
  }

  /** What the original pair does: it loads the short that the two bytes make,
      or faults. */
  lemma PairRuns(st: Statics, w: World, inv: nat, chain: Inst, load: Inst, env: Env, base: seq<Val>, k: Val)
    requires ViewPair(chain, load) && ViewsBound(w, st) && |base| == 3
    requires load[1] in st.moduli && st.moduli[load[1]] == 0x1_0000 && chain[2] !in st.consts
    requires Lookups(st, env, chain[4..]) == base + [k]
    ensures var v := RomValue(w, st.buffers[VIEW16], VIEW16, base + [k], 0x1_0000);
      RunQuiet(st, w, inv, [chain, load], env) ==
        if v.Some? then Done(env[chain[2] := Ptr(VIEW16, base + [k])][load[2] := v.value], []) else Broken
  {
    ActChain(st, w, inv, chain, env, VIEW16, base + [k]);
    var env1 := env[chain[2] := Ptr(VIEW16, base + [k])];
    ActRomLoad(st, w, inv, load, env1, VIEW16, base + [k]);
    var two: seq<Inst>, one: seq<Inst>, none: seq<Inst> := [chain, load], [load], [];
    assert two[1..] == one && one[1..] == none;
    assert RunQuiet(st, w, inv, two, env) == RunQuiet(st, w, inv, one, env1);
    var v := RomValue(w, st.buffers[VIEW16], VIEW16, base + [k], 0x1_0000);
    if v.Some? {
      var env2 := env1[load[2] := v.value];
      assert RunQuiet(st, w, inv, none, env2) == Done(env2, []);
      assert RunQuiet(st, w, inv, one, env1) == RunQuiet(st, w, inv, none, env2);
    } else {
      assert RunQuiet(st, w, inv, one, env1) == Broken;
    }
  }

  /** A valid short has two valid bytes behind it. */
  lemma ShortBytes(st: Statics, w: World, base: seq<Val>, k: Val) returns (b0: nat, b1: nat)
    requires ViewsBound(w, st) && |base| == 3
    requires RomValue(w, st.buffers[VIEW16], VIEW16, base + [k], 0x1_0000).Some?
    ensures b0 < 256 && b1 < 256 && k.Scalar? && 2 * k.w + 1 < WORD
    ensures RomValue(w, st.buffers[VIEW16], VIEW16, base + [k], 0x1_0000) == Some(Scalar(b0 + 256 * b1))
    ensures RomValue(w, st.buffers[VIEW8], VIEW8, base + [Scalar(2 * k.w)], 0x100) == Some(Scalar(b0))
    ensures RomValue(w, st.buffers[VIEW8], VIEW8, base + [Scalar(2 * k.w + 1)], 0x100) == Some(Scalar(b1))
  {
    assert base + [k] == [base[0], base[1], base[2], k];
    var at := w.layout(VIEW16, base + [k]).value;
    assert base + [Scalar(2 * k.w)] == [base[0], base[1], base[2], Scalar(2 * k.w)];
    assert base + [Scalar(2 * k.w + 1)] == [base[0], base[1], base[2], Scalar(2 * k.w + 1)];
    var buffer := st.buffers[VIEW16];
    b0, b1 := w.rom[buffer][at], w.rom[buffer][at + 1];
    RomShort(w, buffer, VIEW16, base + [k], at);
    RomByte(w, buffer, VIEW8, base + [Scalar(2 * k.w)], at);
    RomByte(w, buffer, VIEW8, base + [Scalar(2 * k.w + 1)], at + 1);
  }

  /** The pair may be replaced: its ids are known to both programs, its pointer
      is not a constant and is forgotten, and the fresh ids are new. */
  ghost predicate Replaceable(t: Rewrite, w: World, c: Lowering, chain: Inst, load: Inst, n: nat) {
    && ViewPair(chain, load) && load[1] == c.t.ushortT && n + 10 <= ID_LIMIT
    && t.before == t.after && !t.hidden && TypesMean(t.before, c.t) && ViewsBound(w, t.before)
    && t.scope.bound <= n && (forall id :: id in t.before.consts ==> id < t.scope.bound)
    && (forall id :: id in Reads(w, chain) ==> t.scope.Visible(id))
    && chain[2] in t.scope.gone && chain[2] !in t.before.consts
  }

  lemma ChainReads(w: World, chain: Inst, i: nat)
    requires Op(chain) == ACCESS_CHAIN && |chain| == 8 && 3 <= i < 8
    ensures chain[i] in Reads(w, chain)
  {
    assert chain[3..][i - 3] == chain[i];
  }

  lemma LoweredHolds(t: Rewrite, w: World, c: Lowering, chain: Inst, load: Inst, n: nat, inv: nat, e': Env, e: Env)
    requires Replaceable(t, w, c, chain, load, n)
    ensures BlockHolds(t, w, Unit([chain, load], Lowered(c, chain, load, n)), inv, e', e)
  {
    hide RunQuiet, Lowered, EnvAt, BlockIds, BlockVals, RomValue;
    if Agree(t, e', e) {
      var st := t.before;
      var base := [Lookup(st, e, chain[4]), Lookup(st, e, chain[5]), Lookup(st, e, chain[6])];
      var k := Lookup(st, e, chain[7]);
      assert Lookups(st, e, chain[4..]) == base + [k];
      PairRuns(st, w, inv, chain, load, e, base, k);
      var v := RomValue(w, st.buffers[VIEW16], VIEW16, base + [k], 0x1_0000);
      if v.Some? {
        var b0, b1 := ShortBytes(st, w, base, k);
        ChainReads(w, chain, 4);
        ChainReads(w, chain, 5);
        ChainReads(w, chain, 6);
        ChainReads(w, chain, 7);
        LoweredRuns(st, w, c, chain, load, n, e', base, k.w, b0, b1, inv);
        LoweredAgree(t, w, c, chain, load, n, e', e, base, k.w, b0, b1, Ptr(VIEW16, base + [k]));
      }
    }
  }

  lemma LoweredAgree(t: Rewrite, w: World, c: Lowering, chain: Inst, load: Inst, n: nat, e': Env, e: Env,
                     base: seq<Val>, k: nat, b0: nat, b1: nat, ptr: Val)
    requires Replaceable(t, w, c, chain, load, n) && Agree(t, e', e)
    ensures Agree(t, EnvAt(e', BlockIds(n, load[2]), BlockVals(base, k, b0, b1), 11),
                  e[chain[2] := ptr][load[2] := Scalar(b0 + 256 * b1)])
  {
    var ids, vals := BlockIds(n, load[2]), BlockVals(base, k, b0, b1);
    var r', r := EnvAt(e', ids, vals, 11), e[chain[2] := ptr][load[2] := Scalar(b0 + 256 * b1)];
    forall id | t.scope.Visible(id)
      ensures Lookup(t.after, r', id) == Lookup(t.before, r, id)
    {
      if id == load[2] {
        EnvAtSet(e', ids, vals, 11, 10);
      } else {
        EnvAtOther(e', ids, vals, 11, id);
      }
      assert Lookup(t.after, e', id) == Lookup(t.before, e, id);
    }
  }

  // ---- the whole module ----

  /** A unit of the rewrite: the added declaration, a copied instruction that
      belongs to no match, or a match. */
  ghost predicate Kind(c: Lowering, insts: seq<Inst>, unit: Unit, j: nat, n: nat) {
    || unit == Unit([], [PtrType(c)])
    || (j < |insts| && !Matches(c.t, insts, j) && (j == 0 || !Matches(c.t, insts, j - 1)) && unit == Unit([insts[j]], [insts[j]]))
    || (Matches(c.t, insts, j) && n + 10 <= ID_LIMIT && unit == Unit([insts[j], insts[j + 1]], Lowered(c, insts[j], insts[j + 1], n)))
  }

  lemma KindHere(c: Lowering, insts: seq<Inst>, k: nat, n: nat, u: nat)
    requires n + 10 * Count(c.t, insts, k) <= ID_LIMIT && k < |insts| && u <= |Added(c, k)|
    requires k == 0 || !Matches(c.t, insts, k - 1)
    ensures Matches(c.t, insts, k) ==> n + 10 <= ID_LIMIT
    ensures n + Fresh(c.t, insts, k) <= n + 10 * Count(c.t, insts, k)
    ensures Kind(c, insts, (Added(c, k) + [UnitAt(c, insts, k, n)])[u], k, n)
  {
    CountStep(c.t, insts, k);
  }

  lemma StepPast(c: Lowering, insts: seq<Inst>, k: nat, n: nat)
    requires n + 10 * Count(c.t, insts, k) <= ID_LIMIT && UnitsFrom(c, insts, k, n) != []
    ensures k < |insts| && !Matches(c.t, insts, k + Width(c.t, insts, k) - 1)
  {}

  lemma {:induction false} UnitKind(c: Lowering, insts: seq<Inst>, k: nat, n: nat, u: nat) returns (j: nat, n': nat)
    requires n + 10 * Count(c.t, insts, k) <= ID_LIMIT && u < |UnitsFrom(c, insts, k, n)|
    requires k == 0 || !Matches(c.t, insts, k - 1)
    ensures n <= n' && Kind(c, insts, UnitsFrom(c, insts, k, n)[u], j, n')
    ensures n' + Fresh(c.t, insts, j) <= n + 10 * Count(c.t, insts, k)
    decreases |insts| - k
  {
    hide *;
    StepPast(c, insts, k, n);
    UnitsStep(c, insts, k, n);
    CountStep(c.t, insts, k);
    var before := |Added(c, k)| + 1;
    if u >= before {
      var k', m := k + Width(c.t, insts, k), n + Fresh(c.t, insts, k);
      j, n' := UnitKind(c, insts, k', m, u - before);
    } else {
      j, n' := k, n;
      KindHere(c, insts, k, n, u);
    }
  }

  function Gone(t: Types, insts: seq<Inst>): set<nat> {
    set k | 0 <= k < |insts| && Matches(t, insts, k) :: Pointer(insts[k])
  }

  function Pointer(chain: Inst): nat
    requires |chain| == 8
  {
    chain[2]
  }

  ghost function RewriteOf(w: World, m: Module, entries: seq<Entry>, table: Table): Rewrite
    requires |m.header| == HEADER && Applies(m)
  {
    var st := StaticsOf(w, m.insts, entries, table);
    Rewrite(ExecUnits(Units(m)), Scope(m.Bound(), Gone(TypesOf(m.insts), m.insts)), false, st, st)
  }

  /** A view pointer has no use but the adjacent load, and is no constant. */
  ghost predicate ViewsUsedOnce(w: World, code: seq<Inst>, consts: Env) {
    forall a, b :: 0 <= a < a + 1 == b < |code| && ViewPair(code[a], code[b]) ==>
      code[a][2] !in consts && OnlyReader(w, code, b, code[a][2])
  }

  /** Of all executable instructions, only the one at `at` may read `id`. */
  ghost predicate OnlyReader(w: World, code: seq<Inst>, at: nat, id: nat) {
    forall k :: 0 <= k < |code| && k != at ==> id !in Reads(w, code[k])
  }

  /** What the stage silently relies on. Of the views it asks something only
      where it lowers a load. */
  ghost predicate Ready(w: World, m: Module, entries: seq<Entry>, table: Table) {
    && WellFormed(w, m)
    && (Applies(m) ==> ViewsSound(w, StaticsOf(w, m.insts, entries, table), Code(m.insts)))
  }

  /** Both views of one read-only buffer, and their pointers used once. */
  ghost predicate ViewsSound(w: World, st: Statics, code: seq<Inst>) {
    ViewsBound(w, st) && ViewsUsedOnce(w, code, st.consts)
  }

  lemma TypesKnown(w: World, m: Module, entries: seq<Entry>, table: Table)
    requires WellFormed(w, m) && Applies(m)
    ensures TypesMean(StaticsOf(w, m.insts, entries, table), TypesOf(m.insts))
    ensures forall id :: id in StaticsOf(w, m.insts, entries, table).consts ==> id < m.Bound()
  {
    var t, s := TypesOf(m.insts), SpecializationOf(m.insts, entries);
    TypesDeclared(m.insts);
    HasIntMeans(m.insts, m.Bound(), t.uintT, 32);
    HasIntMeans(m.insts, m.Bound(), t.ucharT, 8);
    HasIntMeans(m.insts, m.Bound(), t.ushortT, 16);
    HasConstMeans(w, s, m.insts, m.Bound(), t.one, 1);
    HasConstMeans(w, s, m.insts, m.Bound(), t.two, 2);
    HasConstMeans(w, s, m.insts, m.Bound(), t.eight, 8);
    ConstsKeys(w, s, m.insts);
  }

  lemma MatchOnlyReader(w: World, m: Module, entries: seq<Entry>, table: Table, k: nat)
    requires Ready(w, m, entries, table) && Applies(m) && Matches(TypesOf(m.insts), m.insts, k)
    ensures OnlyReader(w, Code(m.insts), |Code(m.insts[..k + 1])|, m.insts[k][2])
    ensures m.insts[k][2] !in StaticsOf(w, m.insts, entries, table).consts
  {
    CodeIndex(m.insts, k);
    CodeIndex(m.insts, k + 1);
    var a := |Code(m.insts[..k])|;
    assert ViewPair(Code(m.insts)[a], Code(m.insts)[a + 1]);
  }

  /** No instruction but the load of a match reads a pointer that is dropped. */
  lemma GoneUnread(w: World, m: Module, entries: seq<Entry>, table: Table, j: nat)
    requires Ready(w, m, entries, table) && Applies(m)
    requires j < |m.insts| && !Declarative(Op(m.insts[j]))
    requires j == 0 || !Matches(TypesOf(m.insts), m.insts, j - 1)
    ensures forall id :: id in Reads(w, m.insts[j]) ==> RewriteOf(w, m, entries, table).scope.Visible(id)
  {
    hide Reads, Code;
    var t, insts := TypesOf(m.insts), m.insts;
    CodeIndex(insts, j);
    forall id | id in Reads(w, insts[j])
      ensures id < m.Bound() && id !in Gone(t, insts)
    {
      if id in Gone(t, insts) {
        var k :| 0 <= k < |insts| && Matches(t, insts, k) && insts[k][2] == id;
        MatchOnlyReader(w, m, entries, table, k);
        CodeIndexDiffers(insts, j, k + 1);
      }
    }
  }

  lemma MatchReplaceable(w: World, m: Module, entries: seq<Entry>, table: Table, j: nat, n: nat)
    requires Ready(w, m, entries, table) && Applies(m)
    requires Matches(TypesOf(m.insts), m.insts, j) && FirstId(m) <= n && n + 10 <= ID_LIMIT
    ensures Replaceable(RewriteOf(w, m, entries, table), w, LoweringOf(m), m.insts[j], m.insts[j + 1], n)
  {
    var insts := m.insts;
    TypesKnown(w, m, entries, table);
    GoneUnread(w, m, entries, table, j);
    MatchOnlyReader(w, m, entries, table, j);
    assert Pointer(insts[j]) in Gone(TypesOf(m.insts), insts);
  }

  lemma UnitFits(w: World, m: Module, entries: seq<Entry>, table: Table, u: nat)
    requires Ready(w, m, entries, table) && Applies(m)
    requires u < |ExecUnits(Units(m))|
    ensures UnitOk(RewriteOf(w, m, entries, table), w, ExecUnits(Units(m))[u])
    ensures ExecUnits(Units(m))[u].src != []
  {
    var v := ExecUnitIn(Units(m), u);
    var j, n := UnitKind(LoweringOf(m), m.insts, 0, FirstId(m), v);
    KindFits(w, m, entries, table, Units(m)[v], j, n);
  }

  lemma PtrTypeSilent(c: Lowering)
    ensures Code([PtrType(c)]) == [] && Code([]) == []
  {
    CodeOne(PtrType(c));
  }

  lemma KindFits(w: World, m: Module, entries: seq<Entry>, table: Table, unit: Unit, j: nat, n: nat)
    requires Ready(w, m, entries, table) && Applies(m)
    requires Kind(LoweringOf(m), m.insts, unit, j, n) && FirstId(m) <= n
    requires Code(unit.src) != [] || Code(unit.dst) != []
    ensures Code(unit.src) != [] && UnitOk(RewriteOf(w, m, entries, table), w, Unit(Code(unit.src), Code(unit.dst)))
  {
    var t, c, insts := RewriteOf(w, m, entries, table), LoweringOf(m), m.insts;
    hide RewriteOf, Ready, Applies, Units, LowerModule, LoweringOf, FirstId, Matches, Lowered, Replaceable, Replaced, Code, Reads, PtrType;
    PtrTypeSilent(c);
    if unit == Unit([], [PtrType(c)]) {
    } else if unit == Unit([insts[j]], [insts[j]]) {
      CodeOne(insts[j]);
      GoneUnread(w, m, entries, table, j);
    } else {
      MatchReplaceable(w, m, entries, table, j, n);
      PairUnitOk(t, w, c, insts[j], insts[j + 1], n);
    }
  }

  lemma LoweredExecutable(c: Lowering, chain: Inst, load: Inst, n: nat)
    requires ViewPair(chain, load) && n + 10 <= ID_LIMIT
    ensures Executable(Lowered(c, chain, load, n)) && Executable([chain, load])
    ensures Plain(Lowered(c, chain, load, n)) && Plain([chain, load])
  {}

  lemma PairUnitOk(t: Rewrite, w: World, c: Lowering, chain: Inst, load: Inst, n: nat)
    requires Replaceable(t, w, c, chain, load, n)
    ensures var unit := Unit([chain, load], Lowered(c, chain, load, n));
      Unit(Code(unit.src), Code(unit.dst)) == unit && |Declarations(unit.src)| == 0 && |Declarations(unit.dst)| == 0 && |Ids(unit.dst)| == 0
      && Replaced(t, w, unit)
  {
    hide Plain, Code, BlockHolds, Lowered, Executable;
    var unit := Unit([chain, load], Lowered(c, chain, load, n));
    LoweredExecutable(c, chain, load, n);
    CodeExecutable(unit.src);
    CodeExecutable(unit.dst);
    forall inv: nat, e': Env, e: Env
      ensures BlockHolds(t, w, unit, inv, e', e)
    {
      LoweredHolds(t, w, c, chain, load, n, inv, e', e);
    }
  }

  lemma UnitDeclares(m: Module, u: nat)
    requires m.Valid() && Applies(m) && u < |Units(m)|
    ensures Declarations(Units(m)[u].dst) == Declarations(Units(m)[u].src)
  {
    var c, insts := LoweringOf(m), m.insts;
    var j, n := UnitKind(c, insts, 0, FirstId(m), u);
    if Units(m)[u] == Unit([], [PtrType(c)]) {
      CodeOne(PtrType(c));
    } else if !(Units(m)[u] == Unit([insts[j]], [insts[j]])) {
      LoweredExecutable(c, insts[j], insts[j + 1], n);
      CodeExecutable([insts[j], insts[j + 1]]);
      CodeExecutable(Lowered(c, insts[j], insts[j + 1], n));
    }
  }

  /** But for the pointer type, the declarations stay as they were. */
  lemma LowerDeclares(m: Module)
    requires m.Valid() && Applies(m)
    ensures Declarations(LowerModule(m).insts) == Declarations(m.insts)
    ensures Flatten(Srcs(Units(m))) == m.insts
  {
    var units := Units(m);
    UnitsSrcs(LoweringOf(m), m.insts, 0, FirstId(m));
    assert m.insts[0..] == m.insts;
    forall u | 0 <= u < |units|
      ensures Declarations(units[u].dst) == Declarations(units[u].src)
    {
      UnitDeclares(m, u);
    }
    UnitsDeclarations(units);
  }

  lemma LowerStatics(w: World, m: Module, entries: seq<Entry>, table: Table)
    requires Ready(w, m, entries, table) && Applies(m)
    ensures RewriteOf(w, m, entries, table).Source() == ProgramOf(w, m.insts, entries, table)
    ensures RewriteOf(w, m, entries, table).Target() == ProgramOf(w, LowerModule(m).insts, entries, table)
  {
    ExecUnitsCode(Units(m));
    LowerDeclares(m);
    SameStatics(w, LowerModule(m).insts, m.insts, entries, table);
  }

  lemma LowerCorrect(w: World, m: Module, entries: seq<Entry>, table: Table)
    requires Ready(w, m, entries, table) && Applies(m)
    ensures Correct(RewriteOf(w, m, entries, table), w) && NoFences(RewriteOf(w, m, entries, table))
  {
    var t := RewriteOf(w, m, entries, table);
    forall u | 0 <= u < |t.units|
      ensures UnitOk(t, w, t.units[u]) && t.units[u].src != []
    {
      UnitFits(w, m, entries, table, u);
    }
  }

  /** Stage 3 preserves meaning: under any schedule and for any number of
      invocations, the lowered module does what the source does and nothing
      else, if the source never faults. */
  lemma LowerEquivalent(w: World, m: Module, entries: seq<Entry>, table: Table, lanes: nat, entry: nat, count: nat, mem: Mem)
    requires Ready(w, m, entries, table)
    requires var p := ProgramOf(w, m.insts, entries, table); Safe(p, w, lanes, Start(p, entry, count, mem))
    ensures var p, p' := ProgramOf(w, m.insts, entries, table), ProgramOf(w, LowerModule(m).insts, entries, table);
      Equivalent(p', Start(p', entry, count, mem), p, Start(p, entry, count, mem), w, lanes)
  {
    var p := ProgramOf(w, m.insts, entries, table);
    if Applies(m) {
      LowerStatics(w, m, entries, table);
      LowerCorrect(w, m, entries, table);
      RewriteEquivalent(RewriteOf(w, m, entries, table), w, lanes, entry, count, mem);
    } else {
      RefinesReflexive(p, Start(p, entry, count, mem), w, lanes);
    }
  }
}
