/** What the descriptor rewrite guarantees: distinct bindings, nothing else
    touched, failure exactly when the numbers run out, and the same program once
    the dispatch binds the aliases too. */
module BindingsSound {
  import opened Words
  import opened Ops
  import opened Machine
  import opened Meaning
  import opened Bindings
  import Finite

  // ---- the slots of a stream ----

  /** Operands of the set-0 Binding decorations, in order. */
  function Operands(zero: set<nat>, insts: seq<Inst>): seq<nat> {
    if insts == [] then []
    else (if IsSlot(zero, insts[0]) then [insts[0][3] as nat] else []) + Operands(zero, insts[1..])
  }

  ghost predicate Distinct<T>(s: seq<T>) {
    forall i, j :: 0 <= i < j < |s| ==> s[i] != s[j]
  }

  function Elems(s: seq<nat>): set<nat> {
    set x | x in s
  }

  lemma {:induction false} OperandsAppend(zero: set<nat>, a: seq<Inst>, b: seq<Inst>)
    ensures Operands(zero, a + b) == Operands(zero, a) + Operands(zero, b)
  {
    hide IsSlot;
    if a == [] {
      assert a + b == b;
    } else {
      Tail(a, b);
      OperandsAppend(zero, a[1..], b);
    }
  }

  lemma {:induction false} DeclaredAre(zero: set<nat>, insts: seq<Inst>)
    ensures DeclaredBindings(zero, insts) == Elems(Operands(zero, insts))
  {
    if insts != [] {
      var front, inst := insts[..|insts| - 1], insts[|insts| - 1];
      DeclaredAre(zero, front);
      OperandsAppend(zero, front, [inst]);
      assert insts == front + [inst];
      OneOperand(zero, inst);
    }
  }

  lemma {:induction false} TooLargeMeans(zero: set<nat>, insts: seq<Inst>, ops: seq<nat>)
    requires ops == Operands(zero, insts)
    ensures TooLarge(zero, insts).None? <==> forall b: nat :: b in ops ==> b < MAX_BINDINGS
  {
    if insts != [] {
      var more := Operands(zero, insts[1..]);
      TooLargeMeans(zero, insts[1..], more);
      if IsSlot(zero, insts[0]) {
        assert ops == [insts[0][3] as nat] + more;
        assert ops[0] in ops;
        assert forall b: nat :: b in ops <==> b == ops[0] || b in more;
      } else {
        assert ops == more;
      }
    }
  }

  // ---- distinct operands ----

  /** The output's operands are pairwise distinct, are none of those already
      seen, and each is an original operand or was free. */
  lemma {:induction false} RewriteDistinct(zero: set<nat>, insts: seq<Inst>, used: set<nat>, seen: set<nat>)
    requires Rewrite6(zero, insts, used, seen).Ok?
    requires seen <= used && Elems(Operands(zero, insts)) <= used
    ensures var ops := Operands(zero, Rewrite6(zero, insts, used, seen).value.insts);
      && Distinct(ops)
      && (forall b: nat :: b in ops ==> b !in seen && b < MAX_BINDINGS && (b in Operands(zero, insts) || b !in used))
  {
    if insts != [] {
      var inst, rest := insts[0], insts[1..];
      if !IsSlot(zero, inst) {
        var o := Rewrite6(zero, rest, used, seen).value;
        RewriteDistinct(zero, rest, used, seen);
        OperandsAppend(zero, [inst], o.insts);
      } else {
        var b := inst[3];
        assert b in Operands(zero, insts);
        assert forall x :: x in Operands(zero, rest) ==> x in Operands(zero, insts);
        if b !in seen {
          var o := Rewrite6(zero, rest, used, seen + {b as nat}).value;
          RewriteDistinct(zero, rest, used, seen + {b as nat});
          OperandsAppend(zero, [inst], o.insts);
          DistinctCons(b, Operands(zero, o.insts));
        } else {
          var a := FreeFrom(used, 0).value;
          var next := inst[3 := a];
          var o := Rewrite6(zero, rest, used + {a as nat}, seen).value;
          RewriteDistinct(zero, rest, used + {a as nat}, seen);
          OperandsAppend(zero, [next], o.insts);
          DistinctCons(a, Operands(zero, o.insts));
        }
      }
    }
  }

  lemma DistinctCons(x: nat, s: seq<nat>)
    requires Distinct(s) && x !in s
    ensures Distinct([x] + s)
  {}

  // ---- nothing else touched ----

  /** An earlier decoration of set 0 has this operand already. */
  predicate Repeats(zero: set<nat>, insts: seq<Inst>, seen: set<nat>, k: nat)
    requires k < |insts|
  {
    IsSlot(zero, insts[k]) && (insts[k][3] in seen || insts[k][3] in Operands(zero, insts[..k]))
  }

  /** What the alias list has to be, read off input and output. */
  function AliasesOf(insts: seq<Inst>, out: seq<Inst>): seq<Alias>
    requires |insts| == |out|
  {
    if insts == [] then []
    else
      (if out[0] != insts[0] && |insts[0]| > 3 && |out[0]| > 3 then [Alias(insts[0][1], insts[0][3], out[0][3])] else [])
      + AliasesOf(insts[1..], out[1..])
  }

  /** Every instruction but a repeated one is untouched; a repeated one has its
      operand replaced by a number that was free; the alias list says so. */
  lemma {:induction false} RewriteTouches(zero: set<nat>, insts: seq<Inst>, used: set<nat>, seen: set<nat>)
    requires Rewrite6(zero, insts, used, seen).Ok?
    requires seen <= used && Elems(Operands(zero, insts)) <= used
    ensures var o := Rewrite6(zero, insts, used, seen).value;
      && (forall k :: 0 <= k < |insts| && !Repeats(zero, insts, seen, k) ==> o.insts[k] == insts[k])
      && (forall k :: 0 <= k < |insts| && Repeats(zero, insts, seen, k) ==>
            SameButOperand(insts[k], o.insts[k]) && |insts[k]| > 3 && o.insts[k][3] !in used)
      && o.aliases == AliasesOf(insts, o.insts)
  {
    if insts != [] {
      var inst, rest := insts[0], insts[1..];
      var o := Rewrite6(zero, insts, used, seen).value;
      assert insts[..0] == [];
      var seen2, used2 := seen, used;
      if IsSlot(zero, inst) {
        assert inst[3] in Operands(zero, insts);
        if inst[3] !in seen { seen2 := seen + {inst[3] as nat}; }
        else { used2 := used + {FreeFrom(used, 0).value as nat}; }
      }
      assert forall x :: x in Operands(zero, rest) ==> x in Operands(zero, insts);
      RewriteTouches(zero, rest, used2, seen2);
      var tail := Rewrite6(zero, rest, used2, seen2).value;
      assert o.insts[1..] == tail.insts;
      forall k | 0 < k < |insts|
        ensures Repeats(zero, insts, seen, k) == Repeats(zero, rest, seen2, k - 1)
        ensures o.insts[k] == tail.insts[k - 1]
      {
        OperandsUpTo(zero, insts, k);
      }
    }
  }

  lemma OperandsUpTo(zero: set<nat>, insts: seq<Inst>, k: nat)
    requires 0 < k < |insts|
    ensures Operands(zero, insts[..k]) == Operands(zero, [insts[0]]) + Operands(zero, insts[1..][..k - 1])
    ensures Operands(zero, [insts[0]]) == if IsSlot(zero, insts[0]) then [insts[0][3] as nat] else []
  {
    assert insts[..k] == [insts[0]] + insts[1..][..k - 1];
    OperandsAppend(zero, [insts[0]], insts[1..][..k - 1]);
    OneOperand(zero, insts[0]);
  }

  lemma OneOperand(zero: set<nat>, inst: Inst)
    ensures Operands(zero, [inst]) == if IsSlot(zero, inst) then [inst[3] as nat] else []
  {
    var one := [inst];
    assert one[1..] == [];
  }

  /** The new numbers are free, in range and pairwise distinct. */
  lemma {:induction false} AliasesFresh(zero: set<nat>, insts: seq<Inst>, used: set<nat>, seen: set<nat>)
    requires Rewrite6(zero, insts, used, seen).Ok?
    ensures var aliases := Rewrite6(zero, insts, used, seen).value.aliases;
      && (forall i :: 0 <= i < |aliases| ==> aliases[i].rewritten !in used && aliases[i].rewritten < MAX_BINDINGS)
      && (forall i, j :: 0 <= i < j < |aliases| ==> aliases[i].rewritten != aliases[j].rewritten)
  {
    if insts != [] {
      var inst, rest := insts[0], insts[1..];
      if !IsSlot(zero, inst) {
        AliasesFresh(zero, rest, used, seen);
      } else if inst[3] !in seen {
        AliasesFresh(zero, rest, used, seen + {inst[3] as nat});
      } else {
        AliasesFresh(zero, rest, used + {FreeFrom(used, 0).value as nat}, seen);
      }
    }
  }

  // ---- when the numbers run out ----

  /** Decorations that repeat a number. */
  function Duplicates(zero: set<nat>, insts: seq<Inst>, seen: set<nat>): nat {
    if insts == [] then 0
    else if !IsSlot(zero, insts[0]) then Duplicates(zero, insts[1..], seen)
    else if insts[0][3] in seen then 1 + Duplicates(zero, insts[1..], seen)
    else Duplicates(zero, insts[1..], seen + {insts[0][3] as nat})
  }

  lemma NewElement(b: nat, more: set<nat>, seen: set<nat>)
    ensures |{b} + more - seen| == if b in seen then |more - seen| else 1 + |more - (seen + {b})|
  {
    if b in seen {
      assert {b} + more - seen == more - seen;
    } else {
      assert {b} + more - seen == {b} + (more - (seen + {b}));
    }
  }

  /** Counting the same without a table: how many decorations, less how many
      different numbers. */
  lemma {:induction false} DuplicatesCount(zero: set<nat>, insts: seq<Inst>, seen: set<nat>)
    ensures Duplicates(zero, insts, seen) == |Operands(zero, insts)| - |Elems(Operands(zero, insts)) - seen|
  {
    if insts != [] {
      var inst, rest := insts[0], insts[1..];
      var more := Elems(Operands(zero, rest));
      if !IsSlot(zero, inst) {
        assert Operands(zero, insts) == Operands(zero, rest);
        DuplicatesCount(zero, rest, seen);
      } else {
        var b := inst[3] as nat;
        assert Operands(zero, insts) == [b] + Operands(zero, rest);
        assert Elems(Operands(zero, insts)) == {b} + more;
        NewElement(b, more, seen);
        if b in seen { DuplicatesCount(zero, rest, seen); } else { DuplicatesCount(zero, rest, seen + {b}); }
      }
    }
  }

  /** A number is free exactly when fewer than 64 are used. */
  lemma FreeIff(used: set<nat>, from: nat)
    requires from == 0 && forall b: nat :: b in used ==> b < MAX_BINDINGS
    ensures FreeFrom(used, from).Some? <==> |used| < MAX_BINDINGS
    ensures |used| <= MAX_BINDINGS
  {
    Finite.Pigeonhole(used, MAX_BINDINGS);
  }

  /** The pass succeeds exactly when the free numbers suffice. */
  lemma {:induction false} RewriteSucceedsIff(zero: set<nat>, insts: seq<Inst>, used: set<nat>, seen: set<nat>)
    requires forall b: nat :: b in used ==> b < MAX_BINDINGS
    requires forall b: nat :: b in Operands(zero, insts) ==> b < MAX_BINDINGS
    ensures Rewrite6(zero, insts, used, seen).Ok? <==> |used| + Duplicates(zero, insts, seen) <= MAX_BINDINGS
    ensures Rewrite6(zero, insts, used, seen).Err? ==> Rewrite6(zero, insts, used, seen).error == NoFreeBinding
  {
    FreeIff(used, 0);
    if insts != [] {
      var inst, rest := insts[0], insts[1..];
      if IsSlot(zero, inst) { assert inst[3] as nat in Operands(zero, insts); }
      assert forall b: nat :: b in Operands(zero, rest) ==> b in Operands(zero, insts);
      if !IsSlot(zero, inst) {
        RewriteSucceedsIff(zero, rest, used, seen);
      } else if inst[3] !in seen {
        RewriteSucceedsIff(zero, rest, used, seen + {inst[3] as nat});
      } else if FreeFrom(used, 0).Some? {
        RewriteSucceedsIff(zero, rest, used + {FreeFrom(used, 0).value as nat}, seen);
      }
    }
  }

  // ---- the results for whole modules ----

  ghost function ZeroOf(m: Module): set<nat>
    requires |m.header| == HEADER
  {
    SetZero(m.insts, m.Bound())
  }

  lemma UsedCovers(m: Module, details: seq<int>)
    requires |m.header| == HEADER
    ensures Elems(Operands(ZeroOf(m), m.insts)) <= Used(m, details)
    ensures Details(details) <= Used(m, details)
  {
    DeclaredAre(ZeroOf(m), m.insts);
  }

  lemma {:induction false} OperandAt(zero: set<nat>, insts: seq<Inst>, k: nat)
    requires k < |insts| && IsSlot(zero, insts[k])
    ensures insts[k][3] as nat in Operands(zero, insts)
  {
    if k > 0 { OperandAt(zero, insts[1..], k - 1); }
  }

  /** On success the binding numbers of set 0 are pairwise distinct. A first
      occurrence and every other word are as they were; a repeated decoration
      differs only in its operand, which the alias list records; and no alias is
      a number that the module declares or the dispatch binds. */
  lemma BindingsDistinct(m: Module, details: seq<int>)
    requires m.Valid() && Rewritten(m, details).Ok?
    ensures var o, zero := Rewritten(m, details).value, ZeroOf(m);
      && Distinct(Operands(zero, o.insts))
      && |o.insts| == |m.insts|
      && (forall k :: 0 <= k < |m.insts| && !Repeats(zero, m.insts, {}, k) ==> o.insts[k] == m.insts[k])
      && (forall k :: 0 <= k < |m.insts| && Repeats(zero, m.insts, {}, k) ==>
            SameButOperand(m.insts[k], o.insts[k]) && o.insts[k] != m.insts[k])
      && o.aliases == AliasesOf(m.insts, o.insts)
      && (forall i :: 0 <= i < |o.aliases| ==>
            && o.aliases[i].rewritten < MAX_BINDINGS
            && o.aliases[i].rewritten !in Elems(Operands(zero, m.insts))
            && o.aliases[i].rewritten !in Details(details))
      && (forall i, j :: 0 <= i < j < |o.aliases| ==> o.aliases[i].rewritten != o.aliases[j].rewritten)
  {
    var zero, used := ZeroOf(m), Used(m, details);
    UsedCovers(m, details);
    RewriteDistinct(zero, m.insts, used, {});
    RewriteTouches(zero, m.insts, used, {});
    AliasesFresh(zero, m.insts, used, {});
    forall k | 0 <= k < |m.insts| && Repeats(zero, m.insts, {}, k)
      ensures Rewritten(m, details).value.insts[k] != m.insts[k]
    {
      OperandAt(zero, m.insts, k);
    }
  }

  /** The rewrite succeeds exactly when every binding of set 0 is below 64 and
      the numbers in use, plus one for every decoration too many, are at most
      64. */
  lemma RewriteFailsIff(m: Module, details: seq<int>)
    requires m.Valid()
    ensures var ops := Operands(ZeroOf(m), m.insts);
      Rewritten(m, details).Ok? <==>
        && (forall b: nat :: b in ops ==> b < MAX_BINDINGS)
        && |Details(details) + Elems(ops)| + (|ops| - |Elems(ops)|) <= MAX_BINDINGS
    ensures (forall b: nat :: b in Operands(ZeroOf(m), m.insts) ==> b < MAX_BINDINGS) && Rewritten(m, details).Err?
      ==> Rewritten(m, details).error == NoFreeBinding
  {
    var zero, ops := ZeroOf(m), Operands(ZeroOf(m), m.insts);
    TooLargeMeans(zero, m.insts, Operands(zero, m.insts));
    DeclaredAre(zero, m.insts);
    if forall b: nat :: b in ops ==> b < MAX_BINDINGS {
      RewriteSucceedsIff(zero, m.insts, Used(m, details), {});
      DuplicatesCount(zero, m.insts, {});
      assert Elems(ops) - {} == Elems(ops);
    }
  }

  // ---- the shape of the output ----

  /** `y` is `x` or the same Binding decoration with another operand. */
  predicate SameButBinding(x: Inst, y: Inst) {
    y == x || (Decorates(x, BINDING) && Decorates(y, BINDING) && |x| == |y| && y == x[3 := y[3]])
  }

  predicate SameShape(insts: seq<Inst>, out: seq<Inst>) {
    |out| == |insts| && forall k :: 0 <= k < |insts| ==> SameButBinding(insts[k], out[k])
  }

  lemma {:induction false} RewriteShapes(zero: set<nat>, insts: seq<Inst>, used: set<nat>, seen: set<nat>)
    requires Rewrite6(zero, insts, used, seen).Ok?
    ensures var out := Rewrite6(zero, insts, used, seen).value.insts;
      SameShape(insts, out)
  {
    if insts != [] {
      var inst, rest := insts[0], insts[1..];
      var out := Rewrite6(zero, insts, used, seen).value.insts;
      var seen2, used2 := seen, used;
      if IsSlot(zero, inst) {
        if inst[3] !in seen { seen2 := seen + {inst[3] as nat}; }
        else { used2 := used + {FreeFrom(used, 0).value as nat}; }
      }
      RewriteShapes(zero, rest, used2, seen2);
      assert out[1..] == Rewrite6(zero, rest, used2, seen2).value.insts;
      forall k | 0 <= k < |insts|
        ensures SameButBinding(insts[k], out[k])
      {
        if k > 0 { assert out[k] == out[1..][k - 1]; }
      }
    }
  }

  lemma ShapeSnoc(insts: seq<Inst>, out: seq<Inst>)
    requires SameShape(insts, out) && insts != []
    ensures SameShape(insts[..|insts| - 1], out[..|out| - 1]) && SameButBinding(insts[|insts| - 1], out[|out| - 1])
  {}

  lemma {:induction false} ShapeConstants(w: World, spec: Specialization, insts: seq<Inst>, out: seq<Inst>)
    requires SameShape(insts, out)
    ensures Consts(w, spec, out) == Consts(w, spec, insts)
    ensures Moduli(out) == Moduli(insts) && Quads(out) == Quads(insts)
  {
    if insts != [] {
      ShapeSnoc(insts, out);
      ShapeConstants(w, spec, insts[..|insts| - 1], out[..|out| - 1]);
    }
  }

  lemma {:induction false} ShapeSize(ids: set<nat>, insts: seq<Inst>, out: seq<Inst>)
    requires SameShape(insts, out)
    ensures WorkgroupIds(out) == WorkgroupIds(insts)
    ensures WorkgroupConstant(ids, out) == WorkgroupConstant(ids, insts)
    ensures LastMode(out, true) == LastMode(insts, true) && LastMode(out, false) == LastMode(insts, false)
  {
    if insts != [] {
      ShapeSnoc(insts, out);
      ShapeSize(ids, insts[..|insts| - 1], out[..|out| - 1]);
    }
  }

  lemma {:induction false} ShapeCode(insts: seq<Inst>, out: seq<Inst>)
    requires SameShape(insts, out)
    ensures Ids(out) == Ids(insts) && Code(out) == Code(insts)
    ensures Decorations(out, SPEC_ID) == Decorations(insts, SPEC_ID)
    ensures Decorations(out, DESCRIPTOR_SET) == Decorations(insts, DESCRIPTOR_SET)
  {
    if insts != [] {
      ShapeSnoc(insts, out);
      ShapeCode(insts[..|insts| - 1], out[..|out| - 1]);
    }
  }

  /** The last Binding decoration of an id stands at the same place in both. */
  lemma {:induction false} LastBinding(insts: seq<Inst>, out: seq<Inst>, v: nat) returns (k: nat)
    requires SameShape(insts, out)
    requires v in Decorations(insts, BINDING)
    ensures k < |insts| && Decorates(insts[k], BINDING) && Decorates(out[k], BINDING) && insts[k][1] == v
    ensures Decorations(insts, BINDING)[v] == insts[k][3]
    ensures v in Decorations(out, BINDING) && Decorations(out, BINDING)[v] == out[k][3]
  {
    var last := |insts| - 1;
    assert SameButBinding(insts[last], out[last]);
    if Decorates(insts[last], BINDING) && insts[last][1] == v {
      k := last;
    } else {
      k := LastBinding(insts[..last], out[..last], v);
    }
  }

  lemma {:induction false} BindingKeys(insts: seq<Inst>, out: seq<Inst>)
    requires SameShape(insts, out)
    ensures Decorations(out, BINDING).Keys == Decorations(insts, BINDING).Keys
  {
    if insts != [] {
      BindingKeys(insts[..|insts| - 1], out[..|out| - 1]);
      assert SameButBinding(insts[|insts| - 1], out[|insts| - 1]);
    }
  }

  lemma RewriteValid(m: Module, details: seq<int>)
    requires m.Valid() && Rewritten(m, details).Ok?
    ensures var out := m.(insts := Rewritten(m, details).value.insts);
      out.Valid() && |out.Words()| == |m.Words()| && Ids(out.insts) == Ids(m.insts) && Code(out.insts) == Code(m.insts)
  {
    var zero, used := ZeroOf(m), Used(m, details);
    var out := Rewrite6(zero, m.insts, used, {}).value.insts;
    RewriteShapes(zero, m.insts, used, {});
    ShapeCode(m.insts, out);
    SameSizes(m.insts, out);
    forall k | 0 <= k < |out|
      ensures WellSized(out[k])
    {
      assert SameButBinding(m.insts[k], out[k]) && WellSized(m.insts[k]);
    }
  }

  lemma RewriteSameSets(m: Module, details: seq<int>)
    requires m.Valid() && Rewritten(m, details).Ok?
    ensures ZeroOf(m.(insts := Rewritten(m, details).value.insts)) == ZeroOf(m)
  {
    var out := Rewritten(m, details).value.insts;
    RewriteShapes(ZeroOf(m), m.insts, Used(m, details), {});
    ShapeCode(m.insts, out);
  }

  lemma {:induction false} SameSizes(a: seq<Inst>, b: seq<Inst>)
    requires |a| == |b| && forall i :: 0 <= i < |a| ==> SameButBinding(a[i], b[i])
    ensures |Flatten(a)| == |Flatten(b)|
    decreases |a|
  {
    if a != [] {
      assert SameButBinding(a[0], b[0]);
      SameSizes(a[1..], b[1..]);
    }
  }

  // ---- a second application ----

  lemma {:induction false} DistinctKept(zero: set<nat>, insts: seq<Inst>, used: set<nat>, seen: set<nat>)
    requires Distinct(Operands(zero, insts))
    requires forall b: nat :: b in Operands(zero, insts) ==> b < MAX_BINDINGS && b !in seen
    ensures Rewrite6(zero, insts, used, seen) == Ok(Out(insts, []))
  {
    if insts != [] {
      var inst, rest := insts[0], insts[1..];
      var ops := Operands(zero, insts);
      if IsSlot(zero, inst) {
        var more := Operands(zero, rest);
        assert ops == [inst[3] as nat] + more;
        assert forall i :: 0 <= i < |more| ==> more[i] == ops[i + 1];
        assert forall b: nat :: b in more ==> b in ops && b != ops[0];
        assert ops[0] in ops;
        DistinctKept(zero, rest, used, seen + {inst[3] as nat});
      } else {
        assert ops == Operands(zero, rest);
        DistinctKept(zero, rest, used, seen);
      }
      assert [inst] + rest == insts;
      var none: seq<Alias> := [];
      assert none + none == none;
    }
  }

  /** Rewriting what was rewritten changes nothing and finds no duplicate. */
  lemma RewriteIdempotent(m: Module, details: seq<int>, again: seq<int>)
    requires m.Valid() && Rewritten(m, details).Ok?
    ensures var out := m.(insts := Rewritten(m, details).value.insts);
      Rewritten(out, again) == Ok(Out(out.insts, []))
  {
    var out := m.(insts := Rewritten(m, details).value.insts);
    var zero, used := ZeroOf(m), Used(m, details);
    UsedCovers(m, details);
    RewriteDistinct(zero, m.insts, used, {});
    RewriteShapes(zero, m.insts, used, {});
    ShapeCode(m.insts, out.insts);
    assert ZeroOf(out) == zero;
    TooLargeMeans(zero, out.insts, Operands(zero, out.insts));
    DistinctKept(zero, out.insts, Used(out, again), {});
  }

  // ---- the meaning ----

  /** The dispatch's table with every aliased number bound to the buffer of the
      number it stands for. */
  function Rebound(table: Table, aliases: seq<Alias>): Table {
    if aliases == [] then table
    else
      var before, a := Rebound(table, aliases[..|aliases| - 1]), aliases[|aliases| - 1];
      if (0, a.original as nat) in table then before[(0, a.rewritten as nat) := table[(0, a.original as nat)]] else before
  }

  ghost predicate Fresh(table: Table, aliases: seq<Alias>) {
    && (forall i :: 0 <= i < |aliases| ==> (0, aliases[i].rewritten as nat) !in table)
    && (forall i, j :: 0 <= i < j < |aliases| ==> aliases[i].rewritten != aliases[j].rewritten)
  }

  lemma {:induction false} ReboundOther(table: Table, aliases: seq<Alias>, key: (nat, nat))
    requires forall i :: 0 <= i < |aliases| ==> key != (0, aliases[i].rewritten as nat)
    ensures key in Rebound(table, aliases) <==> key in table
    ensures key in table ==> Rebound(table, aliases)[key] == table[key]
  {
    if aliases != [] { ReboundOther(table, aliases[..|aliases| - 1], key); }
  }

  lemma {:induction false} ReboundAlias(table: Table, aliases: seq<Alias>, i: nat)
    requires Fresh(table, aliases) && i < |aliases|
    ensures var key, old' := (0, aliases[i].rewritten as nat), (0, aliases[i].original as nat);
      && (key in Rebound(table, aliases) <==> old' in table)
      && (old' in table ==> Rebound(table, aliases)[key] == table[old'])
    decreases |aliases|
  {
    var front := aliases[..|aliases| - 1];
    if i < |front| {
      ReboundAlias(table, front, i);
    } else {
      ReboundOther(table, front, (0, aliases[i].rewritten as nat));
    }
  }

  lemma {:induction false} AliasIn(insts: seq<Inst>, out: seq<Inst>, k: nat) returns (i: nat)
    requires |insts| == |out| && k < |insts| && out[k] != insts[k] && |insts[k]| > 3 && |out[k]| > 3
    ensures i < |AliasesOf(insts, out)| && AliasesOf(insts, out)[i] == Alias(insts[k][1], insts[k][3], out[k][3])
  {
    if k == 0 {
      i := 0;
    } else {
      i := AliasIn(insts[1..], out[1..], k - 1);
      if out[0] != insts[0] && |insts[0]| > 3 && |out[0]| > 3 { i := i + 1; }
    }
  }

  /** The dispatch: set 0 binds only numbers it reports, and only declared ids
      are decorated. */
  ghost predicate Bound(m: Module, details: seq<int>, table: Table)
    requires |m.header| == HEADER
  {
    && (forall b :: (0, b) in table ==> b in Details(details))
    && (forall v :: v in Decorations(m.insts, DESCRIPTOR_SET) ==> v < m.Bound())
  }

  lemma BufferSame(m: Module, details: seq<int>, table: Table, v: nat)
    requires m.Valid() && Rewritten(m, details).Ok? && Bound(m, details, table)
    requires v in Decorations(m.insts, DESCRIPTOR_SET) && v in Decorations(m.insts, BINDING)
    ensures var o := Rewritten(m, details).value;
      && v in Decorations(o.insts, BINDING)
      && var set', b, b' := Decorations(m.insts, DESCRIPTOR_SET)[v], Decorations(m.insts, BINDING)[v], Decorations(o.insts, BINDING)[v];
         && ((set', b') in Rebound(table, o.aliases) <==> (set', b) in table)
         && ((set', b) in table ==> Rebound(table, o.aliases)[(set', b')] == table[(set', b)])
  {
    var o, zero := Rewritten(m, details).value, ZeroOf(m);
    BindingsDistinct(m, details);
    RewriteShapes(zero, m.insts, Used(m, details), {});
    var k := LastBinding(m.insts, o.insts, v);
    var setOf, b, b' := Decorations(m.insts, DESCRIPTOR_SET)[v], m.insts[k][3], o.insts[k][3];
    if o.insts[k] != m.insts[k] {
      assert setOf == 0;
      var i := AliasIn(m.insts, o.insts, k);
      ReboundAlias(table, o.aliases, i);
    } else {
      if setOf == 0 {
        assert IsSlot(zero, m.insts[k]);
        OperandAt(zero, m.insts, k);
      }
      ReboundOther(table, o.aliases, (setOf as nat, b as nat));
    }
  }

  /** With the aliases bound to the buffers they stand for, the rewritten module
      is the same program. */
  lemma RewritePreservesProgram(w: World, m: Module, details: seq<int>, entries: seq<Entry>, table: Table)
    requires m.Valid() && Rewritten(m, details).Ok? && Bound(m, details, table)
    ensures var o := Rewritten(m, details).value;
      ProgramOf(w, o.insts, entries, Rebound(table, o.aliases)) == ProgramOf(w, m.insts, entries, table)
  {
    var o, zero := Rewritten(m, details).value, ZeroOf(m);
    RewriteShapes(zero, m.insts, Used(m, details), {});
    ShapeConstants(w, SpecializationOf(m.insts, entries), m.insts, o.insts);
    ShapeSize(WorkgroupIds(m.insts), m.insts, o.insts);
    ShapeCode(m.insts, o.insts);
    BuffersSame(m, details, table);
  }

  lemma BuffersSame(m: Module, details: seq<int>, table: Table)
    requires m.Valid() && Rewritten(m, details).Ok? && Bound(m, details, table)
    requires var o := Rewritten(m, details).value; Decorations(o.insts, DESCRIPTOR_SET) == Decorations(m.insts, DESCRIPTOR_SET)
    ensures var o := Rewritten(m, details).value; Buffers(o.insts, Rebound(table, o.aliases)) == Buffers(m.insts, table)
  {
    var o, zero := Rewritten(m, details).value, ZeroOf(m);
    RewriteShapes(zero, m.insts, Used(m, details), {});
    BindingKeys(m.insts, o.insts);
    hide Rewritten, Used, ZeroOf, Decorations, Rebound;
    forall v | v in Decorations(m.insts, DESCRIPTOR_SET) && v in Decorations(m.insts, BINDING)
      ensures var set', b, b' := Decorations(m.insts, DESCRIPTOR_SET)[v], Decorations(m.insts, BINDING)[v], Decorations(o.insts, BINDING)[v];
         && ((set', b') in Rebound(table, o.aliases) <==> (set', b) in table)
         && ((set', b) in table ==> Rebound(table, o.aliases)[(set', b')] == table[(set', b)])
    {
      BufferSame(m, details, table, v);
    }
    assert Buffers(o.insts, Rebound(table, o.aliases)) == Buffers(m.insts, table);
  }

  /** Each alias is the least number that is not in use and not an earlier alias. */
  lemma {:induction false} AliasesFrom(zero: set<nat>, insts: seq<Inst>, used: set<nat>, seen: set<nat>, i: nat, b: nat)
    requires Rewrite6(zero, insts, used, seen).Ok?
    requires var o := Rewrite6(zero, insts, used, seen).value; i < |o.aliases| && b < o.aliases[i].rewritten
    ensures var o := Rewrite6(zero, insts, used, seen).value; b in used || exists j :: 0 <= j < i && o.aliases[j].rewritten as nat == b
    decreases |insts|
  {
    var o := Rewrite6(zero, insts, used, seen).value;
    if !IsSlot(zero, insts[0]) {
      assert o.aliases == Rewrite6(zero, insts[1..], used, seen).value.aliases;
      AliasesFrom(zero, insts[1..], used, seen, i, b);
    } else if insts[0][3] as nat !in seen {
      assert o.aliases == Rewrite6(zero, insts[1..], used, seen + {insts[0][3] as nat}).value.aliases;
      AliasesFrom(zero, insts[1..], used, seen + {insts[0][3] as nat}, i, b);
    } else {
      var a := FreeFrom(used, 0).value;
      var rest := Rewrite6(zero, insts[1..], used + {a as nat}, seen).value;
      assert o.aliases == [Alias(insts[0][1], insts[0][3], a)] + rest.aliases;
      if i > 0 {
        AliasesFrom(zero, insts[1..], used + {a as nat}, seen, i - 1, b);
        if b !in used {
          if b == a as nat { assert o.aliases[0].rewritten as nat == b; }
          else {
            var j :| 0 <= j < i - 1 && rest.aliases[j].rewritten as nat == b;
            assert o.aliases[j + 1] == rest.aliases[j];
          }
        }
      }
    }
  }

  /** So aliases are the least numbers that the module does not declare, the dispatch
      does not report, and no earlier duplicate got. */
  lemma AliasesLeast(m: Module, details: seq<int>, i: nat, b: nat)
    requires m.Valid() && Rewritten(m, details).Ok?
    requires var o := Rewritten(m, details).value; i < |o.aliases| && b < o.aliases[i].rewritten
    ensures var o := Rewritten(m, details).value;
      b in Details(details) || b in Elems(Operands(ZeroOf(m), m.insts)) || exists j :: 0 <= j < i && o.aliases[j].rewritten as nat == b
  {
    AliasesFrom(ZeroOf(m), m.insts, Used(m, details), {}, i, b);
    DeclaredAre(ZeroOf(m), m.insts);
  }
}
