/** Stage 6 of the effective-module compiler: give every duplicate descriptor
    binding of set 0 a binding number of its own. */
module Bindings {
  import opened Words
  import opened Ops
  import opened Machine
  import opened Meaning

  const MAX_BINDINGS := 64

  datatype Alias = Alias(target: Word, original: Word, rewritten: Word)

  /** Ids below the bound that live in descriptor set 0. */
  function SetZero(insts: seq<Inst>, bound: nat): set<nat> {
    var sets := Decorations(insts, DESCRIPTOR_SET);
    set id | id in sets && id < bound && sets[id] == 0
  }

  /** A Binding decoration of one of them. */
  predicate IsSlot(zero: set<nat>, inst: Inst) {
    Decorates(inst, BINDING) && inst[1] in zero
  }

  function Details(details: seq<int>): set<nat> {
    set i | 0 <= i < |details| && 0 <= details[i] < MAX_BINDINGS :: details[i] as nat
  }

  /** Binding numbers the module declares in set 0. */
  function DeclaredBindings(zero: set<nat>, insts: seq<Inst>): set<nat> {
    if insts == [] then {}
    else
      var before, inst := DeclaredBindings(zero, insts[..|insts| - 1]), insts[|insts| - 1];
      if IsSlot(zero, inst) then before + {inst[3] as nat} else before
  }

  /** The first declared binding that the tables have no room for. */
  function TooLarge(zero: set<nat>, insts: seq<Inst>): Option<Word> {
    if insts == [] then None
    else if IsSlot(zero, insts[0]) && insts[0][3] >= MAX_BINDINGS then Some(insts[0][3])
    else TooLarge(zero, insts[1..])
  }

  function FreeFrom(used: set<nat>, from: nat): (r: Option<Word>)
    requires from <= MAX_BINDINGS
    ensures r.Some? ==> from <= r.value < MAX_BINDINGS && r.value !in used && forall b :: from <= b < r.value ==> b in used
    ensures r.None? ==> forall b :: from <= b < MAX_BINDINGS ==> b in used
    decreases MAX_BINDINGS - from
  {
    if from == MAX_BINDINGS then None else if from !in used then Some(from) else FreeFrom(used, from + 1)
  }

  datatype Out = Out(insts: seq<Inst>, aliases: seq<Alias>)

  /** What a suffix contributes, put behind what is already out. */
  function Prepend(done: seq<Inst>, aliases: seq<Alias>, rest: Result<Out>): Result<Out> {
    match rest
    case Ok(o) => Ok(Out(done + o.insts, aliases + o.aliases))
    case Err(e) => Err(e)
  }

  /** The second pass, over what is left of the module. */
  function Rewrite6(zero: set<nat>, insts: seq<Inst>, used: set<nat>, seen: set<nat>): (r: Result<Out>)
    ensures r.Ok? ==> |r.value.insts| == |insts|
  {
    if insts == [] then Ok(Out([], []))
    else if !IsSlot(zero, insts[0]) then Prepend([insts[0]], [], Rewrite6(zero, insts[1..], used, seen))
    else
      var b := insts[0][3];
      if b >= MAX_BINDINGS then Err(BindingLimit(b))
      else if b !in seen then Prepend([insts[0]], [], Rewrite6(zero, insts[1..], used, seen + {b as nat}))
      else match FreeFrom(used, 0)
        case None => Err(NoFreeBinding)
        case Some(a) =>
          Prepend([insts[0][3 := a]], [Alias(insts[0][1], b, a)], Rewrite6(zero, insts[1..], used + {a as nat}, seen))
  }

  function Used(m: Module, details: seq<int>): set<nat>
    requires |m.header| == HEADER
  {
    Details(details) + DeclaredBindings(SetZero(m.insts, m.Bound()), m.insts)
  }

  function Rewritten(m: Module, details: seq<int>): Result<Out>
    requires |m.header| == HEADER
  {
    var zero := SetZero(m.insts, m.Bound());
    match TooLarge(zero, m.insts)
    case Some(b) => Err(BindingLimit(b))
    case None => Rewrite6(zero, m.insts, Used(m, details), {})
  }

  // ---- the loops ----

  datatype Step = Step(words: seq<Word>, changed: bool, aliases: seq<Alias>)

  /** The flags that are up. */
  function Marked(flags: seq<bool>): set<nat> {
    set i | 0 <= i < |flags| && flags[i]
  }

  method MarkDetails(details: seq<int>, used: array<bool>)
    requires used.Length == MAX_BINDINGS && Marked(used[..]) == {}
    modifies used
    ensures Marked(used[..]) == Details(details)
  {
    for n := 0 to |details|
      invariant Marked(used[..]) == Details(details[..n])
    {
      ghost var before := used[..];
      assert details[..n + 1][..n] == details[..n];
      DetailsSnoc(details[..n], details[n]);
      assert details[..n + 1] == details[..n] + [details[n]];
      if 0 <= details[n] < MAX_BINDINGS {
        used[details[n]] := true;
        assert used[..] == before[details[n] := true];
      }
    }
    assert details[..|details|] == details;
  }

  lemma DetailsSnoc(details: seq<int>, d: int)
    ensures Details(details + [d]) == Details(details) + if 0 <= d < MAX_BINDINGS then {d as nat} else {}
  {
    var all := details + [d];
    forall x
      ensures x in Details(all) <==> x in Details(details) + if 0 <= d < MAX_BINDINGS then {d as nat} else {}
    {
      if x in Details(details) {
        var i :| 0 <= i < |details| && 0 <= details[i] < MAX_BINDINGS && details[i] == x;
        assert all[i] == x;
      }
      if 0 <= d < MAX_BINDINGS && x == d { assert all[|details|] == x; }
    }
  }

  method FindSets(insts: seq<Inst>, bound: nat) returns (zero: set<nat>)
    ensures zero == SetZero(insts, bound)
  {
    zero := {};
    for n := 0 to |insts|
      invariant zero == SetZero(insts[..n], bound)
    {
      var inst := insts[n];
      assert insts[..n + 1][..n] == insts[..n];
      if Op(inst) == DECORATE && |inst| >= 4 && inst[1] < bound && inst[2] == DESCRIPTOR_SET {
        zero := if inst[3] == 0 then zero + {inst[1] as nat} else zero - {inst[1] as nat};
      }
    }
    assert insts[..|insts|] == insts;
  }

  method MarkDeclared(zero: set<nat>, insts: seq<Inst>, used: array<bool>) returns (r: Result<bool>)
    requires used.Length == MAX_BINDINGS
    modifies used
    ensures r.Err? <==> TooLarge(zero, insts).Some?
    ensures r.Err? ==> r.error == BindingLimit(TooLarge(zero, insts).value)
    ensures r.Ok? ==> Marked(used[..]) == old(Marked(used[..])) + DeclaredBindings(zero, insts)
  {
    ghost var start := Marked(used[..]);
    for n := 0 to |insts|
      invariant TooLarge(zero, insts) == TooLarge(zero, insts[n..])
      invariant Marked(used[..]) == start + DeclaredBindings(zero, insts[..n])
    {
      var inst := insts[n];
      assert insts[..n + 1][..n] == insts[..n];
      if Op(inst) == DECORATE && |inst| >= 4 && inst[2] == BINDING && inst[1] in zero {
        if inst[3] >= MAX_BINDINGS { return Err(BindingLimit(inst[3])); }
        ghost var before := used[..];
        used[inst[3]] := true;
        assert used[..] == before[inst[3] := true];
        MarkFlag(before, inst[3]);
      }
    }
    assert insts[..|insts|] == insts;
    r := Ok(true);
  }

  /** The least free binding number. */
  method NextFree(used: array<bool>) returns (r: Option<Word>)
    requires used.Length == MAX_BINDINGS
    ensures r == FreeFrom(Marked(used[..]), 0)
  {
    for candidate := 0 to MAX_BINDINGS
      invariant FreeFrom(Marked(used[..]), 0) == FreeFrom(Marked(used[..]), candidate)
    {
      if !used[candidate] { return Some(candidate); }
    }
    r := None;
  }

  lemma PrependTwice(done: seq<Inst>, aliases: seq<Alias>, x: seq<Inst>, more: seq<Alias>, rest: Result<Out>)
    ensures Prepend(done, aliases, Prepend(x, more, rest)) == Prepend(done + x, aliases + more, rest)
  {
    match rest {
      case Ok(o) =>
        assert done + (x + o.insts) == (done + x) + o.insts;
        assert aliases + (more + o.aliases) == (aliases + more) + o.aliases;
      case Err(e) =>
    }
  }

  lemma MarkFlag(flags: seq<bool>, i: nat)
    requires i < |flags|
    ensures Marked(flags[i := true]) == Marked(flags) + {i}
  {}

  predicate SameButOperand(inst: Inst, next: Inst) {
    next == inst || (|inst| > 3 && |next| > 3 && next == inst[3 := next[3]])
  }

  /** Reading a partly rewritten stream at its first old instruction. */
  lemma ReadPartly(header: seq<Word>, done: seq<Inst>, rest: seq<Inst>, out: seq<Word>)
    requires |header| == HEADER && out == header + Flatten(done) + Flatten(rest) && AllSized(rest)
    ensures HEADER + |Flatten(done)| <= |out| && (HEADER + |Flatten(done)| < |out| <==> rest != [])
    ensures rest != [] ==> InstAt(out, HEADER + |Flatten(done)|) == Ok(rest[0])
  {
    if rest != [] {
      var at, inst, front := HEADER + |Flatten(done)|, rest[0], header + Flatten(done);
      assert Flatten(rest) == inst + Flatten(rest[1..]);
      Regroup(front, [], inst, Flatten(rest[1..]));
      assert out[at] == inst[0];
      assert out[at..at + |inst|] == inst;
    }
  }

  /** Overwriting the operand there. */
  lemma WritePartly(header: seq<Word>, done: seq<Inst>, rest: seq<Inst>, out: seq<Word>, next: Inst)
    requires |header| == HEADER && out == header + Flatten(done) + Flatten(rest) && rest != []
    requires SameButOperand(rest[0], next)
    ensures |out| >= HEADER + |Flatten(done)| + |rest[0]|
    ensures next == rest[0] ==> out == header + Flatten(done + [next]) + Flatten(rest[1..])
    ensures |next| > 3 ==> out[HEADER + |Flatten(done)| + 3 := next[3]] == header + Flatten(done + [next]) + Flatten(rest[1..])
  {
    hide *;
    var front, back := header + Flatten(done), Flatten(rest[1..]);
    FlattenFirst(rest);
    FlattenBehind(header, done, next);
    Overwrite(front, rest[0], back, next);
  }

  lemma Overwrite(front: seq<Word>, inst: Inst, back: seq<Word>, next: Inst)
    requires SameButOperand(inst, next)
    ensures front + (inst + back) == front + inst + back
    ensures |next| > 3 ==> (front + (inst + back))[|front| + 3 := next[3]] == front + next + back
  {}

  /** The loop has rewritten `done`, and finishing the rest finishes the whole. */
  ghost predicate Progress(m: Module, zero: set<nat>, declared: set<nat>, done: seq<Inst>, aliases: seq<Alias>, used: set<nat>, seen: set<nat>, out: seq<Word>) {
    && m.Valid() && |done| <= |m.insts|
    && out == m.header + Flatten(done) + Flatten(m.insts[|done|..])
    && Prepend(done, aliases, Rewrite6(zero, m.insts[|done|..], used, seen)) == Rewrite6(zero, m.insts, declared, {})
  }

  lemma ProgressStart(m: Module, zero: set<nat>, declared: set<nat>)
    requires m.Valid()
    ensures Progress(m, zero, declared, [], [], declared, {}, m.Words())
  {
    assert m.insts[0..] == m.insts;
    PrependNothing(Rewrite6(zero, m.insts, declared, {}));
    assert m.header + [] == m.header;
  }

  lemma PrependNothing(r: Result<Out>)
    ensures Prepend([], [], r) == r
  {
    match r {
      case Ok(o) => assert [] + o.insts == o.insts && [] + o.aliases == o.aliases;
      case Err(_) =>
    }
  }

  lemma ProgressRead(m: Module, zero: set<nat>, declared: set<nat>, done: seq<Inst>, aliases: seq<Alias>, used: set<nat>, seen: set<nat>, out: seq<Word>)
    requires Progress(m, zero, declared, done, aliases, used, seen, out)
    ensures HEADER + |Flatten(done)| <= |out| && (HEADER + |Flatten(done)| < |out| <==> |done| < |m.insts|)
    ensures |done| < |m.insts| ==> InstAt(out, HEADER + |Flatten(done)|) == Ok(m.insts[|done|])
    ensures |done| == |m.insts| ==> Rewrite6(zero, m.insts, declared, {}) == Ok(Out(done, aliases)) && out == m.(insts := done).Words()
  {
    ReadPartly(m.header, done, m.insts[|done|..], out);
    if |done| == |m.insts| {
      assert done + [] == done && aliases + [] == aliases;
      assert out == m.header + Flatten(done) + [];
    }
  }

  lemma ProgressStep(m: Module, zero: set<nat>, declared: set<nat>, done: seq<Inst>, aliases: seq<Alias>, used: set<nat>, seen: set<nat>, out: seq<Word>,
                     next: Inst, more: seq<Alias>, used2: set<nat>, seen2: set<nat>)
    requires Progress(m, zero, declared, done, aliases, used, seen, out) && |done| < |m.insts|
    requires SameButOperand(m.insts[|done|], next)
    requires Rewrite6(zero, m.insts[|done|..], used, seen) == Prepend([next], more, Rewrite6(zero, m.insts[|done| + 1..], used2, seen2))
    ensures |out| >= HEADER + |Flatten(done)| + |m.insts[|done|]|
    ensures next == m.insts[|done|] ==> Progress(m, zero, declared, done + [next], aliases + more, used2, seen2, out)
    ensures |next| > 3 ==>
      Progress(m, zero, declared, done + [next], aliases + more, used2, seen2, out[HEADER + |Flatten(done)| + 3 := next[3]])
    ensures more == [] ==> aliases + more == aliases
    ensures HEADER + |Flatten(done + [next])| == HEADER + |Flatten(done)| + |m.insts[|done|]|
  {
    var rest := m.insts[|done|..];
    assert rest[1..] == m.insts[|done| + 1..];
    WritePartly(m.header, done, rest, out, next);
    PrependTwice(done, aliases, [next], more, Rewrite6(zero, rest[1..], used2, seen2));
    FlattenSnoc(done, next);
  }

  /** One decoration of the second pass: its new operand, if it needs one. */
  method Place(binding: Word, used: array<bool>, firstSeen: array<bool>) returns (r: Result<Option<Word>>)
    requires used.Length == firstSeen.Length == MAX_BINDINGS && used != firstSeen
    modifies used, firstSeen
    ensures binding >= MAX_BINDINGS ==> r == Err(BindingLimit(binding))
    ensures binding < MAX_BINDINGS && binding !in old(Marked(firstSeen[..])) ==>
      r == Ok(None) && Marked(used[..]) == old(Marked(used[..])) && Marked(firstSeen[..]) == old(Marked(firstSeen[..])) + {binding as nat}
    ensures binding < MAX_BINDINGS && binding in old(Marked(firstSeen[..])) ==>
      match FreeFrom(old(Marked(used[..])), 0)
      case None => r == Err(NoFreeBinding)
      case Some(a) =>
        r == Ok(Some(a)) && Marked(used[..]) == old(Marked(used[..])) + {a as nat} && Marked(firstSeen[..]) == old(Marked(firstSeen[..]))
  {
    if binding >= MAX_BINDINGS { return Err(BindingLimit(binding)); }
    if !firstSeen[binding] {
      MarkFlag(firstSeen[..], binding);
      firstSeen[binding] := true;
      assert firstSeen[..] == old(firstSeen[..])[binding := true];
      return Ok(None);
    }
    var alias := NextFree(used);
    if alias.None? { return Err(NoFreeBinding); }
    MarkFlag(used[..], alias.value);
    used[alias.value] := true;
    assert used[..] == old(used[..])[alias.value := true];
    r := Ok(Some(alias.value));
  }

  method RewriteDuplicateDescriptorBindings(words: seq<Word>, details: seq<int>) returns (r: Result<Step>)
    requires HEADER <= |words|
    ensures ModuleOf(words).Err? ==> r == Err(ModuleOf(words).error)
    ensures ModuleOf(words).Ok? ==> ModuleOf(words).value.Valid() && match Rewritten(ModuleOf(words).value, details)
      case Err(e) => r == Err(e)
      case Ok(o) => r == Ok(Step(ModuleOf(words).value.(insts := o.insts).Words(), o.aliases != [], o.aliases))
  {
    var used, firstSeen := new bool[MAX_BINDINGS](_ => false), new bool[MAX_BINDINGS](_ => false);
    MarkDetails(details, used);
    var items :- IterInstructions(words);
    ModuleRoundTrip(words);
    ghost var m := ModuleOf(words).value;
    var zero := FindSets(Instructions(items), words[3]);
    var marked := MarkDeclared(zero, Instructions(items), used);
    if marked.Err? { return Err(marked.error); }
    r := RewriteSlots(words, zero, used, firstSeen, m);
  }

  /** The second pass, in place over the copied words. */
  method RewriteSlots(words: seq<Word>, zero: set<nat>, used: array<bool>, firstSeen: array<bool>, ghost m: Module) returns (r: Result<Step>)
    requires used.Length == firstSeen.Length == MAX_BINDINGS && used != firstSeen
    requires m.Valid() && words == m.Words() && Marked(firstSeen[..]) == {}
    modifies used, firstSeen
    ensures match Rewrite6(zero, m.insts, old(Marked(used[..])), {})
      case Err(e) => r == Err(e)
      case Ok(o) => r == Ok(Step(m.(insts := o.insts).Words(), o.aliases != [], o.aliases))
  {
    ghost var declared := Marked(used[..]);
    var out, index := words, HEADER;
    var aliases: seq<Alias> := [];
    ghost var done: seq<Inst> := [];
    ProgressStart(m, zero, declared);
    while index < |out|
      invariant index == HEADER + |Flatten(done)|
      invariant Progress(m, zero, declared, done, aliases, Marked(used[..]), Marked(firstSeen[..]), out)
      decreases |m.insts| - |done|
    {
      ProgressRead(m, zero, declared, done, aliases, Marked(used[..]), Marked(firstSeen[..]), out);
      var inst: Inst := out[index..index + out[index] / 65536];
      ghost var next, more: seq<Alias> := inst, [];
      ghost var used0, seen0, out0, aliases0 := Marked(used[..]), Marked(firstSeen[..]), out, aliases;
      if Op(inst) == DECORATE && |inst| >= 4 && inst[2] == BINDING && inst[1] in zero {
        var placed := Place(inst[3], used, firstSeen);
        match placed {
          case Err(e) => return Err(e);
          case Ok(None) =>
          case Ok(Some(a)) =>
            out := out[index + 3 := a];
            next, more := inst[3 := a], [Alias(inst[1], inst[3], a)];
            aliases := aliases + [Alias(inst[1], inst[3], a)];
        }
      }
      ProgressStep(m, zero, declared, done, aliases0, used0, seen0, out0, next, more, Marked(used[..]), Marked(firstSeen[..]));
      done := done + [next];
      index := index + |inst|;
    }
    ProgressRead(m, zero, declared, done, aliases, Marked(used[..]), Marked(firstSeen[..]), out);
    r := Ok(Step(out, aliases != [], aliases));
  }
}
