/** What the analyser finds out about a module: descriptors, stores and where
    they go, and the descriptor it picks for a probe buffer. */
module Analysis {
  import opened Words
  import opened Ops
  import opened ControlFlow
  import opened Finite

  const MAX_SETS := 8
  const MAX_BINDINGS := 16
  const OUTPUT_BINDING := 2

  const IN_BOUNDS_ACCESS_CHAIN := 66
  const CLASS_WORKGROUP := 4
  const CLASS_PUSH_CONSTANT := 9

  /** Where a pointer points. */
  datatype Base = Descriptor(id: Word, set_: Word, binding: Word) | PushConstant(id: Word) | Variable(id: Word, storage: Word) | Plain(id: Word)

  /** Through an access chain, or directly. */
  datatype Origin = Chain(base: Base) | Direct(base: Base)

  datatype Store = Store(wordIndex: nat, pointer: Word, stored: Word, origin: Origin)

  // ---- tables ----

  /** Storage class of each variable. */
  function VariablesOf(insts: seq<Inst>): map<Word, Word> {
    if insts == [] then map[]
    else
      var before, inst := VariablesOf(insts[..|insts| - 1]), insts[|insts| - 1];
      if Op(inst) == VARIABLE && |inst| >= 4 then before[inst[2] := inst[3]] else before
  }

  /** The variables in the order of their first declaration. */
  function VariableOrder(insts: seq<Inst>): seq<Word> {
    if insts == [] then []
    else
      var before, inst := VariableOrder(insts[..|insts| - 1]), insts[|insts| - 1];
      if Op(inst) == VARIABLE && |inst| >= 4 && inst[2] !in before then before + [inst[2]] else before
  }

  /** The operand of the last decoration of each id; 1 if it has none. */
  function TagsOf(insts: seq<Inst>, decoration: Word): map<Word, Word> {
    if insts == [] then map[]
    else
      var before, inst := TagsOf(insts[..|insts| - 1], decoration), insts[|insts| - 1];
      if Op(inst) == DECORATE && |inst| >= 3 && inst[2] == decoration then before[inst[1] := if |inst| >= 4 then inst[3] else 1] else before
  }

  /** Base of each access chain. */
  function ChainsOf(insts: seq<Inst>): map<Word, Word> {
    if insts == [] then map[]
    else
      var before, inst := ChainsOf(insts[..|insts| - 1]), insts[|insts| - 1];
      if (Op(inst) == ACCESS_CHAIN || Op(inst) == IN_BOUNDS_ACCESS_CHAIN) && |inst| >= 4 then before[inst[2] := inst[3]] else before
  }

  function BaseOf(insts: seq<Inst>, id: Word): Base {
    var variables, sets, bindings := VariablesOf(insts), TagsOf(insts, DESCRIPTOR_SET), TagsOf(insts, BINDING);
    if id in variables && id in bindings then Descriptor(id, if id in sets then sets[id] else 0, bindings[id])
    else if id in variables && variables[id] == CLASS_PUSH_CONSTANT then PushConstant(id)
    else if id in variables then Variable(id, variables[id])
    else Plain(id)
  }

  function OriginOf(insts: seq<Inst>, pointer: Word): Origin {
    if pointer in ChainsOf(insts) then Chain(BaseOf(insts, ChainsOf(insts)[pointer])) else Direct(BaseOf(insts, pointer))
  }

  /** Set and binding of every variable with a binding. */
  function DeclaredPairs(insts: seq<Inst>, order: seq<Word>): seq<(Word, Word)> {
    if order == [] then []
    else
      var before := DeclaredPairs(insts, order[..|order| - 1]);
      match BaseOf(insts, order[|order| - 1])
      case Descriptor(_, s, b) => before + [(s, b)]
      case _ => before
  }

  function StoresOf(insts: seq<Inst>, items: seq<Located>): seq<Store> {
    if items == [] then []
    else
      var before, at := StoresOf(insts, items[..|items| - 1]), items[|items| - 1];
      if Op(at.inst) == STORE && |at.inst| >= 3
      then before + [Store(at.index, at.inst[1], at.inst[2], OriginOf(insts, at.inst[1]))]
      else before
  }

  lemma {:induction false} StoresAre(insts: seq<Inst>, items: seq<Located>, s: Store)
    requires s in StoresOf(insts, items)
    ensures exists k :: 0 <= k < |items| && items[k].index == s.wordIndex && Op(items[k].inst) == STORE && |items[k].inst| >= 3
  {
    var front, at := items[..|items| - 1], items[|items| - 1];
    if s in StoresOf(insts, front) {
      StoresAre(insts, front, s);
    } else {
      assert items[|front|] == at;
    }
  }

  // ---- the descriptor for the probe buffer ----

  datatype Choice = Choice(set_: nat, binding: nat)

  function Min(s: set<nat>): (m: nat)
    requires s != {}
    ensures m in s && forall n :: n in s ==> m <= n
  {
    MinIs(s);
    var m: nat :| m in s && forall n :: n in s ==> m <= n;
    m
  }

  lemma MinIs(s: set<nat>)
    requires s != {}
    ensures exists m :: m in s && forall n :: n in s ==> m <= n
  {
    var x :| x in s;
    MinExists(s, x);
  }

  lemma {:induction false} MinExists(s: set<nat>, x: nat)
    requires x in s
    ensures exists m :: m in s && forall n :: n in s ==> m <= n
    decreases x
  {
    if n :| n in s && n < x { MinExists(s, n); } else { assert x in s && forall n :: n in s ==> x <= n; }
  }

  /** The elements in increasing order. */
  function Sorted(s: set<nat>): (r: seq<nat>)
    ensures forall n :: n in r <==> n in s
    decreases |s|
  {
    if s == {} then [] else
      SmallerSet(s - {Min(s)}, s);
      [Min(s)] + Sorted(s - {Min(s)})
  }

  function SetsOf(pairs: seq<(Word, Word)>): set<nat> { set p | p in pairs :: p.0 as nat }

  function NumbersOf(pairs: seq<(Word, Word)>): set<nat> { set p | p in pairs :: p.1 as nat }

  /** The least number below 16 that no declared descriptor has, from `b` on. */
  function FreeNumber(numbers: set<nat>, b: nat): (r: Option<nat>)
    ensures r.Some? ==> b <= r.value < MAX_BINDINGS && r.value !in numbers && forall n :: b <= n < r.value ==> n in numbers
    ensures r.None? ==> forall n :: b <= n < MAX_BINDINGS ==> n in numbers
    decreases MAX_BINDINGS - b
  {
    if b >= MAX_BINDINGS then None else if b !in numbers then Some(b) else FreeNumber(numbers, b + 1)
  }

  /** The set is the least declared one, or 0; whatever its number. */
  function ChoiceOf(pairs: seq<(Word, Word)>): Option<Choice> {
    match FreeNumber(NumbersOf(pairs), 0)
    case None => None
    case Some(b) => Some(Choice(if SetsOf(pairs) == {} then 0 else Min(SetsOf(pairs)), b))
  }

  /** The search goes through all declared sets, then through the rest of the
      first eight, and in each through the numbers below 16. A number is taken
      only if no declared descriptor of any set has it, so the first set decides. */
  method ChooseDebugDescriptor(pairs: seq<(Word, Word)>) returns (r: Option<Choice>)
    ensures r == ChoiceOf(pairs)
  {
    var numbers := NumbersOf(pairs);
    var preferred: seq<nat> := if SetsOf(pairs) == {} then [0] else Sorted(SetsOf(pairs));
    PreferredFirst(pairs);
    var sets: seq<nat> := preferred;
    for s: nat := 0 to MAX_SETS
      invariant preferred <= sets
    {
      if s !in preferred { sets := sets + [s]; }
    }
    for i := 0 to |sets|
      invariant i > 0 ==> FreeNumber(numbers, 0).None?
    {
      for binding := 0 to MAX_BINDINGS
        invariant FreeNumber(numbers, 0) == FreeNumber(numbers, binding)
      {
        if !UsedPair(pairs, sets[i], binding) && binding !in numbers {
          FirstSet(preferred, sets, i, numbers);
          return Some(Choice(sets[i], binding));
        }
        if binding !in numbers { PairNumber(pairs, sets[i], binding); }
      }
    }
    r := None;
  }

  predicate UsedPair(pairs: seq<(Word, Word)>, s: nat, b: nat) {
    exists p :: p in pairs && p.0 == s && p.1 == b
  }

  lemma PairNumber(pairs: seq<(Word, Word)>, s: nat, b: nat)
    requires UsedPair(pairs, s, b)
    ensures b in NumbersOf(pairs)
  {}

  lemma PreferredFirst(pairs: seq<(Word, Word)>)
    ensures SetsOf(pairs) != {} ==> Sorted(SetsOf(pairs)) != [] && Sorted(SetsOf(pairs))[0] == Min(SetsOf(pairs))
  {}

  lemma FirstSet(preferred: seq<nat>, sets: seq<nat>, i: nat, numbers: set<nat>)
    requires preferred != [] && preferred <= sets && i < |sets| && (i > 0 ==> FreeNumber(numbers, 0).None?) && FreeNumber(numbers, 0).Some?
    ensures i == 0 && sets[i] == preferred[0]
  {}

  /** A descriptor is found exactly if one of the sixteen numbers is free. It has the
      least free number, which collides with none that is declared, and the least
      declared set, or 0; but its set may be 8 or more. */
  lemma ChoiceMeans(pairs: seq<(Word, Word)>)
    ensures ChoiceOf(pairs).Some? <==> exists b :: 0 <= b < MAX_BINDINGS && b !in NumbersOf(pairs)
    ensures ChoiceOf(pairs).Some? ==> ChoiceOf(pairs).value.binding < MAX_BINDINGS && ChoiceOf(pairs).value.binding !in NumbersOf(pairs)
    ensures ChoiceOf(pairs).Some? ==> forall b :: 0 <= b < ChoiceOf(pairs).value.binding ==> b in NumbersOf(pairs)
    ensures ChoiceOf(pairs).Some? ==> var s := ChoiceOf(pairs).value.set_;
      if pairs == [] then s == 0 else (exists p :: p in pairs && p.0 as nat == s) && forall p :: p in pairs ==> p.0 as nat >= s
    ensures ChoiceOf(pairs).Some? ==>
      (ChoiceOf(pairs).value.set_ < MAX_SETS <==> pairs == [] || exists p :: p in pairs && p.0 < MAX_SETS)
  {
    if pairs != [] {
      assert pairs[0] in pairs && pairs[0].0 as nat in SetsOf(pairs);
      var m := Min(SetsOf(pairs));
      var p :| p in pairs && p.0 as nat == m;
      forall q | q in pairs ensures q.0 as nat >= m { assert q.0 as nat in SetsOf(pairs); }
      if exists q :: q in pairs && q.0 < MAX_SETS {
        var q :| q in pairs && q.0 < MAX_SETS;
        assert q.0 as nat in SetsOf(pairs);
      }
    } else {
      assert SetsOf(pairs) == {};
    }
  }

  /** One descriptor, at set 8: the set chosen is 8, beyond the limit of eight sets. */
  lemma SetTooLarge()
    ensures ChoiceOf([(8, 0)]) == Some(Choice(8, 1)) && !(ChoiceOf([(8, 0)]).value.set_ < MAX_SETS)
  {
    var pairs: seq<(Word, Word)> := [(8, 0)];
    assert pairs[0] in pairs;
    assert SetsOf(pairs) == {8} && NumbersOf(pairs) == {0};
    assert FreeNumber({0}, 0) == FreeNumber({0}, 1) == Some(1);
  }
}
