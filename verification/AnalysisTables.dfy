/** What the analyser knows of variables, decorations, pointers and stores, read
    off the instructions. */
module AnalysisTables {
  import opened Words
  import opened Ops
  import opened ControlFlow
  import opened Analysis

  /** The last instruction of a kind. */
  ghost predicate LastAt(insts: seq<Inst>, kind: Inst -> bool, k: nat) {
    k < |insts| && kind(insts[k]) && forall j: nat :: k < j < |insts| ==> !kind(insts[j])
  }

  ghost predicate None(insts: seq<Inst>, kind: Inst -> bool) { forall k: nat :: k < |insts| ==> !kind(insts[k]) }

  lemma LastMore(front: seq<Inst>, inst: Inst, kind: Inst -> bool, k: nat)
    ensures LastAt(front + [inst], kind, k) <==> if kind(inst) then k == |front| else LastAt(front, kind, k)
    ensures None(front + [inst], kind) <==> !kind(inst) && None(front, kind)
  {
    var insts := front + [inst];
    assert insts[|front|] == inst && forall j: nat :: j < |front| ==> insts[j] == front[j];
  }

  /** A variable; a decoration of an id; an access chain to an id. */
  function Variables(id: Word): Inst -> bool { (inst: Inst) => Op(inst) == VARIABLE && |inst| >= 4 && inst[2] == id }

  function Decorations(id: Word, decoration: Word): Inst -> bool {
    (inst: Inst) => Op(inst) == DECORATE && |inst| >= 3 && inst[2] == decoration && inst[1] == id
  }

  function Chains(id: Word): Inst -> bool { (inst: Inst) => (Op(inst) == 65 || Op(inst) == 66) && |inst| >= 4 && inst[2] == id }

  /** The operand of the last such decoration, 1 if it has none. */
  ghost predicate TagIs(insts: seq<Inst>, id: Word, decoration: Word, v: Word) {
    exists k: nat :: LastAt(insts, Decorations(id, decoration), k) && v == if |insts[k]| >= 4 then insts[k][3] else 1
  }

  ghost predicate StorageIs(insts: seq<Inst>, id: Word, storage: Word) { exists k: nat :: LastAt(insts, Variables(id), k) && insts[k][3] == storage }

  ghost predicate ChainTo(insts: seq<Inst>, id: Word, base: Word) { exists k: nat :: LastAt(insts, Chains(id), k) && insts[k][3] == base }

  lemma {:induction false} TagsIff(insts: seq<Inst>, id: Word, decoration: Word, v: Word)
    ensures id in TagsOf(insts, decoration) && TagsOf(insts, decoration)[id] == v <==> TagIs(insts, id, decoration, v)
    ensures id !in TagsOf(insts, decoration) <==> None(insts, Decorations(id, decoration))
  {
    hide LastAt, None;
    if insts == [] {
      NothingLast(Decorations(id, decoration));
    } else {
      var front, inst := insts[..|insts| - 1], insts[|insts| - 1];
      TagsIff(front, id, decoration, v);
      assert insts == front + [inst];
      forall k: nat ensures LastAt(insts, Decorations(id, decoration), k) <==> if Decorations(id, decoration)(inst) then k == |front| else LastAt(front, Decorations(id, decoration), k) {
        LastMore(front, inst, Decorations(id, decoration), k);
      }
      LastMore(front, inst, Decorations(id, decoration), 0);
      assert LastAt(insts, Decorations(id, decoration), |front|) <== Decorations(id, decoration)(inst);
      forall k: nat | LastAt(front, Decorations(id, decoration), k) ensures k < |front| && insts[k] == front[k] { LastBelow(front, Decorations(id, decoration), k); }
    }
  }

  lemma NothingLast(kind: Inst -> bool)
    ensures None([], kind) && forall k: nat :: !LastAt([], kind, k)
  {}

  lemma LastBelow(insts: seq<Inst>, kind: Inst -> bool, k: nat)
    ensures LastAt(insts, kind, k) ==> k < |insts| && kind(insts[k])
  {}

  lemma {:induction false} VariablesIff(insts: seq<Inst>, id: Word, storage: Word)
    ensures id in VariablesOf(insts) && VariablesOf(insts)[id] == storage <==> StorageIs(insts, id, storage)
    ensures id !in VariablesOf(insts) <==> None(insts, Variables(id))
    ensures id in VariableOrder(insts) <==> !None(insts, Variables(id))
  {
    hide LastAt, None;
    if insts == [] {
      NothingLast(Variables(id));
    } else {
      var front, inst := insts[..|insts| - 1], insts[|insts| - 1];
      VariablesIff(front, id, storage);
      assert insts == front + [inst];
      forall k: nat ensures LastAt(insts, Variables(id), k) <==> if Variables(id)(inst) then k == |front| else LastAt(front, Variables(id), k) {
        LastMore(front, inst, Variables(id), k);
      }
      LastMore(front, inst, Variables(id), 0);
      assert LastAt(insts, Variables(id), |front|) <== Variables(id)(inst);
      forall k: nat | LastAt(front, Variables(id), k) ensures k < |front| && insts[k] == front[k] && |front[k]| >= 4 { LastBelow(front, Variables(id), k); }
    }
  }

  lemma {:induction false} ChainsIff(insts: seq<Inst>, id: Word, base: Word)
    ensures id in ChainsOf(insts) && ChainsOf(insts)[id] == base <==> ChainTo(insts, id, base)
    ensures id !in ChainsOf(insts) <==> None(insts, Chains(id))
  {
    hide LastAt, None;
    if insts == [] {
      NothingLast(Chains(id));
    } else {
      var front, inst := insts[..|insts| - 1], insts[|insts| - 1];
      ChainsIff(front, id, base);
      assert insts == front + [inst];
      forall k: nat ensures LastAt(insts, Chains(id), k) <==> if Chains(id)(inst) then k == |front| else LastAt(front, Chains(id), k) {
        LastMore(front, inst, Chains(id), k);
      }
      LastMore(front, inst, Chains(id), 0);
      assert LastAt(insts, Chains(id), |front|) <== Chains(id)(inst);
      forall k: nat | LastAt(front, Chains(id), k) ensures k < |front| && insts[k] == front[k] && |front[k]| >= 4 { LastBelow(front, Chains(id), k); }
    }
  }

  // ---- descriptors ----

  /** A variable with a binding is a descriptor; its set is 0 if it has none. */
  ghost predicate DescriptorIs(insts: seq<Inst>, id: Word, s: Word, b: Word) {
    && !None(insts, Variables(id)) && TagIs(insts, id, BINDING, b)
    && (TagIs(insts, id, DESCRIPTOR_SET, s) || (s == 0 && None(insts, Decorations(id, DESCRIPTOR_SET))))
  }

  lemma BaseIff(insts: seq<Inst>, id: Word, s: Word, b: Word)
    ensures BaseOf(insts, id) == Descriptor(id, s, b) <==> DescriptorIs(insts, id, s, b)
    ensures BaseOf(insts, id).Descriptor? ==> BaseOf(insts, id).id == id
  {
    hide TagIs, None, StorageIs;
    var sets, bindings := TagsOf(insts, DESCRIPTOR_SET), TagsOf(insts, BINDING);
    VariablesIff(insts, id, 0);
    TagsIff(insts, id, BINDING, b);
    TagsIff(insts, id, DESCRIPTOR_SET, s);
  }

  /** Set and binding are listed exactly for the descriptors. */
  lemma PairsIff(insts: seq<Inst>, s: Word, b: Word)
    ensures (s, b) in DeclaredPairs(insts, VariableOrder(insts)) <==> exists id: Word :: DescriptorIs(insts, id, s, b)
  {
    hide DescriptorIs, BaseOf, VariableOrder;
    PairsOf(insts, VariableOrder(insts), s, b);
    forall id: Word ensures BaseOf(insts, id) == Descriptor(id, s, b) <==> DescriptorIs(insts, id, s, b) { BaseIff(insts, id, s, b); }
    forall id: Word | DescriptorIs(insts, id, s, b) ensures id in VariableOrder(insts) { DescriptorDeclared(insts, id, s, b); }
  }

  lemma DescriptorDeclared(insts: seq<Inst>, id: Word, s: Word, b: Word)
    requires DescriptorIs(insts, id, s, b)
    ensures id in VariableOrder(insts)
  {
    VariablesIff(insts, id, 0);
  }

  lemma {:induction false} PairsOf(insts: seq<Inst>, order: seq<Word>, s: Word, b: Word)
    ensures (s, b) in DeclaredPairs(insts, order) <==> exists id :: id in order && BaseOf(insts, id) == Descriptor(id, s, b)
  {
    hide BaseOf;
    if order != [] {
      var front, id := order[..|order| - 1], order[|order| - 1];
      PairsOf(insts, front, s, b);
      assert order == front + [id];
      BaseId(insts, id);
    }
  }

  lemma BaseId(insts: seq<Inst>, id: Word)
    ensures BaseOf(insts, id).id == id
  {}

  // ---- stores ----

  /** What a store goes to: a descriptor, push constants, another variable with its
      storage class, or something else. */
  ghost predicate SiteIs(insts: seq<Inst>, id: Word, base: Base) {
    match base
    case Descriptor(i, s, b) => i == id && DescriptorIs(insts, id, s, b)
    case PushConstant(i) => i == id && None(insts, Decorations(id, BINDING)) && StorageIs(insts, id, 9)
    case Variable(i, storage) => i == id && storage != 9 && None(insts, Decorations(id, BINDING)) && StorageIs(insts, id, storage)
    case Plain(i) => i == id && None(insts, Variables(id))
  }

  ghost predicate OriginIs(insts: seq<Inst>, pointer: Word, origin: Origin) {
    match origin
    case Chain(base) => exists id: Word :: ChainTo(insts, pointer, id) && SiteIs(insts, id, base)
    case Direct(base) => None(insts, Chains(pointer)) && SiteIs(insts, pointer, base)
  }

  lemma SiteExact(insts: seq<Inst>, id: Word)
    ensures SiteIs(insts, id, BaseOf(insts, id))
  {
    hide TagIs, None, StorageIs, DescriptorIs;
    var base, vars := BaseOf(insts, id), VariablesOf(insts);
    BaseId(insts, id);
    TagsIff(insts, id, BINDING, 0);
    VariablesIff(insts, id, if id in vars then vars[id] else 0);
    if base.Descriptor? { BaseIff(insts, id, base.set_, base.binding); }
  }

  lemma OriginExact(insts: seq<Inst>, pointer: Word)
    ensures OriginIs(insts, pointer, OriginOf(insts, pointer))
  {
    hide SiteIs, BaseOf, None, ChainTo;
    var chains := ChainsOf(insts);
    ChainsIff(insts, pointer, if pointer in chains then chains[pointer] else 0);
    SiteExact(insts, if pointer in chains then chains[pointer] else pointer);
  }

  /** The stores are listed in order, each with where it goes. */
  ghost predicate StoresAt(insts: seq<Inst>, items: seq<Located>, stores: seq<Store>, at: seq<nat>) {
    && |at| == |stores| && (forall i, j :: 0 <= i < j < |at| ==> at[i] < at[j])
    && (forall k: nat :: k < |items| ==> (k in at <==> Op(items[k].inst) == 62 && |items[k].inst| >= 3))
    && forall j :: 0 <= j < |at| ==> at[j] < |items| && StoreIs(insts, items[at[j]], stores[j])
  }

  ghost predicate StoreIs(insts: seq<Inst>, at: Located, s: Store) {
    && |at.inst| >= 3 && s.wordIndex == at.index && s.pointer == at.inst[1] && s.stored == at.inst[2]
    && OriginIs(insts, s.pointer, s.origin)
  }

  lemma {:induction false} StoresExact(insts: seq<Inst>, items: seq<Located>) returns (at: seq<nat>)
    ensures StoresAt(insts, items, StoresOf(insts, items), at)
  {
    hide OriginIs, OriginOf, StoresAt;
    at := [];
    if items == [] {
      StoresNone(insts);
    } else {
      var n := |items| - 1;
      at := StoresExact(insts, items[..n]);
      assert items[..n] + [items[n]] == items;
      if |items[n].inst| >= 3 { OriginExact(insts, items[n].inst[1]); }
      StoresMore(insts, items[..n], items[n], StoresOf(insts, items[..n]), at);
      if Op(items[n].inst) == STORE && |items[n].inst| >= 3 { at := at + [n]; }
    }
  }

  lemma StoresNone(insts: seq<Inst>)
    ensures StoresAt(insts, [], [], [])
  {}

  lemma StoresMore(insts: seq<Inst>, items: seq<Located>, x: Located, stores: seq<Store>, at: seq<nat>)
    requires StoresAt(insts, items, stores, at) && (|x.inst| >= 3 ==> OriginIs(insts, x.inst[1], OriginOf(insts, x.inst[1])))
    ensures if Op(x.inst) == STORE && |x.inst| >= 3
      then StoresAt(insts, items + [x], stores + [Store(x.index, x.inst[1], x.inst[2], OriginOf(insts, x.inst[1]))], at + [|items|])
      else StoresAt(insts, items + [x], stores, at)
  {
    hide OriginIs, OriginOf;
    var more, ids := items + [x], at + [|items|];
    assert more[|items|] == x && forall k: nat :: k < |items| ==> more[k] == items[k];
    if Op(x.inst) == STORE && |x.inst| >= 3 {
      forall k: nat | k < |more| ensures k in ids <==> Op(more[k].inst) == 62 && |more[k].inst| >= 3 { if k < |items| { assert k in ids <==> k in at; } }
      forall i, j | 0 <= i < j < |ids| ensures ids[i] < ids[j] {}
    } else {
      forall k: nat | k < |more| ensures k in at <==> Op(more[k].inst) == 62 && |more[k].inst| >= 3 {}
    }
  }
}
