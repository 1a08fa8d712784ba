/** The descriptor the analyser picks for the probe buffer is one that the
    instrumented module can use without being noticed. */
module ProbeDescriptor {
  import opened Words
  import opened Ops
  import opened Machine
  import opened Meaning
  import Analysis
  import InstrumentSound

  /** Decorations of a kind carry their operand (section 3.20), and what they are on is a variable. */
  ghost predicate Decorated(insts: seq<Inst>, decoration: Word) {
    forall i :: 0 <= i < |insts| && Op(insts[i]) == DECORATE && |insts[i]| >= 3 && insts[i][2] == decoration ==> |insts[i]| >= 4
  }

  ghost predicate OnVariables(insts: seq<Inst>) {
    forall v :: v in Decorations(insts, BINDING) ==> v in Analysis.VariablesOf(insts)
  }

  lemma {:induction false} TagsAgree(insts: seq<Inst>, decoration: Word, v: nat)
    requires Decorated(insts, decoration)
    ensures v in Decorations(insts, decoration) <==> v in Analysis.TagsOf(insts, decoration)
    ensures v in Decorations(insts, decoration) ==> Decorations(insts, decoration)[v] == Analysis.TagsOf(insts, decoration)[v]
  {
    if insts != [] {
      var front := insts[..|insts| - 1];
      assert forall i :: 0 <= i < |front| ==> front[i] == insts[i];
      TagsAgree(front, decoration, v);
    }
  }

  lemma {:induction false} OrderHolds(insts: seq<Inst>, v: Word)
    ensures v in Analysis.VariablesOf(insts) <==> v in Analysis.VariableOrder(insts)
  {
    if insts != [] { OrderHolds(insts[..|insts| - 1], v); }
  }

  lemma {:induction false} PairListed(insts: seq<Inst>, order: seq<Word>, v: Word)
    requires v in order && Analysis.BaseOf(insts, v).Descriptor?
    ensures exists p :: p in Analysis.DeclaredPairs(insts, order) && p.1 == Analysis.BaseOf(insts, v).binding
  {
    hide Analysis.BaseOf;
    var front, last := order[..|order| - 1], order[|order| - 1];
    if v != last {
      PairListed(insts, front, v);
      var p :| p in Analysis.DeclaredPairs(insts, front) && p.1 == Analysis.BaseOf(insts, v).binding;
      assert p in Analysis.DeclaredPairs(insts, order);
    } else {
      var base := Analysis.BaseOf(insts, v);
      assert (base.set_, base.binding) in Analysis.DeclaredPairs(insts, order);
    }
  }

  /** No variable of the module has the chosen number. */
  lemma ChosenIsUnused(insts: seq<Inst>, choice: Analysis.Choice, v: nat)
    requires Analysis.ChoiceOf(Analysis.DeclaredPairs(insts, Analysis.VariableOrder(insts))) == Some(choice)
    requires Decorated(insts, BINDING) && OnVariables(insts) && v in Decorations(insts, BINDING)
    ensures Decorations(insts, BINDING)[v] != choice.binding
  {
    hide Analysis.ChoiceOf, Analysis.DeclaredPairs, Analysis.VariableOrder, Analysis.VariablesOf, Analysis.TagsOf, Decorations, Decorated;
    var pairs := Analysis.DeclaredPairs(insts, Analysis.VariableOrder(insts));
    TagsAgree(insts, BINDING, v);
    OrderHolds(insts, v);
    PairListed(insts, Analysis.VariableOrder(insts), v);
    var p :| p in pairs && p.1 == Analysis.BaseOf(insts, v).binding;
    Analysis.ChoiceMeans(pairs);
    assert p.1 as nat in Analysis.NumbersOf(pairs);
  }

  /** If the dispatch binds a buffer of its own to the chosen descriptor, that is
      all the instrumented module needs. */
  lemma ChosenIsFree(w: World, m: Module, choice: Analysis.Choice, table: Table)
    requires Analysis.ChoiceOf(Analysis.DeclaredPairs(m.insts, Analysis.VariableOrder(m.insts))) == Some(choice)
    requires Decorated(m.insts, BINDING) && OnVariables(m.insts) && choice.set_ < WORD
    requires var key := (choice.set_, choice.binding);
      key in table && table[key] !in w.rom && forall other :: other in table && other != key ==> table[other] != table[key]
    ensures InstrumentSound.Free(w, m, choice.set_, choice.binding, table)
  {
    hide Analysis.ChoiceOf, Decorations;
    Analysis.ChoiceMeans(Analysis.DeclaredPairs(m.insts, Analysis.VariableOrder(m.insts)));
    var key := (choice.set_, choice.binding);
    forall v | v in Buffers(m.insts, table)
      ensures Buffers(m.insts, table)[v] != table[key]
    {
      ChosenIsUnused(m.insts, choice, v);
      var other := (Decorations(m.insts, DESCRIPTOR_SET)[v] as nat, Decorations(m.insts, BINDING)[v] as nat);
      assert other in table && Buffers(m.insts, table)[v] == table[other];
    }
  }
}
