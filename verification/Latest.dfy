/** The declarations that a scan remembers: the latest type of a width, and the
    latest pointers, vectors and constants of the type that was latest then. */
module Latest {
  import opened Words
  import opened Ops
  import opened Meaning

  /** Position `k` holds the last instruction of a kind, and its word `o` is the id. */
  ghost predicate LatestIs(insts: seq<Inst>, kind: (seq<Inst>, nat) -> bool, o: nat, id: Word) {
    exists k: nat :: LatestAt(insts, kind, o, id, k)
  }

  ghost predicate LatestAt(insts: seq<Inst>, kind: (seq<Inst>, nat) -> bool, o: nat, id: Word, k: nat) {
    k < |insts| && kind(insts, k) && o < |insts[k]| && insts[k][o] == id && forall j: nat :: k < j < |insts| ==> !kind(insts, j)
  }

  predicate UnsignedAt(insts: seq<Inst>, k: nat, width: nat) {
    k < |insts| && Op(insts[k]) == TYPE_INT && |insts[k]| >= 4 && insts[k][2] == width && insts[k][3] == 0
  }

  function Unsigned(width: nat): (seq<Inst>, nat) -> bool { (insts: seq<Inst>, k: nat) => UnsignedAt(insts, k, width) }

  /** The unsigned type of that width that was declared last in front of `k`. */
  ghost predicate Current(insts: seq<Inst>, k: nat, width: nat, id: Word) {
    k <= |insts| && id != 0 && LatestIs(insts[..k], Unsigned(width), 1, id)
  }

  ghost predicate PointerAt(insts: seq<Inst>, k: nat, width: nat) {
    k < |insts| && Op(insts[k]) == TYPE_POINTER && |insts[k]| >= 4 && insts[k][2] == STORAGE_BUFFER && Current(insts, k, width, insts[k][3])
  }

  ghost function Pointer(width: nat): (seq<Inst>, nat) -> bool { (insts: seq<Inst>, k: nat) => PointerAt(insts, k, width) }

  ghost predicate NumberAt(insts: seq<Inst>, k: nat, v: Word) {
    k < |insts| && Op(insts[k]) == CONSTANT && |insts[k]| >= 4 && insts[k][3] == v && Current(insts, k, 32, insts[k][1])
  }

  ghost function Number(v: Word): (seq<Inst>, nat) -> bool { (insts: seq<Inst>, k: nat) => NumberAt(insts, k, v) }

  /** A vector of four of the 8-bit type. */
  ghost predicate QuadAt(insts: seq<Inst>, k: nat) {
    k < |insts| && Op(insts[k]) == TYPE_VECTOR && |insts[k]| >= 4 && insts[k][3] == 4 && Current(insts, k, 8, insts[k][2])
  }

  ghost function Quad(): (seq<Inst>, nat) -> bool { (insts: seq<Inst>, k: nat) => QuadAt(insts, k) }

  // ---- one more instruction ----

  /** The kind of an instruction depends on what is in front of it. */
  ghost predicate Local(kind: (seq<Inst>, nat) -> bool) {
    forall front: seq<Inst>, inst: Inst, k: nat :: k < |front| ==> kind(front + [inst], k) == kind(front, k)
  }

  lemma LatestMore(front: seq<Inst>, inst: Inst, kind: (seq<Inst>, nat) -> bool, o: nat, id: Word)
    requires Local(kind) && (kind(front + [inst], |front|) ==> o < |inst|)
    ensures LatestIs(front + [inst], kind, o, id) <==> if kind(front + [inst], |front|) then inst[o] == id else LatestIs(front, kind, o, id)
  {
    var insts := front + [inst];
    assert insts[|front|] == inst && forall k: nat :: k < |front| ==> insts[k] == front[k];
    assert forall k: nat :: k < |front| ==> kind(insts, k) == kind(front, k);
    if k: nat :| LatestAt(insts, kind, o, id, k) {
      if k < |front| && !kind(insts, |front|) { assert LatestAt(front, kind, o, id, k); }
    }
    if kind(insts, |front|) {
      if inst[o] == id { assert LatestAt(insts, kind, o, id, |front|); }
    } else if k: nat :| LatestAt(front, kind, o, id, k) {
      assert LatestAt(insts, kind, o, id, k);
    }
  }

  lemma LatestNone(kind: (seq<Inst>, nat) -> bool, o: nat, id: Word)
    ensures !LatestIs([], kind, o, id)
  {}

  lemma UnsignedLocal(width: nat)
    ensures Local(Unsigned(width))
  {}

  lemma CurrentLocal(front: seq<Inst>, inst: Inst, k: nat, width: nat, id: Word)
    requires k <= |front|
    ensures Current(front + [inst], k, width, id) == Current(front, k, width, id)
  {
    assert (front + [inst])[..k] == front[..k];
  }

  lemma PointerLocal(width: nat)
    ensures Local(Pointer(width))
  {
    forall front: seq<Inst>, inst: Inst, k: nat | k < |front| ensures PointerAt(front + [inst], k, width) == PointerAt(front, k, width) {
      if |front[k]| >= 4 { CurrentLocal(front, inst, k, width, front[k][3]); }
    }
  }

  lemma NumberLocal(v: Word)
    ensures Local(Number(v))
  {
    forall front: seq<Inst>, inst: Inst, k: nat | k < |front| ensures NumberAt(front + [inst], k, v) == NumberAt(front, k, v) {
      if |front[k]| >= 4 { CurrentLocal(front, inst, k, 32, front[k][1]); }
    }
  }

  lemma QuadLocal()
    ensures Local(Quad())
  {
    forall front: seq<Inst>, inst: Inst, k: nat | k < |front| ensures QuadAt(front + [inst], k) == QuadAt(front, k) {
      if |front[k]| >= 4 { CurrentLocal(front, inst, k, 8, front[k][2]); }
    }
  }

  // ---- a remembered id ----

  /** The scan has this id exactly if it is the latest; 0 stands for none. */
  ghost predicate Remembers(insts: seq<Inst>, kind: (seq<Inst>, nat) -> bool, o: nat, held: Word) {
    forall id: Word :: id != 0 ==> (held == id <==> LatestIs(insts, kind, o, id))
  }

  lemma RemembersOne(insts: seq<Inst>, kind: (seq<Inst>, nat) -> bool, o: nat, a: Word, b: Word)
    requires Remembers(insts, kind, o, a) && Remembers(insts, kind, o, b)
    ensures a == b
  {
    if a != 0 { assert LatestIs(insts, kind, o, a); }
    if b != 0 { assert LatestIs(insts, kind, o, b); }
  }

  lemma RemembersMore(front: seq<Inst>, inst: Inst, kind: (seq<Inst>, nat) -> bool, o: nat, held: Word)
    requires Local(kind) && Remembers(front, kind, o, held) && (kind(front + [inst], |front|) ==> o < |inst|)
    ensures Remembers(front + [inst], kind, o, if kind(front + [inst], |front|) then inst[o] else held)
  {
    forall id: Word | id != 0
      ensures (if kind(front + [inst], |front|) then inst[o] else held) == id <==> LatestIs(front + [inst], kind, o, id)
    {
      LatestMore(front, inst, kind, o, id);
    }
  }

  lemma RemembersNone(kind: (seq<Inst>, nat) -> bool, o: nat)
    ensures Remembers([], kind, o, 0)
  {
    forall id: Word | id != 0 ensures !LatestIs([], kind, o, id) { LatestNone(kind, o, id); }
  }

  /** What the current type is at the end. */
  lemma CurrentIs(insts: seq<Inst>, width: nat, held: Word, id: Word)
    requires Remembers(insts, Unsigned(width), 1, held)
    ensures Current(insts, |insts|, width, id) <==> held != 0 && id == held
  {
    assert insts[..|insts|] == insts;
  }

  /** One step of each kind. */
  lemma UnsignedNext(front: seq<Inst>, inst: Inst, width: nat, held: Word)
    requires Remembers(front, Unsigned(width), 1, held)
    ensures Remembers(front + [inst], Unsigned(width), 1, if IsInt(inst, width) then inst[1] else held)
  {
    hide Remembers;
    UnsignedLocal(width);
    assert Unsigned(width)(front + [inst], |front|) == IsInt(inst, width);
    RemembersMore(front, inst, Unsigned(width), 1, held);
  }

  lemma PointerNext(front: seq<Inst>, inst: Inst, width: nat, type_: Word, held: Word)
    requires Remembers(front, Unsigned(width), 1, type_) && Remembers(front, Pointer(width), 1, held)
    ensures Remembers(front + [inst], Pointer(width), 1,
      if Op(inst) == TYPE_POINTER && |inst| >= 4 && inst[2] == STORAGE_BUFFER && type_ != 0 && inst[3] == type_ then inst[1] else held)
  {
    hide Remembers;
    PointerLocal(width);
    if |inst| >= 4 {
      CurrentLocal(front, inst, |front|, width, inst[3]);
      CurrentIs(front, width, type_, inst[3]);
    }
    assert Pointer(width)(front + [inst], |front|) == PointerAt(front + [inst], |front|, width);
    RemembersMore(front, inst, Pointer(width), 1, held);
  }

  lemma NumberNext(front: seq<Inst>, inst: Inst, v: Word, type_: Word, held: Word)
    requires Remembers(front, Unsigned(32), 1, type_) && Remembers(front, Number(v), 2, held)
    ensures Remembers(front + [inst], Number(v), 2,
      if Op(inst) == CONSTANT && |inst| >= 4 && type_ != 0 && inst[1] == type_ && inst[3] == v then inst[2] else held)
  {
    hide Remembers;
    NumberLocal(v);
    if |inst| >= 4 {
      CurrentLocal(front, inst, |front|, 32, inst[1]);
      CurrentIs(front, 32, type_, inst[1]);
    }
    assert Number(v)(front + [inst], |front|) == NumberAt(front + [inst], |front|, v);
    RemembersMore(front, inst, Number(v), 2, held);
  }

  lemma QuadNext(front: seq<Inst>, inst: Inst, type_: Word, held: Word)
    requires Remembers(front, Unsigned(8), 1, type_) && Remembers(front, Quad(), 1, held)
    ensures Remembers(front + [inst], Quad(), 1,
      if Op(inst) == TYPE_VECTOR && |inst| >= 4 && type_ != 0 && inst[2] == type_ && inst[3] == 4 then inst[1] else held)
  {
    hide Remembers;
    QuadLocal();
    if |inst| >= 4 {
      CurrentLocal(front, inst, |front|, 8, inst[2]);
      CurrentIs(front, 8, type_, inst[2]);
    }
    assert Quad()(front + [inst], |front|) == QuadAt(front + [inst], |front|);
    RemembersMore(front, inst, Quad(), 1, held);
  }
}
