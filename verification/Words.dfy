/** The physical layout of a SPIR-V module: a five-word header followed by a
    stream of instructions, each headed by a word that holds its word count
    (high half) and its opcode (low half). SPIR-V Specification, section 2.3. */
module Words {

  const WORD := 0x1_0000_0000
  const MAGIC := 0x07230203
  const HEADER := 5

  type Word = w: nat | w < WORD

  datatype Option<+T> = None | Some(value: T)

  datatype Error =
    | Truncated(index: int)
    | UnsupportedSpecOp(op: nat, id: nat)
    | BindingLimit(binding: nat)
    | NoFreeBinding
    | Accounting
    | BoundOverflow
    | Unprobed(why: string)
    | Malformed(why: string)

  datatype Result<+T> = Ok(value: T) | Err(error: Error) {
    predicate IsFailure() { Err? }
    function PropagateFailure<U>(): Result<U> requires Err? { Err(error) }
    function Extract(): T requires Ok? { value }
  }

  /** One instruction, head word included. */
  type Inst = seq<Word>

  function Head(count: nat, op: nat): (w: Word)
    requires count < 65536 && op < 65536
    ensures w / 65536 == count && w % 65536 == op
  {
    count * 65536 + op
  }

  predicate WellSized(inst: Inst) {
    0 < |inst| && inst[0] / 65536 == |inst|
  }

  function Op(inst: Inst): nat {
    if inst == [] then 0 else inst[0] % 65536
  }

  ghost predicate AllSized(insts: seq<Inst>) {
    forall i :: 0 <= i < |insts| ==> WellSized(insts[i])
  }

  function Flatten<T>(blocks: seq<seq<T>>): seq<T> {
    if blocks == [] then [] else blocks[0] + Flatten(blocks[1..])
  }

  /** The instructions of the stream from word `at` on, or the word at which
      the stream stops making sense. */
  function Parse(words: seq<Word>, at: nat): Result<seq<Inst>>
    decreases |words| - at
  {
    if at >= |words| then Ok([])
    else
      var count := words[at] / 65536;
      if count == 0 || at + count > |words| then Err(Truncated(at))
      else
        var rest :- Parse(words, at + count);
        Ok([words[at..at + count]] + rest)
  }

  lemma Tail<T>(a: seq<T>, b: seq<T>)
    requires a != []
    ensures a + b != [] && (a + b)[0] == a[0] && (a + b)[1..] == a[1..] + b
  {}

  lemma {:induction false} FlattenAppend<T>(a: seq<seq<T>>, b: seq<seq<T>>)
    ensures Flatten(a + b) == Flatten(a) + Flatten(b)
  {
    if a == [] {
      assert a + b == b;
    } else {
      Tail(a, b);
      FlattenAppend(a[1..], b);
    }
  }

  lemma FlattenSnoc<T>(a: seq<seq<T>>, x: seq<T>)
    ensures Flatten(a + [x]) == Flatten(a) + x
  {
    FlattenAppend(a, [x]);
    FlattenSingle(x);
  }

  lemma FlattenSingle<T>(x: seq<T>)
    ensures Flatten([x]) == x
  {
    assert [x][1..] == [];
  }

  lemma FlattenCons<T>(blocks: seq<seq<T>>, k: nat)
    requires k < |blocks|
    ensures Flatten(blocks[k..]) == blocks[k] + Flatten(blocks[k + 1..])
  {
    assert blocks[k..][1..] == blocks[k + 1..];
  }

  lemma FlattenFirst<T>(blocks: seq<seq<T>>)
    requires blocks != []
    ensures Flatten(blocks) == blocks[0] + Flatten(blocks[1..])
  {}

  lemma CutAt<T>(s: seq<T>, k: nat)
    requires k < |s|
    ensures s == s[..k] + s[k..] && s[..k + 1] == s[..k] + [s[k]] && s[k..] == [s[k]] + s[k + 1..]
  {}

  /** A concatenation of blocks, cut at the block `k`. */
  lemma FlattenAt<T>(blocks: seq<seq<T>>, k: nat)
    requires k < |blocks|
    ensures Flatten(blocks[..k + 1]) == Flatten(blocks[..k]) + blocks[k]
    ensures Flatten(blocks[k..]) == blocks[k] + Flatten(blocks[k + 1..])
    ensures Flatten(blocks) == Flatten(blocks[..k]) + Flatten(blocks[k..])
  {
    hide *;
    CutAt(blocks, k);
    FlattenSnoc(blocks[..k], blocks[k]);
    FlattenCons(blocks, k);
    FlattenAppend(blocks[..k], blocks[k..]);
  }

  /** What is parsed is what was in the stream, and every instruction has the
      length its head word says. */
  lemma {:induction false} ParseSound(words: seq<Word>, at: nat)
    requires at <= |words| && Parse(words, at).Ok?
    ensures Flatten(Parse(words, at).value) == words[at..]
    ensures AllSized(Parse(words, at).value)
    decreases |words| - at
  {
    if at < |words| {
      var count := words[at] / 65536;
      ParseSound(words, at + count);
      var insts := Parse(words, at).value;
      assert insts[1..] == Parse(words, at + count).value;
      assert words[at..] == words[at..at + count] + words[at + count..];
    }
  }

  /** Writing well-sized instructions out and parsing them again is the
      identity, wherever in the stream they stand. */
  lemma {:induction false} ParseFlatten(prefix: seq<Word>, insts: seq<Inst>)
    requires AllSized(insts)
    ensures Parse(prefix + Flatten(insts), |prefix|) == Ok(insts)
    decreases |insts|
  {
    if insts != [] {
      var inst := insts[0];
      ParseFlatten(prefix + inst, insts[1..]);
      CutAt(insts, 0);
      ParseOne(prefix, inst, insts[1..]);
    }
  }

  lemma ParseOne(prefix: seq<Word>, inst: Inst, rest: seq<Inst>)
    requires WellSized(inst) && Parse(prefix + inst + Flatten(rest), |prefix + inst|) == Ok(rest)
    ensures Parse(prefix + Flatten([inst] + rest), |prefix|) == Ok([inst] + rest)
  {
    var words := prefix + Flatten([inst] + rest);
    assert ([inst] + rest)[1..] == rest;
    assert prefix + inst + Flatten(rest) == words;
    assert words[|prefix|] == inst[0];
    assert words[|prefix|..|prefix| + |inst|] == inst;
  }

  /** A parsed module. */
  datatype Module = Module(header: seq<Word>, insts: seq<Inst>) {
    ghost predicate Valid() {
      |header| == HEADER && AllSized(insts)
    }
    function Words(): seq<Word> {
      header + Flatten(insts)
    }
    function Bound(): Word
      requires |header| == HEADER
    {
      header[3]
    }
  }

  lemma Regroup<T>(h: seq<T>, a: seq<T>, x: seq<T>, b: seq<T>)
    ensures h + (a + (x + b)) == (h + a) + x + b
  {}

  lemma FlattenBehind<T>(h: seq<T>, blocks: seq<seq<T>>, x: seq<T>)
    ensures h + Flatten(blocks + [x]) == (h + Flatten(blocks)) + x
  {
    FlattenSnoc(blocks, x);
    Regroup(h, Flatten(blocks), x, []);
  }

  /** The words of a module, cut at the instruction `k`. */
  lemma WordsAt(m: Module, k: nat)
    requires k < |m.insts|
    ensures m.Words() == (m.header + Flatten(m.insts[..k])) + m.insts[k] + Flatten(m.insts[k + 1..])
  {
    FlattenAt(m.insts, k);
    Regroup(m.header, Flatten(m.insts[..k]), m.insts[k], Flatten(m.insts[k + 1..]));
  }

  /** Reading the stream at the position of the instruction `k`. */
  lemma ReadAt(m: Module, k: nat)
    requires m.Valid() && k <= |m.insts|
    ensures var at := HEADER + |Flatten(m.insts[..k])|;
      && (at < |m.Words()| <==> k < |m.insts|) && at <= |m.Words()|
      && (k < |m.insts| ==>
           && m.Words()[at] / 65536 == |m.insts[k]|
           && at + |m.insts[k]| <= |m.Words()|
           && m.Words()[at..at + |m.insts[k]|] == m.insts[k]
           && at + |m.insts[k]| == HEADER + |Flatten(m.insts[..k + 1])|)
  {
    if k < |m.insts| {
      WordsAt(m, k);
      FlattenAt(m.insts, k);
      var at := HEADER + |Flatten(m.insts[..k])|;
      assert m.Words()[at] == m.insts[k][0];
    } else {
      assert m.insts[..k] == m.insts;
    }
  }

  lemma {:induction false} PositionsGrow(insts: seq<Inst>, j: nat, k: nat)
    requires AllSized(insts) && j < k <= |insts|
    ensures |Flatten(insts[..j])| < |Flatten(insts[..k])|
    decreases k - j
  {
    FlattenAt(insts, k - 1);
    if j < k - 1 { PositionsGrow(insts, j, k - 1); }
  }

  lemma SamePosition(insts: seq<Inst>, j: nat, k: nat)
    requires AllSized(insts) && j <= |insts| && k <= |insts|
    ensures |Flatten(insts[..j])| == |Flatten(insts[..k])| <==> j == k
  {
    if j < k { PositionsGrow(insts, j, k); }
    if k < j { PositionsGrow(insts, k, j); }
  }

  /** The instruction at a word index, as every hand-written loop reads it. */
  function InstAt(words: seq<Word>, at: nat): (r: Result<Inst>)
    requires at < |words|
    ensures r.Ok? ==> |r.value| > 0 && at + |r.value| <= |words|
  {
    var count := words[at] / 65536;
    if count == 0 || at + count > |words| then Err(Truncated(at)) else Ok(words[at..at + count])
  }

  function ModuleOf(words: seq<Word>): Result<Module>
    requires HEADER <= |words|
  {
    var insts :- Parse(words, HEADER);
    Ok(Module(words[..HEADER], insts))
  }

  /** Modules and word streams that parse are the same thing. */
  lemma ModuleRoundTrip(words: seq<Word>)
    requires HEADER <= |words|
    ensures ModuleOf(words).Ok? ==> ModuleOf(words).value.Valid() && ModuleOf(words).value.Words() == words
  {
    if ModuleOf(words).Ok? {
      ParseSound(words, HEADER);
      assert words == words[..HEADER] + words[HEADER..];
    }
  }

  lemma WordsRoundTrip(m: Module)
    requires m.Valid()
    ensures |m.Words()| >= HEADER && ModuleOf(m.Words()) == Ok(m)
  {
    ParseFlatten(m.header, m.insts);
    assert m.Words()[..HEADER] == m.header;
  }

  /** One step of the instruction iterator. */
  datatype Located = Located(index: nat, inst: Inst)

  function Instructions(items: seq<Located>): seq<Inst> {
    seq(|items|, i requires 0 <= i < |items| => items[i].inst)
  }

  /** The iterator run to its end: `list(iter_instructions(words))`. */
  method IterInstructions(words: seq<Word>) returns (r: Result<seq<Located>>)
    requires HEADER <= |words|
    ensures r.Ok? == Parse(words, HEADER).Ok?
    ensures r.Err? ==> Parse(words, HEADER) == Err(r.error)
    ensures r.Ok? ==> Parse(words, HEADER) == Ok(Instructions(r.value))
    ensures r.Ok? ==> forall k :: 0 <= k < |r.value| ==>
      r.value[k].index == HEADER + |Flatten(Instructions(r.value)[..k])|
  {
    var index := HEADER;
    var items: seq<Located> := [];
    assert forall rest: seq<Inst> :: Instructions(items) + rest == rest;
    while index < |words|
      invariant HEADER <= index <= |words|
      invariant index == HEADER + |Flatten(Instructions(items))|
      invariant Parse(words, HEADER) ==
        match Parse(words, index) case Ok(rest) => Ok(Instructions(items) + rest) case Err(e) => Err(e)
      invariant forall k :: 0 <= k < |items| ==>
        items[k].index == HEADER + |Flatten(Instructions(items)[..k])|
      decreases |words| - index
    {
      var count := words[index] / 65536;
      if count == 0 || index + count > |words| {
        return Err(Truncated(index));
      }
      var inst := words[index..index + count];
      ghost var before := items;
      items := items + [Located(index, inst)];
      assert Instructions(items) == Instructions(before) + [inst];
      FlattenSnoc(Instructions(before), inst);
      assert forall rest :: Instructions(before) + ([inst] + rest) == Instructions(items) + rest;
      forall k | 0 <= k < |items|
        ensures items[k].index == HEADER + |Flatten(Instructions(items)[..k])|
      {
        if k < |before| {
          assert Instructions(items)[..k] == Instructions(before)[..k];
        } else {
          assert Instructions(items)[..k] == Instructions(before);
        }
      }
      index := index + count;
    }
    assert Instructions(items) + [] == Instructions(items);
    r := Ok(items);
  }
}
