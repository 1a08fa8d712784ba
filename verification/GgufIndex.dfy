/** The GGUF header, metadata and tensor table, and what an index of them says
    about byte ranges. */
module GgufIndex {
  import opened Words
  import opened Gguf

  datatype Tensor = Tensor(name: seq<Byte>, shape: seq<nat>, ggmlType: nat, offset: nat)

  datatype Entry = Entry(key: seq<Byte>, value: Value)

  /** Header, metadata and tensor table of a file. */
  datatype Table = Table(version: nat, metadata: seq<Entry>, tensors: seq<Tensor>)

  // ---- reading ----

  function ParseEntry(data: seq<Byte>, pos: nat): (r: Result<At<Entry>>)
    requires pos <= |data|
    ensures r.Ok? ==> pos < r.value.pos <= |data|
  {
    var key :- ReadString(data, pos);
    var t :- Unsigned(data, key.pos, 4);
    var v :- ParseValue(data, t.pos, t.value);
    Ok(At(Entry(key.value, v.value), v.pos))
  }

  function ParseEntries(data: seq<Byte>, pos: nat, count: nat): (r: Result<At<seq<Entry>>>)
    requires pos <= |data|
    ensures r.Ok? ==> pos <= r.value.pos <= |data| && |r.value.value| == count
    decreases count
  {
    if count == 0 then Ok(At([], pos))
    else
      var e :- ParseEntry(data, pos);
      Behind([e.value], ParseEntries(data, e.pos, count - 1))
  }

  function ParseDims(data: seq<Byte>, pos: nat, count: nat): (r: Result<At<seq<nat>>>)
    ensures r.Ok? ==> pos <= r.value.pos && (pos <= |data| ==> r.value.pos <= |data|) && |r.value.value| == count
    decreases count
  {
    if count == 0 then Ok(At([], pos))
    else
      var n :- Unsigned(data, pos, 8);
      Behind([n.value], ParseDims(data, n.pos, count - 1))
  }

  function ParseTensor(data: seq<Byte>, pos: nat): (r: Result<At<Tensor>>)
    ensures r.Ok? ==> pos < r.value.pos <= |data|
  {
    var name :- ReadString(data, pos);
    var dims :- Unsigned(data, name.pos, 4);
    if dims.value > MAX_DIMS then Err(Malformed("dimension count"))
    else
      var shape :- ParseDims(data, dims.pos, dims.value);
      var t :- Unsigned(data, shape.pos, 4);
      var offset :- Unsigned(data, t.pos, 8);
      Ok(At(Tensor(name.value, shape.value, t.value, offset.value), offset.pos))
  }

  function ParseTensors(data: seq<Byte>, pos: nat, count: nat): (r: Result<At<seq<Tensor>>>)
    ensures r.Ok? ==> pos <= r.value.pos && (pos <= |data| ==> r.value.pos <= |data|) && |r.value.value| == count
    decreases count
  {
    if count == 0 then Ok(At([], pos))
    else
      var t :- ParseTensor(data, pos);
      Behind([t.value], ParseTensors(data, t.pos, count - 1))
  }

  /** "GGUF" */
  function Magic(): seq<Byte> { [0x47, 0x47, 0x55, 0x46] }

  function ParseTable(data: seq<Byte>): (r: Result<At<Table>>)
    ensures r.Ok? ==> r.value.pos <= |data|
  {
    var magic :- Take(data, 0, 4);
    if magic.value != Magic() then Err(Malformed("magic"))
    else
      var version :- Unsigned(data, 4, 4);
      if version.value != 2 && version.value != 3 then Err(Malformed("version"))
      else
        var tensors :- Unsigned(data, 8, 8);
        var entries :- Unsigned(data, 16, 8);
        if tensors.value > MAX_TENSORS || entries.value > MAX_METADATA then Err(Malformed("table counts"))
        else
          var metadata :- ParseEntries(data, entries.pos, entries.value);
          var table :- ParseTensors(data, metadata.pos, tensors.value);
          Ok(At(Table(version.value, metadata.value, table.value), table.pos))
  }

  // ---- the reference printer ----

  predicate EntryFits(e: Entry) { |e.key| <= MAX_STRING && Printable(e.value) }

  predicate TensorFits(t: Tensor) {
    && |t.name| <= MAX_STRING && |t.shape| <= MAX_DIMS && t.ggmlType < Pow256(4) && t.offset < Pow256(8)
    && forall i :: 0 <= i < |t.shape| ==> t.shape[i] < Pow256(8)
  }

  /** Tables within the reader's limits. */
  predicate TableFits(t: Table) {
    && (t.version == 2 || t.version == 3) && |t.tensors| <= MAX_TENSORS && |t.metadata| <= MAX_METADATA
    && (forall i :: 0 <= i < |t.metadata| ==> EntryFits(t.metadata[i]))
    && (forall i :: 0 <= i < |t.tensors| ==> TensorFits(t.tensors[i]))
  }

  function PrintEntry(e: Entry): seq<Byte>
    requires EntryFits(e)
  {
    PrintString(e.key) + ToBytes(KindOf(e.value), 4) + Print(e.value)
  }

  function PrintEntries(es: seq<Entry>): seq<Byte>
    requires forall i :: 0 <= i < |es| ==> EntryFits(es[i])
  {
    if es == [] then [] else PrintEntry(es[0]) + PrintEntries(es[1..])
  }

  function PrintDims(dims: seq<nat>): seq<Byte> {
    if dims == [] then [] else ToBytes(dims[0], 8) + PrintDims(dims[1..])
  }

  function PrintTensor(t: Tensor): seq<Byte> {
    PrintString(t.name) + ToBytes(|t.shape|, 4) + PrintDims(t.shape) + ToBytes(t.ggmlType, 4) + ToBytes(t.offset, 8)
  }

  function PrintTensors(ts: seq<Tensor>): seq<Byte> {
    if ts == [] then [] else PrintTensor(ts[0]) + PrintTensors(ts[1..])
  }

  function PrintTable(t: Table): seq<Byte>
    requires TableFits(t)
  {
    Magic() + ToBytes(t.version, 4) + ToBytes(|t.tensors|, 8) + ToBytes(|t.metadata|, 8) + PrintEntries(t.metadata) + PrintTensors(t.tensors)
  }

  // ---- parsing inverts printing ----

  lemma EntryBack(data: seq<Byte>, pos: nat, e: Entry)
    requires pos <= |data| && EntryFits(e) && Has(data, pos, PrintEntry(e))
    ensures ParseEntry(data, pos) == Ok(At(e, pos + |PrintEntry(e)|))
  {
    hide Print, ParseValue, Printable;
    var a, b, c := PrintString(e.key), ToBytes(KindOf(e.value), 4), Print(e.value);
    HasParts(data, pos, a + b, c);
    HasParts(data, pos, a, b);
    StringBack(data, pos, e.key);
    Pow256Four();
    KindSmall(e.value);
    UnsignedBack(data, pos + |a|, KindOf(e.value), 4);
    ParsePrint(data, pos + |a| + 4, e.value);
  }

  lemma KindSmall(v: Value)
    requires Printable(v)
    ensures KindOf(v) < 13
  {}

  lemma {:induction false} EntriesBack(data: seq<Byte>, pos: nat, es: seq<Entry>)
    requires pos <= |data| && (forall i :: 0 <= i < |es| ==> EntryFits(es[i])) && Has(data, pos, PrintEntries(es))
    ensures ParseEntries(data, pos, |es|) == Ok(At(es, pos + |PrintEntries(es)|))
    decreases |es|
  {
    hide *;
    EntriesUnfold(data, pos, es);
    if es != [] {
      var e, rest := es[0], es[1..];
      var piece, more := PrintEntry(e), PrintEntries(rest);
      HasParts(data, pos, piece, more);
      HasWithin(data, pos, piece);
      EntryBack(data, pos, e);
      EntriesBack(data, pos + |piece|, rest);
      EntriesStep(data, pos, e, pos + |piece|, rest, pos + |piece| + |more|);
      FirstAndRest(es);
    }
  }

  lemma EntriesUnfold(data: seq<Byte>, pos: nat, es: seq<Entry>)
    requires pos <= |data| && forall i :: 0 <= i < |es| ==> EntryFits(es[i])
    ensures if es == [] then PrintEntries(es) == [] && ParseEntries(data, pos, |es|) == Ok(At([], pos))
      else PrintEntries(es) == PrintEntry(es[0]) + PrintEntries(es[1..])
  {}

  lemma EntriesStep(data: seq<Byte>, pos: nat, e: Entry, mid: nat, rest: seq<Entry>, end: nat)
    requires pos <= |data| && mid <= |data| && ParseEntry(data, pos) == Ok(At(e, mid))
    requires ParseEntries(data, mid, |rest|) == Ok(At(rest, end))
    ensures ParseEntries(data, pos, |[e] + rest|) == Ok(At([e] + rest, end))
  {
    hide ParseEntry;
  }

  lemma {:induction false} DimsBack(data: seq<Byte>, pos: nat, dims: seq<nat>)
    requires (forall i :: 0 <= i < |dims| ==> dims[i] < Pow256(8)) && Has(data, pos, PrintDims(dims))
    ensures ParseDims(data, pos, |dims|) == Ok(At(dims, pos + |PrintDims(dims)|))
    decreases |dims|
  {
    if dims == [] { return; }
    hide Has, Unsigned, Pow256;
    HasParts(data, pos, ToBytes(dims[0], 8), PrintDims(dims[1..]));
    UnsignedBack(data, pos, dims[0], 8);
    DimsBack(data, pos + 8, dims[1..]);
    assert [dims[0]] + dims[1..] == dims;
  }

  lemma TensorBack(data: seq<Byte>, pos: nat, t: Tensor)
    requires TensorFits(t) && Has(data, pos, PrintTensor(t))
    ensures ParseTensor(data, pos) == Ok(At(t, pos + |PrintTensor(t)|))
  {
    hide Has, ParseDims, PrintDims, ReadString, Unsigned, PrintString, ToBytes, Pow256;
    var a, b, c, d, e := PrintString(t.name), ToBytes(|t.shape|, 4), PrintDims(t.shape), ToBytes(t.ggmlType, 4), ToBytes(t.offset, 8);
    HasParts(data, pos, a + b + c + d, e);
    HasParts(data, pos, a + b + c, d);
    HasParts(data, pos, a + b, c);
    HasParts(data, pos, a, b);
    StringBack(data, pos, t.name);
    Pow256Four();
    UnsignedBack(data, pos + |a|, |t.shape|, 4);
    DimsBack(data, pos + |a| + 4, t.shape);
    UnsignedBack(data, pos + |a| + 4 + |c|, t.ggmlType, 4);
    UnsignedBack(data, pos + |a| + 4 + |c| + 4, t.offset, 8);
  }

  lemma {:induction false} TensorsBack(data: seq<Byte>, pos: nat, ts: seq<Tensor>)
    requires (forall i :: 0 <= i < |ts| ==> TensorFits(ts[i])) && Has(data, pos, PrintTensors(ts))
    ensures ParseTensors(data, pos, |ts|) == Ok(At(ts, pos + |PrintTensors(ts)|))
    decreases |ts|
  {
    hide *;
    TensorsUnfold(data, pos, ts);
    if ts != [] {
      var t, rest := ts[0], ts[1..];
      var piece, more := PrintTensor(t), PrintTensors(rest);
      HasParts(data, pos, piece, more);
      TensorBack(data, pos, t);
      TensorsBack(data, pos + |piece|, rest);
      TensorsStep(data, pos, t, pos + |piece|, rest, pos + |piece| + |more|);
      FirstAndRest(ts);
    }
  }

  lemma TensorsUnfold(data: seq<Byte>, pos: nat, ts: seq<Tensor>)
    ensures if ts == [] then PrintTensors(ts) == [] && ParseTensors(data, pos, |ts|) == Ok(At([], pos))
      else PrintTensors(ts) == PrintTensor(ts[0]) + PrintTensors(ts[1..])
  {}

  lemma TensorsStep(data: seq<Byte>, pos: nat, t: Tensor, mid: nat, rest: seq<Tensor>, end: nat)
    requires ParseTensor(data, pos) == Ok(At(t, mid)) && ParseTensors(data, mid, |rest|) == Ok(At(rest, end))
    ensures ParseTensors(data, pos, |[t] + rest|) == Ok(At([t] + rest, end))
  {
    hide ParseTensor;
  }

  /** Whatever follows the table, reading a printed table gives it back, and the
      cursor stops right behind it. */
  lemma TableBack(t: Table, payload: seq<Byte>)
    requires TableFits(t)
    ensures ParseTable(PrintTable(t) + payload) == Ok(At(t, |PrintTable(t)|))
  {
    hide ParseEntries, ParseTensors, PrintEntries, PrintTensors, Has, Take, Unsigned, EntryFits, TensorFits;
    var data := PrintTable(t) + payload;
    var a, b, c, d, e, f := Magic(), ToBytes(t.version, 4), ToBytes(|t.tensors|, 8), ToBytes(|t.metadata|, 8), PrintEntries(t.metadata), PrintTensors(t.tensors);
    HasFront(PrintTable(t), payload);
    HasParts(data, 0, a + b + c + d + e, f);
    HasParts(data, 0, a + b + c + d, e);
    HasParts(data, 0, a + b + c, d);
    HasParts(data, 0, a + b, c);
    HasParts(data, 0, a, b);
    TakeBack(data, 0, a);
    Pow256Four();
    UnsignedBack(data, 4, t.version, 4);
    UnsignedBack(data, 8, |t.tensors|, 8);
    UnsignedBack(data, 16, |t.metadata|, 8);
    EntriesBack(data, 24, t.metadata);
    TensorsBack(data, 24 + |e|, t.tensors);
  }

  lemma HasFront(a: seq<Byte>, b: seq<Byte>)
    ensures Has(a + b, 0, a)
  {}

  lemma TakeBack(data: seq<Byte>, pos: nat, piece: seq<Byte>)
    requires Has(data, pos, piece)
    ensures Take(data, pos, |piece|) == Ok(At(piece, pos + |piece|))
  {}

  // ---- the index ----

  /** Elements and bytes of one block of a tensor type. */
  function BlockOf(t: nat): (r: Option<(nat, nat)>)
    ensures r.Some? ==> r.value.0 > 0
  {
    match t
    case 0 => Some((1, 4)) case 1 => Some((1, 2)) case 2 => Some((32, 18)) case 3 => Some((32, 20))
    case 6 => Some((32, 22)) case 7 => Some((32, 24)) case 8 => Some((32, 34)) case 9 => Some((32, 40))
    case 10 => Some((256, 84)) case 11 => Some((256, 110)) case 12 => Some((256, 144)) case 13 => Some((256, 176))
    case 14 => Some((256, 210)) case 15 => Some((256, 292)) case 16 => Some((256, 66)) case 17 => Some((256, 74))
    case 18 => Some((256, 98)) case 19 => Some((256, 50)) case 20 => Some((32, 18)) case 21 => Some((256, 110))
    case 22 => Some((256, 82)) case 23 => Some((256, 136)) case 24 => Some((1, 1)) case 25 => Some((1, 2))
    case 26 => Some((1, 4)) case 27 => Some((1, 8)) case 28 => Some((1, 8)) case 29 => Some((256, 56))
    case 30 => Some((1, 2))
    case _ => None
  }

  function Elements(shape: seq<nat>): nat {
    if shape == [] then 1
    else Elements(shape[..|shape| - 1]) * (if shape[|shape| - 1] == 0 then 1 else shape[|shape| - 1])
  }

  function TensorBytes(shape: seq<nat>, t: nat): nat {
    match BlockOf(t)
    case None => 0
    case Some((block, bytes)) => (Elements(shape) + block - 1) / block * bytes
  }

  method TensorNbytes(shape: seq<nat>, t: nat) returns (n: nat)
    ensures n == TensorBytes(shape, t)
  {
    var info := BlockOf(t);
    if info.None? { return 0; }
    var elements: nat := 1;
    for i := 0 to |shape|
      invariant elements == Elements(shape[..i])
    {
      assert shape[..i + 1][..i] == shape[..i];
      elements := elements * if shape[i] == 0 then 1 else shape[i];
    }
    assert shape[..|shape|] == shape;
    var (block, bytes) := info.value;
    n := (elements + block - 1) / block * bytes;
  }

  function Step(alignment: int): (a: nat)
    ensures a > 0
  {
    if alignment <= 0 then 32 else alignment
  }

  function AlignUp(value: nat, alignment: int): nat {
    (value + Step(alignment) - 1) / Step(alignment) * Step(alignment)
  }

  lemma Floor(x: nat, a: nat)
    requires a > 0
    ensures x / a * a <= x < x / a * a + a
  {
    assert x == x / a * a + x % a;
  }

  lemma FewerMultiples(k: int, q: int, a: nat)
    requires k < q && a > 0
    ensures k * a <= q * a - a
  {
    assert (q - k - 1) * a >= 0;
  }

  lemma {:induction false} MultipleMod(q: nat, a: nat)
    requires a > 0
    ensures q * a % a == 0
  {
    if q > 0 {
      MultipleMod(q - 1, a);
      assert q * a == (q - 1) * a + a;
      OneMore((q - 1) * a, a);
    }
  }

  lemma OneMore(x: nat, a: nat)
    requires a > 0
    ensures (x + a) % a == x % a
  {
    var q, m := (x + a) / a, (x + a) % a;
    assert x + a == q * a + m && x == x / a * a + x % a;
    assert (q - 1 - x / a) * a == x % a - m;
    if q - 1 > x / a { FewerMultiples(0, q - 1 - x / a, a); }
    if q - 1 < x / a { FewerMultiples(q - 1 - x / a, 0, a); }
  }

  /** Alignment gives the least multiple that is not below the value. */
  lemma AlignUpLeast(value: nat, alignment: int, k: nat)
    ensures AlignUp(value, alignment) % Step(alignment) == 0 && value <= AlignUp(value, alignment) < value + Step(alignment)
    ensures k * Step(alignment) >= value ==> k * Step(alignment) >= AlignUp(value, alignment)
  {
    var a := Step(alignment);
    var q := (value + a - 1) / a;
    Floor(value + a - 1, a);
    MultipleMod(q, a);
    if k < q { FewerMultiples(k, q, a); }
    else if k > q { FewerMultiples(q, k, a); }
  }

  // ---- the size of a tensor ----

  function AtLeastOne(d: nat): nat { if d == 0 then 1 else d }

  /** The number of elements: the product of the dimensions, 0 counted as 1. */
  function Product(shape: seq<nat>): (e: nat)
    ensures e >= 1
  {
    if shape == [] then 1 else MulPositive(AtLeastOne(shape[0]), Product(shape[1..])); AtLeastOne(shape[0]) * Product(shape[1..])
  }

  lemma MulPositive(a: nat, b: nat)
    requires a >= 1 && b >= 1
    ensures a * b >= 1
  {
    assert a * b == (a - 1) * b + b && (a - 1) * b >= 0;
  }

  /** Appending a dimension multiplies. */
  lemma {:induction false} ProductAppend(shape: seq<nat>, d: nat)
    ensures Product(shape + [d]) == Product(shape) * AtLeastOne(d)
  {
    if shape == [] {
      assert shape + [d] == [d] && [d][1..] == [];
    } else {
      ProductAppend(shape[1..], d);
      assert (shape + [d])[1..] == shape[1..] + [d] && (shape + [d])[0] == shape[0];
      MulMoves(AtLeastOne(shape[0]), Product(shape[1..]), AtLeastOne(d));
    }
  }

  lemma MulMoves(a: nat, b: nat, c: nat)
    ensures a * (b * c) == a * b * c
  {}

  /** A dimension may be taken from anywhere. */
  lemma {:induction false} ProductTake(shape: seq<nat>, i: nat)
    requires i < |shape|
    ensures Product(shape) == AtLeastOne(shape[i]) * Product(shape[..i] + shape[i + 1..])
  {
    if i == 0 {
      assert shape[..0] + shape[1..] == shape[1..];
    } else {
      var rest := shape[1..];
      ProductTake(rest, i - 1);
      var less := shape[..i] + shape[i + 1..];
      assert less[0] == shape[0] && less[1..] == rest[..i - 1] + rest[i..];
      MulSwaps(AtLeastOne(shape[0]), AtLeastOne(shape[i]), Product(rest[..i - 1] + rest[i..]));
    }
  }

  lemma MulSwaps(a: nat, b: nat, c: nat)
    ensures a * (b * c) == b * (a * c)
  {}

  /** The order of the dimensions does not matter. */
  lemma {:induction false} ProductUnordered(a: seq<nat>, b: seq<nat>)
    requires multiset(a) == multiset(b)
    ensures Product(a) == Product(b)
    decreases |a|
  {
    if a == [] {
      assert |b| == |multiset(b)| == 0;
    } else {
      assert a == [a[0]] + a[1..];
      assert a[0] in multiset(b);
      var i :| 0 <= i < |b| && b[i] == a[0];
      assert b == b[..i] + [b[i]] + b[i + 1..];
      assert multiset(a[1..]) == multiset(a) - multiset{a[0]} == multiset(b[..i] + b[i + 1..]);
      ProductUnordered(a[1..], b[..i] + b[i + 1..]);
      ProductTake(b, i);
    }
  }

  lemma {:induction false} ElementsAre(shape: seq<nat>)
    ensures Elements(shape) == Product(shape)
  {
    if shape != [] {
      var n := |shape| - 1;
      ElementsAre(shape[..n]);
      ProductAppend(shape[..n], shape[n]);
      assert shape[..n] + [shape[n]] == shape;
    }
  }

  /** The bytes of a tensor: whole blocks, the fewest that hold its elements; none
      for a type that is not known. */
  ghost predicate SizeIs(n: nat, shape: seq<nat>, t: nat) {
    match BlockOf(t)
    case None => n == 0
    case Some((block, bytes)) => exists q: nat :: n == q * bytes && Holds(q, block, Product(shape))
  }

  /** `q` blocks hold the elements and one block less does not. */
  predicate Holds(q: nat, block: nat, elements: nat) { (q - 1) * block < elements <= q * block }

  lemma BlocksHold(elements: nat, block: nat)
    requires block > 0
    ensures Holds((elements + block - 1) / block, block, elements)
  {
    Floor(elements + block - 1, block);
    var q := (elements + block - 1) / block;
    assert (q - 1) * block == q * block - block;
  }

  lemma HoldsOne(a: nat, b: nat, block: nat, elements: nat)
    requires Holds(a, block, elements) && Holds(b, block, elements)
    ensures a == b
  {
    if a < b { FewerMultiples(a, b, block); }
    if b < a { FewerMultiples(b, a, block); }
  }

  lemma TensorBytesExact(shape: seq<nat>, t: nat, n: nat)
    ensures SizeIs(n, shape, t) <==> n == TensorBytes(shape, t)
  {
    hide Elements, Product, Holds;
    ElementsAre(shape);
    if BlockOf(t).Some? {
      var (block, bytes) := BlockOf(t).value;
      var e := Product(shape);
      var q := (e + block - 1) / block;
      BlocksHold(e, block);
      assert TensorBytes(shape, t) == q * bytes;
      if SizeIs(n, shape, t) {
        var p: nat :| n == p * bytes && Holds(p, block, e);
        HoldsOne(p, q, block, e);
      }
    }
  }

  /** A tensor with the bytes it takes in the file. */
  datatype Ranged = Ranged(tensor: Tensor, nbytes: nat, start: nat, end: nat)

  datatype Index = Index(version: nat, metadata: map<seq<Byte>, Value>, alignment: int, dataStart: nat, tensors: seq<Ranged>)

  /** The last entry of a key counts. */
  function MetadataOf(es: seq<Entry>): map<seq<Byte>, Value> {
    if es == [] then map[] else MetadataOf(es[..|es| - 1])[es[|es| - 1].key := es[|es| - 1].value]
  }

  /** "general.alignment" */
  function AlignmentKey(): seq<Byte> {
    [0x67, 0x65, 0x6e, 0x65, 0x72, 0x61, 0x6c, 0x2e, 0x61, 0x6c, 0x69, 0x67, 0x6e, 0x6d, 0x65, 0x6e, 0x74]
  }

  /** The alignment: 32 if missing or empty. `coerce` is what the host language
      makes of floats and texts. */
  function AlignmentOf(metadata: map<seq<Byte>, Value>, coerce: Value -> Option<int>): Result<int> {
    if AlignmentKey() !in metadata then Ok(32)
    else match metadata[AlignmentKey()]
      case Int(_, v) => Ok(if v == 0 then 32 else v)
      case Bool(b) => Ok(if b then 1 else 32)
      case Arr(_, _) => Err(Malformed("alignment"))
      case v =>
        if v == Text([]) then Ok(32)
        else match coerce(v) case Some(a) => Ok(a) case None => Err(Malformed("alignment"))
  }

  function Place(t: Tensor, dataStart: nat): Ranged {
    var n := TensorBytes(t.shape, t.ggmlType);
    Ranged(t, n, dataStart + t.offset, dataStart + t.offset + n)
  }

  function PlaceAll(ts: seq<Tensor>, dataStart: nat): (r: seq<Ranged>)
    ensures |r| == |ts| && forall i :: 0 <= i < |ts| ==> r[i] == Place(ts[i], dataStart)
  {
    seq(|ts|, i requires 0 <= i < |ts| => Place(ts[i], dataStart))
  }

  function IndexOf(data: seq<Byte>, coerce: Value -> Option<int>): Result<Index> {
    var t :- ParseTable(data);
    var metadata := MetadataOf(t.value.metadata);
    var alignment :- AlignmentOf(metadata, coerce);
    var start := AlignUp(t.pos, alignment);
    Ok(Index(t.value.version, metadata, alignment, start, PlaceAll(t.value.tensors, start)))
  }

  /** Indexing a file that was written from a table finds that table, and the
      data at the least aligned offset behind it. */
  lemma IndexFinds(t: Table, payload: seq<Byte>, coerce: Value -> Option<int>)
    requires TableFits(t) && AlignmentOf(MetadataOf(t.metadata), coerce).Ok?
    ensures var r := IndexOf(PrintTable(t) + payload, coerce);
      && r.Ok? && r.value.version == t.version && r.value.metadata == MetadataOf(t.metadata)
      && r.value.dataStart == AlignUp(|PrintTable(t)|, AlignmentOf(MetadataOf(t.metadata), coerce).value)
      && |r.value.tensors| == |t.tensors|
      && forall i :: 0 <= i < |t.tensors| ==> var x := r.value.tensors[i];
           && x.tensor == t.tensors[i] && x.start == r.value.dataStart + t.tensors[i].offset
           && x.nbytes == x.end - x.start && SizeIs(x.end - x.start, t.tensors[i].shape, t.tensors[i].ggmlType)
  {
    hide ParseTable, PrintTable, TableFits, AlignmentOf, AlignUp, TensorBytes, SizeIs;
    TableBack(t, payload);
    forall i | 0 <= i < |t.tensors| ensures SizeIs(TensorBytes(t.tensors[i].shape, t.tensors[i].ggmlType), t.tensors[i].shape, t.tensors[i].ggmlType) {
      TensorBytesExact(t.tensors[i].shape, t.tensors[i].ggmlType, TensorBytes(t.tensors[i].shape, t.tensors[i].ggmlType));
    }
  }

  // ---- the loops of the reader ----

  method ReadEntry(r: Reader) returns (e: Result<Entry>)
    requires r.Valid()
    modifies r`pos
    ensures r.Valid()
    ensures match ParseEntry(r.data, old(r.pos)) case Ok(t) => e == Ok(t.value) && r.pos == t.pos case Err(x) => e == Err(x)
  {
    var key :- r.Str();
    var t :- r.Unpack(4);
    var v :- r.Value(t);
    e := Ok(Entry(key, v));
  }

  lemma MetadataSnoc(es: seq<Entry>, e: Entry)
    ensures MetadataOf(es + [e]) == MetadataOf(es)[e.key := e.value]
  {
    assert (es + [e])[..|es|] == es;
  }

  lemma EntriesMore(data: seq<Byte>, pos: nat, n: nat, es: seq<Entry>)
    requires pos <= |data| && n > 0
    ensures Behind(es, ParseEntries(data, pos, n)) == match ParseEntry(data, pos)
      case Ok(e) => Behind(es + [e.value], ParseEntries(data, e.pos, n - 1))
      case Err(x) => Err(x)
  {
    hide ParseEntry;
    if ParseEntry(data, pos).Ok? {
      var e := ParseEntry(data, pos).value;
      BehindTwice(es, [e.value], ParseEntries(data, e.pos, n - 1));
    }
  }

  lemma NoMetadata()
    ensures MetadataOf([]) == map[]
  {}

  lemma NoEntries(data: seq<Byte>, pos: nat, es: seq<Entry>)
    requires pos <= |data|
    ensures Behind(es, ParseEntries(data, pos, 0)) == Ok(At(es, pos))
  {
    assert es + [] == es;
  }

  /** The metadata dictionary is filled as the entries are read. */
  method ReadMetadata(r: Reader, count: nat) returns (m: Result<map<seq<Byte>, Value>>)
    requires r.Valid()
    modifies r`pos
    ensures r.Valid()
    ensures match ParseEntries(r.data, old(r.pos), count)
      case Ok(t) => m == Ok(MetadataOf(t.value)) && r.pos == t.pos
      case Err(x) => m == Err(x)
  {
    hide MetadataOf, ParseEntry, ParseEntries, Behind;
    var metadata: map<seq<Byte>, Value> := map[];
    NoMetadata();
    ghost var es: seq<Entry>, start := [], r.pos;
    BehindNothing(ParseEntries(r.data, start, count));
    for i := 0 to count
      invariant r.Valid() && metadata == MetadataOf(es)
      invariant ParseEntries(r.data, start, count) == Behind(es, ParseEntries(r.data, r.pos, count - i))
    {
      EntriesMore(r.data, r.pos, count - i, es);
      var e := ReadEntry(r);
      if e.Err? { return Err(e.error); }
      MetadataSnoc(es, e.value);
      metadata := metadata[e.value.key := e.value.value];
      es := es + [e.value];
    }
    NoEntries(r.data, r.pos, es);
    m := Ok(metadata);
  }

  method ReadDims(r: Reader, count: nat) returns (dims: Result<seq<nat>>)
    requires r.Valid()
    modifies r`pos
    ensures r.Valid()
    ensures match ParseDims(r.data, old(r.pos), count) case Ok(t) => dims == Ok(t.value) && r.pos == t.pos case Err(x) => dims == Err(x)
  {
    var shape: seq<nat> := [];
    ghost var start := r.pos;
    BehindNothing(ParseDims(r.data, start, count));
    for i := 0 to count
      invariant r.Valid()
      invariant ParseDims(r.data, start, count) == Behind(shape, ParseDims(r.data, r.pos, count - i))
    {
      var n := r.Unpack(8);
      if n.Err? { return Err(n.error); }
      BehindTwice(shape, [n.value], ParseDims(r.data, r.pos, count - i - 1));
      shape := shape + [n.value];
    }
    assert shape + [] == shape;
    dims := Ok(shape);
  }

  method ReadTensor(r: Reader) returns (t: Result<Tensor>)
    requires r.Valid()
    modifies r`pos
    ensures r.Valid()
    ensures match ParseTensor(r.data, old(r.pos)) case Ok(x) => t == Ok(x.value) && r.pos == x.pos case Err(x) => t == Err(x)
  {
    var name :- r.Str();
    var dims :- r.Unpack(4);
    if dims > MAX_DIMS { return Err(Malformed("dimension count")); }
    var shape :- ReadDims(r, dims);
    var kind :- r.Unpack(4);
    var offset :- r.Unpack(8);
    t := Ok(Tensor(name, shape, kind, offset));
  }

  method ReadTensors(r: Reader, count: nat) returns (ts: Result<seq<Tensor>>)
    requires r.Valid()
    modifies r`pos
    ensures r.Valid()
    ensures match ParseTensors(r.data, old(r.pos), count) case Ok(t) => ts == Ok(t.value) && r.pos == t.pos case Err(x) => ts == Err(x)
  {
    hide ParseTensor;
    var tensors: seq<Tensor> := [];
    ghost var start := r.pos;
    BehindNothing(ParseTensors(r.data, start, count));
    for i := 0 to count
      invariant r.Valid()
      invariant ParseTensors(r.data, start, count) == Behind(tensors, ParseTensors(r.data, r.pos, count - i))
    {
      var t := ReadTensor(r);
      if t.Err? { return Err(t.error); }
      BehindTwice(tensors, [t.value], ParseTensors(r.data, r.pos, count - i - 1));
      tensors := tensors + [t.value];
    }
    assert tensors + [] == tensors;
    ts := Ok(tensors);
  }

  method ReadTable(r: Reader) returns (version: Result<nat>, metadata: map<seq<Byte>, Value>, tensors: seq<Tensor>)
    requires r.Valid() && r.pos == 0
    modifies r`pos
    ensures r.Valid()
    ensures match ParseTable(r.data)
      case Ok(t) => version == Ok(t.value.version) && metadata == MetadataOf(t.value.metadata) && tensors == t.value.tensors && r.pos == t.pos
      case Err(x) => version == Err(x)
  {
    hide ParseEntries, ParseTensors, MetadataOf;
    metadata, tensors := map[], [];
    var magic :- r.Read(4);
    if magic != Magic() { return Err(Malformed("magic")), metadata, tensors; }
    var v :- r.Unpack(4);
    if v != 2 && v != 3 { return Err(Malformed("version")), metadata, tensors; }
    var tensorCount :- r.Unpack(8);
    var metadataCount :- r.Unpack(8);
    if tensorCount > MAX_TENSORS || metadataCount > MAX_METADATA { return Err(Malformed("table counts")), metadata, tensors; }
    metadata :- ReadMetadata(r, metadataCount);
    tensors :- ReadTensors(r, tensorCount);
    version := Ok(v);
  }

  method BuildIndex(data: seq<Byte>, coerce: Value -> Option<int>) returns (index: Result<Index>)
    ensures index == IndexOf(data, coerce)
  {
    hide ParseTable, MetadataOf, AlignmentOf, AlignUp, TensorBytes;
    var r := new Reader(data);
    var v, metadata, tensors := ReadTable(r);
    var version :- v;
    var alignment :- AlignmentOf(metadata, coerce);
    var start := AlignUp(r.pos, alignment);
    var ranged: seq<Ranged> := [];
    for i := 0 to |tensors|
      invariant |ranged| == i && forall k :: 0 <= k < i ==> ranged[k] == Place(tensors[k], start)
    {
      var n := TensorNbytes(tensors[i].shape, tensors[i].ggmlType);
      ranged := ranged + [Ranged(tensors[i], n, start + tensors[i].offset, start + tensors[i].offset + n)];
    }
    assert ranged == PlaceAll(tensors, start);
    index := Ok(Index(version, metadata, alignment, start, ranged));
  }

  // ---- looking ranges up ----

  datatype Match = Match(tensor: Ranged, overlapStart: int, overlap: nat)

  datatype Lookup = Lookup(start: int, end: int, matches: seq<Match>, covered: nat)

  function Max(a: int, b: int): int { if a < b then b else a }
  function Min(a: int, b: int): int { if a < b then a else b }

  /** Bytes of `t` between `lo` and `hi`. */
  function Overlap(t: Ranged, lo: int, hi: int): nat {
    if Max(lo, t.start) < Min(hi, t.end) then Min(hi, t.end) - Max(lo, t.start) else 0
  }

  function Covered(ts: seq<Ranged>, lo: int, hi: int): nat {
    if ts == [] then 0 else Covered(ts[..|ts| - 1], lo, hi) + Overlap(ts[|ts| - 1], lo, hi)
  }

  function Matches(ts: seq<Ranged>, lo: int, hi: int): seq<Match> {
    if ts == [] then []
    else
      var before, t := Matches(ts[..|ts| - 1], lo, hi), ts[|ts| - 1];
      if Overlap(t, lo, hi) > 0 then before + [Match(t, Max(lo, t.start), Overlap(t, lo, hi))] else before
  }

  function LookupOf(index: Index, offset: int, length: int, payload: bool): Result<Lookup> {
    if offset < 0 then Err(Malformed("offset"))
    else if length <= 0 then Err(Malformed("length"))
    else
      var lo := if payload then offset + index.dataStart else offset;
      Ok(Lookup(lo, lo + length, Matches(index.tensors, lo, lo + length), Covered(index.tensors, lo, lo + length)))
  }

  method LookupRanges(index: Index, offset: int, length: int, payload: bool) returns (r: Result<Lookup>)
    ensures r == LookupOf(index, offset, length, payload)
  {
    if offset < 0 { return Err(Malformed("offset")); }
    if length <= 0 { return Err(Malformed("length")); }
    var lo := if payload then offset + index.dataStart else offset;
    var hi := lo + length;
    var matches: seq<Match>, covered: nat := [], 0;
    for i := 0 to |index.tensors|
      invariant matches == Matches(index.tensors[..i], lo, hi) && covered == Covered(index.tensors[..i], lo, hi)
    {
      var t := index.tensors[i];
      assert index.tensors[..i + 1][..i] == index.tensors[..i];
      var start, end := Max(lo, t.start), Min(hi, t.end);
      if start >= end { continue; }
      covered := covered + (end - start);
      matches := matches + [Match(t, start, end - start)];
    }
    assert index.tensors[..|index.tensors|] == index.tensors;
    r := Ok(Lookup(lo, hi, matches, covered));
  }

  // ---- what the number of covered bytes means ----

  function Interval(lo: int, hi: int): (s: set<int>)
    ensures forall p :: p in s <==> lo <= p < hi
    ensures |s| == Max(hi - lo, 0)
    decreases Max(hi - lo, 0)
  {
    if lo >= hi then {} else Interval(lo, hi - 1) + {hi - 1}
  }

  /** The looked-up bytes that lie in a tensor. */
  function Window(t: Ranged, lo: int, hi: int): (s: set<int>)
    ensures |s| == Overlap(t, lo, hi)
    ensures forall p :: p in s <==> lo <= p < hi && t.start <= p < t.end
  {
    Interval(Max(lo, t.start), Min(hi, t.end))
  }

  /** The looked-up bytes that lie in some tensor. */
  function Inside(ts: seq<Ranged>, lo: int, hi: int): (s: set<int>)
    ensures forall p :: p in s ==> lo <= p < hi
  {
    if ts == [] then {} else Inside(ts[..|ts| - 1], lo, hi) + Window(ts[|ts| - 1], lo, hi)
  }

  predicate InSome(ts: seq<Ranged>, p: int) {
    exists i | 0 <= i < |ts| :: ts[i].start <= p < ts[i].end
  }

  lemma InSomeSnoc(ts: seq<Ranged>, p: int)
    requires ts != []
    ensures InSome(ts, p) <==> InSome(ts[..|ts| - 1], p) || ts[|ts| - 1].start <= p < ts[|ts| - 1].end
  {
    var front := ts[..|ts| - 1];
    if InSome(front, p) {
      var i :| 0 <= i < |front| && front[i].start <= p < front[i].end;
      assert ts[i] == front[i];
    }
    if InSome(ts, p) {
      var i :| 0 <= i < |ts| && ts[i].start <= p < ts[i].end;
      if i < |front| { assert front[i] == ts[i]; }
    }
  }

  lemma {:induction false} InsideMeans(ts: seq<Ranged>, lo: int, hi: int, p: int)
    ensures p in Inside(ts, lo, hi) <==> lo <= p < hi && InSome(ts, p)
  {
    if ts != [] {
      hide InSome;
      InsideMeans(ts[..|ts| - 1], lo, hi, p);
      InSomeSnoc(ts, p);
    }
  }

  /** No looked-up byte lies in two tensors. */
  ghost predicate Disjoint(ts: seq<Ranged>, lo: int, hi: int) {
    forall i, j :: 0 <= i < j < |ts| ==> Apart(ts[i], ts[j], lo, hi)
  }

  predicate Apart(t: Ranged, u: Ranged, lo: int, hi: int) {
    Window(t, lo, hi) !! Window(u, lo, hi)
  }

  ghost predicate ApartFrom(ts: seq<Ranged>, u: Ranged, lo: int, hi: int) {
    forall i :: 0 <= i < |ts| ==> Apart(ts[i], u, lo, hi)
  }

  lemma DisjointSnoc(front: seq<Ranged>, last: Ranged, lo: int, hi: int)
    ensures Disjoint(front + [last], lo, hi) <==> Disjoint(front, lo, hi) && ApartFrom(front, last, lo, hi)
  {
    hide Apart;
    var ts := front + [last];
    if Disjoint(ts, lo, hi) {
      forall i, j | 0 <= i < j < |front| ensures Apart(front[i], front[j], lo, hi) { assert Apart(ts[i], ts[j], lo, hi); }
      forall i | 0 <= i < |front| ensures Apart(front[i], last, lo, hi) { assert Apart(ts[i], ts[|front|], lo, hi); }
    }
    if Disjoint(front, lo, hi) && ApartFrom(front, last, lo, hi) {
      forall i, j | 0 <= i < j < |ts| ensures Apart(ts[i], ts[j], lo, hi) {
        if j < |front| { assert Apart(front[i], front[j], lo, hi); } else { assert Apart(front[i], last, lo, hi); }
      }
    }
  }

  lemma ApartSnoc(front: seq<Ranged>, last: Ranged, u: Ranged, lo: int, hi: int)
    ensures ApartFrom(front + [last], u, lo, hi) <==> ApartFrom(front, u, lo, hi) && Apart(last, u, lo, hi)
  {
    hide Apart;
    var ts := front + [last];
    if ApartFrom(ts, u, lo, hi) {
      forall i | 0 <= i < |front| ensures Apart(front[i], u, lo, hi) { assert ts[i] == front[i]; }
      assert ts[|front|] == last;
    }
  }

  lemma InsideSnoc(ts: seq<Ranged>, lo: int, hi: int)
    requires ts != []
    ensures Inside(ts, lo, hi) == Inside(ts[..|ts| - 1], lo, hi) + Window(ts[|ts| - 1], lo, hi)
  {}

  lemma UnionApart(a: set<int>, b: set<int>, c: set<int>)
    ensures (a + b) * c == {} <==> a * c == {} && b !! c
  {
    assert (a + b) * c == a * c + b * c;
    assert b !! c <==> b * c == {} by {
      if b * c == {} {
        forall x | x in b ensures x !in c { assert x in b && x in c ==> x in b * c; }
      }
    }
    if (a + b) * c == {} { assert a * c <= {} && b * c <= {}; }
  }

  lemma {:induction false} InsideApart(ts: seq<Ranged>, u: Ranged, lo: int, hi: int)
    ensures Inside(ts, lo, hi) * Window(u, lo, hi) == {} <==> ApartFrom(ts, u, lo, hi)
    decreases |ts|
  {
    assert ts == [] ==> Inside(ts, lo, hi) == {} && ApartFrom(ts, u, lo, hi);
    hide Inside, Window, ApartFrom;
    if ts != [] {
      var front, last := ts[..|ts| - 1], ts[|ts| - 1];
      InsideSnoc(ts, lo, hi);
      InsideApart(front, u, lo, hi);
      ApartSnoc(front, last, u, lo, hi);
      FrontAndLast(ts);
      UnionApart(Inside(front, lo, hi), Window(last, lo, hi), Window(u, lo, hi));
    }
  }

  lemma UnionSize(a: set<int>, b: set<int>)
    ensures |a + b| + |a * b| == |a| + |b|
  {
    assert a + b == a + (b - a) && b == (b - a) + a * b;
  }

  /** The bytes reported as covered are never fewer than the looked-up bytes that
      lie in tensors, and are exactly as many if and only if no looked-up byte
      lies in two tensors. */
  lemma {:induction false} CoveredExact(ts: seq<Ranged>, lo: int, hi: int)
    ensures |Inside(ts, lo, hi)| <= Covered(ts, lo, hi)
    ensures Covered(ts, lo, hi) == |Inside(ts, lo, hi)| <==> Disjoint(ts, lo, hi)
  {
    assert ts == [] ==> Inside(ts, lo, hi) == {} && Covered(ts, lo, hi) == 0 && Disjoint(ts, lo, hi);
    assert ts != [] ==> Covered(ts, lo, hi) == Covered(ts[..|ts| - 1], lo, hi) + |Window(ts[|ts| - 1], lo, hi)|;
    hide Inside, Covered, Window, Disjoint, ApartFrom;
    if ts != [] {
      var front, last := ts[..|ts| - 1], ts[|ts| - 1];
      InsideSnoc(ts, lo, hi);
      CoveredExact(front, lo, hi);
      FrontAndLast(ts);
      DisjointSnoc(front, last, lo, hi);
      InsideApart(front, last, lo, hi);
      UnionSize(Inside(front, lo, hi), Window(last, lo, hi));
    }
  }

  /** For disjoint tensors the covered bytes never exceed the looked-up length. */
  lemma CoveredBounded(index: Index, offset: int, length: int, payload: bool)
    requires LookupOf(index, offset, length, payload).Ok?
    requires var r := LookupOf(index, offset, length, payload).value; Disjoint(index.tensors, r.start, r.end)
    ensures var r := LookupOf(index, offset, length, payload).value;
      r.covered == |Inside(index.tensors, r.start, r.end)| <= length
  {
    hide Inside, Interval;
    var r := LookupOf(index, offset, length, payload).value;
    CoveredExact(index.tensors, r.start, r.end);
    SubsetSize(Inside(index.tensors, r.start, r.end), Interval(r.start, r.end));
  }

  lemma SubsetSize(a: set<int>, b: set<int>)
    requires a <= b
    ensures |a| <= |b|
  {
    assert b == a + (b - a);
  }

  /** The matches are exactly the tensors with a looked-up byte, in table order,
      and account for all covered bytes. */
  lemma {:induction false} MatchesAccount(ts: seq<Ranged>, lo: int, hi: int)
    ensures Total(Matches(ts, lo, hi)) == Covered(ts, lo, hi)
    ensures forall m :: m in Matches(ts, lo, hi) ==> m.tensor in ts && m.overlap > 0 && Overlap(m.tensor, lo, hi) == m.overlap
    ensures forall t :: t in ts && Overlap(t, lo, hi) > 0 ==> exists m :: m in Matches(ts, lo, hi) && m.tensor == t
  {
    if ts != [] {
      var front, last := ts[..|ts| - 1], ts[|ts| - 1];
      MatchesAccount(front, lo, hi);
      assert ts == front + [last];
      var before := Matches(front, lo, hi);
      if Overlap(last, lo, hi) > 0 {
        var m := Match(last, Max(lo, last.start), Overlap(last, lo, hi));
        assert (before + [m])[..|before|] == before;
        assert m in Matches(ts, lo, hi);
      }
      forall t | t in ts && Overlap(t, lo, hi) > 0
        ensures exists m :: m in Matches(ts, lo, hi) && m.tensor == t
      {
        if t in front {
          var m :| m in before && m.tensor == t;
          assert m in Matches(ts, lo, hi);
        }
      }
    }
  }

  /** A looked-up byte of the tensor. */
  predicate Touches(t: Ranged, lo: int, hi: int, p: int) { lo <= p < hi && t.start <= p < t.end }

  /** The match reports exactly the looked-up bytes of its tensor, and has some. */
  ghost predicate Reports(m: Match, lo: int, hi: int) {
    m.overlap > 0 && forall p :: m.overlapStart <= p < m.overlapStart + m.overlap <==> Touches(m.tensor, lo, hi, p)
  }

  /** `at` tells which tensors the matches are of: in table order, all that have a
      looked-up byte and no others. */
  ghost predicate MatchesAt(ts: seq<Ranged>, lo: int, hi: int, ms: seq<Match>, at: seq<nat>) {
    && |at| == |ms|
    && (forall i :: 0 <= i < |at| ==> at[i] < |ts| && ms[i].tensor == ts[at[i]] && Reports(ms[i], lo, hi))
    && (forall i, j :: 0 <= i < j < |at| ==> at[i] < at[j])
    && forall k: nat, p :: k < |ts| && Touches(ts[k], lo, hi, p) ==> k in at
  }

  lemma {:induction false} MatchesExact(ts: seq<Ranged>, lo: int, hi: int) returns (at: seq<nat>)
    ensures MatchesAt(ts, lo, hi, Matches(ts, lo, hi), at)
  {
    at := [];
    if ts != [] {
      var n := |ts| - 1;
      at := MatchesExact(ts[..n], lo, hi);
      if Overlap(ts[n], lo, hi) > 0 {
        var m := Match(ts[n], Max(lo, ts[n].start), Overlap(ts[n], lo, hi));
        assert Reports(m, lo, hi);
        at := at + [n];
      }
      forall k: nat, p | k < |ts| && Touches(ts[k], lo, hi, p) ensures k in at {
        if k < n { assert Touches(ts[..n][k], lo, hi, p); }
      }
    }
  }

  /** A lookup is refused for a negative offset or an empty range only. Otherwise it
      reports exactly the looked-up bytes of each tensor that has any. */
  lemma LookupExact(index: Index, offset: int, length: int, payload: bool) returns (at: seq<nat>)
    ensures var r := LookupOf(index, offset, length, payload);
      && (r.Ok? <==> offset >= 0 && length > 0)
      && (r.Ok? ==> r.value.start == offset + (if payload then index.dataStart else 0) && r.value.end == r.value.start + length
                    && MatchesAt(index.tensors, r.value.start, r.value.end, r.value.matches, at))
  {
    hide MatchesAt;
    var lo := if payload then offset + index.dataStart else offset;
    at := MatchesExact(index.tensors, lo, lo + length);
  }

  function Total(ms: seq<Match>): nat {
    if ms == [] then 0 else Total(ms[..|ms| - 1]) + ms[|ms| - 1].overlap
  }

  /** The same match, at another distance from the start of the file. */
  predicate Moved(a: Match, b: Match, shift: int) {
    b.tensor.tensor == a.tensor.tensor && b.overlap == a.overlap && b.overlapStart == a.overlapStart + shift
  }

  predicate AllMoved(a: seq<Match>, b: seq<Match>, shift: int) {
    |b| == |a| && forall i :: 0 <= i < |a| ==> Moved(a[i], b[i], shift)
  }

  /** Moving the data moves the matches, and nothing else. */
  lemma {:induction false} MatchesMove(ts: seq<Tensor>, start: nat, lo: int, hi: int)
    ensures AllMoved(Matches(PlaceAll(ts, 0), lo, hi), Matches(PlaceAll(ts, start), lo + start, hi + start), start)
    ensures Covered(PlaceAll(ts, start), lo + start, hi + start) == Covered(PlaceAll(ts, 0), lo, hi)
  {
    if ts != [] {
      var front := ts[..|ts| - 1];
      MatchesMove(front, start, lo, hi);
      assert PlaceAll(ts, 0)[..|ts| - 1] == PlaceAll(front, 0) && PlaceAll(ts, start)[..|ts| - 1] == PlaceAll(front, start);
    }
  }

  /** A payload lookup and the absolute lookup behind the data start are the same,
      and both find what the table's own offsets say, moved by the data start. */
  lemma SpacesAgree(ts: seq<Tensor>, index: Index, offset: nat, length: int)
    requires index.tensors == PlaceAll(ts, index.dataStart)
    ensures LookupOf(index, offset, length, true) == LookupOf(index, offset + index.dataStart, length, false)
    ensures LookupOf(index, offset, length, true).Ok? ==>
      var r := LookupOf(index, offset, length, true).value;
      && r.covered == Covered(PlaceAll(ts, 0), offset, offset + length)
      && AllMoved(Matches(PlaceAll(ts, 0), offset, offset + length), r.matches, index.dataStart)
  {
    MatchesMove(ts, index.dataStart, offset, offset + length);
  }
}
