/** The GGUF indexer: a recursive reader over a cursor that only moves forward,
    and byte ranges of the tensors it finds. */
module Gguf {
  import opened Words
  import M = Machine

  type Byte = b: nat | b < 256

  const MAX_STRING := 0x1000_0000
  const MAX_ARRAY := 1_000_000
  const MAX_TENSORS := 2_000_000
  const MAX_METADATA := 1_000_000
  const MAX_DIMS := 16

  const T_BOOL := 7
  const T_STRING := 8
  const T_ARRAY := 9

  /** A metadata value. Floats are their bits. */
  datatype Value =
    | Int(kind: nat, v: int)
    | Bits(kind: nat, raw: nat)
    | Bool(b: bool)
    | Text(s: seq<Byte>)
    | Arr(item: nat, values: seq<Value>)

  datatype At<T> = At(value: T, pos: nat)

  // ---- little-endian numbers ----

  function Pow256(n: nat): (p: nat)
    ensures p > 0
  {
    if n == 0 then 1 else 256 * Pow256(n - 1)
  }

  function ToBytes(n: nat, size: nat): (r: seq<Byte>)
    ensures |r| == size
  {
    if size == 0 then [] else [n % 256] + ToBytes(n / 256, size - 1)
  }

  lemma {:induction false} BytesBack(n: nat, size: nat)
    requires n < Pow256(size)
    ensures M.LittleEndian(ToBytes(n, size)) == n
  {
    if size > 0 {
      BytesBack(n / 256, size - 1);
      assert ToBytes(n, size)[1..] == ToBytes(n / 256, size - 1);
    }
  }

  lemma {:induction false} BytesBelow(bytes: seq<Byte>)
    ensures M.LittleEndian(bytes) < Pow256(|bytes|)
  {
    if bytes != [] { BytesBelow(bytes[1..]); }
  }

  // ---- reading, as functions of the position ----

  function Take(data: seq<Byte>, pos: nat, size: nat): (r: Result<At<seq<Byte>>>)
    ensures r.Ok? ==> r.value.pos == pos + size <= |data| && |r.value.value| == size
  {
    if pos + size <= |data| then Ok(At(data[pos..pos + size], pos + size)) else Err(Malformed("eof"))
  }

  function Unsigned(data: seq<Byte>, pos: nat, size: nat): (r: Result<At<nat>>)
    ensures r.Ok? ==> r.value.pos == pos + size <= |data| && r.value.value < Pow256(size)
  {
    var bytes :- Take(data, pos, size);
    BytesBelow(bytes.value);
    Ok(At(M.LittleEndian(bytes.value), bytes.pos))
  }

  function ReadString(data: seq<Byte>, pos: nat): (r: Result<At<seq<Byte>>>)
    ensures r.Ok? ==> pos + 8 <= r.value.pos <= |data| && |r.value.value| <= MAX_STRING
  {
    var size :- Unsigned(data, pos, 8);
    if size.value > MAX_STRING then Err(Malformed("string length")) else Take(data, size.pos, size.value)
  }

  /** Bytes of a fixed-size value; 0 for strings, arrays and unknown types. */
  function ScalarSize(t: nat): nat {
    if t == 0 || t == 1 || t == T_BOOL then 1
    else if t == 2 || t == 3 then 2
    else if t == 4 || t == 5 || t == 6 then 4
    else if t == 10 || t == 11 || t == 12 then 8
    else 0
  }

  predicate Signed(t: nat) { t == 1 || t == 3 || t == 5 || t == 11 }

  predicate Float(t: nat) { t == 6 || t == 12 }

  function Decode(t: nat, raw: nat): Value {
    var full := Pow256(ScalarSize(t));
    if t == T_BOOL then Bool(raw != 0)
    else if Float(t) then Bits(t, raw)
    else if Signed(t) && 2 * raw >= full then Int(t, raw - full)
    else Int(t, raw)
  }

  function ParseValue(data: seq<Byte>, pos: nat, t: nat): (r: Result<At<Value>>)
    requires pos <= |data|
    ensures r.Ok? ==> pos < r.value.pos <= |data|
    decreases |data| - pos, 0
  {
    if ScalarSize(t) > 0 then
      var n :- Unsigned(data, pos, ScalarSize(t));
      Ok(At(Decode(t, n.value), n.pos))
    else if t == T_STRING then
      var s :- ReadString(data, pos);
      Ok(At(Text(s.value), s.pos))
    else if t == T_ARRAY then
      var item :- Unsigned(data, pos, 4);
      var count :- Unsigned(data, item.pos, 8);
      if count.value > MAX_ARRAY then Err(Malformed("array length"))
      else
        var items :- ParseItems(data, count.pos, item.value, count.value);
        Ok(At(Arr(item.value, items.value), items.pos))
    else Err(Malformed("value type"))
  }

  function ParseItems(data: seq<Byte>, pos: nat, t: nat, count: nat): (r: Result<At<seq<Value>>>)
    requires pos <= |data|
    ensures r.Ok? ==> pos <= r.value.pos <= |data| && |r.value.value| == count
    decreases |data| - pos, 1
  {
    if count == 0 then Ok(At([], pos))
    else
      var v :- ParseValue(data, pos, t);
      Behind([v.value], ParseItems(data, v.pos, t, count - 1))
  }

  /** Items already read, in front of those still to come. */
  function Behind<T>(values: seq<T>, rest: Result<At<seq<T>>>): Result<At<seq<T>>> {
    match rest case Ok(t) => Ok(At(values + t.value, t.pos)) case Err(e) => Err(e)
  }

  lemma BehindNothing<T>(rest: Result<At<seq<T>>>)
    ensures Behind([], rest) == rest
  {
    match rest {
      case Ok(t) => assert [] + t.value == t.value;
      case Err(_) =>
    }
  }

  lemma BehindTwice<T>(a: seq<T>, b: seq<T>, rest: Result<At<seq<T>>>)
    ensures Behind(a, Behind(b, rest)) == Behind(a + b, rest)
  {
    match rest {
      case Ok(t) => assert a + (b + t.value) == (a + b) + t.value;
      case Err(_) =>
    }
  }

  lemma FirstAndRest<T>(s: seq<T>)
    requires s != []
    ensures [s[0]] + s[1..] == s
  {}

  lemma FrontAndLast<T>(s: seq<T>)
    requires s != []
    ensures s == s[..|s| - 1] + [s[|s| - 1]]
  {}

  // ---- the reference printer ----

  function KindOf(v: Value): nat {
    match v
    case Int(k, _) => k
    case Bits(k, _) => k
    case Bool(_) => T_BOOL
    case Text(_) => T_STRING
    case Arr(_, _) => T_ARRAY
  }

  /** Values that the format can hold, within the reader's limits. */
  predicate Printable(v: Value) {
    match v
    case Int(k, n) =>
      var full := Pow256(ScalarSize(k));
      && ScalarSize(k) > 0 && k != T_BOOL && !Float(k)
      && if Signed(k) then 0 <= 2 * n + full < 2 * full else 0 <= n < full
    case Bits(k, raw) => Float(k) && raw < Pow256(ScalarSize(k))
    case Bool(_) => true
    case Text(s) => |s| <= MAX_STRING
    case Arr(item, values) =>
      item < Pow256(4) && |values| <= MAX_ARRAY && forall i :: 0 <= i < |values| ==> Printable(values[i]) && KindOf(values[i]) == item
  }

  function Unwrap(n: int, full: nat): nat
    requires 0 <= n + full
  {
    if n < 0 then n + full else n
  }

  function Print(v: Value): seq<Byte>
    requires Printable(v)
  {
    match v
    case Int(k, n) => ToBytes(Unwrap(n, Pow256(ScalarSize(k))), ScalarSize(k))
    case Bits(k, raw) => ToBytes(raw, ScalarSize(k))
    case Bool(b) => [if b then 1 else 0]
    case Text(s) => PrintString(s)
    case Arr(item, values) => ToBytes(item, 4) + ToBytes(|values|, 8) + PrintItems(values)
  }

  function PrintItems(values: seq<Value>): seq<Byte>
    requires forall i :: 0 <= i < |values| ==> Printable(values[i])
  {
    if values == [] then [] else Print(values[0]) + PrintItems(values[1..])
  }

  function PrintString(s: seq<Byte>): seq<Byte> { ToBytes(|s|, 8) + s }

  // ---- parsing inverts printing ----

  /** `piece` stands at `pos`. */
  predicate Has(data: seq<Byte>, pos: nat, piece: seq<Byte>) {
    pos + |piece| <= |data| && data[pos..pos + |piece|] == piece
  }

  lemma HasParts(data: seq<Byte>, pos: nat, a: seq<Byte>, b: seq<Byte>)
    ensures Has(data, pos, a + b) <==> Has(data, pos, a) && Has(data, pos + |a|, b)
  {
    if pos + |a| + |b| <= |data| {
      assert data[pos..pos + |a + b|] == data[pos..pos + |a|] + data[pos + |a|..pos + |a| + |b|];
      if Has(data, pos, a + b) {
        assert (a + b)[..|a|] == a && (a + b)[|a|..] == b;
        assert data[pos..pos + |a|] == data[pos..pos + |a + b|][..|a|];
        assert data[pos + |a|..pos + |a| + |b|] == data[pos..pos + |a + b|][|a|..];
      }
    }
  }

  lemma UnsignedBack(data: seq<Byte>, pos: nat, n: nat, size: nat)
    requires Has(data, pos, ToBytes(n, size)) && n < Pow256(size)
    ensures Unsigned(data, pos, size) == Ok(At(n, pos + size))
  {
    BytesBack(n, size);
  }

  lemma Pow256Four()
    ensures Pow256(1) == 256 && Pow256(2) == 0x1_0000 && Pow256(4) == 0x1_0000_0000 && Pow256(8) == 0x1_0000_0000_0000_0000
  {
    assert Pow256(3) == 0x100_0000;
    assert Pow256(5) == 0x100_0000_0000;
    assert Pow256(6) == 0x1_0000_0000_0000;
  }

  lemma StringBack(data: seq<Byte>, pos: nat, s: seq<Byte>)
    requires Has(data, pos, PrintString(s)) && |s| <= MAX_STRING
    ensures ReadString(data, pos) == Ok(At(s, pos + |PrintString(s)|))
  {
    HasParts(data, pos, ToBytes(|s|, 8), s);
    Pow256Four();
    UnsignedBack(data, pos, |s|, 8);
  }

  lemma ScalarBack(data: seq<Byte>, pos: nat, v: Value)
    requires pos <= |data| && Printable(v) && (v.Int? || v.Bits? || v.Bool?) && Has(data, pos, Print(v))
    ensures ParseValue(data, pos, KindOf(v)) == Ok(At(v, pos + |Print(v)|))
  {
    match v {
      case Int(k, n) => UnsignedBack(data, pos, Unwrap(n, Pow256(ScalarSize(k))), ScalarSize(k));
      case Bits(k, raw) => UnsignedBack(data, pos, raw, ScalarSize(k));
      case Bool(b) =>
        var n: nat := if b then 1 else 0;
        assert ToBytes(n, 1) == [n];
        Pow256Four();
        UnsignedBack(data, pos, n, 1);
    }
  }

  /** Parsing inverts the printer, for all nested values, wherever they stand. */
  lemma {:induction false} ParsePrint(data: seq<Byte>, pos: nat, v: Value)
    requires pos <= |data| && Printable(v) && Has(data, pos, Print(v))
    ensures ParseValue(data, pos, KindOf(v)) == Ok(At(v, pos + |Print(v)|))
    decreases v
  {
    match v {
      case Text(s) => StringBack(data, pos, s);
      case Arr(item, values) =>
        var a, b, c := ToBytes(item, 4), ToBytes(|values|, 8), PrintItems(values);
        HasParts(data, pos, a + b, c);
        HasParts(data, pos, a, b);
        Pow256Four();
        UnsignedBack(data, pos, item, 4);
        UnsignedBack(data, pos + 4, |values|, 8);
        ItemsPrint(data, pos + 12, item, values);
      case _ => ScalarBack(data, pos, v);
    }
  }

  lemma {:induction false} ItemsPrint(data: seq<Byte>, pos: nat, item: nat, values: seq<Value>)
    requires pos <= |data| && (forall i :: 0 <= i < |values| ==> Printable(values[i]) && KindOf(values[i]) == item)
    requires Has(data, pos, PrintItems(values))
    ensures ParseItems(data, pos, item, |values|) == Ok(At(values, pos + |PrintItems(values)|))
    decreases values
  {
    hide *;
    ItemsUnfold(data, pos, item, values);
    if values != [] {
      var v, rest := values[0], values[1..];
      var piece, more := Print(v), PrintItems(rest);
      HasParts(data, pos, piece, more);
      HasWithin(data, pos, piece);
      ParsePrint(data, pos, v);
      ItemsPrint(data, pos + |piece|, item, rest);
      ItemsStep(data, pos, item, v, pos + |piece|, rest, pos + |piece| + |more|);
      FirstAndRest(values);
    }
  }

  lemma ItemsUnfold(data: seq<Byte>, pos: nat, item: nat, values: seq<Value>)
    requires pos <= |data| && forall i :: 0 <= i < |values| ==> Printable(values[i])
    ensures if values == [] then PrintItems(values) == [] && ParseItems(data, pos, item, |values|) == Ok(At([], pos))
      else PrintItems(values) == Print(values[0]) + PrintItems(values[1..])
  {}

  lemma HasWithin(data: seq<Byte>, pos: nat, piece: seq<Byte>)
    requires Has(data, pos, piece)
    ensures pos + |piece| <= |data|
  {}

  lemma ItemsStep(data: seq<Byte>, pos: nat, t: nat, v: Value, mid: nat, rest: seq<Value>, end: nat)
    requires pos <= |data| && mid <= |data| && ParseValue(data, pos, t) == Ok(At(v, mid))
    requires ParseItems(data, mid, t, |rest|) == Ok(At(rest, end))
    ensures ParseItems(data, pos, t, |[v] + rest|) == Ok(At([v] + rest, end))
  {
    hide ParseValue;
  }

  /** And what is parsed is always printable, of the type asked for. */
  lemma {:induction false} ParsedPrintable(data: seq<Byte>, pos: nat, t: nat)
    requires pos <= |data| && ParseValue(data, pos, t).Ok?
    ensures Printable(ParseValue(data, pos, t).value.value) && KindOf(ParseValue(data, pos, t).value.value) == t
    decreases |data| - pos, 0
  {
    if ScalarSize(t) > 0 {
    } else if t == T_ARRAY {
      var item := Unsigned(data, pos, 4).value;
      var count := Unsigned(data, item.pos, 8).value;
      ItemsPrintable(data, count.pos, item.value, count.value);
    }
  }

  lemma {:induction false} ItemsPrintable(data: seq<Byte>, pos: nat, t: nat, count: nat)
    requires pos <= |data| && ParseItems(data, pos, t, count).Ok?
    ensures var vs := ParseItems(data, pos, t, count).value.value;
      forall i :: 0 <= i < |vs| ==> Printable(vs[i]) && KindOf(vs[i]) == t
    decreases |data| - pos, 1
  {
    if count > 0 {
      ParsedPrintable(data, pos, t);
      ItemsPrintable(data, ParseValue(data, pos, t).value.pos, t, count - 1);
    }
  }

  // ---- the cursor ----

  class Reader {
    const data: seq<Byte>
    var pos: nat

    ghost predicate Valid()
      reads this
    {
      pos <= |data|
    }

    constructor (data: seq<Byte>)
      ensures Valid() && this.data == data && pos == 0
    {
      this.data, pos := data, 0;
    }

    method Read(size: nat) returns (r: Result<seq<Byte>>)
      requires Valid()
      modifies this`pos
      ensures Valid() && old(pos) <= pos
      ensures match Take(data, old(pos), size)
        case Ok(t) => r == Ok(t.value) && pos == t.pos
        case Err(e) => r == Err(e)
    {
      if pos + size > |data| { return Err(Malformed("eof")); }
      r := Ok(data[pos..pos + size]);
      pos := pos + size;
    }

    method Unpack(size: nat) returns (r: Result<nat>)
      requires Valid()
      modifies this`pos
      ensures Valid() && old(pos) <= pos
      ensures match Unsigned(data, old(pos), size)
        case Ok(t) => r == Ok(t.value) && pos == t.pos
        case Err(e) => r == Err(e)
    {
      var bytes :- Read(size);
      r := Ok(M.LittleEndian(bytes));
    }

    method Str() returns (r: Result<seq<Byte>>)
      requires Valid()
      modifies this`pos
      ensures Valid() && old(pos) <= pos
      ensures match ReadString(data, old(pos))
        case Ok(t) => r == Ok(t.value) && pos == t.pos
        case Err(e) => r == Err(e)
    {
      var size :- Unpack(8);
      if size > MAX_STRING { return Err(Malformed("string length")); }
      r := Read(size);
    }

    /** One metadata value; an array reads its items in a loop, each of which may
        be an array again. */
    method Value(t: nat) returns (r: Result<Value>)
      requires Valid()
      modifies this`pos
      ensures Valid() && old(pos) <= pos
      ensures match ParseValue(data, old(pos), t)
        case Ok(v) => r == Ok(v.value) && pos == v.pos
        case Err(e) => r == Err(e)
      decreases |data| - pos, 0
    {
      if ScalarSize(t) > 0 {
        var raw :- Unpack(ScalarSize(t));
        return Ok(Decode(t, raw));
      }
      if t == T_STRING {
        var s :- Str();
        return Ok(Text(s));
      }
      if t != T_ARRAY { return Err(Malformed("value type")); }
      var item :- Unpack(4);
      var count :- Unpack(8);
      if count > MAX_ARRAY { return Err(Malformed("array length")); }
      var items :- Items(item, count);
      r := Ok(Arr(item, items));
    }

    method Items(t: nat, count: nat) returns (r: Result<seq<Value>>)
      requires Valid()
      modifies this`pos
      ensures Valid() && old(pos) <= pos
      ensures match ParseItems(data, old(pos), t, count)
        case Ok(v) => r == Ok(v.value) && pos == v.pos
        case Err(e) => r == Err(e)
      decreases |data| - pos, 1
    {
      var values: seq<Value> := [];
      ghost var start := pos;
      BehindNothing(ParseItems(data, start, t, count));
      for i := 0 to count
        invariant Valid() && start <= pos && |values| == i
        invariant ParseItems(data, start, t, count) == Behind(values, ParseItems(data, pos, t, count - i))
      {
        var v := Value(t);
        if v.Err? { return Err(v.error); }
        BehindTwice(values, [v.value], ParseItems(data, pos, t, count - i - 1));
        values := values + [v.value];
      }
      assert values + [] == values;
      r := Ok(values);
    }
  }
}
