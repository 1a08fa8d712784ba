/** Every table that is read keeps the reader's limits. */
module GgufLimits {
  import opened Words
  import opened Gguf
  import opened GgufIndex

  /** Texts of at most 256 MiB, arrays of at most a million items, at every depth. */
  ghost predicate ValueLimited(v: Value)
    decreases v
  {
    match v
    case Text(s) => |s| <= 256 * 1024 * 1024
    case Arr(_, values) => |values| <= 1_000_000 && forall i :: 0 <= i < |values| ==> ValueLimited(values[i])
    case _ => true
  }

  ghost predicate TensorLimited(t: Tensor) {
    |t.name| <= 256 * 1024 * 1024 && |t.shape| <= 16
  }

  ghost predicate TableLimited(t: Table) {
    && (t.version == 2 || t.version == 3) && |t.tensors| <= 2_000_000 && |t.metadata| <= 1_000_000
    && (forall i :: 0 <= i < |t.metadata| ==> |t.metadata[i].key| <= 256 * 1024 * 1024 && ValueLimited(t.metadata[i].value))
    && forall i :: 0 <= i < |t.tensors| ==> TensorLimited(t.tensors[i])
  }

  lemma {:induction false} PrintableLimited(v: Value)
    requires Printable(v)
    ensures ValueLimited(v)
    decreases v
  {
    match v {
      case Arr(_, values) => forall i | 0 <= i < |values| ensures ValueLimited(values[i]) { PrintableLimited(values[i]); }
      case _ =>
    }
  }

  lemma EntryLimited(data: seq<Byte>, pos: nat)
    requires pos <= |data| && ParseEntry(data, pos).Ok?
    ensures var e := ParseEntry(data, pos).value.value; |e.key| <= 256 * 1024 * 1024 && ValueLimited(e.value)
  {
    var key := ReadString(data, pos).value;
    var t := Unsigned(data, key.pos, 4).value;
    ParsedPrintable(data, t.pos, t.value);
    PrintableLimited(ParseValue(data, t.pos, t.value).value.value);
  }

  lemma {:induction false} EntriesLimited(data: seq<Byte>, pos: nat, count: nat)
    requires pos <= |data| && ParseEntries(data, pos, count).Ok?
    ensures var es := ParseEntries(data, pos, count).value.value;
      forall i :: 0 <= i < |es| ==> |es[i].key| <= 256 * 1024 * 1024 && ValueLimited(es[i].value)
    decreases count
  {
    hide ParseEntry, ValueLimited;
    if count > 0 {
      EntryLimited(data, pos);
      EntriesLimited(data, ParseEntry(data, pos).value.pos, count - 1);
    }
  }

  lemma {:induction false} TensorsLimited(data: seq<Byte>, pos: nat, count: nat)
    requires ParseTensors(data, pos, count).Ok?
    ensures var ts := ParseTensors(data, pos, count).value.value; forall i :: 0 <= i < |ts| ==> TensorLimited(ts[i])
    decreases count
  {
    hide ParseTensor, TensorLimited;
    if count > 0 {
      OneLimited(data, pos);
      TensorsLimited(data, ParseTensor(data, pos).value.pos, count - 1);
    }
  }

  lemma OneLimited(data: seq<Byte>, pos: nat)
    requires ParseTensor(data, pos).Ok?
    ensures TensorLimited(ParseTensor(data, pos).value.value)
  {}

  /** What is read is within the limits. */
  lemma ReadLimited(data: seq<Byte>)
    requires ParseTable(data).Ok?
    ensures TableLimited(ParseTable(data).value.value)
  {
    hide ParseEntries, ParseTensors, ValueLimited, TensorLimited;
    var tensors, entries := Unsigned(data, 8, 8).value, Unsigned(data, 16, 8).value;
    EntriesLimited(data, entries.pos, entries.value);
    TensorsLimited(data, ParseEntries(data, entries.pos, entries.value).value.pos, tensors.value);
  }

  /** And they are the printer's: whatever is within them is read back. */
  lemma LimitsExact(t: Table, s: seq<Byte>, item: nat, values: seq<Value>)
    ensures Printable(Text(s)) <==> |s| <= 256 * 1024 * 1024
    ensures Printable(Arr(item, values)) <==>
      item < 0x1_0000_0000 && |values| <= 1_000_000 && forall i :: 0 <= i < |values| ==> Printable(values[i]) && KindOf(values[i]) == item
    ensures TableFits(t) <==>
      && (t.version == 2 || t.version == 3) && |t.tensors| <= 2_000_000 && |t.metadata| <= 1_000_000
      && (forall i :: 0 <= i < |t.metadata| ==> |t.metadata[i].key| <= 256 * 1024 * 1024 && Printable(t.metadata[i].value))
      && forall i :: 0 <= i < |t.tensors| ==> TensorLimited(t.tensors[i]) && Numbered(t.tensors[i])
  {
    hide Printable, Pow256;
    Pow256Four();
    PrintableIs(s, item, values);
  }

  /** Type number, offset and dimensions fit their fields. */
  predicate Numbered(t: Tensor) {
    && t.ggmlType < 0x1_0000_0000 && t.offset < 0x1_0000_0000_0000_0000
    && forall i :: 0 <= i < |t.shape| ==> t.shape[i] < 0x1_0000_0000_0000_0000
  }

  lemma PrintableIs(s: seq<Byte>, item: nat, values: seq<Value>)
    ensures Printable(Text(s)) <==> |s| <= 256 * 1024 * 1024
    ensures Printable(Arr(item, values)) <==>
      item < Pow256(4) && |values| <= 1_000_000 && forall i :: 0 <= i < |values| ==> Printable(values[i]) && KindOf(values[i]) == item
  {}
}
