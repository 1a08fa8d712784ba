/** The evidence that what the GPU wrote came back: hashes of writable bindings
    and samples at the rows the oracle asked for. */
module Writeback {
  import opened Words
  import opened Json

  /** Conversions of the artifact's values. */
  datatype Convert = Convert(
    integer: Json -> Option<int>,     // to an integer, if it can be
    number: Json -> Option<real>, // to a number, if it can be
    repr: Json -> string,         // the text of a value that is none
    lower: string -> string)

  function Text(c: Convert, v: Json): string { if v.Str? then v.s else c.repr(v) }

  // ---- hashes ----

  predicate IsHex(x: char) { '0' <= x <= '9' || 'a' <= x <= 'f' || 'A' <= x <= 'F' }

  function LowerChar(x: char): char { if 'A' <= x <= 'Z' then x - 'A' + 'a' else x }

  function Lower(s: string): (r: string)
    ensures |r| == |s|
  {
    seq(|s|, i requires 0 <= i < |s| => LowerChar(s[i]))
  }

  /** Sixteen hexadecimal digits behind `0x`, not all of them zero. */
  predicate ValidHash(v: Json) {
    && v.Str? && |v.s| == 18 && v.s[0] == '0' && v.s[1] == 'x'
    && (forall i | 2 <= i < 18 :: IsHex(v.s[i])) && exists i | 2 <= i < 18 :: v.s[i] != '0'
  }

  // ---- lists ----

  /** A nonempty list of what converts to integers. */
  function IntegerList(c: Convert, v: Json): Option<seq<int>> {
    if v.List? && v.items != [] then Integers(c, v.items) else None
  }

  function Integers(c: Convert, items: seq<Json>): (r: Option<seq<int>>)
    ensures r.Some? ==> |r.value| == |items|
  {
    if items == [] then Some([])
    else
      match (Integers(c, items[..|items| - 1]), c.integer(items[|items| - 1]))
      case (Some(front), Some(n)) => Some(front + [n])
      case _ => None
  }

  predicate IsFinite(v: Json) { v.Int? || v.Float? }

  /** A sample's index and value. */
  function SampleOf(c: Convert, v: Json): Option<(int, real)> {
    if v.Obj? && c.integer(Get(v, "index")).Some? && IsFinite(Get(v, "value")) && c.number(Get(v, "value")).Some?
    then Some((c.integer(Get(v, "index")).value, c.number(Get(v, "value")).value))
    else None
  }

  /** Samples by index; a later one replaces an earlier one. */
  function Samples(c: Convert, v: Json): Option<map<int, real>> {
    if v.List? && v.items != [] then SamplesIn(c, v.items) else None
  }

  function SamplesIn(c: Convert, items: seq<Json>): Option<map<int, real>> {
    if items == [] then Some(map[])
    else
      match (SamplesIn(c, items[..|items| - 1]), SampleOf(c, items[|items| - 1]))
      case (Some(front), Some(sample)) => Some(front[sample.0 := sample.1])
      case _ => None
  }

  method F32SamplesByIndex(c: Convert, v: Json) returns (r: Option<map<int, real>>)
    ensures r == Samples(c, v)
  {
    if !v.List? || v.items == [] { return None; }
    var items := v.items;
    var result: map<int, real> := map[];
    for i := 0 to |items|
      invariant SamplesIn(c, items[..i]) == Some(result)
    {
      assert items[..i + 1][..i] == items[..i];
      var sample := items[i];
      if SampleOf(c, sample).None? {
        SamplesFail(c, items, i + 1);
        return None;
      }
      result := result[SampleOf(c, sample).value.0 := SampleOf(c, sample).value.1];
    }
    assert items[..|items|] == items;
    r := Some(result);
  }

  lemma {:induction false} SamplesFail(c: Convert, items: seq<Json>, k: nat)
    requires k <= |items| && SamplesIn(c, items[..k]).None?
    ensures SamplesIn(c, items).None?
    decreases |items| - k
  {
    if k < |items| {
      assert items[..k + 1][..k] == items[..k];
      SamplesFail(c, items, k + 1);
    } else {
      assert items[..k] == items;
    }
  }

  // ---- findings ----

  /** What is wrong, and with which entry of which list. */
  datatype Finding = Finding(where: string, entry: nat, field: string)

  datatype Evidence = Evidence(missing: seq<Finding>, mismatches: seq<Finding>, unknown: seq<Finding>, verified: nat)

  datatype Summary = Mismatch | Unverified | Pass

  function Summarize(e: Evidence): Summary {
    if e.mismatches != [] then Mismatch else if e.missing != [] || e.unknown != [] then Unverified else Pass
  }

  function If(wrong: bool, where: string, entry: nat, field: string): seq<Finding> {
    if wrong then [Finding(where, entry, field)] else []
  }

  const ROWS := "q6_row_indexed_writeback_evidence"
  const BINDINGS := "q6_writable_bindings"

  function True(): Json { Bool(true) }

  predicate Overlap(a: seq<int>, b: seq<int>) { exists x | x in a :: x in b }

  /** Sampled indices that one of the two sides lacks, and those where they differ. */
  function Absent(indices: seq<int>, d: map<int, real>, w: map<int, real>): seq<int> {
    if indices == [] then []
    else
      var front, last := Absent(indices[..|indices| - 1], d, w), indices[|indices| - 1];
      if last !in d || last !in w then front + [last] else front
  }

  function Differing(indices: seq<int>, d: map<int, real>, w: map<int, real>): seq<int> {
    if indices == [] then []
    else
      var front, last := Differing(indices[..|indices| - 1], d, w), indices[|indices| - 1];
      if last in d && last in w && d[last] != w[last] then front + [last] else front
  }

  function RowMissing(c: Convert, required: Option<seq<int>>, row: Json, k: nat): seq<Finding> {
    if !row.Obj? then [Finding(ROWS, k, "object")]
    else
      var indices := IntegerList(c, Get(row, "q6_sample_indices"));
      var d, w := Samples(c, Get(row, "f32_after_dispatch")), Samples(c, Get(row, "f32_after_writeback"));
      If(Get(row, "q6_row_indexed") != True(), ROWS, k, "q6_row_indexed")
      + If(indices.None? || (required.Some? && !Overlap(indices.value, required.value)), ROWS, k, "q6_sample_indices")
      + If(Get(row, "row_indexed_samples_match_oracle") != True(), ROWS, k, "row_indexed_samples_match_oracle")
      + If(d.None?, ROWS, k, "f32_after_dispatch") + If(w.None?, ROWS, k, "f32_after_writeback")
      + If(indices.Some? && d.Some? && w.Some? && Absent(indices.value, d.value, w.value) != [], ROWS, k, "samples")
  }

  function RowMismatches(c: Convert, row: Json, k: nat): seq<Finding> {
    if !row.Obj? then []
    else
      match (IntegerList(c, Get(row, "q6_sample_indices")), Samples(c, Get(row, "f32_after_dispatch")), Samples(c, Get(row, "f32_after_writeback")))
      case (Some(indices), Some(d), Some(w)) =>
        var bad := Differing(indices, d, w);
        seq(|bad|, i requires 0 <= i < |bad| => Finding(ROWS, k, "samples"))
      case _ => []
  }

  predicate SameHash(item: Json) {
    var d, a := Get(item, "gpu_after_dispatch_hash"), Get(item, "fd_after_hash");
    ValidHash(d) && ValidHash(a) && Lower(d.s) == Lower(a.s)
  }

  /** `False`, what equals it, or nothing. */
  predicate NoMismatch(v: Json) { v == Bool(false) || v == Int(0) || v == Float(0.0) || v == Null }

  function BindingMissing(item: Json, k: nat): seq<Finding> {
    if !item.Obj? then [Finding(BINDINGS, k, "object")]
    else
      If(Get(item, "index") == Null, BINDINGS, k, "index") + If(Get(item, "binding") == Null, BINDINGS, k, "binding")
      + If(Get(item, "writable") != True(), BINDINGS, k, "writable")
      + If(!ValidHash(Get(item, "gpu_after_dispatch_hash")), BINDINGS, k, "gpu_after_dispatch_hash")
      + If(!ValidHash(Get(item, "fd_after_hash")), BINDINGS, k, "fd_after_hash")
      + If(Get(item, "writeback_verified") != True(), BINDINGS, k, "writeback_verified")
      + If(Get(item, "writeback_mismatch") != True() && !NoMismatch(Get(item, "writeback_mismatch")), BINDINGS, k, "writeback_mismatch")
  }

  function BindingMismatches(item: Json, k: nat): seq<Finding> {
    if !item.Obj? then []
    else
      var d, a := Get(item, "gpu_after_dispatch_hash"), Get(item, "fd_after_hash");
      If(Get(item, "writeback_mismatch") == True(), BINDINGS, k, "writeback_mismatch")
      + If(ValidHash(d) && ValidHash(a) && !SameHash(item), BINDINGS, k, "hash")
  }

  predicate BindingVerified(item: Json) {
    && item.Obj? && Get(item, "index") != Null && Get(item, "binding") != Null && Get(item, "writable") == True()
    && SameHash(item) && Get(item, "writeback_verified") == True() && NoMismatch(Get(item, "writeback_mismatch"))
  }

  function Listed(where: string, n: nat): seq<Finding> { seq(n, i requires 0 <= i < n => Finding(where, i, "listed")) }

  function RowsOf(q6: Json): seq<Json> { var v := Get(q6, ROWS); if v.List? then v.items else [] }

  function BindingsOf(q6: Json): seq<Json> { var v := Get(q6, BINDINGS); if v.List? then v.items else [] }

  function Required(c: Convert, q6: Json): Option<seq<int>> { IntegerList(c, Get(q6, "q6_row_indexed_sample_indices")) }

  /** What is missing at the top. */
  function HeadMissing(c: Convert, q6: Json): seq<Finding> {
    If(Get(q6, "q6_writeback_verified_all") != True(), "q6_writeback_verified_all", 0, "true")
    + If(Required(c, q6).None?, "q6_row_indexed_sample_indices", 0, "list")
    + If(Get(q6, "q6_row_indexed_writeback_verified") != True(), "q6_row_indexed_writeback_verified", 0, "true")
    + If(RowsOf(q6) == [], ROWS, 0, "list")
  }

  function RowsMissing(c: Convert, q6: Json, rows: seq<Json>): seq<Finding> {
    if rows == [] then []
    else RowsMissing(c, q6, rows[..|rows| - 1]) + RowMissing(c, Required(c, q6), rows[|rows| - 1], |rows| - 1)
  }

  function RowsMismatching(c: Convert, rows: seq<Json>): seq<Finding> {
    if rows == [] then [] else RowsMismatching(c, rows[..|rows| - 1]) + RowMismatches(c, rows[|rows| - 1], |rows| - 1)
  }

  function BindingsMissing(items: seq<Json>): seq<Finding> {
    if items == [] then [] else BindingsMissing(items[..|items| - 1]) + BindingMissing(items[|items| - 1], |items| - 1)
  }

  function BindingsMismatching(items: seq<Json>): seq<Finding> {
    if items == [] then [] else BindingsMismatching(items[..|items| - 1]) + BindingMismatches(items[|items| - 1], |items| - 1)
  }

  function VerifiedCount(items: seq<Json>): nat {
    if items == [] then 0 else VerifiedCount(items[..|items| - 1]) + if BindingVerified(items[|items| - 1]) then 1 else 0
  }

  function NoEvidence(): Evidence { Evidence([Finding("q6_workgroup_diagnostics", 0, "object")], [], [], 0) }

  /** The evidence, or nothing where a list of known findings cannot be looped over. */
  function EvidenceOf(c: Convert, q6: Json): Option<Evidence> {
    if !q6.Obj? then Some(NoEvidence())
    else
      match (Elements(Get(q6, "q6_writable_writeback_mismatches")), Elements(Get(q6, "q6_writable_writeback_unknown")))
      case (Some(bad), Some(unknown)) =>
        Some(Evidence(
          HeadMissing(c, q6) + RowsMissing(c, q6, RowsOf(q6)) + If(BindingsOf(q6) == [], BINDINGS, 0, "list") + BindingsMissing(BindingsOf(q6)),
          RowsMismatching(c, RowsOf(q6)) + Listed("q6_writable_writeback_mismatches", |bad|) + BindingsMismatching(BindingsOf(q6)),
          Listed("q6_writable_writeback_unknown", |unknown|),
          VerifiedCount(BindingsOf(q6))))
      case _ => None
  }

  method ReadIntegers(c: Convert, v: Json) returns (r: Option<seq<int>>)
    ensures r == IntegerList(c, v)
  {
    if !v.List? || v.items == [] { return None; }
    var items := v.items;
    var result: seq<int> := [];
    for i := 0 to |items|
      invariant Integers(c, items[..i]) == Some(result)
    {
      assert items[..i + 1][..i] == items[..i];
      if c.integer(items[i]).None? {
        IntegersFail(c, items, i + 1);
        return None;
      }
      result := result + [c.integer(items[i]).value];
    }
    assert items[..|items|] == items;
    r := Some(result);
  }

  lemma {:induction false} IntegersFail(c: Convert, items: seq<Json>, k: nat)
    requires k <= |items| && Integers(c, items[..k]).None?
    ensures Integers(c, items).None?
    decreases |items| - k
  {
    if k < |items| {
      assert items[..k + 1][..k] == items[..k];
      IntegersFail(c, items, k + 1);
    } else {
      assert items[..k] == items;
    }
  }

  /** The sampled indices on both sides: those that one lacks, and those that differ. */
  method CompareSamples(indices: seq<int>, d: map<int, real>, w: map<int, real>) returns (absent: seq<int>, differing: seq<int>)
    ensures absent == Absent(indices, d, w) && differing == Differing(indices, d, w)
  {
    absent, differing := [], [];
    for i := 0 to |indices|
      invariant absent == Absent(indices[..i], d, w) && differing == Differing(indices[..i], d, w)
    {
      assert indices[..i + 1][..i] == indices[..i];
      var x := indices[i];
      if x !in d || x !in w { absent := absent + [x]; }
      else if d[x] != w[x] { differing := differing + [x]; }
    }
    assert indices[..|indices|] == indices;
  }

  /** A finding for each index at which the sides differ. */
  method ReportDifferences(differing: seq<int>, k: nat) returns (mismatches: seq<Finding>)
    ensures mismatches == seq(|differing|, i requires 0 <= i < |differing| => Finding(ROWS, k, "samples"))
  {
    mismatches := [];
    for i := 0 to |differing|
      invariant mismatches == seq(i, j requires 0 <= j < i => Finding(ROWS, k, "samples"))
    {
      mismatches := mismatches + [Finding(ROWS, k, "samples")];
    }
  }

  method CheckRow(c: Convert, required: Option<seq<int>>, row: Json, k: nat) returns (missing: seq<Finding>, mismatches: seq<Finding>)
    ensures missing == RowMissing(c, required, row, k) && mismatches == RowMismatches(c, row, k)
  {
    hide IntegerList, Samples, Absent, Differing, Get, Overlap;
    if !row.Obj? { return [Finding(ROWS, k, "object")], []; }
    var indices := ReadIntegers(c, Get(row, "q6_sample_indices"));
    var d := F32SamplesByIndex(c, Get(row, "f32_after_dispatch"));
    var w := F32SamplesByIndex(c, Get(row, "f32_after_writeback"));
    var lacking := false;
    mismatches := [];
    if indices.Some? && d.Some? && w.Some? {
      var absent, differing := CompareSamples(indices.value, d.value, w.value);
      lacking := absent != [];
      mismatches := ReportDifferences(differing, k);
    }
    missing := If(Get(row, "q6_row_indexed") != True(), ROWS, k, "q6_row_indexed")
      + If(indices.None? || (required.Some? && !Overlap(indices.value, required.value)), ROWS, k, "q6_sample_indices")
      + If(Get(row, "row_indexed_samples_match_oracle") != True(), ROWS, k, "row_indexed_samples_match_oracle")
      + If(d.None?, ROWS, k, "f32_after_dispatch") + If(w.None?, ROWS, k, "f32_after_writeback") + If(lacking, ROWS, k, "samples");
  }

  /** The two hashes, and the flags beside them. */
  method CheckHashes(item: Json, k: nat) returns (mismatches: seq<Finding>, same: bool)
    requires item.Obj?
    ensures mismatches == BindingMismatches(item, k) && same == SameHash(item)
  {
    hide Lower, Get, IsHex;
    var dispatch, fd := Get(item, "gpu_after_dispatch_hash"), Get(item, "fd_after_hash");
    var valid := ValidHash(dispatch) && ValidHash(fd);
    same := valid && Lower(dispatch.s) == Lower(fd.s);
    mismatches := If(Get(item, "writeback_mismatch") == True(), BINDINGS, k, "writeback_mismatch");
    if valid && !same { mismatches := mismatches + [Finding(BINDINGS, k, "hash")]; }
  }

  method CheckBinding(item: Json, k: nat) returns (missing: seq<Finding>, mismatches: seq<Finding>, verified: bool)
    ensures missing == BindingMissing(item, k) && mismatches == BindingMismatches(item, k) && verified == BindingVerified(item)
  {
    hide ValidHash, Get, SameHash, BindingMismatches;
    if !item.Obj? {
      NoBinding(item, k);
      return [Finding(BINDINGS, k, "object")], [], false;
    }
    var same;
    mismatches, same := CheckHashes(item, k);
    var flag := Get(item, "writeback_mismatch");
    missing := If(Get(item, "index") == Null, BINDINGS, k, "index") + If(Get(item, "binding") == Null, BINDINGS, k, "binding")
      + If(Get(item, "writable") != True(), BINDINGS, k, "writable")
      + If(!ValidHash(Get(item, "gpu_after_dispatch_hash")), BINDINGS, k, "gpu_after_dispatch_hash")
      + If(!ValidHash(Get(item, "fd_after_hash")), BINDINGS, k, "fd_after_hash")
      + If(Get(item, "writeback_verified") != True(), BINDINGS, k, "writeback_verified")
      + If(flag != True() && !NoMismatch(flag), BINDINGS, k, "writeback_mismatch");
    verified := Get(item, "index") != Null && Get(item, "binding") != Null && Get(item, "writable") == True() && same
      && Get(item, "writeback_verified") == True() && NoMismatch(flag);
  }

  lemma NoBinding(item: Json, k: nat)
    requires !item.Obj?
    ensures BindingMismatches(item, k) == []
  {}

  method CheckRows(c: Convert, q6: Json, rows: seq<Json>) returns (missing: seq<Finding>, mismatches: seq<Finding>)
    ensures missing == RowsMissing(c, q6, rows) && mismatches == RowsMismatching(c, rows)
  {
    missing, mismatches := [], [];
    for k := 0 to |rows|
      invariant missing == RowsMissing(c, q6, rows[..k]) && mismatches == RowsMismatching(c, rows[..k])
    {
      assert rows[..k + 1][..k] == rows[..k];
      var here, wrong := CheckRow(c, Required(c, q6), rows[k], k);
      missing := missing + here;
      mismatches := mismatches + wrong;
    }
    assert rows[..|rows|] == rows;
  }

  method CheckBindings(items: seq<Json>) returns (missing: seq<Finding>, mismatches: seq<Finding>, verified: nat)
    ensures missing == BindingsMissing(items) && mismatches == BindingsMismatching(items) && verified == VerifiedCount(items)
  {
    hide BindingMissing, BindingMismatches, BindingVerified;
    missing, mismatches, verified := [], [], 0;
    for k := 0 to |items|
      invariant missing == BindingsMissing(items[..k]) && mismatches == BindingsMismatching(items[..k]) && verified == VerifiedCount(items[..k])
    {
      assert items[..k + 1][..k] == items[..k];
      var here, wrong, good := CheckBinding(items[k], k);
      missing := missing + here;
      mismatches := mismatches + wrong;
      if good { verified := verified + 1; }
    }
    assert items[..|items|] == items;
  }

  method Q6WritebackEvidence(c: Convert, q6: Json) returns (r: Option<Evidence>)
    ensures r == EvidenceOf(c, q6)
  {
    if !q6.Obj? { return Some(NoEvidence()); }
    var missing, mismatches := CheckRows(c, q6, RowsOf(q6));
    var bad, others := Elements(Get(q6, "q6_writable_writeback_mismatches")), Elements(Get(q6, "q6_writable_writeback_unknown"));
    if bad.None? || others.None? { return None; }
    var missing', mismatches', verified := CheckBindings(BindingsOf(q6));
    r := Some(Evidence(HeadMissing(c, q6) + missing + If(BindingsOf(q6) == [], BINDINGS, 0, "list") + missing',
                       mismatches + Listed("q6_writable_writeback_mismatches", |bad.value|) + mismatches',
                       Listed("q6_writable_writeback_unknown", |others.value|), verified));
  }

  // ---- what passing means ----

  /** Every sampled row is on both sides, with the same value. */
  ghost predicate RowProven(c: Convert, required: seq<int>, row: Json) {
    && row.Obj? && Get(row, "q6_row_indexed") == True() && Get(row, "row_indexed_samples_match_oracle") == True()
    && var indices := IntegerList(c, Get(row, "q6_sample_indices"));
       var d, w := Samples(c, Get(row, "f32_after_dispatch")), Samples(c, Get(row, "f32_after_writeback"));
       indices.Some? && d.Some? && w.Some? && Overlap(indices.value, required)
       && forall x :: x in indices.value ==> x in d.value && x in w.value && d.value[x] == w.value[x]
  }

  /** No entry is listed as wrong, and every row and every writable binding there
      is has come back as it was written. */
  ghost predicate Proven(c: Convert, q6: Json) {
    && q6.Obj? && Get(q6, "q6_writeback_verified_all") == True() && Get(q6, "q6_row_indexed_writeback_verified") == True()
    && !Truthy(Get(q6, "q6_writable_writeback_mismatches")) && !Truthy(Get(q6, "q6_writable_writeback_unknown"))
    && Required(c, q6).Some? && RowsOf(q6) != [] && BindingsOf(q6) != []
    && (forall k :: 0 <= k < |RowsOf(q6)| ==> RowProven(c, Required(c, q6).value, RowsOf(q6)[k]))
    && forall k :: 0 <= k < |BindingsOf(q6)| ==> BindingVerified(BindingsOf(q6)[k])
  }

  lemma {:induction false} SamplesAgree(indices: seq<int>, d: map<int, real>, w: map<int, real>)
    ensures Absent(indices, d, w) == [] && Differing(indices, d, w) == [] <==>
      forall x :: x in indices ==> x in d && x in w && d[x] == w[x]
  {
    if indices != [] {
      var front, last := indices[..|indices| - 1], indices[|indices| - 1];
      SamplesAgree(front, d, w);
      assert indices == front + [last];
    }
  }

  lemma RowExact(c: Convert, required: Option<seq<int>>, row: Json, k: nat)
    requires required.Some?
    ensures RowMissing(c, required, row, k) == [] && RowMismatches(c, row, k) == [] <==> RowProven(c, required.value, row)
  {
    hide Samples, IntegerList, Absent, Differing, Overlap, Get, ROWS;
    if row.Obj? {
      var indices := IntegerList(c, Get(row, "q6_sample_indices"));
      var d, w := Samples(c, Get(row, "f32_after_dispatch")), Samples(c, Get(row, "f32_after_writeback"));
      if indices.Some? && d.Some? && w.Some? { SamplesAgree(indices.value, d.value, w.value); }
    }
  }

  lemma BindingExact(item: Json, k: nat)
    ensures BindingMissing(item, k) == [] && BindingMismatches(item, k) == [] <==> BindingVerified(item)
  {
    hide ValidHash, Get, Lower, BINDINGS;
  }

  lemma {:induction false} RowsExact(c: Convert, q6: Json, rows: seq<Json>)
    requires Required(c, q6).Some?
    ensures RowsMissing(c, q6, rows) == [] && RowsMismatching(c, rows) == [] <==>
      forall k :: 0 <= k < |rows| ==> RowProven(c, Required(c, q6).value, rows[k])
  {
    hide RowMissing, RowMismatches, RowProven, Required;
    if rows != [] {
      var front := rows[..|rows| - 1];
      RowsExact(c, q6, front);
      RowExact(c, Required(c, q6), rows[|rows| - 1], |rows| - 1);
      assert forall k :: 0 <= k < |front| ==> front[k] == rows[k];
    }
  }

  lemma {:induction false} BindingsExact(items: seq<Json>)
    ensures BindingsMissing(items) == [] && BindingsMismatching(items) == [] <==>
      forall k :: 0 <= k < |items| ==> BindingVerified(items[k])
  {
    hide BindingMissing, BindingMismatches, BindingVerified;
    if items != [] {
      var front := items[..|items| - 1];
      BindingsExact(front);
      BindingExact(items[|items| - 1], |items| - 1);
      assert forall k :: 0 <= k < |front| ==> front[k] == items[k];
    }
  }

  lemma {:induction false} AllVerified(items: seq<Json>)
    requires forall k :: 0 <= k < |items| ==> BindingVerified(items[k])
    ensures VerifiedCount(items) == |items|
  {
    if items != [] { AllVerified(items[..|items| - 1]); }
  }

  /** The summary passes if and only if all of it is proven. */
  lemma PassExact(c: Convert, q6: Json)
    ensures EvidenceOf(c, q6).Some? && Summarize(EvidenceOf(c, q6).value) == Pass <==> Proven(c, q6)
    ensures Proven(c, q6) ==> EvidenceOf(c, q6).value.verified == |BindingsOf(q6)| > 0
  {
    hide RowsMissing, RowsMismatching, BindingsMissing, BindingsMismatching, BindingVerified, RowProven, RowsOf, BindingsOf, Required, Get, Elements, Truthy, VerifiedCount;
    if q6.Obj? {
      ElementsNone(Get(q6, "q6_writable_writeback_mismatches"));
      ElementsNone(Get(q6, "q6_writable_writeback_unknown"));
      BindingsExact(BindingsOf(q6));
      if Required(c, q6).Some? { RowsExact(c, q6, RowsOf(q6)); }
      if Proven(c, q6) { AllVerified(BindingsOf(q6)); }
    }
  }
}
