/** When the written-back values contradict what the GPU wrote. */
module WritebackVerdict {
  import opened Json
  import opened Writeback

  /** A sampled index is on both sides, with different values. */
  ghost predicate RowDiffers(c: Convert, row: Json) {
    && row.Obj?
    && var indices := IntegerList(c, Get(row, "q6_sample_indices"));
       var d, w := Samples(c, Get(row, "f32_after_dispatch")), Samples(c, Get(row, "f32_after_writeback"));
       indices.Some? && d.Some? && w.Some? && exists x :: x in indices.value && x in d.value && x in w.value && d.value[x] != w.value[x]
  }

  /** The binding is marked as wrong, or has two valid hashes that differ. */
  ghost predicate HashesDiffer(item: Json) {
    && item.Obj?
    && var d, a := Get(item, "gpu_after_dispatch_hash"), Get(item, "fd_after_hash");
       Get(item, "writeback_mismatch") == Bool(true) || (ValidHash(d) && ValidHash(a) && Lower(d.s) != Lower(a.s))
  }

  ghost predicate Contradicted(c: Convert, q6: Json) {
    || Truthy(Get(q6, "q6_writable_writeback_mismatches"))
    || (exists k :: 0 <= k < |RowsOf(q6)| && RowDiffers(c, RowsOf(q6)[k]))
    || exists k :: 0 <= k < |BindingsOf(q6)| && HashesDiffer(BindingsOf(q6)[k])
  }

  lemma {:induction false} DifferingIff(indices: seq<int>, d: map<int, real>, w: map<int, real>)
    ensures Differing(indices, d, w) != [] <==> exists x :: x in indices && x in d && x in w && d[x] != w[x]
  {
    if indices != [] {
      var front, last := indices[..|indices| - 1], indices[|indices| - 1];
      DifferingIff(front, d, w);
      assert indices == front + [last];
    }
  }

  lemma RowIff(c: Convert, row: Json, k: nat)
    ensures RowMismatches(c, row, k) != [] <==> RowDiffers(c, row)
  {
    hide Samples, IntegerList, Differing, Get, ROWS;
    if row.Obj? {
      var indices := IntegerList(c, Get(row, "q6_sample_indices"));
      var d, w := Samples(c, Get(row, "f32_after_dispatch")), Samples(c, Get(row, "f32_after_writeback"));
      if indices.Some? && d.Some? && w.Some? { DifferingIff(indices.value, d.value, w.value); }
    }
  }

  lemma {:induction false} RowsIff(c: Convert, rows: seq<Json>)
    ensures RowsMismatching(c, rows) != [] <==> exists k :: 0 <= k < |rows| && RowDiffers(c, rows[k])
  {
    hide RowMismatches, RowDiffers;
    if rows != [] {
      var front := rows[..|rows| - 1];
      RowsIff(c, front);
      RowIff(c, rows[|rows| - 1], |rows| - 1);
      assert forall k :: 0 <= k < |front| ==> front[k] == rows[k];
    }
  }

  lemma BindingIff(item: Json, k: nat)
    ensures BindingMismatches(item, k) != [] <==> HashesDiffer(item)
  {
    hide ValidHash, Get, Lower, BINDINGS;
  }

  lemma {:induction false} BindingsIff(items: seq<Json>)
    ensures BindingsMismatching(items) != [] <==> exists k :: 0 <= k < |items| && HashesDiffer(items[k])
  {
    hide BindingMismatches, HashesDiffer;
    if items != [] {
      var front := items[..|items| - 1];
      BindingsIff(front);
      BindingIff(items[|items| - 1], |items| - 1);
      assert forall k :: 0 <= k < |front| ==> front[k] == items[k];
    }
  }

  /** The summary is a mismatch exactly if something contradicts, passes exactly if
      all is proven, and is unverified otherwise. */
  lemma SummaryExact(c: Convert, q6: Json)
    requires EvidenceOf(c, q6).Some?
    ensures Summarize(EvidenceOf(c, q6).value)
      == if q6.Obj? && Contradicted(c, q6) then Mismatch else if Proven(c, q6) then Pass else Unverified
  {
    hide RowsMissing, RowsMismatching, BindingsMissing, BindingsMismatching, RowsOf, BindingsOf, Required, Get, Elements, Truthy, VerifiedCount, RowDiffers, HashesDiffer,
      Proven, HeadMissing;
    PassExact(c, q6);
    if q6.Obj? {
      ElementsNone(Get(q6, "q6_writable_writeback_mismatches"));
      RowsIff(c, RowsOf(q6));
      BindingsIff(BindingsOf(q6));
    }
  }

  /** How many bindings are verified. */
  lemma {:induction false} VerifiedExact(items: seq<Json>)
    ensures VerifiedCount(items) == |set k | 0 <= k < |items| && BindingVerified(items[k])|
  {
    hide BindingVerified;
    if items != [] {
      var n := |items| - 1;
      VerifiedExact(items[..n]);
      var before, after := set k | 0 <= k < |items[..n]| && BindingVerified(items[..n][k]), set k | 0 <= k < |items| && BindingVerified(items[k]);
      assert after == before + if BindingVerified(items[n]) then {n} else {};
    }
  }
}
