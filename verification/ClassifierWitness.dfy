/** An artifact that allows a correctness claim without a single oracle event. */
module ClassifierWitness {
  import opened Words
  import opened Json
  import opened Writeback
  import opened Classifier

  function Plainly(): Convert {
    Convert((v: Json) => if v.Int? then Some(v.n) else None, (v: Json) => if v.Int? then Some(v.n as real) else None, v => "", s => s)
  }

  function Quiet(): Sections {
    Sections(v => None, v => false, v => None, v => false, v => Prompt(false, false), v => false,
             v => Analyses(false, false, "", ProbeReport(false, true, "", 0, None), false, false, "", "", false, "", "", false, "", ""))
  }

  const HASH := "0x1111111111111111"

  function Sample(): Json { Obj([Field("index", Int(0)), Field("value", Int(1))]) }

  function Row(): Json {
    Obj([Field("q6_row_indexed", True()), Field("row_indexed_samples_match_oracle", True()), Field("q6_sample_indices", List([Int(0)])),
         Field("f32_after_dispatch", List([Sample()])), Field("f32_after_writeback", List([Sample()]))])
  }

  function Binding(): Json {
    Obj([Field("index", Int(2)), Field("binding", Int(2)), Field("writable", True()), Field("writeback_verified", True()),
         Field("gpu_after_dispatch_hash", Str(HASH)), Field("fd_after_hash", Str(HASH)),
         Field("offset_equals_memory_plus_api_offset", True()), Field("gpu_offset_equals_memory_plus_api_offset", True()),
         Field("descriptor_offset_equals_api_offset", True()), Field("descriptor_range_matches_api_range", True())])
  }

  function Q6(): Json {
    Obj([Field("latest_status", Str("match")), Field("local_size_resolved", List([Int(32), Int(1), Int(1)])),
         Field("q6_writeback_verified_all", True()), Field("q6_row_indexed_writeback_verified", True()),
         Field("q6_row_indexed_sample_indices", List([Int(0)])), Field("q6_row_indexed_writeback_evidence", List([Row()])),
         Field("q6_writable_bindings", List([Binding()]))])
  }

  function Diagnostics(): Json { Obj([Field("q6_workgroup_diagnostics", Q6())]) }

  function Outcome(): Json { Obj([Field("summary", Obj([Field("correctness", Str("pass"))]))]) }

  function Gpu(): Json { Obj([Field("diagnostics", Diagnostics()), Field("correctness", Outcome())]) }

  function Fresh(): Json { Obj([Field("observed_executor_markers", List([Str("marker")]))]) }

  /** No oracle event is counted, and no dispatch is reported as seen. */
  function Artifact(): Json { Obj([Field("gpu", Gpu()), Field("runtime_freshness", Fresh())]) }

  // ---- nothing adverse in it ----

  ghost predicate AllClear(c: Convert, v: Json) {
    Clear(UnsupportedSearch(c), v) && Clear(FailClosedSearch(c), v) && Clear(MismatchSearch(c), v)
  }

  /** A field that no search stops at. */
  predicate Passed(c: Convert, f: Field) { f.key != "cpu_oracle" && !Unsupported(c, f) && !FailClosed(c, f) }

  lemma {:induction false} NoOracle(fields: seq<Field>)
    requires forall i :: 0 <= i < |fields| ==> fields[i].key != "cpu_oracle"
    ensures Lookup(fields, "cpu_oracle").None?
  {
    if fields != [] { NoOracle(fields[1..]); }
  }

  lemma BelowClear(c: Convert, v: Json)
    requires v.Obj? ==> forall i :: 0 <= i < |v.fields| ==> Passed(c, v.fields[i])
    requires forall i :: 0 <= i < |Children(v)| ==> AllClear(c, Children(v)[i])
    ensures AllClear(c, v)
  {
    hide Unsupported, FailClosed;
    if v.Obj? { NoOracle(v.fields); }
    ClearBelow(UnsupportedSearch(c), v);
    ClearBelow(FailClosedSearch(c), v);
    ClearBelow(MismatchSearch(c), v);
  }

  /** The keys of the artifact that no search looks at. */
  predicate Unsearched(key: string) {
    key !in STATUS_KEYS && key !in STAGE_KEYS && key != "oracle_fail_closed" && key != "cpu_oracle"
  }

  lemma UnsearchedPass(c: Convert, f: Field)
    requires Unsearched(f.key)
    ensures Passed(c, f)
  {
    hide ContainsAny, STATUS_KEYS, STAGE_KEYS;
  }

  lemma ObjectClear(c: Convert, v: Json)
    requires v.Obj? && forall i :: 0 <= i < |v.fields| ==> Unsearched(v.fields[i].key) && AllClear(c, v.fields[i].value)
    ensures AllClear(c, v)
  {
    hide AllClear, Passed, Unsearched;
    forall i | 0 <= i < |v.fields| ensures Passed(c, v.fields[i]) { UnsearchedPass(c, v.fields[i]); }
    BelowClear(c, v);
  }

  lemma LeafClear(c: Convert)
    ensures forall v: Json :: !v.Obj? && !v.List? ==> AllClear(c, v)
  {
    hide AllClear;
    forall v: Json | !v.Obj? && !v.List? ensures AllClear(c, v) { BelowClear(c, v); }
  }

  lemma ListClear(c: Convert, items: seq<Json>)
    requires forall i :: 0 <= i < |items| ==> AllClear(c, items[i])
    ensures AllClear(c, List(items))
  {
    hide AllClear;
    BelowClear(c, List(items));
  }

  lemma SampleClear(c: Convert)
    ensures AllClear(c, List([Sample()]))
  {
    hide AllClear;
    LeafClear(c);
    ObjectClear(c, Sample());
    ListClear(c, [Sample()]);
  }

  lemma RowClear(c: Convert)
    ensures AllClear(c, List([Row()]))
  {
    hide AllClear, Sample;
    LeafClear(c);
    SampleClear(c);
    ListClear(c, [Int(0)]);
    ObjectClear(c, Row());
    ListClear(c, [Row()]);
  }

  lemma BindingClear(c: Convert)
    ensures AllClear(c, List([Binding()]))
  {
    hide AllClear, HASH;
    LeafClear(c);
    ObjectClear(c, Binding());
    ListClear(c, [Binding()]);
  }

  /** Short texts hold no adverse token. */
  lemma ShortText(s: string)
    requires |s| < 11
    ensures !ContainsAny(s, UNSUPPORTED_TOKENS) && !ContainsAny(s, FAIL_CLOSED_TOKENS)
  {
    forall t | t in UNSUPPORTED_TOKENS || t in FAIL_CLOSED_TOKENS ensures |t| >= 11 { TokenLong(t); }
  }

  lemma TokenLong(t: string)
    requires t in UNSUPPORTED_TOKENS || t in FAIL_CLOSED_TOKENS
    ensures |t| >= 11
  {}

  lemma StatusPasses()
    ensures Passed(Plainly(), Field("latest_status", Str("match")))
  {
    ShortText("match");
  }

  lemma Q6Clears()
    ensures AllClear(Plainly(), Q6())
  {
    hide AllClear, Passed, Unsearched, Row, Binding, Plainly;
    var c, v := Plainly(), Q6();
    LeafClear(c);
    RowClear(c);
    BindingClear(c);
    ListClear(c, [Int(0)]);
    ListClear(c, [Int(32), Int(1), Int(1)]);
    StatusPasses();
    Q6Keys();
    forall i | 0 <= i < |v.fields| ensures Passed(c, v.fields[i]) { if i > 0 { UnsearchedPass(c, v.fields[i]); } }
    BelowClear(c, v);
  }

  lemma Q6Keys()
    ensures forall i :: 1 <= i < |Q6().fields| ==> Unsearched(Q6().fields[i].key)
  {
    hide Row, Binding;
  }

  lemma ArtifactClear()
    ensures AllClear(Plainly(), Artifact())
  {
    hide AllClear, Q6, Plainly;
    var c := Plainly();
    LeafClear(c);
    Q6Clears();
    ObjectClear(c, Diagnostics());
    ObjectClear(c, Outcome().fields[0].value);
    ObjectClear(c, Outcome());
    ObjectClear(c, Gpu());
    ListClear(c, [Str("marker")]);
    ObjectClear(c, Fresh());
    ObjectClear(c, Artifact());
  }

  // ---- what its fields are ----

  lemma {:induction false} LookupAt(fields: seq<Field>, k: nat)
    requires k < |fields| && forall i :: 0 <= i < k ==> fields[i].key != fields[k].key
    ensures Lookup(fields, fields[k].key) == Some(fields[k].value)
  {
    if k > 0 { LookupAt(fields[1..], k - 1); }
  }

  lemma {:induction false} LookupNone(fields: seq<Field>, key: string)
    requires forall i :: 0 <= i < |fields| ==> fields[i].key != key
    ensures Lookup(fields, key).None?
  {
    if fields != [] { LookupNone(fields[1..], key); }
  }

  lemma RowProves(c: Convert)
    requires c == Plainly()
    ensures RowProven(c, [0], Row())
  {
    var f := Row().fields;
    LookupAt(f, 0);
    LookupAt(f, 1);
    LookupAt(f, 2);
    LookupAt(f, 3);
    LookupAt(f, 4);
    SamplesThere(c);
    OneInteger(c, 0);
    assert 0 in [0];
  }

  function Numbers(ns: seq<int>): (r: seq<Json>)
    ensures |r| == |ns|
  {
    seq(|ns|, i requires 0 <= i < |ns| => Int(ns[i]))
  }

  lemma {:induction false} NumbersAre(c: Convert, ns: seq<int>)
    requires c == Plainly()
    ensures Integers(c, Numbers(ns)) == Some(ns)
  {
    if ns != [] {
      NumbersAre(c, ns[..|ns| - 1]);
      assert Numbers(ns)[..|ns| - 1] == Numbers(ns[..|ns| - 1]) && Numbers(ns)[|ns| - 1] == Int(ns[|ns| - 1]);
      assert ns[..|ns| - 1] + [ns[|ns| - 1]] == ns;
      assert c.integer(Int(ns[|ns| - 1])) == Some(ns[|ns| - 1]);
    }
  }

  lemma OneInteger(c: Convert, n: int)
    requires c == Plainly()
    ensures IntegerList(c, List([Int(n)])) == Some([n])
  {
    NumbersAre(c, [n]);
    assert Numbers([n]) == [Int(n)];
  }

  lemma SamplesThere(c: Convert)
    requires c == Plainly()
    ensures Samples(c, List([Sample()])) == Some(map[0 := 1.0])
  {
    var items := [Sample()];
    LookupAt(Sample().fields, 0);
    LookupAt(Sample().fields, 1);
    assert items[..0] == [] && SamplesIn(c, []) == Some(map[]);
    assert SampleOf(c, Sample()) == Some((0, 1.0));
  }

  lemma BindingProves()
    ensures BindingVerified(Binding()) && InvariantsHold(Binding())
  {
    hide HASH, Get, BindingVerified, InvariantsHold;
    BindingFieldsProve();
    BindingHolds();
  }

  lemma BindingFieldsProve()
    ensures BindingVerified(Binding())
  {
    hide HASH, Get, ValidHash;
    forall k | 0 <= k < 6 ensures Get(Binding(), Binding().fields[k].key) == Binding().fields[k].value { BindingField(k); }
    var f := Binding().fields;
    assert Get(Binding(), f[0].key) == f[0].value && Get(Binding(), f[1].key) == f[1].value && Get(Binding(), f[2].key) == f[2].value;
    assert Get(Binding(), f[3].key) == f[3].value && Get(Binding(), f[4].key) == f[4].value && Get(Binding(), f[5].key) == f[5].value;
    BindingOther();
    HashValid();
  }

  lemma BindingHolds()
    ensures InvariantsHold(Binding())
  {
    hide HASH, Get;
    forall n | 0 <= n < |INVARIANTS| ensures Get(Binding(), INVARIANTS[n]) == True() {
      BindingField(n + 6);
      assert Binding().fields[n + 6].key == INVARIANTS[n] && Binding().fields[n + 6].value == True();
    }
  }

  lemma BindingField(k: nat)
    requires k < |Binding().fields|
    ensures Get(Binding(), Binding().fields[k].key) == Binding().fields[k].value
  {
    hide HASH;
    BindingKeys(k);
    LookupAt(Binding().fields, k);
  }

  lemma BindingKeys(k: nat)
    requires k < 10
    ensures |Binding().fields| == 10 && forall i :: 0 <= i < k ==> Binding().fields[i].key != Binding().fields[k].key
  {
    hide HASH;
  }

  lemma BindingOther()
    ensures Get(Binding(), "writeback_mismatch") == Null
  {
    hide HASH;
    var f := Binding().fields;
    assert forall i :: 0 <= i < |f| ==> f[i].key != "writeback_mismatch";
    LookupNone(f, "writeback_mismatch");
  }

  lemma HashValid()
    ensures ValidHash(Str(HASH))
  {
    assert HASH[2] != '0';
  }

  lemma Q6Fields()
    ensures Get(Q6(), "latest_status") == Str("match") && Get(Q6(), "local_size_resolved") == List(Numbers([32, 1, 1]))
    ensures Get(Q6(), "q6_writeback_verified_all") == True() && Get(Q6(), "q6_row_indexed_writeback_verified") == True()
    ensures Get(Q6(), "q6_row_indexed_sample_indices") == List([Int(0)]) && Get(Q6(), ROWS) == List([Row()]) && Get(Q6(), BINDINGS) == List([Binding()])
  {
    hide Row, Binding;
    var f := Q6().fields;
    LookupAt(f, 0);
    LookupAt(f, 1);
    LookupAt(f, 2);
    LookupAt(f, 3);
    LookupAt(f, 4);
    LookupAt(f, 5);
    LookupAt(f, 6);
    assert Numbers([32, 1, 1]) == [Int(32), Int(1), Int(1)];
  }

  predicate Absent(key: string) { Lookup(Q6().fields, key).None? && Get(Q6(), key) == Null }

  lemma Q6Absent(key: string)
    requires forall i :: 0 <= i < 7 ==> Q6().fields[i].key != key
    ensures Absent(key)
  {
    hide Row, Binding;
    LookupNone(Q6().fields, key);
  }

  lemma Q6NoCounts()
    ensures Absent("event_count") && Absent("q6_dispatch_event_count") && Absent("q6_probe_event_count")
    ensures Absent("q6_dispatch_seen") && Absent("q6_oracle_capture_missing") && Absent("blocker_class")
  {
    hide Row, Binding, Absent;
    Q6Absent("event_count");
    Q6Absent("q6_dispatch_event_count");
    Q6Absent("q6_probe_event_count");
    Q6Absent("q6_dispatch_seen");
    Q6Absent("q6_oracle_capture_missing");
    Q6Absent("blocker_class");
  }

  lemma Q6NoFindings()
    ensures Absent("q6_writable_writeback_mismatches") && Absent("q6_writable_writeback_unknown") && Absent("q6_descriptor_invariant_mismatches") && Absent(UPLOADS)
  {
    hide Row, Binding, Absent;
    Q6Absent("q6_writable_writeback_mismatches");
    Q6Absent("q6_writable_writeback_unknown");
    Q6Absent("q6_descriptor_invariant_mismatches");
    Q6Absent(UPLOADS);
  }

  lemma Q6NoKernel()
    ensures Absent("q6k_safe_kernel") && Absent("latest_spirv_hash") && Absent("local_size_consistent") && Absent("q6_local_size")
  {
    hide Row, Binding, Absent;
    Q6Absent("q6k_safe_kernel");
    Q6Absent("latest_spirv_hash");
    Q6Absent("local_size_consistent");
    Q6Absent("q6_local_size");
  }

  /** What a missing field reads as. */
  lemma MissingReads(c: Convert, key: string)
    requires c == Plainly() && Absent(key)
    ensures Number(c, Q6(), key) == 0 && TextOr(c, Get(Q6(), key)) == "" && Get(Q6(), key) == Null
  {
    hide Q6;
    IsObject();
    assert c.integer(Int(0)) == Some(0);
  }

  lemma Q6Counts(c: Convert)
    requires c == Plainly()
    ensures Number(c, Q6(), "event_count") == 0 && !DispatchWithoutOracle(c, Q6()) && !OnlyProbed(c, Q6()) && !SafeKernel(c, Q6())
  {
    hide Q6, Number, TextOr, Get, Absent, Plainly;
    Q6NoCounts();
    Q6NoKernel();
    MissingReads(c, "event_count");
    MissingReads(c, "q6_dispatch_event_count");
    MissingReads(c, "q6_probe_event_count");
    MissingReads(c, "q6_dispatch_seen");
    MissingReads(c, "q6_oracle_capture_missing");
    MissingReads(c, "blocker_class");
    MissingReads(c, "q6k_safe_kernel");
    MissingReads(c, "latest_spirv_hash");
    EmptyLower(c);
  }

  lemma EmptyLower(c: Convert)
    requires c == Plainly()
    ensures c.lower("") == ""
  {}

  lemma IsObject()
    ensures Q6().Obj? && AsObject(Q6()) == Q6()
  {}

  lemma AbsentNull(key: string)
    requires Absent(key)
    ensures Get(Q6(), key) == Null
  {}

  lemma Q6Proven(c: Convert)
    requires c == Plainly()
    ensures Proven(c, Q6())
  {
    hide Q6, Row, Binding, RowProven, BindingVerified, Get, Absent, Plainly, IntegerList, ROWS, BINDINGS;
    IsObject();
    Q6NoFindings();
    AbsentNull("q6_writable_writeback_mismatches");
    AbsentNull("q6_writable_writeback_unknown");
    Q6Fields();
    OneInteger(c, 0);
    RowProves(c);
    BindingProves();
  }

  lemma Q6Invariants()
    ensures AllInvariantsHold(Q6())
  {
    hide Q6, Row, Binding, InvariantsHold, Get, Absent, BINDINGS, UPLOADS;
    Q6NoFindings();
    AbsentNull("q6_descriptor_invariant_mismatches");
    AbsentNull(UPLOADS);
    Q6Fields();
    BindingProves();
  }

  lemma Q6IsClear(c: Convert)
    requires c == Plainly()
    ensures Q6Clear(c, Q6())
  {
    hide Q6, AllInvariantsHold, Proven, DispatchWithoutOracle, OnlyProbed, SafeKernel, Integers, Get, Absent, Numbers, Plainly;
    IsObject();
    Q6NoKernel();
    AbsentNull("local_size_consistent");
    AbsentNull("q6_local_size");
    Q6Fields();
    NumbersAre(c, [32, 1, 1]);
    Q6Counts(c);
    Q6Proven(c);
    Q6Invariants();
    assert |Numbers([32, 1, 1])| == 3;
  }

  // ---- the artifact ----

  lemma ArtifactFields()
    ensures Get(Artifact(), "gpu") == Gpu() && Get(Artifact(), "runtime_freshness") == Fresh()
    ensures Get(Gpu(), "diagnostics") == Diagnostics() && Get(Gpu(), "correctness") == Outcome()
    ensures Get(Outcome(), "summary") == Obj([Field("correctness", Str("pass"))]) && Get(Obj([Field("correctness", Str("pass"))]), "correctness") == Str("pass")
    ensures Get(Diagnostics(), "q6_workgroup_diagnostics") == Q6() && Get(Diagnostics(), "generic_spirv_dispatch") == Null
    ensures Get(Fresh(), "observed_executor_markers") == List([Str("marker")])
    ensures Get(Fresh(), "expected_executor_marker") == Null && Get(Fresh(), "expected_icd_marker") == Null
    ensures Get(Artifact(), "error") == Null && Get(Artifact(), "readiness") == Null && Get(Artifact(), "schema") == Null && Get(Artifact(), "comparison") == Null
  {
    hide Q6;
    LookupAt(Artifact().fields, 0);
    LookupAt(Artifact().fields, 1);
    LookupAt(Gpu().fields, 0);
    LookupAt(Gpu().fields, 1);
    LookupAt(Outcome().fields, 0);
    LookupAt(Outcome().fields[0].value.fields, 0);
    LookupAt(Diagnostics().fields, 0);
    LookupAt(Fresh().fields, 0);
    LookupNone(Diagnostics().fields, "generic_spirv_dispatch");
    LookupNone(Fresh().fields, "expected_executor_marker");
    LookupNone(Fresh().fields, "expected_icd_marker");
    LookupNone(Artifact().fields, "error");
    LookupNone(Artifact().fields, "readiness");
    LookupNone(Artifact().fields, "schema");
    LookupNone(Artifact().fields, "comparison");
  }

  lemma Nestings()
    ensures Nested(Artifact(), ["gpu", "diagnostics"]) == Diagnostics() && Nested(Artifact(), ["gpu", "correctness", "summary"]) == Obj([Field("correctness", Str("pass"))])
    ensures Nested(Artifact(), ["gpu", "diagnostics", "generic_spirv_dispatch"]) == Null && Q6Of(Artifact()) == Q6()
  {
    hide Get, Artifact, Q6, Gpu, Diagnostics, Outcome;
    ArtifactFields();
    var a, b, d := ["gpu", "diagnostics"], ["gpu", "correctness", "summary"], ["gpu", "diagnostics", "generic_spirv_dispatch"];
    assert a[1..] == ["diagnostics"] && a[1..][1..] == [];
    assert b[1..] == ["correctness", "summary"] && b[1..][1..] == ["summary"] && b[1..][1..][1..] == [];
    assert d[1..] == ["diagnostics", "generic_spirv_dispatch"] && d[1..][1..] == ["generic_spirv_dispatch"] && d[1..][1..][1..] == [];
    Q6Truthy();
  }

  lemma Q6Truthy()
    ensures Truthy(Q6())
  {}

  lemma ArtifactReady(c: Convert, o: Sections)
    requires c == Plainly() && o == Quiet()
    ensures Ready(c, o, Artifact()) && PromptsClear(c, o, Artifact())
  {
    hide Get, Artifact, Q6, Gpu, Diagnostics, Outcome;
    ArtifactFields();
    NullFields();
    assert Truthy(Fresh());
    assert Freshness(Artifact()) == Fresh();
    assert TextOr(c, Null) == "";
    MarkersAre(c);
  }

  lemma NullFields()
    ensures forall key :: Get(Null, key) == Null
  {}

  lemma MarkersAre(c: Convert)
    ensures Markers(c, List([Str("marker")])) == ["marker"]
  {
    var items := [Str("marker")];
    assert items[1..] == [] && MarkerTexts(c, []) == [];
    assert Text(c, items[0]) == "marker" && ["marker"] + [] == ["marker"];
  }

  /** No oracle event is counted, and the correctness claim is allowed. */
  lemma ClaimWithoutEvents()
    ensures var c, o, data := Plainly(), Quiet(), Artifact();
      && Number(c, Q6Of(data), "event_count") == 0
      && Classify(c, o, data).Ok? && Classify(c, o, data).value.correctness
  {
    hide Get, Artifact, Q6, Gpu, Diagnostics, Outcome, Ready, PromptsClear, Q6Clear, Clear, AllClear, Classify, Quiet, Plainly, Nested, Q6Of;
    var c, o, data := Plainly(), Quiet(), Artifact();
    ArtifactReady(c, o);
    ArtifactFields();
    Nestings();
    Q6IsClear(c);
    Q6Counts(c);
    ArtifactClear();
    LeafClear(c);
    Cleared(c, data);
    Cleared(c, Null);
    assert NothingReported(c, data);
    assert Nested(data, ["gpu", "diagnostics"]).Obj? by { DiagnosticsObject(); }
    assert Grounds(c, o, data);
    ClaimExact(c, o, data);
  }

  lemma Cleared(c: Convert, v: Json)
    requires AllClear(c, v)
    ensures Clear(FailClosedSearch(c), v) && Clear(UnsupportedSearch(c), v) && Clear(MismatchSearch(c), v)
  {}

  lemma DiagnosticsObject()
    ensures Diagnostics().Obj?
  {}
}
