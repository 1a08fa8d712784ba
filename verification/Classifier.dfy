/** The artifact classifier: from the evidence of a run to the claims it allows. */
module Classifier {
  import opened Words
  import opened Json
  import opened Writeback

  // ---- the searches it makes ----

  predicate Contains(s: string, token: string) {
    exists i | 0 <= i <= |s| - |token| :: StandsAt(s, token, i)
  }

  predicate StandsAt(s: string, token: string, i: nat)
    requires i <= |s| - |token|
  {
    s[i..i + |token|] == token
  }

  predicate ContainsAny(s: string, tokens: seq<string>) { exists t | t in tokens :: Contains(s, t) }

  const STATUS_KEYS := ["status", "latest_status", "error", "blocker_class", "classification", "diagnostic_interpretation"]
  const STAGE_KEYS := ["stage", "fail_stage"]
  const UNSUPPORTED_TOKENS := ["unsupported", "kernel-not-implemented-yet", "not-implemented", "unimplemented"]
  const FAIL_CLOSED_TOKENS := ["cpu-oracle-required", "oracle_fail_closed", "oracle-fail-closed", "oracle-pending"]

  predicate Unsupported(c: Convert, f: Field) {
    f.key in STATUS_KEYS && f.value.Str? && ContainsAny(c.lower(f.value.s), UNSUPPORTED_TOKENS)
  }

  predicate FailClosed(c: Convert, f: Field) {
    || (f.key == "oracle_fail_closed" && f.value == True())
    || (f.key in STATUS_KEYS + STAGE_KEYS && f.value.Str? && ContainsAny(c.lower(f.value.s), FAIL_CLOSED_TOKENS))
  }

  /** An oracle that was a candidate, ran, and disagreed. */
  predicate Disagrees(c: Convert, v: Json) {
    var oracle := Get(v, "cpu_oracle");
    oracle.Obj? && Get(oracle, "candidate") == True() && Get(oracle, "executed") == True()
    && c.lower(TextOr(c, Get(oracle, "status"))) == "mismatch"
  }

  function UnsupportedSearch(c: Convert): Search { Search(v => false, f => Unsupported(c, f)) }

  function FailClosedSearch(c: Convert): Search { Search(v => false, f => FailClosed(c, f)) }

  function MismatchSearch(c: Convert): Search { Search(v => Disagrees(c, v), f => false) }

  // ---- its guards ----

  function TextOr(c: Convert, v: Json): string { Text(c, Or(v, Str(""))) }

  function Number(c: Convert, v: Json, key: string): int {
    match c.integer(if Lookup(AsObject(v).fields, key).Some? then Get(v, key) else Int(0)) case Some(n) => n case None => 0
  }

  predicate ReadinessFalse(data: Json) {
    || Get(Get(data, "readiness"), "ready") == Bool(false)
    || (Get(data, "schema") == Str("pdocker.llama.gpu.device-readiness.v1") && Get(data, "ready") == Bool(false))
  }

  function Freshness(data: Json): Json {
    AsObject(Or(Get(data, "runtime_freshness"), Nested(data, ["gpu", "diagnostics", "runtime_freshness"])))
  }

  function Markers(c: Convert, v: Json): seq<string> {
    if v.List? then MarkerTexts(c, v.items) else []
  }

  function MarkerTexts(c: Convert, items: seq<Json>): seq<string> {
    if items == [] then []
    else if Text(c, items[0]) != "" then [Text(c, items[0])] + MarkerTexts(c, items[1..]) else MarkerTexts(c, items[1..])
  }

  predicate ExecutorMarkerOk(c: Convert, runtime: Json) {
    var markers, expected := Markers(c, Get(runtime, "observed_executor_markers")), TextOr(c, Get(runtime, "expected_executor_marker"));
    if expected != "" then expected in markers else markers != []
  }

  predicate IcdMarkerOk(c: Convert, runtime: Json) {
    var markers, expected := Markers(c, Get(runtime, "observed_icd_markers")), TextOr(c, Get(runtime, "expected_icd_marker"));
    expected != "" ==> expected in markers
  }

  predicate SafeKernel(c: Convert, q6: Json) {
    Get(q6, "q6k_safe_kernel") == True() || c.lower(TextOr(c, Get(q6, "latest_spirv_hash"))) == "0x7ec0292e948c9b41"
  }

  function LocalSize(c: Convert, q6: Json): Option<seq<int>> {
    IntegerList(c, Or(Get(q6, "local_size_resolved"), Get(q6, "local_size")))
  }

  function ExpectedLocalSize(c: Convert, q6: Json): seq<int> { if SafeKernel(c, q6) then [1, 1, 1] else [32, 1, 1] }

  predicate ShapeBlocked(c: Convert, q6: Json) {
    if Get(q6, "local_size_consistent") == Bool(false) then true
    else
      var own, resolved := IntegerList(c, Get(q6, "q6_local_size")), LocalSize(c, q6);
      (own.Some? && resolved.Some? && own != resolved) || resolved != Some(ExpectedLocalSize(c, q6))
  }

  predicate DispatchWithoutOracle(c: Convert, q6: Json) {
    && Number(c, q6, "event_count") <= 0
    && (|| Get(q6, "q6_dispatch_seen") == True() || Get(q6, "q6_oracle_capture_missing") == True()
        || Number(c, q6, "q6_dispatch_event_count") > 0 || TextOr(c, Get(q6, "blocker_class")) == "q6-oracle-capture-missing")
  }

  /** The probe was seen to write back, but the source module has no oracle. */
  predicate OnlyProbed(c: Convert, q6: Json) {
    && Number(c, q6, "event_count") == 0
    && (Number(c, q6, "q6_probe_event_count") > 0 || TextOr(c, Get(q6, "blocker_class")) == "q6-probe-writeback-cleared-oracle-missing")
  }

  const INVARIANTS := ["offset_equals_memory_plus_api_offset", "gpu_offset_equals_memory_plus_api_offset",
                       "descriptor_offset_equals_api_offset", "descriptor_range_matches_api_range"]

  function FieldFailures(where: string, item: Json, k: nat, n: nat): seq<Finding>
    requires n <= |INVARIANTS|
  {
    if n == 0 then []
    else FieldFailures(where, item, k, n - 1) + If(Get(item, INVARIANTS[n - 1]) != True(), where, k, INVARIANTS[n - 1])
  }

  function CollectionFailures(where: string, items: seq<Json>): seq<Finding> {
    if items == [] then []
    else
      CollectionFailures(where, items[..|items| - 1])
      + if items[|items| - 1].Obj? then FieldFailures(where, items[|items| - 1], |items| - 1, |INVARIANTS|) else []
  }

  function ItemsAt(q6: Json, key: string): seq<Json> { var v := Get(q6, key); if v.List? then v.items else [] }

  const UPLOADS := "q6_readonly_upload_hash_mismatches"

  function InvariantFailures(q6: Json): Option<seq<Finding>> {
    if !q6.Obj? then Some([])
    else
      match Elements(Get(q6, "q6_descriptor_invariant_mismatches"))
      case None => None
      case Some(known) =>
        Some(Listed("q6_descriptor_invariant_mismatches", |known|)
             + CollectionFailures(BINDINGS, ItemsAt(q6, BINDINGS)) + CollectionFailures(UPLOADS, ItemsAt(q6, UPLOADS)))
  }

  method CheckCollection(name: string, items: seq<Json>) returns (result: seq<Finding>)
    ensures result == CollectionFailures(name, items)
  {
    result := [];
    for k := 0 to |items|
      invariant result == CollectionFailures(name, items[..k])
    {
      assert items[..k + 1][..k] == items[..k];
      if !items[k].Obj? { continue; }
      ghost var before := result;
      for n := 0 to |INVARIANTS|
        invariant result == before + FieldFailures(name, items[k], k, n)
      {
        result := result + If(Get(items[k], INVARIANTS[n]) != True(), name, k, INVARIANTS[n]);
      }
    }
    assert items[..|items|] == items;
  }

  method Q6DescriptorInvariantMismatches(q6: Json) returns (r: Option<seq<Finding>>)
    ensures r == InvariantFailures(q6)
  {
    if !q6.Obj? { return Some([]); }
    var known := Elements(Get(q6, "q6_descriptor_invariant_mismatches"));
    if known.None? { return None; }
    var bindings := CheckCollection(BINDINGS, ItemsAt(q6, BINDINGS));
    var uploads := CheckCollection(UPLOADS, ItemsAt(q6, UPLOADS));
    r := Some(Listed("q6_descriptor_invariant_mismatches", |known.value|) + bindings + uploads);
  }

  predicate CpuComparisonAvailable(c: Convert, data: Json) {
    var cpu, comparison := Or(Get(data, "cpu"), Obj([])), Or(Get(data, "comparison"), Obj([]));
    && cpu.Obj? && comparison.Obj?
    && (Get(cpu, "reused_cpu_baseline") == True() || Positive(c, Get(cpu, "tokens_per_second")) || Positive(c, Get(comparison, "cpu_tokens_per_second")))
  }

  predicate Positive(c: Convert, v: Json) {
    v != Null && v != Str("") && c.number(Or(v, Int(0))).Some? && c.number(Or(v, Int(0))).value > 0.0
  }

  // ---- the classification ----

  datatype Prompt = Prompt(failed: bool, notReady: bool)

  /** The u32 probe's report: whether there is one and whether it needs no
      explanation, the text of its failures, and two counts. */
  datatype ProbeReport = ProbeReport(present: bool, fine: bool, failures: string, traces: int, bindings: Option<int>)

  /** The summaries of the analyses of a Q6 event that did not match its oracle. */
  datatype Analyses = Analyses(
    aliased: bool, aliasMissing: bool, explicit: string, report: ProbeReport,
    storeModelRequired: bool, storeModelValid: bool, boundary: string, outputIndex: string, shaderCleared: bool,
    nativeSplit: string, layout: string, fixedOffsetRejected: bool, provenance: string, partial: string)

  const BLOCKERS := ["q6-debug-binding-alias", "q6-debug-binding-alias-evidence-missing", "q6-debug-u32-probe-metadata-mismatch",
                     "q6-debug-u32-writeback-mismatch", "q6-debug-u32-final-store-trace-missing", "q6-debug-u32-probe-missing",
                     "q6-debug-u32-probe-invalid"]

  const CANDIDATE_OR_ROLE := ["candidate-id", "candidate id", "candidate mismatch", "role-code", "role code", "role mismatch"]
  const NO_TRACE := ["trace-v2-metadata", "final-output trace metadata", "no executed q6 final-store trace-v2 record",
                     "no executed final-output q6 probe record"]

  /** What the u32 probe says is wrong, if anything: an explicit answer that is a
      known one, or one made from the report. */
  function ProbeBlocker(explicit: string, report: ProbeReport): string {
    if explicit in BLOCKERS then explicit
    else if !report.present || report.fine then ""
    else if ContainsAny(report.failures, CANDIDATE_OR_ROLE) then "q6-debug-u32-probe-metadata-mismatch"
    else if Contains(report.failures, "writeback") then "q6-debug-u32-writeback-mismatch"
    else if ContainsAny(report.failures, NO_TRACE) || report.traces == 0 then "q6-debug-u32-final-store-trace-missing"
    else if report.bindings == Some(0) then "q6-debug-u32-probe-missing"
    else "q6-debug-u32-probe-invalid"
  }

  const UNEXPLAINED := "q6-workgroup-cleared-but-oracle-mismatch"

  // What an oracle mismatch is blamed on.
  const ALIAS := "q6-debug-binding-alias"
  const ALIAS_MISSING := "q6-debug-binding-alias-evidence-missing"
  const MODEL_INCOMPLETE := "q6-store-index-model-incomplete"
  const WRITEBACK_WRONG := "q6-writeback-mismatch"
  const FINAL_STORE := "q6-native-final-store"
  const FINAL_READBACK := "q6-native-final-store-or-readback"
  const LAYOUT := "q6-native-output-layout"
  const OTHER_ROW := "q6-native-other-row-output-layout"
  const LOCAL_Y := "q6-native-local-y-partial-store"
  const LANE := "q6-native-lane-partial-store"
  const DEVICE := "q6-native-device-execution-or-final-store"
  const LAYOUT_OPEN := "q6-native-output-layout-inconclusive"
  const REDUCTION := "q6-native-reduction-or-device-execution"

  /** The classification of an oracle mismatch. */
  function Split(a: Analyses): string {
    var blocker := ProbeBlocker(a.explicit, a.report);
    if a.aliased then ALIAS
    else if a.aliasMissing then ALIAS_MISSING
    else if blocker != "" then blocker
    else if (a.storeModelRequired || a.boundary == "executor-writeback-mismatch" || a.boundary == "native-final-store-mismatch") && !a.storeModelValid
      then MODEL_INCOMPLETE
    else if a.boundary == "executor-writeback-mismatch" then WRITEBACK_WRONG
    else if a.boundary == "native-final-store-mismatch" then FINAL_STORE
    else if a.outputIndex == "final-store-value" && a.shaderCleared then FINAL_STORE
    else if a.nativeSplit == "executor-final-writeback" then WRITEBACK_WRONG
    else if a.nativeSplit == "native-final-store-or-readback" then FINAL_READBACK
    else SplitLayout(a)
  }

  /** The rest of it: where in the output the values went. */
  function SplitLayout(a: Analyses): string {
    if (a.outputIndex == "fixed-offset" || a.outputIndex == "scatter") && a.storeModelValid then LAYOUT
    else if a.layout == "canonical-mismatch-found-elsewhere" && a.storeModelValid then LAYOUT
    else if a.provenance == "other-row-match" then
      if a.storeModelValid then OTHER_ROW else MODEL_INCOMPLETE
    else if a.partial == "local-y-partial" then LOCAL_Y
    else if a.partial == "lane-partial" then LANE
    else if a.fixedOffsetRejected && a.shaderCleared && a.storeModelValid then DEVICE
    else if a.outputIndex in ["elsewhere-outside-store-window", "mixed-found-and-missing", "inconclusive"] && a.storeModelValid
      then LAYOUT_OPEN
    else if a.layout == "canonical-mismatch-inconclusive" && a.storeModelValid then LAYOUT_OPEN
    else if a.layout == "canonical-mismatch-not-found" && a.shaderCleared then REDUCTION
    else UNEXPLAINED
  }

  /** Sections of the classifier that never allow a claim, by what they answer. */
  datatype Sections = Sections(
    service: Json -> Option<string>,   // completions, API and executor reconciliation
    exited: Json -> bool,              // the container stopped before it was ready
    setup: Json -> Option<string>,     // GPU setup failed before the first request
    propagation: Json -> bool,         // settings did not reach the executor
    prompt: Json -> Prompt,            // prompt probes
    speedup: Json -> bool,             // speedup fields are missing
    analyses: Json -> Analyses)        // what to blame for an oracle mismatch

  datatype Claim = Claim(classification: string, terminal: bool, correctness: bool, benchmark: bool)

  const CLEARED := "q6-workgroup-cleared-and-oracle-match"

  function Blocked(why: string): Claim { Claim(why, false, false, false) }

  function Q6Of(data: Json): Json { Or(Get(Nested(data, ["gpu", "diagnostics"]), "q6_workgroup_diagnostics"), Obj([])) }

  predicate OracleEvidence(c: Convert, q6: Json) {
    q6.Obj? && Number(c, q6, "event_count") > 0 && (Get(q6, "latest_status") == Str("match") || Get(q6, "latest_status") == Str("mismatch"))
  }

  /** The answers that come before the Q6 evidence is weighed. */
  function Gate(c: Convert, o: Sections, data: Json): Option<string> {
    var q6, runtime := Q6Of(data), Freshness(data);
    if o.service(data).Some? then o.service(data)
    else if o.exited(data) then Some("container-exited-before-readiness")
    else if !ExecutorMarkerOk(c, runtime) then Some("executor-marker-not-observed")
    else if !IcdMarkerOk(c, runtime) then Some("icd-marker-not-observed")
    else if o.setup(data).Some? then o.setup(data)
    else if o.propagation(data) then Some("config-propagation-mismatch")
    else if Capped(Hits(FailClosedSearch(c), data, [])) != [] then Some("oracle-fail-closed")
    else if Capped(Hits(UnsupportedSearch(c), data, [])) != [] then Some("unsupported-gpu-work-accepted")
    else if Capped(Hits(MismatchSearch(c), Nested(data, ["gpu", "diagnostics", "generic_spirv_dispatch"]), [])) != []
      then Some("generic-spirv-cpu-oracle-mismatch")
    else if o.prompt(data).failed && (!OracleEvidence(c, q6) || o.prompt(data).notReady) then Some("api-prompt-sanity-missing")
    else if o.speedup(data) && !OracleEvidence(c, q6) then Some("speedup-fields-missing")
    else None
  }

  function Verdict(c: Convert, o: Sections, q6: Json, e: Evidence, failures: seq<Finding>): string {
    if !Truthy(q6) then "q6-not-reached"
    else if Summarize(e) == Pass && OnlyProbed(c, q6) then "q6-probe-writeback-cleared-oracle-missing"
    else if DispatchWithoutOracle(c, q6) then "q6-oracle-capture-missing"
    else if ShapeBlocked(c, q6) then "q6-workgroup-shape-blocker"
    else if failures != [] then "q6-descriptor-invariant-mismatch"
    else if Summarize(e) == Mismatch then "q6-writeback-mismatch"
    else if Summarize(e) != Pass then "q6-writeback-unverified"
    else if SafeKernel(c, q6) && Get(q6, "latest_status") == Str("match") then "q6-safe-kernel-diagnostic-only"
    else if Get(q6, "latest_status") == Str("match") then CLEARED
    else if Get(q6, "latest_status") == Str("mismatch") then Split(o.analyses(q6))
    else "q6-inconclusive"
  }

  /** The claims of an artifact; an error where the script would stop with one. */
  function Classify(c: Convert, o: Sections, data: Json): Result<Claim> {
    var error := TextOr(c, Get(data, "error"));
    if error == "insufficient_memory" || error == "runtime_memory_pressure" then Ok(Blocked(error))
    else if ReadinessFalse(data) then Ok(Blocked("readiness-blocked"))
    else
      var diagnostics, summary := Or(Nested(data, ["gpu", "diagnostics"]), Obj([])), Or(Nested(data, ["gpu", "correctness", "summary"]), Obj([]));
      if !diagnostics.Obj? || !summary.Obj? then Err(Malformed("gpu"))
      else if Gate(c, o, data).Some? then Ok(Blocked(Gate(c, o, data).value))
      else
        var q6, comparison := Q6Of(data), Or(Get(data, "comparison"), Obj([]));
        match (EvidenceOf(c, q6), InvariantFailures(q6))
        case (Some(e), Some(failures)) =>
          if !q6.Obj? || !comparison.Obj? then Err(Malformed("q6 or comparison"))
          else
            var verdict := Verdict(c, o, q6, e, failures);
            var correct := Get(summary, "correctness") == Str("pass") && verdict == CLEARED;
            Ok(Claim(verdict, verdict == CLEARED, correct, correct && CpuComparisonAvailable(c, data) && Truthy(Get(comparison, "speedup"))))
        case _ => Err(Malformed("findings"))
  }

  // ---- when a claim is allowed ----

  predicate InvariantsHold(item: Json) { forall n | 0 <= n < |INVARIANTS| :: Get(item, INVARIANTS[n]) == True() }

  ghost predicate AllInvariantsHold(q6: Json) {
    && !Truthy(Get(q6, "q6_descriptor_invariant_mismatches"))
    && (forall k :: 0 <= k < |ItemsAt(q6, BINDINGS)| && ItemsAt(q6, BINDINGS)[k].Obj? ==> InvariantsHold(ItemsAt(q6, BINDINGS)[k]))
    && forall k :: 0 <= k < |ItemsAt(q6, UPLOADS)| && ItemsAt(q6, UPLOADS)[k].Obj? ==> InvariantsHold(ItemsAt(q6, UPLOADS)[k])
  }

  /** Nothing in the artifact speaks against it. */
  ghost predicate NothingReported(c: Convert, data: Json) {
    && Clear(FailClosedSearch(c), data) && Clear(UnsupportedSearch(c), data)
    && Clear(MismatchSearch(c), Nested(data, ["gpu", "diagnostics", "generic_spirv_dispatch"]))
  }

  /** The Q6 evidence: native kernel, its full workgroup, descriptors as they were
      asked for, all outputs written back, oracle matched. */
  ghost predicate Q6Clear(c: Convert, q6: Json) {
    && q6.Obj? && !SafeKernel(c, q6) && Get(q6, "latest_status") == Str("match")
    && LocalSize(c, q6) == Some([32, 1, 1]) && Get(q6, "local_size_consistent") != Bool(false)
    && (IntegerList(c, Get(q6, "q6_local_size")).Some? ==> IntegerList(c, Get(q6, "q6_local_size")) == Some([32, 1, 1]))
    && AllInvariantsHold(q6) && Proven(c, q6)
    && !DispatchWithoutOracle(c, q6) && !OnlyProbed(c, q6)
  }

  ghost predicate Ready(c: Convert, o: Sections, data: Json) {
    && TextOr(c, Get(data, "error")) != "insufficient_memory" && TextOr(c, Get(data, "error")) != "runtime_memory_pressure"
    && !ReadinessFalse(data) && o.service(data).None? && !o.exited(data) && o.setup(data).None? && !o.propagation(data)
    && ExecutorMarkerOk(c, Freshness(data)) && IcdMarkerOk(c, Freshness(data))
  }

  /** The prompts failed or speedups are missing only where oracle events make up for it. */
  ghost predicate PromptsClear(c: Convert, o: Sections, data: Json) {
    && (o.prompt(data).failed ==> OracleEvidence(c, Q6Of(data)) && !o.prompt(data).notReady)
    && (o.speedup(data) ==> OracleEvidence(c, Q6Of(data)))
  }

  lemma SearchClear(s: Search, v: Json)
    ensures Capped(Hits(s, v, [])) == [] <==> Clear(s, v)
  {
    SearchExact(s, v, []);
  }

  lemma GateExact(c: Convert, o: Sections, data: Json)
    requires TextOr(c, Get(data, "error")) != "insufficient_memory" && TextOr(c, Get(data, "error")) != "runtime_memory_pressure" && !ReadinessFalse(data)
    ensures Gate(c, o, data).None? <==> Ready(c, o, data) && NothingReported(c, data) && PromptsClear(c, o, data)
  {
    hide Clear, Hits, Capped, UnsupportedSearch, FailClosedSearch, MismatchSearch, OracleEvidence, ExecutorMarkerOk, IcdMarkerOk, Freshness, Q6Of, Nested;
    SearchClear(FailClosedSearch(c), data);
    SearchClear(UnsupportedSearch(c), data);
    SearchClear(MismatchSearch(c), Nested(data, ["gpu", "diagnostics", "generic_spirv_dispatch"]));
  }

  lemma {:induction false} FieldsExactly(where: string, item: Json, k: nat, n: nat)
    requires n <= |INVARIANTS|
    ensures FieldFailures(where, item, k, n) == [] <==> forall i :: 0 <= i < n ==> Get(item, INVARIANTS[i]) == True()
  {
    hide INVARIANTS, Get;
    if n > 0 { FieldsExactly(where, item, k, n - 1); }
  }

  lemma {:induction false} CollectionExact(where: string, items: seq<Json>)
    ensures CollectionFailures(where, items) == [] <==> forall k :: 0 <= k < |items| && items[k].Obj? ==> InvariantsHold(items[k])
  {
    hide INVARIANTS, FieldFailures;
    if items != [] {
      var front := items[..|items| - 1];
      CollectionExact(where, front);
      FieldsExactly(where, items[|items| - 1], |items| - 1, |INVARIANTS|);
      assert forall k :: 0 <= k < |front| ==> front[k] == items[k];
    }
  }

  lemma InvariantsExact(q6: Json)
    requires q6.Obj?
    ensures InvariantFailures(q6) == Some([]) <==> AllInvariantsHold(q6)
  {
    hide CollectionFailures, InvariantsHold, ItemsAt, Get, Truthy, Elements, BINDINGS, UPLOADS;
    ElementsNone(Get(q6, "q6_descriptor_invariant_mismatches"));
    CollectionExact(BINDINGS, ItemsAt(q6, BINDINGS));
    CollectionExact(UPLOADS, ItemsAt(q6, UPLOADS));
  }

  /** An oracle mismatch is never classified as cleared, whatever the analyses say. */
  lemma NeverClears(a: Analyses)
    ensures Split(a) != CLEARED
  {
    hide ContainsAny, Contains;
    var blocker := ProbeBlocker(a.explicit, a.report);
    assert blocker != CLEARED by { KnownBlocker(a.explicit, a.report); }
  }

  lemma KnownBlocker(explicit: string, report: ProbeReport)
    ensures ProbeBlocker(explicit, report) != CLEARED
  {
    hide ContainsAny, Contains;
    assert |CLEARED| == 37 && |BLOCKERS[0]| == 22 && |BLOCKERS[1]| == 39 && |BLOCKERS[2]| == 36 && |BLOCKERS[3]| == 31
      && |BLOCKERS[4]| == 38 && |BLOCKERS[5]| == 26 && |BLOCKERS[6]| == 26;
  }

  lemma OtherVerdicts()
    ensures CLEARED !in ["q6-not-reached", "q6-probe-writeback-cleared-oracle-missing", "q6-oracle-capture-missing", "q6-workgroup-shape-blocker",
      "q6-descriptor-invariant-mismatch", "q6-writeback-mismatch", "q6-writeback-unverified", "q6-safe-kernel-diagnostic-only", "q6-inconclusive"]
  {}

  lemma VerdictExact(c: Convert, o: Sections, q6: Json)
    requires q6.Obj? && EvidenceOf(c, q6).Some? && InvariantFailures(q6).Some?
    ensures Verdict(c, o, q6, EvidenceOf(c, q6).value, InvariantFailures(q6).value) == CLEARED <==> Q6Clear(c, q6)
  {
    hide EvidenceOf, InvariantFailures, Summarize, AllInvariantsHold, Proven, DispatchWithoutOracle, OnlyProbed, SafeKernel, IntegerList, LocalSize, Get, Split;
    NeverClears(o.analyses(q6));
    OtherVerdicts();
    PassExact(c, q6);
    InvariantsExact(q6);
    NeedsStatus(q6);
  }

  lemma NeedsStatus(q6: Json)
    ensures q6.Obj? && Get(q6, "latest_status") == Str("match") ==> Truthy(q6)
  {}

  /** Everything a correctness claim rests on. */
  ghost predicate Grounds(c: Convert, o: Sections, data: Json) {
    && Ready(c, o, data) && NothingReported(c, data) && PromptsClear(c, o, data)
    && Nested(data, ["gpu", "diagnostics"]).Obj? && Nested(data, ["gpu", "correctness", "summary"]).Obj?
    && Get(Nested(data, ["gpu", "correctness", "summary"]), "correctness") == Str("pass")
    && (Truthy(Get(data, "comparison")) ==> Get(data, "comparison").Obj?)
    && Q6Clear(c, Q6Of(data))
  }

  /** Claim soundness, and its converse: a correctness claim is made for exactly
      the artifacts that carry all its grounds, and a benchmark claim for exactly
      those of them that also compare with the CPU and state a speedup. */
  lemma ClaimExact(c: Convert, o: Sections, data: Json)
    ensures Classify(c, o, data).Ok? && Classify(c, o, data).value.correctness <==> Grounds(c, o, data)
    ensures Classify(c, o, data).Ok? && Classify(c, o, data).value.benchmark <==>
      Grounds(c, o, data) && CpuComparisonAvailable(c, data) && Truthy(Get(Get(data, "comparison"), "speedup"))
  {
    hide Gate, Verdict, EvidenceOf, InvariantFailures, Q6Clear, Ready, NothingReported, PromptsClear, CpuComparisonAvailable, ReadinessFalse, TextOr, Q6Of, Nested, Get;
    var q6 := Q6Of(data);
    Unready(c, o, data);
    if TextOr(c, Get(data, "error")) != "insufficient_memory" && TextOr(c, Get(data, "error")) != "runtime_memory_pressure" && !ReadinessFalse(data) {
      GateExact(c, o, data);
    }
    Q6ClearNeeds(c, q6);
    if q6.Obj? && EvidenceOf(c, q6).Some? && InvariantFailures(q6).Some? { VerdictExact(c, o, q6); }
    Q6ClearThere(c, data);
    OrObject(Nested(data, ["gpu", "diagnostics"]), "");
    OrObject(Nested(data, ["gpu", "correctness", "summary"]), "correctness");
    OrObject(Get(data, "comparison"), "speedup");
  }

  lemma Unready(c: Convert, o: Sections, data: Json)
    ensures Ready(c, o, data) ==> TextOr(c, Get(data, "error")) != "insufficient_memory" && TextOr(c, Get(data, "error")) != "runtime_memory_pressure" && !ReadinessFalse(data)
  {}

  lemma Q6ClearNeeds(c: Convert, q6: Json)
    ensures Q6Clear(c, q6) ==> q6.Obj? && EvidenceOf(c, q6).Some? && InvariantFailures(q6).Some?
  {
    hide EvidenceOf, InvariantFailures, SafeKernel, LocalSize, AllInvariantsHold, Proven;
    PassExact(c, q6);
    if q6.Obj? { InvariantsExact(q6); }
  }

  lemma Q6ClearThere(c: Convert, data: Json)
    ensures Q6Clear(c, Q6Of(data)) ==> Nested(data, ["gpu", "diagnostics"]).Obj?
  {
    hide SafeKernel, LocalSize, AllInvariantsHold, Proven, DispatchWithoutOracle, OnlyProbed, Nested;
    assert Get(Obj([]), "latest_status") == Null;
  }

  lemma OrObject(v: Json, key: string)
    ensures v.Obj? ==> Or(v, Obj([])) == v
    ensures Or(v, Obj([])).Obj? <==> v.Obj? || !Truthy(v)
    ensures Get(Or(v, Obj([])), key) == Get(v, key)
    ensures Get(v, key) != Null ==> v.Obj?
  {}
}
