/** Every answer of the classifier has its ground: the first that holds decides. */
module ClassifierGrounds {
  import opened Words
  import opened Json
  import opened Writeback
  import opened WritebackVerdict
  import opened Classifier

  // ---- before the Q6 evidence ----

  const GATES := ["container-exited-before-readiness", "executor-marker-not-observed", "icd-marker-not-observed", "", "config-propagation-mismatch",
                  "oracle-fail-closed", "unsupported-gpu-work-accepted", "generic-spirv-cpu-oracle-mismatch", "api-prompt-sanity-missing",
                  "speedup-fields-missing"]

  /** The expected marker was seen; without an expected one of the executor, any. */
  ghost predicate MarkerSeen(c: Convert, runtime: Json, observed: string, expected: string, any: bool) {
    var markers, name := Markers(c, Get(runtime, observed)), TextOr(c, Get(runtime, expected));
    (name != "" ==> name in markers) && (name == "" && any ==> markers != [])
  }

  /** Oracle events were counted and one of them was compared. */
  ghost predicate OracleSpoke(c: Convert, q6: Json) {
    q6.Obj? && Number(c, q6, "event_count") > 0 && Get(q6, "latest_status") in {Str("match"), Str("mismatch")}
  }

  ghost function GateGrounds(c: Convert, o: Sections, data: Json): (g: seq<bool>)
    ensures |g| == 10
  {
    var runtime, spoke := Freshness(data), OracleSpoke(c, Q6Of(data));
    [o.exited(data),
     !MarkerSeen(c, runtime, "observed_executor_markers", "expected_executor_marker", true),
     !MarkerSeen(c, runtime, "observed_icd_markers", "expected_icd_marker", false),
     o.setup(data).Some?,
     o.propagation(data),
     !Clear(FailClosedSearch(c), data),
     !Clear(UnsupportedSearch(c), data),
     !Clear(MismatchSearch(c), Nested(data, ["gpu", "diagnostics", "generic_spirv_dispatch"])),
     o.prompt(data).failed && (!spoke || o.prompt(data).notReady),
     o.speedup(data) && !spoke]
  }

  /** The first ground that holds. */
  ghost predicate First(g: seq<bool>, i: nat) { i < |g| && g[i] && forall j :: 0 <= j < i ==> !g[j] }

  ghost predicate NoGround(g: seq<bool>) { forall j :: 0 <= j < |g| ==> !g[j] }

  /** The service's own answer counts, or else the first ground that holds. */
  lemma GateFirst(c: Convert, o: Sections, data: Json, i: nat)
    ensures var g := GateGrounds(c, o, data);
      && (o.service(data).Some? ==> Gate(c, o, data) == o.service(data))
      && (o.service(data).None? && First(g, i) ==> Gate(c, o, data) == if i == 3 then o.setup(data) else Some(GATES[i]))
      && (o.service(data).None? && NoGround(g) ==> Gate(c, o, data).None?)
  {
    hide Hits, Capped, Clear, FailClosedSearch, UnsupportedSearch, MismatchSearch, Nested, Freshness, Q6Of, Markers, TextOr, Number, Get, MarkerSeen,
      ExecutorMarkerOk, IcdMarkerOk, OracleSpoke, OracleEvidence;
    SearchClear(FailClosedSearch(c), data);
    SearchClear(UnsupportedSearch(c), data);
    SearchClear(MismatchSearch(c), Nested(data, ["gpu", "diagnostics", "generic_spirv_dispatch"]));
    GateSteps(c, o, data);
    var g := GateGrounds(c, o, data);
    var v := (g[0], g[1], g[2], g[3], g[4], g[5], g[6], g[7], g[8], g[9]);
  }

  lemma GateSteps(c: Convert, o: Sections, data: Json)
    ensures MarkerSeen(c, Freshness(data), "observed_executor_markers", "expected_executor_marker", true) == ExecutorMarkerOk(c, Freshness(data))
    ensures MarkerSeen(c, Freshness(data), "observed_icd_markers", "expected_icd_marker", false) == IcdMarkerOk(c, Freshness(data))
    ensures OracleSpoke(c, Q6Of(data)) == OracleEvidence(c, Q6Of(data))
  {
    hide Freshness, Q6Of, Markers, TextOr, Number, Get;
  }

  // ---- the Q6 evidence ----

  const VERDICTS := ["q6-not-reached", "q6-probe-writeback-cleared-oracle-missing", "q6-oracle-capture-missing", "q6-workgroup-shape-blocker",
                     "q6-descriptor-invariant-mismatch", "q6-writeback-mismatch", "q6-writeback-unverified", "q6-safe-kernel-diagnostic-only", CLEARED]

  /** The workgroup is the kernel's, and all that is said about it agrees. */
  ghost predicate ShapeRight(c: Convert, q6: Json) {
    var own := IntegerList(c, Get(q6, "q6_local_size"));
    && Get(q6, "local_size_consistent") != Bool(false)
    && LocalSize(c, q6) == Some(if SafeKernel(c, q6) then [1, 1, 1] else [32, 1, 1])
    && (own.Some? ==> own == LocalSize(c, q6))
  }

  /** A dispatch was seen, but no oracle event. */
  ghost predicate NoOracle(c: Convert, q6: Json) {
    && Number(c, q6, "event_count") <= 0
    && (Get(q6, "q6_dispatch_seen") == Bool(true) || Get(q6, "q6_oracle_capture_missing") == Bool(true)
        || Number(c, q6, "q6_dispatch_event_count") > 0 || TextOr(c, Get(q6, "blocker_class")) == "q6-oracle-capture-missing")
  }

  ghost predicate ProbeOnly(c: Convert, q6: Json) {
    && Number(c, q6, "event_count") == 0
    && (Number(c, q6, "q6_probe_event_count") > 0 || TextOr(c, Get(q6, "blocker_class")) == "q6-probe-writeback-cleared-oracle-missing")
  }

  ghost function VerdictGrounds(c: Convert, q6: Json): (g: seq<bool>)
    ensures |g| == 9
  {
    [q6 == Obj([]),
     Proven(c, q6) && ProbeOnly(c, q6),
     NoOracle(c, q6),
     !ShapeRight(c, q6),
     !AllInvariantsHold(q6),
     Contradicted(c, q6),
     !Proven(c, q6),
     SafeKernel(c, q6) && Get(q6, "latest_status") == Str("match"),
     Get(q6, "latest_status") == Str("match")]
  }

  /** The first ground that holds is the verdict; without one it is an oracle
      mismatch, which is split, or inconclusive. */
  lemma VerdictFirst(c: Convert, o: Sections, q6: Json, i: nat)
    requires q6.Obj? && EvidenceOf(c, q6).Some? && InvariantFailures(q6).Some?
    ensures var g, v := VerdictGrounds(c, q6), Verdict(c, o, q6, EvidenceOf(c, q6).value, InvariantFailures(q6).value);
      && (First(g, i) ==> v == VERDICTS[i])
      && (NoGround(g) ==> v == if Get(q6, "latest_status") == Str("mismatch") then Split(o.analyses(q6)) else "q6-inconclusive")
  {
    hide EvidenceOf, InvariantFailures, Summarize, AllInvariantsHold, Proven, Contradicted, SafeKernel, Get, Split, ShapeRight, ShapeBlocked, NoOracle, ProbeOnly,
      DispatchWithoutOracle, OnlyProbed, Truthy;
    SummaryExact(c, q6);
    InvariantsExact(q6);
    ShapeIff(c, q6);
    OracleIff(c, q6);
    EmptyIff(q6);
    ProvenSome(c, q6);
    var g := VerdictGrounds(c, q6);
    var v := (g[0], g[1], g[2], g[3], g[4], g[5], g[6], g[7], g[8]);
  }

  lemma ProvenSome(c: Convert, q6: Json)
    requires EvidenceOf(c, q6).Some?
    ensures Summarize(EvidenceOf(c, q6).value) == Pass <==> Proven(c, q6)
  {
    hide Proven, EvidenceOf;
    PassExact(c, q6);
  }

  lemma EmptyIff(q6: Json)
    requires q6.Obj?
    ensures Truthy(q6) <==> q6 != Obj([])
  {}

  lemma ShapeIff(c: Convert, q6: Json)
    ensures ShapeBlocked(c, q6) == !ShapeRight(c, q6)
  {
    hide SafeKernel, Get, LocalSize, IntegerList;
  }

  lemma OracleIff(c: Convert, q6: Json)
    ensures DispatchWithoutOracle(c, q6) == NoOracle(c, q6) && OnlyProbed(c, q6) == ProbeOnly(c, q6)
  {
    hide Number, TextOr, Get;
  }

  // ---- what an oracle mismatch is blamed on ----

  /** The third is the u32 probe's own answer. */
  const BLAMES := [ALIAS, ALIAS_MISSING, "", MODEL_INCOMPLETE, WRITEBACK_WRONG, FINAL_STORE, FINAL_STORE, WRITEBACK_WRONG, FINAL_READBACK, LAYOUT, LAYOUT,
                   OTHER_ROW, MODEL_INCOMPLETE, LOCAL_Y, LANE, DEVICE, LAYOUT_OPEN, LAYOUT_OPEN, REDUCTION]

  function BlameGrounds(a: Analyses): (g: seq<bool>)
    ensures |g| == 19
  {
    var copied, stored := a.boundary == "executor-writeback-mismatch", a.boundary == "native-final-store-mismatch";
    [a.aliased, a.aliasMissing, ProbeBlocker(a.explicit, a.report) != "",
     (a.storeModelRequired || copied || stored) && !a.storeModelValid, copied, stored,
     a.outputIndex == "final-store-value" && a.shaderCleared,
     a.nativeSplit == "executor-final-writeback", a.nativeSplit == "native-final-store-or-readback",
     (a.outputIndex == "fixed-offset" || a.outputIndex == "scatter") && a.storeModelValid,
     a.layout == "canonical-mismatch-found-elsewhere" && a.storeModelValid,
     a.provenance == "other-row-match" && a.storeModelValid, a.provenance == "other-row-match",
     a.partial == "local-y-partial", a.partial == "lane-partial",
     a.fixedOffsetRejected && a.shaderCleared && a.storeModelValid,
     (a.outputIndex == "elsewhere-outside-store-window" || a.outputIndex == "mixed-found-and-missing" || a.outputIndex == "inconclusive") && a.storeModelValid,
     a.layout == "canonical-mismatch-inconclusive" && a.storeModelValid,
     a.layout == "canonical-mismatch-not-found" && a.shaderCleared]
  }

  function Pick(g: seq<bool>, blocker: string, i: nat): string
    requires |g| == 19 && i <= 19
    decreases 19 - i
  {
    if i == 19 then UNEXPLAINED else if g[i] then (if i == 2 then blocker else BLAMES[i]) else Pick(g, blocker, i + 1)
  }

  lemma {:induction false} PickFirst(g: seq<bool>, blocker: string, k: nat, i: nat)
    requires |g| == 19 && k <= i && First(g, i)
    ensures Pick(g, blocker, k) == if i == 2 then blocker else BLAMES[i]
    decreases i - k
  {
    hide BLAMES, UNEXPLAINED;
    if k < i { PickFirst(g, blocker, k + 1, i); }
  }

  lemma {:induction false} PickNone(g: seq<bool>, blocker: string, k: nat)
    requires |g| == 19 && k <= 19 && NoGround(g)
    ensures Pick(g, blocker, k) == UNEXPLAINED
    decreases 19 - k
  {
    hide BLAMES, UNEXPLAINED;
    if k < 19 { PickNone(g, blocker, k + 1); }
  }

  lemma PickLate(g: seq<bool>, blocker: string)
    requires |g| == 19
    ensures Pick(g, blocker, 9) ==
      if g[9] || g[10] then LAYOUT else if g[11] then OTHER_ROW else if g[12] then MODEL_INCOMPLETE else if g[13] then LOCAL_Y else if g[14] then LANE
      else if g[15] then DEVICE else if g[16] || g[17] then LAYOUT_OPEN else if g[18] then REDUCTION else UNEXPLAINED
  {
    hide ALIAS, ALIAS_MISSING, MODEL_INCOMPLETE, WRITEBACK_WRONG, FINAL_STORE, FINAL_READBACK, LAYOUT, OTHER_ROW, LOCAL_Y, LANE, DEVICE, LAYOUT_OPEN, REDUCTION, UNEXPLAINED;
    var late := Pick(g, blocker, 15);
    var later := Pick(g, blocker, 17);
    var v := (Pick(g, blocker, 11), Pick(g, blocker, 13), Pick(g, blocker, 19));
  }

  lemma PickEarly(g: seq<bool>, blocker: string)
    requires |g| == 19
    ensures Pick(g, blocker, 0) ==
      if g[0] then ALIAS else if g[1] then ALIAS_MISSING else if g[2] then blocker else if g[3] then MODEL_INCOMPLETE else if g[4] then WRITEBACK_WRONG
      else if g[5] || g[6] then FINAL_STORE else if g[7] then WRITEBACK_WRONG else if g[8] then FINAL_READBACK else Pick(g, blocker, 9)
  {
    hide ALIAS, ALIAS_MISSING, MODEL_INCOMPLETE, WRITEBACK_WRONG, FINAL_STORE, FINAL_READBACK, LAYOUT, OTHER_ROW, LOCAL_Y, LANE, DEVICE, LAYOUT_OPEN, REDUCTION, UNEXPLAINED;
    var v := (Pick(g, blocker, 2), Pick(g, blocker, 4), Pick(g, blocker, 6), Pick(g, blocker, 8));
  }

  lemma LayoutPicks(a: Analyses)
    ensures SplitLayout(a) == Pick(BlameGrounds(a), ProbeBlocker(a.explicit, a.report), 9)
  {
    hide ProbeBlocker, Pick, BLAMES, LAYOUT, OTHER_ROW, LOCAL_Y, LANE, DEVICE, LAYOUT_OPEN, REDUCTION, UNEXPLAINED, MODEL_INCOMPLETE;
    PickLate(BlameGrounds(a), ProbeBlocker(a.explicit, a.report));
  }

  lemma SplitPicks(a: Analyses)
    ensures Split(a) == Pick(BlameGrounds(a), ProbeBlocker(a.explicit, a.report), 0)
  {
    hide SplitLayout, ProbeBlocker, Pick, BLAMES, ALIAS, ALIAS_MISSING, MODEL_INCOMPLETE, WRITEBACK_WRONG, FINAL_STORE, FINAL_READBACK, LAYOUT, OTHER_ROW, LOCAL_Y, LANE, DEVICE,
      LAYOUT_OPEN, REDUCTION, UNEXPLAINED;
    PickEarly(BlameGrounds(a), ProbeBlocker(a.explicit, a.report));
    LayoutPicks(a);
  }

  /** The first ground that holds is blamed; without one the mismatch stays
      unexplained. */
  lemma SplitFirst(a: Analyses, i: nat)
    ensures First(BlameGrounds(a), i) ==> Split(a) == if i == 2 then ProbeBlocker(a.explicit, a.report) else BLAMES[i]
    ensures NoGround(BlameGrounds(a)) ==> Split(a) == UNEXPLAINED
  {
    hide *;
    SplitPicks(a);
    if First(BlameGrounds(a), i) { PickFirst(BlameGrounds(a), ProbeBlocker(a.explicit, a.report), 0, i); }
    if NoGround(BlameGrounds(a)) { PickNone(BlameGrounds(a), ProbeBlocker(a.explicit, a.report), 0); }
  }

  // ---- what the u32 probe says ----

  ghost predicate Occurs(text: string, token: string) { exists i: nat :: OccursAt(text, token, i) }

  predicate OccursAt(text: string, token: string, i: nat) { i + |token| <= |text| && text[i..i + |token|] == token }

  ghost predicate Mentions(text: string, tokens: seq<string>) { exists t :: t in tokens && Occurs(text, t) }

  lemma OccursIff(text: string, token: string)
    ensures Contains(text, token) == Occurs(text, token)
  {
    if i: nat :| OccursAt(text, token, i) { assert StandsAt(text, token, i); }
    if Contains(text, token) {
      var i :| 0 <= i <= |text| - |token| && StandsAt(text, token, i);
      assert OccursAt(text, token, i);
    }
  }

  lemma MentionsIff(text: string, tokens: seq<string>)
    ensures ContainsAny(text, tokens) == Mentions(text, tokens)
  {
    hide Contains, Occurs;
    forall t: string ensures Contains(text, t) == Occurs(text, t) { OccursIff(text, t); }
  }

  lemma OneToken(text: string)
    ensures Contains(text, "writeback") <==> Mentions(text, ["writeback"])
  {
    hide Contains, Occurs;
    OccursIff(text, "writeback");
    assert "writeback" in ["writeback"];
  }

  /** A known explicit answer counts; else a bad report is explained by what its
      failures mention first, by its counts, or not at all. */
  lemma BlockerExact(explicit: string, report: ProbeReport)
    ensures var r, text := ProbeBlocker(explicit, report), report.failures;
      && (explicit in BLOCKERS ==> r == explicit)
      && (explicit !in BLOCKERS && (!report.present || report.fine) ==> r == "")
      && (explicit !in BLOCKERS && report.present && !report.fine ==>
            var role, back, trace := Mentions(text, CANDIDATE_OR_ROLE), Mentions(text, ["writeback"]), Mentions(text, NO_TRACE) || report.traces == 0;
            && (role ==> r == "q6-debug-u32-probe-metadata-mismatch")
            && (!role && back ==> r == "q6-debug-u32-writeback-mismatch")
            && (!role && !back && trace ==> r == "q6-debug-u32-final-store-trace-missing")
            && (!role && !back && !trace ==> r == if report.bindings == Some(0) then "q6-debug-u32-probe-missing" else "q6-debug-u32-probe-invalid"))
  {
    hide Contains, ContainsAny, Mentions, BLOCKERS, CANDIDATE_OR_ROLE, NO_TRACE;
    MentionsIff(report.failures, CANDIDATE_OR_ROLE);
    MentionsIff(report.failures, NO_TRACE);
    OneToken(report.failures);
  }
}
