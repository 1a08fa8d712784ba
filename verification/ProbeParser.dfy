/** The reader of the probe buffer: fixed records, the lane trace and whatever
    else is not zero. */
module ProbeParser {
  import opened Words

  // ---- the layout the reader expects ----

  const HEADER_BASE := 128
  const LANE_COUNT := 32
  const WORDS_PER_LANE := 8
  const PRE_BASE := 144
  const REDUCTION_BASE := 400
  const LAST_SLOT := 656
  const RECORDS := 10

  datatype Expected = Expected(slotBase: nat, candidate: nat, roleCode: nat, final: bool)

  function ExpectedRecords(): (r: seq<Expected>)
    ensures |r| == RECORDS
  {
    [Expected(8, 39, 1, false), Expected(20, 49, 2, false), Expected(32, 61, 3, false), Expected(44, 63, 3, false), Expected(56, 64, 4, true),
     Expected(68, 105, 1, false), Expected(80, 115, 2, false), Expected(92, 127, 3, false), Expected(104, 129, 3, false), Expected(116, 130, 4, true)]
  }

  /** Base slot and candidate of the two lane regions. */
  function PhaseBase(phase: nat): nat { if phase == 0 then PRE_BASE else REDUCTION_BASE }

  function PhaseCandidate(phase: nat): nat { if phase == 0 then 105 else 115 }

  // ---- samples ----

  /** One item of a sample list; fields that are not integers are missing. */
  datatype Sample = Other | Item(index: Option<int>, value: Option<int>)

  type Sampled = map<int, Option<int>>

  function SamplesMap(samples: seq<Sample>): Sampled {
    if samples == [] then map[]
    else
      var before, s := SamplesMap(samples[..|samples| - 1]), samples[|samples| - 1];
      if s.Item? && s.index.Some? then before[s.index.value := s.value] else before
  }

  /** `None` where the artifact has no list. */
  function MapOf(samples: Option<seq<Sample>>): Sampled {
    match samples case None => map[] case Some(s) => SamplesMap(s)
  }

  method U32SamplesToMap(samples: Option<seq<Sample>>) returns (result: Sampled)
    ensures result == MapOf(samples)
  {
    result := map[];
    if samples.None? { return; }
    var items := samples.value;
    for i := 0 to |items|
      invariant result == SamplesMap(items[..i])
    {
      assert items[..i + 1][..i] == items[..i];
      match items[i] {
        case Item(Some(index), value) => result := result[index := value];
        case _ =>
      }
    }
    assert items[..|items|] == items;
  }

  function At(d: Sampled, k: int): Option<int> { if k in d then d[k] else None }

  predicate Blank(v: Option<int>) { v.None? || v.value == 0 }

  // ---- fixed records ----

  datatype Status = NotExecuted | Passed | Failed
  datatype TraceStatus = NotApplicable | TraceNotExecuted | TracePassed | TraceFailed

  datatype Failure =
    | CandidateMismatch(probe: nat, got: Option<int>)
    | RoleMismatch(probe: nat, got: Option<int>)
    | TraceMissing(probe: nat)
    | WritebackMismatch(probe: nat)
    | LaneMismatch(phase: nat, lane: nat, localX: bool, candidate: bool)
    | LaneHeader

  datatype Record = Record(status: Status, trace: TraceStatus)

  predicate Unexecuted(d: Sampled, base: nat) {
    Blank(At(d, base)) && Blank(At(d, base + 1)) && Blank(At(d, base + 2))
  }

  /** Output index, workgroup id and local id are there. */
  predicate PlaceKnown(d: Sampled, base: nat) {
    forall k | base + 3 <= k < base + 10 :: At(d, k).Some?
  }

  function RecordOf(d: Sampled, e: Expected): Record {
    var un := Unexecuted(d, e.slotBase);
    Record(
      if un then NotExecuted
      else if At(d, e.slotBase) != Some(e.candidate) || At(d, e.slotBase + 1) != Some(e.roleCode) then Failed
      else Passed,
      if !e.final then NotApplicable
      else if un then TraceNotExecuted
      else if At(d, e.slotBase + 10) == Some(2) && PlaceKnown(d, e.slotBase) then TracePassed
      else TraceFailed)
  }

  function RecordFailures(d: Sampled, writeback: Sampled, probe: nat, e: Expected): seq<Failure> {
    var un := Unexecuted(d, e.slotBase);
    (if !un && At(d, e.slotBase) != Some(e.candidate) then [CandidateMismatch(probe, At(d, e.slotBase))] else [])
    + (if !un && At(d, e.slotBase + 1) != Some(e.roleCode) then [RoleMismatch(probe, At(d, e.slotBase + 1))] else [])
    + (if RecordOf(d, e).trace == TraceFailed then [TraceMissing(probe)] else [])
    + (if writeback != map[] && !un
          && !(At(writeback, e.slotBase) == Some(e.candidate) && At(writeback, e.slotBase + 1) == Some(e.roleCode))
       then [WritebackMismatch(probe)] else [])
  }

  function AllRecordFailures(d: Sampled, writeback: Sampled, n: nat): seq<Failure>
    requires n <= RECORDS
  {
    if n == 0 then [] else AllRecordFailures(d, writeback, n - 1) + RecordFailures(d, writeback, n - 1, ExpectedRecords()[n - 1])
  }

  // ---- the lane trace ----

  predicate HeaderValid(d: Sampled) {
    && At(d, HEADER_BASE) == Some(1) && At(d, HEADER_BASE + 1) == Some(LANE_COUNT) && At(d, HEADER_BASE + 2) == Some(WORDS_PER_LANE)
    && At(d, HEADER_BASE + 3) == Some(PRE_BASE) && At(d, HEADER_BASE + 4) == Some(REDUCTION_BASE)
  }

  predicate HeaderPresent(d: Sampled) {
    exists k | HEADER_BASE <= k < HEADER_BASE + 5 :: !Blank(At(d, k))
  }

  function LaneSlot(phase: nat, lane: nat): nat { PhaseBase(phase) + lane * WORDS_PER_LANE }

  predicate LaneUnexecuted(d: Sampled, phase: nat, lane: nat) {
    var base := LaneSlot(phase, lane);
    Blank(At(d, base)) && Blank(At(d, base + 1)) && Blank(At(d, base + 5))
  }

  predicate LaneXWrong(d: Sampled, phase: nat, lane: nat) {
    !LaneUnexecuted(d, phase, lane) && At(d, LaneSlot(phase, lane)) != Some(lane)
  }

  predicate LaneCandidateWrong(d: Sampled, phase: nat, lane: nat) {
    !LaneUnexecuted(d, phase, lane) && At(d, LaneSlot(phase, lane) + 5) != Some(PhaseCandidate(phase))
  }

  /** What the first `n` lanes of a phase report. */
  datatype Lanes = Lanes(observed: nat, executed: nat, failures: seq<Failure>)

  function LanesOf(d: Sampled, phase: nat, n: nat): Lanes {
    if n == 0 then Lanes(0, 0, [])
    else
      var before, lane := LanesOf(d, phase, n - 1), n - 1;
      var x, c := LaneXWrong(d, phase, lane), LaneCandidateWrong(d, phase, lane);
      if LaneUnexecuted(d, phase, lane) then before
      else Lanes(before.observed + 1, before.executed + (if x || c then 0 else 1),
                 before.failures + if x || c then [LaneMismatch(phase, lane, x, c)] else [])
  }

  datatype Summary = NotRun | Pass | Fail

  datatype LaneReport = LaneReport(summary: Summary, pre: Lanes, reduction: Lanes, failures: seq<Failure>)

  function LaneReportOf(d: Sampled): LaneReport {
    var pre, red := LanesOf(d, 0, LANE_COUNT), LanesOf(d, 1, LANE_COUNT);
    if !HeaderValid(d) && !HeaderPresent(d) && pre.observed == 0 && red.observed == 0 then LaneReport(NotRun, pre, red, [])
    else
      var failures := pre.failures + red.failures + if HeaderValid(d) then [] else [LaneHeader];
      LaneReport(if failures == [] then Pass else Fail, pre, red, failures)
  }

  method ParsePhase(d: Sampled, phase: nat) returns (r: Lanes)
    ensures r == LanesOf(d, phase, LANE_COUNT)
  {
    var observed, executed: nat := 0, 0;
    var failures: seq<Failure> := [];
    for lane := 0 to LANE_COUNT
      invariant Lanes(observed, executed, failures) == LanesOf(d, phase, lane)
    {
      var base := PhaseBase(phase) + lane * WORDS_PER_LANE;
      var localX, valueBits, candidate := At(d, base), At(d, base + 1), At(d, base + 5);
      var unexecuted := Blank(localX) && Blank(valueBits) && Blank(candidate);
      if !unexecuted {
        observed := observed + 1;
        var x, c := localX != Some(lane), candidate != Some(PhaseCandidate(phase));
        if x || c { failures := failures + [LaneMismatch(phase, lane, x, c)]; }
        else { executed := executed + 1; }
      }
    }
    r := Lanes(observed, executed, failures);
  }

  method ParseLaneTrace(d: Sampled) returns (r: LaneReport)
    ensures r == LaneReportOf(d)
  {
    var valid := HeaderValid(d);
    var present := HeaderPresent(d);
    var pre := ParsePhase(d, 0);
    var reduction := ParsePhase(d, 1);
    if !valid && !present && pre.observed == 0 && reduction.observed == 0 {
      return LaneReport(NotRun, pre, reduction, []);
    }
    var failures := pre.failures + reduction.failures;
    if !valid { failures := failures + [LaneHeader]; }
    r := LaneReport(if failures == [] then Pass else Fail, pre, reduction, failures);
    assert pre.failures + reduction.failures + [] == pre.failures + reduction.failures;
  }

  // ---- the whole binding ----

  predicate ExpectedSlot(index: int) {
    || 0 <= index < 8
    || (exists i | 0 <= i < RECORDS :: ExpectedRecords()[i].slotBase <= index < ExpectedRecords()[i].slotBase + 11)
    || HEADER_BASE <= index < HEADER_BASE + 5
    || PRE_BASE <= index < LAST_SLOT
  }

  function UnexpectedNonzero(d: Sampled): set<int> {
    set index | index in d && !ExpectedSlot(index) && d[index].Some? && d[index].value != 0
  }

  datatype Report = Report(records: seq<Record>, lanes: LaneReport, unexpected: set<int>, failures: seq<Failure>,
                           executed: nat, executedFinal: nat, executedFinalTrace: nat, pass: bool)

  function Records(d: Sampled): (r: seq<Record>)
    ensures |r| == RECORDS
  {
    seq(RECORDS, i requires 0 <= i < RECORDS => RecordOf(d, ExpectedRecords()[i]))
  }

  /** How many records passed, how many of them are final stores, and how many of
      those are traced. */
  datatype Tally = Tally(executed: nat, final: nat, traced: nat)

  predicate FinalTraced(r: Record, e: Expected) { r.status == Passed && e.final && r.trace == TracePassed }

  function TallyOf(rs: seq<Record>, n: nat): Tally
    requires n <= RECORDS == |rs|
  {
    if n == 0 then Tally(0, 0, 0)
    else
      var t, r, e := TallyOf(rs, n - 1), rs[n - 1], ExpectedRecords()[n - 1];
      Tally(t.executed + (if r.status == Passed then 1 else 0),
            t.final + (if r.status == Passed && e.final then 1 else 0),
            t.traced + (if FinalTraced(r, e) then 1 else 0))
  }

  function ReportOf(d: Sampled, writeback: Sampled): Report {
    var rs, lanes := Records(d), LaneReportOf(d);
    var failures := AllRecordFailures(d, writeback, RECORDS) + if lanes.summary == Fail then lanes.failures else [];
    Report(rs, lanes, UnexpectedNonzero(d), failures,
           TallyOf(rs, RECORDS).executed, TallyOf(rs, RECORDS).final, TallyOf(rs, RECORDS).traced,
           failures == [] && exists i | 0 <= i < RECORDS :: FinalTraced(rs[i], ExpectedRecords()[i]))
  }

  /** One fixed record: its status and what it adds to the failures. */
  method ParseRecord(d: Sampled, writeback: Sampled, probe: nat, e: Expected) returns (r: Record, failures: seq<Failure>)
    ensures r == RecordOf(d, e) && failures == RecordFailures(d, writeback, probe, e)
  {
    var base := e.slotBase;
    var candidate, role, value := At(d, base), At(d, base + 1), At(d, base + 2);
    var unexecuted := Blank(candidate) && Blank(role) && Blank(value);
    var status := if unexecuted then NotExecuted else Passed;
    failures := [];
    if !unexecuted && candidate != Some(e.candidate) {
      status := Failed;
      failures := failures + [CandidateMismatch(probe, candidate)];
    }
    if !unexecuted && role != Some(e.roleCode) {
      status := Failed;
      failures := failures + [RoleMismatch(probe, role)];
    }
    var trace := NotApplicable;
    if e.final {
      if unexecuted { trace := TraceNotExecuted; }
      else if At(d, base + 10) == Some(2) && PlaceKnown(d, base) { trace := TracePassed; }
      else {
        trace := TraceFailed;
        failures := failures + [TraceMissing(probe)];
      }
    }
    if writeback != map[] {
      var matches := At(writeback, base) == Some(e.candidate) && At(writeback, base + 1) == Some(e.roleCode);
      if !unexecuted && !matches { failures := failures + [WritebackMismatch(probe)]; }
    }
    r := Record(status, trace);
  }

  lemma {:induction false} TracedSome(rs: seq<Record>, n: nat)
    requires n <= RECORDS == |rs|
    ensures TallyOf(rs, n).traced > 0 <==> exists i | 0 <= i < n :: FinalTraced(rs[i], ExpectedRecords()[i])
  {
    if n > 0 { TracedSome(rs, n - 1); }
  }

  method ParseBinding(after: Option<seq<Sample>>, written: Option<seq<Sample>>) returns (r: Report)
    ensures r == ReportOf(MapOf(after), MapOf(written))
  {
    hide RecordOf, RecordFailures, ExpectedRecords, UnexpectedNonzero, LaneReportOf, SamplesMap;
    var dispatch := U32SamplesToMap(after);
    var writeback := U32SamplesToMap(written);
    var records: seq<Record>, failures: seq<Failure> := [], [];
    var executed, executedFinal, traced: nat := 0, 0, 0;
    var expected := ExpectedRecords();
    ghost var rs := Records(dispatch);
    for i := 0 to RECORDS
      invariant |records| == i && forall k :: 0 <= k < i ==> records[k] == rs[k]
      invariant failures == AllRecordFailures(dispatch, writeback, i)
      invariant Tally(executed, executedFinal, traced) == TallyOf(rs, i)
    {
      var record, more := ParseRecord(dispatch, writeback, i, expected[i]);
      records := records + [record];
      failures := failures + more;
      if record.status == Passed {
        executed := executed + 1;
        if expected[i].final {
          executedFinal := executedFinal + 1;
          if record.trace == TracePassed { traced := traced + 1; }
        }
      }
    }
    var unexpected := UnexpectedNonzero(dispatch);
    var lanes := ParseLaneTrace(dispatch);
    failures := failures + if lanes.summary == Fail then lanes.failures else [];
    assert records == rs;
    TracedSome(rs, RECORDS);
    r := Report(records, lanes, unexpected, failures, executed, executedFinal, traced, failures == [] && traced > 0);
  }
}
