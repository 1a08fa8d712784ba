/** What the reader's report says of any buffer, good or bad, slot by slot. */
module ProbeVerdict {
  import opened ProbeParser
  import opened Words

  // ---- the slots ----

  const CANDIDATES := [39, 49, 61, 63, 64, 105, 115, 127, 129, 130]

  /** Ten records of twelve slots; the fifth and the tenth are final stores. */
  function RecordSlot(i: nat, offset: nat): nat { 8 + 12 * i + offset }

  function RoleOf(i: nat): nat
    requires i < 10
  {
    if i % 5 == 0 then 1 else if i % 5 == 1 then 2 else if i % 5 == 4 then 4 else 3
  }

  predicate Final(i: nat) { i % 5 == 4 }

  /** The three identity slots are blank: the store was not executed. */
  predicate Silent(d: Sampled, i: nat) {
    Blank(At(d, RecordSlot(i, 0))) && Blank(At(d, RecordSlot(i, 1))) && Blank(At(d, RecordSlot(i, 2)))
  }

  predicate CandidateRight(d: Sampled, i: nat)
    requires i < 10
  {
    At(d, RecordSlot(i, 0)) == Some(CANDIDATES[i])
  }

  predicate RoleRight(d: Sampled, i: nat)
    requires i < 10
  {
    At(d, RecordSlot(i, 1)) == Some(RoleOf(i))
  }

  /** Schema 2, and numbers for index, workgroup and invocation. */
  predicate Placed(d: Sampled, i: nat) {
    At(d, RecordSlot(i, 10)) == Some(2) && forall o :: 3 <= o < 10 ==> At(d, RecordSlot(i, o)).Some?
  }

  /** Two regions of 32 lanes, eight slots each. */
  function LaneAt(phase: nat, lane: nat, offset: nat): nat { 144 + 256 * phase + 8 * lane + offset }

  predicate LaneSilent(d: Sampled, phase: nat, lane: nat) {
    Blank(At(d, LaneAt(phase, lane, 0))) && Blank(At(d, LaneAt(phase, lane, 1))) && Blank(At(d, LaneAt(phase, lane, 5)))
  }

  predicate LaneNumbered(d: Sampled, phase: nat, lane: nat) { At(d, LaneAt(phase, lane, 0)) == Some(lane) }

  predicate LaneCandidate(d: Sampled, phase: nat, lane: nat) { At(d, LaneAt(phase, lane, 5)) == Some(if phase == 0 then 105 else 115) }

  predicate HeaderRight(d: Sampled) {
    At(d, 128) == Some(1) && At(d, 129) == Some(32) && At(d, 130) == Some(8) && At(d, 131) == Some(144) && At(d, 132) == Some(400)
  }

  /** Nothing of the trace was written. */
  predicate TraceSilent(d: Sampled) {
    && (forall k :: 128 <= k < 133 ==> Blank(At(d, k)))
    && forall phase: nat, lane: nat :: phase < 2 && lane < 32 ==> LaneSilent(d, phase, lane)
  }

  // ---- which failures are listed ----

  ghost predicate RecordFails(d: Sampled, writeback: Sampled, f: Failure) {
    match f
    case CandidateMismatch(i, got) => i < 10 && !Silent(d, i) && !CandidateRight(d, i) && got == At(d, RecordSlot(i, 0))
    case RoleMismatch(i, got) => i < 10 && !Silent(d, i) && !RoleRight(d, i) && got == At(d, RecordSlot(i, 1))
    case TraceMissing(i) => i < 10 && Final(i) && !Silent(d, i) && !Placed(d, i)
    case WritebackMismatch(i) => i < 10 && writeback != map[] && !Silent(d, i) && !(CandidateRight(writeback, i) && RoleRight(writeback, i))
    case _ => false
  }

  ghost predicate TraceFails(d: Sampled, f: Failure) {
    match f
    case LaneMismatch(phase, lane, x, c) =>
      && phase < 2 && lane < 32 && !LaneSilent(d, phase, lane)
      && x == !LaneNumbered(d, phase, lane) && c == !LaneCandidate(d, phase, lane) && (x || c)
    case LaneHeader => !HeaderRight(d) && !TraceSilent(d)
    case _ => false
  }

  lemma TableIs(i: nat)
    requires i < 10
    ensures ExpectedRecords()[i] == Expected(RecordSlot(i, 0), CANDIDATES[i], RoleOf(i), Final(i))
  {}

  lemma RecordFailuresAre(d: Sampled, writeback: Sampled, i: nat, f: Failure)
    requires i < 10
    ensures f in RecordFailures(d, writeback, i, ExpectedRecords()[i]) <==>
      RecordFails(d, writeback, f) && f.probe == i
  {
    hide ExpectedRecords, CANDIDATES;
    TableIs(i);
    PlacedIff(d, i);
  }

  lemma PlacedIff(d: Sampled, i: nat)
    ensures Placed(d, i) <==> At(d, RecordSlot(i, 10)) == Some(2) && PlaceKnown(d, RecordSlot(i, 0))
  {
    var base := RecordSlot(i, 0);
    if Placed(d, i) {
      forall k | base + 3 <= k < base + 10 ensures At(d, k).Some? { assert RecordSlot(i, k - base) == k; }
    }
    if PlaceKnown(d, base) {
      forall o | 3 <= o < 10 ensures At(d, RecordSlot(i, o)).Some? { assert RecordSlot(i, o) == base + o; }
    }
  }

  lemma {:induction false} AllFailuresAre(d: Sampled, writeback: Sampled, n: nat, f: Failure)
    requires n <= RECORDS
    ensures f in AllRecordFailures(d, writeback, n) <==> RecordFails(d, writeback, f) && f.probe < n
  {
    hide RecordFailures, ExpectedRecords;
    if n > 0 {
      AllFailuresAre(d, writeback, n - 1, f);
      RecordFailuresAre(d, writeback, n - 1, f);
    }
  }

  /** What one lane adds. */
  ghost predicate LaneFails(d: Sampled, phase: nat, n: nat, f: Failure) {
    && f.LaneMismatch? && f.phase == phase && f.lane < n && !LaneSilent(d, phase, f.lane)
    && f.localX == !LaneNumbered(d, phase, f.lane) && f.candidate == !LaneCandidate(d, phase, f.lane) && (f.localX || f.candidate)
  }

  lemma LaneSame(d: Sampled, phase: nat, lane: nat)
    requires phase < 2
    ensures LaneUnexecuted(d, phase, lane) == LaneSilent(d, phase, lane)
    ensures LaneXWrong(d, phase, lane) <==> !LaneSilent(d, phase, lane) && !LaneNumbered(d, phase, lane)
    ensures LaneCandidateWrong(d, phase, lane) <==> !LaneSilent(d, phase, lane) && !LaneCandidate(d, phase, lane)
  {
    assert PhaseBase(phase) == 144 + 256 * phase && PhaseCandidate(phase) == if phase == 0 then 105 else 115;
  }

  lemma {:induction false} LanesAre(d: Sampled, phase: nat, n: nat, f: Failure)
    requires phase < 2
    ensures f in LanesOf(d, phase, n).failures <==> LaneFails(d, phase, n, f)
    ensures LanesOf(d, phase, n).observed == 0 <==> forall lane: nat :: lane < n ==> LaneSilent(d, phase, lane)
  {
    hide LaneUnexecuted, LaneXWrong, LaneCandidateWrong, LaneSilent, LaneNumbered, LaneCandidate;
    if n > 0 {
      LanesAre(d, phase, n - 1, f);
      LaneSame(d, phase, n - 1);
    }
  }

  lemma HeaderSame(d: Sampled)
    ensures HeaderValid(d) == HeaderRight(d) && (HeaderPresent(d) <==> !(forall k :: 128 <= k < 133 ==> Blank(At(d, k))))
  {}

  lemma HeaderSpeaks(d: Sampled)
    ensures HeaderRight(d) ==> !TraceSilent(d)
  {
    if HeaderRight(d) { assert !Blank(At(d, 128)); }
  }

  lemma TraceAre(d: Sampled, f: Failure)
    ensures var r := LaneReportOf(d);
      && (r.summary == NotRun <==> TraceSilent(d))
      && (r.summary == Fail <==> !TraceSilent(d) && r.failures != [])
      && (f in r.failures <==> TraceFails(d, f))
  {
    hide LanesOf, HeaderValid, HeaderPresent, HeaderRight, LaneSilent, LaneNumbered, LaneCandidate;
    LanesAre(d, 0, LANE_COUNT, f);
    LanesAre(d, 1, LANE_COUNT, f);
    HeaderSame(d);
    HeaderSpeaks(d);
    if TraceSilent(d) {
      assert forall lane: nat :: lane < 32 ==> LaneSilent(d, 0, lane) && LaneSilent(d, 1, lane);
    }
  }

  /** Exactly these failures are listed, for any buffer and any writeback. */
  lemma FailuresAre(d: Sampled, writeback: Sampled, f: Failure)
    ensures f in ReportOf(d, writeback).failures <==> RecordFails(d, writeback, f) || TraceFails(d, f)
  {
    hide RecordFails, TraceFails, LaneReportOf, AllRecordFailures, TallyOf, Records;
    AllFailuresAre(d, writeback, RECORDS, f);
    FailsBelow(d, writeback, f);
    TraceAre(d, f);
    if TraceSilent(d) { SilentFails(d, f); }
  }

  lemma FailsBelow(d: Sampled, writeback: Sampled, f: Failure)
    ensures RecordFails(d, writeback, f) ==> !f.LaneMismatch? && !f.LaneHeader? && f.probe < RECORDS
  {}

  lemma SilentFails(d: Sampled, f: Failure)
    requires TraceSilent(d)
    ensures !TraceFails(d, f)
  {}

  // ---- no failure ----

  /** The record is blank, or it is the right one, complete, and written back. */
  ghost predicate RecordGood(d: Sampled, writeback: Sampled, i: nat)
    requires i < 10
  {
    || Silent(d, i)
    || (CandidateRight(d, i) && RoleRight(d, i) && (Final(i) ==> Placed(d, i))
        && (writeback != map[] ==> CandidateRight(writeback, i) && RoleRight(writeback, i)))
  }

  ghost predicate LaneGood(d: Sampled, phase: nat, lane: nat) {
    LaneSilent(d, phase, lane) || (LaneNumbered(d, phase, lane) && LaneCandidate(d, phase, lane))
  }

  ghost predicate Clean(d: Sampled, writeback: Sampled) {
    && (forall i: nat :: i < 10 ==> RecordGood(d, writeback, i))
    && (forall phase: nat, lane: nat :: phase < 2 && lane < 32 ==> LaneGood(d, phase, lane))
    && (HeaderRight(d) || TraceSilent(d))
  }

  lemma GoodIff(d: Sampled, writeback: Sampled, i: nat)
    requires i < 10
    ensures RecordGood(d, writeback, i) <==>
      && !RecordFails(d, writeback, CandidateMismatch(i, At(d, RecordSlot(i, 0)))) && !RecordFails(d, writeback, RoleMismatch(i, At(d, RecordSlot(i, 1))))
      && !RecordFails(d, writeback, TraceMissing(i)) && !RecordFails(d, writeback, WritebackMismatch(i))
  {
    hide Silent, Placed, CandidateRight, RoleRight;
  }

  lemma LaneGoodIff(d: Sampled, phase: nat, lane: nat)
    requires phase < 2 && lane < 32
    ensures LaneGood(d, phase, lane) <==>
      !TraceFails(d, LaneMismatch(phase, lane, !LaneNumbered(d, phase, lane), !LaneCandidate(d, phase, lane)))
  {}

  lemma FailsNotGood(d: Sampled, writeback: Sampled, f: Failure)
    requires RecordFails(d, writeback, f)
    ensures !Clean(d, writeback)
  {
    hide Silent, Placed, CandidateRight, RoleRight, LaneGood, HeaderRight, TraceSilent;
    assert f.probe < 10 && !RecordGood(d, writeback, f.probe);
  }

  lemma TraceNotGood(d: Sampled, writeback: Sampled, f: Failure)
    requires TraceFails(d, f)
    ensures !Clean(d, writeback)
  {
    hide RecordGood, HeaderRight, TraceSilent, LaneSilent, LaneNumbered, LaneCandidate;
    if f.LaneMismatch? { assert f.phase < 2 && f.lane < 32 && !LaneGood(d, f.phase, f.lane); }
  }

  /** The report has no failure exactly if every record, every lane and the header
      are blank or right. */
  lemma NoFailureIff(d: Sampled, writeback: Sampled)
    ensures ReportOf(d, writeback).failures == [] <==> Clean(d, writeback)
  {
    hide RecordFails, TraceFails, ReportOf, RecordGood, LaneGood, HeaderRight, TraceSilent;
    var failures := ReportOf(d, writeback).failures;
    if failures == [] {
      forall f: Failure ensures !RecordFails(d, writeback, f) && !TraceFails(d, f) { FailuresAre(d, writeback, f); }
      forall i: nat | i < 10 ensures RecordGood(d, writeback, i) { GoodIff(d, writeback, i); }
      forall phase: nat, lane: nat | phase < 2 && lane < 32 ensures LaneGood(d, phase, lane) { LaneGoodIff(d, phase, lane); }
      HeaderIff(d);
    } else {
      FailuresAre(d, writeback, failures[0]);
      if RecordFails(d, writeback, failures[0]) { FailsNotGood(d, writeback, failures[0]); }
      else { TraceNotGood(d, writeback, failures[0]); }
    }
  }

  lemma HeaderIff(d: Sampled)
    ensures TraceFails(d, LaneHeader) <==> !(HeaderRight(d) || TraceSilent(d))
  {}

  // ---- the verdict of each record, and of the whole ----

  lemma StatusIs(d: Sampled, writeback: Sampled, i: nat)
    requires i < 10
    ensures var r := ReportOf(d, writeback).records[i];
      && r.status == (if Silent(d, i) then NotExecuted else if CandidateRight(d, i) && RoleRight(d, i) then Passed else Failed)
      && r.trace == (if !Final(i) then NotApplicable else if Silent(d, i) then TraceNotExecuted else if Placed(d, i) then TracePassed else TraceFailed)
  {
    hide ExpectedRecords, AllRecordFailures, LaneReportOf, TallyOf, UnexpectedNonzero, CANDIDATES;
    TableIs(i);
    PlacedIff(d, i);
  }

  /** The report passes exactly if it is clean and a final store was executed. */
  lemma PassIff(d: Sampled, writeback: Sampled)
    ensures ReportOf(d, writeback).pass <==> Clean(d, writeback) && (!Silent(d, 4) || !Silent(d, 9))
  {
    hide ExpectedRecords, AllRecordFailures, LaneReportOf, TallyOf, UnexpectedNonzero, CANDIDATES, RecordOf, Silent, Placed, CandidateRight, RoleRight, LaneGood, HeaderRight, TraceSilent;
    NoFailureIff(d, writeback);
    var r := ReportOf(d, writeback);
    forall i: nat | i < 10
      ensures FinalTraced(r.records[i], ExpectedRecords()[i]) <==> Final(i) && !Silent(d, i) && CandidateRight(d, i) && RoleRight(d, i) && Placed(d, i)
    {
      StatusIs(d, writeback, i);
      TableIs(i);
    }
    if Clean(d, writeback) {
      assert RecordGood(d, writeback, 4) && RecordGood(d, writeback, 9);
    }
    assert Final(4) && Final(9) && forall i: nat :: i < 10 && Final(i) ==> i == 4 || i == 9;
  }

  // ---- the counts and the rest of the buffer ----

  /** The records below `n` that passed; finals, if asked; traced, if asked. */
  function PassedBelow(d: Sampled, n: nat, finals: bool, placed: bool): set<nat> {
    set i: nat | i < n && i < 10 && !Silent(d, i) && CandidateRight(d, i) && RoleRight(d, i) && (finals ==> Final(i)) && (placed ==> Placed(d, i))
  }

  lemma {:induction false} TallyCounts(d: Sampled, n: nat)
    requires n <= RECORDS
    ensures var t := TallyOf(Records(d), n);
      t.executed == |PassedBelow(d, n, false, false)| && t.final == |PassedBelow(d, n, true, false)| && t.traced == |PassedBelow(d, n, true, true)|
  {
    hide ExpectedRecords, CANDIDATES, RecordOf, Silent, Placed, CandidateRight, RoleRight;
    if n > 0 {
      TallyCounts(d, n - 1);
      RecordIs(d, n - 1);
      TableIs(n - 1);
      PassedNext(d, n - 1, false, false);
      PassedNext(d, n - 1, true, false);
      PassedNext(d, n - 1, true, true);
    }
  }

  lemma RecordIs(d: Sampled, i: nat)
    requires i < 10
    ensures var r := Records(d)[i];
      && (r.status == Passed <==> !Silent(d, i) && CandidateRight(d, i) && RoleRight(d, i))
      && (r.trace == TracePassed <==> Final(i) && !Silent(d, i) && Placed(d, i))
  {
    hide AllRecordFailures, LaneReportOf, TallyOf, UnexpectedNonzero, RecordOf, ExpectedRecords, CANDIDATES;
    StatusIs(d, map[], i);
  }

  lemma PassedNext(d: Sampled, n: nat, finals: bool, placed: bool)
    requires n < 10
    ensures |PassedBelow(d, n + 1, finals, placed)| == |PassedBelow(d, n, finals, placed)|
      + if !Silent(d, n) && CandidateRight(d, n) && RoleRight(d, n) && (finals ==> Final(n)) && (placed ==> Placed(d, n)) then 1 else 0
  {
    hide Silent, Placed, CandidateRight, RoleRight, Final;
    var here := !Silent(d, n) && CandidateRight(d, n) && RoleRight(d, n) && (finals ==> Final(n)) && (placed ==> Placed(d, n));
    assert PassedBelow(d, n + 1, finals, placed) == PassedBelow(d, n, finals, placed) + if here then {n} else {};
  }

  /** The counts are those of the passed records, and every other slot with a
      number in it is listed. */
  lemma CountsAre(d: Sampled, writeback: Sampled, slot: int)
    ensures var r := ReportOf(d, writeback);
      && r.executed == |PassedBelow(d, 10, false, false)| && r.executedFinal == |PassedBelow(d, 10, true, false)|
      && r.executedFinalTrace == |PassedBelow(d, 10, true, true)|
      && (slot in r.unexpected <==> !Blank(At(d, slot)) && !Known(slot))
  {
    hide AllRecordFailures, LaneReportOf, TallyOf, Records, PassedBelow;
    TallyCounts(d, 10);
    KnownSame(slot);
  }

  /** The slots in front of the records, the records, the trace's header and lanes. */
  predicate Known(slot: int) {
    || 0 <= slot < 8 || 128 <= slot < 133 || 144 <= slot < 656
    || exists i: nat :: i < 10 && RecordSlot(i, 0) <= slot < RecordSlot(i, 11)
  }

  lemma KnownSame(slot: int)
    ensures ExpectedSlot(slot) == Known(slot)
  {
    hide ExpectedRecords, CANDIDATES;
    forall i: nat | i < 10 ensures ExpectedRecords()[i].slotBase == RecordSlot(i, 0) && RecordSlot(i, 11) == RecordSlot(i, 0) + 11 { TableIs(i); }
  }

  // ---- samples ----

  predicate Names(s: Sample, index: int) { s.Item? && s.index == Some(index) }

  /** The last sample with an index counts. */
  lemma {:induction false} LastSample(samples: seq<Sample>, index: int, k: nat)
    ensures index in SamplesMap(samples) <==> exists j :: 0 <= j < |samples| && Names(samples[j], index)
    ensures k < |samples| && Names(samples[k], index) && (forall j :: k < j < |samples| ==> !Names(samples[j], index)) ==>
      index in SamplesMap(samples) && SamplesMap(samples)[index] == samples[k].value
  {
    if samples != [] {
      var n := |samples| - 1;
      LastSample(samples[..n], index, k);
      assert forall j :: 0 <= j < n ==> samples[..n][j] == samples[j];
    }
  }
}
