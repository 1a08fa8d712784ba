/** Writer meets reader: whatever the interleaving, the reader finds nothing to
    complain about in a probe buffer that whole blocks have written. */
module ProbeProtocol {
  import opened Words
  import opened Machine
  import opened Instrumenter
  import opened ProbeBlocks
  import P = ProbeParser

  // ---- the buffer after the dispatch ----

  /** The last word written to a slot of a buffer that was zero. */
  ghost function Cell(bits: Val -> nat, log: seq<Write>, slot: nat): nat {
    if log == [] then 0
    else if log[|log| - 1].slot == slot then bits(log[|log| - 1].value)
    else Cell(bits, log[..|log| - 1], slot)
  }

  /** A sample of the first `size` words. */
  ghost function Readback(bits: Val -> nat, log: seq<Write>, size: nat): P.Sampled {
    map k | 0 <= k < size :: Some(Cell(bits, log, k))
  }

  predicate Written(log: seq<Write>, slot: nat) {
    exists n | 0 <= n < |log| :: log[n].slot == slot
  }

  lemma {:induction false} CellIs(bits: Val -> nat, log: seq<Write>, slot: nat, v: nat)
    requires forall x :: x in log && x.slot == slot ==> bits(x.value) == v
    ensures Written(log, slot) ==> Cell(bits, log, slot) == v
    ensures !Written(log, slot) ==> Cell(bits, log, slot) == 0
  {
    if log != [] {
      var front, last := log[..|log| - 1], log[|log| - 1];
      assert last in log;
      assert forall x :: x in front ==> x in log;
      if last.slot != slot {
        CellIs(bits, front, slot, v);
        if Written(log, slot) {
          var n :| 0 <= n < |log| && log[n].slot == slot;
          assert front[n] == log[n];
        }
        if Written(front, slot) {
          var n :| 0 <= n < |front| && front[n].slot == slot;
          assert log[n] == front[n];
        }
      } else {
        assert log[|log| - 1].slot == slot;
      }
    }
  }

  // ---- passes through blocks ----

  /** One invocation's pass through the block of one target, with the values it
      found there. */
  datatype Pass = Pass(target: nat, inv: nat, value: Val, place: Val, col: Val, row: Val)

  function PassWrites(w: World, s: Spot, targets: seq<Target>, p: Pass): seq<Write>
    requires p.target < |targets|
  {
    RecordWrites(w, p.inv, s, targets[p.target], p.target, p.value, p.place)
    + TraceWrites(w, p.inv, s, targets[p.target], p.value, p.col, p.row)
  }

  /** Every word is some pass's, and every pass has written all its words. */
  ghost predicate WholePasses(w: World, s: Spot, targets: seq<Target>, passes: seq<Pass>, log: seq<Write>) {
    && (forall n :: 0 <= n < |passes| ==> passes[n].target < |targets|)
    && (forall x :: x in log ==> exists n :: 0 <= n < |passes| && x in PassWrites(w, s, targets, passes[n]))
    && (forall n, x :: 0 <= n < |passes| && x in PassWrites(w, s, targets, passes[n]) ==> x in log)
  }

  /** The target the reader expects at place `i`. */
  predicate Fits(t: Target, i: nat)
    requires i < P.RECORDS
  {
    var e := P.ExpectedRecords()[i];
    t.candidate == e.candidate && RoleCode(t.role) == e.roleCode && (t.phase == Full <==> i >= 5)
  }

  /** At most the ten targets the reader knows, in its order. */
  ghost predicate AllFit(targets: seq<Target>) {
    |targets| <= P.RECORDS && forall i :: 0 <= i < |targets| ==> Fits(targets[i], i)
  }

  /** Every invocation that passes is in one of the 32 lanes. */
  ghost predicate InLanes(w: World, s: Spot, passes: seq<Pass>) {
    forall n :: 0 <= n < |passes| ==> ProbeBlocks.At(w, passes[n].inv, s, 3) < TRACE_LANES
  }

  lemma ExpectedIs(i: nat)
    requires i < P.RECORDS
    ensures P.ExpectedRecords()[i].slotBase == SlotBase(i) && P.ExpectedRecords()[i].candidate > 0
    ensures P.ExpectedRecords()[i].final <==> P.ExpectedRecords()[i].roleCode == 4
    ensures i >= 5 ==> (P.ExpectedRecords()[i].roleCode == 1 <==> i == 5) && (P.ExpectedRecords()[i].roleCode == 2 <==> i == 6)
  {}

  lemma TraceOf(t: Target, i: nat)
    requires i < P.RECORDS && Fits(t, i)
    ensures TraceBase(t) == if i == 5 then Some(PRE_REDUCTION) else if i == 6 then Some(REDUCTION) else None
    ensures t.role == FinalStore <==> P.ExpectedRecords()[i].final
  {
    hide P.ExpectedRecords;
    ExpectedIs(i);
  }

  // ---- which slots a pass writes ----

  /** The three kinds of words of a pass. */
  predicate IsRecordWord(w: World, s: Spot, t: Target, p: Pass, x: Write, o: nat) {
    o < RecordLength(t) && x == Write(SlotBase(p.target) + o, RecordValue(w, p.inv, s, t, p.value, p.place, o))
  }

  predicate IsHeaderWord(t: Target, x: Write, o: nat) {
    TraceBase(t).Some? && o < 5 && x == Write(TRACE_HEADER + o, Scalar(HeaderValue(o)))
  }

  predicate IsLaneWord(w: World, s: Spot, t: Target, p: Pass, x: Write, o: nat) {
    TraceBase(t).Some? && o < 8
    && x == Write(TraceBase(t).value + ProbeBlocks.At(w, p.inv, s, 3) * TRACE_WORDS + o, LaneValue(w, p.inv, s, t, p.value, p.col, p.row, o))
  }

  lemma RecordAt(w: World, s: Spot, t: Target, p: Pass, o: nat)
    requires p.target < P.RECORDS && o < RecordLength(t)
    ensures RecordWrites(w, p.inv, s, t, p.target, p.value, p.place)[o]
         == Write(SlotBase(p.target) + o, RecordValue(w, p.inv, s, t, p.value, p.place, o))
  {
    hide RecordValue;
  }

  lemma LaneAt(w: World, s: Spot, t: Target, p: Pass, region: nat, o: nat)
    requires o < 8 && region <= REDUCTION && ProbeBlocks.At(w, p.inv, s, 3) < TRACE_LANES
    ensures LanesWritten(w, p.inv, s, t, region, p.value, p.col, p.row)[o]
         == Write(region + ProbeBlocks.At(w, p.inv, s, 3) * TRACE_WORDS + o, LaneValue(w, p.inv, s, t, p.value, p.col, p.row, o))
  {
    hide LaneValue;
  }

  lemma PassWord(w: World, s: Spot, targets: seq<Target>, p: Pass, x: Write) returns (o: nat)
    requires AllFit(targets) && p.target < |targets| && ProbeBlocks.At(w, p.inv, s, 3) < TRACE_LANES
    requires x in PassWrites(w, s, targets, p)
    ensures var t := targets[p.target];
      IsRecordWord(w, s, t, p, x, o) || IsHeaderWord(t, x, o) || IsLaneWord(w, s, t, p, x, o)
  {
    hide P.ExpectedRecords, Fits, RecordWrites, LanesWritten, RecordValue, LaneValue, HeaderValue, TraceBase, RecordLength;
    var t := targets[p.target];
    TraceOf(t, p.target);
    var record := RecordWrites(w, p.inv, s, t, p.target, p.value, p.place);
    if x in record {
      o :| 0 <= o < |record| && record[o] == x;
      RecordAt(w, s, t, p, o);
    } else {
      var region := TraceBase(t).value;
      if x in HeaderWrites() {
        o :| 0 <= o < 5 && HeaderWrites()[o] == x;
      } else {
        var lanes := LanesWritten(w, p.inv, s, t, region, p.value, p.col, p.row);
        o :| 0 <= o < 8 && lanes[o] == x;
        LaneAt(w, s, t, p, region, o);
      }
    }
  }

  lemma RecordWordIn(w: World, s: Spot, targets: seq<Target>, p: Pass, o: nat)
    requires AllFit(targets) && p.target < |targets| && o < RecordLength(targets[p.target])
    ensures Write(SlotBase(p.target) + o, RecordValue(w, p.inv, s, targets[p.target], p.value, p.place, o)) in PassWrites(w, s, targets, p)
  {
    hide RecordWrites, RecordValue, TraceWrites, P.ExpectedRecords;
    RecordAt(w, s, targets[p.target], p, o);
  }

  lemma HeaderWordIn(w: World, s: Spot, targets: seq<Target>, p: Pass, o: nat)
    requires p.target < |targets| && o < 5 && TraceBase(targets[p.target]).Some?
    ensures Write(TRACE_HEADER + o, Scalar(HeaderValue(o))) in PassWrites(w, s, targets, p)
  {
    assert HeaderWrites()[o] in HeaderWrites();
  }

  lemma LaneWordIn(w: World, s: Spot, targets: seq<Target>, p: Pass, o: nat)
    requires AllFit(targets) && p.target < |targets| && o < 8 && TraceBase(targets[p.target]).Some?
    requires ProbeBlocks.At(w, p.inv, s, 3) < TRACE_LANES
    ensures var t := targets[p.target];
      Write(TraceBase(t).value + ProbeBlocks.At(w, p.inv, s, 3) * TRACE_WORDS + o, LaneValue(w, p.inv, s, t, p.value, p.col, p.row, o))
        in PassWrites(w, s, targets, p)
  {
    hide P.ExpectedRecords, Fits, LanesWritten, LaneValue, RecordWrites, HeaderWrites;
    var t := targets[p.target];
    TraceOf(t, p.target);
    LaneAt(w, s, t, p, TraceBase(t).value, o);
    var lanes := LanesWritten(w, p.inv, s, t, TraceBase(t).value, p.value, p.col, p.row);
    assert lanes[o] in lanes;
  }

  // ---- what each slot holds ----

  /** The log of whole passes, through targets the reader knows, in known lanes. */
  ghost predicate Settled(w: World, s: Spot, targets: seq<Target>, passes: seq<Pass>, log: seq<Write>) {
    WholePasses(w, s, targets, passes, log) && AllFit(targets) && InLanes(w, s, passes)
  }

  predicate Ran(passes: seq<Pass>, i: nat) {
    exists n | 0 <= n < |passes| :: passes[n].target == i
  }

  predicate RanLane(w: World, s: Spot, passes: seq<Pass>, i: nat, lane: nat) {
    exists n | 0 <= n < |passes| :: passes[n].target == i && ProbeBlocks.At(w, passes[n].inv, s, 3) == lane
  }

  predicate RanSome(w: World, s: Spot, passes: seq<Pass>, i: nat, n: nat) {
    exists lane | 0 <= lane < n :: RanLane(w, s, passes, i, lane)
  }

  lemma WriterOf(w: World, s: Spot, targets: seq<Target>, passes: seq<Pass>, log: seq<Write>, x: Write) returns (n: nat, o: nat)
    requires Settled(w, s, targets, passes, log) && x in log
    ensures n < |passes| && passes[n].target < |targets| <= P.RECORDS
    ensures var t := targets[passes[n].target];
      IsRecordWord(w, s, t, passes[n], x, o) || IsHeaderWord(t, x, o) || IsLaneWord(w, s, t, passes[n], x, o)
    ensures ProbeBlocks.At(w, passes[n].inv, s, 3) < TRACE_LANES
    ensures var i := passes[n].target;
      TraceBase(targets[i]) == if i == 5 then Some(PRE_REDUCTION) else if i == 6 then Some(REDUCTION) else None
  {
    hide PassWrites, IsRecordWord, IsHeaderWord, IsLaneWord, P.ExpectedRecords, TraceBase;
    n :| 0 <= n < |passes| && x in PassWrites(w, s, targets, passes[n]);
    o := PassWord(w, s, targets, passes[n], x);
    TraceOf(targets[passes[n].target], passes[n].target);
  }

  lemma RecordLengths(t: Target)
    ensures RecordLength(t) <= 11
  {}

  /** A word in a record's slot was written by a pass through that target. */
  lemma RecordWriter(w: World, s: Spot, targets: seq<Target>, passes: seq<Pass>, log: seq<Write>, x: Write, i: nat, o: nat) returns (n: nat)
    requires Settled(w, s, targets, passes, log) && x in log && i < P.RECORDS && o < 11 && x.slot == SlotBase(i) + o
    ensures n < |passes| && passes[n].target == i && i < |targets|
    ensures IsRecordWord(w, s, targets[i], passes[n], x, o)
  {
    hide Settled, RecordValue, LaneValue, HeaderValue, RecordLength, TraceBase;
    var o2;
    n, o2 := WriterOf(w, s, targets, passes, log, x);
    RecordLengths(targets[passes[n].target]);
    var t := targets[passes[n].target];
    if IsRecordWord(w, s, t, passes[n], x, o2) {
      assert 12 * (passes[n].target - i) == o - o2;
    }
  }

  lemma HeaderWriter(w: World, s: Spot, targets: seq<Target>, passes: seq<Pass>, log: seq<Write>, x: Write, o: nat) returns (n: nat)
    requires Settled(w, s, targets, passes, log) && x in log && o < 5 && x.slot == TRACE_HEADER + o
    ensures n < |passes| && passes[n].target < |targets| && TraceBase(targets[passes[n].target]).Some? && x.value == Scalar(HeaderValue(o))
  {
    hide Settled, RecordValue, LaneValue, HeaderValue, RecordLength, TraceBase;
    var o2;
    n, o2 := WriterOf(w, s, targets, passes, log, x);
    RecordLengths(targets[passes[n].target]);
  }

  lemma LaneWriter(w: World, s: Spot, targets: seq<Target>, passes: seq<Pass>, log: seq<Write>, x: Write, phase: nat, lane: nat, o: nat) returns (n: nat)
    requires Settled(w, s, targets, passes, log) && x in log && phase < 2 && lane < TRACE_LANES && o < 8
    requires x.slot == P.LaneSlot(phase, lane) + o
    ensures n < |passes| && passes[n].target == 5 + phase < |targets| && ProbeBlocks.At(w, passes[n].inv, s, 3) == lane
    ensures IsLaneWord(w, s, targets[5 + phase], passes[n], x, o)
  {
    hide Settled, RecordValue, LaneValue, HeaderValue, RecordLength, TraceBase;
    var o2;
    n, o2 := WriterOf(w, s, targets, passes, log, x);
    RecordLengths(targets[passes[n].target]);
    var t, lane2 := targets[passes[n].target], ProbeBlocks.At(w, passes[n].inv, s, 3);
    if IsLaneWord(w, s, t, passes[n], x, o2) {
      assert TraceBase(t).value + lane2 * 8 + o2 == P.PhaseBase(phase) + lane * 8 + o;
    }
  }

  /** No word lands outside the slots the reader knows. */
  lemma SlotsKnown(w: World, s: Spot, targets: seq<Target>, passes: seq<Pass>, log: seq<Write>, x: Write)
    requires Settled(w, s, targets, passes, log) && x in log
    ensures P.ExpectedSlot(x.slot) && x.slot < P.LAST_SLOT
  {
    hide Settled, RecordValue, LaneValue, HeaderValue, RecordLength, TraceBase, P.ExpectedRecords;
    var n, o := WriterOf(w, s, targets, passes, log, x);
    RecordLengths(targets[passes[n].target]);
    ExpectedIs(passes[n].target);
  }

  /** A word that is a 32-bit integer is read back as it was written. */
  ghost predicate Faithful(bits: Val -> nat) {
    forall x: nat :: x < WORD ==> bits(Scalar(x)) == x
  }

  // ---- fixed records ----

  lemma WrittenIn(log: seq<Write>, x: Write)
    requires x in log
    ensures Written(log, x.slot)
  {
    var n :| 0 <= n < |log| && log[n] == x;
  }

  /** An identity slot of a record holds its identity once any pass wrote it, and
      zero before. */
  lemma RecordCell(w: World, s: Spot, targets: seq<Target>, passes: seq<Pass>, log: seq<Write>, bits: Val -> nat, i: nat, o: nat, v: nat)
    requires Settled(w, s, targets, passes, log) && Faithful(bits) && i < P.RECORDS && o < 11 && v < WORD
    requires forall p: Pass, x: Write :: i < |targets| && IsRecordWord(w, s, targets[i], p, x, o) ==> x.value == Scalar(v)
    requires i < |targets| ==> o < RecordLength(targets[i])
    ensures Cell(bits, log, SlotBase(i) + o) == if Ran(passes, i) then v else 0
  {
    hide Settled, RecordValue, IsRecordWord, RecordLength;
    var slot := SlotBase(i) + o;
    forall x | x in log && x.slot == slot
      ensures bits(x.value) == v && Ran(passes, i)
    {
      var n := RecordWriter(w, s, targets, passes, log, x, i, o);
    }
    CellIs(bits, log, slot, v);
    if Written(log, slot) {
      var n :| 0 <= n < |log| && log[n].slot == slot;
      assert log[n] in log;
    }
    if Ran(passes, i) {
      var n :| 0 <= n < |passes| && passes[n].target == i;
      PassTarget(w, s, targets, passes, log, n);
      RecordWrote(w, s, targets, passes, log, n, o);
    }
  }

  lemma PassTarget(w: World, s: Spot, targets: seq<Target>, passes: seq<Pass>, log: seq<Write>, n: nat)
    requires Settled(w, s, targets, passes, log) && n < |passes|
    ensures passes[n].target < |targets| <= P.RECORDS && Fits(targets[passes[n].target], passes[n].target)
    ensures ProbeBlocks.At(w, passes[n].inv, s, 3) < TRACE_LANES
  {
    hide Fits, PassWrites;
  }

  lemma RecordWrote(w: World, s: Spot, targets: seq<Target>, passes: seq<Pass>, log: seq<Write>, n: nat, o: nat)
    requires Settled(w, s, targets, passes, log) && n < |passes|
    requires passes[n].target < |targets| && o < RecordLength(targets[passes[n].target])
    ensures Written(log, SlotBase(passes[n].target) + o)
  {
    hide PassWrites, RecordValue, P.ExpectedRecords;
    var p := passes[n];
    RecordWordIn(w, s, targets, p, o);
    WrittenIn(log, Write(SlotBase(p.target) + o, RecordValue(w, p.inv, s, targets[p.target], p.value, p.place, o)));
  }

  lemma NotRanCell(w: World, s: Spot, targets: seq<Target>, passes: seq<Pass>, log: seq<Write>, bits: Val -> nat, i: nat, o: nat)
    requires Settled(w, s, targets, passes, log) && i < P.RECORDS && o < 11 && !Ran(passes, i)
    ensures Cell(bits, log, SlotBase(i) + o) == 0
  {
    hide Settled, RecordValue, IsRecordWord, RecordLength;
    var slot := SlotBase(i) + o;
    forall x | x in log && x.slot == slot
      ensures false
    {
      var n := RecordWriter(w, s, targets, passes, log, x, i, o);
    }
    CellIs(bits, log, slot, 0);
  }

  lemma ReadAt(bits: Val -> nat, log: seq<Write>, size: nat, k: nat)
    requires k < size
    ensures P.At(Readback(bits, log, size), k) == Some(Cell(bits, log, k))
  {}

  lemma FixedWords(w: World, s: Spot, t: Target, i: nat, p: Pass, x: Write)
    requires i < P.RECORDS && Fits(t, i)
    ensures IsRecordWord(w, s, t, p, x, 0) ==> x.value == Scalar(P.ExpectedRecords()[i].candidate)
    ensures IsRecordWord(w, s, t, p, x, 1) ==> x.value == Scalar(P.ExpectedRecords()[i].roleCode)
    ensures IsRecordWord(w, s, t, p, x, 10) ==> x.value == Scalar(2)
    ensures 2 < RecordLength(t) && (P.ExpectedRecords()[i].final ==> RecordLength(t) == 11)
  {
    hide P.ExpectedRecords;
    TraceOf(t, i);
  }

  lemma ExpectedSmall(i: nat)
    requires i < P.RECORDS
    ensures P.ExpectedRecords()[i].candidate < WORD && P.ExpectedRecords()[i].roleCode < WORD
    ensures SlotBase(i) + 11 <= P.LAST_SLOT
  {}

  /** The three identity cells of a record. */
  lemma IdentityCells(w: World, s: Spot, targets: seq<Target>, passes: seq<Pass>, log: seq<Write>, bits: Val -> nat, i: nat)
    requires Settled(w, s, targets, passes, log) && Faithful(bits) && i < P.RECORDS
    ensures var e := P.ExpectedRecords()[i];
      && Cell(bits, log, SlotBase(i)) == (if Ran(passes, i) then e.candidate else 0)
      && Cell(bits, log, SlotBase(i) + 1) == (if Ran(passes, i) then e.roleCode else 0)
      && (e.final ==> Cell(bits, log, SlotBase(i) + 10) == if Ran(passes, i) then 2 else 0)
  {
    hide Settled, IsRecordWord, P.ExpectedRecords, RecordLength, Fits, Cell;
    var e := P.ExpectedRecords()[i];
    ExpectedSmall(i);
    if i < |targets| {
      TargetFits(w, s, targets, passes, log, i);
      forall p: Pass, x: Write
        ensures IsRecordWord(w, s, targets[i], p, x, 0) ==> x.value == Scalar(e.candidate)
        ensures IsRecordWord(w, s, targets[i], p, x, 1) ==> x.value == Scalar(e.roleCode)
        ensures IsRecordWord(w, s, targets[i], p, x, 10) ==> x.value == Scalar(2)
      {
        FixedWords(w, s, targets[i], i, p, x);
      }
      FixedWords(w, s, targets[i], i, Pass(0, 0, Undef, Undef, Undef, Undef), Write(0, Undef));
    }
    RecordCell(w, s, targets, passes, log, bits, i, 0, e.candidate);
    RecordCell(w, s, targets, passes, log, bits, i, 1, e.roleCode);
    if e.final { RecordCell(w, s, targets, passes, log, bits, i, 10, 2); }
  }

  lemma TargetFits(w: World, s: Spot, targets: seq<Target>, passes: seq<Pass>, log: seq<Write>, i: nat)
    requires Settled(w, s, targets, passes, log) && i < |targets|
    ensures i < P.RECORDS && Fits(targets[i], i)
  {
    hide Fits, WholePasses, InLanes;
  }

  /** A record is read as executed and right exactly when some pass wrote it, and
      as not executed otherwise. */
  lemma RecordRead(w: World, s: Spot, targets: seq<Target>, passes: seq<Pass>, log: seq<Write>, bits: Val -> nat, size: nat, i: nat, writeback: P.Sampled)
    requires Settled(w, s, targets, passes, log) && Faithful(bits) && i < P.RECORDS && size >= P.LAST_SLOT
    requires writeback == map[] || writeback == Readback(bits, log, size)
    ensures var d, e := Readback(bits, log, size), P.ExpectedRecords()[i];
      && P.RecordFailures(d, writeback, i, e) == []
      && P.RecordOf(d, e).status == (if Ran(passes, i) then P.Passed else P.NotExecuted)
      && P.RecordOf(d, e).trace == (if !e.final then P.NotApplicable else if Ran(passes, i) then P.TracePassed else P.TraceNotExecuted)
  {
    hide Settled, Cell, P.ExpectedRecords, Readback, Ran;
    var d, e := Readback(bits, log, size), P.ExpectedRecords()[i];
    ExpectedIs(i);
    ExpectedSmall(i);
    IdentityCells(w, s, targets, passes, log, bits, i);
    if !Ran(passes, i) { NotRanCell(w, s, targets, passes, log, bits, i, 2); }
    forall k | e.slotBase <= k < e.slotBase + 11
      ensures P.At(d, k) == Some(Cell(bits, log, k))
    {
      ReadAt(bits, log, size, k);
    }
  }

  // ---- the lane trace ----

  /** Some traced store was passed. */
  predicate Traced(passes: seq<Pass>) { Ran(passes, 5) || Ran(passes, 6) }

  lemma HeaderCell(w: World, s: Spot, targets: seq<Target>, passes: seq<Pass>, log: seq<Write>, bits: Val -> nat, o: nat)
    requires Settled(w, s, targets, passes, log) && Faithful(bits) && o < 5
    ensures Cell(bits, log, TRACE_HEADER + o) == if Traced(passes) then HeaderValue(o) else 0
  {
    hide Settled, PassWrites, TraceBase, HeaderValue, Fits;
    var slot := TRACE_HEADER + o;
    forall x | x in log && x.slot == slot
      ensures bits(x.value) == HeaderValue(o) && Traced(passes)
    {
      var n := HeaderWriter(w, s, targets, passes, log, x, o);
      PassTarget(w, s, targets, passes, log, n);
      TraceOf(targets[passes[n].target], passes[n].target);
    }
    CellIs(bits, log, slot, HeaderValue(o));
    if Written(log, slot) {
      var n :| 0 <= n < |log| && log[n].slot == slot;
      assert log[n] in log;
    }
    if Traced(passes) {
      var n :| 0 <= n < |passes| && (passes[n].target == 5 || passes[n].target == 6);
      PassTarget(w, s, targets, passes, log, n);
      TraceOf(targets[passes[n].target], passes[n].target);
      HeaderWrote(w, s, targets, passes, log, n, o);
    }
  }

  lemma HeaderWrote(w: World, s: Spot, targets: seq<Target>, passes: seq<Pass>, log: seq<Write>, n: nat, o: nat)
    requires Settled(w, s, targets, passes, log) && n < |passes| && o < 5
    requires passes[n].target < |targets| && TraceBase(targets[passes[n].target]).Some?
    ensures Written(log, TRACE_HEADER + o)
  {
    hide PassWrites, HeaderValue, Fits, TraceBase;
    HeaderWordIn(w, s, targets, passes[n], o);
    WrittenIn(log, Write(TRACE_HEADER + o, Scalar(HeaderValue(o))));
  }

  lemma LaneWrote(w: World, s: Spot, targets: seq<Target>, passes: seq<Pass>, log: seq<Write>, n: nat, o: nat)
    requires Settled(w, s, targets, passes, log) && n < |passes| && o < 8
    requires passes[n].target < |targets| && TraceBase(targets[passes[n].target]).Some? && ProbeBlocks.At(w, passes[n].inv, s, 3) < TRACE_LANES
    ensures Written(log, TraceBase(targets[passes[n].target]).value + ProbeBlocks.At(w, passes[n].inv, s, 3) * TRACE_WORDS + o)
  {
    hide PassWrites, LaneValue, Fits, TraceBase;
    var p, t := passes[n], targets[passes[n].target];
    LaneWordIn(w, s, targets, p, o);
    WrittenIn(log, Write(TraceBase(t).value + ProbeBlocks.At(w, p.inv, s, 3) * TRACE_WORDS + o, LaneValue(w, p.inv, s, t, p.value, p.col, p.row, o)));
  }

  /** A lane's identity slots hold its identity once its invocation has passed,
      and zero before; so do the lane's other slots before. */
  lemma LaneCell(w: World, s: Spot, targets: seq<Target>, passes: seq<Pass>, log: seq<Write>, bits: Val -> nat, phase: nat, lane: nat, o: nat)
    requires Settled(w, s, targets, passes, log) && Faithful(bits) && phase < 2 && lane < TRACE_LANES && o < 8
    ensures var c := Cell(bits, log, P.LaneSlot(phase, lane) + o);
      && (!RanLane(w, s, passes, 5 + phase, lane) ==> c == 0)
      && (RanLane(w, s, passes, 5 + phase, lane) && o == 0 ==> c == lane)
      && (RanLane(w, s, passes, 5 + phase, lane) && o == 5 ==> c == P.PhaseCandidate(phase))
  {
    hide Settled, PassWrites, TraceBase, Fits, IsLaneWord;
    var slot := P.LaneSlot(phase, lane) + o;
    var v := if o == 0 then lane else P.PhaseCandidate(phase);
    forall x | x in log && x.slot == slot
      ensures RanLane(w, s, passes, 5 + phase, lane) && (o == 0 || o == 5 ==> bits(x.value) == v)
    {
      var n := LaneWriter(w, s, targets, passes, log, x, phase, lane, o);
      PassTarget(w, s, targets, passes, log, n);
      LaneIdentity(w, s, targets[5 + phase], passes[n], x, phase, lane, o);
    }
    if !RanLane(w, s, passes, 5 + phase, lane) {
      CellIs(bits, log, slot, 0);
    } else if o == 0 || o == 5 {
      CellIs(bits, log, slot, v);
      var n :| 0 <= n < |passes| && passes[n].target == 5 + phase && ProbeBlocks.At(w, passes[n].inv, s, 3) == lane;
      PassTarget(w, s, targets, passes, log, n);
      TraceOf(targets[passes[n].target], passes[n].target);
      LaneWrote(w, s, targets, passes, log, n, o);
    }
  }

  lemma LaneIdentity(w: World, s: Spot, t: Target, p: Pass, x: Write, phase: nat, lane: nat, o: nat)
    requires phase < 2 && Fits(t, 5 + phase) && IsLaneWord(w, s, t, p, x, o) && ProbeBlocks.At(w, p.inv, s, 3) == lane
    ensures o == 0 ==> x.value == Scalar(lane)
    ensures o == 5 ==> x.value == Scalar(P.PhaseCandidate(phase))
  {}

  /** Every lane is read as executed and right, or as not executed. */
  lemma LaneRead(w: World, s: Spot, targets: seq<Target>, passes: seq<Pass>, log: seq<Write>, bits: Val -> nat, size: nat, phase: nat, lane: nat)
    requires Settled(w, s, targets, passes, log) && Faithful(bits) && phase < 2 && lane < TRACE_LANES && size >= P.LAST_SLOT
    ensures var d := Readback(bits, log, size);
      && (P.LaneUnexecuted(d, phase, lane) <==> !RanLane(w, s, passes, 5 + phase, lane))
      && !P.LaneXWrong(d, phase, lane) && !P.LaneCandidateWrong(d, phase, lane)
  {
    hide Settled, Cell, Readback, RanLane;
    LaneCell(w, s, targets, passes, log, bits, phase, lane, 0);
    LaneCell(w, s, targets, passes, log, bits, phase, lane, 1);
    LaneCell(w, s, targets, passes, log, bits, phase, lane, 5);
    ReadAt(bits, log, size, P.LaneSlot(phase, lane));
    ReadAt(bits, log, size, P.LaneSlot(phase, lane) + 1);
    ReadAt(bits, log, size, P.LaneSlot(phase, lane) + 5);
  }

  lemma {:induction false} LanesRead(w: World, s: Spot, targets: seq<Target>, passes: seq<Pass>, log: seq<Write>, bits: Val -> nat, size: nat, phase: nat, n: nat)
    requires Settled(w, s, targets, passes, log) && Faithful(bits) && phase < 2 && n <= TRACE_LANES && size >= P.LAST_SLOT
    ensures var r := P.LanesOf(Readback(bits, log, size), phase, n);
      r.failures == [] && r.observed == r.executed && (r.observed > 0 <==> RanSome(w, s, passes, 5 + phase, n))
  {
    if n > 0 {
      hide Settled, Readback, RanLane, P.LaneUnexecuted, P.LaneXWrong, P.LaneCandidateWrong;
      LanesRead(w, s, targets, passes, log, bits, size, phase, n - 1);
      LaneRead(w, s, targets, passes, log, bits, size, phase, n - 1);
    }
  }

  lemma HeaderRead(w: World, s: Spot, targets: seq<Target>, passes: seq<Pass>, log: seq<Write>, bits: Val -> nat, size: nat)
    requires Settled(w, s, targets, passes, log) && Faithful(bits) && size >= P.LAST_SLOT
    ensures var d := Readback(bits, log, size);
      (Traced(passes) ==> P.HeaderValid(d)) && (!Traced(passes) ==> !P.HeaderPresent(d) && !P.HeaderValid(d))
  {
    hide Settled, Cell, Readback, Traced;
    forall k | TRACE_HEADER <= k < TRACE_HEADER + 5
      ensures P.At(Readback(bits, log, size), k) == Some(if Traced(passes) then HeaderValue(k - TRACE_HEADER) as int else 0)
    {
      HeaderCell(w, s, targets, passes, log, bits, k - TRACE_HEADER);
      ReadAt(bits, log, size, k);
    }
  }

  lemma LaneOfRan(w: World, s: Spot, targets: seq<Target>, passes: seq<Pass>, log: seq<Write>, i: nat)
    requires Settled(w, s, targets, passes, log)
    ensures Ran(passes, i) <==> RanSome(w, s, passes, i, TRACE_LANES)
  {
    hide Settled;
    if Ran(passes, i) {
      var n :| 0 <= n < |passes| && passes[n].target == i;
      PassTarget(w, s, targets, passes, log, n);
      assert RanLane(w, s, passes, i, ProbeBlocks.At(w, passes[n].inv, s, 3));
    }
  }

  /** The lane trace is fine, or was not run. */
  lemma TraceRead(w: World, s: Spot, targets: seq<Target>, passes: seq<Pass>, log: seq<Write>, bits: Val -> nat, size: nat)
    requires Settled(w, s, targets, passes, log) && Faithful(bits) && size >= P.LAST_SLOT
    ensures var r := P.LaneReportOf(Readback(bits, log, size));
      r.summary == (if Traced(passes) then P.Pass else P.NotRun) && r.failures == []
  {
    hide Settled, Readback, RanLane, P.LanesOf, P.HeaderValid, P.HeaderPresent;
    LanesRead(w, s, targets, passes, log, bits, size, 0, TRACE_LANES);
    LanesRead(w, s, targets, passes, log, bits, size, 1, TRACE_LANES);
    HeaderRead(w, s, targets, passes, log, bits, size);
    LaneOfRan(w, s, targets, passes, log, 5);
    LaneOfRan(w, s, targets, passes, log, 6);
  }

  // ---- the whole report ----

  lemma {:induction false} RecordsRead(w: World, s: Spot, targets: seq<Target>, passes: seq<Pass>, log: seq<Write>, bits: Val -> nat, size: nat, n: nat, writeback: P.Sampled)
    requires Settled(w, s, targets, passes, log) && Faithful(bits) && n <= P.RECORDS && size >= P.LAST_SLOT
    requires writeback == map[] || writeback == Readback(bits, log, size)
    ensures P.AllRecordFailures(Readback(bits, log, size), writeback, n) == []
  {
    if n > 0 {
      hide Settled, Readback, Ran, P.RecordOf, P.RecordFailures, P.ExpectedRecords;
      RecordsRead(w, s, targets, passes, log, bits, size, n - 1, writeback);
      RecordRead(w, s, targets, passes, log, bits, size, n - 1, writeback);
    }
  }

  lemma NothingElse(w: World, s: Spot, targets: seq<Target>, passes: seq<Pass>, log: seq<Write>, bits: Val -> nat, size: nat)
    requires Settled(w, s, targets, passes, log)
    ensures P.UnexpectedNonzero(Readback(bits, log, size)) == {}
  {
    hide Settled, P.ExpectedSlot;
    var d := Readback(bits, log, size);
    forall k | k in d && !P.ExpectedSlot(k)
      ensures d[k] == Some(0)
    {
      forall x | x in log && x.slot == k
        ensures false
      {
        SlotsKnown(w, s, targets, passes, log, x);
      }
      CellIs(bits, log, k, 0);
    }
  }

  /** The reader finds nothing wrong: no failure, no word where none is expected.
      A record is reported exactly for the targets that some invocation passed,
      and the report passes exactly when a final store is among them. */
  lemma ReportClean(w: World, s: Spot, targets: seq<Target>, passes: seq<Pass>, log: seq<Write>, bits: Val -> nat, size: nat, writeback: P.Sampled)
    requires Settled(w, s, targets, passes, log) && Faithful(bits) && size >= P.LAST_SLOT
    requires writeback == map[] || writeback == Readback(bits, log, size)
    ensures var r := P.ReportOf(Readback(bits, log, size), writeback);
      && r.failures == [] && r.unexpected == {} && r.lanes.summary != P.Fail
      && (forall i :: 0 <= i < P.RECORDS ==> r.records[i].status == if Ran(passes, i) then P.Passed else P.NotExecuted)
      && (r.pass <==> Ran(passes, 4) || Ran(passes, 9))
  {
    hide Settled, Readback, Ran, P.RecordOf, P.RecordFailures, P.ExpectedRecords, P.LaneReportOf, P.UnexpectedNonzero, P.TallyOf, P.AllRecordFailures;
    var d := Readback(bits, log, size);
    RecordsRead(w, s, targets, passes, log, bits, size, P.RECORDS, writeback);
    NothingElse(w, s, targets, passes, log, bits, size);
    TraceRead(w, s, targets, passes, log, bits, size);
    forall i | 0 <= i < P.RECORDS
      ensures var e, r := P.ExpectedRecords()[i], P.RecordOf(d, P.ExpectedRecords()[i]);
        r.status == (if Ran(passes, i) then P.Passed else P.NotExecuted) && (P.FinalTraced(r, e) <==> e.final && Ran(passes, i))
    {
      RecordRead(w, s, targets, passes, log, bits, size, i, writeback);
    }
    FinalsAre();
    assert P.FinalTraced(P.Records(d)[4], P.ExpectedRecords()[4]) <==> Ran(passes, 4);
    assert P.FinalTraced(P.Records(d)[9], P.ExpectedRecords()[9]) <==> Ran(passes, 9);
  }

  lemma FinalsAre()
    ensures forall i :: 0 <= i < P.RECORDS ==> (P.ExpectedRecords()[i].final <==> i == 4 || i == 9)
  {}

  // ---- the limits of the layout ----

  /** Ten records fit below the header; an eleventh would reach into it. And lane
      `x` of the first region stays out of the second exactly below 32. */
  lemma LayoutLimits(n: nat, x: nat)
    ensures (forall i :: 0 <= i < n ==> SlotBase(i) + 10 < TRACE_HEADER) <==> n <= P.RECORDS
    ensures PRE_REDUCTION + x * TRACE_WORDS + (TRACE_WORDS - 1) < REDUCTION <==> x < TRACE_LANES
  {
    if n > P.RECORDS {
      assert SlotBase(P.RECORDS) + 10 > TRACE_HEADER;
    }
  }
}
