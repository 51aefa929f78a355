/**
 A panel start as the audit log sees it, as a state machine: loads that fail at one point or another, entries queued
 meanwhile, and the load that succeeds. It follows what becomes of the counts and the range an earlier process recorded,
 and of the counts this process has made itself.
 */
module AuditRestart {
  import opened Options
  import opened AuditLog
  import opened AuditLoad

  /**
   health is the record on disk, status the one in memory; queue is the number of queued entries, which end at sequence.
   The rest is history: whether an earlier process's record was adopted, the last number on disk when its range was
   charged, the entries queued so far, how many of them a full queue gave up, and how many of those an adopted record
   then took out of the count.
   */
  datatype Start = Start(
    status: Health,
    health: Option<Health>,
    sequence: nat,
    queue: nat,
    ready: bool,
    adopted: bool,
    charged: Option<nat>,
    queued: nat,
    overflowed: nat,
    erased: nat)

  /** Where a load fails: before it reads the record, before its last segment, or once it has charged and renumbered.
      Its own write of the record can reach the disk and still report an error. */
  datatype Failure = Unread | Unscanned(cut: nat) | Unsettled(cut: nat, last: nat, published: bool)

  /** A failed load and the report on it, alone or before an entry is queued and its range recorded; or the load that
      succeeds. The flags say which writes of the record reach the disk. */
  datatype Op =
    | Failing(failure: Failure, reported: bool)
    | Appending(failure: Failure, reported: bool, recorded: bool)
    | Loading(cut: nat, last: nat)

  const NO_HEALTH := Health(0, 0, 0, false, 0, 0)

  function Fresh(found: Option<Health>): Start {
    Start(NO_HEALTH, found, 0, 0, false, false, None, 0, 0, 0)
  }

  // ----- the steps

  predicate Adopts(s: Start) {
    s.health.Some? && s.health.value.failures > s.status.failures
  }

  /** Each torn tail that is cut back is a failure. */
  function Tallied(h: Health, cut: nat): Health {
    h.(failures := h.failures + cut, tails := h.tails + cut, degraded := h.degraded || cut > 0)
  }

  function Read(s: Start, cut: nat): Start {
    s.(status := Tallied(Adopted(s.status, s.health), cut),
       adopted := s.adopted || Adopts(s), erased := if Adopts(s) then s.overflowed else s.erased)
  }

  function End(h: Health): int {
    h.first + h.count - 1
  }

  function ChargedStatus(h: Health, last: nat): Health
    requires h.count > 0
  {
    h.(dropped := h.dropped + Charge(h, last), degraded := h.degraded || last < End(h), first := 0, count := 0)
  }

  /** The recorded range is charged unless something is queued; what is queued gets new numbers above everything. */
  function Settled(s: Start, last: nat): Start {
    var charges := s.queue == 0 && s.status.count > 0;
    var passed := if charges && End(s.status) > s.sequence then End(s.status) else s.sequence;
    s.(status := if charges then ChargedStatus(s.status, last) else s.status,
       charged := if charges then Some(last) else s.charged,
       sequence := (if last > passed then last else passed) + s.queue)
  }

  /** The record names the queue. */
  function Described(h: Health, sequence: nat, queue: nat): Health {
    h.(first := if queue == 0 || sequence < queue then 0 else sequence - queue + 1, count := queue)
  }

  function Recorded(s: Start, written: bool): Start {
    var h := Described(s.status, s.sequence, s.queue);
    s.(status := h, health := if written then Some(h) else s.health)
  }

  function Reported(s: Start, written: bool): Start {
    Recorded(s.(status := s.status.(failures := s.status.failures + 1, degraded := true)), written)
  }

  function Failed(s: Start, f: Failure): Start {
    match f
    case Unread => s
    case Unscanned(cut) => Read(s, cut)
    case Unsettled(cut, last, published) =>
      var t := Settled(Read(s, cut), last);
      if published then Recorded(t, true) else t
  }

  function Queued(s: Start): Start {
    var t := s.(sequence := s.sequence + 1, queued := s.queued + 1);
    if s.queue < KEPT then t.(queue := s.queue + 1)
    else t.(overflowed := s.overflowed + 1, status := s.status.(dropped := s.status.dropped + 1))
  }

  function Apply(s: Start, op: Op): Start {
    match op
    case Failing(f, reported) => Reported(Failed(s, f), reported)
    case Appending(f, reported, recorded) => Recorded(Queued(Reported(Failed(s, f), reported)), recorded)
    case Loading(cut, last) => Recorded(Settled(Read(s, cut), last), true).(ready := true)
  }

  predicate Run(ss: seq<Start>, ops: seq<Op>) {
    |ss| == |ops| + 1 && forall i :: 0 <= i < |ops| ==> !ss[i].ready && ss[i + 1] == Apply(ss[i], ops[i])
  }

  // ----- the books of a start

  function Carried(s: Start, found: Option<Health>): nat {
    if s.adopted && found.Some? then found.value.dropped else 0
  }

  function ChargedNow(s: Start, found: Option<Health>): nat {
    if s.charged.Some? && found.Some? && found.value.count > 0 then Charge(found.value, s.charged.value) else 0
  }

  /** Every queued entry is still queued or was given up, and the drop count is what was carried over and charged, and
      the entries given up that no adoption erased. Only the record found at the start can still be adopted. */
  predicate Balanced(s: Start, found: Option<Health>) {
    && s.queued == s.queue + s.overflowed && s.queue <= KEPT && (s.overflowed > 0 ==> s.queue == KEPT)
    && s.erased <= s.overflowed && s.queue <= s.sequence
    && s.status.dropped == Carried(s, found) + ChargedNow(s, found) + s.overflowed - s.erased
    && (if s.adopted then found.Some? && !Adopts(s) else s.erased == 0 && s.charged.None?)
    && (Adopts(s) ==> s.health == found)
    && (s.charged.Some? ==>
          s.adopted && found.value.count > 0 && End(found.value) <= s.sequence - s.queue && s.erased == 0)
  }

  /** Between two steps the status names the queue. */
  predicate Steady(s: Start, found: Option<Health>) {
    Balanced(s, found) && s.status.count == s.queue
  }

  /** Within a load it may name the range just adopted instead. */
  predicate Loaded(s: Start, found: Option<Health>) {
    && Balanced(s, found)
    && (s.status.count == s.queue
        || (s.adopted && s.charged.None? && s.status.first == found.value.first && s.status.count == found.value.count))
  }

  /** The record found is still there, counting more failures than this process. */
  predicate Waits(s: Start, found: Option<Health>) {
    s.health == found && Adopts(s)
  }

  predicate Reads(op: Op) {
    op.Loading? || !op.failure.Unread?
  }

  predicate Settles(op: Op) {
    op.Loading? || op.failure.Unsettled?
  }

  predicate Silent(op: Op) {
    !Reads(op) && !op.reported && (op.Appending? ==> !op.recorded)
  }

  lemma ReadLoaded(s: Start, cut: nat, found: Option<Health>)
    requires Steady(s, found)
    ensures Loaded(Read(s, cut), found) && !Adopts(Read(s, cut))
  {
    hide Charge;
  }

  lemma SettledBalanced(s: Start, last: nat, found: Option<Health>)
    requires Loaded(s, found) && !Adopts(s)
    ensures Balanced(Settled(s, last), found) && !Adopts(Settled(s, last))
  {
    hide Charge;
    if s.queue == 0 && s.status.count > 0 {
      SameCharge(s.status, found.value, last);
    }
  }

  lemma SameCharge(a: Health, b: Health, last: nat)
    requires a.count == b.count > 0 && a.first == b.first
    ensures Charge(a, last) == Charge(b, last)
  {
  }

  lemma FailedBalanced(s: Start, f: Failure, found: Option<Health>)
    requires Steady(s, found)
    ensures Balanced(Failed(s, f), found)
  {
    hide Balanced, Read, Settled;
    match f {
      case Unread =>
      case Unscanned(cut) => ReadLoaded(s, cut, found);
      case Unsettled(cut, last, published) =>
        ReadLoaded(s, cut, found);
        SettledBalanced(Read(s, cut), last, found);
        LoadedSteady(Settled(Read(s, cut), last), found);
        SteadyBalanced(Recorded(Settled(Read(s, cut), last), true), found);
    }
  }

  lemma SteadyBalanced(s: Start, found: Option<Health>)
    requires Steady(s, found)
    ensures Balanced(s, found)
  {
  }

  lemma ReportedSteady(s: Start, written: bool, found: Option<Health>)
    requires Balanced(s, found)
    ensures Steady(Reported(s, written), found)
  {
    hide Charge;
  }

  lemma QueuedSteady(s: Start, written: bool, found: Option<Health>)
    requires Steady(s, found)
    ensures Steady(Recorded(Queued(s), written), found)
  {
    hide Charge;
  }

  lemma LoadedSteady(s: Start, found: Option<Health>)
    requires Balanced(s, found) && !Adopts(s)
    ensures Steady(Recorded(s, true), found) && Steady(Recorded(s, true).(ready := true), found)
  {
    hide Charge;
  }

  lemma StepSteady(s: Start, op: Op, found: Option<Health>)
    requires Steady(s, found)
    ensures Steady(Apply(s, op), found)
  {
    hide Balanced, Steady, Loaded, Recorded, Reported, Queued, Settled, Read, Failed;
    match op {
      case Failing(f, reported) =>
        FailedBalanced(s, f, found);
        ReportedSteady(Failed(s, f), reported, found);
      case Appending(f, reported, recorded) =>
        FailedBalanced(s, f, found);
        ReportedSteady(Failed(s, f), reported, found);
        QueuedSteady(Reported(Failed(s, f), reported), recorded, found);
      case Loading(cut, last) =>
        ReadLoaded(s, cut, found);
        SettledBalanced(Read(s, cut), last, found);
        LoadedSteady(Settled(Read(s, cut), last), found);
    }
  }

  lemma FailedDecides(s: Start, f: Failure, found: Option<Health>)
    requires Steady(s, found)
    ensures
      var t, taken := Failed(s, f), Waits(s, found) && !f.Unread?;
      && (t.adopted <==> s.adopted || taken) && t.erased == (if taken then s.overflowed else s.erased)
      && (t.charged.Some? <==> s.charged.Some? || (taken && f.Unsettled? && s.queue == 0 && found.value.count > 0))
      && (s.charged.Some? ==> t.charged == s.charged)
      && if f.Unread? then t == s else !Adopts(t)
  {
    hide Charge, ChargedNow, Carried;
  }

  lemma LoadingIs(s: Start, cut: nat, last: nat, published: bool)
    ensures Apply(s, Loading(cut, last)) == Recorded(Failed(s, Unsettled(cut, last, published)), true).(ready := true)
  {
  }

  lemma FailedKeepsReady(s: Start, f: Failure)
    ensures Failed(s, f).ready == s.ready
  {
    hide Charge;
  }

  function Stage(op: Op): Failure {
    if op.Loading? then Unsettled(op.cut, op.last, false) else op.failure
  }

  /** A step adopts the record exactly when it reads it while it waits, and that erases what was given up until then. It
      charges the recorded range exactly when it also gets that far and nothing is queued. */
  lemma StepDecides(s: Start, op: Op, found: Option<Health>)
    requires Steady(s, found)
    ensures
      var t, taken := Apply(s, op), Waits(s, found) && Reads(op);
      && (t.adopted <==> s.adopted || taken) && t.erased == (if taken then s.overflowed else s.erased)
      && (t.charged.Some? <==> s.charged.Some? || (taken && Settles(op) && s.queue == 0 && found.value.count > 0))
      && (s.charged.Some? ==> t.charged == s.charged)
  {
    hide Failed, Steady, Waits, Described;
    FailedDecides(s, Stage(op), found);
    if op.Loading? {
      LoadingIs(s, op.cut, op.last, false);
    }
  }

  /** The record goes on waiting exactly when the load fails before reading it and no report reaches the disk. */
  lemma StepWaits(s: Start, op: Op, found: Option<Health>)
    requires Steady(s, found)
    ensures
      Waits(Apply(s, op), found) <==> Waits(s, found) && Silent(op) && s.status.failures + 1 < found.value.failures
    ensures Silent(op) ==> Apply(s, op).status.failures == s.status.failures + 1
  {
    hide Failed, Steady;
    FailedDecides(s, Stage(op), found);
    if op.Loading? {
      LoadingIs(s, op.cut, op.last, false);
    }
  }

  lemma StepQueues(s: Start, op: Op)
    ensures Apply(s, op).queued == s.queued + if op.Appending? then 1 else 0
  {
    hide Charge;
  }

  // ----- whole starts

  /** The step that reads a record of this many failures in time, and how many entries are queued by then. */
  function Reading(ops: seq<Op>, failures: nat, queued: nat): Option<(Op, nat)> {
    if ops == [] || failures == 0 then None
    else if Reads(ops[0]) then Some((ops[0], queued))
    else if Silent(ops[0]) then Reading(ops[1..], failures - 1, queued + if ops[0].Appending? then 1 else 0)
    else None
  }

  function GivenUp(queued: nat): nat {
    if queued > KEPT then queued - KEPT else 0
  }

  lemma {:induction false} QueuedIs(ss: seq<Start>, ops: seq<Op>)
    requires Run(ss, ops)
    ensures ss[|ops|].queued == ss[0].queued + Appends(ops)
    decreases |ops|
  {
    hide Apply;
    if ops != [] {
      assert ss[1] == Apply(ss[0], ops[0]);
      StepQueues(ss[0], ops[0]);
      QueuedIs(ss[1..], ops[1..]);
    }
  }

  /** Once the record no longer waits nothing is adopted, charged or erased any more. */
  lemma {:induction false} Decided(ss: seq<Start>, ops: seq<Op>, found: Option<Health>)
    requires Run(ss, ops) && Steady(ss[0], found) && !Waits(ss[0], found)
    ensures
      var first, last := ss[0], ss[|ops|];
      && Steady(last, found) && last.adopted == first.adopted && last.charged == first.charged
      && last.erased == first.erased
    decreases |ops|
  {
    hide Steady, Apply, Waits;
    if ops != [] {
      assert ss[1] == Apply(ss[0], ops[0]);
      StepSteady(ss[0], ops[0], found);
      StepDecides(ss[0], ops[0], found);
      StepWaits(ss[0], ops[0], found);
      Decided(ss[1..], ops[1..], found);
    }
  }

  /** What a run decides about a record that waits at its beginning. */
  predicate Outcome(last: Start, reading: Option<(Op, nat)>, h: Health) {
    && (last.adopted <==> reading.Some?)
    && last.erased == (if reading.Some? then GivenUp(reading.value.1) else 0)
    && (last.charged.Some? <==> reading.Some? && Settles(reading.value.0) && reading.value.1 == 0 && h.count > 0)
  }

  lemma {:induction false} Decides(ss: seq<Start>, ops: seq<Op>, h: Health)
    requires Run(ss, ops) && Steady(ss[0], Some(h)) && Waits(ss[0], Some(h)) && !ss[0].adopted
    ensures Steady(ss[|ops|], Some(h))
    ensures Outcome(ss[|ops|], Reading(ops, h.failures - ss[0].status.failures, ss[0].queued), h)
    decreases |ops|
  {
    hide Steady, Apply, Waits;
    var s := ss[0];
    Unadopted(s, h);
    if ops != [] {
      assert ss[1] == Apply(s, ops[0]);
      StepSteady(s, ops[0], Some(h));
      StepDecides(s, ops[0], Some(h));
      StepWaits(s, ops[0], Some(h));
      StepQueues(s, ops[0]);
      if Waits(ss[1], Some(h)) {
        Decides(ss[1..], ops[1..], h);
      } else {
        Decided(ss[1..], ops[1..], Some(h));
        if !Reads(ops[0]) {
          NoneInTime(ops, h.failures - s.status.failures, s.queued);
        }
      }
    }
  }

  lemma Unadopted(s: Start, h: Health)
    requires Steady(s, Some(h)) && Waits(s, Some(h))
    ensures s.status.failures < h.failures && s.overflowed == GivenUp(s.queued) && (s.queue == 0 <==> s.queued == 0)
    ensures !s.adopted ==> s.charged.None? && s.erased == 0
  {
  }

  lemma NoneInTime(ops: seq<Op>, failures: nat, queued: nat)
    requires ops != [] && !Reads(ops[0]) && (failures <= 1 || !Silent(ops[0]))
    ensures Reading(ops, failures, queued) == None
  {
  }

  /**
   Over every start on a disk with record h, from its first load to the one that succeeds: the record is adopted
   exactly when some load reads it in time, its range is charged exactly when that load also gets through the segments
   and nothing is queued yet, and entries given up before an adoption are all that the drop count lacks.
   */
  lemma RestartExact(ss: seq<Start>, ops: seq<Op>, h: Health)
    requires Run(ss, ops) && ss[0] == Fresh(Some(h))
    ensures
      var last, reading := ss[|ops|], Reading(ops, h.failures, 0);
      && Balanced(last, Some(h)) && Outcome(last, reading, h)
      && (last.charged.Some? ==>
            last.status.dropped == h.dropped + Charge(h, last.charged.value) + last.overflowed
            && End(h) <= last.sequence - last.queue)
  {
    hide Apply, Reading;
    if h.failures > 0 {
      Decides(ss, ops, h);
    } else {
      Decided(ss, ops, Some(h));
      TooFew(ops);
    }
  }

  lemma TooFew(ops: seq<Op>)
    ensures Reading(ops, 0, 0) == None
  {
  }

  function Appends(ops: seq<Op>): nat {
    if ops == [] then 0 else Appends(ops[1..]) + if ops[0].Appending? then 1 else 0
  }

  predicate ReadAt(ops: seq<Op>, failures: nat, k: nat) {
    k < |ops| && k < failures && Reads(ops[k]) && forall i :: 0 <= i < k ==> Silent(ops[i])
  }

  /** Reading in terms of the run: every load before it failed early and left no trace on disk, and there were fewer of
      them than the record counts failures. */
  lemma {:induction false} ReadingIs(ops: seq<Op>, failures: nat, queued: nat, op: Op, n: nat)
    ensures Reading(ops, failures, queued) == Some((op, n)) <==>
      exists k: nat :: ReadAt(ops, failures, k) && op == ops[k] && n == queued + Appends(ops[..k])
    decreases |ops|
  {
    hide Reads;
    if ops != [] && failures > 0 {
      if Reads(ops[0]) {
        assert ReadAt(ops, failures, 0) && ops[..0] == [];
      } else if Silent(ops[0]) {
        var q := queued + if ops[0].Appending? then 1 else 0;
        ReadingIs(ops[1..], failures - 1, q, op, n);
        forall k: nat | k < |ops| - 1
          ensures ReadAt(ops[1..], failures - 1, k) <==> ReadAt(ops, failures, k + 1)
          ensures q + Appends(ops[1..][..k]) == queued + Appends(ops[..k + 1])
        {
          Shift(ops, failures, k);
        }
        if k: nat :| ReadAt(ops, failures, k) && op == ops[k] && n == queued + Appends(ops[..k]) {
          assert k > 0 && ReadAt(ops[1..], failures - 1, k - 1) && op == ops[1..][k - 1];
        }
      }
    }
  }

  lemma Shift(ops: seq<Op>, failures: nat, k: nat)
    requires k < |ops| - 1 && failures > 0 && Silent(ops[0])
    ensures ReadAt(ops[1..], failures - 1, k) <==> ReadAt(ops, failures, k + 1)
    ensures Appends(ops[..k + 1]) == Appends(ops[1..][..k]) + if ops[0].Appending? then 1 else 0
  {
    assert ops[..k + 1][1..] == ops[1..][..k];
    if ReadAt(ops[1..], failures - 1, k) {
      forall i | 0 <= i < k + 1 ensures Silent(ops[i]) {
        if i > 0 {
          assert Silent(ops[1..][i - 1]);
        }
      }
    }
    if ReadAt(ops, failures, k + 1) {
      forall i | 0 <= i < k ensures Silent(ops[1..][i]) {
        assert Silent(ops[i + 1]);
      }
    }
  }

  // ----- numbers

  predicate Below(op: Op, end: int) {
    && (op.Loading? ==> op.last < end)
    && (!op.Loading? && op.failure.Unsettled? ==> op.failure.last < end)
  }

  /** With nothing queued, and the range not reached on disk, the next number passes the range exactly when it was
      charged: otherwise its numbers are given out a second time. */
  lemma NumbersPassRange(ss: seq<Start>, ops: seq<Op>, h: Health)
    requires Run(ss, ops) && ss[0] == Fresh(Some(h)) && h.first > 0 && h.count > 0
    requires forall op <- ops :: !op.Appending? && Below(op, End(h))
    ensures End(h) <= ss[|ops|].sequence <==> ss[|ops|].charged.Some?
  {
    hide Apply, Outcome, Reading;
    RestartExact(ss, ops, h);
    QueuedIs(ss, ops);
    NoAppends(ops);
    StaysBelow(ss, ops, h);
  }

  lemma {:induction false} NoAppends(ops: seq<Op>)
    requires forall op <- ops :: !op.Appending?
    ensures Appends(ops) == 0
  {
    if ops != [] {
      assert ops[0] in ops && forall op <- ops[1..] :: op in ops;
      NoAppends(ops[1..]);
    }
  }

  predicate Behind(s: Start, h: Health) {
    s.queue == 0 && (s.charged.None? ==> s.sequence < End(h))
  }

  lemma {:induction false} StaysBelow(ss: seq<Start>, ops: seq<Op>, h: Health)
    requires Run(ss, ops) && Behind(ss[0], h)
    requires forall op <- ops :: !op.Appending? && Below(op, End(h))
    ensures Behind(ss[|ops|], h)
    decreases |ops|
  {
    hide Apply, Below, Behind;
    if ops != [] {
      assert ops[0] in ops && forall op <- ops[1..] :: op in ops;
      assert ss[1] == Apply(ss[0], ops[0]);
      StepBelow(ss[0], ops[0], h);
      StaysBelow(ss[1..], ops[1..], h);
    }
  }

  lemma StepBelow(s: Start, op: Op, h: Health)
    requires Behind(s, h) && !op.Appending? && Below(op, End(h))
    ensures Behind(Apply(s, op), h)
  {
    hide Charge;
  }

  // ----- starts that lose something

  function Trace(s: Start, ops: seq<Op>): (ss: seq<Start>)
    ensures |ss| == |ops| + 1 && ss[0] == s
    decreases |ops|
  {
    if ops == [] then [s] else [s] + Trace(Apply(s, ops[0]), ops[1..])
  }

  lemma {:induction false} TraceRuns(s: Start, ops: seq<Op>)
    requires !s.ready && forall i :: 0 <= i < |ops| - 1 ==> !ops[i].Loading?
    ensures Run(Trace(s, ops), ops)
    decreases |ops|
  {
    if ops != [] {
      var t, rest := Apply(s, ops[0]), ops[1..];
      if rest != [] {
        assert !ops[0].Loading?;
        StillLoading(s, ops[0]);
        TraceRuns(t, rest);
      }
      forall i | 0 <= i < |ops|
        ensures !Trace(s, ops)[i].ready && Trace(s, ops)[i + 1] == Apply(Trace(s, ops)[i], ops[i])
      {
        if i > 0 {
          assert Trace(s, ops)[i] == Trace(t, rest)[i - 1] && ops[i] == rest[i - 1];
        }
      }
    }
  }

  lemma StillLoading(s: Start, op: Op)
    requires !s.ready && !op.Loading?
    ensures !Apply(s, op).ready
  {
    hide Charge;
  }

  /** Disk ends at 7 and 8, 9 and 10 were waiting. */
  const THREE_LOST := Health(3, 0, 0, true, 8, 3)

  /** The first load fails on a segment and reports it. */
  const LOST_RANGE := [Failing(Unscanned(0), true), Loading(0, 7)]

  /** The start succeeds with nothing dropped, and the next number is 8 again. */
  lemma FailedLoadLosesRange()
    ensures
      var ss := Trace(Fresh(Some(THREE_LOST)), LOST_RANGE);
      && Run(ss, LOST_RANGE) && ss[2].ready && ss[2].status.dropped == 0 && ss[2].sequence == 7
      && Charge(THREE_LOST, 7) == 3
  {
    TraceRuns(Fresh(Some(THREE_LOST)), LOST_RANGE);
    var s := Apply(Fresh(Some(THREE_LOST)), LOST_RANGE[0]);
    assert LOST_RANGE[1..][0] == LOST_RANGE[1];
  }

  function Silently(n: nat): seq<Op> {
    seq(n, i => Appending(Unread, false, false))
  }

  lemma {:induction false} SilentlyReads(n: nat, last: Op, failures: nat, queued: nat)
    requires n < failures && Reads(last) && !last.Appending?
    ensures Reading(Silently(n) + [last], failures, queued) == Some((last, queued + n))
    ensures Appends(Silently(n) + [last]) == n
    decreases n
  {
    var ops := Silently(n) + [last];
    if n == 0 {
      assert ops == [last];
    } else {
      assert ops[1..] == Silently(n - 1) + [last];
      SilentlyReads(n - 1, last, failures - 1, queued + 1);
    }
  }

  const MANY := Health(KEPT + 2, 0, 0, true, 8, 3)

  /** The directory cannot even be read until 2001 entries have come, of which the queue gave one up; then the record is
      adopted. The count of that entry is gone, and nothing is charged for the range. */
  lemma AdoptionErasesCount()
    ensures
      var ops := Silently(KEPT + 1) + [Loading(0, 7)];
      var ss := Trace(Fresh(Some(MANY)), ops);
      && Run(ss, ops) && ss[|ops|].overflowed == 1 && ss[|ops|].status.dropped == 0 && ss[|ops|].charged.None?
  {
    hide Apply, Trace, Reading;
    var ops := Silently(KEPT + 1) + [Loading(0, 7)];
    var ss := Trace(Fresh(Some(MANY)), ops);
    TraceRuns(Fresh(Some(MANY)), ops);
    SilentlyReads(KEPT + 1, Loading(0, 7), MANY.failures, 0);
    RestartExact(ss, ops, MANY);
    QueuedIs(ss, ops);
  }
}
