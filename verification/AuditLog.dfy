/**
 The audit log as a value: a queue of accepted records waiting to be written, numbered segments on disk,
 and the books kept about both. base is the number the running process started counting from.
 */
module AuditLog {
  const KEPT := 2000

  datatype Record = Record(sequence: nat, entry: string)

  /** accepted, everWritten and overflowed are history: what was admitted under each number, which numbers
      reached disk, and which were pushed out of a full queue. */
  datatype Log = Log(
    base: nat,
    sequence: nat,
    pending: seq<Record>,
    written: nat,
    segment: nat,
    disk: map<nat, seq<Record>>,
    dropped: nat,
    accepted: map<nat, string>,
    everWritten: set<nat>,
    overflowed: set<nat>)

  // ----- what is on disk

  predicate AscendingRecords(rs: seq<Record>) {
    forall i, j :: 0 <= i < j < |rs| ==> rs[i].sequence < rs[j].sequence
  }

  /** Numbers strictly increase within a segment and from one segment to any later one. */
  predicate AscendingDisk(disk: map<nat, seq<Record>>) {
    && (forall n <- disk :: AscendingRecords(disk[n]))
    && forall m, n | m in disk && n in disk && m < n ::
        forall r <- disk[m] :: forall q <- disk[n] :: r.sequence < q.sequence
  }

  predicate OnDisk(disk: map<nat, seq<Record>>, n: nat) {
    exists s <- disk :: exists r <- disk[s] :: r.sequence == n
  }

  // ----- the invariant

  /** The queue is the contiguous range of numbers that ends at the newest. */
  predicate Contiguous(log: Log) {
    && log.base + |log.pending| <= log.sequence && |log.pending| <= KEPT
    && forall i :: 0 <= i < |log.pending| ==> log.pending[i].sequence == log.sequence - |log.pending| + 1 + i
  }

  predicate DiskSound(log: Log) {
    && AscendingDisk(log.disk)
    && (forall s <- log.disk :: s <= log.segment)
    && (forall s <- log.disk :: forall r <- log.disk[s] :: r.sequence <= log.written)
    && (forall s <- log.disk :: forall r <- log.disk[s] ::
          r.sequence > log.base ==> r.sequence in log.accepted && log.accepted[r.sequence] == r.entry)
  }

  predicate Accounted(log: Log) {
    && log.written <= log.sequence
    && (log.pending != [] ==> log.written <= log.pending[0].sequence)
    && (forall n <- log.everWritten :: log.base < n <= log.written)
    && (forall n <- log.overflowed :: log.base < n <= log.sequence - |log.pending|)
    && (forall n <- log.accepted :: log.base < n <= log.sequence)
    && (forall r <- log.pending :: r.sequence in log.accepted && log.accepted[r.sequence] == r.entry)
    && (forall n :: log.base < n <= log.sequence ==>
          n in log.everWritten || n in log.overflowed || n > log.sequence - |log.pending|)
    && |log.overflowed| == log.dropped
    && (log.written > log.base ==> log.written in log.everWritten)
  }

  predicate Sound(log: Log) {
    log.base <= log.sequence && Contiguous(log) && DiskSound(log) && Accounted(log)
  }

  // ----- the steps

  /** Admit an entry; a full queue gives up its oldest record and counts it. */
  function Accept(log: Log, entry: string): Log {
    var n := log.sequence + 1;
    var queue := log.pending + [Record(n, entry)];
    var l := log.(sequence := n, accepted := log.accepted[n := entry]);
    if |queue| > KEPT then
      l.(pending := queue[1..], dropped := log.dropped + 1, overflowed := log.overflowed + {queue[0].sequence})
    else l.(pending := queue)
  }

  /** A full segment is left behind before the head record is written. */
  function Rotate(log: Log): Log {
    log.(segment := log.segment + 1)
  }

  /** Opening the newest segment for appending creates its file. */
  function Open(log: Log): Log {
    if log.segment in log.disk then log else log.(disk := log.disk[log.segment := []])
  }

  function Write(log: Log): Log
    requires log.pending != []
  {
    var r := log.pending[0];
    var before := if log.segment in log.disk then log.disk[log.segment] else [];
    log.(disk := log.disk[log.segment := before + [r]], written := r.sequence,
         everWritten := log.everWritten + {r.sequence})
  }

  /** The head record is durable. */
  function Advance(log: Log): Log
    requires log.pending != []
  {
    log.(pending := log.pending[1..])
  }

  function Retire(log: Log, s: nat): Log {
    log.(disk := log.disk - {s})
  }

  lemma AcceptSound(log: Log, entry: string)
    requires Sound(log)
    ensures Sound(Accept(log, entry))
  {
    hide Accounted, Contiguous, DiskSound;
    AcceptContiguous(log, entry);
    AcceptDisk(log, entry);
    if |log.pending| < KEPT {
      AcceptWithRoom(log, entry);
    } else {
      AcceptFull(log, entry);
    }
  }

  lemma AcceptContiguous(log: Log, entry: string)
    requires Contiguous(log)
    ensures Contiguous(Accept(log, entry))
    ensures log.base <= log.sequence
  {
  }

  lemma AcceptDisk(log: Log, entry: string)
    requires DiskSound(log) && Accounted(log)
    ensures DiskSound(Accept(log, entry))
  {
  }

  lemma AcceptWithRoom(log: Log, entry: string)
    requires Contiguous(log) && Accounted(log) && |log.pending| < KEPT
    ensures Accounted(Accept(log, entry))
  {
    var l := Accept(log, entry);
    forall n | log.base < n <= l.sequence
      ensures n in l.everWritten || n in l.overflowed || n > l.sequence - |l.pending|
    {
      if n <= log.sequence {
        assert n in log.everWritten || n in log.overflowed || n > log.sequence - |log.pending|;
      }
    }
  }

  lemma AcceptFull(log: Log, entry: string)
    requires Contiguous(log) && Accounted(log) && |log.pending| == KEPT
    ensures Accounted(Accept(log, entry))
  {
    var l := Accept(log, entry);
    assert (log.pending + [Record(l.sequence, entry)])[0] == log.pending[0];
    assert log.pending[0].sequence !in log.overflowed;
    forall n | log.base < n <= l.sequence
      ensures n in l.everWritten || n in l.overflowed || n > l.sequence - |l.pending|
    {
      if n <= log.sequence {
        assert n in log.everWritten || n in log.overflowed || n > log.sequence - |log.pending|;
      }
    }
  }

  lemma RecordsSnoc(before: seq<Record>, r: Record)
    requires AscendingRecords(before) && forall q <- before :: q.sequence < r.sequence
    ensures AscendingRecords(before + [r])
  {
  }

  lemma PairSnoc(earlier: seq<Record>, before: seq<Record>, r: Record)
    requires forall p <- earlier :: p.sequence < r.sequence && forall q <- before :: p.sequence < q.sequence
    ensures forall p <- earlier :: forall q <- before + [r] :: p.sequence < q.sequence
  {
  }

  /** A record with a number above all others may be appended to the newest segment. */
  lemma AppendAscending(disk: map<nat, seq<Record>>, segment: nat, before: seq<Record>, r: Record)
    requires AscendingDisk(disk) && before == (if segment in disk then disk[segment] else [])
    requires forall s <- disk :: s <= segment && forall q <- disk[s] :: q.sequence < r.sequence
    ensures AscendingDisk(disk[segment := before + [r]])
  {
    hide AscendingRecords;
    var after := disk[segment := before + [r]];
    EmptyAscending();
    RecordsSnoc(before, r);
    forall m, n | m in after && n in after && m < n
      ensures forall p <- after[m] :: forall q <- after[n] :: p.sequence < q.sequence
    {
      assert m in disk && after[m] == disk[m];
      if n == segment {
        PairSnoc(disk[m], before, r);
      }
    }
  }

  lemma EmptyAscending()
    ensures AscendingRecords([])
  {
  }

  lemma WriteDisk(log: Log)
    requires Sound(log) && log.pending != [] && log.written < log.pending[0].sequence
    ensures DiskSound(Write(log))
  {
    var r := log.pending[0];
    var before := if log.segment in log.disk then log.disk[log.segment] else [];
    AppendAscending(log.disk, log.segment, before, r);
    var l := Write(log);
    assert r in log.pending;
    forall s, q: Record | s in l.disk && q in l.disk[s]
      ensures q.sequence <= l.written
      ensures q.sequence > l.base ==> q.sequence in l.accepted && l.accepted[q.sequence] == q.entry
    {
      if s == log.segment && q != r {
        assert q in before;
      }
    }
  }

  lemma WriteSound(log: Log)
    requires Sound(log) && log.pending != [] && log.written < log.pending[0].sequence
    ensures Sound(Write(log))
  {
    WriteDisk(log);
  }

  lemma AdvanceSound(log: Log)
    requires Sound(log) && log.pending != [] && log.pending[0].sequence <= log.written
    ensures Sound(Advance(log))
  {
    var n := log.pending[0].sequence;
    assert n == log.written && n in log.everWritten;
  }

  /** Once its last record is on disk the queue has caught up. */
  lemma LastWritten(log: Log)
    requires Sound(log) && log.pending != [] && log.pending[0].sequence <= log.written
    ensures |log.pending| == 1 ==> log.written == log.sequence
  {
  }

  lemma RetireSound(log: Log, s: nat)
    requires Sound(log)
    ensures Sound(Retire(log, s))
  {
  }

  // ----- what the books say

  /** Every accepted record reached disk, is still queued, or was pushed out and counted. */
  lemma EveryRecordAccounted(log: Log, n: nat)
    requires Sound(log) && log.base < n <= log.sequence
    ensures n in log.everWritten || (exists r <- log.pending :: r.sequence == n) || n in log.overflowed
    ensures |log.overflowed| == log.dropped
  {
    if n > log.sequence - |log.pending| {
      var i := n - (log.sequence - |log.pending|) - 1;
      assert log.pending[i].sequence == n && log.pending[i] in log.pending;
    }
  }

  /** Dropped counts exactly the lost records unless a record already on disk was pushed out of the queue
      before its sync succeeded: then the count is too high. */
  lemma DroppedIsExact(log: Log)
    requires Sound(log)
    ensures |log.overflowed - log.everWritten| <= log.dropped
    ensures |log.overflowed - log.everWritten| == log.dropped <==> log.overflowed !! log.everWritten
  {
    var lost := log.overflowed - log.everWritten;
    var both := log.overflowed * log.everWritten;
    assert log.overflowed == lost + both && lost !! both;
    assert |log.overflowed| == |lost| + |both|;
  }

  /** The next overflow miscounts exactly when the head record was already written. */
  lemma OverflowMiscounts(log: Log, entry: string)
    requires Sound(log) && |log.pending| == KEPT && log.overflowed !! log.everWritten
    ensures Accept(log, entry).overflowed !! Accept(log, entry).everWritten <==> log.written < log.pending[0].sequence
  {
    var head := log.pending[0].sequence;
    assert (log.pending + [Record(log.sequence + 1, entry)])[0] == log.pending[0];
    assert head in Accept(log, entry).overflowed;
    assert log.written == head ==> head in log.everWritten;
  }

  // ----- whole runs

  datatype Op = Accepting(entry: string) | Rotating | Opening | Writing | Advancing | Retiring(s: nat)

  predicate Allowed(log: Log, op: Op) {
    match op
    case Accepting(_) => true
    case Rotating => true
    case Opening => true
    case Writing => log.pending != [] && log.written < log.pending[0].sequence
    case Advancing => log.pending != [] && log.pending[0].sequence <= log.written
    case Retiring(_) => true
  }

  function Apply(log: Log, op: Op): Log
    requires Allowed(log, op)
  {
    match op
    case Accepting(entry) => Accept(log, entry)
    case Rotating => Rotate(log)
    case Opening => Open(log)
    case Writing => Write(log)
    case Advancing => Advance(log)
    case Retiring(s) => Retire(log, s)
  }

  lemma StepSound(log: Log, op: Op)
    requires Sound(log) && Allowed(log, op)
    ensures Sound(Apply(log, op))
  {
    match op {
      case Accepting(entry) => AcceptSound(log, entry);
      case Rotating =>
      case Opening =>
      case Writing => WriteSound(log);
      case Advancing => AdvanceSound(log);
      case Retiring(s) => RetireSound(log, s);
    }
  }

  predicate Run(logs: seq<Log>, ops: seq<Op>) {
    |logs| == |ops| + 1
    && forall i :: 0 <= i < |ops| ==> Allowed(logs[i], ops[i]) && logs[i + 1] == Apply(logs[i], ops[i])
  }

  /** Over any mix of appends, failures, overflows and rotations the books balance. */
  lemma {:induction false} RunSound(logs: seq<Log>, ops: seq<Op>)
    requires Run(logs, ops) && Sound(logs[0])
    ensures forall l <- logs :: Sound(l)
    decreases |ops|
  {
    if ops != [] {
      StepSound(logs[0], ops[0]);
      RunSound(logs[1..], ops[1..]);
      assert logs == [logs[0]] + logs[1..];
    }
  }

  // ----- a run that counts a record nobody lost

  function Queue(n: nat): (rs: seq<Record>)
    ensures |rs| == n && forall i :: 0 <= i < n ==> rs[i] == Record(i + 1, "e")
  {
    if n == 0 then [] else Queue(n - 1) + [Record(n, "e")]
  }

  function Named(n: nat): map<nat, string> {
    if n == 0 then map[] else Named(n - 1)[n := "e"]
  }

  /** n records accepted and none of them written yet. */
  function Filled(n: nat): Log {
    Log(0, n, Queue(n), 0, 1, map[], 0, Named(n), {}, {})
  }

  /** The queue is full, its head is on disk but never synced, and one more record comes. */
  function MiscountOps(): seq<Op> {
    seq(KEPT, i => Accepting("e")) + [Opening, Writing, Accepting("e")]
  }

  function MiscountLogs(): seq<Log> {
    var ready := Open(Filled(KEPT));
    seq(KEPT + 1, i requires 0 <= i <= KEPT => Filled(i)) + [ready, Write(ready), Accept(Write(ready), "e")]
  }

  lemma FillOne(n: nat)
    requires n < KEPT
    ensures Accept(Filled(n), "e") == Filled(n + 1)
  {
    assert |Queue(n + 1)| == n + 1;
  }

  /** From an empty log: dropped becomes 1, and the record it counts is on disk. */
  lemma DroppedCountsWritten()
    ensures Run(MiscountLogs(), MiscountOps()) && MiscountLogs()[0] == Filled(0) && Sound(Filled(0))
    ensures
      var last := MiscountLogs()[|MiscountOps()|];
      last.dropped == 1 && last.overflowed == {1} && OnDisk(last.disk, 1) && last.overflowed - last.everWritten == {}
  {
    hide Accept, Filled;
    var logs, ops := MiscountLogs(), MiscountOps();
    FullOne();
    forall i: nat | i < KEPT ensures Accept(Filled(i), "e") == Filled(i + 1) {
      FillOne(i);
    }
    forall i | 0 <= i < |ops| ensures Allowed(logs[i], ops[i]) && logs[i + 1] == Apply(logs[i], ops[i]) {
      if {
        case i < KEPT =>
        case i == KEPT =>
        case i == KEPT + 1 =>
        case i == KEPT + 2 =>
      }
    }
  }

  lemma FullOne()
    ensures
      var ready := Open(Filled(KEPT));
      Sound(Filled(0)) && Allowed(ready, Writing)
    ensures
      var last := Accept(Write(Open(Filled(KEPT))), "e");
      last.dropped == 1 && last.overflowed == {1} == last.everWritten && OnDisk(last.disk, 1)
  {
    var written := Write(Open(Filled(KEPT)));
    var queue := written.pending + [Record(written.sequence + 1, "e")];
    assert queue[0] == written.pending[0] == Record(1, "e");
    var last := Accept(written, "e");
    assert Record(1, "e") in last.disk[1];
  }
}
