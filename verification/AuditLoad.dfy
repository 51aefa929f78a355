/** What a restart makes of the audit directory: the scan of the segments and the charge for lost records. */
module AuditLoad {
  import opened Options
  import opened Sets
  import opened AuditLog

  /** health.json; degraded stands for a non-empty last error. */
  datatype Health = Health(failures: nat, dropped: nat, tails: nat, degraded: bool, first: nat, count: nat)

  function Range(from: nat, end: nat): (ns: set<nat>)
    ensures forall n :: n in ns <==> from <= n < end
    ensures |ns| == (if from <= end then end - from else 0)
    decreases end
  {
    if end <= from then {} else Range(from, end - 1) + {end - 1}
  }

  /** The numbers a health record names as still waiting. */
  function Waiting(h: Health): set<nat> {
    Range(h.first, h.first + h.count)
  }

  /** The status a load starts from: the recorded one if it has seen more failures. */
  function Adopted(status: Health, health: Option<Health>): Health {
    if health.Some? && health.value.failures > status.failures then health.value else status
  }

  /** The load's subtraction: end minus the larger of the last number on disk and the one before the range. */
  function Charge(h: Health, last: nat): nat
    requires h.count > 0
  {
    var end := h.first + h.count - 1;
    if last < end then end - (if last < h.first then h.first - 1 else last) else 0
  }

  /** The last number on disk bounds every other. */
  ghost predicate EndsAt(disk: map<nat, seq<Record>>, last: nat) {
    && (forall s <- disk :: forall r <- disk[s] :: r.sequence <= last)
    && (last > 0 ==> OnDisk(disk, last))
  }

  /** The charge counts the waiting numbers above everything on disk. */
  lemma ChargeCounts(h: Health, last: nat)
    requires h.count > 0
    ensures Charge(h, last) == |set n <- Waiting(h) | n > last|
  {
    var end := h.first + h.count - 1;
    var lost := set n <- Waiting(h) | n > last;
    assert lost == Range(if last < h.first then h.first else last + 1, end + 1);
  }

  /** It is the number of waiting records that are not on disk exactly when disk has no gap among them. */
  lemma ChargeIsExact(h: Health, disk: map<nat, seq<Record>>, last: nat)
    requires h.count > 0 && EndsAt(disk, last)
    ensures Charge(h, last) <= |set n <- Waiting(h) | !OnDisk(disk, n)|
    ensures Charge(h, last) == |set n <- Waiting(h) | !OnDisk(disk, n)|
        <==> forall n <- Waiting(h) :: n <= last ==> OnDisk(disk, n)
  {
    var above := set n <- Waiting(h) | n > last;
    var missing := set n <- Waiting(h) | !OnDisk(disk, n);
    ChargeCounts(h, last);
    assert above <= missing by {
      forall n | n in above && OnDisk(disk, n) ensures false {
      }
    }
    SubsetSize(above, missing);
    if forall n <- Waiting(h) :: n <= last ==> OnDisk(disk, n) {
      assert missing <= above;
    } else {
      var n :| n in Waiting(h) && n <= last && !OnDisk(disk, n);
      assert n in missing && n !in above;
    }
  }

  /** Records 1 and 2 were waiting and only 2 reached the disk: nothing is charged for record 1. */
  lemma ChargeMissesGap()
    ensures
      var h, disk := Health(1, 0, 0, true, 1, 2), map[1 := [Record(2, "e")]];
      EndsAt(disk, 2) && Charge(h, 2) == 0 && (set n <- Waiting(h) | !OnDisk(disk, n)) == {1}
  {
    var disk: map<nat, seq<Record>> := map[1 := [Record(2, "e")]];
    assert 1 in disk && Record(2, "e") in disk[1];
    assert forall r <- disk[1] :: r == Record(2, "e");
  }

  // ----- the scan

  /** What a load accepts: numbers positive and strictly increasing in reading order. */
  ghost predicate InOrder(disk: map<nat, seq<Record>>) {
    AscendingDisk(disk) && forall s <- disk :: forall r <- disk[s] :: r.sequence > 0
  }

  ghost predicate Rising(rs: seq<Record>, from: nat) {
    AscendingRecords(rs) && forall r <- rs :: r.sequence > from
  }

  function LastOf(rs: seq<Record>, from: nat): nat {
    if rs == [] then from else rs[|rs| - 1].sequence
  }

  method ScanSegment(rs: seq<Record>, from: nat) returns (ok: bool, last: nat)
    ensures ok <==> Rising(rs, from)
    ensures ok ==> last == LastOf(rs, from)
  {
    last := from;
    for i := 0 to |rs|
      invariant Rising(rs[..i], from) && last == LastOf(rs[..i], from)
    {
      if rs[i].sequence == 0 || rs[i].sequence <= last {
        assert rs[i] in rs;
        return false, last;
      }
      last := rs[i].sequence;
      assert rs[..i + 1] == rs[..i] + [rs[i]];
    }
    assert rs[..|rs|] == rs;
    ok := true;
  }

  /** The segments read so far are in order and last is their highest number. */
  ghost predicate Scanned(disk: map<nat, seq<Record>>, names: seq<nat>, last: nat) {
    && (forall n <- names :: n in disk && Rising(disk[n], 0) && forall r <- disk[n] :: r.sequence <= last)
    && (forall i, j :: 0 <= i < j < |names| ==> Before(disk, names[i], names[j]))
    && (last > 0 ==> exists n <- names :: Holds(disk, n, last))
  }

  ghost predicate Before(disk: map<nat, seq<Record>>, m: nat, n: nat) {
    m in disk && n in disk && forall r <- disk[m] :: forall q <- disk[n] :: r.sequence < q.sequence
  }

  ghost predicate Holds(disk: map<nat, seq<Record>>, n: nat, number: nat) {
    n in disk && exists r <- disk[n] :: r.sequence == number
  }

  lemma LastHolds(rs: seq<Record>, from: nat)
    requires Rising(rs, from)
    ensures from <= LastOf(rs, from)
    ensures forall r <- rs :: r.sequence <= LastOf(rs, from)
    ensures LastOf(rs, from) == from || exists r <- rs :: r.sequence == LastOf(rs, from)
  {
    if rs != [] {
      assert rs[|rs| - 1] in rs;
      forall r | r in rs ensures r.sequence <= rs[|rs| - 1].sequence {
        var k :| 0 <= k < |rs| && rs[k] == r;
      }
    }
  }

  lemma ScannedOne(disk: map<nat, seq<Record>>, names: seq<nat>, s: nat, from: nat)
    requires s in disk && Scanned(disk, names, from) && Rising(disk[s], from)
    ensures Scanned(disk, names + [s], LastOf(disk[s], from)) && from <= LastOf(disk[s], from)
  {
    hide AscendingRecords;
    var last, all := LastOf(disk[s], from), names + [s];
    LastHolds(disk[s], from);
    if last > from {
      assert Holds(disk, s, last) && s in all;
    } else if last > 0 {
      var n :| n in names && Holds(disk, n, last);
      assert n in all;
    }
    forall i, j | 0 <= i < j < |all| ensures Before(disk, all[i], all[j]) {
      if j < |names| {
        assert Before(disk, names[i], names[j]);
      } else {
        assert all[i] in names;
      }
    }
  }

  lemma OutOfOrder(disk: map<nat, seq<Record>>, names: seq<nat>, s: nat, from: nat)
    requires s in disk && Scanned(disk, names, from) && !Rising(disk[s], from)
    requires forall n <- names :: n < s
    ensures !InOrder(disk)
  {
    if AscendingRecords(disk[s]) {
      var r :| r in disk[s] && r.sequence <= from;
      if from > 0 {
        var n :| n in names && Holds(disk, n, from);
        var q :| q in disk[n] && q.sequence == from;
        assert n < s;
      }
    }
  }

  ghost predicate SortedNames(names: seq<nat>) {
    forall i, j :: 0 <= i < j < |names| ==> names[i] < names[j]
  }

  lemma ScannedAll(disk: map<nat, seq<Record>>, names: seq<nat>, last: nat)
    requires Scanned(disk, names, last) && (forall n :: n in names <==> n in disk) && SortedNames(names)
    ensures InOrder(disk) && EndsAt(disk, last)
  {
    hide AscendingRecords, SortedNames;
    SortedEarlier(names);
    forall m, n | m in disk && n in disk && m < n ensures Before(disk, m, n) {
      var i :| 0 <= i < |names| && names[i] == m;
      var j :| 0 <= j < |names| && names[j] == n;
      assert names[i] < names[j] && i < j;
    }
    if last > 0 {
      var n :| n in names && Holds(disk, n, last);
    }
  }

  lemma SortedEarlier(names: seq<nat>)
    requires SortedNames(names)
    ensures forall i, j :: 0 <= i < |names| && 0 <= j < |names| && names[i] < names[j] ==> i < j
  {
  }

  /** Segment numbers in order, as the file names sort. */
  method SortedSegments(disk: map<nat, seq<Record>>) returns (names: seq<nat>)
    ensures (forall n :: n in names <==> n in disk) && SortedNames(names)
  {
    names := [];
    var rest := disk.Keys;
    while rest != {}
      invariant rest <= disk.Keys && forall n :: n in names <==> n in disk && n !in rest
      invariant SortedNames(names) && forall n <- names :: forall m <- rest :: n < m
      decreases rest
    {
      var least := Least(rest);
      assert forall i :: 0 <= i < |names| ==> names[i] in names;
      names, rest := names + [least], rest - {least};
    }
  }

  method Least(s: set<nat>) returns (least: nat)
    requires s != {}
    ensures least in s && forall n <- s :: least <= n
  {
    least :| least in s;
    var rest := s - {least};
    while rest != {}
      invariant rest <= s && least in s && forall n <- s :: n in rest || least <= n
      decreases rest
    {
      var n :| n in rest;
      if n < least {
        least := n;
      }
      rest := rest - {n};
    }
  }

  /**
   Read every segment in order. A torn last line is cut back to the records before it, one failure counted
   for each; numbers that do not rise end the load.
   */
  method Scan(disk: map<nat, seq<Record>>, torn: set<nat>, calm: bool)
    returns (ok: bool, last: nat, newest: nat, left: set<nat>)
    requires torn <= disk.Keys
    ensures left <= torn
    ensures ok ==> left == {} && InOrder(disk) && EndsAt(disk, last)
    ensures ok ==> forall s <- disk :: s <= newest
    ensures calm ==> (ok <==> InOrder(disk))
  {
    hide Scanned, Rising, AscendingDisk;
    var names := SortedSegments(disk);
    last, newest, left := 0, 0, torn;
    NothingScanned(disk);
    for i := 0 to |names|
      invariant Scanned(disk, names[..i], last) && left <= torn
      invariant forall n <- names[..i] :: n <= newest && n !in left
    {
      var s := names[i];
      assert s in names && names[..i + 1] == names[..i] + [s];
      ok := *;
      if !ok && !calm {
        return;
      }
      var from := last;
      ok, last := ScanSegment(disk[s], from);
      if !ok {
        OutOfOrder(disk, names[..i], s, from);
        return;
      }
      ScannedOne(disk, names[..i], s, from);
      left := left - {s};
      if s > newest {
        newest := s;
      }
    }
    assert names[..|names|] == names;
    ScannedAll(disk, names, last);
    assert left == {};
    ok := true;
  }

  lemma NothingScanned(disk: map<nat, seq<Record>>)
    ensures Scanned(disk, [], 0)
  {
  }

  // ----- the new books

  /** Records queued before the load are numbered again behind everything known. */
  function Renumbered(queue: seq<Record>, from: nat): (r: seq<Record>) {
    seq(|queue|, i requires 0 <= i < |queue| => Record(from + 1 + i, queue[i].entry))
  }

  ghost function Entries(queue: seq<Record>, from: nat): map<nat, string> {
    map r <- Renumbered(queue, from) :: r.sequence := r.entry
  }

  ghost function Fresh(queue: seq<Record>, from: nat, written: nat, segment: nat, disk: map<nat, seq<Record>>): Log {
    var queued := Renumbered(queue, from);
    Log(from, from + |queue|, queued, written, segment, disk, 0,
        Entries(queue, from), {}, {})
  }

  /** The numbers a new process counts from lie at or above everything recorded, so its books start sound. */
  lemma FreshSound(queue: seq<Record>, from: nat, written: nat, segment: nat, disk: map<nat, seq<Record>>)
    requires |queue| <= KEPT && written <= from && AscendingDisk(disk)
    requires forall s <- disk :: s <= segment && forall r <- disk[s] :: r.sequence <= written
    ensures Sound(Fresh(queue, from, written, segment, disk))
  {
  }

  method Renumber(queue: seq<Record>, from: nat) returns (queued: seq<Record>, sequence: nat)
    ensures queued == Renumbered(queue, from) && sequence == from + |queue|
  {
    queued, sequence := queue, from;
    for i := 0 to |queue|
      invariant |queued| == |queue| && sequence == from + i
      invariant queued[..i] == Renumbered(queue, from)[..i] && queued[i..] == queue[i..]
    {
      sequence := sequence + 1;
      assert queued[i] == queue[i];
      queued := queued[i := queued[i].(sequence := sequence)];
    }
  }

  /** A queue that is already a contiguous range keeps its numbers. */
  lemma Requeued(log: Log)
    requires Sound(log)
    ensures |log.pending| <= KEPT && |log.pending| <= log.sequence
    ensures Renumbered(log.pending, log.sequence - |log.pending|) == log.pending
  {
  }

  /** Some oldest segments are gone, the others untouched. */
  ghost predicate Newest(before: map<nat, seq<Record>>, after: map<nat, seq<Record>>) {
    after.Keys <= before.Keys && (forall s <- after :: after[s] == before[s])
    && forall s <- after :: forall o <- before :: o > s ==> o in after
  }

  lemma NewestAscending(before: map<nat, seq<Record>>, after: map<nat, seq<Record>>)
    requires AscendingDisk(before) && Newest(before, after)
    ensures AscendingDisk(after)
  {
  }
}
