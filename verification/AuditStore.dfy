/** The audit store in place: Append with its write, sync and retry loop. */
module AuditStore {
  import opened Options
  import opened Effects
  import opened AuditLog
  import opened AuditLoad
  import AuditRestart

  const SEGMENTS_KEPT := 4

  function Texts(queue: seq<Record>): seq<string> {
    seq(|queue|, i requires 0 <= i < |queue| => queue[i].entry)
  }

  function Kept(texts: seq<string>): seq<string> {
    if |texts| > KEPT then texts[1..] else texts
  }

  lemma SameTexts(queue: seq<Record>, from: nat)
    ensures Texts(Renumbered(queue, from)) == Texts(queue)
  {
  }

  lemma AcceptTexts(log: Log, entry: string)
    ensures Texts(Accept(log, entry).pending) == Kept(Texts(log.pending) + [entry])
  {
    var queue := log.pending + [Record(log.sequence + 1, entry)];
    assert Texts(queue) == Texts(log.pending) + [entry];
    if |queue| > KEPT {
      assert Texts(queue[1..]) == Texts(queue)[1..];
    }
  }

  /** The two agree but for the range of waiting numbers, which the next report writes anew. */
  predicate SameButRange(a: Health, b: Health) {
    a.(first := 0, count := 0) == b.(first := 0, count := 0)
  }

  /** The newest segment gained these records, and of the others some oldest are gone. */
  ghost predicate Appended(before: map<nat, seq<Record>>, after: map<nat, seq<Record>>, segment: nat,
                           more: seq<Record>) {
    && segment in after && after[segment] == (if segment in before then before[segment] else []) + more
    && forall s <- after :: s != segment ==> s in before && after[s] == before[s]
  }

  lemma SegmentsBelow(log: Log)
    requires Sound(log)
    ensures forall s <- log.disk :: s <= log.segment
  {
  }

  lemma NewestKeeps(before: map<nat, seq<Record>>, after: map<nat, seq<Record>>, segment: nat)
    requires Newest(before, after) && after != map[] && segment in before && forall s <- before :: s <= segment
    ensures segment in after && forall s <- after :: s in before && after[s] == before[s]
  {
    var s :| s in after;
  }

  /** The queue ends at the newest number. */
  lemma QueueEnds(log: Log)
    requires Sound(log)
    ensures |log.pending| <= log.sequence && |log.pending| <= KEPT
    ensures log.pending != [] ==> log.pending[0].sequence == log.sequence - |log.pending| + 1
  {
  }

  class Store {
    var ready: bool
    var sequence: nat
    var pending: seq<Record>
    var written: nat
    var segment: nat
    var disk: map<nat, seq<Record>>
    /** Segments whose last line a crash left incomplete. */
    var torn: set<nat>
    var status: Health
    var health: Option<Health>
    /** How the start has gone so far. */
    ghost var start: AuditRestart.Start
    ghost var base: nat
    ghost var droppedBefore: nat
    ghost var accepted: map<nat, string>
    ghost var everWritten: set<nat>
    ghost var overflowed: set<nat>

    ghost function View(): Log
      reads this
    {
      Log(base, sequence, pending, if ready then written else 0, segment, if ready then disk else map[],
          if droppedBefore <= status.dropped then status.dropped - droppedBefore else 0,
          accepted, everWritten, overflowed)
    }

    /** The state of the start: the fields as they are, with the history kept beside them. */
    ghost function Progress(): AuditRestart.Start
      reads this
    {
      start.(status := status, health := health, sequence := sequence, queue := |pending|, ready := ready)
    }

    /** Before a load succeeds nothing is known about the disk and nothing is written. */
    ghost predicate Valid()
      reads this
    {
      && droppedBefore <= status.dropped && torn <= disk.Keys && (ready ==> torn == {})
      && Sound(View())
    }

    /** A new process over whatever an earlier one left. */
    constructor (disk: map<nat, seq<Record>>, torn: set<nat>, health: Option<Health>)
      requires torn <= disk.Keys
      ensures Valid() && !ready && this.disk == disk && this.torn == torn && this.health == health
      ensures pending == [] && Progress() == AuditRestart.Fresh(health)
    {
      ready, sequence, pending, written, segment := false, 0, [], 0, 0;
      this.disk, this.torn, this.health := disk, torn, health;
      status := Health(0, 0, 0, false, 0, 0);
      start := AuditRestart.Fresh(health);
      base, droppedBefore, accepted, everWritten, overflowed := 0, 0, map[], {}, {};
    }

    /** An error can follow the replacement of the file. */
    method SaveHealth(calm: bool) returns (ok: bool, ghost published: bool)
      modifies this`status, this`health
      ensures status == old(status).(first := if pending == [] then 0 else pending[0].sequence, count := |pending|)
      ensures health == if published then Some(status) else old(health)
      ensures (ok ==> published) && (calm ==> ok)
    {
      status := status.(first := if pending == [] then 0 else pending[0].sequence, count := |pending|);
      ok := Attempt(calm);
      var replaced: bool := *;
      if ok || replaced {
        health := Some(status);
      }
      published := ok || replaced;
    }

    method AuditFailure() returns (ghost published: bool)
      modifies this`status, this`health
      ensures status == old(status).(failures := old(status).failures + 1, degraded := true,
                                     first := if pending == [] then 0 else pending[0].sequence, count := |pending|)
      ensures health == if published then Some(status) else old(health)
    {
      status := status.(failures := status.failures + 1, degraded := true);
      var _, replaced := SaveHealth(false);
      published := replaced;
    }

    /** Number the entry and queue it; a full queue gives up its oldest record and counts it. */
    method Admit(entry: string)
      requires Valid()
      modifies this`sequence, this`pending, this`status, this`accepted, this`overflowed
      ensures Valid() && View() == Accept(old(View()), entry)
      ensures status == old(status).(dropped := status.dropped)
    {
      hide Sound;
      AcceptSound(View(), entry);
      sequence := sequence + 1;
      accepted := accepted[sequence := entry];
      pending := pending + [Record(sequence, entry)];
      if |pending| > KEPT {
        overflowed := overflowed + {pending[0].sequence};
        pending := pending[1..];
        status := status.(dropped := status.dropped + 1);
      }
    }

    /** The newest segment file comes to exist, empty at first; a full one is left behind. */
    method OpenSegment(full: bool)
      requires Valid() && ready && pending != []
      modifies this`segment, this`disk
      ensures Valid() && segment in disk
      ensures View() == Open(if full && old(segment) in old(disk) && pending[0].sequence > written
                             then Rotate(old(View())) else old(View()))
    {
      hide Sound;
      StepSound(View(), Rotating);
      if segment in disk && full && pending[0].sequence > written {
        segment := segment + 1;
      }
      StepSound(View(), Opening);
      if segment !in disk {
        disk := disk[segment := []];
      }
    }

    method WriteHead()
      requires Valid() && ready && pending != [] && written < pending[0].sequence && segment in disk
      modifies this`disk, this`written, this`everWritten
      ensures Valid() && View() == Write(old(View()))
    {
      hide Sound;
      WriteSound(View());
      disk := disk[segment := disk[segment] + [pending[0]]];
      written, everWritten := pending[0].sequence, everWritten + {pending[0].sequence};
    }

    method RemoveSegment(s: nat)
      requires Valid() && torn == {}
      modifies this`disk
      ensures Valid() && disk == old(disk) - {s}
      ensures View() == if ready then Retire(old(View()), s) else old(View())
    {
      hide Sound;
      RetireSound(View(), s);
      disk := disk - {s};
    }

    method AdvanceHead()
      requires Valid() && ready && pending != [] && pending[0].sequence <= written
      modifies this`pending
      ensures Valid() && View() == Advance(old(View()))
    {
      hide Sound;
      AdvanceSound(View());
      pending := pending[1..];
    }

    /** retainAuditSegmentsLocked */
    method RetainSegments(calm: bool) returns (ok: bool)
      requires Valid() && torn == {}
      modifies this`disk
      ensures Valid() && Newest(old(disk), disk)
      ensures ok ==> |disk| <= SEGMENTS_KEPT
      ensures |disk| >= if |old(disk)| < 4 then |old(disk)| else 4
      ensures calm ==> ok
    {
      hide Sound;
      while |disk| > SEGMENTS_KEPT
        invariant Valid() && Newest(old(disk), disk)
        invariant |disk| >= if |old(disk)| < 4 then |old(disk)| else 4
        decreases |disk|
      {
        ok := Attempt(calm);
        if !ok {
          return;
        }
        var oldest := Least(disk.Keys);
        assert disk.Keys == (disk - {oldest}).Keys + {oldest};
        RemoveSegment(oldest);
      }
      ok := true;
    }

    /** Open the newest segment and write the head record, unless it was written before. */
    method PutHead(calm: bool) returns (ok: bool)
      requires Valid() && ready && pending != []
      modifies this`segment, this`disk, this`written, this`everWritten
      ensures Valid() && forall s <- disk :: s <= segment
      ensures ok ==> Appended(old(disk), disk, segment, if old(written) < pending[0].sequence then [pending[0]] else [])
      ensures ok ==> pending[0].sequence <= written
      ensures old(written) < pending[0].sequence && written != old(written) ==>
        written == pending[0].sequence && everWritten == old(everWritten) + {written}
      ensures old(written) >= pending[0].sequence || written == old(written) ==>
        written == old(written) && everWritten == old(everWritten)
      ensures calm ==> ok
    {
      hide Sound;
      SegmentsBelow(View());
      ok := Attempt(calm);
      if !ok {
        return;
      }
      var full: bool := *;
      OpenSegment(full);
      SegmentsBelow(View());
      ok := Attempt(calm);
      if !ok {
        return;
      }
      if pending[0].sequence > written {
        ok := Attempt(calm);
        if !ok {
          // The partial write is truncated away.
          return;
        }
        WriteHead();
        SegmentsBelow(View());
      }
    }

    /** appendAuditLocked for the head of the queue. A record already written is only synced again. */
    method AppendHead(calm: bool) returns (ok: bool)
      requires Valid() && ready && pending != []
      modifies this`segment, this`disk, this`written, this`everWritten
      ensures Valid()
      ensures ok ==> pending[0].sequence <= written && |disk| <= SEGMENTS_KEPT
      ensures ok ==> Appended(old(disk), disk, segment, if old(written) < pending[0].sequence then [pending[0]] else [])
      ensures old(written) < pending[0].sequence && written != old(written) ==>
        written == pending[0].sequence && everWritten == old(everWritten) + {written}
      ensures old(written) >= pending[0].sequence || written == old(written) ==>
        written == old(written) && everWritten == old(everWritten)
      ensures calm ==> ok
    {
      hide Sound, Newest;
      ok := PutHead(calm);
      if !ok {
        return;
      }
      // sync the file, then its directory
      ok := Attempt(calm);
      if !ok {
        return;
      }
      ghost var found := disk;
      assert found != map[] && |found| > 0;
      ok := RetainSegments(calm);
      if ok {
        assert |disk| > 0;
        NewestKeeps(found, disk, segment);
      }
    }

    /** Drain the queue front first; the first failure leaves the rest queued. */
    method Flush(calm: bool) returns (ok: bool)
      requires Valid() && ready
      modifies this`pending, this`segment, this`disk, this`written, this`everWritten, this`status, this`health
      ensures Valid() && status.dropped == old(status).dropped
      ensures ok ==> pending == [] && status == old(status) && sequence == old(sequence)
      ensures ok && old(pending) != [] ==> written == sequence
      ensures !ok ==> pending != [] && status.degraded && status.failures == old(status).failures + 1
      ensures old(everWritten) <= everWritten
      ensures calm ==> ok
    {
      hide Sound;
      ok := true;
      while ok && pending != []
        invariant Valid() && status.dropped == old(status).dropped && old(everWritten) <= everWritten
        invariant if ok then status == old(status)
                  else pending != [] && status.degraded && status.failures == old(status).failures + 1
        invariant calm ==> ok
        invariant pending == [] ==> old(pending) == [] || written == sequence
        decreases ok, |pending|
      {
        ok := AppendHead(calm);
        if ok {
          LastWritten(View());
          AdvanceHead();
        } else {
          var _ := AuditFailure();
        }
      }
    }

    /** A load, and the report on it if it fails: one step of the start. */
    method LoadOrFail(calm: bool) returns (ghost op: AuditRestart.Op)
      requires Valid() && !ready
      modifies this
      ensures Valid() && old(sequence) <= sequence && Texts(pending) == Texts(old(pending))
      ensures ready ==> OnlyQueued(old(pending))
      ensures !op.Appending? && (ready <==> op.Loading?)
      ensures Progress() == start == AuditRestart.Apply(old(Progress()), op)
      ensures calm && InOrder(old(disk)) ==> ready
    {
      hide Sound, OnlyQueued, Texts, AuditRestart.Failed, InOrder;
      ghost var before := Progress();
      var ok;
      ghost var stage;
      ok, stage := Load(calm);
      QueueEnds(View());
      if ok {
        AuditRestart.LoadingIs(before, stage.cut, stage.last, true);
        op := AuditRestart.Loading(stage.cut, stage.last);
      } else {
        AuditRestart.FailedKeepsReady(before, stage);
        ghost var reported := AuditFailure();
        op := AuditRestart.Failing(stage, reported);
      }
      start := AuditRestart.Apply(before, op);
    }

    /** Append never refuses an entry: it is written, queued, or pushes out the oldest and counts it. A load it begins
        with numbers the queue again; without one nothing is written, and the queue just grows. */
    method Append(entry: string, calm: bool) returns (ghost op: Option<AuditRestart.Op>)
      requires Valid()
      modifies this
      ensures Valid()
      ensures old(ready) ==> ready && sequence == old(sequence) + 1 && base == old(base)
      ensures old(ready) ==> accepted == old(accepted)[sequence := entry]
      ensures old(ready) ==> old(everWritten) <= everWritten && old(overflowed) <= overflowed
      ensures old(!ready) && ready ==>
        accepted == Entries(old(pending), base)[sequence := entry] && sequence == base + |old(pending)| + 1
      ensures !ready ==> Texts(pending) == Kept(Texts(old(pending)) + [entry])
      ensures old(sequence) < sequence && sequence in accepted && accepted[sequence] == entry
      ensures calm && ready ==> pending == [] && written == sequence && !status.degraded
      ensures (op.None? <==> old(ready)) && (op.Some? ==> start == AuditRestart.Apply(old(Progress()), op.value))
      ensures op.Some? ==> (op.value.Appending? <==> !ready) && (op.value.Loading? <==> ready)
      ensures !ready ==> Progress() == start
      ensures calm && (old(ready) || InOrder(old(disk))) ==> ready
      ensures old(!ready) && ready ==> status.dropped == start.status.dropped + if start.queue == KEPT then 1 else 0
    {
      hide Sound, Texts, Kept, Renumbered, Entries, InOrder, AuditRestart.Apply, AuditRestart.Failed;
      op := None;
      ghost var before := Progress();
      if !ready {
        ghost var loaded := LoadOrFail(calm);
        op := Some(loaded);
      }
      ghost var recorded := Take(entry, calm);
      if !ready {
        AppendingIs(before, op.value.failure, op.value.reported, recorded);
        op := Some(AuditRestart.Appending(op.value.failure, op.value.reported, recorded));
        start := AuditRestart.Apply(before, op.value);
      }
    }

    /** The entry is admitted whatever became of the load. */
    method Take(entry: string, calm: bool) returns (ghost recorded: bool)
      requires Valid()
      modifies this`sequence, this`pending, this`status, this`accepted, this`overflowed, this`segment, this`disk,
        this`written, this`everWritten, this`health
      ensures Valid() && sequence == old(sequence) + 1 && accepted == old(accepted)[sequence := entry]
      ensures old(everWritten) <= everWritten && old(overflowed) <= overflowed
      ensures !ready ==> Texts(pending) == Kept(Texts(old(pending)) + [entry])
      ensures !ready ==> Progress() == AuditRestart.Recorded(AuditRestart.Queued(old(Progress())), recorded).(
        queued := start.queued, overflowed := start.overflowed)
      ensures status.dropped == old(status).dropped + if |old(pending)| == KEPT then 1 else 0
      ensures calm && ready ==> pending == [] && written == sequence && !status.degraded
    {
      hide Sound, Texts, Kept;
      AcceptTexts(View(), entry);
      QueueEnds(View());
      Admit(entry);
      QueueEnds(View());
      recorded := Deliver(calm);
    }

    /** What follows an admission: the queue is drained, or its range is recorded for the next load. */
    method Deliver(calm: bool) returns (ghost recorded: bool)
      requires Valid()
      modifies this`pending, this`segment, this`disk, this`written, this`everWritten, this`status, this`health
      ensures Valid() && old(everWritten) <= everWritten && status.dropped == old(status).dropped
      ensures !ready ==> pending == old(pending) && health == if recorded then Some(status) else old(health)
      ensures !ready ==>
        status == old(status).(first := if pending == [] then 0 else pending[0].sequence, count := |pending|)
      ensures calm && ready && old(pending) != [] ==> pending == [] && written == sequence && !status.degraded
    {
      hide Sound;
      recorded := false;
      if !ready {
        var _, published := SaveHealth(calm);
        recorded := published;
        return;
      }
      var ok := Flush(calm);
      if ok && status.degraded {
        status := status.(degraded := false);
        ok, recorded := SaveHealth(calm);
        if !ok {
          var _ := AuditFailure();
        }
      }
    }

    /** Until a load succeeds the books cover just the queue. */
    ghost method KeepBooks()
      requires |pending| <= KEPT && |pending| <= sequence && pending == Renumbered(pending, sequence - |pending|)
      requires !ready && torn <= disk.Keys
      modifies this`base, this`droppedBefore, this`accepted, this`everWritten, this`overflowed
      ensures Valid()
    {
      hide Sound;
      base, droppedBefore, everWritten, overflowed := sequence - |pending|, status.dropped, {}, {};
      accepted := Entries(pending, base);
      FreshSound(pending, base, 0, segment, map[]);
    }

    /** Charge what the record of an earlier process left waiting above everything on disk. */
    method ChargeLost()
      requires pending == [] && status.count > 0
      modifies this`status, this`sequence
      ensures status == AuditRestart.ChargedStatus(old(status), written)
      ensures
        var end := AuditRestart.End(old(status));
        sequence == if end > old(sequence) then end else old(sequence)
    {
      var end := status.first + status.count - 1;
      if written < end {
        var from := if written < status.first then status.first - 1 else written;
        status := status.(dropped := status.dropped + (end - from), degraded := true);
      }
      if end > sequence {
        sequence := end;
      }
      status := status.(first := 0, count := 0);
    }

    /** The books start over with whatever is queued now, numbered again from the given number. */
    method StartBooks(from: nat)
      requires |pending| <= KEPT && !ready
      modifies this`pending, this`sequence
      modifies this`base, this`droppedBefore, this`accepted, this`everWritten, this`overflowed
      ensures pending == Renumbered(old(pending), from) && sequence == from + |pending| && base == from
      ensures droppedBefore == status.dropped && View() == Fresh(old(pending), from, 0, segment, map[])
      ensures everWritten == overflowed == {} && accepted == Entries(old(pending), from)
    {
      var queue := pending;
      var queued, last := Renumber(queue, from);
      pending, sequence := queued, last;
      base, droppedBefore, accepted, everWritten, overflowed := from, status.dropped, Entries(queue, from), {}, {};
    }

    /** The recorded status is adopted; each torn tail the scan cuts back is one failure more. */
    method ScanDisk(calm: bool) returns (ok: bool, last: nat, newest: nat, ghost cut: nat)
      requires torn <= disk.Keys
      modifies this`status, this`torn
      ensures status == AuditRestart.Tallied(Adopted(old(status), old(health)), cut) && torn <= old(torn)
      ensures ok ==> torn == {} && InOrder(disk) && EndsAt(disk, last) && forall s <- disk :: s <= newest
      ensures calm ==> (ok <==> InOrder(disk))
    {
      hide InOrder, EndsAt;
      status := Adopted(status, health);
      last, newest, cut := 0, 0, 0;
      ok := Attempt(calm);
      if !ok {
        return;
      }
      var left;
      ok, last, newest, left := Scan(disk, torn, calm);
      var tails := |torn - left|;
      torn, cut := left, tails;
      status := status.(failures := status.failures + tails, tails := status.tails + tails,
                        degraded := status.degraded || tails > 0);
    }

    /** The health record, then every segment. */
    method ReadSegments(calm: bool) returns (ok: bool, ghost cut: nat)
      requires Valid() && !ready
      modifies this`status, this`torn, this`segment, this`written, this`base, this`droppedBefore, this`accepted,
        this`everWritten, this`overflowed
      ensures Valid() && status == AuditRestart.Tallied(Adopted(old(status), old(health)), cut)
      ensures ok ==> torn == {} && InOrder(disk) && EndsAt(disk, written) && forall s <- disk :: s <= segment
      ensures calm ==> (ok <==> InOrder(disk))
    {
      hide Sound, AscendingDisk, InOrder, EndsAt, Renumbered, Entries;
      Requeued(View());
      var last, newest;
      ok, last, newest, cut := ScanDisk(calm);
      if newest > segment {
        segment := newest;
      }
      KeepBooks();
      if ok {
        if segment == 0 {
          segment := 1;
        }
        written := last;
        KeepBooks();
      }
    }

    /** Charge, renumber, retain and save: the load is complete once the health record is saved. */
    method Settle(calm: bool) returns (ok: bool, ghost published: bool)
      requires Valid() && !ready && torn == {} && InOrder(disk) && EndsAt(disk, written)
      requires forall s <- disk :: s <= segment
      modifies this`ready, this`status, this`sequence, this`pending, this`disk, this`health, this`base,
        this`droppedBefore, this`accepted, this`everWritten, this`overflowed
      ensures Valid() && ready == ok && OnlyQueued(old(pending)) && old(sequence) <= base && written <= base
      ensures ok ==> Newest(old(disk), disk) && |disk| <= SEGMENTS_KEPT
      ensures (ok ==> published) && health == if published then Some(status) else old(health)
      ensures
        var t := AuditRestart.Settled(old(Progress()), written);
        && sequence == t.sequence && |pending| == t.queue && SameButRange(status, t.status)
        && (published ==> status == AuditRestart.Described(t.status, sequence, |pending|))
      ensures calm ==> ok
    {
      hide Sound, AscendingDisk, EndsAt, Newest, OnlyQueued, AuditRestart.Settled;
      Renew();
      QueueEnds(View());
      ok := RetainSegments(calm);
      published := false;
      if ok {
        ok, published := SaveHealth(calm);
        if ok {
          Ready(old(pending), old(disk));
        }
      }
    }

    method Renew()
      requires Valid() && !ready
      modifies this`status, this`sequence, this`pending, this`base, this`droppedBefore, this`accepted, this`everWritten,
        this`overflowed
      ensures Valid() && OnlyQueued(old(pending)) && old(sequence) <= base && written <= base
      ensures droppedBefore == status.dropped && |old(pending)| <= KEPT
      ensures
        var t := AuditRestart.Settled(old(Progress()), written);
        status == t.status && sequence == t.sequence && |pending| == t.queue
    {
      hide Sound, Charge, Renumbered, OnlyQueued;
      QueueEnds(View());
      if pending == [] && status.count > 0 {
        ChargeLost();
      }
      Requeue(if written > sequence then written else sequence);
    }

    method Requeue(from: nat)
      requires |pending| <= KEPT && !ready && torn <= disk.Keys
      modifies this`pending, this`sequence
      modifies this`base, this`droppedBefore, this`accepted, this`everWritten, this`overflowed
      ensures Valid() && pending == Renumbered(old(pending), from) && base == from && OnlyQueued(old(pending))
      ensures droppedBefore == status.dropped && sequence == from + |pending| && |pending| == |old(pending)|
    {
      hide Sound;
      FreshSound(pending, from, 0, segment, map[]);
      StartBooks(from);
    }

    /** The books hold the queue and nothing else. */
    ghost predicate OnlyQueued(queue: seq<Record>)
      reads this`everWritten, this`overflowed, this`sequence, this`base, this`pending, this`accepted
    {
      && everWritten == overflowed == {} && sequence == base + |queue|
      && pending == Renumbered(queue, base) && accepted == Entries(queue, base)
    }

    method Ready(ghost queue: seq<Record>, ghost found: map<nat, seq<Record>>)
      requires OnlyQueued(queue) && |queue| <= KEPT && droppedBefore == status.dropped && written <= base && torn == {}
      requires InOrder(found) && EndsAt(found, written) && Newest(found, disk)
      requires forall s <- found :: s <= segment
      modifies this`ready
      ensures Valid() && ready
    {
      hide Sound, AscendingDisk;
      NewestAscending(found, disk);
      FreshSound(queue, base, written, segment, disk);
      ready := true;
    }

    /**
     loadAuditLocked. The range the last health record names is charged to Dropped as far as it lies above the
     last number on disk, unless this process already queued records; those are numbered again behind
     everything recorded. stage says how far the load came.
     */
    method Load(calm: bool) returns (ok: bool, ghost stage: AuditRestart.Failure)
      requires Valid() && !ready
      modifies this
      ensures Valid() && ready == ok && start == old(start)
      ensures Texts(pending) == Texts(old(pending)) && old(sequence) <= sequence
      ensures ok ==> OnlyQueued(old(pending))
      ensures ok ==> InOrder(old(disk)) && EndsAt(old(disk), written)
      ensures ok ==> Newest(old(disk), disk) && |disk| <= SEGMENTS_KEPT
      ensures ok ==> written <= base && old(sequence) <= base && pending == Renumbered(old(pending), base)
      ensures ok ==> stage.Unsettled? && stage.last == written && stage.published
      ensures
        var t := AuditRestart.Failed(old(Progress()), stage);
        && sequence == t.sequence && |pending| == t.queue && SameButRange(status, t.status) && health == t.health
        && (ok ==> status == AuditRestart.Described(t.status, sequence, |pending|))
      ensures ok && old(pending) == [] && Adopted(old(status), old(health)).count > 0 ==>
        var h := Adopted(old(status), old(health));
        status.dropped == h.dropped + Charge(h, written) && h.first + h.count - 1 <= base
      ensures ok && (old(pending) != [] || Adopted(old(status), old(health)).count == 0) ==>
        status.dropped == Adopted(old(status), old(health)).dropped
      ensures ok ==> health == Some(status)
      ensures calm && InOrder(old(disk)) ==> ok
    {
      hide Sound, AscendingDisk, EndsAt, Newest, Renumbered, Texts;
      stage := AuditRestart.Unread;
      ok := Attempt(calm);
      if !ok {
        return;
      }
      ghost var cut, published;
      ok, cut := ReadSegments(calm);
      stage := AuditRestart.Unscanned(cut);
      if ok {
        ok, published := Settle(calm);
        stage := AuditRestart.Unsettled(cut, written, published);
      }
      SameTexts(old(pending), base);
    }
  }

  lemma AppendingIs(s: AuditRestart.Start, f: AuditRestart.Failure, reported: bool, recorded: bool)
    ensures
      var t := AuditRestart.Apply(s, AuditRestart.Failing(f, reported));
      AuditRestart.Apply(s, AuditRestart.Appending(f, reported, recorded))
      == AuditRestart.Recorded(AuditRestart.Queued(t), recorded)
  {
  }
}
