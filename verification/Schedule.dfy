/**
 One scheduled task as a state machine: the ticks that look, mark and admit, the runs that claim and finish, edits,
 and process deaths. Days stand for moments; day 0 is never.
 */
module Schedule {
  import opened Options

  datatype RunState = Idle | Pending | Running | Completed | Broken | Cancelled | Interrupted

  datatype Task = Task(repeat: bool, enabled: bool, lastRun: nat, pendingAt: nat, state: RunState, runs: nat)

  /** A run of the task under the running map: entered, then executing once its claim is recorded. */
  datatype Exec = Exec(scheduled: bool, claimed: bool)

  /** look is the copy a tick works from; queued counts admitted runs not yet entered. claims is history: scheduled
      runs of the one-shot claimed since it was last armed. */
  datatype Sys = Sys(
    mem: Task,
    saved: Task,
    look: Option<Task>,
    queued: nat,
    exec: Option<Exec>,
    claims: nat)

  datatype Op =
    | Look
    | Mark(day: nat, ok: bool)
    | Admit
    | Enter(scheduled: bool)
    | Claim(day: nat, ok: bool)
    | Finish(day: nat, failed: bool, ok: bool)
    | Edit(enabled: bool, repeat: bool, ok: bool)
    | Flush
    | Reload

  predicate Armed(t: Task) {
    t.enabled && !t.repeat
  }

  // ----- what each step does to the task

  function Marked(t: Task, day: nat): Task {
    if t.enabled then t.(pendingAt := day, state := Pending) else t
  }

  function ClaimedTask(t: Task, day: nat): Task {
    t.(lastRun := day, pendingAt := 0, state := Running)
  }

  function Finished(t: Task, day: nat, failed: bool): Task {
    t.(lastRun := day, runs := t.runs + 1, state := if failed then Broken else Completed,
       enabled := t.enabled && t.repeat)
  }

  function Edited(t: Task, enabled: bool, repeat: bool): Task {
    var e := t.(enabled := enabled, repeat := repeat);
    if t.enabled && !enabled && t.state == Pending then e.(pendingAt := 0, state := Cancelled) else e
  }

  function Reloaded(t: Task): Task {
    if t.state == Running then t.(state := Interrupted, enabled := t.enabled && t.repeat) else t
  }

  predicate Due(t: Task, day: nat) {
    t.enabled && t.pendingAt == 0 && 0 < day && t.lastRun != day
  }

  /** A tick decides on its copy; the record it then writes only asks whether the task is still enabled. */
  predicate Allowed(v: Sys, op: Op) {
    match op
    case Look => true
    case Mark(day, _) => v.look.Some? && Due(v.look.value, day)
    case Admit => v.look.Some? && v.look.value.enabled
    case Enter(scheduled) => scheduled ==> v.queued > 0
    case Claim(day, _) => v.exec.Some? && !v.exec.value.claimed && 0 < day
    case Finish(_, _, _) => v.exec.Some? && v.exec.value.claimed
    case Edit(_, _, _) => true
    case Flush => true
    case Reload => true
  }

  function Recorded(v: Sys, t: Task): Sys {
    v.(mem := t, saved := t)
  }

  function Apply(v: Sys, op: Op): Sys {
    match op
    case Look => v.(look := Some(v.mem))
    case Mark(day, ok) => if ok then Recorded(v, Marked(v.mem, day)) else v
    case Admit => v.(queued := v.queued + 1)
    case Enter(scheduled) =>
      var w := if scheduled && v.queued > 0 then v.(queued := v.queued - 1) else v;
      if v.exec.Some? then w else w.(exec := Some(Exec(scheduled, false)))
    case Claim(day, ok) =>
      if v.exec.None? || !ok then v.(exec := None)
      else if v.exec.value.scheduled && !v.mem.enabled then Recorded(v, v.mem).(exec := None)
      else
        Recorded(v, ClaimedTask(v.mem, day)).(
          exec := Some(v.exec.value.(claimed := true)),
          claims := if v.exec.value.scheduled && Armed(v.mem) then v.claims + 1 else v.claims)
    case Finish(day, failed, ok) =>
      (if ok then Recorded(v, Finished(v.mem, day, failed)) else v).(exec := None)
    case Edit(enabled, repeat, ok) =>
      if !ok then v
      else
        var t := Edited(v.mem, enabled, repeat);
        Recorded(v, t).(claims := if Armed(t) && !Armed(v.mem) then 0 else v.claims)
    case Flush => v.(saved := v.mem)
    case Reload => v.(mem := Reloaded(v.saved), look := None, queued := 0, exec := None)
  }

  // ----- at most one claim

  /** Once its scheduled run is claimed, a one-shot stays armed only while that run executes, and disk says so. */
  predicate Sound(v: Sys) {
    && v.claims <= 1
    && (v.claims == 1 && Armed(v.mem) ==> v.exec == Some(Exec(true, true)))
    && (v.claims == 1 && Armed(v.mem) ==> v.mem.state == Running && v.mem.pendingAt == 0)
    && (v.claims == 1 && Armed(v.saved) ==> v.saved.state == Running)
  }

  /** The two steps that break it: the run's last record fails, or a tick that looked before the claim marks
      after it. */
  predicate Exposes(v: Sys, op: Op) {
    && v.claims == 1 && Armed(v.mem) && v.exec == Some(Exec(true, true))
    && ((op.Finish? && !op.ok) || (op.Mark? && op.ok))
  }

  lemma StepSound(v: Sys, op: Op)
    requires Sound(v) && Allowed(v, op) && !Exposes(v, op)
    ensures Sound(Apply(v, op))
  {
  }

  predicate Run(vs: seq<Sys>, ops: seq<Op>) {
    |vs| == |ops| + 1
    && forall i :: 0 <= i < |ops| ==> Allowed(vs[i], ops[i]) && vs[i + 1] == Apply(vs[i], ops[i])
  }

  predicate Unexposed(vs: seq<Sys>, ops: seq<Op>)
    requires |vs| == |ops| + 1
  {
    forall i :: 0 <= i < |ops| ==> !Exposes(vs[i], ops[i])
  }

  /** Over ticks, duplicate dispatches, manual runs, edits, crashes and reloads, a scheduled run of a one-shot is
      claimed at most once between two armings. */
  lemma {:induction false} ClaimedAtMostOnce(vs: seq<Sys>, ops: seq<Op>)
    requires Run(vs, ops) && Sound(vs[0]) && Unexposed(vs, ops)
    ensures forall v <- vs :: Sound(v) && v.claims <= 1
    decreases |ops|
  {
    hide Apply, Allowed, Exposes;
    if ops != [] {
      StepSound(vs[0], ops[0]);
      ClaimedAtMostOnce(vs[1..], ops[1..]);
      assert vs == [vs[0]] + vs[1..];
    }
  }

  ghost predicate Once(v: Sys) {
    forall vs: seq<Sys>, ops: seq<Op> :: Run(vs, ops) && Unexposed(vs, ops) && vs[0] == v ==> vs[|ops|].claims <= 1
  }

  /** The next day's tick, on the day after the last run the task remembers. */
  function TomorrowAgain(v: Sys): seq<Op> {
    [Look, Mark(v.mem.lastRun + 1, true), Admit, Enter(true), Claim(v.mem.lastRun + 1, true)]
  }

  lemma FailedRecordRepeats(v: Sys)
    requires v.claims == 1 && Armed(v.mem) && v.exec.None? && v.mem.pendingAt == 0
    ensures !Once(v)
  {
    var ops := TomorrowAgain(v);
    var v1 := Apply(v, ops[0]);
    var v2 := Apply(v1, ops[1]);
    var v3 := Apply(v2, ops[2]);
    var v4 := Apply(v3, ops[3]);
    var vs := [v, v1, v2, v3, v4, Apply(v4, ops[4])];
    assert vs[5].claims == 2 && Run(vs, ops) && Unexposed(vs, ops);
  }

  function CrashAndRunAgain(): seq<Op> {
    [Reload, Look, Admit, Enter(true), Claim(1, true)]
  }

  lemma LateMarkRepeats(v: Sys)
    requires v.claims == 1 && Armed(v.saved) && v.saved.state == Pending
    ensures !Once(v)
  {
    var ops := CrashAndRunAgain();
    var v1 := Apply(v, ops[0]);
    var v2 := Apply(v1, ops[1]);
    var v3 := Apply(v2, ops[2]);
    var v4 := Apply(v3, ops[3]);
    var vs := [v, v1, v2, v3, v4, Apply(v4, ops[4])];
    assert vs[5].claims == 2 && Run(vs, ops) && Unexposed(vs, ops);
  }

  /** A step keeps the promise for every future exactly when it does not expose the task. */
  lemma OnceExactly(v: Sys, op: Op)
    requires Sound(v) && Allowed(v, op)
    ensures Once(Apply(v, op)) <==> !Exposes(v, op)
  {
    var w := Apply(v, op);
    if !Exposes(v, op) {
      StepSound(v, op);
      forall vs: seq<Sys>, ops: seq<Op> | Run(vs, ops) && Unexposed(vs, ops) && vs[0] == w
        ensures vs[|ops|].claims <= 1
      {
        ClaimedAtMostOnce(vs, ops);
      }
    } else if op.Finish? {
      FailedRecordRepeats(w);
    } else {
      LateMarkRepeats(w);
    }
  }

  /** The claim is on disk before the run executes any step. */
  lemma ExecutionIsDurable(v: Sys, op: Op)
    requires Allowed(v, op) && !(v.exec.Some? && v.exec.value.claimed)
    ensures
      var w := Apply(v, op);
      w.exec.Some? && w.exec.value.claimed <==>
        op.Claim? && op.ok && w.saved.state == Running && w.saved.lastRun == op.day && w.saved.pendingAt == 0
        && (v.exec.value.scheduled ==> v.mem.enabled)
  {
  }

  /** Disabled in memory and after any reload. */
  predicate Parked(v: Sys) {
    !v.mem.enabled && !Reloaded(v.saved).enabled && (v.exec.Some? ==> v.exec.value != Exec(true, true))
  }

  predicate Enables(op: Op) {
    op.Edit? && op.enabled && op.ok
  }

  lemma ParkedStep(v: Sys, op: Op)
    requires Parked(v) && Allowed(v, op) && !Enables(op)
    ensures Parked(Apply(v, op)) && Apply(v, op).claims == v.claims
  {
  }

  lemma {:induction false} ParkedRun(vs: seq<Sys>, ops: seq<Op>)
    requires Run(vs, ops) && Parked(vs[0]) && forall op <- ops :: !Enables(op)
    ensures forall v <- vs :: Parked(v) && v.claims == vs[0].claims
    decreases |ops|
  {
    hide Apply, Allowed, Parked, Enables;
    if ops != [] {
      ParkedStep(vs[0], ops[0]);
      ParkedRun(vs[1..], ops[1..]);
      assert vs == [vs[0]] + vs[1..];
    }
  }

  /** A one-shot cut short is reported interrupted, and until its operator enables it again no tick, duplicate or crash
      replays it. */
  lemma InterruptedIsNotReplayed(v: Sys, vs: seq<Sys>, ops: seq<Op>)
    requires v.saved.state == Running && !v.saved.repeat
    requires Run(vs, ops) && vs[0] == Apply(v, Reload) && forall op <- ops :: !Enables(op)
    ensures vs[0].mem.state == Interrupted
    ensures forall w <- vs :: w.claims == v.claims && !w.mem.enabled && w.exec != Some(Exec(true, true))
  {
    ParkedRun(vs, ops);
  }
}
