/**
 Lifecycle intents of one server as a state machine: what is in memory, what servers.json holds, and the generations
 that start requests carry while they wait.
 */
module Intent {
  import opened Options

  datatype Status = Stopped | Starting | Running | Stopping | Failed

  /** The fields of a server a lifecycle operation touches. */
  datatype Srv = Srv(
    desired: Option<bool>,
    generation: nat,
    status: Status,
    pendingRestart: set<string>,
    startedAt: nat,
    bindPort: nat)

  /**
   prior is Some while an intent is being saved: the desire and generation to go back to. tickets are the generations
   waiting start requests carry. claims were committed and not yet handed to a runner. durable and launched are
   history: the claims servers.json has recorded, and the runner launches.
   */
  datatype Sys = Sys(
    mem: Srv,
    saved: Srv,
    prior: Option<(Option<bool>, nat)>,
    tickets: set<nat>,
    claims: set<nat>,
    durable: set<nat>,
    launched: set<nat>)

  datatype Op =
    | Begin(desired: bool)
    | End(ok: bool)
    | ReadIntent
    | Claim(ticket: nat, tripped: bool, conflict: bool, ok: bool, port: nat, now: nat)
    | Launch(ticket: nat)
    | Become(status: Status, gone: bool)
    | Save(ok: bool)
    | Reboot(published: bool)

  predicate Wanted(s: Srv) {
    s.desired == None || s.desired == Some(true)
  }

  predicate MayStart(s: Status) {
    s == Stopped || s == Failed
  }

  // ----- the steps

  function Bumped(s: Srv, desired: bool): Srv {
    s.(desired := Some(desired), generation := s.generation + 1)
  }

  function Restored(s: Srv, prior: (Option<bool>, nat)): Srv {
    s.(desired := prior.0, generation := prior.1)
  }

  function Claimed(s: Srv, port: nat, now: nat): Srv {
    s.(desired := Some(true), status := Starting, pendingRestart := {}, startedAt := now, bindPort := port)
  }

  /** servers.json does not hold the bind port. */
  function Stored(s: Srv): Srv {
    s.(bindPort := 0)
  }

  /** Nothing runs after a panel restart. */
  function Booted(s: Srv): Srv {
    if MayStart(s.status) then s else s.(status := Stopped)
  }

  /** Intents, claims and saves exclude each other; reading and status changes do not wait for them. */
  predicate Allowed(v: Sys, op: Op) {
    match op
    case Begin(_) => v.prior.None?
    case End(_) => v.prior.Some?
    case ReadIntent => Wanted(v.mem) && v.mem.desired.Some? && v.mem.generation > 0
    case Claim(t, _, _, _, _, _) => v.prior.None? && t in v.tickets
    case Launch(t) => t in v.claims
    case Become(_, _) => true
    case Save(_) => v.prior.None?
    case Reboot(_) => true
  }

  /** A claim gets past every test before its save. */
  predicate Passes(v: Sys, op: Op)
    requires op.Claim?
  {
    MayStart(v.mem.status) && !op.tripped && !op.conflict && v.mem.generation == op.ticket
  }

  function Apply(v: Sys, op: Op): Sys {
    match op
    case Begin(desired) =>
      v.(mem := Bumped(v.mem, desired), prior := Some((v.mem.desired, v.mem.generation)))
    case End(ok) =>
      if v.prior.None? then v
      else if ok then
        v.(saved := Stored(v.mem), prior := None,
           tickets := if v.mem.desired == Some(true) then v.tickets + {v.mem.generation} else v.tickets)
      else
        v.(mem := Restored(v.mem, v.prior.value), prior := None)
    case ReadIntent => v.(tickets := v.tickets + {v.mem.generation})
    case Claim(t, tripped, _, ok, port, now) =>
      if !MayStart(v.mem.status) || tripped then v
      else if !Passes(v, op) then v.(mem := v.mem.(bindPort := port))
      else if ok then
        v.(mem := Claimed(v.mem, port, now), saved := Stored(Claimed(v.mem, port, now)), claims := v.claims + {t},
           durable := v.durable + {t})
      else v.(mem := v.mem.(bindPort := 0))
    case Launch(t) => v.(claims := v.claims - {t}, launched := v.launched + {t})
    case Become(status, gone) => v.(mem := v.mem.(status := status, bindPort := if gone then 0 else v.mem.bindPort))
    case Save(ok) => if ok then v.(saved := Stored(v.mem)) else v
    case Reboot(published) =>
      var disk := if v.prior.Some? && published then Stored(v.mem) else v.saved;
      v.(mem := Booted(disk), saved := disk, prior := None, tickets := {}, claims := {})
  }

  /** A restart of the panel finds no server running and changes nothing else. */
  lemma BootStops(s: Srv)
    ensures MayStart(Booted(s).status) && Booted(s) == s.(status := Booted(s).status)
    ensures MayStart(s.status) ==> Booted(s) == s
  {
  }

  // ----- the invariant

  /** A ticket older than the newest persisted intent, or that intent itself where it says run. */
  predicate Current(v: Sys, t: nat) {
    t < v.saved.generation || (t == v.saved.generation && v.saved.desired == Some(true))
  }

  predicate Sound(v: Sys) {
    && (v.prior.None? ==> v.mem.generation == v.saved.generation && v.mem.desired == v.saved.desired)
    && (v.prior.Some? ==>
          && v.prior.value == (v.saved.desired, v.saved.generation)
          && v.mem.generation == v.saved.generation + 1 && v.mem.desired.Some?)
    && v.launched <= v.durable && v.claims <= v.durable && v.saved == Stored(v.saved)
  }

  /** The server goes from may-start to starting. */
  predicate Commits(v: Sys, op: Op) {
    op.Claim? && op.ok && Passes(v, op)
  }

  /** Intents are saved one after the other, a start is recorded before it is launched, and a current ticket stays
      current: it is overtaken, never revived. */
  lemma StepSound(v: Sys, op: Op)
    requires Sound(v) && Allowed(v, op)
    ensures Sound(Apply(v, op))
    ensures !op.Reboot? ==> v.saved.generation <= Apply(v, op).saved.generation
    ensures !op.Reboot? ==> forall t :: Current(v, t) ==> Current(Apply(v, op), t)
  {
  }

  /** A claim that commits leaves servers.json saying starting, under that intent, before any runner is asked. */
  lemma CommitIsDurable(v: Sys, op: Op)
    requires Sound(v) && Allowed(v, op) && op.Claim?
    ensures
      var w := Apply(v, op);
      && (Commits(v, op) <==> w.mem.status == Starting && v.mem.status != Starting)
      && (Commits(v, op) ==> w.saved == Stored(w.mem) && w.saved.generation == op.ticket && op.ticket in w.durable)
      && (!Commits(v, op) ==> w.saved == v.saved && w.mem == v.mem.(bindPort := w.mem.bindPort) && w.claims == v.claims)
  {
  }

  /** A granted ticket is the newest persisted intent at that moment. */
  lemma GrantIsCurrent(v: Sys)
    requires Sound(v) && v.prior.Some? && v.mem.desired == Some(true)
    ensures v.mem.generation in Apply(v, End(true)).tickets && Current(Apply(v, End(true)), v.mem.generation)
  {
  }

  /** A failed save takes the generation back and hands none out. */
  lemma FailedSaveGrantsNothing(v: Sys)
    requires Sound(v) && v.prior.Some?
    ensures
      var w := Apply(v, End(false));
      && w.mem == v.mem.(desired := v.saved.desired, generation := v.saved.generation)
      && w.tickets == v.tickets && w.saved == v.saved
  {
  }

  // ----- whole runs

  predicate Run(vs: seq<Sys>, ops: seq<Op>) {
    |vs| == |ops| + 1
    && forall i :: 0 <= i < |ops| ==> Allowed(vs[i], ops[i]) && vs[i + 1] == Apply(vs[i], ops[i])
  }

  predicate NoReboot(ops: seq<Op>) {
    forall op <- ops :: !op.Reboot?
  }

  lemma {:induction false} RunSound(vs: seq<Sys>, ops: seq<Op>)
    requires Run(vs, ops) && Sound(vs[0])
    ensures forall v <- vs :: Sound(v)
    ensures NoReboot(ops) ==> forall v <- vs :: vs[0].saved.generation <= v.saved.generation
    decreases |ops|
  {
    hide Sound, Apply, Allowed;
    if ops != [] {
      StepSound(vs[0], ops[0]);
      assert ops[0] in ops && forall op <- ops[1..] :: op in ops;
      RunSound(vs[1..], ops[1..]);
      assert vs == [vs[0]] + vs[1..];
    }
  }

  lemma {:induction false} CurrentStays(vs: seq<Sys>, ops: seq<Op>, t: nat)
    requires Run(vs, ops) && Sound(vs[0]) && NoReboot(ops) && Current(vs[0], t)
    ensures forall v <- vs :: Current(v, t)
    decreases |ops|
  {
    hide Sound, Apply, Allowed, Current;
    if ops != [] {
      StepSound(vs[0], ops[0]);
      assert ops[0] in ops && forall op <- ops[1..] :: op in ops;
      CurrentStays(vs[1..], ops[1..], t);
      assert vs == [vs[0]] + vs[1..];
    }
  }

  /** In this run every start under the ticket commits while the newest persisted intent is that one and says run. */
  predicate StartsWanted(vs: seq<Sys>, ops: seq<Op>, t: nat)
    requires |vs| == |ops| + 1
  {
    forall i :: 0 <= i < |ops| && Commits(vs[i], ops[i]) && ops[i].ticket == t ==>
      vs[i].saved.generation == t && vs[i].saved.desired == Some(true)
  }

  /** The newest persisted intent wins, whatever a ticket meets on the way to its claim. */
  lemma NewestIntentWins(vs: seq<Sys>, ops: seq<Op>, t: nat)
    requires Run(vs, ops) && Sound(vs[0]) && NoReboot(ops) && Current(vs[0], t)
    ensures StartsWanted(vs, ops, t)
  {
    RunSound(vs, ops);
    CurrentStays(vs, ops, t);
    forall i | 0 <= i < |ops| && Commits(vs[i], ops[i]) && ops[i].ticket == t
      ensures vs[i].saved.generation == t && vs[i].saved.desired == Some(true)
    {
      assert vs[i] in vs && Allowed(vs[i], ops[i]);
    }
  }

  /** A stop or kill accepted after a start request got its ticket supersedes it for the life of the process. */
  lemma StopSupersedes(vs: seq<Sys>, ops: seq<Op>, t: nat)
    requires Run(vs, ops) && Sound(vs[0]) && NoReboot(ops)
    requires |ops| > 0 && ops[0] == End(true) && t < vs[0].mem.generation
    ensures forall i :: 0 < i < |ops| && ops[i].Claim? && ops[i].ticket == t ==> !Commits(vs[i], ops[i])
  {
    assert vs[1] == Apply(vs[0], End(true)) && Allowed(vs[0], ops[0]);
    StepSound(vs[0], ops[0]);
    assert forall op <- ops[1..] :: op in ops;
    RunSound(vs[1..], ops[1..]);
    forall i | 0 < i < |ops| && ops[i].Claim? && ops[i].ticket == t ensures !Commits(vs[i], ops[i]) {
      assert vs[i] == vs[1..][i - 1] && vs[i] in vs[1..] && Allowed(vs[i], ops[i]);
    }
  }

  // ----- the boot resume reads an intent without waiting for its save

  ghost predicate SafeTicket(v: Sys, t: nat) {
    forall vs: seq<Sys>, ops: seq<Op> :: Run(vs, ops) && NoReboot(ops) && vs[0] == v ==> StartsWanted(vs, ops, t)
  }

  /** The failing save, a stop persisted under the number it gave back, then the resumed start. */
  function StopAfterFailure(t: nat): seq<Op> {
    [End(false), Begin(false), End(true), Become(Stopped, true), Claim(t, false, false, true, 1, 1)]
  }

  lemma StrayTicketDefeatsStop(v: Sys)
    requires Sound(v) && v.prior.Some? && v.mem.generation in v.tickets
    ensures !SafeTicket(v, v.mem.generation)
  {
    var t := v.mem.generation;
    var ops := StopAfterFailure(t);
    var v1 := Apply(v, End(false));
    var v2 := Apply(v1, Begin(false));
    var v3 := Apply(v2, End(true));
    var v4 := Apply(v3, Become(Stopped, true));
    var vs := [v, v1, v2, v3, v4, Apply(v4, ops[4])];
    assert Commits(vs[4], ops[4]) && vs[4].saved.desired == Some(false);
    assert !StartsWanted(vs, ops, t);
    assert Run(vs, ops) && NoReboot(ops);
  }

  /** The ticket resume reads is safe exactly when no intent is being saved at that moment. */
  lemma ResumeReadIsSafe(v: Sys)
    requires Sound(v) && Allowed(v, ReadIntent)
    ensures SafeTicket(Apply(v, ReadIntent), v.mem.generation) <==> v.prior.None?
  {
    var w, t := Apply(v, ReadIntent), v.mem.generation;
    StepSound(v, ReadIntent);
    if v.prior.None? {
      forall vs: seq<Sys>, ops: seq<Op> | Run(vs, ops) && NoReboot(ops) && vs[0] == w ensures StartsWanted(vs, ops, t) {
        NewestIntentWins(vs, ops, t);
      }
    } else {
      StrayTicketDefeatsStop(w);
    }
  }
}
