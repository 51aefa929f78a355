/** Start, stop, kill, restart and resume of one server in place; other requests run wherever these wait. */
module Lifecycle {
  import opened Options
  import opened Effects
  import opened Intent

  class Server {
    var registered: bool
    var desired: Option<bool>
    var generation: nat
    var status: Status
    var pendingRestart: set<string>
    var startedAt: nat
    var bindPort: nat
    /** What servers.json holds. */
    var saved: Srv
    /** The generations waiting requests carry, and those claimed and not yet handed to a runner. */
    var tickets: set<nat>
    var claims: set<nat>
    ghost var prior: Option<(Option<bool>, nat)>
    ghost var durable: set<nat>
    ghost var launched: set<nat>

    function Memory(): Srv
      reads this
    {
      Srv(desired, generation, status, pendingRestart, startedAt, bindPort)
    }

    ghost function View(): Sys
      reads this
    {
      Sys(Memory(), saved, prior, tickets, claims, durable, launched)
    }

    ghost predicate Valid()
      reads this
    {
      Sound(View()) && prior.None?
    }

    /** A boot: nothing runs, no request is waiting. */
    constructor (record: Srv)
      requires record == Stored(record)
      ensures Valid() && saved == record && Memory() == Booted(record) && tickets == {}
    {
      registered, saved := true, record;
      desired, generation, pendingRestart, startedAt, bindPort :=
        record.desired, record.generation, record.pendingRestart, record.startedAt, record.bindPort;
      status := if MayStart(record.status) then record.status else Stopped;
      prior, tickets, claims, durable, launched := None, {}, {}, {}, {};
    }

    method SaveHeld(calm: bool) returns (ok: bool)
      modifies this`saved
      ensures saved == if ok then Stored(Memory()) else old(saved)
      ensures calm ==> ok
    {
      ok := *;
      if calm || ok {
        ok := true;
        saved := Stored(Memory());
      }
    }

    /** The intent counts once it is saved; a failed save restores both fields and hands out no generation. */
    method PersistIntent(want: bool, calm: bool) returns (granted: Option<nat>)
      requires Valid()
      modifies this
      ensures Valid() && registered == old(registered) && status == old(status)
      ensures granted.None? ==> View() == old(View())
      ensures granted.Some? ==> granted.value == generation == old(generation) + 1
      ensures granted.Some? ==> View() == Apply(Apply(old(View()), Begin(want)), End(true))
      ensures calm && registered ==> granted.Some?
    {
      if !registered {
        return None;
      }
      hide Current;
      StepSound(View(), Begin(want));
      var before, number := desired, generation;
      desired, generation, prior := Some(want), generation + 1, Some((desired, generation));
      granted := Some(generation);
      StepSound(View(), End(true));
      StepSound(View(), End(false));
      var ok := SaveHeld(calm);
      prior := None;
      if !ok {
        desired, generation := before, number;
        return None;
      }
      tickets := if want then tickets + {generation} else tickets;
    }

    /** From may-start to starting as one step; a failed save takes the step back. */
    method ClaimStart(expected: nat, tripped: bool, conflict: bool, port: nat, now: nat, calm: bool) returns (ok: bool)
      requires Valid() && expected in tickets
      modifies this
      ensures Valid() && registered == old(registered)
      ensures ok ==> Commits(old(View()), Claim(expected, tripped, conflict, true, port, now))
      ensures ok ==> View() == Apply(old(View()), Claim(expected, tripped, conflict, true, port, now))
      ensures !ok ==> View() == old(View()).(mem := old(Memory()).(bindPort := bindPort))
      ensures calm && registered && old(Passes(View(), Claim(expected, tripped, conflict, true, port, now))) ==> ok
    {
      hide Sound, Current;
      if !registered || !MayStart(status) || tripped {
        return false;
      }
      ghost var v := View();
      StepSound(v, Claim(expected, tripped, conflict, true, port, now));
      StepSound(v, Claim(expected, tripped, conflict, false, port, now));
      bindPort := port;
      if conflict || generation != expected {
        assert View() == Apply(v, Claim(expected, tripped, conflict, true, port, now));
        return false;
      }
      var oldPending, oldStarted, oldStatus := pendingRestart, startedAt, status;
      var oldDesired, oldGeneration := desired, generation;
      pendingRestart, desired, startedAt, status := {}, Some(true), now, Starting;
      ok := SaveHeld(calm);
      if !ok {
        pendingRestart, startedAt, status := oldPending, oldStarted, oldStatus;
        desired, generation, bindPort := oldDesired, oldGeneration, 0;
        assert View() == Apply(v, Claim(expected, tripped, conflict, false, port, now));
        return;
      }
      claims, durable := claims + {expected}, durable + {expected};
      assert View() == Apply(v, Claim(expected, tripped, conflict, true, port, now));
    }

    /** setStatus: the change stands even when it cannot be saved. An exit gives up the bind port. */
    method SetStatus(to: Status, gone: bool, calm: bool)
      requires Valid()
      modifies this
      ensures Valid() && registered == old(registered) && tickets == old(tickets) && status == to
      ensures
        var v := Apply(old(View()), Become(to, gone));
        View() == Apply(v, Save(true)) || (!calm && View() == v)
    {
      StepSound(View(), Become(to, gone));
      status, bindPort := to, if gone then 0 else bindPort;
      StepSound(View(), Save(true));
      var _ := SaveHeld(calm);
    }

    /** What other requests may do while this one waits, starts under other tickets than this one's among them. */
    method Meanwhile(mine: nat, calm: bool)
      requires Valid()
      modifies this
      ensures calm ==> View() == old(View()) && registered == old(registered)
      ensures Valid() && old(tickets) <= tickets && old(saved.generation) <= saved.generation
      ensures old(launched) <= launched && (mine in launched <==> mine in old(launched))
      ensures forall t :: Current(old(View()), t) ==> Current(View(), t)
    {
      hide Sound;
      var more: nat := *;
      while more > 0 && !calm
        invariant calm ==> View() == old(View()) && registered == old(registered)
        invariant Valid() && old(tickets) <= tickets && old(saved.generation) <= saved.generation
        invariant old(launched) <= launched && (mine in launched <==> mine in old(launched))
        invariant forall t :: Current(old(View()), t) ==> Current(View(), t)
      {
        Other(mine);
        more := more - 1;
      }
    }

    method Other(mine: nat)
      requires Valid()
      modifies this
      ensures Valid() && old(tickets) <= tickets && old(saved.generation) <= saved.generation
      ensures old(launched) <= launched && (mine in launched <==> mine in old(launched))
      ensures forall t :: Current(old(View()), t) ==> Current(View(), t)
    {
      hide Sound;
      ghost var v := View();
      var t: nat := *;
      if {
        case true =>
          var want: bool := *;
          var granted := PersistIntent(want, false);
          if granted.Some? {
            StepSound(v, Begin(want));
            StepSound(Apply(v, Begin(want)), End(true));
          }
        case true =>
          var status: Status, gone: bool := *, *;
          StepSound(v, Become(status, gone));
          StepSound(Apply(v, Become(status, gone)), Save(true));
          SetStatus(status, gone, false);
        case t in tickets && t != mine =>
          var tripped: bool, conflict: bool, port: nat, now: nat := *, *, *, *;
          StepSound(v, Claim(t, tripped, conflict, true, port, now));
          var _ := ClaimStart(t, tripped, conflict, port, now, false);
        case t in claims && t != mine =>
          StepSound(v, Launch(t));
          claims, launched := claims - {t}, launched + {t};
        case true =>
          registered := false;
      }
    }

    /** Start, or the waiting half of restart and resume when expected names their intent. The runner is asked only
        after its claim is on disk, under an intent that was the newest one there and said run. */
    method StartExpected(expected: nat, tripped: bool, conflict: bool, port: nat, now: nat, calm: bool)
      returns (ok: bool, ghost ticket: nat, ghost claimed: Sys)
      requires Valid() && (expected > 0 ==> expected in tickets && Current(View(), expected))
      modifies this
      ensures Valid()
      ensures expected > 0 ==> ticket == expected
      ensures old(launched) <= launched
      ensures ok ==> ticket in launched && ticket in claimed.durable && status == Starting && saved == claimed.saved
      ensures ticket in launched && ticket !in old(launched) ==>
        claimed.saved.status == Starting && claimed.saved.generation == ticket && claimed.saved.desired == Some(true)
      ensures calm ==>
        (ok <==> old(registered && MayStart(status)) && !tripped && !conflict
                 && (expected == 0 || expected == old(generation)))
      ensures calm && ok ==> generation == ticket && desired == Some(true) && bindPort == port && startedAt == now
      ensures calm && ok ==> ticket == old(generation) + (if expected == 0 then 1 else 0) && pendingRestart == {}
    {
      hide Sound;
      ok, ticket, claimed := false, expected, View();
      var mine := expected;
      if expected == 0 {
        ghost var v := View();
        var granted := PersistIntent(true, calm);
        if granted.None? {
          return;
        }
        StepSound(v, Begin(true));
        GrantIsCurrent(Apply(v, Begin(true)));
        mine := granted.value;
        ticket := mine;
      }
      Meanwhile(mine, calm);
      if !registered || generation != mine {
        return;
      }
      ghost var before := View();
      ok := ClaimStart(mine, tripped, conflict, port, now, calm);
      if !ok {
        return;
      }
      ClaimIsWanted(before, Claim(mine, tripped, conflict, true, port, now));
      claimed := View();
      StepSound(View(), Launch(mine));
      claims, launched := claims - {mine}, launched + {mine};
      // the runner may refuse
      ok := Attempt(calm);
      if !ok {
        SetStatus(Failed, true, calm);
      }
    }

    /** A stop or kill is accepted once its intent is on disk; from then on every earlier ticket is overtaken. */
    method AcceptStop(calm: bool) returns (ok: bool)
      requires Valid()
      modifies this
      ensures Valid() && registered == old(registered)
      ensures ok ==> saved.desired == Some(false) && tickets == old(tickets)
      ensures ok ==> View() == Apply(Apply(old(View()), Begin(false)), End(true))
      ensures ok ==> forall t: nat :: Current(old(View()), t) ==> t < generation
      ensures !ok ==> View() == old(View())
      ensures calm && registered ==> ok
    {
      var granted := PersistIntent(false, calm);
      ok := granted.Some?;
    }

    /** A stop marks the server stopping once the gate is free; restart's own stop does not touch the intent. The
        runner's part, and what becomes of the status, come later and from elsewhere. */
    method Stop(updateIntent: bool, mine: nat, calm: bool) returns (ok: bool)
      requires Valid()
      modifies this
      ensures Valid() && old(tickets) <= tickets && old(launched) <= launched
      ensures mine in launched <==> mine in old(launched)
      ensures forall t :: Current(old(View()), t) ==> Current(View(), t)
      ensures ok && updateIntent ==> forall t: nat :: Current(old(View()), t) ==> t < saved.generation
      ensures old(MayStart(status)) ==> !ok
      ensures calm && old(registered && !MayStart(status)) ==> ok
      ensures calm && ok ==> registered == old(registered) && status == Stopping && bindPort == old(bindPort)
      ensures calm && ok ==> generation == old(generation) + (if updateIntent then 1 else 0)
    {
      hide Sound;
      if updateIntent {
        ghost var v := View();
        ok := AcceptStop(calm);
        if !ok {
          return;
        }
        StepSound(v, Begin(false));
        StepSound(Apply(v, Begin(false)), End(true));
        Agrees(View());
      }
      if MayStart(status) {
        return false;
      }
      Meanwhile(mine, calm);
      ok := true;
      if !MayStart(status) {
        ghost var v := View();
        StepSound(v, Become(Stopping, false));
        StepSound(Apply(v, Become(Stopping, false)), Save(true));
        SetStatus(Stopping, false, calm);
      }
    }

    /** Restart takes its ticket before the stop, so an operator's stop during the wait wins. */
    method Restart(tripped: bool, conflict: bool, port: nat, now: nat, calm: bool)
      returns (ok: bool, ghost ticket: nat, ghost claimed: Sys)
      requires Valid()
      modifies this
      ensures Valid()
      ensures ticket in launched && ticket !in old(launched) ==>
        claimed.saved.status == Starting && claimed.saved.generation == ticket && claimed.saved.desired == Some(true)
      ensures calm && old(registered) && !tripped && !conflict ==> ok && status == Starting && ticket in launched
    {
      hide Sound;
      ok, ticket, claimed := false, generation + 1, View();
      if MayStart(status) {
        ok, ticket, claimed := StartExpected(0, tripped, conflict, port, now, calm);
        return;
      }
      ghost var v := View();
      var granted := PersistIntent(true, calm);
      if granted.None? {
        return;
      }
      StepSound(v, Begin(true));
      GrantIsCurrent(Apply(v, Begin(true)));
      var stopped := Stop(false, granted.value, calm);
      if !stopped {
        return;
      }
      Meanwhile(granted.value, calm);
      // the container's exit
      var exited: bool := *;
      if exited || calm {
        ghost var u := View();
        StepSound(u, Become(Stopped, true));
        StepSound(Apply(u, Become(Stopped, true)), Save(true));
        SetStatus(Stopped, true, calm);
      }
      // the stop landed, or the restart is abandoned
      if MayStart(status) {
        ok, ticket, claimed := StartExpected(granted.value, tripped, conflict, port, now, calm);
      }
    }

    /** Boot resume of a server that should be up: an existing intent is used as it is, a server without one
        gets one. */
    method Resume(calm: bool) returns (pending: Option<nat>)
      requires Valid()
      modifies this
      ensures Valid()
      ensures pending.Some? ==> pending.value in tickets && Current(View(), pending.value)
      ensures pending.Some? ==> saved.desired == Some(true) && saved.generation == pending.value
      ensures old(desired) == Some(false) || old(status) != Stopped ==> pending.None? && View() == old(View())
      ensures calm && registered && old(status) == Stopped && old(desired) != Some(false) ==> pending.Some?
    {
      if status != Stopped || desired == Some(false) {
        return None;
      }
      if desired.None? || generation == 0 {
        ghost var v := View();
        pending := PersistIntent(true, calm);
        if pending.Some? {
          StepSound(v, Begin(true));
          GrantIsCurrent(Apply(v, Begin(true)));
        }
        return;
      }
      assert desired.value;
      tickets := tickets + {generation};
      return Some(generation);
    }
  }

  lemma Agrees(v: Sys)
    requires Sound(v) && v.prior.None?
    ensures v.mem.generation == v.saved.generation
  {
  }

  lemma ClaimIsWanted(v: Sys, op: Op)
    requires Sound(v) && Allowed(v, op) && op.Claim? && Commits(v, op) && Current(v, op.ticket)
    ensures v.saved.desired == Some(true) && v.saved.generation == op.ticket
  {
  }
}
