/** The task scheduler in place: every change to a task is persisted with the whole list or taken back. */
module Scheduler {
  import opened Options
  import opened Schedule

  class Scheduler {
    var tasks: map<string, Task>
    /** What tasks.json holds. */
    var saved: map<string, Task>
    var running: map<string, Exec>
    /** The copies the tick under way works from, and the runs it admitted that have not entered yet. */
    var looks: map<string, Task>
    var queued: map<string, nat>
    ghost var claims: map<string, nat>

    ghost predicate Valid()
      reads this
    {
      && tasks.Keys == saved.Keys && running.Keys <= tasks.Keys
      && queued.Keys == claims.Keys == tasks.Keys
    }

    ghost function View(id: string): Sys
      requires Valid() && id in tasks
      reads this
    {
      Sys(tasks[id], saved[id], if id in looks then Some(looks[id]) else None, queued[id],
          if id in running then Some(running[id]) else None, claims[id])
    }

    /** newScheduler: runs that were under way are reported, one-shots among them disabled. */
    constructor (file: map<string, Task>)
      ensures Valid() && saved == file && tasks.Keys == file.Keys && running == map[]
      ensures forall id <- tasks :: tasks[id] == Reloaded(file[id])
      ensures forall id <- tasks :: file[id].state != Running ==> tasks[id] == file[id]
      ensures forall id <- tasks :: file[id].state == Running ==>
        tasks[id] == file[id].(state := Interrupted, enabled := file[id].repeat && file[id].enabled)
    {
      saved := file;
      running, looks := map[], map[];
      queued, claims := map id <- file :: 0, map id <- file :: 0;
      tasks := file;
      new;
      var rest := file.Keys;
      while rest != {}
        invariant rest <= file.Keys == tasks.Keys && saved == file && Valid() && running == map[]
        invariant forall id <- tasks :: tasks[id] == if id in rest then file[id] else Reloaded(file[id])
        decreases rest
      {
        var id :| id in rest;
        var t := tasks[id];
        if t.state == Running {
          t := t.(state := Interrupted);
          if !t.repeat {
            t := t.(enabled := false);
          }
          tasks := tasks[id := t];
        }
        rest := rest - {id};
      }
    }

    /** record: the whole list is written with the change, or the change is undone. */
    method Record(id: string, t: Task, calm: bool) returns (ok: bool)
      requires Valid() && id in tasks
      modifies this`tasks, this`saved
      ensures Valid() && tasks.Keys == old(tasks).Keys
      ensures ok ==> tasks == old(tasks)[id := t] && saved == tasks
      ensures !ok ==> tasks == old(tasks) && saved == old(saved)
      ensures calm ==> ok
    {
      var before := tasks[id];
      tasks := tasks[id := t];
      ok := *;
      if calm || ok {
        ok := true;
        saved := tasks;
      } else {
        tasks := tasks[id := before];
      }
    }

    /** List: the copies a tick decides on. */
    method Look(id: string)
      requires Valid() && id in tasks
      modifies this`looks
      ensures Valid() && View(id) == Apply(old(View(id)), Schedule.Look) && looks.Keys == old(looks).Keys + {id}
    {
      looks := looks[id := tasks[id]];
    }

    /** One task of dispatchDue: mark the occurrence pending, then hand it to a slot if one is free. */
    method Dispatch(id: string, copy: Task, day: nat, past: bool, room: bool, calm: bool)
      returns (marked: bool, admitted: bool)
      requires Valid() && id in tasks && id in looks && looks[id] == copy && 0 < day
      modifies this`tasks, this`saved, this`queued
      ensures Valid() && tasks.Keys == old(tasks).Keys
      ensures marked ==> Allowed(old(View(id)), Mark(day, true)) && past
      ensures admitted ==> Allowed(old(View(id)), Admit)
      ensures
        var v := if marked then Apply(old(View(id)), Mark(day, true)) else old(View(id));
        View(id) == if admitted then Apply(v, Admit) else v
      ensures !marked ==> tasks == old(tasks) && saved == old(saved)
      ensures marked ==> saved == tasks && forall o <- tasks :: o != id ==> tasks[o] == old(tasks)[o]
      ensures marked ==>
        var was, t := old(tasks)[id], tasks[id];
        && t.enabled == was.enabled && t.repeat == was.repeat && t.lastRun == was.lastRun && t.runs == was.runs
        && if was.enabled then t.pendingAt == day && t.state == Pending else t == was
      ensures !copy.enabled || (copy.pendingAt == 0 && (!past || copy.lastRun == day)) ==> !marked && !admitted
      ensures calm && Due(copy, day) && past ==> marked
      ensures calm && room && copy.enabled && (copy.pendingAt != 0 || marked) ==> admitted
    {
      marked, admitted := false, false;
      if !copy.enabled {
        return;
      }
      if copy.pendingAt == 0 {
        if !past || copy.lastRun == day {
          return;
        }
        marked := Record(id, Marked(tasks[id], day), calm);
        if !marked {
          return;
        }
      }
      if room {
        queued := queued[id := queued[id] + 1];
        admitted := true;
      }
    }

    /** The running map lets one run of a task in at a time. */
    method EnterRun(id: string, scheduled: bool) returns (entered: bool)
      requires Valid() && id in tasks && (scheduled ==> queued[id] > 0)
      modifies this`running, this`queued
      ensures Valid() && View(id) == Apply(old(View(id)), Enter(scheduled))
      ensures entered <==> id !in old(running)
      ensures running == if entered then old(running)[id := Exec(scheduled, false)] else old(running)
    {
      if scheduled {
        queued := queued[id := queued[id] - 1];
      }
      if id in running {
        return false;
      }
      running := running[id := Exec(scheduled, false)];
      return true;
    }

    /** The claim: recorded before any step, refused to a scheduled run of a task disabled meanwhile. */
    method ClaimRun(id: string, day: nat, calm: bool) returns (claimed: bool)
      requires Valid() && id in tasks && id in running && !running[id].claimed && 0 < day
      modifies this`tasks, this`saved, this`running, this`claims
      ensures Valid() && tasks.Keys == old(tasks).Keys
      ensures claimed ==> View(id) == Apply(old(View(id)), Claim(day, true))
      ensures claimed ==> running == old(running)[id := old(running)[id].(claimed := true)]
      ensures claimed ==> saved == tasks == old(tasks)[id := ClaimedTask(old(tasks)[id], day)]
      ensures claimed ==> old(running)[id].scheduled ==> old(tasks)[id].enabled
      ensures !claimed ==> tasks == old(tasks) && running == old(running) - {id} && claims == old(claims)
      ensures calm ==> (claimed <==> old(running)[id].scheduled ==> old(tasks)[id].enabled)
    {
      var scheduled := running[id].scheduled;
      claimed := !(scheduled && !tasks[id].enabled);
      ghost var armed := Armed(tasks[id]);
      var ok := Record(id, if claimed then ClaimedTask(tasks[id], day) else tasks[id], calm);
      if !ok || !claimed {
        running := running - {id};
        return false;
      }
      running := running[id := Exec(scheduled, true)];
      if scheduled && armed {
        claims := claims[id := claims[id] + 1];
      }
    }

    method FinishRun(id: string, day: nat, failed: bool, calm: bool) returns (ok: bool)
      requires Valid() && id in tasks && id in running && running[id].claimed
      modifies this`tasks, this`saved, this`running
      ensures Valid() && tasks.Keys == old(tasks).Keys && running == old(running) - {id}
      ensures View(id) == Apply(old(View(id)), Finish(day, failed, ok))
      ensures calm ==> ok
      ensures ok ==> saved == tasks == old(tasks)[id := Finished(old(tasks)[id], day, failed)]
      ensures !ok ==> tasks == old(tasks) && saved == old(saved)
    {
      ok := Record(id, Finished(tasks[id], day, failed), calm);
      running := running - {id};
    }

    /** Update: disabling cancels a pending occurrence; a failed write leaves the task as it was. */
    method Update(id: string, enabled: bool, repeat: bool, calm: bool) returns (ok: bool)
      requires Valid()
      modifies this`tasks, this`saved, this`claims
      ensures Valid() && tasks.Keys == old(tasks).Keys
      ensures id in tasks ==> View(id) == Apply(old(View(id)), Edit(enabled, repeat, ok))
      ensures !ok ==> tasks == old(tasks) && saved == old(saved)
      ensures calm ==> (ok <==> id in tasks)
      ensures ok ==> id in tasks && (forall o <- tasks :: o != id ==> tasks[o] == old(tasks)[o]) && saved == tasks
      ensures ok ==>
        var was, t := old(tasks)[id], tasks[id];
        && t.enabled == enabled && t.repeat == repeat && t.lastRun == was.lastRun && t.runs == was.runs
        && if was.enabled && !enabled && was.state == Pending then t.pendingAt == 0 && t.state == Cancelled
           else t.pendingAt == was.pendingAt && t.state == was.state
    {
      if id !in tasks {
        return false;
      }
      ghost var before := tasks[id];
      ok := Record(id, Edited(tasks[id], enabled, repeat), calm);
      if ok && Armed(tasks[id]) && !Armed(before) {
        claims := claims[id := 0];
      }
    }

    /** What may happen while a run waits for its steps: edits, ticks, runs of other tasks, and attempts at another run
        of this one. */
    method Meanwhile(id: string, calm: bool)
      requires Valid() && id in tasks && id in running
      modifies this
      ensures calm ==> tasks == old(tasks) && saved == old(saved) && running == old(running)
      ensures Valid() && tasks.Keys == old(tasks).Keys
      ensures id in running && running[id] == old(running)[id]
    {
      var more: nat := *;
      while more > 0 && !calm
        invariant calm ==> tasks == old(tasks) && saved == old(saved) && running == old(running)
        invariant Valid() && tasks.Keys == old(tasks).Keys
        invariant id in running && running[id] == old(running)[id]
      {
        Other(id);
        more := more - 1;
      }
    }

    method Other(id: string)
      requires Valid() && id in tasks && id in running
      modifies this
      ensures Valid() && tasks.Keys == old(tasks).Keys
      ensures id in running && running[id] == old(running)[id]
    {
      hide Apply, Allowed, Due;
      var o: string, a: bool, b: bool, day: nat := *, *, *, *;
      if {
        case true =>
          var _ := Update(o, a, b, false);
        case o in tasks => Look(o);
        case o in tasks && o in looks && 0 < day =>
          var _, _ := Dispatch(o, looks[o], day, a, b, false);
        case o in tasks && (a ==> queued[o] > 0) =>
          var _ := EnterRun(o, a);
        case o in running && o != id && !running[o].claimed && 0 < day =>
          var _ := ClaimRun(o, day, false);
        case o in running && o != id && running[o].claimed =>
          var _ := FinishRun(o, day, a, false);
      }
    }

    /** The steps of a claimed run, up to the first that fails. */
    method RunSteps(id: string, steps: seq<string>, calm: bool) returns (done: nat, failed: bool)
      requires Valid() && id in tasks && id in running
      modifies this
      ensures Valid() && tasks.Keys == old(tasks).Keys && done <= |steps| && (failed <==> done < |steps|)
      ensures id in running && running[id] == old(running)[id]
      ensures calm ==> tasks == old(tasks) && saved == old(saved) && running == old(running)
    {
      done, failed := 0, false;
      while done < |steps| && !failed
        invariant Valid() && tasks.Keys == old(tasks).Keys && done <= |steps| && (failed ==> done < |steps|)
        invariant id in running && running[id] == old(running)[id]
        invariant calm ==> tasks == old(tasks) && saved == old(saved) && running == old(running)
        decreases |steps| - done, !failed
      {
        Meanwhile(id, calm);
        failed := *;
        if !failed {
          done := done + 1;
        }
      }
    }

    /** A claimed run to its last record. */
    method RunClaimed(id: string, steps: seq<string>, day: nat, calm: bool) returns (done: nat)
      requires Valid() && id in tasks && id in running && running[id].claimed
      modifies this
      ensures Valid() && tasks.Keys == old(tasks).Keys && done <= |steps| && id !in running
      ensures calm ==> saved == tasks == old(tasks)[id := Finished(old(tasks)[id], day, done < |steps|)]
    {
      hide Apply, Finished;
      var failed;
      done, failed := RunSteps(id, steps, calm);
      var _ := FinishRun(id, day, failed, calm);
    }

    /** runTask: steps run only between a recorded claim and the last record; the first failing step ends the run. */
    method RunTask(id: string, scheduled: bool, steps: seq<string>, day: nat, calm: bool)
      returns (ran: bool, done: nat, ghost claim: Option<Sys>)
      requires Valid() && id in tasks && (scheduled ==> queued[id] > 0) && 0 < day
      modifies this
      ensures Valid() && tasks.Keys == old(tasks).Keys && done <= |steps|
      ensures ran <==> claim.Some?
      ensures claim.Some? ==> claim.value.saved.state == Running
      ensures claim.Some? ==> claim.value.saved.lastRun == day && claim.value.saved.pendingAt == 0
      ensures !ran ==> done == 0
      ensures id in old(running) ==> !ran && running == old(running) && tasks == old(tasks)
      ensures id !in old(running) ==> id !in running
      ensures calm && id !in old(running) ==> (ran <==> scheduled ==> old(tasks)[id].enabled)
      ensures calm && ran ==> AfterRun(old(tasks)[id], tasks[id], day, done == |steps|)
      ensures calm && ran ==> saved == tasks == old(tasks)[id := tasks[id]]
    {
      hide Apply, Finished, ClaimedTask, AfterRun;
      ran, done, claim := false, 0, None;
      var entered := EnterRun(id, scheduled);
      if !entered {
        return;
      }
      ClaimedFields(tasks[id], day);
      ran := ClaimRun(id, day, calm);
      if !ran {
        return;
      }
      claim := Some(View(id));
      done := RunClaimed(id, steps, day, calm);
      TwoRecords(old(tasks), id, day, done < |steps|);
    }
  }

  lemma TwoRecords(tasks: map<string, Task>, id: string, day: nat, failed: bool)
    requires id in tasks
    ensures
      var t := Finished(ClaimedTask(tasks[id], day), day, failed);
      && tasks[id := ClaimedTask(tasks[id], day)][id := t] == tasks[id := t]
      && AfterRun(tasks[id], t, day, !failed)
  {
  }

  /** A finished run counted and dated, a one-shot disabled, and its end told from a failure. */
  predicate AfterRun(was: Task, t: Task, day: nat, completed: bool) {
    && t.runs == was.runs + 1 && t.lastRun == day && t.pendingAt == 0 && t.repeat == was.repeat
    && t.enabled == (was.enabled && was.repeat) && t.state == if completed then Completed else Broken
  }

  lemma ClaimedFields(was: Task, day: nat)
    ensures
      var t := ClaimedTask(was, day);
      t.state == Running && t.lastRun == day && t.pendingAt == 0
  {
  }
}
