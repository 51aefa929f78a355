/**
 Server deletion as a state machine: the list in memory and in servers.json, the durable tombstones, and the data they
 condemn. Saves, registrations and other deletions interleave, and the process may die between any two steps.
 */
module Tombstones {
  import opened Options

  type Id = string

  /** What stands under a server's own path: its tree, or a link to an operator's. */
  datatype Place = Tree | Link

  datatype Intent = Intent(data: bool, backups: bool)

  datatype Stage = Marked | Detached | Cleaned(clean: bool) | Saved(clean: bool, listed: bool)

  /** A save under way: the list it took, and the deletion that asked for it. */
  datatype Saving = Saving(list: set<Id>, owner: Option<Id>)

  /** doomed and ever are history: the tombstones that ever became durable, and every server that was registered. */
  datatype Sys = Sys(
    servers: set<Id>,
    saved: set<Id>,
    tombs: map<Id, Intent>,
    places: map<Id, Place>,
    backups: set<Id>,
    saving: Option<Saving>,
    work: map<Id, Stage>,
    doomed: map<Id, Intent>,
    ever: set<Id>)

  datatype Op =
    | Register(id: Id, place: Place)
    | Mark(id: Id, intent: Intent, published: bool, ok: bool)
    | Detach(id: Id)
    | Clean(id: Id, stopped: bool, placeGone: bool, backupsGone: bool)
    | Snapshot(owner: Option<Id>)
    | Publish(ok: bool)
    | Forget(id: Id, removed: bool)
    | Die
    | Boot

  // ----- the steps

  /** A deletion looks its server up before it waits for the server's gate, so one that waited for another deletion of
      the same server marks it again when it is off the list. */
  predicate Allowed(v: Sys, op: Op) {
    match op
    case Register(id, _) => id !in v.ever
    case Mark(id, _, published, ok) => id in v.ever && id !in v.work && (ok ==> published)
    case Detach(id) => id in v.work && v.work[id] == Marked
    case Clean(id, _, _, _) => id in v.work && v.work[id] == Detached && id in v.tombs
    case Snapshot(owner) => v.saving.None? && (owner.Some? ==> owner.value in v.work && v.work[owner.value].Cleaned?)
    case Publish(_) => v.saving.Some?
    case Forget(id, _) => id in v.work && v.work[id].Saved?
    case Die => true
    case Boot => v.servers == {} && v.saving.None? && v.work == map[]
  }

  /** completeDeletion on one server's paths: the container first, then the place, then the backups. */
  predicate Cleans(i: Intent, stopped: bool, placeGone: bool, backupsGone: bool) {
    stopped && placeGone && (i.backups ==> backupsGone)
  }

  function AfterClean(v: Sys, id: Id, stopped: bool, placeGone: bool, backupsGone: bool): Sys
    requires id in v.tombs
  {
    var i := v.tombs[id];
    if !stopped || !placeGone then v
    else
      var w := if i.data || (id in v.places && v.places[id] == Link) then v.(places := v.places - {id}) else v;
      if i.backups && backupsGone then w.(backups := w.backups - {id}) else w
  }

  function Apply(v: Sys, op: Op): Sys
    requires Allowed(v, op)
  {
    match op
    case Register(id, place) =>
      v.(servers := v.servers + {id}, places := v.places[id := place], ever := v.ever + {id})
    case Mark(id, intent, published, ok) =>
      var w := if published then v.(tombs := v.tombs[id := intent], doomed := v.doomed[id := intent]) else v;
      if ok then w.(work := w.work[id := Marked]) else w
    case Detach(id) => v.(servers := v.servers - {id}, work := v.work[id := Detached])
    case Clean(id, stopped, placeGone, backupsGone) =>
      AfterClean(v, id, stopped, placeGone, backupsGone).(
        work := v.work[id := Cleaned(Cleans(v.tombs[id], stopped, placeGone, backupsGone))])
    case Snapshot(owner) => v.(saving := Some(Saving(v.servers, owner)))
    case Publish(ok) =>
      var s := v.saving.value;
      var w := (if ok then v.(saved := s.list) else v).(saving := None);
      if s.owner.Some? && s.owner.value in v.work && v.work[s.owner.value].Cleaned? then
        w.(work := w.work[s.owner.value := Stage.Saved(v.work[s.owner.value].clean, ok)])
      else w
    case Forget(id, removed) =>
      var w := if v.work[id].clean && v.work[id].listed && removed then v.(tombs := v.tombs - {id}) else v;
      w.(work := v.work - {id})
    case Die => v.(servers := {}, saving := None, work := map[])
    case Boot => v.(servers := v.saved - v.tombs.Keys, work := map id <- v.tombs :: Detached)
  }

  // ----- the invariant

  /** What the tombstone asked for is gone. */
  predicate Gone(v: Sys, id: Id, i: Intent) {
    && (i.data ==> id !in v.places)
    && (!i.data ==> id !in v.places || v.places[id] == Tree)
    && (i.backups ==> id !in v.backups)
  }

  predicate Absent(v: Sys, id: Id) {
    id !in v.servers && id !in v.saved && (v.saving.Some? ==> id !in v.saving.value.list)
  }

  /** Past the mark a server is off the list in memory; once its own save was written, off every list. */
  predicate WorkSound(v: Sys, id: Id)
    requires id in v.work
  {
    && id in v.tombs
    && (v.work[id] != Marked ==> id !in v.servers)
    && (v.work[id].Cleaned? && v.work[id].clean ==> Gone(v, id, v.tombs[id]))
    && (v.work[id].Saved? && v.work[id].clean ==> Gone(v, id, v.tombs[id]))
    && (v.work[id].Saved? && v.work[id].listed ==> Absent(v, id))
  }

  predicate SavingSound(v: Sys) {
    v.saving.Some? && v.saving.value.owner.Some? ==>
      var id := v.saving.value.owner.value;
      id in v.work && v.work[id].Cleaned? && id !in v.saving.value.list
  }

  predicate Sound(v: Sys) {
    && (forall id <- v.doomed ::
          if id in v.tombs then v.tombs[id] == v.doomed[id] else Absent(v, id) && Gone(v, id, v.doomed[id]))
    && v.tombs.Keys <= v.doomed.Keys <= v.ever
    && (forall id <- v.work :: WorkSound(v, id))
    && SavingSound(v)
    && (forall id <- v.ever :: id in v.places || id in v.doomed)
    && v.servers <= v.ever && v.saved <= v.ever && (v.saving.Some? ==> v.saving.value.list <= v.ever)
  }

  lemma RegisterSound(v: Sys, op: Op)
    requires Sound(v) && op.Register? && Allowed(v, op)
    ensures Sound(Apply(v, op))
  {
  }

  lemma MarkSound(v: Sys, op: Op)
    requires Sound(v) && op.Mark? && Allowed(v, op)
    ensures Sound(Apply(v, op))
  {
  }

  lemma DetachSound(v: Sys, op: Op)
    requires Sound(v) && op.Detach? && Allowed(v, op)
    ensures Sound(Apply(v, op))
  {
  }

  /** Cleaning only ever takes paths away, so what was gone stays gone. */
  lemma CleanOnlyTakes(v: Sys, id: Id, stopped: bool, placeGone: bool, backupsGone: bool)
    requires id in v.tombs
    ensures
      var w := AfterClean(v, id, stopped, placeGone, backupsGone);
      && w == v.(places := w.places, backups := w.backups)
      && w.places.Keys <= v.places.Keys && (forall o <- w.places :: w.places[o] == v.places[o])
      && w.backups <= v.backups && (forall o <- v.places :: o in w.places || o == id)
      && (Cleans(v.tombs[id], stopped, placeGone, backupsGone) ==> Gone(w, id, v.tombs[id]))
  {
  }

  lemma StaysGone(v: Sys, w: Sys, id: Id, i: Intent)
    requires Gone(v, id, i) && w.backups <= v.backups
    requires w.places.Keys <= v.places.Keys && forall o <- w.places :: w.places[o] == v.places[o]
    ensures Gone(w, id, i)
  {
  }

  lemma CleanSound(v: Sys, op: Op)
    requires Sound(v) && op.Clean? && Allowed(v, op)
    ensures Sound(Apply(v, op))
  {
    hide AfterClean, Gone, Cleans;
    assert WorkSound(v, op.id);
    var w := Apply(v, op);
    CleanOnlyTakes(v, op.id, op.stopped, op.placeGone, op.backupsGone);
    forall o | o in v.doomed && Gone(v, o, v.doomed[o]) ensures Gone(w, o, v.doomed[o]) {
      StaysGone(v, w, o, v.doomed[o]);
    }
    forall o | o in v.work && o in v.tombs && Gone(v, o, v.tombs[o]) ensures Gone(w, o, v.tombs[o]) {
      StaysGone(v, w, o, v.tombs[o]);
    }
    StaysGoneTo(AfterClean(v, op.id, op.stopped, op.placeGone, op.backupsGone), w, op.id, v.tombs[op.id]);
  }

  lemma StaysGoneTo(v: Sys, w: Sys, id: Id, i: Intent)
    requires v.places == w.places && v.backups == w.backups
    ensures Gone(v, id, i) ==> Gone(w, id, i)
  {
  }

  lemma SnapshotSound(v: Sys, op: Op)
    requires Sound(v) && op.Snapshot? && Allowed(v, op)
    ensures Sound(Apply(v, op))
  {
  }

  lemma PublishSound(v: Sys, op: Op)
    requires Sound(v) && op.Publish? && Allowed(v, op)
    ensures Sound(Apply(v, op))
  {
  }

  lemma ForgetSound(v: Sys, op: Op)
    requires Sound(v) && op.Forget? && Allowed(v, op)
    ensures Sound(Apply(v, op))
  {
  }

  lemma DieSound(v: Sys, op: Op)
    requires Sound(v) && op.Die? && Allowed(v, op)
    ensures Sound(Apply(v, op))
  {
  }

  lemma BootSound(v: Sys, op: Op)
    requires Sound(v) && op.Boot? && Allowed(v, op)
    ensures Sound(Apply(v, op))
  {
  }

  lemma StepSound(v: Sys, op: Op)
    requires Sound(v) && Allowed(v, op)
    ensures Sound(Apply(v, op))
  {
    hide Sound, Allowed, Apply;
    match op {
      case Register(_, _) => RegisterSound(v, op);
      case Mark(_, _, _, _) => MarkSound(v, op);
      case Detach(_) => DetachSound(v, op);
      case Clean(_, _, _, _) => CleanSound(v, op);
      case Snapshot(_) => SnapshotSound(v, op);
      case Publish(_) => PublishSound(v, op);
      case Forget(_, _) => ForgetSound(v, op);
      case Die => DieSound(v, op);
      case Boot => BootSound(v, op);
    }
  }

  // ----- what deletion promises

  /** Data goes only while its tombstone stands, and a tombstone goes only once the saved list is without the server and
      everything it condemned is gone. */
  lemma OrderOfRemoval(v: Sys, op: Op, id: Id)
    requires Sound(v) && Allowed(v, op)
    ensures id in v.places && id !in Apply(v, op).places ==>
      id in v.tombs && id !in v.servers && (v.tombs[id].data || v.places[id] == Link)
    ensures id in v.backups && id !in Apply(v, op).backups ==> id in v.tombs && id !in v.servers && v.tombs[id].backups
    ensures id in v.tombs && id !in Apply(v, op).tombs ==> Absent(v, id) && Gone(v, id, v.tombs[id])
  {
    if op.Clean? || op.Forget? {
      assert WorkSound(v, op.id);
    }
  }

  predicate Run(vs: seq<Sys>, ops: seq<Op>) {
    |vs| == |ops| + 1
    && forall i :: 0 <= i < |ops| ==> Allowed(vs[i], ops[i]) && vs[i + 1] == Apply(vs[i], ops[i])
  }

  lemma {:induction false} RunSound(vs: seq<Sys>, ops: seq<Op>)
    requires Run(vs, ops) && Sound(vs[0])
    ensures forall v <- vs :: Sound(v)
    decreases |ops|
  {
    hide Sound, Apply, Allowed;
    if ops != [] {
      StepSound(vs[0], ops[0]);
      RunSound(vs[1..], ops[1..]);
      assert vs == [vs[0]] + vs[1..];
    }
  }

  predicate Out(v: Sys, id: Id) {
    id in v.doomed && id !in v.servers
  }

  lemma OutStep(v: Sys, op: Op, id: Id)
    requires Sound(v) && Allowed(v, op)
    requires id in v.doomed && (op.Boot? || id !in v.servers)
    ensures Out(Apply(v, op), id)
  {
  }

  lemma {:induction false} StaysOut(vs: seq<Sys>, ops: seq<Op>, id: Id)
    requires Run(vs, ops) && Sound(vs[0]) && Out(vs[0], id)
    ensures forall v <- vs :: Out(v, id)
    decreases |ops|
  {
    hide Sound, Apply, Allowed, Out;
    if ops != [] {
      StepSound(vs[0], ops[0]);
      assert id in vs[0].doomed && id !in vs[0].servers by {
        OutMeans(vs[0], id);
      }
      OutStep(vs[0], ops[0], id);
      StaysOut(vs[1..], ops[1..], id);
      assert vs == [vs[0]] + vs[1..];
    }
  }

  lemma OutMeans(v: Sys, id: Id)
    ensures Out(v, id) <==> id in v.doomed && id !in v.servers
  {
  }

  /** Deletion is final: once its tombstone was durable a server is absent after the next boot and ever after, whatever
      crashes, saves and other deletions happen in between. */
  lemma DeletionIsFinal(vs: seq<Sys>, ops: seq<Op>, i: nat, k: nat, id: Id)
    requires Run(vs, ops) && Sound(vs[0]) && i <= k < |ops| && ops[k] == Boot && id in vs[i].doomed
    ensures forall j :: k < j <= |ops| ==> id !in vs[j].servers
  {
    hide Sound, Apply, Allowed;
    RunSound(vs, ops);
    DoomedStays(vs, ops, i, k, id);
    assert vs[k] in vs && vs[k + 1] == Apply(vs[k], ops[k]) && Allowed(vs[k], ops[k]);
    OutStep(vs[k], ops[k], id);
    StepSound(vs[k], ops[k]);
    StaysOut(vs[k + 1..], ops[k + 1..], id);
    forall j | k < j <= |ops| ensures id !in vs[j].servers {
      assert vs[k + 1..][j - k - 1] == vs[j] && Out(vs[j], id);
    }
  }

  lemma DoomedStep(v: Sys, op: Op)
    requires Allowed(v, op)
    ensures v.doomed.Keys <= Apply(v, op).doomed.Keys
  {
  }

  lemma {:induction false} DoomedStays(vs: seq<Sys>, ops: seq<Op>, i: nat, k: nat, id: Id)
    requires Run(vs, ops) && i <= k <= |ops| && id in vs[i].doomed
    ensures id in vs[k].doomed
    decreases k - i
  {
    hide Apply, Allowed;
    if i < k {
      assert Allowed(vs[i], ops[i]) && vs[i + 1] == Apply(vs[i], ops[i]);
      DoomedStep(vs[i], ops[i]);
      DoomedStays(vs, ops, i + 1, k, id);
    }
  }

  /** A deletion whose first write reports an error leaves the server alone exactly when that write was not published:
      an error after the rename still deletes at the next boot. */
  lemma RefusedDeletion(v: Sys, id: Id, intent: Intent, published: bool)
    requires Sound(v) && Allowed(v, Mark(id, intent, published, false)) && id in v.saved && id !in v.tombs
    ensures
      var w := Apply(Apply(Apply(v, Mark(id, intent, published, false)), Die), Boot);
      && (id in Apply(v, Mark(id, intent, published, false)).servers <==> id in v.servers)
      && (id in w.servers <==> !published)
  {
  }
}
