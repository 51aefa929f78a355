/**
 Deleting a server in place, and the load that finishes what a dead process left. The process may die at any point.
 */
module Deletion {
  import opened Options
  import opened Effects
  import opened Tombstones

  datatype Container = Up | Down | Missing | Unknown

  class Panel {
    var servers: set<Id>
    /** servers.json, the files under deletions, the server directories and the backup directories. */
    var saved: set<Id>
    var tombs: map<Id, Intent>
    var places: map<Id, Place>
    var backups: set<Id>
    ghost var work: map<Id, Stage>
    ghost var doomed: map<Id, Intent>
    /** Identifiers given out so far: the random source never repeats one. */
    var ever: set<Id>

    ghost function View(): Sys
      reads this
    {
      Sys(servers, saved, tombs, places, backups, None, work, doomed, ever)
    }

    ghost predicate Valid()
      reads this
    {
      Sound(View())
    }

    constructor ()
      ensures Valid() && servers == saved == {} && tombs == map[] && doomed == map[]
    {
      servers, saved, tombs, places, backups := {}, {}, map[], map[], {};
      work, doomed, ever := map[], map[], {};
    }

    method Die()
      requires Valid()
      modifies this`servers, this`work
      ensures Valid() && servers == {} && work == map[]
    {
      hide Sound;
      StepSound(View(), Op.Die);
      servers, work := {}, map[];
    }

    method Register(id: Id, place: Place)
      requires Valid() && id !in ever
      modifies this`servers, this`places, this`ever
      ensures Valid() && View() == Apply(old(View()), Op.Register(id, place))
    {
      hide Sound;
      StepSound(View(), Op.Register(id, place));
      servers, places, ever := servers + {id}, places[id := place], ever + {id};
    }

    /** Save on behalf of a deletion, or of anybody. */
    method Save(ghost owner: Option<Id>, calm: bool) returns (fate: Fate)
      requires Valid() && (owner.Some? ==> owner.value in work && work[owner.value].Cleaned?)
      modifies this`saved, this`work
      ensures Valid()
      ensures saved == if fate.Done? then servers else old(saved)
      ensures owner.Some? && !fate.Died? ==>
        work == old(work)[owner.value := Stage.Saved(old(work)[owner.value].clean, fate.Done?)]
      ensures owner.None? || fate.Died? ==> work == old(work)
      ensures calm ==> fate.Done?
    {
      hide Sound;
      fate := Chance(calm);
      if fate.Died? {
        return;
      }
      ghost var v := View();
      StepSound(v, Snapshot(owner));
      StepSound(Apply(v, Snapshot(owner)), Publish(fate.Done?));
      if fate.Done? {
        saved := servers;
      }
      if owner.Some? {
        work := work[owner.value := Stage.Saved(work[owner.value].clean, fate.Done?)];
      }
      assert View() == Apply(Apply(v, Snapshot(owner)), Publish(fate.Done?));
    }

    /** The tombstone. writeDurable can report an error although the file is in place. */
    method BeginDeletion(id: Id, intent: Intent, calm: bool) returns (fate: Fate)
      requires Valid() && id in ever && id !in work
      modifies this`tombs, this`work, this`doomed
      ensures Valid()
      ensures fate.Done? ==> View() == Apply(old(View()), Mark(id, intent, true, true))
      ensures !fate.Done? ==> work == old(work)
      ensures !fate.Done? ==> View() == old(View()) || View() == Apply(old(View()), Mark(id, intent, true, false))
      ensures calm ==> fate.Done?
    {
      hide Sound;
      fate := Chance(calm);
      var published: bool := *;
      ghost var v := View();
      if fate.Done? || published {
        StepSound(v, Mark(id, intent, true, fate.Done?));
        tombs, doomed := tombs[id := intent], doomed[id := intent];
      }
      if fate.Done? {
        work := work[id := Marked];
      }
    }

    /** Off the list in memory, under the lock that starts wait for. */
    method Detach(id: Id)
      requires Valid() && id in work && work[id] == Marked
      modifies this`servers, this`work
      ensures Valid() && View() == Apply(old(View()), Op.Detach(id))
    {
      hide Sound;
      StepSound(View(), Op.Detach(id));
      servers, work := servers - {id}, work[id := Detached];
    }

    /** completeDeletion. A container that is not known to be down keeps everything. */
    method CompleteDeletion(id: Id, intent: Intent, docker: bool, container: Container, calm: bool)
      returns (fate: Fate)
      requires Valid() && id in work && work[id] == Detached && id in tombs && tombs[id] == intent
      modifies this`places, this`backups, this`work
      ensures Valid()
      ensures fate.Died? ==> work == old(work)
      ensures !fate.Died? ==> work == old(work)[id := Cleaned(fate.Done?)]
      ensures fate.Done? ==> Gone(View(), id, intent)
      ensures docker && (container.Up? || container.Unknown?) ==>
        places == old(places) && backups == old(backups) && fate.Refused?
      ensures calm && !(docker && (container.Up? || container.Unknown?)) ==> fate.Done?
    {
      hide Sound;
      ghost var v := View();
      var stopped := !docker || container.Down? || container.Missing?;
      StepSound(v, Clean(id, stopped, false, false));
      StepSound(v, Clean(id, stopped, true, false));
      StepSound(v, Clean(id, stopped, true, true));
      if !stopped {
        work := work[id := Cleaned(false)];
        return Refused;
      }
      fate := Chance(calm);
      if !fate.Done? {
        if fate.Refused? {
          work := work[id := Cleaned(false)];
        }
        return;
      }
      if intent.data || (id in places && places[id] == Link) {
        places := places - {id};
      }
      if intent.backups {
        fate := Chance(calm);
        if fate.Done? {
          backups := backups - {id};
        }
      }
      ClearedPlace(v, Clean(id, true, true, false));
      if !fate.Died? {
        work := work[id := Cleaned(fate.Done?)];
      }
    }

    /** The tombstone goes after a complete cleanup and a saved list; a failed removal only keeps it for the
        next boot. */
    method Forget(id: Id, complete: bool, calm: bool)
      requires Valid() && id in work && work[id].Saved? && (complete ==> work[id] == Stage.Saved(true, true))
      modifies this`tombs, this`work
      ensures Valid() && work == old(work) - {id}
      ensures tombs == old(tombs) || (tombs == old(tombs) - {id} && old(work)[id] == Stage.Saved(true, true))
      ensures calm && complete ==> tombs == old(tombs) - {id}
    {
      hide Sound;
      StepSound(View(), Op.Forget(id, complete));
      StepSound(View(), Op.Forget(id, false));
      var removed: bool := *;
      if (removed || calm) && complete {
        tombs := tombs - {id};
      }
      work := work - {id};
    }

    /** Registrations and saves of other requests. */
    method Meanwhile()
      requires Valid()
      modifies this`servers, this`places, this`ever, this`saved, this`work
      ensures Valid() && work == old(work) && old(servers) <= servers && servers - old(servers) !! old(ever)
    {
      hide Sound;
      var more: nat := *;
      while more > 0
        invariant Valid() && work == old(work) && old(servers) <= servers
        invariant old(ever) <= ever && servers - old(servers) !! old(ever)
      {
        var id: Id, place: Place := *, *;
        if id !in ever {
          Register(id, place);
        }
        var _ := Save(None, false);
        more := more - 1;
      }
    }

    /**
     DeleteIntent. An error before the tombstone changes nothing in memory; after it the server is off the panel
     whatever the cleanup does, and the tombstone outlives every incomplete cleanup.
     */
    method DeleteIntent(id: Id, intent: Intent, live: bool, docker: bool, container: Container, calm: bool)
      returns (fate: Fate)
      requires Valid() && id !in work
      modifies this
      ensures Valid()
      ensures fate.Done? ==> id in old(servers) && id !in servers && id !in saved && Gone(View(), id, intent)
      ensures id !in old(servers) || live ==> fate.Refused? && View() == old(View())
      ensures fate.Refused? && id in servers ==> servers == old(servers)
      ensures id in old(servers) && id !in servers && !fate.Died? ==> id in doomed
      ensures id in old(servers) && id !in servers && fate.Refused? ==> id in tombs
      ensures calm && id in old(servers) && !live && !(docker && (container.Up? || container.Unknown?)) ==>
        fate.Done? && id !in tombs
    {
      hide Sound, Gone;
      if id !in servers {
        return Refused;
      }
      OnceListed(View(), id);
      fate := DeleteFound(id, intent, live, docker, container, calm);
    }

    /** What follows the lookup, once the server's gate is free. Another deletion may have held it, so the server can be
        off the list by now: it is condemned and cleaned up again all the same. */
    method DeleteFound(id: Id, intent: Intent, live: bool, docker: bool, container: Container, calm: bool)
      returns (fate: Fate)
      requires Valid() && id in ever && id !in work
      modifies this
      ensures Valid() && (!fate.Died? ==> id !in work)
      ensures fate.Done? ==> id !in servers && id !in saved && Gone(View(), id, intent)
      ensures live ==> fate.Refused? && View() == old(View())
      ensures fate.Refused? && id in servers ==> servers == old(servers)
      ensures id in old(servers) && id !in servers && !fate.Died? ==> id in doomed
      ensures id in old(servers) && id !in servers && fate.Refused? ==> id in tombs
      ensures id !in old(servers) ==> id !in servers
      ensures calm && !live && !(docker && (container.Up? || container.Unknown?)) ==> fate.Done? && id !in tombs
    {
      hide Sound;
      if live {
        return Refused;
      }
      fate := BeginDeletion(id, intent, calm);
      if fate.Died? {
        Die();
        return;
      }
      if fate.Refused? {
        return;
      }
      Detach(id);
      Registered(View(), id);
      Meanwhile();
      Registered(View(), id);
      fate := CompleteDeletion(id, intent, docker, container, calm);
      if fate.Died? {
        Die();
        return;
      }
      var clean := fate.Done?;
      fate := Save(Some(id), calm);
      if fate.Died? {
        Die();
        return;
      }
      var listed := fate.Done?;
      Forget(id, clean && listed, calm);
      fate := if clean && listed then Done else Refused;
    }

    /** One unfinished deletion, retried at boot; undisturbed its container is down. */
    method Retry(id: Id, calm: bool) returns (fate: Fate)
      requires Valid() && id in work && work[id] == Detached && id in tombs
      modifies this
      ensures Valid() && doomed == old(doomed) && servers == if fate.Died? then {} else old(servers)
      ensures tombs == old(tombs) || tombs == old(tombs) - {id}
      ensures !fate.Done? ==> tombs == old(tombs)
      ensures fate.Done? ==> id !in saved && Gone(View(), id, old(tombs)[id])
      ensures !fate.Died? ==> forall o <- old(work) :: o != id ==> o in work && work[o] == old(work)[o]
      ensures calm ==> fate.Done? && tombs == old(tombs) - {id}
    {
      hide Sound, Gone;
      var docker: bool, container: Container := *, *;
      if calm {
        container := Container.Down;
      }
      Off(View(), id);
      fate := CompleteDeletion(id, tombs[id], docker, container, calm);
      if fate.Done? {
        ghost var v := View();
        fate := Save(Some(id), calm);
        if !fate.Died? {
          Forget(id, fate.Done?, calm);
        }
        GoneToo(v, View(), id, old(tombs)[id]);
      }
      if fate.Died? {
        Die();
      }
    }

    /**
     Load after a process death: condemned servers are left off the list before anything else happens, then each
     unfinished deletion is tried again.
     */
    method Load(calm: bool) returns (fate: Fate)
      requires Valid() && servers == {} && work == map[]
      modifies this
      ensures Valid() && doomed == old(doomed)
      ensures servers !! doomed.Keys
      ensures !fate.Died? ==> servers == old(saved) - old(tombs).Keys
      ensures forall id <- old(tombs) :: id in tombs || (id !in saved && Gone(View(), id, old(tombs)[id]))
      ensures calm ==> fate.Done? && tombs == map[]
    {
      hide Sound, Gone;
      StepSound(View(), Boot);
      BootExcludes(View());
      ghost var found := tombs;
      var rest := tombs.Keys;
      servers := saved - rest;
      work := map id <- found :: Detached;
      fate := Done;
      while rest != {} && !fate.Died?
        invariant Valid() && doomed == old(doomed) && servers !! doomed.Keys && rest <= found.Keys
        invariant !fate.Died? ==> servers == old(saved) - found.Keys
        invariant !fate.Died? ==>
          forall id <- rest :: id in work && work[id] == Detached && id in tombs && tombs[id] == found[id]
        invariant forall id <- tombs :: id in found && tombs[id] == found[id]
        invariant calm ==> !fate.Died? && tombs.Keys == rest
        decreases rest
      {
        var id :| id in rest;
        fate := Retry(id, calm);
        rest := rest - {id};
      }
      DroppedIsGone(View());
      if !fate.Died? {
        fate := Done;
      }
    }
  }

  lemma OnceListed(v: Sys, id: Id)
    requires Sound(v) && id in v.servers
    ensures id in v.ever
  {
  }

  lemma Off(v: Sys, id: Id)
    requires Sound(v) && id in v.work && v.work[id].Detached?
    ensures id !in v.servers
  {
    assert WorkSound(v, id);
  }

  lemma GoneToo(v: Sys, w: Sys, id: Id, intent: Intent)
    requires v.places == w.places && v.backups == w.backups
    ensures Gone(v, id, intent) ==> Gone(w, id, intent)
  {
  }

  lemma BootExcludes(v: Sys)
    requires Sound(v)
    ensures v.saved - v.tombs.Keys !! v.doomed.Keys
    ensures forall id <- v.tombs :: id in v.doomed && v.doomed[id] == v.tombs[id]
  {
  }

  lemma DroppedIsGone(v: Sys)
    requires Sound(v)
    ensures forall id <- v.doomed :: id in v.tombs || (id !in v.saved && Gone(v, id, v.doomed[id]))
  {
  }

  /** A condemned server was registered, and its tombstone is the one its deletion carries out. */
  lemma Registered(v: Sys, id: Id)
    requires Sound(v) && id in v.work
    ensures id in v.ever && id in v.tombs
  {
    assert WorkSound(v, id);
  }

  /** A death between the two removals leaves the place cleared and the deletion still to do. */
  lemma ClearedPlace(v: Sys, op: Op)
    requires Sound(v) && op.Clean? && Allowed(v, op)
    ensures Sound(Apply(v, op).(work := v.work))
  {
    hide AfterClean, Gone, Cleans;
    var w := Apply(v, op).(work := v.work);
    CleanOnlyTakes(v, op.id, op.stopped, op.placeGone, op.backupsGone);
    forall o | o in v.doomed && Gone(v, o, v.doomed[o]) ensures Gone(w, o, v.doomed[o]) {
      StaysGone(v, w, o, v.doomed[o]);
    }
    forall o | o in v.work && o in v.tombs && Gone(v, o, v.tombs[o]) ensures Gone(w, o, v.tombs[o]) {
      StaysGone(v, w, o, v.tombs[o]);
    }
  }
}
