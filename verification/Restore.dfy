/**
 RestoreBackup, its in-process rollback and the boot recovery, step by step over the durable disk.
 Every primitive can be carried out, be refused with an error, or be the last thing the process does;
 a method that meets a death returns at once, so its postcondition on that outcome speaks of every
 instant at which the panel can be killed.
 */
module Restore {
  import opened Options
  import opened Effects
  import opened Trees
  import opened RestoreDisk
  import opened RestoreProps
  import Props
  import PropsPort

  /** Retained: the staging directory was kept because it holds the only copy of something. */
  datatype Outcome = Restored | Aborted | Retained | Crashed

  /** Skipped: the directory could not be listed, so recovery said nothing about this server. */
  datatype Recovery = Nothing | Finished | Stuck | Skipped | Interrupted

  function Transaction(before: Disk, archive: Entries): Txn {
    Txn(before.live, archive.Keys, before.saved)
  }

  /** os.ReadDir */
  method ReadDir(m: Entries) returns (names: seq<string>)
    ensures Names(names) == m.Keys && Distinct(names)
  {
    names := [];
    var rest := m.Keys;
    while rest != {}
      invariant rest <= m.Keys && Names(names) == m.Keys - rest && Distinct(names)
      decreases rest
    {
      var n :| n in rest;
      assert forall k :: 0 <= k < |names| ==> names[k] in Names(names);
      NamesAppend(names, n);
      names, rest := names + [n], rest - {n};
    }
  }

  lemma NamesAppend(names: seq<string>, n: string)
    ensures Names(names + [n]) == Names(names) + {n}
  {
    assert forall x :: x in names + [n] <==> x in names || x == n;
  }

  /** Originals are being put back and nothing else is live any more. */
  predicate Returning(t: Txn, d: Disk) {
    && Safe(t, d) && d.staging.Some? && d.staging.value.held.Some? && d.staging.value.journal.Some?
    && !d.staging.value.journal.value.phase.Installing?
    && forall n <- d.live :: n in t.original
  }

  lemma ReturnStep(t: Txn, d: Disk, n: string)
    requires Returning(t, d) && n in d.staging.value.held.value
    ensures Returning(t, MoveBack(d, n))
  {
    MoveBackStep(t, d, n);
  }

  lemma Returned(t: Txn, d: Disk)
    requires Returning(t, d) && d.staging.value.held.value.Keys == {}
    ensures d.live == t.original && d.staging.value.held == Some(map[])
  {
    assert d.staging.value.held.value == map[];
  }

  /** A pass over the held names, the first i of them tried. */
  predicate HalfReturned(t: Txn, before: Disk, names: seq<string>, i: nat, failed: bool, d: Disk) {
    && i <= |names| && Distinct(names) && Returning(t, d) && OnlyHeldChanged(before, d)
    && (forall k :: i <= k < |names| ==> names[k] in d.staging.value.held.value)
    && (!failed ==> d.staging.value.held.value.Keys <= Names(names[i..]))
  }

  lemma NoneReturned(t: Txn, d: Disk, names: seq<string>)
    requires Returning(t, d) && Distinct(names) && Names(names) == d.staging.value.held.value.Keys
    ensures HalfReturned(t, d, names, 0, false, d)
  {
    assert names[0..] == names;
    assert forall k :: 0 <= k < |names| ==> names[k] in Names(names);
  }

  lemma ReturnOne(t: Txn, before: Disk, names: seq<string>, i: nat, failed: bool, d: Disk)
    requires HalfReturned(t, before, names, i, failed, d) && i < |names|
    ensures Returning(t, d) && OnlyHeldChanged(before, d) && names[i] in d.staging.value.held.value
    ensures Returning(t, MoveBack(d, names[i])) && OnlyHeldChanged(before, MoveBack(d, names[i]))
    ensures HalfReturned(t, before, names, i + 1, failed, MoveBack(d, names[i]))
    ensures HalfReturned(t, before, names, i + 1, true, d)
  {
    hide Safe;
    ReturnStep(t, d, names[i]);
    NamesTail(names, i);
  }

  lemma SomeReturned(t: Txn, before: Disk, names: seq<string>, i: nat, failed: bool, d: Disk)
    requires HalfReturned(t, before, names, i, failed, d)
    ensures Returning(t, d) && OnlyHeldChanged(before, d)
    ensures i == |names| && !failed ==> d.live == t.original && d.staging.value.held == Some(map[])
  {
    if i == |names| && !failed {
      assert names[i..] == [];
      Returned(t, d);
    }
  }

  class Host {
    const codec: Codec
    var disk: Disk
    /** The panel's in-memory metadata, and whether the server is locked until it is recovered. */
    var model: Meta
    var recovery: bool

    constructor (disk: Disk, codec: Codec)
      ensures this.disk == disk && this.codec == codec && model == disk.saved && !recovery
    {
      this.codec := codec;
      this.disk, model, recovery := disk, disk.saved, false;
    }

    // ----- durable primitives

    /** writeDurable can report an error after the bytes were published. */
    method WriteJournal(j: Journal, calm: bool) returns (fate: Fate)
      requires disk.staging.Some?
      modifies this`disk
      ensures disk == old(disk) || disk == WithJournal(old(disk), j)
      ensures fate.Done? ==> disk == WithJournal(old(disk), j)
      ensures calm ==> fate.Done?
    {
      fate := Chance(calm);
      var published: bool := *;
      if fate.Done? || published {
        disk := WithJournal(disk, j);
      }
    }

    /** Save reports an error only when servers.json was not replaced. */
    method Save(calm: bool) returns (fate: Fate)
      modifies this`disk
      ensures disk == old(disk) || disk == old(disk).(saved := model)
      ensures fate.Done? ==> disk == old(disk).(saved := model)
      ensures fate.Refused? ==> disk == old(disk)
      ensures calm ==> fate.Done?
    {
      fate := Chance(calm);
      var published: bool := *;
      if fate.Done? || (fate.Died? && published) {
        disk := disk.(saved := model);
      }
    }

    method MarkRecovery()
      modifies this`disk, this`recovery
      ensures recovery
      ensures disk == old(disk) || disk == old(disk).(saved := model)
    {
      recovery := true;
      var _ := Save(false);
    }

    method Rename(d: Disk, calm: bool) returns (fate: Fate)
      modifies this`disk
      ensures disk == old(disk) || disk == d
      ensures fate.Done? ==> disk == d
      ensures fate.Refused? ==> disk == old(disk)
      ensures calm ==> fate.Done?
    {
      fate := Chance(calm);
      var applied: bool := *;
      if fate.Done? || (fate.Died? && applied) {
        disk := d;
      }
    }

    /** os.RemoveAll of one live entry: cut short, it can leave a damaged entry. */
    method RemoveLive(n: string, calm: bool) returns (fate: Fate)
      modifies this`disk
      ensures Removing(old(disk), n, disk)
      ensures fate.Done? ==> disk == old(disk).(live := old(disk).live - {n})
      ensures calm ==> fate.Done?
    {
      fate := Chance(calm);
      if fate.Done? {
        disk := disk.(live := disk.live - {n});
      } else if n in disk.live {
        var torn: bool := *;
        if torn {
          var rest: Node := *;
          disk := disk.(live := disk.live[n := rest]);
        }
      }
    }

    /** os.RemoveAll of the staging directory, in any order that keeps the marker until late. */
    method Discard(ghost t: Txn, calm: bool) returns (fate: Fate)
      requires disk.staging.Some?
      requires disk.staging.value.committed || disk.staging.value.held.None? || disk.staging.value.held.value == map[]
      modifies this`disk
      ensures disk.live == old(disk).live && disk.saved == old(disk).saved
      ensures old(Kept(disk)) ==> Kept(disk)
      ensures old(Safe(t, disk) && disk.live == t.original && SameSide(disk.saved, t.oldMeta)) ==> Safe(t, disk)
      ensures fate.Done? ==> disk.staging.None?
      ensures disk.staging.Some? ==>
        disk.staging.value.committed || disk.staging.value.held.None? || disk.staging.value.held.value == map[]
      ensures calm ==> fate.Done?
    {
      ghost var safe := Safe(t, disk) && disk.live == t.original && SameSide(disk.saved, t.oldMeta);
      fate := Done;
      while disk.staging.Some?
        invariant disk.live == old(disk).live && disk.saved == old(disk).saved
        invariant old(Kept(disk)) ==> Kept(disk)
        invariant disk.staging.Some? ==>
            disk.staging.value.committed || disk.staging.value.held.None? || disk.staging.value.held.value == map[]
        invariant safe ==> Safe(t, disk)
        invariant fate.Done?
        decreases if disk.staging.None? then 0 else Weight(disk.staging.value)
      {
        fate := Chance(calm);
        if !fate.Done? {
          return;
        }
        var s := disk.staging.value;
        var next := NextDiscard(s);
        if old(Kept(disk)) {
          DiscardKeepsKept(disk, next);
        }
        if safe {
          DiscardKeepsSafe(t, disk, next);
        }
        disk := disk.(staging := next);
      }
    }

    // ----- in-process rollback

    /** rollbackRestoreJournal: announce the rollback, remove what was installed, put the originals back. */
    method RollBack(ghost t: Txn, installed: seq<string>, j: Journal) returns (fate: Fate)
      requires Safe(t, disk) && disk.staging.Some? && disk.staging.value.held.Some? && disk.staging.value.journal.Some?
      requires j.oldMeta == t.oldMeta && NamesAgree(t, j)
      requires Names(installed) <= t.incoming && (installed != [] ==> disk.staging.value.held.value == t.original)
      requires forall n <- disk.live :: (n in t.original && n !in disk.staging.value.held.value) || n in installed
      modifies this`disk
      ensures Safe(t, disk) && disk.staging.Some? && disk.saved == old(disk).saved
      ensures fate.Done? ==> disk.live == t.original && disk.staging.value.held == Some(map[])
    {
      var rolling := j.(phase := RollingBack);
      RollBackStep(t, disk, rolling);
      fate := WriteJournal(rolling, false);
      if !fate.Done? {
        return;
      }
      var i := 0;
      while i < |installed|
        invariant 0 <= i <= |installed|
        invariant Safe(t, disk)
        invariant disk.staging == old(WithJournal(disk, rolling)).staging && disk.saved == old(disk).saved
        invariant forall n <- disk.live ::
            (n in t.original && n !in disk.staging.value.held.value) || n in installed[i..]
      {
        assert installed[i] in Names(installed) && installed[i] in Names(j.incoming);
        ghost var before := disk;
        fate := RemoveLive(installed[i], false);
        RemoveStep(t, before, installed[i], disk);
        if !fate.Done? {
          return;
        }
        assert installed[i..] == [installed[i]] + installed[i + 1..];
        i := i + 1;
      }
      fate := PutBack(t, true);
    }

    /** restoreHeld goes on after a failed rename; restoreHeldIn, which recovery uses, stops at the first. */
    method PutBack(ghost t: Txn, goOn: bool, calm: bool := false) returns (fate: Fate)
      requires Returning(t, disk)
      modifies this`disk
      ensures Returning(t, disk) && OnlyHeldChanged(old(disk), disk)
      ensures fate.Done? ==> disk.live == t.original && disk.staging.value.held == Some(map[])
      ensures calm ==> fate.Done?
    {
      hide Safe, HalfReturned, Names, Distinct;
      var names := ReadDir(disk.staging.value.held.value);
      var failed := false;
      var i := 0;
      NoneReturned(t, disk, names);
      while i < |names|
        invariant 0 <= i <= |names| && HalfReturned(t, old(disk), names, i, failed, disk)
        invariant calm ==> !failed
      {
        ReturnOne(t, old(disk), names, i, failed, disk);
        fate := Rename(MoveBack(disk, names[i]), calm);
        if fate.Died? || (fate.Refused? && !goOn) {
          return;
        }
        failed := failed || fate.Refused?;
        i := i + 1;
      }
      fate := if failed then Refused else Done;
      SomeReturned(t, old(disk), names, i, failed, disk);
    }

    // ----- the restore itself

    /** The deferred cleanup of a restore that changed nothing: its own errors are ignored. */
    method Abort(ghost t: Txn) returns (outcome: Outcome)
      requires Safe(t, disk) && disk.live == t.original && SameSide(disk.saved, t.oldMeta)
      requires disk.staging.Some? ==> disk.staging.value.held.None? || disk.staging.value.held.value == map[]
      modifies this`disk
      ensures outcome.Aborted? || outcome.Crashed?
      ensures Safe(t, disk) && disk.live == t.original && disk.saved == old(disk).saved
      ensures disk.staging.Some? ==> LeftBehind(t, disk)
    {
      outcome := Aborted;
      if disk.staging.Some? {
        var fate := Discard(t, false);
        if fate.Died? {
          outcome := Crashed;
        }
      }
    }

    /** Create the staging directory and unpack the archive into it. */
    method Stage(ghost t: Txn, archive: Entries, calm: bool) returns (fate: Fate)
      requires disk.staging.None? && Safe(t, disk)
      modifies this`disk
      ensures Safe(t, disk) && disk.live == t.original && disk.saved == old(disk).saved
      ensures disk.staging.Some? ==> disk.staging.value.held.None? || disk.staging.value.held.value == map[]
      ensures fate.Done? ==> disk.staging == Some(Staging(Some(map[]), archive, None, false))
      ensures calm ==> fate.Done?
    {
      fate := Rename(disk.(staging := Some(Staging(None, map[], None, false))), calm);
      if !fate.Done? {
        return;
      }
      fate := Rename(disk.(staging := Some(Staging(Some(map[]), map[], None, false))), calm);
      if !fate.Done? {
        return;
      }
      fate := Chance(calm);
      var unpacked: Entries := *;
      if fate.Done? {
        unpacked := archive;
      }
      disk := disk.(staging := Some(Staging(Some(map[]), unpacked, None, false)));
    }

    /** Write the journal twice: first with the archive's names, then with the originals' as well. */
    method Announce(ghost t: Txn, calm: bool) returns (fate: Fate, j: Journal)
      requires Safe(t, disk) && disk.staging.Some? && t.incoming == disk.staging.value.unpacked.Keys
      requires model == t.oldMeta
      requires disk.staging == Some(Staging(Some(map[]), disk.staging.value.unpacked, None, false))
      modifies this`disk
      ensures Safe(t, disk) && disk.live == t.original && disk.saved == old(disk).saved
      ensures disk.staging.Some? && disk.staging.value.held == Some(map[])
      ensures fate.Done? ==>
        disk.staging == Some(Staging(Some(map[]), old(disk).staging.value.unpacked, Some(j), false))
      ensures fate.Done? ==> j.phase.Evacuating? && j.oldMeta == t.oldMeta && NamesAgree(t, j)
      ensures calm ==> fate.Done?
    {
      assert t.original - {} == t.original;
      var incoming := ReadDir(disk.staging.value.unpacked);
      j := Journal(Evacuating, [], incoming, model);
      fate := WriteJournal(j, calm);
      if !fate.Done? {
        return;
      }
      var original := ReadDir(disk.live);
      j := j.(original := original);
      fate := WriteJournal(j, calm);
    }

    method Evacuate(ghost t: Txn, j: Journal, calm: bool) returns (fate: Fate)
      requires Safe(t, disk) && j.phase.Evacuating?
      requires disk.staging.Some?
      requires disk.staging == Some(Staging(Some(map[]), disk.staging.value.unpacked, Some(j), false))
      modifies this`disk
      ensures Safe(t, disk) && OnlyHeldChanged(old(disk), disk) && disk.staging.value.held.Some?
      ensures fate.Done? ==> disk.live == map[] && disk.staging.value.held == Some(t.original)
      ensures calm ==> fate.Done?
    {
      var names := ReadDir(disk.live);
      var i := 0;
      fate := Done;
      while i < |names|
        invariant 0 <= i <= |names| && Distinct(names) && fate.Done?
        invariant Safe(t, disk) && OnlyHeldChanged(old(disk), disk) && disk.staging.value.held.Some?
        invariant disk.live.Keys == Names(names[i..])
      {
        assert names[i..] == [names[i]] + names[i + 1..];
        NamesTail(names, i);
        EvacuateStep(t, disk, names[i]);
        fate := Rename(MoveOut(disk, names[i]), calm);
        if !fate.Done? {
          return;
        }
        i := i + 1;
      }
      assert names[|names|..] == [] && disk.live.Keys == {};
      Evacuated(t, disk);
      fate := Chance(calm);
    }

    method Install(ghost t: Txn, archive: Entries, calm: bool) returns (fate: Fate, installed: seq<string>)
      requires Safe(t, disk) && t.incoming == archive.Keys && disk.staging.Some? && disk.staging.value.journal.Some?
      requires disk.staging.value.journal.value.phase.Installing? && disk.live == map[]
      requires disk.staging.value.held == Some(t.original) && disk.staging.value.unpacked == archive
      modifies this`disk
      ensures Safe(t, disk) && disk.saved == old(disk).saved && disk.staging.Some?
      ensures disk.staging.value == old(disk).staging.value.(unpacked := disk.staging.value.unpacked)
      ensures Names(installed) <= t.incoming
      ensures !fate.Died? ==> disk.live.Keys == Names(installed)
      ensures fate.Done? ==> disk.live == archive
      ensures calm ==> fate.Done?
    {
      hide Safe, HalfInstalled, Names;
      NoNames();
      installed := [];
      fate := Chance(calm);
      if !fate.Done? {
        return;
      }
      var names := ReadDir(disk.staging.value.unpacked);
      var i := 0;
      NoneInstalled(t, archive, disk, names);
      while i < |names|
        invariant 0 <= i <= |names| && fate.Done? && installed == names[..i]
        invariant HalfInstalled(t, archive, old(disk), names, i, disk)
      {
        SomeInstalled(t, archive, old(disk), names, i, disk);
        InstallOne(t, archive, old(disk), names, i, disk);
        SomeInstalled(t, archive, old(disk), names, i + 1, MoveIn(disk, names[i]));
        fate := Rename(MoveIn(disk, names[i]), calm);
        if !fate.Done? {
          return;
        }
        installed := installed + [names[i]];
        i := i + 1;
      }
      SomeInstalled(t, archive, old(disk), names, i, disk);
    }

    /** reloadProps and the rewrite that follows a refused port. */
    method Adopt(ghost t: Txn, archive: Entries, w: Answers, calm: bool) returns (fate: Fate)
      requires Safe(t, disk) && t.incoming == archive.Keys && disk.staging.Some? && disk.staging.value.journal.Some?
      requires disk.staging.value.journal.value.phase.Installing? && disk.staging.value.held.Some?
      requires disk.live == archive && model == disk.saved
      modifies this`disk, this`model
      ensures Safe(t, disk) && disk.staging == old(disk).staging
      ensures model == Adoption(old(model), archive, codec, w).1
      ensures LimitAdopted(old(model), archive, codec, w, model.maxPlayers)
      ensures fate.Done? ==> (disk.live, disk.saved) == Adoption(old(model), archive, codec, w)
      ensures calm ==> fate.Done?
    {
      AdoptionLimit(model, archive, codec, w);
      fate := Done;
      if FILE_NAME in disk.live && disk.live[FILE_NAME].File? && w.readable {
        var text := codec.decode(disk.live[FILE_NAME].bytes);
        model := ReloadProps(model, text, w.movable);
        fate := Save(calm);
        if fate.Done? {
          fate := Reconcile(archive, text, calm);
        }
      }
    }

    /** If the file names another port than the model, the model is printed over it. */
    method Reconcile(ghost archive: Entries, text: string, calm: bool) returns (fate: Fate)
      modifies this`disk
      ensures disk == old(disk).(live := disk.live) && disk.live.Keys - {FILE_NAME} == old(disk).live.Keys - {FILE_NAME}
      ensures FILE_NAME in old(disk).live ==> disk.live.Keys == old(disk).live.Keys
      ensures fate.Done? ==>
        disk.live == if NeedsReprint(model.props, text)
          then old(disk).live[FILE_NAME := File(codec.encode(Props.Printed(model.props)))] else old(disk).live
      ensures calm ==> fate.Done?
    {
      fate := Done;
      var port := if Props.PORT_KEY in model.props then model.props[Props.PORT_KEY] else "";
      var named := PropsPort.HasPortLine(text, port);
      if port != "" && !named {
        var printed := Props.WriteProps(model.props);
        fate := WriteProps(File(codec.encode(printed)), calm);
      }
    }

    method WriteProps(text: Node, calm: bool) returns (fate: Fate)
      modifies this`disk
      ensures disk == old(disk) || disk == old(disk).(live := old(disk).live[FILE_NAME := text])
      ensures fate.Done? ==> disk == old(disk).(live := old(disk).live[FILE_NAME := text])
      ensures calm ==> fate.Done?
    {
      fate := Chance(calm);
      var published: bool := *;
      if fate.Done? || published {
        disk := disk.(live := disk.live[FILE_NAME := text]);
      }
    }

    /** The commit marker; an error can follow its publication. */
    method Commit(calm: bool) returns (fate: Fate)
      requires disk.staging.Some?
      modifies this`disk
      ensures disk == old(disk) || disk == Marked(old(disk))
      ensures fate.Done? ==> disk == Marked(old(disk))
      ensures calm ==> fate.Done?
    {
      fate := Chance(calm);
      var published: bool := *;
      if fate.Done? || published {
        disk := Marked(disk);
      }
    }

    method AfterRollBack(ghost t: Txn, installed: seq<string>, j: Journal) returns (outcome: Outcome)
      requires Safe(t, disk) && disk.staging.Some? && disk.staging.value.held.Some? && disk.staging.value.journal.Some?
      requires j.oldMeta == t.oldMeta && NamesAgree(t, j) && disk.saved == t.oldMeta && model == t.oldMeta
      requires Names(installed) <= t.incoming && (installed != [] ==> disk.staging.value.held.value == t.original)
      requires forall n <- disk.live :: (n in t.original && n !in disk.staging.value.held.value) || n in installed
      modifies this`disk, this`recovery
      ensures !outcome.Restored? && Safe(t, disk) && (outcome.Retained? ==> recovery)
      ensures outcome.Aborted? ==> disk.live == t.original && disk.saved == old(disk).saved
    {
      var fate := RollBack(t, installed, j);
      if fate.Done? {
        outcome := Abort(t);
      } else if fate.Died? {
        outcome := Crashed;
      } else {
        outcome := Retained;
        MarkRecovery();
      }
    }

    /**
     The whole restore. Until the marker is durable every state it can stop in is one recovery
     brings back to the original tree; once it is durable the live tree is the archive's.
     */
    method RestoreBackup(archive: Entries, w: Answers, calm: bool)
      returns (outcome: Outcome, ghost marked: bool)
      requires disk.staging.None? && model == disk.saved
      modifies this
      ensures !marked ==> Safe(Transaction(old(disk), archive), disk)
      ensures marked ==> Replaced(disk, Adoption(old(model), archive, codec, w))
      ensures marked && w.staged ==> Admissible(archive, codec)
      ensures marked ==> LimitAdopted(old(model), archive, codec, w, disk.saved.maxPlayers)
      ensures outcome.Restored? || Durable(disk) ==> marked
      ensures outcome.Aborted? ==> !marked && disk.live == old(disk).live && disk.saved == old(disk).saved
      ensures outcome.Retained? ==> recovery
      ensures calm && (w.staged ==> Admissible(archive, codec)) ==> outcome.Restored? && disk.staging.None?
    {
      hide LimitAdopted;
      AdoptionLimit(model, archive, codec, w);
      ghost var t := Transaction(disk, archive);
      marked := false;
      var fate := Stage(t, archive, calm);
      if fate.Done? {
        // validatePropsPort: the strict reader, then the ledger, before anything live moves.
        var text := Content(archive, codec);
        if w.staged && text.Some? {
          var port := PropsPort.PropsPortValue(text.value);
          if port.Refused? {
            fate := Refused;
          } else {
            fate := Chance(calm);
          }
        }
      }
      if fate.Died? {
        return Crashed, false;
      } else if fate.Refused? {
        outcome := Abort(t);
        return;
      }
      var j: Journal;
      fate, j := Announce(t, calm);
      if fate.Died? {
        return Crashed, false;
      } else if fate.Refused? {
        outcome := Abort(t);
        return;
      }
      outcome, marked := Swap(t, archive, j, w, calm);
    }

    /** Everything once evacuation is durable. */
    method Finish(ghost t: Txn, archive: Entries, j: Journal, w: Answers, calm: bool)
      returns (outcome: Outcome, ghost marked: bool)
      requires Safe(t, disk) && t.incoming == archive.Keys && disk.saved == t.oldMeta && model == t.oldMeta
      requires disk == Disk(map[], Some(Staging(Some(t.original), archive, Some(j), false)), disk.saved)
      requires j.phase.Installing? && j.oldMeta == t.oldMeta && NamesAgree(t, j)
      modifies this
      ensures !marked ==> Safe(t, disk)
      ensures marked ==> Replaced(disk, Adoption(old(model), archive, codec, w))
      ensures outcome.Restored? || Durable(disk) ==> marked
      ensures outcome.Aborted? ==> !marked && disk.live == t.original && disk.saved == old(disk).saved
      ensures outcome.Retained? ==> recovery
      ensures calm ==> outcome.Restored? && disk.staging.None?
    {
      marked := false;
      var fate, installed := Install(t, archive, calm);
      if fate.Died? {
        return Crashed, false;
      } else if fate.Refused? {
        outcome := AfterRollBack(t, installed, j);
        return;
      }
      fate := Adopt(t, archive, w, calm);
      if fate.Done? {
        fate := Chance(calm);
      }
      if fate.Died? {
        return Crashed, false;
      } else if fate.Refused? {
        MarkRecovery();
        return Retained, false;
      }
      fate := Commit(calm);
      marked := disk.staging.value.committed;
      if fate.Died? {
        return Crashed, marked;
      } else if fate.Refused? {
        MarkRecovery();
        return Retained, marked;
      }
      fate := Discard(t, calm);
      outcome := if fate.Died? then Crashed else Restored;
    }

    /** Everything after the journal names both sides: evacuate, install, adopt, commit. */
    method Swap(ghost t: Txn, archive: Entries, j0: Journal, w: Answers, calm: bool)
      returns (outcome: Outcome, ghost marked: bool)
      requires Safe(t, disk) && t.incoming == archive.Keys && disk.saved == t.oldMeta
      requires disk.staging == Some(Staging(Some(map[]), archive, Some(j0), false))
      requires model == t.oldMeta && j0.phase.Evacuating? && j0.oldMeta == t.oldMeta && NamesAgree(t, j0)
      modifies this
      ensures !marked ==> Safe(t, disk)
      ensures marked ==> Replaced(disk, Adoption(old(model), archive, codec, w))
      ensures outcome.Restored? || Durable(disk) ==> marked
      ensures outcome.Aborted? ==> !marked && disk.live == t.original && disk.saved == old(disk).saved
      ensures outcome.Retained? ==> recovery
      ensures calm ==> outcome.Restored? && disk.staging.None?
    {
      marked := false;
      var fate := Evacuate(t, j0, calm);
      if fate.Died? {
        return Crashed, false;
      } else if fate.Refused? {
        outcome := AfterRollBack(t, [], j0);
        return;
      }
      fate := Chance(calm);
      if !fate.Done? {
        // The evacuation's durability could not be confirmed.
        MarkRecovery();
        return Retained, false;
      }
      var j := j0.(phase := Installing);
      fate := WriteJournal(j, calm);
      if fate.Died? {
        return Crashed, false;
      } else if fate.Refused? {
        outcome := AfterRollBack(t, [], j);
        return;
      }
      outcome, marked := Finish(t, archive, j, w, calm);
    }

    // ----- boot recovery

    /** Announce the rollback and take out everything the archive brought. */
    method TakeOut(ghost t: Txn, calm: bool) returns (fate: Fate)
      requires Safe(t, disk) && disk.staging.Some? && disk.staging.value.held.Some? && disk.staging.value.journal.Some?
      requires !disk.staging.value.journal.value.phase.Evacuating?
      modifies this`disk
      ensures Safe(t, disk) && disk.saved == old(disk).saved
      ensures fate.Done? ==> Returning(t, disk)
      ensures calm ==> fate.Done?
    {
      var j := disk.staging.value.journal.value.(phase := RollingBack);
      var held := disk.staging.value.held.value;
      RollBackStep(t, disk, j);
      fate := Done;
      if disk.staging.value.journal.value.phase.Installing? {
        fate := WriteJournal(j, calm);
        if !fate.Done? {
          return;
        }
      }
      ghost var start := disk;
      var i := 0;
      while i < |j.incoming|
        invariant 0 <= i <= |j.incoming| && fate.Done?
        invariant Safe(t, disk) && disk.staging == start.staging && disk.saved == old(disk).saved
        invariant forall n <- disk.live :: (n in t.original && n !in held) || n in j.incoming[i..]
      {
        var n := j.incoming[i];
        assert j.incoming[i..] == [n] + j.incoming[i + 1..];
        assert n in j.original <==> n in Names(j.original);
        i := i + 1;
        if n in j.original && n !in held {
          continue;
        }
        ghost var before := disk;
        fate := RemoveLive(n, calm);
        RemoveStep(t, before, n, disk);
        if !fate.Done? {
          return;
        }
      }
    }

    /** Remove live entries standing where an original is held; a failed removal is ignored here. */
    method ClearHeld(ghost t: Txn, calm: bool) returns (died: bool)
      requires Returning(t, disk)
      modifies this`disk
      ensures Returning(t, disk) && disk.staging == old(disk).staging && disk.saved == old(disk).saved
      ensures calm ==> !died
    {
      var names := ReadDir(disk.live);
      died := false;
      for i := 0 to |names|
        invariant Returning(t, disk) && disk.staging == old(disk).staging && disk.saved == old(disk).saved
      {
        if names[i] in disk.live && names[i] in disk.staging.value.held.value {
          ghost var before := disk;
          var fate := RemoveLive(names[i], calm);
          ClearStep(t, before, names[i], disk);
          if fate.Died? {
            return true;
          }
        }
      }
    }

    method Stop(fate: Fate) returns (outcome: Recovery)
      modifies this`disk, this`recovery
      ensures disk == old(disk) || disk == old(disk).(saved := model)
      ensures outcome == if fate.Died? then Interrupted else Stuck
      ensures outcome.Stuck? ==> recovery
    {
      if fate.Died? {
        return Interrupted;
      }
      MarkRecovery();
      return Stuck;
    }

    /**
     recoverInterruptedRestores for one server. Before the marker was durable it ends in the original
     tree and metadata; after, it changes neither. Undisturbed, it completes exactly when Recoverable says.
     */
    method Recover(ghost t: Txn, stopped: bool, calm: bool) returns (outcome: Recovery)
      requires model == disk.saved && (Safe(t, disk) || Kept(disk))
      modifies this
      ensures old(Safe(t, disk)) ==> Safe(t, disk)
      ensures old(Safe(t, disk)) && outcome.Finished? ==> disk.live == t.original && SameSide(disk.saved, t.oldMeta)
      ensures old(Safe(t, disk)) && outcome.Finished? && disk.staging.Some? ==> LeftBehind(t, disk)
      ensures old(Kept(disk)) ==> Kept(disk) && disk.live == old(disk).live && disk.saved == old(disk).saved
      ensures outcome.Stuck? ==> recovery
      ensures calm && stopped ==> (outcome.Finished? <==> Recoverable(old(disk)))
      ensures calm && outcome.Finished? ==> disk.staging.None?
    {
      if disk.staging.None? {
        return Nothing;
      }
      var fate := Chance(calm);
      if fate.Died? {
        return Interrupted;
      }
      if fate.Refused? || |disk.live| + 1 > MAX_NAMES {
        return Skipped;
      }
      if !stopped {
        outcome := Stop(Refused);
        return;
      }
      var s := disk.staging.value;
      if s.committed {
        recovery := false;
        fate := Save(calm);
        if fate.Done? {
          fate := Discard(t, calm);
        }
        if fate.Done? {
          return Finished;
        }
        outcome := Stop(fate);
        return;
      }
      fate := Chance(calm);
      var valid := s.held.Some? && |s.held.value| <= MAX_NAMES;
      if valid && s.journal.Some? {
        valid := ValidateJournal(s.journal.value);
      }
      if !fate.Done? || !valid {
        outcome := Stop(if fate.Died? then Died else Refused);
        return;
      }
      if s.journal.None? {
        // Nothing had moved.
        assert s.held.value == map[];
        fate := Discard(t, calm);
        return if fate.Died? then Interrupted else Finished;
      }
      outcome := BringBack(t, calm);
    }

    method BringBack(ghost t: Txn, calm: bool) returns (outcome: Recovery)
      requires Safe(t, disk) && disk.staging.Some? && disk.staging.value.held.Some? && disk.staging.value.journal.Some?
      requires model == disk.saved
      modifies this
      ensures Safe(t, disk)
      ensures outcome.Finished? ==> disk.live == t.original && SameSide(disk.saved, t.oldMeta)
      ensures outcome.Finished? && disk.staging.Some? ==> LeftBehind(t, disk)
      ensures outcome.Stuck? ==> recovery
      ensures calm ==> outcome.Finished? && disk.staging.None?
    {
      hide LeftBehind, RecoveredMeta;
      var j := disk.staging.value.journal.value;
      var fate := Done;
      if !j.phase.Evacuating? {
        fate := TakeOut(t, calm);
        if !fate.Done? {
          outcome := Stop(fate);
          return;
        }
      }
      var died := ClearHeld(t, calm);
      if died {
        return Interrupted;
      }
      fate := PutBack(t, false, calm);
      if fate.Done? {
        fate := Chance(calm);
      }
      if !fate.Done? {
        outcome := Stop(fate);
        return;
      }
      model, recovery := RecoveredMeta(j.oldMeta), false;
      fate := Save(calm);
      if !fate.Done? {
        outcome := Stop(fate);
        return;
      }
      fate := Discard(t, calm);
      if disk.staging.Some? {
        StaysBehind(t, disk);
      }
      return if fate.Died? then Interrupted else Finished;
    }
  }

  lemma StaysBehind(t: Txn, d: Disk)
    requires Safe(t, d) && d.staging.Some?
    requires d.staging.value.committed || d.staging.value.held.None? || d.staging.value.held.value == map[]
    ensures LeftBehind(t, d)
  {
  }

  lemma ClearStep(t: Txn, d: Disk, n: string, d': Disk)
    requires Returning(t, d) && n in d.live && n in d.staging.value.held.value && Removing(d, n, d')
    ensures Returning(t, d')
  {
    var j := d.staging.value.journal.value;
    if j.phase.RollingBack? {
      assert n in Names(j.incoming) <==> n in j.incoming;
      RemoveStep(t, d, n, d');
    }
  }

  /** What an undisturbed recovery needs: the staging directory whole, its journal acceptable, its directories
      listable. */
  predicate Recoverable(d: Disk) {
    && d.staging.Some? && |d.live| + 1 <= MAX_NAMES
    && (d.staging.value.committed
      || (d.staging.value.held.Some? && |d.staging.value.held.value| <= MAX_NAMES
        && (d.staging.value.journal.Some? ==> ValidJournal(d.staging.value.journal.value))))
  }

  /** What can name a directory entry. */
  predicate EntryName(n: string) {
    n != "" && n != "." && n != ".." && '/' !in n && '\0' !in n
  }

  /** A restore cut anywhere with its journal complete is recovered exactly when no list is too long and no name holds a
      backslash. */
  lemma RecoverableExactly(t: Txn, d: Disk)
    requires Safe(t, d) && d.staging.Some? && d.staging.value.held.Some? && d.staging.value.journal.Some?
    requires 1 <= t.oldMeta.port <= 65535 && t.oldMeta.maxPlayers >= 0
    requires
      var j := d.staging.value.journal.value;
      && j.oldMeta == t.oldMeta && Distinct(j.original) && Distinct(j.incoming)
      && forall n <- j.original + j.incoming :: EntryName(n)
    ensures
      var j, held := d.staging.value.journal.value, d.staging.value.held.value;
      Recoverable(d) <==>
        && |d.live| + 1 <= MAX_NAMES && |held| <= MAX_NAMES
        && |j.original| <= MAX_NAMES && |j.incoming| <= MAX_NAMES
        && forall n <- j.original + j.incoming :: '\\' !in n
  {
    hide Safe;
    var j := d.staging.value.journal.value;
    NotCommitted(t, d);
    assert forall n <- j.original :: n in j.original + j.incoming;
    assert forall n <- j.incoming :: n in j.original + j.incoming;
    if forall n <- j.original + j.incoming :: '\\' !in n {
      assert ValidManifest(j.original) && ValidManifest(j.incoming);
    }
  }

  lemma NotCommitted(t: Txn, d: Disk)
    requires Safe(t, d) && d.staging.Some?
    ensures !d.staging.value.committed
  {
  }

  /** The journal is written without being validated but read with validation: one name holding a backslash,
      legal in a directory, leaves the interrupted restore for the operator. */
  lemma BackslashBlocksRecovery(t: Txn, d: Disk, n: string)
    requires Safe(t, d) && d.staging.Some? && d.staging.value.held.Some? && d.staging.value.journal.Some?
    requires NamesAgree(t, d.staging.value.journal.value)
    requires (n in t.original || n in t.incoming) && '\\' in n
    ensures !Recoverable(d) && Settled(d) == t.original
  {
    var j := d.staging.value.journal.value;
    assert n in Names(j.original) || n in Names(j.incoming);
    SafeSettles(t, d);
  }

  /**
   Any run: a restore cut anywhere, then any number of boots whose recoveries are cut anywhere, until one completes.
   */
  method RestoreThenReboot(h: Host, archive: Entries, w: Answers, boots: nat)
    returns (last: Recovery, ghost marked: bool)
    requires h.disk.staging.None? && h.model == h.disk.saved
    modifies h
    ensures !marked ==> Safe(Transaction(old(h.disk), archive), h.disk)
    ensures !marked && last.Finished? ==>
        h.disk.live == old(h.disk).live && SameSide(h.disk.saved, old(h.disk).saved)
    ensures marked ==> Replaced(h.disk, Adoption(old(h.model), archive, h.codec, w))
    ensures marked ==> LimitAdopted(old(h.model), archive, h.codec, w, h.disk.saved.maxPlayers)
    ensures marked && w.staged ==> Admissible(archive, h.codec)
  {
    hide LimitAdopted;
    AdoptionLimit(h.model, archive, h.codec, w);
    var outcome;
    outcome, marked := h.RestoreBackup(archive, w, false);
    ghost var t := Transaction(old(h.disk), archive);
    last := Nothing;
    var i := 0;
    while i < boots && !last.Finished?
      invariant !marked ==> Safe(t, h.disk)
      invariant !marked && last.Finished? ==> h.disk.live == t.original && SameSide(h.disk.saved, t.oldMeta)
      invariant marked ==> Replaced(h.disk, Adoption(t.oldMeta, archive, h.codec, w))
    {
      h.model := h.disk.saved;
      var stopped: bool := *;
      last := h.Recover(t, stopped, false);
      i := i + 1;
    }
  }

  /** The first i of the archive's names have been moved in, everything else is still staged. */
  predicate HalfInstalled(t: Txn, archive: Entries, before: Disk, names: seq<string>, i: nat, d: Disk) {
    && i <= |names| && Distinct(names) && Names(names) == archive.Keys == t.incoming
    && Safe(t, d) && d.saved == before.saved && d.staging.Some? && before.staging.Some?
    && d.staging.value == before.staging.value.(unpacked := d.staging.value.unpacked)
    && d.staging.value.held.Some?
    && d.staging.value.journal.Some? && d.staging.value.journal.value.phase.Installing?
    && d.live.Keys == Names(names[..i]) && (forall n <- d.live :: n in archive && d.live[n] == archive[n])
    && forall k :: i <= k < |names| ==>
        names[k] in d.staging.value.unpacked && names[k] in archive
        && d.staging.value.unpacked[names[k]] == archive[names[k]]
  }

  lemma NoNames()
    ensures Names([]) == {}
  {
  }

  lemma NoneInstalled(t: Txn, archive: Entries, d: Disk, names: seq<string>)
    requires Safe(t, d) && t.incoming == archive.Keys && d.staging.Some? && d.staging.value.journal.Some?
    requires d.staging.value.journal.value.phase.Installing? && d.live == map[] && d.staging.value.held.Some?
    requires d.staging.value.unpacked == archive && Distinct(names) && Names(names) == archive.Keys
    ensures HalfInstalled(t, archive, d, names, 0, d)
  {
  }

  lemma SomeInstalled(t: Txn, archive: Entries, before: Disk, names: seq<string>, i: nat, d: Disk)
    requires HalfInstalled(t, archive, before, names, i, d)
    ensures Safe(t, d) && d.saved == before.saved && d.staging.Some?
    ensures d.staging.value == before.staging.value.(unpacked := d.staging.value.unpacked)
    ensures d.live.Keys == Names(names[..i]) <= t.incoming
    ensures i == |names| ==> d.live == archive
    ensures i < |names| ==> names[i] in d.staging.value.unpacked
  {
    if i == |names| {
      assert names[..i] == names;
    }
  }

  lemma InstallOne(t: Txn, archive: Entries, before: Disk, names: seq<string>, i: nat, d: Disk)
    requires HalfInstalled(t, archive, before, names, i, d) && i < |names|
    ensures HalfInstalled(t, archive, before, names, i + 1, MoveIn(d, names[i]))
    ensures Names(names[..i]) <= t.incoming
  {
    NamesPrefix(names, i);
    InstallStep(t, d, names[i]);
  }

  /** This tree and this metadata are in place and recovery will leave them there. */
  predicate Replaced(d: Disk, committed: (Entries, Meta)) {
    d.live == committed.0 && d.saved == committed.1 && Kept(d)
  }

  /** The marker is on disk. */
  predicate Durable(d: Disk) {
    d.staging.Some? && d.staging.value.committed
  }

  lemma NamesTail(names: seq<string>, i: nat)
    requires i < |names| && Distinct(names)
    ensures Names(names[i..]) - {names[i]} == Names(names[i + 1..])
    ensures names[i] in Names(names[i..])
  {
    assert names[i..] == [names[i]] + names[i + 1..];
  }

  lemma NamesPrefix(names: seq<string>, i: nat)
    requires i < |names| && Distinct(names)
    ensures Names(names[..i + 1]) == Names(names[..i]) + {names[i]}
    ensures names[i] !in Names(names[..i]) && names[i] in Names(names)
  {
    assert names[..i + 1] == names[..i] + [names[i]];
  }

  lemma Evacuated(t: Txn, d: Disk)
    requires Safe(t, d) && d.staging.Some? && d.staging.value.held.Some? && d.staging.value.journal.Some?
    requires d.staging.value.journal.value.phase.Evacuating? && d.live.Keys == {}
    ensures d.live == map[] && d.staging.value.held == Some(t.original)
  {
    var held := d.staging.value.held.value;
    assert forall n <- t.original :: n !in held ==> n in t.original - held.Keys;
    assert held == t.original;
  }

  predicate OnlyHeldChanged(before: Disk, after: Disk) {
    && before.staging.Some? && after.staging.Some? && after.saved == before.saved
    && after.staging.value == before.staging.value.(held := after.staging.value.held)
  }

  function Weight(s: Staging): nat {
    1 + (if s.held.Some? then 1 + |s.held.value| else 0) + |s.unpacked|
    + (if s.journal.Some? then 1 else 0) + (if s.committed then 1 else 0)
  }

  method NextDiscard(s: Staging) returns (next: Option<Staging>)
    requires s.committed || s.held.None? || s.held.value == map[]
    ensures Discarding(s, next) && MarkerGoesLate(s, next)
    ensures next.Some? ==> Weight(next.value) < Weight(s)
    ensures next.Some? ==> next.value.committed || next.value.held.None? || next.value.held.value == map[]
  {
    var choice: int := *;
    if choice == 0 && s.journal.Some? {
      next := Some(s.(journal := None));
    } else if choice == 1 && s.committed && s.held == Some(map[]) && s.journal.None? {
      next := Some(s.(committed := false));
    } else if s.held.Some? && s.held.value != map[] {
      var n :| n in s.held.value;
      assert s.held.value.Keys == (s.held.value - {n}).Keys + {n};
      next := Some(s.(held := Some(s.held.value - {n})));
    } else if s.held.Some? {
      next := Some(s.(held := None));
    } else if s.unpacked != map[] {
      next := Some(s.(unpacked := map[]));
    } else if s.journal.Some? {
      next := Some(s.(journal := None));
    } else if s.committed {
      next := Some(s.(committed := false));
    } else {
      next := None;
    }
  }
}
