/**
 The durable state of one server while a backup is restored over it, and what boot recovery
 makes of that state. A server's directory is a map from entry name to the whole entry below it;
 the staging directory sits inside it under a name that is neither an original nor an archive name,
 and is modelled beside it. One rename, one removal and one journal write are each atomic.
 */
module RestoreDisk {
  import opened Options
  import opened Trees
  import GoText

  type Entries = map<string, Node>

  const MAX_NAMES := 100_000

  /** The metadata a restore replaces together with the tree. */
  datatype Meta = Meta(port: nat, props: map<string, string>, maxPlayers: int)

  datatype Phase = Evacuating | Installing | RollingBack

  datatype Journal = Journal(phase: Phase, original: seq<string>, incoming: seq<string>, oldMeta: Meta)

  /** held and unpacked are the subdirectories "old" and "new"; held is None while "old" does not exist. */
  datatype Staging = Staging(
    held: Option<Entries>,
    unpacked: Entries,
    journal: Option<Journal>,
    committed: bool)

  /** saved is what servers.json records for this server. */
  datatype Disk = Disk(live: Entries, staging: Option<Staging>, saved: Meta)

  // ----- the primitive steps

  function MoveOut(d: Disk, n: string): Disk
    requires d.staging.Some? && d.staging.value.held.Some? && n in d.live
  {
    var s := d.staging.value;
    d.(live := d.live - {n}, staging := Some(s.(held := Some(s.held.value[n := d.live[n]]))))
  }

  function MoveIn(d: Disk, n: string): Disk
    requires d.staging.Some? && n in d.staging.value.unpacked
  {
    var s := d.staging.value;
    d.(live := d.live[n := s.unpacked[n]], staging := Some(s.(unpacked := s.unpacked - {n})))
  }

  function MoveBack(d: Disk, n: string): Disk
    requires d.staging.Some? && d.staging.value.held.Some? && n in d.staging.value.held.value
  {
    var s := d.staging.value;
    d.(live := d.live[n := s.held.value[n]], staging := Some(s.(held := Some(s.held.value - {n}))))
  }

  /** Removing a whole entry that is cut short leaves something else under its name. */
  predicate Removing(d: Disk, n: string, d': Disk) {
    d'.staging == d.staging && d'.saved == d.saved
    && (d' == d || d'.live == d.live - {n} || (n in d.live && n in d'.live && d'.live == d.live[n := d'.live[n]]))
  }

  function WithJournal(d: Disk, j: Journal): Disk
    requires d.staging.Some?
  {
    d.(staging := Some(d.staging.value.(journal := Some(j))))
  }

  function Marked(d: Disk): Disk
    requires d.staging.Some?
  {
    d.(staging := Some(d.staging.value.(committed := true)))
  }

  // ----- what recovery makes of a disk

  /** The archive names recovery takes out of the live directory again: all of them, except an
      original that an earlier, interrupted rollback has already put back. */
  function Removable(j: Journal, held: set<string>): set<string> {
    if j.phase.Evacuating? then {}
    else set n | n in j.incoming && !(n in j.original && n !in held)
  }

  function RolledBack(live: Entries, held: Entries, j: Option<Journal>): Entries {
    (live - (if j.None? then {} else Removable(j.value, held.Keys))) + held
  }

  /** The live directory an uninterrupted recovery leaves. */
  function Settled(d: Disk): Entries {
    if d.staging.None? || d.staging.value.committed || d.staging.value.held.None? then d.live
    else RolledBack(d.live, d.staging.value.held.value, d.staging.value.journal)
  }

  /** A recorded player limit of 0 is read again from the properties. */
  function RecoveredMeta(m: Meta): Meta {
    if m.maxPlayers == 0 then
      m.(maxPlayers := GoText.Atoi(if "max-players" in m.props then m.props["max-players"] else ""))
    else m
  }

  /** The metadata an uninterrupted recovery leaves in servers.json. */
  function SettledMeta(d: Disk): Meta {
    if d.staging.None? || d.staging.value.committed || d.staging.value.held.None? || d.staging.value.journal.None?
    then d.saved
    else RecoveredMeta(d.staging.value.journal.value.oldMeta)
  }

  predicate SameSide(m: Meta, before: Meta) {
    m == before || m == RecoveredMeta(before)
  }

  // ----- the protocol

  /** What a restore transaction is about: the tree and metadata before it, and the archive's names. */
  datatype Txn = Txn(original: Entries, incoming: set<string>, oldMeta: Meta)

  function Names(names: seq<string>): set<string> {
    set n | n in names
  }

  /** What holds at every instant until the commit marker is durable. */
  predicate Safe(t: Txn, d: Disk) {
    match d.staging
    case None => d.live == t.original && SameSide(d.saved, t.oldMeta)
    case Some(s) =>
      && !s.committed
      && match s.held {
           case None => d.live == t.original && SameSide(d.saved, t.oldMeta)
           case Some(held) =>
             && held.Keys <= t.original.Keys
             && (forall n <- held :: held[n] == t.original[n])
             && SafePhase(t, d.live, held, s.journal, d.saved)
         }
  }

  predicate SafePhase(t: Txn, live: Entries, held: Entries, journal: Option<Journal>, saved: Meta)
    requires held.Keys <= t.original.Keys
  {
    match journal
    case None => held == map[] && live == t.original && SameSide(saved, t.oldMeta)
    case Some(j) =>
      && j.oldMeta == t.oldMeta
      && match j.phase {
           case Evacuating => live == t.original - held.Keys && SameSide(saved, t.oldMeta)
           case Installing => NamesAgree(t, j) && held == t.original && live.Keys <= t.incoming
           case RollingBack => NamesAgree(t, j) && PartlyBack(t, live, held)
         }
  }

  predicate NamesAgree(t: Txn, j: Journal) {
    Names(j.original) == t.original.Keys && Names(j.incoming) == t.incoming
  }

  /** Every original is held or already back, and anything else live came from the archive. */
  predicate PartlyBack(t: Txn, live: Entries, held: Entries) {
    && (forall n <- t.original :: n !in held ==> n in live && live[n] == t.original[n])
    && (forall n <- live :: (n in t.original && n !in held) || n in t.incoming)
  }

  /** Original n is intact in exactly one of the live directory and old/. */
  predicate IntactOnce(t: Txn, d: Disk, n: string)
    requires n in t.original
  {
    var held := if d.staging.Some? && d.staging.value.held.Some? then d.staging.value.held.value else map[];
    if n in held then held[n] == t.original[n] else n in d.live && d.live[n] == t.original[n]
  }

  lemma NoOriginalLost(t: Txn, d: Disk, n: string)
    requires Safe(t, d) && n in t.original
    ensures IntactOnce(t, d, n)
  {
    match d.staging {
      case None =>
      case Some(s) =>
        if s.held.Some? && s.journal.Some? && s.journal.value.phase.Evacuating? && n !in s.held.value {
          assert n in t.original - s.held.value.Keys;
        }
    }
  }

  /** Whatever state the crash left, recovery's end is the original tree and the original metadata. */
  lemma SafeSettles(t: Txn, d: Disk)
    requires Safe(t, d)
    ensures Settled(d) == t.original && SameSide(SettledMeta(d), t.oldMeta)
  {
    if d.staging.Some? && d.staging.value.held.Some? {
      var s := d.staging.value;
      var held := s.held.value;
      if s.journal.Some? && !s.journal.value.phase.Evacuating? {
        var j := s.journal.value;
        var gone := Removable(j, held.Keys);
        assert forall n :: n in j.original <==> n in Names(j.original);
        assert forall n :: n in j.incoming <==> n in Names(j.incoming);
        assert forall n <- t.original :: n !in held ==> n !in gone;
        assert forall n <- d.live :: n in t.original || n in gone;
        assert (d.live - gone) + held == t.original;
      } else {
        assert (d.live - {}) + held == t.original;
      }
    }
  }

  // ----- discarding the staging directory

  /** A finished restore whose staging directory is only partly gone: recovery leaves the server as it is. */
  predicate Kept(d: Disk) {
    d.staging.None? || KeptStaging(d.staging.value)
  }

  predicate KeptStaging(s: Staging) {
    s.committed || s.held.None? || (s.held.value == map[] && s.journal.None?)
  }

  lemma KeptSettles(d: Disk)
    requires Kept(d)
    ensures Settled(d) == d.live && SettledMeta(d) == d.saved
  {
    if d.staging.Some? && d.staging.value.held.Some? && !d.staging.value.committed {
      assert (d.live - {}) + map[] == d.live;
    }
  }

  /** One step of removing the staging directory: one thing in it disappears. */
  predicate Discarding(s: Staging, s': Option<Staging>) {
    match s'
    case None => s.held.None? && s.journal.None? && !s.committed
    case Some(r) =>
      || r == s.(unpacked := r.unpacked)
      || r == s.(journal := None)
      || (s.held == Some(map[]) && r == s.(held := None))
      || (s.committed && s.held.Some? && r.held.Some? && r == s.(held := r.held)
          && r.held.value.Keys <= s.held.value.Keys)
      || r == s.(committed := false)
  }

  /** The assumption about the order of os.RemoveAll: the marker goes only once "old" is gone,
      or is empty with the journal gone. */
  predicate MarkerGoesLate(s: Staging, s': Option<Staging>) {
    s.committed && s'.Some? && !s'.value.committed ==> KeptStaging(s'.value)
  }

  lemma DiscardKeepsKept(d: Disk, s': Option<Staging>)
    requires d.staging.Some? && Kept(d) && Discarding(d.staging.value, s') && MarkerGoesLate(d.staging.value, s')
    ensures Kept(d.(staging := s'))
  {
  }

  lemma DiscardKeepsSafe(t: Txn, d: Disk, s': Option<Staging>)
    requires d.staging.Some? && Safe(t, d) && d.live == t.original && SameSide(d.saved, t.oldMeta)
    requires d.staging.value.held.None? || d.staging.value.held.value == map[]
    requires Discarding(d.staging.value, s')
    ensures Safe(t, d.(staging := s'))
  {
  }

  /** Recovery without the marker would put nothing back, take nothing away and keep the metadata. */
  predicate HarmlessRest(s: Staging, live: Entries, saved: Meta)
    requires s.held.Some?
  {
    && (forall n <- s.held.value :: n in live && live[n] == s.held.value[n])
    && (s.journal.Some? ==>
      && (forall n <- live :: n in s.held.value || n !in Removable(s.journal.value, s.held.value.Keys))
      && RecoveredMeta(s.journal.value.oldMeta) == saved)
  }

  /** Exactly when dropping the marker first is harmless, whatever else is still in the staging directory. */
  lemma MarkerFirst(d: Disk)
    requires d.staging.Some? && d.staging.value.committed
    ensures
      var cut := d.(staging := Some(d.staging.value.(committed := false)));
      (Settled(cut) == Settled(d) && SettledMeta(cut) == SettledMeta(d))
      <==> (d.staging.value.held.None? || HarmlessRest(d.staging.value, d.live, d.saved))
  {
    var s := d.staging.value;
    if s.held.Some? {
      var gone := if s.journal.None? then {} else Removable(s.journal.value, s.held.value.Keys);
      var end := (d.live - gone) + s.held.value;
      if end == d.live {
        forall n | n in s.held.value ensures n in d.live && d.live[n] == s.held.value[n] {
          assert n in end && end[n] == s.held.value[n];
        }
        forall n | n in d.live ensures n in s.held.value || n !in gone {
          assert n in end;
        }
      }
      if HarmlessRest(s, d.live, d.saved) {
        assert end == d.live;
      }
    }
  }

  /** After a committed restore of transaction t: what a removal cut short may have left in the staging directory. */
  predicate Leftover(t: Txn, d: Disk) {
    && d.staging.Some? && d.staging.value.committed && d.live.Keys == t.incoming
    && (d.staging.value.held.Some? ==>
      && d.staging.value.held.value.Keys <= t.original.Keys
      && forall n <- d.staging.value.held.value :: d.staging.value.held.value[n] == t.original[n])
    && (d.staging.value.journal.Some? ==>
      && NamesAgree(t, d.staging.value.journal.value) && d.staging.value.journal.value.oldMeta == t.oldMeta
      && d.staging.value.journal.value.phase.Installing?)
  }

  /** In terms of what is left: losing the marker is harmless exactly when "old" is gone, or everything still in it is
      what the archive put back under the same name and, while the journal is left, the archive brought no new name and
      left the metadata as it was. */
  lemma MarkerFirstAfterRestore(t: Txn, d: Disk)
    requires Leftover(t, d)
    ensures
      var s := d.staging.value;
      var cut := d.(staging := Some(s.(committed := false)));
      (Settled(cut) == Settled(d) && SettledMeta(cut) == SettledMeta(d)) <==>
        (s.held.Some? ==>
          && (forall n <- s.held.value :: n in t.incoming && d.live[n] == t.original[n])
          && (s.journal.Some? ==> t.incoming <= t.original.Keys && RecoveredMeta(t.oldMeta) == d.saved))
  {
    var s := d.staging.value;
    MarkerFirst(d);
    if s.held.Some? && s.journal.Some? {
      var j := s.journal.value;
      assert forall n :: n in j.incoming <==> n in Names(j.incoming);
      assert forall n :: n in j.original <==> n in Names(j.original);
      if t.incoming <= t.original.Keys {
        assert forall n <- d.live :: n in s.held.value || n !in Removable(j, s.held.value.Keys);
      } else {
        var n :| n in t.incoming && n !in t.original;
        assert n in d.live && n !in s.held.value && n in Removable(j, s.held.value.Keys);
      }
    }
  }

  /** os.RemoveAll may unlink ".committed" before "old": a crash right there makes the next boot undo
      a restore that had been reported complete. */
  lemma MarkerFirstUndoesRestore(world: Node, restored: Node, m: Meta)
    requires world != restored
    ensures
      var j := Journal(Installing, ["world"], ["world"], m);
      var done := Disk(map["world" := restored], Some(Staging(Some(map["world" := world]), map[], Some(j), true)), m);
      var cut := done.(staging := Some(done.staging.value.(committed := false)));
      Settled(done) == map["world" := restored] && Settled(cut) == map["world" := world]
  {
    var j := Journal(Installing, ["world"], ["world"], m);
    assert (map["world" := restored] - Removable(j, {"world"})) + map["world" := world] == map["world" := world];
  }

  /** A staging directory that an aborted restore or a finished recovery could not remove: the originals are
      all back. */
  predicate LeftBehind(t: Txn, d: Disk) {
    Safe(t, d) && d.staging.Some? && (d.staging.value.held.Some? ==> d.staging.value.held.value == map[])
  }

  /** The server goes on, its files and metadata change, and the next boot finds that directory: it leaves both alone
      exactly when "old" or the journal is gone, or the journal stops recovery from removing any file there is now and
      its metadata is the one saved now. */
  lemma LeftStagingUndoesLaterWork(t: Txn, d: Disk, live: Entries, saved: Meta)
    requires LeftBehind(t, d)
    ensures
      var later, s := d.(live := live, saved := saved), d.staging.value;
      Settled(later) == live && SettledMeta(later) == saved <==>
        (s.held.Some? && s.journal.Some? ==>
          && (s.journal.value.phase.Evacuating? || live.Keys !! t.incoming - t.original.Keys)
          && RecoveredMeta(t.oldMeta) == saved)
  {
    hide RecoveredMeta, SameSide;
    var s := d.staging.value;
    if s.held.Some? && s.journal.Some? && !s.journal.value.phase.Evacuating? {
      var j := s.journal.value;
      assert forall n :: n in j.incoming <==> n in Names(j.incoming);
      assert forall n :: n in j.original <==> n in Names(j.original);
      var gone := Removable(j, {});
      assert gone == t.incoming - t.original.Keys;
      assert Settled(d.(live := live, saved := saved)) == live - gone;
      if n :| n in live && n in gone {
        assert n !in live - gone;
      }
    }
  }

  /** The metadata comes back unchanged exactly when the limit was recorded or the properties name none. */
  lemma MetaComesBack(m: Meta)
    ensures
      var text := if "max-players" in m.props then m.props["max-players"] else "";
      RecoveredMeta(m) == m <==> m.maxPlayers != 0 || GoText.Atoi(text) == 0
    ensures RecoveredMeta(RecoveredMeta(m)) == RecoveredMeta(m)
    ensures RecoveredMeta(m) == m.(maxPlayers := RecoveredMeta(m).maxPlayers)
    ensures "max-players" !in m.props ==> RecoveredMeta(m) == m
    ensures m.maxPlayers == 0 && "max-players" in m.props ==>
      forall n: nat :: n <= GoText.MAX_INT && m.props["max-players"] == GoText.Itoa(n) ==>
        RecoveredMeta(m).maxPlayers == n
  {
    hide GoText.Atoi, GoText.Itoa;
    NoLimit();
    forall n: nat | n <= GoText.MAX_INT ensures GoText.Atoi(GoText.Itoa(n)) == n {
      GoText.ItoaReads(n);
    }
  }

  lemma NoLimit()
    ensures GoText.Atoi("") == 0
  {
  }

  // ----- one rename or removal at a time keeps the protocol safe

  lemma EvacuateStep(t: Txn, d: Disk, n: string)
    requires Safe(t, d) && d.staging.Some? && d.staging.value.held.Some? && n in d.live
    requires d.staging.value.journal.Some? && d.staging.value.journal.value.phase.Evacuating?
    ensures Safe(t, MoveOut(d, n))
  {
    var held := d.staging.value.held.value;
    assert d.live - {n} == t.original - (held.Keys + {n});
    assert held[n := d.live[n]].Keys == held.Keys + {n};
  }

  lemma InstallStep(t: Txn, d: Disk, n: string)
    requires Safe(t, d) && d.staging.Some? && d.staging.value.held.Some?
    requires n in d.staging.value.unpacked && n in t.incoming
    requires d.staging.value.journal.Some? && d.staging.value.journal.value.phase.Installing?
    ensures Safe(t, MoveIn(d, n))
  {
  }

  /** Recovery and rollback may remove, or half remove, only what the archive brought. */
  lemma RemoveStep(t: Txn, d: Disk, n: string, d': Disk)
    requires Safe(t, d) && d.staging.Some? && d.staging.value.held.Some? && Removing(d, n, d')
    requires d.staging.value.journal.Some? && !d.staging.value.journal.value.phase.Evacuating?
    requires n in Removable(d.staging.value.journal.value, d.staging.value.held.value.Keys)
    ensures Safe(t, d')
  {
    var j := d.staging.value.journal.value;
    assert n in Names(j.incoming) && (n in Names(j.original) ==> n in d.staging.value.held.value);
  }

  lemma MoveBackStep(t: Txn, d: Disk, n: string)
    requires Safe(t, d) && d.staging.Some? && d.staging.value.held.Some? && n in d.staging.value.held.value
    requires d.staging.value.journal.Some? && !d.staging.value.journal.value.phase.Installing?
    ensures Safe(t, MoveBack(d, n))
  {
    var held := d.staging.value.held.value;
    if d.staging.value.journal.value.phase.Evacuating? {
      assert d.live[n := held[n]] == t.original - (held.Keys - {n});
    }
    assert (held - {n}).Keys == held.Keys - {n};
  }

  /** Turning to rollback is safe from any phase, once the journal names every original. */
  lemma RollBackStep(t: Txn, d: Disk, j: Journal)
    requires Safe(t, d) && d.staging.Some? && d.staging.value.held.Some? && d.staging.value.journal.Some?
    requires j.oldMeta == t.oldMeta && NamesAgree(t, j) && j.phase.RollingBack?
    ensures Safe(t, WithJournal(d, j))
  {
    var held := d.staging.value.held.value;
    if d.staging.value.journal.value.phase.Evacuating? {
      assert forall n <- t.original :: n !in held ==> n in t.original - held.Keys;
      assert forall n <- d.live :: n in t.original - held.Keys;
    }
  }

  // ----- the journal's own validation

  predicate ValidName(n: string) {
    n != "" && n != "." && n != ".." && '/' !in n && '\\' !in n && '\0' !in n
  }

  predicate Distinct(names: seq<string>) {
    forall i, j :: 0 <= i < j < |names| ==> names[i] != names[j]
  }

  predicate ValidManifest(names: seq<string>) {
    Distinct(names) && forall n <- names :: ValidName(n)
  }

  predicate ValidJournal(j: Journal) {
    && 1 <= j.oldMeta.port <= 65535 && 0 <= j.oldMeta.maxPlayers
    && |j.original| <= MAX_NAMES && |j.incoming| <= MAX_NAMES
    && ValidManifest(j.original) && ValidManifest(j.incoming)
  }

  method ValidateManifest(names: seq<string>) returns (ok: bool)
    ensures ok <==> ValidManifest(names)
  {
    var seen: set<string> := {};
    for i := 0 to |names|
      invariant seen == set k | 0 <= k < i :: names[k]
      invariant ValidManifest(names[..i])
    {
      var n := names[i];
      if n == "" || n == "." || n == ".." || '/' in n || '\\' in n || '\0' in n || n in seen {
        if n in seen {
          ghost var k :| 0 <= k < i && names[k] == n;
        } else {
          assert n in names && !ValidName(n);
        }
        return false;
      }
      seen := seen + {n};
      assert names[..i + 1] == names[..i] + [n];
    }
    assert names[..|names|] == names;
    return true;
  }

  method ValidateJournal(j: Journal) returns (ok: bool)
    ensures ok <==> ValidJournal(j)
  {
    if j.oldMeta.port < 1 || j.oldMeta.port > 65535 || j.oldMeta.maxPlayers < 0 {
      return false;
    }
    if |j.original| > MAX_NAMES || |j.incoming| > MAX_NAMES {
      return false;
    }
    ok := ValidateManifest(j.original);
    if ok {
      ok := ValidateManifest(j.incoming);
    }
  }
}
