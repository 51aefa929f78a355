/**
 A settings save keeps three copies together: the panel's model, server.properties and servers.json.
 The port lives in the ledger; the save guards the old ports with a lease until it returns.
 */
module SettingsSave {
  import opened Options
  import opened Effects
  import GoText
  import opened Ledger
  import opened PortManager
  import opened Props

  const MAX_KEY := "max-players"

  /** What the panel keeps about one server's settings; pending holds the keys waiting for a restart. */
  datatype Settings = Settings(port: int, props: PropMap, maxPlayers: int, pending: set<string>)

  function Get(m: PropMap, k: string): string {
    if k in m then m[k] else ""
  }

  /** The port a request asks for, 0 when it names none. */
  function Wanted(changes: PropMap): int {
    if PORT_KEY in changes then GoText.Atoi(changes[PORT_KEY]) else 0
  }

  predicate Acceptable(changes: PropMap, known: set<string>) {
    changes.Keys <= known && (PORT_KEY in changes ==> 1 <= Wanted(changes) <= 65535)
  }

  function NewPending(before: Settings, changes: PropMap, restartKeys: set<string>, running: bool): set<string> {
    before.pending + if !running then {} else
      (if Wanted(changes) > 0 && Get(before.props, PORT_KEY) != GoText.Itoa(Wanted(changes)) then {PORT_KEY} else {})
      + set k | k in changes && k in restartKeys && Get(before.props, k) != changes[k]
  }

  function Changed(before: Settings, changes: PropMap, restartKeys: set<string>, running: bool): Settings {
    var p := Wanted(changes);
    var max := GoText.Atoi(Get(changes, MAX_KEY));
    Settings(
      if p > 0 then p else before.port,
      (if p > 0 then before.props[PORT_KEY := GoText.Itoa(p)] else before.props) + changes,
      if max > 0 then max else before.maxPlayers,
      NewPending(before, changes, restartKeys, running))
  }

  /** A port the request names as the panel prints it is the port it asks for; only numbers from 1 to 65535
      are taken. */
  lemma WantedPort(changes: PropMap, known: set<string>)
    ensures PORT_KEY !in changes ==> Wanted(changes) == 0
    ensures forall p: nat :: p <= GoText.MAX_INT && PORT_KEY in changes && changes[PORT_KEY] == GoText.Itoa(p) ==>
        Wanted(changes) == p
    ensures Acceptable(changes, known) <==>
        && (forall k <- changes :: k in known)
        && (PORT_KEY in changes ==>
              match GoText.ParseInt(GoText.TrimSpace(changes[PORT_KEY]))
              case None => false
              case Some(p) => 1 <= p <= 65535)
  {
    hide GoText.Itoa, GoText.ParseInt, GoText.TrimSpace;
    forall p: nat | p <= GoText.MAX_INT ensures GoText.Atoi(GoText.Itoa(p)) == p {
      GoText.ItoaReads(p);
    }
  }

  /** The limit after a request: the number it names, if that is a positive one, and else the limit before. */
  ghost predicate LimitAfter(changes: PropMap, before: int, after: int) {
    && (MAX_KEY !in changes ==> after == before)
    && (MAX_KEY in changes ==>
          match GoText.ParseInt(GoText.TrimSpace(changes[MAX_KEY]))
          case None => after == before
          case Some(n) => after == if n > 0 then n else before)
  }

  /** A key waits for a restart if it did before, or if the server runs and the request changes it: the port against the
      number asked for, any key that needs a restart against the text. */
  ghost predicate WaitsAfter(before: Settings, changes: PropMap, restartKeys: set<string>, running: bool, k: string) {
    || k in before.pending
    || (running && k in changes && k in restartKeys && Get(before.props, k) != changes[k])
    || (running && k == PORT_KEY && k in changes
        && forall p: nat :: GoText.ParseInt(GoText.TrimSpace(changes[k])) == Some(p) ==>
             Get(before.props, k) != GoText.Itoa(p))
  }

  lemma ChangedMeans(before: Settings, changes: PropMap, known: set<string>, restartKeys: set<string>, running: bool)
    requires Acceptable(changes, known)
    ensures
      var after := Changed(before, changes, restartKeys, running);
      && after.port == (if PORT_KEY in changes then Wanted(changes) else before.port)
      && after.props == before.props + changes
      && LimitAfter(changes, before.maxPlayers, after.maxPlayers)
      && forall k :: k in after.pending <==> WaitsAfter(before, changes, restartKeys, running, k)
  {
    hide GoText.Itoa, GoText.ParseInt, GoText.TrimSpace;
    NoText();
    var after := Changed(before, changes, restartKeys, running);
    assert after.props == before.props + changes;
  }

  lemma NoText()
    ensures GoText.Atoi("") == 0
  {
  }

  /** The file is what the printer makes of these settings, so it reads back as them exactly when every key and value
      survives printing. */
  ghost predicate FileHolds(file: string, props: PropMap) {
    file == Printed(props)
  }

  lemma FileReadsBack(file: string, props: PropMap)
    requires FileHolds(file, props)
    ensures ParseProps(file) == props <==> WellFormed(props)
  {
    PrintedReadsBack(props);
  }

  /** Whether a save can give its server the port a request asks for, 0 for none. */
  ghost predicate Movable(b: Book, id: string, port: int)
    requires id in b.servers
  {
    port == 0 || (CanMove(b, id, port) && (port != b.servers[id].port ==> !SelfBlocked(b.servers[id], port)))
  }

  lemma WantedInRange(changes: PropMap, known: set<string>)
    ensures Acceptable(changes, known) ==> 0 <= Wanted(changes) <= 65535
  {
  }

  /** A value holding a newline is accepted, and the file then cannot hold the new settings. */
  lemma NewlineBreaksFile(before: Settings, changes: PropMap, known: set<string>, k: string, running: bool)
    requires Acceptable(changes, known) && k in changes && '\n' in changes[k]
    ensures !WellFormed(Changed(before, changes, known, running).props)
  {
    var props := Changed(before, changes, known, running).props;
    assert k in props && props[k] == changes[k];
  }

  // ----- what a save does to the ledger

  lemma TakesOver(b: Book, id: string, token: string, own: seq<int>)
    requires id in b.servers && token !in b.leases && SetOf(own) == Numbers(All(b.servers[id]))
    ensures
      var c, s := HandedOver(b, id, token, own), b.servers[id];
      && (Good(b) && (forall x <- All(s) :: x.port !in b.reserved) ==> Good(c) && Guarded(c, id, token, s))
      && forall x <- All(s) :: x.port in c.reserved && c.reserved[x.port] == token
  {
    hide Sound, Static;
    forall x | x in All(b.servers[id]) ensures x.port in Numbers(All(b.servers[id])) {
    }
    if Good(b) {
      HandOverSound(b, id, token, own);
    }
  }

  lemma StillBlocked(b: Book, id: string, srv: Srv, port: int)
    requires id in b.servers && b.servers[id].shape == srv.shape && SelfBlocked(srv, port)
    requires forall x <- All(srv) :: x.port in b.reserved
    ensures !CanMove(b, id, port)
  {
    hide Static, Built, Fits;
  }

  lemma MovesOn(b: Book, id: string, token: string, srv: Srv, port: int)
    requires id in b.servers && CanMove(b, id, port)
    ensures Good(b) ==> Good(Moved(b, id, port))
    ensures Guarded(b, id, token, srv) ==> Guarded(Moved(b, id, port), id, token, srv)
  {
    hide Sound, Static;
    if Good(b) {
      MoveSound(b, id, port);
    }
  }

  lemma SetBack(b: Book, id: string, token: string, moved: bool, srv: Srv)
    requires id in b.servers && (!moved ==> b.servers[id].port == srv.port)
    requires Good(b) && (moved ==> Guarded(b, id, token, srv))
    ensures Good(MovedBack(b, id, srv.port))
    ensures moved ==> Guarded(MovedBack(b, id, srv.port), id, token, srv)
  {
    hide Sound, Static;
    if moved {
      MoveBackSound(b, id, token, srv);
    } else {
      assert MovedBack(b, id, srv.port) == b;
    }
  }

  lemma GivesUp(b: Book, token: string)
    ensures Good(b) ==> Good(Released(b, token))
    ensures Released(b, token).servers == b.servers
  {
    hide Sound;
    if Good(b) {
      ReleaseSound(b, token);
    }
  }

  class Store {
    const ports: Manager
    const id: string
    var props: PropMap
    var maxPlayers: int
    var pending: set<string>
    var file: string
    var saved: Settings
    var recovery: bool

    ghost function Model(): Settings
      requires id in ports.servers
      reads this, ports
    {
      Settings(ports.servers[id].port, props, maxPlayers, pending)
    }

    constructor (ports: Manager, id: string, props: PropMap, maxPlayers: int)
      requires id in ports.servers
      ensures this.ports == ports && this.id == id && Model() == saved && !recovery
    {
      this.ports, this.id, this.props, this.maxPlayers := ports, id, props, maxPlayers;
      pending, file, recovery := {}, "", false;
      saved := Settings(ports.servers[id].port, props, maxPlayers, {});
    }

    /** writePropsHeld replaces the whole file; an error can follow the replacement. */
    method WritePropsHeld(calm: bool) returns (ok: bool)
      modifies this`file
      ensures ok ==> FileHolds(file, props)
      ensures !ok ==> file == old(file) || FileHolds(file, props)
      ensures calm ==> ok
    {
      ok := Attempt(calm);
      var published: bool := *;
      if ok || published {
        file := Props.WriteProps(props);
      }
    }

    /** saveHeld reports an error only when servers.json was not replaced. */
    method SaveHeld(calm: bool) returns (ok: bool)
      requires id in ports.servers
      modifies this`saved
      ensures ok ==> saved == Model()
      ensures !ok ==> saved == old(saved)
      ensures calm ==> ok
    {
      ok := Attempt(calm);
      if ok {
        saved := Settings(ports.servers[id].port, props, maxPlayers, pending);
      }
    }

    method MarkRecoveryHeld()
      requires id in ports.servers
      modifies this`saved, this`recovery
      ensures recovery
    {
      recovery := true;
      var _ := SaveHeld(false);
    }

    /** The ledger is good and guards the ports the server had when the save began. */
    ghost predicate Holding(moved: bool, token: string, srv: Srv)
      reads this, ports
    {
      Good(ports.View()) && (moved ==> Guarded(ports.View(), id, token, srv))
    }

    /** Undo: the model first, then the file, then servers.json; whatever cannot be undone marks the server. */
    method RollBack(before: Settings, ghost moved: bool, ghost token: string, ghost srv: Srv)
      requires ports.Valid() && id in ports.servers && !recovery && srv.port == before.port
      requires !moved ==> ports.servers[id].port == before.port
      modifies this, ports
      ensures ports.Valid() && ports.View() == MovedBack(old(ports.View()), id, before.port) && Model() == before
      ensures !recovery ==> saved == before && FileHolds(file, props)
      ensures old(Holding(moved, token, srv)) ==> Holding(moved, token, srv)
    {
      hide Good, Guarded, FileHolds;
      if Holding(moved, token, srv) {
        SetBack(ports.View(), id, token, moved, srv);
      }
      ports.SetPort(id, before.port);
      props, maxPlayers, pending := before.props, before.maxPlayers, before.pending;
      var ok := WritePropsHeld(false);
      if !ok {
        MarkRecoveryHeld();
        return;
      }
      ok := SaveHeld(false);
      if !ok {
        MarkRecoveryHeld();
      }
    }

    /** The model as the request leaves it. */
    method Change(changes: PropMap, restartKeys: set<string>, running: bool, before: Settings)
      requires id in ports.servers && Wanted(changes) >= 0
      requires before == Settings(before.port, props, maxPlayers, pending)
      requires ports.servers[id].port == if Wanted(changes) > 0 then Wanted(changes) else before.port
      modifies this`props, this`maxPlayers, this`pending
      ensures Model() == Changed(before, changes, restartKeys, running)
    {
      hide GoText.Atoi, GoText.Itoa, NewPending, Wanted;
      pending := NewPending(before, changes, restartKeys, running);
      var p := Wanted(changes);
      if p > 0 {
        props := props[PORT_KEY := GoText.Itoa(p)];
      }
      props := props + changes;
      var max := GoText.Atoi(Get(changes, MAX_KEY));
      if max > 0 {
        maxPlayers := max;
      }
    }

    /** The new model, the file and servers.json, with other requests before and after each write. */
    method Publish(changes: PropMap, restartKeys: set<string>, running: bool, before: Settings,
                   ghost moved: bool, token: string, ghost srv: Srv, calm: bool) returns (ok: bool)
      requires ports.Valid() && id in ports.servers && "" !in ports.servers && !recovery
      requires before == Settings(before.port, props, maxPlayers, pending) && srv.port == before.port
      requires Wanted(changes) >= 0 && moved == (Wanted(changes) > 0 && Wanted(changes) != before.port)
      requires ports.servers[id].port == if Wanted(changes) > 0 then Wanted(changes) else before.port
      modifies this, ports
      ensures ports.Valid() && id in ports.servers && "" !in ports.servers
      ensures !recovery ==> saved == Model() && FileHolds(file, props)
      ensures ok ==> !recovery && Model() == Changed(before, changes, restartKeys, running)
      ensures !ok ==> Model() == before
      ensures old(Holding(moved, token, srv)) ==> Holding(moved, token, srv)
      ensures calm ==> ok && ports.View() == old(ports.View())
    {
      hide Good, Guarded, FileHolds, Changed, Wanted;
      Change(changes, restartKeys, running, before);
      ports.Others(id, token, srv, calm);
      ok := WritePropsHeld(calm);
      ports.Others(id, token, srv, calm);
      if ok {
        ok := SaveHeld(calm);
      }
      if !ok {
        RollBack(before, moved, token, srv);
      }
    }

    /** The port first: the save's own lease on everything the server publishes, then the move. */
    method MovePort(newPort: int, token: string, calm: bool) returns (ok: bool, moved: bool)
      requires ports.Valid() && id in ports.servers && "" !in ports.servers && newPort >= 0
      requires token !in ports.leases && token !in ports.granted
      modifies ports
      ensures ports.Valid() && id in ports.servers && "" !in ports.servers
      ensures moved == (newPort > 0 && newPort != old(ports.servers[id].port))
      ensures ports.servers[id].port == if ok && newPort > 0 then newPort else old(ports.servers[id].port)
      ensures ports.servers[id].live ==> old(ports.servers[id].live)
      ensures old(Good(ports.View()) && forall x <- All(ports.servers[id]) :: x.port !in ports.reserved) ==>
        Holding(moved, token, old(ports.servers[id]))
      ensures !moved && old(Good(ports.View())) ==> Good(ports.View())
      ensures moved && old(SelfBlocked(ports.servers[id], newPort)) ==> !ok
      ensures calm ==> (ok <==> old(Movable(ports.View(), id, newPort)))
      ensures calm ==> ports.servers[id].live == old(ports.servers[id].live)
    {
      hide Good, Guarded, CanMove, Static, All;
      ghost var b := ports.View();
      ghost var srv := ports.servers[id];
      moved := newPort > 0 && newPort != ports.servers[id].port;
      if moved {
        ghost var own := ports.HandOver(id, token);
        TakesOver(b, id, token, own);
        MoveUnderHandOver(b, id, token, own, newPort);
      }
      ports.Others(id, token, srv, calm);
      ok := true;
      if newPort > 0 {
        if moved && SelfBlocked(srv, newPort) {
          StillBlocked(ports.View(), id, srv, newPort);
        }
        if CanMove(ports.View(), id, newPort) {
          MovesOn(ports.View(), id, token, srv, newPort);
        }
        ok := ports.ChangeServerPort(id, newPort);
      }
    }

    /**
     applySettingsHeld, with other requests before, between and after its own steps. Every return leaves model and
     servers.json equal, on the new settings or on the old ones, and server.properties either untouched or printed from
     them, or marks the server for recovery. Undisturbed, it succeeds exactly on a valid request whose port the save
     can move to.
     */
    method ApplySettings(changes: PropMap, known: set<string>, restartKeys: set<string>, registered: bool,
                         token: string, calm: bool) returns (ok: bool, ghost running: bool)
      requires ports.Valid() && id in ports.servers && "" !in ports.servers
      requires token !in ports.leases && token !in ports.granted
      requires saved == Model()
      modifies this, ports
      ensures ports.Valid() && id in ports.servers
      ensures !recovery ==> saved == Model()
      ensures ok ==> !recovery && FileHolds(file, props)
      ensures ok ==> Model() == Changed(old(Model()), changes, restartKeys, running)
      ensures ok ==>
        ports.servers[id].port == if PORT_KEY in changes then Wanted(changes) else old(ports.servers[id].port)
      ensures ok ==> props == old(props) + changes && LimitAfter(changes, old(maxPlayers), maxPlayers)
      ensures ok ==> forall k ::
        k in pending <==> WaitsAfter(old(Model()), changes, restartKeys, running, k)
      ensures running ==> old(ports.servers[id].live)
      ensures !ok ==> Model() == old(Model())
      ensures !ok && !recovery ==> file == old(file) || FileHolds(file, props)
      ensures (Wanted(changes) > 0 && Wanted(changes) != old(ports.servers[id].port)
               && old(SelfBlocked(ports.servers[id], Wanted(changes)))) ==> !ok
      ensures calm ==> running == old(ports.servers[id].live)
      ensures calm ==> (ok <==> registered && !old(recovery) && Acceptable(changes, known)
                                && old(Movable(ports.View(), id, Wanted(changes))))
      ensures old(Good(ports.View()) && forall x <- All(ports.servers[id]) :: x.port !in ports.reserved) ==>
          Good(ports.View())
    {
      hide Good, Guarded, FileHolds, Changed, Movable, SelfBlocked, All, Released, Acceptable, Wanted, Get, LimitAfter,
        WaitsAfter;
      WantedInRange(changes, known);
      running := ports.servers[id].live;
      if !Acceptable(changes, known) {
        return false, running;
      }
      if !registered || recovery {
        return false, running;
      }
      var before := Settings(ports.servers[id].port, props, maxPlayers, pending);
      ghost var srv := ports.servers[id];
      var moved;
      ok, moved := MovePort(Wanted(changes), token, calm);
      if ok {
        var live := ports.servers[id].live;
        running := live;
        ChangedMeans(before, changes, known, restartKeys, live);
        ok := Publish(changes, restartKeys, live, before, moved, token, srv, calm);
      }
      if moved {
        GivesUp(ports.View(), token);
        ports.ReleaseReservation(token);
      }
    }
  }
}
