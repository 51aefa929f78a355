/**
 The port ledger: registered servers, in-flight leases and the numeric reservation table, as values.
 A binding is a port number with a protocol; a reservation holds the bare number.
 */
module Ledger {
  datatype Binding = Binding(port: int, proto: string)

  /** A template's publishing shape; extras are its fixed ports, already parsed (0 where unusable). */
  datatype Shape = Shape(protos: seq<string>, span: int, extras: seq<Binding>)

  /** bindPort is the base port the live container was created with, 0 when none is live. */
  datatype Srv = Srv(port: int, bindPort: int, shape: Shape, dynamic: seq<Binding>, live: bool)

  /** held, owner and granted are history: what a lease in the table was claimed for, the server whose own ports a
      settings save is guarding with it, and what each holder that has not given its lease up still counts on. */
  datatype Book = Book(
    servers: map<string, Srv>,
    reserved: map<int, string>,
    leases: map<string, seq<int>>,
    held: map<string, set<Binding>>,
    owner: map<string, string>,
    granted: map<string, set<Binding>>)

  // ----- binding sets

  function Protos(shape: Shape): seq<string> {
    if shape.protos == [] then ["tcp"] else shape.protos
  }

  function Span(shape: Shape): nat {
    if shape.span < 1 then 1 else shape.span
  }

  /** What publishing at a base port takes: consecutive ports up to 65535 on every protocol, and the extras. */
  function Built(base: int, shape: Shape): set<Binding> {
    (set n, pr | base <= n < base + Span(shape) && n <= 65535 && pr in Protos(shape) :: Binding(n, pr))
    + (set b | b in shape.extras && b.port > 0)
  }

  /** Static bindings: both sides of a port move while a container is live on the old base. */
  function Static(s: Srv): set<Binding> {
    (if s.bindPort > 0 && s.bindPort != s.port then Built(s.bindPort, s.shape) else {}) + Built(s.port, s.shape)
  }

  function All(s: Srv): set<Binding> {
    Static(s) + Bindings(s.dynamic)
  }

  function Bindings(bs: seq<Binding>): set<Binding> {
    set b | b in bs
  }

  function Numbers(bs: set<Binding>): set<int> {
    set b | b in bs :: b.port
  }

  function SetOf(ports: seq<int>): set<int> {
    set p | p in ports
  }

  /** Admission refuses any member out of range. */
  predicate Fits(base: int, shape: Shape) {
    1 <= base && base + Span(shape) - 1 <= 65535 && forall b <- shape.extras :: 1 <= b.port <= 65535
  }

  // ----- the invariant

  /** The two reservation maps describe the same leases, so no two leases share a number. */
  predicate Agree(reserved: map<int, string>, leases: map<string, seq<int>>) {
    && (forall p <- reserved :: reserved[p] in leases && p in leases[reserved[p]])
    && (forall l <- leases :: forall p <- leases[l] :: p in reserved && reserved[p] == l)
  }

  /** The ledger's own promise: maps in agreement, leases and registered servers apart. */
  predicate Sound(b: Book) {
    && Agree(b.reserved, b.leases)
    && b.held.Keys == b.leases.Keys && b.owner.Keys <= b.leases.Keys
    && (forall l <- b.owner :: b.owner[l] in b.servers)
    && (forall l <- b.held :: l in b.granted && b.granted[l] == b.held[l])
    && (forall l <- b.held :: forall x <- b.held[l] :: x.port in b.leases[l])
    && (forall l, id | l in b.held && id in b.servers ::
          (l in b.owner && b.owner[l] == id) || b.held[l] !! Static(b.servers[id]))
    && (forall id, other | id in b.servers && other in b.servers && id != other ::
          Static(b.servers[id]) !! Static(b.servers[other]))
  }

  /** Nobody's lease was freed behind its holder's back. */
  predicate Covered(b: Book) {
    b.granted.Keys <= b.leases.Keys
  }

  predicate Good(b: Book) {
    Sound(b) && Covered(b)
  }

  // ----- claim, release, register

  predicate CanClaim(b: Book, cand: set<Binding>) {
    && (forall id <- b.servers :: All(b.servers[id]) !! cand)
    && (forall x <- cand :: x.port !in b.reserved)
  }

  function Reserve(reserved: map<int, string>, ports: set<int>, lease: string): map<int, string> {
    reserved + map p | p in ports :: lease
  }

  function Claimed(b: Book, lease: string, cand: set<Binding>, ports: seq<int>): Book {
    b.(reserved := Reserve(b.reserved, Numbers(cand), lease), leases := b.leases[lease := ports],
       held := b.held[lease := cand], owner := b.owner - {lease}, granted := b.granted[lease := cand])
  }

  lemma ClaimSound(b: Book, lease: string, cand: set<Binding>, ports: seq<int>)
    requires Sound(b) && lease !in b.leases && CanClaim(b, cand)
    requires SetOf(ports) == Numbers(cand)
    ensures Sound(Claimed(b, lease, cand, ports))
  {
    var c := Claimed(b, lease, cand, ports);
    ReserveAgrees(b.reserved, b.leases, lease, ports);
    assert forall p :: p in ports <==> p in SetOf(ports);
    forall x | x in cand ensures x.port in ports {
      assert x.port in Numbers(cand);
    }
    forall id | id in b.servers ensures cand !! Static(b.servers[id]) {
      assert Static(b.servers[id]) <= All(b.servers[id]);
    }
  }

  /** Overwriting reservations with a new lease keeps the maps in agreement exactly when none was held. */
  lemma ReserveAgrees(reserved: map<int, string>, leases: map<string, seq<int>>, lease: string, ports: seq<int>)
    requires Agree(reserved, leases) && lease !in leases
    ensures Agree(Reserve(reserved, SetOf(ports), lease), leases[lease := ports])
            <==> forall p <- ports :: p !in reserved
  {
    var r := Reserve(reserved, SetOf(ports), lease);
    var ls := leases[lease := ports];
    assert forall l <- leases :: ls[l] == leases[l];
    assert forall p <- ports :: p in r && r[p] == lease;
    assert forall p <- reserved :: reserved[p] in leases && p in leases[reserved[p]];
  }

  /** The lease goes from the table, with the numbers that are still its own. */
  function Freed(b: Book, lease: string): Book {
    if lease !in b.leases then b
    else
      b.(reserved := map p | p in b.reserved && !(p in b.leases[lease] && b.reserved[p] == lease) :: b.reserved[p],
         leases := b.leases - {lease}, held := b.held - {lease}, owner := b.owner - {lease})
  }

  /** Its holder gives it up. */
  function Released(b: Book, lease: string): Book {
    Freed(b, lease).(granted := b.granted - {lease})
  }

  /** releasePort frees whichever lease holds the number now; mine is the lease the caller was given, if any. */
  function PortReleased(b: Book, port: int, mine: string): Book {
    if port !in b.reserved then b
    else if b.reserved[port] == mine then Released(b, mine)
    else Freed(b, b.reserved[port])
  }

  lemma FreedSound(b: Book, lease: string)
    requires Sound(b)
    ensures Sound(Freed(b, lease))
    ensures forall p <- b.reserved :: b.reserved[p] != lease ==>
        p in Freed(b, lease).reserved && Freed(b, lease).reserved[p] == b.reserved[p]
  {
  }

  lemma ReleaseSound(b: Book, lease: string)
    requires Sound(b)
    ensures Sound(Released(b, lease)) && (Covered(b) ==> Covered(Released(b, lease)))
    ensures forall p <- b.reserved :: b.reserved[p] != lease ==>
        p in Released(b, lease).reserved && Released(b, lease).reserved[p] == b.reserved[p]
  {
    FreedSound(b, lease);
  }

  /** Releasing a bare number frees nobody else's lease exactly when the number is unheld or held by the
      caller's own. */
  lemma ReleasePortCovers(b: Book, port: int, mine: string)
    requires Good(b)
    ensures Sound(PortReleased(b, port, mine))
    ensures Covered(PortReleased(b, port, mine)) <==> (port !in b.reserved || b.reserved[port] == mine)
  {
    if port in b.reserved {
      FreedSound(b, b.reserved[port]);
      assert b.reserved[port] in b.leases && b.reserved[port] in b.granted;
    }
  }

  /** Registration adds the server and gives its lease up, whether or not the table still has it. */
  function Registered(b: Book, id: string, s: Srv, lease: string): Book {
    Released(b, lease).(servers := b.servers[id := s])
  }

  /** No server publishes and no other lease holds one of these bindings. */
  predicate StillFree(b: Book, bindings: set<Binding>, lease: string) {
    && (forall id <- b.servers :: Static(b.servers[id]) !! bindings)
    && (forall l <- b.held :: l != lease ==> b.held[l] !! bindings)
  }

  /** A registration checks nothing. It is sound exactly when its bindings are still free, which they are as long as
      the lease they were claimed under is still in the table. */
  lemma RegisterSound(b: Book, id: string, s: Srv, lease: string)
    requires Sound(b) && id !in b.servers && lease !in b.owner
    requires lease in b.granted && b.granted[lease] == Static(s)
    ensures Sound(Registered(b, id, s, lease)) <==> StillFree(b, Static(s), lease)
    ensures lease in b.leases ==> StillFree(b, Static(s), lease)
  {
    hide Sound, StillFree;
    if StillFree(b, Static(s), lease) {
      RegisterFree(b, id, s, lease);
    }
    if Sound(Registered(b, id, s, lease)) {
      RegisterNeedsFree(b, id, s, lease);
    }
    if lease in b.leases {
      LeaseKeepsFree(b, lease);
    }
  }

  lemma RegisterFree(b: Book, id: string, s: Srv, lease: string)
    requires Sound(b) && id !in b.servers && StillFree(b, Static(s), lease)
    ensures Sound(Registered(b, id, s, lease))
  {
    hide Static;
    ReleaseSound(b, lease);
  }

  lemma RegisterNeedsFree(b: Book, id: string, s: Srv, lease: string)
    requires Sound(b) && id !in b.servers && lease !in b.owner && Sound(Registered(b, id, s, lease))
    ensures StillFree(b, Static(s), lease)
  {
    hide Static;
    var c := Registered(b, id, s, lease);
    forall other | other in b.servers ensures Static(b.servers[other]) !! Static(s) {
      assert c.servers[other] == b.servers[other] && c.servers[id] == s && other != id;
    }
    forall l | l in b.held && l != lease ensures b.held[l] !! Static(s) {
      assert l in c.held && c.servers[id] == s && (l in c.owner ==> c.owner[l] in b.servers);
    }
  }

  lemma LeaseKeepsFree(b: Book, lease: string)
    requires Sound(b) && lease in b.leases && lease !in b.owner
    ensures StillFree(b, b.held[lease], lease) && b.granted[lease] == b.held[lease]
  {
    hide Static;
    forall l | l in b.held && l != lease ensures b.held[l] !! b.held[lease] {
      LeasesApart(b, l, lease);
    }
  }

  lemma LeasesApart(b: Book, l: string, m: string)
    requires Sound(b) && l in b.held && m in b.held && l != m
    ensures b.held[l] !! b.held[m]
  {
    assert forall x <- b.held[l] :: x.port in b.leases[l] && b.reserved[x.port] == l;
    assert forall x <- b.held[m] :: x.port in b.leases[m] && b.reserved[x.port] == m;
  }

  // ----- moving, starting, stopping, deleting

  predicate CanMove(b: Book, id: string, port: int)
    requires id in b.servers
  {
    && 1 <= port <= 65535 && Fits(port, b.servers[id].shape)
    && (forall other <- b.servers :: other != id ==> All(b.servers[other]) !! Built(port, b.servers[id].shape))
    && (forall x <- Built(port, b.servers[id].shape) :: x.port !in b.reserved)
  }

  function Moved(b: Book, id: string, port: int): Book
    requires id in b.servers
  {
    b.(servers := b.servers[id := b.servers[id].(port := port)])
  }

  /** A move keeps the live side of the binding set and adds only what was checked. */
  lemma MovedWithin(s: Srv, port: int)
    ensures Static(s.(port := port)) <= Static(s) + Built(port, s.shape)
  {
  }

  lemma MoveSound(b: Book, id: string, port: int)
    requires Sound(b) && id in b.servers && CanMove(b, id, port)
    ensures Sound(Moved(b, id, port))
  {
    hide Static, Built, Fits, Agree;
    var s := b.servers[id];
    MovedWithin(s, port);
    HeldReserved(b);
    forall other | other in b.servers && other != id ensures Static(b.servers[other]) !! Static(s.(port := port)) {
      assert Static(b.servers[other]) <= All(b.servers[other]);
    }
    forall l | l in b.held && !(l in b.owner && b.owner[l] == id) ensures b.held[l] !! Static(s.(port := port)) {
    }
  }

  lemma HeldReserved(b: Book)
    requires Sound(b)
    ensures forall l <- b.held :: forall x <- b.held[l] :: x.port in b.reserved
  {
  }

  /** Replacing a server by one that publishes no more than before. */
  lemma ShrinkSound(b: Book, id: string, s: Srv)
    requires Sound(b) && id in b.servers && Static(s) <= Static(b.servers[id])
    ensures Sound(b.(servers := b.servers[id := s]))
  {
  }

  /** The ledger half of a start claim: the container will be created on the current port. */
  function Started(s: Srv, dynamic: seq<Binding>): Srv {
    s.(bindPort := s.port, dynamic := dynamic)
  }

  /** A start another live server's ports refuse leaves the new bindings in place; one that cannot be saved
      clears them. */
  datatype Outcome = Blocked | Unsaved | Running

  function AfterStart(s: Srv, dynamic: seq<Binding>, outcome: Outcome): Srv {
    match outcome
    case Blocked => Started(s, dynamic)
    case Unsaved => s.(bindPort := 0, dynamic := [])
    case Running => Started(s, dynamic).(live := true)
  }

  function Exited(s: Srv): Srv {
    s.(bindPort := 0, dynamic := [], live := false)
  }

  lemma StartExitShrink(s: Srv, dynamic: seq<Binding>, outcome: Outcome)
    ensures Static(AfterStart(s, dynamic, outcome)) <= Static(s) && Static(Exited(s)) <= Static(s)
  {
  }

  /** What a server publishes after a start and after an exit: its own port alone, and while it is up the dynamic
      bindings it came with. A move of a stopped server leaves nothing behind, one of a live server keeps the
      container's. */
  lemma StartExitPublish(s: Srv, dynamic: seq<Binding>, port: int)
    ensures All(AfterStart(s, dynamic, Running)) == Built(s.port, s.shape) + Bindings(dynamic)
    ensures AfterStart(s, dynamic, Running).live && AfterStart(s, dynamic, Running).port == s.port
    ensures All(AfterStart(s, dynamic, Unsaved)) == All(Exited(s)) == Built(s.port, s.shape) && !Exited(s).live
    ensures Exited(s).port == s.port
    ensures Static(Exited(s).(port := port)) == Built(port, s.shape)
    ensures s.port > 0 ==>
      Static(AfterStart(s, dynamic, Running).(port := port)) == Built(s.port, s.shape) + Built(port, s.shape)
  {
  }

  /** A shape without protocols publishes over TCP, one without a span a single port. */
  lemma PlainShape(port: int, span: int)
    requires 1 <= port <= 65535 && span <= 1
    ensures Built(port, Shape([], span, [])) == {Binding(port, "tcp")}
  {
    assert Protos(Shape([], span, [])) == ["tcp"];
  }

  /** What a shape publishes: each port of its span up to the last there is, over each of its protocols, and its usable
      extras. */
  lemma BuiltHas(base: int, shape: Shape, x: Binding)
    requires shape.protos != [] && shape.span >= 1
    ensures x in Built(base, shape) <==>
      (base <= x.port < base + shape.span && x.port <= 65535 && x.proto in shape.protos)
      || (x in shape.extras && x.port > 0)
  {
  }

  lemma DeleteSound(b: Book, id: string)
    requires Sound(b) && forall l <- b.owner :: b.owner[l] != id
    ensures Sound(b.(servers := b.servers - {id}))
  {
  }

  // ----- the settings hand-over

  /** A settings save reserves every port its server publishes before moving it. */
  function HandedOver(b: Book, id: string, lease: string, ports: seq<int>): Book
    requires id in b.servers
  {
    var s := b.servers[id];
    b.(reserved := Reserve(b.reserved, Numbers(All(s)), lease), leases := b.leases[lease := ports],
       held := b.held[lease := Static(s)], owner := b.owner[lease := id], granted := b.granted[lease := Static(s)])
  }

  /** The overwrite is unchecked in the code; it is sound exactly when no other lease holds one of the numbers. */
  lemma HandOverSound(b: Book, id: string, lease: string, ports: seq<int>)
    requires Sound(b) && id in b.servers && lease !in b.leases
    requires SetOf(ports) == Numbers(All(b.servers[id]))
    ensures Sound(HandedOver(b, id, lease, ports)) <==> forall x <- All(b.servers[id]) :: x.port !in b.reserved
    ensures Covered(b) ==> Covered(HandedOver(b, id, lease, ports))
  {
    ReserveAgrees(b.reserved, b.leases, lease, ports);
    PortsFree(All(b.servers[id]), ports, b.reserved);
    if forall p <- ports :: p !in b.reserved {
      HandOverKeeps(b, id, lease, ports);
    }
  }

  lemma PortsFree(own: set<Binding>, ports: seq<int>, reserved: map<int, string>)
    requires SetOf(ports) == Numbers(own)
    ensures (forall p <- ports :: p !in reserved) <==> (forall x <- own :: x.port !in reserved)
    ensures forall x <- own :: x.port in ports
  {
    forall x | x in own ensures x.port in ports {
      assert x.port in Numbers(own);
    }
    forall p | p in ports ensures exists x <- own :: x.port == p {
      assert p in SetOf(ports);
    }
  }

  lemma HandOverKeeps(b: Book, id: string, lease: string, ports: seq<int>)
    requires Sound(b) && id in b.servers && lease !in b.leases && SetOf(ports) == Numbers(All(b.servers[id]))
    requires Agree(Reserve(b.reserved, SetOf(ports), lease), b.leases[lease := ports])
    ensures Sound(HandedOver(b, id, lease, ports))
  {
    hide Static, Agree, Reserve, Numbers, SetOf, All;
    var c := HandedOver(b, id, lease, ports);
    PortsFree(All(b.servers[id]), ports, b.reserved);
    StaticWithin(b.servers[id]);
    forall l, other | l in c.held && other in c.servers
      ensures (l in c.owner && c.owner[l] == other) || c.held[l] !! Static(c.servers[other])
    {
      if l != lease {
        assert l in b.held;
      }
    }
  }

  lemma StaticWithin(s: Srv)
    ensures Static(s) <= All(s)
  {
  }

  /** A lease on 25565 over UDP and a server on 25565 over TCP coexist; the hand-over then takes the lease's number. */
  lemma HandOverStealsReservation()
    ensures
      var s := Srv(25565, 0, Shape(["tcp"], 1, []), [], false);
      var udp := {Binding(25565, "udp")};
      var b := Book(map["a" := s], map[25565 := "L"], map["L" := [25565]], map["L" := udp], map[], map["L" := udp]);
      Good(b) && !Sound(HandedOver(b, "a", "M", [25565]))
  {
    var s := Srv(25565, 0, Shape(["tcp"], 1, []), [], false);
    var udp := {Binding(25565, "udp")};
    var b := Book(map["a" := s], map[25565 := "L"], map["L" := [25565]], map["L" := udp], map[], map["L" := udp]);
    assert Built(25565, s.shape) == {Binding(25565, "tcp")};
    assert Static(s) == {Binding(25565, "tcp")} == All(s);
    assert Sound(b);
    assert Numbers(All(s)) == {25565};
    HandOverSound(b, "a", "M", [25565]);
    assert Binding(25565, "tcp") in All(s);
  }

  /** A move inside a settings save succeeds exactly when it would without the save's own lease and the new ports meet
      none the server publishes already, its container's included. */
  lemma MoveUnderHandOver(b: Book, id: string, lease: string, ports: seq<int>, port: int)
    requires id in b.servers
    ensures CanMove(HandedOver(b, id, lease, ports), id, port)
            <==> CanMove(b, id, port) && !SelfBlocked(b.servers[id], port)
  {
    var s := b.servers[id];
    var c := HandedOver(b, id, lease, ports);
    assert forall p :: p in c.reserved <==> p in b.reserved || p in Numbers(All(s));
  }

  /** The new ports meet the server's own. */
  predicate SelfBlocked(s: Srv, port: int) {
    exists x <- Built(port, s.shape) :: x.port in Numbers(All(s))
  }

  /** Two spans of these lengths overlap. */
  predicate Overlap(a: int, b: int, span: nat) {
    b - span < a < b + span
  }

  /** So no server with a fixed extra port can be moved by a settings save, nor any server across its own span or back
      onto its container's. */
  lemma OwnPortsBlockMove(s: Srv, port: int)
    requires Fits(port, s.shape)
    requires
      s.shape.extras != [] || Overlap(port, s.port, Span(s.shape))
      || (s.bindPort > 0 && Overlap(port, s.bindPort, Span(s.shape)))
    ensures SelfBlocked(s, port)
  {
    hide Static;
    BothBuilt(s);
    if s.shape.extras != [] {
      var x := s.shape.extras[0];
      assert x in s.shape.extras && x in Built(port, s.shape) && x in Built(s.port, s.shape);
      assert x.port in Numbers(All(s));
    } else {
      var base := if Overlap(port, s.port, Span(s.shape)) then s.port else s.bindPort;
      var n, pr := if port < base then base else port, Protos(s.shape)[0];
      assert pr in Protos(s.shape);
      assert Binding(n, pr) in Built(port, s.shape) && Binding(n, pr) in Built(base, s.shape);
      assert n in Numbers(All(s));
    }
  }

  lemma BothBuilt(s: Srv)
    ensures Built(s.port, s.shape) <= All(s) && (s.bindPort > 0 ==> Built(s.bindPort, s.shape) <= All(s))
  {
  }

  // ----- the old ports stay free while a save runs

  /** A save's view of its server: the lease stands, the shape is the one it was taken for, and the container is the
      same or gone. */
  predicate Guarded(b: Book, id: string, lease: string, before: Srv) {
    && id in b.servers && lease in b.owner && b.owner[lease] == id
    && lease in b.held && b.held[lease] == Static(before) && b.servers[id].shape == before.shape
    && (b.servers[id].bindPort == before.bindPort || b.servers[id].bindPort == 0)
  }

  function MovedBack(b: Book, id: string, port: int): Book
    requires id in b.servers
  {
    b.(servers := b.servers[id := b.servers[id].(port := port)])
  }

  /** Undoing a move inside a settings save cannot collide: the hand-over lease kept the old ports free. */
  lemma MoveBackSound(b: Book, id: string, lease: string, before: Srv)
    requires Sound(b) && Guarded(b, id, lease, before)
    ensures Sound(MovedBack(b, id, before.port)) && Guarded(MovedBack(b, id, before.port), id, lease, before)
    ensures Covered(b) ==> Covered(MovedBack(b, id, before.port))
  {
    hide Static, Built, Agree;
    var s := b.servers[id].(port := before.port);
    BackWithin(b.servers[id], before);
    forall l | l in b.held && l != lease ensures b.held[l] !! Static(s) {
      LeasesApart(b, l, lease);
    }
  }

  lemma BackWithin(s: Srv, before: Srv)
    requires s.shape == before.shape && (s.bindPort == before.bindPort || s.bindPort == 0)
    ensures Static(s.(port := before.port)) <= Static(before)
  {
  }

  /** While a settings save runs, nobody else can take a port its server published before. */
  lemma HandOverGuards(b: Book, id: string, lease: string, x: Binding)
    requires Sound(b) && lease in b.owner && b.owner[lease] == id && x in b.held[lease]
    ensures forall other <- b.servers :: other != id ==> x !in Static(b.servers[other])
    ensures forall cand: set<Binding> | x in cand :: !CanClaim(b, cand)
    ensures forall other, port | other in b.servers && x in Built(port, b.servers[other].shape) ::
      !CanMove(b, other, port)
  {
    assert x.port in b.leases[lease] && x.port in b.reserved;
  }

  // ----- whole runs

  datatype Op =
    | Claim(lease: string, cand: set<Binding>, ports: seq<int>)
    | Release(lease: string)
    | ReleasePort(port: int, mine: string)
    | Register(id: string, s: Srv, lease: string)
    | Move(id: string, port: int)
    | Start(id: string, dynamic: seq<Binding>, outcome: Outcome)
    | Exit(id: string)
    | Delete(id: string)
    | HandOver(id: string, lease: string, ports: seq<int>)
    | MoveBack(id: string, lease: string, before: Srv)
    | Recover(id: string, port: int)
    | Reboot

  /** What the code has checked, or its callers bring along, when it makes each change. Names are random and taken to
      be new; a registration brings the lease it was granted; a settings save, a deletion of the same server and boot
      recovery exclude each other. */
  predicate Allowed(b: Book, op: Op) {
    match op
    case Claim(lease, cand, ports) =>
      lease !in b.leases && lease !in b.granted && CanClaim(b, cand) && SetOf(ports) == Numbers(cand)
    case Release(_) => true
    case ReleasePort(_, _) => true
    case Register(id, s, lease) =>
      id !in b.servers && lease !in b.owner && lease in b.granted && b.granted[lease] == Static(s)
    case Move(id, port) => id in b.servers && CanMove(b, id, port)
    case Start(id, _, _) => id in b.servers
    case Exit(id) => id in b.servers
    case Delete(id) => forall l <- b.owner :: b.owner[l] != id
    case HandOver(id, lease, ports) =>
      id in b.servers && lease !in b.leases && lease !in b.granted && SetOf(ports) == Numbers(All(b.servers[id]))
    case MoveBack(id, lease, before) => Guarded(b, id, lease, before)
    case Recover(id, _) => id in b.servers && forall l <- b.owner :: b.owner[l] != id
    case Reboot => true
  }

  function Apply(b: Book, op: Op): Book
    requires Allowed(b, op)
  {
    match op
    case Claim(lease, cand, ports) => Claimed(b, lease, cand, ports)
    case Release(lease) => Released(b, lease)
    case ReleasePort(port, mine) => PortReleased(b, port, mine)
    case Register(id, s, lease) => Registered(b, id, s, lease)
    case Move(id, port) => Moved(b, id, port)
    case Start(id, dynamic, outcome) => b.(servers := b.servers[id := AfterStart(b.servers[id], dynamic, outcome)])
    case Exit(id) => b.(servers := b.servers[id := Exited(b.servers[id])])
    case Delete(id) => b.(servers := b.servers - {id})
    case HandOver(id, lease, ports) => HandedOver(b, id, lease, ports)
    case MoveBack(id, _, before) => MovedBack(b, id, before.port)
    case Recover(id, port) => MovedBack(b, id, port)
    case Reboot => Book(map id <- b.servers :: Exited(b.servers[id]), map[], map[], map[], map[], map[])
  }

  /** The three changes the code makes unchecked, and what has to hold for each. */
  predicate Careful(b: Book, op: Op)
    requires Allowed(b, op)
  {
    match op
    case ReleasePort(port, mine) => port !in b.reserved || b.reserved[port] == mine
    case HandOver(id, _, _) => forall x <- All(b.servers[id]) :: x.port !in b.reserved
    case Recover(id, port) => RoomFor(b, id, b.servers[id].(port := port))
    case _ => true
  }

  /** Nobody else publishes or holds what this server would. */
  predicate RoomFor(b: Book, id: string, s: Srv) {
    && (forall other <- b.servers :: other != id ==> Static(b.servers[other]) !! Static(s))
    && (forall l <- b.held :: b.held[l] !! Static(s))
  }

  /** Boot recovery sets the journalled port without asking the ledger. */
  lemma RecoverSound(b: Book, id: string, port: int)
    requires Sound(b) && id in b.servers && forall l <- b.owner :: b.owner[l] != id
    ensures Sound(MovedBack(b, id, port)) <==> RoomFor(b, id, b.servers[id].(port := port))
    ensures Covered(b) ==> Covered(MovedBack(b, id, port))
  {
    var c, s := MovedBack(b, id, port), b.servers[id].(port := port);
    if Sound(c) {
      forall other | other in b.servers && other != id ensures Static(b.servers[other]) !! Static(s) {
        assert c.servers[other] == b.servers[other] && c.servers[id] == s;
      }
      forall l | l in b.held ensures b.held[l] !! Static(s) {
        assert l in c.held && c.servers[id] == s;
      }
    }
  }

  lemma RebootSound(b: Book)
    requires Sound(b)
    ensures Good(Book(map id <- b.servers :: Exited(b.servers[id]), map[], map[], map[], map[], map[]))
  {
    forall id | id in b.servers ensures Static(Exited(b.servers[id])) <= Static(b.servers[id]) {
      StartExitShrink(b.servers[id], [], Unsaved);
    }
  }

  /** Each step keeps the ledger good exactly when it is careful. */
  lemma StepGood(b: Book, op: Op)
    requires Good(b) && Allowed(b, op)
    ensures Good(Apply(b, op)) <==> Careful(b, op)
  {
    hide Sound;
    match op {
      case Claim(lease, cand, ports) => ClaimSound(b, lease, cand, ports);
      case Release(lease) => ReleaseSound(b, lease);
      case ReleasePort(port, mine) => ReleasePortCovers(b, port, mine);
      case Register(id, s, lease) =>
        RegisterSound(b, id, s, lease);
        ReleaseSound(b, lease);
      case Move(id, port) => MoveSound(b, id, port);
      case Start(id, dynamic, outcome) =>
        StartExitShrink(b.servers[id], dynamic, outcome);
        ShrinkSound(b, id, AfterStart(b.servers[id], dynamic, outcome));
      case Exit(id) =>
        StartExitShrink(b.servers[id], [], Unsaved);
        ShrinkSound(b, id, Exited(b.servers[id]));
      case Delete(id) => DeleteSound(b, id);
      case HandOver(id, lease, ports) => HandOverSound(b, id, lease, ports);
      case MoveBack(id, lease, before) => MoveBackSound(b, id, lease, before);
      case Recover(id, port) => RecoverSound(b, id, port);
      case Reboot => RebootSound(b);
    }
  }

  /** A run is a sequence of books, each one allowed change after the one before. */
  predicate Run(books: seq<Book>, ops: seq<Op>) {
    |books| == |ops| + 1
    && forall i :: 0 <= i < |ops| ==> Allowed(books[i], ops[i]) && books[i + 1] == Apply(books[i], ops[i])
  }

  predicate AllCareful(books: seq<Book>, ops: seq<Op>)
    requires Run(books, ops)
  {
    forall i :: 0 <= i < |ops| ==> Careful(books[i], ops[i])
  }

  /** A run stays good throughout exactly when its every step is careful. */
  lemma {:induction false} RunGood(books: seq<Book>, ops: seq<Op>)
    requires Run(books, ops) && Good(books[0])
    ensures (forall b <- books :: Good(b)) <==> AllCareful(books, ops)
    decreases |ops|
  {
    hide Good, Allowed, Apply, Careful;
    if ops != [] {
      assert Allowed(books[0], ops[0]) && books[1] == Apply(books[0], ops[0]);
      StepGood(books[0], ops[0]);
      assert books == [books[0]] + books[1..];
      if Careful(books[0], ops[0]) {
        RunGood(books[1..], ops[1..]);
        TailCareful(books, ops);
      } else {
        assert books[1] in books;
      }
    } else {
      assert books == [books[0]];
    }
  }

  lemma TailCareful(books: seq<Book>, ops: seq<Op>)
    requires Run(books, ops) && ops != []
    ensures AllCareful(books, ops) <==> Careful(books[0], ops[0]) && AllCareful(books[1..], ops[1..])
  {
    hide Allowed, Apply, Careful;
    if Careful(books[0], ops[0]) && AllCareful(books[1..], ops[1..]) {
      forall i | 0 <= i < |ops| ensures Careful(books[i], ops[i]) {
        if i > 0 {
          assert Careful(books[1..][i - 1], ops[1..][i - 1]);
        }
      }
    }
    if AllCareful(books, ops) {
      forall i | 0 <= i < |ops| - 1 ensures Careful(books[1..][i], ops[1..][i]) {
        assert Careful(books[i + 1], ops[i + 1]);
      }
    }
  }

  // ----- other requests during a settings save

  /** A step of somebody else: not on this lease, and on this server only the exit of its container. */
  predicate Spares(b: Book, op: Op, id: string, lease: string) {
    match op
    case Claim(l, _, _) => l != lease
    case Release(l) => l != lease
    case ReleasePort(port, _) => port in b.reserved ==> b.reserved[port] != lease
    case Register(i, _, l) => i != id && l != lease
    case Move(i, _) => i != id
    case Start(i, _, _) => i != id
    case Exit(_) => true
    case Delete(i) => i != id
    case HandOver(i, l, _) => i != id && l != lease
    case MoveBack(i, l, _) => i != id && l != lease
    case Recover(i, _) => i != id
    case Reboot => false
  }

  lemma GuardedStep(b: Book, op: Op, id: string, lease: string, before: Srv)
    requires Guarded(b, id, lease, before) && Allowed(b, op) && Spares(b, op, id, lease)
    ensures Guarded(Apply(b, op), id, lease, before)
    ensures
      var s := Apply(b, op).servers[id];
      s == b.servers[id] || s == Exited(b.servers[id])
  {
    hide Static;
  }

  /** Whatever careful steps others take while a settings save runs, its container's exit among them, rolling the port
      back stays allowed and keeps the ledger good. */
  lemma {:induction false} SaveStaysGuarded(books: seq<Book>, ops: seq<Op>, id: string, lease: string, before: Srv)
    requires Run(books, ops) && AllCareful(books, ops) && Good(books[0]) && Guarded(books[0], id, lease, before)
    requires forall i :: 0 <= i < |ops| ==> Spares(books[i], ops[i], id, lease)
    ensures
      var last := books[|ops|];
      Good(last) && Allowed(last, MoveBack(id, lease, before)) && Good(Apply(last, MoveBack(id, lease, before)))
    decreases |ops|
  {
    hide Good, Apply, Careful, Spares, Guarded, Sound;
    if ops == [] {
      GoodParts(books[0]);
      MovesBack(books[0], id, lease, before);
      MoveBackSound(books[0], id, lease, before);
      GoodParts(MovedBack(books[0], id, before.port));
    } else {
      assert Allowed(books[0], ops[0]) && books[1] == Apply(books[0], ops[0]);
      TailCareful(books, ops);
      StepGood(books[0], ops[0]);
      GuardedStep(books[0], ops[0], id, lease, before);
      forall i | 0 <= i < |ops| - 1 ensures Spares(books[1..][i], ops[1..][i], id, lease) {
        assert Spares(books[i + 1], ops[i + 1], id, lease);
      }
      SaveStaysGuarded(books[1..], ops[1..], id, lease, before);
    }
  }

  lemma GoodParts(b: Book)
    ensures Good(b) <==> Sound(b) && Covered(b)
  {
  }

  lemma MovesBack(b: Book, id: string, lease: string, before: Srv)
    requires Guarded(b, id, lease, before)
    ensures id in b.servers && Allowed(b, MoveBack(id, lease, before))
    ensures Apply(b, MoveBack(id, lease, before)) == MovedBack(b, id, before.port)
  {
  }

  // ----- runs that go wrong

  function Plain(port: int): Srv {
    Srv(port, 0, Shape(["tcp"], 1, []), [], false)
  }

  lemma PlainStatic(port: int)
    requires 1 <= port <= 65535
    ensures Static(Plain(port)) == All(Plain(port)) == {Binding(port, "tcp")}
  {
    assert Built(port, Plain(port).shape) == {Binding(port, "tcp")};
  }

  const NOTHING := Book(map[], map[], map[], map[], map[], map[])

  function Tcp(p: int): set<Binding> {
    {Binding(p, "tcp")}
  }

  /** No reservations, nobody counting on one. */
  function Idle(servers: map<string, Srv>): Book {
    NOTHING.(servers := servers)
  }

  function Leased(servers: map<string, Srv>, l: string, p: int, granted: map<string, set<Binding>>): Book {
    Book(servers, map[p := l], map[l := [p]], map[l := Tcp(p)], map[], granted[l := Tcp(p)])
  }

  lemma ClaimPlain(servers: map<string, Srv>, l: string, p: int, granted: map<string, set<Binding>>)
    requires l !in granted && forall id <- servers :: All(servers[id]) !! Tcp(p)
    ensures
      var b := Idle(servers).(granted := granted);
      Allowed(b, Claim(l, Tcp(p), [p])) && Apply(b, Claim(l, Tcp(p), [p])) == Leased(servers, l, p, granted)
  {
    hide All, Static;
    OneNumber(p);
    assert Reserve(map[], {p}, l) == map[p := l];
    var e: map<string, string> := map[];
    assert e - {l} == e;
  }

  lemma OneNumber(p: int)
    ensures Numbers(Tcp(p)) == {p} == SetOf([p])
  {
  }

  lemma FreePlain(servers: map<string, Srv>, l: string, p: int, granted: map<string, set<Binding>>)
    ensures Freed(Leased(servers, l, p, granted), l) == Idle(servers).(granted := granted[l := Tcp(p)])
  {
  }

  lemma RegisterPlain(servers: map<string, Srv>, l: string, p: int, granted: map<string, set<Binding>>, id: string)
    requires 1 <= p <= 65535 && id !in servers && l !in granted
    ensures
      var b := Leased(servers, l, p, granted);
      Allowed(b, Register(id, Plain(p), l))
      && Apply(b, Register(id, Plain(p), l)) == Idle(servers[id := Plain(p)]).(granted := granted)
  {
    PlainStatic(p);
    FreePlain(servers, l, p, granted);
  }

  lemma TwiceUnsound(b: Book, id: string, other: string, p: int)
    requires 1 <= p <= 65535 && id in b.servers && other in b.servers && id != other
    requires b.servers[id] == b.servers[other] == Plain(p)
    ensures !Sound(b)
  {
    PlainStatic(p);
    assert Binding(p, "tcp") in Static(b.servers[id]) && Binding(p, "tcp") in Static(b.servers[other]);
  }

  lemma LeasedGood(l: string, p: int)
    ensures Good(Leased(map[], l, p, map[]))
  {
  }

  /** A clone that could not be saved frees p by number. Somebody else's lease on it is gone, p is claimed again, and
      both claims end as servers. */
  function ReleaseRun(p: int): seq<Op> {
    [Claim("M", Tcp(p), [p]), ReleasePort(p, "clone"), Claim("N", Tcp(p), [p]),
     Register("y", Plain(p), "N"), Register("x", Plain(p), "M")]
  }

  function ReleaseBooks(p: int): seq<Book> {
    var m := map["M" := Tcp(p)];
    [NOTHING, Leased(map[], "M", p, map[]), NOTHING.(granted := m), Leased(map[], "N", p, m),
     Idle(map["y" := Plain(p)]).(granted := m), Idle(map["y" := Plain(p)]["x" := Plain(p)])]
  }

  lemma ReleasePortBreaksLedger(p: int)
    requires 1 <= p <= 65535
    ensures Run(ReleaseBooks(p), ReleaseRun(p))
    ensures Good(ReleaseBooks(p)[1]) && !Careful(ReleaseBooks(p)[1], ReleaseRun(p)[1])
    ensures !Sound(ReleaseBooks(p)[5])
  {
    hide Apply, Allowed, Sound, Static, Leased, Freed, Registered;
    var books, ops, m := ReleaseBooks(p), ReleaseRun(p), map["M" := Tcp(p)];
    ClaimPlain(map[], "M", p, map[]);
    FreeByNumber(p);
    ClaimPlain(map[], "N", p, m);
    RegisterPlain(map[], "N", p, m, "y");
    RegisterFreed(p);
    LeasedGood("M", p);
    TwiceUnsound(books[5], "x", "y", p);
    assert books[0] == Idle(map[]).(granted := map[]) && books[2] == Idle(map[]).(granted := m);
    forall i | 0 <= i < 5 ensures Allowed(books[i], ops[i]) && books[i + 1] == Apply(books[i], ops[i]) {
      if {
        case i == 0 =>
        case i == 1 =>
        case i == 2 =>
        case i == 3 =>
        case i == 4 =>
      }
    }
  }

  lemma FreeByNumber(p: int)
    ensures
      var b := Leased(map[], "M", p, map[]);
      Allowed(b, ReleasePort(p, "clone")) && !Careful(b, ReleasePort(p, "clone"))
      && Apply(b, ReleasePort(p, "clone")) == NOTHING.(granted := map["M" := Tcp(p)])
  {
    FreePlain(map[], "M", p, map[]);
  }

  lemma RegisterFreed(p: int)
    requires 1 <= p <= 65535
    ensures
      var b := Idle(map["y" := Plain(p)]).(granted := map["M" := Tcp(p)]);
      Allowed(b, Register("x", Plain(p), "M"))
      && Apply(b, Register("x", Plain(p), "M")) == Idle(map["y" := Plain(p)]["x" := Plain(p)])
  {
    PlainStatic(p);
  }

  /** A restore moved a server from p to q and was retained; p is given to a new server; after the reboot recovery sets
      p again. */
  function RecoverRun(p: int, q: int): seq<Op> {
    [Move("a", q), Claim("L", Tcp(p), [p]), Register("b", Plain(p), "L"), Reboot, Recover("a", p)]
  }

  function RecoverBooks(p: int, q: int): seq<Book> {
    var moved := map["a" := Plain(q)];
    [Idle(map["a" := Plain(p)]), Idle(moved), Leased(moved, "L", p, map[]), Idle(moved["b" := Plain(p)]),
     Idle(moved["b" := Plain(p)]), Idle(map["a" := Plain(p)]["b" := Plain(p)])]
  }

  lemma RecoveryBreaksLedger(p: int, q: int)
    requires 1 <= p <= 65535 && 1 <= q <= 65535 && p != q
    ensures Run(RecoverBooks(p, q), RecoverRun(p, q))
    ensures Good(RecoverBooks(p, q)[0]) && !Sound(RecoverBooks(p, q)[5])
  {
    hide Apply, Allowed, Sound, Static, All, Leased, Freed, Registered;
    var books, ops, moved := RecoverBooks(p, q), RecoverRun(p, q), map["a" := Plain(q)];
    PlainStatic(q);
    MovePlain(p, q);
    assert Idle(moved).(granted := map[]) == Idle(moved);
    ClaimPlain(moved, "L", p, map[]);
    RegisterPlain(moved, "L", p, map[], "b");
    assert Idle(moved["b" := Plain(p)]).(granted := map[]) == Idle(moved["b" := Plain(p)]);
    RecoverPlain(p, q);
    TwiceUnsound(books[5], "a", "b", p);
    forall i | 0 <= i < 5 ensures Allowed(books[i], ops[i]) && books[i + 1] == Apply(books[i], ops[i]) {
      if {
        case i == 0 =>
        case i == 1 =>
        case i == 2 =>
        case i == 3 =>
        case i == 4 =>
      }
    }
  }

  lemma MovePlain(p: int, q: int)
    requires 1 <= q <= 65535
    ensures Good(Idle(map["a" := Plain(p)]))
    ensures
      var b := Idle(map["a" := Plain(p)]);
      Allowed(b, Move("a", q)) && Apply(b, Move("a", q)) == Idle(map["a" := Plain(q)])
  {
  }

  lemma RecoverPlain(p: int, q: int)
    ensures
      var b := Idle(map["a" := Plain(q)]["b" := Plain(p)]);
      && Allowed(b, Reboot) && Apply(b, Reboot) == b
      && Allowed(b, Recover("a", p)) && Apply(b, Recover("a", p)) == Idle(map["a" := Plain(p)]["b" := Plain(p)])
  {
  }
}
