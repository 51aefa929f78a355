/** The manager's port operations in place, each proved to be one change of the ledger. */
module PortManager {
  import opened Ledger

  function PortsOf(cand: seq<Binding>): seq<int> {
    seq(|cand|, i requires 0 <= i < |cand| => cand[i].port)
  }

  lemma PortsOfNumbers(cand: seq<Binding>)
    ensures SetOf(PortsOf(cand)) == Numbers(Bindings(cand))
  {
    forall p | p in PortsOf(cand) ensures p in Numbers(Bindings(cand)) {
      var i :| 0 <= i < |cand| && PortsOf(cand)[i] == p;
      assert cand[i] in Bindings(cand);
    }
    forall p | p in Numbers(Bindings(cand)) ensures p in PortsOf(cand) {
      var b :| b in Bindings(cand) && b.port == p;
      var i :| 0 <= i < |cand| && cand[i] == b;
      assert PortsOf(cand)[i] == p;
    }
  }

  lemma BindingsAppend(a: seq<Binding>, b: seq<Binding>)
    ensures Bindings(a + b) == Bindings(a) + Bindings(b)
  {
  }

  /** The bindings of one port on every protocol. */
  method OnePort(port: int, protos: seq<string>) returns (out: seq<Binding>)
    ensures Bindings(out) == set pr | pr in protos :: Binding(port, pr)
  {
    out := [];
    for k := 0 to |protos|
      invariant Bindings(out) == set pr | pr in protos[..k] :: Binding(port, pr)
    {
      BindingsAppend(out, [Binding(port, protos[k])]);
      out := out + [Binding(port, protos[k])];
      assert protos[..k + 1] == protos[..k] + [protos[k]];
    }
    assert protos[..|protos|] == protos;
  }

  /** Ports from base up to but not including limit. */
  ghost function Spanned(base: int, limit: int, protos: seq<string>): set<Binding> {
    set n, pr | base <= n < limit && pr in protos :: Binding(n, pr)
  }

  method Consecutive(base: int, limit: int, protos: seq<string>) returns (out: seq<Binding>)
    requires base <= limit
    ensures Bindings(out) == Spanned(base, limit, protos)
  {
    out := [];
    for n := base to limit
      invariant Bindings(out) == Spanned(base, n, protos)
    {
      var one := OnePort(n, protos);
      BindingsAppend(out, one);
      out := out + one;
      assert Spanned(base, n + 1, protos) == Spanned(base, n, protos) + set pr | pr in protos :: Binding(n, pr);
    }
  }

  /** candidateBindings: the whole publishing set of a would-be server, or an error if any member is out of range. */
  method CandidateBindings(base: int, shape: Shape) returns (ok: bool, out: seq<Binding>)
    ensures ok <==> Fits(base, shape)
    ensures ok ==> Bindings(out) == Built(base, shape)
  {
    out := [];
    if base < 1 || base + Span(shape) - 1 > 65535 {
      return false, [];
    }
    out := Consecutive(base, base + Span(shape), Protos(shape));
    ghost var spanned := Bindings(out);
    for k := 0 to |shape.extras|
      invariant forall b <- shape.extras[..k] :: 1 <= b.port <= 65535
      invariant Bindings(out) == spanned + Bindings(shape.extras[..k])
    {
      var b := shape.extras[k];
      assert shape.extras[..k + 1] == shape.extras[..k] + [b];
      if b.port < 1 || b.port > 65535 {
        assert b in shape.extras;
        return false, out;
      }
      BindingsAppend(out, [b]);
      out := out + [b];
    }
    assert shape.extras[..|shape.extras|] == shape.extras;
    assert Bindings(shape.extras) == set b | b in shape.extras && b.port > 0;
    ok := true;
  }

  /** serverBindingsLocked's inner build: a span running off the top is cut there, and unusable extras are left out. */
  method Build(base: int, shape: Shape) returns (out: seq<Binding>)
    ensures Bindings(out) == Built(base, shape)
  {
    var limit := if base + Span(shape) <= 65536 then base + Span(shape) else if base <= 65536 then 65536 else base;
    out := Consecutive(base, limit, Protos(shape));
    ghost var spanned := Bindings(out);
    for k := 0 to |shape.extras|
      invariant Bindings(out) == spanned + set b | b in shape.extras[..k] && b.port > 0
    {
      assert shape.extras[..k + 1] == shape.extras[..k] + [shape.extras[k]];
      if shape.extras[k].port > 0 {
        BindingsAppend(out, [shape.extras[k]]);
        out := out + [shape.extras[k]];
      }
    }
    assert shape.extras[..|shape.extras|] == shape.extras;
  }

  method ServerBindings(s: Srv) returns (out: seq<Binding>)
    ensures Bindings(out) == All(s)
  {
    out := [];
    if s.bindPort > 0 && s.bindPort != s.port {
      out := Build(s.bindPort, s.shape);
    }
    var current := Build(s.port, s.shape);
    BindingsAppend(out, current);
    BindingsAppend(out + current, s.dynamic);
    out := out + current + s.dynamic;
  }

  method BindingConflict(a: seq<Binding>, b: seq<Binding>) returns (conflict: bool)
    ensures conflict <==> !(Bindings(a) !! Bindings(b))
  {
    for i := 0 to |a|
      invariant Bindings(a[..i]) !! Bindings(b)
    {
      assert a[..i + 1] == a[..i] + [a[i]];
      if a[i] in b {
        assert a[i] in Bindings(a) && a[i] in Bindings(b);
        return true;
      }
    }
    assert a[..|a|] == a;
    return false;
  }

  lemma ReserveNone(reserved: map<int, string>, token: string)
    ensures Reserve(reserved, SetOf([]), token) == reserved
  {
  }

  lemma ReserveOne(reserved: map<int, string>, ports: seq<int>, i: nat, token: string)
    requires i < |ports|
    ensures Reserve(reserved, SetOf(ports[..i + 1]), token)
            == Reserve(reserved, SetOf(ports[..i]), token)[ports[i] := token]
  {
    assert ports[..i + 1] == ports[..i] + [ports[i]];
  }

  class Manager {
    var servers: map<string, Srv>
    var order: seq<string>
    var reserved: map<int, string>
    var leases: map<string, seq<int>>
    ghost var held: map<string, set<Binding>>
    ghost var owner: map<string, string>
    ghost var granted: map<string, set<Binding>>

    ghost function View(): Book
      reads this
    {
      Book(servers, reserved, leases, held, owner, granted)
    }

    ghost predicate Valid()
      reads this
    {
      forall id :: id in order <==> id in servers
    }

    constructor ()
      ensures Valid() && View() == NOTHING
    {
      servers, order, reserved, leases := map[], [], map[], map[];
      held, owner, granted := map[], map[], map[];
    }

    /** Does any registered server other than `except` publish one of these? */
    method Published(cand: seq<Binding>, except: string) returns (taken: bool)
      requires forall id :: id in order <==> id in servers
      ensures taken <==> exists id <- servers :: id != except && !(All(servers[id]) !! Bindings(cand))
    {
      for i := 0 to |order|
        invariant forall k :: 0 <= k < i && order[k] != except ==> All(servers[order[k]]) !! Bindings(cand)
      {
        assert order[i] in order;
        if order[i] != except {
          var theirs := ServerBindings(servers[order[i]]);
          var conflict := BindingConflict(theirs, cand);
          if conflict {
            return true;
          }
        }
      }
      forall id | id in servers && id != except ensures All(servers[id]) !! Bindings(cand) {
        assert id in order;
      }
      return false;
    }

    method Reserved(cand: seq<Binding>) returns (taken: bool)
      ensures taken <==> exists b <- Bindings(cand) :: b.port in reserved
    {
      for i := 0 to |cand|
        invariant forall k :: 0 <= k < i ==> cand[k].port !in reserved
      {
        if cand[i].port in reserved {
          assert cand[i] in Bindings(cand);
          return true;
        }
      }
      return false;
    }

    method Claimable(cand: seq<Binding>) returns (ok: bool)
      requires Valid() && "" !in servers
      ensures ok <==> CanClaim(View(), Bindings(cand))
    {
      var published := Published(cand, "");
      var taken := Reserved(cand);
      ok := !published && !taken;
    }

    /** claimPortBindings; token is the random lease name, "" stands for no server to leave out. */
    method ClaimPortBindings(cand: seq<Binding>, token: string) returns (ok: bool)
      requires Valid() && token !in leases && "" !in servers
      modifies this
      ensures Valid() && ok == old(CanClaim(View(), Bindings(cand)))
      ensures View() == if ok then Claimed(old(View()), token, Bindings(cand), PortsOf(cand)) else old(View())
    {
      hide CanClaim;
      ok := Claimable(cand);
      if !ok {
        return;
      }
      PortsOfNumbers(cand);
      leases := leases[token := PortsOf(cand)];
      held, owner, granted := held[token := Bindings(cand)], owner - {token}, granted[token := Bindings(cand)];
      ReserveAll(PortsOf(cand), token);
    }

    method ReserveAll(ports: seq<int>, token: string)
      modifies this`reserved
      ensures reserved == Reserve(old(reserved), SetOf(ports), token)
    {
      hide Reserve;
      ReserveNone(reserved, token);
      for i := 0 to |ports|
        invariant reserved == Reserve(old(reserved), SetOf(ports[..i]), token)
      {
        ReserveOne(old(reserved), ports, i, token);
        reserved := reserved[ports[i] := token];
      }
      assert ports[..|ports|] == ports;
    }

    method FreeAll(ports: seq<int>, lease: string)
      modifies this`reserved
      ensures reserved == map p | p in old(reserved) && !(p in ports && old(reserved)[p] == lease) :: old(reserved)[p]
    {
      ghost var before := reserved;
      for i := 0 to |ports|
        invariant reserved == map p | p in before && !(p in ports[..i] && before[p] == lease) :: before[p]
      {
        if ports[i] in reserved && reserved[ports[i]] == lease {
          reserved := reserved - {ports[i]};
        }
        assert ports[..i + 1] == ports[..i] + [ports[i]];
      }
      assert ports[..|ports|] == ports;
    }

    /** releaseReservationLocked: a port a newer lease has since claimed stays claimed. */
    method Free(lease: string)
      modifies this`reserved, this`leases, this`held, this`owner
      ensures View() == Freed(old(View()), lease)
    {
      if lease !in leases {
        return;
      }
      FreeAll(leases[lease], lease);
      leases := leases - {lease};
      held, owner := held - {lease}, owner - {lease};
    }

    /** A holder gives its lease up. */
    method ReleaseReservation(lease: string)
      requires Valid()
      modifies this
      ensures Valid() && View() == Released(old(View()), lease) && order == old(order)
    {
      Free(lease);
      granted := granted - {lease};
    }

    /** releasePort frees the lease the number belongs to now, whoever holds it. */
    method ReleasePort(port: int, ghost mine: string)
      requires Valid()
      modifies this
      ensures Valid() && View() == PortReleased(old(View()), port, mine) && order == old(order)
    {
      if port !in reserved {
        return;
      }
      ghost var own := reserved[port] == mine;
      Free(reserved[port]);
      granted := if own then granted - {mine} else granted;
    }

    /** Registration and release in one critical section; nothing is checked. */
    method Register(id: string, s: Srv, lease: string)
      requires Valid() && id !in servers
      modifies this
      ensures Valid() && View() == Registered(old(View()), id, s, lease)
    {
      ReleaseReservation(lease);
      servers, order := servers[id := s], order + [id];
    }

    /** changeServerPort */
    method ChangeServerPort(id: string, port: int) returns (ok: bool)
      requires Valid() && id in servers
      modifies this`servers
      ensures Valid() && ok == old(CanMove(View(), id, port))
      ensures View() == if ok then Moved(old(View()), id, port) else old(View())
    {
      if port < 1 || port > 65535 {
        return false;
      }
      var fits, cand := CandidateBindings(port, servers[id].shape);
      if !fits {
        return false;
      }
      var published := Published(cand, id);
      var taken := Reserved(cand);
      if published || taken {
        return false;
      }
      servers := servers[id := servers[id].(port := port)];
      return true;
    }

    /** Does a live server other than id publish one of these? */
    method LiveConflict(id: string, mine: seq<Binding>) returns (conflict: bool)
      requires forall x :: x in order <==> x in servers
      ensures conflict <==> Blocking(servers, id, Bindings(mine))
    {
      for i := 0 to |order|
        invariant forall k :: 0 <= k < i && order[k] != id && servers[order[k]].live ==>
            All(servers[order[k]]) !! Bindings(mine)
      {
        assert order[i] in order;
        if order[i] != id && servers[order[i]].live {
          var theirs := ServerBindings(servers[order[i]]);
          conflict := BindingConflict(theirs, mine);
          if conflict {
            return true;
          }
        }
      }
      forall other | other in servers && other != id && servers[other].live
        ensures All(servers[other]) !! Bindings(mine)
      {
        assert other in order;
      }
      return false;
    }

    /** The lease a settings save takes on everything its server publishes, without looking at what is reserved. */
    method HandOver(id: string, token: string) returns (ghost ports: seq<int>)
      requires Valid() && id in servers
      modifies this
      ensures Valid() && SetOf(ports) == Numbers(All(old(servers)[id]))
      ensures View() == HandedOver(old(View()), id, token, ports) && order == old(order)
    {
      var own := ServerBindings(servers[id]);
      PortsOfNumbers(own);
      ports := PortsOf(own);
      ghost var statics := Static(servers[id]);
      leases := leases[token := PortsOf(own)];
      held, owner, granted := held[token := statics], owner[token := id], granted[token := statics];
      ReserveAll(PortsOf(own), token);
    }

    /** The port is set without asking anybody: a settings rollback, and boot recovery. */
    method SetPort(id: string, port: int)
      requires Valid() && id in servers
      modifies this`servers
      ensures Valid() && View() == MovedBack(old(View()), id, port)
    {
      servers := servers[id := servers[id].(port := port)];
    }

    /** The ledger half of claimStart: dynamic bindings are checked against live servers only; a refusal leaves
        the bindings in place, a failed save takes them back. */
    method ClaimStart(id: string, dynamic: seq<Binding>, saved: bool) returns (ok: bool)
      requires Valid() && id in servers
      modifies this`servers
      ensures Valid() && ok == (saved && !Blocking(old(servers), id, All(Started(old(servers)[id], dynamic))))
      ensures
        var blocked := Blocking(old(servers), id, All(Started(old(servers)[id], dynamic)));
        var outcome := if blocked then Blocked else if saved then Running else Unsaved;
        View() == Apply(old(View()), Start(id, dynamic, outcome))
    {
      hide All, Blocking;
      var s := Started(servers[id], dynamic);
      var mine := ServerBindings(s);
      var conflict := LiveConflict(id, mine);
      if conflict {
        servers := servers[id := s];
        return false;
      }
      if !saved {
        servers := servers[id := servers[id].(bindPort := 0, dynamic := [])];
        return false;
      }
      servers := servers[id := s.(live := true)];
      return true;
    }

    /** stopped and fail: the container is gone, and its ports with it. */
    method Exit(id: string)
      requires Valid() && id in servers
      modifies this`servers
      ensures Valid() && View() == Apply(old(View()), Op.Exit(id))
    {
      servers := servers[id := Exited(servers[id])];
    }

    /**
     What other requests may do to the ledger while a settings save of server id runs: claim and release, move their own
     servers, and the exit of any container. Everything that takes the save lock waits for the save to end.
     */
    method Others(id: string, token: string, ghost before: Srv, calm: bool)
      requires Valid() && id in servers && "" !in servers
      modifies this
      ensures Valid() && id in servers && "" !in servers
      ensures servers[id] == old(servers)[id] || servers[id] == Exited(old(servers)[id])
      ensures old(Good(View())) ==> Good(View())
      ensures old(Good(View()) && Guarded(View(), id, token, before)) ==> Guarded(View(), id, token, before)
      ensures forall p :: p in old(reserved) && old(reserved)[p] == token ==> p in reserved && reserved[p] == token
      ensures calm ==> View() == old(View())
    {
      hide Good, Guarded;
      var more: nat := *;
      while more > 0 && !calm
        invariant Valid() && id in servers && "" !in servers
        invariant servers[id] == old(servers)[id] || servers[id] == Exited(old(servers)[id])
        invariant old(Good(View())) ==> Good(View())
        invariant old(Good(View()) && Guarded(View(), id, token, before)) ==> Guarded(View(), id, token, before)
        invariant forall p :: p in old(reserved) && old(reserved)[p] == token ==> p in reserved && reserved[p] == token
        invariant calm ==> View() == old(View())
      {
        OneOther(id, token, before);
        more := more - 1;
      }
    }

    method OneOther(id: string, token: string, ghost before: Srv)
      requires Valid() && id in servers && "" !in servers
      modifies this
      ensures Valid() && id in servers && "" !in servers
      ensures servers[id] == old(servers)[id] || servers[id] == Exited(old(servers)[id])
      ensures old(Good(View())) ==> Good(View())
      ensures old(Good(View()) && Guarded(View(), id, token, before)) ==> Guarded(View(), id, token, before)
      ensures forall p :: p in old(reserved) && old(reserved)[p] == token ==> p in reserved && reserved[p] == token
    {
      hide Good, Guarded, CanMove;
      ghost var b := View();
      var cand: seq<Binding>, lease: string, other: string, port: int := *, *, *, *;
      if {
        case lease !in leases && lease != token =>
          ghost var can := CanClaim(b, Bindings(cand));
          ghost var op := Claim(lease, Bindings(cand), PortsOf(cand));
          PortsOfNumbers(cand);
          var ok := ClaimPortBindings(cand, lease);
          FreshLease(b, lease);
          if can {
            ClaimSpares(b, lease, Bindings(cand), PortsOf(cand));
          }
          OtherStep(b, op, View(), ok, id, token, before);
        case lease != token =>
          ghost var op := Release(lease);
          ReleaseReservation(lease);
          OtherStep(b, op, View(), true, id, token, before);
        case other in servers && other != id =>
          ghost var op := Move(other, port);
          var ok := ChangeServerPort(other, port);
          OtherStep(b, op, View(), ok, id, token, before);
        case other in servers =>
          ghost var op := Op.Exit(other);
          Exit(other);
          OtherStep(b, op, View(), true, id, token, before);
        case true =>
      }
    }

    ghost predicate Unused(p: int)
      reads this
    {
      p !in reserved
      && forall id <- servers :: Binding(p, "tcp") !in All(servers[id]) && Binding(p, "udp") !in All(servers[id])
    }

    method IsFree(p: int) returns (free: bool)
      requires Valid() && "" !in servers
      ensures free <==> Unused(p)
    {
      var tcp, udp := Binding(p, "tcp"), Binding(p, "udp");
      var published := Published([tcp, udp], "");
      assert tcp in Bindings([tcp, udp]) && udp in Bindings([tcp, udp]);
      assert forall x <- Bindings([tcp, udp]) :: x == tcp || x == udp;
      forall id | id in servers
        ensures All(servers[id]) !! Bindings([tcp, udp]) <==> tcp !in All(servers[id]) && udp !in All(servers[id])
      {
        if tcp in All(servers[id]) {
          assert tcp in All(servers[id]) && tcp in Bindings([tcp, udp]);
        }
        if udp in All(servers[id]) {
          assert udp in All(servers[id]) && udp in Bindings([tcp, udp]);
        }
      }
      free := !published && p !in reserved;
    }

    /** NextFreePort: the first port from the hint on that nothing publishes or reserves; 0 when there is none. */
    method NextFreePort(hint: int) returns (p: int)
      requires Valid() && "" !in servers
      ensures
        var from := if hint == 0 then 25565 else if hint < 1 then 1 else hint;
        && (p != 0 ==> from <= p <= 65535 && Unused(p) && forall q :: from <= q < p ==> !Unused(q))
        && (p == 0 ==> forall q :: from <= q <= 65535 ==> !Unused(q))
    {
      var from := if hint == 0 then 25565 else if hint < 1 then 1 else hint;
      p := from;
      while p <= 65535
        invariant from <= p
        invariant forall q :: from <= q < p && q <= 65535 ==> !Unused(q)
        decreases 65536 - p
      {
        var free := IsFree(p);
        if free {
          return;
        }
        p := p + 1;
      }
      p := 0;
    }
  }

  lemma FreshLease(b: Book, lease: string)
    requires lease !in b.leases
    ensures Good(b) ==> lease !in b.granted
  {
  }

  lemma ClaimSpares(b: Book, lease: string, cand: set<Binding>, ports: seq<int>)
    requires CanClaim(b, cand)
    ensures forall p <- b.reserved ::
      p in Claimed(b, lease, cand, ports).reserved && Claimed(b, lease, cand, ports).reserved[p] == b.reserved[p]
  {
  }

  /** A step that was refused changes nothing, one that was taken is the ledger's. */
  lemma OtherStep(b: Book, op: Op, after: Book, ok: bool, id: string, token: string, before: Srv)
    requires Good(b) ==> if ok then Allowed(b, op) && after == Apply(b, op) else after == b
    requires Spares(b, op, id, token) && !op.ReleasePort? && !op.HandOver? && !op.Recover?
    ensures Good(b) ==> Good(after)
    ensures Good(b) && Guarded(b, id, token, before) ==> Guarded(after, id, token, before)
  {
    hide Good, Guarded;
    if Good(b) && ok {
      StepGood(b, op);
      if Guarded(b, id, token, before) {
        GuardedStep(b, op, id, token, before);
      }
    }
  }

  ghost predicate Blocking(servers: map<string, Srv>, id: string, mine: set<Binding>) {
    exists other <- servers :: other != id && servers[other].live && !(All(servers[other]) !! mine)
  }
}
