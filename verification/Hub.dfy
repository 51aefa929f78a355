/** The console hub in place: rooms by server, the connections attached to each, and tombstones for deleted servers. */
module Hub {
  import opened Options
  import opened Console
  import GoText

  const MAX_LINE := 8192

  /** One viewer socket. */
  class Conn {
    const capacity: nat
    var queue: seq<Message>
    var dropped: nat
    var closed: bool
    ghost var joinedAt: nat
    ghost var sent: seq<Message>
    ghost var kept: seq<bool>

    ghost function View(): Stream
      reads this
    {
      Stream(capacity, queue, dropped, closed, joinedAt, sent, kept)
    }

    constructor (capacity: nat)
      ensures View() == Stream(capacity, [], 0, false, 0, [], [])
    {
      this.capacity := capacity;
      queue, dropped, closed, joinedAt, sent, kept := [], 0, false, 0, [], [];
    }

    /** Never blocks: a full channel sheds the message and counts it, a closed one takes nothing. */
    method TrySend(m: Message)
      modifies this
      ensures View() == Console.TrySend(old(View()), m)
    {
      if closed {
        return;
      }
      sent, kept := sent + [m], kept + [|queue| < capacity];
      if |queue| < capacity {
        queue := queue + [m];
      } else {
        dropped := dropped + 1;
      }
    }

    method Close()
      modifies this`closed
      ensures View() == Console.Close(old(View()))
    {
      if closed {
        return;
      }
      closed := true;
    }

    /** The socket's writer takes the oldest waiting message. */
    method Receive() returns (m: Option<Message>)
      modifies this`queue
      ensures View() == Console.Receive(old(View()))
      ensures m == if old(queue) == [] then None else Some(old(queue)[0])
    {
      if queue == [] {
        return None;
      }
      m := Some(queue[0]);
      queue := queue[1..];
    }
  }

  class Room {
    var latest: nat
    var ring: seq<Line>
    var dead: bool
    var conns: set<Conn>
    ghost var lines: seq<Line>

    ghost function View(): Feed
      reads this
    {
      Feed(latest, ring, dead, lines)
    }

    ghost predicate Valid()
      reads this, conns
    {
      FeedSound(View()) && (dead ==> conns == {}) && forall c <- conns :: Follows(c.View(), View(), true)
    }

    constructor ()
      ensures Valid() && View() == Feed(0, [], false, []) && conns == {}
    {
      hide FeedSound, Follows;
      NewFeed();
      latest, ring, dead, conns, lines := 0, [], false, {}, [];
    }

    /** A dead room gains no viewers. */
    method Join(c: Conn) returns (replay: seq<Line>, at: nat, capacity: nat)
      requires Valid() && c !in conns && c.View() == Stream(c.capacity, [], 0, false, c.joinedAt, [], [])
      modifies this`conns, c`joinedAt
      ensures Valid() && at == latest && capacity == RING
      ensures dead ==> replay == [] && conns == old(conns)
      ensures !dead ==> conns == old(conns) + {c} && c.View() == Joined(c.capacity, View())
      ensures replay == if dead then [] else ring
      ensures !dead ==> replay == lines[latest - Min(latest, RING)..] && NumberedFrom(replay, latest - |replay|)
    {
      hide StreamSound;
      capacity := RING;
      if dead {
        return [], latest, capacity;
      }
      JoinedFollows(c.capacity, View());
      c.joinedAt := latest;
      conns := conns + {c};
      replay, at := ring, latest;
    }

    method Leave(c: Conn)
      requires Valid()
      modifies this`conns, c`closed
      ensures Valid() && conns == old(conns) - {c} && c.View() == Console.Close(old(c.View()))
    {
      conns := conns - {c};
      c.Close();
    }

    /** One locked section: stamp, append, cut the ring, send to everyone. */
    method Publish(l: Line) returns (stamped: Line)
      requires Valid()
      modifies this, conns
      ensures Valid() && View() == Console.Publish(old(View()), l) && conns == old(conns)
      ensures forall c <- conns :: c.View() == Console.TrySend(old(c.View()), Text(stamped))
      ensures stamped == if dead then l else Stamp(old(View()), l)
    {
      hide Follows, FeedSound;
      if dead {
        return l;
      }
      stamped := l.(number := latest + 1);
      if stamped.level == "" {
        stamped := stamped.(level := "info");
      }
      if stamped.source == "" {
        stamped := stamped.(source := "server");
      }
      PublishSound(View(), l);
      latest, ring, lines := latest + 1, ring + [stamped], lines + [stamped];
      if |ring| > RING {
        ring := ring[|ring| - RING..];
      }
      Broadcast(conns, Text(stamped));
      forall c | c in conns ensures Follows(c.View(), View(), true) {
        PublishFollows(old(c.View()), old(View()), l);
      }
    }

    method DropRoom()
      requires Valid()
      modifies this, conns
      ensures Valid() && View() == Drop(old(View())) && conns == {}
      ensures forall c <- old(conns) :: c.View() == Console.Close(old(c.View()))
    {
      hide Follows, FeedSound;
      DropSound(View());
      var rest := conns;
      while rest != {}
        invariant rest <= conns == old(conns) && View() == old(View())
        invariant forall c <- conns :: c.View() == if c in rest then old(c.View()) else Console.Close(old(c.View()))
        decreases rest
      {
        var c :| c in rest;
        c.Close();
        rest := rest - {c};
      }
      conns, ring, dead := {}, [], true;
    }

    /** The newest n lines of the ring, all of it for an n out of range. */
    method Tail(n: int) returns (out: seq<Line>)
      requires Valid()
      ensures dead ==> out == []
      ensures !dead ==> |out| == if 0 < n <= Min(latest, RING) then n else Min(latest, RING)
      ensures !dead ==> latest == |lines| && out == lines[latest - |out|..]
    {
      var k := if n <= 0 || n > |ring| then |ring| else n;
      out := ring[|ring| - k..];
    }
  }

  method Broadcast(conns: set<Conn>, m: Message)
    modifies conns
    ensures forall c <- conns :: c.View() == Console.TrySend(old(c.View()), m)
  {
    var rest := conns;
    while rest != {}
      invariant rest <= conns
      invariant forall c <- conns :: c.View() == if c in rest then old(c.View()) else Console.TrySend(old(c.View()), m)
      decreases rest
    {
      var c :| c in rest;
      c.TrySend(m);
      rest := rest - {c};
    }
  }

  lemma NewFeed()
    ensures FeedSound(Feed(0, [], false, []))
  {
  }

  lemma DropSound(f: Feed)
    requires FeedSound(f)
    ensures FeedSound(Drop(f))
  {
  }

  lemma JoinedFollows(capacity: nat, f: Feed)
    requires FeedSound(f)
    ensures Follows(Joined(capacity, f), f, true)
  {
    assert f.lines[f.latest..] == [];
  }

  function Truncate(text: string): (r: string)
    ensures |text| <= MAX_LINE ==> r == text
    ensures text[..Min(|text|, MAX_LINE)] <= r
  {
    if |text| <= MAX_LINE then text
    else text[..MAX_LINE] + " … [truncated, " + GoText.Itoa(|text|) + " bytes total]"
  }

  class Hub {
    var rooms: map<string, Room>

    ghost predicate Valid()
      reads this, rooms.Values, set r <- rooms.Values, c <- r.conns :: c
    {
      && (forall id <- rooms :: rooms[id].Valid())
      && forall a, b | a in rooms && b in rooms && a != b :: rooms[a] != rooms[b] && rooms[a].conns !! rooms[b].conns
    }

    /** A room and everyone attached to it. */
    ghost function Reach(id: string): set<object>
      reads this, rooms.Values
    {
      if id in rooms then {rooms[id]} + rooms[id].conns else {}
    }

    constructor ()
      ensures Valid() && rooms == map[]
    {
      rooms := map[];
    }

    /** What happens to one room and to nobody attached elsewhere keeps the hub in order. */
    twostate lemma OneRoom(id: string)
      requires old(Valid()) && rooms == old(rooms) && id in rooms && rooms[id].Valid()
      requires forall o <- old(rooms) :: o != id ==>
        unchanged(old(rooms[o]), old(rooms[o].conns)) && rooms[o].conns !! rooms[id].conns
      ensures Valid()
    {
      hide FeedSound, Follows;
      forall o | o in rooms ensures rooms[o].Valid() {
        if o != id {
          assert old(rooms[o].Valid());
        }
      }
    }

    /** Get or create. */
    method RoomOf(id: string) returns (r: Room)
      requires Valid()
      modifies this
      ensures Valid() && id in rooms && rooms == old(rooms)[id := r] && (id in old(rooms) ==> rooms == old(rooms))
      ensures id !in old(rooms) ==> fresh(r) && r.View() == Feed(0, [], false, []) && r.conns == {}
    {
      hide FeedSound, Follows;
      if id in rooms {
        return rooms[id];
      }
      r := new Room();
      rooms := rooms[id := r];
    }

    method Join(id: string, c: Conn) returns (replay: seq<Line>, at: nat, capacity: nat)
      requires Valid() && c.View() == Stream(c.capacity, [], 0, false, c.joinedAt, [], [])
      requires forall o <- rooms :: c !in rooms[o].conns
      modifies this, Reach(id), c`joinedAt
      ensures Valid() && id in rooms && rooms.Keys == old(rooms).Keys + {id}
      ensures id in old(rooms) ==> rooms[id] == old(rooms[id]) && rooms[id].View() == old(rooms[id].View())
      ensures id in old(rooms) && old(rooms[id].dead) ==> rooms[id].conns == old(rooms[id].conns) && replay == []
      ensures at == rooms[id].latest && (rooms[id].dead <==> c !in rooms[id].conns)
      ensures capacity == RING && replay == if rooms[id].dead then [] else rooms[id].ring
    {
      hide FeedSound, Follows, NumberedFrom, StreamSound;
      var r := RoomOf(id);
      label Found:
      replay, at, capacity := r.Join(c);
      OneRoom@Found(id);
    }

    /** Deleting a server leaves a dead room even where there was none, so a later publish cannot make a live one. */
    method DropRoom(id: string)
      requires Valid()
      modifies this, Reach(id)
      ensures Valid() && rooms.Keys == old(rooms).Keys + {id} && rooms[id].dead && rooms[id].ring == []
      ensures id in old(rooms) ==> rooms == old(rooms) && rooms[id].conns == {}
      ensures id in old(rooms) ==> forall c <- old(rooms[id].conns) :: c.closed
    {
      hide FeedSound, Follows;
      var r := RoomOf(id);
      label Found:
      r.DropRoom();
      OneRoom@Found(id);
    }

    method Publish(id: string, l: Line) returns (stamped: Line)
      requires Valid()
      modifies this, Reach(id)
      ensures Valid() && rooms.Keys == old(rooms).Keys + {id}
      ensures id in old(rooms) ==> rooms == old(rooms)
      ensures rooms[id].View() == Console.Publish(
        if id in old(rooms) then old(rooms[id].View()) else Feed(0, [], false, []), l.(text := Truncate(l.text)))
    {
      hide FeedSound, Follows, Console.Publish, TrySend, Truncate, StreamSound;
      var r := RoomOf(id);
      label Found:
      stamped := r.Publish(l.(text := Truncate(l.text)));
      OneRoom@Found(id);
    }

    /** A leave never creates a room. */
    method Leave(id: string, c: Conn)
      requires Valid() && forall o <- rooms :: c in rooms[o].conns ==> o == id
      modifies this, Reach(id), c
      ensures Valid() && rooms == old(rooms) && c.closed
      ensures forall o <- rooms :: c !in rooms[o].conns && rooms[o].View() == old(rooms[o].View())
    {
      hide FeedSound, Follows;
      if id in rooms {
        rooms[id].Leave(c);
      } else {
        c.Close();
      }
    }

    /** PublishRaw sends after it let go of the room, so the connections it noted may have left or closed meanwhile:
        whoever they are, a control message leaves every viewer in step. */
    method SendRaw(noted: set<Conn>, body: string)
      requires Valid()
      modifies noted
      ensures Valid() && forall c <- noted :: c.View() == Console.TrySend(old(c.View()), Control(body))
    {
      hide FeedSound, Follows, TrySend;
      Broadcast(noted, Control(body));
      forall id, c | id in rooms && c in rooms[id].conns ensures Follows(c.View(), rooms[id].View(), true) {
        if c in noted {
          ControlFollows(old(c.View()), rooms[id].View(), true, Control(body));
        }
      }
    }
  }
}
