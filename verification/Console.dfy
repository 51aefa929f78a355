/**
 A server's console as values: the room's numbered feed with its replay ring, and what one viewer's connection was
 sent, kept and shed.
 */
module Console {
  const RING := 500

  datatype Line = Line(number: nat, level: string, source: string, text: string)

  datatype Message = Text(line: Line) | Control(body: string)

  /** lines is history: every line the room ever stamped. */
  datatype Feed = Feed(latest: nat, ring: seq<Line>, dead: bool, lines: seq<Line>)

  /** queue waits in the channel; sent is history, with kept saying which messages found room. */
  datatype Stream = Stream(
    capacity: nat,
    queue: seq<Message>,
    dropped: nat,
    closed: bool,
    joinedAt: nat,
    sent: seq<Message>,
    kept: seq<bool>)

  function Min(a: nat, b: nat): nat {
    if a < b then a else b
  }

  // ----- reading a history

  function LinesIn(ms: seq<Message>): (r: seq<Line>)
    ensures |r| <= |ms|
  {
    if ms == [] then []
    else
      var before := LinesIn(ms[..|ms| - 1]);
      if ms[|ms| - 1].Text? then before + [ms[|ms| - 1].line] else before
  }

  /** The messages a connection actually took, in order. */
  function Taken(sent: seq<Message>, kept: seq<bool>): (r: seq<Message>)
    requires |sent| == |kept|
    ensures |r| <= |sent|
  {
    if sent == [] then []
    else
      var n := |sent| - 1;
      var before := Taken(sent[..n], kept[..n]);
      if kept[n] then before + [sent[n]] else before
  }

  predicate NumberedFrom(lines: seq<Line>, from: nat) {
    forall i :: 0 <= i < |lines| ==> lines[i].number == from + 1 + i
  }

  predicate StrictlyAbove(lines: seq<Line>, from: nat) {
    && (forall l <- lines :: l.number > from)
    && forall i, j :: 0 <= i < j < |lines| ==> lines[i].number < lines[j].number
  }

  // ----- the invariants

  ghost predicate StreamSound(s: Stream) {
    && |s.sent| == |s.kept| && |s.queue| <= s.capacity
    && |Taken(s.sent, s.kept)| + s.dropped == |s.sent|
    && |s.queue| <= |Taken(s.sent, s.kept)|
    && s.queue == Taken(s.sent, s.kept)[|Taken(s.sent, s.kept)| - |s.queue|..]
    && NumberedFrom(LinesIn(s.sent), s.joinedAt)
  }

  predicate FeedSound(f: Feed) {
    && |f.lines| == f.latest && NumberedFrom(f.lines, 0)
    && f.ring == if f.dead then [] else f.lines[|f.lines| - Min(f.latest, RING)..]
  }

  /** A viewer holds the feed from where it joined, all of it while its connection is attached and open. */
  ghost predicate Follows(s: Stream, f: Feed, attached: bool) {
    && StreamSound(s) && s.joinedAt + |LinesIn(s.sent)| <= f.latest == |f.lines|
    && LinesIn(s.sent) == f.lines[s.joinedAt..s.joinedAt + |LinesIn(s.sent)|]
    && (attached && !s.closed ==> s.joinedAt + |LinesIn(s.sent)| == f.latest)
  }

  // ----- the steps

  function TrySend(s: Stream, m: Message): Stream
  {
    if s.closed then s
    else
      var t := s.(sent := s.sent + [m], kept := s.kept + [|s.queue| < s.capacity]);
      if |s.queue| < s.capacity then t.(queue := s.queue + [m]) else t.(dropped := s.dropped + 1)
  }

  function Receive(s: Stream): Stream {
    if s.queue == [] then s else s.(queue := s.queue[1..])
  }

  function Close(s: Stream): Stream {
    s.(closed := true)
  }

  function Stamp(f: Feed, l: Line): Line {
    l.(number := f.latest + 1, level := if l.level == "" then "info" else l.level,
       source := if l.source == "" then "server" else l.source)
  }

  function Publish(f: Feed, l: Line): Feed {
    if f.dead then f
    else
      var ring := f.ring + [Stamp(f, l)];
      f.(latest := f.latest + 1, lines := f.lines + [Stamp(f, l)],
         ring := if |ring| > RING then ring[|ring| - RING..] else ring)
  }

  function Drop(f: Feed): Feed {
    f.(ring := [], dead := true)
  }

  /** What a live room makes of a line: the next number, its own text, and a level and source where it had none. */
  lemma PublishAppends(f: Feed, l: Line)
    requires FeedSound(f) && !f.dead
    ensures
      var g := Publish(f, l);
      && g.latest == f.latest + 1 && g.lines[..|f.lines|] == f.lines && |g.lines| == |f.lines| + 1 && !g.dead
      && var stamped := g.lines[|f.lines|];
        && stamped.number == g.latest && stamped.text == l.text && g.ring[|g.ring| - 1] == stamped
        && (l.level != "" ==> stamped.level == l.level) && (l.level == "" ==> stamped.level == "info")
        && (l.source != "" ==> stamped.source == l.source) && (l.source == "" ==> stamped.source == "server")
  {
  }

  function SendAll(s: Stream, ms: seq<Message>): Stream {
    if ms == [] then s else TrySend(SendAll(s, ms[..|ms| - 1]), ms[|ms| - 1])
  }

  /** A viewer that takes nothing meanwhile keeps exactly the first messages its queue has room for; the rest is
      counted, and nothing queued before is lost. A closed one takes and counts nothing. */
  lemma {:induction false} SendAllExact(s: Stream, ms: seq<Message>)
    requires |s.queue| <= s.capacity
    ensures
      var t, k := SendAll(s, ms), Min(|ms|, s.capacity - |s.queue|);
      if s.closed then t == s
      else t.queue == s.queue + ms[..k] && t.dropped == s.dropped + |ms| - k && !t.closed && t.capacity == s.capacity
  {
    if ms == [] {
      assert s.queue + [] == s.queue;
    } else {
      var init, last := ms[..|ms| - 1], ms[|ms| - 1];
      var room := s.capacity - |s.queue|;
      SendAllExact(s, init);
      if |init| < room {
        assert ms[..|ms|] == ms && init[..|init|] == init;
        assert s.queue + ms == s.queue + init + [last];
      } else {
        assert ms[..room] == init[..room];
      }
    }
  }

  lemma TakenSnoc(sent: seq<Message>, kept: seq<bool>, m: Message, k: bool)
    requires |sent| == |kept|
    ensures Taken(sent + [m], kept + [k]) == if k then Taken(sent, kept) + [m] else Taken(sent, kept)
  {
    assert (sent + [m])[..|sent|] == sent && (kept + [k])[..|sent|] == kept;
  }

  lemma LinesSnoc(ms: seq<Message>, m: Message)
    ensures LinesIn(ms + [m]) == if m.Text? then LinesIn(ms) + [m.line] else LinesIn(ms)
  {
    assert (ms + [m])[..|ms|] == ms;
  }

  lemma NumberedSnoc(lines: seq<Line>, from: nat)
    requires NumberedFrom(lines, from)
    ensures forall l: Line :: l.number == from + |lines| + 1 ==> NumberedFrom(lines + [l], from)
  {
  }

  lemma TrySendSound(s: Stream, m: Message)
    requires StreamSound(s)
    requires m.Text? && !s.closed ==> m.line.number == s.joinedAt + |LinesIn(s.sent)| + 1
    ensures StreamSound(TrySend(s, m))
    ensures LinesIn(TrySend(s, m).sent) == LinesIn(s.sent) + if m.Text? && !s.closed then [m.line] else []
  {
    hide LinesIn, Taken, NumberedFrom;
    if !s.closed {
      NumberedSnoc(LinesIn(s.sent), s.joinedAt);
      TakenSnoc(s.sent, s.kept, m, |s.queue| < s.capacity);
      LinesSnoc(s.sent, m);
    }
  }

  lemma ReceiveSound(s: Stream)
    requires StreamSound(s)
    ensures StreamSound(Receive(s))
  {
  }

  lemma CloseSound(s: Stream)
    requires StreamSound(s)
    ensures StreamSound(Close(s))
  {
  }

  lemma PublishSound(f: Feed, l: Line)
    requires FeedSound(f)
    ensures FeedSound(Publish(f, l))
  {
  }

  /** The whole fan-out for one viewer: stamping, the ring and the send keep it in step. */
  lemma PublishFollows(s: Stream, f: Feed, l: Line)
    requires Follows(s, f, true) && FeedSound(f) && !f.dead
    ensures Follows(TrySend(s, Text(Stamp(f, l))), Publish(f, l), true)
  {
    hide StreamSound, LinesIn, FeedSound, NumberedFrom;
    var x, t := Stamp(f, l), TrySend(s, Text(Stamp(f, l)));
    TrySendSound(s, Text(x));
    if !s.closed {
      assert LinesIn(t.sent) == LinesIn(s.sent) + [x];
      assert Publish(f, l).lines[s.joinedAt..s.joinedAt + |LinesIn(t.sent)|] == f.lines[s.joinedAt..] + [x];
    }
  }

  lemma ControlFollows(s: Stream, f: Feed, attached: bool, m: Message)
    requires Follows(s, f, attached) && m.Control?
    ensures Follows(TrySend(s, m), f, attached)
  {
    hide StreamSound, LinesIn;
    TrySendSound(s, m);
  }

  /** A join starts a viewer at the room's newest number. */
  function Joined(capacity: nat, f: Feed): Stream {
    Stream(capacity, [], 0, false, f.latest, [], [])
  }

  // ----- what a viewer sees

  /** Replay on join is exactly the last min(seq, 500) lines, numbered consecutively up to the returned number. */
  lemma ReplayIsTail(f: Feed)
    requires FeedSound(f) && !f.dead
    ensures |f.ring| == Min(f.latest, RING) && NumberedFrom(f.ring, f.latest - |f.ring|)
    ensures f.ring == f.lines[|f.lines| - |f.ring|..]
    ensures f.ring != [] ==> f.ring[|f.ring| - 1].number == f.latest
  {
  }

  lemma AboveSnoc(lines: seq<Line>, l: Line, from: nat, top: nat)
    requires StrictlyAbove(lines, from) && forall k <- lines :: k.number <= top
    requires from <= top < l.number
    ensures StrictlyAbove(lines + [l], from)
  {
  }

  lemma {:induction false} TakenAbove(sent: seq<Message>, kept: seq<bool>, from: nat)
    requires |sent| == |kept| && NumberedFrom(LinesIn(sent), from)
    ensures StrictlyAbove(LinesIn(Taken(sent, kept)), from)
    ensures forall l <- LinesIn(Taken(sent, kept)) :: l.number <= from + |LinesIn(sent)|
  {
    hide StrictlyAbove, LinesIn, Taken;
    if sent == [] {
      NoneAbove(from);
    } else {
      var n := |sent| - 1;
      assert sent == sent[..n] + [sent[n]] && kept == kept[..n] + [kept[n]];
      var some := LinesIn(sent[..n]);
      LinesSnoc(sent[..n], sent[n]);
      assert NumberedFrom(some, from) && (sent[n].Text? ==> sent[n].line.number == from + |some| + 1) by {
        AllNumbered(some, LinesIn(sent), from);
      }
      TakenAbove(sent[..n], kept[..n], from);
      var before := Taken(sent[..n], kept[..n]);
      TakenSnoc(sent[..n], kept[..n], sent[n], kept[n]);
      LinesSnoc(before, sent[n]);
      if kept[n] && sent[n].Text? {
        AboveSnoc(LinesIn(before), sent[n].line, from, from + |some|);
      }
    }
  }

  lemma AllNumbered(some: seq<Line>, all: seq<Line>, from: nat)
    requires some <= all && NumberedFrom(all, from)
    ensures NumberedFrom(some, from) && (|all| == |some| + 1 ==> all[|some|].number == from + |some| + 1)
  {
  }

  lemma NoneAbove(from: nat)
    ensures LinesIn(Taken([], [])) == [] && StrictlyAbove([], from)
  {
  }

  /** Whatever was shed, the lines a viewer takes come in strictly increasing order above its join. */
  lemma LinesInOrder(s: Stream)
    requires StreamSound(s)
    ensures StrictlyAbove(LinesIn(Taken(s.sent, s.kept)), s.joinedAt)
  {
    TakenAbove(s.sent, s.kept, s.joinedAt);
  }

  lemma {:induction false} TakenAll(sent: seq<Message>, kept: seq<bool>)
    requires |sent| == |kept|
    ensures |Taken(sent, kept)| == |sent| ==> Taken(sent, kept) == sent
  {
    if sent != [] {
      TakenAll(sent[..|sent| - 1], kept[..|sent| - 1]);
    }
  }

  /** The drop counter is honest: it is zero exactly when the viewer took everything, and then no line is missing or
      repeated between the replay and the newest line it was sent. */
  lemma NoDropNoGap(s: Stream, f: Feed, attached: bool, replay: seq<Line>)
    requires Follows(s, f, attached) && FeedSound(f)
    requires |replay| <= s.joinedAt && replay == f.lines[s.joinedAt - |replay|..s.joinedAt]
    ensures s.dropped == 0 <==> Taken(s.sent, s.kept) == s.sent
    ensures s.dropped == 0 ==>
      var seen := replay + LinesIn(Taken(s.sent, s.kept));
      NumberedFrom(seen, s.joinedAt - |replay|) && seen <= f.lines[s.joinedAt - |replay|..]
      && (attached && !s.closed ==> seen == f.lines[s.joinedAt - |replay|..])
  {
    hide LinesIn, Taken, NumberedFrom;
    TakenAll(s.sent, s.kept);
    var end := s.joinedAt + |LinesIn(s.sent)|;
    Tail(f.lines, s.joinedAt - |replay|, s.joinedAt, end);
  }

  lemma Tail(lines: seq<Line>, a: nat, b: nat, c: nat)
    requires a <= b <= c <= |lines| && NumberedFrom(lines, 0)
    ensures lines[a..b] + lines[b..c] == lines[a..c] <= lines[a..] && NumberedFrom(lines[a..c], a)
    ensures c == |lines| ==> lines[a..c] == lines[a..]
  {
  }


  // ----- whole runs

  datatype View = View(feed: Feed, viewer: Stream, attached: bool)

  datatype Op = Publishing(line: Line) | Sending(control: string) | Receiving | Closing | Leaving | Dropping

  ghost predicate Sound(v: View) {
    FeedSound(v.feed) && Follows(v.viewer, v.feed, v.attached) && (v.attached ==> !v.feed.dead)
  }

  function Apply(v: View, op: Op): View
  {
    match op
    case Publishing(l) =>
      v.(feed := Publish(v.feed, l),
         viewer := if v.attached && !v.feed.dead then TrySend(v.viewer, Text(Stamp(v.feed, l))) else v.viewer)
    case Sending(c) => v.(viewer := TrySend(v.viewer, Control(c)))
    case Receiving => v.(viewer := Receive(v.viewer))
    case Closing => v.(viewer := Close(v.viewer))
    case Leaving => v.(viewer := Close(v.viewer), attached := false)
    case Dropping =>
      v.(feed := Drop(v.feed), viewer := if v.attached then Close(v.viewer) else v.viewer, attached := false)
  }

  lemma StepSound(v: View, op: Op)
    requires Sound(v)
    ensures Sound(Apply(v, op))
    ensures v.feed.dead ==> Apply(v, op).feed == v.feed
    ensures v.viewer.closed ==> Apply(v, op).viewer.(queue := []) == v.viewer.(queue := [])
  {
    hide StreamSound, LinesIn, NumberedFrom;
    match op {
      case Publishing(l) =>
        PublishSound(v.feed, l);
        if v.attached {
          PublishFollows(v.viewer, v.feed, l);
        }
      case Sending(c) => ControlFollows(v.viewer, v.feed, v.attached, Control(c));
      case Receiving => ReceiveSound(v.viewer);
      case _ => CloseSound(v.viewer);
    }
  }

  ghost predicate Run(vs: seq<View>, ops: seq<Op>) {
    |vs| == |ops| + 1 && Sound(vs[0])
    && forall i :: 0 <= i < |ops| ==> vs[i + 1] == Apply(vs[i], ops[i])
  }

  /** Over every run the viewer stays in step, a dead room never revives, and after close nothing more is counted. */
  lemma {:induction false} RunSound(vs: seq<View>, ops: seq<Op>)
    requires Run(vs, ops)
    ensures forall v <- vs :: Sound(v)
    ensures vs[0].feed.dead ==> vs[|ops|].feed == vs[0].feed
    ensures vs[0].viewer.closed ==> vs[|ops|].viewer.(queue := []) == vs[0].viewer.(queue := [])
    decreases |ops|
  {
    hide Sound, Apply;
    if ops != [] {
      StepSound(vs[0], ops[0]);
      RunSound(vs[1..], ops[1..]);
      assert vs == [vs[0]] + vs[1..];
    }
  }
}
