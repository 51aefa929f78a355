/** Extracting what the walk emitted gives the tree back, without its links. */
module ArchiveRoundTrip {
  import opened Options
  import opened Trees
  import opened Archive

  /** What a directory on disk guarantees: usable names, each once. */
  predicate WellNamed(entries: seq<Entry>)
    decreases entries
  {
    && (forall i, j :: 0 <= i < j < |entries| ==> entries[i].name != entries[j].name)
    && forall e <- entries :: ValidPart(e.name) && (e.node.Dir? ==> WellNamed(e.node.entries))
  }

  // ----- the tree read directly

  function Find(entries: seq<Entry>, name: string): (i: nat)
    ensures i <= |entries|
    ensures i < |entries| ==> entries[i].name == name
    ensures forall k :: 0 <= k < i ==> entries[k].name != name
  {
    if entries == [] || entries[0].name == name then 0 else 1 + Find(entries[1..], name)
  }

  /** Opening p in the server tree; a link is not followed, so there is nothing there. */
  function Lookup(entries: seq<Entry>, p: Path): Option<Object>
    requires p != []
    decreases |p|
  {
    var i := Find(entries, p[0]);
    if i == |entries| then None
    else
      match entries[i].node
      case File(bytes) => if |p| == 1 then Some(Plain(bytes)) else None
      case Dir(inner) => if |p| == 1 then Some(Folder) else Lookup(inner, p[1..])
      case _ => None
  }

  // ----- the tree as a map of paths

  function Flat(entries: seq<Entry>, base: Path): Fs
    decreases entries, 0
  {
    if entries == [] then map[] else FlatOne(entries[0], base) + Flat(entries[1..], base)
  }

  function FlatOne(e: Entry, base: Path): Fs
    decreases e, 1
  {
    var p := base + [e.name];
    match e.node
    case File(bytes) => map[p := Plain(bytes)]
    case Dir(inner) => map[p := Folder] + Flat(inner, p)
    case _ => map[]
  }

  /** q lies at or below entry name of directory base. */
  predicate Under(q: Path, base: Path, name: string) {
    |base| < |q| && q[..|base|] == base && q[|base|] == name
  }

  lemma UnderInside(q: Path, base: Path, name: string, inner: string)
    requires Under(q, base + [name], inner)
    ensures Under(q, base, name)
  {
    var p := base + [name];
    assert q[..|p|] == p;
    assert q[..|base|] == p[..|base|] && q[|base|] == p[|base|];
  }

  ghost predicate UnderSome(q: Path, base: Path, entries: seq<Entry>) {
    exists e <- entries :: Under(q, base, e.name)
  }

  lemma {:induction false} FlatUnder(entries: seq<Entry>, base: Path)
    ensures forall q <- Flat(entries, base) :: UnderSome(q, base, entries)
    decreases entries, 0
  {
    if entries != [] {
      FlatOneUnder(entries[0], base);
      FlatUnder(entries[1..], base);
      forall q | q in Flat(entries, base) ensures UnderSome(q, base, entries) {
        if q in Flat(entries[1..], base) {
          var e :| e in entries[1..] && Under(q, base, e.name);
          assert e in entries;
        } else {
          assert q in FlatOne(entries[0], base);
          assert entries[0] in entries;
        }
      }
    }
  }

  lemma {:induction false} FlatOneUnder(e: Entry, base: Path)
    ensures forall q <- FlatOne(e, base) :: Under(q, base, e.name)
    decreases e, 1
  {
    var p := base + [e.name];
    assert Under(p, base, e.name);
    if e.node.Dir? {
      FlatUnder(e.node.entries, p);
      forall q | q in FlatOne(e, base) ensures Under(q, base, e.name) {
        if q != p {
          assert q in Flat(e.node.entries, p);
          var f :| f in e.node.entries && Under(q, p, f.name);
          UnderInside(q, base, e.name, f.name);
        }
      }
    }
  }

  lemma TailWellNamed(entries: seq<Entry>)
    requires WellNamed(entries) && entries != []
    ensures WellNamed(entries[1..])
    ensures forall f <- entries[1..] :: f in entries && f.name != entries[0].name
  {
    var rest := entries[1..];
    assert forall i :: 0 <= i < |rest| ==> rest[i] == entries[i + 1];
    forall f | f in rest ensures f in entries && f.name != entries[0].name {
      var k :| 0 <= k < |rest| && rest[k] == f;
      assert entries[k + 1] == f;
    }
  }

  /** What path p below base means, in the map and in the tree. */
  predicate Agree(fs: Fs, base: Path, p: Path, o: Option<Object>) {
    (base + p in fs <==> o.Some?) && (o.Some? ==> fs[base + p] == o.value)
  }

  /** The map and the tree agree at every path. */
  lemma {:induction false} FlatLookup(entries: seq<Entry>, base: Path, p: Path)
    requires WellNamed(entries) && p != []
    ensures Agree(Flat(entries, base), base, p, Lookup(entries, p))
    decreases |p|, |entries|
  {
    if entries != [] {
      var e, rest := entries[0], entries[1..];
      TailWellNamed(entries);
      if e.name == p[0] {
        NotUnderOthers(rest, base, p);
        FlatOneLookup(entries, base, p);
      } else {
        FlatOneUnder(e, base);
        assert !Under(base + p, base, e.name);
        assert Find(entries, p[0]) == 1 + Find(rest, p[0]);
        assert Lookup(entries, p) == Lookup(rest, p);
        FlatLookup(rest, base, p);
      }
    }
  }

  lemma NotUnderOthers(rest: seq<Entry>, base: Path, p: Path)
    requires p != [] && forall f <- rest :: f.name != p[0]
    ensures base + p !in Flat(rest, base)
  {
    FlatUnder(rest, base);
    forall f | f in rest ensures !Under(base + p, base, f.name) {
      assert (base + p)[|base|] == p[0];
    }
    assert !UnderSome(base + p, base, rest);
  }

  lemma {:induction false} FlatOneLookup(entries: seq<Entry>, base: Path, p: Path)
    requires entries != [] && p != [] && p[0] == entries[0].name
    requires entries[0].node.Dir? ==> WellNamed(entries[0].node.entries)
    ensures Agree(FlatOne(entries[0], base), base, p, Lookup(entries, p))
    decreases |p|, 0
  {
    var e := entries[0];
    var child := base + [e.name];
    assert Find(entries, p[0]) == 0;
    if |p| == 1 {
      assert base + p == child;
      if e.node.Dir? {
        FlatUnder(e.node.entries, child);
        assert forall f <- e.node.entries :: !Under(child, child, f.name);
        assert child !in Flat(e.node.entries, child);
      }
    } else {
      assert base + p == child + p[1..];
      assert |base + p| != |child|;
      if e.node.Dir? {
        FlatLookup(e.node.entries, child, p[1..]);
      }
    }
  }

  // ----- extraction rebuilds the map

  function Sizes(members: seq<Member>): nat {
    if members == [] then 0
    else (if members[0].FileMember? then members[0].size else 0) + Sizes(members[1..])
  }

  predicate Within(members: seq<Member>, st: Unpack, lim: Limits) {
    && st.count + |members| <= lim.entries
    && st.total + Sizes(members) <= lim.totalBytes
    && forall m <- members :: m.FileMember? ==> m.size <= lim.entryBytes
  }

  lemma {:induction false} SizesAppend(a: seq<Member>, b: seq<Member>)
    ensures Sizes(a + b) == Sizes(a) + Sizes(b)
  {
    if a == [] {
      assert a + b == b;
    } else {
      assert (a + b)[1..] == a[1..] + b;
      SizesAppend(a[1..], b);
    }
  }

  lemma {:induction false} ExtractedAppend(a: seq<Member>, b: seq<Member>, st: Unpack, lim: Limits)
    ensures Extracted(a, st, lim).1 ==> Extracted(a + b, st, lim) == Extracted(b, Extracted(a, st, lim).0, lim)
    decreases |a|
  {
    if a == [] {
      assert a + b == b;
    } else {
      assert (a + b)[1..] == a[1..] + b;
      ExtractedAppend(a[1..], b, ExtractOne(a[0], st, lim).0, lim);
    }
  }

  /** base and every directory above it is there. */
  predicate Ready(fs: Fs, base: Path) {
    base == [] || (base in fs && fs[base].Folder? && Ready(fs, base[..|base| - 1]))
  }

  lemma {:induction false} ReadyMakesNothing(fs: Fs, base: Path)
    requires Ready(fs, base)
    ensures AddFolders(fs, base) == fs && !Blocked(fs, base)
    decreases |base|
  {
    if base != [] {
      ReadyMakesNothing(fs, base[..|base| - 1]);
      assert fs[base := Folder] == fs;
    }
  }

  lemma {:induction false} ReadyGrows(fs: Fs, more: Fs, base: Path)
    requires Ready(fs, base) && forall q <- more :: |base| < |q|
    ensures Ready(fs + more, base)
    decreases |base|
  {
    if base != [] {
      ReadyGrows(fs, more, base[..|base| - 1]);
    }
  }

  predicate Clear(entries: seq<Entry>, base: Path, fs: Fs) {
    forall q <- fs :: forall e <- entries :: !Under(q, base, e.name)
  }

  function Rel(base: Path): string {
    if base == [] then "." else JoinParts(base)
  }

  lemma ChildNameIs(base: Path, n: string)
    requires ValidPath(base) && ValidPart(n)
    ensures ChildName(Rel(base), n) == JoinParts(base + [n]) == Rel(base + [n])
    ensures Target(ChildName(Rel(base), n)) == base + [n]
  {
    if base == [] {
      assert base + [n] == [n];
    } else {
      JoinSnoc(base, n);
      NotDot(base);
    }
    TargetOfJoin(base + [n]);
  }

  lemma NotDot(base: Path)
    requires ValidPath(base) && base != []
    ensures JoinParts(base) != "."
  {
    assert ValidPart(base[0]);
    if |base| > 1 {
      assert |JoinParts(base)| >= |base[0]| + 1;
    }
  }

  function Grown(st: Unpack, more: Fs, members: seq<Member>): Unpack {
    Unpack(st.fs + more, st.total + Sizes(members), st.count + |members|)
  }

  lemma WithinParts(first: seq<Member>, others: seq<Member>, st: Unpack, more: Fs, lim: Limits)
    requires Within(first + others, st, lim)
    ensures Within(first, st, lim) && Within(others, Grown(st, more, first), lim)
  {
    SizesAppend(first, others);
    assert forall m <- first :: m in first + others;
    assert forall m <- others :: m in first + others;
  }

  lemma GrownTwice(st: Unpack, a: Fs, first: seq<Member>, b: Fs, others: seq<Member>)
    ensures Grown(Grown(st, a, first), b, others) == Grown(st, a + b, first + others)
  {
    SizesAppend(first, others);
    assert (st.fs + a) + b == st.fs + (a + b);
  }

  lemma {:induction false} UnpackEntries(entries: seq<Entry>, base: Path, st: Unpack, lim: Limits)
    requires WellNamed(entries) && Archivable(entries) && ValidPath(base)
    requires Ready(st.fs, base) && Clear(entries, base, st.fs)
    requires Within(Emitted(entries, Rel(base)), st, lim)
    ensures
      var members := Emitted(entries, Rel(base));
      Extracted(members, st, lim) == (Grown(st, Flat(entries, base), members), true)
    decreases entries, 0
  {
    if entries == [] {
      assert st.fs + map[] == st.fs;
    } else {
      var e, rest := entries[0], entries[1..];
      var first, others := EmittedOne(e, Rel(base)), Emitted(rest, Rel(base));
      var mid := Grown(st, FlatOne(e, base), first);
      TailWellNamed(entries);
      WithinParts(first, others, st, FlatOne(e, base), lim);
      UnpackOne(e, base, st, lim);
      FlatOneUnder(e, base);
      ReadyGrows(st.fs, FlatOne(e, base), base);
      RestClear(entries, base, st.fs);
      UnpackEntries(rest, base, mid, lim);
      ExtractedAppend(first, others, st, lim);
      GrownTwice(st, FlatOne(e, base), first, Flat(rest, base), others);
    }
  }

  lemma RestClear(entries: seq<Entry>, base: Path, fs: Fs)
    requires WellNamed(entries) && entries != [] && Clear(entries, base, fs)
    ensures WellNamed(entries[1..])
    ensures Clear(entries[1..], base, fs + FlatOne(entries[0], base))
  {
    var rest := entries[1..];
    assert forall i :: 0 <= i < |rest| ==> rest[i] == entries[i + 1];
    assert forall f <- rest :: f in entries;
    FlatOneUnder(entries[0], base);
    forall q, f | q in fs + FlatOne(entries[0], base) && f in rest ensures !Under(q, base, f.name) {
      var k :| 0 <= k < |rest| && rest[k] == f;
      assert entries[0].name != entries[k + 1].name;
    }
  }

  lemma {:induction false} UnpackOne(e: Entry, base: Path, st: Unpack, lim: Limits)
    requires ValidPart(e.name) && (e.node.Dir? ==> WellNamed(e.node.entries)) && ArchivableOne(e) && ValidPath(base)
    requires Ready(st.fs, base) && Clear([e], base, st.fs)
    requires Within(EmittedOne(e, Rel(base)), st, lim)
    ensures
      var members := EmittedOne(e, Rel(base));
      Extracted(members, st, lim) == (Grown(st, FlatOne(e, base), members), true)
    decreases e, 1
  {
    hide Within, Ready, Extracted, Emitted, WellNamed, Flat, ValidPath, JoinParts, Archivable;
    var p := base + [e.name];
    ChildNameIs(base, e.name);
    assert p !in st.fs by {
      assert Under(p, base, e.name) && e in [e];
    }
    match e.node {
      case File(bytes) =>
        UnpackFile(p, JoinParts(p), bytes, st, lim);
      case Dir(inner) =>
        var below := Emitted(inner, Rel(p));
        var made := Unpack(st.fs + map[p := Folder], st.total, st.count + 1);
        var members := [DirMember(JoinParts(p))] + below;
        WithinParts([DirMember(JoinParts(p))], below, st, map[p := Folder], lim);
        ReadyGrows(st.fs, map[p := Folder], base);
        assert p[..|p| - 1] == base;
        InsideClear(e, base, st.fs);
        UnpackFolder(p, JoinParts(p), st, lim);
        UnpackEntries(inner, p, made, lim);
        ExtractedAppend([DirMember(JoinParts(p))], below, st, lim);
        GrownTwice(st, map[p := Folder], [DirMember(JoinParts(p))], Flat(inner, p), below);
      case Link => UnpackLink(e, base, st, lim);
    }
  }

  lemma UnpackLink(e: Entry, base: Path, st: Unpack, lim: Limits)
    requires e.node.Link?
    ensures
      var members := EmittedOne(e, Rel(base));
      Extracted(members, st, lim) == (Grown(st, FlatOne(e, base), members), true)
  {
    assert st.fs + map[] == st.fs;
  }

  lemma UnpackFile(p: Path, name: string, bytes: seq<Byte>, st: Unpack, lim: Limits)
    requires p != [] && Target(name) == p && p !in st.fs && Ready(st.fs, p[..|p| - 1])
    requires Within([FileMember(name, |bytes|, bytes)], st, lim)
    ensures
      var members := [FileMember(name, |bytes|, bytes)];
      Extracted(members, st, lim) == (Grown(st, map[p := Plain(bytes)], members), true)
  {
    var m := FileMember(name, |bytes|, bytes);
    var members := [m];
    ReadyMakesNothing(st.fs, p[..|p| - 1]);
    assert m in members && members[1..] == [];
    assert Sizes(members) == |bytes|;
    assert bytes[..|bytes|] == bytes;
    assert st.fs[p := Plain(bytes)] == st.fs + map[p := Plain(bytes)];
    assert ExtractOne(m, st, lim) == (Grown(st, map[p := Plain(bytes)], members), true);
  }

  lemma UnpackFolder(p: Path, name: string, st: Unpack, lim: Limits)
    requires p != [] && Target(name) == p && p !in st.fs && Ready(st.fs, p[..|p| - 1])
    requires Within([DirMember(name)], st, lim)
    ensures
      Extracted([DirMember(name)], st, lim) == (Grown(st, map[p := Folder], [DirMember(name)]), true)
  {
    var members := [DirMember(name)];
    ReadyMakesNothing(st.fs, p[..|p| - 1]);
    assert members[1..] == [];
    assert Sizes(members) == 0;
    assert st.fs[p := Folder] == st.fs + map[p := Folder];
    assert ExtractOne(members[0], st, lim) == (Grown(st, map[p := Folder], members), true);
  }

  lemma InsideClear(e: Entry, base: Path, fs: Fs)
    requires Clear([e], base, fs) && e.node.Dir?
    ensures Clear(e.node.entries, base + [e.name], fs + map[base + [e.name] := Folder])
  {
    var p := base + [e.name];
    assert e in [e];
    forall q, f | q in fs + map[p := Folder] && f in e.node.entries ensures !Under(q, p, f.name) {
      if Under(q, p, f.name) {
        UnderInside(q, base, e.name, f.name);
      }
    }
  }

  /** Extraction never accepts more than the limits allow. */
  lemma {:induction false} AcceptedWithin(members: seq<Member>, st: Unpack, lim: Limits)
    requires Extracted(members, st, lim).1 && st.count <= lim.entries && st.total <= lim.totalBytes
    requires forall m <- members :: m.FileMember? ==> m.size == |m.data|
    ensures Within(members, st, lim)
    decreases |members|
  {
    if members != [] {
      assert members[0] in members && forall m <- members[1..] :: m in members;
      AcceptedWithin(members[1..], ExtractOne(members[0], st, lim).0, lim);
      assert forall m <- members :: m == members[0] || m in members[1..];
    }
  }

  lemma {:induction false} EmittedWhole(entries: seq<Entry>, rel: string)
    ensures forall m <- Emitted(entries, rel) :: m.FileMember? ==> m.size == |m.data|
    decreases entries
  {
    if entries != [] {
      var e := entries[0];
      if e.node.Dir? {
        EmittedWhole(e.node.entries, ChildName(rel, e.name));
      }
      EmittedWhole(entries[1..], rel);
    }
  }

  /** Every path holds what opening it in the tree gives, and nothing else is there. */
  ghost predicate Rebuilt(entries: seq<Entry>, fs: Fs) {
    [] !in fs && forall p: Path :: p != [] ==>
        (p in fs <==> Lookup(entries, p).Some?) && (p in fs ==> fs[p] == Lookup(entries, p).value)
  }

  lemma FlatRebuilds(entries: seq<Entry>)
    requires WellNamed(entries)
    ensures Rebuilt(entries, Flat(entries, []))
  {
    FlatUnder(entries, []);
    assert forall e <- entries :: !Under([], [], e.name);
    assert !UnderSome([], [], entries);
    forall p: Path | p != []
      ensures (p in Flat(entries, []) <==> Lookup(entries, p).Some?)
      ensures p in Flat(entries, []) ==> Flat(entries, [])[p] == Lookup(entries, p).value
    {
      FlatLookup(entries, [], p);
      assert [] + p == p;
    }
  }

  /**
   Archive then extract: accepted exactly when the tree fits the limits, and then every path holds what it
   held in the server's directory, with nothing else there; links and what lies behind them are absent.
   */
  lemma RoundTrip(entries: seq<Entry>, lim: Limits)
    requires WellNamed(entries) && Archivable(entries)
    ensures
      var (st, ok) := Extracted(Emitted(entries, "."), EMPTY, lim);
      (ok <==> Within(Emitted(entries, "."), EMPTY, lim)) && (ok ==> Rebuilt(entries, st.fs))
  {
    var members := Emitted(entries, ".");
    if Within(members, EMPTY, lim) {
      UnpackEntries(entries, [], EMPTY, lim);
      assert EMPTY.fs + Flat(entries, []) == Flat(entries, []);
      FlatRebuilds(entries);
    } else if Extracted(members, EMPTY, lim).1 {
      EmittedWhole(entries, ".");
      AcceptedWithin(members, EMPTY, lim);
    }
  }

  lemma UnionAtMost(a: Fs, b: Fs)
    ensures |a + b| <= |a| + |b|
  {
    assert (a + b).Keys == a.Keys + b.Keys;
    assert |a + b| == |a.Keys + b.Keys| && |a| == |a.Keys| && |b| == |b.Keys|;
    assert |a.Keys + b.Keys| == |a.Keys| + |b.Keys - a.Keys| by {
      assert a.Keys + b.Keys == a.Keys + (b.Keys - a.Keys);
    }
    assert |b.Keys| == |b.Keys - a.Keys| + |b.Keys * a.Keys|;
  }

  lemma {:induction false} FlatAtMost(entries: seq<Entry>, base: Path, rel: string)
    ensures |Flat(entries, base)| <= |Emitted(entries, rel)|
    decreases entries
  {
    if entries != [] {
      var e := entries[0];
      if e.node.Dir? {
        FlatAtMost(e.node.entries, base + [e.name], ChildName(rel, e.name));
        UnionAtMost(map[base + [e.name] := Folder], Flat(e.node.entries, base + [e.name]));
      }
      FlatAtMost(entries[1..], base, rel);
      UnionAtMost(FlatOne(e, base), Flat(entries[1..], base));
    }
  }

  /** An archive the walk wrote has a header for every directory, so extracting it never passes the entry limit. */
  lemma OwnEntriesWithin(entries: seq<Entry>, lim: Limits)
    requires WellNamed(entries) && Archivable(entries)
    requires Extracted(Emitted(entries, "."), EMPTY, lim).1
    ensures |Extracted(Emitted(entries, "."), EMPTY, lim).0.fs| <= lim.entries
    ensures |AllPlaces(Emitted(entries, "."))| <= lim.entries
  {
    hide Extracted, Emitted, Flat, AllPlaces, WellNamed, Archivable;
    var members := Emitted(entries, ".");
    EmittedWhole(entries, ".");
    AcceptedWithin(members, EMPTY, lim);
    UnpackFromEmpty(entries, lim);
    FlatAtMost(entries, [], ".");
    EntriesWithin(members, lim);
  }

  lemma UnpackFromEmpty(entries: seq<Entry>, lim: Limits)
    requires WellNamed(entries) && Archivable(entries) && Within(Emitted(entries, "."), EMPTY, lim)
    ensures Extracted(Emitted(entries, "."), EMPTY, lim).0.fs == Flat(entries, [])
  {
    UnpackEntries(entries, [], EMPTY, lim);
    assert EMPTY.fs + Flat(entries, []) == Flat(entries, []);
  }
}
