/**
 The backup archive: the walk that emits a server tree as archive members, and the loop that extracts
 members under the restore limits. gzip and tar framing are taken as lossless.
 */
module Archive {
  import opened Options
  import opened Trees
  import GoText

  // ----- paths

  /** A path below the destination, outermost directory first; [] is the destination itself. */
  type Path = seq<string>

  predicate ValidPart(n: string) {
    n != "" && n != "." && n != ".." && '/' !in n
  }

  predicate ValidPath(p: Path) {
    forall n <- p :: ValidPart(n)
  }

  function JoinParts(p: Path): string {
    GoText.Join(p, '/')
  }

  /** The parts filepath.Clean keeps of an absolute path: "" and "." vanish, ".." takes one back. */
  function CleanParts(parts: seq<string>, kept: Path): (p: Path)
    requires ValidPath(kept) && forall n <- parts :: '/' !in n
    ensures ValidPath(p)
  {
    if parts == [] then kept
    else
      var n := parts[0];
      var next :=
        if n == "" || n == "." then kept
        else if n == ".." then (if kept == [] then [] else kept[..|kept| - 1])
        else kept + [n];
      CleanParts(parts[1..], next)
  }

  /** filepath.Join(root, filepath.Clean("/" + name)), relative to root. */
  function Target(name: string): (p: Path)
    ensures ValidPath(p)
  {
    CleanParts(GoText.Split(name, '/'), [])
  }

  lemma SplitParts(p: Path)
    requires ValidPath(p) && p != []
    ensures GoText.Split(JoinParts(p), '/') == p
  {
    assert forall n <- p :: ValidPart(n);
    GoText.SplitJoin(p, '/');
  }

  lemma {:induction false} CleanValid(p: Path, kept: Path)
    requires ValidPath(p) && ValidPath(kept)
    ensures CleanParts(p, kept) == kept + p
  {
    if p != [] {
      assert ValidPart(p[0]);
      CleanValid(p[1..], kept + [p[0]]);
      assert kept + [p[0]] + p[1..] == kept + p;
    } else {
      assert kept + p == kept;
    }
  }

  /** A name the walk writes is extracted to the place it was read from. */
  lemma TargetOfJoin(p: Path)
    requires ValidPath(p) && p != []
    ensures Target(JoinParts(p)) == p
  {
    SplitParts(p);
    CleanValid(p, []);
  }

  lemma {:induction false} CleanOn(a: seq<string>, b: seq<string>, kept: Path)
    requires ValidPath(kept) && (forall n <- a :: '/' !in n) && forall n <- b :: '/' !in n
    ensures forall n <- a + b :: '/' !in n
    ensures CleanParts(a + b, kept) == CleanParts(b, CleanParts(a, kept))
  {
    if a == [] {
      assert a + b == b;
    } else {
      var n := a[0];
      assert n in a && (a + b)[0] == n && (a + b)[1..] == a[1..] + b;
      var next :=
        if n == "" || n == "." then kept
        else if n == ".." then (if kept == [] then [] else kept[..|kept| - 1])
        else kept + [n];
      CleanOn(a[1..], b, next);
    }
  }

  /** "" and "." count for nothing, ".." takes the part before it back, and there is nothing above the destination. */
  lemma DotsClean(p: Path, n: string, rest: seq<string>)
    requires ValidPath(p) && ValidPart(n) && forall r <- rest :: '/' !in r
    ensures forall r <- p + rest :: '/' !in r
    ensures CleanParts(p + ([""] + rest), []) == CleanParts(p + (["."] + rest), []) == CleanParts(p + rest, [])
    ensures CleanParts(p + ([n, ".."] + rest), []) == CleanParts(p + rest, [])
    ensures CleanParts([".."] + rest, []) == CleanParts(rest, [])
  {
    assert forall r <- p :: ValidPart(r) && '/' !in r;
    CleanValid(p, []);
    CleanOn(p, rest, []);
    CleanOn(p, [""] + rest, []);
    CleanOn(p, ["."] + rest, []);
    CleanOn(p, [n, ".."] + rest, []);
    assert ([""] + rest)[1..] == rest && (["."] + rest)[1..] == rest && ([".."] + rest)[1..] == rest;
    assert ([n, ".."] + rest)[1..] == [".."] + rest;
    assert (p + [n])[..|p|] == p && [] + p == p;
  }

  lemma JoinSnoc(p: Path, n: string)
    requires p != []
    ensures JoinParts(p + [n]) == JoinParts(p) + "/" + n
  {
    GoText.JoinSnoc(p, n, '/');
  }

  // ----- members and the walk

  /** One archive member: its header, and the bytes the stream really holds for it. */
  datatype Member =
    | DirMember(name: string)
    | FileMember(name: string, size: nat, data: seq<Byte>)
    | OtherMember(name: string)

  function ChildName(rel: string, name: string): string {
    if rel == "." then name else rel + "/" + name
  }

  predicate Archivable(entries: seq<Entry>)
    decreases entries, 0
  {
    forall e <- entries :: ArchivableOne(e)
  }

  predicate ArchivableOne(e: Entry)
    decreases e, 1
  {
    !e.node.Special? && (e.node.Dir? ==> Archivable(e.node.entries))
  }

  /** The members of a directory that can be archived, in walk order. */
  function Emitted(entries: seq<Entry>, rel: string): seq<Member>
    decreases entries, 0
  {
    if entries == [] then []
    else EmittedOne(entries[0], rel) + Emitted(entries[1..], rel)
  }

  function EmittedOne(e: Entry, rel: string): seq<Member>
    decreases e, 1
  {
    var child := ChildName(rel, e.name);
    match e.node
    case File(bytes) => [FileMember(child, |bytes|, bytes)]
    case Dir(inner) => [DirMember(child)] + Emitted(inner, child)
    case _ => []
  }

  lemma {:induction false} EmittedSnoc(entries: seq<Entry>, e: Entry, rel: string)
    ensures Emitted(entries + [e], rel) == Emitted(entries, rel) + EmittedOne(e, rel)
    decreases |entries|
  {
    if entries == [] {
      assert [e][1..] == [];
      assert [] + [e] == [e];
    } else {
      assert (entries + [e])[1..] == entries[1..] + [e];
      EmittedSnoc(entries[1..], e, rel);
    }
  }

  lemma NothingEmitted(rel: string)
    ensures Emitted([], rel) == []
  {
  }

  /** The walk: links are skipped, anything else that is neither a directory nor a regular file stops it. */
  method Walk(entries: seq<Entry>, rel: string) returns (ok: bool, members: seq<Member>)
    ensures ok <==> Archivable(entries)
    ensures ok ==> members == Emitted(entries, rel)
    decreases entries
  {
    hide Emitted;
    NothingEmitted(rel);
    members := [];
    for i := 0 to |entries|
      invariant Archivable(entries[..i])
      invariant members == Emitted(entries[..i], rel)
    {
      var e := entries[i];
      assert entries[..i + 1] == entries[..i] + [e];
      EmittedSnoc(entries[..i], e, rel);
      if e.node.Special? {
        assert !ArchivableOne(e);
        return false, members;
      }
      if e.node.Link? {
        continue;
      }
      var child := ChildName(rel, e.name);
      if e.node.Dir? {
        var inside;
        ok, inside := Walk(e.node.entries, child);
        if !ok {
          assert !ArchivableOne(e);
          return;
        }
        members := members + [DirMember(child)] + inside;
      } else {
        members := members + [FileMember(child, |e.node.bytes|, e.node.bytes)];
      }
    }
    assert entries[..|entries|] == entries;
    ok := true;
  }

  // ----- extraction

  datatype Object = Folder | Plain(bytes: seq<Byte>)

  /** What has been extracted below the destination. */
  type Fs = map<Path, Object>

  datatype Limits = Limits(entryBytes: nat, totalBytes: nat, entries: nat)

  /** total and count are the loop's own counters. */
  datatype Unpack = Unpack(fs: Fs, total: nat, count: nat)

  const EMPTY := Unpack(map[], 0, 0)

  /** os.MkdirAll cannot pass through a regular file. */
  predicate Blocked(fs: Fs, p: Path) {
    p != [] && ((p in fs && fs[p].Plain?) || Blocked(fs, p[..|p| - 1]))
  }

  /** p and every directory above it. */
  function AddFolders(fs: Fs, p: Path): Fs {
    if p == [] then fs else AddFolders(fs, p[..|p| - 1])[p := Folder]
  }

  /** One member: the state afterwards and whether extraction goes on. */
  function ExtractOne(m: Member, st: Unpack, lim: Limits): (Unpack, bool) {
    var st := st.(count := st.count + 1);
    if st.count > lim.entries then (st, false)
    else
      var p := Target(m.name);
      match m
      case DirMember(_) =>
        if Blocked(st.fs, p) then (st, false) else (st.(fs := AddFolders(st.fs, p)), true)
      case FileMember(_, size, data) =>
        if size > lim.entryBytes || st.total + size > lim.totalBytes then (st, false)
        else if p == [] || Blocked(st.fs, p[..|p| - 1]) then (st, false)
        else
          var fs := AddFolders(st.fs, p[..|p| - 1]);
          if p in fs && fs[p].Folder? then (st.(fs := fs), false)
          else
            var n := if |data| < size then |data| else size;
            (st.(fs := fs[p := Plain(data[..n])], total := st.total + n), n == size)
      case OtherMember(_) => (st, true)
  }

  function Extracted(members: seq<Member>, st: Unpack, lim: Limits): (Unpack, bool) {
    if members == [] then (st, true)
    else
      var (next, ok) := ExtractOne(members[0], st, lim);
      if ok then Extracted(members[1..], next, lim) else (next, false)
  }

  // ----- limits hold for every archive

  function Size(o: Object): nat {
    if o.Plain? then |o.bytes| else 0
  }

  ghost function FileBytes(fs: Fs): nat {
    if fs == map[] then 0
    else
      var p :| p in fs;
      Size(fs[p]) + FileBytes(fs - {p})
  }

  lemma {:induction false} FileBytesWithout(fs: Fs, p: Path)
    requires p in fs
    ensures FileBytes(fs) == Size(fs[p]) + FileBytes(fs - {p})
    decreases fs.Keys
  {
    var q :| q in fs && FileBytes(fs) == Size(fs[q]) + FileBytes(fs - {q});
    if q != p {
      assert p in fs - {q} && q in fs - {p};
      assert (fs - {q}) - {p} == (fs - {p}) - {q};
      FileBytesWithout(fs - {q}, p);
      FileBytesWithout(fs - {p}, q);
    }
  }

  lemma FileBytesPut(fs: Fs, p: Path, o: Object)
    ensures FileBytes(fs[p := o]) == Size(o) + FileBytes(fs - {p})
    ensures FileBytes(fs - {p}) <= FileBytes(fs)
  {
    FileBytesWithout(fs[p := o], p);
    assert fs[p := o] - {p} == fs - {p};
    if p in fs {
      FileBytesWithout(fs, p);
    } else {
      assert fs - {p} == fs;
    }
  }

  function Files(fs: Fs): set<Path> {
    set p | p in fs && fs[p].Plain?
  }

  lemma {:induction false} AddFoldersKeeps(fs: Fs, p: Path)
    requires !Blocked(fs, p)
    ensures FileBytes(AddFolders(fs, p)) == FileBytes(fs)
    ensures forall q <- AddFolders(fs, p) :: q in fs || (q <= p && q != [])
    ensures forall q <- fs :: q in AddFolders(fs, p) && AddFolders(fs, p)[q] == fs[q]
    ensures Files(AddFolders(fs, p)) == Files(fs)
    decreases |p|
  {
    if p != [] {
      var up := p[..|p| - 1];
      AddFoldersKeeps(fs, up);
      var mid := AddFolders(fs, up);
      FileBytesPut(mid, p, Folder);
      if p in mid {
        FileBytesWithout(mid, p);
        assert mid[p].Folder?;
      } else {
        assert mid - {p} == mid;
      }
      assert Files(mid[p := Folder]) == Files(mid);
    }
  }

  /** Every path lies below the destination, and neither bytes nor files exceed what was counted or allowed. */
  ghost predicate Bounded(st: Unpack, lim: Limits) {
    && (forall p <- st.fs :: p != [] && ValidPath(p))
    && (forall p <- st.fs :: Size(st.fs[p]) <= lim.entryBytes)
    && FileBytes(st.fs) <= st.total <= lim.totalBytes
    && |Files(st.fs)| <= st.count && |Files(st.fs)| <= lim.entries
  }

  lemma FoldersBounded(st: Unpack, p: Path, lim: Limits)
    requires Bounded(st, lim) && ValidPath(p) && !Blocked(st.fs, p)
    ensures Bounded(st.(fs := AddFolders(st.fs, p)), lim)
  {
    AddFoldersKeeps(st.fs, p);
    forall q | q in AddFolders(st.fs, p)
      ensures q != [] && ValidPath(q) && Size(AddFolders(st.fs, p)[q]) <= lim.entryBytes
    {
      if q !in st.fs {
        assert q == p[..|q|];
        assert q !in Files(AddFolders(st.fs, p));
      }
    }
  }

  lemma FilesPut(fs: Fs, p: Path, bytes: seq<Byte>)
    ensures |Files(fs[p := Plain(bytes)])| <= |Files(fs)| + 1
  {
    var after := Files(fs[p := Plain(bytes)]);
    assert after == Files(fs) + {p};
    if p in Files(fs) {
      assert after == Files(fs);
    } else {
      assert |after| == |Files(fs)| + 1;
    }
  }

  lemma FileBounded(st: Unpack, p: Path, bytes: seq<Byte>, lim: Limits)
    requires Bounded(st, lim) && ValidPath(p) && p != []
    requires |bytes| <= lim.entryBytes && st.total + |bytes| <= lim.totalBytes
    requires |Files(st.fs)| + 1 <= st.count && |Files(st.fs)| + 1 <= lim.entries
    ensures Bounded(st.(fs := st.fs[p := Plain(bytes)], total := st.total + |bytes|), lim)
  {
    FileBytesPut(st.fs, p, Plain(bytes));
    FilesPut(st.fs, p, bytes);
  }

  lemma ExtractOneBounded(m: Member, st: Unpack, lim: Limits)
    requires Bounded(st, lim)
    ensures Bounded(ExtractOne(m, st, lim).0, lim)
  {
    var p := Target(m.name);
    var counted := st.(count := st.count + 1);
    if counted.count <= lim.entries {
      match m {
        case DirMember(_) =>
          if !Blocked(st.fs, p) {
            FoldersBounded(counted, p, lim);
          }
        case FileMember(_, size, data) =>
          if p != [] && !Blocked(st.fs, p[..|p| - 1]) {
            FoldersBounded(counted, p[..|p| - 1], lim);
            AddFoldersKeeps(st.fs, p[..|p| - 1]);
            var made := counted.(fs := AddFolders(st.fs, p[..|p| - 1]));
            var n := if |data| < size then |data| else size;
            if size <= lim.entryBytes && st.total + size <= lim.totalBytes {
              FileBounded(made, p, data[..n], lim);
            }
          }
        case OtherMember(_) =>
      }
    }
  }

  /** Whatever the archive holds, what is on disk when extraction ends, or is refused, is within the limits. */
  lemma {:induction false} ExtractedBounded(members: seq<Member>, st: Unpack, lim: Limits)
    requires Bounded(st, lim)
    ensures Bounded(Extracted(members, st, lim).0, lim)
    decreases |members|
  {
    if members != [] {
      ExtractOneBounded(members[0], st, lim);
      var (next, ok) := ExtractOne(members[0], st, lim);
      if ok {
        ExtractedBounded(members[1..], next, lim);
      }
    }
  }

  // ----- the entries an archive makes

  /** p and every directory above it, the destination left out. */
  function Above(p: Path): set<Path> {
    set k | 1 <= k <= |p| :: p[..k]
  }

  /** Every place named by a directory or file member, or lying on the way to one. */
  function AllPlaces(members: seq<Member>): set<Path> {
    set m, k | m in members && !m.OtherMember? && 1 <= k <= |Target(m.name)| :: Target(m.name)[..k]
  }

  lemma AboveStep(p: Path)
    requires p != []
    ensures Above(p) == Above(p[..|p| - 1]) + {p}
  {
    var up := p[..|p| - 1];
    assert forall k :: 1 <= k < |p| ==> p[..k] == up[..k];
    forall q | q in Above(p) ensures q in Above(up) + {p} {
      var k :| 1 <= k <= |p| && q == p[..k];
      if k == |p| {
        assert q == p;
      }
    }
    forall q | q in Above(up) ensures q in Above(p) {
      var k :| 1 <= k <= |up| && q == up[..k];
      assert q == p[..k];
    }
    assert p[..|p|] == p;
  }

  lemma {:induction false} AddFoldersPlaces(fs: Fs, p: Path)
    ensures AddFolders(fs, p).Keys == fs.Keys + Above(p)
    decreases |p|
  {
    if p != [] {
      AddFoldersPlaces(fs, p[..|p| - 1]);
      AboveStep(p);
    }
  }

  lemma PlacesStep(members: seq<Member>)
    requires members != []
    ensures
      var here := if members[0].OtherMember? then {} else Above(Target(members[0].name));
      AllPlaces(members) == here + AllPlaces(members[1..])
  {
    hide Target;
    assert forall m <- members :: m == members[0] || m in members[1..];
  }

  /** Extraction makes nothing but these places, and an accepted archive makes all of them. */
  lemma {:induction false} ExtractedPlaces(members: seq<Member>, st: Unpack, lim: Limits)
    ensures
      var (after, ok) := Extracted(members, st, lim);
      && after.fs.Keys <= st.fs.Keys + AllPlaces(members)
      && (ok ==> after.fs.Keys == st.fs.Keys + AllPlaces(members))
    decreases |members|
  {
    hide Target, AllPlaces, Blocked;
    if members == [] {
      NoPlaces();
    } else {
      var m := members[0];
      var p := Target(m.name);
      PlacesStep(members);
      AddFoldersPlaces(st.fs, p);
      if p != [] {
        AddFoldersPlaces(st.fs, p[..|p| - 1]);
        AboveStep(p);
      }
      ExtractedPlaces(members[1..], ExtractOne(m, st, lim).0, lim);
    }
  }

  lemma NoPlaces()
    ensures AllPlaces([]) == {}
  {
  }

  /** The entry limit counts headers, so the entries on disk pass it exactly when the places do. */
  lemma EntriesWithin(members: seq<Member>, lim: Limits)
    requires Extracted(members, EMPTY, lim).1
    ensures |Extracted(members, EMPTY, lim).0.fs| <= lim.entries <==> |AllPlaces(members)| <= lim.entries
  {
    hide Extracted, AllPlaces;
    ExtractedPlaces(members, EMPTY, lim);
    var fs := Extracted(members, EMPTY, lim).0.fs;
    assert fs.Keys == AllPlaces(members);
    assert |fs| == |fs.Keys|;
  }

  /** One header can create any number of directories. */
  lemma OneHeaderManyFolders(lim: Limits)
    requires lim.entries == 1
    ensures
      var (st, ok) := Extracted([DirMember("a/b")], EMPTY, lim);
      ok && st.fs == map[["a"] := Folder, ["a", "b"] := Folder] && |st.fs| > lim.entries
  {
    var p := ["a", "b"];
    assert p[1..] == ["b"] && p[..1] == ["a"] && ["a"][..0] == [];
    assert ValidPart("a") && ValidPart("b");
    TargetOfJoin(p);
    assert JoinParts(p) == "a/b";
    var fs := AddFolders(map[], p);
    assert fs == map[["a"] := Folder, p := Folder];
    assert |["a"]| != |p|;
    assert fs.Keys == {["a"], p};
    assert |fs| == |fs.Keys|;
    assert [DirMember("a/b")][1..] == [];
  }

  /** A member an I/O error cut short: some of its directories, and of a file perhaps the first bytes. */
  function CutShort(m: Member, st: Unpack, lim: Limits, made: nat, bytes: Option<nat>): Unpack {
    var p, counted := Target(m.name), st.(count := st.count + 1);
    match m
    case DirMember(_) =>
      if counted.count > lim.entries || Blocked(st.fs, p) || made > |p| then counted
      else counted.(fs := AddFolders(st.fs, p[..made]))
    case FileMember(_, size, data) =>
      if counted.count > lim.entries || size > lim.entryBytes || st.total + size > lim.totalBytes then counted
      else if p == [] || Blocked(st.fs, p[..|p| - 1]) || made >= |p| then counted
      else
        var fs := AddFolders(st.fs, p[..made]);
        if made == |p| - 1 && bytes.Some? && bytes.value <= |data| && bytes.value <= size
           && !(p in fs && fs[p].Folder?)
        then counted.(fs := fs[p := Plain(data[..bytes.value])], total := st.total + bytes.value)
        else counted.(fs := fs)
    case OtherMember(_) => counted
  }

  lemma {:induction false} PrefixUnblocked(fs: Fs, p: Path, k: nat)
    requires k <= |p| && !Blocked(fs, p)
    ensures !Blocked(fs, p[..k])
    decreases |p|
  {
    if k < |p| {
      PrefixUnblocked(fs, p[..|p| - 1], k);
      assert p[..|p| - 1][..k] == p[..k];
    } else {
      assert p[..k] == p;
    }
  }

  lemma CutShortBounded(m: Member, st: Unpack, lim: Limits, made: nat, bytes: Option<nat>)
    requires Bounded(st, lim)
    ensures Bounded(CutShort(m, st, lim, made, bytes), lim)
  {
    hide Target, Bounded;
    var p, counted := Target(m.name), st.(count := st.count + 1);
    CountBounded(st, lim);
    if counted.count <= lim.entries {
      match m {
        case DirMember(_) =>
          if !Blocked(st.fs, p) && made <= |p| {
            PrefixUnblocked(st.fs, p, made);
            FoldersBounded(counted, p[..made], lim);
          }
        case FileMember(_, size, data) =>
          if p != [] && !Blocked(st.fs, p[..|p| - 1]) && made < |p| {
            PrefixUnblocked(st.fs, p[..|p| - 1], made);
            assert p[..|p| - 1][..made] == p[..made];
            FoldersBounded(counted, p[..made], lim);
            AddFoldersKeeps(st.fs, p[..made]);
            if bytes.Some? && bytes.value <= |data| && bytes.value <= size
               && size <= lim.entryBytes && st.total + size <= lim.totalBytes {
              FileBounded(counted.(fs := AddFolders(st.fs, p[..made])), p, data[..bytes.value], lim);
            }
          }
        case OtherMember(_) =>
      }
    }
  }

  lemma FoldersWithin(fs: Fs, p: Path, k: nat, places: set<Path>)
    requires fs.Keys <= places && Above(p) <= places && k <= |p|
    ensures AddFolders(fs, p[..k]).Keys <= places
    ensures p != [] ==> p in places
  {
    AddFoldersPlaces(fs, p[..k]);
    assert forall j :: 0 <= j <= k ==> p[..k][..j] == p[..j];
    assert p[..|p|] == p;
  }

  lemma TargetPlaces(members: seq<Member>, m: Member)
    requires m in members && !m.OtherMember?
    ensures Above(Target(m.name)) <= AllPlaces(members)
  {
    hide Target;
  }

  lemma MemberPlaces(members: seq<Member>, m: Member, st: Unpack, lim: Limits)
    requires m in members && st.fs.Keys <= AllPlaces(members)
    ensures ExtractOne(m, st, lim).0.fs.Keys <= AllPlaces(members)
  {
    hide Target, Blocked, AllPlaces, Above;
    var p := Target(m.name);
    if !m.OtherMember? {
      TargetPlaces(members, m);
      FoldersWithin(st.fs, p, |p|, AllPlaces(members));
      assert p[..|p|] == p;
      if p != [] {
        FoldersWithin(st.fs, p, |p| - 1, AllPlaces(members));
      }
    }
  }

  lemma CutShortPlaces(members: seq<Member>, m: Member, st: Unpack, lim: Limits, made: nat, bytes: Option<nat>)
    requires m in members && st.fs.Keys <= AllPlaces(members)
    ensures CutShort(m, st, lim, made, bytes).fs.Keys <= AllPlaces(members)
  {
    hide Target, Blocked, AllPlaces, Above;
    var p := Target(m.name);
    if !m.OtherMember? && made <= |p| {
      TargetPlaces(members, m);
      FoldersWithin(st.fs, p, made, AllPlaces(members));
    }
  }

  lemma CountBounded(st: Unpack, lim: Limits)
    requires Bounded(st, lim)
    ensures Bounded(st.(count := st.count + 1), lim)
    ensures |Files(st.fs)| <= st.count && |Files(st.fs)| <= lim.entries
  {
  }

  method Untar(members: seq<Member>, lim: Limits, calm: bool) returns (ok: bool, st: Unpack)
    ensures Bounded(st, lim) && st.fs.Keys <= AllPlaces(members)
    ensures ok ==> (st, true) == Extracted(members, EMPTY, lim)
    ensures calm ==> (st, ok) == Extracted(members, EMPTY, lim)
  {
    hide AllPlaces, CutShort, ExtractOne;
    st := EMPTY;
    assert Files(st.fs) == {};
    for i := 0 to |members|
      invariant Bounded(st, lim) && st.fs.Keys <= AllPlaces(members)
      invariant Extracted(members, EMPTY, lim) == Extracted(members[i..], st, lim)
    {
      var m := members[i];
      assert members[i..][0] == m && members[i..][1..] == members[i + 1..];
      ExtractOneBounded(m, st, lim);
      var (next, more) := ExtractOne(m, st, lim);
      var refused: bool := *;
      if refused && !calm {
        var made: nat, bytes: Option<nat> := *, *;
        CutShortPlaces(members, m, st, lim, made, bytes);
        CutShortBounded(m, st, lim, made, bytes);
        return false, CutShort(m, st, lim, made, bytes);
      }
      MemberPlaces(members, m, st, lim);
      st := next;
      if !more {
        return false, st;
      }
    }
    assert members[|members|..] == [];
    // What follows the tar end can still refuse the archive: the gzip checksum, or trailing data.
    var refused: bool := *;
    ok := calm || !refused;
  }
}
