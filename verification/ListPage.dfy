/** ListFilesPage: the bounded scan agrees with filter, sort and cut, and its pages join up to the whole directory. */
module ListPage {
  import opened Options
  import opened GoText
  import opened Listing

  const CAP := MAX_LIST_ITEMS + 1

  predicate Ascending(s: seq<Item>) {
    forall i, j :: 0 <= i < j < |s| ==> Less(s[i].key, s[j].key)
  }

  function Insert(x: Item, s: seq<Item>): seq<Item> {
    if s == [] || Less(x.key, s[0].key) then [x] + s else [s[0]] + Insert(x, s[1..])
  }

  /** sort.Slice by key. */
  function Sort(s: seq<Item>): seq<Item> {
    if s == [] then [] else Insert(s[|s| - 1], Sort(s[..|s| - 1]))
  }

  predicate Accepted(e: DirEntry, after: string) {
    e.readable && Less(after, Key(e))
  }

  /** The entries a scan keeps, in scan order. */
  function Kept(entries: seq<DirEntry>, after: string): seq<Item> {
    if entries == [] then []
    else
      var e := entries[|entries| - 1];
      Kept(entries[..|entries| - 1], after) + (if Accepted(e, after) then [ItemOf(e)] else [])
  }

  /** Everything above the cursor, in order. */
  function Sorted(entries: seq<DirEntry>, after: string): seq<Item> {
    Sort(Kept(entries, after))
  }

  function First(s: seq<Item>, n: nat): seq<Item> {
    if |s| <= n then s else s[..n]
  }

  // ----- sorting

  lemma {:induction false} InsertHas(x: Item, s: seq<Item>)
    ensures multiset(Insert(x, s)) == multiset(s) + multiset{x}
  {
    if s != [] {
      assert s == [s[0]] + s[1..];
      InsertHas(x, s[1..]);
    }
  }

  lemma {:induction false} InsertAscending(x: Item, s: seq<Item>)
    requires Ascending(s) && forall y <- s :: y.key != x.key
    ensures Ascending(Insert(x, s))
  {
    if s != [] {
      LessTotal(x.key, s[0].key);
      if Less(x.key, s[0].key) {
        forall j | 0 < j < |s| ensures Less(x.key, s[j].key) {
          LessTrans(x.key, s[0].key, s[j].key);
        }
      } else {
        InsertAscending(x, s[1..]);
        InsertHas(x, s[1..]);
        var t := Insert(x, s[1..]);
        forall j | 0 <= j < |t| ensures Less(s[0].key, t[j].key) {
          assert t[j] in multiset(t);
          assert t[j] == x || t[j] in s[1..];
        }
      }
    }
  }

  lemma {:induction false} SortHas(s: seq<Item>)
    ensures multiset(Sort(s)) == multiset(s)
  {
    if s != [] {
      SortHas(s[..|s| - 1]);
      InsertHas(s[|s| - 1], Sort(s[..|s| - 1]));
      assert s == s[..|s| - 1] + [s[|s| - 1]];
    }
  }

  predicate DistinctKeys(s: seq<Item>) {
    forall i, j :: 0 <= i < j < |s| ==> s[i].key != s[j].key
  }

  lemma {:induction false} SortAscending(s: seq<Item>)
    requires DistinctKeys(s)
    ensures Ascending(Sort(s))
  {
    if s != [] {
      var init, x := s[..|s| - 1], s[|s| - 1];
      SortAscending(init);
      SortHas(init);
      forall y | y in Sort(init) ensures y.key != x.key {
        assert y in multiset(Sort(init));
        var k :| 0 <= k < |init| && init[k] == y;
        assert s[k] == y;
      }
      InsertAscending(x, Sort(init));
    }
  }

  /** An ascending sequence is determined by what it contains. */
  lemma {:induction false} AscendingUnique(a: seq<Item>, b: seq<Item>)
    requires Ascending(a) && Ascending(b) && forall x :: x in a <==> x in b
    ensures a == b
    decreases |a|
  {
    assert a != [] ==> a[0] in b;
    assert b != [] ==> b[0] in a;
    if a != [] {
      var i :| 0 <= i < |b| && b[i] == a[0];
      var j :| 0 <= j < |a| && a[j] == b[0];
      LessTotal(a[0].key, b[0].key);
      assert a[0] == b[0];
      forall x ensures x in a[1..] <==> x in b[1..] {
        LessTotal(a[0].key, a[0].key);
        assert x in a <==> x == a[0] || x in a[1..];
        assert x in b <==> x == b[0] || x in b[1..];
        assert a[0] !in a[1..] && b[0] !in b[1..];
      }
      AscendingUnique(a[1..], b[1..]);
    }
  }

  // ----- one directory's items

  lemma {:induction false} KeptWhich(entries: seq<DirEntry>, after: string, x: Item)
    ensures x in Kept(entries, after) <==> x.entry in entries && x == ItemOf(x.entry) && Accepted(x.entry, after)
  {
    if entries != [] {
      var init, e := entries[..|entries| - 1], entries[|entries| - 1];
      KeptWhich(init, after, x);
      assert x.entry in entries <==> x.entry in init || x.entry == e;
    }
  }

  lemma {:induction false} KeptDistinct(entries: seq<DirEntry>, after: string)
    requires Directory(entries)
    ensures DistinctKeys(Kept(entries, after))
  {
    if entries != [] {
      var n := |entries| - 1;
      var init, e := entries[..n], entries[n];
      KeptDistinct(init, after);
      var kept := Kept(init, after);
      forall i | 0 <= i < |kept| ensures kept[i].key != Key(e) {
        KeptWhich(init, after, kept[i]);
        var k :| 0 <= k < n && init[k] == kept[i].entry;
        assert entries[k].name != e.name && entries[k] in entries && e in entries;
        if kept[i].key == Key(e) {
          KeyInjective(entries[k], e);
        }
      }
    }
  }

  lemma SortedWhich(entries: seq<DirEntry>, after: string, x: Item)
    ensures x in Sorted(entries, after) <==> x.entry in entries && x == ItemOf(x.entry) && Accepted(x.entry, after)
  {
    SortHas(Kept(entries, after));
    KeptWhich(entries, after, x);
    assert x in Sorted(entries, after) <==> x in multiset(Sorted(entries, after));
    assert x in Kept(entries, after) <==> x in multiset(Kept(entries, after));
  }

  /** The whole listing: ascending, and exactly the readable entries. */
  lemma SortedComplete(entries: seq<DirEntry>)
    requires Directory(entries)
    ensures Ascending(Sorted(entries, ""))
    ensures forall x :: x in Sorted(entries, "") <==> x.entry in entries && x.entry.readable && x == ItemOf(x.entry)
  {
    KeptDistinct(entries, "");
    SortAscending(Kept(entries, ""));
    forall x ensures x in Sorted(entries, "") <==> x.entry in entries && x.entry.readable && x == ItemOf(x.entry) {
      SortedWhich(entries, "", x);
    }
  }

  // ----- the order of a listing

  /** Folders before files, and within each kind by name, letter case counting only between names that differ in it
      alone. */
  predicate Before(a: DirEntry, b: DirEntry) {
    if a.dir != b.dir then a.dir
    else if Lower(a.name) != Lower(b.name) then Less(Lower(a.name), Lower(b.name))
    else Less(a.name, b.name)
  }

  predicate InListOrder(items: seq<Item>) {
    forall i, j :: 0 <= i < j < |items| ==> Before(items[i].entry, items[j].entry)
  }

  /** A terminator smaller than every character makes a pair sort by its first part, then by its second. */
  lemma {:induction false} TerminatedOrder(a: string, x: string, b: string, y: string)
    requires '\0' !in a && '\0' !in b
    ensures Less(a + "\0" + x, b + "\0" + y) <==> if a == b then Less(x, y) else Less(a, b)
    decreases |a|
  {
    var s, t := a + "\0" + x, b + "\0" + y;
    assert s[0] == (if a == "" then '\0' else a[0]) && t[0] == if b == "" then '\0' else b[0];
    if a == "" && b == "" {
      assert s[1..] == x && t[1..] == y;
    } else if a != "" && b != "" && a[0] == b[0] {
      assert s[1..] == a[1..] + "\0" + x && t[1..] == b[1..] + "\0" + y;
      assert a == [a[0]] + a[1..] && b == [b[0]] + b[1..];
      TerminatedOrder(a[1..], x, b[1..], y);
    }
  }

  lemma SameStart(c: char, x: string, y: string)
    ensures Less([c] + x, [c] + y) <==> Less(x, y)
  {
    assert ([c] + x)[1..] == x && ([c] + y)[1..] == y;
  }

  lemma OtherStart(c: char, d: char, x: string, y: string)
    requires c < d
    ensures Less([c] + x, [d] + y) && !Less([d] + y, [c] + x)
  {
  }

  /** The keys sort as the listing should. */
  lemma KeyOrder(a: DirEntry, b: DirEntry)
    requires '\0' !in a.name && '\0' !in b.name
    ensures Less(Key(a), Key(b)) <==> Before(a, b)
  {
    hide Lower, Less;
    var s, t := Lower(a.name) + "\0" + a.name, Lower(b.name) + "\0" + b.name;
    assert Key(a) == [if a.dir then '0' else '1'] + ([':'] + s);
    assert Key(b) == [if b.dir then '0' else '1'] + ([':'] + t);
    if a.dir == b.dir {
      SameStart(if a.dir then '0' else '1', [':'] + s, [':'] + t);
      SameStart(':', s, t);
      TerminatedOrder(Lower(a.name), a.name, Lower(b.name), b.name);
    } else if a.dir {
      OtherStart('0', '1', [':'] + s, [':'] + t);
    } else {
      OtherStart('0', '1', [':'] + t, [':'] + s);
    }
  }

  lemma SortedInOrder(entries: seq<DirEntry>, after: string)
    requires Directory(entries)
    ensures InListOrder(Sorted(entries, after))
  {
    hide Less, Key, Before, Sorted;
    var s := Sorted(entries, after);
    SortedRises(entries, after);
    forall i, j | 0 <= i < j < |s| ensures Before(s[i].entry, s[j].entry) {
      SortedWhich(entries, after, s[i]);
      SortedWhich(entries, after, s[j]);
      KeyOrder(s[i].entry, s[j].entry);
    }
  }

  lemma FirstInOrder(s: seq<Item>)
    requires InListOrder(s)
    ensures InListOrder(First(s, MAX_LIST_ITEMS))
    ensures First(s, MAX_LIST_ITEMS) == if |s| > MAX_LIST_ITEMS then First(s, CAP)[..MAX_LIST_ITEMS] else First(s, CAP)
    ensures |First(s, CAP)| > MAX_LIST_ITEMS <==> |s| > MAX_LIST_ITEMS
    ensures |s| > MAX_LIST_ITEMS ==> |First(s, CAP)| > MAX_LIST_ITEMS
    ensures |s| > MAX_LIST_ITEMS ==> First(s, CAP)[MAX_LIST_ITEMS - 1] == s[MAX_LIST_ITEMS - 1]
  {
    hide Before;
  }

  lemma SortedRises(entries: seq<DirEntry>, after: string)
    requires Directory(entries)
    ensures Ascending(Sorted(entries, after))
  {
    KeptDistinct(entries, after);
    SortAscending(Kept(entries, after));
  }

  // ----- one step of the scan

  lemma {:induction false} InsertCut(x: Item, s: seq<Item>, c: nat)
    requires Ascending(s) && 0 < c <= |s| && x.key != s[c - 1].key
    ensures First(Insert(x, s), c) == if Less(x.key, s[c - 1].key) then Insert(x, s[..c - 1]) else s[..c]
    decreases |s|
  {
    hide Less, Ascending, First, Insert;
    LessTotal(x.key, s[c - 1].key);
    AscendingTail(s, c - 1);
    InsertStep(x, s);
    if Less(x.key, s[0].key) {
      FirstCons(x, s, c);
      InsertStep(x, s[..c - 1]);
      if c > 1 {
        LessTrans(x.key, s[0].key, s[c - 1].key);
      }
    } else {
      FirstCons(s[0], Insert(x, s[1..]), c);
      FirstNone(Insert(x, s[1..]));
      if c > 1 {
        assert s[1..][..c - 1] == s[1..c] && s[1..][..c - 2] == s[1..c - 1];
        assert s[..c] == [s[0]] + s[1..c] && s[..c - 1][1..] == s[1..c - 1];
        InsertStep(x, s[..c - 1]);
        InsertCut(x, s[1..], c - 1);
      }
    }
  }

  lemma AscendingTail(s: seq<Item>, k: nat)
    requires Ascending(s) && k < |s|
    ensures Ascending(s[1..]) && (k > 0 ==> Less(s[0].key, s[k].key))
  {
  }

  lemma InsertStep(x: Item, s: seq<Item>)
    ensures Insert(x, s) == if s == [] || Less(x.key, s[0].key) then [x] + s else [s[0]] + Insert(x, s[1..])
  {
  }

  lemma FirstCons(x: Item, s: seq<Item>, c: nat)
    requires c > 0
    ensures First([x] + s, c) == [x] + First(s, c - 1)
    ensures c - 1 <= |s| ==> First(s, c - 1) == s[..c - 1]
  {
  }

  lemma FirstNone(s: seq<Item>)
    ensures First(s, 0) == []
  {
  }

  lemma {:induction false} InsertLength(x: Item, s: seq<Item>)
    ensures |Insert(x, s)| == |s| + 1
  {
    if s != [] {
      InsertLength(x, s[1..]);
    }
  }

  /** The heap holds the first CAP of what the scan has accepted so far. */
  ghost predicate HoldsFirst(items: seq<Item>, entries: seq<DirEntry>, after: string) {
    IsHeap(items, |items|) && multiset(items) == multiset(First(Sorted(entries, after), CAP))
  }

  lemma RootIsLast(items: seq<Item>, s: seq<Item>)
    requires IsHeap(items, |items|) && multiset(items) == multiset(s) && Ascending(s) && s != []
    ensures items != [] && items[0] == s[|s| - 1]
  {
    var last := s[|s| - 1];
    assert last in multiset(items);
    var k :| 0 <= k < |items| && items[k] == last;
    RootIsLargest(items, k);
    assert items[0] in multiset(s);
    var i :| 0 <= i < |s| && s[i] == items[0];
  }

  lemma MultisetLength(a: seq<Item>, b: seq<Item>)
    requires multiset(a) == multiset(b)
    ensures |a| == |b|
  {
    assert |multiset(a)| == |multiset(b)|;
  }

  /** What accepting one more entry does to the first CAP. */
  lemma AcceptOne(entries: seq<DirEntry>, e: DirEntry, after: string)
    requires Directory(entries + [e]) && Accepted(e, after)
    ensures
      var s := Sorted(entries, after);
      var t := Sorted(entries + [e], after);
      && t == Insert(ItemOf(e), s) && Ascending(s)
      && (|s| < CAP ==> First(t, CAP) == Insert(ItemOf(e), s))
      && (|s| >= CAP ==>
          First(t, CAP) == if Less(Key(e), s[CAP - 1].key) then Insert(ItemOf(e), s[..CAP - 1]) else s[..CAP])
  {
    var all := entries + [e];
    assert all[..|all| - 1] == entries;
    assert Directory(entries) by {
      assert forall f <- entries :: f in all;
      assert forall i :: 0 <= i < |entries| ==> entries[i] == all[i];
    }
    var kept := Kept(entries, after);
    assert Kept(all, after) == kept + [ItemOf(e)];
    assert (kept + [ItemOf(e)])[..|kept|] == kept;
    KeptDistinct(entries, after);
    SortAscending(kept);
    InsertLength(ItemOf(e), Sort(kept));
    if |Sort(kept)| >= CAP {
      var y := Sort(kept)[CAP - 1];
      SortedWhich(entries, after, y);
      NewKey(entries, e, y);
      InsertCut(ItemOf(e), Sort(kept), CAP);
    }
  }

  lemma NewKey(entries: seq<DirEntry>, e: DirEntry, y: Item)
    requires Directory(entries + [e]) && y.entry in entries && y == ItemOf(y.entry)
    ensures Key(e) != y.key
  {
    var all := entries + [e];
    var k :| 0 <= k < |entries| && entries[k] == y.entry;
    assert all[k] == y.entry && all[|entries|] == e && all[k] in all;
    if Key(e) == y.key {
      KeyInjective(y.entry, e);
    }
  }

  // ----- the page

  /** A cursor names the server, the directory, its generation, and the last key already shown. */
  datatype Cursor = Cursor(server: string, path: string, generation: string, after: string)

  datatype PageResult =
    | Page(items: seq<Item>, next: Option<Cursor>)
    | WrongDirectory
    | Stale
    | TooMany
    | Failed

  /** What one page must be. */
  predicate IsPage(r: PageResult, entries: seq<DirEntry>, server: string, path: string, generation: string,
                   after: string) {
    var all := Sorted(entries, after);
    && r.Page? && r.items == First(all, MAX_LIST_ITEMS)
    && r.next ==
        if |all| > MAX_LIST_ITEMS then Some(Cursor(server, path, generation, all[MAX_LIST_ITEMS - 1].key)) else None
  }

  lemma Room(items: seq<Item>, entries: seq<DirEntry>, e: DirEntry, after: string)
    requires Directory(entries + [e]) && Accepted(e, after) && HoldsFirst(items, entries, after) && |items| < CAP
    ensures multiset(items) + multiset{ItemOf(e)} == multiset(First(Sorted(entries + [e], after), CAP))
  {
    var s := Sorted(entries, after);
    AcceptOne(entries, e, after);
    MultisetLength(items, First(s, CAP));
    InsertHas(ItemOf(e), s);
  }

  /** Replacing the root of a full heap is cutting the last element off. */
  lemma ReplaceRoot(items: seq<Item>, s: seq<Item>, x: Item)
    requires IsHeap(items, |items|) && multiset(items) == multiset(s) && Ascending(s) && s != []
    ensures items != [] && items[0] == s[|s| - 1]
    ensures multiset(Insert(x, s[..|s| - 1])) == multiset(items) - multiset{items[0]} + multiset{x}
  {
    RootIsLast(items, s);
    assert s == s[..|s| - 1] + [s[|s| - 1]];
    InsertHas(x, s[..|s| - 1]);
  }

  lemma Full(items: seq<Item>, entries: seq<DirEntry>, e: DirEntry, after: string)
    requires Directory(entries + [e]) && Accepted(e, after) && HoldsFirst(items, entries, after) && |items| >= CAP
    ensures multiset(First(Sorted(entries + [e], after), CAP))
            == if Less(Key(e), items[0].key) then multiset(items) - multiset{items[0]} + multiset{ItemOf(e)}
               else multiset(items)
  {
    hide Sorted, Insert, Directory, Accepted, Ascending, IsHeap, Less, Key, First;
    var s := Sorted(entries, after);
    var first := First(s, CAP);
    AcceptOne(entries, e, after);
    MultisetLength(items, first);
    FirstFull(s, CAP);
    PrefixAscending(s, CAP);
    ReplaceRoot(items, first, ItemOf(e));
    assert first[..CAP - 1] == s[..CAP - 1];
  }

  lemma FirstFull(s: seq<Item>, n: nat)
    ensures First(s, n) == if |s| < n then s else s[..n]
  {
  }

  lemma PrefixAscending(s: seq<Item>, n: nat)
    requires Ascending(s)
    ensures Ascending(First(s, n))
  {
  }

  method Offer(page: MaxHeap, ghost entries: seq<DirEntry>, e: DirEntry, after: string)
    requires Directory(entries + [e]) && Accepted(e, after)
    requires HoldsFirst(page.items, entries, after)
    modifies page
    ensures HoldsFirst(page.items, entries + [e], after)
  {
    if |page.items| < CAP {
      Room(page.items, entries, e, after);
      page.Push(ItemOf(e));
    } else {
      Full(page.items, entries, e, after);
      if Less(Key(e), page.items[0].key) {
        var _ := page.Pop();
        page.Push(ItemOf(e));
      }
    }
  }

  /** changed: the directory's generation moved while it was read. calm: nothing else went wrong. */
  method ListFilesPage(entries: seq<DirEntry>, server: string, path: string, generation: string,
                       cursor: Option<Cursor>, changed: bool, calm: bool)
    returns (r: PageResult)
    requires Directory(entries)
    ensures r.Page? ==> IsPage(r, entries, server, path, generation, if cursor.Some? then cursor.value.after else "")
    ensures r.Page? ==> !changed && (cursor.Some? ==> cursor.value.generation == generation)
    ensures r.Page? ==> cursor.Some? ==> cursor.value.server == server && cursor.value.path == path
    ensures r.Page? ==> InListOrder(r.items) && |entries| <= MAX_SCANNED
    ensures cursor.Some? && (cursor.value.server != server || cursor.value.path != path) ==> r.WrongDirectory?
    ensures (cursor.Some? && cursor.value.server == server && cursor.value.path == path
             && cursor.value.generation != generation) ==> r.Stale?
    ensures calm && !changed && |entries| <= MAX_SCANNED ==>
        (r.Page? <==> cursor.None? || cursor.value == Cursor(server, path, generation, cursor.value.after))
  {
    hide Sorted, Directory, Sort, InListOrder, HoldsFirst, Less, Key, First;
    var after := "";
    if cursor.Some? {
      if cursor.value.server != server || cursor.value.path != path {
        return WrongDirectory;
      }
      if cursor.value.generation != generation {
        return Stale;
      }
      after := cursor.value.after;
    }
    var page := new MaxHeap();
    assert entries[..0] == [];
    NothingHeld(after);
    for i := 0 to |entries|
      invariant fresh(page) && i <= MAX_SCANNED
      invariant HoldsFirst(page.items, entries[..i], after)
    {
      var failed: bool := *;
      if failed && !calm {
        return Failed;
      }
      if i + 1 > MAX_SCANNED {
        return TooMany;
      }
      var e := entries[i];
      PrefixDirectory(entries, i);
      if !e.readable || Le(Key(e), after) {
        SkipOne(page.items, entries[..i], e, after);
        continue;
      }
      Offer(page, entries[..i], e, after);
    }
    if changed {
      return Stale;
    }
    assert entries[..|entries|] == entries;
    var sorted := Sort(page.items);
    SortedHeap(page.items, entries, after);
    SortedInOrder(entries, after);
    FirstInOrder(Sorted(entries, after));
    if |sorted| > MAX_LIST_ITEMS {
      var cut := sorted[..MAX_LIST_ITEMS];
      return Page(cut, Some(Cursor(server, path, generation, cut[|cut| - 1].key)));
    }
    return Page(sorted, None);
  }

  lemma NothingHeld(after: string)
    ensures HoldsFirst([], [], after)
  {
  }

  lemma PrefixDirectory(entries: seq<DirEntry>, i: nat)
    requires Directory(entries) && i < |entries|
    ensures entries[..i + 1] == entries[..i] + [entries[i]] && Directory(entries[..i] + [entries[i]])
  {
    assert forall f <- entries[..i + 1] :: f in entries;
  }

  lemma SkipOne(items: seq<Item>, entries: seq<DirEntry>, e: DirEntry, after: string)
    requires !Accepted(e, after)
    ensures Sorted(entries + [e], after) == Sorted(entries, after)
    ensures HoldsFirst(items, entries, after) ==> HoldsFirst(items, entries + [e], after)
  {
    assert (entries + [e])[..|entries|] == entries;
    assert Kept(entries, after) + [] == Kept(entries, after);
  }

  /** Sorting what the heap holds gives the first CAP themselves. */
  lemma SortedHeap(items: seq<Item>, entries: seq<DirEntry>, after: string)
    requires Directory(entries) && HoldsFirst(items, entries, after)
    ensures Sort(items) == First(Sorted(entries, after), CAP)
  {
    var first := First(Sorted(entries, after), CAP);
    KeptDistinct(entries, after);
    SortAscending(Kept(entries, after));
    AscendingKeys(first, items);
    SortAscending(items);
    SortHas(items);
    forall x ensures x in Sort(items) <==> x in first {
      assert x in Sort(items) <==> x in multiset(Sort(items));
      assert x in first <==> x in multiset(first);
    }
    AscendingUnique(Sort(items), first);
  }

  lemma AscendingKeys(s: seq<Item>, items: seq<Item>)
    requires Ascending(s) && multiset(items) == multiset(s)
    ensures DistinctKeys(items)
  {
    forall i, j | 0 <= i < j < |items| ensures items[i].key != items[j].key {
      assert items[i] in multiset(s) && items[j] in multiset(s);
      var a :| 0 <= a < |s| && s[a] == items[i];
      var b :| 0 <= b < |s| && s[b] == items[j];
      LessTotal(s[a].key, s[b].key);
      if a == b {
        Twice(items, i, j);
        Once(s, a);
      }
    }
  }

  lemma Twice(items: seq<Item>, i: nat, j: nat)
    requires i < j < |items| && items[i] == items[j]
    ensures multiset(items)[items[i]] >= 2
  {
    assert items == items[..i] + [items[i]] + items[i + 1..j] + [items[j]] + items[j + 1..];
  }

  lemma Once(s: seq<Item>, a: nat)
    requires Ascending(s) && a < |s|
    ensures multiset(s)[s[a]] == 1
  {
    LessTotal(s[a].key, s[a].key);
    assert s == s[..a] + [s[a]] + s[a + 1..];
    assert s[a] !in s[..a] && s[a] !in s[a + 1..];
  }

  // ----- pages join up

  /** Going on from the k-th key continues right after the k-th entry. */
  lemma ContinuesAfter(entries: seq<DirEntry>, after: string, k: nat)
    requires Directory(entries) && k < |Sorted(entries, after)|
    ensures Sorted(entries, Sorted(entries, after)[k].key) == Sorted(entries, after)[k + 1..]
  {
    var s := Sorted(entries, after);
    var t := Sorted(entries, s[k].key);
    KeptDistinct(entries, after);
    SortAscending(Kept(entries, after));
    KeptDistinct(entries, s[k].key);
    SortAscending(Kept(entries, s[k].key));
    SortedWhich(entries, after, s[k]);
    forall x ensures x in t <==> x in s[k + 1..] {
      SortedWhich(entries, after, x);
      SortedWhich(entries, s[k].key, x);
      if x in s {
        var i :| 0 <= i < |s| && s[i] == x;
        LessTotal(s[i].key, s[k].key);
        if i > k {
          assert s[k + 1..][i - k - 1] == x;
        }
      }
      if x in t {
        LessTrans(after, s[k].key, x.key);
      }
    }
    AscendingUnique(t, s[k + 1..]);
  }

  /** Following cursors from one page to the next until there is none. */
  ghost function Followed(entries: seq<DirEntry>, after: string): seq<Item>
    requires Directory(entries)
    decreases |Sorted(entries, after)|
  {
    var all := Sorted(entries, after);
    if |all| <= MAX_LIST_ITEMS then all
    else
      var last := all[MAX_LIST_ITEMS - 1].key;
      ContinuesAfter(entries, after, MAX_LIST_ITEMS - 1);
      First(all, MAX_LIST_ITEMS) + Followed(entries, last)
  }

  /** The pages of an unchanged directory are finitely many and together list every entry once, in order. */
  lemma {:induction false} PagesJoin(entries: seq<DirEntry>, after: string)
    requires Directory(entries)
    ensures Followed(entries, after) == Sorted(entries, after)
    decreases |Sorted(entries, after)|
  {
    var all := Sorted(entries, after);
    if |all| > MAX_LIST_ITEMS {
      ContinuesAfter(entries, after, MAX_LIST_ITEMS - 1);
      PagesJoin(entries, all[MAX_LIST_ITEMS - 1].key);
      assert all == all[..MAX_LIST_ITEMS] + all[MAX_LIST_ITEMS..];
    }
  }
}
