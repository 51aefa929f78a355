/**
 Paged directory listing: one scan keeps the smallest keys above the cursor in a bounded max-heap.
 The heap is container/heap over listingHeap, whose root is the largest key kept.
 */
module Listing {
  import opened Options
  import opened GoText

  const MAX_LIST_ITEMS := 2000
  const MAX_SCANNED := 1_000_000

  // ----- keys

  /** readable is false for an entry whose Info fails because it vanished during the scan. */
  datatype DirEntry = DirEntry(name: string, dir: bool, readable: bool)

  datatype Item = Item(key: string, entry: DirEntry)

  function Key(e: DirEntry): string {
    (if e.dir then "0:" else "1:") + Lower(e.name) + "\0" + e.name
  }

  function ItemOf(e: DirEntry): Item {
    Item(Key(e), e)
  }

  /** One directory: names are distinct and no name holds a NUL. */
  predicate Directory(entries: seq<DirEntry>) {
    && (forall e <- entries :: '\0' !in e.name)
    && forall i, j :: 0 <= i < j < |entries| ==> entries[i].name != entries[j].name
  }

  lemma {:induction false} FirstNul(a: string, x: string, b: string, y: string)
    requires '\0' !in a && '\0' !in b && a + "\0" + x == b + "\0" + y
    ensures a == b && x == y
  {
    var s := a + "\0" + x;
    assert s[0] == if a == "" then '\0' else a[0];
    assert s[0] == if b == "" then '\0' else b[0];
    if a == "" {
      assert b == "";
      assert x == s[1..] && y == s[1..];
    } else {
      assert s[1..] == a[1..] + "\0" + x && s[1..] == b[1..] + "\0" + y;
      FirstNul(a[1..], x, b[1..], y);
    }
  }

  lemma KeyInjective(a: DirEntry, b: DirEntry)
    requires '\0' !in a.name && '\0' !in b.name && Key(a) == Key(b)
    ensures a.name == b.name
  {
    assert Key(a)[2..] == Lower(a.name) + "\0" + a.name;
    assert Key(b)[2..] == Lower(b.name) + "\0" + b.name;
    FirstNul(Lower(a.name), a.name, Lower(b.name), b.name);
  }

  // ----- the heap

  function Swap(s: seq<Item>, i: nat, j: nat): seq<Item>
    requires i < |s| && j < |s|
  {
    s[i := s[j]][j := s[i]]
  }

  lemma SwapKeeps(s: seq<Item>, i: nat, j: nat)
    requires i < |s| && j < |s|
    ensures multiset(Swap(s, i, j)) == multiset(s)
  {
  }

  function Parent(k: nat): nat
    requires k > 0
  {
    (k - 1) / 2
  }

  /** Element k is not above its parent. */
  predicate Link(s: seq<Item>, k: nat)
    requires 1 <= k < |s|
  {
    Le(s[k].key, s[Parent(k)].key)
  }

  predicate IsHeap(s: seq<Item>, n: nat)
    requires n <= |s|
  {
    forall k :: 1 <= k < n ==> Link(s, k)
  }

  /** A heap but for the link above j; what hangs below j fits below j's parent. */
  predicate HoleAbove(s: seq<Item>, j: nat)
    requires j < |s|
  {
    && (forall k :: 1 <= k < |s| && k != j ==> Link(s, k))
    && (j > 0 ==> forall k :: 1 <= k < |s| && Parent(k) == j ==> Le(s[k].key, s[Parent(j)].key))
  }

  lemma UpStep(s: seq<Item>, j: nat)
    requires 0 < j < |s| && HoleAbove(s, j) && Less(s[Parent(j)].key, s[j].key)
    ensures HoleAbove(Swap(s, Parent(j), j), Parent(j))
  {
    var i := Parent(j);
    var t := Swap(s, i, j);
    LessTotal(s[i].key, s[j].key);
    forall k | 1 <= k < |s| && k != i ensures Link(t, k) {
      if Parent(k) == i && k != j {
        assert Link(s, k);
        LeTrans(s[k].key, s[i].key, s[j].key);
      } else if k != j {
        assert Link(s, k);
      }
    }
    if i > 0 {
      assert Link(s, i);
      forall k | 1 <= k < |s| && Parent(k) == i ensures Le(t[k].key, t[Parent(i)].key) {
        if k != j {
          assert Link(s, k);
          LeTrans(s[k].key, s[i].key, s[Parent(i)].key);
        }
      }
    }
  }

  /** A heap of the first n but for the links below i. */
  predicate HoleBelow(s: seq<Item>, n: nat, i: nat)
    requires n <= |s|
  {
    && (forall k :: 1 <= k < n && Parent(k) != i ==> Link(s, k))
    && (0 < i < n ==> forall k :: 1 <= k < n && Parent(k) == i ==> Le(s[k].key, s[Parent(i)].key))
  }

  /** The child the sift goes down to is the larger one. */
  predicate LargerChild(s: seq<Item>, n: nat, i: nat, j: nat)
    requires n <= |s|
  {
    1 <= j < n && Parent(j) == i && forall k :: 1 <= k < n && Parent(k) == i ==> Le(s[k].key, s[j].key)
  }

  function ChildToSink(s: seq<Item>, n: nat, i: nat): (j: nat)
    requires n <= |s| && 2 * i + 1 < n
    ensures LargerChild(s, n, i, j)
  {
    var j1 := 2 * i + 1;
    LessTotal(s[j1].key, s[j1].key);
    if j1 + 1 < n && Less(s[j1].key, s[j1 + 1].key) then
      LessTotal(s[j1].key, s[j1 + 1].key);
      LessTotal(s[j1 + 1].key, s[j1 + 1].key);
      j1 + 1
    else j1
  }

  lemma DownStep(s: seq<Item>, n: nat, i: nat, j: nat)
    requires n <= |s| && i < n && HoleBelow(s, n, i) && LargerChild(s, n, i, j) && Less(s[i].key, s[j].key)
    ensures HoleBelow(Swap(s, i, j), n, j)
  {
    var t := Swap(s, i, j);
    LessTotal(s[i].key, s[j].key);
    forall k | 1 <= k < n && Parent(k) != j ensures Link(t, k) {
      if Parent(k) != i {
        assert Link(s, k);
      }
    }
    forall k | 1 <= k < n && Parent(k) == j ensures Le(t[k].key, t[Parent(j)].key) {
      assert Link(s, k);
    }
  }

  lemma DownStops(s: seq<Item>, n: nat, i: nat, j: nat)
    requires n <= |s| && i < n && HoleBelow(s, n, i) && LargerChild(s, n, i, j) && Le(s[j].key, s[i].key)
    ensures IsHeap(s, n)
  {
    forall k | 1 <= k < n ensures Link(s, k) {
      if Parent(k) == i {
        LeTrans(s[k].key, s[j].key, s[i].key);
      }
    }
  }

  lemma PushHole(s: seq<Item>, x: Item)
    requires IsHeap(s, |s|)
    ensures HoleAbove(s + [x], |s|)
  {
    forall k | 1 <= k < |s| ensures Link(s + [x], k) {
      assert Link(s, k);
    }
  }

  lemma RootOut(s: seq<Item>)
    requires s != [] && IsHeap(s, |s|)
    ensures HoleBelow(Swap(s, 0, |s| - 1), |s| - 1, 0)
  {
    forall k | 1 <= k < |s| - 1 && Parent(k) != 0 ensures Link(Swap(s, 0, |s| - 1), k) {
      assert Link(s, k);
    }
  }

  lemma HeapPrefix(s: seq<Item>, n: nat)
    requires n <= |s| && IsHeap(s, n)
    ensures IsHeap(s[..n], n)
  {
    forall k | 1 <= k < n ensures Link(s[..n], k) {
      assert Link(s, k);
    }
  }

  lemma NoChildren(s: seq<Item>, n: nat, i: nat)
    requires n <= |s| && HoleBelow(s, n, i) && n <= 2 * i + 1
    ensures IsHeap(s, n)
  {
  }

  lemma {:induction false} RootIsLargest(s: seq<Item>, k: nat)
    requires IsHeap(s, |s|) && k < |s|
    ensures Le(s[k].key, s[0].key)
  {
    LessTotal(s[0].key, s[0].key);
    if k > 0 {
      RootIsLargest(s, Parent(k));
      assert Link(s, k);
      LeTrans(s[k].key, s[Parent(k)].key, s[0].key);
    }
  }

  class MaxHeap {
    var items: seq<Item>

    ghost predicate Valid()
      reads this
    {
      IsHeap(items, |items|)
    }

    constructor ()
      ensures Valid() && items == []
    {
      items := [];
    }

    /** heap.Push */
    method Push(x: Item)
      requires Valid()
      modifies this
      ensures Valid() && multiset(items) == multiset(old(items)) + multiset{x}
    {
      PushHole(items, x);
      items := items + [x];
      var j := |items| - 1;
      while j > 0 && Less(items[Parent(j)].key, items[j].key)
        invariant 0 <= j < |items|
        invariant multiset(items) == multiset(old(items)) + multiset{x}
        invariant HoleAbove(items, j)
        decreases j
      {
        UpStep(items, j);
        SwapKeeps(items, Parent(j), j);
        items := Swap(items, Parent(j), j);
        j := Parent(j);
      }
    }

    /** heap.Pop takes the root away. */
    method Pop() returns (x: Item)
      requires Valid() && items != []
      modifies this
      ensures Valid() && x == old(items)[0]
      ensures multiset(items) + multiset{x} == multiset(old(items))
    {
      var n := |items| - 1;
      SwapKeeps(items, 0, n);
      RootOut(items);
      items := Swap(items, 0, n);
      Down(n);
      x := items[n];
      assert items == items[..n] + [items[n]];
      HeapPrefix(items, n);
      items := items[..n];
    }

    method Down(n: nat)
      requires |items| == n + 1 && HoleBelow(items, n, 0)
      modifies this
      ensures |items| == n + 1 && IsHeap(items, n) && items[n] == old(items)[n]
      ensures multiset(items) == multiset(old(items))
    {
      var i := 0;
      while 2 * i + 1 < n
        invariant 0 <= i && |items| == n + 1 && items[n] == old(items)[n]
        invariant multiset(items) == multiset(old(items))
        invariant HoleBelow(items, n, i)
        decreases n - i
      {
        var j := ChildToSink(items, n, i);
        if !Less(items[i].key, items[j].key) {
          DownStops(items, n, i, j);
          return;
        }
        DownStep(items, n, i, j);
        SwapKeeps(items, i, j);
        items := Swap(items, i, j);
        i := j;
      }
      NoChildren(items, n, i);
    }
  }
}
