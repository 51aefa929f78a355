/** The login limiter: one counting bucket per key, a minute long from its first attempt. */
module Limiter {
  import opened Sets

  /** time.Minute in nanoseconds. */
  const MINUTE := 60_000_000_000
  const TABLE := 4096

  datatype Bucket = Bucket(start: nat, attempts: nat)

  type Table = map<string, Bucket>

  datatype Attempt = Attempt(key: string, limit: nat, now: nat)

  /** One admission of a key: when, and the start of the bucket that counted it. */
  datatype Admission = Admission(time: nat, start: nat)

  function Swept(b: Table, now: nat): Table {
    map k <- b | b[k].start + MINUTE > now :: b[k]
  }

  function Found(b: Table, a: Attempt): Bucket {
    if a.key in Swept(b, a.now) then Swept(b, a.now)[a.key] else Bucket(a.now, 0)
  }

  predicate Admits(b: Table, a: Attempt) {
    && (a.key in Swept(b, a.now) || |Swept(b, a.now)| < TABLE)
    && Found(b, a).attempts < a.limit
  }

  function After(b: Table, a: Attempt): Table {
    if Admits(b, a) then Swept(b, a.now)[a.key := Found(b, a).(attempts := Found(b, a).attempts + 1)]
    else Swept(b, a.now)
  }

  class Gate {
    var buckets: Table

    constructor ()
      ensures buckets == map[]
    {
      buckets := map[];
    }

    /** allowLoginKeyLocked */
    method Allow(key: string, limit: nat, now: nat) returns (ok: bool)
      modifies this
      ensures buckets == After(old(buckets), Attempt(key, limit, now))
      ensures ok == Admits(old(buckets), Attempt(key, limit, now))
      ensures
        var live := map k <- old(buckets) | now < old(buckets)[k].start + 60_000_000_000 :: old(buckets)[k];
        ok <==> if key in live then live[key].attempts < limit else |live| < 4096 && limit > 0
    {
      var rest := buckets.Keys;
      while rest != {}
        invariant rest <= old(buckets).Keys
        invariant forall k <- buckets :: k in old(buckets) && buckets[k] == old(buckets)[k]
        invariant forall k <- old(buckets) :: k in buckets <==> k in rest || old(buckets)[k].start + MINUTE > now
        decreases rest
      {
        var k :| k in rest;
        if now - buckets[k].start >= MINUTE {
          buckets := buckets - {k};
        }
        rest := rest - {k};
      }
      assert buckets == Swept(old(buckets), now);
      assert buckets == map k <- old(buckets) | now < old(buckets)[k].start + 60_000_000_000 :: old(buckets)[k];
      var b := Bucket(now, 0);
      if key in buckets {
        b := buckets[key];
      } else if |buckets| >= TABLE {
        return false;
      }
      if b.attempts >= limit {
        return false;
      }
      buckets := buckets[key := b.(attempts := b.attempts + 1)];
      return true;
    }
  }

  // ----- what a run admits

  /** The admissions of one key over a run of attempts from an empty table, with the table the run ends in. */
  function Admitted(tries: seq<Attempt>, key: string): seq<Admission> {
    if tries == [] then []
    else
      var last, before := tries[|tries| - 1], tries[..|tries| - 1];
      if last.key == key && Admits(TableAfter(before), last)
      then Admitted(before, key) + [Admission(last.now, Found(TableAfter(before), last).start)]
      else Admitted(before, key)
  }

  function TableAfter(tries: seq<Attempt>): Table {
    if tries == [] then map[] else After(TableAfter(tries[..|tries| - 1]), tries[|tries| - 1])
  }

  function InBucket(h: seq<Admission>, start: nat): nat {
    if h == [] then 0 else InBucket(h[..|h| - 1], start) + if h[|h| - 1].start == start then 1 else 0
  }

  predicate Within(t: nat, from: nat) {
    from <= t < from + MINUTE
  }

  function InWindow(h: seq<Admission>, from: nat): nat {
    if h == [] then 0 else InWindow(h[..|h| - 1], from) + if Within(h[|h| - 1].time, from) then 1 else 0
  }

  predicate InOrder(tries: seq<Attempt>) {
    forall i, j :: 0 <= i < j < |tries| ==> tries[i].now <= tries[j].now
  }

  predicate Limited(tries: seq<Attempt>, key: string, limit: nat) {
    forall a <- tries :: a.key == key ==> a.limit <= limit
  }

  /** Buckets are a minute long, a minute apart, opened by an admission, and hold at most the limit. */
  ghost predicate Orderly(h: seq<Admission>, limit: nat) {
    && (forall a <- h :: a.start <= a.time < a.start + MINUTE)
    && (forall a <- h :: forall b <- h :: a.start == b.start || Apart(a, b))
    && (forall a <- h :: Admission(a.start, a.start) in h)
    && forall a <- h :: InBucket(h, a.start) <= limit
  }

  predicate Apart(a: Admission, b: Admission) {
    a.start + MINUTE <= b.start || b.start + MINUTE <= a.start
  }

  /** What the table knows about the key's history at a moment. */
  ghost predicate Tracks(b: Table, key: string, h: seq<Admission>, now: nat) {
    && (forall k <- b :: b[k].start <= now)
    && (key in b ==> b[key].attempts == InBucket(h, b[key].start) > 0)
    && (key in b ==> forall a <- h :: a.start == b[key].start || a.start + MINUTE <= b[key].start)
    && (key !in b ==> forall a <- h :: a.start + MINUTE <= now)
    && |b| <= TABLE
  }

  lemma CountSnoc(h: seq<Admission>, a: Admission, start: nat)
    ensures InBucket(h + [a], start) == InBucket(h, start) + if a.start == start then 1 else 0
  {
    assert (h + [a])[..|h|] == h;
  }

  lemma {:induction false} NoneInBucket(h: seq<Admission>, start: nat)
    requires forall a <- h :: a.start != start
    ensures InBucket(h, start) == 0
  {
    if h != [] {
      assert h[|h| - 1] in h;
      NoneInBucket(h[..|h| - 1], start);
    }
  }

  lemma {:induction false} SomeInBucket(h: seq<Admission>, start: nat)
    requires InBucket(h, start) > 0
    ensures exists a <- h :: a.start == start
  {
    if h[|h| - 1].start == start {
      assert h[|h| - 1] in h;
    } else {
      SomeInBucket(h[..|h| - 1], start);
      var a :| a in h[..|h| - 1] && a.start == start;
      assert a in h;
    }
  }

  lemma SweepTracks(b: Table, key: string, h: seq<Admission>, earlier: nat, now: nat)
    requires Tracks(b, key, h, earlier) && earlier <= now
    ensures Tracks(Swept(b, now), key, h, now)
  {
    assert Swept(b, now).Keys <= b.Keys;
    SubsetSize(Swept(b, now).Keys, b.Keys);
  }

  /** An admission joins its key's bucket, or opens one after every earlier bucket has run out. */
  lemma AdmissionOrderly(h: seq<Admission>, start: nat, now: nat, limit: nat)
    requires Orderly(h, limit) && start <= now < start + MINUTE && InBucket(h, start) < limit
    requires forall a <- h :: a.start == start || a.start + MINUTE <= start
    requires start == now || InBucket(h, start) > 0
    ensures Orderly(h + [Admission(now, start)], limit)
  {
    hide InBucket;
    var h', x := h + [Admission(now, start)], Admission(now, start);
    if InBucket(h, start) > 0 {
      SomeInBucket(h, start);
    }
    forall a, b | a in h' && b in h' ensures a.start == b.start || Apart(a, b) {
      if a in h && b in h {
      } else if a in h {
        assert b == x && (a.start == start || a.start + MINUTE <= start);
      } else if b in h {
        assert a == x && (b.start == start || b.start + MINUTE <= start);
      }
    }
    forall a | a in h' ensures InBucket(h', a.start) <= limit && Admission(a.start, a.start) in h' {
      CountSnoc(h, x, a.start);
      if a in h {
        assert Admission(a.start, a.start) in h;
      }
    }
  }

  lemma Step(b: Table, key: string, h: seq<Admission>, a: Attempt, earlier: nat, limit: nat)
    requires Tracks(b, key, h, earlier) && Orderly(h, limit) && earlier <= a.now && (a.key == key ==> a.limit <= limit)
    ensures
      var h' := if a.key == key && Admits(b, a) then h + [Admission(a.now, Found(b, a).start)] else h;
      Tracks(After(b, a), key, h', a.now) && Orderly(h', limit)
  {
    hide Orderly;
    SweepTracks(b, key, h, earlier, a.now);
    var s, start := Swept(b, a.now), Found(b, a).start;
    if Admits(b, a) {
      assert After(b, a).Keys == s.Keys + {a.key};
      if a.key == key {
        if key !in s {
          NoneInBucket(h, a.now);
        }
        AdmissionOrderly(h, start, a.now, limit);
        CountSnoc(h, Admission(a.now, start), start);
      }
    }
  }

  lemma {:induction false} RunTracks(tries: seq<Attempt>, key: string, limit: nat)
    requires InOrder(tries) && Limited(tries, key, limit)
    ensures Tracks(TableAfter(tries), key, Admitted(tries, key), if tries == [] then 0 else tries[|tries| - 1].now)
    ensures Orderly(Admitted(tries, key), limit)
  {
    hide Tracks, Orderly;
    if tries == [] {
      Empty(key, limit);
    } else {
      var before := tries[..|tries| - 1];
      assert tries[|tries| - 1] in tries && forall a <- before :: a in tries;
      RunTracks(before, key, limit);
      Step(TableAfter(before), key, Admitted(before, key), tries[|tries| - 1],
           if before == [] then 0 else before[|before| - 1].now, limit);
    }
  }

  lemma Empty(key: string, limit: nat)
    ensures Tracks(map[], key, [], 0) && Orderly([], limit)
  {
  }

  /** The admissions of a bucket inside a window that starts after the bucket did: the opening one is not among them. */
  function InBoth(h: seq<Admission>, start: nat, from: nat): nat {
    if h == [] then 0
    else
      var a := h[|h| - 1];
      InBoth(h[..|h| - 1], start, from) + if a.start == start && Within(a.time, from) then 1 else 0
  }

  lemma {:induction false} OpenerOutside(h: seq<Admission>, start: nat, from: nat)
    ensures InBoth(h, start, from) <= InBucket(h, start)
    ensures start < from && Admission(start, start) in h ==> InBoth(h, start, from) < InBucket(h, start)
  {
    if h != [] {
      OpenerOutside(h[..|h| - 1], start, from);
      if Admission(start, start) in h && h[|h| - 1] != Admission(start, start) {
        assert Admission(start, start) in h[..|h| - 1];
      }
    }
  }

  lemma {:induction false} TwoBuckets(h: seq<Admission>, s1: nat, s2: nat, from: nat)
    requires forall a <- h :: Within(a.time, from) ==> a.start == s1 || a.start == s2
    ensures InWindow(h, from) <= InBoth(h, s1, from) + if s1 == s2 then 0 else InBoth(h, s2, from)
  {
    if h != [] {
      assert h[|h| - 1] in h && forall a <- h[..|h| - 1] :: a in h;
      TwoBuckets(h[..|h| - 1], s1, s2, from);
    }
  }

  lemma {:induction false} NoneInWindow(h: seq<Admission>, from: nat)
    requires forall a <- h :: !Within(a.time, from)
    ensures InWindow(h, from) == 0
  {
    if h != [] {
      assert h[|h| - 1] in h && forall a <- h[..|h| - 1] :: a in h;
      NoneInWindow(h[..|h| - 1], from);
    }
  }

  /** In any minute a key is admitted at most twice its limit, less the attempt that opened the earlier bucket; each
      bucket admits at most the limit, and the table never passes its bound. */
  lemma WindowBound(tries: seq<Attempt>, key: string, limit: nat, from: nat)
    requires InOrder(tries) && Limited(tries, key, limit)
    ensures InWindow(Admitted(tries, key), from) <= if limit == 0 then 0 else 2 * limit - 1
    ensures forall a <- Admitted(tries, key) :: InBucket(Admitted(tries, key), a.start) <= limit
    ensures |TableAfter(tries)| <= TABLE
  {
    RunTracks(tries, key, limit);
    var h := Admitted(tries, key);
    if a :| a in h && Within(a.time, from) {
      WindowOf(h, a, limit, from);
    } else {
      NoneInWindow(h, from);
    }
  }

  lemma WindowOf(h: seq<Admission>, a: Admission, limit: nat, from: nat)
    requires Orderly(h, limit) && a in h && Within(a.time, from)
    ensures limit > 0 && InWindow(h, from) <= 2 * limit - 1
  {
    var s1 := a.start;
    OpenerOutside(h, s1, from);
    CountsSelf(h, a);
    if b :| b in h && Within(b.time, from) && b.start != s1 {
      assert Apart(a, b);
      OpenerOutside(h, b.start, from);
      forall c | c in h && Within(c.time, from) ensures c.start == s1 || c.start == b.start {
        assert c.start == s1 || Apart(c, a);
        assert c.start == b.start || Apart(c, b);
      }
      TwoBuckets(h, s1, b.start, from);
      assert Admission(s1, s1) in h && Admission(b.start, b.start) in h;
    } else {
      TwoBuckets(h, s1, s1, from);
    }
  }

  lemma {:induction false} CountsSelf(h: seq<Admission>, a: Admission)
    requires a in h
    ensures InBucket(h, a.start) > 0
  {
    if h[|h| - 1] != a {
      assert a in h[..|h| - 1];
      CountsSelf(h[..|h| - 1], a);
    }
  }

  /** n attempts under one limit at one moment. */
  function Burst(key: string, limit: nat, now: nat, n: nat): (tries: seq<Attempt>)
    ensures |tries| == n && forall i :: 0 <= i < n ==> tries[i] == Attempt(key, limit, now)
  {
    if n == 0 then [] else Burst(key, limit, now, n - 1) + [Attempt(key, limit, now)]
  }

  /** One attempt opens a bucket, the rest of its limit comes as the minute ends, and a whole new bucket right after. */
  function Worst(key: string, limit: nat): (tries: seq<Attempt>)
    requires limit > 0
    ensures InOrder(tries) && Limited(tries, key, limit)
  {
    Burst(key, limit, 0, 1) + Burst(key, limit, MINUTE - 1, limit - 1) + Burst(key, limit, MINUTE, limit)
  }

  /** The bound is reached for every limit: 2 * limit - 1 admissions within a minute. */
  lemma BoundIsReached(key: string, limit: nat)
    requires limit > 0
    ensures InOrder(Worst(key, limit)) && Limited(Worst(key, limit), key, limit)
    ensures InWindow(Admitted(Worst(key, limit), key), MINUTE - 1) == 2 * limit - 1
  {
    hide TableAfter, Admitted, InWindow;
    var from, a := MINUTE - 1, Attempt(key, limit, MINUTE);
    var one := Burst(key, limit, 0, 1);
    var full := one + Burst(key, limit, from, limit - 1);
    FirstAttempt(key, limit, from);
    Fill(one, key, limit, from, 0, 1, limit - 1, from);
    Snoc(full, a, key);
    assert TableAfter(full + [a]) == map[key := Bucket(MINUTE, 1)];
    WindowSnoc(Admitted(full, key), Admission(MINUTE, MINUTE), from);
    Fill(full + [a], key, limit, MINUTE, MINUTE, 1, limit - 1, from);
    OneMore(key, limit);
    assert full + [a] + Burst(key, limit, MINUTE, limit - 1) == full + ([a] + Burst(key, limit, MINUTE, limit - 1));
  }

  lemma FirstAttempt(key: string, limit: nat, from: nat)
    requires limit > 0 && from > 0
    ensures TableAfter(Burst(key, limit, 0, 1)) == map[key := Bucket(0, 1)]
    ensures InWindow(Admitted(Burst(key, limit, 0, 1), key), from) == 0
  {
    hide TableAfter, Admitted, InWindow;
    var a := Attempt(key, limit, 0);
    NoAttempts(key, from);
    Snoc([], a, key);
    assert [] + [a] == Burst(key, limit, 0, 1);
    WindowSnoc([], Admission(0, 0), from);
  }

  lemma NoAttempts(key: string, from: nat)
    ensures TableAfter([]) == map[] && Admitted([], key) == [] && InWindow([], from) == 0
  {
  }

  /** The order of equal attempts does not matter. */
  lemma OneMore(key: string, limit: nat)
    requires limit > 0
    ensures [Attempt(key, limit, MINUTE)] + Burst(key, limit, MINUTE, limit - 1) == Burst(key, limit, MINUTE, limit)
  {
    hide Burst;
  }

  /** As long as the bucket has room every attempt of a burst is admitted into it. */
  lemma {:induction false} Fill(before: seq<Attempt>, key: string, limit: nat, now: nat, start: nat, c: nat, n: nat,
                                from: nat)
    requires TableAfter(before) == map[key := Bucket(start, c)] && start <= now < start + MINUTE && c + n <= limit
    ensures TableAfter(before + Burst(key, limit, now, n)) == map[key := Bucket(start, c + n)]
    ensures InWindow(Admitted(before + Burst(key, limit, now, n), key), from)
            == InWindow(Admitted(before, key), from) + if Within(now, from) then n else 0
  {
    hide TableAfter, Admitted, InWindow;
    if n == 0 {
      assert before + [] == before;
    } else {
      var most := before + Burst(key, limit, now, n - 1);
      var a := Attempt(key, limit, now);
      Fill(before, key, limit, now, start, c, n - 1, from);
      assert before + Burst(key, limit, now, n) == most + [a];
      Snoc(most, a, key);
      WindowSnoc(Admitted(most, key), Admission(now, start), from);
    }
  }

  lemma Snoc(before: seq<Attempt>, a: Attempt, key: string)
    ensures TableAfter(before + [a]) == After(TableAfter(before), a)
    ensures Admitted(before + [a], key) == Admitted(before, key) +
      if a.key == key && Admits(TableAfter(before), a) then [Admission(a.now, Found(TableAfter(before), a).start)]
      else []
  {
    assert (before + [a])[..|before|] == before;
  }

  lemma WindowSnoc(h: seq<Admission>, a: Admission, from: nat)
    ensures InWindow(h + [a], from) == InWindow(h, from) + if Within(a.time, from) then 1 else 0
  {
    assert (h + [a])[..|h|] == h;
  }
}
