/** The handful of Go string and number routines the properties code is written with. */
module GoText {
  import opened Options

  const FORM_FEED: char := '\U{0C}'
  const MAX_INT: int := 0x7FFF_FFFF_FFFF_FFFF

  /** unicode.IsSpace */
  predicate IsSpace(c: char) {
    '\t' <= c <= '\r' || c == ' ' || c == '\U{85}' || c == '\U{A0}' || c == '\U{1680}'
    || '\U{2000}' <= c <= '\U{200A}' || c == '\U{2028}' || c == '\U{2029}' || c == '\U{202F}'
    || c == '\U{205F}' || c == '\U{3000}'
  }

  /** The cut set " \t\f" the properties reader trims with. */
  predicate IsBlank(c: char) {
    c == ' ' || c == '\t' || c == FORM_FEED
  }

  /** strings.ToLower on ASCII letters; other characters keep their case. */
  function Lower(s: string): (r: string)
    ensures |r| == |s|
    ensures '\0' !in s ==> '\0' !in r
  {
    if s == "" then ""
    else [if 'A' <= s[0] <= 'Z' then (s[0] as int + 32) as char else s[0]] + Lower(s[1..])
  }

  /** Character by character: 'A' to 'Z' move up by 32, everything else stays. */
  lemma {:induction false} LowerAt(s: string, i: nat)
    requires i < |s|
    ensures Lower(s)[i] == if 'A' <= s[i] <= 'Z' then (s[i] as int + 32) as char else s[i]
  {
    if i > 0 {
      LowerAt(s[1..], i - 1);
    }
  }

  function TrimLeftBlank(s: string): (r: string)
    ensures |r| <= |s| && r == s[|s| - |r|..]
    ensures r != "" ==> !IsBlank(r[0])
    ensures forall i :: 0 <= i < |s| - |r| ==> IsBlank(s[i])
  {
    if s != "" && IsBlank(s[0]) then TrimLeftBlank(s[1..]) else s
  }

  function TrimLeft(s: string): (r: string)
    ensures |r| <= |s| && r == s[|s| - |r|..]
    ensures r != "" ==> !IsSpace(r[0])
    ensures forall i :: 0 <= i < |s| - |r| ==> IsSpace(s[i])
  {
    if s != "" && IsSpace(s[0]) then TrimLeft(s[1..]) else s
  }

  function TrimRight(s: string): (r: string)
    ensures |r| <= |s| && r == s[..|r|]
    ensures r != "" ==> !IsSpace(r[|r| - 1])
    ensures forall i :: |r| <= i < |s| ==> IsSpace(s[i])
  {
    if s != "" && IsSpace(s[|s| - 1]) then TrimRight(s[..|s| - 1]) else s
  }

  /** strings.TrimSpace */
  function TrimSpace(s: string): string {
    TrimRight(TrimLeft(s))
  }

  /** strings.TrimSuffix(s, "\r") */
  function TrimReturn(s: string): string {
    if s != "" && s[|s| - 1] == '\r' then s[..|s| - 1] else s
  }

  /** Position of the first c, or |s| when there is none. */
  function IndexOf(s: string, c: char): (i: nat)
    ensures i <= |s|
    ensures forall j :: 0 <= j < i ==> s[j] != c
    ensures i < |s| ==> s[i] == c
  {
    if s == "" || s[0] == c then 0
    else 1 + IndexOf(s[1..], c)
  }

  /** strings.Cut with a one-character separator. */
  function Cut(s: string, c: char): (r: Option<(string, string)>)
    ensures r.None? <==> c !in s
    ensures r.Some? ==> c !in r.value.0 && s == r.value.0 + [c] + r.value.1
  {
    var i := IndexOf(s, c);
    if i == |s| then
      assert s[..i] == s;
      None
    else Some((s[..i], s[i + 1..]))
  }

  /** strings.Split with a one-character separator: never empty, no part holds the separator. */
  function Split(s: string, c: char): (parts: seq<string>)
    ensures parts != []
    ensures forall p <- parts :: c !in p
    decreases |s|
  {
    var i := IndexOf(s, c);
    if i == |s| then
      assert s[..i] == s;
      [s]
    else [s[..i]] + Split(s[i + 1..], c)
  }

  lemma FirstIndex(p: string, c: char, rest: string)
    requires c !in p
    ensures IndexOf(p + [c] + rest, c) == |p|
  {
    var s := p + [c] + rest;
    assert s[|p|] == c;
    assert forall j :: 0 <= j < |p| ==> s[j] == p[j];
  }

  lemma {:induction false} SplitFirst(p: string, c: char, rest: string)
    requires c !in p
    ensures Split(p + [c] + rest, c) == [p] + Split(rest, c)
  {
    var s := p + [c] + rest;
    FirstIndex(p, c, rest);
    assert s[..|p|] == p && s[|p| + 1..] == rest;
  }

  /** strings.Join with a one-character separator. */
  function Join(parts: seq<string>, c: char): string {
    if parts == [] then "" else if |parts| == 1 then parts[0] else parts[0] + [c] + Join(parts[1..], c)
  }

  lemma {:induction false} SplitJoin(parts: seq<string>, c: char)
    requires parts != [] && forall p <- parts :: c !in p
    ensures Split(Join(parts, c), c) == parts
  {
    assert c !in parts[0];
    if |parts| == 1 {
      assert IndexOf(parts[0], c) == |parts[0]|;
    } else {
      SplitJoin(parts[1..], c);
      SplitFirst(parts[0], c, Join(parts[1..], c));
    }
  }

  lemma {:induction false} JoinSnoc(parts: seq<string>, last: string, c: char)
    requires parts != []
    ensures Join(parts + [last], c) == Join(parts, c) + [c] + last
  {
    if |parts| == 1 {
      assert (parts + [last])[1..] == [last];
    } else {
      JoinSnoc(parts[1..], last, c);
      assert (parts + [last])[1..] == parts[1..] + [last];
    }
  }

  predicate IsDigit(c: char) {
    '0' <= c <= '9'
  }

  function Digit(c: char): nat
    requires IsDigit(c)
  {
    c as int - '0' as int
  }

  function Digits(s: string): nat
    requires forall c <- s :: IsDigit(c)
  {
    if s == "" then 0
    else 10 * Digits(s[..|s| - 1]) + Digit(s[|s| - 1])
  }

  /** strconv.Atoi on a 64-bit machine; None is its error. */
  function ParseInt(s: string): Option<int> {
    var negative := s != "" && s[0] == '-';
    var body := if s != "" && (s[0] == '-' || s[0] == '+') then s[1..] else s;
    if body == "" || exists c <- body :: !IsDigit(c) then None
    else
      var n: int := Digits(body);
      if negative then (if n <= MAX_INT + 1 then Some(-n) else None)
      else if n <= MAX_INT then Some(n) else None
  }

  /** The panel's own atoi: trimmed, and 0 for anything it cannot use. */
  function Atoi(s: string): int {
    match ParseInt(TrimSpace(s))
    case None => 0
    case Some(n) => n
  }

  /** strconv.Itoa for the non-negative numbers the panel prints. */
  function Itoa(n: nat): (s: string)
    ensures s != "" && forall c <- s :: IsDigit(c)
    ensures Digits(s) == n
  {
    var last := [(n % 10 + '0' as int) as char];
    if n < 10 then
      assert last[..0] == "";
      last
    else
      var s := Itoa(n / 10) + last;
      assert s[..|s| - 1] == Itoa(n / 10);
      s
  }

  lemma DigitNoSpace(c: char)
    requires IsDigit(c)
    ensures !IsSpace(c)
  {
  }

  lemma NothingToTrim(s: string)
    requires s != "" && !IsSpace(s[0]) && !IsSpace(s[|s| - 1])
    ensures TrimSpace(s) == s
  {
    hide IsSpace;
    assert TrimLeft(s) == s && TrimRight(s) == s;
  }

  lemma DigitsNoSpace(s: string)
    requires s != "" && forall c <- s :: IsDigit(c)
    ensures TrimSpace(s) == s
  {
    hide IsSpace, TrimSpace;
    DigitNoSpace(s[0]);
    DigitNoSpace(s[|s| - 1]);
    NothingToTrim(s);
  }

  /** A printed number reads back as itself as long as it fits a machine word. */
  lemma ItoaReads(n: nat)
    ensures ParseInt(Itoa(n)) == if n <= MAX_INT then Some(n) else None
    ensures n <= MAX_INT ==> Atoi(Itoa(n)) == n
  {
    hide Itoa, Digits;
    var s := Itoa(n);
    assert IsDigit(s[0]);
    DigitsNoSpace(s);
  }

  /** Decimal, most significant digit first, without leading zeros. */
  lemma {:induction false} ItoaDecimal(n: nat)
    ensures n < 10 ==> Itoa(n) == [(n + '0' as int) as char]
    ensures n >= 10 ==> Itoa(n) == Itoa(n / 10) + Itoa(n % 10)
    ensures n > 0 ==> Itoa(n)[0] != '0'
  {
    if n >= 10 {
      ItoaDecimal(n / 10);
    }
  }

  /** A sign is read, and refused are an empty number, any other character and a number too large. */
  lemma ParseSigned(n: nat, s: string)
    ensures
      match ParseInt("-" + Itoa(n))
      case None => n > MAX_INT + 1
      case Some(v) => v + n == 0 && n <= MAX_INT + 1
    ensures ParseInt("+" + Itoa(n)) == ParseInt(Itoa(n))
    ensures s == "" || s == "-" || s == "+" ==> ParseInt(s) == None
    ensures s != "" && !IsDigit(s[0]) && s[0] != '-' && s[0] != '+' ==> ParseInt(s) == None
    ensures (exists i :: 0 < i < |s| && !IsDigit(s[i])) ==> ParseInt(s) == None
  {
    hide Itoa, Digits;
    var t := Itoa(n);
    assert ("-" + t)[1..] == t && ("+" + t)[1..] == t;
    assert t[0] in t;
    if i :| 0 < i < |s| && !IsDigit(s[i]) {
      assert s[1..][i - 1] == s[i] && s[i] in s[1..] && s[i] in s;
    }
    if s != "" {
      assert s[0] in s;
    }
  }

  /** Go's order on strings; bytewise order of UTF-8 is the order of code points. */
  predicate Less(a: string, b: string) {
    b != "" && (a == "" || a[0] < b[0] || (a[0] == b[0] && Less(a[1..], b[1..])))
  }

  /** Where two strings first differ, if neither is the beginning of the other. */
  ghost predicate DifferAt(a: string, b: string, k: nat) {
    k < |a| && k < |b| && a[..k] == b[..k] && a[k] != b[k]
  }

  /** a comes before b exactly when it is a proper beginning of b, or has the smaller character where they
      first differ. */
  lemma {:induction false} LessMeans(a: string, b: string)
    ensures Less(a, b) <==> (|a| < |b| && a == b[..|a|]) || SmallerSomewhere(a, b)
  {
    hide SmallerSomewhere;
    if a == "" || b == "" {
      NowhereSmaller(a, b);
    } else if a[0] != b[0] {
      SmallerFirst(a, b);
    } else {
      LessMeans(a[1..], b[1..]);
      SmallerLater(a, b);
      BeginsLater(a, b);
    }
  }

  ghost predicate SmallerSomewhere(a: string, b: string) {
    exists k: nat :: DifferAt(a, b, k) && a[k] < b[k]
  }

  lemma NowhereSmaller(a: string, b: string)
    requires a == "" || b == ""
    ensures !SmallerSomewhere(a, b) && (|a| < |b| ==> a == b[..|a|])
  {
  }

  lemma SmallerFirst(a: string, b: string)
    requires a != "" && b != "" && a[0] != b[0]
    ensures SmallerSomewhere(a, b) <==> a[0] < b[0]
    ensures |a| < |b| ==> a != b[..|a|]
  {
    assert a[..0] == b[..0] && DifferAt(a, b, 0);
    forall k: nat | 0 < k && k < |a| && k < |b| ensures a[..k] != b[..k] {
      assert a[..k][0] == a[0] && b[..k][0] == b[0];
    }
    if |a| < |b| {
      assert b[..|a|][0] == b[0];
    }
  }

  lemma SmallerLater(a: string, b: string)
    requires a != "" && b != "" && a[0] == b[0]
    ensures SmallerSomewhere(a, b) <==> SmallerSomewhere(a[1..], b[1..])
  {
    forall k: nat | k < |a| - 1 && k < |b| - 1 ensures a[1..][..k] == b[1..][..k] <==> a[..k + 1] == b[..k + 1] {
      assert a[..k + 1] == [a[0]] + a[1..][..k] && b[..k + 1] == [b[0]] + b[1..][..k];
      assert a[..k + 1][1..] == a[1..][..k] && b[..k + 1][1..] == b[1..][..k];
    }
    if k: nat :| DifferAt(a, b, k) && a[k] < b[k] {
      assert DifferAt(a[1..], b[1..], k - 1) && a[1..][k - 1] < b[1..][k - 1];
    }
    if k: nat :| DifferAt(a[1..], b[1..], k) && a[1..][k] < b[1..][k] {
      assert DifferAt(a, b, k + 1) && a[k + 1] < b[k + 1];
    }
  }

  lemma BeginsLater(a: string, b: string)
    requires a != "" && b != "" && a[0] == b[0]
    ensures (|a| < |b| && a == b[..|a|]) <==> (|a| < |b| && a[1..] == b[1..][..|a| - 1])
  {
    assert a == [a[0]] + a[1..];
    if |a| < |b| {
      assert b[..|a|] == [b[0]] + b[1..][..|a| - 1];
    }
  }

  predicate Le(a: string, b: string) {
    !Less(b, a)
  }

  lemma {:induction false} LessTotal(a: string, b: string)
    ensures a == b || Less(a, b) || Less(b, a)
    ensures !(Less(a, b) && Less(b, a)) && !Less(a, a)
  {
    if a != "" && b != "" && a[0] == b[0] {
      LessTotal(a[1..], b[1..]);
      assert a == [a[0]] + a[1..] && b == [b[0]] + b[1..];
    }
    if a != "" {
      LessTotal(a[1..], a[1..]);
    }
  }

  lemma {:induction false} LessTrans(a: string, b: string, c: string)
    requires Less(a, b) && Less(b, c)
    ensures Less(a, c)
  {
    if a != "" && a[0] == b[0] && b[0] == c[0] {
      LessTrans(a[1..], b[1..], c[1..]);
    }
  }

  lemma LeTrans(a: string, b: string, c: string)
    requires Le(a, b) && Le(b, c)
    ensures Le(a, c)
  {
    LessTotal(a, b);
    LessTotal(b, c);
    LessTotal(a, c);
    if Less(a, b) && Less(b, c) {
      LessTrans(a, b, c);
    }
  }

  // ----- trimming

  predicate AllSpace(s: string) {
    forall c <- s :: IsSpace(c)
  }

  lemma {:induction false} TrimLeftAppend(y: string, q: string)
    ensures TrimLeft(y + q) == if TrimLeft(y) != "" then TrimLeft(y) + q else TrimLeft(q)
  {
    if y == "" {
      assert y + q == q;
    } else if IsSpace(y[0]) {
      assert (y + q)[1..] == y[1..] + q;
      TrimLeftAppend(y[1..], q);
    }
  }

  lemma {:induction false} TrimRightAppend(p: string, y: string)
    ensures TrimRight(p + y) == if TrimRight(y) != "" then p + TrimRight(y) else TrimRight(p)
  {
    if y == "" {
      assert p + y == p;
    } else if IsSpace(y[|y| - 1]) {
      assert (p + y)[..|p + y| - 1] == p + y[..|y| - 1];
      TrimRightAppend(p, y[..|y| - 1]);
    }
  }

  lemma {:induction false} AllTrimmed(s: string)
    requires AllSpace(s)
    ensures TrimLeft(s) == "" && TrimRight(s) == ""
  {
    if s != "" {
      AllTrimmed(s[1..]);
      AllTrimmed(s[..|s| - 1]);
    }
  }

  /** Space around a text does not matter to TrimSpace. */
  lemma TrimSpaceAround(p: string, y: string, q: string)
    requires AllSpace(p) && AllSpace(q)
    ensures TrimSpace(p + y + q) == TrimSpace(y)
  {
    assert p + y + q == p + (y + q);
    LeftSpaceGoes(p, y + q);
    RightSpaceGoes(y, q);
    assert TrimSpace(p + (y + q)) == TrimRight(TrimLeft(y + q)) == TrimSpace(y);
  }

  lemma LeftSpaceGoes(p: string, y: string)
    requires AllSpace(p)
    ensures TrimLeft(p + y) == TrimLeft(y)
  {
    hide TrimLeft, TrimRight;
    AllTrimmed(p);
    TrimLeftAppend(p, y);
  }

  lemma RightSpaceGoes(y: string, q: string)
    requires AllSpace(q)
    ensures TrimRight(TrimLeft(y + q)) == TrimRight(TrimLeft(y))
  {
    hide TrimLeft, TrimRight;
    AllTrimmed(q);
    TrimLeftAppend(y, q);
    if TrimLeft(y) != "" {
      TrimRightAppend(TrimLeft(y), q);
    }
  }

  lemma SignStays(c: char, v: string)
    requires !IsSpace(c)
    ensures TrimLeft([c] + v) == [c] + v && TrimRight([c] + v) == [c] + TrimRight(v)
  {
    TrimRightAppend([c], v);
    var one := [c];
    assert one[|one| - 1] == c && TrimRight(one) == one;
  }

  /** Trimming around a sign that is no space leaves the sign and trims each side. */
  lemma TrimAroundSign(k: string, c: char, v: string)
    requires !IsSpace(c)
    ensures TrimSpace(k + [c] + v) == TrimLeft(k) + [c] + TrimRight(v)
  {
    hide TrimLeft, TrimRight, IsSpace;
    var whole := k + ([c] + v);
    assert k + [c] + v == whole;
    TrimBeforeSign(k, c, v);
    TrimAfterSign(TrimLeft(k), c, v);
    assert TrimSpace(whole) == TrimRight(TrimLeft(whole));
  }

  lemma TrimBeforeSign(k: string, c: char, v: string)
    requires !IsSpace(c)
    ensures TrimLeft(k + ([c] + v)) == TrimLeft(k) + ([c] + v)
  {
    hide TrimLeft;
    SignStays(c, v);
    TrimLeftAppend(k, [c] + v);
  }

  lemma TrimAfterSign(l: string, c: char, v: string)
    requires !IsSpace(c)
    ensures TrimRight(l + ([c] + v)) == l + [c] + TrimRight(v)
  {
    hide TrimRight, IsSpace;
    SignStays(c, v);
    TrimRightAppend(l, [c] + v);
    assert l + ([c] + TrimRight(v)) == l + [c] + TrimRight(v);
  }
}
