/**
 server.properties: the printer, the one parser every reader uses, and the stricter reader of the managed port.
 */
module Props {
  import opened Options
  import opened GoText

  type PropMap = map<string, string>

  /** What one line sets, if anything. */
  type Setting = Option<(string, string)>

  const PORT_KEY := "server-port"
  const HEADER1 := ['#'] + "Minecraft server properties"
  const HEADER2 := ['#'] + ("Managed by teploy-arcade. " + "Edits here are read back by the panel.")

  // ----- the parser

  predicate Comment(s: string) {
    s != "" && (s[0] == '#' || s[0] == '!')
  }

  /** The part of a line the readers look at. */
  function Body(line: string): string {
    TrimLeftBlank(TrimReturn(line))
  }

  function ParseBody(t: string): Setting {
    if t == "" || Comment(t) then None
    else
      match Cut(t, '=')
      case None => None
      case Some((k, v)) => Some((TrimSpace(k), TrimLeftBlank(v)))
  }

  function ParseLine(line: string): Setting {
    ParseBody(Body(line))
  }

  function Settings(lines: seq<string>, parse: string -> Setting): (r: seq<Setting>)
    ensures |r| == |lines|
  {
    seq(|lines|, i requires 0 <= i < |lines| => parse(lines[i]))
  }

  /** A later line with the same key wins. */
  function Collect(settings: seq<Setting>): PropMap {
    if settings == [] then map[]
    else
      var before := Collect(settings[..|settings| - 1]);
      match settings[|settings| - 1]
      case None => before
      case Some((k, v)) => before[k := v]
  }

  function ParseProps(content: string): PropMap {
    Collect(Settings(Split(content, '\n'), ParseLine))
  }

  lemma CollectSnoc(lines: seq<string>, parse: string -> Setting, i: nat)
    requires i < |lines|
    ensures
      var before := Collect(Settings(lines[..i], parse));
      Collect(Settings(lines[..i + 1], parse))
      == match parse(lines[i]) case None => before case Some((k, v)) => before[k := v]
  {
    assert Settings(lines[..i + 1], parse)[..i] == Settings(lines[..i], parse);
  }

  method ParsePropsLines(content: string) returns (parsed: PropMap)
    ensures parsed == ParseProps(content)
  {
    parsed := map[];
    var lines := Split(content, '\n');
    ghost var parse := ParseLine;
    for i := 0 to |lines|
      invariant parsed == Collect(Settings(lines[..i], parse))
    {
      CollectSnoc(lines, parse, i);
      var line := Body(lines[i]);
      if line == "" || Comment(line) {
        continue;
      }
      var kv := Cut(line, '=');
      if kv.Some? {
        parsed := parsed[TrimSpace(kv.value.0) := TrimLeftBlank(kv.value.1)];
      }
    }
    assert lines[..|lines|] == lines;
  }

  // ----- the printer

  function PrintLine(k: string, v: string): string {
    k + ['='] + v
  }

  function PrintEntries(m: PropMap, keys: seq<string>): string
    requires forall k <- keys :: k in m
  {
    if keys == [] then "" else PrintLine(keys[0], m[keys[0]]) + ['\n'] + PrintEntries(m, keys[1..])
  }

  function PrintUnder(header1: string, header2: string, entries: string): string {
    header1 + ['\n'] + (header2 + ['\n'] + entries)
  }

  function PrintProps(m: PropMap, keys: seq<string>): string
    requires forall k <- keys :: k in m
  {
    PrintUnder(HEADER1, HEADER2, PrintEntries(m, keys))
  }

  /** Every key, once, in some order. */
  predicate Enumerates(keys: seq<string>, m: PropMap) {
    && (forall k <- keys :: k in m) && (forall k <- m :: k in keys)
    && forall i, j :: 0 <= i < j < |keys| ==> keys[i] != keys[j]
  }

  method WriteEntries(m: PropMap, keys: seq<string>) returns (text: string)
    requires Enumerates(keys, m)
    ensures text == PrintEntries(m, keys)
  {
    text := "";
    for i := 0 to |keys|
      invariant text + PrintEntries(m, keys[i..]) == PrintEntries(m, keys)
    {
      assert keys[i..][1..] == keys[i + 1..];
      text := text + (PrintLine(keys[i], m[keys[i]]) + ['\n']);
    }
    assert keys[|keys|..] == [];
    assert text + "" == text;
  }

  /** sort.Strings over the keys of a map: every key once, in rising order. */
  ghost predicate InOrder(keys: seq<string>, names: set<string>) {
    && (forall k :: k in keys <==> k in names)
    && forall i, j :: 0 <= i < j < |keys| ==> Less(keys[i], keys[j])
  }

  function InsertKey(k: string, keys: seq<string>): seq<string> {
    if keys == [] || Less(k, keys[0]) then [k] + keys else [keys[0]] + InsertKey(k, keys[1..])
  }

  lemma {:induction false} InsertInOrder(k: string, keys: seq<string>, names: set<string>)
    requires InOrder(keys, names) && k !in names
    ensures InOrder(InsertKey(k, keys), names + {k})
    decreases |keys|
  {
    hide Less;
    if keys != [] {
      var first, rest := keys[0], keys[1..];
      LessTotal(k, first);
      LessTotal(first, first);
      assert keys == [first] + rest;
      if Less(k, first) {
        forall j | 0 < j < |keys| ensures Less(k, keys[j]) {
          LessTrans(k, first, keys[j]);
        }
      } else {
        InOrderTail(keys, names);
        InsertInOrder(k, rest, names - {first});
        var more := InsertKey(k, rest);
        assert names - {first} + {k} + {first} == names + {k};
        forall x | x in more ensures Less(first, x) {
          if x != k {
            assert x in rest;
          }
        }
      }
    }
  }

  lemma InOrderTail(keys: seq<string>, names: set<string>)
    requires InOrder(keys, names) && keys != []
    ensures InOrder(keys[1..], names - {keys[0]}) && forall x <- keys[1..] :: Less(keys[0], x)
  {
    hide Less;
    LessTotal(keys[0], keys[0]);
    assert keys == [keys[0]] + keys[1..];
    forall x | x in keys[1..] ensures Less(keys[0], x) && x != keys[0] {
      var j :| 0 <= j < |keys[1..]| && keys[1..][j] == x;
      assert keys[j + 1] == x;
    }
  }

  lemma SomeMember(keys: seq<string>)
    ensures keys == [] || exists k :: k in keys
  {
    if keys != [] {
      assert keys[0] in keys;
    }
  }

  /** There is one such order. */
  lemma {:induction false} OneOrder(a: seq<string>, b: seq<string>, names: set<string>)
    requires InOrder(a, names) && InOrder(b, names)
    ensures a == b
    decreases |a|
  {
    hide Less;
    if a == [] {
      SomeMember(b);
    } else {
      assert a[0] in names && a[0] in b;
      InOrderTail(a, names);
      InOrderTail(b, names);
      if a[0] != b[0] {
        assert b[0] in a && a == [a[0]] + a[1..] && b == [b[0]] + b[1..];
        assert Less(a[0], b[0]) && Less(b[0], a[0]);
        LessTotal(a[0], b[0]);
      } else {
        OneOrder(a[1..], b[1..], names - {a[0]});
      }
    }
  }

  lemma {:induction false} SomeOrder(names: set<string>)
    ensures exists keys :: InOrder(keys, names)
    decreases |names|
  {
    if names == {} {
      assert InOrder([], names);
    } else {
      var k :| k in names;
      SomeOrder(names - {k});
      var keys :| InOrder(keys, names - {k});
      InsertInOrder(k, keys, names - {k});
      assert names - {k} + {k} == names;
    }
  }

  lemma OrderEnumerates(keys: seq<string>, m: PropMap)
    requires InOrder(keys, m.Keys)
    ensures Enumerates(keys, m)
  {
    hide Less;
    forall i, j | 0 <= i < j < |keys| ensures keys[i] != keys[j] {
      LessTotal(keys[i], keys[j]);
      assert Less(keys[i], keys[j]);
    }
  }

  /** The file writePropsHeld prints for these settings. */
  ghost function Printed(m: PropMap): string {
    SomeOrder(m.Keys);
    var keys :| InOrder(keys, m.Keys);
    OrderEnumerates(keys, m);
    PrintProps(m, keys)
  }

  lemma PrintedInOrder(m: PropMap, keys: seq<string>)
    requires InOrder(keys, m.Keys)
    ensures Enumerates(keys, m) && Printed(m) == PrintProps(m, keys)
  {
    OrderEnumerates(keys, m);
    SomeOrder(m.Keys);
    forall other | InOrder(other, m.Keys) ensures other == keys {
      OneOrder(other, keys, m.Keys);
    }
  }

  /** The keys of a map come in any order and are sorted. */
  method SortedKeys(m: PropMap) returns (keys: seq<string>)
    ensures InOrder(keys, m.Keys)
  {
    hide Less;
    keys := [];
    var rest := m.Keys;
    while rest != {}
      invariant rest <= m.Keys && InOrder(keys, m.Keys - rest)
      decreases rest
    {
      var k :| k in rest;
      InsertInOrder(k, keys, m.Keys - rest);
      assert m.Keys - rest + {k} == m.Keys - (rest - {k});
      keys, rest := InsertKey(k, keys), rest - {k};
    }
    assert m.Keys - rest == m.Keys;
  }

  method WriteProps(m: PropMap) returns (text: string)
    ensures text == Printed(m)
  {
    var keys := SortedKeys(m);
    PrintedInOrder(m, keys);
    var entries := WriteEntries(m, keys);
    text := PrintUnder(HEADER1, HEADER2, entries);
  }

  // ----- what survives printing and parsing

  predicate GoodKey(k: string) {
    '\n' !in k && '=' !in k && TrimSpace(k) == k && !Comment(k)
  }

  predicate GoodValue(v: string) {
    '\n' !in v && TrimLeftBlank(v) == v && TrimReturn(v) == v
  }

  predicate WellFormed(m: PropMap) {
    forall k <- m :: GoodKey(k) && GoodValue(m[k])
  }

  /** A key and value that cannot spill into another key or line. */
  predicate Contained(k: string, v: string) {
    '\n' !in k && '=' !in k && TrimSpace(k) == k && '\n' !in v && TrimLeftBlank(v) == v
  }

  predicate AllContained(m: PropMap) {
    forall k <- m :: Contained(k, m[k])
  }

  lemma TrimFixed(s: string)
    ensures TrimSpace(TrimSpace(s)) == TrimSpace(s)
    ensures TrimLeftBlank(TrimLeftBlank(s)) == TrimLeftBlank(s)
  {
    var t := TrimLeft(s);
    var r := TrimRight(t);
    assert r == t[..|r|];
    assert TrimLeft(r) == r;
    assert TrimRight(r) == r;
  }

  lemma TrimWithin(s: string)
    ensures forall c <- TrimSpace(s) :: c in s
    ensures forall c <- TrimLeftBlank(s) :: c in s
    ensures forall c <- TrimReturn(s) :: c in s
  {
  }

  lemma BodyWithin(line: string)
    requires '\n' !in line
    ensures '\n' !in Body(line)
  {
    TrimWithin(line);
    TrimWithin(TrimReturn(line));
  }

  lemma ParseBodyContained(t: string)
    requires '\n' !in t
    ensures ParseBody(t).Some? ==> Contained(ParseBody(t).value.0, ParseBody(t).value.1)
  {
    if ParseBody(t).Some? {
      var (k, v) := Cut(t, '=').value;
      assert forall c <- k :: c in t;
      assert forall c <- v :: c in t;
      TrimWithin(k);
      TrimWithin(v);
      TrimFixed(k);
      TrimFixed(v);
    }
  }

  predicate ContainedSetting(s: Setting) {
    s.Some? ==> Contained(s.value.0, s.value.1)
  }

  lemma ParseLineContained(line: string)
    requires '\n' !in line
    ensures ContainedSetting(ParseLine(line))
  {
    BodyWithin(line);
    ParseBodyContained(Body(line));
  }

  lemma {:induction false} CollectContained(lines: seq<string>, parse: string -> Setting)
    requires forall l <- lines :: ContainedSetting(parse(l))
    ensures AllContained(Collect(Settings(lines, parse)))
  {
    if lines != [] {
      var n := |lines| - 1;
      assert lines[n] in lines && lines[..n + 1] == lines;
      CollectSnoc(lines, parse, n);
      CollectContained(lines[..n], parse);
    }
  }

  /** Whatever the text, what is parsed from it is contained. */
  lemma ParsedContained(content: string)
    ensures AllContained(ParseProps(content))
  {
    forall l | l in Split(content, '\n') ensures ContainedSetting(ParseLine(l)) {
      ParseLineContained(l);
    }
    CollectContained(Split(content, '\n'), ParseLine);
  }

  lemma ReturnOfPrinted(k: string, v: string)
    ensures TrimReturn(PrintLine(k, v)) == PrintLine(k, TrimReturn(v))
  {
    var line := PrintLine(k, v);
    if v != "" {
      assert line[|line| - 1] == v[|v| - 1];
      assert line[..|line| - 1] == k + ['='] + v[..|v| - 1];
    } else {
      assert line[|line| - 1] == '=';
    }
  }

  lemma TrimmedStart(k: string)
    requires TrimSpace(k) == k && k != ""
    ensures !IsSpace(k[0])
  {
    var t := TrimLeft(k);
    assert k == t[..|k|];
  }

  lemma CutAt(k: string, c: char, v: string)
    requires c !in k
    ensures Cut(k + [c] + v, c) == Some((k, v))
  {
    var s := k + [c] + v;
    assert s[|k|] == c;
    assert forall j :: 0 <= j < |k| ==> s[j] == k[j];
    assert IndexOf(s, c) == |k|;
    assert s[..|k|] == k && s[|k| + 1..] == v;
  }

  lemma BlankFree(t: string)
    requires t != "" && !IsBlank(t[0])
    ensures TrimLeftBlank(t) == t
  {
  }

  lemma TrimReturnKeepsStart(v: string)
    requires TrimLeftBlank(v) == v
    ensures TrimLeftBlank(TrimReturn(v)) == TrimReturn(v)
  {
    var r := TrimReturn(v);
    if r != "" {
      assert r[0] == v[0];
      BlankFree(r);
    }
  }

  /** How one contained entry comes back: not at all if its key reads as a comment, else without one trailing return. */
  lemma PrintedLine(k: string, v: string)
    requires Contained(k, v)
    ensures ParseLine(PrintLine(k, v)) == if Comment(k) then None else Some((k, TrimReturn(v)))
  {
    var t := PrintLine(k, TrimReturn(v));
    ReturnOfPrinted(k, v);
    if k == "" {
      assert t[0] == '=';
    } else {
      TrimmedStart(k);
      assert t[0] == k[0];
    }
    BlankFree(t);
    CutAt(k, '=', TrimReturn(v));
    TrimReturnKeepsStart(v);
  }

  function EntryLines(m: PropMap, keys: seq<string>): seq<string>
    requires forall k <- keys :: k in m
  {
    seq(|keys|, i requires 0 <= i < |keys| => PrintLine(keys[i], m[keys[i]]))
  }

  lemma PrintedOnOneLine(k: string, v: string)
    requires Contained(k, v)
    ensures '\n' !in PrintLine(k, v)
  {
  }

  lemma {:induction false} JoinEntries(m: PropMap, keys: seq<string>)
    requires forall k <- keys :: k in m
    ensures PrintEntries(m, keys) == Join(EntryLines(m, keys) + [""], '\n')
  {
    var lines := EntryLines(m, keys) + [""];
    if keys != [] {
      JoinEntries(m, keys[1..]);
      assert lines[1..] == EntryLines(m, keys[1..]) + [""];
    }
  }

  predicate OneLine(s: string) {
    '\n' !in s && '\r' !in s
  }

  /** A line that parses to nothing. */
  predicate Header(h: string) {
    Comment(h) && OneLine(h)
  }

  lemma HeaderSkipped(h: string)
    requires Header(h)
    ensures ParseLine(h) == None
  {
    assert TrimReturn(h) == h;
    BlankFree(h);
  }

  lemma OneLineTogether(a: string, b: string)
    requires OneLine(a) && OneLine(b)
    ensures OneLine(a + b)
  {
  }

  lemma Banner1()
    ensures OneLine("Minecraft server properties")
  {
  }

  lemma Banner2()
    ensures OneLine("Managed by teploy-arcade. ")
  {
  }

  lemma Banner3()
    ensures OneLine("Edits here are read back by the panel.")
  {
  }

  lemma HashLine(h: string, rest: string)
    requires OneLine(rest) && h == ['#'] + rest
    ensures Header(h)
  {
    assert forall c <- h :: c == '#' || c in rest;
  }

  lemma HeadersAreHeaders()
    ensures Header(HEADER1) && Header(HEADER2)
  {
    Banner1();
    Banner2();
    Banner3();
    OneLineTogether("Managed by teploy-arcade. ", "Edits here are read back by the panel.");
    HashLine(HEADER1, "Minecraft server properties");
    HashLine(HEADER2, "Managed by teploy-arcade. " + "Edits here are read back by the panel.");
  }

  lemma EntryLinesOneLine(m: PropMap, keys: seq<string>)
    requires (forall k <- keys :: k in m) && AllContained(m)
    ensures forall l <- EntryLines(m, keys) :: '\n' !in l
  {
    forall i | 0 <= i < |keys| ensures '\n' !in EntryLines(m, keys)[i] {
      PrintedOnOneLine(keys[i], m[keys[i]]);
    }
  }

  lemma JoinUnder(h1: string, h2: string, tail: seq<string>)
    requires tail != []
    ensures Join([h1, h2] + tail, '\n') == PrintUnder(h1, h2, Join(tail, '\n'))
  {
    assert ([h1, h2] + tail)[1..] == [h2] + tail && ([h2] + tail)[1..] == tail;
  }

  lemma SplitProps(m: PropMap, keys: seq<string>, h1: string, h2: string)
    requires (forall k <- keys :: k in m) && AllContained(m) && '\n' !in h1 && '\n' !in h2
    ensures Split(PrintUnder(h1, h2, PrintEntries(m, keys)), '\n') == [h1, h2] + (EntryLines(m, keys) + [""])
  {
    hide *;
    JoinEntries(m, keys);
    JoinUnder(h1, h2, EntryLines(m, keys) + [""]);
    EntryLinesOneLine(m, keys);
    SplitJoin([h1, h2] + (EntryLines(m, keys) + [""]), '\n');
  }

  lemma {:induction false} CollectSkips(settings: seq<Setting>)
    ensures Collect([None, None] + settings) == Collect(settings)
  {
    var all := [None, None] + settings;
    if settings == [] {
      assert all[..1] == [None];
      var one: seq<Setting> := [None];
      assert one[..0] == [];
    } else {
      assert all[..|all| - 1] == [None, None] + settings[..|settings| - 1];
      CollectSkips(settings[..|settings| - 1]);
    }
  }

  /** What the parser makes of printed entries whose keys and values are contained. */
  function Survivors(m: PropMap, keys: seq<string>): PropMap
    requires forall k <- keys :: k in m
  {
    map k | k in keys && !Comment(k) :: TrimReturn(m[k])
  }

  function Returned(m: PropMap, keys: seq<string>): seq<Setting>
    requires forall k <- keys :: k in m
  {
    seq(|keys|, i requires 0 <= i < |keys| =>
        if Comment(keys[i]) then None else Some((keys[i], TrimReturn(m[keys[i]]))))
  }

  lemma {:induction false} CollectReturned(m: PropMap, keys: seq<string>)
    requires forall k <- keys :: k in m
    ensures Collect(Returned(m, keys)) == Survivors(m, keys)
  {
    if keys != [] {
      var n := |keys| - 1;
      var k := keys[n];
      assert Returned(m, keys)[..n] == Returned(m, keys[..n]);
      CollectReturned(m, keys[..n]);
      assert forall x :: x in keys <==> x in keys[..n] || x == k;
      if Comment(k) {
        assert Survivors(m, keys) == Survivors(m, keys[..n]);
      } else {
        assert Survivors(m, keys) == Survivors(m, keys[..n])[k := TrimReturn(m[k])];
      }
    }
  }

  lemma SettingsOfEntries(m: PropMap, keys: seq<string>, parse: string -> Setting)
    requires forall k <- keys :: k in m
    requires forall k <- keys :: parse(PrintLine(k, m[k])) == if Comment(k) then None else Some((k, TrimReturn(m[k])))
    ensures Settings(EntryLines(m, keys), parse) == Returned(m, keys)
  {
    forall i | 0 <= i < |keys| ensures Settings(EntryLines(m, keys), parse)[i] == Returned(m, keys)[i] {
      assert keys[i] in keys;
    }
  }

  lemma SettingsPrinted(m: PropMap, keys: seq<string>)
    requires Enumerates(keys, m) && AllContained(m)
    ensures Settings(EntryLines(m, keys), ParseLine) == Returned(m, keys)
  {
    forall k | k in keys
      ensures ParseLine(PrintLine(k, m[k])) == if Comment(k) then None else Some((k, TrimReturn(m[k])))
    {
      PrintedLine(k, m[k]);
    }
    SettingsOfEntries(m, keys, ParseLine);
  }

  lemma HeadersVanish(h1: string, h2: string, lines: seq<string>)
    requires Header(h1) && Header(h2)
    ensures Collect(Settings([h1, h2] + (lines + [""]), ParseLine)) == Collect(Settings(lines, ParseLine))
  {
    HeaderSkipped(h1);
    HeaderSkipped(h2);
    CollectUnder(h1, h2, lines, ParseLine);
  }

  lemma ParsePrintedUnder(m: PropMap, keys: seq<string>, h1: string, h2: string)
    requires Enumerates(keys, m) && AllContained(m) && Header(h1) && Header(h2)
    ensures ParseProps(PrintUnder(h1, h2, PrintEntries(m, keys))) == Survivors(m, keys)
  {
    SplitProps(m, keys, h1, h2);
    HeadersVanish(h1, h2, EntryLines(m, keys));
    SettingsPrinted(m, keys);
    CollectReturned(m, keys);
  }

  lemma CollectUnder(h1: string, h2: string, lines: seq<string>, parse: string -> Setting)
    requires parse(h1) == None && parse(h2) == None && parse("") == None
    ensures Collect(Settings([h1, h2] + (lines + [""]), parse)) == Collect(Settings(lines, parse))
  {
    var nothing: seq<Setting> := [None, None];
    var last: seq<Setting> := [None];
    assert Settings([h1, h2] + (lines + [""]), parse) == nothing + (Settings(lines, parse) + last);
    CollectSkips(Settings(lines, parse) + last);
    assert (Settings(lines, parse) + last)[..|lines|] == Settings(lines, parse);
  }

  /** Reading back what the panel wrote gives the same settings exactly when every key and value is well formed. */
  lemma RoundTrip(m: PropMap, keys: seq<string>)
    requires Enumerates(keys, m)
    ensures ParseProps(PrintProps(m, keys)) == m <==> WellFormed(m)
  {
    hide Split, PrintEntries, TrimSpace, TrimLeftBlank, TrimReturn, Collect;
    ParsedContained(PrintProps(m, keys));
    if AllContained(m) {
      HeadersAreHeaders();
      ParsePrintedUnder(m, keys, HEADER1, HEADER2);
      SurvivorsAll(m, keys);
    }
  }

  lemma SurvivorsAll(m: PropMap, keys: seq<string>)
    requires Enumerates(keys, m) && AllContained(m)
    ensures Survivors(m, keys) == m <==> WellFormed(m)
  {
    hide TrimSpace, TrimLeftBlank, TrimReturn, Comment;
    var s := Survivors(m, keys);
    if s == m {
      forall k | k in m ensures GoodKey(k) && GoodValue(m[k]) {
        assert k in s && s[k] == TrimReturn(m[k]);
      }
    }
    if WellFormed(m) {
      assert s == m;
    }
  }

  /** The file the panel writes reads back as the same settings exactly when they are well formed. */
  lemma PrintedReadsBack(m: PropMap)
    ensures ParseProps(Printed(m)) == m <==> WellFormed(m)
  {
    hide *;
    SomeOrder(m.Keys);
    var keys :| InOrder(keys, m.Keys);
    PrintedInOrder(m, keys);
    RoundTrip(m, keys);
  }

  // ----- lines nobody printed

  predicate AllBlank(s: string) {
    forall c <- s :: IsBlank(c)
  }

  lemma {:induction false} BlankGoes(p: string, y: string)
    requires AllBlank(p)
    ensures TrimLeftBlank(p + y) == TrimLeftBlank(y)
  {
    if p == "" {
      assert p + y == y;
    } else {
      assert p[0] in p && (p + y)[1..] == p[1..] + y;
      BlankGoes(p[1..], y);
    }
  }

  /** A carriage return at the end of a line. */
  predicate LineEnd(r: string) {
    r == "" || r == ['\r']
  }

  lemma ReturnGoes(y: string, r: string)
    requires LineEnd(r) && (r == "" ==> TrimReturn(y) == y)
    ensures TrimReturn(y + r) == y
  {
    if r == "" {
      assert y + r == y;
    } else {
      assert (y + r)[|y + r| - 1] == '\r' && (y + r)[..|y + r| - 1] == y;
    }
  }

  /** Blanks before the key, space around the sign and a carriage return at the end change nothing about an entry. */
  lemma SpacedEntry(pre: string, k: string, a: string, b: string, v: string, r: string)
    requires Contained(k, v) && k != "" && !Comment(k) && TrimReturn(v) == v
    requires AllBlank(pre) && AllSpace(a) && AllBlank(b) && LineEnd(r)
    ensures ParseLine(pre + (k + a + ['='] + (b + v)) + r) == Some((k, v))
  {
    hide *;
    KeyParts(k, v);
    SpacedBody(pre, k, a, b, v, r);
    SpacedSetting(k, a, b, v);
    ParseOf(pre + (k + a + ['='] + (b + v)) + r);
  }

  lemma ParseOf(line: string)
    ensures ParseLine(line) == ParseBody(Body(line))
  {
  }

  lemma KeyParts(k: string, v: string)
    requires Contained(k, v)
    ensures TrimSpace(k) == k && '=' !in k && TrimLeftBlank(v) == v
  {
  }

  lemma SpacedBody(pre: string, k: string, a: string, b: string, v: string, r: string)
    requires TrimSpace(k) == k && k != "" && !Comment(k) && TrimReturn(v) == v
    requires AllBlank(pre) && AllBlank(b) && LineEnd(r)
    ensures Body(pre + (k + a + ['='] + (b + v)) + r) == k + a + ['='] + (b + v)
  {
    hide TrimSpace, TrimLeftBlank, TrimReturn, Comment, AllBlank, LineEnd;
    var t := k + a + ['='] + (b + v);
    NoReturn(pre, k + a, b, v);
    ReturnGoes(pre + t, r);
    BlankGoes(pre, t);
    StartsWith(k, a + ['='] + (b + v));
    assert t == k + (a + ['='] + (b + v));
  }

  lemma SpacedSetting(k: string, a: string, b: string, v: string)
    requires TrimSpace(k) == k && k != "" && !Comment(k) && '=' !in k && TrimLeftBlank(v) == v
    requires AllSpace(a) && AllBlank(b)
    ensures ParseBody(k + a + ['='] + (b + v)) == Some((k, v))
  {
    hide *;
    var w, name := b + v, k + a;
    SumStarts(k, a, w);
    SignlessKey(k, a);
    TrimmedKey(k, a);
    CutAt(name, '=', w);
    BlankGoes(b, v);
    ParsedBody(name + ['='] + w, name, w);
  }

  lemma SumStarts(k: string, a: string, w: string)
    requires TrimSpace(k) == k && k != "" && !Comment(k)
    ensures k + a + ['='] + w != "" && !Comment(k + a + ['='] + w)
  {
    assert (k + a + ['='] + w)[0] == k[0];
  }

  lemma SignlessKey(k: string, a: string)
    requires '=' !in k && AllSpace(a)
    ensures '=' !in k + a
  {
    SpaceIsNoSign(a);
  }

  lemma TrimmedKey(k: string, a: string)
    requires TrimSpace(k) == k && AllSpace(a)
    ensures TrimSpace(k + a) == k
  {
    hide TrimSpace, IsSpace;
    TrimSpaceAround("", k, a);
    assert "" + k + a == k + a;
  }

  lemma ParsedBody(t: string, k: string, v: string)
    requires t != "" && !Comment(t) && Cut(t, '=') == Some((k, v))
    ensures ParseBody(t) == Some((TrimSpace(k), TrimLeftBlank(v)))
  {
  }

  lemma NoReturn(pre: string, k: string, b: string, v: string)
    requires AllBlank(b) && TrimReturn(v) == v
    ensures TrimReturn(pre + (k + ['='] + (b + v))) == pre + (k + ['='] + (b + v))
  {
    var s := pre + (k + ['='] + (b + v));
    var last := s[|s| - 1];
    if v != "" {
      assert last == v[|v| - 1];
    } else if b != "" {
      assert last == b[|b| - 1] && last in b;
    } else {
      assert last == '=';
    }
  }

  lemma StartsWith(k: string, rest: string)
    requires TrimSpace(k) == k && k != "" && !Comment(k)
    ensures TrimLeftBlank(k + rest) == k + rest && !Comment(k + rest) && k + rest != ""
  {
    TrimmedStart(k);
    assert (k + rest)[0] == k[0];
    BlankFree(k + rest);
  }

  lemma SpaceIsNoSign(a: string)
    requires AllSpace(a)
    ensures '=' !in a
  {
  }

  lemma ReturnBehind(head: string, c: char, rest: string)
    requires c != '\r'
    ensures TrimReturn(head + ([c] + rest)) == head + ([c] + TrimReturn(rest))
  {
    var line := head + ([c] + rest);
    if rest == "" {
      assert line[|line| - 1] == c;
    } else {
      assert line[|line| - 1] == rest[|rest| - 1];
      assert line[..|line| - 1] == head + ([c] + rest[..|rest| - 1]);
    }
  }

  /** A comment sets nothing, however far it is indented. */
  lemma CommentSkipped(pre: string, c: char, rest: string)
    requires AllBlank(pre) && (c == '#' || c == '!')
    ensures ParseLine(pre + ([c] + rest)) == None
  {
    hide TrimReturn, AllBlank;
    var t := [c] + TrimReturn(rest);
    ReturnBehind(pre, c, rest);
    BlankGoes(pre, t);
    BlankFree(t);
  }
}
