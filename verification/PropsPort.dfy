/** The strict reader of the managed port in server.properties, and its agreement with the ordinary parser. */
module PropsPort {
  import opened Options
  import opened GoText
  import opened Props

  /** Refused stands for every error the strict reader returns. */
  datatype PortRead = Refused | NoPort | Port(port: int)

  // ----- canonical form

  function Backslashes(s: string): nat {
    if s != "" && s[|s| - 1] == '\\' then 1 + Backslashes(s[..|s| - 1]) else 0
  }

  predicate CanonicalKey(key: string) {
    key != "" && '\\' !in key && ':' !in key && ' ' !in key && '\t' !in key && FORM_FEED !in key
  }

  predicate CanonicalBody(t: string) {
    t == "" || Comment(t)
    || (Cut(t, '=').Some? && CanonicalKey(TrimSpace(Cut(t, '=').value.0)) && Backslashes(t) % 2 == 0)
  }

  predicate CanonicalLine(line: string) {
    CanonicalBody(Body(line))
  }

  predicate AllLines(lines: seq<string>, ok: string -> bool) {
    forall line <- lines :: ok(line)
  }

  predicate Canonical(content: string) {
    AllLines(Split(content, '\n'), CanonicalLine)
  }

  method TrailingBackslashes(t: string) returns (trailing: nat)
    ensures trailing == Backslashes(t)
  {
    trailing := 0;
    var pos := |t|;
    assert t[..|t|] == t;
    while pos > 0 && t[pos - 1] == '\\'
      invariant 0 <= pos <= |t| && trailing + Backslashes(t[..pos]) == Backslashes(t)
    {
      assert t[..pos][..pos - 1] == t[..pos - 1];
      trailing, pos := trailing + 1, pos - 1;
    }
  }

  method CheckBody(t: string) returns (ok: bool)
    ensures ok <==> CanonicalBody(t)
  {
    if t == "" || Comment(t) {
      return true;
    }
    var kv := Cut(t, '=');
    if kv.None? || !CanonicalKey(TrimSpace(kv.value.0)) {
      return false;
    }
    var trailing := TrailingBackslashes(t);
    return trailing % 2 == 0;
  }

  // ----- what the canonical form refuses

  /** The text ends in a run of this many backslashes and no more. */
  ghost predicate EndsInRun(t: string, n: nat) {
    n <= |t| && (forall i :: |t| - n <= i < |t| ==> t[i] == '\\') && (n < |t| ==> t[|t| - n - 1] != '\\')
  }

  /** The line goes on: an odd run of backslashes at its end. */
  ghost predicate Continued(t: string) {
    exists n: nat :: n % 2 == 1 && EndsInRun(t, n)
  }

  predicate Reserved(c: char) {
    c == '\\' || c == ':' || c == ' ' || c == '\t' || c == FORM_FEED
  }

  /** A line that counts and has no '=', an empty or reserved key, or a continuation. */
  ghost predicate Faulty(line: string) {
    var t := Body(line);
    && t != "" && t[0] != '#' && t[0] != '!'
    && ('=' !in t || Continued(t)
        || var key := TrimSpace(t[..IndexOf(t, '=')]); key == "" || exists c <- key :: Reserved(c))
  }

  lemma {:induction false} RunIs(t: string, n: nat)
    ensures EndsInRun(t, n) <==> n == Backslashes(t)
  {
    if t != "" && t[|t| - 1] == '\\' {
      var init := t[..|t| - 1];
      if n > 0 {
        RunIs(init, n - 1);
        if EndsInRun(t, n) {
          assert forall i :: |init| - (n - 1) <= i < |init| ==> init[i] == t[i];
          assert EndsInRun(init, n - 1);
        }
        if EndsInRun(init, n - 1) {
          assert forall i :: |t| - n <= i < |t| ==> i == |t| - 1 || t[i] == init[i];
          assert EndsInRun(t, n);
        }
      }
    }
  }

  lemma FaultyLine(line: string)
    ensures CanonicalLine(line) <==> !Faulty(line)
  {
    hide Body, TrimSpace, EndsInRun, Backslashes;
    var t := Body(line);
    RunIs(t, Backslashes(t));
    forall n: nat | EndsInRun(t, n) ensures n == Backslashes(t) {
      RunIs(t, n);
    }
    if '=' in t {
      var i := IndexOf(t, '=');
      assert t == t[..i] + ['='] + t[i + 1..];
      CutAt(t[..i], '=', t[i + 1..]);
    }
  }

  method ValidateCanonicalProps(content: string) returns (ok: bool)
    ensures ok <==> Canonical(content)
    ensures ok <==> forall line <- Split(content, '\n') :: !Faulty(line)
  {
    hide Faulty, CanonicalBody, Body;
    forall line | line in Split(content, '\n') ensures CanonicalLine(line) <==> !Faulty(line) {
      FaultyLine(line);
    }
    var lines := Split(content, '\n');
    ghost var canonical := CanonicalLine;
    for i := 0 to |lines|
      invariant AllLines(lines[..i], canonical)
    {
      assert lines[..i + 1] == lines[..i] + [lines[i]];
      ok := CheckBody(Body(lines[i]));
      assert ok == canonical(lines[i]);
      if !ok {
        assert lines[i] in lines;
        return;
      }
    }
    assert lines[..|lines|] == lines;
    return true;
  }

  // ----- the port

  /** The values all lines give to one key, in order. */
  function ValuesOf(settings: seq<Setting>, key: string): seq<string> {
    if settings == [] then []
    else
      var before := ValuesOf(settings[..|settings| - 1], key);
      match settings[|settings| - 1]
      case None => before
      case Some((k, v)) => if k == key then before + [v] else before
  }

  lemma ValuesSnoc(lines: seq<string>, parse: string -> Setting, i: nat, key: string)
    requires i < |lines|
    ensures
      var before := ValuesOf(Settings(lines[..i], parse), key);
      ValuesOf(Settings(lines[..i + 1], parse), key)
      == match parse(lines[i]) case None => before case Some((k, v)) => if k == key then before + [v] else before
  {
    assert Settings(lines[..i + 1], parse)[..i] == Settings(lines[..i], parse);
  }

  function ReadPort(canonical: bool, values: seq<string>): PortRead {
    if !canonical || exists v <- values :: Padded(v) then Refused
    else if values == [] then NoPort
    else if |values| > 1 then Refused
    else
      match ParseInt(values[0])
      case None => Refused
      case Some(p) => if 1 <= p <= 65535 then Port(p) else Refused
  }

  function PortOf(content: string): PortRead {
    ReadPort(Canonical(content), ValuesOf(Settings(Split(content, '\n'), ParseLine), PORT_KEY))
  }

  method PropsPortValue(content: string) returns (r: PortRead)
    ensures r == PortOf(content)
  {
    var ok := ValidateCanonicalProps(content);
    if !ok {
      return Refused;
    }
    r := ScanPort(Split(content, '\n'), PORT_KEY);
  }

  /** The line loop of propsPortValue. Canonical text has a '=' on every line that counts, so the loop's
      test for a ':' separator has nothing left to find. */
  method ScanPort(lines: seq<string>, key: string) returns (r: PortRead)
    ensures r == ReadPort(true, ValuesOf(Settings(lines, ParseLine), key))
  {
    var ok, seen, last := ScanValues(lines, key, ParseLine, Padded);
    if !ok {
      return Refused;
    }
    if seen == 0 {
      return NoPort;
    }
    if seen > 1 {
      return Refused;
    }
    var port := ParseInt(last);
    if port.None? || port.value < 1 || port.value > 65535 {
      return Refused;
    }
    return Port(port.value);
  }

  predicate Padded(v: string) {
    v != TrimSpace(v)
  }

  method ScanValues(lines: seq<string>, key: string, parse: string -> Setting, padded: string -> bool)
    returns (ok: bool, seen: nat, last: string)
    ensures
      var values := ValuesOf(Settings(lines, parse), key);
      && (ok <==> forall v <- values :: !padded(v))
      && (ok ==> seen == |values| && (seen > 0 ==> last == values[seen - 1]))
  {
    seen, last := 0, "";
    ghost var values := [];
    for i := 0 to |lines|
      invariant values == ValuesOf(Settings(lines[..i], parse), key) && seen == |values|
      invariant seen > 0 ==> last == values[seen - 1]
      invariant forall v <- values :: !padded(v)
    {
      ValuesSnoc(lines, parse, i, key);
      var setting := parse(lines[i]);
      if setting.None? || setting.value.0 != key {
        continue;
      }
      seen, last, values := seen + 1, setting.value.1, values + [setting.value.1];
      if padded(last) {
        LaterKeeps(lines, parse, i + 1, key, last);
        return false, seen, last;
      }
    }
    assert lines[..|lines|] == lines;
    ok := true;
  }

  lemma {:induction false} LaterKeeps(lines: seq<string>, parse: string -> Setting, i: nat, key: string, v: string)
    requires i <= |lines| && v in ValuesOf(Settings(lines[..i], parse), key)
    ensures v in ValuesOf(Settings(lines, parse), key)
    decreases |lines|
  {
    hide ValuesOf;
    if i == |lines| {
      assert lines[..i] == lines;
    } else {
      var init := lines[..|lines| - 1];
      assert init[..i] == lines[..i];
      LaterKeeps(init, parse, i, key, v);
      ValuesSnoc(lines, parse, |lines| - 1, key);
      assert lines[..|lines| - 1 + 1] == lines;
    }
  }

  lemma {:induction false} LastValueWins(settings: seq<Setting>, key: string)
    ensures ValuesOf(settings, key) == [] <==> key !in Collect(settings)
    ensures var vs := ValuesOf(settings, key); vs != [] ==> Collect(settings)[key] == vs[|vs| - 1]
  {
    if settings != [] {
      LastValueWins(settings[..|settings| - 1], key);
    }
  }

  /** What reloadProps makes of a parsed port value. */
  function ReloadedPort(raw: string): Option<int> {
    match ParseInt(TrimSpace(raw))
    case None => None
    case Some(p) => if 1 <= p <= 65535 then Some(p) else None
  }

  /** The port the strict reader accepts is the one reloadProps adopts; where it sees none, neither does the parser. */
  lemma ReadersAgree(content: string)
    ensures PortOf(content).NoPort? ==> PORT_KEY !in ParseProps(content)
    ensures PortOf(content).Port? ==>
        PORT_KEY in ParseProps(content)
        && ReloadedPort(ParseProps(content)[PORT_KEY]) == Some(PortOf(content).port)
  {
    PortsAgree(Settings(Split(content, '\n'), ParseLine), Canonical(content), PORT_KEY);
  }

  lemma PortsAgree(settings: seq<Setting>, canonical: bool, key: string)
    ensures
      var r := ReadPort(canonical, ValuesOf(settings, key));
      && (r.NoPort? ==> key !in Collect(settings))
      && (r.Port? ==> key in Collect(settings) && ReloadedPort(Collect(settings)[key]) == Some(r.port))
  {
    LastValueWins(settings, key);
    var values := ValuesOf(settings, key);
    if values != [] {
      assert values[|values| - 1] in values;
    }
  }

  // ----- does a text already name a port

  /** The value a line gives the managed key, read more loosely than the parser does. */
  function PortLine(line: string): Option<string> {
    match Cut(TrimSpace(line), '=')
    case None => None
    case Some((k, v)) => if TrimSpace(k) == PORT_KEY then Some(TrimSpace(v)) else None
  }

  function FirstPort(lines: seq<string>, read: string -> Option<string>): Option<string> {
    if lines == [] then None
    else
      var before := FirstPort(lines[..|lines| - 1], read);
      if before.Some? then before else read(lines[|lines| - 1])
  }

  method HasPortLine(content: string, port: string) returns (has: bool)
    ensures has <==> FirstPort(Split(content, '\n'), PortLine) == Some(port)
  {
    var lines := Split(content, '\n');
    has := NamesPort(lines, port, PortLine);
  }

  method NamesPort(lines: seq<string>, port: string, read: string -> Option<string>) returns (has: bool)
    ensures has <==> FirstPort(lines, read) == Some(port)
  {
    for i := 0 to |lines|
      invariant FirstPort(lines[..i], read) == None
    {
      assert lines[..i + 1][..i] == lines[..i];
      var value := read(lines[i]);
      if value.Some? {
        FirstStays(lines, i + 1, read);
        return value.value == port;
      }
    }
    assert lines[..|lines|] == lines;
    has := false;
  }

  lemma {:induction false} FirstStays(lines: seq<string>, i: nat, read: string -> Option<string>)
    requires i <= |lines| && FirstPort(lines[..i], read).Some?
    ensures FirstPort(lines, read) == FirstPort(lines[..i], read)
    decreases |lines|
  {
    if i == |lines| {
      assert lines[..i] == lines;
    } else {
      assert lines[..|lines| - 1][..i] == lines[..i];
      FirstStays(lines[..|lines| - 1], i, read);
    }
  }

  /** What the strict sense of a line makes of the managed key. */
  function Managed(s: Setting): Option<string> {
    if s.Some? && s.value.0 == PORT_KEY then Some(TrimSpace(s.value.1)) else None
  }

  lemma Around(s: string, from: nat, end: nat)
    requires from <= end <= |s|
    requires (forall i :: 0 <= i < from ==> IsSpace(s[i])) && (forall i :: end <= i < |s| ==> IsSpace(s[i]))
    ensures TrimSpace(s) == TrimSpace(s[from..end])
  {
    hide TrimSpace, IsSpace;
    assert s == s[..from] + s[from..end] + s[end..];
    TrimSpaceAround(s[..from], s[from..end], s[end..]);
  }

  lemma TrimmedLeft(s: string)
    ensures TrimSpace(TrimLeft(s)) == TrimSpace(s)
  {
    hide TrimSpace;
    var t := TrimLeft(s);
    assert s[|s| - |t|..|s|] == t;
    Around(s, |s| - |t|, |s|);
  }

  lemma TrimmedRight(s: string)
    ensures TrimSpace(TrimRight(s)) == TrimSpace(s)
  {
    hide TrimSpace;
    var t := TrimRight(s);
    assert s[0..|t|] == t;
    Around(s, 0, |t|);
  }

  lemma TrimmedBlank(s: string)
    ensures TrimSpace(TrimLeftBlank(s)) == TrimSpace(s)
  {
    hide TrimSpace;
    var t := TrimLeftBlank(s);
    assert s[|s| - |t|..|s|] == t;
    forall i | 0 <= i < |s| - |t| ensures IsSpace(s[i]) {
      assert IsBlank(s[i]);
    }
    Around(s, |s| - |t|, |s|);
  }

  lemma TrimmedReturn(s: string)
    ensures TrimSpace(TrimReturn(s)) == TrimSpace(s)
  {
    hide TrimSpace;
    var t := TrimReturn(s);
    assert s[0..|t|] == t;
    Around(s, 0, |t|);
  }

  lemma BlankBeforeSign(k: string, c: char, v: string)
    requires !IsBlank(c)
    ensures TrimLeftBlank(k + [c] + v) == TrimLeftBlank(k) + [c] + v
    decreases |k|
  {
    var s := k + [c] + v;
    if k != "" && IsBlank(k[0]) {
      assert s[0] == k[0] && s[1..] == k[1..] + [c] + v;
      BlankBeforeSign(k[1..], c, v);
    } else {
      BlankFree(s);
    }
  }

  /** A comment's text cannot start with the managed key. */
  lemma CommentIsNoKey(k: string)
    requires Comment(k)
    ensures TrimSpace(k) != PORT_KEY
  {
    var t := TrimLeft(k);
    assert t == k;
    assert TrimRight(t) == "" || TrimRight(t)[0] == k[0];
  }

  lemma SignParts(k: string, v: string)
    requires '=' !in k
    ensures PortLine(k + ['='] + v) == if TrimSpace(k) == PORT_KEY then Some(TrimSpace(v)) else None
  {
    hide TrimLeft, TrimRight, TrimSpace;
    TrimAroundSign(k, '=', v);
    assert '=' !in TrimLeft(k);
    CutAt(TrimLeft(k), '=', TrimRight(v));
    TrimmedLeft(k);
    TrimmedRight(v);
  }

  lemma SignBody(k: string, v: string)
    ensures Body(k + ['='] + v) == TrimLeftBlank(k) + ['='] + TrimReturn(v)
  {
    ReturnOfPrinted(k, v);
    BlankBeforeSign(k, '=', TrimReturn(v));
  }

  lemma StrictParts(k: string, v: string)
    requires '=' !in k
    ensures Managed(ParseLine(k + ['='] + v)) == if TrimSpace(k) == PORT_KEY then Some(TrimSpace(v)) else None
  {
    hide TrimLeftBlank, TrimSpace, TrimReturn, Body;
    var b, r := TrimLeftBlank(k), TrimReturn(v);
    SignBody(k, v);
    assert '=' !in b;
    CutAt(b, '=', r);
    TrimmedBlank(k);
    TrimmedBlank(r);
    TrimmedReturn(v);
    if Comment(b + ['='] + r) {
      assert Comment(b);
      CommentIsNoKey(b);
    }
  }

  /** The loose reading and the parser see the managed key on the same lines with the same value. */
  lemma LineReadersAgree(line: string)
    ensures PortLine(line) == Managed(ParseLine(line))
  {
    hide TrimSpace, PortLine, ParseLine;
    match Cut(line, '=')
    case Some((k, v)) =>
      SignParts(k, v);
      StrictParts(k, v);
    case None => NoSign(line);
  }

  lemma NoSign(line: string)
    requires '=' !in line
    ensures PortLine(line) == None && ParseLine(line) == None
  {
    TrimWithin(line);
    BodyChars(line);
  }

  lemma BodyChars(line: string)
    ensures forall c <- Body(line) :: c in line
  {
    TrimWithin(line);
    TrimWithin(TrimReturn(line));
  }

  lemma {:induction false} FirstOfValues(lines: seq<string>, read: string -> Option<string>, parse: string -> Setting)
    requires forall l <- lines :: read(l) == Managed(parse(l))
    ensures
      var vs := ValuesOf(Settings(lines, parse), PORT_KEY);
      FirstPort(lines, read) == if vs == [] then None else Some(TrimSpace(vs[0]))
  {
    hide TrimSpace;
    if lines != [] {
      var n := |lines| - 1;
      assert lines[n] in lines && forall l <- lines[..n] :: l in lines;
      FirstOfValues(lines[..n], read, parse);
      ValuesSnoc(lines, parse, n, PORT_KEY);
      assert lines[..n + 1] == lines;
    }
  }

  /** In a text the strict reader accepts, the loose reading finds exactly the accepted value. */
  lemma FirstPortAccepted(content: string)
    requires !PortOf(content).Refused?
    ensures PortOf(content).NoPort? ==> PORT_KEY !in ParseProps(content)
    ensures PortOf(content).Port? ==>
      PORT_KEY in ParseProps(content) && ParseInt(ParseProps(content)[PORT_KEY]) == Some(PortOf(content).port)
      && TrimSpace(ParseProps(content)[PORT_KEY]) == ParseProps(content)[PORT_KEY]
      && FirstPort(Split(content, '\n'), PortLine) == Some(ParseProps(content)[PORT_KEY])
  {
    var lines := Split(content, '\n');
    forall l | l in lines ensures PortLine(l) == Managed(ParseLine(l)) {
      LineReadersAgree(l);
    }
    FirstOfValues(lines, PortLine, ParseLine);
    OneValue(Settings(lines, ParseLine), Canonical(content), PORT_KEY);
  }

  lemma OneValue(settings: seq<Setting>, canonical: bool, key: string)
    requires !ReadPort(canonical, ValuesOf(settings, key)).Refused?
    ensures
      var r, vs := ReadPort(canonical, ValuesOf(settings, key)), ValuesOf(settings, key);
      && (r.NoPort? ==> vs == [] && key !in Collect(settings))
      && (r.Port? ==> |vs| == 1 && key in Collect(settings) && Collect(settings)[key] == vs[0])
      && (r.Port? ==> ParseInt(vs[0]) == Some(r.port) && TrimSpace(vs[0]) == vs[0])
  {
    hide TrimSpace, ParseInt;
    LastValueWins(settings, key);
    var vs := ValuesOf(settings, key);
    if vs != [] {
      assert vs[0] in vs;
    }
  }

  // ----- what it accepts

  lemma PrintedBody(k: string, v: string)
    requires GoodKey(k) && GoodValue(v)
    ensures Body(PrintLine(k, v)) == PrintLine(k, v) && !Comment(PrintLine(k, v))
  {
    var t := PrintLine(k, v);
    ReturnOfPrinted(k, v);
    if k == "" {
      assert t[0] == '=';
    } else {
      TrimmedStart(k);
      assert t[0] == k[0];
    }
    BlankFree(t);
  }

  lemma PrintedCanonical(k: string, v: string)
    requires GoodKey(k) && GoodValue(v)
    ensures CanonicalLine(PrintLine(k, v)) <==> CanonicalKey(k) && !Continued(PrintLine(k, v))
  {
    hide TrimSpace, Body, EndsInRun, Backslashes, CanonicalKey;
    var t := PrintLine(k, v);
    PrintedBody(k, v);
    CutAt(k, '=', v);
    RunIs(t, Backslashes(t));
    forall n: nat | EndsInRun(t, n) ensures n == Backslashes(t) {
      RunIs(t, n);
    }
  }

  /** Keys and line ends the strict reader takes. */
  ghost predicate StrictlyFormed(m: PropMap) {
    forall k <- m :: CanonicalKey(k) && !Continued(PrintLine(k, m[k]))
  }

  lemma HeaderCanonical(h: string)
    requires Header(h)
    ensures CanonicalLine(h)
  {
    assert TrimReturn(h) == h;
    BlankFree(h);
  }

  lemma LinesCanonical(m: PropMap, keys: seq<string>, h1: string, h2: string)
    requires Enumerates(keys, m) && WellFormed(m) && Header(h1) && Header(h2)
    ensures AllLines([h1, h2] + (EntryLines(m, keys) + [""]), CanonicalLine) <==> StrictlyFormed(m)
  {
    hide Header, GoodKey, GoodValue, CanonicalKey, CanonicalLine, Continued, PrintLine;
    HeaderCanonical(h1);
    HeaderCanonical(h2);
    NothingCanonical();
    var lines := EntryLines(m, keys);
    forall i | 0 <= i < |keys|
      ensures CanonicalLine(lines[i]) <==> CanonicalKey(keys[i]) && !Continued(PrintLine(keys[i], m[keys[i]]))
    {
      assert keys[i] in m;
      PrintedCanonical(keys[i], m[keys[i]]);
    }
    EntriesStrict(m, keys, CanonicalLine);
    var all := [h1, h2] + (lines + [""]);
    assert forall l :: l in all <==> l == h1 || l == h2 || l in lines || l == "";
  }

  lemma NothingCanonical()
    ensures CanonicalLine("")
  {
  }

  lemma EntriesStrict(m: PropMap, keys: seq<string>, ok: string -> bool)
    requires Enumerates(keys, m)
    requires forall i :: 0 <= i < |keys| ==>
      (ok(EntryLines(m, keys)[i]) <==> CanonicalKey(keys[i]) && !Continued(PrintLine(keys[i], m[keys[i]])))
    ensures (forall l <- EntryLines(m, keys) :: ok(l)) <==> StrictlyFormed(m)
  {
    hide CanonicalKey, Continued, PrintLine;
    var lines := EntryLines(m, keys);
    if StrictlyFormed(m) {
      forall i | 0 <= i < |keys| ensures ok(lines[i]) {
        assert keys[i] in m;
      }
    }
    if forall l <- lines :: ok(l) {
      forall k | k in m ensures CanonicalKey(k) && !Continued(PrintLine(k, m[k])) {
        var i :| 0 <= i < |keys| && keys[i] == k;
        assert ok(lines[i]);
      }
    }
  }

  lemma {:induction false} ValuesSkip(settings: seq<Setting>, key: string)
    ensures ValuesOf([None, None] + settings, key) == ValuesOf(settings, key)
  {
    var all := [None, None] + settings;
    if settings == [] {
      assert all[..1] == [None];
      var one: seq<Setting> := [None];
      assert one[..0] == [];
    } else {
      assert all[..|all| - 1] == [None, None] + settings[..|settings| - 1];
      ValuesSkip(settings[..|settings| - 1], key);
    }
  }

  lemma ValuesLast(settings: seq<Setting>, k: string, v: string, key: string)
    ensures ValuesOf(settings + [Some((k, v))], key) == ValuesOf(settings, key) + if k == key then [v] else []
  {
    assert (settings + [Some((k, v))])[..|settings|] == settings;
  }

  lemma {:induction false} ValuesReturned(m: PropMap, keys: seq<string>, key: string)
    requires forall k <- keys :: k in m && !Comment(k) && TrimReturn(m[k]) == m[k]
    requires forall i, j :: 0 <= i < j < |keys| ==> keys[i] != keys[j]
    ensures ValuesOf(Returned(m, keys), key) == if key in keys then [m[key]] else []
  {
    hide Comment, TrimReturn, ValuesOf;
    if keys == [] {
      NoValues(m, key);
    } else {
      var n := |keys| - 1;
      var k := keys[n];
      assert k in keys && forall x <- keys[..n] :: x in keys;
      assert Returned(m, keys) == Returned(m, keys[..n]) + [Some((k, m[k]))];
      ValuesLast(Returned(m, keys[..n]), k, m[k], key);
      ValuesReturned(m, keys[..n], key);
      assert keys == keys[..n] + [k] && k !in keys[..n];
    }
  }

  lemma NoValues(m: PropMap, key: string)
    ensures ValuesOf(Returned(m, []), key) == []
  {
  }

  lemma ValuesUnder(h1: string, h2: string, lines: seq<string>, parse: string -> Setting, key: string)
    requires parse(h1) == None && parse(h2) == None && parse("") == None
    ensures ValuesOf(Settings([h1, h2] + (lines + [""]), parse), key) == ValuesOf(Settings(lines, parse), key)
  {
    var nothing: seq<Setting> := [None, None];
    var last: seq<Setting> := [None];
    assert Settings([h1, h2] + (lines + [""]), parse) == nothing + (Settings(lines, parse) + last);
    ValuesSkip(Settings(lines, parse) + last, key);
    assert (Settings(lines, parse) + last)[..|lines|] == Settings(lines, parse);
  }

  /** The strict reader takes a file the panel printed from well formed settings exactly when every key is canonical and
      no line goes on; it then reads the port those settings hold. */
  lemma PrintedPort(m: PropMap)
    requires WellFormed(m)
    ensures Canonical(Printed(m)) <==> StrictlyFormed(m)
    ensures PortOf(Printed(m)) == ReadPort(StrictlyFormed(m), if PORT_KEY in m then [m[PORT_KEY]] else [])
  {
    hide *;
    SomeOrder(m.Keys);
    var keys :| InOrder(keys, m.Keys);
    PrintedInOrder(m, keys);
    PrintedPortIn(m, keys);
  }

  lemma PrintedPortIn(m: PropMap, keys: seq<string>)
    requires WellFormed(m) && Enumerates(keys, m)
    ensures Canonical(PrintProps(m, keys)) <==> StrictlyFormed(m)
    ensures PortOf(PrintProps(m, keys)) == ReadPort(StrictlyFormed(m), if PORT_KEY in m then [m[PORT_KEY]] else [])
  {
    hide *;
    PrintedLines(m, keys);
    PrintedStrict(m, keys);
    PrintedValues(m, keys);
    PortFrom(PrintProps(m, keys));
  }

  lemma PortFrom(content: string)
    ensures Canonical(content) <==> AllLines(Split(content, '\n'), CanonicalLine)
    ensures PortOf(content) ==
      ReadPort(Canonical(content), ValuesOf(Settings(Split(content, '\n'), ParseLine), PORT_KEY))
  {
  }

  function AllPrinted(m: PropMap, keys: seq<string>): seq<string>
    requires forall k <- keys :: k in m
  {
    [HEADER1, HEADER2] + (EntryLines(m, keys) + [""])
  }

  lemma PrintedLines(m: PropMap, keys: seq<string>)
    requires WellFormed(m) && Enumerates(keys, m)
    ensures (forall k <- keys :: k in m) && Split(PrintProps(m, keys), '\n') == AllPrinted(m, keys)
  {
    hide Split, PrintEntries, GoodKey, GoodValue, Header;
    HeadersAreHeaders();
    HeaderOneLine(HEADER1);
    HeaderOneLine(HEADER2);
    WellContained(m);
    SplitProps(m, keys, HEADER1, HEADER2);
  }

  lemma HeaderOneLine(h: string)
    requires Header(h)
    ensures '\n' !in h
  {
  }

  lemma PrintedStrict(m: PropMap, keys: seq<string>)
    requires WellFormed(m) && Enumerates(keys, m)
    ensures (forall k <- keys :: k in m) && (AllLines(AllPrinted(m, keys), CanonicalLine) <==> StrictlyFormed(m))
  {
    hide Header, WellFormed, StrictlyFormed, CanonicalLine, AllLines;
    HeadersAreHeaders();
    LinesCanonical(m, keys, HEADER1, HEADER2);
  }

  lemma PrintedValues(m: PropMap, keys: seq<string>)
    requires WellFormed(m) && Enumerates(keys, m)
    ensures (forall k <- keys :: k in m)
    ensures ValuesOf(Settings(AllPrinted(m, keys), ParseLine), PORT_KEY) == if PORT_KEY in m then [m[PORT_KEY]] else []
  {
    hide WellFormed, ParseLine, ValuesOf, Header, Comment, TrimReturn;
    HeadersAreHeaders();
    WellContained(m);
    HeaderSkipped(HEADER1);
    HeaderSkipped(HEADER2);
    EmptySkipped();
    ValuesUnder(HEADER1, HEADER2, EntryLines(m, keys), ParseLine, PORT_KEY);
    SettingsPrinted(m, keys);
    WellReturned(m, keys);
    ValuesReturned(m, keys, PORT_KEY);
  }

  lemma EmptySkipped()
    ensures ParseLine("") == None
  {
  }

  lemma WellContained(m: PropMap)
    requires WellFormed(m)
    ensures AllContained(m)
  {
    hide TrimSpace, TrimLeftBlank, TrimReturn;
  }

  lemma WellReturned(m: PropMap, keys: seq<string>)
    requires WellFormed(m) && forall k <- keys :: k in m
    ensures forall k <- keys :: !Comment(k) && TrimReturn(m[k]) == m[k]
  {
    hide TrimSpace, TrimLeftBlank, TrimReturn;
  }

  /** A port printed as the panel prints it is read as itself. */
  lemma PlainPortRead(p: nat)
    requires 1 <= p <= 65535
    ensures ReadPort(true, [Itoa(p)]) == Port(p)
  {
    hide Itoa, ParseInt, TrimSpace;
    ItoaReads(p);
    assert forall c <- Itoa(p) :: IsDigit(c);
    DigitsNoSpace(Itoa(p));
  }

  /** So is the smallest file that names a port. */
  lemma OneLinePort(p: nat)
    requires 1 <= p <= 65535
    ensures PortOf(PrintLine(PORT_KEY, Itoa(p))) == Port(p)
  {
    hide Itoa, ReadPort, CanonicalLine, ParseLine, Header, Split, Continued, CanonicalKey;
    var v := Itoa(p);
    var text := PrintLine(PORT_KEY, v);
    PlainEntry(p);
    NoNewline(text);
    PrintedCanonical(PORT_KEY, v);
    PrintedLine(PORT_KEY, v);
    OneSetting(text, ParseLine, PORT_KEY, v);
    PlainPortRead(p);
  }

  lemma NoNewline(text: string)
    requires '\n' !in text
    ensures Split(text, '\n') == [text]
  {
  }

  lemma OneSetting(line: string, parse: string -> Setting, key: string, v: string)
    requires parse(line) == Some((key, v))
    ensures ValuesOf(Settings([line], parse), key) == [v]
  {
    var s := Settings([line], parse);
    assert s[..0] == [];
  }

  lemma PlainEntry(p: nat)
    ensures GoodKey(PORT_KEY) && GoodValue(Itoa(p)) && CanonicalKey(PORT_KEY) && !Comment(PORT_KEY)
    ensures Contained(PORT_KEY, Itoa(p)) && TrimReturn(Itoa(p)) == Itoa(p)
    ensures !Continued(PrintLine(PORT_KEY, Itoa(p))) && '\n' !in PrintLine(PORT_KEY, Itoa(p))
  {
    var v := Itoa(p);
    PortKeyGood();
    assert IsDigit(v[0]) && IsDigit(v[|v| - 1]);
    BlankFree(v);
    assert PrintLine(PORT_KEY, v)[|PrintLine(PORT_KEY, v)| - 1] == v[|v| - 1];
  }

  lemma PortKeyGood()
    ensures GoodKey(PORT_KEY) && CanonicalKey(PORT_KEY)
  {
    hide TrimSpace;
    LetterNoSpace(PORT_KEY[0]);
    LetterNoSpace(PORT_KEY[|PORT_KEY| - 1]);
    NothingToTrim(PORT_KEY);
  }

  lemma LetterNoSpace(c: char)
    requires 'a' <= c <= 'z'
    ensures !IsSpace(c)
  {
  }
}
