/**
 What a restore makes of the server.properties an archive brings: the metadata the panel adopts from it, and the file
 that stays when the ports disagree. Reading the file and moving the port can both fail; the answers are parameters.
 */
module RestoreProps {
  import opened Options
  import opened Trees
  import opened GoText
  import opened Props
  import opened PropsPort
  import opened RestoreDisk

  const FILE_NAME := "server.properties"
  const PLAYERS_KEY := "max-players"

  /** How a file's bytes stand for a text. */
  datatype Codec = Codec(decode: seq<Byte> -> string, encode: string -> seq<Byte>)

  ghost predicate Lossless(c: Codec) {
    forall s :: c.decode(c.encode(s)) == s
  }

  /** Whether the staged file and then the installed one could be read, and whether the ledger let the server move to
      the port it names. */
  datatype Answers = Answers(staged: bool, readable: bool, movable: bool)

  function Content(archive: Entries, c: Codec): Option<string> {
    if FILE_NAME in archive && archive[FILE_NAME].File? then Some(c.decode(archive[FILE_NAME].bytes)) else None
  }

  /** The pre-swap test: the strict reader may refuse the archive's text. */
  predicate Admissible(archive: Entries, c: Codec) {
    match Content(archive, c)
    case None => true
    case Some(text) => !PortOf(text).Refused?
  }

  /** reloadProps: the file replaces the settings; a port out of range or refused is replaced by the current one. */
  function Reload(before: Meta, text: string, movable: bool): Meta {
    var parsed := ParseProps(text);
    var wanted := if PORT_KEY in parsed then ReloadedPort(parsed[PORT_KEY]) else Some(before.port);
    var adopted := wanted.Some? && (wanted.value == before.port || movable);
    var players := if PLAYERS_KEY in parsed then Atoi(parsed[PLAYERS_KEY]) else 0;
    Meta(if adopted then wanted.value else before.port,
         if adopted then parsed else parsed[PORT_KEY := Itoa(before.port)],
         if players > 0 then players else before.maxPlayers)
  }

  /** The player limit after a text was read: the number it names, if that is a positive one, and else the
      limit before. */
  ghost predicate LimitFollows(text: string, before: int, after: int) {
    var m := ParseProps(text);
    && (PLAYERS_KEY !in m ==> after == before)
    && (PLAYERS_KEY in m ==>
          match ParseInt(TrimSpace(m[PLAYERS_KEY]))
          case None => after == before
          case Some(n) => after == if n > 0 then n else before)
    && forall n: nat :: 0 < n <= MAX_INT && PLAYERS_KEY in m && m[PLAYERS_KEY] == Itoa(n) ==> after == n
  }

  lemma ReloadedLimit(before: Meta, text: string, movable: bool)
    ensures LimitFollows(text, before.maxPlayers, Reload(before, text, movable).maxPlayers)
  {
    hide ParseProps, TrimSpace, ParseInt, Itoa;
    var m := ParseProps(text);
    forall n: nat | 0 < n <= MAX_INT && PLAYERS_KEY in m && m[PLAYERS_KEY] == Itoa(n)
      ensures Reload(before, text, movable).maxPlayers == n
    {
      ItoaReads(n);
    }
  }

  /** Whatever the text, every other setting is the file's, and the port in the settings is the model's. */
  lemma ReloadedSettings(before: Meta, text: string, movable: bool)
    requires before.port <= MAX_INT
    ensures
      var m, parsed := Reload(before, text, movable), ParseProps(text);
      && m.props.Keys == parsed.Keys && (forall k <- parsed :: k != PORT_KEY ==> m.props[k] == parsed[k])
      && (m.port == before.port || (movable && 1 <= m.port <= 65535))
      && if PORT_KEY in parsed then Atoi(m.props[PORT_KEY]) == m.port else m.port == before.port
  {
    hide ParseProps, TrimSpace, ParseInt, Itoa;
    ItoaReads(before.port);
  }

  method ReloadProps(before: Meta, text: string, movable: bool) returns (after: Meta)
    ensures after == Reload(before, text, movable)
    ensures LimitFollows(text, before.maxPlayers, after.maxPlayers)
  {
    hide ParseProps, TrimSpace, ParseInt, Itoa, Atoi, LimitFollows;
    ReloadedLimit(before, text, movable);
    KeysDiffer();
    var parsed := ParsePropsLines(text);
    var port := before.port;
    if PORT_KEY in parsed {
      var p := ParseInt(TrimSpace(parsed[PORT_KEY]));
      if p.None? || p.value < 1 || p.value > 65535 || (p.value != before.port && !movable) {
        parsed := parsed[PORT_KEY := Itoa(before.port)];
      } else {
        port := p.value;
      }
    }
    var players := if PLAYERS_KEY in parsed then Atoi(parsed[PLAYERS_KEY]) else 0;
    after := Meta(port, parsed, if players > 0 then players else before.maxPlayers);
  }

  lemma KeysDiffer()
    ensures PLAYERS_KEY != PORT_KEY
  {
    assert PLAYERS_KEY[0] != PORT_KEY[0];
  }

  /** The model names a port that is not the one the text names. */
  predicate NeedsReprint(props: PropMap, text: string) {
    PORT_KEY in props && props[PORT_KEY] != "" && FirstPort(Split(text, '\n'), PortLine) != Some(props[PORT_KEY])
  }

  /** The tree and the metadata a restore commits. */
  ghost function Adoption(before: Meta, archive: Entries, c: Codec, w: Answers): (r: (Entries, Meta)) {
    match Content(archive, c)
    case None => (archive, before)
    case Some(text) =>
      if !w.readable then (archive, before)
      else
        var m := Reload(before, text, w.movable);
        (if NeedsReprint(m.props, text) then archive[FILE_NAME := File(c.encode(Printed(m.props)))] else archive, m)
  }

  /** The player limit a restore of this archive leaves. */
  ghost predicate LimitAdopted(before: Meta, archive: Entries, c: Codec, w: Answers, limit: int) {
    match Content(archive, c)
    case None => limit == before.maxPlayers
    case Some(text) => if w.readable then LimitFollows(text, before.maxPlayers, limit) else limit == before.maxPlayers
  }

  lemma AdoptionLimit(before: Meta, archive: Entries, c: Codec, w: Answers)
    ensures LimitAdopted(before, archive, c, w, Adoption(before, archive, c, w).1.maxPlayers)
  {
    hide LimitFollows, Reload, NeedsReprint;
    var text := Content(archive, c);
    if text.Some? {
      ReloadedLimit(before, text.value, w.movable);
    }
  }

  /** An archive with a file the panel printed passes the pre-swap test, if the strict reader takes its keys and line
      ends and the port in it is one. */
  lemma OwnFileAdmissible(archive: Entries, c: Codec, m: PropMap, p: nat)
    requires Lossless(c) && WellFormed(m) && StrictlyFormed(m)
    requires PORT_KEY in m ==> m[PORT_KEY] == Itoa(p) && 1 <= p <= 65535
    requires FILE_NAME in archive && archive[FILE_NAME] == File(c.encode(Printed(m)))
    ensures Admissible(archive, c)
    ensures PortOf(Printed(m)) == if PORT_KEY in m then Port(p) else NoPort
  {
    hide Printed, WellFormed, StrictlyFormed, PortOf, Itoa;
    PrintedPort(m);
    if PORT_KEY in m {
      PlainPortRead(p);
    }
    NoValuesNoPort();
  }

  lemma NoValuesNoPort()
    ensures ReadPort(true, []) == NoPort
  {
  }

  /** In a text that passed the pre-swap test the port is adopted with everything else and the file stays as it came,
      unless the ledger refuses it; then the old port stays, in the settings too, and the file is printed anew. */
  lemma ReloadFollowsFile(before: Meta, text: string, movable: bool)
    requires !PortOf(text).Refused?
    ensures
      var m, parsed := Reload(before, text, movable), ParseProps(text);
      match PortOf(text)
      case Port(p) =>
        if p == before.port || movable then m.port == p && m.props == parsed && !NeedsReprint(m.props, text)
        else m.port == before.port && m.props == parsed[PORT_KEY := Itoa(before.port)] && NeedsReprint(m.props, text)
      case NoPort => m.port == before.port && m.props == parsed && !NeedsReprint(m.props, text)
  {
    hide ParseProps, TrimSpace, ParseInt, Itoa, Atoi, PortOf, FirstPort;
    FirstPortAccepted(text);
    ReadersAgree(text);
    if PortOf(text).Port? {
      RefusedPortDiffers(ParseProps(text)[PORT_KEY], PortOf(text).port, before.port);
    }
  }

  lemma RefusedPortDiffers(raw: string, p: int, current: nat)
    requires ParseInt(raw) == Some(p)
    ensures raw == Itoa(current) ==> p == current
    ensures Itoa(current) != ""
  {
    if raw == Itoa(current) {
      assert IsDigit(raw[0]);
    }
  }

  /** The committed file reads back as the committed settings, unless it had to be printed anew from settings that do
      not survive printing. */
  lemma CommittedFileAgrees(before: Meta, archive: Entries, c: Codec, w: Answers)
    requires Lossless(c) && Admissible(archive, c) && Content(archive, c).Some? && w.readable
    ensures
      var (tree, meta) := Adoption(before, archive, c, w);
      var text := Content(archive, c).value;
      && Content(tree, c).Some? && tree.Keys == archive.Keys
      && (forall n <- archive :: n != FILE_NAME ==> tree[n] == archive[n])
      && (ParseProps(Content(tree, c).value) == meta.props
          <==> (NeedsReprint(meta.props, text) ==> WellFormed(meta.props)))
  {
    var text := Content(archive, c).value;
    var m := Reload(before, text, w.movable);
    ReloadFollowsFile(before, text, w.movable);
    PrintedReadsBack(m.props);
  }

  /** A file that cannot be read after the install is committed all the same: then the metadata stays the old. */
  lemma UnreadableKeepsOldMeta(before: Meta, archive: Entries, c: Codec, w: Answers)
    requires Content(archive, c).Some?
    ensures
      var adopted := Reload(before, Content(archive, c).value, w.movable);
      Adoption(before, archive, c, w).1 == adopted <==> (w.readable || adopted == before)
  {
  }
}
