/** Accounts and sessions as values: what a session is worth, and the changes that keep it so. */
module Sessions {
  import opened Sets
  import opened GoText

  type Token = string

  const PER_USER := 32
  const IN_ALL := 4096

  datatype Role = Viewer | Operator | Admin

  datatype Credential = Credential(salt: string, hash: string)

  datatype User = User(name: string, role: Role, credential: Credential, mustChange: bool)

  /** minted is history: the credential the password was checked against. */
  datatype Session = Session(user: string, role: Role, expires: nat, minted: Credential)

  /** keep is history: the token that survived the user's own last password change. */
  datatype Sys = Sys(
    users: map<string, User>,
    saved: map<string, User>,
    sessions: map<Token, Session>,
    keep: map<string, Token>)

  /** Sessions are found by case-folded name. */
  function Owned(sessions: map<Token, Session>, key: string): (ts: set<Token>)
    ensures ts <= sessions.Keys
  {
    set t <- sessions | Lower(sessions[t].user) == key
  }

  function Without(sessions: map<Token, Session>, gone: set<Token>): map<Token, Session> {
    sessions - gone
  }

  predicate HasAdmin(users: map<string, User>) {
    exists k <- users :: users[k].role == Admin
  }

  // ----- the invariant

  /** Its user exists and has its role, and it was minted against what is now that user's credential, or is the one
      token the user kept through a password change. */
  predicate Current(v: Sys, t: Token)
    requires t in v.sessions
  {
    var s := v.sessions[t];
    var key := Lower(s.user);
    && key in v.users && s.role == v.users[key].role
    && (s.minted == v.users[key].credential || (key in v.keep && v.keep[key] == t))
  }

  predicate Bounded(sessions: map<Token, Session>) {
    |sessions| <= IN_ALL && forall t <- sessions :: |Owned(sessions, Lower(sessions[t].user))| <= PER_USER
  }

  predicate Sound(v: Sys) {
    && v.saved == v.users
    && (forall k <- v.users :: Lower(v.users[k].name) == k)
    && (forall t <- v.sessions :: Current(v, t))
    && Bounded(v.sessions)
  }

  // ----- the changes

  function Committed(v: Sys, users: map<string, User>): Sys {
    v.(users := users, saved := users)
  }

  function Created(v: Sys, u: User): Sys {
    Committed(v, v.users[Lower(u.name) := u])
  }

  function Ended(v: Sys, gone: set<Token>): Sys {
    v.(sessions := Without(v.sessions, gone))
  }

  function Opened(v: Sys, t: Token, s: Session): Sys {
    v.(sessions := v.sessions[t := s])
  }

  /** The new credential, and every session of the user ended but the caller's own. */
  function PasswordSet(v: Sys, key: string, c: Credential, mustChange: bool, own: Token): Sys
    requires key in v.users
  {
    var w := Committed(v, v.users[key := v.users[key].(credential := c, mustChange := mustChange)]);
    Ended(w, Owned(v.sessions, key) - {own}).(keep := v.keep[key := own])
  }

  function UserGone(v: Sys, key: string): Sys {
    Ended(Committed(v, v.users - {key}), Owned(v.sessions, key)).(keep := v.keep - {key})
  }

  lemma FewerBounded(sessions: map<Token, Session>, gone: set<Token>)
    requires Bounded(sessions)
    ensures Bounded(Without(sessions, gone))
  {
    var rest := Without(sessions, gone);
    SubsetSize(rest.Keys, sessions.Keys);
    forall t | t in rest ensures |Owned(rest, Lower(rest[t].user))| <= PER_USER {
      SubsetSize(Owned(rest, Lower(rest[t].user)), Owned(sessions, Lower(sessions[t].user)));
    }
  }

  lemma EndedSound(v: Sys, gone: set<Token>)
    requires Sound(v)
    ensures Sound(Ended(v, gone))
  {
    FewerBounded(v.sessions, gone);
    forall t | t in Ended(v, gone).sessions ensures Current(Ended(v, gone), t) {
      assert Current(v, t);
    }
  }

  lemma CreatedSound(v: Sys, u: User)
    requires Sound(v) && Lower(u.name) !in v.users
    ensures Sound(Created(v, u)) && (HasAdmin(v.users) ==> HasAdmin(Created(v, u).users))
  {
    forall t | t in v.sessions ensures Current(Created(v, u), t) {
      assert Current(v, t);
    }
    if k :| k in v.users && v.users[k].role == Admin {
      assert Created(v, u).users[k] == v.users[k];
    }
  }

  /** After a password change no session lives on the old credential but the caller's own. */
  lemma PasswordSetSound(v: Sys, key: string, c: Credential, mustChange: bool, own: Token)
    requires Sound(v) && key in v.users
    ensures Sound(PasswordSet(v, key, c, mustChange, own))
    ensures Owned(PasswordSet(v, key, c, mustChange, own).sessions, key) <= {own}
    ensures HasAdmin(v.users) ==> HasAdmin(PasswordSet(v, key, c, mustChange, own).users)
  {
    hide Bounded, HasAdmin, Lower, Current, Owned, Without;
    var w := PasswordSet(v, key, c, mustChange, own);
    if HasAdmin(v.users) {
      AdminStays(v.users, key, c, mustChange);
    }
    FewerBounded(v.sessions, Owned(v.sessions, key) - {own});
    StayCurrent(v, key, c, mustChange, own);
    NamesKept(v.users, key, c, mustChange);
    OnlyOwn(v.sessions, key, own);
  }

  lemma StayCurrent(v: Sys, key: string, c: Credential, mustChange: bool, own: Token)
    requires key in v.users && forall t <- v.sessions :: Current(v, t)
    ensures
      var w := PasswordSet(v, key, c, mustChange, own);
      forall t <- w.sessions :: Current(w, t)
  {
    hide Lower;
    var w := PasswordSet(v, key, c, mustChange, own);
    forall t | t in w.sessions ensures Current(w, t) {
      assert Current(v, t);
    }
  }

  lemma OnlyOwn(sessions: map<Token, Session>, key: string, own: Token)
    ensures Owned(Without(sessions, Owned(sessions, key) - {own}), key) <= {own}
  {
    hide Lower;
  }

  lemma NamesKept(users: map<string, User>, key: string, c: Credential, mustChange: bool)
    requires key in users && forall k <- users :: Lower(users[k].name) == k
    ensures
      var after := users[key := users[key].(credential := c, mustChange := mustChange)];
      forall k <- after :: Lower(after[k].name) == k
  {
    hide Lower;
  }

  lemma AdminStays(users: map<string, User>, key: string, c: Credential, mustChange: bool)
    requires key in users && HasAdmin(users)
    ensures HasAdmin(users[key := users[key].(credential := c, mustChange := mustChange)])
  {
    var k :| k in users && users[k].role == Admin;
    assert users[key := users[key].(credential := c, mustChange := mustChange)][k].role == Admin;
  }

  lemma UserGoneSound(v: Sys, key: string)
    requires Sound(v) && key in v.users
    ensures Sound(UserGone(v, key)) && Owned(UserGone(v, key).sessions, key) == {}
  {
    var w := UserGone(v, key);
    FewerBounded(v.sessions, Owned(v.sessions, key));
    forall t | t in w.sessions ensures Current(w, t) {
      assert Current(v, t);
    }
  }

  /** A session opened within both limits, on the credential that is current at that moment. */
  lemma OpenedSound(v: Sys, t: Token, s: Session)
    requires Sound(v) && Lower(s.user) in v.users
    requires s.role == v.users[Lower(s.user)].role && s.minted == v.users[Lower(s.user)].credential
    requires |v.sessions| < IN_ALL && |Owned(v.sessions, Lower(s.user))| < PER_USER
    ensures Sound(Opened(v, t, s))
  {
    hide Lower, Bounded;
    var w := Opened(v, t, s);
    MoreBounded(v.sessions, t, s);
    forall o | o in w.sessions ensures Current(w, o) {
      if o != t {
        assert Current(v, o);
      }
    }
  }

  lemma MoreBounded(sessions: map<Token, Session>, t: Token, s: Session)
    requires Bounded(sessions) && |sessions| < IN_ALL && |Owned(sessions, Lower(s.user))| < PER_USER
    ensures Bounded(sessions[t := s])
  {
    hide Lower;
    var more := sessions[t := s];
    assert more.Keys == sessions.Keys + {t};
    forall o | o in more ensures |Owned(more, Lower(more[o].user))| <= PER_USER {
      var k := Lower(more[o].user);
      if k == Lower(s.user) {
        SubsetSize(Owned(more, k), Owned(sessions, k) + {t});
      } else {
        SubsetSize(Owned(more, k), Owned(sessions, k));
      }
    }
  }

  function Admins(users: map<string, User>): set<string> {
    set k <- users | users[k].role == Admin
  }

  /** Deleting an admin while another is left leaves one. */
  lemma AdminRemains(users: map<string, User>, key: string)
    requires key in users && HasAdmin(users) && (users[key].role == Admin ==> |Admins(users)| > 1)
    ensures HasAdmin(users - {key})
  {
    if users[key].role == Admin {
      assert Admins(users) == {key} + (Admins(users) - {key});
      assert |Admins(users) - {key}| > 0;
      var k :| k in Admins(users) - {key};
      assert (users - {key})[k].role == Admin;
    } else {
      var k :| k in users && users[k].role == Admin;
      assert k in users - {key};
    }
  }

  /** A session that is not its user's kept token proves its holder once showed the password that is current now. */
  lemma SessionTracksCredential(v: Sys, t: Token)
    requires Sound(v) && t in v.sessions
    requires Lower(v.sessions[t].user) in v.keep ==> v.keep[Lower(v.sessions[t].user)] != t
    ensures Lower(v.sessions[t].user) in v.users
    ensures v.sessions[t].minted == v.users[Lower(v.sessions[t].user)].credential
    ensures v.sessions[t].role == v.users[Lower(v.sessions[t].user)].role
  {
    assert Current(v, t);
  }

  // ----- whole runs

  /** Each locked section of the account code, and the restart that forgets every session. */
  datatype Op =
    | Create(user: User)
    | Password(key: string, credential: Credential, mustChange: bool, own: Token)
    | Delete(key: string)
    | Open(token: Token, session: Session)
    | End(gone: set<Token>)
    | Restart

  predicate Allowed(v: Sys, op: Op) {
    match op
    case Create(u) => Lower(u.name) !in v.users
    case Password(key, _, _, _) => key in v.users
    case Delete(key) => key in v.users && (v.users[key].role == Admin ==> |Admins(v.users)| > 1)
    case Open(_, s) =>
      && Lower(s.user) in v.users && s.role == v.users[Lower(s.user)].role
      && s.minted == v.users[Lower(s.user)].credential
      && |v.sessions| < IN_ALL && |Owned(v.sessions, Lower(s.user))| < PER_USER
    case End(_) => true
    case Restart => true
  }

  function Apply(v: Sys, op: Op): Sys
    requires Allowed(v, op)
  {
    match op
    case Create(u) => Created(v, u)
    case Password(key, c, mustChange, own) => PasswordSet(v, key, c, mustChange, own)
    case Delete(key) => UserGone(v, key)
    case Open(t, s) => Opened(v, t, s)
    case End(gone) => Ended(v, gone)
    case Restart => Sys(v.saved, v.saved, map[], map[])
  }

  lemma StepSound(v: Sys, op: Op)
    requires Sound(v) && Allowed(v, op)
    ensures Sound(Apply(v, op))
    ensures HasAdmin(v.users) ==> HasAdmin(Apply(v, op).users)
  {
    hide Lower, HasAdmin, Bounded, Current;
    match op {
      case Create(u) => CreatedSound(v, u);
      case Password(key, c, mustChange, own) => PasswordSetSound(v, key, c, mustChange, own);
      case Delete(key) =>
        UserGoneSound(v, key);
        if HasAdmin(v.users) {
          AdminRemains(v.users, key);
        }
      case Open(t, s) => OpenedSound(v, t, s);
      case End(gone) => EndedSound(v, gone);
      case Restart => NoSessions(v.saved);
    }
  }

  lemma NoSessions(users: map<string, User>)
    requires forall k <- users :: Lower(users[k].name) == k
    ensures Sound(Sys(users, users, map[], map[]))
  {
  }

  predicate Run(vs: seq<Sys>, ops: seq<Op>) {
    |vs| == |ops| + 1
    && forall i :: 0 <= i < |ops| ==> Allowed(vs[i], ops[i]) && vs[i + 1] == Apply(vs[i], ops[i])
  }

  /** Over every run sessions track credentials and stay within both limits, and once an admin exists one
      always does. */
  lemma {:induction false} RunSound(vs: seq<Sys>, ops: seq<Op>)
    requires Run(vs, ops) && Sound(vs[0])
    ensures forall v <- vs :: Sound(v) && (HasAdmin(vs[0].users) ==> HasAdmin(v.users))
    decreases |ops|
  {
    hide Sound, Apply, Allowed, HasAdmin;
    if ops != [] {
      StepSound(vs[0], ops[0]);
      RunSound(vs[1..], ops[1..]);
      assert vs == [vs[0]] + vs[1..];
    }
  }
}
