/**
 Login, password changes and account changes in place. Hashing runs outside the lock, so any other locked section may
 run meanwhile.
 */
module Accounts {
  import opened Options
  import opened GoText
  import opened Sessions

  const MAX_NAME := 128
  const MAX_PASSWORD := 1024
  const TTL := 43200

  datatype Outcome = Fine | Denied | TooMany

  class Auth {
    const hash: (string, string) -> string
    var users: map<string, User>
    /** users.json */
    var saved: map<string, User>
    var sessions: map<Token, Session>
    ghost var keep: map<string, Token>

    ghost function View(): Sys
      reads this
    {
      Sys(users, saved, sessions, keep)
    }

    ghost predicate Valid()
      reads this
    {
      Sound(View())
    }

    constructor (hash: (string, string) -> string)
      ensures Valid() && users == map[] && sessions == map[] && this.hash == hash
    {
      this.hash := hash;
      users, saved, sessions, keep := map[], map[], map[], map[];
    }

    /** commitUsersLocked: memory follows only once the file is written. */
    method CommitUsers(next: map<string, User>, calm: bool) returns (ok: bool)
      modifies this`users, this`saved
      ensures ok ==> users == saved == next
      ensures !ok ==> users == old(users) && saved == old(saved)
      ensures calm ==> ok
    {
      ok := *;
      if calm || ok {
        ok := true;
        saved := next;
        users := next;
      }
    }

    /** Whatever the other locked sections do while this request hashes. */
    method Meanwhile(calm: bool)
      requires Valid()
      modifies this
      ensures Valid() && (HasAdmin(old(users)) ==> HasAdmin(users))
      ensures calm ==> View() == old(View())
    {
      hide Sound, Allowed, Apply, HasAdmin;
      var more: nat := *;
      while more > 0 && !calm
        invariant calm ==> View() == old(View())
        invariant Valid() && (HasAdmin(old(users)) ==> HasAdmin(users))
      {
        Other();
        more := more - 1;
      }
    }

    method Other()
      requires Valid()
      modifies this
      ensures Valid() && (HasAdmin(old(users)) ==> HasAdmin(users))
    {
      if {
        case true => OtherUsers();
        case true => OtherSessions();
      }
    }

    method OtherUsers()
      requires Valid()
      modifies this
      ensures Valid() && (HasAdmin(old(users)) ==> HasAdmin(users))
    {
      hide Sound, HasAdmin, Lower, Owned;
      var u: User, key: string, c: Credential, must: bool, own: Token := *, *, *, *, *;
      if {
        case Lower(u.name) !in users =>
          StepSound(View(), Create(u));
          users := users[Lower(u.name) := u];
          saved := users;
        case key in users =>
          StepSound(View(), Password(key, c, must, own));
          sessions := sessions - (Owned(sessions, key) - {own});
          users := users[key := users[key].(credential := c, mustChange := must)];
          saved, keep := users, keep[key := own];
        case key in users && (users[key].role == Admin ==> |Admins(users)| > 1) =>
          StepSound(View(), Delete(key));
          users, sessions := users - {key}, sessions - Owned(sessions, key);
          saved, keep := users, keep - {key};
        case true =>
      }
    }

    method OtherSessions()
      requires Valid()
      modifies this
      ensures Valid() && users == old(users)
    {
      hide Sound, Lower, Owned;
      var key: string, token: Token, expires: nat := *, *, *;
      if {
        case key in users && |sessions| < IN_ALL && |Owned(sessions, key)| < PER_USER =>
          var s := Session(users[key].name, users[key].role, expires, users[key].credential);
          NameFolds(View(), key);
          StepSound(View(), Open(token, s));
          sessions := sessions[token := s];
        case true =>
          StepSound(View(), End({token}));
          sessions := sessions - {token};
      }
    }

    method Logout(t: Token)
      requires Valid()
      modifies this`sessions
      ensures Valid() && View() == Apply(old(View()), End({t}))
    {
      hide Sound;
      StepSound(View(), End({t}));
      sessions := sessions - {t};
    }

    /** A lookup never answers with an expired session, and forgets it. */
    method SessionOf(t: Token, now: nat) returns (s: Option<Session>)
      requires Valid()
      modifies this`sessions
      ensures Valid()
      ensures s == if t in old(sessions) && now <= old(sessions)[t].expires then Some(old(sessions)[t]) else None
      ensures sessions == if t in old(sessions) && s.None? then old(sessions) - {t} else old(sessions)
    {
      hide Sound;
      if t !in sessions {
        return None;
      }
      if now > sessions[t].expires {
        StepSound(View(), End({t}));
        sessions := sessions - {t};
        return None;
      }
      return Some(sessions[t]);
    }

    /** A session is minted only when the credential the password was checked against is still the user's, and both
        limits leave room. With no other request in between the answer is exact, and only expired sessions go. */
    method Login(name: string, password: string, token: Token, now: nat, calm: bool)
      returns (outcome: Outcome, ghost checked: Option<Credential>)
      requires Valid()
      modifies this
      ensures Valid() && (HasAdmin(old(users)) ==> HasAdmin(users))
      ensures outcome.Fine? ==> token in sessions && Lower(name) in users
      ensures outcome.Fine? ==> checked == Some(users[Lower(name)].credential)
      ensures outcome.Fine? ==> hash(password, checked.value.salt) == checked.value.hash
      ensures outcome.Fine? ==>
        Lower(sessions[token].user) == Lower(name) && sessions[token].role == users[Lower(name)].role
        && sessions[token].minted == checked.value && sessions[token].expires == now + TTL
      ensures outcome.TooMany? ==> |Owned(sessions, Lower(name))| >= PER_USER || |sessions| >= IN_ALL
      ensures calm ==> users == old(users) && saved == old(saved)
      ensures calm ==> (outcome.Denied? <==> !Knows(old(users), hash, Lower(name), password))
      ensures calm && !outcome.Denied? ==>
        (outcome.Fine? <==> |Owned(Live(old(sessions), now), Lower(name))| < 32 && |Live(old(sessions), now)| < 4096)
      ensures calm ==>
        sessions == match outcome
          case Denied => old(sessions)
          case TooMany => Live(old(sessions), now)
          case Fine =>
            var u := old(users)[Lower(name)];
            Live(old(sessions), now)[token := Session(u.name, u.role, now + 12 * 60 * 60, u.credential)]
    {
      hide Sound, Owned, Live;
      var key := Lower(name);
      checked := None;
      if key !in users {
        return Denied, None;
      }
      var uname, c := users[key].name, users[key].credential;
      NameFolds(View(), key);
      if hash(password, c.salt) != c.hash {
        return Denied, None;
      }
      Meanwhile(calm);
      if key !in users || users[key].credential != c {
        return Denied, None;
      }
      checked := Some(c);
      outcome := Mint(uname, key, token, now);
    }

    /** The last locked section of a login: sweep, count, insert. */
    method Mint(uname: string, key: string, token: Token, now: nat) returns (outcome: Outcome)
      requires Valid() && key in users && Lower(uname) == key
      modifies this`sessions
      ensures Valid() && !outcome.Denied?
      ensures outcome.Fine? <==> |Owned(Live(old(sessions), now), key)| < 32 && |Live(old(sessions), now)| < 4096
      ensures
        var s := Session(uname, users[key].role, now + 12 * 60 * 60, users[key].credential);
        sessions == if outcome.Fine? then Live(old(sessions), now)[token := s] else Live(old(sessions), now)
    {
      hide Sound, Lower, Owned;
      StepSound(View(), End(Expired(sessions, now)));
      var live, active := Sweep(sessions, key, now);
      sessions := live;
      StillLive(old(sessions), now);
      if active >= PER_USER || |sessions| >= IN_ALL {
        return TooMany;
      }
      var s := Session(uname, users[key].role, now + TTL, users[key].credential);
      StepSound(View(), Open(token, s));
      sessions := sessions[token := s];
      outcome := Fine;
    }

    /** A user changing the password shows the old one; however it is set, only the caller's own session survives. */
    method SetPassword(name: string, current: string, next: string, own: Token, byAdmin: bool, salt: string, calm: bool)
      returns (ok: bool)
      requires Valid()
      modifies this
      ensures Valid() && (HasAdmin(old(users)) ==> HasAdmin(users))
      ensures ok ==> Lower(name) in users && users[Lower(name)].mustChange == byAdmin
      ensures ok ==> users[Lower(name)].credential == Credential(salt, hash(next, salt))
      ensures ok ==> Owned(sessions, Lower(name)) <= {own} && AcceptablePassword(next)
      ensures ok && !byAdmin ==> Lower(name) in old(users) && current != next
      ensures ok && !byAdmin ==>
        hash(current, old(users)[Lower(name)].credential.salt) == old(users)[Lower(name)].credential.hash
      ensures calm ==>
        (ok <==> 8 <= |next| <= 1024 && Lower(name) in old(users)
                 && (byAdmin || (Knows(old(users), hash, Lower(name), current) && current != next)))
      ensures calm && ok ==>
        && users == old(users)[Lower(name) := old(users)[Lower(name)].(
             credential := Credential(salt, hash(next, salt)), mustChange := byAdmin)]
        && sessions == old(sessions) - (Owned(old(sessions), Lower(name)) - {own})
      ensures calm && !ok ==> View() == old(View())
    {
      hide Sound, HasAdmin;
      var key := Lower(name);
      if !AcceptablePassword(next) || key !in users {
        return false;
      }
      var c := users[key].credential;
      if !byAdmin && (hash(current, c.salt) != c.hash || current == next) {
        return false;
      }
      var renewed := Credential(salt, hash(next, salt));
      Meanwhile(calm);
      if key !in users || (!byAdmin && users[key].credential != c) {
        return false;
      }
      StepSound(View(), Password(key, renewed, byAdmin, own));
      PasswordSetSound(View(), key, renewed, byAdmin, own);
      ok := CommitUsers(users[key := users[key].(credential := renewed, mustChange := byAdmin)], calm);
      if ok {
        sessions := EndOthers(sessions, key, own);
        keep := keep[key := own];
      }
    }

    /** Deleting a user ends the user's sessions; the last admin stays. */
    method DeleteUser(name: string, calm: bool) returns (ok: bool)
      requires Valid()
      modifies this
      ensures Valid() && (HasAdmin(old(users)) ==> HasAdmin(users))
      ensures ok ==> View() == UserGone(old(View()), Lower(name))
      ensures !ok ==> View() == old(View())
      ensures ok ==> Lower(name) in old(users)
      ensures calm && Lower(name) in old(users) && old(users)[Lower(name)].role != Admin ==> ok
      ensures calm && Lower(name) in old(users) && old(users)[Lower(name)].role == Admin ==>
        (ok <==> |Admins(old(users))| > 1)
    {
      hide Sound, HasAdmin;
      var key := Lower(name);
      if key !in users {
        return false;
      }
      if users[key].role == Admin {
        var admins := CountAdmins(users);
        if admins <= 1 {
          return false;
        }
      }
      StepSound(View(), Delete(key));
      ok := CommitUsers(users - {key}, calm);
      if ok {
        sessions := sessions - Owned(sessions, key);
        keep := keep - {key};
      }
    }

    /** createLocked, for an admin's new user and for the first account, which only an empty panel takes. */
    method CreateUser(name: string, password: string, role: Role, salt: string, first: bool, calm: bool)
      returns (ok: bool)
      requires Valid()
      modifies this
      ensures Valid() && (HasAdmin(old(users)) ==> HasAdmin(users))
      ensures !AcceptablePassword(password) || !AcceptableName(name) ==> !ok && View() == old(View())
      ensures ok ==> Lower(name) in users && users[Lower(name)].credential == Credential(salt, hash(password, salt))
      ensures ok ==> users[Lower(name)].role == (if first then Admin else role)
      ensures ok ==> users[Lower(name)].mustChange == !first
      ensures ok && first ==> users.Keys == {Lower(name)}
      ensures calm ==>
        (ok <==> 8 <= |password| <= 1024 && 2 <= |TrimSpace(name)| && |name| <= 128
                 && Lower(name) !in old(users) && (first ==> old(users) == map[]))
      ensures calm && ok ==>
        users == old(users)[Lower(name) :=
          User(name, if first then Admin else role, Credential(salt, hash(password, salt)), !first)]
      ensures calm ==> sessions == old(sessions)
      ensures calm && !ok ==> View() == old(View())
    {
      hide Sound, HasAdmin;
      if !AcceptablePassword(password) || !AcceptableName(name) {
        return false;
      }
      var u := User(name, if first then Admin else role, Credential(salt, hash(password, salt)), !first);
      Meanwhile(calm);
      if (first && |users| > 0) || Lower(name) in users {
        return false;
      }
      StepSound(View(), Create(u));
      ok := CommitUsers(users[Lower(name) := u], calm);
    }
  }

  /** The password is the user's. */
  predicate Knows(users: map<string, User>, hash: (string, string) -> string, key: string, password: string) {
    key in users && hash(password, users[key].credential.salt) == users[key].credential.hash
  }

  /** The sessions that have not expired. */
  function Live(sessions: map<Token, Session>, now: nat): map<Token, Session> {
    map t <- sessions | now < sessions[t].expires :: sessions[t]
  }

  lemma StillLive(sessions: map<Token, Session>, now: nat)
    ensures Without(sessions, Expired(sessions, now)) == Live(sessions, now)
  {
  }

  predicate AcceptablePassword(p: string) {
    8 <= |p| <= MAX_PASSWORD
  }

  predicate AcceptableName(n: string) {
    2 <= |TrimSpace(n)| && |n| <= MAX_NAME
  }

  method CountAdmins(users: map<string, User>) returns (n: nat)
    ensures n == |Admins(users)|
  {
    n := 0;
    ghost var seen: set<string> := {};
    var rest := users.Keys;
    while rest != {}
      invariant rest <= users.Keys && seen == Admins(users) - rest && n == |seen|
      decreases rest
    {
      var k :| k in rest;
      if users[k].role == Admin {
        n := n + 1;
        seen := seen + {k};
      }
      rest := rest - {k};
    }
  }

  function EndOthers(sessions: map<Token, Session>, key: string, own: Token): map<Token, Session> {
    sessions - (Owned(sessions, key) - {own})
  }

  function Expired(sessions: map<Token, Session>, now: nat): set<Token> {
    set t <- sessions | sessions[t].expires <= now
  }

  /** The sweep at login: expired sessions go, the user's live ones are counted. */
  method Sweep(sessions: map<Token, Session>, key: string, now: nat) returns (live: map<Token, Session>, active: nat)
    ensures live == Without(sessions, Expired(sessions, now))
    ensures active == |Owned(live, key)|
  {
    hide Lower;
    live, active := sessions, 0;
    ghost var seen: set<Token> := {};
    var rest := sessions.Keys;
    while rest != {}
      invariant rest <= sessions.Keys && (forall t <- live :: t in sessions && live[t] == sessions[t])
      invariant forall t <- sessions :: t in live <==> t in rest || sessions[t].expires > now
      invariant active == |seen| && forall t :: t in seen <==> t in live && t !in rest && Lower(live[t].user) == key
      decreases rest
    {
      var t :| t in rest;
      if sessions[t].expires <= now {
        live := live - {t};
      } else if Lower(sessions[t].user) == key {
        active := active + 1;
        seen := seen + {t};
      }
      rest := rest - {t};
    }
    assert seen == Owned(live, key);
  }

  lemma NameFolds(v: Sys, key: string)
    requires Sound(v) && key in v.users
    ensures Lower(v.users[key].name) == key
  {
  }
}
