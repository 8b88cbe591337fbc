/** Client code that drives the engine through the sequences its test suite
    exercises, with what the contracts alone let a caller conclude. */
module Scenarios {
  import opened Types
  import opened Tables
  import opened Auth

  /** Registers a profile whose id and login are new and gives it a
      passphrase; afterwards exactly that passphrase verifies and the profile
      is the only one holding its login. */
  method Enrol(auth: EssentialAuth, p: Profile, phrase: string, now: Time)
    requires auth.Valid()
    requires p.id != "" && p.login != "" && Conflict(auth.store.profiles, p).None?
    modifies auth.store
    ensures auth.Valid()
    ensures auth.store.profiles == old(auth.store.profiles)[p.id := p]
    ensures forall k :: k in auth.store.profiles && auth.store.profiles[k].login == p.login ==> k == p.id
    ensures forall q :: Verifies(auth.store.credentials, auth.hasher, p.login, q) <==> q == phrase
    ensures auth.store.sessions == old(auth.store.sessions)
  {
    var added := auth.AddProfile(p);
    var written := auth.SetPassphrase(p.login, phrase, now);
    assert written.Pass?;
  }

  /** Setting a second passphrase invalidates the first and validates the
      second. */
  method ChangeCredentials(auth: EssentialAuth, p: Profile, now: Time) returns (first: bool, old1: bool, second: bool)
    requires auth.Valid()
    requires p.id != "" && p.login != "" && Conflict(auth.store.profiles, p).None?
    modifies auth.store
    ensures auth.Valid()
    ensures first && !old1 && second
  {
    Enrol(auth, p, "password1", now);
    first := auth.VerifyByPassphrase(p.login, "password1");
    var written := auth.SetPassphrase(p.login, "password2", now);
    old1 := auth.VerifyByPassphrase(p.login, "password1");
    second := auth.VerifyByPassphrase(p.login, "password2");
  }

  /** A session is started with the right passphrase and refused with a
      wrong one; it validates to its profile; once ended it is rejected, and
      ending it again reports false. */
  method SessionLifecycle(auth: EssentialAuth, p: Profile, token: Token, t0: Time)
    returns (wrong: Result<Token>, started: Result<Token>, seen: Result<Validity>,
             ended: bool, seenAfterEnd: Result<Validity>, endedAgain: bool)
    requires auth.Valid() && auth.config.idleTimeout == 10 && auth.config.absoluteTimeout == 20
    requires p.id != "" && p.login != "" && Conflict(auth.store.profiles, p).None?
    requires auth.config.allowMultiSessions || !SessionFoundByLogin(auth.store.sessions, p.login)
    requires token != "" && token !in auth.store.sessions
    modifies auth.store
    ensures auth.Valid()
    ensures wrong == Err(VerificationFailed)
    ensures started == Ok(token)
    ensures seen == Ok(Accepted(Some(p)))
    ensures ended && seenAfterEnd == Ok(Rejected) && !endedAgain
  {
    Enrol(auth, p, "purple", t0);
    wrong := auth.StartSession(p.login, "notpurple", token, t0);
    assert auth.store.profiles[p.id] == p;
    started := auth.StartSession(p.login, "purple", token, t0);
    seen := auth.ValidateSession(token, t0 + 1);
    ended := auth.EndSession(token);
    seenAfterEnd := auth.ValidateSession(token, t0 + 2);
    endedAgain := auth.EndSession(token);
  }

  /** With an idle timeout of 10 and an absolute timeout of 20: validation
      at the instant the session was last seen is already expired and
      deletes it. */
  method ValidateAtStart(auth: EssentialAuth, p: Profile, token: Token, t0: Time)
    returns (started: Result<Token>, seen: Result<Validity>)
    requires auth.Valid() && auth.config.idleTimeout == 10 && auth.config.absoluteTimeout == 20
    requires p.id != "" && p.login != "" && Conflict(auth.store.profiles, p).None?
    requires auth.config.allowMultiSessions || !SessionFoundByLogin(auth.store.sessions, p.login)
    requires token != "" && token !in auth.store.sessions
    modifies auth.store
    ensures auth.Valid()
    ensures started == Ok(token)
    ensures seen == Ok(Rejected) && token !in auth.store.sessions
  {
    Enrol(auth, p, "green", t0);
    assert auth.store.profiles[p.id] == p;
    started := auth.StartSession(p.login, "green", token, t0);
    seen := auth.ValidateSession(token, t0);
  }

  /** Validating every few seconds keeps the idle window open, but the
      absolute window closes the session at `started + 20` regardless, and
      the expired session is deleted. */
  method AbsoluteTimeoutWins(auth: EssentialAuth, p: Profile, token: Token, t0: Time)
    returns (v1: Result<Validity>, v2: Result<Validity>, v3: Result<Validity>, v4: Result<Validity>)
    requires auth.Valid() && auth.config.idleTimeout == 10 && auth.config.absoluteTimeout == 20
    requires p.id != "" && p.login != "" && Conflict(auth.store.profiles, p).None?
    requires auth.config.allowMultiSessions || !SessionFoundByLogin(auth.store.sessions, p.login)
    requires token != "" && token !in auth.store.sessions
    modifies auth.store
    ensures auth.Valid()
    ensures v1 == v2 == v3 == Ok(Accepted(Some(p)))
    ensures v4 == Ok(Rejected) && token !in auth.store.sessions
  {
    Enrol(auth, p, "green", t0);
    assert auth.store.profiles[p.id] == p;
    var started := auth.StartSession(p.login, "green", token, t0);
    v1 := auth.ValidateSession(token, t0 + 5);
    v2 := auth.ValidateSession(token, t0 + 10);
    v3 := auth.ValidateSession(token, t0 + 15);
    v4 := auth.ValidateSession(token, t0 + 20);
  }

  /** Left alone for the whole idle timeout, a session expires. */
  method IdleTimeoutExpires(auth: EssentialAuth, p: Profile, token: Token, t0: Time)
    returns (started: Result<Token>, seen: Result<Validity>)
    requires auth.Valid() && auth.config.idleTimeout == 10 && auth.config.absoluteTimeout == 20
    requires p.id != "" && p.login != "" && Conflict(auth.store.profiles, p).None?
    requires auth.config.allowMultiSessions || !SessionFoundByLogin(auth.store.sessions, p.login)
    requires token != "" && token !in auth.store.sessions
    modifies auth.store
    ensures auth.Valid()
    ensures started == Ok(token)
    ensures seen == Ok(Rejected) && token !in auth.store.sessions
  {
    Enrol(auth, p, "green", t0);
    assert auth.store.profiles[p.id] == p;
    started := auth.StartSession(p.login, "green", token, t0);
    seen := auth.ValidateSession(token, t0 + 10);
  }

  /** Removing a profile keeps its credential and its sessions: a session
      started before still validates, to no profile, and a new session for
      the login fails when the missing profile is dereferenced. */
  method RemovalDoesNotCascade(auth: EssentialAuth, p: Profile, token: Token, token2: Token, t0: Time)
    returns (started: Result<Token>, removed: bool, seen: Result<Validity>, again: Result<Token>)
    requires auth.Valid() && auth.config.idleTimeout == 10 && auth.config.absoluteTimeout == 20
    requires auth.config.allowMultiSessions
    requires p.id != "" && p.login != "" && Conflict(auth.store.profiles, p).None?
    requires token != "" && token2 != "" && token != token2
    requires token !in auth.store.sessions && token2 !in auth.store.sessions
    modifies auth.store
    ensures auth.Valid()
    ensures started == Ok(token)
    ensures removed && seen == Ok(Accepted(None)) && again == Err(NoProfileForLogin)
  {
    Enrol(auth, p, "purple", t0);
    assert auth.store.profiles[p.id] == p;
    started := auth.StartSession(p.login, "purple", token, t0);
    removed := auth.RemoveProfile(p.id, "");
    seen := auth.ValidateSession(token, t0 + 1);
    again := auth.StartSession(p.login, "purple", token2, t0 + 2);
  }
}
