/** `EssentialAuth`: the engine's public operations over the store.
    Profiles are checked for id and login collisions before they are
    written, passphrases are kept as digests by the hash collaborator, and
    sessions are minted, refreshed on every successful validation and
    dropped when found expired. The clock (`now`) and the fresh session
    token are supplied by the caller. */
module Auth {
  import opened Types
  import opened Tables
  import opened SessionAssurance
  import opened Storage

  /** What `validate_session` answers: `False`, or the owning profile as
      `get_profile` finds it (possibly nothing). */
  datatype Validity = Rejected | Accepted(profile: Option<Profile>)

  /** The multi-session guard of `start_session` as written: it calls
      `self.session`, which the class does not define, so whenever
      multi-sessions are disallowed the call raises `AttributeError`.
      It takes no session map: the outcome cannot depend on one. */
  function SessionGuardAsWritten(allowMulti: bool): (r: Option<AuthError>)
    ensures r.Some? <==> !allowMulti
    ensures r.Some? ==> r.value.MissingMethod?
  {
    if !allowMulti then Some(MissingMethod("session")) else None
  }

  /** The guard as intended (`self.store.session(login=...)`): it rejects
      exactly when multi-sessions are disallowed and the login already has
      a session. */
  function SessionGuard(allowMulti: bool, ss: map<Token, Session>, login: Login): (r: Option<AuthError>)
    ensures r.Some? <==> !allowMulti && SessionFoundByLogin(ss, login)
    ensures r.Some? ==> r.value == SessionAlreadyExists
  {
    if !allowMulti && SessionFoundByLogin(ss, login) then Some(SessionAlreadyExists) else None
  }

  /** As written, the guard refuses even the first session of a login,
      where the intended guard lets it through. */
  lemma SessionGuardAsWrittenRefusesFirstSession(login: Login)
    ensures !SessionFoundByLogin(map[], login) && SessionGuardAsWritten(false).Some?
    ensures SessionGuard(false, map[], login).None?
  {
  }

  /** `check_login_available` as written: it calls `get_profile_by_login`,
      which the class does not define, so it always raises
      `AttributeError`. */
  function CheckLoginAvailableAsWritten(login: Login): (r: Result<bool>)
    ensures r.Err? && r.error.MissingMethod?
  {
    Err(MissingMethod("get_profile_by_login"))
  }

  /** A login that the intended `check_login_available` reports free is one
      `add_profile` accepts, as far as the login check goes. */
  lemma AvailableLoginDoesNotCollide(ps: map<Id, Profile>, p: Profile)
    requires !ProfileFoundByLogin(ps, p.login)
    ensures Conflict(ps, p) != Some(LoginAlreadyExists)
    ensures CheckLoginAvailableAsWritten(p.login).Err?
  {
  }

  class EssentialAuth {
    const config: Config
    const store: TropicsStorage
    const hasher: Hasher

    /** The engine's invariant: documents keyed by `_id`, a sound hash
        collaborator, at most one credential per login, every session seen
        no earlier than it started and owned by a truthy login. Profile
        logins are NOT kept unique: `update_profile` and `add_profiles` can
        both break that. */
    ghost predicate Valid()
      reads this, store
    {
      && store.Valid()
      && Sound(hasher)
      && CredentialLoginsUnique(store.credentials)
      && SessionsOrdered(store.sessions)
      && (forall k :: k in store.sessions ==> store.sessions[k].login != "")
    }

    constructor (config: Config, hasher: Hasher)
      requires Sound(hasher)
      ensures Valid() && fresh(store)
      ensures this.config == config && this.hasher == hasher
      ensures store.profiles == map[] && store.credentials == map[] && store.sessions == map[]
    {
      this.config := config;
      this.hasher := hasher;
      store := new TropicsStorage(config.dbLocation);
    }

    /** `_reset_all`: forwards to the store; sessions survive a reset. */
    method ResetAll(seriously: bool)
      requires Valid()
      modifies store
      ensures Valid()
      ensures seriously ==> store.profiles == map[] && store.credentials == map[]
      ensures !seriously ==> store.profiles == old(store.profiles) && store.credentials == old(store.credentials)
      ensures store.sessions == old(store.sessions)
    {
      var _ := store.ResetAll(seriously);
    }

    /** `check_login_available`, as intended: no profile holds the login. */
    method CheckLoginAvailable(login: Login) returns (available: bool)
      requires Valid()
      ensures available <==> !ProfileFoundByLogin(store.profiles, login)
    {
      var existing := store.Profile("", login);
      available := existing.None?;
    }

    /** `add_profile`. */
    method AddProfile(p: Profile) returns (r: Outcome)
      requires Valid()
      modifies store
      ensures Valid()
      ensures r.Fail? <==> Conflict(old(store.profiles), p).Some?
      ensures r.Fail? ==> r.error == Conflict(old(store.profiles), p).value
      ensures r.Fail? ==> store.profiles == old(store.profiles)
      ensures r.Pass? ==> store.profiles == old(store.profiles)[p.id := p]
      ensures r.Pass? ==> ProfileById(store.profiles, p.id) == (if p.id != "" then Some(p) else None)
      ensures r.Pass? && LoginsUnique(old(store.profiles)) ==> LoginsUnique(store.profiles)
      ensures r.Pass? && p.login != "" ==>
                forall k :: k in store.profiles && store.profiles[k].login == p.login ==> store.profiles[k] == p
      ensures store.credentials == old(store.credentials) && store.sessions == old(store.sessions)
    {
      var byId := store.Profile(p.id, "");
      if byId.Some? {
        return Fail(ProfileAlreadyExists);
      }
      var byLogin := store.Profile("", p.login);
      if byLogin.Some? {
        return Fail(LoginAlreadyExists);
      }
      if LoginsUnique(store.profiles) {
        UpsertKeepsLoginsUnique(store.profiles, p);
      }
      store.StoreProfile(p);
      r := Pass;
    }

    /** `add_profiles`: every element is checked against the store before
        anything is written; the first conflict aborts the whole batch. */
    method AddProfiles(batch: seq<Profile>) returns (r: Result<nat>)
      requires Valid()
      modifies store
      ensures Valid()
      ensures r.Err? <==> BatchConflict(old(store.profiles), batch).Some?
      ensures r.Err? ==> r.error == BatchConflict(old(store.profiles), batch).value
      ensures r.Err? ==> store.profiles == old(store.profiles)
      ensures r.Ok? ==> r.value == |batch| && store.profiles == UpsertAll(old(store.profiles), batch)
      ensures r.Ok? && (forall i, j :: 0 <= i < j < |batch| ==> batch[i].id != batch[j].id) ==>
                forall i :: 0 <= i < |batch| ==> batch[i].id in store.profiles && store.profiles[batch[i].id] == batch[i]
      ensures r.Ok? && LoginsUnique(old(store.profiles))
                && (forall i, j :: 0 <= i < j < |batch| && batch[i].login != "" ==> batch[i].login != batch[j].login) ==>
                LoginsUnique(store.profiles)
      ensures store.credentials == old(store.credentials) && store.sessions == old(store.sessions)
    {
      var i := 0;
      while i < |batch|
        invariant 0 <= i <= |batch|
        invariant forall j :: 0 <= j < i ==> Conflict(store.profiles, batch[j]).None?
        invariant store.profiles == old(store.profiles)
        invariant store.credentials == old(store.credentials) && store.sessions == old(store.sessions)
      {
        var byId := store.Profile(batch[i].id, "");
        if byId.Some? {
          BatchConflictSkip(store.profiles, batch, i);
          return Err(ProfileAlreadyExists);
        }
        var byLogin := store.Profile("", batch[i].login);
        if byLogin.Some? {
          BatchConflictSkip(store.profiles, batch, i);
          return Err(LoginAlreadyExists);
        }
        i := i + 1;
      }
      BatchConflictSkip(store.profiles, batch, |batch|);
      if forall i, j :: 0 <= i < j < |batch| ==> batch[i].id != batch[j].id {
        UpsertAllStoresDistinct(store.profiles, batch);
      }
      if && LoginsUnique(store.profiles)
         && (forall i, j :: 0 <= i < j < |batch| && batch[i].login != "" ==> batch[i].login != batch[j].login)
      {
        forall k | 0 <= k < |batch| && batch[k].login != "" ensures !HasLogin(store.profiles, batch[k].login) {
          assert Conflict(store.profiles, batch[k]).None?;
        }
        UpsertAllKeepsLoginsUnique(store.profiles, batch);
      }
      store.StoreProfiles(batch);
      r := Ok(|batch|);
    }

    /** `update_profile`: the id must be stored; the record is then replaced
        whole, without re-checking its login. */
    method UpdateProfile(p: Profile) returns (r: Outcome)
      requires Valid()
      modifies store
      ensures Valid()
      ensures r.Fail? <==> !ProfileFoundById(old(store.profiles), p.id)
      ensures r.Fail? ==> r.error == ProfileNotFound && store.profiles == old(store.profiles)
      ensures r.Pass? ==> store.profiles == old(store.profiles)[p.id := p]
      ensures r.Pass? ==> ProfileById(store.profiles, p.id) == Some(p)
      ensures store.credentials == old(store.credentials) && store.sessions == old(store.sessions)
    {
      var existing := store.Profile(p.id, "");
      if existing.None? {
        return Fail(ProfileNotFound);
      }
      store.StoreProfile(p);
      r := Pass;
    }

    /** `get_profile`: by a truthy id, else by a truthy login; absence is a
        normal answer. */
    method GetProfile(id: Id, login: Login) returns (r: Option<Profile>)
      requires Valid()
      ensures id != "" ==> r == ProfileById(store.profiles, id)
      ensures id == "" ==> (r.Some? <==> ProfileFoundByLogin(store.profiles, login))
      ensures id == "" && r.Some? ==> r.value.login == login && r.value.id in store.profiles && store.profiles[r.value.id] == r.value
      ensures id == "" && r.Some? && LoginsUnique(store.profiles) ==>
                forall k :: k in store.profiles && store.profiles[k].login == login ==> store.profiles[k] == r.value
    {
      r := store.Profile(id, login);
    }

    /** `get_profiles`: every stored profile, once each. */
    method GetProfiles() returns (all: seq<Profile>)
      requires Valid()
      ensures |all| == |store.profiles|
      ensures forall i :: 0 <= i < |all| ==> all[i].id in store.profiles && store.profiles[all[i].id] == all[i]
      ensures forall k :: k in store.profiles ==> store.profiles[k] in all
      ensures forall i, j :: 0 <= i < j < |all| ==> all[i].id != all[j].id
    {
      all := store.Profiles();
    }

    /** `remove_profile`: resolves the profile as `get_profile` does and
        deletes it by its `_id`. Its credential and sessions are kept. */
    method RemoveProfile(id: Id, login: Login) returns (removed: bool)
      requires Valid()
      modifies store
      ensures Valid()
      ensures removed <==> if id != "" then ProfileFoundById(old(store.profiles), id)
                           else ProfileFoundByLogin(old(store.profiles), login)
      ensures !removed ==> store.profiles == old(store.profiles)
      ensures removed && id != "" ==> store.profiles == old(store.profiles) - {id}
      ensures removed && id == "" ==>
                exists k :: k in old(store.profiles) && old(store.profiles)[k].login == login
                            && store.profiles == old(store.profiles) - {k}
      ensures ProfileById(store.profiles, id).None?
      ensures store.credentials == old(store.credentials) && store.sessions == old(store.sessions)
    {
      var profile := GetProfile(id, login);
      if profile.None? {
        return false;
      }
      store.RemoveProfile(profile.value.id);
      removed := true;
    }

    /** `set_passphrase`: reuses the login's credential, or starts one for
        the profile holding the login; the digest and the time stamp are
        replaced and the record written back. */
    method SetPassphrase(login: Login, passphrase: string, now: Time) returns (r: Outcome)
      requires Valid()
      modifies store
      ensures Valid()
      ensures r.Fail? <==> !CredentialFoundByLogin(old(store.credentials), login)
                           && !ProfileFoundByLogin(old(store.profiles), login)
      ensures r.Fail? ==> r.error == ProfileNotFound && store.credentials == old(store.credentials)
      ensures r.Pass? ==> forall q :: Verifies(store.credentials, hasher, login, q) <==> q == passphrase
      ensures r.Pass? && CredentialFoundByLogin(old(store.credentials), login) ==>
                exists k :: k in old(store.credentials) && old(store.credentials)[k].login == login
                            && store.credentials == old(store.credentials)[k := old(store.credentials)[k].(hash := Some(hasher.hash(passphrase)), updated := now)]
      ensures r.Pass? && !CredentialFoundByLogin(old(store.credentials), login) ==>
                exists k :: k in store.profiles && store.profiles[k].login == login
                            && store.credentials == old(store.credentials)[k := Credential(k, login, Some(hasher.hash(passphrase)), now, 0)]
      ensures store.profiles == old(store.profiles) && store.sessions == old(store.sessions)
    {
      var creds := store.Credential("", login);
      var c: Credential;
      if creds.Some? {
        c := creds.value;
      } else {
        var profile := store.Profile("", login);
        if profile.None? {
          return Fail(ProfileNotFound);
        }
        c := Credential(profile.value.id, login, None, now, 0);
      }
      c := c.(updated := now, hash := Some(hasher.hash(passphrase)));
      UpsertCredentialKeepsUnique(store.credentials, c);
      store.StoreCredential(c);
      NewDigestVerifiesOnlyItsPhrase(store.credentials, hasher, c, passphrase);
      r := Pass;
    }

    /** `verify_by_passphrase`: false, never an error, when the login has no
        credential or no digest; otherwise the hash collaborator decides. */
    method VerifyByPassphrase(login: Login, passphrase: string) returns (ok: bool)
      requires Valid()
      ensures ok == Verifies(store.credentials, hasher, login, passphrase)
      ensures !CredentialFoundByLogin(store.credentials, login) ==> !ok
    {
      var creds := store.Credential("", login);
      if creds.None? || creds.value.hash.None? || creds.value.hash.value == "" {
        ok := false;
      } else {
        ok := hasher.verify(passphrase, creds.value.hash.value);
      }
    }

    /** `remove_passphrase`: drops the login's credential, if any. */
    method RemovePassphrase(login: Login)
      requires Valid()
      modifies store
      ensures Valid()
      ensures store.credentials == if login != "" then RemoveLogin(old(store.credentials), login) else old(store.credentials)
      ensures forall q :: !Verifies(store.credentials, hasher, login, q)
      ensures store.profiles == old(store.profiles) && store.sessions == old(store.sessions)
    {
      store.RemoveCredential("", login);
    }

    /** `start_session`: verify the pair, apply the multi-session guard,
        look the profile up by login and store a session under the fresh
        token, started and last seen now. */
    method StartSession(login: Login, passphrase: string, token: Token, now: Time) returns (r: Result<Token>)
      requires Valid()
      requires token != "" && token !in store.sessions
      modifies store
      ensures Valid()
      ensures !Verifies(old(store.credentials), hasher, login, passphrase) ==> r == Err(VerificationFailed)
      ensures Verifies(old(store.credentials), hasher, login, passphrase)
              && SessionGuard(config.allowMultiSessions, old(store.sessions), login).Some? ==>
                r == Err(SessionAlreadyExists)
      ensures Verifies(old(store.credentials), hasher, login, passphrase)
              && SessionGuard(config.allowMultiSessions, old(store.sessions), login).None?
              && !ProfileFoundByLogin(old(store.profiles), login) ==>
                r == Err(NoProfileForLogin)
      ensures r.Ok? <==> Verifies(old(store.credentials), hasher, login, passphrase)
                         && SessionGuard(config.allowMultiSessions, old(store.sessions), login).None?
                         && ProfileFoundByLogin(old(store.profiles), login)
      ensures r.Ok? ==> r.value == token
      ensures r.Ok? ==> exists k :: k in store.profiles && store.profiles[k].login == login
                                    && store.sessions == old(store.sessions)[token := Session(token, k, login, now, now)]
      ensures r.Err? ==> store.sessions == old(store.sessions)
      ensures store.profiles == old(store.profiles) && store.credentials == old(store.credentials)
    {
      var verified := VerifyByPassphrase(login, passphrase);
      if !verified {
        return Err(VerificationFailed);
      }
      if !config.allowMultiSessions {
        var existing := store.Session("", login, "");
        if existing.Some? {
          return Err(SessionAlreadyExists);
        }
      }
      var profile := store.Profile("", login);
      if profile.None? {
        return Err(NoProfileForLogin);
      }
      var p := profile.value;
      store.StoreSession(Session(token, p.id, p.login, now, now));
      r := Ok(token);
    }

    /** `validate_session`: an unknown token is rejected; an expired session
        is deleted and rejected; a live one is refreshed to `now` and its
        owning profile returned. */
    method ValidateSession(token: Token, now: Time) returns (r: Result<Validity>)
      requires Valid()
      modifies store
      ensures Valid()
      ensures !(token != "" && token in old(store.sessions)) ==>
                r == Ok(Rejected) && store.sessions == old(store.sessions)
      ensures token != "" && token in old(store.sessions)
              && CheckTime(old(store.sessions)[token], config.idleTimeout, config.absoluteTimeout, now).Err? ==>
                r == Err(NoTimeoutConfigured) && store.sessions == old(store.sessions)
      ensures token != "" && token in old(store.sessions)
              && CheckTime(old(store.sessions)[token], config.idleTimeout, config.absoluteTimeout, now) == Ok(false) ==>
                r == Ok(Rejected) && store.sessions == old(store.sessions) - {token}
      ensures token != "" && token in old(store.sessions)
              && CheckTime(old(store.sessions)[token], config.idleTimeout, config.absoluteTimeout, now) == Ok(true) ==>
                && r == Ok(Accepted(ProfileById(store.profiles, old(store.sessions)[token].profileId)))
                && store.sessions == old(store.sessions)[token := old(store.sessions)[token].(lastSeen := now)]
      ensures store.profiles == old(store.profiles) && store.credentials == old(store.credentials)
    {
      var session := store.Session(token, "", "");
      if session.None? {
        return Ok(Rejected);
      }
      var s := session.value;
      var inWindow := CheckTime(s, config.idleTimeout, config.absoluteTimeout, now);
      if inWindow.Err? {
        return Err(inWindow.error);
      }
      if !inWindow.value {
        store.RemoveSession(token);
        return Ok(Rejected);
      }
      RefreshKeepsOrder(s, config.idleTimeout, config.absoluteTimeout, now);
      store.StoreSession(s.(lastSeen := now));
      var profile := GetProfile(s.profileId, "");
      r := Ok(Accepted(profile));
    }

    /** `end_session`: deletes a stored session; false for an unknown
        token. */
    method EndSession(token: Token) returns (ended: bool)
      requires Valid()
      modifies store
      ensures Valid()
      ensures ended <==> token != "" && token in old(store.sessions)
      ensures ended ==> store.sessions == old(store.sessions) - {token}
      ensures !ended ==> store.sessions == old(store.sessions)
      ensures token !in store.sessions || token == ""
      ensures store.profiles == old(store.profiles) && store.credentials == old(store.credentials)
    {
      var session := store.Session(token, "", "");
      if session.None? {
        return false;
      }
      store.RemoveSession(token);
      ended := true;
    }
  }
}
