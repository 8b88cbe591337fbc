/** `EssentialTropicsStorage`: the three collections of the document store,
    held as maps that the methods reassign. A write of a document replaces
    any document with the same `_id` (an upsert); a `find_one` query returns
    some matching document, and which one is left open because the store's
    scan order is not part of this model. */
module Storage {
  import opened Types
  import opened Tables

  class TropicsStorage {
    var profiles: map<Id, Profile>
    var credentials: map<Id, Credential>
    var sessions: map<Token, Session>

    /** Every document is stored under its own `_id`. */
    ghost predicate Valid()
      reads this
    {
      ProfilesKeyed(profiles) && CredentialsKeyed(credentials) && SessionsKeyed(sessions)
    }

    /** The database starts out empty; loading an existing file is not part
        of this model. */
    constructor (filepath: string)
      ensures Valid()
      ensures profiles == map[] && credentials == map[] && sessions == map[]
    {
      profiles, credentials, sessions := map[], map[], map[];
    }

    /** `profile(id, login)`: by a truthy id, else by a truthy login, else
        nothing. */
    method Profile(id: Id, login: Login) returns (r: Option<Profile>)
      requires Valid()
      ensures id != "" ==> r == ProfileById(profiles, id)
      ensures id == "" ==> (r.Some? <==> ProfileFoundByLogin(profiles, login))
      ensures id == "" && r.Some? ==> r.value.login == login && r.value.id in profiles && profiles[r.value.id] == r.value
    {
      if id != "" {
        r := Get(profiles, id);
      } else if login != "" && HasLogin(profiles, login) {
        var k :| k in profiles && profiles[k].login == login;
        r := Some(profiles[k]);
      } else {
        r := None;
      }
    }

    /** `profiles()`: every stored profile, once each, in some order. */
    method Profiles() returns (all: seq<Profile>)
      requires Valid()
      ensures |all| == |profiles|
      ensures forall i :: 0 <= i < |all| ==> all[i].id in profiles && profiles[all[i].id] == all[i]
      ensures forall k :: k in profiles ==> profiles[k] in all
      ensures forall i, j :: 0 <= i < j < |all| ==> all[i].id != all[j].id
    {
      all := [];
      var rest := profiles.Keys;
      while rest != {}
        invariant rest <= profiles.Keys
        invariant |all| + |rest| == |profiles.Keys|
        invariant forall i :: 0 <= i < |all| ==> all[i].id in profiles.Keys - rest && profiles[all[i].id] == all[i]
        invariant forall k :: k in profiles.Keys - rest ==> profiles[k] in all
        invariant forall i, j :: 0 <= i < j < |all| ==> all[i].id != all[j].id
        decreases rest
      {
        var k :| k in rest;
        all := all + [profiles[k]];
        rest := rest - {k};
      }
      assert profiles.Keys - rest == profiles.Keys;
    }

    /** `store_profile`: `insert_one`, an upsert by `_id`. */
    method StoreProfile(p: Profile)
      requires Valid()
      modifies this
      ensures Valid()
      ensures profiles == old(profiles)[p.id := p]
      ensures credentials == old(credentials) && sessions == old(sessions)
    {
      profiles := profiles[p.id := p];
    }

    /** `store_profiles`: `insert_many`, one upsert per document in order. */
    method StoreProfiles(batch: seq<Profile>)
      requires Valid()
      modifies this
      ensures Valid()
      ensures profiles == UpsertAll(old(profiles), batch)
      ensures credentials == old(credentials) && sessions == old(sessions)
    {
      profiles := UpsertAll(profiles, batch);
    }

    /** `remove_profile`: deletes the document with that `_id`. */
    method RemoveProfile(id: Id)
      requires Valid()
      modifies this
      ensures Valid()
      ensures profiles == old(profiles) - {id}
      ensures credentials == old(credentials) && sessions == old(sessions)
    {
      profiles := profiles - {id};
    }

    /** `credential(id, login)`: by a truthy id, else by a truthy login,
        else nothing. */
    method Credential(id: Id, login: Login) returns (r: Option<Credential>)
      requires Valid()
      ensures id != "" ==> r == (if id in credentials then Some(credentials[id]) else None)
      ensures id == "" ==> (r.Some? <==> CredentialFoundByLogin(credentials, login))
      ensures id == "" && r.Some? ==> r.value.login == login && r.value.id in credentials && credentials[r.value.id] == r.value
    {
      if id != "" {
        r := Get(credentials, id);
      } else if login != "" && exists k :: k in credentials && credentials[k].login == login {
        var k :| k in credentials && credentials[k].login == login;
        r := Some(credentials[k]);
      } else {
        r := None;
      }
    }

    /** `store_credential`: `insert_one`, an upsert by `_id`. */
    method StoreCredential(c: Credential)
      requires Valid()
      modifies this
      ensures Valid()
      ensures credentials == old(credentials)[c.id := c]
      ensures profiles == old(profiles) && sessions == old(sessions)
    {
      credentials := credentials[c.id := c];
    }

    /** `remove_credential(id, login)`: by a truthy id the one document,
        else by a truthy login every document with that login, else
        nothing. */
    method RemoveCredential(id: Id, login: Login)
      requires Valid()
      modifies this
      ensures Valid()
      ensures id != "" ==> credentials == old(credentials) - {id}
      ensures id == "" && login != "" ==> credentials == RemoveLogin(old(credentials), login)
      ensures id == "" && login == "" ==> credentials == old(credentials)
      ensures profiles == old(profiles) && sessions == old(sessions)
    {
      if id != "" {
        credentials := credentials - {id};
      } else if login != "" {
        credentials := RemoveLogin(credentials, login);
      }
    }

    /** `session(token, login, profile_id)`: by a truthy token, else by a
        truthy profile id, else by login. */
    method Session(token: Token, login: Login, profileId: Id) returns (r: Option<Session>)
      requires Valid()
      ensures token != "" ==> r == (if token in sessions then Some(sessions[token]) else None)
      ensures token == "" && profileId != "" ==>
                (r.Some? <==> exists k :: k in sessions && sessions[k].profileId == profileId)
      ensures token == "" && profileId != "" && r.Some? ==> r.value.profileId == profileId && r.value in sessions.Values
      ensures token == "" && profileId == "" ==> (r.Some? <==> SessionFoundByLogin(sessions, login))
      ensures token == "" && profileId == "" && r.Some? ==> r.value.login == login && r.value in sessions.Values
    {
      if token != "" {
        r := Get(sessions, token);
      } else if profileId != "" {
        if exists k :: k in sessions && sessions[k].profileId == profileId {
          var k :| k in sessions && sessions[k].profileId == profileId;
          r := Some(sessions[k]);
        } else {
          r := None;
        }
      } else if SessionFoundByLogin(sessions, login) {
        var k :| k in sessions && sessions[k].login == login;
        r := Some(sessions[k]);
      } else {
        r := None;
      }
    }

    /** `store_session`: `insert_one`, an upsert by `_id` (the token). */
    method StoreSession(s: Session)
      requires Valid()
      modifies this
      ensures Valid()
      ensures sessions == old(sessions)[s.token := s]
      ensures profiles == old(profiles) && credentials == old(credentials)
    {
      sessions := sessions[s.token := s];
    }

    /** `remove_session`: deletes the session stored under the token. */
    method RemoveSession(token: Token)
      requires Valid()
      modifies this
      ensures Valid()
      ensures sessions == old(sessions) - {token}
      ensures profiles == old(profiles) && credentials == old(credentials)
    {
      sessions := sessions - {token};
    }

    /** `_reset_all`: with a truthy flag, empties the profiles and the
        credentials (the sessions are left as they are); reports whether it
        did. */
    method ResetAll(seriously: bool) returns (done: bool)
      requires Valid()
      modifies this
      ensures Valid()
      ensures done == seriously
      ensures seriously ==> profiles == map[] && credentials == map[]
      ensures !seriously ==> profiles == old(profiles) && credentials == old(credentials)
      ensures sessions == old(sessions)
    {
      if seriously {
        profiles := map[];
        credentials := map[];
        return true;
      }
      return false;
    }
  }
}
