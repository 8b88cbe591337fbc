/** The three collections of the store as maps, and the pure facts about
    them that the engine's checks and writes rely on: what a lookup finds,
    what a batch insert stores, when logins stay unique, and which phrase a
    stored credential accepts. */
module Tables {
  import opened Types

  function Get<K, V>(m: map<K, V>, k: K): Option<V>
  {
    if k in m then Some(m[k]) else None
  }

  // ---------------------------------------------------------------------
  // Profiles, keyed by `_id`

  ghost predicate ProfilesKeyed(ps: map<Id, Profile>)
  {
    forall k :: k in ps ==> ps[k].id == k
  }

  predicate HasLogin(ps: map<Id, Profile>, login: Login)
  {
    exists k :: k in ps && ps[k].login == login
  }

  /** `profile(id=id)` finds a record: the id is truthy and stored. */
  predicate ProfileFoundById(ps: map<Id, Profile>, id: Id)
  {
    id != "" && id in ps
  }

  /** `profile(login=login)` finds a record: the login is truthy and held. */
  predicate ProfileFoundByLogin(ps: map<Id, Profile>, login: Login)
  {
    login != "" && HasLogin(ps, login)
  }

  /** `get_profile(id=id)`: the record under a truthy id, else absent. */
  function ProfileById(ps: map<Id, Profile>, id: Id): (r: Option<Profile>)
    ensures r.Some? <==> ProfileFoundById(ps, id)
    ensures r.Some? ==> r.value == ps[id]
  {
    if id != "" then Get(ps, id) else None
  }

  /** No two stored profiles share a (truthy) login. */
  ghost predicate LoginsUnique(ps: map<Id, Profile>)
  {
    forall a, b :: a in ps && b in ps && ps[a].login != "" && ps[a].login == ps[b].login ==> a == b
  }

  /** The exception `add_profile` raises for `p` against the stored profiles,
      if any: the id check comes first and wins over the login check. */
  function Conflict(ps: map<Id, Profile>, p: Profile): (r: Option<AuthError>)
    ensures r == Some(ProfileAlreadyExists) <==> ProfileFoundById(ps, p.id)
    ensures r == Some(LoginAlreadyExists) <==> !ProfileFoundById(ps, p.id) && ProfileFoundByLogin(ps, p.login)
    ensures r.None? <==> !ProfileFoundById(ps, p.id) && !ProfileFoundByLogin(ps, p.login)
  {
    if ProfileFoundById(ps, p.id) then Some(ProfileAlreadyExists)
    else if ProfileFoundByLogin(ps, p.login) then Some(LoginAlreadyExists)
    else None
  }

  /** The exception `add_profiles` raises: that of the first element of the
      batch that conflicts with the store. Elements are checked against the
      store only, never against each other. */
  function BatchConflict(ps: map<Id, Profile>, batch: seq<Profile>): (r: Option<AuthError>)
    ensures r.None? <==> forall i :: 0 <= i < |batch| ==> Conflict(ps, batch[i]).None?
    ensures r.Some? ==> exists i :: 0 <= i < |batch| && Conflict(ps, batch[i]) == r
  {
    if batch == [] then None
    else if Conflict(ps, batch[0]).Some? then Conflict(ps, batch[0])
    else
      var rest := BatchConflict(ps, batch[1..]);
      assert forall i :: 1 <= i < |batch| ==> batch[i] == batch[1..][i - 1];
      rest
  }

  /** Skipping a prefix that does not conflict leaves the batch's verdict
      unchanged; this is how the checking loop of `add_profiles` reaches it. */
  lemma {:induction false} BatchConflictSkip(ps: map<Id, Profile>, batch: seq<Profile>, i: nat)
    requires i <= |batch|
    requires forall j :: 0 <= j < i ==> Conflict(ps, batch[j]).None?
    ensures BatchConflict(ps, batch) == BatchConflict(ps, batch[i..])
  {
    if i > 0 {
      assert batch[1..][i - 1..] == batch[i..];
      BatchConflictSkip(ps, batch[1..], i - 1);
    }
  }

  /** `insert_many`: each document is written in turn, replacing any record
      with the same `_id`. */
  function UpsertAll(ps: map<Id, Profile>, batch: seq<Profile>): (r: map<Id, Profile>)
    ensures r.Keys == ps.Keys + set p | p in batch :: p.id
    ensures forall k :: k in ps && (forall p :: p in batch ==> p.id != k) ==> r[k] == ps[k]
    ensures ProfilesKeyed(ps) ==> ProfilesKeyed(r)
    decreases |batch|
  {
    if batch == [] then ps
    else
      var r := UpsertAll(ps[batch[0].id := batch[0]], batch[1..]);
      assert forall p :: p in batch <==> p == batch[0] || p in batch[1..];
      r
  }

  /** The last element of a batch with a given id is the one stored. */
  lemma {:induction false} UpsertAllLastWins(ps: map<Id, Profile>, batch: seq<Profile>, i: nat)
    requires i < |batch|
    requires forall j :: i < j < |batch| ==> batch[j].id != batch[i].id
    ensures batch[i].id in UpsertAll(ps, batch)
    ensures UpsertAll(ps, batch)[batch[i].id] == batch[i]
    decreases |batch|
  {
    var ps' := ps[batch[0].id := batch[0]];
    if i == 0 {
      forall p | p in batch[1..] ensures p.id != batch[0].id {
        var j :| 0 <= j < |batch[1..]| && batch[1..][j] == p;
        assert batch[j + 1] == p;
      }
    } else {
      forall j | i - 1 < j < |batch[1..]| ensures batch[1..][j].id != batch[1..][i - 1].id {
        assert batch[1..][j] == batch[j + 1];
      }
      UpsertAllLastWins(ps', batch[1..], i - 1);
    }
  }

  /** When the ids of a batch are pairwise distinct, every element of it is
      stored. */
  lemma UpsertAllStoresDistinct(ps: map<Id, Profile>, batch: seq<Profile>)
    requires forall i, j :: 0 <= i < j < |batch| ==> batch[i].id != batch[j].id
    ensures forall i :: 0 <= i < |batch| ==> batch[i].id in UpsertAll(ps, batch) && UpsertAll(ps, batch)[batch[i].id] == batch[i]
  {
    forall i | 0 <= i < |batch|
      ensures batch[i].id in UpsertAll(ps, batch) && UpsertAll(ps, batch)[batch[i].id] == batch[i]
    {
      UpsertAllLastWins(ps, batch, i);
    }
  }

  /** A batch whose logins are new to the store and pairwise distinct keeps
      logins unique. */
  lemma {:induction false} UpsertAllKeepsLoginsUnique(ps: map<Id, Profile>, batch: seq<Profile>)
    requires ProfilesKeyed(ps) && LoginsUnique(ps)
    requires forall i :: 0 <= i < |batch| && batch[i].login != "" ==> !HasLogin(ps, batch[i].login)
    requires forall i, j :: 0 <= i < j < |batch| && batch[i].login != "" ==> batch[i].login != batch[j].login
    ensures LoginsUnique(UpsertAll(ps, batch))
    decreases |batch|
  {
    if batch != [] {
      var p := batch[0];
      var ps' := ps[p.id := p];
      forall i | 0 <= i < |batch[1..]| && batch[1..][i].login != ""
        ensures !HasLogin(ps', batch[1..][i].login)
      {
        assert batch[1..][i] == batch[i + 1];
      }
      forall i, j | 0 <= i < j < |batch[1..]| && batch[1..][i].login != ""
        ensures batch[1..][i].login != batch[1..][j].login
      {
        assert batch[1..][i] == batch[i + 1] && batch[1..][j] == batch[j + 1];
      }
      UpsertAllKeepsLoginsUnique(ps', batch[1..]);
    }
  }

  /** Adding one profile that does not conflict keeps logins unique. */
  lemma UpsertKeepsLoginsUnique(ps: map<Id, Profile>, p: Profile)
    requires ProfilesKeyed(ps) && LoginsUnique(ps)
    requires Conflict(ps, p).None?
    ensures LoginsUnique(ps[p.id := p])
  {
  }

  /** A batch is checked against the store only: two elements with one id
      pass the check, the count reports two, and only one is stored. */
  lemma BatchDuplicateIdsStoreOne()
    ensures var batch := [Profile("a", "x", map[]), Profile("a", "y", map[])];
            && BatchConflict(map[], batch).None?
            && |UpsertAll(map[], batch)| == 1 < |batch|
  {
  }

  /** Two elements sharing a login pass the check too, and the store then
      holds two profiles with that login. */
  lemma BatchDuplicateLoginsBreakUniqueness()
    ensures var batch := [Profile("a", "x", map[]), Profile("b", "x", map[])];
            && BatchConflict(map[], batch).None?
            && !LoginsUnique(UpsertAll(map[], batch))
  {
  }

  /** `update_profile` checks only that the id is stored, so it can give a
      profile a login another profile already holds. */
  lemma UpdateCanDuplicateLogin()
    ensures var ps := map["a" := Profile("a", "x", map[]), "b" := Profile("b", "y", map[])];
            var p := Profile("b", "x", map[]);
            && ProfileFoundById(ps, p.id)
            && LoginsUnique(ps)
            && !LoginsUnique(ps[p.id := p])
  {
    var ps := map["a" := Profile("a", "x", map[]), "b" := Profile("b", "y", map[])];
    var ps' := ps[ "b" := Profile("b", "x", map[])];
    assert ps'["a"].login == ps'["b"].login;
  }

  // ---------------------------------------------------------------------
  // Credentials, keyed by `_id` and looked up by `login`

  ghost predicate CredentialsKeyed(cs: map<Id, Credential>)
  {
    forall k :: k in cs ==> cs[k].id == k
  }

  /** `credential(login=login)` finds a record. */
  predicate CredentialFoundByLogin(cs: map<Id, Credential>, login: Login)
  {
    login != "" && exists k :: k in cs && cs[k].login == login
  }

  /** No two stored credentials share a login. */
  ghost predicate CredentialLoginsUnique(cs: map<Id, Credential>)
  {
    forall a, b :: a in cs && b in cs && cs[a].login == cs[b].login ==> a == b
  }

  /** The phrase verifies for the login: the login's credential holds a
      truthy digest that the hash collaborator accepts for the phrase. */
  predicate Verifies(cs: map<Id, Credential>, h: Hasher, login: Login, phrase: string)
  {
    login != "" &&
    exists k :: k in cs && cs[k].login == login && cs[k].hash.Some? && cs[k].hash.value != ""
                && h.verify(phrase, cs[k].hash.value)
  }

  /** `remove({'login': login})`: drops every credential with that login. */
  function RemoveLogin(cs: map<Id, Credential>, login: Login): (r: map<Id, Credential>)
    ensures forall k :: k in r <==> k in cs && cs[k].login != login
    ensures forall k :: k in r ==> r[k] == cs[k]
  {
    map k | k in cs && cs[k].login != login :: cs[k]
  }

  /** Writing a credential keeps logins unique when it either replaces the
      record that holds its login or brings a login no record holds. */
  lemma UpsertCredentialKeepsUnique(cs: map<Id, Credential>, c: Credential)
    requires CredentialsKeyed(cs) && CredentialLoginsUnique(cs)
    requires (c.id in cs && cs[c.id].login == c.login) || !(exists k :: k in cs && cs[k].login == c.login)
    ensures CredentialsKeyed(cs[c.id := c]) && CredentialLoginsUnique(cs[c.id := c])
  {
  }

  /** Once a fresh digest of `phrase` is the record of a login whose
      credential is unique, exactly `phrase` verifies for that login. */
  lemma NewDigestVerifiesOnlyItsPhrase(cs: map<Id, Credential>, h: Hasher, c: Credential, phrase: string)
    requires Sound(h)
    requires c.id in cs && cs[c.id] == c
    requires c.login != "" && c.hash == Some(h.hash(phrase))
    requires CredentialLoginsUnique(cs)
    ensures forall q :: Verifies(cs, h, c.login, q) <==> q == phrase
  {
  }

  /** Once a login's credentials are removed nothing verifies for it. */
  lemma RemoveLoginRevokes(cs: map<Id, Credential>, h: Hasher, login: Login, q: string)
    ensures !Verifies(RemoveLogin(cs, login), h, login, q)
  {
  }

  // ---------------------------------------------------------------------
  // Sessions, keyed by token

  ghost predicate SessionsKeyed(ss: map<Token, Session>)
  {
    forall k :: k in ss ==> ss[k].token == k
  }

  predicate SessionFoundByLogin(ss: map<Token, Session>, login: Login)
  {
    exists k :: k in ss && ss[k].login == login
  }

  /** Every session was last seen no earlier than it started. */
  ghost predicate SessionsOrdered(ss: map<Token, Session>)
  {
    forall k :: k in ss ==> ss[k].started <= ss[k].lastSeen
  }
}
