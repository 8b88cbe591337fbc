# essential-auth: the authentication engine, modelled in Dafny

This project models the core of `essential_auth/essentialauth.py`: the
engine that keeps user profiles, their passphrase credentials and their
login sessions, and decides whether a session is still valid under an idle
(sliding) timeout and an absolute timeout.

- `types.dfy` (module `Types`): the profile, credential and session
  documents, the engine's exceptions as an `AuthError` datatype, the
  configuration record with its four defaults, and the hash collaborator as
  a `Hasher` value (two function values) with the contract the engine relies
  on (`Sound`: `verify(p, hash(q))` holds exactly when `p == q`, and a digest
  is never empty).
- `session_assurance.dfy` (module `SessionAssurance`): `_in_time_window` and
  `check_time` as pure functions, with the clock as a parameter.
- `tables.dfy` (module `Tables`): the three collections as maps and the pure
  facts about them: which exception an insert raises, what a batch insert
  stores, when profile and credential logins stay unique, and which phrase a
  stored credential accepts.
- `storage.dfy` (module `Storage`): `EssentialTropicsStorage` as the class
  `TropicsStorage` with three map fields (`profiles`, `credentials`,
  `sessions`) that its methods reassign. A write is an upsert by `_id`. A
  `find_one` query returns some matching document; which one is left open.
- `auth.dfy` (module `Auth`): `EssentialAuth` as a class over the store,
  with every profile, credential and session operation as a method whose
  postcondition gives the result and the new contents of all three maps.
- `scenarios.dfy` (module `Scenarios`): client methods that drive the engine
  through the sequences of `tests/test_tropics.py` and the timeout rules.

Conventions. Python's `None` and the empty string are both falsy, and the
engine tests keys only for truthiness, so a missing key is written `""`.
Likewise a timeout of `None` or `0` is written `0`. Time is a whole number of
seconds. The wall clock (`datetime.now()`) becomes a `now` parameter. The
session token (`uuid.uuid4()`) becomes a `token` parameter that must be
non-empty and not already stored.

The model follows the code. Several behaviours of the code are kept even
where the project's design documentation describes something else (one
profile per login, a full reset, a profile that must exist when a session
starts):

- Profile logins are not kept unique. `add_profiles` checks each element
  against the store but never against the rest of the batch, and
  `update_profile` never re-checks the login. `Tables.BatchDuplicateLoginsBreakUniqueness`
  and `Tables.UpdateCanDuplicateLogin` exhibit both cases. Uniqueness is
  therefore proved only under stated conditions, not kept as an invariant.
  Credential logins, by contrast, are kept unique by every operation; that
  is part of `EssentialAuth.Valid`.
- A batch with two elements under one `_id` is accepted, reports its full
  length, and stores only the later element (`Tables.BatchDuplicateIdsStoreOne`).
- Removing a profile does not remove its credential or its sessions. A
  session started earlier still validates, to no profile. A new session for
  the login dies with a `TypeError` when the missing profile is
  dereferenced; the model reports this as `NoProfileForLogin`.
- `_reset_all` clears profiles and credentials but not sessions.
- `check_time` raises only when a session was found. An unknown token is
  rejected before the timeouts are looked at.
- Both timeout windows exclude their end points. A validation at exactly
  `last_seen` or `started` is already expired.

## Model

| member | source | states |
|---|---|---|
| `Types.DefaultConfig` | essential_auth/essentialauth.py:145-150 | multi-sessions allowed, idle timeout 10, absolute timeout 20, database "tropics.db" |
| `SessionAssurance.InTimeWindow` | essential_auth/essentialauth.py:116-121 | true exactly when `start < t < stop`; so false for a window whose stop precedes its start, and false at either boundary |
| `SessionAssurance.CheckTime` | essential_auth/essentialauth.py:124-139 | fails with the configuration error exactly when both timeouts are falsy; otherwise valid iff `now` is strictly inside `(last_seen, last_seen+idle)` when idle is set and strictly inside `(started, started+absolute)` when absolute is set |
| `SessionAssurance.EitherWindowExpires` | essential_auth/essentialauth.py:129-137 | once `now` reaches the end of either configured window, the session is invalid whatever the other window says |
| `SessionAssurance.RefreshKeepsOrder` | essential_auth/essentialauth.py:284-290 | a session that passes the check is refreshed to a `now` after its start, and after its previous `last_seen` when the idle window is set |
| `Tables.ProfileById` | essential_auth/essentialauth.py:38-40 | a lookup by id finds the record stored under a truthy id, and nothing for a falsy or unknown id |
| `Tables.Conflict` | essential_auth/essentialauth.py:173-176 | `ProfileAlreadyExists` iff the truthy id is stored; else `LoginAlreadyExists` iff the truthy login is held; no conflict otherwise |
| `Tables.BatchConflict` | essential_auth/essentialauth.py:182-186 | the batch is rejected iff some element conflicts with the store, and the error is that of a conflicting element |
| `Tables.BatchConflictSkip` | essential_auth/essentialauth.py:182-186 | elements already checked clean do not change the batch's verdict, so the check is decided by the first conflicting element |
| `Tables.UpsertAll` | essential_auth/essentialauth.py:51-53 | `insert_many` stores exactly the old ids plus the batch's ids, leaves records the batch does not touch as they were, and keeps documents under their own ids |
| `Tables.UpsertAllLastWins` | essential_auth/essentialauth.py:51-53 | for each id, the last batch element with that id is the record stored |
| `Tables.UpsertAllStoresDistinct` | essential_auth/essentialauth.py:188 | when the batch's ids are distinct, every element is retrievable by its id |
| `Tables.UpsertAllKeepsLoginsUnique` | essential_auth/essentialauth.py:181-190 | a batch of logins new to the store and distinct among themselves keeps logins unique |
| `Tables.UpsertKeepsLoginsUnique` | essential_auth/essentialauth.py:169-178 | adding a profile that passes both checks keeps logins unique |
| `Tables.BatchDuplicateIdsStoreOne` | essential_auth/essentialauth.py:181-190 | a batch of two elements with one id passes the checks and leaves one stored record, not two |
| `Tables.BatchDuplicateLoginsBreakUniqueness` | essential_auth/essentialauth.py:181-190 | a batch of two elements with one login passes the checks and leaves two profiles holding that login |
| `Tables.UpdateCanDuplicateLogin` | essential_auth/essentialauth.py:192-197 | an update of a stored id to a login held elsewhere is accepted and breaks login uniqueness |
| `Tables.RemoveLogin` | essential_auth/essentialauth.py:74-75 | removal by login drops every credential with that login and keeps every other one unchanged |
| `Tables.UpsertCredentialKeepsUnique` | essential_auth/essentialauth.py:214-227 | writing a credential back under its own record, or for a login no credential holds, keeps one credential per login |
| `Tables.NewDigestVerifiesOnlyItsPhrase` | essential_auth/essentialauth.py:226-235 | once a login's unique credential holds the digest of a phrase, exactly that phrase verifies for the login |
| `Tables.RemoveLoginRevokes` | essential_auth/essentialauth.py:230-238 | after the login's credentials are removed, no phrase verifies for it |
| `Storage.TropicsStorage.constructor` | essential_auth/essentialauth.py:34-36 | the store starts with three empty collections |
| `Storage.TropicsStorage.Profile` | essential_auth/essentialauth.py:38-42 | by a truthy id the record under that id; else by a truthy login some stored record with that login, found iff one exists; else nothing |
| `Storage.TropicsStorage.Profiles` | essential_auth/essentialauth.py:44-45 | every stored profile exactly once: as many results as records, each one stored, each record present |
| `Storage.TropicsStorage.StoreProfile` | essential_auth/essentialauth.py:47-49 | upserts the profile under its id; other collections unchanged |
| `Storage.TropicsStorage.StoreProfiles` | essential_auth/essentialauth.py:51-53 | upserts the batch in order; other collections unchanged |
| `Storage.TropicsStorage.RemoveProfile` | essential_auth/essentialauth.py:55-57 | deletes the profile with that id and nothing else |
| `Storage.TropicsStorage.Credential` | essential_auth/essentialauth.py:59-64 | by a truthy id the record under it; else by a truthy login some credential with that login, found iff one exists; else nothing |
| `Storage.TropicsStorage.StoreCredential` | essential_auth/essentialauth.py:66-68 | upserts the credential under its id; other collections unchanged |
| `Storage.TropicsStorage.RemoveCredential` | essential_auth/essentialauth.py:70-76 | by a truthy id removes that record; else by a truthy login removes every credential with that login; else nothing |
| `Storage.TropicsStorage.Session` | essential_auth/essentialauth.py:78-84 | by a truthy token the session under it; else by a truthy profile id some session of that profile; else some session with the login; each found iff one exists |
| `Storage.TropicsStorage.StoreSession` | essential_auth/essentialauth.py:86-88 | upserts the session under its token; other collections unchanged |
| `Storage.TropicsStorage.RemoveSession` | essential_auth/essentialauth.py:90-92 | deletes the session under the token and nothing else |
| `Storage.TropicsStorage.ResetAll` | essential_auth/essentialauth.py:103-111 | with a true flag empties profiles and credentials and reports true; otherwise changes nothing and reports false; sessions are never touched |
| `Auth.SessionGuardAsWritten` | essential_auth/essentialauth.py:252-254 | as written, disallowing multi-sessions makes every start fail with an undefined-method error; the guard reads no session state, so whether a session exists cannot matter |
| `Auth.SessionGuard` | essential_auth/essentialauth.py:252-254 | as intended, the guard rejects with `SessionAlreadyExists` exactly when multi-sessions are disallowed and the login already has a session |
| `Auth.SessionGuardAsWrittenRefusesFirstSession` | essential_auth/essentialauth.py:253 | with no sessions at all, the guard as written still refuses while the intended guard admits |
| `Auth.CheckLoginAvailableAsWritten` | essential_auth/essentialauth.py:165-167 | as written, the call always fails with an undefined-method error |
| `Auth.AvailableLoginDoesNotCollide` | essential_auth/essentialauth.py:165-176 | a login no profile holds never draws `LoginAlreadyExists` from `add_profile`, while the check as written fails for it |
| `Auth.EssentialAuth.constructor` | essential_auth/essentialauth.py:152-159 | the engine starts valid, with the given configuration and hasher, over a fresh empty store |
| `Auth.EssentialAuth.ResetAll` | essential_auth/essentialauth.py:162-163 | with a true flag profiles and credentials are emptied; sessions always survive |
| `Auth.EssentialAuth.CheckLoginAvailable` | essential_auth/essentialauth.py:165-167 | as intended, a login is available iff no profile holds it (a falsy login is always available) |
| `Auth.EssentialAuth.AddProfile` | essential_auth/essentialauth.py:169-178 | fails with `ProfileAlreadyExists` if the truthy id is stored, else with `LoginAlreadyExists` if the truthy login is held, changing nothing; otherwise upserts the profile, which is then found by its id and is the only holder of its login; credentials and sessions unchanged |
| `Auth.EssentialAuth.AddProfiles` | essential_auth/essentialauth.py:181-190 | all or nothing: any element conflicting with the store aborts with its error and no write; otherwise every element is upserted and the length of the batch returned; distinct ids make every element retrievable, and distinct new logins keep logins unique |
| `Auth.EssentialAuth.UpdateProfile` | essential_auth/essentialauth.py:192-197 | fails with `ProfileNotFound` and changes nothing unless the truthy id is stored; otherwise replaces exactly that record |
| `Auth.EssentialAuth.GetProfile` | essential_auth/essentialauth.py:199-200 | the record under a truthy id, else the record holding a truthy login (the only one when logins are unique), else nothing; absence is not an error |
| `Auth.EssentialAuth.GetProfiles` | essential_auth/essentialauth.py:202-203 | every stored profile exactly once: as many elements as records, each element stored under its id, every record present, and no id repeated |
| `Auth.EssentialAuth.RemoveProfile` | essential_auth/essentialauth.py:205-209 | false and no change when the lookup finds nothing; otherwise deletes the found record by its id and reports true, after which a lookup by that id is absent; credentials and sessions are kept |
| `Auth.EssentialAuth.SetPassphrase` | essential_auth/essentialauth.py:212-227 | fails with `ProfileNotFound` iff the login has neither a credential nor a profile; otherwise the login's credential is rewritten with the new digest and time stamp, or a new one is created under the id of a profile holding the login; afterwards exactly the new phrase verifies |
| `Auth.EssentialAuth.VerifyByPassphrase` | essential_auth/essentialauth.py:230-235 | true exactly when the login's credential holds a digest that the hash collaborator accepts for the phrase; false, not an error, when there is no credential or no digest |
| `Auth.EssentialAuth.RemovePassphrase` | essential_auth/essentialauth.py:237-238 | drops every credential of a truthy login, after which no phrase verifies for it |
| `Auth.EssentialAuth.StartSession` | essential_auth/essentialauth.py:241-273 | `VerificationFailed` unless the pair verifies; then `SessionAlreadyExists` when multi-sessions are disallowed and the login has a session; then `NoProfileForLogin` when no profile holds the login; otherwise stores a session under the fresh token with `started == last_seen == now` and the id and login of a profile holding the login, and returns the token; failures change nothing |
| `Auth.EssentialAuth.ValidateSession` | essential_auth/essentialauth.py:276-291 | an unknown token is rejected with no change; an expired session is deleted and rejected; a live one gets `last_seen := now`, every other session is unchanged, and the profile under its `profile_id` is returned (possibly none) |
| `Auth.EssentialAuth.EndSession` | essential_auth/essentialauth.py:293-300 | true iff the token was stored, which it then no longer is; false with no change otherwise, so a second call reports false |
| `Scenarios.Enrol` | tests/test_tropics.py:102-108 | after registering a new profile and setting a passphrase, exactly that passphrase verifies and the profile alone holds its login |
| `Scenarios.ChangeCredentials` | tests/test_tropics.py:125-137 | the first passphrase verifies; after a second is set, the first no longer does and the second does |
| `Scenarios.SessionLifecycle` | tests/test_tropics.py:200-211 | a wrong passphrase is refused, the right one starts a session that validates to its profile, ending it makes validation fail, and ending it again reports false |
| `Scenarios.ValidateAtStart` | tests/test_tropics.py:225 | validating at the instant the session was last seen rejects it and deletes it |
| `Scenarios.AbsoluteTimeoutWins` | tests/test_tropics.py:183-192 | validations 5 seconds apart keep the session alive until `started + 20`, where it is rejected and deleted |
| `Scenarios.IdleTimeoutExpires` | tests/test_tropics.py:195-198 | a session left alone for the whole idle timeout is rejected and deleted |
| `Scenarios.RemovalDoesNotCascade` | essential_auth/essentialauth.py:205-209 | after its profile is removed, an earlier session still validates, to no profile, and a new session for the login fails with `NoProfileForLogin` |

## Left out

- EssentialDB persistence: opening and syncing the database file and the
  `with collection` blocks. The store starts empty and lives in memory.
  EssentialDB is not part of this model.
- Auth.EssentialAuth.StartSession: the path where `store_session` reports a
  failed write and the method returns `None` is not modelled. Writes are
  taken to succeed, because what `insert_one` returns is defined by
  EssentialDB, which is not part of this model.
- Auth.EssentialAuth.AddProfile: returns `Pass` where the source forwards
  whatever `insert_one` returns; the same holds for `UpdateProfile`, for the
  same reason.
- Auth.EssentialAuth.SetPassphrase: returns `Pass` on success where the
  source always returns `None`, because `store_credential` returns nothing.
- Auth.EssentialAuth.RemoveProfile: reports `true` after a removal where the
  source forwards the return value of EssentialDB's `remove`; `EndSession`
  does the same.
- Auth.EssentialAuth.RemovePassphrase: returns nothing where the source
  forwards the return value of EssentialDB's `remove`.
- Auth.EssentialAuth.ResetAll: the facade returns nothing, as the source
  does; the store's own `ResetAll` returns the flag.
- The passlib `pbkdf2_sha256` hash: salting and the algorithm itself. The
  hash collaborator is any pair of functions satisfying `Types.Sound`.
- `uuid.uuid4()` and `datetime.now()`: the token and the time are
  parameters. `validate_session` reads the clock twice in the source; the
  model uses one `now` for both the check and the refresh.
- Fractions of a second: time and timeouts are whole seconds.
- SessionAssurance.CheckTime: a window end outside the range of Python's
  `datetime` (past year 9999), or a timeout beyond the largest `timedelta`
  (999,999,999 days), raises `OverflowError` in the source; the model's time
  line is unbounded, so `CheckTime` and `ValidateSession` answer instead.
- Merging a partial configuration dictionary into the defaults: the
  constructor takes a complete `Config`, and `Types.DefaultConfig` gives the
  defaults.
- Documents lacking `_id` or `login` (a `KeyError` in the source): the
  profile datatype always carries both.
- The order in which `find_one` scans a collection: when several documents
  match, the model's lookups may return any of them.
- Concurrency: the check-then-insert race between concurrent callers. Calls
  are sequential.
- `examples/aiohttp_app.py` and `examples/flask_app.py` (HTTP routing,
  cookies, middleware) and `tests/test_metrics.py` (a passphrase-metrics
  module that is not part of this model, with floating-point checks).

## Findings

| source | as written | input that shows it | evidently intended | confidence | as-written member | corrected member |
|---|---|---|---|---|---|---|
| essential_auth/essentialauth.py:253 | `self.session(login=login)`; `EssentialAuth` defines no `session` method, so the call raises `AttributeError` | `allow_multi_sessions` false, a correct passphrase, and no session at all for the login | `self.store.session(login=login)`: refuse only when the login already has a session | high; not executed | `Auth.SessionGuardAsWritten` (exhibited by `Auth.SessionGuardAsWrittenRefusesFirstSession`) | `Auth.SessionGuard`, used by `Auth.EssentialAuth.StartSession` |
| essential_auth/essentialauth.py:166 | `self.get_profile_by_login(login)`; no such method exists, so the call raises `AttributeError` | any login, on any store | `self.get_profile(login=login)`: a login is available iff no profile holds it | high; not executed | `Auth.CheckLoginAvailableAsWritten` (exhibited by `Auth.AvailableLoginDoesNotCollide`) | `Auth.EssentialAuth.CheckLoginAvailable` |
