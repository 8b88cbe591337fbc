/** Records, errors, configuration and the hash collaborator shared by the
    authentication engine.

    Conventions of this model:
    - a key that Python passes as `None` or as an empty string is written
      here as the empty string: both are falsy, and the engine only ever
      tests keys for truthiness before using them;
    - a timeout that Python passes as `None` or `0` is written here as `0`,
      for the same reason;
    - timestamps are whole seconds on one integer time line. */
module Types {

  datatype Option<+T> = None | Some(value: T)

  type Id = string
  type Login = string
  type Token = string
  type Digest = string
  type Time = int

  /** The failures the engine raises, one per exception class of the
      source, plus the two Python runtime errors its code can run into. */
  datatype AuthError =
    | ProfileAlreadyExists
    | LoginAlreadyExists
    | ProfileNotFound
    | VerificationFailed
    | SessionAlreadyExists
      // `AttributeError` raised by `check_time` when no timeout is set
    | NoTimeoutConfigured
      // `TypeError`: a session is started for a login whose profile is gone
    | NoProfileForLogin
      // `AttributeError`: a call to a method the class does not define
    | MissingMethod(name: string)

  datatype Result<+T> = Ok(value: T) | Err(error: AuthError)

  datatype Outcome = Pass | Fail(error: AuthError)

  /** A profile document: `_id`, `login` and the host application's own
      fields, which the engine never inspects. */
  datatype Profile = Profile(id: Id, login: Login, fields: map<string, string>)

  /** A credential document; `hash == None` is the scaffold's unset digest. */
  datatype Credential = Credential(id: Id, login: Login, hash: Option<Digest>, updated: Time, last: int)

  /** A session document, stored under its token. */
  datatype Session = Session(token: Token, profileId: Id, login: Login, started: Time, lastSeen: Time)

  /** The four configuration options; a timeout of 0 is "not set". */
  datatype Config = Config(dbLocation: string, allowMultiSessions: bool, idleTimeout: int, absoluteTimeout: int)

  /** `EssentialAuth.default_config`. */
  function DefaultConfig(): (c: Config)
    ensures c.allowMultiSessions && c.idleTimeout == 10 && c.absoluteTimeout == 20
    ensures c.dbLocation == "tropics.db"
  {
    Config("tropics.db", true, 10, 20)
  }

  /** The hash collaborator: one-way hashing and verification. */
  datatype Hasher = Hasher(hash: string -> Digest, verify: (string, Digest) -> bool)

  /** What the engine relies on: a digest is never empty (so never falsy),
      and a phrase verifies against the digest of a phrase exactly when the
      two phrases are equal. */
  ghost predicate Sound(h: Hasher)
  {
    && (forall q :: h.hash(q) != "")
    && (forall p, q :: h.verify(p, h.hash(q)) <==> p == q)
  }
}
