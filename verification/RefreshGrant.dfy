/**
  The refresh-token grant handler, cut where it waits: each function here is what one stretch
  of the handler does between two transactions (or the call to GitHub), and the Server's
  methods carry those stretches out against the store. The database reads the same clock as
  the handler, in whole microseconds.
 */
module RefreshGrant {
  import opened Wrappers
  import opened Clock
  import opened GrantStore
  import Utf8

  const JWT_TTL: Time := 15 * 60 * SECOND
  const MAX_GRACE: Time := 60 * SECOND
  const DEFAULT_GRACE: Time := 30 * SECOND
  const DEFAULT_RETENTION: Time := 24 * 60 * 60 * SECOND

  /** Grace period and retention, as configured. */
  datatype Config = Config(grace: Time, retention: Time)

  predicate ValidConfig(cfg: Config) {
    0 <= cfg.grace <= MAX_GRACE && cfg.retention > 0 && cfg.retention >= cfg.grace
  }

  function ResolveDurations(grace: Option<Time>, retention: Option<Time>): (cfg: Option<Config>)
    ensures cfg.Some? ==> ValidConfig(cfg.value)
    ensures grace.None? && retention.None? ==> cfg == Some(Config(DEFAULT_GRACE, DEFAULT_RETENTION))
  {
    var g := if grace.Some? then grace.value else DEFAULT_GRACE;
    var r := if retention.Some? then retention.value else DEFAULT_RETENTION;
    if g < 0 || g > MAX_GRACE || r <= 0 || r < g then None else Some(Config(g, r))
  }

  /** JWT NumericDate claims hold whole seconds. */
  function Seconds(t: Time): (s: Time) {
    t - t % SECOND
  }

  /** An expiry read back from its row still names the second the token carries, and is no
      later than it was. */
  lemma StoredExpiryKeepsSecond(t: Time)
    ensures Seconds(t) <= Stored(t) <= t && Seconds(Stored(t)) == Seconds(t)
    ensures Stored(Stored(t)) == Stored(t) && Stored(Seconds(t)) == Seconds(t)
  {
    var q, r := t / SECOND, t % SECOND;
    CutTo(t, SECOND, q, r);
    CutTo(t, 1000, 1_000_000 * q + r / 1000, r % 1000);
    var m := SECOND * q + (r - r % 1000);
    assert Stored(t) == m;
    CutTo(m, SECOND, q, r - r % 1000);
    CutTo(m, 1000, 1_000_000 * q + r / 1000, 0);
    CutTo(SECOND * q, 1000, 1_000_000 * q, 0);
  }

  lemma CutTo(t: int, k: int, q: int, r: int)
    requires k > 0 && t == k * q + r && 0 <= r < k
    ensures t - t % k == k * q
  {
    assert k * (t / k - q) == r - t % k;
    NoMultiple(k, t / k - q);
  }

  lemma NoMultiple(k: int, e: int)
    requires k > 0 && -k < k * e < k
    ensures e == 0
  {
    assert e >= 1 ==> k * e >= k;
    assert e <= -1 ==> k * e <= -k;
  }

  const MAX_CLIENT_ID_BYTES := 2048

  /** IssueJWT signs no other client_id claim. */
  predicate Signable(clientId: string) {
    clientId != "" && |Utf8.Encode(clientId)| <= MAX_CLIENT_ID_BYTES
  }

  /** With a new pair the old refresh token is spent, whatever follows: reading the user's identity
      from GitHub, and storing that user, may still fail. Failed: GitHub gave no new pair. */
  datatype GitHub = NewPair(refresh: string, expiry: Option<Time>, identified: bool, stored: bool) | BadRefreshToken | Failed

  datatype Refusal = NeverSeen | ClientMismatch | NoGitHubToken | GraceExpired | RecentlyRemoved | AlreadyUsed | Reauthorize | Undecryptable | ServerError

  datatype Reply = Issued(jti: Jti, token: Token, expiry: Time) | Refused(why: Refusal)

  /** Where a request stands between two of its transactions. */
  datatype Stage =
    | Waiting(g: Grant, client: string)            // GitHub is being asked
    | Revoking(g: Grant, reason: Reason)           // tearDownGrant, before RevokeToken
    | Dropping(g: Grant, reason: Reason)           // tearDownGrant, before DeleteGrant
    | Retrying(token: Token, client: string)       // no grant carries the token
    | Resolving(client: string, replacement: Jti)  // the grace record is good, its successor not yet read
    | Done(reply: Reply)

  /** A row that the server's key does not open is `readable` no more. */
  function AfterRead(found: Option<Grant>, readable: bool, now: Time, token: Token, client: string): (stage: Stage) {
    match found
    case None => Retrying(token, client)
    case Some(g) =>
      if !readable then Done(Refused(Undecryptable))
      else if g.clientId == "" then Revoking(g, ClientBindingMissing)
      else if g.clientId != client then Done(Refused(ClientMismatch))
      else if g.gitHubRefresh == "" then Done(Refused(NoGitHubToken))
      else if g.gitHubExpiry.Some? && now > g.gitHubExpiry.value then Revoking(g, GitHubExpired)
      else Waiting(g, client)
  }

  /** The stage after GitHub has answered, unless the answer is to be committed. */
  function AfterGitHub(g: Grant, answer: GitHub): (stage: Option<Stage>) {
    match answer
    case BadRefreshToken => Some(Revoking(g, GitHubInvalid))
    case Failed => Some(Done(Refused(ServerError)))
    case NewPair(refresh, _, identified, stored) =>
      if !identified then Some(Done(Refused(ServerError)))
      else if refresh == "" then Some(Revoking(g, GitHubMissingRefresh))
      else if !stored then Some(Done(Refused(ServerError)))
      else None
  }

  function Successor(g: Grant, now: Time, jti: Jti, token: Token, answer: GitHub): (next: Grant)
    requires answer.NewPair?
  {
    g.(jti := jti, token := token, gitHubRefresh := answer.refresh, gitHubExpiry := answer.expiry, jwtExpiry := now + JWT_TTL)
  }

  function RotatedRecord(cfg: Config, g: Grant, now: Time, jti: Jti): (r: Retired) {
    Retired(Rotated, g.clientId, g.jti, Some(jti), if cfg.grace > 0 then Some(now + cfg.grace) else None, now + cfg.retention)
  }

  function RemovedRecord(cfg: Config, g: Grant, now: Time, reason: Reason): (r: Retired) {
    Retired(reason, g.clientId, g.jti, None, None, now + cfg.retention)
  }

  function AfterRetired(found: Option<Retired>, now: Time, client: string): (stage: Stage) {
    match found
    case None => Done(Refused(NeverSeen))
    case Some(r) =>
      if r.clientId != "" && r.clientId != client then Done(Refused(ClientMismatch))
      else if r.reason != Rotated then Done(Refused(RecentlyRemoved))
      else if r.graceUntil.None? || now > r.graceUntil.value then Done(Refused(GraceExpired))
      else if r.replacement.None? then Done(Refused(RecentlyRemoved))
      else Resolving(client, r.replacement.value)
  }

  function AfterReplacement(found: Option<Grant>, readable: bool, now: Time, client: string): (stage: Stage) {
    match found
    case None => Done(Refused(RecentlyRemoved))
    case Some(g) =>
      if !readable then Done(Refused(Undecryptable))
      else if g.clientId == "" then Revoking(g, ClientBindingMissing)
      else if g.clientId != client then Done(Refused(ClientMismatch))
      else if now > g.jwtExpiry then Done(Refused(RecentlyRemoved))
      else if !Signable(g.clientId) then Done(Refused(ServerError))
      else Done(Issued(g.jti, g.token, g.jwtExpiry))
  }

  function LookUpRetired(db: Db, now: Time, hash: Hash): (r: Option<Retired>) {
    if hash in db.retired && db.retired[hash].retainedUntil > now then Some(db.retired[hash]) else None
  }

  function LookUp(db: Db, jti: Jti): (g: Option<Grant>) {
    if jti in db.grants then Some(db.grants[jti]) else None
  }

  function Find(db: Db, token: Token): (g: Option<Grant>) {
    match FindByToken(db, token) case None => None case Some(j) => Some(db.grants[j])
  }

  /** Rotating the grant with GitHub's answer, unless its token was consumed meanwhile. */
  function RotateWith(cfg: Config, db: Db, now: Time, g: Grant, answer: GitHub, jti: Jti, token: Token): (result: (Db, Result<Grant, Error>))
    requires answer.NewPair?
  {
    Rotate(db, Stored(now), g.token, g.jti, g.jwtExpiry, Successor(g, now, jti, token, answer), RotatedRecord(cfg, g, now, jti))
  }

  /** The access token is signed after the rotation has committed. */
  function Commit(cfg: Config, db: Db, now: Time, g: Grant, answer: GitHub, jti: Jti, token: Token): (result: (Db, Stage))
    requires answer.NewPair?
  {
    var (after, result) := RotateWith(cfg, db, now, g, answer, jti, token);
    (after, match result
            case Success(_) => if Signable(g.clientId) then Done(Issued(jti, token, now + JWT_TTL)) else Done(Refused(ServerError))
            case Failure(NotFound) => Done(Refused(AlreadyUsed))
            case Failure(Conflict) => Done(Refused(ServerError)))
  }

  class Server {
    const cfg: Config
    const store: Store

    constructor (cfg: Config, store: Store)
      requires ValidConfig(cfg)
      ensures this.cfg == cfg && this.store == store
    {
      this.cfg, this.store := cfg, store;
    }

    method ReadGrant(now: Time, readable: bool, token: Token, client: string) returns (stage: Stage)
      ensures stage == AfterRead(Find(store.State(), token), readable, now, token, client)
    {
      var g := store.GetGrantByRefreshToken(token);
      if g.None? {
        return Retrying(token, client);
      }
      if !readable {
        return Done(Refused(Undecryptable));
      }
      var grant := g.value;
      if grant.clientId == "" {
        return Revoking(grant, ClientBindingMissing);
      }
      if grant.clientId != client {
        return Done(Refused(ClientMismatch));
      }
      if grant.gitHubRefresh == "" {
        return Done(Refused(NoGitHubToken));
      }
      if grant.gitHubExpiry.Some? && now > grant.gitHubExpiry.value {
        return Revoking(grant, GitHubExpired);
      }
      stage := Waiting(grant, client);
    }

    method TakeAnswer(now: Time, grant: Grant, answer: GitHub, jti: Jti, token: Token) returns (stage: Stage)
      modifies store
      ensures match AfterGitHub(grant, answer)
              case Some(next) => stage == next && store.State() == old(store.State())
              case None => answer.NewPair? && (store.State(), stage) == Commit(cfg, old(store.State()), now, grant, answer, jti, token)
    {
      if answer.BadRefreshToken? {
        return Revoking(grant, GitHubInvalid);
      }
      if answer.Failed? || !answer.identified {
        return Done(Refused(ServerError));
      }
      if answer.refresh == "" {
        return Revoking(grant, GitHubMissingRefresh);
      }
      if !answer.stored {
        return Done(Refused(ServerError));
      }
      var jwtExpiry := now + JWT_TTL;
      var next := grant.(jti := jti, token := token, gitHubRefresh := answer.refresh, gitHubExpiry := answer.expiry, jwtExpiry := jwtExpiry);
      var graceUntil := None;
      if cfg.grace > 0 {
        graceUntil := Some(now + cfg.grace);
      }
      var retired := Retired(Rotated, grant.clientId, grant.jti, Some(jti), graceUntil, now + cfg.retention);
      var result := store.RotateGrant(Stored(now), grant.token, grant.jti, grant.jwtExpiry, next, retired);
      if result == Failure(NotFound) {
        return Done(Refused(AlreadyUsed));
      }
      if result.Failure? {
        return Done(Refused(ServerError));
      }
      if !Signable(grant.clientId) {
        return Done(Refused(ServerError));
      }
      stage := Done(Issued(jti, token, jwtExpiry));
    }

    /** tearDownGrant: first the access token is revoked ... */
    method RevokeAccess(now: Time, grant: Grant, reason: Reason) returns (stage: Stage)
      modifies store
      ensures stage == Dropping(grant, reason)
      ensures store.State() == Revoked(old(store.State()), Stored(now), grant.jti, grant.jwtExpiry)
    {
      store.RevokeToken(Stored(now), grant.jti, grant.jwtExpiry);
      stage := Dropping(grant, reason);
    }

    /** ... then the row is deleted, if it still carries that jti. */
    method DropGrant(now: Time, grant: Grant, reason: Reason) returns (stage: Stage)
      modifies store
      ensures stage == Done(Refused(Reauthorize))
      ensures store.State() == Deleted(old(store.State()), Stored(now), grant.jti, grant.token, RemovedRecord(cfg, grant, now, reason)).0
    {
      var _ := store.DeleteGrant(Stored(now), grant.jti, grant.token, Retired(reason, grant.clientId, grant.jti, None, None, now + cfg.retention));
      stage := Done(Refused(Reauthorize));
    }

    method ReadRetired(now: Time, token: Token, client: string) returns (stage: Stage)
      ensures stage == AfterRetired(LookUpRetired(store.State(), Stored(now), Sha256(token)), now, client)
    {
      var hash := Sha256(token);
      if !(hash in store.retired && store.retired[hash].retainedUntil > Stored(now)) {
        return Done(Refused(NeverSeen));
      }
      var r := store.retired[hash];
      if r.clientId != "" && r.clientId != client {
        return Done(Refused(ClientMismatch));
      }
      if r.reason != Rotated {
        return Done(Refused(RecentlyRemoved));
      }
      if r.graceUntil.None? || now > r.graceUntil.value {
        return Done(Refused(GraceExpired));
      }
      if r.replacement.None? {
        return Done(Refused(RecentlyRemoved));
      }
      stage := Resolving(client, r.replacement.value);
    }

    method ReadReplacement(now: Time, readable: bool, client: string, replacement: Jti) returns (stage: Stage)
      ensures stage == AfterReplacement(LookUp(store.State(), replacement), readable, now, client)
    {
      if replacement !in store.grants {
        return Done(Refused(RecentlyRemoved));
      }
      if !readable {
        return Done(Refused(Undecryptable));
      }
      var g := store.grants[replacement];
      if g.clientId == "" {
        return Revoking(g, ClientBindingMissing);
      }
      if g.clientId != client {
        return Done(Refused(ClientMismatch));
      }
      if now > g.jwtExpiry {
        return Done(Refused(RecentlyRemoved));
      }
      if !Signable(g.clientId) {
        return Done(Refused(ServerError));
      }
      stage := Done(Issued(g.jti, g.token, g.jwtExpiry));
    }

    /** VerifyJWT's decision on a well-signed token: neither expired nor revoked. */
    method VerifyJwt(now: Time, jti: Jti, expiry: Time) returns (ok: bool)
      ensures ok <==> Accepts(store.State(), now, jti, expiry)
    {
      if now >= Seconds(expiry) {
        return false;
      }
      var revoked := store.IsTokenRevoked(Stored(now), jti);
      ok := !revoked;
    }
  }

  /** A token issued with this expiry passes: its exp claim is the whole second below. */
  predicate Accepts(db: Db, now: Time, jti: Jti, expiry: Time) {
    now < Seconds(expiry) && !IsRevoked(db, Stored(now), jti)
  }
}
