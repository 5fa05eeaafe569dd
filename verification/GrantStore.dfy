/**
  The tables behind refresh tokens: live grants, retired tokens and revoked JWT ids, and the
  transactions on them.
 */
module GrantStore {
  import opened Wrappers
  import opened Clock

  type Jti = nat
  type Token = nat
  type User = nat
  type GrantId = nat

  /** Refresh tokens are stored retired only as a digest; SHA-256 is taken to be injective. */
  datatype Hash = Sha256(token: Token)

  datatype Grant = Grant(id: GrantId, jti: Jti, user: User, token: Token, clientId: string, scope: string,
                         gitHubRefresh: string, gitHubExpiry: Option<Time>, jwtExpiry: Time)

  datatype Reason = Rotated | GitHubExpired | GitHubInvalid | GitHubMissingRefresh | ClientBindingMissing | OperatorRevoked

  datatype Retired = Retired(reason: Reason, clientId: string, oldJti: Jti, replacement: Option<Jti>,
                             graceUntil: Option<Time>, retainedUntil: Time)

  datatype Error = NotFound | Conflict

  datatype Db = Db(grants: map<Jti, Grant>, retired: map<Hash, Retired>, revoked: map<Jti, Time>)

  function StoredIf(t: Option<Time>): (m: Option<Time>) {
    if t.Some? then Some(Stored(t.value)) else None
  }

  /** A grant as its row keeps it. */
  function StoredGrant(g: Grant): (row: Grant) {
    g.(gitHubExpiry := StoredIf(g.gitHubExpiry), jwtExpiry := Stored(g.jwtExpiry))
  }

  function StoredRecord(r: Retired): (row: Retired) {
    r.(graceUntil := StoredIf(r.graceUntil), retainedUntil := Stored(r.retainedUntil))
  }

  // ---------- what each transaction does ----------

  function FindByToken(db: Db, token: Token): (jti: Option<Jti>)
    ensures jti.Some? ==> jti.value in db.grants && db.grants[jti.value].token == token
    ensures jti.None? ==> forall j | j in db.grants :: db.grants[j].token != token
  {
    var holders := set j | j in db.grants && db.grants[j].token == token;
    if holders == {} then
      assert forall j | j in db.grants && db.grants[j].token == token :: j in holders;
      None
    else Some(Least(holders))
  }

  function Least(s: set<nat>): (x: nat)
    requires s != {}
    ensures x in s
  {
    LeastExists(s);
    var x :| x in s && forall y | y in s :: x <= y;
    x
  }

  lemma LeastExists(s: set<nat>)
    requires s != {}
    ensures exists x :: x in s && forall y | y in s :: x <= y
  {
    var x :| x in s;
    while exists y :: y in s && y < x
      invariant x in s
      decreases x
    {
      var y :| y in s && y < x;
      x := y;
    }
    assert forall y | y in s :: x <= y;
  }

  /** Records a retired token and drops the records whose retention has passed. */
  function Retire(db: Db, now: Time, hash: Hash, r: Retired): (after: Db) {
    var all := db.retired[hash := StoredRecord(r)];
    db.(retired := map h | h in all && all[h].retainedUntil >= now :: all[h])
  }

  function RevokeOnce(revoked: map<Jti, Time>, jti: Jti, expiresAt: Time): (after: map<Jti, Time>) {
    if jti in revoked then revoked else revoked[jti := Stored(expiresAt)]
  }

  /** The deletion of expired rows works on the state before the insertion it travels with. */
  function Revoked(db: Db, now: Time, jti: Jti, expiresAt: Time): (after: Db) {
    var kept := map j | j in db.revoked && db.revoked[j] >= now :: db.revoked[j];
    db.(revoked := if jti in db.revoked then kept else kept[jti := Stored(expiresAt)])
  }

  predicate IsRevoked(db: Db, now: Time, jti: Jti) {
    jti in db.revoked && db.revoked[jti] > now
  }

  /** Replaces the row that still carries `oldToken`; its id and user stay. */
  function Rotate(db: Db, now: Time, oldToken: Token, oldJti: Jti, oldExpiry: Time, g: Grant, r: Retired)
    : (result: (Db, Result<Grant, Error>))
  {
    match FindByToken(db, oldToken)
    case None => (db, Failure(NotFound))
    case Some(row) =>
      if (g.jti in db.grants && g.jti != row) || (exists j | j in db.grants && j != row :: db.grants[j].token == g.token)
      then (db, Failure(Conflict))
      else
        var updated := StoredGrant(g).(id := db.grants[row].id, user := db.grants[row].user);
        var moved := db.(grants := (db.grants - {row})[g.jti := updated],
                         revoked := RevokeOnce(db.revoked, oldJti, oldExpiry));
        (Retire(moved, now, Sha256(oldToken), r), Success(updated))
  }

  /** Removes the row that still carries `jti`; nothing is retired if there is none. */
  function Deleted(db: Db, now: Time, jti: Jti, token: Token, r: Retired): (result: (Db, bool)) {
    if jti !in db.grants then (db, false)
    else (Retire(db.(grants := db.grants - {jti}), now, Sha256(token), r), true)
  }

  function FindById(db: Db, id: GrantId): (jti: Option<Jti>)
    ensures jti.Some? ==> jti.value in db.grants && db.grants[jti.value].id == id
    ensures jti.None? ==> forall j | j in db.grants :: db.grants[j].id != id
  {
    var holders := set j | j in db.grants && db.grants[j].id == id;
    if holders == {} then
      assert forall j | j in db.grants && db.grants[j].id == id :: j in holders;
      None
    else Some(Least(holders))
  }

  function OperatorRevoke(db: Db, now: Time, id: GrantId, retainedUntil: Time): (result: (Db, bool)) {
    match FindById(db, id)
    case None => (db, false)
    case Some(jti) =>
      var g := db.grants[jti];
      var revoked := if g.jwtExpiry > now then RevokeOnce(db.revoked, g.jti, g.jwtExpiry) else db.revoked;
      (Retire(db.(grants := db.grants - {jti}, revoked := revoked), now, Sha256(g.token),
              Retired(OperatorRevoked, g.clientId, g.jti, None, None, retainedUntil)), true)
  }

  /** An older grant of the same user and client whose access token has expired. */
  predicate Stale(db: Db, now: Time, g: Grant, jti: Jti)
    requires jti in db.grants
  {
    db.grants[jti].user == g.user && db.grants[jti].clientId == g.clientId && db.grants[jti].jwtExpiry < now && jti != g.jti
  }

  /** What storing a grant is refused for: no token of GitHub's to keep, or another row that
      carries the refresh token. */
  predicate Unstorable(db: Db, g: Grant) {
    g.gitHubRefresh == "" || exists j | j in db.grants && j != g.jti :: db.grants[j].token == g.token
  }

  /** The row of a grant: one of the same jti keeps its id and user. */
  function RowFor(db: Db, g: Grant): (row: Grant) {
    if g.jti in db.grants then StoredGrant(g).(id := db.grants[g.jti].id, user := db.grants[g.jti].user) else StoredGrant(g)
  }

  /** A stored grant supersedes the stale ones, which are not retired. */
  function Upserted(db: Db, now: Time, g: Grant): (after: Db) {
    var all := db.(grants := db.grants[g.jti := RowFor(db, g)]);
    db.(grants := map j | j in all.grants && !Stale(all, now, g, j) :: all.grants[j])
  }

  // ---------- the transactions, statement by statement ----------

  class Store {
    var grants: map<Jti, Grant>
    var retired: map<Hash, Retired>
    var revoked: map<Jti, Time>

    function State(): (db: Db)
      reads this
    {
      Db(grants, retired, revoked)
    }

    constructor ()
      ensures State() == Db(map[], map[], map[])
    {
      grants, retired, revoked := map[], map[], map[];
    }

    method InsertRetired(now: Time, hash: Hash, r: Retired)
      modifies this`retired
      ensures State() == Retire(old(State()), now, hash, r)
    {
      retired := retired[hash := StoredRecord(r)];
      retired := map h | h in retired && !(retired[h].retainedUntil < now) :: retired[h];
    }

    method GetGrantByRefreshToken(token: Token) returns (g: Option<Grant>)
      ensures g == match FindByToken(State(), token) case None => None case Some(j) => Some(grants[j])
    {
      var j := FindByToken(State(), token);
      g := if j.Some? then Some(grants[j.value]) else None;
    }

    method RotateGrant(now: Time, oldToken: Token, oldJti: Jti, oldExpiry: Time, g: Grant, r: Retired)
      returns (result: Result<Grant, Error>)
      modifies this
      ensures (State(), result) == Rotate(old(State()), now, oldToken, oldJti, oldExpiry, g, r)
    {
      var row := FindByToken(State(), oldToken);
      if row.None? {
        return Failure(NotFound);
      }
      if (g.jti in grants && g.jti != row.value) || exists j :: j in grants && j != row.value && grants[j].token == g.token {
        return Failure(Conflict);
      }
      var updated := StoredGrant(g).(id := grants[row.value].id, user := grants[row.value].user);
      grants := grants - {row.value};
      grants := grants[g.jti := updated];
      if oldJti !in revoked {
        revoked := revoked[oldJti := Stored(oldExpiry)];
      }
      InsertRetired(now, Sha256(oldToken), r);
      result := Success(updated);
    }

    method DeleteGrant(now: Time, jti: Jti, token: Token, r: Retired) returns (found: bool)
      modifies this
      ensures (State(), found) == Deleted(old(State()), now, jti, token, r)
    {
      found := jti in grants;
      if found {
        grants := grants - {jti};
        InsertRetired(now, Sha256(token), r);
      }
    }

    method RevokeOAuthGrantById(now: Time, id: GrantId, retainedUntil: Time) returns (found: bool)
      modifies this
      ensures (State(), found) == OperatorRevoke(old(State()), now, id, retainedUntil)
    {
      var jti := FindById(State(), id);
      if jti.None? {
        return false;
      }
      var g := grants[jti.value];
      if g.jwtExpiry > now {
        if g.jti !in revoked {
          revoked := revoked[g.jti := Stored(g.jwtExpiry)];
        }
      }
      grants := grants - {jti.value};
      InsertRetired(now, Sha256(g.token), Retired(OperatorRevoked, g.clientId, g.jti, None, None, retainedUntil));
      found := true;
    }

    method UpsertGrant(now: Time, g: Grant) returns (ok: bool)
      modifies this`grants
      ensures ok <==> !Unstorable(old(State()), g)
      ensures State() == if ok then Upserted(old(State()), now, g) else old(State())
    {
      if g.gitHubRefresh == "" {
        return false;
      }
      if exists j :: j in grants && j != g.jti && grants[j].token == g.token {
        return false;
      }
      var row := StoredGrant(g);
      if g.jti in grants {
        row := row.(id := grants[g.jti].id, user := grants[g.jti].user);
      }
      grants := grants[g.jti := row];
      grants := map j | j in grants && !(grants[j].user == g.user && grants[j].clientId == g.clientId
                                         && grants[j].jwtExpiry < now && j != g.jti) :: grants[j];
      ok := true;
    }

    method RevokeToken(now: Time, jti: Jti, expiresAt: Time)
      modifies this`revoked
      ensures State() == Revoked(old(State()), now, jti, expiresAt)
    {
      var expired := set j | j in revoked && revoked[j] < now;
      var absent := jti !in revoked;
      revoked := revoked - expired;
      if absent {
        revoked := revoked[jti := Stored(expiresAt)];
      }
    }

    method IsTokenRevoked(now: Time, jti: Jti) returns (yes: bool)
      ensures yes == IsRevoked(State(), now, jti)
    {
      yes := jti in revoked && revoked[jti] > now;
    }
  }
}
