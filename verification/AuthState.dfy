/**
  The three single-use tables of the authorization-code flow and their transactions:
  pending authorizations, confirmations waiting for the user's decision, and codes. Here `now`
  is what the database reads from the clock.
 */
module AuthState {
  import opened Wrappers
  import opened Clock
  import opened Scopes

  type State = nat
  type Code = nat
  type ConfirmToken = nat

  /** A confirmation is stored under its token's digest; SHA-256 is taken to be injective. */
  datatype Hash = Sha256(token: ConfirmToken)

  const PENDING_TTL: Time := 600 * SECOND
  const CONFIRMATION_TTL: Time := 600 * SECOND
  const CODE_TTL: Time := 300 * SECOND

  datatype PendingAuth = PendingAuth(clientId: string, redirectUri: string, scope: Scope, codeChallenge: string,
                                     clientState: string, refreshAllowed: bool, confirmationRequired: bool)

  datatype AuthCode = AuthCode(sub: string, scope: Scope, codeChallenge: string, redirectUri: string, clientId: string,
                               refreshAllowed: bool, gitHubAccess: string, gitHubRefresh: string, gitHubExpiry: Option<Time>)

  datatype Confirmation = Confirmation(authCode: AuthCode, clientState: string)

  datatype Row<T> = Row(value: T, expiresAt: Time)

  datatype Tables = Tables(pendings: map<State, Row<PendingAuth>>, confirmations: map<Hash, Row<Confirmation>>,
                           codes: map<Code, Row<AuthCode>>)

  // ---------- the rows a statement leaves ----------

  function Pruned<K, T>(rows: map<K, Row<T>>, now: Time): (kept: map<K, Row<T>>) {
    map k | k in rows && rows[k].expiresAt >= now :: rows[k]
  }

  predicate Unexpired<K, T>(rows: map<K, Row<T>>, now: Time, k: K) {
    k in rows && rows[k].expiresAt > now
  }

  /** Takes the row away, if it has not expired. */
  function Take<K, T>(rows: map<K, Row<T>>, now: Time, k: K): (left: map<K, Row<T>>) {
    if Unexpired(rows, now, k) then rows - {k} else rows
  }

  /** Approving a confirmation puts its code in its place. */
  function Decided(db: Tables, now: Time, hash: Hash, approve: bool, code: Code): (after: Tables)
    requires Unexpired(db.confirmations, now, hash)
  {
    db.(confirmations := Take(db.confirmations, now, hash),
        codes := if approve then db.codes[code := Row(db.confirmations[hash].value.authCode, now + CODE_TTL)] else db.codes)
  }

  // ---------- the transactions ----------

  datatype Error = NotFound | Duplicate | Undecryptable

  /** GitHub's tokens are stored encrypted, if there are any; `readable` says whether the
      server's key still opens them. */
  predicate Opens(c: AuthCode, readable: bool) {
    readable || (c.gitHubAccess == "" && c.gitHubRefresh == "")
  }

  class Store {
    var pendings: map<State, Row<PendingAuth>>
    var confirmations: map<Hash, Row<Confirmation>>
    var codes: map<Code, Row<AuthCode>>

    function Db(): (db: Tables)
      reads this
    {
      Tables(pendings, confirmations, codes)
    }

    constructor ()
      ensures Db() == Tables(map[], map[], map[])
    {
      pendings, confirmations, codes := map[], map[], map[];
    }

    method StorePendingAuth(now: Time, state: State, p: PendingAuth) returns (ok: bool)
      modifies this`pendings
      ensures ok <==> state !in old(pendings)
      ensures pendings == if ok then Pruned(old(pendings)[state := Row(p, now + PENDING_TTL)], now) else old(pendings)
    {
      if state in pendings {
        return false;
      }
      pendings := pendings[state := Row(p, now + PENDING_TTL)];
      pendings := map k | k in pendings && !(pendings[k].expiresAt < now) :: pendings[k];
      ok := true;
    }

    method ConsumePendingAuth(now: Time, state: State) returns (p: Option<PendingAuth>)
      modifies this`pendings
      ensures p == if Unexpired(old(pendings), now, state) then Some(old(pendings)[state].value) else None
      ensures pendings == Take(old(pendings), now, state)
    {
      if state !in pendings || !(pendings[state].expiresAt > now) {
        return None;
      }
      p := Some(pendings[state].value);
      pendings := pendings - {state};
    }

    method StoreAuthorizationConfirmation(now: Time, hash: Hash, c: Confirmation) returns (ok: bool)
      modifies this`confirmations
      ensures ok <==> hash !in old(confirmations)
      ensures confirmations == if ok then Pruned(old(confirmations)[hash := Row(c, now + CONFIRMATION_TTL)], now) else old(confirmations)
    {
      if hash in confirmations {
        return false;
      }
      confirmations := confirmations[hash := Row(c, now + CONFIRMATION_TTL)];
      confirmations := map k | k in confirmations && !(confirmations[k].expiresAt < now) :: confirmations[k];
      ok := true;
    }

    /** One transaction: a code that cannot be inserted leaves the confirmation undecided. */
    method CompleteAuthorizationConfirmation(now: Time, hash: Hash, approve: bool, code: Code)
      returns (result: Result<Confirmation, Error>)
      modifies this
      ensures result == if !Unexpired(old(confirmations), now, hash) then Failure(NotFound)
                        else if approve && code in old(codes) then Failure(Duplicate)
                        else Success(old(confirmations)[hash].value)
      ensures Db() == if result.Success? then Decided(old(Db()), now, hash, approve, code) else old(Db())
    {
      if hash !in confirmations || !(confirmations[hash].expiresAt > now) {
        return Failure(NotFound);
      }
      var before := confirmations;
      var c := confirmations[hash].value;
      confirmations := confirmations - {hash};
      if approve {
        if code in codes {
          confirmations := before;
          return Failure(Duplicate);
        }
        codes := codes[code := Row(c.authCode, now + CODE_TTL)];
      }
      result := Success(c);
    }

    method StoreAuthCode(now: Time, code: Code, c: AuthCode) returns (ok: bool)
      modifies this`codes
      ensures ok <==> code !in old(codes)
      ensures codes == if ok then Pruned(old(codes)[code := Row(c, now + CODE_TTL)], now) else old(codes)
    {
      if code in codes {
        return false;
      }
      codes := codes[code := Row(c, now + CODE_TTL)];
      codes := map k | k in codes && !(codes[k].expiresAt < now) :: codes[k];
      ok := true;
    }

    /** A code whose tokens cannot be decrypted is gone all the same. */
    method ConsumeAuthCode(now: Time, code: Code, readable: bool) returns (result: Result<AuthCode, Error>)
      modifies this`codes
      ensures result == if !Unexpired(old(codes), now, code) then Failure(NotFound)
                        else if !Opens(old(codes)[code].value, readable) then Failure(Undecryptable)
                        else Success(old(codes)[code].value)
      ensures codes == Take(old(codes), now, code)
    {
      if code !in codes || !(codes[code].expiresAt > now) {
        return Failure(NotFound);
      }
      var c := codes[code].value;
      codes := codes - {code};
      if c.gitHubAccess != "" && !readable {
        return Failure(Undecryptable);
      }
      if c.gitHubRefresh != "" && !readable {
        return Failure(Undecryptable);
      }
      result := Success(c);
    }
  }
}
