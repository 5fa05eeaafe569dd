/**
  The handlers of the authorization-code flow. Each function is what one handler decides
  between two transactions; the Server's methods carry the handlers out against the store. The
  database reads the same clock as the server, in whole microseconds.
 */
module AuthFlow {
  import opened Wrappers
  import opened Clock
  import opened Scopes
  import opened AuthState
  import Json
  import G = GrantStore
  import R = RefreshGrant

  // ---------- clients and their redirect URIs ----------

  datatype Client = Client(scope: Scope, redirectUris: seq<string>, refreshAllowed: bool)

  /** A parsed URL with a host. The scheme is in lower case; path and fragment are decoded, and
      rawPath and rawFragment hold them as written where that says more (else nothing); forceQuery
      is a question mark with nothing after it. */
  datatype Url = Url(scheme: string, user: Option<string>, hostname: string, port: string, path: string, rawPath: string,
                     forceQuery: bool, rawQuery: string, fragment: string, rawFragment: string)

  /** How the server is wired, and the foreign functions it calls: the parsers of URLs and of user
      ids, and BASE64URL(SHA256(.)). */
  datatype Deployment = Deployment(clientStore: bool, resolver: bool, cimdEnabled: bool, userStore: bool, grantStore: bool,
                                   parse: string -> Option<Url>, parseUser: string -> Option<G.User>, s256: string -> string)

  datatype RequestError = UnsupportedResponseType | InvalidRequest | InvalidClient | InvalidScope | ServerError

  /** The registered clients and what resolving client-ID metadata documents yields just now. */
  datatype Registry = Registry(registered: map<string, Client>, metadata: map<string, Result<Client, RequestError>>)

  const LOOPBACK := {"localhost", "127.0.0.1", "::1"}

  predicate RedirectMatches(d: Deployment, allowed: string, request: string, anyPort: bool) {
    allowed == request ||
    (anyPort &&
     match (d.parse(allowed), d.parse(request))
     case (Some(a), Some(r)) =>
       && a.scheme == "http" && r.scheme == "http"
       && a.hostname in LOOPBACK && r.hostname in LOOPBACK && a.hostname == r.hostname
       && a.user.None? && r.user.None?
       && a.path == r.path && a.rawQuery == r.rawQuery && a.fragment == r.fragment
     case _ => false)
  }

  /** The scan returns at the first match. */
  method RedirectMatchesAny(d: Deployment, allowed: seq<string>, request: string, anyPort: bool) returns (found: bool)
    ensures found <==> exists i :: 0 <= i < |allowed| && RedirectMatches(d, allowed[i], request, anyPort)
  {
    for i := 0 to |allowed|
      invariant forall k | 0 <= k < i :: !RedirectMatches(d, allowed[k], request, anyPort)
    {
      if RedirectMatches(d, allowed[i], request, anyPort) {
        return true;
      }
    }
    found := false;
  }

  predicate Allowed(d: Deployment, client: Client, request: string, anyPort: bool) {
    exists i :: 0 <= i < |client.redirectUris| && RedirectMatches(d, client.redirectUris[i], request, anyPort)
  }

  /** An http URL of this machine that names no user. */
  predicate IsLoopback(u: Url) {
    u.scheme == "http" && u.hostname in LOOPBACK && u.user.None?
  }

  /** A registered client must name the redirect URI exactly. One known by its metadata document
      may on a loopback host over http also name another port, write the same path or fragment
      with other escapes, or put or leave out a bare question mark; those differences, and no
      others once parsed, are tolerated. */
  lemma RedirectMeaning(d: Deployment, allowed: string, request: string)
    ensures RedirectMatches(d, allowed, request, false) <==> allowed == request
    ensures RedirectMatches(d, allowed, request, true) <==>
              || allowed == request
              || (d.parse(allowed).Some? && d.parse(request).Some?
                  && var a, r := d.parse(allowed).value, d.parse(request).value;
                     IsLoopback(a) && r == a.(port := r.port, rawPath := r.rawPath, forceQuery := r.forceQuery, rawFragment := r.rawFragment))
  {
  }

  /** Whoever is matched by what an allowed URI matches is matched by the URI: the allowed URIs of
      a metadata document stand for whole classes of addresses. */
  lemma RedirectClasses(d: Deployment, a: string, b: string, c: string, anyPort: bool)
    ensures RedirectMatches(d, a, b, anyPort) == RedirectMatches(d, b, a, anyPort)
    ensures RedirectMatches(d, a, b, anyPort) && RedirectMatches(d, b, c, anyPort) ==> RedirectMatches(d, a, c, anyPort)
  {
  }

  /** So an escaped slash in an allowed path also lets the request through whose path has a slash
      there, although the two are different addresses. */
  lemma EscapedSlashMatches(d: Deployment)
    requires d.parse("http://127.0.0.1/cb%2Fx") == Some(Url("http", None, "127.0.0.1", "", "/cb/x", "/cb%2Fx", false, "", "", ""))
    requires d.parse("http://127.0.0.1/cb/x") == Some(Url("http", None, "127.0.0.1", "", "/cb/x", "", false, "", "", ""))
    ensures RedirectMatches(d, "http://127.0.0.1/cb%2Fx", "http://127.0.0.1/cb/x", true)
  {
    RedirectMeaning(d, "http://127.0.0.1/cb%2Fx", "http://127.0.0.1/cb/x");
  }

  /** Registered clients come before metadata documents; with neither wired, any client goes. */
  ghost function Resolve(d: Deployment, reg: Registry, clientId: string, redirectUri: string): (r: Result<Option<Client>, RequestError>) {
    if clientId == "" then Failure(InvalidRequest)
    else if !d.clientStore && !d.resolver then Success(None)
    else if d.clientStore && clientId in reg.registered then
      if Allowed(d, reg.registered[clientId], redirectUri, false) then Success(Some(reg.registered[clientId])) else Failure(InvalidRequest)
    else if !d.cimdEnabled || !d.resolver || clientId !in reg.metadata then Failure(InvalidClient)
    else match reg.metadata[clientId]
      case Failure(e) => Failure(e)
      case Success(client) => if Allowed(d, client, redirectUri, true) then Success(Some(client)) else Failure(InvalidRequest)
  }

  /** The client that a request was made for, where it was known at all. */
  function KnownClient(d: Deployment, reg: Registry, clientId: string): (client: Option<Client>) {
    if d.clientStore && clientId in reg.registered then Some(reg.registered[clientId])
    else if d.resolver && clientId in reg.metadata && reg.metadata[clientId].Success? then Some(reg.metadata[clientId].value)
    else None
  }

  /** Who the client is, and whether the redirect URI is its own: a registered client is meant
      before one that publishes metadata, and must name one of its URIs exactly. */
  lemma ResolvedExactly(d: Deployment, reg: Registry, clientId: string, redirectUri: string)
    ensures Resolve(d, reg, clientId, redirectUri) ==
              if clientId == "" then Failure(InvalidRequest)
              else if d.clientStore && clientId in reg.registered then
                if redirectUri in reg.registered[clientId].redirectUris then Success(Some(reg.registered[clientId])) else Failure(InvalidRequest)
              else if d.resolver && d.cimdEnabled && clientId in reg.metadata then
                if reg.metadata[clientId].Failure? then Failure(reg.metadata[clientId].error)
                else if exists uri :: uri in reg.metadata[clientId].value.redirectUris && RedirectMatches(d, uri, redirectUri, true)
                then Success(Some(reg.metadata[clientId].value)) else Failure(InvalidRequest)
              else if d.clientStore || d.resolver then Failure(InvalidClient)
              else Success(None)
  {
    if d.clientStore && clientId in reg.registered {
      var uris := reg.registered[clientId].redirectUris;
      assert redirectUri in uris <==> exists i :: 0 <= i < |uris| && RedirectMatches(d, uris[i], redirectUri, false);
    } else if clientId in reg.metadata && reg.metadata[clientId].Success? {
      var uris := reg.metadata[clientId].value.redirectUris;
      assert forall i | 0 <= i < |uris| :: uris[i] in uris;
      assert Allowed(d, reg.metadata[clientId].value, redirectUri, true)
        <==> exists uri :: uri in uris && RedirectMatches(d, uri, redirectUri, true);
    }
  }

  // ---------- the authorization request ----------

  datatype Query = Query(responseType: string, clientId: string, redirectUri: string, codeChallenge: string,
                         codeChallengeMethod: string, scope: Scope, state: string)

  const DASHBOARD := "starlogz-ui"

  predicate ConfirmationRequired(clientId: string) {
    clientId !in {DASHBOARD}
  }

  ghost function Authorize(d: Deployment, reg: Registry, q: Query): (r: Result<PendingAuth, RequestError>) {
    if q.responseType != "code" then Failure(UnsupportedResponseType)
    else if q.redirectUri == "" then Failure(InvalidRequest)
    else match Resolve(d, reg, q.clientId, q.redirectUri)
      case Failure(e) => Failure(e)
      case Success(client) =>
        if q.codeChallenge == "" || q.codeChallengeMethod != "S256" then Failure(InvalidRequest)
        else match Granted(q.scope, if client.Some? then Some(client.value.scope) else None)
          case Failure(e) => Failure(if e.ClientMisconfigured? then ServerError else RequestError.InvalidScope)
          case Success(scope) =>
            Success(PendingAuth(q.clientId, q.redirectUri, scope, q.codeChallenge, q.state,
                                client.Some? && client.value.refreshAllowed, ConfirmationRequired(q.clientId)))
  }

  /** Which authorization requests are accepted, and what they are stored as: the request's own
      bindings, the scope in the order asked for, and the client's right to refresh tokens. */
  lemma AuthorizedExactly(d: Deployment, reg: Registry, q: Query)
    ensures var client := Resolve(d, reg, q.clientId, q.redirectUri);
            var supported := {"insights:read", "insights:write", "org:admin"};
            && (Authorize(d, reg, q).Success? <==>
                  && q.responseType == "code" && q.redirectUri != "" && q.codeChallenge != "" && q.codeChallengeMethod == "S256"
                  && client.Success?
                  && var own := if client.value.None? then supported else Words(RegisteredScope(client.value));
                     own <= supported && Within(q.scope, own))
            && (Authorize(d, reg, q).Success? ==>
                  var p := Authorize(d, reg, q).value;
                  && p.clientId == q.clientId && p.redirectUri == q.redirectUri && p.codeChallenge == q.codeChallenge && p.clientState == q.state
                  && FirstAppearances(p.scope, if q.scope == [] then RegisteredScope(client.value) else q.scope)
                  && p.refreshAllowed == (client.value.Some? && client.value.value.refreshAllowed)
                  && p.confirmationRequired == (q.clientId != "starlogz-ui"))
  {
    hide Resolve, FirstAppearances, Granted, Distinct;
    var client := Resolve(d, reg, q.clientId, q.redirectUri);
    if client.Success? {
      GrantedExactly(q.scope, if client.value.Some? then Some(client.value.value.scope) else None);
    }
  }

  /** What a client may ask for without saying so. */
  function RegisteredScope(client: Option<Client>): (scope: Scope) {
    if client.None? then ["insights:read"]
    else if client.value.scope == [] then ["insights:read", "insights:write"]
    else client.value.scope
  }

  // ---------- after GitHub ----------

  /** What GitHub said, and the id under which the user was stored (None: storing failed). */
  datatype Answer = Identified(gitHubId: int, userId: Option<string>, access: string, refresh: string, expiry: Option<Time>) | GitHubFailed

  /** Who the user is to this server, and the tokens GitHub gave. */
  datatype Identity = Identity(sub: string, access: string, refresh: string, expiry: Option<Time>)

  /** Without a user store the subject is GitHub's number for the user. */
  function IdentityOf(d: Deployment, answer: Answer): (id: Option<Identity>)
    requires answer.Identified?
  {
    if !d.userStore then Some(Identity(Json.Decimal(answer.gitHubId), answer.access, answer.refresh, answer.expiry))
    else if answer.userId.None? then None
    else Some(Identity(answer.userId.value, answer.access, answer.refresh, answer.expiry))
  }

  function CodeFor(p: PendingAuth, id: Identity): (c: AuthCode) {
    AuthCode(id.sub, p.scope, p.codeChallenge, p.redirectUri, p.clientId, p.refreshAllowed, id.access, id.refresh, id.expiry)
  }

  datatype CallbackReply = ConfirmationPage(token: ConfirmToken) | RedirectWithCode(code: Code) | BadGateway | Internal

  /** The state was consumed before GitHub was asked: what the answer then stores. */
  function AfterGitHub(d: Deployment, db: Tables, now: Time, p: PendingAuth, answer: Answer, token: ConfirmToken, code: Code)
    : (after: (Tables, CallbackReply))
  {
    if answer.GitHubFailed? then (db, BadGateway)
    else match IdentityOf(d, answer)
      case None => (db, Internal)
      case Some(id) =>
        if p.confirmationRequired then
          if Sha256(token) in db.confirmations then (db, Internal)
          else (db.(confirmations := Pruned(db.confirmations[Sha256(token) := Row(Confirmation(CodeFor(p, id), p.clientState), now + CONFIRMATION_TTL)], now)),
                ConfirmationPage(token))
        else if code in db.codes then (db, Internal)
        else (db.(codes := Pruned(db.codes[code := Row(CodeFor(p, id), now + CODE_TTL)], now)), RedirectWithCode(code))
  }

  /** The answer of GitHub leads to the confirmation page, or to a code at once for the dashboard;
      either carries what was authorized, the user's id here (or GitHub's number, where no users
      are stored) and the tokens GitHub gave. Without an answer, or a user, nothing is stored. */
  lemma CallbackStores(d: Deployment, db: Tables, now: Time, p: PendingAuth, answer: Answer, token: ConfirmToken, code: Code)
    ensures var (after, reply) := AfterGitHub(d, db, now, p, answer, token, code);
            if answer.GitHubFailed? then after == db && reply == BadGateway
            else if d.userStore && answer.userId == None then after == db && reply == Internal
            else
              var c := AuthCode(if d.userStore then answer.userId.value else Json.Decimal(answer.gitHubId), p.scope, p.codeChallenge,
                                p.redirectUri, p.clientId, p.refreshAllowed, answer.access, answer.refresh, answer.expiry);
              if p.confirmationRequired then
                if Sha256(token) in db.confirmations then after == db && reply == Internal
                else
                  && reply == ConfirmationPage(token) && after.pendings == db.pendings && after.codes == db.codes
                  && Sha256(token) in after.confirmations
                  && after.confirmations[Sha256(token)] == Row(Confirmation(c, p.clientState), now + 600 * SECOND)
              else if code in db.codes then after == db && reply == Internal
              else
                && reply == RedirectWithCode(code) && after.pendings == db.pendings && after.confirmations == db.confirmations
                && code in after.codes && after.codes[code] == Row(c, now + 300 * SECOND)
  {
  }

  // ---------- the token request ----------

  /** The claims of the access token, and whether a grant is to back it with a refresh token. */
  datatype Claims = Claims(sub: string, clientId: string, scope: Scope, refreshable: bool)

  /** A code comes as text; only a code once handed out parses to one here. */
  datatype Presented = Presented(code: Option<Code>, verifier: string, clientId: string, redirectUri: string)

  predicate WellFormed(x: Presented) {
    x.code.Some? && x.verifier != "" && x.clientId != ""
  }

  predicate Proves(d: Deployment, c: AuthCode, x: Presented) {
    x.clientId == c.clientId && x.redirectUri == c.redirectUri && d.s256(x.verifier) == c.codeChallenge
  }

  function ClaimsFor(d: Deployment, c: AuthCode): (claims: Claims) {
    Claims(c.sub, c.clientId, c.scope,
           d.grantStore && c.gitHubAccess != "" && c.gitHubRefresh != "" && (c.refreshAllowed || (!d.clientStore && !d.resolver)))
  }

  datatype TokenReply = TokenIssued(claims: Claims) | InvalidTokenRequest | InvalidGrant | TokenServerError

  function Exchange(d: Deployment, db: Tables, now: Time, x: Presented, readable: bool): (after: (Tables, TokenReply)) {
    if !WellFormed(x) then (db, InvalidTokenRequest)
    else if !Unexpired(db.codes, now, x.code.value) then (db, InvalidGrant)
    else (db.(codes := Take(db.codes, now, x.code.value)),
          var c := db.codes[x.code.value].value;
          if !Opens(c, readable) then TokenServerError
          else if !Proves(d, c, x) then InvalidGrant
          else if !R.Signable(c.clientId) then TokenServerError
          else TokenIssued(ClaimsFor(d, c)))
  }

  /** The grant behind the refresh token. */
  function GrantFor(c: AuthCode, now: Time, user: G.User, jti: G.Jti, token: G.Token, id: G.GrantId): (g: G.Grant) {
    G.Grant(id, jti, user, token, c.clientId, Joined(c.scope), c.gitHubRefresh, c.gitHubExpiry, now + R.JWT_TTL)
  }

  // ---------- the handlers ----------

  class Server {
    const d: Deployment
    const store: Store
    const grants: G.Store

    constructor (d: Deployment, store: Store, grants: G.Store)
      ensures this.d == d && this.store == store && this.grants == grants
    {
      this.d, this.store, this.grants := d, store, grants;
    }

    method ResolveClient(reg: Registry, clientId: string, redirectUri: string) returns (r: Result<Option<Client>, RequestError>)
      ensures r == Resolve(d, reg, clientId, redirectUri)
    {
      if clientId == "" {
        return Failure(InvalidRequest);
      }
      if !d.clientStore && !d.resolver {
        return Success(None);
      }
      if d.clientStore && clientId in reg.registered {
        var client := reg.registered[clientId];
        var found := RedirectMatchesAny(d, client.redirectUris, redirectUri, false);
        return if found then Success(Some(client)) else Failure(InvalidRequest);
      }
      if !d.cimdEnabled || !d.resolver || clientId !in reg.metadata {
        return Failure(InvalidClient);
      }
      match reg.metadata[clientId]
      case Failure(e) => return Failure(e);
      case Success(client) =>
        var found := RedirectMatchesAny(d, client.redirectUris, redirectUri, true);
        return if found then Success(Some(client)) else Failure(InvalidRequest);
    }

    method HandleAuthorize(now: Time, reg: Registry, q: Query, state: State) returns (r: Result<State, RequestError>)
      modifies store
      ensures match Authorize(d, reg, q)
              case Failure(e) => r == Failure(e) && store.Db() == old(store.Db())
              case Success(p) =>
                if state in old(store.pendings) then r == Failure(ServerError) && store.Db() == old(store.Db())
                else r == Success(state) && store.Db() == old(store.Db()).(pendings := Pruned(old(store.pendings)[state := Row(p, Stored(now) + PENDING_TTL)], Stored(now)))
    {
      if q.responseType != "code" {
        return Failure(UnsupportedResponseType);
      }
      if q.redirectUri == "" {
        return Failure(InvalidRequest);
      }
      var resolved := ResolveClient(reg, q.clientId, q.redirectUri);
      if resolved.Failure? {
        return Failure(resolved.error);
      }
      var client := resolved.value;
      if q.codeChallenge == "" {
        return Failure(InvalidRequest);
      }
      if q.codeChallengeMethod != "S256" {
        return Failure(InvalidRequest);
      }
      var scope := GrantScope(q.scope, if client.Some? then Some(client.value.scope) else None);
      if scope.Failure? {
        return Failure(if scope.error.ClientMisconfigured? then ServerError else RequestError.InvalidScope);
      }
      var stored := store.StorePendingAuth(Stored(now), state,
        PendingAuth(q.clientId, q.redirectUri, scope.value, q.codeChallenge, q.state,
                    client.Some? && client.value.refreshAllowed, ConfirmationRequired(q.clientId)));
      if !stored {
        return Failure(ServerError);
      }
      r := Success(state);
    }

    /** The callback, up to the call to GitHub. */
    method TakeState(now: Time, state: State) returns (pending: Option<PendingAuth>)
      modifies store
      ensures pending == if Unexpired(old(store.pendings), Stored(now), state) then Some(old(store.pendings)[state].value) else None
      ensures store.Db() == old(store.Db()).(pendings := Take(old(store.pendings), Stored(now), state))
    {
      pending := store.ConsumePendingAuth(Stored(now), state);
    }

    /** The callback, once GitHub has answered. */
    method FinishCallback(now: Time, p: PendingAuth, answer: Answer, token: ConfirmToken, code: Code) returns (reply: CallbackReply)
      modifies store
      ensures (store.Db(), reply) == AfterGitHub(d, old(store.Db()), Stored(now), p, answer, token, code)
    {
      if answer.GitHubFailed? {
        return BadGateway;
      }
      var sub := Json.Decimal(answer.gitHubId);
      if d.userStore {
        if answer.userId.None? {
          return Internal;
        }
        sub := answer.userId.value;
      }
      var c := AuthCode(sub, p.scope, p.codeChallenge, p.redirectUri, p.clientId, p.refreshAllowed, answer.access, answer.refresh, answer.expiry);
      if p.confirmationRequired {
        var stored := store.StoreAuthorizationConfirmation(Stored(now), Sha256(token), Confirmation(c, p.clientState));
        return if stored then ConfirmationPage(token) else Internal;
      }
      var stored := store.StoreAuthCode(Stored(now), code, c);
      reply := if stored then RedirectWithCode(code) else Internal;
    }

    /** The code is consumed before anything it is bound to is checked, and the token is signed
        before its grant is stored; a grant that cannot be stored only costs the refresh token. */
    method HandleTokenRequest(now: Time, x: Presented, readable: bool, jti: G.Jti, token: G.Token, id: G.GrantId)
      returns (reply: TokenReply, refresh: Option<G.Token>)
      modifies store, grants
      ensures (store.Db(), reply) == Exchange(d, old(store.Db()), Stored(now), x, readable)
      ensures refresh.None? || refresh == Some(token)
      ensures refresh == Some(token) <==>
                && reply.TokenIssued? && d.grantStore
                && var c := old(store.codes)[x.code.value].value;
                   && c.gitHubAccess != "" && c.gitHubRefresh != "" && (c.refreshAllowed || (!d.clientStore && !d.resolver))
                   && d.parseUser(c.sub).Some?
                   && !exists j :: j in old(grants.State()).grants && j != jti && old(grants.State()).grants[j].token == token
      ensures if reply.TokenIssued? && reply.claims.refreshable && d.parseUser(reply.claims.sub).Some? then
                var g := GrantFor(old(store.codes)[x.code.value].value, now, d.parseUser(reply.claims.sub).value, jti, token, id);
                if G.Unstorable(old(grants.State()), g) then refresh == None && grants.State() == old(grants.State())
                else refresh == Some(token) && grants.State() == G.Upserted(old(grants.State()), Stored(now), g)
              else
                refresh == None && grants.State() == old(grants.State())
    {
      refresh := None;
      if x.code.None? || x.verifier == "" || x.clientId == "" {
        return InvalidTokenRequest, None;
      }
      var found := store.ConsumeAuthCode(Stored(now), x.code.value, readable);
      if found.Failure? {
        return if found.error.NotFound? then InvalidGrant else TokenServerError, None;
      }
      var c := found.value;
      if x.clientId != c.clientId {
        return InvalidGrant, None;
      }
      if x.redirectUri != c.redirectUri {
        return InvalidGrant, None;
      }
      if d.s256(x.verifier) != c.codeChallenge {
        return InvalidGrant, None;
      }
      var jwtExpiry := now + R.JWT_TTL;
      if !R.Signable(c.clientId) {
        return TokenServerError, None;
      }
      var refreshAllowed := c.refreshAllowed;
      if !refreshAllowed && !d.clientStore && !d.resolver {
        refreshAllowed := true;
      }
      var refreshable := d.grantStore && c.gitHubAccess != "" && c.gitHubRefresh != "" && refreshAllowed;
      if refreshable {
        var user := d.parseUser(c.sub);
        if user.Some? {
          var stored := grants.UpsertGrant(Stored(now),
            G.Grant(id, jti, user.value, token, c.clientId, Joined(c.scope), c.gitHubRefresh, c.gitHubExpiry, jwtExpiry));
          refresh := if stored then Some(token) else None;
        }
      }
      reply := TokenIssued(Claims(c.sub, c.clientId, c.scope, refreshable));
    }
  }
}
