/**
  Any number of refresh requests, logins, logouts and operator revocations, interleaved at
  every transaction. `issued`, `jtiOf`, `headOf` and `revokedEver` record history only; no
  decision reads them. Fresh ids, tokens and jtis are the environment's choice, and so is
  whether a grant's row can be decrypted when it is read.
 */
module RefreshProtocol {
  import opened Wrappers
  import opened Clock
  import opened GrantStore
  import opened RefreshGrant

  /** What became of an access token's grant: its refresh token is current, was rotated, or
      the grant is gone (or never was: tokens issued without a refresh token). */
  datatype Fate = Live | RotatedTo(next: Jti, at: Time) | Gone

  /** `gen` counts the rotations since login, and `expiry` is the one the token was signed with. */
  datatype Issue = Issue(token: Option<Token>, id: GrantId, clientId: string, expiry: Time, prev: Option<Jti>, gen: nat, fate: Fate)

  datatype Sys = Sys(now: Time, db: Db, requests: map<nat, Stage>,
                     issued: map<Jti, Issue>, jtiOf: map<Token, Jti>, headOf: map<GrantId, Jti>, revokedEver: set<Jti>)

  datatype Action =
    | Tick(d: nat)
    | Login(g: Grant)
    | LoginWithoutRefresh(jti: Jti)
    | Begin(req: nat, token: Token, client: string, readable: bool)
    | Answer(req: nat, answer: GitHub, jti: Jti, token: Token)
    | RevokeFirst(req: nat)
    | DropThen(req: nat)
    | Retry(req: nat)
    | Resolve(req: nat, readable: bool)
    | Logout(jti: Jti)
    | Operator(id: GrantId)

  const INIT := Sys(0, Db(map[], map[], map[]), map[], map[], map[], map[], {})

  /** A token is signed before its grant is stored, so only a client_id that can be signed gets
      a grant; none at all stands for grants older than the binding. */
  predicate Bindable(clientId: string) {
    clientId == "" || Signable(clientId)
  }

  predicate Enabled(s: Sys, a: Action) {
    match a
    case Tick(_) => true
    case Login(g) =>
      && g.jti !in s.issued && g.token !in s.jtiOf && g.jwtExpiry == s.now + JWT_TTL
      && g.gitHubRefresh != "" && Bindable(g.clientId)
      && forall j | j in s.issued && s.issued[j].token.Some? :: s.issued[j].id != g.id
    case LoginWithoutRefresh(jti) => jti !in s.issued
    case Begin(req, _, _, _) => req !in s.requests
    case Answer(req, answer, jti, token) =>
      && req in s.requests && s.requests[req].Waiting?
      && jti !in s.issued && token !in s.jtiOf
    case RevokeFirst(req) => req in s.requests && s.requests[req].Revoking?
    case DropThen(req) => req in s.requests && s.requests[req].Dropping?
    case Retry(req) => req in s.requests && s.requests[req].Retrying?
    case Resolve(req, _) => req in s.requests && s.requests[req].Resolving?
    case Logout(jti) => jti in s.issued && s.now < Seconds(s.issued[jti].expiry)
    case Operator(_) => true
  }

  function Fated(issued: map<Jti, Issue>, jti: Jti, fate: Fate): (after: map<Jti, Issue>) {
    if jti in issued then issued[jti := issued[jti].(fate := fate)] else issued
  }

  function NextGen(issued: map<Jti, Issue>, jti: Jti): (gen: nat) {
    if jti in issued then issued[jti].gen + 1 else 0
  }

  function StaleGrants(s: Sys, g: Grant): (jtis: set<Jti>) {
    set j | j in s.db.grants && Stale(s.db, Stored(s.now), g, j)
  }

  function Step(cfg: Config, s: Sys, a: Action): (after: Sys)
    requires Enabled(s, a)
  {
    match a
    case Tick(d) => s.(now := s.now + d)
    case Login(g) =>
      s.(db := Upserted(s.db, Stored(s.now), g),
         issued := Ended(s, StaleGrants(s, g)).issued[g.jti := Issue(Some(g.token), g.id, g.clientId, g.jwtExpiry, None, 0, Live)],
         jtiOf := s.jtiOf[g.token := g.jti], headOf := s.headOf[g.id := g.jti])
    case LoginWithoutRefresh(jti) =>
      s.(issued := s.issued[jti := Issue(None, 0, "", s.now + JWT_TTL, None, 0, Gone)])
    case Begin(req, token, client, readable) =>
      s.(requests := s.requests[req := AfterRead(Find(s.db, token), readable, s.now, token, client)])
    case Answer(req, answer, jti, token) =>
      var g := s.requests[req].g;
      (match AfterGitHub(g, answer)
       case Some(stage) => s.(requests := s.requests[req := stage])
       case None =>
         var (db, stage) := Commit(cfg, s.db, s.now, g, answer, jti, token);
         var moved := s.(db := db, requests := s.requests[req := stage]);
         if RotateWith(cfg, s.db, s.now, g, answer, jti, token).1.Failure? then moved
         else moved.(issued := Fated(s.issued, g.jti, RotatedTo(jti, s.now))
                               [jti := Issue(Some(token), g.id, g.clientId, s.now + JWT_TTL, Some(g.jti), NextGen(s.issued, g.jti), Live)],
                     jtiOf := s.jtiOf[token := jti], headOf := s.headOf[g.id := jti],
                     revokedEver := s.revokedEver + {g.jti}))
    case RevokeFirst(req) =>
      var Revoking(g, reason) := s.requests[req];
      s.(db := Revoked(s.db, Stored(s.now), g.jti, g.jwtExpiry),
         requests := s.requests[req := Dropping(g, reason)],
         revokedEver := s.revokedEver + {g.jti})
    case DropThen(req) =>
      var Dropping(g, reason) := s.requests[req];
      var (db, found) := Deleted(s.db, Stored(s.now), g.jti, g.token, RemovedRecord(cfg, g, s.now, reason));
      s.(db := db,
         requests := s.requests[req := Done(Refused(Reauthorize))],
         issued := if found then Fated(s.issued, g.jti, Gone) else s.issued)
    case Retry(req) =>
      var Retrying(token, client) := s.requests[req];
      s.(requests := s.requests[req := AfterRetired(LookUpRetired(s.db, Stored(s.now), Sha256(token)), s.now, client)])
    case Resolve(req, readable) =>
      var Resolving(client, replacement) := s.requests[req];
      s.(requests := s.requests[req := AfterReplacement(LookUp(s.db, replacement), readable, s.now, client)])
    case Logout(jti) =>
      s.(db := Revoked(s.db, Stored(s.now), jti, Seconds(s.issued[jti].expiry)),
         revokedEver := s.revokedEver + {jti})
    case Operator(id) =>
      (match FindById(s.db, id)
       case None => s
       case Some(jti) =>
         s.(db := OperatorRevoke(s.db, Stored(s.now), id, s.now + cfg.retention).0,
            issued := Fated(s.issued, jti, Gone),
            revokedEver := s.revokedEver + {jti}))
  }

  // ---------- the invariant ----------

  predicate RowMatches(g: Grant, j: Jti, i: Issue) {
    g.jti == j && i.fate.Live? && i.token == Some(g.token) && i.id == g.id && i.clientId == g.clientId && Stored(i.expiry) == g.jwtExpiry
  }

  /** Exactly the live tokens have a row, and the row is theirs. */
  ghost predicate RowsInv(s: Sys) {
    && (forall j | j in s.db.grants :: j in s.issued && RowMatches(s.db.grants[j], j, s.issued[j]))
    && (forall j | j in s.issued && s.issued[j].fate.Live? :: j in s.db.grants)
  }

  /** A refresh token belongs to one access token, and every client_id can be signed. */
  ghost predicate TokensInv(s: Sys) {
    && (forall j | j in s.issued :: Bindable(s.issued[j].clientId))
    && (forall t | t in s.jtiOf :: s.jtiOf[t] in s.issued && s.issued[s.jtiOf[t]].token == Some(t))
    && (forall j | j in s.issued && s.issued[j].token.Some? ::
          s.issued[j].token.value in s.jtiOf && s.jtiOf[s.issued[j].token.value] == j)
  }

  ghost predicate LinkOk(s: Sys, j: Jti)
    requires j in s.issued && s.issued[j].fate.RotatedTo?
  {
    var i := s.issued[j];
    var n := i.fate.next;
    && i.token.Some? && i.clientId != "" && i.fate.at <= s.now && j in s.revokedEver
    && n in s.issued && s.issued[n].prev == Some(j) && s.issued[n].id == i.id && s.issued[n].clientId == i.clientId
    && s.issued[n].token.Some? && s.issued[n].expiry == i.fate.at + JWT_TTL && s.issued[n].gen == i.gen + 1
  }

  /** The head of the token's grant was not rotated away, and is the only one of its grant that
      was not; no token of the grant is younger. */
  ghost predicate HeadOk(s: Sys, j: Jti)
    requires j in s.issued
  {
    var id := s.issued[j].id;
    && id in s.headOf && s.headOf[id] in s.issued
    && var h := s.issued[s.headOf[id]];
       IsHead(h) && h.id == id && s.issued[j].gen <= h.gen && (IsHead(s.issued[j]) ==> s.headOf[id] == j)
  }

  /** Rotation links the tokens of a grant into a chain: successors and predecessors agree,
      each successor is one generation younger, and each grant has one head. */
  ghost predicate ChainInv(s: Sys) {
    && (forall j | j in s.issued && s.issued[j].fate.RotatedTo? :: LinkOk(s, j))
    && (forall n | n in s.issued && s.issued[n].prev.Some? ::
          s.issued[n].prev.value in s.issued && s.issued[s.issued[n].prev.value].fate.RotatedTo?
          && s.issued[s.issued[n].prev.value].fate.next == n)
    && (forall j | j in s.issued && s.issued[j].token.Some? :: HeadOk(s, j))
  }

  predicate IsHead(i: Issue) {
    i.token.Some? && !i.fate.RotatedTo?
  }

  predicate RecordOk(cfg: Config, r: Retired, j: Jti, i: Issue) {
    match i.fate
    case Live => false
    case Gone => r.reason != Rotated
    case RotatedTo(next, at) =>
      r == StoredRecord(Retired(Rotated, i.clientId, j, Some(next), if cfg.grace > 0 then Some(at + cfg.grace) else None, at + cfg.retention))
  }

  predicate RecordFits(cfg: Config, s: Sys, h: Hash)
    requires h in s.db.retired
  {
    h.token in s.jtiOf && s.jtiOf[h.token] in s.issued && RecordOk(cfg, s.db.retired[h], s.jtiOf[h.token], s.issued[s.jtiOf[h.token]])
  }

  predicate Retained(cfg: Config, s: Sys, j: Jti)
    requires j in s.issued && s.issued[j].fate.RotatedTo?
  {
    var i := s.issued[j];
    i.token.Some? && (Sha256(i.token.value) in s.db.retired || Stored(i.fate.at + cfg.retention) < Stored(s.now))
  }

  /** A retired record tells what happened to its token, and a rotated token keeps its record
      for the whole retention. */
  ghost predicate RetiredInv(cfg: Config, s: Sys) {
    && (forall h | h in s.db.retired :: RecordFits(cfg, s, h))
    && (forall j | j in s.issued && s.issued[j].fate.RotatedTo? :: Retained(cfg, s, j))
  }

  /** A revocation outlives the token it revokes; and only what was revoked has one. */
  ghost predicate RevokedInv(s: Sys) {
    && (forall j | j in s.db.revoked :: j in s.issued && j in s.revokedEver && Seconds(s.issued[j].expiry) <= s.db.revoked[j])
    && (forall j | j in s.revokedEver :: j in s.issued && (j in s.db.revoked || Seconds(s.issued[j].expiry) <= s.now))
  }

  /** The row a request once read either still stands unchanged or is gone. */
  ghost predicate Known(s: Sys, g: Grant) {
    && g.jti in s.issued && s.issued[g.jti].token == Some(g.token) && s.issued[g.jti].id == g.id
    && s.issued[g.jti].clientId == g.clientId && Stored(s.issued[g.jti].expiry) == g.jwtExpiry
    && (g.jti in s.db.grants ==> s.db.grants[g.jti] == g)
  }

  predicate SuccessorOf(s: Sys, j: Jti, n: Jti) {
    j in s.issued && s.issued[j].fate.RotatedTo? && s.issued[j].fate.next == n
  }

  ghost predicate StageOk(s: Sys, stage: Stage) {
    match stage
    case Waiting(g, client) => Known(s, g) && g.clientId == client && client != ""
    case Revoking(g, reason) => Known(s, g) && reason != Rotated
    case Dropping(g, reason) => Known(s, g) && reason != Rotated
    case Resolving(client, replacement) => exists j :: SuccessorOf(s, j, replacement) && s.issued[j].clientId == client
    case _ => true
  }

  ghost predicate RequestsInv(s: Sys) {
    forall r | r in s.requests :: StageOk(s, s.requests[r])
  }

  ghost predicate Inv(cfg: Config, s: Sys) {
    RowsInv(s) && TokensInv(s) && ChainInv(s) && RetiredInv(cfg, s) && RevokedInv(s) && RequestsInv(s)
  }

  // ---------- the few ways a step changes the state, each keeping the invariant ----------

  lemma ChainUntouched(s: Sys, t: Sys)
    requires ChainInv(s) && t.issued == s.issued && t.headOf == s.headOf && s.revokedEver <= t.revokedEver && s.now <= t.now
    ensures ChainInv(t)
  {
    forall j | j in t.issued && t.issued[j].fate.RotatedTo? ensures LinkOk(t, j) {
      assert LinkOk(s, j);
    }
    forall j | j in t.issued && t.issued[j].token.Some? ensures HeadOk(t, j) {
      assert HeadOk(s, j);
    }
  }

  lemma TablesUntouched(cfg: Config, s: Sys, t: Sys)
    requires RowsInv(s) && TokensInv(s) && RetiredInv(cfg, s) && RevokedInv(s)
    requires t.db == s.db && t.issued == s.issued && t.jtiOf == s.jtiOf && t.revokedEver == s.revokedEver
    requires s.now <= t.now && Stored(s.now) <= Stored(t.now)
    ensures RowsInv(t) && TokensInv(t) && RetiredInv(cfg, t) && RevokedInv(t)
  {
    hide Stored, StoredRecord, Seconds;
  }

  /** What a request knows survives as long as rows only go and what was issued stays. */
  lemma RequestsUntouched(s: Sys, t: Sys)
    requires RequestsInv(s) && t.requests == s.requests && Later(s, t)
    requires forall j | j in t.db.grants && j in s.issued :: j in s.db.grants && t.db.grants[j] == s.db.grants[j]
    ensures RequestsInv(t)
  {
    forall r | r in t.requests ensures StageOk(t, t.requests[r]) {
      assert StageOk(s, t.requests[r]);
      StageStays(s, t, t.requests[r]);
    }
  }

  lemma StageStays(s: Sys, t: Sys, stage: Stage)
    requires StageOk(s, stage) && Later(s, t)
    requires forall j | j in t.db.grants && j in s.issued :: j in s.db.grants && t.db.grants[j] == s.db.grants[j]
    ensures StageOk(t, stage)
  {
    match stage
    case Resolving(client, replacement) =>
      var j :| SuccessorOf(s, j, replacement) && s.issued[j].clientId == client;
      assert SuccessorOf(t, j, replacement) && t.issued[j].clientId == client;
    case _ =>
  }

  lemma RequestKeepsInv(cfg: Config, s: Sys, req: nat, stage: Stage)
    requires Inv(cfg, s) && StageOk(s, stage)
    ensures Inv(cfg, s.(requests := s.requests[req := stage]))
  {
    hide RowsInv, TokensInv, ChainInv, RetiredInv, RevokedInv, RequestsInv;
    var t := s.(requests := s.requests[req := stage]);
    TablesUntouched(cfg, s, t);
    ChainUntouched(s, t);
    RequestJoins(s, req, stage);
  }

  lemma RequestJoins(s: Sys, req: nat, stage: Stage)
    requires RequestsInv(s) && StageOk(s, stage)
    ensures RequestsInv(s.(requests := s.requests[req := stage]))
  {
    var t := s.(requests := s.requests[req := stage]);
    forall r | r in t.requests ensures StageOk(t, t.requests[r]) {
      assert StageOk(s, t.requests[r]);
      StageStays(s, t, t.requests[r]);
    }
  }

  lemma TickKeepsInv(cfg: Config, s: Sys, d: nat)
    requires Inv(cfg, s)
    ensures Inv(cfg, s.(now := s.now + d))
  {
    hide RowsInv, TokensInv, ChainInv, RetiredInv, RevokedInv, RequestsInv;
    var t := s.(now := s.now + d);
    StoredAscends(s.now, t.now);
    TablesUntouched(cfg, s, t);
    ChainUntouched(s, t);
    RequestsUntouched(s, t);
  }

  /** A jti joins the revoked ones; rows may be pruned, but none before its token expired. */
  function Condemn(s: Sys, jti: Jti, revoked: map<Jti, Time>): (after: Sys) {
    s.(db := s.db.(revoked := revoked), revokedEver := s.revokedEver + {jti})
  }

  lemma CondemnKeepsInv(cfg: Config, s: Sys, jti: Jti, revoked: map<Jti, Time>)
    requires Inv(cfg, s) && jti in s.issued
    requires jti in revoked || Seconds(s.issued[jti].expiry) <= s.now
    requires forall j | j in revoked :: if j in s.db.revoked then revoked[j] == s.db.revoked[j]
                                        else j == jti && Seconds(s.issued[jti].expiry) <= revoked[j]
    requires forall j | j in s.db.revoked && j !in revoked :: s.db.revoked[j] < Stored(s.now)
    ensures Inv(cfg, Condemn(s, jti, revoked))
  {
    hide RowsInv, TokensInv, ChainInv, RetiredInv, RequestsInv, RevokedInv;
    var t := Condemn(s, jti, revoked);
    CondemnKeepsRevoked(s, jti, revoked);
    CondemnKeepsRest(cfg, s, jti, revoked);
    ChainUntouched(s, t);
    RequestsUntouched(s, t);
  }

  lemma CondemnKeepsRest(cfg: Config, s: Sys, jti: Jti, revoked: map<Jti, Time>)
    requires RowsInv(s) && TokensInv(s) && RetiredInv(cfg, s)
    ensures var t := Condemn(s, jti, revoked); RowsInv(t) && TokensInv(t) && RetiredInv(cfg, t)
  {
    hide RowMatches, RecordOk, Bindable;
  }

  lemma CondemnKeepsRevoked(s: Sys, jti: Jti, revoked: map<Jti, Time>)
    requires RevokedInv(s) && jti in s.issued
    requires jti in revoked || Seconds(s.issued[jti].expiry) <= s.now
    requires forall j | j in revoked :: if j in s.db.revoked then revoked[j] == s.db.revoked[j]
                                        else j == jti && Seconds(s.issued[jti].expiry) <= revoked[j]
    requires forall j | j in s.db.revoked && j !in revoked :: s.db.revoked[j] < Stored(s.now)
    ensures RevokedInv(Condemn(s, jti, revoked))
  {
  }

  /** Grants disappear, without or with a record for (at most) one of them. */
  function Ended(s: Sys, gone: set<Jti>): (after: Sys) {
    s.(db := s.db.(grants := s.db.grants - gone),
       issued := map j | j in s.issued :: if j in gone then s.issued[j].(fate := Gone) else s.issued[j])
  }

  lemma EndedKeepsInv(cfg: Config, s: Sys, gone: set<Jti>)
    requires Inv(cfg, s) && gone <= s.db.grants.Keys
    ensures Inv(cfg, Ended(s, gone))
  {
    hide RowsInv, TokensInv, ChainInv, RetiredInv, RevokedInv, RequestsInv;
    EndedKeepsRows(s, gone);
    EndedKeepsChain(s, gone);
    EndedKeepsRetired(cfg, s, gone);
    EndedIsLater(s, gone);
    RequestsUntouched(s, Ended(s, gone));
  }

  lemma EndedKeepsRows(s: Sys, gone: set<Jti>)
    requires RowsInv(s) && TokensInv(s) && RevokedInv(s) && gone <= s.db.grants.Keys
    ensures RowsInv(Ended(s, gone)) && TokensInv(Ended(s, gone)) && RevokedInv(Ended(s, gone))
  {
    hide Stored, Seconds, Bindable;
  }

  lemma EndedIsLater(s: Sys, gone: set<Jti>)
    requires RowsInv(s) && gone <= s.db.grants.Keys
    ensures Later(s, Ended(s, gone))
  {
    assert forall j | j in gone :: j in s.issued && s.issued[j].fate.Live?;
  }

  lemma EndedKeepsChain(s: Sys, gone: set<Jti>)
    requires RowsInv(s) && ChainInv(s) && gone <= s.db.grants.Keys
    ensures ChainInv(Ended(s, gone))
  {
    hide Stored;
    var t := Ended(s, gone);
    EndedIsLater(s, gone);
    forall j | j in t.issued && t.issued[j].fate.RotatedTo? ensures LinkOk(t, j) {
      assert t.issued[j] == s.issued[j] && LinkOk(s, j);
    }
    hide RowsInv, LinkOk, RowMatches;
    forall n | n in t.issued && t.issued[n].prev.Some?
      ensures t.issued[n].prev.value in t.issued && t.issued[t.issued[n].prev.value].fate == RotatedTo(n, s.issued[s.issued[n].prev.value].fate.at)
    {
      assert s.issued[n].prev == t.issued[n].prev;
    }
    forall j | j in t.issued && t.issued[j].token.Some? ensures HeadOk(t, j) {
      assert HeadOk(s, j);
    }
  }

  lemma EndedKeepsRetired(cfg: Config, s: Sys, gone: set<Jti>)
    requires RowsInv(s) && RetiredInv(cfg, s) && gone <= s.db.grants.Keys
    ensures RetiredInv(cfg, Ended(s, gone))
  {
    var t := Ended(s, gone);
    assert forall j | j in gone :: j in s.issued && s.issued[j].fate.Live?;
  }

  function Recorded(s: Sys, g: Grant, r: Retired): (after: Sys) {
    s.(db := Retire(s.db, Stored(s.now), Sha256(g.token), r))
  }

  lemma RecordedKeepsInv(cfg: Config, s: Sys, g: Grant, r: Retired)
    requires Inv(cfg, s) && g.token in s.jtiOf && s.jtiOf[g.token] in s.issued
    requires s.issued[s.jtiOf[g.token]].fate.Gone? && r.reason != Rotated
    ensures Inv(cfg, Recorded(s, g, r))
  {
    hide RowsInv, TokensInv, ChainInv, RetiredInv, RevokedInv, RequestsInv;
    var t := Recorded(s, g, r);
    RecordedKeepsRows(s, g, r);
    ChainUntouched(s, t);
    RequestsUntouched(s, t);
    RecordedKeepsRetired(cfg, s, g, r);
  }

  lemma RecordedKeepsRows(s: Sys, g: Grant, r: Retired)
    requires RowsInv(s) && TokensInv(s) && RevokedInv(s)
    ensures RowsInv(Recorded(s, g, r)) && TokensInv(Recorded(s, g, r)) && RevokedInv(Recorded(s, g, r))
  {
    hide RowMatches, Bindable, Seconds, Stored;
  }

  lemma RecordedKeepsRetired(cfg: Config, s: Sys, g: Grant, r: Retired)
    requires TokensInv(s) && RetiredInv(cfg, s) && g.token in s.jtiOf && s.jtiOf[g.token] in s.issued
    requires s.issued[s.jtiOf[g.token]].fate.Gone? && r.reason != Rotated
    ensures RetiredInv(cfg, Recorded(s, g, r))
  {
    hide Stored, Bindable;
    var t := Recorded(s, g, r);
    forall h | h in t.db.retired ensures RecordFits(cfg, t, h) {
      if h != Sha256(g.token) {
        assert RecordFits(cfg, s, h);
      }
    }
    forall j | j in t.issued && t.issued[j].fate.RotatedTo? ensures Retained(cfg, t, j) {
      StaysRetained(cfg, s, g.token, r, t, j);
    }
  }

  /** Recording one token prunes no record of another that is still due. */
  lemma StaysRetained(cfg: Config, s: Sys, token: Token, r: Retired, t: Sys, j: Jti)
    requires TokensInv(s) && RetiredInv(cfg, s) && j in s.issued && s.issued[j].fate.RotatedTo? && s.issued[j].token != Some(token)
    requires j in t.issued && t.issued[j] == s.issued[j] && t.now == s.now
    requires forall h | h in s.db.retired && h != Sha256(token) && s.db.retired[h].retainedUntil >= Stored(s.now) :: h in t.db.retired
    ensures Retained(cfg, t, j)
  {
    RotatedIsRetained(cfg, s, j);
    hide Stored, TokensInv, RetiredInv;
  }

  /** A fresh grant of its own. */
  function Entered(s: Sys, g: Grant): (after: Sys) {
    s.(db := s.db.(grants := s.db.grants[g.jti := StoredGrant(g)]),
       issued := s.issued[g.jti := Issue(Some(g.token), g.id, g.clientId, g.jwtExpiry, None, 0, Live)],
       jtiOf := s.jtiOf[g.token := g.jti], headOf := s.headOf[g.id := g.jti])
  }

  lemma EnteredKeepsInv(cfg: Config, s: Sys, g: Grant)
    requires Inv(cfg, s) && g.jti !in s.issued && g.token !in s.jtiOf && Bindable(g.clientId)
    requires forall j | j in s.issued && s.issued[j].token.Some? :: s.issued[j].id != g.id
    ensures Inv(cfg, Entered(s, g))
  {
    hide ChainInv, RequestsInv, RetiredInv;
    RequestsUntouched(s, Entered(s, g));
    EnteredKeepsRows(s, g);
    EnteredKeepsChain(s, g);
    EnteredKeepsRetired(cfg, s, g);
  }

  lemma EnteredKeepsRows(s: Sys, g: Grant)
    requires RowsInv(s) && TokensInv(s) && RevokedInv(s) && g.jti !in s.issued && g.token !in s.jtiOf && Bindable(g.clientId)
    ensures RowsInv(Entered(s, g)) && TokensInv(Entered(s, g)) && RevokedInv(Entered(s, g))
  {
    hide TokensInv, RevokedInv, RowsInv;
    EnteredKeepsGrants(s, g);
    EnteredKeepsTokens(s, g);
    EnteredKeepsRevoked(s, g);
  }

  lemma EnteredKeepsGrants(s: Sys, g: Grant)
    requires RowsInv(s) && g.jti !in s.issued
    ensures RowsInv(Entered(s, g))
  {
    hide Stored;
  }

  lemma EnteredKeepsTokens(s: Sys, g: Grant)
    requires TokensInv(s) && g.jti !in s.issued && g.token !in s.jtiOf && Bindable(g.clientId)
    ensures TokensInv(Entered(s, g))
  {
    hide Bindable;
  }

  lemma EnteredKeepsRevoked(s: Sys, g: Grant)
    requires RevokedInv(s) && g.jti !in s.issued
    ensures RevokedInv(Entered(s, g))
  {
    hide Seconds;
  }

  lemma EnteredKeepsChain(s: Sys, g: Grant)
    requires ChainInv(s) && g.jti !in s.issued
    requires forall j | j in s.issued && s.issued[j].token.Some? :: s.issued[j].id != g.id
    ensures ChainInv(Entered(s, g))
  {
    var t := Entered(s, g);
    forall j | j in t.issued && t.issued[j].fate.RotatedTo? ensures LinkOk(t, j) {
      assert LinkOk(s, j);
    }
    forall j | j in t.issued && t.issued[j].token.Some? ensures HeadOk(t, j) {
      if j != g.jti {
        assert HeadOk(s, j);
      }
    }
  }

  lemma EnteredKeepsRetired(cfg: Config, s: Sys, g: Grant)
    requires TokensInv(s) && RetiredInv(cfg, s) && g.jti !in s.issued && g.token !in s.jtiOf
    ensures RetiredInv(cfg, Entered(s, g))
  {
  }

  /** The live grant `g` is replaced by its successor `n`, its own token retired. */
  function Moved(cfg: Config, s: Sys, g: Grant, n: Grant): (after: Sys) {
    s.(db := Retire(s.db.(grants := (s.db.grants - {g.jti})[n.jti := StoredGrant(n)]), Stored(s.now), Sha256(g.token), RotatedRecord(cfg, g, s.now, n.jti)),
       issued := Fated(s.issued, g.jti, RotatedTo(n.jti, s.now))[n.jti := Issue(Some(n.token), g.id, g.clientId, n.jwtExpiry, Some(g.jti), NextGen(s.issued, g.jti), Live)],
       jtiOf := s.jtiOf[n.token := n.jti], headOf := s.headOf[g.id := n.jti])
  }

  ghost predicate MayMove(s: Sys, g: Grant, n: Grant) {
    && g.jti in s.db.grants && s.db.grants[g.jti] == g && g.clientId != "" && g.jti in s.revokedEver
    && n.jti !in s.issued && n.token !in s.jtiOf
    && n.id == g.id && n.clientId == g.clientId && n.jwtExpiry == s.now + JWT_TTL
  }

  lemma MovedKeepsInv(cfg: Config, s: Sys, g: Grant, n: Grant)
    requires ValidConfig(cfg) && Inv(cfg, s) && MayMove(s, g, n)
    ensures Inv(cfg, Moved(cfg, s, g, n))
  {
    MovedKeepsRows(cfg, s, g, n);
    MovedKeepsTokens(cfg, s, g, n);
    MovedKeepsChain(cfg, s, g, n);
    MovedKeepsRetired(cfg, s, g, n);
    MovedKeepsRevoked(cfg, s, g, n);
    MovedKeepsRequests(cfg, s, g, n);
  }

  lemma MovedKeepsRows(cfg: Config, s: Sys, g: Grant, n: Grant)
    requires RowsInv(s) && MayMove(s, g, n)
    ensures RowsInv(Moved(cfg, s, g, n))
  {
    hide Stored;
  }

  lemma MovedKeepsTokens(cfg: Config, s: Sys, g: Grant, n: Grant)
    requires RowsInv(s) && TokensInv(s) && MayMove(s, g, n)
    ensures TokensInv(Moved(cfg, s, g, n))
  {
    hide Bindable, Stored, Retire, RotatedRecord, RowsInv;
    RowOfGrant(s, g);
  }

  lemma MovedKeepsRevoked(cfg: Config, s: Sys, g: Grant, n: Grant)
    requires RevokedInv(s) && MayMove(s, g, n)
    ensures RevokedInv(Moved(cfg, s, g, n))
  {
    var t := Moved(cfg, s, g, n);
    assert forall j | j in s.issued :: j in t.issued && t.issued[j].expiry == s.issued[j].expiry;
  }

  lemma MovedKeepsRequests(cfg: Config, s: Sys, g: Grant, n: Grant)
    requires RowsInv(s) && RequestsInv(s) && MayMove(s, g, n)
    ensures RequestsInv(Moved(cfg, s, g, n))
  {
    hide RequestsInv, RowsInv, Later, RotatedRecord, Stored, NextGen;
    RowOfGrant(s, g);
    MovedIsLater(cfg, s, g, n);
    RequestsUntouched(s, Moved(cfg, s, g, n));
  }

  lemma MovedIsLater(cfg: Config, s: Sys, g: Grant, n: Grant)
    requires n.jti !in s.issued && (g.jti in s.issued ==> s.issued[g.jti].fate.Live?)
    ensures Later(s, Moved(cfg, s, g, n))
  {
    hide Retire, RotatedRecord, NextGen;
  }

  lemma MovedKeepsChain(cfg: Config, s: Sys, g: Grant, n: Grant)
    requires RowsInv(s) && ChainInv(s) && MayMove(s, g, n)
    ensures ChainInv(Moved(cfg, s, g, n))
  {
    hide Stored, Retire, RotatedRecord, RowsInv, LinkOk, HeadOk;
    RowOfGrant(s, g);
    var t := Moved(cfg, s, g, n);
    forall j | j in t.issued && t.issued[j].fate.RotatedTo? ensures LinkOk(t, j) {
      MovedKeepsLink(cfg, s, g, n, j);
    }
    forall j | j in t.issued && t.issued[j].token.Some? ensures HeadOk(t, j) {
      MovedKeepsHead(cfg, s, g, n, j);
    }
  }

  lemma MovedKeepsLink(cfg: Config, s: Sys, g: Grant, n: Grant, j: Jti)
    requires ChainInv(s) && MayMove(s, g, n) && g.jti in s.issued && RowMatches(g, g.jti, s.issued[g.jti])
    requires j in Moved(cfg, s, g, n).issued && Moved(cfg, s, g, n).issued[j].fate.RotatedTo?
    ensures LinkOk(Moved(cfg, s, g, n), j)
  {
    hide Stored, Retire, RotatedRecord, HeadOk;
    if j != g.jti {
      assert LinkOk(s, j);
    }
  }

  lemma MovedKeepsHead(cfg: Config, s: Sys, g: Grant, n: Grant, j: Jti)
    requires ChainInv(s) && MayMove(s, g, n) && g.jti in s.issued && RowMatches(g, g.jti, s.issued[g.jti])
    requires j in Moved(cfg, s, g, n).issued && Moved(cfg, s, g, n).issued[j].token.Some?
    ensures HeadOk(Moved(cfg, s, g, n), j)
  {
    assert HeadOk(s, g.jti);
    if j != n.jti {
      assert HeadOk(s, j);
    }
    hide Stored, Retire, RotatedRecord, ChainInv;
  }

  lemma MovedKeepsRetired(cfg: Config, s: Sys, g: Grant, n: Grant)
    requires ValidConfig(cfg) && RowsInv(s) && TokensInv(s) && RetiredInv(cfg, s) && MayMove(s, g, n)
    ensures RetiredInv(cfg, Moved(cfg, s, g, n))
  {
    RowOfGrant(s, g);
    var t := Moved(cfg, s, g, n);
    forall h | h in t.db.retired ensures RecordFits(cfg, t, h) {
      MovedKeepsRecord(cfg, s, g, n, h);
    }
    forall j | j in t.issued && t.issued[j].fate.RotatedTo? ensures Retained(cfg, t, j) {
      if j == g.jti {
        MovedIsRetained(cfg, s, g, n);
      } else {
        OthersStayRetained(cfg, s, g, n, j);
      }
    }
  }

  lemma MovedKeepsRecord(cfg: Config, s: Sys, g: Grant, n: Grant, h: Hash)
    requires TokensInv(s) && RetiredInv(cfg, s) && MayMove(s, g, n) && g.jti in s.issued && RowMatches(g, g.jti, s.issued[g.jti])
    requires h in Moved(cfg, s, g, n).db.retired
    ensures RecordFits(cfg, Moved(cfg, s, g, n), h)
  {
    hide Stored, Bindable;
    if h != Sha256(g.token) {
      assert RecordFits(cfg, s, h);
    }
  }

  /** The token just rotated has its record: retention is positive. */
  lemma MovedIsRetained(cfg: Config, s: Sys, g: Grant, n: Grant)
    requires ValidConfig(cfg) && MayMove(s, g, n) && g.jti in s.issued && RowMatches(g, g.jti, s.issued[g.jti])
    ensures Retained(cfg, Moved(cfg, s, g, n), g.jti)
  {
    StoredAscends(s.now, s.now + cfg.retention);
    hide Stored;
  }

  lemma OthersStayRetained(cfg: Config, s: Sys, g: Grant, n: Grant, j: Jti)
    requires TokensInv(s) && RetiredInv(cfg, s) && MayMove(s, g, n) && g.jti in s.issued && RowMatches(g, g.jti, s.issued[g.jti])
    requires j in Moved(cfg, s, g, n).issued && Moved(cfg, s, g, n).issued[j].fate.RotatedTo? && j != g.jti
    ensures Retained(cfg, Moved(cfg, s, g, n), j)
  {
    hide Stored, RotatedRecord, RetiredInv, Bindable;
    StaysRetained(cfg, s, g.token, RotatedRecord(cfg, g, s.now, n.jti), Moved(cfg, s, g, n), j);
  }

  /** A rotated token's record, while it is there, is kept for the whole retention. */
  lemma RotatedIsRetained(cfg: Config, s: Sys, j: Jti)
    requires TokensInv(s) && RetiredInv(cfg, s) && j in s.issued && s.issued[j].fate.RotatedTo?
    ensures s.issued[j].token.Some?
    ensures var h := Sha256(s.issued[j].token.value);
            if h in s.db.retired then s.db.retired[h].retainedUntil == Stored(s.issued[j].fate.at + cfg.retention)
            else Stored(s.issued[j].fate.at + cfg.retention) < Stored(s.now)
  {
    assert Retained(cfg, s, j);
    var h := Sha256(s.issued[j].token.value);
    if h in s.db.retired {
      assert RecordFits(cfg, s, h) && s.jtiOf[h.token] == j;
    }
  }

  lemma IssuedOnlyKeepsInv(cfg: Config, s: Sys, jti: Jti)
    requires Inv(cfg, s) && jti !in s.issued
    ensures Inv(cfg, s.(issued := s.issued[jti := Issue(None, 0, "", s.now + JWT_TTL, None, 0, Gone)]))
  {
    assert jti !in s.db.grants;
    hide RowsInv, TokensInv, ChainInv, RetiredInv, RevokedInv, RequestsInv;
    IssuedOnlyKeepsRows(cfg, s, jti);
    IssuedOnlyKeepsRequests(s, jti);
    IssuedOnlyKeepsChain(s, jti);
  }

  lemma IssuedOnlyKeepsRows(cfg: Config, s: Sys, jti: Jti)
    requires RowsInv(s) && TokensInv(s) && RetiredInv(cfg, s) && RevokedInv(s) && jti !in s.issued
    ensures var t := s.(issued := s.issued[jti := Issue(None, 0, "", s.now + JWT_TTL, None, 0, Gone)]);
            RowsInv(t) && TokensInv(t) && RetiredInv(cfg, t) && RevokedInv(t)
  {
    hide RecordOk, Seconds, Stored, Signable;
  }

  lemma IssuedOnlyKeepsRequests(s: Sys, jti: Jti)
    requires RequestsInv(s) && jti !in s.issued && jti !in s.db.grants
    ensures RequestsInv(s.(issued := s.issued[jti := Issue(None, 0, "", s.now + JWT_TTL, None, 0, Gone)]))
  {
    hide RequestsInv;
    RequestsUntouched(s, s.(issued := s.issued[jti := Issue(None, 0, "", s.now + JWT_TTL, None, 0, Gone)]));
  }

  lemma IssuedOnlyKeepsChain(s: Sys, jti: Jti)
    requires ChainInv(s) && jti !in s.issued
    ensures ChainInv(s.(issued := s.issued[jti := Issue(None, 0, "", s.now + JWT_TTL, None, 0, Gone)]))
  {
    var t := s.(issued := s.issued[jti := Issue(None, 0, "", s.now + JWT_TTL, None, 0, Gone)]);
    forall j | j in t.issued && t.issued[j].fate.RotatedTo? ensures LinkOk(t, j) {
      assert LinkOk(s, j);
    }
    forall j | j in t.issued && t.issued[j].token.Some? ensures HeadOk(t, j) {
      assert HeadOk(s, j);
    }
  }

  // ---------- every step, every run ----------

  /** Under the invariant, a token's row is found by the jti it was issued with, or not at all. */
  lemma TokenFindsItsRow(s: Sys, g: Grant)
    requires RowsInv(s) && TokensInv(s) && Known(s, g)
    ensures FindByToken(s.db, g.token) == if g.jti in s.db.grants then Some(g.jti) else None
  {
    var found := FindByToken(s.db, g.token);
    if found.Some? {
      assert RowMatches(s.db.grants[found.value], found.value, s.issued[found.value]);
      assert s.jtiOf[g.token] == found.value == g.jti;
    }
  }

  lemma CommitIsMove(cfg: Config, s: Sys, g: Grant, answer: GitHub, jti: Jti, token: Token)
    requires RowsInv(s) && TokensInv(s) && Known(s, g) && answer.NewPair? && jti !in s.issued && token !in s.jtiOf
    ensures g.jti !in s.db.grants ==> Commit(cfg, s.db, s.now, g, answer, jti, token) == (s.db, Done(Refused(AlreadyUsed)))
    ensures g.jti in s.db.grants ==>
              && RotateWith(cfg, s.db, s.now, g, answer, jti, token).1.Success?
              && (Signable(g.clientId) ==> Commit(cfg, s.db, s.now, g, answer, jti, token).1 == Done(Issued(jti, token, s.now + JWT_TTL)))
              && Commit(cfg, s.db, s.now, g, answer, jti, token).0
                 == Moved(cfg, Condemn(s, g.jti, RevokeOnce(s.db.revoked, g.jti, g.jwtExpiry)), g, Successor(g, s.now, jti, token, answer)).db
  {
    hide Stored, StoredRecord, RotatedRecord, Signable, RowsInv, TokensInv;
    TokenFindsItsRow(s, g);
    RowsAreIssued(s);
  }

  lemma RowsAreIssued(s: Sys)
    requires RowsInv(s) && TokensInv(s)
    ensures forall j | j in s.db.grants :: j in s.issued && s.db.grants[j].token in s.jtiOf
  {
    assert forall j | j in s.db.grants :: RowMatches(s.db.grants[j], j, s.issued[j]);
  }

  /** A rotation that commits: the old jti is revoked, the grant moved on, the request answered. */
  function Rotation(cfg: Config, s: Sys, req: nat, g: Grant, n: Grant): (after: Sys) {
    var m := Moved(cfg, Condemn(s, g.jti, RevokeOnce(s.db.revoked, g.jti, g.jwtExpiry)), g, n);
    m.(requests := m.requests[req := Done(Issued(n.jti, n.token, n.jwtExpiry))])
  }

  lemma RotationKeepsInv(cfg: Config, s: Sys, req: nat, g: Grant, n: Grant)
    requires ValidConfig(cfg) && Inv(cfg, s) && g.jti in s.db.grants && s.db.grants[g.jti] == g && g.clientId != ""
    requires n.jti !in s.issued && n.token !in s.jtiOf
    requires n.id == g.id && n.clientId == g.clientId && n.jwtExpiry == s.now + JWT_TTL
    ensures Inv(cfg, Rotation(cfg, s, req, g, n))
  {
    hide Inv;
    var revoked := RevokeOnce(s.db.revoked, g.jti, g.jwtExpiry);
    GrantIsKnown(cfg, s, g);
    RevokedLongEnough(cfg, s, g.jti);
    CondemnKeepsInv(cfg, s, g.jti, revoked);
    var c := Condemn(s, g.jti, revoked);
    MovedKeepsInv(cfg, c, g, n);
    RequestKeepsInv(cfg, Moved(cfg, c, g, n), req, Done(Issued(n.jti, n.token, n.jwtExpiry)));
  }

  /** A revocation already there was made out for the token's expiry or later. */
  lemma RevokedLongEnough(cfg: Config, s: Sys, jti: Jti)
    requires Inv(cfg, s) && jti in s.issued
    ensures var revoked := RevokeOnce(s.db.revoked, jti, Stored(s.issued[jti].expiry));
            forall j | j in revoked :: if j in s.db.revoked then revoked[j] == s.db.revoked[j]
                                       else j == jti && Seconds(s.issued[jti].expiry) <= revoked[j]
  {
    StoredExpiryKeepsSecond(s.issued[jti].expiry);
  }

  lemma GrantIsKnown(cfg: Config, s: Sys, g: Grant)
    requires Inv(cfg, s) && g.jti in s.db.grants && s.db.grants[g.jti] == g
    ensures g.jti in s.issued && RowMatches(g, g.jti, s.issued[g.jti]) && g.token in s.jtiOf && s.jtiOf[g.token] == g.jti
  {
    RowOfGrant(s, g);
  }

  lemma RowOfGrant(s: Sys, g: Grant)
    requires RowsInv(s) && g.jti in s.db.grants && s.db.grants[g.jti] == g
    ensures g.jti in s.issued && RowMatches(g, g.jti, s.issued[g.jti])
  {
  }

  /** What GitHub's answer leads to: rotation exactly if the grant still stands. */
  lemma AnswerStep(cfg: Config, s: Sys, req: nat, answer: GitHub, jti: Jti, token: Token)
    requires RowsInv(s) && TokensInv(s) && RequestsInv(s) && Enabled(s, Answer(req, answer, jti, token))
    ensures var g, after := s.requests[req].g, Step(cfg, s, Answer(req, answer, jti, token));
            match AfterGitHub(g, answer)
            case Some(stage) => after == s.(requests := s.requests[req := stage])
            case None =>
              answer.NewPair? &&
              after == if g.jti in s.db.grants then Rotation(cfg, s, req, g, Successor(g, s.now, jti, token, answer))
                       else s.(requests := s.requests[req := Done(Refused(AlreadyUsed))])
  {
    hide Stored, RowsInv, TokensInv, RequestsInv, Signable;
    var g := s.requests[req].g;
    WaitingIsSignable(s, req);
    if AfterGitHub(g, answer).None? {
      CommitIsMove(cfg, s, g, answer, jti, token);
    }
  }

  lemma WaitingIsSignable(s: Sys, req: nat)
    requires RequestsInv(s) && req in s.requests && s.requests[req].Waiting?
    requires TokensInv(s)
    ensures var g := s.requests[req].g; Known(s, g) && Signable(g.clientId)
  {
    hide Stored, Signable;
    assert StageOk(s, s.requests[req]);
    var g := s.requests[req].g;
    assert Bindable(s.issued[g.jti].clientId);
  }

  lemma AnswerKeepsInv(cfg: Config, s: Sys, req: nat, answer: GitHub, jti: Jti, token: Token)
    requires ValidConfig(cfg) && Inv(cfg, s) && Enabled(s, Answer(req, answer, jti, token))
    ensures Inv(cfg, Step(cfg, s, Answer(req, answer, jti, token)))
  {
    hide Step, RowsInv, TokensInv, ChainInv, RetiredInv, RevokedInv;
    var g := s.requests[req].g;
    assert StageOk(s, s.requests[req]);
    AnswerStep(cfg, s, req, answer, jti, token);
    var next := AfterGitHub(g, answer);
    if next.Some? {
      RequestKeepsInv(cfg, s, req, next.value);
    } else if g.jti in s.db.grants {
      RotationKeepsInv(cfg, s, req, g, Successor(g, s.now, jti, token, answer));
    } else {
      RequestKeepsInv(cfg, s, req, Done(Refused(AlreadyUsed)));
    }
  }

  lemma LoginStep(cfg: Config, s: Sys, g: Grant)
    requires RowsInv(s) && Enabled(s, Login(g))
    ensures Step(cfg, s, Login(g)) == Entered(Ended(s, StaleGrants(s, g)), g)
  {
    assert g.jti !in s.db.grants;
    LoginGrants(s, g);
    hide StaleGrants, RowsInv;
  }

  lemma LoginGrants(s: Sys, g: Grant)
    requires g.jti !in s.db.grants
    ensures Upserted(s.db, Stored(s.now), g).grants == (s.db.grants - StaleGrants(s, g))[g.jti := StoredGrant(g)]
  {
  }

  lemma LoginKeepsInv(cfg: Config, s: Sys, g: Grant)
    requires Inv(cfg, s) && Enabled(s, Login(g))
    ensures Inv(cfg, Step(cfg, s, Login(g)))
  {
    var gone := StaleGrants(s, g);
    LoginStep(cfg, s, g);
    EndedKeepsInv(cfg, s, gone);
    EnteredKeepsInv(cfg, Ended(s, gone), g);
  }

  /** A grant ends and its token's record says why. */
  function EndedWith(s: Sys, g: Grant, r: Retired): (after: Sys) {
    s.(db := Retire(s.db.(grants := s.db.grants - {g.jti}), Stored(s.now), Sha256(g.token), r), issued := Fated(s.issued, g.jti, Gone))
  }

  lemma EndedWithKeepsInv(cfg: Config, s: Sys, g: Grant, r: Retired)
    requires Inv(cfg, s) && g.jti in s.db.grants && s.db.grants[g.jti] == g && r.reason != Rotated
    ensures Inv(cfg, EndedWith(s, g, r))
  {
    hide Inv;
    GrantIsKnown(cfg, s, g);
    var e := Ended(s, {g.jti});
    EndedKeepsInv(cfg, s, {g.jti});
    RecordedKeepsInv(cfg, e, g, r);
    assert e.issued == Fated(s.issued, g.jti, Gone);
  }

  lemma StageAt(cfg: Config, s: Sys, req: nat)
    requires Inv(cfg, s) && req in s.requests
    ensures StageOk(s, s.requests[req])
  {
  }

  lemma DropKeepsInv(cfg: Config, s: Sys, req: nat)
    requires Inv(cfg, s) && Enabled(s, DropThen(req))
    ensures Inv(cfg, Step(cfg, s, DropThen(req)))
  {
    hide Inv;
    var Dropping(g, reason) := s.requests[req];
    StageAt(cfg, s, req);
    var t := s;
    if g.jti in s.db.grants {
      t := EndedWith(s, g, RemovedRecord(cfg, g, s.now, reason));
      EndedWithKeepsInv(cfg, s, g, RemovedRecord(cfg, g, s.now, reason));
    }
    RequestKeepsInv(cfg, t, req, Done(Refused(Reauthorize)));
  }

  /** An operator's revocation: the jti is revoked unless its token has expired, the grant ends. */
  function OperatorEnds(cfg: Config, s: Sys, g: Grant): (after: Sys) {
    var revoked := if g.jwtExpiry > Stored(s.now) then RevokeOnce(s.db.revoked, g.jti, g.jwtExpiry) else s.db.revoked;
    EndedWith(Condemn(s, g.jti, revoked), g, Retired(OperatorRevoked, g.clientId, g.jti, None, None, s.now + cfg.retention))
  }

  lemma OperatorStep(cfg: Config, s: Sys, id: GrantId)
    requires RowsInv(s)
    ensures match FindById(s.db, id)
            case None => Step(cfg, s, Operator(id)) == s
            case Some(jti) =>
              s.db.grants[jti].jti == jti && Step(cfg, s, Operator(id)) == OperatorEnds(cfg, s, s.db.grants[jti])
  {
    var found := FindById(s.db, id);
    if found.Some? {
      assert RowMatches(s.db.grants[found.value], found.value, s.issued[found.value]);
    }
  }

  lemma OperatorKeepsInv(cfg: Config, s: Sys, id: GrantId)
    requires Inv(cfg, s)
    ensures Inv(cfg, Step(cfg, s, Operator(id)))
  {
    OperatorStep(cfg, s, id);
    var found := FindById(s.db, id);
    if found.Some? {
      OperatorEndsKeepsInv(cfg, s, s.db.grants[found.value]);
    }
  }

  lemma OperatorEndsKeepsInv(cfg: Config, s: Sys, g: Grant)
    requires Inv(cfg, s) && g.jti in s.db.grants && s.db.grants[g.jti] == g
    ensures Inv(cfg, OperatorEnds(cfg, s, g))
  {
    var revoked := if g.jwtExpiry > Stored(s.now) then RevokeOnce(s.db.revoked, g.jti, g.jwtExpiry) else s.db.revoked;
    hide Inv;
    OperatorCondemns(cfg, s, g, revoked);
    EndedWithKeepsInv(cfg, Condemn(s, g.jti, revoked), g, Retired(OperatorRevoked, g.clientId, g.jti, None, None, s.now + cfg.retention));
  }

  lemma OperatorCondemns(cfg: Config, s: Sys, g: Grant, revoked: map<Jti, Time>)
    requires Inv(cfg, s) && g.jti in s.db.grants && s.db.grants[g.jti] == g
    requires revoked == if g.jwtExpiry > Stored(s.now) then RevokeOnce(s.db.revoked, g.jti, g.jwtExpiry) else s.db.revoked
    ensures Inv(cfg, Condemn(s, g.jti, revoked))
  {
    RowOfGrant(s, g);
    StoredExpiryKeepsSecond(s.issued[g.jti].expiry);
    CondemnKeepsInv(cfg, s, g.jti, revoked);
  }

  function RevokedNow(s: Sys, jti: Jti, expiresAt: Time): (after: Sys) {
    s.(db := Revoked(s.db, Stored(s.now), jti, expiresAt), revokedEver := s.revokedEver + {jti})
  }

  lemma RevokedNowKeepsInv(cfg: Config, s: Sys, jti: Jti, expiresAt: Time)
    requires Inv(cfg, s) && jti in s.issued && Seconds(s.issued[jti].expiry) <= Stored(expiresAt)
    ensures Inv(cfg, RevokedNow(s, jti, expiresAt))
  {
    hide Stored;
    var revoked := Revoked(s.db, Stored(s.now), jti, expiresAt).revoked;
    PruningIsSafe(s, jti, expiresAt);
    CondemnKeepsInv(cfg, s, jti, revoked);
    assert RevokedNow(s, jti, expiresAt) == Condemn(s, jti, revoked);
  }

  lemma PruningIsSafe(s: Sys, jti: Jti, expiresAt: Time)
    requires RevokedInv(s) && jti in s.issued && Seconds(s.issued[jti].expiry) <= Stored(expiresAt)
    ensures var revoked := Revoked(s.db, Stored(s.now), jti, expiresAt).revoked;
            && (jti in revoked || Seconds(s.issued[jti].expiry) <= s.now)
            && (forall j | j in revoked :: if j in s.db.revoked then revoked[j] == s.db.revoked[j]
                                           else j == jti && Seconds(s.issued[jti].expiry) <= revoked[j])
            && (forall j | j in s.db.revoked && j !in revoked :: s.db.revoked[j] < Stored(s.now))
  {
  }

  lemma RevokeFirstKeepsInv(cfg: Config, s: Sys, req: nat)
    requires Inv(cfg, s) && Enabled(s, RevokeFirst(req))
    ensures Inv(cfg, Step(cfg, s, RevokeFirst(req)))
  {
    hide Inv;
    var Revoking(g, reason) := s.requests[req];
    StageAt(cfg, s, req);
    StoredExpiryKeepsSecond(s.issued[g.jti].expiry);
    RevokedNowKeepsInv(cfg, s, g.jti, g.jwtExpiry);
    var t := RevokedNow(s, g.jti, g.jwtExpiry);
    RequestKeepsInv(cfg, t, req, Dropping(g, reason));
  }

  lemma BeginKeepsInv(cfg: Config, s: Sys, req: nat, token: Token, client: string, readable: bool)
    requires Inv(cfg, s) && Enabled(s, Begin(req, token, client, readable))
    ensures Inv(cfg, Step(cfg, s, Begin(req, token, client, readable)))
  {
    hide Stored, ChainInv, RevokedInv, RetiredInv, TokensInv;
    var found := FindByToken(s.db, token);
    if found.Some? {
      assert RowMatches(s.db.grants[found.value], found.value, s.issued[found.value]);
    }
    RequestKeepsInv(cfg, s, req, AfterRead(Find(s.db, token), readable, s.now, token, client));
  }

  lemma ResolveKeepsInv(cfg: Config, s: Sys, req: nat, readable: bool)
    requires Inv(cfg, s) && Enabled(s, Resolve(req, readable))
    ensures Inv(cfg, Step(cfg, s, Resolve(req, readable)))
  {
    hide Inv;
    var Resolving(client, replacement) := s.requests[req];
    ReplacementIsKnown(cfg, s, replacement, readable, client);
    RequestKeepsInv(cfg, s, req, AfterReplacement(LookUp(s.db, replacement), readable, s.now, client));
  }

  lemma ReplacementIsKnown(cfg: Config, s: Sys, replacement: Jti, readable: bool, client: string)
    requires Inv(cfg, s)
    ensures StageOk(s, AfterReplacement(LookUp(s.db, replacement), readable, s.now, client))
  {
    hide Stored, TokensInv, ChainInv, RevokedInv, RetiredInv, RequestsInv;
    if replacement in s.db.grants {
      RowOfGrant(s, s.db.grants[replacement]);
    }
  }

  /** The retired record's lookup lets exactly the right retries through: a rotated token, of the
      same client, within the grace period, its record still retained. */
  lemma RetryIsExact(cfg: Config, s: Sys, token: Token, client: string)
    requires Inv(cfg, s)
    ensures var stage := AfterRetired(LookUpRetired(s.db, Stored(s.now), Sha256(token)), s.now, client);
            && (InGrace(cfg, s, token, client) ==> stage == Resolving(client, s.issued[s.jtiOf[token]].fate.next))
            && (!InGrace(cfg, s, token, client) ==> stage.Done? && stage.reply.Refused?)
  {
    hide Stored, ChainInv, RevokedInv, RequestsInv, RowsInv;
    if token in s.jtiOf {
      var j := s.jtiOf[token];
      if s.issued[j].fate.RotatedTo? {
        RotatedHasClient(s, j);
        RotatedIsRetained(cfg, s, j);
      }
      if Sha256(token) in s.db.retired {
        assert RecordFits(cfg, s, Sha256(token));
      }
    }
  }

  lemma RotatedHasClient(s: Sys, j: Jti)
    requires ChainInv(s) && j in s.issued && s.issued[j].fate.RotatedTo?
    ensures s.issued[j].clientId != "" && s.issued[j].token.Some?
  {
    assert LinkOk(s, j);
  }

  predicate InGrace(cfg: Config, s: Sys, token: Token, client: string) {
    && token in s.jtiOf && s.jtiOf[token] in s.issued
    && var i := s.issued[s.jtiOf[token]];
       && i.fate.RotatedTo? && i.clientId == client && cfg.grace > 0
       && s.now <= Stored(i.fate.at + cfg.grace) && Stored(s.now) < Stored(i.fate.at + cfg.retention)
  }

  lemma TokenOf(s: Sys, token: Token)
    requires TokensInv(s) && token in s.jtiOf
    ensures s.jtiOf[token] in s.issued && s.issued[s.jtiOf[token]].token == Some(token)
  {
  }

  /** Retention is no shorter than grace, so within the grace period the record is there and lets
      the client through; the one instant it may be missing is the end of the period, if the
      retention ends with it in the same microsecond. */
  lemma GraceIsRetained(cfg: Config, s: Sys, token: Token, client: string)
    requires ValidConfig(cfg) && Inv(cfg, s) && token in s.jtiOf && s.issued[s.jtiOf[token]].fate.RotatedTo?
    ensures var i := s.issued[s.jtiOf[token]];
            var end, retained := Stored(i.fate.at + cfg.grace), Stored(i.fate.at + cfg.retention);
            && (s.now < end ==> Sha256(token) in s.db.retired && s.db.retired[Sha256(token)].retainedUntil > Stored(s.now))
            && (InGrace(cfg, s, token, client) <==>
                  i.clientId == client && cfg.grace > 0 && (s.now < end || (s.now == end && end < retained)))
  {
    hide TokensInv, RetiredInv, ChainInv, RevokedInv, RequestsInv, RowsInv;
    var j := s.jtiOf[token];
    TokenOf(s, token);
    RotatedIsRetained(cfg, s, j);
    StoredAscends(s.issued[j].fate.at + cfg.grace, s.issued[j].fate.at + cfg.retention);
  }

  lemma RetryKeepsInv(cfg: Config, s: Sys, req: nat)
    requires Inv(cfg, s) && Enabled(s, Retry(req))
    ensures Inv(cfg, Step(cfg, s, Retry(req)))
  {
    hide Inv, Stored;
    var Retrying(token, client) := s.requests[req];
    RetryIsExact(cfg, s, token, client);
    if InGrace(cfg, s, token, client) {
      assert SuccessorOf(s, s.jtiOf[token], s.issued[s.jtiOf[token]].fate.next);
    }
    RequestKeepsInv(cfg, s, req, AfterRetired(LookUpRetired(s.db, Stored(s.now), Sha256(token)), s.now, client));
  }

  /** The invariant of every reachable state of the protocol. */
  lemma StepKeepsInv(cfg: Config, s: Sys, a: Action)
    requires ValidConfig(cfg) && Inv(cfg, s) && Enabled(s, a)
    ensures Inv(cfg, Step(cfg, s, a))
  {
    hide Inv;
    match a
    case Tick(d) => TickKeepsInv(cfg, s, d);
    case Login(g) => LoginKeepsInv(cfg, s, g);
    case LoginWithoutRefresh(jti) => IssuedOnlyKeepsInv(cfg, s, jti);
    case Begin(req, token, client, readable) => BeginKeepsInv(cfg, s, req, token, client, readable);
    case Answer(req, answer, jti, token) => AnswerKeepsInv(cfg, s, req, answer, jti, token);
    case RevokeFirst(req) => RevokeFirstKeepsInv(cfg, s, req);
    case DropThen(req) => DropKeepsInv(cfg, s, req);
    case Retry(req) => RetryKeepsInv(cfg, s, req);
    case Resolve(req, readable) => ResolveKeepsInv(cfg, s, req, readable);
    case Logout(jti) =>
      StoredExpiryKeepsSecond(s.issued[jti].expiry);
      RevokedNowKeepsInv(cfg, s, jti, Seconds(s.issued[jti].expiry));
    case Operator(id) => OperatorKeepsInv(cfg, s, id);
  }

  ghost predicate IsRun(cfg: Config, states: seq<Sys>, actions: seq<Action>) {
    && |states| == |actions| + 1 && states[0] == INIT
    && forall i | 0 <= i < |actions| :: Enabled(states[i], actions[i]) && states[i + 1] == Step(cfg, states[i], actions[i])
  }

  lemma {:induction false} RunKeepsInv(cfg: Config, states: seq<Sys>, actions: seq<Action>, i: nat)
    requires ValidConfig(cfg) && IsRun(cfg, states, actions) && i < |states|
    ensures Inv(cfg, states[i])
  {
    if i > 0 {
      RunKeepsInv(cfg, states, actions, i - 1);
      StepKeepsInv(cfg, states[i - 1], actions[i - 1]);
    }
  }

  // ---------- what the invariant and the runs give ----------

  /** No refresh token is both live and retired. */
  lemma NeverLiveAndRetired(cfg: Config, s: Sys, jti: Jti)
    requires Inv(cfg, s) && jti in s.db.grants
    ensures Sha256(s.db.grants[jti].token) !in s.db.retired
  {
    assert RowMatches(s.db.grants[jti], jti, s.issued[jti]);
  }

  /** A grant has one live token at most: of any two rows with its id, both are the same row. */
  lemma OneLiveTokenPerGrant(cfg: Config, s: Sys, a: Jti, b: Jti)
    requires Inv(cfg, s) && a in s.db.grants && b in s.db.grants && s.db.grants[a].id == s.db.grants[b].id
    ensures a == b
  {
    assert RowMatches(s.db.grants[a], a, s.issued[a]) && RowMatches(s.db.grants[b], b, s.issued[b]);
  }

  /** The tokens of a grant, from one of them to the next and the next. */
  ghost predicate Leads(s: Sys, from: Jti, to: Jti, steps: nat)
    decreases steps
  {
    && from in s.issued
    && if steps == 0 then from == to
       else s.issued[from].fate.RotatedTo? && Leads(s, s.issued[from].fate.next, to, steps - 1)
  }

  lemma NextInChain(cfg: Config, s: Sys, j: Jti)
    requires Inv(cfg, s) && j in s.issued && s.issued[j].fate.RotatedTo?
    ensures var n := s.issued[j].fate.next;
            && n in s.issued && s.issued[n].token.Some? && s.issued[n].prev == Some(j)
            && s.issued[n].id == s.issued[j].id && s.issued[n].gen == s.issued[j].gen + 1
  {
    assert LinkOk(s, j);
  }

  lemma HeadAt(cfg: Config, s: Sys, j: Jti)
    requires Inv(cfg, s) && j in s.issued && s.issued[j].token.Some?
    ensures HeadOk(s, j)
  {
  }

  /** Rotation never merges: whoever leads to the same token after as many rotations is the same. */
  lemma {:induction false} ChainNeverMerges(cfg: Config, s: Sys, a: Jti, b: Jti, to: Jti, steps: nat)
    requires Inv(cfg, s) && Leads(s, a, to, steps) && Leads(s, b, to, steps)
    ensures a == b
    decreases steps
  {
    hide Inv;
    if steps > 0 {
      NextInChain(cfg, s, a);
      NextInChain(cfg, s, b);
      ChainNeverMerges(cfg, s, s.issued[a].fate.next, s.issued[b].fate.next, to, steps - 1);
    }
  }

  /** Each rotation adds a generation and stays within the grant, so no token leads to itself. */
  lemma {:induction false} LeadsAcrossGenerations(cfg: Config, s: Sys, j: Jti, k: Jti, steps: nat)
    requires Inv(cfg, s) && Leads(s, j, k, steps)
    ensures k in s.issued && s.issued[k].gen == s.issued[j].gen + steps && s.issued[k].id == s.issued[j].id
    ensures s.issued[j].token.Some? ==> s.issued[k].token.Some?
    decreases steps
  {
    hide Inv;
    if steps > 0 {
      NextInChain(cfg, s, j);
      LeadsAcrossGenerations(cfg, s, s.issued[j].fate.next, k, steps - 1);
    }
  }

  lemma {:induction false} LeadsToHead(cfg: Config, s: Sys, j: Jti)
    requires Inv(cfg, s) && j in s.issued && s.issued[j].token.Some? && HeadOk(s, j)
    ensures var h := s.headOf[s.issued[j].id]; Leads(s, j, h, s.issued[h].gen - s.issued[j].gen)
    decreases s.issued[s.headOf[s.issued[j].id]].gen - s.issued[j].gen
  {
    hide Inv;
    if s.issued[j].fate.RotatedTo? {
      NextInChain(cfg, s, j);
      HeadAt(cfg, s, s.issued[j].fate.next);
      LeadsToHead(cfg, s, s.issued[j].fate.next);
    }
  }

  /** Rotation is a chain with one head: following the successors of any refresh token ends, at
      the one token of its grant that was not rotated away; and if the grant has a live token,
      that is it. */
  lemma ChainHasOneHead(cfg: Config, s: Sys, j: Jti) returns (h: Jti, steps: nat)
    requires Inv(cfg, s) && j in s.issued && s.issued[j].token.Some?
    ensures Leads(s, j, h, steps) && h in s.issued && IsHead(s.issued[h])
    ensures forall k, n: nat | Leads(s, j, k, n) && k in s.issued && IsHead(s.issued[k]) :: k == h && n == steps
    ensures forall k | k in s.issued && IsHead(s.issued[k]) && s.issued[k].id == s.issued[j].id :: k == h
    ensures forall k | k in s.db.grants && s.db.grants[k].id == s.issued[j].id :: k == h
  {
    hide Inv;
    HeadAt(cfg, s, j);
    h := s.headOf[s.issued[j].id];
    steps := s.issued[h].gen - s.issued[j].gen;
    LeadsToHead(cfg, s, j);
    forall k | k in s.issued && IsHead(s.issued[k]) && s.issued[k].id == s.issued[j].id ensures k == h {
      HeadAt(cfg, s, k);
    }
    forall k, n: nat | Leads(s, j, k, n) && k in s.issued && IsHead(s.issued[k]) ensures k == h && n == steps {
      LeadsAcrossGenerations(cfg, s, j, k, n);
    }
    forall k | k in s.db.grants && s.db.grants[k].id == s.issued[j].id ensures k == h {
      RowIsHead(cfg, s, k);
    }
  }

  lemma RowIsHead(cfg: Config, s: Sys, k: Jti)
    requires Inv(cfg, s) && k in s.db.grants
    ensures k in s.issued && IsHead(s.issued[k]) && s.issued[k].id == s.db.grants[k].id
  {
    assert RowMatches(s.db.grants[k], k, s.issued[k]);
  }

  /** GitHub gave a new pair, and everything that depends on it went well. */
  predicate Complete(answer: GitHub) {
    answer.NewPair? && answer.identified && answer.refresh != "" && answer.stored
  }

  /** What a step revokes: the jti it rotates away, tears down, logs out or takes away. */
  function RevokedBy(s: Sys, a: Action): (jtis: set<Jti>)
    requires Enabled(s, a)
  {
    match a
    case Answer(req, answer, _, _) =>
      var g := s.requests[req].g;
      if Complete(answer) && g.jti in s.db.grants then {g.jti} else {}
    case RevokeFirst(req) => {s.requests[req].g.jti}
    case Logout(jti) => {jti}
    case Operator(id) => set j | j in s.db.grants && s.db.grants[j].id == id
    case _ => {}
  }

  lemma RevocationsAreRecorded(cfg: Config, s: Sys, a: Action)
    requires Inv(cfg, s) && Enabled(s, a)
    ensures Step(cfg, s, a).revokedEver == s.revokedEver + RevokedBy(s, a)
  {
    hide TokensInv, RetiredInv, RevokedInv, RequestsInv;
    match a
    case Answer(req, answer, jti, token) => RotationRevokes(cfg, s, req, answer, jti, token);
    case Operator(id) => OperatorRevokes(cfg, s, id);
    case _ => hide Inv;
  }

  lemma RotationRevokes(cfg: Config, s: Sys, req: nat, answer: GitHub, jti: Jti, token: Token)
    requires Inv(cfg, s) && Enabled(s, Answer(req, answer, jti, token))
    ensures var a := Answer(req, answer, jti, token); Step(cfg, s, a).revokedEver == s.revokedEver + RevokedBy(s, a)
  {
    hide Step, RowsInv, TokensInv, ChainInv, RetiredInv, RevokedInv, RequestsInv;
    AnswerStep(cfg, s, req, answer, jti, token);
  }

  lemma OperatorRevokes(cfg: Config, s: Sys, id: GrantId)
    requires Inv(cfg, s)
    ensures Step(cfg, s, Operator(id)).revokedEver == s.revokedEver + RevokedBy(s, Operator(id))
  {
    hide TokensInv, ChainInv, RetiredInv, RevokedInv, RequestsInv;
    var found := FindById(s.db, id);
    forall j | j in s.db.grants && s.db.grants[j].id == id ensures found == Some(j) {
      OneLiveTokenPerGrant(cfg, s, j, found.value);
    }
  }

  lemma {:induction false} RevocationsAccumulate(cfg: Config, states: seq<Sys>, actions: seq<Action>, i: nat, j: nat)
    requires ValidConfig(cfg) && IsRun(cfg, states, actions) && i <= j < |states|
    ensures states[i].revokedEver <= states[j].revokedEver
    decreases j - i
  {
    hide IsRun;
    if i < j {
      RevocationsAccumulate(cfg, states, actions, i, j - 1);
      NextIsLater(cfg, states, actions, j - 1);
    }
  }

  lemma NextIsLater(cfg: Config, states: seq<Sys>, actions: seq<Action>, i: nat)
    requires ValidConfig(cfg) && IsRun(cfg, states, actions) && i + 1 < |states|
    ensures Later(states[i], states[i + 1]) && states[i].revokedEver <= states[i + 1].revokedEver
  {
    hide Inv, Later, RevokedBy;
    RunKeepsInv(cfg, states, actions, i);
    StepIsLater(cfg, states[i], actions[i]);
    RevocationsAreRecorded(cfg, states[i], actions[i]);
  }

  /** Revocation is permanent although revocation rows are pruned: once a jti is revoked, by
      rotation, teardown, logout or operator, no token carrying it ever passes again. */
  lemma RevocationIsPermanent(cfg: Config, states: seq<Sys>, actions: seq<Action>, i: nat, j: nat, jti: Jti)
    requires ValidConfig(cfg) && IsRun(cfg, states, actions) && i < j < |states|
    requires jti in RevokedBy(states[i], actions[i])
    ensures jti in states[j].issued && !Accepts(states[j].db, states[j].now, jti, states[j].issued[jti].expiry)
  {
    RunKeepsInv(cfg, states, actions, i);
    RevocationsAreRecorded(cfg, states[i], actions[i]);
    RevocationsAccumulate(cfg, states, actions, i + 1, j);
    RunKeepsInv(cfg, states, actions, j);
    assert jti in states[j].revokedEver;
  }

  /** What was issued stays as it was, and a token that stopped being live never is again. */
  ghost predicate Later(s: Sys, t: Sys) {
    forall j | j in s.issued ::
      && j in t.issued
      && t.issued[j].(fate := Live) == s.issued[j].(fate := Live)
      && (!s.issued[j].fate.Live? ==> t.issued[j].fate == s.issued[j].fate)
  }

  lemma StepIsLater(cfg: Config, s: Sys, a: Action)
    requires Inv(cfg, s) && Enabled(s, a)
    ensures Later(s, Step(cfg, s, a))
  {
    hide Step, Enabled, Later, ChainInv, RetiredInv, RevokedInv;
    match a
    case Answer(req, answer, jti, token) => AnswerIsLater(cfg, s, req, answer, jti, token);
    case Login(g) => LoginIsLater(cfg, s, g);
    case DropThen(req) => DropIsLater(cfg, s, req);
    case Operator(id) => OperatorIsLater(cfg, s, id);
    case _ => OtherStepIsLater(cfg, s, a);
  }

  lemma OtherStepIsLater(cfg: Config, s: Sys, a: Action)
    requires Enabled(s, a) && !a.Answer? && !a.Login? && !a.DropThen? && !a.Operator?
    ensures Later(s, Step(cfg, s, a))
  {
    hide Revoked, AfterRead, AfterRetired, AfterReplacement;
  }

  lemma DropIsLater(cfg: Config, s: Sys, req: nat)
    requires RowsInv(s) && RequestsInv(s) && Enabled(s, DropThen(req))
    ensures Later(s, Step(cfg, s, DropThen(req)))
  {
    assert StageOk(s, s.requests[req]);
    hide Stored, RequestsInv;
  }

  lemma OperatorIsLater(cfg: Config, s: Sys, id: GrantId)
    requires RowsInv(s)
    ensures Later(s, Step(cfg, s, Operator(id)))
  {
    OperatorStep(cfg, s, id);
    hide Step, Stored;
  }

  lemma LoginIsLater(cfg: Config, s: Sys, g: Grant)
    requires RowsInv(s) && Enabled(s, Login(g))
    ensures Later(s, Step(cfg, s, Login(g)))
  {
    LoginStep(cfg, s, g);
    hide Step;
  }

  lemma AnswerIsLater(cfg: Config, s: Sys, req: nat, answer: GitHub, jti: Jti, token: Token)
    requires RowsInv(s) && TokensInv(s) && RequestsInv(s) && Enabled(s, Answer(req, answer, jti, token))
    ensures Later(s, Step(cfg, s, Answer(req, answer, jti, token)))
  {
    hide Step, RowsInv, TokensInv;
    var g := s.requests[req].g;
    AnswerStep(cfg, s, req, answer, jti, token);
    if AfterGitHub(g, answer).None? && g.jti in s.db.grants {
      assert StageOk(s, s.requests[req]);
      RotationIsLater(cfg, s, req, g, Successor(g, s.now, jti, token, answer));
    }
  }

  lemma RotationIsLater(cfg: Config, s: Sys, req: nat, g: Grant, n: Grant)
    requires RowsInv(s) && g.jti in s.db.grants && s.db.grants[g.jti] == g && n.jti !in s.issued
    ensures Later(s, Rotation(cfg, s, req, g, n))
  {
    hide RowsInv, Later, Moved, RevokeOnce;
    RowOfGrant(s, g);
    var c := Condemn(s, g.jti, RevokeOnce(s.db.revoked, g.jti, g.jwtExpiry));
    MovedIsLater(cfg, c, g, n);
    LaterAlike(c, Moved(cfg, c, g, n), s, Rotation(cfg, s, req, g, n));
  }

  lemma LaterAlike(s: Sys, t: Sys, s': Sys, t': Sys)
    requires Later(s, t) && s'.issued == s.issued && t'.issued == t.issued
    ensures Later(s', t')
  {
  }

  lemma {:induction false} RunIsLater(cfg: Config, states: seq<Sys>, actions: seq<Action>, i: nat, j: nat)
    requires ValidConfig(cfg) && IsRun(cfg, states, actions) && i <= j < |states|
    ensures Later(states[i], states[j])
    decreases j - i
  {
    hide IsRun;
    if i < j {
      RunIsLater(cfg, states, actions, i, j - 1);
      NextIsLater(cfg, states, actions, j - 1);
      LaterTransitive(states[i], states[j - 1], states[j]);
    }
  }

  lemma LaterTransitive(s: Sys, t: Sys, u: Sys)
    requires Later(s, t) && Later(t, u)
    ensures Later(s, u)
  {
    forall j | j in s.issued ensures j in u.issued && u.issued[j].(fate := Live) == s.issued[j].(fate := Live) {
      assert t.issued[j].(fate := Live) == s.issued[j].(fate := Live);
      assert u.issued[j].(fate := Live) == t.issued[j].(fate := Live);
    }
  }

  /** The step rotates this token. */
  ghost predicate Rotates(cfg: Config, s: Sys, a: Action, token: Token) {
    && a.Answer? && Enabled(s, a) && s.requests[a.req].g.token == token
    && Step(cfg, s, a).requests[a.req] == Done(Issued(a.jti, a.token, s.now + JWT_TTL))
  }

  /** A request that has GitHub's new pair rotates its token if and only if the grant it read
      still stands at that moment; otherwise it changes nothing and is told so. */
  lemma RotationSucceedsExactly(cfg: Config, s: Sys, a: Action)
    requires Inv(cfg, s) && a.Answer? && Enabled(s, a) && AfterGitHub(s.requests[a.req].g, a.answer).None?
    ensures var g := s.requests[a.req].g;
            && (Rotates(cfg, s, a, g.token) <==> s.issued[g.jti].fate.Live?)
            && (!s.issued[g.jti].fate.Live? ==>
                  Step(cfg, s, a) == s.(requests := s.requests[a.req := Done(Refused(AlreadyUsed))]))
  {
    hide ChainInv, RetiredInv, RevokedInv;
    var g := s.requests[a.req].g;
    assert StageOk(s, s.requests[a.req]);
    AnswerStep(cfg, s, a.req, a.answer, a.jti, a.token);
    if g.jti in s.db.grants {
      RowOfGrant(s, g);
    }
  }

  /** At most one request rotates a given token. */
  lemma RotatedAtMostOnce(cfg: Config, states: seq<Sys>, actions: seq<Action>, i: nat, j: nat, token: Token)
    requires ValidConfig(cfg) && IsRun(cfg, states, actions) && i < j < |actions|
    requires Rotates(cfg, states[i], actions[i], token)
    ensures !Rotates(cfg, states[j], actions[j], token)
  {
    hide Inv;
    RunKeepsInv(cfg, states, actions, i);
    RunKeepsInv(cfg, states, actions, j);
    var jti := RotationMarks(cfg, states[i], actions[i], token);
    RunIsLater(cfg, states, actions, i + 1, j);
    RotatedIsNotRotated(cfg, states[j], actions[j], token, jti);
  }

  lemma RotatedIsNotRotated(cfg: Config, s: Sys, a: Action, token: Token, jti: Jti)
    requires Inv(cfg, s) && jti in s.issued && s.issued[jti].token == Some(token) && s.issued[jti].fate.RotatedTo?
    ensures !Rotates(cfg, s, a, token)
  {
    hide ChainInv, RetiredInv, RevokedInv;
    if a.Answer? && Enabled(s, a) && s.requests[a.req].g.token == token {
      var g := s.requests[a.req].g;
      assert StageOk(s, s.requests[a.req]);
      assert g.jti == s.jtiOf[token] == jti;
      if AfterGitHub(g, a.answer).None? {
        RotationSucceedsExactly(cfg, s, a);
      }
    }
  }

  lemma RotationMarks(cfg: Config, s: Sys, a: Action, token: Token) returns (jti: Jti)
    requires Inv(cfg, s) && Rotates(cfg, s, a, token)
    ensures jti in Step(cfg, s, a).issued && Step(cfg, s, a).issued[jti].token == Some(token)
    ensures Step(cfg, s, a).issued[jti].fate == RotatedTo(a.jti, s.now)
  {
    hide Step, TokensInv, ChainInv, RetiredInv, RevokedInv;
    var g := s.requests[a.req].g;
    jti := g.jti;
    assert StageOk(s, s.requests[a.req]);
    AnswerStep(cfg, s, a.req, a.answer, a.jti, a.token);
    if g.jti in s.db.grants {
      RowOfGrant(s, g);
      hide RowsInv, RequestsInv, Retire, RotatedRecord, RevokeOnce, Later;
    }
  }

  /** A request whose GitHub call failed cannot hurt the one that rotated: tearing down by the
      old jti leaves the new grant, every record and every other revocation alone. */
  lemma LoserCannotDeleteWinner(cfg: Config, s: Sys, a: Action)
    requires Inv(cfg, s) && Enabled(s, a) && (a.RevokeFirst? || a.DropThen?)
    requires s.issued[s.requests[a.req].g.jti].fate.RotatedTo?
    ensures var t := Step(cfg, s, a);
            && t.db.grants == s.db.grants && t.db.retired == s.db.retired && t.issued == s.issued
            && forall j | j in s.issued && j != s.requests[a.req].g.jti ::
                 Accepts(t.db, t.now, j, s.issued[j].expiry) == Accepts(s.db, s.now, j, s.issued[j].expiry)
  {
    hide ChainInv, RetiredInv, TokensInv;
    var g := s.requests[a.req].g;
    assert StageOk(s, s.requests[a.req]);
    OnlyLiveHaveRows(s, g.jti);
  }

  lemma OnlyLiveHaveRows(s: Sys, jti: Jti)
    requires RowsInv(s) && jti in s.issued && !s.issued[jti].fate.Live?
    ensures jti !in s.db.grants
  {
  }

  // ---------- grace retry ----------

  /** What the lookup of a token's immediate successor leads to. */
  lemma SuccessorAnswers(cfg: Config, s: Sys, readable: bool, j: Jti)
    requires Inv(cfg, s) && j in s.issued && s.issued[j].fate.RotatedTo?
    ensures var Issue(_, _, client, _, _, _, RotatedTo(n, at)) := s.issued[j];
            && n in s.issued && s.issued[n].token.Some?
            && AfterReplacement(LookUp(s.db, n), readable, s.now, client) ==
               Done(if !s.issued[n].fate.Live? then Refused(RecentlyRemoved)
                    else if !readable then Refused(Undecryptable)
                    else if s.now > Stored(at + JWT_TTL) then Refused(RecentlyRemoved)
                    else Issued(n, s.issued[n].token.value, Stored(at + JWT_TTL)))
  {
    assert LinkOk(s, j);
    hide Stored, ChainInv, RetiredInv, RevokedInv, RequestsInv, Signable;
    var n := s.issued[j].fate.next;
    assert Bindable(s.issued[n].clientId);
    if n in s.db.grants {
      RowOfGrant(s, s.db.grants[n]);
    }
  }

  /** The second lookup, of a retry that the retired record let through: it issues exactly if the
      immediate successor is still live and its token not expired (and its row can be read). */
  lemma ResolveIsExact(cfg: Config, s: Sys, req: nat, readable: bool, j: Jti)
    requires Inv(cfg, s) && Enabled(s, Resolve(req, readable))
    requires SuccessorOf(s, j, s.requests[req].replacement) && s.issued[j].clientId == s.requests[req].client
    ensures var n, at := s.issued[j].fate.next, s.issued[j].fate.at;
            && n in s.issued && s.issued[n].token.Some?
            && req in Step(cfg, s, Resolve(req, readable)).requests
            && Step(cfg, s, Resolve(req, readable)).requests[req] ==
               Done(if !s.issued[n].fate.Live? then Refused(RecentlyRemoved)
                    else if !readable then Refused(Undecryptable)
                    else if s.now > Stored(at + JWT_TTL) then Refused(RecentlyRemoved)
                    else Issued(n, s.issued[n].token.value, Stored(at + JWT_TTL)))
  {
    hide Inv, Stored, AfterReplacement;
    SuccessorAnswers(cfg, s, readable, j);
  }

  /** Stages that never lead back to a lookup. */
  predicate Over(stage: Stage) {
    stage.Revoking? || stage.Dropping? || stage.Done?
  }

  /** What a stage becomes: done, it stays; over, it never comes back to a lookup. */
  predicate Becomes(before: Stage, after: Stage) {
    && (before.Done? ==> after == before)
    && (Over(before) ==> Over(after))
    && (before.Resolving? ==> after == before || Over(after))
  }

  lemma NextStage(cfg: Config, s: Sys, a: Action, req: nat)
    requires Enabled(s, a) && req in s.requests
    ensures var t := Step(cfg, s, a);
            && req in t.requests && Becomes(s.requests[req], t.requests[req])
            && (t.requests[req].Resolving? && t.requests[req] != s.requests[req] ==> a == Retry(req))
  {
    hide RotateWith, Deleted, OperatorRevoke, Revoked, Upserted, Ended, Fated, NextGen, FindById;
  }

  lemma {:induction false} StagesOfRun(cfg: Config, states: seq<Sys>, actions: seq<Action>, i: nat, k: nat, req: nat)
    requires IsRun(cfg, states, actions) && i <= k < |states| && req in states[i].requests
    ensures req in states[k].requests && Becomes(states[i].requests[req], states[k].requests[req])
    decreases k - i
  {
    hide Step, Enabled, IsRun;
    if i < k {
      hide Becomes;
      RunSteps(cfg, states, actions, k - 1);
      StagesOfRun(cfg, states, actions, i, k - 1, req);
      NextStage(cfg, states[k - 1], actions[k - 1], req);
      BecomesTransitive(states[i].requests[req], states[k - 1].requests[req], states[k].requests[req]);
    }
  }

  lemma BecomesTransitive(a: Stage, b: Stage, c: Stage)
    requires Becomes(a, b) && Becomes(b, c)
    ensures Becomes(a, c)
  {
  }

  lemma RunSteps(cfg: Config, states: seq<Sys>, actions: seq<Action>, i: nat)
    requires IsRun(cfg, states, actions) && i + 1 < |states|
    ensures i < |actions| && Enabled(states[i], actions[i]) && states[i + 1] == Step(cfg, states[i], actions[i])
  {
    hide Step, Enabled;
  }

  /** Who makes the second lookup has made the first. */
  lemma {:induction false} RetryCameFirst(cfg: Config, states: seq<Sys>, actions: seq<Action>, k: nat, req: nat) returns (j: nat)
    requires IsRun(cfg, states, actions) && k < |states| && req in states[k].requests && states[k].requests[req].Resolving?
    ensures j < k && actions[j] == Retry(req)
  {
    var i := k - 1;
    if k > 0 {
      LookupComesFromRetry(cfg, states, actions, i, req);
    }
    hide Step, Enabled, IsRun;
    if actions[i] == Retry(req) {
      j := i;
    } else {
      j := RetryCameFirst(cfg, states, actions, i, req);
    }
  }

  lemma LookupComesFromRetry(cfg: Config, states: seq<Sys>, actions: seq<Action>, i: nat, req: nat)
    requires IsRun(cfg, states, actions) && i < |actions|
    requires req in states[i + 1].requests && states[i + 1].requests[req].Resolving?
    ensures actions[i] == Retry(req) || (req in states[i].requests && states[i].requests[req].Resolving?)
  {
    var s, a := states[i], actions[i];
    assert Enabled(s, a) && states[i + 1] == Step(cfg, s, a);
    hide Step, Enabled;
    if req in s.requests {
      NextStage(cfg, s, a, req);
    } else {
      BeginDoesNotResolve(cfg, s, a, req);
    }
  }

  lemma BeginDoesNotResolve(cfg: Config, s: Sys, a: Action, req: nat)
    requires Enabled(s, a) && req !in s.requests
    ensures req in Step(cfg, s, a).requests ==> !Step(cfg, s, a).requests[req].Resolving?
  {
  }

  /** A grace retry, with any other steps between and around its two lookups: it comes to its
      second lookup only if the first was made within the grace period by the same client, and
      then succeeds if and only if the token's immediate successor is still live and has not
      expired (and its row can be read). It gets that very token, its expiry as stored. */
  lemma GraceRetryIsExact(cfg: Config, states: seq<Sys>, actions: seq<Action>, k: nat, req: nat) returns (j: nat)
    requires ValidConfig(cfg) && IsRun(cfg, states, actions) && k < |actions| && actions[k].Resolve? && actions[k].req == req
    ensures j < k && actions[j] == Retry(req)
    ensures req in states[j].requests && states[j].requests[req].Retrying?
    ensures var Retrying(token, client) := states[j].requests[req];
            && InGrace(cfg, states[j], token, client)
            && var i, later := states[j].issued[states[j].jtiOf[token]], states[k].issued;
               var n := i.fate.next;
               && n in later && later[n].token.Some? && req in states[k + 1].requests
               && states[k + 1].requests[req] ==
                  Done(if !later[n].fate.Live? then Refused(RecentlyRemoved)
                       else if !actions[k].readable then Refused(Undecryptable)
                       else if states[k].now > Stored(i.fate.at + JWT_TTL) then Refused(RecentlyRemoved)
                       else Issued(n, later[n].token.value, Stored(i.fate.at + JWT_TTL)))
  {
    hide Inv, Later, InGrace, Step;
    assert Enabled(states[k], actions[k]);
    j := RetryCameFirst(cfg, states, actions, k, req);
    assert Enabled(states[j], actions[j]) && states[j + 1] == Step(cfg, states[j], actions[j]);
    assert Enabled(states[k], actions[k]) && states[k + 1] == Step(cfg, states[k], actions[k]);
    RunKeepsInv(cfg, states, actions, j);
    RunKeepsInv(cfg, states, actions, k);
    RetryPasses(cfg, states[j], req);
    StagesOfRun(cfg, states, actions, j + 1, k, req);
    RunIsLater(cfg, states, actions, j, k);
    assert actions[k] == Resolve(req, actions[k].readable);
    var Retrying(token, client) := states[j].requests[req];
    SuccessorStays(cfg, states[j], states[k], token, client);
    ResolveIsExact(cfg, states[k], req, actions[k].readable, states[j].jtiOf[token]);
  }

  lemma RetryPasses(cfg: Config, s: Sys, req: nat)
    requires Inv(cfg, s) && Enabled(s, Retry(req))
    ensures var Retrying(token, client) := s.requests[req];
            req in Step(cfg, s, Retry(req)).requests &&
            var stage := Step(cfg, s, Retry(req)).requests[req];
            && (InGrace(cfg, s, token, client) ==> stage == Resolving(client, s.issued[s.jtiOf[token]].fate.next))
            && (!InGrace(cfg, s, token, client) ==> stage.Done? && stage.reply.Refused?)
  {
    hide Inv, InGrace;
    var Retrying(token, client) := s.requests[req];
    RetryIsExact(cfg, s, token, client);
  }

  lemma SuccessorStays(cfg: Config, s: Sys, t: Sys, token: Token, client: string)
    requires InGrace(cfg, s, token, client) && Later(s, t)
    ensures token in s.jtiOf && s.jtiOf[token] in s.issued && s.issued[s.jtiOf[token]].fate.RotatedTo?
    ensures var j := s.jtiOf[token];
            && SuccessorOf(t, j, s.issued[j].fate.next) && t.issued[j].clientId == client && t.issued[j].fate == s.issued[j].fate
  {
  }

  /** A retry outside its grace period, of another client or of a token never rotated is refused
      at its first lookup, for good. */
  lemma NoRetryOtherwise(cfg: Config, states: seq<Sys>, actions: seq<Action>, j: nat, k: nat, req: nat)
    requires ValidConfig(cfg) && IsRun(cfg, states, actions) && j < |actions| && j < k < |states| && actions[j] == Retry(req)
    requires req in states[j].requests && states[j].requests[req].Retrying?
    requires !InGrace(cfg, states[j], states[j].requests[req].token, states[j].requests[req].client)
    ensures req in states[k].requests && states[k].requests[req].Done? && states[k].requests[req].reply.Refused?
  {
    hide Inv, InGrace, Step;
    assert Enabled(states[j], actions[j]) && states[j + 1] == Step(cfg, states[j], actions[j]);
    RunKeepsInv(cfg, states, actions, j);
    RetryPasses(cfg, states[j], req);
    StagesOfRun(cfg, states, actions, j + 1, k, req);
  }
}
