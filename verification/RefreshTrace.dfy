/**
  What the runs of the refresh protocol come to: where each grant's contents are from, what each
  request and each answer leads to, and which tokens are accepted.
 */
module RefreshTrace {
  import opened Wrappers
  import opened Clock
  import opened GrantStore
  import opened RefreshGrant
  import opened RefreshProtocol

  // ---------- where a grant's contents come from ----------

  /** The step issued the grant's jti: a login stored the grant, or a rotation gave it the token
      and what GitHub had just answered. */
  predicate Issues(a: Action, g: Grant) {
    match a
    case Login(l) =>
      g.jti == l.jti && g.token == l.token && g.gitHubRefresh == l.gitHubRefresh && g.gitHubExpiry == StoredIf(l.gitHubExpiry)
    case Answer(_, answer, jti, token) =>
      && Complete(answer)
      && g.jti == jti && g.token == token && g.gitHubRefresh == answer.refresh && g.gitHubExpiry == StoredIf(answer.expiry)
    case _ => false
  }

  /** The login that the grant goes back to, however often it was rotated since. */
  predicate Begins(a: Action, g: Grant) {
    a.Login? && a.g.id == g.id && a.g.user == g.user && a.g.scope == g.scope && a.g.clientId == g.clientId
  }

  ghost predicate Traced(actions: seq<Action>, k: nat, g: Grant) {
    && (exists i :: 0 <= i < k && i < |actions| && Issues(actions[i], g))
    && (exists i :: 0 <= i < k && i < |actions| && Begins(actions[i], g))
  }

  predicate Alike(g: Grant, h: Grant) {
    g.id == h.id && g.user == h.user && g.scope == h.scope && g.clientId == h.clientId
  }

  predicate Holding(stage: Stage) {
    stage.Waiting? || stage.Revoking? || stage.Dropping?
  }

  /** What an answer leads to, as one step. */
  lemma AnswerLeads(cfg: Config, s: Sys, req: nat, answer: GitHub, jti: Jti, token: Token)
    requires Inv(cfg, s) && Enabled(s, Answer(req, answer, jti, token))
    ensures req in s.requests && s.requests[req].Waiting? && jti !in s.issued
    ensures var g, after := s.requests[req].g, Step(cfg, s, Answer(req, answer, jti, token));
            && (Complete(answer) <==> AfterGitHub(g, answer).None?)
            && match AfterGitHub(g, answer)
               case Some(stage) => after == s.(requests := s.requests[req := stage])
               case None =>
                 after == if g.jti in s.db.grants then Rotation(cfg, s, req, g, Successor(g, s.now, jti, token, answer))
                          else s.(requests := s.requests[req := Done(Refused(AlreadyUsed))])
  {
    hide Step, RowsInv, TokensInv, RequestsInv, ChainInv, RetiredInv, RevokedInv;
    AnswerStep(cfg, s, req, answer, jti, token);
  }

  lemma RotationRows(cfg: Config, s: Sys, req: nat, g: Grant, n: Grant)
    ensures Rotation(cfg, s, req, g, n).requests == s.requests[req := Done(Issued(n.jti, n.token, n.jwtExpiry))]
    ensures Rotation(cfg, s, req, g, n).db.grants == (s.db.grants - {g.jti})[n.jti := StoredGrant(n)]
  {
  }

  /** A row after a step was there before, or it is that of a login or of a rotation. */
  lemma NewRow(cfg: Config, s: Sys, a: Action, j: Jti)
    requires Inv(cfg, s) && Enabled(s, a) && j in Step(cfg, s, a).db.grants
    ensures var row := Step(cfg, s, a).db.grants[j];
            || (j in s.db.grants && s.db.grants[j] == row)
            || (a.Login? && Issues(a, row) && Begins(a, row))
            || (a.Answer? && Issues(a, row) && s.requests[a.req].Waiting? && Alike(row, s.requests[a.req].g))
  {
    hide Inv, Step, Alike;
    match a
    case Login(g) => LoginRow(cfg, s, g, j);
    case Answer(req, answer, jti, token) => RotatedRow(cfg, s, req, answer, jti, token, j);
    case _ => OtherRow(cfg, s, a, j);
  }

  lemma LoginRow(cfg: Config, s: Sys, g: Grant, j: Jti)
    requires Inv(cfg, s) && Enabled(s, Login(g)) && j in Step(cfg, s, Login(g)).db.grants
    ensures var row := Step(cfg, s, Login(g)).db.grants[j];
            (j in s.db.grants && s.db.grants[j] == row) || (Issues(Login(g), row) && Begins(Login(g), row))
  {
    LoginStep(cfg, s, g);
    hide Step, Inv, Stored, StaleGrants;
  }

  lemma RotatedRow(cfg: Config, s: Sys, req: nat, answer: GitHub, jti: Jti, token: Token, j: Jti)
    requires Inv(cfg, s) && Enabled(s, Answer(req, answer, jti, token)) && j in Step(cfg, s, Answer(req, answer, jti, token)).db.grants
    ensures var a := Answer(req, answer, jti, token);
            var row := Step(cfg, s, a).db.grants[j];
            (j in s.db.grants && s.db.grants[j] == row) || (Issues(a, row) && Alike(row, s.requests[req].g))
  {
    hide Step, Inv, Enabled, Rotation, Stored;
    AnswerLeads(cfg, s, req, answer, jti, token);
    var g := s.requests[req].g;
    if Complete(answer) {
      RotationRows(cfg, s, req, g, Successor(g, s.now, jti, token, answer));
    }
  }

  lemma OtherRow(cfg: Config, s: Sys, a: Action, j: Jti)
    requires Enabled(s, a) && !a.Login? && !a.Answer? && j in Step(cfg, s, a).db.grants
    ensures j in s.db.grants && s.db.grants[j] == Step(cfg, s, a).db.grants[j]
  {
    hide AfterRead, AfterRetired, AfterReplacement, FindById;
  }

  /** What a request holds after a step it held before, or has just read it from its row. */
  lemma NewHolding(cfg: Config, s: Sys, a: Action, req: nat)
    requires Inv(cfg, s) && Enabled(s, a) && req in Step(cfg, s, a).requests && Holding(Step(cfg, s, a).requests[req])
    ensures var g := Step(cfg, s, a).requests[req].g;
            || (req in s.requests && Holding(s.requests[req]) && s.requests[req].g == g)
            || (g.jti in s.db.grants && s.db.grants[g.jti] == g)
  {
    hide Inv, Step;
    match a
    case Begin(r, token, client, readable) => BeginHolds(cfg, s, r, token, client, readable, req);
    case Answer(r, answer, jti, token) => AnswerHolds(cfg, s, r, answer, jti, token, req);
    case Resolve(r, readable) => ResolveHolds(cfg, s, r, readable, req);
    case _ => OtherHolds(cfg, s, a, req);
  }

  lemma BeginHolds(cfg: Config, s: Sys, r: nat, token: Token, client: string, readable: bool, req: nat)
    requires Inv(cfg, s) && Enabled(s, Begin(r, token, client, readable))
    requires var t := Step(cfg, s, Begin(r, token, client, readable)); req in t.requests && Holding(t.requests[req])
    ensures var g := Step(cfg, s, Begin(r, token, client, readable)).requests[req].g;
            || (req in s.requests && Holding(s.requests[req]) && s.requests[req].g == g)
            || (g.jti in s.db.grants && s.db.grants[g.jti] == g)
  {
    hide Inv, FindByToken;
    var found := FindByToken(s.db, token);
    if found.Some? {
      RowIsOwn(cfg, s, found.value);
    }
  }

  lemma RowIsOwn(cfg: Config, s: Sys, j: Jti)
    requires Inv(cfg, s) && j in s.db.grants
    ensures s.db.grants[j].jti == j && j in s.issued && RowMatches(s.db.grants[j], j, s.issued[j])
  {
  }

  lemma AnswerHolds(cfg: Config, s: Sys, r: nat, answer: GitHub, jti: Jti, token: Token, req: nat)
    requires Inv(cfg, s) && Enabled(s, Answer(r, answer, jti, token))
    requires var t := Step(cfg, s, Answer(r, answer, jti, token)); req in t.requests && Holding(t.requests[req])
    ensures var g := Step(cfg, s, Answer(r, answer, jti, token)).requests[req].g;
            req in s.requests && Holding(s.requests[req]) && s.requests[req].g == g
  {
    hide Step, Inv, Enabled, Rotation, Successor, StoredGrant;
    AnswerLeads(cfg, s, r, answer, jti, token);
    var g := s.requests[r].g;
    if Complete(answer) {
      RotationRows(cfg, s, r, g, Successor(g, s.now, jti, token, answer));
    }
  }

  lemma ResolveHolds(cfg: Config, s: Sys, r: nat, readable: bool, req: nat)
    requires Inv(cfg, s) && Enabled(s, Resolve(r, readable))
    requires var t := Step(cfg, s, Resolve(r, readable)); req in t.requests && Holding(t.requests[req])
    ensures var g := Step(cfg, s, Resolve(r, readable)).requests[req].g;
            || (req in s.requests && Holding(s.requests[req]) && s.requests[req].g == g)
            || (g.jti in s.db.grants && s.db.grants[g.jti] == g)
  {
    hide Inv, Stored, Signable;
    var replacement := s.requests[r].replacement;
    if replacement in s.db.grants {
      RowIsOwn(cfg, s, replacement);
    }
  }

  lemma OtherHolds(cfg: Config, s: Sys, a: Action, req: nat)
    requires Enabled(s, a) && !a.Begin? && !a.Answer? && !a.Resolve?
    requires req in Step(cfg, s, a).requests && Holding(Step(cfg, s, a).requests[req])
    ensures req in s.requests && Holding(s.requests[req]) && s.requests[req].g == Step(cfg, s, a).requests[req].g
  {
    hide Revoked, Deleted, OperatorRevoke, Upserted, Ended, Fated, FindById, LookUpRetired;
  }

  lemma RunStep(cfg: Config, states: seq<Sys>, actions: seq<Action>, i: nat)
    requires ValidConfig(cfg) && IsRun(cfg, states, actions) && i + 1 < |states|
    ensures i < |actions| && Inv(cfg, states[i]) && Enabled(states[i], actions[i]) && states[i + 1] == Step(cfg, states[i], actions[i])
  {
    RunKeepsInv(cfg, states, actions, i);
    RunSteps(cfg, states, actions, i);
  }

  /** Whatever a row holds was given to it: its refresh token and GitHub's token and expiry by the
      login or by the rotation that issued its jti, and its user, client and scope by the login the
      whole chain began with. */
  lemma {:induction false} RowsAreTraced(cfg: Config, states: seq<Sys>, actions: seq<Action>, k: nat, j: Jti)
    requires ValidConfig(cfg) && IsRun(cfg, states, actions) && k < |states| && j in states[k].db.grants
    ensures Traced(actions, k, states[k].db.grants[j])
    decreases k, 0
  {
    if k > 0 {
      RunStep(cfg, states, actions, k - 1);
      hide IsRun, Inv, Step, Enabled, Issues, Begins, Traced, Alike;
      var s, a, row := states[k - 1], actions[k - 1], states[k].db.grants[j];
      NewRow(cfg, s, a, j);
      if j in s.db.grants && s.db.grants[j] == row {
        RowsAreTraced(cfg, states, actions, k - 1, j);
        LaterTraced(actions, k - 1, row);
      } else if a.Answer? {
        HoldingsAreTraced(cfg, states, actions, k - 1, a.req);
        AlikeTraced(actions, k - 1, s.requests[a.req].g, row);
      } else {
        NewTraced(actions, k - 1, row);
      }
    }
  }

  lemma {:induction false} HoldingsAreTraced(cfg: Config, states: seq<Sys>, actions: seq<Action>, k: nat, req: nat)
    requires ValidConfig(cfg) && IsRun(cfg, states, actions) && k < |states| && req in states[k].requests && Holding(states[k].requests[req])
    ensures Traced(actions, k, states[k].requests[req].g)
    decreases k, 1
  {
    if k > 0 {
      RunStep(cfg, states, actions, k - 1);
      hide IsRun, Inv, Step, Enabled, Issues, Begins, Holding;
      var s, g := states[k - 1], states[k].requests[req].g;
      NewHolding(cfg, s, actions[k - 1], req);
      if req in s.requests && Holding(s.requests[req]) && s.requests[req].g == g {
        HoldingsAreTraced(cfg, states, actions, k - 1, req);
      } else {
        RowsAreTraced(cfg, states, actions, k - 1, g.jti);
      }
      LaterTraced(actions, k - 1, g);
    }
  }

  lemma LaterTraced(actions: seq<Action>, k: nat, g: Grant)
    requires Traced(actions, k, g)
    ensures Traced(actions, k + 1, g)
  {
    var i :| 0 <= i < k && i < |actions| && Issues(actions[i], g);
    var j :| 0 <= j < k && j < |actions| && Begins(actions[j], g);
    assert i < k + 1 && j < k + 1;
  }

  lemma NewTraced(actions: seq<Action>, k: nat, g: Grant)
    requires k < |actions| && Issues(actions[k], g) && Begins(actions[k], g)
    ensures Traced(actions, k + 1, g)
  {
  }

  lemma AlikeTraced(actions: seq<Action>, k: nat, g: Grant, row: Grant)
    requires k < |actions| && Traced(actions, k, g) && Alike(row, g) && Issues(actions[k], row)
    ensures Traced(actions, k + 1, row)
  {
    var i :| 0 <= i < k && i < |actions| && Begins(actions[i], g);
    assert Begins(actions[i], row);
  }

  // ---------- spent tokens of GitHub's ----------

  /** The GitHub refresh token that a step brings into the protocol. */
  function GivenBy(a: Action): (token: Option<string>) {
    match a
    case Login(g) => Some(g.gitHubRefresh)
    case Answer(_, answer, _, _) => if answer.NewPair? && answer.refresh != "" then Some(answer.refresh) else None
    case _ => None
  }

  /** GitHub gives every refresh token once. */
  ghost predicate GivenOnce(actions: seq<Action>) {
    forall i, j | 0 <= i < j < |actions| && GivenBy(actions[i]).Some? :: GivenBy(actions[i]) != GivenBy(actions[j])
  }

  /** So a grant with the same GitHub token as another is the same rotation of it. */
  lemma SameGitHubTokenSameJti(actions: seq<Action>, k: nat, g: Grant, l: nat, h: Grant)
    requires GivenOnce(actions) && Traced(actions, k, g) && Traced(actions, l, h) && g.gitHubRefresh == h.gitHubRefresh
    ensures g.jti == h.jti
  {
    var i :| 0 <= i < k && i < |actions| && Issues(actions[i], g);
    var j :| 0 <= j < l && j < |actions| && Issues(actions[j], h);
    assert GivenBy(actions[i]) == Some(g.gitHubRefresh) == GivenBy(actions[j]);
  }

  ghost predicate InARow(s: Sys, gitHubRefresh: string) {
    exists j :: j in s.db.grants && s.db.grants[j].gitHubRefresh == gitHubRefresh
  }

  /** A new pair spends the refresh token it was asked for with. Right after GitHub's answer a row
      with the spent token is left exactly if the grant still stood and this server could not
      finish: if it failed to read or to store the user, or was given no refresh token, in which
      case it goes on to tear the grant down. */
  lemma SpentTokenStaysExactly(cfg: Config, states: seq<Sys>, actions: seq<Action>, i: nat)
    requires ValidConfig(cfg) && IsRun(cfg, states, actions) && GivenOnce(actions) && i < |actions|
    requires actions[i].Answer? && actions[i].answer.NewPair?
    ensures actions[i].req in states[i].requests && states[i].requests[actions[i].req].Waiting?
    ensures var a, g := actions[i], states[i].requests[actions[i].req].g;
            InARow(states[i + 1], g.gitHubRefresh)
            <==> g.jti in states[i].db.grants && !(a.answer.identified && a.answer.refresh != "" && a.answer.stored)
  {
    RunStep(cfg, states, actions, i);
    assert Enabled(states[i], actions[i]);
    hide IsRun, Inv, Step, Traced, GivenOnce, Rotation;
    var s, t, a := states[i], states[i + 1], actions[i];
    AnswerLeads(cfg, s, a.req, a.answer, a.jti, a.token);
    var g := s.requests[a.req].g;
    var n := Successor(g, s.now, a.jti, a.token, a.answer);
    RotationRows(cfg, s, a.req, g, n);
    HoldingsAreTraced(cfg, states, actions, i, a.req);
    WaitingRow(cfg, s, a.req);
    if j :| j in t.db.grants && t.db.grants[j].gitHubRefresh == g.gitHubRefresh {
      RowsAreTraced(cfg, states, actions, i + 1, j);
      SameGitHubTokenSameJti(actions, i, g, i + 1, t.db.grants[j]);
      RunKeepsInv(cfg, states, actions, i + 1);
      RowIsOwn(cfg, t, j);
    }
  }

  /** A row that a request read either stands as it was or is gone. */
  lemma WaitingRow(cfg: Config, s: Sys, req: nat)
    requires Inv(cfg, s) && req in s.requests && s.requests[req].Waiting?
    ensures var g := s.requests[req].g;
            g.jti in s.issued && (g.jti in s.db.grants <==> s.issued[g.jti].fate.Live?) && (g.jti in s.db.grants ==> s.db.grants[g.jti] == g)
  {
    hide TokensInv, ChainInv, RetiredInv, RevokedInv;
    assert StageOk(s, s.requests[req]);
    if s.requests[req].g.jti in s.db.grants {
      RowIsOwn(cfg, s, s.requests[req].g.jti);
    }
  }

  /** And if it could finish, the spent token is never in a row again. */
  lemma SpentTokenNeverReturns(cfg: Config, states: seq<Sys>, actions: seq<Action>, i: nat, k: nat)
    requires ValidConfig(cfg) && IsRun(cfg, states, actions) && GivenOnce(actions) && i < |actions| && i < k < |states|
    requires actions[i].Answer? && actions[i].answer.NewPair? && actions[i].answer.identified && actions[i].answer.refresh != "" && actions[i].answer.stored
    ensures actions[i].req in states[i].requests && states[i].requests[actions[i].req].Waiting?
    ensures !InARow(states[k], states[i].requests[actions[i].req].g.gitHubRefresh)
  {
    RunStep(cfg, states, actions, i);
    assert Enabled(states[i], actions[i]);
    hide IsRun, Inv, Step, Traced, GivenOnce, Rotation;
    var a := actions[i];
    var g := states[i].requests[a.req].g;
    HoldingsAreTraced(cfg, states, actions, i, a.req);
    NotLiveAfter(cfg, states, actions, i, k);
    RunKeepsInv(cfg, states, actions, k);
    forall j | j in states[k].db.grants ensures states[k].db.grants[j].gitHubRefresh != g.gitHubRefresh {
      RowIsOwn(cfg, states[k], j);
      RowsAreTraced(cfg, states, actions, k, j);
      if states[k].db.grants[j].gitHubRefresh == g.gitHubRefresh {
        SameGitHubTokenSameJti(actions, i, g, k, states[k].db.grants[j]);
      }
    }
  }

  lemma NotLiveAfter(cfg: Config, states: seq<Sys>, actions: seq<Action>, i: nat, k: nat)
    requires ValidConfig(cfg) && IsRun(cfg, states, actions) && i < |actions| && i < k < |states|
    requires actions[i].Answer? && Complete(actions[i].answer) && actions[i].req in states[i].requests && states[i].requests[actions[i].req].Waiting?
    ensures var jti := states[i].requests[actions[i].req].g.jti; jti in states[k].issued && !states[k].issued[jti].fate.Live?
  {
    RunStep(cfg, states, actions, i);
    RunIsLater(cfg, states, actions, i + 1, k);
    hide IsRun, Inv, Step, Rotation;
    var s, t, a := states[i], states[i + 1], actions[i];
    AnswerLeads(cfg, s, a.req, a.answer, a.jti, a.token);
    WaitingRow(cfg, s, a.req);
    var g := s.requests[a.req].g;
    RotationFate(cfg, s, a.req, g, Successor(g, s.now, a.jti, a.token, a.answer));
  }

  lemma RotationFate(cfg: Config, s: Sys, req: nat, g: Grant, n: Grant)
    requires g.jti in s.issued && n.jti !in s.issued
    ensures var t := Rotation(cfg, s, req, g, n); g.jti in t.issued && t.issued[g.jti].fate == RotatedTo(n.jti, s.now)
  {
  }

  // ---------- what each request and each answer leads to ----------

  /** A refresh request goes on to GitHub exactly with the live token of a grant of its own client,
      while GitHub's token is there and unexpired; a grant that says nothing of its client, or whose
      GitHub token has expired, is torn down, and no other. A token that is in no row may be a
      retry. */
  lemma BeginsAnswer(cfg: Config, s: Sys, req: nat, token: Token, client: string, readable: bool)
    requires Inv(cfg, s) && req !in s.requests
    ensures var t := Step(cfg, s, Begin(req, token, client, readable));
            && t == s.(requests := t.requests) && t.requests.Keys == s.requests.Keys + {req}
            && var stage := t.requests[req];
               if !(token in s.jtiOf && s.jtiOf[token] in s.db.grants) then stage == Retrying(token, client)
               else
                 var g := s.db.grants[s.jtiOf[token]];
                 && g.token == token
                 && if !readable then stage == Done(Refused(Undecryptable))
                    else if g.clientId == "" then stage == Revoking(g, ClientBindingMissing)
                    else if g.clientId != client then stage == Done(Refused(ClientMismatch))
                    else if g.gitHubRefresh == "" then stage == Done(Refused(NoGitHubToken))
                    else if g.gitHubExpiry.Some? && s.now > g.gitHubExpiry.value then stage == Revoking(g, GitHubExpired)
                    else stage == Waiting(g, client)
  {
    var found := FindByToken(s.db, token);
    if found.Some? {
      RowIsOwn(cfg, s, found.value);
    }
    if token in s.jtiOf && s.jtiOf[token] in s.db.grants {
      RowIsOwn(cfg, s, s.jtiOf[token]);
    }
    TokenNamesRow(cfg, s, token);
    hide Inv;
  }

  /** A token is in a row exactly if the jti it was issued with is, and then in that row. */
  lemma TokenNamesRow(cfg: Config, s: Sys, token: Token)
    requires Inv(cfg, s)
    ensures FindByToken(s.db, token) == if token in s.jtiOf && s.jtiOf[token] in s.db.grants then Some(s.jtiOf[token]) else None
  {
    hide ChainInv, RetiredInv, RevokedInv, RequestsInv;
    var found := FindByToken(s.db, token);
    if found.Some? {
      RowIsOwn(cfg, s, found.value);
    }
    if token in s.jtiOf && s.jtiOf[token] in s.db.grants {
      RowIsOwn(cfg, s, s.jtiOf[token]);
    }
  }

  /** What GitHub answers decides: a rejected token, or a pair without a refresh token, and the grant
      is to be torn down; no new pair, or one that this server could not finish with, and nothing is
      changed; else the grant is rotated, if it still stands. */
  lemma AnswersDecide(cfg: Config, s: Sys, req: nat, answer: GitHub, jti: Jti, token: Token)
    requires Inv(cfg, s) && Enabled(s, Answer(req, answer, jti, token))
    ensures var g, t := s.requests[req].g, Step(cfg, s, Answer(req, answer, jti, token));
            && req in t.requests
            && match answer
               case BadRefreshToken => t == s.(requests := s.requests[req := Revoking(g, GitHubInvalid)])
               case Failed => t == s.(requests := s.requests[req := Done(Refused(ServerError))])
               case NewPair(refresh, expiry, identified, stored) =>
                 if !identified then t == s.(requests := s.requests[req := Done(Refused(ServerError))])
                 else if refresh == "" then t == s.(requests := s.requests[req := Revoking(g, GitHubMissingRefresh)])
                 else if !stored then t == s.(requests := s.requests[req := Done(Refused(ServerError))])
                 else if g.jti !in s.db.grants then t == s.(requests := s.requests[req := Done(Refused(AlreadyUsed))])
                 else
                   && t.requests[req] == Done(Issued(jti, token, s.now + 15 * 60 * SECOND))
                   && g.jti !in t.db.grants && jti in t.db.grants && t.db.grants.Keys == s.db.grants.Keys - {g.jti} + {jti}
                   && t.db.grants[jti] == g.(jti := jti, token := token, gitHubRefresh := refresh, gitHubExpiry := StoredIf(expiry),
                                             jwtExpiry := Stored(s.now + 15 * 60 * SECOND))
  {
    hide Step, Inv, Enabled, Rotation, Stored;
    AnswerLeads(cfg, s, req, answer, jti, token);
    WaitingRow(cfg, s, req);
    var g := s.requests[req].g;
    if Complete(answer) {
      RotationRows(cfg, s, req, g, Successor(g, s.now, jti, token, answer));
    }
  }

  predicate Remembered(db: Db, token: Token, r: Retired) {
    Sha256(token) in db.retired && db.retired[Sha256(token)] == r
  }

  /** A teardown that runs to its end leaves nothing of the grant it was for: its row is gone for good,
      its access token accepted no more. */
  lemma TeardownEnds(cfg: Config, states: seq<Sys>, actions: seq<Action>, i: nat, k: nat)
    requires ValidConfig(cfg) && IsRun(cfg, states, actions) && i < |actions| && actions[i].DropThen? && i < k < |states|
    ensures actions[i].req in states[i].requests && states[i].requests[actions[i].req].Dropping?
    ensures var g := states[i].requests[actions[i].req].g; g.jti in states[k].issued && g.jti !in states[k].db.grants
  {
    RunStep(cfg, states, actions, i);
    RunIsLater(cfg, states, actions, i + 1, k);
    RunKeepsInv(cfg, states, actions, k);
    DropEnds(cfg, states[i], actions[i].req);
    hide IsRun, Inv, Step;
    var g := states[i].requests[actions[i].req].g;
    if g.jti in states[k].db.grants {
      RowIsOwn(cfg, states[k], g.jti);
    }
  }

  /** The row goes if it still stood, and its token is remembered with the reason. */
  lemma DropEnds(cfg: Config, s: Sys, req: nat)
    requires ValidConfig(cfg) && Inv(cfg, s) && Enabled(s, DropThen(req))
    ensures var Dropping(g, reason) := s.requests[req];
            var t := Step(cfg, s, DropThen(req));
            && g.jti in t.issued && !t.issued[g.jti].fate.Live? && t.requests == s.requests[req := Done(Refused(Reauthorize))]
            && t.db.grants == s.db.grants - {g.jti} && t.db.revoked == s.db.revoked
            && if g.jti !in s.db.grants then t.db.retired == s.db.retired
               else Remembered(t.db, g.token, Retired(reason, g.clientId, g.jti, None, None, Stored(s.now + cfg.retention)))
  {
    hide TokensInv, ChainInv, RetiredInv, RevokedInv;
    assert StageOk(s, s.requests[req]);
    if s.requests[req].g.jti in s.db.grants {
      RowIsOwn(cfg, s, s.requests[req].g.jti);
    }
    StoredAscends(s.now, s.now + cfg.retention);
    hide Stored;
  }

  /** What a retry is told at its first lookup, by what became of the token and when. */
  lemma RetriesAnswer(cfg: Config, s: Sys, req: nat)
    requires Inv(cfg, s) && Enabled(s, Retry(req))
    ensures var Retrying(token, client) := s.requests[req];
            var t := Step(cfg, s, Retry(req));
            && t == s.(requests := t.requests) && t.requests.Keys == s.requests.Keys
            && var stage, hash := t.requests[req], Sha256(token);
               if !(hash in s.db.retired && s.db.retired[hash].retainedUntil > Stored(s.now)) then stage == Done(Refused(NeverSeen))
               else
                 && token in s.jtiOf && s.jtiOf[token] in s.issued
                 && var clientId := s.db.retired[hash].clientId;
                    match s.issued[s.jtiOf[token]].fate
                    case Live => false
                    case Gone => stage == Done(Refused(if clientId != "" && clientId != client then ClientMismatch else RecentlyRemoved))
                    case RotatedTo(next, at) =>
                      && clientId == s.issued[s.jtiOf[token]].clientId && clientId != ""
                      && if clientId != client then stage == Done(Refused(ClientMismatch))
                         else if cfg.grace <= 0 || s.now > Stored(at + cfg.grace) then stage == Done(Refused(GraceExpired))
                         else stage == Resolving(client, next)
  {
    hide Inv, Stored;
    var token := s.requests[req].token;
    if Sha256(token) in s.db.retired {
      RecordTells(cfg, s, Sha256(token));
    }
  }

  lemma RecordTells(cfg: Config, s: Sys, h: Hash)
    requires Inv(cfg, s) && h in s.db.retired
    ensures h.token in s.jtiOf && s.jtiOf[h.token] in s.issued
    ensures RecordOk(cfg, s.db.retired[h], s.jtiOf[h.token], s.issued[s.jtiOf[h.token]])
    ensures s.issued[s.jtiOf[h.token]].fate.RotatedTo? ==> s.issued[s.jtiOf[h.token]].clientId != ""
  {
    assert RecordFits(cfg, s, h);
    if s.issued[s.jtiOf[h.token]].fate.RotatedTo? {
      assert LinkOk(s, s.jtiOf[h.token]);
    }
  }

  // ---------- logins and operators ----------

  /** A login enters its grant and drops those of the same user and client whose access tokens have
      expired; every other row stays. */
  lemma LoginEnters(cfg: Config, s: Sys, g: Grant)
    requires Inv(cfg, s) && Enabled(s, Login(g))
    ensures var rows := Step(cfg, s, Login(g)).db.grants;
            && g.jti in rows && rows[g.jti] == g.(gitHubExpiry := StoredIf(g.gitHubExpiry), jwtExpiry := Stored(g.jwtExpiry))
            && forall j | j != g.jti ::
                 && (j in rows <==> (j in s.db.grants
                       && !(s.db.grants[j].user == g.user && s.db.grants[j].clientId == g.clientId && s.db.grants[j].jwtExpiry < Stored(s.now))))
                 && (j in rows ==> rows[j] == s.db.grants[j])
  {
    LoginStep(cfg, s, g);
    hide Step, Inv, Stored;
  }

  /** An operator's revocation ends the grant it names and no other: its row goes, and its refresh
      token is remembered as revoked by an operator. */
  lemma OperatorEndsGrant(cfg: Config, s: Sys, id: GrantId, j: Jti)
    requires ValidConfig(cfg) && Inv(cfg, s) && j in s.db.grants && s.db.grants[j].id == id
    ensures var g, t := s.db.grants[j], Step(cfg, s, Operator(id));
            && t.db.grants == s.db.grants - {j} && t.requests == s.requests
            && Remembered(t.db, g.token, Retired(OperatorRevoked, g.clientId, j, None, None, Stored(s.now + cfg.retention)))
  {
    hide Inv, FindById, RevokeOnce;
    var found := FindById(s.db, id);
    OneLiveTokenPerGrant(cfg, s, j, found.value);
    RowIsOwn(cfg, s, j);
    StoredAscends(s.now, s.now + cfg.retention);
    hide Stored;
  }

  // ---------- which tokens are accepted ----------

  ghost predicate WasRevoked(states: seq<Sys>, actions: seq<Action>, k: nat, jti: Jti)
    requires k < |states| && |states| == |actions| + 1
    requires forall i | 0 <= i < |actions| :: Enabled(states[i], actions[i])
  {
    exists i :: 0 <= i < k && jti in RevokedBy(states[i], actions[i])
  }

  lemma {:induction false} RevokedEverExactly(cfg: Config, states: seq<Sys>, actions: seq<Action>, k: nat, jti: Jti)
    requires ValidConfig(cfg) && IsRun(cfg, states, actions) && k < |states|
    ensures jti in states[k].revokedEver <==> WasRevoked(states, actions, k, jti)
  {
    if k > 0 {
      RevokedEverExactly(cfg, states, actions, k - 1, jti);
      RunStep(cfg, states, actions, k - 1);
      RevocationsAreRecorded(cfg, states[k - 1], actions[k - 1]);
    }
  }

  /** A token is accepted before the second it expires, and as long as no step has revoked its jti:
      by rotation, teardown, logout or operator. Nothing else makes it invalid, and nothing makes
      it valid again. */
  lemma AcceptedExactly(cfg: Config, states: seq<Sys>, actions: seq<Action>, k: nat, jti: Jti)
    requires ValidConfig(cfg) && IsRun(cfg, states, actions) && k < |states| && jti in states[k].issued
    ensures var expiry := states[k].issued[jti].expiry;
            Accepts(states[k].db, states[k].now, jti, expiry) <==>
              states[k].now < expiry - expiry % SECOND && !WasRevoked(states, actions, k, jti)
  {
    RunKeepsInv(cfg, states, actions, k);
    RevokedEverExactly(cfg, states, actions, k, jti);
    hide IsRun, WasRevoked;
    RevokedTells(cfg, states[k], jti);
  }

  lemma RevokedTells(cfg: Config, s: Sys, jti: Jti)
    requires Inv(cfg, s) && jti in s.issued
    ensures Accepts(s.db, s.now, jti, s.issued[jti].expiry) <==> s.now < Seconds(s.issued[jti].expiry) && jti !in s.revokedEver
  {
    hide RowsInv, TokensInv, ChainInv, RetiredInv, RequestsInv;
    StoredExpiryKeepsSecond(s.now);
  }
}
