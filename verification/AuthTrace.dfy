/**
  What the runs of the authorization-code flow come to: each access token and each grant behind
  one, in the words of the requests and of GitHub's answers that led to them.
 */
module AuthTrace {
  import opened Wrappers
  import opened Clock
  import opened Scopes
  import opened AuthState
  import opened AuthFlow
  import opened AuthProtocol
  import Json
  import Utf8
  import G = GrantStore
  import R = RefreshGrant

  // ---------- what was recorded was answered ----------

  /** This step brings GitHub's answer to the callback that took the state. */
  predicate Answers(s: Sys, a: Action, st: State) {
    a.GitHub? && a.req in s.waiting && s.waiting[a.req].state == st
  }

  /** The user whom the answer identifies, and GitHub's tokens, as the answer gives them. */
  predicate IsIdentity(d: Deployment, id: Identity, answer: Answer) {
    && answer.Identified?
    && id.access == answer.access && id.refresh == answer.refresh && id.expiry == answer.expiry
    && (d.userStore ==> answer.userId == Some(id.sub)) && (!d.userStore ==> id.sub == Json.Decimal(answer.gitHubId))
  }

  lemma NewOutcome(d: Deployment, s: Sys, a: Action, st: State)
    requires Enabled(s, a) && st in Step(d, s, a).h.outcomes && st !in s.h.outcomes
    ensures Answers(s, a, st)
    ensures var outcome := Step(d, s, a).h.outcomes[st]; !outcome.Nothing? ==> IsIdentity(d, outcome.id, a.answer)
  {
    if a.GitHub? {
      AnswerIsRecorded(d, s, a.req, a.answer, a.token, a.code);
    } else {
      OnlyAnswersDecide(d, s, a);
    }
    hide Step, Finishes;
  }

  lemma OnlyAnswersDecide(d: Deployment, s: Sys, a: Action)
    requires Enabled(s, a) && !a.GitHub?
    ensures Step(d, s, a).h.outcomes == s.h.outcomes
  {
    hide Authorize, Exchange, Decided, Pruned, Take, Unexpired, WellFormed;
    match a
    case Tick(_) => hide Asks, Takes, Decides, Exchanges;
    case Ask(_, _, _) => hide Takes, Decides, Exchanges;
    case Callback(_, _) => hide Asks, Decides, Exchanges;
    case Decide(_, _, _) => hide Asks, Takes, Exchanges;
    case TokenRequest(_, _, _) => hide Asks, Takes, Decides;
  }

  lemma AnswerIsRecorded(d: Deployment, s: Sys, req: Req, answer: Answer, token: ConfirmToken, code: Code)
    requires req in s.waiting
    ensures var st, after := s.waiting[req].state, Finishes(d, s, req, answer, token, code).h.outcomes;
            && st in after && (forall x | x in after :: x in s.h.outcomes || x == st)
            && (!after[st].Nothing? ==> IsIdentity(d, after[st].id, answer))
  {
    hide AfterGitHub, IdentityOf, IsIdentity;
    OnlyTheIdentifiedGoOn(d, s.db, s.now, s.waiting[req].pending, answer, token, code);
    match AfterGitHub(d, s.db, s.now, s.waiting[req].pending, answer, token, code).1
    case ConfirmationPage(_) =>
    case RedirectWithCode(_) =>
    case _ =>
  }

  lemma OnlyTheIdentifiedGoOn(d: Deployment, db: Tables, now: Time, p: PendingAuth, answer: Answer, token: ConfirmToken, code: Code)
    ensures var reply := AfterGitHub(d, db, now, p, answer, token, code).1;
            reply.ConfirmationPage? || reply.RedirectWithCode? ==>
              answer.Identified? && IdentityOf(d, answer).Some? && IsIdentity(d, IdentityOf(d, answer).value, answer)
  {
    hide IdentityOf, IsIdentity;
    if answer.Identified? && IdentityOf(d, answer).Some? {
      IdentityIsAnswered(d, answer);
    }
  }

  lemma IdentityIsAnswered(d: Deployment, answer: Answer)
    requires answer.Identified? && IdentityOf(d, answer).Some?
    ensures IsIdentity(d, IdentityOf(d, answer).value, answer)
  {
  }

  lemma {:induction false} OutcomeHasAnswer(d: Deployment, states: seq<Sys>, actions: seq<Action>, k: nat, st: State) returns (i: nat)
    requires IsRun(d, states, actions) && k < |states| && st in states[k].h.outcomes && !states[k].h.outcomes[st].Nothing?
    ensures i < k && Answers(states[i], actions[i], st) && IsIdentity(d, states[k].h.outcomes[st].id, actions[i].answer)
  {
    i := k - 1;
    NextGrows(d, states, actions, i);
    assert Enabled(states[i], actions[i]) && states[k] == Step(d, states[i], actions[i]);
    hide Step, Enabled, IsRun;
    if st in states[i].h.outcomes {
      i := OutcomeHasAnswer(d, states, actions, i, st);
    } else {
      NewOutcome(d, states[i], actions[i], st);
    }
  }

  lemma HandedIsBound(d: Deployment, s: Sys, code: Code) returns (st: State)
    requires Inv(d, s) && code in s.h.handed
    ensures StateOf(s.h, code) == Some(st) && st in s.h.requests && st in s.h.outcomes && !s.h.outcomes[st].Nothing?
    ensures CodeOf(s.h, code) == Some(CodeFor(s.h.requests[st].pending, s.h.outcomes[st].id))
    ensures RequestOk(d, s.h, st)
  {
    assert HandedOk(s.h, code);
    match s.h.handed[code].origin
    case Direct(state) =>
      st := state;
      assert OutcomeOk(s.h, st);
    case Approved(x) =>
      assert AskedOk(s.h, x);
      st := s.h.asked[x].state;
      assert OutcomeOk(s.h, st);
  }

  // ---------- tokens ----------

  /** A token is refreshable exactly if grants are stored, GitHub gave both its tokens when it was
      asked for this request, and the client the request named allows it; or nothing is known
      of clients. The token's subject is the user that answer identified. */
  lemma RefreshableExactly(d: Deployment, states: seq<Sys>, actions: seq<Action>, k: nat, jti: Jti) returns (st: State, i: nat)
    requires IsRun(d, states, actions) && k < |states| && jti in states[k].h.tokens
    ensures StateOf(states[k].h, states[k].h.tokens[jti].code) == Some(st) && st in states[k].h.requests
    ensures i < k && Answers(states[i], actions[i], st) && actions[i].answer.Identified?
    ensures var claims, answer := states[k].h.tokens[jti].claims, actions[i].answer;
            var Authorized(q, reg, _, _) := states[k].h.requests[st];
            && (d.userStore ==> answer.userId == Some(claims.sub)) && (!d.userStore ==> claims.sub == Json.Decimal(answer.gitHubId))
            && (claims.refreshable <==>
                  && d.grantStore && answer.access != "" && answer.refresh != ""
                  && if d.clientStore || d.resolver
                     then KnownClient(d, reg, q.clientId).Some? && KnownClient(d, reg, q.clientId).value.refreshAllowed
                     else true)
  {
    var s := states[k];
    RunKeepsInv(d, states, actions, k);
    assert TokenOk(d, s.h, jti);
    st := HandedIsBound(d, s, s.h.tokens[jti].code);
    i := OutcomeHasAnswer(d, states, actions, k, st);
    hide IsRun, Inv, Step, Authorize, Resolve;
    var Authorized(q, reg, p, _) := s.h.requests[st];
    AuthorizedExactly(d, reg, q);
    ResolvedExactly(d, reg, q.clientId, q.redirectUri);
  }

  /** A token's scope is what its request asked for, in that order and without repeats, or what
      its client registered where it asked for nothing. */
  lemma ScopeAsAskedFor(d: Deployment, s: Sys, jti: Jti) returns (st: State)
    requires Inv(d, s) && jti in s.h.tokens
    ensures StateOf(s.h, s.h.tokens[jti].code) == Some(st) && st in s.h.requests
    ensures var Authorized(q, reg, _, _) := s.h.requests[st];
            var client := if d.clientStore || d.resolver then KnownClient(d, reg, q.clientId) else None;
            && FirstAppearances(s.h.tokens[jti].claims.scope, if q.scope == [] then RegisteredScope(client) else q.scope)
            && (d.clientStore || d.resolver ==> client.Some? && Within(q.scope, Words(RegisteredScope(client))))
  {
    assert TokenOk(d, s.h, jti);
    st := HandedIsBound(d, s, s.h.tokens[jti].code);
    hide Inv, Authorize, Resolve, FirstAppearances, Within;
    var Authorized(q, reg, p, _) := s.h.requests[st];
    AuthorizedExactly(d, reg, q);
    ResolvedExactly(d, reg, q.clientId, q.redirectUri);
  }

  /** What a token request is answered: a token for the first presentation, within five minutes,
      of a code with the client, the redirect URI and the verifier of the request it goes back to;
      unless the code's tokens do not decrypt or the client_id is too long to sign. */
  lemma PresentedCodeAnswers(d: Deployment, s: Sys, x: Presented, readable: bool) returns (st: State)
    requires Inv(d, s)
    ensures var reply := Exchange(d, s.db, s.now, x, readable).1;
            if x.code.None? || x.verifier == "" || x.clientId == "" then reply == InvalidTokenRequest
            else
              var code := x.code.value;
              if !(code in s.h.handed && code !in s.h.redemptions && s.now < s.h.handed[code].at + 300 * SECOND) then reply == InvalidGrant
              else
                && StateOf(s.h, code) == Some(st) && st in s.h.requests && st in s.h.outcomes && !s.h.outcomes[st].Nothing?
                && var q, id := s.h.requests[st].query, s.h.outcomes[st].id;
                   if !readable && (id.access != "" || id.refresh != "") then reply == TokenServerError
                   else if !(x.clientId == q.clientId && x.redirectUri == q.redirectUri && d.s256(x.verifier) == q.codeChallenge) then reply == InvalidGrant
                   else if |Utf8.Encode(x.clientId)| > 2048 then reply == TokenServerError
                   else reply.TokenIssued? && reply.claims.clientId == q.clientId && reply.claims.sub == id.sub
  {
    hide Inv;
    st := 0;
    if x.code.Some? {
      OpenExactly(d, s, 0, Sha256(0), x.code.value);
      if Unexpired(s.db.codes, s.now, x.code.value) {
        st := CodeIsOfRequest(d, s, x.code.value);
      }
      hide Authorize, StateOf, CodeFor, Utf8.Encode;
    }
  }

  /** A code that can be presented carries what its request bound it to. */
  lemma CodeIsOfRequest(d: Deployment, s: Sys, code: Code) returns (st: State)
    requires Inv(d, s) && code in s.db.codes
    ensures code in s.h.handed && StateOf(s.h, code) == Some(st) && st in s.h.requests && st in s.h.outcomes && !s.h.outcomes[st].Nothing?
    ensures var c, q, id := s.db.codes[code].value, s.h.requests[st].query, s.h.outcomes[st].id;
            && c.clientId == q.clientId && c.redirectUri == q.redirectUri && c.codeChallenge == q.codeChallenge
            && c.scope == s.h.requests[st].pending.scope
            && c.sub == id.sub && c.gitHubAccess == id.access && c.gitHubRefresh == id.refresh && c.gitHubExpiry == id.expiry
  {
    RowsAt(s, 0, Sha256(0), code);
    st := HandedIsBound(d, s, code);
    hide Inv, Authorize;
    PendingEchoes(d, s.h.requests[st].registry, s.h.requests[st].query);
  }

  /** The grant behind a refresh token is its request's: the user and GitHub's refresh token of the
      answer, the client and the scope of the request, and the access token's jti and lifetime. */
  lemma GrantIsOfRequest(d: Deployment, states: seq<Sys>, actions: seq<Action>, k: nat, code: Code,
                         now: Time, user: G.User, jti: G.Jti, token: G.Token, id: G.GrantId) returns (st: State, i: nat)
    requires IsRun(d, states, actions) && k < |states| && code in states[k].db.codes
    ensures StateOf(states[k].h, code) == Some(st) && st in states[k].h.requests
    ensures i < k && Answers(states[i], actions[i], st) && actions[i].answer.Identified?
    ensures var g, answer := GrantFor(states[k].db.codes[code].value, now, user, jti, token, id), actions[i].answer;
            && g.jti == jti && g.token == token && g.id == id && g.user == user
            && g.clientId == states[k].h.requests[st].query.clientId
            && g.scope == Joined(states[k].h.requests[st].pending.scope)
            && g.gitHubRefresh == answer.refresh && g.gitHubExpiry == answer.expiry
            && g.jwtExpiry == now + 15 * 60 * SECOND
  {
    var s := states[k];
    RunKeepsInv(d, states, actions, k);
    st := CodeIsOfRequest(d, s, code);
    i := OutcomeHasAnswer(d, states, actions, k, st);
    hide IsRun, Inv, Step;
  }
}
