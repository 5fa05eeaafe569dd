/**
  Any number of authorizations, callbacks, decisions and token requests, interleaved at every
  transaction. The history `h` records what each handler itself knew when it acted; no decision
  reads it. Fresh states, confirmation tokens, codes and jtis are the environment's choice, and so
  is whether a code's tokens can be decrypted when it is consumed. Time is the database's.
 */
module AuthProtocol {
  import opened Wrappers
  import opened Clock
  import opened Scopes
  import opened AuthState
  import opened AuthFlow
  import G = GrantStore
  import R = RefreshGrant
  import P = RefreshProtocol

  type Jti = nat
  type Req = nat

  datatype Authorized = Authorized(query: Query, registry: Registry, pending: PendingAuth, at: Time)
  datatype Taken = Taken(req: Req, at: Time)
  datatype Outcome = Nothing | Asked(id: Identity, hash: Hash) | Coded(id: Identity, code: Code)
  datatype Asking = Asking(state: State, at: Time)
  datatype Decision = Decision(code: Option<Code>, at: Time)
  datatype Origin = Direct(state: State) | Approved(hash: Hash)
  datatype Handed = Handed(origin: Origin, at: Time)
  datatype Redemption = Redemption(token: Option<Jti>, at: Time)
  datatype Token = Token(claims: Claims, code: Code, presented: Presented)

  datatype History = History(
    requests: map<State, Authorized>,       // by the authorization handler
    taken: map<State, Taken>,               // by the callback that consumed the state
    outcomes: map<State, Outcome>,          // by that callback, after GitHub
    asked: map<Hash, Asking>,               // by that callback, when it shows the confirmation page
    decisions: map<Hash, Decision>,         // by the confirmation handler
    handed: map<Code, Handed>,              // by whoever stores the code
    redemptions: map<Code, Redemption>,     // by the token handler that consumed the code
    tokens: map<Jti, Token>)                // by that token handler

  datatype Waiting = Waiting(state: State, pending: PendingAuth)

  datatype Sys = Sys(now: Time, db: Tables, waiting: map<Req, Waiting>, reqs: set<Req>, h: History)

  const NO_HISTORY := History(map[], map[], map[], map[], map[], map[], map[], map[])
  const INIT := Sys(0, Tables(map[], map[], map[]), map[], {}, NO_HISTORY)

  datatype Action =
    | Tick(d: nat)
    | Ask(reg: Registry, q: Query, state: State)
    | Callback(req: Req, state: State)
    | GitHub(req: Req, answer: Answer, token: ConfirmToken, code: Code)
    | Decide(token: ConfirmToken, approve: bool, code: Code)
    | TokenRequest(x: Presented, readable: bool, jti: Jti)

  predicate Enabled(s: Sys, a: Action) {
    match a
    case Tick(_) => true
    case Ask(_, _, state) => state !in s.h.requests
    case Callback(req, _) => req !in s.reqs
    case GitHub(req, _, token, code) => req in s.waiting && Sha256(token) !in s.h.asked && code !in s.h.handed
    case Decide(_, _, code) => code !in s.h.handed
    case TokenRequest(_, _, jti) => jti !in s.h.tokens
  }

  ghost function Asks(d: Deployment, s: Sys, reg: Registry, q: Query, state: State): (t: Sys) {
    match Authorize(d, reg, q)
    case Failure(_) => s
    case Success(p) =>
      if state in s.db.pendings then s
      else s.(db := s.db.(pendings := Pruned(s.db.pendings[state := Row(p, s.now + PENDING_TTL)], s.now)),
              h := s.h.(requests := s.h.requests[state := Authorized(q, reg, p, s.now)]))
  }

  function Takes(s: Sys, req: Req, state: State): (t: Sys) {
    if !Unexpired(s.db.pendings, s.now, state) then s.(reqs := s.reqs + {req})
    else s.(db := s.db.(pendings := Take(s.db.pendings, s.now, state)),
            waiting := s.waiting[req := Waiting(state, s.db.pendings[state].value)],
            reqs := s.reqs + {req},
            h := s.h.(taken := s.h.taken[state := Taken(req, s.now)]))
  }

  function Finishes(d: Deployment, s: Sys, req: Req, answer: Answer, token: ConfirmToken, code: Code): (t: Sys)
    requires req in s.waiting
  {
    var Waiting(state, p) := s.waiting[req];
    var (db, reply) := AfterGitHub(d, s.db, s.now, p, answer, token, code);
    var h := match reply
             case ConfirmationPage(_) =>
               s.h.(outcomes := s.h.outcomes[state := Asked(IdentityOf(d, answer).value, Sha256(token))],
                    asked := s.h.asked[Sha256(token) := Asking(state, s.now)])
             case RedirectWithCode(_) =>
               s.h.(outcomes := s.h.outcomes[state := Coded(IdentityOf(d, answer).value, code)],
                    handed := s.h.handed[code := Handed(Direct(state), s.now)])
             case _ => s.h.(outcomes := s.h.outcomes[state := Nothing]);
    s.(db := db, waiting := s.waiting - {req}, h := h)
  }

  function Decides(s: Sys, token: ConfirmToken, approve: bool, code: Code): (t: Sys) {
    var hash := Sha256(token);
    if !Unexpired(s.db.confirmations, s.now, hash) || (approve && code in s.db.codes) then s
    else s.(db := Decided(s.db, s.now, hash, approve, code),
            h := s.h.(decisions := s.h.decisions[hash := Decision(if approve then Some(code) else None, s.now)],
                      handed := if approve then s.h.handed[code := Handed(Approved(hash), s.now)] else s.h.handed))
  }

  function Exchanges(d: Deployment, s: Sys, x: Presented, readable: bool, jti: Jti): (t: Sys) {
    var (db, reply) := Exchange(d, s.db, s.now, x, readable);
    if !ConsumesCode(s, x) then s.(db := db)
    else
      var code := x.code.value;
      s.(db := db,
         h := s.h.(redemptions := s.h.redemptions[code := Redemption(if reply.TokenIssued? then Some(jti) else None, s.now)],
                   tokens := if reply.TokenIssued? then s.h.tokens[jti := Token(reply.claims, code, x)] else s.h.tokens))
  }

  predicate ConsumesCode(s: Sys, x: Presented) {
    WellFormed(x) && Unexpired(s.db.codes, s.now, x.code.value)
  }

  ghost function Step(d: Deployment, s: Sys, a: Action): (t: Sys)
    requires Enabled(s, a)
  {
    match a
    case Tick(n) => s.(now := s.now + n)
    case Ask(reg, q, state) => Asks(d, s, reg, q, state)
    case Callback(req, state) => Takes(s, req, state)
    case GitHub(req, answer, token, code) => Finishes(d, s, req, answer, token, code)
    case Decide(token, approve, code) => Decides(s, token, approve, code)
    case TokenRequest(x, readable, jti) => Exchanges(d, s, x, readable, jti)
  }

  // ---------- the invariant: what the history says ----------

  ghost predicate RequestOk(d: Deployment, h: History, st: State)
    requires st in h.requests
  {
    Authorize(d, h.requests[st].registry, h.requests[st].query) == Success(h.requests[st].pending)
  }

  predicate TakenOk(h: History, st: State)
    requires st in h.taken
  {
    st in h.requests && h.requests[st].at <= h.taken[st].at < h.requests[st].at + PENDING_TTL
  }

  predicate OutcomeOk(h: History, st: State)
    requires st in h.outcomes
  {
    && st in h.taken && st in h.requests
    && match h.outcomes[st]
       case Nothing => true
       case Asked(_, hash) => hash in h.asked && h.asked[hash].state == st && h.requests[st].pending.confirmationRequired
       case Coded(_, code) => code in h.handed && h.handed[code].origin == Direct(st) && !h.requests[st].pending.confirmationRequired
  }

  predicate AskedOk(h: History, x: Hash)
    requires x in h.asked
  {
    var st := h.asked[x].state;
    st in h.outcomes && h.outcomes[st].Asked? && h.outcomes[st].hash == x
  }

  predicate DecisionOk(h: History, x: Hash)
    requires x in h.decisions
  {
    && x in h.asked && h.asked[x].at <= h.decisions[x].at < h.asked[x].at + CONFIRMATION_TTL
    && (h.decisions[x].code.Some? ==>
          h.decisions[x].code.value in h.handed
          && h.handed[h.decisions[x].code.value] == Handed(Approved(x), h.decisions[x].at))
  }

  /** The code has one origin, which says it handed out this code. */
  predicate HandedOk(h: History, code: Code)
    requires code in h.handed
  {
    match h.handed[code].origin
    case Direct(st) => st in h.outcomes && h.outcomes[st].Coded? && h.outcomes[st].code == code
    case Approved(x) => x in h.asked && x in h.decisions && h.decisions[x].code == Some(code)
  }

  predicate RedemptionOk(h: History, c: Code)
    requires c in h.redemptions
  {
    && c in h.handed && h.handed[c].at <= h.redemptions[c].at < h.handed[c].at + CODE_TTL
    && (h.redemptions[c].token.Some? ==>
          h.redemptions[c].token.value in h.tokens && h.tokens[h.redemptions[c].token.value].code == c)
  }

  predicate TokenOk(d: Deployment, h: History, j: Jti)
    requires j in h.tokens
  {
    var t := h.tokens[j];
    && t.presented.code == Some(t.code) && WellFormed(t.presented)
    && t.code in h.redemptions && h.redemptions[t.code].token == Some(j)
    && CodeOf(h, t.code).Some?
    && Proves(d, CodeOf(h, t.code).value, t.presented)
    && t.claims == ClaimsFor(d, CodeOf(h, t.code).value)
  }

  ghost predicate HistoryInv(d: Deployment, h: History) {
    && (forall st | st in h.requests :: RequestOk(d, h, st))
    && (forall st | st in h.taken :: TakenOk(h, st))
    && (forall st | st in h.outcomes :: OutcomeOk(h, st))
    && (forall x | x in h.asked :: AskedOk(h, x))
    && (forall x | x in h.decisions :: DecisionOk(h, x))
    && (forall c | c in h.handed :: HandedOk(h, c))
    && (forall c | c in h.redemptions :: RedemptionOk(h, c))
    && (forall j | j in h.tokens :: TokenOk(d, h, j))
  }

  /** The authorization request a code goes back to. */
  function StateOf(h: History, code: Code): (st: Option<State>) {
    if code !in h.handed then None
    else match h.handed[code].origin
      case Direct(st) => Some(st)
      case Approved(x) => if x in h.asked then Some(h.asked[x].state) else None
  }

  /** What was requested there, for the user GitHub identified there. */
  function Bound(h: History, st: State): (c: Option<AuthCode>) {
    if st in h.requests && st in h.outcomes && !h.outcomes[st].Nothing?
    then Some(CodeFor(h.requests[st].pending, h.outcomes[st].id)) else None
  }

  function CodeOf(h: History, code: Code): (c: Option<AuthCode>) {
    match StateOf(h, code) case None => None case Some(st) => Bound(h, st)
  }

  // ---------- the invariant: the tables hold exactly what the history leaves open ----------

  predicate PendingRow(s: Sys, st: State) {
    && st in s.db.pendings && st in s.h.requests && st !in s.h.taken && s.h.requests[st].at <= s.now
    && s.db.pendings[st] == Row(s.h.requests[st].pending, s.h.requests[st].at + PENDING_TTL)
  }

  ghost predicate PendingInv(s: Sys) {
    && (forall st | st in s.db.pendings :: PendingRow(s, st))
    && (forall st | st in s.h.requests && st !in s.h.taken && s.now <= s.h.requests[st].at + PENDING_TTL :: st in s.db.pendings)
  }

  /** A taken state is in the hands of the one callback that took it, until that finishes. */
  predicate InHand(s: Sys, r: Req)
    requires r in s.waiting
  {
    var st := s.waiting[r].state;
    && r in s.reqs && st in s.h.requests && s.waiting[r].pending == s.h.requests[st].pending
    && st in s.h.taken && s.h.taken[st].req == r && st !in s.h.outcomes
  }

  ghost predicate WaitingInv(s: Sys) {
    && (forall r | r in s.waiting :: InHand(s, r))
    && (forall st | st in s.h.taken :: s.h.taken[st].req in s.reqs)
  }

  predicate ConfirmRow(s: Sys, x: Hash) {
    && x in s.db.confirmations && x in s.h.asked && x !in s.h.decisions && s.h.asked[x].at <= s.now
    && var st := s.h.asked[x].state;
       st in s.h.requests && Bound(s.h, st).Some?
       && s.db.confirmations[x] == Row(Confirmation(Bound(s.h, st).value, s.h.requests[st].pending.clientState), s.h.asked[x].at + CONFIRMATION_TTL)
  }

  ghost predicate ConfirmInv(s: Sys) {
    && (forall x | x in s.db.confirmations :: ConfirmRow(s, x))
    && (forall x | x in s.h.asked && x !in s.h.decisions && s.now <= s.h.asked[x].at + CONFIRMATION_TTL :: x in s.db.confirmations)
  }

  predicate CodeRow(s: Sys, c: Code) {
    && c in s.db.codes && c in s.h.handed && c !in s.h.redemptions && s.h.handed[c].at <= s.now
    && CodeOf(s.h, c).Some? && s.db.codes[c] == Row(CodeOf(s.h, c).value, s.h.handed[c].at + CODE_TTL)
  }

  ghost predicate CodeInv(s: Sys) {
    && (forall c | c in s.db.codes :: CodeRow(s, c))
    && (forall c | c in s.h.handed && c !in s.h.redemptions && s.now <= s.h.handed[c].at + CODE_TTL :: c in s.db.codes)
  }

  ghost predicate Inv(d: Deployment, s: Sys) {
    HistoryInv(d, s.h) && PendingInv(s) && WaitingInv(s) && ConfirmInv(s) && CodeInv(s)
  }

  // ---------- history only grows ----------

  predicate Sub<K, V(==)>(m: map<K, V>, n: map<K, V>) {
    forall k | k in m :: k in n && n[k] == m[k]
  }

  ghost predicate Grows(h: History, k: History) {
    && (forall x | x in h.requests :: x in k.requests && k.requests[x] == h.requests[x])
    && Sub(h.taken, k.taken) && Sub(h.outcomes, k.outcomes)
    && Sub(h.asked, k.asked) && Sub(h.decisions, k.decisions) && Sub(h.handed, k.handed)
    && Sub(h.redemptions, k.redemptions) && Sub(h.tokens, k.tokens)
  }

  lemma BoundGrows(h: History, k: History, code: Code)
    requires Grows(h, k) && CodeOf(h, code).Some?
    ensures StateOf(k, code) == StateOf(h, code) && CodeOf(k, code) == CodeOf(h, code)
  {
  }

  /** What held of an old entry still holds; so only the new entries are to be looked at. */
  lemma GrowthKeepsHistory(d: Deployment, h: History, k: History)
    requires HistoryInv(d, h) && Grows(h, k)
    requires forall st | st in k.requests && st !in h.requests :: RequestOk(d, k, st)
    requires forall st | st in k.taken && st !in h.taken :: TakenOk(k, st)
    requires forall st | st in k.outcomes && st !in h.outcomes :: OutcomeOk(k, st)
    requires forall x | x in k.asked && x !in h.asked :: AskedOk(k, x)
    requires forall x | x in k.decisions && x !in h.decisions :: DecisionOk(k, x)
    requires forall c | c in k.handed && c !in h.handed :: HandedOk(k, c)
    requires forall c | c in k.redemptions && c !in h.redemptions :: RedemptionOk(k, c)
    requires forall j | j in k.tokens && j !in h.tokens :: TokenOk(d, k, j)
    ensures HistoryInv(d, k)
  {
    forall st | st in h.requests ensures RequestOk(d, k, st) { assert RequestOk(d, h, st); }
    forall st | st in h.taken ensures TakenOk(k, st) { assert TakenOk(h, st); }
    forall st | st in h.outcomes ensures OutcomeOk(k, st) { assert OutcomeOk(h, st); }
    forall x | x in h.asked ensures AskedOk(k, x) { assert AskedOk(h, x); }
    forall x | x in h.decisions ensures DecisionOk(k, x) { assert DecisionOk(h, x); }
    forall c | c in h.handed ensures HandedOk(k, c) { assert HandedOk(h, c); }
    forall c | c in h.redemptions ensures RedemptionOk(k, c) { assert RedemptionOk(h, c); }
    forall j | j in h.tokens ensures TokenOk(d, k, j) {
      assert TokenOk(d, h, j);
      BoundGrows(h, k, h.tokens[j].code);
    }
  }

  lemma NothingUnknown(d: Deployment, h: History)
    requires HistoryInv(d, h)
    ensures h.taken.Keys <= h.requests.Keys && h.outcomes.Keys <= h.taken.Keys
    ensures h.decisions.Keys <= h.asked.Keys && h.redemptions.Keys <= h.handed.Keys
  {
    assert forall st | st in h.taken :: TakenOk(h, st);
    assert forall st | st in h.outcomes :: OutcomeOk(h, st);
    assert forall x | x in h.decisions :: DecisionOk(h, x);
    assert forall c | c in h.redemptions :: RedemptionOk(h, c);
  }

  // ---------- a table no step touched keeps its part ----------

  lemma ConfirmationsUntouched(s: Sys, t: Sys)
    requires ConfirmInv(s) && Grows(s.h, t.h) && s.now <= t.now
    requires t.db.confirmations == s.db.confirmations && t.h.asked == s.h.asked && t.h.decisions == s.h.decisions
    ensures ConfirmInv(t)
  {
    forall x | x in t.db.confirmations ensures ConfirmRow(t, x) { assert ConfirmRow(s, x); }
  }

  lemma CodesUntouched(s: Sys, t: Sys)
    requires CodeInv(s) && Grows(s.h, t.h) && s.now <= t.now
    requires t.db.codes == s.db.codes && t.h.handed == s.h.handed && t.h.redemptions == s.h.redemptions
    ensures CodeInv(t)
  {
    forall c | c in t.db.codes ensures CodeRow(t, c) {
      assert CodeRow(s, c);
      BoundGrows(s.h, t.h, c);
    }
  }

  lemma PendingsUntouched(s: Sys, t: Sys)
    requires PendingInv(s) && s.now <= t.now
    requires t.db.pendings == s.db.pendings && t.h.requests == s.h.requests && t.h.taken == s.h.taken
    ensures PendingInv(t)
  {
    forall st | st in t.db.pendings ensures PendingRow(t, st) { assert PendingRow(s, st); }
  }

  lemma WaitingUntouched(s: Sys, t: Sys)
    requires WaitingInv(s) && Grows(s.h, t.h) && t.waiting == s.waiting && s.reqs <= t.reqs
    requires t.h.taken == s.h.taken && t.h.outcomes == s.h.outcomes
    ensures WaitingInv(t)
  {
    forall r | r in t.waiting ensures InHand(t, r) { assert InHand(s, r); }
  }

  lemma RowsAt(s: Sys, st: State, x: Hash, c: Code)
    requires PendingInv(s) && ConfirmInv(s) && CodeInv(s)
    ensures st in s.db.pendings ==> PendingRow(s, st)
    ensures x in s.db.confirmations ==> ConfirmRow(s, x)
    ensures c in s.db.codes ==> CodeRow(s, c)
  {
  }

  lemma HandAt(s: Sys, req: Req)
    requires WaitingInv(s) && req in s.waiting
    ensures InHand(s, req)
  {
  }

  // ---------- the steps ----------

  lemma TickKeepsInv(d: Deployment, s: Sys, n: nat)
    requires Inv(d, s)
    ensures Inv(d, s.(now := s.now + n))
  {
    hide HistoryInv, PendingInv, WaitingInv, ConfirmInv, CodeInv;
    var t := s.(now := s.now + n);
    PendingsUntouched(s, t);
    WaitingUntouched(s, t);
    ConfirmationsUntouched(s, t);
    CodesUntouched(s, t);
  }

  lemma AskKeepsInv(d: Deployment, s: Sys, reg: Registry, q: Query, state: State)
    requires Inv(d, s) && state !in s.h.requests
    ensures Inv(d, Asks(d, s, reg, q, state)) && Grows(s.h, Asks(d, s, reg, q, state).h)
  {
    hide HistoryInv, PendingInv, WaitingInv, ConfirmInv, CodeInv, Authorize;
    var t := Asks(d, s, reg, q, state);
    if t != s {
      NothingUnknown(d, s.h);
      AskKeepsHistory(d, s.h, state, t.h.requests[state]);
      AskKeepsPendings(d, s, reg, q, state);
      WaitingUntouched(s, t);
      ConfirmationsUntouched(s, t);
      CodesUntouched(s, t);
    }
  }

  lemma AskKeepsHistory(d: Deployment, h: History, state: State, a: Authorized)
    requires HistoryInv(d, h) && state !in h.requests && Authorize(d, a.registry, a.query) == Success(a.pending)
    ensures var k := h.(requests := h.requests[state := a]); HistoryInv(d, k) && Grows(h, k)
  {
    hide HistoryInv, Authorize;
    GrowthKeepsHistory(d, h, h.(requests := h.requests[state := a]));
  }

  lemma AskKeepsPendings(d: Deployment, s: Sys, reg: Registry, q: Query, state: State)
    requires PendingInv(s) && state !in s.h.requests && state !in s.h.taken
    ensures PendingInv(Asks(d, s, reg, q, state))
  {
    hide Authorize;
    var t := Asks(d, s, reg, q, state);
    forall st | st in t.db.pendings ensures PendingRow(t, st) {
      assert st in s.db.pendings ==> PendingRow(s, st);
    }
  }

  lemma CallbackKeepsInv(d: Deployment, s: Sys, req: Req, state: State)
    requires Inv(d, s) && req !in s.reqs
    ensures Inv(d, Takes(s, req, state)) && Grows(s.h, Takes(s, req, state).h)
  {
    hide HistoryInv, PendingInv, WaitingInv, ConfirmInv, CodeInv;
    var t := Takes(s, req, state);
    RowsAt(s, state, Sha256(0), 0);
    NothingUnknown(d, s.h);
    CallbackKeepsHistory(d, s, req, state);
    CallbackKeepsPendings(s, req, state);
    CallbackKeepsWaiting(s, req, state);
    ConfirmationsUntouched(s, t);
    CodesUntouched(s, t);
  }

  lemma CallbackKeepsHistory(d: Deployment, s: Sys, req: Req, state: State)
    requires HistoryInv(d, s.h) && (Unexpired(s.db.pendings, s.now, state) ==> PendingRow(s, state))
    ensures HistoryInv(d, Takes(s, req, state).h) && Grows(s.h, Takes(s, req, state).h)
  {
    hide HistoryInv;
    GrowthKeepsHistory(d, s.h, Takes(s, req, state).h);
  }

  lemma CallbackKeepsPendings(s: Sys, req: Req, state: State)
    requires PendingInv(s) && req !in s.reqs
    ensures PendingInv(Takes(s, req, state))
  {
    var t := Takes(s, req, state);
    forall st | st in t.db.pendings ensures PendingRow(t, st) {
      assert PendingRow(s, st);
    }
  }

  lemma CallbackKeepsWaiting(s: Sys, req: Req, state: State)
    requires s.h.outcomes.Keys <= s.h.taken.Keys && PendingInv(s) && WaitingInv(s) && req !in s.reqs
    ensures WaitingInv(Takes(s, req, state))
  {
    var t := Takes(s, req, state);
    if Unexpired(s.db.pendings, s.now, state) {
      assert PendingRow(s, state);
    }
    forall r | r in t.waiting ensures InHand(t, r) {
      assert r in s.waiting ==> InHand(s, r);
    }
  }

  /** The callback shows the confirmation page. */
  function Shows(s: Sys, req: Req, id: Identity, hash: Hash): (t: Sys)
    requires req in s.waiting
  {
    var Waiting(st, p) := s.waiting[req];
    s.(db := s.db.(confirmations := Pruned(s.db.confirmations[hash := Row(Confirmation(CodeFor(p, id), p.clientState), s.now + CONFIRMATION_TTL)], s.now)),
       waiting := s.waiting - {req},
       h := s.h.(outcomes := s.h.outcomes[st := Asked(id, hash)], asked := s.h.asked[hash := Asking(st, s.now)]))
  }

  /** The callback hands the code out at once. */
  function Hands(s: Sys, req: Req, id: Identity, code: Code): (t: Sys)
    requires req in s.waiting
  {
    var Waiting(st, p) := s.waiting[req];
    s.(db := s.db.(codes := Pruned(s.db.codes[code := Row(CodeFor(p, id), s.now + CODE_TTL)], s.now)),
       waiting := s.waiting - {req},
       h := s.h.(outcomes := s.h.outcomes[st := Coded(id, code)], handed := s.h.handed[code := Handed(Direct(st), s.now)]))
  }

  /** The callback fails; the state stays consumed. */
  function Burns(s: Sys, req: Req): (t: Sys)
    requires req in s.waiting
  {
    s.(waiting := s.waiting - {req}, h := s.h.(outcomes := s.h.outcomes[s.waiting[req].state := Nothing]))
  }

  lemma WaitingShrinks(s: Sys, t: Sys, req: Req)
    requires WaitingInv(s) && req in s.waiting && t.waiting == s.waiting - {req} && t.reqs == s.reqs
    requires t.h.taken == s.h.taken && t.h.requests == s.h.requests
    requires t.h.outcomes.Keys == s.h.outcomes.Keys + {s.waiting[req].state}
    ensures WaitingInv(t)
  {
    assert InHand(s, req);
    forall r | r in t.waiting ensures InHand(t, r) {
      assert InHand(s, r);
    }
  }

  lemma BurnsKeepsInv(d: Deployment, s: Sys, req: Req)
    requires Inv(d, s) && req in s.waiting
    ensures Inv(d, Burns(s, req)) && Grows(s.h, Burns(s, req).h)
  {
    hide HistoryInv, PendingInv, WaitingInv, ConfirmInv, CodeInv;
    var t := Burns(s, req);
    HandAt(s, req);
    BurnsKeepsHistory(d, s, req);
    PendingsUntouched(s, t);
    WaitingShrinks(s, t, req);
    ConfirmationsUntouched(s, t);
    CodesUntouched(s, t);
  }

  lemma BurnsKeepsHistory(d: Deployment, s: Sys, req: Req)
    requires HistoryInv(d, s.h) && req in s.waiting && InHand(s, req)
    ensures HistoryInv(d, Burns(s, req).h) && Grows(s.h, Burns(s, req).h)
  {
    hide HistoryInv;
    GrowthKeepsHistory(d, s.h, Burns(s, req).h);
  }

  lemma ShowsKeepsInv(d: Deployment, s: Sys, req: Req, id: Identity, hash: Hash)
    requires Inv(d, s) && req in s.waiting && hash !in s.h.asked && s.waiting[req].pending.confirmationRequired
    ensures Inv(d, Shows(s, req, id, hash)) && Grows(s.h, Shows(s, req, id, hash).h)
  {
    hide HistoryInv, PendingInv, WaitingInv, ConfirmInv, CodeInv;
    var t := Shows(s, req, id, hash);
    HandAt(s, req);
    NothingUnknown(d, s.h);
    ShowsKeepsHistory(d, s, req, id, hash);
    PendingsUntouched(s, t);
    WaitingShrinks(s, t, req);
    ShowsKeepsConfirmations(s, req, id, hash);
    CodesUntouched(s, t);
  }

  lemma ShowsKeepsHistory(d: Deployment, s: Sys, req: Req, id: Identity, hash: Hash)
    requires HistoryInv(d, s.h) && req in s.waiting && InHand(s, req) && hash !in s.h.asked && s.waiting[req].pending.confirmationRequired
    ensures HistoryInv(d, Shows(s, req, id, hash).h) && Grows(s.h, Shows(s, req, id, hash).h)
  {
    hide HistoryInv, RequestOk, TakenOk, DecisionOk, HandedOk, RedemptionOk, TokenOk;
    GrowthKeepsHistory(d, s.h, Shows(s, req, id, hash).h);
  }

  lemma ShowsKeepsConfirmations(s: Sys, req: Req, id: Identity, hash: Hash)
    requires ConfirmInv(s) && req in s.waiting && InHand(s, req) && hash !in s.h.asked && hash !in s.h.decisions
    ensures ConfirmInv(Shows(s, req, id, hash))
  {
    var t := Shows(s, req, id, hash);
    forall x | x in t.db.confirmations ensures ConfirmRow(t, x) {
      assert x in s.db.confirmations ==> ConfirmRow(s, x);
    }
  }

  lemma HandsKeepsInv(d: Deployment, s: Sys, req: Req, id: Identity, code: Code)
    requires Inv(d, s) && req in s.waiting && code !in s.h.handed && !s.waiting[req].pending.confirmationRequired
    ensures Inv(d, Hands(s, req, id, code)) && Grows(s.h, Hands(s, req, id, code).h)
  {
    hide HistoryInv, PendingInv, WaitingInv, ConfirmInv, CodeInv;
    var t := Hands(s, req, id, code);
    HandAt(s, req);
    NothingUnknown(d, s.h);
    HandsKeepsHistory(d, s, req, id, code);
    PendingsUntouched(s, t);
    WaitingShrinks(s, t, req);
    ConfirmationsUntouched(s, t);
    CodesGain(s, t, code);
  }

  lemma HandsKeepsHistory(d: Deployment, s: Sys, req: Req, id: Identity, code: Code)
    requires HistoryInv(d, s.h) && req in s.waiting && InHand(s, req) && code !in s.h.handed && !s.waiting[req].pending.confirmationRequired
    ensures HistoryInv(d, Hands(s, req, id, code).h) && Grows(s.h, Hands(s, req, id, code).h)
  {
    hide HistoryInv, RequestOk, TakenOk, AskedOk, DecisionOk, RedemptionOk, TokenOk;
    GrowthKeepsHistory(d, s.h, Hands(s, req, id, code).h);
  }

  /** One more code is handed out; expired ones may go. */
  lemma CodesGain(s: Sys, t: Sys, code: Code)
    requires CodeInv(s) && Grows(s.h, t.h) && s.now == t.now && code !in s.h.handed && code !in s.h.redemptions
    requires code in t.h.handed && t.h.handed == s.h.handed[code := t.h.handed[code]] && t.h.handed[code].at == s.now
    requires t.h.redemptions == s.h.redemptions && CodeOf(t.h, code).Some?
    requires var all := s.db.codes[code := Row(CodeOf(t.h, code).value, s.now + CODE_TTL)];
             t.db.codes == all || t.db.codes == Pruned(all, s.now)
    ensures CodeInv(t)
  {
    forall c | c in t.db.codes ensures CodeRow(t, c) {
      if c != code {
        assert CodeRow(s, c);
        BoundGrows(s.h, t.h, c);
      }
    }
    assert forall c | c in s.db.codes :: CodeRow(s, c);
  }

  lemma GitHubKeepsInv(d: Deployment, s: Sys, req: Req, answer: Answer, token: ConfirmToken, code: Code)
    requires Inv(d, s) && Enabled(s, GitHub(req, answer, token, code))
    ensures Inv(d, Finishes(d, s, req, answer, token, code)) && Grows(s.h, Finishes(d, s, req, answer, token, code).h)
  {
    hide HistoryInv, PendingInv, WaitingInv, ConfirmInv, CodeInv, Grows;
    RowsAt(s, 0, Sha256(token), code);
    if !answer.Identified? || IdentityOf(d, answer).None? {
      BurnsKeepsInv(d, s, req);
    } else if s.waiting[req].pending.confirmationRequired {
      ShowsKeepsInv(d, s, req, IdentityOf(d, answer).value, Sha256(token));
    } else {
      HandsKeepsInv(d, s, req, IdentityOf(d, answer).value, code);
    }
  }

  lemma DecideKeepsInv(d: Deployment, s: Sys, token: ConfirmToken, approve: bool, code: Code)
    requires Inv(d, s) && code !in s.h.handed
    ensures Inv(d, Decides(s, token, approve, code)) && Grows(s.h, Decides(s, token, approve, code).h)
  {
    hide HistoryInv, PendingInv, WaitingInv, ConfirmInv, CodeInv;
    var t := Decides(s, token, approve, code);
    if t != s {
      hide Grows;
      RowsAt(s, 0, Sha256(token), code);
      NothingUnknown(d, s.h);
      DecideKeepsHistory(d, s, token, approve, code);
      DecideKeepsConfirmations(s, token, approve, code);
      PendingsUntouched(s, t);
      WaitingUntouched(s, t);
      if approve {
        CodesGain(s, t, code);
      } else {
        CodesUntouched(s, t);
      }
    }
  }

  lemma DecideKeepsHistory(d: Deployment, s: Sys, token: ConfirmToken, approve: bool, code: Code)
    requires HistoryInv(d, s.h) && code !in s.h.handed
    requires Unexpired(s.db.confirmations, s.now, Sha256(token)) ==> ConfirmRow(s, Sha256(token))
    ensures HistoryInv(d, Decides(s, token, approve, code).h) && Grows(s.h, Decides(s, token, approve, code).h)
  {
    hide HistoryInv, RequestOk, TakenOk, OutcomeOk, AskedOk, RedemptionOk, TokenOk;
    GrowthKeepsHistory(d, s.h, Decides(s, token, approve, code).h);
  }

  lemma DecideKeepsConfirmations(s: Sys, token: ConfirmToken, approve: bool, code: Code)
    requires ConfirmInv(s)
    ensures ConfirmInv(Decides(s, token, approve, code))
  {
    hide CodeFor;
    var t := Decides(s, token, approve, code);
    forall x | x in t.db.confirmations ensures ConfirmRow(t, x) {
      assert ConfirmRow(s, x);
    }
  }

  lemma ExchangeKeepsInv(d: Deployment, s: Sys, x: Presented, readable: bool, jti: Jti)
    requires Inv(d, s) && jti !in s.h.tokens
    ensures Inv(d, Exchanges(d, s, x, readable, jti)) && Grows(s.h, Exchanges(d, s, x, readable, jti).h)
  {
    hide HistoryInv, PendingInv, WaitingInv, ConfirmInv, CodeInv;
    var t := Exchanges(d, s, x, readable, jti);
    RowsAt(s, 0, Sha256(0), if x.code.Some? then x.code.value else 0);
    ExchangeKeepsHistory(d, s, x, readable, jti);
    ExchangeKeepsCodes(d, s, x, readable, jti);
    PendingsUntouched(s, t);
    WaitingUntouched(s, t);
    ConfirmationsUntouched(s, t);
  }

  lemma ExchangeKeepsHistory(d: Deployment, s: Sys, x: Presented, readable: bool, jti: Jti)
    requires HistoryInv(d, s.h) && jti !in s.h.tokens && (ConsumesCode(s, x) ==> CodeRow(s, x.code.value))
    ensures HistoryInv(d, Exchanges(d, s, x, readable, jti).h) && Grows(s.h, Exchanges(d, s, x, readable, jti).h)
  {
    if ConsumesCode(s, x) {
      hide HistoryInv, Exchanges, Grows, RequestOk, TakenOk, OutcomeOk, AskedOk, DecisionOk, HandedOk, RedemptionOk, TokenOk;
      RedemptionFits(d, s, x, readable, jti);
      GrowthKeepsHistory(d, s.h, Exchanges(d, s, x, readable, jti).h);
    }
  }

  /** What a presented code adds to the history. */
  lemma RedemptionFits(d: Deployment, s: Sys, x: Presented, readable: bool, jti: Jti)
    requires jti !in s.h.tokens && ConsumesCode(s, x) && CodeRow(s, x.code.value)
    ensures var k := Exchanges(d, s, x, readable, jti).h;
            && Grows(s.h, k) && x.code.value in k.redemptions && RedemptionOk(k, x.code.value)
            && (jti in k.tokens ==> TokenOk(d, k, jti))
            && k == s.h.(redemptions := k.redemptions, tokens := k.tokens)
            && k.redemptions.Keys == s.h.redemptions.Keys + {x.code.value} && k.tokens.Keys <= s.h.tokens.Keys + {jti}
  {
    BoundGrows(s.h, Exchanges(d, s, x, readable, jti).h, x.code.value);
  }

  lemma ExchangeKeepsCodes(d: Deployment, s: Sys, x: Presented, readable: bool, jti: Jti)
    requires CodeInv(s) && jti !in s.h.tokens
    ensures CodeInv(Exchanges(d, s, x, readable, jti))
  {
    var t := Exchanges(d, s, x, readable, jti);
    if ConsumesCode(s, x) {
      assert CodeRow(s, x.code.value);
    }
    forall c | c in t.db.codes ensures CodeRow(t, c) {
      assert CodeRow(s, c);
    }
  }

  /** The invariant of every reachable state; and the history is never rewritten. */
  lemma StepKeepsInv(d: Deployment, s: Sys, a: Action)
    requires Inv(d, s) && Enabled(s, a)
    ensures Inv(d, Step(d, s, a)) && Grows(s.h, Step(d, s, a).h)
  {
    hide Inv;
    match a
    case Tick(n) => TickKeepsInv(d, s, n);
    case Ask(reg, q, state) => AskKeepsInv(d, s, reg, q, state);
    case Callback(req, state) => CallbackKeepsInv(d, s, req, state);
    case GitHub(req, answer, token, code) => GitHubKeepsInv(d, s, req, answer, token, code);
    case Decide(token, approve, code) => DecideKeepsInv(d, s, token, approve, code);
    case TokenRequest(x, readable, jti) => ExchangeKeepsInv(d, s, x, readable, jti);
  }

  ghost predicate IsRun(d: Deployment, states: seq<Sys>, actions: seq<Action>) {
    && |states| == |actions| + 1 && states[0] == INIT
    && forall i | 0 <= i < |actions| :: Enabled(states[i], actions[i]) && states[i + 1] == Step(d, states[i], actions[i])
  }

  lemma {:induction false} RunKeepsInv(d: Deployment, states: seq<Sys>, actions: seq<Action>, i: nat)
    requires IsRun(d, states, actions) && i < |states|
    ensures Inv(d, states[i])
  {
    if i > 0 {
      RunKeepsInv(d, states, actions, i - 1);
      StepKeepsInv(d, states[i - 1], actions[i - 1]);
    }
  }

  lemma GrowsTransitive(h: History, k: History, l: History)
    requires Grows(h, k) && Grows(k, l)
    ensures Grows(h, l)
  {
  }

  lemma GrowsReflexive(h: History)
    ensures Grows(h, h)
  {
  }

  lemma NextGrows(d: Deployment, states: seq<Sys>, actions: seq<Action>, i: nat)
    requires IsRun(d, states, actions) && i + 1 < |states|
    ensures Grows(states[i].h, states[i + 1].h) && states[i].now <= states[i + 1].now
  {
    hide Inv, Grows;
    RunKeepsInv(d, states, actions, i);
    StepKeepsInv(d, states[i], actions[i]);
  }

  lemma {:induction false} RunGrows(d: Deployment, states: seq<Sys>, actions: seq<Action>, i: nat, j: nat)
    requires IsRun(d, states, actions) && i <= j < |states|
    ensures Grows(states[i].h, states[j].h) && states[i].now <= states[j].now
    decreases j - i
  {
    hide Grows, IsRun;
    if i < j {
      RunGrows(d, states, actions, i, j - 1);
      NextGrows(d, states, actions, j - 1);
      GrowsTransitive(states[i].h, states[j - 1].h, states[j].h);
    } else {
      GrowsReflexive(states[i].h);
    }
  }

  // ---------- every token goes back to one request ----------

  /** Every access token was asked for by one authorization request. It carries that request's
      client and scope and the user GitHub identified for it; its exchange named the same client
      and redirect URI and a verifier of the same challenge; and the user approved that very
      code, unless the client is the dashboard. */
  lemma TokenTracesToRequest(d: Deployment, s: Sys, jti: Jti) returns (st: State)
    requires Inv(d, s) && jti in s.h.tokens
    ensures var t := s.h.tokens[jti];
            && StateOf(s.h, t.code) == Some(st) && st in s.h.requests && st in s.h.outcomes && !s.h.outcomes[st].Nothing?
            && var q := s.h.requests[st].query;
               && t.claims.clientId == t.presented.clientId == q.clientId
               && t.presented.redirectUri == q.redirectUri
               && q.codeChallengeMethod == "S256" && d.s256(t.presented.verifier) == q.codeChallenge
               && t.claims.scope == s.h.requests[st].pending.scope
               && t.claims.sub == s.h.outcomes[st].id.sub
    ensures s.h.requests[st].query.clientId == DASHBOARD || ApprovedAt(s.h, st, s.h.tokens[jti].code)
  {
    var t := s.h.tokens[jti];
    assert TokenOk(d, s.h, jti);
    st := StateOf(s.h, t.code).value;
    assert RequestOk(d, s.h, st) && OutcomeOk(s.h, st) && HandedOk(s.h, t.code);
    PendingEchoes(d, s.h.requests[st].registry, s.h.requests[st].query);
  }

  ghost predicate ApprovedAt(h: History, st: State, code: Code) {
    exists x :: x in h.asked && h.asked[x].state == st && x in h.decisions && h.decisions[x].code == Some(code)
  }

  lemma PendingEchoes(d: Deployment, reg: Registry, q: Query)
    requires Authorize(d, reg, q).Success?
    ensures var p := Authorize(d, reg, q).value;
            && p.clientId == q.clientId && p.redirectUri == q.redirectUri && p.codeChallenge == q.codeChallenge
            && q.codeChallengeMethod == "S256" && (p.confirmationRequired <==> q.clientId != DASHBOARD)
  {
  }

  /** With clients registered, a token's scope was registered for the client that its request
      named and its redirect URI matches one of the client's; without the client's consent to
      refresh tokens, none comes with it. */
  lemma TokenIsWithinClient(d: Deployment, s: Sys, jti: Jti) returns (client: Client, st: State)
    requires Inv(d, s) && jti in s.h.tokens && (d.clientStore || d.resolver)
    ensures StateOf(s.h, s.h.tokens[jti].code) == Some(st) && st in s.h.requests
    ensures KnownClient(d, s.h.requests[st].registry, s.h.requests[st].query.clientId) == Some(client)
    ensures var t := s.h.tokens[jti];
            && Within(t.claims.scope, Words(RegisteredScope(Some(client)))) && Within(t.claims.scope, SUPPORTED)
            && (t.claims.refreshable ==> client.refreshAllowed)
            && (Allowed(d, client, t.presented.redirectUri, false) || (d.cimdEnabled && Allowed(d, client, t.presented.redirectUri, true)))
  {
    st := TokenTracesToRequest(d, s, jti);
    assert TokenOk(d, s.h, jti) && RequestOk(d, s.h, st);
    hide Inv, Authorize;
    client := PendingFitsClient(d, s.h.requests[st].registry, s.h.requests[st].query);
  }

  lemma PendingFitsClient(d: Deployment, reg: Registry, q: Query) returns (client: Client)
    requires Authorize(d, reg, q).Success? && (d.clientStore || d.resolver)
    ensures KnownClient(d, reg, q.clientId) == Some(client)
    ensures var p := Authorize(d, reg, q).value;
            && Within(p.scope, Words(RegisteredScope(Some(client)))) && Within(p.scope, SUPPORTED)
            && p.refreshAllowed == client.refreshAllowed
            && (Allowed(d, client, q.redirectUri, false) || (d.cimdEnabled && Allowed(d, client, q.redirectUri, true)))
  {
    hide Allowed, Within, Words;
    client := Resolve(d, reg, q.clientId, q.redirectUri).value.value;
    GrantedExactly(q.scope, Some(client.scope));
  }

  /** No two tokens go back to the same request. */
  lemma TokensAreInjective(d: Deployment, s: Sys, a: Jti, b: Jti)
    requires Inv(d, s) && a in s.h.tokens && b in s.h.tokens
    requires StateOf(s.h, s.h.tokens[a].code) == StateOf(s.h, s.h.tokens[b].code)
    ensures a == b
  {
    assert TokenOk(d, s.h, a) && TokenOk(d, s.h, b);
    OneCodePerRequest(d, s, s.h.tokens[a].code, s.h.tokens[b].code);
  }

  lemma OneCodePerRequest(d: Deployment, s: Sys, a: Code, b: Code)
    requires Inv(d, s) && a in s.h.handed && b in s.h.handed && StateOf(s.h, a) == StateOf(s.h, b)
    ensures a == b
  {
    assert HandedOk(s.h, a) && HandedOk(s.h, b);
    assert forall x | x in s.h.asked :: AskedOk(s.h, x);
  }

  // ---------- each consumed at most once ----------

  datatype Ticket = OfState(st: State) | OfConfirmation(hash: Hash) | OfCode(code: Code)

  /** The step takes the ticket's row away by presenting it. */
  ghost predicate Consumes(s: Sys, a: Action, ticket: Ticket) {
    match ticket
    case OfState(st) => a.Callback? && a.state == st && Unexpired(s.db.pendings, s.now, st)
    case OfConfirmation(hash) => a.Decide? && Sha256(a.token) == hash && Unexpired(s.db.confirmations, s.now, hash) && !(a.approve && a.code in s.db.codes)
    case OfCode(code) => a.TokenRequest? && ConsumesCode(s, a.x) && a.x.code.value == code
  }

  predicate Spent(h: History, ticket: Ticket) {
    match ticket
    case OfState(st) => st in h.taken
    case OfConfirmation(hash) => hash in h.decisions
    case OfCode(code) => code in h.redemptions
  }

  lemma ConsumingSpends(d: Deployment, s: Sys, a: Action, ticket: Ticket)
    requires Inv(d, s) && Enabled(s, a) && Consumes(s, a, ticket)
    ensures !Spent(s.h, ticket) && Spent(Step(d, s, a).h, ticket)
  {
    match ticket
    case OfState(st) => RowsAt(s, st, Sha256(0), 0);
    case OfConfirmation(hash) => RowsAt(s, 0, hash, 0);
    case OfCode(code) => RowsAt(s, 0, Sha256(0), code);
  }

  /** Over a whole run, a state, a confirmation and a code are each consumed at most once. */
  lemma ConsumedOnce(d: Deployment, states: seq<Sys>, actions: seq<Action>, i: nat, j: nat, ticket: Ticket)
    requires IsRun(d, states, actions) && i < j < |actions| && Consumes(states[i], actions[i], ticket)
    ensures !Consumes(states[j], actions[j], ticket)
  {
    hide Inv;
    RunKeepsInv(d, states, actions, i);
    RunKeepsInv(d, states, actions, j);
    ConsumingSpends(d, states[i], actions[i], ticket);
    RunGrows(d, states, actions, i + 1, j);
    if Consumes(states[j], actions[j], ticket) {
      ConsumingSpends(d, states[j], actions[j], ticket);
    }
  }

  /** What a table holds is decided by the history alone; pruning never shows. */
  lemma OpenExactly(d: Deployment, s: Sys, st: State, hash: Hash, code: Code)
    requires Inv(d, s)
    ensures Unexpired(s.db.pendings, s.now, st) <==>
              st in s.h.requests && st !in s.h.taken && s.now < s.h.requests[st].at + PENDING_TTL
    ensures Unexpired(s.db.confirmations, s.now, hash) <==>
              hash in s.h.asked && hash !in s.h.decisions && s.now < s.h.asked[hash].at + CONFIRMATION_TTL
    ensures Unexpired(s.db.codes, s.now, code) <==>
              code in s.h.handed && code !in s.h.redemptions && s.now < s.h.handed[code].at + CODE_TTL
  {
    RowsAt(s, st, hash, code);
  }

  /** A token request succeeds if and only if it presents, for the first time and within five
      minutes, a code bound to its client, redirect URI and challenge, for a client whose id can
      be signed, and GitHub's tokens, if the code has any, can be decrypted. */
  lemma IssuedExactly(d: Deployment, s: Sys, x: Presented, readable: bool)
    requires Inv(d, s)
    ensures Exchange(d, s.db, s.now, x, readable).1.TokenIssued? <==>
              && WellFormed(x) && x.code.value in s.h.handed && x.code.value !in s.h.redemptions
              && s.now < s.h.handed[x.code.value].at + CODE_TTL
              && CodeOf(s.h, x.code.value).Some? && Opens(CodeOf(s.h, x.code.value).value, readable)
              && Proves(d, CodeOf(s.h, x.code.value).value, x) && R.Signable(x.clientId)
  {
  }

  /** A code once handed out is good for one presentation: after it, succeed or fail, every
      further one is refused and changes nothing. */
  lemma OnePresentation(d: Deployment, states: seq<Sys>, actions: seq<Action>, i: nat, j: nat, x: Presented, readable: bool)
    requires IsRun(d, states, actions) && i < j < |states|
    requires actions[i].TokenRequest? && WellFormed(actions[i].x) && actions[i].x.code.value in states[i].h.handed
    requires WellFormed(x) && x.code == actions[i].x.code
    ensures Exchange(d, states[j].db, states[j].now, x, readable) == (states[j].db, InvalidGrant)
  {
    hide Inv;
    var code := x.code.value;
    RunKeepsInv(d, states, actions, i);
    RunKeepsInv(d, states, actions, j);
    RunGrows(d, states, actions, i, j);
    RunGrows(d, states, actions, i + 1, j);
    OpenExactly(d, states[i], 0, Sha256(0), code);
    OpenExactly(d, states[j], 0, Sha256(0), code);
    if ConsumesCode(states[i], actions[i].x) {
      ConsumingSpends(d, states[i], actions[i], OfCode(code));
    }
  }

  /** Where this protocol ends the refresh protocol begins: the grant behind a new token can be
      stored, and storing it is a login there. */
  lemma ExchangeIsLogin(d: Deployment, db: Tables, x: Presented, readable: bool, cfg: R.Config, s: P.Sys,
                        user: G.User, jti: G.Jti, token: G.Token, id: G.GrantId)
    requires P.Inv(cfg, s) && jti !in s.issued && token !in s.jtiOf
    requires forall j | j in s.issued && s.issued[j].token.Some? :: s.issued[j].id != id
    requires Exchange(d, db, Stored(s.now), x, readable).1.TokenIssued? && Exchange(d, db, Stored(s.now), x, readable).1.claims.refreshable
    ensures var g := GrantFor(db.codes[x.code.value].value, s.now, user, jti, token, id);
            && P.Enabled(s, P.Login(g)) && !G.Unstorable(s.db, g)
            && P.Step(cfg, s, P.Login(g)).db == G.Upserted(s.db, Stored(s.now), g)
  {
  }
}
