/**
  Browser sessions: rows, the hourly touch, and what keeps a session alive. The database reads
  the same clock as the server, in whole microseconds, and keeps such times.
 */
module WebSession {
  import opened Wrappers
  import opened Clock

  type Key = nat  // a session's id and its token's digest stand one to one

  const TOUCH_INTERVAL: Time := HOUR
  const DEFAULT_IDLE_TTL: Time := 7 * 24 * HOUR
  const DEFAULT_TTL: Time := 30 * 24 * HOUR

  datatype Config = Config(idleTtl: Time, ttl: Time)

  predicate ValidConfig(cfg: Config) {
    0 < cfg.idleTtl <= cfg.ttl
  }

  /** A lifetime that is not positive means the default; idling longer than living is refused. */
  function ResolveConfig(idleTtl: Time, ttl: Time): (cfg: Option<Config>)
    ensures cfg.Some? ==> ValidConfig(cfg.value)
  {
    var idle := if idleTtl <= 0 then DEFAULT_IDLE_TTL else idleTtl;
    var whole := if ttl <= 0 then DEFAULT_TTL else ttl;
    if idle > whole then None else Some(Config(idle, whole))
  }

  datatype Session = Session(user: nat, lastSeen: Time, idleExpires: Time, expires: Time, revoked: Option<Time>)

  predicate Live(s: Session, now: Time) {
    s.revoked.None? && s.idleExpires > now && s.expires > now
  }

  function Min(a: Time, b: Time): (m: Time) {
    if a < b then a else b
  }

  function Touched(s: Session, at: Time, idleExpires: Time): (t: Session) {
    s.(lastSeen := Stored(at), idleExpires := Min(Stored(idleExpires), s.expires))
  }

  /** The row of a session as the login handler creates it. */
  function Created(cfg: Config, user: nat, now: Time): (s: Session) {
    Session(user, Stored(now), Stored(now + cfg.idleTtl), Stored(now + cfg.ttl), None)
  }

  function SeenAt(lastSeen: Option<Time>, now: Time): (t: Time) {
    if lastSeen.Some? then Stored(lastSeen.value) else now
  }

  predicate Dead(s: Session, now: Time) {
    s.revoked.Some? || s.idleExpires <= now || s.expires <= now
  }

  // ---------- the table ----------

  class Store {
    var sessions: map<Key, Session>

    /** The table's check constraint. */
    predicate Valid()
      reads this
    {
      forall k | k in sessions :: sessions[k].idleExpires <= sessions[k].expires
    }

    constructor ()
      ensures Valid() && sessions == map[]
    {
      sessions := map[];
    }

    /** The dead rows make way; every other row stays as it is. */
    method CreateWebSession(now: Time, key: Key, user: nat, lastSeen: Option<Time>, idleExpires: Time, expires: Time) returns (ok: bool)
      requires Valid()
      modifies this
      ensures Valid()
      ensures ok <==> key !in old(sessions) && Stored(idleExpires) <= Stored(expires)
      ensures sessions == if ok then (map k | k in old(sessions) && !Dead(old(sessions)[k], now) :: old(sessions)[k])
                                     [key := Session(user, SeenAt(lastSeen, now), Stored(idleExpires), Stored(expires), None)]
                          else old(sessions)
    {
      if key in sessions || Stored(idleExpires) > Stored(expires) {
        return false;
      }
      sessions := map k | k in sessions && !(sessions[k].revoked.Some? || sessions[k].idleExpires <= now || sessions[k].expires <= now) :: sessions[k];
      sessions := sessions[key := Session(user, if lastSeen.Some? then Stored(lastSeen.value) else now, Stored(idleExpires), Stored(expires), None)];
      ok := true;
    }

    method GetWebSession(now: Time, key: Key) returns (s: Option<Session>)
      ensures s == if key in sessions && Live(sessions[key], now) then Some(sessions[key]) else None
    {
      s := None;
      if key in sessions && sessions[key].revoked.None? && sessions[key].idleExpires > now && sessions[key].expires > now {
        s := Some(sessions[key]);
      }
    }

    method TouchWebSession(now: Time, key: Key, lastSeen: Time, idleExpires: Time) returns (found: bool)
      requires Valid()
      modifies this
      ensures Valid()
      ensures found <==> key in old(sessions) && Live(old(sessions)[key], now)
      ensures sessions == if found then old(sessions)[key := Touched(old(sessions)[key], lastSeen, idleExpires)] else old(sessions)
    {
      found := key in sessions && sessions[key].revoked.None? && sessions[key].idleExpires > now && sessions[key].expires > now;
      if found {
        var s := sessions[key];
        sessions := sessions[key := s.(lastSeen := Stored(lastSeen), idleExpires := if Stored(idleExpires) < s.expires then Stored(idleExpires) else s.expires)];
      }
    }

    method RevokeWebSession(now: Time, key: Key) returns (found: bool)
      requires Valid()
      modifies this
      ensures Valid()
      ensures found <==> key in old(sessions) && old(sessions)[key].revoked.None?
      ensures sessions == if found then old(sessions)[key := old(sessions)[key].(revoked := Some(now))] else old(sessions)
    {
      found := key in sessions && sessions[key].revoked.None?;
      if found {
        sessions := sessions[key := sessions[key].(revoked := Some(now))];
      }
    }
  }

  /** The middleware, up to the touch: Some(true) if one is due. */
  method Authenticate(store: Store, now: Time, key: Key) returns (due: Option<bool>)
    ensures due.Some? <==> key in store.sessions && Live(store.sessions[key], Stored(now))
    ensures due.Some? ==> due.value == (now - store.sessions[key].lastSeen >= TOUCH_INTERVAL)
  {
    var s := store.GetWebSession(Stored(now), key);
    if s.None? {
      return None;
    }
    due := Some(now - s.value.lastSeen >= TOUCH_INTERVAL);
  }

  // ---------- the life of one session ----------

  /** `pending` holds the requests whose touch is due, with the time each read from the clock;
      `visited` is when the session was last used, `touched` what the last touch (or the login)
      had read, and `revokedEver` whether anyone revoked it. */
  datatype Sys = Sys(now: Time, row: Option<Session>, pending: map<nat, Time>, visited: Time, touched: Time, revokedEver: bool)

  datatype Action = Tick(d: nat) | Visit(req: nat) | Touch(req: nat) | Revoke | Prune

  function Start(cfg: Config, user: nat, now: Time): (s: Sys) {
    Sys(now, Some(Created(cfg, user, now)), map[], now, now, false)
  }

  predicate Enabled(s: Sys, a: Action) {
    match a
    case Visit(req) => req !in s.pending
    case Touch(req) => req in s.pending
    case _ => true
  }

  predicate Usable(s: Sys) {
    s.row.Some? && Live(s.row.value, Stored(s.now))
  }

  function Step(cfg: Config, s: Sys, a: Action): (t: Sys)
    requires Enabled(s, a)
  {
    match a
    case Tick(d) => s.(now := s.now + d)
    case Visit(req) =>
      if !Usable(s) then s
      else if s.now - s.row.value.lastSeen >= TOUCH_INTERVAL then s.(visited := s.now, pending := s.pending[req := s.now])
      else s.(visited := s.now)
    case Touch(req) =>
      var left := s.(pending := s.pending - {req});
      if !Usable(s) then left
      else left.(row := Some(Touched(s.row.value, s.pending[req], s.pending[req] + cfg.idleTtl)), touched := s.pending[req])
    case Revoke =>
      if s.row.Some? && s.row.value.revoked.None? then s.(row := Some(s.row.value.(revoked := Some(Stored(s.now)))), revokedEver := true) else s
    case Prune => if s.row.Some? && Dead(s.row.value, Stored(s.now)) then s.(row := None) else s
  }

  ghost predicate IsRun(cfg: Config, states: seq<Sys>, actions: seq<Action>) {
    && |states| == |actions| + 1 && (exists user, now :: states[0] == Start(cfg, user, now))
    && forall i | 0 <= i < |actions| :: Enabled(states[i], actions[i]) && states[i + 1] == Step(cfg, states[i], actions[i])
  }

  /** Idling never outlasts the session, and the row of a revoked session is marked or gone. */
  predicate Inv(cfg: Config, s: Sys) {
    && (forall r | r in s.pending :: s.pending[r] <= s.now)
    && s.visited <= s.now && s.touched <= s.now
    && (s.row.Some? ==>
          && s.row.value.lastSeen == Stored(s.touched)
          && s.row.value.idleExpires == Min(Stored(s.touched + cfg.idleTtl), s.row.value.expires)
          && (s.revokedEver <==> s.row.value.revoked.Some?))
  }

  lemma {:induction false} RunKeepsInv(cfg: Config, states: seq<Sys>, actions: seq<Action>, i: nat)
    requires ValidConfig(cfg) && IsRun(cfg, states, actions) && i < |states|
    ensures Inv(cfg, states[i])
  {
    if i > 0 {
      RunKeepsInv(cfg, states, actions, i - 1);
      assert states[i] == Step(cfg, states[i - 1], actions[i - 1]);
    }
  }

  lemma {:induction false} RevokedStays(cfg: Config, states: seq<Sys>, actions: seq<Action>, i: nat, j: nat)
    requires IsRun(cfg, states, actions) && i <= j < |states| && states[i].revokedEver
    ensures states[j].revokedEver
    decreases j - i
  {
    if i < j {
      RevokedStays(cfg, states, actions, i, j - 1);
      assert states[j] == Step(cfg, states[j - 1], actions[j - 1]);
    }
  }

  /** A revoked session never validates again, whatever touches were under way and whatever is
      pruned. */
  lemma RevokedForever(cfg: Config, states: seq<Sys>, actions: seq<Action>, i: nat, j: nat)
    requires ValidConfig(cfg) && IsRun(cfg, states, actions) && i < j < |states|
    requires actions[i].Revoke? && states[i].row.Some?
    ensures !Usable(states[j])
  {
    RunKeepsInv(cfg, states, actions, i);
    RunKeepsInv(cfg, states, actions, j);
    assert states[i + 1] == Step(cfg, states[i], actions[i]);
    if states[i + 1].revokedEver {
      RevokedStays(cfg, states, actions, i + 1, j);
    }
  }

  /** When a session is let in: until it is revoked, its lifetime is over, or an idle lifetime has
      passed since the last visit that touched it. That its row may be pruned does not show. */
  lemma {:induction false} UsableExactly(cfg: Config, states: seq<Sys>, actions: seq<Action>, i: nat)
    requires ValidConfig(cfg) && IsRun(cfg, states, actions) && i < |states|
    ensures var s, end := states[i], Stored(states[0].now + cfg.ttl);
            && (Usable(s) <==> !s.revokedEver && s.now < end && s.now < Stored(s.touched + cfg.idleTtl))
            && (s.row.Some? ==> s.row.value.expires == end)
  {
    RunKeepsInv(cfg, states, actions, i);
    if i > 0 {
      RunKeepsInv(cfg, states, actions, i - 1);
      UsableExactly(cfg, states, actions, i - 1);
      assert Enabled(states[i - 1], actions[i - 1]) && states[i] == Step(cfg, states[i - 1], actions[i - 1]);
      hide IsRun;
      StepKeepsUsable(cfg, states[i - 1], actions[i - 1], Stored(states[0].now + cfg.ttl), states[0].now + cfg.ttl);
    }
  }

  lemma StepKeepsUsable(cfg: Config, s: Sys, a: Action, end: Time, last: Time)
    requires ValidConfig(cfg) && Inv(cfg, s) && Enabled(s, a) && Inv(cfg, Step(cfg, s, a)) && end == Stored(last)
    requires Usable(s) <==> !s.revokedEver && s.now < end && s.now < Stored(s.touched + cfg.idleTtl)
    requires s.row.Some? ==> s.row.value.expires == end
    ensures var t := Step(cfg, s, a);
            && (Usable(t) <==> !t.revokedEver && t.now < end && t.now < Stored(t.touched + cfg.idleTtl))
            && (t.row.Some? ==> t.row.value.expires == end)
  {
    StoredIsKept(last, s.now);
    StoredIsKept(s.touched + cfg.idleTtl, s.now);
    StoredIsKept(last, Step(cfg, s, a).now);
    StoredIsKept(Step(cfg, s, a).touched + cfg.idleTtl, Step(cfg, s, a).now);
    hide Stored;
  }

  /** A time read from a row lies ahead of the database's clock exactly if it does of the server's. */
  lemma StoredIsKept(t: Time, now: Time)
    ensures Stored(t) > Stored(now) <==> Stored(t) > now
  {
  }

  // ---------- what keeps it alive ----------

  /** How far apart visits may be, when a touch lands within `delay` of reading the clock. */
  function Gap(cfg: Config, delay: Time): (gap: Time) {
    Stored(cfg.idleTtl) - TOUCH_INTERVAL - delay
  }

  predicate Prompt(cfg: Config, delay: Time) {
    0 <= delay <= TOUCH_INTERVAL - 1000 && 2 * delay <= Stored(cfg.idleTtl) - 1000 && Gap(cfg, delay) >= 0
  }

  /** Time does not pass beyond the next visit that is due, nor beyond a touch that is due. */
  predicate InUse(cfg: Config, delay: Time, s: Sys, a: Action) {
    a.Tick? ==>
      && s.now + a.d <= s.visited + Gap(cfg, delay)
      && forall r | r in s.pending :: s.now + a.d <= s.pending[r] + delay
  }

  ghost predicate Alive(cfg: Config, delay: Time, end: Time, s: Sys) {
    && s.row.Some? && s.row.value.revoked.None? && s.row.value.expires == end
    && s.now <= s.visited + Gap(cfg, delay)
    && (forall r | r in s.pending :: s.now <= s.pending[r] + delay)
    && var idle := s.row.value.idleExpires;
       || idle == end
       || (s.pending == map[] && s.row.value.lastSeen > s.visited - TOUCH_INTERVAL)
       || (exists r :: r in s.pending && idle > s.pending[r] + delay)
  }

  lemma AliveIsUsable(cfg: Config, delay: Time, end: Time, s: Sys)
    requires ValidConfig(cfg) && Prompt(cfg, delay) && Inv(cfg, s) && Alive(cfg, delay, end, s) && s.now < end
    ensures Usable(s)
  {
  }

  lemma StepStaysAlive(cfg: Config, delay: Time, end: Time, s: Sys, a: Action)
    requires ValidConfig(cfg) && Prompt(cfg, delay) && Inv(cfg, s) && Alive(cfg, delay, end, s) && s.now < end
    requires Enabled(s, a) && InUse(cfg, delay, s, a) && !a.Revoke?
    ensures Alive(cfg, delay, end, Step(cfg, s, a))
  {
    AliveIsUsable(cfg, delay, end, s);
    match a
    case Visit(req) => VisitStaysAlive(cfg, delay, end, s, req);
    case Touch(req) => TouchStaysAlive(cfg, delay, end, s, req);
    case Tick(d) =>
      if s.row.value.idleExpires != end && s.pending != map[] {
        var r :| r in s.pending && s.row.value.idleExpires > s.pending[r] + delay;
        assert r in Step(cfg, s, a).pending;
      }
    case _ =>
  }

  lemma VisitStaysAlive(cfg: Config, delay: Time, end: Time, s: Sys, req: nat)
    requires ValidConfig(cfg) && Prompt(cfg, delay) && Inv(cfg, s) && Alive(cfg, delay, end, s) && Usable(s)
    requires Enabled(s, Visit(req))
    ensures Alive(cfg, delay, end, Step(cfg, s, Visit(req)))
  {
    var t := Step(cfg, s, Visit(req));
    if t.pending != s.pending {
      assert req in t.pending;
      if s.pending != map[] && s.row.value.idleExpires != end {
        var r :| r in s.pending && s.row.value.idleExpires > s.pending[r] + delay;
        assert r in t.pending && t.pending[r] == s.pending[r];
      }
    }
  }

  lemma TouchStaysAlive(cfg: Config, delay: Time, end: Time, s: Sys, req: nat)
    requires ValidConfig(cfg) && Prompt(cfg, delay) && Inv(cfg, s) && Alive(cfg, delay, end, s) && Usable(s)
    requires Enabled(s, Touch(req))
    ensures Alive(cfg, delay, end, Step(cfg, s, Touch(req)))
  {
    var t := Step(cfg, s, Touch(req));
    if t.pending != map[] {
      var r :| r in t.pending;
      assert t.pending[r] <= s.now <= s.pending[req] + delay;
    }
  }

  /** Although it is touched hourly at most, a session visited at least every idle lifetime (in
      whole microseconds) less an hour, and less the time a touch takes, stays valid until its
      absolute expiry, unless it is revoked. */
  lemma {:induction false} VisitedSessionSurvives(cfg: Config, delay: Time, states: seq<Sys>, actions: seq<Action>, i: nat)
    requires ValidConfig(cfg) && Prompt(cfg, delay) && IsRun(cfg, states, actions) && i < |states|
    requires forall k | 0 <= k < i :: InUse(cfg, delay, states[k], actions[k]) && !actions[k].Revoke?
    requires states[i].now < Stored(states[0].now + cfg.ttl)
    ensures Usable(states[i]) && Alive(cfg, delay, Stored(states[0].now + cfg.ttl), states[i])
  {
    RunKeepsInv(cfg, states, actions, i);
    if i > 0 {
      assert Enabled(states[i - 1], actions[i - 1]) && states[i] == Step(cfg, states[i - 1], actions[i - 1]);
      assert states[i - 1].now <= states[i].now;
      hide Step, Enabled, Inv, Alive, Usable, InUse, Stored;
      RunKeepsInv(cfg, states, actions, i - 1);
      VisitedSessionSurvives(cfg, delay, states, actions, i - 1);
      StepStaysAlive(cfg, delay, Stored(states[0].now + cfg.ttl), states[i - 1], actions[i - 1]);
    }
    AliveIsUsable(cfg, delay, Stored(states[0].now + cfg.ttl), states[i]);
  }

  /** The hour matters: visits only a nanosecond further apart can lose the session, even with
      instant touches. */
  lemma OneNanosecondMoreIsTooMuch(cfg: Config, user: nat)
    requires ValidConfig(cfg) && cfg.idleTtl > TOUCH_INTERVAL && Stored(cfg.idleTtl) < Stored(cfg.ttl)
    ensures var s1 := Step(cfg, Start(cfg, user, 0), Tick(TOUCH_INTERVAL - 1));
            var s2 := Step(cfg, s1, Visit(0));
            var s3 := Step(cfg, s2, Tick(Gap(cfg, 0) + 1));
            && InUse(cfg, 0, s2, Tick(Gap(cfg, 0))) && Usable(s1) && s3.now < Stored(cfg.ttl) && !Usable(s3)
  {
  }
}
