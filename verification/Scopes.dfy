/** OAuth scopes as lists of words (what strings.Fields yields), and what a client may be granted. */
module Scopes {
  import opened Wrappers

  type Scope = seq<string>

  const SUPPORTED := {"insights:read", "insights:write", "org:admin"}
  const DEFAULT_AUTHORIZE: Scope := ["insights:read"]
  const DEFAULT_REGISTERED: Scope := ["insights:read", "insights:write"]

  /** A scope as one string again. */
  function Joined(s: Scope): (text: string) {
    if s == [] then "" else if |s| == 1 then s[0] else s[0] + " " + Joined(s[1..])
  }

  predicate NoRepeats(s: Scope) {
    forall i, j | 0 <= i < j < |s| :: s[i] != s[j]
  }

  /** The words in order of first appearance. */
  function Distinct(s: Scope): (d: Scope) {
    if s == [] then []
    else
      var d := Distinct(s[..|s| - 1]);
      if s[|s| - 1] in d then d else d + [s[|s| - 1]]
  }

  lemma {:induction false} DistinctKeepsWords(s: Scope)
    ensures NoRepeats(Distinct(s))
    ensures forall w :: w in Distinct(s) <==> w in s
  {
    if s != [] {
      var front, last := s[..|s| - 1], s[|s| - 1];
      DistinctKeepsWords(front);
      assert s == front + [last];
    }
  }

  lemma {:induction false} DistinctLeavesDistinct(s: Scope)
    requires NoRepeats(s)
    ensures Distinct(s) == s
  {
    if s != [] {
      var front, last := s[..|s| - 1], s[|s| - 1];
      DistinctLeavesDistinct(front);
      assert last !in front by {
        assert forall i | 0 <= i < |front| :: s[i] != s[|s| - 1];
      }
      assert s == front + [last];
    }
  }

  /** Normalising twice is normalising once, whatever the fallback of the second time. */
  lemma NormalizeIsIdempotent(scope: Scope, fallback: Scope, other: Scope)
    requires fallback != []
    ensures var n := Normalized(scope, fallback); n != [] && Normalized(n, other) == n
  {
    var fields := if scope == [] then fallback else scope;
    DistinctKeepsWords(fields);
    assert fields[0] in Distinct(fields);
    DistinctLeavesDistinct(Distinct(fields));
  }

  function Normalized(scope: Scope, fallback: Scope): (n: Scope) {
    Distinct(if scope == [] then fallback else scope)
  }

  method NormalizeScope(scope: Scope, fallback: Scope) returns (normalized: Scope)
    ensures normalized == Normalized(scope, fallback)
  {
    var fields := if |scope| == 0 then fallback else scope;
    var seen := {};
    normalized := [];
    for i := 0 to |fields|
      invariant normalized == Distinct(fields[..i])
      invariant forall w :: w in seen <==> w in normalized
    {
      assert fields[..i + 1][..i] == fields[..i];
      if fields[i] in seen {
        continue;
      }
      seen := seen + {fields[i]};
      normalized := normalized + [fields[i]];
    }
    assert fields[..|fields|] == fields;
  }

  /** The first word that is not allowed, if any. */
  function Outside(scope: Scope, allowed: set<string>): (bad: Option<string>)
    ensures bad.None? <==> Within(scope, allowed)
    ensures bad.Some? ==> bad.value in scope && bad.value !in allowed
  {
    if scope == [] then None
    else if scope[0] !in allowed then Some(scope[0])
    else
      assert forall w | w in scope :: w == scope[0] || w in scope[1..];
      Outside(scope[1..], allowed)
  }

  method FirstOutside(scope: Scope, allowed: set<string>) returns (bad: Option<string>)
    ensures bad == Outside(scope, allowed)
  {
    for i := 0 to |scope|
      invariant Outside(scope, allowed) == Outside(scope[i..], allowed)
    {
      if scope[i] !in allowed {
        return Some(scope[i]);
      }
    }
    return None;
  }

  datatype ScopeError = InvalidScope(word: string) | ClientMisconfigured

  predicate Within(scope: Scope, allowed: set<string>) {
    forall w | w in scope :: w in allowed
  }

  function Words(scope: Scope): (words: set<string>) {
    set w | w in scope
  }

  /** The scope an authorization gets: what it asks for, else what its client registered. */
  function Granted(raw: Scope, registered: Option<Scope>): (r: Result<Scope, ScopeError>) {
    match registered
    case None => Supported(Normalized(raw, DEFAULT_AUTHORIZE))
    case Some(scope) =>
      var own := Normalized(scope, DEFAULT_REGISTERED);
      if !Within(own, SUPPORTED) then Failure(ClientMisconfigured)
      else if raw == [] then Success(own)
      else
        var outside := Outside(Normalized(raw, DEFAULT_AUTHORIZE), Words(own));
        if outside.Some? then Failure(InvalidScope(outside.value)) else Supported(Normalized(raw, DEFAULT_AUTHORIZE))
  }

  function Supported(scope: Scope): (r: Result<Scope, ScopeError>) {
    var unknown := Outside(scope, SUPPORTED);
    if unknown.Some? then Failure(InvalidScope(unknown.value)) else Success(scope)
  }

  /** `n` is what is left of `words` when every word stays where it comes first and goes wherever
      it comes again. */
  ghost predicate FirstAppearances(n: Scope, words: Scope) {
    && (forall w :: w in n <==> w in words)
    && (forall i, j | 0 <= i < j < |n| :: n[i] != n[j])
    && forall i, j, p, q | 0 <= i < |n| && 0 <= j < |n| && FirstAt(words, p, n[i]) && FirstAt(words, q, n[j]) && p < q :: i < j
  }

  ghost predicate FirstAt(words: Scope, p: int, w: string) {
    0 <= p < |words| && words[p] == w && w !in words[..p]
  }

  lemma {:induction false} DistinctIsFirstAppearances(s: Scope)
    ensures FirstAppearances(Distinct(s), s)
  {
    if s != [] {
      var n := |s| - 1;
      var front, d := s[..n], Distinct(s);
      var before := Distinct(front);
      DistinctIsFirstAppearances(front);
      DistinctKeepsWords(s);
      forall i, j, p, q | 0 <= i < |d| && 0 <= j < |d| && FirstAt(s, p, d[i]) && FirstAt(s, q, d[j]) && p < q ensures i < j {
        assert front[..p] == s[..p] && FirstAt(front, p, d[i]) && d[i] in before;
        if q < n {
          assert front[..q] == s[..q] && FirstAt(front, q, d[j]) && d[j] in before;
        } else {
          assert s[..q] == front && d[j] !in before;
        }
      }
    }
  }

  /** A scope is granted as a whole or not at all, and exactly when every word asked for is
      supported and, for a known client, registered; repeats are dropped and nothing else. Who asks
      for none gets what the client registered, or reading where no client is known. */
  lemma GrantedExactly(raw: Scope, registered: Option<Scope>)
    ensures var fields := match registered
                          case None => ["insights:read"]
                          case Some(scope) => if scope == [] then ["insights:read", "insights:write"] else scope;
            var supported := {"insights:read", "insights:write", "org:admin"};
            var own := if registered.None? then supported else Words(fields);
            && (Granted(raw, registered).Success? <==> own <= supported && Within(raw, own))
            && match Granted(raw, registered)
               case Success(s) => s != [] && FirstAppearances(s, if raw == [] then fields else raw) && Within(s, supported) && Within(s, own)
               case Failure(InvalidScope(w)) => own <= supported && w in raw && w !in own
               case Failure(ClientMisconfigured) => !(own <= supported)
  {
    NormalizedKeepsWords(raw, DEFAULT_AUTHORIZE);
    DistinctIsFirstAppearances(raw);
    DistinctIsFirstAppearances(DEFAULT_AUTHORIZE);
    if registered.Some? {
      NormalizedKeepsWords(registered.value, DEFAULT_REGISTERED);
      DistinctIsFirstAppearances(registered.value);
      DistinctIsFirstAppearances(DEFAULT_REGISTERED);
    }
    hide FirstAppearances, Distinct;
  }

  lemma NormalizedKeepsWords(scope: Scope, fallback: Scope)
    requires fallback != []
    ensures var n := Normalized(scope, fallback);
            n != [] && NoRepeats(n) && forall w :: w in n <==> w in if scope == [] then fallback else scope
  {
    var fields := if scope == [] then fallback else scope;
    DistinctKeepsWords(fields);
    assert fields[0] in Distinct(fields);
  }

  method GrantScope(raw: Scope, registered: Option<Scope>) returns (r: Result<Scope, ScopeError>)
    ensures r == Granted(raw, registered)
  {
    var scope := NormalizeScope(raw, DEFAULT_AUTHORIZE);
    if registered.Some? {
      var own := NormalizeScope(registered.value, DEFAULT_REGISTERED);
      var unknown := FirstOutside(own, SUPPORTED);
      if unknown.Some? {
        return Failure(ClientMisconfigured);
      }
      if |raw| == 0 {
        scope := own;
      } else {
        var outside := FirstOutside(scope, Words(own));
        if outside.Some? {
          return Failure(InvalidScope(outside.value));
        }
      }
    }
    var unknown := FirstOutside(scope, SUPPORTED);
    if unknown.Some? {
      return Failure(InvalidScope(unknown.value));
    }
    r := Success(scope);
  }
}
