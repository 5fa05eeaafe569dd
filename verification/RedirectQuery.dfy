/**
  The query of the URI a user is sent back to after deciding. Text is bytes here, one char
  below 256 each.
 */
module RedirectQuery {
  import opened Wrappers

  type Octet = c: char | c < '\U{0100}'
  type Octets = seq<Octet>

  // ---------- percent-encoding, as net/url does it for queries ----------

  predicate Unreserved(c: Octet) {
    'a' <= c <= 'z' || 'A' <= c <= 'Z' || '0' <= c <= '9' || c in {'-', '_', '.', '~'}
  }

  function HexDigit(n: int): (c: Octet)
    requires 0 <= n < 16
  {
    if n < 10 then '0' + n as char else 'A' + (n - 10) as char
  }

  function HexValue(c: Octet): (n: Option<int>)
    ensures n.Some? ==> 0 <= n.value < 16
  {
    if '0' <= c <= '9' then Some(c as int - '0' as int)
    else if 'a' <= c <= 'f' then Some(c as int - 'a' as int + 10)
    else if 'A' <= c <= 'F' then Some(c as int - 'A' as int + 10)
    else None
  }

  function EscapeOne(c: Octet): (s: Octets)
    ensures s != [] && forall i | 0 <= i < |s| :: s[i] != '&' && s[i] != '='
  {
    if c == ' ' then "+"
    else if Unreserved(c) then [c]
    else ['%', HexDigit(c as int / 16), HexDigit(c as int % 16)]
  }

  function Escape(s: Octets): (e: Octets)
    ensures forall i | 0 <= i < |e| :: e[i] != '&' && e[i] != '='
  {
    if s == [] then [] else EscapeOne(s[0]) + Escape(s[1..])
  }

  /** None: a percent sign without two hexadecimal digits. */
  function Unescape(e: Octets): (s: Option<Octets>) {
    if e == [] then Some([])
    else if e[0] == '%' then
      if |e| < 3 || HexValue(e[1]).None? || HexValue(e[2]).None? then None
      else
        var rest := Unescape(e[3..]);
        if rest.None? then None else Some([(16 * HexValue(e[1]).value + HexValue(e[2]).value) as char] + rest.value)
    else
      var rest := Unescape(e[1..]);
      if rest.None? then None else Some([if e[0] == '+' then ' ' else e[0]] + rest.value)
  }

  lemma HexRoundTrip(n: int)
    requires 0 <= n < 16
    ensures HexValue(HexDigit(n)) == Some(n)
  {
  }

  lemma EscapeOneReads(c: Octet, rest: Octets)
    ensures Unescape(EscapeOne(c) + rest) == if Unescape(rest).None? then None else Some([c] + Unescape(rest).value)
  {
    var e := EscapeOne(c) + rest;
    var n := c as int;
    if |EscapeOne(c)| == 3 {
      assert e[0] == '%' && e[1] == HexDigit(n / 16) && e[2] == HexDigit(n % 16) && e[3..] == rest;
      HexRoundTrip(n / 16);
      HexRoundTrip(n % 16);
    } else {
      assert e[1..] == rest;
    }
  }

  lemma {:induction false} EscapeRoundTrip(s: Octets)
    ensures Unescape(Escape(s)) == Some(s)
  {
    if s != [] {
      EscapeRoundTrip(s[1..]);
      EscapeOneReads(s[0], Escape(s[1..]));
      assert s == [s[0]] + s[1..];
    }
  }

  // ---------- splitting and joining ----------

  /** Where the first `c` is, else the length. */
  function IndexByte(s: Octets, c: Octet): (i: nat)
    ensures i <= |s| && (i < |s| ==> s[i] == c) && forall k | 0 <= k < i :: s[k] != c
  {
    if s == [] || s[0] == c then 0 else 1 + IndexByte(s[1..], c)
  }

  function Split(s: Octets): (parts: seq<Octets>)
    decreases |s|
  {
    var i := IndexByte(s, '&');
    if i == |s| then [s] else [s[..i]] + Split(s[i + 1..])
  }

  function Join(parts: seq<Octets>): (s: Octets) {
    if parts == [] then [] else if |parts| == 1 then parts[0] else parts[0] + "&" + Join(parts[1..])
  }

  predicate Whole(part: Octets) {
    forall i | 0 <= i < |part| :: part[i] != '&'
  }

  lemma {:induction false} SplitJoin(parts: seq<Octets>)
    requires parts != [] && forall i | 0 <= i < |parts| :: Whole(parts[i])
    ensures Split(Join(parts)) == parts
  {
    var s := Join(parts);
    if |parts| == 1 {
      assert Whole(parts[0]);
    } else {
      assert Whole(parts[0]);
      var n := |parts[0]|;
      assert s[n] == '&' && forall k | 0 <= k < n :: s[k] == parts[0][k];
      assert s[..n] == parts[0] && s[n + 1..] == Join(parts[1..]);
      SplitJoin(parts[1..]);
      assert parts == [parts[0]] + parts[1..];
    }
  }

  lemma {:induction false} SplitPartsAreWhole(s: Octets)
    ensures forall p | p in Split(s) :: Whole(p)
    decreases |s|
  {
    var i := IndexByte(s, '&');
    if i < |s| {
      SplitPartsAreWhole(s[i + 1..]);
    }
  }

  /** Joining joined lists is joining them all. */
  lemma {:induction false} JoinNested(a: seq<Octets>, b: seq<Octets>)
    requires b != []
    ensures Join(a + [Join(b)]) == Join(a + b)
  {
    if a == [] {
      assert a + [Join(b)] == [Join(b)] && a + b == b;
    } else {
      assert (a + [Join(b)])[1..] == a[1..] + [Join(b)] && (a + b)[1..] == a[1..] + b;
      JoinNested(a[1..], b);
    }
  }

  // ---------- the rewrite ----------

  const RESERVED: set<Octets> := {"code", "error", "error_description", "iss", "state"}

  function RawName(part: Octets): (name: Octets) {
    part[..IndexByte(part, '=')]
  }

  function Name(part: Octets): (name: Option<Octets>) {
    Unescape(RawName(part))
  }

  function RawValue(part: Octets): (value: Octets) {
    var i := IndexByte(part, '=');
    if i < |part| then part[i + 1..] else []
  }

  /** A query's parameters as written; empty ones do not count. */
  function Parameters(query: Octets): (parts: seq<Octets>) {
    NonEmpty(Split(query))
  }

  function NonEmpty(parts: seq<Octets>): (r: seq<Octets>) {
    if parts == [] then [] else (if parts[0] == [] then [] else [parts[0]]) + NonEmpty(parts[1..])
  }

  predicate Kept(part: Octets) {
    Name(part).Some? && Name(part).value !in RESERVED
  }

  /** The parameters that are none of the response's, in order. */
  function Foreign(parts: seq<Octets>): (r: seq<Octets>) {
    if parts == [] then [] else Foreign(parts[..|parts| - 1]) + if Kept(parts[|parts| - 1]) then [parts[|parts| - 1]] else []
  }

  predicate Readable(parts: seq<Octets>) {
    forall i | 0 <= i < |parts| :: Name(parts[i]).Some?
  }

  lemma {:induction false} NonEmptySnoc(parts: seq<Octets>, p: Octets)
    ensures NonEmpty(parts + [p]) == NonEmpty(parts) + if p == [] then [] else [p]
  {
    if parts == [] {
      assert parts + [p] == [p];
    } else {
      assert (parts + [p])[0] == parts[0] && (parts + [p])[1..] == parts[1..] + [p];
      NonEmptySnoc(parts[1..], p);
    }
  }

  lemma ForeignSnoc(parts: seq<Octets>, p: Octets)
    ensures Foreign(parts + [p]) == Foreign(parts) + if Kept(p) then [p] else []
  {
    assert (parts + [p])[..|parts|] == parts;
  }

  lemma OnePartMore(parts: seq<Octets>, i: nat)
    requires i < |parts|
    ensures var before, after, p := NonEmpty(parts[..i]), NonEmpty(parts[..i + 1]), parts[i];
            && after == (if p == [] then before else before + [p])
            && Foreign(after) == if p != [] && Kept(p) then Foreign(before) + [p] else Foreign(before)
  {
    assert parts[..i + 1] == parts[..i] + [parts[i]];
    NonEmptySnoc(parts[..i], parts[i]);
    ForeignSnoc(NonEmpty(parts[..i]), parts[i]);
  }

  lemma NothingReadable(query: Octets)
    ensures NonEmpty([]) == [] && Foreign([]) == [] && Readable([])
    ensures query == [] ==> NonEmpty(Split(query)) == []
  {
    if query == [] {
      assert Split(query) == [query];
      assert NonEmpty([query]) == NonEmpty([query][1..]);
    }
  }

  lemma ReadableSnoc(parts: seq<Octets>, p: Octets)
    ensures Readable(parts + [p]) <==> Readable(parts) && Name(p).Some?
  {
    assert (parts + [p])[|parts|] == p;
    assert forall i | 0 <= i < |parts| :: (parts + [p])[i] == parts[i];
  }

  method PreservedQuery(query: Octets) returns (r: Option<seq<Octets>>)
    ensures r == if Readable(Parameters(query)) then Some(Foreign(Parameters(query))) else None
  {
    hide Foreign, Readable, NonEmpty, Split, Unescape;
    NothingReadable(query);
    if query == [] {
      return Some([]);
    }
    var parts := Split(query);
    var preserved: seq<Octets> := [];
    for i := 0 to |parts|
      invariant Readable(NonEmpty(parts[..i]))
      invariant preserved == Foreign(NonEmpty(parts[..i]))
    {
      var part := parts[i];
      OnePartMore(parts, i);
      if part == [] {
        continue;
      }
      ReadableSnoc(NonEmpty(parts[..i]), part);
      var name := Unescape(part[..IndexByte(part, '=')]);
      if name.None? {
        NonEmptyGrows(parts, i, part);
        return None;
      }
      if name.value in RESERVED {
        continue;
      }
      preserved := preserved + [part];
    }
    assert parts[..|parts|] == parts;
    r := Some(preserved);
  }

  lemma {:induction false} NonEmptyAppend(a: seq<Octets>, b: seq<Octets>)
    ensures NonEmpty(a + b) == NonEmpty(a) + NonEmpty(b)
  {
    if a == [] {
      assert a + b == b;
    } else {
      assert (a + b)[0] == a[0] && (a + b)[1..] == a[1..] + b;
      NonEmptyAppend(a[1..], b);
    }
  }

  lemma NonEmptyGrows(parts: seq<Octets>, i: nat, part: Octets)
    requires i < |parts| && parts[i] == part != [] && Name(part).None?
    ensures !Readable(NonEmpty(parts))
  {
    assert parts == parts[..i] + ([part] + parts[i + 1..]);
    NonEmptyAppend(parts[..i], [part] + parts[i + 1..]);
    NonEmptyAppend([part], parts[i + 1..]);
    assert NonEmpty(parts)[|NonEmpty(parts[..i])|] == part;
  }

  /** What the response says: who issued it, and a code or an error. */
  datatype Response = Response(approve: bool, code: Octets, issuer: Octets, state: Octets)

  function Pair(name: Octets, value: Octets): (part: Octets) {
    name + "=" + Escape(value)
  }

  /** The response's own parameters, sorted by name. */
  function OwnParameters(x: Response): (parts: seq<Octets>) {
    [if x.approve then Pair("code", x.code) else Pair("error", "access_denied"), Pair("iss", x.issuer)]
    + if x.state == [] then [] else [Pair("state", x.state)]
  }

  method Rewrite(query: Octets, x: Response) returns (r: Option<Octets>)
    ensures r == if Readable(Parameters(query)) then Some(Join(Foreign(Parameters(query)) + [Join(OwnParameters(x))])) else None
  {
    var preserved := PreservedQuery(query);
    if preserved.None? {
      return None;
    }
    r := Some(Join(preserved.value + [Join(OwnParameters(x))]));
  }

  // ---------- what it means to the client ----------

  lemma PairReads(name: Octets, value: Octets)
    requires Unescape(name) == Some(name) && forall i | 0 <= i < |name| :: name[i] != '=' && name[i] != '&'
    ensures Whole(Pair(name, value)) && Pair(name, value) != []
    ensures Name(Pair(name, value)) == Some(name) && Unescape(RawValue(Pair(name, value))) == Some(value)
  {
    EscapeRoundTrip(value);
    hide Unescape, Escape;
    var p := Pair(name, value);
    var n := |name|;
    assert p[n] == '=' && forall k | 0 <= k < n :: p[k] == name[k];
    assert IndexByte(p, '=') == n;
    assert p[..n] == name && p[n + 1..] == Escape(value);
  }

  lemma PlainName(name: Octets)
    requires forall i | 0 <= i < |name| :: name[i] != '%' && name[i] != '+'
    ensures Unescape(name) == Some(name)
  {
    if name != [] {
      PlainName(name[1..]);
      assert name == [name[0]] + name[1..];
    }
  }

  lemma OwnReads(x: Response)
    ensures forall i | 0 <= i < |OwnParameters(x)| :: Whole(OwnParameters(x)[i]) && OwnParameters(x)[i] != []
    ensures var own := OwnParameters(x);
            && |own| == (if x.state == [] then 2 else 3)
            && Name(own[0]) == Some(if x.approve then "code" else "error")
            && Unescape(RawValue(own[0])) == Some(if x.approve then x.code else "access_denied")
            && Name(own[1]) == Some("iss") && Unescape(RawValue(own[1])) == Some(x.issuer)
            && (x.state != [] ==> Name(own[2]) == Some("state") && Unescape(RawValue(own[2])) == Some(x.state))
  {
    hide Pair, Name, RawValue, Unescape, Whole;
    PlainNames();
    PairReads("code", x.code);
    PairReads("error", "access_denied");
    PairReads("iss", x.issuer);
    PairReads("state", x.state);
  }

  lemma PlainNames()
    ensures Unescape("code") == Some("code") && Unescape("error") == Some("error")
    ensures Unescape("iss") == Some("iss") && Unescape("state") == Some("state")
  {
    hide Unescape;
    PlainName("code");
    PlainName("error");
    PlainName("iss");
    PlainName("state");
  }

  lemma {:induction false} NoneEmpty(parts: seq<Octets>)
    requires forall i | 0 <= i < |parts| :: parts[i] != []
    ensures NonEmpty(parts) == parts
  {
    if parts != [] {
      NoneEmpty(parts[1..]);
      assert parts == [parts[0]] + parts[1..];
    }
  }

  lemma {:induction false} NonEmptyFrom(parts: seq<Octets>)
    ensures forall p | p in NonEmpty(parts) :: p in parts && p != []
  {
    if parts != [] {
      NonEmptyFrom(parts[1..]);
    }
  }

  lemma {:induction false} ForeignFrom(parts: seq<Octets>)
    ensures forall p | p in Foreign(parts) :: p in parts && Kept(p)
  {
    if parts != [] {
      ForeignFrom(parts[..|parts| - 1]);
    }
  }

  /** What the client reads: its own parameters, unchanged and in order, then those of the
      response. */
  lemma RewrittenReads(query: Octets, x: Response)
    ensures Parameters(Join(Foreign(Parameters(query)) + [Join(OwnParameters(x))])) == Foreign(Parameters(query)) + OwnParameters(x)
  {
    var kept, own := Foreign(Parameters(query)), OwnParameters(x);
    OwnReads(x);
    JoinNested(kept, own);
    ForeignFrom(Parameters(query));
    NonEmptyFrom(Split(query));
    SplitPartsAreWhole(query);
    hide Foreign, OwnParameters, Split, NonEmpty;
    forall i | 0 <= i < |kept + own| ensures Whole((kept + own)[i]) && (kept + own)[i] != [] {
      if i < |kept| {
        assert kept[i] in kept;
      } else {
        assert (kept + own)[i] == own[i - |kept|];
      }
    }
    SplitJoin(kept + own);
    NoneEmpty(kept + own);
  }

  /** How many parameters go by a name. */
  function Count(parts: seq<Octets>, name: Octets): (n: nat) {
    if parts == [] then 0 else Count(parts[..|parts| - 1], name) + if Name(parts[|parts| - 1]) == Some(name) then 1 else 0
  }

  lemma {:induction false} CountAppend(a: seq<Octets>, b: seq<Octets>, name: Octets)
    ensures Count(a + b, name) == Count(a, name) + Count(b, name)
  {
    if b == [] {
      assert a + b == a;
    } else {
      assert (a + b)[..|a + b| - 1] == a + b[..|b| - 1];
      CountAppend(a, b[..|b| - 1], name);
    }
  }

  lemma {:induction false} CountForeign(parts: seq<Octets>, name: Octets)
    requires name in RESERVED && forall i | 0 <= i < |parts| :: Kept(parts[i])
    ensures Count(parts, name) == 0
  {
    if parts != [] {
      CountForeign(parts[..|parts| - 1], name);
    }
  }

  lemma CountOwn(x: Response, name: Octets)
    requires name in RESERVED
    ensures Count(OwnParameters(x), name) ==
            if name == "iss" || name == (if x.approve then "code" else "error") || (name == "state" && x.state != []) then 1 else 0
  {
    hide OwnParameters, Name;
    OwnReads(x);
    var own := OwnParameters(x);
    if x.state != [] {
      assert own == [own[0], own[1]] + [own[2]];
      CountAppend([own[0], own[1]], [own[2]], name);
      CountOne(own[2], name);
    } else {
      assert own == [own[0], own[1]];
    }
    assert [own[0], own[1]] == [own[0]] + [own[1]];
    CountAppend([own[0]], [own[1]], name);
    CountOne(own[0], name);
    CountOne(own[1], name);
  }

  lemma CountOne(p: Octets, name: Octets)
    ensures Count([p], name) == if Name(p) == Some(name) then 1 else 0
  {
    assert [p][..0] == [];
  }

  /** Nothing the redirect URI already said can pass for the response: there is one issuer, one
      code on approval and one error on denial (and none of the other), and the state exactly
      when the client sent one. */
  lemma ResponseIsUnmistakable(query: Octets, x: Response, name: Octets)
    requires name in RESERVED
    ensures Count(Foreign(Parameters(query)) + OwnParameters(x), name) ==
            if name == "iss" || name == (if x.approve then "code" else "error") || (name == "state" && x.state != []) then 1 else 0
  {
    var kept := Foreign(Parameters(query));
    ForeignFrom(Parameters(query));
    forall i | 0 <= i < |kept| ensures Kept(kept[i]) {
      assert kept[i] in kept;
    }
    hide Foreign, Parameters, OwnParameters;
    CountAppend(kept, OwnParameters(x), name);
    CountForeign(kept, name);
    CountOwn(x, name);
  }
}
