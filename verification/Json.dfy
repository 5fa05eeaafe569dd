/** The parts of JSON text the cursors are made of, written as encoding/json writes them. */
module Json {

  function Hex(d: int): (c: char)
    requires 0 <= d < 16
  {
    if d < 10 then '0' + d as char else 'a' + (d - 10) as char
  }

  lemma HexInjective(d: int, e: int)
    requires 0 <= d < 16 && 0 <= e < 16 && Hex(d) == Hex(e)
    ensures d == e
  {
  }

  function Hex4(n: int): (s: string)
    requires 0 <= n < 0x1_0000
    ensures |s| == 4
  {
    [Hex(n / 16 / 16 / 16), Hex(n / 16 / 16 % 16), Hex(n / 16 % 16), Hex(n % 16)]
  }

  predicate Plain(c: char) {
    && c >= ' ' && c !in {'"', '\\', '<', '>', '&', '\U{2028}', '\U{2029}'}
  }

  /** One character of a string; control characters, and those that matter to HTML and
      JavaScript, are escaped. */
  function Esc(c: char): (s: string)
    ensures s != [] && s[0] != '"'
    ensures Plain(c) ==> s == [c]
  {
    if Plain(c) then [c]
    else if c == '"' || c == '\\' then ['\\', c]
    else if c == '\U{0008}' then "\\b"
    else if c == '\U{000C}' then "\\f"
    else if c == '\n' then "\\n"
    else if c == '\r' then "\\r"
    else if c == '\t' then "\\t"
    else "\\u" + Hex4(c as int)
  }

  function Body(s: string): (r: string) {
    if s == "" then "\"" else Esc(s[0]) + Body(s[1..])
  }

  function Quoted(s: string): (r: string) {
    "\"" + Body(s)
  }

  lemma EscPrefixCode(c: char, x: string, d: char, y: string)
    requires Esc(c) + x == Esc(d) + y
    ensures c == d && x == y
  {
    var r := Esc(c) + x;
    assert r[0] == Esc(c)[0] == Esc(d)[0];
    if !Plain(c) && !Plain(d) {
      assert r[1] == Esc(c)[1] == Esc(d)[1];
      if r[1] == 'u' {
        EscapedByNumber(c, x);
        EscapedByNumber(d, y);
        NumberRead(c as int, d as int);
      }
    }
    assert |Esc(c)| == |Esc(d)|;
    assert x == r[|Esc(c)|..] == y;
  }

  lemma EscapedByNumber(c: char, x: string)
    requires !Plain(c) && (Esc(c) + x)[1] == 'u'
    ensures c as int < 0x1_0000 && Esc(c) == "\\u" + Hex4(c as int) && (Esc(c) + x)[2..6] == Hex4(c as int)
  {
  }

  lemma NumberRead(n: int, m: int)
    requires 0 <= n < 0x1_0000 && 0 <= m < 0x1_0000 && Hex4(n) == Hex4(m)
    ensures n == m
  {
    HexInjective(n % 16, m % 16);
    HexInjective(n / 16 % 16, m / 16 % 16);
    HexInjective(n / 16 / 16 % 16, m / 16 / 16 % 16);
    HexInjective(n / 16 / 16 / 16, m / 16 / 16 / 16);
  }

  /** A quoted string tells where it ends. */
  lemma {:induction false} BodyPrefixCode(s: string, x: string, t: string, y: string)
    requires Body(s) + x == Body(t) + y
    ensures s == t && x == y
  {
    var r := Body(s) + x;
    assert r[0] == Body(s)[0] == Body(t)[0];
    if s != "" && t != "" {
      Regroup(Esc(s[0]), Body(s[1..]), x);
      Regroup(Esc(t[0]), Body(t[1..]), y);
      EscPrefixCode(s[0], Body(s[1..]) + x, t[0], Body(t[1..]) + y);
      BodyPrefixCode(s[1..], x, t[1..], y);
      assert s == [s[0]] + s[1..] && t == [t[0]] + t[1..];
    } else {
      assert x == r[1..] == y;
    }
  }

  lemma Regroup(a: string, b: string, c: string)
    ensures (a + b) + c == a + (b + c)
  {
  }

  lemma QuotedPrefixCode(s: string, x: string, t: string, y: string)
    requires Quoted(s) + x == Quoted(t) + y
    ensures s == t && x == y
  {
    Regroup("\"", Body(s), x);
    Regroup("\"", Body(t), y);
    SamePrefix("\"", Body(s) + x, Body(t) + y);
    BodyPrefixCode(s, x, t, y);
  }

  lemma SamePrefix(p: string, x: string, y: string)
    requires p + x == p + y
    ensures x == y
  {
    assert x == (p + x)[|p|..] == (p + y)[|p|..] == y;
  }

  /** The elements of an array, after its opening bracket. */
  function Items(ss: seq<string>): (r: string) {
    if ss == [] then "]"
    else if |ss| == 1 then Quoted(ss[0]) + "]"
    else Quoted(ss[0]) + ("," + Items(ss[1..]))
  }

  lemma {:induction false} ItemsPrefixCode(ss: seq<string>, x: string, tt: seq<string>, y: string)
    requires Items(ss) + x == Items(tt) + y
    ensures ss == tt && x == y
  {
    var r := Items(ss) + x;
    assert r[0] == Items(ss)[0] == Items(tt)[0];
    if ss == [] || tt == [] {
      assert x == r[1..] == y;
    } else {
      var a := if |ss| == 1 then "]" else "," + Items(ss[1..]);
      var b := if |tt| == 1 then "]" else "," + Items(tt[1..]);
      Regroup(Quoted(ss[0]), a, x);
      Regroup(Quoted(tt[0]), b, y);
      QuotedPrefixCode(ss[0], a + x, tt[0], b + y);
      assert (a + x)[0] == a[0] && (b + y)[0] == b[0];
      if |ss| > 1 {
        Regroup(",", Items(ss[1..]), x);
        Regroup(",", Items(tt[1..]), y);
        SamePrefix(",", Items(ss[1..]) + x, Items(tt[1..]) + y);
        ItemsPrefixCode(ss[1..], x, tt[1..], y);
        assert ss == [ss[0]] + ss[1..] && tt == [tt[0]] + tt[1..];
      } else {
        SamePrefix("]", x, y);
        assert ss == [ss[0]] && tt == [tt[0]];
      }
    }
  }

  lemma {:induction false} PlainBody(s: string)
    requires forall c | c in s :: Plain(c)
    ensures Body(s) == s + "\""
  {
    if s != "" {
      assert s == [s[0]] + s[1..];
      PlainBody(s[1..]);
    }
  }

  function Digits(n: nat): (s: string) {
    if n < 10 then [Hex(n)] else Digits(n / 10) + [Hex(n % 10)]
  }

  function Decimal(n: int): (s: string) {
    if n < 0 then "-" + Digits(-n) else Digits(n)
  }

  function Pow10(k: nat): (p: nat) {
    if k == 0 then 1 else 10 * Pow10(k - 1)
  }

  lemma {:induction false} DigitsLength(n: nat, k: nat)
    requires 1 <= k && n < Pow10(k)
    ensures |Digits(n)| <= k
  {
    if n >= 10 {
      DigitsLength(n / 10, k - 1);
    }
  }
}
