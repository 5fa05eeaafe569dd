/** UTF-8 as RFC 3629 (section 3) defines it, and cutting a text to so many bytes. */
module Utf8 {

  type Byte = x: int | 0 <= x < 256

  /** A char is a Unicode scalar value: any code point but the surrogates. */
  function EncodeOne(ch: char): (b: seq<Byte>)
    ensures 1 <= |b| <= 4
  {
    var c := ch as int;
    if c < 0x80 then [c]
    else if c < 0x800 then [0xC0 + c / 64, 0x80 + c % 64]
    else if c < 0x1_0000 then [0xE0 + c / 64 / 64, 0x80 + c / 64 % 64, 0x80 + c % 64]
    else [0xF0 + c / 64 / 64 / 64, 0x80 + c / 64 / 64 % 64, 0x80 + c / 64 % 64, 0x80 + c % 64]
  }

  function Encode(s: string): (b: seq<Byte>) {
    if s == [] then [] else EncodeOne(s[0]) + Encode(s[1..])
  }

  predicate RuneStart(b: Byte) {
    !(0x80 <= b < 0xC0)
  }

  lemma {:induction false} EncodeAppend(s: string, t: string)
    ensures Encode(s + t) == Encode(s) + Encode(t)
  {
    if s == [] {
      assert s + t == t;
    } else {
      EncodeAppend(s[1..], t);
      assert (s + t)[1..] == s[1..] + t && (s + t)[0] == s[0];
      assert Encode(s + t) == EncodeOne(s[0]) + (Encode(s[1..]) + Encode(t));
    }
  }

  lemma EncodeSnoc(s: string, c: char)
    ensures Encode(s + [c]) == Encode(s) + EncodeOne(c)
  {
    EncodeAppend(s, [c]);
    hide EncodeOne;
    assert Encode([c]) == EncodeOne(c) + Encode([]);
  }

  lemma EncodeSplit(s: string, k: nat)
    requires k <= |s|
    ensures Encode(s) == Encode(s[..k]) + Encode(s[k..])
  {
    hide Encode;
    EncodeAppend(s[..k], s[k..]);
    assert s[..k] + s[k..] == s;
  }

  /** No scalar's encoding begins another's: the next scalar can be read off the bytes. */
  lemma PrefixCode(c: char, x: seq<Byte>, d: char, y: seq<Byte>)
    requires EncodeOne(c) + x == EncodeOne(d) + y
    ensures c == d && x == y
  {
    var b := EncodeOne(c) + x;
    assert b[0] == EncodeOne(c)[0] == EncodeOne(d)[0];
    assert |EncodeOne(c)| == |EncodeOne(d)|;
    assert b[..|EncodeOne(c)|] == EncodeOne(c) == EncodeOne(d);
    assert x == b[|EncodeOne(c)|..] == y;
    OneIsInjective(c, d);
  }

  lemma OneIsInjective(ch: char, dh: char)
    requires EncodeOne(ch) == EncodeOne(dh)
    ensures ch == dh
  {
    var b, c, d := EncodeOne(ch), ch as int, dh as int;
    if |b| > 1 {
      assert c % 64 == d % 64;
      assert c / 64 == d / 64 by {
        if |b| > 2 {
          assert c / 64 % 64 == d / 64 % 64;
          assert c / 64 / 64 == d / 64 / 64 by {
            assert |b| > 3 ==> c / 64 / 64 % 64 == d / 64 / 64 % 64;
          }
        }
      }
    }
  }

  lemma {:induction false} EncodeInjective(s: string, t: string)
    requires Encode(s) == Encode(t)
    ensures s == t
  {
    if s != [] && t != [] {
      PrefixCode(s[0], Encode(s[1..]), t[0], Encode(t[1..]));
      EncodeInjective(s[1..], t[1..]);
    }
  }

  lemma {:induction false} EncodeAscii(s: string)
    requires forall i | 0 <= i < |s| :: s[i] < '\U{0080}'
    ensures |Encode(s)| == |s| && forall i | 0 <= i < |s| :: Encode(s)[i] == s[i] as int
  {
    if s != [] {
      EncodeAscii(s[1..]);
    }
  }

  /** Where a scalar begins: after the bytes of those before it. */
  function Offset(s: string, k: nat): (i: nat)
    requires k <= |s|
  {
    |Encode(s[..k])|
  }

  lemma OffsetStep(s: string, k: nat)
    requires k < |s|
    ensures Offset(s, k + 1) == Offset(s, k) + |EncodeOne(s[k])|
    ensures Offset(s, k + 1) <= |Encode(s)|
    ensures Encode(s)[Offset(s, k)..Offset(s, k + 1)] == EncodeOne(s[k])
    ensures Encode(s)[..Offset(s, k)] == Encode(s[..k])
  {
    hide Encode, EncodeOne;
    EncodeSnoc(s[..k], s[k]);
    assert s[..k] + [s[k]] == s[..k + 1];
    EncodeSplit(s, k + 1);
  }

  /** The bytes that begin a scalar are exactly the rune starts. */
  lemma {:induction false} StartsAreOffsets(s: string, k: nat, i: nat)
    requires k < |s| && Offset(s, k) <= i < Offset(s, k + 1)
    ensures i < |Encode(s)| && (RuneStart(Encode(s)[i]) <==> i == Offset(s, k))
  {
    OffsetStep(s, k);
    assert Encode(s)[i] == EncodeOne(s[k])[i - Offset(s, k)];
  }

  /** Each byte belongs to one scalar. */
  lemma {:induction false} OwnerOf(s: string, n: nat, i: nat) returns (k: nat)
    requires n <= |s| && i < Offset(s, n)
    ensures k < n && Offset(s, k) <= i < Offset(s, k + 1)
  {
    if i >= Offset(s, n - 1) {
      k := n - 1;
    } else {
      k := OwnerOf(s, n - 1, i);
    }
  }

  // ---------- cutting ----------

  const MARKER: seq<Byte> := [0xE2, 0x80, 0xA6] // U+2026, the horizontal ellipsis

  /** The last rune start at or before `end`, or 0. */
  function LastStart(value: seq<Byte>, end: nat): (i: nat)
    requires end < |value|
    ensures i <= end
  {
    if end == 0 || RuneStart(value[end]) then end else LastStart(value, end - 1)
  }

  method TruncateUtf8(value: seq<Byte>, maxBytes: nat) returns (r: seq<Byte>)
    requires |value| > maxBytes ==> maxBytes >= |MARKER|
    ensures r == if |value| <= maxBytes then value else value[..LastStart(value, maxBytes - |MARKER|)] + MARKER
  {
    if |value| <= maxBytes {
      return value;
    }
    var end := maxBytes - |MARKER|;
    while end > 0 && !RuneStart(value[end])
      invariant 0 <= end <= maxBytes - |MARKER|
      invariant LastStart(value, end) == LastStart(value, maxBytes - |MARKER|)
    {
      end := end - 1;
    }
    r := value[..end] + MARKER;
  }

  /** A text that is too long is cut after the most scalars that leave room for the ellipsis;
      what comes out is UTF-8 again and fits. */
  lemma TruncatedText(s: string, maxBytes: nat) returns (k: nat)
    requires |Encode(s)| > maxBytes >= |MARKER|
    ensures k < |s| && Encode(s)[..LastStart(Encode(s), maxBytes - |MARKER|)] + MARKER == Encode(s[..k] + ['\U{2026}'])
    ensures |Encode(s[..k] + ['\U{2026}'])| <= maxBytes
    ensures forall m | k < m <= |s| :: |Encode(s[..m] + ['\U{2026}'])| > maxBytes
  {
    var end := maxBytes - |MARKER|;
    assert s[..|s|] == s;
    k := OwnerOf(s, |s|, end);
    LastStartIsOffset(s, k, end);
    OffsetStep(s, k);
    EncodeAppend(s[..k], ['\U{2026}']);
    Ellipsis();
    forall m | k < m <= |s| ensures |Encode(s[..m] + ['\U{2026}'])| > maxBytes {
      EncodeAppend(s[..m], ['\U{2026}']);
      OffsetsAscend(s, k + 1, m);
    }
  }

  lemma Ellipsis()
    ensures Encode(['\U{2026}']) == MARKER
  {
    assert Encode(['\U{2026}']) == EncodeOne('\U{2026}') + Encode([]);
    assert 0x2026 / 64 / 64 == 2 && 0x2026 / 64 % 64 == 0 && 0x2026 % 64 == 0x26;
  }

  lemma {:induction false} LastStartIsOffset(s: string, k: nat, i: nat)
    requires k < |s| && Offset(s, k) <= i < Offset(s, k + 1) && i < |Encode(s)|
    ensures LastStart(Encode(s), i) == Offset(s, k)
    decreases i
  {
    StartsAreOffsets(s, k, i);
    if i > Offset(s, k) {
      LastStartIsOffset(s, k, i - 1);
    } else if i > 0 {
      assert RuneStart(Encode(s)[i]);
    }
  }

  lemma {:induction false} OffsetsAscend(s: string, a: nat, b: nat)
    requires a <= b <= |s|
    ensures Offset(s, a) <= Offset(s, b)
    decreases b - a
  {
    if a < b {
      OffsetsAscend(s, a, b - 1);
      OffsetStep(s, b - 1);
    }
  }
}
