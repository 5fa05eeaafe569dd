/** Opaque page cursors: how they are written, and which are accepted for which filter. */
module Cursor {
  import opened Wrappers
  import opened Clock
  import opened Utf8
  import opened Json
  import opened Filters

  const MAX_LENGTH := 1024
  const MAX_REVISION := 0x7FFF_FFFF

  datatype Payload = Payload(version: int, kind: string, filterHash: string, rankBits: Option<int>,
                             updatedAtUs: Option<int>, id: string, revision: Option<int>)

  /** The payload as encoding/json writes it, absent members left out. */
  function Marshal(p: Payload): (s: string) {
    ("{\"v\":" + Decimal(p.version)) + (",\"o\":" + Quoted(p.kind)) + (",\"f\":" + Quoted(p.filterHash)) +
    Member(",\"r\":", p.rankBits) + Member(",\"u\":", p.updatedAtUs) + Identifier(p.id) + Member(",\"n\":", p.revision) + "}"
  }

  function Identifier(id: string): (s: string) {
    if id == "" then "" else ",\"i\":" + Quoted(id)
  }

  function Member(name: string, value: Option<int>): (s: string) {
    match value case None => "" case Some(n) => name + Decimal(n)
  }

  /** The foreign functions: SHA-256, unpadded URL-safe base64, and the JSON and UUID readers. */
  datatype Codec = Codec(sha: seq<Byte> -> seq<Byte>, b64: seq<Byte> -> string, unb64: string -> Option<seq<Byte>>,
                         parse: seq<Byte> -> Option<Payload>, parseUuid: string -> Option<Uuid>)

  predicate Fits(n: Option<int>, lo: int, hi: int) {
    n.Some? ==> lo <= n.value < hi
  }

  predicate Representable(p: Payload) {
    && Fits(Some(p.version), -0x8000_0000_0000_0000, 0x8000_0000_0000_0000) && Fits(p.rankBits, 0, 0x1_0000_0000)
    && Fits(p.updatedAtUs, -0x8000_0000_0000_0000, 0x8000_0000_0000_0000) && Fits(p.revision, -0x8000_0000_0000_0000, 0x8000_0000_0000_0000)
  }

  /** What is taken for granted of them; no claim that digests never collide. */
  ghost predicate Faithful(w: Codec) {
    && (forall b :: |w.sha(b)| == 32)
    && (forall b :: w.unb64(w.b64(b)) == Some(b) && |w.b64(b)| == (4 * |b| + 2) / 3 && forall c | c in w.b64(b) :: PlainAscii(c))
    && (forall p | Representable(p) :: w.parse(Encode(Marshal(p))) == Some(p))
    && (forall u :: w.parseUuid(UuidText(u)) == Some(u))
  }

  predicate PlainAscii(c: char) {
    Plain(c) && c < '\U{0080}'
  }

  lemma Base64At(w: Codec, b: seq<Byte>)
    requires Faithful(w)
    ensures w.unb64(w.b64(b)) == Some(b) && |w.b64(b)| == (4 * |b| + 2) / 3 && forall c | c in w.b64(b) :: PlainAscii(c)
  {
  }

  lemma DigestAt(w: Codec, b: seq<Byte>)
    requires Faithful(w)
    ensures |w.sha(b)| == 32
  {
  }

  lemma ParseAt(w: Codec, p: Payload)
    requires Faithful(w) && Representable(p)
    ensures w.parse(Encode(Marshal(p))) == Some(p)
  {
  }

  lemma UuidAt(w: Codec, u: Uuid)
    requires Faithful(w)
    ensures w.parseUuid(UuidText(u)) == Some(u)
  {
  }

  function FilterHash(w: Codec, f: Filter): (hash: string) {
    w.b64(w.sha(Preimage(f)))
  }

  // ---------- cursors ----------

  /** A float32 is its bits. */
  type Float32 = n: int | 0 <= n < 0x1_0000_0000

  predicate Finite(r: Float32) {
    r / 0x80_0000 % 0x100 != 0xFF
  }

  /** Below zero; minus zero is not. */
  predicate Negative(r: Float32) {
    r > 0x8000_0000
  }

  datatype Position =
    | ListAt(updatedAt: Time, id: Uuid)
    | HistoryAt(revision: int)
    | SearchAt(rank: Float32, updatedAt: Time, id: Uuid)

  function UnixMicro(t: Time): (us: int) {
    t / 1000
  }

  /** The kind of position a filter's pages end in. */
  predicate Fitting(f: Filter, c: Position) {
    match f case ListFilter(_, _) => c.ListAt? case HistoryFilter(_, _) => c.HistoryAt? case SearchFilter(_, _, _, _, _, _) => c.SearchAt?
  }

  function PayloadFor(w: Codec, f: Filter, c: Position): (p: Payload) {
    match c
    case ListAt(at, id) => Payload(1, Kind(f), FilterHash(w, f), None, Some(UnixMicro(at)), UuidText(id), None)
    case HistoryAt(n) => Payload(1, Kind(f), FilterHash(w, f), None, None, "", Some(n))
    case SearchAt(rank, at, id) => Payload(1, Kind(f), FilterHash(w, f), Some(rank), Some(UnixMicro(at)), UuidText(id), None)
  }

  function EncodeCursor(w: Codec, f: Filter, c: Position): (value: string)
    requires Fitting(f, c)
  {
    w.b64(Encode(Marshal(PayloadFor(w, f, c))))
  }

  datatype Invalid = InvalidCursor

  /** No cursor at all is the first page. */
  function DecodePayload(w: Codec, value: string): (r: Result<Option<Payload>, Invalid>) {
    if value == "" then Success(None)
    else if |value| > MAX_LENGTH || w.unb64(value).None? then Failure(InvalidCursor)
    else if w.parse(w.unb64(value).value).None? then Failure(InvalidCursor)
    else Success(w.parse(w.unb64(value).value))
  }

  function DecodeCursor(w: Codec, f: Filter, value: string): (r: Result<Option<Position>, Invalid>) {
    match DecodePayload(w, value)
    case Failure(e) => Failure(e)
    case Success(found) => if found.None? then Success(None) else Read(w, f, found.value)
  }

  function Read(w: Codec, f: Filter, p: Payload): (r: Result<Option<Position>, Invalid>) {
    match f
    case ListFilter(_, _) => if Placed(w, f, p) then Success(Some(ListAt(TimeOf(p), w.parseUuid(p.id).value))) else Failure(InvalidCursor)
    case HistoryFilter(_, _) =>
      if p.version != 1 || p.kind != Kind(f) || p.filterHash != FilterHash(w, f) || p.revision.None?
         || p.revision.value <= 0 || p.revision.value > MAX_REVISION || p.rankBits.Some? || p.updatedAtUs.Some? || p.id != ""
      then Failure(InvalidCursor)
      else Success(Some(HistoryAt(p.revision.value)))
    case SearchFilter(_, _, _, _, _, _) =>
      if !Placed(w, f, p) || p.rankBits.None? || !(0 <= p.rankBits.value < 0x1_0000_0000) || !Finite(p.rankBits.value) || Negative(p.rankBits.value)
      then Failure(InvalidCursor)
      else Success(Some(SearchAt(p.rankBits.value, TimeOf(p), w.parseUuid(p.id).value)))
  }

  /** The checks the cursors of lists and searches have in common. */
  predicate Placed(w: Codec, f: Filter, p: Payload) {
    && p.version == 1 && p.kind == Kind(f) && p.filterHash == FilterHash(w, f) && p.updatedAtUs.Some? && p.revision.None?
    && w.parseUuid(p.id).Some? && w.parseUuid(p.id).value != NIL
  }

  function TimeOf(p: Payload): (t: Time)
    requires p.updatedAtUs.Some?
  {
    p.updatedAtUs.value * 1000
  }

  // ---------- they are accepted for their own filter only ----------

  predicate Accepted(w: Codec, f: Filter, value: string) {
    DecodeCursor(w, f, value).Success? && DecodeCursor(w, f, value).value.Some?
  }

  ghost predicate Collision(w: Codec, a: seq<Byte>, b: seq<Byte>) {
    a != b && w.sha(a) == w.sha(b)
  }

  /** A cursor accepted for two filters is of one kind, and the filters do not differ, unless
      the digest itself collides. */
  lemma AcceptedForOneFilter(w: Codec, f: Filter, g: Filter, value: string)
    requires Faithful(w) && Accepted(w, f, value) && Accepted(w, g, value)
    ensures Kind(f) == Kind(g) && (Same(f, g) || Collision(w, Preimage(f), Preimage(g)))
  {
    hide Faithful, Same, Preimage;
    Base64At(w, w.sha(Preimage(f)));
    Base64At(w, w.sha(Preimage(g)));
    AcceptedNames(w, f, value);
    AcceptedNames(w, g, value);
    PreimagesExactly(f, g);
  }

  lemma AcceptedNames(w: Codec, f: Filter, value: string)
    requires Accepted(w, f, value)
    ensures DecodePayload(w, value).Success? && DecodePayload(w, value).value.Some?
    ensures var p := DecodePayload(w, value).value.value; p.kind == Kind(f) && p.filterHash == FilterHash(w, f)
  {
    hide FilterHash, DecodePayload;
  }

  /** Filters that are the same up to order and repetition share their cursors. */
  lemma SharedBySameFilters(w: Codec, f: Filter, g: Filter, value: string)
    requires Same(f, g)
    ensures DecodeCursor(w, f, value) == DecodeCursor(w, g, value)
  {
    PreimagesExactly(f, g);
    hide Preimage;
    assert Kind(f) == Kind(g) && FilterHash(w, f) == FilterHash(w, g);
  }

  // ---------- round trips ----------

  /** The positions that come back: times cut to microseconds, and nothing for the rest. */
  function Returned(c: Position): (r: Result<Option<Position>, Invalid>) {
    if c.HistoryAt? then
      if 1 <= c.revision <= MAX_REVISION then Success(Some(c)) else Failure(InvalidCursor)
    else if c.id == NIL || (c.SearchAt? && (!Finite(c.rank) || Negative(c.rank))) then Failure(InvalidCursor)
    else Success(Some(c.(updatedAt := Stored(c.updatedAt))))
  }

  predicate InRange(c: Position) {
    -0x8000_0000_0000_0000 <= (if c.HistoryAt? then c.revision else UnixMicro(c.updatedAt)) < 0x8000_0000_0000_0000
  }

  predicate Ascii(s: string) {
    forall i | 0 <= i < |s| :: s[i] < '\U{0080}'
  }

  lemma {:induction false} DecimalShort(n: int)
    requires -0x8000_0000_0000_0000 <= n < 0x1_0000_0000_0000_0000
    ensures |Decimal(n)| <= 21 && Ascii(Decimal(n))
  {
    var m := if n < 0 then -n else n;
    assert Pow10(20) == 100_000_000_000_000_000_000 by {
      assert Pow10(10) == 10_000_000_000;
    }
    DigitsLength(m, 20);
    DigitsAscii(m);
  }

  lemma {:induction false} DigitsAscii(n: nat)
    ensures Ascii(Digits(n))
  {
    if n >= 10 {
      DigitsAscii(n / 10);
    }
  }

  lemma QuotedShort(s: string)
    requires forall i | 0 <= i < |s| :: PlainAscii(s[i])
    ensures |Quoted(s)| == |s| + 2 && Ascii(Quoted(s))
  {
    PlainBody(s);
  }

  lemma UuidTextPlain(u: Uuid)
    ensures forall i | 0 <= i < 36 :: PlainAscii(UuidText(u)[i])
  {
    HexPairsPlain(u[..4]);
    HexPairsPlain(u[4..6]);
    HexPairsPlain(u[6..8]);
    HexPairsPlain(u[8..10]);
    HexPairsPlain(u[10..]);
  }

  lemma {:induction false} HexPairsPlain(b: seq<Byte>)
    ensures forall i | 0 <= i < |HexPairs(b)| :: PlainAscii(HexPairs(b)[i])
  {
    if b != [] {
      HexPairsPlain(b[1..]);
    }
  }

  /** Every cursor written is short enough to be read. */
  lemma CursorLength(w: Codec, f: Filter, c: Position)
    requires Faithful(w) && Fitting(f, c) && InRange(c)
    ensures 0 < |EncodeCursor(w, f, c)| <= MAX_LENGTH
  {
    hide PayloadFor, Marshal, Encode;
    var p := PayloadFor(w, f, c);
    MarshalShort(w, f, c);
    EncodeAscii(Marshal(p));
  }

  lemma HashPlain(w: Codec, f: Filter)
    requires Faithful(w)
    ensures |FilterHash(w, f)| == 43 && forall i | 0 <= i < |FilterHash(w, f)| :: PlainAscii(FilterHash(w, f)[i])
  {
    hide Faithful, Preimage, PlainAscii;
    DigestAt(w, Preimage(f));
    Base64At(w, w.sha(Preimage(f)));
    var hash := FilterHash(w, f);
    assert forall i | 0 <= i < |hash| :: hash[i] in hash;
  }

  lemma AsciiAppend(a: string, b: string)
    requires Ascii(a) && Ascii(b)
    ensures Ascii(a + b)
  {
  }

  lemma IdentifierShort(c: Position)
    ensures var s := Identifier(if c.HistoryAt? then "" else UuidText(c.id)); |s| <= 43 && Ascii(s)
  {
    if !c.HistoryAt? {
      UuidTextPlain(c.id);
      QuotedShort(UuidText(c.id));
      hide Quoted;
    }
  }

  lemma HeadShort(w: Codec, f: Filter)
    requires Faithful(w)
    ensures var s := ("{\"v\":" + Decimal(1)) + (",\"o\":" + Quoted(Kind(f))) + (",\"f\":" + Quoted(FilterHash(w, f)));
            0 < |s| <= 128 && Ascii(s)
  {
    hide Faithful, Quoted, Decimal, FilterHash;
    DecimalShort(1);
    QuotedShort(Kind(f));
    HashPlain(w, f);
    QuotedShort(FilterHash(w, f));
    AsciiAppend("{\"v\":", Decimal(1));
    AsciiAppend(",\"o\":", Quoted(Kind(f)));
    AsciiAppend(",\"f\":", Quoted(FilterHash(w, f)));
    hide Ascii;
    AsciiAppend("{\"v\":" + Decimal(1), ",\"o\":" + Quoted(Kind(f)));
    AsciiAppend(("{\"v\":" + Decimal(1)) + (",\"o\":" + Quoted(Kind(f))), ",\"f\":" + Quoted(FilterHash(w, f)));
  }

  lemma MarshalShort(w: Codec, f: Filter, c: Position)
    requires Faithful(w) && Fitting(f, c) && InRange(c)
    ensures var s := Marshal(PayloadFor(w, f, c)); 0 < |s| <= 256 && Ascii(s)
  {
    hide Faithful, FilterHash, Quoted, Decimal, Member, UuidText, Identifier;
    var p := PayloadFor(w, f, c);
    var head := ("{\"v\":" + Decimal(1)) + (",\"o\":" + Quoted(Kind(f))) + (",\"f\":" + Quoted(FilterHash(w, f)));
    HeadShort(w, f);
    MemberShort(",\"r\":", p.rankBits);
    MemberShort(",\"u\":", p.updatedAtUs);
    MemberShort(",\"n\":", p.revision);
    IdentifierShort(c);
    assert Ascii("}");
    hide Ascii;
    var with_rank := head + Member(",\"r\":", p.rankBits);
    AsciiAppend(head, Member(",\"r\":", p.rankBits));
    var with_time := with_rank + Member(",\"u\":", p.updatedAtUs);
    AsciiAppend(with_rank, Member(",\"u\":", p.updatedAtUs));
    var with_id := with_time + Identifier(p.id);
    AsciiAppend(with_time, Identifier(p.id));
    var with_revision := with_id + Member(",\"n\":", p.revision);
    AsciiAppend(with_id, Member(",\"n\":", p.revision));
    AsciiAppend(with_revision, "}");
    assert Marshal(p) == with_revision + "}";
  }

  lemma MemberShort(name: string, n: Option<int>)
    requires Fits(n, -0x8000_0000_0000_0000, 0x8000_0000_0000_0000) && |name| == 5 && Ascii(name)
    ensures |Member(name, n)| <= 26 && Ascii(Member(name, n))
  {
    if n.Some? {
      DecimalShort(n.value);
    }
  }

  /** Reading back what was written for the same filter gives the same position, its time cut to
      the microsecond; a position is refused exactly for a nil id, a rank that is negative or
      not finite, or a revision out of range. */
  lemma RoundTrip(w: Codec, f: Filter, c: Position)
    requires Faithful(w) && Fitting(f, c) && InRange(c)
    ensures DecodeCursor(w, f, EncodeCursor(w, f, c)) == Returned(c)
  {
    hide Faithful, EncodeCursor, DecodePayload, Read, Returned;
    PayloadReturns(w, f, c);
    ReadBack(w, f, c);
  }

  lemma PayloadReturns(w: Codec, f: Filter, c: Position)
    requires Faithful(w) && Fitting(f, c) && InRange(c)
    ensures DecodePayload(w, EncodeCursor(w, f, c)) == Success(Some(PayloadFor(w, f, c)))
  {
    hide Encode, Marshal, Faithful, FilterHash;
    CursorLength(w, f, c);
    var p := PayloadFor(w, f, c);
    ParseAt(w, p);
    Base64At(w, Encode(Marshal(p)));
  }

  lemma ReadBack(w: Codec, f: Filter, c: Position)
    requires Faithful(w) && Fitting(f, c)
    ensures Read(w, f, PayloadFor(w, f, c)) == Returned(c)
  {
    hide Faithful, FilterHash, UuidText;
    if !c.HistoryAt? {
      UuidAt(w, c.id);
    }
  }
}
