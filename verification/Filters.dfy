/** The filters a page cursor is bound to, and the bytes whose digest binds it. */
module Filters {
  import opened Utf8
  import opened Json
  import C = Canonical

  // ---------- identifiers ----------

  type Uuid = u: seq<Byte> | |u| == 16 witness [0, 0, 0, 0, 0, 0, 0, 0, 0, 0, 0, 0, 0, 0, 0, 0]

  const NIL: Uuid := [0, 0, 0, 0, 0, 0, 0, 0, 0, 0, 0, 0, 0, 0, 0, 0]

  function HexPairs(b: seq<Byte>): (s: string)
    ensures |s| == 2 * |b|
    ensures forall i | 0 <= i < |b| :: s[2 * i] == Hex(b[i] / 16) && s[2 * i + 1] == Hex(b[i] % 16)
  {
    if b == [] then "" else [Hex(b[0] / 16), Hex(b[0] % 16)] + HexPairs(b[1..])
  }

  function UuidText(u: Uuid): (s: string)
    ensures |s| == 36
  {
    HexPairs(u[..4]) + "-" + HexPairs(u[4..6]) + "-" + HexPairs(u[6..8]) + "-" + HexPairs(u[8..10]) + "-" + HexPairs(u[10..])
  }

  lemma HexPairsInjective(a: seq<Byte>, b: seq<Byte>)
    requires HexPairs(a) == HexPairs(b)
    ensures a == b
  {
    assert |a| == |b|;
    forall i | 0 <= i < |a| ensures a[i] == b[i] {
      HexInjective(a[i] / 16, b[i] / 16);
      HexInjective(a[i] % 16, b[i] % 16);
    }
  }

  lemma UuidParts(u: Uuid)
    ensures u == u[..4] + u[4..6] + u[6..8] + u[8..10] + u[10..]
  {
  }

  lemma UuidTextInjective(u: Uuid, v: Uuid)
    requires UuidText(u) == UuidText(v)
    ensures u == v
  {
    hide HexPairs;
    var s, t := UuidText(u), UuidText(v);
    assert s[..8] == HexPairs(u[..4]) && t[..8] == HexPairs(v[..4]);
    assert s[9..13] == HexPairs(u[4..6]) && t[9..13] == HexPairs(v[4..6]);
    assert s[14..18] == HexPairs(u[6..8]) && t[14..18] == HexPairs(v[6..8]);
    assert s[19..23] == HexPairs(u[8..10]) && t[19..23] == HexPairs(v[8..10]);
    assert s[24..] == HexPairs(u[10..]) && t[24..] == HexPairs(v[10..]);
    HexPairsInjective(u[..4], v[..4]);
    HexPairsInjective(u[4..6], v[4..6]);
    HexPairsInjective(u[6..8], v[6..8]);
    HexPairsInjective(u[8..10], v[8..10]);
    HexPairsInjective(u[10..], v[10..]);
    UuidParts(u);
    UuidParts(v);
  }

  // ---------- filters ----------

  datatype Filter =
    | ListFilter(project: Uuid, tag: string)
    | HistoryFilter(project: Uuid, insight: Uuid)
    | SearchFilter(project: Uuid, query: string, queryMode: string, tags: seq<string>, tagMode: string, excludeIds: seq<Uuid>)

  function Kind(f: Filter): (kind: string) {
    match f
    case ListFilter(_, _) => "insight_list"
    case HistoryFilter(_, _) => "insight_history"
    case SearchFilter(_, _, _, _, _, _) => "insight_search"
  }

  /** UTF-8 keeps the order of code points (RFC 3629, section 1), so sorting by either is the same. */
  function CanonicalTags(tags: seq<string>): (canonical: seq<string>) {
    C.Canon(tags)
  }

  /** Lower-case hexadecimal keeps the order of the bytes it spells. */
  function CanonicalExcludeIds(ids: seq<Uuid>): (canonical: seq<string>) {
    C.Canon(Texts(ids))
  }

  function Texts(ids: seq<Uuid>): (texts: seq<string>) {
    seq(|ids|, i requires 0 <= i < |ids| => UuidText(ids[i]))
  }

  /** The text whose digest binds a search cursor to its filter. */
  function SearchText(f: Filter): (s: string)
    requires f.SearchFilter?
  {
    "{\"operation\":\"insight_search\",\"project_id\":" + (Quoted(UuidText(f.project)) +
    (",\"query\":" + (Quoted(f.query) +
    (",\"query_mode\":" + (Quoted(f.queryMode) +
    (",\"tags\":[" + (Items(CanonicalTags(f.tags)) +
    (",\"tag_mode\":" + (Quoted(f.tagMode) + ExcludeText(f.excludeIds))))))))))
  }

  function ExcludeText(ids: seq<Uuid>): (s: string) {
    if ids == [] then "}" else ",\"exclude_ids\":[" + (Items(CanonicalExcludeIds(ids)) + "}")
  }

  /** The bytes whose digest binds a cursor to its filter. */
  function Preimage(f: Filter): (b: seq<Byte>) {
    match f
    case ListFilter(project, tag) => Encode("insight_list") + [0] + project + Encode(tag)
    case HistoryFilter(project, insight) => Encode("insight_history") + project + insight
    case SearchFilter(_, _, _, _, _, _) => Encode(SearchText(f))
  }

  /** The filters a cursor does not tell apart: tags and exclusions count as sets. */
  ghost predicate Same(f: Filter, g: Filter) {
    match (f, g)
    case (SearchFilter(p, q, m, tags, tm, ids), SearchFilter(p', q', m', tags', tm', ids')) =>
      p == p' && q == q' && m == m' && tm == tm' && SameElements(tags, tags') && SameElements(ids, ids')
    case _ => f == g
  }

  ghost predicate SameElements<T(!new)>(a: seq<T>, b: seq<T>) {
    forall x :: x in a <==> x in b
  }

  lemma TextsSame(a: seq<Uuid>, b: seq<Uuid>)
    ensures C.Elements(Texts(a)) == C.Elements(Texts(b)) <==> SameElements(a, b)
  {
    forall u: Uuid ensures (u in a <==> UuidText(u) in Texts(a)) && (u in b <==> UuidText(u) in Texts(b)) {
      TextIn(a, u);
      TextIn(b, u);
    }
    if C.Elements(Texts(a)) == C.Elements(Texts(b)) {
      forall u ensures u in a <==> u in b {
        assert UuidText(u) in C.Elements(Texts(a)) <==> UuidText(u) in C.Elements(Texts(b));
      }
    }
    if SameElements(a, b) {
      forall t ensures t in Texts(a) <==> t in Texts(b) {
        if t in Texts(a) { TextOf(a, t); }
        if t in Texts(b) { TextOf(b, t); }
      }
    }
  }

  lemma TextIn(ids: seq<Uuid>, u: Uuid)
    ensures u in ids <==> UuidText(u) in Texts(ids)
  {
    if u in ids {
      var i :| 0 <= i < |ids| && ids[i] == u;
      assert Texts(ids)[i] == UuidText(u);
    }
    if UuidText(u) in Texts(ids) {
      var i :| 0 <= i < |ids| && Texts(ids)[i] == UuidText(u);
      UuidTextInjective(u, ids[i]);
    }
  }

  lemma TextOf(ids: seq<Uuid>, t: string)
    requires t in Texts(ids)
    ensures exists u :: u in ids && UuidText(u) == t
  {
    var i :| 0 <= i < |ids| && Texts(ids)[i] == t;
    assert ids[i] in ids;
  }

  lemma SearchTextsExactly(f: Filter, g: Filter)
    requires f.SearchFilter? && g.SearchFilter?
    ensures SearchText(f) == SearchText(g) <==> Same(f, g)
  {
    hide Quoted, Items, UuidText, SameElements, C.Elements, Texts;
    C.CanonIffSameSet(f.tags, g.tags);
    C.CanonIffSameSet(Texts(f.excludeIds), Texts(g.excludeIds));
    TextsSame(f.excludeIds, g.excludeIds);
    TagElements(f.tags, g.tags);
    if SearchText(f) == SearchText(g) {
      SearchTextInjective(f, g);
    } else if Same(f, g) {
      NoneExcluded(f.excludeIds, g.excludeIds);
    }
  }

  lemma TagElements(a: seq<string>, b: seq<string>)
    ensures C.Elements(a) == C.Elements(b) <==> SameElements(a, b)
  {
    assert forall t :: t in C.Elements(a) <==> t in a;
    assert forall t :: t in C.Elements(b) <==> t in b;
  }

  lemma NoneExcluded(a: seq<Uuid>, b: seq<Uuid>)
    requires SameElements(a, b)
    ensures a == [] <==> b == []
  {
    if a != [] {
      assert a[0] in b;
    }
    if b != [] {
      assert b[0] in a;
    }
  }

  lemma SearchTextInjective(f: Filter, g: Filter)
    requires f.SearchFilter? && g.SearchFilter? && SearchText(f) == SearchText(g)
    ensures f.project == g.project && f.query == g.query && f.queryMode == g.queryMode && f.tagMode == g.tagMode
    ensures CanonicalTags(f.tags) == CanonicalTags(g.tags) && CanonicalExcludeIds(f.excludeIds) == CanonicalExcludeIds(g.excludeIds)
  {
    var f6, g6 := Quoted(f.tagMode) + ExcludeText(f.excludeIds), Quoted(g.tagMode) + ExcludeText(g.excludeIds);
    var f5, g5 := Items(CanonicalTags(f.tags)) + (",\"tag_mode\":" + f6), Items(CanonicalTags(g.tags)) + (",\"tag_mode\":" + g6);
    var f4, g4 := Quoted(f.queryMode) + (",\"tags\":[" + f5), Quoted(g.queryMode) + (",\"tags\":[" + g5);
    var f3, g3 := Quoted(f.query) + (",\"query_mode\":" + f4), Quoted(g.query) + (",\"query_mode\":" + g4);
    var f2, g2 := Quoted(UuidText(f.project)) + (",\"query\":" + f3), Quoted(UuidText(g.project)) + (",\"query\":" + g3);
    hide Quoted, Items;
    SamePrefix("{\"operation\":\"insight_search\",\"project_id\":", f2, g2);
    QuotedPrefixCode(UuidText(f.project), ",\"query\":" + f3, UuidText(g.project), ",\"query\":" + g3);
    UuidTextInjective(f.project, g.project);
    SamePrefix(",\"query\":", f3, g3);
    QuotedPrefixCode(f.query, ",\"query_mode\":" + f4, g.query, ",\"query_mode\":" + g4);
    SamePrefix(",\"query_mode\":", f4, g4);
    QuotedPrefixCode(f.queryMode, ",\"tags\":[" + f5, g.queryMode, ",\"tags\":[" + g5);
    SamePrefix(",\"tags\":[", f5, g5);
    ItemsPrefixCode(CanonicalTags(f.tags), ",\"tag_mode\":" + f6, CanonicalTags(g.tags), ",\"tag_mode\":" + g6);
    SamePrefix(",\"tag_mode\":", f6, g6);
    QuotedPrefixCode(f.tagMode, ExcludeText(f.excludeIds), g.tagMode, ExcludeText(g.excludeIds));
    ExcludeTextInjective(f.excludeIds, g.excludeIds);
  }

  lemma ExcludeTextInjective(a: seq<Uuid>, b: seq<Uuid>)
    requires ExcludeText(a) == ExcludeText(b)
    ensures CanonicalExcludeIds(a) == CanonicalExcludeIds(b)
  {
    assert a != [] ==> ExcludeText(a)[0] == ',';
    assert b != [] ==> ExcludeText(b)[0] == ',';
    if a != [] {
      SamePrefix(",\"exclude_ids\":[", Items(CanonicalExcludeIds(a)) + "}", Items(CanonicalExcludeIds(b)) + "}");
      ItemsPrefixCode(CanonicalExcludeIds(a), "}", CanonicalExcludeIds(b), "}");
    } else {
      assert a == b == [];
    }
  }

  lemma ListStart(f: Filter)
    requires f.ListFilter?
    ensures |Preimage(f)| > 28 && Preimage(f)[0] == 'i' as int && Preimage(f)[8] == 'l' as int && |Encode("insight_list")| == 12
  {
    ListName();
    hide Encode;
  }

  lemma ListName()
    ensures var b := Encode("insight_list"); |b| == 12 && b[0] == 'i' as int && b[8] == 'l' as int
  {
    hide Encode;
    EncodeAscii("insight_list");
  }

  lemma HistoryName()
    ensures var b := Encode("insight_history"); |b| == 15 && b[0] == 'i' as int && b[8] == 'h' as int
  {
    hide Encode;
    EncodeAscii("insight_history");
  }

  lemma HistoryStart(f: Filter)
    requires f.HistoryFilter?
    ensures |Preimage(f)| > 28 && Preimage(f)[0] == 'i' as int && Preimage(f)[8] == 'h' as int && |Encode("insight_history")| == 15
  {
    HistoryName();
    hide Encode;
  }

  lemma SearchStart(f: Filter)
    requires f.SearchFilter?
    ensures Preimage(f) != [] && Preimage(f)[0] == '{' as int
  {
    hide Quoted, Items;
    var s := SearchText(f);
    var head := "{\"operation\":\"insight_search\",\"project_id\":";
    assert s[0] == head[0] == '{';
    assert Encode(s) == EncodeOne(s[0]) + Encode(s[1..]);
  }

  lemma KindsApart(f: Filter, g: Filter)
    requires Kind(f) != Kind(g)
    ensures Preimage(f) != Preimage(g)
  {
    hide Preimage, Encode;
    forall h | h in {f, g} ensures h.ListFilter? ==> |Preimage(h)| > 28 && Preimage(h)[0] == 'i' as int && Preimage(h)[8] == 'l' as int {
      if h.ListFilter? { ListStart(h); }
    }
    forall h | h in {f, g} ensures h.HistoryFilter? ==> |Preimage(h)| > 28 && Preimage(h)[0] == 'i' as int && Preimage(h)[8] == 'h' as int {
      if h.HistoryFilter? { HistoryStart(h); }
    }
    forall h | h in {f, g} ensures h.SearchFilter? ==> Preimage(h) != [] && Preimage(h)[0] == '{' as int {
      if h.SearchFilter? { SearchStart(h); }
    }
  }

  lemma ListPreimages(p: Uuid, t: string, q: Uuid, u: string)
    requires Preimage(ListFilter(p, t)) == Preimage(ListFilter(q, u))
    ensures p == q && t == u
  {
    ListStart(ListFilter(p, t));
    hide Encode;
    var b, c := Preimage(ListFilter(p, t)), Preimage(ListFilter(q, u));
    assert b[13..29] == p && c[13..29] == q;
    assert b[29..] == Encode(t) && c[29..] == Encode(u);
    EncodeInjective(t, u);
  }

  lemma HistoryPreimages(p: Uuid, i: Uuid, q: Uuid, j: Uuid)
    requires Preimage(HistoryFilter(p, i)) == Preimage(HistoryFilter(q, j))
    ensures p == q && i == j
  {
    HistoryStart(HistoryFilter(p, i));
    hide Encode;
    var b, c := Preimage(HistoryFilter(p, i)), Preimage(HistoryFilter(q, j));
    assert b[15..31] == p && c[15..31] == q;
    assert b[31..] == i && c[31..] == j;
  }

  /** Preimages are injective and keep the three kinds apart. */
  lemma PreimagesExactly(f: Filter, g: Filter)
    ensures Preimage(f) == Preimage(g) <==> Same(f, g)
  {
    hide SearchText, SameElements, Encode;
    if Kind(f) != Kind(g) {
      KindsApart(f, g);
    } else if f.SearchFilter? {
      SearchTextsExactly(f, g);
      if Preimage(f) == Preimage(g) {
        EncodeInjective(SearchText(f), SearchText(g));
      }
    } else if Preimage(f) == Preimage(g) {
      if f.ListFilter? {
        ListPreimages(f.project, f.tag, g.project, g.tag);
      } else {
        HistoryPreimages(f.project, f.insight, g.project, g.insight);
      }
    }
  }
}
