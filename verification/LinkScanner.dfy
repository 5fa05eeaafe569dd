/** The inline scanner for insight links, `[[insight:target|label]]`. Bytes are chars here. */
module LinkScanner {
  import opened Wrappers
  import C = Canonical
  import G = Aggregates

  const PREFIX := "[[insight:"

  datatype Inline = Text(length: nat) | Link(target: string, caption: string, length: nat)

  predicate IsSpace(c: char) {
    c == ' ' || c == '\t'
  }

  predicate IsLineBreak(c: char) {
    c == '\n' || c == '\r'
  }

  /** Where the first `c` is, else the length. */
  function IndexByte(s: string, c: char): (i: nat)
    ensures i <= |s| && (i < |s| ==> s[i] == c) && forall k | 0 <= k < i :: s[k] != c
  {
    if s == "" || s[0] == c then 0 else 1 + IndexByte(s[1..], c)
  }

  predicate ClosesAt(s: string, i: nat) {
    i + 1 < |s| && s[i] == ']' && s[i + 1] == ']'
  }

  /** Where the first "]]" is, else the length. */
  function IndexClosing(s: string): (i: nat)
    ensures i <= |s| && (i < |s| ==> ClosesAt(s, i)) && forall k | 0 <= k < i :: !ClosesAt(s, k)
  {
    if s == "" || ClosesAt(s, 0) then 0
    else
      assert forall k | 1 <= k < |s| :: ClosesAt(s, k) == ClosesAt(s[1..], k - 1);
      1 + IndexClosing(s[1..])
  }

  predicate Trimmed(s: string) {
    s != "" ==> !IsSpace(s[0]) && !IsSpace(s[|s| - 1])
  }

  function TrimLeft(s: string): (t: string) {
    if s != "" && IsSpace(s[0]) then TrimLeft(s[1..]) else s
  }

  function TrimRight(s: string): (t: string) {
    if s != "" && IsSpace(s[|s| - 1]) then TrimRight(s[..|s| - 1]) else s
  }

  function Trim(s: string): (t: string) {
    TrimRight(TrimLeft(s))
  }

  predicate Blank(s: string) {
    forall i | 0 <= i < |s| :: IsSpace(s[i])
  }

  lemma {:induction false} TrimLeftOf(l: string, t: string)
    requires Blank(l) && (t != "" ==> !IsSpace(t[0]))
    ensures TrimLeft(l + t) == t
  {
    if l == "" {
      assert l + t == t;
    } else {
      assert (l + t)[0] == l[0] && (l + t)[1..] == l[1..] + t;
      TrimLeftOf(l[1..], t);
    }
  }

  lemma {:induction false} TrimRightOf(t: string, r: string)
    requires Blank(r) && (t != "" ==> !IsSpace(t[|t| - 1]))
    ensures TrimRight(t + r) == t
  {
    if r == "" {
      assert t + r == t;
    } else {
      var s := t + r;
      assert s[|s| - 1] == r[|r| - 1] && s[..|s| - 1] == t + r[..|r| - 1];
      TrimRightOf(t, r[..|r| - 1]);
    }
  }

  /** Trimming takes blanks away from both ends, and a trimmed text is all that can be left. */
  lemma TrimOf(l: string, t: string, r: string)
    requires Blank(l) && Blank(r) && Trimmed(t)
    ensures Trim(l + t + r) == t
  {
    if t == "" {
      assert l + t + r == (l + r) + "";
      TrimLeftOf(l + r, "");
    } else {
      assert l + t + r == l + (t + r);
      TrimLeftOf(l, t + r);
      TrimRightOf(t, r);
    }
  }

  lemma {:induction false} TrimLeftSplits(s: string) returns (l: string)
    ensures Blank(l) && s == l + TrimLeft(s) && (TrimLeft(s) != "" ==> !IsSpace(TrimLeft(s)[0]))
  {
    if s != "" && IsSpace(s[0]) {
      l := TrimLeftSplits(s[1..]);
      assert s == [s[0]] + s[1..] == ([s[0]] + l) + TrimLeft(s);
      l := [s[0]] + l;
    } else {
      l := "";
    }
  }

  lemma {:induction false} TrimRightSplits(s: string) returns (r: string)
    ensures Blank(r) && s == TrimRight(s) + r && (TrimRight(s) != "" ==> !IsSpace(TrimRight(s)[|TrimRight(s)| - 1]))
  {
    if s != "" && IsSpace(s[|s| - 1]) {
      var n := |s| - 1;
      r := TrimRightSplits(s[..n]);
      assert s == s[..n] + [s[n]] == TrimRight(s) + (r + [s[n]]);
      r := r + [s[n]];
    } else {
      r := "";
    }
  }

  lemma TrimSplits(s: string) returns (l: string, r: string)
    ensures Blank(l) && Blank(r) && s == l + Trim(s) + r && Trimmed(Trim(s))
  {
    l := TrimLeftSplits(s);
    r := TrimRightSplits(TrimLeft(s));
    assert Trim(s) != "" ==> Trim(s)[0] == TrimLeft(s)[0];
  }

  function Before(body: string): (target: string) {
    Trim(body[..IndexByte(body, '|')])
  }

  function After(body: string): (caption: string) {
    var cut := IndexByte(body, '|');
    Trim(if cut < |body| then body[cut + 1..] else "")
  }

  predicate OneLine(s: string) {
    forall i | 0 <= i < |s| :: !IsLineBreak(s[i])
  }

  /** The line without its ending. */
  function Chomp(line: string): (content: string) {
    var length := |line|;
    if length > 0 && line[length - 1] == '\n' then
      if length > 1 && line[length - 2] == '\r' then line[..length - 2] else line[..length - 1]
    else line
  }

  class Reader {
    const source: string
    var pos: nat

    ghost predicate Valid()
      reads this
    {
      pos <= |source|
    }

    constructor (source: string)
      ensures Valid() && this.source == source && pos == 0
    {
      this.source, pos := source, 0;
    }

    /** The rest of the line, with its line feed. */
    function PeekLine(): (line: string)
      requires Valid()
      reads this
      ensures pos + |line| <= |source| && line == source[pos..pos + |line|]
    {
      var rest := source[pos..];
      var end := IndexByte(rest, '\n');
      if end < |rest| then rest[..end + 1] else rest
    }

    method Advance(n: nat)
      requires Valid() && pos + n <= |source|
      modifies this
      ensures Valid() && pos == old(pos) + n
    {
      pos := pos + n;
    }

    /** The reader moves past what the scanner took; it stays for what is no insight link. */
    method Parse(inLinkLabel: bool) returns (found: Option<Inline>)
      requires Valid()
      modifies this
      ensures Valid()
      ensures found == if inLinkLabel || !(PREFIX <= old(PeekLine())) then None else Some(Scan(old(PeekLine())))
      ensures pos == old(pos) + if found.Some? then found.value.length else 0
    {
      if inLinkLabel {
        return None;
      }
      var line := PeekLine();
      if !(PREFIX <= line) {
        return None;
      }
      ScanStaysInLine(line);
      hide ScanBody;
      var remainder := line[|PREFIX|..];
      var closing := IndexClosing(remainder);
      if closing == |remainder| {
        var length := |line|;
        if length > 0 && line[length - 1] == '\n' {
          length := length - 1;
          if length > 0 && line[length - 1] == '\r' {
            length := length - 1;
          }
        }
        Advance(length);
        return Some(Text(length));
      }
      var inline := ParseBody(remainder[..closing]);
      found := Some(inline);
    }

    /** The rest of it, once the closing brackets are found behind a body. */
    method ParseBody(body: string) returns (inline: Inline)
      requires Valid() && pos + |PREFIX| + |body| + 2 <= |source|
      modifies this
      ensures Valid()
      ensures inline == ScanBody(body) && pos == old(pos) + inline.length
    {
      var invalid := IndexByte(body, ']');
      if invalid < |body| {
        var length := |PREFIX| + invalid + 1;
        Advance(length);
        return Text(length);
      }
      var cut := IndexByte(body, '|');
      var target := Trim(body[..cut]);
      var caption := Trim(if cut < |body| then body[cut + 1..] else "");
      var length := |PREFIX| + |body| + 2;
      if |target| == 0 || !OneLine(target) || !OneLine(caption) {
        Advance(length);
        return Text(length);
      }
      if |caption| == 0 {
        caption := target;
      }
      Advance(length);
      inline := Link(target, caption, length);
    }
  }

  /** What the scanner makes of a line that starts with the prefix. */
  function Scan(line: string): (r: Inline)
    requires PREFIX <= line
  {
    var remainder := line[|PREFIX|..];
    var closing := IndexClosing(remainder);
    if closing == |remainder| then Text(|Chomp(line)|) else ScanBody(remainder[..closing])
  }

  function ScanBody(body: string): (r: Inline) {
    var invalid := IndexByte(body, ']');
    var length := |PREFIX| + |body| + 2;
    if invalid < |body| then Text(|PREFIX| + invalid + 1)
    else if Before(body) == "" || !OneLine(Before(body)) || !OneLine(After(body)) then Text(length)
    else Link(Before(body), if After(body) == "" then Before(body) else After(body), length)
  }

  lemma ScanStaysInLine(line: string)
    requires PREFIX <= line
    ensures |PREFIX| <= Scan(line).length <= |line|
  {
    assert forall i | 0 <= i < |PREFIX| :: line[i] == PREFIX[i];
  }

  // ---------- the targets of a text ----------

  /** What a walk over the parsed text collects, once each and in order. */
  ghost predicate AreTargets(targets: seq<string>, nodes: seq<Inline>) {
    && C.Ascending(targets)
    && forall t :: t in targets <==> IsTarget(nodes, t)
  }

  predicate IsTarget(nodes: seq<Inline>, t: string) {
    exists i :: 0 <= i < |nodes| && nodes[i].Link? && nodes[i].target == t
  }

  method Targets(nodes: seq<Inline>) returns (targets: seq<string>)
    ensures AreTargets(targets, nodes)
  {
    var seen: map<string, string> := map[];
    for i := 0 to |nodes|
      invariant forall t :: t in seen <==> IsTarget(nodes[..i], t)
      invariant forall t | t in seen :: seen[t] == t
    {
      var node := nodes[i];
      assert forall t :: IsTarget(nodes[..i + 1], t) <==> IsTarget(nodes[..i], t) || (node.Link? && node.target == t) by {
        OneNodeMore(nodes, i);
      }
      if node.Link? {
        seen := seen[node.target := node.target];
      }
    }
    assert nodes[..|nodes|] == nodes;
    targets := G.Values(seen);
    G.LessIsStrict();
    targets := G.SortSlice(targets, C.Less);
    G.ListsOnce(targets, G.ValueSet(seen));
    forall i | 0 <= i < |targets| - 1 ensures C.Less(targets[i], targets[i + 1]) {
      C.LessTotal(targets[i], targets[i + 1]);
    }
  }

  lemma OneNodeMore(nodes: seq<Inline>, i: nat)
    requires i < |nodes|
    ensures forall t :: IsTarget(nodes[..i + 1], t) <==> IsTarget(nodes[..i], t) || (nodes[i].Link? && nodes[i].target == t)
  {
    forall t ensures IsTarget(nodes[..i + 1], t) <==> IsTarget(nodes[..i], t) || (nodes[i].Link? && nodes[i].target == t) {
      if IsTarget(nodes[..i], t) {
        var k :| 0 <= k < i && nodes[..i][k].Link? && nodes[..i][k].target == t;
        assert nodes[..i + 1][k] == nodes[..i][k];
      }
      if nodes[i].Link? && nodes[i].target == t {
        assert nodes[..i + 1][i] == nodes[i];
      }
      if IsTarget(nodes[..i + 1], t) {
        var k :| 0 <= k < i + 1 && nodes[..i + 1][k].Link? && nodes[..i + 1][k].target == t;
        assert k < i ==> nodes[..i][k] == nodes[..i + 1][k];
      }
    }
  }

  /** There is one such list: the order of the walk and of the map does not show. */
  lemma TargetsAreUnique(a: seq<string>, b: seq<string>, nodes: seq<Inline>)
    requires AreTargets(a, nodes) && AreTargets(b, nodes)
    ensures a == b
  {
    assert forall t :: t in C.Elements(a) <==> t in C.Elements(b);
    C.AscendingUnique(a, b);
  }

  // ---------- writing and reading ----------

  predicate Without(s: string, c: char) {
    forall i | 0 <= i < |s| :: s[i] != c
  }

  /** What a link may say. */
  predicate Sayable(s: string) {
    Trimmed(s) && Without(s, ']') && OneLine(s)
  }

  predicate Admissible(target: string) {
    target != "" && Sayable(target) && Without(target, '|')
  }

  /** A body between the brackets: the target, and perhaps a caption, with blanks around each. */
  predicate Says(body: string, target: string, caption: string) {
    && Without(body, ']')
    && Before(body) == target && After(body) == caption
  }

  function Written(body: string): (s: string) {
    PREFIX + body + "]]"
  }

  lemma CutAt(before: string, after: string)
    requires Without(before, '|')
    ensures IndexByte(before + "|" + after, '|') == |before|
  {
    var s := before + "|" + after;
    assert s[|before|] == '|';
    assert forall k | 0 <= k < |before| :: s[k] == before[k];
  }

  lemma NoCut(s: string)
    requires Without(s, '|')
    ensures IndexByte(s, '|') == |s|
  {
  }

  /** A target alone says itself, without a caption. */
  lemma TargetAlone(l: string, target: string, r: string)
    requires Blank(l) && Blank(r) && Admissible(target)
    ensures Says(l + target + r, target, "")
  {
    NoCut(l + target + r);
    assert (l + target + r)[..|l + target + r|] == l + target + r;
    TrimOf(l, target, r);
    TrimOf("", "", "");
  }

  lemma TargetWithCaption(l: string, target: string, r: string, l': string, caption: string, r': string)
    requires Blank(l) && Blank(r) && Admissible(target) && Blank(l') && Blank(r') && Sayable(caption)
    ensures Says(l + target + r + "|" + (l' + caption + r'), target, caption)
  {
    var before, after := l + target + r, l' + caption + r';
    var body := before + "|" + after;
    assert Without(before, '|');
    CutAt(before, after);
    assert body[..|before|] == before && body[|before| + 1..] == after;
    TrimOf(l, target, r);
    TrimOf(l', caption, r');
  }

  /** Reading a written link gives its target and its caption (the target, for want of one),
      and takes exactly what was written, whatever follows on the line. */
  lemma WrittenIsRead(body: string, target: string, caption: string, rest: string)
    requires Says(body, target, caption) && Admissible(target) && Sayable(caption)
    ensures PREFIX <= Written(body) + rest
    ensures Scan(Written(body) + rest) == Link(target, if caption == "" then target else caption, |Written(body)|)
  {
    var line := Written(body) + rest;
    assert line[..|PREFIX|] == PREFIX;
    var remainder := line[|PREFIX|..];
    assert remainder == body + "]]" + rest;
    ClosingFound(body, rest);
    assert remainder[..|body|] == body;
  }

  lemma ClosingFound(body: string, rest: string)
    requires Without(body, ']')
    ensures IndexClosing(body + "]]" + rest) == |body|
  {
    var s := body + "]]" + rest;
    assert s[|body|] == ']' && s[|body| + 1] == ']';
    assert ClosesAt(s, |body|);
    assert forall k | 0 <= k < |body| :: s[k] == body[k];
  }

  /** Only written links are read: whatever the line, a link comes from a body that says it. */
  lemma ReadWasWritten(line: string) returns (body: string, caption: string)
    requires PREFIX <= line && Scan(line).Link?
    ensures var r := Scan(line);
            && line[..r.length] == Written(body) && r.length == |Written(body)| && Says(body, r.target, caption)
            && Admissible(r.target) && Sayable(caption) && r.caption == if caption == "" then r.target else caption
  {
    var remainder := line[|PREFIX|..];
    var closing := IndexClosing(remainder);
    body := remainder[..closing];
    caption := After(body);
    assert ClosesAt(remainder, closing);
    assert line[..|PREFIX| + closing + 2] == PREFIX + body + "]]" by {
      assert line == PREFIX + remainder;
    }
    assert Without(body, ']');
    hide Trim;
    var cut := IndexByte(body, '|');
    TrimKeeps(body[..cut], ']');
    TrimKeeps(body[..cut], '|');
    TrimKeeps(if cut < |body| then body[cut + 1..] else "", ']');
  }

  lemma TrimKeeps(s: string, c: char)
    requires Without(s, c)
    ensures Without(Trim(s), c) && Trimmed(Trim(s))
  {
    var l, r := TrimSplits(s);
    assert forall i | 0 <= i < |Trim(s)| :: Trim(s)[i] == s[|l| + i];
  }

  /** A link as its author may write it: the target, and perhaps a caption, each with blanks
      around it. */
  datatype Source = Source(left: string, target: string, right: string, tail: Option<Tail>)
  datatype Tail = Tail(left: string, caption: string, right: string)

  predicate Writable(x: Source) {
    && Blank(x.left) && Blank(x.right) && Admissible(x.target)
    && (x.tail.Some? ==> Blank(x.tail.value.left) && Blank(x.tail.value.right) && Sayable(x.tail.value.caption))
  }

  function BodyOf(x: Source): (body: string) {
    x.left + x.target + x.right
    + if x.tail.None? then "" else "|" + (x.tail.value.left + x.tail.value.caption + x.tail.value.right)
  }

  function Shown(x: Source): (caption: string) {
    if x.tail.None? || x.tail.value.caption == "" then x.target else x.tail.value.caption
  }

  /** Reading a link gives back what its author wrote: the target, and the caption or, for want
      of one, the target again; it takes exactly the link, whatever follows on the line. */
  lemma PrintedIsRead(x: Source, rest: string)
    requires Writable(x)
    ensures PREFIX <= PREFIX + BodyOf(x) + "]]" + rest
    ensures Scan(PREFIX + BodyOf(x) + "]]" + rest) == Link(x.target, Shown(x), |PREFIX + BodyOf(x) + "]]"|)
  {
    if x.tail.None? {
      TargetAlone(x.left, x.target, x.right);
      assert BodyOf(x) == x.left + x.target + x.right;
      WrittenIsRead(BodyOf(x), x.target, "", rest);
    } else {
      var t := x.tail.value;
      TargetWithCaption(x.left, x.target, x.right, t.left, t.caption, t.right);
      assert BodyOf(x) == x.left + x.target + x.right + "|" + (t.left + t.caption + t.right);
      WrittenIsRead(BodyOf(x), x.target, t.caption, rest);
    }
  }

  lemma NothingToTrim()
    ensures Trim("") == ""
  {
  }

  /** And whatever is read as a link was written so. */
  lemma ReadWasPrinted(line: string) returns (x: Source)
    requires PREFIX <= line && Scan(line).Link?
    ensures Writable(x)
    ensures var r := Scan(line);
            r.target == x.target && r.caption == Shown(x) && r.length <= |line| && line[..r.length] == PREFIX + BodyOf(x) + "]]"
  {
    hide Scan, Without, OneLine, TrimLeft, TrimRight;
    ScanStaysInLine(line);
    var body, caption := ReadWasWritten(line);
    var cut := IndexByte(body, '|');
    var l, r := TrimSplits(body[..cut]);
    x := Source(l, Scan(line).target, r, None);
    if cut < |body| {
      var l', r' := TrimSplits(body[cut + 1..]);
      x := x.(tail := Some(Tail(l', caption, r')));
      assert body == body[..cut] + "|" + body[cut + 1..];
    } else {
      assert body == body[..cut];
      NothingToTrim();
    }
    assert BodyOf(x) == body;
  }

  /** A line has a line feed at its end or nowhere. */
  predicate IsLine(line: string) {
    forall i | 0 <= i < |line| - 1 :: line[i] != '\n'
  }

  /** The scanner takes the prefix at least and never the line's ending, so it always advances
      and never joins lines. */
  lemma ConsumesWithinLine(line: string)
    requires PREFIX <= line && IsLine(line)
    ensures |PREFIX| <= Scan(line).length <= |Chomp(line)|
  {
    assert forall i | 0 <= i < |PREFIX| :: line[i] == PREFIX[i];
    var remainder := line[|PREFIX|..];
    var closing := IndexClosing(remainder);
    if closing < |remainder| {
      assert line[|PREFIX| + closing] == ']' && line[|PREFIX| + closing + 1] == ']';
    }
  }

  /** What is not a link is taken as text: the rest of the line without "]]", the part up to a
      lone bracket before it, else the whole of what the brackets hold. */
  lemma TextOtherwise(line: string)
    requires PREFIX <= line && Scan(line).Text?
    ensures var n, rest := Scan(line).length, line[|PREFIX|..];
            var m := n - |PREFIX|;
            || (n == |Chomp(line)| && forall k | 0 <= k < |rest| :: !ClosesAt(rest, k))
            || (0 < m < |rest| && rest[m - 1] == ']' && rest[m] != ']' && Without(rest[..m - 1], ']'))
            || (2 <= m <= |rest| && ClosesAt(rest, m - 2) && Without(rest[..m - 2], ']')
                && (Before(rest[..m - 2]) == "" || !OneLine(Before(rest[..m - 2])) || !OneLine(After(rest[..m - 2]))))
  {
    hide Before, After, OneLine;
    var rest := line[|PREFIX|..];
    var closing := IndexClosing(rest);
    if closing < |rest| {
      var body := rest[..closing];
      var invalid := IndexByte(body, ']');
      if invalid < closing {
        assert !ClosesAt(rest, invalid);
        assert rest[..invalid] == body[..invalid];
      }
    }
  }
}
