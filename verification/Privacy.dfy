/** The log filter: which attributes reach the handler behind it. */
module Privacy {
  import opened Wrappers

  /** Lazy values stand for those that are resolved when logged. */
  datatype Value = Leaf(text: string) | Group(attrs: seq<Attr>) | Lazy(value: Value)

  datatype Attr = Attr(key: string, value: Value)

  // ---------- keys ----------

  const PROHIBITED := {
    "access_token", "authorization", "client_ip", "client_name", "code", "code_challenge", "code_verifier", "content",
    "cookie", "email", "github_error_description", "id_token", "login", "query", "redirect_uri", "redirect_uris",
    "refresh_token", "remote_addr", "request_client_name", "request_uri", "requested_scope", "source_ip", "scope",
    "state", "stored_uri", "tag", "tags", "token", "user_agent", "x_forwarded_for"}

  /** Lower case, as far as a list of ASCII keys can tell: besides the ASCII capitals only the
      Kelvin sign and the dotted capital I have lower-case letters in ASCII, and every other
      letter stays outside it. */
  function LowerChar(c: char): (l: char) {
    if 'A' <= c <= 'Z' then c - 'A' + 'a'
    else if c == '\U{212A}' then 'k'
    else if c == '\U{0130}' then 'i'
    else c
  }

  function Lower(s: string): (l: string) {
    seq(|s|, i requires 0 <= i < |s| => LowerChar(s[i]))
  }

  predicate HasSuffix(s: string, suffix: string) {
    |suffix| <= |s| && s[|s| - |suffix|..] == suffix
  }

  predicate IsProhibited(key: string) {
    var lower := Lower(key);
    lower in PROHIBITED || HasSuffix(lower, "_token") || HasSuffix(lower, "_client_name")
  }

  // ---------- the filter ----------

  /** What is left of an attribute: nothing of a prohibited one, nor of a group left empty. */
  function Safe(a: Attr): (r: Option<Attr>)
    decreases a.value, 1
  {
    if IsProhibited(a.key) then None
    else match a.value
      case Leaf(_) => Some(a)
      case Lazy(v) => Safe(Attr(a.key, v))
      case Group(attrs) =>
        var clean := SafeAll(attrs);
        if clean == [] then None else Some(Attr(a.key, Group(clean)))
  }

  function SafeAll(attrs: seq<Attr>): (clean: seq<Attr>)
    decreases attrs, 0
  {
    if attrs == [] then []
    else
      var r := Safe(attrs[0]);
      (if r.Some? then [r.value] else []) + SafeAll(attrs[1..])
  }

  lemma {:induction false} SafeAllSnoc(attrs: seq<Attr>, a: Attr)
    ensures SafeAll(attrs + [a]) == SafeAll(attrs) + if Safe(a).Some? then [Safe(a).value] else []
  {
    if attrs == [] {
      assert attrs + [a] == [a];
      assert SafeAll([a][1..]) == [];
    } else {
      assert (attrs + [a])[0] == attrs[0] && (attrs + [a])[1..] == attrs[1..] + [a];
      SafeAllSnoc(attrs[1..], a);
    }
  }

  method PrivacySafeAttr(attr: Attr) returns (r: Option<Attr>)
    ensures r == Safe(attr)
    decreases attr.value
  {
    if IsProhibited(attr.key) {
      return None;
    }
    match attr.value
    case Lazy(v) => r := PrivacySafeAttr(Attr(attr.key, v));
    case Leaf(_) => return Some(attr);
    case Group(group) =>
      var clean: seq<Attr> := [];
      for i := 0 to |group|
        invariant clean == SafeAll(group[..i])
      {
        assert group[..i + 1] == group[..i] + [group[i]];
        SafeAllSnoc(group[..i], group[i]);
        var child := PrivacySafeAttr(group[i]);
        if child.Some? {
          clean := clean + [child.value];
        }
      }
      assert group[..|group|] == group;
      if |clean| == 0 {
        return None;
      }
      r := Some(Attr(attr.key, Group(clean)));
  }

  // ---------- handlers ----------

  /** What was done to a handler before it was given a record. */
  datatype Op = With(attrs: seq<Attr>) | Open(name: string)

  /** A filtering handler: the operations it passed on, and whether it stopped doing so. */
  datatype Handler = Handler(passed: seq<Op>, blocked: bool)

  const FRESH := Handler([], false)

  function WithAttrs(h: Handler, attrs: seq<Attr>): (r: Handler) {
    if h.blocked then h else Handler(h.passed + [With(SafeAll(attrs))], false)
  }

  function WithGroup(h: Handler, name: string): (r: Handler) {
    if h.blocked then h
    else if IsProhibited(name) then Handler(h.passed, true)
    else Handler(h.passed + [Open(name)], false)
  }

  function Apply(h: Handler, op: Op): (r: Handler) {
    match op case With(attrs) => WithAttrs(h, attrs) case Open(name) => WithGroup(h, name)
  }

  /** The handler after a chain of operations. */
  function Chain(ops: seq<Op>): (h: Handler) {
    if ops == [] then FRESH else Apply(Chain(ops[..|ops| - 1]), ops[|ops| - 1])
  }

  /** The attributes of a record that are passed on with it. */
  function Handled(h: Handler, record: seq<Attr>): (attrs: seq<Attr>) {
    if h.blocked then [] else SafeAll(record)
  }

  // ---------- what is logged ----------

  /** One piece of text, with the keys and groups that lead to it. */
  datatype Line = Line(path: seq<string>, text: string)

  /** Everything an attribute has logged under a path, in order. */
  function Lines(path: seq<string>, a: Attr): (lines: seq<Line>)
    decreases a.value, 1
  {
    match a.value
    case Leaf(text) => [Line(path + [a.key], text)]
    case Lazy(v) => Lines(path, Attr(a.key, v))
    case Group(attrs) => AllLines(path + [a.key], attrs)
  }

  function AllLines(path: seq<string>, attrs: seq<Attr>): (lines: seq<Line>)
    decreases attrs, 0
  {
    if attrs == [] then [] else Lines(path, attrs[0]) + AllLines(path, attrs[1..])
  }

  function Groups(ops: seq<Op>): (path: seq<string>) {
    if ops == [] then []
    else Groups(ops[..|ops| - 1]) + match ops[|ops| - 1] case Open(name) => [name] case With(_) => []
  }

  function OpLines(ops: seq<Op>): (lines: seq<Line>) {
    if ops == [] then []
    else
      var before := ops[..|ops| - 1];
      OpLines(before) + match ops[|ops| - 1] case With(attrs) => AllLines(Groups(before), attrs) case Open(_) => []
  }

  /** Everything a record logs through a handler to which this was done. */
  function Logged(ops: seq<Op>, record: seq<Attr>): (lines: seq<Line>) {
    OpLines(ops) + AllLines(Groups(ops), record)
  }

  predicate CleanPath(path: seq<string>) {
    forall i | 0 <= i < |path| :: !IsProhibited(path[i])
  }

  /** The lines whose whole path is free of prohibited keys, in order. */
  function CleanLines(lines: seq<Line>): (r: seq<Line>) {
    if lines == [] then []
    else (if CleanPath(lines[0].path) then [lines[0]] else []) + CleanLines(lines[1..])
  }

  lemma {:induction false} CleanLinesAppend(a: seq<Line>, b: seq<Line>)
    ensures CleanLines(a + b) == CleanLines(a) + CleanLines(b)
  {
    if a == [] {
      assert a + b == b;
    } else {
      assert (a + b)[0] == a[0] && (a + b)[1..] == a[1..] + b;
      CleanLinesAppend(a[1..], b);
    }
  }

  lemma {:induction false} NothingClean(lines: seq<Line>)
    requires forall i | 0 <= i < |lines| :: !CleanPath(lines[i].path)
    ensures CleanLines(lines) == []
  {
    if lines != [] {
      NothingClean(lines[1..]);
    }
  }

  lemma {:induction false} LinesUnder(path: seq<string>, a: Attr)
    ensures forall i | 0 <= i < |Lines(path, a)| :: path + [a.key] <= Lines(path, a)[i].path
    decreases a.value, 1
  {
    match a.value
    case Leaf(_) =>
    case Lazy(v) => LinesUnder(path, Attr(a.key, v));
    case Group(attrs) => AllLinesUnder(path + [a.key], attrs);
  }

  lemma {:induction false} AllLinesUnder(path: seq<string>, attrs: seq<Attr>)
    ensures forall i | 0 <= i < |AllLines(path, attrs)| :: path <= AllLines(path, attrs)[i].path
    decreases attrs, 0
  {
    if attrs != [] {
      LinesUnder(path, attrs[0]);
      AllLinesUnder(path, attrs[1..]);
    }
  }

  lemma DirtyPath(path: seq<string>, longer: seq<string>)
    requires path <= longer && !CleanPath(path)
    ensures !CleanPath(longer)
  {
    var i :| 0 <= i < |path| && IsProhibited(path[i]);
    assert longer[i] == path[i];
  }

  lemma {:induction false} NothingUnderDirtyPath(path: seq<string>, attrs: seq<Attr>)
    requires !CleanPath(path)
    ensures CleanLines(AllLines(path, attrs)) == []
  {
    var lines := AllLines(path, attrs);
    AllLinesUnder(path, attrs);
    forall i | 0 <= i < |lines| ensures !CleanPath(lines[i].path) {
      DirtyPath(path, lines[i].path);
    }
    NothingClean(lines);
  }

  lemma CleanSnoc(path: seq<string>, key: string)
    requires CleanPath(path)
    ensures CleanPath(path + [key]) <==> !IsProhibited(key)
  {
    assert (path + [key])[|path|] == key;
  }

  /** Filtering an attribute filters its lines: a prohibited key anywhere on the path hides the
      line, and every other line stays, in order. */
  lemma {:induction false} SafeFiltersLines(path: seq<string>, a: Attr)
    requires CleanPath(path)
    ensures (if Safe(a).Some? then Lines(path, Safe(a).value) else []) == CleanLines(Lines(path, a))
    decreases a.value, 1
  {
    CleanSnoc(path, a.key);
    if IsProhibited(a.key) {
      HiddenAttr(path, a);
    } else {
      match a.value
      case Leaf(_) =>
      case Lazy(v) => SafeFiltersLines(path, Attr(a.key, v));
      case Group(attrs) => SafeAllFiltersLines(path + [a.key], attrs);
    }
  }

  lemma HiddenAttr(path: seq<string>, a: Attr)
    requires !CleanPath(path + [a.key])
    ensures CleanLines(Lines(path, a)) == []
  {
    var lines := Lines(path, a);
    LinesUnder(path, a);
    forall i | 0 <= i < |lines| ensures !CleanPath(lines[i].path) {
      DirtyPath(path + [a.key], lines[i].path);
    }
    NothingClean(lines);
  }

  lemma {:induction false} SafeAllFiltersLines(path: seq<string>, attrs: seq<Attr>)
    requires CleanPath(path)
    ensures AllLines(path, SafeAll(attrs)) == CleanLines(AllLines(path, attrs))
    decreases attrs, 0
  {
    if attrs != [] {
      SafeFiltersLines(path, attrs[0]);
      SafeAllFiltersLines(path, attrs[1..]);
      CleanLinesAppend(Lines(path, attrs[0]), AllLines(path, attrs[1..]));
      var first := Safe(attrs[0]);
      if first.Some? {
        assert SafeAll(attrs)[0] == first.value && SafeAll(attrs)[1..] == SafeAll(attrs[1..]);
      } else {
        assert SafeAll(attrs) == SafeAll(attrs[1..]);
      }
    }
  }

  lemma OpSnoc(ops: seq<Op>, op: Op)
    ensures Groups(ops + [op]) == if op.Open? then Groups(ops) + [op.name] else Groups(ops)
    ensures OpLines(ops + [op]) == if op.Open? then OpLines(ops) else OpLines(ops) + AllLines(Groups(ops), op.attrs)
  {
    assert (ops + [op])[..|ops|] == ops;
  }

  ghost predicate Filtered(h: Handler, ops: seq<Op>) {
    && (h.blocked <==> !CleanPath(Groups(ops)))
    && (!h.blocked ==> Groups(h.passed) == Groups(ops))
    && OpLines(h.passed) == CleanLines(OpLines(ops))
  }

  lemma WithStaysFiltered(h: Handler, ops: seq<Op>, attrs: seq<Attr>)
    requires Filtered(h, ops)
    ensures Filtered(WithAttrs(h, attrs), ops + [With(attrs)])
  {
    hide Groups, OpLines, AllLines, SafeAll, CleanLines, CleanPath;
    OpSnoc(ops, With(attrs));
    OpSnoc(h.passed, With(SafeAll(attrs)));
    CleanLinesAppend(OpLines(ops), AllLines(Groups(ops), attrs));
    if h.blocked {
      NothingUnderDirtyPath(Groups(ops), attrs);
    } else {
      SafeAllFiltersLines(Groups(ops), attrs);
    }
  }

  lemma GroupStaysFiltered(h: Handler, ops: seq<Op>, name: string)
    requires Filtered(h, ops)
    ensures Filtered(WithGroup(h, name), ops + [Open(name)])
  {
    hide Groups, OpLines, CleanLines, CleanPath, IsProhibited;
    OpSnoc(ops, Open(name));
    OpSnoc(h.passed, Open(name));
    if h.blocked {
      DirtyPath(Groups(ops), Groups(ops) + [name]);
    } else {
      CleanSnoc(Groups(ops), name);
    }
  }

  /** A chain stops passing things on at the first prohibited group. */
  lemma {:induction false} ChainFiltersOps(ops: seq<Op>)
    ensures Filtered(Chain(ops), ops)
  {
    if ops != [] {
      var before, op := ops[..|ops| - 1], ops[|ops| - 1];
      assert ops == before + [op];
      ChainFiltersOps(before);
      match op
      case With(attrs) => WithStaysFiltered(Chain(before), before, attrs);
      case Open(name) => GroupStaysFiltered(Chain(before), before, name);
    }
  }

  /** Whatever attributes and groups a logger was given, what reaches the handler behind the
      filter is exactly what would have without it, less the lines with a prohibited key on
      their path; and in the same order. */
  lemma FilterIsExact(ops: seq<Op>, record: seq<Attr>)
    ensures Logged(Chain(ops).passed, Handled(Chain(ops), record)) == CleanLines(Logged(ops, record))
  {
    var h := Chain(ops);
    ChainFiltersOps(ops);
    CleanLinesAppend(OpLines(ops), AllLines(Groups(ops), record));
    if h.blocked {
      NothingUnderDirtyPath(Groups(ops), record);
    } else {
      SafeAllFiltersLines(Groups(ops), record);
    }
  }

  lemma {:induction false} CleanLinesAreClean(lines: seq<Line>)
    ensures forall i | 0 <= i < |CleanLines(lines)| :: CleanPath(CleanLines(lines)[i].path) && CleanLines(lines)[i] in lines
  {
    if lines != [] {
      CleanLinesAreClean(lines[1..]);
    }
  }

  /** In particular no line that gets through has a prohibited key anywhere on its path. */
  lemma NothingProhibitedGetsThrough(ops: seq<Op>, record: seq<Attr>, line: Line)
    requires line in Logged(Chain(ops).passed, Handled(Chain(ops), record))
    ensures CleanPath(line.path) && line in Logged(ops, record)
  {
    FilterIsExact(ops, record);
    CleanLinesAreClean(Logged(ops, record));
  }
}
