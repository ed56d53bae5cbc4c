/** The node-file format: what the writer emits, what the parser accepts, and how far the two agree. */
module NodeFormat {
  import opened Bytes

  const ESCAPE_CHAR: byte := 0xFD
  const NODE_START: byte := 0xFE
  const NODE_END: byte := 0xFF

  predicate Marker(b: byte) {
    b == NODE_START || b == NODE_END
  }

  /** A node as the writer sees it: first child, next sibling. */
  datatype Node = NoNode | Node(typ: byte, props: seq<byte>, child: Node, next: Node)

  /** A node as the parser leaves it: the props are a range of the file, still escaped. */
  datatype Span = NoSpan | Span(typ: byte, start: nat, size: nat, child: Span, next: Span)

  datatype Parsed = Bad | Good(span: Span, at: nat)

  datatype Found = Nowhere | Found(at: nat)

  // ---------------------------------------------------------------- writing

  function Escape(data: seq<byte>): seq<byte> {
    if data == [] then []
    else (if data[0] >= ESCAPE_CHAR then [ESCAPE_CHAR, data[0]] else [data[0]]) + Escape(data[1..])
  }

  function Print(n: Node): seq<byte> {
    match n
    case NoNode => []
    case Node(typ, props, child, next) =>
      [NODE_START] + Escape([typ]) + Escape(props) + Print(child) + [NODE_END] + Print(next)
  }

  // ---------------------------------------------------------------- reading

  function Unescape(raw: seq<byte>): seq<byte> {
    if raw == [] then []
    else if raw[0] != ESCAPE_CHAR then [raw[0]] + Unescape(raw[1..])
    else if |raw| == 1 then []
    else [raw[1]] + Unescape(raw[2..])
  }

  /** No bare marker and no escape character without a byte to escape. */
  predicate WellEscaped(raw: seq<byte>) {
    raw == [] ||
    if raw[0] == ESCAPE_CHAR then |raw| >= 2 && WellEscaped(raw[2..])
    else !Marker(raw[0]) && WellEscaped(raw[1..])
  }

  /** The first bare marker at or after i. */
  function Scan(f: seq<byte>, i: nat): Found
    decreases |f| - i
  {
    if i >= |f| then Nowhere
    else if Marker(f[i]) then Found(i)
    else if f[i] != ESCAPE_CHAR then Scan(f, i + 1)
    else if i + 1 >= |f| then Nowhere
    else Scan(f, i + 2)
  }

  lemma ScanFinds(f: seq<byte>, i: nat)
    ensures Scan(f, i).Found? ==>
      && i <= Scan(f, i).at < |f|
      && Marker(f[Scan(f, i).at])
      && WellEscaped(f[i..Scan(f, i).at])
    decreases |f| - i
  {
    if i < |f| && !Marker(f[i]) && (f[i] == ESCAPE_CHAR ==> i + 1 < |f|) {
      var k := if f[i] == ESCAPE_CHAR then 2 else 1;
      ScanFinds(f, i + k);
      if Scan(f, i).Found? {
        assert f[i..Scan(f, i).at][k..] == f[i + k..Scan(f, i).at];
      }
    }
  }

  /** Reads sibling nodes from `start` on; stops on the parent's NODE_END or at the end of the file. */
  function Parse(f: seq<byte>, start: nat): (r: Parsed)
    requires start <= |f|
    ensures r.Good? ==> start <= r.at <= |f| && (r.at < |f| ==> f[r.at] == NODE_END)
    ensures r.Good? && start < |f| && f[start] == NODE_START ==> start + 3 <= r.at && r.span.Span?
    decreases |f| - start
  {
    if start == |f| || f[start] == NODE_END then Good(NoSpan, start)
    else if f[start] != NODE_START || start + 1 == |f| then Bad
    else
      ScanFinds(f, start + 2);
      match Scan(f, start + 2)
      case Nowhere => Bad
      case Found(e) =>
        var kids := Parse(f, e);
        if kids.Bad? || kids.at == |f| then Bad
        else
          var rest := Parse(f, kids.at + 1);
          if rest.Bad? then Bad
          else Good(Span(f[start + 1], start, e - start - 2, kids.span, rest.span), rest.at)
  }

  /** The node at `start` alone, given where its props end and what its children are. */
  function Alone(f: seq<byte>, start: nat, end: Found, kids: Parsed): Span {
    if start + 1 < |f| && end.Found? && start + 2 <= end.at && kids.Good? then
      Span(f[start + 1], start, end.at - start - 2, kids.span, NoSpan)
    else NoSpan
  }

  /** s in front of its siblings. */
  function Join(s: Span, rest: Parsed): Parsed {
    if s.NoSpan? || rest.Bad? then Bad else Good(s.(next := rest.span), rest.at)
  }

  lemma ParseIsJoin(f: seq<byte>, start: nat, end: Found, kids: Parsed, rest: Parsed, p: Parsed)
    requires start < |f| && f[start] == NODE_START && p == Parse(f, start)
    requires end == Scan(f, start + 2) && kids == if end.Found? && end.at <= |f| then Parse(f, end.at) else Bad
    requires rest == if kids.Good? && kids.at < |f| then Parse(f, kids.at + 1) else Bad
    ensures end.Found? ==> start + 1 < |f| && start + 2 <= end.at < |f| && Marker(f[end.at])
    ensures p == Join(Alone(f, start, end, kids), rest)
  {
    ScanFinds(f, start + 2);
  }

  predicate InFile(f: seq<byte>, s: Span) {
    match s
    case NoSpan => true
    case Span(_, start, size, child, next) =>
      start + 2 + size < |f| && InFile(f, child) && InFile(f, next)
  }

  function Raw(f: seq<byte>, s: Span): seq<byte>
    requires s.Span? && InFile(f, s)
  {
    f[s.start + 2..s.start + 2 + s.size]
  }

  ghost predicate Clean(f: seq<byte>, s: Span)
    requires InFile(f, s)
  {
    s.Span? ==> WellEscaped(Raw(f, s)) && Clean(f, s.child) && Clean(f, s.next)
  }

  /** The tree a reader sees: every props range taken through the unescape. */
  function Decode(f: seq<byte>, s: Span): Node
    requires InFile(f, s)
  {
    match s
    case NoSpan => NoNode
    case Span(typ, _, _, child, next) => Node(typ, Unescape(Raw(f, s)), Decode(f, child), Decode(f, next))
  }

  /** The bytes a parsed forest stands for. */
  function Source(f: seq<byte>, s: Span): seq<byte>
    requires InFile(f, s)
  {
    match s
    case NoSpan => []
    case Span(typ, _, _, child, next) =>
      Wrap(typ, Raw(f, s), Source(f, child), Source(f, next))
  }

  function Wrap(typ: byte, raw: seq<byte>, kids: seq<byte>, rest: seq<byte>): seq<byte> {
    [NODE_START, typ] + raw + kids + [NODE_END] + rest
  }

  lemma Stitch(f: seq<byte>, start: nat, e: nat, c: nat, at: nat)
    requires start + 2 <= e <= c < at <= |f| && f[start] == NODE_START && f[c] == NODE_END
    ensures Wrap(f[start + 1], f[start + 2..e], f[e..c], f[c + 1..at]) == f[start..at]
  {
  }

  /** The pieces of an accepted node. */
  lemma ParseParts(f: seq<byte>, start: nat) returns (e: nat, c: nat)
    requires start < |f| && f[start] == NODE_START && Parse(f, start).Good?
    ensures Scan(f, start + 2) == Found(e) && start + 2 <= e <= c < |f| && f[c] == NODE_END
    ensures WellEscaped(f[start + 2..e])
    ensures Parse(f, e).Good? && Parse(f, e).at == c && Parse(f, c + 1).Good?
    ensures Parse(f, start) ==
      Good(Span(f[start + 1], start, e - start - 2, Parse(f, e).span, Parse(f, c + 1).span), Parse(f, c + 1).at)
  {
    ScanFinds(f, start + 2);
    e := Scan(f, start + 2).at;
    c := Parse(f, e).at;
  }

  /** s has its props inside the file, cleanly escaped, and is laid out over exactly f[start..at]. */
  ghost predicate Sound(f: seq<byte>, start: nat, s: Span, at: nat) {
    && start <= at <= |f|
    && InFile(f, s)
    && Clean(f, s)
    && (s.Span? ==> s.start == start)
    && Source(f, s) == f[start..at]
  }

  lemma SoundNode(f: seq<byte>, start: nat, e: nat, c: nat, at: nat, kids: Span, rest: Span)
    requires start + 2 <= e <= c < at <= |f| && f[start] == NODE_START && f[c] == NODE_END
    requires WellEscaped(f[start + 2..e]) && Sound(f, e, kids, c) && Sound(f, c + 1, rest, at)
    ensures Sound(f, start, Span(f[start + 1], start, e - start - 2, kids, rest), at)
  {
    Stitch(f, start, e, c, at);
    assert Raw(f, Span(f[start + 1], start, e - start - 2, kids, rest)) == f[start + 2..e];
  }

  /** Whatever the bytes: what the parser accepts is sound. */
  lemma {:induction false} ParseSound(f: seq<byte>, start: nat)
    requires start <= |f|
    ensures Parse(f, start).Good? ==> Sound(f, start, Parse(f, start).span, Parse(f, start).at)
    decreases |f| - start
  {
    if Parse(f, start).Good? && Parse(f, start).span.Span? {
      var e, c := ParseParts(f, start);
      ParseSound(f, e);
      ParseSound(f, c + 1);
      SoundNode(f, start, e, c, Parse(f, start).at, Parse(f, e).span, Parse(f, c + 1).span);
    }
  }

  // ---------------------------------------------------------------- the round trip

  predicate At(f: seq<byte>, i: nat, s: seq<byte>) {
    i + |s| <= |f| && f[i..i + |s|] == s
  }

  lemma AtSplit(f: seq<byte>, i: nat, s: seq<byte>, t: seq<byte>)
    requires At(f, i, s + t)
    ensures At(f, i, s) && At(f, i + |s|, t)
  {
    assert (s + t)[..|s|] == s && (s + t)[|s|..] == t;
    assert f[i..i + |s + t|][..|s|] == f[i..i + |s|];
    assert f[i..i + |s + t|][|s|..] == f[i + |s|..i + |s| + |t|];
  }

  lemma {:induction false} UnescapeEscape(p: seq<byte>)
    ensures Unescape(Escape(p)) == p && WellEscaped(Escape(p))
  {
    if p != [] {
      UnescapeEscape(p[1..]);
      var k := if p[0] >= ESCAPE_CHAR then 2 else 1;
      assert Escape(p)[k..] == Escape(p[1..]);
    }
  }

  lemma {:induction false} ScanEscape(f: seq<byte>, i: nat, p: seq<byte>)
    requires At(f, i, Escape(p)) && i + |Escape(p)| < |f| && Marker(f[i + |Escape(p)|])
    ensures Scan(f, i) == Found(i + |Escape(p)|)
    decreases |p|
  {
    if p != [] {
      var head := if p[0] >= ESCAPE_CHAR then [ESCAPE_CHAR, p[0]] else [p[0]];
      AtSplit(f, i, head, Escape(p[1..]));
      assert f[i] == head[0] by { assert f[i..i + |head|][0] == f[i]; }
      ScanEscape(f, i + |head|, p[1..]);
    }
  }

  /** The props that repair a stray escape character written in front of them: some byte
      below 0xFD comes first, after any number of 0xFD. */
  predicate Absorbs(p: seq<byte>) {
    p != [] && (p[0] < ESCAPE_CHAR || (p[0] == ESCAPE_CHAR && Absorbs(p[1..])))
  }

  /** A type byte of 0xFD and above is escaped by the writer and read raw by the parser. */
  predicate Readable(typ: byte, props: seq<byte>) {
    typ < ESCAPE_CHAR || (typ == ESCAPE_CHAR && Absorbs(props))
  }

  predicate Writable(n: Node) {
    n.Node? ==> Readable(n.typ, n.props) && Writable(n.child) && Writable(n.next)
  }

  /** What the parser makes of `[ESCAPE_CHAR] + Escape(p)`, laid out at i and followed by a marker. */
  predicate StrayOutcome(f: seq<byte>, i: nat, p: seq<byte>) {
    if Absorbs(p) then
      Scan(f, i) == Found(i + 1 + |Escape(p)|) && Unescape([ESCAPE_CHAR] + Escape(p)) == p
    else
      Scan(f, i).Found? ==> i <= Scan(f, i).at <= |f| && Unescape(f[i..Scan(f, i).at]) != p
  }

  lemma {:induction false} StrayEscape(f: seq<byte>, i: nat, p: seq<byte>)
    requires i < |f| && f[i] == ESCAPE_CHAR && At(f, i + 1, Escape(p))
    requires i + 1 + |Escape(p)| < |f| && Marker(f[i + 1 + |Escape(p)|])
    ensures StrayOutcome(f, i, p)
    decreases |p|
  {
    if p == [] {
      ScanSkips(f, i);
    } else {
      assert Escape([p[0]]) + Escape(p[1..]) == Escape(p);
      AtSplit(f, i + 1, Escape([p[0]]), Escape(p[1..]));
      assert f[i + 1] == Escape([p[0]])[0] by { assert f[i + 1..i + 1 + |Escape([p[0]])|][0] == f[i + 1]; }
      if p[0] < ESCAPE_CHAR {
        StrayAbsorbed(f, i, p);
      } else {
        assert f[i + 2] == p[0] by { assert f[i + 1..i + 3][1] == f[i + 2]; }
        if p[0] == ESCAPE_CHAR { StrayEscape(f, i + 2, p[1..]); }
        StrayOnwards(f, i, p);
      }
    }
  }

  lemma StrayOnwards(f: seq<byte>, i: nat, p: seq<byte>)
    requires p != [] && p[0] >= ESCAPE_CHAR && i + 2 < |f|
    requires f[i] == f[i + 1] == ESCAPE_CHAR && f[i + 2] == p[0]
    requires p[0] == ESCAPE_CHAR ==> StrayOutcome(f, i + 2, p[1..])
    ensures StrayOutcome(f, i, p)
  {
    ScanSkips(f, i);
    if p[0] == ESCAPE_CHAR {
      assert [ESCAPE_CHAR] + Escape(p) == [ESCAPE_CHAR, ESCAPE_CHAR] + ([ESCAPE_CHAR] + Escape(p[1..]));
    }
  }

  lemma ScanSkips(f: seq<byte>, i: nat)
    requires i + 1 < |f| && f[i] == ESCAPE_CHAR
    ensures Scan(f, i) == Scan(f, i + 2)
    ensures Scan(f, i).Found? ==>
      && i + 2 <= Scan(f, i).at <= |f|
      && Unescape(f[i..Scan(f, i).at]) == [f[i + 1]] + Unescape(f[i + 2..Scan(f, i).at])
  {
    ScanFinds(f, i + 2);
    if Scan(f, i).Found? {
      assert f[i..Scan(f, i).at][2..] == f[i + 2..Scan(f, i).at];
    }
  }

  lemma StrayAbsorbed(f: seq<byte>, i: nat, p: seq<byte>)
    requires p != [] && p[0] < ESCAPE_CHAR && i + 1 + |Escape(p)| < |f| && f[i] == ESCAPE_CHAR
    requires At(f, i + 2, Escape(p[1..])) && Marker(f[i + 1 + |Escape(p)|])
    ensures Scan(f, i) == Found(i + 1 + |Escape(p)|) && Unescape([ESCAPE_CHAR] + Escape(p)) == p
  {
    assert [ESCAPE_CHAR] + Escape(p) == [ESCAPE_CHAR, p[0]] + Escape(p[1..]);
    ScanEscape(f, i + 2, p[1..]);
    UnescapeEscape(p[1..]);
  }

  predicate HeadMatches(f: seq<byte>, start: nat, typ: byte, props: seq<byte>) {
    && start + 2 <= |f|
    && f[start + 1] == typ
    && Scan(f, start + 2).Found?
    && start + 2 <= Scan(f, start + 2).at <= |f|
    && Unescape(f[start + 2..Scan(f, start + 2).at]) == props
  }

  predicate HeadAt(f: seq<byte>, start: nat, typ: byte, props: seq<byte>) {
    && At(f, start, [NODE_START] + Escape([typ]) + Escape(props))
    && var e := start + 1 + |Escape([typ])| + |Escape(props)|;
    e < |f| && Marker(f[e])
  }

  lemma PlainHead(f: seq<byte>, start: nat, typ: byte, props: seq<byte>)
    requires HeadAt(f, start, typ, props) && typ < ESCAPE_CHAR
    ensures |Escape([typ])| == 1 && Scan(f, start + 2) == Found(start + 2 + |Escape(props)|)
    ensures HeadMatches(f, start, typ, props)
  {
    assert Escape([typ]) == [typ];
    AtSplit(f, start, [NODE_START, typ], Escape(props));
    assert f[start..start + 2][1] == f[start + 1];
    ScanEscape(f, start + 2, props);
    UnescapeEscape(props);
  }

  lemma EscapedHead(f: seq<byte>, start: nat, typ: byte, props: seq<byte>)
    requires HeadAt(f, start, typ, props) && typ >= ESCAPE_CHAR
    ensures start + 2 < |f| && f[start + 1] == ESCAPE_CHAR && f[start + 2] == typ
    ensures |Escape([typ])| == 2 && At(f, start + 3, Escape(props))
    ensures f[start + 2..start + 3 + |Escape(props)|] == [typ] + Escape(props)
  {
    assert Escape([typ]) == [ESCAPE_CHAR, typ];
    var front := [NODE_START, ESCAPE_CHAR, typ];
    assert [NODE_START] + Escape([typ]) == front;
    AtSplit(f, start, front, Escape(props));
    assert f[start..start + 3][1] == f[start + 1] && f[start..start + 3][2] == f[start + 2];
  }

  /** Head of a printed node: the parser finds its type and its props exactly when they are readable. */
  lemma HeadRoundTrip(f: seq<byte>, start: nat, typ: byte, props: seq<byte>)
    requires HeadAt(f, start, typ, props)
    ensures Readable(typ, props) <==> HeadMatches(f, start, typ, props)
    ensures Readable(typ, props) ==> Scan(f, start + 2) == Found(start + 1 + |Escape([typ])| + |Escape(props)|)
  {
    hide Unescape, Scan, At;
    if typ < ESCAPE_CHAR {
      PlainHead(f, start, typ, props);
    } else {
      EscapedHead(f, start, typ, props);
      if typ == ESCAPE_CHAR { StrayEscape(f, start + 2, props); }
    }
  }

  lemma AtParts(f: seq<byte>, i: nat, head: seq<byte>, kids: seq<byte>, rest: seq<byte>)
    requires head != [] && At(f, i, head + kids + [NODE_END] + rest)
    ensures At(f, i, head) && At(f, i + |head|, kids) && At(f, i + |head| + |kids| + 1, rest)
    ensures f[i] == head[0] && i + |head| + |kids| < |f| && f[i + |head| + |kids|] == NODE_END
  {
    AtSplit(f, i, head + kids + [NODE_END], rest);
    AtSplit(f, i, head + kids, [NODE_END]);
    AtSplit(f, i, head, kids);
    assert f[i..i + |head|][0] == f[i];
    assert f[i + |head| + |kids|..i + |head| + |kids| + 1][0] == NODE_END;
  }

  lemma PrintNode(n: Node)
    requires n.Node?
    ensures Print(n) == [NODE_START] + Escape([n.typ]) + Escape(n.props) + Print(n.child) + [NODE_END] + Print(n.next)
  {
  }

  /** Where the parts of a printed node lie. */
  lemma Layout(f: seq<byte>, start: nat, n: Node) returns (e: nat, c: nat)
    requires n.Node? && At(f, start, Print(n))
    ensures At(f, start, [NODE_START] + Escape([n.typ]) + Escape(n.props))
    ensures e == start + 1 + |Escape([n.typ])| + |Escape(n.props)|
    ensures At(f, e, Print(n.child)) && c == e + |Print(n.child)|
    ensures c < |f| && f[start] == NODE_START && f[c] == NODE_END
    ensures At(f, c + 1, Print(n.next)) && c + 1 + |Print(n.next)| == start + |Print(n)|
  {
    hide Print, Escape, At;
    PrintNode(n);
    var head := [NODE_START] + Escape([n.typ]) + Escape(n.props);
    e := start + |head|;
    c := e + |Print(n.child)|;
    AtParts(f, start, head, Print(n.child), Print(n.next));
  }

  predicate ReadsBack(f: seq<byte>, p: Parsed, n: Node) {
    p.Good? && InFile(f, p.span) && Decode(f, p.span) == n
  }

  /** p, parsed from where n was printed up to `end`, gives n back exactly when n is writable. */
  predicate Faithful(f: seq<byte>, p: Parsed, n: Node, end: nat) {
    && (Writable(n) <==> ReadsBack(f, p, n))
    && (Writable(n) ==> p.at == end)
  }

  /** How a node's parse p depends on that of its children (at e) and of its siblings (behind c). */
  predicate Step(f: seq<byte>, start: nat, e: nat, c: nat, kids: Parsed, rest: Parsed, p: Parsed) {
    && start + 2 <= e <= |f|
    && (p.Good? ==> kids.Good? && p.span.Span? && p.span.child == kids.span)
    && (kids.Good? && kids.at == c ==>
      p == if rest.Bad? then Bad else Good(Span(f[start + 1], start, e - start - 2, kids.span, rest.span), rest.at))
  }

  lemma FaithfulNode(f: seq<byte>, start: nat, n: Node, e: nat, c: nat, end: nat, kids: Parsed, rest: Parsed, p: Parsed)
    requires n.Node? && start + 2 <= e <= c < |f|
    requires f[start + 1] == n.typ && Unescape(f[start + 2..e]) == n.props && Readable(n.typ, n.props)
    requires Faithful(f, kids, n.child, c) && Faithful(f, rest, n.next, end)
    requires Step(f, start, e, c, kids, rest, p)
    ensures Faithful(f, p, n, end)
  {
    if kids.Good? && kids.at == c && rest.Good? {
      assert InFile(f, kids.span) && InFile(f, rest.span) ==> Raw(f, p.span) == f[start + 2..e];
    }
  }

  lemma ParseStep(f: seq<byte>, start: nat, e: nat, c: nat, kids: Parsed, rest: Parsed, p: Parsed)
    requires start + 2 <= e <= c < |f| && f[start] == NODE_START && Scan(f, start + 2) == Found(e)
    requires kids == Parse(f, e) && rest == Parse(f, c + 1) && p == Parse(f, start)
    ensures Step(f, start, e, c, kids, rest, p)
  {
  }

  /** Printing then parsing gives the same forest back exactly when every node is readable,
      and then the parser stops right behind it. */
  lemma {:induction false} RoundTripAt(f: seq<byte>, start: nat, n: Node, end: nat, p: Parsed)
    requires At(f, start, Print(n)) && end == start + |Print(n)|
    requires end == |f| || f[end] == NODE_END
    requires p == Parse(f, start)
    ensures Faithful(f, p, n, end)
    decreases n
  {
    hide Unescape, Escape, Readable;
    if n == NoNode {
      assert p == Good(NoSpan, start);
    } else {
      var e, c := Parts(f, start, n, end);
      if !Readable(n.typ, n.props) {
        WrongHead(f, start, n, p);
      } else {
        var kids, rest := Parse(f, e), Parse(f, c + 1);
        RoundTripAt(f, e, n.child, c, kids);
        RoundTripAt(f, c + 1, n.next, end, rest);
        ParseStep(f, start, e, c, kids, rest, p);
        FaithfulNode(f, start, n, e, c, end, kids, rest, p);
      }
    }
  }

  /** Layout, with what the parser makes of the head. */
  lemma Parts(f: seq<byte>, start: nat, n: Node, end: nat) returns (e: nat, c: nat)
    requires n.Node? && At(f, start, Print(n)) && end == start + |Print(n)|
    ensures start + 2 <= e <= c < |f| && f[start] == NODE_START && f[c] == NODE_END
    ensures At(f, e, Print(n.child)) && c == e + |Print(n.child)|
    ensures At(f, c + 1, Print(n.next)) && end == c + 1 + |Print(n.next)|
    ensures !Readable(n.typ, n.props) ==> !HeadMatches(f, start, n.typ, n.props)
    ensures Readable(n.typ, n.props) ==>
      Scan(f, start + 2) == Found(e) && f[start + 1] == n.typ && Unescape(f[start + 2..e]) == n.props
  {
    hide Print;
    e, c := Layout(f, start, n);
    MarkerAt(f, e, n.child);
    HeadRoundTrip(f, start, n.typ, n.props);
  }

  lemma MarkerAt(f: seq<byte>, i: nat, n: Node)
    requires At(f, i, Print(n)) && i + |Print(n)| < |f| && f[i + |Print(n)|] == NODE_END
    ensures Marker(f[i])
  {
    if n.Node? { var _, _ := Layout(f, i, n); }
  }

  lemma WrongHead(f: seq<byte>, start: nat, n: Node, p: Parsed)
    requires n.Node? && start < |f| && f[start] == NODE_START && !HeadMatches(f, start, n.typ, n.props)
    requires p == Parse(f, start)
    ensures !ReadsBack(f, p, n)
  {
    hide Parse;
    if p.Good? && InFile(f, p.span) {
      var e, _ := ParseParts(f, start);
      assert Raw(f, p.span) == f[start + 2..e] && p.span.typ == f[start + 1];
      assert Decode(f, p.span).typ != n.typ || Decode(f, p.span).props != n.props;
    }
  }

  const VERSION: seq<byte> := [0, 0, 0, 0]

  /** openFile on a freshly read file: version word, then the root node at offset 4. */
  function Load(f: seq<byte>): Parsed {
    if |f| < 5 || f[..4] != VERSION || f[4] != NODE_START then Bad else Parse(f, 4)
  }

  /** The law of the format, on every forest: what comes back is what was written exactly when
      every type byte is below 0xFD or is 0xFD in front of props that absorb the stray escape. */
  lemma RoundTrip(n: Node)
    requires n.Node?
    ensures var f := VERSION + Print(n);
      Writable(n) <==> Load(f).Good? && InFile(f, Load(f).span) && Decode(f, Load(f).span) == n
  {
    var f := VERSION + Print(n);
    assert f[4..] == Print(n);
    assert f[..4] == VERSION;
    var _, _ := Layout(f, 4, n);
    RoundTripAt(f, 4, n, |f|, Parse(f, 4));
  }

  /** A node of type 0xFE written alone is read back as nothing. */
  lemma TypeMarkerLost()
    ensures Load(VERSION + Print(Node(NODE_START, [], NoNode, NoNode))).Bad?
  {
    var f := [0, 0, 0, 0, NODE_START, ESCAPE_CHAR, NODE_START, NODE_END];
    assert Escape([NODE_START]) == [ESCAPE_CHAR, NODE_START] + Escape([]);
    assert VERSION + Print(Node(NODE_START, [], NoNode, NoNode)) == f;
    assert Scan(f, 6) == Found(6);
    assert Scan(f, 8) == Nowhere;
    assert Parse(f, 6).Bad?;
  }
}
