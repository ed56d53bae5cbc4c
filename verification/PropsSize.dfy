/** setProps takes a 16-bit size: what longer props are cut to, and that they never come back. */
module PropsSize {
  import opened Bytes
  import opened NodeFormat

  /** What a size of 16 bits leaves of the props. */
  function CutProps(props: seq<byte>): seq<byte> {
    props[..|props| % 0x1_0000]
  }

  /** The forest that is written for n. */
  function Cut(n: Node): Node {
    match n
    case NoNode => NoNode
    case Node(typ, props, child, next) => Node(typ, CutProps(props), Cut(child), Cut(next))
  }

  /** Every node's props have a size of 16 bits. */
  predicate Short(n: Node) {
    n.Node? ==> |n.props| < 0x1_0000 && Short(n.child) && Short(n.next)
  }

  lemma {:induction false} ShortIsWhole(n: Node)
    ensures Short(n) <==> Cut(n) == n
  {
    if n.Node? {
      ShortIsWhole(n.child);
      ShortIsWhole(n.next);
    }
  }

  // ---------------------------------------------------------------- lengths

  lemma {:induction false} EscapeTake(p: seq<byte>, k: nat)
    requires k <= |p|
    ensures |Escape(p)| >= |Escape(p[..k])| + |p| - k
  {
    if p != [] {
      if k == 0 {
        EscapeTake(p[1..], 0);
      } else {
        assert p[..k][1..] == p[1..][..k - 1];
        EscapeTake(p[1..], k - 1);
      }
    }
  }

  /** Cleanly escaped bytes are no shorter than what the writer makes of their meaning. */
  lemma {:induction false} NoShorter(raw: seq<byte>)
    requires WellEscaped(raw)
    ensures |raw| >= |Escape(Unescape(raw))|
  {
    if raw != [] {
      var k := if raw[0] == ESCAPE_CHAR then 2 else 1;
      NoShorter(raw[k..]);
      var rest := Unescape(raw[k..]);
      assert Unescape(raw) == [raw[k - 1]] + rest && ([raw[k - 1]] + rest)[1..] == rest;
    }
  }

  lemma CutLoses(props: seq<byte>)
    requires CutProps(props) != props
    ensures |Escape(props)| >= |Escape(CutProps(props))| + 0x1_0000
  {
    EscapeTake(props, |props| % 0x1_0000);
  }

  lemma CutNoLonger(props: seq<byte>)
    ensures |Escape(props)| >= |Escape(CutProps(props))|
  {
    EscapeTake(props, |props| % 0x1_0000);
  }

  // ---------------------------------------------------------------- ahead of the writer

  /** The parser's node at s, given back as typ and props. */
  predicate Reads(f: seq<byte>, s: nat, typ: byte, props: seq<byte>, e: nat) {
    s < |f| && f[s] == NODE_START && HeadMatches(f, s, typ, props) && Scan(f, s + 2) == Found(e)
  }

  lemma ReadsLength(f: seq<byte>, s: nat, typ: byte, props: seq<byte>, e: nat)
    requires Reads(f, s, typ, props, e)
    ensures s + 2 <= e <= |f| && e - (s + 2) >= |Escape(props)|
  {
    ScanFinds(f, s + 2);
    NoShorter(f[s + 2..e]);
  }

  /** Where the writer's bytes of a head hold a byte that looks like a start: in an escaped type, or behind the first
      byte of the props. */
  lemma StartInHead(f: seq<byte>, start: nat, typ: byte, cut: seq<byte>, s: nat)
    requires At(f, start, [NODE_START] + Escape([typ]) + Escape(cut))
    requires start < s < start + 1 + |Escape([typ])| + |Escape(cut)| && f[s] == NODE_START
    ensures (s == start + 2 && typ == NODE_START) || s > start + 1 + |Escape([typ])|
    ensures s == start + 2 && s < start + 1 + |Escape([typ])| ==> cut == [] || f[s + 1] != NODE_START
  {
    var head := [NODE_START] + Escape([typ]) + Escape(cut);
    assert Escape([typ]) == if typ >= ESCAPE_CHAR then [ESCAPE_CHAR, typ] else [typ];
    assert f[s] == f[start..start + |head|][s - start] == head[s - start];
    if s + 1 < start + |head| { assert f[s + 1] == f[start..start + |head|][s + 1 - start] == head[s + 1 - start]; }
  }

  /** From anywhere behind the writer's start of a node the parser can only give that node back if it reads on behind
      the node's props: what is left of them is too short. */
  lemma ReadsPast(f: seq<byte>, start: nat, typ: byte, cut: seq<byte>, s: nat, props: seq<byte>, e: nat, at: nat)
    requires At(f, start, [NODE_START] + Escape([typ]) + Escape(cut))
    requires e == start + 1 + |Escape([typ])| + |Escape(cut)|
    requires e < |f| && start < s && Reads(f, s, typ, props, at) && |Escape(props)| >= |Escape(cut)|
    ensures at > e
  {
    ReadsLength(f, s, typ, props, at);
    if s < e { StartInHead(f, start, typ, cut, s); }
  }

  lemma PartsOf(f: seq<byte>, s: nat, n: Node, p: Parsed) returns (e: nat, c: nat)
    requires n.Node? && s <= |f| && p == Parse(f, s) && ReadsBack(f, p, n)
    ensures Reads(f, s, n.typ, n.props, e) && e <= c < |f| && p.Good?
    ensures ReadsBack(f, Parse(f, e), n.child) && Parse(f, e).at == c
    ensures ReadsBack(f, Parse(f, c + 1), n.next) && Parse(f, c + 1).Good? && p.at == Parse(f, c + 1).at
  {
    ParsedNode(f, s, n, p);
    e, c := ParseParts(f, s);
    hide Parse, Scan, Unescape, WellEscaped;
    SpanReads(f, s, e, Parse(f, e).span, Parse(f, c + 1).span, n);
  }

  lemma ParsedNode(f: seq<byte>, s: nat, n: Node, p: Parsed)
    requires n.Node? && s <= |f| && p == Parse(f, s) && ReadsBack(f, p, n)
    ensures s < |f| && f[s] == NODE_START
  {
  }

  lemma SpanReads(f: seq<byte>, s: nat, e: nat, kids: Span, rest: Span, n: Node)
    requires s + 2 <= e <= |f| && n.Node?
    requires var span := Span(f[s + 1], s, e - s - 2, kids, rest); InFile(f, span) && Decode(f, span) == n
    ensures f[s + 1] == n.typ && Unescape(f[s + 2..e]) == n.props
    ensures InFile(f, kids) && Decode(f, kids) == n.child && InFile(f, rest) && Decode(f, rest) == n.next
  {
  }

  /** Where the writer's bytes of a node lie. */
  lemma Written(f: seq<byte>, start: nat, n: Node, end: nat) returns (e: nat, c: nat)
    requires n.Node? && At(f, start, Print(Cut(n))) && end == start + |Print(Cut(n))|
    ensures HeadAt(f, start, n.typ, CutProps(n.props))
    ensures e == start + 1 + |Escape([n.typ])| + |Escape(CutProps(n.props))|
    ensures At(f, e, Print(Cut(n.child))) && c == e + |Print(Cut(n.child))| && c < |f| && f[c] == NODE_END
    ensures At(f, c + 1, Print(Cut(n.next))) && end == c + 1 + |Print(Cut(n.next))|
  {
    hide Print, Escape, At;
    var m := Cut(n);
    e, c := Layout(f, start, m);
    MarkerAt(f, e, m.child);
  }

  /** Once the parser is ahead of the writer it stays ahead, if it is to give the same forest back. */
  lemma {:induction false} StaysAhead(f: seq<byte>, start: nat, n: Node, end: nat, s: nat, p: Parsed)
    requires At(f, start, Print(Cut(n))) && end == start + |Print(Cut(n))|
    requires start < s <= |f| && p == Parse(f, s) && ReadsBack(f, p, n)
    ensures p.at > end
    decreases n
  {
    hide Escape, Print, Parse, Cut, ReadsBack, Reads, HeadAt, CutProps;
    if n == NoNode {
      NothingRead(f, start, n, s);
    } else {
      var e, c := Written(f, start, n, end);
      var e', c' := PartsOf(f, s, n, p);
      CutNoLonger(n.props);
      HeadPast(f, start, n.typ, CutProps(n.props), s, n.props, e, e');
      StaysAhead(f, e, n.child, c, e', Parse(f, e'));
      StaysAhead(f, c + 1, n.next, end, c' + 1, Parse(f, c' + 1));
    }
  }

  lemma HeadPast(f: seq<byte>, start: nat, typ: byte, cut: seq<byte>, s: nat, props: seq<byte>, e: nat, at: nat)
    requires HeadAt(f, start, typ, cut) && e == start + 1 + |Escape([typ])| + |Escape(cut)|
    requires start < s && Reads(f, s, typ, props, at) && |Escape(props)| >= |Escape(cut)|
    ensures e < at <= |f|
  {
    ReadsPast(f, start, typ, cut, s, props, e, at);
    ReadsLength(f, s, typ, props, at);
  }

  lemma WholeIsShort(props: seq<byte>)
    requires CutProps(props) == props
    ensures |props| < 0x1_0000
  {
  }

  lemma NothingRead(f: seq<byte>, start: nat, n: Node, s: nat)
    requires n == NoNode && s <= |f| && ReadsBack(f, Parse(f, s), n)
    ensures Parse(f, s).at == s && |Print(Cut(n))| == 0
  {
  }

  /** A head with cut props is not given back without reading on behind it. */
  lemma LevelHead(f: seq<byte>, start: nat, typ: byte, props: seq<byte>, e: nat, at: nat)
    requires HeadAt(f, start, typ, CutProps(props)) && e == start + 1 + |Escape([typ])| + |Escape(CutProps(props))|
    requires Reads(f, start, typ, props, at)
    ensures at <= |f| && if CutProps(props) == props then at == e else at > e
  {
    ReadsLength(f, start, typ, props, at);
    if CutProps(props) == props {
      HeadRoundTrip(f, start, typ, props);
    } else {
      CutLoses(props);
      assert |Escape([typ])| <= 2 by { assert [typ][1..] == []; }
    }
  }

  /** Started where the writer did, the parser gives the forest back only if nothing was cut, or ends up ahead. */
  lemma {:induction false} LevelOrAhead(f: seq<byte>, start: nat, n: Node, end: nat, p: Parsed)
    requires At(f, start, Print(Cut(n))) && end == start + |Print(Cut(n))|
    requires start <= |f| && p == Parse(f, start) && ReadsBack(f, p, n)
    ensures p.at > end || (p.at == end && Short(n))
    decreases n
  {
    hide Escape, Print, Parse, Cut, ReadsBack, Reads, HeadAt, CutProps;
    if n == NoNode {
      NothingRead(f, start, n, start);
    } else {
      var e, c := Written(f, start, n, end);
      var e', c' := PartsOf(f, start, n, p);
      LevelHead(f, start, n.typ, n.props, e, e');
      if CutProps(n.props) == n.props {
        WholeIsShort(n.props);
        LevelOrAhead(f, e, n.child, c, Parse(f, e'));
      } else {
        StaysAhead(f, e, n.child, c, e', Parse(f, e'));
      }
      if c' == c {
        LevelOrAhead(f, c + 1, n.next, end, Parse(f, c' + 1));
      } else {
        StaysAhead(f, c + 1, n.next, end, c' + 1, Parse(f, c' + 1));
      }
    }
  }

  /** Whatever the loader makes of a forest that setProps has cut, it is not the forest. */
  lemma CutIsLost(n: Node)
    requires n.Node?
    ensures var f := VERSION + Print(Cut(n)); ReadsBack(f, Load(f), n) ==> Short(n)
  {
    hide Print, Parse, Decode;
    var f := VERSION + Print(Cut(n));
    assert f[4..] == Print(Cut(n));
    if ReadsBack(f, Load(f), n) {
      ParseEnds(f, 4);
      LevelOrAhead(f, 4, n, |f|, Parse(f, 4));
    }
  }

  lemma ParseEnds(f: seq<byte>, start: nat)
    requires start <= |f|
    ensures Parse(f, start).Good? ==> Parse(f, start).at <= |f|
  {
  }
}
