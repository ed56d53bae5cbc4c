/** The parser of node files, building the linked tree of NodeStruct objects. */
module NodeParsing {
  import opened Bytes
  import opened NodeFormat
  import opened CachedReading

  class NodeStruct {
    const start: nat
    var propsSize: nat
    var typ: byte
    var next: NodeStruct?
    var child: NodeStruct?

    constructor (start: nat)
      ensures this.start == start && next == null && child == null
    {
      this.start := start;
      propsSize, typ, next, child := 0, 0, null, null;
    }
  }

  /** The linked nodes from n on are the parsed forest s; R holds them all. */
  ghost predicate Holds(n: NodeStruct?, s: Span, R: set<NodeStruct>)
    reads R
    decreases s
  {
    match s
    case NoSpan => n == null
    case Span(typ, start, size, child, next) =>
      && n != null && n in R
      && n.typ == typ && n.start == start && n.propsSize == size
      && Holds(n.child, child, R)
      && Holds(n.next, next, R)
  }

  /** The siblings from n on carry the spans and lead to cur. */
  ghost predicate Leads(n: NodeStruct?, spans: seq<Span>, cur: NodeStruct?, R: set<NodeStruct>)
    reads R
    decreases |spans|
  {
    if spans == [] then n == cur
    else
      && n != null && n in R && spans[0].Span?
      && n.typ == spans[0].typ && n.start == spans[0].start && n.propsSize == spans[0].size
      && Holds(n.child, spans[0].child, R)
      && Leads(n.next, spans[1..], cur, R)
  }

  /** Sibling spans in a row, followed by rest. */
  function Siblings(spans: seq<Span>, rest: Span): Span {
    if spans == [] then rest
    else if spans[0].NoSpan? then NoSpan
    else spans[0].(next := Siblings(spans[1..], rest))
  }

  function Prepend(spans: seq<Span>, p: Parsed): Parsed {
    if p.Bad? then Bad else Good(Siblings(spans, p.span), p.at)
  }

  lemma {:induction false} SiblingsMore(spans: seq<Span>, s: Span, rest: Span)
    requires s.Span?
    ensures Siblings(spans + [s], rest) == Siblings(spans, s.(next := rest))
  {
    if spans != [] {
      SiblingsMore(spans[1..], s, rest);
      assert (spans + [s])[1..] == spans[1..] + [s];
    }
  }

  lemma PrependMore(spans: seq<Span>, s: Span, rest: Parsed, mine: Parsed)
    requires s.Span? && mine == Join(s, rest)
    ensures Prepend(spans + [s], rest) == Prepend(spans, mine)
  {
    if rest.Good? { SiblingsMore(spans, s, rest.span); }
  }

  lemma {:induction false} HoldsMore(n: NodeStruct?, s: Span, R: set<NodeStruct>, S: set<NodeStruct>)
    requires Holds(n, s, R) && R <= S
    ensures Holds(n, s, S)
    decreases s
  {
    if s.Span? {
      HoldsMore(n.child, s.child, R, S);
      HoldsMore(n.next, s.next, R, S);
    }
  }

  /** cur is finished: the siblings now lead behind it. */
  lemma {:induction false} Advance(n: NodeStruct?, spans: seq<Span>, cur: NodeStruct, s: Span,
                                   done: set<NodeStruct>, kids: set<NodeStruct>, R: set<NodeStruct>)
    requires Leads(n, spans, cur, done) && R == done + kids + {cur}
    requires s.Span? && cur.typ == s.typ && cur.start == s.start && cur.propsSize == s.size
    requires Holds(cur.child, s.child, kids)
    ensures Leads(n, spans + [s], cur.next, R)
    decreases |spans|
  {
    if spans == [] {
      HoldsMore(cur.child, s.child, kids, R);
      assert (spans + [s])[1..] == [];
    } else {
      HoldsMore(n.child, spans[0].child, done, R);
      Advance(n.next, spans[1..], cur, s, done, kids, R);
      assert (spans + [s])[1..] == spans[1..] + [s];
    }
  }

  lemma {:induction false} Finish(n: NodeStruct?, spans: seq<Span>, R: set<NodeStruct>)
    requires Leads(n, spans, null, R)
    ensures Holds(n, Siblings(spans, NoSpan), R)
    decreases |spans|
  {
    if spans != [] { Finish(n.next, spans[1..], R); }
  }

  lemma Starting(node: NodeStruct, p: Parsed)
    ensures Leads(node, [], node, {}) && p == Prepend([], p)
  {
  }

  lemma NoNodes(R: set<NodeStruct>)
    ensures Holds(null, NoSpan, R)
  {
  }

  /** What follows a node ends its siblings, or is no node. */
  lemma Behind(f: seq<byte>, at: nat, rest: Parsed)
    requires at <= |f| && rest == Parse(f, at)
    ensures at == |f| || f[at] == NODE_END ==> rest == Good(NoSpan, at)
    ensures at < |f| && !Marker(f[at]) ==> rest.Bad?
  {
  }

  /** A child node starts: closes the props of cur and parses the child with its siblings. */
  method ParseChild(disk: CachedFile, cur: NodeStruct, ghost kids: Parsed) returns (ok: bool, ghost R: set<NodeStruct>)
    requires disk.Ready() && cur.start + 2 < disk.at <= |disk.file| && disk.file[disk.at - 1] == NODE_START
    requires kids == Parse(disk.file, disk.at - 1)
    modifies disk, cur
    ensures disk.Ready() && fresh(R) && cur.typ == old(cur.typ) && cur.next == old(cur.next)
    ensures ok <==> kids.Good?
    ensures ok ==> disk.at == kids.at && cur.propsSize == old(disk.at) - cur.start - 3 && Holds(cur.child, kids.span, R)
    decreases |disk.file| - disk.at + 1, 3
  {
    var pos := disk.SafeTell();
    var childNode := new NodeStruct(pos);
    cur.propsSize := pos - cur.start - 2;
    cur.child := childNode;
    ok, R := ParseNode(disk, childNode, kids);
  }

  lemma ScanHere(f: seq<byte>, i: nat)
    ensures i >= |f| ==> Scan(f, i) == Nowhere
    ensures i < |f| && Marker(f[i]) ==> Scan(f, i) == Found(i)
  {
  }

  /** Reads type, props and children of cur, up to and including its NODE_END. */
  method ParseBody(disk: CachedFile, cur: NodeStruct, ghost end: Found, ghost kids: Parsed)
    returns (ok: bool, ghost R: set<NodeStruct>)
    requires disk.Ready() && disk.at == cur.start + 1 <= |disk.file| && cur.child == null
    requires end == Scan(disk.file, cur.start + 2) && (end.Found? ==> end.at < |disk.file|)
    requires kids == if end.Found? then Parse(disk.file, end.at) else Bad
    modifies disk, cur
    ensures disk.Ready() && fresh(R) && cur.next == old(cur.next)
    ensures ok <==> kids.Good? && kids.at < |disk.file|
    ensures ok ==> disk.at == kids.at + 1 && Holds(cur.child, kids.span, R)
    ensures ok ==> cur.typ == disk.file[cur.start + 1] && cur.propsSize == end.at - cur.start - 2
    decreases |disk.file| - cur.start, 0
  {
    hide Parse, Holds, Scan;
    ok, R := false, {};
    ScanHere(disk.file, cur.start + 2);
    var got, byte := disk.ReadByte();
    if !got { return; }
    cur.typ := byte;
    var setPropsSize := false;
    while true
      invariant disk.Ready() && fresh(R) && cur.typ == disk.file[cur.start + 1] && cur.next == old(cur.next)
      invariant cur.start + 2 <= disk.at <= |disk.file|
      invariant if setPropsSize then
          && kids.Good? && disk.at == kids.at && end.Found? && disk.file[end.at] == NODE_START
          && cur.propsSize == end.at - cur.start - 2 && Holds(cur.child, kids.span, R)
        else cur.child == null && end == Scan(disk.file, disk.at)
      decreases |disk.file| - disk.at
    {
      ScanHere(disk.file, disk.at);
      got, byte := disk.ReadUnit();
      if !got { return false, {}; }
      if byte == NODE_START {
        assert !setPropsSize;
        setPropsSize := true;
        ok, R := ParseChild(disk, cur, kids);
        if !ok { return; }
      } else if byte == NODE_END {
        if !setPropsSize {
          Behind(disk.file, end.at, kids);
          NoNodes(R);
          var pos := disk.SafeTell();
          cur.propsSize := pos - cur.start - 2;
        }
        return true, R;
      } else {
        assert !setPropsSize;
      }
    }
  }

  /** The byte behind a node. */
  method ReadBehind(disk: CachedFile, cur: NodeStruct) returns (ok: bool, sibling: NodeStruct?)
    requires disk.Ready() && cur.next == null
    modifies disk, cur`next
    ensures disk.Ready() && cur.next == sibling
    ensures ok <==> old(disk.at) == |disk.file| || Marker(disk.file[old(disk.at)])
    ensures ok && sibling == null ==>
      disk.at == old(disk.at) && (disk.at < |disk.file| ==> disk.file[disk.at] == NODE_END)
    ensures ok && sibling != null ==>
      && fresh(sibling) && sibling.next == null && sibling.child == null && sibling.start == old(disk.at)
      && disk.at == old(disk.at) + 1 <= |disk.file| && disk.file[old(disk.at)] == NODE_START
  {
    ok, sibling := true, null;
    var got, byte := disk.ReadByte();
    if got {
      if byte == NODE_START {
        var pos := disk.SafeTell();
        sibling := new NodeStruct(pos);
        cur.next := sibling;
      } else if byte == NODE_END {
        var pos := disk.SafeTell();
        disk.SafeSeek(pos);
      } else {
        ok := false;
      }
    }
  }

  /** One node and the byte behind it: the start of a sibling, the parent's end (given back), or the end of the file. */
  method ParseOne(disk: CachedFile, cur: NodeStruct, ghost end: Found, ghost kids: Parsed)
    returns (ok: bool, sibling: NodeStruct?, ghost R: set<NodeStruct>)
    requires disk.Ready() && disk.at == cur.start + 1 <= |disk.file| && cur.child == null && cur.next == null
    requires end == Scan(disk.file, cur.start + 2) && (end.Found? ==> end.at < |disk.file|)
    requires kids == if end.Found? then Parse(disk.file, end.at) else Bad
    modifies disk, cur
    ensures disk.Ready() && fresh(R) && cur.next == sibling
    ensures ok <==>
      && kids.Good? && kids.at < |disk.file|
      && (kids.at + 1 == |disk.file| || Marker(disk.file[kids.at + 1]))
    ensures ok ==> cur.typ == disk.file[cur.start + 1] && cur.propsSize == end.at - cur.start - 2
    ensures ok ==> Holds(cur.child, kids.span, R)
    ensures ok && sibling == null ==>
      disk.at == kids.at + 1 && (disk.at < |disk.file| ==> disk.file[disk.at] == NODE_END)
    ensures ok && sibling != null ==>
      && fresh(sibling) && sibling !in R && sibling.next == null && sibling.child == null
      && disk.at == kids.at + 2 <= |disk.file| && sibling.start == kids.at + 1 && disk.file[kids.at + 1] == NODE_START
    decreases |disk.file| - cur.start, 1
  {
    hide Parse, Scan, Holds;
    ok, R := ParseBody(disk, cur, end, kids);
    sibling := null;
    if ok { ok, sibling := ReadBehind(disk, cur); }
  }

  /** Parses the node whose NODE_START byte was just read, and its siblings. */
  method ParseNode(disk: CachedFile, node: NodeStruct, ghost p: Parsed) returns (ok: bool, ghost R: set<NodeStruct>)
    requires disk.Ready() && disk.at == node.start + 1 <= |disk.file|
    requires disk.file[node.start] == NODE_START && node.child == null && node.next == null
    requires p == Parse(disk.file, node.start)
    modifies disk, node
    ensures disk.Ready() && fresh(R - {node})
    ensures ok <==> p.Good?
    ensures ok ==> disk.at == p.at && Holds(node, p.span, R)
    decreases |disk.file| - node.start, 2
  {
    hide Parse, Scan, Siblings, Holds, Leads;
    var cur: NodeStruct := node;
    ghost var spans, done: set<NodeStruct>, mine := [], {}, p;
    Starting(node, p);
    while true
      invariant disk.Ready() && disk.at == cur.start + 1 <= |disk.file|
      invariant disk.file[cur.start] == NODE_START && cur.child == null && cur.next == null
      invariant node.start <= cur.start && mine == Parse(disk.file, cur.start) && p == Prepend(spans, mine)
      invariant cur !in done && fresh(done - {node}) && (cur == node || fresh(cur))
      invariant Leads(node, spans, cur, done)
      decreases |disk.file| - cur.start
    {
      ghost var end := Scan(disk.file, cur.start + 2);
      ghost var kids := if end.Found? && end.at <= |disk.file| then Parse(disk.file, end.at) else Bad;
      ghost var rest := if kids.Good? && kids.at < |disk.file| then Parse(disk.file, kids.at + 1) else Bad;
      ghost var s := Alone(disk.file, cur.start, end, kids);
      ParseIsJoin(disk.file, cur.start, end, kids, rest, mine);
      if kids.Good? && kids.at < |disk.file| { Behind(disk.file, kids.at + 1, rest); }
      var parsed, sibling, nodes := ParseOne(disk, cur, end, kids);
      if !parsed { return false, {}; }
      Advance(node, spans, cur, s, done, nodes, done + nodes + {cur});
      PrependMore(spans, s, rest, mine);
      spans, done := spans + [s], done + nodes + {cur};
      if sibling == null {
        Finish(node, spans, done);
        return true, done;
      }
      cur, mine := sibling, rest;
    }
  }
}
