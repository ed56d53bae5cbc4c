/** The buffer that the props of all nodes go through: how long they are, and whether they fit it. */
module NodeBuffer {
  import opened Bytes
  import opened NodeFormat

  /** The buffer's length once props of this size are to be fetched. */
  function Grown(length: nat, size: nat): nat {
    if size >= length then length + 1024 else length
  }

  function GrownBy(length: nat, sizes: seq<nat>): nat
    decreases |sizes|
  {
    if sizes == [] then length else GrownBy(Grown(length, sizes[0]), sizes[1..])
  }

  /** One after the other, props of these sizes fit the buffer, which grows at most once for each. */
  predicate Fit(length: nat, sizes: seq<nat>)
    decreases |sizes|
  {
    sizes == [] || (sizes[0] <= Grown(length, sizes[0]) && Fit(Grown(length, sizes[0]), sizes[1..]))
  }

  lemma {:induction false} FitSplit(length: nat, first: seq<nat>, rest: seq<nat>)
    ensures Fit(length, first + rest) <==> Fit(length, first) && Fit(GrownBy(length, first), rest)
    ensures GrownBy(length, first + rest) == GrownBy(GrownBy(length, first), rest)
    decreases |first|
  {
    if first == [] {
      assert first + rest == rest;
    } else {
      assert (first + rest)[1..] == first[1..] + rest;
      FitSplit(Grown(length, first[0]), first[1..], rest);
    }
  }

  lemma NoneFit(length: nat)
    ensures Fit(length, []) && GrownBy(length, []) == length
  {
  }

  /** Props of at most 2048 bytes always fit. */
  lemma {:induction false} SmallFit(length: nat, sizes: seq<nat>)
    requires length >= 1024 && forall i | 0 <= i < |sizes| :: sizes[i] <= 2048
    ensures Fit(length, sizes)
    decreases |sizes|
  {
    if sizes != [] { SmallFit(Grown(length, sizes[0]), sizes[1..]); }
  }

  /** The lengths of the props of a parsed forest: a node's own, those of its children, those of its siblings. */
  function SpanSizes(s: Span): seq<nat> {
    match s
    case NoSpan => []
    case Span(_, _, size, child, next) => [size] + SpanSizes(child) + SpanSizes(next)
  }

  /** The lengths of the props as a forest is written; the escape in front of a type byte is read as theirs. */
  function WrittenSizes(n: Node): seq<nat> {
    match n
    case NoNode => []
    case Node(typ, props, child, next) =>
      [|Escape([typ])| - 1 + |Escape(props)|] + WrittenSizes(child) + WrittenSizes(next)
  }

  lemma NodeFit(length: nat, size: nat, child: seq<nat>, next: seq<nat>)
    ensures var first := Grown(length, size);
      && (Fit(length, [size] + child + next) <==>
            size <= first && Fit(first, child) && Fit(GrownBy(first, child), next))
      && GrownBy(length, [size] + child + next) == GrownBy(GrownBy(first, child), next)
  {
    assert ([size] + child + next)[1..] == child + next;
    FitSplit(Grown(length, size), child, next);
  }

  predicate SameSizes(p: Parsed, n: Node, end: nat) {
    p.Good? && p.at == end && SpanSizes(p.span) == WrittenSizes(n)
  }

  /** A writable forest is parsed with the sizes that it was written with. */
  lemma {:induction false} SizesBack(f: seq<byte>, start: nat, n: Node, end: nat, p: Parsed)
    requires At(f, start, Print(n)) && end == start + |Print(n)|
    requires (end == |f| || f[end] == NODE_END) && p == Parse(f, start) && Writable(n)
    ensures SameSizes(p, n, end)
    decreases n
  {
    hide Unescape, Escape, Readable, Scan, Print, Parse, SameSizes;
    if n == NoNode {
      NothingBack(f, start, n, end);
    } else {
      var e, c := Parts(f, start, n, end);
      EndOf(f, start, n, e, c);
      var kids, rest := Parse(f, e), Parse(f, c + 1);
      SizesBack(f, e, n.child, c, kids);
      SizesBack(f, c + 1, n.next, end, rest);
      ParseStep(f, start, e, c, kids, rest, p);
      SameNode(f, start, n, e, c, end, kids, rest, p);
    }
  }

  lemma NothingBack(f: seq<byte>, start: nat, n: Node, end: nat)
    requires n == NoNode && end == start + |Print(n)| <= |f| && (end == |f| || f[end] == NODE_END)
    ensures SameSizes(Parse(f, start), n, end)
  {
  }

  lemma SameNode(f: seq<byte>, start: nat, n: Node, e: nat, c: nat, end: nat, kids: Parsed, rest: Parsed, p: Parsed)
    requires n.Node? && start + 2 <= e < |f| && e - start - 2 == |Escape([n.typ])| - 1 + |Escape(n.props)|
    requires SameSizes(kids, n.child, c) && SameSizes(rest, n.next, end) && Step(f, start, e, c, kids, rest, p)
    ensures SameSizes(p, n, end)
  {
  }

  lemma EndOf(f: seq<byte>, start: nat, n: Node, e: nat, c: nat)
    requires n.Node? && c == e + |Print(n.child)| && start + |Print(n)| == c + 1 + |Print(n.next)|
    ensures e - start - 2 == |Escape([n.typ])| - 1 + |Escape(n.props)|
  {
    assert Print(n) == [NODE_START] + Escape([n.typ]) + Escape(n.props) + Print(n.child) + [NODE_END] + Print(n.next);
  }
}
