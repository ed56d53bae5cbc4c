/** The node-file loader: opening a file, and fetching the props of its nodes. */
module FileLoading {
  import opened Bytes
  import opened NodeFormat
  import opened CachedReading
  import opened NodeBuffer
  import opened NodeParsing

  class FileLoader {
    const disk: CachedFile
    var buffer: array<byte>

    ghost predicate Valid()
      reads this, disk
    {
      disk.Valid() && buffer.Length >= 1024
    }

    constructor (file: seq<byte>, caching: bool)
      ensures Valid() && fresh(disk) && fresh(buffer) && buffer.Length == 1024
      ensures disk.file == file && disk.useCache == caching
    {
      disk := new CachedFile(file, caching);
      buffer := new byte[1024];
    }

    /** openFile for reading: version word, root node, parse. */
    method Open() returns (ok: bool, root: NodeStruct, ghost R: set<NodeStruct>)
      requires Valid()
      modifies disk
      ensures Valid()
      ensures ok <==> Load(disk.file).Good?
      ensures ok ==> Holds(root, Load(disk.file).span, R)
    {
      ok, R := false, {};
      root := new NodeStruct(4);
      if |disk.file| < 4 { return; }
      if disk.file[..4] != VERSION { return; }
      disk.SafeSeek(4);
      var got, byte := disk.ReadByte();
      if got && byte == NODE_START {
        ok, R := ParseNode(disk, root, Parse(disk.file, 4));
      }
    }

    // ------------------------------------------------------------ the props

    /** The props of a node, unescaped in place at the front of the buffer, if that can be grown to hold them. */
    method GetProps(start: nat, propsSize: nat) returns (fits: bool, size: nat)
      requires Valid() && start + 2 + propsSize <= |disk.file|
      requires WellEscaped(disk.file[start + 2..start + 2 + propsSize])
      modifies this, disk, buffer
      ensures Valid() && (buffer == old(buffer) || fresh(buffer)) && size <= buffer.Length
      ensures buffer.Length == Grown(old(buffer.Length), propsSize) && (fits <==> propsSize <= buffer.Length)
      ensures fits ==> buffer[..size] == Unescape(disk.file[start + 2..start + 2 + propsSize])
    {
      if propsSize >= buffer.Length {
        buffer := new byte[buffer.Length + 1024];
      }
      fits, size := propsSize <= buffer.Length, 0;
      if fits {
        disk.ReadBytes(buffer, propsSize, start + 2);
        size := UnescapeInPlace(buffer, propsSize);
      }
    }

    /** Walks a parsed forest through child and next links, fetching every node's props. */
    method Collect(n: NodeStruct?, ghost s: Span, ghost R: set<NodeStruct>) returns (fits: bool, t: Node)
      requires Valid() && Holds(n, s, R) && InFile(disk.file, s) && Clean(disk.file, s)
      modifies this, disk, buffer
      ensures Valid() && (buffer == old(buffer) || fresh(buffer))
      ensures fits <==> Fit(old(buffer.Length), SpanSizes(s))
      ensures fits ==> t == Decode(disk.file, s) && buffer.Length == GrownBy(old(buffer.Length), SpanSizes(s))
      decreases s
    {
      hide Fit, GrownBy, Grown, WellEscaped, Unescape;
      t := NoNode;
      if n == null {
        NoneFit(buffer.Length);
        return true, t;
      }
      NodeFit(buffer.Length, s.size, SpanSizes(s.child), SpanSizes(s.next));
      var size;
      fits, size := GetProps(n.start, n.propsSize);
      if !fits { return; }
      var props := buffer[..size];
      var child, next;
      fits, child := Collect(n.child, s.child, R);
      if !fits { return; }
      fits, next := Collect(n.next, s.next, R);
      t := Node(n.typ, props, child, next);
    }
  }

  /** The i/j loop of getProps on the first n bytes of a. */
  method UnescapeInPlace(a: array<byte>, n: nat) returns (j: nat)
    requires n <= a.Length && WellEscaped(a[..n])
    modifies a
    ensures j <= n && a[..j] == Unescape(old(a[..n]))
  {
    hide Unescape, WellEscaped;
    ghost var raw := a[..n];
    assert raw[0..] == raw;
    var i := 0;
    j := 0;
    var escaped := false;
    while i < n
      invariant j <= i <= n && (!escaped ==> i == j)
      invariant forall k | i <= k < n :: a[k] == raw[k]
      invariant WellEscaped(raw[i..]) && a[..j] + Unescape(raw[i..]) == Unescape(raw)
    {
      UnescapeStep(a[..j], raw, i);
      ghost var front := a[..j];
      if a[i] == ESCAPE_CHAR {
        i := i + 1;
        a[j] := a[i];
        escaped := true;
      } else if escaped {
        a[j] := a[i];
      }
      assert a[..j + 1] == front + [raw[i]];
      i, j := i + 1, j + 1;
    }
    NothingLeft(raw[n..]);
  }

  lemma NothingLeft(s: seq<byte>)
    requires s == []
    ensures Unescape(s) == []
  {
  }

  lemma UnescapeStep(front: seq<byte>, raw: seq<byte>, i: nat)
    requires i < |raw| && WellEscaped(raw[i..])
    ensures var k := if raw[i] == ESCAPE_CHAR then 1 else 0;
      && i + k < |raw| && WellEscaped(raw[i + k + 1..])
      && front + Unescape(raw[i..]) == front + [raw[i + k]] + Unescape(raw[i + k + 1..])
  {
    hide Unescape, WellEscaped;
    UnescapeFirst(raw[i..]);
    var k := if raw[i] == ESCAPE_CHAR then 1 else 0;
    DropDrop(raw, i, k + 1);
    Regroup(front, [raw[i + k]], Unescape(raw[i + k + 1..]));
  }

  lemma UnescapeFirst(s: seq<byte>)
    requires s != [] && WellEscaped(s)
    ensures var k := if s[0] == ESCAPE_CHAR then 1 else 0;
      k < |s| && WellEscaped(s[k + 1..]) && Unescape(s) == [s[k]] + Unescape(s[k + 1..])
  {
  }

  lemma DropDrop(s: seq<byte>, i: nat, k: nat)
    requires i + k <= |s|
    ensures s[i..][k..] == s[i + k..]
  {
  }

  lemma Regroup(a: seq<byte>, b: seq<byte>, c: seq<byte>)
    ensures a + (b + c) == a + b + c
  {
  }

  /** Overrun: props are longer than the buffer has been made for them. */
  datatype Loaded = Refused | Overrun | Loaded(forest: Node)

  function LoadResult(f: seq<byte>): Loaded
    requires Load(f).Good? ==> InFile(f, Load(f).span)
  {
    if Load(f).Bad? then Refused
    else if !Fit(1024, SpanSizes(Load(f).span)) then Overrun
    else Loaded(Decode(f, Load(f).span))
  }

  /** Opens a node file, with or without the cache, and reads everything in it. */
  method LoadForest(file: seq<byte>, caching: bool) returns (r: Loaded)
    ensures Load(file).Good? ==> InFile(file, Load(file).span)
    ensures r == LoadResult(file)
  {
    var loader := new FileLoader(file, caching);
    var ok, root;
    ghost var R;
    ok, root, R := loader.Open();
    r := Refused;
    if ok {
      ParseSound(file, 4);
      var fits, t := loader.Collect(root, Load(file).span, R);
      r := if fits then Loaded(t) else Overrun;
    }
  }
}
