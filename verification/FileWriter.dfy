/** The writing half of the node-file loader. */
module FileWriting {
  import opened Bytes
  import opened NodeFormat
  import opened PropsSize

  function Encoded(data: seq<byte>, unescape: bool): seq<byte> {
    if unescape then Escape(data) else data
  }

  lemma EncodedStep(front: seq<byte>, data: seq<byte>, i: nat, unescape: bool)
    requires i < |data|
    ensures front + Encoded(data[i..], unescape) ==
      (if unescape && data[i] >= ESCAPE_CHAR then front + [ESCAPE_CHAR] + [data[i]] else front + [data[i]])
      + Encoded(data[i + 1..], unescape)
  {
    assert data[i..][1..] == data[i + 1..];
  }

  class FileWriter {
    var file: seq<byte>

    /** openFile for writing: the version word goes out unescaped. */
    constructor ()
      ensures file == VERSION
    {
      file := [];
      new;
      WriteData(VERSION, false);
    }

    method WriteData(data: seq<byte>, unescape: bool)
      modifies this
      ensures file == old(file) + Encoded(data, unescape)
    {
      ghost var whole := file + Encoded(data, unescape);
      for i := 0 to |data|
        invariant file + Encoded(data[i..], unescape) == whole
      {
        EncodedStep(file, data, i, unescape);
        var c := data[i];
        if unescape && (c == NODE_START || c == NODE_END || c == ESCAPE_CHAR) {
          file := file + [ESCAPE_CHAR];
        }
        file := file + [c];
        assert file + Encoded(data[i + 1..], unescape) == whole;
      }
    }

    method StartNode(typ: byte)
      modifies this
      ensures file == old(file) + [NODE_START] + Escape([typ])
    {
      WriteData([NODE_START], false);
      WriteData([typ], true);
    }

    /** The size of the data is a 16-bit number. */
    method SetProps(data: seq<byte>)
      modifies this
      ensures file == old(file) + Escape(data[..|data| % 0x1_0000])
    {
      var size := |data| % 0x1_0000;
      WriteData(data[..size], true);
    }

    method EndNode()
      modifies this
      ensures file == old(file) + [NODE_END]
    {
      WriteData([NODE_END], false);
    }

    /** A client that writes a forest in the order the format asks for: props before children. */
    method WriteForest(n: Node)
      modifies this
      ensures file == old(file) + Print(Cut(n))
    {
      hide Escape;
      if n.Node? {
        StartNode(n.typ);
        SetProps(n.props);
        WriteForest(n.child);
        EndNode();
        PrintJoin(old(file), Cut(n));
        WriteForest(n.next);
      }
    }
  }

  lemma PrintJoin(front: seq<byte>, n: Node)
    requires n.Node?
    ensures front + ([NODE_START] + Escape([n.typ])) + Escape(n.props) + Print(n.child) + [NODE_END] + Print(n.next) ==
      front + Print(n)
  {
  }
}
