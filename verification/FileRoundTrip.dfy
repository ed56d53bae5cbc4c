/** Writing a forest of nodes to a file and loading it again. */
module FileRoundTrip {
  import opened NodeFormat
  import opened NodeBuffer
  import opened PropsSize
  import opened FileLoading
  import opened FileWriting

  /** What the loader makes of a printed forest. */
  lemma LoadsBack(n: Node)
    requires n.Node?
    ensures var f := VERSION + Print(n);
      && (Load(f).Good? ==> InFile(f, Load(f).span))
      && (LoadResult(f) == Loaded(n) <==> Writable(n) && Fit(1024, WrittenSizes(n)))
  {
    hide Fit, Writable, Decode, Print, Parse;
    var f := VERSION + Print(n);
    RoundTrip(n);
    if Load(f).Good? { ParseSound(f, 4); }
    if Writable(n) {
      assert f[..4] == VERSION && f[4..] == Print(n);
      SizesBack(f, 4, n, |f|, Parse(f, 4));
    }
  }

  /** What the loader makes of a forest that setProps may have cut. */
  lemma CutLoadsBack(n: Node)
    requires n.Node?
    ensures var f := VERSION + Print(Cut(n));
      && (Load(f).Good? ==> InFile(f, Load(f).span))
      && (LoadResult(f) == Loaded(n) <==> Writable(n) && Short(n) && Fit(1024, WrittenSizes(n)))
  {
    hide Fit, Writable, Decode, Print, Parse, Short;
    LoadsBack(Cut(n));
    CutIsLost(n);
    ShortIsWhole(n);
  }

  /** The writer, then the loader with or without its cache: the forest comes back exactly if every type byte can be
      read, the size of the props has 16 bits, and they fit the growing buffer one after the other. */
  method WriteAndLoad(n: Node, caching: bool) returns (r: Loaded)
    requires n.Node?
    ensures r == Loaded(n) <==> Writable(n) && Short(n) && Fit(1024, WrittenSizes(n))
  {
    hide Fit, Writable, Decode, Print, Cut, Short;
    var writer := new FileWriter();
    writer.WriteForest(n);
    CutLoadsBack(n);
    r := LoadForest(writer.file, caching);
  }
}
