/** The areas of a spell cell by cell: from the numbers of the list to the eight directions. */
module AreaShapes {
  import opened AreaMatrix
  import opened AreaDirections

  /** 1 and 3 mark a cell. */
  lemma MarkedCells(area: MatrixArea, list: seq<nat>, rows: nat, y: nat, x: nat)
    requires rows > 0 && area.Valid() && area.rows == rows && area.cols == |list| / rows
    requires FilledTo(area, list, |list|) && y < rows && x < area.cols
    ensures area.cols * y + x < |list|
    ensures area.data[y, x] <==> list[area.cols * y + x] == 1 || list[area.cols * y + x] == 3
  {
    RowAfter(area.cols, y, rows);
    assert Place(area.cols, y, x) == area.cols * y + x;
    RowsFit(|list|, rows, area.cols);
  }

  lemma RowsFit(n: nat, rows: nat, cols: nat)
    requires rows > 0 && cols == n / rows
    ensures rows * cols <= n
  {
  }

  /** 2 and 3 mark the centre, and the last one counts. */
  lemma {:induction false} CentreIsLast(list: seq<nat>, n: nat)
    requires n <= |list|
    ensures var c := LastCentre(list, n);
      && -1 <= c < n
      && (c >= 0 ==> list[c] == 2 || list[c] == 3)
      && forall i | c < i < n :: list[i] != 2 && list[i] != 3
  {
    if n > 0 { CentreIsLast(list, n - 1); }
  }

  /** A cell is hit to the north exactly if the cell a quarter turn on is hit to the east, and so on to the west. */
  lemma AroundTheCompass(north: MatrixArea, east: MatrixArea, south: MatrixArea, west: MatrixArea, dy: int, dx: int)
    requires north.Valid() && east.Valid() && south.Valid() && west.Valid()
    requires TurnedArea(north, Rotate90, east) && TurnedArea(north, Rotate180, south)
    requires TurnedArea(north, Rotate270, west)
    ensures north.At(Offset(dy, dx)) <==> east.At(Offset(dx, -dy))
    ensures north.At(Offset(dy, dx)) <==> south.At(Offset(-dy, -dx))
    ensures north.At(Offset(dy, dx)) <==> west.At(Offset(-dx, dy))
  {
    var o := Offset(dy, dx);
    ImageFinds(Rotate90, north.Hits(), o);
    ImageFinds(Rotate180, north.Hits(), o);
    ImageFinds(Rotate270, north.Hits(), o);
  }

  lemma ImageFinds(op: Operation, hits: set<Offset>, o: Offset)
    ensures o in hits <==> Turned(op, o) in Image(op, hits)
  {
    if Turned(op, o) in Image(op, hits) {
      var p :| p in hits && Turned(op, p) == Turned(op, o);
      TurnedBack(op, p);
      TurnedBack(op, o);
    }
  }

  /** The diagonals: left and right change places, and up and down, about a centre that moves by what the list has more
      columns than rows. */
  lemma AcrossTheDiagonals(nw: MatrixArea, ne: MatrixArea, sw: MatrixArea, se: MatrixArea, dy: int, dx: int)
    requires nw.Valid() && ne.Valid() && sw.Valid() && se.Valid() && DiagonalAreas(nw, ne, sw, se)
    ensures nw.At(Offset(dy, dx)) <==> ne.At(Offset(dy, nw.cols - nw.rows - dx))
    ensures nw.At(Offset(dy, dx)) <==> sw.At(Offset(nw.rows - nw.cols - dy, dx))
    ensures sw.At(Offset(dy, dx)) <==> se.At(Offset(dy, -dx))
  {
    hide MirroredBy, FlippedBy, Image, MirrorMoved, FlipMoved;
    MirrorFound(nw.Hits(), nw.cols - nw.rows, Offset(dy, dx));
    FlipFound(nw.Hits(), nw.rows - nw.cols, Offset(dy, dx));
    ImageFinds(Mirror, sw.Hits(), Offset(dy, dx));
    assert Turned(Mirror, Offset(dy, dx)) == Offset(dy, -dx);
  }

  lemma MirrorFound(hits: set<Offset>, s: int, o: Offset)
    ensures o in hits <==> Offset(o.dy, s - o.dx) in MirroredBy(hits, s)
  {
    if Offset(o.dy, s - o.dx) in MirroredBy(hits, s) {
      var p :| p in hits && MirrorMoved(s, p) == Offset(o.dy, s - o.dx);
    }
    assert MirrorMoved(s, o) == Offset(o.dy, s - o.dx);
  }

  lemma FlipFound(hits: set<Offset>, s: int, o: Offset)
    ensures o in hits <==> Offset(s - o.dy, o.dx) in FlippedBy(hits, s)
  {
    if Offset(s - o.dy, o.dx) in FlippedBy(hits, s) {
      var p :| p in hits && FlipMoved(s, p) == Offset(s - o.dy, o.dx);
    }
    assert FlipMoved(s, o) == Offset(s - o.dy, o.dx);
  }
}
