/** AreaCombat: the cells a spell hits, for each direction it can be cast in. */
module AreaMatrix {
  datatype Operation = Copy | Mirror | Flip | Rotate90 | Rotate180 | Rotate270

  /** An offset from the centre of an area: rows down, columns to the right. */
  datatype Offset = Offset(dy: int, dx: int)

  /** Where an operation takes an offset: quarter turns turn clockwise. */
  function Turned(op: Operation, o: Offset): Offset {
    match op
    case Copy => o
    case Mirror => Offset(o.dy, -o.dx)
    case Flip => Offset(-o.dy, o.dx)
    case Rotate90 => Offset(o.dx, -o.dy)
    case Rotate180 => Offset(-o.dy, -o.dx)
    case Rotate270 => Offset(-o.dx, o.dy)
  }

  function Undone(op: Operation): Operation {
    match op
    case Rotate90 => Rotate270
    case Rotate270 => Rotate90
    case _ => op
  }

  lemma TurnedBack(op: Operation, o: Offset)
    ensures Turned(Undone(op), Turned(op, o)) == o && Turned(op, Turned(Undone(op), o)) == o
  {
  }

  function Image(op: Operation, hits: set<Offset>): set<Offset> {
    set o | o in hits :: Turned(op, o)
  }

  /** Mirrored and moved s columns to the right. */
  function MirrorMoved(s: int, o: Offset): Offset {
    Offset(o.dy, s - o.dx)
  }

  /** Upside down and moved s rows down. */
  function FlipMoved(s: int, o: Offset): Offset {
    Offset(s - o.dy, o.dx)
  }

  function MirroredBy(hits: set<Offset>, s: int): set<Offset> {
    set o | o in hits :: MirrorMoved(s, o)
  }

  function FlippedBy(hits: set<Offset>, s: int): set<Offset> {
    set o | o in hits :: FlipMoved(s, o)
  }

  lemma MovedBack(s: int, o: Offset)
    ensures MirrorMoved(s, MirrorMoved(s, o)) == o && FlipMoved(s, FlipMoved(s, o)) == o
  {
  }

  lemma ImageIs(op: Operation, hits: set<Offset>, image: set<Offset>)
    requires forall o :: o in hits <==> Turned(op, o) in image
    ensures image == Image(op, hits)
  {
    forall p ensures p in image <==> p in Image(op, hits) {
      TurnedBack(op, p);
      if p in image { assert Turned(Undone(op), p) in hits; }
    }
  }

  lemma MirroredIs(hits: set<Offset>, s: int, image: set<Offset>)
    requires forall o :: o in hits <==> MirrorMoved(s, o) in image
    ensures image == MirroredBy(hits, s)
  {
    hide MirrorMoved;
    forall p ensures p in image <==> p in MirroredBy(hits, s) {
      MovedBack(s, p);
      if p in image { assert MirrorMoved(s, p) in hits; }
    }
  }

  lemma FlippedIs(hits: set<Offset>, s: int, image: set<Offset>)
    requires forall o :: o in hits <==> FlipMoved(s, o) in image
    ensures image == FlippedBy(hits, s)
  {
    hide FlipMoved;
    forall p ensures p in image <==> p in FlippedBy(hits, s) {
      MovedBack(s, p);
      if p in image { assert FlipMoved(s, p) in hits; }
    }
  }

  lemma {:induction false} Extreme(xs: set<int>) returns (least: int, greatest: int)
    requires xs != {}
    ensures least in xs && greatest in xs && forall x | x in xs :: least <= x <= greatest
    decreases |xs|
  {
    if forall x :: x !in xs { assert false; }
    var x :| x in xs;
    least, greatest := x, x;
    if xs - {x} != {} {
      var lo, hi := Extreme(xs - {x});
      least, greatest := if lo < x then lo else x, if hi > x then hi else x;
      assert forall y | y in xs :: y == x || y in xs - {x};
    } else {
      assert forall y | y in xs :: y in xs - {x} || y == x;
    }
  }

  /** A reflection that is moved is the plain reflection only if it is not moved at all, or of nothing. */
  lemma MirrorNotMoved(hits: set<Offset>, s: int)
    ensures MirroredBy(hits, s) == Image(Mirror, hits) <==> s == 0 || hits == {}
  {
    if s == 0 {
      assert forall o | o in hits :: MirrorMoved(s, o) == Turned(Mirror, o);
    } else if hits != {} {
      var xs := set o | o in hits :: o.dx;
      var o :| o in hits;
      assert o.dx in xs;
      var least, greatest := Extreme(xs);
      var a :| a in hits && a.dx == least;
      var b :| b in hits && b.dx == greatest;
      assert MirrorMoved(s, a) in MirroredBy(hits, s) && MirrorMoved(s, b) in MirroredBy(hits, s);
      forall p | p in Image(Mirror, hits) ensures -greatest <= p.dx <= -least {
        var q :| q in hits && p == Turned(Mirror, q);
        assert q.dx in xs;
      }
    }
  }

  lemma FlipNotMoved(hits: set<Offset>, s: int)
    ensures FlippedBy(hits, s) == Image(Flip, hits) <==> s == 0 || hits == {}
  {
    if s == 0 {
      assert forall o | o in hits :: FlipMoved(s, o) == Turned(Flip, o);
    } else if hits != {} {
      var ys := set o | o in hits :: o.dy;
      var o :| o in hits;
      assert o.dy in ys;
      var least, greatest := Extreme(ys);
      var a :| a in hits && a.dy == least;
      var b :| b in hits && b.dy == greatest;
      assert FlipMoved(s, a) in FlippedBy(hits, s) && FlipMoved(s, b) in FlippedBy(hits, s);
      forall p | p in Image(Flip, hits) ensures -greatest <= p.dy <= -least {
        var q :| q in hits && p == Turned(Flip, q);
        assert q.dy in ys;
      }
    }
  }

  /** Upside down and then mirrored is turned half round. */
  lemma HalfTurn(hits: set<Offset>)
    ensures Image(Mirror, Image(Flip, hits)) == Image(Rotate180, hits)
  {
    forall p ensures p in Image(Mirror, Image(Flip, hits)) <==> p in Image(Rotate180, hits) {
      if p in Image(Rotate180, hits) {
        var o :| o in hits && p == Turned(Rotate180, o);
        assert Turned(Flip, o) in Image(Flip, hits);
      }
    }
  }

  /** A mirror image shows of what it is one. */
  lemma MirrorInjective(a: set<Offset>, b: set<Offset>)
    requires Image(Mirror, a) == Image(Mirror, b)
    ensures a == b
  {
    forall o ensures o in a <==> o in b {
      assert (o in a) == (Turned(Mirror, o) in Image(Mirror, a)) by { MirrorFinds(a, o); }
      assert (o in b) == (Turned(Mirror, o) in Image(Mirror, b)) by { MirrorFinds(b, o); }
    }
  }

  lemma MirrorFinds(hits: set<Offset>, o: Offset)
    ensures o in hits <==> Turned(Mirror, o) in Image(Mirror, hits)
  {
    if Turned(Mirror, o) in Image(Mirror, hits) {
      var p :| p in hits && Turned(Mirror, p) == Turned(Mirror, o);
    }
  }

  class MatrixArea {
    const rows: nat
    const cols: nat
    const data: array2<bool>
    var centerX: int
    var centerY: int

    ghost predicate Valid()
    {
      data.Length0 == rows && data.Length1 == cols
    }

    /** Is the cell at this offset from the centre part of the area? */
    ghost predicate At(o: Offset)
      requires Valid()
      reads this, data
    {
      var y, x := centerY + o.dy, centerX + o.dx;
      0 <= y < rows && 0 <= x < cols && data[y, x]
    }

    /** The offsets that are part of the area. */
    ghost function Hits(): (hits: set<Offset>)
      requires Valid()
      reads this, data
      ensures forall o :: o in hits <==> At(o)
    {
      set y, x | 0 <= y < rows && 0 <= x < cols && data[y, x] :: Offset(y - centerY, x - centerX)
    }

    constructor (rows: nat, cols: nat)
      ensures Valid() && this.rows == rows && this.cols == cols && centerX == centerY == 0 && fresh(data)
      ensures forall y, x | 0 <= y < rows && 0 <= x < cols :: !data[y, x]
    {
      this.rows, this.cols := rows, cols;
      data := new bool[rows, cols]((_, _) => false);
      centerX, centerY := 0, 0;
    }

    method SetCenter(y: int, x: int)
      modifies this
      ensures centerY == y && centerX == x
    {
      centerX, centerY := x, y;
    }
  }

  ghost predicate Empty(a: MatrixArea)
    requires a.Valid()
    reads a.data
  {
    forall y, x | 0 <= y < a.rows && 0 <= x < a.cols :: !a.data[y, x]
  }

  /** Seen from the centre, b is the area a after op. */
  ghost predicate TurnedArea(a: MatrixArea, op: Operation, b: MatrixArea)
    requires a.Valid() && b.Valid()
    reads a, a.data, b, b.data
  {
    b.Hits() == Image(op, a.Hits())
  }

  // ---------------------------------------------------------------- createArea

  predicate Marked(v: nat) {
    v == 1 || v == 3
  }

  predicate Centre(v: nat) {
    v == 2 || v == 3
  }

  /** The place of the last centre among the first n values. */
  function LastCentre(list: seq<nat>, n: nat): int
    requires n <= |list|
  {
    if n == 0 then -1 else if Centre(list[n - 1]) then n - 1 else LastCentre(list, n - 1)
  }

  /** No mark lies behind the last full row. */
  predicate Fits(list: seq<nat>, rows: nat)
    requires rows > 0
  {
    forall i | 0 <= i < |list| && Marked(list[i]) :: i < rows * (|list| / rows)
  }

  lemma RowAfter(cols: nat, y: nat, y': nat)
    requires y < y'
    ensures y * cols + cols <= y' * cols
  {
    assert y' * cols == y * cols + cols + (y' - y - 1) * cols;
  }

  /** The place of a cell in the list. */
  function Place(cols: nat, y: nat, x: nat): nat {
    y * cols + x
  }

  lemma OnePlace(cols: nat, y: nat, x: nat, y': nat, x': nat)
    requires x < cols && x' < cols && Place(cols, y, x) == Place(cols, y', x')
    ensures y == y' && x == x'
  {
    if y < y' { RowAfter(cols, y, y'); }
    if y' < y { RowAfter(cols, y', y); }
  }

  lemma InRows(rows: nat, cols: nat, y: nat, x: nat)
    requires x < cols && Place(cols, y, x) < rows * cols
    ensures y < rows
  {
    if y > rows { RowAfter(cols, rows, y); }
  }

  lemma NextPlace(cols: nat, y: nat, x: nat)
    ensures Place(cols, 0, 0) == 0 && Place(cols, y, x + 1) == Place(cols, y, x) + 1
    ensures x + 1 == cols ==> Place(cols, y + 1, 0) == Place(cols, y, x) + 1
  {
    assert (y + 1) * cols == y * cols + cols;
  }

  /** What the first n values leave in the matrix. */
  ghost predicate FilledTo(a: MatrixArea, list: seq<nat>, n: nat)
    requires a.Valid()
    reads a.data
  {
    forall y: nat, x: nat | y < a.rows && x < a.cols ::
      a.data[y, x] <==> Place(a.cols, y, x) < n && Place(a.cols, y, x) < |list| && Marked(list[Place(a.cols, y, x)])
  }

  /** The centre is at place c; without one it is the first cell. */
  ghost predicate CentreAt(a: MatrixArea, c: int)
    reads a
  {
    if c < 0 then a.centerY == a.centerX == 0
    else if a.cols == 0 then a.centerY == 0 && a.centerX == c
    else 0 <= a.centerY && 0 <= a.centerX < a.cols && Place(a.cols, a.centerY, a.centerX) == c
  }

  method CreateArea(list: seq<nat>, rows: nat) returns (area: MatrixArea)
    requires rows > 0 && Fits(list, rows)
    ensures fresh(area) && fresh(area.data) && area.Valid() && area.rows == rows && area.cols == |list| / rows
    ensures FilledTo(area, list, |list|) && CentreAt(area, LastCentre(list, |list|))
  {
    hide Place;
    var cols := |list| / rows;
    area := new MatrixArea(rows, cols);
    var x, y: nat := 0, 0;
    NextPlace(cols, 0, 0);
    for i := 0 to |list|
      invariant area.Valid() && fresh(area) && fresh(area.data) && area.rows == rows && area.cols == cols
      invariant if cols == 0 then y == 0 && x == i else x < cols && Place(cols, y, x) == i
      invariant FilledTo(area, list, i) && CentreAt(area, LastCentre(list, i))
    {
      if Marked(list[i]) {
        InRows(rows, cols, y, x);
        area.data[y, x] := true;
      }
      forall y': nat, x': nat | y' < rows && x' < cols && Place(cols, y', x') == i ensures y' == y && x' == x {
        OnePlace(cols, y, x, y', x');
      }
      NextPlace(cols, y, x);
      if Centre(list[i]) { area.SetCenter(y, x); }
      x := x + 1;
      if cols == x {
        x := 0;
        y := y + 1;
      }
    }
  }

  // ---------------------------------------------------------------- copyArea

  method CopyMirrored(input: MatrixArea, output: MatrixArea)
    requires input.Valid() && output.Valid() && input.data != output.data && input != output && Empty(output)
    requires input.rows <= output.rows && input.cols <= output.cols
    modifies output, output.data
    ensures forall y, x | 0 <= y < output.rows && 0 <= x < output.cols ::
      output.data[y, x] <==> y < input.rows && x < input.cols && input.data[y, input.cols - 1 - x]
    ensures output.centerY == input.centerY && output.centerX == input.rows - 1 - input.centerX
  {
    for y := 0 to input.rows
      invariant forall y', x' | 0 <= y' < output.rows && 0 <= x' < output.cols ::
        output.data[y', x'] <==> y' < y && x' < input.cols && input.data[y', input.cols - 1 - x']
    {
      var rx := 0;
      for x := input.cols downto 0
        invariant rx == input.cols - x
        invariant forall y', x' | 0 <= y' < output.rows && 0 <= x' < output.cols ::
          output.data[y', x'] <==>
            (y' < y || (y' == y && x' < rx)) && x' < input.cols && input.data[y', input.cols - 1 - x']
      {
        output.data[y, rx] := input.data[y, x];
        rx := rx + 1;
      }
    }
    output.SetCenter(input.centerY, input.rows - 1 - input.centerX);
  }

  method CopyFlipped(input: MatrixArea, output: MatrixArea)
    requires input.Valid() && output.Valid() && input.data != output.data && input != output && Empty(output)
    requires input.rows <= output.rows && input.cols <= output.cols
    modifies output, output.data
    ensures forall y, x | 0 <= y < output.rows && 0 <= x < output.cols ::
      output.data[y, x] <==> y < input.rows && x < input.cols && input.data[input.rows - 1 - y, x]
    ensures output.centerY == input.cols - 1 - input.centerY && output.centerX == input.centerX
  {
    for x := 0 to input.cols
      invariant forall y', x' | 0 <= y' < output.rows && 0 <= x' < output.cols ::
        output.data[y', x'] <==> x' < x && y' < input.rows && input.data[input.rows - 1 - y', x']
    {
      var ry := 0;
      for y := input.rows downto 0
        invariant ry == input.rows - y
        invariant forall y', x' | 0 <= y' < output.rows && 0 <= x' < output.cols ::
          output.data[y', x'] <==>
            (x' < x || (x' == x && y' < ry)) && y' < input.rows && input.data[input.rows - 1 - y', x']
      {
        output.data[ry, x] := input.data[y, x];
        ry := ry + 1;
      }
    }
    output.SetCenter(input.cols - 1 - input.centerY, input.centerX);
  }

  method CopyPlain(input: MatrixArea, output: MatrixArea)
    requires input.Valid() && output.Valid() && input.data != output.data && input != output && Empty(output)
    requires input.rows <= output.rows && input.cols <= output.cols
    modifies output, output.data
    ensures forall y, x | 0 <= y < output.rows && 0 <= x < output.cols ::
      output.data[y, x] <==> y < input.rows && x < input.cols && input.data[y, x]
    ensures output.centerY == input.centerY && output.centerX == input.centerX
  {
    for y := 0 to input.rows
      invariant forall y', x' | 0 <= y' < output.rows && 0 <= x' < output.cols ::
        output.data[y', x'] <==> y' < y && x' < input.cols && input.data[y', x']
    {
      for x := 0 to input.cols
        invariant forall y', x' | 0 <= y' < output.rows && 0 <= x' < output.cols ::
          output.data[y', x'] <==> (y' < y || (y' == y && x' < x)) && x' < input.cols && input.data[y', x']
      {
        output.data[y, x] := input.data[y, x];
      }
    }
    output.SetCenter(input.centerY, input.centerX);
  }

  predicate QuarterTurn(op: Operation) {
    op.Rotate90? || op.Rotate180? || op.Rotate270?
  }

  /** The cell of the input that is turned into the cell at (y, x) of the output. */
  function Source(op: Operation, cy: int, cx: int, n: int, y: int, x: int): Offset {
    var o := Turned(Undone(op), Offset(y - (n - 1), x - (n - 1)));
    Offset(cy + o.dy, cx + o.dx)
  }

  /** The columns before x, and column x down to row y, have been copied. */
  predicate Copied(o: Offset, y: int, x: int) {
    o.dx < x || (o.dx == x && o.dy < y)
  }

  ghost predicate TurnedTo(input: MatrixArea, output: MatrixArea, op: Operation, n: nat, y: int, x: int)
    requires input.Valid() && output.Valid() && output.rows == output.cols == 2 * n
    reads input, input.data, output.data
  {
    forall y', x' | 0 <= y' < 2 * n && 0 <= x' < 2 * n ::
      var o := Source(op, input.centerY, input.centerX, n, y', x');
      output.data[y', x'] <==>
        0 <= o.dy < input.rows && 0 <= o.dx < input.cols && Copied(o, y, x) && input.data[o.dy, o.dx]
  }

  lemma OnlySource(op: Operation, cy: int, cx: int, n: int, y: int, x: int)
    requires QuarterTurn(op)
    ensures var r := Turned(op, Offset(y - cy, x - cx));
      forall y', x' :: Source(op, cy, cx, n, y', x') == Offset(y, x) <==> y' == r.dy + n - 1 && x' == r.dx + n - 1
  {
  }

  /** A cell of the input is turned to a place in the output. */
  predicate CellLands(op: Operation, y: int, x: int, cy: int, cx: int, n: int) {
    var r := Turned(op, Offset(y - cy, x - cx));
    0 <= r.dy + n - 1 < 2 * n && 0 <= r.dx + n - 1 < 2 * n
  }

  /** All of them are. */
  predicate Lands(op: Operation, rows: int, cols: int, cy: int, cx: int, n: int) {
    forall y, x | 0 <= y < rows && 0 <= x < cols :: CellLands(op, y, x, cy, cx, n)
  }

  /** All three turns stay in the output exactly if the centre is no further down than the output's half. */
  lemma AllLand(rows: int, cols: int, cy: int, cx: int, n: int)
    requires 0 < rows <= n && 0 < cols <= n && 0 <= cy && 0 <= cx < cols
    ensures (forall op | QuarterTurn(op) :: Lands(op, rows, cols, cy, cx, n)) <==> cy < n
  {
    if cy < n {
      forall op | QuarterTurn(op) ensures Lands(op, rows, cols, cy, cx, n) {
      }
    } else {
      assert !CellLands(Rotate270, 0, 0, cy, cx, n);
      assert !Lands(Rotate270, rows, cols, cy, cx, n);
    }
  }

  /** One cell is written to its turned place, which only it can be turned to. */
  method CopyCell(input: MatrixArea, output: MatrixArea, op: Operation, n: nat, y: nat, x: nat)
    requires input.Valid() && output.Valid() && input.data != output.data && input != output
    requires QuarterTurn(op) && input.rows <= n && input.cols <= n && output.rows == output.cols == 2 * n
    requires Lands(op, input.rows, input.cols, input.centerY, input.centerX, n)
    requires y < input.rows && x < input.cols && TurnedTo(input, output, op, n, y, x)
    modifies output.data
    ensures TurnedTo(input, output, op, n, y + 1, x)
  {
    hide Turned, Source;
    var rotated := Turned(op, Offset(y - input.centerY, x - input.centerX));
    OnlySource(op, input.centerY, input.centerX, n, y, x);
    assert CellLands(op, y, x, input.centerY, input.centerX, n);
    output.data[rotated.dy + (n - 1), rotated.dx + (n - 1)] := input.data[y, x];
  }

  lemma NextColumn(input: MatrixArea, output: MatrixArea, op: Operation, n: nat, x: nat)
    requires input.Valid() && output.Valid() && output.rows == output.cols == 2 * n
    requires TurnedTo(input, output, op, n, input.rows, x)
    ensures TurnedTo(input, output, op, n, 0, x + 1)
  {
    hide Source;
  }

  lemma NothingTurned(input: MatrixArea, output: MatrixArea, op: Operation, n: nat)
    requires input.Valid() && output.Valid() && output.rows == output.cols == 2 * n && Empty(output)
    ensures TurnedTo(input, output, op, n, 0, 0)
  {
    hide Source;
  }

  method CopyRotated(input: MatrixArea, output: MatrixArea, op: Operation, n: nat)
    requires input.Valid() && output.Valid() && input.data != output.data && input != output && Empty(output)
    requires QuarterTurn(op) && input.rows <= n && input.cols <= n && output.rows == output.cols == 2 * n
    requires Lands(op, input.rows, input.cols, input.centerY, input.centerX, n)
    modifies output, output.data
    ensures TurnedTo(input, output, op, n, 0, input.cols)
    ensures output.centerY == output.centerX == n - 1
  {
    hide TurnedTo, Empty, Lands;
    var rotateCenterX, rotateCenterY := output.cols / 2 - 1, output.rows / 2 - 1;
    NothingTurned(input, output, op, n);
    for x := 0 to input.cols
      invariant TurnedTo(input, output, op, n, 0, x)
    {
      for y := 0 to input.rows
        invariant TurnedTo(input, output, op, n, y, x)
      {
        CopyCell(input, output, op, n, y, x);
      }
      NextColumn(input, output, op, n, x);
    }
    output.SetCenter(rotateCenterY, rotateCenterX);
  }
}
