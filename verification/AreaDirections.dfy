/** The areas of a spell for each direction, and the tiles it reaches. */
module AreaDirections {
  import opened Arithmetic
  import opened AreaMatrix

  datatype Direction = North | East | South | West | SouthWest | SouthEast | NorthWest | NorthEast

  datatype Position = Position(x: int, y: int, z: int)

  // ---------------------------------------------------------------- what the copies are

  lemma TurnedToArea(input: MatrixArea, output: MatrixArea, op: Operation, n: nat)
    requires input.Valid() && output.Valid() && QuarterTurn(op)
    requires output.rows == output.cols == 2 * n
    requires Lands(op, input.rows, input.cols, input.centerY, input.centerX, n)
    requires TurnedTo(input, output, op, n, 0, input.cols) && output.centerY == output.centerX == n - 1
    ensures TurnedArea(input, op, output)
  {
    forall o: Offset ensures o in input.Hits() <==> Turned(op, o) in output.Hits() {
      var r := Turned(op, o);
      var y, x := n - 1 + r.dy, n - 1 + r.dx;
      if input.At(o) { LandsAt(input, op, n, o); }
      TurnedBack(op, o);
      assert Source(op, input.centerY, input.centerX, n, y, x) == Offset(input.centerY + o.dy, input.centerX + o.dx);
      assert input.At(o) <==> output.At(r);
    }
    ImageIs(op, input.Hits(), output.Hits());
  }

  lemma LandsAt(input: MatrixArea, op: Operation, n: nat, o: Offset)
    requires input.Valid() && input.At(o) && Lands(op, input.rows, input.cols, input.centerY, input.centerX, n)
    ensures 0 <= Turned(op, o).dy + n - 1 < 2 * n && 0 <= Turned(op, o).dx + n - 1 < 2 * n
  {
    assert CellLands(op, input.centerY + o.dy, input.centerX + o.dx, input.centerY, input.centerX, n);
  }

  lemma MirroredHits(input: MatrixArea, output: MatrixArea)
    requires input.Valid() && output.Valid() && input.rows <= output.rows && input.cols <= output.cols
    requires forall y, x | 0 <= y < output.rows && 0 <= x < output.cols ::
      output.data[y, x] <==> y < input.rows && x < input.cols && input.data[y, input.cols - 1 - x]
    requires output.centerY == input.centerY && output.centerX == input.rows - 1 - input.centerX
    ensures output.Hits() == MirroredBy(input.Hits(), input.cols - input.rows)
  {
    var s := input.cols - input.rows;
    forall o: Offset ensures o in input.Hits() <==> MirrorMoved(s, o) in output.Hits() {
      assert input.At(o) <==> output.At(MirrorMoved(s, o));
    }
    MirroredIs(input.Hits(), s, output.Hits());
  }

  lemma FlippedHits(input: MatrixArea, output: MatrixArea)
    requires input.Valid() && output.Valid() && input.rows <= output.rows && input.cols <= output.cols
    requires forall y, x | 0 <= y < output.rows && 0 <= x < output.cols ::
      output.data[y, x] <==> y < input.rows && x < input.cols && input.data[input.rows - 1 - y, x]
    requires output.centerY == input.cols - 1 - input.centerY && output.centerX == input.centerX
    ensures output.Hits() == FlippedBy(input.Hits(), input.rows - input.cols)
  {
    var s := input.rows - input.cols;
    forall o: Offset ensures o in input.Hits() <==> FlipMoved(s, o) in output.Hits() {
      assert input.At(o) <==> output.At(FlipMoved(s, o));
    }
    FlippedIs(input.Hits(), s, output.Hits());
  }

  // ---------------------------------------------------------------- the areas

  /** The centre is no further down than the matrix is wide or high. */
  predicate CentreFits(list: seq<nat>, rows: nat)
    requires rows > 0
  {
    var cols := |list| / rows;
    LastCentre(list, |list|) < Max(rows, cols) * cols || cols == 0
  }

  predicate Turnable(area: MatrixArea, op: Operation)
    reads area
  {
    Lands(op, area.rows, area.cols, area.centerY, area.centerX, Max(area.cols, area.rows))
  }

  /** The three turned copies of a list stay inside their matrices exactly if its centre fits. */
  lemma CreatedTurnable(area: MatrixArea, list: seq<nat>, rows: nat)
    requires rows > 0 && area.Valid() && area.rows == rows && area.cols == |list| / rows
    requires CentreAt(area, LastCentre(list, |list|))
    ensures CentreFits(list, rows) <==> forall op | QuarterTurn(op) :: Turnable(area, op)
  {
    hide Lands;
    var n, c := Max(rows, area.cols), LastCentre(list, |list|);
    if area.cols == 0 {
      NothingLands(area);
    } else {
      if 0 <= c < n * area.cols { InRows(n, area.cols, area.centerY, area.centerX); }
      if 0 <= c && area.centerY < n { RowAfter(area.cols, area.centerY, n); }
      AllLand(rows, area.cols, area.centerY, area.centerX, n);
    }
  }

  lemma NothingLands(area: MatrixArea)
    requires area.cols == 0
    ensures forall op :: Turnable(area, op)
  {
  }

  method Rotated(area: MatrixArea, op: Operation) returns (output: MatrixArea)
    requires area.Valid() && QuarterTurn(op) && Turnable(area, op)
    ensures fresh(output) && fresh(output.data) && output.Valid() && TurnedArea(area, op, output)
  {
    var n := Max(area.cols, area.rows);
    var maxOutput := n * 2;
    output := new MatrixArea(maxOutput, maxOutput);
    CopyRotated(area, output, op, n);
    TurnedToArea(area, output, op, n);
  }

  /** The four diagonal areas: images of the first one exactly if that is square or empty, and else moved to the
      side; only the last is always the mirror image of the one it is made from. */
  ghost predicate DiagonalAreas(nw: MatrixArea, ne: MatrixArea, sw: MatrixArea, se: MatrixArea)
    requires nw.Valid() && ne.Valid() && sw.Valid() && se.Valid()
    reads nw, nw.data, ne, ne.data, sw, sw.data, se, se.data
  {
    var square := nw.rows == nw.cols || nw.Hits() == {};
    && (TurnedArea(nw, Mirror, ne) <==> square)
    && (TurnedArea(nw, Flip, sw) <==> square)
    && (TurnedArea(nw, Rotate180, se) <==> square)
    && ne.Hits() == MirroredBy(nw.Hits(), nw.cols - nw.rows)
    && sw.Hits() == FlippedBy(nw.Hits(), nw.rows - nw.cols)
    && TurnedArea(sw, Mirror, se)
  }

  lemma Diagonals(nw: MatrixArea, ne: MatrixArea, sw: MatrixArea, se: MatrixArea)
    requires nw.Valid() && ne.Valid() && sw.Valid() && se.Valid() && sw.rows == sw.cols
    requires ne.Hits() == MirroredBy(nw.Hits(), nw.cols - nw.rows)
    requires sw.Hits() == FlippedBy(nw.Hits(), nw.rows - nw.cols)
    requires se.Hits() == MirroredBy(sw.Hits(), sw.cols - sw.rows)
    ensures DiagonalAreas(nw, ne, sw, se)
  {
    hide Image, MirroredBy, FlippedBy;
    MirrorNotMoved(nw.Hits(), nw.cols - nw.rows);
    FlipNotMoved(nw.Hits(), nw.rows - nw.cols);
    MirrorNotMoved(sw.Hits(), 0);
    HalfTurn(nw.Hits());
    if TurnedArea(nw, Rotate180, se) { MirrorInjective(sw.Hits(), Image(Flip, nw.Hits())); }
  }

  method Mirrored(area: MatrixArea, size: nat) returns (output: MatrixArea)
    requires area.Valid() && area.rows <= size && area.cols <= size
    ensures fresh(output) && fresh(output.data) && output.Valid()
    ensures output.Hits() == MirroredBy(area.Hits(), area.cols - area.rows)
    ensures output.rows == output.cols == size
  {
    output := new MatrixArea(size, size);
    CopyMirrored(area, output);
    MirroredHits(area, output);
  }

  method Flipped(area: MatrixArea, size: nat) returns (output: MatrixArea)
    requires area.Valid() && area.rows <= size && area.cols <= size
    ensures fresh(output) && fresh(output.data) && output.Valid()
    ensures output.Hits() == FlippedBy(area.Hits(), area.rows - area.cols)
    ensures output.rows == output.cols == size
  {
    output := new MatrixArea(size, size);
    CopyFlipped(area, output);
    FlippedHits(area, output);
  }

  method ExtAreas(list: seq<nat>, rows: nat)
    returns (area: MatrixArea, neArea: MatrixArea, swArea: MatrixArea, seArea: MatrixArea)
    requires rows > 0 && Fits(list, rows)
    ensures fresh(area) && fresh(neArea) && fresh(swArea) && fresh(seArea)
    ensures area.Valid() && neArea.Valid() && swArea.Valid() && seArea.Valid()
    ensures area.rows == rows && area.cols == |list| / rows && FilledTo(area, list, |list|)
    ensures DiagonalAreas(area, neArea, swArea, seArea)
  {
    hide FilledTo, Fits, MirroredBy, FlippedBy, DiagonalAreas, MatrixArea.At;
    area := CreateArea(list, rows);
    var maxOutput := Max(area.cols, area.rows) * 2;
    neArea := Mirrored(area, maxOutput);
    swArea := Flipped(area, maxOutput);
    seArea := Mirrored(swArea, maxOutput);
    Diagonals(area, neArea, swArea, seArea);
  }

  class AreaCombat {
    var areas: map<Direction, MatrixArea>
    var hasExtArea: bool

    constructor ()
      ensures areas == map[] && !hasExtArea
    {
      areas, hasExtArea := map[], false;
    }

    /** AreaCombat::setupArea: the turned areas are the area of the list, turned. */
    method SetupArea(list: seq<nat>, rows: nat)
      requires rows > 0 && Fits(list, rows) && CentreFits(list, rows)
      modifies this
      ensures hasExtArea == old(hasExtArea)
      ensures areas.Keys == old(areas).Keys + {North, East, South, West}
      ensures forall d | d in old(areas) && d !in {North, East, South, West} :: areas[d] == old(areas)[d]
      ensures forall d | d in {North, East, South, West} :: fresh(areas[d]) && areas[d].Valid()
      ensures areas[North].rows == rows && areas[North].cols == |list| / rows && FilledTo(areas[North], list, |list|)
      ensures TurnedArea(areas[North], Rotate90, areas[East])
      ensures TurnedArea(areas[North], Rotate180, areas[South])
      ensures TurnedArea(areas[North], Rotate270, areas[West])
    {
      hide FilledTo, TurnedArea, Fits, CentreFits, Turnable, CentreAt;
      var area := CreateArea(list, rows);
      CreatedTurnable(area, list, rows);
      var southArea := Rotated(area, Rotate180);
      var eastArea := Rotated(area, Rotate90);
      var westArea := Rotated(area, Rotate270);
      areas := areas[North := area][South := southArea][East := eastArea][West := westArea];
    }

    /** AreaCombat::setupExtArea */
    method SetupExtArea(list: seq<nat>, rows: nat)
      requires list != [] ==> rows > 0 && Fits(list, rows)
      modifies this
      ensures list == [] ==> areas == old(areas) && hasExtArea == old(hasExtArea)
      ensures list != [] ==>
        && hasExtArea && areas.Keys == old(areas).Keys + {NorthWest, NorthEast, SouthWest, SouthEast}
        && (forall d | d in {NorthWest, NorthEast, SouthWest, SouthEast} :: fresh(areas[d]) && areas[d].Valid())
        && areas[NorthWest].rows == rows && areas[NorthWest].cols == |list| / rows
        && FilledTo(areas[NorthWest], list, |list|)
        && DiagonalAreas(areas[NorthWest], areas[NorthEast], areas[SouthWest], areas[SouthEast])
      ensures forall d | d in old(areas) && d !in {NorthWest, NorthEast, SouthWest, SouthEast} ::
        areas[d] == old(areas)[d]
    {
      hide DiagonalAreas, FilledTo, Fits;
      if list == [] { return; }
      hasExtArea := true;
      var area, neArea, swArea, seArea := ExtAreas(list, rows);
      areas := areas[NorthWest := area][NorthEast := neArea][SouthWest := swArea][SouthEast := seArea];
    }

    /** AreaCombat::getArea */
    function Towards(centerPos: Position, targetPos: Position): (d: Direction)
      reads this
      ensures Heads(hasExtArea, targetPos.x - centerPos.x, targetPos.y - centerPos.y, d)
    {
      var dx, dy := targetPos.x - centerPos.x, targetPos.y - centerPos.y;
      if hasExtArea && dx < 0 && dy < 0 then NorthWest
      else if hasExtArea && dx > 0 && dy < 0 then NorthEast
      else if hasExtArea && dx < 0 && dy > 0 then SouthWest
      else if hasExtArea && dx > 0 && dy > 0 then SouthEast
      else if dx < 0 then West
      else if dx > 0 then East
      else if dy < 0 then North
      else South
    }

    /**
     * AreaCombat::getList: the tiles of the area laid over the target, row by row. `tiles` are the positions that have
     * a tile, `clear` those in view of the target.
     */
    method GetList(centerPos: Position, targetPos: Position, tiles: set<Position>, clear: set<Position>)
      returns (ok: bool, list: seq<Position>)
      requires forall d | d in areas :: areas[d].Valid()
      ensures forall d | Heads(hasExtArea, targetPos.x - centerPos.x, targetPos.y - centerPos.y, d) ::
        && (ok <==> targetPos in tiles && d in areas)
        && (ok ==> forall p :: p in list <==>
              && p.z == targetPos.z && p in clear && p in tiles
              && areas[d].At(Offset(p.y - targetPos.y, p.x - targetPos.x)))
      ensures !ok ==> list == []
      ensures forall i, j | 0 <= i < j < |list| :: Before(list[i], list[j])
    {
      list := [];
      HeadsOnce(hasExtArea, targetPos.x - centerPos.x, targetPos.y - centerPos.y, Towards(centerPos, targetPos));
      hide Heads;
      if targetPos !in tiles { return false, list; }
      var dir := Towards(centerPos, targetPos);
      if dir !in areas { return false, list; }
      var area := areas[dir];
      var tmpX, tmpY := targetPos.x - area.centerX, targetPos.y - area.centerY;
      for y := 0 to area.rows
        invariant tmpX == targetPos.x - area.centerX && tmpY == targetPos.y - area.centerY + y
        invariant forall p :: p in list <==> Reached(area, targetPos, tiles, clear, p, y, 0)
        invariant forall i, j | 0 <= i < j < |list| :: Before(list[i], list[j])
      {
        for x := 0 to area.cols
          invariant tmpX == targetPos.x - area.centerX + x && tmpY == targetPos.y - area.centerY + y
          invariant forall p :: p in list <==> Reached(area, targetPos, tiles, clear, p, y, x)
          invariant forall i, j | 0 <= i < j < |list| :: Before(list[i], list[j])
        {
          var tmpPos := Position(tmpX, tmpY, targetPos.z);
          if area.data[y, x] && tmpPos in clear && tmpPos in tiles {
            forall q | q in list ensures Before(q, tmpPos) { assert Reached(area, targetPos, tiles, clear, q, y, x); }
            list := list + [tmpPos];
          }
          tmpX := tmpX + 1;
        }
        tmpX := tmpX - area.cols;
        tmpY := tmpY + 1;
      }
      ok := true;
    }
  }

  /** A target dx to the right and dy down lies in this direction. Off the two axes a spell with areas for the diagonals
      is cast along one of them, and any other spell to the left or right; on the spot it is cast to the south. */
  predicate Heads(hasExtArea: bool, dx: int, dy: int, d: Direction) {
    match d
    case NorthWest => hasExtArea && dx < 0 && dy < 0
    case NorthEast => hasExtArea && dx > 0 && dy < 0
    case SouthWest => hasExtArea && dx < 0 && dy > 0
    case SouthEast => hasExtArea && dx > 0 && dy > 0
    case West => dx < 0 && (dy == 0 || !hasExtArea)
    case East => dx > 0 && (dy == 0 || !hasExtArea)
    case North => dx == 0 && dy < 0
    case South => dx == 0 && dy >= 0
  }

  /** Into no other one. */
  lemma HeadsOnce(hasExtArea: bool, dx: int, dy: int, d: Direction)
    requires Heads(hasExtArea, dx, dy, d)
    ensures forall e | Heads(hasExtArea, dx, dy, e) :: e == d
  {
  }

  predicate Before(p: Position, q: Position) {
    p.y < q.y || (p.y == q.y && p.x < q.x)
  }

  /** p is hit by a cell of the area before row y, or in row y before column x. */
  ghost predicate Reached(area: MatrixArea, target: Position, tiles: set<Position>, clear: set<Position>, p: Position,
                          y: int, x: int)
    requires area.Valid()
    reads area, area.data
  {
    var o := Offset(p.y - target.y, p.x - target.x);
    && p.z == target.z && p in clear && p in tiles && area.At(o)
    && (area.centerY + o.dy < y || (area.centerY + o.dy == y && area.centerX + o.dx < x))
  }
}
