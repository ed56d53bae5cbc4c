/** What comes back from the rows of a saved forest. */
module RowRoundTrip {
  import opened ItemForest
  import opened ItemRows
  import opened RowLoading

  /** A forest, its numbering, its rows, and the items made from the rows: objs[i] from rows[i]. */
  datatype Trip = Trip(section: Section, w: World, tops: seq<Top>, order: seq<Item>, starts: seq<nat>, rows: seq<Row>,
                       m: ItemMap, objs: seq<Item>)

  ghost predicate Made(t: Trip, u: World) {
    && |t.objs| == |t.rows| == |t.order|
    && Numbered(t.w, t.tops, t.order, t.starts, |t.order|)
    && Recorded(t.w, t.tops, t.order, t.starts, |t.order|, t.rows)
    && (forall s :: s in t.m <==> FIRST_ID <= s < FIRST_ID + |t.objs|)
    && (forall i | 0 <= i < |t.objs| :: MadeAt(t, u, i))
    && (forall i, j | 0 <= i < j < |t.objs| :: t.objs[i] != t.objs[j])
  }

  ghost predicate MadeAt(t: Trip, u: World, i: nat)
    requires i < |t.objs| && |t.objs| == |t.rows|
  {
    && FIRST_ID + i in t.m && t.m[FIRST_ID + i] == Entry(t.objs[i], t.rows[i].pid)
    && MadeFrom(u, t.m[FIRST_ID + i], t.rows[i])
  }

  // ---------------------------------------------------------------- the rows decide

  ghost predicate Consecutive(rows: seq<Row>) {
    forall i | 0 <= i < |rows| :: rows[i].sid == FIRST_ID + i && rows[i].typ.id != 0
  }

  lemma {:induction false} DecidingAll(rows: seq<Row>)
    requires Consecutive(rows)
    ensures forall s :: s in Deciding(rows) <==> FIRST_ID <= s < FIRST_ID + |rows|
    ensures forall i | 0 <= i < |rows| :: FIRST_ID + i in Deciding(rows) && Deciding(rows)[FIRST_ID + i] == rows[i]
    decreases |rows|
  {
    if rows != [] {
      var before := rows[..|rows| - 1];
      assert forall i | 0 <= i < |before| :: before[i] == rows[i];
      DecidingAll(before);
    }
  }

  // ---------------------------------------------------------------- the order of the rows

  /** The rows as the query gives them back: the greatest sid comes first. */
  function Descending(rows: seq<Row>): (r: seq<Row>)
    ensures |r| == |rows|
  {
    if rows == [] then [] else [rows[|rows| - 1]] + Descending(rows[..|rows| - 1])
  }

  lemma {:induction false} DescendingAt(rows: seq<Row>, i: nat)
    requires i < |rows|
    ensures Descending(rows)[i] == rows[|rows| - 1 - i]
    decreases |rows|
  {
    if i > 0 { DescendingAt(rows[..|rows| - 1], i - 1); }
  }

  ghost predicate EachOnce(rows: seq<Row>) {
    && (forall i | 0 <= i < |rows| :: rows[i].typ.id != 0)
    && (forall i, j | 0 <= i < j < |rows| :: rows[i].sid != rows[j].sid)
  }

  lemma {:induction false} DecidingEach(rows: seq<Row>)
    requires EachOnce(rows)
    ensures forall row | row in rows :: row.sid in Deciding(rows) && Deciding(rows)[row.sid] == row
    ensures forall s | s in Deciding(rows) :: Deciding(rows)[s] in rows && Deciding(rows)[s].sid == s
    decreases |rows|
  {
    if rows != [] {
      var n := |rows| - 1;
      DecidingEach(rows[..n]);
      assert forall row :: row in rows <==> row in rows[..n] || row == rows[n];
      forall row | row in rows[..n] ensures row.sid != rows[n].sid {
        var i :| 0 <= i < n && rows[..n][i] == row;
        assert rows[i] == row;
      }
    }
  }

  /** When every id has one usable row, it makes no difference in which order the rows come. */
  lemma DecidingAnyOrder(rows: seq<Row>, others: seq<Row>)
    requires EachOnce(rows) && EachOnce(others) && forall row :: row in rows <==> row in others
    ensures Deciding(rows) == Deciding(others)
  {
    DecidingEach(rows);
    DecidingEach(others);
    hide Deciding;
    var m, m' := Deciding(rows), Deciding(others);
    forall s | s in m ensures s in m' && m'[s] == m[s] { assert m[s] in others; }
    forall s | s in m' ensures s in m { assert m'[s] in rows; }
    assert m == m';
  }

  lemma DecidingDescending(rows: seq<Row>)
    requires Consecutive(rows)
    ensures Deciding(Descending(rows)) == Deciding(rows)
  {
    var down := Descending(rows);
    forall i | 0 <= i < |rows| ensures down[i] == rows[|rows| - 1 - i] { DescendingAt(rows, i); }
    forall row ensures row in rows <==> row in down {
      if row in rows {
        var i :| 0 <= i < |rows| && rows[i] == row;
        assert down[|rows| - 1 - i] == row;
      }
    }
    DecidingAnyOrder(rows, down);
  }

  ghost predicate KnownTypes(w: World) {
    forall x | x in w :: w[x].typ.id != 0
  }

  lemma RowsConsecutive(t: Trip)
    requires Numbered(t.w, t.tops, t.order, t.starts, |t.order|) && KnownTypes(t.w)
    requires Recorded(t.w, t.tops, t.order, t.starts, |t.order|, t.rows)
    ensures Consecutive(t.rows)
  {
    forall i | 0 <= i < |t.rows| ensures t.rows[i].sid == FIRST_ID + i && t.rows[i].typ.id != 0 {
      assert RowOf(t.w, t.order[i], t.rows[i], i);
    }
  }

  ghost predicate ItemsOf(m: ItemMap, objs: seq<Item>) {
    forall i | 0 <= i < |objs| :: HasItem(m, FIRST_ID + i, objs[i])
  }

  ghost predicate HasItem(m: ItemMap, s: int, x: Item) {
    s in m && m[s].item == x
  }

  lemma MadeAll(t: Trip, u: World)
    requires Numbered(t.w, t.tops, t.order, t.starts, |t.order|) && KnownTypes(t.w)
    requires Recorded(t.w, t.tops, t.order, t.starts, |t.order|, t.rows)
    requires LoadedAs(u, t.m, Deciding(t.rows)) && |t.objs| == |t.rows|
    requires ItemsOf(t.m, t.objs)
    ensures Made(t, u)
  {
    RowsConsecutive(t);
    DecidingAll(t.rows);
    forall i | 0 <= i < |t.objs| ensures MadeAt(t, u, i) {
      assert HasItem(t.m, FIRST_ID + i, t.objs[i]);
      assert MadeFrom(u, t.m[FIRST_ID + i], Deciding(t.rows)[FIRST_ID + i]);
    }
    forall i, j | 0 <= i < j < |t.objs| ensures t.objs[i] != t.objs[j] {
      assert HasItem(t.m, FIRST_ID + i, t.objs[i]) && HasItem(t.m, FIRST_ID + j, t.objs[j]);
    }
  }

  // ---------------------------------------------------------------- ranges of the numbering

  lemma {:induction false} StartsGrow(t: Trip, a: nat, b: nat)
    requires Numbered(t.w, t.tops, t.order, t.starts, |t.order|) && a <= b <= |t.order|
    ensures t.starts[a] <= t.starts[b] <= |t.order|
    decreases b - a
  {
    if b < |t.order| { assert ListsAt(t.w, t.order, t.starts, b); }
    if a < b {
      StartsGrow(t, a + 1, b);
      assert ListsAt(t.w, t.order, t.starts, a);
    }
  }

  ghost predicate In(t: Trip, p: nat, i: nat) {
    p + 1 < |t.starts| && t.starts[p] <= i < t.starts[p + 1]
  }

  lemma OneRange(t: Trip, p: nat, q: nat, i: nat)
    requires Numbered(t.w, t.tops, t.order, t.starts, |t.order|) && In(t, p, i) && In(t, q, i)
    ensures p == q
  {
    if p < q { StartsGrow(t, p + 1, q); }
    if q < p { StartsGrow(t, q + 1, p); }
  }

  /** The part of a range from i on. */
  ghost function Tail(objs: seq<Item>, lo: nat, hi: nat, i: nat): seq<Item>
    requires lo <= hi <= |objs|
  {
    if hi <= i then [] else if lo <= i then objs[i..hi] else objs[lo..hi]
  }

  lemma TailStep(objs: seq<Item>, lo: nat, hi: nat, i: nat)
    requires lo <= hi <= |objs|
    ensures Tail(objs, lo, hi, i) == (if lo <= i < hi then [objs[i]] else []) + Tail(objs, lo, hi, i + 1)
  {
  }

  // ---------------------------------------------------------------- the rebuild, from the back

  ghost predicate AllFit(section: Section, tops: seq<Top>) {
    forall k | 0 <= k < |tops| :: TopFits(section, tops[k].pid, tops[k].item.typ)
  }

  /** The j-th item once the ids from i on have been placed. */
  ghost predicate PlacedAt(t: Trip, v: World, i: nat, j: nat)
    requires j < |t.objs| == |t.rows|
  {
    && j + 1 < |t.starts| && t.starts[j] <= t.starts[j + 1] <= |t.objs|
    && t.objs[j] in v && v[t.objs[j]].typ == t.rows[j].typ && v[t.objs[j]].count == t.rows[j].count
    && v[t.objs[j]].items == Tail(t.objs, t.starts[j], t.starts[j + 1], i)
    && (j < i || j < |t.tops| ==> v[t.objs[j]].parent == null)
    && (forall p: nat | In(t, p, j) && i <= j && p < |t.objs| :: v[t.objs[j]].parent == t.objs[p])
  }

  ghost predicate Placed(t: Trip, v: World, i: nat)
    requires |t.rows| == |t.objs|
  {
    forall j: nat | j < |t.objs| :: PlacedAt(t, v, i, j)
  }

  lemma NothingPlaced(t: Trip, u: World)
    requires Made(t, u)
    ensures Placed(t, u, |t.objs|)
  {
    forall j: nat | j < |t.objs| ensures PlacedAt(t, u, |t.objs|, j) {
      assert ListsAt(t.w, t.order, t.starts, j) && MadeAt(t, u, j);
    }
  }

  /** A row of a nested item names its holder, which has been loaded as a container. */
  lemma NestedIn(t: Trip, u: World, i: nat) returns (p: nat)
    requires Made(t, u) && Wired(t.w) && |t.tops| <= i < |t.objs|
    ensures p < i && In(t, p, i) && t.m[FIRST_ID + i].pid == FIRST_ID + p && FIRST_ID + p in t.m
    ensures t.m[FIRST_ID + i].item == t.objs[i] && t.m[FIRST_ID + p].item == t.objs[p]
    ensures Nested(t.section, t.m, FIRST_ID + i)
  {
    p := Holder(t.w, t.tops, t.order, t.starts, |t.order|, i);
    assert HeldBy(t.rows, t.starts[p], t.starts[p + 1], FIRST_ID + p);
    assert MadeAt(t, u, i) && MadeAt(t, u, p) && RowOf(t.w, t.order[p], t.rows[p], p);
    assert ListsAt(t.w, t.order, t.starts, p) && Listed(t.w, t.order[p]);
    assert t.w[t.order[p]].items != [];
  }

  lemma TopStays(t: Trip, u: World, i: nat)
    requires Made(t, u) && AllFit(t.section, t.tops) && i < |t.tops|
    ensures i < |t.objs| && FIRST_ID + i in t.m && !Nested(t.section, t.m, FIRST_ID + i)
  {
    assert MadeAt(t, u, i) && TopFits(t.section, t.tops[i].pid, t.tops[i].item.typ);
  }

  lemma PlaceTop(t: Trip, v: World, i: nat)
    requires |t.rows| == |t.objs| == |t.order| && Numbered(t.w, t.tops, t.order, t.starts, |t.order|)
    requires Placed(t, v, i + 1) && i < |t.tops|
    ensures Placed(t, v, i)
  {
    forall j: nat | j < |t.objs| ensures PlacedAt(t, v, i, j) {
      assert PlacedAt(t, v, i + 1, j);
      TailStep(t.objs, t.starts[j], t.starts[j + 1], i);
      StartsGrow(t, 0, j);
      forall p: nat | In(t, p, i) ensures false { StartsGrow(t, 0, p); }
    }
  }

  lemma PlaceNested(t: Trip, u: World, v: World, i: nat, p: nat)
    requires Made(t, u) && Placed(t, v, i + 1) && |t.tops| <= i < |t.objs| && p < i && In(t, p, i)
    requires t.objs[i] in v && t.objs[p] in v
    ensures Placed(t, PushFront(v, t.objs[p], t.objs[i]), i)
  {
    var v' := PushFront(v, t.objs[p], t.objs[i]);
    assert t.objs[p] != t.objs[i];
    forall j: nat | j < |t.objs| ensures PlacedAt(t, v', i, j) {
      assert PlacedAt(t, v, i + 1, j);
      TailStep(t.objs, t.starts[j], t.starts[j + 1], i);
      if In(t, j, i) { OneRange(t, p, j, i); }
      forall q: nat | In(t, q, j) && i <= j && q < |t.objs| ensures v'[t.objs[j]].parent == t.objs[q] {
        if j == i { OneRange(t, p, q, i); }
      }
    }
  }

  lemma {:induction false} RebuildPlaces(t: Trip, u: World, ids: seq<int>, i: nat)
    requires Made(t, u) && Wired(t.w) && AllFit(t.section, t.tops) && AllIn(u, t.m)
    requires |ids| == |t.objs| && (forall k | 0 <= k < |ids| :: ids[k] == FIRST_ID + k) && i <= |ids|
    requires forall k | 0 <= k < |ids[i..]| :: ids[i..][k] in t.m
    ensures Placed(t, Rebuilt(t.section, t.m, ids[i..], u), i)
    decreases |ids| - i
  {
    if i == |ids| {
      NothingPlaced(t, u);
    } else {
      assert ids[i..][1..] == ids[i + 1..];
      RebuildPlaces(t, u, ids, i + 1);
      var v := Rebuilt(t.section, t.m, ids[i + 1..], u);
      if i < |t.tops| {
        TopStays(t, u, i);
        PlaceTop(t, v, i);
      } else {
        var p := NestedIn(t, u, i);
        assert PlacedAt(t, v, i + 1, i) && PlacedAt(t, v, i + 1, p);
        PlaceNested(t, u, v, i, p);
      }
    }
  }
}
