/** Saving a forest as rows and loading it again. */
module SavedForest {
  import opened ItemForest
  import opened ContainerOps
  import opened AscendingIds
  import opened ItemRows
  import opened RowLoading
  import opened RowRoundTrip

  /** The loaded items are a copy of the saved forest: each item has its twin, and the twins hold each other alike. */
  ghost predicate Copied(w: World, v: World, twin: map<Item, Item>) {
    && (forall x, y | x in twin && y in twin && twin[x] == twin[y] :: x == y)
    && (forall x | x in twin :: CopiedAt(w, v, twin, x))
  }

  ghost predicate CopiedAt(w: World, v: World, twin: map<Item, Item>, x: Item)
    requires x in twin
  {
    var y := twin[x];
    && x in w && y in v && v[y].typ == w[x].typ && v[y].count == w[x].count && y.attributes == x.attributes
    && (w[x].parent == null ==> v[y].parent == null)
    && (w[x].parent != null ==> w[x].parent in twin && v[y].parent == twin[w[x].parent])
    && Holds(twin, w[x].items, v[y].items)
  }

  ghost predicate Holds(twin: map<Item, Item>, xs: seq<Item>, ys: seq<Item>) {
    |ys| == |xs| && forall i | 0 <= i < |xs| :: xs[i] in twin && ys[i] == twin[xs[i]]
  }

  /** Every saved slot holds the twin of what it held, and no other slot is filled. */
  ghost predicate SlotsFilled(tops: seq<Top>, slots: map<int, Item>, twin: map<Item, Item>) {
    && (forall k | 0 <= k < |tops| :: SlotFilled(tops, slots, twin, k))
    && (forall pid | pid in slots :: exists k :: 0 <= k < |tops| && tops[k].pid == pid)
  }

  ghost predicate SlotFilled(tops: seq<Top>, slots: map<int, Item>, twin: map<Item, Item>, k: nat)
    requires k < |tops|
  {
    tops[k].item in twin && tops[k].pid in slots && slots[tops[k].pid] == twin[tops[k].item]
  }

  ghost predicate Typed(w: World) {
    forall x | x in w :: w[x].typ == x.typ && w[x].typ.id != 0
  }

  // ---------------------------------------------------------------- slots

  ghost predicate SlotsFrom(t: Trip, slots: map<int, Item>, i: nat)
    requires |t.tops| <= |t.objs|
  {
    && (forall pid | pid in slots :: exists k :: i <= k < |t.tops| && t.tops[k].pid == pid && Fit(t, k))
    && (forall k | i <= k < |t.tops| && Fit(t, k) :: t.tops[k].pid in slots && slots[t.tops[k].pid] == t.objs[k])
  }

  ghost predicate Fit(t: Trip, k: nat)
    requires k < |t.tops|
  {
    TopFits(t.section, t.tops[k].pid, t.tops[k].item.typ)
  }

  lemma {:induction false} SlotsPlaced(t: Trip, u: World, ids: seq<int>, i: nat)
    requires Made(t, u) && Wired(t.w) && Typed(t.w) && RootList(t.w, t.tops)
    requires |ids| == |t.objs| && (forall k | 0 <= k < |ids| :: ids[k] == FIRST_ID + k) && i <= |ids|
    requires forall k | 0 <= k < |ids[i..]| :: ids[i..][k] in t.m
    ensures SlotsFrom(t, Slots(t.section, t.m, ids[i..]), i)
    decreases |ids| - i
  {
    if i < |ids| {
      assert ids[i..][1..] == ids[i + 1..];
      SlotsPlaced(t, u, ids, i + 1);
      var slots := Slots(t.section, t.m, ids[i + 1..]);
      assert MadeAt(t, u, i) && RowOf(t.w, t.order[i], t.rows[i], i);
      if i < |t.tops| {
        SlotAdded(t, slots, i);
      } else {
        var p := NestedIn(t, u, i);
        assert !TopPid(t.section, FIRST_ID + p);
      }
    }
  }

  lemma SlotAdded(t: Trip, slots: map<int, Item>, i: nat)
    requires |t.tops| <= |t.objs| && i < |t.tops| && RootList(t.w, t.tops) && SlotsFrom(t, slots, i + 1)
    ensures t.tops[i].pid !in slots
    ensures SlotsFrom(t, if Fit(t, i) then slots[t.tops[i].pid := t.objs[i]] else slots, i)
  {
  }

  // ---------------------------------------------------------------- twins

  ghost predicate Distinct(order: seq<Item>) {
    forall i, j | 0 <= i < j < |order| :: order[i] != order[j]
  }

  ghost function Twins(order: seq<Item>, objs: seq<Item>): (twin: map<Item, Item>)
    requires |order| == |objs| && Distinct(order)
    ensures forall i | 0 <= i < |order| :: order[i] in twin && twin[order[i]] == objs[i]
    ensures forall x | x in twin :: x in order
  {
    map i | 0 <= i < |order| :: order[i] := objs[i]
  }

  lemma TwinsCopy(t: Trip, u: World, v: World, twin: map<Item, Item>)
    requires Made(t, u) && Wired(t.w) && Placed(t, v, 0) && Distinct(t.order) && twin == Twins(t.order, t.objs)
    requires RootList(t.w, t.tops)
    ensures Copied(t.w, v, twin)
  {
    hide Wired, RootList, Placed, Distinct, CopiedAt, MadeAt;
    assert Distinct(t.objs) by { ObjectsDistinct(t, u); }
    TwinsApart(t.order, t.objs, twin);
    forall x | x in twin ensures CopiedAt(t.w, v, twin, x) {
      var j :| 0 <= j < |t.order| && t.order[j] == x;
      TwinCopied(t, u, v, twin, j);
    }
  }

  lemma ObjectsDistinct(t: Trip, u: World)
    requires Made(t, u)
    ensures Distinct(t.objs)
  {
  }

  lemma TwinsApart(order: seq<Item>, objs: seq<Item>, twin: map<Item, Item>)
    requires |order| == |objs| && Distinct(order) && Distinct(objs) && twin == Twins(order, objs)
    ensures forall x, y | x in twin && y in twin && twin[x] == twin[y] :: x == y
  {
    forall x, y | x in twin && y in twin && twin[x] == twin[y] ensures x == y {
      var i :| 0 <= i < |order| && order[i] == x;
      var j :| 0 <= j < |order| && order[j] == y;
      assert !(i < j) && !(j < i);
    }
  }

  lemma TwinCopied(t: Trip, u: World, v: World, twin: map<Item, Item>, j: nat)
    requires Made(t, u) && Wired(t.w) && Placed(t, v, 0) && Distinct(t.order) && twin == Twins(t.order, t.objs)
    requires RootList(t.w, t.tops) && j < |t.order|
    ensures t.order[j] in twin && CopiedAt(t.w, v, twin, t.order[j])
  {
    hide Distinct, Wired, RootList, MadeFrom, Holds;
    var x := t.order[j];
    assert PlacedAt(t, v, 0, j) && MadeAt(t, u, j) && RowOf(t.w, x, t.rows[j], j);
    assert ListsAt(t.w, t.order, t.starts, j);
    TwinHolds(t.order, t.objs, twin, t.starts[j], t.starts[j + 1], t.w[x].items, v[t.objs[j]].items);
    MadeAttributes(t, u, j);
    if j < |t.tops| {
      RootTop(t, j);
    } else {
      var p := Holder(t.w, t.tops, t.order, t.starts, |t.order|, j);
      assert In(t, p, j);
    }
  }

  lemma TwinHolds(order: seq<Item>, objs: seq<Item>, twin: map<Item, Item>, lo: nat, hi: nat, xs: seq<Item>,
                  ys: seq<Item>)
    requires |order| == |objs| && Distinct(order) && twin == Twins(order, objs) && lo <= hi <= |order|
    requires xs == order[lo..hi] && ys == Tail(objs, lo, hi, 0)
    ensures Holds(twin, xs, ys)
  {
    forall i | 0 <= i < |xs| ensures xs[i] in twin && ys[i] == twin[xs[i]] {
      assert xs[i] == order[lo + i] && ys[i] == objs[lo + i];
    }
  }

  lemma MadeAttributes(t: Trip, u: World, j: nat)
    requires Made(t, u) && j < |t.objs|
    ensures t.objs[j].attributes == t.rows[j].attributes
  {
    assert MadeAt(t, u, j);
  }

  lemma RootTop(t: Trip, j: nat)
    requires RootList(t.w, t.tops) && j < |t.tops|
    ensures t.tops[j].item in t.w && t.w[t.tops[j].item].parent == null
  {
    assert t.tops[j] in t.tops;
  }

  ghost function PidsOf(tops: seq<Top>): set<int> {
    set k | 0 <= k < |tops| :: tops[k].pid
  }

  lemma SlotsKnown(t: Trip, slots: map<int, Item>)
    requires |t.tops| <= |t.objs| && SlotsFrom(t, slots, 0) && AllFit(t.section, t.tops)
    ensures slots.Keys == PidsOf(t.tops)
    ensures forall k | 0 <= k < |t.tops| :: t.tops[k].pid in slots && slots[t.tops[k].pid] == t.objs[k]
  {
    forall k | 0 <= k < |t.tops| ensures t.tops[k].pid in slots && slots[t.tops[k].pid] == t.objs[k] {
      assert Fit(t, k);
    }
    forall pid | pid in slots ensures pid in PidsOf(t.tops) {
      var k :| 0 <= k < |t.tops| && t.tops[k].pid == pid && Fit(t, k);
    }
    forall pid | pid in PidsOf(t.tops) ensures pid in slots {
      var k :| 0 <= k < |t.tops| && t.tops[k].pid == pid;
    }
  }

  lemma SlotsAreFilled(t: Trip, slots: map<int, Item>, twin: map<Item, Item>)
    requires |t.tops| <= |t.order| == |t.objs| && Distinct(t.order) && twin == Twins(t.order, t.objs)
    requires forall k | 0 <= k < |t.tops| :: t.order[k] == t.tops[k].item
    requires SlotsFrom(t, slots, 0) && AllFit(t.section, t.tops)
    ensures SlotsFilled(t.tops, slots, twin)
  {
    hide AllFit, Distinct, SlotsFrom, Twins;
    SlotsKnown(t, slots);
    forall k | 0 <= k < |t.tops| ensures SlotFilled(t.tops, slots, twin, k) { TwinAt(t.order, t.objs, twin, k); }
    forall pid | pid in slots ensures exists k :: 0 <= k < |t.tops| && t.tops[k].pid == pid {
      assert pid in PidsOf(t.tops);
    }
  }

  lemma TwinAt(order: seq<Item>, objs: seq<Item>, twin: map<Item, Item>, k: nat)
    requires |order| == |objs| && Distinct(order) && twin == Twins(order, objs) && k < |order|
    ensures order[k] in twin && twin[order[k]] == objs[k]
  {
  }

  lemma FilledSlots(t: Trip, slots: map<int, Item>, twin: map<Item, Item>)
    requires |t.tops| <= |t.order| == |t.objs| && Distinct(t.order) && twin == Twins(t.order, t.objs)
    requires forall k | 0 <= k < |t.tops| :: t.order[k] == t.tops[k].item
    requires SlotsFrom(t, slots, 0) && RootList(t.w, t.tops)
    ensures slots.Keys == PidsOf(t.tops) <==> AllFit(t.section, t.tops)
    ensures AllFit(t.section, t.tops) ==> SlotsFilled(t.tops, slots, twin)
  {
    hide *;
    if AllFit(t.section, t.tops) {
      SlotsKnown(t, slots);
      SlotsAreFilled(t, slots, twin);
    } else {
      SlotMissing(t, slots);
    }
  }

  lemma SlotMissing(t: Trip, slots: map<int, Item>)
    requires |t.tops| <= |t.objs| && SlotsFrom(t, slots, 0) && RootList(t.w, t.tops) && !AllFit(t.section, t.tops)
    ensures slots.Keys != PidsOf(t.tops)
  {
    var k :| 0 <= k < |t.tops| && !TopFits(t.section, t.tops[k].pid, t.tops[k].item.typ);
    assert t.tops[k].pid !in slots;
    assert t.tops[k].pid in PidsOf(t.tops);
  }

  lemma OrderDistinct(t: Trip)
    requires Numbered(t.w, t.tops, t.order, t.starts, |t.order|) && Wired(t.w) && RootList(t.w, t.tops)
    ensures Distinct(t.order)
  {
    forall i, j | 0 <= i < j < |t.order| ensures t.order[i] != t.order[j] {
      NumberedOnce(t.w, t.tops, t.order, t.starts, |t.order|, i, j);
    }
  }

  /** The slots 1 to 10 of an inventory, and the depots of the towns 0 to 99, are filled; no others are. */
  ghost predicate FilledExactly(section: Section, tops: seq<Top>, slots: map<int, Item>) {
    match section
    case Inventory =>
      && (forall pid | pid in slots :: 1 <= pid <= 10 && pid in PidsOf(tops))
      && (forall k | 0 <= k < |tops| && 1 <= tops[k].pid <= 10 :: tops[k].pid in slots)
    case Depots =>
      && (forall pid | pid in slots :: 0 <= pid <= 99 && pid in PidsOf(tops))
      && (forall k | 0 <= k < |tops| && 0 <= tops[k].pid <= 99 ::
            tops[k].pid in slots <==> tops[k].item.typ.kind.Depot?)
  }

  lemma SlotsExactly(t: Trip, slots: map<int, Item>)
    requires |t.tops| <= |t.objs| && SlotsFrom(t, slots, 0) && RootList(t.w, t.tops)
    ensures FilledExactly(t.section, t.tops, slots)
  {
    forall pid | pid in slots
      ensures pid in PidsOf(t.tops) && if t.section.Inventory? then 1 <= pid <= 10 else 0 <= pid <= 99
    {
      var k :| 0 <= k < |t.tops| && t.tops[k].pid == pid && Fit(t, k);
    }
    forall k | 0 <= k < |t.tops|
      ensures t.section.Inventory? && 1 <= t.tops[k].pid <= 10 ==> t.tops[k].pid in slots
      ensures t.section.Depots? && 0 <= t.tops[k].pid <= 99 ==>
        (t.tops[k].pid in slots <==> t.tops[k].item.typ.kind.Depot?)
    {
      OnlyPlace(t, slots, k);
    }
  }

  lemma OnlyPlace(t: Trip, slots: map<int, Item>, k: nat)
    requires |t.tops| <= |t.objs| && SlotsFrom(t, slots, 0) && RootList(t.w, t.tops) && k < |t.tops|
    ensures t.tops[k].pid in slots <==> Fit(t, k)
  {
    if t.tops[k].pid in slots {
      var j :| 0 <= j < |t.tops| && t.tops[j].pid == t.tops[k].pid && Fit(t, j);
      assert !(j < k) && !(k < j);
    }
  }

  /** From the rows of a saved forest, the rebuild loops make a copy of it exactly if every top row fits its section. */
  lemma RowsRestore(t: Trip, u: World, ids: seq<int>, slots: map<int, Item>, v: World)
    returns (twin: map<Item, Item>)
    requires Numbered(t.w, t.tops, t.order, t.starts, |t.order|)
    requires Recorded(t.w, t.tops, t.order, t.starts, |t.order|, t.rows)
    requires Wired(t.w) && RootList(t.w, t.tops) && Typed(t.w)
    requires LoadedAs(u, t.m, Deciding(t.rows)) && AllIn(u, t.m) && Ascending(ids, t.m.Keys)
    requires |t.objs| == |t.rows|
    requires ItemsOf(t.m, t.objs)
    requires slots == Slots(t.section, t.m, ids) && v == Rebuilt(t.section, t.m, ids, u)
    ensures slots.Keys == PidsOf(t.tops) <==> AllFit(t.section, t.tops)
    ensures AllFit(t.section, t.tops) ==> Copied(t.w, v, twin) && SlotsFilled(t.tops, slots, twin)
    ensures FilledExactly(t.section, t.tops, slots)
  {
    hide ListsAt, RowOf, HeldBy, MadeAt, MadeFrom, PlacedAt, Fit, CopiedAt, SlotFilled, RootList, Wired, AllFit;
    hide Distinct;
    assert KnownTypes(t.w);
    MadeAll(t, u);
    ConsecutiveIds(ids, t.m.Keys, FIRST_ID, |t.objs|, |ids|);
    OrderDistinct(t);
    twin := Twins(t.order, t.objs);
    assert ids[0..] == ids;
    SlotsPlaced(t, u, ids, 0);
    FilledSlots(t, slots, twin);
    SlotsExactly(t, slots);
    if AllFit(t.section, t.tops) {
      RebuildPlaces(t, u, ids, 0);
      TwinsCopy(t, u, v, twin);
    }
  }

  /** Saving a player's inventory or depots and loading the rows, on the items themselves. */
  method SaveAndLoad(section: Section, tops: seq<Top>, ghost W: set<Item>)
    returns (slots: map<int, Item>, ghost V: set<Item>, ghost twin: map<Item, Item>)
    requires Wired(Snap(W)) && RootList(Snap(W), tops) && Typed(Snap(W))
    ensures fresh(V)
    ensures FilledExactly(section, tops, slots)
    ensures
      (forall k | 0 <= k < |tops| ::
        if section.Inventory? then 1 <= tops[k].pid <= 10
        else 0 <= tops[k].pid <= 99 && tops[k].item.typ.kind.Depot?) <==> slots.Keys == PidsOf(tops)
    ensures slots.Keys == PidsOf(tops) ==> Copied(Snap(W), Snap(V), twin) && SlotsFilled(tops, slots, twin)
  {
    AllFitMeans(section, tops);
    hide Wired, RootList, Typed, Numbered, Recorded, Copied, SlotsFilled, AllFit, LoadedAs, Ascending, ItemsOf;
    hide FilledExactly;
    ghost var w := Snap(W);
    var rows, order, starts := SaveItems(tops, W);
    SavedDescending(w, tops, order, starts, rows);
    var itemMap, L := LoadItems(Descending(rows));
    V := L;
    ghost var u := Snap(V);
    ghost var objs := LoadedItems(w, tops, order, starts, rows, u, itemMap);
    ghost var ids;
    slots, ids := Rebuild(section, itemMap, V);
    ghost var t := Trip(section, w, tops, order, starts, rows, itemMap, objs);
    twin := RowsRestore(t, u, ids, slots, Snap(V));
    assert Snap(W) == w;
  }

  /** The pids that are put back where they were. */
  lemma AllFitMeans(section: Section, tops: seq<Top>)
    ensures AllFit(section, tops) <==>
      forall k | 0 <= k < |tops| ::
        if section.Inventory? then 1 <= tops[k].pid <= 10
        else 0 <= tops[k].pid <= 99 && tops[k].item.typ.kind.Depot?
  {
  }

  lemma SavedDescending(w: World, tops: seq<Top>, order: seq<Item>, starts: seq<nat>, rows: seq<Row>)
    requires Numbered(w, tops, order, starts, |order|) && Recorded(w, tops, order, starts, |order|, rows) && Typed(w)
    ensures Deciding(Descending(rows)) == Deciding(rows)
  {
    RowsConsecutive(Trip(Inventory, w, tops, order, starts, rows, map[], []));
    DecidingDescending(rows);
  }

  lemma LoadedItems(w: World, tops: seq<Top>, order: seq<Item>, starts: seq<nat>, rows: seq<Row>, u: World, m: ItemMap)
    returns (objs: seq<Item>)
    requires Numbered(w, tops, order, starts, |order|) && Recorded(w, tops, order, starts, |order|, rows) && Typed(w)
    requires LoadedAs(u, m, Deciding(rows))
    ensures AllIn(u, m) && |objs| == |rows|
    ensures ItemsOf(m, objs)
  {
    RowsConsecutive(Trip(Inventory, w, tops, order, starts, rows, m, []));
    DecidingAll(rows);
    objs := seq(|rows|, i requires 0 <= i < |rows| => m[FIRST_ID + i].item);
    forall s | s in m ensures m[s].item in u { assert MadeFrom(u, m[s], Deciding(rows)[s]); }
  }

  /** A depot saved under town 101 gets row (101, 101): loading puts it inside itself and leaves the town without
      one. */
  lemma DepotInItself(w: World, x: Item, m: ItemMap, y: Item, u: World)
    requires w == map[x := Rec(x.typ, null, [], 1)] && x.typ.kind.Depot?
    requires m == map[FIRST_ID := Entry(y, FIRST_ID)] && u == map[y := Rec(x.typ, null, [], 1)] && y.typ == x.typ
    ensures var tops, rows := [Top(FIRST_ID, x)], [Row(FIRST_ID, FIRST_ID, x.typ, 1, x.attributes)];
      && RootList(w, tops) && Numbered(w, tops, [x], [1, 1], 1) && Recorded(w, tops, [x], [1, 1], 1, rows)
      && !AllFit(Depots, tops)
    ensures Slots(Depots, m, [FIRST_ID]) == map[]
    ensures Rebuilt(Depots, m, [FIRST_ID], u)[y] == Rec(x.typ, y, [y], 1)
  {
    var rest: seq<int> := [FIRST_ID][1..];
    assert rest == [] && Nested(Depots, m, FIRST_ID);
    assert Rebuilt(Depots, m, rest, u) == u && Slots(Depots, m, rest) == map[];
  }
}
