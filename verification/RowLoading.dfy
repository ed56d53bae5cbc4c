/** IOLoginData: rows read back into a map by sid, and the forest rebuilt from it. */
module RowLoading {
  import opened ItemForest
  import opened ContainerOps
  import opened ItemRows
  import opened AscendingIds

  datatype Entry = Entry(item: Item, pid: int)
  type ItemMap = map<int, Entry>

  datatype Section = Inventory | Depots

  /** The pids that stand for a slot or a town instead of a container. */
  predicate TopPid(section: Section, pid: int) {
    match section
    case Inventory => 1 <= pid <= 10
    case Depots => 0 <= pid < 100
  }

  predicate TopFits(section: Section, pid: int, typ: ItemType) {
    TopPid(section, pid) && (section.Depots? ==> typ.kind.Depot?)
  }

  // ---------------------------------------------------------------- reading the rows

  /** The row that decides each sid: the last one whose item type exists. */
  function Deciding(rows: seq<Row>): map<int, Row> {
    if rows == [] then map[]
    else
      var before := Deciding(rows[..|rows| - 1]);
      var row := rows[|rows| - 1];
      if row.typ.id != 0 then before[row.sid := row] else before
  }

  ghost predicate MadeFrom(w: World, e: Entry, row: Row) {
    && e.item in w && w[e.item] == Rec(row.typ, null, [], row.count)
    && e.item.typ == row.typ && e.item.attributes == row.attributes && e.pid == row.pid
  }

  ghost predicate Separate(m: ItemMap) {
    forall s, t | s in m && t in m && s != t :: m[s].item != m[t].item
  }

  ghost predicate LoadedAs(w: World, m: ItemMap, decided: map<int, Row>) {
    m.Keys == decided.Keys && Separate(m) && forall s | s in m :: MadeFrom(w, m[s], decided[s])
  }

  /** IOLoginData::loadItems */
  method LoadItems(rows: seq<Row>) returns (itemMap: ItemMap, ghost V: set<Item>)
    ensures fresh(V) && LoadedAs(Snap(V), itemMap, Deciding(rows))
  {
    itemMap, V := map[], {};
    for i := 0 to |rows|
      invariant fresh(V) && LoadedAs(Snap(V), itemMap, Deciding(rows[..i]))
    {
      assert rows[..i + 1][..i] == rows[..i];
      if rows[i].typ.id != 0 {
        ghost var w, m := Snap(V), itemMap;
        var item := new Item(rows[i].typ, rows[i].count, rows[i].attributes);
        itemMap := itemMap[rows[i].sid := Entry(item, rows[i].pid)];
        V := V + {item};
        assert forall x | x in w :: Snap(V)[x] == w[x];
        LoadedMore(w, m, Deciding(rows[..i]), Snap(V), rows[i], item);
      }
    }
    assert rows[..|rows|] == rows;
  }

  lemma LoadedMore(w: World, m: ItemMap, decided: map<int, Row>, v: World, row: Row, item: Item)
    requires LoadedAs(w, m, decided) && item !in w && MadeFrom(v, Entry(item, row.pid), row)
    requires forall x | x in w :: x in v && v[x] == w[x]
    ensures LoadedAs(v, m[row.sid := Entry(item, row.pid)], decided[row.sid := row])
  {
    var m', decided' := m[row.sid := Entry(item, row.pid)], decided[row.sid := row];
    forall s | s in m' ensures MadeFrom(v, m'[s], decided'[s]) {
      if s != row.sid { assert MadeFrom(w, m[s], decided[s]); }
    }
    forall s | s in m ensures m[s].item != item { assert MadeFrom(w, m[s], decided[s]); }
  }

  // ---------------------------------------------------------------- rebuilding

  /** The entry goes into a container that was loaded too. */
  predicate Nested(section: Section, m: ItemMap, s: int)
    requires s in m
  {
    !TopPid(section, m[s].pid) && m[s].pid in m && !m[m[s].pid].item.typ.kind.Plain?
  }

  ghost predicate AllIn(w: World, m: ItemMap) {
    forall s | s in m :: m[s].item in w
  }

  /** Container::__internalAddThing: in front of everything else. */
  ghost function PushFront(w: World, c: Item, x: Item): World
    requires c in w && x in w
  {
    var u := w[c := w[c].(items := [x] + w[c].items)];
    u[x := u[x].(parent := c)]
  }

  /** What the walk over `order`, from its end to its front, makes of the items. */
  ghost function Rebuilt(section: Section, m: ItemMap, order: seq<int>, w: World): (v: World)
    requires AllIn(w, m) && forall i | 0 <= i < |order| :: order[i] in m
    ensures v.Keys == w.Keys
  {
    if order == [] then w
    else
      var v := Rebuilt(section, m, order[1..], w);
      if Nested(section, m, order[0]) then PushFront(v, m[m[order[0]].pid].item, m[order[0]].item) else v
  }

  /** Which items are left in the slots: the first that comes for each. */
  function Slots(section: Section, m: ItemMap, order: seq<int>): map<int, Item>
    requires forall i | 0 <= i < |order| :: order[i] in m
  {
    if order == [] then map[]
    else
      var slots := Slots(section, m, order[1..]);
      var e := m[order[0]];
      if TopFits(section, e.pid, e.item.typ) && e.pid !in slots then slots[e.pid := e.item] else slots
  }

  /** One turn of the rebuild loop. */
  method PlaceOne(section: Section, itemMap: ItemMap, sid: int, before: map<int, Item>, ghost V: set<Item>)
    returns (slots: map<int, Item>)
    requires AllIn(Snap(V), itemMap) && sid in itemMap
    modifies V
    ensures Snap(V) == if Nested(section, itemMap, sid)
      then PushFront(old(Snap(V)), itemMap[itemMap[sid].pid].item, itemMap[sid].item) else old(Snap(V))
    ensures var e := itemMap[sid];
      slots == if TopFits(section, e.pid, e.item.typ) && e.pid !in before then before[e.pid := e.item] else before
  {
    slots := before;
    var item, pid := itemMap[sid].item, itemMap[sid].pid;
    assert item in Snap(V);
    if TopPid(section, pid) {
      if section.Inventory? || item.typ.kind.Depot? {
        if pid !in slots { slots := slots[pid := item]; }
      }
    } else if pid in itemMap {
      var container := itemMap[pid].item;
      assert container in Snap(V);
      if !container.typ.kind.Plain? {
        container.items := [item] + container.items;
        item.parent := container;
      }
    }
  }

  lemma OneLess(keys: set<int>, left: set<int>, sid: int)
    requires sid in left && left <= keys
    ensures keys - left + {sid} == keys - (left - {sid})
  {
  }

  /** The rebuild loops of loadPlayer: itemMap from rbegin() to rend(). */
  method Rebuild(section: Section, itemMap: ItemMap, ghost V: set<Item>)
    returns (slots: map<int, Item>, ghost order: seq<int>)
    requires AllIn(Snap(V), itemMap)
    modifies V
    ensures Ascending(order, itemMap.Keys)
    ensures Snap(V) == Rebuilt(section, itemMap, order, old(Snap(V)))
    ensures slots == Slots(section, itemMap, order)
  {
    hide Ascending, Nested, TopFits, PushFront, Slots, Rebuilt, Walked;
    slots, order := map[], [];
    ghost var w := Snap(V);
    var left := itemMap.Keys;
    WalkedNone(section, itemMap, w);
    while left != {}
      invariant AllIn(w, itemMap) && AllIn(Snap(V), itemMap) && Walked(itemMap.Keys, left, order)
      invariant forall i | 0 <= i < |order| :: order[i] in itemMap
      invariant Snap(V) == Rebuilt(section, itemMap, order, w)
      invariant slots == Slots(section, itemMap, order)
      decreases left
    {
      HasGreatest(left);
      var sid :| sid in left && forall s | s in left :: s <= sid;
      WalkedMore(itemMap.Keys, left, order, sid);
      RebuildStep(section, itemMap, sid, order, w);
      left := left - {sid};
      slots := PlaceOne(section, itemMap, sid, slots, V);
      order := [sid] + order;
    }
    WalkedAll(itemMap.Keys, order);
  }

  /** The keys that are not left have been walked over, in falling order. */
  ghost predicate Walked(keys: set<int>, left: set<int>, order: seq<int>) {
    left <= keys && Ascending(order, keys - left) && forall s, t | s in left && t in order :: s < t
  }

  lemma WalkedNone(section: Section, m: ItemMap, w: World)
    requires AllIn(w, m)
    ensures Walked(m.Keys, m.Keys, []) && Slots(section, m, []) == map[] && Rebuilt(section, m, [], w) == w
  {
    assert m.Keys - m.Keys == {};
  }

  lemma WalkedMore(keys: set<int>, left: set<int>, order: seq<int>, sid: int)
    requires Walked(keys, left, order) && sid in left && forall s | s in left :: s <= sid
    ensures sid in keys && Walked(keys, left - {sid}, [sid] + order)
  {
    AscendingMore(order, keys - left, sid);
    OneLess(keys, left, sid);
  }

  lemma WalkedAll(keys: set<int>, order: seq<int>)
    requires Walked(keys, {}, order)
    ensures Ascending(order, keys)
  {
    assert keys - {} == keys;
  }

  lemma RebuildStep(section: Section, m: ItemMap, sid: int, order: seq<int>, w: World)
    requires AllIn(w, m) && sid in m && forall i | 0 <= i < |order| :: order[i] in m
    ensures var v, slots, e := Rebuilt(section, m, order, w), Slots(section, m, order), m[sid];
      && (forall i | 0 <= i < |[sid] + order| :: ([sid] + order)[i] in m)
      && AllIn(v, m) && (Nested(section, m, sid) ==> e.pid in m)
      && Rebuilt(section, m, [sid] + order, w) ==
         (if Nested(section, m, sid) then PushFront(v, m[e.pid].item, e.item) else v)
      && Slots(section, m, [sid] + order) ==
         if TopFits(section, e.pid, e.item.typ) && e.pid !in slots then slots[e.pid := e.item] else slots
  {
    assert ([sid] + order)[1..] == order;
  }
}
