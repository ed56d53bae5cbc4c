/** IOLoginData::saveItems: a forest of items numbered breadth first into (pid, sid) rows. */
module ItemRows {
  import opened ItemForest
  import opened ContainerOps

  datatype Row = Row(pid: int, sid: int, typ: ItemType, count: nat, attributes: seq<nat>)
  /** itemBlock: an item in a slot, or a depot under its town. */
  datatype Top = Top(pid: int, item: Item)
  /** containerBlock: a container whose contents have no rows yet, and its own sid. */
  datatype Block = Block(container: Item, id: int)

  const FIRST_ID := 101

  ghost predicate RootList(w: World, tops: seq<Top>) {
    && (forall t | t in tops :: t.item in w && w[t.item].parent == null)
    && (forall i, j | 0 <= i < j < |tops| :: tops[i].item != tops[j].item && tops[i].pid != tops[j].pid)
  }

  /** The items in the order they get their ids; what the first k of them hold begins at starts[..k]. */
  ghost predicate Numbered(w: World, tops: seq<Top>, order: seq<Item>, starts: seq<nat>, k: nat) {
    && |starts| == k + 1 && k <= |order| && starts[0] == |tops| && starts[k] == |order|
    && |tops| <= |order| && (forall i | 0 <= i < |tops| :: order[i] == tops[i].item)
    && (forall x | x in order :: x in w)
    && (forall j | 0 <= j < k :: ListsAt(w, order, starts, j))
  }

  /** What the j-th item holds comes later, in its order. */
  ghost predicate ListsAt(w: World, order: seq<Item>, starts: seq<nat>, j: nat)
    requires j + 1 < |starts| && j < |order|
  {
    j < starts[j] <= starts[j + 1] <= |order| && order[j] in w && order[starts[j]..starts[j + 1]] == w[order[j]].items
  }

  /** The rows written so far: own ids in order, and the id of the slot or of the holder. */
  ghost predicate Recorded(w: World, tops: seq<Top>, order: seq<Item>, starts: seq<nat>, k: nat, rows: seq<Row>) {
    && |rows| == |order| && |tops| <= |rows| && |starts| == k + 1
    && (forall i | 0 <= i < |rows| :: RowOf(w, order[i], rows[i], i))
    && (forall i | 0 <= i < |tops| :: rows[i].pid == tops[i].pid)
    && (forall j | 0 <= j < k :: HeldBy(rows, starts[j], starts[j + 1], FIRST_ID + j))
  }

  ghost predicate RowOf(w: World, x: Item, row: Row, i: nat) {
    && x in w && row.typ == w[x].typ && row.count == w[x].count && row.attributes == x.attributes
    && row.sid == FIRST_ID + i
  }

  ghost predicate HeldBy(rows: seq<Row>, lo: nat, hi: nat, id: int) {
    forall i | lo <= i < hi && i < |rows| :: rows[i].pid == id
  }

  lemma {:induction false} Owner(w: World, tops: seq<Top>, order: seq<Item>, starts: seq<nat>, k: nat, m: nat, i: nat)
    returns (j: nat)
    requires Numbered(w, tops, order, starts, k) && m <= k && |tops| <= i < starts[m]
    ensures j < m && starts[j] <= i < starts[j + 1]
    decreases m
  {
    assert ListsAt(w, order, starts, m - 1);
    if i >= starts[m - 1] {
      j := m - 1;
    } else {
      j := Owner(w, tops, order, starts, k, m - 1, i);
    }
  }

  /** A listed item's parent is the item that holds it, which was numbered before. */
  lemma Holder(w: World, tops: seq<Top>, order: seq<Item>, starts: seq<nat>, k: nat, i: nat) returns (j: nat)
    requires Wired(w) && Numbered(w, tops, order, starts, k) && |tops| <= i < |order|
    ensures j < k && j < i && starts[j] <= i < starts[j + 1]
    ensures order[j] in w && order[i] in w && w[order[i]].parent == order[j]
  {
    j := Owner(w, tops, order, starts, k, k, i);
    assert ListsAt(w, order, starts, j) && Listed(w, order[j]);
    assert order[i] == order[starts[j]..starts[j + 1]][i - starts[j]] == w[order[j]].items[i - starts[j]];
  }

  lemma TopIsNotHeld(w: World, tops: seq<Top>, order: seq<Item>, starts: seq<nat>, k: nat, a: nat, b: nat)
    requires Wired(w) && RootList(w, tops) && Numbered(w, tops, order, starts, k) && a < |tops| <= b < |order|
    ensures order[a] != order[b]
  {
    hide ListsAt, Wired;
    var q := Holder(w, tops, order, starts, k, b);
    assert tops[a] in tops;
  }

  /** What one item holds is listed without repetition. */
  lemma HeldOnce(w: World, order: seq<Item>, starts: seq<nat>, p: nat, a: nat, b: nat)
    requires Wired(w) && p + 1 < |starts| && p < |order| && ListsAt(w, order, starts, p)
    requires starts[p] <= a < b < starts[p + 1]
    ensures b < |order| && order[a] != order[b]
  {
    var held := w[order[p]].items;
    assert Listed(w, order[p]) && held == order[starts[p]..starts[p + 1]];
    assert held[a - starts[p]] == order[a] && held[b - starts[p]] == order[b];
  }

  /** No item is numbered twice. */
  lemma {:induction false} NumberedOnce(w: World, tops: seq<Top>, order: seq<Item>, starts: seq<nat>, k: nat,
                                        a: nat, b: nat)
    requires Wired(w) && RootList(w, tops) && Numbered(w, tops, order, starts, k) && a < b < |order|
    ensures order[a] != order[b]
    decreases b
  {
    hide RootList, Wired, ListsAt;
    if b < |tops| {
      TopsApart(w, tops, a, b);
    } else if a < |tops| {
      TopIsNotHeld(w, tops, order, starts, k, a, b);
    } else {
      var p := Holder(w, tops, order, starts, k, a);
      var q := Holder(w, tops, order, starts, k, b);
      if p < q {
        NumberedOnce(w, tops, order, starts, k, p, q);
      } else if q < p {
        NumberedOnce(w, tops, order, starts, k, q, p);
      } else {
        HeldOnce(w, order, starts, p, a, b);
      }
    }
  }

  lemma TopsApart(w: World, tops: seq<Top>, a: nat, b: nat)
    requires RootList(w, tops) && a < b < |tops|
    ensures tops[a].item != tops[b].item
  {
  }

  lemma {:induction false} NoMoreThan(order: seq<Item>, s: set<Item>)
    requires (forall x | x in order :: x in s) && forall a, b | 0 <= a < b < |order| :: order[a] != order[b]
    ensures |order| <= |s|
    decreases |order|
  {
    if order != [] {
      var n := |order| - 1;
      forall x | x in order[..n] ensures x in s - {order[n]} {
        var i :| 0 <= i < n && order[i] == x;
      }
      NoMoreThan(order[..n], s - {order[n]});
    }
  }

  lemma OrderFits(w: World, tops: seq<Top>, order: seq<Item>, starts: seq<nat>, k: nat)
    requires Wired(w) && RootList(w, tops) && Numbered(w, tops, order, starts, k)
    ensures |order| <= |w.Keys|
  {
    forall a, b | 0 <= a < b < |order| ensures order[a] != order[b] { NumberedOnce(w, tops, order, starts, k, a, b); }
    NoMoreThan(order, w.Keys);
  }

  /** Ids are distinct and above 100; a row inside a container names that container, whose own id is smaller. */
  lemma RowIds(w: World, tops: seq<Top>, order: seq<Item>, starts: seq<nat>, rows: seq<Row>, i: nat)
    requires Wired(w) && Numbered(w, tops, order, starts, |order|) && Recorded(w, tops, order, starts, |order|, rows)
    requires i < |rows|
    ensures rows[i].sid > 100 && forall j | 0 <= j < i :: rows[j].sid != rows[i].sid
    ensures i < |tops| ==> rows[i].pid == tops[i].pid
    ensures |tops| <= i ==>
      && rows[i].pid < rows[i].sid
      && exists p | 0 <= p < i :: rows[p].sid == rows[i].pid && w[order[i]].parent == order[p]
  {
    assert forall j | 0 <= j <= i :: RowOf(w, order[j], rows[j], j);
    if |tops| <= i {
      var p := Holder(w, tops, order, starts, |order|, i);
      assert HeldBy(rows, starts[p], starts[p + 1], FIRST_ID + p);
      assert RowOf(w, order[p], rows[p], p);
    }
  }

  /** Everything anywhere below the list is numbered, and nothing else. */
  lemma AllNumbered(w: World, tops: seq<Top>, order: seq<Item>, starts: seq<nat>, x: Item)
    requires Forest(w) && Numbered(w, tops, order, starts, |order|) && x in w
    ensures x in order <==> exists i :: 0 <= i < |tops| && InSub(w, tops[i].item, x)
  {
    if x in order {
      var k :| 0 <= k < |order| && order[k] == x;
      FoundBelow(w, tops, order, starts, k);
    } else if i :| 0 <= i < |tops| && InSub(w, tops[i].item, x) {
      assert order[i] == tops[i].item;
      if x != tops[i].item {
        var n: nat :| n > 0 && Up(w, x, n) == tops[i].item;
        HeldIsNumbered(w, tops, order, starts, x, tops[i].item, n);
      }
    }
  }

  lemma {:induction false} FoundBelow(w: World, tops: seq<Top>, order: seq<Item>, starts: seq<nat>, k: nat)
    requires Wired(w) && Numbered(w, tops, order, starts, |order|) && k < |order|
    ensures exists i :: 0 <= i < |tops| && InSub(w, tops[i].item, order[k])
    decreases k
  {
    if k < |tops| {
      assert InSub(w, tops[k].item, order[k]);
    } else {
      var j := Holder(w, tops, order, starts, |order|, k);
      FoundBelow(w, tops, order, starts, j);
      var i :| 0 <= i < |tops| && InSub(w, tops[i].item, order[j]);
      UnderStep(w, tops[i].item, order[k]);
      assert InSub(w, tops[i].item, order[k]);
    }
  }

  lemma {:induction false} HeldIsNumbered(w: World, tops: seq<Top>, order: seq<Item>, starts: seq<nat>,
                                          x: Item, a: Item, n: nat)
    requires Wired(w) && Numbered(w, tops, order, starts, |order|) && x in w && a in order && Up(w, x, n) == a
    ensures x in order
    decreases n
  {
    if n > 0 {
      var p := w[x].parent;
      assert Up(w, p, n - 1) == a;
      HeldIsNumbered(w, tops, order, starts, p, a, n - 1);
      var j :| 0 <= j < |order| && order[j] == p;
      assert ListsAt(w, order, starts, j) && x in order[starts[j]..starts[j + 1]];
    }
  }

  // ---------------------------------------------------------------- the queue of containers

  /** The containers of the order from k on. */
  function Pending(order: seq<Item>, k: nat): seq<Block>
    decreases |order| - k
  {
    if k >= |order| then []
    else (if order[k].typ.kind.Plain? then [] else [Block(order[k], FIRST_ID + k)]) + Pending(order, k + 1)
  }

  lemma {:induction false} PendingMore(order: seq<Item>, k: nat, x: Item)
    requires k <= |order|
    ensures Pending(order + [x], k)
         == Pending(order, k) + if x.typ.kind.Plain? then [] else [Block(x, FIRST_ID + |order|)]
    decreases |order| - k
  {
    if k < |order| {
      PendingMore(order, k + 1, x);
    } else {
      assert Pending(order + [x], k + 1) == [];
    }
  }

  /** One more item of the order has been dealt with: what it holds has been added to the order and has its rows. */
  lemma ListedOne(w: World, tops: seq<Top>, order: seq<Item>, starts: seq<nat>, k: nat, rows: seq<Row>,
                  held: seq<Item>, more: seq<Row>)
    requires Wired(w) && Numbered(w, tops, order, starts, k) && Recorded(w, tops, order, starts, k, rows)
    requires k < |order| && order[k] in w && held == w[order[k]].items && RowsOf(w, held, more, |order|, FIRST_ID + k)
    ensures Numbered(w, tops, order + held, starts + [|order + held|], k + 1)
    ensures Recorded(w, tops, order + held, starts + [|order + held|], k + 1, rows + more)
  {
    ListedNext(w, tops, order, starts, k, held);
    RecordedNext(w, tops, order, starts, k, rows, held, more);
  }

  lemma ListedNext(w: World, tops: seq<Top>, order: seq<Item>, starts: seq<nat>, k: nat, held: seq<Item>)
    requires Wired(w) && Numbered(w, tops, order, starts, k)
    requires k < |order| && order[k] in w && held == w[order[k]].items
    ensures Numbered(w, tops, order + held, starts + [|order + held|], k + 1)
  {
    var order', starts' := order + held, starts + [|order + held|];
    assert Listed(w, order[k]);
    forall j | 0 <= j < k + 1 ensures ListsAt(w, order', starts', j) {
      if j < k {
        assert ListsAt(w, order, starts, j);
        assert order'[starts'[j]..starts'[j + 1]] == order[starts[j]..starts[j + 1]];
      } else {
        assert order'[starts'[j]..starts'[j + 1]] == held;
      }
    }
  }

  lemma RecordedNext(w: World, tops: seq<Top>, order: seq<Item>, starts: seq<nat>, k: nat, rows: seq<Row>,
                     held: seq<Item>, more: seq<Row>)
    requires Numbered(w, tops, order, starts, k) && Recorded(w, tops, order, starts, k, rows)
    requires k < |order| && RowsOf(w, held, more, |order|, FIRST_ID + k)
    ensures Recorded(w, tops, order + held, starts + [|order + held|], k + 1, rows + more)
  {
    hide RowOf;
    var order', starts', rows' := order + held, starts + [|order + held|], rows + more;
    forall j | 0 <= j < k + 1 ensures HeldBy(rows', starts'[j], starts'[j + 1], FIRST_ID + j) {
      if j < k {
        assert ListsAt(w, order, starts, j) && HeldBy(rows, starts[j], starts[j + 1], FIRST_ID + j);
      }
    }
    forall i | 0 <= i < |rows'| ensures RowOf(w, order'[i], rows'[i], i) {
      if i < |rows| {
        assert RowOf(w, order[i], rows[i], i);
      } else {
        assert RowOf(w, held[i - |rows|], more[i - |rows|], i);
      }
    }
  }

  /** The rows of the items one container holds. */
  ghost predicate RowsOf(w: World, held: seq<Item>, more: seq<Row>, from: nat, id: int) {
    |more| == |held| && forall i | 0 <= i < |more| :: RowOf(w, held[i], more[i], from + i) && more[i].pid == id
  }

  /** Items that hold nothing are passed over, up to the next container or the end. */
  lemma {:induction false} PassOver(w: World, tops: seq<Top>, order: seq<Item>, starts: seq<nat>, k: nat,
                                    rows: seq<Row>)
    returns (starts': seq<nat>, k': nat)
    requires Wired(w) && Numbered(w, tops, order, starts, k) && Recorded(w, tops, order, starts, k, rows)
    requires forall x | x in w :: w[x].typ == x.typ
    ensures Numbered(w, tops, order, starts', k') && Recorded(w, tops, order, starts', k', rows)
    ensures Pending(order, k') == Pending(order, k)
    ensures Pending(order, k) == [] ==> k' == |order|
    ensures Pending(order, k) != [] ==> NextBlock(order, Pending(order, k), k')
    decreases |order| - k
  {
    starts', k' := starts, k;
    if k < |order| && order[k].typ.kind.Plain? {
      assert order[k] in w && Listed(w, order[k]);
      ListedOne(w, tops, order, starts, k, rows, [], []);
      assert order + [] == order && rows + [] == rows;
      starts', k' := PassOver(w, tops, order, starts + [|order|], k + 1, rows);
    }
  }

  ghost predicate NextBlock(order: seq<Item>, stack: seq<Block>, k: nat) {
    && k < |order| && stack != [] && stack[0] == Block(order[k], FIRST_ID + k) && stack[1..] == Pending(order, k + 1)
  }

  /** The inner loop of saveItems: a row for everything in one container. */
  method SaveContents(container: Item, parentId: int, queue: seq<Block>, lastId: int, ghost order: seq<Item>,
                      ghost k: nat, ghost W: set<Item>)
    returns (stack: seq<Block>, runningId: int, more: seq<Row>)
    requires Wired(Snap(W)) && container in W && k < |order| && parentId == FIRST_ID + k
    requires queue == Pending(order, k + 1) && lastId == FIRST_ID - 1 + |order|
    ensures RowsOf(Snap(W), container.items, more, |order|, parentId)
    ensures stack == Pending(order + container.items, k + 1) && runningId == lastId + |container.items|
    ensures container.items == [] ==> stack == queue
  {
    hide Wired, RowOf;
    ghost var w, held := Snap(W), container.items;
    stack, runningId, more := queue, lastId, [];
    assert order + held[..0] == order;
    for n := 0 to |container.items|
      invariant runningId == lastId + n && RowsOf(w, held[..n], more, |order|, parentId)
      invariant stack == Pending(order + held[..n], k + 1) && (n == 0 ==> stack == queue)
    {
      runningId := runningId + 1;
      var item := container.items[n];
      PendingMore(order + held[..n], k + 1, item);
      if !item.typ.kind.Plain? { stack := stack + [Block(item, runningId)]; }
      var row := Row(parentId, runningId, item.typ, item.count, item.attributes);
      HeldIn(w, container, held, n, row, |order| + n);
      more := more + [row];
      assert held[..n] + [item] == held[..n + 1];
      assert order + held[..n] + [item] == order + held[..n + 1];
    }
    assert held[..|held|] == held;
  }

  /** A row for each item of the list, then the rows of what is inside, each with its own id and a smaller pid. */
  predicate WellNumbered(tops: seq<Top>, rows: seq<Row>) {
    && |tops| <= |rows| && (forall i | 0 <= i < |rows| :: rows[i].sid == FIRST_ID + i)
    && (forall i | 0 <= i < |tops| :: rows[i].pid == tops[i].pid && rows[i].typ == tops[i].item.typ)
    && (forall i | |tops| <= i < |rows| :: FIRST_ID <= rows[i].pid < rows[i].sid)
  }

  lemma RowsWellNumbered(w: World, tops: seq<Top>, order: seq<Item>, starts: seq<nat>, rows: seq<Row>)
    requires Wired(w) && Numbered(w, tops, order, starts, |order|) && Recorded(w, tops, order, starts, |order|, rows)
    requires forall x | x in w :: w[x].typ == x.typ
    ensures WellNumbered(tops, rows)
  {
    forall i | 0 <= i < |rows|
      ensures rows[i].sid == FIRST_ID + i && (i < |tops| ==> rows[i].typ == tops[i].item.typ)
      ensures |tops| <= i ==> FIRST_ID <= rows[i].pid < rows[i].sid
    {
      assert RowOf(w, order[i], rows[i], i);
      if |tops| <= i {
        var p := Holder(w, tops, order, starts, |order|, i);
        assert HeldBy(rows, starts[p], starts[p + 1], FIRST_ID + p);
      }
    }
  }

  /** The first loop of saveItems: a row for everything in the list. */
  method SaveTops(tops: seq<Top>, ghost W: set<Item>)
    returns (stack: seq<Block>, runningId: int, rows: seq<Row>, ghost order: seq<Item>)
    requires RootList(Snap(W), tops)
    ensures stack == Pending(order, 0) && runningId == FIRST_ID - 1 + |order|
    ensures TopRows(Snap(W), tops, order, rows, |tops|)
  {
    hide RootList;
    ghost var w := Snap(W);
    stack, runningId := [], FIRST_ID - 1;
    rows, order := [], [];
    for n := 0 to |tops|
      invariant |rows| == |order| == n && runningId == FIRST_ID - 1 + n && stack == Pending(order, 0)
      invariant TopRows(w, tops, order, rows, n)
    {
      var item := tops[n].item;
      TopIn(w, tops, n);
      PendingMore(order, 0, item);
      runningId := runningId + 1;
      if !item.typ.kind.Plain? { stack := stack + [Block(item, runningId)]; }
      var row := Row(tops[n].pid, runningId, item.typ, item.count, item.attributes);
      TopRowsMore(w, tops, order, rows, n, row);
      rows := rows + [row];
      order := order + [item];
    }
  }

  /** IOLoginData::saveItems */
  method SaveItems(tops: seq<Top>, ghost W: set<Item>)
    returns (rows: seq<Row>, ghost order: seq<Item>, ghost starts: seq<nat>)
    requires Wired(Snap(W)) && RootList(Snap(W), tops)
    ensures Numbered(Snap(W), tops, order, starts, |order|)
    ensures Recorded(Snap(W), tops, order, starts, |order|, rows) && WellNumbered(tops, rows)
  {
    hide Wired, RootList, Numbered, Recorded, RowOf, RowsOf, Pending;
    ghost var w := Snap(W);
    var stack, runningId;
    stack, runningId, rows, order := SaveTops(tops, W);
    starts := [|tops|];
    ghost var k := 0;
    TopsDone(w, tops, order, rows);
    OrderFits(w, tops, order, starts, k);
    while stack != []
      invariant Numbered(w, tops, order, starts, k) && Recorded(w, tops, order, starts, k, rows)
      invariant stack == Pending(order, k) && runningId == FIRST_ID - 1 + |order| && |order| <= |w.Keys|
      decreases |w.Keys| - |order|, |stack|
    {
      starts, k := PassOver(w, tops, order, starts, k, rows);
      var container, parentId := stack[0].container, stack[0].id;
      stack := stack[1..];
      InOrder(w, tops, order, starts, k, rows);
      ghost var held := container.items;
      var more: seq<Row>;
      stack, runningId, more := SaveContents(container, parentId, stack, runningId, order, k, W);
      ListedOne(w, tops, order, starts, k, rows, held, more);
      order, rows := order + held, rows + more;
      starts, k := starts + [|order|], k + 1;
      OrderFits(w, tops, order, starts, k);
    }
    starts, k := PassOver(w, tops, order, starts, k, rows);
    RowsWellNumbered(w, tops, order, starts, rows);
  }

  ghost predicate TopRows(w: World, tops: seq<Top>, order: seq<Item>, rows: seq<Row>, n: nat) {
    && |rows| == |order| == n <= |tops|
    && forall i | 0 <= i < n :: order[i] == tops[i].item && RowOf(w, order[i], rows[i], i) && rows[i].pid == tops[i].pid
  }

  lemma TopIn(w: World, tops: seq<Top>, n: nat)
    requires RootList(w, tops) && n < |tops|
    ensures tops[n].item in w
  {
    assert tops[n] in tops;
  }

  lemma TopRowsMore(w: World, tops: seq<Top>, order: seq<Item>, rows: seq<Row>, n: nat, row: Row)
    requires TopRows(w, tops, order, rows, n) && n < |tops|
    requires RowOf(w, tops[n].item, row, n) && row.pid == tops[n].pid
    ensures TopRows(w, tops, order + [tops[n].item], rows + [row], n + 1)
  {
  }

  lemma TopsDone(w: World, tops: seq<Top>, order: seq<Item>, rows: seq<Row>)
    requires TopRows(w, tops, order, rows, |tops|)
    ensures Numbered(w, tops, order, [|tops|], 0) && Recorded(w, tops, order, [|tops|], 0, rows)
  {
    forall x | x in order ensures x in w {
      var i :| 0 <= i < |order| && order[i] == x;
      assert RowOf(w, order[i], rows[i], i);
    }
  }

  lemma InOrder(w: World, tops: seq<Top>, order: seq<Item>, starts: seq<nat>, k: nat, rows: seq<Row>)
    requires Numbered(w, tops, order, starts, k) && Recorded(w, tops, order, starts, k, rows) && k < |order|
    ensures order[k] in w && |rows| == |order|
  {
  }

  lemma HeldIn(w: World, c: Item, held: seq<Item>, n: nat, row: Row, i: nat)
    requires Wired(w) && c in w && held == w[c].items && n < |held|
    requires held[n] in w ==> row.typ == w[held[n]].typ && row.count == w[held[n]].count
    requires row.attributes == held[n].attributes && row.sid == FIRST_ID + i
    ensures held[n] in w && RowOf(w, held[n], row, i)
  {
    assert Listed(w, c);
  }
}
