/** What every move and insertion conserves, and the limits they respect. */
module MoveLaws {
  import opened ItemForest
  import opened ItemMoves
  import opened Cylinders
  import opened ItemStock
  import opened MoveSafety
  import opened MoveTargets

  // ---------------------------------------------------------------- conservation

  lemma MergeStock(v: World, to: Item, toItem: Item?, x: Item, m: nat, u: World, d: Item, t: ItemType)
    requires Sane(v) && IsContainer(v, to) && x in v && v[x].typ.stackable && d in v
    requires toItem != null ==> toItem in v && v[toItem].parent == to
    requires u == AfterMerge(v, toItem, x, m)
    ensures d in u && Stock(u, d, t) == Stock(v, d, t) + if d == to && t == v[x].typ then Merged(v, toItem, x, m) else 0
  {
    if toItem != null && v[toItem].typ == v[x].typ {
      StockSetCount(v, toItem, v[toItem].count + Merged(v, toItem, x, m), d, t);
    }
  }

  lemma SplitStock(u: World, to: Item, typ: ItemType, n: nat, extra: Item, s: World, done: World, d: Item, t: ItemType)
    requires Sane(u) && IsContainer(u, to) && typ.stackable && typ.kind.Plain?
    requires extra !in u && 1 <= n <= STACK_MAX && s == Create(u, extra, typ, n) && done == Attach(s, to, extra)
    requires d in u
    ensures d in done && Stock(done, d, t) == Stock(u, d, t) + if d == to && t == typ then n else 0
  {
    SplitIsSane(u, to, typ, n, extra, s, done);
    SaneCreate(u, extra, typ, n, s);
    StockCreate(u, extra, typ, n, d, t);
    StockAttach(s, to, extra, d, t);
  }

  /** A stack of m put down in `to` adds m pieces there, however it is split. */
  lemma StackStock(v: World, to: Item, index: int, toItem: Item?, x: Item, m: nat, extra: Item, done: World,
                   d: Item, t: ItemType)
    requires Sane(v) && IsContainer(v, to) && index < Capacity(v[to].typ.kind) && x in v && v[x].typ.stackable
    requires Spare(v, toItem, x, m, extra) && m <= STACK_MAX
    requires toItem != null ==> toItem in v && v[toItem].parent == to
    requires done == Stack(v, to, index, toItem, x, m, extra) && d in v
    ensures d in done && Stock(done, d, t) == Stock(v, d, t) + if d == to && t == v[x].typ then m else 0
  {
    hide Stock, Forest, Sane, Create;
    var n := Merged(v, toItem, x, m);
    var u := AfterMerge(v, toItem, x, m);
    StackParts(v, to, index, toItem, x, m, extra, n, u, done);
    MergeIsSane(v, to, toItem, x, m, u);
    MergeStock(v, to, toItem, x, m, u, d, t);
    if m > n { SplitStock(u, to, v[x].typ, m - n, extra, Create(u, extra, v[x].typ, m - n), done, d, t); }
  }

  lemma RemoveKeys(w: World, c: Item, x: Item, count: nat)
    requires c in w && x in w
    ensures RemoveThing(w, c, x, count).Keys == w.Keys
  {
  }

  lemma TakeStock(w: World, from: Item, item: Item, m: nat, v: World, d: Item, t: ItemType)
    requires Sane(w) && from in w && item in w[from].items && item in w && w[item].typ.stackable
    requires 1 <= m <= w[item].count && v == RemoveThing(w, from, item, m) && d in w
    ensures d in v && Stock(v, d, t) + (if d == from && t == w[item].typ then m else 0) == Stock(w, d, t)
  {
    hide RemoveThing, Stock, Detach, SetCount, Forest;
    RemoveKeys(w, from, item, m);
    TakeSome(w, from, item, m, v);
    if m == w[item].count {
      StockDetach(w, item, d, t);
    } else {
      StockSetCount(w, item, w[item].count - m, d, t);
    }
  }

  /** How many pieces of type t travel. */
  function Moved(w: World, item: Item, m: nat, t: ItemType): nat
    requires item in w
  {
    if t != w[item].typ then 0 else if w[item].typ.stackable then m else w[item].count
  }

  lemma TransferConserves(w: World, from: Item, item: Item, at: Destination, m: nat, extra: Item, d: Item, t: ItemType)
    requires Target(w, at, item) && from in w && item in w[from].items && Spare(w, at.item, item, m, extra) && d in w
    requires w[item].typ.stackable ==> 1 <= m <= w[item].count
    ensures var done := Transfer(w, from, item, at, m, extra);
      && d in done
      && Stock(done, d, t) + (if d == from then Moved(w, item, m, t) else 0) ==
         Stock(w, d, t) + if d == at.to then Moved(w, item, m, t) else 0
  {
    hide Stock;
    assert Listed(w, from);
    var v := RemoveThing(w, from, item, m);
    if w[item].typ.stackable {
      TargetAfterTaking(w, at, from, item, m, v);
      SameMerge(w, from, item, at, m, v);
      TakeStock(w, from, item, m, v, d, t);
      StackStock(v, at.to, at.index, at.item, item, m, extra, Transfer(w, from, item, at, m, extra), d, t);
    } else {
      NotOwnParent(w, item);
      Relink(w, item, at.to, v, Attach(v, at.to, item));
      StockDetach(w, item, d, t);
      StockAttach(v, at.to, item, d, t);
    }
  }

  /** How many pieces of type t internalMoveItem moves. */
  ghost function Travels(w: World, item: Item, p: Plan, t: ItemType): nat
    requires item in w
  {
    if p.Granted? then Moved(w, item, p.m, t) else 0
  }

  /** Whatever internalMoveItem returns: the pieces of every type that leave the source arrive at the destination,
      and no other container's stock changes. For a stack, no error means that all of `count` arrived, and an error
      that less did. */
  lemma MoveConserves(w: World, from: Item, to: Item, index: int, item: Item, count: nat, noLimit: bool, extra: Item,
                      d: Item, t: ItemType)
    requires Sane(w) && from in w && IsContainer(w, to) && item in w && d in w
    requires MoveSpare(w, from, to, index, item, count, noLimit, extra)
    ensures var p := PlanMove(w, from, to, index, item, count, noLimit);
      var (ret, done) := Move(w, from, to, index, item, count, noLimit, extra);
      && d in done
      && Stock(done, d, t) + (if d == from then Travels(w, item, p, t) else 0) ==
         Stock(w, d, t) + (if d == Receiver(w, to, index) then Travels(w, item, p, t) else 0)
      && (w[item].typ.stackable && p.Granted? ==>
           if ret == NoError then Travels(w, item, p, w[item].typ) == count
           else 0 < Travels(w, item, p, w[item].typ) < count)
  {
    hide Transfer, Stock, Spare;
    var p := PlanMove(w, from, to, index, item, count, noLimit);
    DestinationIs(w, to, index);
    PlannedMove(w, from, to, index, item, count, noLimit);
    if p.Granted? { TransferConserves(w, from, item, p.at, p.m, extra, d, t); }
  }

  /** The source and the destination together hold as much as before. */
  lemma MoveKeepsTotal(w: World, from: Item, to: Item, index: int, item: Item, count: nat, noLimit: bool, extra: Item,
                       t: ItemType)
    requires Sane(w) && from in w && IsContainer(w, to) && item in w
    requires MoveSpare(w, from, to, index, item, count, noLimit, extra)
    ensures var done := Move(w, from, to, index, item, count, noLimit, extra).1;
      var dest := Receiver(w, to, index);
      && from in done && dest in done
      && (if from == dest then Stock(done, from, t) == Stock(w, from, t)
          else Stock(done, from, t) + Stock(done, dest, t) == Stock(w, from, t) + Stock(w, dest, t))
  {
    ReceiverIn(w, to, index);
    hide Move, PlanMove, Travels, Stock, Receiver;
    MoveConserves(w, from, to, index, item, count, noLimit, extra, from, t);
    MoveConserves(w, from, to, index, item, count, noLimit, extra, Receiver(w, to, index), t);
  }

  lemma InsertStock(w: World, item: Item, at: Destination, m: nat, extra: Item, d: Item, t: ItemType)
    requires Target(w, at, item) && Loose(w, item) && InsertSpare(w, item, at, m, extra) && d in w
    requires w[item].typ.stackable ==> m == w[item].count
    ensures var done := Insert(w, item, at, m, extra);
      && d in done
      && Stock(done, d, t) == Stock(w, d, t) + if d == at.to then Moved(w, item, m, t) else 0
  {
    hide Stock, Merged;
    assert Listed(w, at.to);
    if !w[item].typ.stackable {
      StockAttach(w, at.to, item, d, t);
    } else if m > Merged(w, at.item, item, m) && m - Merged(w, at.item, item, m) == w[item].count {
      var u := AfterMerge(w, at.item, item, m);
      MergeIsSane(w, at.to, at.item, item, m, u);
      MergeStock(w, at.to, at.item, item, m, u, d, t);
      UnderSame(w, u, item, at.to);
      StockAttach(u, at.to, item, d, t);
    } else {
      StackStock(w, at.to, at.index, at.item, item, m, extra, Insert(w, item, at, m, extra), d, t);
    }
  }

  /** internalAddItem brings in the whole item or nothing, at one place. */
  lemma AddConserves(w: World, to: Item, index: int, item: Item, noLimit: bool, extra: Item, d: Item, t: ItemType)
    requires Sane(w) && IsContainer(w, to) && Loose(w, item) && AddSpare(w, to, index, item, noLimit, extra) && d in w
    ensures var (ret, done) := Add(w, to, index, item, noLimit, extra);
      && d in done
      && Stock(done, d, t) == Stock(w, d, t) +
        if ret == NoError && d == Receiver(w, to, index) && t == w[item].typ then w[item].count else 0
  {
    var p := PlanAdd(w, to, index, item, noLimit);
    DestinationIs(w, to, index);
    PlannedAdd(w, to, index, item, noLimit);
    if p.Granted? { InsertStock(w, item, p.at, p.m, extra, d, t); }
  }

  /** How many pieces a removal is asked for: -1 stands for all, and other negative numbers are read as uint32. */
  function RemovalCount(w: World, item: Item, count: int): nat
    requires item in w && count >= -0x8000_0000
  {
    if count == -1 then w[item].count else if count < 0 then count + 0x1_0000_0000 else count
  }

  /** internalRemoveItem takes exactly so many pieces out of the item's own container, and out of no other. */
  lemma RemoveConserves(w: World, item: Item, count: int, d: Item, t: ItemType)
    requires Sane(w) && item in w && count >= -0x8000_0000 && d in w
    ensures w[item].parent != null ==> w[item].parent in w
    ensures var (ret, done) := Remove(w, item, count);
      && d in done
      && Stock(done, d, t) +
         (if ret == NoError && d == w[item].parent then Moved(w, item, RemovalCount(w, item, count), t) else 0) ==
         Stock(w, d, t)
  {
    hide Stock;
    var c := w[item].parent;
    if c != null && Remove(w, item, count).0 == NoError {
      assert Listed(w, c);
      if w[item].typ.stackable {
        TakeStock(w, c, item, RemovalCount(w, item, count), Remove(w, item, count).1, d, t);
      } else {
        StockDetach(w, item, d, t);
      }
    }
  }
}
