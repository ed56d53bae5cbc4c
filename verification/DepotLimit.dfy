/** Depots: exactly when one stays within its recursive limit; those that are asked always do. */
module DepotLimit {
  import opened ItemForest
  import opened ItemMoves
  import opened Cylinders
  import opened MoveSafety
  import opened MoveTargets
  import opened SlotLimit
  import opened DepotContents
  import opened DepotGrowth

  /** Every depot that stands outermost holds no more than its limit, counted recursively. */
  ghost predicate DepotsOk(w: World) {
    forall r | r in w :: DepotOk(w, r)
  }

  ghost predicate DepotOk(w: World, r: Item)
    requires r in w
  {
    w[r].typ.kind.Depot? && w[r].parent == null ==> |Below(w, r)| <= w[r].typ.kind.limit
  }

  /** d is asked about an addition to c: the container itself is, and then the outermost one around it. */
  ghost predicate Asked(w: World, d: Item, c: Item) {
    d == c || IsTop(w, d, c)
  }

  /** A depot within its recursive limit. */
  ghost predicate Within(w: World, d: Item) {
    d in w && w[d].typ.kind.Depot? && |Below(w, d)| <= w[d].typ.kind.limit
  }

  /** The depots that were asked have agreed to the new item. */
  lemma Agreed(w: World, from: Item, to: Item, index: int, item: Item, count: nat, d: Item)
    requires Sane(w) && from in w && IsContainer(w, to) && item in w && d in w && w[d].typ.kind.Depot?
    ensures var p := PlanMove(w, from, to, index, item, count, false);
      p.Granted? && Asked(w, d, p.at.to) ==> !OverLimit(w, d, item, count)
  {
    hide OverLimit, IsTop;
  }

  /** When a whole stack was asked for but not all of it fits, the rest of what fits merges. */
  lemma ShortMoveMerges(w: World, from: Item, to: Item, index: int, item: Item, count: nat)
    requires Sane(w) && from in w && IsContainer(w, to) && item in w
    ensures var p := PlanMove(w, from, to, index, item, count, false);
      p.Granted? && w[item].typ.stackable && count == w[item].count && NeedsSlot(w, item, p.at, p.m) ==> p.m == count
  {
    PlannedMove(w, from, to, index, item, count, false);
    assert Listed(w, from);
  }

  /** r is an outermost depot in v only if it was one in w. */
  ghost predicate RootStays(w: World, v: World, r: Item) {
    r in v && v[r].typ.kind.Depot? && v[r].parent == null ==> r in w && w[r].typ == v[r].typ && w[r].parent == null
  }

  lemma StackRoots(v: World, to: Item, index: int, toItem: Item?, x: Item, m: nat, extra: Item, done: World, r: Item)
    requires to in v && x in v && v[x].typ.stackable && v[x].typ.kind.Plain? && index < Capacity(v[to].typ.kind)
    requires Spare(v, toItem, x, m, extra) && done == Stack(v, to, index, toItem, x, m, extra)
    ensures RootStays(v, done, r)
  {
    StackParts(v, to, index, toItem, x, m, extra, Merged(v, toItem, x, m), AfterMerge(v, toItem, x, m), done);
  }

  lemma ItemRootsStay(w: World, from: Item, item: Item, at: Destination, m: nat, extra: Item, r: Item)
    requires Target(w, at, item) && from in w && item in w[from].items && !w[item].typ.stackable
    ensures RootStays(w, Transfer(w, from, item, at, m, extra), r)
  {
    assert Listed(w, from);
    NotOwnParent(w, item);
  }

  /** Taking from a stack sets no depot free: a stack is none. */
  lemma TakeRoots(w: World, from: Item, item: Item, m: nat, v: World, r: Item)
    requires Sane(w) && from in w && item in w[from].items && item in w && w[item].typ.stackable
    requires 1 <= m <= w[item].count && v == RemoveThing(w, from, item, m)
    ensures RootStays(w, v, r)
  {
    TakeSome(w, from, item, m, v);
  }

  lemma StackRootsStay(w: World, from: Item, item: Item, at: Destination, m: nat, extra: Item, r: Item, v: World)
    requires Target(w, at, item) && from in w && item in w[from].items && Spare(w, at.item, item, m, extra)
    requires w[item].typ.stackable && 1 <= m <= w[item].count && v == RemoveThing(w, from, item, m)
    ensures RootStays(w, Transfer(w, from, item, at, m, extra), r)
  {
    hide Merged, Stack, RemoveThing, Transfer, Forest;
    TakeRoots(w, from, item, m, v, r);
    RemoveTypes(w, from, item, m, v);
    TargetAfterTaking(w, at, from, item, m, v);
    SameMerge(w, from, item, at, m, v);
    TransferIsStack(w, from, item, at, m, extra);
    StackRoots(v, at.to, at.index, at.item, item, m, extra, Transfer(w, from, item, at, m, extra), r);
  }

  lemma RootsStay(w: World, from: Item, item: Item, at: Destination, m: nat, extra: Item, r: Item)
    requires Target(w, at, item) && from in w && item in w[from].items && Spare(w, at.item, item, m, extra)
    requires w[item].typ.stackable ==> 1 <= m <= w[item].count
    ensures RootStays(w, Transfer(w, from, item, at, m, extra), r)
  {
    hide Merged, AfterMerge, Stack, RemoveThing, RootStays, Transfer;
    if w[item].typ.stackable {
      StackRootsStay(w, from, item, at, m, extra, r, RemoveThing(w, from, item, m));
    } else {
      ItemRootsStay(w, from, item, at, m, extra, r);
    }
  }

  /** Depot limits and internalMoveItem: a depot stays within its limit exactly if the item is not granted, or does not
      go inside the depot, or there is room for what the depot then holds more. */
  lemma MoveInDepot(w: World, from: Item, to: Item, index: int, item: Item, count: nat, noLimit: bool, extra: Item,
                    d: Item)
    requires Sane(w) && from in w && IsContainer(w, to) && item in w && Within(w, d)
    requires MoveSpare(w, from, to, index, item, count, noLimit, extra)
    ensures var p := PlanMove(w, from, to, index, item, count, noLimit);
      |Below(Move(w, from, to, index, item, count, noLimit, extra).1, d)| <= w[d].typ.kind.limit <==>
        (p.Granted? && InSub(w, d, p.at.to) ==> |Below(w, d)| + Grows(w, d, item, p.at, p.m) <= w[d].typ.kind.limit)
  {
    hide Transfer, Spare, Merged, Grows, InSub;
    var p := PlanMove(w, from, to, index, item, count, noLimit);
    PlannedMove(w, from, to, index, item, count, noLimit);
    if p.Granted? { TransferGrown(w, from, item, p.at, p.m, extra, d); }
  }

  /** A depot that has agreed to the item has room for it. */
  lemma AgreedHasRoom(w: World, item: Item, at: Destination, m: nat, count: nat, d: Item)
    requires Sane(w) && item in w && Within(w, d) && d != item && !OverLimit(w, d, item, count)
    requires w[item].typ.stackable && count == w[item].count && NeedsSlot(w, item, at, m) ==> m == count
    ensures |Below(w, d)| + Grows(w, d, item, at, m) <= w[d].typ.kind.limit
  {
    if w[item].typ.stackable { PlainHoldsNothing(w, item); }
  }

  /** So without FLAG_NOLIMIT every depot that is asked stays within its limit, and every one that the item does not go
      into. */
  lemma MoveKeepsDepot(w: World, from: Item, to: Item, index: int, item: Item, count: nat, extra: Item, d: Item)
    requires Sane(w) && from in w && IsContainer(w, to) && item in w && Within(w, d)
    requires MoveSpare(w, from, to, index, item, count, false, extra)
    requires var c := Receiver(w, to, index); InSub(w, d, c) ==> Asked(w, d, c)
    ensures |Below(Move(w, from, to, index, item, count, false, extra).1, d)| <= w[d].typ.kind.limit
  {
    MoveInDepot(w, from, to, index, item, count, false, extra, d);
    hide Move, OverLimit, Spare, MoveSpare, Merged, NeedsSlot, IsTop, Asked, Grows;
    var p := PlanMove(w, from, to, index, item, count, false);
    DestinationIs(w, to, index);
    if p.Granted? && InSub(w, d, p.at.to) {
      PlannedMove(w, from, to, index, item, count, false);
      Agreed(w, from, to, index, item, count, d);
      ShortMoveMerges(w, from, to, index, item, count);
      AgreedHasRoom(w, item, p.at, p.m, count, d);
    }
  }

  /** So it keeps every outermost depot within its limit. */
  lemma MoveKeepsDepots(w: World, from: Item, to: Item, index: int, item: Item, count: nat, extra: Item)
    requires Sane(w) && from in w && IsContainer(w, to) && item in w && DepotsOk(w)
    requires MoveSpare(w, from, to, index, item, count, false, extra)
    ensures DepotsOk(Move(w, from, to, index, item, count, false, extra).1)
  {
    var p := PlanMove(w, from, to, index, item, count, false);
    PlannedMove(w, from, to, index, item, count, false);
    if p.Granted? {
      var done := Transfer(w, from, item, p.at, p.m, extra);
      forall r | r in done ensures DepotOk(done, r) {
        if done[r].typ.kind.Depot? && done[r].parent == null {
          RootsStay(w, from, item, p.at, p.m, extra, r);
          assert DepotOk(w, r);
          MoveKeepsDepot(w, from, to, index, item, count, extra, r);
        }
      }
    }
  }

  lemma InsertRoots(w: World, item: Item, at: Destination, m: nat, extra: Item, r: Item)
    requires Target(w, at, item) && Loose(w, item) && InsertSpare(w, item, at, m, extra)
    ensures var done := Insert(w, item, at, m, extra);
      r in done && done[r].typ.kind.Depot? && done[r].parent == null ==>
        r in w && r != item && w[r].typ == done[r].typ && w[r].parent == null
  {
  }

  /** Depot limits and internalAddItem, also for whole containers brought in from outside. */
  lemma AddInDepot(w: World, to: Item, index: int, item: Item, noLimit: bool, extra: Item, d: Item)
    requires Sane(w) && IsContainer(w, to) && Loose(w, item) && AddSpare(w, to, index, item, noLimit, extra)
    requires Within(w, d)
    ensures var p := PlanAdd(w, to, index, item, noLimit);
      |Below(Add(w, to, index, item, noLimit, extra).1, d)| <= w[d].typ.kind.limit <==>
        (p.Granted? && InSub(w, d, p.at.to) ==> |Below(w, d)| + Grows(w, d, item, p.at, p.m) <= w[d].typ.kind.limit)
  {
    hide Insert, InsertSpare, Merged, Grows, InSub;
    var p := PlanAdd(w, to, index, item, noLimit);
    PlannedAdd(w, to, index, item, noLimit);
    if p.Granted? { InsertGrown(w, item, p.at, p.m, extra, d); }
  }

  lemma AddKeepsDepot(w: World, to: Item, index: int, item: Item, extra: Item, d: Item)
    requires Sane(w) && IsContainer(w, to) && Loose(w, item) && AddSpare(w, to, index, item, false, extra)
    requires Within(w, d) && var c := Receiver(w, to, index); InSub(w, d, c) ==> Asked(w, d, c)
    ensures |Below(Add(w, to, index, item, false, extra).1, d)| <= w[d].typ.kind.limit
  {
    AddInDepot(w, to, index, item, false, extra, d);
    hide Add, AddSpare, OverLimit, Merged, Grows;
    var p := PlanAdd(w, to, index, item, false);
    DestinationIs(w, to, index);
    PlannedAdd(w, to, index, item, false);
    if p.Granted? && InSub(w, d, p.at.to) { AgreedHasRoom(w, item, p.at, p.m, w[item].count, d); }
  }

  lemma AddKeepsDepots(w: World, to: Item, index: int, item: Item, extra: Item)
    requires Sane(w) && IsContainer(w, to) && Loose(w, item) && AddSpare(w, to, index, item, false, extra)
    requires DepotsOk(w)
    ensures DepotsOk(Add(w, to, index, item, false, extra).1)
  {
    var p := PlanAdd(w, to, index, item, false);
    PlannedAdd(w, to, index, item, false);
    if p.Granted? {
      var done := Insert(w, item, p.at, p.m, extra);
      forall r | r in done ensures DepotOk(done, r) {
        if done[r].typ.kind.Depot? && done[r].parent == null {
          InsertRoots(w, item, p.at, p.m, extra, r);
          assert DepotOk(w, r);
          AddKeepsDepot(w, to, index, item, extra, r);
        }
      }
    }
  }

  /** internalRemoveItem never adds to a depot and never sets one free. */
  lemma RemoveKeepsDepots(w: World, item: Item, count: int)
    requires Sane(w) && item in w && count >= -0x8000_0000 && DepotsOk(w)
    requires w[item].parent != null ==> w[item].parent in w
    ensures DepotsOk(Remove(w, item, count).1)
  {
    var (ret, done) := Remove(w, item, count);
    if ret == NoError {
      var c := w[item].parent;
      assert Listed(w, c);
      var n := if count == -1 then w[item].count else if count < 0 then count + 0x1_0000_0000 else count;
      forall r | r in done ensures DepotOk(done, r) {
        assert DepotOk(w, r);
        if done[r].typ.kind.Depot? && done[r].parent == null {
          if w[item].typ.stackable && n != w[item].count {
            BelowSame(w, done, r);
          } else {
            RootNotBelow(w, r, item);
            DetachBelow(w, item, r);
            SubsetSize(Below(done, r), Below(w, r));
          }
        }
      }
    }
  }
}
