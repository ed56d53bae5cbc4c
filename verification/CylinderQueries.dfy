/** The queries of Container and Depot on the objects themselves. */
module CylinderQueries {
  import opened ItemForest
  import opened Cylinders
  import opened ContainerOps
  import opened DepotContents

  lemma TopUnique(w: World, t: Item, u: Item, x: Item, n: nat)
    requires IsTop(w, t, x) && IsTop(w, u, x) && Wired(w) && x in w && Up(w, x, n) == null
    ensures t == u
    decreases n
  {
    UnderStep(w, t, x);
    UnderStep(w, u, x);
    var p := w[x].parent;
    if p == null {
      assert t == x && u == x;
    } else {
      TopUnique(w, t, u, p, n - 1);
    }
  }

  lemma TopIs(w: World, top: Item, t: Item, x: Item)
    requires Forest(w) && x in w && IsTop(w, top, x)
    ensures IsTop(w, t, x) <==> t == top
  {
    if IsTop(w, t, x) {
      var n: nat :| EndsWithin(w, n);
      TopUnique(w, t, top, x, n);
    }
  }

  method DestinationOf(c: Item, index: int, ghost W: set<Item>) returns (at: Destination)
    requires c in W && Wired(Snap(W))
    ensures at == QueryDestination(Snap(W), c, index)
  {
    ghost var w := Snap(W);
    assert Listed(w, c);
    if index == MOVE_UP {
      var up := if c.parent != null && !c.parent.typ.kind.Plain? then c.parent else c;
      at := Destination(up, WHEREEVER, null);
    } else if index == ADD_WHEREVER {
      at := Destination(c, WHEREEVER, null);
    } else {
      var slot := if index >= Capacity(c.typ.kind) then WHEREEVER else index;
      at := Destination(c, slot, null);
      if slot != WHEREEVER && 0 <= slot < |c.items| {
        var thing := c.items[slot];
        at := if thing.typ.kind.Plain? then Destination(c, slot, thing) else Destination(thing, WHEREEVER, null);
      }
    }
  }

  /** The recursive limit of Depot::__queryAdd. */
  method DepotIsOver(d: Item, item: Item, count: nat, noLimit: bool, ghost W: set<Item>) returns (full: bool)
    requires d in W && item in W && Forest(Snap(W))
    ensures full <==> DepotRefuses(Snap(W), d, item, count, noLimit)
  {
    full := false;
    if !noLimit && d.typ.kind.Depot? {
      ghost var w := Snap(W);
      var addCount := if item.typ.stackable && item.count != count then 1 else 0;
      var top := TopParent(item, W);
      TopIs(w, top, d, item);
      if top != d {
        addCount := 1;
        if item.typ.kind.Plain? {
          PlainHoldsNothing(w, item);
        } else {
          var inside := ItemHoldingCount(item, W);
          addCount := inside + 1;
        }
      }
      var held := ItemHoldingCount(d, W);
      full := held + addCount > d.typ.kind.limit;
    }
  }

  method AddQuery(c: Item, index: int, item: Item, count: nat, noLimit: bool, ghost W: set<Item>) returns (ret: Ret)
    requires c in W && item in W && Forest(Snap(W))
    ensures ret == QueryAdd(Snap(W), c, index, item, count, noLimit)
  {
    hide Forest, DepotRefuses, IsTop;
    ghost var w := Snap(W);
    var full := DepotIsOver(c, item, count, noLimit, W);
    if full { return DepotIsFull; }
    if !item.typ.pickupable { return CannotPickup; }
    var inside := IsInside(c, item, W);
    if inside { return ThisIsImpossible; }
    if index == WHEREEVER && !noLimit && |c.items| >= Capacity(c.typ.kind) { return ContainerNotEnoughRoom; }
    var top := TopParent(c, W);
    TopInWorld(w, top, c);
    forall t | t in w ensures IsTop(w, t, c) <==> t == top { TopIs(w, top, t, c); }
    if top != c {
      full := DepotIsOver(top, item, count, noLimit, W);
      if full { return DepotIsFull; }
    }
    ret := NoError;
  }

  lemma TopInWorld(w: World, top: Item, c: Item)
    requires IsTop(w, top, c)
    ensures top in w
  {
  }

  lemma ThingIn(w: World, c: Item, index: int)
    requires Wired(w) && c in w && 0 <= index < |w[c].items|
    ensures w[c].items[index] in w
  {
    assert Listed(w, c);
  }

  method MaxCountQuery(c: Item, index: int, item: Item, count: nat, noLimit: bool, ghost W: set<Item>)
    returns (ret: Ret, maxQueryCount: nat)
    requires c in W && item in W && Wired(Snap(W))
    ensures (ret, maxQueryCount) == QueryMaxCount(Snap(W), c, index, item, count, noLimit)
  {
    if 0 <= index < |c.items| { ThingIn(Snap(W), c, index); }
    hide Wired;
    if noLimit { return NoError, if count > 1 then count else 1; }
    var capacity := Capacity(c.typ.kind);
    var freeSlots := if |c.items| < capacity then capacity - |c.items| else 0;
    ret := NoError;
    if item.typ.stackable {
      var n := 0;
      if index != WHEREEVER && 0 <= index < |c.items| && c.items[index].typ == item.typ {
        n := RoomOnStack(c.items[index].count);
      }
      maxQueryCount := freeSlots * STACK_MAX + n;
      if maxQueryCount < count { ret := ContainerNotEnoughRoom; }
    } else {
      maxQueryCount := freeSlots;
      if maxQueryCount == 0 { ret := ContainerNotEnoughRoom; }
    }
  }

  method RemoveQuery(c: Item, item: Item, count: nat, ghost W: set<Item>) returns (ret: Ret)
    requires c in W && item in W
    ensures ret == QueryRemove(Snap(W), c, item, count)
  {
    var index := IndexOf(c, item);
    if index == -1 { return NotPossible; }
    if count == 0 || (item.typ.stackable && count > item.count) { return NotPossible; }
    if !item.typ.moveable { return NotMoveable; }
    ret := NoError;
  }
}
