/** What savePlayer hands over to be saved, and what loadPlayer makes of it: a player's inventory and depots. */
module SavedPlayer {
  import opened ItemForest
  import opened ContainerOps
  import opened ItemRows
  import opened RowLoading
  import opened SavedForest

  /** Player::inventory: slot 0 is not used, and the others are 1 to 10. */
  ghost predicate InventoryIn(w: World, inventory: seq<Item?>) {
    && |inventory| == 11
    && (forall s | 1 <= s <= 10 && inventory[s] != null :: inventory[s] in w && w[inventory[s]].parent == null)
    && (forall r, s | 1 <= r < s <= 10 && inventory[r] != null :: inventory[r] != inventory[s])
  }

  /** The loop of savePlayer over the slots. */
  method InventoryTops(inventory: seq<Item?>, ghost w: World) returns (itemList: seq<Top>)
    requires InventoryIn(w, inventory)
    ensures RootList(w, itemList)
    ensures forall k | 0 <= k < |itemList| ::
      1 <= itemList[k].pid <= 10 && inventory[itemList[k].pid] == itemList[k].item
    ensures forall s | 1 <= s <= 10 && inventory[s] != null :: Top(s, inventory[s]) in itemList
  {
    itemList := [];
    for slotId := 1 to 11
      invariant forall k | 0 <= k < |itemList| ::
        1 <= itemList[k].pid < slotId && inventory[itemList[k].pid] == itemList[k].item
      invariant forall i, j | 0 <= i < j < |itemList| :: itemList[i].pid < itemList[j].pid
      invariant forall s | 1 <= s < slotId && inventory[s] != null :: Top(s, inventory[s]) in itemList
    {
      var item := inventory[slotId];
      if item != null { itemList := itemList + [Top(slotId, item)]; }
    }
  }

  /** A slot is empty again, or holds the copy of what it held. */
  ghost predicate SlotBack(inventory: seq<Item?>, loaded: seq<Item?>, twin: map<Item, Item>, s: nat)
    requires s < |inventory| && s < |loaded|
  {
    if inventory[s] == null then loaded[s] == null else inventory[s] in twin && loaded[s] == twin[inventory[s]]
  }

  /** Whatever a player wears or carries: every slot comes back, with everything in it. */
  method SaveAndLoadInventory(inventory: seq<Item?>, ghost W: set<Item>)
    returns (loaded: seq<Item?>, ghost V: set<Item>, ghost twin: map<Item, Item>)
    requires Wired(Snap(W)) && Typed(Snap(W)) && InventoryIn(Snap(W), inventory)
    ensures fresh(V) && Copied(Snap(W), Snap(V), twin)
    ensures |loaded| == 11 && forall s | 1 <= s <= 10 :: SlotBack(inventory, loaded, twin, s)
  {
    hide Wired, Typed, RootList, Copied, FilledExactly;
    ghost var w := Snap(W);
    var itemList := InventoryTops(inventory, w);
    var slots;
    slots, V, twin := SaveAndLoad(Inventory, itemList, W);
    loaded := seq(11, s => if s in slots then slots[s] else null);
    forall s: nat | 1 <= s <= 10 ensures SlotBack(inventory, loaded, twin, s) {
      SlotComesBack(inventory, itemList, slots, twin, s);
    }
  }

  lemma SlotComesBack(inventory: seq<Item?>, itemList: seq<Top>, slots: map<int, Item>, twin: map<Item, Item>, s: nat)
    requires |inventory| == 11 && 1 <= s <= 10 && SlotsFilled(itemList, slots, twin)
    requires forall k | 0 <= k < |itemList| ::
      1 <= itemList[k].pid <= 10 && inventory[itemList[k].pid] == itemList[k].item
    requires inventory[s] != null ==> Top(s, inventory[s]) in itemList
    ensures if inventory[s] == null then s !in slots
      else s in slots && inventory[s] in twin && slots[s] == twin[inventory[s]]
  {
    if inventory[s] != null {
      var k :| 0 <= k < |itemList| && itemList[k] == Top(s, inventory[s]);
      assert SlotFilled(itemList, slots, twin, k);
    }
  }

  /** The depots of the towns 0 to 99 come back, with everything in them; any other town's does not. */
  method SaveAndLoadDepots(depots: seq<Top>, ghost W: set<Item>)
    returns (loaded: map<int, Item>, ghost V: set<Item>, ghost twin: map<Item, Item>)
    requires Wired(Snap(W)) && Typed(Snap(W)) && RootList(Snap(W), depots)
    requires forall k | 0 <= k < |depots| :: depots[k].item.typ.kind.Depot?
    ensures fresh(V)
    ensures forall k | 0 <= k < |depots| :: depots[k].pid in loaded <==> 0 <= depots[k].pid <= 99
    ensures (forall k | 0 <= k < |depots| :: 0 <= depots[k].pid <= 99) ==>
      && Copied(Snap(W), Snap(V), twin)
      && forall k | 0 <= k < |depots| ::
           depots[k].item in twin && depots[k].pid in loaded && loaded[depots[k].pid] == twin[depots[k].item]
  {
    hide Wired, Typed, RootList, Copied;
    loaded, V, twin := SaveAndLoad(Depots, depots, W);
    if forall k | 0 <= k < |depots| :: 0 <= depots[k].pid <= 99 {
      forall k | 0 <= k < |depots|
        ensures depots[k].item in twin && depots[k].pid in loaded && loaded[depots[k].pid] == twin[depots[k].item]
      {
        assert SlotFilled(depots, loaded, twin, k);
      }
    }
  }
}
