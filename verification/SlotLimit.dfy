/** Slots: without FLAG_NOLIMIT no container is filled beyond its capacity. */
module SlotLimit {
  import opened ItemForest
  import opened ItemMoves
  import opened Cylinders
  import opened MoveSafety

  /** A transfer takes up a slot unless all of it merges into a stack. */
  function NeedsSlot(w: World, item: Item, at: Destination, m: nat): bool
    requires item in w
  {
    w[item].typ.stackable ==> m > Merged(w, at.item, item, m)
  }

  lemma GrantedSlot(w: World, from: Item, to: Item, index: int, item: Item, count: nat)
    requires Sane(w) && from in w && IsContainer(w, to) && item in w
    ensures var p := PlanMove(w, from, to, index, item, count, false);
      p.Granted? && NeedsSlot(w, item, p.at, p.m) ==> p.at.to in w && |w[p.at.to].items| < Capacity(w[p.at.to].typ.kind)
  {
    PlannedMove(w, from, to, index, item, count, false);
  }

  lemma StackSize(v: World, to: Item, index: int, toItem: Item?, x: Item, m: nat, extra: Item, done: World, d: Item)
    requires to in v && x in v && v[x].typ.stackable && index < Capacity(v[to].typ.kind) && d in v
    requires Spare(v, toItem, x, m, extra)
    requires done == Stack(v, to, index, toItem, x, m, extra)
    ensures d in done && |done[d].items| == |v[d].items| + if d == to && m > Merged(v, toItem, x, m) then 1 else 0
  {
  }

  lemma TransferSize(w: World, from: Item, item: Item, at: Destination, m: nat, extra: Item, d: Item)
    requires Target(w, at, item) && from in w && item in w[from].items && Spare(w, at.item, item, m, extra) && d in w
    requires w[item].typ.stackable ==> 1 <= m <= w[item].count
    ensures var done := Transfer(w, from, item, at, m, extra);
      && d in done
      && |done[d].items| <= |w[d].items| + if d == at.to && NeedsSlot(w, item, at, m) then 1 else 0
  {
    assert Listed(w, from);
    WithoutOnce(w[from].items, item);
    var v := RemoveThing(w, from, item, m);
    if w[item].typ.stackable {
      SameMerge(w, from, item, at, m, v);
      TargetAfterTaking(w, at, from, item, m, v);
      StackSize(v, at.to, at.index, at.item, item, m, extra, Transfer(w, from, item, at, m, extra), d);
    }
  }

  /** Without FLAG_NOLIMIT no container grows beyond its capacity. */
  lemma MoveFits(w: World, from: Item, to: Item, index: int, item: Item, count: nat, extra: Item, d: Item)
    requires Sane(w) && from in w && IsContainer(w, to) && item in w && d in w
    requires MoveSpare(w, from, to, index, item, count, false, extra)
    requires |w[d].items| <= Capacity(w[d].typ.kind)
    ensures var done := Move(w, from, to, index, item, count, false, extra).1;
      d in done && |done[d].items| <= Capacity(w[d].typ.kind)
  {
    hide Transfer, Spare, Merged, NeedsSlot, Capacity;
    var p := PlanMove(w, from, to, index, item, count, false);
    PlannedMove(w, from, to, index, item, count, false);
    GrantedSlot(w, from, to, index, item, count);
    if p.Granted? { TransferSize(w, from, item, p.at, p.m, extra, d); }
  }

  lemma InsertSize(w: World, item: Item, at: Destination, m: nat, extra: Item, d: Item)
    requires Target(w, at, item) && Loose(w, item) && InsertSpare(w, item, at, m, extra) && d in w
    ensures var done := Insert(w, item, at, m, extra);
      && d in done
      && |done[d].items| <= |w[d].items| + if d == at.to && NeedsSlot(w, item, at, m) then 1 else 0
  {
    if w[item].typ.stackable && m - Merged(w, at.item, item, m) != w[item].count {
      StackSize(w, at.to, at.index, at.item, item, m, extra, Insert(w, item, at, m, extra), d);
    }
  }

  lemma GrantedAddSlot(w: World, to: Item, index: int, item: Item)
    requires Sane(w) && IsContainer(w, to) && Loose(w, item)
    ensures var p := PlanAdd(w, to, index, item, false);
      p.Granted? && NeedsSlot(w, item, p.at, p.m) ==> p.at.to in w && |w[p.at.to].items| < Capacity(w[p.at.to].typ.kind)
  {
    PlannedAdd(w, to, index, item, false);
  }

  /** The same for additions. */
  lemma AddFits(w: World, to: Item, index: int, item: Item, extra: Item, d: Item)
    requires Sane(w) && IsContainer(w, to) && Loose(w, item) && d in w
    requires AddSpare(w, to, index, item, false, extra)
    requires |w[d].items| <= Capacity(w[d].typ.kind)
    ensures var done := Add(w, to, index, item, false, extra).1;
      d in done && |done[d].items| <= Capacity(w[d].typ.kind)
  {
    hide Insert, InsertSpare, Merged, NeedsSlot, Capacity;
    var p := PlanAdd(w, to, index, item, false);
    PlannedAdd(w, to, index, item, false);
    GrantedAddSlot(w, to, index, item);
    if p.Granted? { InsertSize(w, item, p.at, p.m, extra, d); }
  }

  // ---------------------------------------------------------------- all containers at once

  /** No list is longer than its container has slots. */
  predicate SlotsOk(w: World) {
    forall d | d in w :: |w[d].items| <= Capacity(w[d].typ.kind)
  }

  /** Items stay what they are, and new ones are empty. */
  predicate KeepsTypes(w: World, v: World) {
    forall x | x in v :: if x in w then v[x].typ == w[x].typ else v[x].items == []
  }

  lemma StackTypes(v: World, to: Item, index: int, toItem: Item?, x: Item, m: nat, extra: Item, done: World)
    requires to in v && x in v && v[x].typ.stackable && index < Capacity(v[to].typ.kind)
    requires Spare(v, toItem, x, m, extra) && done == Stack(v, to, index, toItem, x, m, extra)
    ensures KeepsTypes(v, done) && v.Keys <= done.Keys
  {
    hide Merged;
    StackParts(v, to, index, toItem, x, m, extra, Merged(v, toItem, x, m), AfterMerge(v, toItem, x, m), done);
  }

  lemma RemoveTypes(w: World, c: Item, x: Item, count: nat, v: World)
    requires c in w && x in w && v == RemoveThing(w, c, x, count)
    ensures KeepsTypes(w, v) && v.Keys == w.Keys
  {
  }

  lemma ThenTypes(w: World, v: World, u: World)
    requires KeepsTypes(w, v) && KeepsTypes(v, u) && v.Keys == w.Keys
    ensures KeepsTypes(w, u)
  {
  }

  lemma TransferTypes(w: World, from: Item, item: Item, at: Destination, m: nat, extra: Item)
    requires Target(w, at, item) && from in w && item in w[from].items && Spare(w, at.item, item, m, extra)
    requires w[item].typ.stackable ==> 1 <= m <= w[item].count
    ensures KeepsTypes(w, Transfer(w, from, item, at, m, extra))
  {
    hide Stack, RemoveThing, Merged, KeepsTypes;
    var v := RemoveThing(w, from, item, m);
    RemoveTypes(w, from, item, m, v);
    if w[item].typ.stackable {
      SameMerge(w, from, item, at, m, v);
      TargetAfterTaking(w, at, from, item, m, v);
      StackTypes(v, at.to, at.index, at.item, item, m, extra, Transfer(w, from, item, at, m, extra));
    } else {
      AddTypes(v, at.to, at.index, item);
    }
    ThenTypes(w, v, Transfer(w, from, item, at, m, extra));
  }

  lemma AddTypes(w: World, c: Item, index: int, x: Item)
    requires c in w && x in w
    ensures KeepsTypes(w, AddThing(w, c, index, x))
  {
  }

  lemma MoveKeepsSlots(w: World, from: Item, to: Item, index: int, item: Item, count: nat, extra: Item)
    requires Sane(w) && from in w && IsContainer(w, to) && item in w && SlotsOk(w)
    requires MoveSpare(w, from, to, index, item, count, false, extra)
    ensures SlotsOk(Move(w, from, to, index, item, count, false, extra).1)
  {
    hide Transfer, Spare, Capacity;
    var done := Move(w, from, to, index, item, count, false, extra).1;
    var p := PlanMove(w, from, to, index, item, count, false);
    PlannedMove(w, from, to, index, item, count, false);
    if p.Granted? { TransferTypes(w, from, item, p.at, p.m, extra); }
    assert KeepsTypes(w, done);
    forall d | d in done && d in w ensures |done[d].items| <= Capacity(done[d].typ.kind) {
      MoveFits(w, from, to, index, item, count, extra, d);
    }
  }

  lemma InsertTypes(w: World, item: Item, at: Destination, m: nat, extra: Item)
    requires Target(w, at, item) && Loose(w, item) && InsertSpare(w, item, at, m, extra)
    ensures KeepsTypes(w, Insert(w, item, at, m, extra))
  {
    hide Stack, Merged, KeepsTypes, AddThing;
    if !w[item].typ.stackable {
      AddTypes(w, at.to, at.index, item);
    } else if m > Merged(w, at.item, item, m) && m - Merged(w, at.item, item, m) == w[item].count {
      var u := AfterMerge(w, at.item, item, m);
      MergeTypes(w, at.item, item, m);
      AddTypes(u, at.to, at.index, item);
      ThenTypes(w, u, Insert(w, item, at, m, extra));
    } else {
      StackTypes(w, at.to, at.index, at.item, item, m, extra, Insert(w, item, at, m, extra));
    }
  }

  lemma MergeTypes(w: World, toItem: Item?, x: Item, m: nat)
    requires x in w
    ensures KeepsTypes(w, AfterMerge(w, toItem, x, m)) && AfterMerge(w, toItem, x, m).Keys == w.Keys
  {
  }

  lemma AddKeepsSlots(w: World, to: Item, index: int, item: Item, extra: Item)
    requires Sane(w) && IsContainer(w, to) && Loose(w, item) && SlotsOk(w)
    requires AddSpare(w, to, index, item, false, extra)
    ensures SlotsOk(Add(w, to, index, item, false, extra).1)
  {
    hide Insert, InsertSpare, Capacity;
    var done := Add(w, to, index, item, false, extra).1;
    var p := PlanAdd(w, to, index, item, false);
    PlannedAdd(w, to, index, item, false);
    if p.Granted? { InsertTypes(w, item, p.at, p.m, extra); }
    assert KeepsTypes(w, done);
    forall d | d in done && d in w ensures |done[d].items| <= Capacity(done[d].typ.kind) {
      AddFits(w, to, index, item, extra, d);
    }
  }

  lemma RemoveKeepsSlots(w: World, item: Item, count: int)
    requires Sane(w) && item in w && count >= -0x8000_0000 && SlotsOk(w)
    requires w[item].parent != null ==> w[item].parent in w
    ensures SlotsOk(Remove(w, item, count).1)
  {
    var c := w[item].parent;
    if c != null && item in w[c].items {
      assert Listed(w, c);
      WithoutOnce(w[c].items, item);
    }
  }
}
