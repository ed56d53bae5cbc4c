/** By how much a transfer or an insertion changes what lies below a container around its destination. */
module DepotGrowth {
  import opened ItemForest
  import opened ItemMoves
  import opened Cylinders
  import opened MoveSafety
  import opened SlotLimit
  import opened DepotContents

  /** How many items more d holds, counted recursively, once m pieces of the item have gone to `at` inside it: a new
      stack, or all of the item, less what is taken out of d at the same time. */
  ghost function Grows(w: World, d: Item, item: Item, at: Destination, m: nat): int
    requires item in w
  {
    if !w[item].typ.stackable then if Under(w, d, item) then 0 else 1 + |Below(w, item)|
    else
      (if m > Merged(w, at.item, item, m) then 1 else 0)
      - (if Under(w, d, item) && m == w[item].count then 1 else 0)
  }

  /** Of two items around a third, one is around the other. */
  lemma Comparable(w: World, a: Item, b: Item, y: Item)
    requires Under(w, a, y) && Under(w, b, y)
    ensures InSub(w, a, b) || Under(w, b, a)
  {
    var m: nat :| m > 0 && Up(w, y, m) == a;
    var n: nat :| n > 0 && Up(w, y, n) == b;
    if m < n {
      UpAdds(w, y, m, n - m);
    } else if n < m {
      UpAdds(w, y, n, m - n);
    }
  }

  lemma SubSize(w: World, item: Item)
    requires Forest(w) && item in w
    ensures |Sub(w, item)| == 1 + |Below(w, item)|
  {
    NoSelfNesting(w, item);
  }

  lemma SubWithin(w: World, r: Item, item: Item)
    requires Under(w, r, item) && item in w
    ensures Sub(w, item) <= Below(w, r)
  {
    forall y | y in w && Under(w, item, y) ensures Under(w, r, y) { UnderTrans(w, r, item, y); }
  }

  lemma SubApart(w: World, r: Item, item: Item)
    requires !Under(w, r, item) && !InSub(w, item, r)
    ensures Below(w, r) !! Sub(w, item)
  {
    forall y | y in Below(w, r) && y in Sub(w, item) ensures false {
      if y != item { Comparable(w, r, item, y); }
    }
  }

  lemma WithSub(w: World, r: Item, item: Item, to: Item)
    requires Sane(w) && item in w && InSub(w, r, to) && !InSub(w, item, to)
    ensures |Below(w, r) + Sub(w, item)| == |Below(w, r)| + if Under(w, r, item) then 0 else 1 + |Below(w, item)|
  {
    if Under(w, r, item) {
      SubWithin(w, r, item);
      assert Below(w, r) + Sub(w, item) == Below(w, r);
    } else {
      if InSub(w, item, r) && r != to && r != item { UnderTrans(w, item, r, to); }
      SubApart(w, r, item);
      SubSize(w, item);
    }
  }

  /** What lies below r grows by just that if the destination is in r, and not at all otherwise. */
  ghost predicate Grown(w: World, done: World, r: Item, item: Item, at: Destination, m: nat)
    requires item in w
  {
    if InSub(w, r, at.to) then |Below(done, r)| == |Below(w, r)| + Grows(w, r, item, at, m)
    else |Below(done, r)| <= |Below(w, r)|
  }

  lemma ItemGrown(w: World, from: Item, item: Item, at: Destination, m: nat, extra: Item, r: Item)
    requires Target(w, at, item) && from in w && item in w[from].items && !w[item].typ.stackable && r in w
    ensures Grown(w, Transfer(w, from, item, at, m, extra), r, item, at, m)
  {
    assert Listed(w, from);
    NotOwnParent(w, item);
    var v := RemoveThing(w, from, item, m);
    var done := Attach(v, at.to, item);
    RelinkBelow(w, item, at.to, v, done, r);
    if InSub(w, r, at.to) { WithSub(w, r, item, at.to); } else { SubsetSize(Below(done, r), Below(w, r)); }
  }

  lemma TransferIsStack(w: World, from: Item, item: Item, at: Destination, m: nat, extra: Item)
    requires from in w && item in w && at.to in w && w[item].typ.stackable
    ensures var v := RemoveThing(w, from, item, m);
      Transfer(w, from, item, at, m, extra) == Stack(v, at.to, at.index, at.item, item, m, extra)
  {
  }

  lemma OneOut(w: World, r: Item, item: Item)
    requires item in w
    ensures |Below(w, r) - {item}| == |Below(w, r)| - if Under(w, r, item) then 1 else 0
  {
    if !Under(w, r, item) { assert Below(w, r) - {item} == Below(w, r); }
  }

  lemma OneIn(v: World, r: Item, extra: Item)
    requires extra !in v
    ensures |Below(v, r) + {extra}| == |Below(v, r)| + 1
  {
  }

  lemma StackGrown(w: World, from: Item, item: Item, at: Destination, m: nat, extra: Item, r: Item)
    requires Target(w, at, item) && from in w && item in w[from].items && Spare(w, at.item, item, m, extra)
    requires w[item].typ.stackable && 1 <= m <= w[item].count && r in w && !w[r].typ.kind.Plain?
    ensures Grown(w, Transfer(w, from, item, at, m, extra), r, item, at, m)
  {
    hide Transfer, Stack, RemoveThing, Merged, Below, InSub;
    var v := RemoveThing(w, from, item, m);
    var done := Transfer(w, from, item, at, m, extra);
    TransferIsStack(w, from, item, at, m, extra);
    RemoveTypes(w, from, item, m, v);
    TargetAfterTaking(w, at, from, item, m, v);
    SameMerge(w, from, item, at, m, v);
    TakeBelow(w, from, item, m, v, r, at.to);
    StackBelow(v, at.to, at.index, at.item, item, m, extra, done, r);
    OneOut(w, r, item);
    if InSub(w, r, at.to) {
      if m > Merged(w, at.item, item, m) { OneIn(v, r, extra); }
    } else {
      SubsetSize(Below(done, r), Below(w, r));
    }
  }

  lemma TransferGrown(w: World, from: Item, item: Item, at: Destination, m: nat, extra: Item, r: Item)
    requires Target(w, at, item) && from in w && item in w[from].items && Spare(w, at.item, item, m, extra)
    requires (w[item].typ.stackable ==> 1 <= m <= w[item].count) && r in w && !w[r].typ.kind.Plain?
    ensures Grown(w, Transfer(w, from, item, at, m, extra), r, item, at, m)
  {
    hide Transfer, Grown, Merged;
    if w[item].typ.stackable {
      StackGrown(w, from, item, at, m, extra, r);
    } else {
      ItemGrown(w, from, item, at, m, extra, r);
    }
  }

  // ---------------------------------------------------------------- insertions

  lemma PutBelow(u: World, to: Item, item: Item, done: World, r: Item)
    requires Sane(u) && CanAttach(u, to, item) && done == Attach(u, to, item) && r in u
    ensures |Below(done, r)| == |Below(u, r)| + if InSub(u, r, to) then 1 + |Below(u, item)| else 0
  {
    AttachBelow(u, to, item, r);
    if InSub(u, r, to) {
      RootIsUnderNothing(u, r, item);
      WithSub(u, r, item, to);
    }
  }

  lemma MergedPutBelow(w: World, item: Item, at: Destination, m: nat, u: World, done: World, r: Item)
    requires Target(w, at, item) && Loose(w, item) && w[item].typ.stackable
    requires u == AfterMerge(w, at.item, item, m) && at.to in u && item in u && done == Attach(u, at.to, item) && r in w
    ensures |Below(done, r)| == |Below(w, r)| + if InSub(w, r, at.to) then 1 else 0
  {
    assert Listed(w, at.to);
    MergeIsSane(w, at.to, at.item, item, m, u);
    BelowSame(w, u, r);
    BelowSame(w, u, item);
    PlainHoldsNothing(w, item);
    UnderSame(w, u, r, at.to);
    UnderSame(w, u, item, at.to);
    PutBelow(u, at.to, item, done, r);
  }

  lemma InsertGrown(w: World, item: Item, at: Destination, m: nat, extra: Item, r: Item)
    requires Target(w, at, item) && Loose(w, item) && InsertSpare(w, item, at, m, extra) && r in w
    requires w[item].typ.stackable ==> m == w[item].count
    ensures Grown(w, Insert(w, item, at, m, extra), r, item, at, m)
  {
    assert Listed(w, at.to);
    RootIsUnderNothing(w, r, item);
    var done := Insert(w, item, at, m, extra);
    if !w[item].typ.stackable {
      PutBelow(w, at.to, item, done, r);
    } else if m > Merged(w, at.item, item, m) && m - Merged(w, at.item, item, m) == w[item].count {
      MergedPutBelow(w, item, at, m, AfterMerge(w, at.item, item, m), done, r);
    } else {
      StackBelow(w, at.to, at.index, at.item, item, m, extra, done, r);
    }
  }
}
