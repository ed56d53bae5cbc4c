/** What lies below an item before and after a transfer or an insertion. */
module DepotContents {
  import opened ItemForest
  import opened ItemMoves
  import opened Cylinders
  import opened MoveSafety

  lemma PlainHoldsNothing(w: World, x: Item)
    requires Wired(w) && x in w && w[x].typ.kind.Plain?
    ensures Below(w, x) == {}
  {
    forall y | y in w && Under(w, x, y) ensures false {
      var n: nat :| n > 0 && Up(w, y, n) == x;
      PlainIsNoParent(w, x, y, n);
    }
  }

  lemma {:induction false} PlainIsNoParent(w: World, x: Item, y: Item, n: nat)
    requires Wired(w) && x in w && w[x].typ.kind.Plain? && y in w && n > 0 && Up(w, y, n) == x
    ensures false
    decreases n
  {
    var p := w[y].parent;
    assert p in w && Listed(w, p);
    if n > 1 { PlainIsNoParent(w, x, p, n - 1); }
  }

  lemma RootNotBelow(w: World, r: Item, x: Item)
    requires r in w && w[r].parent == null && r != x
    ensures !InSub(w, x, r)
  {
    RootIsUnderNothing(w, x, r);
  }

  lemma RelinkBelow(w: World, item: Item, to: Item, v: World, u: World, r: Item)
    requires Sane(w) && CanDetach(w, item) && IsContainer(w, to) && !InSub(w, item, to)
    requires w[item].parent in w && v == Detach(w, item) && u == Attach(v, to, item)
    requires r in w
    ensures if InSub(w, r, to) then Below(u, r) == Below(w, r) + Sub(w, item) else Below(u, r) <= Below(w, r)
  {
    Relink(w, item, to, v, u);
    AttachBelow(v, to, item, r);
    DetachBelow(w, item, r);
    DetachBelow(w, item, item);
    var n: nat :| EndsWithin(w, n);
    DetachUnder(w, v, item, r, to, n);
    if InSub(w, r, to) && InSub(w, item, r) && r != to && r != item { UnderTrans(w, item, r, to); }
  }

  lemma TakeBelow(w: World, from: Item, item: Item, m: nat, v: World, r: Item, to: Item)
    requires Sane(w) && from in w && item in w[from].items && item in w && w[item].typ.stackable
    requires 1 <= m <= w[item].count && v == RemoveThing(w, from, item, m)
    requires r in w && !w[r].typ.kind.Plain? && IsContainer(w, to)
    ensures Below(v, r) == if m == w[item].count then Below(w, r) - {item} else Below(w, r)
    ensures r in v && (InSub(v, r, to) <==> InSub(w, r, to))
  {
    TakeSome(w, from, item, m, v);
    PlainHoldsNothing(w, item);
    assert r !in Below(w, item) && to !in Below(w, item);
    if m == w[item].count {
      DetachBelow(w, item, r);
      var n: nat :| EndsWithin(w, n);
      DetachUnder(w, v, item, r, to, n);
    } else {
      BelowSame(w, v, r);
      UnderSame(w, v, r, to);
    }
  }

  lemma SplitBelow(u: World, to: Item, typ: ItemType, n: nat, extra: Item, t: World, done: World, r: Item)
    requires Sane(u) && IsContainer(u, to) && typ.stackable && typ.kind.Plain?
    requires extra !in u && 1 <= n <= STACK_MAX && t == Create(u, extra, typ, n) && done == Attach(t, to, extra)
    requires r in u
    ensures Below(done, r) == Below(u, r) + if InSub(u, r, to) then {extra} else {}
  {
    SplitIsSane(u, to, typ, n, extra, t, done);
    SaneCreate(u, extra, typ, n, t);
    BelowSame(u, t, r);
    UnderSame(u, t, r, to);
    PlainHoldsNothing(t, extra);
    AttachBelow(t, to, extra, r);
  }

  lemma StackBelow(v: World, to: Item, index: int, toItem: Item?, x: Item, m: nat, extra: Item, done: World, r: Item)
    requires Sane(v) && IsContainer(v, to) && index < Capacity(v[to].typ.kind) && x in v && v[x].typ.stackable
    requires Spare(v, toItem, x, m, extra) && m <= STACK_MAX
    requires toItem != null ==> toItem in v && v[toItem].parent == to
    requires done == Stack(v, to, index, toItem, x, m, extra) && r in v
    ensures Below(done, r) == Below(v, r) + if InSub(v, r, to) && m > Merged(v, toItem, x, m) then {extra} else {}
  {
    hide Stack, Merged, Wired;
    var n := Merged(v, toItem, x, m);
    var u := AfterMerge(v, toItem, x, m);
    StackParts(v, to, index, toItem, x, m, extra, n, u, done);
    MergeIsSane(v, to, toItem, x, m, u);
    BelowSame(v, u, r);
    UnderSame(v, u, r, to);
    if m > n {
      SplitBelow(u, to, v[x].typ, m - n, extra, Create(u, extra, v[x].typ, m - n), done, r);
    }
  }
}
