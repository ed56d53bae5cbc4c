/** Moving, adding and removing keep the world sane: a forest of containers with proper stacks. */
module MoveSafety {
  import opened ItemForest
  import opened ItemMoves
  import opened Cylinders

  /** What a granted move or insertion may rely on. */
  ghost predicate Target(w: World, at: Destination, item: Item) {
    && Sane(w) && item in w
    && IsContainer(w, at.to) && !InSub(w, item, at.to)
    && at.index < Capacity(w[at.to].typ.kind)
    && at.item == ThingAt(w, at.to, at.index)
    && at.item != item && !IsContainer(w, at.item)
  }

  lemma DestinationIsTarget(w: World, c: Item, index: int, item: Item)
    requires Sane(w) && IsContainer(w, c) && item in w
    requires var at := QueryDestination(w, c, index); at.item != item && !InSub(w, item, at.to)
    ensures Target(w, QueryDestination(w, c, index), item)
  {
    assert Listed(w, c);
  }

  lemma SaneDetach(w: World, x: Item, v: World)
    requires Sane(w) && CanDetach(w, x) && w[x].parent in w && v == Detach(w, x)
    ensures Sane(v)
  {
    DetachForest(w, x);
  }

  lemma SaneAttach(w: World, c: Item, x: Item, v: World)
    requires Sane(w) && CanAttach(w, c, x) && v == Attach(w, c, x)
    requires w[x].typ.stackable ==> 1 <= w[x].count <= STACK_MAX
    ensures Sane(v)
  {
    hide Forest, InSub;
    AttachForest(w, c, x);
  }

  lemma SaneSetCount(w: World, x: Item, n: nat, v: World)
    requires Sane(w) && x in w && 1 <= n <= STACK_MAX && v == SetCount(w, x, n)
    ensures Sane(v) && SameParents(w, v) && v.Keys == w.Keys
  {
    SetCountForest(w, x, n);
  }

  lemma SaneCreate(w: World, x: Item, typ: ItemType, n: nat, v: World)
    requires Sane(w) && x !in w && typ.kind.Plain? && v == Create(w, x, typ, n)
    ensures Sane(v) && SameParents(w, v)
  {
    CreateForest(w, x, typ, n);
  }

  /** The item itself changes place. */
  lemma Relink(w: World, item: Item, to: Item, v: World, u: World)
    requires Sane(w) && CanDetach(w, item) && IsContainer(w, to) && !InSub(w, item, to)
    requires w[item].parent in w && v == Detach(w, item) && u == Attach(v, to, item)
    ensures CanAttach(v, to, item) && Sane(v) && Sane(u)
  {
    SaneDetach(w, item, v);
    NotOwnParent(w, item);
    var n: nat :| EndsWithin(w, n);
    DetachUnder(w, v, item, item, to, n);
    SaneAttach(v, to, item, u);
  }

  lemma TakeSome(w: World, from: Item, item: Item, m: nat, v: World)
    requires Sane(w) && from in w && item in w[from].items && item in w && w[item].typ.stackable
    requires 1 <= m <= w[item].count
    requires v == RemoveThing(w, from, item, m)
    ensures Sane(v) && w[item].parent == from
    ensures if m == w[item].count then CanDetach(w, item) && v == Detach(w, item)
      else v == SetCount(w, item, w[item].count - m)
  {
    assert Listed(w, from);
    if m == w[item].count {
      SaneDetach(w, item, v);
    } else {
      SaneSetCount(w, item, w[item].count - m, v);
    }
  }

  lemma TargetAfterTaking(w: World, at: Destination, from: Item, item: Item, m: nat, v: World)
    requires Target(w, at, item) && from in w && item in w[from].items && w[item].typ.stackable
    requires 1 <= m <= w[item].count
    requires v == RemoveThing(w, from, item, m)
    ensures Sane(v) && IsContainer(v, at.to) && at.index < Capacity(v[at.to].typ.kind)
    ensures item in v && v[item].typ == w[item].typ
    ensures at.item != null ==> at.item in v && v[at.item] == w[at.item] && v[at.item].parent == at.to
  {
    TakeSome(w, from, item, m, v);
    assert Listed(w, at.to) && Listed(w, from);
    if m == w[item].count { NotOwnParent(w, item); }
  }

  lemma MergeIsSane(v: World, to: Item, toItem: Item?, x: Item, m: nat, u: World)
    requires Sane(v) && IsContainer(v, to) && x in v && v[x].typ.stackable
    requires toItem != null ==> toItem in v && v[toItem].parent == to
    requires u == AfterMerge(v, toItem, x, m)
    ensures Sane(u) && SameParents(v, u) && u.Keys == v.Keys && IsContainer(u, to) && u[x].typ == v[x].typ
    ensures u[to].typ == v[to].typ && (x != toItem ==> u[x] == v[x])
  {
    if toItem != null && v[toItem].typ == v[x].typ {
      SaneSetCount(v, toItem, v[toItem].count + Merged(v, toItem, x, m), u);
    }
  }

  /** A new stack put down in `to`. */
  lemma SplitIsSane(u: World, to: Item, typ: ItemType, n: nat, extra: Item, t: World, done: World)
    requires Sane(u) && IsContainer(u, to) && typ.stackable && typ.kind.Plain?
    requires extra !in u && 1 <= n <= STACK_MAX && t == Create(u, extra, typ, n) && done == Attach(t, to, extra)
    ensures CanAttach(t, to, extra) && Sane(done)
  {
    SaneCreate(u, extra, typ, n, t);
    FreshIsAlone(u, t, extra, to);
    SaneAttach(t, to, extra, done);
  }

  /** A stack put down on v, part of it on toItem. */
  lemma StackIsSane(v: World, to: Item, index: int, toItem: Item?, x: Item, m: nat, extra: Item)
    requires Sane(v) && IsContainer(v, to) && index < Capacity(v[to].typ.kind) && x in v && v[x].typ.stackable
    requires Spare(v, toItem, x, m, extra) && m <= STACK_MAX
    requires toItem != null ==> toItem in v && v[toItem].parent == to
    ensures Sane(Stack(v, to, index, toItem, x, m, extra))
  {
    hide Forest;
    var n := Merged(v, toItem, x, m);
    var u := AfterMerge(v, toItem, x, m);
    var done := Stack(v, to, index, toItem, x, m, extra);
    StackParts(v, to, index, toItem, x, m, extra, n, u, done);
    MergeIsSane(v, to, toItem, x, m, u);
    if m > n { SplitIsSane(u, to, v[x].typ, m - n, extra, Create(u, extra, v[x].typ, m - n), done); }
  }

  lemma StackParts(v: World, to: Item, index: int, toItem: Item?, x: Item, m: nat, extra: Item, n: nat, u: World,
                   done: World)
    requires to in v && x in v && (m > n ==> extra !in v) && index < Capacity(v[to].typ.kind)
    requires n == Merged(v, toItem, x, m) && u == AfterMerge(v, toItem, x, m)
    requires done == Stack(v, to, index, toItem, x, m, extra)
    ensures to in u && u[to].typ == v[to].typ
    ensures done == if m > n then Attach(Create(u, extra, v[x].typ, m - n), to, extra) else u
  {
  }

  lemma FreshIsAlone(u: World, t: World, extra: Item, to: Item)
    requires Wired(u) && extra !in u && to in u && SameParents(u, t)
    ensures !InSub(t, extra, to)
  {
    UnderSame(u, t, extra, to);
    if Under(u, extra, to) { UnderStays(u, extra, to); }
  }

  /** The merge is decided on the world after the removal, which has the same stack. */
  lemma SameMerge(w: World, from: Item, item: Item, at: Destination, m: nat, v: World)
    requires Target(w, at, item) && from in w && item in w[from].items && w[item].typ.stackable
    requires 1 <= m <= w[item].count
    requires v == RemoveThing(w, from, item, m)
    ensures item in v && Merged(v, at.item, item, m) == Merged(w, at.item, item, m)
  {
    TargetAfterTaking(w, at, from, item, m, v);
    assert Listed(w, at.to);
  }

  /** Granted moves keep the world sane. */
  lemma TransferIsSane(w: World, from: Item, item: Item, at: Destination, m: nat, extra: Item)
    requires Target(w, at, item) && from in w && item in w[from].items && Spare(w, at.item, item, m, extra)
    requires w[item].typ.stackable ==> 1 <= m <= w[item].count
    ensures Sane(Transfer(w, from, item, at, m, extra))
  {
    assert Listed(w, from);
    var v := RemoveThing(w, from, item, m);
    if w[item].typ.stackable {
      TargetAfterTaking(w, at, from, item, m, v);
      SameMerge(w, from, item, at, m, v);
      StackIsSane(v, at.to, at.index, at.item, item, m, extra);
    } else {
      NotOwnParent(w, item);
      Relink(w, item, at.to, v, Attach(v, at.to, item));
    }
  }

  lemma PlannedMove(w: World, from: Item, to: Item, index: int, item: Item, count: nat, noLimit: bool)
    requires Sane(w) && from in w && IsContainer(w, to) && item in w
    ensures var p := PlanMove(w, from, to, index, item, count, noLimit);
      p.Granted? ==>
        && p.at == QueryDestination(w, to, index) && Target(w, p.at, item) && item in w[from].items
        && (w[item].typ.stackable ==> 1 <= p.m <= w[item].count)
  {
    if PlanMove(w, from, to, index, item, count, noLimit).Granted? {
      DestinationIsTarget(w, to, index, item);
    }
  }

  /** internalMoveItem keeps the containers a forest and the stacks within 1..100, whatever it returns. */
  lemma MoveIsSane(w: World, from: Item, to: Item, index: int, item: Item, count: nat, noLimit: bool, extra: Item)
    requires Sane(w) && from in w && IsContainer(w, to) && item in w
    requires MoveSpare(w, from, to, index, item, count, noLimit, extra)
    ensures Sane(Move(w, from, to, index, item, count, noLimit, extra).1)
  {
    var p := PlanMove(w, from, to, index, item, count, noLimit);
    PlannedMove(w, from, to, index, item, count, noLimit);
    if p.Granted? { TransferIsSane(w, from, item, p.at, p.m, extra); }
  }

  /** An item that was just created, or a container brought in from outside. */
  ghost predicate Loose(w: World, item: Item) {
    item in w && w[item].parent == null && (w[item].typ.stackable ==> 1 <= w[item].count <= STACK_MAX)
  }

  lemma InsertIsSane(w: World, item: Item, at: Destination, m: nat, extra: Item)
    requires Target(w, at, item) && Loose(w, item) && InsertSpare(w, item, at, m, extra) && m <= STACK_MAX
    requires w[item].typ.stackable ==> m == w[item].count
    ensures Sane(Insert(w, item, at, m, extra))
  {
    assert Listed(w, at.to);
    if !w[item].typ.stackable {
      SaneAttach(w, at.to, item, Attach(w, at.to, item));
    } else if m > Merged(w, at.item, item, m) && m - Merged(w, at.item, item, m) == w[item].count {
      var u := AfterMerge(w, at.item, item, m);
      MergeIsSane(w, at.to, at.item, item, m, u);
      UnderSame(w, u, item, at.to);
      SaneAttach(u, at.to, item, Attach(u, at.to, item));
    } else {
      StackIsSane(w, at.to, at.index, at.item, item, m, extra);
    }
  }

  lemma PlannedAdd(w: World, to: Item, index: int, item: Item, noLimit: bool)
    requires Sane(w) && IsContainer(w, to) && Loose(w, item)
    ensures var p := PlanAdd(w, to, index, item, noLimit);
      p.Granted? ==>
        && p.at == QueryDestination(w, to, index) && Target(w, p.at, item)
        && (w[item].typ.stackable ==> p.m == w[item].count)
  {
    var at := QueryDestination(w, to, index);
    assert Listed(w, to);
    if PlanAdd(w, to, index, item, noLimit).Granted? {
      assert at.item != item;
      DestinationIsTarget(w, to, index, item);
    }
  }

  /** internalAddItem does too. */
  lemma AddIsSane(w: World, to: Item, index: int, item: Item, noLimit: bool, extra: Item)
    requires Sane(w) && IsContainer(w, to) && Loose(w, item) && AddSpare(w, to, index, item, noLimit, extra)
    ensures Sane(Add(w, to, index, item, noLimit, extra).1)
  {
    var p := PlanAdd(w, to, index, item, noLimit);
    PlannedAdd(w, to, index, item, noLimit);
    if p.Granted? { InsertIsSane(w, item, p.at, if w[item].typ.stackable then p.m else 0, extra); }
  }

  /** And so does internalRemoveItem. */
  lemma RemoveIsSane(w: World, item: Item, count: int)
    requires Sane(w) && item in w && count >= -0x8000_0000
    ensures w[item].parent != null ==> w[item].parent in w
    ensures Sane(Remove(w, item, count).1)
  {
    var c := w[item].parent;
    if c != null && Remove(w, item, count).0 == NoError {
      assert Listed(w, c);
      var n := if count == -1 then w[item].count else if count < 0 then count + 0x1_0000_0000 else count;
      if w[item].typ.stackable {
        TakeSome(w, c, item, n, Remove(w, item, count).1);
      } else {
        SaneDetach(w, item, Remove(w, item, count).1);
      }
    }
  }
}
