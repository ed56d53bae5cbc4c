/** Moving, adding and removing items on the objects themselves. */
module CylinderChanges {
  import opened ItemForest
  import opened ItemMoves
  import opened Cylinders
  import opened ContainerOps
  import opened CylinderQueries
  import opened MoveSafety

  /** Container::__addThing */
  method PutIn(c: Item, index: int, x: Item, ghost W: set<Item>)
    requires c in W && x in W && c != x
    modifies c, x
    ensures Snap(W) == AddThing(old(Snap(W)), c, index, x)
  {
    if index >= Capacity(c.typ.kind) { return; }
    x.parent := c;
    c.items := [x] + c.items;
  }

  /** Container::__updateThing on a stack */
  method UpdateCount(x: Item, n: nat, ghost W: set<Item>)
    requires x in W
    modifies x
    ensures Snap(W) == SetCount(old(Snap(W)), x, n)
  {
    x.count := n;
  }

  lemma {:induction false} ErasedAt(s: seq<Item>, x: Item, i: nat)
    requires i < |s| && s[i] == x && x !in s[..i]
    ensures Without(s, x) == s[..i] + s[i + 1..]
  {
    if i > 0 {
      assert s[0] == s[..i][0];
      assert s[1..][..i - 1] == s[..i][1..];
      ErasedAt(s[1..], x, i - 1);
      assert s[..i] + s[i + 1..] == [s[0]] + (s[1..][..i - 1] + s[1..][i..]);
    }
  }

  /** Container::__removeThing */
  method TakeOut(c: Item, x: Item, count: nat, ghost W: set<Item>)
    requires c in W && x in W && (x in c.items ==> x.parent == c && c != x)
    modifies c, x
    ensures Snap(W) == RemoveThing(old(Snap(W)), c, x, count)
  {
    var index := IndexOf(c, x);
    if index == -1 { return; }
    if x.typ.stackable && count != x.count {
      x.count := if count < x.count then x.count - count else 0;
    } else {
      ErasedAt(c.items, x, index);
      x.parent := null;
      c.items := c.items[..index] + c.items[index + 1..];
    }
  }

  /** m pieces of a stack are put down: some on toItem, the rest as a new stack. */
  method PutStack(to: Item, index: int, toItem: Item?, item: Item, m: nat, ghost W: set<Item>) returns (made: Item?)
    requires to in W && item in W && Sane(Snap(W)) && !to.typ.kind.Plain? && item.typ.stackable
    requires toItem != null ==> toItem in W && toItem.parent == to
    modifies W
    ensures made != null ==> fresh(made)
    ensures made == null ==> m <= Merged(old(Snap(W)), toItem, item, m)
    ensures var extra := if made == null then item else made;
      Snap(W + if made == null then {} else {made}) == Stack(old(Snap(W)), to, index, toItem, item, m, extra)
  {
    hide Sane;
    made := null;
    ghost var v := Snap(W);
    ghost var n := Merged(v, toItem, item, m);
    var rest := m;
    if toItem != null && toItem.typ == item.typ {
      var fits := if RoomOnStack(toItem.count) < m then RoomOnStack(toItem.count) else m;
      UpdateCount(toItem, toItem.count + fits, W);
      rest := m - fits;
    }
    ghost var u := Snap(W);
    assert rest == m - n && u == AfterMerge(v, toItem, item, m);
    if rest > 0 {
      made := new Item(item.typ, rest);
      assert Snap(W + {made}) == Create(u, made, v[item].typ, m - n);
      PutIn(to, index, made, W + {made});
    }
    assert W + {} == W;
  }

  /** The changes of internalMoveItem once everything has been granted. */
  method CarryOut(from: Item, item: Item, at: Destination, m: nat, ghost W: set<Item>) returns (made: Item?)
    requires from in W && Target(Snap(W), at, item) && item in from.items
    requires item.typ.stackable ==> 1 <= m <= item.count
    modifies W
    ensures made != null ==> fresh(made)
    ensures var extra := if made == null then item else made;
      Spare(old(Snap(W)), at.item, item, m, extra) &&
      Snap(W + if made == null then {} else {made}) == Transfer(old(Snap(W)), from, item, at, m, extra)
  {
    ghost var w := Snap(W);
    assert Listed(w, from);
    NotOwnParent(w, item);
    TakeOut(from, item, m, W);
    made := null;
    if item.typ.stackable {
      TargetAfterTaking(w, at, from, item, m, Snap(W));
      SameMerge(w, from, item, at, m, Snap(W));
      made := PutStack(at.to, at.index, at.item, item, m, W);
    } else {
      PutIn(at.to, at.index, item, W);
      assert W + {} == W;
    }
  }

  /** The questions internalMoveItem asks before it changes anything. */
  method AskToMove(from: Item, to: Item, index: int, item: Item, count: nat, noLimit: bool, ghost W: set<Item>)
    returns (plan: Plan)
    requires from in W && to in W && item in W && Sane(Snap(W)) && !to.typ.kind.Plain?
    ensures plan == PlanMove(Snap(W), from, to, index, item, count, noLimit)
  {
    hide Listed, IsTop, QueryRemove;
    ghost var w := Snap(W);
    var at := DestinationOf(to, index, W);
    assert Listed(w, to);
    if item == at.item { return Ignored; }
    var ret := AddQuery(at.to, at.index, item, count, noLimit, W);
    if ret != NoError { return Refused(ret); }
    var retMaxCount, maxQueryCount := MaxCountQuery(at.to, at.index, item, count, noLimit, W);
    if retMaxCount != NoError && maxQueryCount == 0 { return Refused(retMaxCount); }
    var m := if !item.typ.stackable || maxQueryCount < count then maxQueryCount else count;
    ret := RemoveQuery(from, item, m, W);
    if ret != NoError { return Refused(ret); }
    plan := Granted(at, m, if item.typ.stackable && maxQueryCount < count then retMaxCount else NoError);
  }

  /** Game::internalMoveItem between containers; `made` is the stack that was split off, if any. */
  method InternalMoveItem(from: Item, to: Item, index: int, item: Item, count: nat, noLimit: bool, ghost W: set<Item>)
    returns (ret: Ret, made: Item?)
    requires from in W && to in W && item in W && Sane(Snap(W)) && !to.typ.kind.Plain?
    modifies W
    ensures made != null ==> fresh(made)
    ensures var extra := if made == null then item else made;
      && MoveSpare(old(Snap(W)), from, to, index, item, count, noLimit, extra)
      && (ret, Snap(W + if made == null then {} else {made})) ==
         Move(old(Snap(W)), from, to, index, item, count, noLimit, extra)
  {
    hide PlanMove, Transfer;
    var plan := AskToMove(from, to, index, item, count, noLimit, W);
    assert W + {} == W;
    match plan {
      case Ignored => return NoError, null;
      case Refused(refusal) => return refusal, null;
      case Granted(at, m, partly) =>
        PlannedMove(Snap(W), from, to, index, item, count, noLimit);
        made := CarryOut(from, item, at, m, W);
        ret := partly;
    }
  }

  /** An item that is not merged goes in as it is. */
  method PutWhole(item: Item, at: Destination, m: nat, ghost W: set<Item>)
    requires item in W && Target(Snap(W), at, item) && Loose(Snap(W), item)
    requires item.typ.stackable ==> m == item.count && (at.item == null || at.item.typ != item.typ)
    modifies W
    ensures InsertSpare(old(Snap(W)), item, at, m, item) && Snap(W) == Insert(old(Snap(W)), item, at, m, item)
  {
    hide Sane;
    PutIn(at.to, at.index, item, W);
  }

  /** What is dropped on lies in the target container. */
  lemma MergeTarget(w: World, at: Destination, item: Item)
    requires Target(w, at, item) && at.item != null
    ensures Sane(w) && at.to in w && !w[at.to].typ.kind.Plain? && at.index < Capacity(w[at.to].typ.kind)
    ensures at.item in w && w[at.item].parent == at.to && at.to != item && at.item != item
  {
    assert Listed(w, at.to);
  }

  /** A stack goes onto the one it was dropped on, as far as there is room. */
  method PutOnto(item: Item, at: Destination, m: nat, ghost W: set<Item>) returns (made: Item?)
    requires item in W && Target(Snap(W), at, item) && Loose(Snap(W), item)
    requires item.typ.stackable && m == item.count && at.item != null && at.item.typ == item.typ
    modifies W
    ensures made != null ==> fresh(made)
    ensures var extra := if made == null then item else made;
      InsertSpare(old(Snap(W)), item, at, m, extra) &&
      Snap(W + if made == null then {} else {made}) == Insert(old(Snap(W)), item, at, m, extra)
  {
    MergeTarget(Snap(W), at, item);
    hide Target, Sane, ThingAt, IsContainer, InSub, RoomOnStack, Insert, InsertSpare, Stack, AddThing, SetCount, Merged;
    ghost var w := Snap(W);
    made := null;
    var fits := if RoomOnStack(at.item.count) < m then RoomOnStack(at.item.count) else m;
    InsertOnto(w, item, at, m, fits);
    if m > fits && m - fits == item.count {
      UpdateCount(at.item, at.item.count + fits, W);
      PutIn(at.to, at.index, item, W);
      assert W + {} == W;
    } else {
      made := PutStack(at.to, at.index, at.item, item, m, W);
      InsertRest(w, item, at, m, if made == null then item else made, fits);
    }
  }

  lemma InsertOnto(w: World, item: Item, at: Destination, m: nat, fits: nat)
    requires item in w && at.to in w && at.item != null && at.item in w && w[at.item].typ == w[item].typ
    requires w[item].typ.stackable && m == w[item].count
    requires fits == if RoomOnStack(w[at.item].count) < m then RoomOnStack(w[at.item].count) else m
    ensures at.to in SetCount(w, at.item, w[at.item].count + fits)
    ensures m > fits && m - fits == w[item].count ==>
      && InsertSpare(w, item, at, m, item)
      && Insert(w, item, at, m, item) == AddThing(SetCount(w, at.item, w[at.item].count + fits), at.to, at.index, item)
  {
  }

  lemma InsertRest(w: World, item: Item, at: Destination, m: nat, extra: Item, fits: nat)
    requires item in w && at.to in w && at.item != null && at.item in w && w[at.item].typ == w[item].typ
    requires w[item].typ.stackable && m == w[item].count
    requires fits == if RoomOnStack(w[at.item].count) < m then RoomOnStack(w[at.item].count) else m
    requires !(m > fits && m - fits == w[item].count) && (extra in w ==> m <= Merged(w, at.item, item, m))
    ensures InsertSpare(w, item, at, m, extra)
    ensures Insert(w, item, at, m, extra) == Stack(w, at.to, at.index, at.item, item, m, extra)
  {
  }

  /** The changes of internalAddItem once everything has been granted. */
  method PutDown(item: Item, at: Destination, m: nat, ghost W: set<Item>) returns (made: Item?)
    requires item in W && Target(Snap(W), at, item) && Loose(Snap(W), item)
    requires item.typ.stackable ==> m == item.count
    modifies W
    ensures made != null ==> fresh(made)
    ensures var extra := if made == null then item else made;
      InsertSpare(old(Snap(W)), item, at, m, extra) &&
      Snap(W + if made == null then {} else {made}) == Insert(old(Snap(W)), item, at, m, extra)
  {
    hide Insert, InsertSpare, Sane, Loose;
    made := null;
    assert W + {} == W;
    if item.typ.stackable && at.item != null && at.item.typ == item.typ {
      made := PutOnto(item, at, m, W);
    } else {
      PutWhole(item, at, m, W);
    }
  }

  /** The queries of internalAddItem. */
  method AskToAdd(to: Item, index: int, item: Item, noLimit: bool, ghost W: set<Item>) returns (plan: Plan)
    requires to in W && item in W && Sane(Snap(W)) && !to.typ.kind.Plain?
    ensures plan == PlanAdd(Snap(W), to, index, item, noLimit)
  {
    hide Listed, QueryAdd, QueryMaxCount;
    var at := DestinationOf(to, index, W);
    assert Listed(Snap(W), to);
    var ret := AddQuery(at.to, at.index, item, item.count, noLimit, W);
    if ret != NoError { return Refused(ret); }
    var maxQueryCount;
    ret, maxQueryCount := MaxCountQuery(at.to, at.index, item, item.count, noLimit, W);
    if ret != NoError { return Refused(ret); }
    var m := if !item.typ.stackable || maxQueryCount < item.count then maxQueryCount else item.count;
    plan := Granted(at, m, NoError);
  }

  /** Game::internalAddItem into a container; `made` is the stack that is left after a merge, if any. */
  method InternalAddItem(to: Item, index: int, item: Item, noLimit: bool, ghost W: set<Item>)
    returns (ret: Ret, made: Item?)
    requires to in W && item in W && Sane(Snap(W)) && !to.typ.kind.Plain? && Loose(Snap(W), item)
    modifies W
    ensures made != null ==> fresh(made)
    ensures var extra := if made == null then item else made;
      && AddSpare(old(Snap(W)), to, index, item, noLimit, extra)
      && (ret, Snap(W + if made == null then {} else {made})) == Add(old(Snap(W)), to, index, item, noLimit, extra)
  {
    hide PlanAdd, Insert, InsertSpare;
    var plan := AskToAdd(to, index, item, noLimit, W);
    assert W + {} == W;
    match plan {
      case Ignored => return NoError, null;
      case Refused(refusal) => return refusal, null;
      case Granted(at, m, granted) =>
        PlannedAdd(Snap(W), to, index, item, noLimit);
        made := PutDown(item, at, m, W);
        ret := granted;
    }
  }

  /** Game::internalRemoveItem; -1 stands for the whole item. */
  method InternalRemoveItem(item: Item, count: int, ghost W: set<Item>) returns (ret: Ret)
    requires item in W && Sane(Snap(W)) && count >= -0x8000_0000
    requires item.parent != null ==> item.parent in W
    modifies W
    ensures (ret, Snap(W)) == Remove(old(Snap(W)), item, count)
  {
    var cylinder := item.parent;
    if cylinder == null { return NotPossible; }
    var n := if count == -1 then item.count else if count < 0 then count + 0x1_0000_0000 else count;
    ret := RemoveQuery(cylinder, item, n, W);
    if ret != NoError && ret != NotMoveable { return; }
    if item.typ.kind.Depot? { return NotPossible; }
    NotOwnParent(Snap(W), item);
    TakeOut(cylinder, item, n, W);
    ret := NoError;
  }
}
