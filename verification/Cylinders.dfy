/** What containers and depots answer to queries, and what moving, adding and removing do to the world. */
module Cylinders {
  import opened ItemForest
  import opened ItemMoves

  datatype Ret =
    | NoError | NotPossible | CannotPickup | ThisIsImpossible
    | ContainerNotEnoughRoom | NotMoveable | DepotIsFull

  const WHEREEVER := -1
  const MOVE_UP := 254
  const ADD_WHEREVER := 255
  const STACK_MAX := 100

  predicate IsContainer(w: World, x: Item?) {
    x != null && x in w && !w[x].typ.kind.Plain?
  }

  function Capacity(k: Kind): nat {
    if k.Plain? then 0 else k.capacity
  }

  /** Stackable items are plain, and a stack in a container holds 1 to 100. */
  ghost predicate Sane(w: World) {
    && Forest(w)
    && (forall x | x in w :: w[x].typ.stackable ==> w[x].typ.kind.Plain?)
    && (forall x | x in w && w[x].parent != null && w[x].typ.stackable :: 1 <= w[x].count <= STACK_MAX)
  }

  // ---------------------------------------------------------------- queries

  datatype Destination = Destination(to: Item, index: int, item: Item?)

  function ThingAt(w: World, c: Item, index: int): Item?
    requires c in w
  {
    if 0 <= index < |w[c].items| then w[c].items[index] else null
  }

  function QueryDestination(w: World, c: Item, index: int): Destination
    requires c in w
  {
    if index == MOVE_UP then
      Destination(if IsContainer(w, w[c].parent) then w[c].parent else c, WHEREEVER, null)
    else if index == ADD_WHEREVER then Destination(c, WHEREEVER, null)
    else
      var slot := if index >= Capacity(w[c].typ.kind) then WHEREEVER else index;
      var thing := if slot == WHEREEVER then null else ThingAt(w, c, slot);
      if IsContainer(w, thing) then Destination(thing, WHEREEVER, null) else Destination(c, slot, thing)
  }

  /** t is the outermost container on the parent chain of x. */
  ghost predicate IsTop(w: World, t: Item, x: Item) {
    t in w && w[t].parent == null && InSub(w, t, x)
  }

  ghost predicate OverLimit(w: World, d: Item, item: Item, count: nat)
    requires d in w && item in w && w[d].typ.kind.Depot?
  {
    var adds :=
      if !IsTop(w, d, item) then 1 + |Below(w, item)|
      else if w[item].typ.stackable && w[item].count != count then 1 else 0;
    |Below(w, d)| + adds > w[d].typ.kind.limit
  }

  /** Depot::__queryAdd on d, or on any other container, for its recursive limit only. */
  ghost predicate DepotRefuses(w: World, d: Item, item: Item, count: nat, noLimit: bool)
    requires d in w && item in w
  {
    !noLimit && w[d].typ.kind.Depot? && OverLimit(w, d, item, count)
  }

  /** Depot::__queryAdd and Container::__queryAdd on c, including the question passed on to the outermost container. */
  ghost function QueryAdd(w: World, c: Item, index: int, item: Item, count: nat, noLimit: bool): Ret
    requires c in w && item in w
  {
    if DepotRefuses(w, c, item, count, noLimit) then DepotIsFull
    else if !w[item].typ.pickupable then CannotPickup
    else if InSub(w, item, c) then ThisIsImpossible
    else if index == WHEREEVER && !noLimit && |w[c].items| >= Capacity(w[c].typ.kind) then ContainerNotEnoughRoom
    else if exists t | t in w :: IsTop(w, t, c) && DepotRefuses(w, t, item, count, noLimit) then DepotIsFull
    else NoError
  }

  /** 100 - n on uint32 */
  function RoomOnStack(n: nat): nat {
    if n <= STACK_MAX then STACK_MAX - n else (STACK_MAX - n) % 0x1_0000_0000
  }

  function QueryMaxCount(w: World, c: Item, index: int, item: Item, count: nat, noLimit: bool): (Ret, nat)
    requires c in w && item in w
  {
    if noLimit then (NoError, if count > 1 then count else 1)
    else
      var capacity := Capacity(w[c].typ.kind);
      var freeSlots := if |w[c].items| < capacity then capacity - |w[c].items| else 0;
      if w[item].typ.stackable then
        var there := if index != WHEREEVER then ThingAt(w, c, index) else null;
        var n := if there != null && there in w && w[there].typ == w[item].typ then RoomOnStack(w[there].count) else 0;
        var most := freeSlots * STACK_MAX + n;
        (if most < count then ContainerNotEnoughRoom else NoError, most)
      else (if freeSlots == 0 then ContainerNotEnoughRoom else NoError, freeSlots)
  }

  function QueryRemove(w: World, c: Item, item: Item, count: nat): Ret
    requires c in w && item in w
  {
    if item !in w[c].items then NotPossible
    else if count == 0 || (w[item].typ.stackable && count > w[item].count) then NotPossible
    else if !w[item].typ.moveable then NotMoveable
    else NoError
  }

  // ---------------------------------------------------------------- changes

  function AddThing(w: World, c: Item, index: int, x: Item): World
    requires c in w && x in w
  {
    if index >= Capacity(w[c].typ.kind) then w else Attach(w, c, x)
  }

  function RemoveThing(w: World, c: Item, x: Item, count: nat): World
    requires c in w && x in w
  {
    if x !in w[c].items then w
    else if w[x].typ.stackable && count != w[x].count then
      SetCount(w, x, if count < w[x].count then w[x].count - count else 0)
    else if w[x].parent == null || w[x].parent !in w then w
    else Detach(w, x)
  }

  /** How much of m goes onto the stack toItem. */
  function Merged(w: World, toItem: Item?, x: Item, m: nat): nat
    requires x in w
  {
    if toItem != null && toItem in w && w[toItem].typ == w[x].typ then
      if RoomOnStack(w[toItem].count) < m then RoomOnStack(w[toItem].count) else m
    else 0
  }

  /** extra is a new object whenever putting down m pieces of x takes a new stack. */
  predicate Spare(w: World, toItem: Item?, x: Item, m: nat, extra: Item)
    requires x in w
  {
    w[x].typ.stackable && m > Merged(w, toItem, x, m) ==> extra !in w
  }

  function AfterMerge(w: World, toItem: Item?, x: Item, m: nat): World
    requires x in w
  {
    if toItem != null && toItem in w && w[toItem].typ == w[x].typ then
      SetCount(w, toItem, w[toItem].count + Merged(w, toItem, x, m))
    else w
  }

  /** Of m pieces of x, those that do not fit onto toItem become the new stack `extra` in `to`. */
  function Stack(w: World, to: Item, index: int, toItem: Item?, x: Item, m: nat, extra: Item): World
    requires to in w && x in w
  {
    var n := Merged(w, toItem, x, m);
    var v := AfterMerge(w, toItem, x, m);
    if m > n then AddThing(Create(v, extra, w[x].typ, m - n), to, index, extra) else v
  }

  // ---------------------------------------------------------------- internalMoveItem

  datatype Plan = Refused(ret: Ret) | Ignored | Granted(at: Destination, m: nat, ret: Ret)

  ghost function PlanMove(w: World, from: Item, to: Item, index: int, item: Item, count: nat, noLimit: bool): Plan
    requires Wired(w) && from in w && to in w && item in w
  {
    var at := QueryDestination(w, to, index);
    if at.item == item then Ignored
    else
      var add := QueryAdd(w, at.to, at.index, item, count, noLimit);
      var (room, most) := QueryMaxCount(w, at.to, at.index, item, count, noLimit);
      var m := if !w[item].typ.stackable || most < count then most else count;
      var remove := QueryRemove(w, from, item, m);
      if add != NoError then Refused(add)
      else if room != NoError && most == 0 then Refused(room)
      else if remove != NoError then Refused(remove)
      else Granted(at, m, if w[item].typ.stackable && most < count then room else NoError)
  }

  function Transfer(w: World, from: Item, item: Item, at: Destination, m: nat, extra: Item): World
    requires from in w && item in w && at.to in w
  {
    var v := RemoveThing(w, from, item, m);
    if w[item].typ.stackable then Stack(v, at.to, at.index, at.item, item, m, extra)
    else AddThing(v, at.to, at.index, item)
  }

  /** `extra` stands for the object that CreateItem allocates when a stack is split. */
  ghost function Move(w: World, from: Item, to: Item, index: int, item: Item, count: nat, noLimit: bool, extra: Item)
    : (r: (Ret, World))
    requires Wired(w) && from in w && to in w && item in w
  {
    match PlanMove(w, from, to, index, item, count, noLimit)
    case Refused(ret) => (ret, w)
    case Ignored => (NoError, w)
    case Granted(at, m, ret) => (ret, Transfer(w, from, item, at, m, extra))
  }

  /** extra is a new object whenever the move splits a stack. */
  ghost predicate MoveSpare(w: World, from: Item, to: Item, index: int, item: Item, count: nat, noLimit: bool,
                            extra: Item)
    requires Wired(w) && from in w && to in w && item in w
  {
    var p := PlanMove(w, from, to, index, item, count, noLimit);
    p.Granted? ==> Spare(w, p.at.item, item, p.m, extra)
  }

  // ---------------------------------------------------------------- internalAddItem, internalRemoveItem

  ghost function PlanAdd(w: World, to: Item, index: int, item: Item, noLimit: bool): Plan
    requires Wired(w) && to in w && item in w
  {
    var at := QueryDestination(w, to, index);
    var add := QueryAdd(w, at.to, at.index, item, w[item].count, noLimit);
    var (room, most) := QueryMaxCount(w, at.to, at.index, item, w[item].count, noLimit);
    var m := if !w[item].typ.stackable || most < w[item].count then most else w[item].count;
    if add != NoError then Refused(add)
    else if room != NoError then Refused(room)
    else Granted(at, m, NoError)
  }

  /** Unlike a move, an insertion keeps the object when nothing was merged away. */
  function Insert(w: World, item: Item, at: Destination, m: nat, extra: Item): World
    requires item in w && at.to in w
  {
    if !w[item].typ.stackable then AddThing(w, at.to, at.index, item)
    else
      var n := Merged(w, at.item, item, m);
      if m > n && m - n == w[item].count then AddThing(AfterMerge(w, at.item, item, m), at.to, at.index, item)
      else Stack(w, at.to, at.index, at.item, item, m, extra)
  }

  /** extra is a new object whenever an insertion merges part of the item away. */
  predicate InsertSpare(w: World, item: Item, at: Destination, m: nat, extra: Item)
    requires item in w
  {
    m - Merged(w, at.item, item, m) != w[item].count ==> Spare(w, at.item, item, m, extra)
  }

  ghost predicate AddSpare(w: World, to: Item, index: int, item: Item, noLimit: bool, extra: Item)
    requires Wired(w) && to in w && item in w
  {
    var p := PlanAdd(w, to, index, item, noLimit);
    p.Granted? ==> InsertSpare(w, item, p.at, p.m, extra)
  }

  ghost function Add(w: World, to: Item, index: int, item: Item, noLimit: bool, extra: Item): (r: (Ret, World))
    requires Wired(w) && to in w && item in w
  {
    match PlanAdd(w, to, index, item, noLimit)
    case Granted(at, m, ret) => (ret, Insert(w, item, at, m, extra))
    case Refused(ret) => (ret, w)
    case Ignored => (NoError, w)
  }

  /** count == -1 stands for all; other negative counts are read as uint32. */
  function Remove(w: World, item: Item, count: int): (r: (Ret, World))
    requires item in w && (w[item].parent != null ==> w[item].parent in w) && count >= -0x8000_0000
  {
    var c := w[item].parent;
    if c == null then (NotPossible, w)
    else
      var n := if count == -1 then w[item].count else if count < 0 then count + 0x1_0000_0000 else count;
      var ret := QueryRemove(w, c, item, n);
      if ret != NoError && ret != NotMoveable then (ret, w)
      else if w[item].typ.kind.Depot? then (NotPossible, w)
      else (NoError, RemoveThing(w, c, item, n))
  }
}
