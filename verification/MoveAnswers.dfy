/** What moving, adding and removing are allowed to do, said apart from the queries, and that they do just that. */
module MoveAnswers {
  import opened ItemForest
  import opened Cylinders
  import opened MoveSafety
  import opened MoveTargets

  // ---------------------------------------------------------------- the rules

  /** How many pieces of a stack, or how many other items, there is room for in c, where a stack is put onto `there`. */
  function Room(w: World, c: Item, there: Item?, item: Item): nat
    requires IsContainer(w, c) && item in w
  {
    var slots := if |w[c].items| < w[c].typ.kind.capacity then w[c].typ.kind.capacity - |w[c].items| else 0;
    if !w[item].typ.stackable then slots
    else
      var onto := there != null && there in w && w[there].typ == w[item].typ && w[there].count <= 100;
      slots * 100 + if onto then 100 - w[there].count else 0
  }

  /** d is c or the outermost container around it. */
  ghost predicate Concerned(w: World, d: Item, c: Item) {
    d in w && (d == c || (w[d].parent == null && Under(w, d, c)))
  }

  /** A depot takes an item with everything in it if all of that stays within its limit. Of a stack from inside, a part
      becomes a new stack. */
  ghost predicate DepotTakes(w: World, d: Item, item: Item, count: nat)
    requires d in w && item in w
  {
    var fromInside := w[d].parent == null && (d == item || Under(w, d, item));
    var more := if !fromInside then 1 + |Below(w, item)|
      else if w[item].typ.stackable && count != w[item].count then 1 else 0;
    w[d].typ.kind.Depot? ==> |Below(w, d)| + more <= w[d].typ.kind.limit
  }

  ghost predicate MayEnter(w: World, c: Item, item: Item, count: nat, noLimit: bool)
    requires item in w
  {
    && w[item].typ.pickupable && item != c && !Under(w, item, c)
    && (noLimit || forall d | d in w :: Concerned(w, d, c) ==> DepotTakes(w, d, item, count))
  }

  /** As many pieces of a stack as there is room for go in. */
  function Fitting(room: nat, count: nat, noLimit: bool): nat {
    if noLimit || count <= room then count else room
  }

  ghost predicate MayMove(w: World, from: Item, c: Item, there: Item?, item: Item, count: nat, noLimit: bool)
    requires from in w && IsContainer(w, c) && item in w
  {
    && item != there && MayEnter(w, c, item, count, noLimit)
    && (noLimit || Room(w, c, there, item) > 0)
    && item in w[from].items && w[item].typ.moveable
    && (w[item].typ.stackable ==> 1 <= Fitting(Room(w, c, there, item), count, noLimit) <= w[item].count)
  }

  ghost predicate MayAdd(w: World, c: Item, there: Item?, item: Item, noLimit: bool)
    requires IsContainer(w, c) && item in w
  {
    && MayEnter(w, c, item, w[item].count, noLimit)
    && (noLimit || Room(w, c, there, item) >= if w[item].typ.stackable then w[item].count else 1)
  }

  // ---------------------------------------------------------------- the queries follow them

  /** The question is put to c and to the outermost container around it. */
  lemma DepotsAsked(w: World, c: Item, item: Item, count: nat)
    requires c in w && item in w
    ensures (DepotRefuses(w, c, item, count, false) ||
             exists t | t in w :: IsTop(w, t, c) && DepotRefuses(w, t, item, count, false)) <==>
            exists d | d in w :: Concerned(w, d, c) && !DepotTakes(w, d, item, count)
  {
    forall d | d in w ensures DepotRefuses(w, d, item, count, false) <==> !DepotTakes(w, d, item, count) {}
    forall d | d in w ensures Concerned(w, d, c) <==> d == c || IsTop(w, d, c) {}
    if DepotRefuses(w, c, item, count, false) { assert Concerned(w, c, c) && !DepotTakes(w, c, item, count); }
  }

  lemma EntryQuery(w: World, c: Item, index: int, item: Item, count: nat, noLimit: bool)
    requires Sane(w) && IsContainer(w, c) && item in w
    ensures var answer := QueryAdd(w, c, index, item, count, noLimit);
      answer == NoError <==>
        MayEnter(w, c, item, count, noLimit) && (index == -1 && !noLimit ==> |w[c].items| < w[c].typ.kind.capacity)
  {
    hide DepotRefuses, DepotTakes, Concerned, IsTop;
    if !noLimit {
      DepotsAsked(w, c, item, count);
    } else {
      forall d | d in w ensures !DepotRefuses(w, d, item, count, true) { NoLimitNoRefusal(w, d, item, count); }
    }
  }

  lemma NoLimitNoRefusal(w: World, d: Item, item: Item, count: nat)
    requires d in w && item in w
    ensures !DepotRefuses(w, d, item, count, true)
  {
  }

  lemma RoomQuery(w: World, c: Item, index: int, item: Item, count: nat, noLimit: bool)
    requires Sane(w) && IsContainer(w, c) && item in w
    ensures var (answer, most) := QueryMaxCount(w, c, index, item, count, noLimit);
      && most == (if noLimit then if count > 1 then count else 1 else Room(w, c, ThingAt(w, c, index), item))
      && (answer == NoError <==> noLimit || most >= if w[item].typ.stackable then count else 1)
      && (answer == NoError || answer == ContainerNotEnoughRoom)
  {
    assert Listed(w, c);
  }

  lemma FullIsFull(w: World, c: Item, there: Item?, item: Item)
    requires IsContainer(w, c) && item in w && |w[c].items| >= w[c].typ.kind.capacity
    ensures there == null || !w[item].typ.stackable ==> Room(w, c, there, item) == 0
  {
  }

  /** internalMoveItem grants exactly what may be moved, and moves as many pieces as there is room for. */
  lemma MoveIsGranted(w: World, from: Item, to: Item, index: int, item: Item, count: nat, noLimit: bool)
    requires Sane(w) && from in w && IsContainer(w, to) && item in w
    ensures IsContainer(w, Receiver(w, to, index))
    ensures var p := PlanMove(w, from, to, index, item, count, noLimit);
      var (c, there) := (Receiver(w, to, index), AimedAt(w, to, index));
      && (p.Ignored? <==> there == item)
      && (p.Granted? <==> MayMove(w, from, c, there, item, count, noLimit))
      && (p.Granted? && w[item].typ.stackable ==>
           && p.m == Fitting(Room(w, c, there, item), count, noLimit)
           && p.ret == if p.m == count then NoError else ContainerNotEnoughRoom)
      && (p.Granted? && !w[item].typ.stackable ==> p.ret == NoError)
  {
    hide QueryDestination, QueryAdd, MayEnter, Receiver, AimedAt, Room, QueryMaxCount, Sane;
    ReceiverIn(w, to, index);
    DestinationIs(w, to, index);
    var at := QueryDestination(w, to, index);
    EntryQuery(w, at.to, at.index, item, count, noLimit);
    RoomQuery(w, at.to, at.index, item, count, noLimit);
    if !noLimit && |w[at.to].items| >= w[at.to].typ.kind.capacity { FullIsFull(w, at.to, at.item, item); }
  }

  lemma AddIsGranted(w: World, to: Item, index: int, item: Item, noLimit: bool)
    requires Sane(w) && IsContainer(w, to) && Loose(w, item)
    ensures IsContainer(w, Receiver(w, to, index))
    ensures var (c, there) := (Receiver(w, to, index), AimedAt(w, to, index));
      PlanAdd(w, to, index, item, noLimit).Granted? <==> MayAdd(w, c, there, item, noLimit)
  {
    hide QueryDestination, QueryAdd, MayEnter, Receiver, AimedAt, Room, QueryMaxCount, Sane;
    ReceiverIn(w, to, index);
    DestinationIs(w, to, index);
    var at := QueryDestination(w, to, index);
    EntryQuery(w, at.to, at.index, item, w[item].count, noLimit);
    RoomQuery(w, at.to, at.index, item, w[item].count, noLimit);
    if !noLimit && |w[at.to].items| >= w[at.to].typ.kind.capacity { FullIsFull(w, at.to, at.item, item); }
  }
}
