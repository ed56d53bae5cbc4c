/** What a move, an addition and a removal have done when they return, for every number of a slot. */
module MoveResults {
  import opened ItemForest
  import opened Cylinders
  import opened ItemStock
  import opened MoveSafety
  import opened MoveTargets
  import opened MoveLaws
  import opened MoveAnswers

  /** n pieces of this type have left `from`, if there is one, and have arrived in `to`; no other stock has changed. */
  ghost predicate Carried(w: World, done: World, from: Item?, to: Item, typ: ItemType, n: nat) {
    forall d | d in w :: d in done && forall t :: CarriedAt(w, done, from, to, typ, n, d, t)
  }

  ghost predicate CarriedAt(w: World, done: World, from: Item?, to: Item, typ: ItemType, n: nat, d: Item, t: ItemType)
    requires d in w && d in done
  {
    Stock(done, d, t) + (if d == from && t == typ then n else 0) ==
    Stock(w, d, t) + if d == to && t == typ then n else 0
  }

  /** How many pieces a granted move takes along. */
  function Load(w: World, c: Item, there: Item?, item: Item, count: nat, noLimit: bool): nat
    requires IsContainer(w, c) && item in w
  {
    if w[item].typ.stackable then Fitting(Room(w, c, there, item), count, noLimit) else w[item].count
  }

  lemma GrantedCarries(w: World, from: Item, to: Item, index: int, item: Item, count: nat, noLimit: bool, extra: Item)
    requires Sane(w) && from in w && IsContainer(w, to) && item in w
    requires MoveSpare(w, from, to, index, item, count, noLimit, extra)
    ensures var p := PlanMove(w, from, to, index, item, count, noLimit);
      var done := Move(w, from, to, index, item, count, noLimit, extra).1;
      var n := if w[item].typ.stackable && p.Granted? then p.m else w[item].count;
      p.Granted? ==> Carried(w, done, from, Receiver(w, to, index), w[item].typ, n)
  {
    hide Stock, Receiver, Move, PlanMove, MoveSpare;
    var p := PlanMove(w, from, to, index, item, count, noLimit);
    var done := Move(w, from, to, index, item, count, noLimit, extra).1;
    var c := Receiver(w, to, index);
    if p.Granted? {
      var n := if w[item].typ.stackable then p.m else w[item].count;
      forall d | d in w ensures d in done && forall t :: CarriedAt(w, done, from, c, w[item].typ, n, d, t) {
        MoveConserves(w, from, to, index, item, count, noLimit, extra, d, w[item].typ);
        forall t ensures CarriedAt(w, done, from, c, w[item].typ, n, d, t) {
          MoveConserves(w, from, to, index, item, count, noLimit, extra, d, t);
        }
      }
    }
  }

  /** internalMoveItem carries as much as there is room for into the receiving container, and only if it may. It reports
      no error exactly if all of that was asked for, or the item was dropped on itself. */
  lemma MoveCarries(w: World, from: Item, to: Item, index: int, item: Item, count: nat, noLimit: bool, extra: Item)
    requires Sane(w) && from in w && IsContainer(w, to) && item in w
    requires MoveSpare(w, from, to, index, item, count, noLimit, extra)
    ensures IsContainer(w, Receiver(w, to, index))
    ensures var (ret, done) := Move(w, from, to, index, item, count, noLimit, extra);
      var (c, there) := (Receiver(w, to, index), AimedAt(w, to, index));
      && (if MayMove(w, from, c, there, item, count, noLimit)
          then Carried(w, done, from, c, w[item].typ, Load(w, c, there, item, count, noLimit))
          else done == w)
      && (ret == NoError <==>
            there == item ||
            (MayMove(w, from, c, there, item, count, noLimit) &&
             (w[item].typ.stackable ==> Load(w, c, there, item, count, noLimit) == count)))
  {
    hide Carried, MayMove, Receiver, AimedAt, Room, Transfer, MoveSpare;
    MoveIsGranted(w, from, to, index, item, count, noLimit);
    GrantedCarries(w, from, to, index, item, count, noLimit, extra);
  }

  /** internalAddItem brings in the whole item, into the receiving container, if it may, and otherwise nothing. */
  lemma AddCarries(w: World, to: Item, index: int, item: Item, noLimit: bool, extra: Item)
    requires Sane(w) && IsContainer(w, to) && Loose(w, item) && AddSpare(w, to, index, item, noLimit, extra)
    ensures IsContainer(w, Receiver(w, to, index))
    ensures var (ret, done) := Add(w, to, index, item, noLimit, extra);
      var (c, there) := (Receiver(w, to, index), AimedAt(w, to, index));
      && (ret == NoError <==> MayAdd(w, c, there, item, noLimit))
      && (if ret == NoError then Carried(w, done, null, c, w[item].typ, w[item].count) else done == w)
  {
    hide Stock, MayAdd, Receiver, AimedAt, Room, Insert, AddSpare;
    AddIsGranted(w, to, index, item, noLimit);
    var (ret, done) := Add(w, to, index, item, noLimit, extra);
    var c := Receiver(w, to, index);
    if ret == NoError {
      forall d | d in w
        ensures d in done && forall t :: CarriedAt(w, done, null, c, w[item].typ, w[item].count, d, t)
      {
        AddConserves(w, to, index, item, noLimit, extra, d, w[item].typ);
        forall t ensures CarriedAt(w, done, null, c, w[item].typ, w[item].count, d, t) {
          AddConserves(w, to, index, item, noLimit, extra, d, t);
        }
      }
    }
  }

  // ---------------------------------------------------------------- slot by slot

  /** How many pieces were asked for: a thing that is no stack moves as a whole. */
  function Wanted(w: World, item: Item, count: nat): nat
    requires item in w
  {
    if w[item].typ.stackable then count else w[item].count
  }

  /** Onto the number of a container in the list: into that container. */
  lemma MovedIntoBag(w: World, from: Item, to: Item, index: int, item: Item, count: nat, noLimit: bool, extra: Item)
    requires Sane(w) && from in w && IsContainer(w, to) && item in w
    requires MoveSpare(w, from, to, index, item, count, noLimit, extra)
    requires index != 254 && index != 255
    requires 0 <= index < |w[to].items| && index < w[to].typ.kind.capacity && IsContainer(w, w[to].items[index])
    ensures var (ret, done) := Move(w, from, to, index, item, count, noLimit, extra);
      ret == NoError ==> Carried(w, done, from, w[to].items[index], w[item].typ, Wanted(w, item, count))
  {
    hide Move, MayMove, Carried;
    MoveCarries(w, from, to, index, item, count, noLimit, extra);
  }

  /** Onto 254: into the parent if that is a container, and otherwise into the container itself. */
  lemma MovedUp(w: World, from: Item, to: Item, item: Item, count: nat, noLimit: bool, extra: Item)
    requires Sane(w) && from in w && IsContainer(w, to) && item in w
    requires MoveSpare(w, from, to, 254, item, count, noLimit, extra)
    ensures var (ret, done) := Move(w, from, to, 254, item, count, noLimit, extra);
      var c := if IsContainer(w, w[to].parent) then w[to].parent else to;
      ret == NoError ==> Carried(w, done, from, c, w[item].typ, Wanted(w, item, count))
  {
    hide Move, MayMove, Carried;
    MoveCarries(w, from, to, 254, item, count, noLimit, extra);
  }

  /** No container under this number. */
  predicate NoBagThere(w: World, to: Item, index: int)
    requires IsContainer(w, to)
  {
    && index != 254
    && (0 <= index < |w[to].items| && index != 255 && index < w[to].typ.kind.capacity ==>
          !IsContainer(w, w[to].items[index]))
  }

  /** Onto 255, a number from the capacity up, an empty slot or a plain thing: into the container itself. */
  lemma MovedBeside(w: World, from: Item, to: Item, index: int, item: Item, count: nat, noLimit: bool, extra: Item)
    requires Sane(w) && from in w && IsContainer(w, to) && item in w
    requires MoveSpare(w, from, to, index, item, count, noLimit, extra)
    requires NoBagThere(w, to, index)
    requires 0 <= index < |w[to].items| ==> w[to].items[index] != item
    ensures var (ret, done) := Move(w, from, to, index, item, count, noLimit, extra);
      ret == NoError ==> Carried(w, done, from, to, w[item].typ, Wanted(w, item, count))
  {
    hide Move, MayMove, Carried;
    MoveCarries(w, from, to, index, item, count, noLimit, extra);
  }

  lemma AddedIntoBag(w: World, to: Item, index: int, item: Item, noLimit: bool, extra: Item)
    requires Sane(w) && IsContainer(w, to) && Loose(w, item) && AddSpare(w, to, index, item, noLimit, extra)
    requires index != 254 && index != 255
    requires 0 <= index < |w[to].items| && index < w[to].typ.kind.capacity && IsContainer(w, w[to].items[index])
    ensures var (ret, done) := Add(w, to, index, item, noLimit, extra);
      ret == NoError ==> Carried(w, done, null, w[to].items[index], w[item].typ, w[item].count)
  {
    hide Add, MayAdd, Carried;
    AddCarries(w, to, index, item, noLimit, extra);
  }

  lemma AddedUp(w: World, to: Item, item: Item, noLimit: bool, extra: Item)
    requires Sane(w) && IsContainer(w, to) && Loose(w, item) && AddSpare(w, to, 254, item, noLimit, extra)
    ensures var (ret, done) := Add(w, to, 254, item, noLimit, extra);
      var c := if IsContainer(w, w[to].parent) then w[to].parent else to;
      ret == NoError ==> Carried(w, done, null, c, w[item].typ, w[item].count)
  {
    hide Add, MayAdd, Carried;
    AddCarries(w, to, 254, item, noLimit, extra);
  }

  lemma AddedBeside(w: World, to: Item, index: int, item: Item, noLimit: bool, extra: Item)
    requires Sane(w) && IsContainer(w, to) && Loose(w, item) && AddSpare(w, to, index, item, noLimit, extra)
    requires NoBagThere(w, to, index)
    ensures var (ret, done) := Add(w, to, index, item, noLimit, extra);
      ret == NoError ==> Carried(w, done, null, to, w[item].typ, w[item].count)
  {
    hide Add, MayAdd, Carried;
    AddCarries(w, to, index, item, noLimit, extra);
  }

  // ---------------------------------------------------------------- reasons

  /** Every refusal of a move gives a reason that is the case, and changes nothing. */
  lemma MoveRefused(w: World, from: Item, to: Item, index: int, item: Item, count: nat, noLimit: bool, extra: Item)
    requires Sane(w) && from in w && IsContainer(w, to) && item in w
    requires PlanMove(w, from, to, index, item, count, noLimit).Refused?
    ensures IsContainer(w, Receiver(w, to, index))
    ensures var (ret, done) := Move(w, from, to, index, item, count, noLimit, extra);
      var (c, there) := (Receiver(w, to, index), AimedAt(w, to, index));
      && ret != NoError && done == w
      && (ret == DepotIsFull ==>
            !noLimit && exists d | d in w :: Concerned(w, d, c) && !DepotTakes(w, d, item, count))
      && (ret == CannotPickup ==> !w[item].typ.pickupable)
      && (ret == ThisIsImpossible ==> item == c || Under(w, item, c))
      && (ret == ContainerNotEnoughRoom ==> !noLimit && Room(w, c, there, item) == 0)
      && (ret == NotMoveable ==> !w[item].typ.moveable && item in w[from].items)
      && (ret == NotPossible ==>
           item !in w[from].items ||
           (w[item].typ.stackable && !(1 <= Fitting(Room(w, c, there, item), count, noLimit) <= w[item].count)))
  {
    hide QueryDestination, Receiver, AimedAt, Room, QueryMaxCount, Sane, DepotRefuses, DepotTakes, Concerned, IsTop;
    ReceiverIn(w, to, index);
    DestinationIs(w, to, index);
    var at := QueryDestination(w, to, index);
    if !noLimit {
      DepotsAsked(w, at.to, item, count);
      if |w[at.to].items| >= w[at.to].typ.kind.capacity { FullIsFull(w, at.to, at.item, item); }
    } else {
      forall d | d in w ensures !DepotRefuses(w, d, item, count, true) { NoLimitNoRefusal(w, d, item, count); }
    }
    RoomQuery(w, at.to, at.index, item, count, noLimit);
  }

  /** internalRemoveItem takes away what lies in a container, moveable or not, if it is no depot and there are so
      many. */
  lemma RemoveIsGranted(w: World, item: Item, count: int)
    requires Sane(w) && item in w && count >= -0x8000_0000
    ensures w[item].parent != null ==> w[item].parent in w
    ensures var (ret, done) := Remove(w, item, count);
      var n := if count == -1 then w[item].count else if count < 0 then count + 0x1_0000_0000 else count;
      && (ret == NoError <==>
            w[item].parent != null && n > 0 && (w[item].typ.stackable ==> n <= w[item].count) &&
            !w[item].typ.kind.Depot?)
      && (ret != NoError ==> ret == NotPossible && done == w)
  {
  }
}
