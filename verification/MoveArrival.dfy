/** Where exactly a moved or added thing lies afterwards: at the front of the receiving container, or on the stack that
    it was dropped on. */
module MoveArrival {
  import opened ItemForest
  import opened ItemMoves
  import opened Cylinders
  import opened MoveSafety
  import opened MoveTargets
  import opened MoveAnswers

  /** Every other item is as before. */
  ghost predicate OthersSame(w: World, done: World, changed: set<Item?>) {
    forall x | x in w && x !in changed :: x in done && done[x] == w[x]
  }

  /** A thing that is no stack is taken out of its list and stands first in the receiving one. */
  lemma ThingArrives(w: World, from: Item, to: Item, index: int, item: Item, count: nat, noLimit: bool, extra: Item)
    requires Sane(w) && from in w && IsContainer(w, to) && item in w && !w[item].typ.stackable
    requires MoveSpare(w, from, to, index, item, count, noLimit, extra)
    ensures IsContainer(w, Receiver(w, to, index))
    ensures var c := Receiver(w, to, index);
      var done := Move(w, from, to, index, item, count, noLimit, extra).1;
      MayMove(w, from, c, AimedAt(w, to, index), item, count, noLimit) ==>
        && done.Keys == w.Keys && OthersSame(w, done, {item, c, from})
        && done[item] == w[item].(parent := c)
        && done[c].items == [item] + (if c == from then Without(w[c].items, item) else w[c].items)
        && (c != from ==> done[from].items == Without(w[from].items, item))
  {
    hide Receiver, AimedAt, MayMove, MoveSpare, PlanMove, Without;
    MoveIsGranted(w, from, to, index, item, count, noLimit);
    PlannedMove(w, from, to, index, item, count, noLimit);
    DestinationIs(w, to, index);
    if MayMove(w, from, Receiver(w, to, index), AimedAt(w, to, index), item, count, noLimit) {
      assert Listed(w, from);
      NotOwnParent(w, item);
    }
  }

  /** Of n pieces so many go onto the stack that they are dropped on; a stack never gets higher than 100. */
  function Onto(w: World, there: Item?, item: Item, n: nat): nat
    requires item in w
  {
    if there == null || there !in w || w[there].typ != w[item].typ || w[there].count > 100 then 0
    else if w[there].count + n <= 100 then n
    else 100 - w[there].count
  }

  /** n pieces of item have arrived in c: k of them on the stack that they were dropped on, the others as one new stack
      in front. */
  ghost predicate Landed(w: World, done: World, c: Item, there: Item?, typ: ItemType, n: nat, k: nat, extra: Item) {
    && (k > 0 ==> there != null && there in w && there in done && done[there] == w[there].(count := w[there].count + k))
    && (n > k ==> extra !in w && extra in done && done[extra] == Rec(typ, c, [], n - k))
    && c in done && (n > k ==> done[c].items != [] && done[c].items[0] == extra)
  }

  lemma OntoIs(w: World, c: Item, there: Item?, item: Item, n: nat)
    requires Sane(w) && item in w && w[item].typ.stackable && (there != null ==> there in w && w[there].parent != null)
    ensures Merged(w, there, item, n) == Onto(w, there, item, n)
  {
  }

  lemma StackLands(v: World, to: Item, index: int, there: Item?, item: Item, n: nat, extra: Item, done: World)
    requires to in v && item in v && index < Capacity(v[to].typ.kind) && Spare(v, there, item, n, extra)
    requires v[item].typ.stackable && n >= 1 && (there != null ==> there in v && v[there].parent == to)
    requires done == Stack(v, to, index, there, item, n, extra) && to != there && item != there
    ensures Landed(v, done, to, there, v[item].typ, n, Merged(v, there, item, n), extra)
    ensures OthersSame(v, done, {to, there}) && done[item].typ == v[item].typ
    ensures item != to ==> done[item] == v[item]
    ensures v.Keys <= done.Keys
  {
  }

  /** What is left where the pieces came from: a lower stack, or none. */
  ghost predicate Left(w: World, done: World, item: Item, n: nat)
    requires item in w
  {
    && item in done
    && if n < w[item].count then done[item] == w[item].(count := w[item].count - n)
       else done[item] == w[item].(parent := null)
  }

  lemma TakenLeaves(w: World, from: Item, item: Item, at: Destination, n: nat, v: World)
    requires Target(w, at, item) && from in w && item in w[from].items && w[item].typ.stackable
    requires 1 <= n <= w[item].count && v == RemoveThing(w, from, item, n)
    ensures v.Keys == w.Keys && OthersSame(w, v, {item, from}) && Left(w, v, item, n)
    ensures at.item != null ==> at.item in w && v[at.item] == w[at.item] && w[at.item].parent == at.to
    ensures item != at.to && at.to != at.item
  {
    assert Listed(w, from) && Listed(w, at.to);
    if w[item].parent != null { NotOwnParent(w, item); }
    if at.item != null { NotOwnParent(w, at.item); }
  }

  lemma TransferLands(w: World, from: Item, item: Item, at: Destination, n: nat, extra: Item, done: World)
    requires Target(w, at, item) && from in w && item in w[from].items && w[item].typ.stackable
    requires 1 <= n <= w[item].count && Spare(w, at.item, item, n, extra)
    requires done == Transfer(w, from, item, at, n, extra)
    ensures Landed(w, done, at.to, at.item, w[item].typ, n, Onto(w, at.item, item, n), extra)
    ensures Left(w, done, item, n) && OthersSame(w, done, {item, from, at.to, at.item})
  {
    hide Forest, Merged, Stack, RemoveThing, Onto, Landed;
    var v := RemoveThing(w, from, item, n);
    TakenLeaves(w, from, item, at, n, v);
    TargetAfterTaking(w, at, from, item, n, v);
    SameMerge(w, from, item, at, n, v);
    OntoIs(w, at.to, at.item, item, n);
    StackLands(v, at.to, at.index, at.item, item, n, extra, done);
    LandedBack(w, v, done, at.to, at.item, w[item].typ, n, Onto(w, at.item, item, n), extra);
  }

  lemma LandedBack(w: World, v: World, done: World, c: Item, there: Item?, typ: ItemType, n: nat, k: nat, extra: Item)
    requires Landed(v, done, c, there, typ, n, k, extra) && v.Keys == w.Keys
    requires there != null ==> there in w && v[there] == w[there]
    ensures Landed(w, done, c, there, typ, n, k, extra)
  {
  }

  /** Pieces of a stack go onto the stack that they are dropped on, up to 100, and the others become a new stack at the
      front. */
  lemma StackArrives(w: World, from: Item, to: Item, index: int, item: Item, count: nat, noLimit: bool, extra: Item)
    requires Sane(w) && from in w && IsContainer(w, to) && item in w && w[item].typ.stackable
    requires MoveSpare(w, from, to, index, item, count, noLimit, extra)
    ensures IsContainer(w, Receiver(w, to, index))
    ensures var (c, there) := (Receiver(w, to, index), AimedAt(w, to, index));
      var done := Move(w, from, to, index, item, count, noLimit, extra).1;
      var n := Fitting(Room(w, c, there, item), count, noLimit);
      MayMove(w, from, c, there, item, count, noLimit) ==>
        && Landed(w, done, c, there, w[item].typ, n, Onto(w, there, item, n), extra)
        && Left(w, done, item, n) && OthersSame(w, done, {item, from, c, there})
  {
    hide Receiver, AimedAt, MayMove, PlanMove, Transfer, Landed, Onto, Left, OthersSame, Spare, Room, Target;
    MoveIsGranted(w, from, to, index, item, count, noLimit);
    PlannedMove(w, from, to, index, item, count, noLimit);
    DestinationIs(w, to, index);
    var p := PlanMove(w, from, to, index, item, count, noLimit);
    if p.Granted? {
      TransferLands(w, from, item, p.at, p.m, extra, Transfer(w, from, item, p.at, p.m, extra));
    }
  }

  /** A new item is not split unless part of it is merged away: then the rest is a new stack. */
  ghost predicate Entered(w: World, done: World, c: Item, there: Item?, item: Item, extra: Item)
    requires item in w && c in w
  {
    var n := w[item].count;
    var k := if w[item].typ.stackable then Onto(w, there, item, n) else 0;
    if k == 0 then
      && item in done && done[item] == w[item].(parent := c)
      && c in done && done[c].items == [item] + w[c].items && OthersSame(w, done, {item, c})
    else Landed(w, done, c, there, w[item].typ, n, k, extra) && OthersSame(w, done, {c, there})
  }

  lemma InsertEnters(w: World, item: Item, at: Destination, m: nat, extra: Item)
    requires Target(w, at, item) && Loose(w, item) && InsertSpare(w, item, at, m, extra)
    requires w[item].typ.stackable ==> m == w[item].count
    ensures Entered(w, Insert(w, item, at, m, extra), at.to, at.item, item, extra)
  {
    hide Merged, Onto, Stack, Landed;
    assert Listed(w, at.to);
    if at.item != null { NotOwnParent(w, at.item); }
    if w[item].typ.stackable {
      OntoIs(w, at.to, at.item, item, m);
      if Onto(w, at.item, item, m) == 0 {
        NoMerge(w, at.item, item, m);
      } else {
        StackLands(w, at.to, at.index, at.item, item, m, extra, Insert(w, item, at, m, extra));
      }
    }
  }

  lemma NoMerge(w: World, there: Item?, item: Item, m: nat)
    requires item in w && Merged(w, there, item, m) == 0
    ensures AfterMerge(w, there, item, m) == w
  {
  }

  /** Where an added item lies. */
  lemma AddedArrives(w: World, to: Item, index: int, item: Item, noLimit: bool, extra: Item)
    requires Sane(w) && IsContainer(w, to) && Loose(w, item) && AddSpare(w, to, index, item, noLimit, extra)
    ensures IsContainer(w, Receiver(w, to, index))
    ensures var (c, there) := (Receiver(w, to, index), AimedAt(w, to, index));
      var done := Add(w, to, index, item, noLimit, extra).1;
      MayAdd(w, c, there, item, noLimit) ==> Entered(w, done, c, there, item, extra)
  {
    hide Receiver, AimedAt, MayAdd, PlanAdd, Insert, Entered, InsertSpare, Room, Target;
    AddIsGranted(w, to, index, item, noLimit);
    PlannedAdd(w, to, index, item, noLimit);
    DestinationIs(w, to, index);
    var p := PlanAdd(w, to, index, item, noLimit);
    if p.Granted? { InsertEnters(w, item, p.at, p.m, extra); }
  }
}
