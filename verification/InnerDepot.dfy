/** A depot inside another container is not asked about what goes into a container inside it: an example. */
module InnerDepot {
  import opened ItemForest
  import opened ItemMoves
  import opened Cylinders
  import opened MoveSafety
  import opened DepotGrowth
  import opened DepotLimit
  import opened ItemRuns

  const BOX := ItemType(1, Container(10), false, true, true)
  const SMALL_DEPOT := ItemType(2, Depot(10, 1), false, true, true)
  const COAT := ItemType(3, Plain, false, true, true)

  predicate Distinct(hall: Item, depot: Item, bag: Item, chest: Item, coat: Item) {
    && hall !in {depot, bag, chest, coat} && depot !in {bag, chest, coat} && bag !in {chest, coat} && chest != coat
  }

  /** A bag in a depot for one item, in a hall; and a coat in a chest elsewhere. */
  function House(hall: Item, depot: Item, bag: Item, chest: Item, coat: Item): World {
    map[hall := Rec(BOX, null, [depot], 1), depot := Rec(SMALL_DEPOT, hall, [bag], 1), bag := Rec(BOX, depot, [], 1),
        chest := Rec(BOX, null, [coat], 1), coat := Rec(COAT, chest, [], 1)]
  }

  lemma HouseAncestors(hall: Item, depot: Item, bag: Item, chest: Item, coat: Item, a: Item)
    requires Distinct(hall, depot, bag, chest, coat)
    ensures var w := House(hall, depot, bag, chest, coat);
      && !Under(w, a, hall) && !Under(w, a, chest)
      && (Under(w, a, depot) <==> a == hall) && (Under(w, a, bag) <==> a == depot || a == hall)
      && (Under(w, a, coat) <==> a == chest)
  {
    var w := House(hall, depot, bag, chest, coat);
    UnderStep(w, a, hall);
    UnderStep(w, a, chest);
    UnderStep(w, a, depot);
    UnderStep(w, a, bag);
    UnderStep(w, a, coat);
  }

  // ---------------------------------------------------------------- how the house comes about

  function HouseOps(hall: Item, depot: Item, bag: Item, chest: Item, coat: Item): seq<Op> {
    [CreateItem(depot, SMALL_DEPOT, 1), CreateItem(bag, BOX, 1), AddItem(depot, WHEREEVER, bag, false, bag),
     CreateItem(hall, BOX, 1), AddItem(hall, WHEREEVER, depot, false, depot),
     CreateItem(chest, BOX, 1), CreateItem(coat, COAT, 1), AddItem(chest, WHEREEVER, coat, false, coat)]
  }

  /** ops, none of which lifts the limits, lead from nothing to v. */
  ghost predicate Built(ops: seq<Op>, v: World) {
    Sane(map[]) && Leads(map[], ops, v) && Sane(v) && forall op | op in ops :: !Unlimited(op)
  }

  lemma NothingBuilt()
    ensures Built([], map[])
  {
    var none: World := map[];
    assert EndsWithin(none, 0);
  }

  lemma Made(ops: seq<Op>, w: World, x: Item, typ: ItemType)
    requires Built(ops, w) && x !in w && !typ.stackable
    ensures Built(ops + [CreateItem(x, typ, 1)], w[x := Rec(typ, null, [], 1)])
  {
    LeadsMore(map[], ops, w, CreateItem(x, typ, 1));
  }

  /** An outermost container takes what is small enough for it. */
  lemma Added(ops: seq<Op>, w: World, c: Item, x: Item)
    requires Built(ops, w) && IsContainer(w, c) && w[c].parent == null && |w[c].items| < w[c].typ.kind.capacity
    requires Loose(w, x) && x != c && !w[x].typ.stackable && w[x].typ.pickupable
    requires w[c].typ.kind.Depot? ==> |Below(w, c)| + 1 + |Below(w, x)| <= w[c].typ.kind.limit
    ensures Built(ops + [AddItem(c, WHEREEVER, x, false, x)], Attach(w, c, x))
  {
    RootIsUnderNothing(w, x, c);
    forall t | IsTop(w, t, c) ensures t == c { RootIsUnderNothing(w, t, c); }
    assert QueryAdd(w, c, WHEREEVER, x, w[x].count, false) == NoError;
    assert PlanAdd(w, c, WHEREEVER, x, false).Granted?;
    LeadsMore(map[], ops, w, AddItem(c, WHEREEVER, x, false, x));
  }

  lemma Empty(w: World, x: Item)
    requires forall y | y in w :: w[y].parent == null
    ensures Below(w, x) == {}
  {
    forall y | y in w ensures !Under(w, x, y) { UnderStep(w, x, y); }
  }

  lemma FirstIn(w: World, c: Item, x: Item)
    requires c in w && x in w && c != x && w[c].items == []
    ensures Attach(w, c, x).Keys == w.Keys
    ensures forall y | y in w ::
      Attach(w, c, x)[y] == if y == c then w[c].(items := [x]) else if y == x then w[x].(parent := c) else w[y]
  {
    assert [x] + w[c].items == [x];
  }

  function BagInDepot(depot: Item, bag: Item): World {
    map[depot := Rec(SMALL_DEPOT, null, [bag], 1), bag := Rec(BOX, depot, [], 1)]
  }

  function DepotInHall(hall: Item, depot: Item, bag: Item): World {
    map[hall := Rec(BOX, null, [depot], 1), depot := Rec(SMALL_DEPOT, hall, [bag], 1), bag := Rec(BOX, depot, [], 1)]
  }

  function WithChest(w: World, chest: Item, coat: Item): World {
    var u: World := w[chest := Rec(BOX, null, [coat], 1)];
    u[coat := Rec(COAT, chest, [], 1)]
  }

  lemma DepotIsBuilt(depot: Item, bag: Item)
    requires depot != bag
    ensures Built([CreateItem(depot, SMALL_DEPOT, 1), CreateItem(bag, BOX, 1),
                   AddItem(depot, WHEREEVER, bag, false, bag)],
                  BagInDepot(depot, bag))
  {
    hide Built, Below, Attach;
    NothingBuilt();
    Made([], map[], depot, SMALL_DEPOT);
    var one: World := map[depot := Rec(SMALL_DEPOT, null, [], 1)];
    var first := CreateItem(depot, SMALL_DEPOT, 1);
    var none: World := map[];
    assert one == none[depot := Rec(SMALL_DEPOT, null, [], 1)] && [] + [first] == [first];
    Made([first], one, bag, BOX);
    var two: World := map[depot := Rec(SMALL_DEPOT, null, [], 1), bag := Rec(BOX, null, [], 1)];
    var second := CreateItem(bag, BOX, 1);
    assert two == one[bag := Rec(BOX, null, [], 1)] && [first] + [second] == [first, second];
    Empty(two, depot);
    Empty(two, bag);
    Added([first, second], two, depot, bag);
    var third := AddItem(depot, WHEREEVER, bag, false, bag);
    assert [first, second] + [third] == [first, second, third];
    FirstIn(two, depot, bag);
    assert Attach(two, depot, bag) == BagInDepot(depot, bag);
  }

  lemma HallIsBuilt(ops: seq<Op>, hall: Item, depot: Item, bag: Item)
    requires hall !in {depot, bag} && depot != bag
    requires Built(ops, BagInDepot(depot, bag))
    ensures Built(ops + [CreateItem(hall, BOX, 1)] + [AddItem(hall, WHEREEVER, depot, false, depot)],
                  DepotInHall(hall, depot, bag))
  {
    var w := BagInDepot(depot, bag);
    hide Built, Below, Attach;
    Made(ops, w, hall, BOX);
    var u := w[hall := Rec(BOX, null, [], 1)];
    Added(ops + [CreateItem(hall, BOX, 1)], u, hall, depot);
    FirstIn(u, hall, depot);
    assert Attach(u, hall, depot) == DepotInHall(hall, depot, bag);
  }

  lemma ChestIsBuilt(ops: seq<Op>, w: World, chest: Item, coat: Item)
    requires Built(ops, w) && chest !in w && coat !in w && chest != coat
    ensures Built(ops + [CreateItem(chest, BOX, 1)] + [CreateItem(coat, COAT, 1)]
                  + [AddItem(chest, WHEREEVER, coat, false, coat)],
                  WithChest(w, chest, coat))
  {
    hide Built, Below, Attach;
    Made(ops, w, chest, BOX);
    var u := w[chest := Rec(BOX, null, [], 1)];
    Made(ops + [CreateItem(chest, BOX, 1)], u, coat, COAT);
    var v := u[coat := Rec(COAT, null, [], 1)];
    Added(ops + [CreateItem(chest, BOX, 1)] + [CreateItem(coat, COAT, 1)], v, chest, coat);
    FirstIn(v, chest, coat);
    assert Attach(v, chest, coat) == WithChest(w, chest, coat);
  }

  /** The house can be built, piece by piece. */
  lemma HouseIsBuilt(hall: Item, depot: Item, bag: Item, chest: Item, coat: Item)
    requires Distinct(hall, depot, bag, chest, coat)
    ensures Built(HouseOps(hall, depot, bag, chest, coat), House(hall, depot, bag, chest, coat))
  {
    hide Built;
    DepotIsBuilt(depot, bag);
    var ops := [CreateItem(depot, SMALL_DEPOT, 1), CreateItem(bag, BOX, 1), AddItem(depot, WHEREEVER, bag, false, bag)];
    HallIsBuilt(ops, hall, depot, bag);
    var more := ops + [CreateItem(hall, BOX, 1)] + [AddItem(hall, WHEREEVER, depot, false, depot)];
    var w := DepotInHall(hall, depot, bag);
    ChestIsBuilt(more, w, chest, coat);
    assert House(hall, depot, bag, chest, coat) == WithChest(w, chest, coat);
    assert HouseOps(hall, depot, bag, chest, coat) ==
      more + [CreateItem(chest, BOX, 1)] + [CreateItem(coat, COAT, 1)] + [AddItem(chest, WHEREEVER, coat, false, coat)];
  }

  // ---------------------------------------------------------------- what happens in it

  lemma InTheHouse(hall: Item, depot: Item, bag: Item, chest: Item, coat: Item)
    requires Distinct(hall, depot, bag, chest, coat)
    ensures var w := House(hall, depot, bag, chest, coat);
      Sane(w) && Below(w, depot) == {bag} && Below(w, coat) == {} && InSub(w, depot, bag) && !Under(w, depot, coat)
  {
    HouseIsBuilt(hall, depot, bag, chest, coat);
    HouseAncestors(hall, depot, bag, chest, coat, depot);
    HouseAncestors(hall, depot, bag, chest, coat, coat);
  }

  lemma CoatIsGranted(hall: Item, depot: Item, bag: Item, chest: Item, coat: Item)
    requires Distinct(hall, depot, bag, chest, coat)
    ensures var w := House(hall, depot, bag, chest, coat);
      && Wired(w)
      && PlanMove(w, chest, bag, WHEREEVER, coat, 1, false) == Granted(Destination(bag, WHEREEVER, null), 10, NoError)
  {
    var w := House(hall, depot, bag, chest, coat);
    HouseIsBuilt(hall, depot, bag, chest, coat);
    HouseAncestors(hall, depot, bag, chest, coat, coat);
    hide Under, Sane;
    assert QueryDestination(w, bag, WHEREEVER) == Destination(bag, WHEREEVER, null);
    assert forall t | t in w :: IsTop(w, t, bag) ==> !w[t].typ.kind.Depot?;
    assert QueryAdd(w, bag, WHEREEVER, coat, 1, false) == NoError;
    assert w[chest].items[0] == coat;
    assert QueryRemove(w, chest, coat, 10) == NoError;
  }

  /** The coat may go into the bag, and the depot then holds two items where its limit is one. */
  lemma InnerDepotExceeded(hall: Item, depot: Item, bag: Item, chest: Item, coat: Item)
    requires Distinct(hall, depot, bag, chest, coat)
    ensures var w := House(hall, depot, bag, chest, coat);
      && Built(HouseOps(hall, depot, bag, chest, coat), w) && Within(w, depot) && !Asked(w, depot, bag)
      && var (ret, done) := Move(w, chest, bag, WHEREEVER, coat, 1, false, coat);
      ret == NoError && |Below(done, depot)| == 2 > w[depot].typ.kind.limit
  {
    hide Transfer, PlanMove, Sane, Built;
    var w := House(hall, depot, bag, chest, coat);
    HouseIsBuilt(hall, depot, bag, chest, coat);
    InTheHouse(hall, depot, bag, chest, coat);
    CoatIsGranted(hall, depot, bag, chest, coat);
    PlannedMove(w, chest, bag, WHEREEVER, coat, 1, false);
    TransferGrown(w, chest, coat, Destination(bag, WHEREEVER, null), 10, coat, depot);
  }
}
