/** Conservation over whole runs: how many pieces of a type all containers hold together. */
module RunTotals {
  import opened ItemForest
  import opened ItemMoves
  import opened ItemStock
  import opened Cylinders
  import opened MoveSafety
  import opened MoveLaws
  import opened SlotLimit
  import opened ItemRuns

  ghost function HeldIn(w: World, s: set<Item>, t: ItemType): nat
    requires s <= w.Keys
  {
    if s == {} then 0
    else
      var x :| x in s;
      Stock(w, x, t) + HeldIn(w, s - {x}, t)
  }

  lemma {:induction false} HeldPick(w: World, s: set<Item>, t: ItemType, x: Item)
    requires s <= w.Keys && x in s
    ensures HeldIn(w, s, t) == Stock(w, x, t) + HeldIn(w, s - {x}, t)
    decreases |s|
  {
    hide Stock;
    var y :| y in s && HeldIn(w, s, t) == Stock(w, y, t) + HeldIn(w, s - {y}, t);
    if x != y {
      HeldPick(w, s - {y}, t, x);
      HeldPick(w, s - {x}, t, y);
      assert s - {y} - {x} == s - {x} - {y};
    }
  }

  /** What everything in the world holds directly, taken together. */
  ghost function Held(w: World, t: ItemType): nat {
    HeldIn(w, w.Keys, t)
  }

  /** a pieces leave `from` and b arrive at `to`; no other stock changes. */
  ghost predicate Shifts(w: World, v: World, t: ItemType, d: Item, from: Item?, a: nat, to: Item?, b: nat) {
    d in w && d in v &&
    Stock(v, d, t) + (if d == from then a else 0) == Stock(w, d, t) + if d == to then b else 0
  }

  lemma {:induction false} HeldShifts(w: World, v: World, s: set<Item>, t: ItemType, from: Item?, a: nat, to: Item?,
                                      b: nat)
    requires s <= w.Keys && s <= v.Keys && forall d | d in s :: Shifts(w, v, t, d, from, a, to, b)
    ensures HeldIn(v, s, t) + (if from in s then a else 0) == HeldIn(w, s, t) + if to in s then b else 0
    decreases |s|
  {
    hide Stock;
    if s != {} {
      var x :| x in s;
      HeldPick(w, s, t, x);
      HeldPick(v, s, t, x);
      HeldShifts(w, v, s - {x}, t, from, a, to, b);
      assert Shifts(w, v, t, x, from, a, to, b);
    }
  }

  lemma {:induction false} NewHoldNothing(v: World, s: set<Item>, more: set<Item>, t: ItemType)
    requires s + more <= v.Keys && forall x | x in more && x !in s :: v[x].items == []
    ensures HeldIn(v, s + more, t) == HeldIn(v, s, t)
    decreases |more|
  {
    if more != {} {
      var x :| x in more;
      NewHoldNothing(v, s, more - {x}, t);
      if x in s {
        assert s + more == s + (more - {x});
      } else {
        HeldPick(v, s + more, t, x);
        assert s + more - {x} == s + (more - {x});
      }
    }
  }

  lemma TotalShifts(w: World, v: World, t: ItemType, from: Item?, a: nat, to: Item?, b: nat)
    requires w.Keys <= v.Keys && KeepsTypes(w, v) && forall d | d in w :: Shifts(w, v, t, d, from, a, to, b)
    requires (from == null ==> a == 0) && (from != null ==> from in w)
    requires (to == null ==> b == 0) && (to != null ==> to in w)
    ensures Held(v, t) + a == Held(w, t) + b
  {
    HeldShifts(w, v, w.Keys, t, from, a, to, b);
    NewHoldNothing(v, w.Keys, v.Keys, t);
    assert w.Keys + v.Keys == v.Keys;
  }

  // ---------------------------------------------------------------- one operation

  /** How many pieces more the containers hold after an operation: what has been brought in or taken out. */
  ghost function Gain(w: World, op: Op, t: ItemType): int
    requires Sane(w) && Callable(w, op)
  {
    match op
    case AddItem(to, index, item, noLimit, extra) =>
      if Add(w, to, index, item, noLimit, extra).0 == NoError && t == w[item].typ then w[item].count else 0
    case RemoveItem(item, amount) =>
      if Remove(w, item, amount).0 == NoError then -(Moved(w, item, RemovalCount(w, item, amount), t) as int) else 0
    case _ => 0
  }

  lemma MoveTotal(w: World, from: Item, to: Item, index: int, item: Item, count: nat, noLimit: bool, extra: Item,
                  t: ItemType)
    requires Sane(w) && from in w && IsContainer(w, to) && item in w
    requires MoveSpare(w, from, to, index, item, count, noLimit, extra)
    ensures Held(Move(w, from, to, index, item, count, noLimit, extra).1, t) == Held(w, t)
  {
    var p := PlanMove(w, from, to, index, item, count, noLimit);
    var done := Move(w, from, to, index, item, count, noLimit, extra).1;
    PlannedMove(w, from, to, index, item, count, noLimit);
    if p.Granted? {
      TransferTypes(w, from, item, p.at, p.m, extra);
      var m := Moved(w, item, p.m, t);
      hide Stock, Transfer, Held;
      forall d | d in w ensures Shifts(w, done, t, d, from, m, p.at.to, m) {
        TransferConserves(w, from, item, p.at, p.m, extra, d, t);
      }
      TotalShifts(w, done, t, from, m, p.at.to, m);
    }
  }

  lemma AddTotal(w: World, to: Item, index: int, item: Item, noLimit: bool, extra: Item, t: ItemType)
    requires Sane(w) && IsContainer(w, to) && Loose(w, item) && AddSpare(w, to, index, item, noLimit, extra)
    ensures var (ret, done) := Add(w, to, index, item, noLimit, extra);
      Held(done, t) == Held(w, t) + if ret == NoError && t == w[item].typ then w[item].count else 0
  {
    var p := PlanAdd(w, to, index, item, noLimit);
    var done := Add(w, to, index, item, noLimit, extra).1;
    PlannedAdd(w, to, index, item, noLimit);
    if p.Granted? {
      InsertTypes(w, item, p.at, p.m, extra);
      var m := Moved(w, item, p.m, t);
      hide Stock, Insert, Held;
      forall d | d in w ensures Shifts(w, done, t, d, null, 0, p.at.to, m) {
        InsertStock(w, item, p.at, p.m, extra, d, t);
      }
      TotalShifts(w, done, t, null, 0, p.at.to, m);
    }
  }

  lemma RemoveTotal(w: World, item: Item, amount: int, t: ItemType)
    requires Sane(w) && item in w && amount >= -0x8000_0000
    ensures w[item].parent != null ==> w[item].parent in w
    ensures Held(Remove(w, item, amount).1, t) == Held(w, t) + Gain(w, RemoveItem(item, amount), t)
  {
    var (ret, done) := Remove(w, item, amount);
    var c := w[item].parent;
    if ret == NoError {
      assert Listed(w, c);
      var n := RemovalCount(w, item, amount);
      var m := Moved(w, item, n, t);
      RemoveTypes(w, c, item, n, done);
      hide Stock, Remove, Held;
      forall d | d in w ensures Shifts(w, done, t, d, c, m, null, 0) { RemoveConserves(w, item, amount, d, t); }
      TotalShifts(w, done, t, c, m, null, 0);
    }
  }

  lemma CreateTotal(w: World, item: Item, typ: ItemType, count: nat, t: ItemType)
    requires Sane(w) && item !in w
    ensures Held(Create(w, item, typ, count), t) == Held(w, t)
  {
    var v := Create(w, item, typ, count);
    forall d | d in w ensures Shifts(w, v, t, d, null, 0, null, 0) { StockCreate(w, item, typ, count, d, t); }
    TotalShifts(w, v, t, null, 0, null, 0);
  }

  lemma ApplyTotal(w: World, op: Op, t: ItemType)
    requires Sane(w) && Callable(w, op)
    ensures Held(Apply(w, op), t) == Held(w, t) + Gain(w, op, t)
  {
    hide Held, Move, Add, Remove;
    match op
    case MoveItem(from, to, index, item, count, noLimit, extra) =>
      MoveTotal(w, from, to, index, item, count, noLimit, extra, t);
    case AddItem(to, index, item, noLimit, extra) => AddTotal(w, to, index, item, noLimit, extra, t);
    case RemoveItem(item, amount) => RemoveTotal(w, item, amount, t);
    case CreateItem(item, typ, count) => CreateTotal(w, item, typ, count, t);
  }

  // ---------------------------------------------------------------- a run

  /** What a run brings in less what it takes out. */
  ghost function Balance(w: World, ops: seq<Op>, t: ItemType): int
    requires Sane(w)
    decreases |ops|
  {
    if ops == [] || !Callable(w, ops[0]) then 0
    else
      ApplyIsSane(w, ops[0]);
      Gain(w, ops[0], t) + Balance(Apply(w, ops[0]), ops[1..], t)
  }

  predicate MovesOnly(ops: seq<Op>) {
    forall op | op in ops :: op.MoveItem? || op.CreateItem?
  }

  /** Over any run the pieces of a type that the containers hold change by what is brought in and taken out, and by no
      moving, splitting or merging; so a run of moves keeps them all. */
  lemma {:induction false} RunConserves(w: World, ops: seq<Op>, v: World, t: ItemType)
    requires Sane(w) && Leads(w, ops, v)
    ensures Held(v, t) == Held(w, t) + Balance(w, ops, t)
    ensures MovesOnly(ops) ==> Held(v, t) == Held(w, t)
    decreases |ops|
  {
    hide Held, Apply, Callable, Sane;
    if ops != [] {
      ApplyIsSane(w, ops[0]);
      ApplyTotal(w, ops[0], t);
      RunConserves(Apply(w, ops[0]), ops[1..], v, t);
      if MovesOnly(ops) { assert ops[0] in ops && forall op | op in ops[1..] :: op in ops; }
    }
  }
}
