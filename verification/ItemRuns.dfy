/** Whole runs of moves, additions and removals over a world of items. */
module ItemRuns {
  import opened ItemForest
  import opened ItemMoves
  import opened Cylinders
  import opened MoveSafety
  import opened SlotLimit
  import opened DepotLimit

  datatype Op =
    | MoveItem(from: Item, to: Item, index: int, item: Item, count: nat, noLimit: bool, extra: Item)
    | AddItem(to: Item, index: int, item: Item, noLimit: bool, extra: Item)
    | RemoveItem(item: Item, amount: int)
    | CreateItem(item: Item, typ: ItemType, count: nat)

  /** The arguments exist; new objects are new; what is added is not yet anywhere. */
  ghost predicate Callable(w: World, op: Op)
    requires Sane(w)
  {
    match op
    case MoveItem(from, to, index, item, count, noLimit, extra) =>
      from in w && IsContainer(w, to) && item in w && MoveSpare(w, from, to, index, item, count, noLimit, extra)
    case AddItem(to, index, item, noLimit, extra) =>
      IsContainer(w, to) && Loose(w, item) && AddSpare(w, to, index, item, noLimit, extra)
    case RemoveItem(item, amount) => item in w && amount >= -0x8000_0000
    case CreateItem(item, typ, count) =>
      item !in w && (typ.stackable ==> typ.kind.Plain? && 1 <= count <= STACK_MAX)
  }

  ghost function Apply(w: World, op: Op): World
    requires Sane(w) && Callable(w, op)
  {
    match op
    case MoveItem(from, to, index, item, count, noLimit, extra) =>
      Move(w, from, to, index, item, count, noLimit, extra).1
    case AddItem(to, index, item, noLimit, extra) => Add(w, to, index, item, noLimit, extra).1
    case RemoveItem(item, amount) => Remove(w, item, amount).1
    case CreateItem(item, typ, count) => Create(w, item, typ, count)
  }

  predicate Unlimited(op: Op) {
    (op.MoveItem? && op.noLimit) || (op.AddItem? && op.noLimit)
  }

  lemma ApplyIsSane(w: World, op: Op)
    requires Sane(w) && Callable(w, op)
    ensures Sane(Apply(w, op))
  {
    match op
    case MoveItem(from, to, index, item, count, noLimit, extra) =>
      MoveIsSane(w, from, to, index, item, count, noLimit, extra);
    case AddItem(to, index, item, noLimit, extra) => AddIsSane(w, to, index, item, noLimit, extra);
    case RemoveItem(item, amount) => RemoveIsSane(w, item, amount);
    case CreateItem(item, typ, count) => CreateForest(w, item, typ, count);
  }

  lemma ApplyKeepsDepots(w: World, op: Op)
    requires Sane(w) && DepotsOk(w) && Callable(w, op) && !Unlimited(op)
    ensures DepotsOk(Apply(w, op))
  {
    match op
    case MoveItem(from, to, index, item, count, _, extra) => MoveKeepsDepots(w, from, to, index, item, count, extra);
    case AddItem(to, index, item, _, extra) => AddKeepsDepots(w, to, index, item, extra);
    case RemoveItem(item, amount) => RemoveKeepsDepots(w, item, amount);
    case CreateItem(item, typ, count) => CreateKeepsDepots(w, item, typ, count, Create(w, item, typ, count));
  }

  lemma ApplyKeepsSlots(w: World, op: Op)
    requires Sane(w) && SlotsOk(w) && Callable(w, op) && !Unlimited(op)
    ensures SlotsOk(Apply(w, op))
  {
    match op
    case MoveItem(from, to, index, item, count, _, extra) => MoveKeepsSlots(w, from, to, index, item, count, extra);
    case AddItem(to, index, item, _, extra) => AddKeepsSlots(w, to, index, item, extra);
    case RemoveItem(item, amount) => RemoveKeepsSlots(w, item, amount);
    case CreateItem(item, typ, count) =>
  }

  lemma CreateKeepsDepots(w: World, item: Item, typ: ItemType, count: nat, v: World)
    requires Sane(w) && DepotsOk(w) && item !in w && v == Create(w, item, typ, count)
    ensures DepotsOk(v)
  {
    CreateForest(w, item, typ, count);
    forall r | r in v ensures DepotOk(v, r) {
      BelowSame(w, v, r);
      if r in w {
        assert DepotOk(w, r);
      } else {
        forall x | x in w ensures !Under(w, r, x) { if Under(w, r, x) { UnderStays(w, r, x); } }
        assert Below(w, r) == {};
      }
    }
  }

  /** ops can be called one after the other from w on and lead to v. */
  ghost predicate Leads(w: World, ops: seq<Op>, v: World)
    requires Sane(w)
    decreases |ops|
  {
    if ops == [] then w == v
    else
      Callable(w, ops[0]) &&
      (ApplyIsSane(w, ops[0]);
       Leads(Apply(w, ops[0]), ops[1..], v))
  }

  /** One more operation at the end of a run. */
  lemma {:induction false} LeadsMore(w: World, ops: seq<Op>, v: World, op: Op)
    requires Sane(w) && Leads(w, ops, v) && Sane(v) && Callable(v, op)
    ensures Leads(w, ops + [op], Apply(v, op)) && Sane(Apply(v, op))
    decreases |ops|
  {
    hide Callable, Apply, Sane;
    ApplyIsSane(v, op);
    if ops == [] {
      assert [op][1..] == [] && Leads(Apply(v, op), [], Apply(v, op));
    } else {
      assert (ops + [op])[1..] == ops[1..] + [op];
      ApplyIsSane(w, ops[0]);
      LeadsMore(Apply(w, ops[0]), ops[1..], v, op);
    }
  }

  /** Every run leaves a forest of containers with proper stacks in which nothing contains itself; and if no step
      lifts the limits, no container is ever filled beyond its capacity, and no outermost depot beyond its recursive
      limit. */
  lemma {:induction false} RunIsSafe(w: World, ops: seq<Op>, v: World)
    requires Sane(w) && Leads(w, ops, v)
    ensures Sane(v) && forall x | x in v :: !Under(v, x, x)
    ensures SlotsOk(w) && (forall i | 0 <= i < |ops| :: !Unlimited(ops[i])) ==> SlotsOk(v)
    ensures DepotsOk(w) && (forall i | 0 <= i < |ops| :: !Unlimited(ops[i])) ==> DepotsOk(v)
    decreases |ops|
  {
    hide SlotsOk, DepotsOk, Callable, Apply, Sane;
    if ops == [] {
      NothingInItself(v);
    } else {
      ApplyIsSane(w, ops[0]);
      if DepotsOk(w) && !Unlimited(ops[0]) { ApplyKeepsDepots(w, ops[0]); }
      if SlotsOk(w) && !Unlimited(ops[0]) { ApplyKeepsSlots(w, ops[0]); }
      RunIsSafe(Apply(w, ops[0]), ops[1..], v);
    }
  }

  lemma NothingInItself(v: World)
    requires Sane(v)
    ensures forall x | x in v :: !Under(v, x, x)
  {
    forall x | x in v ensures !Under(v, x, x) { NoSelfNesting(v, x); }
  }
}
