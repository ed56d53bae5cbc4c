/** What coins are worth, and how much money lies in a container. */
module Coins {
  import opened ItemForest
  import opened ItemMoves
  import opened Cylinders
  import opened MoveSafety
  import opened DepotContents

  const ITEM_COINS_GOLD := 2148
  const ITEM_COINS_PLATINUM := 2152
  const ITEM_COINS_CRYSTAL := 2160

  function Unit(typ: ItemType): nat {
    if typ.id == ITEM_COINS_GOLD then 1
    else if typ.id == ITEM_COINS_PLATINUM then 100
    else if typ.id == ITEM_COINS_CRYSTAL then 10000
    else 0
  }

  /** Item::getWorth, for items that are not containers. */
  function Value(typ: ItemType, count: nat): nat {
    if !typ.kind.Plain? then 0 else Unit(typ) * count
  }

  function ValueOf(w: World, x: Item): nat {
    if x in w then Value(w[x].typ, w[x].count) else 0
  }

  ghost function Total(w: World, s: set<Item>): nat {
    if s == {} then 0
    else
      var x :| x in s;
      ValueOf(w, x) + Total(w, s - {x})
  }

  lemma {:induction false} TotalWithout(w: World, s: set<Item>, x: Item)
    requires x in s
    ensures Total(w, s) == ValueOf(w, x) + Total(w, s - {x})
    decreases s
  {
    var y :| y in s && Total(w, s) == ValueOf(w, y) + Total(w, s - {y});
    if y != x {
      TotalWithout(w, s - {y}, x);
      TotalWithout(w, s - {x}, y);
      assert s - {y} - {x} == s - {x} - {y};
    }
  }

  lemma {:induction false} TotalSame(w: World, v: World, s: set<Item>)
    requires forall x | x in s :: ValueOf(w, x) == ValueOf(v, x)
    ensures Total(w, s) == Total(v, s)
    decreases s
  {
    if s != {} {
      var x :| x in s;
      TotalWithout(w, s, x);
      TotalWithout(v, s, x);
      TotalSame(w, v, s - {x});
    }
  }

  /** The money anywhere below c. */
  ghost function Money(w: World, c: Item): nat {
    Total(w, Below(w, c))
  }

  lemma WholeRemoval(w: World, x: Item)
    requires Sane(w) && x in w && w[x].parent != null && w[x].typ.kind.Plain? && w[x].count > 0
    ensures w[x].parent in w && Remove(w, x, -1) == (NoError, Detach(w, x))
  {
    assert w[x].parent in w && x in w[w[x].parent].items;
  }

  lemma DetachMoney(w: World, x: Item, c: Item, v: World)
    requires Forest(w) && c in w && x in Below(w, c) && w[x].typ.kind.Plain?
    requires w[x].parent != null && w[x].parent in w && v == Detach(w, x)
    ensures Below(v, c) == Below(w, c) - {x} && Money(v, c) + ValueOf(w, x) == Money(w, c)
  {
    NoSelfNesting(w, c);
    DetachBelow(w, x, c);
    PlainHoldsNothing(w, x);
    assert c !in Below(w, x);
    assert Sub(w, x) == {x};
    NotOwnParent(w, x);
    TotalWithout(w, Below(w, c), x);
    TotalSame(w, v, Below(w, c) - {x});
  }

  lemma AttachMoney(u: World, c: Item, x: Item, v: World)
    requires CanAttach(u, c, x) && u[x].typ.kind.Plain? && v == Attach(u, c, x)
    ensures Below(v, c) == Below(u, c) + {x} && Money(v, c) == Money(u, c) + ValueOf(u, x)
  {
    AttachBelow(u, c, x, c);
    PlainHoldsNothing(u, x);
    RootIsUnderNothing(u, c, x);
    TotalSame(u, v, Below(u, c));
    TotalWithout(v, Below(v, c), x);
    assert Below(v, c) - {x} == Below(u, c);
  }

  ghost predicate SameItems(w: World, v: World) {
    v.Keys == w.Keys && forall y | y in w :: v[y].typ == w[y].typ && v[y].count == w[y].count
  }

  /** Removing a coin of c takes its value away. */
  lemma RemoveCoin(w: World, x: Item, c: Item, v: World)
    requires Sane(w) && x in Below(w, c) && c in w && w[x].typ.kind.Plain? && w[x].count > 0
    requires w[x].parent != null && w[x].parent in w && v == Remove(w, x, -1).1
    ensures SameItems(w, v) && Sane(v)
    ensures Below(v, c) == Below(w, c) - {x} && Money(v, c) + ValueOf(w, x) == Money(w, c)
  {
    WholeRemoval(w, x);
    SaneDetach(w, x, v);
    NotOwnParent(w, x);
    DetachMoney(w, x, c, v);
  }

  lemma LooseCoin(w: World, c: Item, x: Item, typ: ItemType, n: nat, u: World)
    requires Sane(w) && IsContainer(w, c) && x !in w && typ.kind.Plain? && 1 <= n <= STACK_MAX
    requires u == Create(w, x, typ, n)
    ensures Sane(u) && IsContainer(u, c) && Loose(u, x) && !InSub(u, x, c)
    ensures Below(u, c) == Below(w, c) && Money(u, c) == Money(w, c)
  {
    SaneCreate(w, x, typ, n, u);
    BelowSame(w, u, c);
    TotalSame(w, u, Below(w, c));
    FreshIsAlone(w, u, x, c);
  }

  /** A loose coin is put at the front of c or refused; with FLAG_NOLIMIT it is never refused. */
  lemma CoinGoesIn(u: World, c: Item, x: Item, noLimit: bool, extra: Item)
    requires Sane(u) && IsContainer(u, c) && Loose(u, x) && !InSub(u, x, c)
    requires u[x].typ.stackable && u[x].typ.pickupable
    ensures var (ret, v) := Add(u, c, WHEREEVER, x, noLimit, extra);
      if ret == NoError then v == Attach(u, c, x) else v == u && !noLimit
  {
    PlannedAdd(u, c, WHEREEVER, x, noLimit);
  }

  /** A new coin brought into c adds its value. */
  lemma AddCoin(w: World, c: Item, x: Item, typ: ItemType, n: nat, noLimit: bool, extra: Item, u: World,
                ret: Ret, v: World)
    requires Sane(w) && IsContainer(w, c) && x !in w && typ.kind.Plain? && typ.stackable && typ.pickupable
    requires 1 <= n <= STACK_MAX && u == Create(w, x, typ, n) && Wired(u)
    requires (ret, v) == Add(u, c, WHEREEVER, x, noLimit, extra)
    ensures Sane(v) && SameItems(u, v) && IsContainer(v, c) && (noLimit ==> ret == NoError)
    ensures Below(w, c) <= Below(v, c) <= Below(w, c) + {x}
    ensures Money(v, c) == Money(w, c) + if ret == NoError then Value(typ, n) else 0
  {
    LooseCoin(w, c, x, typ, n, u);
    CoinGoesIn(u, c, x, noLimit, extra);
    if ret == NoError {
      SaneAttach(u, c, x, v);
      AttachMoney(u, c, x, v);
    }
  }
}
