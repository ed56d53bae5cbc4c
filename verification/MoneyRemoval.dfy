/** Game::removeMoney: the smallest coins are taken first and the rest of the last one is given back. */
module MoneyRemoval {
  import opened ItemForest
  import opened ItemMoves
  import opened Cylinders
  import opened ContainerOps
  import opened CylinderChanges
  import opened Coins
  import opened Paying
  import opened CoinOrder

  /** Coins are stackable; the rows for change are, and can be picked up. */
  predicate CoinsStack(w: World) {
    forall x | x in w :: Unit(w[x].typ) > 0 ==> w[x].typ.stackable
  }

  predicate CoinRow(typ: ItemType, id: nat) {
    typ.id == id && typ.kind.Plain? && typ.stackable && typ.pickupable
  }

  /** The coins from k on are still there and worth what is still owed. */
  ghost predicate Owing(w: World, c: Item, coins: seq<Coin>, k: nat, money: int) {
    && Sane(w) && IsContainer(w, c) && CoinsStack(w) && Distinct(coins) && k <= |coins|
    && (forall i | k <= i < |coins| :: Pays(w, Below(w, c), coins[i]))
    && money <= Sum(coins[k..])
  }

  lemma PursePays(w: World, c: Item, coins: seq<Coin>, money: int)
    requires Sane(w) && IsContainer(w, c) && CoinsStack(w) && Purse(w, coins, Below(w, c)) && money <= Sum(coins)
    ensures Owing(w, c, coins, 0, money)
  {
    assert coins[0..] == coins;
  }

  lemma CoinWorth(w: World, c: Item, d: Coin)
    requires Sane(w) && IsContainer(w, c) && CoinsStack(w) && Pays(w, Below(w, c), d)
    ensures w[d.item].parent != null && w[d.item].parent in w && d.worth <= 1_000_000
    ensures w[d.item].typ.kind.Plain? && w[d.item].count > 0
  {
    UnderStep(w, c, d.item);
    assert Unit(w[d.item].typ) > 0;
    assert w[d.item].count <= STACK_MAX;
  }

  lemma OwingNext(w: World, c: Item, coins: seq<Coin>, k: nat, money: int)
    requires Owing(w, c, coins, k, money) && 0 < money
    ensures k < |coins| && Pays(w, Below(w, c), coins[k]) && c in w && coins[k].item in w
    ensures w[coins[k].item].parent != null && w[coins[k].item].parent in w && coins[k].worth <= 1_000_000
  {
    assert Sum([]) == 0;
    CoinWorth(w, c, coins[k]);
  }

  /** After the next coin has been removed. */
  lemma PaidOne(w: World, c: Item, coins: seq<Coin>, k: nat, money: int, v: World)
    requires Owing(w, c, coins, k, money) && k < |coins| && Pays(w, Below(w, c), coins[k])
    requires var x := coins[k].item; x in w && w[x].parent != null && w[x].parent in w && v == Remove(w, x, -1).1
    ensures Owing(v, c, coins, k + 1, money - coins[k].worth)
    ensures Below(v, c) == Below(w, c) - {coins[k].item}
    ensures Money(v, c) + coins[k].worth == Money(w, c) && v.Keys == w.Keys
  {
    var x := coins[k].item;
    RemoveCoin(w, x, c, v);
    assert coins[k..][1..] == coins[k + 1..];
    forall i | k + 1 <= i < |coins| ensures Pays(v, Below(v, c), coins[i]) {
      assert Pays(w, Below(w, c), coins[i]);
    }
  }

  /** One stack of change; `given` is false if it did not fit and went to the ground instead. */
  method GiveBack(c: Item, typ: ItemType, n: nat, noLimit: bool, ghost W: set<Item>) returns (given: bool, x: Item)
    requires c in W && Sane(Snap(W)) && IsContainer(Snap(W), c) && CoinsStack(Snap(W))
    requires typ.kind.Plain? && typ.stackable && typ.pickupable && 1 <= n < STACK_MAX
    modifies W
    ensures fresh(x) && x.count == n
    ensures Sane(Snap(W + {x})) && IsContainer(Snap(W + {x}), c) && CoinsStack(Snap(W + {x})) && (noLimit ==> given)
    ensures forall y | y in W :: y.count == old(y.count)
    ensures Below(old(Snap(W)), c) <= Below(Snap(W + {x}), c) <= Below(old(Snap(W)), c) + {x}
    ensures Money(Snap(W + {x}), c) == Money(old(Snap(W)), c) + if given then Value(typ, n) else 0
  {
    hide Sane, Forest, Money, CoinsStack, Add;
    ghost var w := Snap(W);
    x := new Item(typ, n);
    ghost var V := W + {x};
    ghost var u := Snap(V);
    assert u == Create(w, x, typ, n);
    LooseCoin(w, c, x, typ, n, u);
    SaneIsWired(u);
    var ret, made := InternalAddItem(c, WHEREEVER, x, noLimit, V);
    ghost var extra := if made == null then x else made;
    ghost var v := Snap(V + if made == null then {} else {made});
    AddCoin(w, c, x, typ, n, noLimit, extra, u, ret, v);
    NothingMade(u, v, V, made);
    assert V + {} == V;
    CoinsStay(w, u, v, x, typ, n);
    forall y | y in W ensures y.count == old(y.count) { assert v[y].count == u[y].count == w[y].count; }
    assert v[x].count == n;
    given := ret == NoError;
  }

  lemma SaneIsWired(u: World)
    requires Sane(u)
    ensures Wired(u)
  {
  }

  lemma NothingMade(u: World, v: World, V: set<Item>, made: Item?)
    requires u.Keys == V && SameItems(u, v) && (made != null ==> made !in V)
    requires v.Keys == V + if made == null then {} else {made}
    ensures made == null
  {
    assert made == null || made in v.Keys;
  }

  lemma CoinsStay(w: World, u: World, v: World, x: Item, typ: ItemType, n: nat)
    requires CoinsStack(w) && u == Create(w, x, typ, n) && SameItems(u, v) && typ.stackable
    ensures CoinsStack(v)
  {
  }

  /** What the steps of paying keep: the world stays sane, and only stacks of change are new. */
  ghost predicate Good(w: World, c: Item) {
    Sane(w) && IsContainer(w, c) && CoinsStack(w)
  }

  /** At most n new items, and nothing but those has come into the container. */
  ghost predicate FewMore(before: set<Item>, after: set<Item>, W: set<Item>, V: set<Item>, n: nat) {
    W <= V && before <= after <= before + (V - W) && |V - W| <= n
  }

  lemma FewAndFew(a: set<Item>, b: set<Item>, c: set<Item>, U: set<Item>, V: set<Item>, W: set<Item>, m: nat, n: nat)
    requires FewMore(a, b, U, V, m) && FewMore(b, c, V, W, n)
    ensures FewMore(a, c, U, W, m + n)
  {
    assert W - U == (V - U) + (W - V);
  }

  /** Change of one kind of coin, if there is any. */
  method GiveCoins(c: Item, typ: ItemType, n: nat, noLimit: bool, ghost W: set<Item>)
    returns (ground: nat, ghost V: set<Item>)
    requires c in W && Good(Snap(W), c)
    requires typ.kind.Plain? && typ.stackable && typ.pickupable && n < STACK_MAX
    modifies W
    ensures W <= V && fresh(V - W) && Good(Snap(V), c) && (noLimit ==> ground == 0)
    ensures forall x | x in V - W :: 1 <= x.count < STACK_MAX
    ensures forall x | x in W :: x.count == old(x.count)
    ensures FewMore(Below(old(Snap(W)), c), Below(Snap(V), c), W, V, 1)
    ensures Money(Snap(V), c) + ground == Money(old(Snap(W)), c) + Value(typ, n)
  {
    hide Money, Sane, CoinsStack, IsContainer;
    ground, V := 0, W;
    if n != 0 {
      var given, x := GiveBack(c, typ, n, noLimit, V);
      V := V + {x};
      if !given { ground := Value(typ, n); }
    }
  }

  /** The change for one coin, in at most three stacks of at most 99. */
  method GiveChange(c: Item, remaind: nat, noLimit: bool, gold: ItemType, platinum: ItemType, crystal: ItemType,
                    ghost W: set<Item>)
    returns (ground: nat, ghost V: set<Item>)
    requires c in W && Good(Snap(W), c) && remaind < 1_000_000
    requires CoinRow(gold, ITEM_COINS_GOLD) && CoinRow(platinum, ITEM_COINS_PLATINUM)
    requires CoinRow(crystal, ITEM_COINS_CRYSTAL)
    modifies W
    ensures W <= V && fresh(V - W) && Good(Snap(V), c) && (noLimit ==> ground == 0)
    ensures forall x | x in V - W :: 1 <= x.count < STACK_MAX
    ensures FewMore(Below(old(Snap(W)), c), Below(Snap(V), c), W, V, 3)
    ensures Money(Snap(V), c) + ground == Money(old(Snap(W)), c) + remaind
  {
    hide Money, Good, FewMore, Below;
    ghost var b0 := Below(Snap(W), c);
    var crys := remaind / 10000;
    var rest := remaind - crys * 10000;
    var plat := rest / 100;
    var left := rest - plat * 100;
    ChangeIsWhole(remaind, crys, plat, left, gold, platinum, crystal);
    ground, V := GiveCoins(c, crystal, crys, noLimit, W);
    ghost var U, b1 := V, Below(Snap(V), c);
    var more: nat;
    more, V := GiveCoins(c, platinum, plat, noLimit, V);
    ghost var b2 := Below(Snap(V), c);
    FewAndFew(b0, b1, b2, W, U, V, 1, 1);
    U := V;
    ground := ground + more;
    more, V := GiveCoins(c, gold, left, noLimit, V);
    FewAndFew(b0, b2, Below(Snap(V), c), W, U, V, 2, 1);
    ground := ground + more;
  }

  lemma ChangeIsWhole(remaind: nat, crys: nat, plat: nat, left: nat, gold: ItemType, platinum: ItemType,
                      crystal: ItemType)
    requires remaind < 1_000_000 && crys == remaind / 10000 && plat == (remaind - crys * 10000) / 100
    requires left == remaind - crys * 10000 - plat * 100
    requires CoinRow(gold, ITEM_COINS_GOLD) && CoinRow(platinum, ITEM_COINS_PLATINUM)
    requires CoinRow(crystal, ITEM_COINS_CRYSTAL)
    ensures crys < STACK_MAX && plat < STACK_MAX && left < STACK_MAX
    ensures Value(crystal, crys) + Value(platinum, plat) + Value(gold, left) == remaind
  {
  }

  /** The next coin is taken out. */
  method TakeCoin(c: Item, coins: seq<Coin>, k: nat, ghost money: int, ghost W: set<Item>)
    requires c in W && Owing(Snap(W), c, coins, k, money) && 0 < money
    modifies W
    ensures k < |coins| && coins[k].worth <= 1_000_000
    ensures Owing(Snap(W), c, coins, k + 1, money - coins[k].worth)
    ensures Below(Snap(W), c) == Below(old(Snap(W)), c) - {coins[k].item}
    ensures Money(Snap(W), c) + coins[k].worth == Money(old(Snap(W)), c)
  {
    hide Money, Sane, CoinsStack, Owing, Pays;
    ghost var w := Snap(W);
    OwingNext(w, c, coins, k, money);
    OwingIsSane(w, c, coins, k, money);
    var _ := InternalRemoveItem(coins[k].item, -1, W);
    PaidOne(w, c, coins, k, money, Snap(W));
  }

  /** Game::removeMoney on a container. `ground` is change that did not fit and was put on the tile. */
  method RemoveMoney(c: Item, amount: int, noLimit: bool, gold: ItemType, platinum: ItemType, crystal: ItemType,
                     ghost W: set<Item>)
    returns (ok: bool, ground: nat, ghost V: set<Item>)
    requires c in W && Good(Snap(W), c)
    requires CoinRow(gold, ITEM_COINS_GOLD) && CoinRow(platinum, ITEM_COINS_PLATINUM)
    requires CoinRow(crystal, ITEM_COINS_CRYSTAL)
    modifies W
    ensures ok <==> amount <= 0 || amount <= Money(old(Snap(W)), c)
    ensures !ok || amount <= 0 ==> V == W && Snap(W) == old(Snap(W)) && ground == 0
    ensures ok && 0 < amount ==> Settled(old(Snap(W)), Snap(V), c, amount, ground, W, V)
    ensures noLimit ==> ground == 0
    ensures W <= V && fresh(V - W) && Good(Snap(V), c)
    ensures forall x | x in V - W :: 1 <= x.count < STACK_MAX
  {
    hide Money, Purse, Owing, Good, CoinRow, Forest, Below, PaidBySmallest, Underway, FewMore, Settled;
    ok, ground, V := false, 0, W;
    if amount <= 0 { return true, 0, W; }
    ghost var w := Snap(W);
    GoodIsSane(w, c);
    var coins, moneyCount := CollectCoins(c, W);
    if moneyCount < amount { return; }
    NothingPaid(w, c, coins, amount);
    var money := amount;
    var k := 0;
    while k < |coins| && money > 0
      invariant k <= |coins| && 0 <= money && V == W && ground == 0
      invariant Underway(w, Snap(W), c, coins, k, money, amount)
    {
      ghost var u := Snap(W);
      UnderwayOwes(w, u, c, coins, k, money, amount);
      TakeCoin(c, coins, k, money, W);
      OnePaid(w, u, Snap(W), c, coins, k, money, amount);
      if coins[k].worth <= money {
        money := money - coins[k].worth;
      } else {
        UnderwayOwes(w, Snap(W), c, coins, k + 1, money - coins[k].worth, amount);
        ghost var v := Snap(W);
        ground, V := GiveChange(c, coins[k].worth - money, noLimit, gold, platinum, crystal, W);
        PaidUp(w, v, Snap(V), c, coins, k + 1, money - coins[k].worth, amount, W, V, ground);
        return true, ground, V;
      }
      k := k + 1;
    }
    UnderwayOwes(w, Snap(W), c, coins, k, money, amount);
    if k == |coins| { NothingOwed(Snap(W), c, coins, k, money); }
    ok := money == 0;
    NoneNew(Below(Snap(W), c), W);
    PaidUp(w, Snap(W), Snap(W), c, coins, k, money, amount, W, W, 0);
  }

  /** k coins have been taken out since w. */
  ghost predicate Underway(w: World, u: World, c: Item, coins: seq<Coin>, k: nat, money: int, amount: int) {
    && Owing(u, c, coins, k, money) && Purse(w, coins, Below(w, c))
    && Below(u, c) == Below(w, c) - ItemsOf(coins[..k]) && money == amount - Sum(coins[..k])
    && Money(u, c) - money == Money(w, c) - amount
  }

  lemma NothingPaid(w: World, c: Item, coins: seq<Coin>, amount: int)
    requires Sane(w) && IsContainer(w, c) && CoinsStack(w) && Purse(w, coins, Below(w, c)) && amount <= Sum(coins)
    ensures Underway(w, w, c, coins, 0, amount, amount)
  {
    hide Owing, Purse;
    PursePays(w, c, coins, amount);
    NoneTaken(coins);
  }

  lemma UnderwayOwes(w: World, u: World, c: Item, coins: seq<Coin>, k: nat, money: int, amount: int)
    requires Underway(w, u, c, coins, k, money, amount)
    ensures Owing(u, c, coins, k, money) && Good(u, c)
  {
    hide Owing;
    OwingIsSane(u, c, coins, k, money);
  }

  lemma OnePaid(w: World, u: World, v: World, c: Item, coins: seq<Coin>, k: nat, money: int, amount: int)
    requires Underway(w, u, c, coins, k, money, amount) && k < |coins|
    requires Owing(v, c, coins, k + 1, money - coins[k].worth) && Below(v, c) == Below(u, c) - {coins[k].item}
    requires Money(v, c) + coins[k].worth == Money(u, c)
    ensures Underway(w, v, c, coins, k + 1, money - coins[k].worth, amount)
  {
    hide Owing, Purse, Money, Below, ItemsOf, Sum;
    OneMoreTaken(coins, k);
  }

  /** What a payment of an amount with W, and V afterwards, has done. */
  ghost predicate Settled(w: World, done: World, c: Item, amount: int, ground: nat, W: set<Item>, V: set<Item>) {
    var held, left := Below(w, c), Below(done, c);
    && PaidBySmallest(w, held, held - left, amount) && left <= held + (V - W) && |V - W| <= 3
    && Money(done, c) + ground == Money(w, c) - amount
  }

  lemma PaidUp(w: World, u: World, done: World, c: Item, coins: seq<Coin>, k: nat, money: int, amount: int,
               W: set<Item>, V: set<Item>, ground: nat)
    requires Underway(w, u, c, coins, k, money, amount) && w.Keys == W && 0 < amount && money <= 0
    requires money == 0 || (0 < k <= |coins| && money + coins[k - 1].worth > 0)
    requires FewMore(Below(u, c), Below(done, c), W, V, 3) && Money(done, c) + ground == Money(u, c) - money
    ensures Settled(w, done, c, amount, ground, W, V)
  {
    hide Owing, Money, Purse, Below, ItemsOf, PaidBySmallest, FewMore;
    OwingBounds(u, c, coins, k, money);
    if k == 0 { NoneTaken(coins); }
    LastIsWorth(w, coins, Below(w, c), k);
    FirstPay(w, coins, Below(w, c), k, amount);
    ChangeIsNew(w, c, Below(w, c), ItemsOf(coins[..k]), Below(u, c), Below(done, c), W, V, amount);
  }

  lemma LastIsWorth(w: World, coins: seq<Coin>, s: set<Item>, k: nat)
    requires Purse(w, coins, s) && 0 < k <= |coins|
    ensures coins[k - 1].worth > 0
  {
    hide Total;
    assert Pays(w, s, coins[k - 1]);
  }

  lemma OwingBounds(u: World, c: Item, coins: seq<Coin>, k: nat, money: int)
    requires Owing(u, c, coins, k, money)
    ensures k <= |coins|
  {
  }

  lemma NoneNew(b: set<Item>, W: set<Item>)
    ensures FewMore(b, b, W, W, 3)
  {
    assert W - W == {};
  }

  lemma NoneTaken(coins: seq<Coin>)
    ensures ItemsOf(coins[..0]) == {} && Sum(coins[..0]) == 0
  {
  }

  lemma OneMoreTaken(coins: seq<Coin>, k: nat)
    requires k < |coins|
    ensures ItemsOf(coins[..k + 1]) == ItemsOf(coins[..k]) + {coins[k].item}
    ensures Sum(coins[..k + 1]) == Sum(coins[..k]) + coins[k].worth
  {
    assert coins[..k + 1] == coins[..k] + [coins[k]];
    SumLast(coins[..k], coins[k]);
  }

  /** What has come in as change was not there before, so the coins that are gone are those that were taken. */
  lemma ChangeIsNew(w: World, c: Item, held: set<Item>, taken: set<Item>, left: set<Item>, after: set<Item>,
                    W: set<Item>, V: set<Item>, amount: int)
    requires w.Keys == W && held == Below(w, c) && left == held - taken && FewMore(left, after, W, V, 3)
    requires PaidBySmallest(w, held, taken, amount)
    ensures PaidBySmallest(w, held, held - after, amount) && after <= held + (V - W) && |V - W| <= 3
  {
    assert held - after == taken;
  }

  lemma GoodIsSane(w: World, c: Item)
    requires Good(w, c)
    ensures Forest(w) && Sane(w) && IsContainer(w, c) && CoinsStack(w)
  {
  }

  lemma OwingIsSane(w: World, c: Item, coins: seq<Coin>, k: nat, money: int)
    requires Owing(w, c, coins, k, money)
    ensures Good(w, c)
  {
  }

  lemma NothingOwed(w: World, c: Item, coins: seq<Coin>, k: nat, money: int)
    requires Owing(w, c, coins, k, money) && k == |coins|
    ensures money <= 0
  {
  }
}
