/** Which coins pay: the smallest ones, and no more of them than it takes. */
module CoinOrder {
  import opened ItemForest
  import opened Coins
  import opened Paying

  /** Of what is held, only coins are taken, none worth more than one that stays, together enough, and not without the
      largest of them. */
  ghost predicate PaidBySmallest(w: World, held: set<Item>, taken: set<Item>, amount: int) {
    && taken <= held && amount <= Total(w, taken)
    && (forall x | x in taken :: ValueOf(w, x) > 0)
    && (forall x, y | x in taken && y in held && y !in taken && ValueOf(w, y) > 0 :: ValueOf(w, x) <= ValueOf(w, y))
    && exists x | x in taken :: Largest(w, taken, x) && Total(w, taken) - ValueOf(w, x) < amount
  }

  ghost predicate Largest(w: World, s: set<Item>, x: Item) {
    forall y | y in s :: ValueOf(w, y) <= ValueOf(w, x)
  }

  ghost function ItemsOf(coins: seq<Coin>): set<Item> {
    set d | d in coins :: d.item
  }

  ghost predicate AllPay(w: World, s: set<Item>, coins: seq<Coin>) {
    Distinct(coins) && Rising(coins) && forall d | d in coins :: Pays(w, s, d)
  }

  lemma PayPrefix(w: World, s: set<Item>, coins: seq<Coin>, k: nat)
    requires AllPay(w, s, coins) && k <= |coins|
    ensures AllPay(w, s, coins[..k])
  {
  }

  lemma {:induction false} TotalOfCoins(w: World, s: set<Item>, coins: seq<Coin>, k: nat)
    requires AllPay(w, s, coins) && k <= |coins|
    ensures Total(w, ItemsOf(coins[..k])) == Sum(coins[..k]) && ItemsOf(coins[..k]) <= s
    decreases k
  {
    hide Total, Sum;
    if k == 0 {
      EmptyTotal(w);
      assert ItemsOf(coins[..0]) == {};
      EmptySum(coins[..0]);
    } else {
      var d := coins[k - 1];
      TotalOfCoins(w, s, coins, k - 1);
      assert coins[..k] == coins[..k - 1] + [d];
      SumLast(coins[..k - 1], d);
      assert ItemsOf(coins[..k]) == ItemsOf(coins[..k - 1]) + {d.item};
      assert d.item !in ItemsOf(coins[..k - 1]);
      TotalMore(w, ItemsOf(coins[..k - 1]), d.item);
      assert Pays(w, s, d);
    }
  }

  lemma EmptySum(coins: seq<Coin>)
    requires coins == []
    ensures Sum(coins) == 0
  {
  }

  lemma {:induction false} SumLast(coins: seq<Coin>, d: Coin)
    ensures Sum(coins + [d]) == Sum(coins) + d.worth
    decreases |coins|
  {
    if coins == [] {
      assert (coins + [d])[1..] == [];
    } else {
      SumLast(coins[1..], d);
      assert (coins + [d])[1..] == coins[1..] + [d];
    }
  }

  lemma {:induction false} TotalApart(w: World, s: set<Item>, t: set<Item>)
    requires t <= s
    ensures Total(w, s) == Total(w, t) + Total(w, s - t)
    decreases t
  {
    hide Total;
    if t == {} {
      EmptyTotal(w);
      assert s - t == s;
    } else {
      var x :| x in t;
      TotalWithout(w, s, x);
      TotalWithout(w, t, x);
      TotalApart(w, s - {x}, t - {x});
      assert s - {x} - (t - {x}) == s - t;
    }
  }

  /** Every coin that is held is in the purse. */
  lemma InPurse(w: World, coins: seq<Coin>, s: set<Item>, y: Item)
    requires AllPay(w, s, coins) && Sum(coins) == Total(w, s) && y in s && ValueOf(w, y) > 0
    ensures y in ItemsOf(coins)
  {
    hide Total, Sum;
    assert coins[..|coins|] == coins;
    TotalOfCoins(w, s, coins, |coins|);
    var t := ItemsOf(coins);
    TotalApart(w, s, t);
    if y !in t { TotalWithout(w, s - t, y); }
  }

  /** The first k coins pay if the first k - 1 do not. */
  lemma FirstPay(w: World, coins: seq<Coin>, s: set<Item>, k: nat, amount: int)
    requires Purse(w, coins, s) && 0 < k <= |coins|
    requires Sum(coins[..k]) - coins[k - 1].worth < amount <= Sum(coins[..k])
    ensures PaidBySmallest(w, s, ItemsOf(coins[..k]), amount)
  {
    hide Total, Sum;
    var taken, last := ItemsOf(coins[..k]), coins[k - 1];
    assert AllPay(w, s, coins);
    TotalOfCoins(w, s, coins, k);
    forall x | x in taken ensures 0 < ValueOf(w, x) <= last.worth { TakenWorth(w, s, coins, k, x); }
    assert Pays(w, s, last) && last.worth == ValueOf(w, last.item);
    assert last == coins[..k][k - 1] && last.item in taken;
    assert Largest(w, taken, last.item);
    forall x, y | x in taken && y in s && y !in taken && ValueOf(w, y) > 0 ensures ValueOf(w, x) <= ValueOf(w, y) {
      InPurse(w, coins, s, y);
      LeftWorth(w, s, coins, k, y);
    }
  }

  lemma TakenWorth(w: World, s: set<Item>, coins: seq<Coin>, k: nat, x: Item)
    requires AllPay(w, s, coins) && 0 < k <= |coins| && x in ItemsOf(coins[..k])
    ensures 0 < ValueOf(w, x) <= coins[k - 1].worth
  {
    var d :| d in coins[..k] && d.item == x;
    var i :| 0 <= i < k && coins[i] == d;
    assert Pays(w, s, d);
  }

  lemma LeftWorth(w: World, s: set<Item>, coins: seq<Coin>, k: nat, y: Item)
    requires AllPay(w, s, coins) && 0 < k <= |coins| && y in ItemsOf(coins) && y !in ItemsOf(coins[..k])
    ensures coins[k - 1].worth <= ValueOf(w, y)
  {
    var d :| d in coins && d.item == y;
    var i :| 0 <= i < |coins| && coins[i] == d;
    assert Pays(w, s, d);
    PrefixHas(coins, k, i);
  }

  lemma PrefixHas(coins: seq<Coin>, k: nat, i: nat)
    requires k <= |coins| && i < |coins|
    ensures i < k ==> coins[i] in coins[..k]
  {
    if i < k { assert coins[..k][i] == coins[i]; }
  }
}
