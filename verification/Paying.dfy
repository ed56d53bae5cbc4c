/** Game::getMoney and Game::removeMoney on a container. */
module Paying {
  import opened ItemForest
  import opened Worklist
  import opened ContainerOps
  import opened Coins

  lemma TotalMore(w: World, s: set<Item>, x: Item)
    requires x !in s
    ensures Total(w, s + {x}) == Total(w, s) + ValueOf(w, x)
  {
    TotalWithout(w, s + {x}, x);
    assert s + {x} - {x} == s;
  }

  /** Game::getMoney is the value of everything below the container. */
  method GetMoney(cylinder: Item, ghost W: set<Item>) returns (moneyCount: nat)
    requires cylinder in W && Forest(Snap(W))
    ensures moneyCount == Money(Snap(W), cylinder)
  {
    hide Front, Forest, Reading, Total;
    ghost var w, seen: set<Item> := Snap(W), {};
    moneyCount := 0;
    var listContainer := [];
    assert Total(w, {}) == 0 by { EmptyTotal(w); }
    FrontStart(w, cylinder);
    ReadingStart(w, cylinder, seen, [cylinder]);
    ghost var before, queue := seen, listContainer;
    assert [cylinder][1..] == listContainer;
    for i := 0 to |cylinder.items|
      invariant Reading(w, cylinder, cylinder, i, before, queue, seen, listContainer)
      invariant moneyCount == Total(w, seen)
    {
      var item := cylinder.items[i];
      ReadingItem(w, cylinder, cylinder, i, before, queue, seen, listContainer);
      var more := if item.typ.kind.Plain? then [] else [item];
      ReadingStep(w, cylinder, cylinder, i, before, queue, seen, listContainer, item, more);
      TotalMore(w, seen, item);
      listContainer := listContainer + more;
      seen := seen + {item};
      moneyCount := moneyCount + Value(item.typ, item.count);
    }
    ReadingEnd(w, cylinder, cylinder, before, queue, seen, listContainer);
    while listContainer != []
      invariant Front(w, cylinder, seen, listContainer, []) && moneyCount == Total(w, seen)
      decreases |Below(w, cylinder) - seen|, |listContainer|
    {
      var container := listContainer[0];
      ReadingStart(w, cylinder, seen, listContainer);
      listContainer := listContainer[1..];
      before, queue := seen, listContainer;
      for i := 0 to |container.items|
        invariant container in W && Reading(w, cylinder, container, i, before, queue, seen, listContainer)
        invariant moneyCount == Total(w, seen)
      {
        var item := container.items[i];
        ReadingItem(w, cylinder, container, i, before, queue, seen, listContainer);
        var more := if item.typ.kind.Plain? then [] else [item];
        ReadingStep(w, cylinder, container, i, before, queue, seen, listContainer, item, more);
        TotalMore(w, seen, item);
        listContainer := listContainer + more;
        seen := seen + {item};
        moneyCount := moneyCount + Value(item.typ, item.count);
      }
      ReadingEnd(w, cylinder, container, before, queue, seen, listContainer);
    }
    FrontDone(w, cylinder, seen);
  }

  lemma EmptyTotal(w: World)
    ensures Total(w, {}) == 0
  {
  }

  // ---------------------------------------------------------------- the coins at hand

  datatype Coin = Coin(worth: nat, item: Item)

  /** multimap::insert: behind the coins that are worth no more. */
  function Sorted(coins: seq<Coin>, c: Coin): seq<Coin> {
    if coins == [] || coins[0].worth > c.worth then [c] + coins
    else [coins[0]] + Sorted(coins[1..], c)
  }

  function Sum(coins: seq<Coin>): nat {
    if coins == [] then 0 else coins[0].worth + Sum(coins[1..])
  }

  /** In order of worth. */
  predicate Rising(coins: seq<Coin>) {
    forall i, j | 0 <= i < j < |coins| :: coins[i].worth <= coins[j].worth
  }

  /** The multimap stays in order. */
  lemma {:induction false} SortedRises(coins: seq<Coin>, c: Coin)
    requires Rising(coins)
    ensures Rising(Sorted(coins, c))
  {
    if coins != [] && coins[0].worth <= c.worth {
      var rest := coins[1..];
      SortedRises(rest, c);
      SortedIn(rest, c);
      RisingHead(coins[0], Sorted(rest, c), rest, c);
    }
  }

  lemma RisingHead(first: Coin, coins: seq<Coin>, rest: seq<Coin>, c: Coin)
    requires Rising([first] + rest) && Rising(coins) && first.worth <= c.worth
    requires forall d :: d in coins <==> d in rest || d == c
    ensures Rising([first] + coins)
  {
    forall d | d in coins ensures first.worth <= d.worth {
      if d in rest {
        var i :| 0 <= i < |rest| && rest[i] == d;
        assert ([first] + rest)[0].worth <= ([first] + rest)[i + 1].worth;
      }
    }
  }

  lemma {:induction false} SortedIn(coins: seq<Coin>, c: Coin)
    ensures Sum(Sorted(coins, c)) == Sum(coins) + c.worth
    ensures |Sorted(coins, c)| == |coins| + 1
    ensures forall d :: d in Sorted(coins, c) <==> d in coins || d == c
  {
    if coins == [] || coins[0].worth > c.worth {
      assert ([c] + coins)[1..] == coins;
    } else {
      SortedIn(coins[1..], c);
      assert forall d :: d in coins <==> d == coins[0] || d in coins[1..];
    }
  }

  ghost predicate Distinct(coins: seq<Coin>) {
    forall i, j | 0 <= i < j < |coins| :: coins[i].item != coins[j].item
  }

  ghost predicate Avoids(coins: seq<Coin>, x: Item) {
    forall d | d in coins :: d.item != x
  }

  lemma DistinctHead(coins: seq<Coin>, c: Coin)
    ensures Distinct([c] + coins) <==> Avoids(coins, c.item) && Distinct(coins)
  {
    var all := [c] + coins;
    if Distinct(all) {
      forall d | d in coins ensures d.item != c.item {
        var i :| 0 <= i < |coins| && coins[i] == d;
        assert all[0].item != all[i + 1].item;
      }
      forall i, j | 0 <= i < j < |coins| ensures coins[i].item != coins[j].item {
        assert all[i + 1].item != all[j + 1].item;
      }
    }
  }

  lemma {:induction false} SortedDistinct(coins: seq<Coin>, c: Coin)
    requires Distinct(coins) && Avoids(coins, c.item)
    ensures Distinct(Sorted(coins, c))
  {
    if coins == [] || coins[0].worth > c.worth {
      DistinctHead(coins, c);
    } else {
      var rest := coins[1..];
      assert coins == [coins[0]] + rest;
      DistinctHead(rest, coins[0]);
      SortedDistinct(rest, c);
      SortedIn(rest, c);
      DistinctHead(Sorted(rest, c), coins[0]);
    }
  }

  ghost predicate Pays(w: World, s: set<Item>, d: Coin) {
    && d.item in s && d.item in w && w[d.item].typ.kind.Plain? && w[d.item].count > 0
    && d.worth == ValueOf(w, d.item) && d.worth > 0
  }

  /** The coins are exactly the money in s. */
  ghost predicate Purse(w: World, coins: seq<Coin>, s: set<Item>) {
    Distinct(coins) && Rising(coins) && (forall d | d in coins :: Pays(w, s, d)) && Sum(coins) == Total(w, s)
  }

  lemma PurseMore(w: World, coins: seq<Coin>, s: set<Item>, x: Item, more: seq<Coin>)
    requires Purse(w, coins, s) && x !in s && x in w
    requires more == if ValueOf(w, x) == 0 then coins else Sorted(coins, Coin(ValueOf(w, x), x))
    ensures Purse(w, more, s + {x})
  {
    hide Rising, Distinct, Sum, Sorted, Total;
    TotalMore(w, s, x);
    var c := Coin(ValueOf(w, x), x);
    SortedIn(coins, c);
    SortedRises(coins, c);
    forall d | d in coins ensures d.item != x && Pays(w, s + {x}, d) { assert Pays(w, s, d); }
    SortedDistinct(coins, c);
    if ValueOf(w, x) != 0 {
      assert w[x].count > 0;
      forall d | d in more ensures Pays(w, s + {x}, d) {}
    }
  }

  /** The two collecting loops of removeMoney. */
  method CollectCoins(cylinder: Item, ghost W: set<Item>) returns (coins: seq<Coin>, moneyCount: nat)
    requires cylinder in W && Forest(Snap(W))
    ensures Purse(Snap(W), coins, Below(Snap(W), cylinder))
    ensures moneyCount == Sum(coins) == Money(Snap(W), cylinder)
  {
    hide Front, Forest, Reading, Total, Purse, Sum;
    ghost var w, seen: set<Item> := Snap(W), {};
    coins, moneyCount := [], 0;
    EmptyPurse(w);
    var listContainer := [cylinder];
    FrontStart(w, cylinder);
    while listContainer != []
      invariant Front(w, cylinder, seen, listContainer, [])
      invariant Purse(w, coins, seen) && moneyCount == Total(w, seen)
      decreases |Below(w, cylinder) - seen|, |listContainer|
    {
      var container := listContainer[0];
      ReadingStart(w, cylinder, seen, listContainer);
      listContainer := listContainer[1..];
      ghost var before, queue := seen, listContainer;
      for i := 0 to |container.items|
        invariant container in W && Reading(w, cylinder, container, i, before, queue, seen, listContainer)
        invariant Purse(w, coins, seen) && moneyCount == Total(w, seen)
      {
        var item := container.items[i];
        ReadingItem(w, cylinder, container, i, before, queue, seen, listContainer);
        var more := if item.typ.kind.Plain? then [] else [item];
        ReadingStep(w, cylinder, container, i, before, queue, seen, listContainer, item, more);
        var worth := Value(item.typ, item.count);
        var all := if worth == 0 then coins else Sorted(coins, Coin(worth, item));
        PurseMore(w, coins, seen, item, all);
        TotalMore(w, seen, item);
        listContainer, coins := listContainer + more, all;
        seen := seen + {item};
        moneyCount := moneyCount + worth;
      }
      ReadingEnd(w, cylinder, container, before, queue, seen, listContainer);
    }
    FrontDone(w, cylinder, seen);
    PurseSum(w, coins, seen);
  }

  lemma EmptyPurse(w: World)
    ensures Purse(w, [], {}) && Total(w, {}) == 0
  {
  }

  lemma PurseSum(w: World, coins: seq<Coin>, s: set<Item>)
    requires Purse(w, coins, s)
    ensures Sum(coins) == Total(w, s)
  {
  }
}
