/** ConditionDamage::generateDamageList: an amount of damage split into a falling list of hits. */
module DamageList {
  import opened Arithmetic

  function Abs(x: int): nat {
    if x < 0 then -x else x
  }

  /** start + (start - 1) + ... + 1 */
  function Triangle(start: int): nat {
    if start <= 0 then 0 else start + Triangle(start - 1)
  }

  function Sum(list: seq<int>): int {
    if list == [] then 0 else Sum(list[..|list| - 1]) + list[|list| - 1]
  }

  /** What the hits of at least i add up to. */
  function SumFrom(list: seq<int>, i: int): int {
    if list == [] then 0
    else
      var last := list[|list| - 1];
      SumFrom(list[..|list| - 1], i) + if last >= i then last else 0
  }

  /** What should have been dealt once hits of i have been handed out. */
  function Share(amount: nat, start: int, i: int): int
    requires 1 <= i <= start
  {
    (start + 1 - i) * amount / start
  }

  predicate Falling(list: seq<int>) {
    forall j, k | 0 <= j < k < |list| :: list[j] >= list[k]
  }

  /** Hits of i bring the sum as near to the share as they can, and there is at least one. */
  predicate Near(list: seq<int>, amount: nat, start: int, i: int)
    requires 1 <= i <= start
  {
    var share, sum := Share(amount, start, i), SumFrom(list, i);
    && i in list && 2 * (share - sum) <= i
    && (multiset(list)[i] > 1 ==> 2 * (sum - share) < i)
  }

  /** (1 - (sum + i) / med) < (1 - sum / med) in absolute value. */
  predicate Nearer(sum: int, i: int, med: int) {
    med > 0 && 2 * (med - sum) > i
  }

  // ---------------------------------------------------------------- one more hit

  lemma {:induction false} SumAdds(list: seq<int>, x: int, i: int)
    ensures Sum(list + [x]) == Sum(list) + x
    ensures SumFrom(list + [x], i) == SumFrom(list, i) + if x >= i then x else 0
  {
    assert (list + [x])[..|list|] == list;
  }

  lemma {:induction false} SumFromAll(list: seq<int>, i: int)
    requires forall k | 0 <= k < |list| :: list[k] >= i
    ensures SumFrom(list, i) == Sum(list)
  {
    if list != [] { SumFromAll(list[..|list| - 1], i); }
  }

  lemma {:induction false} TriangleIs(n: nat)
    ensures 2 * Triangle(n) == n * (n + 1)
  {
    if n > 0 { TriangleIs(n - 1); }
  }

  // ---------------------------------------------------------------- arithmetic

  lemma Cancel(c: int, x: int, y: int)
    requires c > 0 && c * x >= c * y
    ensures x >= y
  {
    if x < y { MulLe(c, x + 1, y); }
  }

  lemma Swap(x: int, y: int, z: int)
    ensures x * (y * z) == y * (x * z)
  {
  }

  lemma Quotient(x: int, d: int, q: int)
    requires d > 0 && q == x / d
    ensures d * q <= x < d * q + d
  {
  }

  /** With k kinds of hits still to come, a share leaves k of the start's parts. */
  lemma PartsLeft(amount: int, start: int, k: int, med: int)
    requires start * med <= (start - k) * amount
    ensures start * (amount - med) >= k * amount
  {
  }

  /** There is room for the hits still to come, as long as the amount is large enough for one hit of each kind. */
  lemma RoomLeft(amount: nat, start: int, i: int, sum: int, med: int)
    requires 1 <= i <= start && med == Share(amount, start, i)
    requires 2 * amount >= start * (start + 1) && 2 * (med - sum) > i
    ensures 2 * (sum + i) + i * (i - 1) <= 2 * amount
  {
    var k, x := i - 1, amount - med;
    Quotient((start - k) * amount, start, med);
    PartsLeft(amount, start, k, med);
    MulLe(k, start * (start + 1), 2 * amount);
    Swap(k, start, start + 1);
    Swap(k, 2, amount);
    Swap(start, 2, x);
    Cancel(start, 2 * x, k * (start + 1));
    MulLe(k, i + 1, start + 1);
    Room(amount, i, sum, med);
  }

  lemma Room(amount: int, i: int, sum: int, med: int)
    requires i >= 1 && 2 * (amount - med) >= (i - 1) * (i + 1) && 2 * (med - sum) > i
    ensures 2 * (sum + i) + i * (i - 1) <= 2 * amount
  {
    assert (i - 1) * (i + 1) == i * i - 1 && i * (i - 1) == i * i - i;
    Even(i);
  }

  lemma Even(i: int)
    requires i >= 1
    ensures i * (i - 1) == 2 * Triangle(i - 1)
  {
    TriangleIs(i - 1);
  }

  /** With less than that, one hit of each kind is already past every share. */
  lemma AlreadyPast(amount: nat, start: int, i: int, sum: int, med: int)
    requires 1 <= i <= start && med == Share(amount, start, i)
    requires 2 * amount < start * (start + 1) && 2 * sum == start * (start + 1) - i * (i - 1)
    ensures sum >= med
  {
    var n := start + 1 - i;
    Quotient(n * amount, start, med);
    MulLe(n, 2 * amount, start * (start + 1));
    Swap(n, 2, amount);
    Swap(start, 2, med);
    Swap(n, start, start + 1);
    Cancel(start, n * (start + 1), 2 * med);
    MulLe(n, start + 1, start + i);
    assert n * (start + i) == 2 * sum;
  }

  // ---------------------------------------------------------------- the total

  predicate Within(list: seq<int>, lo: int, hi: int) {
    forall k | 0 <= k < |list| :: lo <= list[k] <= hi
  }

  /** What generateDamageList makes of an amount. */
  predicate Generated(list: seq<int>, amount: nat, start: int) {
    Falling(list) && Within(list, 1, start) && forall i | 1 <= i <= start :: Near(list, amount, start, i)
  }

  lemma {:induction false} SumFromStep(list: seq<int>, i: int)
    ensures SumFrom(list, i) == SumFrom(list, i + 1) + multiset(list)[i] * i
  {
    if list != [] {
      var n := |list| - 1;
      SumFromStep(list[..n], i);
      CountStep(list, i);
      if list[n] == i { TimesMore(multiset(list[..n])[i], i); }
    }
  }

  lemma CountStep(list: seq<int>, i: int)
    requires list != []
    ensures var n := |list| - 1; multiset(list)[i] == multiset(list[..n])[i] + if list[n] == i then 1 else 0
  {
    var n := |list| - 1;
    assert list == list[..n] + [list[n]];
  }

  lemma TimesMore(n: int, i: int)
    ensures (n + 1) * i == n * i + i
  {
  }

  lemma {:induction false} NothingAbove(list: seq<int>, i: int)
    requires forall k | 0 <= k < |list| :: list[k] < i
    ensures SumFrom(list, i) == 0
  {
    if list != [] { NothingAbove(list[..|list| - 1], i); }
  }

  lemma {:induction false} EnoughForAll(list: seq<int>, amount: nat, start: int, i: int)
    requires Generated(list, amount, start) && 2 * amount >= start * (start + 1) && 1 <= i <= start + 1
    ensures 2 * SumFrom(list, i) + i * (i - 1) <= 2 * amount
    decreases start - i
  {
    if i == start + 1 {
      NothingAbove(list, i);
    } else {
      EnoughForAll(list, amount, start, i + 1);
      SumFromStep(list, i);
      assert Near(list, amount, start, i);
      var count, sum := multiset(list)[i], SumFrom(list, i);
      if count == 1 {
        assert (i + 1) * i == i * (i - 1) + 2 * i;
      } else {
        RoomLeft(amount, start, i, sum - i, Share(amount, start, i));
      }
    }
  }

  lemma {:induction false} OnceEach(list: seq<int>, amount: nat, start: int, i: int)
    requires Generated(list, amount, start) && 2 * amount < start * (start + 1) && 1 <= i <= start + 1
    ensures 2 * SumFrom(list, i) == start * (start + 1) - i * (i - 1)
    decreases start - i
  {
    if i == start + 1 {
      NothingAbove(list, i);
    } else {
      OnceEach(list, amount, start, i + 1);
      SumFromStep(list, i);
      assert Near(list, amount, start, i);
      var count := multiset(list)[i];
      assert (i + 1) * i == i * (i - 1) + 2 * i;
      AlreadyPast(amount, start, i, SumFrom(list, i + 1) + i, Share(amount, start, i));
      if count > 1 { MulLe(i, 2, count); }
    }
  }

  /** The hits add up to the amount, or to one hit of each kind if that is more. */
  lemma TotalDamage(list: seq<int>, amount: nat, start: int)
    requires Generated(list, amount, start) && start >= 1
    ensures Sum(list) == Max(amount, Triangle(start))
  {
    SumFromAll(list, 1);
    TriangleIs(start);
    if 2 * amount < start * (start + 1) {
      OnceEach(list, amount, start, 1);
    } else {
      EnoughForAll(list, amount, start, 1);
      assert Near(list, amount, start, 1);
      Whole(amount, start);
    }
  }

  lemma Whole(amount: nat, start: int)
    requires start >= 1
    ensures Share(amount, start, 1) == amount
  {
    var q := Share(amount, start, 1);
    Quotient(start * amount, start, q);
    Cancel(start, amount, q);
    if q < amount { MulLe(start, q + 1, amount); }
  }

  /** No rounding error exactly when the amount covers one hit of each kind. */
  lemma ExactDamage(list: seq<int>, amount: nat, start: int)
    requires Generated(list, amount, start) && start >= 1
    ensures Sum(list) == amount <==> amount >= start * (start + 1) / 2
    ensures amount >= start * start ==> Sum(list) == amount
  {
    TotalDamage(list, amount, start);
    TriangleIs(start);
    assert start * (start + 1) == start * start + start;
    MulLe(start, 1, start);
  }

  lemma NearStays(list: seq<int>, amount: nat, start: int, i: int, x: int)
    requires 1 <= i <= start && Near(list, amount, start, i) && x < i
    ensures Near(list + [x], amount, start, i)
  {
    hide Share;
    SumAdds(list, x, i);
    assert multiset(list + [x])[i] == multiset(list)[i];
  }

  /** ConditionDamage::generateDamageList */
  method GenerateDamageList(amount: int, start: int) returns (list: seq<int>)
    ensures Generated(list, Abs(amount), start)
    ensures start >= 1 ==> Sum(list) == Max(Abs(amount), Triangle(start))
  {
    hide Near, Share, Falling, Within, Sum, SumFrom;
    var amount' := Abs(amount);
    var sum, i := 0, start;
    list := [];
    Nothing(start);
    while i > 0
      invariant 0 <= i <= start || i == start <= 0
      invariant Falling(list) && Within(list, i + 1, start) && sum == Sum(list) && sum >= 0
      invariant forall j | i < j <= start && 1 <= j :: Near(list, amount', start, j)
      decreases i
    {
      var n := start + 1 - i;
      var med := n * amount' / start;
      Shared(amount', start, i, med);
      NoneYet(list, i, start);
      HitAdded(list, amount', start, i, sum);
      sum := sum + i;
      list := list + [i];
      while Nearer(sum, i, med)
        invariant Falling(list) && Within(list, i, start) && sum == Sum(list) == SumFrom(list, i)
        invariant forall j | i < j <= start :: Near(list, amount', start, j)
        invariant i in list && sum >= 0 && (multiset(list)[i] > 1 ==> 2 * (sum - med) < i)
        decreases med - sum
      {
        HitAdded(list, amount', start, i, sum);
        sum := sum + i;
        list := list + [i];
      }
      NearNow(list, amount', start, i, med);
      i := i - 1;
    }
    if start >= 1 {
      TotalDamage(list, amount', start);
    } else {
      NothingWithin(list, start + 1, start);
      Nothing(start);
    }
  }

  lemma Nothing(start: int)
    ensures Falling([]) && Within([], start + 1, start) && Within([], 1, start) && Sum([]) == 0
  {
  }

  lemma Shared(amount: nat, start: int, i: int, med: int)
    requires 1 <= i <= start && med == (start + 1 - i) * amount / start
    ensures med == Share(amount, start, i)
  {
  }

  lemma NoneYet(list: seq<int>, i: int, start: int)
    requires Within(list, i + 1, start)
    ensures Within(list, i, start) && multiset(list)[i] == 0
  {
  }

  lemma NearNow(list: seq<int>, amount: nat, start: int, i: int, med: int)
    requires 1 <= i <= start && med == Share(amount, start, i) && !Nearer(SumFrom(list, i), i, med)
    requires i in list && (multiset(list)[i] > 1 ==> 2 * (SumFrom(list, i) - med) < i) && SumFrom(list, i) >= 0
    ensures Near(list, amount, start, i)
  {
    hide Share;
  }

  lemma HitFalls(list: seq<int>, start: int, i: int)
    requires 1 <= i <= start && Falling(list) && Within(list, i, start)
    ensures Falling(list + [i]) && Within(list + [i], i, start)
  {
  }

  lemma HitAdded(list: seq<int>, amount: nat, start: int, i: int, sum: int)
    requires 1 <= i <= start && Falling(list) && Within(list, i, start) && sum == Sum(list)
    requires forall j | i < j <= start :: Near(list, amount, start, j)
    ensures var more := list + [i];
      && Falling(more) && Within(more, i, start) && Sum(more) == SumFrom(more, i) == sum + i
      && multiset(more)[i] == multiset(list)[i] + 1 && i in more
    ensures forall j | i < j <= start :: Near(list + [i], amount, start, j)
  {
    hide Near, Share, Falling, Within, Sum, SumFrom;
    HitFalls(list, start, i);
    SumAdds(list, i, i);
    AllFrom(list + [i], i, start);
    assert (list + [i])[|list|] == i;
    forall j | i < j <= start ensures Near(list + [i], amount, start, j) { NearStays(list, amount, start, j, i); }
  }

  lemma AllFrom(list: seq<int>, i: int, start: int)
    requires Within(list, i, start)
    ensures SumFrom(list, i) == Sum(list)
  {
    SumFromAll(list, i);
  }

  lemma FirstWithin(list: seq<int>, lo: int, hi: int)
    requires Within(list, lo, hi) && list != []
    ensures lo <= list[0] <= hi
  {
  }

  lemma NothingWithin(list: seq<int>, lo: int, hi: int)
    requires Within(list, lo, hi) && lo > hi
    ensures list == []
  {
    if |list| > 0 { FirstWithin(list, lo, hi); }
  }

  // ---------------------------------------------------------------- the damage condition

  datatype Interval = Interval(timeLeft: int, value: int, interval: int)

  /** max(1, ceil(amount / 20)) */
  function DefaultStart(amount: int): int {
    Max(1, (amount + 19) / 20)
  }

  /** With the default start the hits add up to the amount up to 760, and at 780, and at no other. */
  lemma DefaultIsExact(list: seq<int>, amount: nat)
    requires amount >= 1 && Generated(list, amount, DefaultStart(amount))
    ensures Sum(list) == amount <==> amount <= 760 || amount == 780
  {
    var s := DefaultStart(amount);
    ExactFromTriangle(list, amount, s);
    assert 20 * s - 20 < amount <= 20 * s;
    DefaultTriangle(s);
  }

  lemma ExactFromTriangle(list: seq<int>, amount: nat, start: int)
    requires Generated(list, amount, start) && start >= 1
    ensures Sum(list) == amount <==> amount >= Triangle(start)
  {
    TotalDamage(list, amount, start);
  }

  /** One hit of each size is less than any amount with that default start, or 780, or more than any of them. */
  lemma DefaultTriangle(s: int)
    requires s >= 1
    ensures if s <= 38 then Triangle(s) <= 20 * s - 19 else if s == 39 then Triangle(s) == 780 else Triangle(s) > 20 * s
  {
    TriangleIs(s);
    if s <= 38 { SmallStart(s); } else if s >= 40 { LargeStart(s); }
  }

  lemma SmallStart(s: int)
    requires 1 <= s <= 38
    ensures s * (s + 1) <= 40 * s - 38
  {
    MulLe(s - 1, 0, 38 - s);
    assert (s - 1) * (38 - s) == 40 * s - 38 - s * (s + 1);
  }

  lemma LargeStart(s: int)
    requires s >= 40
    ensures s * (s + 1) > 40 * s
  {
    MulLe(s, 41, s + 1);
  }

  /** What the intervals of a list add to the ticks, which stay at -1 once they are there. */
  function TicksAfter(ticks: int, list: seq<Interval>): int
    decreases |list|
  {
    if list == [] then ticks
    else TicksAfter(if ticks == -1 then -1 else ticks + list[0].interval, list[1..])
  }

  lemma {:induction false} TicksAfterMore(ticks: int, list: seq<Interval>, x: Interval)
    ensures TicksAfter(ticks, list + [x]) == (var t := TicksAfter(ticks, list); if t == -1 then -1 else t + x.interval)
    decreases |list|
  {
    if list == [] {
      assert (list + [x])[1..] == [];
    } else {
      assert (list + [x])[1..] == list[1..] + [x];
      TicksAfterMore(if ticks == -1 then -1 else ticks + list[0].interval, list[1..], x);
    }
  }

  /** The hits as rounds of the damage list. */
  function Rounds(hits: seq<int>, time: int): seq<Interval> {
    seq(|hits|, k requires 0 <= k < |hits| => Interval(time, -hits[k], time))
  }

  lemma RoundsMore(hits: seq<int>, time: int, k: nat)
    requires k < |hits|
    ensures Rounds(hits[..k + 1], time) == Rounds(hits[..k], time) + [Interval(time, -hits[k], time)]
  {
  }

  lemma {:induction false} RoundsTicks(hits: seq<int>, time: int)
    requires time >= 0
    ensures TicksAfter(0, Rounds(hits, time)) == |hits| * time
    decreases |hits|
  {
    if hits != [] {
      var n := |hits| - 1;
      RoundsTicks(hits[..n], time);
      RoundsMore(hits, time, n);
      assert hits[..n + 1] == hits;
      TicksAfterMore(0, Rounds(hits[..n], time), Interval(time, -hits[n], time));
      assert n * time + time == |hits| * time;
      MulLe(time, 0, n);
    }
  }

  class DamageCondition {
    var ticks: int
    var damageList: seq<Interval>
    var startDamage: int
    const maxDamage: int
    const tickInterval: int

    constructor (maxDamage: int, startDamage: int, tickInterval: int)
      ensures this.maxDamage == maxDamage && this.startDamage == startDamage && this.tickInterval == tickInterval
      ensures ticks == 0 && damageList == []
    {
      this.maxDamage, this.startDamage, this.tickInterval := maxDamage, startDamage, tickInterval;
      ticks, damageList := 0, [];
    }

    method AddDamage(rounds: nat, time: int, value: int)
      modifies `damageList, `ticks
      ensures damageList == old(damageList) + seq(rounds, _ => Interval(time, value, time))
      ensures ticks == TicksAfter(old(ticks), seq(rounds, _ => Interval(time, value, time)))
    {
      ghost var more: seq<Interval> := [];
      for i := 0 to rounds
        invariant |more| == i && (forall k | 0 <= k < i :: more[k] == Interval(time, value, time))
        invariant damageList == old(damageList) + more && ticks == TicksAfter(old(ticks), more)
      {
        var damageInfo := Interval(time, value, time);
        TicksAfterMore(old(ticks), more, damageInfo);
        damageList := damageList + [damageInfo];
        if ticks != -1 { ticks := ticks + damageInfo.interval; }
        more := more + [damageInfo];
      }
      assert more == seq(rounds, _ => Interval(time, value, time));
    }

    method AddHits(list: seq<int>)
      requires damageList == [] && ticks == 0
      modifies `damageList, `ticks
      ensures damageList == Rounds(list, tickInterval) && ticks == TicksAfter(0, damageList)
    {
      for k := 0 to |list|
        invariant damageList == Rounds(list[..k], tickInterval) && ticks == TicksAfter(0, damageList)
      {
        var hit := Interval(tickInterval, -list[k], tickInterval);
        RoundsMore(list, tickInterval, k);
        ghost var before := damageList;
        AddDamage(1, tickInterval, -list[k]);
        assert seq(1, _ => Interval(tickInterval, -list[k], tickInterval)) == [hit];
        TicksAfterMore(0, before, hit);
        TicksOne(TicksAfter(0, before), hit);
      }
      assert list[..|list|] == list;
    }

    /** ConditionDamage::init with the amount that was rolled; `hits` is the list it generates. */
    method Init(amount: int) returns (ok: bool, ghost hits: seq<int>)
      requires tickInterval >= 0
      modifies this
      ensures ok <==> damageList != []
      ensures old(damageList) != [] ==> damageList == old(damageList) && ticks == old(ticks)
      ensures old(damageList) == [] && amount == 0 ==> damageList == [] && ticks == 0
      ensures old(damageList) == [] && amount != 0 ==>
        startDamage == if old(startDamage) > maxDamage then maxDamage
                       else if old(startDamage) == 0 then DefaultStart(amount) else old(startDamage)
      ensures old(damageList) == [] && amount != 0 ==>
        && Generated(hits, Abs(amount), startDamage)
        && damageList == Rounds(hits, tickInterval) && ticks == |hits| * tickInterval
    {
      hide Generated, TicksAfter, Abs;
      hits := [];
      if damageList == [] {
        ticks := 0;
        if amount != 0 {
          if startDamage > maxDamage {
            startDamage := maxDamage;
          } else if startDamage == 0 {
            startDamage := DefaultStart(amount);
          }
          var list := GenerateDamageList(amount, startDamage);
          hits := list;
          AddHits(list);
          RoundsTicks(list, tickInterval);
        }
      }
      ok := damageList != [];
    }
  }

  lemma TicksOne(ticks: int, x: Interval)
    ensures TicksAfter(ticks, [x]) == if ticks == -1 then -1 else ticks + x.interval
  {
    TicksAfterMore(ticks, [], x);
    assert [] + [x] == [x];
  }
}
