/** The description of a generated damage list leaves no choice. */
module DamageShape {
  import opened Arithmetic
  import opened DamageList

  /** With as many larger hits, two such lists have as many hits of i. */
  lemma {:induction false} SameCounts(a: seq<int>, b: seq<int>, amount: nat, start: int, i: int)
    requires Generated(a, amount, start) && Generated(b, amount, start) && 1 <= i <= start + 1
    ensures SumFrom(a, i) == SumFrom(b, i) && forall j | i <= j :: multiset(a)[j] == multiset(b)[j]
    decreases start - i
  {
    if i == start + 1 {
      NothingAbove(a, i);
      NothingAbove(b, i);
      forall j | i <= j ensures multiset(a)[j] == 0 == multiset(b)[j] {
        NoSuchHit(a, start, j);
        NoSuchHit(b, start, j);
      }
    } else {
      SameCounts(a, b, amount, start, i + 1);
      SumFromStep(a, i);
      SumFromStep(b, i);
      assert Near(a, amount, start, i) && Near(b, amount, start, i);
      SameCount(multiset(a)[i], multiset(b)[i], i, SumFrom(a, i + 1), Share(amount, start, i));
    }
  }

  lemma NoSuchHit(list: seq<int>, start: int, j: int)
    requires Within(list, 1, start) && !(1 <= j <= start)
    ensures multiset(list)[j] == 0
  {
    assert j !in list;
  }

  lemma SameCount(c: nat, d: nat, i: int, above: int, share: int)
    requires i >= 1 && c >= 1 && d >= 1
    requires 2 * (share - (above + i * c)) <= i && (c > 1 ==> 2 * (above + i * c - share) < i)
    requires 2 * (share - (above + i * d)) <= i && (d > 1 ==> 2 * (above + i * d - share) < i)
    ensures c == d
  {
    if c < d { OneMore(i, c, d); }
    if d < c { OneMore(i, d, c); }
  }

  lemma OneMore(i: int, c: int, d: int)
    requires i >= 1 && c < d
    ensures i * d >= i * c + i
  {
    MulLe(i, c + 1, d);
  }

  lemma LastOff(a: seq<int>)
    requires a != []
    ensures var n := |a| - 1; multiset(a) == multiset(a[..n]) + multiset{a[n]} && (Falling(a) ==> Falling(a[..n]))
  {
    var n := |a| - 1;
    assert a == a[..n] + [a[n]];
  }

  lemma LastIsLeast(a: seq<int>, x: int)
    requires Falling(a) && x in multiset(a)
    ensures a != [] && a[|a| - 1] <= x
  {
    assert x in a;
  }

  lemma Cancelled(x: multiset<int>, y: multiset<int>, v: int)
    requires x + multiset{v} == y + multiset{v}
    ensures x == y
  {
    assert x == x + multiset{v} - multiset{v} && y == y + multiset{v} - multiset{v};
  }

  lemma LastOn(a: seq<int>)
    requires a != []
    ensures a == a[..|a| - 1] + [a[|a| - 1]]
  {
  }

  lemma {:induction false} FallingIsFixed(a: seq<int>, b: seq<int>)
    requires Falling(a) && Falling(b) && multiset(a) == multiset(b)
    ensures a == b
    decreases |a|
  {
    hide Falling;
    if a == [] {
      assert |multiset(b)| == |b|;
    } else {
      var n, m := |a| - 1, |b| - 1;
      assert a[n] in multiset(a);
      LastIsLeast(b, a[n]);
      assert b[m] in multiset(b);
      LastIsLeast(a, b[m]);
      LastOff(a);
      LastOff(b);
      Cancelled(multiset(a[..n]), multiset(b[..m]), a[n]);
      FallingIsFixed(a[..n], b[..m]);
      LastOn(a);
      LastOn(b);
    }
  }

  /** There is only one such list. */
  lemma OneList(a: seq<int>, b: seq<int>, amount: nat, start: int)
    requires Generated(a, amount, start) && Generated(b, amount, start)
    ensures a == b
  {
    if start < 1 {
      NothingWithin(a, 1, start);
      NothingWithin(b, 1, start);
    } else {
      SameCounts(a, b, amount, start, 1);
      forall j ensures multiset(a)[j] == multiset(b)[j] {
        if j < 1 {
          NoSuchHit(a, start, j);
          NoSuchHit(b, start, j);
        }
      }
      assert multiset(a) == multiset(b);
      FallingIsFixed(a, b);
    }
  }
}
