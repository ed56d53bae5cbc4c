/** Walking a set of ids from the greatest down. */
module AscendingIds {
  ghost predicate Ascending(order: seq<int>, keys: set<int>) {
    && (forall i | 0 <= i < |order| :: order[i] in keys) && (forall s | s in keys :: s in order)
    && (forall i, j | 0 <= i < j < |order| :: order[i] < order[j])
  }

  lemma AscendingMore(order: seq<int>, keys: set<int>, s: int)
    requires Ascending(order, keys) && forall t | t in order :: s < t
    ensures Ascending([s] + order, keys + {s})
  {
  }

  lemma {:induction false} HasGreatest(keys: set<int>)
    requires keys != {}
    ensures exists most :: most in keys && forall s | s in keys :: s <= most
    decreases |keys|
  {
    if forall s :: s !in keys { assert false; }
    var most :| most in keys;
    var rest := keys - {most};
    if rest == {} {
      assert forall s | s in keys :: s in rest || s == most;
    } else {
      HasGreatest(rest);
      var other :| other in rest && forall s | s in rest :: s <= other;
      var greatest := if other > most then other else most;
      assert greatest in keys && forall s | s in keys :: s in rest || s == most;
    }
  }

  /** Ids without a gap leave no choice. */
  lemma {:induction false} ConsecutiveIds(order: seq<int>, keys: set<int>, from: int, n: nat, k: nat)
    requires Ascending(order, keys) && forall s :: s in keys <==> from <= s < from + n
    requires k <= |order|
    ensures forall i | 0 <= i < k :: order[i] == from + i
    ensures k <= n && (k == |order| ==> k == n)
    decreases k
  {
    if k > 0 {
      ConsecutiveIds(order, keys, from, n, k - 1);
      assert order[k - 1] in keys && (k > 1 ==> order[k - 2] < order[k - 1]);
      if from + k - 1 < from + n {
        assert from + k - 1 in keys;
        var j :| 0 <= j < |order| && order[j] == from + k - 1;
        assert j <= k - 1;
      }
    }
    if k == |order| && from + k in keys { assert false; }
  }
}
