/** The breadth-first worklist that all container traversals share: it sees everything below the root, once. */
module Worklist {
  import opened ItemForest

  /** x is still to be seen: below a waiting container, or in the unread rest of the list being read. */
  ghost predicate Ahead(w: World, waiting: seq<Item>, rest: seq<Item>, x: Item) {
    (exists i | 0 <= i < |waiting| :: Under(w, waiting[i], x)) || (exists i | 0 <= i < |rest| :: InSub(w, rest[i], x))
  }

  ghost predicate Apart(w: World, a: Item, b: Item) {
    !InSub(w, a, b) && !InSub(w, b, a)
  }

  /** What waits and what is unread lies below the root, without overlap. */
  ghost predicate Spread(w: World, root: Item, waiting: seq<Item>, rest: seq<Item>) {
    && (forall i | 0 <= i < |waiting| :: waiting[i] in w && InSub(w, root, waiting[i]))
    && (forall i | 0 <= i < |rest| :: rest[i] in w && Under(w, root, rest[i]))
    && (forall i, j | 0 <= i < j < |waiting| :: Apart(w, waiting[i], waiting[j]))
    && (forall i, j | 0 <= i < j < |rest| :: Apart(w, rest[i], rest[j]))
    && (forall i, j | 0 <= i < |waiting| && 0 <= j < |rest| :: Apart(w, waiting[i], rest[j]))
  }

  ghost predicate Front(w: World, root: Item, seen: set<Item>, waiting: seq<Item>, rest: seq<Item>) {
    && Forest(w) && root in w
    && Spread(w, root, waiting, rest)
    && seen <= Below(w, root)
    && forall x | x in Below(w, root) :: x in seen <==> !Ahead(w, waiting, rest, x)
  }

  lemma FrontStart(w: World, root: Item)
    requires Forest(w) && root in w
    ensures Front(w, root, {}, [root], [])
  {
    forall x | x in Below(w, root) ensures Ahead(w, [root], [], x) { assert Under(w, [root][0], x); }
  }

  lemma FrontDone(w: World, root: Item, seen: set<Item>)
    requires Front(w, root, seen, [], [])
    ensures seen == Below(w, root)
  {
    forall x | x in Below(w, root) ensures x in seen { assert !Ahead(w, [], [], x); }
  }

  lemma {:induction false} ChildAbove(w: World, c: Item, x: Item, n: nat) returns (i: nat)
    requires Wired(w) && c in w && x in w && n > 0 && Up(w, x, n) == c
    ensures i < |w[c].items| && InSub(w, w[c].items[i], x)
    decreases n
  {
    var p := w[x].parent;
    if n == 1 {
      i :| 0 <= i < |w[c].items| && w[c].items[i] == x;
    } else {
      i := ChildAbove(w, c, p, n - 1);
      UnderStep(w, w[c].items[i], x);
    }
  }

  /** Everything below a container is one of its items or below one of them. */
  lemma ChildrenCover(w: World, c: Item, x: Item)
    requires Forest(w) && c in w && x in w
    ensures Under(w, c, x) <==> exists i | 0 <= i < |w[c].items| :: InSub(w, w[c].items[i], x)
  {
    if Under(w, c, x) {
      var n: nat :| n > 0 && Up(w, x, n) == c;
      var i := ChildAbove(w, c, x, n);
    }
    forall i | 0 <= i < |w[c].items| && InSub(w, w[c].items[i], x) ensures Under(w, c, x) {
      var y := w[c].items[i];
      assert Listed(w, c);
      UnderStep(w, c, y);
      if y != x { UnderTrans(w, c, y, x); }
    }
  }

  lemma ItemsApart(w: World, c: Item, i: nat, j: nat)
    requires Forest(w) && c in w && i < j < |w[c].items|
    ensures Apart(w, w[c].items[i], w[c].items[j])
  {
    assert Listed(w, c);
    NotNested(w, c, w[c].items[i], w[c].items[j]);
    NotNested(w, c, w[c].items[j], w[c].items[i]);
  }

  lemma NotNested(w: World, c: Item, a: Item, b: Item)
    requires Forest(w) && c in w && a in w && b in w && w[a].parent == c && w[b].parent == c
    ensures !Under(w, a, b)
  {
    UnderStep(w, a, b);
    UnderStep(w, c, a);
    NoSelfNesting(w, a);
    NoSelfNesting(w, c);
    if Under(w, a, b) && Under(w, a, c) { UnderTrans(w, a, c, a); }
  }

  lemma ItemApart(w: World, c: Item, y: Item, p: Item)
    requires Forest(w) && c in w && y in w && w[y].parent == c && p in w && Apart(w, c, p)
    ensures Apart(w, y, p) && Apart(w, p, y)
  {
    UnderStep(w, p, y);
    UnderStep(w, c, y);
    if Under(w, y, p) { UnderTrans(w, c, y, p); }
  }

  /** The first waiting container is taken up. */
  lemma FrontOpen(w: World, root: Item, seen: set<Item>, waiting: seq<Item>)
    requires Front(w, root, seen, waiting, []) && waiting != []
    ensures waiting[0] in w && Front(w, root, seen, waiting[1..], w[waiting[0]].items)
  {
    var c := waiting[0];
    var items := w[c].items;
    assert Listed(w, c);
    SpreadOpen(w, root, waiting);
    forall x | x in Below(w, root) ensures x in seen <==> !Ahead(w, waiting[1..], items, x) {
      ChildrenCover(w, c, x);
      AheadOpen(w, waiting, items, x);
    }
  }

  lemma AheadOpen(w: World, waiting: seq<Item>, items: seq<Item>, x: Item)
    requires waiting != []
    requires Under(w, waiting[0], x) <==> exists i | 0 <= i < |items| :: InSub(w, items[i], x)
    ensures Ahead(w, waiting, [], x) <==> Ahead(w, waiting[1..], items, x)
  {
    if Ahead(w, waiting, [], x) && !Under(w, waiting[0], x) {
      var i :| 0 <= i < |waiting| && Under(w, waiting[i], x);
      assert Under(w, waiting[1..][i - 1], x);
    }
    if i :| 0 <= i < |waiting| - 1 && Under(w, waiting[1..][i], x) { assert Under(w, waiting[i + 1], x); }
  }

  lemma SpreadOpen(w: World, root: Item, waiting: seq<Item>)
    requires Forest(w) && Spread(w, root, waiting, []) && waiting != [] && root in w
    ensures Spread(w, root, waiting[1..], w[waiting[0]].items)
  {
    var c := waiting[0];
    var items := w[c].items;
    assert Listed(w, c);
    forall i | 0 <= i < |items| ensures items[i] in w && Under(w, root, items[i]) {
      UnderStep(w, root, items[i]);
    }
    forall i, j | 0 <= i < j < |items| ensures Apart(w, items[i], items[j]) { ItemsApart(w, c, i, j); }
    forall i, j | 0 <= i < |waiting[1..]| && 0 <= j < |items| ensures Apart(w, waiting[1..][i], items[j]) {
      assert Apart(w, waiting[0], waiting[i + 1]);
      ItemApart(w, c, items[j], waiting[1..][i]);
    }
  }

  /** The next item of the list is read; a container joins the queue. */
  lemma FrontRead(w: World, root: Item, seen: set<Item>, waiting: seq<Item>, rest: seq<Item>, more: seq<Item>)
    requires Front(w, root, seen, waiting, rest) && rest != []
    requires rest[0] in w && more == if w[rest[0]].typ.kind.Plain? then [] else [rest[0]]
    ensures rest[0] !in seen && rest[0] in Below(w, root)
    ensures Front(w, root, seen + {rest[0]}, waiting + more, rest[1..])
  {
    var y := rest[0];
    assert InSub(w, rest[0], y);
    assert Ahead(w, waiting, rest, y);
    SpreadRead(w, root, waiting, rest, more);
    forall x | x in Below(w, root) ensures x in seen + {y} <==> !Ahead(w, waiting + more, rest[1..], x) {
      AheadRead(w, waiting, rest, more, x);
    }
  }

  lemma SpreadRead(w: World, root: Item, waiting: seq<Item>, rest: seq<Item>, more: seq<Item>)
    requires Spread(w, root, waiting, rest) && rest != [] && (more == [] || more == [rest[0]])
    ensures Spread(w, root, waiting + more, rest[1..])
  {
    forall i, j | 0 <= i < |waiting + more| && 0 <= j < |rest[1..]|
      ensures Apart(w, (waiting + more)[i], rest[1..][j])
    {
      if i == |waiting| { assert Apart(w, rest[0], rest[j + 1]); } else { assert Apart(w, waiting[i], rest[j + 1]); }
    }
    forall i, j | 0 <= i < j < |waiting + more| ensures Apart(w, (waiting + more)[i], (waiting + more)[j]) {
      if j == |waiting| { assert Apart(w, waiting[i], rest[0]); }
    }
  }

  lemma AheadRead(w: World, waiting: seq<Item>, rest: seq<Item>, more: seq<Item>, x: Item)
    requires Forest(w) && rest != [] && rest[0] in w && x in w
    requires more == if w[rest[0]].typ.kind.Plain? then [] else [rest[0]]
    requires forall i | 0 <= i < |waiting| :: Apart(w, waiting[i], rest[0])
    requires forall j | 0 < j < |rest| :: Apart(w, rest[0], rest[j])
    ensures Ahead(w, waiting + more, rest[1..], x) <==> Ahead(w, waiting, rest, x) && x != rest[0]
  {
    var y := rest[0];
    NoSelfNesting(w, y);
    if Ahead(w, waiting + more, rest[1..], x) {
      if i :| 0 <= i < |waiting + more| && Under(w, (waiting + more)[i], x) {
        if i < |waiting| { assert Under(w, waiting[i], x); } else { assert InSub(w, rest[0], x); }
      } else {
        var i :| 0 <= i < |rest[1..]| && InSub(w, rest[1..][i], x);
        assert InSub(w, rest[i + 1], x);
      }
    }
    if Ahead(w, waiting, rest, x) && x != y {
      if i :| 0 <= i < |waiting| && Under(w, waiting[i], x) {
        assert Under(w, (waiting + more)[i], x);
      } else {
        var i :| 0 <= i < |rest| && InSub(w, rest[i], x);
        if i > 0 {
          assert InSub(w, rest[1..][i - 1], x);
        } else {
          HoldsSomething(w, y, x);
          assert (waiting + more)[|waiting|] == y;
        }
      }
    }
  }

  lemma HoldsSomething(w: World, y: Item, x: Item)
    requires Forest(w) && y in w && x in w && Under(w, y, x)
    ensures !w[y].typ.kind.Plain?
  {
    var n: nat :| n > 0 && Up(w, x, n) == y;
    var i := ChildAbove(w, y, x, n);
    assert Listed(w, y);
  }

  /** Reading the list of `container` has come to index i; `before` was seen when it was opened. */
  ghost predicate Reading(w: World, root: Item, container: Item, i: nat, before: set<Item>, queue: seq<Item>,
                          seen: set<Item>, waiting: seq<Item>) {
    && container in w && i <= |w[container].items|
    && Front(w, root, seen, waiting, w[container].items[i..])
    && before <= seen && (seen == before ==> waiting == queue)
  }

  lemma ReadingStart(w: World, root: Item, seen: set<Item>, waiting: seq<Item>)
    requires Front(w, root, seen, waiting, []) && waiting != []
    ensures waiting[0] in w && Reading(w, root, waiting[0], 0, seen, waiting[1..], seen, waiting[1..])
  {
    FrontOpen(w, root, seen, waiting);
    assert w[waiting[0]].items[0..] == w[waiting[0]].items;
  }

  lemma ReadingItem(w: World, root: Item, container: Item, i: nat, before: set<Item>, queue: seq<Item>,
                    seen: set<Item>, waiting: seq<Item>)
    requires container in w && Reading(w, root, container, i, before, queue, seen, waiting) && i < |w[container].items|
    ensures w[container].items[i] in w
  {
    assert Listed(w, container);
  }

  lemma ReadingStep(w: World, root: Item, container: Item, i: nat, before: set<Item>, queue: seq<Item>,
                    seen: set<Item>, waiting: seq<Item>, item: Item, more: seq<Item>)
    requires Reading(w, root, container, i, before, queue, seen, waiting) && i < |w[container].items|
    requires item == w[container].items[i] && item in w && more == if w[item].typ.kind.Plain? then [] else [item]
    ensures item !in seen && item in Below(w, root)
    ensures Reading(w, root, container, i + 1, before, queue, seen + {item}, waiting + more)
  {
    assert w[container].items[i..][1..] == w[container].items[i + 1..];
    FrontRead(w, root, seen, waiting, w[container].items[i..], more);
  }

  /** At the end of the list there is less left to see, or one container fewer waits. */
  lemma ReadingEnd(w: World, root: Item, container: Item, before: set<Item>, queue: seq<Item>,
                   seen: set<Item>, waiting: seq<Item>)
    requires container in w && Reading(w, root, container, |w[container].items|, before, queue, seen, waiting)
    ensures Front(w, root, seen, waiting, [])
    ensures |Below(w, root) - seen| < |Below(w, root) - before|
      || (|Below(w, root) - seen| == |Below(w, root) - before| && waiting == queue)
  {
    if seen != before {
      var x :| x in seen && x !in before;
      SubsetSize(Below(w, root) - seen, Below(w, root) - before - {x});
    }
  }
}
