/** The four elementary changes to a forest of items, and what each keeps. */
module ItemMoves {
  import opened ItemForest

  /** list::erase of the first x. */
  function Without(s: seq<Item>, x: Item): seq<Item> {
    if s == [] then []
    else if s[0] == x then s[1..]
    else [s[0]] + Without(s[1..], x)
  }

  lemma {:induction false} WithoutOnce(s: seq<Item>, x: Item)
    requires x in s && forall i, j | 0 <= i < j < |s| :: s[i] != s[j]
    ensures |Without(s, x)| == |s| - 1
    ensures forall y :: y in Without(s, x) <==> y in s && y != x
    ensures forall i, j | 0 <= i < j < |s| - 1 :: Without(s, x)[i] != Without(s, x)[j]
  {
    assert forall y :: y in s <==> y == s[0] || y in s[1..];
    assert s[0] !in s[1..];
    if s[0] != x { WithoutOnce(s[1..], x); }
  }

  lemma {:induction false} WithoutAt(s: seq<Item>, x: Item, i: nat)
    requires forall i, j | 0 <= i < j < |s| :: s[i] != s[j]
    requires i < |Without(s, x)|
    ensures Without(s, x)[i] in s && Without(s, x)[i] != x
  {
    if s[0] == x {
      assert s[1..][i] == s[i + 1];
    } else if i > 0 {
      WithoutAt(s[1..], x, i - 1);
    }
  }

  /** Takes x out of its container. */
  function Detach(w: World, x: Item): World
    requires x in w && w[x].parent != null && w[x].parent in w
  {
    var c := w[x].parent;
    w[c := w[c].(items := Without(w[c].items, x))][x := w[x].(parent := null)]
  }

  /** Puts x at the front of c. */
  function Attach(w: World, c: Item, x: Item): World
    requires c in w && x in w
  {
    w[c := w[c].(items := [x] + w[c].items)][x := w[x].(parent := c)]
  }

  function SetCount(w: World, x: Item, n: nat): World
    requires x in w
  {
    w[x := w[x].(count := n)]
  }

  function Create(w: World, x: Item, typ: ItemType, n: nat): World {
    w[x := Rec(typ, null, [], n)]
  }

  // ---------------------------------------------------------------- detaching

  ghost predicate CanDetach(w: World, x: Item) {
    Forest(w) && x in w && w[x].parent != null
  }

  lemma DetachWired(w: World, x: Item)
    requires CanDetach(w, x)
    ensures Wired(Detach(w, x))
  {
    var v := Detach(w, x);
    var c := w[x].parent;
    NotOwnParent(w, x);
    WithoutOnce(w[c].items, x);
    forall d | d in v ensures Listed(v, d) {
      assert Listed(w, d);
      if d == c {
        forall i | 0 <= i < |v[c].items| ensures v[c].items[i] in w && v[v[c].items[i]].parent == c {
          WithoutAt(w[c].items, x, i);
        }
      } else {
        assert x !in w[d].items;
      }
    }
    forall y | y in v && v[y].parent != null ensures y in v[v[y].parent].items {
      assert y in w[w[y].parent].items;
    }
  }

  lemma NotOwnParent(w: World, x: Item)
    requires CanDetach(w, x)
    ensures w[x].parent != x && w[x].parent in w
  {
    NoSelfNesting(w, x);
    UnderStep(w, x, x);
  }

  lemma {:induction false} DetachUp(w: World, x: Item, y: Item?, n: nat)
    requires CanDetach(w, x) && w[x].parent in w && (y != null ==> y in w) && Up(w, y, n) == null
    ensures Up(Detach(w, x), y, n) == null
    decreases n
  {
    NotOwnParent(w, x);
    if n > 0 && y != null && y != x {
      if w[y].parent != null { assert w[y].parent in w; }
      DetachUp(w, x, w[y].parent, n - 1);
    }
  }

  lemma DetachForest(w: World, x: Item)
    requires CanDetach(w, x)
    ensures w[x].parent in w && Forest(Detach(w, x))
  {
    NotOwnParent(w, x);
    DetachWired(w, x);
    var n: nat :| EndsWithin(w, n);
    forall y | y in Detach(w, x) ensures Up(Detach(w, x), y, n) == null { DetachUp(w, x, y, n); }
    assert EndsWithin(Detach(w, x), n);
  }

  lemma {:induction false} DetachUnder(w: World, v: World, x: Item, a: Item, b: Item, n: nat)
    requires CanDetach(w, x) && w[x].parent in w && v == Detach(w, x) && b in w && Up(w, b, n) == null
    ensures Under(v, a, b) <==> Under(w, a, b) && (InSub(w, x, b) ==> InSub(w, x, a))
    decreases n
  {
    NotOwnParent(w, x);
    UnderStep(w, a, b);
    UnderStep(v, a, b);
    UnderStep(w, x, b);
    var p := w[b].parent;
    if b == x {
      if Under(w, a, x) && InSub(w, x, a) {
        NoSelfNesting(w, x);
        if a != x { UnderTrans(w, x, a, x); }
      }
    } else if p != null {
      assert p in w;
      DetachUnder(w, v, x, a, p, n - 1);
    }
  }

  /** Taking x out takes everything below it out of every container outside. */
  lemma DetachBelow(w: World, x: Item, c: Item)
    requires CanDetach(w, x) && w[x].parent in w
    ensures !InSub(w, x, c) ==> Below(Detach(w, x), c) == Below(w, c) - Sub(w, x)
    ensures InSub(w, x, c) ==> Below(Detach(w, x), c) == Below(w, c)
  {
    var v := Detach(w, x);
    NotOwnParent(w, x);
    var n: nat :| EndsWithin(w, n);
    forall b | b in w
      ensures Under(v, c, b) <==> Under(w, c, b) && (InSub(w, x, b) ==> InSub(w, x, c))
      ensures InSub(w, x, c) && Under(w, c, b) ==> InSub(w, x, b)
    {
      DetachUnder(w, v, x, c, b, n);
      if Under(w, x, c) && Under(w, c, b) { UnderTrans(w, x, c, b); }
    }
  }

  // ---------------------------------------------------------------- attaching

  ghost predicate CanAttach(w: World, c: Item, x: Item) {
    && Forest(w) && c in w && x in w && w[x].parent == null
    && !w[c].typ.kind.Plain? && !InSub(w, x, c)
  }

  lemma AttachWired(w: World, c: Item, x: Item)
    requires CanAttach(w, c, x)
    ensures Wired(Attach(w, c, x))
  {
    var v := Attach(w, c, x);
    forall d | d in v ensures Listed(v, d) {
      assert Listed(w, d);
      assert x !in w[d].items;
    }
    forall y | y in v && v[y].parent != null ensures v[y].parent in v && y in v[v[y].parent].items {
      if y != x { assert y in w[w[y].parent].items; }
    }
  }

  lemma ParentIn(w: World, y: Item)
    requires Forest(w) && y in w && w[y].parent != null
    ensures w[y].parent in w
  {
  }

  /** Outside the attached part nothing changes above an item. */
  lemma {:induction false} AttachUpOutside(w: World, c: Item, x: Item, y: Item?, n: nat)
    requires CanAttach(w, c, x) && (y != null ==> y in w && !InSub(w, x, y))
    ensures Up(Attach(w, c, x), y, n) == Up(w, y, n)
    decreases n
  {
    hide Forest, Under;
    if n > 0 && y != null {
      UnderStep(w, x, y);
      var p := w[y].parent;
      if p != null { ParentIn(w, y); }
      AttachUpOutside(w, c, x, p, n - 1);
    }
  }

  lemma {:induction false} AttachUpInside(w: World, c: Item, x: Item, y: Item, k: nat, n: nat)
    requires CanAttach(w, c, x) && y in w && Up(w, y, k) == x
    ensures Up(Attach(w, c, x), y, k + 1 + n) == Up(w, c, n)
    decreases k
  {
    var v := Attach(w, c, x);
    if y == x {
      AttachUpOutside(w, c, x, c, n);
      if k > 0 { RootEnds(w, x, k); }
      assert Up(v, x, 1 + n) == Up(v, c, n);
    } else {
      assert k > 0 && w[y].parent != null && w[y].parent in w;
      AttachUpInside(w, c, x, w[y].parent, k - 1, n);
    }
  }

  lemma RootEnds(w: World, x: Item, k: nat)
    requires x in w && w[x].parent == null && k > 0
    ensures Up(w, x, k) == null
  {
  }

  lemma {:induction false} UpEnded(w: World, x: Item?, m: nat, n: nat)
    requires Up(w, x, m) == null && m <= n
    ensures Up(w, x, n) == null
    decreases m
  {
    if m > 0 && x != null && x in w { UpEnded(w, w[x].parent, m - 1, n - 1); }
  }

  lemma AttachForest(w: World, c: Item, x: Item)
    requires CanAttach(w, c, x)
    ensures Forest(Attach(w, c, x))
  {
    AttachWired(w, c, x);
    var n: nat :| EndsWithin(w, n);
    AttachEnds(w, c, x, Attach(w, c, x), n);
  }

  lemma AttachEnds(w: World, c: Item, x: Item, v: World, n: nat)
    requires CanAttach(w, c, x) && EndsWithin(w, n) && v == Attach(w, c, x)
    ensures EndsWithin(v, 2 * n + 1)
  {
    forall y | y in v ensures Up(v, y, 2 * n + 1) == null {
      if InSub(w, x, y) {
        var k: nat := ReachedIn(w, x, y, n);
        AttachUpInside(w, c, x, y, k, n);
        UpEnded(v, y, k + 1 + n, 2 * n + 1);
      } else {
        AttachUpOutside(w, c, x, y, n);
        UpEnded(v, y, n, 2 * n + 1);
      }
    }
  }

  lemma ReachedIn(w: World, x: Item, y: Item, n: nat) returns (k: nat)
    requires InSub(w, x, y) && Up(w, y, n) == null
    ensures k <= n && Up(w, y, k) == x
  {
    if y == x { return 0; }
    k :| k > 0 && Up(w, y, k) == x;
    if k > n { UpEnded(w, y, n, k); }
  }

  lemma {:induction false} AttachUnder(w: World, v: World, c: Item, x: Item, a: Item, b: Item, n: nat)
    requires CanAttach(w, c, x) && v == Attach(w, c, x) && b in w && Up(w, b, n) == null
    ensures Under(v, a, b) <==> Under(w, a, b) || (InSub(w, x, b) && InSub(w, a, c))
    decreases n
  {
    UnderStep(w, a, b);
    UnderStep(v, a, b);
    UnderStep(w, x, b);
    var p := w[b].parent;
    if b == x {
      forall m: nat ensures Up(v, c, m) == Up(w, c, m) { AttachUpOutside(w, c, x, c, m); }
    } else if p != null {
      assert p in w;
      AttachUnder(w, v, c, x, a, p, n - 1);
      if p == a && InSub(w, x, b) && InSub(w, a, c) {}
    }
  }

  /** Putting x in puts everything below it under c and under everything above c, and nowhere else. */
  lemma AttachBelow(w: World, c: Item, x: Item, r: Item)
    requires CanAttach(w, c, x)
    ensures Below(Attach(w, c, x), r) == Below(w, r) + if InSub(w, r, c) then Sub(w, x) else {}
  {
    var v := Attach(w, c, x);
    var n: nat :| EndsWithin(w, n);
    forall b | b in w
      ensures Under(v, r, b) <==> Under(w, r, b) || (InSub(w, x, b) && InSub(w, r, c))
    {
      AttachUnder(w, v, c, x, r, b, n);
    }
  }

  // ---------------------------------------------------------------- counts and new items

  lemma SetCountForest(w: World, x: Item, n: nat)
    requires Forest(w) && x in w
    ensures Forest(SetCount(w, x, n)) && SameParents(w, SetCount(w, x, n))
  {
    SameShape(w, SetCount(w, x, n));
  }

  lemma CreateForest(w: World, x: Item, typ: ItemType, n: nat)
    requires Forest(w) && x !in w
    ensures Forest(Create(w, x, typ, n)) && SameParents(w, Create(w, x, typ, n))
  {
    SameShape(w, Create(w, x, typ, n));
  }

  lemma SameShape(w: World, v: World)
    requires Forest(w) && SameParents(w, v)
    requires forall x | x in w :: v[x].items == w[x].items && v[x].typ == w[x].typ
    requires forall x | x in v && x !in w :: v[x].items == []
    ensures Forest(v)
  {
    SameShapeWired(w, v);
    var n: nat :| EndsWithin(w, n);
    SameEnds(w, v, n);
  }

  lemma SameEnds(w: World, v: World, n: nat)
    requires Wired(w) && SameParents(w, v) && EndsWithin(w, n)
    ensures EndsWithin(v, n + 1)
  {
    forall x | x in v ensures Up(v, x, n + 1) == null {
      if x in w {
        UpSame(w, v, x, n);
        UpEnded(v, x, n, n + 1);
      }
    }
  }

  lemma SameShapeWired(w: World, v: World)
    requires Wired(w) && SameParents(w, v)
    requires forall x | x in w :: v[x].items == w[x].items && v[x].typ == w[x].typ
    requires forall x | x in v && x !in w :: v[x].items == []
    ensures Wired(v)
  {
    forall c | c in v ensures Listed(v, c) {
      if c in w { assert Listed(w, c); }
    }
  }
}
