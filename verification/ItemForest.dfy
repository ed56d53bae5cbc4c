/** Items, containers and depots: who holds whom, and what the four elementary changes do to it. */
module ItemForest {
  datatype Kind = Plain | Container(capacity: nat) | Depot(capacity: nat, limit: nat)

  /** A row of items[]; two items have the same id when they have the same row. */
  datatype ItemType = ItemType(id: nat, kind: Kind, stackable: bool, pickupable: bool, moveable: bool)

  class Item {
    const typ: ItemType
    /** The attribute bytes as they are stored; no operation here looks inside. */
    const attributes: seq<nat>
    var parent: Item?
    var items: seq<Item>
    var count: nat

    constructor (typ: ItemType, count: nat, attributes: seq<nat> := [])
      ensures this.typ == typ && this.count == count && this.attributes == attributes && parent == null && items == []
    {
      this.typ, this.count, this.attributes := typ, count, attributes;
      parent, items := null, [];
    }
  }

  /** The fields of one item, and of all of them. */
  datatype Rec = Rec(typ: ItemType, parent: Item?, items: seq<Item>, count: nat)
  type World = map<Item, Rec>

  // ---------------------------------------------------------------- ancestors

  function Up(w: World, x: Item?, n: nat): Item? {
    if n == 0 || x == null then x
    else if x !in w then null
    else Up(w, w[x].parent, n - 1)
  }

  /** c is a proper ancestor of x. */
  ghost predicate Under(w: World, c: Item, x: Item) {
    exists n: nat :: n > 0 && Up(w, x, n) == c
  }

  lemma UnderStep(w: World, c: Item, x: Item)
    requires x in w
    ensures Under(w, c, x) <==> w[x].parent != null && (w[x].parent == c || Under(w, c, w[x].parent))
  {
    var p := w[x].parent;
    if p == c {
      assert Up(w, x, 1) == Up(w, p, 0) == c;
    } else if p != null && Under(w, c, p) {
      var n: nat :| n > 0 && Up(w, p, n) == c;
      assert Up(w, x, n + 1) == c;
    } else if Under(w, c, x) {
      var n: nat :| n > 0 && Up(w, x, n) == c;
      assert Up(w, p, n - 1) == c;
    }
  }

  lemma {:induction false} UpAdds(w: World, x: Item?, m: nat, n: nat)
    ensures Up(w, Up(w, x, m), n) == Up(w, x, m + n)
    decreases m
  {
    if m > 0 && x != null && x in w { UpAdds(w, w[x].parent, m - 1, n); }
  }

  lemma UnderTrans(w: World, a: Item, b: Item, c: Item)
    requires Under(w, a, b) && Under(w, b, c)
    ensures Under(w, a, c)
  {
    var m: nat :| m > 0 && Up(w, c, m) == b;
    var n: nat :| n > 0 && Up(w, b, n) == a;
    UpAdds(w, c, m, n);
  }

  /** x with everything below it. */
  ghost predicate InSub(w: World, x: Item, y: Item) {
    y == x || Under(w, x, y)
  }

  ghost function Below(w: World, c: Item): set<Item> {
    set x | x in w && Under(w, c, x)
  }

  ghost function Sub(w: World, x: Item): set<Item> {
    {x} + Below(w, x)
  }

  // ---------------------------------------------------------------- the forest invariant

  /** An item is in a container's list exactly once if and only if that container is its parent. */
  ghost predicate Wired(w: World) {
    && (forall c | c in w :: Listed(w, c))
    && (forall x | x in w :: w[x].parent != null ==> w[x].parent in w && x in w[w[x].parent].items)
  }

  ghost predicate Listed(w: World, c: Item)
    requires c in w
  {
    && (w[c].items != [] ==> !w[c].typ.kind.Plain?)
    && (forall i | 0 <= i < |w[c].items| :: w[c].items[i] in w && w[w[c].items[i]].parent == c)
    && (forall i, j | 0 <= i < j < |w[c].items| :: w[c].items[i] != w[c].items[j])
  }

  /** Climbing ends: no container is its own ancestor. */
  ghost predicate EndsWithin(w: World, n: nat) {
    forall x | x in w :: Up(w, x, n) == null
  }

  ghost predicate Forest(w: World) {
    Wired(w) && exists n: nat :: EndsWithin(w, n)
  }

  lemma {:induction false} CircleNeverEnds(w: World, x: Item, k: nat, n: nat)
    requires k > 0 && Up(w, x, k) == x
    ensures Up(w, x, n) != null
    decreases n
  {
    if n < k {
      UpAdds(w, x, n, k - n);
    } else {
      UpAdds(w, x, k, n - k);
      CircleNeverEnds(w, x, k, n - k);
    }
  }

  /** No container is its own ancestor. */
  lemma NoSelfNesting(w: World, x: Item)
    requires Forest(w) && x in w
    ensures !Under(w, x, x)
  {
    var n: nat :| EndsWithin(w, n);
    if Under(w, x, x) {
      var k: nat :| k > 0 && Up(w, x, k) == x;
      CircleNeverEnds(w, x, k, n);
    }
  }

  lemma {:induction false} UpStays(w: World, x: Item, n: nat)
    requires Wired(w) && x in w && Up(w, x, n) != null
    ensures Up(w, x, n) in w
    decreases n
  {
    if n > 0 { UpStays(w, w[x].parent, n - 1); }
  }

  lemma UnderStays(w: World, c: Item, x: Item)
    requires Wired(w) && x in w && Under(w, c, x)
    ensures c in w
  {
    var n: nat :| n > 0 && Up(w, x, n) == c;
    UpStays(w, x, n);
  }

  lemma RootIsUnderNothing(w: World, c: Item, x: Item)
    requires x in w && w[x].parent == null
    ensures !Under(w, c, x)
  {
    UnderStep(w, c, x);
  }

  /** Ancestry depends on the parent fields alone. */
  ghost predicate SameParents(w: World, v: World) {
    w.Keys <= v.Keys && forall x | x in v :: v[x].parent == if x in w then w[x].parent else null
  }

  lemma {:induction false} UpSame(w: World, v: World, x: Item, n: nat)
    requires SameParents(w, v) && Wired(w) && x in w
    ensures Up(w, x, n) == Up(v, x, n)
    decreases n
  {
    if n > 0 && w[x].parent != null { UpSame(w, v, w[x].parent, n - 1); }
  }

  lemma UnderSame(w: World, v: World, c: Item, x: Item)
    requires SameParents(w, v) && Wired(w) && x in v
    ensures Under(v, c, x) <==> x in w && Under(w, c, x)
  {
    if x in w {
      forall n: nat ensures Up(w, x, n) == Up(v, x, n) { UpSame(w, v, x, n); }
    } else {
      RootIsUnderNothing(v, c, x);
    }
  }

  lemma BelowSame(w: World, v: World, c: Item)
    requires SameParents(w, v) && Wired(w)
    ensures Below(v, c) == Below(w, c)
  {
    forall x | x in v ensures x in Below(v, c) <==> x in Below(w, c) { UnderSame(w, v, c, x); }
  }

  lemma {:induction false} SubsetSize(a: set<Item>, b: set<Item>)
    requires a <= b
    ensures |a| <= |b|
  {
    if a != {} {
      var x :| x in a;
      SubsetSize(a - {x}, b - {x});
    }
  }
}
