/** How many pieces of a kind a container's own list holds, and what the elementary changes do to that. */
module ItemStock {
  import opened ItemForest
  import opened ItemMoves

  function Worth(w: World, x: Item, t: ItemType): nat {
    if x in w && w[x].typ == t then w[x].count else 0
  }

  function Pieces(w: World, s: seq<Item>, t: ItemType): nat {
    if s == [] then 0 else Worth(w, s[0], t) + Pieces(w, s[1..], t)
  }

  /** The pieces of type t directly in c. */
  function Stock(w: World, c: Item, t: ItemType): nat
    requires c in w
  {
    Pieces(w, w[c].items, t)
  }

  lemma {:induction false} PiecesSame(w: World, v: World, s: seq<Item>, t: ItemType)
    requires forall x | x in s :: Worth(w, x, t) == Worth(v, x, t)
    ensures Pieces(w, s, t) == Pieces(v, s, t)
  {
    if s != [] {
      assert s[0] in s;
      PiecesSame(w, v, s[1..], t);
    }
  }

  lemma {:induction false} PiecesWithout(w: World, s: seq<Item>, x: Item, t: ItemType)
    requires x in s
    ensures Pieces(w, Without(s, x), t) + Worth(w, x, t) == Pieces(w, s, t)
  {
    if s[0] != x { PiecesWithout(w, s[1..], x, t); }
  }

  lemma {:induction false} PiecesChanged(w: World, v: World, s: seq<Item>, x: Item, t: ItemType)
    requires x in s && forall i, j | 0 <= i < j < |s| :: s[i] != s[j]
    requires forall y | y in s && y != x :: Worth(w, y, t) == Worth(v, y, t)
    ensures Pieces(w, s, t) + Worth(v, x, t) == Pieces(v, s, t) + Worth(w, x, t)
  {
    assert forall y | y in s[1..] :: y in s;
    if s[0] == x {
      assert x !in s[1..];
      PiecesSame(w, v, s[1..], t);
    } else {
      PiecesChanged(w, v, s[1..], x, t);
    }
  }

  lemma StockDetach(w: World, x: Item, c: Item, t: ItemType)
    requires CanDetach(w, x) && w[x].parent in w && c in w
    ensures Stock(Detach(w, x), c, t) + (if c == w[x].parent then Worth(w, x, t) else 0) == Stock(w, c, t)
  {
    var v := Detach(w, x);
    NotOwnParent(w, x);
    PiecesSame(w, v, v[c].items, t);
    if c == w[x].parent { PiecesWithout(w, w[c].items, x, t); }
  }

  lemma StockAttach(w: World, c: Item, x: Item, d: Item, t: ItemType)
    requires CanAttach(w, c, x) && d in w
    ensures Stock(Attach(w, c, x), d, t) == Stock(w, d, t) + (if d == c then Worth(w, x, t) else 0)
  {
    var v := Attach(w, c, x);
    PiecesSame(w, v, v[d].items, t);
    if d == c { assert ([x] + w[c].items)[1..] == w[c].items; }
  }

  lemma StockSetCount(w: World, x: Item, n: nat, c: Item, t: ItemType)
    requires Forest(w) && x in w && c in w
    ensures var v := SetCount(w, x, n);
      if w[x].parent == c && w[x].typ == t then Stock(v, c, t) + w[x].count == Stock(w, c, t) + n
      else Stock(v, c, t) == Stock(w, c, t)
  {
    var v := SetCount(w, x, n);
    assert Listed(w, c);
    if w[x].parent == c {
      PiecesChanged(w, v, w[c].items, x, t);
    } else {
      PiecesSame(w, v, w[c].items, t);
    }
  }

  lemma StockCreate(w: World, x: Item, typ: ItemType, n: nat, c: Item, t: ItemType)
    requires Forest(w) && x !in w && c in w
    ensures Stock(Create(w, x, typ, n), c, t) == Stock(w, c, t)
  {
    assert Listed(w, c);
    PiecesSame(w, Create(w, x, typ, n), w[c].items, t);
  }
}
