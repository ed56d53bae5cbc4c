/** The container operations on the item objects themselves, each proved against its function on worlds. */
module ContainerOps {
  import opened ItemForest
  import Cylinders
  import opened Worklist

  /** The fields of the objects in W as they stand. */
  ghost function Snap(W: set<Item>): World
    reads W
  {
    map x | x in W :: Rec(x.typ, x.parent, x.items, x.count)
  }

  // ---------------------------------------------------------------- looking up

  /** Container::__getIndexOfThing */
  method IndexOf(c: Item, x: Item) returns (index: int)
    ensures -1 <= index < |c.items| && (index == -1 <==> x !in c.items)
    ensures index >= 0 ==> c.items[index] == x && x !in c.items[..index]
  {
    for i := 0 to |c.items|
      invariant x !in c.items[..i]
    {
      if c.items[i] == x { return i; }
    }
    index := -1;
  }

  /** Thing::getTopParent as the outermost container on the parent chain. */
  method TopParent(x: Item, ghost W: set<Item>) returns (top: Item)
    requires x in W && Forest(Snap(W))
    ensures Cylinders.IsTop(Snap(W), top, x)
  {
    ghost var w := Snap(W);
    ghost var n: nat :| EndsWithin(w, n);
    top := x;
    while top.parent != null
      invariant top in W && InSub(w, top, x) && Up(w, top, n) == null
      decreases n
    {
      ghost var below := top;
      UnderStep(w, top.parent, top);
      top := top.parent;
      if below != x { UnderTrans(w, top, below, x); }
      n := n - 1;
    }
  }

  /** The climb of Container::__queryAdd: is c the item itself, or somewhere inside it? */
  method IsInside(c: Item, item: Item, ghost W: set<Item>) returns (inside: bool)
    requires c in W && item in W && Forest(Snap(W))
    ensures inside <==> InSub(Snap(W), item, c)
  {
    if item == c { return true; }
    ghost var w := Snap(W);
    ghost var n: nat :| EndsWithin(w, n);
    UnderStep(w, item, c);
    var cylinder := c.parent;
    n := n - 1;
    while cylinder != null
      invariant cylinder != null ==> cylinder in W && Up(w, cylinder, n) == null
      invariant Under(w, item, c) <==> cylinder != null && (cylinder == item || Under(w, item, cylinder))
      decreases n
    {
      if cylinder == item { return true; }
      UnderStep(w, item, cylinder);
      cylinder := cylinder.parent;
      n := n - 1;
    }
    inside := false;
  }

  /** Container::getItemHoldingCount counts everything below the container. */
  method ItemHoldingCount(root: Item, ghost W: set<Item>) returns (counter: nat)
    requires root in W && Forest(Snap(W))
    ensures counter == |Below(Snap(W), root)|
  {
    hide Front, Forest, Reading;
    ghost var w, seen: set<Item> := Snap(W), {};
    var listContainer := [root];
    counter := 0;
    FrontStart(w, root);
    while listContainer != []
      invariant Front(w, root, seen, listContainer, []) && counter == |seen|
      decreases |Below(w, root) - seen|, |listContainer|
    {
      var container := listContainer[0];
      ReadingStart(w, root, seen, listContainer);
      listContainer := listContainer[1..];
      ghost var before, queue := seen, listContainer;
      for i := 0 to |container.items|
        invariant container in W && Reading(w, root, container, i, before, queue, seen, listContainer)
        invariant counter == |seen|
      {
        var item := container.items[i];
        ReadingItem(w, root, container, i, before, queue, seen, listContainer);
        var more := if item.typ.kind.Plain? then [] else [item];
        ReadingStep(w, root, container, i, before, queue, seen, listContainer, item, more);
        listContainer := listContainer + more;
        seen := seen + {item};
        counter := counter + 1;
      }
      ReadingEnd(w, root, container, before, queue, seen, listContainer);
    }
    FrontDone(w, root, seen);
  }

  /** Container::isHoldingItem is proper descent. */
  method IsHoldingItem(root: Item, sought: Item, ghost W: set<Item>) returns (found: bool)
    requires root in W && Forest(Snap(W))
    ensures found <==> sought in Below(Snap(W), root)
  {
    hide Front, Forest, Reading;
    ghost var w, seen: set<Item> := Snap(W), {};
    var listContainer := [root];
    FrontStart(w, root);
    while listContainer != []
      invariant Front(w, root, seen, listContainer, []) && sought !in seen
      decreases |Below(w, root) - seen|, |listContainer|
    {
      var container := listContainer[0];
      ReadingStart(w, root, seen, listContainer);
      listContainer := listContainer[1..];
      ghost var before, queue := seen, listContainer;
      for i := 0 to |container.items|
        invariant container in W && Reading(w, root, container, i, before, queue, seen, listContainer)
        invariant sought !in seen
      {
        var item := container.items[i];
        ReadingItem(w, root, container, i, before, queue, seen, listContainer);
        var more := if item.typ.kind.Plain? then [] else [item];
        ReadingStep(w, root, container, i, before, queue, seen, listContainer, item, more);
        if item == sought { return true; }
        listContainer := listContainer + more;
        seen := seen + {item};
      }
      ReadingEnd(w, root, container, before, queue, seen, listContainer);
    }
    FrontDone(w, root, seen);
    found := false;
  }
}
