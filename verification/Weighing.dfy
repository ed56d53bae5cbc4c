/** Container::getWeight: the weight of a container with everything in it. */
module Weighing {
  import opened ItemForest
  import opened Worklist
  import opened ContainerOps

  /** items[id].weight */
  type Weights = ItemType -> real

  /** Item::getWeight for plain items; a container counts as itself alone. */
  function OwnWeight(weights: Weights, typ: ItemType, count: nat): real {
    if typ.kind.Plain? && typ.stackable then weights(typ) * (if count > 1 then count else 1) as real else weights(typ)
  }

  function WeightOf(weights: Weights, w: World, x: Item): real {
    if x in w then OwnWeight(weights, w[x].typ, w[x].count) else 0.0
  }

  ghost function Heft(weights: Weights, w: World, s: set<Item>): real {
    if s == {} then 0.0
    else
      var x :| x in s;
      WeightOf(weights, w, x) + Heft(weights, w, s - {x})
  }

  lemma {:induction false} HeftWithout(weights: Weights, w: World, s: set<Item>, x: Item)
    requires x in s
    ensures Heft(weights, w, s) == WeightOf(weights, w, x) + Heft(weights, w, s - {x})
    decreases s
  {
    var y :| y in s && Heft(weights, w, s) == WeightOf(weights, w, y) + Heft(weights, w, s - {y});
    if y != x {
      HeftWithout(weights, w, s - {y}, x);
      HeftWithout(weights, w, s - {x}, y);
      assert s - {y} - {x} == s - {x} - {y};
    }
  }

  lemma HeftMore(weights: Weights, w: World, s: set<Item>, x: Item)
    requires x !in s
    ensures Heft(weights, w, s + {x}) == Heft(weights, w, s) + WeightOf(weights, w, x)
  {
    HeftWithout(weights, w, s + {x}, x);
    assert s + {x} - {x} == s;
  }

  lemma NoHeft(weights: Weights, w: World)
    ensures Heft(weights, w, {}) == 0.0
  {
  }

  /** The container's own weight and that of everything anywhere inside it. */
  method GetWeight(root: Item, weights: Weights, ghost W: set<Item>) returns (weight: real)
    requires root in W && Forest(Snap(W)) && !root.typ.kind.Plain?
    ensures weight == weights(root.typ) + Heft(weights, Snap(W), Below(Snap(W), root))
  {
    hide Front, Forest, Reading, Heft;
    ghost var w, seen: set<Item> := Snap(W), {};
    weight := weights(root.typ);
    NoHeft(weights, w);
    var listContainer := [root];
    FrontStart(w, root);
    while listContainer != []
      invariant Front(w, root, seen, listContainer, []) && weight == weights(root.typ) + Heft(weights, w, seen)
      decreases |Below(w, root) - seen|, |listContainer|
    {
      var container := listContainer[0];
      ReadingStart(w, root, seen, listContainer);
      listContainer := listContainer[1..];
      ghost var before, queue := seen, listContainer;
      for i := 0 to |container.items|
        invariant container in W && Reading(w, root, container, i, before, queue, seen, listContainer)
        invariant weight == weights(root.typ) + Heft(weights, w, seen)
      {
        var item := container.items[i];
        ReadingItem(w, root, container, i, before, queue, seen, listContainer);
        var more := if item.typ.kind.Plain? then [] else [item];
        ReadingStep(w, root, container, i, before, queue, seen, listContainer, item, more);
        HeftMore(weights, w, seen, item);
        listContainer := listContainer + more;
        seen := seen + {item};
        weight := weight + OwnWeight(weights, item.typ, item.count);
      }
      ReadingEnd(w, root, container, before, queue, seen, listContainer);
    }
    FrontDone(w, root, seen);
  }

  /** Splitting a stack or merging two changes no weight, and one piece weighs what the item table says. */
  lemma PiecesWeigh(weights: Weights, typ: ItemType, m: nat, n: nat)
    requires typ.kind.Plain? && typ.stackable && m > 0 && n > 0
    ensures OwnWeight(weights, typ, m + n) == OwnWeight(weights, typ, m) + OwnWeight(weights, typ, n)
    ensures OwnWeight(weights, typ, 1) == weights(typ)
  {
    var x := weights(typ);
    assert x * (m + n) as real == x * m as real + x * n as real;
  }
}
