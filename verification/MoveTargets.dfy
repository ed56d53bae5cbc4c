/** Where a thing goes that is moved or added to a container under a number, with the numbers of the protocol. */
module MoveTargets {
  import opened ItemForest
  import opened Cylinders

  /** What lies in the slot of this number. 254 and 255 are no slots, and neither is a number from the capacity up. */
  function OnSlot(w: World, to: Item, index: int): Item?
    requires IsContainer(w, to)
  {
    if index != 254 && index != 255 && 0 <= index < |w[to].items| && index < w[to].typ.kind.capacity
    then w[to].items[index] else null
  }

  /** 254 means the parent, if that is a container; the number of a container in the list means that container;
      everything else means the container that was named. */
  function Receiver(w: World, to: Item, index: int): Item
    requires IsContainer(w, to)
  {
    var parent, thing := w[to].parent, OnSlot(w, to, index);
    if index == 254 && parent != null && parent in w && !w[parent].typ.kind.Plain? then parent
    else if thing != null && thing in w && !w[thing].typ.kind.Plain? then thing
    else to
  }

  /** The plain thing, if any, that the number points at. */
  function AimedAt(w: World, to: Item, index: int): Item?
    requires IsContainer(w, to)
  {
    var thing := OnSlot(w, to, index);
    if thing != null && thing in w && !w[thing].typ.kind.Plain? then null else thing
  }

  lemma DestinationIs(w: World, to: Item, index: int)
    requires IsContainer(w, to)
    ensures var at := QueryDestination(w, to, index);
      && at.to == Receiver(w, to, index) && at.item == AimedAt(w, to, index)
      && at.item == ThingAt(w, at.to, at.index)
  {
  }

  lemma ReceiverIn(w: World, to: Item, index: int)
    requires Sane(w) && IsContainer(w, to)
    ensures IsContainer(w, Receiver(w, to, index))
    ensures var there := AimedAt(w, to, index);
      there != null ==> there in w && w[there].parent == to && Receiver(w, to, index) == to
  {
    assert Listed(w, to);
  }
}
