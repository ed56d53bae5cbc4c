/** What loading makes of any rows at all: rows with the same id, rows of unknown types, and slots named twice. */
module StrayRows {
  import opened ItemRows
  import opened RowLoading

  /** Row i has this id and a type that exists. */
  predicate Usable(rows: seq<Row>, i: int, sid: int) {
    0 <= i < |rows| && rows[i].sid == sid && rows[i].typ.id != 0
  }

  predicate LastUsable(rows: seq<Row>, i: int, sid: int) {
    Usable(rows, i, sid) && forall j | i < j < |rows| :: !Usable(rows, j, sid)
  }

  lemma SameUsable(rows: seq<Row>, before: seq<Row>, sid: int)
    requires rows != [] && before == rows[..|rows| - 1] && !Usable(rows, |rows| - 1, sid)
    ensures forall i :: Usable(rows, i, sid) <==> Usable(before, i, sid)
    ensures forall i | LastUsable(rows, i, sid) :: LastUsable(before, i, sid) && before[i] == rows[i]
  {
    forall i ensures Usable(rows, i, sid) <==> Usable(before, i, sid) {}
  }

  /** An id stands for an item exactly if a usable row has it, and the last of those decides what item. */
  lemma {:induction false} LastRowDecides(rows: seq<Row>, sid: int)
    ensures sid in Deciding(rows) <==> exists i :: Usable(rows, i, sid)
    ensures forall i | LastUsable(rows, i, sid) :: sid in Deciding(rows) && Deciding(rows)[sid] == rows[i]
    decreases |rows|
  {
    if rows != [] {
      var last := |rows| - 1;
      if Usable(rows, last, sid) {
        forall i | LastUsable(rows, i, sid) ensures i == last {}
      } else {
        hide LastUsable;
        LastRowDecides(rows[..last], sid);
        SameUsable(rows, rows[..last], sid);
        assert sid in Deciding(rows) <==> sid in Deciding(rows[..last]);
      }
    }
  }

  /** The i-th entry of the walk wants slot pid: an inventory has the slots 1 to 10, and a depot those of the towns 0 to
      99, which only depots are put into. */
  predicate Wants(section: Section, m: ItemMap, order: seq<int>, i: int, pid: int)
    requires AllKeys(m, order)
  {
    && 0 <= i < |order| && m[order[i]].pid == pid
    && if section.Inventory? then 1 <= pid <= 10 else 0 <= pid <= 99 && m[order[i]].item.typ.kind.Depot?
  }

  predicate AllKeys(m: ItemMap, order: seq<int>) {
    forall i | 0 <= i < |order| :: order[i] in m
  }

  predicate LastWants(section: Section, m: ItemMap, order: seq<int>, i: int, pid: int)
    requires AllKeys(m, order)
  {
    Wants(section, m, order, i, pid) && forall j | i < j < |order| :: !Wants(section, m, order, j, pid)
  }

  lemma WantsLater(section: Section, m: ItemMap, order: seq<int>, rest: seq<int>, pid: int)
    requires AllKeys(m, order) && order != [] && rest == order[1..]
    ensures forall i :: Wants(section, m, rest, i, pid) ==> Wants(section, m, order, i + 1, pid)
    ensures forall i | i > 0 :: Wants(section, m, order, i, pid) ==> Wants(section, m, rest, i - 1, pid)
    ensures forall i | i > 0 :: LastWants(section, m, order, i, pid) ==> LastWants(section, m, rest, i - 1, pid)
  {
    forall i | i > 0 && LastWants(section, m, order, i, pid) ensures LastWants(section, m, rest, i - 1, pid) {
      forall j | i - 1 < j < |rest| ensures !Wants(section, m, rest, j, pid) {
        assert !Wants(section, m, order, j + 1, pid);
      }
    }
  }

  /** Of the items that want a slot the one with the greatest id gets it. */
  lemma {:induction false} GreatestGetsSlot(section: Section, m: ItemMap, order: seq<int>, pid: int)
    requires AllKeys(m, order)
    ensures pid in Slots(section, m, order) <==> exists i :: Wants(section, m, order, i, pid)
    ensures forall i | LastWants(section, m, order, i, pid) ::
      pid in Slots(section, m, order) && Slots(section, m, order)[pid] == m[order[i]].item
    decreases |order|
  {
    if order != [] {
      var rest := order[1..];
      GreatestGetsSlot(section, m, rest, pid);
      WantsLater(section, m, order, rest, pid);
      FirstWants(section, m, order, pid);
      hide Wants, Slots;
      if exists i :: Wants(section, m, order, i, pid) {
        var i :| Wants(section, m, order, i, pid);
        if i > 0 { assert Wants(section, m, rest, i - 1, pid); }
      }
    }
  }

  /** One entry more at the front takes the slot only if no later one has. */
  lemma FirstWants(section: Section, m: ItemMap, order: seq<int>, pid: int)
    requires AllKeys(m, order) && order != []
    ensures var rest, slots := Slots(section, m, order[1..]), Slots(section, m, order);
      && (pid in slots <==> pid in rest || Wants(section, m, order, 0, pid))
      && (pid in slots ==> slots[pid] == if pid in rest then rest[pid] else m[order[0]].item)
    ensures forall i :: Wants(section, m, order, i, pid) ==> 0 <= i < |order|
  {
  }
}
