/** ItemAttributes: a linked list of attributes with a bit mask that says which ones are there. */
module AttributeStore {
  import opened AttributeBits

  predicate IsInt(t: AttrType) {
    t.ACTIONID? || t.UNIQUEID? || t.OWNER? || t.DURATION? || t.DECAYING? || t.WRITTENDATE? || t.SLEEPER?
  }

  predicate IsStr(t: AttrType) {
    t.DESC? || t.TEXT? || t.WRITTENBY?
  }

  /** What a value pointer holds: nothing, a number put into the pointer itself, or a string. */
  datatype Value = Null | IntValue(n: int) | StrValue(s: string)

  class Attribute {
    const typ: AttrType
    var value: Value
    var next: Attribute?

    constructor (typ: AttrType)
      ensures this.typ == typ && value == Null && next == null
    {
      this.typ, value, next := typ, Null, null;
    }
  }

  /** One node for each type of the map, holding its value. */
  ghost predicate Tabled(nodes: seq<Attribute>, values: seq<Value>, table: map<AttrType, Value>) {
    && |values| == |nodes|
    && (forall i, j | 0 <= i < j < |nodes| :: nodes[i].typ != nodes[j].typ)
    && (forall i | 0 <= i < |nodes| :: nodes[i].typ in table && table[nodes[i].typ] == values[i])
    && (forall t | t in table :: HasType(nodes, t))
  }

  ghost predicate HasType(nodes: seq<Attribute>, t: AttrType) {
    exists i :: 0 <= i < |nodes| && nodes[i].typ == t
  }

  ghost function NodeAt(nodes: seq<Attribute>, i: nat): Attribute? {
    if i < |nodes| then nodes[i] else null
  }

  /** The linked list from `first` on. */
  ghost predicate Chain(first: Attribute?, nodes: seq<Attribute>)
    reads nodes
  {
    && first == NodeAt(nodes, 0)
    && (forall i | 0 <= i < |nodes| :: nodes[i].next == NodeAt(nodes, i + 1))
    && (forall i, j | 0 <= i < j < |nodes| :: nodes[i] != nodes[j])
  }

  ghost function ValuesOf(nodes: seq<Attribute>): seq<Value>
    reads nodes
  {
    seq(|nodes|, i requires 0 <= i < |nodes| reads nodes => nodes[i].value)
  }

  lemma LessAt(nodes: seq<Attribute>, k: nat, i: nat)
    requires k < |nodes| && i + 1 < |nodes|
    ensures var less := nodes[..k] + nodes[k + 1..];
      && less[i] == nodes[if i < k then i else i + 1]
      && NodeAt(less, i + 1) == NodeAt(nodes, if i + 1 < k then i + 1 else i + 2)
  {
  }

  lemma LessDistinct(nodes: seq<Attribute>, k: nat)
    requires k < |nodes| && forall i, j | 0 <= i < j < |nodes| :: nodes[i] != nodes[j]
    ensures var less := nodes[..k] + nodes[k + 1..];
      && NodeAt(less, 0) == NodeAt(nodes, if k == 0 then 1 else 0)
      && forall i, j | 0 <= i < j < |less| :: less[i] != less[j]
  {
  }

  lemma TabledMore(nodes: seq<Attribute>, values: seq<Value>, table: map<AttrType, Value>, attr: Attribute, v: Value)
    requires Tabled(nodes, values, table) && attr.typ !in table
    ensures Tabled(nodes + [attr], values + [v], table[attr.typ := v])
  {
    var more := nodes + [attr];
    forall t | t in table[attr.typ := v] ensures HasType(more, t) {
      if t == attr.typ {
        assert more[|nodes|].typ == t;
      } else {
        var i :| 0 <= i < |nodes| && nodes[i].typ == t;
        assert more[i].typ == t;
      }
    }
  }

  lemma TabledLess(nodes: seq<Attribute>, values: seq<Value>, table: map<AttrType, Value>, k: nat)
    requires Tabled(nodes, values, table) && k < |nodes|
    ensures Tabled(nodes[..k] + nodes[k + 1..], values[..k] + values[k + 1..], table - {nodes[k].typ})
  {
    hide HasType;
    var less := nodes[..k] + nodes[k + 1..];
    forall t | t in table - {nodes[k].typ} ensures HasType(less, t) {
      assert HasType(nodes, t);
      StillHas(nodes, k, t);
    }
  }

  lemma StillHas(nodes: seq<Attribute>, k: nat, t: AttrType)
    requires k < |nodes| && HasType(nodes, t) && nodes[k].typ != t
    ensures HasType(nodes[..k] + nodes[k + 1..], t)
  {
    var i :| 0 <= i < |nodes| && nodes[i].typ == t;
    var less := nodes[..k] + nodes[k + 1..];
    assert less[if i < k then i else i - 1].typ == t;
  }

  lemma TabledSet(nodes: seq<Attribute>, values: seq<Value>, table: map<AttrType, Value>, k: nat, v: Value)
    requires Tabled(nodes, values, table) && k < |nodes|
    ensures Tabled(nodes, values[k := v], table[nodes[k].typ := v])
  {
  }

  class ItemAttributes {
    var m_attributes: bv32
    var m_firstAttr: Attribute?

    /** The list from first to last, and the finite map it stands for. */
    ghost var nodes: seq<Attribute>
    ghost var table: map<AttrType, Value>

    ghost predicate Linked()
      reads this, nodes
    {
      Chain(m_firstAttr, nodes)
    }

    ghost function Values(): seq<Value>
      reads `nodes, nodes
    {
      ValuesOf(nodes)
    }

    ghost predicate Valid()
      reads this, nodes
    {
      Linked() && Tabled(nodes, Values(), table) && MaskOf(m_attributes, table.Keys)
    }

    /** Number attributes hold numbers and text attributes hold text. */
    ghost predicate Sound()
      reads this, nodes
    {
      Valid() && forall t | t in table :: Fitting(t, table[t])
    }

    constructor ()
      ensures Sound() && nodes == [] && table == map[]
    {
      m_attributes, m_firstAttr := 0, null;
      nodes, table := [], map[];
      new;
      MaskNone();
    }

    method GetAttrConst(typ: AttrType) returns (attr: Attribute?, ghost k: nat)
      requires Valid()
      ensures attr == null <==> typ !in table
      ensures attr != null ==> k < |nodes| && attr == nodes[k] && attr.typ == typ && attr.value == table[typ]
    {
      hide Bit, Meets, MaskOf, Tabled;
      k := 0;
      MaskTells(m_attributes, table.Keys, typ);
      if !Meets(Bit(typ), m_attributes) { return null, 0; }
      ghost var w := NodeOf(nodes, Values(), table, typ);
      attr := m_firstAttr;
      while attr != null
        invariant 0 <= k <= w && attr == nodes[k]
        decreases |nodes| - k
      {
        if attr.typ == typ {
          NodeValue(k);
          return;
        }
        attr := attr.next;
        k := k + 1;
      }
    }

    method AddAttr(attr: Attribute)
      requires Valid() && attr !in nodes && attr.next == null && attr.typ !in table
      modifies this, nodes
      ensures Valid() && nodes == old(nodes) + [attr] && table == old(table)[attr.typ := attr.value]
    {
      hide Tabled, MaskOf, Bit, Union;
      ghost var values := Values();
      if m_firstAttr != null {
        var curAttr: Attribute := m_firstAttr;
        ghost var i := 0;
        while curAttr.next != null
          invariant 0 <= i < |nodes| && curAttr == nodes[i]
          decreases |nodes| - i
          modifies {}
        {
          curAttr := curAttr.next;
          i := i + 1;
        }
        curAttr.next := attr;
      } else {
        m_firstAttr := attr;
      }
      MaskSet(m_attributes, table.Keys, attr.typ);
      m_attributes := Union(m_attributes, Bit(attr.typ));
      TabledMore(nodes, values, table, attr, attr.value);
      nodes, table := nodes + [attr], table[attr.typ := attr.value];
      assert Values() == values + [attr.value];
      assert table.Keys == old(table).Keys + {attr.typ};
    }

    /** Finds the attribute, or adds one with no value yet. */
    method GetAttr(typ: AttrType) returns (attr: Attribute, ghost k: nat)
      requires Valid()
      modifies this, nodes
      ensures Valid() && k < |nodes| && attr == nodes[k] && attr.typ == typ
      ensures table == if typ in old(table) then old(table) else old(table)[typ := Null]
      ensures attr in old(nodes) || fresh(attr)
      ensures forall n | n in nodes :: n in old(nodes) || fresh(n)
    {
      hide Tabled, MaskOf, Bit, Union;
      var found;
      found, k := GetAttrConst(typ);
      if found != null { return found, k; }
      attr := new Attribute(typ);
      k := |nodes|;
      AddAttr(attr);
    }

    method SetValue(attr: Attribute, v: Value, ghost k: nat)
      requires Valid() && k < |nodes| && attr == nodes[k]
      modifies this, attr
      ensures Valid() && nodes == old(nodes) && table == old(table)[attr.typ := v]
    {
      hide Tabled, MaskOf;
      ghost var values := Values();
      InTable(nodes, values, table, k);
      attr.value := v;
      TabledSet(nodes, values, table, k, v);
      assert Values() == values[k := v];
      ghost var keys := table.Keys;
      table := table[attr.typ := v];
      assert table.Keys == keys;
    }

    method SetIntAttr(typ: AttrType, value: int)
      requires Sound()
      modifies this, nodes
      ensures Sound() && table == if IsInt(typ) then old(table)[typ := IntValue(value)] else old(table)
      ensures forall n | n in nodes :: n in old(nodes) || fresh(n)
    {
      hide Linked, Tabled, MaskOf;
      if !IsInt(typ) { return; }
      var attr, k := GetAttr(typ);
      SetValue(attr, IntValue(value), k);
    }

    method GetIntAttr(typ: AttrType) returns (value: int)
      requires Sound()
      ensures value == if IsInt(typ) && typ in table then table[typ].n % 0x1_0000_0000 else 0
    {
      if !IsInt(typ) { return 0; }
      var attr, k := GetAttrConst(typ);
      if attr == null { return 0; }
      value := attr.value.n % 0x1_0000_0000;
    }

    /** An attribute that is not there yet starts from nothing. */
    method IncreaseIntAttr(typ: AttrType, value: int)
      requires Sound()
      modifies this, nodes
      ensures Sound() && table ==
        if !IsInt(typ) then old(table)
        else old(table)[typ := IntValue(value + if typ in old(table) then old(table)[typ].n else 0)]
      ensures forall n | n in nodes :: n in old(nodes) || fresh(n)
    {
      hide Linked, Tabled, MaskOf;
      if !IsInt(typ) { return; }
      var attr, k := GetAttr(typ);
      NodeValue(k);
      var before := if attr.value.IntValue? then attr.value.n else 0;
      SetValue(attr, IntValue(before + value), k);
    }

    method SetStrAttr(typ: AttrType, value: string)
      requires Sound()
      modifies this, nodes
      ensures Sound()
      ensures table == if IsStr(typ) && value != "" then old(table)[typ := StrValue(value)] else old(table)
      ensures forall n | n in nodes :: n in old(nodes) || fresh(n)
    {
      hide Linked, Tabled, MaskOf;
      if !IsStr(typ) { return; }
      if |value| == 0 { return; }
      var attr, k := GetAttr(typ);
      SetValue(attr, StrValue(value), k);
    }

    method GetStrAttr(typ: AttrType) returns (value: string)
      requires Sound()
      ensures value == if IsStr(typ) && typ in table then table[typ].s else ""
    {
      if !IsStr(typ) { return ""; }
      var attr, k := GetAttrConst(typ);
      if attr == null { return ""; }
      value := attr.value.s;
    }

    /** Only ever true of number attributes. */
    method HasAttribute(typ: AttrType) returns (has: bool)
      requires Sound()
      ensures has <==> IsInt(typ) && typ in table
    {
      if !IsInt(typ) { return false; }
      var attr, k := GetAttrConst(typ);
      has := attr != null;
    }

    method RemoveAttribute(typ: AttrType)
      requires Sound()
      modifies this, nodes
      ensures Sound() && table == old(table) - {typ}
      ensures forall n | n in nodes :: n in old(nodes)
    {
      hide Bit, Meets, MaskOf, Tabled;
      MaskTells(m_attributes, table.Keys, typ);
      if Meets(Bit(typ), m_attributes) {
        ghost var w := NodeOf(nodes, Values(), table, typ);
        var prevAttr: Attribute? := null;
        var curAttr := m_firstAttr;
        ghost var k := 0;
        while curAttr != null
          invariant 0 <= k <= w && curAttr == nodes[k]
          invariant prevAttr == if k == 0 then null else nodes[k - 1]
          decreases |nodes| - k
          modifies {}
        {
          if curAttr.typ == typ { break; }
          prevAttr := curAttr;
          curAttr := curAttr.next;
          k := k + 1;
        }
        Unlink(prevAttr, curAttr, k);
      }
    }

    /** The pointers lead past the k-th node. */
    method Bypass(prevAttr: Attribute?, curAttr: Attribute, ghost k: nat)
      requires Linked() && k < |nodes| && curAttr == nodes[k] && prevAttr == if k == 0 then null else nodes[k - 1]
      modifies `m_firstAttr, (if prevAttr == null then {} else {prevAttr})`next
      ensures Chain(m_firstAttr, nodes[..k] + nodes[k + 1..])
    {
      if prevAttr != null {
        prevAttr.next := curAttr.next;
      } else {
        m_firstAttr := curAttr.next;
      }
      ghost var less := nodes[..k] + nodes[k + 1..];
      LessDistinct(nodes, k);
      forall i | 0 <= i < |less| ensures less[i].next == NodeAt(less, i + 1) { LessAt(nodes, k, i); }
    }

    method Unlink(prevAttr: Attribute?, curAttr: Attribute, ghost k: nat)
      requires Valid() && k < |nodes| && curAttr == nodes[k] && prevAttr == if k == 0 then null else nodes[k - 1]
      modifies this, nodes
      ensures Valid() && table == old(table) - {curAttr.typ} && nodes == old(nodes[..k] + nodes[k + 1..])
    {
      hide Bit, MaskOf, Tabled, Minus, Chain;
      ghost var values := Values();
      Bypass(prevAttr, curAttr, k);
      MaskCleared(m_attributes, table.Keys, curAttr.typ);
      m_attributes := Minus(m_attributes, Bit(curAttr.typ));
      TabledLess(nodes, values, table, k);
      nodes, table := nodes[..k] + nodes[k + 1..], table - {curAttr.typ};
      assert Values() == values[..k] + values[k + 1..];
      assert table.Keys == old(table).Keys - {curAttr.typ};
    }

    lemma NodeValue(k: nat)
      requires Tabled(nodes, Values(), table) && k < |nodes|
      ensures nodes[k].typ in table && nodes[k].value == table[nodes[k].typ]
    {
      assert Values()[k] == nodes[k].value;
    }

    // -------------------------------------------------------------- the attributes by name

    /** Action ids below 100 are not given. */
    method SetActionId(n: int)
      requires Sound() && 0 <= n < 0x1_0000
      modifies this, nodes
      ensures Sound() && table == old(table)[ACTIONID := IntValue(if n < 100 then 100 else n)]
      ensures forall n | n in nodes :: n in old(nodes) || fresh(n)
    {
      SetIntAttr(ACTIONID, if n < 100 then 100 else n);
    }

    method GetActionId() returns (value: int)
      requires Sound()
      ensures value == if ACTIONID in table then table[ACTIONID].n % 0x1_0000 else 0
    {
      hide Linked, Tabled, MaskOf;
      value := GetIntAttr(ACTIONID);
      if ACTIONID in table { Shorter(table[ACTIONID].n); }
      value := value % 0x1_0000;
    }

    /** Nor unique ids below 1000. */
    method SetUniqueId(n: int)
      requires Sound() && 0 <= n < 0x1_0000
      modifies this, nodes
      ensures Sound() && table == old(table)[UNIQUEID := IntValue(if n < 1000 then 1000 else n)]
      ensures forall n | n in nodes :: n in old(nodes) || fresh(n)
    {
      SetIntAttr(UNIQUEID, if n < 1000 then 1000 else n);
    }

    method GetUniqueId() returns (value: int)
      requires Sound()
      ensures value == if UNIQUEID in table then table[UNIQUEID].n % 0x1_0000 else 0
    {
      hide Linked, Tabled, MaskOf;
      value := GetIntAttr(UNIQUEID);
      if UNIQUEID in table { Shorter(table[UNIQUEID].n); }
      value := value % 0x1_0000;
    }

    method SetDate(n: int)
      requires Sound()
      modifies this, nodes
      ensures Sound() && table == old(table)[WRITTENDATE := IntValue(Narrowed(n))]
      ensures forall n | n in nodes :: n in old(nodes) || fresh(n)
    {
      SetIntAttr(WRITTENDATE, Narrowed(n));
    }

    method GetDate() returns (value: int)
      requires Sound()
      ensures value == if WRITTENDATE in table then table[WRITTENDATE].n % 0x1_0000_0000 else 0
    {
      value := GetIntAttr(WRITTENDATE);
    }

    method SetSleeper(n: int)
      requires Sound() && 0 <= n < 0x1_0000_0000
      modifies this, nodes
      ensures Sound() && table == old(table)[SLEEPER := IntValue(Narrowed(n))]
      ensures forall n | n in nodes :: n in old(nodes) || fresh(n)
    {
      SetIntAttr(SLEEPER, Narrowed(n));
    }

    method GetSleeper() returns (value: int)
      requires Sound()
      ensures value == if SLEEPER in table then table[SLEEPER].n % 0x1_0000_0000 else 0
    {
      value := GetIntAttr(SLEEPER);
    }

    method SetOwner(n: int)
      requires Sound() && 0 <= n < 0x1_0000_0000
      modifies this, nodes
      ensures Sound() && table == old(table)[OWNER := IntValue(Narrowed(n))]
      ensures forall n | n in nodes :: n in old(nodes) || fresh(n)
    {
      SetIntAttr(OWNER, Narrowed(n));
    }

    method GetOwner() returns (value: int)
      requires Sound()
      ensures value == if OWNER in table then table[OWNER].n % 0x1_0000_0000 else 0
    {
      value := GetIntAttr(OWNER);
    }

    method SetDecaying(n: int)
      requires Sound() && -0x8000_0000 <= n < 0x8000_0000
      modifies this, nodes
      ensures Sound() && table == old(table)[DECAYING := IntValue(n)]
      ensures forall n | n in nodes :: n in old(nodes) || fresh(n)
    {
      SetIntAttr(DECAYING, n);
    }

    method GetDecaying() returns (value: int)
      requires Sound()
      ensures value == if DECAYING in table then table[DECAYING].n % 0x1_0000_0000 else 0
    {
      value := GetIntAttr(DECAYING);
    }

    method SetDuration(n: int)
      requires Sound() && -0x8000_0000 <= n < 0x8000_0000
      modifies this, nodes
      ensures Sound() && table == old(table)[DURATION := IntValue(n)]
      ensures forall n | n in nodes :: n in old(nodes) || fresh(n)
    {
      SetIntAttr(DURATION, n);
    }

    method DecreaseDuration(n: int)
      requires Sound() && -0x8000_0000 <= n < 0x8000_0000
      modifies this, nodes
      ensures Sound()
      ensures var before := if DURATION in old(table) then old(table)[DURATION].n else 0;
        table == old(table)[DURATION := IntValue(before - n)]
      ensures forall n | n in nodes :: n in old(nodes) || fresh(n)
    {
      hide Linked, Tabled, MaskOf;
      IncreaseIntAttr(DURATION, -n);
    }

    /** The number read as int32 again. */
    method GetDuration() returns (value: int)
      requires Sound()
      ensures -0x8000_0000 <= value < 0x8000_0000
      ensures if DURATION in table then value % 0x1_0000_0000 == table[DURATION].n % 0x1_0000_0000 else value == 0
    {
      hide Linked, Tabled, MaskOf;
      value := GetIntAttr(DURATION);
      value := Narrowed(value);
    }

    method SetSpecialDescription(text: string)
      requires Sound()
      modifies this, nodes
      ensures Sound() && table == if text == "" then old(table) else old(table)[DESC := StrValue(text)]
      ensures forall n | n in nodes :: n in old(nodes) || fresh(n)
    {
      SetStrAttr(DESC, text);
    }

    method GetSpecialDescription() returns (text: string)
      requires Sound()
      ensures text == if DESC in table then table[DESC].s else ""
    {
      text := GetStrAttr(DESC);
    }

    method SetText(text: string)
      requires Sound()
      modifies this, nodes
      ensures Sound() && table == if text == "" then old(table) else old(table)[TEXT := StrValue(text)]
      ensures forall n | n in nodes :: n in old(nodes) || fresh(n)
    {
      SetStrAttr(TEXT, text);
    }

    method GetText() returns (text: string)
      requires Sound()
      ensures text == if TEXT in table then table[TEXT].s else ""
    {
      text := GetStrAttr(TEXT);
    }

    method SetWriter(text: string)
      requires Sound()
      modifies this, nodes
      ensures Sound() && table == if text == "" then old(table) else old(table)[WRITTENBY := StrValue(text)]
      ensures forall n | n in nodes :: n in old(nodes) || fresh(n)
    {
      SetStrAttr(WRITTENBY, text);
    }

    method GetWriter() returns (text: string)
      requires Sound()
      ensures text == if WRITTENBY in table then table[WRITTENBY].s else ""
    {
      text := GetStrAttr(WRITTENBY);
    }

    /** A bed that is free again has no special description either. */
    method ResetSleeper()
      requires Sound()
      modifies this, nodes
      ensures Sound() && table == old(table) - {SLEEPER, DESC}
      ensures forall n | n in nodes :: n in old(nodes)
    {
      hide Linked, Tabled, MaskOf;
      RemoveAttribute(SLEEPER);
      assert forall i | 0 <= i < |nodes| :: nodes[i] in old(nodes);
      RemoveAttribute(DESC);
    }
  }

  /** Conversion to int32 */
  function Narrowed(n: int): (m: int)
    ensures -0x8000_0000 <= m < 0x8000_0000 && m % 0x1_0000_0000 == n % 0x1_0000_0000
  {
    var r := n % 0x1_0000_0000;
    if r < 0x8000_0000 then r else r - 0x1_0000_0000
  }

  lemma Shorter(n: int)
    ensures n % 0x1_0000_0000 % 0x1_0000 == n % 0x1_0000
  {
    var r := n % 0x1_0000_0000;
    Rest(n, 0x1_0000 * (n / 0x1_0000_0000) + r / 0x1_0000, r % 0x1_0000);
  }

  lemma Rest(n: int, q: int, r: int)
    requires n == 0x1_0000 * q + r && 0 <= r < 0x1_0000
    ensures n % 0x1_0000 == r
  {
  }

  predicate Fitting(t: AttrType, v: Value) {
    if IsInt(t) then v.IntValue? else v.StrValue? && v.s != ""
  }

  lemma NodeOf(nodes: seq<Attribute>, values: seq<Value>, table: map<AttrType, Value>, t: AttrType) returns (k: nat)
    requires Tabled(nodes, values, table) && t in table
    ensures k < |nodes| && nodes[k].typ == t
  {
    assert HasType(nodes, t);
    k :| 0 <= k < |nodes| && nodes[k].typ == t;
  }

  lemma InTable(nodes: seq<Attribute>, values: seq<Value>, table: map<AttrType, Value>, k: nat)
    requires Tabled(nodes, values, table) && k < |nodes|
    ensures nodes[k].typ in table
  {
  }
}
