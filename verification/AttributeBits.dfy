/** The bit mask of item attributes. */
module AttributeBits {
  datatype AttrType =
    | ACTIONID | UNIQUEID | DESC | TEXT | WRITTENDATE | WRITTENBY | SLEEPER | OWNER | DURATION | DECAYING

  function Bit(t: AttrType): bv32 {
    match t
    case ACTIONID => 1
    case UNIQUEID => 2
    case DESC => 4
    case TEXT => 8
    case WRITTENDATE => 16
    case WRITTENBY => 32
    case SLEEPER => 64
    case OWNER => 65536
    case DURATION => 131072
    case DECAYING => 262144
  }

  predicate Meets(a: bv32, b: bv32) {
    a & b != 0
  }

  function Union(a: bv32, b: bv32): bv32 {
    a | b
  }

  function Minus(a: bv32, b: bv32): bv32 {
    a & !b
  }

  lemma UnionMeets(mask: bv32, a: bv32, b: bv32)
    ensures Meets(b, Union(mask, a)) <==> Meets(b, mask) || Meets(b, a)
  {
    assert b & (mask | a) == (b & mask) | (b & a);
  }

  lemma Apart(mask: bv32, a: bv32, b: bv32)
    requires b & a == 0
    ensures b & (mask & !a) == b & mask
  {
  }

  lemma MinusOthers(mask: bv32, a: bv32, b: bv32)
    requires !Meets(b, a)
    ensures Meets(b, Minus(mask, a)) <==> Meets(b, mask)
  {
    Apart(mask, a, b);
    assert Minus(mask, a) == mask & !a;
  }

  lemma MinusOwn(mask: bv32, a: bv32)
    ensures !Meets(a, Minus(mask, a))
  {
    assert a & (mask & !a) == 0;
  }

  lemma BitsMeet(t: AttrType, u: AttrType)
    ensures Meets(Bit(t), Bit(u)) <==> t == u
  {
  }

  lemma NothingMeets(t: AttrType)
    ensures !Meets(Bit(t), 0)
  {
  }

  /** The mask has exactly the bits of these types. */
  ghost predicate MaskOf(mask: bv32, types: set<AttrType>) {
    forall t :: Meets(Bit(t), mask) <==> t in types
  }

  lemma MaskNone()
    ensures MaskOf(0, {})
  {
    hide Bit, Meets;
    forall t ensures !Meets(Bit(t), 0) { NothingMeets(t); }
  }

  lemma MaskSet(mask: bv32, types: set<AttrType>, t: AttrType)
    requires MaskOf(mask, types)
    ensures MaskOf(Union(mask, Bit(t)), types + {t})
  {
    hide Bit, Meets, Union;
    forall u ensures Meets(Bit(u), Union(mask, Bit(t))) <==> u in types + {t} {
      UnionMeets(mask, Bit(t), Bit(u));
      BitsMeet(u, t);
    }
  }

  lemma MaskCleared(mask: bv32, types: set<AttrType>, t: AttrType)
    requires MaskOf(mask, types)
    ensures MaskOf(Minus(mask, Bit(t)), types - {t})
  {
    hide Bit, Meets, Minus;
    forall u ensures Meets(Bit(u), Minus(mask, Bit(t))) <==> u in types - {t} {
      BitsMeet(u, t);
      if u == t { MinusOwn(mask, Bit(t)); } else { MinusOthers(mask, Bit(t), Bit(u)); }
    }
  }

  lemma MaskTells(mask: bv32, types: set<AttrType>, t: AttrType)
    requires MaskOf(mask, types)
    ensures Meets(Bit(t), mask) <==> t in types
  {
  }
}
