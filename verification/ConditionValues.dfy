/** Which values each class of condition reads from any bytes, by their codes, and what happens to all others. */
module ConditionValues {
  import opened Bytes
  import opened PropBytes
  import opened ConditionBlob

  /** The codes of ConditionAttr_t that a condition reads. It takes no more than seven skills and four stats. */
  predicate Reads(body: Body, code: byte) {
    code in {1, 2, 3} ||
    match body
    case Generic => false
    case Attributes(_, _, skill, stat) => (code == 22 && skill < 7) || (code == 23 && stat < 4)
    case Regeneration(_, _, _, _) => code in {4, 5, 6, 7}
    case Soul(_, _) => code in {20, 21}
    case Damage(_, _, _) => code in {8, 9, 10}
    case Speed(_, _, _, _, _) => code in {11, 12, 13, 14, 15}
    case Outfit(_) => code == 24
    case Light(_, _, _, _) => code in {16, 17, 18, 19}
  }

  /** A flag is one byte, a round of damage twelve, an outfit ten, and every other value four. */
  function SizeOf(code: byte): nat {
    if code == 8 then 1 else if code == 10 then 12 else if code == 24 then 10 else 4
  }

  /** From any bytes a value is taken exactly if the class knows its code and all its bytes are there. */
  lemma ReadExactly(body: Body, code: byte, bytes: seq<byte>, p: nat)
    ensures var r := ReadProp(body, code, bytes, p);
      && (r.PropRead? <==> Reads(body, code) && p + SizeOf(code) <= |bytes|)
      && (r.PropRead? ==> r.at == p + SizeOf(code) && Takes(body, r.attr) && Code(r.attr) == code)
  {
  }

  /** The field that the four bytes behind a code change. */
  lemma FieldOfCode(c: Condition, w: word)
    requires Sized(c)
    ensures Applied(c, WordAttr(1, w)) == c.(typ := ToInt(w))
    ensures Applied(c, WordAttr(2, w)) == c.(id := ToInt(w)) && Applied(c, WordAttr(3, w)) == c.(ticks := ToInt(w))
    ensures c.body.Regeneration? ==>
      && Applied(c, WordAttr(4, w)).body == c.body.(healthTicks := w)
      && Applied(c, WordAttr(5, w)).body == c.body.(healthGain := w)
      && Applied(c, WordAttr(6, w)).body == c.body.(manaTicks := w)
      && Applied(c, WordAttr(7, w)).body == c.body.(manaGain := w)
    ensures c.body.Damage? ==> Applied(c, WordAttr(9, w)).body == c.body.(owner := w)
    ensures c.body.Speed? ==>
      && Applied(c, WordAttr(11, w)).body == c.body.(speedDelta := ToInt(w))
      && Applied(c, WordAttr(12, w)).body == c.body.(mina := w)
      && Applied(c, WordAttr(13, w)).body == c.body.(minb := w)
      && Applied(c, WordAttr(14, w)).body == c.body.(maxa := w)
      && Applied(c, WordAttr(15, w)).body == c.body.(maxb := w)
    ensures c.body.Light? ==>
      && Applied(c, WordAttr(16, w)).body == c.body.(color := w)
      && Applied(c, WordAttr(17, w)).body == c.body.(level := w)
      && Applied(c, WordAttr(18, w)).body == c.body.(internalTicks := w)
      && Applied(c, WordAttr(19, w)).body == c.body.(changeInterval := w)
    ensures c.body.Soul? ==>
      && Applied(c, WordAttr(20, w)).body == c.body.(soulTicks := w)
      && Applied(c, WordAttr(21, w)).body == c.body.(soulGain := w)
  {
  }

  /** Where a condition that is being read meets a code it does not know, or the bytes run out in a value, it is given
      up, and the next condition is looked for right behind that code. */
  lemma GivenUp(bytes: seq<byte>, p: nat)
    ensures var r := CreatedAt(bytes, p);
      r.Created? && r.at < |bytes| && bytes[r.at] != 254
        && (!Reads(r.c.body, bytes[r.at]) || r.at + 1 + SizeOf(bytes[r.at]) > |bytes|) ==>
        Loaded(bytes, p) == Loaded(bytes, r.at + 1)
  {
    var r := CreatedAt(bytes, p);
    if r.Created? && r.at < |bytes| { ReadExactly(r.c.body, bytes[r.at], bytes, r.at + 1); }
  }

  /** The end mark, 254, and the end of the bytes both end a condition well. */
  lemma WellEnded(bytes: seq<byte>, p: nat)
    ensures var r := CreatedAt(bytes, p);
      r.Created? ==>
        && (r.at == |bytes| ==> Loaded(bytes, p) == [r.c])
        && (r.at < |bytes| && bytes[r.at] == 254 ==> Loaded(bytes, p) == [r.c] + Loaded(bytes, r.at + 1))
  {
    var r := CreatedAt(bytes, p);
    if r.Created? && r.at == |bytes| {
      assert Unserialized(r.c, bytes, r.at) == Props(true, r.c, r.at);
      assert CreatedAt(bytes, |bytes|).NoCondition?;
      assert Loaded(bytes, |bytes|) == [];
    }
  }
}
