/** What becomes of a condition that is saved and loaded, type by type. */
module SavedConditions {
  import opened Bytes
  import opened PropBytes
  import opened ConditionBlob
  import opened ConditionRoundTrip

  /** Stored at all: it has an end, and it is of the player and not of something worn. */
  predicate Lasts(id: int32, ticks: int) {
    ticks != -1 && id in {-1, 0}
  }

  /** All fields of a condition that lasts come back. */
  lemma OneSaved(c: Condition)
    requires Shaped(c) && KnownType(c) && Lasts(c.id, c.ticks)
    ensures AllStorable([c]) && Loaded(Blob([c]), 0) == [Restored(c)]
  {
    hide Restored, KnownType, Shaped, Loaded, Blob;
    assert AllShaped([c]);
    ShapedAreStorable([c]);
    assert Kept([c]) == [c] + Kept([c][1..]) == [c];
    assert AllKnown([c]) by { assert AllKnown([c][1..]); }
    ConditionsRoundTrip([c]);
  }

  lemma RegenerationSaved(id: int32, ticks: int32, healthTicks: word, healthGain: word, manaTicks: word, manaGain: word)
    requires Lasts(id, ticks)
    ensures var c := Condition(id, 8192, ticks, Regeneration(healthTicks, healthGain, manaTicks, manaGain));
      AllStorable([c]) && Loaded(Blob([c]), 0) == [c]
  {
    OneSaved(Condition(id, 8192, ticks, Regeneration(healthTicks, healthGain, manaTicks, manaGain)));
  }

  lemma SoulSaved(id: int32, ticks: int32, soulTicks: word, soulGain: word)
    requires Lasts(id, ticks)
    ensures var c := Condition(id, 16384, ticks, Soul(soulTicks, soulGain));
      AllStorable([c]) && Loaded(Blob([c]), 0) == [c]
  {
    OneSaved(Condition(id, 16384, ticks, Soul(soulTicks, soulGain)));
  }

  /** Haste and paralysis. */
  lemma SpeedSaved(id: int32, typ: int32, ticks: int32, speedDelta: int32, mina: word, minb: word, maxa: word,
                   maxb: word)
    requires Lasts(id, ticks) && typ in {16, 32}
    ensures var c := Condition(id, typ, ticks, Speed(speedDelta, mina, minb, maxa, maxb));
      AllStorable([c]) && Loaded(Blob([c]), 0) == [c]
  {
    OneSaved(Condition(id, typ, ticks, Speed(speedDelta, mina, minb, maxa, maxb)));
  }

  lemma {:induction false} OutfitSaved(id: int32, ticks: int32, outfits: seq<Look>)
    requires Lasts(id, ticks)
    ensures var c := Condition(id, 64, ticks, Outfit(outfits));
      AllStorable([c]) && Loaded(Blob([c]), 0) == [c]
  {
    OneSaved(Condition(id, 64, ticks, Outfit(outfits)));
  }

  lemma LightSaved(id: int32, ticks: int32, level: word, color: word, internalTicks: word, changeInterval: word)
    requires Lasts(id, ticks)
    ensures var c := Condition(id, 256, ticks, Light(level, color, internalTicks, changeInterval));
      AllStorable([c]) && Loaded(Blob([c]), 0) == [c]
  {
    OneSaved(Condition(id, 256, ticks, Light(level, color, internalTicks, changeInterval)));
  }

  /** Invisibility, mana shield, fight, drunkenness, exhaustion, muting and the two counters of trade and yelling. */
  lemma GenericSaved(id: int32, typ: int32, ticks: int32)
    requires Lasts(id, ticks) && typ in {128, 512, 1024, 2048, 4096, 65536, 131072, 262144}
    ensures var c := Condition(id, typ, ticks, Generic); AllStorable([c]) && Loaded(Blob([c]), 0) == [c]
  {
    OneSaved(Condition(id, typ, ticks, Generic));
  }

  /** The seven skills and four stats come back, and both counters stand at the end. */
  lemma {:induction false} AttributesSaved(id: int32, ticks: int32, skills: seq<int32>, stats: seq<int32>, skill: nat,
                                         stat: nat)
    requires Lasts(id, ticks) && |skills| == 7 && |stats| == 4
    ensures var c := Condition(id, 524288, ticks, Attributes(skills, stats, skill, stat));
      AllStorable([c]) && Loaded(Blob([c]), 0) == [Condition(id, 524288, ticks, Attributes(skills, stats, 7, 4))]
  {
    OneSaved(Condition(id, 524288, ticks, Attributes(skills, stats, skill, stat)));
  }

  /** Poison, fire, energy and drowning: all rounds come back, and the ticks are counted anew from them. */
  lemma {:induction false} DamageSaved(id: int32, typ: int32, ticks: int32, delayed: bool, owner: word,
                                     rounds: seq<Round>)
    requires Lasts(id, ticks) && typ in {1, 2, 4, 32768}
    requires forall i | 0 <= i < |rounds| :: rounds[i].interval >= 0
    ensures var c := Condition(id, typ, ticks, Damage(delayed, owner, rounds));
      AllStorable([c]) &&
      Loaded(Blob([c]), 0) == [Condition(id, typ, SumOf(rounds), Damage(delayed, owner, rounds))]
  {
    OneSaved(Condition(id, typ, ticks, Damage(delayed, owner, rounds)));
    TicksOfPositive(0, rounds);
  }

  /** A condition without an end or of something worn leaves no byte. */
  lemma NotStored(c: Condition)
    requires Storable(c) && (c.ticks == -1 || (c.id != -1 && c.id != 0))
    ensures AllStorable([c]) && Blob([c]) == []
  {
    assert [c][1..] == [];
    assert Blob([c]) == Blob([c][1..]);
  }

  /** A stored condition of any other type makes nothing, and neither does anything behind it. */
  lemma {:induction false} UnknownStops(c: Condition, cs: seq<Condition>)
    requires AllShaped([c] + cs) && Lasts(c.id, c.ticks)
    requires c.typ !in {1, 2, 4, 16, 32, 64, 128, 256, 512, 1024, 2048, 4096, 8192, 16384, 32768, 65536, 131072, 262144,
                        524288}
    ensures AllStorable([c] + cs) && Loaded(Blob([c] + cs), 0) == []
  {
    ShapedAreStorable([c] + cs);
    assert [] + Blob([c] + cs) == Blob([c] + cs);
    ListBack([c] + cs, [], Blob([c] + cs));
  }

  /** From any bytes: a condition is made exactly if the fifteen bytes of a head are there and name one of the types. */
  lemma {:induction false} MadeFrom(bytes: seq<byte>, p: nat)
    ensures CreatedAt(bytes, p).Created? <==>
      p + 15 <= |bytes| && bytes[p] == 1 && bytes[p + 5] == 2 && bytes[p + 10] == 3 &&
      ToInt(Un32(bytes[p + 1..p + 5])) in
        {1, 2, 4, 16, 32, 64, 128, 256, 512, 1024, 2048, 4096, 8192, 16384, 32768, 65536, 131072, 262144, 524288}
  {
    if p + 15 <= |bytes| {
      var typ := ToInt(Un32(bytes[p + 1..p + 5]));
      TypesKnown(Condition(0, typ, 0, Generic));
    }
  }
}
