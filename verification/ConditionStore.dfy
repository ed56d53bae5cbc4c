/** The condition objects and their streams, each operation proved against its function on bytes. */
module ConditionStore {
  import opened Bytes
  import opened PropBytes
  import opened PropStreams
  import opened ConditionBlob
  import opened ConditionRoundTrip

  /** One call of unserializeProp: what it leaves of the condition and where it leaves the stream. */
  predicate PropDone(c: Condition, attr: byte, bytes: seq<byte>, p: nat, ok: bool, d: Condition, q: nat)
    requires Sized(c)
  {
    if attr == CONDITIONATTR_END then ok && d == c && q == p
    else
      match ReadProp(c.body, attr, bytes, p)
      case NoProp => !ok && d == c && q == p
      case PropRead(a, at) => ok && d == Applied(c, a) && q == at
  }

  lemma {:induction false} OneMoreTagged(attrs: seq<Attr>, a: Attr)
    ensures AllTagged(attrs + [a]) == AllTagged(attrs) + Tagged(a)
    decreases |attrs|
  {
    hide Tagged;
    if attrs == [] {
      assert (attrs + [a])[1..] == [];
      assert AllTagged([a][1..]) == [];
    } else {
      OneMoreTagged(attrs[1..], a);
      assert (attrs + [a])[1..] == attrs[1..] + [a];
      var first, rest, last := Tagged(attrs[0]), AllTagged(attrs[1..]), Tagged(a);
      assert first + (rest + last) == first + rest + last;
    }
  }

  lemma NothingTagged(start: seq<byte>)
    ensures start + AllTagged([]) == start
  {
  }

  lemma NoAttrs(body: Body)
    requires body.Generic?
    ensures BodyAttrs(body) == []
  {
  }

  lemma TakeMore(head: seq<Attr>, s: seq<Attr>, i: nat)
    requires i < |s|
    ensures head + s[..i + 1] == head + s[..i] + [s[i]]
  {
    assert s[..i + 1] == s[..i] + [s[i]];
  }

  lemma TakenAll(head: seq<Attr>, s: seq<Attr>)
    ensures head + s[..0] == head && head + s[..|s|] == head + s && [] + s == s
  {
  }

  lemma DamageAttrs(body: Body)
    requires body.Damage?
    ensures BodyAttrs(body) ==
      [DelayedAttr(body.delayed)] + [WordAttr(CONDITIONATTR_OWNER, body.owner)] + RoundAttrs(body.rounds)
  {
  }

  method AddWord(stream: PropWriteStream, code: byte, w: word, ghost done: seq<Attr>, ghost start: seq<byte>)
    returns (ghost more: seq<Attr>)
    requires stream.Valid() && stream.Contents() == start + AllTagged(done)
    modifies stream, stream.buffer
    ensures stream.Valid() && (stream.buffer == old(stream.buffer) || fresh(stream.buffer))
    ensures more == done + [WordAttr(code, w)] && stream.Contents() == start + AllTagged(more)
  {
    hide Le32;
    AddTagged(stream, code, w);
    more := done + [WordAttr(code, w)];
    OneMoreTagged(done, WordAttr(code, w));
    Regroup(start, AllTagged(done), [code] + Le32(w));
  }

  method AddTagged(stream: PropWriteStream, code: byte, w: word)
    requires stream.Valid()
    modifies stream, stream.buffer
    ensures stream.Valid() && (stream.buffer == old(stream.buffer) || fresh(stream.buffer))
    ensures stream.Contents() == old(stream.Contents()) + ([code] + Le32(w))
  {
    hide Le32;
    ghost var start := stream.Contents();
    stream.AddUchar(code);
    stream.AddUlong(w);
    Regroup(start, [code], Le32(w));
  }

  lemma Regroup(a: seq<byte>, b: seq<byte>, c: seq<byte>)
    ensures a + b + c == a + (b + c)
  {
  }

  lemma HeadParts(start: seq<byte>, c: Condition)
    requires Storable(c)
    ensures start + ([CONDITIONATTR_TYPE] + Le32(ToWord(c.typ))) + ([CONDITIONATTR_ID] + Le32(ToWord(c.id)))
      + ([CONDITIONATTR_TICKS] + Le32(ToWord(c.ticks))) == start + Head(c)
  {
    hide Le32, ToWord;
  }

  method AddImage(stream: PropWriteStream, a: Attr, ghost done: seq<Attr>, ghost start: seq<byte>)
    returns (ghost more: seq<Attr>)
    requires stream.Valid() && stream.Contents() == start + AllTagged(done)
    modifies stream, stream.buffer
    ensures stream.Valid() && (stream.buffer == old(stream.buffer) || fresh(stream.buffer))
    ensures more == done + [a] && stream.Contents() == start + AllTagged(more)
  {
    hide Image, Code;
    stream.AddUchar(Code(a));
    stream.AddValue(Image(a));
    more := done + [a];
    OneMoreTagged(done, a);
    Regroup(start + AllTagged(done), [Code(a)], Image(a));
    Regroup(start, AllTagged(done), [Code(a)] + Image(a));
  }

  method AddRounds(stream: PropWriteStream, rounds: seq<Round>, ghost head: seq<Attr>, ghost start: seq<byte>)
    returns (ghost done: seq<Attr>)
    requires stream.Valid() && stream.Contents() == start + AllTagged(head)
    modifies stream, stream.buffer
    ensures stream.Valid() && (stream.buffer == old(stream.buffer) || fresh(stream.buffer))
    ensures done == head + RoundAttrs(rounds) && stream.Contents() == start + AllTagged(done)
  {
    hide AllTagged;
    done := head;
    ghost var attrs := RoundAttrs(rounds);
    TakenAll(head, attrs);
    for i := 0 to |rounds|
      invariant stream.Valid() && (stream.buffer == old(stream.buffer) || fresh(stream.buffer))
      invariant done == head + attrs[..i] && stream.Contents() == start + AllTagged(done)
    {
      done := AddImage(stream, RoundAttr(rounds[i]), done, start);
      TakeMore(head, attrs, i);
    }
  }

  class StoredCondition {
    var id: int32
    var typ: int32
    var ticks: int
    var body: Body

    function View(): Condition
      reads this
    {
      Condition(id, typ, ticks, body)
    }

    constructor (c: Condition)
      ensures View() == c
    {
      id, typ, ticks, body := c.id, c.typ, c.ticks, c.body;
    }

    // -------------------------------------------------------------- writing

    method SerializeHead(stream: PropWriteStream)
      requires stream.Valid() && Storable(View())
      modifies stream, stream.buffer
      ensures stream.Valid() && (stream.buffer == old(stream.buffer) || fresh(stream.buffer))
      ensures stream.Contents() == old(stream.Contents()) + Head(View())
    {
      hide ToWord, Le32, Head;
      HeadParts(stream.Contents(), View());
      AddTagged(stream, CONDITIONATTR_TYPE, ToWord(typ));
      AddTagged(stream, CONDITIONATTR_ID, ToWord(id));
      AddTagged(stream, CONDITIONATTR_TICKS, ToWord(ticks));
    }

    method SerializeAttributes(stream: PropWriteStream, ghost start: seq<byte>) returns (ghost done: seq<Attr>)
      requires stream.Valid() && stream.Contents() == start && body.Attributes? && Sized(View())
      modifies stream, stream.buffer
      ensures stream.Valid() && (stream.buffer == old(stream.buffer) || fresh(stream.buffer))
      ensures done == BodyAttrs(body) && stream.Contents() == start + AllTagged(done)
    {
      done := [];
      ghost var skills, stats := Words(CONDITIONATTR_SKILLS, body.skills), Words(CONDITIONATTR_STATS, body.stats);
      for i := 0 to SKILLS
        invariant stream.Valid() && (stream.buffer == old(stream.buffer) || fresh(stream.buffer))
        invariant done == [] + skills[..i] && stream.Contents() == start + AllTagged(done)
      {
        done := AddWord(stream, CONDITIONATTR_SKILLS, ToWord(body.skills[i]), done, start);
        TakeMore([], skills, i);
      }
      TakenAll([], skills);
      for i := 0 to STATS
        invariant stream.Valid() && (stream.buffer == old(stream.buffer) || fresh(stream.buffer))
        invariant done == skills + stats[..i] && stream.Contents() == start + AllTagged(done)
      {
        done := AddWord(stream, CONDITIONATTR_STATS, ToWord(body.stats[i]), done, start);
        TakeMore(skills, stats, i);
      }
      TakenAll(skills, stats);
    }

    method SerializeDamage(stream: PropWriteStream, ghost start: seq<byte>) returns (ghost done: seq<Attr>)
      requires stream.Valid() && stream.Contents() == start && body.Damage?
      modifies stream, stream.buffer
      ensures stream.Valid() && (stream.buffer == old(stream.buffer) || fresh(stream.buffer))
      ensures done == BodyAttrs(body) && stream.Contents() == start + AllTagged(done)
    {
      DamageAttrs(body);
      NothingTagged(start);
      hide AllTagged, BodyAttrs;
      done := AddImage(stream, DelayedAttr(body.delayed), [], start);
      done := AddWord(stream, CONDITIONATTR_OWNER, body.owner, done, start);
      done := AddRounds(stream, body.rounds, done, start);
    }

    method SerializeOutfit(stream: PropWriteStream, ghost start: seq<byte>) returns (ghost done: seq<Attr>)
      requires stream.Valid() && stream.Contents() == start && body.Outfit?
      modifies stream, stream.buffer
      ensures stream.Valid() && (stream.buffer == old(stream.buffer) || fresh(stream.buffer))
      ensures done == BodyAttrs(body) && stream.Contents() == start + AllTagged(done)
    {
      done := [];
      ghost var looks := LookAttrs(body.outfits);
      for i := 0 to |body.outfits|
        invariant stream.Valid() && (stream.buffer == old(stream.buffer) || fresh(stream.buffer))
        invariant done == [] + looks[..i] && stream.Contents() == start + AllTagged(done)
      {
        done := AddImage(stream, LookAttr(body.outfits[i]), done, start);
        TakeMore([], looks, i);
      }
      TakenAll([], looks);
    }

    method SerializeRegeneration(stream: PropWriteStream, ghost start: seq<byte>) returns (ghost done: seq<Attr>)
      requires stream.Valid() && stream.Contents() == start && body.Regeneration?
      modifies stream, stream.buffer
      ensures stream.Valid() && (stream.buffer == old(stream.buffer) || fresh(stream.buffer))
      ensures done == BodyAttrs(body) && stream.Contents() == start + AllTagged(done)
    {
      NothingTagged(start);
      hide AllTagged;
      done := AddWord(stream, CONDITIONATTR_HEALTHTICKS, body.healthTicks, [], start);
      done := AddWord(stream, CONDITIONATTR_HEALTHGAIN, body.healthGain, done, start);
      done := AddWord(stream, CONDITIONATTR_MANATICKS, body.manaTicks, done, start);
      done := AddWord(stream, CONDITIONATTR_MANAGAIN, body.manaGain, done, start);
    }

    method SerializeSoul(stream: PropWriteStream, ghost start: seq<byte>) returns (ghost done: seq<Attr>)
      requires stream.Valid() && stream.Contents() == start && body.Soul?
      modifies stream, stream.buffer
      ensures stream.Valid() && (stream.buffer == old(stream.buffer) || fresh(stream.buffer))
      ensures done == BodyAttrs(body) && stream.Contents() == start + AllTagged(done)
    {
      NothingTagged(start);
      hide AllTagged;
      done := AddWord(stream, CONDITIONATTR_SOULGAIN, body.soulGain, [], start);
      done := AddWord(stream, CONDITIONATTR_SOULTICKS, body.soulTicks, done, start);
    }

    method SerializeSpeed(stream: PropWriteStream, ghost start: seq<byte>) returns (ghost done: seq<Attr>)
      requires stream.Valid() && stream.Contents() == start && body.Speed?
      modifies stream, stream.buffer
      ensures stream.Valid() && (stream.buffer == old(stream.buffer) || fresh(stream.buffer))
      ensures done == BodyAttrs(body) && stream.Contents() == start + AllTagged(done)
    {
      NothingTagged(start);
      hide AllTagged;
      done := AddWord(stream, CONDITIONATTR_SPEEDDELTA, ToWord(body.speedDelta), [], start);
      done := AddWord(stream, CONDITIONATTR_FORMULA_MINA, body.mina, done, start);
      done := AddWord(stream, CONDITIONATTR_FORMULA_MINB, body.minb, done, start);
      done := AddWord(stream, CONDITIONATTR_FORMULA_MAXA, body.maxa, done, start);
      done := AddWord(stream, CONDITIONATTR_FORMULA_MAXB, body.maxb, done, start);
    }

    method SerializeLight(stream: PropWriteStream, ghost start: seq<byte>) returns (ghost done: seq<Attr>)
      requires stream.Valid() && stream.Contents() == start && body.Light?
      modifies stream, stream.buffer
      ensures stream.Valid() && (stream.buffer == old(stream.buffer) || fresh(stream.buffer))
      ensures done == BodyAttrs(body) && stream.Contents() == start + AllTagged(done)
    {
      NothingTagged(start);
      hide AllTagged;
      done := AddWord(stream, CONDITIONATTR_LIGHTCOLOR, body.color, [], start);
      done := AddWord(stream, CONDITIONATTR_LIGHTLEVEL, body.level, done, start);
      done := AddWord(stream, CONDITIONATTR_LIGHTTICKS, body.internalTicks, done, start);
      done := AddWord(stream, CONDITIONATTR_LIGHTINTERVAL, body.changeInterval, done, start);
    }

    /** The fields of the subclass. */
    method SerializeBody(stream: PropWriteStream, ghost start: seq<byte>)
      requires stream.Valid() && stream.Contents() == start && Sized(View())
      modifies stream, stream.buffer
      ensures stream.Valid() && (stream.buffer == old(stream.buffer) || fresh(stream.buffer))
      ensures stream.Contents() == start + AllTagged(BodyAttrs(body))
    {
      hide AllTagged, BodyAttrs;
      ghost var done;
      match body {
        case Generic => NoAttrs(body); NothingTagged(start);
        case Attributes(_, _, _, _) => done := SerializeAttributes(stream, start);
        case Regeneration(_, _, _, _) => done := SerializeRegeneration(stream, start);
        case Soul(_, _) => done := SerializeSoul(stream, start);
        case Damage(_, _, _) => done := SerializeDamage(stream, start);
        case Speed(_, _, _, _, _) => done := SerializeSpeed(stream, start);
        case Outfit(_) => done := SerializeOutfit(stream, start);
        case Light(_, _, _, _) => done := SerializeLight(stream, start);
      }
    }

    method Serialize(stream: PropWriteStream)
      requires stream.Valid() && Storable(View())
      modifies stream, stream.buffer
      ensures stream.Valid() && (stream.buffer == old(stream.buffer) || fresh(stream.buffer))
      ensures stream.Contents() == old(stream.Contents()) + Serialized(View())
    {
      hide AllTagged, Head, BodyAttrs;
      SerializeHead(stream);
      SerializeBody(stream, stream.Contents());
    }

    // -------------------------------------------------------------- reading

    /** Condition::unserializeProp */
    method UnserializeBase(attr: byte, propStream: PropStream) returns (ok: bool)
      requires propStream.Valid() && Sized(View()) && !OwnWord(body, attr)
      requires body.Damage? ==> attr != CONDITIONATTR_DELAYED && attr != CONDITIONATTR_INTERVALDATA
      requires body.Outfit? ==> attr != CONDITIONATTR_OUTFIT
      modifies this, propStream
      ensures propStream.Valid()
      ensures PropDone(old(View()), attr, propStream.data, old(propStream.p), ok, View(), propStream.p)
    {
      ok := false;
      if attr == CONDITIONATTR_TYPE {
        var value;
        ok, value := propStream.GetUlong();
        if ok { typ := ToInt(value); }
      } else if attr == CONDITIONATTR_ID {
        var value;
        ok, value := propStream.GetUlong();
        if ok { id := ToInt(value); }
      } else if attr == CONDITIONATTR_TICKS {
        var value;
        ok, value := propStream.GetUlong();
        if ok { ticks := ToInt(value); }
      } else if attr == CONDITIONATTR_END {
        ok := true;
      }
    }

    method UnserializeAttributes(attr: byte, propStream: PropStream) returns (ok: bool)
      requires propStream.Valid() && Sized(View()) && body.Attributes?
      modifies this, propStream
      ensures propStream.Valid()
      ensures PropDone(old(View()), attr, propStream.data, old(propStream.p), ok, View(), propStream.p)
    {
      if attr == CONDITIONATTR_SKILLS {
        if body.currentSkill >= SKILLS { return false; }
        var value;
        ok, value := propStream.GetUlong();
        if ok {
          body := body.(skills := body.skills[body.currentSkill := ToInt(value)],
                        currentSkill := body.currentSkill + 1);
        }
      } else if attr == CONDITIONATTR_STATS {
        if body.currentStat >= STATS { return false; }
        var value;
        ok, value := propStream.GetUlong();
        if ok {
          body := body.(stats := body.stats[body.currentStat := ToInt(value)], currentStat := body.currentStat + 1);
        }
      } else {
        ok := UnserializeBase(attr, propStream);
      }
    }

    method UnserializeDamage(attr: byte, propStream: PropStream) returns (ok: bool)
      requires propStream.Valid() && Sized(View()) && body.Damage?
      modifies this, propStream
      ensures propStream.Valid()
      ensures PropDone(old(View()), attr, propStream.data, old(propStream.p), ok, View(), propStream.p)
    {
      if attr == CONDITIONATTR_DELAYED {
        var value;
        ok, value := propStream.GetValue(1);
        if ok { body := body.(delayed := value[0] != 0); }
      } else if attr == CONDITIONATTR_OWNER {
        var value;
        ok, value := propStream.GetUlong();
        if ok { body := body.(owner := value); }
      } else if attr == CONDITIONATTR_INTERVALDATA {
        var value;
        ok, value := propStream.GetValue(12);
        if ok {
          var damageInfo := RoundOf(value);
          body := body.(rounds := body.rounds + [damageInfo]);
          if ticks != -1 { ticks := ticks + damageInfo.interval; }
        }
      } else {
        ok := UnserializeBase(attr, propStream);
      }
    }

    method UnserializeOutfit(attr: byte, propStream: PropStream) returns (ok: bool)
      requires propStream.Valid() && Sized(View()) && body.Outfit?
      modifies this, propStream
      ensures propStream.Valid()
      ensures PropDone(old(View()), attr, propStream.data, old(propStream.p), ok, View(), propStream.p)
    {
      if attr == CONDITIONATTR_OUTFIT {
        var outfit;
        ok, outfit := propStream.GetValue(OUTFIT_SIZE);
        if ok { body := body.(outfits := body.outfits + [outfit]); }
      } else {
        ok := UnserializeBase(attr, propStream);
      }
    }

    method UnserializeRegeneration(attr: byte, propStream: PropStream) returns (ok: bool)
      requires propStream.Valid() && Sized(View()) && body.Regeneration?
      modifies this, propStream
      ensures propStream.Valid()
      ensures PropDone(old(View()), attr, propStream.data, old(propStream.p), ok, View(), propStream.p)
    {
      if attr == CONDITIONATTR_HEALTHTICKS {
        var value;
        ok, value := propStream.GetUlong();
        if ok { body := body.(healthTicks := value); }
      } else if attr == CONDITIONATTR_HEALTHGAIN {
        var value;
        ok, value := propStream.GetUlong();
        if ok { body := body.(healthGain := value); }
      } else if attr == CONDITIONATTR_MANATICKS {
        var value;
        ok, value := propStream.GetUlong();
        if ok { body := body.(manaTicks := value); }
      } else if attr == CONDITIONATTR_MANAGAIN {
        var value;
        ok, value := propStream.GetUlong();
        if ok { body := body.(manaGain := value); }
      } else {
        ok := UnserializeBase(attr, propStream);
      }
    }

    method UnserializeSoul(attr: byte, propStream: PropStream) returns (ok: bool)
      requires propStream.Valid() && Sized(View()) && body.Soul?
      modifies this, propStream
      ensures propStream.Valid()
      ensures PropDone(old(View()), attr, propStream.data, old(propStream.p), ok, View(), propStream.p)
    {
      if attr == CONDITIONATTR_SOULGAIN {
        var value;
        ok, value := propStream.GetUlong();
        if ok { body := body.(soulGain := value); }
      } else if attr == CONDITIONATTR_SOULTICKS {
        var value;
        ok, value := propStream.GetUlong();
        if ok { body := body.(soulTicks := value); }
      } else {
        ok := UnserializeBase(attr, propStream);
      }
    }

    method UnserializeSpeed(attr: byte, propStream: PropStream) returns (ok: bool)
      requires propStream.Valid() && Sized(View()) && body.Speed?
      modifies this, propStream
      ensures propStream.Valid()
      ensures PropDone(old(View()), attr, propStream.data, old(propStream.p), ok, View(), propStream.p)
    {
      if attr == CONDITIONATTR_SPEEDDELTA {
        var value;
        ok, value := propStream.GetUlong();
        if ok { body := body.(speedDelta := ToInt(value)); }
      } else if attr == CONDITIONATTR_FORMULA_MINA {
        var value;
        ok, value := propStream.GetUlong();
        if ok { body := body.(mina := value); }
      } else if attr == CONDITIONATTR_FORMULA_MINB {
        var value;
        ok, value := propStream.GetUlong();
        if ok { body := body.(minb := value); }
      } else if attr == CONDITIONATTR_FORMULA_MAXA {
        var value;
        ok, value := propStream.GetUlong();
        if ok { body := body.(maxa := value); }
      } else if attr == CONDITIONATTR_FORMULA_MAXB {
        var value;
        ok, value := propStream.GetUlong();
        if ok { body := body.(maxb := value); }
      } else {
        ok := UnserializeBase(attr, propStream);
      }
    }

    method UnserializeLight(attr: byte, propStream: PropStream) returns (ok: bool)
      requires propStream.Valid() && Sized(View()) && body.Light?
      modifies this, propStream
      ensures propStream.Valid()
      ensures PropDone(old(View()), attr, propStream.data, old(propStream.p), ok, View(), propStream.p)
    {
      if attr == CONDITIONATTR_LIGHTCOLOR {
        var value;
        ok, value := propStream.GetUlong();
        if ok { body := body.(color := value); }
      } else if attr == CONDITIONATTR_LIGHTLEVEL {
        var value;
        ok, value := propStream.GetUlong();
        if ok { body := body.(level := value); }
      } else if attr == CONDITIONATTR_LIGHTTICKS {
        var value;
        ok, value := propStream.GetUlong();
        if ok { body := body.(internalTicks := value); }
      } else if attr == CONDITIONATTR_LIGHTINTERVAL {
        var value;
        ok, value := propStream.GetUlong();
        if ok { body := body.(changeInterval := value); }
      } else {
        ok := UnserializeBase(attr, propStream);
      }
    }

    method UnserializeProp(attr: byte, propStream: PropStream) returns (ok: bool)
      requires propStream.Valid() && Sized(View())
      modifies this, propStream
      ensures propStream.Valid()
      ensures PropDone(old(View()), attr, propStream.data, old(propStream.p), ok, View(), propStream.p)
    {
      hide PropDone;
      match body {
        case Generic => ok := UnserializeBase(attr, propStream);
        case Attributes(_, _, _, _) => ok := UnserializeAttributes(attr, propStream);
        case Regeneration(_, _, _, _) => ok := UnserializeRegeneration(attr, propStream);
        case Soul(_, _) => ok := UnserializeSoul(attr, propStream);
        case Damage(_, _, _) => ok := UnserializeDamage(attr, propStream);
        case Speed(_, _, _, _, _) => ok := UnserializeSpeed(attr, propStream);
        case Outfit(_) => ok := UnserializeOutfit(attr, propStream);
        case Light(_, _, _, _) => ok := UnserializeLight(attr, propStream);
      }
    }

    /** Condition::unserialize */
    method Unserialize(propStream: PropStream) returns (ok: bool)
      requires propStream.Valid() && Sized(View())
      modifies this, propStream
      ensures propStream.Valid()
      ensures Props(ok, View(), propStream.p) == Unserialized(old(View()), propStream.data, old(propStream.p))
    {
      ghost var c, p, bytes := View(), propStream.p, propStream.data;
      while true
        invariant propStream.Valid() && Sized(View())
        invariant Unserialized(View(), bytes, propStream.p) == Unserialized(c, bytes, p)
        decreases |bytes| - propStream.p
      {
        var got, attr := propStream.GetUchar();
        if !got || attr == CONDITIONATTR_END { return true; }
        ok := UnserializeProp(attr, propStream);
        if !ok { return false; }
      }
    }
  }

  /** Condition::createCondition from a stream */
  method CreateCondition(propStream: PropStream) returns (condition: StoredCondition?)
    requires propStream.Valid()
    modifies propStream
    ensures propStream.Valid() && (condition != null ==> fresh(condition))
    ensures match CreatedAt(propStream.data, old(propStream.p))
      case NoCondition => condition == null
      case Created(c, at) => condition != null && condition.View() == c && propStream.p == at
  {
    condition := null;
    var ok, attr := propStream.GetUchar();
    if !ok || attr != CONDITIONATTR_TYPE { return; }
    var typ, id, ticks;
    ok, typ := propStream.GetUlong();
    if !ok { return; }
    ok, attr := propStream.GetUchar();
    if !ok || attr != CONDITIONATTR_ID { return; }
    ok, id := propStream.GetUlong();
    if !ok { return; }
    ok, attr := propStream.GetUchar();
    if !ok || attr != CONDITIONATTR_TICKS { return; }
    ok, ticks := propStream.GetUlong();
    if !ok { return; }
    match NewCondition(ToInt(id), ToInt(typ), ToInt(ticks)) {
      case None =>
      case Some(c) => condition := new StoredCondition(c);
    }
  }

  ghost function Views(cs: seq<StoredCondition>): seq<Condition>
    reads cs
  {
    seq(|cs|, i requires 0 <= i < |cs| reads cs => cs[i].View())
  }

  lemma BlobStep(cs: seq<Condition>, i: nat, before: seq<byte>, after: seq<byte>)
    requires i < |cs| && AllStorable(cs)
    requires after == if Persistent(cs[i]) then before + Serialized(cs[i]) + [CONDITIONATTR_END] else before
    ensures AllStorable(cs[i..]) && AllStorable(cs[i + 1..]) && after + Blob(cs[i + 1..]) == before + Blob(cs[i..])
  {
    hide Serialized, Storable, Persistent;
    assert cs[i..][0] == cs[i] && cs[i..][1..] == cs[i + 1..];
    BlobFirst(cs[i..]);
    if Persistent(cs[i]) {
      Regroup(before, Serialized(cs[i]), [CONDITIONATTR_END]);
      Regroup(before, Serialized(cs[i]) + [CONDITIONATTR_END], Blob(cs[i + 1..]));
    } else {
      assert [] + Blob(cs[i + 1..]) == Blob(cs[i + 1..]);
    }
  }

  lemma BlobFirst(cs: seq<Condition>)
    requires cs != [] && AllStorable(cs)
    ensures AllStorable(cs[1..])
    ensures Blob(cs) == (if Persistent(cs[0]) then Serialized(cs[0]) + [CONDITIONATTR_END] else []) + Blob(cs[1..])
  {
  }

  /** The loop of savePlayer over a player's conditions. */
  method SaveConditions(conditions: seq<StoredCondition>) returns (stream: PropWriteStream)
    requires AllStorable(Views(conditions))
    ensures fresh(stream) && fresh(stream.buffer) && stream.Valid() && stream.Contents() == Blob(Views(conditions))
  {
    hide Serialized, Persistent, Blob, Storable;
    ghost var cs := Views(conditions);
    stream := new PropWriteStream();
    BlobStart(cs);
    for i := 0 to |conditions|
      invariant fresh(stream) && fresh(stream.buffer) && stream.Valid()
      invariant forall k | 0 <= k < |conditions| :: conditions[k].View() == cs[k]
      invariant AllStorable(cs[i..]) && stream.Contents() + Blob(cs[i..]) == Blob(cs)
    {
      ghost var before := stream.Contents();
      assert Storable(cs[i]) && conditions[i].View() == cs[i];
      if Persistent(conditions[i].View()) {
        conditions[i].Serialize(stream);
        stream.AddUchar(CONDITIONATTR_END);
      }
      BlobStep(cs, i, before, stream.Contents());
    }
    BlobEnd(cs, stream.Contents());
  }

  lemma BlobStart(cs: seq<Condition>)
    requires AllStorable(cs)
    ensures AllStorable(cs[0..]) && [] + Blob(cs[0..]) == Blob(cs)
  {
    assert cs[0..] == cs;
  }

  lemma BlobEnd(cs: seq<Condition>, contents: seq<byte>)
    requires AllStorable(cs) && AllStorable(cs[|cs|..]) && contents + Blob(cs[|cs|..]) == Blob(cs)
    ensures contents == Blob(cs)
  {
    assert cs[|cs|..] == [] && contents + [] == contents;
  }

  ghost predicate Seen(stored: seq<StoredCondition>, views: seq<Condition>)
    reads stored
  {
    |views| == |stored| && forall k | 0 <= k < |stored| :: stored[k].View() == views[k]
  }

  /** The loop of loadPlayer over the stored bytes. */
  method LoadConditions(conditions: seq<byte>) returns (stored: seq<StoredCondition>)
    ensures fresh(stored) && Views(stored) == Loaded(conditions, 0)
  {
    hide CreatedAt, Unserialized, Loaded, Sized;
    stored := [];
    var propStream := new PropStream(conditions);
    var condition := CreateCondition(propStream);
    ghost var p, views: seq<Condition> := 0, [];
    while condition != null
      invariant propStream.Valid() && propStream.data == conditions && fresh(propStream) && fresh(stored)
      invariant condition != null ==> fresh(condition) && condition !in stored
      invariant match CreatedAt(conditions, p)
        case NoCondition => condition == null
        case Created(c, at) => condition != null && condition.View() == c && propStream.p == at
      invariant Seen(stored, views) && views + Loaded(conditions, p) == Loaded(conditions, 0)
      decreases |conditions| - p, condition
    {
      var ok := condition.Unserialize(propStream);
      LoadStep(conditions, p, Props(ok, condition.View(), propStream.p), views);
      if ok { stored, views := stored + [condition], views + [condition.View()]; }
      p := propStream.p;
      condition := CreateCondition(propStream);
    }
    LoadEnd(conditions, p, views);
    assert Views(stored) == views;
  }

  lemma LoadStep(bytes: seq<byte>, p: nat, r: Props, views: seq<Condition>)
    requires CreatedAt(bytes, p).Created? && r == Unserialized(CreatedAt(bytes, p).c, bytes, CreatedAt(bytes, p).at)
    ensures (if r.ok then views + [r.c] else views) + Loaded(bytes, r.at) == views + Loaded(bytes, p)
    ensures r.at > p && p < |bytes|
  {
  }

  lemma LoadEnd(bytes: seq<byte>, p: nat, views: seq<Condition>)
    requires CreatedAt(bytes, p).NoCondition?
    ensures views + Loaded(bytes, p) == views
  {
  }

  /** Conditions that go through savePlayer and loadPlayer. */
  method SaveAndLoad(conditions: seq<StoredCondition>) returns (stored: seq<StoredCondition>)
    requires AllShaped(Views(conditions))
    ensures fresh(stored)
    ensures RestoredInOrder(Views(stored), Kept(Views(conditions)))
    ensures |stored| == |Kept(Views(conditions))| <==> AllKnown(Kept(Views(conditions)))
  {
    ghost var cs := Views(conditions);
    ShapedAreStorable(cs);
    var stream := SaveConditions(conditions);
    stored := LoadConditions(stream.buffer[..stream.size]);
    ConditionsRoundTrip(cs);
    assert Views(conditions) == cs;
  }
}
