/** Conditions that are saved and loaded again. */
module ConditionRoundTrip {
  import opened Bytes
  import opened PropBytes
  import opened DamageList
  import opened ConditionBlob

  // ---------------------------------------------------------------- one value

  /** A value is read back, and exactly its bytes are taken. */
  lemma ReadBack(body: Body, a: Attr, before: seq<byte>, after: seq<byte>)
    requires Takes(body, a) && (a.WordAttr? ==> Unshadowed(body, a.code))
    ensures ReadProp(body, Code(a), before + Image(a) + after, |before|) == PropRead(a, |before| + |Image(a)|)
  {
    var bytes, p := before + Image(a) + after, |before|;
    assert Part(bytes, p, |Image(a)|) == Image(a);
    match a
    case WordAttr(_, w) => WordBack(w);
    case RoundAttr(x) => RoundBack(x);
    case DelayedAttr(_) =>
    case LookAttr(_) =>
  }

  /** A code with a single value of four bytes. */
  predicate Unshadowed(body: Body, code: byte) {
    && code != CONDITIONATTR_DELAYED && code != CONDITIONATTR_INTERVALDATA && code != CONDITIONATTR_OUTFIT
    && code != CONDITIONATTR_END
  }

  lemma RoundBack(x: Round)
    ensures |Image(RoundAttr(x))| == 12 && RoundOf(Image(RoundAttr(x))) == x
  {
    var image := Image(RoundAttr(x));
    assert image[..4] == Le32(ToWord(x.timeLeft));
    assert image[4..8] == Le32(ToWord(x.value));
    assert image[8..] == Le32(ToWord(x.interval));
    IntBack(x.timeLeft);
    IntBack(x.value);
    IntBack(x.interval);
  }

  // ---------------------------------------------------------------- a run of values

  lemma NotTheEnd(body: Body, a: Attr)
    requires a.WordAttr? ==> Unshadowed(body, a.code)
    ensures Code(a) != CONDITIONATTR_END
  {
  }

  /** Each value is one that the condition takes when its turn comes. */
  predicate TakesAll(c: Condition, attrs: seq<Attr>)
    requires Sized(c)
    decreases |attrs|
  {
    attrs == [] ||
    (Takes(c.body, attrs[0]) && (attrs[0].WordAttr? ==> Unshadowed(c.body, attrs[0].code))
     && TakesAll(Applied(c, attrs[0]), attrs[1..]))
  }

  function AppliedAll(c: Condition, attrs: seq<Attr>): (d: Condition)
    requires Sized(c) && TakesAll(c, attrs)
    ensures Sized(d)
    decreases |attrs|
  {
    if attrs == [] then c else AppliedAll(Applied(c, attrs[0]), attrs[1..])
  }

  lemma {:induction false} ReadAll(c: Condition, attrs: seq<Attr>, before: seq<byte>, after: seq<byte>,
                                   bytes: seq<byte>)
    requires Sized(c) && TakesAll(c, attrs) && bytes == before + AllTagged(attrs) + [CONDITIONATTR_END] + after
    ensures Unserialized(c, bytes, |before|) == Props(true, AppliedAll(c, attrs), |before| + |AllTagged(attrs)| + 1)
    decreases |attrs|
  {
    hide Applied, Image, ReadProp, Takes, Code;
    if attrs == [] {
      assert bytes[|before|] == CONDITIONATTR_END;
    } else {
      var a, rest := attrs[0], AllTagged(attrs[1..]) + [CONDITIONATTR_END] + after;
      var upTo := before + [Code(a)];
      assert bytes == upTo + Image(a) + rest;
      ReadBack(c.body, a, upTo, rest);
      assert bytes[|before|] == Code(a);
      NotTheEnd(c.body, a);
      var next := upTo + Image(a);
      assert bytes == next + AllTagged(attrs[1..]) + [CONDITIONATTR_END] + after;
      ReadAll(Applied(c, a), attrs[1..], next, after, bytes);
    }
  }

  lemma Step(c: Condition, a: Attr, rest: seq<Attr>)
    requires Sized(c) && Takes(c.body, a) && (a.WordAttr? ==> Unshadowed(c.body, a.code))
    requires TakesAll(Applied(c, a), rest)
    ensures TakesAll(c, [a] + rest) && AppliedAll(c, [a] + rest) == AppliedAll(Applied(c, a), rest)
  {
    assert ([a] + rest)[1..] == rest;
  }

  lemma {:induction false} AppendAll(c: Condition, xs: seq<Attr>, ys: seq<Attr>)
    requires Sized(c) && TakesAll(c, xs) && TakesAll(AppliedAll(c, xs), ys)
    ensures TakesAll(c, xs + ys) && AppliedAll(c, xs + ys) == AppliedAll(AppliedAll(c, xs), ys)
    decreases |xs|
  {
    if xs == [] {
      assert xs + ys == ys;
    } else {
      AppendAll(Applied(c, xs[0]), xs[1..], ys);
      assert (xs + ys)[1..] == xs[1..] + ys;
    }
  }

  lemma Two(c: Condition, a: Attr, b: Attr)
    requires Sized(c) && Takes(c.body, a) && Unshadows(c.body, a)
    requires var d := Applied(c, a); Takes(d.body, b) && Unshadows(d.body, b)
    ensures TakesAll(c, [a, b]) && AppliedAll(c, [a, b]) == Applied(Applied(c, a), b)
  {
    var d := Applied(c, a);
    assert AppliedAll(Applied(d, b), []) == Applied(d, b);
    Step(d, b, []);
    assert [b] + [] == [b] && [a] + [b] == [a, b];
    Step(c, a, [b]);
  }

  predicate Unshadows(body: Body, a: Attr) {
    a.WordAttr? ==> Unshadowed(body, a.code)
  }

  // ---------------------------------------------------------------- each class of condition

  /** What comes back of a condition that was saved. */
  function Restored(c: Condition): Condition {
    match c.body
    case Damage(_, _, rounds) => c.(ticks := TicksAfter(0, rounds))
    case Attributes(_, _, _, _) => c.(body := c.body.(currentSkill := 7, currentStat := 4))
    case _ => c
  }

  /** The nineteen types of ConditionType_t that there are conditions of; only 8, the life drain, is not among them. */
  predicate KnownType(c: Condition) {
    c.typ in {1, 2, 4, 16, 32, 64, 128, 256, 512, 1024, 2048, 4096, 8192, 16384, 32768, 65536, 131072, 262144, 524288}
  }

  /** Poison, fire, energy and drowning are damage; haste and paralysis are speeds. */
  predicate RightClass(typ: int32, body: Body) {
    && (typ in {1, 2, 4, 32768} ==> body.Damage?)
    && (typ in {16, 32} ==> body.Speed?)
    && (typ == 64 ==> body.Outfit?)
    && (typ == 256 ==> body.Light?)
    && (typ == 8192 ==> body.Regeneration?)
    && (typ == 16384 ==> body.Soul?)
    && (typ == 524288 ==> body.Attributes?)
    && (typ in {128, 512, 1024, 2048, 4096, 65536, 131072, 262144} ==> body.Generic?)
  }

  /** A condition as the game makes it: of the class of its type. */
  predicate Shaped(c: Condition) {
    Storable(c) && RightClass(c.typ, c.body)
  }

  /** createCondition makes a condition for each of these types and for no other, of the right class. */
  lemma TypesKnown(c: Condition)
    ensures NewBody(c.typ).Some? <==> KnownType(c)
    ensures NewBody(c.typ).Some? ==> RightClass(c.typ, NewBody(c.typ).value)
  {
  }

  function RoundAttrs(rounds: seq<Round>): seq<Attr> {
    seq(|rounds|, i requires 0 <= i < |rounds| => RoundAttr(rounds[i]))
  }

  lemma {:induction false} RoundsApplied(c: Condition, rounds: seq<Round>)
    requires c.body.Damage?
    ensures TakesAll(c, RoundAttrs(rounds))
    ensures AppliedAll(c, RoundAttrs(rounds))
         == c.(body := c.body.(rounds := c.body.rounds + rounds), ticks := TicksAfter(c.ticks, rounds))
    decreases |rounds|
  {
    if rounds == [] {
      assert c.body.rounds + rounds == c.body.rounds;
    } else {
      var a := RoundAttr(rounds[0]);
      var d := Applied(c, a);
      RoundsApplied(d, rounds[1..]);
      assert RoundAttrs(rounds) == [a] + RoundAttrs(rounds[1..]);
      Step(c, a, RoundAttrs(rounds[1..]));
      assert c.body.rounds + rounds == d.body.rounds + rounds[1..];
    }
  }

  function LookAttrs(outfits: seq<Look>): seq<Attr> {
    seq(|outfits|, i requires 0 <= i < |outfits| => LookAttr(outfits[i]))
  }

  lemma {:induction false} LooksApplied(c: Condition, outfits: seq<Look>)
    requires c.body.Outfit?
    ensures TakesAll(c, LookAttrs(outfits))
    ensures AppliedAll(c, LookAttrs(outfits)) == c.(body := c.body.(outfits := c.body.outfits + outfits))
    decreases |outfits|
  {
    if outfits == [] {
      assert c.body.outfits + outfits == c.body.outfits;
    } else {
      var a := LookAttr(outfits[0]);
      var d := Applied(c, a);
      LooksApplied(d, outfits[1..]);
      assert LookAttrs(outfits) == [a] + LookAttrs(outfits[1..]);
      Step(c, a, LookAttrs(outfits[1..]));
      assert c.body.outfits + outfits == d.body.outfits + outfits[1..];
    }
  }

  lemma {:induction false} SkillsApplied(c: Condition, vs: seq<int32>, i: nat)
    requires c.body.Attributes? && Sized(c) && |vs| == SKILLS && c.body.currentSkill == i <= SKILLS
    requires forall k | 0 <= k < i :: c.body.skills[k] == vs[k]
    ensures TakesAll(c, Words(CONDITIONATTR_SKILLS, vs)[i..])
    ensures AppliedAll(c, Words(CONDITIONATTR_SKILLS, vs)[i..])
         == c.(body := c.body.(skills := vs, currentSkill := SKILLS))
    decreases SKILLS - i
  {
    if i == SKILLS {
      assert c.body.skills == vs;
    } else {
      var a := WordAttr(CONDITIONATTR_SKILLS, ToWord(vs[i]));
      var d := Applied(c, a);
      SkillsApplied(d, vs, i + 1);
      assert Words(CONDITIONATTR_SKILLS, vs)[i..] == [a] + Words(CONDITIONATTR_SKILLS, vs)[i + 1..];
      Step(c, a, Words(CONDITIONATTR_SKILLS, vs)[i + 1..]);
    }
  }

  lemma {:induction false} StatsApplied(c: Condition, vs: seq<int32>, i: nat)
    requires c.body.Attributes? && Sized(c) && |vs| == STATS && c.body.currentStat == i <= STATS
    requires forall k | 0 <= k < i :: c.body.stats[k] == vs[k]
    ensures TakesAll(c, Words(CONDITIONATTR_STATS, vs)[i..])
    ensures AppliedAll(c, Words(CONDITIONATTR_STATS, vs)[i..])
         == c.(body := c.body.(stats := vs, currentStat := STATS))
    decreases STATS - i
  {
    if i == STATS {
      assert c.body.stats == vs;
    } else {
      var a := WordAttr(CONDITIONATTR_STATS, ToWord(vs[i]));
      var d := Applied(c, a);
      StatsApplied(d, vs, i + 1);
      assert Words(CONDITIONATTR_STATS, vs)[i..] == [a] + Words(CONDITIONATTR_STATS, vs)[i + 1..];
      Step(c, a, Words(CONDITIONATTR_STATS, vs)[i + 1..]);
    }
  }

  lemma AttributesBack(c: Condition, made: Condition)
    requires c.body.Attributes? && Sized(c) && made == c.(body := Attributes([0, 0, 0, 0, 0, 0, 0], [0, 0, 0, 0], 0, 0))
    ensures TakesAll(made, BodyAttrs(c.body)) && AppliedAll(made, BodyAttrs(c.body)) == Restored(c)
  {
    var skills, stats := Words(CONDITIONATTR_SKILLS, c.body.skills), Words(CONDITIONATTR_STATS, c.body.stats);
    SkillsApplied(made, c.body.skills, 0);
    assert skills[0..] == skills && stats[0..] == stats;
    StatsApplied(AppliedAll(made, skills), c.body.stats, 0);
    AppendAll(made, skills, stats);
  }

  lemma DamageBack(c: Condition, made: Condition)
    requires c.body.Damage? && made == c.(ticks := 0, body := Damage(false, 0, []))
    ensures TakesAll(made, BodyAttrs(c.body)) && AppliedAll(made, BodyAttrs(c.body)) == Restored(c)
  {
    var a, b := DelayedAttr(c.body.delayed), WordAttr(CONDITIONATTR_OWNER, c.body.owner);
    Two(made, a, b);
    var d := AppliedAll(made, [a, b]);
    RoundsApplied(d, c.body.rounds);
    AppendAll(made, [a, b], RoundAttrs(c.body.rounds));
    assert [] + c.body.rounds == c.body.rounds;
    assert BodyAttrs(c.body) == [a, b] + RoundAttrs(c.body.rounds);
  }

  lemma OutfitBack(c: Condition, made: Condition)
    requires c.body.Outfit? && made == c.(body := Outfit([]))
    ensures TakesAll(made, BodyAttrs(c.body)) && AppliedAll(made, BodyAttrs(c.body)) == Restored(c)
  {
    LooksApplied(made, c.body.outfits);
    assert [] + c.body.outfits == c.body.outfits;
    assert BodyAttrs(c.body) == LookAttrs(c.body.outfits);
  }

  lemma SoulBack(c: Condition, made: Condition)
    requires c.body.Soul? && made == c.(body := Soul(0, 0))
    ensures TakesAll(made, BodyAttrs(c.body)) && AppliedAll(made, BodyAttrs(c.body)) == Restored(c)
  {
    Two(made, BodyAttrs(c.body)[0], BodyAttrs(c.body)[1]);
  }

  lemma RegenerationBack(c: Condition, made: Condition)
    requires c.body.Regeneration? && made == c.(body := Regeneration(1000, 0, 1000, 0))
    ensures TakesAll(made, BodyAttrs(c.body)) && AppliedAll(made, BodyAttrs(c.body)) == Restored(c)
  {
    var attrs := BodyAttrs(c.body);
    Two(made, attrs[0], attrs[1]);
    var d := AppliedAll(made, [attrs[0], attrs[1]]);
    Two(d, attrs[2], attrs[3]);
    AppendAll(made, [attrs[0], attrs[1]], [attrs[2], attrs[3]]);
    assert attrs == [attrs[0], attrs[1]] + [attrs[2], attrs[3]];
  }

  lemma LightBack(c: Condition, made: Condition)
    requires c.body.Light? && made == c.(body := Light(0, 0, 0, 0))
    ensures TakesAll(made, BodyAttrs(c.body)) && AppliedAll(made, BodyAttrs(c.body)) == Restored(c)
  {
    var attrs := BodyAttrs(c.body);
    Two(made, attrs[0], attrs[1]);
    var d := AppliedAll(made, [attrs[0], attrs[1]]);
    Two(d, attrs[2], attrs[3]);
    AppendAll(made, [attrs[0], attrs[1]], [attrs[2], attrs[3]]);
    assert attrs == [attrs[0], attrs[1]] + [attrs[2], attrs[3]];
  }

  lemma SpeedBack(c: Condition, made: Condition)
    requires c.body.Speed? && made == c.(body := Speed(0, 0, 0, 0, 0))
    ensures TakesAll(made, BodyAttrs(c.body)) && AppliedAll(made, BodyAttrs(c.body)) == Restored(c)
  {
    var attrs := BodyAttrs(c.body);
    Two(made, attrs[0], attrs[1]);
    var d := AppliedAll(made, [attrs[0], attrs[1]]);
    Two(d, attrs[2], attrs[3]);
    var e := AppliedAll(d, [attrs[2], attrs[3]]);
    assert AppliedAll(Applied(e, attrs[4]), []) == Applied(e, attrs[4]);
    Step(e, attrs[4], []);
    assert [attrs[4]] + [] == [attrs[4]];
    AppendAll(d, [attrs[2], attrs[3]], [attrs[4]]);
    AppendAll(made, [attrs[0], attrs[1]], [attrs[2], attrs[3]] + [attrs[4]]);
    assert attrs == [attrs[0], attrs[1]] + ([attrs[2], attrs[3]] + [attrs[4]]);
  }

  lemma BodyBack(c: Condition, made: Condition)
    requires Shaped(c) && NewCondition(c.id, c.typ, c.ticks) == Some(made)
    ensures Sized(made) && TakesAll(made, BodyAttrs(c.body)) && AppliedAll(made, BodyAttrs(c.body)) == Restored(c)
  {
    hide Restored, BodyAttrs, TakesAll, AppliedAll;
    TypesKnown(c);
    match c.body
    case Generic => GenericBack(c);
    case Attributes(_, _, _, _) => AttributesBack(c, made);
    case Regeneration(_, _, _, _) => RegenerationBack(c, made);
    case Soul(_, _) => SoulBack(c, made);
    case Damage(_, _, _) => DamageBack(c, made);
    case Speed(_, _, _, _, _) => SpeedBack(c, made);
    case Outfit(_) => OutfitBack(c, made);
    case Light(_, _, _, _) => LightBack(c, made);
  }

  lemma GenericBack(c: Condition)
    requires c.body.Generic?
    ensures TakesAll(c, BodyAttrs(c.body)) && AppliedAll(c, BodyAttrs(c.body)) == Restored(c)
  {
  }

  // ---------------------------------------------------------------- a whole list

  lemma HeadBack(c: Condition, before: seq<byte>, after: seq<byte>, bytes: seq<byte>)
    requires Storable(c) && bytes == before + Head(c) + after
    ensures |Head(c)| == 15
    ensures var made := NewCondition(c.id, c.typ, c.ticks);
      CreatedAt(bytes, |before|) == if made.Some? then Created(made.value, |before| + 15) else NoCondition
  {
    var p := |before|;
    assert |Head(c)| == 15 && bytes[p..p + 15] == Head(c);
    assert Part(bytes, p + 1, 4) == Head(c)[1..5] == Le32(ToWord(c.typ));
    assert Part(bytes, p + 6, 4) == Head(c)[6..10] == Le32(ToWord(c.id));
    assert Part(bytes, p + 11, 4) == Head(c)[11..15] == Le32(ToWord(c.ticks));
    assert bytes[p] == Head(c)[0] && bytes[p + 5] == Head(c)[5] && bytes[p + 10] == Head(c)[10];
    IntBack(c.typ);
    IntBack(c.id);
    IntBack(c.ticks);
  }

  /** Saved conditions up to the first of a type that createCondition does not know. */
  function LoadedBack(cs: seq<Condition>): seq<Condition> {
    if cs == [] then []
    else if !Persistent(cs[0]) then LoadedBack(cs[1..])
    else if !KnownType(cs[0]) then []
    else [Restored(cs[0])] + LoadedBack(cs[1..])
  }

  lemma OneBack(c: Condition, before: seq<byte>, after: seq<byte>, bytes: seq<byte>)
    requires Shaped(c) && bytes == before + (Serialized(c) + [CONDITIONATTR_END]) + after
    ensures !KnownType(c) ==> CreatedAt(bytes, |before|).NoCondition?
    ensures KnownType(c) ==> CreatedAt(bytes, |before|).Created?
    ensures var r := CreatedAt(bytes, |before|);
      KnownType(c) ==> Unserialized(r.c, bytes, r.at) == Props(true, Restored(c), |before| + |Serialized(c)| + 1)
  {
    var attrs := BodyAttrs(c.body);
    var rest := AllTagged(attrs) + [CONDITIONATTR_END] + after;
    assert bytes == before + Head(c) + rest;
    HeadBack(c, before, rest, bytes);
    TypesKnown(c);
    if KnownType(c) {
      var made := NewCondition(c.id, c.typ, c.ticks).value;
      BodyBack(c, made);
      assert bytes == (before + Head(c)) + AllTagged(attrs) + [CONDITIONATTR_END] + after;
      ReadAll(made, attrs, before + Head(c), after, bytes);
    }
  }

  predicate AllShaped(cs: seq<Condition>) {
    forall i | 0 <= i < |cs| :: Shaped(cs[i])
  }

  lemma ShapedAreStorable(cs: seq<Condition>)
    requires AllShaped(cs)
    ensures AllStorable(cs) && (cs != [] ==> Shaped(cs[0]) && AllShaped(cs[1..]))
  {
    forall i | 0 <= i < |cs| ensures Storable(cs[i]) { assert Shaped(cs[i]); }
  }

  lemma {:induction false} ListBack(cs: seq<Condition>, before: seq<byte>, bytes: seq<byte>)
    requires AllShaped(cs) && AllStorable(cs) && bytes == before + Blob(cs)
    ensures Loaded(bytes, |before|) == LoadedBack(cs)
    decreases |cs|
  {
    hide Shaped, AllShaped, AllStorable, Serialized, CreatedAt, Unserialized, KnownType, Restored, Persistent;
    ShapedAreStorable(cs);
    if cs == [] {
      NothingCreated(bytes);
    } else {
      ShapedAreStorable(cs[1..]);
      if !Persistent(cs[0]) {
        assert Blob(cs) == Blob(cs[1..]);
        ListBack(cs[1..], before, bytes);
      } else {
        var one := Serialized(cs[0]) + [CONDITIONATTR_END];
        assert bytes == before + one + Blob(cs[1..]);
        OneBack(cs[0], before, Blob(cs[1..]), bytes);
        if KnownType(cs[0]) {
          ListBack(cs[1..], before + one, bytes);
        }
      }
    }
  }

  lemma NothingCreated(bytes: seq<byte>)
    ensures CreatedAt(bytes, |bytes|) == NoCondition
  {
  }

  /** The conditions that last beyond a logout: without an end (-1) they do not, nor do those of something worn. */
  function Kept(cs: seq<Condition>): seq<Condition> {
    if cs == [] then []
    else (if cs[0].ticks != -1 && cs[0].id in {-1, 0} then [cs[0]] else []) + Kept(cs[1..])
  }

  predicate AllKnown(cs: seq<Condition>) {
    cs == [] || (KnownType(cs[0]) && AllKnown(cs[1..]))
  }

  /** Each loaded condition stands where the saved one stood. */
  predicate RestoredInOrder(back: seq<Condition>, kept: seq<Condition>) {
    |back| <= |kept| && forall i | 0 <= i < |back| :: back[i] == Restored(kept[i])
  }

  lemma OneMoreRestored(back: seq<Condition>, kept: seq<Condition>, c: Condition)
    requires RestoredInOrder(back, kept)
    ensures RestoredInOrder([Restored(c)] + back, [c] + kept)
  {
  }

  lemma {:induction false} LoadedBackAll(cs: seq<Condition>)
    ensures RestoredInOrder(LoadedBack(cs), Kept(cs))
    ensures |LoadedBack(cs)| == |Kept(cs)| <==> AllKnown(Kept(cs))
    decreases |cs|
  {
    hide KnownType, Restored;
    if cs != [] {
      var rest := cs[1..];
      LoadedBackAll(rest);
      if Persistent(cs[0]) {
        assert Kept(cs) == [cs[0]] + Kept(rest) && Kept(cs)[1..] == Kept(rest);
        if KnownType(cs[0]) {
          OneMoreRestored(LoadedBack(rest), Kept(rest), cs[0]);
        }
      } else {
        assert Kept(cs) == Kept(rest) && LoadedBack(cs) == LoadedBack(rest);
      }
    }
  }

  /** The persistent conditions come back in order, all of them exactly if createCondition knows all their types. */
  lemma ConditionsRoundTrip(cs: seq<Condition>)
    requires AllShaped(cs) && AllStorable(cs)
    ensures RestoredInOrder(Loaded(Blob(cs), 0), Kept(cs))
    ensures |Loaded(Blob(cs), 0)| == |Kept(cs)| <==> AllKnown(Kept(cs))
  {
    assert [] + Blob(cs) == Blob(cs);
    ListBack(cs, [], Blob(cs));
    LoadedBackAll(cs);
  }

  function SumOf(rounds: seq<Interval>): int {
    if rounds == [] then 0 else rounds[0].interval + SumOf(rounds[1..])
  }

  /** The running total reaches -1, where it stays, with a rest that is not nothing. */
  ghost predicate SticksAt(ticks: int, rounds: seq<Interval>, k: nat)
    requires k <= |rounds|
  {
    ticks + SumOf(rounds[..k]) == -1 && SumOf(rounds[k..]) != 0
  }

  ghost predicate Sticks(ticks: int, rounds: seq<Interval>) {
    exists k: nat | k <= |rounds| :: SticksAt(ticks, rounds, k)
  }

  lemma {:induction false} StaysStuck(rounds: seq<Interval>)
    ensures TicksAfter(-1, rounds) == -1
    decreases |rounds|
  {
    if rounds != [] { StaysStuck(rounds[1..]); }
  }

  lemma {:induction false} SumSplits(rounds: seq<Interval>, k: nat)
    requires k <= |rounds|
    ensures SumOf(rounds[..k]) + SumOf(rounds[k..]) == SumOf(rounds)
    decreases k
  {
    if k == 0 {
      assert rounds[0..] == rounds;
    } else {
      assert rounds[..k][1..] == rounds[1..][..k - 1] && rounds[1..][k - 1..] == rounds[k..];
      SumSplits(rounds[1..], k - 1);
    }
  }

  lemma SticksLater(ticks: int, rounds: seq<Interval>, k: nat)
    requires 0 < k <= |rounds|
    ensures SticksAt(ticks, rounds, k) <==> SticksAt(ticks + rounds[0].interval, rounds[1..], k - 1)
  {
    assert rounds[..k][1..] == rounds[1..][..k - 1] && rounds[1..][k - 1..] == rounds[k..];
  }

  lemma SticksNext(ticks: int, rounds: seq<Interval>)
    requires ticks != -1 && rounds != []
    ensures Sticks(ticks, rounds) <==> Sticks(ticks + rounds[0].interval, rounds[1..])
  {
    hide SumOf;
    assert !SticksAt(ticks, rounds, 0) by { NoSum(rounds); }
    if Sticks(ticks, rounds) {
      var k: nat :| k <= |rounds| && SticksAt(ticks, rounds, k);
      SticksLater(ticks, rounds, k);
    }
    if Sticks(ticks + rounds[0].interval, rounds[1..]) {
      var k: nat :| k <= |rounds[1..]| && SticksAt(ticks + rounds[0].interval, rounds[1..], k);
      SticksLater(ticks, rounds, k + 1);
    }
  }

  lemma NoSum(rounds: seq<Interval>)
    ensures SumOf(rounds[..0]) == 0
  {
  }

  /** The ticks of a damage condition come back as the sum of its intervals exactly if they do not stick at -1 on the
      way. */
  lemma {:induction false} TicksAreSum(ticks: int, rounds: seq<Interval>)
    ensures TicksAfter(ticks, rounds) == ticks + SumOf(rounds) <==> !Sticks(ticks, rounds)
    decreases |rounds|
  {
    if ticks == -1 {
      StaysStuck(rounds);
      NoSum(rounds);
      assert rounds[0..] == rounds && SticksAt(-1, rounds, 0) == (SumOf(rounds) != 0);
      if Sticks(-1, rounds) {
        var k: nat :| k <= |rounds| && SticksAt(-1, rounds, k);
        SumSplits(rounds, k);
      }
    } else if rounds != [] {
      SticksNext(ticks, rounds);
      TicksAreSum(ticks + rounds[0].interval, rounds[1..]);
    }
  }

  /** So they do when no interval is negative. */
  lemma TicksOfPositive(ticks: int, rounds: seq<Interval>)
    requires ticks >= 0 && forall i | 0 <= i < |rounds| :: rounds[i].interval >= 0
    ensures TicksAfter(ticks, rounds) == ticks + SumOf(rounds)
  {
    TicksAreSum(ticks, rounds);
    if Sticks(ticks, rounds) {
      var k: nat :| k <= |rounds| && SticksAt(ticks, rounds, k);
      NotNegative(rounds[..k]);
    }
  }

  lemma {:induction false} NotNegative(rounds: seq<Interval>)
    requires forall i | 0 <= i < |rounds| :: rounds[i].interval >= 0
    ensures SumOf(rounds) >= 0
  {
    if rounds != [] { NotNegative(rounds[1..]); }
  }
}
