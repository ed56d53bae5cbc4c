/** Conditions as tagged bytes: what is written for a condition, what is read from any bytes, and how they fit. */
module ConditionBlob {
  import opened Bytes
  import opened PropBytes
  import opened DamageList

  const CONDITIONATTR_TYPE: byte := 1
  const CONDITIONATTR_ID: byte := 2
  const CONDITIONATTR_TICKS: byte := 3
  const CONDITIONATTR_HEALTHTICKS: byte := 4
  const CONDITIONATTR_HEALTHGAIN: byte := 5
  const CONDITIONATTR_MANATICKS: byte := 6
  const CONDITIONATTR_MANAGAIN: byte := 7
  const CONDITIONATTR_DELAYED: byte := 8
  const CONDITIONATTR_OWNER: byte := 9
  const CONDITIONATTR_INTERVALDATA: byte := 10
  const CONDITIONATTR_SPEEDDELTA: byte := 11
  const CONDITIONATTR_FORMULA_MINA: byte := 12
  const CONDITIONATTR_FORMULA_MINB: byte := 13
  const CONDITIONATTR_FORMULA_MAXA: byte := 14
  const CONDITIONATTR_FORMULA_MAXB: byte := 15
  const CONDITIONATTR_LIGHTCOLOR: byte := 16
  const CONDITIONATTR_LIGHTLEVEL: byte := 17
  const CONDITIONATTR_LIGHTTICKS: byte := 18
  const CONDITIONATTR_LIGHTINTERVAL: byte := 19
  const CONDITIONATTR_SOULTICKS: byte := 20
  const CONDITIONATTR_SOULGAIN: byte := 21
  const CONDITIONATTR_SKILLS: byte := 22
  const CONDITIONATTR_STATS: byte := 23
  const CONDITIONATTR_OUTFIT: byte := 24
  const CONDITIONATTR_END: byte := 254

  const SKILLS := 7
  const STATS := 4
  /** sizeof(Outfit_t): two 16-bit fields, five bytes, one of padding. */
  const OUTFIT_SIZE := 10

  predicate Small(x: Interval) {
    && -0x8000_0000 <= x.timeLeft < 0x8000_0000 && -0x8000_0000 <= x.value < 0x8000_0000
    && -0x8000_0000 <= x.interval < 0x8000_0000
  }

  type Round = x: Interval | Small(x) witness Interval(0, 0, 0)
  type Look = o: seq<byte> | |o| == OUTFIT_SIZE witness seq(OUTFIT_SIZE, _ => 0)

  /** The fields of each class of condition beyond those of Condition; a float is its four bytes. */
  datatype Body =
    | Generic
    | Attributes(skills: seq<int32>, stats: seq<int32>, currentSkill: nat, currentStat: nat)
    | Regeneration(healthTicks: word, healthGain: word, manaTicks: word, manaGain: word)
    | Soul(soulTicks: word, soulGain: word)
    | Damage(delayed: bool, owner: word, rounds: seq<Round>)
    | Speed(speedDelta: int32, mina: word, minb: word, maxa: word, maxb: word)
    | Outfit(outfits: seq<Look>)
    | Light(level: word, color: word, internalTicks: word, changeInterval: word)

  datatype Condition = Condition(id: int32, typ: int32, ticks: int, body: Body)

  datatype Option<T> = None | Some(value: T)

  /** The object createCondition makes for a type: its class and the values of its constructor. */
  function NewBody(typ: int32): Option<Body> {
    if typ == 1 || typ == 2 || typ == 4 || typ == 32768 then Some(Damage(false, 0, []))
    else if typ == 16 || typ == 32 then Some(Speed(0, 0, 0, 0, 0))
    else if typ == 64 then Some(Outfit([]))
    else if typ == 256 then Some(Light(0, 0, 0, 0))
    else if typ == 8192 then Some(Regeneration(1000, 0, 1000, 0))
    else if typ == 16384 then Some(Soul(0, 0))
    else if typ == 524288 then Some(Attributes([0, 0, 0, 0, 0, 0, 0], [0, 0, 0, 0], 0, 0))
    else if typ == 128 || typ == 512 || typ == 1024 || typ == 2048 || typ == 4096 || typ == 65536 || typ == 131072
            || typ == 262144 then Some(Generic)
    else None
  }

  function NewCondition(id: int32, typ: int32, ticks: int32): Option<Condition> {
    match NewBody(typ)
    case None => None
    case Some(body) => Some(Condition(id, typ, if body.Damage? then 0 else ticks, body))
  }

  // ---------------------------------------------------------------- writing

  /** One tagged value. */
  datatype Attr = WordAttr(code: byte, w: word) | DelayedAttr(b: bool) | RoundAttr(x: Round) | LookAttr(o: Look)

  function Code(a: Attr): byte {
    match a
    case WordAttr(code, _) => code
    case DelayedAttr(_) => CONDITIONATTR_DELAYED
    case RoundAttr(_) => CONDITIONATTR_INTERVALDATA
    case LookAttr(_) => CONDITIONATTR_OUTFIT
  }

  function Image(a: Attr): seq<byte> {
    match a
    case WordAttr(_, w) => Le32(w)
    case DelayedAttr(b) => [if b then 1 else 0]
    case RoundAttr(x) => Le32(ToWord(x.timeLeft)) + Le32(ToWord(x.value)) + Le32(ToWord(x.interval))
    case LookAttr(o) => o
  }

  function Tagged(a: Attr): seq<byte> {
    [Code(a)] + Image(a)
  }

  function AllTagged(attrs: seq<Attr>): seq<byte> {
    if attrs == [] then [] else Tagged(attrs[0]) + AllTagged(attrs[1..])
  }

  function Words(code: byte, vs: seq<int32>): seq<Attr> {
    seq(|vs|, i requires 0 <= i < |vs| => WordAttr(code, ToWord(vs[i])))
  }

  function BodyAttrs(body: Body): seq<Attr> {
    match body
    case Generic => []
    case Attributes(skills, stats, _, _) => Words(CONDITIONATTR_SKILLS, skills) + Words(CONDITIONATTR_STATS, stats)
    case Regeneration(healthTicks, healthGain, manaTicks, manaGain) =>
      [WordAttr(CONDITIONATTR_HEALTHTICKS, healthTicks), WordAttr(CONDITIONATTR_HEALTHGAIN, healthGain),
       WordAttr(CONDITIONATTR_MANATICKS, manaTicks), WordAttr(CONDITIONATTR_MANAGAIN, manaGain)]
    case Soul(soulTicks, soulGain) =>
      [WordAttr(CONDITIONATTR_SOULGAIN, soulGain), WordAttr(CONDITIONATTR_SOULTICKS, soulTicks)]
    case Damage(delayed, owner, rounds) =>
      [DelayedAttr(delayed), WordAttr(CONDITIONATTR_OWNER, owner)]
      + seq(|rounds|, i requires 0 <= i < |rounds| => RoundAttr(rounds[i]))
    case Speed(speedDelta, mina, minb, maxa, maxb) =>
      [WordAttr(CONDITIONATTR_SPEEDDELTA, ToWord(speedDelta)), WordAttr(CONDITIONATTR_FORMULA_MINA, mina),
       WordAttr(CONDITIONATTR_FORMULA_MINB, minb), WordAttr(CONDITIONATTR_FORMULA_MAXA, maxa),
       WordAttr(CONDITIONATTR_FORMULA_MAXB, maxb)]
    case Outfit(outfits) => seq(|outfits|, i requires 0 <= i < |outfits| => LookAttr(outfits[i]))
    case Light(level, color, internalTicks, changeInterval) =>
      [WordAttr(CONDITIONATTR_LIGHTCOLOR, color), WordAttr(CONDITIONATTR_LIGHTLEVEL, level),
       WordAttr(CONDITIONATTR_LIGHTTICKS, internalTicks), WordAttr(CONDITIONATTR_LIGHTINTERVAL, changeInterval)]
  }

  predicate Sized(c: Condition) {
    c.body.Attributes? ==> |c.body.skills| == SKILLS && |c.body.stats| == STATS
  }

  predicate Storable(c: Condition) {
    -0x8000_0000 <= c.ticks < 0x8000_0000 && Sized(c)
  }

  function Head(c: Condition): seq<byte>
    requires Storable(c)
  {
    [CONDITIONATTR_TYPE] + Le32(ToWord(c.typ)) + [CONDITIONATTR_ID] + Le32(ToWord(c.id))
    + [CONDITIONATTR_TICKS] + Le32(ToWord(c.ticks))
  }

  /** serialize */
  function Serialized(c: Condition): seq<byte>
    requires Storable(c)
  {
    Head(c) + AllTagged(BodyAttrs(c.body))
  }

  predicate Persistent(c: Condition) {
    c.ticks != -1 && (c.id == -1 || c.id == 0)
  }

  predicate AllStorable(cs: seq<Condition>) {
    forall i | 0 <= i < |cs| :: Storable(cs[i])
  }

  /** The bytes savePlayer writes for a list of conditions. */
  function Blob(cs: seq<Condition>): seq<byte>
    requires AllStorable(cs)
  {
    if cs == [] then []
    else (if Persistent(cs[0]) then Serialized(cs[0]) + [CONDITIONATTR_END] else []) + Blob(cs[1..])
  }

  // ---------------------------------------------------------------- reading

  datatype PropRead = NoProp | PropRead(attr: Attr, at: nat)

  function ReadWord(code: byte, bytes: seq<byte>, p: nat): PropRead {
    if Has(bytes, p, 4) then PropRead(WordAttr(code, Un32(Part(bytes, p, 4))), p + 4) else NoProp
  }

  function RoundOf(image: seq<byte>): Round
    requires |image| == 12
  {
    Interval(ToInt(Un32(image[..4])), ToInt(Un32(image[4..8])), ToInt(Un32(image[8..])))
  }

  /** The codes of single values that a class reads. */
  predicate OwnWord(body: Body, code: byte) {
    match body
    case Generic => false
    case Attributes(_, _, skill, stat) =>
      (code == CONDITIONATTR_SKILLS && skill < SKILLS) || (code == CONDITIONATTR_STATS && stat < STATS)
    case Regeneration(_, _, _, _) => CONDITIONATTR_HEALTHTICKS <= code <= CONDITIONATTR_MANAGAIN
    case Soul(_, _) => code == CONDITIONATTR_SOULGAIN || code == CONDITIONATTR_SOULTICKS
    case Damage(_, _, _) => code == CONDITIONATTR_OWNER
    case Speed(_, _, _, _, _) => CONDITIONATTR_SPEEDDELTA <= code <= CONDITIONATTR_FORMULA_MAXB
    case Outfit(_) => false
    case Light(_, _, _, _) => CONDITIONATTR_LIGHTCOLOR <= code <= CONDITIONATTR_LIGHTINTERVAL
  }

  predicate BaseWord(code: byte) {
    code == CONDITIONATTR_TYPE || code == CONDITIONATTR_ID || code == CONDITIONATTR_TICKS
  }

  /** What unserializeProp takes from the stream for a code, if the class knows the code and the bytes are there. */
  function ReadProp(body: Body, code: byte, bytes: seq<byte>, p: nat): PropRead {
    if body.Damage? && code == CONDITIONATTR_DELAYED then
      if Has(bytes, p, 1) then PropRead(DelayedAttr(bytes[p] != 0), p + 1) else NoProp
    else if body.Damage? && code == CONDITIONATTR_INTERVALDATA then
      if Has(bytes, p, 12) then PropRead(RoundAttr(RoundOf(Part(bytes, p, 12))), p + 12) else NoProp
    else if body.Outfit? && code == CONDITIONATTR_OUTFIT then
      if Has(bytes, p, OUTFIT_SIZE) then PropRead(LookAttr(Part(bytes, p, OUTFIT_SIZE)), p + OUTFIT_SIZE) else NoProp
    else if OwnWord(body, code) || BaseWord(code) then ReadWord(code, bytes, p)
    else NoProp
  }

  predicate Takes(body: Body, a: Attr) {
    match a
    case WordAttr(code, _) => OwnWord(body, code) || BaseWord(code)
    case DelayedAttr(_) => body.Damage?
    case RoundAttr(_) => body.Damage?
    case LookAttr(_) => body.Outfit?
  }

  function BodyWith(body: Body, code: byte, w: word): Body
    requires OwnWord(body, code)
    requires body.Attributes? ==> |body.skills| == SKILLS && |body.stats| == STATS
  {
    match body
    case Attributes(skills, stats, skill, stat) =>
      if code == CONDITIONATTR_SKILLS then Attributes(skills[skill := ToInt(w)], stats, skill + 1, stat)
      else Attributes(skills, stats[stat := ToInt(w)], skill, stat + 1)
    case Regeneration(_, _, _, _) =>
      if code == CONDITIONATTR_HEALTHTICKS then body.(healthTicks := w)
      else if code == CONDITIONATTR_HEALTHGAIN then body.(healthGain := w)
      else if code == CONDITIONATTR_MANATICKS then body.(manaTicks := w)
      else body.(manaGain := w)
    case Soul(_, _) => if code == CONDITIONATTR_SOULGAIN then body.(soulGain := w) else body.(soulTicks := w)
    case Damage(_, _, _) => body.(owner := w)
    case Speed(_, _, _, _, _) =>
      if code == CONDITIONATTR_SPEEDDELTA then body.(speedDelta := ToInt(w))
      else if code == CONDITIONATTR_FORMULA_MINA then body.(mina := w)
      else if code == CONDITIONATTR_FORMULA_MINB then body.(minb := w)
      else if code == CONDITIONATTR_FORMULA_MAXA then body.(maxa := w)
      else body.(maxb := w)
    case Light(_, _, _, _) =>
      if code == CONDITIONATTR_LIGHTCOLOR then body.(color := w)
      else if code == CONDITIONATTR_LIGHTLEVEL then body.(level := w)
      else if code == CONDITIONATTR_LIGHTTICKS then body.(internalTicks := w)
      else body.(changeInterval := w)
  }

  /** The fields unserializeProp changes for a value. */
  function Applied(c: Condition, a: Attr): (d: Condition)
    requires Sized(c) && Takes(c.body, a)
    ensures Sized(d)
  {
    match a
    case WordAttr(code, w) =>
      if OwnWord(c.body, code) then c.(body := BodyWith(c.body, code, w))
      else if code == CONDITIONATTR_TYPE then c.(typ := ToInt(w))
      else if code == CONDITIONATTR_ID then c.(id := ToInt(w))
      else c.(ticks := ToInt(w))
    case DelayedAttr(b) => c.(body := c.body.(delayed := b))
    case RoundAttr(x) =>
      c.(body := c.body.(rounds := c.body.rounds + [x]), ticks := if c.ticks == -1 then -1 else c.ticks + x.interval)
    case LookAttr(o) => c.(body := c.body.(outfits := c.body.outfits + [o]))
  }

  datatype Props = Props(ok: bool, c: Condition, at: nat)

  /** unserialize: values up to CONDITIONATTR_END, or to the end of the stream. */
  function Unserialized(c: Condition, bytes: seq<byte>, p: nat): (r: Props)
    requires Sized(c)
    ensures r.at >= p && Sized(r.c)
    decreases |bytes| - p
  {
    if p >= |bytes| then Props(true, c, p)
    else if bytes[p] == CONDITIONATTR_END then Props(true, c, p + 1)
    else
      match ReadProp(c.body, bytes[p], bytes, p + 1)
      case NoProp => Props(false, c, p + 1)
      case PropRead(a, at) => Unserialized(Applied(c, a), bytes, at)
  }

  datatype Created = NoCondition | Created(c: Condition, at: nat)

  predicate HeadAt(bytes: seq<byte>, p: nat) {
    && Has(bytes, p, 15) && bytes[p] == CONDITIONATTR_TYPE && bytes[p + 5] == CONDITIONATTR_ID
    && bytes[p + 10] == CONDITIONATTR_TICKS
  }

  /** createCondition from a stream */
  function CreatedAt(bytes: seq<byte>, p: nat): (r: Created)
    ensures r.Created? ==> r.at == p + 15 <= |bytes| && Sized(r.c)
  {
    if !HeadAt(bytes, p) then NoCondition
    else
      var typ := ToInt(Un32(Part(bytes, p + 1, 4)));
      var id := ToInt(Un32(Part(bytes, p + 6, 4)));
      var ticks := ToInt(Un32(Part(bytes, p + 11, 4)));
      match NewCondition(id, typ, ticks)
      case None => NoCondition
      case Some(c) => Created(c, p + 15)
  }

  /** The loop of loadPlayer over the stored bytes. */
  function Loaded(bytes: seq<byte>, p: nat): seq<Condition>
    decreases |bytes| - p
  {
    match CreatedAt(bytes, p)
    case NoCondition => []
    case Created(c, at) =>
      var r := Unserialized(c, bytes, at);
      (if r.ok then [r.c] else []) + Loaded(bytes, r.at)
  }
}
