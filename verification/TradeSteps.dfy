/** The two-party trade: what requests, acceptances and closings do to the players and to the register of offers. */
module TradeSteps {
  import opened ItemForest

  datatype TradeState = TRADE_NONE | TRADE_INITIATED | TRADE_ACCEPT | TRADE_ACKNOWLEDGE | TRADE_TRANSFER

  class Player {
    var tradePartner: Player?
    var tradeState: TradeState
    var tradeItem: Item?

    constructor ()
      ensures tradePartner == null && tradeState == TRADE_NONE && tradeItem == null
    {
      tradePartner, tradeState, tradeItem := null, TRADE_NONE, null;
    }
  }

  /** The trade fields of a player. */
  datatype Trader = Trader(partner: Player?, state: TradeState, item: Item?)

  const IDLE := Trader(null, TRADE_NONE, null)

  /** The players, the register of the items they offer, and whether a missing item has stopped the server. */
  datatype Trades = Trades(party: map<Player, Trader>, offered: map<Item, Player>, crashed: bool)

  const NO_TRADES := Trades(map[], map[], false)

  /** Game::internalStartTrade */
  predicate MayStart(s: Trades, p: Player, q: Player)
    requires p in s.party && q in s.party
  {
    && (s.party[p].state.TRADE_NONE? || (s.party[p].state.TRADE_ACKNOWLEDGE? && s.party[p].partner == q))
    && (s.party[q].state.TRADE_NONE? || s.party[q].partner == p)
  }

  function Started(s: Trades, p: Player, q: Player, item: Item): Trades
    requires p in s.party && q in s.party
  {
    if !MayStart(s, p, q) then s
    else
      var party := s.party[p := Trader(q, TRADE_INITIATED, item)];
      Trades(if party[q].state.TRADE_NONE? then party[q := Trader(p, TRADE_ACKNOWLEDGE, party[q].item)] else party,
             s.offered[item := p], s.crashed)
  }

  /** Both have accepted now. */
  predicate Settles(s: Trades, p: Player)
    requires p in s.party
  {
    && (s.party[p].state.TRADE_ACKNOWLEDGE? || s.party[p].state.TRADE_INITIATED?)
    && s.party[p].partner != null && s.party[p].partner in s.party && s.party[s.party[p].partner].state.TRADE_ACCEPT?
  }

  /** The exchange has an item from each side. */
  predicate BothOffer(s: Trades, p: Player)
    requires p in s.party && Settles(s, p)
  {
    s.party[p].item != null && s.party[s.party[p].partner].item != null
  }

  function WithoutOffer(offered: map<Item, Player>, item: Item?): map<Item, Player> {
    if item == null then offered else offered - {item}
  }

  /** The two with their states set, and their offers struck off. */
  function Transferring(s: Trades, p: Player, q: Player): Trades
    requires p in s.party && q in s.party
  {
    var party := s.party[p := s.party[p].(state := TRADE_TRANSFER)][q := s.party[q].(state := TRADE_TRANSFER)];
    Trades(party, WithoutOffer(WithoutOffer(s.offered, s.party[p].item), s.party[q].item), s.crashed)
  }

  /**
   * Game::playerAcceptTrade. Whether two items could be exchanged makes no difference to the trade, but without an
   * item from each side the exchange fails and both are told through their items: the missing one is dereferenced.
   */
  function Accepted(s: Trades, p: Player): Trades
    requires p in s.party
  {
    if !(s.party[p].state.TRADE_ACKNOWLEDGE? || s.party[p].state.TRADE_INITIATED?) then s
    else if !Settles(s, p) then s.(party := s.party[p := s.party[p].(state := TRADE_ACCEPT)])
    else
      var q := s.party[p].partner;
      var t := Transferring(s, p, q);
      if BothOffer(s, p) then t.(party := t.party[p := IDLE][q := IDLE]) else t.(crashed := true)
  }

  /** Game::internalCloseTrade */
  function Closed(s: Trades, p: Player): Trades
    requires p in s.party && (s.party[p].partner != null ==> s.party[p].partner in s.party)
  {
    var q := s.party[p].partner;
    if s.party[p].state.TRADE_TRANSFER? || (q != null && s.party[q].state.TRADE_TRANSFER?) then s
    else
      var t := Trades(s.party[p := IDLE], WithoutOffer(s.offered, s.party[p].item), s.crashed);
      if q == null then t else Trades(t.party[q := IDLE], WithoutOffer(t.offered, s.party[q].item), s.crashed)
  }

  // ---------------------------------------------------------------- the invariant

  ghost predicate Paired(s: Trades, p: Player)
    requires p in s.party
  {
    var x := s.party[p];
    && x.partner != p && !x.state.TRADE_TRANSFER?
    && (x.state.TRADE_NONE? <==> x.partner == null)
    && (x.partner != null ==> x.partner in s.party && s.party[x.partner].partner == p)
    && (x.state.TRADE_ACCEPT? && x.partner != null && x.partner in s.party ==>
          var y := s.party[x.partner];
          !y.state.TRADE_ACCEPT? && (x.item == null ==> y.state.TRADE_INITIATED?))
  }

  ghost predicate Offers(s: Trades, p: Player)
    requires p in s.party
  {
    var x := s.party[p];
    && (x.item != null ==> x.item in s.offered && s.offered[x.item] == p)
    && (x.state.TRADE_INITIATED? ==> x.item != null)
    && (x.state.TRADE_NONE? || x.state.TRADE_ACKNOWLEDGE? ==> x.item == null)
    && (x.state.TRADE_ACKNOWLEDGE? && x.partner != null && x.partner in s.party ==> s.party[x.partner].item != null)
  }

  ghost predicate Sound(s: Trades) {
    && !s.crashed
    && (forall p | p in s.party :: Paired(s, p) && Offers(s, p))
    && (forall i | i in s.offered :: s.offered[i] in s.party && s.party[s.offered[i]].item == i)
  }

  /** The server has stopped in the middle of an exchange between p and q; all the others are as they should be. */
  ghost predicate StoppedAt(s: Trades, p: Player, q: Player) {
    && s.crashed && p in s.party && q in s.party && p != q
    && s.party[p].partner == q && s.party[p].state.TRADE_TRANSFER?
    && s.party[q].partner == p && s.party[q].state.TRADE_TRANSFER?
    && (s.party[p].item == null || s.party[q].item == null)
    && Sound(Trades(s.party - {p, q}, s.offered, false))
  }

  ghost predicate Stopped(s: Trades) {
    exists p, q | p in s.party && q in s.party :: StoppedAt(s, p, q)
  }

  lemma StartedSound(s: Trades, p: Player, q: Player, item: Item)
    requires Sound(s) && p in s.party && q in s.party && p != q && item !in s.offered
    ensures Sound(Started(s, p, q, item))
  {
    var t := Started(s, p, q, item);
    assert Paired(s, p) && Paired(s, q) && Offers(s, p) && Offers(s, q);
    forall r | r in t.party ensures Paired(t, r) && Offers(t, r) {
      assert Paired(s, r) && Offers(s, r);
    }
  }

  lemma WaitingSound(s: Trades, p: Player)
    requires Sound(s) && p in s.party && !Settles(s, p)
    ensures Sound(Accepted(s, p))
  {
    var t := Accepted(s, p);
    assert Paired(s, p) && Offers(s, p);
    if s.party[p].partner != null { assert Paired(s, s.party[p].partner) && Offers(s, s.party[p].partner); }
    forall r | r in t.party ensures Paired(t, r) && Offers(t, r) {
      assert Paired(s, r) && Offers(s, r);
    }
  }

  /** Without two partners and their offers the rest is as it should be. */
  lemma WithoutPair(s: Trades, p: Player, q: Player)
    requires Sound(s) && p in s.party && q in s.party && s.party[p].partner == q
    ensures Sound(Trades(s.party - {p, q}, Transferring(s, p, q).offered, false))
  {
    var t := Trades(s.party - {p, q}, Transferring(s, p, q).offered, false);
    assert Paired(s, p) && Offers(s, p) && Paired(s, q) && Offers(s, q);
    forall r | r in t.party ensures Paired(t, r) && Offers(t, r) {
      assert Paired(s, r) && Offers(s, r);
    }
  }

  /** Players who do not trade may be added. */
  lemma JoinSound(s: Trades, p: Player)
    requires Sound(s) && p !in s.party
    ensures Sound(s.(party := s.party[p := IDLE]))
  {
    var t := s.(party := s.party[p := IDLE]);
    forall r | r in t.party ensures Paired(t, r) && Offers(t, r) {
      if r in s.party { assert Paired(s, r) && Offers(s, r); }
    }
  }

  /** The two are free again, or the server has stopped between them: exactly when one has offered nothing. */
  lemma SettledSound(s: Trades, p: Player)
    requires Sound(s) && p in s.party && Settles(s, p)
    ensures if BothOffer(s, p) then Sound(Accepted(s, p)) else StoppedAt(Accepted(s, p), p, s.party[p].partner)
  {
    var q, t := s.party[p].partner, Accepted(s, p);
    assert Paired(s, p);
    WithoutPair(s, p, q);
    var rest := Trades(s.party - {p, q}, Transferring(s, p, q).offered, false);
    if BothOffer(s, p) {
      JoinSound(rest, p);
      JoinSound(rest.(party := rest.party[p := IDLE]), q);
      assert t.party == rest.party[p := IDLE][q := IDLE];
    } else {
      assert t.party - {p, q} == rest.party;
    }
  }

  lemma ClosedSound(s: Trades, p: Player)
    requires Sound(s) && p in s.party
    ensures s.party[p].partner != null ==> s.party[p].partner in s.party
    ensures Sound(Closed(s, p))
  {
    assert Paired(s, p) && Offers(s, p);
    var t := Closed(s, p);
    forall r | r in t.party ensures Paired(t, r) && Offers(t, r) {
      assert Paired(s, r) && Offers(s, r);
    }
  }

  // ---------------------------------------------------------------- whole runs

  /** `may`: the item is within reach, may be traded, and does not overlap with one that is offered. */
  datatype Event =
    | Join(p: Player)
    | Request(p: Player, q: Player, item: Item, may: bool)
    | Accept(p: Player)
    | Close(p: Player)

  /** Anything may happen as long as the server runs. */
  predicate Enabled(s: Trades, e: Event) {
    && !s.crashed
    && match e
       case Join(p) => p !in s.party
       case Request(p, q, item, may) => p in s.party && q in s.party && (may ==> p != q && item !in s.offered)
       case Accept(p) => p in s.party
       case Close(p) => p in s.party && (s.party[p].partner != null ==> s.party[p].partner in s.party)
  }

  function Step(s: Trades, e: Event): Trades
    requires Enabled(s, e)
  {
    match e
    case Join(p) => s.(party := s.party[p := IDLE])
    case Request(p, q, item, may) => if may then Started(s, p, q, item) else s
    case Accept(p) => Accepted(s, p)
    case Close(p) => Closed(s, p)
  }

  predicate Run(s: Trades, events: seq<Event>, t: Trades)
    decreases |events|
  {
    if events == [] then s == t
    else Enabled(s, events[0]) && Run(Step(s, events[0]), events[1..], t)
  }

  lemma StepSound(s: Trades, e: Event)
    requires Sound(s) && Enabled(s, e)
    ensures if e.Accept? && Settles(s, e.p) && !BothOffer(s, e.p) then Stopped(Step(s, e)) else Sound(Step(s, e))
  {
    hide Sound, Started, Accepted, Closed, Settles, StoppedAt;
    match e
    case Join(p) => JoinSound(s, p);
    case Request(p, q, item, may) => if may { StartedSound(s, p, q, item); }
    case Accept(p) => if Settles(s, p) { SettledSound(s, p); } else { WaitingSound(s, p); }
    case Close(p) => ClosedSound(s, p);
  }

  lemma {:induction false} RunSound(s: Trades, events: seq<Event>, t: Trades)
    requires Sound(s) && Run(s, events, t)
    ensures if t.crashed then Stopped(t) else Sound(t)
    decreases |events|
  {
    if events != [] {
      StepSound(s, events[0]);
      if !Step(s, events[0]).crashed { RunSound(Step(s, events[0]), events[1..], t); }
    }
  }

  /** Partners are each other's partners, and the register holds the offered items of the players and nothing else. */
  ghost predicate InOrder(party: map<Player, Trader>, offered: map<Item, Player>) {
    && (forall p | p in party :: party[p].state != TRADE_TRANSFER)
    && (forall p | p in party :: party[p].state == TRADE_NONE <==> party[p].partner == null)
    && (forall p | p in party && party[p].partner != null ::
          party[p].partner != p && party[p].partner in party && party[party[p].partner].partner == p)
    && (forall i | i in offered :: offered[i] in party && party[offered[i]].item == i)
    && (forall p | p in party && party[p].item != null :: party[p].item in offered && offered[party[p].item] == p)
  }

  ghost predicate StoppedBetween(t: Trades, p: Player, q: Player)
    requires p in t.party && q in t.party
  {
    && t.party[p].state == TRADE_TRANSFER && t.party[p].partner == q
    && t.party[q].state == TRADE_TRANSFER && t.party[q].partner == p
    && (t.party[p].item == null || t.party[q].item == null) && InOrder(t.party - {p, q}, t.offered)
  }

  lemma StoppedMeans(t: Trades, p: Player, q: Player)
    requires StoppedAt(t, p, q)
    ensures StoppedBetween(t, p, q)
  {
    SoundMeans(Trades(t.party - {p, q}, t.offered, false));
  }

  /**
   * However many players trade: while the server runs, partners are each other's partners and never oneself, a player
   * without a partner is exactly one in state NONE, no one is left in TRANSFER, and the register holds the offered
   * items of the players and nothing else. It stops only in the middle of an exchange in which a side has offered
   * nothing, with those two in TRANSFER, and all the others in order.
   */
  lemma ReachableIsSound(events: seq<Event>, t: Trades)
    requires Run(NO_TRADES, events, t)
    ensures !t.crashed ==> InOrder(t.party, t.offered)
    ensures t.crashed ==> exists p, q | p in t.party && q in t.party :: StoppedBetween(t, p, q)
  {
    hide Run, InOrder;
    assert Sound(NO_TRADES);
    RunSound(NO_TRADES, events, t);
    if t.crashed {
      var p, q :| StoppedAt(t, p, q);
      StoppedMeans(t, p, q);
    } else {
      SoundMeans(t);
    }
  }

  lemma SoundMeans(t: Trades)
    requires Sound(t)
    ensures InOrder(t.party, t.offered)
  {
    forall p | p in t.party
      ensures t.party[p].state != TRADE_TRANSFER && (t.party[p].state == TRADE_NONE <==> t.party[p].partner == null)
      ensures t.party[p].partner != null ==>
        t.party[p].partner != p && t.party[p].partner in t.party && t.party[t.party[p].partner].partner == p
    {
      assert Paired(t, p);
    }
    forall p | p in t.party && t.party[p].item != null
      ensures t.party[p].item in t.offered && t.offered[t.party[p].item] == p
    {
      assert Offers(t, p);
    }
  }

  /** When both have accepted there is something from each side exactly if no one accepted empty-handed. */
  lemma BothHaveOffered(s: Trades, p: Player)
    requires Sound(s) && p in s.party && Settles(s, p)
    ensures BothOffer(s, p) <==> s.party[p].state == TRADE_INITIATED && s.party[s.party[p].partner].item != null
  {
    assert Paired(s, p) && Offers(s, p);
  }

  /** The last acceptance frees both players exactly if it comes from one who asked, to one who offers an item. */
  lemma SettlingFrees(s: Trades, p: Player)
    requires Sound(s) && p in s.party && Settles(s, p)
    ensures var t, q := Accepted(s, p), s.party[p].partner;
      && (t.party[p] == t.party[q] == IDLE <==> s.party[p].state == TRADE_INITIATED && s.party[q].item != null)
      && (t.crashed <==> !(s.party[p].state == TRADE_INITIATED && s.party[q].item != null))
  {
    BothHaveOffered(s, p);
    assert Paired(s, p);
  }

  /**
   * Who has accepted empty-handed waits until one of the two closes, which frees him, or until the partner accepts,
   * which stops the server.
   */
  lemma EmptyHandedWaits(s: Trades, p: Player, e: Event)
    requires Sound(s) && p in s.party && s.party[p].state == TRADE_ACCEPT && s.party[p].item == null && Enabled(s, e)
    ensures var q, t := s.party[p].partner, Step(s, e);
      && p in t.party
      && (e == Accept(q) ==> t.crashed && t.party[p].state == TRADE_TRANSFER)
      && (e == Close(p) || e == Close(q) ==> t.party[p] == IDLE)
      && (e != Accept(q) && e != Close(p) && e != Close(q) ==> t.party[p] == s.party[p])
  {
    assert Paired(s, p) && Offers(s, p);
    var q := s.party[p].partner;
    assert Paired(s, q) && Offers(s, q);
    if !e.Join? && e.p in s.party { assert Paired(s, e.p) && Offers(s, e.p); }
  }

  /** Two players reach that point: p asks q, who accepts without an offer of his own. */
  lemma EmptyHandedStops(p: Player, q: Player, item: Item)
    requires p != q
    ensures var s := Trades(map[p := Trader(q, TRADE_INITIATED, item), q := Trader(p, TRADE_ACCEPT, null)],
                            map[item := p], false);
      && Run(NO_TRADES, [Join(p), Join(q), Request(p, q, item, true), Accept(q)], s)
      && Enabled(s, Accept(p)) && Settles(s, p) && !BothOffer(s, p) && Step(s, Accept(p)).crashed
  {
    var a := NO_TRADES.(party := map[p := IDLE]);
    var b := NO_TRADES.(party := map[p := IDLE, q := IDLE]);
    var c := Trades(map[p := Trader(q, TRADE_INITIATED, item), q := Trader(p, TRADE_ACKNOWLEDGE, null)],
                    map[item := p], false);
    var s := Trades(map[p := Trader(q, TRADE_INITIATED, item), q := Trader(p, TRADE_ACCEPT, null)],
                    map[item := p], false);
    assert Run(s, [], s);
    RunOn(c, Accept(q), [], s);
    RunOn(b, Request(p, q, item, true), [Accept(q)], s);
    RunOn(a, Join(q), [Request(p, q, item, true), Accept(q)], s);
    RunOn(NO_TRADES, Join(p), [Join(q), Request(p, q, item, true), Accept(q)], s);
  }

  lemma RunOn(s: Trades, e: Event, rest: seq<Event>, t: Trades)
    requires Enabled(s, e) && Run(Step(s, e), rest, t)
    ensures Run(s, [e] + rest, t)
  {
    assert ([e] + rest)[1..] == rest;
  }
}
