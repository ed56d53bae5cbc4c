/** What each trade operation does in a state in order, and a trade from the first question to its end. */
module TradeDeals {
  import opened ItemForest
  import opened TradeSteps

  /** Everyone but these two is as before. */
  ghost predicate OthersTrade(s: Trades, t: Trades, p: Player, q: Player?) {
    && t.party.Keys == s.party.Keys && t.crashed == s.crashed
    && forall r | r in s.party && r != p && r != q :: r in t.party && t.party[r] == s.party[r]
  }

  /** A request is refused exactly if the player trades with someone else or has offered or accepted already, or if the
      other one trades with someone else. Otherwise the offer stands, and the other one has been asked, unless it was he
      who asked. */
  lemma RequestAnswered(s: Trades, p: Player, q: Player, item: Item)
    requires Sound(s) && p in s.party && q in s.party && p != q && item !in s.offered
    ensures var t := Started(s, p, q, item);
      if (s.party[p].partner != null && s.party[p].partner != q)
         || s.party[p].state == TRADE_INITIATED || s.party[p].state == TRADE_ACCEPT
         || (s.party[q].partner != null && s.party[q].partner != p)
      then !MayStart(s, p, q) && t == s
      else
        && MayStart(s, p, q) && OthersTrade(s, t, p, q)
        && t.party[p] == Trader(q, TRADE_INITIATED, item) && t.offered == s.offered[item := p]
        && t.party[q] == if s.party[q].partner == null then Trader(p, TRADE_ACKNOWLEDGE, null) else s.party[q]
  {
    assert Paired(s, p) && Paired(s, q) && Offers(s, p) && Offers(s, q);
  }

  /** Two players who do not trade: one asks. */
  lemma FirstOffer(s: Trades, p: Player, q: Player, item: Item)
    requires Sound(s) && p in s.party && q in s.party && p != q && item !in s.offered
    requires s.party[p].state == TRADE_NONE && s.party[q].state == TRADE_NONE
    ensures var t := Started(s, p, q, item);
      && OthersTrade(s, t, p, q) && t.offered == s.offered[item := p]
      && t.party[p] == Trader(q, TRADE_INITIATED, item) && t.party[q] == Trader(p, TRADE_ACKNOWLEDGE, null)
  {
    assert Paired(s, p) && Paired(s, q);
    RequestAnswered(s, p, q, item);
  }

  /** Who has been asked may answer with an item of his own; then both have offered, and both items are registered. */
  lemma CounterOffer(s: Trades, p: Player, q: Player, item: Item)
    requires Sound(s) && p in s.party && q in s.party && p != q && item !in s.offered
    requires s.party[p].state == TRADE_INITIATED && s.party[p].partner == q && s.party[q].state == TRADE_ACKNOWLEDGE
    ensures s.party[p].item != null && s.party[p].item != item
    ensures var t := Started(s, q, p, item);
      && OthersTrade(s, t, p, q)
      && t.party[p] == s.party[p] && t.party[q] == Trader(p, TRADE_INITIATED, item)
      && t.offered == s.offered[item := q] && t.offered[s.party[p].item] == p && t.offered[item] == q
  {
    assert Paired(s, p) && Paired(s, q) && Offers(s, p) && Offers(s, q);
    RequestAnswered(s, q, p, item);
  }

  /** An idle player, and one who has accepted already, have nothing to accept. An acceptance before the other one's is
      noted, and changes nothing else. */
  lemma AcceptanceNoted(s: Trades, p: Player)
    requires Sound(s) && p in s.party
    ensures s.party[p].partner != null ==> s.party[p].partner in s.party
    ensures s.party[p].state == TRADE_NONE || s.party[p].state == TRADE_ACCEPT ==> Accepted(s, p) == s && !Settles(s, p)
    ensures (s.party[p].partner != null && s.party[p].state != TRADE_ACCEPT &&
             s.party[s.party[p].partner].state != TRADE_ACCEPT) ==>
      var t := Accepted(s, p);
      && t.party == s.party[p := s.party[p].(state := TRADE_ACCEPT)] && t.offered == s.offered && !t.crashed
      && !Settles(s, p)
  {
    assert Paired(s, p);
  }

  /** The second acceptance frees both and takes both items off the register, if there are two, and otherwise stops the
      server. */
  lemma AcceptanceEnds(s: Trades, p: Player)
    requires Sound(s) && p in s.party && s.party[p].partner != null && s.party[p].state != TRADE_ACCEPT
    ensures s.party[p].partner in s.party
    ensures var q, t := s.party[p].partner, Accepted(s, p);
      s.party[q].state == TRADE_ACCEPT ==>
        && Settles(s, p)
        && (t.crashed <==> s.party[p].item == null || s.party[q].item == null)
        && (s.party[p].item != null && s.party[q].item != null ==>
              && t.party == s.party[p := Trader(null, TRADE_NONE, null)][q := Trader(null, TRADE_NONE, null)]
              && t.offered == s.offered - {s.party[p].item, s.party[q].item})
  {
    hide Accepted, Offers;
    assert Paired(s, p);
    if s.party[s.party[p].partner].state == TRADE_ACCEPT { AcceptedMeans(s, p); }
  }

  lemma AcceptedMeans(s: Trades, p: Player)
    requires p in s.party && Settles(s, p) && !s.crashed
    ensures var q, t := s.party[p].partner, Accepted(s, p);
      && (t.crashed <==> s.party[p].item == null || s.party[q].item == null)
      && (!t.crashed ==>
            && t.party == s.party[p := IDLE][q := IDLE]
            && t.offered == s.offered - {s.party[p].item, s.party[q].item})
  {
  }

  /** Whoever closes a trade frees both, and takes both offers off the register. */
  lemma ClosingFrees(s: Trades, p: Player)
    requires Sound(s) && p in s.party
    ensures s.party[p].partner == null ==> Closed(s, p) == s
    ensures s.party[p].partner != null ==>
      var q := s.party[p].partner;
      && q in s.party
      && var t := Closed(s, p);
         && OthersTrade(s, t, p, q) && t.party[p] == IDLE && t.party[q] == IDLE
         && forall i :: i in t.offered <==> i in s.offered && s.offered[i] != p && s.offered[i] != q
  {
    assert Paired(s, p) && Offers(s, p);
    if s.party[p].partner != null {
      var q := s.party[p].partner;
      assert Paired(s, q) && Offers(s, q);
    } else {
      assert s.party[p] == IDLE;
    }
  }

  /** p has asked with x, and q has been told. */
  function Asked(p: Player, q: Player, x: Item): Trades {
    Trades(map[p := Trader(q, TRADE_INITIATED, x), q := Trader(p, TRADE_ACKNOWLEDGE, null)], map[x := p], false)
  }

  lemma AnsweredRun(p: Player, q: Player, x: Item, y: Item, end: Trades)
    requires p != q && x != y && end == Trades(map[p := IDLE, q := IDLE], map[], false)
    ensures Run(Asked(p, q, x), [Request(q, p, y, true), Accept(p), Accept(q)], end)
  {
    var d := Trades(map[p := Trader(q, TRADE_INITIATED, x), q := Trader(p, TRADE_INITIATED, y)], map[x := p, y := q],
                    false);
    var e := d.(party := map[p := Trader(q, TRADE_ACCEPT, x), q := Trader(p, TRADE_INITIATED, y)]);
    assert Run(end, [], end);
    assert Step(e, Accept(q)) == end;
    RunOn(e, Accept(q), [], end);
    assert Step(d, Accept(p)) == e;
    RunOn(d, Accept(p), [Accept(q)], end);
    assert Step(Asked(p, q, x), Request(q, p, y, true)) == d;
    RunOn(Asked(p, q, x), Request(q, p, y, true), [Accept(p), Accept(q)], end);
  }

  /** A trade that goes through: two players come, one asks, the other answers, both accept; both are free again and
      nothing is on offer. */
  lemma TradeGoesThrough(p: Player, q: Player, x: Item, y: Item)
    requires p != q && x != y
    ensures Run(NO_TRADES,
                [Join(p), Join(q), Request(p, q, x, true), Request(q, p, y, true), Accept(p), Accept(q)],
                Trades(map[p := Trader(null, TRADE_NONE, null), q := Trader(null, TRADE_NONE, null)], map[], false))
  {
    hide Accepted, Run;
    var end := Trades(map[p := IDLE, q := IDLE], map[], false);
    var a := NO_TRADES.(party := map[p := IDLE]);
    var b := NO_TRADES.(party := map[p := IDLE, q := IDLE]);
    var answered := [Request(q, p, y, true), Accept(p), Accept(q)];
    AnsweredRun(p, q, x, y, end);
    assert Step(b, Request(p, q, x, true)) == Asked(p, q, x);
    RunOn(b, Request(p, q, x, true), answered, end);
    RunOn(a, Join(q), [Request(p, q, x, true)] + answered, end);
    RunOn(NO_TRADES, Join(p), [Join(q)] + ([Request(p, q, x, true)] + answered), end);
    assert [Join(p)] + ([Join(q)] + ([Request(p, q, x, true)] + answered)) ==
           [Join(p), Join(q), Request(p, q, x, true), Request(q, p, y, true), Accept(p), Accept(q)];
  }
}
