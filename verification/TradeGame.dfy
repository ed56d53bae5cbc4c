/** Game's trade operations on the player objects. */
module TradeGame {
  import opened ItemForest
  import opened Worklist
  import opened ContainerOps
  import opened TradeSteps

  /** The trade fields of the players in P as they stand. */
  ghost function Parties(P: set<Player>): map<Player, Trader>
    reads P
  {
    map p | p in P :: Trader(p.tradePartner, p.tradeState, p.tradeItem)
  }

  /** No item that is offered already is the same, inside it, or around it, and it counts no more than 100 items. */
  ghost predicate MayOffer(w: World, offered: map<Item, Player>, item: Item) {
    && (forall t | t in offered :: t != item && !Under(w, item, t) && !Under(w, t, item))
    && (!item.typ.kind.Plain? ==> |Below(w, item)| + 1 <= 100)
  }

  class Game {
    var tradeItems: map<Item, Player>
    /** A missing item has been dereferenced: no operation follows. */
    var crashed: bool

    constructor ()
      ensures tradeItems == map[] && !crashed
    {
      tradeItems, crashed := map[], false;
    }

    ghost function State(P: set<Player>): Trades
      reads this, P
    {
      Trades(Parties(P), tradeItems, crashed)
    }

    /** Is an item that is offered already the same, inside it, or around it? */
    method Overlaps(tradeItem: Item, ghost W: set<Item>) returns (found: bool)
      requires tradeItem in W && Forest(Snap(W)) && forall t | t in tradeItems :: t in W
      ensures found <==> exists t | t in tradeItems ::
        t == tradeItem || Under(Snap(W), tradeItem, t) || Under(Snap(W), t, tradeItem)
    {
      hide Forest;
      ghost var w := Snap(W);
      var left := tradeItems.Keys;
      while left != {}
        invariant left <= tradeItems.Keys
        invariant forall t | t in tradeItems && t !in left :: Apart(w, tradeItem, t)
        decreases left
      {
        var t :| t in left;
        left := left - {t};
        if tradeItem == t { return true; }
        assert t in Snap(W) && tradeItem in Snap(W);
        if !tradeItem.typ.kind.Plain? {
          var holds := IsHoldingItem(tradeItem, t, W);
          if holds { return true; }
        }
        if !t.typ.kind.Plain? {
          var holds := IsHoldingItem(t, tradeItem, W);
          if holds { return true; }
        }
        ApartIs(w, tradeItem, t);
      }
      found := false;
    }

    /** Game::playerRequestTrade; `near`: partner and item are within reach and the item may be picked up. */
    method RequestTrade(player: Player, tradePartner: Player?, tradeItem: Item?, near: bool, ghost W: set<Item>,
                        ghost P: set<Player>)
      returns (ok: bool)
      requires player in P && (tradePartner != null ==> tradePartner in P) && Sound(State(P))
      requires Forest(Snap(W)) && (tradeItem != null ==> tradeItem in W) && forall t | t in tradeItems :: t in W
      modifies this, P
      ensures var asked := tradePartner != null && tradePartner != player && near && tradeItem != null
          && MayOffer(old(Snap(W)), old(tradeItems), tradeItem);
        && (ok <==> asked && MayStart(old(State(P)), player, tradePartner))
        && State(P) == if asked then Started(old(State(P)), player, tradePartner, tradeItem) else old(State(P))
      ensures Sound(State(P))
    {
      hide Forest, Apart, Started, Sound, MayStart;
      if tradePartner == null || tradePartner == player { return false; }
      if !near || tradeItem == null { return false; }
      var overlaps := Overlaps(tradeItem, W);
      if overlaps { return false; }
      if !tradeItem.typ.kind.Plain? {
        var count := ItemHoldingCount(tradeItem, W);
        if count + 1 > 100 { return false; }
      }
      NotOffered(Snap(W), tradeItems, tradeItem);
      StartedSound(State(P), player, tradePartner, tradeItem);
      ok := StartTrade(player, tradePartner, tradeItem, P);
    }

    /** Game::internalStartTrade */
    method StartTrade(player: Player, tradePartner: Player, tradeItem: Item, ghost P: set<Player>) returns (ok: bool)
      requires player in P && tradePartner in P && player != tradePartner
      modifies this, P
      ensures ok <==> MayStart(old(State(P)), player, tradePartner)
      ensures State(P) == Started(old(State(P)), player, tradePartner, tradeItem)
    {
      if player.tradeState != TRADE_NONE
        && !(player.tradeState == TRADE_ACKNOWLEDGE && player.tradePartner == tradePartner) {
        return false;
      } else if tradePartner.tradeState != TRADE_NONE && tradePartner.tradePartner != player {
        return false;
      }
      PartiesAt(P, player);
      PartiesAt(P, tradePartner);
      hide Parties;
      SetOffer(player, tradePartner, tradeItem, P);
      tradeItems := tradeItems[tradeItem := player];
      if tradePartner.tradeState == TRADE_NONE { SetAsked(tradePartner, player, P); }
      ok := true;
    }

    method SetOffer(player: Player, tradePartner: Player, tradeItem: Item, ghost P: set<Player>)
      requires player in P
      modifies player
      ensures Parties(P) == old(Parties(P))[player := Trader(tradePartner, TRADE_INITIATED, tradeItem)]
    {
      player.tradePartner := tradePartner;
      player.tradeItem := tradeItem;
      player.tradeState := TRADE_INITIATED;
    }

    method SetAsked(tradePartner: Player, player: Player, ghost P: set<Player>)
      requires tradePartner in P
      modifies tradePartner`tradeState, tradePartner`tradePartner
      ensures Parties(P) == old(Parties(P))[tradePartner := Trader(player, TRADE_ACKNOWLEDGE, tradePartner.tradeItem)]
    {
      tradePartner.tradeState := TRADE_ACKNOWLEDGE;
      tradePartner.tradePartner := player;
    }

    /** Game::playerAcceptTrade; `exchanged`: two items, if there are two, could be moved to the other side. */
    method AcceptTrade(player: Player, exchanged: bool, ghost P: set<Player>) returns (ok: bool)
      requires player in P && Sound(State(P))
      modifies this, P
      ensures State(P) == Accepted(old(State(P)), player)
      ensures crashed <==> old(Settles(State(P), player) && !BothOffer(State(P), player))
      ensures if crashed then Stopped(State(P)) else Sound(State(P))
      ensures ok <==> old(Settles(State(P), player)) && !crashed && exchanged
    {
      hide Sound, StoppedAt;
      PartnerIn(State(P), player);
      if Settles(State(P), player) { SettledSound(State(P), player); } else { WaitingSound(State(P), player); }
      ok := Accept(player, exchanged, P);
    }

    method Accept(player: Player, exchanged: bool, ghost P: set<Player>) returns (ok: bool)
      requires player in P && !crashed
      requires player.tradePartner != null ==> player.tradePartner in P && player.tradePartner != player
      modifies this, P
      ensures State(P) == Accepted(old(State(P)), player)
      ensures ok <==> old(Settles(State(P), player)) && !crashed && exchanged
    {
      ok := false;
      if !(player.tradeState == TRADE_ACKNOWLEDGE || player.tradeState == TRADE_INITIATED) { return; }
      player.tradeState := TRADE_ACCEPT;
      var tradePartner := player.tradePartner;
      if tradePartner != null && tradePartner.tradeState == TRADE_ACCEPT {
        ok := Exchange(player, tradePartner, exchanged, P);
      }
    }

    /** The offers are struck off; with an item from each side both players are free again. */
    method Exchange(player: Player, tradePartner: Player, exchanged: bool, ghost P: set<Player>)
      returns (isSuccess: bool)
      requires player in P && tradePartner in P && player != tradePartner && !crashed
      modifies this, P
      ensures tradeItems ==
        WithoutOffer(WithoutOffer(old(tradeItems), old(player.tradeItem)), old(tradePartner.tradeItem))
      ensures crashed <==> old(player.tradeItem) == null || old(tradePartner.tradeItem) == null
      ensures Parties(P) ==
        if crashed then
          old(Parties(P))[player := Trader(old(player.tradePartner), TRADE_TRANSFER, old(player.tradeItem))]
            [tradePartner := Trader(old(tradePartner.tradePartner), TRADE_TRANSFER, old(tradePartner.tradeItem))]
        else old(Parties(P))[player := IDLE][tradePartner := IDLE]
      ensures isSuccess <==> !crashed && exchanged
    {
      hide Parties;
      LastCounts(Parties(P), player, tradePartner, Trader(player.tradePartner, TRADE_TRANSFER, player.tradeItem),
                 Trader(tradePartner.tradePartner, TRADE_TRANSFER, tradePartner.tradeItem));
      var tradeItem1, tradeItem2 := player.tradeItem, tradePartner.tradeItem;
      SetTransfer(player, P);
      SetTransfer(tradePartner, P);
      StrikeOff(tradeItem1);
      StrikeOff(tradeItem2);
      isSuccess := tradeItem1 != null && tradeItem2 != null && exchanged;
      if !isSuccess {
        // Each is told through the item that he has offered.
        if tradePartner.tradeItem == null || player.tradeItem == null {
          crashed := true;
          return;
        }
      }
      SetFree(player, P);
      SetFree(tradePartner, P);
    }

    method StrikeOff(item: Item?)
      modifies this`tradeItems
      ensures tradeItems == WithoutOffer(old(tradeItems), item)
    {
      if item != null && item in tradeItems { tradeItems := tradeItems - {item}; }
    }

    method SetTransfer(player: Player, ghost P: set<Player>)
      requires player in P
      modifies player`tradeState
      ensures Parties(P) ==
        old(Parties(P))[player := Trader(old(player.tradePartner), TRADE_TRANSFER, old(player.tradeItem))]
    {
      player.tradeState := TRADE_TRANSFER;
    }

    method SetFree(player: Player, ghost P: set<Player>)
      requires player in P
      modifies player
      ensures Parties(P) == old(Parties(P))[player := IDLE]
    {
      player.tradeState, player.tradeItem, player.tradePartner := TRADE_NONE, null, null;
    }

    /** Game::internalCloseTrade */
    method CloseTrade(player: Player, ghost P: set<Player>)
      requires player in P && Sound(State(P))
      modifies this, P
      ensures old(player.tradePartner) != null ==> old(player.tradePartner) in P
      ensures State(P) == Closed(old(State(P)), player) && Sound(State(P))
    {
      ClosedSound(State(P), player);
      PartnerIn(State(P), player);
      CloseBoth(player, P);
    }

    method CloseBoth(player: Player, ghost P: set<Player>)
      requires player in P
      requires player.tradePartner != null ==> player.tradePartner in P && player.tradePartner != player
      modifies this, P
      ensures State(P) == Closed(old(State(P)), player)
    {
      var tradePartner := player.tradePartner;
      if (tradePartner != null && tradePartner.tradeState == TRADE_TRANSFER) || player.tradeState == TRADE_TRANSFER {
        return;
      }
      Leave(player, P);
      if tradePartner != null { Leave(tradePartner, P); }
    }

    /** The player's offer is struck off, and he is free again. */
    method Leave(player: Player, ghost P: set<Player>)
      requires player in P
      modifies this`tradeItems, player
      ensures Parties(P) == old(Parties(P))[player := IDLE]
      ensures tradeItems == WithoutOffer(old(tradeItems), old(player.tradeItem))
    {
      if player.tradeItem != null {
        StrikeOff(player.tradeItem);
        player.tradeItem := null;
      }
      player.tradeState, player.tradePartner := TRADE_NONE, null;
    }
  }

  lemma PartiesAt(P: set<Player>, p: Player)
    requires p in P
    ensures p in Parties(P) && Parties(P)[p] == Trader(p.tradePartner, p.tradeState, p.tradeItem)
  {
  }

  /** Plain items hold nothing, so only containers need to be searched. */
  lemma ApartIs(w: World, x: Item, t: Item)
    requires Forest(w) && x in w && t in w && w[x].typ == x.typ && w[t].typ == t.typ && x != t
    requires !x.typ.kind.Plain? ==> t !in Below(w, x)
    requires !t.typ.kind.Plain? ==> x !in Below(w, t)
    ensures Apart(w, x, t)
  {
    if Under(w, x, t) { HoldsSomething(w, x, t); }
    if Under(w, t, x) { HoldsSomething(w, t, x); }
  }

  lemma LastCounts(m: map<Player, Trader>, p: Player, q: Player, x: Trader, y: Trader)
    requires p != q
    ensures m[p := x][q := y][p := IDLE][q := IDLE] == m[p := IDLE][q := IDLE]
  {
  }

  lemma NotOffered(w: World, offered: map<Item, Player>, item: Item)
    requires forall t | t in offered :: t != item && !Under(w, item, t) && !Under(w, t, item)
    ensures item !in offered
  {
  }

  lemma PartnerIn(s: Trades, p: Player)
    requires Sound(s) && p in s.party
    ensures !s.crashed
    ensures s.party[p].partner != null ==> s.party[p].partner in s.party && s.party[p].partner != p
  {
    assert Paired(s, p);
  }
}
