/** The trade of two players: offers, answers, the exchange, and the ways it is called off. */
module Trades {

  datatype TradeState = None | Initiated | Accepted | Acknowledge | Transfer

  const MAX_TRADED: int := 100

  class Item {
    /** References that trades hold. */
    var useCount: int

    constructor ()
      ensures useCount == 0
    {
      useCount := 0;
    }
  }

  class Player {
    var tradeState: TradeState
    var tradePartner: Player?
    var tradeItem: Item?

    constructor ()
      ensures tradeState == None && tradePartner == null && tradeItem == null
    {
      tradeState, tradePartner, tradeItem := None, null, null;
    }
  }

  /** A player's side of a trade. */
  datatype Side = Side(state: TradeState, partner: Player?, item: Item?)

  const ALONE: Side := Side(None, null, null)

  function Offered(item: Item?): set<Item> {
    if item == null then {} else {item}
  }

  /** A player's side fits the partner's. */
  predicate Paired(sides: map<Player, Side>, p: Player)
    requires p in sides
  {
    var side := sides[p];
    && (side.state == None <==> side.partner == null)
    && (side.state == None || side.state == Acknowledge ==> side.item == null)
    && (side.state == Initiated ==> side.item != null)
    && (side.partner != null ==>
          && side.partner in sides && side.partner != p && sides[side.partner].partner == p
          && var other := sides[side.partner];
             && (side.state == Transfer <==> other.state == Transfer)
             && (side.state == Acknowledge ==> other.state == Initiated || other.state == Accepted)
             && (side.state == Accepted ==> other.state != Accepted)
             && (side.item != null || other.item != null))
  }

  /** All sides fit, and the offers are exactly the items of the players who trade and are not in transfer. */
  predicate Fits(sides: map<Player, Side>, offers: map<Item, Player>) {
    && (forall p :: p in sides ==> Paired(sides, p))
    && (forall p :: p in sides && sides[p].item != null && sides[p].state != Transfer ==>
          sides[p].item in offers && offers[sides[p].item] == p)
    && (forall it :: it in offers ==>
          offers[it] in sides && sides[offers[it]].item == it && sides[offers[it]].state != Transfer)
  }

  predicate MayStart(sides: map<Player, Side>, p: Player, q: Player)
    requires p in sides && q in sides
  {
    && (sides[p].state == None || (sides[p].state == Acknowledge && sides[p].partner == q))
    && (sides[q].state == None || sides[q].partner == p)
  }

  /** The sides after an offer of one player to another. */
  function Started(sides: map<Player, Side>, p: Player, q: Player, item: Item): map<Player, Side>
    requires p in sides && q in sides
  {
    sides[p := Side(Initiated, q, item)][q := if sides[q].state == None then Side(Acknowledge, p, sides[q].item) else sides[q]]
  }

  lemma StartFits(sides: map<Player, Side>, offers: map<Item, Player>, p: Player, q: Player, item: Item)
    requires Fits(sides, offers) && p in sides && q in sides && p != q && item !in offers && MayStart(sides, p, q)
    ensures Fits(Started(sides, p, q, item), offers[item := p])
  {
    assert Paired(sides, p) && Paired(sides, q);
    var after := Started(sides, p, q, item);
    forall r | r in after
      ensures Paired(after, r)
    {
      assert Paired(sides, r);
    }
  }

  lemma AcceptFits(sides: map<Player, Side>, offers: map<Item, Player>, p: Player)
    requires Fits(sides, offers) && p in sides && (sides[p].state == Acknowledge || sides[p].state == Initiated)
    ensures sides[p].partner != null && sides[p].partner in sides
    ensures var other := sides[sides[p].partner];
      other.state != Accepted ==> (other.item == null <==> other.state == Acknowledge)
    ensures sides[sides[p].partner].state != Accepted ==> Fits(sides[p := sides[p].(state := Accepted)], offers)
  {
    assert Paired(sides, p);
    var q := sides[p].partner;
    assert Paired(sides, q);
    if sides[q].state != Accepted {
      var after := sides[p := sides[p].(state := Accepted)];
      forall r | r in after
        ensures Paired(after, r)
      {
        assert Paired(sides, r);
      }
    }
  }

  lemma TransferFits(sides: map<Player, Side>, offers: map<Item, Player>, p: Player, q: Player)
    requires Fits(sides, offers) && p in sides && sides[p].partner == q && q in sides && sides[p].state != Transfer
    ensures p != q
    ensures Fits(sides[p := sides[p].(state := Transfer)][q := sides[q].(state := Transfer)],
                 offers - Offered(sides[p].item) - Offered(sides[q].item))
  {
    assert Paired(sides, p) && Paired(sides, q);
    var after := sides[p := sides[p].(state := Transfer)][q := sides[q].(state := Transfer)];
    forall r | r in after
      ensures Paired(after, r)
    {
      assert Paired(sides, r);
    }
  }

  /** The sides after a trade of a player is over. */
  function Ended(sides: map<Player, Side>, p: Player): map<Player, Side>
    requires p in sides
  {
    var q := sides[p].partner;
    if q == null then sides[p := ALONE] else sides[p := ALONE][q := ALONE]
  }

  function OffersEnded(sides: map<Player, Side>, offers: map<Item, Player>, p: Player): map<Item, Player>
    requires p in sides
  {
    var q := sides[p].partner;
    if sides[p].state == Transfer then offers
    else if q == null || q !in sides then offers - Offered(sides[p].item) else offers - Offered(sides[p].item) - Offered(sides[q].item)
  }

  lemma EndFits(sides: map<Player, Side>, offers: map<Item, Player>, p: Player)
    requires Fits(sides, offers) && p in sides
    ensures sides[p].partner != null ==> sides[p].partner in sides && sides[p].partner != p
    ensures Fits(Ended(sides, p), OffersEnded(sides, offers, p))
    ensures sides[p].partner != null ==> (sides[sides[p].partner].state == Transfer <==> sides[p].state == Transfer)
    ensures sides[p].state == Transfer ==> sides[p].partner != null
  {
    assert Paired(sides, p);
    var after := Ended(sides, p);
    forall r | r in after
      ensures Paired(after, r)
    {
      assert r in sides && Paired(sides, r);
    }
    var offers' := OffersEnded(sides, offers, p);
    forall r | r in after && after[r].item != null && after[r].state != Transfer
      ensures after[r].item in offers' && offers'[after[r].item] == r
    {
      assert after[r] == sides[r];
    }
  }

  /** What lay on the table when a player accepted: the own item and the partner's. */
  datatype Table = Table(own: Item?, other: Item?)

  /** Who has accepted still offers the same, and the partner what was there then, or something if nothing was.
      Of two players in transfer, one has seen both items, if there are two.
   */
  predicate Consents(sides: map<Player, Side>, agreed: map<Player, Table>) {
    forall p :: p in sides && (sides[p].state == Accepted || sides[p].state == Transfer) ==> Consent(sides, agreed, p)
  }

  predicate Consent(sides: map<Player, Side>, agreed: map<Player, Table>, p: Player)
    requires p in sides
  {
    var q := sides[p].partner;
    && p in agreed && agreed[p].own == sides[p].item
    && (agreed[p].other == null || (q in sides && agreed[p].other == sides[q].item))
    && (sides[p].state == Transfer && sides[p].item != null ==>
          agreed[p].other != null || (q in sides && q in agreed && (agreed[q].other != null || sides[q].item == null)))
  }

  lemma StartConsents(sides: map<Player, Side>, offers: map<Item, Player>, agreed: map<Player, Table>, p: Player, q: Player, item: Item)
    requires Fits(sides, offers) && Consents(sides, agreed) && p in sides && q in sides && p != q && MayStart(sides, p, q)
    ensures Consents(Started(sides, p, q, item), agreed)
  {
    var after := Started(sides, p, q, item);
    forall r | r in after && (after[r].state == Accepted || after[r].state == Transfer)
      ensures Consent(after, agreed, r)
    {
      assert Paired(sides, r) && Paired(sides, p);
      ConsentOf(sides, agreed, r);
    }
  }

  lemma AcceptConsents(sides: map<Player, Side>, offers: map<Item, Player>, agreed: map<Player, Table>, p: Player)
    requires Fits(sides, offers) && Consents(sides, agreed) && p in sides
    requires sides[p].partner != null && sides[p].partner in sides && sides[p].state != Transfer
    ensures var q := sides[p].partner; var agreed' := agreed[p := Table(sides[p].item, sides[q].item)];
      && p != q && Consents(sides[p := sides[p].(state := Accepted)], agreed')
      && (sides[q].state == Accepted ==>
            Consents(sides[p := sides[p].(state := Transfer)][q := sides[q].(state := Transfer)], agreed'))
  {
    assert Paired(sides, p);
  }

  /** Whoever is neither the player nor the partner keeps the own side and that of the own partner. */
  lemma EndedOther(sides: map<Player, Side>, offers: map<Item, Player>, p: Player, r: Player)
    requires Fits(sides, offers) && p in sides && r in sides && Ended(sides, p)[r].state != None
    ensures Ended(sides, p)[r] == sides[r]
    ensures sides[r].partner in sides ==> Ended(sides, p)[sides[r].partner] == sides[sides[r].partner]
  {
    assert Paired(sides, p) && Paired(sides, r);
  }

  lemma EndConsents(sides: map<Player, Side>, offers: map<Item, Player>, agreed: map<Player, Table>, p: Player)
    requires Fits(sides, offers) && Consents(sides, agreed) && p in sides
    ensures Consents(Ended(sides, p), agreed)
  {
    hide Fits, Paired, Ended, Consents;
    EndFits(sides, offers, p);
    var after := Ended(sides, p);
    EndedKeys(sides, p);
    forall r | r in after && (after[r].state == Accepted || after[r].state == Transfer)
      ensures Consent(after, agreed, r)
    {
      EndedOther(sides, offers, p, r);
      ConsentOf(sides, agreed, r);
    }
    AllConsent(after, agreed);
  }

  lemma EndedKeys(sides: map<Player, Side>, p: Player)
    requires p in sides && (sides[p].partner != null ==> sides[p].partner in sides)
    ensures Ended(sides, p).Keys == sides.Keys
  {
  }

  lemma ConsentOf(sides: map<Player, Side>, agreed: map<Player, Table>, r: Player)
    requires Consents(sides, agreed) && r in sides && (sides[r].state == Accepted || sides[r].state == Transfer)
    ensures Consent(sides, agreed, r)
  {
  }

  lemma AllConsent(sides: map<Player, Side>, agreed: map<Player, Table>)
    requires forall r :: r in sides && (sides[r].state == Accepted || sides[r].state == Transfer) ==> Consent(sides, agreed, r)
    ensures Consents(sides, agreed)
  {
  }

  /** What can happen; a transfer is two events, between which the others may come. */
  datatype Event =
    | Request(player: Player, partner: Player, item: Item, reachable: bool, holds: set<(Item, Item)>, holdingCount: nat)
    | Accept(player: Player, reachable: bool)
    | Finish(player: Player, fits: bool)
    | Close(player: Player)

  /** Everything a trade is about, with what changed hands and what was accepted. */
  datatype Trading = Trading(sides: map<Player, Side>, offers: map<Item, Player>, agreed: map<Player, Table>, transfers: seq<(Item, Player)>)

  /** The item, or one it holds or lies in, is on offer already. */
  predicate Traded(offers: map<Item, Player>, item: Item, holds: set<(Item, Item)>) {
    exists it :: it in offers && (it == item || (item, it) in holds || (it, item) in holds)
  }

  /** What one event makes of all trades. */
  function Stepped(t: Trading, event: Event): Trading {
    var p := event.player;
    if p !in t.sides then t
    else
      var side := t.sides[p];
      match event
      case Request(_, q, item, reachable, holds, holdingCount) =>
        if q in t.sides && q != p && reachable && !Traded(t.offers, item, holds) && holdingCount < MAX_TRADED && MayStart(t.sides, p, q) then
          t.(sides := Started(t.sides, p, q, item), offers := t.offers[item := p])
        else t
      case Accept(_, reachable) =>
        if !reachable || side.partner !in t.sides || !(side.state == Acknowledge || side.state == Initiated) then t
        else
          var q := side.partner;
          var agreed := t.agreed[p := Table(side.item, t.sides[q].item)];
          if t.sides[q].state == Accepted then
            t.(sides := t.sides[p := side.(state := Transfer)][q := t.sides[q].(state := Transfer)],
               offers := OffersEnded(t.sides, t.offers, p), agreed := agreed)
          else t.(sides := t.sides[p := side.(state := Accepted)], agreed := agreed)
      case Finish(_, fits) =>
        if side.state != Transfer || side.partner !in t.sides then t
        else
          var other := t.sides[side.partner];
          var swaps := fits && side.item != null && other.item != null;
          t.(sides := Ended(t.sides, p),
             transfers := t.transfers + if swaps then [(side.item, side.partner), (other.item, p)] else [])
      case Close(_) =>
        if side.state == Transfer then t
        else t.(sides := Ended(t.sides, p), offers := OffersEnded(t.sides, t.offers, p))
  }

  /** What a run of events makes of them. */
  function AllStepped(t: Trading, events: seq<Event>): Trading {
    if events == [] then t else Stepped(AllStepped(t, events[..|events| - 1]), events[|events| - 1])
  }

  lemma NoSteps(t: Trading)
    ensures AllStepped(t, []) == t
  {
  }

  lemma SteppedNext(t: Trading, events: seq<Event>, i: nat)
    requires i < |events|
    ensures AllStepped(t, events[..i + 1]) == Stepped(AllStepped(t, events[..i]), events[i])
  {
    assert events[..i + 1][..i] == events[..i];
  }

  class Game {
    /** The items on offer, with the player who offers them. */
    var tradeItems: map<Item, Player>
    ghost const players: set<Player>
    ghost const items: set<Item>
    /** What changed hands, in order. */
    ghost var transfers: seq<(Item, Player)>
    /** What each player has last accepted. */
    ghost var agreed: map<Player, Table>

    constructor (ghost players: set<Player>, ghost items: set<Item>)
      requires forall p :: p in players ==> p.tradeState == None && p.tradePartner == null && p.tradeItem == null
      requires forall it :: it in items ==> it.useCount == 0
      ensures Valid() && tradeItems == map[] && this.players == players && this.items == items && transfers == []
    {
      this.players, this.items, tradeItems, transfers, agreed := players, items, map[], [], map[];
    }

    ghost function Sides(): map<Player, Side>
      reads this, players
    {
      map p | p in players :: Side(p.tradeState, p.tradePartner, p.tradeItem)
    }

    ghost function State(): Trading
      reads this, players
    {
      Trading(Sides(), tradeItems, agreed, transfers)
    }

    /** Exactly the items on offer are held, once. */
    ghost predicate Held()
      reads this`tradeItems, items
    {
      && (forall it :: it in tradeItems ==> it in items)
      && (forall it :: it in items ==> it.useCount == if it in tradeItems then 1 else 0)
    }

    ghost predicate Valid()
      reads this, players, items
    {
      Held() && Fits(Sides(), tradeItems) && Consents(Sides(), agreed)
    }

    predicate AlreadyTraded(item: Item, holds: set<(Item, Item)>)
      reads this
    {
      Traded(tradeItems, item, holds)
    }

    lemma NotTraded(item: Item)
      ensures AlreadyTraded(item, {}) <==> item in tradeItems
    {
    }

    method PlayerRequestTrade(player: Player, tradePartner: Player, item: Item, reachable: bool, holds: set<(Item, Item)>, holdingCount: nat)
      returns (ok: bool)
      requires Valid() && player in players && tradePartner in players && item in items
      modifies this`tradeItems, player, tradePartner, item`useCount
      ensures Valid()
      ensures ok == (tradePartner != player && reachable && !old(AlreadyTraded(item, holds)) && holdingCount + 1 <= MAX_TRADED
                     && MayStart(old(Sides()), player, tradePartner))
      ensures Sides() == (if ok then Started(old(Sides()), player, tradePartner, item) else old(Sides()))
      ensures tradeItems == if ok then old(tradeItems)[item := player] else old(tradeItems)
    {
      hide Fits, Paired, Consents;
      if tradePartner == player || !reachable {
        return false;
      }
      if AlreadyTraded(item, holds) {
        return false;
      }
      if holdingCount + 1 > MAX_TRADED {
        return false;
      }
      ok := InternalStartTrade(player, tradePartner, item);
    }

    method InternalStartTrade(player: Player, tradePartner: Player, item: Item) returns (ok: bool)
      requires Valid() && player in players && tradePartner in players && player != tradePartner && item in items && item !in tradeItems
      modifies this`tradeItems, player, tradePartner, item`useCount
      ensures Valid() && ok == MayStart(old(Sides()), player, tradePartner)
      ensures Sides() == (if ok then Started(old(Sides()), player, tradePartner, item) else old(Sides()))
      ensures tradeItems == if ok then old(tradeItems)[item := player] else old(tradeItems)
    {
      hide Fits, Paired, Consents, Held;
      if player.tradeState != None && !(player.tradeState == Acknowledge && player.tradePartner == tradePartner) {
        return false;
      } else if tradePartner.tradeState != None && tradePartner.tradePartner != player {
        return false;
      }
      StartFits(Sides(), tradeItems, player, tradePartner, item);
      StartConsents(Sides(), tradeItems, agreed, player, tradePartner, item);
      player.tradePartner := tradePartner;
      player.tradeItem := item;
      player.tradeState := Initiated;
      Hold(item, player);
      if tradePartner.tradeState == None {
        tradePartner.tradeState := Acknowledge;
        tradePartner.tradePartner := player;
      }
      assert Sides() == Started(old(Sides()), player, tradePartner, item);
      return true;
    }

    /** Puts an item on offer and holds it. */
    method Hold(item: Item, player: Player)
      requires Held() && item in items && item !in tradeItems
      modifies this`tradeItems, item`useCount
      ensures Held() && tradeItems == old(tradeItems)[item := player]
    {
      item.useCount := item.useCount + 1;
      tradeItems := tradeItems[item := player];
    }

    /** Takes an item off the offers and lets it go. */
    method Release(item: Item?)
      requires Held()
      modifies this`tradeItems, items`useCount
      ensures Held() && tradeItems == old(tradeItems) - Offered(item)
    {
      if item != null && item in tradeItems {
        item.useCount := item.useCount - 1;
        tradeItems := tradeItems - {item};
      }
    }

    /** A player accepts. If the partner had accepted before, both are then in transfer, and both items off the offers. */
    method BeginAccept(player: Player, reachable: bool) returns (transfer: bool)
      requires Valid() && player in players
      modifies this`tradeItems, this`agreed, players, items`useCount
      ensures Valid()
      ensures var sides := old(Sides());
        var side := sides[player];
        var accepts := (side.state == Acknowledge || side.state == Initiated) && reachable;
        && (accepts ==> side.partner != null && side.partner in sides)
        && transfer == (accepts && sides[side.partner].state == Accepted)
        && Sides() == (if transfer then sides[player := side.(state := Transfer)][side.partner := sides[side.partner].(state := Transfer)]
                       else if accepts then sides[player := side.(state := Accepted)]
                       else sides)
        && tradeItems == (if transfer then OffersEnded(sides, old(tradeItems), player) else old(tradeItems))
        && agreed == (if accepts then old(agreed)[player := Table(side.item, sides[side.partner].item)] else old(agreed))
        && (accepts && !transfer ==> (agreed[player].other == null <==> sides[side.partner].state == Acknowledge))
    {
      hide Fits, Paired, Held, Consents, Consent, MayStart, Started, Ended, AlreadyTraded, Agreed;
      if !(player.tradeState == Acknowledge || player.tradeState == Initiated) {
        return false;
      }
      ghost var sides := Sides();
      AcceptFits(sides, tradeItems, player);
      var tradePartner := player.tradePartner;
      if tradePartner == null {
        return false;
      }
      if !reachable {
        return false;
      }
      AcceptConsents(sides, tradeItems, agreed, player);
      agreed := agreed[player := Table(player.tradeItem, tradePartner.tradeItem)];
      player.tradeState := Accepted;
      if tradePartner.tradeState == Accepted {
        TransferFits(sides, tradeItems, player, tradePartner);
        BeginTransfer(player, tradePartner);
        assert Sides() == sides[player := sides[player].(state := Transfer)][tradePartner := sides[tradePartner].(state := Transfer)];
        return true;
      }
      assert Sides() == sides[player := sides[player].(state := Accepted)];
      return false;
    }

    /** Both are in transfer, and their items off the offers. */
    method BeginTransfer(player: Player, tradePartner: Player)
      requires Held() && player in players && tradePartner in players && player != tradePartner
      modifies this`tradeItems, player`tradeState, tradePartner`tradeState, items`useCount
      ensures Held() && tradeItems == old(tradeItems) - Offered(player.tradeItem) - Offered(tradePartner.tradeItem)
      ensures var sides := old(Sides());
        Sides() == sides[player := sides[player].(state := Transfer)][tradePartner := sides[tradePartner].(state := Transfer)]
    {
      hide Held;
      player.tradeState := Transfer;
      tradePartner.tradeState := Transfer;
      Release(player.tradeItem);
      Release(tradePartner.tradeItem);
    }

    /** A player has accepted giving the own item, and getting the other one or, if that was not offered yet, whatever
        the partner would offer.
     */
    ghost predicate Agreed(p: Player, own: Item?, other: Item?)
      reads this
    {
      p in agreed && agreed[p].own == own && (agreed[p].other == other || agreed[p].other == null)
    }

    lemma TransferAgreed(sides: map<Player, Side>, offers: map<Item, Player>, p: Player)
      requires Fits(sides, offers) && Consents(sides, agreed) && p in sides && sides[p].state == Transfer
      ensures var q := sides[p].partner;
        && q != null && q in sides && Agreed(p, sides[p].item, sides[q].item) && Agreed(q, sides[q].item, sides[p].item)
        && (sides[p].item != null && sides[q].item != null ==> agreed[p].other != null || agreed[q].other != null)
    {
      assert Paired(sides, p);
    }

    /** The end of a transfer: the items change hands if both can, and the trade is over either way.
        `fits` tells whether both can be taken away and have room; without two items it fails.
     */
    method FinishAccept(player: Player, fits: bool) returns (success: bool)
      requires Valid() && player in players && player.tradeState == Transfer
      modifies this`transfers, players
      ensures Valid() && Sides() == Ended(old(Sides()), player)
      ensures var side := old(Sides())[player];
        && side.partner != null && side.partner in players
        && var other := old(Sides())[side.partner];
           && success == (fits && side.item != null && other.item != null)
           && transfers == old(transfers) + (if success then [(side.item, side.partner), (other.item, player)] else [])
           && (success ==>
                 && Agreed(player, side.item, other.item) && Agreed(side.partner, other.item, side.item)
                 && (agreed[player].other != null || agreed[side.partner].other != null))
    {
      hide Fits, Paired, Held, Consents;
      EndFits(Sides(), tradeItems, player);
      EndConsents(Sides(), tradeItems, agreed, player);
      TransferAgreed(Sides(), tradeItems, player);
      var tradePartner := player.tradePartner;
      var item1, item2 := player.tradeItem, tradePartner.tradeItem;
      success := false;
      if item1 != null && item2 != null && fits {
        transfers := transfers + [(item1, tradePartner), (item2, player)];
        success := true;
      }
      Reset(player);
      Reset(tradePartner);
      assert Sides() == Ended(old(Sides()), player);
      assert tradeItems == OffersEnded(old(Sides()), old(tradeItems), player);
    }

    method Reset(player: Player)
      requires player in players
      modifies player
      ensures Sides() == old(Sides())[player := ALONE]
    {
      player.tradeState, player.tradeItem, player.tradePartner := None, null, null;
    }

    /** One player's side of a trade ends. */
    method Leave(player: Player)
      requires Held() && player in players
      modifies this`tradeItems, player, items`useCount
      ensures Held() && Sides() == old(Sides())[player := ALONE]
      ensures tradeItems == old(tradeItems) - Offered(old(player.tradeItem))
    {
      hide Held;
      if player.tradeItem != null {
        Release(player.tradeItem);
        player.tradeItem := null;
      }
      player.tradeState := None;
      player.tradePartner := null;
      assert Sides() == old(Sides())[player := ALONE];
    }

    /** Calls a trade off, for both; in a transfer it does nothing. */
    method InternalCloseTrade(player: Player)
      requires Valid() && player in players
      modifies this`tradeItems, players, items`useCount
      ensures Valid()
      ensures Sides() == if old(player.tradeState) == Transfer then old(Sides()) else Ended(old(Sides()), player)
      ensures tradeItems == OffersEnded(old(Sides()), old(tradeItems), player)
    {
      hide Fits, Paired, Held, Consents;
      var tradePartner := player.tradePartner;
      EndFits(Sides(), tradeItems, player);
      EndConsents(Sides(), tradeItems, agreed, player);
      if (tradePartner != null && tradePartner.tradeState == Transfer) || player.tradeState == Transfer {
        return;
      }
      Leave(player);
      if tradePartner != null {
        Leave(tradePartner);
      }
    }

    /** One event. */
    method Handle(event: Event)
      requires Valid() && event.player in players && (event.Request? ==> event.partner in players && event.item in items)
      modifies this`tradeItems, this`transfers, this`agreed, players, items`useCount
      ensures Valid() && State() == Stepped(old(State()), event)
      ensures forall p :: p in players && old(Sides())[p].state == Transfer && !Finishes(event, p, old(Sides())[p].partner) ==>
        Sides()[p] == old(Sides())[p]
    {
      hide Fits, Paired, Held, Consents, Traded;
      ghost var sides, offers := Sides(), tradeItems;
      match event {
        case Request(player, partner, item, reachable, holds, holdingCount) =>
          var _ := PlayerRequestTrade(player, partner, item, reachable, holds, holdingCount);
        case Accept(player, reachable) =>
          var _ := BeginAccept(player, reachable);
        case Finish(player, fits) =>
          if player.tradeState == Transfer {
            var _ := FinishAccept(player, fits);
          }
        case Close(player) =>
          InternalCloseTrade(player);
      }
      forall p | p in players && sides[p].state == Transfer && !Finishes(event, p, sides[p].partner)
        ensures Sides()[p] == sides[p]
      {
        TransferUndisturbed(sides, offers, event.player, p);
      }
    }

    /** Any run keeps the sides fitting and the offers held; and what happens while two players are in
        transfer, before it is finished, leaves them and their items alone.
     */
    method Run(events: seq<Event>)
      requires Valid() && Among(events)
      modifies this`tradeItems, this`transfers, this`agreed, players, items`useCount
      ensures Valid() && State() == AllStepped(old(State()), events)
      ensures forall p :: p in players && old(Sides())[p].state == Transfer && NoFinish(events, p, old(Sides())[p].partner) ==>
        Sides()[p] == old(Sides())[p]
    {
      hide Fits, Paired, Held, Consents, Stepped, AllStepped;
      ghost var start := State();
      NoSteps(start);
      for i := 0 to |events|
        invariant Valid() && State() == AllStepped(start, events[..i])
        invariant forall p :: p in players && old(Sides())[p].state == Transfer && NoFinish(events, p, old(Sides())[p].partner) ==>
          Sides()[p] == old(Sides())[p]
      {
        SteppedNext(start, events, i);
        Handle(events[i]);
      }
      assert events[..|events|] == events;
    }

    ghost predicate Among(events: seq<Event>) {
      forall i :: 0 <= i < |events| ==>
        events[i].player in players && (events[i].Request? ==> events[i].partner in players && events[i].item in items)
    }
  }

  /** The sides of two players, an item of each if there is one. */
  function TwoSides(p: Player, ps: TradeState, a: Item?, q: Player, qs: TradeState, b: Item?): map<Player, Side> {
    map[p := Side(ps, q, a), q := Side(qs, p, b)]
  }

  lemma OpenSteps(p: Player, q: Player, a: Item, b: Item)
    requires p != q
    ensures var idle := map[p := ALONE, q := ALONE];
      MayStart(idle, p, q) && Started(idle, p, q, a) == TwoSides(p, Initiated, a, q, Acknowledge, null)
    ensures var accepted := TwoSides(p, Accepted, a, q, Acknowledge, null);
      MayStart(accepted, q, p) && Started(accepted, q, p, b) == TwoSides(p, Accepted, a, q, Initiated, b)
  {
  }

  /** A player accepts with an offer on one side only; the partner then offers anything, accepts, and both change hands. */
  method OpenAcceptance() returns (p: Player, q: Player, a: Item, b: Item, game: Game)
    ensures game.Valid() && game.transfers == [(b, p), (a, q)]
    ensures p in game.agreed && game.agreed[p] == Table(a, null)
  {
    hide Fits, Paired, Consents, Game.Held, Ended, OffersEnded;
    p, q, a, b, game := BothAccepted();
    assert game.Sides()[q] == Side(Transfer, p, b);
    var ok := game.FinishAccept(q, true);
  }

  /** Before the items change hands. */
  method BothAccepted() returns (p: Player, q: Player, a: Item, b: Item, game: Game)
    ensures fresh(p) && fresh(q) && fresh(a) && fresh(b) && fresh(game) && p != q && game.players == {p, q} && game.items == {a, b}
    ensures game.Valid() && game.Sides() == TwoSides(p, Transfer, a, q, Transfer, b) && game.transfers == []
    ensures p in game.agreed && game.agreed[p] == Table(a, null)
  {
    hide Fits, Paired, Consents, Game.Held, MayStart, Started, Ended, OffersEnded, Game.AlreadyTraded, Game.Sides, Game.Valid;
    p, q, a, b, game := BothOffered();
    var transfer := game.BeginAccept(q, true);
    assert game.Sides() == TwoSides(p, Transfer, a, q, Transfer, b);
  }

  /** Before the second player accepts. */
  method BothOffered() returns (p: Player, q: Player, a: Item, b: Item, game: Game)
    ensures fresh(p) && fresh(q) && fresh(a) && fresh(b) && fresh(game) && p != q && game.players == {p, q} && game.items == {a, b}
    ensures game.Valid() && game.Sides() == TwoSides(p, Accepted, a, q, Initiated, b) && game.transfers == []
    ensures p in game.agreed && game.agreed[p] == Table(a, null)
  {
    hide Fits, Paired, Consents, Game.Held, MayStart, Started, Ended, OffersEnded, Game.AlreadyTraded, Game.Sides, Game.Valid;
    p, q, a, b, game := AcceptedOpen();
    OpenSteps(p, q, a, b);
    game.NotTraded(b);
    var ok := game.PlayerRequestTrade(q, p, b, true, {}, 0);
  }

  /** The first half of it: one player has offered and accepted, the other has done nothing. */
  method AcceptedOpen() returns (p: Player, q: Player, a: Item, b: Item, game: Game)
    ensures fresh(p) && fresh(q) && fresh(a) && fresh(b) && fresh(game) && p != q && a != b
    ensures game.Valid() && game.players == {p, q} && game.items == {a, b} && game.transfers == [] && game.tradeItems == map[a := p]
    ensures game.Sides() == TwoSides(p, Accepted, a, q, Acknowledge, null)
    ensures p in game.agreed && game.agreed[p] == Table(a, null)
  {
    hide Fits, Paired, Consents, Game.Held, MayStart, Started, Ended, OffersEnded, Game.AlreadyTraded, Game.Sides, Game.Valid;
    p, q, a, b, game := OpenGame();
    OpenSteps(p, q, a, b);
    game.NotTraded(a);
    var ok := game.PlayerRequestTrade(p, q, a, true, {}, 0);
    var transfer := game.BeginAccept(p, true);
    assert game.Sides() == TwoSides(p, Accepted, a, q, Acknowledge, null);
  }

  method OpenGame() returns (p: Player, q: Player, a: Item, b: Item, game: Game)
    ensures fresh(p) && fresh(q) && fresh(a) && fresh(b) && fresh(game) && p != q && a != b
    ensures game.Valid() && game.players == {p, q} && game.items == {a, b} && game.transfers == [] && game.tradeItems == map[]
    ensures game.Sides() == map[p := ALONE, q := ALONE]
  {
    hide Fits, Paired, Consents, Game.Held;
    p := new Player();
    q := new Player();
    a := new Item();
    b := new Item();
    game := new Game({p, q}, {a, b});
    assert game.Sides() == map[p := ALONE, q := ALONE];
  }

  predicate Finishes(event: Event, p: Player, q: Player?) {
    event.Finish? && (event.player == p || event.player == q)
  }

  predicate NoFinish(events: seq<Event>, p: Player, q: Player?) {
    forall i :: 0 <= i < |events| ==> !Finishes(events[i], p, q)
  }

  lemma TransferUndisturbed(sides: map<Player, Side>, offers: map<Item, Player>, player: Player, p: Player)
    requires Fits(sides, offers) && player in sides && p in sides && sides[p].state == Transfer
    ensures sides[p].partner != null && sides[p].partner in sides && sides[p].partner != p && sides[sides[p].partner].state == Transfer
    ensures sides[player].partner == p ==> player == sides[p].partner
    ensures sides[player].partner == p ==> sides[player].state == Transfer
  {
    assert Paired(sides, p) && Paired(sides, player);
  }
}
