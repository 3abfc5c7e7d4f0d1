/** The vendor (src/vendor.js): which catalog entries are offered, what they
    cost, and the buy, sell and open handlers. */
module Vendor {
  import opened Common
  import opened Items
  import opened Players

  /** Entries whose id starts with "heavy_" are held back below level 12. */
  function Hidden(t: ItemTemplate, currentLevel: int): (h: bool)
    ensures h <==> |t.id| >= 6 && t.id[..6] == "heavy_" && currentLevel < 12
  {
    "heavy_" <= t.id && currentLevel < 12
  }

  /** The shop list: the catalog values in key order, without the hidden ones. */
  function Offered(catalog: seq<(string, ItemTemplate)>, currentLevel: int): (r: seq<ItemTemplate>)
    ensures forall t :: t in r <==> t in Templates(catalog) && !Hidden(t, currentLevel)
    ensures |r| <= |catalog|
  {
    if |catalog| == 0 then []
    else
      var rest := Offered(catalog[1..], currentLevel);
      assert Templates(catalog) == [catalog[0].1] + Templates(catalog[1..]);
      if Hidden(catalog[0].1, currentLevel) then rest else [catalog[0].1] + rest
  }

  /** From level 12 on, the whole catalog is offered, in key order. */
  lemma {:induction false} AllOfferedFromTwelve(catalog: seq<(string, ItemTemplate)>, currentLevel: int)
    requires currentLevel >= 12
    ensures Offered(catalog, currentLevel) == Templates(catalog)
  {
    if |catalog| > 0 {
      AllOfferedFromTwelve(catalog[1..], currentLevel);
      assert Templates(catalog) == [catalog[0].1] + Templates(catalog[1..]);
    }
  }

  /** The shipped catalog has no "heavy_" entry, so every level sees it all. */
  lemma ShopOffersWholeCatalog(currentLevel: int)
    ensures Offered(ITEMS, currentLevel) == Templates(ITEMS)
  {
    NoHeavyItemsNoPrices();
    OfferedWithoutHidden(ITEMS, currentLevel);
  }

  lemma {:induction false} OfferedWithoutHidden(catalog: seq<(string, ItemTemplate)>, currentLevel: int)
    requires forall k :: 0 <= k < |catalog| ==> !Hidden(catalog[k].1, currentLevel)
    ensures Offered(catalog, currentLevel) == Templates(catalog)
  {
    if |catalog| > 0 {
      OfferedWithoutHidden(catalog[1..], currentLevel);
      assert Templates(catalog) == [catalog[0].1] + Templates(catalog[1..]);
    }
  }

  /** `player.isGodMode ? 0 : item.price`; `None` stands for an entry with
      no price, whose cost is undefined. */
  function Cost(isGodMode: bool, price: Option<int>): (c: Option<int>)
    ensures isGodMode ==> c == Some(0)
    ensures !isGodMode ==> c == price
  {
    if isGodMode then Some(0) else price
  }

  /** `player.gold >= cost`: a comparison with an undefined cost is false. */
  function Affordable(gold: int, cost: Option<int>): (a: bool)
    ensures cost.None? ==> !a
    ensures a ==> gold - cost.value >= 0
  {
    cost.Some? && gold >= cost.value
  }

  datatype BuyOutcome = Bought(cost: int) | CreateFailed | BackpackFull | NotEnoughGold

  /** The branch a purchase takes: gold first, then item creation, then
      the backpack. */
  function Purchase(gold: int, cost: Option<int>, created: bool, accepted: bool): (o: BuyOutcome)
    ensures o.Bought? <==> Affordable(gold, cost) && created && accepted
    ensures o.Bought? ==> o.cost == cost.value && gold - o.cost >= 0
    ensures o == NotEnoughGold <==> !Affordable(gold, cost)
    ensures o == CreateFailed <==> Affordable(gold, cost) && !created
    ensures o == BackpackFull <==> Affordable(gold, cost) && created && !accepted
  {
    if !Affordable(gold, cost) then NotEnoughGold
    else if !created then CreateFailed
    else if !accepted then BackpackFull
    else Bought(cost.value)
  }

  /** Outside god mode no shipped entry can be bought: none has a price. */
  lemma CatalogNotForSaleOutsideGodMode(gold: int, k: nat, created: bool, accepted: bool)
    requires k < |ITEMS|
    ensures Purchase(gold, Cost(false, ITEMS[k].1.price), created, accepted) == NotEnoughGold
  {
    NoHeavyItemsNoPrices();
  }

  /** In god mode everything is free and gold never moves. */
  lemma GodModeBuysFree(gold: int, price: Option<int>, created: bool, accepted: bool)
    requires gold >= 0
    ensures Purchase(gold, Cost(true, price), created, accepted) ==
            (if !created then CreateFailed else if !accepted then BackpackFull else Bought(0))
  {
  }

  /** A click on a shop entry. The item comes from createItem, which is not
      part of this model (`created`); addItem's verdict is `accepted`. Gold
      is debited only when the item went into the backpack. */
  method Buy(player: Player, item: ItemTemplate, created: Option<Item>, accepted: bool) returns (outcome: BuyOutcome)
    modifies player`gold, player`inventory
    ensures outcome == Purchase(old(player.gold), Cost(player.isGodMode, item.price), created.Some?, accepted)
    ensures outcome.Bought? ==> player.gold == old(player.gold) - outcome.cost && player.gold >= 0 &&
                                player.inventory == old(player.inventory) + [created.value]
    ensures !outcome.Bought? ==> player.gold == old(player.gold) && player.inventory == old(player.inventory)
  {
    var cost := Cost(player.isGodMode, item.price);
    if cost.Some? && player.gold >= cost.value {
      if created.Some? {
        var ok := player.AddItem(created.value, accepted);
        if ok {
          player.gold := player.gold - cost.value;
          return Bought(cost.value);
        }
        return BackpackFull;
      }
      return CreateFailed;
    }
    return NotEnoughGold;
  }

  /** `Math.floor(price * 0.5)`. */
  function SellPrice(price: int): (p: int)
    ensures 2 * p <= price < 2 * p + 2
  {
    price / 2
  }

  /** A click on backpack entry `index`: half its price, rounded down, is
      credited and exactly that entry leaves the backpack. The item's price
      is set by createItem, which is not part of this model, so it is given. */
  method Sell(player: Player, index: nat, price: int) returns (sold: Item)
    requires index < |player.inventory|
    modifies player`gold, player`inventory
    ensures sold == old(player.inventory[index])
    ensures player.gold == old(player.gold) + SellPrice(price)
    ensures player.inventory == RemoveAt(old(player.inventory), index)
  {
    sold := player.inventory[index];
    player.gold := player.gold + price / 2;
    player.inventory := player.inventory[..index] + player.inventory[index + 1..];
  }

  /** openVendor: a dead player cannot open the shop; otherwise the pointer
      lock is released (the 'unlock' event clears isLocked). */
  method OpenVendor(player: Player) returns (shown: bool)
    modifies player`isLocked
    ensures shown <==> old(player.hp) > 0
    ensures player.isLocked == (if shown then false else old(player.isLocked))
  {
    if player.hp <= 0 {
      return false;
    }
    player.OnUnlock();
    return true;
  }
}
