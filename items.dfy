/** Item records (src/item.js) and the item catalog (src/itemDefinitions.js). */
module Items {
  import opened Common

  /** An item instance: a plain `Item`, or an `Armor`, which adds a defense
      value. `itemType` is the free-form `type` tag ("torso", "weapon", ...). */
  datatype Item =
    | Plain(name: string, itemType: string, iconUrl: string)
    | Armor(name: string, itemType: string, defense: int, iconUrl: string)

  /** The `Item` part of an instance (what `super(name, type, iconUrl)` stores). */
  function AsItem(i: Item): (r: Item)
    ensures r.Plain? && r.name == i.name && r.itemType == i.itemType && r.iconUrl == i.iconUrl
  {
    Plain(i.name, i.itemType, i.iconUrl)
  }

  /** `new Armor(name, type, defense, iconUrl)` hands name, type and iconUrl
      to the `Item` constructor and keeps defense as given. */
  lemma ArmorExtendsItem(name: string, itemType: string, defense: int, iconUrl: string)
    ensures AsItem(Armor(name, itemType, defense, iconUrl)) == Plain(name, itemType, iconUrl)
    ensures Armor(name, itemType, defense, iconUrl).defense == defense
  {
  }

  datatype ItemClass = ArmorClass | PotionClass | WeaponClass

  /** A catalog entry. Fields an entry does not set are `None`; in particular
      no entry of the catalog sets a price. */
  datatype ItemTemplate = ItemTemplate(
    id: string,
    name: string,
    itemClass: ItemClass,
    itemType: Option<string>,
    defense: Option<int>,
    healAmount: Option<int>,
    icon: string,
    price: Option<int>)

  /** ITEMS, in the key order of the object literal. */
  const ITEMS: seq<(string, ItemTemplate)> := [
    ("leather_tunic",
     ItemTemplate("leather_tunic", "Leather Tunic", ArmorClass, Some("torso"), Some(5), None, "/tunic_icon.png", None)),
    ("rusty_chainmail",
     ItemTemplate("rusty_chainmail", "Rusty Chainmail", ArmorClass, Some("torso"), Some(8), None, "/chainmail_icon.png", None)),
    ("iron_plate",
     ItemTemplate("iron_plate", "Iron Plate", ArmorClass, Some("torso"), Some(12), None, "/tunic_icon.png", None)),
    ("healing_potion",
     ItemTemplate("healing_potion", "Healing Potion", PotionClass, None, None, Some(30), "/potion_icon.png", None))
  ]

  /** The values of the catalog, in key order (`Object.values(ITEMS)`). */
  function Templates(catalog: seq<(string, ItemTemplate)>): (r: seq<ItemTemplate>)
    ensures |r| == |catalog| && forall k :: 0 <= k < |r| ==> r[k] == catalog[k].1
  {
    seq(|catalog|, k requires 0 <= k < |catalog| => catalog[k].1)
  }

  /** Every key of ITEMS equals the id of its entry. */
  lemma ItemKeysAreIds()
    ensures forall k :: 0 <= k < |ITEMS| ==> ITEMS[k].0 == ITEMS[k].1.id
  {
  }

  /** The three armour entries are torso pieces of defense 5, 8 and 12; the
      healing potion heals 30; no other entry exists. */
  lemma ItemCatalogContents()
    ensures |ITEMS| == 4
    ensures forall k :: 0 <= k < 3 ==> ITEMS[k].1.itemClass == ArmorClass && ITEMS[k].1.itemType == Some("torso")
    ensures ITEMS[0].1.defense == Some(5) && ITEMS[1].1.defense == Some(8) && ITEMS[2].1.defense == Some(12)
    ensures Lookup(ITEMS, "healing_potion") == Some(ITEMS[3].1)
    ensures ITEMS[3].1.itemClass == PotionClass && ITEMS[3].1.healAmount == Some(30)
  {
  }

  /** No id starts with "heavy_" and no entry carries a price. */
  lemma NoHeavyItemsNoPrices()
    ensures forall k :: 0 <= k < |ITEMS| ==> !("heavy_" <= ITEMS[k].1.id)
    ensures forall k :: 0 <= k < |ITEMS| ==> ITEMS[k].1.price == None
  {
    forall k | 0 <= k < |ITEMS|
      ensures !("heavy_" <= ITEMS[k].1.id)
    {
      var id := ITEMS[k].1.id;
      assert id[0] != 'h' || id[3] != 'v';
      assert "heavy_"[0] == 'h' && "heavy_"[3] == 'v';
    }
  }
}
