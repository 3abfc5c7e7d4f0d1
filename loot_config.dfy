/** The loot tables (src/lootConfig.js) and the start-up check that every
    monster type has one (src/assets.js). */
module LootConfig {
  import opened Common
  import opened Items
  import opened MonsterDefs

  /** One drop entry: gold with an amount range, or a catalog item. */
  datatype LootEntry =
    | GoldEntry(chance: real, min: int, max: int)
    | ItemEntry(chance: real, item: ItemTemplate)

  const LOOT_CONFIG: seq<(string, seq<LootEntry>)> := [
    ("shadow", [GoldEntry(0.7, 10, 20), ItemEntry(0.1, ITEMS[0].1)]),
    ("skeleton", [GoldEntry(0.5, 20, 40), ItemEntry(0.1, ITEMS[0].1), ItemEntry(0.2, ITEMS[1].1)])
  ]

  predicate HasTable(table: seq<(string, seq<LootEntry>)>, id: string)
  {
    exists k :: 0 <= k < |table| && table[k].0 == id
  }

  /** `monsterKeys.filter(mId => !LOOT_CONFIG[mId])`: the monster ids, in
      order, that have no loot table. */
  function MissingLoot(monsterKeys: seq<string>, table: seq<(string, seq<LootEntry>)>): (r: seq<string>)
    ensures forall id :: id in r <==> id in monsterKeys && !HasTable(table, id)
    ensures |r| <= |monsterKeys|
  {
    if |monsterKeys| == 0 then []
    else
      var rest := MissingLoot(monsterKeys[1..], table);
      assert forall id :: id in monsterKeys <==> id == monsterKeys[0] || id in monsterKeys[1..];
      if HasTable(table, monsterKeys[0]) then rest else [monsterKeys[0]] + rest
  }

  /** Every chance is a probability and every gold range is ordered. */
  lemma LootTableSane()
    ensures forall k, j :: 0 <= k < |LOOT_CONFIG| && 0 <= j < |LOOT_CONFIG[k].1| ==>
              0.0 <= LOOT_CONFIG[k].1[j].chance <= 1.0
    ensures forall k, j :: 0 <= k < |LOOT_CONFIG| && 0 <= j < |LOOT_CONFIG[k].1| && LOOT_CONFIG[k].1[j].GoldEntry? ==>
              LOOT_CONFIG[k].1[j].min <= LOOT_CONFIG[k].1[j].max
  {
  }

  /** Every item entry refers to an entry of the item catalog. */
  lemma LootItemsInCatalog()
    ensures forall k, j :: 0 <= k < |LOOT_CONFIG| && 0 <= j < |LOOT_CONFIG[k].1| && LOOT_CONFIG[k].1[j].ItemEntry? ==>
              Lookup(ITEMS, LOOT_CONFIG[k].1[j].item.id) == Some(LOOT_CONFIG[k].1[j].item)
  {
    assert Lookup(ITEMS, "leather_tunic") == Some(ITEMS[0].1);
    assert Lookup(ITEMS, "rusty_chainmail") == Some(ITEMS[1].1);
  }

  /** The loot tables are keyed by exactly the monster ids, so the start-up
      check reports nothing. */
  lemma {:induction false} EveryMonsterHasLoot()
    ensures MonsterKeys(MONSTERS) == [LOOT_CONFIG[0].0, LOOT_CONFIG[1].0] && |LOOT_CONFIG| == 2
    ensures MissingLoot(MonsterKeys(MONSTERS), LOOT_CONFIG) == []
  {
    var keys := MonsterKeys(MONSTERS);
    assert keys == ["shadow", "skeleton"];
    assert HasTable(LOOT_CONFIG, keys[0]) by { assert LOOT_CONFIG[0].0 == keys[0]; }
    assert HasTable(LOOT_CONFIG, keys[1]) by { assert LOOT_CONFIG[1].0 == keys[1]; }
    var r := MissingLoot(keys, LOOT_CONFIG);
    assert forall id :: id !in r;
  }
}
