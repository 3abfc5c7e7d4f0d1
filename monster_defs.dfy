/** The monster catalog (src/monsterDefinitions.js). */
module MonsterDefs {
  import opened Common

  /** A catalog entry. The optional fields are read by the spawn and attack
      rules but set by no entry of the catalog (they are `None` there);
      `isBoss` is likewise absent from the catalog and so reads as false. */
  datatype MonsterDef = MonsterDef(
    id: string,
    name: string,
    hp: int,
    def: int,
    damageMin: int,
    damageMax: int,
    maxAttackCooldown: real,
    speed: real,
    idleTexture: string,
    attackTexture: string,
    isBoss: bool,
    startLevel: Option<int>,
    spawnWeight: Option<int>,
    plagueChance: Option<real>,
    poisonChance: Option<real>)

  /** MONSTERS, in the key order of the object literal. */
  const MONSTERS: seq<(string, MonsterDef)> := [
    ("shadow",
     MonsterDef("shadow", "Lesser Shadow", 40, 0, 4, 6, 0.6, 1.0, "/monster.png", "/monster_attack.png",
                false, None, None, None, None)),
    ("skeleton",
     MonsterDef("skeleton", "Rattled Skeleton", 20, 4, 5, 8, 1.0, 0.8, "/skeleton.png", "/skeleton_attack.png",
                false, None, None, None, None))
  ]

  /** `Object.keys(MONSTERS)`. */
  function MonsterKeys(catalog: seq<(string, MonsterDef)>): (r: seq<string>)
    ensures |r| == |catalog| && forall k :: 0 <= k < |r| ==> r[k] == catalog[k].0
  {
    seq(|catalog|, k requires 0 <= k < |catalog| => catalog[k].0)
  }

  /** The sanity facts of the catalog: keys are ids, damage ranges are ordered,
      hp is positive, defense non-negative, cooldown and speed positive. */
  lemma MonsterCatalogSane()
    ensures forall k :: 0 <= k < |MONSTERS| ==> MONSTERS[k].0 == MONSTERS[k].1.id
    ensures forall k :: 0 <= k < |MONSTERS| ==> MONSTERS[k].1.damageMin <= MONSTERS[k].1.damageMax
    ensures forall k :: 0 <= k < |MONSTERS| ==> MONSTERS[k].1.hp > 0 && MONSTERS[k].1.def >= 0
    ensures forall k :: 0 <= k < |MONSTERS| ==>
              MONSTERS[k].1.maxAttackCooldown > 0.0 && MONSTERS[k].1.speed > 0.0
  {
  }

  /** No entry sets a start level, a spawn weight, a status chance or the
      boss flag. */
  lemma MonsterCatalogDefaults()
    ensures forall k :: 0 <= k < |MONSTERS| ==>
              MONSTERS[k].1.startLevel == None && MONSTERS[k].1.spawnWeight == None &&
              MONSTERS[k].1.plagueChance == None && MONSTERS[k].1.poisonChance == None &&
              !MONSTERS[k].1.isBoss
  {
  }
}
