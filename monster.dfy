/** A monster on the level (src/monster.js), with the combat fields that the
    encounter rules read and update. */
module Monsters {
  import opened Common
  import opened MonsterDefs
  import opened Chroma

  /** Where the monster sprite stands: the spawn x and z at height 0.4, half
      its 0.8 scale. */
  function MonsterSpritePosition(p: Vec3): (s: Vec3)
    ensures s.x == p.x && s.z == p.z && s.y == 0.4
  {
    Vec3(p.x, 0.4, p.z)
  }

  /** Everything about a monster that the encounter rules look at. */
  datatype MonsterView = MonsterView(
    monsterType: string,
    name: string,
    isBoss: bool,
    def: int,
    maxAttackCooldown: real,
    maxHp: int,
    hp: int,
    damageMin: int,
    damageMax: int,
    attackCooldown: real,
    spottedPlayer: bool,
    triggerPowerfulAttack: bool,
    preparingPowerfulAttack: bool,
    sprite: Option<Sprite>)

  class Monster {
    const monsterType: string
    const name: string
    const isBoss: bool
    const def: int
    const maxAttackCooldown: real
    const speed: real
    const spawnPosition: Vec3
    var maxHp: int
    var hp: int
    var damageMin: int
    var damageMax: int
    var attackCooldown: real
    var spottedPlayer: bool
    var triggerPowerfulAttack: bool
    var preparingPowerfulAttack: bool
    var sprite: Option<Sprite>

    /** `new Monster(scene, position, type)`. The shown constructor only
        schedules the texture load; the combat fields are taken from the
        catalog record `d` of the requested type, fresh and unalerted. */
    constructor (d: MonsterDef, position: Vec3)
      ensures View() == MonsterView(d.id, d.name, d.isBoss, d.def, d.maxAttackCooldown, d.hp, d.hp,
                                    d.damageMin, d.damageMax, 0.0, false, false, false, None)
      ensures spawnPosition == position && speed == d.speed
    {
      monsterType := d.id;
      name := d.name;
      isBoss := d.isBoss;
      def := d.def;
      maxAttackCooldown := d.maxAttackCooldown;
      speed := d.speed;
      spawnPosition := position;
      maxHp := d.hp;
      hp := d.hp;
      damageMin := d.damageMin;
      damageMax := d.damageMax;
      attackCooldown := 0.0;
      spottedPlayer := false;
      triggerPowerfulAttack := false;
      preparingPowerfulAttack := false;
      sprite := None;
    }

    function View(): (v: MonsterView)
      reads this
      ensures v.hp == hp && v.attackCooldown == attackCooldown && v.spottedPlayer == spottedPlayer
      ensures v.sprite == sprite && v.isBoss == isBoss
    {
      MonsterView(monsterType, name, isBoss, def, maxAttackCooldown, maxHp, hp, damageMin, damageMax,
                  attackCooldown, spottedPlayer, triggerPowerfulAttack, preparingPowerfulAttack, sprite)
    }

    /** The texture-load callback: key out the green background (threshold
        100) and place the sprite at the spawn x and z, height 0.4, scale 0.8. */
    method OnTextureLoaded(pixels: array<byte>)
      requires pixels.Length % 4 == 0
      modifies pixels, this`sprite
      ensures pixels[..] == Keyed(old(pixels[..]), MONSTER_THRESHOLD)
      ensures sprite == Some(Sprite(MonsterSpritePosition(spawnPosition), Vec3(0.8, 0.8, 1.0)))
    {
      ChromaKey(pixels, MONSTER_THRESHOLD);
      sprite := Some(Sprite(MonsterSpritePosition(spawnPosition), Vec3(0.8, 0.8, 1.0)));
    }

    /** update: does nothing. */
    method Update(delta: real)
      ensures unchanged(this)
    {
    }

    /** remove: takes the sprite out of the scene when there is one
        (`detached`); the monster's fields are untouched. */
    method Remove() returns (detached: bool)
      ensures detached == sprite.Some?
    {
      detached := sprite.Some?;
    }
  }
}
