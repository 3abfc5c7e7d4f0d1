/** Weapons (src/weapon.js): a record of name, damage range and cooldown, and
    the damage roll. */
module Weapons {
  import opened Common

  datatype Weapon = Weapon(name: string, minDamage: int, maxDamage: int, cooldown: real)

  /** The Basic Sword: 2 to 4 damage, half a second of cooldown. */
  const BasicSword: Weapon := Weapon("Basic Sword", 2, 4, 0.5)

  /** getDamage with `draw` standing for Math.random():
      floor(draw * (max - min + 1)) + min. */
  function GetDamage(w: Weapon, draw: real): (d: int)
    requires IsDraw(draw)
    ensures w.minDamage <= w.maxDamage ==> w.minDamage <= d <= w.maxDamage
    ensures w.minDamage == w.maxDamage ==> d == w.minDamage
  {
    var span := w.maxDamage - w.minDamage + 1;
    if span > 0 then DrawIndex(draw, span) + w.minDamage
    else Times(draw, span).Floor + w.minDamage
  }

  /** Every damage value in [min, max] is rolled by some draw. */
  lemma {:induction false} GetDamageCovers(w: Weapon, dmg: int)
    requires w.minDamage <= dmg <= w.maxDamage
    ensures exists draw :: IsDraw(draw) && GetDamage(w, draw) == dmg
  {
    var span := w.maxDamage - w.minDamage + 1;
    var k := dmg - w.minDamage;
    DrawIndexCovers(k, span);
    var draw := k as real / span as real;
    assert IsDraw(draw) && GetDamage(w, draw) == dmg;
  }

  /** The Basic Sword always rolls 2, 3 or 4. */
  lemma BasicSwordRange(draw: real)
    requires IsDraw(draw)
    ensures BasicSword.name == "Basic Sword" && BasicSword.cooldown == 0.5
    ensures 2 <= GetDamage(BasicSword, draw) <= 4
  {
  }
}
