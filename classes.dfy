/** Character class templates (src/classes.js): constant stat records. */
module Classes {
  import opened Weapons

  datatype CharacterClass = CharacterClass(name: string, hp: int, str: int, def: int, weapon: Weapon)

  /** `new BaseClass()`. */
  const BaseClass: CharacterClass := CharacterClass("Base", 100, 10, 0, BasicSword)

  /** `new Warrior()`: the base template with its own name and stats, keeping
      the inherited weapon. */
  const Warrior: CharacterClass := BaseClass.(name := "Warrior", hp := 120, str := 15, def := 0)

  lemma BaseClassStats()
    ensures BaseClass.hp == 100 && BaseClass.str == 10 && BaseClass.def == 0
    ensures BaseClass.weapon == BasicSword
  {
  }

  lemma WarriorStats()
    ensures Warrior.name == "Warrior" && Warrior.hp == 120 && Warrior.str == 15 && Warrior.def == 0
    ensures Warrior.weapon == BaseClass.weapon == BasicSword
  {
  }
}
