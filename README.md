# 3Dungeon rules in Dafny

A model of the game rules of 3Dungeon, a first-person dungeon crawler
written in JavaScript on three.js. The rendering, audio and DOM layers are
left out. What remains are the rules that decide what happens:

- **Encounter rules.** Monsters spawn on free floor tiles away from the
  start, each type picked by weighted draw and its stats scaled by level.
  Each frame a monster may spot the player, attack, wind up a boss's heavy
  blow, or move closer. Dead monsters leave loot piles and give experience.
  Touching a pile picks it up.
- **The player.** The attack cooldown and the single-target swing, the
  movement keys, the timers, and sliding collision against walls and
  monster boxes. Monster boxes are an input; the game's own frame loop
  passes no monsters, so in play only the walls block.
- **The vendor.** The `heavy_` visibility filter, costs in and out of god
  mode, buying, selling, and the guard on opening the shop.
- **Map text.** Map text becomes wall boxes, a start point and an exit box.
- **The level editor.** The editor's grid is created, painted, loaded from
  text, validated and exported.
- **Status effects.** The plague tick and the strength buff.
- **Other pieces.** The weapon damage roll, the chroma-key pass over sprite
  pixel buffers, and the constant catalogs (items, monsters, loot tables,
  character classes).

Randomness enters as explicit draws in [0, 1), one per `Math.random()` call.
Geometry uses exact reals. A distance, a dot product or a line-of-sight test
that the rules only read becomes an input. Code that the game calls but does
not define here is not invented. Its verdict becomes an input (`accepted`
for `addItem`, `created` for `createItem`), or its effect becomes a returned
event (`HitInfo`, `MonsterEvent`, `CleanupEvent`, `PickupEvent`).

In these places the model keeps behaviour of the code that a reader might not
expect:

- The spawn pass fails on a level with no eligible monster type, because it
  reads `available[0]`. The model makes a non-empty eligible list a
  precondition, rather than skipping the slot.
- A swing does 2 to 4 damage regardless of weapon or strength.
- The plague tick does not spare a god-mode player.
- A dead monster's item drop creates a `Loot` whose constructor ignores the
  item (`src/gameLogic.js:138` against `src/loot.js:4`). The pile therefore
  holds 0 gold and no item, and the item is lost. The model keeps this.

## Model

| member | source | states |
|---|---|---|
| Common.BoxAround | src/loot.js:54 | Box3.setFromCenterAndSize: the box is centred on the point and has the given size on each axis |
| Common.Intersects | src/player.js:217-227 | `Box3.intersectsBox`: boxes that share a point intersect (touching faces count) |
| Common.IntersectsSharedPoint | src/player.js:217-227 | two proper boxes intersect exactly when some point lies in both, whichever box asks |
| Common.DrawIndex | src/gameLogic.js:21 | `Math.floor(draw * n)` is a valid index below n |
| Common.DrawIndexCovers | src/gameLogic.js:21 | every index k < n is selected by the draw k/n |
| Common.TimesIsProduct | src/gameLogic.js:21 | the repeated-addition product the draws use equals `draw * n` for every whole n, negative ones included |
| Common.TimesBounds | src/gameLogic.js:21 | a draw in [0, 1) scaled by n >= 0 lies in [0, n], and below n when n > 0 |
| Common.RemoveAt | src/gameLogic.js:22 | `splice(i, 1)`: one entry fewer, entries before i unchanged, entries after i shifted down by one |
| Common.RemoveAtMultiset | src/vendor.js:70 | exactly one occurrence of the removed entry leaves the list |
| Common.RemoveAtDistinct | src/gameLogic.js:22 | removing from a list without repeats keeps it repeat-free and drops the removed entry |
| Common.RemoveAtSubset | src/gameLogic.js:22 | what is left after a removal was in the list |
| Common.Split | src/dungeon.js:5 | `split('\n')` gives at least one part, and no part holds the separator |
| Common.Join | editor/editor.js:220 | `join('\n')` of a single row is that row |
| Common.SplitJoin | editor/editor.js:202 | splitting the join of separator-free rows gives the rows back |
| Common.JoinSplit | src/dungeon.js:5 | joining the parts of a split gives the text back |
| Common.LeadingWhitespace | src/dungeon.js:5 | counts exactly the whitespace run at the head of the text |
| Common.TrailingWhitespace | src/dungeon.js:5 | counts exactly the whitespace run at the tail of the text |
| Common.Trim | src/dungeon.js:5 | `trim()` is the middle slice of the text, with no whitespace at either end and only whitespace cut off |
| Items.AsItem | src/item.js:1-7 | the `Item` part of an instance holds name, type and iconUrl exactly as given |
| Items.ArmorExtendsItem | src/item.js:9-14 | `Armor` hands name, type and iconUrl to `Item` and stores defense unchanged |
| Common.Lookup | src/itemDefinitions.js:1-33 | `ITEMS[id]` and `MONSTERS[id]` are defined exactly when id is a key, and then give that key's entry |
| Items.Templates | src/vendor.js:21 | `Object.values(ITEMS)` lists the entries in key order |
| Items.ItemKeysAreIds | src/itemDefinitions.js:2-32 | every key equals its entry's id |
| Items.ItemCatalogContents | src/itemDefinitions.js:2-32 | four entries; three torso armours of defense 5, 8 and 12; the healing potion heals 30 |
| Items.NoHeavyItemsNoPrices | src/itemDefinitions.js:1-33 | no id starts with `heavy_` and no entry has a price |
| Weapons.GetDamage | src/weapon.js:9-11 | the roll lies in [min, max] when min <= max, and min = max always rolls min |
| Weapons.GetDamageCovers | src/weapon.js:10 | every value in [min, max] is rolled by some draw in [0, 1) |
| Weapons.BasicSwordRange | src/weapon.js:14-18 | the Basic Sword is named "Basic Sword", has cooldown 0.5 and always rolls 2, 3 or 4 |
| Classes.BaseClassStats | src/classes.js:3-11 | the base class has hp 100, str 10, def 0 and a Basic Sword |
| Classes.WarriorStats | src/classes.js:13-21 | the warrior has name "Warrior", hp 120, str 15, def 0 and keeps the inherited Basic Sword |
| MonsterDefs.MonsterKeys | src/assets.js:17 | `Object.keys(MONSTERS)` lists the keys in order |
| MonsterDefs.MonsterCatalogSane | src/monsterDefinitions.js:2-27 | keys are ids, damage ranges are ordered, hp > 0, def >= 0, cooldown and speed > 0 |
| MonsterDefs.MonsterCatalogDefaults | src/monsterDefinitions.js:2-27 | no entry sets a start level, spawn weight, plague or poison chance, or the boss flag |
| LootConfig.MissingLoot | src/assets.js:18 | the filter keeps exactly the monster ids that have no loot table |
| LootConfig.LootTableSane | src/lootConfig.js:3-35 | every chance lies in [0, 1] and every gold range is ordered |
| LootConfig.LootItemsInCatalog | src/lootConfig.js:14 | every item entry is an entry of the item catalog |
| LootConfig.EveryMonsterHasLoot | src/lootConfig.js:3-35 | the table keys are exactly the monster keys, so the start-up check reports nothing |
| Chroma.Keyed | src/loot.js:24-31 | the pass keeps the length and every R, G, B byte; it zeroes exactly the alpha bytes of green-dominant pixels |
| Chroma.GreenDominant | src/monster.js:27 | a grey or white pixel is never keyed; a keyed pixel is green above the threshold; pure green is keyed under any threshold below 255 |
| Chroma.KeyedIdempotent | src/loot.js:24-31 | running the pass twice gives the same buffer as running it once |
| Chroma.PixelKeyed | src/loot.js:24-31 | on pixel p the pass keeps bytes 4p to 4p+2 and zeroes byte 4p+3 exactly when green dominates |
| Chroma.ChromaKey | src/monster.js:21-30 | the in-place loop leaves the buffer equal to `Keyed` of the old buffer |
| Monsters.MonsterSpritePosition | src/monster.js:41-42 | the sprite stands at the spawn x and z, height 0.4 |
| Monsters.Monster.constructor | src/monster.js:4-46 | a new monster carries its type's identity and combat stats, has full hp, is unalerted, is off cooldown, has no sprite yet and remembers its spawn position |
| Monsters.Monster.View | src/monster.js:3 | the view carries the monster's hp, cooldown, alert flag, sprite and boss flag |
| Monsters.Monster.OnTextureLoaded | src/monster.js:21-42 | keys the buffer at threshold 100, then places a 0.8-scale sprite at the spawn x and z, height 0.4 |
| Monsters.Monster.Remove | src/monster.js:51-53 | acts only when a sprite exists; no field changes |
| Monsters.Monster.Update | src/monster.js:48-49 | a monster's own per-frame update changes nothing |
| Loots.LootSpritePosition | src/loot.js:42-43 | the coin sprite stands at the pile's x and z, height 0.2 |
| Loots.Loot.constructor | src/loot.js:4-50 | a new pile keeps its position and amount, holds no item, is neither collected nor removed, and has its 0.5 box around the position |
| Loots.Loot.WithDefaultAmount | src/loot.js:4 | the amount defaults to 1 |
| Loots.Loot.UpdateBox | src/loot.js:52-55 | the box is the 0.5 cube around the sprite if there is one, else around the stored position |
| Loots.Loot.OnTextureLoaded | src/loot.js:12-46 | keys the buffer at threshold 150; a removed pile gets no sprite and keeps its box, any other pile gets a 0.4-scale sprite at height 0.2 and its box re-centred there |
| Loots.Loot.Remove | src/loot.js:61-66 | afterwards the pile is removed, however often it is called; the sprite is detached only when it exists |
| Loots.Loot.GetBoundingBox | src/loot.js:57-59 | returns the stored box |
| Players.KeyDirection | src/player.js:53-93 | W and ArrowUp drive forward, A and ArrowLeft left, S and ArrowDown backward, D and ArrowRight right, in both directions of the equivalence |
| Players.WithFlag | src/player.js:57-69 | sets the flag of one key and keeps the other three |
| Players.KeyDownThenUp | src/player.js:53-93 | pressing then releasing a direction key leaves the flags as if that key were released |
| Players.FirstInSwing | src/player.js:112-127 | the struck monster has a sprite, is within 2.0 and is in the 0.5 cone, and every earlier monster is not; with no such monster nothing is struck |
| Players.InSwing | src/player.js:112-122 | a monster without a sprite is never struck; a struck one is within 2.0 and inside the 0.5 cone |
| Players.SwingDamage | src/player.js:123 | the damage is 2, 3 or 4 |
| Players.SwingDamageCovers | src/player.js:123 | each of 2, 3 and 4 is rolled by some draw |
| Players.PlayerBoxAt | src/player.js:210-212 | the player's box is 0.5 x 1.8 x 0.5 around the position |
| Players.HitsObstacle | src/player.js:214-232 | when no monster has a box only the walls block; with no wall and no monster nothing blocks |
| Players.Free | src/player.js:214-232 | a free position's player box meets no wall and no monster box |
| Players.Slide | src/player.js:234-265 | height never changes; a free whole step is taken; otherwise x and z each move only if that single-axis box, tested from the old position, is free |
| Players.SlideCanEnterCorner | src/player.js:237-265 | a diagonal step past a wall corner is taken whole even though the player's box then overlaps the wall |
| Players.Player.constructor | src/player.js:6-37 | unlocked, speed 5, weapon "Basic Sword", timers 0, cooldown maximum 2.0, no key held |
| Players.Player.Flags | src/player.js:48-51 | the four move flags as the player holds them |
| Players.Player.OnLock | src/player.js:40-42 | the pointer lock sets isLocked |
| Players.Player.OnUnlock | src/player.js:44-46 | releasing the pointer lock clears isLocked |
| Players.Player.OnKeyDown | src/player.js:53-72 | sets exactly the flag of a direction key; other keys change nothing |
| Players.Player.OnKeyUp | src/player.js:74-93 | clears exactly the flag of a direction key; other keys change nothing |
| Players.Player.Attack | src/player.js:99-131 | while cooling down: no hit and nothing changes; otherwise the cooldown restarts at 2.0, the slash at 0.2, and the first monster in the swing, if any, takes 2 to 4 |
| Players.Player.Blocked | src/player.js:214-232 | the wall and monster loops report a collision exactly when the player's box there meets a wall or a monster box |
| Players.Player.Update | src/player.js:133-266 | the cooldown and slash timer fall by delta only while positive, and the slash hides once its timer runs out; the position follows Slide only while locked |
| Players.Player.SlideStep | src/player.js:234-265 | the move the update loop makes equals Slide |
| Players.Player.AddGold | src/gameLogic.js:185 | the player's gold grows by the amount |
| Players.Player.AddItem | src/gameLogic.js:176 | an accepted item is appended to the backpack; a refused one changes nothing |
| Players.FirstInSwingIs | src/player.js:112-127 | the early-exit search finds the same monster as FirstInSwing |
| Vendor.Offered | src/vendor.js:21-22 | the shop lists exactly the catalog entries that are not `heavy_` items below level 12 |
| Vendor.Hidden | src/vendor.js:22 | an item is held back exactly when its id starts with `heavy_` and the level is below 12 |
| Vendor.AllOfferedFromTwelve | src/vendor.js:22 | from level 12 on, the whole catalog is offered in key order |
| Vendor.ShopOffersWholeCatalog | src/vendor.js:21-22 | the shipped catalog is offered whole at every level |
| Vendor.OfferedWithoutHidden | src/vendor.js:21-22 | a catalog without hidden entries is offered whole |
| Vendor.Cost | src/vendor.js:26 | the cost is 0 in god mode and the item's price otherwise |
| Vendor.Affordable | src/vendor.js:34-37 | an undefined cost is never affordable, and paying an affordable cost leaves gold at 0 or more |
| Vendor.Purchase | src/vendor.js:34-49 | a purchase succeeds exactly when gold covers the cost, the item was created and the backpack took it; gold never goes negative; each failure branch is named |
| Vendor.CatalogNotForSaleOutsideGodMode | src/vendor.js:26-34 | outside god mode no shipped item can be bought, since none has a price |
| Vendor.GodModeBuysFree | src/vendor.js:26-37 | in god mode every purchase costs 0 |
| Vendor.Buy | src/vendor.js:32-50 | gold is debited by the cost and the item added only on success; on every other branch gold and backpack are unchanged |
| Vendor.SellPrice | src/vendor.js:61 | the sell price is half the price, rounded down |
| Vendor.Sell | src/vendor.js:67-75 | credits half the price rounded down and removes exactly the chosen entry, the others keeping their order |
| Vendor.OpenVendor | src/vendor.js:83-89 | a dead player cannot open the shop; otherwise the pointer lock is released |
| Statuses.StatusCatalog | src/statusDefinitions.js:1-41 | plague is a debuff lasting 120 with tick interval 10; strength is a buff lasting 60 with no tick, only apply and remove hooks |
| Statuses.PlagueDamage | src/statusDefinitions.js:11 | the damage is 2% of hp rounded up, i.e. hp/50 rounded up |
| Statuses.AfterPlague | src/statusDefinitions.js:12 | hp after a tick is never below 0 |
| Statuses.PlagueBounds | src/statusDefinitions.js:11-12 | on a living player a tick takes at least 1 and at most all of the hp |
| Statuses.PlagueOnDead | src/statusDefinitions.js:12 | a player at 0 hp or below ends the tick at exactly 0 |
| Statuses.PlagueKillsOnlyAtOne | src/statusDefinitions.js:11-12 | a single tick kills exactly the players with at most 1 hp |
| Statuses.PlagueTick | src/statusDefinitions.js:10-20 | hp changes with or without a logger; the damage line is logged, then the succumbed line only when hp reached 0 |
| Statuses.StrengthApplied | src/statusDefinitions.js:29-31 | applying the buff raises str by exactly the 5 its description advertises |
| Statuses.StrengthRemoved | src/statusDefinitions.js:29-36 | removing the buff lowers str by exactly those 5 again |
| Statuses.StrengthRoundTrip | src/statusDefinitions.js:30-39 | apply then remove, in either order, leaves str as it was |
| Statuses.StrengthApply | src/statusDefinitions.js:30-34 | onApply adds the buff's str and logs the surge line when a logger is given |
| Statuses.StrengthRemove | src/statusDefinitions.js:35-39 | onRemove takes the buff's str away and logs the fade line when a logger is given |
| Dungeons.RowCells | src/dungeon.js:24 | the scan of a row visits one cell per character |
| Dungeons.RowCellsAt | src/dungeon.js:24 | cell j of a row scan is column j of that row |
| Dungeons.Cells | src/dungeon.js:23-24 | every scanned cell is a real map position holding its character |
| Dungeons.CellsComplete | src/dungeon.js:23-24 | every map position is scanned |
| Dungeons.CellsRowMajor | src/dungeon.js:23-24 | the scan runs in row-major order |
| Dungeons.WallBox | src/dungeon.js:19 | a wall at (x, z) fills [x-0.5, x+0.5] x [0, 2] x [z-0.5, z+0.5] |
| Dungeons.ExitBox | src/dungeon.js:56-57 | the exit trigger is 0.8 x 2 x 0.8 around (x, 1, z) |
| Dungeons.CountChar | src/dungeon.js:37 | a count of characters never exceeds the cells scanned |
| Dungeons.WallsFrom | src/dungeon.js:37-45 | one wall box per `*` cell |
| Dungeons.WallsAreStarCells | src/dungeon.js:37-45 | every wall box belongs to a `*` cell, and every `*` cell has its box among the walls |
| Dungeons.LastWith | src/dungeon.js:46-58 | finds the last scanned cell holding a character, or reports that none does |
| Dungeons.ScanStep | src/dungeon.js:37-58 | one more cell adds a wall for `*`, moves the start for `X`, and moves the exit for `O` |
| Dungeons.StarsInRow | src/dungeon.js:37 | a row has at most as many `*` as characters |
| Dungeons.CountCharAppend | src/dungeon.js:23-24 | counts add up over consecutive rows |
| Dungeons.RowStars | src/dungeon.js:24 | the scan of a row meets as many `*` as the row holds |
| Dungeons.WallCount | src/dungeon.js:37-45 | there are as many wall boxes as `*` characters in the map |
| Dungeons.StarsOfCells | src/dungeon.js:23-45 | the scanned cells hold as many `*` as the rows |
| Dungeons.MapRows | src/dungeon.js:5 | the rows hold no line break and, joined by newlines, give the trimmed text |
| Dungeons.Dungeon.constructor | src/dungeon.js:4-10 | rows come from the trimmed, split text; walls, start and exit are what the scan leaves, starting from no walls, the origin and no exit |
| Dungeons.Dungeon.Generate | src/dungeon.js:12-62 | walls gain one box per `*` in scan order; the start is the last `X` and the exit the last `O`, or unchanged where there is none |
| Dungeons.Dungeon.ScanRow | src/dungeon.js:24-60 | scanning one row extends the result of the earlier rows by that row's cells |
| Dungeons.Dungeon.ScanCell | src/dungeon.js:37-58 | one cell extends walls, start and exit as the scan of the cells before it plus this one says |
| Dungeons.Dungeon.GetStartPosition | src/dungeon.js:68-70 | returns the stored start |
| Dungeons.Dungeon.GetWalls | src/dungeon.js:72-74 | returns the stored walls |
| Dungeons.Dungeon.GetExit | src/dungeon.js:76-78 | returns the stored exit, undefined when the map has no `O` |
| Dungeons.FreshWallCount | src/dungeon.js:37-45 | a new level has one wall box per `*` of its rows |
| Dungeons.FreshStartAndExit | src/dungeon.js:7-58 | a new level has an exit exactly when its map has an `O`; without an `X` the start is the origin, and with one it stands at the last `X` in scan order, which is an `X` of the map |
| Editor.EmptyMap | editor/editor.js:46-59 | h rows of w cells: `*` on the first and last row and column, ' ' inside |
| Editor.KindOf | editor/editor.js:171-181 | each of `*`, `-`, `X`, `O`, `B`, `0` shows as its own type, any other character as floor |
| Editor.KindTableInverse | editor/editor.js:171-181 | the type table is one-to-one on the characters it names |
| Editor.CellText | editor/editor.js:169 | a cell shows nothing for ' ' and its character otherwise |
| Editor.NonEmpty | editor/editor.js:202 | the filter keeps exactly the non-empty lines |
| Editor.MaxLen | editor/editor.js:206 | the width is the length of the longest line |
| Editor.PadEnd | editor/editor.js:209 | `padEnd` keeps the line and fills with spaces up to the width |
| Editor.PadAll | editor/editor.js:208-210 | every row is its line padded to the width |
| Editor.Parse | editor/editor.js:201-210 | a text without non-empty lines loads nothing; otherwise row y is the y-th non-empty line, the width is the longest line's length, and each row is its line padded with spaces to that width (so the grid is rectangular and at least 1 x 1) |
| Editor.Serialize | editor/editor.js:220 | a one-row grid exports as that row |
| Editor.NonEmptyKeepsAll | editor/editor.js:202 | a list of non-empty lines passes the filter unchanged |
| Editor.MaxLenOfRectangular | editor/editor.js:206 | the longest row of a w-wide grid is w long |
| Editor.SerializeParse | editor/editor.js:201-220 | exporting a grid and loading the text back restores the grid, its width and its height |
| Editor.PadAllRectangular | editor/editor.js:208-210 | padding a w-wide grid to w changes nothing |
| Editor.Exportable | editor/editor.js:268-294 | a map without a start never passes; one with a start and an exit always passes; one with a start but no exit passes exactly when the user confirms |
| Editor.EmptyMapInvalid | editor/editor.js:268-284 | a new map has no start, so it cannot be exported |
| Editor.TileCount | editor/editor.js:299 | the tile count width x height is the number of cells |
| Editor.LeadingNumber | editor/editor.js:147 | `parseInt` of the leading digits never goes below the value read so far |
| Editor.DigitRun | editor/editor.js:147 | the length of the run of decimal digits `parseInt` reads: every character before it is a digit and the next one is not |
| Editor.DecimalCons | editor/editor.js:147 | in a decimal numeral the first digit is worth itself times ten to the number of digits after it |
| Editor.LeadingNumberValue | editor/editor.js:147 | `parseInt` of a key gives the decimal value of its leading digit run (a one-digit key gives that digit), and a prefix read so far is shifted left by the run's length |
| Editor.HotkeyIndex | editor/editor.js:145-147 | a palette index is chosen only for keys from "1" to "7" in string order |
| Editor.HotkeyDigits | editor/editor.js:145-147 | a single-character key picks index d - 1 exactly when it is a digit d from 1 to 7 |
| Editor.DungeonEditor.constructor | editor/editor.js:2-33 | a new editor has a 20 x 20 bordered map, selects walls and is not drawing |
| Editor.DungeonEditor.CreateEmptyMap | editor/editor.js:46-62 | the fill and border loops leave exactly EmptyMap(w, h) with the new size |
| Editor.DungeonEditor.NewMap | editor/editor.js:107-116 | a new map is made exactly when both parsed sizes are positive; otherwise nothing changes |
| Editor.DungeonEditor.SelectTool | editor/editor.js:66-71 | a palette click selects that tool's character |
| Editor.DungeonEditor.PaintCell | editor/editor.js:160-166 | exactly cell [y][x] takes the selected character; the cell shows its text and type |
| Editor.DungeonEditor.OnMouseDown | editor/editor.js:75-80 | starts drawing and paints the cell |
| Editor.DungeonEditor.OnMouseUp | editor/editor.js:82-84 | stops drawing |
| Editor.DungeonEditor.OnMouseOver | editor/editor.js:86-96 | paints the cell only while drawing |
| Editor.DungeonEditor.LoadMapData | editor/editor.js:201-215 | a text without a non-empty line changes nothing; otherwise width, height and grid are those Parse gives: one row per non-empty line, padded with spaces to the longest |
| Editor.DungeonEditor.ValidateMap | editor/editor.js:268-295 | false without an `X`; without an `O` or `0`, the user's answer decides; true otherwise |
| Editor.DungeonEditor.ExportMap | editor/editor.js:217-229 | nothing when validation fails; otherwise the rows joined by '\n', written to `level_<floor>.txt` |
| Editor.DungeonEditor.SaveToProject | editor/editor.js:231-250 | nothing when validation fails or no floor is given; otherwise the floor and the joined rows are posted |
| Editor.DungeonEditor.Stats | editor/editor.js:297-300 | the size label is width x height, and the tile count is the number of cells |
| Editor.DungeonEditor.OnHotkey | editor/editor.js:143-157 | Ctrl/Meta with "1".."7" selects that palette tool when it exists; Ctrl/Meta+s exports |
| Editor.EmptyMapEquals | editor/editor.js:52-59 | the grid the border loops build is EmptyMap |
| Editor.NoBreaksInEmptyMap | editor/editor.js:49-59 | a new map holds no line break |
| Editor.LoadedHasNoBreaks | editor/editor.js:202-210 | a loaded grid holds no line break |
| GameLogic.SpawnPosition | src/gameLogic.js:23 | a monster is placed at (spot.x, 0, spot.z) |
| GameLogic.ValidSpaces | src/gameLogic.js:15-18 | the filter keeps exactly the spots at distance 3 or more from the start |
| GameLogic.FarFromStart | src/gameLogic.js:15-17 | a spot on the start position itself is never far enough |
| GameLogic.FarFromStartIsDistance | src/gameLogic.js:15-17 | comparing squares is the source's `Math.sqrt(...) >= 3`: for the non-negative root of the squared distance, the spot is far exactly when that root is at least 3 |
| GameLogic.StartLevel | src/gameLogic.js:26 | `startLevel \|\| 1`: an unset or zero start level reads as 1 |
| GameLogic.Weight | src/gameLogic.js:27 | `spawnWeight ?? 1` |
| GameLogic.Eligible | src/gameLogic.js:25-27 | the eligible list is no longer than the catalog |
| GameLogic.EligibleMembers | src/gameLogic.js:25-27 | a type is offered exactly when its start level is reached and its weight is not 0 |
| GameLogic.EligibleShipped | src/gameLogic.js:25-27 | both shipped types are eligible with weight 1 from level 1 on, and none before |
| GameLogic.PickFrom | src/gameLogic.js:33-39 | the scan picks an index within the list |
| GameLogic.WeightedChoice | src/gameLogic.js:31-39 | the picked type is one of the eligible types |
| GameLogic.PickIsSlice | src/gameLogic.js:29-39 | with positive weights, the scan picks the entry whose slice of the cumulative weights holds the draw |
| GameLogic.PrefixIsTotal | src/gameLogic.js:29 | the cumulative weight of the whole list is the total weight |
| GameLogic.TotalWeight | src/gameLogic.js:29 | with no negative weight the total is not negative; with positive weights it is at least the number of candidates |
| GameLogic.WeightedDraw | src/gameLogic.js:29-30 | `Math.random() * totalWeight` lies in [0, total], and strictly below a positive total |
| GameLogic.PrefixShift | src/gameLogic.js:29 | cumulative weights shift by the first weight when the list loses its head |
| GameLogic.PickInRange | src/gameLogic.js:30-39 | a draw below the total weight never runs off the end of the scan |
| GameLogic.PickType | src/gameLogic.js:29-39 | the subtract-and-compare loop returns WeightedChoice of the scaled draw |
| GameLogic.Capped | src/gameLogic.js:13-20 | the loop runs min(1 + levelIndex, valid spots) times, and not at all for a non-positive count |
| GameLogic.Remaining | src/gameLogic.js:20-22 | each pick removes one free spot |
| GameLogic.RemainingShrinks | src/gameLogic.js:22 | a spot free after later picks was free after earlier ones |
| GameLogic.RemainingDistinct | src/gameLogic.js:22 | the free spots never repeat when the offered spots do not |
| GameLogic.SpotAtIsOffered | src/gameLogic.js:21-22 | every pick is one of the offered spots |
| GameLogic.SpotsAreFar | src/gameLogic.js:15-22 | every regular monster stands on an empty tile at least 3 from the start |
| GameLogic.SpotsDistinct | src/gameLogic.js:20-22 | no two picks share a spot: placement is without replacement |
| GameLogic.ValidSpacesDistinct | src/gameLogic.js:15-18 | the distance filter keeps a repeat-free list repeat-free |
| GameLogic.Scaled | src/gameLogic.js:44-48 | max hp +20 per level above 1 with hp refilled to it; min damage +2 and max damage +3 per level above 1 |
| GameLogic.ScaledKeepsOrder | src/gameLogic.js:45-48 | scaling keeps an ordered damage range ordered and hp positive from level 1 on |
| GameLogic.MonstersHaveDistinctKeys | src/monsterDefinitions.js:1-28 | the catalog keys are unique |
| GameLogic.EligibleIdsAreKeys | src/gameLogic.js:25-44 | every picked type is a catalog key |
| GameLogic.SpawnDefEligible | src/gameLogic.js:25-44 | whatever the draw, the spawned type may spawn at the level |
| GameLogic.SpawnDef | src/gameLogic.js:25-44 | whatever the draw, the spawned type's record is an entry of the catalog |
| GameLogic.SpawnOne | src/gameLogic.js:23-48 | one regular monster: the picked type at the spot, scaled by level |
| GameLogic.World.constructor | src/gameLogic.js:8 | the level starts with no monsters and no piles |
| GameLogic.World.SpawnMonsters | src/gameLogic.js:8-55 | without a boss point, Capped(1 + levelIndex, valid spots) monsters are appended, each on its pick and of its drawn type; with one, a single boss of type `skeletal_boss`, carrying that record's stats, is appended on level 11 and nothing elsewhere |
| GameLogic.World.SpawnRegular | src/gameLogic.js:13-50 | the j-th new monster stands on the j-th pick and has the j-th drawn type, scaled |
| GameLogic.World.SpawnNext | src/gameLogic.js:21-49 | one loop turn takes one spot out of the free ones and appends its monster |
| GameLogic.HeavyDamage | src/gameLogic.js:80 | the heavy blow deals floor(2.5 x base) |
| GameLogic.Fires | src/gameLogic.js:110-114 | an unset chance never fires; for a draw in [0, 1) the roll fires exactly when it is below the chance, so the zero test only short-circuits the draw |
| GameLogic.ResolveHeavy | src/gameLogic.js:77-91 | a triggered boss always clears the trigger and restarts its cooldown, and hits exactly when closer than 1.5 |
| GameLogic.Melee | src/gameLogic.js:95-123 | moves exactly when 1.0 or more away; hits exactly when within reach, off cooldown and not rolling a boss wind-up; a hit restarts the cooldown and may infect or poison by the type's chances |
| GameLogic.Behave | src/gameLogic.js:63-126 | the spotted flag only goes from false to true, and only with a sprite, sight and distance below 10; an unalerted monster does nothing; only the alert, trigger and cooldown fields change |
| GameLogic.Engage | src/gameLogic.js:76-124 | an alerted monster's turn changes only the trigger flag (never setting it) and the cooldown (kept or restarted); while preparing a heavy blow it is just the heavy-blow step |
| GameLogic.OneBlowPerFrame | src/gameLogic.js:77-118 | with a positive cooldown a monster never lands both a heavy blow and a normal hit in one frame |
| GameLogic.MovesIffOutOfReach | src/gameLogic.js:93-122 | an alerted monster that is not winding up moves exactly when 1.0 or more away |
| GameLogic.ShippedMonstersCarryNoStatus | src/gameLogic.js:109-117 | no shipped type can infect or poison |
| GameLogic.MonsterTurn | src/gameLogic.js:63-125 | one monster's turn, in place, equals Behave with its catalog entry |
| GameLogic.EngageStep | src/gameLogic.js:76-124 | the alerted monster's turn, in place, equals Engage with its catalog entry |
| GameLogic.HeavyStep | src/gameLogic.js:77-91 | the heavy-blow step, in place, equals ResolveHeavy |
| GameLogic.MeleeStep | src/gameLogic.js:95-123 | the close-combat step, in place, equals Melee |
| GameLogic.World.HandleMonsterBehavior | src/gameLogic.js:62-127 | every monster in the list takes its own turn as Behave says |
| GameLogic.DropPiles | src/gameLogic.js:134-141 | one pile per drop at the monster's position, holding the gold amount, or 0 for an item |
| GameLogic.DeathLog | src/gameLogic.js:139-151 | a death grants 500 XP for a boss and 25 otherwise; the victory line appears exactly for a boss; one line per item drop |
| GameLogic.ItemCount | src/gameLogic.js:137 | at most one item line per drop |
| GameLogic.Survivors | src/gameLogic.js:130-155 | the kept list is no longer than the old one |
| GameLogic.SurvivorsAreTheLiving | src/gameLogic.js:131-154 | a monster stays exactly when it was in the list with hp above 0 |
| GameLogic.DeadFlags | src/gameLogic.js:131 | flags exactly the monsters whose hp is at or below 0 |
| GameLogic.SurvivorsIsKept | src/gameLogic.js:130-155 | the survivors are the monster list with exactly the dead spliced out, so with KeptMembers and KeptInOrder the living stay, in their old order |
| GameLogic.CleanupSplice | src/gameLogic.js:153-154 | one backwards step of the loop keeps the processed tail filtered |
| GameLogic.CleanupLogCountsDeaths | src/gameLogic.js:143 | the cleanup grants 500 XP per dead boss and 25 per other dead monster |
| GameLogic.DropPlan | src/gameLogic.js:130-141 | a dead monster at the current index contributes at least one pile per drop it rolled |
| GameLogic.CleanupLog | src/gameLogic.js:130-151 | a dead monster at the current index logs the experience it grants: 500 for a boss, 25 otherwise |
| GameLogic.NoDeathsNoCleanup | src/gameLogic.js:130-155 | without a dead monster the cleanup drops no pile and logs nothing |
| GameLogic.DeathLogXp | src/gameLogic.js:143 | one death grants exactly its XP once |
| GameLogic.XpOfAppend | src/gameLogic.js:143 | XP adds up over consecutive logs |
| GameLogic.DroppedSnoc | src/gameLogic.js:136 | appending a new pile extends the dropped piles by one |
| GameLogic.DroppedConcat | src/gameLogic.js:134-141 | the piles of consecutive deaths add up |
| GameLogic.World.DropLoot | src/gameLogic.js:134-141 | appends one new pile per drop, in drop order, at the monster's position |
| GameLogic.World.CleanupMonstersAndDropLoot | src/gameLogic.js:129-157 | the list becomes the survivors in order; new piles and the log are those of the dead, from the last monster back |
| GameLogic.World.CleanupStep | src/gameLogic.js:131-154 | one loop turn: a dead monster drops its piles, logs its death and leaves the list; a living one changes nothing |
| GameLogic.CleanupAccounts | src/gameLogic.js:130-155 | one loop turn on the piles and the log: a dead monster's piles and death lines follow those of the monsters after it; a living one adds nothing |
| GameLogic.VisitPileMeans | src/gameLogic.js:166-189 | a touched gold pile is always taken and credited; an item is taken only with room and addItem's consent; a full backpack is reported only after 3000 ms |
| GameLogic.VisitPile | src/gameLogic.js:166-189 | a pile leaves the list exactly when it is touched and is gold, or is an item the backpack has room for and addItem accepts; at most one line is logged per pile |
| GameLogic.Collect | src/gameLogic.js:165-191 | the pass records a verdict for every pile it visits |
| GameLogic.Kept | src/gameLogic.js:180-188 | the kept piles are no more than before |
| GameLogic.Untaken | src/gameLogic.js:165-188 | counts the entries that are not spliced out |
| GameLogic.UntakenAppend | src/gameLogic.js:165-188 | the count of a concatenation is the sum of the counts |
| GameLogic.KeptMembers | src/gameLogic.js:165-188 | an entry stays exactly when it is in the list and is not spliced out |
| GameLogic.KeptLength | src/gameLogic.js:165-188 | as many entries stay as are not spliced out |
| GameLogic.KeptAt | src/gameLogic.js:165-188 | an entry that stays lands after exactly the staying entries that preceded it |
| GameLogic.KeptInOrder | src/gameLogic.js:165-188 | of two entries that stay, the earlier one comes first: the splices keep the relative order |
| GameLogic.CollectAllGold | src/gameLogic.js:183-188 | all the gold of touched piles is credited, whatever the backpack holds |
| GameLogic.CollectRespectsCapacity | src/gameLogic.js:168-176 | the backpack never grows past its capacity |
| GameLogic.CollectTakesTouched | src/gameLogic.js:166-188 | only touched piles leave the list, and every touched gold pile does |
| GameLogic.OneNoticePerFrame | src/gameLogic.js:168-173 | one frame reports a full backpack at most once, and then records the current time |
| GameLogic.NoticeCountAppend | src/gameLogic.js:171 | report counts add up over consecutive logs |
| GameLogic.CollectUntouched | src/gameLogic.js:166 | out of reach of every pile, nothing changes |
| GameLogic.KeptAll | src/gameLogic.js:165-191 | with nothing taken, every pile stays |
| GameLogic.KeptSplice | src/gameLogic.js:180-188 | one backwards step of the loop keeps the processed tail filtered |
| GameLogic.PileOf | src/gameLogic.js:160-166 | a pile is touched exactly when its box meets the player's 0.5 x 1.8 x 0.5 box |
| GameLogic.Piles | src/gameLogic.js:165-166 | one view per pile, in list order |
| GameLogic.MarksStep | src/gameLogic.js:179-187 | taking one more pile marks exactly that pile removed |
| GameLogic.World.HandleLootCollection | src/gameLogic.js:159-192 | gold, backpack, log and notice time are those Collect gives; the list keeps exactly the piles not taken; the taken piles are marked removed |
| GameLogic.World.CollectAll | src/gameLogic.js:165-191 | the loop from the last pile back to the first ends with the purse, log, remaining list and removed flags of Collect from index 0 |
| GameLogic.World.Advance | src/gameLogic.js:165-190 | one turn moves the loop's account from Collect at k to Collect at k - 1: list, purse, log and removed flags |
| GameLogic.World.CollectStep | src/gameLogic.js:166-189 | one loop turn follows the source's branches, as VisitPile says |

## Left out

- Rendering, textures, meshes, the camera, the pointer-lock control, audio,
  DOM building, tooltips and the log text. Log lines become event values.
  `src/main.js`, `src/ui.js`, `src/scene.js`, `src/audio.js` and
  `vite.config.js` are not part of this model.
- `Math.random()` becomes explicit draws in [0, 1). The cosmetic slash
  rotation draw is dropped.
- Floating point becomes exact reals. `Math.ceil(hp * 0.02)` is modelled as
  hp/50 rounded up; IEEE rounding of `0.02` is not captured.
- Distances, dot products and line of sight are inputs (`Sense`,
  `SwingTarget`), not computed from vectors.
- Players.Player.Update: the velocity damping is left out, because its
  result never reaches the position. The per-frame step along the camera's
  facing is an input, zero when the held keys cancel out.
- The following are called but not defined in the model's source files, so
  they are not modelled:
  - `takeDamage`, `addXP`, `applyStatus`, `hasLineOfSight`, `moveTowards`,
    `getLoot`, `getAttackDamage`, `startPowerfulAttack`,
    `playAttackAnimation`, `createItem`, `getBossSpawnPoint`,
    `getEmptySpaces`, `getBossExitMesh`, `_hideTooltip`,
    `_playScratchSound`, `updateUI`, and the monster's `getBoundingBox`.
  - The monster's `getBoundingBox` is called by the player's collision
    test (`src/player.js:226`, `:244`, `:258`), but `src/monster.js` defines
    no such method, so any monster passed to `update` would throw a
    TypeError. The game's frame loop calls `player.update(delta)` with no
    monsters (`src/main.js:89`), so the monster half of the collision rule
    never runs in the game. The model makes the monster boxes the
    `monsterBoxes` input of Players.HitsObstacle, Players.Free,
    Players.Slide, Players.Player.Blocked and Players.Player.Update.
  - Their inputs become parameters and their effects become returned events.
  - Monster movement (`moveTowards`) is a `MoveToward` event.
  - The boss wind-up timer that sets `triggerPowerfulAttack` is not
    modelled.
- Players.Player.AddGold and Players.Player.AddItem are stand-ins: they
  carry only the behaviour their call sites rely on, and addItem's verdict
  is the `accepted` input.
- Monsters.Monster.constructor is a stand-in. The monster constructor in the
  source takes no type and sets no combat field. The model fills those
  fields from the catalog record of the requested type, which for the boss
  is a parameter (`skeletal_boss` has no catalog entry).
- GameLogic.World.SpawnMonsters models the spawn as its call sites expect
  it, on top of that stand-in, and does not capture what the source does as
  written. As written, a regular monster has no `maxHp` or `attackDamage`:
  `maxHp` and `hp` become NaN (`src/gameLogic.js:45-46`) and reading
  `attackDamage.min` throws a TypeError (`src/gameLogic.js:47`), so no
  regular monster is ever pushed. The boss pushed at `src/gameLogic.js:52`
  has no `hp` and no `isBoss`, so the cleanup's `hp <= 0` test
  (`src/gameLogic.js:131`) never holds for it and its heavy blow
  (`src/gameLogic.js:77`) never fires.
- Editor.LeadingNumber states on its own only that reading more digits
  never lowers the value. The decimal value `parseInt` gives is stated by
  Editor.LeadingNumberValue.
- Editor.Parse and Editor.DungeonEditor.LoadMapData count characters as
  Unicode scalar values. The source's `length`, `padEnd` and `split('')`
  (`editor/editor.js:206-209`) count UTF-16 code units, so a line holding a
  character outside the Basic Multilingual Plane (an emoji, say) is one
  character wider there and splits into two cells. The dungeon's own
  `[...row]` walks code points and agrees with the model.
- Monsters.Monster.OnTextureLoaded and Loots.Loot.OnTextureLoaded are
  separate calls. The asynchronous texture load that triggers them is not
  modelled.
- `Date.now()` is the `now` input. The caller's `lastInvFullMsgTimeRef`
  cell is the `lastNotice` input and the `notice` output.
- GameLogic.World.HandleLootCollection and
  GameLogic.World.HandleMonsterBehavior require that the list holds each
  object once. Aliasing, the same object twice in the list, is not modelled.
- GameLogic.World.CleanupMonstersAndDropLoot requires every dead monster to
  have a sprite. The source reads `sprite.position` and would fail without
  one.
- GameLogic.World.CleanupMonstersAndDropLoot: the level-up log line, which
  depends on addXP's result, is not modelled.
- The poison branch of GameLogic.Melee applies `STATUSES.poison`, which
  `src/statusDefinitions.js` does not define. The model records only a
  `Poisoned` event, and no shipped monster type can poison.
- The spawn log lines (`src/gameLogic.js:41-42, 54, 57-58`) are left out.
- Vendor.Sell: the price of an inventory item is an input, because items get
  their price from `createItem`. Empty inventory slots (`if (!item)`) do not
  occur in the model.
- Vendor rendering and `closeVendor` are left out.
- The editor's DOM: rendering, status messages and their timeout, the
  hostname check, and the mouse-position label.
- The editor's file I/O: FileReader, the Blob download and the `fetch` to
  the dev server. `confirm` is a boolean input, the floor-number field a
  string input, and `parseInt` of the size fields an optional integer.
- The asset HEAD checks of `src/assets.js` are left out. Its missing-loot
  check is LootConfig.MissingLoot.
- The level-file lookup of `src/main.js` is left out.
