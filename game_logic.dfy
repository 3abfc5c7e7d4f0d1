/** The encounter rules of a level (src/gameLogic.js): spawning monsters,
    the per-frame monster behaviour, clearing out dead monsters with their
    drops, and picking up loot. */
module GameLogic {
  import opened Common
  import opened Items
  import opened MonsterDefs
  import opened Monsters
  import opened Loots
  import opened Players

  // ---------------------------------------------------------------------
  // Spawning
  // ---------------------------------------------------------------------

  /** An empty floor tile the level offers as a spawn spot. */
  datatype Spot = Spot(x: int, z: int)

  /** `new THREE.Vector3(spot.x, 0, spot.z)`. */
  function SpawnPosition(s: Spot): (p: Vec3)
    ensures p.x == s.x as real && p.y == 0.0 && p.z == s.z as real
  {
    Vec3(s.x as real, 0.0, s.z as real)
  }

  /** At least 3 tiles from the start position, by Euclidean distance. */
  function FarFromStart(s: Spot, start: Vec3): (far: bool)
    ensures far ==> s.x as real != start.x || s.z as real != start.z
  {
    var dx := s.x as real - start.x;
    var dz := s.z as real - start.z;
    dx * dx + dz * dz >= 9.0
  }

  /** The squared comparison is the source's: for the non-negative `dist`
      whose square is the squared distance (`Math.sqrt`), the spot is far
      exactly when `dist >= 3`. */
  lemma FarFromStartIsDistance(s: Spot, start: Vec3, dist: real)
    requires dist >= 0.0
    requires dist * dist == (s.x as real - start.x) * (s.x as real - start.x) +
                            (s.z as real - start.z) * (s.z as real - start.z)
    ensures FarFromStart(s, start) <==> dist >= 3.0
  {
    if dist >= 3.0 {
      assert dist * dist >= 3.0 * dist;
    } else {
      assert dist * dist <= 3.0 * dist;
    }
  }

  /** The spots far enough from the start, in their order. */
  function ValidSpaces(spaces: seq<Spot>, start: Vec3): (r: seq<Spot>)
    ensures forall s :: s in r <==> s in spaces && FarFromStart(s, start)
  {
    if |spaces| == 0 then []
    else
      var rest := ValidSpaces(spaces[1..], start);
      assert spaces == [spaces[0]] + spaces[1..];
      if FarFromStart(spaces[0], start) then [spaces[0]] + rest else rest
  }

  /** A monster type the spawn may pick, with its weight. */
  datatype Candidate = Candidate(id: string, weight: int)

  /** `config.startLevel || 1`: an unset (or zero) start level reads as 1. */
  function StartLevel(d: MonsterDef): (l: int)
    ensures d.startLevel.Some? && d.startLevel.value != 0 ==> l == d.startLevel.value
    ensures d.startLevel.None? || d.startLevel.value == 0 ==> l == 1
  {
    if d.startLevel.Some? && d.startLevel.value != 0 then d.startLevel.value else 1
  }

  /** `config.spawnWeight ?? 1`. */
  function Weight(d: MonsterDef): (w: int)
    ensures d.spawnWeight.Some? ==> w == d.spawnWeight.value
    ensures d.spawnWeight.None? ==> w == 1
  {
    if d.spawnWeight.Some? then d.spawnWeight.value else 1
  }

  predicate CanSpawn(d: MonsterDef, levelIndex: int)
  {
    levelIndex >= StartLevel(d) && d.spawnWeight != Some(0)
  }

  /** The catalog entries a level may spawn, in key order, with weights. */
  function Eligible(catalog: seq<(string, MonsterDef)>, levelIndex: int): (r: seq<Candidate>)
    ensures |r| <= |catalog|
  {
    if |catalog| == 0 then []
    else
      var rest := Eligible(catalog[1..], levelIndex);
      var d := catalog[0].1;
      if CanSpawn(d, levelIndex) then [Candidate(catalog[0].0, Weight(d))] + rest else rest
  }

  /** A candidate is offered exactly when some catalog entry it stands for
      may spawn at the level. */
  lemma {:induction false} EligibleMembers(catalog: seq<(string, MonsterDef)>, levelIndex: int, c: Candidate)
    ensures c in Eligible(catalog, levelIndex) <==>
            exists k :: 0 <= k < |catalog| && CanSpawn(catalog[k].1, levelIndex) &&
                        c == Candidate(catalog[k].0, Weight(catalog[k].1))
  {
    if |catalog| > 0 {
      EligibleMembers(catalog[1..], levelIndex, c);
      assert forall k :: 1 <= k < |catalog| ==> catalog[k] == catalog[1..][k - 1];
      if c in Eligible(catalog[1..], levelIndex) {
        var k :| 0 <= k < |catalog[1..]| && CanSpawn(catalog[1..][k].1, levelIndex) &&
                 c == Candidate(catalog[1..][k].0, Weight(catalog[1..][k].1));
        assert catalog[k + 1] == catalog[1..][k];
      }
    }
  }

  /** Both catalog types, each of weight 1, are eligible from level 1 on, and
      none before. */
  lemma EligibleShipped(levelIndex: int)
    ensures levelIndex >= 1 ==> Eligible(MONSTERS, levelIndex) == [Candidate("shadow", 1), Candidate("skeleton", 1)]
    ensures levelIndex < 1 ==> Eligible(MONSTERS, levelIndex) == []
  {
    assert MONSTERS[1..][1..] == [];
  }

  function TotalWeight(avail: seq<Candidate>): (t: int)
    ensures (forall k :: 0 <= k < |avail| ==> avail[k].weight >= 0) ==> t >= 0
    ensures (forall k :: 0 <= k < |avail| ==> avail[k].weight > 0) ==> t >= |avail|
  {
    if |avail| == 0 then 0 else avail[0].weight + TotalWeight(avail[1..])
  }

  /** The weights of the first k candidates. */
  function PrefixWeight(avail: seq<Candidate>, k: nat): (t: int)
    requires k <= |avail|
  {
    if k == 0 then 0 else PrefixWeight(avail, k - 1) + avail[k - 1].weight
  }

  /** The subtract-and-compare scan from candidate i on, with `random`
      what is left of the draw: the index of the first candidate whose weight
      exceeds what is left, if any. */
  function PickFrom(avail: seq<Candidate>, i: nat, random: real): (r: Option<nat>)
    requires i <= |avail|
    ensures r.Some? ==> i <= r.value < |avail|
    decreases |avail| - i
  {
    if i == |avail| then None
    else if random < avail[i].weight as real then Some(i)
    else PickFrom(avail, i + 1, random - avail[i].weight as real)
  }

  /** `Math.random() * totalWeight`. */
  function WeightedDraw(draw: real, avail: seq<Candidate>): (r: real)
    ensures IsDraw(draw) && TotalWeight(avail) >= 0 ==> 0.0 <= r <= TotalWeight(avail) as real
    ensures IsDraw(draw) && TotalWeight(avail) > 0 ==> r < TotalWeight(avail) as real
  {
    var t := TotalWeight(avail);
    if IsDraw(draw) && t >= 0 then
      TimesBounds(draw, t);
      Times(draw, t)
    else Times(draw, t)
  }

  /** The picked type: the candidate PickFrom selects, or the first one when
      the scan runs off the end. */
  function WeightedChoice(avail: seq<Candidate>, random: real): (id: string)
    requires |avail| > 0
    ensures exists k :: 0 <= k < |avail| && id == avail[k].id
  {
    var r := PickFrom(avail, 0, random);
    if r.Some? then avail[r.value].id else avail[0].id
  }

  /** With positive weights and a draw in [0, total), the scan picks the
      candidate whose slice of the cumulative weights holds the draw: index k
      exactly when PrefixWeight(k) <= random < PrefixWeight(k + 1). */
  lemma {:induction false} PickIsSlice(avail: seq<Candidate>, i: nat, random: real)
    requires i <= |avail|
    requires forall k :: 0 <= k < |avail| ==> avail[k].weight > 0
    requires 0.0 <= random
    ensures var r := PickFrom(avail, i, random);
            r.Some? ==> (PrefixWeight(avail, r.value) - PrefixWeight(avail, i)) as real <= random &&
                        random < (PrefixWeight(avail, r.value + 1) - PrefixWeight(avail, i)) as real
    ensures PickFrom(avail, i, random).None? ==> random >= (PrefixWeight(avail, |avail|) - PrefixWeight(avail, i)) as real
    decreases |avail| - i
  {
    if i < |avail| && !(random < avail[i].weight as real) {
      PickIsSlice(avail, i + 1, random - avail[i].weight as real);
    }
  }

  lemma {:induction false} PrefixIsTotal(avail: seq<Candidate>)
    ensures PrefixWeight(avail, |avail|) == TotalWeight(avail)
    decreases |avail|
  {
    if |avail| > 0 {
      PrefixIsTotal(avail[1..]);
      PrefixShift(avail, |avail|);
    }
  }

  lemma {:induction false} PrefixShift(avail: seq<Candidate>, k: nat)
    requires 1 <= k <= |avail|
    ensures PrefixWeight(avail, k) == avail[0].weight + PrefixWeight(avail[1..], k - 1)
  {
    if k > 1 {
      PrefixShift(avail, k - 1);
    }
  }

  /** A draw below the total weight never runs off the end of the scan. */
  lemma PickInRange(avail: seq<Candidate>, random: real)
    requires forall k :: 0 <= k < |avail| ==> avail[k].weight > 0
    requires 0.0 <= random < TotalWeight(avail) as real
    ensures PickFrom(avail, 0, random).Some?
  {
    PickIsSlice(avail, 0, random);
    PrefixIsTotal(avail);
  }

  /** The weighted pick of spawnMonsters: a draw scaled by the total weight,
      then the subtract-and-compare loop with an early exit. An empty list
      has no first entry to fall back on, so it is excluded. */
  method PickType(avail: seq<Candidate>, draw: real) returns (id: string)
    requires |avail| > 0
    ensures id == WeightedChoice(avail, WeightedDraw(draw, avail))
  {
    var random := WeightedDraw(draw, avail);
    ghost var r0 := random;
    id := avail[0].id;
    var i := 0;
    while i < |avail|
      invariant 0 <= i <= |avail|
      invariant PickFrom(avail, 0, r0) == PickFrom(avail, i, random)
      invariant id == avail[0].id
    {
      if random < avail[i].weight as real {
        id := avail[i].id;
        assert PickFrom(avail, i, random) == Some(i);
        break;
      }
      random := random - avail[i].weight as real;
      i := i + 1;
    }
    assert id == WeightedChoice(avail, r0);
    assert r0 == WeightedDraw(draw, avail);
  }

  /** `n` capped by `c`, where a non-positive `n` counts as none: how many
      times a `for (i = 0; i < n && list.length > 0; i++)` loop that consumes
      one of `c` entries per turn goes round. */
  function Capped(n: int, c: nat): (r: nat)
    ensures r <= c
    ensures n <= 0 ==> r == 0
    ensures n > 0 ==> r <= n && (r == n || r == c)
  {
    if n <= 0 then 0 else if n < c then n else c
  }

  /** The spots still free after the first i picks of the placement loop:
      each pick takes the draw's index into the free spots and removes that
      spot. */
  function Remaining(valid: seq<Spot>, draws: seq<real>, i: nat): (r: seq<Spot>)
    requires forall k :: 0 <= k < |draws| ==> IsDraw(draws[k])
    requires i <= |valid| && i <= |draws|
    ensures |r| == |valid| - i
  {
    if i == 0 then valid
    else
      var free := Remaining(valid, draws, i - 1);
      RemoveAt(free, DrawIndex(draws[i - 1], |free|))
  }

  /** The spot the j-th pick takes. */
  function SpotAt(valid: seq<Spot>, draws: seq<real>, j: nat): (s: Spot)
    requires forall k :: 0 <= k < |draws| ==> IsDraw(draws[k])
    requires j < |valid| && j < |draws|
  {
    var free := Remaining(valid, draws, j);
    free[DrawIndex(draws[j], |free|)]
  }

  /** Later picks choose among fewer spots: a spot free after j picks was
      free after i <= j picks, and a list without repeats stays so. */
  lemma {:induction false} RemainingShrinks(valid: seq<Spot>, draws: seq<real>, i: nat, j: nat, x: Spot)
    requires forall k :: 0 <= k < |draws| ==> IsDraw(draws[k])
    requires i <= j <= |valid| && j <= |draws|
    requires x in Remaining(valid, draws, j)
    ensures x in Remaining(valid, draws, i)
    decreases j - i
  {
    if i < j {
      var free := Remaining(valid, draws, j - 1);
      RemoveAtSubset(free, DrawIndex(draws[j - 1], |free|), x);
      RemainingShrinks(valid, draws, i, j - 1, x);
    }
  }

  lemma {:induction false} RemainingDistinct(valid: seq<Spot>, draws: seq<real>, i: nat)
    requires forall k :: 0 <= k < |draws| ==> IsDraw(draws[k])
    requires i <= |valid| && i <= |draws| && Distinct(valid)
    ensures Distinct(Remaining(valid, draws, i))
  {
    if i > 0 {
      RemainingDistinct(valid, draws, i - 1);
      var free := Remaining(valid, draws, i - 1);
      RemoveAtDistinct(free, DrawIndex(draws[i - 1], |free|));
    }
  }

  /** Every pick is one of the offered spots. */
  lemma SpotAtIsOffered(valid: seq<Spot>, draws: seq<real>, j: nat)
    requires forall k :: 0 <= k < |draws| ==> IsDraw(draws[k])
    requires j < |valid| && j < |draws|
    ensures SpotAt(valid, draws, j) in valid
  {
    RemainingShrinks(valid, draws, 0, j, SpotAt(valid, draws, j));
  }

  /** Every monster of the regular branch stands on a tile at least 3 from
      the start. */
  lemma SpotsAreFar(spaces: seq<Spot>, start: Vec3, draws: seq<real>, j: nat)
    requires forall k :: 0 <= k < |draws| ==> IsDraw(draws[k])
    requires j < |ValidSpaces(spaces, start)| && j < |draws|
    ensures SpotAt(ValidSpaces(spaces, start), draws, j) in spaces
    ensures FarFromStart(SpotAt(ValidSpaces(spaces, start), draws, j), start)
  {
    SpotAtIsOffered(ValidSpaces(spaces, start), draws, j);
  }

  /** When the level offers each spot once, no two picks share a spot: the
      loop draws without replacement. */
  lemma SpotsDistinct(valid: seq<Spot>, draws: seq<real>, i: nat, j: nat)
    requires forall k :: 0 <= k < |draws| ==> IsDraw(draws[k])
    requires Distinct(valid)
    requires i < j < |valid| && j < |draws|
    ensures SpotAt(valid, draws, i) != SpotAt(valid, draws, j)
  {
    var free := Remaining(valid, draws, i);
    RemainingDistinct(valid, draws, i);
    RemoveAtDistinct(free, DrawIndex(draws[i], |free|));
    if SpotAt(valid, draws, i) == SpotAt(valid, draws, j) {
      RemainingShrinks(valid, draws, i + 1, j, SpotAt(valid, draws, j));
      assert false;
    }
  }

  /** The filter keeps a list without repeats without repeats. */
  lemma {:induction false} ValidSpacesDistinct(spaces: seq<Spot>, start: Vec3)
    requires Distinct(spaces)
    ensures Distinct(ValidSpaces(spaces, start))
  {
    if |spaces| > 0 {
      var tail := spaces[1..];
      assert forall i, j :: 0 <= i < j < |tail| ==> tail[i] == spaces[i + 1] && tail[j] == spaces[j + 1];
      ValidSpacesDistinct(tail, start);
      assert spaces[0] !in tail;
      assert spaces[0] !in ValidSpaces(tail, start);
    }
  }

  /** The fields a regular monster has after the level scaling: +20 max hp
      per level above 1 with hp refilled to it, +2 minimum and +3 maximum
      damage per level above 1. */
  function Scaled(d: MonsterDef, levelIndex: int): (v: MonsterView)
    ensures v.maxHp == d.hp + 20 * (levelIndex - 1) && v.hp == v.maxHp
    ensures v.damageMin == d.damageMin + 2 * (levelIndex - 1)
    ensures v.damageMax == d.damageMax + 3 * (levelIndex - 1)
    ensures v.monsterType == d.id && v.attackCooldown == 0.0 && !v.spottedPlayer && v.sprite.None?
  {
    MonsterView(d.id, d.name, d.isBoss, d.def, d.maxAttackCooldown, d.hp + 20 * (levelIndex - 1),
                d.hp + 20 * (levelIndex - 1), d.damageMin + 2 * (levelIndex - 1), d.damageMax + 3 * (levelIndex - 1),
                0.0, false, false, false, None)
  }

  /** Scaling keeps an ordered damage range ordered for every level from 1. */
  lemma ScaledKeepsOrder(d: MonsterDef, levelIndex: int)
    requires d.damageMin <= d.damageMax && levelIndex >= 1 && d.hp > 0
    ensures Scaled(d, levelIndex).damageMin <= Scaled(d, levelIndex).damageMax
    ensures Scaled(d, levelIndex).hp > 0
  {
  }

  /** No key appears twice, as in a JavaScript object. */
  predicate DistinctKeys(catalog: seq<(string, MonsterDef)>)
  {
    forall i, j :: 0 <= i < j < |catalog| ==> catalog[i].0 != catalog[j].0
  }

  lemma MonstersHaveDistinctKeys()
    ensures DistinctKeys(MONSTERS)
  {
  }

  /** Every id the weighted pick can return is a catalog key. */
  lemma EligibleIdsAreKeys(catalog: seq<(string, MonsterDef)>, levelIndex: int, random: real)
    requires |Eligible(catalog, levelIndex)| > 0
    ensures Lookup(catalog, WeightedChoice(Eligible(catalog, levelIndex), random)).Some?
  {
    var avail := Eligible(catalog, levelIndex);
    var id := WeightedChoice(avail, random);
    var i :| 0 <= i < |avail| && id == avail[i].id;
    EligibleMembers(catalog, levelIndex, avail[i]);
    var k :| 0 <= k < |catalog| && avail[i].id == catalog[k].0;
  }

  /** The catalog entry of the type a draw picks at a level. */
  function SpawnDef(catalog: seq<(string, MonsterDef)>, levelIndex: int, draw: real): (d: MonsterDef)
    requires |Eligible(catalog, levelIndex)| > 0
    ensures exists k :: 0 <= k < |catalog| && catalog[k].1 == d
  {
    var avail := Eligible(catalog, levelIndex);
    var random := WeightedDraw(draw, avail);
    EligibleIdsAreKeys(catalog, levelIndex, random);
    Lookup(catalog, WeightedChoice(avail, random)).value
  }

  /** Whatever the draw, the spawned type is a catalog entry that may spawn
      at the level (given that keys are unique, as in an object). */
  lemma SpawnDefEligible(catalog: seq<(string, MonsterDef)>, levelIndex: int, draw: real)
    requires DistinctKeys(catalog) && |Eligible(catalog, levelIndex)| > 0
    ensures exists k :: 0 <= k < |catalog| && catalog[k].1 == SpawnDef(catalog, levelIndex, draw) &&
                        CanSpawn(catalog[k].1, levelIndex)
  {
    var avail := Eligible(catalog, levelIndex);
    var random := WeightedDraw(draw, avail);
    EligibleIdsAreKeys(catalog, levelIndex, random);
    var id := WeightedChoice(avail, random);
    var d := SpawnDef(catalog, levelIndex, draw);
    var k :| 0 <= k < |catalog| && catalog[k] == (id, d);
    var i :| 0 <= i < |avail| && id == avail[i].id;
    EligibleMembers(catalog, levelIndex, avail[i]);
    var j :| 0 <= j < |catalog| && CanSpawn(catalog[j].1, levelIndex) &&
             avail[i] == Candidate(catalog[j].0, Weight(catalog[j].1));
    assert j == k;
  }

  /** The j-th monster of the regular branch stands on the j-th pick and has
      the type of the j-th weight draw, scaled by level. */
  ghost predicate SpawnedAs(m: Monster, catalog: seq<(string, MonsterDef)>, levelIndex: int, valid: seq<Spot>,
                            spotDraws: seq<real>, typeDraws: seq<real>, j: nat)
    requires forall k :: 0 <= k < |spotDraws| ==> IsDraw(spotDraws[k])
    requires j < |valid| && j < |spotDraws| && j < |typeDraws| && |Eligible(catalog, levelIndex)| > 0
    reads m
  {
    m.spawnPosition == SpawnPosition(SpotAt(valid, spotDraws, j)) &&
    m.View() == Scaled(SpawnDef(catalog, levelIndex, typeDraws[j]), levelIndex)
  }

  // ---------------------------------------------------------------------
  // Clearing out the dead
  // ---------------------------------------------------------------------

  /** One entry of a dead monster's getLoot result, which is not part of
      this model: a pile of gold, or an item. */
  datatype LootDrop = GoldDrop(amount: int) | ItemDrop(item: Item)

  /** What clearing a dead monster does outside the monster list and the
      loot piles: the log line of an item drop, the experience handed to
      addXP (not part of this model), and the boss victory that reveals the
      exit. */
  datatype CleanupEvent = ItemDropped(monster: string, item: string) | GainXP(xp: int) | BossDefeated(monster: string)

  const XP_MONSTER := 25
  const XP_BOSS := 500

  /** The loot piles, as (position, amount), that one dead monster's drops
      leave at `pos`. The Loot constructor takes no item, so an item drop
      becomes a pile of amount 0 and its item is lost. */
  function DropPiles(pos: Vec3, ds: seq<LootDrop>): (r: seq<(Vec3, int)>)
    ensures |r| == |ds|
    ensures forall j :: 0 <= j < |r| ==> r[j].0 == pos
    ensures forall j :: 0 <= j < |r| ==> r[j].1 == if ds[j].GoldDrop? then ds[j].amount else 0
  {
    if |ds| == 0 then []
    else [(pos, if ds[0].GoldDrop? then ds[0].amount else 0)] + DropPiles(pos, ds[1..])
  }

  /** The log of clearing one dead monster: its item drops, in order, then
      the experience, then the victory of a boss. */
  function DeathLog(name: string, isBoss: bool, ds: seq<LootDrop>): (r: seq<CleanupEvent>)
    ensures GainXP(if isBoss then XP_BOSS else XP_MONSTER) in r
    ensures BossDefeated(name) in r <==> isBoss
    ensures |r| == ItemCount(ds) + (if isBoss then 2 else 1)
  {
    if |ds| == 0 then [GainXP(if isBoss then XP_BOSS else XP_MONSTER)] + (if isBoss then [BossDefeated(name)] else [])
    else (if ds[0].ItemDrop? then [ItemDropped(name, ds[0].item.name)] else []) + DeathLog(name, isBoss, ds[1..])
  }

  /** The number of item drops in `ds`. */
  function ItemCount(ds: seq<LootDrop>): (n: nat)
    ensures n <= |ds|
  {
    if |ds| == 0 then 0 else (if ds[0].ItemDrop? then 1 else 0) + ItemCount(ds[1..])
  }

  /** A dead monster's sprite position is read, so it must have one. */
  predicate DeadHaveSprites(ms: seq<Monster>)
    reads ms
  {
    forall j :: 0 <= j < |ms| && ms[j].hp <= 0 ==> ms[j].sprite.Some?
  }

  /** The monsters that stay, in their order. */
  function Survivors(ms: seq<Monster>): (r: seq<Monster>)
    reads ms
    ensures |r| <= |ms|
  {
    if |ms| == 0 then []
    else (if ms[0].hp > 0 then [ms[0]] else []) + Survivors(ms[1..])
  }

  /** A monster stays exactly when it is in the list with hp above 0. */
  lemma {:induction false} SurvivorsAreTheLiving(ms: seq<Monster>, m: Monster)
    ensures m in Survivors(ms) <==> m in ms && m.hp > 0
  {
    if |ms| > 0 {
      SurvivorsAreTheLiving(ms[1..], m);
      assert ms == [ms[0]] + ms[1..];
    }
  }

  /** The piles the cleanup creates, from the last monster back to the
      monster at index k. */
  function DropPlan(ms: seq<Monster>, drops: seq<seq<LootDrop>>, k: nat): (r: seq<(Vec3, int)>)
    requires k <= |ms| == |drops| && DeadHaveSprites(ms)
    reads ms
    ensures k < |ms| && ms[k].hp <= 0 ==> |r| >= |drops[k]|
    decreases |ms| - k
  {
    if k == |ms| then []
    else DropPlan(ms, drops, k + 1) + (if ms[k].hp <= 0 then DropPiles(ms[k].sprite.value.position, drops[k]) else [])
  }

  /** The log of the cleanup, from the last monster back to index k. */
  function CleanupLog(ms: seq<Monster>, drops: seq<seq<LootDrop>>, k: nat): (r: seq<CleanupEvent>)
    requires k <= |ms| == |drops|
    reads ms
    ensures k < |ms| && ms[k].hp <= 0 ==> GainXP(if ms[k].isBoss then XP_BOSS else XP_MONSTER) in r
    decreases |ms| - k
  {
    if k == |ms| then []
    else CleanupLog(ms, drops, k + 1) + (if ms[k].hp <= 0 then DeathLog(ms[k].name, ms[k].isBoss, drops[k]) else [])
  }

  /** Without a dead monster from index k on, the cleanup drops no pile and
      logs nothing. */
  lemma {:induction false} NoDeathsNoCleanup(ms: seq<Monster>, drops: seq<seq<LootDrop>>, k: nat)
    requires k <= |ms| == |drops| && DeadHaveSprites(ms)
    requires forall j :: k <= j < |ms| ==> ms[j].hp > 0
    ensures DropPlan(ms, drops, k) == []
    ensures CleanupLog(ms, drops, k) == []
    decreases |ms| - k
  {
    if k < |ms| {
      NoDeathsNoCleanup(ms, drops, k + 1);
    }
  }

  /** A new pile as the cleanup creates it. */
  ghost predicate IsPile(l: Loot, p: (Vec3, int))
    reads l
  {
    l.position == p.0 && l.amount == p.1 && l.item.None? && !l.removed
  }

  /** `ls` is `base` followed by one new pile per entry of `plan`. */
  ghost predicate Dropped(ls: seq<Loot>, base: seq<Loot>, plan: seq<(Vec3, int)>)
    reads ls
  {
    |ls| == |base| + |plan| && ls[..|base|] == base &&
    forall j :: |base| <= j < |ls| ==> IsPile(ls[j], plan[j - |base|])
  }

  lemma DroppedSnoc(ls: seq<Loot>, base: seq<Loot>, plan: seq<(Vec3, int)>, l: Loot, p: (Vec3, int))
    requires Dropped(ls, base, plan) && IsPile(l, p)
    ensures Dropped(ls + [l], base, plan + [p])
  {
    assert (ls + [l])[..|base|] == ls[..|base|];
  }

  lemma DroppedConcat(base: seq<Loot>, mid: seq<Loot>, ls: seq<Loot>, p1: seq<(Vec3, int)>, p2: seq<(Vec3, int)>)
    requires Dropped(mid, base, p1) && Dropped(ls, mid, p2)
    ensures Dropped(ls, base, p1 + p2)
  {
    assert ls[..|base|] == mid[..|base|];
    forall j | |base| <= j < |ls|
      ensures IsPile(ls[j], (p1 + p2)[j - |base|])
    {
      if j < |mid| {
        assert ls[j] == mid[j];
      }
    }
  }

  /** One pass of the cleanup loop on the piles and the log: the dead
      monster at i adds its piles and its death lines to those of the
      monsters after it; a living one adds nothing. */
  lemma CleanupAccounts(ms: seq<Monster>, drops: seq<seq<LootDrop>>, i: nat, base: seq<Loot>, mid: seq<Loot>,
                        ls: seq<Loot>, log0: seq<CleanupEvent>, log: seq<CleanupEvent>)
    requires i < |ms| == |drops| && DeadHaveSprites(ms)
    requires log0 == CleanupLog(ms, drops, i + 1) && Dropped(mid, base, DropPlan(ms, drops, i + 1))
    requires log == log0 + if ms[i].hp <= 0 then DeathLog(ms[i].name, ms[i].isBoss, drops[i]) else []
    requires ms[i].hp <= 0 ==> Dropped(ls, mid, DropPiles(ms[i].sprite.value.position, drops[i]))
    requires ms[i].hp > 0 ==> ls == mid
    ensures log == CleanupLog(ms, drops, i)
    ensures Dropped(ls, base, DropPlan(ms, drops, i))
  {
    var done := DropPlan(ms, drops, i + 1);
    if ms[i].hp <= 0 {
      DroppedConcat(base, mid, ls, done, DropPiles(ms[i].sprite.value.position, drops[i]));
    } else {
      assert done + [] == done;
    }
  }

  /** One pass of the cleanup loop on the list: the monster at i is the
      last one not yet looked at; removing it if dead, or keeping it if
      alive, leaves the processed suffix filtered. */
  lemma {:induction false} CleanupSplice(ms: seq<Monster>, i: nat, cur: seq<Monster>)
    requires i < |ms| && cur == ms[..i + 1] + Survivors(ms[i + 1..])
    ensures i < |cur| && cur[i] == ms[i]
    ensures ms[i].hp <= 0 ==> RemoveAt(cur, i) == ms[..i] + Survivors(ms[i..])
    ensures ms[i].hp > 0 ==> cur == ms[..i] + Survivors(ms[i..])
  {
    assert ms[i..][1..] == ms[i + 1..];
    assert Survivors(ms[i..]) == (if ms[i].hp > 0 then [ms[i]] else []) + Survivors(ms[i + 1..]);
    assert ms[..i + 1] == ms[..i] + [ms[i]];
    if ms[i].hp <= 0 {
      var r := RemoveAt(cur, i);
      assert r == cur[..i] + cur[i + 1..];
      assert cur[..i] == ms[..i];
      assert cur[i + 1..] == Survivors(ms[i + 1..]);
    }
  }

  /** Every monster killed gives experience: the log holds one GainXP line
      per dead monster, 500 for a boss and 25 otherwise. */
  lemma {:induction false} CleanupLogCountsDeaths(ms: seq<Monster>, drops: seq<seq<LootDrop>>, k: nat)
    requires k <= |ms| == |drops|
    ensures XpOf(CleanupLog(ms, drops, k)) == DeadXp(ms, k)
    decreases |ms| - k
  {
    if k < |ms| {
      var rest := CleanupLog(ms, drops, k + 1);
      var own := if ms[k].hp <= 0 then DeathLog(ms[k].name, ms[k].isBoss, drops[k]) else [];
      assert CleanupLog(ms, drops, k) == rest + own;
      CleanupLogCountsDeaths(ms, drops, k + 1);
      XpOfAppend(rest, own);
      if ms[k].hp <= 0 {
        DeathLogXp(ms[k].name, ms[k].isBoss, drops[k]);
      } else {
        assert XpOf(own) == 0;
      }
    }
  }

  /** The experience a log grants. */
  function XpOf(log: seq<CleanupEvent>): int
  {
    if |log| == 0 then 0 else (if log[0].GainXP? then log[0].xp else 0) + XpOf(log[1..])
  }

  /** The experience of the dead monsters from index k on. */
  function DeadXp(ms: seq<Monster>, k: nat): int
    requires k <= |ms|
    reads ms
    decreases |ms| - k
  {
    if k == |ms| then 0
    else (if ms[k].hp <= 0 then (if ms[k].isBoss then XP_BOSS else XP_MONSTER) else 0) + DeadXp(ms, k + 1)
  }

  lemma {:induction false} XpOfAppend(a: seq<CleanupEvent>, b: seq<CleanupEvent>)
    ensures XpOf(a + b) == XpOf(a) + XpOf(b)
    decreases |a|
  {
    if |a| == 0 {
      assert a + b == b;
    } else {
      XpOfAppend(a[1..], b);
      assert (a + b)[1..] == a[1..] + b;
    }
  }

  lemma {:induction false} DeathLogXp(name: string, isBoss: bool, ds: seq<LootDrop>)
    ensures XpOf(DeathLog(name, isBoss, ds)) == if isBoss then XP_BOSS else XP_MONSTER
    decreases |ds|
  {
    if |ds| == 0 {
      var tail: seq<CleanupEvent> := if isBoss then [BossDefeated(name)] else [];
      XpOfAppend([GainXP(if isBoss then XP_BOSS else XP_MONSTER)], tail);
      assert XpOf(tail) == 0;
    } else {
      DeathLogXp(name, isBoss, ds[1..]);
      var head: seq<CleanupEvent> := if ds[0].ItemDrop? then [ItemDropped(name, ds[0].item.name)] else [];
      XpOfAppend(head, DeathLog(name, isBoss, ds[1..]));
      assert XpOf(head) == 0;
    }
  }

  /** The monsters of one level: the array main.js keeps and hands to each
      of these rules. */
  class World {
    var monsters: seq<Monster>
    var loots: seq<Loot>

    constructor ()
      ensures monsters == [] && loots == []
    {
      monsters := [];
      loots := [];
    }

    /** spawnMonsters. Without a boss spawn point the level gets
        Capped(1 + levelIndex, valid spots) regular monsters; with one, a
        single boss appears, and only on level 11. Where the level file's
        boss spawn point, its empty spaces and the boss's own record come
        from is not part of this model: they are given. */
    method SpawnMonsters(levelIndex: int, bossSpawn: Option<Vec3>, start: Vec3, emptySpaces: seq<Spot>,
                         spotDraws: seq<real>, typeDraws: seq<real>, bossDef: MonsterDef)
      requires forall i :: 0 <= i < |spotDraws| ==> IsDraw(spotDraws[i])
      requires forall i :: 0 <= i < |typeDraws| ==> IsDraw(typeDraws[i])
      requires |spotDraws| >= Capped(1 + levelIndex, |ValidSpaces(emptySpaces, start)|)
      requires |typeDraws| >= Capped(1 + levelIndex, |ValidSpaces(emptySpaces, start)|)
      requires bossSpawn.None? && Capped(1 + levelIndex, |ValidSpaces(emptySpaces, start)|) > 0 ==>
                 |Eligible(MONSTERS, levelIndex)| > 0
      requires bossSpawn.Some? ==> bossDef.id == "skeletal_boss" && bossDef.isBoss
      modifies this`monsters
      ensures bossSpawn.Some? && levelIndex != 11 ==> monsters == old(monsters)
      ensures bossSpawn.Some? && levelIndex == 11 ==>
                |monsters| == |old(monsters)| + 1 && monsters[..|old(monsters)|] == old(monsters) &&
                fresh(monsters[|old(monsters)|]) &&
                monsters[|old(monsters)|].spawnPosition == bossSpawn.value &&
                monsters[|old(monsters)|].View() ==
                  MonsterView(bossDef.id, bossDef.name, bossDef.isBoss, bossDef.def, bossDef.maxAttackCooldown,
                              bossDef.hp, bossDef.hp, bossDef.damageMin, bossDef.damageMax, 0.0, false, false, false, None)
      ensures bossSpawn.None? ==>
                var n := Capped(1 + levelIndex, |ValidSpaces(emptySpaces, start)|);
                |monsters| == |old(monsters)| + n && monsters[..|old(monsters)|] == old(monsters) &&
                forall j :: |old(monsters)| <= j < |monsters| ==>
                  fresh(monsters[j]) &&
                  SpawnedAs(monsters[j], MONSTERS, levelIndex, ValidSpaces(emptySpaces, start), spotDraws, typeDraws, j - |old(monsters)|)
    {
      if bossSpawn.None? {
        SpawnRegular(MONSTERS, levelIndex, ValidSpaces(emptySpaces, start), spotDraws, typeDraws);
      } else if levelIndex == 11 {
        var boss := new Monster(bossDef, bossSpawn.value);
        monsters := monsters + [boss];
      }
    }

    /** The regular branch: the j-th new monster stands on the j-th
        placement and has the type of the j-th weight draw, scaled by level. */
    method SpawnRegular(catalog: seq<(string, MonsterDef)>, levelIndex: int, valid0: seq<Spot>, spotDraws: seq<real>, typeDraws: seq<real>)
      requires forall i :: 0 <= i < |spotDraws| ==> IsDraw(spotDraws[i])
      requires forall i :: 0 <= i < |typeDraws| ==> IsDraw(typeDraws[i])
      requires |spotDraws| >= Capped(1 + levelIndex, |valid0|)
      requires |typeDraws| >= Capped(1 + levelIndex, |valid0|)
      requires Capped(1 + levelIndex, |valid0|) > 0 ==> |Eligible(catalog, levelIndex)| > 0
      modifies this`monsters
      ensures
                var n := Capped(1 + levelIndex, |valid0|);
                |monsters| == |old(monsters)| + n && monsters[..|old(monsters)|] == old(monsters) &&
                forall j :: |old(monsters)| <= j < |monsters| ==>
                  fresh(monsters[j]) &&
                  SpawnedAs(monsters[j], catalog, levelIndex, valid0, spotDraws, typeDraws, j - |old(monsters)|)
    {
      var n := 1 + levelIndex;
      var validSpaces := valid0;
      ghost var count := Capped(n, |valid0|);
      ghost var spawned: seq<Monster> := [];
      var i := 0;
      while i < n && |validSpaces| > 0
        invariant 0 <= i <= count && |spawned| == i
        invariant validSpaces == Remaining(valid0, spotDraws, i)
        invariant monsters == old(monsters) + spawned
        invariant forall j :: 0 <= j < |spawned| ==> fresh(spawned[j])
        invariant forall j {:trigger SpawnedAs(spawned[j], catalog, levelIndex, valid0, spotDraws, typeDraws, j)} ::
                    0 <= j < |spawned| ==> SpawnedAs(spawned[j], catalog, levelIndex, valid0, spotDraws, typeDraws, j)
      {
        ghost var m;
        validSpaces, m := SpawnNext(catalog, levelIndex, valid0, spotDraws, typeDraws, i, validSpaces, spawned);
        spawned := spawned + [m];
        i := i + 1;
      }
    }

    /** One turn of the regular branch's loop: pick the i-th spot, take it out
        of the free ones, and append the i-th monster to those spawned so far. */
    method SpawnNext(catalog: seq<(string, MonsterDef)>, levelIndex: int, valid0: seq<Spot>, spotDraws: seq<real>,
                     typeDraws: seq<real>, i: nat, validSpaces: seq<Spot>, ghost spawned: seq<Monster>)
      returns (rest: seq<Spot>, ghost m: Monster)
      requires forall k :: 0 <= k < |spotDraws| ==> IsDraw(spotDraws[k])
      requires i < |valid0| && i < |spotDraws| && i < |typeDraws| && |Eligible(catalog, levelIndex)| > 0
      requires validSpaces == Remaining(valid0, spotDraws, i)
      requires |spawned| == i
      requires forall j {:trigger SpawnedAs(spawned[j], catalog, levelIndex, valid0, spotDraws, typeDraws, j)} ::
                 0 <= j < |spawned| ==> SpawnedAs(spawned[j], catalog, levelIndex, valid0, spotDraws, typeDraws, j)
      modifies this`monsters
      ensures rest == Remaining(valid0, spotDraws, i + 1)
      ensures monsters == old(monsters) + [m] && fresh(m)
      ensures forall j {:trigger SpawnedAs((spawned + [m])[j], catalog, levelIndex, valid0, spotDraws, typeDraws, j)} ::
                0 <= j < |spawned + [m]| ==> SpawnedAs((spawned + [m])[j], catalog, levelIndex, valid0, spotDraws, typeDraws, j)
    {
      var rndIdx := DrawIndex(spotDraws[i], |validSpaces|);
      var spot := validSpaces[rndIdx];
      rest := RemoveAt(validSpaces, rndIdx);
      var monster := SpawnOne(catalog, levelIndex, spot, typeDraws[i]);
      monsters := monsters + [monster];
      m := monster;
    }

    /** handleMonsterBehavior: every monster, in list order, takes its turn
        with what the frame shows it. The list holds each monster once. */
    method HandleMonsterBehavior(delta: real, senses: seq<Sense>) returns (events: seq<seq<MonsterEvent>>)
      requires |senses| == |monsters| && Distinct(monsters)
      modifies monsters`spottedPlayer, monsters`triggerPowerfulAttack, monsters`attackCooldown
      ensures |events| == |monsters|
      ensures forall k :: 0 <= k < |monsters| ==>
                monsters[k].View() == Behave(old(monsters[k].View()), senses[k], Lookup(MONSTERS, monsters[k].monsterType)).0 &&
                events[k] == Behave(old(monsters[k].View()), senses[k], Lookup(MONSTERS, monsters[k].monsterType)).1
    {
      events := [];
      var k := 0;
      while k < |monsters|
        invariant 0 <= k <= |monsters| && |events| == k
        invariant forall j :: 0 <= j < k ==>
                    monsters[j].View() == Behave(old(monsters[j].View()), senses[j], Lookup(MONSTERS, monsters[j].monsterType)).0 &&
                    events[j] == Behave(old(monsters[j].View()), senses[j], Lookup(MONSTERS, monsters[j].monsterType)).1
        invariant forall j :: k <= j < |monsters| ==> monsters[j].View() == old(monsters[j].View())
      {
        var e := MonsterTurn(monsters[k], delta, senses[k]);
        events := events + [e];
        k := k + 1;
      }
    }

    /** The piles one dead monster leaves at `pos`, appended in drop order. */
    method DropLoot(pos: Vec3, ds: seq<LootDrop>)
      modifies this`loots
      ensures Dropped(loots, old(loots), DropPiles(pos, ds))
      ensures forall j :: |old(loots)| <= j < |loots| ==> fresh(loots[j])
    {
      ghost var plan := DropPiles(pos, ds);
      var n := 0;
      while n < |ds|
        invariant 0 <= n <= |ds|
        invariant Dropped(loots, old(loots), plan[..n])
        invariant forall j :: |old(loots)| <= j < |loots| ==> fresh(loots[j])
      {
        var amount := if ds[n].GoldDrop? then ds[n].amount else 0;
        var l := new Loot(pos, amount);
        DroppedSnoc(loots, old(loots), plan[..n], l, plan[n]);
        assert plan[..n + 1] == plan[..n] + [plan[n]];
        loots := loots + [l];
        n := n + 1;
      }
      assert plan[..n] == plan;
    }

    /** cleanupMonstersAndDropLoot: walking the list from the end, every
        monster at 0 hp or below drops its loot (`drops`, what getLoot
        returns for it, given since getLoot is not part of this model) at
        its sprite, grants experience, reveals the exit if it was the boss,
        and leaves the list. The living stay, in order. */
    method CleanupMonstersAndDropLoot(drops: seq<seq<LootDrop>>) returns (log: seq<CleanupEvent>)
      requires |drops| == |monsters| && DeadHaveSprites(monsters)
      modifies this`monsters, this`loots
      ensures monsters == Survivors(old(monsters))
      ensures Dropped(loots, old(loots), DropPlan(old(monsters), drops, 0))
      ensures forall j :: |old(loots)| <= j < |loots| ==> fresh(loots[j])
      ensures log == CleanupLog(old(monsters), drops, 0)
    {
      ghost var ms := monsters;
      log := [];
      var k := |monsters|;
      assert ms[k..] == [];
      while k > 0
        invariant 0 <= k <= |ms| == |drops| && DeadHaveSprites(ms)
        invariant monsters == ms[..k] + Survivors(ms[k..])
        invariant Dropped(loots, old(loots), DropPlan(ms, drops, k))
        invariant forall j :: |old(loots)| <= j < |loots| ==> fresh(loots[j])
        invariant log == CleanupLog(ms, drops, k)
      {
        ghost var before := loots;
        ghost var log0 := log;
        log := CleanupStep(ms, drops, k - 1, log);
        k := k - 1;
        CleanupAccounts(ms, drops, k, old(loots), before, loots, log0, log);
        assert forall j :: |old(loots)| <= j < |before| ==> loots[j] == before[j];
      }
      assert ms[0..] == ms;
    }

    /** One pass of the loop: monster i, the last one not yet looked at. */
    method CleanupStep(ghost ms: seq<Monster>, drops: seq<seq<LootDrop>>, i: nat, log0: seq<CleanupEvent>)
      returns (log: seq<CleanupEvent>)
      requires i < |ms| == |drops| && DeadHaveSprites(ms)
      requires monsters == ms[..i + 1] + Survivors(ms[i + 1..])
      modifies this`monsters, this`loots
      ensures monsters == ms[..i] + Survivors(ms[i..])
      ensures ms[i].hp <= 0 ==> Dropped(loots, old(loots), DropPiles(ms[i].sprite.value.position, drops[i]))
      ensures ms[i].hp > 0 ==> loots == old(loots)
      ensures |old(loots)| <= |loots| && loots[..|old(loots)|] == old(loots)
      ensures forall j :: |old(loots)| <= j < |loots| ==> fresh(loots[j])
      ensures log == log0 + if ms[i].hp <= 0 then DeathLog(ms[i].name, ms[i].isBoss, drops[i]) else []
    {
      CleanupSplice(ms, i, monsters);
      log := log0;
      if monsters[i].hp <= 0 {
        DropLoot(monsters[i].sprite.value.position, drops[i]);
        log := log + DeathLog(monsters[i].name, monsters[i].isBoss, drops[i]);
        var _ := monsters[i].Remove();
        monsters := RemoveAt(monsters, i);
      }
    }

    /** handleLootCollection: walking the piles from the end, a pile whose
        box meets the player's box (0.5 x 1.8 x 0.5 around the camera) is
        picked up as VisitPile says and then leaves the list. `accepted`
        holds addItem's verdict for each pile, and `lastNotice`/`notice` the
        caller's "backpack full" timestamp before and after. The list holds
        each pile once. */
    method HandleLootCollection(player: Player, camera: Vec3, accepted: seq<bool>, now: int, lastNotice: int)
      returns (log: seq<PickupEvent>, notice: int)
      requires |accepted| == |loots| && Distinct(loots)
      modifies this`loots, player`gold, player`inventory, loots`removed
      ensures Purse(player.gold, player.inventory, notice) ==
              Collect(old(Piles(loots, camera)), accepted, 0, Purse(old(player.gold), old(player.inventory), lastNotice),
                      player.maxInventory, now).purse
      ensures log == Collect(old(Piles(loots, camera)), accepted, 0, Purse(old(player.gold), old(player.inventory), lastNotice),
                             player.maxInventory, now).log
      ensures loots == Kept(old(loots), Collect(old(Piles(loots, camera)), accepted, 0,
                                                Purse(old(player.gold), old(player.inventory), lastNotice), player.maxInventory, now).taken)
      ensures forall j :: 0 <= j < |old(loots)| ==>
                old(loots)[j].removed == (old(loots[j].removed) ||
                  Collect(old(Piles(loots, camera)), accepted, 0, Purse(old(player.gold), old(player.inventory), lastNotice),
                          player.maxInventory, now).taken[j])
    {
      ghost var ls := loots;
      ghost var ps := Piles(loots, camera);
      ghost var pu := Purse(player.gold, player.inventory, lastNotice);
      ghost var was := RemovedFlags(loots);
      ghost var pr;
      log, notice, pr := CollectAll(player, camera, ls, ps, accepted, now, lastNotice, pu, was);
    }

    /** The loop of handleLootCollection, from the last pile back to the
        first, over the list `ls` it started with. */
    method CollectAll(player: Player, camera: Vec3, ghost ls: seq<Loot>, ghost ps: seq<Pile>, accepted: seq<bool>,
                      now: int, lastNotice: int, ghost pu: Purse, ghost was: seq<bool>)
      returns (log: seq<PickupEvent>, notice: int, ghost pr: Progress)
      requires |ls| == |ps| == |accepted| == |was| && Distinct(ls) && loots == ls
      requires ps == Piles(ls, camera) && pu == Purse(player.gold, player.inventory, lastNotice)
      requires forall j :: 0 <= j < |ls| ==> ls[j].removed == was[j]
      modifies this`loots, player`gold, player`inventory, ls`removed
      ensures pr == Collect(ps, accepted, 0, pu, player.maxInventory, now)
      ensures loots == Kept(ls, pr.taken)
      ensures Purse(player.gold, player.inventory, notice) == pr.purse && log == pr.log
      ensures forall j :: 0 <= j < |ls| ==> ls[j].removed == (was[j] || pr.taken[j])
    {
      log := [];
      notice := lastNotice;
      var k := |loots|;
      pr := Collect(ps, accepted, k, pu, player.maxInventory, now);
      assert ls[k..] == [];
      while k > 0
        invariant 0 <= k <= |ls|
        invariant pr == Collect(ps, accepted, k, pu, player.maxInventory, now)
        invariant loots == ls[..k] + Kept(ls[k..], pr.taken)
        invariant Purse(player.gold, player.inventory, notice) == pr.purse && log == pr.log
        invariant forall j :: 0 <= j < |ls| ==> ls[j].removed == (was[j] || Marks(k, pr.taken)[j])
      {
        log, notice, pr := Advance(player, camera, ls, ps, accepted, k, now, log, notice, pu, was, pr);
        k := k - 1;
      }
      assert ls[0..] == ls;
      assert Marks(0, pr.taken) == pr.taken;
    }

    /** One turn of the pickup loop, from k piles still to look at to k - 1:
        the pile at k - 1 is visited, and the loop's account of the list,
        the purse, the log and the removed flags moves on by that pile. */
    method Advance(player: Player, camera: Vec3, ghost ls: seq<Loot>, ghost ps: seq<Pile>, accepted: seq<bool>,
                   k: nat, now: int, log0: seq<PickupEvent>, notice0: int,
                   ghost pu: Purse, ghost was: seq<bool>, ghost pr: Progress)
      returns (log: seq<PickupEvent>, notice: int, ghost next: Progress)
      requires 0 < k <= |ls| == |ps| == |accepted| == |was| && Distinct(ls)
      requires ps[k - 1] == PileOf(ls[k - 1], camera)
      requires pr == Collect(ps, accepted, k, pu, player.maxInventory, now)
      requires loots == ls[..k] + Kept(ls[k..], pr.taken)
      requires Purse(player.gold, player.inventory, notice0) == pr.purse && log0 == pr.log
      requires forall j :: 0 <= j < |ls| ==> ls[j].removed == (was[j] || Marks(k, pr.taken)[j])
      modifies this`loots, player`gold, player`inventory, {ls[k - 1]}`removed
      ensures next == Collect(ps, accepted, k - 1, pu, player.maxInventory, now)
      ensures loots == ls[..k - 1] + Kept(ls[k - 1..], next.taken)
      ensures Purse(player.gold, player.inventory, notice) == next.purse && log == next.log
      ensures forall j :: 0 <= j < |ls| ==> ls[j].removed == (was[j] || Marks(k - 1, next.taken)[j])
    {
      ghost var before := loots;
      ghost var v := VisitPile(ps[k - 1], accepted[k - 1], pr.purse, player.maxInventory, now);
      next := Progress(v.purse, [v.taken] + pr.taken, pr.log + v.log);
      KeptSplice(ls, next.taken, k - 1, before);
      MarksStep(k, pr.taken, v.taken, |ls|);
      log, notice := CollectStep(player, camera, ls, ps, accepted, k - 1, now, log0, notice0, v,
                                 was, Marks(k, pr.taken), Marks(k - 1, next.taken));
    }

    /** One pass of the pickup loop: the pile at i, the last one not yet
        looked at. The removed flag of each pile is `was` or'ed with the
        piles taken so far, `before`, and afterwards with `after`, which adds
        pile i when it is taken. */
    method CollectStep(player: Player, camera: Vec3, ghost ls: seq<Loot>, ghost ps: seq<Pile>, accepted: seq<bool>,
                       i: nat, now: int, log0: seq<PickupEvent>, notice0: int, ghost v: Visit,
                       ghost was: seq<bool>, ghost before: seq<bool>, ghost after: seq<bool>)
      returns (log: seq<PickupEvent>, notice: int)
      requires i < |ls| == |ps| == |accepted| && i < |loots| && loots[i] == ls[i]
      requires ps[i] == PileOf(ls[i], camera) && Distinct(ls)
      requires v == VisitPile(ps[i], accepted[i], Purse(player.gold, player.inventory, notice0), player.maxInventory, now)
      requires |was| == |before| == |after| == |ls|
      requires forall j :: 0 <= j < |ls| ==> ls[j].removed == (was[j] || before[j])
      requires forall j :: 0 <= j < |ls| ==> after[j] == (before[j] || (j == i && v.taken))
      modifies this`loots, player`gold, player`inventory, {ls[i]}`removed
      ensures Purse(player.gold, player.inventory, notice) == v.purse
      ensures log == log0 + v.log
      ensures loots == if v.taken then RemoveAt(old(loots), i) else old(loots)
      ensures forall j :: 0 <= j < |ls| ==> ls[j].removed == (was[j] || after[j])
    {
      log := log0;
      notice := notice0;
      var l := loots[i];
      if Intersects(PlayerBoxAt(camera), l.GetBoundingBox()) {
        if l.item.Some? {
          if |player.inventory| >= player.maxInventory {
            if now - notice > FULL_NOTICE_GAP {
              log := log + [BackpackFull];
              notice := now;
            }
          } else {
            var item := l.item.value;
            var ok := player.AddItem(item, accepted[i]);
            if ok {
              log := log + [PickedItem(item.name)];
              var _ := l.Remove();
              loots := RemoveAt(loots, i);
            }
          }
        } else {
          var amount := l.amount;
          player.AddGold(amount);
          log := log + [PickedGold(amount)];
          var _ := l.Remove();
          loots := RemoveAt(loots, i);
        }
      }
    }
  }


  /** One regular monster: the picked type at the spot, scaled by level. */
  method SpawnOne(catalog: seq<(string, MonsterDef)>, levelIndex: int, spot: Spot, typeDraw: real) returns (m: Monster)
    requires |Eligible(catalog, levelIndex)| > 0
    ensures fresh(m)
    ensures m.spawnPosition == SpawnPosition(spot)
    ensures m.View() == Scaled(SpawnDef(catalog, levelIndex, typeDraw), levelIndex)
  {
    var avail := Eligible(catalog, levelIndex);
    var id := PickType(avail, typeDraw);
    assert id == WeightedChoice(avail, WeightedDraw(typeDraw, avail));
    EligibleIdsAreKeys(catalog, levelIndex, WeightedDraw(typeDraw, avail));
    var d := Lookup(catalog, id).value;
    assert d == SpawnDef(catalog, levelIndex, typeDraw);
    m := new Monster(d, SpawnPosition(spot));
    m.maxHp := m.maxHp + (levelIndex - 1) * 20;
    m.hp := m.maxHp;
    m.damageMin := m.damageMin + (levelIndex - 1) * 2;
    m.damageMax := m.damageMax + (levelIndex - 1) * 3;
  }

  // ---------------------------------------------------------------------
  // Monster behaviour
  // ---------------------------------------------------------------------

  /** What one frame shows a monster. The distance is measured from the
      camera to the sprite; line of sight, the attack damage rolls and the
      random draws come from code that is not part of this model
      (hasLineOfSight, getAttackDamage, Math.random), so they are given. */
  datatype Sense = Sense(
    dist: real,
    lineOfSight: bool,
    heavyBase: int,
    bossRoll: real,
    baseDamage: int,
    plagueRoll: real,
    poisonRoll: real)

  /** What a monster's turn does to the world outside the monster: the
      player's damage and statuses, the movement and the log lines. */
  datatype MonsterEvent =
    | Spotted
    | HeavyHit(damage: int)
    | HeavyMissed
    | PrepareHeavy
    | Hit(damage: int)
    | Infected
    | Poisoned
    | MoveToward

  const SIGHT_RANGE: real := 10.0
  const MELEE_RANGE: real := 1.0
  const HEAVY_RANGE: real := 1.5
  const HEAVY_CHANCE: real := 0.2

  /** `Math.floor(damage * 2.5)`. */
  function HeavyDamage(base: int): (d: int)
    ensures 2 * d <= 5 * base < 2 * d + 2
  {
    (5 * base) / 2
  }

  /** `chance && Math.random() < chance`: an unset or zero chance never
      fires. */
  function Fires(chance: Option<real>, roll: real): (f: bool)
    ensures chance.None? ==> !f
    ensures IsDraw(roll) ==> (f <==> chance.Some? && roll < chance.value)
  {
    chance.Some? && chance.value != 0.0 && roll < chance.value
  }

  /** The heavy blow a boss has been triggered to deliver: it lands inside
      1.5 and misses beyond, and either way the trigger is cleared and the
      cooldown restarts. Other monsters skip this step. */
  function ResolveHeavy(v: MonsterView, s: Sense): (r: (MonsterView, seq<MonsterEvent>))
    ensures !(v.isBoss && v.triggerPowerfulAttack) ==> r == (v, [])
    ensures v.isBoss && v.triggerPowerfulAttack ==>
              r.0 == v.(triggerPowerfulAttack := false, attackCooldown := v.maxAttackCooldown) &&
              (r.1 == [HeavyHit(HeavyDamage(s.heavyBase))] <==> s.dist < HEAVY_RANGE) &&
              (r.1 == [HeavyMissed] <==> s.dist >= HEAVY_RANGE)
  {
    if !(v.isBoss && v.triggerPowerfulAttack) then (v, [])
    else
      (v.(triggerPowerfulAttack := false, attackCooldown := v.maxAttackCooldown),
       if s.dist < HEAVY_RANGE then [HeavyHit(HeavyDamage(s.heavyBase))] else [HeavyMissed])
  }

  /** The close-combat step of an alerted monster that is not preparing a
      heavy blow: out of reach 1 it moves toward the player; within reach
      and off cooldown it attacks (a boss first rolls 0.2 for preparing a
      heavy blow instead), and a hit may infect or poison by its type's
      chances, then restarts the cooldown. */
  function Melee(v: MonsterView, s: Sense, config: Option<MonsterDef>): (r: (MonsterView, seq<MonsterEvent>))
    ensures r.0 == v || r.0 == v.(attackCooldown := v.maxAttackCooldown)
    ensures MoveToward in r.1 <==> s.dist >= MELEE_RANGE
    ensures Hit(s.baseDamage) in r.1 <==>
              s.dist < MELEE_RANGE && v.attackCooldown <= 0.0 && !(v.isBoss && s.bossRoll < HEAVY_CHANCE)
    ensures forall e :: e in r.1 ==> !e.HeavyHit? && (e.Hit? ==> e.damage == s.baseDamage)
    ensures r.0 != v ==> Hit(s.baseDamage) in r.1
    ensures Hit(s.baseDamage) in r.1 ==> r.0.attackCooldown == v.maxAttackCooldown
    ensures Infected in r.1 <==> Hit(s.baseDamage) in r.1 && config.Some? && Fires(config.value.plagueChance, s.plagueRoll)
    ensures Poisoned in r.1 <==> Hit(s.baseDamage) in r.1 && config.Some? && Fires(config.value.poisonChance, s.poisonRoll)
  {
    if s.dist >= MELEE_RANGE then (v, [MoveToward])
    else if v.attackCooldown > 0.0 then (v, [])
    else if v.isBoss && s.bossRoll < HEAVY_CHANCE then (v, [PrepareHeavy])
    else
      var plague := config.Some? && Fires(config.value.plagueChance, s.plagueRoll);
      var poison := config.Some? && Fires(config.value.poisonChance, s.poisonRoll);
      (v.(attackCooldown := v.maxAttackCooldown),
       [Hit(s.baseDamage)] + (if plague then [Infected] else []) + (if poison then [Poisoned] else []))
  }

  /** One monster's turn in handleMonsterBehavior, on its fields: with a
      sprite, it spots a player in sight closer than 10; once alerted it
      resolves a triggered heavy blow, and unless it is preparing one, takes
      its close-combat step. `config` is the catalog entry of its type. */
  function Behave(v: MonsterView, s: Sense, config: Option<MonsterDef>): (r: (MonsterView, seq<MonsterEvent>))
    ensures v.sprite.None? ==> r == (v, [])
    ensures r.0 == v.(spottedPlayer := r.0.spottedPlayer, triggerPowerfulAttack := r.0.triggerPowerfulAttack,
                      attackCooldown := r.0.attackCooldown)
    ensures r.0.spottedPlayer <==> v.spottedPlayer || (v.sprite.Some? && s.lineOfSight && s.dist < SIGHT_RANGE)
    ensures r.0.triggerPowerfulAttack ==> v.triggerPowerfulAttack
    ensures r.0.attackCooldown == v.attackCooldown || r.0.attackCooldown == v.maxAttackCooldown
    ensures !r.0.spottedPlayer ==> r.1 == []
  {
    if v.sprite.None? then (v, [])
    else
      var sees := !v.spottedPlayer && s.lineOfSight && s.dist < SIGHT_RANGE;
      var v1 := if sees then v.(spottedPlayer := true) else v;
      var e1 := if sees then [Spotted] else [];
      if !v1.spottedPlayer then (v1, e1)
      else
        var g := Engage(v1, s, config);
        (g.0, e1 + g.1)
  }

  /** The turn of an alerted monster: a pending heavy blow resolves first;
      unless it is still preparing one, the close-combat step follows. */
  function Engage(v: MonsterView, s: Sense, config: Option<MonsterDef>): (r: (MonsterView, seq<MonsterEvent>))
    ensures r.0 == v.(triggerPowerfulAttack := r.0.triggerPowerfulAttack, attackCooldown := r.0.attackCooldown)
    ensures r.0.triggerPowerfulAttack ==> v.triggerPowerfulAttack
    ensures r.0.attackCooldown == v.attackCooldown || r.0.attackCooldown == v.maxAttackCooldown
    ensures v.preparingPowerfulAttack ==> r == ResolveHeavy(v, s)
  {
    var h := ResolveHeavy(v, s);
    if h.0.preparingPowerfulAttack then h
    else
      var m := Melee(h.0, s, config);
      (m.0, h.1 + m.1)
  }

  /** With a positive cooldown, a monster lands at most one blow a frame:
      the heavy blow restarts the cooldown before the normal attack checks
      it. */
  lemma OneBlowPerFrame(v: MonsterView, s: Sense, config: Option<MonsterDef>)
    requires v.maxAttackCooldown > 0.0
    ensures var r := Behave(v, s, config);
            !(HeavyHit(HeavyDamage(s.heavyBase)) in r.1 && Hit(s.baseDamage) in r.1)
  {
    if v.sprite.Some? {
      var sees := !v.spottedPlayer && s.lineOfSight && s.dist < SIGHT_RANGE;
      var v1 := if sees then v.(spottedPlayer := true) else v;
      if v1.spottedPlayer {
        var h := ResolveHeavy(v1, s);
        if HeavyHit(HeavyDamage(s.heavyBase)) in h.1 && !h.0.preparingPowerfulAttack {
          assert h.0.attackCooldown > 0.0;
          assert Hit(s.baseDamage) !in Melee(h.0, s, config).1;
        }
      }
    }
  }

  /** An alerted monster out of reach always moves toward the player unless
      it is preparing a heavy blow, and one within reach never moves. */
  lemma MovesIffOutOfReach(v: MonsterView, s: Sense, config: Option<MonsterDef>)
    ensures var r := Behave(v, s, config);
            MoveToward in r.1 <==>
              v.sprite.Some? && r.0.spottedPlayer && !v.preparingPowerfulAttack && s.dist >= MELEE_RANGE
  {
    if v.sprite.Some? {
      var sees := !v.spottedPlayer && s.lineOfSight && s.dist < SIGHT_RANGE;
      var v1 := if sees then v.(spottedPlayer := true) else v;
      if v1.spottedPlayer {
        var h := ResolveHeavy(v1, s);
        assert MoveToward !in (if sees then [Spotted] else []) + h.1;
      }
    }
  }

  /** No shipped monster type can infect or poison: the catalog sets neither
      chance. */
  lemma ShippedMonstersCarryNoStatus(v: MonsterView, s: Sense, k: nat)
    requires k < |MONSTERS|
    ensures Infected !in Behave(v, s, Some(MONSTERS[k].1)).1
    ensures Poisoned !in Behave(v, s, Some(MONSTERS[k].1)).1
  {
    MonsterCatalogDefaults();
  }

  /** The turn of one monster, updating its fields in place: update (which
      does nothing), then the rules of Behave with its catalog entry
      `MONSTERS[m.type]`. */
  method MonsterTurn(m: Monster, delta: real, s: Sense) returns (events: seq<MonsterEvent>)
    modifies m`spottedPlayer, m`triggerPowerfulAttack, m`attackCooldown
    ensures m.View() == Behave(old(m.View()), s, Lookup(MONSTERS, m.monsterType)).0
    ensures events == Behave(old(m.View()), s, Lookup(MONSTERS, m.monsterType)).1
  {
    m.Update(delta);
    events := [];
    if m.sprite.None? {
      return;
    }
    if !m.spottedPlayer && s.lineOfSight && s.dist < SIGHT_RANGE {
      m.spottedPlayer := true;
      events := events + [Spotted];
    }
    if !m.spottedPlayer {
      return;
    }
    var rest := EngageStep(m, s);
    events := events + rest;
  }

  /** The alerted monster's turn, in place. */
  method EngageStep(m: Monster, s: Sense) returns (events: seq<MonsterEvent>)
    modifies m`triggerPowerfulAttack, m`attackCooldown
    ensures m.View() == Engage(old(m.View()), s, Lookup(MONSTERS, m.monsterType)).0
    ensures events == Engage(old(m.View()), s, Lookup(MONSTERS, m.monsterType)).1
  {
    events := HeavyStep(m, s);
    if m.preparingPowerfulAttack {
      return;
    }
    var melee := MeleeStep(m, s, Lookup(MONSTERS, m.monsterType));
    events := events + melee;
  }

  /** The heavy-blow step of an alerted monster, in place. */
  method HeavyStep(m: Monster, s: Sense) returns (events: seq<MonsterEvent>)
    modifies m`triggerPowerfulAttack, m`attackCooldown
    ensures m.View() == ResolveHeavy(old(m.View()), s).0
    ensures events == ResolveHeavy(old(m.View()), s).1
  {
    events := [];
    if m.isBoss && m.triggerPowerfulAttack {
      m.triggerPowerfulAttack := false;
      if s.dist < HEAVY_RANGE {
        events := [HeavyHit(HeavyDamage(s.heavyBase))];
      } else {
        events := [HeavyMissed];
      }
      m.attackCooldown := m.maxAttackCooldown;
    }
  }

  /** The close-combat step, in place. */
  method MeleeStep(m: Monster, s: Sense, config: Option<MonsterDef>) returns (events: seq<MonsterEvent>)
    modifies m`attackCooldown
    ensures m.View() == Melee(old(m.View()), s, config).0
    ensures events == Melee(old(m.View()), s, config).1
  {
    events := [];
    if s.dist < MELEE_RANGE {
      if m.attackCooldown <= 0.0 {
        if m.isBoss && s.bossRoll < HEAVY_CHANCE {
          events := [PrepareHeavy];
        } else {
          events := [Hit(s.baseDamage)];
          if config.Some? && Fires(config.value.plagueChance, s.plagueRoll) {
            events := events + [Infected];
          }
          if config.Some? && Fires(config.value.poisonChance, s.poisonRoll) {
            events := events + [Poisoned];
          }
          m.attackCooldown := m.maxAttackCooldown;
        }
      }
    } else {
      events := [MoveToward];
    }
  }

  // ---------------------------------------------------------------------
  // Picking up loot
  // ---------------------------------------------------------------------

  /** A pile as the pickup rule sees it in one frame: whether its box meets
      the player's, and what it holds. */
  datatype Pile = Pile(touching: bool, item: Option<Item>, amount: int)

  /** What the pickup rule reads and writes outside the loot list: the
      player's gold and backpack, and the time of the last "backpack full"
      message (the caller's reference cell). */
  datatype Purse = Purse(gold: int, inventory: seq<Item>, lastFullNotice: int)

  datatype PickupEvent = PickedItem(name: string) | PickedGold(amount: int) | BackpackFull

  /** Milliseconds between two "backpack full" messages. */
  const FULL_NOTICE_GAP := 3000

  /** The outcome of looking at one pile. */
  datatype Visit = Visit(purse: Purse, taken: bool, log: seq<PickupEvent>)

  /** One pile, in the order of the source's branches. */
  function VisitPile(p: Pile, accepted: bool, pu: Purse, maxInventory: int, now: int): (v: Visit)
    ensures v.taken <==> p.touching && (p.item.None? || (|pu.inventory| < maxInventory && accepted))
    ensures |v.log| <= 1
  {
    if !p.touching then Visit(pu, false, [])
    else if p.item.Some? then
      if |pu.inventory| >= maxInventory then
        if now - pu.lastFullNotice > FULL_NOTICE_GAP then Visit(pu.(lastFullNotice := now), false, [BackpackFull])
        else Visit(pu, false, [])
      else if accepted then Visit(pu.(inventory := pu.inventory + [p.item.value]), true, [PickedItem(p.item.value.name)])
      else Visit(pu, false, [])
    else Visit(pu.(gold := pu.gold + p.amount), true, [PickedGold(p.amount)])
  }

  /** What one pile does: gold on a touched pile is always taken; an item
      only when the backpack has room and addItem (not part of this model;
      its verdict is `accepted`) takes it; a full backpack is reported only
      when more than FULL_NOTICE_GAP milliseconds have passed since the
      last report. */
  lemma VisitPileMeans(p: Pile, accepted: bool, pu: Purse, maxInventory: int, now: int)
    ensures var v := VisitPile(p, accepted, pu, maxInventory, now);
            (v.taken ==> p.touching) &&
            (p.touching && p.item.None? ==> v.taken && v.purse.gold == pu.gold + p.amount) &&
            (!(p.touching && p.item.None?) ==> v.purse.gold == pu.gold) &&
            (v.taken && p.item.Some? <==> p.touching && p.item.Some? && |pu.inventory| < maxInventory && accepted) &&
            v.purse.inventory == (if v.taken && p.item.Some? then pu.inventory + [p.item.value] else pu.inventory) &&
            (BackpackFull in v.log <==> p.touching && p.item.Some? && |pu.inventory| >= maxInventory &&
                                         now - pu.lastFullNotice > FULL_NOTICE_GAP) &&
            v.purse.lastFullNotice == (if BackpackFull in v.log then now else pu.lastFullNotice)
  {
  }

  /** The state after the piles from the last one back to index k; `taken`
      says, for each of ps[k..], whether it left the list. */
  datatype Progress = Progress(purse: Purse, taken: seq<bool>, log: seq<PickupEvent>)

  function Collect(ps: seq<Pile>, accepted: seq<bool>, k: nat, pu: Purse, maxInventory: int, now: int): (r: Progress)
    requires k <= |ps| == |accepted|
    ensures |r.taken| == |ps| - k
    decreases |ps| - k
  {
    if k == |ps| then Progress(pu, [], [])
    else
      var r := Collect(ps, accepted, k + 1, pu, maxInventory, now);
      var v := VisitPile(ps[k], accepted[k], r.purse, maxInventory, now);
      Progress(v.purse, [v.taken] + r.taken, r.log + v.log)
  }

  /** The entries of s whose flag is false, in order. */
  function Kept<T>(s: seq<T>, taken: seq<bool>): (r: seq<T>)
    requires |s| == |taken|
    ensures |r| <= |s|
  {
    if |s| == 0 then [] else (if taken[0] then [] else [s[0]]) + Kept(s[1..], taken[1..])
  }

  /** How many flags are false. */
  function Untaken(taken: seq<bool>): (n: nat)
    ensures n <= |taken|
  {
    if |taken| == 0 then 0 else (if taken[0] then 0 else 1) + Untaken(taken[1..])
  }

  lemma {:induction false} UntakenAppend(a: seq<bool>, b: seq<bool>)
    ensures Untaken(a + b) == Untaken(a) + Untaken(b)
  {
    if |a| == 0 {
      assert a + b == b;
    } else {
      assert (a + b)[0] == a[0];
      assert (a + b)[1..] == a[1..] + b;
      UntakenAppend(a[1..], b);
    }
  }

  /** An entry stays exactly when it is in the list with its flag false. */
  lemma {:induction false} KeptMembers<T>(s: seq<T>, taken: seq<bool>, x: T)
    requires |s| == |taken|
    ensures x in Kept(s, taken) <==> exists j :: 0 <= j < |s| && s[j] == x && !taken[j]
  {
    if |s| > 0 {
      KeptMembers(s[1..], taken[1..], x);
      if x in Kept(s[1..], taken[1..]) {
        var j :| 1 <= j + 1 < |s| && s[1..][j] == x && !taken[1..][j];
        assert s[j + 1] == x && !taken[j + 1];
      }
      if exists j :: 0 <= j < |s| && s[j] == x && !taken[j] {
        var j :| 0 <= j < |s| && s[j] == x && !taken[j];
        if j > 0 {
          assert s[1..][j - 1] == x && !taken[1..][j - 1];
        }
      }
    }
  }

  /** Exactly the unflagged entries stay: as many as there are false flags. */
  lemma {:induction false} KeptLength<T>(s: seq<T>, taken: seq<bool>)
    requires |s| == |taken|
    ensures |Kept(s, taken)| == Untaken(taken)
  {
    if |s| > 0 {
      KeptLength(s[1..], taken[1..]);
    }
  }

  /** An unflagged entry lands at the position given by the number of
      unflagged entries before it. */
  lemma {:induction false} KeptAt<T>(s: seq<T>, taken: seq<bool>, j: nat)
    requires |s| == |taken| && j < |s| && !taken[j]
    ensures Untaken(taken[..j]) < |Kept(s, taken)|
    ensures Kept(s, taken)[Untaken(taken[..j])] == s[j]
  {
    if j == 0 {
      assert taken[..0] == [];
    } else {
      KeptAt(s[1..], taken[1..], j - 1);
      assert taken[..j] == [taken[0]] + taken[1..][..j - 1];
      UntakenAppend([taken[0]], taken[1..][..j - 1]);
      assert [taken[0]][1..] == [];
    }
  }

  /** The entries that stay keep their relative order: of two unflagged
      entries, the earlier one comes first in the kept list. */
  lemma KeptInOrder<T>(s: seq<T>, taken: seq<bool>, i: nat, j: nat)
    requires |s| == |taken| && i < j < |s| && !taken[i] && !taken[j]
    ensures Untaken(taken[..i]) < Untaken(taken[..j]) < |Kept(s, taken)|
    ensures Kept(s, taken)[Untaken(taken[..i])] == s[i]
    ensures Kept(s, taken)[Untaken(taken[..j])] == s[j]
  {
    KeptAt(s, taken, i);
    KeptAt(s, taken, j);
    assert taken[..j] == taken[..i] + taken[i..j];
    UntakenAppend(taken[..i], taken[i..j]);
    assert taken[i..j][1..] == taken[i + 1..j];
  }

  /** The flags `hp <= 0` of the monsters, one per monster. */
  function DeadFlags(ms: seq<Monster>): (r: seq<bool>)
    reads ms
    ensures |r| == |ms|
    ensures forall j :: 0 <= j < |ms| ==> r[j] == (ms[j].hp <= 0)
  {
    if |ms| == 0 then [] else [ms[0].hp <= 0] + DeadFlags(ms[1..])
  }

  /** The cleanup's survivors are the monster list with the dead taken out,
      so by KeptMembers and KeptInOrder they are exactly the living, in
      their old order. */
  lemma {:induction false} SurvivorsIsKept(ms: seq<Monster>)
    ensures Survivors(ms) == Kept(ms, DeadFlags(ms))
  {
    if |ms| > 0 {
      SurvivorsIsKept(ms[1..]);
      assert DeadFlags(ms)[1..] == DeadFlags(ms[1..]);
    }
  }

  /** The gold of the touched piles that hold no item, from index k on. */
  function TouchingGold(ps: seq<Pile>, k: nat): int
    requires k <= |ps|
    decreases |ps| - k
  {
    if k == |ps| then 0
    else (if ps[k].touching && ps[k].item.None? then ps[k].amount else 0) + TouchingGold(ps, k + 1)
  }

  function NoticeCount(log: seq<PickupEvent>): nat
  {
    if |log| == 0 then 0 else (if log[0] == BackpackFull then 1 else 0) + NoticeCount(log[1..])
  }

  /** All the gold the player touches is credited, whatever the backpack
      holds and in whatever order the piles lie. */
  lemma {:induction false} CollectAllGold(ps: seq<Pile>, accepted: seq<bool>, k: nat, pu: Purse, maxInventory: int, now: int)
    requires k <= |ps| == |accepted|
    ensures Collect(ps, accepted, k, pu, maxInventory, now).purse.gold == pu.gold + TouchingGold(ps, k)
    decreases |ps| - k
  {
    if k < |ps| {
      CollectAllGold(ps, accepted, k + 1, pu, maxInventory, now);
      VisitPileMeans(ps[k], accepted[k], Collect(ps, accepted, k + 1, pu, maxInventory, now).purse, maxInventory, now);
    }
  }

  /** The backpack never grows past its capacity. */
  lemma {:induction false} CollectRespectsCapacity(ps: seq<Pile>, accepted: seq<bool>, k: nat, pu: Purse, maxInventory: int, now: int)
    requires k <= |ps| == |accepted| && |pu.inventory| <= maxInventory
    ensures |Collect(ps, accepted, k, pu, maxInventory, now).purse.inventory| <= maxInventory
    decreases |ps| - k
  {
    if k < |ps| {
      CollectRespectsCapacity(ps, accepted, k + 1, pu, maxInventory, now);
      VisitPileMeans(ps[k], accepted[k], Collect(ps, accepted, k + 1, pu, maxInventory, now).purse, maxInventory, now);
    }
  }

  /** Only a touched pile leaves the list, and every touched pile of gold
      does. */
  lemma {:induction false} CollectTakesTouched(ps: seq<Pile>, accepted: seq<bool>, k: nat, pu: Purse, maxInventory: int, now: int, j: nat)
    requires k <= j < |ps| == |accepted|
    ensures Collect(ps, accepted, k, pu, maxInventory, now).taken[j - k] ==> ps[j].touching
    ensures ps[j].touching && ps[j].item.None? ==> Collect(ps, accepted, k, pu, maxInventory, now).taken[j - k]
    decreases |ps| - k
  {
    if k < j {
      CollectTakesTouched(ps, accepted, k + 1, pu, maxInventory, now, j);
    } else {
      VisitPileMeans(ps[k], accepted[k], Collect(ps, accepted, k + 1, pu, maxInventory, now).purse, maxInventory, now);
    }
  }

  /** However full the backpack and however many item piles are touched,
      one frame reports a full backpack at most once, and the recorded time
      is then the current one. */
  lemma {:induction false} OneNoticePerFrame(ps: seq<Pile>, accepted: seq<bool>, k: nat, pu: Purse, maxInventory: int, now: int)
    requires k <= |ps| == |accepted|
    ensures NoticeCount(Collect(ps, accepted, k, pu, maxInventory, now).log) <= 1
    ensures NoticeCount(Collect(ps, accepted, k, pu, maxInventory, now).log) == 1 ==>
              Collect(ps, accepted, k, pu, maxInventory, now).purse.lastFullNotice == now
    decreases |ps| - k
  {
    if k < |ps| {
      OneNoticePerFrame(ps, accepted, k + 1, pu, maxInventory, now);
      var r := Collect(ps, accepted, k + 1, pu, maxInventory, now);
      var v := VisitPile(ps[k], accepted[k], r.purse, maxInventory, now);
      VisitPileMeans(ps[k], accepted[k], r.purse, maxInventory, now);
      NoticeCountAppend(r.log, v.log);
      assert NoticeCount(v.log) == if BackpackFull in v.log then 1 else 0;
    }
  }

  lemma {:induction false} NoticeCountAppend(a: seq<PickupEvent>, b: seq<PickupEvent>)
    ensures NoticeCount(a + b) == NoticeCount(a) + NoticeCount(b)
    decreases |a|
  {
    if |a| == 0 {
      assert a + b == b;
    } else {
      NoticeCountAppend(a[1..], b);
      assert (a + b)[1..] == a[1..] + b;
    }
  }

  /** Out of reach of every pile, nothing changes. */
  lemma {:induction false} CollectUntouched(ps: seq<Pile>, accepted: seq<bool>, k: nat, pu: Purse, maxInventory: int, now: int)
    requires k <= |ps| == |accepted|
    requires forall j :: k <= j < |ps| ==> !ps[j].touching
    ensures Collect(ps, accepted, k, pu, maxInventory, now).purse == pu
    ensures Collect(ps, accepted, k, pu, maxInventory, now).log == []
    ensures forall j :: 0 <= j < |ps| - k ==> !Collect(ps, accepted, k, pu, maxInventory, now).taken[j]
    decreases |ps| - k
  {
    if k < |ps| {
      CollectUntouched(ps, accepted, k + 1, pu, maxInventory, now);
    }
  }

  /** Nothing flagged, nothing dropped. */
  lemma {:induction false} KeptAll<T>(s: seq<T>, taken: seq<bool>)
    requires |s| == |taken| && forall j :: 0 <= j < |taken| ==> !taken[j]
    ensures Kept(s, taken) == s
  {
    if |s| > 0 {
      KeptAll(s[1..], taken[1..]);
      assert s == [s[0]] + s[1..];
    }
  }

  /** One pass of the pickup loop on the list, as CleanupSplice. */
  lemma {:induction false} KeptSplice<T>(s: seq<T>, t: seq<bool>, i: nat, cur: seq<T>)
    requires i < |s| && |t| == |s| - i && cur == s[..i + 1] + Kept(s[i + 1..], t[1..])
    ensures i < |cur| && cur[i] == s[i]
    ensures t[0] ==> RemoveAt(cur, i) == s[..i] + Kept(s[i..], t)
    ensures !t[0] ==> cur == s[..i] + Kept(s[i..], t)
  {
    assert s[i..][1..] == s[i + 1..];
    assert Kept(s[i..], t) == (if t[0] then [] else [s[i]]) + Kept(s[i + 1..], t[1..]);
    assert s[..i + 1] == s[..i] + [s[i]];
    if t[0] {
      var r := RemoveAt(cur, i);
      assert r == cur[..i] + cur[i + 1..];
      assert cur[..i] == s[..i];
      assert cur[i + 1..] == Kept(s[i + 1..], t[1..]);
    }
  }

  /** A pile as this frame's pickup sees it, from the player's box. */
  function PileOf(l: Loot, camera: Vec3): (p: Pile)
    reads l`box
    ensures p.touching <==> Intersects(PlayerBoxAt(camera), l.box)
    ensures p.item == l.item && p.amount == l.amount
  {
    Pile(Intersects(PlayerBoxAt(camera), l.box), l.item, l.amount)
  }

  function Piles(ls: seq<Loot>, camera: Vec3): (ps: seq<Pile>)
    reads ls`box
    ensures |ps| == |ls|
    ensures forall j :: 0 <= j < |ls| ==> ps[j] == PileOf(ls[j], camera)
  {
    if |ls| == 0 then [] else [PileOf(ls[0], camera)] + Piles(ls[1..], camera)
  }

  /** The removed flags of a list of piles. */
  ghost function RemovedFlags(ls: seq<Loot>): (r: seq<bool>)
    reads ls
    ensures |r| == |ls| && forall j :: 0 <= j < |ls| ==> r[j] == ls[j].removed
  {
    if |ls| == 0 then [] else [ls[0].removed] + RemovedFlags(ls[1..])
  }

  /** The flags `taken` of the piles from index k on, widened to the whole
      list: the piles before k are not yet taken. */
  ghost function Marks(k: nat, taken: seq<bool>): (r: seq<bool>)
    ensures |r| == k + |taken|
    ensures forall j :: 0 <= j < k ==> !r[j]
    ensures forall j :: k <= j < |r| ==> r[j] == taken[j - k]
  {
    seq(k, _ => false) + taken
  }

  lemma MarksStep(k: nat, taken: seq<bool>, b: bool, n: nat)
    requires 0 < k && n == k + |taken|
    ensures forall j :: 0 <= j < n ==> Marks(k - 1, [b] + taken)[j] == (Marks(k, taken)[j] || (j == k - 1 && b))
  {
  }
}
