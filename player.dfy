/** The player (src/player.js): attack cooldown and swing, timers, movement
    keys, and movement with sliding collision against walls and monsters. */
module Players {
  import opened Common
  import opened Items
  import opened Weapons

  /** A direction key: WASD or the arrow keys. */
  datatype MoveKey = Forward | Backward | Left | Right

  /** The move flag a `KeyboardEvent.code` drives, if any. */
  function KeyDirection(code: string): (k: Option<MoveKey>)
    ensures k == Some(Forward) <==> code == "ArrowUp" || code == "KeyW"
    ensures k == Some(Left) <==> code == "ArrowLeft" || code == "KeyA"
    ensures k == Some(Backward) <==> code == "ArrowDown" || code == "KeyS"
    ensures k == Some(Right) <==> code == "ArrowRight" || code == "KeyD"
  {
    if code == "ArrowUp" || code == "KeyW" then Some(Forward)
    else if code == "ArrowLeft" || code == "KeyA" then Some(Left)
    else if code == "ArrowDown" || code == "KeyS" then Some(Backward)
    else if code == "ArrowRight" || code == "KeyD" then Some(Right)
    else None
  }

  /** The four move flags: forward, backward, left, right. */
  datatype MoveFlags = MoveFlags(forward: bool, backward: bool, left: bool, right: bool)

  /** The flags with the one for `k` set to `v` and the others kept. */
  function WithFlag(f: MoveFlags, k: MoveKey, v: bool): (r: MoveFlags)
    ensures k == Forward ==> r == f.(forward := v)
    ensures k == Backward ==> r == f.(backward := v)
    ensures k == Left ==> r == f.(left := v)
    ensures k == Right ==> r == f.(right := v)
  {
    match k
    case Forward => f.(forward := v)
    case Backward => f.(backward := v)
    case Left => f.(left := v)
    case Right => f.(right := v)
  }

  /** A key-down followed by the matching key-up restores the flags of a
      released key, whatever else was held. */
  lemma KeyDownThenUp(f: MoveFlags, code: string)
    requires KeyDirection(code).Some?
    ensures WithFlag(WithFlag(f, KeyDirection(code).value, true), KeyDirection(code).value, false)
            == WithFlag(f, KeyDirection(code).value, false)
  {
  }

  /** What a swing sees of one monster, in list order: whether its sprite
      exists, its distance, and the dot product of the view direction with
      the direction to it. */
  datatype SwingTarget = SwingTarget(hasSprite: bool, dist: real, dot: real)

  /** The swing's result: which monster was struck, and for how much. */
  datatype HitInfo = HitInfo(target: nat, damage: int)

  const MAX_ATTACK_COOLDOWN: real := 2.0
  const SLASH_TIME: real := 0.2
  const SWING_REACH: real := 2.0
  const SWING_COS: real := 0.5
  const PLAYER_BOX_SIZE: Vec3 := Vec3(0.5, 1.8, 0.5)

  /** In reach (under 2.0) and inside the cone of cosine 0.5 (about 60
      degrees either side); a monster without a sprite is never struck. */
  function InSwing(t: SwingTarget): (s: bool)
    ensures !t.hasSprite ==> !s
    ensures s ==> t.dist < 2.0 && t.dot > 0.5
  {
    t.hasSprite && t.dist < SWING_REACH && t.dot > SWING_COS
  }

  /** The monster a swing strikes: the first in list order that is in reach
      and in the cone. */
  function FirstInSwing(ts: seq<SwingTarget>): (r: Option<nat>)
    ensures r.Some? ==> r.value < |ts| && InSwing(ts[r.value])
    ensures r.Some? ==> forall j :: 0 <= j < r.value ==> !InSwing(ts[j])
    ensures r.None? ==> forall j :: 0 <= j < |ts| ==> !InSwing(ts[j])
  {
    if |ts| == 0 then None
    else if InSwing(ts[0]) then Some(0)
    else
      var rest := FirstInSwing(ts[1..]);
      if rest.Some? then Some(rest.value + 1) else None
  }

  /** `Math.floor(Math.random() * 3) + 2`: 2, 3 or 4. */
  function SwingDamage(draw: real): (d: int)
    requires IsDraw(draw)
    ensures 2 <= d <= 4
  {
    DrawIndex(draw, 3) + 2
  }

  /** The damage roll reaches each of 2, 3 and 4. */
  lemma {:induction false} SwingDamageCovers(d: int)
    requires 2 <= d <= 4
    ensures exists draw :: IsDraw(draw) && SwingDamage(draw) == d
  {
    DrawIndexCovers(d - 2, 3);
    var draw := (d - 2) as real / 3.0;
    assert IsDraw(draw) && SwingDamage(draw) == d;
  }

  /** A ground-plane displacement: the per-frame move along the normalised
      combined direction of the held keys, computed from the camera's facing. */
  datatype Ground = Ground(dx: real, dz: real)

  /** The player's collision box centred on a camera position. */
  function PlayerBoxAt(center: Vec3): (b: Box)
    ensures b == BoxAround(center, PLAYER_BOX_SIZE)
  {
    BoxAround(center, PLAYER_BOX_SIZE)
  }

  /** Whether a box hits a wall or the bounding box of a monster that has one. */
  function HitsObstacle(b: Box, walls: seq<Box>, monsterBoxes: seq<Option<Box>>): (hit: bool)
    ensures (forall j :: 0 <= j < |monsterBoxes| ==> monsterBoxes[j].None?) ==>
              (hit <==> exists i :: 0 <= i < |walls| && Intersects(b, walls[i]))
    ensures |walls| == 0 && |monsterBoxes| == 0 ==> !hit
  {
    (exists i :: 0 <= i < |walls| && Intersects(b, walls[i])) ||
    (exists j :: 0 <= j < |monsterBoxes| && monsterBoxes[j].Some? && Intersects(b, monsterBoxes[j].value))
  }

  /** The player's box at `center` meets no wall and no monster box. */
  function Free(center: Vec3, walls: seq<Box>, monsterBoxes: seq<Option<Box>>): (free: bool)
    ensures free ==> forall i :: 0 <= i < |walls| ==> !Intersects(PlayerBoxAt(center), walls[i])
    ensures free ==> forall j :: 0 <= j < |monsterBoxes| && monsterBoxes[j].Some? ==>
                       !Intersects(PlayerBoxAt(center), monsterBoxes[j].value)
  {
    !HitsObstacle(PlayerBoxAt(center), walls, monsterBoxes)
  }

  /** The sliding-collision rule: take the whole step if the box there is
      free; otherwise apply the x part and the z part each on its own, each
      tested from the original position. Height never changes. */
  function Slide(p: Vec3, step: Ground, walls: seq<Box>, monsterBoxes: seq<Option<Box>>): (r: Vec3)
    ensures r.y == p.y
    ensures Free(Vec3(p.x + step.dx, p.y, p.z + step.dz), walls, monsterBoxes) ==>
              r == Vec3(p.x + step.dx, p.y, p.z + step.dz)
    ensures r.x == (if Free(Vec3(p.x + step.dx, p.y, p.z + step.dz), walls, monsterBoxes) ||
                       Free(Vec3(p.x + step.dx, p.y, p.z), walls, monsterBoxes)
                    then p.x + step.dx else p.x)
    ensures r.z == (if Free(Vec3(p.x + step.dx, p.y, p.z + step.dz), walls, monsterBoxes) ||
                       Free(Vec3(p.x, p.y, p.z + step.dz), walls, monsterBoxes)
                    then p.z + step.dz else p.z)
  {
    var next := Vec3(p.x + step.dx, p.y, p.z + step.dz);
    if Free(next, walls, monsterBoxes) then next
    else
      var x := if Free(Vec3(p.x + step.dx, p.y, p.z), walls, monsterBoxes) then p.x + step.dx else p.x;
      var z := if Free(Vec3(p.x, p.y, p.z + step.dz), walls, monsterBoxes) then p.z + step.dz else p.z;
      Vec3(x, p.y, z)
  }

  /** Because the two axes are tested independently, a diagonal step into
      the corner of a wall is taken whole: here the player stands diagonally
      next to the wall tile (1, 1), both single-axis moves are free, and the
      slide ends where the box overlaps the wall. */
  lemma SlideCanEnterCorner()
    ensures var walls := [Box(Vec3(0.5, 0.0, 0.5), Vec3(1.5, 2.0, 1.5))];
            var p := Vec3(0.0, 0.5, 0.0);
            var r := Slide(p, Ground(0.3, 0.3), walls, []);
            Free(p, walls, []) && !Free(r, walls, []) && r == Vec3(0.3, 0.5, 0.3)
  {
    var walls := [Box(Vec3(0.5, 0.0, 0.5), Vec3(1.5, 2.0, 1.5))];
    assert Intersects(PlayerBoxAt(Vec3(0.3, 0.5, 0.3)), walls[0]);
  }

  class Player {
    var position: Vec3
    var isLocked: bool
    const speed: real
    const weapon: string
    var slashTimer: real
    var slashVisible: bool
    var slashOpacity: real
    var attackCooldown: real
    const maxAttackCooldown: real
    var moveForward: bool
    var moveBackward: bool
    var moveLeft: bool
    var moveRight: bool
    // Character state that the encounter, vendor and status rules read and
    // write; it is set up by code that is not part of this model.
    var hp: int
    var str: int
    var gold: int
    var inventory: seq<Item>
    var maxInventory: int
    var isGodMode: bool

    /** `new Player(camera, domElement, dungeon)`, with the camera position
        and the character state given. */
    constructor (cameraPosition: Vec3, hp: int, str: int, gold: int, maxInventory: int, isGodMode: bool)
      ensures position == cameraPosition && !isLocked && speed == 5.0 && weapon == "Basic Sword"
      ensures slashTimer == 0.0 && !slashVisible && attackCooldown == 0.0 && maxAttackCooldown == MAX_ATTACK_COOLDOWN
      ensures Flags() == MoveFlags(false, false, false, false)
      ensures this.hp == hp && this.str == str && this.gold == gold && inventory == []
      ensures this.maxInventory == maxInventory && this.isGodMode == isGodMode
    {
      position := cameraPosition;
      isLocked := false;
      speed := 5.0;
      weapon := "Basic Sword";
      slashTimer := 0.0;
      slashVisible := false;
      slashOpacity := 0.0;
      attackCooldown := 0.0;
      maxAttackCooldown := MAX_ATTACK_COOLDOWN;
      moveForward, moveBackward, moveLeft, moveRight := false, false, false, false;
      this.hp := hp;
      this.str := str;
      this.gold := gold;
      inventory := [];
      this.maxInventory := maxInventory;
      this.isGodMode := isGodMode;
    }

    function Flags(): (f: MoveFlags)
      reads this
      ensures f.forward == moveForward && f.backward == moveBackward
      ensures f.left == moveLeft && f.right == moveRight
    {
      MoveFlags(moveForward, moveBackward, moveLeft, moveRight)
    }

    /** The pointer-lock 'lock' and 'unlock' events. */
    method OnLock()
      modifies this`isLocked
      ensures isLocked
    {
      isLocked := true;
    }

    method OnUnlock()
      modifies this`isLocked
      ensures !isLocked
    {
      isLocked := false;
    }

    /** keydown: sets exactly the flag of a direction key; other keys do nothing. */
    method OnKeyDown(code: string)
      modifies this`moveForward, this`moveBackward, this`moveLeft, this`moveRight
      ensures Flags() == if KeyDirection(code).Some? then WithFlag(old(Flags()), KeyDirection(code).value, true)
                         else old(Flags())
    {
      match KeyDirection(code)
      case Some(Forward) => moveForward := true;
      case Some(Left) => moveLeft := true;
      case Some(Backward) => moveBackward := true;
      case Some(Right) => moveRight := true;
      case None =>
    }

    /** keyup: clears exactly the flag of a direction key. */
    method OnKeyUp(code: string)
      modifies this`moveForward, this`moveBackward, this`moveLeft, this`moveRight
      ensures Flags() == if KeyDirection(code).Some? then WithFlag(old(Flags()), KeyDirection(code).value, false)
                         else old(Flags())
    {
      match KeyDirection(code)
      case Some(Forward) => moveForward := false;
      case Some(Left) => moveLeft := false;
      case Some(Backward) => moveBackward := false;
      case Some(Right) => moveRight := false;
      case None =>
    }

    /** attack: refused (None, nothing changes) while the cooldown runs;
        otherwise restarts the cooldown and the slash, and strikes the first
        monster in reach and cone, if any, for 2 to 4 damage. The struck
        monster's own takeDamage is not part of this model: the hit is
        returned to the caller. */
    method Attack(targets: seq<SwingTarget>, damageDraw: real) returns (hit: Option<HitInfo>)
      requires IsDraw(damageDraw)
      modifies this`attackCooldown, this`slashTimer, this`slashVisible, this`slashOpacity
      ensures old(attackCooldown) > 0.0 ==>
                hit == None && attackCooldown == old(attackCooldown) && slashTimer == old(slashTimer) &&
                slashVisible == old(slashVisible) && slashOpacity == old(slashOpacity)
      ensures old(attackCooldown) <= 0.0 ==>
                attackCooldown == maxAttackCooldown && slashTimer == SLASH_TIME && slashVisible && slashOpacity == 1.0
      ensures old(attackCooldown) <= 0.0 ==>
                hit == (if FirstInSwing(targets).Some?
                        then Some(HitInfo(FirstInSwing(targets).value, SwingDamage(damageDraw))) else None)
    {
      if attackCooldown > 0.0 {
        return None;
      }
      attackCooldown := maxAttackCooldown;
      slashTimer := SLASH_TIME;
      slashVisible := true;
      slashOpacity := 1.0;

      hit := None;
      var i := 0;
      while i < |targets|
        invariant 0 <= i <= |targets|
        invariant forall j :: 0 <= j < i ==> !InSwing(targets[j])
      {
        var t := targets[i];
        if t.hasSprite && t.dist < SWING_REACH && t.dot > SWING_COS {
          hit := Some(HitInfo(i, SwingDamage(damageDraw)));
          break;
        }
        i := i + 1;
      }
      FirstInSwingIs(targets, if hit.Some? then Some(hit.value.target) else None);
    }

    /** The box test of a candidate camera position: walls first, then the
        monsters that have a bounding box, stopping at the first hit. */
    static method Blocked(center: Vec3, walls: seq<Box>, monsterBoxes: seq<Option<Box>>) returns (hit: bool)
      ensures hit == !Free(center, walls, monsterBoxes)
    {
      var box := PlayerBoxAt(center);
      hit := false;
      var i := 0;
      while i < |walls|
        invariant 0 <= i <= |walls|
        invariant forall j :: 0 <= j < i ==> !Intersects(box, walls[j])
      {
        if Intersects(box, walls[i]) {
          hit := true;
          break;
        }
        i := i + 1;
      }
      if !hit {
        var k := 0;
        while k < |monsterBoxes|
          invariant 0 <= k <= |monsterBoxes|
          invariant forall j :: 0 <= j < k ==> !(monsterBoxes[j].Some? && Intersects(box, monsterBoxes[j].value))
        {
          var mb := monsterBoxes[k];
          if mb.Some? && Intersects(box, mb.value) {
            hit := true;
            break;
          }
          k := k + 1;
        }
      }
    }

    /** update: the cooldown and the slash timer count down while positive
        (the slash hides once its timer runs out); then, only while the
        pointer is locked, the player takes `step` under the sliding rule.
        `step` is zero when the held keys cancel out. */
    method Update(delta: real, walls: seq<Box>, monsterBoxes: seq<Option<Box>>, step: Ground)
      requires moveForward == moveBackward && moveLeft == moveRight ==> step == Ground(0.0, 0.0)
      modifies this`attackCooldown, this`slashTimer, this`slashVisible, this`slashOpacity, this`position
      ensures attackCooldown == if old(attackCooldown) > 0.0 then old(attackCooldown) - delta else old(attackCooldown)
      ensures slashTimer == if old(slashTimer) > 0.0 then old(slashTimer) - delta else old(slashTimer)
      ensures slashVisible == if old(slashTimer) > 0.0 && slashTimer <= 0.0 then false else old(slashVisible)
      ensures old(slashTimer) > 0.0 ==> slashOpacity == (if slashTimer / SLASH_TIME > 0.0 then slashTimer / SLASH_TIME else 0.0)
      ensures old(slashTimer) <= 0.0 ==> slashOpacity == old(slashOpacity)
      ensures position == if isLocked then Slide(old(position), step, walls, monsterBoxes) else old(position)
    {
      if attackCooldown > 0.0 {
        attackCooldown := attackCooldown - delta;
      }
      if slashTimer > 0.0 {
        slashTimer := slashTimer - delta;
        slashOpacity := if slashTimer / SLASH_TIME > 0.0 then slashTimer / SLASH_TIME else 0.0;
        if slashTimer <= 0.0 {
          slashVisible := false;
        }
      }
      if !isLocked {
        return;
      }
      position := SlideStep(position, step, walls, monsterBoxes);
    }

    /** The movement part of update: try the whole step, and on a collision
        each axis on its own from the original position. */
    static method SlideStep(p: Vec3, step: Ground, walls: seq<Box>, monsterBoxes: seq<Option<Box>>) returns (r: Vec3)
      ensures r == Slide(p, step, walls, monsterBoxes)
    {
      r := p;
      var next := Vec3(p.x + step.dx, p.y, p.z + step.dz);
      var collision := Blocked(next, walls, monsterBoxes);
      if !collision {
        r := next;
      } else {
        var colX := Blocked(Vec3(p.x + step.dx, p.y, p.z), walls, monsterBoxes);
        if !colX {
          r := r.(x := p.x + step.dx);
        }
        var colZ := Blocked(Vec3(p.x, p.y, p.z + step.dz), walls, monsterBoxes);
        if !colZ {
          r := r.(z := p.z + step.dz);
        }
      }
    }

    /** addGold is not part of this model; its callers rely on it crediting
        the amount. */
    method AddGold(amount: int)
      modifies this`gold
      ensures gold == old(gold) + amount
    {
      gold := gold + amount;
    }

    /** addItem is not part of this model; `accepted` is its verdict, and an
        accepted item is appended to the inventory. */
    method AddItem(item: Item, accepted: bool) returns (ok: bool)
      modifies this`inventory
      ensures ok == accepted
      ensures inventory == if ok then old(inventory) + [item] else old(inventory)
    {
      ok := accepted;
      if ok {
        inventory := inventory + [item];
      }
    }
  }

  /** The first-match search of a swing agrees with FirstInSwing. */
  lemma {:induction false} FirstInSwingIs(ts: seq<SwingTarget>, k: Option<nat>)
    requires k.Some? ==> k.value < |ts| && InSwing(ts[k.value]) && forall j :: 0 <= j < k.value ==> !InSwing(ts[j])
    requires k.None? ==> forall j :: 0 <= j < |ts| ==> !InSwing(ts[j])
    ensures FirstInSwing(ts) == k
    decreases |ts|
  {
    if |ts| > 0 && !InSwing(ts[0]) {
      var k' := if k.Some? then Some(k.value - 1) else None;
      FirstInSwingIs(ts[1..], k');
    }
  }
}
