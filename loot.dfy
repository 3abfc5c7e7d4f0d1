/** A loot pile on the dungeon floor (src/loot.js). */
module Loots {
  import opened Common
  import opened Items
  import opened Chroma

  /** The pickup box is a cube of side 0.5. */
  const LOOT_BOX_SIZE: Vec3 := Vec3(0.5, 0.5, 0.5)

  /** Where the coin sprite stands: the pile's x and z, at floor level 0.2. */
  function LootSpritePosition(p: Vec3): (s: Vec3)
    ensures s.x == p.x && s.z == p.z && s.y == 0.2
  {
    Vec3(p.x, 0.2, p.z)
  }

  class Loot {
    const position: Vec3
    const amount: int
    /** Read by the pickup rule; the constructor takes no item, so it is
        never set on a pile. */
    const item: Option<Item>
    var collected: bool
    var removed: bool
    var sprite: Option<Sprite>
    var box: Box

    /** `new Loot(scene, position, amount)`. The sprite appears only once its
        texture has loaded (OnTextureLoaded). */
    constructor (position: Vec3, amount: int)
      ensures this.position == position && this.amount == amount && item == None
      ensures !collected && !removed && sprite == None
      ensures box == BoxAround(position, LOOT_BOX_SIZE)
    {
      this.position := position;
      this.amount := amount;
      item := None;
      collected := false;
      removed := false;
      sprite := None;
      box := BoxAround(position, LOOT_BOX_SIZE);
    }

    /** `new Loot(scene, position)`: the amount defaults to 1. */
    constructor WithDefaultAmount(position: Vec3)
      ensures this.position == position && amount == 1 && item == None
      ensures !collected && !removed && sprite == None
      ensures box == BoxAround(position, LOOT_BOX_SIZE)
    {
      this.position := position;
      amount := 1;
      item := None;
      collected := false;
      removed := false;
      sprite := None;
      box := BoxAround(position, LOOT_BOX_SIZE);
    }

    /** updateBox: the 0.5 cube around the sprite if there is one, else
        around the stored position. */
    method UpdateBox()
      modifies this`box
      ensures box == BoxAround(if sprite.Some? then sprite.value.position else position, LOOT_BOX_SIZE)
    {
      var center := if sprite.Some? then sprite.value.position else position;
      box := BoxAround(center, LOOT_BOX_SIZE);
    }

    /** The texture-load callback: key out the green background of the
        pixel buffer, then, unless the pile was removed meanwhile, create the
        sprite at floor level and re-centre the box on it. */
    method OnTextureLoaded(pixels: array<byte>)
      requires pixels.Length % 4 == 0
      modifies pixels, this`sprite, this`box
      ensures pixels[..] == Keyed(old(pixels[..]), LOOT_THRESHOLD)
      ensures old(removed) ==> sprite == old(sprite) && box == old(box)
      ensures !old(removed) ==>
                sprite == Some(Sprite(LootSpritePosition(position), Vec3(0.4, 0.4, 1.0))) &&
                box == BoxAround(LootSpritePosition(position), LOOT_BOX_SIZE)
    {
      ChromaKey(pixels, LOOT_THRESHOLD);
      if removed {
        return;
      }
      sprite := Some(Sprite(LootSpritePosition(position), Vec3(0.4, 0.4, 1.0)));
      UpdateBox();
    }

    /** remove: mark the pile removed and take its sprite, if any, out of
        the scene (`detached`). Calling it again leaves the same state. */
    method Remove() returns (detached: bool)
      modifies this`removed
      ensures removed
      ensures detached == sprite.Some?
    {
      removed := true;
      detached := sprite.Some?;
    }

    function GetBoundingBox(): (b: Box)
      reads this
      ensures b == box
    {
      box
    }
  }
}
