/** Status effects (src/statusDefinitions.js): the plague debuff, which takes
    2% of the current hp, rounded up, every tick, and the strength buff,
    which adds 5 str while it lasts. */
module Statuses {
  import opened Common
  import opened Players

  datatype StatusKind = Buff | Debuff

  /** A status record. The hooks a record defines are flags here; their
      effects are the methods below. */
  datatype StatusDef = StatusDef(
    id: string,
    name: string,
    kind: StatusKind,
    icon: string,
    duration: int,
    tickInterval: Option<int>,
    description: string,
    hasOnTick: bool,
    hasOnApply: bool,
    hasOnRemove: bool)

  const STATUSES: seq<(string, StatusDef)> := [
    ("plague", StatusDef("plague", "Plague", Debuff, "/plague_icon.png", 120, Some(10),
                         "Loses 2% current HP every 10s.", true, false, false)),
    ("strength", StatusDef("strength", "Strength Boost", Buff, "/god_mode_icon.png", 60, None,
                           "+5 STR for 60s", false, true, true))
  ]

  /** Plague is a debuff lasting 120 with a tick every 10; strength is a buff
      lasting 60 with no tick, only apply and remove hooks. */
  lemma StatusCatalog()
    ensures |STATUSES| == 2
    ensures forall k :: 0 <= k < |STATUSES| ==> STATUSES[k].0 == STATUSES[k].1.id
    ensures var p := STATUSES[0].1;
            p.id == "plague" && p.kind == Debuff && p.duration == 120 && p.tickInterval == Some(10) &&
            p.hasOnTick && !p.hasOnApply && !p.hasOnRemove
    ensures var s := STATUSES[1].1;
            s.id == "strength" && s.kind == Buff && s.duration == 60 && s.tickInterval.None? &&
            !s.hasOnTick && s.hasOnApply && s.hasOnRemove
  {
  }

  /** The lines a status hook hands to the logger. */
  datatype LogLine =
    | PlagueWracks(damage: int)
    | Succumbed
    | StrengthSurges
    | StrengthFades

  /** `Math.ceil(hp * 0.02)`, that is hp/50 rounded up (on exact arithmetic). */
  function PlagueDamage(hp: int): (d: int)
    ensures 50 * (d - 1) < hp <= 50 * d
  {
    (hp + 49) / 50
  }

  /** `Math.max(0, hp - damage)`. */
  function AfterPlague(hp: int): (h: int)
    ensures h >= 0
    ensures h == 0 || h == hp - PlagueDamage(hp)
  {
    if hp - PlagueDamage(hp) > 0 then hp - PlagueDamage(hp) else 0
  }

  /** On a living player the plague takes at least 1 and at most all of the
      hp, so a tick always hurts and never overshoots. */
  lemma PlagueBounds(hp: int)
    requires hp > 0
    ensures 1 <= PlagueDamage(hp) <= hp
    ensures AfterPlague(hp) == hp - PlagueDamage(hp)
    ensures 0 <= AfterPlague(hp) < hp
  {
  }

  /** A player at 0 hp or below ends the tick at exactly 0. */
  lemma PlagueOnDead(hp: int)
    requires hp <= 0
    ensures AfterPlague(hp) == 0
  {
  }

  /** Only a player with at most 1 hp succumbs to a single tick. */
  lemma PlagueKillsOnlyAtOne(hp: int)
    ensures AfterPlague(hp) == 0 <==> hp <= 1
  {
    if hp > 1 {
      PlagueBounds(hp);
      assert PlagueDamage(hp) < hp;
    }
  }

  /** plague.onTick: the hp change happens with or without a logger; with
      one, the damage line is logged, followed by the succumbed line when hp
      has reached 0. */
  method PlagueTick(player: Player, hasLogger: bool) returns (log: seq<LogLine>)
    modifies player`hp
    ensures player.hp == AfterPlague(old(player.hp))
    ensures log == if !hasLogger then []
                   else if player.hp <= 0 then [PlagueWracks(PlagueDamage(old(player.hp))), Succumbed]
                   else [PlagueWracks(PlagueDamage(old(player.hp)))]
  {
    var damage := PlagueDamage(player.hp);
    player.hp := if player.hp - damage > 0 then player.hp - damage else 0;
    log := [];
    if hasLogger {
      log := log + [PlagueWracks(damage)];
      if player.hp <= 0 {
        log := log + [Succumbed];
      }
    }
  }

  /** The str the strength buff grants while it lasts (its description
      reads "+5 STR for 60s"). */
  const STRENGTH_BONUS: int := 5

  /** The str change of strength.onApply and strength.onRemove. */
  function StrengthApplied(str: int): (s: int)
    ensures s > str
    ensures s - str == STRENGTH_BONUS
  {
    str + 5
  }

  function StrengthRemoved(str: int): (s: int)
    ensures s < str
    ensures str - s == STRENGTH_BONUS
  {
    str - 5
  }

  /** Applying then removing the strength buff (in either order) leaves str
      as it was. */
  lemma StrengthRoundTrip(str: int)
    ensures StrengthRemoved(StrengthApplied(str)) == str
    ensures StrengthApplied(StrengthRemoved(str)) == str
  {
  }

  /** strength.onApply. */
  method StrengthApply(player: Player, hasLogger: bool) returns (log: seq<LogLine>)
    modifies player`str
    ensures player.str == StrengthApplied(old(player.str))
    ensures log == if hasLogger then [StrengthSurges] else []
  {
    player.str := player.str + 5;
    log := if hasLogger then [StrengthSurges] else [];
  }

  /** strength.onRemove. */
  method StrengthRemove(player: Player, hasLogger: bool) returns (log: seq<LogLine>)
    modifies player`str
    ensures player.str == StrengthRemoved(old(player.str))
    ensures log == if hasLogger then [StrengthFades] else []
  {
    player.str := player.str - 5;
    log := if hasLogger then [StrengthFades] else [];
  }
}
