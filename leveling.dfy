/**
 * Levelling: `run_level_ups` trades experience for levels against the
 * `xp_required_for_level` table, `award_player_xp` drops one experience pellet
 * per dying enemy that is worth something, and `xp_collisions` lets the
 * player pick pellets up.
 *
 * `xp_required_for_level` is a floating-point formula; here it is the
 * parameter `needed`, the experience a level costs.
 */
module Leveling {
  import opened Ecs
  import opened Components

  // ---------------------------------------------------------------------
  // run_level_ups

  /** What `run_level_ups`' query selects: players with a `Level` and an `Xp`. */
  predicate Levels(e: Entity) {
    e.player && e.level.Some? && e.xp.Some?
  }

  /** A selected player with at least the experience its level costs. */
  predicate LevelsUp(e: Entity, needed: int -> int) {
    Levels(e) && e.xp.value >= needed(e.level.value)
  }

  /** One player's check: one level more, and the level's cost paid out of the experience. */
  function LevelUp(e: Entity, needed: int -> int): Entity {
    if LevelsUp(e, needed) then
      e.(level := Some(e.level.value + 1), xp := Some(e.xp.value - needed(e.level.value)))
    else e
  }

  function LevelUpFn(needed: int -> int): (EntityId, Entity) -> Entity {
    (id: EntityId, e: Entity) => LevelUp(e, needed)
  }

  function LeveledUp(world: World, needed: int -> int): (r: World)
    ensures r.Keys == world.Keys
  {
    map id | id in world :: LevelUp(world[id], needed)
  }

  /** Some player of `order` has enough experience for a level. */
  function AnyLevelsUp(world: World, order: seq<EntityId>, needed: int -> int): bool {
    if order == [] then false
    else
      var id := order[|order| - 1];
      AnyLevelsUp(world, order[..|order| - 1], needed) || (id in world && LevelsUp(world[id], needed))
  }

  lemma {:induction false} AnyLevelsUpExact(world: World, order: seq<EntityId>, needed: int -> int)
    ensures AnyLevelsUp(world, order, needed) <==> exists k | 0 <= k < |order| :: order[k] in world && LevelsUp(world[order[k]], needed)
  {
    if order != [] {
      var init := order[..|order| - 1];
      AnyLevelsUpExact(world, init, needed);
      if AnyLevelsUp(world, init, needed) {
        var k :| 0 <= k < |init| && init[k] in world && LevelsUp(world[init[k]], needed);
        assert order[k] == init[k];
      }
      if exists k | 0 <= k < |order| :: order[k] in world && LevelsUp(world[order[k]], needed) {
        var k :| 0 <= k < |order| && order[k] in world && LevelsUp(world[order[k]], needed);
        if k < |init| {
          assert init[k] == order[k];
        }
      }
    }
  }

  /**
   * `run_level_ups`: every player with enough experience gains a level; the
   * game switches to the power-up chooser (`chooser`) exactly when one did.
   */
  method RunLevelUps(world: World, order: seq<EntityId>, needed: int -> int)
    returns (w': World, chooser: bool)
    requires Enumerates(order, world)
    ensures w' == LeveledUp(world, needed)
    ensures chooser <==> exists id | id in world :: LevelsUp(world[id], needed)
  {
    var w := world;
    chooser := false;
    for i := 0 to |order|
      invariant w == Pass(world, order[..i], LevelUpFn(needed))
      invariant chooser == AnyLevelsUp(world, order[..i], needed)
    {
      w, chooser := LevelUpNext(world, order, i, needed, w, chooser);
    }
    assert order[..|order|] == order;
    PassCovers(world, order, LevelUpFn(needed));
    w' := w;
    AnyLevelsUpExact(world, order, needed);
    if chooser {
      var k :| 0 <= k < |order| && order[k] in world && LevelsUp(world[order[k]], needed);
    } else {
      forall id | id in world ensures !LevelsUp(world[id], needed) {
        var k :| 0 <= k < |order| && order[k] == id;
      }
    }
  }

  /** One iteration of `run_level_ups`' loop: player `order[i]` checked. */
  method LevelUpNext(world: World, order: seq<EntityId>, i: nat, needed: int -> int, w: World, chooser: bool)
    returns (w': World, chooser': bool)
    requires Enumerates(order, world) && i < |order|
    requires w == Pass(world, order[..i], LevelUpFn(needed))
    requires chooser == AnyLevelsUp(world, order[..i], needed)
    ensures w' == Pass(world, order[..i + 1], LevelUpFn(needed))
    ensures chooser' == AnyLevelsUp(world, order[..i + 1], needed)
  {
    var id := order[i];
    PassStep(world, order, i, LevelUpFn(needed));
    PassUnvisited(world, order, i, LevelUpFn(needed));
    assert order[..i + 1][..i] == order[..i];
    var e := w[id];
    w', chooser' := w, chooser;
    if e.player && e.level.Some? && e.xp.Some? {
      var need := needed(e.level.value);
      if e.xp.value >= need {
        w' := w[id := e.(level := Some(e.level.value + 1), xp := Some(e.xp.value - need))];
        chooser' := true;
      }
    }
  }

  /**
   * The level-up rule: with enough experience a player goes up exactly one
   * level and pays the level's cost; otherwise nothing changes. Only the
   * level and the experience can change, and experience that was not
   * negative stays so.
   */
  lemma LevelUpCases(e: Entity, needed: int -> int)
    ensures var e' := LevelUp(e, needed);
      && e' == e.(level := e'.level, xp := e'.xp)
      && (LevelsUp(e, needed) ==>
            e'.level == Some(e.level.value + 1) && e'.xp == Some(e.xp.value - needed(e.level.value)))
      && (!LevelsUp(e, needed) ==> e' == e)
      && (Levels(e) && e.xp.value >= 0 ==> e'.xp.value >= 0)
  {
  }

  /** A run of `n` frames of `run_level_ups` on one player. */
  function LevelUps(e: Entity, needed: int -> int, n: nat): Entity {
    if n == 0 then e else LevelUp(LevelUps(e, needed, n - 1), needed)
  }

  /**
   * One level per frame at most, whatever the experience: over `n` frames a
   * player gains at most `n` levels, never loses one, and its experience
   * stays non-negative.
   */
  lemma {:induction false} AtMostOneLevelPerFrame(e: Entity, needed: int -> int, n: nat)
    requires Levels(e) && e.xp.value >= 0
    ensures var e' := LevelUps(e, needed, n);
      && Levels(e') && e'.xp.value >= 0
      && e.level.value <= e'.level.value <= e.level.value + n
  {
    if n > 0 {
      AtMostOneLevelPerFrame(e, needed, n - 1);
      LevelUpCases(LevelUps(e, needed, n - 1), needed);
    }
  }

  /**
   * Twice the experience a level costs still buys one level in a frame: the
   * rest waits for the next frame.
   */
  lemma SurplusWaits(e: Entity, needed: int -> int)
    requires Levels(e) && needed(e.level.value) > 0 && e.xp.value >= 2 * needed(e.level.value)
    ensures LevelUp(e, needed).level == Some(e.level.value + 1)
    ensures LevelUp(e, needed).xp.value >= needed(e.level.value)
  {
  }

  // ---------------------------------------------------------------------
  // award_player_xp

  /** What the player query of `award_player_xp` selects. */
  predicate IsPlayer(e: Entity) {
    e.player
  }

  function PlayerQuery(): Entity -> bool {
    e => IsPlayer(e)
  }

  /** What the enemy query selects: enemies with a transform and an `XpWorth`. */
  predicate Rewards(e: Entity) {
    e.enemy && e.translation.Some? && e.xpWorth.Some?
  }

  /**
   * An experience pellet worth `worth`, dropped at `at`, drifting up and
   * accelerating towards `player`.
   */
  function Pellet(at: Vec2, worth: int, player: EntityId): Entity {
    Bare.(
      translation := Some(at),
      xpPellet := Some(worth),
      velocity := Some(Vec2(0.0, 100.0)),
      acceleration := Some(1.0),
      moveToTarget := true,
      target := Some(Some(player)),
      targetVector := Some(None))
  }

  /** The pellet a death event leaves, if the dead entity is an enemy worth experience. */
  function Drop(world: World, ev: DeathEvent, player: EntityId): seq<Entity> {
    if ev.entity in world && Rewards(world[ev.entity]) then
      var e := world[ev.entity];
      [Pellet(e.translation.value, e.xpWorth.value, player)]
    else []
  }

  /** The pellets a run of death events leaves, in event order. */
  function Drops(world: World, deaths: seq<DeathEvent>, player: EntityId): seq<Entity> {
    if deaths == [] then []
    else Drops(world, deaths[..|deaths| - 1], player) + Drop(world, deaths[|deaths| - 1], player)
  }

  /**
   * `award_player_xp`: with exactly one player, every death of an enemy
   * worth experience spawns a pellet of that worth aimed at the player; with
   * no player nothing is spawned.
   */
  method AwardPlayerXp(world: World, order: seq<EntityId>, deaths: seq<DeathEvent>)
    returns (pellets: seq<Entity>)
    requires Enumerates(order, world)
    ensures match Single(world, order, PlayerQuery())
      case None => pellets == []
      case Some(p) => pellets == Drops(world, deaths, p)
  {
    pellets := [];
    var player := Single(world, order, PlayerQuery());
    if player.None? {
      return;
    }
    var p := player.value;
    for i := 0 to |deaths|
      invariant pellets == Drops(world, deaths[..i], p)
    {
      assert deaths[..i + 1][..i] == deaths[..i];
      var dead := deaths[i].entity;
      if dead in world && world[dead].enemy && world[dead].translation.Some? && world[dead].xpWorth.Some? {
        pellets := pellets + [Pellet(world[dead].translation.value, world[dead].xpWorth.value, p)];
      }
    }
    assert deaths[..|deaths|] == deaths;
  }

  /** The experience the pellets carry. */
  function Worth(pellets: seq<Entity>): int {
    if pellets == [] then 0
    else Worth(pellets[..|pellets| - 1])
         + (var e := pellets[|pellets| - 1]; if e.xpPellet.Some? then e.xpPellet.value else 0)
  }

  /** The experience the deaths are worth: the `XpWorth` of each dead enemy, once per event. */
  function Bounty(world: World, deaths: seq<DeathEvent>): int {
    if deaths == [] then 0
    else
      var ev := deaths[|deaths| - 1];
      Bounty(world, deaths[..|deaths| - 1])
        + (if ev.entity in world && Rewards(world[ev.entity]) then world[ev.entity].xpWorth.value else 0)
  }

  /** The number of deaths of enemies worth experience. */
  function Rewarding(world: World, deaths: seq<DeathEvent>): nat {
    if deaths == [] then 0
    else
      var ev := deaths[|deaths| - 1];
      Rewarding(world, deaths[..|deaths| - 1]) + (if ev.entity in world && Rewards(world[ev.entity]) then 1 else 0)
  }

  lemma WorthConcat(a: seq<Entity>, b: seq<Entity>)
    requires |b| <= 1
    ensures Worth(a + b) == Worth(a) + Worth(b)
  {
    if b != [] {
      assert (a + b)[..|a + b| - 1] == a;
      assert b[..0] == [];
    } else {
      assert a + b == a;
    }
  }

  /**
   * One pellet per death of an enemy worth experience, each aimed at the
   * player: the pellets together carry exactly the bounty, and nothing comes
   * of other deaths.
   */
  lemma {:induction false} DropsMatchDeaths(world: World, deaths: seq<DeathEvent>, player: EntityId)
    ensures var r := Drops(world, deaths, player);
      && |r| == Rewarding(world, deaths) <= |deaths|
      && Worth(r) == Bounty(world, deaths)
      && forall k | 0 <= k < |r| :: r[k].target == Some(Some(player)) && r[k].xpPellet.Some?
  {
    if deaths != [] {
      var init := deaths[..|deaths| - 1];
      DropsMatchDeaths(world, init, player);
      WorthConcat(Drops(world, init, player), Drop(world, deaths[|deaths| - 1], player));
    }
  }

  /** `p` is the pellet death `d` leaves: `d` is of an enemy worth experience. */
  predicate LeftBy(world: World, d: DeathEvent, p: Entity, player: EntityId) {
    && d.entity in world && Rewards(world[d.entity])
    && p == Pellet(world[d.entity].translation.value, world[d.entity].xpWorth.value, player)
  }

  /** `p` is the pellet some death of `deaths` leaves. */
  predicate FromSomeDeath(world: World, deaths: seq<DeathEvent>, p: Entity, player: EntityId) {
    exists d | d in deaths :: LeftBy(world, d, p, player)
  }

  /**
   * Each pellet is the one a rewarding death leaves: at the dead enemy's
   * position, worth what that enemy was worth, aimed at the player.
   */
  lemma {:induction false} DropsArePellets(world: World, deaths: seq<DeathEvent>, player: EntityId)
    ensures forall k | 0 <= k < |Drops(world, deaths, player)| ::
      FromSomeDeath(world, deaths, Drops(world, deaths, player)[k], player)
  {
    if deaths == [] {
      assert Drops(world, deaths, player) == [];
    } else {
      var init := deaths[..|deaths| - 1];
      var last := deaths[|deaths| - 1];
      DropsArePellets(world, init, player);
      var r0 := Drops(world, init, player);
      var r := Drops(world, deaths, player);
      assert r == r0 + Drop(world, last, player);
      forall k | 0 <= k < |r|
        ensures FromSomeDeath(world, deaths, r[k], player)
      {
        if k < |r0| {
          assert r[k] == r0[k];
          assert FromSomeDeath(world, init, r0[k], player);
          var d :| d in init && LeftBy(world, d, r0[k], player);
          var j :| 0 <= j < |init| && init[j] == d;
          assert deaths[j] == d;
        } else {
          assert r[k] == Drop(world, last, player)[0];
          assert LeftBy(world, last, r[k], player);
        }
      }
    }
  }

  // ---------------------------------------------------------------------
  // xp_collisions

  /** What the player query of `xp_collisions` selects. */
  predicate Collects(e: Entity) {
    e.player && e.translation.Some? && e.xp.Some?
  }

  function CollectorQuery(): Entity -> bool {
    e => Collects(e)
  }

  /**
   * A pellet that a player at `at` picks up; `near(p, q)` is the test "the
   * squared distance from `p` to `q` is below 1000".
   */
  predicate PicksUp(e: Entity, at: Vec2, near: (Vec2, Vec2) -> bool) {
    e.translation.Some? && e.xpPellet.Some? && near(at, e.translation.value)
  }

  /** A picked-up pellet, its worth handed over. */
  function Emptied(e: Entity): Entity {
    e.(xpPellet := Some(0))
  }

  function EmptyFn(at: Vec2, near: (Vec2, Vec2) -> bool): (EntityId, Entity) -> Entity {
    (id: EntityId, e: Entity) => if PicksUp(e, at, near) then Emptied(e) else e
  }

  /** The experience the pellets of `order` within reach are worth. */
  function Gained(world: World, order: seq<EntityId>, at: Vec2, near: (Vec2, Vec2) -> bool): int {
    if order == [] then 0
    else
      var id := order[|order| - 1];
      Gained(world, order[..|order| - 1], at, near)
        + (if id in world && PicksUp(world[id], at, near) then world[id].xpPellet.value else 0)
  }

  /** The pellets of `order` within reach. */
  function PickedUp(world: World, order: seq<EntityId>, at: Vec2, near: (Vec2, Vec2) -> bool): set<EntityId> {
    if order == [] then {}
    else
      var id := order[|order| - 1];
      PickedUp(world, order[..|order| - 1], at, near) + (if id in world && PicksUp(world[id], at, near) then {id} else {})
  }

  /** Every pellet within reach of `at` emptied. */
  function EmptiedWorld(world: World, at: Vec2, near: (Vec2, Vec2) -> bool): (r: World)
    ensures r.Keys == world.Keys
  {
    map id | id in world :: EmptyFn(at, near)(id, world[id])
  }

  /**
   * The world after `xp_collisions` with player `p`: its experience raised
   * by the worth of every pellet within reach, those pellets emptied and
   * despawned.
   */
  function CollectedBy(world: World, order: seq<EntityId>, near: (Vec2, Vec2) -> bool, p: EntityId): World
    requires p in world && Collects(world[p])
  {
    var at := world[p].translation.value;
    var z := EmptiedWorld(world, at, near);
    Without(z[p := z[p].(xp := Some(world[p].xp.value + Gained(world, order, at, near)))],
            PickedUp(world, order, at, near))
  }

  /** The world after `xp_collisions`: unchanged unless there is exactly one player. */
  function Collected(world: World, order: seq<EntityId>, near: (Vec2, Vec2) -> bool): World
    requires Enumerates(order, world)
  {
    match Single(world, order, CollectorQuery())
    case None => world
    case Some(p) => CollectedBy(world, order, near, p)
  }

  /** `xp_collisions`. */
  method XpCollisions(world: World, order: seq<EntityId>, near: (Vec2, Vec2) -> bool) returns (w': World)
    requires Enumerates(order, world)
    ensures w' == Collected(world, order, near)
  {
    var player := Single(world, order, CollectorQuery());
    if player.None? {
      return world;
    }
    var p := player.value;
    var at := world[p].translation.value;
    var playerXp := world[p].xp.value;
    var w := world;
    var taken: set<EntityId> := {};
    for i := 0 to |order|
      invariant w == Pass(world, order[..i], EmptyFn(at, near))
      invariant playerXp == world[p].xp.value + Gained(world, order[..i], at, near)
      invariant taken == PickedUp(world, order[..i], at, near)
    {
      w, playerXp, taken := PickupNext(world, order, i, at, near, world[p].xp.value, w, playerXp, taken);
    }
    assert order[..|order|] == order;
    CollectedIsPass(world, order, near, p, w, playerXp, taken);
    w' := Without(w[p := w[p].(xp := Some(playerXp))], taken);
  }

  /** Emptying the pellets within reach, then crediting the player and despawning them, is `Collected`. */
  lemma CollectedIsPass(world: World, order: seq<EntityId>, near: (Vec2, Vec2) -> bool, p: EntityId,
                        w: World, playerXp: int, taken: set<EntityId>)
    requires Enumerates(order, world) && p in world && Collects(world[p])
    requires var at := world[p].translation.value;
      && w == Pass(world, order, EmptyFn(at, near))
      && playerXp == world[p].xp.value + Gained(world, order, at, near)
      && taken == PickedUp(world, order, at, near)
    ensures p in w && Without(w[p := w[p].(xp := Some(playerXp))], taken) == CollectedBy(world, order, near, p)
  {
    PassCovers(world, order, EmptyFn(world[p].translation.value, near));
  }

  /**
   * One iteration of `xp_collisions`' loop: pellet `order[i]` checked;
   * `playerXp` is the player's `Xp`, `base` what it held before the loop.
   */
  method PickupNext(world: World, order: seq<EntityId>, i: nat, at: Vec2, near: (Vec2, Vec2) -> bool,
                    base: int, w: World, playerXp: int, taken: set<EntityId>)
    returns (w': World, playerXp': int, taken': set<EntityId>)
    requires Enumerates(order, world) && i < |order|
    requires w == Pass(world, order[..i], EmptyFn(at, near))
    requires playerXp == base + Gained(world, order[..i], at, near)
    requires taken == PickedUp(world, order[..i], at, near)
    ensures w' == Pass(world, order[..i + 1], EmptyFn(at, near))
    ensures playerXp' == base + Gained(world, order[..i + 1], at, near)
    ensures taken' == PickedUp(world, order[..i + 1], at, near)
  {
    var id := order[i];
    PickupStep(world, order, i, at, near);
    var e := w[id];
    w', playerXp', taken' := w, playerXp, taken;
    if e.translation.Some? && e.xpPellet.Some? && near(at, e.translation.value) {
      playerXp' := playerXp + e.xpPellet.value;
      w' := w[id := e.(xpPellet := Some(0))];
      taken' := taken + {id};
    }
  }

  /** One iteration of `xp_collisions`' loop, in terms of its specification. */
  lemma PickupStep(world: World, order: seq<EntityId>, i: nat, at: Vec2, near: (Vec2, Vec2) -> bool)
    requires Distinct(order) && i < |order| && order[i] in world
    ensures var w := Pass(world, order[..i], EmptyFn(at, near)); var id := order[i];
      && id in w && w[id] == world[id]
      && Pass(world, order[..i + 1], EmptyFn(at, near))
         == w[id := if PicksUp(world[id], at, near) then Emptied(world[id]) else world[id]]
      && Gained(world, order[..i + 1], at, near)
         == Gained(world, order[..i], at, near) + (if PicksUp(world[id], at, near) then world[id].xpPellet.value else 0)
      && PickedUp(world, order[..i + 1], at, near)
         == PickedUp(world, order[..i], at, near) + (if PicksUp(world[id], at, near) then {id} else {})
  {
    PassStep(world, order, i, EmptyFn(at, near));
    PassUnvisited(world, order, i, EmptyFn(at, near));
    assert order[..i + 1][..i] == order[..i];
  }

  lemma {:induction false} PickedUpExact(world: World, order: seq<EntityId>, at: Vec2, near: (Vec2, Vec2) -> bool)
    ensures forall id :: id in PickedUp(world, order, at, near) <==> id in order && id in world && PicksUp(world[id], at, near)
  {
    if order != [] {
      PickedUpExact(world, order[..|order| - 1], at, near);
      assert order == order[..|order| - 1] + [order[|order| - 1]];
    }
  }

  /** The worth of the pellets `ids`, each counted once per occurrence. */
  function WorthOf(world: World, ids: seq<EntityId>): int
    requires forall k | 0 <= k < |ids| :: ids[k] in world && world[ids[k]].xpPellet.Some?
  {
    if ids == [] then 0
    else WorthOf(world, ids[..|ids| - 1]) + world[ids[|ids| - 1]].xpPellet.value
  }

  function PickQuery(at: Vec2, near: (Vec2, Vec2) -> bool): Entity -> bool {
    e => PicksUp(e, at, near)
  }

  /**
   * The experience gained is the worth of the pellets within reach, in
   * iteration order, each taken once.
   */
  lemma {:induction false} GainedIsWorthOfPickedPellets(world: World, order: seq<EntityId>, at: Vec2, near: (Vec2, Vec2) -> bool)
    ensures var m := Matching(world, order, PickQuery(at, near));
      && (forall k | 0 <= k < |m| :: m[k] in world && world[m[k]].xpPellet.Some?)
      && Gained(world, order, at, near) == WorthOf(world, m)
  {
    if order != [] {
      var init := order[..|order| - 1];
      var q := PickQuery(at, near);
      GainedIsWorthOfPickedPellets(world, init, at, near);
      var m, m0 := Matching(world, order, q), Matching(world, init, q);
      var id := order[|order| - 1];
      if id in world && PicksUp(world[id], at, near) {
        assert q(world[id]);
        assert m == m0 + [id];
        assert m[..|m| - 1] == m0;
        assert forall k | 0 <= k < |m| :: m[k] in world && world[m[k]].xpPellet.Some? by {
          forall k | 0 <= k < |m| ensures m[k] in world && world[m[k]].xpPellet.Some? {
            if k < |m0| { assert m[k] == m0[k]; }
          }
        }
      } else {
        assert !(id in world && q(world[id]));
        assert m == m0;
      }
    }
  }

  /**
   * The pickup rule: with a player, each pellet within reach is gone and the
   * player's experience rose by the pellets' worth; a pellet out of reach
   * and every other entity except the player are untouched. Without a
   * player nothing changes.
   */
  lemma PickupOutcome(world: World, order: seq<EntityId>, near: (Vec2, Vec2) -> bool, id: EntityId)
    requires Enumerates(order, world) && id in world
    ensures var after := Collected(world, order, near);
      match Single(world, order, CollectorQuery())
      case None => after == world
      case Some(p) =>
        var at := world[p].translation.value;
        && (PicksUp(world[id], at, near) ==> id !in after)
        && (!PicksUp(world[id], at, near) && id != p ==> id in after && after[id] == world[id])
        && (!PicksUp(world[p], at, near) ==>
              p in after && after[p] == world[p].(xp := Some(world[p].xp.value + Gained(world, order, at, near))))
  {
    match Single(world, order, CollectorQuery())
    case None =>
    case Some(p) =>
      PickedUpExact(world, order, world[p].translation.value, near);
  }
}
