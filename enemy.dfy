/**
 * Enemies: the `spawn_enemies` budget (each spawner counts its interval down,
 * and when it runs out spawns a batch around the player from its remaining
 * count, retiring once a spawn is attempted with nothing left), the enemy
 * bundles it spawns, and `move_towards_target`, which in this version of the
 * game computes a value it never uses.
 *
 * Where a new enemy appears is drawn from the random source; here it is the
 * parameter `place`: `place(s, k)` is where the `k`-th spawn of spawner `s`
 * in this frame goes and the heading it starts with.
 */
module Enemy {
  import opened Ecs
  import opened Components
  import PowerUps

  // ---------------------------------------------------------------------
  // The bundles

  /** The random part of a spawn: its position and (for a red plane) the direction it starts flying in. */
  datatype Placement = Placement(location: Vec2, heading: Vec2)

  /** A spawn command: an enemy of `kind` at `at`, targeting `player`. */
  datatype Recruit = Recruit(kind: EnemyType, at: Placement, player: EntityId)

  /** `HealthBundle::new(h)`: `Health` and `MaxHealth` both `h`. */
  function WithHealth(e: Entity, h: int): (r: Entity)
    ensures r.health == r.maxHealth == Some(h)
    ensures r == e.(health := r.health, maxHealth := r.maxHealth)
  {
    e.(health := Some(h), maxHealth := Some(h))
  }

  /** The starting health of an enemy of each kind. */
  function Toughness(kind: EnemyType): int {
    match kind
    case RedPlane => 20
    case Mosquito => 2
    case SailBoat => 0
  }

  /** The experience an enemy of each kind is worth. */
  function Bounty(kind: EnemyType): int {
    match kind
    case RedPlane => 10
    case Mosquito => 1
    case SailBoat => 0
  }

  /**
   * `RedPlaneBundle::new` and `MosquitoBundle::new` without the inventory:
   * a hostile enemy with full health, a target and no target vector yet,
   * moving towards its target. The red plane carries a level-0 pea shooter
   * (see `StartingLoadout`).
   */
  function Body(r: Recruit): Entity
    requires !r.kind.SailBoat?
  {
    var common := WithHealth(Bare, Toughness(r.kind)).(
      translation := Some(r.at.location),
      enemy := true,
      hostile := true,
      target := Some(Some(r.player)),
      targetVector := Some(None),
      orientTowardsVelocity := true,
      moveToTarget := true,
      xpWorth := Some(Bounty(r.kind)));
    match r.kind
    case RedPlane =>
      common.(velocity := Some(Vec2(-r.at.heading.x, -r.at.heading.y)), acceleration := Some(1000.0))
    case Mosquito =>
      common.(velocity := Some(Vec2(0.01, 0.01)), acceleration := Some(100.0))
  }

  /** The inventory an enemy of each kind starts with. */
  function StartingLoadout(kind: EnemyType): Option<PowerUps.Slots> {
    match kind
    case RedPlane => Some([Some(PowerUps.Powerup(PowerUps.PeaShooter, 0)), None, None, None, None, None])
    case Mosquito => None
    case SailBoat => None
  }

  /** Carrying out a spawn command: the enemy's body with a fresh inventory when it has one. */
  method Enlist(r: Recruit) returns (e: Entity)
    requires !r.kind.SailBoat?
    ensures e == Body(r).(powerups := e.powerups)
    ensures StartingLoadout(r.kind).None? ==> e.powerups.None?
    ensures StartingLoadout(r.kind).Some? ==>
              e.powerups.Some? && fresh(e.powerups.value) && fresh(e.powerups.value.slots)
              && e.powerups.value.Valid() && e.powerups.value.slots[..] == StartingLoadout(r.kind).value
  {
    e := Body(r);
    match StartingLoadout(r.kind)
    case Some(s) =>
      var inventory := PowerUps.NewPowerups(s);
      e := e.(powerups := Some(inventory));
    case None =>
  }

  /**
   * Every enemy a spawn command creates is a hostile enemy that is alive
   * (health equal to its maximum and positive), not dying, heading for the
   * player, with no aim yet, and worth some experience when it dies.
   */
  lemma RecruitsAreFreshEnemies(r: Recruit)
    requires !r.kind.SailBoat?
    ensures var e := Body(r);
      && e.enemy && e.hostile && !e.friendly && !e.dead && e.despawnTimer.None?
      && e.health.Some? && e.health == e.maxHealth && e.health.value > 0
      && e.target == Some(Some(r.player)) && e.targetVector == Some(None)
      && e.xpWorth.Some? && e.xpWorth.value > 0
      && e.translation == Some(r.at.location)
  {
  }

  // ---------------------------------------------------------------------
  // spawn_enemies

  /** The interval runs out this frame: the countdown goes below zero. */
  predicate Fires(s: Spawner, dt: real) {
    s.currentInterval - dt < 0.0
  }

  /** The enemies a firing spawner with a player creates: `min(per interval, max(remaining, 0))`. */
  function BatchSize(s: Spawner): nat {
    if s.numEnemies <= 0 then 0
    else if s.enemiesSpawnedPerInterval <= s.numEnemies then s.enemiesSpawnedPerInterval
    else s.numEnemies
  }

  /** A batch attempts a spawn with nothing left: the spawner is despawned. */
  predicate Retires(s: Spawner, dt: real, hasPlayer: bool) {
    Fires(s, dt) && hasPlayer && BatchSize(s) < s.enemiesSpawnedPerInterval
  }

  /** A spawner after a frame: the countdown lowered, or re-armed and the batch taken from the budget. */
  function SpawnerTick(s: Spawner, dt: real, hasPlayer: bool): Spawner {
    if !Fires(s, dt) then s.(currentInterval := s.currentInterval - dt)
    else if !hasPlayer then s.(currentInterval := s.interval)
    else s.(currentInterval := s.interval, numEnemies := s.numEnemies - BatchSize(s))
  }

  /** The spawn commands of the first `k` spawns of spawner `id`'s batch; a sail boat spawns nothing. */
  function Recruits(id: EntityId, kind: EnemyType, player: EntityId, place: (EntityId, nat) -> Placement, k: nat)
    : (r: seq<Recruit>)
    ensures |r| == if kind.SailBoat? then 0 else k
    ensures forall j | 0 <= j < |r| :: r[j] == Recruit(kind, place(id, j), player)
  {
    if k == 0 || kind.SailBoat? then []
    else Recruits(id, kind, player, place, k - 1) + [Recruit(kind, place(id, k - 1), player)]
  }

  /** The spawn commands of spawner `id` in a frame. */
  function Brood(id: EntityId, s: Spawner, dt: real, player: Option<EntityId>, place: (EntityId, nat) -> Placement)
    : seq<Recruit>
  {
    if Fires(s, dt) && player.Some? then Recruits(id, s.enemyType, player.value, place, BatchSize(s)) else []
  }

  /** The body of `spawn_enemies`' outer loop, for spawner `id` in state `s`. */
  method RunSpawner(id: EntityId, s: Spawner, dt: real, player: Option<EntityId>, place: (EntityId, nat) -> Placement)
    returns (s': Spawner, retire: bool, recruits: seq<Recruit>)
    ensures s' == SpawnerTick(s, dt, player.Some?)
    ensures retire == Retires(s, dt, player.Some?)
    ensures recruits == Brood(id, s, dt, player, place)
  {
    s' := s.(currentInterval := s.currentInterval - dt);
    retire := false;
    recruits := [];
    if s'.currentInterval < 0.0 {
      s' := s'.(currentInterval := s.interval);
      if player.Some? {
        s', retire, recruits := RunBatch(id, s, player.value, place);
      }
    }
  }

  /** The inner loop of `spawn_enemies`: up to `enemies_spawned_per_interval` spawns, each paid from the budget. */
  method RunBatch(id: EntityId, s: Spawner, player: EntityId, place: (EntityId, nat) -> Placement)
    returns (s': Spawner, retire: bool, recruits: seq<Recruit>)
    ensures s' == s.(currentInterval := s.interval, numEnemies := s.numEnemies - BatchSize(s))
    ensures retire == (BatchSize(s) < s.enemiesSpawnedPerInterval)
    ensures recruits == Recruits(id, s.enemyType, player, place, BatchSize(s))
  {
    s' := s.(currentInterval := s.interval);
    retire := false;
    recruits := [];
    var count := 0;
    while count < s.enemiesSpawnedPerInterval
      invariant 0 <= count <= s.enemiesSpawnedPerInterval
      invariant count <= BatchSize(s)
      invariant s' == s.(currentInterval := s.interval, numEnemies := s.numEnemies - count)
      invariant recruits == Recruits(id, s.enemyType, player, place, count)
      invariant !retire
    {
      if s'.numEnemies <= 0 {
        retire := true;
        break;
      }
      if !s.enemyType.SailBoat? {
        recruits := recruits + [Recruit(s.enemyType, place(id, count), player)];
      }
      s' := s'.(numEnemies := s'.numEnemies - 1);
      count := count + 1;
    }
  }

  /** A spawner entity after its frame; any other entity is left alone. */
  function SpawnerFrame(e: Entity, dt: real, hasPlayer: bool): Entity {
    if e.spawner.Some? then e.(spawner := Some(SpawnerTick(e.spawner.value, dt, hasPlayer))) else e
  }

  function SpawnerFn(dt: real, hasPlayer: bool): (EntityId, Entity) -> Entity {
    (id: EntityId, e: Entity) => SpawnerFrame(e, dt, hasPlayer)
  }

  /** Every spawner after the frame, before the retired ones are despawned. */
  function Ticked(world: World, dt: real, hasPlayer: bool): (r: World)
    ensures r.Keys == world.Keys
  {
    map id | id in world :: SpawnerFn(dt, hasPlayer)(id, world[id])
  }

  lemma TickedIsPass(world: World, order: seq<EntityId>, dt: real, hasPlayer: bool, w: World)
    requires Enumerates(order, world)
    requires w == Pass(world, order, SpawnerFn(dt, hasPlayer))
    ensures w == Ticked(world, dt, hasPlayer)
  {
    PassCovers(world, order, SpawnerFn(dt, hasPlayer));
  }

  /** The spawners of `order` that retire this frame. */
  function Retired(world: World, order: seq<EntityId>, dt: real, hasPlayer: bool): set<EntityId> {
    if order == [] then {}
    else
      var id := order[|order| - 1];
      Retired(world, order[..|order| - 1], dt, hasPlayer)
        + (if id in world && world[id].spawner.Some? && Retires(world[id].spawner.value, dt, hasPlayer) then {id} else {})
  }

  /** The spawn commands of the spawners of `order`, in iteration order. */
  function Broods(world: World, order: seq<EntityId>, dt: real, player: Option<EntityId>,
                  place: (EntityId, nat) -> Placement): seq<Recruit>
  {
    if order == [] then []
    else
      var id := order[|order| - 1];
      Broods(world, order[..|order| - 1], dt, player, place)
        + (if id in world && world[id].spawner.Some? then Brood(id, world[id].spawner.value, dt, player, place) else [])
  }

  /** What `spawn_enemies`' player query selects. */
  predicate IsPlayer(e: Entity) {
    e.player && e.translation.Some?
  }

  function PlayerQuery(): Entity -> bool {
    e => IsPlayer(e)
  }

  /**
   * `spawn_enemies`: every spawner's frame, the spent ones despawned, and the
   * spawn commands in the order they were issued.
   */
  method SpawnEnemies(world: World, order: seq<EntityId>, dt: real, place: (EntityId, nat) -> Placement)
    returns (w': World, recruits: seq<Recruit>)
    requires Enumerates(order, world)
    ensures var player := Single(world, order, PlayerQuery());
      && w' == Without(Ticked(world, dt, player.Some?), Retired(world, order, dt, player.Some?))
      && recruits == Broods(world, order, dt, player, place)
  {
    var player := Single(world, order, PlayerQuery());
    w', recruits := SpawnAll(world, order, dt, player, place);
  }

  /** The outer loop of `spawn_enemies`, with the player (if there is exactly one) already looked up. */
  method SpawnAll(world: World, order: seq<EntityId>, dt: real, player: Option<EntityId>,
                  place: (EntityId, nat) -> Placement)
    returns (w': World, recruits: seq<Recruit>)
    requires Enumerates(order, world)
    ensures w' == Without(Ticked(world, dt, player.Some?), Retired(world, order, dt, player.Some?))
    ensures recruits == Broods(world, order, dt, player, place)
  {
    var w := world;
    var retired: set<EntityId> := {};
    recruits := [];
    for i := 0 to |order|
      invariant w == Pass(world, order[..i], SpawnerFn(dt, player.Some?))
      invariant retired == Retired(world, order[..i], dt, player.Some?)
      invariant recruits == Broods(world, order[..i], dt, player, place)
    {
      w, retired, recruits := SpawnNext(world, order, i, dt, player, place, w, retired, recruits);
    }
    assert order[..|order|] == order;
    TickedIsPass(world, order, dt, player.Some?, w);
    w' := Without(w, retired);
  }

  /** One iteration of `spawn_enemies`' outer loop: spawner `order[i]` runs its frame. */
  method SpawnNext(world: World, order: seq<EntityId>, i: nat, dt: real, player: Option<EntityId>,
                   place: (EntityId, nat) -> Placement, w: World, retired: set<EntityId>, recruits: seq<Recruit>)
    returns (w': World, retired': set<EntityId>, recruits': seq<Recruit>)
    requires Enumerates(order, world) && i < |order|
    requires w == Pass(world, order[..i], SpawnerFn(dt, player.Some?))
    requires retired == Retired(world, order[..i], dt, player.Some?)
    requires recruits == Broods(world, order[..i], dt, player, place)
    ensures w' == Pass(world, order[..i + 1], SpawnerFn(dt, player.Some?))
    ensures retired' == Retired(world, order[..i + 1], dt, player.Some?)
    ensures recruits' == Broods(world, order[..i + 1], dt, player, place)
  {
    var id := order[i];
    SpawnStep(world, order, i, dt, player, place);
    var e := w[id];
    w', retired', recruits' := w, retired, recruits;
    if e.spawner.Some? {
      var s', retire, batch := RunSpawner(id, e.spawner.value, dt, player, place);
      w' := w[id := e.(spawner := Some(s'))];
      retired' := if retire then retired + {id} else retired;
      recruits' := recruits + batch;
    }
  }

  /** One iteration of `spawn_enemies`' outer loop, in terms of its specification. */
  lemma SpawnStep(world: World, order: seq<EntityId>, i: nat, dt: real, player: Option<EntityId>,
                  place: (EntityId, nat) -> Placement)
    requires Distinct(order) && i < |order| && order[i] in world
    ensures var w := Pass(world, order[..i], SpawnerFn(dt, player.Some?)); var id := order[i]; var e := world[id];
      && id in w && w[id] == e
      && Pass(world, order[..i + 1], SpawnerFn(dt, player.Some?)) == w[id := SpawnerFrame(e, dt, player.Some?)]
      && Retired(world, order[..i + 1], dt, player.Some?)
         == Retired(world, order[..i], dt, player.Some?)
            + (if e.spawner.Some? && Retires(e.spawner.value, dt, player.Some?) then {id} else {})
      && Broods(world, order[..i + 1], dt, player, place)
         == Broods(world, order[..i], dt, player, place)
            + (if e.spawner.Some? then Brood(id, e.spawner.value, dt, player, place) else [])
  {
    PassStep(world, order, i, SpawnerFn(dt, player.Some?));
    PassUnvisited(world, order, i, SpawnerFn(dt, player.Some?));
    assert order[..i + 1][..i] == order[..i];
  }

  /**
   * The countdown: a spawner whose interval has not run out only counts
   * down; one whose interval ran out is re-armed to its full interval,
   * whether or not there is a player to spawn around.
   */
  lemma IntervalCountdown(s: Spawner, dt: real, hasPlayer: bool)
    ensures var s' := SpawnerTick(s, dt, hasPlayer);
      && s'.interval == s.interval && s'.enemyType == s.enemyType
      && s'.enemiesSpawnedPerInterval == s.enemiesSpawnedPerInterval
      && (!Fires(s, dt) ==> s'.currentInterval == s.currentInterval - dt && s'.numEnemies == s.numEnemies)
      && (Fires(s, dt) ==> s'.currentInterval == s.interval)
  {
  }

  /**
   * The budget: a batch spawns no more than the per-interval count and no
   * more than what remains; each spawn costs one unit, so a budget that was
   * not negative never goes negative. Without a player the budget is
   * untouched and nothing is spawned.
   */
  lemma SpawnBudget(id: EntityId, s: Spawner, dt: real, player: Option<EntityId>, place: (EntityId, nat) -> Placement)
    ensures var s' := SpawnerTick(s, dt, player.Some?); var n := s.numEnemies - s'.numEnemies;
      && 0 <= n <= s.enemiesSpawnedPerInterval
      && n <= (if s.numEnemies > 0 then s.numEnemies else 0)
      && (s.numEnemies >= 0 ==> s'.numEnemies >= 0)
      && (Fires(s, dt) && player.Some? ==> n == BatchSize(s))
      && |Brood(id, s, dt, player, place)| == (if s.enemyType.SailBoat? then 0 else n)
      && (player.None? ==> n == 0 && Brood(id, s, dt, player, place) == [] && !Retires(s, dt, false))
  {
  }

  /**
   * Retirement comes one firing late: a batch that spends the last of the
   * budget keeps the spawner alive with nothing left, and the next firing
   * (with a player and a positive batch size) despawns it without spawning.
   */
  lemma RetiresOnNextFiring(s: Spawner, dt: real, dt': real)
    requires s.enemiesSpawnedPerInterval > 0 && s.numEnemies == s.enemiesSpawnedPerInterval
    requires Fires(s, dt) && Fires(SpawnerTick(s, dt, true), dt')
    ensures !Retires(s, dt, true)
    ensures SpawnerTick(s, dt, true).numEnemies == 0
    ensures Retires(SpawnerTick(s, dt, true), dt', true)
    ensures BatchSize(SpawnerTick(s, dt, true)) == 0
  {
  }

  /** A sail-boat spawner spends its budget as any other but spawns nothing. */
  lemma SailBoatsSpawnNothing(id: EntityId, s: Spawner, dt: real, player: Option<EntityId>, place: (EntityId, nat) -> Placement)
    requires s.enemyType.SailBoat? && Fires(s, dt) && player.Some?
    ensures Brood(id, s, dt, player, place) == []
    ensures SpawnerTick(s, dt, true).numEnemies == s.numEnemies - BatchSize(s)
  {
  }

  /** The spawners of the world that retire this frame are exactly those despawned. */
  lemma {:induction false} RetiredExact(world: World, order: seq<EntityId>, dt: real, hasPlayer: bool)
    ensures forall id :: id in Retired(world, order, dt, hasPlayer) <==>
      id in order && id in world && world[id].spawner.Some? && Retires(world[id].spawner.value, dt, hasPlayer)
  {
    if order != [] {
      RetiredExact(world, order[..|order| - 1], dt, hasPlayer);
      assert order == order[..|order| - 1] + [order[|order| - 1]];
    }
  }

  /**
   * `spawn_enemies` on the world: a spawner survives the frame unless it
   * retires, and nothing but spawners changes; entities that are not
   * spawners all survive.
   */
  lemma SpawnersOutcome(world: World, order: seq<EntityId>, dt: real, hasPlayer: bool, id: EntityId)
    requires Enumerates(order, world) && id in world
    ensures var after := Without(Ticked(world, dt, hasPlayer), Retired(world, order, dt, hasPlayer));
      && (world[id].spawner.None? ==> id in after && after[id] == world[id])
      && (world[id].spawner.Some? ==>
            (id in after <==> !Retires(world[id].spawner.value, dt, hasPlayer))
            && (id in after ==> after[id] == world[id].(spawner := Some(SpawnerTick(world[id].spawner.value, dt, hasPlayer)))))
  {
    RetiredExact(world, order, dt, hasPlayer);
  }

  // ---------------------------------------------------------------------
  // move_towards_target

  /**
   * `move_towards_target`: each moving, living entity's closure computes a
   * rotation from its speed and target vector and drops it, so no velocity
   * (and nothing else) changes.
   */
  method MoveTowardsTarget(world: World) returns (w': World)
    ensures w' == world
  {
    w' := world;
  }
}
