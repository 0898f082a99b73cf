/**
 * The data model: one record per entity holding each component the game's
 * systems read or write (`None`/`false` when the entity lacks it), the world
 * as a map from entity to record, and the two events systems exchange.
 */
module Components {
  import opened Ecs
  import PowerUps

  /** The three basic guns (`MachineGun`, `PeaShooter`, `Sniper` components). */
  datatype GunKind = MachineGun | PeaShooter | Sniper

  /** A gun component: its power level and the seconds left before it may fire. */
  datatype Gun = Gun(level: U8, cooldownRemaining: real)

  /** `Projectile`: who fired it, the damage each hit deals, and its hit radius. */
  datatype Projectile = Projectile(firedBy: EntityId, damageAmount: int, size: real)

  /** `OvershieldState`. */
  datatype OvershieldState = OvershieldState(maxOvershield: int, currentOvershield: int, secsUntilRecharge: real)

  datatype EnemyType = RedPlane | Mosquito | SailBoat

  /** `Spawner`, without its spawn-distance range (only the random placement uses it). */
  datatype Spawner = Spawner(
    interval: real,
    currentInterval: real,
    enemiesSpawnedPerInterval: nat,
    numEnemies: int,
    enemyType: EnemyType)

  /** The two team tags that partition collision checks. */
  datatype Team = FriendlyTeam | HostileTeam

  /**
   * The components `powerup_manager` inserts from an inventory: the three
   * guns, `SpecialMunitions`, `Overshield` and `Bile` (each with its level).
   */
  datatype Arms = Arms(
    guns: map<GunKind, Gun>,
    specialMunitions: Option<U8>,
    overshield: Option<U8>,
    bile: Option<U8>)

  const Unarmed: Arms := Arms(map[], None, None, None)

  datatype Entity = Entity(
    translation: Option<Vec2>,              // Transform (its x, y translation)
    velocity: Option<Vec2>,                 // Velocity
    acceleration: Option<real>,             // ConstantAcceleration
    health: Option<int>,                    // Health
    maxHealth: Option<int>,                 // MaxHealth
    despawnTimer: Option<real>,             // DespawnTimer
    dead: bool,                             // Dead
    player: bool,                           // Player
    enemy: bool,                            // Enemy
    friendly: bool,                         // Friendly
    hostile: bool,                          // Hostile
    moveToTarget: bool,                     // MoveToTarget
    orientTowardsVelocity: bool,            // OrientTowardsVelocity
    target: Option<Option<EntityId>>,       // Target
    targetVector: Option<Option<Vec2>>,     // TargetVector
    arms: Arms,                             // the components a power-up inserts
    overshieldState: Option<OvershieldState>,
    projectile: Option<Projectile>,
    lastHit: Option<EntityId>,              // LastHit
    deathParticles: bool,                   // DeathParticles(Some(..))
    xp: Option<int>,                        // Xp
    level: Option<int>,                     // Level
    xpWorth: Option<int>,                   // XpWorth
    xpPellet: Option<int>,                  // XpPellet (the worth it carries)
    spawner: Option<Spawner>,
    powerups: Option<PowerUps.Powerups>)

  type World = map<EntityId, Entity>

  /** An entity with no components: the starting point of every spawned bundle. */
  const Bare: Entity := Entity(
    None, None, None, None, None, None, false, false, false, false, false, false, false,
    None, None, Unarmed, None, None, None, false, None, None, None, None, None, None)

  predicate OnTeam(e: Entity, team: Team) {
    match team
    case FriendlyTeam => e.friendly
    case HostileTeam => e.hostile
  }

  /** `DamageEvent`. */
  datatype DamageEvent = DamageEvent(damagedBy: EntityId, appliedTo: EntityId, amount: int)

  /** `DeathEvent`. */
  datatype DeathEvent = DeathEvent(entity: EntityId)
}
