/**
 * The weapon rules: the per-gun, per-level tables, the `SpecialMunitions`
 * multiplier, the fire/cool-down step of `shoot_basic_gun`, the per-bullet
 * collision step of `check_bullet_collisions_teamed`, and the two targeting
 * systems (`update_target_vectors`, `update_player_target`).
 *
 * The geometric tests are parameters: `within(p, q, r)` is "the distance from
 * `p` to `q` is below `r`", `inRange(p, q)` is "the squared distance from `p`
 * to `q` is below 1000 * 1000", `aim(p, q)` is the normalised direction from
 * `p` to `q`, and `key(p, q)` is the distance from `p` to `q` truncated to an
 * `i32`.
 */
module Weapon {
  import opened Ecs
  import opened Components

  // ---------------------------------------------------------------------
  // The gun tables

  /** `BasicGun::cooldown`: the seconds between two shots at a level. */
  function Cooldown(kind: GunKind, level: U8): real {
    match kind
    case MachineGun =>
      if level <= 1 then 0.5 else if level == 2 then 0.4 else if level == 3 then 0.3
      else if level == 4 then 0.2 else if level == 5 then 0.1 else 0.05
    case PeaShooter =>
      if level == 0 then 2.5 else if level == 1 then 1.0 else if level == 2 then 0.9
      else if level == 3 then 0.8 else if level == 4 then 0.7 else if level == 5 then 0.6 else 0.5
    case Sniper =>
      if level <= 3 then 5.0 else if level == 4 then 4.0 else if level == 5 then 3.0 else 2.0
  }

  /** `BasicGun::damage`, by level bucket 0..=2, 3..=5 and above. */
  function Damage(kind: GunKind, level: U8): int {
    match kind
    case MachineGun => if level <= 2 then 2 else if level <= 5 then 5 else 6
    case PeaShooter => if level <= 2 then 5 else if level <= 5 then 10 else 6
    case Sniper => if level <= 5 then 100 else 6
  }

  /** `BasicGun::health`: how many hits a projectile of the gun survives. */
  function ProjectileHealth(kind: GunKind): int {
    match kind
    case MachineGun => 1
    case PeaShooter => 2
    case Sniper => 10
  }

  /** `BasicGun::projectile_velocity`. */
  function ProjectileSpeed(kind: GunKind): real {
    match kind
    case MachineGun => 150.0
    case PeaShooter => 200.0
    case Sniper => 500.0
  }

  /** `MachineGun::new(level)` and its siblings: a gun at `level`, half a second from its first shot. */
  function NewGun(level: U8): (g: Gun)
    ensures g.level == level && g.cooldownRemaining > 0.0
  {
    Gun(level, 0.5)
  }

  /** A higher level never lengthens a gun's cooldown. */
  lemma CooldownNonIncreasing(kind: GunKind, level: U8, level': U8)
    requires level <= level'
    ensures Cooldown(kind, level') <= Cooldown(kind, level)
  {
  }

  /** Every cooldown is positive: a gun never fires on two frames in a row. */
  lemma CooldownPositive(kind: GunKind, level: U8)
    ensures 0.0 < Cooldown(kind, level)
  {
  }

  /**
   * The damage table never falls from the first bucket (levels 0 to 2) to
   * the second (3 to 5): it rises for the machine gun and the pea shooter
   * and stays at 100 for the sniper. From level six on every gun deals 6,
   * so the pea shooter's and the sniper's damage drops there: the table is
   * not monotone.
   */
  lemma DamageNotMonotone(kind: GunKind)
    ensures Damage(kind, 2) <= Damage(kind, 3)
    ensures kind != Sniper <==> Damage(kind, 2) < Damage(kind, 3)
    ensures forall l: U8 | 6 <= l :: Damage(kind, l) == 6
    ensures kind != MachineGun ==> Damage(kind, 6) < Damage(kind, 5)
  {
  }

  /**
   * The factor `SpecialMunitions` applies to a projectile's damage: its
   * level (`damage_mult`), or one for a shooter without the component.
   */
  function DamageMult(munitions: Option<U8>): (m: int)
    ensures munitions.None? ==> m == 1
    ensures munitions.Some? ==> m == munitions.value
  {
    match munitions
    case None => 1
    case Some(level) => level
  }

  /** Level-zero munitions disarm a gun; without munitions the table's damage is dealt. */
  lemma MunitionsScaleDamage(kind: GunKind, level: U8, munitions: Option<U8>)
    ensures munitions == Some(0) ==> Damage(kind, level) * DamageMult(munitions) == 0
    ensures munitions.None? ==> Damage(kind, level) * DamageMult(munitions) == Damage(kind, level)
    ensures munitions.Some? && munitions.value > 0 ==>
              Damage(kind, level) * DamageMult(munitions) >= Damage(kind, level)
  {
  }

  // ---------------------------------------------------------------------
  // shoot_basic_gun

  /** What the query of `shoot_basic_gun::<kind>` selects. */
  predicate Shoots(kind: GunKind, e: Entity) {
    e.targetVector.Some? && kind in e.arms.guns && e.translation.Some? && !e.dead
  }

  /** A selected gun with a target vector whose cooldown has run out. */
  predicate Ready(kind: GunKind, e: Entity) {
    Shoots(kind, e) && e.targetVector.value.Some? && e.arms.guns[kind].cooldownRemaining <= 0.0
  }

  function ReadyQuery(kind: GunKind): Entity -> bool {
    e => Ready(kind, e)
  }

  /**
   * One frame of an aimed gun: a gun whose cooldown has run out fires and is
   * re-armed with its cooldown; any other is cooled by `dt`.
   */
  function GunTick(kind: GunKind, g: Gun, dt: real): Gun {
    if g.cooldownRemaining <= 0.0 then g.(cooldownRemaining := Cooldown(kind, g.level))
    else g.(cooldownRemaining := g.cooldownRemaining - dt)
  }

  /** `shoot_basic_gun`'s effect on one entity: only an aimed gun ticks. */
  function FireStep(kind: GunKind, e: Entity, dt: real): Entity {
    if Shoots(kind, e) && e.targetVector.value.Some? then
      e.(arms := e.arms.(guns := e.arms.guns[kind := GunTick(kind, e.arms.guns[kind], dt)]))
    else e
  }

  function FireStepFn(kind: GunKind, dt: real): (EntityId, Entity) -> Entity {
    (id: EntityId, e: Entity) => FireStep(kind, e, dt)
  }

  /** The world after `shoot_basic_gun::<kind>`. */
  function Fired(kind: GunKind, world: World, dt: real): World {
    map id | id in world :: FireStep(kind, world[id], dt)
  }

  /** The three cases of the fire step, and that nothing but the gun's cooldown changes. */
  lemma FireStepCases(kind: GunKind, e: Entity, dt: real)
    requires Shoots(kind, e)
    ensures var e' := FireStep(kind, e, dt);
      && e'.arms.guns.Keys == e.arms.guns.Keys
      && (forall k | k in e.arms.guns && k != kind :: e'.arms.guns[k] == e.arms.guns[k])
      && e'.arms.guns[kind].level == e.arms.guns[kind].level
      && e' == e.(arms := e.arms.(guns := e'.arms.guns))
      && (e.targetVector.value.None? ==> e' == e)
      && (Ready(kind, e) ==> e'.arms.guns[kind].cooldownRemaining == Cooldown(kind, e.arms.guns[kind].level))
      && (e.targetVector.value.Some? && !Ready(kind, e) ==>
            e'.arms.guns[kind].cooldownRemaining == e.arms.guns[kind].cooldownRemaining - dt)
  {
  }

  /**
   * The projectile a ready shooter `id` spawns: it starts at the shooter,
   * flies along the target vector at the gun's speed, deals the table damage
   * times the munitions factor, survives the gun's hit count, expires after
   * thirty seconds and joins the shooter's side.
   */
  function Bullet(kind: GunKind, id: EntityId, e: Entity): (b: Entity)
    requires Ready(kind, e)
    ensures b.projectile == Some(Projectile(id, Damage(kind, e.arms.guns[kind].level) * DamageMult(e.arms.specialMunitions), 40.0))
    ensures b.health == Some(ProjectileHealth(kind))
    ensures b.translation == e.translation && b.despawnTimer == Some(30.0)
    ensures b.friendly == e.friendly && b.hostile == e.enemy && b.deathParticles
  {
    var g := e.arms.guns[kind];
    var dir := e.targetVector.value.value;
    var speed := ProjectileSpeed(kind);
    Bare.(
      translation := e.translation,
      projectile := Some(Projectile(id, Damage(kind, g.level) * DamageMult(e.arms.specialMunitions), 40.0)),
      velocity := Some(Vec2(dir.x * speed, dir.y * speed)),
      health := Some(ProjectileHealth(kind)),
      deathParticles := true,
      despawnTimer := Some(30.0),
      orientTowardsVelocity := true,
      friendly := e.friendly,
      hostile := e.enemy)
  }

  /** The projectiles one pass spawns, in iteration order. */
  function Volley(kind: GunKind, world: World, order: seq<EntityId>): seq<Entity> {
    if order == [] then []
    else
      var id := order[|order| - 1];
      Volley(kind, world, order[..|order| - 1])
        + (if id in world && Ready(kind, world[id]) then [Bullet(kind, id, world[id])] else [])
  }

  /** `shoot_basic_gun::<kind>`: each aimed gun fires or cools down. */
  method ShootBasicGun(kind: GunKind, world: World, order: seq<EntityId>, dt: real)
    returns (w': World, shots: seq<Entity>)
    requires Enumerates(order, world)
    ensures w' == Fired(kind, world, dt)
    ensures shots == Volley(kind, world, order)
  {
    var w := world;
    shots := [];
    for i := 0 to |order|
      invariant w == Pass(world, order[..i], FireStepFn(kind, dt))
      invariant shots == Volley(kind, world, order[..i])
    {
      var id := order[i];
      ShootStep(kind, world, order, i, dt);
      var e', shot := ShootOne(kind, id, w[id], dt);
      w := w[id := e'];
      shots := shots + shot;
    }
    assert order[..|order|] == order;
    FiredIsPass(kind, world, order, dt, w);
    w' := w;
  }

  /** The closure `shoot_basic_gun` runs on each entity: fire a ready gun, cool any other aimed one. */
  method ShootOne(kind: GunKind, id: EntityId, e: Entity, dt: real) returns (e': Entity, shot: seq<Entity>)
    ensures e' == FireStep(kind, e, dt)
    ensures shot == if Ready(kind, e) then [Bullet(kind, id, e)] else []
  {
    e' := e;
    shot := [];
    if e.targetVector.Some? && kind in e.arms.guns && e.translation.Some? && !e.dead {
      match e.targetVector.value
      case Some(_) =>
        var g := e.arms.guns[kind];
        if g.cooldownRemaining <= 0.0 {
          e' := e.(arms := e.arms.(guns := e.arms.guns[kind := g.(cooldownRemaining := Cooldown(kind, g.level))]));
          shot := [Bullet(kind, id, e)];
        } else {
          e' := e.(arms := e.arms.(guns := e.arms.guns[kind := g.(cooldownRemaining := g.cooldownRemaining - dt)]));
        }
      case None =>
    }
  }

  /** One iteration of `shoot_basic_gun`'s loop, in terms of its specification. */
  lemma ShootStep(kind: GunKind, world: World, order: seq<EntityId>, i: nat, dt: real)
    requires Distinct(order) && i < |order| && order[i] in world
    ensures var w := Pass(world, order[..i], FireStepFn(kind, dt)); var id := order[i];
      && id in w && w[id] == world[id]
      && Pass(world, order[..i + 1], FireStepFn(kind, dt)) == w[id := FireStep(kind, world[id], dt)]
      && Volley(kind, world, order[..i + 1])
         == Volley(kind, world, order[..i]) + (if Ready(kind, world[id]) then [Bullet(kind, id, world[id])] else [])
  {
    PassStep(world, order, i, FireStepFn(kind, dt));
    PassUnvisited(world, order, i, FireStepFn(kind, dt));
    assert order[..i + 1][..i] == order[..i];
  }

  lemma FiredIsPass(kind: GunKind, world: World, order: seq<EntityId>, dt: real, w: World)
    requires Enumerates(order, world)
    requires w == Pass(world, order, FireStepFn(kind, dt))
    ensures w == Fired(kind, world, dt)
  {
    PassCovers(world, order, FireStepFn(kind, dt));
  }

  /**
   * A pass spawns exactly one projectile per ready shooter, in iteration
   * order, and each is that shooter's `Bullet`.
   */
  lemma {:induction false} VolleyOnePerReadyShooter(kind: GunKind, world: World, order: seq<EntityId>)
    ensures var v := Volley(kind, world, order); var m := Matching(world, order, ReadyQuery(kind));
      && |v| == |m|
      && forall k | 0 <= k < |v| :: m[k] in world && Ready(kind, world[m[k]]) && v[k] == Bullet(kind, m[k], world[m[k]])
  {
    if order != [] {
      VolleyOnePerReadyShooter(kind, world, order[..|order| - 1]);
    }
  }

  /** The total of a run of frame times. */
  function Sum(dts: seq<real>): real {
    if dts == [] then 0.0 else dts[0] + Sum(dts[1..])
  }

  /** The number of shots an aimed gun fires over a run of frames. */
  function Shots(kind: GunKind, g: Gun, dts: seq<real>): nat
    decreases |dts|
  {
    if dts == [] then 0
    else (if g.cooldownRemaining <= 0.0 then 1 else 0) + Shots(kind, GunTick(kind, g, dts[0]), dts[1..])
  }

  /** A gun still cooling down stays silent for frames that add up to less than its remaining cooldown. */
  lemma {:induction false} QuietWhileCooling(kind: GunKind, g: Gun, dts: seq<real>)
    requires forall k | 0 <= k < |dts| :: dts[k] >= 0.0
    requires Sum(dts) < g.cooldownRemaining
    ensures Shots(kind, g, dts) == 0
    decreases |dts|
  {
    if dts != [] {
      assert Sum(dts[1..]) >= 0.0 by { SumNonNegative(dts[1..]); }
      QuietWhileCooling(kind, GunTick(kind, g, dts[0]), dts[1..]);
    }
  }

  lemma {:induction false} SumNonNegative(dts: seq<real>)
    requires forall k | 0 <= k < |dts| :: dts[k] >= 0.0
    ensures Sum(dts) >= 0.0
  {
    if dts != [] {
      SumNonNegative(dts[1..]);
    }
  }

  /**
   * A ready gun fires once and then not again until its cooldown has
   * elapsed: at most one shot per cooldown period.
   */
  lemma OneShotPerCooldown(kind: GunKind, g: Gun, dt: real, dts: seq<real>)
    requires g.cooldownRemaining <= 0.0
    requires forall k | 0 <= k < |dts| :: dts[k] >= 0.0
    requires Sum(dts) < Cooldown(kind, g.level)
    ensures Shots(kind, g, [dt] + dts) == 1
  {
    assert ([dt] + dts)[1..] == dts;
    QuietWhileCooling(kind, GunTick(kind, g, dt), dts);
  }

  // ---------------------------------------------------------------------
  // check_bullet_collisions_teamed::<A, B>

  /**
   * One run of `check_bullet_collisions_teamed`: projectiles of team `a`
   * against the `Health` entities of team `b`, over `world` as it was when
   * the system started; `targets` is the order of the candidates' query,
   * which visits every entity once (`Scans`).
   */
  datatype Sweep = Sweep(a: Team, b: Team, world: World, targets: seq<EntityId>,
                         within: (Vec2, Vec2, real) -> bool)

  /** The candidates' query visits every entity of the world exactly once. */
  predicate Scans(sw: Sweep) {
    Enumerates(sw.targets, sw.world)
  }

  /** What the bullet query selects. */
  predicate IsBullet(a: Team, e: Entity) {
    OnTeam(e, a) && e.translation.Some? && e.projectile.Some? && e.health.Some?
  }

  /** What the candidate query selects. */
  predicate IsTarget(b: Team, e: Entity) {
    e.health.Some? && OnTeam(e, b) && e.translation.Some?
  }

  /**
   * Bullet `id` (record `e`) strikes candidate `c`: `c` is a candidate, is
   * neither the bullet, its firer nor the entity it last hit, and lies within
   * the bullet's size.
   */
  predicate Strikes(sw: Sweep, id: EntityId, e: Entity, c: EntityId) {
    && e.translation.Some? && e.projectile.Some?
    && c in sw.world && IsTarget(sw.b, sw.world[c])
    && c != id && c != e.projectile.value.firedBy && e.lastHit != Some(c)
    && sw.within(e.translation.value, sw.world[c].translation.value, e.projectile.value.size)
  }

  function StrikeTest(sw: Sweep, id: EntityId, e: Entity): EntityId -> bool {
    (c: EntityId) => Strikes(sw, id, e, c)
  }

  /**
   * The candidate a bullet hits: the first one in the candidates' order that
   * it strikes. When the query scans the whole world, the bullet misses
   * exactly when it strikes no entity of the world.
   */
  function HitOf(sw: Sweep, id: EntityId, e: Entity): (r: Option<EntityId>)
    ensures r.Some? ==> r.value in sw.targets && r.value in sw.world && Strikes(sw, id, e, r.value)
    ensures r.None? <==> forall c | c in sw.targets :: !Strikes(sw, id, e, c)
    ensures Scans(sw) ==> (r.None? <==> forall c | c in sw.world :: !Strikes(sw, id, e, c))
  {
    match FirstWhere(sw.targets, StrikeTest(sw, id, e))
    case None => None
    case Some(i) => Some(sw.targets[i])
  }

  /** Every candidate before the struck one in the candidates' order is missed. */
  lemma HitIsFirstInOrder(sw: Sweep, id: EntityId, e: Entity, i: nat, j: nat)
    requires Distinct(sw.targets) && i < j < |sw.targets|
    requires HitOf(sw, id, e) == Some(sw.targets[j])
    ensures !Strikes(sw, id, e, sw.targets[i])
  {
    var k := FirstWhere(sw.targets, StrikeTest(sw, id, e)).value;
    assert sw.targets[k] == sw.targets[j];
  }

  /**
   * A bullet after a hit: one hit point less and, while it survives, the
   * struck entity remembered as its `LastHit`.
   */
  function Struck(sw: Sweep, id: EntityId, e: Entity): Entity {
    if IsBullet(sw.a, e) then
      match HitOf(sw, id, e)
      case None => e
      case Some(c) =>
        var h := e.health.value - 1;
        e.(health := Some(h), lastHit := if h <= 0 then e.lastHit else Some(c))
    else e
  }

  function StruckFn(sw: Sweep): (EntityId, Entity) -> Entity {
    (id: EntityId, e: Entity) => Struck(sw, id, e)
  }

  function Collided(sw: Sweep): World {
    map id | id in sw.world :: Struck(sw, id, sw.world[id])
  }

  /** A bullet whose hit count reaches zero: `despawn` is queued for it. */
  predicate Spends(sw: Sweep, id: EntityId, e: Entity) {
    IsBullet(sw.a, e) && HitOf(sw, id, e).Some? && e.health.value - 1 <= 0
  }

  /** The bullets of `bullets` used up in this pass. */
  function Spent(sw: Sweep, bullets: seq<EntityId>): set<EntityId> {
    if bullets == [] then {}
    else
      var id := bullets[|bullets| - 1];
      Spent(sw, bullets[..|bullets| - 1]) + (if id in sw.world && Spends(sw, id, sw.world[id]) then {id} else {})
  }

  /** The damage event of one bullet: one for a hit, none for a miss. */
  function BulletEvents(sw: Sweep, id: EntityId, e: Entity): seq<DamageEvent> {
    if IsBullet(sw.a, e) && HitOf(sw, id, e).Some? then
      [DamageEvent(e.projectile.value.firedBy, HitOf(sw, id, e).value, e.projectile.value.damageAmount)]
    else []
  }

  function HitEvents(sw: Sweep, bullets: seq<EntityId>): seq<DamageEvent> {
    if bullets == [] then []
    else
      var id := bullets[|bullets| - 1];
      HitEvents(sw, bullets[..|bullets| - 1]) + (if id in sw.world then BulletEvents(sw, id, sw.world[id]) else [])
  }

  /** The impact effect a `DeathParticles` bullet leaves where it hit: gone after 0.2 seconds. */
  function Impact(at: Vec2): Entity {
    Bare.(translation := Some(at), despawnTimer := Some(0.2))
  }

  function BulletImpacts(sw: Sweep, id: EntityId, e: Entity): seq<Entity> {
    if IsBullet(sw.a, e) && HitOf(sw, id, e).Some? && e.deathParticles then [Impact(e.translation.value)] else []
  }

  function Impacts(sw: Sweep, bullets: seq<EntityId>): seq<Entity> {
    if bullets == [] then []
    else
      var id := bullets[|bullets| - 1];
      Impacts(sw, bullets[..|bullets| - 1]) + (if id in sw.world then BulletImpacts(sw, id, sw.world[id]) else [])
  }

  /** The inner loop of the collision check: the first candidate the bullet strikes. */
  method FindHit(sw: Sweep, id: EntityId, e: Entity) returns (hit: Option<EntityId>)
    requires IsBullet(sw.a, e)
    ensures hit == HitOf(sw, id, e)
  {
    hit := None;
    for j := 0 to |sw.targets|
      invariant forall k | 0 <= k < j :: !Strikes(sw, id, e, sw.targets[k])
    {
      var c := sw.targets[j];
      if c in sw.world && IsTarget(sw.b, sw.world[c]) {
        var firedBy := e.projectile.value.firedBy;
        if c != id && firedBy != c && (e.lastHit.None? || e.lastHit.value != c) {
          if sw.within(e.translation.value, sw.world[c].translation.value, e.projectile.value.size) {
            hit := Some(c);
            assert FirstWhere(sw.targets, StrikeTest(sw, id, e)) == Some(j);
            break;
          }
        }
      }
    }
  }

  /**
   * `check_bullet_collisions_teamed::<A, B>`: each bullet of team `a` hits
   * at most the first candidate of team `b` it strikes, loses a hit point,
   * is despawned when none are left and otherwise remembers the struck
   * entity; each hit sends a damage event and may leave an impact effect.
   */
  method CheckBulletCollisions(a: Team, b: Team, world: World, order: seq<EntityId>, targets: seq<EntityId>,
                               within: (Vec2, Vec2, real) -> bool)
    returns (w': World, events: seq<DamageEvent>, impacts: seq<Entity>)
    requires Enumerates(order, world) && Enumerates(targets, world)
    ensures var sw := Sweep(a, b, world, targets, within);
      && w' == Without(Collided(sw), Spent(sw, order))
      && events == HitEvents(sw, order)
      && impacts == Impacts(sw, order)
  {
    var sw := Sweep(a, b, world, targets, within);
    var w := world;
    var spent: set<EntityId> := {};
    events := [];
    impacts := [];
    for i := 0 to |order|
      invariant w == Pass(world, order[..i], StruckFn(sw))
      invariant spent == Spent(sw, order[..i])
      invariant events == HitEvents(sw, order[..i])
      invariant impacts == Impacts(sw, order[..i])
    {
      w, spent, events, impacts := CollideNext(sw, order, i, w, spent, events, impacts);
    }
    assert order[..|order|] == order;
    CollidedIsPass(sw, order, w);
    w' := Without(w, spent);
  }

  /** One iteration of the collision loop: bullet `order[i]` is checked and the loop's state advanced. */
  method CollideNext(sw: Sweep, order: seq<EntityId>, i: nat,
                     w: World, spent: set<EntityId>, events: seq<DamageEvent>, impacts: seq<Entity>)
    returns (w': World, spent': set<EntityId>, events': seq<DamageEvent>, impacts': seq<Entity>)
    requires Enumerates(order, sw.world) && i < |order|
    requires w == Pass(sw.world, order[..i], StruckFn(sw))
    requires spent == Spent(sw, order[..i])
    requires events == HitEvents(sw, order[..i])
    requires impacts == Impacts(sw, order[..i])
    ensures w' == Pass(sw.world, order[..i + 1], StruckFn(sw))
    ensures spent' == Spent(sw, order[..i + 1])
    ensures events' == HitEvents(sw, order[..i + 1])
    ensures impacts' == Impacts(sw, order[..i + 1])
  {
    var id := order[i];
    CollisionStep(sw, order, i);
    var e', spends, evs, imps := CollideOne(sw, id, w[id]);
    w' := w[id := e'];
    spent' := if spends then spent + {id} else spent;
    events' := events + evs;
    impacts' := impacts + imps;
  }

  /** The closure the collision check runs on each bullet. */
  method CollideOne(sw: Sweep, id: EntityId, e: Entity)
    returns (e': Entity, spends: bool, events: seq<DamageEvent>, impacts: seq<Entity>)
    ensures e' == Struck(sw, id, e) && spends == Spends(sw, id, e)
    ensures events == BulletEvents(sw, id, e) && impacts == BulletImpacts(sw, id, e)
  {
    e' := e;
    spends := false;
    events := [];
    impacts := [];
    if OnTeam(e, sw.a) && e.translation.Some? && e.projectile.Some? && e.health.Some? {
      var hit := FindHit(sw, id, e);
      match hit
      case Some(c) =>
        var h := e.health.value - 1;
        if h <= 0 {
          spends := true;
          e' := e.(health := Some(h));
        } else {
          e' := e.(health := Some(h), lastHit := Some(c));
        }
        if e.deathParticles {
          impacts := [Impact(e.translation.value)];
        }
        events := [DamageEvent(e.projectile.value.firedBy, c, e.projectile.value.damageAmount)];
      case None =>
    }
  }

  /** One iteration of the collision loop, in terms of its specification. */
  lemma CollisionStep(sw: Sweep, order: seq<EntityId>, i: nat)
    requires Distinct(order) && i < |order| && order[i] in sw.world
    ensures var w := Pass(sw.world, order[..i], StruckFn(sw)); var id := order[i]; var e := sw.world[id];
      && id in w && w[id] == e
      && Pass(sw.world, order[..i + 1], StruckFn(sw)) == w[id := Struck(sw, id, e)]
      && Spent(sw, order[..i + 1]) == Spent(sw, order[..i]) + (if Spends(sw, id, e) then {id} else {})
      && HitEvents(sw, order[..i + 1]) == HitEvents(sw, order[..i]) + BulletEvents(sw, id, e)
      && Impacts(sw, order[..i + 1]) == Impacts(sw, order[..i]) + BulletImpacts(sw, id, e)
  {
    PassStep(sw.world, order, i, StruckFn(sw));
    PassUnvisited(sw.world, order, i, StruckFn(sw));
    assert order[..i + 1][..i] == order[..i];
  }

  lemma CollidedIsPass(sw: Sweep, order: seq<EntityId>, w: World)
    requires Enumerates(order, sw.world)
    requires w == Pass(sw.world, order, StruckFn(sw))
    ensures w == Collided(sw)
  {
    PassCovers(sw.world, order, StruckFn(sw));
  }

  /** A projectile is used up in a pass exactly when it hits with its last hit point. */
  lemma {:induction false} SpentExact(sw: Sweep, bullets: seq<EntityId>)
    ensures forall id :: id in Spent(sw, bullets) <==> id in bullets && id in sw.world && Spends(sw, id, sw.world[id])
  {
    if bullets != [] {
      SpentExact(sw, bullets[..|bullets| - 1]);
      assert bullets == bullets[..|bullets| - 1] + [bullets[|bullets| - 1]];
    }
  }

  /**
   * The fate of a bullet that hits `c`: it loses exactly one hit point; it is
   * gone iff that was its last one, and otherwise its `LastHit` is `c` and
   * nothing else about it changed.
   */
  lemma HitOutcome(sw: Sweep, order: seq<EntityId>, id: EntityId, c: EntityId)
    requires Enumerates(order, sw.world) && Scans(sw)
    requires id in sw.world && IsBullet(sw.a, sw.world[id]) && HitOf(sw, id, sw.world[id]) == Some(c)
    ensures var e := sw.world[id]; var after := Without(Collided(sw), Spent(sw, order));
      && (id in after <==> e.health.value - 1 > 0)
      && (id in after ==> after[id] == e.(health := Some(e.health.value - 1), lastHit := Some(c)))
  {
    SpentExact(sw, order);
  }

  /** A bullet that strikes no entity of the world is left exactly as it was. */
  lemma MissUntouched(sw: Sweep, order: seq<EntityId>, id: EntityId)
    requires Enumerates(order, sw.world) && Scans(sw)
    requires id in sw.world && forall c | c in sw.world :: !Strikes(sw, id, sw.world[id], c)
    ensures var after := Without(Collided(sw), Spent(sw, order));
      id in after && after[id] == sw.world[id]
  {
    SpentExact(sw, order);
  }

  /** Every bullet of `bullets` that hits has its damage event among the pass's events. */
  lemma {:induction false} HitEventSent(sw: Sweep, bullets: seq<EntityId>, id: EntityId)
    requires id in bullets && id in sw.world && BulletEvents(sw, id, sw.world[id]) != []
    ensures BulletEvents(sw, id, sw.world[id])[0] in HitEvents(sw, bullets)
  {
    var init := bullets[..|bullets| - 1];
    if id != bullets[|bullets| - 1] {
      assert id in init by {
        var k :| 0 <= k < |bullets| && bullets[k] == id;
        assert init[k] == id;
      }
      HitEventSent(sw, init, id);
    }
  }

  /**
   * A bullet that strikes some entity of the world does hit: the system sends
   * its damage event, aimed at the first entity in the candidates' order
   * that it strikes.
   */
  lemma StrikeIsHit(sw: Sweep, order: seq<EntityId>, id: EntityId, c: EntityId)
    requires Enumerates(order, sw.world) && Scans(sw)
    requires id in sw.world && IsBullet(sw.a, sw.world[id]) && c in sw.world && Strikes(sw, id, sw.world[id], c)
    ensures var e := sw.world[id]; var hit := HitOf(sw, id, e);
      && hit.Some?
      && DamageEvent(e.projectile.value.firedBy, hit.value, e.projectile.value.damageAmount) in HitEvents(sw, order)
  {
    HitEventSent(sw, order, id);
  }

  /**
   * At most one hit, hence at most one damage event and one impact, per
   * bullet; so a pass has no more events than bullets.
   */
  lemma {:induction false} AtMostOneHitPerBullet(sw: Sweep, bullets: seq<EntityId>)
    ensures forall id | id in sw.world ::
      |BulletImpacts(sw, id, sw.world[id])| <= |BulletEvents(sw, id, sw.world[id])| <= 1
    ensures |HitEvents(sw, bullets)| <= |bullets|
    ensures |Impacts(sw, bullets)| <= |HitEvents(sw, bullets)|
  {
    if bullets != [] {
      AtMostOneHitPerBullet(sw, bullets[..|bullets| - 1]);
    }
  }

  /**
   * A surviving bullet does not strike the same entity on the next pass: its
   * `LastHit` excludes it, whatever else has moved.
   */
  lemma NoImmediateRepeatHit(sw: Sweep, order: seq<EntityId>, next: Sweep, id: EntityId, c: EntityId)
    requires Enumerates(order, sw.world) && Scans(sw) && Scans(next)
    requires id in sw.world && IsBullet(sw.a, sw.world[id]) && HitOf(sw, id, sw.world[id]) == Some(c)
    requires next.world == Without(Collided(sw), Spent(sw, order)) && id in next.world
    ensures HitOf(next, id, next.world[id]) != Some(c)
  {
    HitOutcome(sw, order, id, c);
  }

  // ---------------------------------------------------------------------
  // update_target_vectors

  /** What `update_target_vectors`' query selects. */
  predicate Aims(e: Entity) {
    e.targetVector.Some? && e.target.Some? && e.despawnTimer.None?
  }

  /**
   * `update_target_vectors` on one entity: with a target whose transform
   * and its own can both be looked up, the target vector becomes the
   * direction to the target when it is in range and `None` otherwise.
   */
  function Retargeted(world: World, inRange: (Vec2, Vec2) -> bool, aim: (Vec2, Vec2) -> Vec2, e: Entity): Entity {
    if Aims(e) && e.target.value.Some? && e.translation.Some?
       && e.target.value.value in world && world[e.target.value.value].translation.Some? then
      var from := e.translation.value;
      var to := world[e.target.value.value].translation.value;
      e.(targetVector := Some(if inRange(from, to) then Some(aim(from, to)) else None))
    else e
  }

  function RetargetFn(world: World, inRange: (Vec2, Vec2) -> bool, aim: (Vec2, Vec2) -> Vec2): (EntityId, Entity) -> Entity {
    (id: EntityId, e: Entity) => Retargeted(world, inRange, aim, e)
  }

  function RetargetedWorld(world: World, inRange: (Vec2, Vec2) -> bool, aim: (Vec2, Vec2) -> Vec2): (r: World)
    ensures r.Keys == world.Keys
  {
    map id | id in world :: Retargeted(world, inRange, aim, world[id])
  }

  /** `update_target_vectors`. */
  method UpdateTargetVectors(world: World, order: seq<EntityId>, inRange: (Vec2, Vec2) -> bool, aim: (Vec2, Vec2) -> Vec2)
    returns (w': World)
    requires Enumerates(order, world)
    ensures w' == RetargetedWorld(world, inRange, aim)
  {
    var w := world;
    for i := 0 to |order|
      invariant w == Pass(world, order[..i], RetargetFn(world, inRange, aim))
    {
      w := RetargetNext(world, order, i, inRange, aim, w);
    }
    assert order[..|order|] == order;
    RetargetedIsPass(world, order, inRange, aim, w);
    w' := w;
  }

  /** One iteration of `update_target_vectors`' loop: entity `order[i]` re-aimed. */
  method RetargetNext(world: World, order: seq<EntityId>, i: nat, inRange: (Vec2, Vec2) -> bool, aim: (Vec2, Vec2) -> Vec2,
                      w: World)
    returns (w': World)
    requires Enumerates(order, world) && i < |order|
    requires w == Pass(world, order[..i], RetargetFn(world, inRange, aim))
    ensures w' == Pass(world, order[..i + 1], RetargetFn(world, inRange, aim))
  {
    var id := order[i];
    RetargetStep(world, order, i, inRange, aim);
    var e' := RetargetOne(world, inRange, aim, w[id]);
    w' := w[id := e'];
  }

  /** The closure `update_target_vectors` runs on each entity. */
  method RetargetOne(world: World, inRange: (Vec2, Vec2) -> bool, aim: (Vec2, Vec2) -> Vec2, e: Entity) returns (e': Entity)
    ensures e' == Retargeted(world, inRange, aim, e)
  {
    e' := e;
    if e.targetVector.Some? && e.target.Some? && e.despawnTimer.None? {
      match e.target.value
      case Some(t) =>
        if e.translation.Some? && t in world && world[t].translation.Some? {
          var from := e.translation.value;
          var to := world[t].translation.value;
          e' := e.(targetVector := Some(if inRange(from, to) then Some(aim(from, to)) else None));
        }
      case None =>
    }
  }

  lemma RetargetStep(world: World, order: seq<EntityId>, i: nat, inRange: (Vec2, Vec2) -> bool, aim: (Vec2, Vec2) -> Vec2)
    requires Distinct(order) && i < |order| && order[i] in world
    ensures var w := Pass(world, order[..i], RetargetFn(world, inRange, aim)); var id := order[i];
      && id in w && w[id] == world[id]
      && Pass(world, order[..i + 1], RetargetFn(world, inRange, aim)) == w[id := Retargeted(world, inRange, aim, world[id])]
  {
    PassStep(world, order, i, RetargetFn(world, inRange, aim));
    PassUnvisited(world, order, i, RetargetFn(world, inRange, aim));
  }

  lemma RetargetedIsPass(world: World, order: seq<EntityId>, inRange: (Vec2, Vec2) -> bool, aim: (Vec2, Vec2) -> Vec2, w: World)
    requires Enumerates(order, world)
    requires w == Pass(world, order, RetargetFn(world, inRange, aim))
    ensures w == RetargetedWorld(world, inRange, aim)
  {
    PassCovers(world, order, RetargetFn(world, inRange, aim));
  }

  /**
   * The target-vector rule: only `TargetVector` can change; it is left as it
   * was without a target or when a lookup fails, and otherwise is `Some`
   * exactly when the target is in range.
   */
  lemma TargetVectorRule(world: World, inRange: (Vec2, Vec2) -> bool, aim: (Vec2, Vec2) -> Vec2, id: EntityId)
    requires id in world
    ensures var e := world[id]; var e' := RetargetedWorld(world, inRange, aim)[id];
      && e' == e.(targetVector := e'.targetVector)
      && (e.target.None? || e.target.value.None? || e.despawnTimer.Some? ==> e' == e)
      && ((e.translation.None? || (e.target.Some? && e.target.value.Some? &&
             (e.target.value.value !in world || world[e.target.value.value].translation.None?))) ==> e' == e)
      && (Aims(e) && e.target.value.Some? && e.translation.Some? && e.target.value.value in world
          && world[e.target.value.value].translation.Some? ==>
            (e'.targetVector.value.Some? <==> inRange(e.translation.value, world[e.target.value.value].translation.value)))
  {
  }

  /** Running `update_target_vectors` again changes nothing: it reads only what it does not write. */
  lemma RetargetIdempotent(world: World, inRange: (Vec2, Vec2) -> bool, aim: (Vec2, Vec2) -> Vec2)
    ensures var once := RetargetedWorld(world, inRange, aim);
      RetargetedWorld(once, inRange, aim) == once
  {
    var once := RetargetedWorld(world, inRange, aim);
    var twice := RetargetedWorld(once, inRange, aim);
    forall id | id in once ensures twice[id] == once[id] {
      RetargetedAgain(world, inRange, aim, once, id);
    }
    assert twice.Keys == once.Keys;
  }

  lemma RetargetedAgain(world: World, inRange: (Vec2, Vec2) -> bool, aim: (Vec2, Vec2) -> Vec2, once: World, id: EntityId)
    requires once == RetargetedWorld(world, inRange, aim) && id in once
    ensures Retargeted(once, inRange, aim, once[id]) == once[id]
  {
    var e := world[id];
    if Aims(e) && e.target.value.Some? {
      var t := e.target.value.value;
      if t in world {
        assert once[t].translation == world[t].translation;
      }
    }
  }

  // ---------------------------------------------------------------------
  // update_player_target

  /** What the player query of `update_player_target` selects. */
  predicate IsPlayerAimer(e: Entity) {
    e.player && e.target.Some? && e.translation.Some?
  }

  function PlayerAimerQuery(): Entity -> bool {
    e => IsPlayerAimer(e)
  }

  /** What the enemy query selects: enemies with a transform that are not dying. */
  predicate Eligible(e: Entity) {
    e.enemy && e.despawnTimer.None? && e.translation.Some?
  }

  /**
   * `min_by_key` over the eligible enemies of `order`, keyed by truncated
   * distance from `from`: the first enemy with the smallest key.
   */
  function Nearest(world: World, order: seq<EntityId>, from: Vec2, key: (Vec2, Vec2) -> int): (r: Option<EntityId>)
    ensures r.Some? ==> r.value in order && r.value in world && Eligible(world[r.value])
    ensures r.None? <==> forall k | 0 <= k < |order| :: order[k] !in world || !Eligible(world[order[k]])
  {
    if order == [] then None
    else
      var best := Nearest(world, order[..|order| - 1], from, key);
      var id := order[|order| - 1];
      assert order == order[..|order| - 1] + [id];
      if id in world && Eligible(world[id]) then
        match best
        case None => Some(id)
        case Some(b) =>
          if key(from, world[id].translation.value) < key(from, world[b].translation.value) then Some(id) else best
      else best
  }

  /** The key of an eligible enemy's distance from `from`. */
  function KeyOf(world: World, from: Vec2, key: (Vec2, Vec2) -> int, id: EntityId): int
    requires id in world && Eligible(world[id])
  {
    key(from, world[id].translation.value)
  }

  /**
   * The chosen enemy minimises the key, and every eligible enemy before it in
   * iteration order has a strictly larger key: ties go to the first.
   */
  lemma {:induction false} NearestIsFirstMinimum(world: World, order: seq<EntityId>, from: Vec2, key: (Vec2, Vec2) -> int)
    requires Distinct(order)
    ensures var r := Nearest(world, order, from, key);
      r.Some? ==>
        && (forall k | 0 <= k < |order| && order[k] in world && Eligible(world[order[k]]) ::
              KeyOf(world, from, key, r.value) <= KeyOf(world, from, key, order[k]))
        && (forall j, k | 0 <= j < k < |order| && order[k] == r.value && order[j] in world && Eligible(world[order[j]]) ::
              KeyOf(world, from, key, r.value) < KeyOf(world, from, key, order[j]))
  {
    if order != [] {
      var init := order[..|order| - 1];
      var id := order[|order| - 1];
      assert Distinct(init);
      NearestIsFirstMinimum(world, init, from, key);
      assert forall k | 0 <= k < |init| :: order[k] == init[k];
      assert id !in init;
    }
  }

  /** The loop `min_by_key` runs: keep the first enemy whose key is smaller than the best so far. */
  method NearestEnemy(world: World, order: seq<EntityId>, from: Vec2, key: (Vec2, Vec2) -> int)
    returns (r: Option<EntityId>)
    ensures r == Nearest(world, order, from, key)
  {
    r := None;
    var bestKey := 0;
    for i := 0 to |order|
      invariant r == Nearest(world, order[..i], from, key)
      invariant r.Some? ==> r.value in world && Eligible(world[r.value]) && bestKey == KeyOf(world, from, key, r.value)
    {
      var id := order[i];
      assert order[..i + 1][..i] == order[..i];
      if id in world && world[id].enemy && world[id].despawnTimer.None? && world[id].translation.Some? {
        var k := key(from, world[id].translation.value);
        if r.None? || k < bestKey {
          r := Some(id);
          bestKey := k;
        }
      }
    }
    assert order[..|order|] == order;
  }

  /**
   * `update_player_target`: when there is exactly one player with a
   * `Target` and a transform, its target becomes the nearest eligible
   * enemy, or `None` when there is none; nothing else changes.
   */
  method UpdatePlayerTarget(world: World, order: seq<EntityId>, key: (Vec2, Vec2) -> int)
    returns (w': World)
    requires Enumerates(order, world)
    ensures match Single(world, order, PlayerAimerQuery())
      case None => w' == world
      case Some(p) => w' == world[p := world[p].(target := Some(Nearest(world, order, world[p].translation.value, key)))]
  {
    var player := Single(world, order, PlayerAimerQuery());
    match player
    case None =>
      w' := world;
    case Some(p) =>
      var nearest := NearestEnemy(world, order, world[p].translation.value, key);
      w' := world[p := world[p].(target := Some(nearest))];
  }
}
