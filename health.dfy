/**
 * The health pipeline: damage events subtract from `Health`, `check_dead`
 * turns entities whose health reached zero into dying ones (one death event
 * each), and `despawn` counts down `DespawnTimer`s and removes what expires.
 */
module Health {
  import opened Ecs
  import opened Components

  // ---------------------------------------------------------------------
  // apply_damage

  /** The sum of the amounts of the events aimed at `id`. */
  function DamageTo(events: seq<DamageEvent>, id: EntityId): int {
    if events == [] then 0
    else
      var last := events[|events| - 1];
      DamageTo(events[..|events| - 1], id) + (if last.appliedTo == id then last.amount else 0)
  }

  /** Every entity with `Health` loses the total damage aimed at it; nothing else changes. */
  function Damaged(world: World, events: seq<DamageEvent>): (r: World)
    ensures r.Keys == world.Keys
  {
    map id | id in world ::
      if world[id].health.Some? then world[id].(health := Some(world[id].health.value - DamageTo(events, id)))
      else world[id]
  }

  /** `apply_damage`: each event, in order, subtracts its amount from its target's `Health`. */
  method ApplyDamage(world: World, events: seq<DamageEvent>) returns (w': World)
    ensures w' == Damaged(world, events)
  {
    var w := world;
    for i := 0 to |events|
      invariant w == Damaged(world, events[..i])
    {
      w := DamageNext(world, events, i, w);
    }
    assert events[..|events|] == events;
    w' := w;
  }

  /** One iteration of `apply_damage`'s loop: event `events[i]` applied. */
  method DamageNext(world: World, events: seq<DamageEvent>, i: nat, w: World) returns (w': World)
    requires i < |events| && w == Damaged(world, events[..i])
    ensures w' == Damaged(world, events[..i + 1])
  {
    var ev := events[i];
    assert events[..i + 1][..i] == events[..i];
    w' := w;
    if ev.appliedTo in w && w[ev.appliedTo].health.Some? {
      var e := w[ev.appliedTo];
      w' := w[ev.appliedTo := e.(health := Some(e.health.value - ev.amount))];
    }
  }

  /** The damage of two event batches adds up. */
  lemma {:induction false} DamageToConcat(a: seq<DamageEvent>, b: seq<DamageEvent>, id: EntityId)
    ensures DamageTo(a + b, id) == DamageTo(a, id) + DamageTo(b, id)
  {
    if b != [] {
      var b' := b[..|b| - 1];
      assert (a + b)[..|a + b| - 1] == a + b';
      DamageToConcat(a, b', id);
    } else {
      assert a + b == a;
    }
  }

  /** Applying two batches one after the other is applying them together. */
  lemma DamageComposes(world: World, a: seq<DamageEvent>, b: seq<DamageEvent>)
    ensures Damaged(Damaged(world, a), b) == Damaged(world, a + b)
  {
    var l, r := Damaged(Damaged(world, a), b), Damaged(world, a + b);
    forall id | id in world ensures l[id] == r[id] {
      DamageToConcat(a, b, id);
    }
    assert l.Keys == r.Keys;
  }

  /** `k` events of the same amount on one entity take `k` times that amount. */
  lemma {:induction false} RepeatedHits(events: seq<DamageEvent>, id: EntityId, amount: int)
    requires forall k | 0 <= k < |events| :: events[k].appliedTo == id && events[k].amount == amount
    ensures DamageTo(events, id) == |events| * amount
  {
    if events != [] {
      RepeatedHits(events[..|events| - 1], id, amount);
    }
  }

  /** Events aimed at other entities do not touch an entity's health. */
  lemma {:induction false} UnaimedEventsIgnored(events: seq<DamageEvent>, id: EntityId)
    requires forall k | 0 <= k < |events| :: events[k].appliedTo != id
    ensures DamageTo(events, id) == 0
  {
    if events != [] {
      UnaimedEventsIgnored(events[..|events| - 1], id);
    }
  }

  // ---------------------------------------------------------------------
  // check_dead

  /** What `check_dead`'s query selects and its `health.0 <= 0` test accepts. */
  predicate Dies(id: EntityId, e: Entity, changed: set<EntityId>) {
    id in changed && e.despawnTimer.None? && e.health.Some? && e.health.value <= 0
  }

  /** `DespawnTimer(10.0)` and `Dead` inserted. */
  function MarkDead(e: Entity): Entity {
    e.(despawnTimer := Some(10.0), dead := true)
  }

  function Marked(world: World, changed: set<EntityId>): (r: World)
    ensures r.Keys == world.Keys
  {
    map id | id in world :: if Dies(id, world[id], changed) then MarkDead(world[id]) else world[id]
  }

  /** The death events `check_dead` sends, in iteration order. */
  function Deaths(world: World, order: seq<EntityId>, changed: set<EntityId>): seq<DeathEvent> {
    if order == [] then []
    else
      var id := order[|order| - 1];
      Deaths(world, order[..|order| - 1], changed)
        + (if id in world && Dies(id, world[id], changed) then [DeathEvent(id)] else [])
  }

  /** `check_dead`'s treatment of one entity. */
  function MarkStep(changed: set<EntityId>): (EntityId, Entity) -> Entity {
    (id: EntityId, e: Entity) => if Dies(id, e, changed) then MarkDead(e) else e
  }

  /**
   * `check_dead`: every entity whose health changed, that has no
   * `DespawnTimer` and whose health is at most zero gets a death event, a
   * ten-second despawn timer and the `Dead` marker.
   */
  method CheckDead(world: World, order: seq<EntityId>, changed: set<EntityId>)
    returns (w': World, deaths: seq<DeathEvent>)
    requires Enumerates(order, world)
    ensures w' == Marked(world, changed)
    ensures deaths == Deaths(world, order, changed)
  {
    var w := world;
    deaths := [];
    for i := 0 to |order|
      invariant w == Pass(world, order[..i], MarkStep(changed))
      invariant deaths == Deaths(world, order[..i], changed)
    {
      w, deaths := CheckDeadNext(world, order, i, changed, w, deaths);
    }
    assert order[..|order|] == order;
    MarkedIsPass(world, order, changed);
    w' := w;
  }

  /** One iteration of `check_dead`'s loop: entity `order[i]` examined. */
  method CheckDeadNext(world: World, order: seq<EntityId>, i: nat, changed: set<EntityId>,
                       w: World, deaths: seq<DeathEvent>)
    returns (w': World, deaths': seq<DeathEvent>)
    requires Enumerates(order, world) && i < |order|
    requires w == Pass(world, order[..i], MarkStep(changed))
    requires deaths == Deaths(world, order[..i], changed)
    ensures w' == Pass(world, order[..i + 1], MarkStep(changed))
    ensures deaths' == Deaths(world, order[..i + 1], changed)
  {
    var id := order[i];
    CheckDeadStep(world, order, i, changed);
    var e := w[id];
    w', deaths' := w, deaths;
    if e.health.Some? && id in changed && e.despawnTimer.None? && e.health.value <= 0 {
      deaths' := deaths + [DeathEvent(id)];
      w' := w[id := MarkDead(e)];
    }
  }

  /** One iteration of `check_dead`'s loop, in terms of its specification. */
  lemma CheckDeadStep(world: World, order: seq<EntityId>, i: nat, changed: set<EntityId>)
    requires Distinct(order) && i < |order| && order[i] in world
    ensures var w := Pass(world, order[..i], MarkStep(changed)); var id := order[i];
      && id in w && w[id] == world[id]
      && Pass(world, order[..i + 1], MarkStep(changed))
         == w[id := if Dies(id, world[id], changed) then MarkDead(world[id]) else world[id]]
      && Deaths(world, order[..i + 1], changed)
         == Deaths(world, order[..i], changed) + (if Dies(id, world[id], changed) then [DeathEvent(id)] else [])
  {
    PassStep(world, order, i, MarkStep(changed));
    PassUnvisited(world, order, i, MarkStep(changed));
    assert order[..i + 1][..i] == order[..i];
  }

  /** The whole pass marks exactly the dying entities. */
  lemma MarkedIsPass(world: World, order: seq<EntityId>, changed: set<EntityId>)
    requires Enumerates(order, world)
    ensures Pass(world, order, MarkStep(changed)) == Marked(world, changed)
  {
    PassCovers(world, order, MarkStep(changed));
  }

  /** A death event names an entity exactly when that entity dies in this pass, and never twice. */
  lemma {:induction false} DeathsExact(world: World, order: seq<EntityId>, changed: set<EntityId>)
    requires Distinct(order)
    ensures forall id :: DeathEvent(id) in Deaths(world, order, changed) <==>
                         id in order && id in world && Dies(id, world[id], changed)
    ensures Distinct(Deaths(world, order, changed))
  {
    if order != [] {
      var init := order[..|order| - 1];
      var id := order[|order| - 1];
      DeathsExact(world, init, changed);
      assert order == init + [id];
      var d := Deaths(world, init, changed);
      if id in world && Dies(id, world[id], changed) {
        assert DeathEvent(id) !in d;
        var r := d + [DeathEvent(id)];
        forall i, j | 0 <= i < j < |r| ensures r[i] != r[j] {
          if j == |r| - 1 {
            assert r[i] == d[i] && d[i] in d;
          } else {
            assert r[i] == d[i] && r[j] == d[j];
          }
        }
      }
    }
  }

  /** An entity that already has a `DespawnTimer` never gets a death event. */
  lemma {:induction false} DyingEntitiesStaySilent(world: World, order: seq<EntityId>, changed: set<EntityId>, id: EntityId)
    requires id in world && world[id].despawnTimer.Some?
    ensures DeathEvent(id) !in Deaths(world, order, changed)
  {
    if order != [] {
      DyingEntitiesStaySilent(world, order[..|order| - 1], changed, id);
    }
  }

  /** Entities with positive health receive no event and no marker. */
  lemma HealthyUntouched(world: World, order: seq<EntityId>, changed: set<EntityId>, id: EntityId)
    requires Distinct(order)
    requires id in world && world[id].health.Some? && world[id].health.value > 0
    ensures Marked(world, changed)[id] == world[id]
    ensures DeathEvent(id) !in Deaths(world, order, changed)
  {
    DeathsExact(world, order, changed);
  }

  // ---------------------------------------------------------------------
  // despawn

  predicate Expires(e: Entity, dt: real) {
    e.despawnTimer.Some? && e.despawnTimer.value - dt <= 0.0
  }

  function Ticked(e: Entity, dt: real): Entity {
    if e.despawnTimer.Some? then e.(despawnTimer := Some(e.despawnTimer.value - dt)) else e
  }

  /** Every timer lowered by `dt`; the entities whose timer reached zero removed. */
  function Despawned(world: World, dt: real): (r: World)
    ensures forall id :: id in r <==> id in world && !Expires(world[id], dt)
  {
    map id | id in world && !Expires(world[id], dt) :: Ticked(world[id], dt)
  }

  function TickStep(dt: real): (EntityId, Entity) -> Entity {
    (id: EntityId, e: Entity) => Ticked(e, dt)
  }

  /** `despawn`: lower each `DespawnTimer` by `dt` and despawn the entity once it is at most zero. */
  method Despawn(world: World, order: seq<EntityId>, dt: real) returns (w': World)
    requires Enumerates(order, world)
    ensures w' == Despawned(world, dt)
  {
    var w := world;
    var expired: set<EntityId> := {};
    for i := 0 to |order|
      invariant w == Pass(world, order[..i], TickStep(dt))
      invariant expired == ExpiredIn(world, order[..i], dt)
    {
      w, expired := DespawnNext(world, order, i, dt, w, expired);
    }
    assert order[..|order|] == order;
    DespawnedIsPass(world, order, dt, w, expired);
    w' := Without(w, expired);
  }

  /** One iteration of `despawn`'s loop: entity `order[i]`'s timer lowered. */
  method DespawnNext(world: World, order: seq<EntityId>, i: nat, dt: real, w: World, expired: set<EntityId>)
    returns (w': World, expired': set<EntityId>)
    requires Enumerates(order, world) && i < |order|
    requires w == Pass(world, order[..i], TickStep(dt))
    requires expired == ExpiredIn(world, order[..i], dt)
    ensures w' == Pass(world, order[..i + 1], TickStep(dt))
    ensures expired' == ExpiredIn(world, order[..i + 1], dt)
  {
    var id := order[i];
    DespawnStep(world, order, i, dt);
    var e := w[id];
    w', expired' := w, expired;
    if e.despawnTimer.Some? {
      var t := e.despawnTimer.value - dt;
      w' := w[id := e.(despawnTimer := Some(t))];
      if t <= 0.0 {
        expired' := expired + {id};
      }
    }
  }

  /** One iteration of `despawn`'s loop, in terms of its specification. */
  lemma DespawnStep(world: World, order: seq<EntityId>, i: nat, dt: real)
    requires Distinct(order) && i < |order| && order[i] in world
    ensures var w := Pass(world, order[..i], TickStep(dt)); var id := order[i];
      && id in w && w[id] == world[id]
      && Pass(world, order[..i + 1], TickStep(dt)) == w[id := Ticked(world[id], dt)]
      && ExpiredIn(world, order[..i + 1], dt)
         == ExpiredIn(world, order[..i], dt) + (if Expires(world[id], dt) then {id} else {})
  {
    PassStep(world, order, i, TickStep(dt));
    PassUnvisited(world, order, i, TickStep(dt));
    assert order[..i + 1][..i] == order[..i];
  }

  /** Ticking every timer, then dropping the expired entities, is `Despawned`. */
  lemma DespawnedIsPass(world: World, order: seq<EntityId>, dt: real, w: World, expired: set<EntityId>)
    requires Enumerates(order, world)
    requires w == Pass(world, order, TickStep(dt)) && expired == ExpiredIn(world, order, dt)
    ensures Without(w, expired) == Despawned(world, dt)
  {
    PassCovers(world, order, TickStep(dt));
    ExpiredInExact(world, order, dt);
  }

  /** The entities of `order` whose timer runs out this frame. */
  function ExpiredIn(world: World, order: seq<EntityId>, dt: real): set<EntityId> {
    if order == [] then {}
    else
      var id := order[|order| - 1];
      ExpiredIn(world, order[..|order| - 1], dt) + (if id in world && Expires(world[id], dt) then {id} else {})
  }

  lemma {:induction false} ExpiredInExact(world: World, order: seq<EntityId>, dt: real)
    ensures forall id :: id in ExpiredIn(world, order, dt) <==> id in order && id in world && Expires(world[id], dt)
  {
    if order != [] {
      ExpiredInExact(world, order[..|order| - 1], dt);
      assert order == order[..|order| - 1] + [order[|order| - 1]];
    }
  }

  /** What one frame brings to the health systems: the changed entities, the damage events and the frame time. */
  datatype Frame = Frame(changed: set<EntityId>, events: seq<DamageEvent>, dt: real)

  /**
   * One frame of `check_dead`, `apply_damage` and `despawn`. The plugin adds
   * the three without an order between them; each keeps an existing
   * `DespawnTimer`, so the lemmas below do not depend on the order taken here.
   */
  function Step(world: World, f: Frame): World {
    Despawned(Damaged(Marked(world, f.changed), f.events), f.dt)
  }

  /** A run of frames, first to last. */
  function Run(world: World, frames: seq<Frame>): World
    decreases |frames|
  {
    if frames == [] then world else Run(Step(world, frames[0]), frames[1..])
  }

  /** An entity with a `DespawnTimer` keeps one for as long as it exists. */
  lemma StepKeepsTimer(world: World, f: Frame, id: EntityId)
    requires id in world ==> world[id].despawnTimer.Some?
    ensures id in Step(world, f) ==> Step(world, f)[id].despawnTimer.Some?
  {
  }

  lemma {:induction false} TimerPersists(world: World, frames: seq<Frame>, id: EntityId)
    requires id in world ==> world[id].despawnTimer.Some?
    ensures id in Run(world, frames) ==> Run(world, frames)[id].despawnTimer.Some?
    decreases |frames|
  {
    if frames != [] {
      StepKeepsTimer(world, frames[0], id);
      TimerPersists(Step(world, frames[0]), frames[1..], id);
    }
  }

  /**
   * A dying entity keeps its `DespawnTimer` through damage and the despawn
   * step, frame after frame, until it is removed, so `check_dead` never
   * reports it again: at most one death event per entity.
   */
  lemma AtMostOneDeath(world: World, order: seq<EntityId>, first: Frame, frames: seq<Frame>,
                       order': seq<EntityId>, changed': set<EntityId>, id: EntityId)
    requires Distinct(order) && Distinct(order')
    requires DeathEvent(id) in Deaths(world, order, first.changed)
    ensures var later := Run(Step(world, first), frames);
      id in later ==> DeathEvent(id) !in Deaths(later, order', changed')
  {
    DeathsExact(world, order, first.changed);
    assert Marked(world, first.changed)[id].despawnTimer.Some?;
    assert id in Step(world, first) ==> Step(world, first)[id].despawnTimer.Some?;
    TimerPersists(Step(world, first), frames, id);
    var later := Run(Step(world, first), frames);
    if id in later {
      DyingEntitiesStaySilent(later, order', changed', id);
    }
  }
}
