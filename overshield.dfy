/**
 * The overshield: `reset_overshield_state` (re)creates the shield state
 * whenever the `Overshield` level changes, and `recharge_shields` refills a
 * shield one point every tenth of a second up to its maximum.
 */
module Overshield {
  import opened Ecs
  import opened Components

  /** The shield a level grants: `level as i32 * 100`. */
  function MaxFor(level: U8): int {
    level * 100
  }

  // ---------------------------------------------------------------------
  // reset_overshield_state

  /** What the query (with its `Changed<Overshield>` filter) selects. */
  predicate Resets(id: EntityId, e: Entity, changed: set<EntityId>) {
    id in changed && e.arms.overshield.Some?
  }

  /**
   * One entity's reset: a missing state is created full with no recharge
   * delay; an existing state is refilled to the new maximum only when the
   * maximum changed, its timer left alone.
   */
  function ResetOne(id: EntityId, e: Entity, changed: set<EntityId>): Entity {
    if Resets(id, e, changed) then
      var max := MaxFor(e.arms.overshield.value);
      match e.overshieldState
      case None => e.(overshieldState := Some(OvershieldState(max, max, 0.0)))
      case Some(s) =>
        if s.maxOvershield != max then e.(overshieldState := Some(s.(maxOvershield := max, currentOvershield := max)))
        else e
    else e
  }

  function ResetFn(changed: set<EntityId>): (EntityId, Entity) -> Entity {
    (id: EntityId, e: Entity) => ResetOne(id, e, changed)
  }

  function ResetWorld(world: World, changed: set<EntityId>): (r: World)
    ensures r.Keys == world.Keys
  {
    map id | id in world :: ResetOne(id, world[id], changed)
  }

  /** The loop body of `reset_overshield_state`. */
  method ResetStep(id: EntityId, e: Entity, changed: set<EntityId>) returns (e': Entity)
    ensures e' == ResetOne(id, e, changed)
  {
    e' := e;
    if id in changed && e.arms.overshield.Some? {
      var max := e.arms.overshield.value * 100;
      match e.overshieldState
      case Some(s) =>
        if s.maxOvershield != max {
          e' := e.(overshieldState := Some(s.(maxOvershield := max, currentOvershield := max)));
        }
      case None =>
        e' := e.(overshieldState := Some(OvershieldState(max, max, 0.0)));
    }
  }

  /** `reset_overshield_state` over the entities whose `Overshield` changed. */
  method ResetOvershieldState(world: World, order: seq<EntityId>, changed: set<EntityId>) returns (w': World)
    requires Enumerates(order, world)
    ensures w' == ResetWorld(world, changed)
  {
    var w := world;
    for i := 0 to |order|
      invariant w == Pass(world, order[..i], ResetFn(changed))
    {
      var id := order[i];
      PassStep(world, order, i, ResetFn(changed));
      PassUnvisited(world, order, i, ResetFn(changed));
      var e' := ResetStep(id, w[id], changed);
      w := w[id := e'];
    }
    assert order[..|order|] == order;
    PassCovers(world, order, ResetFn(changed));
    w' := w;
  }

  /**
   * The three cases of the reset: a missing state is created with maximum
   * and current both `level * 100` and no delay; an outdated maximum is
   * replaced and the shield refilled, the timer kept; an up-to-date state is
   * kept. Nothing but the shield state changes, and an unchanged entity is
   * left alone.
   */
  lemma ResetCases(world: World, changed: set<EntityId>, id: EntityId)
    requires id in world
    ensures var e := world[id]; var e' := ResetWorld(world, changed)[id];
      ResetOutcome(id, e, changed, e')
  {
    ResetOneCases(id, world[id], changed);
  }

  lemma ResetOneCases(id: EntityId, e: Entity, changed: set<EntityId>)
    ensures ResetOutcome(id, e, changed, ResetOne(id, e, changed))
  {
  }

  /** The outcome the reset promises for one entity `e`, now `e'`. */
  predicate ResetOutcome(id: EntityId, e: Entity, changed: set<EntityId>, e': Entity) {
    && e' == e.(overshieldState := e'.overshieldState)
    && (!Resets(id, e, changed) ==> e' == e)
    && (Resets(id, e, changed) ==> var max := MaxFor(e.arms.overshield.value);
          && e'.overshieldState.Some?
          && e'.overshieldState.value.maxOvershield == max
          && (e.overshieldState.None? ==> e'.overshieldState.value == OvershieldState(max, max, 0.0))
          && (e.overshieldState.Some? && e.overshieldState.value.maxOvershield != max ==>
                e'.overshieldState.value.currentOvershield == max
                && e'.overshieldState.value.secsUntilRecharge == e.overshieldState.value.secsUntilRecharge)
          && (e.overshieldState.Some? && e.overshieldState.value.maxOvershield == max ==> e' == e))
  }

  // ---------------------------------------------------------------------
  // recharge_shields

  /** The seconds between two recharged points. */
  const RechargeDelay: real := 0.1

  /** One frame of a shield's recharge: a shield below its maximum counts down and gains a point when due. */
  function Recharged(s: OvershieldState, dt: real): OvershieldState {
    if s.maxOvershield > s.currentOvershield then
      var t := s.secsUntilRecharge - dt;
      if t <= 0.0 then s.(currentOvershield := s.currentOvershield + 1, secsUntilRecharge := RechargeDelay)
      else s.(secsUntilRecharge := t)
    else s
  }

  /** What `recharge_shields` does to one entity; `Dead` entities are not selected. */
  function RechargeOne(e: Entity, dt: real): Entity {
    if e.overshieldState.Some? && !e.dead then e.(overshieldState := Some(Recharged(e.overshieldState.value, dt)))
    else e
  }

  function RechargeFn(dt: real): (EntityId, Entity) -> Entity {
    (id: EntityId, e: Entity) => RechargeOne(e, dt)
  }

  function RechargeWorld(world: World, dt: real): (r: World)
    ensures r.Keys == world.Keys
  {
    map id | id in world :: RechargeOne(world[id], dt)
  }

  /** The loop body of `recharge_shields`. */
  method RechargeStep(e: Entity, dt: real) returns (e': Entity)
    ensures e' == RechargeOne(e, dt)
  {
    e' := e;
    if e.overshieldState.Some? && !e.dead {
      var s := e.overshieldState.value;
      if s.maxOvershield > s.currentOvershield {
        s := s.(secsUntilRecharge := s.secsUntilRecharge - dt);
        if s.secsUntilRecharge <= 0.0 {
          s := s.(currentOvershield := s.currentOvershield + 1, secsUntilRecharge := 0.1);
        }
        e' := e.(overshieldState := Some(s));
      }
    }
  }

  /** `recharge_shields`. */
  method RechargeShields(world: World, order: seq<EntityId>, dt: real) returns (w': World)
    requires Enumerates(order, world)
    ensures w' == RechargeWorld(world, dt)
  {
    var w := world;
    for i := 0 to |order|
      invariant w == Pass(world, order[..i], RechargeFn(dt))
    {
      var id := order[i];
      PassStep(world, order, i, RechargeFn(dt));
      PassUnvisited(world, order, i, RechargeFn(dt));
      var e' := RechargeStep(w[id], dt);
      w := w[id := e'];
    }
    assert order[..|order|] == order;
    PassCovers(world, order, RechargeFn(dt));
    w' := w;
  }

  predicate Bounded(s: OvershieldState) {
    s.currentOvershield <= s.maxOvershield
  }

  /**
   * The recharge step: a full shield is left as it is; a shield gains at
   * most one point, exactly one when its timer runs out (which re-arms the
   * timer to a tenth of a second); the maximum never changes, and a shield
   * within its maximum stays within it.
   */
  lemma RechargeCases(s: OvershieldState, dt: real)
    ensures var s' := Recharged(s, dt);
      && s'.maxOvershield == s.maxOvershield
      && (s.currentOvershield >= s.maxOvershield ==> s' == s)
      && (s.currentOvershield < s.maxOvershield && s.secsUntilRecharge - dt <= 0.0 ==>
            s'.currentOvershield == s.currentOvershield + 1 && s'.secsUntilRecharge == RechargeDelay)
      && (s.currentOvershield < s.maxOvershield && s.secsUntilRecharge - dt > 0.0 ==>
            s'.currentOvershield == s.currentOvershield && s'.secsUntilRecharge == s.secsUntilRecharge - dt)
      && (Bounded(s) ==> Bounded(s'))
  {
  }

  /** The frames of a recharge run. */
  function RechargedOver(s: OvershieldState, dts: seq<real>): OvershieldState
    decreases |dts|
  {
    if dts == [] then s else RechargedOver(Recharged(s, dts[0]), dts[1..])
  }

  /**
   * Over any run of frames a shield within its maximum stays within it, its
   * charge never falls, and it gains at most one point per frame.
   */
  lemma {:induction false} RechargeRunBounded(s: OvershieldState, dts: seq<real>)
    requires Bounded(s)
    ensures var s' := RechargedOver(s, dts);
      && Bounded(s') && s'.maxOvershield == s.maxOvershield
      && s.currentOvershield <= s'.currentOvershield <= s.currentOvershield + |dts|
    decreases |dts|
  {
    if dts != [] {
      RechargeCases(s, dts[0]);
      RechargeRunBounded(Recharged(s, dts[0]), dts[1..]);
    }
  }

  /** Every living shield in the world that was within its maximum stays within it; dead ones are frozen. */
  lemma RechargeKeepsBounds(world: World, dt: real)
    ensures forall id | id in world && world[id].overshieldState.Some? ::
      var s' := RechargeWorld(world, dt)[id].overshieldState;
      && s'.Some?
      && (Bounded(world[id].overshieldState.value) ==> Bounded(s'.value))
      && (world[id].dead ==> s' == world[id].overshieldState)
  {
    forall id | id in world && world[id].overshieldState.Some? {
      RechargeCases(world[id].overshieldState.value, dt);
    }
  }

  /** A reset leaves the shield within its maximum. */
  lemma ResetBounds(world: World, changed: set<EntityId>, id: EntityId)
    requires id in world && Resets(id, world[id], changed)
    requires world[id].overshieldState.Some? ==> Bounded(world[id].overshieldState.value)
    ensures Bounded(ResetWorld(world, changed)[id].overshieldState.value)
  {
  }
}
