/**
 * The end-of-game statistics: `collect_damage_done` adds up the damage
 * events, `count_deaths` counts death events, and `count_enemies` records
 * how many enemies are alive. The accumulators are `u32` resources; their
 * additions wrap modulo 2^32, as they do in a release build.
 */
module Stats {
  import opened Ecs
  import opened Components

  /** The sum of the amounts of a run of damage events. */
  function DamageSum(events: seq<DamageEvent>): int {
    if events == [] then 0 else DamageSum(events[..|events| - 1]) + events[|events| - 1].amount
  }

  /**
   * `collect_damage_done`: every event's amount, cast to `u32`, added to the
   * running total `TotalDamageDone`.
   */
  method CollectDamageDone(total: U32, events: seq<DamageEvent>) returns (total': U32)
    ensures total' == WrapU32(total + DamageSum(events))
  {
    total' := total;
    for i := 0 to |events|
      invariant total' == WrapU32(total + DamageSum(events[..i]))
    {
      assert events[..i + 1][..i] == events[..i];
      var amount := WrapU32(events[i].amount);
      WrapAddAbsorbs(total + DamageSum(events[..i]), amount);
      WrapAddAbsorbs(events[i].amount, total + DamageSum(events[..i]));
      total' := WrapU32(total' + amount);
    }
    assert events[..|events|] == events;
  }

  lemma {:induction false} DamageSumNonNegative(events: seq<DamageEvent>)
    requires forall k | 0 <= k < |events| :: events[k].amount >= 0
    ensures DamageSum(events) >= 0
  {
    if events != [] {
      DamageSumNonNegative(events[..|events| - 1]);
    }
  }

  /**
   * The damage total: with no events it stays as it was; with amounts that
   * are not negative and a sum that fits, it grows by exactly the sum.
   */
  lemma DamageTotal(total: U32, events: seq<DamageEvent>)
    ensures events == [] ==> WrapU32(total + DamageSum(events)) == total
    ensures (forall k | 0 <= k < |events| :: events[k].amount >= 0) && total + DamageSum(events) < U32Modulus ==>
              WrapU32(total + DamageSum(events)) == total + DamageSum(events) >= total
  {
    if forall k | 0 <= k < |events| :: events[k].amount >= 0 {
      DamageSumNonNegative(events);
    }
  }

  /**
   * `count_deaths`: one more kill in `TotalEnemiesKilled` per death event.
   * (The system exists but the statistics plugin never schedules it.)
   */
  method CountDeaths(killed: U32, deaths: seq<DeathEvent>) returns (killed': U32)
    ensures killed' == WrapU32(killed + |deaths|)
  {
    killed' := killed;
    for i := 0 to |deaths|
      invariant killed' == WrapU32(killed + i)
    {
      WrapAddAbsorbs(killed + i, 1);
      killed' := WrapU32(killed' + 1);
    }
  }

  /** What `count_enemies`' query selects. */
  predicate IsEnemy(e: Entity) {
    e.enemy
  }

  function EnemyQuery(): Entity -> bool {
    e => IsEnemy(e)
  }

  /** The enemies of the world. */
  function Enemies(world: World): set<EntityId> {
    set id | id in world && IsEnemy(world[id])
  }

  /**
   * `count_enemies`: `EnemiesStillAlive` overwritten with the number of
   * entities with an `Enemy` marker, whatever it held before.
   */
  method CountEnemies(world: World, order: seq<EntityId>, alive: U32) returns (alive': U32)
    requires Enumerates(order, world)
    ensures alive' == WrapU32(|Enemies(world)|)
  {
    var enemies := Matching(world, order, EnemyQuery());
    MatchingCounts(world, order);
    alive' := WrapU32(|enemies|);
  }

  /** The entities a sequence lists. */
  function Elements(s: seq<EntityId>): set<EntityId> {
    set x | x in s
  }

  lemma {:induction false} DistinctCard(s: seq<EntityId>)
    requires Distinct(s)
    ensures |Elements(s)| == |s|
  {
    if s == [] {
      assert Elements(s) == {};
    } else {
      var init := s[..|s| - 1];
      var last := s[|s| - 1];
      assert Distinct(init);
      DistinctCard(init);
      assert s == init + [last];
      assert Elements(s) == Elements(init) + {last};
      assert last !in Elements(init);
    }
  }

  /** The enemy query yields each enemy of the world exactly once. */
  lemma MatchingCounts(world: World, order: seq<EntityId>)
    requires Enumerates(order, world)
    ensures |Matching(world, order, EnemyQuery())| == |Enemies(world)|
  {
    var m := Matching(world, order, EnemyQuery());
    DistinctCard(m);
    assert Elements(m) == Enemies(world);
  }
}
