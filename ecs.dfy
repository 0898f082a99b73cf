/**
 * The entity-component-system vocabulary shared by every system of the game:
 * entity identifiers, optional values, the engine's fixed-width integers, and
 * the query helpers (the order in which a query visits the world's entities,
 * the entities a query matches, and `get_single`).
 */
module Ecs {

  datatype Option<T> = None | Some(value: T)

  /** An engine entity handle. */
  type EntityId = nat

  /** Rust's `u8`. */
  type U8 = x: int | 0 <= x < 256

  const U32Modulus: int := 0x1_0000_0000

  /** Rust's `u32`. */
  type U32 = x: int | 0 <= x < 0x1_0000_0000

  /** A 2D position or direction; the engine's `Vec2` (or the x, y part of a `Vec3`). */
  datatype Vec2 = Vec2(x: real, y: real)

  /** Reduction modulo 2^32: what a wrapping `u32` addition and an `i32 as u32` cast produce. */
  function WrapU32(x: int): (r: U32)
    ensures 0 <= x < U32Modulus ==> r == x
    ensures (r - x) % U32Modulus == 0
  {
    x % U32Modulus
  }

  lemma WrapAddAbsorbs(a: int, b: int)
    ensures WrapU32(WrapU32(a) + b) == WrapU32(a + b)
  {
    var q := a / U32Modulus;
    assert a == q * U32Modulus + WrapU32(a);
    assert WrapU32(a) + b == (a + b) - q * U32Modulus;
    ModShift(a + b, q);
  }

  lemma ModShift(x: int, q: int)
    ensures (x - q * U32Modulus) % U32Modulus == x % U32Modulus
  {
    var r := x % U32Modulus;
    var d := x / U32Modulus;
    assert x == d * U32Modulus + r;
    assert x - q * U32Modulus == (d - q) * U32Modulus + r;
  }

  predicate Distinct<T(==)>(s: seq<T>) {
    forall i, j | 0 <= i < j < |s| :: s[i] != s[j]
  }

  /**
   * `order` lists every entity of `world` exactly once: the order in which
   * the engine's queries visit the world.
   */
  predicate Enumerates<V>(order: seq<EntityId>, world: map<EntityId, V>) {
    && Distinct(order)
    && (forall i | 0 <= i < |order| :: order[i] in world)
    && (forall e | e in world :: e in order)
  }

  /**
   * A system's sequential pass: the entities of `order` visited in turn, each
   * one's record replaced by `step` of it.
   */
  function Pass<V>(world: map<EntityId, V>, order: seq<EntityId>, step: (EntityId, V) -> V): (r: map<EntityId, V>)
    ensures r.Keys == world.Keys
  {
    if order == [] then world
    else
      var w := Pass(world, order[..|order| - 1], step);
      var id := order[|order| - 1];
      if id in w then w[id := step(id, w[id])] else w
  }

  /** Visiting each entity at most once, a pass changes exactly the visited entities, each by `step`. */
  lemma {:induction false} PassPointwise<V>(world: map<EntityId, V>, order: seq<EntityId>, step: (EntityId, V) -> V)
    requires Distinct(order)
    ensures forall id | id in world ::
      Pass(world, order, step)[id] == if id in order then step(id, world[id]) else world[id]
  {
    if order != [] {
      var init := order[..|order| - 1];
      var last := order[|order| - 1];
      assert order == init + [last];
      assert Distinct(init);
      PassPointwise(world, init, step);
      assert last !in init;
    }
  }

  /** A pass over an enumeration of the world applies `step` to every entity. */
  lemma PassCovers<V>(world: map<EntityId, V>, order: seq<EntityId>, step: (EntityId, V) -> V)
    requires Enumerates(order, world)
    ensures Pass(world, order, step) == map id | id in world :: step(id, world[id])
  {
    PassPointwise(world, order, step);
  }

  /** One more step of a loop that visits `order` in turn. */
  lemma PassStep<V>(world: map<EntityId, V>, order: seq<EntityId>, i: nat, step: (EntityId, V) -> V)
    requires i < |order|
    ensures var w := Pass(world, order[..i], step);
      Pass(world, order[..i + 1], step) == if order[i] in w then w[order[i] := step(order[i], w[order[i]])] else w
  {
    assert order[..i + 1][..i] == order[..i];
  }

  /** The entity a loop is about to visit is still as the world had it. */
  lemma PassUnvisited<V>(world: map<EntityId, V>, order: seq<EntityId>, i: nat, step: (EntityId, V) -> V)
    requires Distinct(order) && i < |order| && order[i] in world
    ensures order[i] in Pass(world, order[..i], step)
    ensures Pass(world, order[..i], step)[order[i]] == world[order[i]]
  {
    PassPointwise(world, order[..i], step);
    assert order[i] !in order[..i];
  }

  /** The world once the deferred `despawn` commands for `gone` are applied. */
  function Without<V>(world: map<EntityId, V>, gone: set<EntityId>): (r: map<EntityId, V>)
    ensures forall id :: id in r <==> id in world && id !in gone
    ensures forall id | id in r :: r[id] == world[id]
  {
    map id | id in world && id !in gone :: world[id]
  }

  /**
   * The position of the first element of `s` that satisfies `p`: where a
   * loop over `s` that stops at the first match stops.
   */
  function FirstWhere(s: seq<EntityId>, p: EntityId -> bool): (r: Option<nat>)
    ensures r.Some? ==> r.value < |s| && p(s[r.value])
    ensures r.Some? ==> forall k | 0 <= k < r.value :: !p(s[k])
    ensures r.None? <==> forall k | 0 <= k < |s| :: !p(s[k])
  {
    if s == [] then None
    else if p(s[0]) then Some(0)
    else
      match FirstWhere(s[1..], p)
      case None => None
      case Some(i) => Some(i + 1)
  }

  /** The entities a query matches, in iteration order. */
  function Matching<V>(world: map<EntityId, V>, order: seq<EntityId>, q: V -> bool): (r: seq<EntityId>)
    ensures forall e :: e in r <==> e in order && e in world && q(world[e])
    ensures |r| <= |order|
    ensures Distinct(order) ==> Distinct(r)
  {
    if order == [] then []
    else
      var rest := Matching(world, order[..|order| - 1], q);
      var e := order[|order| - 1];
      assert order == order[..|order| - 1] + [e];
      if e in world && q(world[e]) then rest + [e] else rest
  }

  /**
   * `Query::get_single`: the one entity the query matches, or `None` when it
   * matches no entity or more than one.
   */
  function Single<V>(world: map<EntityId, V>, order: seq<EntityId>, q: V -> bool): (r: Option<EntityId>)
    requires Enumerates(order, world)
    ensures r.Some? ==> r.value in world && q(world[r.value])
    ensures r.Some? ==> forall e | e in world && q(world[e]) :: e == r.value
    ensures r.None? ==> forall e | e in world && q(world[e]) ::
                          exists e' | e' in world && q(world[e']) :: e' != e
  {
    var m := Matching(world, order, q);
    if |m| == 1 then
      assert m[0] in m;
      assert forall e | e in world && q(world[e]) :: e in m && e == m[0];
      Some(m[0])
    else
      assert forall e | e in world && q(world[e]) :: e in m;
      if |m| == 0 then None
      else
        assert m[0] != m[1];
        assert forall e | e in world && q(world[e]) :: m[0] != e || m[1] != e;
        assert m[0] in m && m[1] in m;
        None
  }
}
