/**
 * `powerup_manager`: whenever an entity's `Powerups` change, every held
 * power-up is (re)inserted as the component it stands for, at its level.
 */
module Loadout {
  import opened Ecs
  import opened Components
  import PowerUps
  import Weapon

  /** The gun component a power-up type stands for, if it is a gun. */
  function GunFor(t: PowerUps.PowerUpType): (r: Option<GunKind>)
    ensures r.Some? <==> t.MachineGun? || t.PeaShooter? || t.Sniper?
  {
    if t.MachineGun? then Some(MachineGun)
    else if t.PeaShooter? then Some(PeaShooter)
    else if t.Sniper? then Some(Sniper)
    else None
  }

  /** The power-up type a gun component stands for. */
  function TypeOfGun(k: GunKind): (t: PowerUps.PowerUpType)
    ensures GunFor(t) == Some(k)
  {
    match k
    case MachineGun => PowerUps.MachineGun
    case PeaShooter => PowerUps.PeaShooter
    case Sniper => PowerUps.Sniper
  }

  /** Inserting the component of one power-up: a fresh gun, or the level of a munitions, shield or bile component. */
  function Equip(e: Arms, p: PowerUps.Powerup): Arms {
    match GunFor(p.power)
    case Some(k) => e.(guns := e.guns[k := Weapon.NewGun(p.level)])
    case None =>
      if p.power.SpecialMunitions? then e.(specialMunitions := Some(p.level))
      else if p.power.Overshield? then e.(overshield := Some(p.level))
      else e.(bile := Some(p.level))
  }

  /** Inserting the components of the held power-ups, in slot order. */
  function Equipped(e: Arms, s: PowerUps.Slots): Arms {
    if s == [] then e
    else
      var e' := Equipped(e, s[..|s| - 1]);
      match s[|s| - 1]
      case None => e'
      case Some(p) => Equip(e', p)
  }

  /** The component value a non-gun power-up type leaves once `s` is equipped: the held level, or what was there. */
  function LevelAfter(s: PowerUps.Slots, t: PowerUps.PowerUpType, before: Option<U8>): Option<U8> {
    match PowerUps.GetPowerup(s, t)
    case Some(p) => Some(p.level)
    case None => before
  }

  /** The component a non-gun power-up type stands for. */
  function LevelField(e: Arms, t: PowerUps.PowerUpType): Option<U8>
    requires GunFor(t).None?
  {
    if t.SpecialMunitions? then e.specialMunitions
    else if t.Overshield? then e.overshield
    else e.bile
  }

  /**
   * With each type in at most one slot, a held gun type leaves a fresh gun
   * at its level, and an unheld one leaves the gun as it was.
   */
  lemma {:induction false} EquippedGun(e: Arms, s: PowerUps.Slots, k: GunKind)
    requires PowerUps.Unique(s)
    ensures var e' := Equipped(e, s); var held := PowerUps.GetPowerup(s, TypeOfGun(k));
      && (held.Some? ==> k in e'.guns && e'.guns[k] == Weapon.NewGun(held.value.level))
      && (held.None? ==> (k in e'.guns <==> k in e.guns) && (k in e.guns ==> e'.guns[k] == e.guns[k]))
  {
    if s != [] {
      var init := s[..|s| - 1];
      assert PowerUps.Unique(init);
      EquippedGun(e, init, k);
      GetPowerupSnoc(s, TypeOfGun(k));
    }
  }

  /** With each type in at most one slot, munitions, overshield and bile take the held level or stay as they were. */
  lemma {:induction false} EquippedLevel(e: Arms, s: PowerUps.Slots, t: PowerUps.PowerUpType)
    requires PowerUps.Unique(s) && GunFor(t).None?
    ensures LevelField(Equipped(e, s), t) == LevelAfter(s, t, LevelField(e, t))
  {
    if s != [] {
      var init := s[..|s| - 1];
      assert PowerUps.Unique(init);
      EquippedLevel(e, init, t);
      GetPowerupSnoc(s, t);
    }
  }

  /**
   * The type-to-component mapping of `powerup_manager`, over a whole
   * inventory: every held gun becomes a fresh gun at its level, unheld guns
   * stay as they were, and munitions, overshield and bile take their held
   * level.
   */
  lemma EquippedComponents(e: Arms, s: PowerUps.Slots)
    requires PowerUps.Unique(s)
    ensures var e' := Equipped(e, s);
      && (forall k: GunKind | PowerUps.GetPowerup(s, TypeOfGun(k)).Some? ::
            k in e'.guns && e'.guns[k] == Weapon.NewGun(PowerUps.GetPowerup(s, TypeOfGun(k)).value.level))
      && (forall k: GunKind | PowerUps.GetPowerup(s, TypeOfGun(k)).None? ::
            (k in e'.guns <==> k in e.guns) && (k in e.guns ==> e'.guns[k] == e.guns[k]))
      && e'.specialMunitions == LevelAfter(s, PowerUps.SpecialMunitions, e.specialMunitions)
      && e'.overshield == LevelAfter(s, PowerUps.Overshield, e.overshield)
      && e'.bile == LevelAfter(s, PowerUps.Bile, e.bile)
  {
    forall k: GunKind {
      EquippedGun(e, s, k);
    }
    EquippedLevel(e, s, PowerUps.SpecialMunitions);
    EquippedLevel(e, s, PowerUps.Overshield);
    EquippedLevel(e, s, PowerUps.Bile);
  }

  /** The lookup in `s` in terms of its last slot and the slots before it. */
  function LastWins(s: PowerUps.Slots, t: PowerUps.PowerUpType): Option<PowerUps.Powerup>
    requires s != []
  {
    if PowerUps.Holds(s[|s| - 1], t) then s[|s| - 1] else PowerUps.GetPowerup(s[..|s| - 1], t)
  }

  lemma GetPowerupSnoc(s: PowerUps.Slots, t: PowerUps.PowerUpType)
    requires s != [] && PowerUps.Unique(s)
    ensures PowerUps.GetPowerup(s, t) == LastWins(s, t)
  {
    var n := |s| - 1;
    var init := s[..n];
    var r := PowerUps.FindSlot(s, t);
    if PowerUps.Holds(s[n], t) {
      if r.value != n {
        assert s[r.value].value.power == s[n].value.power;
      }
    } else {
      assert forall j | 0 <= j < n :: init[j] == s[j];
      var r' := PowerUps.FindSlot(init, t);
      if r.Some? {
        assert r.value < n;
        assert r' == r;
      }
    }
  }

  /** What `powerup_manager`'s query with its `Changed<Powerups>` filter selects. */
  predicate Manages(id: EntityId, e: Entity, loadouts: map<EntityId, PowerUps.Slots>, changed: set<EntityId>) {
    id in changed && id in loadouts
  }

  function ManageOne(id: EntityId, e: Entity, loadouts: map<EntityId, PowerUps.Slots>, changed: set<EntityId>): Entity {
    if Manages(id, e, loadouts, changed) then e.(arms := Equipped(e.arms, loadouts[id])) else e
  }

  function ManageFn(loadouts: map<EntityId, PowerUps.Slots>, changed: set<EntityId>): (EntityId, Entity) -> Entity {
    (id: EntityId, e: Entity) => ManageOne(id, e, loadouts, changed)
  }

  function Managed(world: World, loadouts: map<EntityId, PowerUps.Slots>, changed: set<EntityId>): (r: World)
    ensures r.Keys == world.Keys
  {
    map id | id in world :: ManageOne(id, world[id], loadouts, changed)
  }

  /** The inventories of the entities with a `Powerups` component, as they are now. */
  function Loadouts(world: World): (r: map<EntityId, PowerUps.Slots>)
    reads set id | id in world && world[id].powerups.Some? :: world[id].powerups.value
    reads set id | id in world && world[id].powerups.Some? :: world[id].powerups.value.slots
    ensures forall id :: id in r <==> id in world && world[id].powerups.Some?
  {
    map id | id in world && world[id].powerups.Some? :: world[id].powerups.value.slots[..]
  }

  /** The loop over one entity's slots: insert each held power-up's component. */
  method EquipAll(e: Arms, s: PowerUps.Slots) returns (e': Arms)
    ensures e' == Equipped(e, s)
  {
    e' := e;
    for i := 0 to |s|
      invariant e' == Equipped(e, s[..i])
    {
      assert s[..i + 1][..i] == s[..i];
      match s[i]
      case None =>
      case Some(p) =>
        var level := p.level;
        if p.power.MachineGun? {
          e' := e'.(guns := e'.guns[MachineGun := Weapon.NewGun(level)]);
        } else if p.power.PeaShooter? {
          e' := e'.(guns := e'.guns[PeaShooter := Weapon.NewGun(level)]);
        } else if p.power.Sniper? {
          e' := e'.(guns := e'.guns[Sniper := Weapon.NewGun(level)]);
        } else if p.power.SpecialMunitions? {
          e' := e'.(specialMunitions := Some(level));
        } else if p.power.Overshield? {
          e' := e'.(overshield := Some(level));
        } else {
          e' := e'.(bile := Some(level));
        }
    }
    assert s[..|s|] == s;
  }

  /** `powerup_manager` over the entities whose `Powerups` changed. */
  method PowerupManager(world: World, order: seq<EntityId>, changed: set<EntityId>) returns (w': World)
    requires Enumerates(order, world)
    ensures w' == Managed(world, Loadouts(world), changed)
  {
    w' := ManageAll(world, order, Loadouts(world), changed);
  }

  /** The loop of `powerup_manager`, over a snapshot of the inventories. */
  method ManageAll(world: World, order: seq<EntityId>, loadouts: map<EntityId, PowerUps.Slots>, changed: set<EntityId>)
    returns (w': World)
    requires Enumerates(order, world)
    ensures w' == Managed(world, loadouts, changed)
  {
    var w := world;
    for i := 0 to |order|
      invariant w == Pass(world, order[..i], ManageFn(loadouts, changed))
    {
      w := ManageNext(world, order, i, loadouts, changed, w);
    }
    assert order[..|order|] == order;
    PassCovers(world, order, ManageFn(loadouts, changed));
    w' := w;
  }

  /**
   * One iteration of `powerup_manager`'s loop: entity `order[i]` re-equipped
   * from its inventory, as `loadouts` (read when the system starts) has it.
   */
  method ManageNext(world: World, order: seq<EntityId>, i: nat, loadouts: map<EntityId, PowerUps.Slots>,
                    changed: set<EntityId>, w: World)
    returns (w': World)
    requires Enumerates(order, world) && i < |order|
    requires w == Pass(world, order[..i], ManageFn(loadouts, changed))
    ensures w' == Pass(world, order[..i + 1], ManageFn(loadouts, changed))
  {
    var id := order[i];
    PassStep(world, order, i, ManageFn(loadouts, changed));
    PassUnvisited(world, order, i, ManageFn(loadouts, changed));
    var e := w[id];
    w' := w;
    if id in changed && id in loadouts {
      var arms := EquipAll(e.arms, loadouts[id]);
      w' := w[id := e.(arms := arms)];
    }
  }
}
