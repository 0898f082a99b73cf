# Game rules of a Bevy shoot-em-up, modelled in Dafny

This project models the rules of a top-down shoot-em-up built on the Bevy
game engine. The player's plane fights enemy spawners:
- guns fire projectiles on a cooldown;
- projectiles collide with the other side and send damage events;
- health reaching zero marks an entity dead and starts its despawn timer;
- dead enemies drop experience pellets, and the player picks them up;
- a level up opens a chooser that offers power-ups from a six-slot inventory;
- held power-ups become gun, munitions and shield components;
- shields recharge;
- statistics accumulate;
- a wave timer is shown as "MM:SS".

Each system is a method over the world. The world is a map from entity to a
record of optional components (`Components.Entity`). Each method also takes
`order`, the order in which the engine's query visits the entities. Four
things come back from a system:
- the new world;
- the events it sends;
- the entities it spawns;
- any other state it changes.

Every such method is proved equal to a specification function over the whole
world. Lemmas then state what the game promises about those functions.

Two pieces of state are updated in place, so they are classes:
- the inventory `PowerUps.Powerups`, an array of six slots, which
  `AddPowerup` changes in place;
- the `Waves.WaveTimer` resource.

Each module follows one source file:
- `Ecs`: queries, `get_single`, `u8`/`u32`.
- `Components`: components and events.
- `PowerUps`: `power_ups.rs`, the inventory.
- `Loadout`: `powerup_manager`.
- `Weapon`: `weapon.rs`.
- `Health`: `health.rs`.
- `Overshield`: `overshield.rs`.
- `Leveling`: `leveling.rs`.
- `Enemy`: `enemy.rs`.
- `Stats`: `stats.rs`.
- `TimeText`: the clock format shared by `hud.rs` and `waves.rs`.
- `Hud`: `hud.rs`.
- `Waves`: `waves.rs`.

What the engine computes with floating point, or draws at random, comes in as
function parameters:
- `within`, `inRange`, `near`: distance tests;
- `aim`: a normalised direction;
- `key`: a distance truncated to `i32`;
- `place`: where a spawn goes;
- `picks`: which choices `choose_multiple` draws;
- `needed`: `xp_required_for_level`.

Time is a `real`.

Behaviour of the code that the model keeps as written:
- The `Overshield` power-up is documented as adding "extra health ontop of
  your current health" (`src/power_ups.rs:280`). But `apply_damage`
  (`src/health.rs:80-95`) never reads `OvershieldState`, so the shield
  absorbs nothing. It is only recreated and recharged.
- The `waves.rs` module comment plans a 30-minute timer that brings in a new
  enemy type every 5 minutes (`src/waves.rs:4-6`). The code keeps only the
  timer and its readout; it has no spawn schedule.
- `update_target_vectors` leaves the `TargetVector` as it was when the
  target (or either transform) cannot be looked up. It does not clear it.
- `count_deaths` exists, but the statistics plugin never schedules it, so
  `TotalEnemiesKilled` stays at its initial zero in the game. The model
  still gives the system itself (`Stats.CountDeaths`).
- `MosquitoBundle` sets its `(Enemy, Hostile)` tags with `Default::default()`.
  The model gives the mosquito both markers, as the red plane has.
- `PeaShooter` and `Sniper` fall back to the machine gun's damage of 6 from
  level 6 on, below their level-5 damage. The model keeps this
  (`Weapon.DamageNotMonotone`).

## Model

| member | source | states |
|---|---|---|
| Ecs.Single | src/leveling.rs:43-45 | `get_single` gives the one matching entity; with no match or several matches it gives nothing |
| Ecs.WrapU32 | src/stats.rs:32 | a `u32` wrap is congruent to its input modulo 2^32 and leaves values already in range unchanged |
| Ecs.WrapAddAbsorbs | src/stats.rs:31-33 | wrapping after every addition gives the same result as wrapping once at the end |
| PowerUps.Rank | src/power_ups.rs:253-295 | each `PowerUpType` sits in the declaration order PeaShooter, MachineGun, Sniper, Bile, Overshield, SpecialMunitions |
| PowerUps.AllTypesListsEveryType | src/power_ups.rs:168 | `all::<PowerUpType>()` lists every variant |
| PowerUps.AllTypesAscending | src/power_ups.rs:168 | `all::<PowerUpType>()` yields the variants in declaration order, each once |
| PowerUps.UnusedSlots | src/power_ups.rs:129-131 | the free-slot count is at most the slot count, and it is zero exactly when every slot is filled |
| PowerUps.FindSlot | src/power_ups.rs:133-138 | `get_powerup_mut` gives the first slot holding the type, or nothing when no slot holds it |
| PowerUps.GetPowerup | src/power_ups.rs:140-145 | `get_powerup` gives a held power-up of the asked type, or `None` exactly when no slot holds that type |
| PowerUps.FirstEmpty | src/power_ups.rs:151-158 | the slot the fill loop writes is the lowest empty slot; there is none exactly when no slot is free |
| PowerUps.CurrentPowerups | src/power_ups.rs:163-165 | `current_powerups` lists exactly the held types, one per filled slot |
| PowerUps.Unheld | src/power_ups.rs:167-171 | `retain` keeps exactly the types that no slot holds |
| PowerUps.Powerups.Empty | src/power_ups.rs:105-106 | `Powerups::default()` is six empty slots |
| PowerUps.Powerups.FromSlots | src/enemy.rs:107-117 | a literal six-slot inventory with no type in two slots holds exactly the given slots and is valid |
| PowerUps.Powerups.AddPowerup | src/power_ups.rs:147-161 | `add_powerup` leaves the slot array as `Added` of the old slots: a held type's level rises, or the new type fills the first empty slot; the inventory stays six slots with no type in two of them |
| PowerUps.NewPowerups | src/enemy.rs:107-117 | builds a fresh valid six-slot inventory holding exactly the given slots |
| PowerUps.FirstEmptyIsLeast | src/power_ups.rs:151-158 | an empty slot with only filled slots before it is the one the loop stops at |
| PowerUps.AddHeldRaisesLevel | src/power_ups.rs:147-149 | adding a held type raises that slot's level by exactly one and changes no other slot |
| PowerUps.AddUnheldFillsFirstEmpty | src/power_ups.rs:150-158 | an unheld type goes into the lowest-index empty slot at level 1, and nothing else changes |
| PowerUps.AddToFullIsNoOp | src/power_ups.rs:150-160 | adding an unheld type to a full inventory changes nothing |
| PowerUps.FillOneSlot | src/power_ups.rs:153-156 | filling an empty slot lowers the free-slot count by exactly one |
| PowerUps.ReplaceHeldSlot | src/power_ups.rs:148-149 | raising a held slot's level keeps the free-slot count |
| PowerUps.AddUnusedSlots | src/power_ups.rs:147-160 | the free-slot count drops by one when a new type enters a non-full inventory, and is otherwise unchanged |
| PowerUps.AddKeepsUnique | src/power_ups.rs:147-160 | `add_powerup` preserves "each type occupies at most one slot" |
| PowerUps.RepeatMembership | src/power_ups.rs:185-188 | an element is in the list appended `n` times exactly when `n > 0` and the element is in the list |
| PowerUps.AppendAscending | src/power_ups.rs:169 | appending a type ranked above every kept type keeps the list in declaration order |
| PowerUps.UnheldInOrder | src/power_ups.rs:169 | filtering keeps declaration order |
| PowerUps.UnusedTypesExact | src/power_ups.rs:167-171 | `get_unused_powerup_types` is exactly the unheld variants, each once, in declaration order |
| PowerUps.ChoicePoolMembership | src/power_ups.rs:179-188 | a type is offered iff it is held, or it is unheld and a slot is free; with no free slot the pool is the held types alone |
| PowerUps.BuildChoicePool | src/power_ups.rs:181-188 | the pool is the held types in slot order, followed by the unused list repeated once per free slot |
| PowerUps.ExtendRepeatedly | src/power_ups.rs:185-188 | the loop appends the unused list to the held types exactly `unused_slots` times |
| PowerUps.ChooseMultiple | src/power_ups.rs:190 | up to three distinct pool positions are drawn, and each choice comes from the pool |
| PowerUps.OfferedChoicesAreValid | src/power_ups.rs:179-190 | every offered choice is held, or some slot is free to take it |
| Loadout.GunFor | src/power_ups.rs:116-123 | exactly MachineGun, PeaShooter and Sniper map to gun components |
| Loadout.TypeOfGun | src/power_ups.rs:117-119 | each gun component comes from its own power-up type |
| Loadout.EquippedGun | src/power_ups.rs:113-119 | with unique slots, a held gun type leaves a fresh gun at its level; an unheld one leaves the gun as it was |
| Loadout.EquippedLevel | src/power_ups.rs:120-122 | munitions, overshield and bile take the held level, or stay as they were |
| Loadout.EquippedComponents | src/power_ups.rs:112-125 | the whole type-to-component mapping over one inventory |
| Loadout.GetPowerupSnoc | src/power_ups.rs:140-145 | with unique slots, looking a type up is looking in the last slot, else in the slots before it |
| Loadout.Loadouts | src/power_ups.rs:110 | the inventories are read exactly from the entities that have a `Powerups` component |
| Loadout.EquipAll | src/power_ups.rs:113-124 | the slot loop inserts each held power-up's component in slot order |
| Loadout.PowerupManager | src/power_ups.rs:108-126 | `powerup_manager` re-equips exactly the entities whose `Powerups` changed, from their current inventory |
| Loadout.ManageAll | src/power_ups.rs:112-125 | the outer loop re-equips exactly the changed entities |
| Loadout.ManageNext | src/power_ups.rs:112-124 | one iteration re-equips one entity if it changed |
| Weapon.NewGun | src/weapon.rs:256-261 | a new gun has the given level and starts half a second from firing |
| Weapon.CooldownNonIncreasing | src/weapon.rs:265-381 | a higher level never lengthens a gun's cooldown |
| Weapon.CooldownPositive | src/weapon.rs:265-381 | every cooldown is positive |
| Weapon.DamageNotMonotone | src/weapon.rs:277-389 | damage never falls from bucket 0..=2 to bucket 3..=5, and rises there for every gun but the Sniper (100 in both); from level 6 on every gun deals 6, a drop for PeaShooter and Sniper |
| Weapon.DamageMult | src/weapon.rs:485-487 | the munitions factor is the munitions level, or 1 without the component |
| Weapon.MunitionsScaleDamage | src/weapon.rs:443-444 | level-0 munitions make a projectile deal zero; without munitions it deals the table damage; otherwise at least that |
| Weapon.Bullet | src/weapon.rs:435-467 | a projectile starts at the shooter with damage × multiplier, the gun's hit points and a 30-second timer, on the shooter's side |
| Weapon.FireStepCases | src/weapon.rs:430-471 | a ready gun re-arms to its cooldown, an aimed cooling gun loses `dt`, an unaimed one is untouched, and nothing else changes |
| Weapon.ShootBasicGun | src/weapon.rs:408-475 | `shoot_basic_gun` gives the world after every gun's fire step, plus the projectiles in iteration order |
| Weapon.ShootOne | src/weapon.rs:429-472 | one entity's closure gives its fire step, plus a projectile exactly when it is ready |
| Weapon.ShootStep | src/weapon.rs:428-472 | the next loop iteration extends the pass and the projectiles by exactly this entity's step |
| Weapon.FiredIsPass | src/weapon.rs:428 | the sequential pass equals the world-wide fire step |
| Weapon.VolleyOnePerReadyShooter | src/weapon.rs:428-468 | exactly one projectile per ready shooter, in iteration order, each that shooter's bullet |
| Weapon.QuietWhileCooling | src/weapon.rs:469-471 | a gun stays silent through frames that add up to less than its remaining cooldown |
| Weapon.SumNonNegative | src/weapon.rs:469-471 | frame times that are not negative add up to a total that is not negative |
| Weapon.OneShotPerCooldown | src/weapon.rs:431-432 | a ready gun fires once, then not again within its cooldown |
| Weapon.HitOf | src/weapon.rs:180-189 | a bullet hits only an entity of the world that it strikes; when the candidates' query visits every entity, it misses exactly when it strikes no entity of the world |
| Weapon.HitIsFirstInOrder | src/weapon.rs:180-214 | every candidate before the hit one is missed: the loop breaks at the first strike |
| Weapon.FindHit | src/weapon.rs:180-217 | the inner loop finds exactly that first struck candidate |
| Weapon.CheckBulletCollisions | src/weapon.rs:149-220 | with both queries visiting every entity once, the collision system gives the struck bullets minus the spent ones, the damage events and the impacts |
| Weapon.CollideNext | src/weapon.rs:167-219 | one iteration advances the world, spent set, events and impacts by exactly one bullet |
| Weapon.CollideOne | src/weapon.rs:167-219 | one bullet's closure: its hit, whether it is spent, its event and its impact |
| Weapon.CollisionStep | src/weapon.rs:167-219 | the specification functions advance by exactly one bullet per iteration |
| Weapon.CollidedIsPass | src/weapon.rs:167 | the sequential pass equals the world-wide collision step |
| Weapon.SpentExact | src/weapon.rs:194-195 | a bullet is despawned exactly when it hits with its last hit point |
| Weapon.HitOutcome | src/weapon.rs:190-199 | a bullet that hits loses one hit point; it is gone iff that was its last, else its `LastHit` is the struck entity |
| Weapon.MissUntouched | src/weapon.rs:180-217 | a bullet that strikes no entity of the world is left unchanged |
| Weapon.HitEventSent | src/weapon.rs:206-212 | every hit's damage event is among the events the pass sends |
| Weapon.StrikeIsHit | src/weapon.rs:180-212 | a bullet that strikes some entity of the world hits, and the pass sends its damage event aimed at the first entity it strikes |
| Weapon.AtMostOneHitPerBullet | src/weapon.rs:189-214 | each bullet sends at most one damage event and leaves at most one impact, so a pass has no more events than bullets and no more impacts than events |
| Weapon.NoImmediateRepeatHit | src/weapon.rs:183-199 | a surviving bullet cannot hit the same entity on the next pass |
| Weapon.RetargetedWorld | src/weapon.rs:222-238 | re-aiming keeps exactly the same entities |
| Weapon.UpdateTargetVectors | src/weapon.rs:222-238 | `update_target_vectors` re-aims every entity from the world as it was |
| Weapon.RetargetNext | src/weapon.rs:228-236 | one iteration re-aims one entity |
| Weapon.RetargetOne | src/weapon.rs:228-236 | one entity's closure gives its re-aimed record |
| Weapon.RetargetStep | src/weapon.rs:226-237 | the pass advances by exactly this entity's re-aim |
| Weapon.RetargetedIsPass | src/weapon.rs:226-237 | the sequential pass equals the world-wide re-aim |
| Weapon.TargetVectorRule | src/weapon.rs:229-235 | only `TargetVector` changes; it is kept when a lookup fails, and otherwise is `Some` iff the target is in range |
| Weapon.RetargetIdempotent | src/weapon.rs:222-238 | running `update_target_vectors` twice gives the same world as running it once |
| Weapon.RetargetedAgain | src/weapon.rs:229-235 | a re-aimed entity is unchanged by a second re-aim |
| Weapon.Nearest | src/weapon.rs:78-88 | the chosen target is an eligible enemy, and there is none exactly when no enemy is eligible |
| Weapon.NearestIsFirstMinimum | src/weapon.rs:87 | `min_by_key` picks a minimal key, with ties going to the first in iteration order |
| Weapon.NearestEnemy | src/weapon.rs:78-88 | the `min_by_key` loop computes `Nearest` |
| Weapon.UpdatePlayerTarget | src/weapon.rs:73-90 | the single player's target becomes the nearest eligible enemy; without exactly one player nothing changes |
| Health.Damaged | src/health.rs:80-95 | applying damage keeps exactly the same entities |
| Health.ApplyDamage | src/health.rs:80-95 | every entity with `Health` loses the sum of the amounts aimed at it, and nothing else changes |
| Health.DamageNext | src/health.rs:87-92 | one event subtracts its amount from its target's health, if the target has any |
| Health.DamageToConcat | src/health.rs:81-94 | the damage of two event batches adds up |
| Health.DamageComposes | src/health.rs:80-95 | applying two batches one after the other is applying them together |
| Health.RepeatedHits | src/health.rs:87-88 | `k` equal hits take `k` times the amount |
| Health.UnaimedEventsIgnored | src/health.rs:87 | events aimed elsewhere leave an entity's health alone |
| Health.Marked | src/health.rs:57-72 | marking the dying keeps exactly the same entities |
| Health.CheckDead | src/health.rs:57-72 | changed entities with health ≤ 0 and no timer get a 10-second timer, `Dead` and a death event, in iteration order |
| Health.CheckDeadNext | src/health.rs:62-71 | one iteration examines one entity |
| Health.CheckDeadStep | src/health.rs:62-71 | the pass and the events advance by exactly one entity |
| Health.MarkedIsPass | src/health.rs:62 | the sequential pass equals the world-wide marking |
| Health.DeathsExact | src/health.rs:62-64 | a death event names an entity iff it dies in this pass, and never names one twice |
| Health.DyingEntitiesStaySilent | src/health.rs:59 | an entity that already has a `DespawnTimer` gets no death event |
| Health.HealthyUntouched | src/health.rs:63 | an entity with positive health gets no event and no marker |
| Health.Despawn | src/health.rs:44-55 | every timer goes down by `dt`, and the entities whose timer reaches ≤ 0 are removed |
| Health.Despawned | src/health.rs:49-53 | an entity survives the frame iff its timer does not run out |
| Health.DespawnNext | src/health.rs:49-53 | one iteration lowers one timer |
| Health.DespawnStep | src/health.rs:49-53 | the pass and the expired set advance by exactly one entity |
| Health.DespawnedIsPass | src/health.rs:49-54 | ticking every timer and then despawning the expired entities gives `Despawned` |
| Health.ExpiredInExact | src/health.rs:51-52 | exactly the entities whose timer runs out are despawned |
| Health.AtMostOneDeath | src/health.rs:57-72 | an entity that gets a death event gets no second one in any later frame of `check_dead`, `apply_damage` and `despawn`, for as long as it exists |
| Health.StepKeepsTimer | src/health.rs:44-95 | one frame of the health systems never removes a `DespawnTimer` from an entity that survives it |
| Health.TimerPersists | src/health.rs:44-95 | over any run of frames, an entity that has a `DespawnTimer` keeps one for as long as it exists |
| Overshield.ResetWorld | src/overshield.rs:33-53 | a reset keeps exactly the same entities |
| Overshield.ResetStep | src/overshield.rs:37-52 | one entity's reset |
| Overshield.ResetOvershieldState | src/overshield.rs:33-53 | `reset_overshield_state` resets every changed shield |
| Overshield.ResetCases | src/overshield.rs:38-51 | a missing state is created full (level×100) with no delay; a changed maximum refills, keeping the timer; otherwise nothing changes |
| Overshield.ResetOneCases | src/overshield.rs:38-51 | the same cases for one entity |
| Overshield.ResetBounds | src/overshield.rs:39-50 | a reset leaves the shield within its maximum |
| Overshield.RechargeWorld | src/overshield.rs:55-65 | a recharge keeps exactly the same entities |
| Overshield.RechargeStep | src/overshield.rs:56-64 | one shield's recharge |
| Overshield.RechargeShields | src/overshield.rs:55-65 | `recharge_shields` recharges every living shield |
| Overshield.RechargeCases | src/overshield.rs:57-62 | a full shield is untouched; a shield below its maximum gains exactly one point when its timer runs out (re-armed to 0.1 s) and otherwise counts down; the maximum never changes |
| Overshield.RechargeRunBounded | src/overshield.rs:55-65 | over any frames a shield stays within its maximum, never loses charge, and gains at most one point per frame |
| Overshield.RechargeKeepsBounds | src/overshield.rs:55-64 | every bounded living shield stays bounded, and `Dead` shields are frozen |
| Leveling.LeveledUp | src/leveling.rs:86-102 | levelling keeps exactly the same entities |
| Leveling.AnyLevelsUpExact | src/leveling.rs:90-100 | the chooser flag is set iff some player had enough experience |
| Leveling.RunLevelUps | src/leveling.rs:86-102 | each player with enough experience gains a level; the chooser opens iff one did |
| Leveling.LevelUpNext | src/leveling.rs:90-101 | one iteration checks one player |
| Leveling.LevelUpCases | src/leveling.rs:91-94 | with enough experience a player gains exactly one level and pays its cost, else nothing changes; experience stays non-negative |
| Leveling.AtMostOneLevelPerFrame | src/leveling.rs:90-101 | over `n` frames a player gains at most `n` levels, never loses one, and keeps non-negative experience |
| Leveling.SurplusWaits | src/leveling.rs:92-94 | twice the cost still buys only one level per frame |
| Leveling.AwardPlayerXp | src/leveling.rs:36-67 | with exactly one player, one pellet per dying rewarding enemy, aimed at the player; without one, none |
| Leveling.WorthConcat | src/leveling.rs:58 | appending at most one pellet adds its worth to the total |
| Leveling.DropsMatchDeaths | src/leveling.rs:46-65 | the pellets number the rewarding deaths, carry exactly their bounty, and all target the player |
| Leveling.DropsArePellets | src/leveling.rs:46-65 | each pellet is the one a death of an enemy worth experience leaves: at that enemy's position, worth its bounty, aimed at the player |
| Leveling.EmptiedWorld | src/leveling.rs:77-83 | emptying the pellets keeps exactly the same entities |
| Leveling.XpCollisions | src/leveling.rs:69-84 | the single player gains the worth of every pellet in reach; those pellets are emptied and despawned |
| Leveling.CollectedIsPass | src/leveling.rs:77-83 | the loop's state, once applied, gives `CollectedBy` |
| Leveling.PickupNext | src/leveling.rs:77-83 | one iteration checks one pellet |
| Leveling.PickupStep | src/leveling.rs:77-83 | the pass, the gained experience and the taken set advance by exactly one pellet |
| Leveling.PickedUpExact | src/leveling.rs:78-81 | exactly the pellets in reach are despawned |
| Leveling.GainedIsWorthOfPickedPellets | src/leveling.rs:77-80 | the experience gained is the worth of the pellets in reach, each counted once |
| Leveling.PickupOutcome | src/leveling.rs:74-83 | pellets in reach are gone, others are untouched, and the player's experience rose by the gain; without a single player nothing changes |
| Enemy.WithHealth | src/enemy.rs:69-76 | `HealthBundle::new(h)` sets `Health` and `MaxHealth` both to `h` and nothing else |
| Enemy.Enlist | src/enemy.rs:95-168 | a spawned enemy is its bundle; a red plane gets a fresh inventory holding a level-0 pea shooter |
| Enemy.RecruitsAreFreshEnemies | src/enemy.rs:95-168 | every spawned enemy is hostile, alive at full positive health, targeting the player with no aim yet, and worth experience |
| Enemy.Recruits | src/enemy.rs:198-211 | a batch issues one spawn per unit of budget spent, and a sail boat issues none |
| Enemy.RunSpawner | src/enemy.rs:178-217 | one spawner's frame: its new state, whether it retires, and its spawns |
| Enemy.RunBatch | src/enemy.rs:183-214 | the batch loop spends min(per-interval, remaining) and retires iff it ran out first |
| Enemy.Ticked | src/enemy.rs:178-217 | ticking spawners keeps exactly the same entities |
| Enemy.TickedIsPass | src/enemy.rs:178 | the sequential pass equals the world-wide tick |
| Enemy.SpawnEnemies | src/enemy.rs:170-218 | `spawn_enemies` ticks every spawner, despawns the retired ones, and issues the spawns in order |
| Enemy.SpawnAll | src/enemy.rs:178-217 | the outer loop, with the player already looked up |
| Enemy.SpawnNext | src/enemy.rs:178-217 | one iteration runs one spawner |
| Enemy.SpawnStep | src/enemy.rs:178-217 | the pass, the retired set and the spawns advance by exactly one spawner |
| Enemy.IntervalCountdown | src/enemy.rs:179-181 | the countdown drops by `dt`; when it goes below zero it re-arms to the full interval, player or not |
| Enemy.SpawnBudget | src/enemy.rs:183-214 | a batch spends at most the per-interval count and at most what remains; the budget never goes negative; no player, no spending |
| Enemy.RetiresOnNextFiring | src/enemy.rs:183-187 | a spawner that spends its last unit survives; the next firing despawns it without spawning |
| Enemy.SailBoatsSpawnNothing | src/enemy.rs:198-213 | a sail-boat spawner spends budget but spawns nothing |
| Enemy.RetiredExact | src/enemy.rs:184-186 | exactly the spawners that retire are despawned |
| Enemy.SpawnersOutcome | src/enemy.rs:178-217 | a spawner survives unless it retires; non-spawners are untouched |
| Enemy.MoveTowardsTarget | src/enemy.rs:220-238 | `move_towards_target` computes a value and drops it: no velocity changes |
| Stats.CollectDamageDone | src/stats.rs:27-34 | the total grows by the sum of the event amounts, modulo 2^32 |
| Stats.DamageSumNonNegative | src/stats.rs:31-33 | amounts that are not negative add up to a sum that is not negative |
| Stats.DamageTotal | src/stats.rs:31-33 | no events leave the total unchanged; non-negative amounts that fit grow it by exactly their sum |
| Stats.CountDeaths | src/stats.rs:42-49 | the kill count grows by the number of death events, modulo 2^32 |
| Stats.CountEnemies | src/stats.rs:57-59 | the alive count is overwritten with the number of enemies, whatever it held |
| Stats.DistinctCard | src/stats.rs:58 | a list without repeats names as many entities as it is long |
| Stats.MatchingCounts | src/stats.rs:58 | the query yields each enemy exactly once |
| TimeText.TruncateToI32 | src/hud.rs:194-195 | `f32 as i32` truncates toward zero and saturates at the `i32` bounds |
| TimeText.TruncateMonotone | src/waves.rs:48-49 | a later timer never shows fewer whole seconds |
| TimeText.SplitMinutes | src/hud.rs:194-195 | minutes×60 + seconds = t; seconds ∈ [0, 59] for t ≥ 0 and ∈ [-59, 0] for t < 0 |
| TimeText.DigitChar | src/hud.rs:197 | a digit value below ten formats as a decimal digit character |
| TimeText.Digits | src/hud.rs:197 | decimal digits, with one digit below 10 and two below 100 |
| TimeText.PadLeft | src/hud.rs:197 | right-alignment to a width: the text at the end, fill characters before it |
| TimeText.ColonAt | src/hud.rs:197 | the ':' splitting the two fields is the first one in the text |
| TimeText.ValueOfDigits | src/hud.rs:197 | the digits of `n` read back as `n` |
| TimeText.ValueOfZeros | src/hud.rs:197 | a run of '0' characters reads as zero |
| TimeText.LeadingZeros | src/hud.rs:197 | zero padding does not change the number a field reads as |
| TimeText.SkipLeadingSpaces | src/waves.rs:51 | space padding is skipped when a field is read |
| TimeText.FieldLayout | src/hud.rs:197 | a field is fill characters followed by digits, two wide below 100 |
| TimeText.PaddedDigitsParse | src/hud.rs:197 | fill followed by digits parses as the number the digits spell, and has no ':' |
| TimeText.FieldReadsBack | src/hud.rs:197 | a formatted field parses back as its number and contains no ':' |
| TimeText.JoinedFieldsParse | src/hud.rs:197 | two fields joined by ':' parse as the pair of their numbers |
| TimeText.ClockReadsBack | src/hud.rs:194-197 | the text parses back to (t/60, t%60), and so to `t` |
| TimeText.FieldChars | src/hud.rs:197 | every character of a field is the fill or a digit |
| TimeText.JoinedShape | src/hud.rs:197 | two two-character fields joined by ':' make five characters with ':' at index 2 |
| TimeText.ClockShape | src/hud.rs:197 | for t < 6000 the text is five characters with ':' at index 2, the rest fill or digits |
| Hud.HudSplit | src/hud.rs:194-195 | for a timer ≥ 0: seconds ∈ [0, 59] and minutes×60 + seconds = the whole seconds |
| Hud.HudExamples | src/hud.rs:197 | 65 s shows "01:05"; -65 s shows "-1:-5" |
| Hud.HudShape | src/hud.rs:197 | under 6000 s the label is five characters: digits, with ':' at index 2 |
| Hud.HudReadsBack | src/hud.rs:192-204 | the label parses back to the minutes and seconds of the whole seconds played |
| Hud.ReadoutsAgree | src/hud.rs:194-197 | the HUD label and the wave readout show the same minutes and seconds |
| Waves.WaveTimer.constructor | src/waves.rs:11 | the timer resource starts at zero |
| Waves.WaveTimer.IncrementTimer | src/waves.rs:36-38 | `increment_timer` adds the frame's delta, and the timer stays the sum of all deltas |
| Waves.ElapsedNonDecreasing | src/waves.rs:36-38 | with deltas that are not negative, the timer and the shown whole seconds never decrease |
| Waves.WavesSplit | src/waves.rs:48-49 | for a timer ≥ 0: seconds ∈ [0, 59], minutes×60 + seconds = t, and t ≤ timer |
| Waves.WavesExample | src/waves.rs:51 | 65 s shows " 1: 5" |
| Waves.WavesShape | src/waves.rs:51 | under 6000 s the readout is five characters with ':' at index 2, the rest spaces or digits |
| Waves.WavesReadsBack | src/waves.rs:48-51 | the readout parses back to the minutes and seconds of the whole seconds played |

## Left out

- Floating-point vector math is not modelled. This covers `update_acceleration`, `apply_velocity`, normalisation, lengths, player movement and camera follow. Distance tests, directions and truncated distances are function parameters, and positions are pairs of reals.
- IEEE `f32` rounding of timers and cooldowns is not modelled. They are exact reals.
- `xp_required_for_level` is the parameter `needed`. Its float formula and its `as i32` cast are not modelled.
- Randomness is not modelled. `choose_multiple` is given its drawn positions (`picks`). The spawn angle and distance are the parameter `place`. The pickup drop chance belongs to `spawn_pickup`, which is not part of this model.
- Parallel iteration and deferred commands are not modelled as such. Each system is a sequential pass in a given query order. Queued despawns and spawns take effect at the end of the system, as the returned world and spawn lists.
- Leveling.RunLevelUps, Leveling.XpCollisions and Health.ApplyDamage: `Level`, `Xp` and `Health` are unbounded integers. `i32` overflow is not modelled: it panics in a debug build and wraps in release, and gameplay never gets close to it.
- TimeText.TruncateToI32: a NaN timer is not modelled. It casts to 0 in Rust, but the timer starts at 0.0 and only grows by frame deltas.
- Stats.CollectDamageDone and Stats.CountDeaths: the `u32` `+=` panics in a debug build when it overflows; the model takes the release wrap modulo 2^32.
- Health.AtMostOneDeath and Health.TimerPersists: a frame runs `check_dead`, then `apply_damage`, then `despawn`. The plugin leaves their order to the scheduler (`src/health.rs:35`), and the other orders are not modelled.
- The `info!` log lines of `apply_damage` (`src/health.rs:89-92`) and `run_level_ups` (`src/leveling.rs:95-98`) are not modelled. Logging has no effect on the game state.
- PowerUps.Powerups.AddPowerup requires a held type's level to be below 255. `level += 1` on a `u8` panics in a debug build. The release wrap to 0 is not modelled.
- The engine's `Changed<...>` filters are given as a set of entity ids (`changed`). Change detection itself is not modelled.
- `DeathParticles` is recorded only as the impact entity it spawns on a hit (`Weapon.Impact`). The closure itself is not modelled.
- Sprites, textures, fonts, UI nodes, `apply_dead_texture`, menus, audio, input and the game-state machine are not modelled. The choice menu keeps only its pool and the drawn choices. The HUD and wave systems keep only the text they write, not the text entities.
- `Bile` and `VMax` are defined outside the modelled weapon file. Bile is kept only as a level inserted by `powerup_manager`. `VMax` is not modelled.
- Shield absorption of damage and a wave spawn schedule are not modelled, because the code has neither.
- `spawn_pickup`, `player_pickup`, `choices`, `cleanup_pickups`, `remove_choice_menu` and `cleanup_enemies` are not part of this model. They are pickups and menu plumbing around the inventory, not its rules.
- The spawner's `spawn_range` only feeds the random placement, so it is not modelled.
