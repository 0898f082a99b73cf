/**
 * The power-up inventory (`Powerups`, six optional slots) and the pure queries
 * over it: free-slot count, lookup by type, the held types, the types not yet
 * held, and the pool of choices offered when the player levels up.
 */
module PowerUps {
  import opened Ecs

  /** `PowerUpType`, in declaration order. */
  datatype PowerUpType = PeaShooter | MachineGun | Sniper | Bile | Overshield | SpecialMunitions

  /** Every variant in declaration order: what `all::<PowerUpType>()` yields. */
  const AllTypes: seq<PowerUpType> := [PeaShooter, MachineGun, Sniper, Bile, Overshield, SpecialMunitions]

  /** The position of a variant in the declaration (the derived `Ord`). */
  function Rank(t: PowerUpType): (r: nat)
    ensures r < |AllTypes| && AllTypes[r] == t
  {
    match t
    case PeaShooter => 0
    case MachineGun => 1
    case Sniper => 2
    case Bile => 3
    case Overshield => 4
    case SpecialMunitions => 5
  }

  datatype Powerup = Powerup(power: PowerUpType, level: U8)

  const SlotCount: nat := 6

  type Slots = seq<Option<Powerup>>

  predicate Holds(slot: Option<Powerup>, t: PowerUpType) {
    slot.Some? && slot.value.power == t
  }

  /** No power-up type occupies two slots. */
  predicate Unique(s: Slots) {
    forall i, j | 0 <= i < j < |s| && s[i].Some? && s[j].Some? :: s[i].value.power != s[j].value.power
  }

  /** `unused_slots`: the number of empty slots. */
  function UnusedSlots(s: Slots): (n: nat)
    ensures n <= |s|
    ensures n == 0 <==> forall i | 0 <= i < |s| :: s[i].Some?
  {
    if s == [] then 0 else (if s[0].None? then 1 else 0) + UnusedSlots(s[1..])
  }

  /**
   * The slot `get_powerup_mut` hands out: the first slot holding `t`, or
   * `None` when no slot holds it.
   */
  function FindSlot(s: Slots, t: PowerUpType): (r: Option<nat>)
    ensures r.Some? ==> r.value < |s| && Holds(s[r.value], t)
    ensures r.Some? ==> forall j | 0 <= j < r.value :: !Holds(s[j], t)
    ensures r.None? <==> forall j | 0 <= j < |s| :: !Holds(s[j], t)
  {
    if s == [] then None
    else if Holds(s[0], t) then Some(0)
    else
      match FindSlot(s[1..], t)
      case None => None
      case Some(i) => Some(i + 1)
  }

  /** `get_powerup`: the held power-up of type `t`, if any. */
  function GetPowerup(s: Slots, t: PowerUpType): (r: Option<Powerup>)
    ensures r.Some? ==> r.value.power == t && Some(r.value) in s
    ensures r.None? <==> forall j | 0 <= j < |s| :: !Holds(s[j], t)
  {
    match FindSlot(s, t)
    case None => None
    case Some(i) => s[i]
  }

  /** The first empty slot: where `add_powerup`'s loop writes a new type. */
  function FirstEmpty(s: Slots): (r: Option<nat>)
    ensures r.Some? ==> r.value < |s| && s[r.value].None?
    ensures r.Some? ==> forall j | 0 <= j < r.value :: s[j].Some?
    ensures r.None? <==> UnusedSlots(s) == 0
  {
    if s == [] then None
    else if s[0].None? then Some(0)
    else
      match FirstEmpty(s[1..])
      case None => None
      case Some(i) => Some(i + 1)
  }

  /** `current_powerups`: the held types, in slot order. */
  function CurrentPowerups(s: Slots): (r: seq<PowerUpType>)
    ensures forall t :: t in r <==> FindSlot(s, t).Some?
    ensures |r| + UnusedSlots(s) == |s|
  {
    if s == [] then []
    else
      var rest := CurrentPowerups(s[1..]);
      assert forall t :: FindSlot(s[1..], t).Some? ==> FindSlot(s, t).Some?;
      if s[0].Some? then [s[0].value.power] + rest else rest
  }

  /** The types of `ts` that no slot of `s` holds, in the order of `ts`. */
  function Unheld(ts: seq<PowerUpType>, s: Slots): (r: seq<PowerUpType>)
    ensures forall t :: t in r <==> t in ts && FindSlot(s, t).None?
    ensures |r| <= |ts|
  {
    if ts == [] then []
    else
      var rest := Unheld(ts[..|ts| - 1], s);
      var t := ts[|ts| - 1];
      assert ts == ts[..|ts| - 1] + [t];
      if FindSlot(s, t).None? then rest + [t] else rest
  }

  /** `get_unused_powerup_types`: every variant not held, in declaration order. */
  function UnusedPowerupTypes(s: Slots): seq<PowerUpType> {
    Unheld(AllTypes, s)
  }

  /** `n` copies of `xs`, one after the other. */
  function Repeat<T>(xs: seq<T>, n: nat): (r: seq<T>)
    ensures |r| == n * |xs|
  {
    if n == 0 then [] else Repeat(xs, n - 1) + xs
  }

  /** An element of the pool `k` copies after the first is still in `xs`. */
  lemma {:induction false} RepeatMembership<T>(xs: seq<T>, n: nat, x: T)
    ensures x in Repeat(xs, n) <==> n > 0 && x in xs
  {
    if n > 0 {
      RepeatMembership(xs, n - 1, x);
    }
  }

  /** The pool `add_choice_menu` draws from: the held types, then the unused list once per free slot. */
  function ChoicePool(s: Slots): seq<PowerUpType> {
    CurrentPowerups(s) + Repeat(UnusedPowerupTypes(s), UnusedSlots(s))
  }

  /** The slots after `add_powerup(t)`. */
  function Added(s: Slots, t: PowerUpType): Slots
    requires CanAdd(s, t)
  {
    match FindSlot(s, t)
    case Some(i) => s[i := Some(Powerup(t, s[i].value.level + 1))]
    case None =>
      match FirstEmpty(s)
      case Some(j) => s[j := Some(Powerup(t, 1))]
      case None => s
  }

  /** A held `t` is below the `u8` maximum, so that `level += 1` does not overflow. */
  predicate CanAdd(s: Slots, t: PowerUpType) {
    match FindSlot(s, t)
    case Some(i) => s[i].value.level < 255
    case None => true
  }

  /**
   * The `Powerups` component: a fixed array of six optional slots, no type
   * in two of them.
   */
  class Powerups {
    var slots: array<Option<Powerup>>

    ghost predicate Valid()
      reads this, slots
    {
      slots.Length == SlotCount && Unique(slots[..])
    }

    /** `Powerups::default()`: six empty slots. */
    constructor Empty()
      ensures Valid() && fresh(slots)
      ensures forall i | 0 <= i < SlotCount :: slots[i].None?
    {
      slots := new Option<Powerup>[SlotCount](_ => None);
    }

    /** A component built from a literal slot array (an enemy's starting loadout). */
    constructor FromSlots(s: Slots)
      requires |s| == SlotCount && Unique(s)
      ensures Valid() && fresh(slots) && slots[..] == s
    {
      slots := new Option<Powerup>[SlotCount](i requires 0 <= i < SlotCount => s[i]);
    }

    /** `add_powerup`: raise the held type's level, or put a new type in the first empty slot. */
    method AddPowerup(t: PowerUpType)
      requires Valid()
      requires CanAdd(slots[..], t)
      modifies slots
      ensures Valid()
      ensures slots[..] == Added(old(slots[..]), t)
    {
      AddKeepsUnique(slots[..], t);
      var found := FindSlot(slots[..], t);
      if found.Some? {
        var level := slots[found.value].value.level;
        slots[found.value] := Some(Powerup(t, level + 1));
      } else {
        var i := 0;
        while i < slots.Length
          invariant 0 <= i <= slots.Length
          invariant slots[..] == old(slots[..])
          invariant forall j | 0 <= j < i :: slots[j].Some?
        {
          if slots[i].None? {
            assert FirstEmpty(slots[..]) == Some(i) by {
              FirstEmptyIsLeast(slots[..], i);
            }
            slots[i] := Some(Powerup(t, 1));
            break;
          }
          i := i + 1;
        }
        assert i == slots.Length ==> UnusedSlots(old(slots[..])) == 0;
      }
    }
  }

  /** A fresh `Powerups` component holding the six slots `s`. */
  method NewPowerups(s: Slots) returns (p: Powerups)
    requires |s| == SlotCount && Unique(s)
    ensures fresh(p) && fresh(p.slots) && p.Valid() && p.slots[..] == s
  {
    p := new Powerups.FromSlots(s);
  }

  lemma FirstEmptyIsLeast(s: Slots, i: nat)
    requires i < |s| && s[i].None?
    requires forall j | 0 <= j < i :: s[j].Some?
    ensures FirstEmpty(s) == Some(i)
  {
    var r := FirstEmpty(s);
    assert r.Some?;
  }

  // ---------------------------------------------------------------------
  // add_powerup

  /** A held type goes up exactly one level in its own slot; no other slot changes. */
  lemma AddHeldRaisesLevel(s: Slots, t: PowerUpType, i: nat)
    requires CanAdd(s, t) && FindSlot(s, t) == Some(i)
    ensures |Added(s, t)| == |s|
    ensures Added(s, t)[i] == Some(Powerup(t, s[i].value.level + 1))
    ensures forall j | 0 <= j < |s| && j != i :: Added(s, t)[j] == s[j]
  {
  }

  /** An unheld type lands, at level 1, in the lowest empty slot; nothing else changes. */
  lemma AddUnheldFillsFirstEmpty(s: Slots, t: PowerUpType)
    requires FindSlot(s, t).None? && UnusedSlots(s) > 0
    ensures FirstEmpty(s).Some?
    ensures var j := FirstEmpty(s).value;
      && s[j].None? && (forall k | 0 <= k < j :: s[k].Some?)
      && |Added(s, t)| == |s|
      && Added(s, t)[j] == Some(Powerup(t, 1))
      && forall k | 0 <= k < |s| && k != j :: Added(s, t)[k] == s[k]
  {
  }

  /** An unheld type with every slot full is dropped. */
  lemma AddToFullIsNoOp(s: Slots, t: PowerUpType)
    requires FindSlot(s, t).None? && UnusedSlots(s) == 0
    ensures Added(s, t) == s
  {
  }

  /** Writing a power-up into an empty slot leaves one empty slot fewer. */
  lemma {:induction false} FillOneSlot(s: Slots, j: nat, p: Powerup)
    requires j < |s| && s[j].None?
    ensures UnusedSlots(s[j := Some(p)]) == UnusedSlots(s) - 1
  {
    if j > 0 {
      assert s[j := Some(p)][1..] == s[1..][j - 1 := Some(p)];
      FillOneSlot(s[1..], j - 1, p);
    } else {
      assert s[j := Some(p)][1..] == s[1..];
    }
  }

  /** Replacing a held power-up by another keeps the number of empty slots. */
  lemma {:induction false} ReplaceHeldSlot(s: Slots, j: nat, p: Powerup)
    requires j < |s| && s[j].Some?
    ensures UnusedSlots(s[j := Some(p)]) == UnusedSlots(s)
  {
    if j > 0 {
      assert s[j := Some(p)][1..] == s[1..][j - 1 := Some(p)];
      ReplaceHeldSlot(s[1..], j - 1, p);
    } else {
      assert s[j := Some(p)][1..] == s[1..];
    }
  }

  /**
   * The free-slot count drops by exactly one when a new type enters a
   * non-full inventory, and is otherwise unchanged.
   */
  lemma AddUnusedSlots(s: Slots, t: PowerUpType)
    requires CanAdd(s, t)
    ensures UnusedSlots(Added(s, t)) ==
            if FindSlot(s, t).None? && UnusedSlots(s) > 0 then UnusedSlots(s) - 1 else UnusedSlots(s)
  {
    match FindSlot(s, t)
    case Some(i) =>
      ReplaceHeldSlot(s, i, Powerup(t, s[i].value.level + 1));
    case None =>
      match FirstEmpty(s)
      case Some(j) => FillOneSlot(s, j, Powerup(t, 1));
      case None =>
  }

  /** `add_powerup` never puts one type in two slots. */
  lemma AddKeepsUnique(s: Slots, t: PowerUpType)
    requires Unique(s) && CanAdd(s, t)
    ensures Unique(Added(s, t))
  {
    var r := Added(s, t);
    forall i, j | 0 <= i < j < |r| && r[i].Some? && r[j].Some?
      ensures r[i].value.power != r[j].value.power
    {
      match FindSlot(s, t)
      case Some(k) =>
      case None =>
        match FirstEmpty(s)
        case Some(k) =>
          if i == k {
            assert !Holds(s[j], t);
          } else if j == k {
            assert !Holds(s[i], t);
          }
        case None =>
    }
  }

  // ---------------------------------------------------------------------
  // get_unused_powerup_types and the choice pool

  /** Strictly increasing in declaration order, hence also free of repeats. */
  predicate Ascending(r: seq<PowerUpType>) {
    forall i, j | 0 <= i < j < |r| :: Rank(r[i]) < Rank(r[j])
  }

  lemma AppendAscending(rest: seq<PowerUpType>, t: PowerUpType)
    requires Ascending(rest)
    requires forall x | x in rest :: Rank(x) < Rank(t)
    ensures Ascending(rest + [t])
  {
    var r := rest + [t];
    forall i, j | 0 <= i < j < |r| ensures Rank(r[i]) < Rank(r[j]) {
      assert r[i] == rest[i] && rest[i] in rest;
      if j < |rest| {
        assert r[j] == rest[j];
      }
    }
  }

  /** Filtering an ascending list keeps it ascending. */
  lemma {:induction false} UnheldInOrder(ts: seq<PowerUpType>, s: Slots)
    requires Ascending(ts)
    ensures Ascending(Unheld(ts, s))
  {
    if ts != [] {
      var init := ts[..|ts| - 1];
      UnheldInOrder(init, s);
      var rest := Unheld(init, s);
      var t := ts[|ts| - 1];
      if FindSlot(s, t).None? {
        forall x | x in rest ensures Rank(x) < Rank(t) {
          var k :| 0 <= k < |init| && init[k] == x;
          assert ts[k] == x;
        }
        AppendAscending(rest, t);
      }
    }
  }

  /**
   * The unused list holds exactly the variants not held, each once, in
   * declaration order.
   */
  lemma UnusedTypesExact(s: Slots)
    ensures forall t :: t in UnusedPowerupTypes(s) <==> GetPowerup(s, t).None?
    ensures Ascending(UnusedPowerupTypes(s))
  {
    AllTypesListsEveryType();
    AllTypesAscending();
    UnheldInOrder(AllTypes, s);
  }

  lemma AllTypesListsEveryType()
    ensures forall t :: t in AllTypes
  {
    forall t ensures t in AllTypes {
      assert AllTypes[Rank(t)] == t;
    }
  }

  lemma AllTypesAscending()
    ensures Ascending(AllTypes)
  {
    forall i, j | 0 <= i < j < |AllTypes| ensures Rank(AllTypes[i]) < Rank(AllTypes[j]) {
      assert Rank(AllTypes[i]) == i && Rank(AllTypes[j]) == j;
    }
  }

  /**
   * A type is in the choice pool exactly when it is held, or it is unheld and
   * some slot is free. With no free slot the pool is the held types alone.
   */
  lemma ChoicePoolMembership(s: Slots, t: PowerUpType)
    ensures t in ChoicePool(s) <==>
            FindSlot(s, t).Some? || (FindSlot(s, t).None? && UnusedSlots(s) > 0)
    ensures UnusedSlots(s) == 0 ==> ChoicePool(s) == CurrentPowerups(s)
  {
    UnusedTypesExact(s);
    assert t in AllTypes by { assert AllTypes[Rank(t)] == t; }
    RepeatMembership(UnusedPowerupTypes(s), UnusedSlots(s), t);
  }

  /** `add_choice_menu`'s pool: the held types, then the unused list appended once per free slot. */
  method BuildChoicePool(p: Powerups) returns (choices: seq<PowerUpType>)
    requires p.Valid()
    ensures choices == ChoicePool(p.slots[..])
  {
    var s := p.slots[..];
    choices := ExtendRepeatedly(CurrentPowerups(s), UnusedPowerupTypes(s), UnusedSlots(s));
  }

  /** The loop of `add_choice_menu`: `xs` appended to `base` `n` times. */
  method ExtendRepeatedly<T>(base: seq<T>, xs: seq<T>, n: nat) returns (r: seq<T>)
    ensures r == base + Repeat(xs, n)
  {
    r := base;
    for k := 0 to n
      invariant r == base + Repeat(xs, k)
    {
      r := r + xs;
    }
  }

  /**
   * `choose_multiple(rand, 3)`: up to three distinct positions of the pool,
   * drawn by the random source and here given as `picks`.
   */
  function ChooseMultiple(pool: seq<PowerUpType>, picks: seq<nat>): (r: seq<PowerUpType>)
    requires Distinct(picks) && |picks| == if |pool| < 3 then |pool| else 3
    requires forall k | 0 <= k < |picks| :: picks[k] < |pool|
    ensures |r| == |picks|
    ensures forall k | 0 <= k < |r| :: r[k] in pool
  {
    seq(|picks|, k requires 0 <= k < |picks| => pool[picks[k]])
  }

  /** Every choice offered is a held type, or an unheld one while a slot is free. */
  lemma OfferedChoicesAreValid(s: Slots, picks: seq<nat>, t: PowerUpType)
    requires Distinct(picks)
    requires |picks| == if |ChoicePool(s)| < 3 then |ChoicePool(s)| else 3
    requires forall k | 0 <= k < |picks| :: picks[k] < |ChoicePool(s)|
    requires t in ChooseMultiple(ChoicePool(s), picks)
    ensures FindSlot(s, t).Some? || UnusedSlots(s) > 0
  {
    ChoicePoolMembership(s, t);
  }
}
