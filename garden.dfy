/**
 * The garden simulation as the component holds it: three mutable state cells
 * (the pet, the cooldown map and the last message) and the three entry points
 * that update them — the once-per-second decay tick, the once-per-second
 * cooldown tick, and an action request.
 *
 * The host clock is a parameter: every entry point that reads the time takes
 * the current instant `now` in milliseconds.
 */
module GardenSim {
  import opened PetState
  import opened Cooldowns

  /** The message the garden last showed: the greeting, an accepted action, or a cooldown notice. */
  datatype Message = Welcome | Accepted(action: Action) | Blocked(action: Action, remaining: int)

  class Garden {
    var pet: Pet
    var cooldowns: CooldownMap
    var message: Message

    /** The state invariant: gauges in [0, 100] and no negative cooldown. */
    ghost predicate Valid()
      reads this
    {
      InRange(pet) && NonNegative(cooldowns)
    }

    /** A fresh garden at instant `start`: the initial pet, no cooldowns, the greeting. */
    constructor (start: int)
      ensures Valid()
      ensures pet == InitialPet(start) && cooldowns == map[] && message == Welcome
    {
      pet := InitialPet(start);
      cooldowns := map[];
      message := Welcome;
    }

    /** The decay tick: decay the pet against the time since its last feed. */
    method Tick(now: int)
      requires Valid() && now >= pet.lastFed
      modifies this`pet
      ensures Valid()
      ensures pet == Decay(old(pet), now)
    {
      pet := Decay(pet, now);
    }

    /** The cooldown tick: every positive entry goes down by one. */
    method CooldownTick()
      requires Valid()
      modifies this`cooldowns
      ensures Valid()
      ensures cooldowns == Ticked(old(cooldowns))
    {
      cooldowns := Decrement(cooldowns);
    }

    /**
     * An action request at instant `now`. A blocked action reports the
     * remaining seconds and changes neither the pet nor the cooldowns; an
     * available one applies its stat changes and timestamp and restarts its
     * cooldown.
     */
    method Perform(a: Action, now: int) returns (m: Message)
      requires Valid()
      modifies this
      ensures Valid()
      ensures message == m
      ensures OnCooldown(old(cooldowns), a) ==>
                m == Blocked(a, old(cooldowns)[a]) && pet == old(pet) && cooldowns == old(cooldowns)
      ensures !OnCooldown(old(cooldowns), a) ==>
                m == Accepted(a) &&
                pet == ApplyAction(a, old(pet), now) &&
                cooldowns == Restart(old(cooldowns), a)
    {
      if OnCooldown(cooldowns, a) {
        m := Blocked(a, cooldowns[a]);
        message := m;
        return;
      }
      pet := ApplyAction(a, pet, now);
      cooldowns := Restart(cooldowns, a);
      m := Accepted(a);
      message := m;
    }
  }

  /**
   * Feeding a fresh garden at its start instant is accepted and leaves hunger
   * 10, health 75 and a 120-second feed cooldown; one cooldown tick later a
   * second feed is blocked with 119 seconds to go and changes neither the pet
   * nor the cooldown map.
   */
  method FeedThenRetry(start: int)
    returns (first: Message, fed: Pet, feedCooldown: int, second: Message, after: Pet, afterCooldowns: CooldownMap)
    ensures first == Accepted(Feed)
    ensures fed.hunger == 10.0 && fed.health == 75.0 && fed.lastFed == start
    ensures feedCooldown == 120
    ensures second == Blocked(Feed, 119)
    ensures after == fed
    ensures afterCooldowns == map[Feed := 119]
  {
    var g := new Garden(start);
    first := g.Perform(Feed, start);
    fed := g.pet;
    feedCooldown := g.cooldowns[Feed];
    g.CooldownTick();
    second := g.Perform(Feed, start + 1000);
    after := g.pet;
    afterCooldowns := g.cooldowns;
  }

  /**
   * One decay tick an hour after the start, with no action taken, gives
   * health 68, hunger 43, happiness 59 and growth 0.5; a second tick at the
   * same instant decays again, to health 66.
   */
  method OneHourUntended(start: int) returns (once: Pet, twice: Pet)
    ensures once.health == 68.0 && once.hunger == 43.0 && once.happiness == 59.0 && once.growth == 0.5
    ensures twice.health == 66.0 && twice.hunger == 46.0 && twice.happiness == 58.0 && twice.growth == 1.0
  {
    var g := new Garden(start);
    g.Tick(start + MsPerHour);
    once := g.pet;
    g.Tick(start + MsPerHour);
    twice := g.pet;
  }

  /** Watering at health 95 clamps health to 100 and still adds 10 happiness. */
  method WaterNearFullHealth(start: int, happiness: real) returns (r: Pet)
    requires 0.0 <= happiness <= 90.0
    ensures r.health == 100.0 && r.happiness == happiness + 10.0 && r.lastWatered == start
  {
    var g := new Garden(start);
    g.pet := g.pet.(health := 95.0, happiness := happiness);
    var m := g.Perform(Water, start);
    r := g.pet;
  }
}
