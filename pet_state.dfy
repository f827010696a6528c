/**
 * The pet record of the garden simulation and the pure parts of its state
 * machine: the initial pet, the time-based decay applied on every clock tick,
 * the stat changes each of the four actions makes, and the growth stage shown
 * for a growth gauge.
 *
 * Gauges are exact reals (the source uses JavaScript numbers; rounding is not
 * modelled). Timestamps are integer milliseconds, as the host clock gives them.
 */
module PetState {

  datatype Option<T> = None | Some(value: T)

  /** The closed action vocabulary. */
  datatype Action = Feed | Water | Play | Talk

  /** The pet record: a name, four gauges and the three action timestamps. */
  datatype Pet = Pet(
    name: string,
    health: real,
    hunger: real,
    happiness: real,
    growth: real,
    lastFed: int,
    lastWatered: int,
    lastPlayed: int)

  /** Milliseconds in one hour: the divisor that turns clock time into hours. */
  const MsPerHour: int := 1000 * 60 * 60

  function Max(a: real, b: real): real { if a >= b then a else b }

  function Min(a: real, b: real): real { if a <= b then a else b }

  /** The two-sided clamp to [0, 100] that every gauge write is meant to keep. */
  function Clamp(x: real): real { Min(100.0, Max(0.0, x)) }

  predicate InGauge(x: real) { 0.0 <= x <= 100.0 }

  /** The gauge invariant: all four gauges lie in [0, 100]. */
  predicate InRange(p: Pet)
  {
    InGauge(p.health) && InGauge(p.hunger) && InGauge(p.happiness) && InGauge(p.growth)
  }

  /** The pet the simulation starts with; every timestamp is the start instant. */
  function InitialPet(start: int): (p: Pet)
    ensures InRange(p)
    ensures p.lastFed == start && p.lastWatered == start && p.lastPlayed == start
    ensures GrowthStage(p.growth) == Seed
  {
    Pet("Bloom", 70.0, 40.0, 60.0, 0.0, start, start, start)
  }

  // ---------------------------------------------------------------------------
  // Decay tick

  /** Hours elapsed since the last feed; decay of all four gauges uses this one reference. */
  function HoursSinceFed(p: Pet, now: int): (h: real)
    ensures now >= p.lastFed ==> h >= 0.0
    ensures now == p.lastFed ==> h == 0.0
    ensures now - p.lastFed == MsPerHour ==> h == 1.0
  {
    (now - p.lastFed) as real / MsPerHour as real
  }

  /**
   * One decay tick at instant `now`. Each gauge drifts by its hourly rate times
   * the hours since the last feed and is clamped on the side it moves towards.
   * `lastFed` is not moved, so a later tick re-applies the whole delta again.
   */
  function Decay(p: Pet, now: int): (r: Pet)
    ensures r.name == p.name
    ensures r.lastFed == p.lastFed && r.lastWatered == p.lastWatered && r.lastPlayed == p.lastPlayed
    ensures now >= p.lastFed && InRange(p) ==> InRange(r)
    ensures now >= p.lastFed && InRange(p) ==>
              r.health <= p.health && r.happiness <= p.happiness &&
              r.hunger >= p.hunger && r.growth >= p.growth
    ensures now == p.lastFed && InRange(p) ==> r == p
  {
    var hours := HoursSinceFed(p, now);
    p.(health := Max(0.0, p.health - hours * 2.0),
       hunger := Min(100.0, p.hunger + hours * 3.0),
       happiness := Max(0.0, p.happiness - hours * 1.0),
       growth := Min(100.0, p.growth + hours * 0.5))
  }

  /**
   * On a pet inside the gauge invariant and a clock not behind the last feed,
   * the one-sided clamps of a decay tick agree with the two-sided clamp of the
   * plain linear drift.
   */
  lemma DecayIsClampedDrift(p: Pet, now: int)
    requires InRange(p) && now >= p.lastFed
    ensures var h := HoursSinceFed(p, now); var r := Decay(p, now);
      && r.health == Clamp(p.health - 2.0 * h)
      && r.hunger == Clamp(p.hunger + 3.0 * h)
      && r.happiness == Clamp(p.happiness - 1.0 * h)
      && r.growth == Clamp(p.growth + 0.5 * h)
  {
  }

  /** The pet after one decay tick at each instant of `times`, in order. */
  function DecayAll(p: Pet, times: seq<int>): Pet
    decreases |times|
  {
    if times == [] then p else DecayAll(Decay(p, times[0]), times[1..])
  }

  /** The sum, over the tick instants, of the hours each one lies after `lastFed`. */
  function TotalHours(lastFed: int, times: seq<int>): real
    decreases |times|
  {
    if times == [] then 0.0
    else (times[0] - lastFed) as real / MsPerHour as real + TotalHours(lastFed, times[1..])
  }

  lemma {:induction false} TotalHoursNonNegative(lastFed: int, times: seq<int>)
    requires forall i :: 0 <= i < |times| ==> times[i] >= lastFed
    ensures TotalHours(lastFed, times) >= 0.0
    decreases |times|
  {
    if times != [] {
      TotalHoursNonNegative(lastFed, times[1..]);
    }
  }

  /**
   * Decay accumulates over ticks: after a run of ticks with no feed in between,
   * each gauge has moved by its rate times the SUM of the hours-since-feed seen
   * at every tick (then clamped), not by the rate times the hours of wall-clock
   * time that actually went by.
   */
  lemma {:induction false} DecayAccumulates(p: Pet, times: seq<int>)
    requires InRange(p)
    requires forall i :: 0 <= i < |times| ==> times[i] >= p.lastFed
    ensures var r := DecayAll(p, times); var h := TotalHours(p.lastFed, times);
      && r.health == Max(0.0, p.health - 2.0 * h)
      && r.hunger == Min(100.0, p.hunger + 3.0 * h)
      && r.happiness == Max(0.0, p.happiness - 1.0 * h)
      && r.growth == Min(100.0, p.growth + 0.5 * h)
      && r.name == p.name
      && r.lastFed == p.lastFed && r.lastWatered == p.lastWatered && r.lastPlayed == p.lastPlayed
    decreases |times|
  {
    if times != [] {
      var q := Decay(p, times[0]);
      var h0 := HoursSinceFed(p, times[0]);
      var rest := times[1..];
      assert forall i :: 0 <= i < |rest| ==> rest[i] == times[i + 1];
      DecayAccumulates(q, rest);
      TotalHoursNonNegative(p.lastFed, rest);
      var hr := TotalHours(p.lastFed, rest);
      MaxShift(p.health, 2.0 * h0, 2.0 * hr);
      MinShift(p.hunger, 3.0 * h0, 3.0 * hr);
      MaxShift(p.happiness, 1.0 * h0, 1.0 * hr);
      MinShift(p.growth, 0.5 * h0, 0.5 * hr);
    }
  }

  lemma MaxShift(x: real, a: real, b: real)
    requires b >= 0.0
    ensures Max(0.0, Max(0.0, x - a) - b) == Max(0.0, x - (a + b))
  {
  }

  lemma MinShift(x: real, a: real, b: real)
    requires b >= 0.0
    ensures Min(100.0, Min(100.0, x + a) + b) == Min(100.0, x + (a + b))
  {
  }

  /**
   * A second tick at the same instant is not a no-op: as long as the first
   * tick left some health and time has passed since the last feed, it takes
   * health down again by the same amount.
   */
  lemma {:induction false} RepeatedTickDecaysAgain(p: Pet, now: int)
    requires InRange(p) && now > p.lastFed
    requires Decay(p, now).health > 0.0
    ensures Decay(Decay(p, now), now).health < Decay(p, now).health
  {
    var h := HoursSinceFed(p, now);
    assert h > 0.0;
  }

  // ---------------------------------------------------------------------------
  // Actions

  /**
   * The partial record an action handler hands over: each present field
   * replaces the pet's gauge, each absent one leaves it as it was.
   */
  datatype StatChanges = StatChanges(health: Option<real>, hunger: Option<real>, happiness: Option<real>)

  /** The stat changes of each action, computed from the current pet and clamped on one side. */
  function Changes(a: Action, p: Pet): (c: StatChanges)
    ensures c.health.Some? <==> (a == Feed || a == Water)
    ensures c.hunger.Some? <==> (a == Feed || a == Play)
    ensures c.happiness.Some? <==> a != Feed
    ensures InRange(p) ==>
              (c.health.Some? ==> InGauge(c.health.value)) &&
              (c.hunger.Some? ==> InGauge(c.hunger.value)) &&
              (c.happiness.Some? ==> InGauge(c.happiness.value))
  {
    match a
    case Feed => StatChanges(Some(Min(100.0, p.health + 5.0)), Some(Max(0.0, p.hunger - 30.0)), None)
    case Water => StatChanges(Some(Min(100.0, p.health + 20.0)), None, Some(Min(100.0, p.happiness + 10.0)))
    case Play => StatChanges(None, Some(Min(100.0, p.hunger + 10.0)), Some(Min(100.0, p.happiness + 25.0)))
    case Talk => StatChanges(None, None, Some(Min(100.0, p.happiness + 5.0)))
  }

  /** The three timestamp fields of the pet. */
  datatype TimeField = LastFed | LastWatered | LastPlayed

  /** The timestamp an action refreshes: feed and water their own, everything else `lastPlayed`. */
  function StampedField(a: Action): (f: TimeField)
    ensures f == LastFed <==> a == Feed
    ensures f == LastWatered <==> a == Water
    ensures f == LastPlayed <==> (a.Play? || a.Talk?)
  {
    if a == Feed then LastFed else if a == Water then LastWatered else LastPlayed
  }

  function Merge(prev: real, change: Option<real>): real
  {
    if change.Some? then change.value else prev
  }

  /** The pet after an accepted action at instant `now`: changes merged, one timestamp stamped. */
  function ApplyAction(a: Action, p: Pet, now: int): (r: Pet)
    ensures r.name == p.name && r.growth == p.growth
    ensures r.lastFed == (if a == Feed then now else p.lastFed)
    ensures r.lastWatered == (if a == Water then now else p.lastWatered)
    ensures r.lastPlayed == (if a == Play || a == Talk then now else p.lastPlayed)
    ensures InRange(p) ==> InRange(r)
  {
    var c := Changes(a, p);
    var merged := p.(health := Merge(p.health, c.health),
                     hunger := Merge(p.hunger, c.hunger),
                     happiness := Merge(p.happiness, c.happiness));
    match StampedField(a)
    case LastFed => merged.(lastFed := now)
    case LastWatered => merged.(lastWatered := now)
    case LastPlayed => merged.(lastPlayed := now)
  }

  /** The signed gauge deltas of an action; a gauge an action does not name has delta 0. */
  datatype Deltas = Deltas(health: real, hunger: real, happiness: real)

  function Delta(a: Action): Deltas
  {
    match a
    case Feed => Deltas(5.0, -30.0, 0.0)
    case Water => Deltas(20.0, 0.0, 10.0)
    case Play => Deltas(0.0, 10.0, 25.0)
    case Talk => Deltas(0.0, 0.0, 5.0)
  }

  /**
   * On a pet inside the gauge invariant an action moves each gauge by the
   * table's delta, clamped to [0, 100]; the gauges the action does not name,
   * and growth, stay as they were.
   */
  lemma ApplyActionMatchesTable(a: Action, p: Pet, now: int)
    requires InRange(p)
    ensures var r := ApplyAction(a, p, now);
      && r.health == Clamp(p.health + Delta(a).health)
      && r.hunger == Clamp(p.hunger + Delta(a).hunger)
      && r.happiness == Clamp(p.happiness + Delta(a).happiness)
      && r.growth == p.growth
  {
  }

  // ---------------------------------------------------------------------------
  // Growth stage

  datatype Stage = Seed | Sprout | Growing | Blooming

  /** The stage shown for a growth gauge: thresholds 25, 50 and 75. */
  function GrowthStage(growth: real): (s: Stage)
    ensures s == Seed <==> growth < 25.0
    ensures s == Sprout <==> 25.0 <= growth < 50.0
    ensures s == Growing <==> 50.0 <= growth < 75.0
    ensures s == Blooming <==> 75.0 <= growth
  {
    if growth < 25.0 then Seed
    else if growth < 50.0 then Sprout
    else if growth < 75.0 then Growing
    else Blooming
  }

  function StageRank(s: Stage): nat
  {
    match s
    case Seed => 0
    case Sprout => 1
    case Growing => 2
    case Blooming => 3
  }

  /** More growth never shows an earlier stage. */
  lemma GrowthStageMonotone(g1: real, g2: real)
    requires g1 <= g2
    ensures StageRank(GrowthStage(g1)) <= StageRank(GrowthStage(g2))
  {
  }

  /** Growth never goes down under decay, so the stage never goes back while the pet is left alone. */
  lemma DecayNeverRegressesStage(p: Pet, now: int)
    requires InRange(p) && now >= p.lastFed
    ensures StageRank(GrowthStage(Decay(p, now).growth)) >= StageRank(GrowthStage(p.growth))
  {
    GrowthStageMonotone(p.growth, Decay(p, now).growth);
  }
}
