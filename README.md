# Pet garden simulation: a verified model

This project models the simulation state machine of the pet garden
component (`PetGardenSim` in `src/App.jsx`): a virtual pet whose four gauges
(health, hunger, happiness, growth) decay with elapsed time and are replenished
by four rate-limited actions (feed, water, play, talk).

- `pet_state.dfy`, module `PetState`. This module is pure. It holds the pet record, the initial pet, the
  decay tick (`Decay`), the per-action stat changes and the timestamp selector
  (`Changes`, `StampedField`, `ApplyAction`) and the growth-stage classifier
  (`GrowthStage`).
- `cooldowns.dfy`, module `Cooldowns`. This module holds the cooldown map (action to remaining
  seconds), the gate (`OnCooldown`), the fixed durations (`CooldownOf`), the
  cooldown tick as a specification (`Ticked`) and as the loop the source runs
  (`Decrement`), and the restart of an entry after an accepted action.
- `garden.dfy`, module `GardenSim`. The class `Garden` holds the component's three
  state cells (`pet`, `cooldowns`, `message`) and its three entry points
  (`Tick`, `CooldownTick`, `Perform`). Three scenario methods follow it.

Gauges are exact `real`s. Timestamps are integer milliseconds. Elapsed hours are
`(now - lastFed) / 3 600 000`. The host clock is the parameter `now`.

Decay is measured from `lastFed` only, and a tick does not move `lastFed`.
So every tick re-applies the whole drift since the last feed, and the drift
accumulates from tick to tick:
- `DecayAccumulates` proves that after a run of ticks each gauge has moved by its rate
  times the sum of the hours-since-feed seen at each tick.
- Ticks are not idempotent: a second tick at the same instant decays again
  (`RepeatedTickDecaysAgain`). One tick an hour after the start gives health 68,
  and a second tick at that same instant gives 66 (`OneHourUntended`).

Each gauge is clamped only on the side it moves towards. On pets whose gauges
are all in [0, 100] this equals the two-sided [0, 100] clamp
(`DecayIsClampedDrift`, `ApplyActionMatchesTable`).

`Garden.Tick` requires `now >= pet.lastFed`. The code does not check this. It
is what a non-decreasing host clock guarantees, and without it a negative
elapsed time would push gauges the other way.

## Model

| member | source | states |
|---|---|---|
| PetState.InitialPet | src/App.jsx:6-15 | the starting pet has every gauge in [0, 100], shows the Seed stage, and has all three timestamps at the start instant |
| PetState.HoursSinceFed | src/App.jsx:24-25 | elapsed hours are non-negative when the clock is not behind the last feed, zero at the feed instant, and exactly 1 after 3 600 000 ms |
| PetState.Decay | src/App.jsx:23-33 | a tick keeps the name and all three timestamps (`lastFed` included); on an in-range pet with `now >= lastFed` it keeps every gauge in [0, 100], never raises health or happiness, never lowers hunger or growth, and at `now == lastFed` changes nothing |
| PetState.DecayIsClampedDrift | src/App.jsx:27-33 | on an in-range pet the one-sided clamps equal the two-sided [0, 100] clamp of health −2/h, hunger +3/h, happiness −1/h, growth +0.5/h |
| PetState.DecayAccumulates | src/App.jsx:23-33 | after any run of ticks with no feed, each gauge equals its start value moved by its rate times the SUM of hours-since-feed over all ticks, clamped; name and timestamps are unchanged |
| PetState.RepeatedTickDecaysAgain | src/App.jsx:24-29 | a second tick at the same instant lowers health again whenever time has passed since the last feed and health is not yet 0 (ticks are not idempotent) |
| PetState.Changes | src/App.jsx:78-101 | feed names health and hunger, water health and happiness, play hunger and happiness, talk happiness only; on an in-range pet every named value is in [0, 100] (the values themselves are pinned by `ApplyActionMatchesTable`) |
| PetState.StampedField | src/App.jsx:66 | feed selects `lastFed`, water `lastWatered`, and both play and talk `lastPlayed` (each an if-and-only-if) |
| PetState.ApplyAction | src/App.jsx:63-67 | an accepted action keeps name and growth; feed stamps `lastFed`, water `lastWatered`, play and talk both `lastPlayed`, and the other two timestamps stay; gauges stay in [0, 100] |
| PetState.ApplyActionMatchesTable | src/App.jsx:77-102 | on an in-range pet each gauge becomes the [0, 100] clamp of itself plus the action's table delta (feed: health +5, hunger −30; water: health +20, happiness +10; play: happiness +25, hunger +10; talk: happiness +5; 0 elsewhere), and growth is unchanged |
| PetState.GrowthStage | src/App.jsx:105-110 | Seed exactly when growth < 25, Sprout exactly when 25 ≤ growth < 50, Growing exactly when 50 ≤ growth < 75, Blooming exactly when growth ≥ 75 |
| PetState.GrowthStageMonotone | src/App.jsx:105-110 | more growth never gives an earlier stage |
| PetState.DecayNeverRegressesStage | src/App.jsx:32 | a decay tick on an in-range pet never moves the growth stage back |
| Cooldowns.CooldownOf | src/App.jsx:77-102 | every action's fixed cooldown is positive (feed 120, water 240, play 60, talk 10 seconds) |
| Cooldowns.OnCooldown | src/App.jsx:58 | a missing key is never blocked; on a map with no negative entry an action is blocked exactly when its entry is present and non-zero (its use is pinned by `Perform` and `RetryBlockedUntilExpiry`) |
| Cooldowns.Ticked | src/App.jsx:43-50 | a cooldown tick keeps the key set, takes every positive entry down by exactly 1, leaves entries ≤ 0 alone, and keeps a non-negative map non-negative |
| Cooldowns.Decrement | src/App.jsx:44-50 | the copy-then-walk-the-keys loop yields exactly the ticked map |
| Cooldowns.Restart | src/App.jsx:69-72 | after an accepted action its entry is its fixed duration (so it is now on cooldown), the key set gains only that action, and every other entry is unchanged |
| Cooldowns.TickedNAt | src/App.jsx:43-50 | a non-negative entry after n ticks is its start value minus n while that is positive, and then exactly 0, never negative |
| Cooldowns.TickedNKeys | src/App.jsx:44-49 | no number of ticks adds or removes a key |
| Cooldowns.RetryBlockedUntilExpiry | src/App.jsx:57-72 | k ticks after an accepted action, the same action is blocked if and only if k is below its duration, reporting duration − k seconds; from the full duration on the entry is exactly 0 and the action is available |
| GardenSim.Garden.constructor | src/App.jsx:6-18 | a new garden holds the initial pet, an empty cooldown map and the greeting, and satisfies the state invariant |
| GardenSim.Garden.Tick | src/App.jsx:21-35 | the pet becomes its decay at `now`; cooldowns and message are untouched; the gauge invariant is kept |
| GardenSim.Garden.CooldownTick | src/App.jsx:41-52 | the cooldown map becomes its tick; the pet and message are untouched; no entry becomes negative |
| GardenSim.Garden.Perform | src/App.jsx:57-75 | an action on cooldown reports its remaining seconds and leaves pet and the whole cooldown map unchanged; otherwise the pet gets the action's changes and timestamp, the action's cooldown restarts, and the message says it was accepted; the invariant is kept |
| GardenSim.FeedThenRetry | src/App.jsx:77-82 | feeding a fresh garden gives hunger 10, health 75 and a 120 s feed cooldown; one cooldown tick later a second feed is blocked with 119 s left, leaves the pet unchanged and leaves the cooldown map at exactly feed 119 |
| GardenSim.OneHourUntended | src/App.jsx:23-33 | one tick an hour after the start gives health 68, hunger 43, happiness 59, growth 0.5; a second tick at the same instant gives health 66, hunger 46, happiness 58, growth 1 |
| GardenSim.WaterNearFullHealth | src/App.jsx:84-89 | watering at health 95 caps health at 100 and still adds 10 happiness |

## Left out

- JSX rendering is not modelled: `StatBar`, `ActionButton`, colours, icons, emoji, display rounding and the bar-width clamp are presentation only.
- The button `disabled` flag is left out. It repeats the cooldown gate that `Perform` models.
- The unhealthy/happy background choice is left out. It only picks a colour.
- Timer scheduling is left out: `setInterval`, `clearInterval` and the effect lifecycle. Each tick is an explicit call of `Tick` or `CooldownTick`.
- `Date.now()` is the parameter `now`. The three separate clock reads in the initial pet are modelled as one start instant.
- Batched, asynchronous state updates and stale closures are left out. The handlers compute stat changes from the rendered pet, and the merge uses the latest pet; in this sequential model the two are the same state.
- Floating-point rounding is left out. Gauges and hours are exact reals.
- Message texts are left out. The last message is the `Message` datatype (greeting, accepted action, or blocked action with remaining seconds).
- Unknown action names cannot occur. The action vocabulary is a closed datatype, so the source's fall-through to `lastPlayed` for any other name has no counterpart.
