/**
 * Per-action cooldowns: a map from action to remaining seconds. A missing key,
 * or a value that is not above zero, means the action is available. A
 * once-per-second tick counts every positive entry down by one; an accepted
 * action restarts its own entry at the action's fixed duration.
 */
module Cooldowns {
  import opened PetState

  type CooldownMap = map<Action, int>

  /** The fixed cooldown, in seconds, each action starts when it is accepted. */
  function CooldownOf(a: Action): (secs: nat)
    ensures secs > 0
  {
    match a
    case Feed => 120
    case Water => 240
    case Play => 60
    case Talk => 10
  }

  /** The gate: an action is blocked exactly when its entry is present and above zero. */
  predicate OnCooldown(cd: CooldownMap, a: Action): (blocked: bool)
    ensures a !in cd ==> !blocked
    ensures NonNegative(cd) ==> (blocked <==> a in cd && cd[a] != 0)
  {
    a in cd && cd[a] > 0
  }

  /** Cooldown state invariant: no entry is negative. */
  predicate NonNegative(cd: CooldownMap)
  {
    forall a :: a in cd ==> cd[a] >= 0
  }

  /** One entry after a cooldown tick. */
  function TickedEntry(v: int): int
  {
    if v > 0 then v - 1 else v
  }

  /** The cooldown map after one tick. */
  function Ticked(cd: CooldownMap): (r: CooldownMap)
    ensures r.Keys == cd.Keys
    ensures forall a :: a in cd && cd[a] > 0 ==> r[a] == cd[a] - 1
    ensures forall a :: a in cd && cd[a] <= 0 ==> r[a] == cd[a]
    ensures NonNegative(cd) ==> NonNegative(r)
  {
    map a | a in cd :: TickedEntry(cd[a])
  }

  /**
   * The tick as the source runs it: copy the map, then walk its keys and
   * decrement each positive entry in the copy.
   */
  method Decrement(prev: CooldownMap) returns (updated: CooldownMap)
    ensures updated == Ticked(prev)
  {
    updated := prev;
    var pending := prev.Keys;
    while pending != {}
      invariant pending <= prev.Keys
      invariant updated.Keys == prev.Keys
      invariant forall a :: a in prev && a !in pending ==> updated[a] == TickedEntry(prev[a])
      invariant forall a :: a in pending ==> updated[a] == prev[a]
      decreases pending
    {
      var a :| a in pending;
      if updated[a] > 0 {
        updated := updated[a := updated[a] - 1];
      }
      pending := pending - {a};
    }
  }

  /** The map after an accepted action: its entry restarts at the fixed duration. */
  function Restart(cd: CooldownMap, a: Action): (r: CooldownMap)
    ensures r.Keys == cd.Keys + {a}
    ensures r[a] == CooldownOf(a) && OnCooldown(r, a)
    ensures forall b :: b in cd && b != a ==> r[b] == cd[b]
    ensures NonNegative(cd) ==> NonNegative(r)
  {
    cd[a := CooldownOf(a)]
  }

  /** The map after `n` cooldown ticks. */
  function TickedN(cd: CooldownMap, n: nat): CooldownMap
    decreases n
  {
    if n == 0 then cd else TickedN(Ticked(cd), n - 1)
  }

  /**
   * A non-negative entry counts down one per tick and then stays at zero: after
   * `n` ticks it is the larger of zero and its start value minus `n`.
   */
  lemma {:induction false} TickedNAt(cd: CooldownMap, a: Action, n: nat)
    requires a in cd && cd[a] >= 0
    ensures var r := TickedN(cd, n); a in r && r[a] == if cd[a] >= n then cd[a] - n else 0
    decreases n
  {
    if n > 0 {
      TickedNAt(Ticked(cd), a, n - 1);
    }
  }

  /** Ticks never add or remove a key. */
  lemma {:induction false} TickedNKeys(cd: CooldownMap, n: nat)
    ensures TickedN(cd, n).Keys == cd.Keys
    decreases n
  {
    if n > 0 {
      TickedNKeys(Ticked(cd), n - 1);
    }
  }

  /**
   * After an action is accepted and `k` cooldown ticks go by, a retry of the
   * same action is blocked exactly while `k` is below the action's duration,
   * and the seconds it reports are the duration minus `k`; after the full
   * duration the entry is exactly zero.
   */
  lemma RetryBlockedUntilExpiry(cd: CooldownMap, a: Action, k: nat)
    ensures var r := TickedN(Restart(cd, a), k);
      && a in r
      && (OnCooldown(r, a) <==> k < CooldownOf(a))
      && (k < CooldownOf(a) ==> r[a] == CooldownOf(a) - k)
      && (k >= CooldownOf(a) ==> r[a] == 0)
  {
    TickedNAt(Restart(cd, a), a, k);
  }
}
