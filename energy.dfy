/**
 * Energy regeneration (`updateEnergy`): one unit per whole second elapsed
 * since the energy clock was last written, never above the capacity, and
 * written back only when something is added.
 */
module Energy {
  import opened Accounts

  /** Whole seconds from `last` to `now`, rounded down as `Math.floor` does. */
  function SecondsElapsed(last: int, now: int): (s: int)
    ensures s * MsPerSecond <= now - last < (s + 1) * MsPerSecond
  {
    // Dafny's division is Euclidean, which rounds down for a positive divisor.
    (now - last) / MsPerSecond
  }

  /** Whether regeneration has anything to add: a whole second has passed and there is room below the cap. */
  predicate Regenerates(a: Account, now: int) {
    SecondsElapsed(a.lastEnergyUpdate, now) > 0 && a.energy < a.maxEnergy
  }

  /**
   * The account after regeneration at `now`: capped accrual when something is
   * added, otherwise the row untouched, energy clock included.
   */
  function Regenerate(a: Account, now: int): (r: Account)
    ensures r.(energy := a.energy, lastEnergyUpdate := a.lastEnergyUpdate) == a
    ensures r == a <==> !Regenerates(a, now)
    ensures r != a ==> r.lastEnergyUpdate == now
    ensures r != a ==> r.energy == a.energy + Min(SecondsElapsed(a.lastEnergyUpdate, now), a.maxEnergy - a.energy)
    ensures a.energy <= a.maxEnergy ==> a.energy <= r.energy <= a.maxEnergy
    ensures now < a.lastEnergyUpdate + MsPerSecond ==> r == a
    ensures WindowConsistent(a) ==> WindowConsistent(r)
  {
    if Regenerates(a, now) then
      a.(energy := Min(a.energy + SecondsElapsed(a.lastEnergyUpdate, now), a.maxEnergy),
         lastEnergyUpdate := now)
    else a
  }

  /** Regeneration at the instant of the last write adds nothing: observing twice at once is observing once. */
  lemma RegenerateIdempotent(a: Account, now: int)
    ensures Regenerate(Regenerate(a, now), now) == Regenerate(a, now)
  {
  }

  /** A tap restarts the energy clock, so regeneration at the same instant writes nothing. */
  lemma TapRestartsRegeneration(a: Account, coins: int, energy: int, clickPower: int, now: int)
    ensures Regenerate(Tapped(a, coins, energy, clickPower, now), now) == Tapped(a, coins, energy, clickPower, now)
  {
  }

  /** Energy 500 of 1000, last written 100 s ago: regeneration yields 600. */
  lemma RegenerateHalfFull(a: Account, now: int)
    requires a.energy == 500 && a.maxEnergy == 1000 && now == a.lastEnergyUpdate + 100_000
    ensures Regenerate(a, now).energy == 600
  {
  }

  /** Energy 950 of 1000, last written 100 s ago: regeneration stops at the cap. */
  lemma RegenerateNearlyFull(a: Account, now: int)
    requires a.energy == 950 && a.maxEnergy == 1000 && now == a.lastEnergyUpdate + 100_000
    ensures Regenerate(a, now).energy == 1000
  {
  }

  /** The account after one observation at each of the instants `times`, in order. */
  function PollAll(a: Account, times: seq<int>): Account
    decreases |times|
  {
    if times == [] then a else PollAll(Regenerate(a, times[0]), times[1..])
  }

  predicate Ascending(times: seq<int>) {
    forall i, j :: 0 <= i < j < |times| ==> times[i] <= times[j]
  }

  /**
   * One regeneration step does not gain on a single later observation: the
   * write restarts the clock at `t` and drops the fraction of a second.
   */
  lemma StepNoGain(a: Account, t: int, T: int)
    requires a.energy <= a.maxEnergy && t <= T
    ensures Regenerate(Regenerate(a, t), T).energy <= Regenerate(a, T).energy
  {
  }

  /**
   * Observing energy several times never yields more than observing it once
   * at the last instant, and never less than the starting energy: polling
   * frequency can only lose the fractions of a second each write drops.
   */
  lemma {:induction false} PollingNeverBeatsOnePoll(a: Account, times: seq<int>)
    requires a.energy <= a.maxEnergy
    requires times != [] && Ascending(times)
    ensures a.energy <= PollAll(a, times).energy
    ensures PollAll(a, times).energy <= Regenerate(a, times[|times| - 1]).energy <= a.maxEnergy
    decreases |times|
  {
    var b := Regenerate(a, times[0]);
    if |times| > 1 {
      var rest := times[1..];
      assert Ascending(rest);
      assert rest[|rest| - 1] == times[|times| - 1];
      PollingNeverBeatsOnePoll(b, rest);
      StepNoGain(a, times[0], times[|times| - 1]);
    }
  }

  /** Polling at 1.5 s and 3 s from empty yields 2 units where one poll at 3 s yields 3. */
  lemma PollingLosesFractions(a: Account)
    requires a.energy == 0 && a.maxEnergy == 1000 && a.lastEnergyUpdate == 0
    ensures PollAll(a, [1500, 3000]).energy == 2
    ensures Regenerate(a, 3000).energy == 3
  {
  }
}
