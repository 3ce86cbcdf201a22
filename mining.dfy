/**
 * Auto-mining runs: starting one stamps a fixed eight-hour window, and
 * settlement (`processAutoMining`) pays `level * 8` once the window has
 * ended, clearing it.
 */
module AutoMining {
  import opened Options
  import opened Accounts

  /** What `processAutoMining` returns: `{completed: false}` or `{completed: true, earned}`. */
  datatype MiningOutcome = NotCompleted | Completed(earned: int)

  datatype Settlement = Settlement(account: Account, outcome: MiningOutcome)

  /** The `earned` field as the user GET reports it (`earned || 0`). */
  function EarnedOrZero(o: MiningOutcome): (r: int)
    ensures o.NotCompleted? ==> r == 0
    ensures o.Completed? ==> r == o.earned
    ensures r != 0 ==> o == Completed(r)
  {
    if o.Completed? then o.earned else 0
  }

  /** Whether a run is due: the feature is owned, a window is set and its end has passed. */
  predicate RunDue(a: Account, now: int)
    ensures RunDue(a, now) ==> a.autoMiningLevel * PayoutHours >= PayoutHours
    ensures a.autoMiningStart.None? && WindowConsistent(a) ==> !RunDue(a, now)
  {
    a.autoMiningLevel > 0 && a.autoMiningEnd.Some? && now >= a.autoMiningEnd.value
  }

  /**
   * Settlement at `now`: a due run pays `level * PayoutHours` into both
   * balances and clears the window; anything else leaves the row as it is.
   */
  function Settle(a: Account, now: int): (s: Settlement)
    ensures s.outcome.Completed? <==> RunDue(a, now)
    ensures s.outcome.NotCompleted? ==> s.account == a
    ensures s.outcome.Completed? ==> s.outcome.earned == a.autoMiningLevel * PayoutHours > 0
    ensures s.account.coins == a.coins + EarnedOrZero(s.outcome)
    ensures s.account.totalCoins == a.totalCoins + EarnedOrZero(s.outcome)
    ensures s.outcome.Completed? ==> s.account.autoMiningStart.None? && s.account.autoMiningEnd.None?
    ensures s.account.(coins := a.coins, totalCoins := a.totalCoins,
                       autoMiningStart := a.autoMiningStart, autoMiningEnd := a.autoMiningEnd) == a
    ensures WindowConsistent(a) ==> WindowConsistent(s.account)
  {
    if RunDue(a, now) then
      var earned := a.autoMiningLevel * PayoutHours;
      Settlement(a.(coins := a.coins + earned, totalCoins := a.totalCoins + earned,
                    autoMiningStart := None, autoMiningEnd := None),
                 Completed(earned))
    else Settlement(a, NotCompleted)
  }

  /**
   * Starting a run at `now`: the window becomes `[now, now + 8 h]`, replacing
   * any window already there, whatever the account's level.
   */
  function Started(a: Account, now: int): (r: Account)
    ensures r.autoMiningStart == Some(now) && r.autoMiningEnd == Some(now + MiningDurationMs)
    ensures WindowConsistent(r)
    ensures r.(autoMiningStart := a.autoMiningStart, autoMiningEnd := a.autoMiningEnd) == a
  {
    a.(autoMiningStart := Some(now), autoMiningEnd := Some(now + MiningDurationMs))
  }

  /** A settled run cannot be settled again: the second claim pays nothing and changes nothing. */
  lemma SecondClaimPaysNothing(a: Account, now: int, later: int)
    requires Settle(a, now).outcome.Completed?
    ensures Settle(Settle(a, now).account, later) == Settlement(Settle(a, now).account, NotCompleted)
  {
  }

  /** A run started at `t` by an owner of level `L` pays `L * 8` exactly from `t + 8 h` on, and not before. */
  lemma RunPaysAtEnd(a: Account, t: int, now: int)
    requires a.autoMiningLevel > 0
    ensures Settle(Started(a, t), now).outcome ==
              if now >= t + MiningDurationMs then Completed(a.autoMiningLevel * PayoutHours) else NotCompleted
  {
  }

  /** Level 3, started at `T`, claimed at `T + 8 h + 1 s`: 24 coins, then nothing. */
  lemma ScenarioLevelThree(a: Account, t: int)
    requires a.autoMiningLevel == 3
    ensures Settle(Started(a, t), t + MiningDurationMs + 1000).outcome == Completed(24)
    ensures Settle(Settle(Started(a, t), t + MiningDurationMs + 1000).account, t + MiningDurationMs + 1000).outcome == NotCompleted
  {
  }

  /** Without a level a started run never pays, however long one waits. */
  lemma UnownedRunNeverPays(a: Account, t: int, now: int)
    requires a.autoMiningLevel <= 0
    ensures Settle(Started(a, t), now).outcome == NotCompleted
  {
  }

  /**
   * Starting again over a finished but unclaimed run discards it: the new
   * window has not ended, so the payout that was due is lost.
   */
  lemma RestartForfeitsUnclaimedRun(a: Account, now: int)
    requires RunDue(a, now)
    ensures Settle(Started(a, now), now).outcome == NotCompleted
    ensures Started(a, now).coins == a.coins
  {
  }

  /**
   * With consistent window columns, a run that pays has lasted at least the
   * full eight hours since it was started.
   */
  lemma DueRunLastedEightHours(a: Account, now: int)
    requires WindowConsistent(a) && RunDue(a, now)
    ensures a.autoMiningStart.Some? && now >= a.autoMiningStart.value + MiningDurationMs
  {
  }

  /** The result of claiming at each of the instants `times`, in order. */
  datatype Claims = Claims(account: Account, earned: int, completions: nat)

  function ClaimAll(a: Account, times: seq<int>): Claims
    decreases |times|
  {
    if times == [] then Claims(a, 0, 0)
    else
      var s := Settle(a, times[0]);
      var rest := ClaimAll(s.account, times[1..]);
      Claims(rest.account, EarnedOrZero(s.outcome) + rest.earned,
             (if s.outcome.Completed? then 1 else 0) + rest.completions)
  }

  /** With no window set, no sequence of claims pays or changes anything. */
  lemma {:induction false} IdleClaimsAreNoOps(a: Account, times: seq<int>)
    requires a.autoMiningEnd.None?
    ensures ClaimAll(a, times) == Claims(a, 0, 0)
    decreases |times|
  {
    if times != [] {
      IdleClaimsAreNoOps(a, times[1..]);
    }
  }

  /**
   * However many claims are made, one run pays at most once, and what is paid
   * is exactly `level * 8` per completion, credited to both balances.
   */
  lemma {:induction false} ClaimsPayAtMostOnce(a: Account, times: seq<int>)
    ensures ClaimAll(a, times).completions <= 1
    ensures ClaimAll(a, times).earned == ClaimAll(a, times).completions * a.autoMiningLevel * PayoutHours
    ensures ClaimAll(a, times).account.coins == a.coins + ClaimAll(a, times).earned
    ensures ClaimAll(a, times).account.totalCoins == a.totalCoins + ClaimAll(a, times).earned
    decreases |times|
  {
    if times != [] {
      var s := Settle(a, times[0]);
      if s.outcome.Completed? {
        IdleClaimsAreNoOps(s.account, times[1..]);
      } else {
        ClaimsPayAtMostOnce(a, times[1..]);
      }
    }
  }
}
