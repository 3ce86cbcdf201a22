/**
 * The two tables of the game economy, with the database replaced by values:
 * one `Account` per row of `users` and the `referrals` table as a map from
 * the referred account to its referrer (`referred_id` is unique). Instants
 * are integer milliseconds.
 */
module Accounts {
  import opened Options

  /** The operator allowed to run administrative commands. */
  const AdminId: int := 1101048962

  /** Column defaults of the `users` table. */
  const DefaultCoins: int := 0
  const DefaultTotalCoins: int := 0
  const DefaultClickPower: int := 1
  const DefaultBoostLevel: int := 1
  const DefaultEnergy: int := 1000
  const DefaultMaxEnergy: int := 1000
  const DefaultEnergyLevel: int := 1
  const DefaultAutoMiningLevel: int := 0

  /** Energy reported for an account the store does not know. */
  const UnknownUserEnergy: int := 1000

  /** Bonus paid to a referrer, in coins. */
  const ReferralBonus: int := 5000

  /** Fixed "hours elapsed" multiplier of the auto-mining payout. */
  const PayoutHours: int := 8

  /** Length of an auto-mining run: 8 hours in milliseconds. */
  const MiningDurationMs: int := 8 * 60 * 60 * 1000

  const MsPerSecond: int := 1000

  function Min(x: int, y: int): int {
    if x <= y then x else y
  }

  /** One row of `users`. Nullable timestamp columns are options. */
  datatype Account = Account(
    username: string,
    coins: int,
    totalCoins: int,
    clickPower: int,
    boostLevel: int,
    energy: int,
    maxEnergy: int,
    energyLevel: int,
    lastEnergyUpdate: int,
    autoMiningLevel: int,
    autoMiningStart: Option<int>,
    autoMiningEnd: Option<int>,
    lastDaily: Option<int>,
    referrerId: Option<int>,
    createdAt: int)

  /** The economic columns: those an administrative reset restores. */
  datatype Profile = Profile(
    coins: int,
    totalCoins: int,
    clickPower: int,
    boostLevel: int,
    energy: int,
    maxEnergy: int,
    energyLevel: int,
    autoMiningLevel: int)

  /**
   * The economic state of a fresh row; the user GET falls back to the same
   * object for an account the store does not know.
   */
  const DefaultProfile: Profile := Profile(
    DefaultCoins, DefaultTotalCoins, DefaultClickPower, DefaultBoostLevel,
    DefaultEnergy, DefaultMaxEnergy, DefaultEnergyLevel, DefaultAutoMiningLevel)

  function ProfileOf(a: Account): Profile {
    Profile(a.coins, a.totalCoins, a.clickPower, a.boostLevel,
            a.energy, a.maxEnergy, a.energyLevel, a.autoMiningLevel)
  }

  /**
   * The auto-mining window columns are written together: either both are
   * null, or the end lies exactly one run length after the start.
   */
  predicate WindowConsistent(a: Account) {
    || (a.autoMiningStart.None? && a.autoMiningEnd.None?)
    || (a.autoMiningStart.Some? && a.autoMiningEnd.Some?
        && a.autoMiningEnd.value == a.autoMiningStart.value + MiningDurationMs)
  }

  /** Both tables. */
  datatype Tables = Tables(users: map<int, Account>, referrals: map<int, int>)

  /** What every operation keeps: consistent windows, and only registered accounts are referred. */
  predicate TablesValid(t: Tables) {
    && (forall id :: id in t.users ==> WindowConsistent(t.users[id]))
    && t.referrals.Keys <= t.users.Keys
  }

  /** The row inserted on first contact: only `user_id` and `username` are given, the rest are defaults. */
  function NewAccount(username: string, now: int): (r: Account)
    ensures ProfileOf(r) == DefaultProfile
    ensures r.username == username && r.createdAt == now && r.lastEnergyUpdate == now
    ensures r.autoMiningEnd.None? && WindowConsistent(r)
    ensures r.referrerId.None? && r.lastDaily.None?
    ensures r.energy <= r.maxEnergy
  {
    Account(username, DefaultCoins, DefaultTotalCoins, DefaultClickPower, DefaultBoostLevel,
            DefaultEnergy, DefaultMaxEnergy, DefaultEnergyLevel, now,
            DefaultAutoMiningLevel, None, None, None, None, now)
  }

  /**
   * The administrative reset: the economic columns and the auto-mining window
   * go back to those of a fresh row, while the name, the referrer, the energy
   * clock, the daily stamp and the creation time stay.
   */
  function ResetEconomy(a: Account): (r: Account)
    ensures ProfileOf(r) == DefaultProfile && WindowConsistent(r)
    ensures r == NewAccount(a.username, a.createdAt).(
      lastEnergyUpdate := a.lastEnergyUpdate, lastDaily := a.lastDaily, referrerId := a.referrerId)
  {
    a.(coins := 0, totalCoins := 0, clickPower := 1, boostLevel := 1,
       energy := 1000, maxEnergy := 1000, energyLevel := 1, autoMiningLevel := 0,
       autoMiningStart := None, autoMiningEnd := None)
  }

  /**
   * A tap as the client reports it: the balance and the energy are taken
   * verbatim, the lifetime total rises by the reported click power and the
   * energy clock restarts.
   */
  function Tapped(a: Account, coins: int, energy: int, clickPower: int, now: int): (r: Account)
    ensures r.totalCoins - a.totalCoins == clickPower
    ensures r.coins == coins && r.energy == energy && r.lastEnergyUpdate == now
    ensures r.(coins := a.coins, totalCoins := a.totalCoins, energy := a.energy,
               lastEnergyUpdate := a.lastEnergyUpdate) == a
    ensures WindowConsistent(a) ==> WindowConsistent(r)
  {
    a.(coins := coins, totalCoins := a.totalCoins + clickPower, energy := energy, lastEnergyUpdate := now)
  }

  /** A referral credit: the bonus is added to both balances. */
  function Credited(a: Account): (r: Account)
    ensures r.coins == a.coins + ReferralBonus && r.totalCoins == a.totalCoins + ReferralBonus
    ensures r.(coins := a.coins, totalCoins := a.totalCoins) == a
    ensures WindowConsistent(a) ==> WindowConsistent(r)
  {
    a.(coins := a.coins + ReferralBonus, totalCoins := a.totalCoins + ReferralBonus)
  }
}
