/**
 * The bot's handlers as state transitions of one in-memory store holding the
 * `users` and `referrals` tables. Each method is one handler's read-compute-
 * write on a row, taken as atomic.
 */
module Handlers {
  import opened Options
  import opened Accounts
  import opened Energy
  import opened AutoMining
  import opened Referral

  /** Reply of the claim endpoint. */
  datatype ClaimResponse = Claimed(earned: int, coins: int, totalCoins: int) | NotReady

  /**
   * Body of the user GET: the economic columns (those of the stored row, or
   * the default object for an unknown id), the row itself when there is one,
   * and what settlement reported.
   */
  datatype UserView = UserView(profile: Profile, account: Option<Account>,
                               autoMiningCompleted: bool, autoMiningEarned: int)

  /** What the user GET does to a row: regenerate energy, then settle auto-mining. */
  function Observe(a: Account, now: int): (s: Settlement)
    ensures a.energy <= a.maxEnergy ==> a.energy <= s.account.energy <= a.maxEnergy
    ensures s.account.totalCoins >= a.totalCoins
    ensures WindowConsistent(a) ==> WindowConsistent(s.account)
  {
    Settle(Regenerate(a, now), now)
  }

  /** Observing twice at the same instant is observing once: the second pass finds nothing to add or pay. */
  lemma ObserveIdempotent(a: Account, now: int)
    ensures Observe(Observe(a, now).account, now) == Settlement(Observe(a, now).account, NotCompleted)
  {
  }

  class Store {
    var users: map<int, Account>
    var referrals: map<int, int>

    /**
     * The store's invariant: every row's window columns are null together or
     * set eight hours apart, and only registered accounts are referred. A
     * claim relies on it to pay only after eight hours of mining.
     */
    ghost predicate Valid()
      reads this
    {
      TablesValid(Tables(users, referrals))
    }

    constructor ()
      ensures Valid() && users == map[] && referrals == map[]
    {
      users := map[];
      referrals := map[];
    }

    /** `updateEnergy`: regenerates the row's energy and returns it; 1000 for an unknown id. */
    method UpdateEnergy(userId: int, now: int) returns (energy: int)
      requires Valid()
      modifies this
      ensures Valid() && referrals == old(referrals)
      ensures userId in old(users) ==>
                users == old(users)[userId := Regenerate(old(users)[userId], now)] && energy == users[userId].energy
      ensures userId !in old(users) ==> users == old(users) && energy == UnknownUserEnergy
    {
      if userId !in users {
        return UnknownUserEnergy;
      }
      var user := users[userId];
      var secondsPassed := SecondsElapsed(user.lastEnergyUpdate, now);
      var energyToAdd := Min(secondsPassed, user.maxEnergy - user.energy);
      if energyToAdd > 0 {
        var newEnergy := Min(user.energy + energyToAdd, user.maxEnergy);
        users := users[userId := user.(energy := newEnergy, lastEnergyUpdate := now)];
        return newEnergy;
      }
      return user.energy;
    }

    /** `processAutoMining`: settles a due run of the row and reports it. */
    method ProcessAutoMining(userId: int, now: int) returns (outcome: MiningOutcome)
      requires Valid()
      modifies this
      ensures Valid() && referrals == old(referrals)
      ensures userId in old(users) ==>
                users == old(users)[userId := Settle(old(users)[userId], now).account]
                && outcome == Settle(old(users)[userId], now).outcome
      ensures userId !in old(users) ==> users == old(users) && outcome == NotCompleted
    {
      if userId in users {
        var user := users[userId];
        if user.autoMiningLevel > 0 && user.autoMiningEnd.Some? {
          if now >= user.autoMiningEnd.value {
            var hoursElapsed := PayoutHours;
            var coinsEarned := user.autoMiningLevel * hoursElapsed;
            users := users[userId := user.(coins := user.coins + coinsEarned,
                                           totalCoins := user.totalCoins + coinsEarned,
                                           autoMiningStart := None, autoMiningEnd := None)];
            return Completed(coinsEarned);
          }
        }
      }
      return NotCompleted;
    }

    /**
     * `/start`: inserts the sender's row if absent, then, when the code is
     * neither empty nor the sender's own id as text, inserts a referrals row
     * unless one exists and on success credits the referrer.
     */
    method Start(userId: int, username: string, argument: string, parsedReferrer: Option<int>, now: int)
      returns (recorded: bool)
      requires Valid()
      modifies this
      ensures Valid()
      ensures var reg := RegisterAsWritten(Tables(old(users), old(referrals)), userId,
                                           StartRequest(username, argument, parsedReferrer, now));
              users == reg.tables.users && referrals == reg.tables.referrals && recorded == reg.recorded
    {
      var referralCode := ReferralCode(argument);
      ghost var reg := RegisterWith(Tables(users, referrals), userId, username, now,
                                    ReferrerAsWritten(userId, referralCode, parsedReferrer));
      if userId !in users {
        users := users[userId := NewAccount(username, now)];
      }
      recorded := false;
      if referralCode != "" && referralCode != DecimalString(userId) && parsedReferrer.Some? {
        var referrerId := parsedReferrer.value;
        if userId !in referrals {
          referrals := referrals[userId := referrerId];
          recorded := true;
          if referrerId in users {
            users := users[referrerId := Credited(users[referrerId])];
          }
        }
      }
      assert users == reg.tables.users && referrals == reg.tables.referrals && recorded == reg.recorded;
    }

    /** `/reset <id>`: for the operator only, restores the target row's economic columns. */
    method Reset(callerId: int, targetId: int) returns (authorized: bool)
      requires Valid()
      modifies this
      ensures Valid() && referrals == old(referrals)
      ensures authorized <==> callerId == AdminId
      ensures users == if authorized && targetId in old(users)
                       then old(users)[targetId := ResetEconomy(old(users)[targetId])]
                       else old(users)
    {
      if callerId != AdminId {
        return false;
      }
      if targetId in users {
        users := users[targetId := ResetEconomy(users[targetId])];
      }
      return true;
    }

    /** GET of a user: regenerates energy, settles auto-mining, then reads the row or the default object. */
    method GetUser(userId: int, now: int) returns (view: UserView)
      requires Valid()
      modifies this
      ensures Valid() && referrals == old(referrals)
      ensures userId in old(users) ==>
                && users == old(users)[userId := Observe(old(users)[userId], now).account]
                && view == UserView(ProfileOf(users[userId]), Some(users[userId]),
                                    Observe(old(users)[userId], now).outcome.Completed?,
                                    EarnedOrZero(Observe(old(users)[userId], now).outcome))
      ensures userId !in old(users) ==> users == old(users) && view == UserView(DefaultProfile, None, false, 0)
    {
      var _ := UpdateEnergy(userId, now);
      var autoMining := ProcessAutoMining(userId, now);
      if userId in users {
        var user := users[userId];
        view := UserView(ProfileOf(user), Some(user), autoMining.Completed?, EarnedOrZero(autoMining));
      } else {
        view := UserView(DefaultProfile, None, autoMining.Completed?, EarnedOrZero(autoMining));
      }
    }

    /** Tap: takes the reported balance and energy, adds the click power to the total, restarts the energy clock. */
    method Tap(userId: int, coins: int, energy: int, clickPower: int, now: int)
      requires Valid()
      modifies this
      ensures Valid() && referrals == old(referrals)
      ensures users == if userId in old(users)
                       then old(users)[userId := Tapped(old(users)[userId], coins, energy, clickPower, now)]
                       else old(users)
    {
      if userId in users {
        users := users[userId := Tapped(users[userId], coins, energy, clickPower, now)];
      }
    }

    /** Click-power upgrade: overwrites the balance, the boost level and the click power. */
    method Upgrade(userId: int, coins: int, boostLevel: int, clickPower: int)
      requires Valid()
      modifies this
      ensures Valid() && referrals == old(referrals)
      ensures users == if userId in old(users)
                       then old(users)[userId := old(users)[userId].(coins := coins, boostLevel := boostLevel,
                                                                     clickPower := clickPower)]
                       else old(users)
    {
      if userId in users {
        users := users[userId := users[userId].(coins := coins, boostLevel := boostLevel, clickPower := clickPower)];
      }
    }

    /** Energy upgrade: overwrites the balance, the energy level and the capacity. */
    method UpgradeEnergy(userId: int, coins: int, energyLevel: int, maxEnergy: int)
      requires Valid()
      modifies this
      ensures Valid() && referrals == old(referrals)
      ensures users == if userId in old(users)
                       then old(users)[userId := old(users)[userId].(coins := coins, energyLevel := energyLevel,
                                                                     maxEnergy := maxEnergy)]
                       else old(users)
    {
      if userId in users {
        users := users[userId := users[userId].(coins := coins, energyLevel := energyLevel, maxEnergy := maxEnergy)];
      }
    }

    /** Auto-mining purchase: overwrites the balance and the level. */
    method BuyAutoMining(userId: int, coins: int, autoMiningLevel: int)
      requires Valid()
      modifies this
      ensures Valid() && referrals == old(referrals)
      ensures users == if userId in old(users)
                       then old(users)[userId := old(users)[userId].(coins := coins, autoMiningLevel := autoMiningLevel)]
                       else old(users)
    {
      if userId in users {
        users := users[userId := users[userId].(coins := coins, autoMiningLevel := autoMiningLevel)];
      }
    }

    /**
     * Start of an auto-mining run: stamps the window from `now` to `now + 8 h`
     * and returns its end. The level in the request is not used.
     */
    method StartAutoMining(userId: int, autoMiningLevel: int, now: int) returns (endTime: int)
      requires Valid()
      modifies this
      ensures Valid() && referrals == old(referrals)
      ensures endTime == now + MiningDurationMs
      ensures users == if userId in old(users) then old(users)[userId := Started(old(users)[userId], now)] else old(users)
    {
      var startTime := now;
      endTime := startTime + 8 * 60 * 60 * 1000;
      if userId in users {
        users := users[userId := users[userId].(autoMiningStart := Some(startTime), autoMiningEnd := Some(endTime))];
      }
    }

    /** Claim of an auto-mining run: settles it and, when it paid, replies with the new balances. */
    method ClaimAutoMining(userId: int, now: int) returns (response: ClaimResponse)
      requires Valid()
      modifies this
      ensures Valid() && referrals == old(referrals)
      ensures response.Claimed? <==> userId in old(users) && RunDue(old(users)[userId], now)
      ensures response.Claimed? ==>
                && response.earned == old(users)[userId].autoMiningLevel * PayoutHours
                && response.coins == old(users)[userId].coins + response.earned
                && response.totalCoins == old(users)[userId].totalCoins + response.earned
                && old(users)[userId].autoMiningStart.Some?
                && now >= old(users)[userId].autoMiningStart.value + MiningDurationMs
      ensures userId in old(users) ==> users == old(users)[userId := Settle(old(users)[userId], now).account]
      ensures userId !in old(users) ==> users == old(users)
    {
      if userId in users && RunDue(users[userId], now) {
        DueRunLastedEightHours(users[userId], now);
      }
      var result := ProcessAutoMining(userId, now);
      if result.Completed? {
        var user := users[userId];
        response := Claimed(result.earned, user.coins, user.totalCoins);
      } else {
        response := NotReady;
      }
    }
  }

  /** A claim right after a successful claim is refused and leaves the balances as the first one set them. */
  method ClaimTwice(store: Store, userId: int, now: int) returns (first: ClaimResponse, second: ClaimResponse)
    requires store.Valid()
    modifies store
    ensures store.Valid()
    ensures first.Claimed? ==> second == NotReady && userId in store.users
                               && store.users[userId].coins == first.coins && store.users[userId].totalCoins == first.totalCoins
  {
    first := store.ClaimAutoMining(userId, now);
    second := store.ClaimAutoMining(userId, now);
  }
}
