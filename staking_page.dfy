/**
 * The staking page of app/staking/page.tsx: the reward-rate table shown as an
 * estimate, the checks made before staking, the first-stake achievement, and the
 * countdown to the pooled stake's maturity.
 */
module StakingPage {
  import opened Wrappers
  import opened Progress
  import opened UserStore

  /** The three period buttons; the page offers no other duration. */
  datatype Duration = SevenDays | FourteenDays | ThirtyDays

  function DurationDays(d: Duration): (days: int)
    ensures days == 7 || days == 14 || days == 30
  {
    match d
    case SevenDays => 7
    case FourteenDays => 14
    case ThirtyDays => 30
  }

  /** The reward rate in percent: 5, 12 or 30 for exactly 7, 14 or 30 days, and 0 for any other period. */
  function RewardPercent(days: int): int {
    if days == 7 then 5
    else if days == 14 then 12
    else if days == 30 then 30
    else 0
  }

  /**
   * calculateReward: the rate's share of `amount`, rounded down. Stated as the
   * floor it is: 100 * reward <= amount * percent < 100 * reward + 100.
   */
  function CalculateReward(amount: int, days: int): (r: int)
    ensures days != 7 && days != 14 && days != 30 ==> r == 0
    ensures days == 7 ==> 100 * r <= 5 * amount < 100 * r + 100
    ensures days == 14 ==> 100 * r <= 12 * amount < 100 * r + 100
    ensures days == 30 ==> 100 * r <= 30 * amount < 100 * r + 100
  {
    RewardPercent(days) * amount / 100
  }

  /** A reward never exceeds the stake and is never negative for a non-negative stake. */
  lemma RewardBounded(amount: int, days: int)
    requires 0 <= amount
    ensures 0 <= CalculateReward(amount, days) <= amount
  {
  }

  /** A larger stake never earns less over the same period. */
  lemma RewardMonotoneInAmount(a: int, b: int, days: int)
    requires a <= b
    ensures CalculateReward(a, days) <= CalculateReward(b, days)
  {
  }

  /** A longer tier never earns less on the same non-negative stake. */
  lemma RewardMonotoneInTier(amount: int)
    requires 0 <= amount
    ensures CalculateReward(amount, 7) <= CalculateReward(amount, 14) <= CalculateReward(amount, 30)
  {
  }

  const HourMs: int := 3600000

  datatype Countdown = Countdown(days: int, hours: int)

  /**
   * timeUntilUnlock: nothing when signed out or when the pooled stake has matured;
   * otherwise the whole days left and the whole hours left over, which together
   * are the time left rounded down to the hour.
   */
  function TimeUntilUnlock(userData: Option<UserData>, now: int): (r: Option<Countdown>)
    ensures r.None? <==> userData.None? || userData.value.stakingEndTime <= now
    ensures r.Some? ==>
      var left := userData.value.stakingEndTime - now;
      && 0 <= r.value.days && 0 <= r.value.hours < 24
      && DayMs * r.value.days + HourMs * r.value.hours <= left
      && left < DayMs * r.value.days + HourMs * (r.value.hours + 1)
  {
    if userData.None? || userData.value.stakingEndTime <= now then None
    else
      var timeLeft := userData.value.stakingEndTime - now;
      Some(Countdown(timeLeft / DayMs, timeLeft % DayMs / HourMs))
  }

  datatype StakeCheck = Accepted | InvalidAmount | InsufficientTokens

  /** The page's checks before it calls the store: a positive amount no larger than the balance. */
  function CheckStakeAmount(stakeAmount: int, questTokens: int): (r: StakeCheck)
    ensures r == Accepted <==> 0 < stakeAmount <= questTokens
    ensures r == InvalidAmount <==> stakeAmount <= 0
  {
    if stakeAmount <= 0 then InvalidAmount
    else if stakeAmount > questTokens then InsufficientTokens
    else Accepted
  }

  /**
   * A stake the page accepts is never refused by the store, moves exactly the
   * amount, and leaves a non-negative balance non-negative.
   */
  lemma AcceptedStakeMovesAmount(u: UserData, amount: int, days: int, now: int)
    requires CheckStakeAmount(amount, u.questTokens) == Accepted
    ensures var r := StakeTokensIn(u, amount, days, now);
      && r.stakedTokens == u.stakedTokens + amount
      && r.questTokens == u.questTokens - amount
      && 0 <= r.questTokens
  {
  }

  /** The store alone has no sign check: a negative stake raises the spendable balance and makes the pooled stake negative. */
  lemma StoreAcceptsNegativeStake(u: UserData, amount: int, days: int, now: int)
    requires amount < 0 && 0 <= u.questTokens && u.stakedTokens == 0
    ensures var r := StakeTokensIn(u, amount, days, now);
      r.questTokens > u.questTokens && r.stakedTokens < 0
  {
  }

  const FirstStakeId: string := "first-stake"

  /** What handleStakeTokens reports. */
  datatype StakeFeedback = NotSignedIn | Rejected(reason: StakeCheck) | Staked(firstStake: bool)

  /** The component state of the staking page. */
  class Page {
    var stakeAmount: int
    var stakeDuration: Duration

    constructor ()
      ensures stakeAmount == 0 && stakeDuration == SevenDays
    {
      stakeAmount := 0;
      stakeDuration := SevenDays;
    }

    method SetStakeAmount(amount: int)
      modifies this`stakeAmount
      ensures stakeAmount == amount
    {
      stakeAmount := amount;
    }

    method SetStakeDuration(d: Duration)
      modifies this`stakeDuration
      ensures stakeDuration == d
    {
      stakeDuration := d;
    }

    /**
     * handleStakeTokens: refuses, without calling the store, an amount that is not
     * positive or exceeds the balance. Otherwise stakes once and, when the record
     * held no pooled stake before, unlocks the first-stake achievement; then the
     * amount field is reset.
     */
    method HandleStakeTokens(store: Store, now: int) returns (feedback: StakeFeedback)
      modifies this`stakeAmount, store`userData
      ensures old(store.userData).None? ==> feedback == NotSignedIn && unchanged(this, store)
      ensures old(store.userData).Some? ==>
        var u := old(store.userData).value;
        var check := CheckStakeAmount(old(stakeAmount), u.questTokens);
        && (check != Accepted ==> feedback == Rejected(check) && unchanged(this, store))
        && (check == Accepted ==>
              var staked := StakeTokensIn(u, old(stakeAmount), DurationDays(stakeDuration), now);
              && feedback == Staked(u.stakedTokens == 0)
              && store.userData == Some(if u.stakedTokens == 0 then UnlockAchievementIn(staked, FirstStakeId) else staked)
              && stakeAmount == 0)
    {
      if store.userData.None? {
        return NotSignedIn;
      }
      var userData := store.userData.value;
      var check := CheckStakeAmount(stakeAmount, userData.questTokens);
      if check != Accepted {
        return Rejected(check);
      }
      store.StakeTokens(stakeAmount, DurationDays(stakeDuration), now);
      var firstStake := userData.stakedTokens == 0;
      if firstStake {
        store.UnlockAchievement(FirstStakeId);
      }
      stakeAmount := 0;
      feedback := Staked(firstStake);
    }
  }
}
