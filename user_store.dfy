/**
 * The user store of lib/user-store.ts: one mutable `userData` record (null before
 * sign-in and after logout), the authentication flag and the wallet type. Each
 * action reads the record, returns early when it is null or a guard fails, and
 * otherwise replaces the record with an updated copy; its postcondition ties the
 * new record to the matching function of module Progress.
 */
module UserStore {
  import opened Wrappers
  import opened Progress
  import opened Storage

  datatype WalletKind = MetaMask | Phantom

  /** The level-up loop of addXp. */
  method LevelUp(xp: int, level: int) returns (newXp: int, newLevel: int)
    ensures (newXp, newLevel) == Carry(xp, level)
    ensures level <= newLevel && newXp < LevelThreshold(newLevel)
  {
    newXp, newLevel := xp, level;
    while newXp >= LevelThreshold(newLevel)
      invariant Carry(newXp, newLevel) == Carry(xp, level)
      decreases if newLevel < 1 then 1 - newLevel else 0, newXp
    {
      newXp := newXp - LevelThreshold(newLevel);
      newLevel := newLevel + 1;
    }
  }

  /** `findIndex` / `find` over the enrolled courses: the first entry matching `q`, or -1. */
  method FindFirst(es: seq<Enrollment>, q: Query) returns (index: int)
    ensures index == FirstMatch(es, q)
  {
    index := 0;
    while index < |es| && !Matches(es[index], q)
      invariant 0 <= index <= |es|
      invariant forall k :: 0 <= k < index ==> !Matches(es[k], q)
    {
      index := index + 1;
    }
    if index == |es| {
      index := -1;
    }
  }

  class Store {
    var userData: Option<UserData>
    var isAuthenticated: bool
    var walletType: Option<WalletKind>

    constructor ()
      ensures userData == None && !isAuthenticated && walletType == None
    {
      userData := None;
      isAuthenticated := false;
      walletType := None;
    }

    method SetUserData(data: UserData)
      modifies this`userData
      ensures userData == Some(data)
    {
      userData := Some(data);
    }

    method SetAuthenticated(status: bool, kind: Option<WalletKind>)
      modifies this`isAuthenticated, this`walletType
      ensures isAuthenticated == status && walletType == kind
    {
      isAuthenticated := status;
      walletType := kind;
    }

    /** Forgets the session: the three sign-in entries leave storage and the record is detached. */
    method Logout(storage: LocalStorage)
      modifies this, storage`entries
      ensures storage.entries == old(storage.entries) - {WalletAddressKey, AuthNonceKey, WalletTypeKey}
      ensures !isAuthenticated && userData == None && walletType == None
    {
      storage.RemoveItem(WalletAddressKey);
      storage.RemoveItem(AuthNonceKey);
      storage.RemoveItem(WalletTypeKey);
      isAuthenticated := false;
      userData := None;
      walletType := None;
    }

    method AddXp(amount: int)
      modifies this`userData
      ensures userData == if old(userData).None? then None else Some(AddXpTo(old(userData).value, amount))
    {
      if userData.None? {
        return;
      }
      var u := userData.value;
      var newXp, newLevel := LevelUp(u.xp + amount, u.level);
      userData := Some(u.(xp := newXp, level := newLevel));
    }

    method AddQuestTokens(amount: int)
      modifies this`userData
      ensures userData == if old(userData).None? then None else Some(AddQuestTokensTo(old(userData).value, amount))
    {
      if userData.None? {
        return;
      }
      var u := userData.value;
      userData := Some(u.(questTokens := u.questTokens + amount));
    }

    /** `now` stands for `Date.now()`. */
    method StakeTokens(amount: int, durationDays: int, now: int)
      modifies this`userData
      ensures userData == if old(userData).None? then None
                          else Some(StakeTokensIn(old(userData).value, amount, durationDays, now))
    {
      if userData.None? || userData.value.questTokens < amount {
        return;
      }
      var u := userData.value;
      var stakingEndTime := now + durationDays * DayMs;
      userData := Some(u.(questTokens := u.questTokens - amount,
                          stakedTokens := u.stakedTokens + amount,
                          stakingEndTime := stakingEndTime));
    }

    method WithdrawStake(courseId: string, now: int) returns (returnAmount: int)
      modifies this`userData
      ensures old(userData).None? ==> returnAmount == 0 && userData == None
      ensures old(userData).Some? ==>
        userData.Some? && (returnAmount, userData.value) == WithdrawStakeFrom(old(userData).value, courseId, now)
    {
      if userData.None? {
        return 0;
      }
      var u := userData.value;
      var index := FindFirst(u.enrolledCourses, ById(courseId));
      if index == -1 {
        return 0;
      }
      var enrolled := u.enrolledCourses[index];
      var penalty := 0;
      if now < enrolled.enrollmentTime + MinStakingPeriodMs {
        penalty := enrolled.stakedAmount * EarlyWithdrawalFeePercent / 100;
      }
      returnAmount := enrolled.stakedAmount - penalty;
      var updated := u.enrolledCourses[..index] + u.enrolledCourses[index + 1..];
      userData := Some(u.(questTokens := u.questTokens + returnAmount, enrolledCourses := updated));
    }

    method EnrollInCourse(courseId: string, amount: int, now: int)
      modifies this`userData
      ensures userData == if old(userData).None? then None
                          else Some(EnrollIn(old(userData).value, courseId, amount, now))
    {
      if userData.None? || userData.value.questTokens < amount {
        return;
      }
      var u := userData.value;
      var existing := FindFirst(u.enrolledCourses, ById(courseId));
      var updated := u.enrolledCourses;
      if existing != -1 {
        updated := Patched(updated, courseId, AddStake(amount));
      } else {
        updated := updated + [Enrollment(courseId, amount, now, false, false)];
      }
      userData := Some(u.(questTokens := u.questTokens - amount, enrolledCourses := updated));
    }

    method CompleteCourse(courseId: string)
      modifies this`userData
      ensures userData == if old(userData).None? then None else Some(CompleteCourseIn(old(userData).value, courseId))
    {
      if userData.None? {
        return;
      }
      var u := userData.value;
      var updatedEnrolled := Patched(u.enrolledCourses, courseId, MarkCompleted);
      var updatedCompleted := u.completedCourses;
      if !Includes(updatedCompleted, courseId) {
        updatedCompleted := updatedCompleted + [courseId];
      }
      userData := Some(u.(enrolledCourses := updatedEnrolled, completedCourses := updatedCompleted));
    }

    method ClaimReward(courseId: string) returns (reward: int)
      modifies this`userData
      ensures old(userData).None? ==> reward == 0 && userData == None
      ensures old(userData).Some? ==>
        userData.Some? && (reward, userData.value) == ClaimRewardIn(old(userData).value, courseId)
    {
      if userData.None? {
        return 0;
      }
      var u := userData.value;
      var index := FindFirst(u.enrolledCourses, ClaimableById(courseId));
      if index == -1 {
        return 0;
      }
      var enrolled := u.enrolledCourses[index];
      var rewardAmount := ClaimRewardAmount;
      var updated := Patched(u.enrolledCourses, courseId, MarkRewardClaimed);
      userData := Some(u.(questTokens := u.questTokens + enrolled.stakedAmount + rewardAmount,
                          enrolledCourses := updated));
      reward := rewardAmount;
    }

    method UnlockAchievement(achievementId: string)
      modifies this`userData
      ensures userData == if old(userData).None? then None
                          else Some(UnlockAchievementIn(old(userData).value, achievementId))
    {
      if userData.None? {
        return;
      }
      var u := userData.value;
      if Includes(u.achievements, achievementId) {
        return;
      }
      userData := Some(u.(achievements := u.achievements + [achievementId], xp := u.xp + AchievementXpReward));
    }
  }
}
