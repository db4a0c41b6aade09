/**
 * The progression and token ledger of lib/user-store.ts, on values.
 *
 * `UserData` and `Enrollment` are the records of lib/types.ts. Every action of the
 * user store has a pure counterpart here that maps the old record to the new one
 * (and, for withdrawStake and claimReward, to the number the action returns). The
 * class `UserStore.Store` applies them to its mutable `userData` field; the lemmas
 * here state what holds across several actions.
 */
module Progress {

  /** The XP that leaves level `level`: level * 1000. */
  function LevelThreshold(level: int): int {
    1000 * level
  }

  /** One day in milliseconds: 24 * 60 * 60 * 1000. */
  const DayMs: int := 86400000
  /** A course stake withdrawn sooner than this after enrolling pays the penalty. */
  const MinStakingPeriodMs: int := 7 * DayMs
  const EarlyWithdrawalFeePercent: int := 20
  /** claimReward pays this whatever the course's own rewardAmount. */
  const ClaimRewardAmount: int := 50
  /** unlockAchievement adds this whatever the achievement's own xpReward. */
  const AchievementXpReward: int := 100

  datatype Enrollment = Enrollment(
    courseId: string,
    stakedAmount: int,
    enrollmentTime: int,
    completed: bool,
    rewardClaimed: bool)

  datatype UserData = UserData(
    walletAddress: string,
    xp: int,
    level: int,
    questTokens: int,
    completedCourses: seq<string>,
    achievements: seq<string>,
    stakedTokens: int,
    stakingEndTime: int,
    enrolledCourses: seq<Enrollment>)

  // ---------------------------------------------------------------------------
  // Lists of ids

  /** `list.includes(x)`. */
  function Includes(list: seq<string>, x: string): (r: bool)
    ensures r <==> x in list
  {
    if list == [] then false else list[0] == x || Includes(list[1..], x)
  }

  ghost predicate NoDuplicates(list: seq<string>) {
    forall i, j :: 0 <= i < j < |list| ==> list[i] != list[j]
  }

  /** Appending an absent id keeps a duplicate-free list duplicate-free. */
  lemma AppendFreshKeepsNoDuplicates(list: seq<string>, x: string)
    requires NoDuplicates(list) && x !in list
    ensures NoDuplicates(list + [x])
  {
    forall i, j | 0 <= i < j < |list + [x]|
      ensures (list + [x])[i] != (list + [x])[j]
    {
      if j == |list| {
        assert (list + [x])[i] == list[i];
      }
    }
  }

  // ---------------------------------------------------------------------------
  // Levels

  /** The XP spent climbing from level `lo` to level `hi`: the sum of LevelThreshold(l) for lo <= l < hi. */
  function LevelSpan(lo: int, hi: int): int
    decreases hi - lo
  {
    if hi <= lo then 0 else LevelThreshold(lo) + LevelSpan(lo + 1, hi)
  }

  lemma {:induction false} LevelSpanNonNegative(lo: int, hi: int)
    requires 0 <= lo
    ensures 0 <= LevelSpan(lo, hi)
    decreases hi - lo
  {
    if lo < hi {
      LevelSpanNonNegative(lo + 1, hi);
    }
  }

  /**
   * The level-up carry of addXp: while xp reaches LevelThreshold(level), pay that much
   * and go up one level. Returns (xp, level). No XP is lost or made: what went in is
   * the cost of the levels climbed plus what is left over.
   */
  function Carry(xp: int, level: int): (r: (int, int))
    ensures level <= r.1 && r.0 < LevelThreshold(r.1)
    ensures xp == LevelSpan(level, r.1) + r.0
    ensures level < r.1 ==> 0 <= r.0
    ensures r.1 == level <==> xp < LevelThreshold(level)
    decreases if level < 1 then 1 - level else 0, xp
  {
    if xp < LevelThreshold(level) then (xp, level)
    else Carry(xp - LevelThreshold(level), level + 1)
  }

  /**
   * The carry's result is the only normal form of its input: any level `l` and
   * remainder `x` that account for all of `xp`, with `x` below the next threshold,
   * are what Carry returns.
   */
  lemma {:induction false} CarryUnique(xp: int, level: int, x: int, l: int)
    requires 1 <= level <= l
    requires x < LevelThreshold(l) && (level < l ==> 0 <= x)
    requires xp == LevelSpan(level, l) + x
    ensures Carry(xp, level) == (x, l)
    decreases l - level
  {
    if level < l {
      LevelSpanNonNegative(level + 1, l);
      CarryUnique(xp - LevelThreshold(level), level + 1, x, l);
    }
  }

  // ---------------------------------------------------------------------------
  // Enrollment lists

  /** The tests the store's `find`/`findIndex` callbacks make. */
  datatype Query = ById(id: string) | ClaimableById(claimId: string)

  predicate Matches(e: Enrollment, q: Query) {
    match q
    case ById(id) => e.courseId == id
    case ClaimableById(id) => e.courseId == id && e.completed && !e.rewardClaimed
  }

  /** `findIndex`: the first entry that matches, or -1. */
  function FirstMatch(es: seq<Enrollment>, q: Query): (r: int)
    ensures -1 <= r < |es|
    ensures r == -1 <==> forall k :: 0 <= k < |es| ==> !Matches(es[k], q)
    ensures 0 <= r ==> Matches(es[r], q) && forall k :: 0 <= k < r ==> !Matches(es[k], q)
  {
    if es == [] then -1
    else if Matches(es[0], q) then 0
    else
      var t := FirstMatch(es[1..], q);
      if t == -1 then -1 else t + 1
  }

  function IndexOf(es: seq<Enrollment>, courseId: string): int {
    FirstMatch(es, ById(courseId))
  }

  /** At most one enrollment per course. */
  ghost predicate UniqueIds(es: seq<Enrollment>) {
    forall i, j :: 0 <= i < j < |es| ==> es[i].courseId != es[j].courseId
  }

  /** A reward is claimed only on a completed enrollment. */
  ghost predicate ClaimedOnlyIfCompleted(es: seq<Enrollment>) {
    forall k :: 0 <= k < |es| ==> es[k].rewardClaimed ==> es[k].completed
  }

  /** The record updates the store applies through `enrolledCourses.map`. */
  datatype Patch = AddStake(amount: int) | MarkCompleted | MarkRewardClaimed | SettleClaim

  function ApplyPatch(e: Enrollment, p: Patch): Enrollment {
    match p
    case AddStake(a) => e.(stakedAmount := e.stakedAmount + a)
    case MarkCompleted => e.(completed := true)
    case MarkRewardClaimed => e.(rewardClaimed := true)
    case SettleClaim => e.(rewardClaimed := true, stakedAmount := 0)
  }

  /** `es.map(c => c.courseId === id ? patch(c) : c)`. */
  function Patched(es: seq<Enrollment>, id: string, p: Patch): (r: seq<Enrollment>)
    ensures |r| == |es|
    ensures forall k :: 0 <= k < |es| ==>
      r[k] == if es[k].courseId == id then ApplyPatch(es[k], p) else es[k]
  {
    if es == [] then []
    else [if es[0].courseId == id then ApplyPatch(es[0], p) else es[0]] + Patched(es[1..], id, p)
  }

  /** `splice(i, 1)` on a copy. */
  function RemoveAt(es: seq<Enrollment>, i: int): (r: seq<Enrollment>)
    requires 0 <= i < |es|
    ensures |r| == |es| - 1
    ensures forall k :: 0 <= k < i ==> r[k] == es[k]
    ensures forall k :: i <= k < |r| ==> r[k] == es[k + 1]
  {
    es[..i] + es[i + 1..]
  }

  /** The tokens escrowed in course enrollments. */
  function StakeSum(es: seq<Enrollment>): int {
    if es == [] then 0 else es[0].stakedAmount + StakeSum(es[1..])
  }

  lemma {:induction false} StakeSumAppend(a: seq<Enrollment>, b: seq<Enrollment>)
    ensures StakeSum(a + b) == StakeSum(a) + StakeSum(b)
  {
    if a == [] {
      assert a + b == b;
    } else {
      assert (a + b)[1..] == a[1..] + b;
      StakeSumAppend(a[1..], b);
    }
  }

  lemma {:induction false} StakeSumRemoveAt(es: seq<Enrollment>, i: int)
    requires 0 <= i < |es|
    ensures StakeSum(RemoveAt(es, i)) == StakeSum(es) - es[i].stakedAmount
  {
    var left, right := es[..i], es[i + 1..];
    var middle := [es[i]] + right;
    assert middle[0] == es[i] && middle[1..] == right;
    assert StakeSum(middle) == es[i].stakedAmount + StakeSum(right);
    assert es == left + middle;
    StakeSumAppend(left, middle);
    assert RemoveAt(es, i) == left + right;
    StakeSumAppend(left, right);
  }

  /** Marking an enrollment completed or claimed leaves the escrow alone. */
  lemma {:induction false} StakeSumFlagged(es: seq<Enrollment>, id: string, p: Patch)
    requires p.MarkCompleted? || p.MarkRewardClaimed?
    ensures StakeSum(Patched(es, id, p)) == StakeSum(es)
  {
    if es != [] {
      var head := if es[0].courseId == id then ApplyPatch(es[0], p) else es[0];
      var tail := Patched(es[1..], id, p);
      assert Patched(es, id, p) == [head] + tail;
      assert ([head] + tail)[1..] == tail;
      StakeSumFlagged(es[1..], id, p);
    }
  }

  /** Patching a course that is not enrolled in changes nothing. */
  lemma PatchedAbsent(es: seq<Enrollment>, id: string, p: Patch)
    requires IndexOf(es, id) == -1
    ensures Patched(es, id, p) == es
  {
  }

  /** With unique ids, a top-up of an enrolled course adds its amount to the escrow once. */
  lemma {:induction false} StakeSumToppedUp(es: seq<Enrollment>, id: string, amount: int)
    requires UniqueIds(es) && IndexOf(es, id) != -1
    ensures StakeSum(Patched(es, id, AddStake(amount))) == StakeSum(es) + amount
  {
    var head := if es[0].courseId == id then ApplyPatch(es[0], AddStake(amount)) else es[0];
    var tail := Patched(es[1..], id, AddStake(amount));
    assert Patched(es, id, AddStake(amount)) == [head] + tail;
    assert ([head] + tail)[1..] == tail;
    if es[0].courseId == id {
      assert IndexOf(es[1..], id) == -1 by {
        forall k | 0 <= k < |es[1..]| ensures es[1..][k].courseId != id {
          assert es[1..][k] == es[k + 1];
        }
      }
      PatchedAbsent(es[1..], id, AddStake(amount));
    } else {
      assert IndexOf(es[1..], id) != -1 by {
        var i := IndexOf(es, id);
        assert es[1..][i - 1] == es[i];
      }
      StakeSumToppedUp(es[1..], id, amount);
    }
  }

  /** Escrow that a SettleClaim patch releases. */
  lemma {:induction false} StakeSumSettled(es: seq<Enrollment>, id: string)
    ensures StakeSum(Patched(es, id, SettleClaim)) == StakeSum(es) - StakeOf(es, id)
  {
    if es != [] {
      assert Patched(es, id, SettleClaim)[1..] == Patched(es[1..], id, SettleClaim);
      StakeSumSettled(es[1..], id);
    }
  }

  /** The escrow held by the entries for `id`. */
  function StakeOf(es: seq<Enrollment>, id: string): int {
    if es == [] then 0
    else (if es[0].courseId == id then es[0].stakedAmount else 0) + StakeOf(es[1..], id)
  }

  lemma {:induction false} StakeOfUnique(es: seq<Enrollment>, id: string)
    requires UniqueIds(es) && IndexOf(es, id) != -1
    ensures StakeOf(es, id) == es[IndexOf(es, id)].stakedAmount
  {
    if es[0].courseId == id {
      StakeOfAbsent(es[1..], id);
    } else {
      var i := IndexOf(es, id);
      assert es[1..][i - 1] == es[i];
      StakeOfUnique(es[1..], id);
    }
  }

  lemma {:induction false} StakeOfAbsent(es: seq<Enrollment>, id: string)
    requires forall k :: 0 <= k < |es| ==> es[k].courseId != id
    ensures StakeOf(es, id) == 0
  {
    if es != [] {
      assert es[0].courseId != id;
      StakeOfAbsent(es[1..], id);
    }
  }

  // ---------------------------------------------------------------------------
  // The record's invariants

  /** Everything the store keeps about the record: the normal form of a level is separate. */
  ghost predicate Consistent(u: UserData) {
    && 1 <= u.level
    && UniqueIds(u.enrolledCourses)
    && ClaimedOnlyIfCompleted(u.enrolledCourses)
    && NoDuplicates(u.completedCourses)
    && NoDuplicates(u.achievements)
  }

  /** The remainder of XP is below the level's threshold, as addXp leaves it. */
  predicate LevelNormal(u: UserData) {
    u.xp < LevelThreshold(u.level)
  }

  /** All QUEST tokens the record accounts for: spendable, pooled stake and course escrow. */
  function Total(u: UserData): int {
    u.questTokens + u.stakedTokens + StakeSum(u.enrolledCourses)
  }

  // ---------------------------------------------------------------------------
  // The actions

  /** addXp: the carry applied to xp + amount; nothing else changes. */
  function AddXpTo(u: UserData, amount: int): (r: UserData)
    ensures u.level <= r.level && LevelNormal(r)
    ensures u.xp + amount == LevelSpan(u.level, r.level) + r.xp
    ensures u.level < r.level ==> 0 <= r.xp
    ensures r == u.(xp := r.xp, level := r.level)
  {
    var c := Carry(u.xp + amount, u.level);
    u.(xp := c.0, level := c.1)
  }

  /** addQuestTokens: credits `amount`, with no sign check. */
  function AddQuestTokensTo(u: UserData, amount: int): (r: UserData)
    ensures Total(r) == Total(u) + amount
    ensures r == u.(questTokens := r.questTokens)
  {
    u.(questTokens := u.questTokens + amount)
  }

  /**
   * stakeTokens: moves `amount` from the spendable balance into the pooled stake and
   * overwrites the maturity time; a second stake resets it. Rejected, with no change,
   * only when the balance is short (there is no sign check on `amount`).
   */
  function StakeTokensIn(u: UserData, amount: int, durationDays: int, now: int): (r: UserData)
    ensures u.questTokens < amount ==> r == u
    ensures r.questTokens + r.stakedTokens == u.questTokens + u.stakedTokens
    ensures Total(r) == Total(u)
    ensures amount <= u.questTokens ==>
      && r.stakedTokens == u.stakedTokens + amount
      && r.stakingEndTime == now + durationDays * DayMs
      && r.(questTokens := u.questTokens, stakedTokens := u.stakedTokens, stakingEndTime := u.stakingEndTime) == u
  {
    if u.questTokens < amount then u
    else u.(questTokens := u.questTokens - amount,
            stakedTokens := u.stakedTokens + amount,
            stakingEndTime := now + durationDays * DayMs)
  }

  /**
   * The early-withdrawal fee: a fifth of the stake, rounded down, when `now` is
   * before the seventh day after enrolling, and nothing from then on.
   */
  function EarlyWithdrawalPenalty(stakedAmount: int, enrollmentTime: int, now: int): (p: int)
    ensures enrollmentTime + MinStakingPeriodMs <= now ==> p == 0
    ensures now < enrollmentTime + MinStakingPeriodMs ==> 5 * p <= stakedAmount < 5 * p + 5
    ensures 0 <= stakedAmount ==> 0 <= p <= stakedAmount
  {
    if now < enrollmentTime + MinStakingPeriodMs then stakedAmount * EarlyWithdrawalFeePercent / 100
    else 0
  }

  /**
   * withdrawStake: with no enrollment for the course returns 0 and changes nothing;
   * otherwise returns the stake less the penalty, credits it, and removes that entry
   * keeping the others in order. The pooled stake is not touched.
   */
  function WithdrawStakeFrom(u: UserData, courseId: string, now: int): (r: (int, UserData))
    ensures IndexOf(u.enrolledCourses, courseId) == -1 ==> r == (0, u)
    ensures var i := IndexOf(u.enrolledCourses, courseId);
      0 <= i ==>
        var e := u.enrolledCourses[i];
        && r.0 + EarlyWithdrawalPenalty(e.stakedAmount, e.enrollmentTime, now) == e.stakedAmount
        && r.1.questTokens == u.questTokens + r.0
        && r.1.enrolledCourses == RemoveAt(u.enrolledCourses, i)
        && r.1.(questTokens := u.questTokens, enrolledCourses := u.enrolledCourses) == u
  {
    var es := u.enrolledCourses;
    var i := IndexOf(es, courseId);
    if i == -1 then (0, u)
    else
      var returnAmount := es[i].stakedAmount - EarlyWithdrawalPenalty(es[i].stakedAmount, es[i].enrollmentTime, now);
      (returnAmount, u.(questTokens := u.questTokens + returnAmount, enrolledCourses := RemoveAt(es, i)))
  }

  /**
   * enrollInCourse: rejected, with no change, when the balance is short. A course
   * already enrolled in gets `amount` added to its stake (its time and flags kept,
   * no entry added); a new course is appended, not completed and not claimed. There
   * is no premium, staking-requirement or sign check.
   */
  function EnrollIn(u: UserData, courseId: string, amount: int, now: int): (r: UserData)
    ensures u.questTokens < amount ==> r == u
    ensures amount <= u.questTokens ==>
      && r.questTokens == u.questTokens - amount
      && r.(questTokens := u.questTokens, enrolledCourses := u.enrolledCourses) == u
    ensures amount <= u.questTokens && IndexOf(u.enrolledCourses, courseId) != -1 ==>
      && |r.enrolledCourses| == |u.enrolledCourses|
      && forall k :: 0 <= k < |u.enrolledCourses| ==>
           var (e, e') := (u.enrolledCourses[k], r.enrolledCourses[k]);
           e' == e.(stakedAmount := if e.courseId == courseId then e.stakedAmount + amount else e.stakedAmount)
    ensures amount <= u.questTokens && IndexOf(u.enrolledCourses, courseId) == -1 ==>
      r.enrolledCourses == u.enrolledCourses + [Enrollment(courseId, amount, now, false, false)]
  {
    if u.questTokens < amount then u
    else
      var es := u.enrolledCourses;
      var updated :=
        if IndexOf(es, courseId) != -1 then Patched(es, courseId, AddStake(amount))
        else es + [Enrollment(courseId, amount, now, false, false)];
      u.(questTokens := u.questTokens - amount, enrolledCourses := updated)
  }

  /**
   * completeCourse: marks every enrollment for the course completed and lists the
   * course once among the completed ones, whether or not it was enrolled in.
   */
  function CompleteCourseIn(u: UserData, courseId: string): (r: UserData)
    ensures courseId in r.completedCourses
    ensures r.completedCourses == if courseId in u.completedCourses then u.completedCourses
                                  else u.completedCourses + [courseId]
    ensures r.enrolledCourses == Patched(u.enrolledCourses, courseId, MarkCompleted)
    ensures r.(completedCourses := u.completedCourses, enrolledCourses := u.enrolledCourses) == u
  {
    var completed := u.completedCourses;
    u.(enrolledCourses := Patched(u.enrolledCourses, courseId, MarkCompleted),
       completedCourses := if Includes(completed, courseId) then completed else completed + [courseId])
  }

  /**
   * claimReward: with no completed, unclaimed enrollment for the course returns 0
   * and changes nothing; otherwise credits that stake plus the fixed reward, marks
   * the course's enrollments claimed and returns the fixed reward. The stake stays
   * in the enrollment.
   */
  function ClaimRewardIn(u: UserData, courseId: string): (r: (int, UserData))
    ensures r.0 == 0 || r.0 == ClaimRewardAmount
    ensures r.0 == 0 <==> FirstMatch(u.enrolledCourses, ClaimableById(courseId)) == -1
    ensures r.0 == 0 ==> r.1 == u
    ensures var i := FirstMatch(u.enrolledCourses, ClaimableById(courseId));
      0 <= i ==>
        && r.1.questTokens == u.questTokens + u.enrolledCourses[i].stakedAmount + ClaimRewardAmount
        && r.1.enrolledCourses == Patched(u.enrolledCourses, courseId, MarkRewardClaimed)
        && r.1.(questTokens := u.questTokens, enrolledCourses := u.enrolledCourses) == u
  {
    var es := u.enrolledCourses;
    var i := FirstMatch(es, ClaimableById(courseId));
    if i == -1 then (0, u)
    else
      (ClaimRewardAmount,
       u.(questTokens := u.questTokens + es[i].stakedAmount + ClaimRewardAmount,
          enrolledCourses := Patched(es, courseId, MarkRewardClaimed)))
  }

  /**
   * unlockAchievement: an id already unlocked changes nothing; otherwise the id is
   * appended and xp rises by the fixed reward, with no level carry.
   */
  function UnlockAchievementIn(u: UserData, achievementId: string): (r: UserData)
    ensures achievementId in u.achievements ==> r == u
    ensures achievementId !in u.achievements ==>
      && r.achievements == u.achievements + [achievementId]
      && r.xp == u.xp + AchievementXpReward
      && r.level == u.level
      && r.(achievements := u.achievements, xp := u.xp) == u
  {
    if Includes(u.achievements, achievementId) then u
    else u.(achievements := u.achievements + [achievementId], xp := u.xp + AchievementXpReward)
  }

  // ---------------------------------------------------------------------------
  // Properties of single actions

  /** The worked example: level 1 with 800 XP, plus 500, is level 2 with 300. */
  lemma AddXpExample(u: UserData)
    requires u.level == 1 && u.xp == 800
    ensures AddXpTo(u, 500).level == 2 && AddXpTo(u, 500).xp == 300
  {
    CarryUnique(1300, 1, 300, 2);
  }

  /** Withdrawing burns exactly the penalty: the entry's stake leaves the escrow and all but the fee is credited. */
  lemma WithdrawBurnsOnlyPenalty(u: UserData, courseId: string, now: int)
    requires IndexOf(u.enrolledCourses, courseId) != -1
    ensures var e := u.enrolledCourses[IndexOf(u.enrolledCourses, courseId)];
      Total(WithdrawStakeFrom(u, courseId, now).1)
        == Total(u) - EarlyWithdrawalPenalty(e.stakedAmount, e.enrollmentTime, now)
  {
    StakeSumRemoveAt(u.enrolledCourses, IndexOf(u.enrolledCourses, courseId));
  }

  /** After a withdrawal the course is no longer enrolled in. */
  lemma WithdrawUnenrolls(u: UserData, courseId: string, now: int)
    requires UniqueIds(u.enrolledCourses)
    ensures IndexOf(WithdrawStakeFrom(u, courseId, now).1.enrolledCourses, courseId) == -1
  {
    var es := u.enrolledCourses;
    var i := IndexOf(es, courseId);
    if i != -1 {
      var r := RemoveAt(es, i);
      forall k | 0 <= k < |r| ensures r[k].courseId != courseId {
        if k >= i {
          assert r[k] == es[k + 1];
        }
      }
    }
  }

  /** Enrolling moves tokens into escrow without making or destroying any. */
  lemma EnrollConserves(u: UserData, courseId: string, amount: int, now: int)
    requires UniqueIds(u.enrolledCourses)
    ensures Total(EnrollIn(u, courseId, amount, now)) == Total(u)
  {
    var es := u.enrolledCourses;
    if amount <= u.questTokens {
      if IndexOf(es, courseId) != -1 {
        StakeSumToppedUp(es, courseId, amount);
      } else {
        StakeSumAppend(es, [Enrollment(courseId, amount, now, false, false)]);
      }
    }
  }

  /** Completing a course is idempotent. */
  lemma {:induction false} CompleteCourseIdempotent(u: UserData, courseId: string)
    ensures CompleteCourseIn(CompleteCourseIn(u, courseId), courseId) == CompleteCourseIn(u, courseId)
  {
    var es := u.enrolledCourses;
    var once := Patched(es, courseId, MarkCompleted);
    var twice := Patched(once, courseId, MarkCompleted);
    assert twice == once;
  }

  /** After completion every enrollment for the course is completed and none for another course changed. */
  lemma CompleteCourseMarks(u: UserData, courseId: string, k: int)
    requires 0 <= k < |u.enrolledCourses|
    ensures var e := CompleteCourseIn(u, courseId).enrolledCourses[k];
      && e.courseId == u.enrolledCourses[k].courseId
      && (e.courseId == courseId ==> e.completed)
      && (e.courseId != courseId ==> e == u.enrolledCourses[k])
  {
  }

  /** A claim that paid cannot pay again: the second call returns 0 and changes nothing. */
  lemma ClaimRewardOnce(u: UserData, courseId: string)
    ensures var (_, u1) := ClaimRewardIn(u, courseId);
      ClaimRewardIn(u1, courseId) == (0, u1)
  {
    var (_, u1) := ClaimRewardIn(u, courseId);
    var es1 := u1.enrolledCourses;
    forall k | 0 <= k < |es1| ensures !Matches(es1[k], ClaimableById(courseId)) {
    }
  }

  /** A claim pays only on completion: while the course's enrollments are all unfinished it returns 0. */
  lemma ClaimRequiresCompletion(u: UserData, courseId: string)
    requires forall k :: 0 <= k < |u.enrolledCourses| && u.enrolledCourses[k].courseId == courseId
               ==> !u.enrolledCourses[k].completed
    ensures ClaimRewardIn(u, courseId) == (0, u)
  {
  }

  /** Unlocking is idempotent: a second unlock of the same id changes nothing, so XP rises by the reward once. */
  lemma UnlockAchievementIdempotent(u: UserData, achievementId: string)
    ensures var once := UnlockAchievementIn(u, achievementId);
      && UnlockAchievementIn(once, achievementId) == once
      && once.xp == u.xp + (if achievementId in u.achievements then 0 else AchievementXpReward)
  {
  }

  // ---------------------------------------------------------------------------
  // Invariants kept by every action

  /** One store action, with the clock reading that withdraw and enroll use. */
  datatype Action =
    | AddXp(xpAmount: int)
    | AddQuestTokens(tokenAmount: int)
    | StakeTokens(stakeAmount: int, durationDays: int)
    | WithdrawStake(withdrawId: string)
    | EnrollInCourse(enrollId: string, enrollAmount: int)
    | CompleteCourse(completeId: string)
    | ClaimReward(claimId: string)
    | UnlockAchievement(achievementId: string)

  function Step(u: UserData, a: Action, now: int): UserData {
    match a
    case AddXp(amount) => AddXpTo(u, amount)
    case AddQuestTokens(amount) => AddQuestTokensTo(u, amount)
    case StakeTokens(amount, days) => StakeTokensIn(u, amount, days, now)
    case WithdrawStake(id) => WithdrawStakeFrom(u, id, now).1
    case EnrollInCourse(id, amount) => EnrollIn(u, id, amount, now)
    case CompleteCourse(id) => CompleteCourseIn(u, id)
    case ClaimReward(id) => ClaimRewardIn(u, id).1
    case UnlockAchievement(id) => UnlockAchievementIn(u, id)
  }

  lemma RemoveAtKeepsInvariants(es: seq<Enrollment>, i: int)
    requires 0 <= i < |es|
    requires UniqueIds(es) && ClaimedOnlyIfCompleted(es)
    ensures UniqueIds(RemoveAt(es, i)) && ClaimedOnlyIfCompleted(RemoveAt(es, i))
  {
    var r := RemoveAt(es, i);
    forall a, b | 0 <= a < b < |r| ensures r[a].courseId != r[b].courseId {
      var a' := if a < i then a else a + 1;
      var b' := if b < i then b else b + 1;
      assert r[a] == es[a'] && r[b] == es[b'];
    }
    forall k | 0 <= k < |r| ensures r[k].rewardClaimed ==> r[k].completed {
      assert r[k] == es[if k < i then k else k + 1];
    }
  }

  lemma PatchedKeepsIds(es: seq<Enrollment>, id: string, p: Patch)
    requires UniqueIds(es)
    ensures UniqueIds(Patched(es, id, p))
  {
    var r := Patched(es, id, p);
    forall a, b | 0 <= a < b < |r| ensures r[a].courseId != r[b].courseId {
      assert r[a].courseId == es[a].courseId && r[b].courseId == es[b].courseId;
    }
  }

  lemma AppendNewKeepsInvariants(es: seq<Enrollment>, e: Enrollment)
    requires UniqueIds(es) && ClaimedOnlyIfCompleted(es)
    requires IndexOf(es, e.courseId) == -1 && !e.rewardClaimed
    ensures UniqueIds(es + [e]) && ClaimedOnlyIfCompleted(es + [e])
  {
    var r := es + [e];
    forall a, b | 0 <= a < b < |r| ensures r[a].courseId != r[b].courseId {
      assert r[a] == es[a];
      if b < |es| {
        assert r[b] == es[b];
      }
    }
    forall k | 0 <= k < |r| ensures r[k].rewardClaimed ==> r[k].completed {
      if k < |es| {
        assert r[k] == es[k];
      }
    }
  }

  /** With unique ids the entries for the claimed course are exactly the one that was completed. */
  lemma ClaimKeepsClaimedCompleted(es: seq<Enrollment>, courseId: string)
    requires UniqueIds(es) && ClaimedOnlyIfCompleted(es)
    requires FirstMatch(es, ClaimableById(courseId)) != -1
    ensures ClaimedOnlyIfCompleted(Patched(es, courseId, MarkRewardClaimed))
  {
    var i := FirstMatch(es, ClaimableById(courseId));
    var r := Patched(es, courseId, MarkRewardClaimed);
    forall k | 0 <= k < |r| ensures r[k].rewardClaimed ==> r[k].completed {
      if es[k].courseId == courseId {
        assert k == i;
      }
    }
  }

  /** Every action keeps the record consistent: unique enrollments, claims only on completed courses, no repeated ids, level at least 1. */
  lemma StepKeepsConsistent(u: UserData, a: Action, now: int)
    requires Consistent(u)
    ensures Consistent(Step(u, a, now))
  {
    var es := u.enrolledCourses;
    match a
    case AddXp(_) =>
    case AddQuestTokens(_) =>
    case StakeTokens(_, _) =>
    case WithdrawStake(id) =>
      var i := IndexOf(es, id);
      if i != -1 {
        RemoveAtKeepsInvariants(es, i);
      }
    case EnrollInCourse(id, amount) =>
      if amount <= u.questTokens {
        if IndexOf(es, id) != -1 {
          PatchedKeepsIds(es, id, AddStake(amount));
        } else {
          AppendNewKeepsInvariants(es, Enrollment(id, amount, now, false, false));
        }
      }
    case CompleteCourse(id) =>
      PatchedKeepsIds(es, id, MarkCompleted);
      if id !in u.completedCourses {
        AppendFreshKeepsNoDuplicates(u.completedCourses, id);
      }
    case ClaimReward(id) =>
      if FirstMatch(es, ClaimableById(id)) != -1 {
        PatchedKeepsIds(es, id, MarkRewardClaimed);
        ClaimKeepsClaimedCompleted(es, id);
      }
    case UnlockAchievement(id) =>
      if id !in u.achievements {
        AppendFreshKeepsNoDuplicates(u.achievements, id);
      }
  }

  /** Every action except unlockAchievement keeps the XP remainder below the level's threshold. */
  lemma StepKeepsLevelNormal(u: UserData, a: Action, now: int)
    requires LevelNormal(u) && !a.UnlockAchievement?
    ensures LevelNormal(Step(u, a, now))
  {
  }

  /** Running actions one after another, each at the clock reading paired with it. */
  function Run(u: UserData, actions: seq<(Action, int)>): UserData
    decreases |actions|
  {
    if actions == [] then u else Run(Step(u, actions[0].0, actions[0].1), actions[1..])
  }

  /** Any sequence of store actions, at any times, keeps a consistent record consistent. */
  lemma {:induction false} RunKeepsConsistent(u: UserData, actions: seq<(Action, int)>)
    requires Consistent(u)
    ensures Consistent(Run(u, actions))
    decreases |actions|
  {
    if actions != [] {
      StepKeepsConsistent(u, actions[0].0, actions[0].1);
      RunKeepsConsistent(Step(u, actions[0].0, actions[0].1), actions[1..]);
    }
  }

  // ---------------------------------------------------------------------------
  // Findings and their corrections

  /**
   * unlockAchievement adds its XP without the carry, so a record just under a
   * level threshold is left with xp at or above LevelThreshold(level).
   */
  lemma UnlockLeavesLevelUnnormal(u: UserData, achievementId: string)
    requires achievementId !in u.achievements
    requires LevelThreshold(u.level) - AchievementXpReward <= u.xp < LevelThreshold(u.level)
    ensures LevelNormal(u) && !LevelNormal(UnlockAchievementIn(u, achievementId))
  {
  }

  /** Corrected unlock: the achievement's own XP goes through the same carry as addXp. */
  function UnlockAchievementCarried(u: UserData, achievementId: string, xpReward: int): (r: UserData)
    ensures achievementId in u.achievements ==> r == u
    ensures achievementId !in u.achievements ==>
      && r.achievements == u.achievements + [achievementId]
      && u.level <= r.level && LevelNormal(r)
      && u.xp + xpReward == LevelSpan(u.level, r.level) + r.xp
      && r.(achievements := u.achievements, xp := u.xp, level := u.level) == u
  {
    if Includes(u.achievements, achievementId) then u
    else AddXpTo(u.(achievements := u.achievements + [achievementId]), xpReward)
  }

  /**
   * claimReward leaves the stake in the enrollment it pays out, so a later
   * withdrawStake pays it again: after a claim and a late withdrawal the user has
   * the stake twice over plus the reward.
   */
  lemma ClaimThenWithdrawPaysStakeTwice(u: UserData, courseId: string, now: int)
    requires UniqueIds(u.enrolledCourses)
    requires FirstMatch(u.enrolledCourses, ClaimableById(courseId)) != -1
    requires var e := u.enrolledCourses[FirstMatch(u.enrolledCourses, ClaimableById(courseId))];
      e.enrollmentTime + MinStakingPeriodMs <= now
    ensures var e := u.enrolledCourses[FirstMatch(u.enrolledCourses, ClaimableById(courseId))];
      var (_, claimed) := ClaimRewardIn(u, courseId);
      var (_, withdrawn) := WithdrawStakeFrom(claimed, courseId, now);
      && withdrawn.questTokens == u.questTokens + 2 * e.stakedAmount + ClaimRewardAmount
      && Total(withdrawn) == Total(u) + e.stakedAmount + ClaimRewardAmount
  {
    var es := u.enrolledCourses;
    var i := FirstMatch(es, ClaimableById(courseId));
    assert IndexOf(es, courseId) == i by {
      forall k | 0 <= k < |es| && es[k].courseId == courseId ensures k == i { }
    }
    var (_, claimed) := ClaimRewardIn(u, courseId);
    var ces := claimed.enrolledCourses;
    assert IndexOf(ces, courseId) == i;
    PatchedKeepsIds(es, courseId, MarkRewardClaimed);
    StakeSumFlagged(es, courseId, MarkRewardClaimed);
    WithdrawBurnsOnlyPenalty(claimed, courseId, now);
  }

  /** Corrected claim: the escrow is released as it is paid, so the payout is the stake plus the course's reward and nothing is left to withdraw. */
  function ClaimRewardSettling(u: UserData, courseId: string, rewardAmount: int): (r: (int, UserData))
    ensures r.0 == 0 <==> FirstMatch(u.enrolledCourses, ClaimableById(courseId)) == -1 || rewardAmount == 0
    ensures FirstMatch(u.enrolledCourses, ClaimableById(courseId)) == -1 ==> r == (0, u)
    ensures var i := FirstMatch(u.enrolledCourses, ClaimableById(courseId));
      0 <= i ==>
        && r.0 == rewardAmount
        && r.1.questTokens == u.questTokens + u.enrolledCourses[i].stakedAmount + rewardAmount
        && r.1.enrolledCourses == Patched(u.enrolledCourses, courseId, SettleClaim)
        && r.1.(questTokens := u.questTokens, enrolledCourses := u.enrolledCourses) == u
  {
    var es := u.enrolledCourses;
    var i := FirstMatch(es, ClaimableById(courseId));
    if i == -1 then (0, u)
    else
      (rewardAmount,
       u.(questTokens := u.questTokens + es[i].stakedAmount + rewardAmount,
          enrolledCourses := Patched(es, courseId, SettleClaim)))
  }

  /** With unique ids the corrected claim moves the stake out of escrow, so the token total rises by the reward alone. */
  lemma ClaimRewardSettlingConserves(u: UserData, courseId: string, rewardAmount: int)
    requires UniqueIds(u.enrolledCourses)
    ensures Total(ClaimRewardSettling(u, courseId, rewardAmount).1)
         == Total(u) + ClaimRewardSettling(u, courseId, rewardAmount).0
  {
    var es := u.enrolledCourses;
    var i := FirstMatch(es, ClaimableById(courseId));
    if i != -1 {
      assert IndexOf(es, courseId) == i by {
        forall k | 0 <= k < |es| && es[k].courseId == courseId ensures k == i { }
      }
      StakeSumSettled(es, courseId);
      StakeOfUnique(es, courseId);
    }
  }

  /** With the corrected claim, claim then withdraw adds only the reward to the user's tokens. */
  lemma SettlingClaimThenWithdrawConserves(u: UserData, courseId: string, rewardAmount: int, now: int)
    requires UniqueIds(u.enrolledCourses)
    requires FirstMatch(u.enrolledCourses, ClaimableById(courseId)) != -1
    ensures var (_, claimed) := ClaimRewardSettling(u, courseId, rewardAmount);
      var (paid, withdrawn) := WithdrawStakeFrom(claimed, courseId, now);
      && paid == 0
      && Total(withdrawn) == Total(u) + rewardAmount
  {
    var es := u.enrolledCourses;
    var i := FirstMatch(es, ClaimableById(courseId));
    assert IndexOf(es, courseId) == i by {
      forall k | 0 <= k < |es| && es[k].courseId == courseId ensures k == i { }
    }
    var (_, claimed) := ClaimRewardSettling(u, courseId, rewardAmount);
    var ces := claimed.enrolledCourses;
    assert IndexOf(ces, courseId) == i;
    StakeSumSettled(es, courseId);
    StakeOfUnique(es, courseId);
    WithdrawBurnsOnlyPenalty(claimed, courseId, now);
  }
}
