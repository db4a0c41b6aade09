# CyberTrek progression and token ledger in Dafny

CyberTrek is a browser-only e-learning front end. A wallet signs the user in. The
user then enrolls in courses by putting QUEST tokens in escrow, completes them,
claims rewards, stakes tokens for a fixed period and unlocks achievements that
grant experience points (XP) and levels. All state is in the browser.

This project models the ledger at the centre of that front end, with its callers:

- `Progress` (progress.dfy): the user record and every store action as a pure
  function of the old record. It also holds the record's invariants (unique
  enrollments, claims only on completed courses, no repeated ids, level at least 1)
  and the token total `Total` = spendable + pooled stake + course escrow. Lemmas
  state conservation, idempotence and that every action keeps the invariants.
- `UserStore` (user_store.dfy): the store as a class with a mutable `userData`
  field. Each action method is proved to leave exactly the record the matching
  `Progress` function gives. The level-up loop and the `find`/`findIndex` scans are
  `while` loops proved against `Progress.Carry` and `Progress.FirstMatch`.
- `Storage` (storage.dfy): localStorage as two maps. One holds string entries; the
  other holds the user records under `"user_" + address`.
- `CourseCatalog` (course_store.dfy): the seed catalog, lookup by id, and the
  nested update that marks a module completed.
- `StakingPage`, `ConnectWallet`, `Dashboard`, `AchievementsPage`: the page-level
  logic that reads or drives the ledger. This covers the reward estimate, the
  pre-stake checks and the first-stake achievement, wallet sign-in and first-time
  records, the address shortener, the unlock countdown and the achievement tabs.

Time (`Date.now()`) is a parameter `now`, in milliseconds. Integers are unbounded.
The store as modelled follows the code as written. Two defects found in it are
listed under Findings, each with a corrected function and its proof beside the
as-written one.

## Model

| member | source | states |
|---|---|---|
| Progress.Includes | lib/user-store.ts:188 | `list.includes(x)` holds exactly when x is in the list |
| Progress.AppendFreshKeepsNoDuplicates | lib/user-store.ts:187-190 | appending an id only when absent keeps an id list free of repeats |
| Progress.LevelSpanNonNegative | lib/user-store.ts:61-64 | the XP paid to climb levels from 0 upward is never negative |
| Progress.Carry | lib/user-store.ts:58-65 | the level-up carry: the level never falls, the remainder ends below the new level's threshold (level * 1000), and no XP is lost or made (input = cost of levels climbed + remainder); the level stays put iff the input is below the threshold |
| Progress.CarryUnique | lib/user-store.ts:58-65 | any (remainder, level) that accounts for all the XP with the remainder below the threshold is the one the carry returns |
| Progress.FirstMatch | lib/user-store.ts:108-110 | `findIndex`: -1 iff no entry matches, otherwise the first matching index |
| Progress.RemoveAt | lib/user-store.ts:127-128 | `splice(i, 1)` on a copy: one entry fewer, entries before i kept, entries after i shifted down by one |
| Progress.Patched | lib/user-store.ts:152-154 | the `map` over enrollments: same length, each entry of the named course patched, every other entry unchanged |
| Progress.StakeSumAppend | lib/user-store.ts:165 | the escrow of two lists joined is the sum of their escrows |
| Progress.StakeSumRemoveAt | lib/user-store.ts:127-128 | removing an entry removes exactly its stake from the escrow |
| Progress.StakeSumFlagged | lib/user-store.ts:182-184 | marking entries completed or claimed leaves the escrow as it was |
| Progress.PatchedAbsent | lib/user-store.ts:152-154 | an update for a course not enrolled in changes no entry |
| Progress.StakeSumToppedUp | lib/user-store.ts:150-154 | with unique ids, topping up an enrolled course adds the amount to the escrow once |
| Progress.StakeSumSettled | lib/user-store.ts:215-218 | releasing a course's escrow lowers the total escrow by exactly the stake held for that course |
| Progress.StakeOfUnique | lib/user-store.ts:146 | with unique ids, the stake held for a course is that of its single entry |
| Progress.StakeOfAbsent | lib/user-store.ts:146 | a course not enrolled in holds no stake |
| Progress.AddXpTo | lib/user-store.ts:54-74 | addXp: the level never falls, the result is normal (xp below the threshold), all XP is accounted for by levels climbed plus remainder, the remainder is non-negative after a level-up, nothing else changes |
| Progress.AddQuestTokensTo | lib/user-store.ts:76-86 | addQuestTokens: the token total rises by exactly the amount (no sign check), nothing else changes |
| Progress.StakeTokensIn | lib/user-store.ts:88-102 | stakeTokens: a short balance changes nothing; otherwise the amount moves from spendable to pooled, the end time becomes now + days * 86400000, and the token total is conserved |
| Progress.EarlyWithdrawalPenalty | lib/user-store.ts:115-122 | the fee is 0 from seven days after enrolling; before that it is floor(20% of the stake), stated as 5p <= stake < 5p + 5, and lies between 0 and the stake |
| Progress.WithdrawStakeFrom | lib/user-store.ts:104-139 | withdrawStake: no enrollment returns 0 and changes nothing; otherwise returns stake minus fee, credits it, removes that entry in order, leaves the pooled stake |
| Progress.EnrollIn | lib/user-store.ts:141-175 | enrollInCourse: a short balance changes nothing; an enrolled course gets the amount added to its stake in place; a new course is appended uncompleted and unclaimed; the balance falls by the amount |
| Progress.CompleteCourseIn | lib/user-store.ts:177-199 | completeCourse: the course is listed once among completed courses and its enrollments are marked completed; nothing else changes |
| Progress.ClaimRewardIn | lib/user-store.ts:201-229 | claimReward: pays 0 and changes nothing iff no completed unclaimed enrollment exists; otherwise credits stake + 50, marks the course claimed and returns 50 |
| Progress.UnlockAchievementIn | lib/user-store.ts:231-249 | unlockAchievement: an unlocked id changes nothing; otherwise the id is appended and xp rises by 100 with the level unchanged |
| Progress.AddXpExample | lib/user-store.ts:58-65 | level 1 with 800 XP plus 500 gives level 2 with 300 |
| Progress.WithdrawBurnsOnlyPenalty | lib/user-store.ts:119-134 | a withdrawal lowers the token total by exactly the fee |
| Progress.WithdrawUnenrolls | lib/user-store.ts:127-128 | after a withdrawal the course is no longer enrolled in |
| Progress.EnrollConserves | lib/user-store.ts:141-175 | enrolling moves tokens into escrow with the token total unchanged |
| Progress.CompleteCourseIdempotent | lib/user-store.ts:177-199 | completing a course twice is completing it once |
| Progress.CompleteCourseMarks | lib/user-store.ts:182-184 | after completion each entry of the course is completed and every other entry is unchanged |
| Progress.ClaimRewardOnce | lib/user-store.ts:205-218 | a second claim of the same course returns 0 and changes nothing |
| Progress.ClaimRequiresCompletion | lib/user-store.ts:205-209 | while no entry of the course is completed a claim returns 0 and changes nothing |
| Progress.UnlockAchievementIdempotent | lib/user-store.ts:236-247 | a second unlock changes nothing, so the 100 XP is granted at most once |
| Progress.RemoveAtKeepsInvariants | lib/user-store.ts:127-128 | removing an entry keeps ids unique and claims only on completed entries |
| Progress.PatchedKeepsIds | lib/user-store.ts:152-154 | the per-course update keeps ids unique |
| Progress.AppendNewKeepsInvariants | lib/user-store.ts:157-165 | appending a fresh unclaimed entry for a course not enrolled in keeps both enrollment invariants |
| Progress.ClaimKeepsClaimedCompleted | lib/user-store.ts:205-218 | with unique ids, marking the found course claimed claims only completed entries |
| Progress.StepKeepsConsistent | lib/user-store.ts:54-249 | every store action keeps the record consistent: level at least 1, unique enrollments, claims only on completed courses, no repeated completed or achievement ids |
| Progress.StepKeepsLevelNormal | lib/user-store.ts:54-229 | every action other than unlockAchievement keeps xp below the level's threshold |
| Progress.RunKeepsConsistent | lib/user-store.ts:54-249 | any sequence of store actions, each at its own clock reading, keeps a consistent record consistent |
| Progress.UnlockLeavesLevelUnnormal | lib/user-store.ts:240-247 | as written, unlocking just below a threshold leaves xp at or above it at the same level |
| Progress.UnlockAchievementCarried | lib/user-store.ts:236-247 | corrected unlock: appends the id once and routes the XP through the carry, so the record stays normal and all XP is accounted for; tokens, enrollments, completed courses and address are unchanged |
| Progress.ClaimThenWithdrawPaysStakeTwice | lib/user-store.ts:205-224 | as written, claim then a late withdraw pays the stake twice: spendable rises by 2 * stake + 50 and the total by stake + 50 |
| Progress.ClaimRewardSettling | lib/user-store.ts:205-224 | corrected claim: with nothing claimable pays 0 and changes nothing; otherwise returns the reward, credits stake + reward, zeroes the course's escrow and marks it claimed, and changes no other field |
| Progress.ClaimRewardSettlingConserves | lib/user-store.ts:205-224 | with unique ids the corrected claim raises the token total by exactly what it returns |
| Progress.SettlingClaimThenWithdrawConserves | lib/user-store.ts:205-224 | with the corrected claim a later withdraw pays 0 and the total rises by the reward alone |
| UserStore.LevelUp | lib/user-store.ts:58-65 | the while loop returns exactly the carry of (xp, level), with the level not lower and xp below the threshold |
| UserStore.FindFirst | lib/user-store.ts:108 | the scan returns the first matching index or -1, as FirstMatch |
| UserStore.Store.constructor | lib/user-store.ts:31-33 | a new store has no record, is not authenticated and has no wallet type |
| UserStore.Store.SetUserData | lib/user-store.ts:35 | the record becomes the given data |
| UserStore.Store.SetAuthenticated | lib/user-store.ts:37-41 | the flag and wallet type become the given ones |
| UserStore.Store.Logout | lib/user-store.ts:43-52 | the three sign-in entries leave storage, nothing else in it changes, and the store is signed out with no record |
| UserStore.Store.AddXp | lib/user-store.ts:54-74 | no record: nothing; otherwise the record becomes AddXpTo of the old one |
| UserStore.Store.AddQuestTokens | lib/user-store.ts:76-86 | the record becomes AddQuestTokensTo of the old one |
| UserStore.Store.StakeTokens | lib/user-store.ts:88-102 | the record becomes StakeTokensIn of the old one |
| UserStore.Store.WithdrawStake | lib/user-store.ts:104-139 | returns and stores WithdrawStakeFrom of the old record; 0 with no record |
| UserStore.Store.EnrollInCourse | lib/user-store.ts:141-175 | the record becomes EnrollIn of the old one |
| UserStore.Store.CompleteCourse | lib/user-store.ts:177-199 | the record becomes CompleteCourseIn of the old one |
| UserStore.Store.ClaimReward | lib/user-store.ts:201-229 | returns and stores ClaimRewardIn of the old record; 0 with no record |
| UserStore.Store.UnlockAchievement | lib/user-store.ts:231-249 | the record becomes UnlockAchievementIn of the old one |
| Storage.UserKey | components/connect-wallet.tsx:135 | the record key is the address behind a five-character prefix |
| Storage.LocalStorage.SetItem | components/connect-wallet.tsx:60-62 | the entry is set and no other changes |
| Storage.LocalStorage.RemoveItem | lib/user-store.ts:44-46 | the entry is removed and no other changes |
| Storage.LocalStorage.SetRecord | components/connect-wallet.tsx:151 | the record is stored under its key and no other changes |
| CourseCatalog.FindById | lib/course-store.ts:286-292 | `find` by id: nothing iff no element has the id, otherwise the first element with it |
| CourseCatalog.UpdateCourses | lib/course-store.ts:294-309 | the same courses with the same module counts; only the named module of the named course takes the flag, every other field unchanged |
| CourseCatalog.UpdateUnknownIsNoOp | lib/course-store.ts:297-309 | an update naming no existing module of the course changes nothing |
| CourseCatalog.UpdateIdempotent | lib/course-store.ts:297-309 | applying the update twice is applying it once |
| CourseCatalog.UpdateKeepsCatalogValid | lib/course-store.ts:297-309 | the update keeps answer indices valid, course ids distinct and free courses stake-free |
| CourseCatalog.SeedQuizAnswersValid | lib/course-store.ts:21-188 | every seeded quiz answer index points at one of its options |
| CourseCatalog.SeedCourseIdsDistinct | lib/course-store.ts:23-155 | the seeded course ids are distinct |
| CourseCatalog.SeedFreeCoursesNeedNoStake | lib/course-store.ts:29-162 | every seeded non-premium course requires no stake |
| CourseCatalog.CourseStore.GetCourse | lib/course-store.ts:286-288 | getCourse: nothing iff no catalog course has the id, otherwise the first catalog course with that id |
| CourseCatalog.CourseStore.GetAchievement | lib/course-store.ts:290-292 | getAchievement: nothing iff no catalog achievement has the id, otherwise the first catalog achievement with that id |
| CourseCatalog.CourseStore.constructor | lib/course-store.ts:21-251 | a new store holds the seed courses and achievements |
| CourseCatalog.CourseStore.UpdateCourseProgress | lib/course-store.ts:294-312 | the course list becomes UpdateCourses of the old one |
| StakingPage.DurationDays | app/staking/page.tsx:167-186 | the period buttons offer 7, 14 or 30 days only |
| StakingPage.CalculateReward | app/staking/page.tsx:71-80 | 0 for any other period; otherwise floor(5%, 12% or 30% of the amount), as 100r <= p * amount < 100r + 100 |
| StakingPage.RewardBounded | app/staking/page.tsx:71-80 | the reward on a non-negative amount lies between 0 and the amount |
| StakingPage.RewardMonotoneInAmount | app/staking/page.tsx:71-80 | a larger amount never earns less over the same period |
| StakingPage.RewardMonotoneInTier | app/staking/page.tsx:75-77 | 30 days earns at least 14, which earns at least 7 |
| StakingPage.TimeUntilUnlock | app/staking/page.tsx:82-90 | nothing iff signed out or matured; otherwise whole days and hours (0 to 23) that are the time left rounded down to the hour |
| StakingPage.CheckStakeAmount | app/staking/page.tsx:34-50 | accepted iff 0 < amount <= balance; invalid iff amount <= 0 |
| StakingPage.AcceptedStakeMovesAmount | app/staking/page.tsx:43-52 | a stake the page accepts moves exactly the amount and leaves a non-negative balance |
| StakingPage.StoreAcceptsNegativeStake | lib/user-store.ts:88-90 | the store alone takes a negative stake, raising the balance and making the pooled stake negative |
| StakingPage.Page.constructor | app/staking/page.tsx:19-20 | the amount starts at 0 and the period at 7 days |
| StakingPage.Page.SetStakeAmount | app/staking/page.tsx:19 | the amount becomes the given one |
| StakingPage.Page.SetStakeDuration | app/staking/page.tsx:20 | the period becomes the given one |
| StakingPage.Page.HandleStakeTokens | app/staking/page.tsx:31-69 | signed out or a rejected amount changes nothing; otherwise stakes once, unlocks first-stake iff the pooled stake was 0 before, and resets the amount to 0 |
| ConnectWallet.NewUserRecord | components/connect-wallet.tsx:139-149 | the first-time record: 100 tokens, level 1, no XP, nothing staked, end time 0, empty lists; it is consistent and normal with total 100 |
| ConnectWallet.ReachableRecordsConsistent | components/connect-wallet.tsx:139-149 | every record reachable from a first-time record by store actions, in any order and at any times, is consistent |
| ConnectWallet.GetOrCreate | components/connect-wallet.tsx:133-159 | the stored record when one exists, with storage unchanged; otherwise a new record, also stored; no other key appears or disappears |
| ConnectWallet.GetOrCreateIdempotent | components/connect-wallet.tsx:133-159 | a second sign-in finds the record the first left |
| ConnectWallet.GetOrCreateKeepsOthers | components/connect-wallet.tsx:135-151 | signing in never alters another wallet's record |
| ConnectWallet.InitializeUserData | components/connect-wallet.tsx:133-159 | storage and the store's record become GetOrCreate of the old storage |
| ConnectWallet.LowerChar | components/connect-wallet.tsx:55 | upper-case ASCII letters map to lower case, every other character to itself |
| ConnectWallet.Lower | components/connect-wallet.tsx:55 | `toLowerCase` on ASCII: same length, each character lowered by LowerChar |
| ConnectWallet.LowerEqualPointwise | components/connect-wallet.tsx:55 | two lowered strings are equal iff the strings have the same length and agree letter by letter after lowering |
| ConnectWallet.SameAddress | components/connect-wallet.tsx:55-57 | the recovered and account addresses match iff they have the same length and agree letter by letter ignoring case |
| ConnectWallet.SameAddressLowered | components/connect-wallet.tsx:55-57 | an address passes the check against its own lower-case spelling |
| ConnectWallet.Connector.constructor | components/connect-wallet.tsx:16-18 | not connecting, no error, no wallet chosen |
| ConnectWallet.Connector.ConnectMetaMask | components/connect-wallet.tsx:23-81 | no extension, no account or a mismatched signature gives that error and changes neither storage nor store; success iff all checks pass (wallet requests taken to succeed), then the three entries are set, the record is loaded or created and the store is signed in with MetaMask |
| ConnectWallet.Connector.ConnectPhantom | components/connect-wallet.tsx:83-131 | fails iff no extension (wallet requests taken to succeed), changing nothing; otherwise the same sign-in under Phantom with no signature check |
| Dashboard.Clamp | app/dashboard/page.tsx:62 | a `substring` bound clamped into [0, n], unchanged when already inside |
| Dashboard.Substring | app/dashboard/page.tsx:62 | `substring(start, end)` is the slice when the bounds are in order and inside |
| Dashboard.SubstringFrom | app/dashboard/page.tsx:62 | `substring(start)` is the suffix from the clamped start |
| Dashboard.FormatWalletAddress | app/dashboard/page.tsx:60-63 | "" stays ""; otherwise the first min(6, n) characters, "...", and the characters from max(0, n - 4) |
| Dashboard.FormatLongAddress | app/dashboard/page.tsx:62 | an address of 10 or more characters gives 13: its first 6, "...", its last 4 |
| Dashboard.FormatShortAddressKeepsAll | app/dashboard/page.tsx:62 | an address of at most 6 characters is shown whole before the dots |
| Dashboard.UnlockDaysLabel | app/dashboard/page.tsx:157-159 | shown iff tokens are pooled and the end lies ahead; N is the time left in days rounded up, at least 1 |
| Dashboard.UnlockDaysNonIncreasing | app/dashboard/page.tsx:157-159 | a later moment never shows more days |
| AchievementsPage.IsAchievementUnlocked | app/achievements/page.tsx:31-34 | false when signed out; otherwise true iff the record lists the id |
| AchievementsPage.OfCategory | app/achievements/page.tsx:38 | `filter` by category: exactly the achievements of that category, never more than the catalog |
| AchievementsPage.OfCategoryAppend | app/achievements/page.tsx:38 | filtering a joined list is joining the filtered parts |
| AchievementsPage.OfCategoryKeepsOrder | app/achievements/page.tsx:38 | two achievements of the category keep their relative order |
| AchievementsPage.GetFilteredAchievements | app/achievements/page.tsx:36-39 | "all" gives the catalog as is; any other tab gives OfCategory |
| AchievementsPage.UntabbedCategoryOnlyUnderAll | app/achievements/page.tsx:116-138 | an achievement whose category has no tab shows under "all" and under no other tab |
| AchievementsPage.SeedUntabbedCategories | lib/course-store.ts:212-247 | in the seed catalog the untabbed achievements are first-stake and crypto-wizard |

## Left out

- Wallet providers, message signing and signature recovery are outside the model. Whether an extension is present, its accounts, the recovered address and the nonce are parameters. Random nonce generation is not modelled.
- ConnectWallet.Connector.ConnectMetaMask, ConnectWallet.Connector.ConnectPhantom: assume the wallet requests (`eth_requestAccounts`, `phantom.connect`, `signMessage`) succeed. In the source a declined request throws, and the catch sets the error with nothing stored (components/connect-wallet.tsx:36, 50, 97, 106, 125-127). The "error iff" clauses therefore cover only the checks the code makes itself.
- ConnectWallet.LowerChar: folds only the ASCII letters A-Z, where `toLowerCase` folds all Unicode capitals; this suffices because the addresses compared are hexadecimal.
- ConnectWallet.Lower: keeps the length, where `toLowerCase` can change it for a few non-ASCII characters; hexadecimal addresses contain none.
- `initializeIndexedDB` (components/connect-wallet.tsx:161 onward) is not part of this model: browser I/O with no effect on the ledger.
- zustand `persist` and JSON encoding: records are held decoded in `Storage.LocalStorage.records`. The round trip is assumed exact.
- `Storage.LocalStorage` is not written back after each store action. In the source, the `user_` + address record is written only when it is first created, while the store persists under its own key. The model keeps the two apart in the same way.
- UI side effects are not modelled: navigation, toasts, the loading flags, the `onAuthenticated` callback, animations, icons and the glitch-text component.
- The course page (app/course/[id]/page.tsx) is not part of this model: quiz grading and its calls into the stores are outside the core.
- Display text in the catalog is not carried: course descriptions, levels, durations, image paths, module content and quiz question wording. The model keeps ids, titles, flags, amounts, options and answer indices.
- `calculateLevelProgress` (app/dashboard/page.tsx:65-71) is floating-point display. It subtracts (level - 1) * 1000 from an xp that addXp already stores as a remainder, so from level 2 on it is negative whenever xp < (level - 1) * 1000.
- StakingPage.TimeUntilUnlock, Dashboard.UnlockDaysLabel: each reads the clock once, as `now`, where the source calls `Date.now()` twice, once in the test and once for the time left (app/staking/page.tsx:83-85, app/dashboard/page.tsx:157-158). If the end time passes between the two calls, the source briefly shows -1 days and -1 hours on the staking page and "Unlocks in 0 days" on the dashboard. The bounds these contracts state (days and hours non-negative, N at least 1) hold only for a single reading.
- Dashboard.UnlockDaysLabel: the dashboard reads its record from the `user_` + address entry (app/dashboard/page.tsx:44-47), which is written only when first created and so holds no pooled stake. In the app as shipped the label is therefore never shown. The model states the label for whatever record it is given.
- The achievements completion rate (app/achievements/page.tsx:98) is a rounded floating-point display value.
- The dashboard's duplicated mock catalogs and placeholder unlock flags are display-only data.
- The parsing of the stake amount input field is not modelled; the page's `stakeAmount` is taken as an integer.
- StakingPage.CalculateReward: uses integer percentages (5, 12, 30) where the source multiplies by the binary fractions 0.05, 0.12 and 0.3. The two floors agree for ordinary amounts. Near the top of the exactly representable range, from about 4.7e15 up to 2^53, the float product can round up to the next integer, and the source's reward is then one higher: 12% of 4691249611844283 gives 562949953421314 against the exact 562949953421313.
- JavaScript numbers are 64-bit floats. The model uses unbounded integers and so ignores precision loss above 2^53.
- UserStore.Store.SetUserData: accepts any record, as the source does for parsed JSON. The invariants are proved for records built by the store's own actions from a first-time record.

## Findings

| source | as written | input that shows it | evidently intended | confidence | as-written member | corrected member |
|---|---|---|---|---|---|---|
| lib/user-store.ts:240-247 | unlockAchievement adds 100 XP without the level-up carry that addXp applies | level 1 with 950 XP, unlock a new achievement: 1050 XP at level 1, above the 1000 threshold | the achievement XP goes through the same carry as addXp, giving level 2 with 50 XP | not executed | Progress.UnlockLeavesLevelUnnormal | Progress.UnlockAchievementCarried |
| lib/user-store.ts:205-224 | claimReward credits the enrollment's stake but leaves it in the enrollment, which withdrawStake then pays again | enroll 100, complete, claim, withdraw after 7 days: 100 + 50 + 100 credited on a 100-token stake | a claim releases the escrow it pays, so a later withdrawal pays nothing | not executed | Progress.ClaimThenWithdrawPaysStakeTwice | Progress.ClaimRewardSettling |
