/**
 * The course store of lib/course-store.ts: the seed catalog of courses and
 * achievements, lookup by id, and the nested update that marks a module of a
 * course completed.
 */
module CourseCatalog {
  import opened Wrappers

  /** A quiz question as the ledger needs it: its options and the index of the right one (the wording is display text). */
  datatype QuizQuestion = QuizQuestion(id: string, options: seq<string>, correctAnswer: int)

  datatype CourseModule = CourseModule(id: string, title: string, quizQuestions: seq<QuizQuestion>, completed: bool)

  datatype Course = Course(
    id: string,
    title: string,
    premium: bool,
    stakingRequirement: int,
    rewardAmount: int,
    minStakingPeriodDays: int,
    modules: seq<CourseModule>)

  datatype Achievement = Achievement(
    id: string,
    title: string,
    xpReward: int,
    category: string,
    difficulty: int,
    isActive: bool)

  // ---------------------------------------------------------------------------
  // Lookup

  /**
   * `xs.find(x => x.id === id)`, for courses and achievements alike with `idOf`
   * reading the id: the first element with that id, or undefined.
   */
  function FindById<T>(xs: seq<T>, idOf: T -> string, id: string): (r: Option<T>)
    ensures r.None? <==> forall k :: 0 <= k < |xs| ==> idOf(xs[k]) != id
    ensures r.Some? ==> exists k :: 0 <= k < |xs| && xs[k] == r.value
                                    && idOf(xs[k]) == id
                                    && forall j :: 0 <= j < k ==> idOf(xs[j]) != id
  {
    if xs == [] then None
    else if idOf(xs[0]) == id then Some(xs[0])
    else
      var rest := FindById(xs[1..], idOf, id);
      assert rest.Some? ==> exists k :: 0 < k < |xs| && xs[k] == rest.value
                                         && idOf(xs[k]) == id
                                         && forall j :: 0 <= j < k ==> idOf(xs[j]) != id by {
        if rest.Some? {
          var k :| 0 <= k < |xs[1..]| && xs[1..][k] == rest.value
                   && idOf(xs[1..][k]) == id
                   && forall j :: 0 <= j < k ==> idOf(xs[1..][j]) != id;
          assert xs[k + 1] == rest.value;
          forall j | 0 <= j < k + 1 ensures idOf(xs[j]) != id {
            if j > 0 {
              assert xs[j] == xs[1..][j - 1];
            }
          }
        }
      }
      rest
  }

  // ---------------------------------------------------------------------------
  // Module completion

  /** `modules.map(m => m.id === moduleId ? { ...m, completed } : m)`. */
  function UpdateModules(modules: seq<CourseModule>, moduleId: string, completed: bool): seq<CourseModule> {
    seq(|modules|, k requires 0 <= k < |modules| =>
      if modules[k].id == moduleId then modules[k].(completed := completed) else modules[k])
  }

  /**
   * The new course list of updateCourseProgress: the same courses with the same
   * number of modules each, where only modules `moduleId` of courses `courseId`
   * take the flag and every other course, module and field is as it was.
   */
  function UpdateCourses(courses: seq<Course>, courseId: string, moduleId: string, completed: bool): (r: seq<Course>)
    ensures |r| == |courses|
    ensures forall k :: 0 <= k < |courses| ==>
      && r[k].(modules := courses[k].modules) == courses[k]
      && |r[k].modules| == |courses[k].modules|
      && forall m :: 0 <= m < |courses[k].modules| ==>
           var (old_, new_) := (courses[k].modules[m], r[k].modules[m]);
           new_ == if courses[k].id == courseId && old_.id == moduleId then old_.(completed := completed) else old_
  {
    seq(|courses|, k requires 0 <= k < |courses| =>
      if courses[k].id == courseId
      then courses[k].(modules := UpdateModules(courses[k].modules, moduleId, completed))
      else courses[k])
  }

  /** An update naming no course of the list, or no module of that course, leaves the list as it was. */
  lemma UpdateUnknownIsNoOp(courses: seq<Course>, courseId: string, moduleId: string, completed: bool)
    requires forall k, m :: 0 <= k < |courses| && 0 <= m < |courses[k].modules| && courses[k].id == courseId
               ==> courses[k].modules[m].id != moduleId
    ensures UpdateCourses(courses, courseId, moduleId, completed) == courses
  {
    var r := UpdateCourses(courses, courseId, moduleId, completed);
    forall k | 0 <= k < |courses| ensures r[k] == courses[k] {
      assert r[k].modules == courses[k].modules;
    }
  }

  /** Applying the same update twice is applying it once. */
  lemma UpdateIdempotent(courses: seq<Course>, courseId: string, moduleId: string, completed: bool)
    ensures var once := UpdateCourses(courses, courseId, moduleId, completed);
      UpdateCourses(once, courseId, moduleId, completed) == once
  {
    var once := UpdateCourses(courses, courseId, moduleId, completed);
    var twice := UpdateCourses(once, courseId, moduleId, completed);
    forall k | 0 <= k < |courses| ensures twice[k] == once[k] {
      assert twice[k].modules == once[k].modules;
    }
  }

  // ---------------------------------------------------------------------------
  // The seed catalog

  /** A quiz's correct answer indexes one of its options. */
  predicate AnswerValid(q: QuizQuestion) {
    0 <= q.correctAnswer < |q.options|
  }

  predicate ModuleAnswersValid(m: CourseModule) {
    forall q :: 0 <= q < |m.quizQuestions| ==> AnswerValid(m.quizQuestions[q])
  }

  ghost predicate QuizAnswersValid(courses: seq<Course>) {
    forall k, m :: 0 <= k < |courses| && 0 <= m < |courses[k].modules| ==> ModuleAnswersValid(courses[k].modules[m])
  }

  ghost predicate DistinctCourseIds(courses: seq<Course>) {
    forall i, j :: 0 <= i < j < |courses| ==> courses[i].id != courses[j].id
  }

  /** A course that is not premium asks no stake. */
  ghost predicate FreeCoursesNeedNoStake(courses: seq<Course>) {
    forall k :: 0 <= k < |courses| && !courses[k].premium ==> courses[k].stakingRequirement == 0
  }

  function SingleQuizModule(id: string, title: string, options: seq<string>, answer: int): CourseModule {
    CourseModule(id, title, [QuizQuestion("q1", options, answer)], false)
  }

  function IntroCybersec(): Course {
    Course("intro-cybersec", "Introduction to Cybersecurity", false, 0, 50, 0,
      [SingleQuizModule("cybersec-basics", "Cybersecurity Basics",
         ["To make computers faster", "To protect systems from unauthorized access",
          "To develop new software", "To increase internet speed"], 1)])
  }

  function EthicalHacking(): Course {
    Course("ethical-hacking", "Ethical Hacking Basics", true, 50, 100, 7,
      [SingleQuizModule("ethical-intro", "Introduction to Ethical Hacking",
         ["Ethical hackers use different tools", "Ethical hackers have permission to test systems",
          "Ethical hackers only work at night", "Ethical hackers are faster"], 1)])
  }

  function Blockchain101(): Course {
    Course("blockchain-101", "Blockchain Fundamentals", false, 0, 50, 0,
      [SingleQuizModule("blockchain-intro", "Introduction to Blockchain",
         ["Centralized control", "Fast transaction processing",
          "Immutable record-keeping", "Low energy consumption"], 2)])
  }

  function SmartContracts(): Course {
    Course("smart-contracts", "Smart Contract Development", true, 100, 200, 14,
      [SingleQuizModule("smart-intro", "Introduction to Smart Contracts",
         ["JavaScript", "Python", "Solidity", "C++"], 2)])
  }

  function Cryptography(): Course {
    Course("cryptography", "Applied Cryptography", true, 75, 150, 10,
      [SingleQuizModule("crypto-intro", "Introduction to Cryptography",
         ["Symmetric uses one key, asymmetric uses two keys", "Symmetric is faster, asymmetric is slower",
          "Symmetric is newer, asymmetric is older", "There is no difference"], 0)])
  }

  /** The five seeded courses, in catalog order. */
  function SeedCourses(): seq<Course> {
    [IntroCybersec(), EthicalHacking(), Blockchain101(), SmartContracts(), Cryptography()]
  }

  function SeedAchievements(): seq<Achievement> {
    [ Achievement("first-login", "Digital Initiate", 50, "general", 1, true),
      Achievement("first-course", "Knowledge Seeker", 100, "learning", 1, true),
      Achievement("first-stake", "Token Staker", 150, "staking", 2, true),
      Achievement("security-expert", "Security Expert", 500, "cybersecurity", 4, true),
      Achievement("blockchain-master", "Blockchain Master", 500, "blockchain", 4, true),
      Achievement("crypto-wizard", "Crypto Wizard", 300, "cryptography", 3, true)
    ]
  }

  lemma SeedQuizAnswersValid()
    ensures QuizAnswersValid(SeedCourses())
  {
    var cs := SeedCourses();
    assert ModuleAnswersValid(cs[0].modules[0]) && ModuleAnswersValid(cs[1].modules[0]);
    assert ModuleAnswersValid(cs[2].modules[0]) && ModuleAnswersValid(cs[3].modules[0]);
    assert ModuleAnswersValid(cs[4].modules[0]);
  }

  lemma SeedCourseIdsDistinct()
    ensures DistinctCourseIds(SeedCourses())
  {
    var cs := SeedCourses();
    assert cs[0].id[0] == 'i' && cs[1].id[0] == 'e' && cs[2].id[0] == 'b';
    assert cs[3].id[0] == 's' && cs[4].id[0] == 'c';
  }

  lemma SeedFreeCoursesNeedNoStake()
    ensures FreeCoursesNeedNoStake(SeedCourses())
  {
  }

  /** Marking modules completed keeps a well-formed catalog well formed. */
  lemma UpdateKeepsCatalogValid(courses: seq<Course>, courseId: string, moduleId: string, completed: bool)
    requires QuizAnswersValid(courses) && DistinctCourseIds(courses) && FreeCoursesNeedNoStake(courses)
    ensures var r := UpdateCourses(courses, courseId, moduleId, completed);
      QuizAnswersValid(r) && DistinctCourseIds(r) && FreeCoursesNeedNoStake(r)
  {
    var r := UpdateCourses(courses, courseId, moduleId, completed);
    forall k, m | 0 <= k < |r| && 0 <= m < |r[k].modules|
      ensures ModuleAnswersValid(r[k].modules[m])
    {
      assert r[k].modules[m].quizQuestions == courses[k].modules[m].quizQuestions;
    }
  }

  class CourseStore {
    var courses: seq<Course>
    var achievements: seq<Achievement>

    constructor ()
      ensures courses == SeedCourses() && achievements == SeedAchievements()
    {
      courses := SeedCourses();
      achievements := SeedAchievements();
    }

    /** getCourse: the first catalog course with the id, or nothing when no course has it. */
    function GetCourse(id: string): (r: Option<Course>)
      reads this
      ensures r.None? <==> forall k :: 0 <= k < |courses| ==> courses[k].id != id
      ensures r.Some? ==> exists k :: 0 <= k < |courses| && courses[k] == r.value
                                      && courses[k].id == id
                                      && forall j :: 0 <= j < k ==> courses[j].id != id
    {
      FindById(courses, (c: Course) => c.id, id)
    }

    /** getAchievement: the first catalog achievement with the id, or nothing when none has it. */
    function GetAchievement(id: string): (r: Option<Achievement>)
      reads this
      ensures r.None? <==> forall k :: 0 <= k < |achievements| ==> achievements[k].id != id
      ensures r.Some? ==> exists k :: 0 <= k < |achievements| && achievements[k] == r.value
                                      && achievements[k].id == id
                                      && forall j :: 0 <= j < k ==> achievements[j].id != id
    {
      FindById(achievements, (a: Achievement) => a.id, id)
    }

    method UpdateCourseProgress(courseId: string, moduleId: string, completed: bool)
      modifies this`courses
      ensures courses == UpdateCourses(old(courses), courseId, moduleId, completed)
    {
      courses := UpdateCourses(courses, courseId, moduleId, completed);
    }
  }
}
