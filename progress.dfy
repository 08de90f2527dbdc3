/** The learner profile of HomeView.swift: points and levels, the list of
    recently opened lessons, the daily streak and the daily goals, and the
    `UserManager` that changes them and writes the profile through to storage. */
module Progress {
  import opened Basics

  /** The `Lesson` record shown under "Continue Learning". */
  datatype LessonSummary = LessonSummary(
    id: Uuid,
    title: string,
    description: string,
    progress: Fraction,
    lastAccessed: Instant)

  datatype DailyGoals = DailyGoals(
    lessonsCompleted: int,
    practiceCompleted: bool,
    quizCompleted: bool,
    lastResetDate: Day)

  datatype User = User(
    name: string,
    points: int,
    level: int,
    profileImageName: Option<string>,
    lastLessons: seq<LessonSummary>,
    streak: int,
    lastLoginDate: Day,
    dailyGoals: DailyGoals)

  const PointsPerLevel := 100

  /** Most entries kept in `lastLessons` by `addLesson`. */
  const RecentLimit := 5

  // ---------------------------------------------------------------- levels

  /** The level `addPoints` stores for a point total. */
  function LevelFor(points: int): int {
    TruncDiv(points, PointsPerLevel) + 1
  }

  /** `User.pointsToNextLevel`: what is missing from the current hundred,
      together with `LevelProgress` always making up a whole hundred. */
  function PointsToNextLevel(points: int): (r: int)
    ensures points >= 0 ==> 1 <= r <= PointsPerLevel
    ensures points < 0 ==> PointsPerLevel <= r < 2 * PointsPerLevel
    ensures r + LevelProgress(points).num == PointsPerLevel
  {
    PointsPerLevel - TruncRem(points, PointsPerLevel)
  }

  /** `User.levelProgress`, as a fraction of `PointsPerLevel`; a negative
      total gives a negative fraction, as Swift's `%` does. */
  function LevelProgress(points: int): (r: Fraction)
    ensures r.den == PointsPerLevel
    ensures -PointsPerLevel < r.num < PointsPerLevel
    ensures points >= 0 ==> r.num >= 0
    ensures points < 0 ==> r.num <= 0
  {
    Fraction(TruncRem(points, PointsPerLevel), PointsPerLevel)
  }

  /** The stored level agrees with the stored points. */
  ghost predicate LevelConsistent(u: User) {
    u.level == LevelFor(u.points)
  }

  /** For a non-negative total the three derived quantities fit together:
      the level counts whole hundreds, the progress numerator is what is left
      over, and the points still needed complete the hundred. */
  lemma LevelArithmetic(points: int)
    requires points >= 0
    ensures LevelFor(points) == points / 100 + 1
    ensures 1 <= PointsToNextLevel(points) <= 100
    ensures 0 <= LevelProgress(points).num < 100
    ensures PointsToNextLevel(points) + LevelProgress(points).num == 100
    ensures points == 100 * (LevelFor(points) - 1) + LevelProgress(points).num
  {
  }

  /** Earning points never lowers the level. */
  lemma {:induction false} LevelMonotone(p: int, q: int)
    requires 0 <= p <= q
    ensures LevelFor(p) <= LevelFor(q)
    decreases q - p
  {
    if p < q {
      LevelMonotone(p, q - 1);
      assert (q - 1) / 100 <= q / 100;
    }
  }

  // ---------------------------------------------------------- fresh profile

  /** `DailyGoals.empty()`, with the clock reading `today`. */
  function EmptyGoals(today: Day): (g: DailyGoals)
    ensures g.lessonsCompleted == 0 && !g.practiceCompleted && !g.quizCompleted
    ensures g.lastResetDate == today
  {
    DailyGoals(0, false, false, today)
  }

  /** The profile `UserManager.init` makes when nothing can be decoded. */
  function FreshUser(today: Day): (u: User)
    ensures LevelConsistent(u)
  {
    User("", 0, 1, None, [], 0, today, EmptyGoals(today))
  }

  // --------------------------------------------------------- recent lessons

  /** `addLesson` on the list alone: drop the last entry when the list holds
      five or more, then put the new summary in front. */
  function PushRecent(recent: seq<LessonSummary>, s: LessonSummary): (r: seq<LessonSummary>)
    ensures |r| == if |recent| >= RecentLimit then |recent| else |recent| + 1
    ensures |recent| <= RecentLimit ==> |r| <= RecentLimit
    ensures r[0] == s
    ensures r[1..] == recent[..|r| - 1]
  {
    var kept := if |recent| >= RecentLimit then recent[..|recent| - 1] else recent;
    [s] + kept
  }

  /** Opening the lessons `xs` in order, one `addLesson` each. */
  function PushAll(recent: seq<LessonSummary>, xs: seq<LessonSummary>): seq<LessonSummary>
    decreases |xs|
  {
    if xs == [] then recent else PushAll(PushRecent(recent, xs[0]), xs[1..])
  }

  function Reversed<T>(s: seq<T>): (r: seq<T>)
    ensures |r| == |s|
  {
    if s == [] then [] else Reversed(s[1..]) + [s[0]]
  }

  function Min(a: int, b: int): int {
    if a <= b then a else b
  }

  lemma TakeOfAppendTake<T>(a: seq<T>, b: seq<T>, k: nat, m: nat)
    requires k <= |b| && m <= |a| + k
    ensures (a + b[..k])[..m] == (a + b)[..m]
  {
  }

  /** One `addLesson` keeps the first `min(5, n + 1)` of the new summary
      followed by the old list. */
  lemma PushRecentIsTake(recent: seq<LessonSummary>, x: LessonSummary)
    requires |recent| <= RecentLimit
    ensures PushRecent(recent, x) == ([x] + recent)[..Min(RecentLimit, |recent| + 1)]
  {
    var r := PushRecent(recent, x);
    var t := ([x] + recent)[..Min(RecentLimit, |recent| + 1)];
    assert |r| == |t|;
    forall j | 0 <= j < |r|
      ensures r[j] == t[j]
    {
      if j > 0 {
        assert r[j] == r[1..][j - 1];
      }
    }
  }

  /** Starting from a list of at most five, the recent list always holds the
      five (or fewer) most recently opened lessons, newest first, followed by
      what was there before. */
  lemma {:induction false} RecentKeepsLatest(recent: seq<LessonSummary>, xs: seq<LessonSummary>)
    requires |recent| <= RecentLimit
    ensures PushAll(recent, xs) == (Reversed(xs) + recent)[..Min(RecentLimit, |xs| + |recent|)]
    decreases |xs|
  {
    if xs == [] {
      assert Reversed(xs) + recent == recent;
    } else {
      var x, rest := xs[0], xs[1..];
      var next := PushRecent(recent, x);
      var k := Min(RecentLimit, |recent| + 1);
      var m := Min(RecentLimit, |xs| + |recent|);
      PushRecentIsTake(recent, x);
      assert |next| == k;
      calc {
        PushAll(recent, xs);
        PushAll(next, rest);
        { RecentKeepsLatest(next, rest); }
        (Reversed(rest) + next)[..m];
        { TakeAfterPush(Reversed(rest), x, recent, next, k, m); }
        ((Reversed(rest) + [x]) + recent)[..m];
        { assert Reversed(xs) == Reversed(rest) + [x]; }
        (Reversed(xs) + recent)[..m];
      }
    }
  }

  lemma TakeAfterPush<T>(older: seq<T>, x: T, recent: seq<T>, next: seq<T>, k: nat, m: nat)
    requires k <= |recent| + 1 && m <= |older| + k
    requires next == ([x] + recent)[..k]
    ensures (older + next)[..m] == ((older + [x]) + recent)[..m]
  {
    TakeOfAppendTake(older, [x] + recent, k, m);
    assert older + ([x] + recent) == (older + [x]) + recent;
  }

  // ----------------------------------------------------------------- streak

  /** `updateStreak` as a function of the profile and today's date. */
  function AfterLogin(u: User, today: Day): (r: User)
    ensures r == u.(streak := r.streak, lastLoginDate := today)
    ensures u.lastLoginDate != today && u.streak >= 0 ==> r.streak >= 1
    ensures u.lastLoginDate == today ==> r == u
  {
    var streak :=
      if u.lastLoginDate == today - 1 then u.streak + 1
      else if u.lastLoginDate != today then 1
      else u.streak;
    u.(streak := streak, lastLoginDate := today)
  }

  /** Opening the app on each day of `days` in turn. */
  function LoginDays(u: User, days: seq<Day>): User
    decreases |days|
  {
    if days == [] then u else LoginDays(AfterLogin(u, days[0]), days[1..])
  }

  /** A second activation on the same day leaves the profile as it is. */
  lemma StreakSameDay(u: User, today: Day)
    ensures AfterLogin(AfterLogin(u, today), today) == AfterLogin(u, today)
  {
  }

  /** Opening the app on `n` consecutive days after the last login adds `n`
      to the streak, and only the streak and the login date change. */
  lemma {:induction false} StreakConsecutiveDays(u: User, n: nat)
    ensures LoginDays(u, seq(n, i => u.lastLoginDate + 1 + i)) ==
            u.(streak := u.streak + n, lastLoginDate := u.lastLoginDate + n)
    decreases n
  {
    var days := seq(n, i => u.lastLoginDate + 1 + i);
    if n > 0 {
      var v := AfterLogin(u, days[0]);
      assert v == u.(streak := u.streak + 1, lastLoginDate := u.lastLoginDate + 1);
      StreakConsecutiveDays(v, n - 1);
      assert days[1..] == seq(n - 1, i => v.lastLoginDate + 1 + i);
    }
  }

  /** Missing a day restarts the streak at one, never at zero. */
  lemma StreakAfterGap(u: User, today: Day)
    requires today >= u.lastLoginDate + 2
    ensures AfterLogin(u, today).streak == 1
  {
  }

  // ------------------------------------------------------------ daily goals

  /** `resetDailyGoalsIfNeeded` on the goals alone. */
  function GoalsForDay(g: DailyGoals, today: Day): (r: DailyGoals)
    ensures r.lastResetDate == today
    ensures g.lastResetDate == today ==> r == g
    ensures g.lastResetDate != today ==>
              r.lessonsCompleted == 0 && !r.practiceCompleted && !r.quizCompleted
  {
    if g.lastResetDate != today then EmptyGoals(today) else g
  }

  /** The reset is idempotent within a day, always leaves goals dated today,
      and leaves freshly emptied goals alone. */
  lemma GoalsForDayIdempotent(g: DailyGoals, today: Day)
    ensures GoalsForDay(GoalsForDay(g, today), today) == GoalsForDay(g, today)
    ensures GoalsForDay(g, today).lastResetDate == today
    ensures GoalsForDay(EmptyGoals(today), today) == EmptyGoals(today)
  {
  }

  /** The three optional arguments of `updateDailyGoals`. */
  datatype GoalUpdate = GoalUpdate(lessonCompleted: bool, practiceCompleted: bool, quizCompleted: bool)

  /** `updateDailyGoals` on the goals alone. */
  function UpdatedGoals(g: DailyGoals, up: GoalUpdate): (r: DailyGoals)
    ensures r.lastResetDate == g.lastResetDate
    ensures r.lessonsCompleted == g.lessonsCompleted + (if up.lessonCompleted then 1 else 0)
    ensures r.practiceCompleted <==> g.practiceCompleted || up.practiceCompleted
    ensures r.quizCompleted <==> g.quizCompleted || up.quizCompleted
  {
    g.(lessonsCompleted := if up.lessonCompleted then g.lessonsCompleted + 1 else g.lessonsCompleted,
       practiceCompleted := if up.practiceCompleted then true else g.practiceCompleted,
       quizCompleted := if up.quizCompleted then true else g.quizCompleted)
  }

  function ApplyUpdates(g: DailyGoals, ups: seq<GoalUpdate>): DailyGoals
    decreases |ups|
  {
    if ups == [] then g else ApplyUpdates(UpdatedGoals(g, ups[0]), ups[1..])
  }

  function CountLessons(ups: seq<GoalUpdate>): nat {
    if ups == [] then 0 else (if ups[0].lessonCompleted then 1 else 0) + CountLessons(ups[1..])
  }

  /** Over any run of `updateDailyGoals` calls, the lesson counter grows by
      exactly the number of calls that reported a lesson, a flag ends up set
      exactly when it was set before or some call set it, and the reset date
      never moves. */
  lemma {:induction false} GoalsOnlyAdvance(g: DailyGoals, ups: seq<GoalUpdate>)
    ensures ApplyUpdates(g, ups).lessonsCompleted == g.lessonsCompleted + CountLessons(ups)
    ensures ApplyUpdates(g, ups).practiceCompleted <==>
            g.practiceCompleted || exists i :: 0 <= i < |ups| && ups[i].practiceCompleted
    ensures ApplyUpdates(g, ups).quizCompleted <==>
            g.quizCompleted || exists i :: 0 <= i < |ups| && ups[i].quizCompleted
    ensures ApplyUpdates(g, ups).lastResetDate == g.lastResetDate
    decreases |ups|
  {
    if ups != [] {
      var rest := ups[1..];
      GoalsOnlyAdvance(UpdatedGoals(g, ups[0]), rest);
      assert forall i :: 0 <= i < |rest| ==> rest[i] == ups[i + 1];
      if exists i :: 0 <= i < |ups| && ups[i].practiceCompleted {
        var i :| 0 <= i < |ups| && ups[i].practiceCompleted;
        assert i == 0 || rest[i - 1].practiceCompleted;
      }
      if exists i :: 0 <= i < |ups| && ups[i].quizCompleted {
        var i :| 0 <= i < |ups| && ups[i].quizCompleted;
        assert i == 0 || rest[i - 1].quizCompleted;
      }
    }
  }

  // ------------------------------------------------------------ UserManager

  /** `UserManager`: owns the current profile and writes it through to the
      `savedUser` record after every change. */
  class UserManager {
    var currentUser: User
    /** The profile the persistent store holds; `None` when it holds nothing
        that decodes. */
    ghost var savedUser: Option<User>

    /** Write-through: whatever is stored is the current profile. */
    ghost predicate Valid()
      reads this
    {
      savedUser.Some? ==> savedUser.value == currentUser
    }

    /** `init`: the stored profile if it decodes, otherwise a fresh one. */
    constructor (stored: Option<User>, today: Day)
      ensures Valid()
      ensures savedUser == stored
      ensures stored.Some? ==> currentUser == stored.value
      ensures stored.None? ==> currentUser == FreshUser(today)
      ensures stored.None? ==> LevelConsistent(currentUser) && currentUser.streak == 0
                               && currentUser.lastLessons == [] && currentUser.name == ""
    {
      currentUser := if stored.Some? then stored.value else FreshUser(today);
      savedUser := stored;
    }

    method SaveUser()
      modifies this`savedUser
      ensures savedUser == Some(currentUser)
    {
      savedUser := Some(currentUser);
    }

    method UpdateName(name: string)
      modifies this
      ensures currentUser == old(currentUser).(name := name)
      ensures savedUser == Some(currentUser)
    {
      currentUser := currentUser.(name := name);
      SaveUser();
    }

    method UpdateProfileImage(name: string)
      modifies this
      ensures currentUser == old(currentUser).(profileImageName := Some(name))
      ensures savedUser == Some(currentUser)
    {
      currentUser := currentUser.(profileImageName := Some(name));
      SaveUser();
    }

    /** `addPoints`: the level is recomputed from the new total. */
    method AddPoints(points: int)
      modifies this
      ensures currentUser == old(currentUser).(points := old(currentUser.points) + points,
                                               level := LevelFor(old(currentUser.points) + points))
      ensures LevelConsistent(currentUser)
      ensures savedUser == Some(currentUser)
    {
      currentUser := currentUser.(points := currentUser.points + points);
      currentUser := currentUser.(level := TruncDiv(currentUser.points, PointsPerLevel) + 1);
      SaveUser();
    }

    /** `addLesson`: newest first, at most five kept. */
    method AddLesson(lesson: LessonSummary)
      modifies this
      ensures currentUser == old(currentUser).(lastLessons := PushRecent(old(currentUser.lastLessons), lesson))
      ensures currentUser.lastLessons[0] == lesson
      ensures |old(currentUser.lastLessons)| <= RecentLimit ==> |currentUser.lastLessons| <= RecentLimit
      ensures savedUser == Some(currentUser)
    {
      var lessons := currentUser.lastLessons;
      if |lessons| >= RecentLimit {
        lessons := lessons[..|lessons| - 1];
      }
      lessons := [lesson] + lessons;
      currentUser := currentUser.(lastLessons := lessons);
      SaveUser();
    }

    /** `resetProgress`: points, level and recent lessons only. */
    method ResetProgress()
      modifies this
      ensures currentUser == old(currentUser).(points := 0, level := 1, lastLessons := [])
      ensures LevelConsistent(currentUser)
      ensures savedUser == Some(currentUser)
    {
      currentUser := currentUser.(points := 0);
      currentUser := currentUser.(level := 1);
      currentUser := currentUser.(lastLessons := []);
      SaveUser();
    }

    /** `updateStreak`, called when the home screen appears on day `today`. */
    method UpdateStreak(today: Day)
      modifies this
      ensures old(currentUser.lastLoginDate) == today - 1 ==>
                currentUser.streak == old(currentUser.streak) + 1
      ensures old(currentUser.lastLoginDate) != today - 1 && old(currentUser.lastLoginDate) != today ==>
                currentUser.streak == 1
      ensures old(currentUser.lastLoginDate) == today ==> currentUser.streak == old(currentUser.streak)
      ensures currentUser == AfterLogin(old(currentUser), today)
      ensures currentUser.lastLoginDate == today
      ensures savedUser == Some(currentUser)
    {
      if currentUser.lastLoginDate == today - 1 {
        currentUser := currentUser.(streak := currentUser.streak + 1);
      } else if currentUser.lastLoginDate != today {
        currentUser := currentUser.(streak := 1);
      }
      currentUser := currentUser.(lastLoginDate := today);
      SaveUser();
    }

    /** `resetDailyGoalsIfNeeded`: a new day gets empty goals; otherwise
        nothing changes, not even the stored record. */
    method ResetDailyGoalsIfNeeded(today: Day)
      requires Valid()
      modifies this
      ensures Valid()
      ensures currentUser == old(currentUser).(dailyGoals := GoalsForDay(old(currentUser.dailyGoals), today))
      ensures old(currentUser.dailyGoals.lastResetDate) != today ==>
                currentUser.dailyGoals == DailyGoals(0, false, false, today) && savedUser == Some(currentUser)
      ensures old(currentUser.dailyGoals.lastResetDate) == today ==>
                currentUser == old(currentUser) && savedUser == old(savedUser)
    {
      if currentUser.dailyGoals.lastResetDate != today {
        currentUser := currentUser.(dailyGoals := EmptyGoals(today));
        SaveUser();
      }
    }

    /** `updateDailyGoals`: counts a lesson and sets flags, never clears one. */
    method UpdateDailyGoals(lessonCompleted: bool, practiceCompleted: bool, quizCompleted: bool)
      modifies this
      ensures currentUser == old(currentUser).(dailyGoals :=
                UpdatedGoals(old(currentUser.dailyGoals), GoalUpdate(lessonCompleted, practiceCompleted, quizCompleted)))
      ensures currentUser.dailyGoals.lessonsCompleted ==
                old(currentUser.dailyGoals.lessonsCompleted) + (if lessonCompleted then 1 else 0)
      ensures old(currentUser.dailyGoals.practiceCompleted) ==> currentUser.dailyGoals.practiceCompleted
      ensures old(currentUser.dailyGoals.quizCompleted) ==> currentUser.dailyGoals.quizCompleted
      ensures currentUser.dailyGoals.lastResetDate == old(currentUser.dailyGoals.lastResetDate)
      ensures savedUser == Some(currentUser)
    {
      if lessonCompleted {
        currentUser := currentUser.(dailyGoals := currentUser.dailyGoals.(
          lessonsCompleted := currentUser.dailyGoals.lessonsCompleted + 1));
      }
      if practiceCompleted {
        currentUser := currentUser.(dailyGoals := currentUser.dailyGoals.(practiceCompleted := true));
      }
      if quizCompleted {
        currentUser := currentUser.(dailyGoals := currentUser.dailyGoals.(quizCompleted := true));
      }
      SaveUser();
    }
  }
}
