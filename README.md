# KotobaMaster Pocket — a Dafny model of the learning core

KotobaMaster Pocket is an iOS app for learning Japanese vocabulary with
flashcard lessons and multiple-choice quizzes. This project models the logic
behind its screens and proves what that logic promises:

- **Learner profile** (`progress.dfy`, module `Progress`). This covers:
  - the `User` record and its derived level quantities;
  - the recently-opened lessons list, which holds at most five entries, newest first;
  - the daily login streak;
  - the daily goals;
  - the `UserManager` class, which changes the profile and writes it back to storage after each change.
- **Lessons** (`lessons.dfy`, module `Lessons`). This covers:
  - the `LessonStore` class, which puts the built-in catalog first and custom lessons after it, and records which cards a learner has completed;
  - the progress ratio;
  - the card navigation of the flashcard screen (`FlashcardDeck`);
  - the rules of the "new lesson" and "new flashcard" forms.
- **Quizzes** (`quizzes.dfy`, module `Quizzes`). This covers:
  - the `QuizStore` class, which keeps the best score of each quiz;
  - the question-by-question quiz session (`QuizSession`);
  - the rules of the "new quiz" and "new question" forms.
- **Search** (`search.dfy`, module `Search`). This is a case-insensitive substring search over the front, back and furigana of every built-in card. It has two parts:
  - the nested scan, written as a method with loops and proved against a reference function;
  - the sort by lesson number.
- **Shared pieces**:
  - `content_list.dfy` (module `ContentList`) holds the deletion guard that protects the built-in prefix of both stores, and `remove(atOffsets:)`.
  - `basics.dfy` (module `Basics`) holds optional values, identifiers, day numbers, Swift's truncating `/` and `%`, and exact ratios that stand in for `Double`.

Persistence is modelled as ghost fields of each class, for example
`UserManager.savedUser` and `LessonStore.savedProgress`. Each one holds the
record the key-value store has, or `None` when nothing there decodes. The
classes that persist (`UserManager`, `LessonStore`, `QuizStore`) have a
`Valid()` predicate which says that what is stored is the current state, and
the methods that write through keep it true. `FlashcardDeck` and `QuizSession`
persist nothing: their `Valid()` bounds the position (and, for a session, the
score and how often it was recorded). `SearchViewModel` has no invariant.

The clock, calendar and UUID generator are parameters:
- `today: Day` is a day number, where "same day" means equal and "yesterday" is `today - 1`.
- `now: Instant` is a clock reading.
- Every new identifier is passed in as `id`.

The built-in catalogs (`LessonData.getAllLessons()` and
`QuizData.getAllQuizzes()`) are a constructor parameter held in a `const`
field.

## Model

| member | source | states |
|---|---|---|
| Basics.TruncDiv | HomeView.swift:101 | Swift's integer division rounds toward zero: what is left over lies in [0, b) for a non-negative dividend and in (−b, 0] for a negative one, and the quotient is the usual one for a non-negative dividend |
| Basics.TruncRem | HomeView.swift:40 | Swift's `%`: dividend = divisor × truncated quotient + remainder, the remainder's magnitude is below the divisor, and the remainder has the sign of the dividend (never positive for a negative one) |
| Basics.DropFirst | LessonsView.swift:110 | `dropFirst(n)` has n fewer elements (none when the list is shorter), and its i-th element is the old element n + i |
| Basics.IntToDecimal | LessonsView.swift:149 | the numeral interpolated into a string is non-empty and reads back as the number, sign included |
| Basics.NatToDecimal | LessonsView.swift:149 | the digits of a natural number are decimal digits, non-empty, with no leading zero |
| Basics.NatToDecimalRoundTrip | LessonsView.swift:149 | reading the digits back gives the number |
| Progress.PointsToNextLevel | HomeView.swift:38-41 | pointsToNextLevel lies in 1..100 for a non-negative total and in 100..199 for a negative one, and with the levelProgress numerator always adds up to 100 |
| Progress.LevelArithmetic | HomeView.swift:38-46 | for a non-negative total: the level is hundreds + 1; pointsToNextLevel lies in 1..100; the progress numerator lies in 0..99; the two add up to 100; the points equal 100 × (level − 1) + progress |
| Progress.LevelProgress | HomeView.swift:43-46 | levelProgress is a fraction of 100 whose numerator lies strictly between −100 and 100 and has the sign of the points |
| Progress.LevelMonotone | HomeView.swift:99-102 | the level recomputed from the points never decreases as the points grow |
| Progress.EmptyGoals | HomeView.swift:18-25 | `DailyGoals.empty()`: no lessons counted, no flag set, dated today |
| Progress.FreshUser | HomeView.swift:72-80 | the fallback profile's stored level agrees with its points |
| Progress.UserManager.constructor | HomeView.swift:68-81 | the decoded profile when one is stored; otherwise a fresh profile with an empty name, no lessons, streak 0 and a consistent level; the store is not written |
| Progress.UserManager.SaveUser | HomeView.swift:83-87 | the stored record becomes the current profile |
| Progress.UserManager.UpdateName | HomeView.swift:89-92 | only the name changes, and the profile is saved |
| Progress.UserManager.UpdateProfileImage | HomeView.swift:94-97 | only the image name changes, and the profile is saved |
| Progress.UserManager.AddPoints | HomeView.swift:99-104 | the points grow by the argument, the level is recomputed from the new total, nothing else changes, and the profile is saved |
| Progress.PushRecent | HomeView.swift:106-114 | the new summary comes first, followed by the old list without its last entry when it already held five; the length is capped at five |
| Progress.PushRecentIsTake | HomeView.swift:106-114 | one addLesson is "the first min(5, n+1) of new-then-old" |
| Progress.RecentKeepsLatest | HomeView.swift:106-114 | after any sequence of addLesson calls, the list is the at most five most recently added lessons, newest first, followed by older entries |
| Progress.UserManager.AddLesson | HomeView.swift:106-114 | the recent list becomes PushRecent of the old one, the new lesson is first, at most five are kept, and the profile is saved |
| Progress.UserManager.ResetProgress | HomeView.swift:116-121 | points 0, level 1 (consistent) and no recent lessons; name, streak and goals are kept; the profile is saved |
| Progress.UserManager.UpdateStreak | HomeView.swift:125-138 | a login the day after the last one adds one to the streak; a later day restarts it at 1; the same day keeps it; the login date becomes today; the profile is saved |
| Progress.AfterLogin | HomeView.swift:125-138 | a login changes only the streak and sets the login date to today; a login on a new day leaves a streak of at least 1; a login on the same day changes nothing |
| Progress.StreakSameDay | HomeView.swift:125-138 | a second streak update on the same day changes nothing |
| Progress.StreakConsecutiveDays | HomeView.swift:129-131 | logging in on n consecutive days adds exactly n to the streak and changes only the streak and the login date |
| Progress.StreakAfterGap | HomeView.swift:132-134 | skipping a day restarts the streak at 1 |
| Progress.GoalsForDay | HomeView.swift:140-146 | the goals are dated today afterwards; goals already dated today are kept as they are; older goals are replaced by empty ones |
| Progress.GoalsForDayIdempotent | HomeView.swift:140-146 | the daily reset is idempotent within a day, leaves goals dated today, and leaves freshly emptied goals alone |
| Progress.UserManager.ResetDailyGoalsIfNeeded | HomeView.swift:140-146 | on a new day the goals become the empty goals for today and are saved; on the same day neither the profile nor the stored record changes |
| Progress.UpdatedGoals | HomeView.swift:148-159 | one update raises the lesson counter by one exactly when a lesson is reported, a flag ends set exactly when it was set or is reported, and the reset date is kept |
| Progress.GoalsOnlyAdvance | HomeView.swift:148-159 | over any run of updates: the lesson counter grows by the number of updates that report a lesson; each flag ends set exactly when it was set before or some update set it; the reset date never moves |
| Progress.UserManager.UpdateDailyGoals | HomeView.swift:148-159 | the counter rises by one for a completed lesson, flags are set and never cleared, the reset date is kept, and the profile is saved |
| ContentList.DeletionRejected | LessonsView.swift:117-123 | the guard maps every offset below the built-in count to 0 and refuses when 0 is then present (characterised by DeletionRejectedExactly) |
| ContentList.DeletionRejectedExactly | LessonsView.swift:117-123 | the guard refuses a deletion exactly when some offset is below the built-in count or is 0 |
| ContentList.RemoveOffsets | LessonsView.swift:124 | `remove(atOffsets:)` never lengthens the list and only keeps elements that were there |
| ContentList.RemoveOffsetsLength | LessonsView.swift:124 | `remove(atOffsets:)` shortens the list by the number of in-range offsets |
| ContentList.RemoveOffsetsAt | LessonsView.swift:124 | every unnamed position survives, in order: its element moves down by the number of named positions before it |
| ContentList.RemoveOffsetsKeepsPrefix | LessonsView.swift:124 | positions below every offset survive in place |
| ContentList.RemoveOffsetsNone | LessonsView.swift:124 | offsets past the end remove nothing |
| ContentList.RemoveOffsetsSubset | LessonsView.swift:124 | every surviving element was at an unnamed position of the old list |
| ContentList.DeletionKeepsCatalog | LessonsView.swift:116-126 | a deletion the guard lets through leaves the built-in catalog as the prefix |
| Lessons.FirstWithId | LessonsView.swift:145 | `firstIndex(where:)`: the first position with that id, or none exactly when no lesson has it |
| Lessons.ProgressOf | LessonsView.swift:136-143 | with a progress entry and a lesson of that id, the ratio is the number of completed cards over the card count of the first such lesson; 0 when there is no progress entry or no such lesson; a zero denominator (Swift's division by 0.0) only for a lesson without cards |
| Lessons.ProgressQuarter | LessonsView.swift:136-143 | five completed cards out of twenty give a quarter |
| Lessons.ProgressWithinOne | LessonsView.swift:136-143 | for a lesson with cards whose completed ids are its card ids, the ratio lies in [0, 1] with a positive denominator |
| Lessons.MarkCompleted | LessonsView.swift:128-134 | the map gains an entry for the lesson (if it had none), whose completed set is the old one (or empty) plus the card, stamped now |
| Lessons.MarkCompletedRecords | LessonsView.swift:128-134 | the card is recorded, earlier completions are kept, and other lessons' entries are untouched |
| Lessons.MarkCompletedIdempotent | LessonsView.swift:128-134 | marking the same card twice leaves the completed set and the progress ratio as after once |
| Lessons.SummaryOf | LessonsView.swift:146-152 | the summary carries the lesson's id and title, the given progress and time, and the description "Lesson " followed by the lesson number in decimal, which reads back as that number |
| Lessons.LessonStore.constructor | LessonsView.swift:74-77 | the catalog followed by the stored custom lessons; the stored progress or an empty map; the store is valid and nothing is written |
| Lessons.LessonStore.LoadLessons | LessonsView.swift:79-88 | the catalog followed by the decoded custom lessons, if any |
| Lessons.LessonStore.LoadProgress | LessonsView.swift:90-95 | the decoded map replaces the progress; otherwise the progress is unchanged |
| Lessons.LessonStore.SaveProgress | LessonsView.swift:97-101 | the stored progress becomes the current map |
| Lessons.LessonStore.SaveCustomLessons | LessonsView.swift:108-114 | only the lessons after the catalog are stored |
| Lessons.LessonStore.AddCustomLesson | LessonsView.swift:103-106 | the lesson is appended, the custom suffix is saved, the catalog stays first, and the progress is untouched |
| Lessons.LessonStore.DeleteLesson | LessonsView.swift:116-126 | a refused request changes nothing; otherwise exactly the named positions go, the catalog stays first, and the custom suffix is saved |
| Lessons.LessonStore.MarkCardCompleted | LessonsView.swift:128-134 | the progress map becomes MarkCompleted of the old one, the card is recorded, and the map is saved |
| Lessons.LessonStore.GetProgress | LessonsView.swift:136-143 | the ratio ProgressOf gives for the store's lessons and progress map; 0 for a lesson without a progress entry |
| Lessons.LessonStore.LessonAccessed | LessonsView.swift:144-155 | a lesson the store holds is pushed onto the profile's recent list with its current progress; an unknown lesson changes nothing |
| Lessons.NewFlashcard | LessonsView.swift:486-492 | an empty furigana field gives no furigana; otherwise the field's text |
| Lessons.NewFlashcardWellFormed | LessonsView.swift:485-496 | a card the enabled "Add" button produces has a non-empty front and back, no empty furigana and no images |
| Lessons.NewLesson | LessonsView.swift:444-448 | the new lesson is numbered one past the current list length and carries the title and cards |
| Lessons.SavedLessonHasCards | LessonsView.swift:443-452 | a lesson saved through the form has cards, so its progress ratio has a positive denominator (never NaN or infinite), and it stays within [0, 1] while its completed ids are card ids of the lesson |
| Lessons.SaveNewLesson | LessonsView.swift:443-452 | the enabled "Save" button appends the new lesson numbered count + 1, saves the custom suffix, leaves the progress and its stored record alone, and the store stays valid |
| Lessons.FlashcardDeck.constructor | LessonsView.swift:215-218 | the first card, front side up |
| Lessons.FlashcardDeck.CurrentCard | LessonsView.swift:240 | the card shown is a card of the lesson |
| Lessons.FlashcardDeck.NextCard | LessonsView.swift:268-275 | advance by one and show the front unless already on the last card; then nothing changes |
| Lessons.FlashcardDeck.PreviousCard | LessonsView.swift:277-284 | go back by one and show the front unless already on the first card; then nothing changes |
| Lessons.FlashcardDeck.FlipCard | LessonsView.swift:382-386 | toggles the side shown and keeps the position |
| Quizzes.BestScore | QuizzesView.swift:106-108 | 0 for a quiz never scored |
| Quizzes.RecordScore | QuizzesView.swift:98-104 | the map gains an entry for the quiz (if it had none) whose best is at least the score and the old best and equal to one of them, stamped now |
| Quizzes.RecordScoreKeepsBest | QuizzesView.swift:98-104 | the new best is the larger of the old best (0 if none) and the score; correct answers and other quizzes are untouched |
| Quizzes.BestScoreIsMaximum | QuizzesView.swift:98-104 | after any attempts the best is at least the old best and every score, and equals one of them, so it never decreases |
| Quizzes.QuizStore.constructor | QuizzesView.swift:48-51 | the catalog followed by the stored custom quizzes; the stored results or an empty map; the store is valid |
| Quizzes.QuizStore.LoadQuizzes | QuizzesView.swift:53-60 | the catalog followed by the decoded custom quizzes, if any |
| Quizzes.QuizStore.LoadProgress | QuizzesView.swift:62-67 | the decoded results replace the map; otherwise it is unchanged |
| Quizzes.QuizStore.SaveProgress | QuizzesView.swift:69-73 | the stored results become the current map |
| Quizzes.QuizStore.AddCustomQuiz | QuizzesView.swift:75-78 | the quiz is appended, the custom suffix is saved, and the catalog stays first |
| Quizzes.QuizStore.SaveCustomQuizzes | QuizzesView.swift:80-85 | only the quizzes after the catalog are stored |
| Quizzes.QuizStore.DeleteQuiz | QuizzesView.swift:87-96 | a refused request changes nothing; otherwise exactly the named positions go, the catalog stays first, and the suffix is saved |
| Quizzes.QuizStore.UpdateQuizScore | QuizzesView.swift:98-104 | the best score becomes the larger of the old best and the new score; the results are saved and the quizzes untouched |
| Quizzes.QuizStore.GetBestScore | QuizzesView.swift:106-108 | 0 for a quiz never scored |
| Quizzes.QuizSession.constructor | QuizzesView.swift:175-179 | first question, score 0, nothing selected, not complete |
| Quizzes.QuizSession.ScoreBound | QuizzesView.swift:266 | the score never exceeds the number of questions reached, nor the quiz's length |
| Quizzes.QuizSession.Answer | QuizzesView.swift:232-240 | only the first answer to a question counts; a correct one adds a point to the session and to the profile (level recomputed, profile saved); a wrong one leaves the profile alone |
| Quizzes.QuizSession.NextQuestion | QuizzesView.swift:247-256 | moves to the next question and clears the selection, leaving the store and its records alone; on the last question, completes the quiz, keeps the selection, records the score with the store exactly once and saves the results; the quizzes and their stored record never change |
| Quizzes.NonEmptyOnly | QuizzesView.swift:408 | `filter { !$0.isEmpty }`: keeps exactly the non-empty strings, every kept string is non-empty, and a list without empty strings is kept as it is |
| Quizzes.NonEmptyOnlyAppend | QuizzesView.swift:408 | the filter keeps order: filtering a concatenation concatenates the filtered parts |
| Quizzes.NewQuestion | QuizzesView.swift:403-414 | the question carries the id, question text and correct answer, furigana only when its field is non-empty, no image, and only non-empty wrong answers |
| Quizzes.NewQuestionWellFormed | QuizzesView.swift:403-414 | a question the enabled "Add" button produces has as wrong answers wrong answer 1, then wrong answer 2 if non-empty, then wrong answer 3 if non-empty; empty furigana becomes none |
| Quizzes.SaveNewQuiz | QuizzesView.swift:355-364 | the enabled "Save" button appends the new quiz numbered count + 1, saves the custom suffix, leaves the results and their stored record alone, and the store stays valid |
| Search.Lowercased | SearchView.swift:142 | `lowercased()` keeps the length and lowers each character in place |
| Search.LowercasedIdempotent | SearchView.swift:142 | lowering an already lowered query changes nothing |
| Search.CaseBlindQuery | SearchView.swift:142 | queries that differ only in the case of ASCII letters lower alike and find the same cards |
| Search.Contains | SearchView.swift:149-151 | the empty needle is contained in everything, and a contained needle is no longer than the text |
| Search.ContainsMeansSlice | SearchView.swift:149-151 | `contains` holds exactly when the needle occurs at some position |
| Search.ContainsChar | SearchView.swift:149-151 | for a one-character needle, `contains` is membership |
| Search.LowercasedKeepsOthers | SearchView.swift:149-151 | lowering keeps every character that is not an ASCII letter |
| Search.Matches | SearchView.swift:149-151 | the front, back or furigana contains the lowered query; the empty query matches every card |
| Search.ResultFor | SearchView.swift:154-161 | the result copies the card's id, front, furigana and back and the lesson's number and title |
| Search.LessonHits | SearchView.swift:147-162 | the inner loop appends at most one result per card, each naming the lesson's number and title |
| Search.CatalogHits | SearchView.swift:146-164 | both loops append no more results than there are built-in cards |
| Search.LessonHitsMembership | SearchView.swift:147-162 | a lesson yields a result exactly for each of its matching cards |
| Search.CatalogHitsMembership | SearchView.swift:146-164 | the scan yields a result exactly for a matching card of some catalog lesson, and the result describes that card and lesson |
| Search.CatalogHitsSound | SearchView.swift:146-164 | every result of the scan comes from a matching card |
| Search.CatalogHitsComplete | SearchView.swift:146-164 | every matching card yields a result |
| Search.LessonHitsCount | SearchView.swift:147-163 | a lesson yields exactly as many results as it has matching cards, however many fields of a card match |
| Search.LessonHitsAllMatch | SearchView.swift:147-163 | when every card matches, every card yields a result |
| Search.CatalogHitsCount | SearchView.swift:146-164 | the scan yields exactly one result per matching built-in card: never more than the built-in cards, and exactly as many when every card matches |
| Search.InsertByLesson | SearchView.swift:167 | inserting into a list sorted by lesson number keeps it sorted and adds exactly that element |
| Search.SortByLesson | SearchView.swift:167 | the sort gives a permutation ordered by lesson number |
| Search.SearchCatalog | SearchView.swift:131-170 | an empty query gives no results; otherwise the results are a permutation of the scan, sorted by lesson number, exactly one per matching built-in card |
| Search.SearchResultsAreMatches | SearchView.swift:142-169 | a result is shown exactly when it describes a matching built-in card of its lesson |
| Search.SearchViewModel.constructor | SearchView.swift:128 | no results at start |
| Search.SearchViewModel.Search | SearchView.swift:131-172 | the view model's results: none for an empty query, otherwise one per matching built-in card, a permutation of the scan sorted by lesson number |
| Search.MatchesChar | SearchView.swift:149-151 | a one-character query that is not a letter matches exactly the cards holding that character in their front, back or furigana |
| Search.WaterLookup | SearchView.swift:146-164 | searching four cards of the first built-in lesson for "水" yields exactly one result: the "水"/"Water" card of lesson 1 |

## Left out

- The SwiftUI views themselves are not modelled: layout, navigation, sheets, animations, colours, the tab bar, and the settings and home-screen layout.
  - Only the state each button changes and the enabling rules of the forms are modelled.
- Speech output (`AudioManager`, `AVSpeechSynthesizer`) is not modelled, because it produces no state the core reads.
- The image picker and writing profile images to disk are not modelled. `updateProfileImage` is modelled on the stored name only.
- JSON encoding and decoding are not modelled. A stored record is either a decoded value (`Some`) or nothing usable (`None`).
  - A failed encode, which the source silently ignores, is not modelled: every save is assumed to succeed.
- `UserDefaults` keys and the `NotificationCenter` post in `addPoints` (`pointsUpdated`) are left out. The notification only triggers view refreshes.
- The 0.3 s debounce of `search`, the `isSearching` flag and the `[weak self]` capture are left out, because they concern timing and memory.
  - `Search.SearchViewModel.Search` produces the results of the delayed block at once.
- The shuffling of answer buttons is left out, because it is randomness. `Quizzes.QuizSession.Answer` takes the tapped answer as a parameter.
- Calendar arithmetic is replaced by day numbers. Time zones and daylight-saving changes are not modelled.
- `lowercased()` is modelled for ASCII letters only. Unicode case mapping and normalisation are not modelled.
  - Kana and kanji have no case, so the Japanese fields are unaffected.
- Swift `Int` overflow traps are not modelled: integers are unbounded.
- `Search.SortByLesson`: Swift's `sort` does not promise stability. The model states only "sorted by lesson number and a permutation". It does not state the order of equal lesson numbers.
- `UserManager.shared`, the singleton `lessonAccessed` and the quiz screen use, is passed as an explicit `UserManager` argument.
- The built-in lesson and quiz catalogs (Lesson1–Lesson4, Quiz1) are a parameter. Only four cards of Lesson 1 appear in `Search.WaterLookup`.
- The delete buttons for draft cards and questions inside the "new lesson" and "new quiz" forms are not modelled separately. They are `remove(atOffsets:)` on a local list, which `ContentList.RemoveOffsets` already models.
- `Lessons.LessonStore.DeleteLesson` and `Quizzes.QuizStore.DeleteQuiz` require every offset to name an existing row, because `remove(atOffsets:)` traps otherwise.
- `Lessons.FlashcardDeck.CurrentCard` and `Quizzes.QuizSession.Answer` require the current position to name a card or a question, because the views index the array directly and trap on an empty lesson or quiz.
- `getProgress` divides by 0.0 for a lesson without cards that has a progress entry: NaN when no completed id is recorded, +infinity when some is. The model represents both as a zero denominator. Without a progress entry the result is 0.0 whatever the lesson holds. `Lessons.ProgressOf` states when a zero denominator happens, and `Lessons.SavedLessonHasCards` shows that the "new lesson" form never creates such a lesson.
- The console message `deleteLesson` and `deleteQuiz` print when they refuse a deletion (LessonsView.swift:121, QuizzesView.swift:91) is left out, because it is output only.
- A "blank" query is not trimmed: `search` refuses only the empty string, and a query of spaces is searched for literally.
- SettingsView.swift, including its non-empty-name rule, is not part of this model.
