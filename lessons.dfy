/** LessonsView.swift: lesson content, the `LessonStore` that merges the
    built-in catalog with custom lessons and tracks completed cards, the card
    navigation of `FlashcardsView`, and the rules of the "new lesson" and
    "new flashcard" forms. */
module Lessons {
  import opened Basics
  import opened Progress
  import ContentList

  datatype Flashcard = Flashcard(
    id: Uuid,
    front: string,
    furigana: Option<string>,
    back: string,
    frontImage: Option<string>,
    backImage: Option<string>)

  datatype LessonContent = LessonContent(
    id: Uuid,
    lessonNumber: int,
    title: string,
    flashcards: seq<Flashcard>)

  /** `LessonStore.LessonProgress`. */
  datatype LessonProgress = LessonProgress(completedCards: set<Uuid>, lastAccessDate: Instant)

  // ------------------------------------------------------------- look-ups

  /** `firstIndex(where: { $0.id == id })`. */
  function FirstWithId(lessons: seq<LessonContent>, id: Uuid): (r: Option<nat>)
    ensures r.Some? ==> r.value < |lessons| && lessons[r.value].id == id
    ensures r.Some? ==> forall j :: 0 <= j < r.value ==> lessons[j].id != id
    ensures r.None? <==> forall j :: 0 <= j < |lessons| ==> lessons[j].id != id
    decreases |lessons|
  {
    if lessons == [] then None
    else if lessons[0].id == id then Some(0)
    else match FirstWithId(lessons[1..], id)
      case None => None
      case Some(i) => Some(i + 1)
  }

  /** The ids of a list of cards. */
  function CardIds(cards: seq<Flashcard>): set<Uuid> {
    set c | c in cards :: c.id
  }

  /** A lesson has at most as many distinct card ids as cards. */
  lemma {:induction false} CardIdsBound(cards: seq<Flashcard>)
    ensures |CardIds(cards)| <= |cards|
    decreases |cards|
  {
    if cards != [] {
      var rest := cards[1..];
      CardIdsBound(rest);
      assert CardIds(cards) == CardIds(rest) + {cards[0].id};
    }
  }

  /** `getProgress(for:)`: completed cards over the cards of the first lesson
      with that id; 0 when there is no progress entry or no such lesson. */
  function ProgressOf(lessons: seq<LessonContent>, progress: map<Uuid, LessonProgress>, lessonId: Uuid): (r: Fraction)
    ensures lessonId !in progress ==> r == ZeroFraction
    ensures (forall j :: 0 <= j < |lessons| ==> lessons[j].id != lessonId) ==> r == ZeroFraction
    ensures r.den == 0 ==> exists j :: 0 <= j < |lessons| && lessons[j].id == lessonId && lessons[j].flashcards == []
    ensures lessonId in progress ==>
              forall i :: 0 <= i < |lessons| && lessons[i].id == lessonId &&
                          (forall j :: 0 <= j < i ==> lessons[j].id != lessonId) ==>
                r == Fraction(|progress[lessonId].completedCards|, |lessons[i].flashcards|)
  {
    if lessonId !in progress then ZeroFraction
    else match FirstWithId(lessons, lessonId)
      case None => ZeroFraction
      case Some(i) => Fraction(|progress[lessonId].completedCards|, |lessons[i].flashcards|)
  }

  /** The ratio is a proper fraction in [0, 1] provided the lesson has cards
      and every completed id is one of its card ids; the store itself checks
      neither. */
  lemma ProgressWithinOne(lessons: seq<LessonContent>, progress: map<Uuid, LessonProgress>, lessonId: Uuid)
    requires forall j :: 0 <= j < |lessons| && lessons[j].id == lessonId ==>
               lessons[j].flashcards != [] &&
               (lessonId in progress ==> progress[lessonId].completedCards <= CardIds(lessons[j].flashcards))
    ensures ProgressOf(lessons, progress, lessonId).den > 0
    ensures ProgressOf(lessons, progress, lessonId).num <= ProgressOf(lessons, progress, lessonId).den
  {
    var found := FirstWithId(lessons, lessonId);
    if lessonId in progress && found.Some? {
      var cards := lessons[found.value].flashcards;
      CardIdsBound(cards);
      assert |progress[lessonId].completedCards| <= |CardIds(cards)| by {
        SubsetCardinality(progress[lessonId].completedCards, CardIds(cards));
      }
    }
  }

  /** Five cards completed out of twenty is a quarter. */
  lemma ProgressQuarter(lessons: seq<LessonContent>, progress: map<Uuid, LessonProgress>, lessonId: Uuid)
    requires lessons != [] && lessons[0].id == lessonId && |lessons[0].flashcards| == 20
    requires lessonId in progress && |progress[lessonId].completedCards| == 5
    ensures 4 * ProgressOf(lessons, progress, lessonId).num == ProgressOf(lessons, progress, lessonId).den
  {
    assert FirstWithId(lessons, lessonId) == Some(0);
  }

  lemma SubsetCardinality<T>(a: set<T>, b: set<T>)
    requires a <= b
    ensures |a| <= |b|
  {
    assert b == a + (b - a);
  }

  /** `markCardCompleted` on the progress map alone. */
  function MarkCompleted(progress: map<Uuid, LessonProgress>, lessonId: Uuid, cardId: Uuid, now: Instant): (r: map<Uuid, LessonProgress>)
    ensures r.Keys == progress.Keys + {lessonId}
    ensures r[lessonId].completedCards ==
              (if lessonId in progress then progress[lessonId].completedCards else {}) + {cardId}
    ensures r[lessonId].lastAccessDate == now
  {
    var before := if lessonId in progress then progress[lessonId].completedCards else {};
    progress[lessonId := LessonProgress(before + {cardId}, now)]
  }

  /** The card is recorded, earlier completions are kept, and every other
      lesson's entry is untouched. */
  lemma MarkCompletedRecords(progress: map<Uuid, LessonProgress>, lessonId: Uuid, cardId: Uuid, now: Instant)
    ensures lessonId in MarkCompleted(progress, lessonId, cardId, now)
    ensures cardId in MarkCompleted(progress, lessonId, cardId, now)[lessonId].completedCards
    ensures lessonId in progress ==>
              progress[lessonId].completedCards <= MarkCompleted(progress, lessonId, cardId, now)[lessonId].completedCards
    ensures forall l :: l != lessonId ==>
              (l in progress <==> l in MarkCompleted(progress, lessonId, cardId, now)) &&
              (l in progress ==> MarkCompleted(progress, lessonId, cardId, now)[l] == progress[l])
  {
  }

  /** Marking the same card again leaves the completed set, and with it the
      ratio `getProgress` reports, as it was. */
  lemma MarkCompletedIdempotent(lessons: seq<LessonContent>, progress: map<Uuid, LessonProgress>,
                                lessonId: Uuid, cardId: Uuid, t1: Instant, t2: Instant)
    ensures var once := MarkCompleted(progress, lessonId, cardId, t1);
            var twice := MarkCompleted(once, lessonId, cardId, t2);
            twice[lessonId].completedCards == once[lessonId].completedCards &&
            ProgressOf(lessons, twice, lessonId) == ProgressOf(lessons, once, lessonId)
  {
  }

  /** The summary `lessonAccessed` hands to the profile. */
  function SummaryOf(lesson: LessonContent, progress: Fraction, now: Instant): (s: LessonSummary)
    ensures s.id == lesson.id && s.title == lesson.title && s.progress == progress
    ensures s.lastAccessed == now
    ensures s.description == "Lesson " + IntToDecimal(lesson.lessonNumber)
    ensures ParseInt(s.description[|"Lesson "|..]) == lesson.lessonNumber
  {
    LessonSummary(lesson.id, lesson.title, "Lesson " + IntToDecimal(lesson.lessonNumber), progress, now)
  }

  // ------------------------------------------------------------ LessonStore

  class LessonStore {
    /** `LessonData.getAllLessons()`, fixed for the life of the process. */
    const catalog: seq<LessonContent>
    var lessons: seq<LessonContent>
    var userProgress: map<Uuid, LessonProgress>
    /** The `custom_lessons` record; `None` when it holds nothing that decodes. */
    ghost var savedCustomLessons: Option<seq<LessonContent>>
    /** The `lesson_progress` record; `None` when it holds nothing that decodes. */
    ghost var savedProgress: Option<map<Uuid, LessonProgress>>

    /** The catalog stays at the front, and what is stored is the custom
        suffix and the progress map. */
    ghost predicate Valid()
      reads this
    {
      && |catalog| <= |lessons|
      && lessons[..|catalog|] == catalog
      && (savedCustomLessons.Some? ==> savedCustomLessons.value == lessons[|catalog|..])
      && (savedProgress.Some? ==> savedProgress.value == userProgress)
    }

    /** `init`: `loadLessons` then `loadProgress`. */
    constructor (catalog: seq<LessonContent>, storedLessons: Option<seq<LessonContent>>,
                 storedProgress: Option<map<Uuid, LessonProgress>>)
      ensures Valid()
      ensures this.catalog == catalog
      ensures lessons == catalog + (if storedLessons.Some? then storedLessons.value else [])
      ensures userProgress == if storedProgress.Some? then storedProgress.value else map[]
      ensures savedCustomLessons == storedLessons && savedProgress == storedProgress
    {
      this.catalog := catalog;
      lessons := [];
      userProgress := map[];
      savedCustomLessons := storedLessons;
      savedProgress := storedProgress;
      new;
      LoadLessons(storedLessons);
      LoadProgress(storedProgress);
    }

    method LoadLessons(stored: Option<seq<LessonContent>>)
      modifies this`lessons
      ensures lessons == catalog + (if stored.Some? then stored.value else [])
    {
      lessons := catalog;
      if stored.Some? {
        lessons := lessons + stored.value;
      }
    }

    method LoadProgress(stored: Option<map<Uuid, LessonProgress>>)
      modifies this`userProgress
      ensures userProgress == if stored.Some? then stored.value else old(userProgress)
    {
      if stored.Some? {
        userProgress := stored.value;
      }
    }

    method SaveProgress()
      modifies this`savedProgress
      ensures savedProgress == Some(userProgress)
    {
      savedProgress := Some(userProgress);
    }

    /** Only the lessons after the catalog are written. */
    method SaveCustomLessons()
      modifies this`savedCustomLessons
      ensures savedCustomLessons == Some(DropFirst(lessons, |catalog|))
    {
      savedCustomLessons := Some(DropFirst(lessons, |catalog|));
    }

    method AddCustomLesson(lesson: LessonContent)
      requires Valid()
      modifies this
      ensures Valid()
      ensures lessons == old(lessons) + [lesson]
      ensures savedCustomLessons == Some(lessons[|catalog|..])
      ensures userProgress == old(userProgress) && savedProgress == old(savedProgress)
    {
      lessons := lessons + [lesson];
      SaveCustomLessons();
    }

    /** `deleteLesson(at:)`: refused when an offset touches the catalog or
        is 0; otherwise exactly the named positions go. `remove(atOffsets:)`
        traps on an offset past the end, so callers pass existing rows only. */
    method DeleteLesson(offsets: set<nat>)
      requires Valid()
      requires forall i :: i in offsets ==> i < |lessons|
      modifies this
      ensures Valid()
      ensures ContentList.DeletionRejected(offsets, |catalog|) ==>
                lessons == old(lessons) && savedCustomLessons == old(savedCustomLessons)
      ensures !ContentList.DeletionRejected(offsets, |catalog|) ==>
                lessons == ContentList.RemoveOffsets(old(lessons), offsets) &&
                |lessons| == |old(lessons)| - |offsets| &&
                savedCustomLessons == Some(lessons[|catalog|..])
      ensures userProgress == old(userProgress) && savedProgress == old(savedProgress)
    {
      var adjusted := set i | i in offsets :: if i < |catalog| then 0 else i;
      if 0 in adjusted {
        return;
      }
      ContentList.DeletionKeepsCatalog(lessons, offsets, catalog);
      ContentList.RemoveOffsetsLength(lessons, offsets);
      assert ContentList.Hit(|lessons|, offsets) == offsets;
      lessons := ContentList.RemoveOffsets(lessons, offsets);
      SaveCustomLessons();
    }

    method MarkCardCompleted(lessonId: Uuid, cardId: Uuid, now: Instant)
      requires Valid()
      modifies this
      ensures Valid()
      ensures userProgress == MarkCompleted(old(userProgress), lessonId, cardId, now)
      ensures cardId in userProgress[lessonId].completedCards
      ensures savedProgress == Some(userProgress)
      ensures lessons == old(lessons) && savedCustomLessons == old(savedCustomLessons)
    {
      var progress := if lessonId in userProgress then userProgress[lessonId] else LessonProgress({}, now);
      progress := progress.(completedCards := progress.completedCards + {cardId});
      progress := progress.(lastAccessDate := now);
      userProgress := userProgress[lessonId := progress];
      SaveProgress();
    }

    function GetProgress(lessonId: Uuid): (r: Fraction)
      reads this
      ensures lessonId !in userProgress ==> r == ZeroFraction
      ensures r == ProgressOf(lessons, userProgress, lessonId)
    {
      ProgressOf(lessons, userProgress, lessonId)
    }

    /** `lessonAccessed`: a lesson the store holds is reported to the profile
        as a summary with its current progress; any other lesson is ignored. */
    method LessonAccessed(lesson: LessonContent, user: UserManager, now: Instant)
      modifies user
      ensures (exists j :: 0 <= j < |lessons| && lessons[j].id == lesson.id) ==>
                user.currentUser == old(user.currentUser).(lastLessons :=
                  PushRecent(old(user.currentUser.lastLessons),
                             SummaryOf(lesson, ProgressOf(lessons, userProgress, lesson.id), now))) &&
                user.savedUser == Some(user.currentUser)
      ensures (forall j :: 0 <= j < |lessons| ==> lessons[j].id != lesson.id) ==>
                user.currentUser == old(user.currentUser) && user.savedUser == old(user.savedUser)
    {
      var index := FirstWithId(lessons, lesson.id);
      if index.Some? {
        user.AddLesson(SummaryOf(lesson, GetProgress(lesson.id), now));
      }
    }
  }

  // ------------------------------------------------------ new-content forms

  /** The "Add" button of the new-flashcard form is enabled. */
  predicate CanAddFlashcard(front: string, back: string) {
    front != [] && back != []
  }

  /** The card the new-flashcard form appends: an empty furigana field means
      no furigana, and custom cards carry no images. */
  function NewFlashcard(id: Uuid, front: string, furigana: string, back: string): (c: Flashcard)
    ensures c.furigana.None? <==> furigana == []
    ensures c.furigana.Some? ==> c.furigana.value == furigana
  {
    Flashcard(id, front, if furigana == [] then None else Some(furigana), back, None, None)
  }

  /** What the form guarantees of every card it produces. */
  ghost predicate WellFormedCard(c: Flashcard) {
    c.front != [] && c.back != [] && (c.furigana.Some? ==> c.furigana.value != [])
    && c.frontImage.None? && c.backImage.None?
  }

  lemma NewFlashcardWellFormed(id: Uuid, front: string, furigana: string, back: string)
    requires CanAddFlashcard(front, back)
    ensures WellFormedCard(NewFlashcard(id, front, furigana, back))
    ensures NewFlashcard(id, front, furigana, back).front == front
    ensures NewFlashcard(id, front, furigana, back).back == back
  {
  }

  /** The "Save" button of the new-lesson form is enabled. */
  predicate CanSaveLesson(title: string, flashcards: seq<Flashcard>) {
    title != [] && flashcards != []
  }

  /** The lesson the new-lesson form builds, numbered one past the current
      length of the store's list. */
  function NewLesson(id: Uuid, lessonCount: nat, title: string, flashcards: seq<Flashcard>): (l: LessonContent)
    ensures l.lessonNumber == lessonCount + 1 && l.title == title && l.flashcards == flashcards
  {
    LessonContent(id, lessonCount + 1, title, flashcards)
  }

  /** A lesson saved through the form has cards, so once it is in the store
      its progress ratio has a non-zero denominator. */
  lemma SavedLessonHasCards(store: seq<LessonContent>, id: Uuid, title: string, flashcards: seq<Flashcard>,
                            progress: map<Uuid, LessonProgress>)
    requires CanSaveLesson(title, flashcards)
    requires forall j :: 0 <= j < |store| ==> store[j].id != id
    requires id in progress ==> progress[id].completedCards <= CardIds(flashcards)
    ensures var lessons := store + [NewLesson(id, |store|, title, flashcards)];
            ProgressOf(lessons, progress, id).den > 0 &&
            ProgressOf(lessons, progress, id).num <= ProgressOf(lessons, progress, id).den
  {
    var lessons := store + [NewLesson(id, |store|, title, flashcards)];
    ProgressWithinOne(lessons, progress, id);
  }

  /** The "Save" action of the new-lesson form (reachable only while the
      button is enabled). */
  method SaveNewLesson(store: LessonStore, id: Uuid, title: string, flashcards: seq<Flashcard>)
    requires store.Valid()
    requires CanSaveLesson(title, flashcards)
    modifies store
    ensures store.Valid()
    ensures store.lessons == old(store.lessons) + [NewLesson(id, |old(store.lessons)|, title, flashcards)]
    ensures store.lessons[|store.lessons| - 1].lessonNumber == |old(store.lessons)| + 1
    ensures store.savedCustomLessons == Some(store.lessons[|store.catalog|..])
    ensures store.userProgress == old(store.userProgress) && store.savedProgress == old(store.savedProgress)
  {
    var newLesson := LessonContent(id, |store.lessons| + 1, title, flashcards);
    store.AddCustomLesson(newLesson);
  }

  // --------------------------------------------------------- FlashcardsView

  /** The card position and answer side of `FlashcardsView`. */
  class FlashcardDeck {
    const lesson: LessonContent
    var currentIndex: int
    var isShowingAnswer: bool

    /** The position names a card (or is 0 for a lesson without cards). */
    ghost predicate Valid()
      reads this
    {
      0 <= currentIndex && (currentIndex == 0 || currentIndex < |lesson.flashcards|)
    }

    constructor (lesson: LessonContent)
      ensures Valid()
      ensures this.lesson == lesson && currentIndex == 0 && !isShowingAnswer
    {
      this.lesson := lesson;
      currentIndex := 0;
      isShowingAnswer := false;
    }

    /** The card on screen. */
    function CurrentCard(): (c: Flashcard)
      reads this
      requires Valid() && lesson.flashcards != []
      ensures c in lesson.flashcards
    {
      lesson.flashcards[currentIndex]
    }

    method NextCard()
      requires Valid()
      modifies this
      ensures Valid()
      ensures old(currentIndex) < |lesson.flashcards| - 1 ==>
                currentIndex == old(currentIndex) + 1 && !isShowingAnswer
      ensures old(currentIndex) >= |lesson.flashcards| - 1 ==>
                currentIndex == old(currentIndex) && isShowingAnswer == old(isShowingAnswer)
    {
      if currentIndex < |lesson.flashcards| - 1 {
        isShowingAnswer := false;
        currentIndex := currentIndex + 1;
      }
    }

    method PreviousCard()
      requires Valid()
      modifies this
      ensures Valid()
      ensures old(currentIndex) > 0 ==> currentIndex == old(currentIndex) - 1 && !isShowingAnswer
      ensures old(currentIndex) == 0 ==> currentIndex == 0 && isShowingAnswer == old(isShowingAnswer)
    {
      if currentIndex > 0 {
        isShowingAnswer := false;
        currentIndex := currentIndex - 1;
      }
    }

    /** The "Show Answer" / "Show Front" button of `CardContent`. */
    method FlipCard()
      requires Valid()
      modifies this
      ensures Valid()
      ensures isShowingAnswer == !old(isShowingAnswer) && currentIndex == old(currentIndex)
    {
      isShowingAnswer := !isShowingAnswer;
    }
  }
}
