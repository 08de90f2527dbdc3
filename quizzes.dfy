/** QuizzesView.swift: quiz content, the `QuizStore` that merges built-in and
    custom quizzes and keeps each quiz's best score, the question-by-question
    session of `QuizSessionView`, and the rules of the "new quiz" and "new
    question" forms. */
module Quizzes {
  import opened Basics
  import opened Progress
  import ContentList

  datatype QuizQuestion = QuizQuestion(
    id: Uuid,
    question: string,
    furigana: Option<string>,
    correctAnswer: string,
    wrongAnswers: seq<string>,
    questionImage: Option<string>)

  datatype QuizContent = QuizContent(
    id: Uuid,
    lessonNumber: int,
    title: string,
    questions: seq<QuizQuestion>)

  /** `QuizStore.QuizProgress`. */
  datatype QuizProgress = QuizProgress(correctAnswers: set<Uuid>, lastAttemptDate: Instant, bestScore: int)

  function Max(a: int, b: int): int {
    if a >= b then a else b
  }

  /** `getBestScore(for:)`: 0 for a quiz never scored. */
  function BestScore(results: map<Uuid, QuizProgress>, quizId: Uuid): (r: int)
    ensures quizId !in results ==> r == 0
  {
    if quizId in results then results[quizId].bestScore else 0
  }

  /** `updateQuizScore` on the results map alone. */
  function RecordScore(results: map<Uuid, QuizProgress>, quizId: Uuid, score: int, now: Instant): (r: map<Uuid, QuizProgress>)
    ensures r.Keys == results.Keys + {quizId}
    ensures r[quizId].bestScore >= score && r[quizId].bestScore >= BestScore(results, quizId)
    ensures r[quizId].bestScore == score || r[quizId].bestScore == BestScore(results, quizId)
    ensures r[quizId].lastAttemptDate == now
  {
    var before := if quizId in results then results[quizId] else QuizProgress({}, now, 0);
    results[quizId := before.(lastAttemptDate := now, bestScore := Max(before.bestScore, score))]
  }

  /** One recorded score: the best is the larger of the previous best (0 when
      there was none) and the new score, the correct-answer set is kept, and
      other quizzes are untouched. */
  lemma RecordScoreKeepsBest(results: map<Uuid, QuizProgress>, quizId: Uuid, score: int, now: Instant)
    ensures BestScore(RecordScore(results, quizId, score, now), quizId) == Max(BestScore(results, quizId), score)
    ensures quizId in results ==>
              RecordScore(results, quizId, score, now)[quizId].correctAnswers == results[quizId].correctAnswers
    ensures forall q :: q != quizId ==>
              (q in results <==> q in RecordScore(results, quizId, score, now)) &&
              (q in results ==> RecordScore(results, quizId, score, now)[q] == results[q])
  {
  }

  function RecordScores(results: map<Uuid, QuizProgress>, quizId: Uuid, scores: seq<int>, now: Instant): map<Uuid, QuizProgress>
    decreases |scores|
  {
    if scores == [] then results else RecordScores(RecordScore(results, quizId, scores[0], now), quizId, scores[1..], now)
  }

  /** After any number of attempts the best score is the largest of the
      earlier best and every attempt, so it never decreases. */
  lemma {:induction false} BestScoreIsMaximum(results: map<Uuid, QuizProgress>, quizId: Uuid, scores: seq<int>, now: Instant)
    ensures var best := BestScore(RecordScores(results, quizId, scores, now), quizId);
            best >= BestScore(results, quizId) &&
            (forall i :: 0 <= i < |scores| ==> best >= scores[i]) &&
            (best == BestScore(results, quizId) || exists i :: 0 <= i < |scores| && best == scores[i])
    decreases |scores|
  {
    if scores != [] {
      var next := RecordScore(results, quizId, scores[0], now);
      var rest := scores[1..];
      RecordScoreKeepsBest(results, quizId, scores[0], now);
      BestScoreIsMaximum(next, quizId, rest, now);
      var best := BestScore(RecordScores(results, quizId, scores, now), quizId);
      assert best == BestScore(RecordScores(next, quizId, rest, now), quizId);
      assert forall i :: 1 <= i < |scores| ==> scores[i] == rest[i - 1];
      if best != BestScore(next, quizId) {
        var i :| 0 <= i < |rest| && best == rest[i];
        assert best == scores[i + 1];
      }
    }
  }

  // --------------------------------------------------------------- QuizStore

  class QuizStore {
    /** `QuizData.getAllQuizzes()`, fixed for the life of the process. */
    const catalog: seq<QuizContent>
    var quizzes: seq<QuizContent>
    var quizResults: map<Uuid, QuizProgress>
    /** The `custom_quizzes` record; `None` when it holds nothing that decodes. */
    ghost var savedCustomQuizzes: Option<seq<QuizContent>>
    /** The `quiz_progress` record; `None` when it holds nothing that decodes. */
    ghost var savedResults: Option<map<Uuid, QuizProgress>>

    ghost predicate Valid()
      reads this
    {
      && |catalog| <= |quizzes|
      && quizzes[..|catalog|] == catalog
      && (savedCustomQuizzes.Some? ==> savedCustomQuizzes.value == quizzes[|catalog|..])
      && (savedResults.Some? ==> savedResults.value == quizResults)
    }

    /** `init`: `loadQuizzes` then `loadProgress`. */
    constructor (catalog: seq<QuizContent>, storedQuizzes: Option<seq<QuizContent>>,
                 storedResults: Option<map<Uuid, QuizProgress>>)
      ensures Valid()
      ensures this.catalog == catalog
      ensures quizzes == catalog + (if storedQuizzes.Some? then storedQuizzes.value else [])
      ensures quizResults == if storedResults.Some? then storedResults.value else map[]
      ensures savedCustomQuizzes == storedQuizzes && savedResults == storedResults
    {
      this.catalog := catalog;
      quizzes := [];
      quizResults := map[];
      savedCustomQuizzes := storedQuizzes;
      savedResults := storedResults;
      new;
      LoadQuizzes(storedQuizzes);
      LoadProgress(storedResults);
    }

    method LoadQuizzes(stored: Option<seq<QuizContent>>)
      modifies this`quizzes
      ensures quizzes == catalog + (if stored.Some? then stored.value else [])
    {
      quizzes := catalog;
      if stored.Some? {
        quizzes := quizzes + stored.value;
      }
    }

    method LoadProgress(stored: Option<map<Uuid, QuizProgress>>)
      modifies this`quizResults
      ensures quizResults == if stored.Some? then stored.value else old(quizResults)
    {
      if stored.Some? {
        quizResults := stored.value;
      }
    }

    method SaveProgress()
      modifies this`savedResults
      ensures savedResults == Some(quizResults)
    {
      savedResults := Some(quizResults);
    }

    method SaveCustomQuizzes()
      modifies this`savedCustomQuizzes
      ensures savedCustomQuizzes == Some(DropFirst(quizzes, |catalog|))
    {
      savedCustomQuizzes := Some(DropFirst(quizzes, |catalog|));
    }

    method AddCustomQuiz(quiz: QuizContent)
      requires Valid()
      modifies this
      ensures Valid()
      ensures quizzes == old(quizzes) + [quiz]
      ensures savedCustomQuizzes == Some(quizzes[|catalog|..])
      ensures quizResults == old(quizResults) && savedResults == old(savedResults)
    {
      quizzes := quizzes + [quiz];
      SaveCustomQuizzes();
    }

    /** `deleteQuiz(at:)`: the same catalog-prefix guard as lessons. */
    method DeleteQuiz(offsets: set<nat>)
      requires Valid()
      requires forall i :: i in offsets ==> i < |quizzes|
      modifies this
      ensures Valid()
      ensures ContentList.DeletionRejected(offsets, |catalog|) ==>
                quizzes == old(quizzes) && savedCustomQuizzes == old(savedCustomQuizzes)
      ensures !ContentList.DeletionRejected(offsets, |catalog|) ==>
                quizzes == ContentList.RemoveOffsets(old(quizzes), offsets) &&
                |quizzes| == |old(quizzes)| - |offsets| &&
                savedCustomQuizzes == Some(quizzes[|catalog|..])
      ensures quizResults == old(quizResults) && savedResults == old(savedResults)
    {
      var adjusted := set i | i in offsets :: if i < |catalog| then 0 else i;
      if 0 in adjusted {
        return;
      }
      ContentList.DeletionKeepsCatalog(quizzes, offsets, catalog);
      ContentList.RemoveOffsetsLength(quizzes, offsets);
      assert ContentList.Hit(|quizzes|, offsets) == offsets;
      quizzes := ContentList.RemoveOffsets(quizzes, offsets);
      SaveCustomQuizzes();
    }

    method UpdateQuizScore(quizId: Uuid, score: int, now: Instant)
      requires Valid()
      modifies this
      ensures Valid()
      ensures quizResults == RecordScore(old(quizResults), quizId, score, now)
      ensures BestScore(quizResults, quizId) == Max(BestScore(old(quizResults), quizId), score)
      ensures savedResults == Some(quizResults)
      ensures quizzes == old(quizzes) && savedCustomQuizzes == old(savedCustomQuizzes)
    {
      var progress := if quizId in quizResults then quizResults[quizId] else QuizProgress({}, now, 0);
      progress := progress.(lastAttemptDate := now);
      progress := progress.(bestScore := Max(progress.bestScore, score));
      quizResults := quizResults[quizId := progress];
      SaveProgress();
    }

    function GetBestScore(quizId: Uuid): (r: int)
      reads this
      ensures quizId !in quizResults ==> r == 0
    {
      BestScore(quizResults, quizId)
    }
  }

  // --------------------------------------------------------- QuizSessionView

  /** The state of one run through a quiz. */
  class QuizSession {
    const quiz: QuizContent
    var currentQuestionIndex: int
    var score: int
    var showingAnswer: bool
    var selectedAnswer: Option<string>
    var isQuizComplete: bool
    /** How many times this session has called `updateQuizScore`. */
    ghost var scoresRecorded: nat

    /** At most one point per question answered so far, and the score is
        recorded once, when and only when the quiz is complete. */
    ghost predicate Valid()
      reads this
    {
      && 0 <= currentQuestionIndex
      && (currentQuestionIndex == 0 || currentQuestionIndex < |quiz.questions|)
      && 0 <= score <= currentQuestionIndex + (if showingAnswer then 1 else 0)
      && (isQuizComplete ==> showingAnswer)
      && scoresRecorded == (if isQuizComplete then 1 else 0)
    }

    /** The bound stated in terms of the quiz's length. */
    lemma ScoreBound()
      requires Valid() && quiz.questions != []
      ensures score <= currentQuestionIndex + 1 <= |quiz.questions|
    {
    }

    constructor (quiz: QuizContent)
      ensures Valid()
      ensures this.quiz == quiz && currentQuestionIndex == 0 && score == 0
      ensures !showingAnswer && selectedAnswer.None? && !isQuizComplete
    {
      this.quiz := quiz;
      currentQuestionIndex := 0;
      score := 0;
      showingAnswer := false;
      selectedAnswer := None;
      isQuizComplete := false;
      scoresRecorded := 0;
    }

    /** Tapping an answer button: only the first tap per question counts, and
        a correct answer is worth one point in the session and in the profile. */
    method Answer(answer: string, user: UserManager)
      requires Valid() && !isQuizComplete
      requires currentQuestionIndex < |quiz.questions|
      modifies this, user
      ensures Valid()
      ensures old(showingAnswer) ==>
                score == old(score) && selectedAnswer == old(selectedAnswer) && showingAnswer &&
                user.currentUser == old(user.currentUser) && user.savedUser == old(user.savedUser)
      ensures !old(showingAnswer) ==>
                var gained := if answer == quiz.questions[currentQuestionIndex].correctAnswer then 1 else 0;
                score == old(score) + gained && showingAnswer && selectedAnswer == Some(answer) &&
                (gained == 1 ==> user.currentUser == old(user.currentUser).(
                                   points := old(user.currentUser.points) + 1,
                                   level := LevelFor(old(user.currentUser.points) + 1)) &&
                                 LevelConsistent(user.currentUser) && user.savedUser == Some(user.currentUser)) &&
                (gained == 0 ==> user.currentUser == old(user.currentUser) && user.savedUser == old(user.savedUser))
      ensures currentQuestionIndex == old(currentQuestionIndex) && !isQuizComplete
      ensures scoresRecorded == old(scoresRecorded)
    {
      if !showingAnswer {
        selectedAnswer := Some(answer);
        showingAnswer := true;
        if answer == quiz.questions[currentQuestionIndex].correctAnswer {
          score := score + 1;
          user.AddPoints(1);
        }
      }
    }

    /** The "Next Question" button, shown once the current question has been
        answered: advance, or finish and record the score with the store. */
    method NextQuestion(store: QuizStore, now: Instant)
      requires Valid() && showingAnswer && !isQuizComplete
      requires store.Valid()
      modifies this, store
      ensures Valid() && store.Valid()
      ensures old(currentQuestionIndex) < |quiz.questions| - 1 ==>
                currentQuestionIndex == old(currentQuestionIndex) + 1 && !showingAnswer &&
                selectedAnswer.None? && !isQuizComplete &&
                store.quizResults == old(store.quizResults) && scoresRecorded == 0 &&
                store.savedResults == old(store.savedResults)
      ensures old(currentQuestionIndex) >= |quiz.questions| - 1 ==>
                isQuizComplete && currentQuestionIndex == old(currentQuestionIndex) &&
                store.quizResults == RecordScore(old(store.quizResults), quiz.id, score, now) &&
                store.savedResults == Some(store.quizResults) &&
                selectedAnswer == old(selectedAnswer) && scoresRecorded == 1
      ensures score == old(score)
      ensures store.quizzes == old(store.quizzes) && store.savedCustomQuizzes == old(store.savedCustomQuizzes)
    {
      if currentQuestionIndex < |quiz.questions| - 1 {
        currentQuestionIndex := currentQuestionIndex + 1;
        showingAnswer := false;
        selectedAnswer := None;
      } else {
        isQuizComplete := true;
        store.UpdateQuizScore(quiz.id, score, now);
        scoresRecorded := scoresRecorded + 1;
      }
    }
  }

  // ------------------------------------------------------ new-content forms

  /** `filter { !$0.isEmpty }`. */
  function NonEmptyOnly(xs: seq<string>): (r: seq<string>)
    ensures |r| <= |xs|
    ensures forall a :: a in r <==> a in xs && a != []
    ensures forall i :: 0 <= i < |r| ==> r[i] != []
    ensures (forall i :: 0 <= i < |xs| ==> xs[i] != []) ==> r == xs
    decreases |xs|
  {
    if xs == [] then []
    else (if xs[0] == [] then [] else [xs[0]]) + NonEmptyOnly(xs[1..])
  }

  /** Filtering keeps the order: filtering a concatenation concatenates the
      filtered parts. */
  lemma {:induction false} NonEmptyOnlyAppend(a: seq<string>, b: seq<string>)
    ensures NonEmptyOnly(a + b) == NonEmptyOnly(a) + NonEmptyOnly(b)
    decreases |a|
  {
    if a == [] {
      assert a + b == b;
    } else {
      var head := if a[0] == [] then [] else [a[0]];
      assert (a + b)[0] == a[0] && (a + b)[1..] == a[1..] + b;
      calc {
        NonEmptyOnly(a + b);
        head + NonEmptyOnly(a[1..] + b);
        { NonEmptyOnlyAppend(a[1..], b); }
        head + (NonEmptyOnly(a[1..]) + NonEmptyOnly(b));
        (head + NonEmptyOnly(a[1..])) + NonEmptyOnly(b);
        NonEmptyOnly(a) + NonEmptyOnly(b);
      }
    }
  }

  /** The "Add" button of the new-question form is enabled. */
  predicate CanAddQuestion(question: string, correctAnswer: string, wrongAnswer1: string) {
    question != [] && correctAnswer != [] && wrongAnswer1 != []
  }

  /** The question the new-question form appends. */
  function NewQuestion(id: Uuid, question: string, furigana: string, correctAnswer: string,
                       wrongAnswer1: string, wrongAnswer2: string, wrongAnswer3: string): (q: QuizQuestion)
    ensures q.id == id && q.question == question && q.correctAnswer == correctAnswer
    ensures (q.furigana.None? <==> furigana == []) && (q.furigana.Some? ==> q.furigana.value == furigana)
    ensures q.questionImage.None?
    ensures forall i :: 0 <= i < |q.wrongAnswers| ==> q.wrongAnswers[i] != []
  {
    QuizQuestion(id, question, if furigana == [] then None else Some(furigana), correctAnswer,
                 NonEmptyOnly([wrongAnswer1, wrongAnswer2, wrongAnswer3]), None)
  }

  /** A question the form lets through has a non-empty correct answer and
      at least one wrong answer, the first field first, with every blank
      field left out. */
  lemma NewQuestionWellFormed(id: Uuid, question: string, furigana: string, correctAnswer: string,
                              w1: string, w2: string, w3: string)
    requires CanAddQuestion(question, correctAnswer, w1)
    ensures var q := NewQuestion(id, question, furigana, correctAnswer, w1, w2, w3);
            q.question == question && q.correctAnswer != [] &&
            1 <= |q.wrongAnswers| <= 3 && q.wrongAnswers[0] == w1 &&
            (forall a :: a in q.wrongAnswers <==> a != [] && (a == w1 || a == w2 || a == w3)) &&
            (q.furigana.None? <==> furigana == []) && q.questionImage.None?
    ensures NewQuestion(id, question, furigana, correctAnswer, w1, w2, w3).wrongAnswers ==
            [w1] + (if w2 != [] then [w2] else []) + (if w3 != [] then [w3] else [])
  {
    var ws := [w1, w2, w3];
    assert ws[1..] == [w2, w3] && ws[1..][1..] == [w3] && ws[1..][1..][1..] == [];
    assert NonEmptyOnly(ws) == [w1] + NonEmptyOnly(ws[1..]);
  }

  /** The "Save" button of the new-quiz form is enabled. */
  predicate CanSaveQuiz(title: string, questions: seq<QuizQuestion>) {
    title != [] && questions != []
  }

  /** The "Save" action of the new-quiz form (reachable only while the button
      is enabled): the quiz is numbered one past the current list length. */
  method SaveNewQuiz(store: QuizStore, id: Uuid, title: string, questions: seq<QuizQuestion>)
    requires store.Valid()
    requires CanSaveQuiz(title, questions)
    modifies store
    ensures store.Valid()
    ensures store.quizzes == old(store.quizzes) + [QuizContent(id, |old(store.quizzes)| + 1, title, questions)]
    ensures store.savedCustomQuizzes == Some(store.quizzes[|store.catalog|..])
    ensures store.quizResults == old(store.quizResults) && store.savedResults == old(store.savedResults)
  {
    var newQuiz := QuizContent(id, |store.quizzes| + 1, title, questions);
    store.AddCustomQuiz(newQuiz);
  }
}
