/** SearchView.swift: `SearchViewModel.search`, a case-insensitive substring
    search over the front, back and furigana of every built-in flashcard,
    one result per matching card, ordered by lesson number. */
module Search {
  import opened Basics
  import opened Lessons

  datatype SearchResult = SearchResult(
    id: Uuid,
    japanese: string,
    furigana: Option<string>,
    english: string,
    lessonNumber: int,
    lessonTitle: string)

  // ------------------------------------------------------------- matching

  /** `lowercased()` on one character, restricted to ASCII letters. */
  function LowerChar(c: char): char {
    if 'A' <= c <= 'Z' then (c as int + 32) as char else c
  }

  /** `lowercased()`, character by character. */
  function Lowercased(s: string): (r: string)
    ensures |r| == |s|
    ensures forall i :: 0 <= i < |s| ==> r[i] == LowerChar(s[i])
    decreases |s|
  {
    if s == [] then [] else [LowerChar(s[0])] + Lowercased(s[1..])
  }

  /** Lowering twice is lowering once: an already lowered query is left as
      it is. */
  lemma {:induction false} LowercasedIdempotent(s: string)
    ensures Lowercased(Lowercased(s)) == Lowercased(s)
    decreases |s|
  {
    if s != [] {
      LowercasedIdempotent(s[1..]);
      assert Lowercased(s)[1..] == Lowercased(s[1..]);
    }
  }

  /** Two queries that differ only in the case of ASCII letters lower to the
      same string, and so find the same cards. */
  lemma CaseBlindQuery(catalog: seq<LessonContent>, a: string, b: string)
    requires |a| == |b|
    requires forall i :: 0 <= i < |a| ==> LowerChar(a[i]) == LowerChar(b[i])
    ensures Lowercased(a) == Lowercased(b)
    ensures CatalogHits(catalog, Lowercased(a)) == CatalogHits(catalog, Lowercased(b))
  {
  }

  /** `hay.contains(needle)`: `needle` occurs as a contiguous run of `hay`. */
  predicate Contains(hay: string, needle: string)
    ensures needle == [] ==> Contains(hay, needle)
    ensures Contains(hay, needle) ==> |needle| <= |hay|
    decreases |hay|
  {
    needle <= hay || (hay != [] && Contains(hay[1..], needle))
  }

  /** `needle` occurs in `hay` starting at position `k`. */
  ghost predicate OccursAt(hay: string, needle: string, k: nat) {
    k + |needle| <= |hay| && hay[k..k + |needle|] == needle
  }

  /** The recursive definition agrees with "some slice equals the needle". */
  lemma {:induction false} ContainsMeansSlice(hay: string, needle: string)
    ensures Contains(hay, needle) <==> exists k: nat :: OccursAt(hay, needle, k)
    decreases |hay|
  {
    if needle <= hay {
      assert OccursAt(hay, needle, 0);
    } else if hay == [] {
      assert forall k: nat :: !OccursAt(hay, needle, k);
    } else {
      ContainsMeansSlice(hay[1..], needle);
      if Contains(hay[1..], needle) {
        var k: nat :| OccursAt(hay[1..], needle, k);
        assert hay[k + 1..k + 1 + |needle|] == hay[1..][k..k + |needle|];
        assert OccursAt(hay, needle, k + 1);
      }
      if exists k: nat :: OccursAt(hay, needle, k) {
        var k: nat :| OccursAt(hay, needle, k);
        assert k != 0;
        assert hay[1..][k - 1..k - 1 + |needle|] == hay[k..k + |needle|];
        assert OccursAt(hay[1..], needle, k - 1);
      }
    }
  }

  /** For a one-character query the substring test is plain membership. */
  lemma {:induction false} ContainsChar(hay: string, c: char)
    ensures Contains(hay, [c]) <==> c in hay
    decreases |hay|
  {
    if hay != [] {
      ContainsChar(hay[1..], c);
      assert hay == [hay[0]] + hay[1..];
    }
  }

  /** Lowering leaves every character that is not an ASCII letter where it was. */
  lemma {:induction false} LowercasedKeepsOthers(s: string, c: char)
    requires !('A' <= c <= 'Z') && !('a' <= c <= 'z')
    ensures c in Lowercased(s) <==> c in s
    decreases |s|
  {
    if s != [] {
      LowercasedKeepsOthers(s[1..], c);
      assert Lowercased(s) == [LowerChar(s[0])] + Lowercased(s[1..]);
      assert s == [s[0]] + s[1..];
    }
  }

  /** The match test of `search`, for an already lowered query: front, back
      or furigana contains it; a card without furigana never matches on it. */
  predicate Matches(card: Flashcard, lowercasedQuery: string)
    ensures lowercasedQuery == [] ==> Matches(card, lowercasedQuery)
  {
    || Contains(Lowercased(card.front), lowercasedQuery)
    || Contains(Lowercased(card.back), lowercasedQuery)
    || (card.furigana.Some? && Contains(Lowercased(card.furigana.value), lowercasedQuery))
  }

  /** The result built for a matching card. */
  function ResultFor(lesson: LessonContent, card: Flashcard): (r: SearchResult)
    ensures r.id == card.id && r.japanese == card.front && r.english == card.back
    ensures r.furigana == card.furigana
    ensures r.lessonNumber == lesson.lessonNumber && r.lessonTitle == lesson.title
  {
    SearchResult(card.id, card.front, card.furigana, card.back, lesson.lessonNumber, lesson.title)
  }

  // ------------------------------------------------------ the scan, as values

  /** The results the inner loop appends for `cards` of `lesson`, in order. */
  function LessonHits(lesson: LessonContent, cards: seq<Flashcard>, lowercasedQuery: string): (r: seq<SearchResult>)
    ensures |r| <= |cards|
    ensures forall k :: 0 <= k < |r| ==> r[k].lessonNumber == lesson.lessonNumber && r[k].lessonTitle == lesson.title
    decreases |cards|
  {
    if cards == [] then []
    else
      var last := cards[|cards| - 1];
      LessonHits(lesson, cards[..|cards| - 1], lowercasedQuery) +
      (if Matches(last, lowercasedQuery) then [ResultFor(lesson, last)] else [])
  }

  /** The results both loops append for `lessons`, in scan order. */
  function CatalogHits(lessons: seq<LessonContent>, lowercasedQuery: string): (r: seq<SearchResult>)
    ensures |r| <= TotalCards(lessons)
    decreases |lessons|
  {
    if lessons == [] then []
    else
      var last := lessons[|lessons| - 1];
      CatalogHits(lessons[..|lessons| - 1], lowercasedQuery) + LessonHits(last, last.flashcards, lowercasedQuery)
  }

  function TotalCards(lessons: seq<LessonContent>): nat
    decreases |lessons|
  {
    if lessons == [] then 0 else TotalCards(lessons[..|lessons| - 1]) + |lessons[|lessons| - 1].flashcards|
  }

  lemma {:induction false} LessonHitsMembership(lesson: LessonContent, cards: seq<Flashcard>, lq: string, r: SearchResult)
    ensures r in LessonHits(lesson, cards, lq) <==>
            exists k :: 0 <= k < |cards| && Matches(cards[k], lq) && r == ResultFor(lesson, cards[k])
    decreases |cards|
  {
    if cards != [] {
      var n := |cards| - 1;
      LessonHitsMembership(lesson, cards[..n], lq, r);
      assert forall k :: 0 <= k < n ==> cards[..n][k] == cards[k];
    }
  }

  /** `r` is the result of some card of `lesson` that matches. */
  ghost predicate HitIn(lesson: LessonContent, lq: string, r: SearchResult) {
    exists k :: 0 <= k < |lesson.flashcards| && Matches(lesson.flashcards[k], lq) &&
                r == ResultFor(lesson, lesson.flashcards[k])
  }

  /** A result is produced exactly for a built-in card that matches, and it
      describes that card and the lesson it belongs to. */
  lemma CatalogHitsMembership(lessons: seq<LessonContent>, lq: string, r: SearchResult)
    ensures r in CatalogHits(lessons, lq) <==> exists i :: 0 <= i < |lessons| && HitIn(lessons[i], lq, r)
  {
    if r in CatalogHits(lessons, lq) {
      CatalogHitsSound(lessons, lq, r);
    }
    if exists i :: 0 <= i < |lessons| && HitIn(lessons[i], lq, r) {
      var i :| 0 <= i < |lessons| && HitIn(lessons[i], lq, r);
      CatalogHitsComplete(lessons, lq, r, i);
    }
  }

  lemma {:induction false} CatalogHitsSound(lessons: seq<LessonContent>, lq: string, r: SearchResult)
    requires r in CatalogHits(lessons, lq)
    ensures exists i :: 0 <= i < |lessons| && HitIn(lessons[i], lq, r)
    decreases |lessons|
  {
    var n := |lessons| - 1;
    var last, prefix := lessons[n], lessons[..n];
    if r in CatalogHits(prefix, lq) {
      CatalogHitsSound(prefix, lq, r);
      var i :| 0 <= i < n && HitIn(prefix[i], lq, r);
      assert prefix[i] == lessons[i];
    } else {
      LessonHitsMembership(last, last.flashcards, lq, r);
      assert HitIn(lessons[n], lq, r);
    }
  }

  lemma {:induction false} CatalogHitsComplete(lessons: seq<LessonContent>, lq: string, r: SearchResult, i: nat)
    requires i < |lessons| && HitIn(lessons[i], lq, r)
    ensures r in CatalogHits(lessons, lq)
    decreases |lessons|
  {
    var n := |lessons| - 1;
    var last, prefix := lessons[n], lessons[..n];
    if i < n {
      assert prefix[i] == lessons[i];
      CatalogHitsComplete(prefix, lq, r, i);
    } else {
      LessonHitsMembership(last, last.flashcards, lq, r);
    }
  }

  /** The positions of the cards of `cards` that match. */
  ghost function MatchingPositions(cards: seq<Flashcard>, lq: string): set<int> {
    set k | 0 <= k < |cards| && Matches(cards[k], lq)
  }

  /** The number of matching cards, lesson by lesson. */
  ghost function CatalogMatchCount(lessons: seq<LessonContent>, lq: string): nat
    decreases |lessons|
  {
    if lessons == [] then 0
    else CatalogMatchCount(lessons[..|lessons| - 1], lq) + |MatchingPositions(lessons[|lessons| - 1].flashcards, lq)|
  }

  /** A lesson yields exactly one result per matching card, however many of
      the card's fields match. */
  lemma {:induction false} LessonHitsCount(lesson: LessonContent, cards: seq<Flashcard>, lq: string)
    ensures |LessonHits(lesson, cards, lq)| == |MatchingPositions(cards, lq)|
    decreases |cards|
  {
    if cards != [] {
      var n := |cards| - 1;
      LessonHitsCount(lesson, cards[..n], lq);
      MatchingPositionsStep(cards, lq);
    }
  }

  /** The matching positions of a list are those of all but its last card,
      plus the last position when that card matches. */
  lemma MatchingPositionsStep(cards: seq<Flashcard>, lq: string)
    requires cards != []
    ensures var n := |cards| - 1;
            MatchingPositions(cards, lq) ==
            MatchingPositions(cards[..n], lq) + (if Matches(cards[n], lq) then {n} else {})
  {
    var n := |cards| - 1;
    assert forall k :: 0 <= k < n ==> cards[..n][k] == cards[k];
  }

  /** When every card matches, every card yields a result. */
  lemma {:induction false} LessonHitsAllMatch(lesson: LessonContent, cards: seq<Flashcard>, lq: string)
    requires forall k :: 0 <= k < |cards| ==> Matches(cards[k], lq)
    ensures |LessonHits(lesson, cards, lq)| == |cards|
    decreases |cards|
  {
    if cards != [] {
      LessonHitsAllMatch(lesson, cards[..|cards| - 1], lq);
    }
  }

  /** The catalog yields exactly one result per matching card: never more
      results than built-in cards, and exactly as many when every card
      matches. */
  lemma {:induction false} CatalogHitsCount(lessons: seq<LessonContent>, lq: string)
    ensures |CatalogHits(lessons, lq)| == CatalogMatchCount(lessons, lq)
    ensures |CatalogHits(lessons, lq)| <= TotalCards(lessons)
    ensures (forall i, k :: 0 <= i < |lessons| && 0 <= k < |lessons[i].flashcards| ==>
               Matches(lessons[i].flashcards[k], lq)) ==>
            |CatalogHits(lessons, lq)| == TotalCards(lessons)
    decreases |lessons|
  {
    if lessons != [] {
      var n := |lessons| - 1;
      CatalogHitsCount(lessons[..n], lq);
      LessonHitsCount(lessons[n], lessons[n].flashcards, lq);
      if forall i, k :: 0 <= i < |lessons| && 0 <= k < |lessons[i].flashcards| ==>
           Matches(lessons[i].flashcards[k], lq) {
        LessonHitsAllMatch(lessons[n], lessons[n].flashcards, lq);
      }
    }
  }

  // ----------------------------------------------------------------- order

  ghost predicate SortedByLesson(s: seq<SearchResult>) {
    forall i, j :: 0 <= i < j < |s| ==> s[i].lessonNumber <= s[j].lessonNumber
  }

  function InsertByLesson(x: SearchResult, s: seq<SearchResult>): (r: seq<SearchResult>)
    requires SortedByLesson(s)
    ensures SortedByLesson(r)
    ensures multiset(r) == multiset(s) + multiset{x}
    decreases |s|
  {
    if s == [] then [x]
    else if x.lessonNumber <= s[0].lessonNumber then [x] + s
    else
      var rest := InsertByLesson(x, s[1..]);
      assert s == [s[0]] + s[1..];
      HeadBelowInserted(x, s, rest);
      [s[0]] + rest
  }

  lemma HeadBelowInserted(x: SearchResult, s: seq<SearchResult>, rest: seq<SearchResult>)
    requires s != [] && SortedByLesson(s) && SortedByLesson(rest)
    requires s[0].lessonNumber < x.lessonNumber
    requires multiset(rest) == multiset(s[1..]) + multiset{x}
    ensures SortedByLesson([s[0]] + rest)
  {
    forall k | 0 <= k < |rest|
      ensures s[0].lessonNumber <= rest[k].lessonNumber
    {
      var y := rest[k];
      assert y in multiset(rest);
      if y != x {
        assert y in multiset(s[1..]);
        var m :| 0 <= m < |s[1..]| && s[1..][m] == y;
        assert s[m + 1] == y;
      }
    }
    var t := [s[0]] + rest;
    forall i, j | 0 <= i < j < |t|
      ensures t[i].lessonNumber <= t[j].lessonNumber
    {
      if i > 0 {
        assert t[i] == rest[i - 1] && t[j] == rest[j - 1];
      } else {
        assert t[j] == rest[j - 1];
      }
    }
  }

  /** `results.sort { $0.lessonNumber < $1.lessonNumber }`: the same results,
      in ascending lesson order. */
  function SortByLesson(s: seq<SearchResult>): (r: seq<SearchResult>)
    ensures SortedByLesson(r)
    ensures multiset(r) == multiset(s)
    decreases |s|
  {
    if s == [] then []
    else
      assert s == [s[0]] + s[1..];
      InsertByLesson(s[0], SortByLesson(s[1..]))
  }

  // ---------------------------------------------------------------- search

  /** `search(query:)` after its debounce: nothing for an empty query,
      otherwise every matching built-in card once, sorted by lesson number. */
  method SearchCatalog(catalog: seq<LessonContent>, query: string) returns (results: seq<SearchResult>)
    ensures query == [] ==> results == []
    ensures query != [] ==> multiset(results) == multiset(CatalogHits(catalog, Lowercased(query)))
    ensures query != [] ==> |results| == CatalogMatchCount(catalog, Lowercased(query))
    ensures SortedByLesson(results)
    ensures |results| <= TotalCards(catalog)
  {
    if query == [] {
      return [];
    }
    var lowercasedQuery := Lowercased(query);
    var found: seq<SearchResult> := [];
    var i := 0;
    while i < |catalog|
      invariant 0 <= i <= |catalog|
      invariant found == CatalogHits(catalog[..i], lowercasedQuery)
    {
      var lesson := catalog[i];
      var j := 0;
      while j < |lesson.flashcards|
        invariant 0 <= j <= |lesson.flashcards|
        invariant found == CatalogHits(catalog[..i], lowercasedQuery) +
                           LessonHits(lesson, lesson.flashcards[..j], lowercasedQuery)
      {
        var card := lesson.flashcards[j];
        LessonHitsStep(lesson, lesson.flashcards, j, lowercasedQuery);
        if Contains(Lowercased(card.front), lowercasedQuery) ||
           Contains(Lowercased(card.back), lowercasedQuery) ||
           (card.furigana.Some? && Contains(Lowercased(card.furigana.value), lowercasedQuery)) {
          found := found + [SearchResult(card.id, card.front, card.furigana, card.back,
                                         lesson.lessonNumber, lesson.title)];
        }
        j := j + 1;
      }
      CatalogHitsStep(catalog, i, lowercasedQuery);
      i := i + 1;
    }
    assert catalog[..|catalog|] == catalog;
    results := SortByLesson(found);
    CatalogHitsCount(catalog, lowercasedQuery);
    assert |results| == |multiset(results)| == |found|;
  }

  /** One more card scanned by the inner loop. */
  lemma LessonHitsStep(lesson: LessonContent, cards: seq<Flashcard>, j: nat, lq: string)
    requires j < |cards|
    ensures LessonHits(lesson, cards[..j + 1], lq) ==
            LessonHits(lesson, cards[..j], lq) +
            (if Matches(cards[j], lq) then [ResultFor(lesson, cards[j])] else [])
  {
    assert cards[..j + 1][..j] == cards[..j];
  }

  /** One more lesson scanned by the outer loop. */
  lemma CatalogHitsStep(lessons: seq<LessonContent>, i: nat, lq: string)
    requires i < |lessons|
    ensures CatalogHits(lessons[..i + 1], lq) ==
            CatalogHits(lessons[..i], lq) + LessonHits(lessons[i], lessons[i].flashcards[..|lessons[i].flashcards|], lq)
  {
    assert lessons[..i + 1][..i] == lessons[..i];
    assert lessons[i].flashcards[..|lessons[i].flashcards|] == lessons[i].flashcards;
  }

  /** What a search shows: a result is listed exactly when it describes a
      built-in card that matches the lowered query, in the lesson holding it. */
  lemma SearchResultsAreMatches(catalog: seq<LessonContent>, query: string, results: seq<SearchResult>, r: SearchResult)
    requires query != []
    requires multiset(results) == multiset(CatalogHits(catalog, Lowercased(query)))
    ensures r in results <==>
            exists i :: 0 <= i < |catalog| && HitIn(catalog[i], Lowercased(query), r)
  {
    assert r in results <==> r in multiset(results);
    assert r in CatalogHits(catalog, Lowercased(query)) <==> r in multiset(CatalogHits(catalog, Lowercased(query)));
    CatalogHitsMembership(catalog, Lowercased(query), r);
  }

  /** `SearchViewModel`: holds the results the search screen lists. */
  class SearchViewModel {
    /** `LessonData.getAllLessons()`: custom lessons are never searched. */
    const catalog: seq<LessonContent>
    var searchResults: seq<SearchResult>

    constructor (catalog: seq<LessonContent>)
      ensures this.catalog == catalog && searchResults == []
    {
      this.catalog := catalog;
      searchResults := [];
    }

    method Search(query: string)
      modifies this
      ensures query == [] ==> searchResults == []
      ensures query != [] ==> multiset(searchResults) == multiset(CatalogHits(catalog, Lowercased(query)))
      ensures query != [] ==> |searchResults| == CatalogMatchCount(catalog, Lowercased(query))
      ensures SortedByLesson(searchResults)
      ensures |searchResults| <= TotalCards(catalog)
    {
      searchResults := SearchCatalog(catalog, query);
    }
  }

  // ------------------------------------------------------------ an example

  /** Four cards of the first built-in lesson. */
  const SampleLesson := LessonContent(1, 1, "Japanese Survival Words", [
    Flashcard(4, "はい", None, "Yes", None, None),
    Flashcard(5, "いいえ", None, "No", None, None),
    Flashcard(16, "助けて", None, "Help", None, None),
    Flashcard(17, "水", None, "Water", None, None)])

  /** A one-character query that is not an ASCII letter matches a card
      exactly when that character occurs in its front, back or furigana. */
  lemma MatchesChar(card: Flashcard, c: char)
    requires !('A' <= c <= 'Z') && !('a' <= c <= 'z')
    ensures Matches(card, Lowercased([c])) <==>
            c in card.front || c in card.back || (card.furigana.Some? && c in card.furigana.value)
  {
    assert LowerChar(c) == c;
    assert Lowercased([c]) == [c] + Lowercased([]);
    assert Lowercased([c]) == [c];
    FieldMatchesChar(card.front, c);
    FieldMatchesChar(card.back, c);
    if card.furigana.Some? {
      FieldMatchesChar(card.furigana.value, c);
      assert Matches(card, [c]) <==> c in card.front || c in card.back || c in card.furigana.value;
    }
  }

  lemma FieldMatchesChar(field: string, c: char)
    requires !('A' <= c <= 'Z') && !('a' <= c <= 'z')
    ensures Contains(Lowercased(field), [c]) <==> c in field
  {
    LowercasedKeepsOthers(field, c);
    ContainsChar(Lowercased(field), c);
  }

  /** When exactly one card of a lesson matches, that lesson yields exactly
      that card's result. */
  lemma {:induction false} SingleHit(lesson: LessonContent, cards: seq<Flashcard>, q: string, idx: nat)
    requires idx < |cards|
    requires forall k :: 0 <= k < |cards| ==> (Matches(cards[k], q) <==> k == idx)
    ensures LessonHits(lesson, cards, q) == [ResultFor(lesson, cards[idx])]
    decreases |cards|
  {
    var n := |cards| - 1;
    if n == idx {
      NoHits(lesson, cards[..n], q);
    } else {
      SingleHit(lesson, cards[..n], q, idx);
    }
  }

  lemma {:induction false} NoHits(lesson: LessonContent, cards: seq<Flashcard>, q: string)
    requires forall k :: 0 <= k < |cards| ==> !Matches(cards[k], q)
    ensures LessonHits(lesson, cards, q) == []
    decreases |cards|
  {
    if cards != [] {
      NoHits(lesson, cards[..|cards| - 1], q);
    }
  }

  /** A catalog of one lesson with exactly one matching card yields exactly
      that card's result. */
  lemma OneLessonOneHit(lesson: LessonContent, q: string, idx: nat)
    requires idx < |lesson.flashcards|
    requires forall k :: 0 <= k < |lesson.flashcards| ==> (Matches(lesson.flashcards[k], q) <==> k == idx)
    ensures CatalogHits([lesson], q) == [ResultFor(lesson, lesson.flashcards[idx])]
  {
    SingleHit(lesson, lesson.flashcards, q, idx);
    assert [lesson][..0] == [];
  }

  /** A card without furigana whose front and back avoid a non-letter `c`
      does not match the query `[c]`. */
  lemma CardLacksChar(card: Flashcard, c: char)
    requires !('A' <= c <= 'Z') && !('a' <= c <= 'z')
    requires card.furigana == None
    requires forall i :: 0 <= i < |card.front| ==> card.front[i] != c
    requires forall i :: 0 <= i < |card.back| ==> card.back[i] != c
    ensures !Matches(card, Lowercased([c]))
  {
    MatchesChar(card, c);
  }

  /** Which sample cards a search for "水" matches, one card at a time. */
  lemma SampleCardMatchesWater(k: nat)
    requires k < |SampleLesson.flashcards|
    ensures Matches(SampleLesson.flashcards[k], ['水']) <==> k == 3
  {
    var card := SampleLesson.flashcards[k];
    assert Lowercased(['水']) == ['水'] by {
      assert LowerChar('水') == '水';
      assert Lowercased(['水']) == ['水'] + Lowercased([]);
    }
    if k == 3 {
      MatchesChar(card, '水');
      assert card.front[0] == '水';
    } else {
      CardLacksChar(card, '水');
    }
  }

  /** Searching the sample for "水" finds the card whose front is "水" and
      nothing else. */
  lemma WaterLookup(query: string)
    requires query == "水"
    ensures CatalogHits([SampleLesson], Lowercased(query)) ==
              [SearchResult(17, "水", None, "Water", 1, "Japanese Survival Words")]
  {
    assert Lowercased(query) == ['水'] by {
      assert LowerChar('水') == '水';
      assert Lowercased(query) == ['水'] + Lowercased([]);
    }
    forall k | 0 <= k < |SampleLesson.flashcards|
      ensures Matches(SampleLesson.flashcards[k], ['水']) <==> k == 3
    {
      SampleCardMatchesWater(k);
    }
    OneLessonOneHit(SampleLesson, ['水'], 3);
  }
}
