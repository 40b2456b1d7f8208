/** The memory-verse game (resources/js/components/study/MemoryVerse.tsx): the word
    similarity that grades typed answers, and the game's state through the three
    levels. */
module MemoryVerse {
  import opened Wrappers
  import opened VerseText
  import Levenshtein

  // ---------------------------------------------------------------------------------
  // calculateSimilarity
  // ---------------------------------------------------------------------------------

  function Max(x: nat, y: nat): (m: nat)
    ensures m >= x && m >= y && (m == x || m == y)
  {
    if x >= y then x else y
  }

  /** Word i of the answer counts when the verse has a non-empty word i that is the same
      or within edit distance 2. */
  predicate WordMatches(aWords: seq<string>, bWords: seq<string>, i: nat)
    requires i < |aWords|
  {
    i < |bWords| && bWords[i] != [] && (aWords[i] == bWords[i] || Levenshtein.Distance(aWords[i], bWords[i]) <= 2)
  }

  /** The number of matching words among the first n words of the answer. */
  function Matches(aWords: seq<string>, bWords: seq<string>, n: nat): (m: nat)
    requires n <= |aWords|
    ensures m <= n
  {
    if n == 0 then 0
    else Matches(aWords, bWords, n - 1) + if WordMatches(aWords, bWords, n - 1) then 1 else 0
  }

  /** The answer's matching words against the larger of the two word counts. */
  function Similarity(a: string, b: string): real {
    var aWords := SplitOn(a, ' ');
    var bWords := SplitOn(b, ' ');
    Matches(aWords, bWords, |aWords|) as real / Max(|aWords|, |bWords|) as real
  }

  /** `calculateSimilarity`: one pass over the answer's words, computing the edit
      distance only for words that differ. */
  method CalculateSimilarity(a: string, b: string) returns (similarity: real)
    ensures similarity == Similarity(a, b)
  {
    var aWords := SplitOn(a, ' ');
    var bWords := SplitOn(b, ' ');
    var matches := 0;
    var i := 0;
    while i < |aWords|
      invariant 0 <= i <= |aWords|
      invariant matches == Matches(aWords, bWords, i)
    {
      if i < |bWords| && bWords[i] != [] {
        if aWords[i] == bWords[i] {
          matches := matches + 1;
        } else {
          var d := Levenshtein.LevenshteinDistance(aWords[i], bWords[i]);
          if d <= 2 {
            matches := matches + 1;
          }
        }
      }
      i := i + 1;
    }
    similarity := matches as real / Max(|aWords|, |bWords|) as real;
  }

  /** The grade of an answer: the similarity of the normalised answer to the normalised
      verse. */
  function Grade(answer: string, verse: string): real {
    Similarity(Normalize(answer), Normalize(verse))
  }

  /** The comparison both answer buttons make, against a threshold of `percent` per
      cent. */
  method Passes(answer: string, verse: string, percent: nat) returns (passed: bool)
    ensures passed <==> Grade(answer, verse) >= percent as real / 100.0
  {
    var similarity := CalculateSimilarity(Normalize(answer), Normalize(verse));
    passed := similarity >= percent as real / 100.0;
  }

  /** The similarity lies between 0 and 1. */
  lemma SimilarityBounds(a: string, b: string)
    ensures 0.0 <= Similarity(a, b) <= 1.0
  {
    var aWords := SplitOn(a, ' ');
    var bWords := SplitOn(b, ' ');
    var m := Matches(aWords, bWords, |aWords|);
    var n := Max(|aWords|, |bWords|);
    assert m as real <= n as real;
    DivAtMostOne(m as real, n as real);
  }

  lemma DivAtMostOne(m: real, n: real)
    requires 0.0 <= m <= n && n > 0.0
    ensures 0.0 <= m / n <= 1.0
  {
  }

  /** `similarity >= t` for a threshold t = p / 10, as integers: ten times the matches
      against p times the larger word count. */
  lemma {:induction false} Threshold(a: string, b: string, p: nat)
    ensures var aWords := SplitOn(a, ' ');
      var bWords := SplitOn(b, ' ');
      Similarity(a, b) >= p as real / 10.0 <==>
        10 * Matches(aWords, bWords, |aWords|) >= p * Max(|aWords|, |bWords|)
  {
    var aWords := SplitOn(a, ' ');
    var bWords := SplitOn(b, ' ');
    var m := Matches(aWords, bWords, |aWords|);
    var n := Max(|aWords|, |bWords|);
    RatioThreshold(m, n, p);
  }

  lemma RatioThreshold(m: nat, n: nat, p: nat)
    requires n > 0
    ensures m as real / n as real >= p as real / 10.0 <==> 10 * m >= p * n
  {
    var x := m as real / n as real;
    assert x * n as real == m as real;
    if 10 * m >= p * n {
      assert 10.0 * m as real >= p as real * n as real;
    }
  }

  /** Level 2 passes at 70%: at least 7 matches for every 10 words of the longer text. */
  lemma Level2Threshold(a: string, b: string)
    ensures var aWords := SplitOn(a, ' ');
      var bWords := SplitOn(b, ' ');
      Similarity(a, b) >= 0.7 <==> 10 * Matches(aWords, bWords, |aWords|) >= 7 * Max(|aWords|, |bWords|)
  {
    Threshold(a, b, 7);
  }

  /** Level 3 passes at 80%: at least 8 matches for every 10 words of the longer text. */
  lemma Level3Threshold(a: string, b: string)
    ensures var aWords := SplitOn(a, ' ');
      var bWords := SplitOn(b, ' ');
      Similarity(a, b) >= 0.8 <==> 10 * Matches(aWords, bWords, |aWords|) >= 8 * Max(|aWords|, |bWords|)
  {
    Threshold(a, b, 8);
  }

  /** A text whose words are all non-empty matches itself word for word. */
  lemma {:induction false} SelfMatches(words: seq<string>, n: nat)
    requires n <= |words|
    requires forall i :: 0 <= i < |words| ==> words[i] != []
    ensures Matches(words, words, n) == n
  {
    if n > 0 {
      SelfMatches(words, n - 1);
    }
  }

  /** A normalised text that is not empty matches itself fully. */
  lemma NormalizedSelfScoresOne(t: string)
    requires Normalized(t) && t != []
    ensures Similarity(t, t) == 1.0
  {
    NormalizedWordsNonEmpty(t);
    var words := SplitOn(t, ' ');
    SelfMatches(words, |words|);
    var n := |words| as real;
    assert Max(|words|, |words|) == |words| > 0;
    assert Similarity(t, t) == n / n;
  }

  /** Typing the verse exactly scores 1, unless the verse normalises to nothing. */
  lemma ExactRecallScoresOne(verse: string)
    requires Normalize(verse) != []
    ensures Grade(verse, verse) == 1.0
  {
    NormalizedSelfScoresOne(Normalize(verse));
  }

  /** Against an empty text every answer scores 0. */
  lemma ScoreAgainstEmpty(answer: string)
    ensures Similarity(answer, []) == 0.0
  {
    var aWords := SplitOn(answer, ' ');
    assert SplitOn([], ' ') == [""];
    NoMatchAgainstBlank(aWords, |aWords|);
  }

  /** A verse that normalises to nothing (only punctuation, say) scores 0 against every
      answer, so levels 2 and 3 can never be passed for it. */
  lemma EmptyVerseScoresZero(answer: string, verse: string)
    requires Normalize(verse) == []
    ensures Grade(answer, verse) == 0.0
  {
    ScoreAgainstEmpty(Normalize(answer));
  }

  lemma {:induction false} NoMatchAgainstBlank(aWords: seq<string>, n: nat)
    requires n <= |aWords|
    ensures Matches(aWords, [""], n) == 0
  {
    if n > 0 {
      NoMatchAgainstBlank(aWords, n - 1);
    }
  }

  /** Two words of at most two characters always match when the verse's word is not
      empty: the edit distance cannot exceed 2. */
  lemma ShortWordsAlwaysMatch(aWords: seq<string>, bWords: seq<string>, i: nat)
    requires i < |aWords| && i < |bWords| && bWords[i] != []
    requires |aWords[i]| <= 2 && |bWords[i]| <= 2
    ensures WordMatches(aWords, bWords, i)
  {
    Levenshtein.DistanceProperties(aWords[i], bWords[i]);
  }

  // ---------------------------------------------------------------------------------
  // The game
  // ---------------------------------------------------------------------------------

  /** `GameState`. */
  datatype GameScreen = Display | Playing | Success

  /** What `saveProgress` stores and `getProgress` reads back. */
  datatype Progress = Progress(level: int, completed: bool)

  /** A progress the game itself can produce: a level from 1 to 3, completed only at 3. */
  predicate Saveable(p: Progress) {
    1 <= p.level <= 3 && (p.completed ==> p.level == 3)
  }

  /** The progress `handleLevelComplete` saves: the next level, not completed, below
      level 3; level 3 completed from level 3 on. */
  function Advance(level: int): (next: Progress)
    ensures level < 3 ==> next == Progress(level + 1, false)
    ensures level >= 3 ==> next == Progress(3, true)
    ensures 0 <= level <= 3 ==> Saveable(next)
  {
    if level < 3 then Progress(level + 1, false) else Progress(3, true)
  }

  /** From any level the verse is mastered after at most three completions, and a
      mastered verse stays at level 3. */
  lemma AdvanceReachesMastered(level: int)
    requires 1 <= level <= 3
    ensures Advance(Advance(Advance(level).level).level) == Progress(3, true)
    ensures Advance(3) == Progress(3, true)
  {
  }

  /** A blank click reports completion exactly when the clicked blank was the last one
      still hidden, provided every click is on a hidden blank. */
  lemma BlankClickCompletesExactly(n: nat, revealed: set<int>, index: int)
    requires revealed <= BlankIndices(n) && index in BlankIndices(n) && index !in revealed
    ensures |revealed| + 1 >= |BlankIndices(n)| <==> revealed + {index} == BlankIndices(n)
  {
    var after := revealed + {index};
    assert |after| == |revealed| + 1;
    if |after| >= |BlankIndices(n)| {
      SubsetOfSameSize(after, BlankIndices(n));
    }
  }

  /** A subset at least as large as its superset is the superset. */
  lemma SubsetOfSameSize(a: set<int>, b: set<int>)
    requires a <= b && |a| >= |b|
    ensures a == b
  {
    assert |b - a| == |b| - |a|;
  }

  /** The component's state, for one verse of one week. `stored` is not kept here:
      progress goes to and comes from the caller as `Progress` values. */
  class Game {
    const verse: string
    const weekId: nat
    var screen: GameScreen
    var level: int
    var completed: bool
    var revealed: set<int>
    var input: string
    var showHint: bool

    /** The levels the game moves through, and completion only at the last one. */
    ghost predicate Valid()
      reads this
    {
      Saveable(Progress(level, completed))
    }

    /** `words`: the verse split at whitespace runs. */
    function Words(): seq<string> {
      SplitRuns(verse)
    }

    constructor (verse: string, weekId: nat)
      ensures this.verse == verse && this.weekId == weekId
      ensures screen == Display && level == 1 && !completed && revealed == {} && input == [] && !showHint
      ensures Valid()
    {
      this.verse := verse;
      this.weekId := weekId;
      screen := Display;
      level := 1;
      completed := false;
      revealed := {};
      input := [];
      showHint := false;
    }

    /** The start-up effect: `getProgress` gives the stored progress, or level 1 not
        completed when nothing readable is stored. */
    method LoadProgress(stored: Option<Progress>)
      modifies this
      ensures level == stored.GetOr(Progress(1, false)).level
      ensures completed == stored.GetOr(Progress(1, false)).completed
      ensures screen == old(screen) && revealed == old(revealed) && input == old(input) && showHint == old(showHint)
      ensures stored.None? || Saveable(stored.value) ==> Valid()
    {
      var progress := stored.GetOr(Progress(1, false));
      level := progress.level;
      completed := progress.completed;
    }

    /** The state `handleLevelComplete` leaves, given the state before it. */
    ghost predicate CompletedFrom(level0: int, completed0: bool, screen0: GameScreen, revealed0: set<int>, input0: string)
      reads this
    {
      if level0 < 3 then
        level == level0 + 1 && completed == completed0 && screen == screen0 && revealed == {} && input == []
      else
        level == level0 && completed && screen == Success && revealed == revealed0 && input == input0
    }

    /** `handleLevelComplete`; `saved` is what it writes to storage. */
    method LevelComplete() returns (saved: Progress)
      modifies this
      ensures CompletedFrom(old(level), old(completed), old(screen), old(revealed), old(input))
      ensures showHint == old(showHint)
      ensures saved == Advance(old(level))
      ensures old(Valid()) ==> Valid() && saved == Progress(level, completed)
    {
      if level < 3 {
        level := level + 1;
        saved := Progress(level, false);
        revealed := {};
        input := [];
      } else {
        completed := true;
        saved := Progress(3, true);
        screen := Success;
      }
    }

    /** `startPractice`. */
    method StartPractice()
      modifies this
      ensures screen == Playing && revealed == {} && input == []
      ensures level == old(level) && completed == old(completed) && showHint == old(showHint)
    {
      screen := Playing;
      revealed := {};
      input := [];
    }

    /** `resetProgress`; `saved` is what it writes to storage. */
    method ResetProgress() returns (saved: Progress)
      modifies this
      ensures level == 1 && !completed && revealed == {} && input == [] && screen == Display
      ensures showHint == old(showHint)
      ensures saved == Progress(1, false) && Valid()
    {
      level := 1;
      completed := false;
      revealed := {};
      input := [];
      saved := Progress(1, false);
      screen := Display;
    }

    /** `handleBlankClick`: reveal the word; `completesLevel` says whether the level is
        then complete (the component completes it after a delay), counted from the
        revealed words before the click. */
    method BlankClick(index: int) returns (completesLevel: bool)
      modifies this
      ensures revealed == old(revealed) + {index}
      ensures completesLevel <==> |old(revealed)| + 1 >= |BlankIndices(|Words()|)|
      ensures screen == old(screen) && level == old(level) && completed == old(completed)
      ensures input == old(input) && showHint == old(showHint)
    {
      var totalBlanks := |BlankIndices(|Words()|)|;
      completesLevel := |revealed| + 1 >= totalBlanks;
      revealed := revealed + {index};
    }

    /** Typing into the answer box. */
    method SetInput(text: string)
      modifies this
      ensures input == text
      ensures screen == old(screen) && level == old(level) && completed == old(completed)
      ensures revealed == old(revealed) && showHint == old(showHint)
    {
      input := text;
    }

    /** "Check Answer" (level 2, 70%) and "Submit Final Answer" (level 3, 80%): compare
        the normalised answer with the normalised verse; pass and complete the level,
        or show the hint. `percent` is the threshold of the button. */
    method Submit(percent: nat) returns (passed: bool)
      modifies this
      ensures passed <==> Grade(old(input), verse) >= percent as real / 100.0
      ensures passed ==> CompletedFrom(old(level), old(completed), old(screen), old(revealed), old(input))
      ensures passed ==> showHint == old(showHint)
      ensures !passed ==> showHint && level == old(level) && completed == old(completed)
      ensures !passed ==> screen == old(screen) && revealed == old(revealed) && input == old(input)
      ensures old(Valid()) ==> Valid()
    {
      passed := Passes(input, verse, percent);
      AfterCheck(passed);
    }

    /** The branch after the comparison: a pass completes the level, a failure shows the
        hint. */
    method AfterCheck(passed: bool)
      modifies this
      ensures passed ==> CompletedFrom(old(level), old(completed), old(screen), old(revealed), old(input))
      ensures passed ==> showHint == old(showHint)
      ensures !passed ==> showHint && level == old(level) && completed == old(completed)
      ensures !passed ==> screen == old(screen) && revealed == old(revealed) && input == old(input)
      ensures old(Valid()) ==> Valid()
    {
      if passed {
        var _ := LevelComplete();
      } else {
        showHint := true;
      }
    }

    /** The hint's timer running out. */
    method HideHint()
      modifies this
      ensures !showHint
      ensures screen == old(screen) && level == old(level) && completed == old(completed)
      ensures revealed == old(revealed) && input == old(input)
    {
      showHint := false;
    }

    /** "Back to Verse" and "Done". */
    method BackToDisplay()
      modifies this
      ensures screen == Display
      ensures level == old(level) && completed == old(completed) && revealed == old(revealed)
      ensures input == old(input) && showHint == old(showHint)
    {
      screen := Display;
    }
  }
}
