/** The text handling of the memory-verse game (resources/js/components/study/MemoryVerse.tsx):
    splitting a verse into words, the level-1 blanks, the level-2 first-letter mask and
    the normalisation applied before answers are compared. */
module VerseText {
  import opened JsText
  import opened Seqs

  // ---------------------------------------------------------------------------------
  // Splitting and joining
  // ---------------------------------------------------------------------------------

  /** `s.split(sep)` for a one-character separator: the pieces between separators,
      empty pieces included, so there is always one more piece than separators. */
  function SplitOn(s: string, sep: char): (words: seq<string>)
    ensures |words| >= 1
    ensures forall i :: 0 <= i < |words| ==> sep !in words[i]
  {
    if s == [] then [""]
    else if s[0] == sep then [""] + SplitOn(s[1..], sep)
    else
      var rest := SplitOn(s[1..], sep);
      [[s[0]] + rest[0]] + rest[1..]
  }

  /** `words.join(sep)`. */
  function Join(words: seq<string>, sep: char): string {
    if words == [] then ""
    else if |words| == 1 then words[0]
    else words[0] + [sep] + Join(words[1..], sep)
  }

  /** Joining the pieces again gives back the text. */
  lemma {:induction false} JoinSplitOn(s: string, sep: char)
    ensures Join(SplitOn(s, sep), sep) == s
  {
    if s != [] {
      JoinSplitOn(s[1..], sep);
      var rest := SplitOn(s[1..], sep);
      if s[0] == sep {
        assert ([""] + rest)[1..] == rest;
      } else {
        var words := SplitOn(s, sep);
        assert words[1..] == rest[1..];
        if |rest| > 1 {
          assert rest[1..] != [] && Join(rest, sep) == rest[0] + [sep] + Join(rest[1..], sep);
        }
      }
    }
  }

  /** A prefix without separators becomes the start of the first piece. */
  lemma {:induction false} SplitOnPrefix(w: string, t: string, sep: char)
    requires sep !in w
    ensures SplitOn(w + t, sep) == [w + SplitOn(t, sep)[0]] + SplitOn(t, sep)[1..]
  {
    if w != [] {
      assert (w + t)[0] == w[0];
      assert (w + t)[1..] == w[1..] + t;
      SplitOnPrefix(w[1..], t, sep);
      assert [w[0]] + (w[1..] + SplitOn(t, sep)[0]) == w + SplitOn(t, sep)[0];
    } else {
      assert w + t == t;
      assert w + SplitOn(t, sep)[0] == SplitOn(t, sep)[0];
      assert SplitOn(t, sep) == [SplitOn(t, sep)[0]] + SplitOn(t, sep)[1..];
    }
  }

  /** Splitting a join of separator-free pieces gives back the pieces. */
  lemma {:induction false} SplitOnJoin(words: seq<string>, sep: char)
    requires |words| >= 1
    requires forall i :: 0 <= i < |words| ==> sep !in words[i]
    ensures SplitOn(Join(words, sep), sep) == words
  {
    if |words| == 1 {
      SplitOnPrefix(words[0], "", sep);
      assert words[0] + "" == words[0];
    } else {
      var tail := Join(words[1..], sep);
      SplitOnJoin(words[1..], sep);
      assert words[0] + [sep] + tail == words[0] + ([sep] + tail);
      SplitOnPrefix(words[0], [sep] + tail, sep);
      assert ([sep] + tail)[1..] == tail;
      assert SplitOn([sep] + tail, sep) == [""] + words[1..];
      assert words[0] + "" == words[0];
    }
  }

  // ---------------------------------------------------------------------------------
  // Whitespace runs
  // ---------------------------------------------------------------------------------

  /** No space directly follows another. */
  predicate NoDoubleSpace(s: string) {
    forall i :: 0 <= i < |s| - 1 && s[i] == ' ' ==> s[i + 1] != ' '
  }

  /** `replace(/\s+/g, ' ')`: every maximal run of whitespace becomes one space. */
  function Collapse(s: string): (r: string)
    ensures s == [] <==> r == []
    ensures s != [] ==> r[0] == if IsJsSpace(s[0]) then ' ' else s[0]
    ensures forall i {:trigger IsJsSpace(r[i])} :: 0 <= i < |r| && IsJsSpace(r[i]) ==> r[i] == ' '
    ensures forall i {:trigger IsJsSpace(r[i])} :: 0 <= i < |r| && !IsJsSpace(r[i]) ==> r[i] in s
    ensures NoDoubleSpace(r)
    decreases |s|
  {
    if s == [] then []
    else if IsJsSpace(s[0]) then [' '] + Collapse(TrimStart(s[1..]))
    else [s[0]] + Collapse(s[1..])
  }

  /** `split(/\s+/)`: the words between whitespace runs; leading or trailing whitespace
      gives an empty first or last word. */
  function SplitRuns(s: string): (words: seq<string>)
    ensures |words| >= 1
    decreases |s|
  {
    if s == [] then [""]
    else if IsJsSpace(s[0]) then [""] + SplitRuns(TrimStart(s[1..]))
    else
      var rest := SplitRuns(s[1..]);
      [[s[0]] + rest[0]] + rest[1..]
  }

  /** Splitting on whitespace runs is splitting the collapsed text on single spaces. */
  lemma {:induction false} SplitRunsIsSplitOfCollapse(s: string)
    ensures SplitRuns(s) == SplitOn(Collapse(s), ' ')
    decreases |s|
  {
    if s != [] {
      if IsJsSpace(s[0]) {
        var t := TrimStart(s[1..]);
        SplitRunsIsSplitOfCollapse(t);
        assert ([' '] + Collapse(t))[1..] == Collapse(t);
      } else {
        SplitRunsIsSplitOfCollapse(s[1..]);
        assert ([s[0]] + Collapse(s[1..]))[1..] == Collapse(s[1..]);
      }
    }
  }

  /** The words of a verse contain no whitespace, and joined by single spaces they
      give the verse with each whitespace run collapsed to one space. */
  lemma VerseWords(s: string)
    ensures forall i :: 0 <= i < |SplitRuns(s)| ==> forall k :: 0 <= k < |SplitRuns(s)[i]| ==> !IsJsSpace(SplitRuns(s)[i][k])
    ensures Join(SplitRuns(s), ' ') == Collapse(s)
  {
    SplitRunsIsSplitOfCollapse(s);
    JoinSplitOn(Collapse(s), ' ');
    var r := Collapse(s);
    var words := SplitRuns(s);
    forall i, k | 0 <= i < |words| && 0 <= k < |words[i]| ensures !IsJsSpace(words[i][k]) {
      WordCharIn(r, i, k);
    }
  }

  /** A character of a piece occurs in the text and is not the separator. */
  lemma {:induction false} WordCharIn(r: string, i: nat, k: nat)
    requires i < |SplitOn(r, ' ')| && k < |SplitOn(r, ' ')[i]|
    requires forall j {:trigger IsJsSpace(r[j])} :: 0 <= j < |r| && IsJsSpace(r[j]) ==> r[j] == ' '
    ensures !IsJsSpace(SplitOn(r, ' ')[i][k])
  {
    var w := SplitOn(r, ' ')[i];
    assert w[k] != ' ';
    JoinSplitOn(r, ' ');
    MemberOfJoin(SplitOn(r, ' '), i, ' ');
    assert w[k] in w;
  }

  /** Each piece's characters occur in the joined text. */
  lemma {:induction false} MemberOfJoin(words: seq<string>, i: nat, sep: char)
    requires i < |words|
    ensures forall c :: c in words[i] ==> c in Join(words, sep)
  {
    if |words| > 1 {
      if i > 0 {
        MemberOfJoin(words[1..], i - 1, sep);
      }
    }
  }

  // ---------------------------------------------------------------------------------
  // normalizeText
  // ---------------------------------------------------------------------------------

  predicate IsAsciiUpper(c: char) { 'A' <= c <= 'Z' }

  predicate IsAsciiLetter(c: char) { 'a' <= c <= 'z' || IsAsciiUpper(c) }

  /** The regular-expression class `\w`: ASCII letters, digits and the underscore. */
  predicate IsWordChar(c: char) { IsAsciiLetter(c) || '0' <= c <= '9' || c == '_' }

  /** `toLowerCase` on one character, for the ASCII letters. */
  function LowerChar(c: char): char {
    if IsAsciiUpper(c) then (c as int + 32) as char else c
  }

  function Lower(s: string): (r: string)
    ensures |r| == |s| && forall i :: 0 <= i < |s| ==> r[i] == LowerChar(s[i])
  {
    seq(|s|, i requires 0 <= i < |s| => LowerChar(s[i]))
  }

  /** What `replace(/[^\w\s]/g, '')` keeps. */
  predicate IsKept(c: char) { IsWordChar(c) || IsJsSpace(c) }

  /** The characters a normalised text is made of. */
  predicate IsNormalChar(c: char) { 'a' <= c <= 'z' || '0' <= c <= '9' || c == '_' || c == ' ' }

  predicate AllNormal(s: string) {
    forall i :: 0 <= i < |s| ==> IsNormalChar(s[i])
  }

  /** A normalised text: lower-case word characters and single spaces, with no space
      at either end. */
  predicate Normalized(t: string) {
    && AllNormal(t)
    && NoDoubleSpace(t)
    && (t != [] ==> t[0] != ' ' && t[|t| - 1] != ' ')
  }

  /** `normalizeText`: lower-case, drop everything but word characters and whitespace,
      collapse whitespace runs, trim. The result holds only lower-case word characters
      and single spaces, with none at either end. */
  function Normalize(text: string): (r: string)
    ensures Normalized(r)
  {
    var kept := Filter(IsKept, Lower(text));
    KeptChars(text);
    CollapseNormal(kept);
    TrimShape(Collapse(kept));
    Trim(Collapse(kept))
  }

  /** After lower-casing and filtering, only normal characters and whitespace remain. */
  lemma KeptChars(text: string)
    ensures var kept := Filter(IsKept, Lower(text));
      forall i :: 0 <= i < |kept| ==> IsNormalChar(kept[i]) || IsJsSpace(kept[i])
  {
    var lower := Lower(text);
    var kept := Filter(IsKept, lower);
    forall i | 0 <= i < |kept| ensures IsNormalChar(kept[i]) || IsJsSpace(kept[i]) {
      var c := kept[i];
      assert c in lower && IsKept(c);
      var j :| 0 <= j < |lower| && lower[j] == c;
      assert c == LowerChar(text[j]);
      assert !IsAsciiUpper(c);
    }
  }

  /** Collapsing such a text leaves only normal characters. */
  lemma CollapseNormal(s: string)
    requires forall i :: 0 <= i < |s| ==> IsNormalChar(s[i]) || IsJsSpace(s[i])
    ensures AllNormal(Collapse(s))
  {
    var r := Collapse(s);
    forall i | 0 <= i < |r| ensures IsNormalChar(r[i]) {
      if !IsJsSpace(r[i]) {
        assert r[i] in s;
      }
    }
  }

  /** A slice keeps the characters and the single spacing of its text. */
  lemma SliceShape(s: string, k: nat, m: nat)
    requires k <= m <= |s|
    requires AllNormal(s) && NoDoubleSpace(s)
    ensures AllNormal(s[k..m]) && NoDoubleSpace(s[k..m])
  {
    var t := s[k..m];
    forall i | 0 <= i < |t| - 1 && t[i] == ' ' ensures t[i + 1] != ' ' {
      assert s[k + i] == ' ' && t[i + 1] == s[k + i + 1];
    }
  }

  /** Trimming a single-spaced text of normal characters normalises it. */
  lemma TrimShape(collapsed: string)
    requires AllNormal(collapsed) && NoDoubleSpace(collapsed)
    ensures Normalized(Trim(collapsed))
  {
    var front := TrimStart(collapsed);
    var k := |collapsed| - |front|;
    assert front == collapsed[k..|collapsed|];
    SliceShape(collapsed, k, |collapsed|);
    var t := TrimEnd(front);
    assert t == front[0..|t|];
    SliceShape(front, 0, |t|);
    assert IsJsSpace(' ');
  }

  /** A normal character is whitespace exactly when it is the space. */
  lemma NormalSpace(c: char)
    requires IsNormalChar(c)
    ensures IsJsSpace(c) <==> c == ' '
  {
  }

  /** Dropping the first character keeps the single spacing. */
  lemma TailNoDoubleSpace(s: string)
    requires s != [] && NoDoubleSpace(s)
    ensures NoDoubleSpace(s[1..])
  {
    var t := s[1..];
    forall i | 0 <= i < |t| - 1 && t[i] == ' ' ensures t[i + 1] != ' ' {
      assert s[i + 1] == ' ';
    }
  }

  /** A space followed by a non-space character collapses to itself. */
  lemma CollapseAtSpace(s: string)
    requires |s| >= 2 && s[0] == ' ' && IsNormalChar(s[1]) && s[1] != ' '
    ensures Collapse(s) == [' '] + Collapse(s[1..])
  {
    NormalSpace(s[1]);
    assert TrimStart(s[1..]) == s[1..];
  }

  /** A text of normal characters that is single-spaced and does not end in a space is
      unchanged by collapsing. */
  lemma {:induction false} CollapseSingleSpaced(s: string)
    requires AllNormal(s) && NoDoubleSpace(s)
    requires s != [] ==> s[|s| - 1] != ' '
    ensures Collapse(s) == s
  {
    if s != [] {
      var tail := s[1..];
      assert AllNormal(tail);
      TailNoDoubleSpace(s);
      CollapseSingleSpaced(tail);
      if s[0] == ' ' {
        CollapseAtSpace(s);
      } else {
        NormalSpace(s[0]);
      }
      assert s == [s[0]] + tail;
    }
  }

  /** A normalised text is its own normal form. */
  lemma NormalizeFixed(t: string)
    requires Normalized(t)
    ensures Normalize(t) == t
  {
    assert Lower(t) == t;
    FilterKeepsAll(IsKept, t);
    CollapseSingleSpaced(t);
    TrimUnpadded(t);
  }

  /** Normalising twice is normalising once. */
  lemma NormalizeIdempotent(text: string)
    ensures Normalize(Normalize(text)) == Normalize(text)
  {
    NormalizeFixed(Normalize(text));
  }

  /** In a normalised text that is not empty, every space-separated word is non-empty. */
  lemma NormalizedWordsNonEmpty(t: string)
    requires Normalized(t) && t != []
    ensures forall i :: 0 <= i < |SplitOn(t, ' ')| ==> SplitOn(t, ' ')[i] != []
  {
    LaterWordsNonEmpty(t);
  }

  /** Without double spaces or a trailing space, every piece after the first is non-empty. */
  lemma {:induction false} LaterWordsNonEmpty(t: string)
    requires NoDoubleSpace(t) && (t != [] ==> t[|t| - 1] != ' ')
    ensures forall i :: 0 <= i < |SplitOn(t, ' ')| && (i > 0 || (t != [] && t[0] != ' ')) ==> SplitOn(t, ' ')[i] != []
  {
    if t != [] {
      TailNoDoubleSpace(t);
      LaterWordsNonEmpty(t[1..]);
    }
  }

  // ---------------------------------------------------------------------------------
  // Level 1: blanks
  // ---------------------------------------------------------------------------------

  /** Every third word is a blank. */
  predicate IsBlankPosition(i: int) { (i + 1) % 3 == 0 }

  /** One word on the level-1 screen: a button to reveal it, or the word itself. */
  datatype Cell = Blank(word: string, index: nat) | Visible(word: string, index: nat)

  /** `level1Display`: word i shows as a blank exactly when it is a blank position that
      has not been revealed. */
  function Level1Display(words: seq<string>, revealed: set<int>): (cells: seq<Cell>)
    ensures |cells| == |words|
    ensures forall i :: 0 <= i < |words| ==> cells[i].word == words[i] && cells[i].index == i
    ensures forall i :: 0 <= i < |words| ==> (cells[i].Blank? <==> IsBlankPosition(i) && i !in revealed)
  {
    seq(|words|, i requires 0 <= i < |words| =>
      if IsBlankPosition(i) && i !in revealed then Blank(words[i], i) else Visible(words[i], i))
  }

  /** The blank positions of a verse of n words. */
  function BlankIndices(n: nat): (s: set<int>)
    ensures forall i :: i in s <==> 0 <= i < n && IsBlankPosition(i)
  {
    set i | 0 <= i < n && IsBlankPosition(i)
  }

  /** `totalBlanks`: a verse of n words has n / 3 blanks. */
  lemma {:induction false} BlankCount(n: nat)
    ensures |BlankIndices(n)| == n / 3
  {
    if n > 0 {
      BlankCount(n - 1);
      if IsBlankPosition(n - 1) {
        assert BlankIndices(n) == BlankIndices(n - 1) + {n - 1};
      } else {
        assert BlankIndices(n) == BlankIndices(n - 1);
      }
    }
  }

  /** Once every blank position is revealed the level-1 screen shows no blank; while one
      is not, that word is a blank. */
  lemma AllRevealedNoBlanks(words: seq<string>, revealed: set<int>)
    ensures (forall i :: 0 <= i < |Level1Display(words, revealed)| ==> Level1Display(words, revealed)[i].Visible?)
      <==> BlankIndices(|words|) <= revealed
  {
    var cells := Level1Display(words, revealed);
    if !(BlankIndices(|words|) <= revealed) {
      var i :| i in BlankIndices(|words|) && i !in revealed;
      assert cells[i].Blank?;
    }
  }

  /** A verse of fewer than three words has no blanks at all. */
  lemma ShortVerseHasNoBlanks(n: nat)
    requires n < 3
    ensures BlankIndices(n) == {}
  {
    assert !IsBlankPosition(0) && !IsBlankPosition(1);
  }

  // ---------------------------------------------------------------------------------
  // Level 2: first letters
  // ---------------------------------------------------------------------------------

  /** The level-2 mask of one word: the first character, then the rest with each ASCII
      letter replaced by '_'. */
  function Mask(word: string): (m: string) {
    if word == [] then [] else [word[0]] + MaskLetters(word[1..])
  }

  /** `replace(/[a-zA-Z]/g, '_')`. */
  function MaskLetters(s: string): (m: string) {
    seq(|s|, k requires 0 <= k < |s| => if IsAsciiLetter(s[k]) then '_' else s[k])
  }

  /** What a masked character tells about the original one: the same character, or '_'
      standing for a letter. */
  predicate Shows(shown: char, original: char) {
    shown == original || (shown == '_' && IsAsciiLetter(original))
  }

  predicate ShowsAll(shown: string, original: string) {
    |shown| == |original| && forall k :: 0 <= k < |shown| ==> Shows(shown[k], original[k])
  }

  /** The mask keeps the length and the first character, shows every other character
      except that letters after the first become '_', and reveals no letter after the
      first. */
  lemma MaskShape(word: string)
    ensures ShowsAll(Mask(word), word)
    ensures word != [] ==> Mask(word)[0] == word[0]
    ensures forall k :: 1 <= k < |word| ==> !IsAsciiLetter(Mask(word)[k])
    ensures forall k :: 1 <= k < |word| && !IsAsciiLetter(word[k]) ==> Mask(word)[k] == word[k]
  {
  }

  /** Masking a masked word changes nothing. */
  lemma MaskIdempotent(word: string)
    ensures Mask(Mask(word)) == Mask(word)
  {
  }

  function MaskAll(words: seq<string>): (masked: seq<string>)
    ensures |masked| == |words| && forall i :: 0 <= i < |words| ==> masked[i] == Mask(words[i])
  {
    seq(|words|, i requires 0 <= i < |words| => Mask(words[i]))
  }

  /** `level2Display`: the masked words joined by single spaces. It shows the words
      joined by single spaces character by character, with letters after each word's
      first as '_'. */
  function Level2Display(words: seq<string>): (line: string)
    ensures ShowsAll(line, Join(words, ' '))
  {
    MaskAllShows(words);
    JoinShows(MaskAll(words), words);
    Join(MaskAll(words), ' ')
  }

  /** Each masked word shows its original. */
  lemma MaskAllShows(words: seq<string>)
    ensures forall i :: 0 <= i < |words| ==> ShowsAll(MaskAll(words)[i], words[i])
  {
    forall i | 0 <= i < |words| ensures ShowsAll(MaskAll(words)[i], words[i]) {
      MaskShape(words[i]);
    }
  }

  /** Joining pieces that show their originals character by character shows the joined
      originals character by character. */
  lemma {:induction false} JoinShows(shown: seq<string>, original: seq<string>)
    requires |shown| == |original|
    requires forall i :: 0 <= i < |shown| ==> ShowsAll(shown[i], original[i])
    ensures ShowsAll(Join(shown, ' '), Join(original, ' '))
  {
    if |shown| > 1 {
      JoinShows(shown[1..], original[1..]);
      var a := shown[0] + [' '] + Join(shown[1..], ' ');
      var b := original[0] + [' '] + Join(original[1..], ' ');
      forall k | 0 <= k < |a| ensures Shows(a[k], b[k]) {
        if k < |shown[0]| {
          assert a[k] == shown[0][k] && b[k] == original[0][k];
        } else if k > |shown[0]| {
          assert a[k] == Join(shown[1..], ' ')[k - |shown[0]| - 1];
          assert b[k] == Join(original[1..], ' ')[k - |shown[0]| - 1];
        }
      }
    }
  }

  /** The level-2 line has the length of the verse with whitespace runs collapsed, and
      position by position shows its character or a '_' in place of a letter. */
  lemma Level2ShowsVerse(verse: string)
    ensures ShowsAll(Level2Display(SplitRuns(verse)), Collapse(verse))
  {
    VerseWords(verse);
  }
}
