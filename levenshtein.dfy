/** The edit distance of the memory-verse game (`levenshteinDistance` in
    resources/js/components/study/MemoryVerse.tsx). */
module Levenshtein {

  function Min3(x: nat, y: nat, z: nat): (m: nat)
    ensures m <= x && m <= y && m <= z
    ensures m == x || m == y || m == z
  {
    if x <= y && x <= z then x else if y <= z then y else z
  }

  /** The edit distance between the first `i` characters of `a` and the first `j` of
      `b`: the standard recurrence, with insertion, deletion and substitution each
      costing one. */
  function Lev(a: string, b: string, i: nat, j: nat): nat
    requires i <= |a| && j <= |b|
    decreases i + j
  {
    if i == 0 then j
    else if j == 0 then i
    else Min3(Lev(a, b, i - 1, j) + 1,
              Lev(a, b, i, j - 1) + 1,
              Lev(a, b, i - 1, j - 1) + (if a[i - 1] == b[j - 1] then 0 else 1))
  }

  /** The distance between whole strings. */
  function Distance(a: string, b: string): nat {
    Lev(a, b, |a|, |b|)
  }

  /** Row `j` of the matrix holds the distances of b's first j characters to every
      prefix of a. */
  ghost predicate RowIs(a: string, b: string, matrix: array2<nat>, j: nat)
    requires matrix.Length0 == |b| + 1 && matrix.Length1 == |a| + 1 && j <= |b|
    reads matrix
  {
    forall ii {:trigger matrix[j, ii]} :: 0 <= ii <= |a| ==> matrix[j, ii] == Lev(a, b, ii, j)
  }

  /** `levenshteinDistance`: a (|b|+1) by (|a|+1) matrix whose row 0 and column 0 count
      up from 0, filled row by row from the three neighbours. */
  method LevenshteinDistance(a: string, b: string) returns (d: nat)
    ensures d == Distance(a, b)
  {
    var matrix := new nat[|b| + 1, |a| + 1];
    var i := 0;
    while i <= |a|
      invariant 0 <= i <= |a| + 1
      invariant forall k :: 0 <= k < i ==> matrix[0, k] == k
    {
      matrix[0, i] := i;
      i := i + 1;
    }
    var j := 0;
    while j <= |b|
      invariant 0 <= j <= |b| + 1
      invariant forall k :: 0 <= k <= |a| ==> matrix[0, k] == k
      invariant forall k :: 0 <= k < j ==> matrix[k, 0] == k
    {
      matrix[j, 0] := j;
      j := j + 1;
    }
    j := 1;
    while j <= |b|
      invariant 1 <= j <= |b| + 1
      invariant RowIs(a, b, matrix, j - 1)
      invariant forall jj :: j <= jj <= |b| ==> matrix[jj, 0] == jj
    {
      FillRow(a, b, matrix, j);
      j := j + 1;
    }
    d := matrix[|b|, |a|];
  }

  /** The inner loop of `levenshteinDistance`: row j from row j - 1 and its own left
      neighbours; row j - 1 and column 0 of the later rows stay as they were. */
  method FillRow(a: string, b: string, matrix: array2<nat>, j: nat)
    requires matrix.Length0 == |b| + 1 && matrix.Length1 == |a| + 1 && 1 <= j <= |b|
    requires RowIs(a, b, matrix, j - 1)
    requires matrix[j, 0] == j
    modifies matrix
    ensures RowIs(a, b, matrix, j)
    ensures forall jj :: j < jj <= |b| ==> matrix[jj, 0] == old(matrix[jj, 0])
  {
    var i := 1;
    while i <= |a|
      invariant 1 <= i <= |a| + 1
      invariant RowIs(a, b, matrix, j - 1)
      invariant forall ii {:trigger matrix[j, ii]} :: 0 <= ii < i ==> matrix[j, ii] == Lev(a, b, ii, j)
      invariant forall jj :: j < jj <= |b| ==> matrix[jj, 0] == old(matrix[jj, 0])
    {
      var indicator := if a[i - 1] == b[j - 1] then 0 else 1;
      var left := matrix[j, i - 1];
      var up := matrix[j - 1, i];
      var diagonal := matrix[j - 1, i - 1];
      matrix[j, i] := Min3(left + 1, up + 1, diagonal + indicator);
      i := i + 1;
    }
  }

  /** Against the empty string the distance is the other length. */
  lemma DistanceToEmpty(a: string)
    ensures Distance(a, "") == |a| && Distance("", a) == |a|
  {
  }

  /** The inductive step of LevSymmetric: the recurrence is symmetric once its three
      smaller instances are. */
  lemma SymmetricStep(a: string, b: string, i: nat, j: nat)
    requires 1 <= i <= |a| && 1 <= j <= |b|
    requires Lev(a, b, i - 1, j) == Lev(b, a, j, i - 1)
    requires Lev(a, b, i, j - 1) == Lev(b, a, j - 1, i)
    requires Lev(a, b, i - 1, j - 1) == Lev(b, a, j - 1, i - 1)
    ensures Lev(a, b, i, j) == Lev(b, a, j, i)
  {
  }

  /** A prefix is at distance 0 from itself. */
  lemma {:induction false} LevSame(a: string, i: nat)
    requires i <= |a|
    ensures Lev(a, a, i, i) == 0
  {
    if i > 0 {
      LevSame(a, i - 1);
    }
  }

  /** The distance never exceeds the longer length. */
  lemma {:induction false} LevUpper(a: string, b: string, i: nat, j: nat)
    requires i <= |a| && j <= |b|
    ensures Lev(a, b, i, j) <= if i >= j then i else j
    decreases i + j
  {
    if i > 0 && j > 0 {
      LevUpper(a, b, i - 1, j - 1);
    }
  }

  /** The distance is at least the difference of the lengths. */
  lemma {:induction false} LevLower(a: string, b: string, i: nat, j: nat)
    requires i <= |a| && j <= |b|
    ensures Lev(a, b, i, j) >= if i >= j then i - j else j - i
    decreases i + j
  {
    if i > 0 && j > 0 {
      LevLower(a, b, i - 1, j);
      LevLower(a, b, i, j - 1);
      LevLower(a, b, i - 1, j - 1);
    }
  }

  /** The distance does not depend on the order of its arguments. */
  lemma {:induction false} LevSymmetric(a: string, b: string, i: nat, j: nat)
    requires i <= |a| && j <= |b|
    ensures Lev(a, b, i, j) == Lev(b, a, j, i)
    decreases i + j
  {
    if i > 0 && j > 0 {
      LevSymmetric(a, b, i - 1, j);
      LevSymmetric(a, b, i, j - 1);
      LevSymmetric(a, b, i - 1, j - 1);
      SymmetricStep(a, b, i, j);
    }
  }

  /** Distance 0 means equal prefixes. */
  lemma {:induction false} LevZero(a: string, b: string, i: nat, j: nat)
    requires i <= |a| && j <= |b| && Lev(a, b, i, j) == 0
    ensures i == j && a[..i] == b[..j]
    decreases i + j
  {
    if i > 0 && j > 0 {
      LevZero(a, b, i - 1, j - 1);
      assert a[..i] == a[..i - 1] + [a[i - 1]];
      assert b[..j] == b[..j - 1] + [b[j - 1]];
    }
  }

  /** The distance is 0 exactly between equal strings, at most the longer length, at
      least the difference of the lengths, and symmetric. */
  lemma DistanceProperties(a: string, b: string)
    ensures Distance(a, b) == 0 <==> a == b
    ensures Distance(a, b) <= if |a| >= |b| then |a| else |b|
    ensures Distance(a, b) >= if |a| >= |b| then |a| - |b| else |b| - |a|
    ensures Distance(a, b) == Distance(b, a)
  {
    if Distance(a, b) == 0 {
      LevZero(a, b, |a|, |b|);
      assert a == a[..|a|] && b == b[..|b|];
    }
    if a == b {
      LevSame(a, |a|);
    }
    LevUpper(a, b, |a|, |b|);
    LevLower(a, b, |a|, |b|);
    LevSymmetric(a, b, |a|, |b|);
  }
}
