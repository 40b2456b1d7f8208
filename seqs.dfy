/** Order-preserving filtering of sequences (PHP `array_values(array_filter(...))`,
    JavaScript `Array.prototype.filter`). */
module Seqs {

  function Filter<T>(keep: T -> bool, s: seq<T>): (r: seq<T>)
    ensures |r| <= |s|
    ensures forall i :: 0 <= i < |r| ==> r[i] in s && keep(r[i])
    ensures forall i :: 0 <= i < |s| && keep(s[i]) ==> s[i] in r
  {
    if s == [] then [] else (if keep(s[0]) then [s[0]] else []) + Filter(keep, s[1..])
  }

  /** Filtering distributes over concatenation: survivors keep their relative order. */
  lemma {:induction false} FilterAppend<T>(keep: T -> bool, a: seq<T>, b: seq<T>)
    ensures Filter(keep, a + b) == Filter(keep, a) + Filter(keep, b)
  {
    if a == [] {
      assert a + b == b;
    } else {
      assert (a + b)[0] == a[0];
      assert (a + b)[1..] == a[1..] + b;
      FilterAppend(keep, a[1..], b);
    }
  }

  /** A sequence whose elements all pass is returned unchanged. */
  lemma {:induction false} FilterKeepsAll<T>(keep: T -> bool, s: seq<T>)
    requires forall i :: 0 <= i < |s| ==> keep(s[i])
    ensures Filter(keep, s) == s
  {
    if s != [] {
      assert keep(s[0]);
      FilterKeepsAll(keep, s[1..]);
    }
  }

  /** Filtering twice is filtering once. */
  lemma FilterIdempotent<T>(keep: T -> bool, s: seq<T>)
    ensures Filter(keep, Filter(keep, s)) == Filter(keep, s)
  {
    var r := Filter(keep, s);
    FilterKeepsAll(keep, r);
  }

  /** Each surviving value occurs as often as in the input; the others vanish. */
  lemma {:induction false} FilterMultiplicity<T>(keep: T -> bool, s: seq<T>, x: T)
    ensures multiset(Filter(keep, s))[x] == if keep(x) then multiset(s)[x] else 0
  {
    if s != [] {
      var head := if keep(s[0]) then [s[0]] else [];
      FilterMultiplicity(keep, s[1..], x);
      assert Filter(keep, s) == head + Filter(keep, s[1..]);
      assert multiset(Filter(keep, s)) == multiset(head) + multiset(Filter(keep, s[1..]));
      assert s == [s[0]] + s[1..];
      assert multiset(s) == multiset{s[0]} + multiset(s[1..]);
    }
  }
}
