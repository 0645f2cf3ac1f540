/**
  Order-preserving filtering of sequences, the one list primitive the
  dashboard's store and views are built from (JavaScript's `Array.filter`,
  and `filter(...).length` for counting).
 */
module Seqs {

  /** The elements of `s` that satisfy `p`, in their original order. */
  function Filter<T>(s: seq<T>, p: T -> bool): (r: seq<T>)
    ensures |r| <= |s|
    ensures forall i :: 0 <= i < |r| ==> r[i] in s && p(r[i])
    ensures forall i :: 0 <= i < |s| && p(s[i]) ==> s[i] in r
    ensures multiset(r) <= multiset(s)
  {
    if |s| == 0 then []
    else
      assert s == [s[0]] + s[1..];
      if p(s[0]) then [s[0]] + Filter(s[1..], p)
      else Filter(s[1..], p)
  }

  /** How many elements of `s` satisfy `p`. */
  function Count<T>(s: seq<T>, p: T -> bool): (n: nat)
    ensures n <= |s|
  {
    |Filter(s, p)|
  }

  /** `Array.every`: every element satisfies `p`. */
  predicate Every<T>(s: seq<T>, p: T -> bool) {
    forall i :: 0 <= i < |s| ==> p(s[i])
  }

  /** Filtering distributes over concatenation: this is what "the
      survivors keep their original order" means. */
  lemma {:induction false} FilterConcat<T>(a: seq<T>, b: seq<T>, p: T -> bool)
    ensures Filter(a + b, p) == Filter(a, p) + Filter(b, p)
  {
    if |a| == 0 {
      assert a + b == b;
    } else {
      assert (a + b)[1..] == a[1..] + b;
      FilterConcat(a[1..], b, p);
    }
  }

  /** Filtering with a predicate every element satisfies changes nothing. */
  lemma {:induction false} FilterKeepsAll<T>(s: seq<T>, p: T -> bool)
    requires Every(s, p)
    ensures Filter(s, p) == s
  {
    if |s| > 0 {
      FilterKeepsAll(s[1..], p);
    }
  }

  /** Filtering with a predicate no element satisfies leaves nothing. */
  lemma {:induction false} FilterDropsAll<T>(s: seq<T>, p: T -> bool)
    requires forall i :: 0 <= i < |s| ==> !p(s[i])
    ensures Filter(s, p) == []
  {
    if |s| > 0 {
      FilterDropsAll(s[1..], p);
    }
  }

  /** A predicate and its negation split a sequence: every element goes to
      exactly one side, so the two counts add up to the length. */
  lemma {:induction false} FilterSplit<T>(s: seq<T>, p: T -> bool, q: T -> bool)
    requires forall i :: 0 <= i < |s| ==> q(s[i]) == !p(s[i])
    ensures |Filter(s, p)| + |Filter(s, q)| == |s|
    ensures multiset(Filter(s, p)) + multiset(Filter(s, q)) == multiset(s)
  {
    if |s| > 0 {
      var x, rest := s[0], s[1..];
      FilterSplit(rest, p, q);
      assert multiset(s) == multiset{x} + multiset(rest) by {
        assert s == [x] + rest;
      }
      if p(x) {
        assert Filter(s, p) == [x] + Filter(rest, p);
        assert Filter(s, q) == Filter(rest, q);
      } else {
        assert Filter(s, p) == Filter(rest, p);
        assert Filter(s, q) == [x] + Filter(rest, q);
      }
    }
  }

  /** Filtering twice with the same predicate is filtering once. */
  lemma {:induction false} FilterIdempotent<T>(s: seq<T>, p: T -> bool)
    ensures Filter(Filter(s, p), p) == Filter(s, p)
  {
    FilterKeepsAll(Filter(s, p), p);
  }

  /** Two predicates that agree on every element of `s` filter it alike. */
  lemma {:induction false} FilterCongruent<T>(s: seq<T>, p: T -> bool, q: T -> bool)
    requires forall i :: 0 <= i < |s| ==> p(s[i]) == q(s[i])
    ensures Filter(s, p) == Filter(s, q)
  {
    if |s| > 0 {
      FilterCongruent(s[1..], p, q);
    }
  }

  /** Removing every copy of `v` drops exactly its occurrences and keeps
      every other element with its multiplicity. */
  lemma {:induction false} FilterOutValue<T>(s: seq<T>, v: T, p: T -> bool)
    requires forall x :: p(x) == (x != v)
    ensures multiset(Filter(s, p)) == multiset(s)[v := 0]
  {
    if |s| > 0 {
      var x, rest := s[0], s[1..];
      FilterOutValue(rest, v, p);
      assert multiset(s) == multiset{x} + multiset(rest) by {
        assert s == [x] + rest;
      }
      if x == v {
        assert Filter(s, p) == Filter(rest, p);
      } else {
        assert Filter(s, p) == [x] + Filter(rest, p);
      }
    }
  }

  /** `s.map(x => hit(x) ? v : x)`: every element `hit` selects becomes `v`,
      every other element stays where it was. */
  function Replace<T>(s: seq<T>, hit: T -> bool, v: T): (r: seq<T>)
    ensures |r| == |s|
    ensures forall i :: 0 <= i < |s| && hit(s[i]) ==> r[i] == v
    ensures forall i :: 0 <= i < |s| && !hit(s[i]) ==> r[i] == s[i]
  {
    if |s| == 0 then []
    else [if hit(s[0]) then v else s[0]] + Replace(s[1..], hit, v)
  }

  /** Replacing when nothing is selected changes nothing. */
  lemma ReplaceNothing<T>(s: seq<T>, hit: T -> bool, v: T)
    requires forall i :: 0 <= i < |s| ==> !hit(s[i])
    ensures Replace(s, hit, v) == s
  {
    var r := Replace(s, hit, v);
    assert forall i :: 0 <= i < |s| ==> r[i] == s[i];
  }

  /** Replacing twice with the same value is replacing once. */
  lemma ReplaceIdempotent<T>(s: seq<T>, hit: T -> bool, v: T)
    ensures Replace(Replace(s, hit, v), hit, v) == Replace(s, hit, v)
  {
    var once := Replace(s, hit, v);
    var twice := Replace(once, hit, v);
    assert forall i :: 0 <= i < |s| ==> twice[i] == once[i];
  }

  /** Filtering by a stronger predicate after a weaker one is filtering by
      the stronger one alone. */
  lemma {:induction false} FilterNarrow<T>(s: seq<T>, p: T -> bool, q: T -> bool)
    requires forall i :: 0 <= i < |s| && q(s[i]) ==> p(s[i])
    ensures Filter(Filter(s, p), q) == Filter(s, q)
  {
    if |s| > 0 {
      FilterNarrow(s[1..], p, q);
    }
  }

  /** Counting a non-empty sequence: the head, then the rest. */
  lemma CountCons<T>(s: seq<T>, p: T -> bool)
    requires |s| > 0
    ensures Count(s, p) == (if p(s[0]) then 1 else 0) + Count(s[1..], p)
  {
  }

  /** Counting when every element, or no element, satisfies `p`. */
  lemma CountExtremes<T>(s: seq<T>, p: T -> bool)
    ensures Every(s, p) ==> Count(s, p) == |s|
    ensures (forall i :: 0 <= i < |s| ==> !p(s[i])) ==> Count(s, p) == 0
  {
    if Every(s, p) {
      FilterKeepsAll(s, p);
    }
    if forall i :: 0 <= i < |s| ==> !p(s[i]) {
      FilterDropsAll(s, p);
    }
  }

  /** `s.map(f)`: `f` applied to every element, in order. */
  function Map<T, U>(s: seq<T>, f: T -> U): (r: seq<U>)
    ensures |r| == |s|
    ensures forall i :: 0 <= i < |s| ==> r[i] == f(s[i])
  {
    if |s| == 0 then [] else [f(s[0])] + Map(s[1..], f)
  }

  /** Counting the elements whose key is `v` gives the multiplicity of `v`
      among the keys: an independent reading of `filter(...).length`. */
  lemma {:induction false} CountIsMultiplicity<T, U>(s: seq<T>, key: T -> U, v: U, p: T -> bool)
    requires forall i :: 0 <= i < |s| ==> p(s[i]) == (key(s[i]) == v)
    ensures Count(s, p) == multiset(Map(s, key))[v]
  {
    if |s| > 0 {
      CountIsMultiplicity(s[1..], key, v, p);
      CountCons(s, p);
      assert Map(s, key) == [key(s[0])] + Map(s[1..], key);
    }
  }

  /** Mapping distributes over concatenation. */
  lemma MapConcat<T, U>(a: seq<T>, b: seq<T>, f: T -> U)
    ensures Map(a + b, f) == Map(a, f) + Map(b, f)
  {
    var lhs, rhs := Map(a + b, f), Map(a, f) + Map(b, f);
    assert forall i :: 0 <= i < |lhs| ==> lhs[i] == rhs[i];
  }
}
