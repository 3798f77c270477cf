/**
 * Orderings on sequences of integers (port numbers), shared by the Go
 * report and the Rust min-heap drain.
 */
module Ordering {

  /** Every element is at most every later element. */
  predicate NonDecreasing(s: seq<int>) {
    forall i, j | 0 <= i < j < |s| :: s[i] <= s[j]
  }

  /** Every element is below every later element (so no duplicates). */
  predicate StrictlyIncreasing(s: seq<int>) {
    forall i, j | 0 <= i < j < |s| :: s[i] < s[j]
  }

  /** `m` is an occurrence of the least element of `ms`. */
  predicate IsMinOf(m: int, ms: multiset<int>) {
    m in ms && forall q | q in ms :: m <= q
  }

  /** Every non-empty finite set of integers has a least element. */
  lemma {:induction false} SetHasMin(s: set<int>)
    requires s != {}
    ensures exists m :: m in s && forall q | q in s :: m <= q
    decreases |s|
  {
    assert (forall y :: y !in s) ==> s == {};
    var x :| x in s;
    if s != {x} {
      SetHasMin(s - {x});
      var m :| m in s - {x} && forall q | q in s - {x} :: m <= q;
      var least := if x < m then x else m;
      forall q | q in s ensures least <= q {
        if q != x { assert q in s - {x}; }
      }
    } else {
      assert x in s && forall q | q in s :: x <= q;
    }
  }

  /** Every non-empty multiset of integers has a least element. */
  lemma MultisetHasMin(ms: multiset<int>)
    requires ms != multiset{}
    ensures exists m :: IsMinOf(m, ms)
  {
    var elems := set x | x in ms;
    assert (forall y :: y !in ms) ==> ms == multiset{};
    var x :| x in ms;
    assert x in elems;
    SetHasMin(elems);
    var m :| m in elems && forall q | q in elems :: m <= q;
    forall q | q in ms ensures m <= q {
      assert q in elems;
    }
    assert IsMinOf(m, ms);
  }

  /** No element occurs twice in the sequence. */
  predicate Distinct(s: seq<int>) {
    forall i, j | 0 <= i < j < |s| :: s[i] != s[j]
  }

  /** In a sequence without duplicates every element occurs exactly once. */
  lemma {:induction false} DistinctOccursOnce(s: seq<int>)
    requires Distinct(s)
    ensures multiset(s) == multiset(set x | x in s)
  {
    if s != [] {
      var rest := s[1..];
      assert s == [s[0]] + rest;
      assert Distinct(rest) by {
        forall i, j | 0 <= i < j < |rest| ensures rest[i] != rest[j] {
          assert rest[i] == s[i + 1] && rest[j] == s[j + 1];
        }
      }
      DistinctOccursOnce(rest);
      assert s[0] !in rest by {
        forall k | 0 <= k < |rest| ensures rest[k] != s[0] {
          assert rest[k] == s[k + 1];
        }
      }
      var elems := set x | x in s;
      var restElems := set x | x in rest;
      assert elems == {s[0]} + restElems;
      assert s[0] !in restElems;
      calc {
        multiset(s);
        multiset([s[0]]) + multiset(rest);
        multiset{s[0]} + multiset(restElems);
        multiset({s[0]} + restElems);
      }
    }
  }

  /** A strictly increasing sequence has no duplicates. */
  lemma StrictlyIncreasingIsDistinct(s: seq<int>)
    requires StrictlyIncreasing(s)
    ensures Distinct(s) && NonDecreasing(s)
  {
  }

  /** The head of a non-decreasing sequence is its least element. */
  lemma HeadIsLeast(a: seq<int>)
    requires NonDecreasing(a) && a != []
    ensures IsMinOf(a[0], multiset(a))
  {
    forall q | q in multiset(a) ensures a[0] <= q {
      var k :| 0 <= k < |a| && a[k] == q;
    }
  }

  /** Dropping the head keeps a sequence non-decreasing. */
  lemma TailNonDecreasing(a: seq<int>)
    requires NonDecreasing(a) && a != []
    ensures NonDecreasing(a[1..])
  {
    var t := a[1..];
    forall i, j | 0 <= i < j < |t| ensures t[i] <= t[j] {
      assert t[i] == a[i + 1] && t[j] == a[j + 1];
    }
  }

  /**
   * Sorting is unique: two non-decreasing sequences holding the same
   * multiset of elements are the same sequence.
   */
  lemma {:induction false} SortedEqual(a: seq<int>, b: seq<int>)
    requires NonDecreasing(a) && NonDecreasing(b)
    requires multiset(a) == multiset(b)
    ensures a == b
    decreases |a|
  {
    if a == [] {
      assert |b| == |multiset(b)| == 0;
    } else {
      assert b != [] by {
        assert |b| == |multiset(b)| == |multiset(a)| == |a|;
      }
      assert a[0] == b[0] by {
        HeadIsLeast(a);
        HeadIsLeast(b);
      }
      var ta, tb := a[1..], b[1..];
      assert a == [a[0]] + ta && b == [b[0]] + tb;
      assert multiset(ta) == multiset(tb) by {
        assert multiset(ta) == multiset(a) - multiset{a[0]};
        assert multiset(tb) == multiset(b) - multiset{b[0]};
      }
      TailNonDecreasing(a);
      TailNonDecreasing(b);
      SortedEqual(ta, tb);
    }
  }
}
