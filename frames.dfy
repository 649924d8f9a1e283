/** The slice of pandas behaviour the matchup rule relies on: a data frame is a
    sequence of rows, `frame[mask]` keeps the rows whose mask entry is true in
    their original order, `len(frame[mask])` counts them, and
    `series.unique()` lists the distinct values in order of first occurrence. */
module Frames {

  /** Number of elements of `s` that satisfy `keep` (an independent count). */
  function CountOf<T>(s: seq<T>, keep: T -> bool): (n: nat)
    ensures n <= |s|
    ensures n > 0 <==> exists x :: x in s && keep(x)
  {
    if s == [] then 0
    else (if keep(s[0]) then 1 else 0) + CountOf(s[1..], keep)
  }

  /** `r` can be obtained from `s` by deleting elements, without reordering. */
  ghost predicate SubsequenceOf<T>(r: seq<T>, s: seq<T>)
    decreases |s|
  {
    if r == [] then true
    else if s == [] then false
    else (r[0] == s[0] && SubsequenceOf(r[1..], s[1..])) || SubsequenceOf(r, s[1..])
  }

  /** `r` is what a boolean mask `keep` selects from `s`: an order-preserving
      subsequence of `s`, every element of which satisfies `keep`, that is as
      long as the number of elements of `s` satisfying `keep` (so no qualifying
      row is dropped). FilterIsUnique shows this pins `r` down exactly. */
  ghost predicate IsFilterOf<T>(r: seq<T>, s: seq<T>, keep: T -> bool) {
    && SubsequenceOf(r, s)
    && (forall x :: x in r ==> keep(x))
    && |r| == CountOf(s, keep)
  }

  /** `frame[mask]`: the rows of `s` that satisfy `keep`, in their original order. */
  function Where<T>(s: seq<T>, keep: T -> bool): (r: seq<T>)
    ensures IsFilterOf(r, s, keep)
    ensures forall x :: x in r ==> x in s && keep(x)
    ensures forall x :: x in s && keep(x) ==> x in r
  {
    if s == [] then []
    else if keep(s[0]) then [s[0]] + Where(s[1..], keep)
    else Where(s[1..], keep)
  }

  /** A subsequence all of whose elements satisfy `keep` is no longer than the
      number of elements of `s` that do. */
  lemma {:induction false} SubsequenceCountBound<T>(r: seq<T>, s: seq<T>, keep: T -> bool)
    requires SubsequenceOf(r, s)
    requires forall x :: x in r ==> keep(x)
    ensures |r| <= CountOf(s, keep)
    decreases |s|
  {
    if r != [] {
      assert s != [];
      if r[0] == s[0] && SubsequenceOf(r[1..], s[1..]) {
        assert forall x :: x in r[1..] ==> x in r;
        SubsequenceCountBound(r[1..], s[1..], keep);
      } else {
        SubsequenceCountBound(r, s[1..], keep);
      }
    }
  }

  /** CountOf unfolded at the first element. */
  lemma CountOfFirst<T>(s: seq<T>, keep: T -> bool)
    requires s != []
    ensures CountOf(s, keep) == (if keep(s[0]) then 1 else 0) + CountOf(s[1..], keep)
  {
  }

  /** The filter is determined by its characterisation: whatever satisfies
      IsFilterOf(r, s, keep) is exactly Where(s, keep). */
  lemma {:induction false} FilterIsUnique<T>(r: seq<T>, s: seq<T>, keep: T -> bool)
    requires IsFilterOf(r, s, keep)
    ensures r == Where(s, keep)
    decreases |s|
  {
    if s == [] {
      assert r == [];
    } else if r == [] {
      assert |Where(s, keep)| == 0;
    } else if r[0] == s[0] && SubsequenceOf(r[1..], s[1..]) {
      FilterOfTail(r, s, keep);
      FilterIsUnique(r[1..], s[1..], keep);
      assert r == [r[0]] + r[1..];
    } else {
      SubsequenceCountBound(r, s[1..], keep);
      CountOfFirst(s, keep);
      FilterIsUnique(r, s[1..], keep);
    }
  }

  /** When a filter's first element is the frame's first element, the rest of
      it is the filter of the rest of the frame. */
  lemma FilterOfTail<T>(r: seq<T>, s: seq<T>, keep: T -> bool)
    requires IsFilterOf(r, s, keep)
    requires r != [] && s != [] && r[0] == s[0] && SubsequenceOf(r[1..], s[1..])
    ensures IsFilterOf(r[1..], s[1..], keep)
  {
    assert forall x :: x in r[1..] ==> x in r;
    CountOfFirst(s, keep);
  }

  /** Applying the same mask twice is the same as applying it once. */
  lemma {:induction false} WhereIdempotent<T>(s: seq<T>, keep: T -> bool)
    ensures Where(Where(s, keep), keep) == Where(s, keep)
    decreases |s|
  {
    if s != [] {
      WhereIdempotent(s[1..], keep);
      if keep(s[0]) {
        var w := Where(s, keep);
        assert w[0] == s[0] && w[1..] == Where(s[1..], keep);
      }
    }
  }

  /** Two masks applied one after the other commute. */
  lemma {:induction false} WhereCommutes<T>(s: seq<T>, p: T -> bool, q: T -> bool)
    ensures Where(Where(s, p), q) == Where(Where(s, q), p)
    decreases |s|
  {
    if s != [] {
      WhereCommutes(s[1..], p, q);
      var wp, wq := Where(s, p), Where(s, q);
      if p(s[0]) {
        assert wp[0] == s[0] && wp[1..] == Where(s[1..], p);
      }
      if q(s[0]) {
        assert wq[0] == s[0] && wq[1..] == Where(s[1..], q);
      }
    }
  }

  /** Two masks applied one after the other select what their conjunction
      `both` selects. */
  lemma {:induction false} WhereBoth<T>(s: seq<T>, p: T -> bool, q: T -> bool, both: T -> bool)
    requires forall x :: both(x) <==> p(x) && q(x)
    ensures Where(Where(s, p), q) == Where(s, both)
    decreases |s|
  {
    if s != [] {
      WhereBoth(s[1..], p, q, both);
      var wp := Where(s, p);
      if p(s[0]) {
        assert wp[0] == s[0] && wp[1..] == Where(s[1..], p);
      }
    }
  }

  /** The rows a mask keeps and the rows it drops together make up the frame. */
  lemma {:induction false} CountComplement<T>(s: seq<T>, keep: T -> bool)
    ensures CountOf(s, keep) + CountOf(s, x => !keep(x)) == |s|
    decreases |s|
  {
    if s != [] {
      CountComplement(s[1..], keep);
    }
  }

  /** No two positions of `s` hold the same value. */
  predicate Distinct<T(==)>(s: seq<T>) {
    forall i, j :: 0 <= i < j < |s| ==> s[i] != s[j]
  }

  /** Position of the first occurrence of `x` in `s`. */
  function FirstIndex<T(==)>(s: seq<T>, x: T): (i: nat)
    requires x in s
    ensures i < |s| && s[i] == x && x !in s[..i]
  {
    if s[0] == x then 0
    else
      assert x in s[1..];
      var j := FirstIndex(s[1..], x);
      assert s[..j + 1] == [s[0]] + s[1..][..j];
      j + 1
  }

  /** `series.unique()`: the distinct values of `s` in order of first occurrence. */
  function Unique<T(==)>(s: seq<T>): (r: seq<T>)
    ensures Distinct(r)
    ensures forall x :: x in r ==> x in s
    ensures forall x :: x in s ==> x in r
  {
    if s == [] then []
    else
      var u := Unique(s[..|s| - 1]);
      var x := s[|s| - 1];
      assert s == s[..|s| - 1] + [x];
      if x in u then u else u + [x]
  }

  /** Unique lists the values in the order in which they first occur in `s`. */
  lemma {:induction false} UniqueFirstOccurrenceOrder<T>(s: seq<T>)
    ensures forall i, j :: 0 <= i < j < |Unique(s)| ==>
      FirstIndex(s, Unique(s)[i]) < FirstIndex(s, Unique(s)[j])
    decreases |s|
  {
    if s != [] {
      var front := s[..|s| - 1];
      var x := s[|s| - 1];
      UniqueFirstOccurrenceOrder(front);
      var u := Unique(front);
      assert s == front + [x];
      forall y | y in front
        ensures FirstIndex(s, y) == FirstIndex(front, y)
      {
        var k := FirstIndex(front, y);
        assert s[..k] == front[..k];
      }
      if x !in u {
        assert x !in front;
        assert s[..|s| - 1] == front;
        assert FirstIndex(s, x) == |s| - 1;
      }
    }
  }
}
