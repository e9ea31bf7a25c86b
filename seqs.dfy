/**
 * Sequence operations that stand for the stores' list queries: filtering in storage
 * order (a `WHERE` clause, a Java stream `filter`) and reversal (the newest-first order
 * of a store whose rows are appended oldest-first).
 */
module Seqs {

  import opened Failures

  /** The elements of `xs` that satisfy `keep`, in their original order. */
  function Filter<T>(xs: seq<T>, keep: T -> bool): (r: seq<T>)
    ensures |r| <= |xs|
    ensures forall i :: 0 <= i < |r| ==> r[i] in xs && keep(r[i])
    ensures forall i :: 0 <= i < |xs| && keep(xs[i]) ==> xs[i] in r
  {
    if |xs| == 0 then []
    else
      assert xs == [xs[0]] + xs[1..];
      (if keep(xs[0]) then [xs[0]] else []) + Filter(xs[1..], keep)
  }

  /** Filtering an extended sequence filters the old part and then the new element. */
  lemma FilterAppend<T>(xs: seq<T>, x: T, keep: T -> bool)
    ensures Filter(xs + [x], keep) == Filter(xs, keep) + (if keep(x) then [x] else [])
  {
    FilterConcat(xs, [x], keep);
    assert [x][1..] == [];
  }

  /** Filtering a concatenation concatenates the filtered parts. */
  lemma {:induction false} FilterConcat<T>(xs: seq<T>, ys: seq<T>, keep: T -> bool)
    ensures Filter(xs + ys, keep) == Filter(xs, keep) + Filter(ys, keep)
  {
    if |xs| == 0 {
      assert xs + ys == ys;
    } else {
      assert (xs + ys)[1..] == xs[1..] + ys;
      FilterConcat(xs[1..], ys, keep);
    }
  }

  /** A filter that keeps every element returns the sequence unchanged. */
  lemma {:induction false} FilterAll<T>(xs: seq<T>, keep: T -> bool)
    requires forall i :: 0 <= i < |xs| ==> keep(xs[i])
    ensures Filter(xs, keep) == xs
  {
    if |xs| > 0 {
      forall i | 0 <= i < |xs[1..]| ensures keep(xs[1..][i]) {
        assert xs[1..][i] == xs[i + 1];
      }
      FilterAll(xs[1..], keep);
    }
  }

  /** Filters whose predicates agree on every element of `xs` give the same result. */
  lemma {:induction false} FilterExt<T>(xs: seq<T>, f: T -> bool, g: T -> bool)
    requires forall i :: 0 <= i < |xs| ==> f(xs[i]) == g(xs[i])
    ensures Filter(xs, f) == Filter(xs, g)
  {
    if |xs| > 0 {
      forall i | 0 <= i < |xs[1..]| ensures f(xs[1..][i]) == g(xs[1..][i]) {
        assert xs[1..][i] == xs[i + 1];
      }
      FilterExt(xs[1..], f, g);
    }
  }

  /** A filter that keeps no element returns the empty sequence. */
  lemma {:induction false} FilterNone<T>(xs: seq<T>, keep: T -> bool)
    requires forall i :: 0 <= i < |xs| ==> !keep(xs[i])
    ensures Filter(xs, keep) == []
  {
    if |xs| > 0 {
      forall i | 0 <= i < |xs[1..]| ensures !keep(xs[1..][i]) {
        assert xs[1..][i] == xs[i + 1];
      }
      FilterNone(xs[1..], keep);
    }
  }

  /** Filtering twice with the same predicate is filtering once. */
  lemma FilterIdempotent<T>(xs: seq<T>, keep: T -> bool)
    ensures Filter(Filter(xs, keep), keep) == Filter(xs, keep)
  {
    FilterAll(Filter(xs, keep), keep);
  }

  /** Filtering first by a weaker predicate changes nothing about a later, stronger
      filter (removing rows the query would not return anyway). */
  lemma {:induction false} FilterSubsumed<T>(xs: seq<T>, keep: T -> bool, q: T -> bool)
    requires forall i :: 0 <= i < |xs| && q(xs[i]) ==> keep(xs[i])
    ensures Filter(Filter(xs, keep), q) == Filter(xs, q)
  {
    if |xs| > 0 {
      forall i | 0 <= i < |xs[1..]| && q(xs[1..][i]) ensures keep(xs[1..][i]) {
        assert xs[1..][i] == xs[i + 1];
      }
      FilterSubsumed(xs[1..], keep, q);
      var head: seq<T> := if keep(xs[0]) then [xs[0]] else [];
      assert Filter(xs, keep) == head + Filter(xs[1..], keep);
      FilterConcat(head, Filter(xs[1..], keep), q);
      assert Filter(head, q) == (if q(xs[0]) then [xs[0]] else []) by {
        if keep(xs[0]) {
          assert head[1..] == [];
        }
      }
    }
  }

  /** When no two positions both satisfy `keep`, the filter has at most one element. */
  lemma {:induction false} FilterAtMostOne<T>(xs: seq<T>, keep: T -> bool)
    requires forall i, j :: 0 <= i < j < |xs| && keep(xs[i]) ==> !keep(xs[j])
    ensures |Filter(xs, keep)| <= 1
  {
    if |xs| > 0 {
      if keep(xs[0]) {
        forall j | 0 <= j < |xs[1..]| ensures !keep(xs[1..][j]) {
          assert xs[1..][j] == xs[j + 1];
        }
        FilterNone(xs[1..], keep);
      } else {
        forall i, j | 0 <= i < j < |xs[1..]| && keep(xs[1..][i]) ensures !keep(xs[1..][j]) {
          assert xs[1..][i] == xs[i + 1] && xs[1..][j] == xs[j + 1];
        }
        FilterAtMostOne(xs[1..], keep);
      }
    }
  }

  /** Two positions that both satisfy `keep` give a filter of at least two elements. */
  lemma {:induction false} FilterTwo<T>(xs: seq<T>, keep: T -> bool, i: nat, j: nat)
    requires i < j < |xs| && keep(xs[i]) && keep(xs[j])
    ensures |Filter(xs, keep)| >= 2
  {
    assert xs[1..][j - 1] == xs[j];
    if i == 0 {
      assert xs[j] in Filter(xs[1..], keep);
    } else {
      assert xs[1..][i - 1] == xs[i];
      FilterTwo(xs[1..], keep, i - 1, j - 1);
    }
  }

  /** `xs` read back to front. */
  function Reverse<T>(xs: seq<T>): (r: seq<T>)
    ensures |r| == |xs|
    ensures forall i :: 0 <= i < |xs| ==> r[i] == xs[|xs| - 1 - i]
  {
    if |xs| == 0 then [] else Reverse(xs[1..]) + [xs[0]]
  }

  /** Reversal only reorders: it keeps every element with its multiplicity. */
  lemma {:induction false} ReversePermutes<T>(xs: seq<T>)
    ensures multiset(Reverse(xs)) == multiset(xs)
  {
    if |xs| > 0 {
      assert xs == [xs[0]] + xs[1..];
      ReversePermutes(xs[1..]);
    }
  }

  /** Reversal commutes with filtering. */
  lemma {:induction false} ReverseFilter<T>(xs: seq<T>, keep: T -> bool)
    ensures Reverse(Filter(xs, keep)) == Filter(Reverse(xs), keep)
  {
    if |xs| > 0 {
      var head: seq<T> := if keep(xs[0]) then [xs[0]] else [];
      assert Filter(xs, keep) == head + Filter(xs[1..], keep);
      ReverseConcat(head, Filter(xs[1..], keep));
      ReverseFilter(xs[1..], keep);
      FilterConcat(Reverse(xs[1..]), [xs[0]], keep);
      assert Filter([xs[0]], keep) == head by {
        assert [xs[0]][1..] == [];
      }
      assert Reverse(head) == head;
    }
  }

  /** Reversing a concatenation concatenates the reversed parts in swapped order. */
  lemma ReverseConcat<T>(xs: seq<T>, ys: seq<T>)
    ensures Reverse(xs + ys) == Reverse(ys) + Reverse(xs)
  {
  }

  /** The first element satisfying `p`, as a repository's `findFirst`/`findAny` over a
      table in which at most one row can match. */
  function First<T>(xs: seq<T>, p: T -> bool): (r: Option<T>)
    ensures r.Some? ==> r.value in xs && p(r.value)
    ensures r.None? <==> forall i :: 0 <= i < |xs| ==> !p(xs[i])
  {
    if |xs| == 0 then None
    else if p(xs[0]) then Some(xs[0])
    else
      var r := First(xs[1..], p);
      assert forall i :: 1 <= i < |xs| ==> xs[i] == xs[1..][i - 1];
      r
  }

  /** When exactly one element can satisfy `p`, `First` finds that one. */
  lemma FirstUnique<T>(xs: seq<T>, p: T -> bool, k: nat)
    requires k < |xs| && p(xs[k])
    requires forall i :: 0 <= i < |xs| && i != k ==> !p(xs[i])
    ensures First(xs, p) == Some(xs[k])
  {
    if k > 0 {
      assert xs[1..][k - 1] == xs[k];
      FirstUnique(xs[1..], p, k - 1);
    }
  }

  /** `xs` with every element satisfying `hit` replaced by `x` (a save that overwrites
      the row with the same key). */
  function UpdateWhere<T>(xs: seq<T>, hit: T -> bool, x: T): (r: seq<T>)
    ensures |r| == |xs|
    ensures forall i :: 0 <= i < |xs| ==> r[i] == (if hit(xs[i]) then x else xs[i])
  {
    seq(|xs|, i requires 0 <= i < |xs| => if hit(xs[i]) then x else xs[i])
  }

  /** The keys strictly increase along `xs` (rows in insertion order, keyed by a
      generated id or a creation time). */
  ghost predicate IncreasingBy<T>(xs: seq<T>, key: T -> int)
  {
    forall i, j :: 0 <= i < j < |xs| ==> key(xs[i]) < key(xs[j])
  }

  /** Deleting rows keeps the remaining ones in increasing key order. */
  lemma {:induction false} FilterKeepsIncreasing<T>(xs: seq<T>, keep: T -> bool, key: T -> int)
    requires IncreasingBy(xs, key)
    ensures IncreasingBy(Filter(xs, keep), key)
  {
    if |xs| > 0 {
      TailIncreasing(xs, key);
      FilterKeepsIncreasing(xs[1..], keep, key);
      if keep(xs[0]) {
        HeadBelowFiltered(xs, keep, key);
        ConsIncreasing(xs[0], Filter(xs[1..], keep), key);
        assert Filter(xs, keep) == [xs[0]] + Filter(xs[1..], keep);
      } else {
        assert Filter(xs, keep) == Filter(xs[1..], keep);
      }
    }
  }

  lemma TailIncreasing<T>(xs: seq<T>, key: T -> int)
    requires IncreasingBy(xs, key) && |xs| > 0
    ensures IncreasingBy(xs[1..], key)
  {
    forall i, j | 0 <= i < j < |xs[1..]| ensures key(xs[1..][i]) < key(xs[1..][j]) {
      assert xs[1..][i] == xs[i + 1] && xs[1..][j] == xs[j + 1];
    }
  }

  lemma HeadBelowFiltered<T>(xs: seq<T>, keep: T -> bool, key: T -> int)
    requires IncreasingBy(xs, key) && |xs| > 0
    ensures forall j :: 0 <= j < |Filter(xs[1..], keep)| ==> key(xs[0]) < key(Filter(xs[1..], keep)[j])
  {
    var rest := Filter(xs[1..], keep);
    forall j | 0 <= j < |rest| ensures key(xs[0]) < key(rest[j]) {
      var k :| 0 <= k < |xs[1..]| && xs[1..][k] == rest[j];
      assert xs[1..][k] == xs[k + 1];
    }
  }

  lemma ConsIncreasing<T>(x: T, rest: seq<T>, key: T -> int)
    requires IncreasingBy(rest, key)
    requires forall j :: 0 <= j < |rest| ==> key(x) < key(rest[j])
    ensures IncreasingBy([x] + rest, key)
  {
    var r := [x] + rest;
    forall i, j | 0 <= i < j < |r| ensures key(r[i]) < key(r[j]) {
      assert r[j] == rest[j - 1];
      if i > 0 {
        assert r[i] == rest[i - 1];
      }
    }
  }

  /** A sequence increasing by `key` read back to front decreases by `key`. */
  lemma ReverseDecreasing<T>(xs: seq<T>, key: T -> int)
    ensures IncreasingBy(xs, key) ==>
      forall i, j :: 0 <= i < j < |xs| ==> key(Reverse(xs)[i]) > key(Reverse(xs)[j])
  {
    var r := Reverse(xs);
    if IncreasingBy(xs, key) {
      forall i, j | 0 <= i < j < |xs| ensures key(r[i]) > key(r[j]) {
        assert r[i] == xs[|xs| - 1 - i] && r[j] == xs[|xs| - 1 - j];
      }
    }
  }
}
