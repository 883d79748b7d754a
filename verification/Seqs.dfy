/** Filtering of sequences, the meaning of the standard library's `remove_if`. */
module Seqs {

  function Filter<T>(s: seq<T>, p: T -> bool): seq<T> {
    if s == [] then [] else (if p(s[0]) then [s[0]] else []) + Filter(s[1..], p)
  }

  predicate Distinct<T(==)>(s: seq<T>) {
    forall i, j :: 0 <= i < j < |s| ==> s[i] != s[j]
  }

  ghost function Elements<T>(s: seq<T>): set<T> {
    set x | x in s
  }

  lemma {:induction false} AppendLast<T>(a: seq<T>, b: seq<T>)
    requires b != []
    ensures a + b == (a + b[..|b| - 1]) + [b[|b| - 1]]
  {
  }

  lemma {:induction false} Assoc<T>(a: seq<T>, b: seq<T>, c: seq<T>)
    ensures a + (b + c) == (a + b) + c
  {
  }

  lemma {:induction false} FilterAppend<T>(a: seq<T>, b: seq<T>, p: T -> bool)
    ensures Filter(a + b, p) == Filter(a, p) + Filter(b, p)
  {
    if a == [] {
      assert a + b == b;
    } else {
      var head := if p(a[0]) then [a[0]] else [];
      assert (a + b)[0] == a[0] && (a + b)[1..] == a[1..] + b;
      FilterAppend(a[1..], b, p);
      assert Filter(a + b, p) == head + (Filter(a[1..], p) + Filter(b, p));
      assert Filter(a, p) == head + Filter(a[1..], p);
    }
  }

  lemma {:induction false} FilterMember<T>(s: seq<T>, p: T -> bool, x: T)
    ensures x in Filter(s, p) <==> x in s && p(x)
  {
    if s != [] {
      FilterMember(s[1..], p, x);
      assert s == [s[0]] + s[1..];
    }
  }

  lemma {:induction false} FilterAll<T>(s: seq<T>, p: T -> bool)
    requires forall x :: x in s ==> p(x)
    ensures Filter(s, p) == s
  {
    if s != [] {
      FilterAll(s[1..], p);
      assert p(s[0]);
      assert s == [s[0]] + s[1..];
    }
  }

  lemma {:induction false} FilterNone<T>(s: seq<T>, p: T -> bool)
    requires forall x :: x in s ==> !p(x)
    ensures Filter(s, p) == []
  {
    if s != [] {
      FilterNone(s[1..], p);
      assert !p(s[0]);
    }
  }

  lemma {:induction false} SameFilter<T>(s: seq<T>, p: T -> bool, q: T -> bool)
    requires forall x :: x in s ==> p(x) == q(x)
    ensures Filter(s, p) == Filter(s, q)
  {
    if s != [] {
      assert p(s[0]) == q(s[0]);
      SameFilter(s[1..], p, q);
    }
  }

  /** Keeping and dropping by one predicate splits the elements in two. */
  lemma {:induction false} FilterSplits<T>(s: seq<T>, p: T -> bool, q: T -> bool)
    requires forall x :: x in s ==> q(x) == !p(x)
    ensures multiset(s) == multiset(Filter(s, p)) + multiset(Filter(s, q))
  {
    if s != [] {
      FilterSplits(s[1..], p, q);
      assert s == [s[0]] + s[1..];
    }
  }

  /** Filtering by a weaker predicate first makes no difference. */
  lemma {:induction false} FilterTwice<T>(s: seq<T>, p: T -> bool, q: T -> bool)
    requires forall x :: x in s && q(x) ==> p(x)
    ensures Filter(Filter(s, p), q) == Filter(s, q)
  {
    if s != [] {
      FilterTwice(s[1..], p, q);
      FilterAppend(if p(s[0]) then [s[0]] else [], Filter(s[1..], p), q);
      assert q(s[0]) ==> p(s[0]);
    }
  }

  lemma {:induction false} FilterDistinct<T>(s: seq<T>, p: T -> bool)
    requires Distinct(s)
    ensures Distinct(Filter(s, p))
  {
    if s != [] {
      FilterDistinct(s[1..], p);
      FilterMember(s[1..], p, s[0]);
    }
  }

  /** `at` selects from `s` exactly the positions whose elements satisfy `p`, in
      order, and `r` is what they hold. */
  ghost predicate Selects<T>(s: seq<T>, p: T -> bool, at: seq<nat>, r: seq<T>) {
    && |at| == |r|
    && (forall i :: 0 <= i < |at| ==> at[i] < |s| && r[i] == s[at[i]] && p(s[at[i]]))
    && (forall i, j :: 0 <= i < j < |at| ==> at[i] < at[j])
    && (forall k :: 0 <= k < |s| && p(s[k]) ==> k in at)
  }

  /** Filtering keeps every satisfying position, in order, and nothing else. */
  lemma {:induction false} FilterSelects<T>(s: seq<T>, p: T -> bool) returns (at: seq<nat>)
    ensures Selects(s, p, at, Filter(s, p))
  {
    if s == [] {
      at := [];
    } else {
      var n := |s| - 1;
      at := FilterSelects(s[..n], p);
      assert s == s[..n] + [s[n]];
      FilterAppend(s[..n], [s[n]], p);
      var before := at;
      if p(s[n]) {
        at := at + [n];
        assert at[|before|] == n;
        forall k | 0 <= k < |s| && p(s[k]) ensures k in at {
          if k < n { assert s[..n][k] == s[k] && k in before; }
        }
      } else {
        forall k | 0 <= k < |s| && p(s[k]) ensures k in at {
          assert s[..n][k] == s[k];
        }
      }
    }
  }
}
