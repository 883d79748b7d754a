/**
 What "the most recent distinct keys" of a history means, and why a bounded
 move-to-front list keeps exactly a prefix of them.
 */
module Recency {
  import opened Seqs

  /** `s` without the occurrences of `k`. */
  function Without<K(==)>(s: seq<K>, k: K): seq<K> {
    if s == [] then [] else (if s[0] == k then [] else [s[0]]) + Without(s[1..], k)
  }

  /** The distinct keys of a history, the most recently seen one first. */
  function Recent<K(==)>(history: seq<K>): seq<K> {
    if history == [] then []
    else
      var k := history[|history| - 1];
      [k] + Without(Recent(history[..|history| - 1]), k)
  }

  function Take<K>(s: seq<K>, n: nat): seq<K> {
    if |s| <= n then s else s[..n]
  }

  /** Position of the last occurrence of `k`. */
  function LastIndex<K(==)>(history: seq<K>, k: K): (i: nat)
    requires k in history
    ensures i < |history| && history[i] == k
  {
    if history[|history| - 1] == k then |history| - 1
    else
      assert history == history[..|history| - 1] + [history[|history| - 1]];
      LastIndex(history[..|history| - 1], k)
  }

  lemma {:induction false} WithoutMember<K>(s: seq<K>, k: K, x: K)
    ensures x in Without(s, k) <==> x in s && x != k
  {
    if s != [] {
      WithoutMember(s[1..], k, x);
      assert s == [s[0]] + s[1..];
    }
  }

  lemma {:induction false} WithoutAbsent<K>(s: seq<K>, k: K)
    requires k !in s
    ensures Without(s, k) == s
  {
    if s != [] {
      WithoutAbsent(s[1..], k);
      assert s == [s[0]] + s[1..];
    }
  }

  /** In a list without duplicates exactly one position goes. */
  lemma {:induction false} WithoutAt<K>(s: seq<K>, i: nat)
    requires Distinct(s) && i < |s|
    ensures Without(s, s[i]) == s[..i] + s[i + 1..]
  {
    if i == 0 {
      WithoutAbsent(s[1..], s[0]);
    } else {
      WithoutAt(s[1..], i - 1);
      assert s[1..][..i - 1] == s[1..i];
      assert s[1..][i..] == s[i + 1..];
      assert [s[0]] + (s[1..i] + s[i + 1..]) == s[..i] + s[i + 1..];
    }
  }

  lemma {:induction false} WithoutDistinct<K>(s: seq<K>, k: K)
    requires Distinct(s)
    ensures Distinct(Without(s, k))
    ensures |Without(s, k)| == if k in s then |s| - 1 else |s|
  {
    if k in s {
      var i :| 0 <= i < |s| && s[i] == k;
      WithoutAt(s, i);
    } else {
      WithoutAbsent(s, k);
    }
  }

  /** All keys of the list occur in the history, the last used first. */
  ghost predicate OrderedByUse<K>(keys: seq<K>, history: seq<K>) {
    && (forall i :: 0 <= i < |keys| ==> keys[i] in history)
    && (forall i, j :: 0 <= i < j < |keys| ==> LastIndex(history, keys[i]) > LastIndex(history, keys[j]))
  }

  /** `Recent` lists every key of the history once, ordered by last use. Since
      the last positions of distinct keys differ, this determines the list. */
  lemma {:induction false} RecentMeaning<K>(history: seq<K>)
    ensures Distinct(Recent(history))
    ensures forall k :: k in Recent(history) <==> k in history
    ensures OrderedByUse(Recent(history), history)
  {
    if history != [] {
      var n := |history| - 1;
      var k, before := history[n], history[..n];
      assert history == before + [k];
      RecentMeaning(before);
      WithoutDistinct(Recent(before), k);
      forall x ensures x in Recent(history) <==> x in history {
        WithoutMember(Recent(before), k, x);
      }
      WithoutKeepsOrder(Recent(before), k, before);
      UseMovesToFront(Without(Recent(before), k), before, k);
    }
  }

  /** Dropping a key keeps a list ordered by last use ordered. */
  lemma {:induction false} WithoutKeepsOrder<K>(r: seq<K>, k: K, history: seq<K>)
    requires Distinct(r) && OrderedByUse(r, history)
    ensures OrderedByUse(Without(r, k), history) && k !in Without(r, k)
  {
    WithoutMember(r, k, k);
    if k in r {
      var at :| 0 <= at < |r| && r[at] == k;
      WithoutAt(r, at);
      var w := Without(r, k);
      assert forall i :: 0 <= i < |w| ==> w[i] == if i < at then r[i] else r[i + 1];
      forall i, j | 0 <= i < j < |w|
        ensures w[i] in history && w[j] in history && LastIndex(history, w[i]) > LastIndex(history, w[j])
      {
        var i', j' := if i < at then i else i + 1, if j < at then j else j + 1;
        assert w[i] == r[i'] && w[j] == r[j'];
      }
    } else {
      WithoutAbsent(r, k);
    }
  }

  /** A key used last goes in front of all other keys. */
  lemma {:induction false} UseMovesToFront<K>(rest: seq<K>, before: seq<K>, k: K)
    requires OrderedByUse(rest, before) && k !in rest
    ensures OrderedByUse([k] + rest, before + [k])
  {
    var keys, history := [k] + rest, before + [k];
    assert history[..|history| - 1] == before;
    forall i | 0 <= i < |rest|
      ensures rest[i] in history && LastIndex(history, rest[i]) == LastIndex(before, rest[i])
    {
    }
  }

  /** Moving a key to the front of a list bounded by `cap`: an absent key pushes
      the last one out of a full list. */
  function Touch<K(==)>(keys: seq<K>, cap: nat, k: K): seq<K>
    requires cap >= 1
  {
    var rest := Without(keys, k);
    [k] + (if |rest| >= cap then rest[..cap - 1] else rest)
  }

  lemma {:induction false} TouchBounds<K>(keys: seq<K>, cap: nat, k: K)
    requires cap >= 1 && Distinct(keys) && |keys| <= cap
    ensures Distinct(Touch(keys, cap, k)) && |Touch(keys, cap, k)| <= cap
  {
    WithoutDistinct(keys, k);
    WithoutMember(keys, k, k);
  }

  /** Truncating the whole recency order and truncating after every step agree:
      a key that fell out can only come back by being used again. */
  lemma {:induction false} TouchTruncates<K>(r: seq<K>, cap: nat, k: K)
    requires Distinct(r) && cap >= 1
    ensures Touch(Take(r, cap), cap, k) == Take([k] + Without(r, k), cap)
  {
    var t := Take(r, cap);
    if k in t {
      var i :| 0 <= i < |t| && t[i] == k;
      WithoutAt(t, i);
      WithoutAt(r, i);
      assert Touch(t, cap, k) == [k] + (t[..i] + t[i + 1..]);
      var all := [k] + (r[..i] + r[i + 1..]);
      if |r| > cap {
        assert all[..cap] == [k] + (t[..i] + t[i + 1..]);
      }
    } else {
      WithoutAbsent(t, k);
      if k in r {
        var i :| 0 <= i < |r| && r[i] == k;
        WithoutAt(r, i);
      } else {
        WithoutAbsent(r, k);
      }
    }
  }
}
