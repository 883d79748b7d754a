/**
 The least-recently-used cache: a list of pairs, newest first, and a map from
 keys to list positions. Iterators are modelled by the list nodes themselves.
 */
module LruCache {
  import opened VerifyTypes
  import opened Seqs
  import opened Recency

  // ---------- what the operations mean on the list of pairs ----------

  function Keys<K, V>(c: seq<(K, V)>): (keys: seq<K>)
    ensures |keys| == |c| && forall i :: 0 <= i < |c| ==> keys[i] == c[i].0
  {
    if c == [] then [] else [c[0].0] + Keys(c[1..])
  }

  /** The value of the first pair with key `k`. */
  function Lookup<K(==), V>(c: seq<(K, V)>, k: K): Option<V> {
    if c == [] then None else if c[0].0 == k then Some(c[0].1) else Lookup(c[1..], k)
  }

  function DropKey<K(==), V>(c: seq<(K, V)>, k: K): seq<(K, V)> {
    if c == [] then [] else (if c[0].0 == k then [] else [c[0]]) + DropKey(c[1..], k)
  }

  function Accessed<K(==), V>(c: seq<(K, V)>, k: K): seq<(K, V)> {
    match Lookup(c, k)
    case None => c
    case Some(v) => [(k, v)] + DropKey(c, k)
  }

  function Stored<K(==), V>(c: seq<(K, V)>, cap: nat, k: K, v: V): seq<(K, V)>
    requires cap >= 1
  {
    if Lookup(c, k).Some? then Accessed(c, k)
    else [(k, v)] + Remaining(c, cap)
  }

  lemma {:induction false} LookupKeys<K, V>(c: seq<(K, V)>, k: K)
    ensures Lookup(c, k).Some? <==> k in Keys(c)
    ensures Lookup(c, k).Some? ==> (k, Lookup(c, k).value) in c
  {
    if c != [] {
      LookupKeys(c[1..], k);
      assert Keys(c) == [c[0].0] + Keys(c[1..]);
      assert c == [c[0]] + c[1..];
    }
  }

  lemma {:induction false} DropKeyKeys<K, V>(c: seq<(K, V)>, k: K)
    ensures Keys(DropKey(c, k)) == Without(Keys(c), k)
  {
    if c != [] {
      DropKeyKeys(c[1..], k);
    }
  }

  lemma {:induction false} DropKeyLookup<K, V>(c: seq<(K, V)>, k: K, x: K)
    requires x != k
    ensures Lookup(DropKey(c, k), x) == Lookup(c, x)
  {
    if c != [] {
      DropKeyLookup(c[1..], k, x);
      if c[0].0 != k {
        assert DropKey(c, k)[1..] == DropKey(c[1..], k);
      } else {
        assert DropKey(c, k) == DropKey(c[1..], k);
      }
    }
  }

  /** An access touches exactly its own key and leaves the other values alone. */
  lemma {:induction false} AccessedMeaning<K, V>(c: seq<(K, V)>, cap: nat, k: K, x: K)
    requires 1 <= cap && |c| <= cap && Distinct(Keys(c)) && Lookup(c, k).Some?
    ensures Keys(Accessed(c, k)) == Touch(Keys(c), cap, k)
    ensures Lookup(Accessed(c, k), x) == Lookup(c, x)
  {
    LookupKeys(c, k);
    DropKeyKeys(c, k);
    WithoutDistinct(Keys(c), k);
    if x != k { DropKeyLookup(c, k, x); }
  }

  /** Storing touches the key too; a resident key keeps its value, and no other
      surviving key changes its value. */
  lemma {:induction false} StoredMeaning<K, V>(c: seq<(K, V)>, cap: nat, k: K, v: V, x: K)
    requires 1 <= cap && |c| <= cap && Distinct(Keys(c))
    ensures Keys(Stored(c, cap, k, v)) == Touch(Keys(c), cap, k)
    ensures x in Keys(Stored(c, cap, k, v)) ==>
      Lookup(Stored(c, cap, k, v), x) == if x == k && x !in Keys(c) then Some(v) else Lookup(c, x)
  {
    LookupKeys(c, k);
    if Lookup(c, k).Some? {
      AccessedMeaning(c, cap, k, x);
    } else {
      NewKeyTouches(c, cap, k, v);
      NewKeyValue(c, cap, k, v, x);
    }
  }

  /** The pairs that a new key leaves in the list. */
  function Remaining<K, V>(c: seq<(K, V)>, cap: nat): seq<(K, V)>
    requires cap >= 1
  {
    if |c| == cap then c[..cap - 1] else c
  }

  lemma {:induction false} NewKeyTouches<K, V>(c: seq<(K, V)>, cap: nat, k: K, v: V)
    requires 1 <= cap && |c| <= cap && k !in Keys(c)
    ensures Keys([(k, v)] + Remaining(c, cap)) == Touch(Keys(c), cap, k)
  {
    WithoutAbsent(Keys(c), k);
    KeysCons(k, v, Remaining(c, cap));
    if |c| == cap {
      assert Keys(c[..cap - 1]) == Keys(c)[..cap - 1];
    }
  }

  lemma {:induction false} KeysCons<K, V>(k: K, v: V, c: seq<(K, V)>)
    ensures Keys([(k, v)] + c) == [k] + Keys(c)
  {
    assert ([(k, v)] + c)[1..] == c;
  }

  lemma {:induction false} NewKeyValue<K, V>(c: seq<(K, V)>, cap: nat, k: K, v: V, x: K)
    requires cap >= 1
    ensures x in Keys([(k, v)] + Remaining(c, cap)) ==>
      Lookup([(k, v)] + Remaining(c, cap), x) == if x == k then Some(v) else Lookup(c, x)
  {
    var kept := Remaining(c, cap);
    LookupCons(k, v, kept, x);
    KeysCons(k, v, kept);
    if x in Keys(kept) && |c| == cap {
      LookupPrefix(c, cap - 1, x);
    }
  }

  lemma {:induction false} LookupCons<K, V>(k: K, v: V, c: seq<(K, V)>, x: K)
    ensures Lookup([(k, v)] + c, x) == if x == k then Some(v) else Lookup(c, x)
  {
    assert ([(k, v)] + c)[1..] == c;
  }

  lemma {:induction false} LookupPrefix<K, V>(c: seq<(K, V)>, n: nat, x: K)
    requires n <= |c| && x in Keys(c[..n])
    ensures Lookup(c[..n], x) == Lookup(c, x)
  {
    if n > 0 && c[0].0 != x {
      assert c[..n][1..] == c[1..][..n - 1];
      LookupPrefix(c[1..], n - 1, x);
    }
  }

  // ---------- runs ----------

  datatype Op<K, V> = Get(key: K) | Put(key: K, value: V) | Clear

  function Apply<K(==), V>(c: seq<(K, V)>, cap: nat, op: Op<K, V>): seq<(K, V)>
    requires cap >= 1
  {
    match op
    case Get(k) => Accessed(c, k)
    case Put(k, v) => Stored(c, cap, k, v)
    case Clear => []
  }

  function Run<K(==), V>(ops: seq<Op<K, V>>, cap: nat): seq<(K, V)>
    requires cap >= 1
  {
    if ops == [] then [] else Apply(Run(ops[..|ops| - 1], cap), cap, ops[|ops| - 1])
  }

  /** Reference: the accesses since the last `Clear`. A put is one; a get is one
      when its key is among the `cap` most recently accessed distinct keys. */
  function Accesses<K(==), V>(ops: seq<Op<K, V>>, cap: nat): seq<K> {
    if ops == [] then []
    else
      var before := Accesses(ops[..|ops| - 1], cap);
      match ops[|ops| - 1]
      case Get(k) => if k in Take(Recent(before), cap) then before + [k] else before
      case Put(k, _) => before + [k]
      case Clear => []
  }

  /** Reference: the first value put for `k` since it became resident. */
  function FirstValue<K(==), V>(ops: seq<Op<K, V>>, cap: nat, k: K): Option<V> {
    if ops == [] then None
    else
      var before := ops[..|ops| - 1];
      match ops[|ops| - 1]
      case Put(k', v) =>
        if k' == k && k !in Take(Recent(Accesses(before, cap)), cap) then Some(v)
        else FirstValue(before, cap, k)
      case Get(_) => FirstValue(before, cap, k)
      case Clear => None
  }

  /** After any sequence of operations the list holds the `cap` most recently
      accessed distinct keys, newest first, each with the first value put since
      it became resident. */
  lemma {:induction false} RunRefinesHistory<K, V>(ops: seq<Op<K, V>>, cap: nat)
    requires cap >= 1
    ensures Keys(Run(ops, cap)) == Take(Recent(Accesses(ops, cap)), cap)
    ensures Distinct(Keys(Run(ops, cap))) && |Run(ops, cap)| <= cap
    ensures forall k :: k in Keys(Run(ops, cap)) ==> Lookup(Run(ops, cap), k) == FirstValue(ops, cap, k)
  {
    if ops != [] {
      var before, op := ops[..|ops| - 1], ops[|ops| - 1];
      RunRefinesHistory(before, cap);
      if !op.Clear? {
        StepRefinesKeys(Run(before, cap), cap, op, Accesses(before, cap));
        forall x | x in Keys(Run(ops, cap)) ensures Lookup(Run(ops, cap), x) == FirstValue(ops, cap, x) {
          StepKeepsValue(Run(before, cap), cap, op, x);
        }
      }
    }
  }

  lemma {:induction false} UseTouches<K>(h: seq<K>, cap: nat, k: K)
    requires cap >= 1
    ensures Take(Recent(h + [k]), cap) == Touch(Take(Recent(h), cap), cap, k)
    ensures Distinct(Take(Recent(h + [k]), cap)) && Distinct(Take(Recent(h), cap))
  {
    RecentMeaning(h);
    RecentMeaning(h + [k]);
    assert (h + [k])[..|h|] == h;
    TouchTruncates(Recent(h), cap, k);
  }

  /** A step gives a new key its value and keeps that of every surviving one. */
  lemma {:induction false} StepKeepsValue<K, V>(c: seq<(K, V)>, cap: nat, op: Op<K, V>, x: K)
    requires 1 <= cap && |c| <= cap && Distinct(Keys(c)) && !op.Clear?
    requires x in Keys(Apply(c, cap, op))
    ensures x in Keys(c) || (op.Put? && op.key == x)
    ensures Lookup(Apply(c, cap, op), x) ==
            if op.Put? && op.key == x && x !in Keys(c) then Some(op.value) else Lookup(c, x)
  {
    var k := op.key;
    LookupKeys(c, k);
    LookupKeys(c, x);
    LookupKeys(Apply(c, cap, op), x);
    if op.Put? {
      StoredMeaning(c, cap, k, op.value, x);
    } else if Lookup(c, k).Some? {
      AccessedMeaning(c, cap, k, x);
    }
  }

  /** A get or put on a list that holds the most recent keys of the history leaves
      the most recent keys of the longer history. */
  lemma {:induction false} StepRefinesKeys<K, V>(c: seq<(K, V)>, cap: nat, op: Op<K, V>, h: seq<K>)
    requires 1 <= cap && |c| <= cap && Distinct(Keys(c)) && !op.Clear? && Keys(c) == Take(Recent(h), cap)
    ensures
      var more := if op.Put? || op.key in Keys(c) then h + [op.key] else h;
      Keys(Apply(c, cap, op)) == Take(Recent(more), cap) && Distinct(Take(Recent(more), cap))
  {
    var k := op.key;
    LookupKeys(c, k);
    UseTouches(h, cap, k);
    if op.Put? {
      StoredMeaning(c, cap, k, op.value, k);
    } else if Lookup(c, k).Some? {
      AccessedMeaning(c, cap, k, k);
    }
  }

  // ---------- the class ----------

  /** A node of the list; an iterator is a reference to one. */
  class ListNode<K, V> {
    const key: K
    const value: V

    constructor (key: K, value: V)
      ensures this.key == key && this.value == value
    {
      this.key, this.value := key, value;
    }
  }

  ghost function Pairs<K, V>(nodes: seq<ListNode<K, V>>): (c: seq<(K, V)>)
    ensures |c| == |nodes| && forall i :: 0 <= i < |c| ==> c[i] == (nodes[i].key, nodes[i].value)
  {
    if nodes == [] then [] else [(nodes[0].key, nodes[0].value)] + Pairs(nodes[1..])
  }

  /** Erasing through the iterator of a key drops that key's pair, and reading
      through it gives the value stored under the key. */
  lemma {:induction false} IteratorMeaning<K, V>(nodes: seq<ListNode<K, V>>, n: ListNode<K, V>)
    requires n in nodes
    requires forall i, j :: 0 <= i < j < |nodes| ==> nodes[i].key != nodes[j].key
    ensures Pairs(Without(nodes, n)) == DropKey(Pairs(nodes), n.key)
    ensures Lookup(Pairs(nodes), n.key) == Some(n.value)
    ensures forall m :: m in Without(nodes, n) <==> m in nodes && m.key != n.key
  {
    if nodes[0] == n {
      assert n !in nodes[1..];
      WithoutAbsent(nodes[1..], n);
      OtherKeysStay(nodes[1..], n.key);
    } else {
      assert nodes == [nodes[0]] + nodes[1..];
      IteratorMeaning(nodes[1..], n);
    }
  }

  lemma {:induction false} OtherKeysStay<K, V>(nodes: seq<ListNode<K, V>>, k: K)
    requires forall m :: m in nodes ==> m.key != k
    ensures DropKey(Pairs(nodes), k) == Pairs(nodes) && Lookup(Pairs(nodes), k) == None
  {
    if nodes != [] {
      assert nodes[0] in nodes;
      OtherKeysStay(nodes[1..], k);
      assert Pairs(nodes) == [Pairs(nodes)[0]] + Pairs(nodes)[1..];
    }
  }

  lemma {:induction false} EraseKeepsKeysApart<K, V>(nodes: seq<ListNode<K, V>>, n: ListNode<K, V>)
    requires n in nodes
    requires forall i, j :: 0 <= i < j < |nodes| ==> nodes[i].key != nodes[j].key
    ensures |Without(nodes, n)| == |nodes| - 1
    ensures var r := Without(nodes, n);
            forall i, j :: 0 <= i < j < |r| ==> r[i].key != r[j].key
  {
    var at :| 0 <= at < |nodes| && nodes[at] == n;
    WithoutAt(nodes, at);
  }

  /** List and map hold the same keys, without duplicates, and every iterator
      points at its own key's node. */
  ghost predicate Linked<K, V>(nodes: seq<ListNode<K, V>>, iterators: map<K, ListNode<K, V>>) {
    && (forall i, j :: 0 <= i < j < |nodes| ==> nodes[i].key != nodes[j].key)
    && (forall n :: n in nodes ==> n.key in iterators && iterators[n.key] == n)
    && (forall k :: k in iterators ==> iterators[k] in nodes && iterators[k].key == k)
  }

  lemma {:induction false} EvictionStaysLinked<K, V>(nodes: seq<ListNode<K, V>>, iterators: map<K, ListNode<K, V>>)
    requires Linked(nodes, iterators) && nodes != []
    ensures Linked(nodes[..|nodes| - 1], iterators - {nodes[|nodes| - 1].key})
  {
    var n := |nodes| - 1;
    var last, kept := nodes[n], nodes[..n];
    assert nodes == kept + [last];
    forall m | m in kept ensures m in nodes && m.key != last.key {
      var i :| 0 <= i < n && kept[i] == m;
      assert nodes[i] == m;
    }
  }

  lemma {:induction false} PairsPrefix<K, V>(nodes: seq<ListNode<K, V>>, n: nat)
    requires n <= |nodes|
    ensures Pairs(nodes[..n]) == Pairs(nodes)[..n]
  {
  }

  class LruCacheUtil<K(==), V> {
    const maxCap: nat
    var cache: seq<ListNode<K, V>>
    var lruMap: map<K, ListNode<K, V>>

    ghost predicate Valid()
      reads this
    {
      && |cache| <= maxCap
      && Linked(cache, lruMap)
    }

    ghost function Contents(): seq<(K, V)>
      reads this
    {
      Pairs(cache)
    }

    constructor (maxCap: nat)
      ensures Valid() && Contents() == [] && this.maxCap == maxCap
    {
      this.maxCap := maxCap;
      cache, lruMap := [], map[];
    }

    lemma {:induction false} Residency(key: K)
      requires Valid()
      ensures key in lruMap <==> Lookup(Contents(), key).Some?
      ensures |lruMap| == |cache|
    {
      if key in lruMap {
        IteratorMeaning(cache, lruMap[key]);
      } else {
        OtherKeysStay(cache, key);
      }
      NodesAndKeys(cache, lruMap.Keys);
    }

    /** Pushes a new node for a key without one; the map may still hold the
        iterator of a node just erased. */
    method PushFront(key: K, value: V)
      requires |cache| < maxCap
      requires forall i, j :: 0 <= i < j < |cache| ==> cache[i].key != cache[j].key
      requires forall n :: n in cache ==> n.key != key && n.key in lruMap && lruMap[n.key] == n
      requires forall k :: k in lruMap && k != key ==> lruMap[k] in cache && lruMap[k].key == k
      modifies this
      ensures Valid() && Contents() == [(key, value)] + old(Contents())
    {
      var node := new ListNode(key, value);
      ghost var rest := cache;
      cache := [node] + cache;
      lruMap := lruMap[key := node];
      assert cache[1..] == rest;
      assert forall n :: n in cache <==> n == node || n in rest;
      assert node in cache;
    }

    /** Replaces the node of a resident key by a new one at the front. */
    method MoveToFront(key: K, value: V)
      requires Valid() && key in lruMap && Lookup(Contents(), key) == Some(value)
      modifies this
      ensures Valid() && Contents() == Accessed(old(Contents()), key)
    {
      var node := lruMap[key];
      IteratorMeaning(cache, node);
      EraseKeepsKeysApart(cache, node);
      cache := Without(cache, node);
      PushFront(key, value);
    }

    method EvictLast()
      requires Valid() && cache != []
      modifies this
      ensures Valid() && |cache| == old(|cache|) - 1
      ensures Contents() == old(Contents())[..|cache|]
      ensures lruMap.Keys <= old(lruMap.Keys)
    {
      EvictionStaysLinked(cache, lruMap);
      PairsPrefix(cache, |cache| - 1);
      lruMap := lruMap - {cache[|cache| - 1].key};
      cache := cache[..|cache| - 1];
    }

    method Get(key: K) returns (value: Option<V>)
      requires Valid()
      modifies this
      ensures Valid()
      ensures value == Lookup(old(Contents()), key)
      ensures Contents() == Accessed(old(Contents()), key)
    {
      Residency(key);
      if key !in lruMap {
        return None;
      }
      IteratorMeaning(cache, lruMap[key]);
      value := Some(lruMap[key].value);
      MoveToFront(key, value.value);
    }

    /** With a capacity of zero a put would pop from an empty list. */
    method Put(key: K, value: V)
      requires Valid() && maxCap >= 1
      modifies this
      ensures Valid()
      ensures Contents() == Stored(old(Contents()), maxCap, key, value)
    {
      Residency(key);
      if key in lruMap {
        IteratorMeaning(cache, lruMap[key]);
        MoveToFront(key, lruMap[key].value);
        return;
      }
      if |lruMap| == maxCap {
        EvictLast();
      }
      PushFront(key, value);
    }

    method Clear()
      requires Valid()
      modifies this
      ensures Valid() && Contents() == []
    {
      cache := [];
      lruMap := map[];
    }

    method IsEmpty() returns (empty: bool)
      requires Valid()
      ensures empty <==> Contents() == []
    {
      NodesAndKeys(cache, lruMap.Keys);
      empty := |lruMap| == 0;
    }
  }

  lemma {:induction false} NodesAndKeys<K, V>(nodes: seq<ListNode<K, V>>, keys: set<K>)
    requires forall i, j :: 0 <= i < j < |nodes| ==> nodes[i].key != nodes[j].key
    requires forall k :: k in keys <==> exists n :: n in nodes && n.key == k
    ensures |nodes| == |keys|
  {
    if nodes == [] {
      assert keys == {};
    } else {
      var k := nodes[0].key;
      assert nodes == [nodes[0]] + nodes[1..];
      assert nodes[0] in nodes;
      forall x ensures x in keys - {k} <==> exists n :: n in nodes[1..] && n.key == x {
        if x in keys - {k} {
          var n :| n in nodes && n.key == x;
          assert n in nodes[1..];
        }
      }
      NodesAndKeys(nodes[1..], keys - {k});
    }
  }
}
