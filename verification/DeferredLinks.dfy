/**
 Links clicked before their application was installed: a list bounded to fifty,
 newest first, emptied by an ageing timer. Times are in milliseconds; a link is
 stamped with the whole second of its click.
 */
module DeferredLinks {
  import opened VerifyTypes
  import opened Seqs
  import opened Recency

  const DELAY_TIME: nat := 60000
  const MAX_CACHE_TIME: nat := 600
  const MAX_CACHE_SIZE: nat := 50

  datatype DeferredLinkInfo = DeferredLinkInfo(domain: string, url: string, timeStamp: nat)

  function Seconds(now: nat): nat { now / 1000 }

  // ---------- the predicates handed to remove_if ----------

  function Key(link: DeferredLinkInfo): (string, string) { (link.domain, link.url) }

  function SameKey(info: DeferredLinkInfo): DeferredLinkInfo -> bool {
    (cur: DeferredLinkInfo) => Key(cur) == Key(info)
  }

  function OtherKey(info: DeferredLinkInfo): DeferredLinkInfo -> bool {
    (cur: DeferredLinkInfo) => Key(cur) != Key(info)
  }

  /** The link is of one of the domains and some ability of the bundle takes its
      url; `accepts` is the bundle's ability filter. */
  function Wanted(domains: seq<string>, accepts: string -> bool): DeferredLinkInfo -> bool {
    (cur: DeferredLinkInfo) => cur.domain in domains && accepts(cur.url)
  }

  function Unwanted(domains: seq<string>, accepts: string -> bool): DeferredLinkInfo -> bool {
    (cur: DeferredLinkInfo) => !(cur.domain in domains && accepts(cur.url))
  }

  function Aged(second: nat): DeferredLinkInfo -> bool {
    (cur: DeferredLinkInfo) => second - cur.timeStamp >= MAX_CACHE_TIME
  }

  function Young(second: nat): DeferredLinkInfo -> bool {
    (cur: DeferredLinkInfo) => second - cur.timeStamp < MAX_CACHE_TIME
  }

  // ---------- what the operations mean ----------

  /** The list, whether the timer's handler exists, and when its task is due. */
  datatype LinkCache = LinkCache(caches: seq<DeferredLinkInfo>, hasHandler: bool, due: Option<nat>)

  function Posted(s: LinkCache, now: nat): LinkCache {
    if s.hasHandler then s.(due := Some(now + DELAY_TIME)) else s
  }

  /** The links kept by a put before the new one goes in front. */
  function Kept(caches: seq<DeferredLinkInfo>, info: DeferredLinkInfo): seq<DeferredLinkInfo> {
    var rest := Filter(caches, OtherKey(info));
    if |rest| == MAX_CACHE_SIZE then rest[..|rest| - 1] else rest
  }

  function AfterPut(s: LinkCache, info: DeferredLinkInfo, now: nat): LinkCache {
    (if s.caches == [] then Posted(s, now) else s).(caches := [info] + Kept(s.caches, info))
  }

  predicate NothingToMatch(s: LinkCache, bundleName: string, domains: seq<string>) {
    s.caches == [] || domains == [] || bundleName == ""
  }

  function FirstUrl(links: seq<DeferredLinkInfo>): string {
    if links == [] then "" else links[0].url
  }

  function AfterGet(
    s: LinkCache, bundleName: string, domains: seq<string>, accepts: string -> bool, resv: bool): (LinkCache, string)
  {
    if NothingToMatch(s, bundleName, domains) then (s, "")
    else
      (if resv then s else s.(caches := Filter(s.caches, Unwanted(domains, accepts))),
       FirstUrl(Filter(s.caches, Wanted(domains, accepts))))
  }

  function AfterRemove(s: LinkCache, info: DeferredLinkInfo): LinkCache {
    s.(caches := Filter(s.caches, OtherKey(info)))
  }

  /** The timer's task runs: it is no longer pending, ages the list and posts
      itself again unless the list became empty. */
  function AfterAge(s: LinkCache, now: nat): LinkCache {
    var left := s.(caches := Filter(s.caches, Young(Seconds(now))), due := None);
    if left.caches == [] then left else Posted(left, now)
  }

  // ---------- the class ----------

  class DeferredLinkMgr {
    const hasHandler: bool
    var caches: seq<DeferredLinkInfo>
    var due: Option<nat>

    ghost function State(): LinkCache
      reads this
    {
      LinkCache(caches, hasHandler, due)
    }

    /** The event runner may not be created; then there is no handler. */
    constructor (runnerCreated: bool)
      ensures State() == LinkCache([], runnerCreated, None)
    {
      hasHandler, caches, due := runnerCreated, [], None;
    }

    method PostAgeCacheTask(now: nat)
      modifies this`due
      ensures State() == Posted(old(State()), now)
    {
      if hasHandler {
        due := Some(now + DELAY_TIME);
      }
    }

    method CheckStartTimerUnlocked(now: nat)
      modifies this`due
      ensures State() == if caches == [] then Posted(old(State()), now) else old(State())
    {
      if caches == [] {
        PostAgeCacheTask(now);
      }
    }

    method CheckRemoveExistedUnlocked(info: DeferredLinkInfo)
      modifies this`caches
      ensures caches == Filter(old(caches), OtherKey(info))
    {
      caches := Filter(caches, OtherKey(info));
    }

    method CheckFullUnlocked()
      modifies this`caches
      ensures caches == if |old(caches)| == MAX_CACHE_SIZE then old(caches)[..MAX_CACHE_SIZE - 1] else old(caches)
    {
      if |caches| == MAX_CACHE_SIZE {
        caches := caches[..|caches| - 1];
      }
    }

    method PutDeferredLink(info: DeferredLinkInfo, now: nat)
      modifies this
      ensures State() == AfterPut(old(State()), info, now)
    {
      CheckStartTimerUnlocked(now);
      CheckRemoveExistedUnlocked(info);
      CheckFullUnlocked();
      caches := [info] + caches;
    }

    method GetDeferredLink(bundleName: string, domains: seq<string>, accepts: string -> bool, resv: bool)
      returns (link: string)
      modifies this`caches
      ensures (State(), link) == AfterGet(old(State()), bundleName, domains, accepts, resv)
    {
      if caches == [] || domains == [] || bundleName == "" {
        return "";
      }
      var destination: seq<DeferredLinkInfo> := [];
      if !resv {
        destination := Filter(caches, Wanted(domains, accepts));
        caches := Filter(caches, Unwanted(domains, accepts));
      } else {
        var i := 0;
        while i < |caches|
          invariant 0 <= i <= |caches| && caches == old(caches)
          invariant destination == Filter(caches[..i], Wanted(domains, accepts))
        {
          FilterAppend(caches[..i], [caches[i]], Wanted(domains, accepts));
          assert caches[..i + 1] == caches[..i] + [caches[i]];
          if caches[i].domain in domains && accepts(caches[i].url) {
            destination := destination + [caches[i]];
          }
          i := i + 1;
        }
        assert caches[..i] == caches;
      }
      link := if destination == [] then "" else destination[0].url;
    }

    method RemoveDeferredLink(info: DeferredLinkInfo)
      modifies this`caches
      ensures State() == AfterRemove(old(State()), info)
    {
      caches := Filter(caches, OtherKey(info));
    }

    /** Runs when the pending task fires. */
    method AgeCacheProcess(now: nat)
      modifies this
      ensures State() == AfterAge(old(State()), now)
    {
      due := None;
      caches := Filter(caches, Young(Seconds(now)));
      if caches != [] {
        PostAgeCacheTask(now);
      }
    }
  }

  // ---------- puts only: the fifty most recent keys ----------

  function LinkKeys(links: seq<DeferredLinkInfo>): (keys: seq<(string, string)>)
    ensures |keys| == |links| && forall i :: 0 <= i < |keys| ==> keys[i] == (links[i].domain, links[i].url)
  {
    seq(|links|, i requires 0 <= i < |links| => Key(links[i]))
  }

  function AfterPuts(puts: seq<DeferredLinkInfo>): seq<DeferredLinkInfo> {
    if puts == [] then []
    else
      var info := puts[|puts| - 1];
      [info] + Kept(AfterPuts(puts[..|puts| - 1]), info)
  }

  lemma {:induction false} OtherKeyKeys(links: seq<DeferredLinkInfo>, info: DeferredLinkInfo)
    ensures LinkKeys(Filter(links, OtherKey(info))) == Without(LinkKeys(links), Key(info))
  {
    if links != [] {
      OtherKeyKeys(links[1..], info);
      assert LinkKeys(links) == [Key(links[0])] + LinkKeys(links[1..]);
      var rest := Filter(links[1..], OtherKey(info));
      assert LinkKeys([links[0]] + rest) == [Key(links[0])] + LinkKeys(rest);
    }
  }

  /** `link` is the last of the puts that have its key. */
  ghost predicate LatestOfKey(puts: seq<DeferredLinkInfo>, link: DeferredLinkInfo) {
    Key(link) in LinkKeys(puts) && puts[LastIndex(LinkKeys(puts), Key(link))] == link
  }

  lemma {:induction false} PutTouches(caches: seq<DeferredLinkInfo>, info: DeferredLinkInfo)
    requires Distinct(LinkKeys(caches)) && |caches| <= MAX_CACHE_SIZE
    ensures LinkKeys([info] + Kept(caches, info)) == Touch(LinkKeys(caches), MAX_CACHE_SIZE, Key(info))
    ensures forall l :: l in Kept(caches, info) ==> l in caches && Key(l) != Key(info)
  {
    var rest := Filter(caches, OtherKey(info));
    OtherKeyKeys(caches, info);
    WithoutDistinct(LinkKeys(caches), Key(info));
    assert LinkKeys([info] + Kept(caches, info)) == [Key(info)] + LinkKeys(Kept(caches, info));
    forall l | l in Kept(caches, info) ensures l in caches && Key(l) != Key(info) {
      FilterMember(caches, OtherKey(info), l);
    }
  }

  lemma {:induction false} LatestSurvives(before: seq<DeferredLinkInfo>, info: DeferredLinkInfo, link: DeferredLinkInfo)
    requires link == info || (LatestOfKey(before, link) && Key(link) != Key(info))
    ensures LatestOfKey(before + [info], link)
  {
    var puts := before + [info];
    assert LinkKeys(puts) == LinkKeys(before) + [Key(info)];
    assert LinkKeys(puts)[..|before|] == LinkKeys(before);
  }

  /** Whatever is put in whatever order, the cache is the fifty most recently put
      distinct (domain, url) keys, newest first, each as it was last put. */
  lemma {:induction false} PutsRefineHistory(puts: seq<DeferredLinkInfo>)
    ensures LinkKeys(AfterPuts(puts)) == Take(Recent(LinkKeys(puts)), 50)
    ensures forall l :: l in AfterPuts(puts) ==> LatestOfKey(puts, l)
  {
    if puts != [] {
      var info, before := puts[|puts| - 1], puts[..|puts| - 1];
      assert puts == before + [info];
      PutsRefineHistory(before);
      assert LinkKeys(puts) == LinkKeys(before) + [Key(info)];
      assert LinkKeys(puts)[..|before|] == LinkKeys(before);
      RecentMeaning(LinkKeys(before));
      TouchTruncates(Recent(LinkKeys(before)), MAX_CACHE_SIZE, Key(info));
      PutTouches(AfterPuts(before), info);
      forall l | l in AfterPuts(puts) ensures LatestOfKey(puts, l) {
        assert l == info || l in Kept(AfterPuts(before), info);
        LatestSurvives(before, info, l);
      }
    }
  }

  // ---------- timed runs ----------

  datatype Event =
    | Put(info: DeferredLinkInfo)
    | Get(bundleName: string, domains: seq<string>, accepts: string -> bool, resv: bool)
    | Remove(info: DeferredLinkInfo)
    | Advance(to: nat)
    | Fire

  datatype Way = ByPop | ByRemove | ByReplacement | ByEviction | ByAge

  /** A link that left the cache, and the way it left. */
  datatype Departure = Departure(link: DeferredLinkInfo, way: Way)

  function Leaving(links: seq<DeferredLinkInfo>, way: Way): seq<Departure> {
    seq(|links|, i requires 0 <= i < |links| => Departure(links[i], way))
  }

  function Links(departures: seq<Departure>): seq<DeferredLinkInfo> {
    seq(|departures|, i requires 0 <= i < |departures| => departures[i].link)
  }

  datatype Timed = Timed(cache: LinkCache, now: nat, stored: seq<DeferredLinkInfo>, left: seq<Departure>)

  function Start(hasHandler: bool, now: nat): Timed {
    Timed(LinkCache([], hasHandler, None), now, [], [])
  }

  /** A link is stamped with the second of its put; the clock never goes back and,
      the timer being punctual, does not pass a due task before it has run. */
  predicate Enabled(t: Timed, e: Event) {
    match e
    case Put(info) => info.timeStamp == Seconds(t.now)
    case Get(_, _, _, _) => true
    case Remove(_) => true
    case Advance(to) => t.now <= to && (t.cache.due.Some? ==> to <= t.cache.due.value)
    case Fire => t.cache.due == Some(t.now)
  }

  function Evicted(caches: seq<DeferredLinkInfo>, info: DeferredLinkInfo): seq<DeferredLinkInfo> {
    var rest := Filter(caches, OtherKey(info));
    if |rest| == MAX_CACHE_SIZE then [rest[|rest| - 1]] else []
  }

  function Popped(s: LinkCache, e: Event): seq<DeferredLinkInfo>
    requires e.Get?
  {
    if e.resv || NothingToMatch(s, e.bundleName, e.domains) then []
    else Filter(s.caches, Wanted(e.domains, e.accepts))
  }

  /** Which links an event takes out of the cache, and how. */
  function Departing(t: Timed, e: Event): seq<Departure> {
    var c := t.cache.caches;
    match e
    case Put(info) => Leaving(Filter(c, SameKey(info)), ByReplacement) + Leaving(Evicted(c, info), ByEviction)
    case Get(_, _, _, _) => Leaving(Popped(t.cache, e), ByPop)
    case Remove(info) => Leaving(Filter(c, SameKey(info)), ByRemove)
    case Advance(_) => []
    case Fire => Leaving(Filter(c, Aged(Seconds(t.now))), ByAge)
  }

  function NextCache(t: Timed, e: Event): LinkCache {
    match e
    case Put(info) => AfterPut(t.cache, info, t.now)
    case Get(b, d, accepts, resv) => AfterGet(t.cache, b, d, accepts, resv).0
    case Remove(info) => AfterRemove(t.cache, info)
    case Advance(_) => t.cache
    case Fire => AfterAge(t.cache, t.now)
  }

  function Next(t: Timed, e: Event): Timed {
    Timed(NextCache(t, e),
          if e.Advance? then e.to else t.now,
          if e.Put? then t.stored + [e.info] else t.stored,
          t.left + Departing(t, e))
  }

  /** The state after a run; `None` if some event was not enabled. */
  function Exec(start: Timed, run: seq<Event>): Option<Timed> {
    if run == [] then Some(start)
    else
      match Exec(start, run[..|run| - 1])
      case None => None
      case Some(t) => if Enabled(t, run[|run| - 1]) then Some(Next(t, run[|run| - 1])) else None
  }

  ghost predicate Descending(c: seq<DeferredLinkInfo>) {
    forall i, j :: 0 <= i < j < |c| ==> c[i].timeStamp >= c[j].timeStamp
  }

  /** Newest first by time stamp, none from the future, not over full. */
  ghost predicate Ordered(c: seq<DeferredLinkInfo>, second: nat) {
    && |c| <= MAX_CACHE_SIZE
    && Descending(c)
    && (forall l :: l in c ==> l.timeStamp <= second)
  }

  /** A non-empty cache has its task pending, due before any link turns 660 s. */
  ghost predicate Timely(s: LinkCache, now: nat) {
    && s.hasHandler
    && (s.due.Some? ==> now <= s.due.value <= now + DELAY_TIME)
    && (s.caches != [] ==> s.due.Some?)
    && (forall l :: l in s.caches ==> s.due.value < (l.timeStamp + 660) * 1000)
  }

  lemma {:induction false} FilterDescending(c: seq<DeferredLinkInfo>, p: DeferredLinkInfo -> bool)
    requires Descending(c)
    ensures Descending(Filter(c, p))
  {
    if c != [] {
      FilterDescending(c[1..], p);
      forall i | 0 <= i < |Filter(c[1..], p)| ensures c[0].timeStamp >= Filter(c[1..], p)[i].timeStamp {
        FilterMember(c[1..], p, Filter(c[1..], p)[i]);
      }
    }
  }

  lemma {:induction false} FilterShrinks(c: seq<DeferredLinkInfo>, p: DeferredLinkInfo -> bool)
    ensures |Filter(c, p)| <= |c|
  {
    if c != [] {
      FilterShrinks(c[1..], p);
    }
  }

  /** What is kept of a cache, by whatever predicate, was in it and stays in order. */
  lemma {:induction false} KeepsOrder(c: seq<DeferredLinkInfo>, second: nat, p: DeferredLinkInfo -> bool)
    requires Ordered(c, second)
    ensures Ordered(Filter(c, p), second)
    ensures forall x :: x in Filter(c, p) ==> x in c && p(x)
  {
    FilterDescending(c, p);
    FilterShrinks(c, p);
    forall x | x in Filter(c, p) ensures x in c && p(x) { FilterMember(c, p, x); }
  }

  lemma {:induction false} PutKeepsOrder(c: seq<DeferredLinkInfo>, second: nat, info: DeferredLinkInfo)
    requires Ordered(c, second) && info.timeStamp == second
    ensures Ordered([info] + Kept(c, info), second)
    ensures forall x :: x in Kept(c, info) ==> x in c
  {
    var rest, kept := Filter(c, OtherKey(info)), Kept(c, info);
    KeepsOrder(c, second, OtherKey(info));
    PrefixOrdered(rest, |kept|, second);
    FrontOrdered(info, kept, second);
  }

  lemma {:induction false} PrefixOrdered(c: seq<DeferredLinkInfo>, n: nat, second: nat)
    requires Ordered(c, second) && n <= |c|
    ensures Ordered(c[..n], second) && forall x :: x in c[..n] ==> x in c
  {
  }

  lemma {:induction false} FrontOrdered(info: DeferredLinkInfo, c: seq<DeferredLinkInfo>, second: nat)
    requires Ordered(c, second) && |c| < MAX_CACHE_SIZE && info.timeStamp == second
    ensures Ordered([info] + c, second)
  {
    var all := [info] + c;
    forall i, j | 0 <= i < j < |all| ensures all[i].timeStamp >= all[j].timeStamp {
      assert all[j] == c[j - 1] && c[j - 1] in c;
      if i > 0 { assert all[i] == c[i - 1]; }
    }
  }

  lemma {:induction false} NextOrdered(t: Timed, e: Event)
    requires Enabled(t, e) && Ordered(t.cache.caches, Seconds(t.now))
    ensures Ordered(Next(t, e).cache.caches, Seconds(Next(t, e).now))
  {
    var c, second := t.cache.caches, Seconds(t.now);
    match e
    case Put(info) => PutKeepsOrder(c, second, info);
    case Get(_, d, accepts, _) => KeepsOrder(c, second, Unwanted(d, accepts));
    case Remove(info) => KeepsOrder(c, second, OtherKey(info));
    case Advance(_) =>
    case Fire => KeepsOrder(c, second, Young(second));
  }

  lemma {:induction false} NextTimely(t: Timed, e: Event)
    requires Enabled(t, e) && Ordered(t.cache.caches, Seconds(t.now)) && Timely(t.cache, t.now)
    ensures Timely(Next(t, e).cache, Next(t, e).now)
  {
    var c, second := t.cache.caches, Seconds(t.now);
    match e
    case Put(info) => PutKeepsOrder(c, second, info);
    case Get(_, d, accepts, _) => KeepsOrder(c, second, Unwanted(d, accepts));
    case Remove(info) => KeepsOrder(c, second, OtherKey(info));
    case Advance(_) =>
    case Fire => KeepsOrder(c, second, Young(second));
  }

  lemma {:induction false} FilterKeysDistinct(c: seq<DeferredLinkInfo>, p: DeferredLinkInfo -> bool)
    requires Distinct(LinkKeys(c))
    ensures Distinct(LinkKeys(Filter(c, p)))
  {
    if c != [] {
      var kept := Filter(c[1..], p);
      assert LinkKeys(c)[1..] == LinkKeys(c[1..]);
      FilterKeysDistinct(c[1..], p);
      forall j | 0 <= j < |kept| ensures Key(kept[j]) != Key(c[0]) {
        FilterMember(c[1..], p, kept[j]);
        var k :| 0 <= k < |c[1..]| && c[1..][k] == kept[j];
        assert LinkKeys(c)[k + 1] == Key(kept[j]) && LinkKeys(c)[0] == Key(c[0]);
      }
    }
  }

  lemma {:induction false} NextDistinct(t: Timed, e: Event)
    requires Distinct(LinkKeys(t.cache.caches)) && |t.cache.caches| <= MAX_CACHE_SIZE
    ensures Distinct(LinkKeys(Next(t, e).cache.caches))
  {
    var c := t.cache.caches;
    match e
    case Put(info) =>
      PutTouches(c, info);
      TouchBounds(LinkKeys(c), MAX_CACHE_SIZE, Key(info));
    case Get(_, d, accepts, _) => FilterKeysDistinct(c, Unwanted(d, accepts));
    case Remove(info) => FilterKeysDistinct(c, OtherKey(info));
    case Advance(_) =>
    case Fire => FilterKeysDistinct(c, Young(Seconds(t.now)));
  }

  /** Over every timed run the list stays sorted and bounded. */
  lemma {:induction false} RunStaysOrdered(hasHandler: bool, began: nat, run: seq<Event>)
    requires Exec(Start(hasHandler, began), run).Some?
    ensures var t := Exec(Start(hasHandler, began), run).value;
      Ordered(t.cache.caches, Seconds(t.now))
  {
    if run != [] {
      RunStaysOrdered(hasHandler, began, run[..|run| - 1]);
      NextOrdered(Exec(Start(hasHandler, began), run[..|run| - 1]).value, run[|run| - 1]);
    }
  }

  /** Over every timed run no (domain, url) key is held twice. */
  lemma {:induction false} RunStaysDistinct(hasHandler: bool, began: nat, run: seq<Event>)
    requires Exec(Start(hasHandler, began), run).Some?
    ensures Distinct(LinkKeys(Exec(Start(hasHandler, began), run).value.cache.caches))
  {
    if run != [] {
      var before := run[..|run| - 1];
      RunStaysDistinct(hasHandler, began, before);
      RunStaysOrdered(hasHandler, began, before);
      NextDistinct(Exec(Start(hasHandler, began), before).value, run[|run| - 1]);
    }
  }

  /** Over every timed run with a timer, a non-empty cache has its task pending,
      and no link is held to the age of 660 seconds. */
  lemma {:induction false} RunBoundsAge(hasHandler: bool, began: nat, run: seq<Event>)
    requires Exec(Start(hasHandler, began), run).Some?
    ensures var t := Exec(Start(hasHandler, began), run).value;
      hasHandler ==> Timely(t.cache, t.now) && forall l :: l in t.cache.caches ==> t.now - l.timeStamp * 1000 < 660000
  {
    if run != [] {
      RunBoundsAge(hasHandler, began, run[..|run| - 1]);
      RunStaysOrdered(hasHandler, began, run[..|run| - 1]);
      if hasHandler {
        NextTimely(Exec(Start(hasHandler, began), run[..|run| - 1]).value, run[|run| - 1]);
      }
    }
  }

  /** Without a handler nothing ages: a link can be held to any age. */
  lemma {:induction false} NoHandlerNoBound(info: DeferredLinkInfo, age: nat)
    requires info.timeStamp == 0
    ensures var t := Exec(Start(false, 0), [Put(info), Advance(age)]);
      t.Some? && t.value.cache.caches == [info] && t.value.now - info.timeStamp * 1000 == age
  {
    var run := [Put(info), Advance(age)];
    assert run[..1] == [Put(info)];
    assert [Put(info)][..0] == [];
    assert Exec(Start(false, 0), [Put(info)]) == Some(Next(Start(false, 0), Put(info)));
  }

  lemma {:induction false} PutConserves(c: seq<DeferredLinkInfo>, info: DeferredLinkInfo)
    ensures multiset([info] + Kept(c, info)) + multiset(Filter(c, SameKey(info))) + multiset(Evicted(c, info))
         == multiset(c) + multiset{info}
  {
    FilterSplits(c, SameKey(info), OtherKey(info));
    var rest := Filter(c, OtherKey(info));
    assert rest == Kept(c, info) + Evicted(c, info);
  }

  lemma {:induction false} LeavingBalances(
    c: seq<DeferredLinkInfo>, p: DeferredLinkInfo -> bool, q: DeferredLinkInfo -> bool, way: Way)
    requires forall x :: x in c ==> q(x) == !p(x)
    ensures multiset(Filter(c, q)) + multiset(Links(Leaving(Filter(c, p), way))) == multiset(c)
  {
    FilterSplits(c, p, q);
    assert Links(Leaving(Filter(c, p), way)) == Filter(c, p);
  }

  lemma {:induction false} PutBalances(t: Timed, info: DeferredLinkInfo)
    ensures multiset(NextCache(t, Put(info)).caches) + multiset(Links(Departing(t, Put(info))))
         == multiset(t.cache.caches) + multiset([info])
  {
    var c := t.cache.caches;
    PutConserves(c, info);
    LinksOfBoth(Filter(c, SameKey(info)), Evicted(c, info));
  }

  lemma {:induction false} LinksOfBoth(replaced: seq<DeferredLinkInfo>, evicted: seq<DeferredLinkInfo>)
    ensures Links(Leaving(replaced, ByReplacement) + Leaving(evicted, ByEviction)) == replaced + evicted
  {
  }

  lemma {:induction false} GetBalances(
    t: Timed, bundleName: string, domains: seq<string>, accepts: string -> bool, resv: bool)
    ensures var e := Get(bundleName, domains, accepts, resv);
      multiset(NextCache(t, e).caches) + multiset(Links(Departing(t, e))) == multiset(t.cache.caches)
  {
    if resv || NothingToMatch(t.cache, bundleName, domains) {
      assert Links(Departing(t, Get(bundleName, domains, accepts, resv))) == [];
    } else {
      LeavingBalances(t.cache.caches, Wanted(domains, accepts), Unwanted(domains, accepts), ByPop);
    }
  }

  /** What an event takes out of the list, or adds to it, is what it says. */
  lemma {:induction false} NextBalances(t: Timed, e: Event)
    ensures multiset(NextCache(t, e).caches) + multiset(Links(Departing(t, e)))
         == multiset(t.cache.caches) + multiset(if e.Put? then [e.info] else [])
  {
    var c := t.cache.caches;
    match e
    case Put(info) => PutBalances(t, info);
    case Get(b, d, accepts, resv) => GetBalances(t, b, d, accepts, resv);
    case Remove(info) => LeavingBalances(c, SameKey(info), OtherKey(info), ByRemove);
    case Advance(_) => assert Links(Departing(t, e)) == [];
    case Fire => LeavingBalances(c, Aged(Seconds(t.now)), Young(Seconds(t.now)), ByAge);
  }

  lemma {:induction false} Rebalance<T>(
    held: multiset<T>, gone: multiset<T>, held': multiset<T>, leaving: multiset<T>, added: multiset<T>)
    requires held' + leaving == held + added
    ensures held + gone + added == held' + (gone + leaving)
  {
    assert held + gone + added == held + added + gone;
  }

  lemma {:induction false} NextConserves(t: Timed, e: Event)
    requires multiset(t.stored) == multiset(t.cache.caches) + multiset(Links(t.left))
    ensures multiset(Next(t, e).stored) == multiset(Next(t, e).cache.caches) + multiset(Links(Next(t, e).left))
  {
    var added := if e.Put? then [e.info] else [];
    NextBalances(t, e);
    Rebalance(multiset(t.cache.caches), multiset(Links(t.left)), multiset(NextCache(t, e).caches),
              multiset(Links(Departing(t, e))), multiset(added));
    LinksAppend(t.left, Departing(t, e));
    assert Next(t, e).stored == t.stored + added;
  }

  lemma {:induction false} LinksAppend(a: seq<Departure>, b: seq<Departure>)
    ensures Links(a + b) == Links(a) + Links(b)
  {
  }

  /** Over every run each link stored is still held or has departed, once and in
      one of the five ways: popped, removed, replaced by a later put, evicted, aged. */
  lemma {:induction false} RunConserves(hasHandler: bool, began: nat, run: seq<Event>)
    requires Exec(Start(hasHandler, began), run).Some?
    ensures var t := Exec(Start(hasHandler, began), run).value;
      multiset(t.stored) == multiset(t.cache.caches) + multiset(Links(t.left))
  {
    if run != [] {
      RunConserves(hasHandler, began, run[..|run| - 1]);
      NextConserves(Exec(Start(hasHandler, began), run[..|run| - 1]).value, run[|run| - 1]);
    }
  }

  // ---------- what one get or ageing does in a reachable cache ----------

  /** In a sorted list the links that are old enough are a suffix. */
  lemma {:induction false} AgeingCutsSuffix(c: seq<DeferredLinkInfo>, second: nat)
    requires Descending(c)
    ensures |Filter(c, Young(second))| <= |c|
    ensures Filter(c, Young(second)) == c[..|Filter(c, Young(second))|]
    ensures Filter(c, Aged(second)) == c[|Filter(c, Young(second))|..]
  {
    if c != [] {
      if Young(second)(c[0]) {
        AgeingCutsSuffix(c[1..], second);
        assert c == [c[0]] + c[1..];
      } else {
        FilterNone(c, Young(second));
        FilterAll(c, Aged(second));
      }
    }
  }

  lemma {:induction false} FirstOfFilter(c: seq<DeferredLinkInfo>, p: DeferredLinkInfo -> bool) returns (i: nat)
    requires Filter(c, p) != []
    ensures i < |c| && Filter(c, p)[0] == c[i] && p(c[i])
    ensures forall j :: 0 <= j < i ==> !p(c[j])
  {
    if p(c[0]) {
      i := 0;
    } else {
      i := FirstOfFilter(c[1..], p);
      i := i + 1;
    }
  }

  /** The first link with `p`, than which none with `p` is newer. */
  ghost predicate Newest(c: seq<DeferredLinkInfo>, p: DeferredLinkInfo -> bool, i: int) {
    && 0 <= i < |c| && p(c[i])
    && (forall j :: 0 <= j < i ==> !p(c[j]))
    && (forall l :: l in c && p(l) ==> l.timeStamp <= c[i].timeStamp)
  }

  lemma {:induction false} FirstIsNewest(c: seq<DeferredLinkInfo>, p: DeferredLinkInfo -> bool) returns (i: nat)
    requires Descending(c) && Filter(c, p) != []
    ensures Newest(c, p, i) && Filter(c, p)[0] == c[i]
  {
    i := FirstOfFilter(c, p);
    forall x | x in c && p(x) ensures x.timeStamp <= c[i].timeStamp {
      var j :| 0 <= j < |c| && c[j] == x;
    }
  }

  /** A get that may match returns the url of the first wanted link, than which no
      wanted link is newer, or the empty string if there is none. Reserving, it
      changes nothing; otherwise exactly the wanted links go and the rest keep
      their order and the timer its due time. */
  lemma {:induction false} GetReturnsNewest(
    t: Timed, bundleName: string, domains: seq<string>, accepts: string -> bool, resv: bool)
    requires Ordered(t.cache.caches, Seconds(t.now)) && bundleName != "" && domains != []
    ensures
      var c, p := t.cache.caches, Wanted(domains, accepts);
      var url := AfterGet(t.cache, bundleName, domains, accepts, resv).1;
      if exists l :: l in c && p(l) then exists i :: Newest(c, p, i) && url == c[i].url else url == ""
    ensures
      var c, after := t.cache.caches, AfterGet(t.cache, bundleName, domains, accepts, resv).0;
      if resv then after == t.cache
      else
        && after == t.cache.(caches := after.caches)
        && exists at :: Selects(c, Unwanted(domains, accepts), at, after.caches)
  {
    var c, p := t.cache.caches, Wanted(domains, accepts);
    var at := FilterSelects(c, Unwanted(domains, accepts));
    if l :| l in c && p(l) {
      FilterMember(c, p, l);
      var i := FirstIsNewest(c, p);
    } else {
      FilterNone(c, p);
    }
  }

  // ---------- in seconds, fields and numbers ----------

  /** What is left after a removal. */
  lemma {:induction false} RemovesExactly(s: LinkCache, info: DeferredLinkInfo)
    ensures
      var r := AfterRemove(s, info);
      && r == s.(caches := r.caches)
      && (forall l :: l in r.caches <==> l in s.caches && !(l.domain == info.domain && l.url == info.url))
      && exists at :: Selects(s.caches, OtherKey(info), at, r.caches)
  {
    var at := FilterSelects(s.caches, OtherKey(info));
    forall l ensures l in AfterRemove(s, info).caches <==>
      l in s.caches && !(l.domain == info.domain && l.url == info.url)
    {
      FilterMember(s.caches, OtherKey(info), l);
    }
  }

  /** Link `i` is the first of one of the domains that is accepted. */
  ghost predicate FirstTaken(c: seq<DeferredLinkInfo>, domains: seq<string>, accepts: string -> bool, i: int) {
    && 0 <= i < |c| && c[i].domain in domains && accepts(c[i].url)
    && forall j :: 0 <= j < i ==> !(c[j].domain in domains && accepts(c[j].url))
  }

  /** A get with a bundle name that does not reserve takes exactly the links of the
      domains that the bundle accepts; any other changes nothing, and without a
      bundle name nothing is found. */
  lemma {:induction false} GetsExactly(
    s: LinkCache, bundleName: string, domains: seq<string>, accepts: string -> bool, resv: bool)
    ensures
      var (r, url) := AfterGet(s, bundleName, domains, accepts, resv);
      && r == s.(caches := r.caches)
      && (bundleName == "" || resv ==> r == s) && (bundleName == "" ==> url == "")
      && (bundleName != "" && !resv ==>
           forall l :: l in r.caches <==> l in s.caches && !(l.domain in domains && accepts(l.url)))
      && (bundleName != "" ==>
           if exists l :: l in s.caches && l.domain in domains && accepts(l.url)
           then exists i :: 0 <= i < |s.caches| && url == s.caches[i].url && FirstTaken(s.caches, domains, accepts, i)
           else url == "")
  {
    forall l ensures l in Filter(s.caches, Unwanted(domains, accepts))
      <==> l in s.caches && !(l.domain in domains && accepts(l.url))
    {
      FilterMember(s.caches, Unwanted(domains, accepts), l);
    }
    var p := Wanted(domains, accepts);
    assert forall l :: p(l) <==> l.domain in domains && accepts(l.url);
    if l :| l in s.caches && p(l) {
      FilterMember(s.caches, p, l);
      var i := FirstOfFilter(s.caches, p);
      assert FirstTaken(s.caches, domains, accepts, i);
    } else {
      FilterNone(s.caches, p);
    }
  }

  /** The timer's task keeps a link if and only if it is younger than 600 seconds, and
      runs again after a minute as long as links are left. */
  lemma {:induction false} AgesExactly(s: LinkCache, now: nat)
    ensures
      var r := AfterAge(s, now);
      && (forall l :: l in r.caches <==> l in s.caches && now / 1000 - l.timeStamp < 600)
      && r.hasHandler == s.hasHandler
      && r.due == if r.caches != [] && s.hasHandler then Some(now + 60_000) else None
  {
    forall l ensures l in Filter(s.caches, Young(Seconds(now))) <==> l in s.caches && now / 1000 - l.timeStamp < 600 {
      FilterMember(s.caches, Young(Seconds(now)), l);
    }
  }

  /** So over every timed run a link leaves by age at the tick of a second at least 600
      after its stamp, and one that old does leave. */
  lemma {:induction false} LeavesByAgeExactly(hasHandler: bool, began: nat, run: seq<Event>, l: DeferredLinkInfo)
    requires Exec(Start(hasHandler, began), run).Some? && Enabled(Exec(Start(hasHandler, began), run).value, Fire)
    ensures
      var t := Exec(Start(hasHandler, began), run).value;
      && (Departure(l, ByAge) in Departing(t, Fire) <==> l in t.cache.caches && t.now / 1000 - l.timeStamp >= 600)
      && (l in Next(t, Fire).cache.caches <==> l in t.cache.caches && t.now / 1000 - l.timeStamp < 600)
  {
    var t := Exec(Start(hasHandler, began), run).value;
    AgesExactly(t.cache, t.now);
    var aged := Filter(t.cache.caches, Aged(Seconds(t.now)));
    FilterMember(t.cache.caches, Aged(Seconds(t.now)), l);
    if l in aged {
      var i :| 0 <= i < |aged| && aged[i] == l;
      assert Departing(t, Fire)[i] == Departure(l, ByAge);
    }
    if Departure(l, ByAge) in Departing(t, Fire) {
      var i :| 0 <= i < |aged| && Departing(t, Fire)[i] == Departure(l, ByAge);
      assert aged[i] == l;
    }
  }

  /** No other event takes a link by age. */
  lemma {:induction false} OnlyTicksAge(t: Timed, e: Event, l: DeferredLinkInfo)
    requires !e.Fire?
    ensures Departure(l, ByAge) !in Departing(t, e)
  {
  }

  /** A put into an empty cache starts the timer, a minute ahead; into any other it
      leaves the timer alone. */
  lemma {:induction false} PutStartsTimer(s: LinkCache, info: DeferredLinkInfo, now: nat)
    ensures
      var r := AfterPut(s, info, now);
      && r.caches != [] && r.caches[0] == info && r.hasHandler == s.hasHandler
      && r.due == if s.caches == [] && s.hasHandler then Some(now + 60_000) else s.due
  {
  }
}
