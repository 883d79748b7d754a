/**
 App details looked up by url: a least-recently-used cache, emptied when older
 than five minutes, in front of a database that may change at any time.
 Times are in seconds.
 */
module AppDetails {
  import opened VerifyTypes
  import opened LruCache
  import opened Recency
  import opened Seqs

  const CACHE_TIME_S: int := 300
  const MAX_CACHE_CNT: nat := 10
  const PATH: string := "path"
  const PATH_START_WITH: string := "pathStartWith"
  const PATH_REGEX: string := "pathRegex"

  datatype AppDetailsRdbItem = AppDetailsRdbItem(
    bundleName: string, domain: string, scheme: string, path: string, pathType: string)

  datatype AppDetailInfo = AppDetailInfo(bundleName: string, skillUri: SkillUri)

  /** The url matcher: the index of the first of the uris that matches, if any. */
  type Matcher = m: seq<SkillUri> -> Option<nat>
    | forall uris :: m(uris).Some? ==> m(uris).value < |uris|
    witness (uris: seq<SkillUri>) => None

  function Detail(item: AppDetailsRdbItem): AppDetailInfo {
    AppDetailInfo(
      item.bundleName,
      SkillUri(item.scheme, item.domain,
               if item.pathType == PATH then item.path else "",
               if item.pathType == PATH_START_WITH then item.path else "",
               if item.pathType == PATH_REGEX then item.path else ""))
  }

  function Details(items: seq<AppDetailsRdbItem>): seq<AppDetailInfo> {
    seq(|items|, i requires 0 <= i < |items| => Detail(items[i]))
  }

  function Uris(details: seq<AppDetailInfo>): seq<SkillUri> {
    seq(|details|, i requires 0 <= i < |details| => details[i].skillUri)
  }

  function FirstMatch(details: seq<AppDetailInfo>, matcher: Matcher): Option<AppDetailInfo> {
    match matcher(Uris(details))
    case None => None
    case Some(index) => Some(details[index])
  }

  /** The database's own answer: the bundle of the first matching row. `rows` is
      `None` when the query fails. */
  function RdbAnswer(rows: Option<seq<AppDetailsRdbItem>>, matcher: Matcher): Option<string> {
    if rows.None? then None
    else
      match FirstMatch(Details(rows.value), matcher)
      case None => None
      case Some(detail) => Some(detail.bundleName)
  }

  // ---------- what a query means ----------

  datatype DetailsCache = DetailsCache(beginTime: int, lru: seq<(string, string)>)

  predicate Expired(s: DetailsCache, now: int) {
    now - s.beginTime > CACHE_TIME_S
  }

  /** The name found in the cache at `now`. */
  function Cached(s: DetailsCache, url: string, now: int): Option<string> {
    if Expired(s, now) then None else Lookup(s.lru, url)
  }

  function AfterCache(s: DetailsCache, url: string, now: int): DetailsCache {
    if Expired(s, now) then DetailsCache(now, []) else s.(lru := Accessed(s.lru, url))
  }

  function AfterRdb(s: DetailsCache, url: string, answer: Option<string>): DetailsCache {
    if answer.None? then s else s.(lru := Stored(s.lru, MAX_CACHE_CNT, url, answer.value))
  }

  function AfterQuery(s: DetailsCache, url: string, now: int, answer: Option<string>): DetailsCache {
    var t := AfterCache(s, url, now);
    if Cached(s, url, now).Some? then t else AfterRdb(t, url, answer)
  }

  function Answered(s: DetailsCache, url: string, now: int, answer: Option<string>): Option<string> {
    if Cached(s, url, now).Some? then Cached(s, url, now) else answer
  }

  // ---------- the class ----------

  method CollectDetails(rdbDetails: seq<AppDetailsRdbItem>) returns (appDetails: seq<AppDetailInfo>)
    ensures appDetails == Details(rdbDetails)
  {
    appDetails := [];
    for i := 0 to |rdbDetails|
      invariant |appDetails| == i
      invariant forall k :: 0 <= k < i ==> appDetails[k] == Detail(rdbDetails[k])
    {
      var item := rdbDetails[i];
      var skillUri := SkillUri(item.scheme, item.domain, "", "", "");
      if item.pathType == PATH {
        skillUri := skillUri.(path := item.path);
      }
      if item.pathType == PATH_START_WITH {
        skillUri := skillUri.(pathStartWith := item.path);
      }
      if item.pathType == PATH_REGEX {
        skillUri := skillUri.(pathRegex := item.path);
      }
      appDetails := appDetails + [AppDetailInfo(item.bundleName, skillUri)];
    }
  }

  /** The filter hands all uris to the matcher and keeps the detail it points at. */
  method FirstMatching(appDetails: seq<AppDetailInfo>, matcher: Matcher) returns (first: Option<AppDetailInfo>)
    ensures first == FirstMatch(appDetails, matcher)
  {
    var uris: seq<SkillUri> := [];
    for i := 0 to |appDetails|
      invariant |uris| == i
      invariant forall k :: 0 <= k < i ==> uris[k] == appDetails[k].skillUri
    {
      uris := uris + [appDetails[i].skillUri];
    }
    assert uris == Uris(appDetails);
    var index := matcher(uris);
    first := if index.None? then None else Some(appDetails[index.value]);
  }

  class AppDetailsDataMgr {
    const lruCache: LruCacheUtil<string, string>
    var cacheBeginTime: int

    ghost predicate Valid()
      reads this, lruCache
    {
      lruCache.Valid() && lruCache.maxCap == MAX_CACHE_CNT
    }

    ghost function State(): DetailsCache
      reads this, lruCache
    {
      DetailsCache(cacheBeginTime, lruCache.Contents())
    }

    constructor ()
      ensures Valid() && fresh(lruCache) && State() == DetailsCache(0, []) && lruCache.maxCap == 10
    {
      lruCache := new LruCacheUtil(MAX_CACHE_CNT);
      cacheBeginTime := 0;
    }

    method QueryAppDetailsWantByCache(url: string, now: int) returns (bundleName: Option<string>)
      requires Valid()
      modifies this, lruCache
      ensures Valid()
      ensures bundleName == Cached(old(State()), url, now)
      ensures State() == AfterCache(old(State()), url, now)
    {
      if now - cacheBeginTime > CACHE_TIME_S {
        cacheBeginTime := now;
        lruCache.Clear();
        return None;
      }
      bundleName := lruCache.Get(url);
    }

    method QueryAppDetailsWantByRdb(url: string, rows: Option<seq<AppDetailsRdbItem>>, matcher: Matcher)
      returns (bundleName: Option<string>)
      requires Valid()
      modifies this, lruCache
      ensures Valid()
      ensures bundleName == RdbAnswer(rows, matcher)
      ensures State() == AfterRdb(old(State()), url, bundleName)
    {
      if rows.None? {
        return None;
      }
      var appDetails := CollectDetails(rows.value);
      var first := FirstMatching(appDetails, matcher);
      if first.None? {
        return None;
      }
      bundleName := Some(first.value.bundleName);
      lruCache.Put(url, bundleName.value);
    }

    /** `None` is the source's QUERY_FAIL. */
    method QueryAppDetailsWant(url: string, now: int, rows: Option<seq<AppDetailsRdbItem>>, matcher: Matcher)
      returns (bundleName: Option<string>)
      requires Valid()
      modifies this, lruCache
      ensures Valid()
      ensures bundleName == Answered(old(State()), url, now, RdbAnswer(rows, matcher))
      ensures State() == AfterQuery(old(State()), url, now, RdbAnswer(rows, matcher))
    {
      bundleName := QueryAppDetailsWantByCache(url, now);
      if bundleName.Some? {
        return;
      }
      bundleName := QueryAppDetailsWantByRdb(url, rows, matcher);
    }
  }

  // ---------- runs over a changing database ----------

  /** One query, with the answer the database would give at that moment. */
  datatype Query = Query(url: string, now: int, answer: Option<string>)

  function AfterRun(run: seq<Query>): DetailsCache {
    if run == [] then DetailsCache(0, [])
    else
      var q := run[|run| - 1];
      AfterQuery(AfterRun(run[..|run| - 1]), q.url, q.now, q.answer)
  }

  function Times(run: seq<Query>): (times: seq<int>)
    ensures |times| == |run| && forall i :: 0 <= i < |run| ==> times[i] == run[i].now
  {
    seq(|run|, i requires 0 <= i < |run| => run[i].now)
  }

  /** When the cache's period began, and the query that began it: the last one that
      cleared the cache, or the first query of all. Only the clock decides. */
  function Period(times: seq<int>): (r: (int, nat))
    ensures r.1 <= |times|
  {
    if times == [] then (0, 0)
    else
      var last, before := times[|times| - 1], Period(times[..|times| - 1]);
      if last - before.0 > 300 then (last, |times| - 1) else before
  }

  lemma {:induction false} PeriodBegins(run: seq<Query>)
    ensures AfterRun(run).beginTime == Period(Times(run)).0
  {
    if run != [] {
      PeriodBegins(run[..|run| - 1]);
      assert Times(run)[..|run| - 1] == Times(run[..|run| - 1]);
    }
  }

  /** The database said `name` for `url` at query `i`. */
  predicate SaidAt(run: seq<Query>, i: int, url: string, name: string) {
    0 <= i < |run| && run[i].url == url && run[i].answer == Some(name)
  }

  /** Every name in the cache was said in the cache's period. */
  ghost predicate Sound(run: seq<Query>) {
    forall url :: Lookup(AfterRun(run).lru, url).Some? ==>
      exists i :: SaidAt(run, i, url, Lookup(AfterRun(run).lru, url).value) && Period(Times(run)).1 <= i
  }

  lemma {:induction false} ReachableBounds(run: seq<Query>)
    ensures |AfterRun(run).lru| <= 10 && Distinct(Keys(AfterRun(run).lru))
  {
    if run != [] {
      ReachableBounds(run[..|run| - 1]);
      var s, q := AfterRun(run[..|run| - 1]), run[|run| - 1];
      AccessBounds(s.lru, q.url);
      var t := AfterCache(s, q.url, q.now);
      if q.answer.Some? { StoreBounds(t.lru, q.url, q.answer.value); }
    }
  }

  lemma {:induction false} AccessBounds(c: seq<(string, string)>, url: string)
    requires |c| <= MAX_CACHE_CNT && Distinct(Keys(c))
    ensures |Accessed(c, url)| <= MAX_CACHE_CNT && Distinct(Keys(Accessed(c, url)))
    ensures forall x :: Lookup(Accessed(c, url), x) == Lookup(c, x)
  {
    LookupKeys(c, url);
    if Lookup(c, url).Some? {
      forall x ensures Lookup(Accessed(c, url), x) == Lookup(c, x) {
        AccessedMeaning(c, MAX_CACHE_CNT, url, x);
      }
      AccessedMeaning(c, MAX_CACHE_CNT, url, url);
      TouchBounds(Keys(c), MAX_CACHE_CNT, url);
    }
  }

  lemma {:induction false} StoreBounds(c: seq<(string, string)>, url: string, name: string)
    requires |c| <= MAX_CACHE_CNT && Distinct(Keys(c))
    ensures var d := Stored(c, MAX_CACHE_CNT, url, name);
      && |d| <= MAX_CACHE_CNT && Distinct(Keys(d))
      && forall x :: Lookup(d, x).Some? ==>
        Lookup(d, x) == Lookup(c, x) || (x == url && Lookup(d, x) == Some(name))
  {
    var d := Stored(c, MAX_CACHE_CNT, url, name);
    StoredMeaning(c, MAX_CACHE_CNT, url, name, url);
    TouchBounds(Keys(c), MAX_CACHE_CNT, url);
    forall x | Lookup(d, x).Some? ensures Lookup(d, x) == Lookup(c, x) || (x == url && Lookup(d, x) == Some(name)) {
      LookupKeys(d, x);
      StoredMeaning(c, MAX_CACHE_CNT, url, name, x);
    }
  }

  lemma {:induction false} ReachableSound(run: seq<Query>)
    ensures Sound(run)
  {
    if run != [] {
      var before, q := run[..|run| - 1], run[|run| - 1];
      ReachableSound(before);
      assert run == before + [q];
      forall url | Lookup(AfterRun(run).lru, url).Some?
        ensures exists i :: SaidAt(run, i, url, Lookup(AfterRun(run).lru, url).value) && Period(Times(run)).1 <= i
      {
        EntrySound(before, q, url);
      }
    }
  }

  lemma {:induction false} EntrySound(before: seq<Query>, q: Query, url: string)
    requires Sound(before) && Lookup(AfterRun(before + [q]).lru, url).Some?
    ensures
      var run := before + [q];
      exists i :: SaidAt(run, i, url, Lookup(AfterRun(run).lru, url).value) && Period(Times(run)).1 <= i
  {
    var run, s := before + [q], AfterRun(before);
    assert run[..|before|] == before && Times(run)[..|before|] == Times(before);
    var t, u := AfterCache(s, q.url, q.now), AfterQuery(s, q.url, q.now, q.answer);
    ReachableBounds(before);
    PeriodBegins(before);
    AccessBounds(s.lru, q.url);
    if q.answer.Some? { StoreBounds(t.lru, q.url, q.answer.value); }
    if Lookup(u.lru, url) == Lookup(t.lru, url) {
      var i :| SaidAt(before, i, url, Lookup(s.lru, url).value) && Period(Times(before)).1 <= i;
      assert SaidAt(run, i, url, Lookup(u.lru, url).value);
    } else {
      assert SaidAt(run, |before|, url, Lookup(u.lru, url).value);
    }
  }

  // ---------- how old an answer can be ----------

  /** `time` is at most five minutes before `now`. */
  predicate Recently(time: int, now: int) {
    now - 300 <= time <= now
  }

  /** Every name served at `now` was the database's answer for that url at most five
      minutes earlier. */
  ghost predicate ServesFresh(run: seq<Query>, now: int) {
    forall url :: Cached(AfterRun(run), url, now).Some? ==>
      exists i :: SaidAt(run, i, url, Cached(AfterRun(run), url, now).value) && Recently(run[i].now, now)
  }

  /** The cache has expired, or every query of its period was asked at most five
      minutes before `now`. */
  ghost predicate ClockServesFresh(times: seq<int>, now: int) {
    || now - Period(times).0 > 300
    || forall i :: Period(times).1 <= i < |times| ==> Recently(times[i], now)
  }

  lemma {:induction false} FreshIfClock(run: seq<Query>, now: int)
    requires ClockServesFresh(Times(run), now)
    ensures ServesFresh(run, now)
  {
    PeriodBegins(run);
    ReachableSound(run);
    forall url | Cached(AfterRun(run), url, now).Some?
      ensures exists i :: SaidAt(run, i, url, Cached(AfterRun(run), url, now).value) && Recently(run[i].now, now)
    {
      var i :| SaidAt(run, i, url, Lookup(AfterRun(run).lru, url).value) && Period(Times(run)).1 <= i;
      assert Recently(Times(run)[i], now);
    }
  }

  /** Queries at the given times, of which only query `j` gets an answer. */
  function OneAnswer(times: seq<int>, j: nat): (run: seq<Query>)
    ensures Times(run) == times
  {
    var run := seq(|times|, k requires 0 <= k < |times| =>
      if k == j then Query("a", times[k], Some("name")) else Query("b", times[k], None));
    assert forall k :: 0 <= k < |times| ==> Times(run)[k] == times[k];
    run
  }

  lemma {:induction false} OneAnswerIsKept(times: seq<int>, j: nat)
    ensures AfterRun(OneAnswer(times, j)).lru == if Period(times).1 <= j < |times| then [("a", "name")] else []
  {
    if times != [] {
      var n, run := |times| - 1, OneAnswer(times, j);
      assert run[..n] == OneAnswer(times[..n], j);
      OneAnswerIsKept(times[..n], j);
      PeriodBegins(run[..n]);
      var s := AfterRun(run[..n]);
      assert AfterRun(run) == AfterQuery(s, run[n].url, run[n].now, run[n].answer);
      if n == j {
        AskedFirst(s, times[n]);
      } else {
        AskedOther(s, times[n]);
      }
    }
  }

  lemma {:induction false} AskedFirst(s: DetailsCache, now: int)
    requires s.lru == []
    ensures AfterQuery(s, "a", now, Some("name")).lru == [("a", "name")]
  {
  }

  lemma {:induction false} AskedOther(s: DetailsCache, now: int)
    requires s.lru == [] || s.lru == [("a", "name")]
    ensures AfterQuery(s, "b", now, None).lru == if Expired(s, now) then [] else s.lru
  {
    assert Lookup([("a", "name")], "b") == None;
  }

  /** Exactly when names are served fresh, for every sequence of query times and any
      database: the clock alone decides. */
  lemma {:induction false} StalenessExact(times: seq<int>, now: int)
    ensures (forall run :: Times(run) == times ==> ServesFresh(run, now)) <==> ClockServesFresh(times, now)
  {
    if ClockServesFresh(times, now) {
      forall run | Times(run) == times ensures ServesFresh(run, now) {
        FreshIfClock(run, now);
      }
    } else {
      var j: nat :| Period(times).1 <= j < |times| && !Recently(times[j], now);
      OneAnswerServesStale(times, j, now);
    }
  }

  lemma {:induction false} OneAnswerServesStale(times: seq<int>, j: nat, now: int)
    requires now - Period(times).0 <= 300 && Period(times).1 <= j < |times| && !Recently(times[j], now)
    ensures Cached(AfterRun(OneAnswer(times, j)), "a", now) == Some("name") && !ServesFresh(OneAnswer(times, j), now)
  {
    var run := OneAnswer(times, j);
    PeriodBegins(run);
    OneAnswerIsKept(times, j);
    forall i | SaidAt(run, i, "a", "name") ensures !Recently(run[i].now, now) {
      assert i == j && run[j].now == Times(run)[j];
    }
  }

  /** A clock that starts after 1970 and never goes back. */
  predicate Monotone(run: seq<Query>) {
    && (forall i :: 0 <= i < |run| ==> 0 <= run[i].now)
    && (forall i, j :: 0 <= i < j < |run| ==> run[i].now <= run[j].now)
  }

  lemma {:induction false} PeriodOfMonotone(times: seq<int>)
    requires forall i :: 0 <= i < |times| ==> 0 <= times[i]
    requires forall i, j :: 0 <= i < j < |times| ==> times[i] <= times[j]
    ensures forall i :: Period(times).1 <= i < |times| ==> Period(times).0 <= times[i]
  {
    if times != [] {
      PeriodOfMonotone(times[..|times| - 1]);
    }
  }

  /** However the database changes, with a clock that never goes back every name
      served from the cache was the database's own answer for that url at most
      300 seconds earlier. */
  lemma {:induction false} StalenessBounded(run: seq<Query>, now: int)
    requires Monotone(run) && (forall i :: 0 <= i < |run| ==> run[i].now <= now)
    ensures ServesFresh(run, now)
  {
    PeriodOfMonotone(Times(run));
    FreshIfClock(run, now);
  }

  /** With a database that does not change, the cache cannot be told from it,
      whatever the clock does. */
  lemma {:induction false} CacheTransparent(run: seq<Query>, url: string, now: int, answer: Option<string>)
    requires forall i :: 0 <= i < |run| && run[i].url == url ==> run[i].answer == answer
    ensures Answered(AfterRun(run), url, now, answer) == answer
  {
    ReachableSound(run);
    if Cached(AfterRun(run), url, now).Some? {
      var i :| SaidAt(run, i, url, Lookup(AfterRun(run).lru, url).value) && Period(Times(run)).1 <= i;
    }
  }

  /** A clock set back by more than five minutes: a name is served that nobody
      said in the last five minutes. */
  lemma {:induction false} BackwardClockServesOldAnswer(time: int)
    requires time > 300
    ensures
      var run := [Query("a", time, Some("name")), Query("b", 0, None)];
      Cached(AfterRun(run), "a", 300) == Some("name") && !ServesFresh(run, 300)
  {
    var times := [time, 0];
    assert times[..1] == [time] && [time][..0] == [];
    assert OneAnswer(times, 0) == [Query("a", time, Some("name")), Query("b", 0, None)];
    assert Period([time]) == (time, 0);
    OneAnswerServesStale(times, 0, 300);
  }

  // ---------- field by field ----------

  /** A row's path is of one kind only, by its type. */
  lemma {:induction false} DetailsExactly(items: seq<AppDetailsRdbItem>, i: nat)
    requires i < |items|
    ensures |Details(items)| == |items|
    ensures
      var d, row := Details(items)[i], items[i];
      && d.bundleName == row.bundleName && d.skillUri.host == row.domain && d.skillUri.scheme == row.scheme
      && d.skillUri.path == (if row.pathType == "path" then row.path else "")
      && d.skillUri.pathStartWith == (if row.pathType == "pathStartWith" then row.path else "")
      && d.skillUri.pathRegex == (if row.pathType == "pathRegex" then row.path else "")
  {
  }

  /** The database answers the bundle of the row whose uri the matcher picks, among
      the uris of all rows in their order; a failed query or no match is no answer. */
  lemma {:induction false} AnswersExactly(rows: Option<seq<AppDetailsRdbItem>>, matcher: Matcher, uris: seq<SkillUri>)
    requires rows.Some? ==> |uris| == |rows.value|
    requires rows.Some? ==> forall i :: 0 <= i < |uris| ==> uris[i] == Details(rows.value)[i].skillUri
    ensures RdbAnswer(rows, matcher) ==
      if rows.None? || matcher(uris).None? then None else Some(rows.value[matcher(uris).value].bundleName)
  {
    if rows.Some? {
      assert Uris(Details(rows.value)) == uris;
    }
  }

  /** A query later than 300 seconds after the cache began clears it and begins it
      anew; the database is asked exactly when the cache has no name; what it answers
      is kept under the url. */
  lemma {:induction false} QueriesExactly(s: DetailsCache, url: string, now: int, answer: Option<string>)
    ensures
      var kept := if now - s.beginTime > 300 then [] else s.lru;
      var t := AfterQuery(s, url, now, answer);
      && t.beginTime == (if now - s.beginTime > 300 then now else s.beginTime)
      && Answered(s, url, now, answer) == (if Lookup(kept, url).Some? then Lookup(kept, url) else answer)
      && t.lru == if Lookup(kept, url).None? && answer.Some? then Stored(kept, 10, url, answer.value)
                  else Accessed(kept, url)
  {
  }
}
