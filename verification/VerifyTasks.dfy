/**
 One verification task: which hosts it retries, what a response writes, and when
 it saves. The callbacks of different hosts may interleave; each is taken as two
 atomic steps, classifying the response and finishing the host.
 */
module VerifyTasks {
  import opened Decimal
  import opened DomainVerifier
  import opened VerifyTypes

  const CLIENT_ERR_MAX_RETRY_COUNTS: int := 7
  const CLIENT_ERR_BASE_RETRY_DURATION_S: int := 3600

  // ---------- which hosts are retried ----------

  function Pow2(n: nat): (p: nat)
    ensures p >= 1
  {
    if n == 0 then 1 else 2 * Pow2(n - 1)
  }

  /** A negative count truncates the fraction. Beyond the range of int64 the
      conversion is taken to saturate. */
  function CalcRetryDuration(verifyCnt: int): int {
    if verifyCnt < 0 then CLIENT_ERR_BASE_RETRY_DURATION_S / Pow2(-verifyCnt)
    else
      var duration := Pow2(verifyCnt) * CLIENT_ERR_BASE_RETRY_DURATION_S;
      if duration <= INT64_MAX then duration else INT64_MAX
  }

  predicate HandleFailureClientError(verifyTime: string, verifyCnt: int, now: nat) {
    if verifyTime == "" then true
    else
      match ToInt64(verifyTime)
      case None => false
      case Some(last) => now - last > CalcRetryDuration(verifyCnt)
  }

  predicate IsNeedRetry(info: VerifyStatus, now: nat) {
    if info.status == STATE_SUCCESS || info.status == FORBIDDEN_FOREVER then false
    else if info.status == FAILURE_CLIENT_ERROR then HandleFailureClientError(info.verifyTime, info.retryCnt, now)
    else true
  }

  function RetrySet(hosts: HostVerifyStatusMap, now: nat): set<string> {
    set h | h in hosts && IsNeedRetry(hosts[h], now)
  }

  /** A client error stamped at second `t` with count `c` is retried at second `n`
      exactly when more than 3600 * 2^c seconds have passed. */
  lemma {:induction false} RetryAfterBackoff(e: VerifyStatus, t: nat, n: nat)
    requires e.status == FAILURE_CLIENT_ERROR && e.verifyTime == ToString(t) && e.retryCnt >= 0
    requires t <= INT64_MAX && n <= INT64_MAX
    ensures IsNeedRetry(e, n) <==> n - t > 3600 * Pow2(e.retryCnt)
  {
    RoundTrip(t);
  }

  /** Once a host is due it stays due. */
  lemma {:induction false} RetryMonotone(e: VerifyStatus, n: nat, later: nat)
    requires IsNeedRetry(e, n) && n <= later
    ensures IsNeedRetry(e, later)
  {
    if e.status == FAILURE_CLIENT_ERROR && e.verifyTime != "" {
      assert ToInt64(e.verifyTime).Some?;
    }
  }

  // ---------- what a callback does ----------

  /** The record written for a host the task knows. Its count starts from zero on
      every write, so the limit that forbids a host is not reached here. */
  function Record(status: InnerVerifyStatus, now: nat, priority: Int32): VerifyStatus {
    VerifyStatus(status, if status == FAILURE_CLIENT_ERROR then 1 else 0, ToString(now), priority)
  }

  /** Illegal priorities turn any verdict into a client error; a preinstalled app
      is trusted when no HTTP status was obtained. */
  function Adjusted(verdict: InnerVerifyStatus, priority: Int32, isPreinstalled: bool): InnerVerifyStatus {
    if !LegalPriority(priority) then FAILURE_CLIENT_ERROR
    else if verdict == FAILURE_HTTP_UNKNOWN && isPreinstalled then PRE_INSTALLED
    else verdict
  }

  datatype Task = Task(
    app: AppVerifyBaseInfo,
    unVerified: set<string>,
    result: VerifyResultInfo,
    saves: seq<VerifyResultInfo>)

  function NewTask(app: AppVerifyBaseInfo, result: VerifyResultInfo, now: nat): Task {
    Task(app, RetrySet(result.hostVerifyStatusMap, now), result, [])
  }

  /** The record a response earns. */
  function Earned(app: AppVerifyBaseInfo, response: HttpResponse, now: nat): VerifyStatus {
    var (verdict, priority) := HostVerdict(response, app);
    Record(Adjusted(verdict, priority, app.isPreinstalled), now, priority)
  }

  function Put(result: VerifyResultInfo, uri: string, e: VerifyStatus): VerifyResultInfo {
    result.(hostVerifyStatusMap := result.hostVerifyStatusMap[uri := e])
  }

  /** A host the task does not know is added, uncounted. */
  function Classified(t: Task, uri: string, response: HttpResponse, now: nat): Task {
    var e := Earned(t.app, response, now);
    t.(app := t.app.(priority := HostVerdict(response, t.app).1),
       result := Put(t.result, uri, if uri in t.result.hostVerifyStatusMap then e else e.(retryCnt := 0)))
  }

  function Finished(t: Task, uri: string): Task {
    var rest := t.unVerified - {uri};
    t.(unVerified := rest, saves := if rest == {} then t.saves + [t.result] else t.saves)
  }

  // ---------- the class ----------

  class VerifyTask {
    var appVerifyBaseInfo: AppVerifyBaseInfo
    var unVerifiedSet: set<string>
    var verifyResultInfo: VerifyResultInfo
    /** The results handed to the manager's SaveDomainVerifyStatus, in order. */
    ghost var saves: seq<VerifyResultInfo>

    ghost function State(): Task
      reads this
    {
      Task(appVerifyBaseInfo, unVerifiedSet, verifyResultInfo, saves)
    }

    constructor (app: AppVerifyBaseInfo, result: VerifyResultInfo, now: nat)
      ensures State() == NewTask(app, result, now)
    {
      appVerifyBaseInfo, verifyResultInfo, saves := app, result, [];
      unVerifiedSet := {};
      new;
      InitUriUnVerifySetMap(result, now);
    }

    method InitUriUnVerifySetMap(result: VerifyResultInfo, now: nat)
      modifies this`unVerifiedSet
      ensures unVerifiedSet == old(unVerifiedSet) + RetrySet(result.hostVerifyStatusMap, now)
    {
      var hosts := result.hostVerifyStatusMap;
      var left := hosts.Keys;
      while left != {}
        invariant left <= hosts.Keys
        invariant unVerifiedSet == old(unVerifiedSet) + (RetrySet(hosts, now) - left)
        decreases left
      {
        var h :| h in left;
        if IsNeedRetry(hosts[h], now) {
          unVerifiedSet := unVerifiedSet + {h};
        }
        left := left - {h};
      }
    }

    /** Fans out: the hosts for which an HTTP task is added to the pool, in some order. */
    method Execute() returns (added: seq<string>)
      ensures forall h :: h in added <==> h in unVerifiedSet && h in verifyResultInfo.hostVerifyStatusMap
      ensures forall i, j :: 0 <= i < j < |added| ==> added[i] != added[j]
    {
      added := [];
      var left := verifyResultInfo.hostVerifyStatusMap.Keys;
      while left != {}
        invariant left <= verifyResultInfo.hostVerifyStatusMap.Keys
        invariant forall h :: h in added <==>
          h in unVerifiedSet && h in verifyResultInfo.hostVerifyStatusMap && h !in left
        invariant forall i, j :: 0 <= i < j < |added| ==> added[i] != added[j]
        decreases left
      {
        var h :| h in left;
        if h in unVerifiedSet {
          added := added + [h];
        }
        left := left - {h};
      }
    }

    method UpdateVerifyResultInfo(uri: string, status: InnerVerifyStatus, now: nat)
      modifies this`verifyResultInfo
      ensures verifyResultInfo == Put(old(verifyResultInfo), uri,
        if uri in old(verifyResultInfo).hostVerifyStatusMap then Record(status, now, appVerifyBaseInfo.priority)
        else VerifyStatus(status, 0, ToString(now), appVerifyBaseInfo.priority))
    {
      var verifyStatus := VerifyStatus(status, 0, ToString(now), appVerifyBaseInfo.priority);
      if uri !in verifyResultInfo.hostVerifyStatusMap {
        verifyResultInfo := Put(verifyResultInfo, uri, verifyStatus);
        return;
      }
      if verifyStatus.status == FAILURE_CLIENT_ERROR {
        verifyStatus := verifyStatus.(retryCnt := verifyStatus.retryCnt + 1);
        if verifyStatus.retryCnt >= CLIENT_ERR_MAX_RETRY_COUNTS {
          verifyStatus := verifyStatus.(status := FORBIDDEN_FOREVER);
        }
      }
      verifyResultInfo := Put(verifyResultInfo, uri, verifyStatus);
    }

    /** First step of OnPostVerify: classify the response and write the record. */
    method ClassifyHost(uri: string, response: HttpResponse, now: nat)
      modifies this
      ensures State() == Classified(old(State()), uri, response, now)
    {
      var status, priority := VerifyHost(response, appVerifyBaseInfo);
      appVerifyBaseInfo := appVerifyBaseInfo.(priority := priority);
      if priority != PRIORITY_UNSET && (priority < PRIORITY_MIN || priority > PRIORITY_MAX) {
        status := FAILURE_CLIENT_ERROR;
      }
      if status == FAILURE_HTTP_UNKNOWN && appVerifyBaseInfo.isPreinstalled {
        status := PRE_INSTALLED;
      }
      UpdateVerifyResultInfo(uri, status, now);
    }

    /** Second step: the host is done, and with the last one the result is saved. */
    method FinishHost(uri: string)
      modifies this
      ensures State() == Finished(old(State()), uri)
    {
      unVerifiedSet := unVerifiedSet - {uri};
      if unVerifiedSet == {} {
        OnSaveVerifyResult();
      }
    }

    method OnSaveVerifyResult()
      modifies this`saves
      ensures saves == old(saves) + [verifyResultInfo]
    {
      saves := saves + [verifyResultInfo];
    }

    method OnPostVerify(uri: string, response: HttpResponse, now: nat)
      modifies this
      ensures State() == Finished(Classified(old(State()), uri, response, now), uri)
    {
      ClassifyHost(uri, response, now);
      FinishHost(uri);
    }
  }

  // ---------- codes, bounds and times as numbers ----------

  /** The priority the task is left with. */
  ghost function PriorityLeft(t: Task, response: HttpResponse): int {
    HostVerdict(response, t.app).1
  }

  /** What a callback writes, by response code. A priority that is neither unset nor
      in bounds makes it a client error; below 300, and not 200, a preinstalled app is
      trusted. What a 200 answer gives is said by VerifiesExactly. */
  lemma {:induction false} StatusByCode(t: Task, uri: string, response: HttpResponse, now: nat)
    ensures
      var after, code, p := Classified(t, uri, response, now), response.responseCode, PriorityLeft(t, response);
      var e := after.result.hostVerifyStatusMap[uri];
      && (!(p == -1000 || -100 <= p <= 100) ==> e.status == 4)
      && (p == -1000 || -100 <= p <= 100 ==>
        && (code == 200 ==> e.status == HostVerdict(response, t.app).0 && (e.status == 1 || e.status == 2))
        && (300 <= code < 400 ==> e.status == 3)
        && (400 <= code < 500 ==> e.status == 4)
        && (500 <= code ==> e.status == 5)
        && (code < 300 && code != 200 ==> e.status == if t.app.isPreinstalled then 10 else 6))
      && e.priority == p && after.app == t.app.(priority := p) && e.verifyTime == ToString(now)
      && e.retryCnt == (if e.status == 4 && uri in t.result.hostVerifyStatusMap then 1 else 0)
      && (forall h :: h != uri ==> (h in after.result.hostVerifyStatusMap <==> h in t.result.hostVerifyStatusMap))
      && (forall h :: h != uri && h in t.result.hostVerifyStatusMap ==>
           after.result.hostVerifyStatusMap[h] == t.result.hostVerifyStatusMap[h])
  {
    VerifiesExactly(response, t.app);
  }

  /** PRE_INSTALLED is written exactly for a preinstalled app with a legal priority
      that was given no HTTP status. */
  lemma {:induction false} PreinstalledExactly(t: Task, uri: string, response: HttpResponse, now: nat)
    ensures
      var p := PriorityLeft(t, response);
      Classified(t, uri, response, now).result.hostVerifyStatusMap[uri].status == 10 <==>
        && t.app.isPreinstalled && (p == -1000 || -100 <= p <= 100)
        && response.responseCode < 300 && response.responseCode != 200
  {
    StatusByCode(t, uri, response, now);
  }

  /** A task asks a host if and only if its record is neither a success nor forbidden
      and, for a client error, has no stamp or one that is read as a time longer ago
      than the backoff. */
  lemma {:induction false} StartsExactly(app: AppVerifyBaseInfo, result: VerifyResultInfo, now: nat, h: string)
    ensures h in NewTask(app, result, now).unVerified <==>
      && h in result.hostVerifyStatusMap
      && var e := result.hostVerifyStatusMap[h];
         && e.status != 1 && e.status != 9
         && (e.status == 4 && e.verifyTime != "" ==>
              ToInt64(e.verifyTime).Some? && now - ToInt64(e.verifyTime).value > CalcRetryDuration(e.retryCnt))
  {
  }

  /** The backoff is an hour, doubled with every count, up to the range of int64; a
      negative count halves it, rounded down. */
  lemma {:induction false} BackoffDoubles(c: nat)
    ensures CalcRetryDuration(0) == 3600 && CalcRetryDuration(1) == 7200
    ensures CalcRetryDuration(c + 1) == 2 * CalcRetryDuration(c)
      || (CalcRetryDuration(c + 1) == 0x7FFF_FFFF_FFFF_FFFF && 2 * CalcRetryDuration(c) >= 0x7FFF_FFFF_FFFF_FFFF)
    ensures CalcRetryDuration(-1) == 1800
    ensures c > 0 ==> CalcRetryDuration(0 - c - 1) == CalcRetryDuration(0 - c) / 2
  {
    assert Pow2(1) == 2;
    if c > 0 {
      HalfOfQuotient(3600, Pow2(c));
    }
  }

  lemma {:induction false} HalfOfQuotient(n: nat, d: nat)
    requires d > 0
    ensures n / (2 * d) == (n / d) / 2
  {
    var p, q := n / d, (n / d) / 2;
    assert p * d <= n < p * d + d;
    AtMost(2 * q, p, d);
    AtMost(p, 2 * q + 1, d);
    QuotientIs(n, 2 * d, q);
  }

  lemma {:induction false} AtMost(a: nat, b: nat, d: nat)
    requires a <= b
    ensures a * d <= b * d
  {
    assert b * d == a * d + (b - a) * d;
  }

  lemma {:induction false} QuotientIs(n: nat, d: nat, q: nat)
    requires d > 0 && q * d <= n < q * d + d
    ensures n / d == q
  {
    var p := n / d;
    assert p * d <= n < p * d + d;
    if p < q {
      AtMost(p + 1, q, d);
    } else if q < p {
      AtMost(q + 1, p, d);
    }
  }

  // ---------- the priority that hosts share ----------

  predicate Succeeds(t: Task, response: HttpResponse) {
    HostVerdict(response, t.app).0 == STATE_SUCCESS
  }

  /** Two hosts of one task answered in either order. */
  function BothWays(
    t: Task, u: string, ru: HttpResponse, nu: nat, v: string, rv: HttpResponse, nv: nat)
    : (VerifyResultInfo, VerifyResultInfo)
  {
    (Classified(Classified(t, u, ru, nu), v, rv, nv).result, Classified(Classified(t, v, rv, nv), u, ru, nu).result)
  }

  /** A verdict, and the priority of its witness, do not depend on the priority the
      task has at the time; without a witness that priority is what is stored. */
  lemma {:induction false} VerdictIgnoresPriority(response: HttpResponse, app: AppVerifyBaseInfo, priority: Int32)
    ensures
      var was, now := HostVerdict(response, app), HostVerdict(response, app.(priority := priority));
      was.0 == now.0 && now.1 == if was.0 == STATE_SUCCESS then was.1 else priority
  {
    var other := app.(priority := priority);
    if response.responseCode == OK && response.apps.Some? {
      SameFirst(response.apps.value, Decides(app), Decides(other));
      SameFirst(response.apps.value, Shares(app), Shares(other));
    }
  }

  lemma {:induction false} SameFirst(
    apps: seq<AppVerifyBaseInfo>, test: AppVerifyBaseInfo -> bool, other: AppVerifyBaseInfo -> bool)
    requires forall entry :: test(entry) == other(entry)
    ensures FirstEntry(apps, test) == FirstEntry(apps, other)
  {
    if apps != [] {
      SameFirst(apps[1..], test, other);
    }
  }

  /** What a host's answer writes when the answer of another one came before. */
  lemma {:induction false} EarnedAfter(t: Task, u: string, ru: HttpResponse, nu: nat, rv: HttpResponse, nv: nat)
    ensures
      var p := HostVerdict(ru, t.app).1;
      var e := Earned(Classified(t, u, ru, nu).app, rv, nv);
      if Succeeds(t, rv) then e == Earned(t.app, rv, nv)
      else e == Record(Adjusted(HostVerdict(rv, t.app).0, p, t.app.isPreinstalled), nv, p)
  {
    VerdictIgnoresPriority(rv, t.app, HostVerdict(ru, t.app).1);
  }

  /** The order in which two hosts answer makes no difference to the records if and
      only if the success of one does not change the priority under which the
      failure of the other is written. */
  lemma {:induction false} OrderMatters(
    t: Task, u: string, ru: HttpResponse, nu: nat, v: string, rv: HttpResponse, nv: nat)
    requires u != v && u in t.result.hostVerifyStatusMap && v in t.result.hostVerifyStatusMap
    ensures
      var (first, second) := BothWays(t, u, ru, nu, v, rv, nv);
      first == second <==>
        Succeeds(t, ru) == Succeeds(t, rv) || HostVerdict(if Succeeds(t, ru) then ru else rv, t.app).1 == t.app.priority
  {
    RecordsBothWays(t, u, ru, nu, v, rv, nv);
    EarnedAfter(t, u, ru, nu, rv, nv);
    EarnedAfter(t, v, rv, nv, ru, nu);
    VerdictIgnoresPriority(ru, t.app, t.app.priority);
    VerdictIgnoresPriority(rv, t.app, t.app.priority);
    var (first, second) := BothWays(t, u, ru, nu, v, rv, nv);
    var eu, ev := Earned(Classified(t, v, rv, nv).app, ru, nu), Earned(Classified(t, u, ru, nu).app, rv, nv);
    assert first.hostVerifyStatusMap[u] == Earned(t.app, ru, nu) && first.hostVerifyStatusMap[v] == ev;
    assert second.hostVerifyStatusMap[u] == eu && second.hostVerifyStatusMap[v] == Earned(t.app, rv, nv);
    assert t.app.(priority := t.app.priority) == t.app;
  }

  /** The statuses alone agree if and only if, besides, both priorities are legal or
      neither is, or the failure is a client error anyway. */
  lemma {:induction false} OrderMattersToStatus(
    t: Task, u: string, ru: HttpResponse, nu: nat, v: string, rv: HttpResponse, nv: nat)
    requires u != v && u in t.result.hostVerifyStatusMap && v in t.result.hostVerifyStatusMap
    requires Succeeds(t, ru) && !Succeeds(t, rv)
    ensures
      var (first, second) := BothWays(t, u, ru, nu, v, rv, nv);
      && first.hostVerifyStatusMap[u] == second.hostVerifyStatusMap[u]
      && first.hostVerifyStatusMap[v].priority == HostVerdict(ru, t.app).1
      && (first.hostVerifyStatusMap[v].status == second.hostVerifyStatusMap[v].status <==>
        || LegalPriority(HostVerdict(ru, t.app).1) == LegalPriority(t.app.priority)
        || HostVerdict(rv, t.app).0 == FAILURE_CLIENT_ERROR)
  {
    RecordsBothWays(t, u, ru, nu, v, rv, nv);
    EarnedAfter(t, u, ru, nu, rv, nv);
    EarnedAfter(t, v, rv, nv, ru, nu);
    VerdictIgnoresPriority(rv, t.app, t.app.priority);
  }

  lemma {:induction false} RecordsBothWays(
    t: Task, u: string, ru: HttpResponse, nu: nat, v: string, rv: HttpResponse, nv: nat)
    requires u != v && u in t.result.hostVerifyStatusMap && v in t.result.hostVerifyStatusMap
    ensures
      var (first, second) := BothWays(t, u, ru, nu, v, rv, nv);
      && first == Put(Put(t.result, u, Earned(t.app, ru, nu)), v, Earned(Classified(t, u, ru, nu).app, rv, nv))
      && second == Put(Put(t.result, u, Earned(Classified(t, v, rv, nv).app, ru, nu)), v, Earned(t.app, rv, nv))
  {
    var hosts, mine := t.result.hostVerifyStatusMap, Earned(Classified(t, v, rv, nv).app, ru, nu);
    assert hosts[v := Earned(t.app, rv, nv)][u := mine] == hosts[u := mine][v := Earned(t.app, rv, nv)];
  }

  // ---------- interleaved callbacks ----------

  datatype Progress = Awaited | Written | Done

  /** A task whose hosts each get one callback: how far each host is, and what its
      callback wrote. */
  datatype TaskRun = TaskRun(task: Task, progress: map<string, Progress>, written: map<string, VerifyStatus>)

  datatype Step = Classify(uri: string, response: HttpResponse, now: nat) | Finish(uri: string)

  function StartRun(app: AppVerifyBaseInfo, result: VerifyResultInfo, now: nat): TaskRun {
    var t := NewTask(app, result, now);
    TaskRun(t, map h | h in t.unVerified :: Awaited, map[])
  }

  predicate Enabled(r: TaskRun, s: Step) {
    && s.uri in r.progress
    && r.progress[s.uri] == (if s.Classify? then Awaited else Written)
    && s.uri in r.task.result.hostVerifyStatusMap
  }

  function Next(r: TaskRun, s: Step): TaskRun
    requires Enabled(r, s)
  {
    match s
    case Classify(uri, response, now) =>
      TaskRun(Classified(r.task, uri, response, now), r.progress[uri := Written],
              r.written[uri := Earned(r.task.app, response, now)])
    case Finish(uri) => r.(task := Finished(r.task, uri), progress := r.progress[uri := Done])
  }

  function Exec(start: TaskRun, run: seq<Step>): Option<TaskRun> {
    if run == [] then Some(start)
    else
      match Exec(start, run[..|run| - 1])
      case None => None
      case Some(r) => if Enabled(r, run[|run| - 1]) then Some(Next(r, run[|run| - 1])) else None
  }

  predicate AllDone(r: TaskRun) {
    forall h :: h in r.progress ==> r.progress[h] == Done
  }

  /** A record as a callback leaves it. */
  ghost predicate Fresh(e: VerifyStatus) {
    && e.status != FORBIDDEN_FOREVER
    && e.retryCnt == (if e.status == FAILURE_CLIENT_ERROR then 1 else 0)
    && (Verified(e.status) ==> LegalPriority(e.priority))
    && exists now: nat :: e.verifyTime == ToString(now)
  }

  /** What every interleaving keeps. */
  ghost predicate Inv(r: TaskRun, app: AppVerifyBaseInfo, result: VerifyResultInfo, retried: set<string>) {
    && retried <= result.hostVerifyStatusMap.Keys
    && r.progress.Keys == retried
    && r.task.unVerified == (set h | h in retried && r.progress[h] != Done)
    && r.written.Keys == (set h | h in retried && r.progress[h] != Awaited)
    && (forall h :: h in r.written ==> Fresh(r.written[h]))
    && r.task.app == app.(priority := r.task.app.priority)
    && r.task.result == result.(hostVerifyStatusMap := result.hostVerifyStatusMap + r.written)
    && r.task.saves == (if retried != {} && r.task.unVerified == {} then [r.task.result] else [])
  }

  lemma {:induction false} EarnedIsFresh(app: AppVerifyBaseInfo, response: HttpResponse, now: nat)
    ensures Fresh(Earned(app, response, now))
  {
    assert Earned(app, response, now).verifyTime == ToString(now);
  }

  lemma {:induction false} StartInv(app: AppVerifyBaseInfo, result: VerifyResultInfo, now: nat)
    ensures Inv(StartRun(app, result, now), app, result, RetrySet(result.hostVerifyStatusMap, now))
  {
    var m: map<string, VerifyStatus> := map[];
    assert result.hostVerifyStatusMap + m == result.hostVerifyStatusMap;
  }

  lemma {:induction false} ClassifyInv(
    r: TaskRun, s: Step, app: AppVerifyBaseInfo, result: VerifyResultInfo, retried: set<string>)
    requires Inv(r, app, result, retried) && Enabled(r, s) && s.Classify?
    ensures Inv(Next(r, s), app, result, retried)
  {
    var hosts, r', e := result.hostVerifyStatusMap, Next(r, s), Earned(r.task.app, s.response, s.now);
    EarnedIsFresh(r.task.app, s.response, s.now);
    assert s.uri in r.task.unVerified;
    assert r'.task.unVerified == (set h | h in retried && r'.progress[h] != Done);
    PutMerged(hosts, r.written, s.uri, e);
  }

  lemma {:induction false} PutMerged(
    hosts: HostVerifyStatusMap, written: HostVerifyStatusMap, uri: string, e: VerifyStatus)
    ensures (hosts + written)[uri := e] == hosts + written[uri := e]
  {
  }

  lemma {:induction false} FinishInv(
    r: TaskRun, s: Step, app: AppVerifyBaseInfo, result: VerifyResultInfo, retried: set<string>)
    requires Inv(r, app, result, retried) && Enabled(r, s) && s.Finish?
    ensures Inv(Next(r, s), app, result, retried)
  {
    var r' := Next(r, s);
    assert s.uri in r.task.unVerified;
    assert r'.task.unVerified == (set h | h in retried && r'.progress[h] != Done);
    assert r'.written.Keys == (set h | h in retried && r'.progress[h] != Awaited);
  }

  lemma {:induction false} NextInv(
    r: TaskRun, s: Step, app: AppVerifyBaseInfo, result: VerifyResultInfo, retried: set<string>)
    requires Inv(r, app, result, retried) && Enabled(r, s)
    ensures Inv(Next(r, s), app, result, retried)
  {
    if s.Classify? {
      ClassifyInv(r, s, app, result, retried);
    } else {
      FinishInv(r, s, app, result, retried);
    }
  }

  lemma {:induction false} ExecInv(app: AppVerifyBaseInfo, result: VerifyResultInfo, now: nat, run: seq<Step>)
    requires Exec(StartRun(app, result, now), run).Some?
    ensures Inv(Exec(StartRun(app, result, now), run).value, app, result, RetrySet(result.hostVerifyStatusMap, now))
  {
    if run == [] {
      StartInv(app, result, now);
    } else {
      var before := run[..|run| - 1];
      ExecInv(app, result, now, before);
      NextInv(Exec(StartRun(app, result, now), before).value, run[|run| - 1], app, result,
              RetrySet(result.hostVerifyStatusMap, now));
    }
  }

  /** What was saved has the hosts the task was given, a fresh record for each
      retried host and the old one for every other. */
  ghost predicate Complete(saved: VerifyResultInfo, r: TaskRun, result: VerifyResultInfo, retried: set<string>) {
    && saved.appIdentifier == result.appIdentifier
    && saved.hostVerifyStatusMap.Keys == result.hostVerifyStatusMap.Keys
    && r.written.Keys == retried
    && forall h :: h in result.hostVerifyStatusMap ==>
      if h in retried then saved.hostVerifyStatusMap[h] == r.written[h] && Fresh(r.written[h])
      else saved.hostVerifyStatusMap[h] == result.hostVerifyStatusMap[h]
  }

  lemma {:induction false} DoneMeansSaved(
    r: TaskRun, app: AppVerifyBaseInfo, result: VerifyResultInfo, retried: set<string>)
    requires Inv(r, app, result, retried)
    ensures |r.task.saves| == if AllDone(r) && retried != {} then 1 else 0
    ensures r.task.saves != [] ==> Complete(r.task.saves[0], r, result, retried)
  {
    if AllDone(r) {
      assert r.task.unVerified == {};
    } else {
      var h :| h in r.progress && r.progress[h] != Done;
      assert h in r.task.unVerified;
    }
  }

  /** Under every interleaving a task with hosts to retry saves exactly once, when
      its last callback finishes, and what it saves is complete. */
  lemma {:induction false} SavesOnceAndCompletely(
    app: AppVerifyBaseInfo, result: VerifyResultInfo, now: nat, run: seq<Step>)
    requires RetrySet(result.hostVerifyStatusMap, now) != {}
    requires Exec(StartRun(app, result, now), run).Some?
    ensures
      var r := Exec(StartRun(app, result, now), run).value;
      && |r.task.saves| == (if AllDone(r) then 1 else 0)
      && (AllDone(r) ==> Complete(r.task.saves[0], r, result, RetrySet(result.hostVerifyStatusMap, now)))
  {
    ExecInv(app, result, now, run);
    DoneMeansSaved(Exec(StartRun(app, result, now), run).value, app, result, RetrySet(result.hostVerifyStatusMap, now));
  }

  /** A task with nothing to retry never saves. */
  lemma {:induction false} NothingToRetryNothingSaved(
    app: AppVerifyBaseInfo, result: VerifyResultInfo, now: nat, run: seq<Step>)
    requires RetrySet(result.hostVerifyStatusMap, now) == {}
    requires Exec(StartRun(app, result, now), run).Some?
    ensures run == [] && Exec(StartRun(app, result, now), run).value.task.saves == []
  {
    ExecInv(app, result, now, run);
    if run != [] {
      ExecInv(app, result, now, run[..|run| - 1]);
    }
  }

  /** Whatever hosts answer, what a task holds and saves stays legal: verified
      hosts have the priority unset or within its bounds. */
  lemma {:induction false} TaskKeepsPrioritiesLegal(
    app: AppVerifyBaseInfo, result: VerifyResultInfo, now: nat, run: seq<Step>)
    requires LegalHosts(result.hostVerifyStatusMap)
    requires Exec(StartRun(app, result, now), run).Some?
    ensures
      var t := Exec(StartRun(app, result, now), run).value.task;
      LegalHosts(t.result.hostVerifyStatusMap)
      && forall s :: s in t.saves ==> LegalHosts(s.hostVerifyStatusMap)
  {
    ExecInv(app, result, now, run);
  }
}
