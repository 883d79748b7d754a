/**
 Whether the order of its answers matters to a whole verification task: the hosts
 share one priority, which each success replaces.
 */
module AnswerOrder {
  import opened DomainVerifier
  import opened VerifyTasks
  import opened VerifyTypes

  /** What each host answers, and when. */
  type Answers = map<string, (HttpResponse, nat)>

  /** The step gives a host its answer. */
  predicate GivesAnswer(step: Step, answers: Answers) {
    step.Classify? ==> step.uri in answers && (step.response, step.now) == answers[step.uri]
  }

  ghost predicate Follows(run: seq<Step>, answers: Answers) {
    forall k :: 0 <= k < |run| ==> GivesAnswer(run[k], answers)
  }

  /** A run of the task to its end with the answers given. */
  ghost predicate Whole(start: TaskRun, run: seq<Step>, answers: Answers) {
    Follows(run, answers) && Exec(start, run).Some? && AllDone(Exec(start, run).value)
  }

  predicate Wins(app: AppVerifyBaseInfo, answer: (HttpResponse, nat)) {
    HostVerdict(answer.0, app).0 == STATE_SUCCESS
  }

  function Won(app: AppVerifyBaseInfo, answer: (HttpResponse, nat)): Int32 {
    HostVerdict(answer.0, app).1
  }

  /** No retried host fails, or none succeeds, or every witness has the priority the
      task starts with. */
  ghost predicate Indifferent(app: AppVerifyBaseInfo, retried: set<string>, answers: Answers)
    requires retried <= answers.Keys
  {
    || (forall h :: h in retried ==> Wins(app, answers[h]))
    || (forall h :: h in retried ==> !Wins(app, answers[h]))
    || (forall h :: h in retried && Wins(app, answers[h]) ==> Won(app, answers[h]) == app.priority)
  }

  // ---------- indifferent answers ----------

  /** The record of a host does not depend on what came before. */
  ghost predicate Settles(r: TaskRun, app: AppVerifyBaseInfo, retried: set<string>, answers: Answers)
    requires retried <= answers.Keys
  {
    && r.written.Keys <= retried
    && (forall h :: h in r.written ==> r.written[h] == Earned(app, answers[h].0, answers[h].1))
    && (r.task.app.priority == app.priority || forall h :: h in retried ==> Wins(app, answers[h]))
  }

  lemma {:induction false} StepSettles(
    r: TaskRun, s: Step, app: AppVerifyBaseInfo, result: VerifyResultInfo, retried: set<string>, answers: Answers)
    requires retried <= answers.Keys && Indifferent(app, retried, answers)
    requires Inv(r, app, result, retried) && Settles(r, app, retried, answers)
    requires Enabled(r, s) && GivesAnswer(s, answers)
    ensures Settles(Next(r, s), app, retried, answers)
  {
    if s.Classify? {
      var p := r.task.app.priority;
      assert r.task.app == app.(priority := p) && s.uri in retried;
      VerdictIgnoresPriority(s.response, app, p);
      VerdictIgnoresPriority(s.response, app, app.priority);
      assert app.(priority := app.priority) == app;
    }
  }

  lemma {:induction false} RunSettles(
    app: AppVerifyBaseInfo, result: VerifyResultInfo, now: nat, run: seq<Step>, answers: Answers)
    requires RetrySet(result.hostVerifyStatusMap, now) <= answers.Keys
    requires Indifferent(app, RetrySet(result.hostVerifyStatusMap, now), answers)
    requires Follows(run, answers) && Exec(StartRun(app, result, now), run).Some?
    ensures
      var r := Exec(StartRun(app, result, now), run).value;
      Settles(r, app, RetrySet(result.hostVerifyStatusMap, now), answers)
  {
    if run != [] {
      var before := run[..|run| - 1];
      var retried := RetrySet(result.hostVerifyStatusMap, now);
      RunSettles(app, result, now, before, answers);
      ExecInv(app, result, now, before);
      StepSettles(Exec(StartRun(app, result, now), before).value, run[|run| - 1], app, result, retried, answers);
    }
  }

  // ---------- answers that are not ----------

  lemma {:induction false} Extend(start: TaskRun, run: seq<Step>, r: TaskRun, s: Step)
    requires Exec(start, run) == Some(r) && Enabled(r, s)
    ensures Exec(start, run + [s]) == Some(Next(r, s))
  {
    var all := run + [s];
    assert all[..|all| - 1] == run && all[|all| - 1] == s;
  }

  /** The run goes on, and leaves alone the records already written. */
  ghost predicate GoesOn(start: TaskRun, run: seq<Step>, r: TaskRun, more: seq<Step>, t: TaskRun, answers: Answers) {
    && Exec(start, run) == Some(r) && Exec(start, more) == Some(t) && Follows(more, answers)
    && forall h :: h in r.written ==> h in t.written && t.written[h] == r.written[h]
  }

  lemma {:induction false} AnswerOne(
    start: TaskRun, run: seq<Step>, r: TaskRun, h: string, app: AppVerifyBaseInfo, result: VerifyResultInfo,
    retried: set<string>, answers: Answers) returns (more: seq<Step>, t: TaskRun)
    requires Exec(start, run) == Some(r) && Follows(run, answers) && retried <= answers.Keys
    requires Inv(r, app, result, retried) && h in retried && r.progress[h] == Awaited
    ensures GoesOn(start, run, r, more, t, answers) && Inv(t, app, result, retried)
    ensures t.progress == r.progress[h := Written] && h in t.written
    ensures t.written[h] == Earned(r.task.app, answers[h].0, answers[h].1)
    ensures t.task.app.priority == HostVerdict(answers[h].0, r.task.app).1
  {
    var c := Classify(h, answers[h].0, answers[h].1);
    ClassifyInv(r, c, app, result, retried);
    Extend(start, run, r, c);
    more, t := run + [c], Next(r, c);
  }

  lemma {:induction false} FinishOne(
    start: TaskRun, run: seq<Step>, r: TaskRun, h: string, app: AppVerifyBaseInfo, result: VerifyResultInfo,
    retried: set<string>, answers: Answers) returns (more: seq<Step>, t: TaskRun)
    requires Exec(start, run) == Some(r) && Follows(run, answers)
    requires Inv(r, app, result, retried) && h in retried && r.progress[h] == Written
    ensures GoesOn(start, run, r, more, t, answers) && Inv(t, app, result, retried)
    ensures t.progress == r.progress[h := Done] && t.written == r.written && t.task.app == r.task.app
  {
    FinishInv(r, Finish(h), app, result, retried);
    Extend(start, run, r, Finish(h));
    more, t := run + [Finish(h)], Next(r, Finish(h));
  }

  lemma {:induction false} GoesOnOn(
    start: TaskRun, run: seq<Step>, r: TaskRun, run1: seq<Step>, r1: TaskRun, more: seq<Step>, t: TaskRun,
    answers: Answers)
    requires GoesOn(start, run, r, run1, r1, answers) && GoesOn(start, run1, r1, more, t, answers)
    ensures GoesOn(start, run, r, more, t, answers)
  {
  }

  ghost function Open(r: TaskRun): set<string> {
    set h | h in r.progress && r.progress[h] != Done
  }

  ghost function Waits(r: TaskRun): set<string> {
    set h | h in r.progress && r.progress[h] == Awaited
  }

  /** All hosts left can be answered and finished. */
  lemma {:induction false} Rest(
    start: TaskRun, run: seq<Step>, r: TaskRun, app: AppVerifyBaseInfo, result: VerifyResultInfo,
    retried: set<string>, answers: Answers) returns (more: seq<Step>, t: TaskRun)
    requires Exec(start, run) == Some(r) && Follows(run, answers) && retried <= answers.Keys
    requires Inv(r, app, result, retried)
    ensures GoesOn(start, run, r, more, t, answers) && Inv(t, app, result, retried) && AllDone(t)
    decreases |Open(r)|, |Waits(r)|
  {
    if h :| h in Open(r) {
      var run1, r1;
      if r.progress[h] == Awaited {
        run1, r1 := AnswerOne(start, run, r, h, app, result, retried, answers);
      } else {
        run1, r1 := FinishOne(start, run, r, h, app, result, retried, answers);
      }
      OneLess(r, r1, h);
      more, t := Rest(start, run1, r1, app, result, retried, answers);
      GoesOnOn(start, run, r, run1, r1, more, t, answers);
    } else {
      more, t := run, r;
      assert forall h :: h in r.progress && r.progress[h] != Done ==> h in Open(r);
    }
  }

  lemma {:induction false} OneLess(r: TaskRun, t: TaskRun, h: string)
    requires h in Open(r)
    requires t.progress == r.progress[h := Done] || (r.progress[h] == Awaited && t.progress == r.progress[h := Written])
    ensures |Open(t)| < |Open(r)| || (Open(t) == Open(r) && |Waits(t)| < |Waits(r)|)
  {
    if t.progress == r.progress[h := Done] {
      assert Open(t) == Open(r) - {h};
    } else {
      assert Open(t) == Open(r) && Waits(t) == Waits(r) - {h};
    }
  }

  /** A whole run in which `first` is answered before all others, and `then` next. */
  lemma {:induction false} InThisOrder(
    app: AppVerifyBaseInfo, result: VerifyResultInfo, now: nat, first: string, then_: string, answers: Answers)
    returns (run: seq<Step>, r: TaskRun)
    requires
      var retried := RetrySet(result.hostVerifyStatusMap, now);
      retried <= answers.Keys && first in retried && then_ in retried && first != then_
    ensures Whole(StartRun(app, result, now), run, answers) && Exec(StartRun(app, result, now), run) == Some(r)
    ensures Inv(r, app, result, RetrySet(result.hostVerifyStatusMap, now))
    ensures first in r.written && r.written[first] == Earned(app, answers[first].0, answers[first].1)
    ensures then_ in r.written
    ensures r.written[then_] == Earned(app.(priority := Won(app, answers[first])), answers[then_].0, answers[then_].1)
  {
    var start, retried := StartRun(app, result, now), RetrySet(result.hostVerifyStatusMap, now);
    StartInv(app, result, now);
    var run1, r1 := AnswerOne(start, [], start, first, app, result, retried, answers);
    var run2, r2 := AnswerOne(start, run1, r1, then_, app, result, retried, answers);
    GoesOnOn(start, [], start, run1, r1, run2, r2, answers);
    run, r := Rest(start, run2, r2, app, result, retried, answers);
  }

  /** A failed host stores the priority of the success before it. */
  lemma {:induction false} FailureTellsOrder(
    app: AppVerifyBaseInfo, result: VerifyResultInfo, now: nat, u: string, v: string, answers: Answers)
    returns (one: seq<Step>, other: seq<Step>)
    requires
      var retried := RetrySet(result.hostVerifyStatusMap, now);
      && retried <= answers.Keys && u in retried && v in retried
      && !Wins(app, answers[u]) && Wins(app, answers[v]) && Won(app, answers[v]) != app.priority
    ensures Whole(StartRun(app, result, now), one, answers) && Whole(StartRun(app, result, now), other, answers)
    ensures
      var start := StartRun(app, result, now);
      Exec(start, one).value.task.result != Exec(start, other).value.task.result
  {
    var r, t;
    one, r := InThisOrder(app, result, now, u, v, answers);
    other, t := InThisOrder(app, result, now, v, u, answers);
    VerdictIgnoresPriority(answers[u].0, app, app.priority);
    VerdictIgnoresPriority(answers[u].0, app, Won(app, answers[v]));
    assert app.(priority := app.priority) == app;
    assert r.task.result.hostVerifyStatusMap[u].priority == app.priority;
    assert t.task.result.hostVerifyStatusMap[u].priority == Won(app, answers[v]);
  }

  // ---------- exactly when the order does not matter ----------

  /** All whole runs leave the same result. */
  ghost predicate SameResult(app: AppVerifyBaseInfo, result: VerifyResultInfo, now: nat, answers: Answers) {
    forall one, other ::
      Whole(StartRun(app, result, now), one, answers) && Whole(StartRun(app, result, now), other, answers) ==>
        Exec(StartRun(app, result, now), one).value.task.result
          == Exec(StartRun(app, result, now), other).value.task.result
  }

  lemma {:induction false} ResultOfWhole(
    app: AppVerifyBaseInfo, result: VerifyResultInfo, now: nat, run: seq<Step>, answers: Answers)
    requires RetrySet(result.hostVerifyStatusMap, now) <= answers.Keys
    requires Indifferent(app, RetrySet(result.hostVerifyStatusMap, now), answers)
    requires Whole(StartRun(app, result, now), run, answers)
    ensures
      var retried := RetrySet(result.hostVerifyStatusMap, now);
      Exec(StartRun(app, result, now), run).value.task.result == result.(hostVerifyStatusMap :=
        result.hostVerifyStatusMap + map h | h in retried :: Earned(app, answers[h].0, answers[h].1))
  {
    RunSettles(app, result, now, run, answers);
    ExecInv(app, result, now, run);
    var r := Exec(StartRun(app, result, now), run).value;
    var retried := RetrySet(result.hostVerifyStatusMap, now);
    assert r.written == map h | h in retried :: Earned(app, answers[h].0, answers[h].1);
  }

  /** All complete interleavings of a task with the same answers leave, and so save,
      the same result if and only if no retried host fails, or none succeeds, or
      every witness has the priority the task starts with. */
  lemma {:induction false} OrderMattersToTask(
    app: AppVerifyBaseInfo, result: VerifyResultInfo, now: nat, answers: Answers)
    requires RetrySet(result.hostVerifyStatusMap, now) <= answers.Keys
    ensures SameResult(app, result, now, answers) <==>
      Indifferent(app, RetrySet(result.hostVerifyStatusMap, now), answers)
  {
    var retried := RetrySet(result.hostVerifyStatusMap, now);
    if Indifferent(app, retried, answers) {
      forall run | Whole(StartRun(app, result, now), run, answers)
        ensures Exec(StartRun(app, result, now), run).value.task.result == result.(hostVerifyStatusMap :=
          result.hostVerifyStatusMap + map h | h in retried :: Earned(app, answers[h].0, answers[h].1))
      {
        ResultOfWhole(app, result, now, run, answers);
      }
    } else {
      var u :| u in retried && !Wins(app, answers[u]);
      var v :| v in retried && Wins(app, answers[v]) && Won(app, answers[v]) != app.priority;
      var one, other := FailureTellsOrder(app, result, now, u, v, answers);
    }
  }
}
