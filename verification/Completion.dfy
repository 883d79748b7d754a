/**
 A task whose result may still come back can be brought to hand it over, with any
 answer one chooses for one of its hosts.
 */
module Completion {
  import TaskPool
  import VerifyTasks
  import opened DomainVerifier
  import opened StatusStore
  import opened VerificationSystem
  import opened VerifyTypes

  const SERVER_ERROR: HttpResponse := HttpResponse(500, None)

  // ---------- which tasks may still hand over a result ----------

  /** A worker has started the host's pool task. */
  ghost predicate JobStarted(s: System, o: Owner) {
    exists id :: id in s.owner && s.owner[id] == o && id in s.pool.phase
  }

  ghost predicate OpenJobsStarted(s: System, i: nat)
    requires i < |s.tasks|
  {
    var progress := s.tasks[i].run.progress;
    forall u :: u in progress && progress[u] != VerifyTasks.Done ==> JobStarted(s, Owner(i, u))
  }

  /** A save is under way, or hosts are left; when the pool is stopping their jobs
      must have started. */
  ghost predicate MayHandOver(s: System, i: nat) {
    && i < |s.tasks|
    && (|| s.tasks[i].waiting.Some?
        || (!VerifyTasks.AllDone(s.tasks[i].run) && (s.pool.stop ==> OpenJobsStarted(s, i))))
  }

  // ---------- calm steps ----------

  /** The answer meant for one host of one task; every other host gets an error. */
  datatype Reply = Reply(owner: Owner, response: HttpResponse, now: nat)

  /** The job was started without an HTTP client. */
  predicate NoClient(s: System, id: TaskPool.TaskId) {
    id in s.pool.phase && s.pool.phase[id] == TaskPool.Started(false)
  }

  function AnswerFor(s: System, a: Reply, id: TaskPool.TaskId): (HttpResponse, nat)
    requires id in s.owner
  {
    if s.owner[id] == a.owner then (a.response, a.now)
    else if NoClient(s, id) then (NO_RESPONSE, 0)
    else (SERVER_ERROR, 0)
  }

  /** No install, uninstall, refresh or restart, and no stop; jobs are started with
      clients, and answered as the reply says. */
  predicate Calm(s: System, step: Step, a: Reply) {
    match step
    case AddHost(_, _, _, _) => true
    case Begin(id, response, now) => id in s.owner && (response, now) == AnswerFor(s, a, id)
    case Finish(_) => true
    case Deliver(_, _, received) => received
    case Work(w) => !w.Stop? && (w.Resume? ==> w.client)
    case _ => false
  }

  /** The reply is one the host can be given: its job has a client, or will have, or
      the reply is the empty response. */
  ghost predicate Possible(s: System, a: Reply) {
    a.response == NO_RESPONSE || Answerable(s, a.owner)
  }

  ghost predicate Answerable(s: System, o: Owner) {
    forall id :: id in s.owner && s.owner[id] == o ==> !NoClient(s, id)
  }

  ghost predicate CalmRun(run: seq<Step>, more: seq<Step>, a: Reply) {
    more == [] ||
    var front, last := more[..|more| - 1], more[|more| - 1];
    CalmRun(run, front, a) && Exec(run + front).Some? && Calm(Exec(run + front).value, last, a)
  }

  // ---------- what calm steps do to the task and the store ----------

  predicate Awaits(t: Launched, h: string) {
    h in t.run.progress && t.run.progress[h] == VerifyTasks.Awaited
  }

  ghost predicate Answered(t: Launched, h: string, a: Reply) {
    && h in t.run.task.result.hostVerifyStatusMap
    && exists p ::
         t.run.task.result.hostVerifyStatusMap[h] == VerifyTasks.Earned(t.app.(priority := p), a.response, a.now)
  }

  /** The record of `h` in `v`, a later state of `u`: unchanged, or what the reply
      earned if `u` was still waiting for it. */
  ghost predicate Followed(u: Launched, v: Launched, h: string, a: Reply) {
    && v.app == u.app && v.given == u.given
    && v.run.task.result.hostVerifyStatusMap.Keys == u.run.task.result.hostVerifyStatusMap.Keys
    && (Awaits(v, h) ==> Awaits(u, h))
    && (h in u.run.task.result.hostVerifyStatusMap && (Awaits(v, h) || !Awaits(u, h)) ==>
         v.run.task.result.hostVerifyStatusMap[h] == u.run.task.result.hostVerifyStatusMap[h])
    && (Awaits(u, h) && !Awaits(v, h) ==> Answered(v, h, a))
  }

  ghost predicate SameBundles(m: Memory, n: Memory) {
    m.Keys == n.Keys && forall b :: b in m ==> SameHosts(n[b], m[b])
  }

  /** From `s0` calm steps lead to `s`. */
  ghost predicate Reached(run: seq<Step>, s0: System, more: seq<Step>, s: System, a: Reply) {
    && Exec(run) == Some(s0) && Exec(run + more) == Some(s) && CalmRun(run, more, a)
    && a.owner.task < |s0.tasks| && |s.tasks| == |s0.tasks| && Possible(s, a)
    && Followed(s0.tasks[a.owner.task], s.tasks[a.owner.task], a.owner.uri, a)
    && SameBundles(s0.store.memory, s.store.memory)
  }

  lemma {:induction false} CalmKeepsBundles(s: System, step: Step, a: Reply)
    requires Inv(s) && Enabled(s, step) && Calm(s, step, a)
    ensures SameBundles(s.store.memory, Next(s, step).store.memory)
  {
    var m, m' := s.store.memory, Next(s, step).store.memory;
    forall b | b != "" ensures (b in m' <==> b in m) && (b in m ==> SameHosts(m'[b], m[b])) {
      NextStored(s, step, b);
    }
    assert "" !in m' by { NextInv(s, step); }
  }

  lemma {:induction false} BeganFollows(
    u: Launched, t: Launched, uri: string, response: HttpResponse, now: nat, h: string, a: Reply)
    requires TaskInv(t) && VerifyTasks.Enabled(t.run, VerifyTasks.Classify(uri, response, now))
    requires Followed(u, t, h, a) && (uri == h ==> response == a.response && now == a.now)
    ensures Followed(u, Began(t, uri, response, now), h, a)
  {
    var t' := Began(t, uri, response, now);
    var priority := t.run.task.app.priority;
    assert t.run.task.app == t.app.(priority := priority);
    if uri == h {
      assert t'.run.task.result.hostVerifyStatusMap[h]
          == VerifyTasks.Earned(t.app.(priority := priority), a.response, a.now);
      assert Answered(t', h, a);
    } else {
      assert t'.run.task.result.hostVerifyStatusMap.Keys == t.run.task.result.hostVerifyStatusMap.Keys;
      assert Answered(t, h, a) ==> Answered(t', h, a);
    }
  }

  lemma {:induction false} BeginFollows(s: System, step: Step, u: Launched, a: Reply)
    requires TasksInv(s) && Enabled(s, step) && Calm(s, step, a) && step.Begin?
    requires a.owner.task < |s.tasks| && Followed(u, s.tasks[a.owner.task], a.owner.uri, a)
    ensures |Next(s, step).tasks| == |s.tasks|
    ensures Followed(u, Next(s, step).tasks[a.owner.task], a.owner.uri, a)
  {
    var o, i := s.owner[step.id], a.owner.task;
    if o.task == i {
      BeganFollows(u, s.tasks[i], o.uri, step.response, step.now, a.owner.uri, a);
    }
  }

  lemma {:induction false} OthersFollow(s: System, step: Step, u: Launched, a: Reply)
    requires Enabled(s, step) && Calm(s, step, a) && !step.Begin?
    requires a.owner.task < |s.tasks| && Followed(u, s.tasks[a.owner.task], a.owner.uri, a)
    ensures |Next(s, step).tasks| == |s.tasks|
    ensures Followed(u, Next(s, step).tasks[a.owner.task], a.owner.uri, a)
  {
    var t, t' := s.tasks[a.owner.task], Next(s, step).tasks[a.owner.task];
    assert t'.app == t.app && t'.given == t.given && t'.run.task.result == t.run.task.result;
    assert Awaits(t', a.owner.uri) == Awaits(t, a.owner.uri);
  }

  lemma {:induction false} SameBundlesTrans(m: Memory, n: Memory, o: Memory)
    requires SameBundles(m, n) && SameBundles(n, o)
    ensures SameBundles(m, o)
  {
  }

  /** Calm steps start no job without a client. */
  lemma {:induction false} ClientStays(p: TaskPool.Pool, w: TaskPool.Step, id: TaskPool.TaskId)
    requires TaskPool.Enabled(p, w) && (w.Resume? ==> w.client)
    requires id in TaskPool.Next(p, w).phase && TaskPool.Next(p, w).phase[id] == TaskPool.Started(false)
    ensures id in p.phase && p.phase[id] == TaskPool.Started(false)
  {
  }

  lemma {:induction false} NoClientBefore(s: System, step: Step, a: Reply, id: TaskPool.TaskId)
    requires Enabled(s, step) && Calm(s, step, a) && NoClient(Next(s, step), id)
    ensures NoClient(s, id)
  {
    match step
    case AddHost(_, _, new_, wakes) => ClientStays(s.pool, TaskPool.Add(new_, wakes), id);
    case Begin(other, _, _) => ClientStays(s.pool, TaskPool.BeginPost(other), id);
    case Work(w) => ClientStays(s.pool, w, id);
    case _ =>
  }

  lemma {:induction false} StaysPossible(s: System, step: Step, a: Reply)
    requires Inv(s) && Enabled(s, step) && Calm(s, step, a) && Possible(s, a)
    ensures Possible(Next(s, step), a)
  {
    var t := Next(s, step);
    if a.response != NO_RESPONSE {
      forall id | id in t.owner && t.owner[id] == a.owner ensures !NoClient(t, id) {
        if NoClient(t, id) {
          NoClientBefore(s, step, a, id);
          StartedJob(s, id);
          KeptOwner(s, step, id);
        }
      }
    }
  }

  lemma {:induction false} Go(run: seq<Step>, s0: System, more: seq<Step>, s: System, step: Step, a: Reply)
    requires Reached(run, s0, more, s, a) && Enabled(s, step) && Calm(s, step, a)
    ensures Reached(run, s0, more + [step], Next(s, step), a)
  {
    var all := more + [step];
    assert all[..|all| - 1] == more && all[|all| - 1] == step;
    assert run + more + [step] == run + all;
    RunInv(run + more);
    Extend(run + more, s, step);
    StaysPossible(s, step, a);
    CalmKeepsBundles(s, step, a);
    SameBundlesTrans(s0.store.memory, s.store.memory, Next(s, step).store.memory);
    if step.Begin? {
      BeginFollows(s, step, s0.tasks[a.owner.task], a);
    } else {
      OthersFollow(s, step, s0.tasks[a.owner.task], a);
    }
  }

  // ---------- some calm step always uses up work ----------

  ghost function WrittenIds(s: System): set<TaskPool.TaskId> {
    set id | id in s.owner && ProgressOf(s, s.owner[id]) == VerifyTasks.Written
  }

  ghost function WaitingTasks(s: System): set<int> {
    set j | 0 <= j < |s.tasks| && s.tasks[j].waiting.Some?
  }

  /** Less is left to do for task `i`: hosts to add, then work in the pool, then
      hosts to finish, then saves to deliver. */
  ghost predicate Less(t: System, s: System, i: nat)
    requires i < |s.tasks|
  {
    && i < |t.tasks|
    && (|| |t.tasks[i].todo| < |s.tasks[i].todo|
        || (t.tasks[i].todo == s.tasks[i].todo && LessWork(t, s)))
  }

  ghost predicate LessWork(t: System, s: System) {
    var w, w' := TaskPool.WorkLeft(s.pool), TaskPool.WorkLeft(t.pool);
    || w' < w
    || (w' == w && |WrittenIds(t)| < |WrittenIds(s)|)
    || (w' == w && |WrittenIds(t)| == |WrittenIds(s)| && |WaitingTasks(t)| < |WaitingTasks(s)|)
  }

  lemma {:induction false} SmallerSet<T>(a: set<T>, b: set<T>, x: T)
    requires x in b && a == b - {x}
    ensures |a| < |b|
  {
  }

  lemma {:induction false} FinishIsLess(s: System, id: TaskPool.TaskId, i: nat)
    requires OwnersInv(s) && Enabled(s, Finish(id)) && i < |s.tasks|
    ensures Less(Next(s, Finish(id)), s, i)
  {
    forall other ensures other in WrittenIds(Next(s, Finish(id))) <==> other in WrittenIds(s) - {id} {
      FinishWritten(s, id, other);
    }
    SmallerSet(WrittenIds(Next(s, Finish(id))), WrittenIds(s), id);
    FinishKeeps(s, id, i);
  }

  lemma {:induction false} FinishKeeps(s: System, id: TaskPool.TaskId, i: nat)
    requires Enabled(s, Finish(id)) && i < |s.tasks|
    ensures Next(s, Finish(id)).pool == s.pool && i < |Next(s, Finish(id)).tasks|
    ensures Next(s, Finish(id)).tasks[i].todo == s.tasks[i].todo
  {
  }

  lemma {:induction false} FinishWritten(s: System, id: TaskPool.TaskId, other: TaskPool.TaskId)
    requires OwnersInv(s) && Enabled(s, Finish(id))
    ensures other in WrittenIds(Next(s, Finish(id))) <==> other in WrittenIds(s) && other != id
    ensures id in WrittenIds(s)
  {
    if other in s.owner {
      assert Owned(s, s.owner[other]);
      NextProgress(s, Finish(id), s.owner[other]);
    }
  }

  lemma {:induction false} DeliverIsLess(s: System, step: Step, i: nat)
    requires Enabled(s, step) && step.Deliver? && i < |s.tasks|
    ensures Less(Next(s, step), s, i)
  {
    var t := Next(s, step);
    assert forall o: Owner :: ProgressOf(t, o) == ProgressOf(s, o);
    assert WrittenIds(t) == WrittenIds(s);
    SmallerSet(WaitingTasks(t), WaitingTasks(s), step.task);
  }

  lemma {:induction false} AddIsLess(s: System, step: Step, i: nat)
    requires Enabled(s, step) && step.AddHost? && step.task == i
    ensures Less(Next(s, step), s, i)
  {
    SmallerSet(Next(s, step).tasks[i].todo, s.tasks[i].todo, step.uri);
  }

  lemma {:induction false} PoolStepIsLess(s: System, step: Step, w: TaskPool.Step, i: nat)
    requires TaskPool.Inv(s.pool) && Enabled(s, step) && i < |s.tasks|
    requires TaskPool.Enabled(s.pool, w) && TaskPool.Works(s.pool, w)
    requires step == Work(w) || (step.Begin? && w == TaskPool.BeginPost(step.id))
    ensures Less(Next(s, step), s, i)
  {
    TaskPool.WorkIsUsed(s.pool, w);
  }

  /** The next step towards the end of a callback that has classified. */
  lemma {:induction false} ChooseEnd(s: System, id: TaskPool.TaskId, i: nat, a: Reply) returns (step: Step)
    requires Inv(s) && TaskPool.Enabled(s.pool, TaskPool.EndPost(id)) && i < |s.tasks| && s.tasks[i].waiting.None?
    ensures Enabled(s, step) && Calm(s, step, a) && Less(Next(s, step), s, i)
  {
    StartedJob(s, id);
    var o := s.owner[id];
    if ProgressOf(s, o) == VerifyTasks.Written {
      MayFinish(s, id);
      step := Finish(id);
      FinishIsLess(s, id, i);
    } else if s.tasks[o.task].waiting == Some(id) {
      DeliveryIsPossible(s, o.task);
      var write :| Enabled(s, Deliver(o.task, write, true));
      step := Deliver(o.task, write, true);
      DeliverIsLess(s, step, i);
    } else {
      ReturnIsPossible(s, id);
      step := Work(TaskPool.EndPost(id));
      PoolStepIsLess(s, step, TaskPool.EndPost(id), i);
    }
  }

  lemma {:induction false} ChooseBegin(s: System, id: TaskPool.TaskId, i: nat, a: Reply) returns (step: Step)
    requires Inv(s) && TaskPool.Enabled(s.pool, TaskPool.BeginPost(id)) && Possible(s, a) && i < |s.tasks|
    ensures Enabled(s, step) && Calm(s, step, a) && Less(Next(s, step), s, i)
  {
    StartedJob(s, id);
    var (response, now) := AnswerFor(s, a, id);
    MayBegin(s, id, response, now);
    step := Begin(id, response, now);
    PoolStepIsLess(s, step, TaskPool.BeginPost(id), i);
  }

  /** Work the pool can do can be done in the system. */
  lemma {:induction false} ChooseWork(s: System, w: TaskPool.Step, i: nat, a: Reply) returns (step: Step)
    requires Inv(s) && TaskPool.Enabled(s.pool, w) && TaskPool.Works(s.pool, w) && (w.Resume? ==> w.client)
    requires Possible(s, a) && i < |s.tasks| && s.tasks[i].waiting.None?
    ensures Enabled(s, step) && Calm(s, step, a) && Less(Next(s, step), s, i)
  {
    if w.BeginPost? {
      step := ChooseBegin(s, w.id, i, a);
    } else if w.EndPost? {
      step := ChooseEnd(s, w.id, i, a);
    } else {
      step := Work(w);
      PoolStepIsLess(s, step, w, i);
    }
  }

  lemma {:induction false} ChooseAdd(s: System, i: nat, a: Reply) returns (step: Step)
    requires i < |s.tasks| && s.tasks[i].todo != {}
    ensures Enabled(s, step) && Calm(s, step, a) && Less(Next(s, step), s, i)
  {
    var uri :| uri in s.tasks[i].todo;
    var id := FreshId(s.pool.added);
    var wakes: nat := |s.pool.workers|;
    if w: nat :| w < |s.pool.workers| && s.pool.workers[w] == TaskPool.Blocked {
      wakes := w;
    }
    step := AddHost(i, uri, id, wakes);
    AddIsLess(s, step, i);
  }

  lemma {:induction false} FreshId(ids: seq<TaskPool.TaskId>) returns (id: TaskPool.TaskId)
    ensures id !in ids && forall other :: other in ids ==> other < id
  {
    if ids == [] {
      id := 0;
    } else {
      id := FreshId(ids[1..]);
      id := if ids[0] < id then id else ids[0] + 1;
      assert ids == [ids[0]] + ids[1..];
    }
  }

  /** While a task's result may still come, some calm step uses up work. */
  lemma {:induction false} Choose(s: System, i: nat, a: Reply) returns (step: Step)
    requires Inv(s) && MayHandOver(s, i) && s.tasks[i].waiting.None? && Possible(s, a)
    ensures Enabled(s, step) && Calm(s, step, a) && Less(Next(s, step), s, i)
  {
    if s.tasks[i].todo != {} {
      step := ChooseAdd(s, i, a);
    } else {
      var u :| u in s.tasks[i].run.progress && s.tasks[i].run.progress[u] != VerifyTasks.Done;
      var w := OpenJobWorks(s, Owner(i, u));
      step := ChooseWork(s, w, i, a);
    }
  }

  /** A host that is not done has a job under way, or there is a queue that moves. */
  lemma {:induction false} OpenJobWorks(s: System, o: Owner) returns (w: TaskPool.Step)
    requires Inv(s) && Owned(s, o) && ProgressOf(s, o) != VerifyTasks.Done
    requires s.pool.stop ==> JobStarted(s, o)
    ensures TaskPool.Enabled(s.pool, w) && TaskPool.Works(s.pool, w) && (w.Resume? ==> w.client)
  {
    assert HasJob(s, o);
    var id :| id in s.owner && s.owner[id] == o;
    assert Tied(s.pool.phase, id, ProgressOf(s, o));
    if id in s.pool.phase {
      w := if s.pool.phase[id].Started? then TaskPool.BeginPost(id) else TaskPool.EndPost(id);
    } else {
      assert id in s.pool.added && id !in s.pool.started && id in s.pool.tasks;
      w := TaskPool.QueueMoves(s.pool);
    }
  }

  // ---------- the result comes ----------

  lemma {:induction false} PhaseStays(p: TaskPool.Pool, w: TaskPool.Step, id: TaskPool.TaskId)
    requires TaskPool.Enabled(p, w) && id in p.phase
    ensures id in TaskPool.Next(p, w).phase
  {
  }

  lemma {:induction false} StartedStays(s: System, step: Step, id: TaskPool.TaskId)
    requires Enabled(s, step) && id in s.pool.phase
    ensures id in Next(s, step).pool.phase
  {
    match step
    case AddHost(_, _, new_, wakes) => PhaseStays(s.pool, TaskPool.Add(new_, wakes), id);
    case Begin(other, _, _) => PhaseStays(s.pool, TaskPool.BeginPost(other), id);
    case Work(w) => PhaseStays(s.pool, w, id);
    case _ =>
  }

  lemma {:induction false} JobStaysStarted(s: System, step: Step, o: Owner)
    requires Enabled(s, step) && OwnersInv(s) && JobStarted(s, o)
    ensures JobStarted(Next(s, step), o)
  {
    var id :| id in s.owner && s.owner[id] == o && id in s.pool.phase;
    KeptOwner(s, step, id);
    StartedStays(s, step, id);
  }

  /** Calm steps do not stop the pool, nor reopen or forget a host. */
  lemma {:induction false} CalmProgress(s: System, step: Step, i: nat, a: Reply)
    requires Enabled(s, step) && Calm(s, step, a) && i < |s.tasks|
    ensures Next(s, step).pool.stop == s.pool.stop && |Next(s, step).tasks| == |s.tasks|
    ensures forall u :: u in Next(s, step).tasks[i].run.progress ==> u in s.tasks[i].run.progress
    ensures
      var was, is' := s.tasks[i].run.progress, Next(s, step).tasks[i].run.progress;
      forall u :: u in is' && is'[u] != VerifyTasks.Done ==> was[u] != VerifyTasks.Done
  {
  }

  lemma {:induction false} OpenJobsStayStarted(s: System, step: Step, i: nat, a: Reply)
    requires Enabled(s, step) && OwnersInv(s) && Calm(s, step, a) && i < |s.tasks| && OpenJobsStarted(s, i)
    ensures i < |Next(s, step).tasks| && OpenJobsStarted(Next(s, step), i)
  {
    var t := Next(s, step);
    CalmProgress(s, step, i, a);
    var progress := t.tasks[i].run.progress;
    forall u | u in progress && progress[u] != VerifyTasks.Done ensures JobStarted(t, Owner(i, u)) {
      JobStaysStarted(s, step, Owner(i, u));
    }
  }

  lemma {:induction false} StaysOpen(s: System, step: Step, i: nat, a: Reply)
    requires Inv(s) && Enabled(s, step) && Calm(s, step, a) && MayHandOver(s, i) && s.tasks[i].waiting.None?
    ensures MayHandOver(Next(s, step), i)
  {
    CalmProgress(s, step, i, a);
    if !VerifyTasks.AllDone(Next(s, step).tasks[i].run) {
      if s.pool.stop {
        OpenJobsStayStarted(s, step, i, a);
      }
    } else {
      LastFinishSaves(s, step, i);
    }
  }

  /** Finishing a task's last host begins its save. */
  lemma {:induction false} EndedSaves(t: Launched, uri: string, id: TaskPool.TaskId)
    requires TaskInv(t) && VerifyTasks.Enabled(t.run, VerifyTasks.Finish(uri))
    requires VerifyTasks.AllDone(Ended(t, uri, id).run)
    ensures Ended(t, uri, id).waiting == Some(id)
  {
    var after := Ended(t, uri, id).run;
    VerifyTasks.NextInv(t.run, VerifyTasks.Finish(uri), t.app, t.given, RetriedBy(t));
    VerifyTasks.DoneMeansSaved(t.run, t.app, t.given, RetriedBy(t));
    VerifyTasks.DoneMeansSaved(after, t.app, t.given, RetriedBy(t));
    assert t.run.progress[uri] != VerifyTasks.Done;
  }

  lemma {:induction false} OnlyFinishEnds(s: System, step: Step, i: nat)
    requires Enabled(s, step) && i < |s.tasks| && i < |Next(s, step).tasks|
    requires !VerifyTasks.AllDone(s.tasks[i].run) && VerifyTasks.AllDone(Next(s, step).tasks[i].run)
    ensures step.Finish? && s.owner[step.id].task == i
  {
    var u :| u in s.tasks[i].run.progress && s.tasks[i].run.progress[u] != VerifyTasks.Done;
    if step.Begin? && s.owner[step.id].task == i {
      BeganNotDone(s.tasks[i], s.owner[step.id].uri, step.response, step.now);
    }
  }

  lemma {:induction false} BeganNotDone(t: Launched, uri: string, response: HttpResponse, now: nat)
    requires VerifyTasks.Enabled(t.run, VerifyTasks.Classify(uri, response, now))
    ensures !VerifyTasks.AllDone(Began(t, uri, response, now).run)
  {
    assert Began(t, uri, response, now).run.progress[uri] == VerifyTasks.Written;
  }

  lemma {:induction false} LastFinishSaves(s: System, step: Step, i: nat)
    requires Inv(s) && Enabled(s, step) && i < |s.tasks| && i < |Next(s, step).tasks|
    requires !VerifyTasks.AllDone(s.tasks[i].run) && VerifyTasks.AllDone(Next(s, step).tasks[i].run)
    ensures step.Finish? && s.owner[step.id].task == i && Next(s, step).tasks[i].waiting == Some(step.id)
  {
    OnlyFinishEnds(s, step, i);
    EndedSaves(s.tasks[i], s.owner[step.id].uri, step.id);
  }

  lemma {:induction false} Start(run: seq<Step>, s: System, a: Reply)
    requires Exec(run) == Some(s) && a.owner.task < |s.tasks| && Possible(s, a)
    ensures Reached(run, s, [], s, a)
  {
    assert run + [] == run;
  }

  /** Calm steps lead from any state to one in which the task hands its result over. */
  lemma {:induction false} HandsOver(run: seq<Step>, s0: System, more: seq<Step>, s: System, a: Reply)
    returns (all: seq<Step>, t: System)
    requires Reached(run, s0, more, s, a) && MayHandOver(s, a.owner.task)
    ensures Reached(run, s0, all, t, a) && t.tasks[a.owner.task].waiting.Some?
    decreases |s.tasks[a.owner.task].todo|, TaskPool.WorkLeft(s.pool), |WrittenIds(s)|, |WaitingTasks(s)|
  {
    if s.tasks[a.owner.task].waiting.Some? {
      all, t := more, s;
    } else {
      RunInv(run + more);
      var step := Choose(s, a.owner.task, a);
      Go(run, s0, more, s, step, a);
      StaysOpen(s, step, a.owner.task, a);
      all, t := HandsOver(run, s0, more + [step], Next(s, step), a);
    }
  }

  /** From every reachable state a task with hosts left, their jobs started if the
      pool is stopping, or with a save under way can be brought to hand over its
      result, with any possible answer for one of its hosts. */
  lemma {:induction false} ResultCanComeBack(run: seq<Step>, s: System, a: Reply) returns (more: seq<Step>, t: System)
    requires Exec(run) == Some(s) && MayHandOver(s, a.owner.task) && Possible(s, a)
    ensures Reached(run, s, more, t, a) && Exec(run + more) == Some(t)
    ensures t.tasks[a.owner.task].waiting.Some? && Inv(t)
  {
    Start(run, s, a);
    more, t := HandsOver(run, s, [], s, a);
    RunInv(run + more);
  }
}
