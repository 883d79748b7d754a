/**
 The whole of verification: installs, uninstalls and refreshes at the manager, the
 tasks they start at the agent, the pool that runs one job per host, and the
 results that come back to the store. Everything interleaves.
 */
module VerificationSystem {
  import Decimal
  import ParcelCodec
  import Restarts
  import StoreRuns
  import TaskPool
  import VerifyTasks
  import opened DomainVerifier
  import opened ManagerService
  import opened RdbTable
  import opened Seqs
  import opened StatusStore
  import opened VerifyTypes

  /** A verification task: what it was given and when, how far its callbacks are,
      the hosts its Execute has not yet added to the pool, and the pool task whose
      callback is inside the call that saves the result. */
  datatype Launched = Launched(
    app: AppVerifyBaseInfo,
    given: VerifyResultInfo,
    at: nat,
    run: VerifyTasks.TaskRun,
    todo: set<string>,
    waiting: Option<TaskPool.TaskId>)

  /** The host of a verification task for which a pool task was made. */
  datatype Owner = Owner(task: nat, uri: string)

  /** `intact` tells whether every table operation so far took effect. */
  datatype System = System(
    pool: TaskPool.Pool,
    tasks: seq<Launched>,
    owner: map<TaskPool.TaskId, Owner>,
    store: Store,
    intact: bool)

  datatype Step =
    | Install(app: AppVerifyBaseInfo, skillUris: seq<SkillUri>, write: Write, now: nat)
    | Uninstall(bundleName: string, deleted: bool)
    | Refresh(app: AppVerifyBaseInfo, now: nat)
    | AddHost(task: nat, uri: string, id: TaskPool.TaskId, wakes: nat)
    | Begin(id: TaskPool.TaskId, response: HttpResponse, now: nat)
    | Finish(id: TaskPool.TaskId)
    | Deliver(task: nat, write: Write, received: bool)
    | Restart(read: nat)
    | Work(step: TaskPool.Step)

  const START: System := System(TaskPool.Init(), [], map[], Store(map[], []), true)

  function RetriedBy(t: Launched): set<string> {
    VerifyTasks.RetrySet(t.given.hostVerifyStatusMap, t.at)
  }

  /** The result gets through a parcel. */
  predicate Fits(info: VerifyResultInfo) {
    |info.hostVerifyStatusMap| <= ParcelCodec.MAX_PARCEL_ARRAY_SIZE
  }

  /** The whole map gets through a parcel. */
  predicate AllFit(m: Memory) {
    |m| < ParcelCodec.UINT32_RANGE && forall b :: b in m ==> Fits(m[b])
  }

  /** The response of a job whose HTTP client could not be created. */
  const NO_RESPONSE: HttpResponse := HttpResponse(0, None)

  /** A job without a client is given the empty response. */
  predicate MayAnswer(phase: TaskPool.Phase, response: HttpResponse) {
    phase == TaskPool.Started(false) ==> response == NO_RESPONSE
  }

  /** A task without hosts is not executed; too many do not reach the agent. */
  function Launch(s: System, app: AppVerifyBaseInfo, given: VerifyResultInfo, now: nat): System {
    if given.hostVerifyStatusMap == map[] || !Fits(given) then s
    else
      var run := VerifyTasks.StartRun(app, given, now);
      s.(tasks := s.tasks + [Launched(app, given, now, run, run.task.unVerified, None)])
  }

  ghost function Commit(s: System, op: Op): System
    requires LegalOp(s.store.memory, op)
  {
    s.(store := After(s.store, op),
       intact := s.intact && (Effective(s.store.memory, op) ==> StoreRuns.Succeeded(op)))
  }

  ghost function InstallOp(step: Step): Op
    requires step.Install?
  {
    Insert(step.app.bundleName, VerifyResultInfo(step.app.appIdentifier, Collected(step.skillUris)), step.write)
  }

  /** What the saved result of a task does to the store. */
  function SaveOp(t: Launched, write: Write): Op {
    Update(t.app.bundleName, t.run.task.result, write)
  }

  /** The manager starts again and loads the rows it can read, none if the query
      fails; the agent goes on. */
  function Restarted(s: System, read: nat): System
    requires read <= |s.store.rows|
  {
    s.(store := s.store.(memory := Loaded(s.store.rows[..read])), intact := s.intact && read == |s.store.rows|)
  }

  /** A callback begins and ends with its pool task; the one that saves ends only
      after the manager took the result, or could not be reached. */
  ghost predicate Enabled(s: System, step: Step) {
    match step
    case Install(app, _, _, _) => app.priority == PRIORITY_UNSET && LegalOp(s.store.memory, InstallOp(step))
    case Uninstall(_, _) => true
    case Refresh(app, _) =>
      && app.bundleName in s.store.memory && AllFit(s.store.memory)
      && app.priority == PRIORITY_UNSET && !app.isPreinstalled
    case AddHost(i, uri, id, wakes) =>
      i < |s.tasks| && uri in s.tasks[i].todo && TaskPool.Enabled(s.pool, TaskPool.Add(id, wakes))
    case Begin(id, response, now) =>
      && TaskPool.Enabled(s.pool, TaskPool.BeginPost(id)) && MayAnswer(s.pool.phase[id], response)
      && id in s.owner && s.owner[id].task < |s.tasks|
      && VerifyTasks.Enabled(s.tasks[s.owner[id].task].run, VerifyTasks.Classify(s.owner[id].uri, response, now))
    case Finish(id) =>
      && id in s.pool.phase && s.pool.phase[id].Posting?
      && id in s.owner && s.owner[id].task < |s.tasks|
      && VerifyTasks.Enabled(s.tasks[s.owner[id].task].run, VerifyTasks.Finish(s.owner[id].uri))
    case Deliver(i, write, received) =>
      && i < |s.tasks| && s.tasks[i].waiting.Some?
      && (received ==> LegalOp(s.store.memory, SaveOp(s.tasks[i], write)))
    case Restart(read) => read <= |s.store.rows|
    case Work(w) => TaskPool.Enabled(s.pool, w) && !w.Add? && !w.BeginPost? && (w.EndPost? ==> MayReturn(s, w.id))
  }

  predicate MayReturn(s: System, id: TaskPool.TaskId) {
    && id in s.owner && s.owner[id].task < |s.tasks|
    && s.owner[id].uri in s.tasks[s.owner[id].task].run.progress
    && s.tasks[s.owner[id].task].run.progress[s.owner[id].uri] == VerifyTasks.Done
    && s.tasks[s.owner[id].task].waiting != Some(id)
  }

  function Began(t: Launched, uri: string, response: HttpResponse, now: nat): Launched
    requires VerifyTasks.Enabled(t.run, VerifyTasks.Classify(uri, response, now))
  {
    t.(run := VerifyTasks.Next(t.run, VerifyTasks.Classify(uri, response, now)))
  }

  function Ended(t: Launched, uri: string, id: TaskPool.TaskId): Launched
    requires VerifyTasks.Enabled(t.run, VerifyTasks.Finish(uri))
  {
    var run := VerifyTasks.Next(t.run, VerifyTasks.Finish(uri));
    t.(run := run, waiting := if run.task.saves != t.run.task.saves then Some(id) else t.waiting)
  }

  ghost function Next(s: System, step: Step): System
    requires Enabled(s, step)
  {
    match step
    case Install(app, _, _, now) => Launch(Commit(s, InstallOp(step)), app, InstallOp(step).info, now)
    case Uninstall(b, deleted) => Commit(s, Delete(b, deleted))
    case Refresh(app, now) => Launch(s, app, s.store.memory[app.bundleName], now)
    case AddHost(i, uri, id, wakes) =>
      s.(pool := TaskPool.Next(s.pool, TaskPool.Add(id, wakes)),
         tasks := s.tasks[i := s.tasks[i].(todo := s.tasks[i].todo - {uri})],
         owner := s.owner[id := Owner(i, uri)])
    case Begin(id, response, now) =>
      var i := s.owner[id].task;
      s.(pool := TaskPool.Next(s.pool, TaskPool.BeginPost(id)),
         tasks := s.tasks[i := Began(s.tasks[i], s.owner[id].uri, response, now)])
    case Finish(id) =>
      var i := s.owner[id].task;
      s.(tasks := s.tasks[i := Ended(s.tasks[i], s.owner[id].uri, id)])
    case Deliver(i, write, received) =>
      (if received then Commit(s, SaveOp(s.tasks[i], write)) else s)
      .(tasks := s.tasks[i := s.tasks[i].(waiting := None)])
    case Restart(read) => Restarted(s, read)
    case Work(w) => s.(pool := TaskPool.Next(s.pool, w))
  }

  ghost function Exec(run: seq<Step>): Option<System> {
    if run == [] then Some(START)
    else
      match Exec(run[..|run| - 1])
      case None => None
      case Some(s) => if Enabled(s, run[|run| - 1]) then Some(Next(s, run[|run| - 1])) else None
  }

  lemma {:induction false} LastStep(run: seq<Step>, step: Step)
    requires Exec(run + [step]).Some?
    ensures Exec(run).Some? && Enabled(Exec(run).value, step)
    ensures Exec(run + [step]).value == Next(Exec(run).value, step)
  {
    var all := run + [step];
    assert all[..|all| - 1] == run && all[|all| - 1] == step;
  }

  lemma {:induction false} Extend(run: seq<Step>, s: System, step: Step)
    requires Exec(run) == Some(s) && Enabled(s, step)
    ensures Exec(run + [step]) == Some(Next(s, step))
  {
    var all := run + [step];
    assert all[..|all| - 1] == run && all[|all| - 1] == step;
  }

  // ---------- what every run keeps ----------

  /** A task is where the interleaved callbacks of one task can be; hosts not yet
      added have no callback. */
  ghost predicate TaskInv(t: Launched) {
    && VerifyTasks.Inv(t.run, t.app, t.given, RetriedBy(t))
    && LegalHosts(t.given.hostVerifyStatusMap) && Fits(t.given)
    && (forall u :: u in t.todo ==> u in t.run.progress && t.run.progress[u] == VerifyTasks.Awaited)
    && (t.waiting.Some? ==> t.run.task.saves != [])
  }

  ghost predicate TasksInv(s: System) {
    forall i :: 0 <= i < |s.tasks| ==> TaskInv(s.tasks[i])
  }

  ghost predicate Owned(s: System, o: Owner) {
    && o.task < |s.tasks|
    && o.uri in s.tasks[o.task].run.progress
    && o.uri !in s.tasks[o.task].todo
  }

  ghost predicate HasJob(s: System, o: Owner) {
    exists id :: id in s.owner && s.owner[id] == o
  }

  /** The pool tasks are, one to one, the hosts added so far. */
  ghost predicate OwnersInv(s: System) {
    && (forall id :: id in s.owner <==> id in s.pool.added)
    && (forall id :: id in s.owner ==> Owned(s, s.owner[id]))
    && (forall id, other :: id in s.owner && other in s.owner && s.owner[id] == s.owner[other] ==> id == other)
    && (forall o: Owner :: Owned(s, o) ==> HasJob(s, o))
  }

  function ProgressOf(s: System, o: Owner): VerifyTasks.Progress {
    if o.task < |s.tasks| && o.uri in s.tasks[o.task].run.progress then s.tasks[o.task].run.progress[o.uri]
    else VerifyTasks.Awaited
  }

  /** How far a pool task is tells how far its host is. */
  ghost predicate Tied(
    phases: map<TaskPool.TaskId, TaskPool.Phase>, id: TaskPool.TaskId, progress: VerifyTasks.Progress)
  {
    if id !in phases || phases[id].Started? then progress == VerifyTasks.Awaited
    else if phases[id].Posting? then progress != VerifyTasks.Awaited
    else progress == VerifyTasks.Done
  }

  ghost predicate PhasesInv(s: System) {
    forall id :: id in s.owner ==> Tied(s.pool.phase, id, ProgressOf(s, s.owner[id]))
  }

  /** While a save is under way, the callback making it is. */
  ghost predicate Saving(s: System, i: nat, id: TaskPool.TaskId) {
    && id in s.owner && s.owner[id].task == i
    && id in s.pool.phase && s.pool.phase[id].Posting?
    && ProgressOf(s, s.owner[id]) == VerifyTasks.Done
  }

  ghost predicate SavesInv(s: System) {
    forall i: nat :: i < |s.tasks| && s.tasks[i].waiting.Some? ==> Saving(s, i, s.tasks[i].waiting.value)
  }

  /** No row is of an unnamed bundle, and verified ones have legal priorities. */
  ghost predicate LegalRows(rows: seq<RdbDataItem>) {
    forall r :: r in rows ==> r.bundleName != "" && (Verified(r.status) ==> LegalPriority(r.priority))
  }

  /** Map and table are legal, and agree while the table is intact. */
  ghost predicate StoreInv(s: System) {
    && "" !in s.store.memory && LegalMemory(s.store.memory)
    && LegalRows(s.store.rows)
    && (s.intact ==> StoreRuns.Agrees(s.store))
  }

  ghost predicate Inv(s: System) {
    TaskPool.Inv(s.pool) && TasksInv(s) && OwnersInv(s) && PhasesInv(s) && SavesInv(s) && StoreInv(s)
  }

  lemma {:induction false} NextPool(s: System, step: Step)
    requires Enabled(s, step) && TaskPool.Inv(s.pool)
    ensures TaskPool.Inv(Next(s, step).pool)
  {
    match step
    case AddHost(_, _, id, wakes) => TaskPool.NextInv(s.pool, TaskPool.Add(id, wakes));
    case Begin(id, _, _) => TaskPool.NextInv(s.pool, TaskPool.BeginPost(id));
    case Work(w) => TaskPool.NextInv(s.pool, w);
    case _ =>
  }

  lemma {:induction false} LaunchTasks(s: System, app: AppVerifyBaseInfo, given: VerifyResultInfo, now: nat)
    requires TasksInv(s) && LegalHosts(given.hostVerifyStatusMap)
    ensures TasksInv(Launch(s, app, given, now))
  {
    VerifyTasks.StartInv(app, given, now);
  }

  lemma {:induction false} ReplaceTask(s: System, i: nat, t: Launched)
    requires TasksInv(s) && i < |s.tasks| && TaskInv(t)
    ensures TasksInv(s.(tasks := s.tasks[i := t]))
  {
  }

  lemma {:induction false} StepTask(t: Launched, step: VerifyTasks.Step)
    requires TaskInv(t) && VerifyTasks.Enabled(t.run, step) && step.uri !in t.todo
    ensures TaskInv(t.(run := VerifyTasks.Next(t.run, step)))
  {
    VerifyTasks.NextInv(t.run, step, t.app, t.given, RetriedBy(t));
  }

  lemma {:induction false} LaunchStepTasks(s: System, step: Step)
    requires Enabled(s, step) && TasksInv(s) && StoreInv(s) && (step.Install? || step.Refresh?)
    ensures TasksInv(Next(s, step))
  {
    if step.Install? {
      CollectedIsLegal(step.skillUris);
      LaunchTasks(Commit(s, InstallOp(step)), step.app, InstallOp(step).info, step.now);
    } else {
      LaunchTasks(s, step.app, s.store.memory[step.app.bundleName], step.now);
    }
  }

  lemma {:induction false} CallbackTasks(s: System, step: Step)
    requires Enabled(s, step) && TasksInv(s) && OwnersInv(s) && (step.Begin? || step.Finish?)
    ensures TasksInv(Next(s, step))
  {
    var o := s.owner[step.id];
    var t := s.tasks[o.task];
    assert Owned(s, o);
    if step.Begin? {
      StepTask(t, VerifyTasks.Classify(o.uri, step.response, step.now));
      ReplaceTask(s, o.task, Began(t, o.uri, step.response, step.now));
    } else {
      StepTask(t, VerifyTasks.Finish(o.uri));
      ReplaceTask(s, o.task, Ended(t, o.uri, step.id));
    }
  }

  lemma {:induction false} NextTasks(s: System, step: Step)
    requires Enabled(s, step) && TasksInv(s) && OwnersInv(s) && StoreInv(s)
    ensures TasksInv(Next(s, step))
  {
    if step.Install? || step.Refresh? {
      LaunchStepTasks(s, step);
    } else if step.Begin? || step.Finish? {
      CallbackTasks(s, step);
    } else if step.AddHost? {
      ReplaceTask(s, step.task, s.tasks[step.task].(todo := s.tasks[step.task].todo - {step.uri}));
    } else if step.Deliver? {
      ReplaceTask(s, step.task, s.tasks[step.task].(waiting := None));
    }
  }

  /** The hosts of a task just launched have no pool task yet. */
  lemma {:induction false} LaunchOwned(s: System, app: AppVerifyBaseInfo, given: VerifyResultInfo, now: nat, o: Owner)
    ensures Owned(Launch(s, app, given, now), o) <==> Owned(s, o)
  {
  }

  lemma {:induction false} ReplaceOwned(s: System, i: nat, t: Launched, o: Owner)
    requires i < |s.tasks| && t.run.progress.Keys == s.tasks[i].run.progress.Keys && t.todo == s.tasks[i].todo
    ensures Owned(s.(tasks := s.tasks[i := t]), o) <==> Owned(s, o)
  {
    assert forall u :: u in t.run.progress <==> u in t.run.progress.Keys;
    assert forall u :: u in s.tasks[i].run.progress <==> u in s.tasks[i].run.progress.Keys;
  }

  lemma {:induction false} SameOwned(s: System, step: Step, o: Owner)
    requires Enabled(s, step) && !step.AddHost?
    ensures Owned(Next(s, step), o) <==> Owned(s, o)
  {
    match step
    case Install(app, skillUris, _, now) => LaunchOwned(Commit(s, InstallOp(step)), app, InstallOp(step).info, now, o);
    case Refresh(app, now) => LaunchOwned(s, app, s.store.memory[app.bundleName], now, o);
    case Begin(id, response, now) =>
      var i := s.owner[id].task;
      ReplaceOwned(s, i, Began(s.tasks[i], s.owner[id].uri, response, now), o);
    case Finish(id) =>
      var i := s.owner[id].task;
      ReplaceOwned(s, i, Ended(s.tasks[i], s.owner[id].uri, id), o);
    case Deliver(i, _, _) => ReplaceOwned(s, i, s.tasks[i].(waiting := None), o);
    case Uninstall(_, _) =>
    case Restart(_) =>
    case Work(_) =>
  }

  lemma {:induction false} SameOwners(s: System, t: System)
    requires OwnersInv(s) && t.owner == s.owner && t.pool.added == s.pool.added
    requires forall o: Owner :: Owned(t, o) <==> Owned(s, o)
    ensures OwnersInv(t)
  {
    forall o: Owner | Owned(t, o) ensures HasJob(t, o) {
      var id :| id in s.owner && s.owner[id] == o;
      assert id in t.owner && t.owner[id] == o;
    }
  }

  lemma {:induction false} SameJobs(s: System, step: Step)
    requires Enabled(s, step) && !step.AddHost?
    ensures Next(s, step).owner == s.owner && Next(s, step).pool.added == s.pool.added
  {
  }

  lemma {:induction false} AddOwned(s: System, step: Step, o: Owner)
    requires step.AddHost? && Enabled(s, step) && TaskInv(s.tasks[step.task])
    ensures Owned(Next(s, step), o) <==> Owned(s, o) || o == Owner(step.task, step.uri)
  {
    var t, t' := s.tasks[step.task], Next(s, step).tasks[step.task];
    assert t'.run == t.run && t'.todo == t.todo - {step.uri} && step.uri in t.run.progress;
    assert o.task != step.task ==> Next(s, step).tasks[..] == s.tasks[step.task := t'];
  }

  lemma {:induction false} NextOwners(s: System, step: Step)
    requires Enabled(s, step) && TasksInv(s) && OwnersInv(s)
    ensures OwnersInv(Next(s, step))
  {
    var t := Next(s, step);
    if step.AddHost? {
      forall o: Owner ensures Owned(t, o) <==> Owned(s, o) || o == Owner(step.task, step.uri) {
        AddOwned(s, step, o);
      }
      OwnersAfterAdd(s, step);
    } else {
      forall o: Owner ensures Owned(t, o) <==> Owned(s, o) {
        SameOwned(s, step, o);
      }
      SameJobs(s, step);
      SameOwners(s, t);
    }
  }

  lemma {:induction false} OwnersAfterAdd(s: System, step: Step)
    requires step.AddHost? && Enabled(s, step) && OwnersInv(s)
    requires forall o: Owner :: Owned(Next(s, step), o) <==> Owned(s, o) || o == Owner(step.task, step.uri)
    ensures OwnersInv(Next(s, step))
  {
    var t, o := Next(s, step), Owner(step.task, step.uri);
    assert !Owned(s, o);
    assert t.owner == s.owner[step.id := o] && t.pool.added == s.pool.added + [step.id];
    assert forall id :: id in s.owner ==> s.owner[id] != o;
    forall p: Owner | Owned(t, p) ensures HasJob(t, p) {
      JobAfterAdd(s, t, step.id, o, p);
    }
  }

  lemma {:induction false} JobAfterAdd(s: System, t: System, id: TaskPool.TaskId, o: Owner, p: Owner)
    requires t.owner == s.owner[id := o] && id !in s.owner && (p == o || HasJob(s, p))
    ensures HasJob(t, p)
  {
    if p == o {
      assert t.owner[id] == o;
    } else {
      var other :| other in s.owner && s.owner[other] == p;
      assert other in t.owner && t.owner[other] == p;
    }
  }

  /** A step moves a host's progress only from the host's own callback. */
  lemma {:induction false} NextProgress(s: System, step: Step, o: Owner)
    requires Enabled(s, step) && OwnersInv(s) && Owned(s, o)
    ensures ProgressOf(Next(s, step), o) ==
      if step.Begin? && s.owner[step.id] == o then VerifyTasks.Written
      else if step.Finish? && s.owner[step.id] == o then VerifyTasks.Done
      else ProgressOf(s, o)
  {
  }

  /** A step moves the phase of one pool task at most, and by one. */
  lemma {:induction false} NextPhase(p: TaskPool.Pool, step: TaskPool.Step, id: TaskPool.TaskId)
    requires TaskPool.Enabled(p, step) && TaskPool.Fifo(p) && TaskPool.MapExact(p)
    ensures
      var q, here := TaskPool.Next(p, step).phase, id in p.phase;
      || (here == (id in q) && (here ==> q[id] == p.phase[id]))
      || (!here && id in q && q[id].Started?)
      || (here && id in q && step == TaskPool.BeginPost(id) && p.phase[id].Started? && q[id].Posting?)
      || (here && id in q && step == TaskPool.EndPost(id) && p.phase[id].Posting? && q[id].Posted?)
      || (here && id in q && !p.phase[id].Started? && !p.phase[id].Posting? && (q[id].Signalled? || q[id].Released?))
  {
    if step.Resume? && p.tasks != [] {
      TaskPool.FrontIsNew(p);
    }
  }

  /** A host just added has no callback yet. */
  lemma {:induction false} AddedTied(s: System, step: Step)
    requires step.AddHost? && Enabled(s, step) && TaskPool.Inv(s.pool) && TaskInv(s.tasks[step.task])
    ensures Tied(Next(s, step).pool.phase, step.id, ProgressOf(Next(s, step), Owner(step.task, step.uri)))
  {
    assert step.id !in s.pool.started by {
      assert forall id :: id in s.pool.started ==> id in s.pool.added;
    }
  }

  lemma {:induction false} BeginTied(s: System, step: Step, id: TaskPool.TaskId)
    requires Enabled(s, step) && step.Begin? && OwnersInv(s) && PhasesInv(s) && id in s.owner
    ensures Tied(Next(s, step).pool.phase, id, ProgressOf(Next(s, step), s.owner[id]))
  {
    var o := s.owner[id];
    assert Owned(s, o) && Tied(s.pool.phase, id, ProgressOf(s, o));
    NextProgress(s, step, o);
    assert step.id == id || s.owner[step.id] != o;
  }

  lemma {:induction false} FinishTied(s: System, step: Step, id: TaskPool.TaskId)
    requires Enabled(s, step) && step.Finish? && OwnersInv(s) && PhasesInv(s) && id in s.owner
    ensures Tied(Next(s, step).pool.phase, id, ProgressOf(Next(s, step), s.owner[id]))
  {
    var o := s.owner[id];
    assert Owned(s, o) && Tied(s.pool.phase, id, ProgressOf(s, o));
    NextProgress(s, step, o);
    assert step.id == id || s.owner[step.id] != o;
  }

  /** Other steps but those of workers move neither phases nor progress. */
  lemma {:induction false} OthersTied(s: System, step: Step, id: TaskPool.TaskId)
    requires Enabled(s, step) && !step.Begin? && !step.Finish? && !step.Work?
    requires OwnersInv(s) && PhasesInv(s) && id in s.owner
    ensures Tied(Next(s, step).pool.phase, id, ProgressOf(Next(s, step), s.owner[id]))
  {
    assert Owned(s, s.owner[id]) && Tied(s.pool.phase, id, ProgressOf(s, s.owner[id]));
    NextProgress(s, step, s.owner[id]);
  }

  lemma {:induction false} StaysTied(s: System, step: Step, id: TaskPool.TaskId)
    requires Enabled(s, step) && TaskPool.Inv(s.pool) && OwnersInv(s) && PhasesInv(s) && id in s.owner
    ensures Tied(Next(s, step).pool.phase, id, ProgressOf(Next(s, step), s.owner[id]))
  {
    if step.Begin? {
      BeginTied(s, step, id);
    } else if step.Finish? {
      FinishTied(s, step, id);
    } else if step.Work? {
      assert Tied(s.pool.phase, id, ProgressOf(s, s.owner[id]));
      WorkTied(s, step.step, id);
    } else {
      OthersTied(s, step, id);
    }
  }

  lemma {:induction false} WorkTied(s: System, w: TaskPool.Step, id: TaskPool.TaskId)
    requires Enabled(s, Work(w)) && TaskPool.Inv(s.pool) && id in s.owner
    requires Tied(s.pool.phase, id, ProgressOf(s, s.owner[id]))
    ensures Tied(TaskPool.Next(s.pool, w).phase, id, ProgressOf(s, s.owner[id]))
  {
    NextPhase(s.pool, w, id);
  }

  lemma {:induction false} NextPhases(s: System, step: Step)
    requires Enabled(s, step) && TaskPool.Inv(s.pool) && TasksInv(s) && OwnersInv(s) && PhasesInv(s)
    ensures PhasesInv(Next(s, step))
  {
    var t := Next(s, step);
    forall id | id in t.owner ensures Tied(t.pool.phase, id, ProgressOf(t, t.owner[id])) {
      if step.AddHost? && id == step.id {
        AddedTied(s, step);
      } else {
        StaysTied(s, step, id);
        KeptOwner(s, step, id);
      }
    }
  }

  lemma {:induction false} KeptOwner(s: System, step: Step, id: TaskPool.TaskId)
    requires Enabled(s, step) && OwnersInv(s) && id in s.owner
    ensures id in Next(s, step).owner && Next(s, step).owner[id] == s.owner[id]
  {
  }

  /** Only the end of a callback starts a save, and only its delivery ends it. */
  lemma {:induction false} NextWaiting(s: System, step: Step, i: nat)
    requires Enabled(s, step) && i < |Next(s, step).tasks| && Next(s, step).tasks[i].waiting.Some?
    ensures
      || (step.Finish? && s.owner[step.id].task == i && Next(s, step).tasks[i].waiting == Some(step.id))
      || (&& i < |s.tasks| && Next(s, step).tasks[i].waiting == s.tasks[i].waiting
          && !(step.Deliver? && step.task == i))
  {
  }

  lemma {:induction false} CallbackSaving(s: System, step: Step, i: nat, id: TaskPool.TaskId)
    requires Enabled(s, step) && OwnersInv(s) && (step.Begin? || step.Finish?)
    requires i < |s.tasks| && Saving(s, i, id)
    ensures Saving(Next(s, step), i, id)
  {
    var o := s.owner[id];
    assert Owned(s, o);
    NextProgress(s, step, o);
    assert step.id == id || s.owner[step.id] != o;
  }

  lemma {:induction false} WorkSaving(s: System, w: TaskPool.Step, i: nat, id: TaskPool.TaskId)
    requires Enabled(s, Work(w)) && TaskPool.Inv(s.pool)
    requires i < |s.tasks| && s.tasks[i].waiting == Some(id) && Saving(s, i, id)
    ensures Saving(Next(s, Work(w)), i, id)
  {
    NextPhase(s.pool, w, id);
  }

  lemma {:induction false} StaysSaving(s: System, step: Step, i: nat, id: TaskPool.TaskId)
    requires Enabled(s, step) && TaskPool.Inv(s.pool) && OwnersInv(s)
    requires i < |s.tasks| && s.tasks[i].waiting == Some(id) && Saving(s, i, id)
    ensures Saving(Next(s, step), i, id)
  {
    if step.Begin? || step.Finish? {
      CallbackSaving(s, step, i, id);
    } else if step.Work? {
      WorkSaving(s, step.step, i, id);
    } else {
      OthersSaving(s, step, i, id);
    }
  }

  lemma {:induction false} OthersSaving(s: System, step: Step, i: nat, id: TaskPool.TaskId)
    requires Enabled(s, step) && !step.Begin? && !step.Finish? && !step.Work? && TaskPool.Inv(s.pool) && OwnersInv(s)
    requires i < |s.tasks| && Saving(s, i, id)
    ensures Saving(Next(s, step), i, id)
  {
    assert Owned(s, s.owner[id]);
    NextProgress(s, step, s.owner[id]);
    KeptOwner(s, step, id);
  }

  lemma {:induction false} NextSaves(s: System, step: Step)
    requires Enabled(s, step) && TaskPool.Inv(s.pool) && OwnersInv(s) && SavesInv(s)
    ensures SavesInv(Next(s, step))
  {
    var t := Next(s, step);
    forall i: nat | i < |t.tasks| && t.tasks[i].waiting.Some? ensures Saving(t, i, t.tasks[i].waiting.value) {
      NextWaiting(s, step, i);
      if step.Finish? && t.tasks[i].waiting == Some(step.id) && s.owner[step.id].task == i {
        NextProgress(s, step, s.owner[step.id]);
      } else {
        StaysSaving(s, step, i, s.tasks[i].waiting.value);
      }
    }
  }

  /** Whatever its hosts answered, a task's result is legal. */
  lemma {:induction false} ResultIsLegal(t: Launched)
    requires TaskInv(t)
    ensures LegalHosts(t.run.task.result.hostVerifyStatusMap)
  {
  }

  lemma {:induction false} CommitStore(s: System, op: Op)
    requires StoreInv(s) && LegalOp(s.store.memory, op)
    requires op.Delete? || LegalHosts(op.info.hostVerifyStatusMap)
    ensures StoreInv(Commit(s, op))
  {
    var m := s.store.memory;
    MemoryStaysLegal(m, op);
    forall r | r in After(s.store, op).rows
      ensures r.bundleName != "" && (Verified(r.status) ==> LegalPriority(r.priority))
    {
      Restarts.RowsAfter(s.store, op, r);
      assert r !in s.store.rows ==> LegalHosts(MemoryAfter(m, op)[op.bundleName].hostVerifyStatusMap);
    }
    if s.intact && Effective(m, op) && StoreRuns.Succeeded(op) {
      StoreRuns.StepAgrees(s.store, op);
    }
  }

  lemma {:induction false} RestartStore(s: System, read: nat)
    requires StoreInv(s) && read <= |s.store.rows|
    ensures StoreInv(Restarted(s, read))
  {
    var rows := s.store.rows[..read];
    forall b, h | StoreRuns.Has(Loaded(rows), b, h) && Verified(Loaded(rows)[b].hostVerifyStatusMap[h].status)
      ensures LegalPriority(Loaded(rows)[b].hostVerifyStatusMap[h].priority)
    {
      var r := Restarts.LoadedFromRow(rows, b, h);
    }
    assert LegalMemory(Loaded(rows)) by {
      forall b | b in Loaded(rows) ensures LegalHosts(Loaded(rows)[b].hostVerifyStatusMap) {
        assert forall h :: h in Loaded(rows)[b].hostVerifyStatusMap ==> StoreRuns.Has(Loaded(rows), b, h);
      }
    }
    assert forall i :: 0 <= i < read ==> s.store.rows[i] in s.store.rows;
    if s.intact && read == |s.store.rows| {
      assert rows == s.store.rows;
      Restarts.RestartAgrees(s.store);
    }
  }

  lemma {:induction false} NextStore(s: System, step: Step)
    requires Enabled(s, step) && TasksInv(s) && StoreInv(s)
    ensures StoreInv(Next(s, step))
  {
    match step
    case Install(_, skillUris, _, _) =>
      CollectedIsLegal(skillUris);
      CommitStore(s, InstallOp(step));
    case Uninstall(b, deleted) => CommitStore(s, Delete(b, deleted));
    case Deliver(i, write, received) =>
      if received {
        ResultIsLegal(s.tasks[i]);
        CommitStore(s, SaveOp(s.tasks[i], write));
      }
    case Restart(read) => RestartStore(s, read);
    case _ =>
  }

  lemma {:induction false} NextInv(s: System, step: Step)
    requires Enabled(s, step) && Inv(s)
    ensures Inv(Next(s, step))
  {
    NextPool(s, step);
    NextTasks(s, step);
    NextOwners(s, step);
    NextPhases(s, step);
    NextSaves(s, step);
    NextStore(s, step);
  }

  /** Pool, tasks, jobs, saves and store stay consistent in every run. */
  lemma {:induction false} RunInv(run: seq<Step>)
    requires Exec(run).Some?
    ensures Inv(Exec(run).value)
  {
    if run == [] {
      TaskPool.RunInv([]);
    } else {
      RunInv(run[..|run| - 1]);
      NextInv(Exec(run[..|run| - 1]).value, run[|run| - 1]);
    }
  }

  // ---------- no callback is held up, and idle means saved ----------

  /** A started pool task is the job of a host that still is where it should be. */
  lemma {:induction false} StartedJob(s: System, id: TaskPool.TaskId)
    requires Inv(s) && id in s.pool.phase
    ensures id in s.owner && Owned(s, s.owner[id]) && TaskInv(s.tasks[s.owner[id].task])
    ensures Tied(s.pool.phase, id, ProgressOf(s, s.owner[id]))
  {
    assert id in s.pool.started && id in s.pool.added;
  }

  lemma {:induction false} MayBegin(s: System, id: TaskPool.TaskId, response: HttpResponse, now: nat)
    requires Inv(s) && TaskPool.Enabled(s.pool, TaskPool.BeginPost(id)) && MayAnswer(s.pool.phase[id], response)
    ensures Enabled(s, Begin(id, response, now))
  {
    StartedJob(s, id);
  }

  lemma {:induction false} MayFinish(s: System, id: TaskPool.TaskId)
    requires Inv(s) && id in s.pool.phase && s.pool.phase[id].Posting?
    requires id in s.owner && ProgressOf(s, s.owner[id]) == VerifyTasks.Written
    ensures Enabled(s, Finish(id))
  {
    StartedJob(s, id);
  }

  lemma {:induction false} DeliveryIsPossible(s: System, i: nat)
    requires i < |s.tasks| && s.tasks[i].waiting.Some?
    ensures MayDeliver(s, i)
  {
    var write := SomeWrite(s.store.memory, s.tasks[i]);
    assert Enabled(s, Deliver(i, write, true));
  }

  lemma {:induction false} ReturnIsPossible(s: System, id: TaskPool.TaskId)
    requires TaskPool.Enabled(s.pool, TaskPool.EndPost(id)) && MayReturn(s, id)
    ensures Enabled(s, Work(TaskPool.EndPost(id)))
  {
  }

  ghost predicate MayDeliver(s: System, i: nat) {
    exists write :: Enabled(s, Deliver(i, write, true))
  }

  /** The callback can return, or finish its host, or have its save answered. */
  ghost predicate MayGoOn(s: System, id: TaskPool.TaskId) {
    || Enabled(s, Work(TaskPool.EndPost(id)))
    || Enabled(s, Finish(id))
    || (id in s.owner && MayDeliver(s, s.owner[id].task))
  }

  lemma {:induction false} MayEnd(s: System, id: TaskPool.TaskId)
    requires Inv(s) && TaskPool.Enabled(s.pool, TaskPool.EndPost(id))
    ensures MayGoOn(s, id)
  {
    StartedJob(s, id);
    var o := s.owner[id];
    if ProgressOf(s, o) == VerifyTasks.Written {
      MayFinish(s, id);
    } else if s.tasks[o.task].waiting == Some(id) {
      DeliveryIsPossible(s, o.task);
    } else {
      assert MayReturn(s, id);
      ReturnIsPossible(s, id);
    }
  }

  /** Whenever the pool would let a callback begin, the whole system lets it, with
      any response if there is a client; and a callback under way is never stuck. */
  lemma {:induction false} CallbacksAreNeverHeldUp(
    run: seq<Step>, id: TaskPool.TaskId, response: HttpResponse, now: nat)
    requires Exec(run).Some? && id in Exec(run).value.pool.phase
    ensures Exec(run).value.pool.phase[id].Started? && MayAnswer(Exec(run).value.pool.phase[id], response) ==>
      Enabled(Exec(run).value, Begin(id, response, now))
    ensures Exec(run).value.pool.phase[id].Posting? ==> MayGoOn(Exec(run).value, id)
  {
    RunInv(run);
    var s := Exec(run).value;
    if s.pool.phase[id].Started? && MayAnswer(s.pool.phase[id], response) {
      MayBegin(s, id, response, now);
    } else if s.pool.phase[id].Posting? {
      MayEnd(s, id);
    }
  }

  lemma {:induction false} SomeWrite(m: Memory, t: Launched) returns (write: Write)
    ensures LegalOp(m, SaveOp(t, write))
  {
    write := Write([], false, 0);
    if Effective(m, SaveOp(t, write)) {
      var info := NewInfo(m, SaveOp(t, write));
      var order := Enumerate(info.hostVerifyStatusMap.Keys);
      write := Write(order, true, |order|);
      assert NewInfo(m, SaveOp(t, write)) == info;
    }
  }

  /** When the pool answers idle and a task's hosts have all been added, the task
      saved exactly once, completely, and no save is under way; with nothing to
      retry it saved nothing. */
  lemma {:induction false} IdleMeansSaved(run: seq<Step>, i: nat)
    requires Exec(run).Some? && i < |Exec(run).value.tasks|
    requires Exec(run).value.pool.taskMap == {} && Exec(run).value.tasks[i].todo == {}
    ensures
      var t := Exec(run).value.tasks[i];
      && VerifyTasks.AllDone(t.run) && t.waiting.None?
      && |t.run.task.saves| == (if RetriedBy(t) == {} then 0 else 1)
      && (RetriedBy(t) != {} ==> VerifyTasks.Complete(t.run.task.saves[0], t.run, t.given, RetriedBy(t)))
  {
    RunInv(run);
    var s := Exec(run).value;
    var t := s.tasks[i];
    TaskPool.IdleExactly(s.pool);
    forall h | h in t.run.progress ensures t.run.progress[h] == VerifyTasks.Done {
      JobReleased(s, Owner(i, h));
    }
    assert TaskInv(t);
    VerifyTasks.DoneMeansSaved(t.run, t.app, t.given, RetriedBy(t));
    NoSaveWhenIdle(s, i);
  }

  lemma {:induction false} JobReleased(s: System, o: Owner)
    requires OwnersInv(s) && PhasesInv(s) && TaskPool.Delivered(s.pool) && Owned(s, o)
    ensures ProgressOf(s, o) == VerifyTasks.Done
  {
    assert HasJob(s, o);
    var id :| id in s.owner && s.owner[id] == o;
    assert Tied(s.pool.phase, id, ProgressOf(s, o));
  }

  lemma {:induction false} NoSaveWhenIdle(s: System, i: nat)
    requires OwnersInv(s) && SavesInv(s) && TaskPool.Delivered(s.pool) && i < |s.tasks|
    ensures s.tasks[i].waiting.None?
  {
    assert forall id :: !Saving(s, i, id);
  }

  // ---------- what the store answers ----------

  /** In every reachable state the choice among candidates is the exact, stable
      arg-max, and empty exactly when no candidate is verified. */
  lemma {:induction false} ChoiceIsExact(run: seq<Step>, key: string, origin: seq<AbilityInfo>) returns (at: seq<nat>)
    requires Exec(run).Some?
    ensures
      var m := Exec(run).value.store.memory;
      var r := Selected(m, key, origin, []);
      && |at| == |r|
      && (forall i :: 0 <= i < |at| ==> at[i] < |origin| && r[i] == origin[at[i]])
      && (forall i, j :: 0 <= i < j < |at| ==> at[i] < at[j])
      && (forall k: nat :: k < |origin| ==> (k in at <==> Maximal(m, key, origin, origin[k])))
      && (r == [] <==> forall a :: a in origin ==> Offer(m, key, a).None?)
  {
    RunInv(run);
    at := StableArgMax(Exec(run).value.store.memory, key, origin);
  }

  /** Reference: what the bundle's last install or uninstall left; a restart drops
      bundles without hosts. */
  ghost function Installed(run: seq<Step>, b: string): Option<VerifyResultInfo> {
    if run == [] then None
    else
      var step, before := run[|run| - 1], Installed(run[..|run| - 1], b);
      if step.Install? && step.app.bundleName == b then Some(InstallOp(step).info)
      else if step.Uninstall? && step.bundleName == b then None
      else if step.Restart? && before.Some? && before.value.hostVerifyStatusMap == map[] then None
      else before
  }

  /** A restart finds the bundle in the rows it reads as it is now. */
  ghost predicate RestartKeeps(s: System, read: nat, b: string) {
    read <= |s.store.rows| && Restarts.RowsFollow(Store(s.store.memory, s.store.rows[..read]), b)
  }

  ghost predicate RestartsKeep(run: seq<Step>, b: string) {
    run == [] ||
    var before, step := run[..|run| - 1], run[|run| - 1];
    && RestartsKeep(before, b)
    && (step.Restart? ==> Exec(before).Some? && RestartKeeps(Exec(before).value, step.read, b))
  }

  /** However late results come back and whatever the table does, if restarts found
      the bundle's rows as they should be it is stored exactly when its last install
      was not undone, and with exactly that install's hosts. */
  lemma {:induction false} StoredAsLastInstalled(run: seq<Step>, b: string)
    requires Exec(run).Some? && RestartsKeep(run, b) && b != ""
    ensures
      var m := Exec(run).value.store.memory;
      && (b in m <==> Installed(run, b).Some?)
      && (b in m ==> SameHosts(m[b], Installed(run, b).value))
  {
    if run != [] {
      var before := run[..|run| - 1];
      StoredAsLastInstalled(before, b);
      NextStored(Exec(before).value, run[|run| - 1], b);
    }
  }

  /** What an operation leaves of a bundle. */
  lemma {:induction false} AfterStored(m: Memory, op: Op, b: string)
    requires b != ""
    ensures
      var m' := MemoryAfter(m, op);
      if op.Insert? && op.bundleName == b then b in m' && m'[b] == op.info
      else if op.Delete? && op.bundleName == b then b !in m'
      else (b in m' <==> b in m) && (b in m ==> SameHosts(m'[b], m[b]))
  {
  }

  lemma {:induction false} NextStored(s: System, step: Step, b: string)
    requires Enabled(s, step) && (step.Restart? ==> RestartKeeps(s, step.read, b)) && b != ""
    ensures
      var m, m' := s.store.memory, Next(s, step).store.memory;
      if step.Install? && step.app.bundleName == b then b in m' && m'[b] == InstallOp(step).info
      else if step.Uninstall? && step.bundleName == b then b !in m'
      else if step.Restart? && b in m && m[b].hostVerifyStatusMap == map[] then b !in m'
      else (b in m' <==> b in m) && (b in m ==> SameHosts(m'[b], m[b]))
  {
    var m := s.store.memory;
    match step
    case Install(_, _, _, _) => AfterStored(m, InstallOp(step), b);
    case Uninstall(c, deleted) => AfterStored(m, Delete(c, deleted), b);
    case Deliver(i, write, received) => if received { AfterStored(m, SaveOp(s.tasks[i], write), b); }
    case _ =>
  }

  ghost predicate SameHosts(a: VerifyResultInfo, b: VerifyResultInfo) {
    a.appIdentifier == b.appIdentifier && a.hostVerifyStatusMap.Keys == b.hostVerifyStatusMap.Keys
  }

  /** While table operations take effect the table is the flattening of the map, and
      a restart of the manager that reads all rows restores the map if and only if
      every bundle has a host. */
  lemma {:induction false} TableFollowsMemory(run: seq<Step>)
    requires Exec(run).Some? && Exec(run).value.intact
    ensures
      var s := Exec(run).value;
      && StoreRuns.Agrees(s.store)
      && (Restarted(s, |s.store.rows|) == s <==>
        forall b :: b in s.store.memory ==> s.store.memory[b].hostVerifyStatusMap != map[])
  {
    RunInv(run);
    var s := Exec(run).value;
    assert s.store.rows[..|s.store.rows|] == s.store.rows;
    Restarts.RestartRestores(s.store);
  }

  /** The operation on the store a step makes, if any. */
  ghost function OpOf(s: System, step: Step): Option<Op>
    requires Enabled(s, step)
  {
    match step
    case Install(_, _, _, _) => Some(InstallOp(step))
    case Uninstall(b, deleted) => Some(Delete(b, deleted))
    case Deliver(i, write, received) => if received then Some(SaveOp(s.tasks[i], write)) else None
    case _ => None
  }

  ghost predicate Writes(s: System, step: Step, b: string)
    requires Enabled(s, step)
  {
    OpOf(s, step).Some? && Restarts.Concerns(s.store.memory, OpOf(s, step).value, b)
  }

  /** The last step of the run that wrote the bundle, or restarted the manager, had
      all its table operations take effect. */
  ghost predicate LastWriteLanded(run: seq<Step>, b: string) {
    run == [] ||
    var before, step := run[..|run| - 1], run[|run| - 1];
    && Exec(before).Some? && Enabled(Exec(before).value, step)
    && (if Writes(Exec(before).value, step, b) then StoreRuns.Succeeded(OpOf(Exec(before).value, step).value)
        else if step.Restart? then step.read == |Exec(before).value.store.rows|
        else LastWriteLanded(before, b))
  }

  /** Then the table follows the map for that bundle, whatever failed before it and
      for other bundles. */
  lemma {:induction false} TableFollowsBundle(run: seq<Step>, b: string)
    requires Exec(run).Some? && LastWriteLanded(run, b)
    ensures Restarts.RowsFollow(Exec(run).value.store, b)
  {
    if run != [] {
      var before, step := run[..|run| - 1], run[|run| - 1];
      var s := Exec(before).value;
      if Writes(s, step, b) {
        Restarts.SuccessFollows(s.store, OpOf(s, step).value);
      } else if step.Restart? {
        RestartFollows(s, b);
      } else {
        TableFollowsBundle(before, b);
        if OpOf(s, step).Some? { Restarts.OthersFollow(s.store, OpOf(s, step).value, b); }
      }
    }
  }

  lemma {:induction false} RestartFollows(s: System, b: string)
    ensures Restarts.RowsFollow(Restarted(s, |s.store.rows|).store, b)
  {
    assert s.store.rows[..|s.store.rows|] == s.store.rows;
    if b in Loaded(s.store.rows) {
      Restarts.LoadedHasHost(s.store.rows, b);
    }
  }

  // ---------- which hosts are asked ----------

  /** The record is neither a success nor forbidden and, for a client error, has no
      stamp or one read as a time longer ago than the backoff. */
  predicate Due(e: VerifyStatus, now: nat) {
    && e.status != 1 && e.status != 9
    && (e.status == 4 && e.verifyTime != "" ==>
         && Decimal.ToInt64(e.verifyTime).Some?
         && now - Decimal.ToInt64(e.verifyTime).value > VerifyTasks.CalcRetryDuration(e.retryCnt))
  }

  /** A refresh of a bundle with hosts starts a task that will ask exactly the stored
      hosts that are due, and keeps what is stored. */
  lemma {:induction false} RefreshAsksExactly(s: System, step: Step, h: string)
    requires Enabled(s, step) && step.Refresh? && s.store.memory[step.app.bundleName].hostVerifyStatusMap != map[]
    ensures
      var t, hosts := Next(s, step), s.store.memory[step.app.bundleName].hostVerifyStatusMap;
      && |t.tasks| == |s.tasks| + 1 && t.tasks[..|s.tasks|] == s.tasks && t.store == s.store && t.pool == s.pool
      && t.tasks[|s.tasks|].app == step.app && t.tasks[|s.tasks|].given == s.store.memory[step.app.bundleName]
      && (h in t.tasks[|s.tasks|].todo <==> h in hosts && Due(hosts[h], step.now))
  {
    VerifyTasks.StartsExactly(step.app, s.store.memory[step.app.bundleName], step.now, h);
  }

  /** An install asks all its hosts, if they fit and there are any; else none. */
  lemma {:induction false} InstallAsksAll(s: System, step: Step)
    requires Enabled(s, step) && step.Install?
    ensures
      var t, info := Next(s, step), InstallOp(step).info;
      if info.hostVerifyStatusMap == map[] || |info.hostVerifyStatusMap| > 99 then t.tasks == s.tasks
      else
        && |t.tasks| == |s.tasks| + 1 && t.tasks[..|s.tasks|] == s.tasks
        && t.tasks[|s.tasks|].app == step.app && t.tasks[|s.tasks|].given == info
        && t.tasks[|s.tasks|].todo == info.hostVerifyStatusMap.Keys
  {
    var info := InstallOp(step).info;
    forall h ensures h in VerifyTasks.NewTask(step.app, info, step.now).unVerified <==> h in info.hostVerifyStatusMap {
      VerifyTasks.StartsExactly(step.app, info, step.now, h);
    }
    assert VerifyTasks.NewTask(step.app, info, step.now).unVerified == info.hostVerifyStatusMap.Keys;
  }

  // ---------- too many hosts for a parcel ----------

  /** What gets through is what the codec reads back. */
  lemma {:induction false} FitsExactly(
    info: VerifyResultInfo, tokens: seq<ParcelCodec.Token>, rest: seq<ParcelCodec.Token>)
    requires ParcelCodec.WritesInfo(tokens, info)
    ensures ParcelCodec.ReadInfo(tokens + rest) == Some((info, rest)) <==> Fits(info)
  {
    ParcelCodec.InfoRoundTrip(tokens, info, rest);
  }

  lemma {:induction false} AllFitExactly(m: Memory, tokens: seq<ParcelCodec.Token>, rest: seq<ParcelCodec.Token>)
    requires ParcelCodec.WritesStatus(tokens, m)
    ensures ParcelCodec.ReadStatus(tokens + rest) == Some((m, rest)) <==> AllFit(m)
  {
    ParcelCodec.StatusRoundTrip(tokens, m, rest);
  }

  /** What a task hands over always gets through. */
  lemma {:induction false} ResultFits(t: Launched)
    requires TaskInv(t)
    ensures Fits(t.run.task.result)
  {
    assert t.run.task.result.hostVerifyStatusMap.Keys == t.given.hostVerifyStatusMap.Keys;
    SameSize(t.run.task.result.hostVerifyStatusMap, t.given.hostVerifyStatusMap);
  }

  lemma {:induction false} SameSize(m: HostVerifyStatusMap, n: HostVerifyStatusMap)
    requires m.Keys == n.Keys
    ensures |m| == |n|
  {
    assert |m| == |m.Keys| && |n| == |n.Keys|;
  }

  ghost predicate Leaves(step: Step, b: string) {
    && (step.Install? ==> step.app.bundleName != b)
    && (step.Uninstall? ==> step.bundleName != b)
    && !step.Restart?
  }

  /** A bundle with more hosts than fit is stored. */
  ghost predicate TooBig(s: Option<System>, b: string) {
    s.Some? && b in s.value.store.memory && !Fits(s.value.store.memory[b])
  }

  ghost predicate AllLeave(more: seq<Step>, b: string) {
    forall k :: 0 <= k < |more| ==> Leaves(more[k], b)
  }

  ghost predicate NoRefresh(more: seq<Step>) {
    forall k :: 0 <= k < |more| ==> !more[k].Refresh?
  }

  lemma {:induction false} FrontLeaves(more: seq<Step>, b: string)
    requires AllLeave(more, b) && more != []
    ensures AllLeave(more[..|more| - 1], b) && Leaves(more[|more| - 1], b)
  {
  }

  lemma {:induction false} NoneRefresh(more: seq<Step>)
    requires more != [] && NoRefresh(more[..|more| - 1]) && !more[|more| - 1].Refresh?
    ensures NoRefresh(more)
  {
    assert forall k :: 0 <= k < |more| - 1 ==> more[k] == more[..|more| - 1][k];
  }

  /** An installed bundle with more hosts than fit stops every refresh, of all
      bundles, until it is installed again or uninstalled or the manager restarts. */
  lemma {:induction false} TooManyHostsStopRefresh(run: seq<Step>, more: seq<Step>, b: string)
    requires TooBig(Exec(run), b) && Exec(run + more).Some? && AllLeave(more, b)
    ensures TooBig(Exec(run + more), b) && NoRefresh(more)
  {
    if more == [] {
      assert run + more == run;
    } else {
      var front, last := more[..|more| - 1], more[|more| - 1];
      FrontLeaves(more, b);
      AppendLast(run, more);
      LastRan(run + front, last);
      TooManyHostsStopRefresh(run, front, b);
      LastTooBig(run + front, last, b);
      NoneRefresh(more);
    }
  }

  lemma {:induction false} LastRan(run: seq<Step>, step: Step)
    requires Exec(run + [step]).Some?
    ensures Exec(run).Some?
  {
    LastStep(run, step);
  }

  lemma {:induction false} LastTooBig(run: seq<Step>, step: Step, b: string)
    requires TooBig(Exec(run), b) && Exec(run + [step]).Some? && Leaves(step, b)
    ensures TooBig(Exec(run + [step]), b) && !step.Refresh?
  {
    LastStep(run, step);
    StaysTooBig(Exec(run).value, step, b);
  }

  lemma {:induction false} StaysTooBig(s: System, step: Step, b: string)
    requires Enabled(s, step) && Leaves(step, b) && b in s.store.memory && !Fits(s.store.memory[b])
    ensures !step.Refresh?
    ensures b in Next(s, step).store.memory && !Fits(Next(s, step).store.memory[b])
  {
    if b != "" {
      NextStored(s, step, b);
      SameSize(Next(s, step).store.memory[b].hostVerifyStatusMap, s.store.memory[b].hostVerifyStatusMap);
    }
  }
}
