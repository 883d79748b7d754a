/**
 Whether a success was vouched for the application now installed. Results are
 merged by bundle name alone, and rows left in the table come back at a restart,
 so a result of an earlier install of another identifier can verify hosts of the
 new one.
 */
module InstallIdentity {
  import Restarts
  import StoreRuns
  import TaskPool
  import VerifyTasks
  import opened Completion
  import opened Decimal
  import opened DomainVerifier
  import opened KeptSuccess
  import opened Seqs
  import opened StatusStore
  import opened SystemRuns
  import opened VerificationSystem
  import opened VerifyTypes

  /** The identifier installed for the bundle, whatever the store says. */
  function InstalledId(run: seq<Step>, b: string): Option<string> {
    if run == [] then None
    else
      var step := run[|run| - 1];
      if step.Install? && step.app.bundleName == b then Some(step.app.appIdentifier)
      else if step.Uninstall? && step.bundleName == b then None
      else InstalledId(run[..|run| - 1], b)
  }

  /** A success was given to the app with the identifier. */
  ghost predicate Own(run: seq<Step>, b: string, id: Option<string>, h: string, e: VerifyStatus) {
    e.status == STATE_SUCCESS ==> id.Some? && ProvedFor(run, b, id.value, h, e)
  }

  /** Every success the map holds of the bundle was vouched for the identifier. */
  ghost predicate HoldsOwn(run: seq<Step>, m: Memory, b: string, id: Option<string>) {
    forall h :: StoreRuns.Has(m, b, h) ==> Own(run, b, id, h, m[b].hostVerifyStatusMap[h])
  }

  /** Some asset file can vouch for the app. */
  predicate CanSucceed(app: AppVerifyBaseInfo) {
    app.appIdentifier != "" || (app.bundleName != "" && app.fingerprint != "")
  }

  /** What task `i` may still bring of a host was or will be vouched for `id`. */
  ghost predicate BringsOwn(run: seq<Step>, s: System, i: nat, b: string, id: Option<string>, h: string)
    requires i < |s.tasks|
  {
    var t := s.tasks[i];
    h in t.run.task.result.hostVerifyStatusMap ==>
      && Own(run, b, id, h, t.run.task.result.hostVerifyStatusMap[h])
      && (Awaits(t, h) && CanSucceed(t.app) && Answerable(s, Owner(i, h)) ==> id == Some(t.app.appIdentifier))
  }

  /** The host is one the bundle has, or would have after a restart. */
  ghost predicate HasNowOrLoaded(s: System, b: string, h: string) {
    StoreRuns.Has(s.store.memory, b, h) || StoreRuns.Has(Loaded(s.store.rows), b, h)
  }

  ghost predicate MayBring(s: System, i: nat, b: string, h: string) {
    MayHandOver(s, i) && s.tasks[i].app.bundleName == b && HasNowOrLoaded(s, b, h)
  }

  ghost predicate TasksOwn(run: seq<Step>, s: System, b: string, id: Option<string>) {
    forall i: nat, h :: MayBring(s, i, b, h) ==> BringsOwn(run, s, i, b, id, h)
  }

  /** The store, the table as a restart would find it, and every task that may still
      bring a result hold only successes vouched for the identifier. */
  ghost predicate AllOwn(run: seq<Step>, s: System, b: string, id: Option<string>) {
    && HoldsOwn(run, s.store.memory, b, id)
    && HoldsOwn(run, Loaded(s.store.rows), b, id)
    && TasksOwn(run, s, b, id)
  }

  /** The bundle is neither installed nor uninstalled, and a refresh of it looks up
      the identifier installed. Restarts are free to read any part of any table. */
  predicate Continues(step: Step, b: string, id: Option<string>) {
    && !(step.Install? && step.app.bundleName == b)
    && !(step.Uninstall? && step.bundleName == b)
    && (step.Refresh? && step.app.bundleName == b ==> id == Some(step.app.appIdentifier))
  }

  predicate AllContinue(more: seq<Step>, b: string, id: Option<string>) {
    forall k :: 0 <= k < |more| ==> Continues(more[k], b, id)
  }

  ghost predicate OwnAfter(run: seq<Step>, more: seq<Step>, b: string) {
    var id := InstalledId(run, b);
    Exec(run + more).Some? && AllContinue(more, b, id) ==>
      HoldsOwn(run + more, Exec(run + more).value.store.memory, b, id)
  }

  ghost predicate OwnForever(run: seq<Step>, b: string) {
    forall more :: OwnAfter(run, more, b)
  }

  /** The identifier is the same all along. */
  lemma {:induction false} SameInstalled(run: seq<Step>, more: seq<Step>, b: string, id: Option<string>)
    requires AllContinue(more, b, id)
    ensures InstalledId(run + more, b) == InstalledId(run, b)
  {
    if more == [] {
      assert run + more == run;
    } else {
      AppendLast(run, more);
      var all := run + more;
      assert all[..|all| - 1] == run + more[..|more| - 1] && all[|all| - 1] == more[|more| - 1];
      SameInstalled(run, more[..|more| - 1], b, id);
    }
  }

  // ---------- enough ----------

  lemma {:induction false} StillOwn(
    run: seq<Step>, step: Step, b: string, id: Option<string>, h: string, e: VerifyStatus)
    requires Own(run, b, id, h, e)
    ensures Own(run + [step], b, id, h, e)
  {
    if e.status == STATE_SUCCESS {
      ProvedNext(run, step, b, id.value, h, e);
    }
  }

  ghost predicate Keeps(m: Memory, b: string, h: string, e: VerifyStatus) {
    StoreRuns.Has(m, b, h) && m[b].hostVerifyStatusMap[h] == e
  }

  /** The task brings this record of the host. */
  ghost predicate Brings(t: Launched, b: string, h: string, e: VerifyStatus) {
    && t.app.bundleName == b
    && h in t.run.task.result.hostVerifyStatusMap && t.run.task.result.hostVerifyStatusMap[h] == e
  }

  lemma {:induction false} RecordAfter(m: Memory, op: Op, b: string, h: string, e: VerifyStatus)
    requires (op.bundleName == b ==> op.Update?) && Keeps(MemoryAfter(m, op), b, h, e)
    ensures StoreRuns.Has(m, b, h)
    ensures
      || Keeps(m, b, h, e)
      || (op.bundleName == b && h in op.info.hostVerifyStatusMap && op.info.hostVerifyStatusMap[h] == e)
  {
  }

  /** A stored record was stored before, or is loaded, or delivered for a host the
      bundle has. */
  lemma {:induction false} StoredFrom(s: System, step: Step, b: string, id: Option<string>, h: string, e: VerifyStatus)
    requires Enabled(s, step) && Continues(step, b, id) && Keeps(Next(s, step).store.memory, b, h, e)
    ensures HasNowOrLoaded(s, b, h)
    ensures
      || Keeps(s.store.memory, b, h, e)
      || Keeps(Loaded(s.store.rows), b, h, e)
      || (step.Deliver? && StoreRuns.Has(s.store.memory, b, h) && Brings(s.tasks[step.task], b, h, e))
  {
    var m := s.store.memory;
    match step
    case Install(_, _, _, _) => RecordAfter(m, InstallOp(step), b, h, e);
    case Uninstall(c, deleted) => RecordAfter(m, Delete(c, deleted), b, h, e);
    case Deliver(i, write, received) => if received { RecordAfter(m, SaveOp(s.tasks[i], write), b, h, e); }
    case Restart(read) => Restarts.PrefixLoads(s.store.rows, read, b);
    case _ =>
  }

  /** A record a restart would find would have been found before, or is stored now. */
  lemma {:induction false} OpLoadedFrom(s: Store, op: Op, b: string, h: string, e: VerifyStatus)
    requires LegalOp(s.memory, op) && (op.bundleName == b ==> op.Update?)
    requires Keeps(Loaded(After(s, op).rows), b, h, e)
    ensures Keeps(Loaded(s.rows), b, h, e) || Keeps(MemoryAfter(s.memory, op), b, h, e)
  {
    if Restarts.Concerns(s.memory, op, b) {
      Restarts.RestartAfterWrite(s, op);
    } else {
      Restarts.RestartAfterOther(s, op, b);
    }
  }

  lemma {:induction false} LoadedFrom(s: System, step: Step, b: string, id: Option<string>, h: string, e: VerifyStatus)
    requires Enabled(s, step) && Continues(step, b, id) && Keeps(Loaded(Next(s, step).store.rows), b, h, e)
    ensures Keeps(Loaded(s.store.rows), b, h, e) || Keeps(Next(s, step).store.memory, b, h, e)
  {
    match step
    case Install(_, _, _, _) => OpLoadedFrom(s.store, InstallOp(step), b, h, e);
    case Uninstall(c, deleted) => OpLoadedFrom(s.store, Delete(c, deleted), b, h, e);
    case Deliver(i, write, received) => if received { OpLoadedFrom(s.store, SaveOp(s.tasks[i], write), b, h, e); }
    case _ =>
  }

  /** The hosts do not become more. */
  lemma {:induction false} HostsFrom(s: System, step: Step, b: string, id: Option<string>, h: string)
    requires Enabled(s, step) && Continues(step, b, id) && HasNowOrLoaded(Next(s, step), b, h)
    ensures HasNowOrLoaded(s, b, h)
  {
    var t := Next(s, step).store;
    if !StoreRuns.Has(t.memory, b, h) {
      LoadedFrom(s, step, b, id, h, Loaded(t.rows)[b].hostVerifyStatusMap[h]);
    } else {
      StoredFrom(s, step, b, id, h, t.memory[b].hostVerifyStatusMap[h]);
    }
  }

  lemma {:induction false} NextHoldsOwn(run: seq<Step>, s: System, step: Step, b: string, id: Option<string>)
    requires Enabled(s, step) && Continues(step, b, id) && AllOwn(run, s, b, id)
    ensures HoldsOwn(run + [step], Next(s, step).store.memory, b, id)
  {
    var m' := Next(s, step).store.memory;
    forall h | StoreRuns.Has(m', b, h) ensures Own(run + [step], b, id, h, m'[b].hostVerifyStatusMap[h]) {
      var e := m'[b].hostVerifyStatusMap[h];
      StoredFrom(s, step, b, id, h, e);
      if step.Deliver? && Brings(s.tasks[step.task], b, h, e) {
        assert MayBring(s, step.task, b, h);
        assert BringsOwn(run, s, step.task, b, id, h);
      }
      StillOwn(run, step, b, id, h, e);
    }
  }

  lemma {:induction false} NextLoadsOwn(run: seq<Step>, s: System, step: Step, b: string, id: Option<string>)
    requires Enabled(s, step) && Continues(step, b, id) && AllOwn(run, s, b, id)
    requires HoldsOwn(run + [step], Next(s, step).store.memory, b, id)
    ensures HoldsOwn(run + [step], Loaded(Next(s, step).store.rows), b, id)
  {
    var m' := Loaded(Next(s, step).store.rows);
    forall h | StoreRuns.Has(m', b, h) ensures Own(run + [step], b, id, h, m'[b].hostVerifyStatusMap[h]) {
      var e := m'[b].hostVerifyStatusMap[h];
      LoadedFrom(s, step, b, id, h, e);
      if Keeps(Loaded(s.store.rows), b, h, e) {
        StillOwn(run, step, b, id, h, e);
      }
    }
  }

  lemma {:induction false} SuccessNeedsApp(app: AppVerifyBaseInfo, priority: Int32, response: HttpResponse, now: nat)
    requires VerifyTasks.Earned(app.(priority := priority), response, now).status == STATE_SUCCESS
    ensures CanSucceed(app)
  {
    SuccessMeansWitness(response, app.(priority := priority));
  }

  lemma {:induction false} EmptyIsNoSuccess(app: AppVerifyBaseInfo, now: nat)
    ensures VerifyTasks.Earned(app, NO_RESPONSE, now).status != STATE_SUCCESS
  {
  }

  /** A success needs a job with a client. */
  lemma {:induction false} SuccessNeedsClient(s: System, step: Step)
    requires Inv(s) && Enabled(s, step) && step.Begin?
    requires
      var t := s.tasks[s.owner[step.id].task];
      VerifyTasks.Earned(t.run.task.app, step.response, step.now).status == STATE_SUCCESS
    ensures Answerable(s, s.owner[step.id])
  {
    EmptyIsNoSuccess(s.tasks[s.owner[step.id].task].run.task.app, step.now);
  }

  /** What a callback writes into a task of the right identity. */
  lemma {:induction false} BeginIsOwn(run: seq<Step>, s: System, step: Step, id: Option<string>)
    requires Exec(run) == Some(s) && Inv(s) && Enabled(s, step) && step.Begin?
    requires
      var o := s.owner[step.id];
      CanSucceed(s.tasks[o.task].app) && Answerable(s, o) ==> id == Some(s.tasks[o.task].app.appIdentifier)
    ensures
      var o := s.owner[step.id];
      var t := s.tasks[o.task];
      Own(run + [step], t.app.bundleName, id, o.uri, VerifyTasks.Earned(t.run.task.app, step.response, step.now))
  {
    var o := s.owner[step.id];
    var t := s.tasks[o.task];
    var e := VerifyTasks.Earned(t.run.task.app, step.response, step.now);
    assert TaskInv(t) && t.run.task.app == t.app.(priority := t.run.task.app.priority);
    if e.status == STATE_SUCCESS {
      SuccessNeedsApp(t.app, t.run.task.app.priority, step.response, step.now);
      SuccessNeedsClient(s, step);
      BeginGives(s, step);
      ProvedNext(run, step, t.app.bundleName, id.value, o.uri, e);
    }
  }

  /** What a task has brought or waits for, with the jobs that can be answered. */
  ghost predicate TaskBringsOwn(
    run: seq<Step>, t: Launched, answerable: bool, b: string, id: Option<string>, h: string)
  {
    h in t.run.task.result.hostVerifyStatusMap ==>
      && Own(run, b, id, h, t.run.task.result.hostVerifyStatusMap[h])
      && (Awaits(t, h) && CanSucceed(t.app) && answerable ==> id == Some(t.app.appIdentifier))
  }

  lemma {:induction false} BeganBringsOwn(
    run: seq<Step>, t: Launched, uri: string, response: HttpResponse, now: nat, was: bool, will: bool, b: string,
    id: Option<string>, h: string)
    requires VerifyTasks.Enabled(t.run, VerifyTasks.Classify(uri, response, now))
    requires TaskBringsOwn(run, t, was, b, id, h)
    requires uri == h ==> Own(run, b, id, h, VerifyTasks.Earned(t.run.task.app, response, now))
    requires uri != h && will ==> was
    ensures TaskBringsOwn(run, Began(t, uri, response, now), will, b, id, h)
  {
    assert uri == h ==> !Awaits(Began(t, uri, response, now), h);
  }

  lemma {:induction false} StillBrings(
    run: seq<Step>, step: Step, t: Launched, answerable: bool, b: string, id: Option<string>, h: string)
    requires TaskBringsOwn(run, t, answerable, b, id, h)
    ensures TaskBringsOwn(run + [step], t, answerable, b, id, h)
  {
    if h in t.run.task.result.hostVerifyStatusMap {
      StillOwn(run, step, b, id, h, t.run.task.result.hostVerifyStatusMap[h]);
    }
  }

  lemma {:induction false} BeginBringsOwn(
    run: seq<Step>, s: System, step: Step, b: string, id: Option<string>, h: string)
    requires Exec(run) == Some(s) && Inv(s) && Enabled(s, step) && step.Begin?
    requires s.tasks[s.owner[step.id].task].app.bundleName == b && BringsOwn(run, s, s.owner[step.id].task, b, id, h)
    ensures s.owner[step.id].task < |Next(s, step).tasks|
    ensures BringsOwn(run + [step], Next(s, step), s.owner[step.id].task, b, id, h)
  {
    var o := s.owner[step.id];
    var t := s.tasks[o.task];
    var was, will := Answerable(s, Owner(o.task, h)), Answerable(Next(s, step), Owner(o.task, h));
    StillBrings(run, step, t, was, b, id, h);
    if o.uri == h {
      assert Awaits(t, h);
      BeginIsOwn(run, s, step, id);
    } else if will {
      StaysUnanswerable(s, step, Owner(o.task, h));
    }
    BeganBringsOwn(run + [step], t, o.uri, step.response, step.now, was, will, b, id, h);
  }

  lemma {:induction false} NoClientStays(p: TaskPool.Pool, w: TaskPool.Step, id: TaskPool.TaskId)
    requires TaskPool.Enabled(p, w) && TaskPool.Fifo(p) && TaskPool.MapExact(p) && w != TaskPool.BeginPost(id)
    requires id in p.phase && p.phase[id] == TaskPool.Started(false)
    ensures id in TaskPool.Next(p, w).phase && TaskPool.Next(p, w).phase[id] == TaskPool.Started(false)
  {
    if w.Resume? && p.tasks != [] {
      TaskPool.FrontIsNew(p);
    }
  }

  lemma {:induction false} NoClientNext(s: System, step: Step, id: TaskPool.TaskId)
    requires Inv(s) && Enabled(s, step) && NoClient(s, id) && !(step.Begin? && step.id == id)
    ensures NoClient(Next(s, step), id)
  {
    match step
    case AddHost(_, _, new_, wakes) => NoClientStays(s.pool, TaskPool.Add(new_, wakes), id);
    case Begin(other, _, _) => NoClientStays(s.pool, TaskPool.BeginPost(other), id);
    case Work(w) => NoClientStays(s.pool, w, id);
    case _ =>
  }

  /** A job that got no client gets none later. */
  lemma {:induction false} StaysUnanswerable(s: System, step: Step, o: Owner)
    requires Inv(s) && Enabled(s, step) && Answerable(Next(s, step), o)
    requires step.Begin? ==> s.owner[step.id] != o
    ensures Answerable(s, o)
  {
    forall id | id in s.owner && s.owner[id] == o ensures !NoClient(s, id) {
      KeptOwner(s, step, id);
      if NoClient(s, id) {
        NoClientNext(s, step, id);
      }
    }
  }

  lemma {:induction false} OthersBringOwn(
    run: seq<Step>, s: System, step: Step, i: nat, b: string, id: Option<string>, h: string)
    requires Inv(s) && Enabled(s, step) && i < |s.tasks| && i < |Next(s, step).tasks|
    requires step.Begin? ==> s.owner[step.id].task != i
    requires BringsOwn(run, s, i, b, id, h)
    ensures BringsOwn(run + [step], Next(s, step), i, b, id, h)
  {
    SameTask(s, step, i, h);
    StillBrings(run, step, s.tasks[i], Answerable(s, Owner(i, h)), b, id, h);
    if Answerable(Next(s, step), Owner(i, h)) {
      StaysUnanswerable(s, step, Owner(i, h));
    }
  }

  lemma {:induction false} SameTask(s: System, step: Step, i: nat, h: string)
    requires Enabled(s, step) && i < |s.tasks| && i < |Next(s, step).tasks|
    requires step.Begin? ==> s.owner[step.id].task != i
    ensures
      var t, t' := s.tasks[i], Next(s, step).tasks[i];
      t'.run.task.result == t.run.task.result && t'.app == t.app && (Awaits(t', h) ==> Awaits(t, h))
  {
  }

  lemma {:induction false} NewTaskBringsOwn(
    run: seq<Step>, s: System, step: Step, i: nat, id: Option<string>, h: string)
    requires Enabled(s, step) && step.Refresh? && |s.tasks| <= i < |Next(s, step).tasks|
    requires Continues(step, step.app.bundleName, id) && HoldsOwn(run, s.store.memory, step.app.bundleName, id)
    ensures BringsOwn(run + [step], Next(s, step), i, step.app.bundleName, id, h)
  {
    var b := step.app.bundleName;
    var info := s.store.memory[b];
    NewTask(s, step, i);
    if h in info.hostVerifyStatusMap {
      assert StoreRuns.Has(s.store.memory, b, h);
      StillOwn(run, step, b, id, h, info.hostVerifyStatusMap[h]);
    }
  }

  lemma {:induction false} NextTasksOwn(run: seq<Step>, s: System, step: Step, b: string, id: Option<string>)
    requires Exec(run) == Some(s) && Inv(s) && Enabled(s, step) && Continues(step, b, id) && AllOwn(run, s, b, id)
    ensures TasksOwn(run + [step], Next(s, step), b, id)
  {
    var t := Next(s, step);
    forall i: nat, h | MayBring(t, i, b, h) ensures BringsOwn(run + [step], t, i, b, id, h) {
      HostsFrom(s, step, b, id, h);
      FlightWas(s, step, i);
      assert i < |s.tasks| ==> MayBring(s, i, b, h);
      if i >= |s.tasks| {
        NewTaskBringsOwn(run, s, step, i, id, h);
      } else if step.Begin? && s.owner[step.id].task == i {
        BeginBringsOwn(run, s, step, b, id, h);
      } else {
        OthersBringOwn(run, s, step, i, b, id, h);
      }
    }
  }

  /** All of it holds in the state of the run. */
  ghost predicate OwnAt(run: seq<Step>, b: string, id: Option<string>) {
    Exec(run).Some? && AllOwn(run, Exec(run).value, b, id)
  }

  lemma {:induction false} LastOwn(run: seq<Step>, step: Step, b: string, id: Option<string>)
    requires OwnAt(run, b, id) && Exec(run + [step]).Some? && Continues(step, b, id)
    ensures OwnAt(run + [step], b, id)
  {
    LastStep(run, step);
    RunInv(run);
    var s := Exec(run).value;
    NextHoldsOwn(run, s, step, b, id);
    NextLoadsOwn(run, s, step, b, id);
    NextTasksOwn(run, s, step, b, id);
  }

  lemma {:induction false} OwnStays(run: seq<Step>, more: seq<Step>, b: string, id: Option<string>)
    requires OwnAt(run, b, id) && Exec(run + more).Some? && AllContinue(more, b, id)
    ensures OwnAt(run + more, b, id)
  {
    if more == [] {
      assert run + more == run;
    } else {
      var before, last := more[..|more| - 1], more[|more| - 1];
      AppendLast(run, more);
      LastRan(run + before, last);
      OwnStays(run, before, b, id);
      LastOwn(run + before, last, b, id);
    }
  }

  // ---------- and necessary ----------

  lemma {:induction false} CalmFront(run: seq<Step>, more: seq<Step>, a: Reply)
    requires CalmRun(run, more, a) && more != []
    ensures
      var front := more[..|more| - 1];
      CalmRun(run, front, a) && Exec(run + front).Some? && Calm(Exec(run + front).value, more[|more| - 1], a)
  {
  }

  lemma {:induction false} CalmContinues(run: seq<Step>, more: seq<Step>, a: Reply, b: string, id: Option<string>)
    requires CalmRun(run, more, a)
    ensures AllContinue(more, b, id)
  {
    if more != [] {
      CalmFront(run, more, a);
      CalmContinues(run, more[..|more| - 1], a, b, id);
      ContinueLast(more, b, id);
    }
  }

  lemma {:induction false} ContinueLast(more: seq<Step>, b: string, id: Option<string>)
    requires more != [] && AllContinue(more[..|more| - 1], b, id) && Continues(more[|more| - 1], b, id)
    ensures AllContinue(more, b, id)
  {
    assert forall k :: 0 <= k < |more| - 1 ==> more[k] == more[..|more| - 1][k];
  }

  ghost predicate AppIs(s: Option<System>, i: nat, app: AppVerifyBaseInfo) {
    s.Some? && i < |s.value.tasks| && s.value.tasks[i].app == app
  }

  lemma {:induction false} LastKeepsApp(run: seq<Step>, step: Step, i: nat, app: AppVerifyBaseInfo)
    requires AppIs(Exec(run), i, app) && Exec(run + [step]).Some?
    ensures AppIs(Exec(run + [step]), i, app)
  {
    LastStep(run, step);
    SameGiven(Exec(run).value, step, i);
  }

  /** A task's app does not change along a calm run. */
  lemma {:induction false} CalmKeepsApp(run: seq<Step>, more: seq<Step>, a: Reply, i: nat, app: AppVerifyBaseInfo)
    requires AppIs(Exec(run), i, app) && CalmRun(run, more, a) && Exec(run + more).Some?
    ensures AppIs(Exec(run + more), i, app)
  {
    if more == [] {
      assert run + more == run;
    } else {
      CalmFront(run, more, a);
      AppendLast(run, more);
      CalmKeepsApp(run, more[..|more| - 1], a, i, app);
      LastKeepsApp(run + more[..|more| - 1], more[|more| - 1], i, app);
    }
  }

  /** The reply of a calm run gives the record to the task's own identifier. */
  ghost predicate ByReply(s: System, a: Reply, id: string, h: string, e: VerifyStatus) {
    && a.response.responseCode == 200 && a.owner.uri == h && e.verifyTime == ToString(a.now)
    && a.owner.task < |s.tasks| && s.tasks[a.owner.task].app.appIdentifier == id
  }

  /** A calm run gives no success but by the reply. */
  lemma {:induction false} CalmGives(
    run: seq<Step>, s: System, more: seq<Step>, a: Reply, b: string, id: string, h: string, e: VerifyStatus)
    requires Exec(run) == Some(s) && CalmRun(run, more, a) && a.owner.task < |s.tasks|
    requires ProvedFor(run + more, b, id, h, e) && e.status == STATE_SUCCESS
    ensures ProvedFor(run, b, id, h, e) || ByReply(s, a, id, h, e)
  {
    if more == [] {
      assert run + more == run;
    } else {
      var front, last := more[..|more| - 1], more[|more| - 1];
      CalmFront(run, more, a);
      AppendLast(run, more);
      ProvedNext(run + front, last, b, id, h, e);
      if ProvedFor(run + front, b, id, h, e) {
        CalmGives(run, s, front, a, b, id, h, e);
      } else {
        CalmKeepsApp(run, front, a, a.owner.task, s.tasks[a.owner.task].app);
        GivenByReply(Exec(run + front).value, last, a, b, id, h, e);
        assert ByReply(s, a, id, h, e);
      }
    }
  }

  lemma {:induction false} GivenByReply(
    s: System, step: Step, a: Reply, b: string, id: string, h: string, e: VerifyStatus)
    requires Gives(s, step, b, id, h, e) && Calm(s, step, a) && e.status == STATE_SUCCESS && a.owner.task < |s.tasks|
    ensures ByReply(s, a, id, h, e)
  {
    assert s.owner[step.id] == a.owner;
  }

  /** Only callbacks give records. */
  lemma {:induction false} DeliveryGivesNothing(
    run: seq<Step>, last: Step, b: string, id: string, h: string, e: VerifyStatus)
    requires ProvedFor(run + [last], b, id, h, e) && !last.Begin?
    ensures ProvedFor(run, b, id, h, e)
  {
    ProvedNext(run, last, b, id, h, e);
  }

  /** An asset file that vouches for the app. */
  function Vouching(app: AppVerifyBaseInfo): HttpResponse {
    HttpResponse(200, Some([app.(priority := PRIORITY_UNSET)]))
  }

  lemma {:induction false} VouchingSucceeds(app: AppVerifyBaseInfo, priority: Int32, now: nat)
    requires CanSucceed(app)
    ensures VerifyTasks.Earned(app.(priority := priority), Vouching(app), now)
      == VerifyStatus(STATE_SUCCESS, 0, ToString(now), PRIORITY_UNSET)
  {
    var mine, entry := app.(priority := priority), app.(priority := PRIORITY_UNSET);
    assert FirstEntry([entry], Decides(mine)) == if Deciding(mine, entry) then Some(entry) else None;
    assert FirstEntry([entry], Shares(mine)) == Some(entry);
  }

  /** A time at which no callback of the run answered. */
  lemma {:induction false} LaterTime(run: seq<Step>) returns (now: nat)
    ensures forall k :: 0 <= k < |run| && run[k].Begin? ==> run[k].now < now
  {
    if run == [] {
      now := 0;
    } else {
      var n := |run| - 1;
      now := LaterTime(run[..n]);
      if run[n].Begin? && run[n].now >= now {
        now := run[n].now + 1;
      }
      assert forall k :: 0 <= k < n ==> run[k] == run[..n][k];
    }
  }

  lemma {:induction false} NotGivenLater(run: seq<Step>, now: nat, b: string, id: string, h: string, e: VerifyStatus)
    requires forall k :: 0 <= k < |run| && run[k].Begin? ==> run[k].now < now
    requires e.verifyTime == ToString(now)
    ensures !ProvedFor(run, b, id, h, e)
  {
    if run != [] {
      var before, last := run[..|run| - 1], run[|run| - 1];
      NotGivenLater(before, now, b, id, h, e);
      assert run == before + [last];
      ProvedNext(before, last, b, id, h, e);
      if GivenFrom(Exec(before), last, b, id, h, e) {
        GivenAtItsTime(Exec(before), last, b, id, h, e);
        DifferentTimesDiffer(last.now, now);
      }
    }
  }

  lemma {:induction false} GivenAtItsTime(
    before: Option<System>, step: Step, b: string, id: string, h: string, e: VerifyStatus)
    requires GivenFrom(before, step, b, id, h, e)
    ensures step.Begin? && e.verifyTime == ToString(step.now)
  {
  }

  lemma {:induction false} AwaitedIsNoSuccess(t: Launched, h: string)
    requires TaskInv(t) && Awaits(t, h) && h in t.run.task.result.hostVerifyStatusMap
    ensures t.run.task.result.hostVerifyStatusMap[h].status != STATE_SUCCESS
  {
    assert h in RetriedBy(t) && h !in t.run.written;
  }

  /** The reply brings out what is wrong with the task: an answer without success
      lets it hand over what it holds, or a vouching file at a new time gives it a
      success. */
  ghost predicate BringsOut(run: seq<Step>, t: Launched, a: Reply, b: string, id: Option<string>) {
    var h, held := a.owner.uri, t.run.task.result.hostVerifyStatusMap;
    && h in held
    && (|| ((a.response == SERVER_ERROR || a.response == NO_RESPONSE) && !Awaits(t, h) && !Own(run, b, id, h, held[h]))
        || (&& a.response == Vouching(t.app) && CanSucceed(t.app) && id != Some(t.app.appIdentifier) && Awaits(t, h)
            && forall e: VerifyStatus, other :: e.verifyTime == ToString(a.now) ==> !ProvedFor(run, b, other, h, e)))
  }

  lemma {:induction false} BadReply(run: seq<Step>, s: System, i: nat, b: string, id: Option<string>, h: string)
    returns (a: Reply)
    requires Exec(run) == Some(s) && i < |s.tasks| && !BringsOwn(run, s, i, b, id, h)
    ensures a.owner == Owner(i, h) && Possible(s, a) && BringsOut(run, s.tasks[i], a, b, id)
  {
    var t, o := s.tasks[i], Owner(i, h);
    RunInv(run);
    assert TaskInv(t);
    if Awaits(t, h) && CanSucceed(t.app) && Answerable(s, o) && id != Some(t.app.appIdentifier) {
      var now := LaterTime(run);
      forall e: VerifyStatus, other | e.verifyTime == ToString(now) ensures !ProvedFor(run, b, other, h, e) {
        NotGivenLater(run, now, b, other, h, e);
      }
      a := Reply(o, Vouching(t.app), now);
    } else {
      a := Reply(o, if Answerable(s, o) then SERVER_ERROR else NO_RESPONSE, 0);
      if Awaits(t, h) {
        AwaitedIsNoSuccess(t, h);
      }
    }
  }

  /** What the task hands over after that reply is a success given to another one. */
  lemma {:induction false} BadResult(
    run: seq<Step>, s: System, calm: seq<Step>, t: System, a: Reply, b: string, id: Option<string>)
    requires Exec(run) == Some(s) && Inv(t) && Reached(run, s, calm, t, a) && t.tasks[a.owner.task].waiting.Some?
    requires BringsOut(run, s.tasks[a.owner.task], a, b, id)
    ensures a.owner.uri in t.tasks[a.owner.task].run.task.result.hostVerifyStatusMap
    ensures !Own(run + calm, b, id, a.owner.uri, t.tasks[a.owner.task].run.task.result.hostVerifyStatusMap[a.owner.uri])
  {
    var u, v, h := s.tasks[a.owner.task], t.tasks[a.owner.task], a.owner.uri;
    assert TaskInv(v);
    VerifyTasks.DoneMeansSaved(v.run, v.app, v.given, RetriedBy(v));
    assert !Awaits(v, h);
    var e := v.run.task.result.hostVerifyStatusMap[h];
    if Awaits(u, h) {
      var p :| e == VerifyTasks.Earned(v.app.(priority := p), a.response, a.now);
      VouchingSucceeds(v.app, p, a.now);
    }
    if id.Some? && ProvedFor(run + calm, b, id.value, h, e) {
      CalmGives(run, s, calm, a, b, id.value, h, e);
    }
  }

  lemma {:induction false} UpdateStores(m: Memory, op: Op, h: string)
    requires op.Update? && op.bundleName != "" && op.bundleName in m
    requires h in m[op.bundleName].hostVerifyStatusMap && h in op.info.hostVerifyStatusMap
    ensures op.bundleName in MemoryAfter(m, op)
    ensures MemoryAfter(m, op)[op.bundleName].appIdentifier == m[op.bundleName].appIdentifier
    ensures Stored(MemoryAfter(m, op), op.bundleName, h, op.info.hostVerifyStatusMap[h])
  {
  }

  lemma {:induction false} DeliveryStores(s: System, i: nat, write: Write, b: string, h: string)
    requires Inv(s) && Enabled(s, Deliver(i, write, true)) && s.tasks[i].app.bundleName == b
    requires StoreRuns.Has(s.store.memory, b, h) && h in s.tasks[i].run.task.result.hostVerifyStatusMap
    ensures
      var m' := Next(s, Deliver(i, write, true)).store.memory;
      Keeps(m', b, h, s.tasks[i].run.task.result.hostVerifyStatusMap[h])
  {
    UpdateStores(s.store.memory, SaveOp(s.tasks[i], write), h);
  }

  /** Once another one's success is handed over it is stored. */
  lemma {:induction false} DeliveryIsForeign(
    run: seq<Step>, t: System, i: nat, b: string, id: Option<string>, h: string)
    returns (last: Step)
    requires Exec(run) == Some(t) && i < |t.tasks| && t.tasks[i].waiting.Some? && t.tasks[i].app.bundleName == b
    requires StoreRuns.Has(t.store.memory, b, h) && h in t.tasks[i].run.task.result.hostVerifyStatusMap
    requires !Own(run, b, id, h, t.tasks[i].run.task.result.hostVerifyStatusMap[h])
    ensures Foreign(run, [last], b, id)
  {
    RunInv(run);
    DeliveryIsPossible(t, i);
    var write :| Enabled(t, Deliver(i, write, true));
    last := Deliver(i, write, true);
    DeliveryStores(t, i, write, b, h);
    NotOwnThere(run, last, Next(t, last).store.memory, b, id, h, t.tasks[i].run.task.result.hostVerifyStatusMap[h]);
    OneStepForeign(run, t, last, b, id);
  }

  lemma {:induction false} OneStepForeign(run: seq<Step>, s: System, step: Step, b: string, id: Option<string>)
    requires Exec(run) == Some(s) && Enabled(s, step) && Continues(step, b, id)
    requires !HoldsOwn(run + [step], Next(s, step).store.memory, b, id)
    ensures Foreign(run, [step], b, id)
  {
    Extend(run, s, step);
  }

  lemma {:induction false} NotOwnThere(
    run: seq<Step>, last: Step, m: Memory, b: string, id: Option<string>, h: string, e: VerifyStatus)
    requires Keeps(m, b, h, e) && !Own(run, b, id, h, e) && !last.Begin?
    ensures !HoldsOwn(run + [last], m, b, id)
  {
    if id.Some? && ProvedFor(run + [last], b, id.value, h, e) {
      DeliveryGivesNothing(run, last, b, id.value, h, e);
    }
  }

  /** The continuation leads to a success stored that was not vouched for. */
  ghost predicate Foreign(run: seq<Step>, more: seq<Step>, b: string, id: Option<string>) {
    && AllContinue(more, b, id)
    && Exec(run + more).Some? && !HoldsOwn(run + more, Exec(run + more).value.store.memory, b, id)
  }

  lemma {:induction false} ForeignCompose(
    run: seq<Step>, first: seq<Step>, more: seq<Step>, b: string, id: Option<string>)
    requires AllContinue(first, b, id) && Foreign(run + first, more, b, id)
    ensures Foreign(run, first + more, b, id)
  {
    Assoc(run, first, more);
  }

  /** A task that may bring another one's success for a host stored can be made to. */
  lemma {:induction false} BringsForeign(run: seq<Step>, s: System, i: nat, b: string, id: Option<string>, h: string)
    returns (more: seq<Step>)
    requires Exec(run) == Some(s) && MayBring(s, i, b, h) && StoreRuns.Has(s.store.memory, b, h)
    requires !BringsOwn(run, s, i, b, id, h)
    ensures Foreign(run, more, b, id)
  {
    var a := BadReply(run, s, i, b, id, h);
    var calm, t := ResultCanComeBack(run, s, a);
    BadResult(run, s, calm, t, a, b, id);
    var last := DeliveryIsForeign(run + calm, t, i, b, id, h);
    CalmContinues(run, calm, a, b, id);
    ForeignCompose(run, calm, [last], b, id);
    more := calm + [last];
  }

  /** A restart that reads all rows puts in the store what the table holds. */
  lemma {:induction false} AfterRestart(run: seq<Step>, s: System) returns (r: Step, t: System)
    requires Exec(run) == Some(s)
    ensures r == Restart(|s.store.rows|) && Exec(run + [r]) == Some(t)
    ensures t.store.memory == Loaded(s.store.rows) && t.tasks == s.tasks && t.pool == s.pool && t.owner == s.owner
    ensures t.store.rows == s.store.rows
  {
    r := Restart(|s.store.rows|);
    Extend(run, s, r);
    t := Next(s, r);
    assert s.store.rows[..|s.store.rows|] == s.store.rows;
  }

  lemma {:induction false} RestartGivesNothing(
    run: seq<Step>, r: Step, b: string, id: Option<string>, h: string, e: VerifyStatus)
    requires r.Restart? && Own(run + [r], b, id, h, e)
    ensures Own(run, b, id, h, e)
  {
    if e.status == STATE_SUCCESS {
      DeliveryGivesNothing(run, r, b, id.value, h, e);
    }
  }

  lemma {:induction false} RestartBringsNothing(
    run: seq<Step>, r: Step, s: System, t: System, i: nat, b: string, id: Option<string>, h: string)
    requires r.Restart? && t.tasks == s.tasks && t.pool == s.pool && t.owner == s.owner && i < |s.tasks|
    requires BringsOwn(run + [r], t, i, b, id, h)
    ensures BringsOwn(run, s, i, b, id, h)
  {
    if h in s.tasks[i].run.task.result.hostVerifyStatusMap {
      RestartGivesNothing(run, r, b, id, h, s.tasks[i].run.task.result.hostVerifyStatusMap[h]);
    }
  }

  /** Another one's success that is not in the store can be brought there. */
  lemma {:induction false} ForeignComes(
    run: seq<Step>, s: System, b: string, id: Option<string>)
    returns (more: seq<Step>)
    requires Exec(run) == Some(s) && !AllOwn(run, s, b, id)
    ensures Foreign(run, more, b, id)
  {
    if !HoldsOwn(run, s.store.memory, b, id) {
      more := [];
      assert run + more == run;
    } else if !HoldsOwn(run, Loaded(s.store.rows), b, id) {
      more := LoadedComes(run, s, b, id);
    } else {
      var i: nat, h :| MayBring(s, i, b, h) && !BringsOwn(run, s, i, b, id, h);
      if StoreRuns.Has(s.store.memory, b, h) {
        more := BringsForeign(run, s, i, b, id, h);
      } else {
        more := BroughtAfterRestart(run, s, i, b, id, h);
      }
    }
  }

  lemma {:induction false} LoadedComes(
    run: seq<Step>, s: System, b: string, id: Option<string>)
    returns (more: seq<Step>)
    requires Exec(run) == Some(s) && !HoldsOwn(run, Loaded(s.store.rows), b, id)
    ensures Foreign(run, more, b, id)
  {
    var r, t := AfterRestart(run, s);
    more := [r];
    var m := Loaded(s.store.rows);
    var h :| StoreRuns.Has(m, b, h) && !Own(run, b, id, h, m[b].hostVerifyStatusMap[h]);
    NotOwnThere(run, r, m, b, id, h, m[b].hostVerifyStatusMap[h]);
  }

  lemma {:induction false} StillForeign(
    run: seq<Step>, r: Step, s: System, t: System, i: nat, b: string, id: Option<string>, h: string)
    requires r.Restart? && t.tasks == s.tasks && t.pool == s.pool && t.owner == s.owner && i < |s.tasks|
    requires !BringsOwn(run, s, i, b, id, h)
    ensures !BringsOwn(run + [r], t, i, b, id, h)
  {
    if BringsOwn(run + [r], t, i, b, id, h) {
      RestartBringsNothing(run, r, s, t, i, b, id, h);
    }
  }

  lemma {:induction false} StillMayBring(s: System, t: System, i: nat, b: string, h: string)
    requires MayHandOver(s, i) && s.tasks[i].app.bundleName == b
    requires t.tasks == s.tasks && t.pool == s.pool && t.owner == s.owner && StoreRuns.Has(t.store.memory, b, h)
    ensures MayBring(t, i, b, h)
  {
    if t.pool.stop && t.tasks[i].waiting.None? {
      forall u | u in t.tasks[i].run.progress && t.tasks[i].run.progress[u] != VerifyTasks.Done
        ensures JobStarted(t, Owner(i, u))
      {
        assert JobStarted(s, Owner(i, u));
      }
    }
  }

  lemma {:induction false} BroughtAfterRestart(
    run: seq<Step>, s: System, i: nat, b: string, id: Option<string>, h: string) returns (more: seq<Step>)
    requires Exec(run) == Some(s) && MayBring(s, i, b, h) && !BringsOwn(run, s, i, b, id, h)
    requires StoreRuns.Has(Loaded(s.store.rows), b, h)
    ensures Foreign(run, more, b, id)
  {
    var r, t := AfterRestart(run, s);
    StillForeign(run, r, s, t, i, b, id, h);
    StillMayBring(s, t, i, b, h);
    more := BroughtAfter(run, r, t, i, b, id, h);
  }

  lemma {:induction false} BroughtAfter(
    run: seq<Step>, r: Step, t: System, i: nat, b: string, id: Option<string>, h: string) returns (more: seq<Step>)
    requires Exec(run + [r]) == Some(t) && Continues(r, b, id)
    requires MayBring(t, i, b, h) && StoreRuns.Has(t.store.memory, b, h) && !BringsOwn(run + [r], t, i, b, id, h)
    ensures Foreign(run, more, b, id)
  {
    var after := BringsForeign(run + [r], t, i, b, id, h);
    ForeignCompose(run, [r], after, b, id);
    more := [r] + after;
  }

  /** Exactly when every stored success of a bundle is, and in every continuation
      stays, one vouched for the identifier installed: in the store, in the table as
      a restart would find it, and in every task whose result may still come. */
  lemma {:induction false} OwnIffAllOwn(run: seq<Step>, b: string)
    requires Exec(run).Some?
    ensures OwnForever(run, b) <==> AllOwn(run, Exec(run).value, b, InstalledId(run, b))
  {
    var s, id := Exec(run).value, InstalledId(run, b);
    if AllOwn(run, s, b, id) {
      forall more ensures OwnAfter(run, more, b) {
        if Exec(run + more).Some? && AllContinue(more, b, id) {
          OwnStays(run, more, b, id);
        }
      }
    } else {
      var more := ForeignComes(run, s, b, id);
      assert !OwnAfter(run, more, b);
    }
  }

  // ---------- installs ----------

  lemma {:induction false} InstalledNow(run: seq<Step>, step: Step)
    requires step.Install?
    ensures InstalledId(run + [step], step.app.bundleName) == Some(step.app.appIdentifier)
  {
    assert (run + [step])[|run|] == step;
  }

  lemma {:induction false} InstallHoldsOwn(run: seq<Step>, s: System, step: Step, id: Option<string>)
    requires Inv(s) && Enabled(s, step) && step.Install?
    ensures HoldsOwn(run, Next(s, step).store.memory, step.app.bundleName, id)
  {
    NextInv(s, step);
  }

  /** What a restart would find right after the install. */
  lemma {:induction false} InstallLoadsOwn(run: seq<Step>, s: System, step: Step, id: Option<string>)
    requires Inv(s) && Enabled(s, step) && step.Install?
    ensures HoldsOwn(run, Loaded(Next(s, step).store.rows), step.app.bundleName, id) <==>
      step.write.deleted || HoldsOwn(run, Loaded(s.store.rows), step.app.bundleName, id)
  {
    var b, op := step.app.bundleName, InstallOp(step);
    if b == "" {
      NoUnnamedLoaded(s);
      NextInv(s, step);
      NoUnnamedLoaded(Next(s, step));
    } else {
      UnverifiedLoadsOwn(run, s.store, op, id);
    }
  }

  lemma {:induction false} UnverifiedLoadsOwn(run: seq<Step>, s: Store, op: Op, id: Option<string>)
    requires LegalOp(s.memory, op) && Effective(s.memory, op) && op.Insert?
    requires forall h :: h in op.info.hostVerifyStatusMap ==> op.info.hostVerifyStatusMap[h].status != STATE_SUCCESS
    ensures HoldsOwn(run, Loaded(After(s, op).rows), op.bundleName, id) <==>
      op.write.deleted || HoldsOwn(run, Loaded(s.rows), op.bundleName, id)
  {
    var b, was, now := op.bundleName, Loaded(s.rows), Loaded(After(s, op).rows);
    Restarts.RestartAfterWrite(s, op);
    if !op.write.deleted && b in was {
      forall h | StoreRuns.Has(was, b, h)
        ensures StoreRuns.Has(now, b, h) && now[b].hostVerifyStatusMap[h] == was[b].hostVerifyStatusMap[h] {}
      forall h | StoreRuns.Has(now, b, h) && !StoreRuns.Has(was, b, h)
        ensures now[b].hostVerifyStatusMap[h].status != STATE_SUCCESS {}
    } else {
      forall h | StoreRuns.Has(now, b, h) ensures now[b].hostVerifyStatusMap[h].status != STATE_SUCCESS {}
    }
  }

  lemma {:induction false} NoUnnamedLoaded(s: System)
    requires StoreInv(s)
    ensures "" !in Loaded(s.store.rows)
  {
    assert forall i :: 0 <= i < |s.store.rows| ==> s.store.rows[i] in s.store.rows;
  }

  /** An application installed while no result of its bundle may still come back is
      only ever verified by what was vouched for itself, if and only if the old rows
      were deleted or hold no success of another one. */
  lemma {:induction false} InstallInTurn(run: seq<Step>, step: Step)
    requires Exec(run + [step]).Some? && step.Install?
    requires Exec(run).Some? && Quiet(Exec(run).value, step.app.bundleName)
    ensures
      var b, was := step.app.bundleName, Loaded(Exec(run).value.store.rows);
      OwnForever(run + [step], b) <==>
        step.write.deleted || HoldsOwn(run + [step], was, b, InstalledId(run + [step], b))
  {
    var b, s, id := step.app.bundleName, Exec(run).value, Some(step.app.appIdentifier);
    LastStep(run, step);
    RunInv(run);
    InstalledNow(run, step);
    InstallHoldsOwn(run + [step], s, step, id);
    InstallLoadsOwn(run + [step], s, step, id);
    InstallBringsOwn(run + [step], s, step);
    OwnIffAllOwn(run + [step], b);
  }

  lemma {:induction false} InstallBringsOwn(run: seq<Step>, s: System, step: Step)
    requires Inv(s) && Enabled(s, step) && step.Install? && Quiet(s, step.app.bundleName)
    ensures TasksOwn(run, Next(s, step), step.app.bundleName, Some(step.app.appIdentifier))
  {
    var t, b := Next(s, step), step.app.bundleName;
    forall i: nat, h | MayBring(t, i, b, h) ensures BringsOwn(run, t, i, b, Some(step.app.appIdentifier), h) {
      FlightWas(s, step, i);
    }
  }
}
