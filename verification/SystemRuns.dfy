/**
 Every verified host was vouched for: where each verified record in the store, in
 the table and in a task came from, over whole runs of the verification system.
 */
module SystemRuns {
  import Restarts
  import StoreRuns
  import VerifyTasks
  import opened Decimal
  import opened DomainVerifier
  import opened ManagerService
  import opened RdbTable
  import opened StatusStore
  import opened VerificationSystem
  import opened VerifyTypes

  // ---------- every verified host was vouched for ----------

  /** The response gives the app the record: its domain answered 200 with an asset
      file whose deciding entry vouches for the app, or gave no HTTP status and
      the app is preinstalled. */
  ghost predicate Vouched(app: AppVerifyBaseInfo, response: HttpResponse, now: nat, e: VerifyStatus) {
    && e.verifyTime == ToString(now) && e.retryCnt == 0
    && (|| (&& e.status == STATE_SUCCESS && response.responseCode == 200 && response.apps.Some?
            && exists k: nat :: Witness(response.apps.value, app, k) && e.priority == response.apps.value[k].priority)
        || (&& e.status == PRE_INSTALLED && app.isPreinstalled
            && HttpErrorStatus(response.responseCode) == FAILURE_HTTP_UNKNOWN))
  }

  /** The step is a callback of bundle `b`, for the app with identifier `id` and
      host `h`, that gives the record. */
  ghost predicate Gives(s: System, step: Step, b: string, id: string, h: string, e: VerifyStatus) {
    && step.Begin? && Enabled(s, step)
    && s.owner[step.id].uri == h
    && s.tasks[s.owner[step.id].task].app.bundleName == b
    && s.tasks[s.owner[step.id].task].app.appIdentifier == id
    && Vouched(s.tasks[s.owner[step.id].task].app, step.response, step.now, e)
  }

  ghost predicate GivenFrom(before: Option<System>, step: Step, b: string, id: string, h: string, e: VerifyStatus) {
    before.Some? && Gives(before.value, step, b, id, h, e)
  }

  /** Some callback of the run gave the record to the app with identifier `id`. */
  ghost predicate ProvedFor(run: seq<Step>, b: string, id: string, h: string, e: VerifyStatus) {
    run != [] &&
    var before := run[..|run| - 1];
    ProvedFor(before, b, id, h, e) || GivenFrom(Exec(before), run[|run| - 1], b, id, h, e)
  }

  /** Some callback of the run gave the record. */
  ghost predicate Proved(run: seq<Step>, b: string, h: string, e: VerifyStatus) {
    exists id :: ProvedFor(run, b, id, h, e)
  }

  ghost predicate HostsProved(run: seq<Step>, b: string, hosts: HostVerifyStatusMap) {
    forall h :: h in hosts && Verified(hosts[h].status) ==> Proved(run, b, h, hosts[h])
  }

  ghost predicate MemoryProved(run: seq<Step>, m: Memory) {
    forall b :: b in m ==> HostsProved(run, b, m[b].hostVerifyStatusMap)
  }

  ghost predicate RowsProved(run: seq<Step>, rows: seq<RdbDataItem>) {
    forall r :: r in rows && Verified(r.status) ==> Proved(run, r.bundleName, r.domain, StoreRuns.RecordOf(r))
  }

  ghost predicate StoreProved(run: seq<Step>, s: Store) {
    MemoryProved(run, s.memory) && RowsProved(run, s.rows)
  }

  ghost predicate TaskProved(run: seq<Step>, t: Launched) {
    HostsProved(run, t.app.bundleName, t.run.task.result.hostVerifyStatusMap)
  }

  ghost predicate TasksProved(run: seq<Step>, tasks: seq<Launched>) {
    forall i :: 0 <= i < |tasks| ==> TaskProved(run, tasks[i])
  }

  lemma {:induction false} ProvedNext(
    run: seq<Step>, step: Step, b: string, id: string, h: string, e: VerifyStatus)
    ensures ProvedFor(run + [step], b, id, h, e) <==>
      ProvedFor(run, b, id, h, e) || GivenFrom(Exec(run), step, b, id, h, e)
  {
    var all := run + [step];
    assert all[..|all| - 1] == run && all[|all| - 1] == step;
  }

  lemma {:induction false} StillProvedAll(run: seq<Step>, step: Step, s: System)
    requires StoreProved(run, s.store) && TasksProved(run, s.tasks)
    ensures StoreProved(run + [step], s.store) && TasksProved(run + [step], s.tasks)
  {
    forall b, h, e | Proved(run, b, h, e) ensures Proved(run + [step], b, h, e) {
      var id :| ProvedFor(run, b, id, h, e);
      ProvedNext(run, step, b, id, h, e);
    }
  }

  /** Witnesses do not depend on the app's own priority. */
  lemma {:induction false} WitnessIgnoresPriority(
    apps: seq<AppVerifyBaseInfo>, app: AppVerifyBaseInfo, priority: Int32, k: nat)
    requires Witness(apps, app.(priority := priority), k)
    ensures Witness(apps, app, k)
  {
  }

  /** A verified record earned from a response was vouched for by it, whatever the
      priority of the task was at the time. */
  lemma {:induction false} EarnedIsVouched(app: AppVerifyBaseInfo, priority: Int32, response: HttpResponse, now: nat)
    requires Verified(VerifyTasks.Earned(app.(priority := priority), response, now).status)
    ensures Vouched(app, response, now, VerifyTasks.Earned(app.(priority := priority), response, now))
  {
    var mine := app.(priority := priority);
    var e := VerifyTasks.Earned(mine, response, now);
    SuccessMeansWitness(response, mine);
    if e.status == STATE_SUCCESS {
      assert HostVerdict(response, mine).0 == STATE_SUCCESS;
      var k: nat :| Witness(response.apps.value, mine, k);
      WitnessIgnoresPriority(response.apps.value, app, priority, k);
    } else {
      NoStatusIsHttpUnknown(response, mine);
    }
  }

  lemma {:induction false} NoStatusIsHttpUnknown(response: HttpResponse, app: AppVerifyBaseInfo)
    ensures HostVerdict(response, app).0 != PRE_INSTALLED
    ensures HostVerdict(response, app).0 == FAILURE_HTTP_UNKNOWN ==>
      HttpErrorStatus(response.responseCode) == FAILURE_HTTP_UNKNOWN
  {
  }

  /** A callback that verifies its host gives the record it writes. */
  lemma {:induction false} BeginGives(s: System, step: Step)
    requires Inv(s) && Enabled(s, step) && step.Begin?
    ensures
      var o := s.owner[step.id];
      var e := VerifyTasks.Earned(s.tasks[o.task].run.task.app, step.response, step.now);
      Verified(e.status) ==> Gives(s, step, s.tasks[o.task].app.bundleName, s.tasks[o.task].app.appIdentifier, o.uri, e)
  {
    var t := s.tasks[s.owner[step.id].task];
    assert TaskInv(t);
    if Verified(VerifyTasks.Earned(t.run.task.app, step.response, step.now).status) {
      EarnedIsVouched(t.app, t.run.task.app.priority, step.response, step.now);
    }
  }

  lemma {:induction false} PutProved(
    run: seq<Step>, b: string, hosts: HostVerifyStatusMap, h: string, e: VerifyStatus)
    requires HostsProved(run, b, hosts) && (Verified(e.status) ==> Proved(run, b, h, e))
    ensures HostsProved(run, b, hosts[h := e])
  {
  }

  lemma {:induction false} ReplaceProved(run: seq<Step>, tasks: seq<Launched>, i: nat, t: Launched)
    requires TasksProved(run, tasks) && i < |tasks| && TaskProved(run, t)
    ensures TasksProved(run, tasks[i := t])
  {
  }

  lemma {:induction false} LaunchProved(
    run: seq<Step>, s: System, app: AppVerifyBaseInfo, given: VerifyResultInfo, now: nat)
    requires TasksProved(run, s.tasks) && HostsProved(run, app.bundleName, given.hostVerifyStatusMap)
    ensures TasksProved(run, Launch(s, app, given, now).tasks)
  {
  }

  lemma {:induction false} AfterProved(run: seq<Step>, s: Store, op: Op)
    requires StoreProved(run, s) && LegalOp(s.memory, op)
    requires op.Delete? || HostsProved(run, op.bundleName, op.info.hostVerifyStatusMap)
    ensures StoreProved(run, After(s, op))
  {
    MemoryAfterProved(run, s.memory, op);
    forall r | r in After(s, op).rows && Verified(r.status)
      ensures Proved(run, r.bundleName, r.domain, StoreRuns.RecordOf(r))
    {
      Restarts.RowsAfter(s, op, r);
      if r !in s.rows {
        assert HostsProved(run, op.bundleName, MemoryAfter(s.memory, op)[op.bundleName].hostVerifyStatusMap);
      }
    }
  }

  lemma {:induction false} MemoryAfterProved(run: seq<Step>, m: Memory, op: Op)
    requires MemoryProved(run, m)
    requires op.Delete? || HostsProved(run, op.bundleName, op.info.hostVerifyStatusMap)
    ensures MemoryProved(run, MemoryAfter(m, op))
  {
    var m' := MemoryAfter(m, op);
    forall b | b in m' ensures HostsProved(run, b, m'[b].hostVerifyStatusMap) {
      if b in m { assert HostsProved(run, b, m[b].hostVerifyStatusMap); }
    }
  }

  /** What a restart loads was proved when its row was written. */
  lemma {:induction false} LoadedProved(run: seq<Step>, rows: seq<RdbDataItem>)
    requires RowsProved(run, rows)
    ensures MemoryProved(run, Loaded(rows))
  {
    var m := Loaded(rows);
    forall b, h | StoreRuns.Has(m, b, h) && Verified(m[b].hostVerifyStatusMap[h].status)
      ensures Proved(run, b, h, m[b].hostVerifyStatusMap[h])
    {
      var r := Restarts.LoadedFromRow(rows, b, h);
      assert Proved(run, r.bundleName, r.domain, StoreRuns.RecordOf(r));
    }
    forall b | b in m ensures HostsProved(run, b, m[b].hostVerifyStatusMap) {
      assert forall h :: h in m[b].hostVerifyStatusMap ==> StoreRuns.Has(m, b, h);
    }
  }

  lemma {:induction false} CollectedProved(run: seq<Step>, b: string, skillUris: seq<SkillUri>)
    ensures HostsProved(run, b, Collected(skillUris))
  {
  }

  lemma {:induction false} BeginProved(run: seq<Step>, s: System, step: Step)
    requires Exec(run) == Some(s) && Inv(s) && Enabled(s, step) && step.Begin?
    requires TasksProved(run + [step], s.tasks)
    ensures TasksProved(run + [step], Next(s, step).tasks)
  {
    var o, all := s.owner[step.id], run + [step];
    var t := s.tasks[o.task];
    var b, e := t.app.bundleName, VerifyTasks.Earned(t.run.task.app, step.response, step.now);
    BeginGives(s, step);
    if Verified(e.status) {
      ProvedNext(run, step, b, t.app.appIdentifier, o.uri, e);
    }
    assert TaskProved(all, t);
    PutProved(all, b, t.run.task.result.hostVerifyStatusMap, o.uri, e);
    ReplaceProved(all, s.tasks, o.task, Began(t, o.uri, step.response, step.now));
  }

  lemma {:induction false} NextTasksProved(run: seq<Step>, s: System, step: Step)
    requires Exec(run) == Some(s) && Inv(s) && Enabled(s, step)
    requires StoreProved(run + [step], s.store) && TasksProved(run + [step], s.tasks)
    ensures TasksProved(run + [step], Next(s, step).tasks)
  {
    var all := run + [step];
    match step
    case Install(_, _, _, _) => NewTaskProved(all, s, step);
    case Refresh(_, _) => NewTaskProved(all, s, step);
    case Begin(_, _, _) => BeginProved(run, s, step);
    case _ => SameResultsProved(all, s, step);
  }

  lemma {:induction false} NewTaskProved(all: seq<Step>, s: System, step: Step)
    requires Enabled(s, step) && (step.Install? || step.Refresh?)
    requires StoreProved(all, s.store) && TasksProved(all, s.tasks)
    ensures TasksProved(all, Next(s, step).tasks)
  {
    if step.Install? {
      CollectedProved(all, step.app.bundleName, step.skillUris);
      LaunchProved(all, Commit(s, InstallOp(step)), step.app, InstallOp(step).info, step.now);
    } else {
      LaunchProved(all, s, step.app, s.store.memory[step.app.bundleName], step.now);
    }
  }

  /** Other steps leave every task's result as it is. */
  lemma {:induction false} SameResultsProved(all: seq<Step>, s: System, step: Step)
    requires Enabled(s, step) && !step.Install? && !step.Refresh? && !step.Begin? && TasksProved(all, s.tasks)
    ensures TasksProved(all, Next(s, step).tasks)
  {
    var tasks := Next(s, step).tasks;
    forall i | 0 <= i < |tasks| ensures TaskProved(all, tasks[i]) {
      assert TaskProved(all, s.tasks[i]);
    }
  }

  lemma {:induction false} NextStoreProved(run: seq<Step>, s: System, step: Step)
    requires Enabled(s, step) && StoreProved(run, s.store) && TasksProved(run, s.tasks)
    ensures StoreProved(run, Next(s, step).store)
  {
    match step
    case Install(app, skillUris, _, _) =>
      CollectedProved(run, app.bundleName, skillUris);
      AfterProved(run, s.store, InstallOp(step));
    case Uninstall(b, deleted) => AfterProved(run, s.store, Delete(b, deleted));
    case Deliver(i, write, received) =>
      assert TaskProved(run, s.tasks[i]);
      if received {
        AfterProved(run, s.store, SaveOp(s.tasks[i], write));
      }
    case Restart(read) =>
      assert RowsProved(run, s.store.rows[..read]);
      LoadedProved(run, s.store.rows[..read]);
    case _ =>
  }

  lemma {:induction false} RunProved(run: seq<Step>)
    requires Exec(run).Some?
    ensures StoreProved(run, Exec(run).value.store) && TasksProved(run, Exec(run).value.tasks)
  {
    if run != [] {
      var before, step := run[..|run| - 1], run[|run| - 1];
      assert run == before + [step];
      LastStep(before, step);
      RunProved(before);
      RunInv(before);
      var s := Exec(before).value;
      StillProvedAll(before, step, s);
      NextTasksProved(before, s, step);
      NextStoreProved(run, s, step);
    }
  }

  /** In every reachable state an ability offered a link belongs to a bundle whose
      own callback for that very host was given a vouching response; priority and
      time of its record are that response's. */
  lemma {:induction false} OfferedOnlyIfVouched(run: seq<Step>, key: string, a: AbilityInfo)
    requires Exec(run).Some? && Offer(Exec(run).value.store.memory, key, a).Some?
    ensures Proved(run, a.bundleName, key, Exec(run).value.store.memory[a.bundleName].hostVerifyStatusMap[key])
  {
    RunProved(run);
    assert HostsProved(run, a.bundleName, Exec(run).value.store.memory[a.bundleName].hostVerifyStatusMap);
  }
}
