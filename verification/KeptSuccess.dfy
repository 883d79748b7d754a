/**
 When a success stays: exactly if no task whose result may still come back holds
 another record of the host, or waits for one. Tasks of a bundle that do not
 overlap are enough; overlapping ones can lose it.
 */
module KeptSuccess {
  import TaskPool
  import VerifyTasks
  import opened Completion
  import opened DomainVerifier
  import opened ManagerService
  import opened Seqs
  import opened StatusStore
  import opened VerificationSystem
  import opened VerifyTypes

  ghost predicate Stored(m: Memory, b: string, h: string, e: VerifyStatus) {
    b in m && h in m[b].hostVerifyStatusMap && m[b].hostVerifyStatusMap[h] == e
  }

  /** The bundle is installed or uninstalled, or a restart of the manager does not
      find it as it is. */
  ghost predicate Touches(s: System, step: Step, b: string) {
    || (step.Install? && step.app.bundleName == b)
    || (step.Uninstall? && step.bundleName == b)
    || (step.Restart? && !RestartKeeps(s, step.read, b))
  }

  ghost predicate Untouched(run: seq<Step>, more: seq<Step>, b: string) {
    more == [] ||
    var front := more[..|more| - 1];
    Untouched(run, front, b) && Exec(run + front).Some? && !Touches(Exec(run + front).value, more[|more| - 1], b)
  }

  /** What the task hands over has this record of the host, or none. */
  ghost predicate Holds(t: Launched, h: string, e: VerifyStatus) {
    h in t.run.task.result.hostVerifyStatusMap ==>
      t.run.task.result.hostVerifyStatusMap[h] == e && !Awaits(t, h)
  }

  /** Every result that may still come back for the bundle holds the record. */
  ghost predicate Settled(s: System, b: string, h: string, e: VerifyStatus) {
    forall i: nat :: MayHandOver(s, i) && s.tasks[i].app.bundleName == b ==> Holds(s.tasks[i], h, e)
  }

  ghost predicate KeptAfter(run: seq<Step>, more: seq<Step>, b: string, h: string, e: VerifyStatus) {
    Exec(run + more).Some? && Untouched(run, more, b) ==> Stored(Exec(run + more).value.store.memory, b, h, e)
  }

  ghost predicate KeptForever(run: seq<Step>, b: string, h: string, e: VerifyStatus) {
    forall more :: KeptAfter(run, more, b, h, e)
  }

  // ---------- settled is enough ----------

  /** Updating with records that agree, or say nothing, keeps the success. */
  lemma {:induction false} UpdateKeeps(m: Memory, op: Op, b: string, h: string, e: VerifyStatus)
    requires Stored(m, b, h, e) && (op.bundleName == b ==> op.Update?)
    requires op.Update? && op.bundleName == b && h in op.info.hostVerifyStatusMap ==>
      op.info.hostVerifyStatusMap[h] == e
    ensures Stored(MemoryAfter(m, op), b, h, e)
  {
  }

  lemma {:induction false} StaysStored(s: System, step: Step, b: string, h: string, e: VerifyStatus)
    requires Inv(s) && Enabled(s, step) && !Touches(s, step, b)
    requires Stored(s.store.memory, b, h, e) && Settled(s, b, h, e)
    ensures Stored(Next(s, step).store.memory, b, h, e)
  {
    match step
    case Install(_, _, _, _) => UpdateKeeps(s.store.memory, InstallOp(step), b, h, e);
    case Uninstall(c, deleted) => UpdateKeeps(s.store.memory, Delete(c, deleted), b, h, e);
    case Deliver(i, write, received) =>
      if received {
        assert MayHandOver(s, i);
        UpdateKeeps(s.store.memory, SaveOp(s.tasks[i], write), b, h, e);
      }
    case _ =>
  }

  /** Tasks keep what they were given, and new ones come from installs and refreshes. */
  lemma {:induction false} SameGiven(s: System, step: Step, i: nat)
    requires Enabled(s, step) && i < |s.tasks|
    ensures i < |Next(s, step).tasks|
    ensures Next(s, step).tasks[i].app == s.tasks[i].app && Next(s, step).tasks[i].given == s.tasks[i].given
  {
  }

  lemma {:induction false} NewTask(s: System, step: Step, i: nat)
    requires Enabled(s, step) && |s.tasks| <= i < |Next(s, step).tasks|
    ensures i == |s.tasks| && (step.Install? || step.Refresh?) && Next(s, step).tasks[i].app == step.app
    ensures step.Refresh? ==>
      Next(s, step).tasks[i].run == VerifyTasks.StartRun(step.app, s.store.memory[step.app.bundleName], step.now)
  {
  }

  lemma {:induction false} StartedBefore(s: System, t: System, o: Owner)
    requires Inv(s) && JobStarted(t, o)
    requires forall id :: id in t.pool.phase ==> id in s.pool.phase
    requires forall id :: id in s.owner ==> id in t.owner && t.owner[id] == s.owner[id]
    ensures JobStarted(s, o)
  {
    var id :| id in t.owner && t.owner[id] == o && id in t.pool.phase;
    StartedJob(s, id);
  }

  /** A stopping pool starts no more jobs. */
  lemma {:induction false} NoNewJobs(s: System, step: Step, o: Owner)
    requires Inv(s) && Enabled(s, step) && s.pool.stop && JobStarted(Next(s, step), o)
    ensures JobStarted(s, o)
  {
    forall id | id in Next(s, step).pool.phase ensures id in s.pool.phase {
      PoolPhases(s, step, id);
    }
    forall id | id in s.owner ensures id in Next(s, step).owner && Next(s, step).owner[id] == s.owner[id] {
      KeptOwner(s, step, id);
    }
    StartedBefore(s, Next(s, step), o);
  }

  lemma {:induction false} PoolPhases(s: System, step: Step, id: TaskPool.TaskId)
    requires Enabled(s, step) && s.pool.stop && id in Next(s, step).pool.phase
    ensures id in s.pool.phase
  {
  }

  lemma {:induction false} StaysStopped(s: System, step: Step)
    requires Enabled(s, step) && s.pool.stop
    ensures Next(s, step).pool.stop
  {
  }

  /** A host is finished by its own callback only. */
  lemma {:induction false} FinishedNow(s: System, step: Step, i: nat, u: string)
    requires Enabled(s, step) && i < |s.tasks| && i < |Next(s, step).tasks|
    requires u in s.tasks[i].run.progress && s.tasks[i].run.progress[u] != VerifyTasks.Done
    ensures u in Next(s, step).tasks[i].run.progress
    ensures Next(s, step).tasks[i].run.progress[u] == VerifyTasks.Done ==>
      step.Finish? && s.owner[step.id] == Owner(i, u)
  {
  }

  /** No task comes back to handing over a result. */
  lemma {:induction false} HandOverWas(s: System, step: Step, i: nat)
    requires Inv(s) && Enabled(s, step) && i < |s.tasks| && MayHandOver(Next(s, step), i)
    ensures MayHandOver(s, i)
  {
    var t := Next(s, step);
    if s.tasks[i].waiting.None? {
      if t.tasks[i].waiting.Some? {
        NextWaiting(s, step, i);
        assert s.tasks[i].run.progress[s.owner[step.id].uri] == VerifyTasks.Written;
        AllDoneWhenSaving(s, step, i);
      } else {
        OpenWas(s, step, i);
      }
      if s.pool.stop {
        StaysStopped(s, step);
        OpenJobsWereStarted(s, step, i);
      }
    }
  }

  lemma {:induction false} AllDoneWhenSaving(s: System, step: Step, i: nat)
    requires Inv(s) && Enabled(s, step) && i < |Next(s, step).tasks| && Next(s, step).tasks[i].waiting.Some?
    ensures VerifyTasks.AllDone(Next(s, step).tasks[i].run)
  {
    NextInv(s, step);
    var t := Next(s, step).tasks[i];
    assert TaskInv(t);
    VerifyTasks.DoneMeansSaved(t.run, t.app, t.given, RetriedBy(t));
  }

  lemma {:induction false} OpenWas(s: System, step: Step, i: nat)
    requires Enabled(s, step) && i < |s.tasks| && i < |Next(s, step).tasks|
    requires !VerifyTasks.AllDone(Next(s, step).tasks[i].run)
    ensures !VerifyTasks.AllDone(s.tasks[i].run)
  {
  }

  lemma {:induction false} OpenJobsWereStarted(s: System, step: Step, i: nat)
    requires Inv(s) && Enabled(s, step) && s.pool.stop && i < |s.tasks| && MayHandOver(Next(s, step), i)
    ensures OpenJobsStarted(s, i)
  {
    var t := Next(s, step);
    StaysStopped(s, step);
    if t.tasks[i].waiting.Some? { AllDoneWhenSaving(s, step, i); }
    var progress := s.tasks[i].run.progress;
    forall u | u in progress && progress[u] != VerifyTasks.Done ensures JobStarted(s, Owner(i, u)) {
      FinishedNow(s, step, i, u);
      if t.tasks[i].run.progress[u] != VerifyTasks.Done {
        NoNewJobs(s, step, Owner(i, u));
      }
    }
  }

  /** A record a task does not wait for is not changed by its callbacks. */
  lemma {:induction false} BeganHolds(
    t: Launched, uri: string, response: HttpResponse, now: nat, h: string, e: VerifyStatus)
    requires VerifyTasks.Enabled(t.run, VerifyTasks.Classify(uri, response, now)) && Holds(t, h, e)
    ensures Holds(Began(t, uri, response, now), h, e)
  {
    var t' := Began(t, uri, response, now);
    assert uri == h ==> Awaits(t, h);
    assert t'.run.task.result.hostVerifyStatusMap.Keys == t.run.task.result.hostVerifyStatusMap.Keys;
  }

  lemma {:induction false} StaysHeld(s: System, step: Step, i: nat, h: string, e: VerifyStatus)
    requires Enabled(s, step) && i < |s.tasks| && i < |Next(s, step).tasks| && Holds(s.tasks[i], h, e)
    ensures Holds(Next(s, step).tasks[i], h, e)
  {
    if step.Begin? {
      if s.owner[step.id].task == i {
        BeganHolds(s.tasks[i], s.owner[step.id].uri, step.response, step.now, h, e);
      }
    } else {
      OthersHold(s, step, i, h, e);
    }
  }

  lemma {:induction false} OthersHold(s: System, step: Step, i: nat, h: string, e: VerifyStatus)
    requires Enabled(s, step) && !step.Begin? && i < |s.tasks| && i < |Next(s, step).tasks| && Holds(s.tasks[i], h, e)
    ensures Holds(Next(s, step).tasks[i], h, e)
  {
    var t, t' := s.tasks[i], Next(s, step).tasks[i];
    assert t'.run.task.result == t.run.task.result;
    assert Awaits(t', h) ==> Awaits(t, h);
  }

  /** A task given a success holds it. */
  lemma {:induction false} GivenSuccessIsHeld(s: System, step: Step, i: nat, h: string, e: VerifyStatus)
    requires Enabled(s, step) && step.Refresh? && |s.tasks| <= i < |Next(s, step).tasks|
    requires Stored(s.store.memory, step.app.bundleName, h, e) && e.status == STATE_SUCCESS
    ensures Holds(Next(s, step).tasks[i], h, e)
  {
    NewTask(s, step, i);
    assert h !in VerifyTasks.RetrySet(s.store.memory[step.app.bundleName].hostVerifyStatusMap, step.now);
  }

  lemma {:induction false} StaysSettled(s: System, step: Step, b: string, h: string, e: VerifyStatus)
    requires Inv(s) && Enabled(s, step) && !Touches(s, step, b)
    requires Stored(s.store.memory, b, h, e) && e.status == STATE_SUCCESS && Settled(s, b, h, e)
    ensures Settled(Next(s, step), b, h, e)
  {
    var t := Next(s, step);
    forall i: nat | MayHandOver(t, i) && t.tasks[i].app.bundleName == b ensures Holds(t.tasks[i], h, e) {
      if i < |s.tasks| {
        HandOverWas(s, step, i);
        SameGiven(s, step, i);
        StaysHeld(s, step, i, h, e);
      } else {
        NewTask(s, step, i);
        GivenSuccessIsHeld(s, step, i, h, e);
      }
    }
  }

  /** The success is stored and settled. */
  ghost predicate Safe(s: Option<System>, b: string, h: string, e: VerifyStatus) {
    s.Some? && e.status == STATE_SUCCESS && Stored(s.value.store.memory, b, h, e) && Settled(s.value, b, h, e)
  }

  lemma {:induction false} LastSafe(run: seq<Step>, step: Step, b: string, h: string, e: VerifyStatus)
    requires Safe(Exec(run), b, h, e) && Exec(run + [step]).Some? && !Touches(Exec(run).value, step, b)
    ensures Safe(Exec(run + [step]), b, h, e)
  {
    LastStep(run, step);
    RunInv(run);
    StaysStored(Exec(run).value, step, b, h, e);
    StaysSettled(Exec(run).value, step, b, h, e);
  }

  lemma {:induction false} SafeStays(run: seq<Step>, more: seq<Step>, b: string, h: string, e: VerifyStatus)
    requires Safe(Exec(run), b, h, e) && Exec(run + more).Some? && Untouched(run, more, b)
    ensures Safe(Exec(run + more), b, h, e)
  {
    if more == [] {
      assert run + more == run;
    } else {
      var before, last := more[..|more| - 1], more[|more| - 1];
      AppendLast(run, more);
      LastRan(run + before, last);
      SafeStays(run, before, b, h, e);
      LastSafe(run + before, last, b, h, e);
    }
  }

  // ---------- and necessary ----------

  lemma {:induction false} CalmIsUntouched(run: seq<Step>, more: seq<Step>, a: Reply, b: string)
    requires CalmRun(run, more, a)
    ensures Untouched(run, more, b)
  {
    if more != [] {
      CalmIsUntouched(run, more[..|more| - 1], a, b);
    }
  }

  lemma {:induction false} ErrorIsNoSuccess(app: AppVerifyBaseInfo, now: nat)
    ensures VerifyTasks.Earned(app, SERVER_ERROR, now).status != STATE_SUCCESS
    ensures VerifyTasks.Earned(app, NO_RESPONSE, now).status != STATE_SUCCESS
  {
  }

  /** When the task hands over, it has another record of the host. */
  lemma {:induction false} SpoiltResult(u: Launched, t: Launched, h: string, e: VerifyStatus, a: Reply)
    requires TaskInv(t) && t.waiting.Some? && Followed(u, t, h, a)
    requires a.response == SERVER_ERROR || a.response == NO_RESPONSE
    requires !Holds(u, h, e) && e.status == STATE_SUCCESS
    ensures h in t.run.task.result.hostVerifyStatusMap && t.run.task.result.hostVerifyStatusMap[h] != e
  {
    VerifyTasks.DoneMeansSaved(t.run, t.app, t.given, RetriedBy(t));
    assert !Awaits(t, h);
    if Awaits(u, h) {
      var p :| t.run.task.result.hostVerifyStatusMap[h] == VerifyTasks.Earned(t.app.(priority := p), a.response, a.now);
      ErrorIsNoSuccess(t.app.(priority := p), a.now);
    }
  }

  /** A result that comes back with another record replaces the success. */
  lemma {:induction false} DeliveryReplaces(s: System, i: nat, write: Write, b: string, h: string, e: VerifyStatus)
    requires Inv(s) && Enabled(s, Deliver(i, write, true)) && s.tasks[i].app.bundleName == b
    requires h in s.tasks[i].run.task.result.hostVerifyStatusMap
    requires s.tasks[i].run.task.result.hostVerifyStatusMap[h] != e
    ensures !Stored(Next(s, Deliver(i, write, true)).store.memory, b, h, e)
  {
  }

  /** A state in which a spoilt result is handed over. */
  lemma {:induction false} Deliverable(run: seq<Step>, t: System, i: nat, b: string, h: string, e: VerifyStatus)
    returns (last: Step)
    requires Exec(run) == Some(t) && i < |t.tasks| && t.tasks[i].waiting.Some? && t.tasks[i].app.bundleName == b
    requires h in t.tasks[i].run.task.result.hostVerifyStatusMap
    requires t.tasks[i].run.task.result.hostVerifyStatusMap[h] != e
    ensures Exec(run + [last]).Some? && !Touches(t, last, b)
    ensures !Stored(Exec(run + [last]).value.store.memory, b, h, e)
  {
    RunInv(run);
    DeliveryIsPossible(t, i);
    var write :| Enabled(t, Deliver(i, write, true));
    DeliveryReplaces(t, i, write, b, h, e);
    last := Deliver(i, write, true);
    Extend(run, t, last);
  }

  /** A result that may still come back with another record can be made to. */
  lemma {:induction false} Unsettles(
    run: seq<Step>, i: nat, b: string, h: string, e: VerifyStatus)
    returns (more: seq<Step>)
    requires Exec(run).Some? && MayHandOver(Exec(run).value, i) && Exec(run).value.tasks[i].app.bundleName == b
    requires !Holds(Exec(run).value.tasks[i], h, e) && e.status == STATE_SUCCESS
    ensures !KeptAfter(run, more, b, h, e)
  {
    var s, o := Exec(run).value, Owner(i, h);
    var a := Reply(o, if Answerable(s, o) then SERVER_ERROR else NO_RESPONSE, 0);
    var calm, t := ResultCanComeBack(run, s, a);
    SpoiltResult(s.tasks[i], t.tasks[i], h, e, a);
    var last := Deliverable(run + calm, t, i, b, h, e);
    CalmIsUntouched(run, calm, a, b);
    LostAfter(run, calm, last, b, h, e);
    more := calm + [last];
  }

  lemma {:induction false} LostAfter(
    run: seq<Step>, calm: seq<Step>, last: Step, b: string, h: string, e: VerifyStatus)
    requires Untouched(run, calm, b) && Exec(run + calm).Some? && !Touches(Exec(run + calm).value, last, b)
    requires Exec(run + calm + [last]).Some? && !Stored(Exec(run + calm + [last]).value.store.memory, b, h, e)
    ensures !KeptAfter(run, calm + [last], b, h, e)
  {
    var more := calm + [last];
    assert run + more == run + calm + [last];
    assert more[..|more| - 1] == calm;
  }

  /** Exactly when a stored success is kept, whatever follows short of an install or
      uninstall of the bundle or a restart that does not find the bundle as it is. */
  lemma {:induction false} KeptIffSettled(run: seq<Step>, b: string, h: string, e: VerifyStatus)
    requires Exec(run).Some? && Stored(Exec(run).value.store.memory, b, h, e) && e.status == STATE_SUCCESS
    ensures KeptForever(run, b, h, e) <==> Settled(Exec(run).value, b, h, e)
  {
    var s := Exec(run).value;
    if Settled(s, b, h, e) {
      forall more ensures KeptAfter(run, more, b, h, e) {
        if Exec(run + more).Some? && Untouched(run, more, b) {
          SafeStays(run, more, b, h, e);
        }
      }
    } else {
      var i: nat :| MayHandOver(s, i) && s.tasks[i].app.bundleName == b && !Holds(s.tasks[i], h, e);
      var more := Unsettles(run, i, b, h, e);
    }
  }

  // ---------- rounds that do not overlap ----------

  /** No result of the bundle may still come back. */
  ghost predicate Quiet(s: System, b: string) {
    forall i: nat :: MayHandOver(s, i) ==> s.tasks[i].app.bundleName != b
  }

  /** A step of rounds that do not overlap: the bundle's next task is only started
      when the last one is over, and so is a restart that does not find the bundle as
      it is. */
  ghost predicate InTurn(s: System, step: Step, b: string) {
    && ((step.Install? || step.Refresh?) && step.app.bundleName == b ==> Quiet(s, b))
    && (step.Restart? && !RestartKeeps(s, step.read, b) ==> Quiet(s, b))
  }

  ghost predicate Rounds(run: seq<Step>, b: string) {
    run == [] ||
    var before := run[..|run| - 1];
    Rounds(before, b) && Exec(before).Some? && InTurn(Exec(before).value, run[|run| - 1], b)
  }

  ghost predicate OneFlight(s: System, b: string) {
    forall i: nat, j: nat :: i < j && MayHandOver(s, i) && MayHandOver(s, j) ==>
      s.tasks[i].app.bundleName != b || s.tasks[j].app.bundleName != b
  }

  ghost predicate SuccessesSettled(s: System, b: string) {
    forall h, e :: Stored(s.store.memory, b, h, e) && e.status == STATE_SUCCESS ==> Settled(s, b, h, e)
  }

  lemma {:induction false} NextOneFlight(s: System, step: Step, b: string)
    requires Inv(s) && Enabled(s, step) && InTurn(s, step, b) && OneFlight(s, b)
    ensures OneFlight(Next(s, step), b)
  {
    var t := Next(s, step);
    forall i: nat, j: nat | i < j && MayHandOver(t, i) && MayHandOver(t, j)
      ensures t.tasks[i].app.bundleName != b || t.tasks[j].app.bundleName != b
    {
      FlightWas(s, step, i);
      FlightWas(s, step, j);
    }
  }

  lemma {:induction false} FlightWas(s: System, step: Step, i: nat)
    requires Inv(s) && Enabled(s, step) && MayHandOver(Next(s, step), i)
    ensures i < |s.tasks| ==> MayHandOver(s, i) && Next(s, step).tasks[i].app == s.tasks[i].app
    ensures i >= |s.tasks| ==>
      i == |s.tasks| && (step.Install? || step.Refresh?) && Next(s, step).tasks[i].app == step.app
  {
    if i < |s.tasks| {
      HandOverWas(s, step, i);
      SameGiven(s, step, i);
    } else {
      NewTask(s, step, i);
    }
  }

  lemma {:induction false} StaysQuiet(s: System, step: Step, b: string)
    requires Inv(s) && Enabled(s, step) && Quiet(s, b) && !step.Install? && !step.Refresh?
    ensures Quiet(Next(s, step), b)
  {
    forall i: nat | MayHandOver(Next(s, step), i) ensures Next(s, step).tasks[i].app.bundleName != b {
      FlightWas(s, step, i);
    }
  }

  lemma {:induction false} DeliveredIsOver(s: System, step: Step)
    requires Inv(s) && Enabled(s, step) && step.Deliver?
    ensures !MayHandOver(Next(s, step), step.task)
  {
    var u := s.tasks[step.task];
    assert TaskInv(u);
    VerifyTasks.DoneMeansSaved(u.run, u.app, u.given, RetriedBy(u));
  }

  /** After the delivery of the only task in flight the bundle is quiet. */
  lemma {:induction false} DeliveryQuietens(s: System, step: Step, b: string)
    requires Inv(s) && Enabled(s, step) && step.Deliver? && s.tasks[step.task].app.bundleName == b && OneFlight(s, b)
    ensures Quiet(Next(s, step), b)
  {
    DeliveredIsOver(s, step);
    assert MayHandOver(s, step.task);
    forall i: nat | MayHandOver(Next(s, step), i) ensures Next(s, step).tasks[i].app.bundleName != b {
      FlightWas(s, step, i);
      assert i < step.task || i == step.task || step.task < i;
    }
  }

  lemma {:induction false} QuietIsSettled(s: System, b: string)
    requires Quiet(s, b)
    ensures SuccessesSettled(s, b)
  {
  }

  lemma {:induction false} InstalledIsUnverified(s: System, step: Step, b: string, h: string, e: VerifyStatus)
    requires Inv(s) && Enabled(s, step)
    requires (step.Install? && step.app.bundleName == b) || (step.Uninstall? && step.bundleName == b)
    requires Stored(Next(s, step).store.memory, b, h, e)
    ensures e.status != STATE_SUCCESS
  {
    NextInv(s, step);
  }

  /** Other steps leave the bundle's records alone. */
  lemma {:induction false} OthersKeepRecords(s: System, step: Step, b: string, h: string, e: VerifyStatus)
    requires Inv(s) && Enabled(s, step) && !Touches(s, step, b)
    requires step.Deliver? ==> s.tasks[step.task].app.bundleName != b
    requires Stored(Next(s, step).store.memory, b, h, e)
    ensures Stored(s.store.memory, b, h, e)
  {
    var m := s.store.memory;
    match step
    case Install(_, _, _, _) => RecordWas(m, InstallOp(step), b, h, e);
    case Uninstall(c, deleted) => RecordWas(m, Delete(c, deleted), b, h, e);
    case Deliver(i, write, received) => if received { RecordWas(m, SaveOp(s.tasks[i], write), b, h, e); }
    case _ =>
  }

  lemma {:induction false} RecordWas(m: Memory, op: Op, b: string, h: string, e: VerifyStatus)
    requires op.bundleName != b && Stored(MemoryAfter(m, op), b, h, e)
    ensures Stored(m, b, h, e)
  {
  }

  lemma {:induction false} NextSuccessesSettled(s: System, step: Step, b: string)
    requires Inv(s) && Enabled(s, step) && InTurn(s, step, b) && OneFlight(s, b) && SuccessesSettled(s, b)
    ensures SuccessesSettled(Next(s, step), b)
  {
    var t := Next(s, step);
    if step.Deliver? && s.tasks[step.task].app.bundleName == b {
      DeliveryQuietens(s, step, b);
      QuietIsSettled(t, b);
    } else if step.Restart? && !RestartKeeps(s, step.read, b) {
      StaysQuiet(s, step, b);
      QuietIsSettled(t, b);
    } else {
      forall h, e | Stored(t.store.memory, b, h, e) && e.status == STATE_SUCCESS ensures Settled(t, b, h, e) {
        if Touches(s, step, b) {
          InstalledIsUnverified(s, step, b, h, e);
        } else {
          OthersKeepRecords(s, step, b, h, e);
          StaysSettled(s, step, b, h, e);
        }
      }
    }
  }

  lemma {:induction false} RoundsSettle(run: seq<Step>, b: string)
    requires Exec(run).Some? && Rounds(run, b)
    ensures OneFlight(Exec(run).value, b) && SuccessesSettled(Exec(run).value, b)
  {
    if run != [] {
      var before, step := run[..|run| - 1], run[|run| - 1];
      assert run == before + [step];
      LastStep(before, step);
      RoundsSettle(before, b);
      RunInv(before);
      NextOneFlight(Exec(before).value, step, b);
      NextSuccessesSettled(Exec(before).value, step, b);
    }
  }

  /** If the bundle's tasks so far did not overlap, every stored success is kept,
      whatever follows. */
  lemma {:induction false} RoundsKeepSuccess(run: seq<Step>, b: string, h: string, e: VerifyStatus)
    requires Exec(run).Some? && Rounds(run, b)
    requires Stored(Exec(run).value.store.memory, b, h, e) && e.status == STATE_SUCCESS
    ensures KeptForever(run, b, h, e)
  {
    RoundsSettle(run, b);
    KeptIffSettled(run, b, h, e);
  }

  // ---------- overlapping rounds ----------

  /** The callback of a task's last host, up to the delivery of the result. */
  ghost predicate LastHost(s: System, id: nat) {
    && id in s.owner && id in s.pool.phase && s.pool.phase[id] == TaskPool.Started(true)
    && s.owner[id].task < |s.tasks|
    && s.tasks[s.owner[id].task].run.task.unVerified == {s.owner[id].uri}
  }

  /** What that callback leaves in memory. */
  ghost function MemoryAnswered(s: System, id: nat, response: HttpResponse, now: nat): Memory
    requires LastHost(s, id)
  {
    var t := s.tasks[s.owner[id].task];
    var e := VerifyTasks.Earned(t.run.task.app, response, now);
    MemoryAfter(s.store.memory,
      Update(t.app.bundleName, VerifyTasks.Put(t.run.task.result, s.owner[id].uri, e), Write([], false, 0)))
  }

  /** From `s` to `r` only the task of the callback `id` went on. */
  ghost predicate Beside(s: System, r: System, id: nat) {
    && id in s.owner && r.owner == s.owner && |r.tasks| == |s.tasks|
    && (forall j :: 0 <= j < |s.tasks| && j != s.owner[id].task ==> r.tasks[j] == s.tasks[j])
    && (forall j :: j in s.pool.phase && j != id ==> j in r.pool.phase && r.pool.phase[j] == s.pool.phase[j])
  }

  lemma {:induction false} BeginBeside(s: System, id: nat, response: HttpResponse, now: nat)
    requires Enabled(s, Begin(id, response, now))
    ensures
      var r := Next(s, Begin(id, response, now));
      && Beside(s, r, id) && r.store == s.store
      && id in r.pool.phase && r.pool.phase[id].Posting?
      && ProgressOf(r, r.owner[id]) == VerifyTasks.Written
  {
  }

  lemma {:induction false} BeginLast(run: seq<Step>, s: System, id: nat, response: HttpResponse, now: nat)
    returns (r: System)
    requires Exec(run) == Some(s) && LastHost(s, id)
    ensures Exec(run + [Begin(id, response, now)]) == Some(r) && Beside(s, r, id) && r.store == s.store
    ensures id in r.pool.phase && r.pool.phase[id].Posting?
    ensures ProgressOf(r, r.owner[id]) == VerifyTasks.Written
    ensures
      var i, h := s.owner[id].task, s.owner[id].uri;
      && r.tasks[i].app == s.tasks[i].app && h in s.tasks[i].run.task.result.hostVerifyStatusMap
      && r.tasks[i].run.task == VerifyTasks.Classified(s.tasks[i].run.task, h, response, now)
  {
    RunInv(run);
    MayBegin(s, id, response, now);
    Extend(run, s, Begin(id, response, now));
    BeginBeside(s, id, response, now);
    r := Next(s, Begin(id, response, now));
  }

  lemma {:induction false} FinishBeside(s: System, id: nat)
    requires Enabled(s, Finish(id)) && s.tasks[s.owner[id].task].run.task.unVerified == {s.owner[id].uri}
    ensures
      var r, i := Next(s, Finish(id)), s.owner[id].task;
      && Beside(s, r, id) && r.store == s.store
      && r.tasks[i].app == s.tasks[i].app && r.tasks[i].waiting == Some(id)
      && r.tasks[i].run.task.result == s.tasks[i].run.task.result
  {
    var r, i := Next(s, Finish(id)), s.owner[id].task;
    assert s.tasks[i].run.task.unVerified - {s.owner[id].uri} == {};
    assert |r.tasks[i].run.task.saves| == |s.tasks[i].run.task.saves| + 1;
  }

  lemma {:induction false} FinishLast(run: seq<Step>, s: System, id: nat) returns (r: System)
    requires Exec(run) == Some(s) && id in s.pool.phase && s.pool.phase[id].Posting?
    requires id in s.owner && ProgressOf(s, s.owner[id]) == VerifyTasks.Written
    requires s.owner[id].task < |s.tasks| && s.tasks[s.owner[id].task].run.task.unVerified == {s.owner[id].uri}
    ensures Exec(run + [Finish(id)]) == Some(r) && Beside(s, r, id) && r.store == s.store
    ensures
      var i := s.owner[id].task;
      && r.tasks[i].app == s.tasks[i].app && r.tasks[i].waiting == Some(id)
      && r.tasks[i].run.task.result == s.tasks[i].run.task.result
  {
    RunInv(run);
    MayFinish(s, id);
    Extend(run, s, Finish(id));
    FinishBeside(s, id);
    r := Next(s, Finish(id));
  }

  lemma {:induction false} DeliverLast(run: seq<Step>, s: System, i: nat) returns (w: Write, r: System)
    requires Exec(run) == Some(s) && i < |s.tasks| && s.tasks[i].waiting.Some?
    ensures Exec(run + [Deliver(i, w, true)]) == Some(r)
    ensures r.store.memory == MemoryAfter(s.store.memory, SaveOp(s.tasks[i], Write([], false, 0)))
    ensures r.owner == s.owner && r.pool == s.pool && |r.tasks| == |s.tasks|
    ensures forall j :: 0 <= j < |s.tasks| && j != i ==> r.tasks[j] == s.tasks[j]
  {
    DeliveryIsPossible(s, i);
    w :| Enabled(s, Deliver(i, w, true));
    r := Next(s, Deliver(i, w, true));
    Extend(run, s, Deliver(i, w, true));
  }

  /** Whatever the last host answers, the result can come back at once. */
  lemma {:induction false} AnswerLastHost(run: seq<Step>, s: System, id: nat, response: HttpResponse, now: nat)
    returns (after: seq<Step>, r: System)
    requires Exec(run) == Some(s) && LastHost(s, id)
    ensures Exec(run + after) == Some(r) && forall k :: 0 <= k < |after| ==> !after[k].Install? && !after[k].Uninstall?
    ensures r.store.memory == MemoryAnswered(s, id, response, now) && Beside(s, r, id)
  {
    var i := s.owner[id].task;
    var p := BeginLast(run, s, id, response, now);
    var run1 := run + [Begin(id, response, now)];
    var q := FinishLast(run1, p, id);
    var run2 := run1 + [Finish(id)];
    var w;
    w, r := DeliverLast(run2, q, i);
    after := [Begin(id, response, now), Finish(id), Deliver(i, w, true)];
    assert run2 + [Deliver(i, w, true)] == run + after;
  }

  // A concrete run: one install, and a refresh before its result is back.

  const SOME_APP: AppVerifyBaseInfo := AppVerifyBaseInfo("id", "bundle", "print", PRIORITY_UNSET, false)
  const SOME_URI: string := "https://a"
  const SOME_SKILL: SkillUri := SkillUri("https", "a", "", "", "")
  const SOME_INFO: VerifyResultInfo := VerifyResultInfo("id", map[SOME_URI := UNVERIFIED])
  const SOME_TASK: Launched := Launched(
    SOME_APP, SOME_INFO, 0, VerifyTasks.StartRun(SOME_APP, SOME_INFO, 0), {SOME_URI}, None)

  lemma {:induction false} SomeSkill()
    ensures Collected([SOME_SKILL]) == map[SOME_URI := UNVERIFIED]
    ensures VerifyTasks.RetrySet(SOME_INFO.hostVerifyStatusMap, 0) == {SOME_URI}
  {
    var u := SOME_SKILL;
    assert UriOf(u) == SOME_URI && Collectable(u);
    assert UriSet([u]) == {SOME_URI};
  }

  lemma {:induction false} OneTask() returns (run: seq<Step>, s: System)
    ensures Exec(run) == Some(s)
    ensures s.pool == TaskPool.Init() && s.owner == map[] && s.tasks == [SOME_TASK]
    ensures s.store.memory == map["bundle" := SOME_INFO]
  {
    SomeSkill();
    var step := Install(SOME_APP, [SOME_SKILL], Write([SOME_URI], true, 1), 0);
    assert InstallOp(step) == Insert("bundle", SOME_INFO, step.write);
    assert Legal(step.write, SOME_INFO);
    Extend([], START, step);
    run := [] + [step];
    s := Next(START, step);
  }

  lemma {:induction false} TwoTasks() returns (run: seq<Step>, s: System)
    ensures Exec(run) == Some(s)
    ensures s.pool == TaskPool.Init() && s.owner == map[] && s.tasks == [SOME_TASK, SOME_TASK]
    ensures s.store.memory == map["bundle" := SOME_INFO]
  {
    SomeSkill();
    var before, s1 := OneTask();
    Extend(before, s1, Refresh(SOME_APP, 0));
    run := before + [Refresh(SOME_APP, 0)];
    s := Next(s1, Refresh(SOME_APP, 0));
  }

  lemma {:induction false} TwoAdded() returns (run: seq<Step>, s: System)
    ensures Exec(run) == Some(s)
    ensures s.pool.tasks == [0, 1] && !s.pool.stop && s.pool.phase == map[]
    ensures s.pool.workers == TaskPool.Init().workers
    ensures s.owner == map[0 := Owner(0, SOME_URI), 1 := Owner(1, SOME_URI)]
    ensures |s.tasks| == 2 && s.tasks[0] == s.tasks[1] == SOME_TASK.(todo := {})
    ensures s.store.memory == map["bundle" := SOME_INFO]
  {
    var before, s0 := TwoTasks();
    var first, second := AddHost(0, SOME_URI, 0, 4), AddHost(1, SOME_URI, 1, 4);
    Extend(before, s0, first);
    var s1 := Next(s0, first);
    Extend(before + [first], s1, second);
    run := before + [first] + [second];
    s := Next(s1, second);
  }

  /** Both tasks' jobs are started by two workers. */
  lemma {:induction false} TwoJobs() returns (run: seq<Step>, s: System)
    ensures Exec(run) == Some(s) && LastHost(s, 0) && LastHost(s, 1)
    ensures s.owner == map[0 := Owner(0, SOME_URI), 1 := Owner(1, SOME_URI)]
    ensures |s.tasks| == 2 && s.tasks[0] == s.tasks[1] == SOME_TASK.(todo := {})
    ensures s.store.memory == map["bundle" := SOME_INFO]
  {
    SomeSkill();
    var before, s0 := TwoAdded();
    var first, second := Work(TaskPool.Resume(0, true)), Work(TaskPool.Resume(1, true));
    Extend(before, s0, first);
    var s1 := Next(s0, first);
    Extend(before + [first], s1, second);
    run := before + [first] + [second];
    s := Next(s1, second);
  }

  /** Without turns a success is not kept: while it is stored, the second task, given
      the host unverified, still waits for its answer. */
  lemma {:induction false} OverlappingRoundsLoseSuccess() returns (run: seq<Step>, more: seq<Step>, e: VerifyStatus)
    ensures Exec(run).Some? && Exec(run + more).Some? && Untouched(run, more, "bundle")
    ensures Stored(Exec(run).value.store.memory, "bundle", SOME_URI, e) && e.status == STATE_SUCCESS
    ensures !Stored(Exec(run + more).value.store.memory, "bundle", SOME_URI, e)
  {
    var before, s := TwoJobs();
    var good := HttpResponse(200, Some([SOME_APP]));
    var after, r := AnswerLastHost(before, s, 0, good, 0);
    run := before + after;
    e := VerifyTasks.Earned(s.tasks[0].run.task.app, good, 0);
    assert e.status == STATE_SUCCESS;
    assert Awaits(r.tasks[1], SOME_URI);
    RunInv(run);
    assert MayHandOver(r, 1);
    more := Unsettles(run, 1, "bundle", SOME_URI, e);
  }
}
