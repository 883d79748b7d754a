/**
 Two runs in which the application installed last is verified by what was vouched
 for the one before it.
 */
module IdentityRuns {
  import Restarts
  import StoreRuns
  import TaskPool
  import opened Completion
  import opened Decimal
  import opened DomainVerifier
  import opened InstallIdentity
  import opened KeptSuccess
  import opened ManagerService
  import opened StatusStore
  import opened SystemRuns
  import opened VerificationSystem
  import opened VerifyTypes

  // A concrete run: the bundle is installed again, under another identifier, before
  // the first install's result is back.

  const OTHER_APP: AppVerifyBaseInfo := SOME_APP.(appIdentifier := "other")

  lemma {:induction false} UninstalledEarly() returns (run: seq<Step>, s: System)
    ensures Exec(run) == Some(s) && !s.pool.stop && s.tasks == [SOME_TASK] && s.store.memory == map[]
    ensures s.owner == map[]
  {
    var before, s1 := OneTask();
    Extend(before, s1, Uninstall("bundle", true));
    run := before + [Uninstall("bundle", true)];
    s := Next(s1, Uninstall("bundle", true));
  }

  lemma {:induction false} InstalledTwice() returns (run: seq<Step>, s: System)
    ensures Exec(run) == Some(s) && !s.pool.stop && |s.tasks| == 2 && s.tasks[0] == SOME_TASK && s.owner == map[]
    ensures s.store.memory == map["bundle" := SOME_INFO.(appIdentifier := "other")]
    ensures InstalledId(run, "bundle") == Some("other")
  {
    SomeSkill();
    var before, s1 := UninstalledEarly();
    var again := Install(OTHER_APP, [SOME_SKILL], Write([SOME_URI], true, 1), 0);
    assert InstallOp(again) == Insert("bundle", SOME_INFO.(appIdentifier := "other"), again.write);
    assert Legal(again.write, SOME_INFO.(appIdentifier := "other"));
    Extend(before, s1, again);
    InstalledNow(before, again);
    run := before + [again];
    s := Next(s1, again);
  }

  /** Then the application now installed can be verified by a result that was never
      vouched for it. */
  lemma {:induction false} LateResultOfOtherInstall() returns (run: seq<Step>, more: seq<Step>)
    ensures InstalledId(run, "bundle") == Some("other") && Foreign(run, more, "bundle", Some("other"))
  {
    var s: System;
    run, s := InstalledTwice();
    assert Awaits(SOME_TASK, SOME_URI) by { SomeSkill(); }
    assert StoreRuns.Has(s.store.memory, "bundle", SOME_URI);
    assert MayBring(s, 0, "bundle", SOME_URI);
    assert SOME_TASK.run.task.result == SOME_INFO;
    more := BringsForeign(run, s, 0, "bundle", Some("other"), SOME_URI);
  }

  // Another one: the first install's success is stored, the second install's delete
  // fails, and the manager restarts.

  lemma {:induction false} OneJob() returns (run: seq<Step>, s: System)
    ensures Exec(run) == Some(s) && LastHost(s, 0) && s.owner == map[0 := Owner(0, SOME_URI)]
    ensures |s.tasks| == 1 && s.tasks[0] == SOME_TASK.(todo := {}) && s.store.memory == map["bundle" := SOME_INFO]
  {
    SomeSkill();
    var before, s0 := OneTask();
    var first, second := AddHost(0, SOME_URI, 0, 4), Work(TaskPool.Resume(0, true));
    Extend(before, s0, first);
    var s1 := Next(s0, first);
    Extend(before + [first], s1, second);
    run := before + [first] + [second];
    s := Next(s1, second);
  }

  const SOME_SUCCESS: VerifyStatus := VerifyStatus(STATE_SUCCESS, 0, ToString(0), PRIORITY_UNSET)

  /** The success is stored, in the table too. */
  lemma {:induction false} SuccessWritten() returns (run: seq<Step>, s: System)
    ensures Exec(run) == Some(s) && |s.tasks| == 1 && s.tasks[0].app == SOME_APP
    ensures s.store.memory == map["bundle" := SOME_INFO.(hostVerifyStatusMap := map[SOME_URI := SOME_SUCCESS])]
    ensures Restarts.RowsFollow(s.store, "bundle")
  {
    var before, s0 := OneJob();
    VouchingSucceeds(SOME_APP, PRIORITY_UNSET, 0);
    var s1 := BeginLast(before, s0, 0, Vouching(SOME_APP), 0);
    var run1 := before + [Begin(0, Vouching(SOME_APP), 0)];
    var s2 := FinishLast(run1, s1, 0);
    var run2 := run1 + [Finish(0)];
    assert s2.tasks[0].run.task.result.hostVerifyStatusMap == map[SOME_URI := SOME_SUCCESS];
    SuccessDelivered(s2);
    Extend(run2, s2, DELIVER_SUCCESS);
    run := run2 + [DELIVER_SUCCESS];
    s := Next(s2, DELIVER_SUCCESS);
  }

  const DELIVER_SUCCESS: Step := Deliver(0, Write([SOME_URI], true, 1), true)

  lemma {:induction false} SuccessDelivered(s: System)
    requires |s.tasks| == 1 && s.tasks[0].app == SOME_APP && s.tasks[0].waiting.Some?
    requires s.tasks[0].run.task.result == SOME_INFO.(hostVerifyStatusMap := map[SOME_URI := SOME_SUCCESS])
    requires s.store.memory == map["bundle" := SOME_INFO]
    ensures Enabled(s, DELIVER_SUCCESS)
    ensures
      var t := Next(s, DELIVER_SUCCESS);
      && |t.tasks| == 1 && t.tasks[0].app == SOME_APP && Restarts.RowsFollow(t.store, "bundle")
      && t.store.memory == map["bundle" := SOME_INFO.(hostVerifyStatusMap := map[SOME_URI := SOME_SUCCESS])]
  {
    var op := SaveOp(s.tasks[0], DELIVER_SUCCESS.write);
    SuccessSaved(s.store, op);
    DeliverStore(s, DELIVER_SUCCESS);
  }

  lemma {:induction false} SuccessSaved(s: Store, op: Op)
    requires s.memory == map["bundle" := SOME_INFO]
    requires op.Update? && op.bundleName == "bundle" && op.write == Write([SOME_URI], true, 1)
    requires op.info == SOME_INFO.(hostVerifyStatusMap := map[SOME_URI := SOME_SUCCESS])
    ensures LegalOp(s.memory, op) && Restarts.RowsFollow(After(s, op), "bundle")
    ensures MemoryAfter(s.memory, op) == map["bundle" := op.info]
  {
    assert Updated(SOME_INFO, op.info) == op.info;
    assert Legal(op.write, op.info);
    Restarts.SuccessFollows(s, op);
  }

  /** No task of the identifier, no proof for it. */
  lemma {:induction false} NoTaskNoProof(run: seq<Step>, b: string, id: string, h: string, e: VerifyStatus)
    requires Exec(run).Some?
    requires forall i :: 0 <= i < |Exec(run).value.tasks| ==> Exec(run).value.tasks[i].app.appIdentifier != id
    ensures !ProvedFor(run, b, id, h, e)
  {
    if run != [] {
      var before, step := run[..|run| - 1], run[|run| - 1];
      assert run == before + [step];
      LastStep(before, step);
      ProvedNext(before, step, b, id, h, e);
      var s := Exec(before).value;
      forall i: nat | i < |s.tasks| ensures s.tasks[i].app.appIdentifier != id {
        SameGiven(s, step, i);
      }
      NoTaskNoProof(before, b, id, h, e);
    }
  }

  lemma {:induction false} InstalledOver() returns (run: seq<Step>, s: System)
    ensures Exec(run) == Some(s) && InstalledId(run, "bundle") == Some("other")
    ensures Keeps(Loaded(s.store.rows), "bundle", SOME_URI, SOME_SUCCESS)
    ensures Loaded(s.store.rows)["bundle"].appIdentifier == "id"
    ensures !Own(run, "bundle", Some("other"), SOME_URI, SOME_SUCCESS)
  {
    var before, s0 := SuccessWritten();
    InstallOverRows(s0);
    Extend(before, s0, INSTALL_OVER);
    InstalledNow(before, INSTALL_OVER);
    NotProvedYet(before, s0);
    run, s := before + [INSTALL_OVER], Next(s0, INSTALL_OVER);
  }

  /** An install of the other identifier whose delete fails. */
  const INSTALL_OVER: Step := Install(OTHER_APP, [SOME_SKILL], Write([SOME_URI], false, 1), 0)

  lemma {:induction false} InstallOverRows(s: System)
    requires Keeps(s.store.memory, "bundle", SOME_URI, SOME_SUCCESS) && Restarts.RowsFollow(s.store, "bundle")
    requires s.store.memory["bundle"].appIdentifier == "id"
    ensures Enabled(s, INSTALL_OVER)
    ensures Keeps(Loaded(Next(s, INSTALL_OVER).store.rows), "bundle", SOME_URI, SOME_SUCCESS)
    ensures Loaded(Next(s, INSTALL_OVER).store.rows)["bundle"].appIdentifier == "id"
  {
    InstallOverOp();
    InstallStore(s, INSTALL_OVER);
    OldRowsFirst(s.store, InstallOp(INSTALL_OVER), SOME_URI, SOME_SUCCESS);
  }

  lemma {:induction false} InstallStore(s: System, step: Step)
    requires step.Install? && step.app.priority == PRIORITY_UNSET && LegalOp(s.store.memory, InstallOp(step))
    ensures Enabled(s, step) && Next(s, step).store == After(s.store, InstallOp(step))
  {
  }

  lemma {:induction false} DeliverStore(s: System, step: Step)
    requires step.Deliver? && step.received && step.task < |s.tasks| && s.tasks[step.task].waiting.Some?
    requires LegalOp(s.store.memory, SaveOp(s.tasks[step.task], step.write))
    ensures Enabled(s, step) && Next(s, step).store == After(s.store, SaveOp(s.tasks[step.task], step.write))
    ensures |Next(s, step).tasks| == |s.tasks| && Next(s, step).tasks[step.task].app == s.tasks[step.task].app
  {
  }

  lemma {:induction false} InstallOverOp()
    ensures InstallOp(INSTALL_OVER) == Insert("bundle", SOME_INFO.(appIdentifier := "other"), INSTALL_OVER.write)
    ensures Legal(INSTALL_OVER.write, SOME_INFO.(appIdentifier := "other")) && !INSTALL_OVER.write.deleted
  {
    SomeSkill();
  }

  lemma {:induction false} NotProvedYet(run: seq<Step>, s: System)
    requires Exec(run) == Some(s) && |s.tasks| == 1 && s.tasks[0].app == SOME_APP
    ensures !Own(run + [INSTALL_OVER], "bundle", Some("other"), SOME_URI, SOME_SUCCESS)
  {
    NoTaskNoProof(run, "bundle", "other", SOME_URI, SOME_SUCCESS);
    ProvedNext(run, INSTALL_OVER, "bundle", "other", SOME_URI, SOME_SUCCESS);
  }

  /** What a failed delete leaves is found first. */
  lemma {:induction false} OldRowsFirst(s: Store, op: Op, h: string, e: VerifyStatus)
    requires LegalOp(s.memory, op) && Effective(s.memory, op) && op.Insert? && !op.write.deleted
    requires Keeps(s.memory, op.bundleName, h, e) && Restarts.RowsFollow(s, op.bundleName)
    ensures Keeps(Loaded(After(s, op).rows), op.bundleName, h, e)
    ensures Loaded(After(s, op).rows)[op.bundleName].appIdentifier == s.memory[op.bundleName].appIdentifier
  {
    Restarts.RestartAfterWrite(s, op);
  }

  /** The store then offers the application now installed for a success vouched for
      the one before, under whose identifier it is stored. */
  lemma {:induction false} StaleRowsComeBack(name: string) returns (run: seq<Step>)
    ensures Exec(run).Some? && InstalledId(run, "bundle") == Some("other")
    ensures
      var m := Exec(run).value.store.memory;
      && "bundle" in m && m["bundle"].appIdentifier == "id"
      && Offer(m, SOME_URI, AbilityInfo("bundle", name)).Some?
      && !HoldsOwn(run, m, "bundle", Some("other"))
  {
    var before, s := InstalledOver();
    var r, t := AfterRestart(before, s);
    SameInstalled(before, [r], "bundle", Some("other"));
    if Own(before + [r], "bundle", Some("other"), SOME_URI, SOME_SUCCESS) {
      RestartGivesNothing(before, r, "bundle", Some("other"), SOME_URI, SOME_SUCCESS);
    }
    run := before + [r];
    assert Keeps(t.store.memory, "bundle", SOME_URI, SOME_SUCCESS);
  }
}
