/**
 The worker pool: four workers, one mutex, one condition variable and a queue.
 A step is what one thread does between taking the mutex and giving it up, or one
 callback of the HTTP client.
 */
module TaskPool {
  import opened Seqs
  import opened VerifyTypes

  const POOL_SIZE: nat := 4

  type TaskId = nat

  /** Where a worker is: about to take the mutex, blocked in the wait, woken up but
      not yet running, running a task, or finished. */
  datatype Worker = Ready | Blocked | Woken | Running(id: TaskId) | Gone

  /** How far a started task is: its client was created or not; its callback has
      classified the response; has returned; the promise is set; its id is
      released. */
  datatype Phase = Started(client: bool) | Posting(client: bool) | Posted(client: bool) | Signalled | Released

  datatype Pool = Pool(
    stop: bool,
    tasks: seq<TaskId>,
    taskMap: set<TaskId>,
    workers: seq<Worker>,
    added: seq<TaskId>,
    started: seq<TaskId>,
    phase: map<TaskId, Phase>)

  datatype Step =
    | Add(id: TaskId, wakes: nat)
    | Resume(worker: nat, client: bool)
    | Wake(worker: nat)
    | BeginPost(id: TaskId)
    | EndPost(id: TaskId)
    | Signal(id: TaskId)
    | Release(id: TaskId)
    | Return(worker: nat)
    | Stop

  function Init(): Pool {
    Pool(false, [], {}, seq(POOL_SIZE, _ => Ready), [], [], map[])
  }

  function NotifyAll(workers: seq<Worker>): (r: seq<Worker>)
    ensures |r| == |workers|
    ensures forall w :: 0 <= w < |r| ==> r[w] == if workers[w] == Blocked then Woken else workers[w]
  {
    seq(|workers|, w requires 0 <= w < |workers| => if workers[w] == Blocked then Woken else workers[w])
  }

  /** A task is added once; a notify wakes a blocked worker if there is one. */
  predicate Enabled(p: Pool, s: Step) {
    match s
    case Add(id, w) => id !in p.added && ((exists v :: 0 <= v < |p.workers| && p.workers[v] == Blocked) ==>
        w < |p.workers| && p.workers[w] == Blocked)
    case Resume(w, _) => w < |p.workers| && (p.workers[w] == Ready || p.workers[w] == Woken)
    case Wake(w) => w < |p.workers| && p.workers[w] == Blocked
    case BeginPost(id) => id in p.phase && p.phase[id].Started?
    case EndPost(id) => id in p.phase && p.phase[id].Posting?
    case Signal(id) => id in p.phase && p.phase[id] == Posted(true)
    case Release(id) => id in p.phase && (p.phase[id] == Signalled || p.phase[id] == Posted(false))
    case Return(w) => w < |p.workers| && p.workers[w].Running?
      && p.workers[w].id in p.phase && (p.phase[p.workers[w].id] == Signalled || p.phase[p.workers[w].id] == Released)
    case Stop => true
  }

  /** The mutex is taken: leave if stopping, else run the front task, else wait. */
  function Resumed(p: Pool, w: nat, client: bool): Pool
    requires w < |p.workers|
  {
    if p.stop then p.(workers := p.workers[w := Gone])
    else if p.tasks != [] then
      var id := p.tasks[0];
      p.(tasks := p.tasks[1..], workers := p.workers[w := Running(id)],
         started := p.started + [id], phase := p.phase[id := Started(client)])
    else p.(workers := p.workers[w := Blocked])
  }

  function Next(p: Pool, s: Step): Pool
    requires Enabled(p, s)
  {
    match s
    case Add(id, w) =>
      p.(taskMap := p.taskMap + {id}, tasks := p.tasks + [id], added := p.added + [id],
         workers := if w < |p.workers| && p.workers[w] == Blocked then p.workers[w := Woken] else p.workers)
    case Resume(w, client) => Resumed(p, w, client)
    case Wake(w) => p.(workers := p.workers[w := Woken])
    case BeginPost(id) => p.(phase := p.phase[id := Posting(p.phase[id].client)])
    case EndPost(id) => p.(phase := p.phase[id := Posted(p.phase[id].client)])
    case Signal(id) => p.(phase := p.phase[id := Signalled])
    case Release(id) => p.(phase := p.phase[id := Released], taskMap := p.taskMap - {id})
    case Return(w) => p.(workers := p.workers[w := Ready])
    case Stop => p.(stop := true, workers := NotifyAll(p.workers))
  }

  function Exec(run: seq<Step>): Option<Pool> {
    if run == [] then Some(Init())
    else
      match Exec(run[..|run| - 1])
      case None => None
      case Some(p) => if Enabled(p, run[|run| - 1]) then Some(Next(p, run[|run| - 1])) else None
  }

  // ---------- the class ----------

  /** The pool's fields, the places of its worker threads, and the history of its
      tasks. Each method is one step. */
  class AppDomainVerifyTaskMgr {
    var stop: bool
    var tasks: seq<TaskId>
    var taskMap: set<TaskId>
    var workers: seq<Worker>
    ghost var added: seq<TaskId>
    ghost var started: seq<TaskId>
    ghost var phase: map<TaskId, Phase>

    ghost function State(): Pool
      reads this
    {
      Pool(stop, tasks, taskMap, workers, added, started, phase)
    }

    /** Submits the workers. */
    constructor ()
      ensures State() == Init()
    {
      stop, tasks, taskMap, workers := false, [], {}, [];
      added, started, phase := [], [], map[];
      new;
      for i := 0 to POOL_SIZE
        invariant State() == Init().(workers := workers)
        invariant |workers| == i && forall w :: 0 <= w < i ==> workers[w] == Ready
      {
        workers := workers + [Ready];
      }
    }

    /** A null task is refused; otherwise some blocked worker, if any, is woken. */
    method AddTask(task: Option<TaskId>) returns (ok: bool, ghost wakes: nat)
      requires task.Some? ==> task.value !in added
      modifies this
      ensures ok == task.Some?
      ensures !ok ==> State() == old(State())
      ensures ok ==> Enabled(old(State()), Add(task.value, wakes))
      ensures ok ==> State() == Next(old(State()), Add(task.value, wakes))
    {
      wakes := |workers|;
      if task.None? {
        return false, wakes;
      }
      taskMap := taskMap + {task.value};
      tasks := tasks + [task.value];
      added := added + [task.value];
      if w: nat :| w < |workers| && workers[w] == Blocked {
        workers := workers[w := Woken];
        wakes := w;
      }
      ok := true;
    }

    /** A worker holding the mutex, at the head of its loop or back from the wait;
        `client` tells whether an HTTP client can be created for the task it pops. */
    method WorkerLoop(w: nat, client: bool)
      requires Enabled(State(), Resume(w, client))
      modifies this
      ensures State() == Next(old(State()), Resume(w, client))
    {
      if stop {
        workers := workers[w := Gone];
        return;
      }
      if tasks != [] {
        var task := tasks[0];
        tasks := tasks[1..];
        workers := workers[w := Running(task)];
        started := started + [task];
        phase := phase[task := Started(client)];
      } else {
        workers := workers[w := Blocked];
      }
    }

    /** The releaser's destructor. */
    method ReleaseId(id: TaskId)
      requires Enabled(State(), Release(id))
      modifies this
      ensures State() == Next(old(State()), Release(id))
    {
      taskMap := taskMap - {id};
      phase := phase[id := Released];
    }

    method IsIdle() returns (idle: bool)
      ensures idle <==> State().taskMap == {}
    {
      idle := taskMap == {};
    }

    /** What the destructor does before it waits for the workers. */
    method StopWorkers()
      modifies this
      ensures State() == Next(old(State()), Stop)
    {
      stop := true;
      workers := NotifyAll(workers);
    }
  }

  // ---------- counting workers ----------

  function Count(workers: seq<Worker>, p: Worker -> bool): nat {
    if workers == [] then 0 else (if p(workers[0]) then 1 else 0) + Count(workers[1..], p)
  }

  function IsWoken(): Worker -> bool { (w: Worker) => w == Woken }

  function IsRunning(): Worker -> bool { (w: Worker) => w.Running? }

  lemma {:induction false} CountUpdate(workers: seq<Worker>, p: Worker -> bool, i: nat, w: Worker)
    requires i < |workers|
    ensures Count(workers[i := w], p)
         == Count(workers, p) - (if p(workers[i]) then 1 else 0) + (if p(w) then 1 else 0)
  {
    if i > 0 {
      assert workers[i := w][1..] == workers[1..][i - 1 := w];
      CountUpdate(workers[1..], p, i - 1, w);
    }
  }

  lemma {:induction false} CountAtMost(workers: seq<Worker>, p: Worker -> bool)
    ensures Count(workers, p) <= |workers|
  {
    if workers != [] {
      CountAtMost(workers[1..], p);
    }
  }

  // ---------- what every run keeps ----------

  ghost predicate SomeBlocked(p: Pool) {
    exists w :: 0 <= w < |p.workers| && p.workers[w] == Blocked
  }

  /** No wake-up is lost: while a worker is blocked, every queued task has a
      worker on its way; once stopping, nobody is blocked. */
  ghost predicate NoLostWakeUp(p: Pool) {
    && (!p.stop && SomeBlocked(p) ==> Count(p.workers, IsWoken()) >= |p.tasks|)
    && (p.stop ==> !SomeBlocked(p))
  }

  /** Starts are in the order of additions, and each task is added once. */
  ghost predicate Fifo(p: Pool) {
    && Distinct(p.added)
    && p.added == p.started + p.tasks
  }

  /** The map answers for the tasks queued or started but not released. */
  ghost predicate MapExact(p: Pool) {
    && (forall id :: id in p.phase <==> id in p.started)
    && (forall id :: id in p.taskMap <==> id in p.tasks || (id in p.phase && p.phase[id] != Released))
  }

  /** Workers run different started tasks, and a task whose promise is neither
      set nor its id released has a worker. */
  ghost predicate WorkersExact(p: Pool) {
    && |p.workers| == POOL_SIZE
    && (forall w :: 0 <= w < |p.workers| && p.workers[w].Running? ==> p.workers[w].id in p.phase)
    && (forall v, w :: 0 <= v < w < |p.workers| && p.workers[v].Running? && p.workers[w].Running? ==>
      p.workers[v].id != p.workers[w].id)
    && (forall id :: id in p.phase && p.phase[id] != Signalled && p.phase[id] != Released ==> InHand(p, id))
  }

  /** Workers only leave a stopping pool. */
  ghost predicate NobodyLeft(p: Pool) {
    !p.stop ==> forall w :: 0 <= w < |p.workers| ==> p.workers[w] != Gone
  }

  ghost predicate InHand(p: Pool, id: TaskId) {
    exists w :: 0 <= w < |p.workers| && p.workers[w] == Running(id)
  }

  ghost predicate Inv(p: Pool) {
    NoLostWakeUp(p) && Fifo(p) && MapExact(p) && WorkersExact(p) && NobodyLeft(p)
  }

  lemma {:induction false} NextNoLostWakeUp(p: Pool, s: Step)
    requires Enabled(p, s) && NoLostWakeUp(p)
    ensures NoLostWakeUp(Next(p, s))
  {
    var q := Next(p, s);
    match s
    case Add(_, w) =>
      if SomeBlocked(p) { CountUpdate(p.workers, IsWoken(), w, Woken); }
    case Resume(w, _) => CountUpdate(p.workers, IsWoken(), w, q.workers[w]);
      ResumeBlocks(p, s);
    case Wake(w) => CountUpdate(p.workers, IsWoken(), w, Woken);
      assert SomeBlocked(p);
    case Return(w) => CountUpdate(p.workers, IsWoken(), w, Ready);
      OthersBlocked(p, w, Ready);
    case BeginPost(_) =>
    case EndPost(_) =>
    case Signal(_) =>
    case Release(_) =>
    case Stop =>
  }

  lemma {:induction false} OthersBlocked(p: Pool, w: nat, to: Worker)
    requires w < |p.workers| && p.workers[w] != Blocked && to != Blocked
    ensures SomeBlocked(p.(workers := p.workers[w := to])) ==> SomeBlocked(p)
  {
    var q := p.(workers := p.workers[w := to]);
    if SomeBlocked(q) {
      var v :| 0 <= v < |q.workers| && q.workers[v] == Blocked;
      assert p.workers[v] == Blocked;
    }
  }

  lemma {:induction false} ResumeBlocks(p: Pool, s: Step)
    requires s.Resume? && Enabled(p, s)
    ensures SomeBlocked(Next(p, s)) ==> SomeBlocked(p) || (!p.stop && p.tasks == [])
  {
    if p.stop {
      OthersBlocked(p, s.worker, Gone);
    } else if p.tasks != [] {
      OthersBlocked(p, s.worker, Running(p.tasks[0]));
    }
  }

  lemma {:induction false} NextFifo(p: Pool, s: Step)
    requires Enabled(p, s) && Fifo(p)
    ensures Fifo(Next(p, s))
  {
    if s.Resume? && !p.stop && p.tasks != [] {
      assert p.tasks == [p.tasks[0]] + p.tasks[1..];
      assert p.started + p.tasks == p.started + [p.tasks[0]] + p.tasks[1..];
    }
  }

  /** A task about to start has not started before. */
  lemma {:induction false} FrontIsNew(p: Pool)
    requires Fifo(p) && p.tasks != []
    ensures p.tasks[0] !in p.started && p.tasks[0] !in p.tasks[1..]
  {
    forall i | 0 <= i < |p.started| ensures p.started[i] != p.tasks[0] {
      assert p.added[i] == p.started[i] && p.added[|p.started|] == p.tasks[0];
    }
    forall i | 1 <= i < |p.tasks| ensures p.tasks[i] != p.tasks[0] {
      assert p.added[|p.started| + i] == p.tasks[i] && p.added[|p.started|] == p.tasks[0];
    }
  }

  /** Queued tasks have not started. */
  lemma {:induction false} QueuedNotStarted(p: Pool, id: TaskId)
    requires Fifo(p) && id in p.started
    ensures id !in p.tasks
  {
    var i :| 0 <= i < |p.started| && p.started[i] == id;
    forall j | 0 <= j < |p.tasks| ensures p.tasks[j] != id {
      assert p.added[i] == id && p.added[|p.started| + j] == p.tasks[j];
    }
  }

  lemma {:induction false} NextMapExact(p: Pool, s: Step)
    requires Enabled(p, s) && Fifo(p) && MapExact(p)
    ensures MapExact(Next(p, s))
  {
    var q := Next(p, s);
    if s.Resume? && !p.stop && p.tasks != [] {
      FrontIsNew(p);
      assert p.tasks == [p.tasks[0]] + p.tasks[1..];
    } else if s.Release? {
      QueuedNotStarted(p, s.id);
    } else if s.Add? {
      assert s.id !in p.started && s.id !in p.tasks by {
        assert forall id :: id in p.started || id in p.tasks ==> id in p.added;
      }
    }
  }

  /** Steps that leave every worker's task alone keep tasks in hand. */
  lemma {:induction false} NextInHand(p: Pool, s: Step, id: TaskId)
    requires Enabled(p, s) && InHand(p, id)
    requires s.Return? ==> p.workers[s.worker] != Running(id)
    ensures InHand(Next(p, s), id)
  {
    var w :| 0 <= w < |p.workers| && p.workers[w] == Running(id);
    assert Next(p, s).workers[w] == Running(id);
  }

  lemma {:induction false} NextWorkersExact(p: Pool, s: Step)
    requires Enabled(p, s) && Fifo(p) && MapExact(p) && WorkersExact(p)
    ensures WorkersExact(Next(p, s))
  {
    var q := Next(p, s);
    if s.Resume? && !p.stop && p.tasks != [] {
      FrontIsNew(p);
      assert q.workers[s.worker] == Running(p.tasks[0]);
    }
    forall id | id in q.phase && q.phase[id] != Signalled && q.phase[id] != Released ensures InHand(q, id) {
      if id in p.phase {
        NextInHand(p, s, id);
      }
    }
  }

  lemma {:induction false} NextNobodyLeft(p: Pool, s: Step)
    requires Enabled(p, s) && NobodyLeft(p)
    ensures NobodyLeft(Next(p, s))
  {
  }

  lemma {:induction false} NextInv(p: Pool, s: Step)
    requires Enabled(p, s) && Inv(p)
    ensures Inv(Next(p, s))
  {
    NextNoLostWakeUp(p, s);
    NextFifo(p, s);
    NextMapExact(p, s);
    NextWorkersExact(p, s);
    NextNobodyLeft(p, s);
  }

  /** Every run keeps all of the above. */
  lemma {:induction false} RunInv(run: seq<Step>)
    requires Exec(run).Some?
    ensures Inv(Exec(run).value)
  {
    if run != [] {
      RunInv(run[..|run| - 1]);
      NextInv(Exec(run[..|run| - 1]).value, run[|run| - 1]);
    }
  }

  // ---------- consequences ----------

  /** A queue with work in it never coexists with all workers blocked. */
  lemma {:induction false} WorkIsConserved(run: seq<Step>)
    requires Exec(run).Some?
    ensures var p := Exec(run).value;
      !p.stop && p.tasks != [] ==> exists w :: 0 <= w < |p.workers| && p.workers[w] != Blocked
  {
    RunInv(run);
    var p := Exec(run).value;
    if !p.stop && p.tasks != [] && forall w :: 0 <= w < |p.workers| ==> p.workers[w] == Blocked {
      assert p.workers[0] == Blocked;
      NoneCounted(p.workers, IsWoken());
    }
  }

  lemma {:induction false} NoneCounted(workers: seq<Worker>, p: Worker -> bool)
    requires forall w :: 0 <= w < |workers| ==> !p(workers[w])
    ensures Count(workers, p) == 0
  {
    if workers != [] {
      assert !p(workers[0]);
      NoneCounted(workers[1..], p);
    }
  }

  ghost function RunningIds(workers: seq<Worker>): set<TaskId> {
    set w | 0 <= w < |workers| && workers[w].Running? :: workers[w].id
  }

  /** The tasks whose callback has returned, with the promise set or the id
      released, and whose worker went on. */
  ghost function FinishedIds(p: Pool): set<TaskId> {
    set id | id in p.phase && (p.phase[id] == Signalled || p.phase[id] == Released) && !InHand(p, id)
  }

  lemma {:induction false} RunningCounted(workers: seq<Worker>)
    requires forall v, w :: 0 <= v < w < |workers| && workers[v].Running? && workers[w].Running? ==>
      workers[v].id != workers[w].id
    ensures |RunningIds(workers)| == Count(workers, IsRunning())
  {
    if workers == [] {
      assert RunningIds(workers) == {};
    } else {
      var rest := workers[1..];
      RunningCounted(rest);
      if workers[0].Running? {
        forall w | 0 <= w < |rest| && rest[w].Running? ensures rest[w].id != workers[0].id {
          assert workers[w + 1] == rest[w];
        }
        RunningHead(workers);
        assert RunningIds(workers) == RunningIds(rest) + {workers[0].id};
      } else {
        RunningHead(workers);
        assert RunningIds(workers) == RunningIds(rest);
      }
    }
  }

  lemma {:induction false} RunningHead(workers: seq<Worker>)
    requires workers != []
    ensures forall id :: id in RunningIds(workers) <==>
      (workers[0] == Running(id) || id in RunningIds(workers[1..]))
  {
    forall id ensures id in RunningIds(workers) <==> (workers[0] == Running(id) || id in RunningIds(workers[1..])) {
      if id in RunningIds(workers[1..]) {
        var w :| 0 <= w < |workers[1..]| && workers[1..][w].Running? && workers[1..][w].id == id;
        assert workers[w + 1] == Running(id);
      }
      if id in RunningIds(workers) && workers[0] != Running(id) {
        var w :| 0 <= w < |workers| && workers[w].Running? && workers[w].id == id;
        assert workers[1..][w - 1] == Running(id);
      }
    }
  }

  lemma {:induction false} DistinctSize(s: seq<TaskId>)
    requires Distinct(s)
    ensures |Elements(s)| == |s|
  {
    if s == [] {
      assert Elements(s) == {};
    } else {
      var rest := s[1..];
      DistinctSize(rest);
      assert s[0] !in rest;
      ElementsHead(s);
    }
  }

  lemma {:induction false} ElementsHead(s: seq<TaskId>)
    requires s != []
    ensures Elements(s) == {s[0]} + Elements(s[1..])
  {
    assert s == [s[0]] + s[1..];
  }

  /** Tasks added are those queued, those a worker runs and those whose callback
      has returned and whose worker went on; no more than four run at once; and
      starts are a prefix of the additions. */
  lemma {:induction false} TasksAreConserved(run: seq<Step>)
    requires Exec(run).Some?
    ensures var p := Exec(run).value;
      && |p.added| == |p.tasks| + |RunningIds(p.workers)| + |FinishedIds(p)|
      && |RunningIds(p.workers)| == Count(p.workers, IsRunning()) <= |p.workers| == 4
      && p.started <= p.added && p.added == p.started + p.tasks
  {
    RunInv(run);
    var p := Exec(run).value;
    RunningCounted(p.workers);
    CountAtMost(p.workers, IsRunning());
    StartedDistinct(p);
    DistinctSize(p.started);
    StartedSplit(p);
  }

  lemma {:induction false} StartedDistinct(p: Pool)
    requires Fifo(p)
    ensures Distinct(p.started)
  {
    assert forall i :: 0 <= i < |p.started| ==> p.started[i] == p.added[i];
  }

  /** A started task no worker runs has signalled or released: a worker only
      leaves a task whose callback has returned. */
  lemma {:induction false} StartedSplit(p: Pool)
    requires MapExact(p) && WorkersExact(p)
    ensures Elements(p.started) == RunningIds(p.workers) + FinishedIds(p)
    ensures RunningIds(p.workers) !! FinishedIds(p)
    ensures |Elements(p.started)| == |RunningIds(p.workers)| + |FinishedIds(p)|
  {
    var all := Elements(p.started);
    forall id ensures id in all <==> id in RunningIds(p.workers) + FinishedIds(p) {
      InHandIsRunning(p, id);
    }
    forall id | id in RunningIds(p.workers) ensures id !in FinishedIds(p) {
      InHandIsRunning(p, id);
    }
    assert all == RunningIds(p.workers) + FinishedIds(p);
  }

  lemma {:induction false} InHandIsRunning(p: Pool, id: TaskId)
    ensures id in RunningIds(p.workers) <==> InHand(p, id)
  {
    if id in RunningIds(p.workers) {
      var w :| 0 <= w < |p.workers| && p.workers[w].Running? && p.workers[w].id == id;
      assert p.workers[w] == Running(id);
    }
  }

  /** The pool answers idle exactly with an empty queue and every task it was given
      started, answered by its callback and released. */
  lemma {:induction false} IdleMeansAllDelivered(run: seq<Step>)
    requires Exec(run).Some?
    ensures Exec(run).value.taskMap == {} <==> Delivered(Exec(run).value)
  {
    RunInv(run);
    IdleExactly(Exec(run).value);
  }

  ghost predicate Delivered(p: Pool) {
    p.tasks == [] && forall id :: id in p.added ==> id in p.phase && p.phase[id] == Released
  }

  lemma {:induction false} IdleExactly(p: Pool)
    requires Inv(p)
    ensures p.taskMap == {} <==> Delivered(p)
  {
    assert p.tasks == [] || p.tasks[0] in p.tasks;
    if p.taskMap == {} {
      forall id | id in p.added ensures id in p.phase && p.phase[id] == Released {
        assert id in p.started;
      }
    } else {
      var id :| id in p.taskMap;
      assert id in p.tasks || (id in p.phase && id in p.started);
      assert id in p.added;
    }
  }

  /** Once `stop_` is set no task starts any more, whatever is added later. */
  lemma {:induction false} NoStartAfterStop(run: seq<Step>, more: seq<Step>)
    requires Exec(run).Some? && Exec(run).value.stop && Exec(run + more).Some?
    ensures Exec(run + more).value.stop && Exec(run + more).value.started == Exec(run).value.started
  {
    if more == [] {
      assert run + more == run;
    } else {
      AppendLast(run, more);
      LastStep(run + more[..|more| - 1], more[|more| - 1]);
      NoStartAfterStop(run, more[..|more| - 1]);
    }
  }

  lemma {:induction false} LastStep(run: seq<Step>, step: Step)
    requires Exec(run + [step]).Some?
    ensures Exec(run).Some? && Enabled(Exec(run).value, step)
    ensures Exec(run + [step]).value == Next(Exec(run).value, step)
  {
    var all := run + [step];
    assert all[..|all| - 1] == run && all[|all| - 1] == step;
  }

  // ---------- work gets done ----------

  /** Steps a task still has to take. */
  function PhaseSteps(phase: Phase): nat {
    match phase
    case Started(_) => 4
    case Posting(_) => 3
    case Posted(_) => 2
    case Signalled => 1
    case Released => 0
  }

  function WorkerSteps(w: Worker): nat {
    match w
    case Running(_) => 2
    case Gone => 0
    case _ => 1
  }

  ghost function TaskWork(ids: seq<TaskId>, phase: map<TaskId, Phase>): nat {
    if ids == [] then 0
    else (if ids[0] in phase then PhaseSteps(phase[ids[0]]) else 0) + TaskWork(ids[1..], phase)
  }

  function WorkerWork(workers: seq<Worker>): nat {
    if workers == [] then 0 else WorkerSteps(workers[0]) + WorkerWork(workers[1..])
  }

  /** A queued task will take all its steps and a worker to run it. */
  ghost function WorkLeft(p: Pool): nat {
    6 * |p.tasks| + TaskWork(p.started, p.phase) + WorkerWork(p.workers)
  }

  /** A step of a callback, or of a worker that has something to do. */
  predicate Works(p: Pool, s: Step) {
    !s.Add? && !s.Stop? && !s.Wake? && (s.Resume? ==> p.stop || p.tasks != [])
  }

  lemma {:induction false} TaskWorkUpdate(ids: seq<TaskId>, phase: map<TaskId, Phase>, id: TaskId, to: Phase)
    requires id in phase && Distinct(ids)
    ensures TaskWork(ids, phase[id := to]) ==
      TaskWork(ids, phase) + if id in ids then PhaseSteps(to) - PhaseSteps(phase[id]) else 0
  {
    if ids != [] {
      TaskWorkUpdate(ids[1..], phase, id, to);
      assert ids == [ids[0]] + ids[1..];
    }
  }

  lemma {:induction false} WorkerWorkUpdate(workers: seq<Worker>, i: nat, w: Worker)
    requires i < |workers|
    ensures WorkerWork(workers[i := w]) == WorkerWork(workers) - WorkerSteps(workers[i]) + WorkerSteps(w)
  {
    if i > 0 {
      assert workers[i := w][1..] == workers[1..][i - 1 := w];
      WorkerWorkUpdate(workers[1..], i - 1, w);
    }
  }

  lemma {:induction false} TaskWorkStart(ids: seq<TaskId>, phase: map<TaskId, Phase>, id: TaskId, to: Phase)
    requires id !in ids
    ensures TaskWork(ids + [id], phase[id := to]) == TaskWork(ids, phase) + PhaseSteps(to)
  {
    if ids != [] {
      assert (ids + [id])[1..] == ids[1..] + [id];
      TaskWorkStart(ids[1..], phase, id, to);
    } else {
      assert (ids + [id])[1..] == [];
    }
  }

  lemma {:induction false} ResumeUsesWork(p: Pool, w: nat, client: bool)
    requires Inv(p) && Enabled(p, Resume(w, client)) && Works(p, Resume(w, client))
    ensures WorkLeft(Next(p, Resume(w, client))) < WorkLeft(p)
  {
    if p.stop {
      WorkerWorkUpdate(p.workers, w, Gone);
    } else {
      FrontIsNew(p);
      WorkerWorkUpdate(p.workers, w, Running(p.tasks[0]));
      TaskWorkStart(p.started, p.phase, p.tasks[0], Started(client));
    }
  }

  /** Every such step uses up some of a finite amount of work. */
  lemma {:induction false} WorkIsUsed(p: Pool, s: Step)
    requires Inv(p) && Enabled(p, s) && Works(p, s)
    ensures WorkLeft(Next(p, s)) < WorkLeft(p)
  {
    StartedDistinct(p);
    match s
    case Resume(w, client) => ResumeUsesWork(p, w, client);
    case Return(w) => WorkerWorkUpdate(p.workers, w, Ready);
    case BeginPost(id) => TaskWorkUpdate(p.started, p.phase, id, Posting(p.phase[id].client));
    case EndPost(id) => TaskWorkUpdate(p.started, p.phase, id, Posted(p.phase[id].client));
    case Signal(id) => TaskWorkUpdate(p.started, p.phase, id, Signalled);
    case Release(id) => TaskWorkUpdate(p.started, p.phase, id, Released);
  }

  /** The next step of a worker that runs a task, or of the task's callback. */
  function OnTask(p: Pool, w: nat): Step
    requires w < |p.workers| && p.workers[w].Running? && p.workers[w].id in p.phase
  {
    var id := p.workers[w].id;
    match p.phase[id]
    case Started(_) => BeginPost(id)
    case Posting(_) => EndPost(id)
    case Posted(client) => if client then Signal(id) else Release(id)
    case _ => Return(w)
  }

  /** A pool with queued tasks that is not stopping always has work it can do. */
  lemma {:induction false} QueueMoves(p: Pool) returns (s: Step)
    requires Inv(p) && !p.stop && p.tasks != []
    ensures Enabled(p, s) && Works(p, s) && (s.Resume? ==> s.client)
  {
    if forall w :: 0 <= w < |p.workers| ==> p.workers[w] == Blocked {
      assert p.workers[0] == Blocked;
      NoneCounted(p.workers, IsWoken());
    }
    var w :| 0 <= w < |p.workers| && p.workers[w] != Blocked;
    s := if p.workers[w].Running? then OnTask(p, w) else Resume(w, true);
  }

  /** While it is not stopping the pool never comes to a halt with tasks queued:
      some step of a callback, or of a worker with something to do, is possible,
      and such steps cannot go on for ever without additions. */
  lemma {:induction false} RunningMakesProgress(run: seq<Step>)
    requires Exec(run).Some? && !Exec(run).value.stop && Exec(run).value.tasks != []
    ensures var p := Exec(run).value;
      exists s: Step :: Enabled(p, s) && Works(p, s) && WorkLeft(Next(p, s)) < WorkLeft(p)
  {
    RunInv(run);
    var s := QueueMoves(Exec(run).value);
    WorkIsUsed(Exec(run).value, s);
  }

  /** When stopping, every step of a worker or a callback uses up some of a finite
      amount of work, and while a worker is left such a step is possible: the
      destructor's wait ends once the client has called back for every task
      already started. */
  lemma {:induction false} StoppingTerminates(run: seq<Step>, s: Step)
    requires Exec(run).Some? && Exec(run).value.stop
    requires Enabled(Exec(run).value, s) && !s.Add? && !s.Stop?
    ensures WorkLeft(Next(Exec(run).value, s)) < WorkLeft(Exec(run).value)
  {
    RunInv(run);
    WorkIsUsed(Exec(run).value, s);
  }

  lemma {:induction false} StoppingNeverStuck(run: seq<Step>)
    requires Exec(run).Some? && Exec(run).value.stop
    ensures var p := Exec(run).value;
      || (forall w :: 0 <= w < |p.workers| ==> p.workers[w] == Gone)
      || exists s: Step :: Enabled(p, s) && !s.Add? && !s.Stop?
  {
    RunInv(run);
    var p := Exec(run).value;
    if w :| 0 <= w < |p.workers| && p.workers[w] != Gone {
      var s := if p.workers[w].Running? then OnTask(p, w) else Resume(w, true);
      assert Enabled(p, s);
    }
  }
}
