/** What the invariant gives for every state the service can reach. */
module ServiceTheorems {
  import opened Options
  import opened QueueTables
  import opened ServiceSystem
  import opened ServiceInvariants
  import opened ServiceOrphans
  import opened ServiceInputs
  import QueueOrder

  ghost predicate Reachable(s: System) {
    exists actions :: s == RunActions(Initial, actions)
  }

  lemma ReachableInv(s: System)
    requires Reachable(s)
    ensures Inv(s)
  {
    var actions :| s == RunActions(Initial, actions);
    InitialOk();
    ReachableOk(Initial, actions);
  }

  /** A queued or running job has its own input archive on disk, exactly unless its own retry stripped it. */
  lemma LiveJobsKeepTheirInput(s: System, id: JobId)
    requires Reachable(s) && Live(s.t, id)
    ensures s.t.jobs[id].inputRoot == id
    ensures Holds(s, id, s.t.jobs[id].submission.archiveSha256) <==> id !in s.stripped
  {
    ReachableInv(s);
    var actions :| s == RunActions(Initial, actions);
    InitialOk();
    StrippedAlways(Initial, actions);
    assert InputOk(s, id);
  }

  /**
   A live job is without its archive after a step exactly if it was before, or the step is a retry's removal of the
   directory of the job it has inserted.
   */
  lemma StarvedArises(s: System, a: Action, id: JobId)
    requires Reachable(s)
    ensures Starved(Next(s, a), id) <==> Live(Next(s, a).t, id) && (Starved(s, id) || Strips(s, a, id))
  {
    ReachableInv(s);
    ReachableNext(s, a);
    StrippedByCause(s, a, id);
    if id in s.stripped { StrippedWereAccepted(s, id); }
    if Live(Next(s, a).t, id) && id in s.accepted { LiveWasLive(s, a, id); }
    hide Next, Inv, Reachable, Live, Strips;
    if Live(s.t, id) { LiveJobsKeepTheirInput(s, id); }
    if Live(Next(s, a).t, id) { LiveJobsKeepTheirInput(Next(s, a), id); }
  }

  lemma StrippedWereAccepted(s: System, id: JobId)
    requires Reachable(s) && id in s.stripped
    ensures id in s.accepted
  {
    var actions :| s == RunActions(Initial, actions);
    InitialOk();
    StrippedAlways(Initial, actions);
  }

  /** As long as no transaction that logs a retry raises, every live job has its input. */
  lemma QuietRunsKeepInputs(actions: seq<Action>, id: JobId)
    requires forall a | a in actions :: Quiet(a)
    ensures !Starved(RunActions(Initial, actions), id)
  {
    InitialOk();
    QuietAlways(Initial, actions);
    var s := RunActions(Initial, actions);
    if Live(s.t, id) { LiveJobsKeepTheirInput(s, id); }
  }

  /** No live row is ever deleted, and no terminal row ever changes again. */
  lemma RowsEndOnlyAfterTheirJob(s: System, a: Action, id: JobId)
    requires Reachable(s) && id in s.t.jobs
    ensures !s.t.jobs[id].state.Terminal() ==> id in Next(s, a).t.jobs
    ensures s.t.jobs[id].state.Terminal() && id in Next(s, a).t.jobs ==> Next(s, a).t.jobs[id] == s.t.jobs[id]
  {
    hide Inv, RowOk;
    ReachableInv(s);
    StepEvolves(s, a);
  }

  /** At most one row is running, and a live worker is executing exactly that one. */
  lemma OneRunningJob(s: System, a: JobId, b: JobId)
    requires Reachable(s) && IsRunning(s.t, a)
    ensures IsRunning(s.t, b) ==> a == b
    ensures s.worker == Down || s.worker == Executing(a)
  {
    hide Reachable, TablesOk, IdsOk, TasksOk, OperationOk, InputOk;
    ReachableInv(s);
  }

  /**
   After a crash at any point and a restart no row is running, and every interrupted job waits again, with its input
   unless its own retry had stripped it.
   */
  lemma CrashThenStartRequeues(s: System, id: JobId)
    requires Reachable(s)
    ensures var s' := Next(Next(s, Crash), WorkerStart);
            && NothingRuns(s'.t)
            && (IsRunning(s.t, id) ==>
                  && id in s'.t.jobs && s'.t.jobs[id] == Requeued(s.t.jobs[id])
                  && (Holds(s', id, s'.t.jobs[id].submission.archiveSha256) <==> id !in s.stripped))
  {
    hide Inv;
    ReachableNext(s, Crash);
    ReachableNext(Next(s, Crash), WorkerStart);
    AfterRestart(s);
    hide Reachable;
    var s' := Next(Next(s, Crash), WorkerStart);
    if IsRunning(s.t, id) { LiveJobsKeepTheirInput(s', id); }
  }

  lemma AfterRestart(s: System)
    ensures Next(Next(s, Crash), WorkerStart).t == RecoverAll(s.t)
    ensures Next(Next(s, Crash), WorkerStart).stripped == s.stripped
  {
    hide RecoverAll;
  }

  /** While a profile self-test runs, no job row is running. */
  lemma SelfTestExcludesJobs(s: System)
    requires Reachable(s) && s.operation == Testing
    ensures NothingRuns(s.t)
  {
    ReachableInv(s);
  }

  /** Two finished submits with one key that returned jobs still in the table returned the same job. */
  lemma SubmitsAgree(s: System, i: TaskId, j: TaskId)
    requires Reachable(s) && i in s.tasks && j in s.tasks && s.tasks[i].SubmitDone? && s.tasks[j].SubmitDone?
    requires s.tasks[i].request.key == s.tasks[j].request.key
    requires s.tasks[i].outcome.Returned? && s.tasks[i].outcome.id in s.t.jobs
    requires s.tasks[j].outcome.Returned? && s.tasks[j].outcome.id in s.t.jobs
    ensures s.tasks[i].outcome.id == s.tasks[j].outcome.id
    ensures s.tasks[i].request.sha256 == s.tasks[j].request.sha256
  {
    ReachableInv(s);
    assert Distinct(s.t) && TaskOk(s, s.tasks[i]) && TaskOk(s, s.tasks[j]) by {
      hide RowOk, InputOk, TaskOk;
      DistinctRows(s.t);
    }
    hide Inv;
  }

  /**
   A submit that did not get its own job leaves no row, and no directory either unless the archive could not be moved
   into it.
   */
  lemma LosersLeaveNothing(s: System, i: TaskId)
    requires Reachable(s) && i in s.tasks && s.tasks[i].SubmitDone? && s.tasks[i].mine.Some?
    requires s.tasks[i].outcome != Returned(s.tasks[i].mine.value, true)
    ensures s.tasks[i].mine.value !in s.t.jobs
    ensures s.tasks[i].mine.value in s.disk <==> s.tasks[i].outcome == Broken
  {
    ReachableInv(s);
    OrphansAreLeaked(s, s.tasks[i].mine.value);
    hide RowOk, InputOk;
    assert TaskOk(s, s.tasks[i]);
  }

  /**
   A known key leaves the tables alone, whichever check notices it, and conflicts exactly on another request digest,
   unless the transaction that would notice it raises.
   */
  lemma KnownKeyStep(s: System, a: Action)
    requires a.SubmitAdvance? && a.tid in s.tasks && (s.tasks[a.tid].SubmitLookup? || s.tasks[a.tid].SubmitEnqueue?)
    requires FindByKey(s.t, s.tasks[a.tid].request.key).Some?
    ensures Next(s, a).t == s.t
    ensures Next(s, a).tasks[a.tid].outcome.Conflict?
       <==> s.t.jobs[FindByKey(s.t, s.tasks[a.tid].request.key).value].requestSha256 != s.tasks[a.tid].request.sha256
            && !(s.tasks[a.tid].SubmitEnqueue? && a.fault == InsertRaises)
  {}

  /** Every step that program `tid` takes as a submit along the run leaves the whole state as it is. */
  ghost predicate SubmitRestsThroughout(s: System, actions: seq<Action>, tid: TaskId)
    decreases |actions|
  {
    actions == [] || ((actions[0].SubmitAdvance? && actions[0].tid == tid ==> Next(s, actions[0]) == s)
                      && SubmitRestsThroughout(Next(s, actions[0]), actions[1..], tid))
  }

  /** The control check of a submit refuses exactly in maintenance and while draining; nothing changes either way. */
  lemma ClosedQueueRefuses(s: System, a: Action)
    requires a.SubmitAdvance? && a.tid in s.tasks && s.tasks[a.tid].SubmitCheck?
    ensures Next(s, a).tasks[a.tid] == SubmitDone(s.tasks[a.tid].request, None, Refused)
       <==> s.t.control.maintenance || s.t.control.mode == Draining
    ensures Next(s, a) == s.(tasks := Next(s, a).tasks)
  {
    hide FindByKey;
  }

  /** A submit that was refused at its control check stays refused and draws, writes and inserts nothing ever after. */
  lemma {:induction false} RefusedForGood(s: System, actions: seq<Action>, tid: TaskId)
    requires tid in s.tasks && s.tasks[tid].SubmitDone? && forall a | a in actions :: !a.Crash?
    ensures var s' := RunActions(s, actions); tid in s'.tasks && s'.tasks[tid] == s.tasks[tid]
    ensures SubmitRestsThroughout(s, actions, tid)
    decreases |actions|
  {
    hide Next;
    if actions != [] {
      var a := actions[0];
      assert a in actions && forall b | b in actions[1..] :: b in actions;
      SubmitDoneStays(s, a, tid);
      if a.SubmitAdvance? && a.tid == tid { DoneRests(s, a); }
      RefusedForGood(Next(s, a), actions[1..], tid);
    }
  }

  lemma DoneRests(s: System, a: Action)
    requires a.SubmitAdvance? && a.tid in s.tasks && s.tasks[a.tid].SubmitDone?
    ensures Next(s, a) == s
  {}

  // ---------------------------------------------------------------- what a model operation leaves in the control row

  ghost predicate ControlIs(s: System, paused: bool, maintenance: bool, mode: Mode) {
    s.t.control.paused == paused && s.t.control.maintenance == maintenance && s.t.control.mode == mode
  }

  /** Beginning a self-test closes the queue; beginning a switch lets it drain. */
  lemma OperationCloses(s: System, activate: bool)
    requires s.operation == NoOperation
    ensures if activate then ControlIs(Next(s, ModelBegin(activate)), false, false, Draining)
            else ControlIs(Next(s, ModelBegin(activate)), true, true, SelfTesting)
  {}

  /** A self-test that returns, aborted or not, leaves the queue open; until then it leaves the control row alone. */
  lemma SelfTestReopens(s: System, abort: bool)
    requires Reachable(s) && s.operation in {TestWaiting, Testing, TestEnding, TestReopening}
    ensures var s' := Next(s, ModelAdvance(abort));
            if s'.operation == NoOperation then ControlIs(s', false, false, Normal)
            else s'.operation in {Testing, TestWaiting, TestEnding, TestReopening} && s'.t.control == s.t.control
    ensures s.operation == TestWaiting ==>
              Next(s, ModelAdvance(abort)).operation == if abort then TestEnding
              else if exists id :: IsRunning(s.t, id) then TestWaiting
              else Testing
    ensures s.operation == Testing ==> Next(s, ModelAdvance(abort)).operation == TestEnding
  {
    ReachableInv(s);
    hide TablesOk, IdsOk, TasksOk, WorkerOk, InputOk;
  }

  /**
   A switch closes the queue at its drained check.  It leaves the queue open when it succeeds or is given up before it
   started, and in maintenance exactly when it fails after that.
   */
  lemma SwitchReopens(s: System, abort: bool)
    requires s.operation in {ActivateDraining, ActivateDrained, ActivateChecking, ActivateSwitching, ActivateAborting}
    ensures var s' := Next(s, ModelAdvance(abort));
            if s.operation == ActivateDrained && !abort then
              s'.operation == ActivateChecking && ControlIs(s', true, true, Switching)
            else if s.operation in {ActivateDraining, ActivateDrained, ActivateChecking} then
              && s'.t.control == s.t.control && s'.operation != NoOperation
              && (s'.operation == ActivateAborting <==> abort)
            else if s.operation == ActivateSwitching && abort then
              s'.operation == NoOperation && ControlIs(s', true, true, Maintenance)
            else
              s'.operation == NoOperation && ControlIs(s', false, false, Normal)
    ensures s.operation == ActivateDraining && !abort ==>
              Next(s, ModelAdvance(abort)).operation
              == if exists id | id in s.t.jobs :: !s.t.jobs[id].state.Terminal()
              then ActivateDraining else ActivateDrained
    ensures s.operation == ActivateChecking && !abort ==> Next(s, ModelAdvance(abort)).operation == ActivateSwitching
  {}

  /** No step that program `tid` takes as a submit along the run changes the tables. */
  ghost predicate SubmitChangesNothing(s: System, actions: seq<Action>, tid: TaskId)
    decreases |actions|
  {
    actions == [] || ((actions[0].SubmitAdvance? && actions[0].tid == tid ==> Next(s, actions[0]).t == s.t)
                      && SubmitChangesNothing(Next(s, actions[0]), actions[1..], tid))
  }

  ghost predicate CreatedJob(s: System, tid: TaskId) {
    tid in s.tasks && s.tasks[tid].SubmitDone? && s.tasks[tid].outcome.Returned? && s.tasks[tid].outcome.created
  }

  /** Only the step that creates a job changes the tables. */
  lemma ChangingStepCreates(s: System, a: Action)
    requires a.SubmitAdvance? && Next(s, a).t != s.t
    ensures CreatedJob(Next(s, a), a.tid)
  {
    if a.tid in s.tasks && s.tasks[a.tid].SubmitEnqueue? && FindByKey(s.t, s.tasks[a.tid].request.key).Some? {
      KnownKeyStep(s, a);
    }
  }

  /** A program's step leaves the other programs where they are. */
  lemma SubmitLeavesOthers(s: System, i: TaskId, drawn: JobId, fault: Fault, tid: TaskId)
    requires i in s.tasks && tid in s.tasks && s.tasks[tid].SubmitDone?
    ensures var s' := NextSubmit(s, i, drawn, fault); tid in s'.tasks && s'.tasks[tid] == s.tasks[tid]
  {
    hide FindByKey;
  }

  lemma RetryLeavesOthers(s: System, i: TaskId, drawn: JobId, fault: Fault, key: string, tid: TaskId)
    requires i in s.tasks && tid in s.tasks && s.tasks[tid].SubmitDone?
    ensures var s' := NextRetry(s, i, drawn, fault, key); tid in s'.tasks && s'.tasks[tid] == s.tasks[tid]
  {
    hide FindByKey;
  }

  lemma SubmitDoneStays(s: System, a: Action, tid: TaskId)
    requires tid in s.tasks && s.tasks[tid].SubmitDone? && !a.Crash?
    ensures tid in Next(s, a).tasks && Next(s, a).tasks[tid] == s.tasks[tid]
  {
    hide Apply, FindByKey, OperationOf, CanDelete, Expired, CanClaim, NextOperation, NextSubmit, NextRetry;
    match a
    case SubmitAdvance(i, drawn, fault, _) => if i in s.tasks { SubmitLeavesOthers(s, i, drawn, fault, tid); }
    case RetryAdvance(i, drawn, fault, key, _) => if i in s.tasks { RetryLeavesOthers(s, i, drawn, fault, key, tid); }
    case _ =>
  }

  lemma {:induction false} CreatedStays(s: System, actions: seq<Action>, tid: TaskId)
    requires CreatedJob(s, tid) && forall a | a in actions :: !a.Crash?
    ensures CreatedJob(RunActions(s, actions), tid)
    decreases |actions|
  {
    hide Next;
    if actions != [] {
      assert actions[0] in actions && forall a | a in actions[1..] :: a in actions;
      SubmitDoneStays(s, actions[0], tid);
      CreatedStays(Next(s, actions[0]), actions[1..], tid);
    }
  }

  /**
   A submit that ends refused, in conflict, broken, or with a job that was already there has not changed the tables in
   any of its steps, whatever interleaved with them. A crash ends every submit, so none lies within the run of one.
   */
  lemma {:induction false} ReusedKeyChangesNothing(s: System, actions: seq<Action>, tid: TaskId)
    requires forall a | a in actions :: !a.Crash?
    requires !CreatedJob(RunActions(s, actions), tid)
    ensures SubmitChangesNothing(s, actions, tid)
    decreases |actions|
  {
    hide Next, CreatedJob;
    if actions != [] {
      var a := actions[0];
      assert a in actions && forall b | b in actions[1..] :: b in actions;
      ReusedKeyChangesNothing(Next(s, a), actions[1..], tid);
      if a.SubmitAdvance? && a.tid == tid && Next(s, a).t != s.t {
        ChangingStepCreates(s, a);
        CreatedStays(Next(s, a), actions[1..], tid);
      }
    }
  }

  /** Every directory belongs to an accepted job, to a program still filling it, or to one that died filling it. */
  lemma DirectoriesAreAccountedFor(s: System, id: JobId)
    requires Reachable(s) && id in s.disk
    ensures Accounted(s, id)
  {
    ReachableInv(s);
  }

  /** The directories recorded as abandoned are exactly the orphans. */
  lemma OrphansAreLeaked(s: System, id: JobId)
    requires Reachable(s)
    ensures Orphan(s, id) <==> id in s.leaked
  {
    ReachableInv(s);
    var actions :| s == RunActions(Initial, actions);
    InitialOk();
    LeakedAlways(Initial, actions);
    assert id in s.disk ==> Accounted(s, id);
  }

  /**
   A step leaves an orphan behind exactly if the directory was one already, or the step is a move or a copy into
   it that raises, or a crash while a program was filling it.
   */
  lemma OrphanArises(s: System, a: Action, id: JobId)
    requires Reachable(s)
    ensures Orphan(Next(s, a), id) <==> Orphan(s, id) || Strands(s, a, id)
  {
    ReachableNext(s, a);
    hide Inv, Next, Orphan, Strands, Reachable;
    OrphansAreLeaked(s, id);
    OrphansAreLeaked(Next(s, a), id);
    LeaksByCause(s, a, id);
  }

  lemma ReachableNext(s: System, a: Action)
    requires Reachable(s)
    ensures Reachable(Next(s, a))
  {
    hide Next;
    var actions :| s == RunActions(Initial, actions);
    RunAppends(Initial, actions, [a]);
  }

  lemma {:induction false} RunAppends(s: System, first: seq<Action>, second: seq<Action>)
    ensures RunActions(s, first + second) == RunActions(RunActions(s, first), second)
    decreases |first|
  {
    hide Next;
    if first == [] {
      assert first + second == second;
    } else {
      assert (first + second)[1..] == first[1..] + second;
      RunAppends(Next(s, first[0]), first[1..], second);
    }
  }

  // ---------------------------------------------------------------- what the worker's steps do

  /** While its row runs, a report sets the stage. */
  lemma WorkerReports(s: System, w: JobId, stage: string)
    requires s.worker == Executing(w) && IsRunning(s.t, w)
    ensures var s' := Next(s, WorkerProgress(stage));
            s'.t.jobs == s.t.jobs[w := s.t.jobs[w].(stage := stage)] && s'.worker == s.worker
  {
    hide Next;
    NextFields(s, WorkerProgress(stage));
  }

  /** While its row runs, completing leaves it with the result and its times. */
  lemma WorkerCompletes(s: System, w: JobId, path: string, sha256: Digest, now: Time, ttl: nat)
    requires s.worker == Executing(w) && IsRunning(s.t, w)
    ensures var s' := Next(s, WorkerComplete(path, sha256, now, ttl));
            && s'.worker == Idle && w in s'.t.jobs && s'.t.jobs[w].state == Completed
            && s'.t.jobs[w].resultPath == Some(path) && s'.t.jobs[w].resultSha256 == Some(sha256)
            && s'.t.jobs[w].finishedAt == Some(now) && s'.t.jobs[w].expiresAt == Some(now + ttl)
  {
    hide Next;
    NextFields(s, WorkerComplete(path, sha256, now, ttl));
  }

  /** Failing leaves it with the error, a noticed cancellation cancelled. */
  lemma WorkerGivesUp(s: System, w: JobId, error: Error, now: Time, ttl: nat)
    requires s.worker == Executing(w) && IsRunning(s.t, w)
    ensures var s' := Next(s, WorkerFail(error, now, ttl));
            && s'.worker == Idle && w in s'.t.jobs && s'.t.jobs[w].state == Failed && s'.t.jobs[w].error == Some(error)
            && s'.t.jobs[w].expiresAt == Some(now + ttl)
    ensures var s' := Next(s, WorkerCancelled(now, ttl));
            && s'.worker == Idle && w in s'.t.jobs && s'.t.jobs[w].state == Cancelled
            && s'.t.jobs[w].expiresAt == Some(now + ttl)
  {
    hide Next;
    NextFields(s, WorkerFail(error, now, ttl));
    NextFields(s, WorkerCancelled(now, ttl));
  }

  /** Writing makes the directory of the executed job again when it is gone, and touches no archive. */
  lemma WorkerWrites(s: System, w: JobId)
    requires s.worker == Executing(w)
    ensures Next(s, WorkerWrite) == s.(disk := if w in s.disk then s.disk else s.disk[w := None])
  {}

  /** A row that was cancelled or deleted behind the worker's back stays as it is, however the execution ends. */
  lemma WorkerLoses(s: System, w: JobId, stage: string, path: string, sha256: Digest, error: Error, now: Time,
                    ttl: nat)
    requires s.worker == Executing(w) && !IsRunning(s.t, w) && (w in s.t.jobs ==> s.t.jobs[w].state.Terminal())
    ensures Next(s, WorkerProgress(stage)).t == s.t && Next(s, WorkerComplete(path, sha256, now, ttl)).t == s.t
    ensures Next(s, WorkerFail(error, now, ttl)).t == s.t && Next(s, WorkerCancelled(now, ttl)).t == s.t
  {
    hide Next;
    NextFields(s, WorkerProgress(stage));
    NextFields(s, WorkerComplete(path, sha256, now, ttl));
    NextFields(s, WorkerFail(error, now, ttl));
    NextFields(s, WorkerCancelled(now, ttl));
  }

  /** An idle worker takes the head of an open queue, and nothing otherwise. */
  lemma WorkerTakesHead(s: System, now: Time)
    requires s.worker.Idle?
    ensures var s' := Next(s, WorkerClaim(now));
            if s.t.control.paused || s.t.control.maintenance || Head(s.t).None? then s' == s
            else
              var h := Head(s.t).value;
              && s'.worker == Executing(h) && s'.t.jobs == s.t.jobs[h := s'.t.jobs[h]] && IsRunning(s'.t, h)
              && s'.t.jobs[h].startedAt == Some(now)
  {}

  // ---------------------------------------------------------------- the waiting line of the whole service

  ghost function Transactions(s: System, actions: seq<Action>): seq<Operation>
    decreases |actions|
  {
    if actions == [] then [] else
    var op := OperationOf(s, actions[0]);
    (if op.Some? then [op.value] else []) + Transactions(Next(s, actions[0]), actions[1..])
  }

  lemma ClaimsFindNothingRunning(s: System, a: Action)
    requires Inv(s) && OperationOf(s, a).Some? && OperationOf(s, a).value.ClaimNext?
    ensures NothingRuns(s.t)
  {
    hide TablesOk, IdsOk, TasksOk, OperationOk, InputOk, Apply;
  }

  lemma {:induction false} TransactionsAreSingleWorker(s: System, actions: seq<Action>)
    requires Inv(s)
    ensures Run(s.t, Transactions(s, actions)) == RunActions(s, actions).t
    ensures QueueOrder.SingleWorker(s.t, Transactions(s, actions))
    decreases |actions|
  {
    hide Inv, OperationOf, NextPrograms, Apply;
    if actions != [] {
      var a := actions[0];
      var op, rest := OperationOf(s, a), Transactions(Next(s, a), actions[1..]);
      NextKeeps(s, a);
      TransactionsAreSingleWorker(Next(s, a), actions[1..]);
      if op.Some? {
        if op.value.ClaimNext? { ClaimsFindNothingRunning(s, a); }
        assert ([op.value] + rest)[1..] == rest;
      } else {
        assert [] + rest == rest;
      }
    }
  }

  /** The table of the whole service, under every interleaving, is the abstract waiting line. */
  lemma ServiceRefinesLine(actions: seq<Action>)
    ensures var empty := QueueOrder.Abstract([], None, false);
            var line := QueueOrder.AbstractRun(empty, EmptyTables, Transactions(Initial, actions));
            QueueOrder.Refines(line, RunActions(Initial, actions).t)
  {
    InitialOk();
    TransactionsAreSingleWorker(Initial, actions);
    QueueOrder.RunRefines(QueueOrder.Abstract([], None, false), EmptyTables, Transactions(Initial, actions));
  }
}
