/** Runs of the service from its initial state that leave a directory behind or a queued job without its input. */
module ServiceRuns {
  import opened Options
  import opened QueueTables
  import opened ServiceSystem
  import opened ServiceInvariants
  import opened ServiceOrphans
  import opened ServiceInputs
  import opened ServiceTheorems
  import opened QueueRepository
  import opened RemoteService

  function Repeat(a: Action, n: nat): seq<Action> {
    if n == 0 then [] else Repeat(a, n - 1) + [a]
  }

  /** Repeating one program's step is that program running alone. */
  lemma {:induction false} RepeatIsAlone(s: System, a: Action, n: nat)
    ensures RunActions(s, Repeat(a, n)) == Alone(s, a, n)
  {
    hide Next;
    if n > 0 {
      RepeatIsAlone(s, a, n - 1);
      RunAppends(s, Repeat(a, n - 1), [a]);
      RunOne(Alone(s, a, n - 1), a);
    }
  }

  lemma RunOne(s: System, a: Action)
    ensures RunActions(s, [a]) == Next(s, a)
  {
    hide Next;
    assert [a][1..] == [];
  }

  lemma RunFirst(s: System, a: Action, rest: seq<Action>)
    ensures RunActions(s, [a] + rest) == RunActions(Next(s, a), rest)
  {
    RunAppends(s, [a], rest);
    RunOne(s, a);
  }

  const REQUEST := Request("key", "digest", Submission("archive", "high"), None)

  // ---------------------------------------------------------------- a move that raises

  function FailedMoveRun(): seq<Action> {
    [SubmitBegin(0, REQUEST)] + Repeat(SubmitAdvance(0, "a", PlacingRaises, 0), 4)
  }

  /** The first two steps of a submit of a new key to an open queue. */
  lemma SubmitOpens(s: System, tid: TaskId, r: Request, drawn: JobId, fault: Fault)
    requires tid !in s.tasks && FindByKey(s.t, r.key).None? && !s.t.control.maintenance && s.t.control.mode != Draining
    ensures Alone(Next(s, SubmitBegin(tid, r)), SubmitAdvance(tid, drawn, fault, 0), 2) == Put(s, tid, SubmitMkdir(r))
  {
    hide Next, Apply, FindByKey;
    var begun, step := Next(s, SubmitBegin(tid, r)), SubmitAdvance(tid, drawn, fault, 0);
    Begins(s, SubmitBegin(tid, r));
    AloneStep(begun, step, 0);
    AloneStep(begun, step, 1);
    SubmitMoves(begun, tid, drawn, fault, 0);
    var checked := Next(begun, step);
    assert checked == Put(s, tid, SubmitLookup(r));
    SubmitMoves(checked, tid, drawn, fault, 0);
    assert Next(checked, step).tasks == Put(s, tid, SubmitMkdir(r)).tasks;
  }

  lemma EmptyTablesHoldNoKey(key: string)
    ensures FindByKey(EmptyTables, key).None?
  {}

  /** A submit whose archive cannot be moved leaves its directory behind for good. */
  lemma FailedMoveLeavesOrphan()
    ensures Orphan(RunActions(Initial, FailedMoveRun()), "a")
  {
    hide Next, RunActions, Repeat, Alone;
    var begun, step := Next(Initial, SubmitBegin(0, REQUEST)), SubmitAdvance(0, "a", PlacingRaises, 0);
    RunFirst(Initial, SubmitBegin(0, REQUEST), Repeat(step, 4));
    RepeatIsAlone(begun, step, 4);
    EmptyTablesHoldNoKey(REQUEST.key);
    SubmitOpens(Initial, 0, REQUEST, "a", PlacingRaises);
    AloneAppends(begun, step, 2, 2);
    var ready := Alone(begun, step, 2);
    BreakStrands(ready, 0, REQUEST, "a");
  }

  /** The two steps that strand the directory. */
  lemma BreakStrands(s: System, tid: TaskId, r: Request, drawn: JobId)
    requires tid in s.tasks && s.tasks[tid] == SubmitMkdir(r) && Fresh(s, drawn) && drawn !in s.accepted
    requires forall i | i in s.tasks && i != tid :: drawn !in Owns(s.tasks[i])
    ensures Orphan(Alone(s, SubmitAdvance(tid, drawn, PlacingRaises, 0), 2), drawn)
  {
    hide Next, Apply, FindByKey;
    var step := SubmitAdvance(tid, drawn, PlacingRaises, 0);
    AloneStep(s, step, 0);
    AloneStep(s, step, 1);
    SubmitMoves(s, tid, drawn, PlacingRaises, 0);
    var mid := Next(s, step);
    SubmitMoves(mid, tid, drawn, PlacingRaises, 0);
    var last := Next(mid, step);
    assert last.tasks == s.tasks[tid := SubmitDone(r, Some(drawn), Broken)];
  }

  // ---------------------------------------------------------------- a source that vanishes under the copy

  /** Retry up to its copy, delete the source with its directory, and let the copy run. */
  function VanishingSourceRun(source: JobId, drawn: JobId, i: TaskId, j: TaskId, key: string): seq<Action> {
    var step := RetryAdvance(i, drawn, Smooth, key, 0);
    [RetryBegin(i, source)] + (Repeat(step, 3) + [DeleteCall(j, source), RemovalAdvance(j), step])
  }

  /** Read and check. */
  lemma RetryOpens(s: System, i: TaskId, source: JobId, drawn: JobId, fault: Fault, key: string)
    requires i !in s.tasks && source in s.t.jobs && Filled(s.disk, s.t.jobs[source].inputRoot)
    ensures Alone(Next(s, RetryBegin(i, source)), RetryAdvance(i, drawn, fault, key, 0), 2)
         == Put(s, i, RetryMkdir(source, s.t.jobs[source].inputRoot))
  {
    hide Next, Apply, FindByKey;
    var begun, step := Next(s, RetryBegin(i, source)), RetryAdvance(i, drawn, fault, key, 0);
    var root := s.t.jobs[source].inputRoot;
    Begins(s, RetryBegin(i, source));
    AloneStep(begun, step, 0);
    AloneStep(begun, step, 1);
    RetryMoves(begun, i, drawn, fault, key, 0);
    var read := Next(begun, step);
    assert read == Put(s, i, RetryCheck(source, root));
    RetryMoves(read, i, drawn, fault, key, 0);
    assert Next(read, step).tasks == s.tasks[i := RetryMkdir(source, root)];
  }

  /** Make the directory. */
  lemma RetryDraws(s: System, i: TaskId, source: JobId, root: JobId, drawn: JobId, key: string)
    requires i in s.tasks && s.tasks[i] == RetryMkdir(source, root) && Fresh(s, drawn)
    ensures Alone(s, RetryAdvance(i, drawn, Smooth, key, 0), 1)
         == Put(s, i, RetryCopy(source, root, drawn)).(disk := s.disk[drawn := None], used := s.used + {drawn})
  {
    hide Next, Apply, FindByKey;
    AloneStep(s, RetryAdvance(i, drawn, Smooth, key, 0), 0);
    RetryMoves(s, i, drawn, Smooth, key, 0);
  }

  lemma DeletedUnderCopy(s: System, source: JobId, drawn: JobId, i: TaskId, j: TaskId, key: string)
    requires i in s.tasks && s.tasks[i] == RetryCopy(source, source, drawn) && j !in s.tasks
             && CanDelete(s.t, source, true)
    requires source != drawn && drawn in s.disk && drawn !in s.accepted
    requires forall k | k in s.tasks && k != i :: drawn !in Owns(s.tasks[k])
    ensures var gone := Next(Next(s, DeleteCall(j, source)), RemovalAdvance(j));
            Orphan(Next(gone, RetryAdvance(i, drawn, Smooth, key, 0)), drawn)
  {
    hide Next, Apply, FindByKey, CanDelete;
    DeleteCalls(s, j, source);
    var deleted := Next(s, DeleteCall(j, source));
    assert deleted.tasks == s.tasks[j := DeleteRemove(source)] && deleted.disk == s.disk
           && deleted.accepted == s.accepted;
    RemovalMoves(deleted, j);
    var gone := Next(deleted, RemovalAdvance(j));
    assert gone.tasks == s.tasks && gone.disk == s.disk - {source} && gone.accepted == s.accepted;
    RetryMoves(gone, i, drawn, Smooth, key, 0);
    assert Next(gone, RetryAdvance(i, drawn, Smooth, key, 0)).tasks == s.tasks - {i};
  }

  /** From any reachable state with a finished job, a retry that a delete overtakes before its copy leaves an orphan. */
  lemma VanishingSourceLeavesOrphan(s: System, source: JobId, drawn: JobId, i: TaskId, j: TaskId, key: string)
    requires Reachable(s) && i !in s.tasks && j !in s.tasks && i != j && Fresh(s, drawn)
    requires source in s.t.jobs && s.t.jobs[source].state.Terminal() && Filled(s.disk, source)
    ensures Orphan(RunActions(s, VanishingSourceRun(source, drawn, i, j, key)), drawn)
  {
    hide Next, RunActions, Repeat, Alone, Apply, FindByKey;
    var begun, step := Next(s, RetryBegin(i, source)), RetryAdvance(i, drawn, Smooth, key, 0);
    FreshIsUnknown(s, source, drawn);
    RunFirst(s, RetryBegin(i, source), Repeat(step, 3) + [DeleteCall(j, source), RemovalAdvance(j), step]);
    RunAppends(begun, Repeat(step, 3), [DeleteCall(j, source), RemovalAdvance(j), step]);
    RepeatIsAlone(begun, step, 3);
    RetryOpens(s, i, source, drawn, Smooth, key);
    RetryDraws(Alone(begun, step, 2), i, source, source, drawn, key);
    AloneAppends(begun, step, 2, 1);
    var ready := Alone(begun, step, 3);
    assert [DeleteCall(j, source), RemovalAdvance(j), step] == [DeleteCall(j, source)] + ([RemovalAdvance(j)] + [step]);
    RunFirst(ready, DeleteCall(j, source), [RemovalAdvance(j)] + [step]);
    var deleted := Next(ready, DeleteCall(j, source));
    RunFirst(deleted, RemovalAdvance(j), [step]);
    RunOne(Next(deleted, RemovalAdvance(j)), step);
    DeletedUnderCopy(ready, source, drawn, i, j, key);
  }

  lemma FreshIsUnknown(s: System, source: JobId, drawn: JobId)
    requires Reachable(s) && Fresh(s, drawn) && source in s.t.jobs
    ensures drawn !in s.accepted && source != drawn && s.t.jobs[source].inputRoot == source
    ensures forall k | k in s.tasks :: drawn !in Owns(s.tasks[k])
  {
    ReachableInv(s);
    hide TaskOk, Owns;
    assert InputOk(s, source);
  }

  function FinishedJobRun(): seq<Action> {
    [SubmitBegin(0, REQUEST)] + (Repeat(SubmitAdvance(0, "a", Smooth, 0), 5) + [CancelCall("a", 0, 0)])
  }

  /** One submitted and cancelled job, with its archive still there. */
  lemma FinishedJob()
    ensures var s := RunActions(Initial, FinishedJobRun());
            && Reachable(s) && s.tasks.Keys == {0} && s.used == {"a"} && s.disk == map["a" := Some("archive")]
            && s.t.jobs.Keys == {"a"} && s.t.jobs["a"].state.Terminal() && s.t.jobs["a"].idempotencyKey == REQUEST.key
  {
    hide Next, RunActions, Repeat, Alone;
    var begun, step := Next(Initial, SubmitBegin(0, REQUEST)), SubmitAdvance(0, "a", Smooth, 0);
    RunFirst(Initial, SubmitBegin(0, REQUEST), Repeat(step, 5) + [CancelCall("a", 0, 0)]);
    RunAppends(begun, Repeat(step, 5), [CancelCall("a", 0, 0)]);
    RepeatIsAlone(begun, step, 5);
    EmptyTablesHoldNoKey(REQUEST.key);
    SubmitOpens(Initial, 0, REQUEST, "a", Smooth);
    AloneAppends(begun, step, 2, 2);
    AloneAppends(begun, step, 4, 1);
    var ready := Put(Initial, 0, SubmitMkdir(REQUEST));
    Placed(ready, 0, REQUEST, "a", Smooth, 0);
    var placed := Alone(ready, step, 2);
    Decided(placed, 0, REQUEST, "a", "a", Smooth, 0);
    var filed := Alone(placed, step, 1);
    FirstRow();
    RunOne(filed, CancelCall("a", 0, 0));
    CancelOnly(filed, "a");
  }

  lemma FirstRow()
    ensures var t := Apply(EmptyTables,
                           Enqueue("a", REQUEST.key, REQUEST.sha256, REQUEST.submission, "a", None, None, 0));
            t.jobs.Keys == {"a"} && t.jobs["a"].state == Queued && t.jobs["a"].idempotencyKey == REQUEST.key
    ensures EnqueueAnswer(EmptyTables, "a", REQUEST.key, REQUEST.sha256) == Accepted("a", true)
  {
    EmptyTablesHoldNoKey(REQUEST.key);
  }

  lemma CancelOnly(s: System, id: JobId)
    requires id in s.t.jobs
    ensures var s' := Next(s, CancelCall(id, 0, 0));
            s' == s.(t := s'.t) && s'.t.jobs.Keys == s.t.jobs.Keys && s'.t.jobs[id].state.Terminal()
            && s'.t.jobs[id].idempotencyKey == s.t.jobs[id].idempotencyKey
  {}

  /** The whole run from the initial state: submit, cancel, retry, delete before the copy. */
  lemma VanishingSourceReached()
    ensures Orphan(RunActions(Initial, FinishedJobRun() + VanishingSourceRun("a", "b", 1, 2, "retry")), "b")
  {
    FinishedJob();
    hide FinishedJobRun, VanishingSourceRun, RunActions, Orphan, Reachable;
    var s := RunActions(Initial, FinishedJobRun());
    RunAppends(Initial, FinishedJobRun(), VanishingSourceRun("a", "b", 1, 2, "retry"));
    VanishingSourceLeavesOrphan(s, "a", "b", 1, 2, "retry");
  }

  // ---------------------------------------------------------------- a log entry that raises

  /** One whole retry: read, check, directory, copy, read, insertion, failing log entry, removal. */
  function FailedLogRun(source: JobId, drawn: JobId, i: TaskId, key: string): seq<Action> {
    [RetryBegin(i, source)] + Repeat(RetryAdvance(i, drawn, LogRaises, key, 0), 8)
  }

  /** From any reachable state with a finished job, a retry whose log entry raises leaves a queued job without input. */
  lemma FailedLogStarvesJob(s: System, source: JobId, drawn: JobId, i: TaskId, key: string)
    requires Reachable(s) && i !in s.tasks && Fresh(s, drawn) && FindByKey(s.t, key).None?
    requires source in s.t.jobs && s.t.jobs[source].state.Terminal() && Filled(s.disk, source)
    ensures Starved(RunActions(s, FailedLogRun(source, drawn, i, key)), drawn)
  {
    hide Next, RunActions, Repeat, Alone, Apply, FindByKey, Reachable;
    var begun, step := Next(s, RetryBegin(i, source)), RetryAdvance(i, drawn, LogRaises, key, 0);
    FreshIsUnknown(s, source, drawn);
    RunFirst(s, RetryBegin(i, source), Repeat(step, 8));
    RepeatIsAlone(begun, step, 8);
    RetryOpens(s, i, source, drawn, LogRaises, key);
    var ready := Alone(begun, step, 2);
    var n := RetryEnds(ready, i, source, source, drawn, LogRaises, key, 0);
    AloneAppends(begun, step, 2, 6);
    var row := s.t.jobs[source];
    InsertedRow(s.t, Enqueue(drawn, key, row.requestSha256, row.submission, drawn, row.configuration, Some(source), 0));
  }

  /** The whole run from the initial state: submit, cancel, and a retry whose log entry raises. */
  lemma FailedLogReached()
    ensures Starved(RunActions(Initial, FinishedJobRun() + FailedLogRun("a", "b", 1, "retry")), "b")
  {
    FinishedJob();
    hide FinishedJobRun, FailedLogRun, RunActions, Starved, Reachable;
    var s := RunActions(Initial, FinishedJobRun());
    RunAppends(Initial, FinishedJobRun(), FailedLogRun("a", "b", 1, "retry"));
    FailedLogStarvesJob(s, "a", "b", 1, "retry");
  }
}
