/**
 RemoteService as interleaved programs over the queue tables and the job directories.

 Every transaction, directory operation and control read of a program is one action; the actions of
 all programs interleave freely, and a crash may come between any two.  A program is a Task with its
 position; a file is represented by its digest; a job directory by the input.zip it holds, if any.

 Any transaction, move or copy may raise.  A program that raises while it owns no directory ends there and
 is represented by one that never goes on; the other raising steps are those of Fault.
 */
module ServiceSystem {
  import opened Options
  import opened QueueTables

  type TaskId = nat

  datatype Request = Request(key: string, sha256: Digest, submission: Submission, configuration: Option<Digest>)

  /** Refused: an error that left nothing; Broken: the archive could not be moved, and its directory stays. */
  datatype Outcome = Refused | Conflict | Broken | Returned(id: JobId, created: bool)

  /**
   What goes wrong in a step: a check refuses, the archive cannot be moved or copied, the transaction before or of the
   insertion raises, or the one that logs a retry does.
   */
  datatype Fault = Smooth | ChecksRefuse | PlacingRaises | InsertRaises | LogRaises

  datatype Task =
    | SubmitCheck(request: Request)
    | SubmitLookup(request: Request)
    | SubmitMkdir(request: Request)
    | SubmitMove(request: Request, id: JobId)
    | SubmitEnqueue(request: Request, id: JobId)
    | SubmitDiscard(request: Request, id: JobId, outcome: Outcome)
    | SubmitDone(request: Request, mine: Option<JobId>, outcome: Outcome)
    | RetryRead(source: JobId)
    | RetryCheck(source: JobId, root: JobId)
    | RetryMkdir(source: JobId, root: JobId)
    | RetryCopy(source: JobId, root: JobId, id: JobId)
    | RetryReread(source: JobId, id: JobId, copied: Digest)
    | RetryEnqueue(source: JobId, id: JobId, sha256: Digest, submission: Submission, configuration: Option<Digest>)
    | RetryLog(id: JobId)
    | RetryDiscard(id: JobId)
    | DeleteRemove(id: JobId)
    | CleanRemove(ids: seq<JobId>)
    | CleanDelete(ids: seq<JobId>)

  datatype Worker = Down | Idle | Executing(id: JobId)

  /** The single model operation in flight: a profile self-test or a configuration switch. */
  datatype ModelOperation =
    | NoOperation | TestWaiting | Testing | TestEnding | TestReopening
    | ActivateDraining | ActivateDrained | ActivateChecking | ActivateSwitching | ActivateAborting

  /**
   `used` holds every id ever drawn and `accepted` every id that ever had a row; `leaked` collects
   directories whose program died or gave up before their row existed, and `stripped` jobs whose own retry took their
   directory away while they were live.
   */
  datatype System = System(
    t: Tables, disk: map<JobId, Option<Digest>>, tasks: map<TaskId, Task>, worker: Worker, operation: ModelOperation,
    used: set<JobId>, accepted: set<JobId>, leaked: set<JobId>, stripped: set<JobId>)

  datatype Action =
    | SubmitBegin(tid: TaskId, request: Request)
    | SubmitAdvance(tid: TaskId, drawn: JobId, fault: Fault, now: Time)
    | RetryBegin(tid: TaskId, source: JobId)
    | RetryAdvance(tid: TaskId, drawn: JobId, fault: Fault, key: string, now: Time)
    | DeleteCall(tid: TaskId, id: JobId)
    | CleanupBegin(tid: TaskId, ids: seq<JobId>, now: Time)
    | RemovalAdvance(tid: TaskId)
    | CancelCall(id: JobId, now: Time, ttl: nat)
    | PauseCall(paused: bool, expected: Option<nat>)
    | ReorderCall(ids: seq<JobId>, revision: nat)
    | WorkerStart
    | WorkerClaim(now: Time)
    | WorkerProgress(stage: string)
    | WorkerWrite
    | WorkerComplete(path: string, sha256: Digest, now: Time, ttl: nat)
    | WorkerFail(error: Error, now: Time, ttl: nat)
    | WorkerCancelled(now: Time, ttl: nat)
    | WorkerStops // its thread ends by an exception
    | ModelBegin(activate: bool)
    | ModelAdvance(abort: bool)
    | ModelStops
    | Crash

  const Initial := System(EmptyTables, map[], map[], Down, NoOperation, {}, {}, {}, {})

  // ---------------------------------------------------------------- programs

  ghost function Put(s: System, tid: TaskId, task: Task): System {
    s.(tasks := s.tasks[tid := task])
  }

  ghost function Finish(s: System, tid: TaskId): System {
    s.(tasks := s.tasks - {tid})
  }

  ghost function OperationOf(s: System, a: Action): Option<Operation> {
    match a
    case SubmitAdvance(tid, _, fault, now) =>
      if tid in s.tasks && s.tasks[tid].SubmitEnqueue? && fault != InsertRaises then
        var r, id := s.tasks[tid].request, s.tasks[tid].id;
        Some(Enqueue(id, r.key, r.sha256, r.submission, id, r.configuration, None, now))
      else None
    case RetryAdvance(tid, _, fault, key, now) =>
      if tid in s.tasks && s.tasks[tid].RetryEnqueue? && fault != InsertRaises then
        var k := s.tasks[tid];
        Some(Enqueue(k.id, key, k.sha256, k.submission, k.id, k.configuration, Some(k.source), now))
      else None
    case DeleteCall(tid, id) => if tid in s.tasks then None else Some(Delete(id, true))
    case RemovalAdvance(tid) =>
      if tid in s.tasks && s.tasks[tid].CleanDelete?
         && s.tasks[tid].ids != [] then Some(Delete(s.tasks[tid].ids[0], false)) else None
    case CancelCall(id, now, ttl) => Some(Cancel(id, now, ttl))
    case PauseCall(paused, expected) => Some(SetControl(Some(paused), None, None, expected))
    case ReorderCall(ids, revision) => Some(Reorder(ids, revision))
    case WorkerStart => if s.worker.Down? then Some(Recover) else None
    case WorkerClaim(now) => if s.worker.Idle? then Some(ClaimNext(now)) else None
    case WorkerProgress(stage) => if s.worker.Executing? then Some(Progress(s.worker.id, stage)) else None
    case WorkerComplete(path, sha256, now, ttl) =>
      if s.worker.Executing? then Some(Complete(s.worker.id, path, sha256, now, ttl)) else None
    case WorkerFail(error, now, ttl) => if s.worker.Executing? then Some(Fail(s.worker.id, error, now, ttl)) else None
    case WorkerCancelled(now, ttl) => if s.worker.Executing? then Some(Cancel(s.worker.id, now, ttl)) else None
    case ModelBegin(activate) =>
      if !s.operation.NoOperation? then None
      else if activate then Some(Control3(false, false, Draining)) else Some(Control3(true, true, SelfTesting))
    case ModelAdvance(abort) => ControlWrite(s.operation, abort)
    case _ => None
  }

  function Control3(paused: bool, maintenance: bool, mode: Mode): Operation {
    SetControl(Some(paused), Some(maintenance), Some(mode), None)
  }

  /** The control row a model operation writes next; a switch that fails once it started stays in maintenance. */
  function ControlWrite(operation: ModelOperation, abort: bool): Option<Operation> {
    match operation
    case TestReopening => Some(Control3(false, false, Normal))
    case ActivateDrained => if abort then None else Some(Control3(true, true, Switching))
    case ActivateSwitching => Some(if abort then Control3(true, true, Maintenance) else Control3(false, false, Normal))
    case ActivateAborting => Some(Control3(false, false, Normal))
    case _ => None
  }

  ghost function TablesAfter(s: System, a: Action): Tables {
    if OperationOf(s, a).Some? then Apply(s.t, OperationOf(s, a).value) else s.t
  }

  ghost function NextSubmit(s: System, tid: TaskId, drawn: JobId, fault: Fault): System
    requires tid in s.tasks
  {
    match s.tasks[tid]
    case SubmitCheck(r) =>
      if s.t.control.maintenance || s.t.control.mode == Draining then Put(s, tid, SubmitDone(r, None, Refused))
      else Put(s, tid, SubmitLookup(r))
    case SubmitLookup(r) =>
      var found := FindByKey(s.t, r.key);
      if found.None? then Put(s, tid, SubmitMkdir(r))
      else if s.t.jobs[found.value].requestSha256 != r.sha256 then Put(s, tid, SubmitDone(r, None, Conflict))
      else Put(s, tid, SubmitDone(r, None, Returned(found.value, false)))
    case SubmitMkdir(r) => // profile and archive checks may still refuse
      if fault == ChecksRefuse then Put(s, tid, SubmitDone(r, None, Refused))
      else if drawn in s.used then s
      else Put(s, tid, SubmitMove(r, drawn)).(disk := s.disk[drawn := None], used := s.used + {drawn})
    case SubmitMove(r, id) => // the move stands before the try, so nothing removes the directory
      if fault == PlacingRaises then Put(s, tid, SubmitDone(r, Some(id), Broken)).(leaked := s.leaked + {id})
      else if id !in s.disk then s
      else Put(s, tid, SubmitEnqueue(r, id)).(disk := s.disk[id := Some(r.submission.archiveSha256)])
    case SubmitEnqueue(r, id) =>
      var found := FindByKey(s.t, r.key);
      if fault == InsertRaises then Put(s, tid, SubmitDiscard(r, id, Refused))
      else if found.Some? then
        Put(s, tid, SubmitDiscard(r, id,
                                  if s.t.jobs[found.value].requestSha256 != r.sha256
                                  then Conflict else Returned(found.value, false)))
      else Put(s, tid, SubmitDone(r, Some(id), Returned(id, true))).(accepted := s.accepted + {id})
    case SubmitDiscard(r, id, outcome) => Put(s, tid, SubmitDone(r, Some(id), outcome)).(disk := s.disk - {id})
    case _ => s
  }

  ghost function NextRetry(s: System, tid: TaskId, drawn: JobId, fault: Fault, key: string): System
    requires tid in s.tasks
  {
    match s.tasks[tid]
    case RetryRead(source) =>
      if source !in s.t.jobs then Finish(s, tid) else Put(s, tid, RetryCheck(source, s.t.jobs[source].inputRoot))
    case RetryCheck(source, root) =>
      if root in s.disk && s.disk[root].Some? then Put(s, tid, RetryMkdir(source, root)) else Finish(s, tid)
    case RetryMkdir(source, root) =>
      if drawn in s.used then s
      else Put(s, tid, RetryCopy(source, root, drawn)).(disk := s.disk[drawn := None], used := s.used + {drawn})
    case RetryCopy(source, root, id) => // so does the copy
      if fault != PlacingRaises && root in s.disk && s.disk[root].Some? then
        Put(s, tid, RetryReread(source, id, s.disk[root].value)).(disk := s.disk[id := s.disk[root]])
      else Finish(s, tid).(leaked := s.leaked + {id})
    case RetryReread(source, id, _) =>
      if fault != InsertRaises && source in s.t.jobs && s.t.jobs[source].state.Terminal() then
        var row := s.t.jobs[source];
        Put(s, tid, RetryEnqueue(source, id, row.requestSha256, row.submission, row.configuration))
      else Put(s, tid, RetryDiscard(id))
    case RetryEnqueue(_, id, _, _, _) =>
      if fault == InsertRaises || FindByKey(s.t, key).Some? then Put(s, tid, RetryDiscard(id))
      else Put(s, tid, RetryLog(id)).(accepted := s.accepted + {id})
    case RetryLog(id) => // a second transaction inside the same try; without a row it breaks its foreign key
      if fault != LogRaises && id in s.t.jobs then Finish(s, tid) else Put(s, tid, RetryDiscard(id))
    case RetryDiscard(id) => // the row, if it was inserted, stays
      Finish(s, tid).(disk := s.disk - {id}, stripped := if Live(s.t, id) then s.stripped + {id} else s.stripped)
    case _ => s
  }

  ghost function NextRemoval(s: System, tid: TaskId): System
    requires tid in s.tasks
  {
    match s.tasks[tid]
    case DeleteRemove(id) => Finish(s, tid).(disk := s.disk - {id})
    case CleanRemove(ids) =>
      if ids == [] then Finish(s, tid) else Put(s, tid, CleanDelete(ids)).(disk := s.disk - {ids[0]})
    case CleanDelete(ids) =>
      if ids == [] then Finish(s, tid) else Put(s, tid, CleanRemove(ids[1..]))
    case _ => s
  }

  ghost predicate Drained(t: Tables) {
    forall id | id in t.jobs :: t.jobs[id].state.Terminal()
  }

  predicate Live(t: Tables, id: JobId) {
    id in t.jobs && !t.jobs[id].state.Terminal()
  }

  ghost predicate NothingRuns(t: Tables) {
    forall id :: !IsRunning(t, id)
  }

  ghost function NextOperation(s: System, abort: bool): ModelOperation {
    match s.operation
    case NoOperation => NoOperation
    case TestWaiting => if abort then TestEnding else if NothingRuns(s.t) then Testing else TestWaiting
    case Testing => TestEnding
    case TestEnding => if s.t.control.mode == SelfTesting then TestReopening else NoOperation
    case TestReopening => NoOperation
    case ActivateDraining =>
      if abort then ActivateAborting else if Drained(s.t) then ActivateDrained else ActivateDraining
    case ActivateDrained => if abort then ActivateAborting else ActivateChecking
    case ActivateChecking => if abort then ActivateAborting else ActivateSwitching
    case ActivateSwitching => NoOperation
    case ActivateAborting => NoOperation
  }

  ghost function Owns(task: Task): set<JobId> {
    match task
    case SubmitMove(_, id) => {id}
    case SubmitEnqueue(_, id) => {id}
    case SubmitDiscard(_, id, _) => {id}
    case SubmitDone(_, mine, outcome) => if mine.Some? && outcome != Returned(mine.value, true)
                                            && outcome != Broken then {mine.value} else {}
    case RetryCopy(_, _, id) => {id}
    case RetryReread(_, id, _) => {id}
    case RetryEnqueue(_, id, _, _, _) => {id}
    case RetryLog(id) => {id}
    case RetryDiscard(id) => {id}
    case _ => {}
  }

  ghost predicate Owned(s: System, id: JobId) {
    exists tid | tid in s.tasks :: id in Owns(s.tasks[tid])
  }

  ghost function NextPrograms(s: System, a: Action): System {
    match a
    case SubmitBegin(tid, request) => if tid in s.tasks then s else Put(s, tid, SubmitCheck(request))
    case SubmitAdvance(tid, drawn, fault, _) => if tid !in s.tasks then s else NextSubmit(s, tid, drawn, fault)
    case RetryBegin(tid, source) => if tid in s.tasks then s else Put(s, tid, RetryRead(source))
    case RetryAdvance(tid, drawn, fault, key, _) => if tid !in s.tasks then s else NextRetry(s, tid, drawn, fault, key)
    case DeleteCall(tid, id) => if tid in s.tasks || !CanDelete(s.t, id, true) then s else Put(s, tid, DeleteRemove(id))
    case CleanupBegin(tid, ids, now) =>
      if tid in s.tasks || exists id | id in ids :: !Expired(s.t, id, now) then s else Put(s, tid, CleanRemove(ids))
    case RemovalAdvance(tid) => if tid !in s.tasks then s else NextRemoval(s, tid)
    case WorkerStart => if s.worker.Down? then s.(worker := Idle) else s
    case WorkerClaim(_) => if s.worker.Idle? && CanClaim(s.t) then s.(worker := Executing(Head(s.t).value)) else s
    case WorkerWrite => // result, sources and candidates; the directory is created when it is gone
      if s.worker.Executing? && s.worker.id !in s.disk then s.(disk := s.disk[s.worker.id := None]) else s
    case WorkerComplete(_, _, _, _) => s.(worker := AfterJob(s))
    case WorkerFail(_, _, _) => s.(worker := AfterJob(s))
    case WorkerCancelled(_, _) => s.(worker := AfterJob(s))
    case WorkerStops => s.(worker := Down)
    case ModelStops => s.(operation := NoOperation)
    case ModelBegin(activate) =>
      if !s.operation.NoOperation? then s else s.(operation := if activate then ActivateDraining else TestWaiting)
    case ModelAdvance(abort) => s.(operation := NextOperation(s, abort))
    case Crash =>
      s.(tasks := map[], worker := Down, operation := NoOperation,
      leaked := s.leaked + set id | id in s.disk && id !in s.accepted && Owned(s, id))
    case _ => s
  }

  /** One action: the programs move, and the tables change by the transaction the action carries. */
  ghost function Next(s: System, a: Action): System {
    NextPrograms(s, a).(t := TablesAfter(s, a))
  }

  function AfterJob(s: System): Worker {
    if s.worker.Executing? then Idle else s.worker
  }
}
