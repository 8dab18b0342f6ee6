/** What every interleaving of the service's programs keeps. */
module ServiceInvariants {
  import opened Options
  import opened QueueTables
  import opened ServiceSystem

  // ---------------------------------------------------------------- the invariant

  /** `id` is drawn but never had a row. */
  ghost predicate Private(s: System, id: JobId) {
    id in s.used && id !in s.accepted
  }

  ghost predicate Holds(s: System, id: JobId, digest: Digest) {
    id in s.disk && s.disk[id] == Some(digest)
  }

  ghost predicate Removable(s: System, id: JobId) {
    id in s.accepted && (id in s.t.jobs ==> s.t.jobs[id].state.Terminal())
  }

  ghost predicate OutcomeOk(s: System, r: Request, outcome: Outcome) {
    outcome.Returned? ==>
      && outcome.id in s.accepted
      && (outcome.id in s.t.jobs ==> s.t.jobs[outcome.id].idempotencyKey == r.key
                                     && s.t.jobs[outcome.id].requestSha256 == r.sha256)
  }

  ghost predicate TaskOk(s: System, task: Task) {
    match task
    case SubmitMove(_, id) => Private(s, id) && id in s.disk
    case SubmitEnqueue(r, id) => Private(s, id) && Holds(s, id, r.submission.archiveSha256)
    case SubmitDiscard(r, id, outcome) => Private(s, id) && OutcomeOk(s, r, outcome) && outcome != Returned(id, true)
                                          && outcome != Broken
    case SubmitDone(r, mine, outcome) =>
      && OutcomeOk(s, r, outcome)
      && (mine.Some? && outcome != Returned(mine.value, true) && outcome != Broken ==>
            Private(s, mine.value) && mine.value !in s.disk)
      && (mine.Some? && outcome == Broken ==> mine.value in s.leaked)
    case RetryCheck(source, root) => source in s.accepted && root == source
    case RetryMkdir(source, root) => source in s.accepted && root == source
    case RetryCopy(source, root, id) => Private(s, id) && id in s.disk && source in s.accepted && root == source
    case RetryReread(source, id, copied) =>
      && Private(s, id) && Holds(s, id, copied) && source in s.accepted
      && (source in s.t.jobs ==> s.t.jobs[source].submission.archiveSha256 == copied)
    case RetryEnqueue(_, id, _, submission, _) => Private(s, id) && Holds(s, id, submission.archiveSha256)
    case RetryLog(id) => id in s.accepted
    case RetryDiscard(id) => id in s.used
    case DeleteRemove(id) => id in s.accepted && id !in s.t.jobs
    case CleanRemove(ids) => forall id | id in ids :: Removable(s, id)
    case CleanDelete(ids) => ids != [] && forall id | id in ids :: Removable(s, id)
    case _ => true
  }

  /** A row's directory: its own input while the job is live and not stripped, and never anyone else's. */
  ghost predicate InputOk(s: System, id: JobId)
    requires id in s.t.jobs
  {
    && s.t.jobs[id].inputRoot == id
    && (Live(s.t, id) && id !in s.stripped ==> Holds(s, id, s.t.jobs[id].submission.archiveSha256))
    && (id in s.disk && s.disk[id].Some? ==> s.disk[id] == Some(s.t.jobs[id].submission.archiveSha256))
  }

  ghost predicate WorkerOk(s: System) {
    match s.worker
    case Down => forall a, b | IsRunning(s.t, a) && IsRunning(s.t, b) :: a == b
    case Idle => NothingRuns(s.t)
    case Executing(w) =>
      && w in s.accepted
      && (forall id | IsRunning(s.t, id) :: id == w)
      && (w in s.t.jobs ==> s.t.jobs[w].state != Queued)
  }

  ghost predicate OperationOk(s: System) {
    && (s.operation in {TestWaiting, Testing, TestEnding, TestReopening} ==>
          s.t.control.maintenance && s.t.control.mode == SelfTesting)
    && (s.operation == Testing ==> NothingRuns(s.t))
  }

  /** Every directory has a row, had one, is being filled by a program, or was left by one that died. */
  ghost predicate Accounted(s: System, id: JobId) {
    id in s.accepted || id in s.leaked || Owned(s, id)
  }

  ghost predicate IdsOk(s: System) {
    && s.t.jobs.Keys <= s.accepted <= s.used
    && s.disk.Keys <= s.used
    && (forall id | id in s.disk :: Accounted(s, id))
  }

  ghost predicate OwnersDistinct(s: System) {
    forall i, j | i in s.tasks && j in s.tasks && i != j :: Owns(s.tasks[i]) !! Owns(s.tasks[j])
  }

  ghost predicate TasksOk(s: System) {
    && (forall tid | tid in s.tasks :: TaskOk(s, s.tasks[tid]) && Owns(s.tasks[tid]) <= s.used)
    && OwnersDistinct(s)
  }

  ghost predicate Inv(s: System) {
    && TablesOk(s.t)
    && IdsOk(s)
    && (forall id | id in s.t.jobs :: InputOk(s, id))
    && TasksOk(s)
    && WorkerOk(s)
    && OperationOk(s)
  }

  // ---------------------------------------------------------------- tables

  lemma TablesAfterOk(s: System, a: Action)
    requires TablesOk(s.t)
    ensures TablesOk(TablesAfter(s, a))
  {
    if OperationOf(s, a).Some? { ApplyOk(s.t, OperationOf(s, a).value); }
  }

  /** Live jobs are never deleted, identities are fixed, terminal rows are frozen, new rows are among `mine`. */
  ghost predicate JobsEvolve(t: Tables, t': Tables, mine: set<JobId>) {
    && (forall id | id in t.jobs && id in t'.jobs :: RowEvolves(t, t', id))
    && (forall id | id in t.jobs && id !in t'.jobs :: t.jobs[id].state.Terminal())
    && (forall id | id in t'.jobs && id !in t.jobs :: id in mine)
  }

  ghost function Enqueued(s: System, a: Action): set<JobId> {
    var op := OperationOf(s, a);
    if op.Some? && op.value.Enqueue? && FindByKey(s.t, op.value.key).None? then {op.value.id} else {}
  }

  lemma DeletionsAreSafe(s: System, a: Action)
    requires Inv(s)
    ensures var op := OperationOf(s, a);
            op.Some? && op.value.Delete? && !op.value.terminalOnly && op.value.id in s.t.jobs ==>
              s.t.jobs[op.value.id].state.Terminal()
  {
    hide TablesOk, IdsOk, WorkerOk, OperationOk, InputOk, Owns;
    if a.RemovalAdvance? && a.tid in s.tasks && s.tasks[a.tid].CleanDelete? {
      var ids := s.tasks[a.tid].ids;
      assert TaskOk(s, s.tasks[a.tid]);
      assert ids[0] in ids;
      assert Removable(s, ids[0]);
    }
  }

  lemma OperationAddsOnly(t: Tables, op: Operation, id: JobId)
    requires id in Apply(t, op).jobs && id !in t.jobs
    ensures op.Enqueue? && op.id == id && FindByKey(t, op.key).None?
  {}

  lemma StepEvolves(s: System, a: Action)
    requires Inv(s)
    ensures JobsEvolve(s.t, TablesAfter(s, a), Enqueued(s, a))
  {
    hide RowOk, JobOk, Apply, InputOk, TaskOk;
    DeletionsAreSafe(s, a);
    var t' := TablesAfter(s, a);
    if OperationOf(s, a).Some? {
      var op := OperationOf(s, a).value;
      forall id | id in s.t.jobs
        ensures id in t'.jobs ==> RowEvolves(s.t, t', id)
        ensures id !in t'.jobs ==> s.t.jobs[id].state.Terminal()
      {
        ApplyEvolves(s.t, op, id);
      }
      forall id | id in t'.jobs && id !in s.t.jobs ensures id in Enqueued(s, a) { OperationAddsOnly(s.t, op, id); }
    }
  }

  // ---------------------------------------------------------------- frames

  ghost predicate SameDirectory(s: System, s': System, id: JobId) {
    (id in s.disk <==> id in s'.disk) && (id in s.disk ==> s'.disk[id] == s.disk[id])
  }

  /** An action of the program that owns `mine` leaves other programs' ids and directories alone. */
  ghost predicate Frame(s: System, s': System, mine: set<JobId>) {
    && JobsEvolve(s.t, s'.t, mine)
    && mine !! s.accepted
    && s.accepted <= s'.accepted <= s.accepted + mine
    && s.used <= s'.used && s.leaked <= s'.leaked && s.stripped <= s'.stripped
    && (forall id | id !in mine && id !in s.accepted :: SameDirectory(s, s', id))
  }

  lemma TaskKept(s: System, s': System, task: Task, mine: set<JobId>)
    requires s.t.jobs.Keys <= s.accepted && Frame(s, s', mine)
    requires TaskOk(s, task) && Owns(task) !! mine
    ensures TaskOk(s', task)
  {
    hide LogOf;
    match task
    case SubmitMove(_, id) => assert id in Owns(task) && SameDirectory(s, s', id);
    case SubmitEnqueue(_, id) => assert id in Owns(task) && SameDirectory(s, s', id);
    case SubmitDiscard(_, id, _) => assert id in Owns(task);
    case SubmitDone(_, mine', outcome) =>
      if mine'.Some? && outcome != Returned(mine'.value, true) && outcome != Broken {
        assert mine'.value in Owns(task) && SameDirectory(s, s', mine'.value);
      }
    case RetryCopy(_, _, id) => assert id in Owns(task) && SameDirectory(s, s', id);
    case RetryReread(_, id, _) => assert id in Owns(task) && SameDirectory(s, s', id);
    case RetryEnqueue(_, id, _, _, _) => assert id in Owns(task) && SameDirectory(s, s', id);
    case RetryDiscard(id) => assert id in Owns(task);
    case CleanRemove(ids) => forall id | id in ids ensures Removable(s', id) { assert Removable(s, id); }
    case CleanDelete(ids) => forall id | id in ids ensures Removable(s', id) { assert Removable(s, id); }
    case _ =>
  }

  ghost predicate OthersUntouched(s: System, s': System, tid: TaskId) {
    forall i | i in s'.tasks && i != tid :: i in s.tasks && s'.tasks[i] == s.tasks[i]
  }

  /** What the acting program has to show about itself. */
  ghost predicate ActorOk(s: System, s': System, tid: TaskId, mine: set<JobId>) {
    && OthersUntouched(s, s', tid)
    && (forall i | i in s.tasks && i != tid :: Owns(s.tasks[i]) !! mine)
    && (tid in s'.tasks ==>
          && TaskOk(s', s'.tasks[tid])
          && Owns(s'.tasks[tid]) <= s'.used
          && forall i | i in s.tasks && i != tid :: Owns(s.tasks[i]) !! Owns(s'.tasks[tid]))
  }

  lemma TasksKept(s: System, s': System, tid: TaskId, mine: set<JobId>)
    requires TasksOk(s) && s.t.jobs.Keys <= s.accepted && Frame(s, s', mine) && ActorOk(s, s', tid, mine)
    ensures TasksOk(s')
  {
    hide Frame, TaskOk, Owns;
    assert s.used <= s'.used by { FrameUsed(s, s', mine); }
    forall i | i in s'.tasks ensures TaskOk(s', s'.tasks[i]) && Owns(s'.tasks[i]) <= s'.used {
      if i != tid { TaskKept(s, s', s.tasks[i], mine); }
    }
  }

  lemma FrameUsed(s: System, s': System, mine: set<JobId>)
    requires Frame(s, s', mine)
    ensures s.used <= s'.used
  {}

  /** The directory of every surviving row is untouched, emptied after the job ended, or stripped. */
  ghost predicate DirectoryEvolves(s: System, s': System, id: JobId)
    requires id in s.t.jobs
  {
    || SameDirectory(s, s', id)
    || ((s.t.jobs[id].state.Terminal() || id in s'.stripped) && (id in s'.disk ==> s'.disk[id].None?))
  }

  lemma InputsKept(s: System, s': System, mine: set<JobId>)
    requires forall id | id in s.t.jobs :: InputOk(s, id)
    requires JobsEvolve(s.t, s'.t, mine) && s.stripped <= s'.stripped
    requires forall id | id in s.t.jobs :: DirectoryEvolves(s, s', id)
    requires forall id | id in s'.t.jobs && id !in s.t.jobs :: InputOk(s', id)
    ensures forall id | id in s'.t.jobs :: InputOk(s', id)
  {
    hide LogOf;
    forall id | id in s'.t.jobs ensures InputOk(s', id) {
      if id in s.t.jobs { assert InputOk(s, id) && DirectoryEvolves(s, s', id) && RowEvolves(s.t, s'.t, id); }
    }
  }

  /** The part of the invariant that speaks about programs and directories. */
  ghost predicate FilesOk(s: System) {
    && IdsOk(s)
    && (forall id | id in s.t.jobs :: InputOk(s, id))
    && TasksOk(s)
  }

  lemma FilesKept(s: System, s': System, tid: TaskId, mine: set<JobId>)
    requires FilesOk(s) && Frame(s, s', mine) && ActorOk(s, s', tid, mine)
    requires s'.t.jobs.Keys <= s.t.jobs.Keys + s'.accepted && s'.accepted <= s'.used && s'.disk.Keys <= s'.used
    requires forall i | i in s.tasks && i != tid :: i in s'.tasks
    requires forall id | id in s'.disk && (id !in s.disk || (tid in s.tasks && id in Owns(s.tasks[tid]))) ::
               Accounted(s', id)
    requires forall id | id in s.t.jobs :: DirectoryEvolves(s, s', id)
    requires forall id | id in s'.t.jobs && id !in s.t.jobs :: InputOk(s', id)
    ensures FilesOk(s')
  {
    TasksKept(s, s', tid, mine);
    InputsKept(s, s', mine);
    hide JobsEvolve, TaskOk, InputOk, Owns, SameDirectory;
    forall id | id in s'.disk ensures Accounted(s', id) {
      if id in s.disk && !(tid in s.tasks && id in Owns(s.tasks[tid])) {
        assert Accounted(s, id);
        if Owned(s, id) {
          var i :| i in s.tasks && id in Owns(s.tasks[i]);
          assert s'.tasks[i] == s.tasks[i];
        }
      }
    }
  }

  /** A program step that leaves the tables alone. */
  lemma LocalStep(s: System, s': System, tid: TaskId, mine: set<JobId>)
    requires FilesOk(s) && s'.t == s.t && s'.accepted == s.accepted && s.leaked <= s'.leaked && mine !! s.accepted
    requires s.stripped <= s'.stripped && s.used <= s'.used && s'.disk.Keys <= s'.used
    requires forall i | i in s.tasks && i != tid :: i in s'.tasks && s'.tasks[i] == s.tasks[i]
    requires forall id | id !in mine && id !in s.accepted :: SameDirectory(s, s', id)
    requires forall id | id in s.t.jobs :: DirectoryEvolves(s, s', id)
    requires ActorOk(s, s', tid, mine)
    requires forall id | id in s'.disk && (id !in s.disk || (tid in s.tasks && id in Owns(s.tasks[tid]))) ::
               Accounted(s', id)
    ensures FilesOk(s')
  {
    hide TaskOk, InputOk, Owns, SameDirectory;
    assert JobsEvolve(s.t, s'.t, mine);
    FilesKept(s, s', tid, mine);
  }

  lemma OwnersApart(s: System, tid: TaskId)
    requires FilesOk(s) && tid in s.tasks
    ensures forall i | i in s.tasks && i != tid :: Owns(s.tasks[i]) !! Owns(s.tasks[tid])
    ensures TaskOk(s, s.tasks[tid]) && Owns(s.tasks[tid]) <= s.used
  {
    hide TaskOk, InputOk, Owns;
  }

  lemma FreshApart(s: System, id: JobId)
    requires FilesOk(s) && id !in s.used
    ensures id !in s.accepted && id !in s.disk && id !in s.t.jobs
    ensures forall i | i in s.tasks :: Owns(s.tasks[i]) !! {id}
  {
    hide TaskOk, InputOk, Owns;
  }

  /** Moving on to a task that owns nothing and may stand in any state. */
  lemma IdleStep(s: System, tid: TaskId, task: Task)
    requires FilesOk(s) && (tid in s.tasks ==> Owns(s.tasks[tid]) == {}) && Owns(task) == {} && TaskOk(s, task)
    ensures FilesOk(Put(s, tid, task))
  {
    hide InputOk, Owns, JobsEvolve;
    var s' := Put(s, tid, task);
    assert TaskOk(s', task) by { TaskPure(s, s', task); }
    LocalStep(s, s', tid, {});
  }

  lemma TaskPure(s: System, s': System, task: Task)
    requires TaskOk(s, task) && s'.t == s.t && s'.disk == s.disk && s'.used == s.used && s'.accepted == s.accepted
    requires s'.leaked == s.leaked
    ensures TaskOk(s', task)
  {}

  lemma SubmitCheckFiles(s: System, tid: TaskId, drawn: JobId, fault: Fault)
    requires FilesOk(s) && tid in s.tasks && s.tasks[tid].SubmitCheck?
    ensures FilesOk(NextSubmit(s, tid, drawn, fault))
  {
    hide FilesOk;
    IdleStep(s, tid, NextSubmit(s, tid, drawn, fault).tasks[tid]);
  }

  lemma FoundRow(s: System, r: Request, created: bool)
    requires FilesOk(s) && FindByKey(s.t, r.key).Some?
    requires s.t.jobs[FindByKey(s.t, r.key).value].requestSha256 == r.sha256
    ensures OutcomeOk(s, r, Returned(FindByKey(s.t, r.key).value, created))
  {
    hide TasksOk, InputOk;
  }

  lemma SubmitLookupFiles(s: System, tid: TaskId, drawn: JobId, fault: Fault)
    requires FilesOk(s) && tid in s.tasks && s.tasks[tid].SubmitLookup?
    ensures FilesOk(NextSubmit(s, tid, drawn, fault))
  {
    var r := s.tasks[tid].request;
    var found := FindByKey(s.t, r.key);
    if found.Some? && s.t.jobs[found.value].requestSha256 == r.sha256 { FoundRow(s, r, false); }
    hide FilesOk;
    IdleStep(s, tid, NextSubmit(s, tid, drawn, fault).tasks[tid]);
  }

  lemma SubmitMkdirFiles(s: System, tid: TaskId, drawn: JobId, fault: Fault)
    requires FilesOk(s) && tid in s.tasks && s.tasks[tid].SubmitMkdir?
    ensures FilesOk(NextSubmit(s, tid, drawn, fault))
  {
    var s' := NextSubmit(s, tid, drawn, fault);
    if fault == ChecksRefuse {
      LocalStep(s, s', tid, {});
    } else if drawn !in s.used {
      FreshApart(s, drawn);
      assert Owns(s'.tasks[tid]) == {drawn};
      assert Owned(s', drawn);
      LocalStep(s, s', tid, {drawn});
    }
  }

  lemma SubmitMoveFiles(s: System, tid: TaskId, drawn: JobId, fault: Fault)
    requires FilesOk(s) && tid in s.tasks && s.tasks[tid].SubmitMove?
    ensures FilesOk(NextSubmit(s, tid, drawn, fault))
  {
    if fault == PlacingRaises { SubmitBreaks(s, tid); } else { SubmitPlaces(s, tid); }
    assert TaskOk(s, s.tasks[tid]);
  }

  lemma SubmitBreaks(s: System, tid: TaskId)
    requires FilesOk(s) && tid in s.tasks && s.tasks[tid].SubmitMove?
    ensures var r, id := s.tasks[tid].request, s.tasks[tid].id;
            FilesOk(Put(s, tid, SubmitDone(r, Some(id), Broken)).(leaked := s.leaked + {id}))
  {
    OwnersApart(s, tid);
    hide JobsEvolve, InputOk;
    var r, id := s.tasks[tid].request, s.tasks[tid].id;
    LocalStep(s, Put(s, tid, SubmitDone(r, Some(id), Broken)).(leaked := s.leaked + {id}), tid, {});
  }

  lemma SubmitPlaces(s: System, tid: TaskId)
    requires FilesOk(s) && tid in s.tasks && s.tasks[tid].SubmitMove?
    ensures var r, id := s.tasks[tid].request, s.tasks[tid].id;
            FilesOk(Put(s, tid, SubmitEnqueue(r, id)).(disk := s.disk[id := Some(r.submission.archiveSha256)]))
  {
    OwnersApart(s, tid);
    hide JobsEvolve, InputOk;
    var r, id := s.tasks[tid].request, s.tasks[tid].id;
    var s' := Put(s, tid, SubmitEnqueue(r, id)).(disk := s.disk[id := Some(r.submission.archiveSha256)]);
    assert s'.tasks[tid] == SubmitEnqueue(r, id) && id in Owns(s'.tasks[tid]);
    assert Owned(s', id);
    LocalStep(s, s', tid, {id});
  }

  lemma SubmitDiscardFiles(s: System, tid: TaskId, drawn: JobId, fault: Fault)
    requires FilesOk(s) && tid in s.tasks && s.tasks[tid].SubmitDiscard?
    ensures FilesOk(NextSubmit(s, tid, drawn, fault))
  {
    OwnersApart(s, tid);
    var s' := NextSubmit(s, tid, drawn, fault);
    var id := s.tasks[tid].id;
    assert Owns(s.tasks[tid]) == {id} == Owns(s'.tasks[tid]);
    LocalStep(s, s', tid, {id});
  }

  lemma EnqueuedRow(t: Tables, op: Operation)
    requires op.Enqueue? && op.id !in t.jobs
    ensures FindByKey(t, op.key).Some? ==> Apply(t, op) == t
    ensures FindByKey(t, op.key).None? ==>
              && Apply(t, op).jobs.Keys == t.jobs.Keys + {op.id}
              && Apply(t, op).jobs[op.id].inputRoot == op.inputRoot
              && Apply(t, op).jobs[op.id].submission == op.submission
              && Apply(t, op).jobs[op.id].idempotencyKey == op.key
              && Apply(t, op).jobs[op.id].requestSha256 == op.request
  {}

  /** The submit that wins the race inserts its row over its own directory; a loser goes on to discard. */
  lemma SubmitEnqueueFiles(s: System, a: Action)
    requires Inv(s) && a.SubmitAdvance? && a.tid in s.tasks && s.tasks[a.tid].SubmitEnqueue?
    ensures FilesOk(Next(s, a))
  {
    OwnersApart(s, a.tid);
    var r, id := s.tasks[a.tid].request, s.tasks[a.tid].id;
    if a.fault != InsertRaises { EnqueuedRow(s.t, OperationOf(s, a).value); }
    StepEvolves(s, a);
    var t := TablesAfter(s, a);
    if a.fault == InsertRaises || FindByKey(s.t, r.key).Some? {
      SubmitLoses(s, a.tid, a.drawn, a.fault);
    } else {
      SubmitWins(s, a.tid, a.drawn, a.fault, t);
    }
  }

  lemma SubmitLoses(s: System, tid: TaskId, drawn: JobId, fault: Fault)
    requires FilesOk(s) && tid in s.tasks && s.tasks[tid].SubmitEnqueue?
             && (fault == InsertRaises || FindByKey(s.t, s.tasks[tid].request.key).Some?)
    ensures FilesOk(NextSubmit(s, tid, drawn, fault))
  {
    var id, task := s.tasks[tid].id, NextSubmit(s, tid, drawn, fault).tasks[tid];
    LoserTaskOk(s, tid, task.outcome);
    hide FilesOk, FindByKey, TaskOk;
    StaysOwner(s, tid, task, id);
  }

  lemma LoserTaskOk(s: System, tid: TaskId, outcome: Outcome)
    requires FilesOk(s) && tid in s.tasks && s.tasks[tid].SubmitEnqueue?
    requires var found := FindByKey(s.t, s.tasks[tid].request.key);
             || outcome == Refused || outcome == Conflict
             || (found.Some? && s.t.jobs[found.value].requestSha256 == s.tasks[tid].request.sha256
                 && outcome == Returned(found.value, false))
    ensures var r, id := s.tasks[tid].request, s.tasks[tid].id;
            Private(s, id) && TaskOk(s, SubmitDiscard(r, id, outcome))
  {
    assert TaskOk(s, s.tasks[tid]);
    hide TasksOk, InputOk;
    if outcome.Returned? { FoundRow(s, s.tasks[tid].request, false); }
  }

  lemma SubmitWins(s: System, tid: TaskId, drawn: JobId, fault: Fault, t: Tables)
    requires FilesOk(s) && tid in s.tasks && s.tasks[tid].SubmitEnqueue? && fault != InsertRaises
             && FindByKey(s.t, s.tasks[tid].request.key).None?
    requires var r, id := s.tasks[tid].request, s.tasks[tid].id;
             && JobsEvolve(s.t, t, {id}) && t.jobs.Keys == s.t.jobs.Keys + {id}
             && t.jobs[id].inputRoot == id && t.jobs[id].submission == r.submission
             && t.jobs[id].idempotencyKey == r.key && t.jobs[id].requestSha256 == r.sha256
    ensures FilesOk(NextSubmit(s, tid, drawn, fault).(t := t))
  {
    hide JobsEvolve;
    OwnersApart(s, tid);
    var id, s' := s.tasks[tid].id, NextSubmit(s, tid, drawn, fault).(t := t);
    assert Owns(s.tasks[tid]) == {id};
    FilesKept(s, s', tid, {id});
  }

  lemma RetryReadFiles(s: System, tid: TaskId, drawn: JobId, fault: Fault, key: string)
    requires FilesOk(s) && tid in s.tasks && (s.tasks[tid].RetryRead? || s.tasks[tid].RetryCheck?)
    ensures FilesOk(NextRetry(s, tid, drawn, fault, key))
  {
    var s' := NextRetry(s, tid, drawn, fault, key);
    OwnersApart(s, tid);
    if tid in s'.tasks {
      if s.tasks[tid].RetryRead? { assert InputOk(s, s.tasks[tid].source); }
      IdleStep(s, tid, s'.tasks[tid]);
    } else {
      LocalStep(s, s', tid, {});
    }
  }

  lemma RetryMkdirFiles(s: System, tid: TaskId, drawn: JobId, fault: Fault, key: string)
    requires FilesOk(s) && tid in s.tasks && s.tasks[tid].RetryMkdir?
    ensures FilesOk(NextRetry(s, tid, drawn, fault, key))
  {
    hide JobsEvolve, InputOk, FindByKey;
    OwnersApart(s, tid);
    var s' := NextRetry(s, tid, drawn, fault, key);
    if drawn !in s.used {
      FreshApart(s, drawn);
      assert Owns(s'.tasks[tid]) == {drawn};
      assert Owned(s', drawn);
      LocalStep(s, s', tid, {drawn});
    }
  }

  lemma RetryCopyFiles(s: System, tid: TaskId, drawn: JobId, fault: Fault, key: string)
    requires FilesOk(s) && tid in s.tasks && s.tasks[tid].RetryCopy?
    ensures FilesOk(NextRetry(s, tid, drawn, fault, key))
  {
    var source, root, id := s.tasks[tid].source, s.tasks[tid].root, s.tasks[tid].id;
    assert TaskOk(s, s.tasks[tid]) && root == source;
    if fault != PlacingRaises && root in s.disk && s.disk[root].Some? {
      RetryCopies(s, tid, source, id);
    } else {
      CopyBreaks(s, tid, id);
    }
    assert TaskOk(s, s.tasks[tid]);
  }

  lemma RetryCopies(s: System, tid: TaskId, source: JobId, id: JobId)
    requires FilesOk(s) && tid in s.tasks && s.tasks[tid] == RetryCopy(source, source, id)
    requires source in s.disk && s.disk[source].Some?
    ensures FilesOk(Put(s, tid, RetryReread(source, id, s.disk[source].value)).(disk := s.disk[id := s.disk[source]]))
  {
    OwnersApart(s, tid);
    var task := RetryReread(source, id, s.disk[source].value);
    var s' := Put(s, tid, task).(disk := s.disk[id := s.disk[source]]);
    if source in s.t.jobs { assert InputOk(s, source); }
    assert TaskOk(s', task) && Owns(s.tasks[tid]) == {id} == Owns(task);
    hide JobsEvolve, InputOk, TaskOk, Owns;
    assert s'.tasks[tid] == task && id in Owns(s'.tasks[tid]);
    assert Owned(s', id);
    LocalStep(s, s', tid, {id});
  }

  lemma CopyBreaks(s: System, tid: TaskId, id: JobId)
    requires FilesOk(s) && tid in s.tasks && s.tasks[tid].RetryCopy? && s.tasks[tid].id == id
    ensures FilesOk(Finish(s, tid).(leaked := s.leaked + {id}))
  {
    OwnersApart(s, tid);
    hide JobsEvolve, InputOk, TaskOk;
    LocalStep(s, Finish(s, tid).(leaked := s.leaked + {id}), tid, {});
  }

  lemma RetryRereadFiles(s: System, tid: TaskId, drawn: JobId, fault: Fault, key: string)
    requires FilesOk(s) && tid in s.tasks && s.tasks[tid].RetryReread?
    ensures FilesOk(NextRetry(s, tid, drawn, fault, key))
  {
    var id, next := s.tasks[tid].id, NextRetry(s, tid, drawn, fault, key).tasks[tid];
    RereadTaskOk(s, tid);
    StaysOwner(s, tid, next, id);
  }

  /** The reread row names the archive that was copied. */
  lemma RereadTaskOk(s: System, tid: TaskId)
    requires FilesOk(s) && tid in s.tasks && s.tasks[tid].RetryReread?
    ensures var source, id := s.tasks[tid].source, s.tasks[tid].id;
            && Private(s, id) && TaskOk(s, RetryDiscard(id))
            && (source in s.t.jobs && s.t.jobs[source].state.Terminal() ==>
                  var row := s.t.jobs[source];
                  TaskOk(s, RetryEnqueue(source, id, row.requestSha256, row.submission, row.configuration)))
  {
    assert TaskOk(s, s.tasks[tid]);
  }

  /** A program that goes on with the directory it owns. */
  lemma StaysOwner(s: System, tid: TaskId, task: Task, id: JobId)
    requires FilesOk(s) && tid in s.tasks && Owns(s.tasks[tid]) == {id} == Owns(task) && Private(s, id)
    requires TaskOk(s, task)
    ensures FilesOk(Put(s, tid, task))
  {
    OwnersApart(s, tid);
    var s' := Put(s, tid, task);
    TaskPure(s, s', task);
    hide JobsEvolve, InputOk, TaskOk, Owns;
    assert s'.tasks[tid] == task && id in Owns(s'.tasks[tid]);
    assert Owned(s', id);
    LocalStep(s, s', tid, {id});
  }

  lemma RetryEnqueueFiles(s: System, a: Action)
    requires Inv(s) && a.RetryAdvance? && a.tid in s.tasks && s.tasks[a.tid].RetryEnqueue?
    ensures FilesOk(Next(s, a))
  {
    OwnersApart(s, a.tid);
    assert Private(s, s.tasks[a.tid].id);
    hide TaskOk, InputOk, RowOk;
    if a.fault != InsertRaises { EnqueuedRow(s.t, OperationOf(s, a).value); }
    StepEvolves(s, a);
    if a.fault == InsertRaises || FindByKey(s.t, a.key).Some? {
      RetryCollides(s, a.tid, a.drawn, a.fault, a.key);
    } else {
      RetryInserts(s, a.tid, a.drawn, a.fault, a.key, TablesAfter(s, a));
    }
  }

  lemma RetryCollides(s: System, tid: TaskId, drawn: JobId, fault: Fault, key: string)
    requires FilesOk(s) && tid in s.tasks && s.tasks[tid].RetryEnqueue?
             && (fault == InsertRaises || FindByKey(s.t, key).Some?)
    ensures FilesOk(NextRetry(s, tid, drawn, fault, key))
  {
    var id := s.tasks[tid].id;
    assert Private(s, id) by { OwnersApart(s, tid); }
    hide FilesOk, FindByKey;
    StaysOwner(s, tid, RetryDiscard(id), id);
  }

  lemma RetryInserts(s: System, tid: TaskId, drawn: JobId, fault: Fault, key: string, t: Tables)
    requires FilesOk(s) && tid in s.tasks && s.tasks[tid].RetryEnqueue? && FindByKey(s.t, key).None?
             && fault != InsertRaises
    requires var id := s.tasks[tid].id;
             && JobsEvolve(s.t, t, {id}) && t.jobs.Keys == s.t.jobs.Keys + {id}
             && t.jobs[id].inputRoot == id && t.jobs[id].submission == s.tasks[tid].submission
    ensures FilesOk(NextRetry(s, tid, drawn, fault, key).(t := t))
  {
    hide JobsEvolve;
    OwnersApart(s, tid);
    var id, s' := s.tasks[tid].id, NextRetry(s, tid, drawn, fault, key).(t := t);
    assert Owns(s.tasks[tid]) == {id} == Owns(s'.tasks[tid]);
    FilesKept(s, s', tid, {id});
  }

  lemma RetryEndFiles(s: System, tid: TaskId, drawn: JobId, fault: Fault, key: string)
    requires FilesOk(s) && tid in s.tasks && (s.tasks[tid].RetryLog? || s.tasks[tid].RetryDiscard?)
    ensures FilesOk(NextRetry(s, tid, drawn, fault, key))
  {
    var id := s.tasks[tid].id;
    if s.tasks[tid].RetryDiscard? {
      RetryDiscarded(s, tid);
    } else if fault != LogRaises && id in s.t.jobs {
      RetryFinishes(s, tid, id);
    } else {
      RetryFallsBack(s, tid, id);
    }
  }

  lemma RetryFinishes(s: System, tid: TaskId, id: JobId)
    requires FilesOk(s) && tid in s.tasks && s.tasks[tid] == RetryLog(id) && id in s.t.jobs
    ensures FilesOk(Finish(s, tid))
  {
    OwnersApart(s, tid);
    hide JobsEvolve, InputOk, TaskOk;
    LocalStep(s, Finish(s, tid), tid, {});
  }

  lemma RetryFallsBack(s: System, tid: TaskId, id: JobId)
    requires FilesOk(s) && tid in s.tasks && s.tasks[tid] == RetryLog(id)
    ensures FilesOk(Put(s, tid, RetryDiscard(id)))
  {
    OwnersApart(s, tid);
    var s' := Put(s, tid, RetryDiscard(id));
    assert TaskOk(s', RetryDiscard(id)) && Owns(s.tasks[tid]) == {id} == Owns(RetryDiscard(id));
    hide JobsEvolve, InputOk, TaskOk, Owns;
    assert s'.tasks[tid] == RetryDiscard(id);
    assert Owned(s', id);
    LocalStep(s, s', tid, {});
  }

  lemma RetryDiscarded(s: System, tid: TaskId)
    requires FilesOk(s) && tid in s.tasks && s.tasks[tid].RetryDiscard?
    ensures var id := s.tasks[tid].id;
            FilesOk(Finish(s, tid).(disk := s.disk - {id},
                    stripped := if Live(s.t, id) then s.stripped + {id} else s.stripped))
  {
    OwnersApart(s, tid);
    var id := s.tasks[tid].id;
    var stripped := if Live(s.t, id) then s.stripped + {id} else s.stripped;
    hide JobsEvolve, InputOk, TaskOk;
    LocalStep(s, Finish(s, tid).(disk := s.disk - {id}, stripped := stripped), tid, {id} - s.accepted);
  }

  lemma RemovalFiles(s: System, tid: TaskId)
    requires FilesOk(s) && tid in s.tasks && !s.tasks[tid].CleanDelete?
    ensures FilesOk(NextRemoval(s, tid))
  {
    hide FilesOk;
    match s.tasks[tid]
    case DeleteRemove(id) => RemoveDirectory(s, tid, NextRemoval(s, tid), id);
    case CleanRemove(ids) =>
      if ids == [] {
        IdleEnd(s, tid);
      } else {
        FirstRemovable(s, tid, ids);
        RemoveDirectory(s, tid, NextRemoval(s, tid), ids[0]);
      }
    case _ =>
  }

  lemma FirstRemovable(s: System, tid: TaskId, ids: seq<JobId>)
    requires FilesOk(s) && tid in s.tasks && s.tasks[tid] == CleanRemove(ids) && ids != []
    ensures Removable(s, ids[0]) && TaskOk(s, CleanDelete(ids))
  {
    assert TaskOk(s, s.tasks[tid]);
    assert ids[0] in ids;
  }

  /** A program that owns nothing removes the directory of a finished or deleted job. */
  lemma RemoveDirectory(s: System, tid: TaskId, s': System, id: JobId)
    requires FilesOk(s) && tid in s.tasks && Owns(s.tasks[tid]) == {}
    requires Removable(s, id) || s.tasks[tid] == DeleteRemove(id)
    requires s' == s.(disk := s.disk - {id}, tasks := s'.tasks)
    requires s'.tasks == s.tasks - {tid}
             || (exists task :: s'.tasks == s.tasks[tid := task] && TaskOk(s, task) && task.CleanDelete?)
    ensures FilesOk(s')
  {
    OwnersApart(s, tid);
    if tid in s'.tasks { CleaningPure(s, s', s'.tasks[tid]); }
    hide JobsEvolve, InputOk, TaskOk;
    LocalStep(s, s', tid, {});
  }

  lemma CleaningPure(s: System, s': System, task: Task)
    requires task.CleanDelete? && TaskOk(s, task) && s'.t == s.t && s'.accepted == s.accepted
    ensures TaskOk(s', task) && Owns(task) == {}
  {
    forall id | id in task.ids ensures Removable(s', id) { assert Removable(s, id); }
  }

  /** A program that owns nothing ends. */
  lemma IdleEnd(s: System, tid: TaskId)
    requires FilesOk(s) && tid in s.tasks && Owns(s.tasks[tid]) == {}
    ensures FilesOk(Finish(s, tid))
  {
    hide JobsEvolve, InputOk, TaskOk;
    OwnersApart(s, tid);
    LocalStep(s, Finish(s, tid), tid, {});
  }

  lemma CleanDeleteFiles(s: System, a: Action)
    requires Inv(s) && a.RemovalAdvance? && a.tid in s.tasks && s.tasks[a.tid].CleanDelete?
    ensures FilesOk(Next(s, a))
  {
    hide Inv, Apply, JobsEvolve, FilesOk, TaskOk;
    InvFiles(s);
    StepEvolves(s, a);
    RestRemovable(s, a.tid);
    KeysShrink(s.t, s.tasks[a.tid].ids[0]);
    CleanedRow(s, a.tid, s.tasks[a.tid].ids, TablesAfter(s, a));
  }

  lemma KeysShrink(t: Tables, id: JobId)
    ensures Apply(t, Delete(id, false)).jobs.Keys <= t.jobs.Keys
  {}

  lemma RestRemovable(s: System, tid: TaskId)
    requires FilesOk(s) && tid in s.tasks && s.tasks[tid].CleanDelete?
    ensures s.tasks[tid].ids != [] && forall id | id in s.tasks[tid].ids[1..] :: Removable(s, id)
  {
    assert TaskOk(s, s.tasks[tid]);
    forall id | id in s.tasks[tid].ids[1..] ensures Removable(s, id) { assert id in s.tasks[tid].ids; }
  }

  lemma CleanedRow(s: System, tid: TaskId, ids: seq<JobId>, t: Tables)
    requires FilesOk(s) && tid in s.tasks && s.tasks[tid] == CleanDelete(ids) && ids != []
    requires JobsEvolve(s.t, t, {}) && t.jobs.Keys <= s.t.jobs.Keys && forall id | id in ids[1..] :: Removable(s, id)
    ensures FilesOk(Put(s, tid, CleanRemove(ids[1..])).(t := t))
  {
    var s' := Put(s, tid, CleanRemove(ids[1..])).(t := t);
    CleanedTask(s, s', ids);
    hide InputOk, JobsEvolve, TaskOk, TasksOk, Owns, Accounted, Removable;
    FilesKept(s, s', tid, {});
  }

  lemma CleanedTask(s: System, s': System, ids: seq<JobId>)
    requires ids != [] && JobsEvolve(s.t, s'.t, {}) && s'.t.jobs.Keys <= s.t.jobs.Keys && s.accepted == s'.accepted
    requires forall id | id in ids[1..] :: Removable(s, id)
    ensures TaskOk(s', CleanRemove(ids[1..])) && Owns(CleanRemove(ids[1..])) == {} && Owns(CleanDelete(ids)) == {}
  {
    forall id | id in ids[1..] ensures Removable(s', id) { assert Removable(s, id); }
  }

  lemma DeleteCallFiles(s: System, a: Action)
    requires Inv(s) && a.DeleteCall?
    ensures FilesOk(Next(s, a))
  {
    hide FilesOk, Inv, Apply, JobsEvolve, CanDelete;
    InvFiles(s);
    DeletesRow(s.t, a.id);
    if a.tid !in s.tasks && CanDelete(s.t, a.id, true) {
      StepEvolves(s, a);
      RowDeleted(s, a.tid, a.id, TablesAfter(s, a));
    }
  }

  lemma DeletesRow(t: Tables, id: JobId)
    ensures CanDelete(t, id, true) ==> id in t.jobs && Apply(t, Delete(id, true)).jobs.Keys == t.jobs.Keys - {id}
    ensures !CanDelete(t, id, true) ==> Apply(t, Delete(id, true)) == t
  {}

  lemma RowDeleted(s: System, tid: TaskId, id: JobId, t: Tables)
    requires FilesOk(s) && tid !in s.tasks && id in s.t.jobs
    requires JobsEvolve(s.t, t, {}) && t.jobs.Keys == s.t.jobs.Keys - {id}
    ensures FilesOk(Put(s, tid, DeleteRemove(id)).(t := t))
  {
    hide JobsEvolve, InputOk;
    FilesKept(s, Put(s, tid, DeleteRemove(id)).(t := t), tid, {});
  }

  lemma BeginFiles(s: System, a: Action)
    requires FilesOk(s) && (a.SubmitBegin? || a.RetryBegin? || a.CleanupBegin?)
    ensures FilesOk(NextPrograms(s, a))
  {
    if a.tid !in s.tasks {
      if a.CleanupBegin? && a.tid in NextPrograms(s, a).tasks {
        forall id | id in a.ids ensures Removable(s, id) { assert Expired(s.t, id, a.now); }
      }
      hide FilesOk;
      if a.tid in NextPrograms(s, a).tasks { IdleStep(s, a.tid, NextPrograms(s, a).tasks[a.tid]); }
    }
  }

  /** Transactions outside the programs: no directory moves, no row appears or disappears. */
  lemma TableFiles(s: System, s': System)
    requires FilesOk(s) && JobsEvolve(s.t, s'.t, {}) && s'.t.jobs.Keys == s.t.jobs.Keys
    requires s'.disk == s.disk && s'.tasks == s.tasks && s'.used == s.used && s'.accepted == s.accepted
             && s'.leaked == s.leaked && s'.stripped == s.stripped
    ensures FilesOk(s')
  {
    hide TaskOk, Owns, InputOk, JobsEvolve;
    forall i | i in s'.tasks ensures TaskOk(s', s'.tasks[i]) { TaskKept(s, s', s.tasks[i], {}); }
    InputsKept(s, s', {});
    forall id | id in s'.disk ensures Accounted(s', id) { assert Accounted(s, id); }
  }

  lemma WorkerWriteFiles(s: System)
    requires FilesOk(s) && WorkerOk(s)
    ensures FilesOk(NextPrograms(s, WorkerWrite))
  {
    var s' := NextPrograms(s, WorkerWrite);
    if s' != s {
      forall i | i in s.tasks ensures TaskOk(s', s.tasks[i]) { WorkerWriteTask(s, s', s.tasks[i]); }
      forall id | id in s.t.jobs ensures InputOk(s', id) { assert InputOk(s, id); }
      hide TaskOk, InputOk;
      forall id | id in s'.disk ensures Accounted(s', id) { assert id in s.disk ==> Accounted(s, id); }
    }
  }

  lemma WorkerWriteTask(s: System, s': System, task: Task)
    requires s' == NextPrograms(s, WorkerWrite) && s.worker.Executing? && s.worker.id in s.accepted
    requires TaskOk(s, task)
    ensures TaskOk(s', task)
  {}

  lemma CrashFiles(s: System)
    requires FilesOk(s)
    ensures FilesOk(NextPrograms(s, Crash))
  {
    hide TaskOk, Owns;
    var s' := NextPrograms(s, Crash);
    forall id | id in s.t.jobs ensures InputOk(s', id) { assert InputOk(s, id); }
    forall id | id in s'.disk ensures Accounted(s', id) { assert Accounted(s, id); }
  }

  // ---------------------------------------------------------------- worker and model operation

  lemma RunningShrinks(t: Tables, op: Operation, id: JobId)
    requires !op.ClaimNext? && IsRunning(Apply(t, op), id)
    ensures IsRunning(t, id) && !op.Recover?
  {}

  lemma QueuedShrinks(t: Tables, op: Operation, id: JobId)
    requires !op.Recover? && id in t.jobs && id in Apply(t, op).jobs && Apply(t, op).jobs[id].state == Queued
    ensures t.jobs[id].state == Queued
  {}

  lemma ClaimRuns(t: Tables, now: Time, id: JobId)
    requires IsRunning(ClaimHead(t, now), id)
    ensures IsRunning(t, id) || (CanClaim(t) && id == Head(t).value)
  {}

  lemma FinishedIsTerminal(t: Tables, op: Operation)
    requires op.Complete? || op.Fail? || op.Cancel?
    requires op.id in t.jobs ==> t.jobs[op.id].state != Queued
    ensures op.id in Apply(t, op).jobs ==> Apply(t, op).jobs[op.id].state.Terminal()
  {}

  ghost predicate EndsJob(a: Action) {
    a.WorkerComplete? || a.WorkerFail? || a.WorkerCancelled?
  }

  /** When `_execute` returns, by any path, its job is terminal or gone. */
  lemma ExecuteEndsItsJob(s: System, a: Action)
    requires Inv(s) && s.worker.Executing? && EndsJob(a)
    ensures var s' := Next(s, a);
            s'.worker == Idle && (s.worker.id in s'.t.jobs ==> s'.t.jobs[s.worker.id].state.Terminal())
  {
    hide FilesOk, TablesOk, IdsOk, TasksOk, OperationOk, InputOk, Apply;
    FinishedIsTerminal(s.t, OperationOf(s, a).value);
  }

  lemma EnqueueIsFresh(s: System, a: Action)
    requires Inv(s) && OperationOf(s, a).Some? && OperationOf(s, a).value.Enqueue?
    ensures OperationOf(s, a).value.id !in s.accepted
  {
    hide TablesOk, InputOk;
    if a.SubmitAdvance? { assert TaskOk(s, s.tasks[a.tid]); }
    if a.RetryAdvance? { assert TaskOk(s, s.tasks[a.tid]); }
  }

  /** The executed job cannot be put back in the line behind the worker's back. */
  lemma ExecutedStaysUnqueued(s: System, a: Action)
    requires Inv(s) && s.worker.Executing?
    ensures var t' := TablesAfter(s, a); s.worker.id in t'.jobs ==> t'.jobs[s.worker.id].state != Queued
  {
    hide TablesOk, IdsOk, TasksOk, OperationOk, InputOk, Apply;
    var w, t' := s.worker.id, TablesAfter(s, a);
    if OperationOf(s, a).Some? && w in t'.jobs {
      var op := OperationOf(s, a).value;
      if w in s.t.jobs {
        if t'.jobs[w].state == Queued { QueuedShrinks(s.t, op, w); }
      } else {
        OperationAddsOnly(s.t, op, w);
        EnqueueIsFresh(s, a);
      }
    }
  }

  lemma OnlyClaimsStartJobs(s: System, a: Action, id: JobId)
    requires IsRunning(Next(s, a).t, id) && !IsRunning(s.t, id)
    ensures a.WorkerClaim? && s.worker.Idle? && CanClaim(s.t) && id == Head(s.t).value
  {
    hide NextPrograms, Apply, CanClaim;
    if OperationOf(s, a).Some? {
      var op := OperationOf(s, a).value;
      if op.ClaimNext? { ClaimStep(s.t, op); ClaimRuns(s.t, op.now, id); } else { RunningShrinks(s.t, op, id); }
    }
  }

  lemma ClaimStep(t: Tables, op: Operation)
    requires op.ClaimNext?
    ensures Apply(t, op) == ClaimHead(t, op.now)
  {}

  lemma RecoverEmptiesRunning(t: Tables, id: JobId)
    ensures !IsRunning(Apply(t, Recover), id)
  {}

  function WorkerAfter(s: System, a: Action, claims: bool, head: JobId): Worker {
    match a
    case WorkerStart => if s.worker.Down? then Idle else s.worker
    case WorkerClaim(_) => if s.worker.Idle? && claims then Executing(head) else s.worker
    case WorkerComplete(_, _, _, _) => AfterJob(s)
    case WorkerFail(_, _, _) => AfterJob(s)
    case WorkerCancelled(_, _) => AfterJob(s)
    case WorkerStops => Down
    case Crash => Down
    case _ => s.worker
  }

  ghost function OperationAfter(s: System, a: Action): ModelOperation {
    match a
    case ModelBegin(activate) =>
      if s.operation.NoOperation? then (if activate then ActivateDraining else TestWaiting) else s.operation
    case ModelAdvance(abort) => NextOperation(s, abort)
    case ModelStops => NoOperation
    case Crash => NoOperation
    case _ => s.operation
  }

  /** Only the worker's and the model operation's own actions, and crashes, move them. */
  lemma NextFields(s: System, a: Action)
    ensures Next(s, a).t == TablesAfter(s, a)
    ensures Next(s, a).operation == OperationAfter(s, a) && s.accepted <= Next(s, a).accepted
    ensures Next(s, a).worker == WorkerAfter(s, a, CanClaim(s.t), if CanClaim(s.t) then Head(s.t).value else "")
  {
    hide Apply, FindByKey, NextOperation, OperationOf, CanDelete, Expired, Owned, NextSubmit, NextRetry, NextRemoval;
    match a
    case SubmitAdvance(tid, drawn, fault, _) => if tid in s.tasks { SubmitFields(s, tid, drawn, fault); }
    case RetryAdvance(tid, drawn, fault, key, _) => if tid in s.tasks { RetryFields(s, tid, drawn, fault, key); }
    case RemovalAdvance(tid) => if tid in s.tasks { RemovalFields(s, tid); }
    case _ =>
  }

  lemma SubmitFields(s: System, tid: TaskId, drawn: JobId, fault: Fault)
    requires tid in s.tasks
    ensures var s' := NextSubmit(s, tid, drawn, fault);
            s'.worker == s.worker && s'.operation == s.operation && s.accepted <= s'.accepted
  {
    hide FindByKey;
  }

  lemma RetryFields(s: System, tid: TaskId, drawn: JobId, fault: Fault, key: string)
    requires tid in s.tasks
    ensures var s' := NextRetry(s, tid, drawn, fault, key);
            s'.worker == s.worker && s'.operation == s.operation && s.accepted <= s'.accepted
  {
    hide FindByKey;
  }

  lemma RemovalFields(s: System, tid: TaskId)
    requires tid in s.tasks
    ensures var s' := NextRemoval(s, tid);
            s'.worker == s.worker && s'.operation == s.operation && s.accepted == s'.accepted
  {}

  lemma WorkerKept(s: System, a: Action)
    requires Inv(s)
    ensures WorkerOk(Next(s, a))
  {
    hide TablesOk, IdsOk, TasksOk, OperationOk, InputOk, Apply, CanClaim, Next, NextPrograms;
    var s' := Next(s, a);
    NextFields(s, a);
    forall id | IsRunning(s'.t, id) && !IsRunning(s.t, id)
      ensures a.WorkerClaim? && s.worker.Idle?
    {
      OnlyClaimsStartJobs(s, a, id);
    }
    match s.worker
    case Down => if a.WorkerStart? { forall id ensures !IsRunning(s'.t, id) { RecoverEmptiesRunning(s.t, id); } }
    case Idle => if a.WorkerClaim? { ClaimedWorker(s, a); }
    case Executing(w) =>
      ExecutedStaysUnqueued(s, a);
      if EndsJob(a) { ExecuteEndsItsJob(s, a); }
  }

  lemma ClaimedWorker(s: System, a: Action)
    requires Inv(s) && a.WorkerClaim? && s.worker.Idle?
    ensures WorkerOk(Next(s, a))
  {
    hide TablesOk, TasksOk, OperationOk, InputOk;
    var s' := Next(s, a);
    if CanClaim(s.t) {
      assert IsHead(s.t, Head(s.t).value);
      forall id | IsRunning(s'.t, id) ensures id == Head(s.t).value { ClaimRuns(s.t, a.now, id); }
    }
  }

  lemma ControlStep(t: Tables, op: Operation)
    ensures !op.SetControl? ==> Apply(t, op).control.maintenance == t.control.maintenance
                                && Apply(t, op).control.mode == t.control.mode
  {}

  /** Nothing starts while a self-test holds the queue in maintenance. */
  lemma NothingStarts(s: System, a: Action)
    requires Inv(s) && s.t.control.maintenance && NothingRuns(s.t)
    ensures NothingRuns(Next(s, a).t)
  {
    hide Inv, Next, Head;
    forall id ensures !IsRunning(Next(s, a).t, id) {
      if IsRunning(Next(s, a).t, id) { OnlyClaimsStartJobs(s, a, id); }
    }
  }

  /** From the return of the self-test's begin to its end no row is running. */
  lemma OperationKept(s: System, a: Action)
    requires Inv(s)
    ensures OperationOk(Next(s, a))
  {
    hide TablesOk, IdsOk, TasksOk, WorkerOk, InputOk, Next, OperationOf, NothingRuns, Drained;
    NextFields(s, a);
    TestHoldsQueue(s, a);
    if (s.operation == Testing || s.operation == TestWaiting) && NothingRuns(s.t) { NothingStarts(s, a); }
  }

  /** The self-test writes its control values first, and no other transaction writes them while it runs. */
  lemma TestHoldsQueue(s: System, a: Action)
    requires OperationOk(s)
    ensures Next(s, a).operation in {TestWaiting, Testing, TestEnding, TestReopening} ==>
              Next(s, a).t.control.maintenance && Next(s, a).t.control.mode == SelfTesting
  {
    hide Apply, NothingRuns, Drained, NextPrograms;
    NextFields(s, a);
    if OperationOf(s, a).Some? {
      ControlStep(s.t, OperationOf(s, a).value);
      if OperationOf(s, a).value.SetControl? { ControlWritten(s.t, OperationOf(s, a).value); }
    }
  }

  lemma ControlWritten(t: Tables, op: Operation)
    requires op.SetControl?
    ensures op.expected.None? && op.maintenance.Some? && op.mode.Some? ==>
              Apply(t, op).control.maintenance == op.maintenance.value && Apply(t, op).control.mode == op.mode.value
    ensures op.maintenance.None? && op.mode.None? ==>
              Apply(t, op).control.maintenance == t.control.maintenance && Apply(t, op).control.mode == t.control.mode
  {}

  // ---------------------------------------------------------------- theorems

  ghost predicate TableAction(a: Action) {
    || a.CancelCall? || a.PauseCall? || a.ReorderCall? || a.WorkerStart? || a.WorkerClaim? || a.WorkerProgress?
    || EndsJob(a) || a.WorkerStops? || a.ModelBegin? || a.ModelAdvance? || a.ModelStops?
  }

  lemma OutsideKeepsRows(s: System, a: Action)
    requires TableAction(a)
    ensures Enqueued(s, a) == {} && TablesAfter(s, a).jobs.Keys == s.t.jobs.Keys
  {
    hide AppendEvent;
    if OperationOf(s, a).Some? { KeysKept(s.t, OperationOf(s, a).value); }
  }

  lemma KeysKept(t: Tables, op: Operation)
    requires !op.Enqueue? && !op.Delete?
    ensures Apply(t, op).jobs.Keys == t.jobs.Keys
  {}

  /** A step without a transaction is the program's own move. */
  lemma NextLocal(s: System, a: Action)
    ensures NextPrograms(s, a).t == s.t
    ensures OperationOf(s, a).None? ==> Next(s, a) == NextPrograms(s, a)
  {
    hide AppendEvent, FindByKey;
  }

  lemma SubmitAdvanceFiles(s: System, a: Action)
    requires Inv(s) && a.SubmitAdvance? && a.tid in s.tasks
    ensures FilesOk(Next(s, a))
  {
    hide FilesOk, NextSubmit, Apply, TablesOk, IdsOk, TasksOk, WorkerOk, OperationOk, InputOk;
    assert FilesOk(s) by { InvFiles(s); }
    NextLocal(s, a);
    match s.tasks[a.tid]
    case SubmitCheck(_) => SubmitCheckFiles(s, a.tid, a.drawn, a.fault);
    case SubmitLookup(_) => SubmitLookupFiles(s, a.tid, a.drawn, a.fault);
    case SubmitMkdir(_) => SubmitMkdirFiles(s, a.tid, a.drawn, a.fault);
    case SubmitMove(_, _) => SubmitMoveFiles(s, a.tid, a.drawn, a.fault);
    case SubmitEnqueue(_, _) => SubmitEnqueueFiles(s, a);
    case SubmitDiscard(_, _, _) => SubmitDiscardFiles(s, a.tid, a.drawn, a.fault);
    case _ => SubmitRests(s, a.tid, a.drawn, a.fault);
  }

  lemma SubmitRests(s: System, tid: TaskId, drawn: JobId, fault: Fault)
    requires tid in s.tasks && !s.tasks[tid].SubmitCheck? && !s.tasks[tid].SubmitLookup? && !s.tasks[tid].SubmitMkdir?
    requires !s.tasks[tid].SubmitMove? && !s.tasks[tid].SubmitEnqueue? && !s.tasks[tid].SubmitDiscard?
    ensures NextSubmit(s, tid, drawn, fault) == s
  {}

  lemma InvFiles(s: System)
    requires Inv(s)
    ensures FilesOk(s) && WorkerOk(s)
  {}

  lemma RetryAdvanceFiles(s: System, a: Action)
    requires Inv(s) && a.RetryAdvance? && a.tid in s.tasks
    ensures FilesOk(Next(s, a))
  {
    hide FilesOk, NextRetry, Apply, TablesOk, IdsOk, TasksOk, WorkerOk, OperationOk, InputOk;
    assert FilesOk(s) by { InvFiles(s); }
    NextLocal(s, a);
    match s.tasks[a.tid]
    case RetryRead(_) => RetryReadFiles(s, a.tid, a.drawn, a.fault, a.key);
    case RetryCheck(_, _) => RetryReadFiles(s, a.tid, a.drawn, a.fault, a.key);
    case RetryMkdir(_, _) => RetryMkdirFiles(s, a.tid, a.drawn, a.fault, a.key);
    case RetryCopy(_, _, _) => RetryCopyFiles(s, a.tid, a.drawn, a.fault, a.key);
    case RetryReread(_, _, _) => RetryRereadFiles(s, a.tid, a.drawn, a.fault, a.key);
    case RetryEnqueue(_, _, _, _, _) => RetryEnqueueFiles(s, a);
    case RetryLog(_) => RetryEndFiles(s, a.tid, a.drawn, a.fault, a.key);
    case RetryDiscard(_) => RetryEndFiles(s, a.tid, a.drawn, a.fault, a.key);
    case _ => RetryRests(s, a.tid, a.drawn, a.fault, a.key);
  }

  lemma RetryRests(s: System, tid: TaskId, drawn: JobId, fault: Fault, key: string)
    requires tid in s.tasks && !s.tasks[tid].RetryRead? && !s.tasks[tid].RetryCheck? && !s.tasks[tid].RetryMkdir?
    requires !s.tasks[tid].RetryCopy? && !s.tasks[tid].RetryReread? && !s.tasks[tid].RetryEnqueue?
    requires !s.tasks[tid].RetryLog? && !s.tasks[tid].RetryDiscard?
    ensures NextRetry(s, tid, drawn, fault, key) == s
  {}

  lemma TableActionFiles(s: System, a: Action)
    requires Inv(s) && TableAction(a)
    ensures FilesOk(Next(s, a))
  {
    hide FilesOk, Apply, JobsEvolve, Inv, NextOperation, CanClaim, OperationOf, Enqueued;
    StepEvolves(s, a);
    OutsideKeepsRows(s, a);
    InvFiles(s);
    TableFiles(s, Next(s, a));
  }

  lemma FilesInvariant(s: System, a: Action)
    requires Inv(s)
    ensures FilesOk(Next(s, a))
  {
    hide NextSubmit, NextRetry, NextRemoval, Apply, TablesOk, IdsOk, TasksOk, WorkerOk, OperationOk, InputOk,
      JobsEvolve, FilesOk, Expired, CanDelete;
    InvFiles(s);
    NextLocal(s, a);
    hide Next, NextPrograms;
    if TableAction(a) {
      TableActionFiles(s, a);
    } else if a.SubmitAdvance? {
      if a.tid in s.tasks { SubmitAdvanceFiles(s, a); }
    } else if a.RetryAdvance? {
      if a.tid in s.tasks { RetryAdvanceFiles(s, a); }
    } else if a.RemovalAdvance? {
      if a.tid in s.tasks { if s.tasks[a.tid].CleanDelete? {
                              CleanDeleteFiles(s, a); } else { RemovalFiles(s, a.tid); } }
    } else if a.DeleteCall? {
      DeleteCallFiles(s, a);
    } else if a.WorkerWrite? {
      WorkerWriteFiles(s);
    } else if a.Crash? {
      CrashFiles(s);
    } else {
      BeginFiles(s, a);
    }
  }

  /** Every action of every program, and every crash, keeps the invariant. */
  lemma NextKeeps(s: System, a: Action)
    requires Inv(s)
    ensures Inv(Next(s, a))
  {
    hide TablesOk, IdsOk, TasksOk, OperationOk, InputOk, WorkerOk, TablesAfter, NextPrograms;
    TablesAfterOk(s, a);
    FilesInvariant(s, a);
    WorkerKept(s, a);
    OperationKept(s, a);
  }

  lemma InitialOk()
    ensures Inv(Initial)
  {}

  ghost function RunActions(s: System, actions: seq<Action>): System
    decreases |actions|
  {
    if actions == [] then s else RunActions(Next(s, actions[0]), actions[1..])
  }

  lemma {:induction false} ReachableOk(s: System, actions: seq<Action>)
    requires Inv(s)
    ensures Inv(RunActions(s, actions))
    decreases |actions|
  {
    hide Inv, Next;
    if actions != [] {
      NextKeeps(s, actions[0]);
      ReachableOk(Next(s, actions[0]), actions[1..]);
    }
  }
}
