/** RemoteQueueRepository: tables changed in place, one method per transaction. */
module QueueRepository {
  import opened Options
  import opened QueueTables
  import opened Sequences
  import QueueOrder

  datatype EnqueueOutcome = Accepted(id: JobId, created: bool) | IdempotencyConflict | ConstraintViolation
  datatype ReorderOutcome = Reordered | QueueRevisionConflict | InvalidQueueOperation
  datatype DeleteOutcome = Deleted | Missing | NotTerminal

  /** What an enqueue answers: the row that holds the key, a conflict with it, or a new row. */
  ghost function EnqueueAnswer(t: Tables, id: JobId, key: string, request: Digest): EnqueueOutcome {
    match FindByKey(t, key)
    case Some(held) => if t.jobs[held].requestSha256 == request then Accepted(held, false) else IdempotencyConflict
    case None => if id in t.jobs then ConstraintViolation else Accepted(id, true)
  }

  /** Every other row is as it was. */
  ghost predicate OthersKept(before: map<JobId, Job>, jobs: map<JobId, Job>, id: JobId) {
    jobs.Keys - {id} == before.Keys - {id} && forall other | other in jobs && other != id ::
      other in before && jobs[other] == before[other]
  }

  lemma MaxOrderUnique(jobs: map<JobId, Job>, m: int)
    requires forall id | id in jobs :: jobs[id].queueOrder <= m
    requires if jobs == map[] then m == 0 else exists id | id in jobs :: jobs[id].queueOrder == m
    ensures m == MaxOrder(jobs)
  {}

  lemma HeadIs(t: Tables, id: JobId)
    requires IsHead(t, id)
    ensures Head(t) == Some(id)
  {
    assert forall other | IsHead(t, other) :: other == id;
  }

  /** The tables after the jobs in `done` have been put back. */
  ghost function RequeuedTables(t: Tables, done: set<JobId>): Tables {
    var jobs := map id | id in t.jobs :: if id in done then Requeued(t.jobs[id]) else t.jobs[id];
    t.(jobs := jobs, events := map id | id in t.events :: RequeuedLog(t, done, id))
  }

  ghost function RequeuedLog(t: Tables, done: set<JobId>, id: JobId): seq<Event>
    requires id in t.events
  {
    if id in done then t.events[id] + [Event(NextSequence(t.events[id]), Queued, "recovered")] else t.events[id]
  }

  lemma RequeueOne(t: Tables, done: set<JobId>, id: JobId)
    requires id in t.jobs && id in t.events && id !in done
    ensures id in RequeuedTables(t, done).jobs && RequeuedTables(t, done).jobs[id] == t.jobs[id]
    ensures SetJob(RequeuedTables(t, done), id, Requeued(t.jobs[id])) == RequeuedTables(t, done + {id})
  {
    var next, goal := SetJob(RequeuedTables(t, done), id, Requeued(t.jobs[id])), RequeuedTables(t, done + {id});
    assert next.jobs == goal.jobs;
    assert next.events == goal.events;
  }

  lemma RequeuedAll(t: Tables)
    ensures RequeuedTables(t, {}) == t
    ensures RequeuedTables(t, IdsIn(t, Running)) == RecoverAll(t)
  {
    assert RequeuedTables(t, {}).jobs == t.jobs && RequeuedTables(t, {}).events == t.events;
    assert RequeuedTables(t, IdsIn(t, Running)).jobs == RecoverAll(t).jobs;
    assert RequeuedTables(t, IdsIn(t, Running)).events == RecoverAll(t).events;
  }

  lemma RecoverLeavesNoneRunning(t: Tables)
    ensures forall id :: !IsRunning(RecoverAll(t), id)
    ensures Apply(t, Recover) == RecoverAll(t)
  {}

  lemma ListedIn(ids: seq<JobId>, listed: set<JobId>)
    requires (set id | id in ids) == listed
    ensures forall id | id in ids :: id in listed
  {
    forall id | id in ids ensures id in listed { assert id in set x | x in ids; }
  }

  lemma RefusedReorder(t: Tables, ids: seq<JobId>, revision: nat)
    ensures !ReorderAccepted(t, ids, revision) ==> InstallOrder(t, ids, revision) == t
    ensures Apply(t, Reorder(ids, revision)) == InstallOrder(t, ids, revision)
  {}

  /** The rows after the first `k` jobs of the new order have been numbered. */
  ghost function NumberedJobs(jobs: map<JobId, Job>, ids: seq<JobId>, k: nat): map<JobId, Job>
    requires k <= |ids|
  {
    map id | id in jobs :: if id in ids[..k] then jobs[id].(queueOrder := IndexOf(ids, id) + 1) else jobs[id]
  }

  lemma NumberOne(jobs: map<JobId, Job>, ids: seq<JobId>, k: nat)
    requires k < |ids| && ids[k] in jobs && NoDuplicates(ids)
    ensures NumberedJobs(jobs, ids, k)[ids[k]] == jobs[ids[k]]
    ensures NumberedJobs(jobs, ids, k)[ids[k] := jobs[ids[k]].(queueOrder := k + 1)] == NumberedJobs(jobs, ids, k + 1)
  {
    IndexOfDistinct(ids, k);
    assert forall other :: other in ids[..k + 1] <==> other in ids[..k] || other == ids[k];
  }

  lemma NumberedAll(t: Tables, ids: seq<JobId>, revision: nat)
    requires ReorderAccepted(t, ids, revision)
    ensures InstallOrder(t, ids, revision)
         == t.(jobs := NumberedJobs(t.jobs, ids, |ids|), control := t.control.(revision := revision + 1))
  {
    assert ids[..|ids|] == ids;
    assert InstallOrder(t, ids, revision).jobs == NumberedJobs(t.jobs, ids, |ids|);
  }

  /** An accepted reorder numbers the given jobs from one and touches nothing else but the revision. */
  lemma ReorderNumbers(t: Tables, ids: seq<JobId>, revision: nat, k: nat)
    requires ReorderAccepted(t, ids, revision) && k < |ids|
    ensures var t' := InstallOrder(t, ids, revision);
            && ids[k] in t'.jobs && t'.jobs[ids[k]].queueOrder == k + 1
            && t'.jobs.Keys == t.jobs.Keys && (forall id | id in t.jobs && id !in ids :: t'.jobs[id] == t.jobs[id])
            && t'.events == t.events && t'.control == t.control.(revision := revision + 1)
  {
    QueueOrder.DistinctLength(ids);
    IndexOfDistinct(ids, k);
    assert ids[k] in IdsIn(t, Queued);
  }

  /** A new job has the given columns and a one-event log, and goes behind every job there is. */
  lemma NewJobGoesLast(t: Tables, op: Operation)
    requires op.Enqueue? && TablesOk(t) && FindByKey(t, op.key).None? && op.id !in t.jobs
    ensures var t' := Apply(t, op);
            && t'.jobs.Keys == t.jobs.Keys + {op.id} && t'.events[op.id] == [Event(0, Queued, "queued")]
            && t'.jobs[op.id].submission == op.submission && t'.jobs[op.id].inputRoot == op.inputRoot
            && t'.jobs[op.id].configuration == op.configuration && t'.jobs[op.id].parent == op.parent
            && t'.jobs[op.id].createdAt == op.now
            && forall id | id in t.jobs :: t'.jobs[id] == t.jobs[id] && t'.events[id] == t.events[id]
                                           && t.jobs[id].queueOrder < t'.jobs[op.id].queueOrder
  {
    DistinctRows(t);
    hide TablesOk;
  }

  lemma {:induction false} IndexOfDistinct(ids: seq<JobId>, k: nat)
    requires k < |ids| && NoDuplicates(ids)
    ensures IndexOf(ids, ids[k]) == k
  {
    var j := IndexOf(ids, ids[k]);
    assert ids[j] == ids[k];
  }

  class RemoteQueueRepository {
    var jobs: map<JobId, Job>
    var events: map<JobId, seq<Event>>
    var control: Control
    var nextRow: nat

    function Stored(): Tables
      reads this
    {
      Tables(jobs, events, control, nextRow)
    }

    ghost predicate Valid()
      reads this
    {
      TablesOk(Stored())
    }

    constructor ()
      ensures Valid() && Stored() == EmptyTables
      ensures jobs == map[] && events == map[] && control == Control(false, false, Normal, 0)
    {
      jobs, events, control, nextRow := map[], map[], EmptyTables.control, 0;
    }

    // ---------------------------------------------------------------- selects

    method SelectByKey(key: string) returns (found: Option<JobId>)
      requires Distinct(Stored())
      ensures found == FindByKey(Stored(), key)
    {
      found := None;
      var pending := jobs.Keys;
      while pending != {} && found.None?
        invariant pending <= jobs.Keys
        invariant found.None? ==> forall id | id in jobs && id !in pending :: jobs[id].idempotencyKey != key
        invariant found.Some? ==> found.value in jobs && jobs[found.value].idempotencyKey == key
        decreases |pending|
      {
        var id :| id in pending;
        pending := pending - {id};
        if jobs[id].idempotencyKey == key { found := Some(id); }
      }
    }

    method SelectMaxOrder() returns (order: int)
      ensures order == MaxOrder(jobs)
    {
      order := 0;
      var pending := jobs.Keys;
      while pending != {}
        invariant pending <= jobs.Keys
        invariant forall id | id in jobs && id !in pending :: jobs[id].queueOrder <= order
        invariant if pending == jobs.Keys
                  then order == 0 else exists id | id in jobs && id !in pending :: jobs[id].queueOrder == order
        decreases |pending|
      {
        var id :| id in pending;
        if pending == jobs.Keys || jobs[id].queueOrder > order { order := jobs[id].queueOrder; }
        pending := pending - {id};
        assert id in jobs && id !in pending;
      }
      MaxOrderUnique(jobs, order);
    }

    method SelectHead() returns (head: Option<JobId>)
      requires Distinct(Stored())
      ensures head == Head(Stored())
    {
      head := None;
      var pending := jobs.Keys;
      while pending != {}
        invariant pending <= jobs.Keys
        invariant head.Some? ==> head.value in jobs && head.value !in pending && jobs[head.value].state == Queued
        invariant forall id | id in jobs && id !in pending && jobs[id].state == Queued ::
                    head.Some? && (id == head.value || Before(jobs[head.value], jobs[id]))
        decreases |pending|
      {
        var id :| id in pending;
        pending := pending - {id};
        if jobs[id].state == Queued && (head.None? || Before(jobs[id], jobs[head.value])) { head := Some(id); }
      }
      if head.Some? { HeadIs(Stored(), head.value); }
    }

    method SelectIds(state: State) returns (ids: seq<JobId>)
      ensures (set id | id in ids) == IdsIn(Stored(), state) && |ids| == |IdsIn(Stored(), state)|
    {
      ids := [];
      var pending := set id | id in jobs && jobs[id].state == state;
      assert pending == IdsIn(Stored(), state);
      while pending != {}
        invariant pending <= IdsIn(Stored(), state)
        invariant (set id | id in ids) == IdsIn(Stored(), state) - pending
        invariant |ids| + |pending| == |IdsIn(Stored(), state)|
        decreases |pending|
      {
        var id :| id in pending;
        pending := pending - {id};
        assert (set x | x in ids + [id]) == (set x | x in ids) + {id};
        ids := ids + [id];
      }
    }

    /** The finished jobs whose time to live is over. */
    method SelectExpired(now: Time) returns (ids: seq<JobId>)
      ensures forall id :: id in ids <==> Expired(Stored(), id, now)
      ensures NoDuplicates(ids)
    {
      ids := [];
      var pending := jobs.Keys;
      while pending != {}
        invariant pending <= jobs.Keys
        invariant forall id :: id in ids <==> Expired(Stored(), id, now) && id !in pending
        invariant NoDuplicates(ids)
        decreases |pending|
      {
        var id :| id in pending;
        pending := pending - {id};
        var row := jobs[id];
        if row.expiresAt.Some? && row.expiresAt.value <= now && (row.state == Completed || row.state == Failed
                                                                 || row.state == Cancelled) {
          assert id !in ids;
          ids := ids + [id];
        }
      }
    }

    method SelectNextSequence(id: JobId) returns (sequence: nat)
      ensures sequence == NextSequence(LogOf(Stored(), id))
    {
      var log := LogOf(Stored(), id);
      sequence := 0;
      for k := 0 to |log|
        invariant sequence == NextSequence(log[..k])
      {
        assert log[..k + 1][..k] == log[..k];
        if sequence < log[k].sequence + 1 { sequence := log[k].sequence + 1; }
      }
      assert log[..|log|] == log;
    }

    // ---------------------------------------------------------------- writes shared by the transactions

    method AppendLogEvent(id: JobId, state: State, stage: string)
      modifies this`events
      ensures Stored() == AppendEvent(old(Stored()), id, state, stage)
    {
      var sequence := SelectNextSequence(id);
      events := events[id := LogOf(Stored(), id) + [Event(sequence, state, stage)]];
    }

    method UpdateJob(id: JobId, job: Job)
      modifies this`jobs, this`events
      ensures Stored() == SetJob(old(Stored()), id, job)
    {
      jobs := jobs[id := job];
      AppendLogEvent(id, job.state, job.stage);
    }

    // ---------------------------------------------------------------- transactions

    method EnqueueJob(id: JobId, key: string, request: Digest, submission: Submission, inputRoot: JobId,
                      configuration: Option<Digest>, parent: Option<JobId>, now: Time) returns (r: EnqueueOutcome)
      requires Valid()
      modifies this
      ensures Valid()
      ensures Stored() == Apply(old(Stored()),
                                Enqueue(id, key, request, submission, inputRoot, configuration, parent, now))
      ensures r == EnqueueAnswer(old(Stored()), id, key, request)
      ensures r.Accepted? ==> r.id in jobs && jobs[r.id].idempotencyKey == key && jobs[r.id].requestSha256 == request
      ensures (r.Accepted? && r.created) || Stored() == old(Stored())
    {
      hide TablesOk, MaxOrder;
      DistinctRows(Stored());
      EnqueueOk(Stored(), Enqueue(id, key, request, submission, inputRoot, configuration, parent, now));
      var existing := SelectByKey(key);
      if existing.Some? {
        if jobs[existing.value].requestSha256 != request { return IdempotencyConflict; }
        return Accepted(existing.value, false);
      }
      if id in jobs { return ConstraintViolation; }
      var order := SelectMaxOrder();
      var row := nextRow;
      nextRow := nextRow + 1;
      UpdateJob(id, Job(key, request, submission, configuration, parent, inputRoot, Queued, "queued",
                        None, None, None, 0, false, now, None, None, None, order + 1, row));
      r := Accepted(id, true);
    }

    method SetQueueControl(paused: Option<bool>, maintenance: Option<bool>, mode: Option<Mode>, expected: Option<nat>)
      returns (ok: bool)
      requires Valid()
      modifies this
      ensures Valid() && Stored() == Apply(old(Stored()), SetControl(paused, maintenance, mode, expected))
      ensures ok <==> control.revision == old(control.revision) + 1
      ensures !ok <==> expected.Some? && expected.value != old(control.revision)
      ensures ok && paused.Some? ==> control.paused == paused.value
      ensures ok && maintenance.Some? ==> control.maintenance == maintenance.value
      ensures ok && mode.Some? ==> control.mode == mode.value
      ensures paused.None? ==> control.paused == old(control.paused)
      ensures maintenance.None? ==> control.maintenance == old(control.maintenance)
      ensures mode.None? ==> control.mode == old(control.mode)
    {
      hide TablesOk;
      ControlOk(Stored(), paused, maintenance, mode, expected);
      if expected.Some? && control.revision != expected.value { return false; }
      control := Control(
        if paused.Some? then paused.value else control.paused,
        if maintenance.Some? then maintenance.value else control.maintenance,
        if mode.Some? then mode.value else control.mode,
        control.revision + 1);
      ok := true;
    }

    method Claim(now: Time) returns (claimed: Option<JobId>)
      requires Valid()
      modifies this
      ensures Valid() && Stored() == Apply(old(Stored()), ClaimNext(now))
      ensures claimed.Some? <==> !control.paused && !control.maintenance && exists id :: IsHead(old(Stored()), id)
      ensures claimed.Some? ==> IsHead(old(Stored()), claimed.value) && IsRunning(Stored(), claimed.value)
      ensures claimed.Some? ==> jobs[claimed.value].startedAt == Some(now) && OthersKept(old(jobs), jobs, claimed.value)
    {
      hide TablesOk;
      DistinctRows(Stored());
      ClaimOk(Stored(), now);
      if control.paused || control.maintenance { return None; }
      claimed := SelectHead();
      if claimed.Some? {
        var id := claimed.value;
        UpdateJob(id, jobs[id].(state := Running, stage := "starting", startedAt := Some(now)));
      }
    }

    method ReportJobProgress(id: JobId, stage: string) returns (ok: bool)
      requires Valid()
      modifies this
      ensures Valid() && Stored() == Apply(old(Stored()), Progress(id, stage))
      ensures ok <==> IsRunning(old(Stored()), id)
      ensures ok ==> IsRunning(Stored(), id) && jobs[id].stage == stage && OthersKept(old(jobs), jobs, id)
    {
      hide TablesOk;
      ProgressOk(Stored(), id, stage);
      if id !in jobs || jobs[id].state != Running { return false; }
      UpdateJob(id, jobs[id].(stage := stage));
      ok := true;
    }

    method Finish(id: JobId, state: State, error: Option<Error>, path: Option<string>, sha256: Option<Digest>,
                  now: Time, ttl: nat)
      returns (ok: bool)
      requires Valid()
      requires (state == Completed && error.None? && path.Some? && sha256.Some?)
               || (state == Failed && error.Some? && path.None? && sha256.None?)
      modifies this
      ensures Valid() && Stored() == FinishJob(old(Stored()), id, state, error, path, sha256, now, ttl)
      ensures ok <==> IsRunning(old(Stored()), id)
    {
      hide TablesOk;
      FinishOk(Stored(), id, state, error, path, sha256, now, ttl);
      if id !in jobs || jobs[id].state != Running { return false; }
      UpdateJob(id, jobs[id].(state := state, stage := StageName(state), error := error, resultPath := path,
                resultSha256 := sha256, finishedAt := Some(now), expiresAt := Some(now + ttl)));
      ok := true;
    }

    method CompleteJob(id: JobId, path: string, sha256: Digest, now: Time, ttl: nat) returns (ok: bool)
      requires Valid()
      modifies this
      ensures Valid() && Stored() == Apply(old(Stored()), Complete(id, path, sha256, now, ttl))
      ensures ok <==> IsRunning(old(Stored()), id)
      ensures ok ==> OthersKept(old(jobs), jobs, id) && id in jobs && jobs[id].state == Completed
      ensures ok ==> jobs[id].resultPath == Some(path) && jobs[id].resultSha256 == Some(sha256)
      ensures ok ==> jobs[id].finishedAt == Some(now) && jobs[id].expiresAt == Some(now + ttl)
    {
      ok := Finish(id, Completed, None, Some(path), Some(sha256), now, ttl);
    }

    method FailJob(id: JobId, error: Error, now: Time, ttl: nat) returns (ok: bool)
      requires Valid()
      modifies this
      ensures Valid() && Stored() == Apply(old(Stored()), Fail(id, error, now, ttl))
      ensures ok <==> IsRunning(old(Stored()), id)
      ensures ok ==> OthersKept(old(jobs), jobs, id) && id in jobs && jobs[id].state == Failed
                     && jobs[id].error == Some(error)
      ensures ok ==> jobs[id].finishedAt == Some(now) && jobs[id].expiresAt == Some(now + ttl)
    {
      ok := Finish(id, Failed, Some(error), None, None, now, ttl);
    }

    method CancelById(id: JobId, now: Time, ttl: nat) returns (job: Option<Job>)
      requires Valid()
      modifies this
      ensures Valid() && Stored() == Apply(old(Stored()), Cancel(id, now, ttl))
      ensures if id in old(jobs) then job.Some? && id in jobs && job.value == jobs[id]
                                      && job.value.state.Terminal() else job.None?
      ensures OthersKept(old(jobs), jobs, id)
      ensures id in old(jobs) && old(jobs)[id].state.Terminal() ==> Stored() == old(Stored())
      ensures id in old(jobs) && !old(jobs)[id].state.Terminal() ==>
                jobs[id].state == Cancelled && jobs[id].finishedAt == Some(now) && jobs[id].expiresAt == Some(now + ttl)
    {
      hide TablesOk;
      CancelOk(Stored(), id, now, ttl);
      if id !in jobs { return None; }
      if jobs[id].state == Queued || jobs[id].state == Running {
        UpdateJob(id, jobs[id].(state := Cancelled, stage := "cancelled", cancelRequested := true,
                  finishedAt := Some(now), expiresAt := Some(now + ttl)));
      }
      job := Some(jobs[id]);
    }

    method RequeueEach(ids: seq<JobId>)
      requires NoDuplicates(ids) && forall id | id in ids :: id in jobs && id in events
      modifies this`jobs, this`events
      ensures Stored() == RequeuedTables(old(Stored()), set id | id in ids)
    {
      hide RequeuedTables, SetJob, Requeued, RecoverAll;
      ghost var before := Stored();
      ghost var done: set<JobId> := {};
      RequeuedAll(before);
      for k := 0 to |ids|
        invariant done == set i | 0 <= i < k :: ids[i]
        invariant Stored() == RequeuedTables(before, done)
      {
        RequeueOne(before, done, ids[k]);
        UpdateJob(ids[k], Requeued(jobs[ids[k]]));
        done := done + {ids[k]};
      }
      assert done == set id | id in ids;
    }

    method RecoverInterrupted() returns (ids: seq<JobId>)
      requires Valid()
      modifies this
      ensures Valid() && Stored() == Apply(old(Stored()), Recover)
      ensures (set id | id in ids) == IdsIn(old(Stored()), Running)
      ensures forall id :: !IsRunning(Stored(), id)
    {
      hide TablesOk, RequeuedTables, RecoverAll;
      ghost var before := Stored();
      DistinctRows(before);
      RecoverOk(before);
      RecoverLeavesNoneRunning(before);
      ids := SelectIds(Running);
      QueueOrder.DistinctLength(ids);
      RequeuedAll(before);
      ListedIn(ids, IdsIn(before, Running));
      RequeueEach(ids);
    }

    method NumberEach(ids: seq<JobId>)
      requires NoDuplicates(ids) && forall id | id in ids :: id in jobs && jobs[id].state == Queued
      modifies this`jobs
      ensures jobs == NumberedJobs(old(jobs), ids, |ids|)
    {
      assert NumberedJobs(jobs, ids, 0) == jobs;
      for k := 0 to |ids|
        invariant jobs == NumberedJobs(old(jobs), ids, k)
      {
        NumberOne(old(jobs), ids, k);
        if jobs[ids[k]].state == Queued { jobs := jobs[ids[k] := jobs[ids[k]].(queueOrder := k + 1)]; }
      }
    }

    method ReorderQueue(ids: seq<JobId>, revision: nat) returns (r: ReorderOutcome)
      requires Valid()
      modifies this
      ensures Valid() && Stored() == Apply(old(Stored()), Reorder(ids, revision))
      ensures r == QueueRevisionConflict <==> old(control.revision) != revision
      ensures r == Reordered <==> ReorderAccepted(old(Stored()), ids, revision)
    {
      hide TablesOk, IndexOf, InstallOrder, NumberedJobs;
      ReorderOk(Stored(), ids, revision);
      RefusedReorder(Stored(), ids, revision);
      if control.revision != revision { return QueueRevisionConflict; }
      var queued := SelectIds(Queued);
      if (set id | id in ids) != (set id | id in queued) || |ids| != |queued| { return InvalidQueueOperation; }
      QueueOrder.DistinctLength(ids);
      ListedIn(ids, IdsIn(Stored(), Queued));
      NumberedAll(Stored(), ids, revision);
      NumberEach(ids);
      control := control.(revision := control.revision + 1);
      r := Reordered;
    }

    method DeleteJob(id: JobId, terminalOnly: bool) returns (r: DeleteOutcome)
      requires Valid()
      modifies this
      ensures Valid() && Stored() == Apply(old(Stored()), Delete(id, terminalOnly))
      ensures r == Deleted <==> CanDelete(old(Stored()), id, terminalOnly)
      ensures r == Missing <==> id !in old(jobs)
      ensures jobs == if r == Deleted then old(jobs) - {id} else old(jobs)
      ensures id in jobs <==> r == NotTerminal
      ensures !terminalOnly ==> jobs == old(jobs) - {id}
    {
      hide TablesOk;
      DeleteOk(Stored(), id, terminalOnly);
      if id !in jobs { return Missing; }
      if terminalOnly && !jobs[id].state.Terminal() { return NotTerminal; }
      jobs := jobs - {id};
      events := events - {id};
      r := Deleted;
    }
  }
}
