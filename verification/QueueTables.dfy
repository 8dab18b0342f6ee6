/**
 The tables of the remote queue and the effect of every transaction on them.

 Each `with self.transaction()` body of `RemoteQueueRepository` is one function from tables to
 tables.  A file is represented by its digest, a time stamp by a natural number.
 */
module QueueTables {
  import opened Options

  type JobId = string
  type Digest = string
  type Time = nat

  datatype State = Queued | Running | Completed | Failed | Cancelled {
    predicate Terminal() { Completed? || Failed? || Cancelled? }
  }

  datatype Mode = Normal | Draining | Switching | SelfTesting | Maintenance

  datatype Error = Error(code: string, message: string, retryable: bool)

  datatype Submission = Submission(archiveSha256: Digest, quality: string)

  datatype Job = Job(
    idempotencyKey: string, requestSha256: Digest, submission: Submission,
    configuration: Option<Digest>, parent: Option<JobId>,
    inputRoot: JobId, // the job directory whose input.zip the row names
    state: State, stage: string,
    error: Option<Error>, resultPath: Option<string>, resultSha256: Option<Digest>,
    attempt: nat, cancelRequested: bool,
    createdAt: Time, startedAt: Option<Time>, finishedAt: Option<Time>, expiresAt: Option<Time>,
    queueOrder: int, rowNumber: nat)

  datatype Event = Event(sequence: nat, state: State, stage: string)

  datatype Control = Control(paused: bool, maintenance: bool, mode: Mode, revision: nat)

  /** `events` groups the event rows by job; `nextRow` numbers job rows in insertion order. */
  datatype Tables = Tables(jobs: map<JobId, Job>, events: map<JobId, seq<Event>>, control: Control, nextRow: nat)

  datatype Operation =
    | Enqueue(id: JobId, key: string, request: Digest, submission: Submission, inputRoot: JobId,
              configuration: Option<Digest>, parent: Option<JobId>, now: Time)
    | SetControl(paused: Option<bool>, maintenance: Option<bool>, mode: Option<Mode>, expected: Option<nat>)
    | ClaimNext(now: Time)
    | Progress(id: JobId, stage: string)
    | Complete(id: JobId, path: string, sha256: Digest, now: Time, ttl: nat)
    | Fail(id: JobId, error: Error, now: Time, ttl: nat)
    | Cancel(id: JobId, now: Time, ttl: nat)
    | Recover
    | Reorder(ids: seq<JobId>, revision: nat)
    | Delete(id: JobId, terminalOnly: bool)

  const EmptyTables := Tables(map[], map[], Control(false, false, Normal, 0), 0)

  // ---------------------------------------------------------------- event log

  function LogOf(t: Tables, id: JobId): seq<Event> {
    if id in t.events then t.events[id] else []
  }

  /** COALESCE(MAX(sequence),-1)+1 over the rows of one job. */
  function NextSequence(log: seq<Event>): nat {
    if log == [] then 0 else
    var others := NextSequence(log[..|log| - 1]);
    var last := log[|log| - 1].sequence + 1;
    if others <= last then last else others
  }

  function AppendEvent(t: Tables, id: JobId, state: State, stage: string): Tables {
    var log := LogOf(t, id);
    t.(events := t.events[id := log + [Event(NextSequence(log), state, stage)]])
  }

  // ---------------------------------------------------------------- reads

  ghost function FindByKey(t: Tables, key: string): (r: Option<JobId>)
    ensures r.None? ==> forall id | id in t.jobs :: t.jobs[id].idempotencyKey != key
    ensures r.Some? ==> r.value in t.jobs && t.jobs[r.value].idempotencyKey == key
  {
    if id :| id in t.jobs && t.jobs[id].idempotencyKey == key then Some(id) else None
  }

  /** MAX(queue_order) over all rows, 0 for an empty table. */
  ghost function MaxOrder(jobs: map<JobId, Job>): (m: int)
    ensures forall id | id in jobs :: jobs[id].queueOrder <= m
    ensures if jobs == map[] then m == 0 else exists id | id in jobs :: jobs[id].queueOrder == m
    decreases |jobs|
  {
    if jobs == map[] then 0 else
    var id :| id in jobs;
    var rest := jobs - {id};
    assert forall other | other in jobs :: other == id || other in rest;
    if rest == map[] || MaxOrder(rest) <= jobs[id].queueOrder then jobs[id].queueOrder else MaxOrder(rest)
  }

  /** ORDER BY queue_order,created_at; exact ties fall back to insertion order. */
  predicate Before(a: Job, b: Job) {
    || a.queueOrder < b.queueOrder
    || (a.queueOrder == b.queueOrder && a.createdAt < b.createdAt)
    || (a.queueOrder == b.queueOrder && a.createdAt == b.createdAt && a.rowNumber < b.rowNumber)
  }

  ghost function IdsIn(t: Tables, state: State): set<JobId> {
    set id | id in t.jobs && t.jobs[id].state == state
  }

  ghost predicate IsHead(t: Tables, id: JobId) {
    && id in t.jobs && t.jobs[id].state == Queued
    && forall other | other in t.jobs && t.jobs[other].state == Queued && other != id ::
         Before(t.jobs[id], t.jobs[other])
  }

  ghost function Head(t: Tables): (r: Option<JobId>)
    ensures r.Some? ==> IsHead(t, r.value)
  {
    if id :| IsHead(t, id) then Some(id) else None
  }

  // ---------------------------------------------------------------- one-row updates

  function StageName(state: State): string {
    match state
    case Queued => "queued"
    case Running => "starting"
    case Completed => "completed"
    case Failed => "failed"
    case Cancelled => "cancelled"
  }

  function SetJob(t: Tables, id: JobId, job: Job): Tables {
    AppendEvent(t.(jobs := t.jobs[id := job]), id, job.state, job.stage)
  }

  // ---------------------------------------------------------------- transactions

  ghost function EnqueueRow(t: Tables, op: Operation): Tables
    requires op.Enqueue?
  {
    if FindByKey(t, op.key).Some? || op.id in t.jobs then t
    else SetJob(t.(nextRow := t.nextRow + 1), op.id,
                Job(op.key, op.request, op.submission, op.configuration, op.parent, op.inputRoot, Queued, "queued",
                    None, None, None, 0, false, op.now, None, None, None, MaxOrder(t.jobs) + 1, t.nextRow))
  }

  function ChangeControl(t: Tables, paused: Option<bool>, maintenance: Option<bool>, mode: Option<Mode>,
                         expected: Option<nat>): Tables {
    if expected.Some? && t.control.revision != expected.value then t
    else t.(control := Control(
           if paused.Some? then paused.value else t.control.paused,
           if maintenance.Some? then maintenance.value else t.control.maintenance,
           if mode.Some? then mode.value else t.control.mode,
           t.control.revision + 1))
  }

  ghost predicate CanClaim(t: Tables) {
    !t.control.paused && !t.control.maintenance && Head(t).Some?
  }

  ghost function ClaimHead(t: Tables, now: Time): Tables {
    if !CanClaim(t) then t
    else var id := Head(t).value;
         SetJob(t, id, t.jobs[id].(state := Running, stage := "starting", startedAt := Some(now)))
  }

  predicate IsRunning(t: Tables, id: JobId) { id in t.jobs && t.jobs[id].state == Running }

  function ReportProgress(t: Tables, id: JobId, stage: string): Tables {
    if !IsRunning(t, id) then t else SetJob(t, id, t.jobs[id].(stage := stage))
  }

  function FinishJob(t: Tables, id: JobId, state: State, error: Option<Error>, path: Option<string>,
                     sha256: Option<Digest>, now: Time, ttl: nat): Tables {
    if !IsRunning(t, id) then t
    else SetJob(t, id, t.jobs[id].(state := state, stage := StageName(state), error := error, resultPath := path,
                resultSha256 := sha256, finishedAt := Some(now), expiresAt := Some(now + ttl)))
  }

  function CancelJob(t: Tables, id: JobId, now: Time, ttl: nat): Tables {
    if id !in t.jobs || t.jobs[id].state.Terminal() then t
    else SetJob(t, id, t.jobs[id].(state := Cancelled, stage := "cancelled", cancelRequested := true,
                finishedAt := Some(now), expiresAt := Some(now + ttl)))
  }

  function Requeued(job: Job): Job {
    job.(state := Queued, stage := "recovered", attempt := job.attempt + 1, startedAt := None)
  }

  function RecoveredLog(t: Tables, id: JobId): seq<Event>
    requires id in t.events
  {
    if IsRunning(t, id) then t.events[id] + [Event(NextSequence(t.events[id]), Queued, "recovered")] else t.events[id]
  }

  function RecoverAll(t: Tables): Tables {
    var jobs := map id | id in t.jobs :: if t.jobs[id].state == Running then Requeued(t.jobs[id]) else t.jobs[id];
    t.(jobs := jobs, events := map id | id in t.events :: RecoveredLog(t, id))
  }

  ghost predicate ReorderAccepted(t: Tables, ids: seq<JobId>, revision: nat) {
    && t.control.revision == revision
    && (set id | id in ids) == IdsIn(t, Queued)
    && |ids| == |IdsIn(t, Queued)|
  }

  function IndexOf(ids: seq<JobId>, id: JobId): (k: nat)
    requires id in ids
    ensures k < |ids| && ids[k] == id
  {
    if ids[0] == id then 0 else 1 + IndexOf(ids[1..], id)
  }

  ghost function InstallOrder(t: Tables, ids: seq<JobId>, revision: nat): Tables {
    if !ReorderAccepted(t, ids, revision) then t
    else t.(jobs := map id | id in t.jobs ::
           if id in ids then t.jobs[id].(queueOrder := IndexOf(ids, id) + 1) else t.jobs[id],
           control := t.control.(revision := revision + 1))
  }

  predicate Expired(t: Tables, id: JobId, now: Time) {
    id in t.jobs && t.jobs[id].state.Terminal() && t.jobs[id].expiresAt.Some? && t.jobs[id].expiresAt.value <= now
  }

  predicate CanDelete(t: Tables, id: JobId, terminalOnly: bool) {
    id in t.jobs && (terminalOnly ==> t.jobs[id].state.Terminal())
  }

  /** The event rows go with the job (ON DELETE CASCADE). */
  function DeleteRow(t: Tables, id: JobId, terminalOnly: bool): Tables {
    if !CanDelete(t, id, terminalOnly) then t else t.(jobs := t.jobs - {id}, events := t.events - {id})
  }

  ghost function Apply(t: Tables, op: Operation): Tables {
    match op
    case Enqueue(_, _, _, _, _, _, _, _) => EnqueueRow(t, op)
    case SetControl(paused, maintenance, mode, expected) => ChangeControl(t, paused, maintenance, mode, expected)
    case ClaimNext(now) => ClaimHead(t, now)
    case Progress(id, stage) => ReportProgress(t, id, stage)
    case Complete(id, path, sha256, now, ttl) => FinishJob(t, id, Completed, None, Some(path), Some(sha256), now, ttl)
    case Fail(id, error, now, ttl) => FinishJob(t, id, Failed, Some(error), None, None, now, ttl)
    case Cancel(id, now, ttl) => CancelJob(t, id, now, ttl)
    case Recover => RecoverAll(t)
    case Reorder(ids, revision) => InstallOrder(t, ids, revision)
    case Delete(id, terminalOnly) => DeleteRow(t, id, terminalOnly)
  }

  ghost function Run(t: Tables, ops: seq<Operation>): Tables
    decreases |ops|
  {
    if ops == [] then t else Run(Apply(t, ops[0]), ops[1..])
  }

  // ---------------------------------------------------------------- the invariant

  predicate Edge(a: State, b: State) {
    (a == Queued && (b == Running || b == Cancelled)) || a == Running
  }

  /** What a log says about its row: the last state and stage, the recoveries, and whether this attempt was claimed. */
  datatype Summary = Summary(state: State, stage: string, attempt: nat, started: bool)

  function Step(s: Summary, e: Event): Summary {
    Summary(e.state, e.stage, s.attempt + (if e.state == Queued then 1 else 0),
            e.state == Running || (e.state.Terminal() && s.state == Running))
  }

  /** Replays a log; None when it is not a numbered walk through the life cycle. */
  function Replay(log: seq<Event>): Option<Summary> {
    if log == [] then None else
    var front, e := log[..|log| - 1], log[|log| - 1];
    if e.sequence != |log| - 1 then None
    else if front == [] then if e.state == Queued then Some(Summary(Queued, e.stage, 0, false)) else None
    else var s := Replay(front);
         if s.None? || !Edge(s.value.state, e.state) then None else Some(Step(s.value, e))
  }

  /** The row is what its log replays to, and its optional columns are set exactly when the state demands. */
  predicate JobOk(job: Job, log: seq<Event>) {
    && Replay(log) == Some(Summary(job.state, job.stage, job.attempt, job.startedAt.Some?))
    && ColumnsMatchState(job)
  }

  predicate ColumnsMatchState(job: Job) {
    && (job.resultPath.Some? <==> job.state == Completed)
    && (job.resultSha256.Some? <==> job.state == Completed)
    && (job.error.Some? <==> job.state == Failed)
    && (job.finishedAt.Some? <==> job.state.Terminal())
    && (job.expiresAt.Some? <==> job.state.Terminal())
    && (job.cancelRequested <==> job.state == Cancelled)
  }

  ghost predicate RowOk(t: Tables, id: JobId)
    requires id in t.jobs
  {
    id in t.events && JobOk(t.jobs[id], t.events[id]) && t.jobs[id].rowNumber < t.nextRow
  }

  ghost predicate Distinct(t: Tables) {
    forall a, b | a in t.jobs && b in t.jobs && a != b ::
      t.jobs[a].idempotencyKey != t.jobs[b].idempotencyKey && t.jobs[a].rowNumber != t.jobs[b].rowNumber
  }

  ghost predicate TablesOk(t: Tables) {
    && t.events.Keys == t.jobs.Keys
    && (forall id | id in t.jobs :: RowOk(t, id))
    && Distinct(t)
  }

  // ---------------------------------------------------------------- proofs

  lemma DistinctRows(t: Tables)
    requires TablesOk(t)
    ensures Distinct(t) && t.events.Keys == t.jobs.Keys
  {}

  lemma {:induction false} NextSequenceOfReplay(log: seq<Event>)
    requires Replay(log).Some?
    ensures NextSequence(log) == |log|
  {
    if |log| > 1 { NextSequenceOfReplay(log[..|log| - 1]); }
  }

  function Logged(log: seq<Event>, job: Job): seq<Event> {
    log + [Event(NextSequence(log), job.state, job.stage)]
  }

  /** A legal transition together with its event keeps a row and its log in step. */
  lemma TransitionOk(job: Job, log: seq<Event>, job': Job)
    requires JobOk(job, log) && Edge(job.state, job'.state) && ColumnsMatchState(job')
    requires job'.startedAt.Some? <==> job'.state == Running || (job'.state.Terminal() && job.state == Running)
    requires job'.attempt == job.attempt + if job'.state == Queued then 1 else 0
    ensures JobOk(job', Logged(log, job'))
  {
    NextSequenceOfReplay(log);
    assert Logged(log, job')[..|log|] == log;
  }

  /** Rows that keep their key and row number stay distinct. */
  lemma DistinctKept(t: Tables, t': Tables)
    requires Distinct(t) && t'.jobs.Keys <= t.jobs.Keys
    requires forall id | id in t'.jobs ::
               t'.jobs[id].idempotencyKey == t.jobs[id].idempotencyKey && t'.jobs[id].rowNumber == t.jobs[id].rowNumber
    ensures Distinct(t')
  {}

  lemma RowKept(t: Tables, t': Tables, id: JobId)
    requires id in t.jobs && RowOk(t, id) && id in t'.jobs && id in t'.events
    requires t'.jobs[id] == t.jobs[id] && t'.events[id] == t.events[id] && t.nextRow <= t'.nextRow
    ensures RowOk(t', id)
  {}

  lemma RowStepped(t: Tables, id: JobId, job: Job)
    requires id in t.jobs && RowOk(t, id) && Edge(t.jobs[id].state, job.state) && ColumnsMatchState(job)
    requires job.rowNumber == t.jobs[id].rowNumber
    requires job.startedAt.Some? <==> job.state == Running || (job.state.Terminal() && t.jobs[id].state == Running)
    requires job.attempt == t.jobs[id].attempt + if job.state == Queued then 1 else 0
    ensures RowOk(SetJob(t, id, job), id)
  {
    TransitionOk(t.jobs[id], t.events[id], job);
    assert SetJob(t, id, job).events[id] == Logged(t.events[id], job);
  }

  lemma StepOk(t: Tables, id: JobId, job: Job)
    requires TablesOk(t) && id in t.jobs && Edge(t.jobs[id].state, job.state) && ColumnsMatchState(job)
    requires job.idempotencyKey == t.jobs[id].idempotencyKey && job.rowNumber == t.jobs[id].rowNumber
    requires job.startedAt.Some? <==> job.state == Running || (job.state.Terminal() && t.jobs[id].state == Running)
    requires job.attempt == t.jobs[id].attempt + if job.state == Queued then 1 else 0
    ensures TablesOk(SetJob(t, id, job))
  {
    var t' := SetJob(t, id, job);
    forall other | other in t'.jobs ensures RowOk(t', other) {
      if other == id { RowStepped(t, id, job); } else { RowKept(t, t', other); }
    }
    DistinctKept(t, t');
  }

  lemma NewRowOk(t: Tables, op: Operation)
    requires op.Enqueue? && FindByKey(t, op.key).None? && op.id !in t.jobs && op.id !in t.events
    ensures op.id in EnqueueRow(t, op).jobs && RowOk(EnqueueRow(t, op), op.id)
  {}

  lemma EnqueueOk(t: Tables, op: Operation)
    requires TablesOk(t) && op.Enqueue?
    ensures TablesOk(EnqueueRow(t, op))
  {
    hide JobOk;
    var t' := EnqueueRow(t, op);
    if t' != t {
      NewRowOk(t, op);
      forall other | other in t'.jobs && other != op.id ensures RowOk(t', other) {
        RowKept(t, t', other);
      }
      EnqueueDistinct(t, op);
    }
  }

  lemma EnqueueDistinct(t: Tables, op: Operation)
    requires op.Enqueue? && Distinct(t) && forall id | id in t.jobs :: t.jobs[id].rowNumber < t.nextRow
    ensures Distinct(EnqueueRow(t, op))
  {}

  lemma ClaimOk(t: Tables, now: Time)
    requires TablesOk(t)
    ensures TablesOk(ClaimHead(t, now))
  {
    if CanClaim(t) {
      var id := Head(t).value;
      assert RowOk(t, id);
      StepOk(t, id, t.jobs[id].(state := Running, stage := "starting", startedAt := Some(now)));
    }
  }

  lemma ProgressOk(t: Tables, id: JobId, stage: string)
    requires TablesOk(t)
    ensures TablesOk(ReportProgress(t, id, stage))
  {
    if IsRunning(t, id) {
      assert RowOk(t, id);
      StepOk(t, id, t.jobs[id].(stage := stage));
    }
  }

  lemma FinishOk(t: Tables, id: JobId, state: State, error: Option<Error>, path: Option<string>, sha256: Option<Digest>,
                 now: Time, ttl: nat)
    requires TablesOk(t)
    requires (state == Completed && error.None? && path.Some? && sha256.Some?)
             || (state == Failed && error.Some? && path.None? && sha256.None?)
    ensures TablesOk(FinishJob(t, id, state, error, path, sha256, now, ttl))
  {
    if IsRunning(t, id) {
      assert RowOk(t, id);
      StepOk(t, id, t.jobs[id].(state := state, stage := StageName(state), error := error, resultPath := path,
             resultSha256 := sha256, finishedAt := Some(now), expiresAt := Some(now + ttl)));
    }
  }

  lemma CancelOk(t: Tables, id: JobId, now: Time, ttl: nat)
    requires TablesOk(t)
    ensures TablesOk(CancelJob(t, id, now, ttl))
  {
    if id in t.jobs && !t.jobs[id].state.Terminal() {
      assert RowOk(t, id);
      StepOk(t, id, t.jobs[id].(state := Cancelled, stage := "cancelled", cancelRequested := true,
             finishedAt := Some(now), expiresAt := Some(now + ttl)));
    }
  }

  lemma RecoveredRow(t: Tables, id: JobId)
    requires id in t.jobs && RowOk(t, id)
    ensures RowOk(RecoverAll(t), id)
  {
    if t.jobs[id].state == Running {
      TransitionOk(t.jobs[id], t.events[id], Requeued(t.jobs[id]));
    } else {
      RowKept(t, RecoverAll(t), id);
    }
  }

  lemma RecoverOk(t: Tables)
    requires TablesOk(t)
    ensures TablesOk(RecoverAll(t))
  {
    var t' := RecoverAll(t);
    forall id | id in t'.jobs ensures RowOk(t', id) { RecoveredRow(t, id); }
    DistinctKept(t, t');
  }

  lemma ReorderOk(t: Tables, ids: seq<JobId>, revision: nat)
    requires TablesOk(t)
    ensures TablesOk(InstallOrder(t, ids, revision))
  {
    var t' := InstallOrder(t, ids, revision);
    forall id | id in t'.jobs ensures RowOk(t', id) { ReorderedRow(t, ids, revision, id); }
    DistinctKept(t, t');
  }

  lemma ReorderedRow(t: Tables, ids: seq<JobId>, revision: nat, id: JobId)
    requires id in t.jobs && RowOk(t, id)
    ensures RowOk(InstallOrder(t, ids, revision), id)
  {}

  lemma DeleteOk(t: Tables, id: JobId, terminalOnly: bool)
    requires TablesOk(t)
    ensures TablesOk(DeleteRow(t, id, terminalOnly))
  {
    var t' := DeleteRow(t, id, terminalOnly);
    forall other | other in t'.jobs ensures RowOk(t', other) { RowKept(t, t', other); }
    DistinctKept(t, t');
  }

  lemma ControlOk(t: Tables, paused: Option<bool>, maintenance: Option<bool>, mode: Option<Mode>, expected: Option<nat>)
    requires TablesOk(t)
    ensures TablesOk(ChangeControl(t, paused, maintenance, mode, expected))
  {
    var t' := ChangeControl(t, paused, maintenance, mode, expected);
    forall id | id in t'.jobs ensures RowOk(t', id) { RowKept(t, t', id); }
    DistinctKept(t, t');
  }

  /** Every transaction keeps every log a numbered walk that its row agrees with, and keys unique. */
  lemma ApplyOk(t: Tables, op: Operation)
    requires TablesOk(t)
    ensures TablesOk(Apply(t, op))
  {
    match op
    case Enqueue(_, _, _, _, _, _, _, _) => EnqueueOk(t, op);
    case SetControl(paused, maintenance, mode, expected) => ControlOk(t, paused, maintenance, mode, expected);
    case ClaimNext(now) => ClaimOk(t, now);
    case Progress(id, stage) => ProgressOk(t, id, stage);
    case Complete(id, path, sha256, now, ttl) => FinishOk(t, id, Completed, None, Some(path), Some(sha256), now, ttl);
    case Fail(id, error, now, ttl) => FinishOk(t, id, Failed, Some(error), None, None, now, ttl);
    case Cancel(id, now, ttl) => CancelOk(t, id, now, ttl);
    case Recover => RecoverOk(t);
    case Reorder(ids, revision) => ReorderOk(t, ids, revision);
    case Delete(id, terminalOnly) => DeleteOk(t, id, terminalOnly);
  }

  /** The invariant holds after any run of transactions. */
  lemma {:induction false} RunOk(t: Tables, ops: seq<Operation>)
    requires TablesOk(t)
    ensures TablesOk(Run(t, ops))
    decreases |ops|
  {
    if ops != [] {
      ApplyOk(t, ops[0]);
      RunOk(Apply(t, ops[0]), ops[1..]);
    }
  }

  /** The walk, event by event. */
  ghost predicate Walk(log: seq<Event>) {
    && |log| > 0 && log[0].state == Queued
    && (forall k | 0 <= k < |log| :: log[k].sequence == k)
    && (forall i, j | 0 <= i < |log| && 0 <= j < |log| && j == i + 1 :: Edge(log[i].state, log[j].state))
  }

  /** A log replays exactly when it is a walk. */
  lemma {:induction false} ReplayIffWalk(log: seq<Event>)
    ensures Replay(log).Some? <==> Walk(log)
    ensures Replay(log).Some? ==> Replay(log).value.state == log[|log| - 1].state
  {
    if |log| > 1 {
      var front := log[..|log| - 1];
      ReplayIffWalk(front);
      assert Walk(log) ==> Edge(front[|front| - 1].state, log[|log| - 1].state);
    }
  }

  /** A replayable log has at most one terminal event, and it is the last one. */
  lemma {:induction false} TerminalEventIsLast(log: seq<Event>, k: nat)
    requires Replay(log).Some? && k < |log| && log[k].state.Terminal()
    ensures k == |log| - 1
  {
    ReplayIffWalk(log);
    assert k + 1 < |log| ==> Edge(log[k].state, log[k + 1].state);
  }

  /** What one transaction may do to a row that is still there afterwards. */
  ghost predicate RowEvolves(t: Tables, t': Tables, id: JobId)
    requires id in t.jobs && id in t'.jobs
  {
    && LogOf(t, id) <= LogOf(t', id)
    && (t.jobs[id].state.Terminal() ==> t'.jobs[id] == t.jobs[id] && LogOf(t', id) == LogOf(t, id))
    && t'.jobs[id].idempotencyKey == t.jobs[id].idempotencyKey
    && t'.jobs[id].requestSha256 == t.jobs[id].requestSha256
    && t'.jobs[id].submission == t.jobs[id].submission
    && t'.jobs[id].configuration == t.jobs[id].configuration
    && t'.jobs[id].inputRoot == t.jobs[id].inputRoot
  }

  lemma ReorderEvolves(t: Tables, ids: seq<JobId>, revision: nat, id: JobId)
    requires id in t.jobs
    ensures id in InstallOrder(t, ids, revision).jobs && RowEvolves(t, InstallOrder(t, ids, revision), id)
  {
    if ReorderAccepted(t, ids, revision) && id in ids { assert id in IdsIn(t, Queued); }
  }

  lemma SetJobEvolves(t: Tables, target: JobId, job: Job, id: JobId)
    requires id in t.jobs && target in t.jobs && !t.jobs[target].state.Terminal()
    requires job.idempotencyKey == t.jobs[target].idempotencyKey && job.requestSha256 == t.jobs[target].requestSha256
    requires job.submission == t.jobs[target].submission && job.configuration == t.jobs[target].configuration
    requires job.inputRoot == t.jobs[target].inputRoot
    ensures id in SetJob(t, target, job).jobs && RowEvolves(t, SetJob(t, target, job), id)
  {}

  /** Logs only grow, terminal rows are frozen, identity columns never change, and rows go only by Delete. */
  lemma ApplyEvolves(t: Tables, op: Operation, id: JobId)
    requires t.events.Keys == t.jobs.Keys && id in t.jobs
    ensures var t' := Apply(t, op);
            if id in t'.jobs then RowEvolves(t, t', id)
            else op.Delete? && op.id == id && (op.terminalOnly ==> t.jobs[id].state.Terminal())
  {
    match op
    case Reorder(ids, revision) => ReorderEvolves(t, ids, revision, id);
    case Recover => assert RowEvolves(t, RecoverAll(t), id);
    case Delete(_, _) =>
    case SetControl(_, _, _, _) =>
    case Enqueue(_, _, _, _, _, _, _, _) => EnqueueEvolves(t, op, id);
    case ClaimNext(now) =>
      hide SetJob;
      if CanClaim(t) {
        var head := Head(t).value;
        assert IsHead(t, head);
        SetJobEvolves(t, head, t.jobs[head].(state := Running, stage := "starting", startedAt := Some(now)), id);
      }
    case Progress(target, stage) =>
      hide SetJob;
      if IsRunning(t, target) { SetJobEvolves(t, target, t.jobs[target].(stage := stage), id); }
    case Complete(target, path, sha256, now, ttl) => FinishEvolves(t, target, Completed, None, Some(path), Some(sha256),
                                                                   now, ttl, id);
    case Fail(target, error, now, ttl) => FinishEvolves(t, target, Failed, Some(error), None, None, now, ttl, id);
    case Cancel(target, now, ttl) =>
      hide SetJob;
      if target in t.jobs && !t.jobs[target].state.Terminal() {
        SetJobEvolves(t, target, t.jobs[target].(state := Cancelled, stage := "cancelled", cancelRequested := true,
                      finishedAt := Some(now), expiresAt := Some(now + ttl)), id);
      }
  }

  lemma EnqueueEvolves(t: Tables, op: Operation, id: JobId)
    requires op.Enqueue? && id in t.jobs
    ensures id in EnqueueRow(t, op).jobs && RowEvolves(t, EnqueueRow(t, op), id)
  {}

  lemma FinishEvolves(t: Tables, target: JobId, state: State, error: Option<Error>, path: Option<string>,
                      sha256: Option<Digest>,
                      now: Time, ttl: nat, id: JobId)
    requires id in t.jobs
    ensures var t' := FinishJob(t, target, state, error, path, sha256, now, ttl); id in t'.jobs && RowEvolves(t, t', id)
  {
    hide SetJob;
    if IsRunning(t, target) {
      SetJobEvolves(t, target, t.jobs[target].(state := state, stage := StageName(state), error := error,
                    resultPath := path,
                    resultSha256 := sha256, finishedAt := Some(now), expiresAt := Some(now + ttl)), id);
    }
  }
}
