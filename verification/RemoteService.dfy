/**
 The service's calls as the code writes them.

 Each method is proved against the interleaved machine: when nothing else moves, a call takes exactly
 the steps of its program, so what ServiceTheorems shows of the programs is about these calls.
 */
module RemoteService {
  import opened Options
  import opened QueueTables
  import opened QueueRepository
  import opened ServiceSystem

  /** What submit makes of the repository's answer. */
  function OutcomeOf(answer: EnqueueOutcome): Outcome {
    match answer
    case Accepted(id, created) => Returned(id, created)
    case _ => Conflict
  }

  /** `n` steps of one program with nothing in between. */
  ghost function Alone(s: System, step: Action, n: nat): System {
    if n == 0 then s else Next(Alone(s, step, n - 1), step)
  }

  lemma AloneStep(s: System, step: Action, n: nat)
    ensures Alone(s, step, 0) == s && Alone(s, step, n + 1) == Next(Alone(s, step, n), step)
  {
    hide Next;
  }

  /** A step without a transaction. */
  lemma SubmitMoves(s: System, tid: TaskId, drawn: JobId, fault: Fault, now: Time)
    requires tid in s.tasks && (s.tasks[tid].SubmitEnqueue? ==> fault == InsertRaises)
    ensures Next(s, SubmitAdvance(tid, drawn, fault, now)) == NextSubmit(s, tid, drawn, fault)
  {
    hide Apply, FindByKey;
  }

  lemma SubmitInserts(s: System, tid: TaskId, drawn: JobId, fault: Fault, now: Time)
    requires tid in s.tasks && s.tasks[tid].SubmitEnqueue? && fault != InsertRaises
    ensures var r, id := s.tasks[tid].request, s.tasks[tid].id;
            var op := Enqueue(id, r.key, r.sha256, r.submission, id, r.configuration, None, now);
            Next(s, SubmitAdvance(tid, drawn, fault, now)) == NextSubmit(s, tid, drawn, fault).(t := Apply(s.t, op))
  {
    hide Apply, FindByKey;
  }

  lemma RetryMoves(s: System, tid: TaskId, drawn: JobId, fault: Fault, key: string, now: Time)
    requires tid in s.tasks && (s.tasks[tid].RetryEnqueue? ==> fault == InsertRaises)
    ensures Next(s, RetryAdvance(tid, drawn, fault, key, now)) == NextRetry(s, tid, drawn, fault, key)
  {
    hide Apply, FindByKey;
  }

  lemma RetryInserts(s: System, tid: TaskId, drawn: JobId, fault: Fault, key: string, now: Time)
    requires tid in s.tasks && s.tasks[tid].RetryEnqueue? && fault != InsertRaises
    ensures var k := s.tasks[tid];
            var op := Enqueue(k.id, key, k.sha256, k.submission, k.id, k.configuration, Some(k.source), now);
            Next(s, RetryAdvance(tid, drawn, fault, key, now))
            == NextRetry(s, tid, drawn, fault, key).(t := Apply(s.t, op))
  {
    hide Apply, FindByKey;
  }

  lemma Begins(s: System, a: Action)
    requires a.SubmitBegin? || a.RetryBegin? || a.CleanupBegin?
    ensures Next(s, a) == NextPrograms(s, a)
  {}

  lemma RemovalMoves(s: System, tid: TaskId)
    requires tid in s.tasks && !s.tasks[tid].CleanDelete?
    ensures Next(s, RemovalAdvance(tid)) == NextRemoval(s, tid)
  {
    hide Apply;
  }

  lemma RemovalDeletes(s: System, tid: TaskId)
    requires tid in s.tasks && s.tasks[tid].CleanDelete? && s.tasks[tid].ids != []
    ensures Next(s, RemovalAdvance(tid)) == NextRemoval(s, tid).(t := Apply(s.t, Delete(s.tasks[tid].ids[0], false)))
  {
    hide Apply;
  }

  lemma DeleteCalls(s: System, tid: TaskId, id: JobId)
    requires tid !in s.tasks
    ensures Next(s, DeleteCall(tid, id)) == NextPrograms(s, DeleteCall(tid, id)).(t := Apply(s.t, Delete(id, true)))
  {
    hide Apply;
  }

  lemma AloneAppends(s: System, step: Action, m: nat, n: nat)
    ensures Alone(Alone(s, step, m), step, n) == Alone(s, step, m + n)
  {
    hide Next;
    if n > 0 { AloneAppends(s, step, m, n - 1); }
  }

  /** An identifier no directory and no row was ever named by. */
  ghost predicate Fresh(s: System, id: JobId) {
    id !in s.used && id !in s.t.jobs && id !in s.disk
  }

  /** Two steps: the directory is drawn and the archive moved in. */
  lemma Placed(s: System, tid: TaskId, r: Request, drawn: JobId, fault: Fault, now: Time)
    requires tid in s.tasks && s.tasks[tid] == SubmitMkdir(r) && Fresh(s, drawn)
    requires fault != ChecksRefuse && fault != PlacingRaises
    ensures Alone(s, SubmitAdvance(tid, drawn, fault, now), 2)
         == s.(tasks := s.tasks[tid := SubmitEnqueue(r, drawn)],
            disk := s.disk[drawn := Some(r.submission.archiveSha256)], used := s.used + {drawn})
  {
    hide Next, Apply, FindByKey;
    var step := SubmitAdvance(tid, drawn, fault, now);
    AloneStep(s, step, 0);
    AloneStep(s, step, 1);
    SubmitMoves(s, tid, drawn, fault, now);
    var mid := Next(s, step);
    SubmitMoves(mid, tid, drawn, fault, now);
    assert mid == s.(tasks := s.tasks[tid := SubmitMove(r, drawn)], disk := s.disk[drawn := None],
                  used := s.used + {drawn});
    assert Next(mid, step).tasks == s.tasks[tid := SubmitEnqueue(r, drawn)];
  }

  /** One step for a winner; a loser takes a second one that discards its directory. */
  lemma Decided(s: System, tid: TaskId, r: Request, id: JobId, drawn: JobId, fault: Fault, now: Time)
    requires tid in s.tasks && s.tasks[tid] == SubmitEnqueue(r, id) && id !in s.t.jobs && fault != InsertRaises
    ensures var step := SubmitAdvance(tid, drawn, fault, now);
            var t' := Apply(s.t, Enqueue(id, r.key, r.sha256, r.submission, id, r.configuration, None, now));
            match EnqueueAnswer(s.t, id, r.key, r.sha256)
            case Accepted(held, false) =>
              Alone(s, step, 2) == s.(t := t', tasks := s.tasks[tid := SubmitDone(r, Some(id), Returned(held, false))],
              disk := s.disk - {id})
            case Accepted(_, true) =>
              Alone(s, step, 1) == s.(t := t', tasks := s.tasks[tid := SubmitDone(r, Some(id), Returned(id, true))],
              accepted := s.accepted + {id})
            case _ =>
              Alone(s, step, 2) == s.(t := t', tasks := s.tasks[tid := SubmitDone(r, Some(id), Conflict)],
              disk := s.disk - {id})
  {
    hide Next, Apply, FindByKey;
    var step := SubmitAdvance(tid, drawn, fault, now);
    AloneStep(s, step, 0);
    AloneStep(s, step, 1);
    SubmitInserts(s, tid, drawn, fault, now);
    var mid := Next(s, step);
    if mid.tasks[tid].SubmitDiscard? { SubmitMoves(mid, tid, drawn, fault, now); }
    FoundInTable(s.t, r.key);
  }

  lemma Copied(s: System, tid: TaskId, source: JobId, root: JobId, drawn: JobId, fault: Fault, key: string, now: Time)
    requires tid in s.tasks && s.tasks[tid] == RetryMkdir(source, root) && Fresh(s, drawn) && root in s.disk
             && s.disk[root].Some?
    requires fault != PlacingRaises
    ensures Alone(s, RetryAdvance(tid, drawn, fault, key, now), 2)
         == s.(tasks := s.tasks[tid := RetryReread(source, drawn, s.disk[root].value)],
            disk := s.disk[drawn := s.disk[root]], used := s.used + {drawn})
  {
    hide Next, Apply, FindByKey;
    var step := RetryAdvance(tid, drawn, fault, key, now);
    AloneStep(s, step, 0);
    AloneStep(s, step, 1);
    RetryMoves(s, tid, drawn, fault, key, now);
    var mid := Next(s, step);
    RetryMoves(mid, tid, drawn, fault, key, now);
    assert Next(mid, step).tasks == s.tasks[tid := RetryReread(source, drawn, s.disk[root].value)];
    assert Next(mid, step).disk == s.disk[drawn := s.disk[root]];
  }

  /**
   The source must still be there and terminal, and be read: two steps back to nothing otherwise, else one step to the
   insertion.
   */
  lemma Reread(s: System, tid: TaskId, source: JobId, id: JobId, copied: Digest, drawn: JobId, fault: Fault,
               key: string, now: Time)
    requires tid in s.tasks && s.tasks[tid] == RetryReread(source, id, copied) && id !in s.t.jobs
    ensures var step := RetryAdvance(tid, drawn, fault, key, now);
            if fault != InsertRaises && source in s.t.jobs && s.t.jobs[source].state.Terminal() then
              var row := s.t.jobs[source];
              Alone(s, step, 1) == s.(tasks :=
              s.tasks[tid := RetryEnqueue(source, id, row.requestSha256, row.submission, row.configuration)])
            else Alone(s, step, 2) == s.(tasks := s.tasks - {tid}, disk := s.disk - {id})
  {
    hide Next, Apply, FindByKey;
    var step := RetryAdvance(tid, drawn, fault, key, now);
    AloneStep(s, step, 0);
    AloneStep(s, step, 1);
    RetryMoves(s, tid, drawn, fault, key, now);
    var mid := Next(s, step);
    if mid.tasks[tid].RetryDiscard? {
      RetryMoves(mid, tid, drawn, fault, key, now);
      assert Next(mid, step).tasks == s.tasks - {tid};
    }
  }

  /**
   The insertion, then the log entry that completes it.  A key that is taken, or a log entry that raises, leads to the
   removal of the copy instead; in the second case the row stays.
   */
  lemma RetryDecided(s: System, tid: TaskId, drawn: JobId, fault: Fault, key: string, now: Time)
    requires tid in s.tasks && s.tasks[tid].RetryEnqueue? && s.tasks[tid].id !in s.t.jobs && fault != InsertRaises
    ensures var step, k := RetryAdvance(tid, drawn, fault, key, now), s.tasks[tid];
            var t' := Apply(s.t, Enqueue(k.id, key, k.sha256, k.submission, k.id, k.configuration, Some(k.source),
                                         now));
            if FindByKey(s.t, key).Some? then
              Alone(s, step, 2) == s.(t := t', tasks := s.tasks - {tid}, disk := s.disk - {k.id})
            else if fault == LogRaises then
              Alone(s, step, 3) == s.(t := t', tasks := s.tasks - {tid}, disk := s.disk - {k.id},
              accepted := s.accepted + {k.id}, stripped := s.stripped + {k.id})
            else
              Alone(s, step, 2) == s.(t := t', tasks := s.tasks - {tid}, accepted := s.accepted + {k.id})
  {
    hide Next, Apply, FindByKey;
    var step, k := RetryAdvance(tid, drawn, fault, key, now), s.tasks[tid];
    AloneStep(s, step, 0);
    AloneStep(s, step, 1);
    AloneStep(s, step, 2);
    RetryInserts(s, tid, drawn, fault, key, now);
    var mid := Next(s, step);
    RetryMoves(mid, tid, drawn, fault, key, now);
    if FindByKey(s.t, key).None? {
      InsertedRow(s.t, Enqueue(k.id, key, k.sha256, k.submission, k.id, k.configuration, Some(k.source), now));
    } else {
      assert mid.disk == s.disk && mid.stripped == s.stripped;
      KeyTaken(s.t, Enqueue(k.id, key, k.sha256, k.submission, k.id, k.configuration, Some(k.source), now));
    }
    if FindByKey(s.t, key).None? && fault == LogRaises { RetryMoves(Next(mid, step), tid, drawn, fault, key, now); }
    assert mid.tasks - {tid} == s.tasks - {tid};
  }

  lemma InsertedRow(t: Tables, op: Operation)
    requires op.Enqueue? && FindByKey(t, op.key).None? && op.id !in t.jobs
    ensures Live(Apply(t, op), op.id)
  {}

  lemma KeyTaken(t: Tables, op: Operation)
    requires op.Enqueue? && FindByKey(t, op.key).Some?
    ensures Apply(t, op) == t
  {}

  /** Two steps: one job's directory, then its row. */
  lemma CleanedOne(s: System, tid: TaskId, ids: seq<JobId>)
    requires tid in s.tasks && s.tasks[tid] == CleanRemove(ids) && ids != []
    ensures Alone(s, RemovalAdvance(tid), 2)
         == s.(t := Apply(s.t, Delete(ids[0], false)), disk := s.disk - {ids[0]},
            tasks := s.tasks[tid := CleanRemove(ids[1..])])
  {
    hide Next, Apply;
    var step := RemovalAdvance(tid);
    AloneStep(s, step, 0);
    AloneStep(s, step, 1);
    RemovalMoves(s, tid);
    var mid := Next(s, step);
    RemovalDeletes(mid, tid);
    assert Next(mid, step).tasks == s.tasks[tid := CleanRemove(ids[1..])];
  }

  lemma CleaningBegins(s: System, tid: TaskId, ids: seq<JobId>, now: Time)
    requires tid !in s.tasks && forall id | id in ids :: Expired(s.t, id, now)
    ensures Next(s, CleanupBegin(tid, ids, now)) == s.(tasks := s.tasks[tid := CleanRemove(ids)])
  {
    hide Next, Apply, Expired;
    Begins(s, CleanupBegin(tid, ids, now));
  }

  lemma CleaningEnds(s: System, tid: TaskId)
    requires tid in s.tasks && s.tasks[tid] == CleanRemove([])
    ensures Alone(s, RemovalAdvance(tid), 1) == s.(tasks := s.tasks - {tid})
  {
    hide Next, Apply;
    AloneStep(s, RemovalAdvance(tid), 0);
    RemovalMoves(s, tid);
  }

  lemma FoundInTable(t: Tables, key: string)
    ensures FindByKey(t, key).Some? ==> FindByKey(t, key).value in t.jobs
  {}

  lemma NoViolation(t: Tables, id: JobId, key: string, request: Digest)
    requires id !in t.jobs
    ensures !EnqueueAnswer(t, id, key, request).ConstraintViolation?
    ensures var answer := EnqueueAnswer(t, id, key, request); answer.Accepted? && answer.created ==> answer.id == id
  {
    hide FindByKey;
  }

  /** One step: the directory is drawn; the next one raises and leaves it behind. */
  lemma SubmitBreaks(s: System, tid: TaskId, r: Request, drawn: JobId, now: Time)
    requires tid in s.tasks && s.tasks[tid] == SubmitMkdir(r) && Fresh(s, drawn)
    ensures var last := Alone(s, SubmitAdvance(tid, drawn, PlacingRaises, now), 2);
            && last.t == s.t && last.disk == s.disk[drawn := None]
            && tid in last.tasks && last.tasks[tid] == SubmitDone(r, Some(drawn), Broken)
  {
    hide Next, Apply, FindByKey;
    var step := SubmitAdvance(tid, drawn, PlacingRaises, now);
    AloneStep(s, step, 0);
    AloneStep(s, step, 1);
    SubmitMoves(s, tid, drawn, PlacingRaises, now);
    SubmitMoves(Next(s, step), tid, drawn, PlacingRaises, now);
  }

  lemma RetryBreaks(s: System, tid: TaskId, source: JobId, root: JobId, drawn: JobId, key: string, now: Time)
    requires tid in s.tasks && s.tasks[tid] == RetryMkdir(source, root) && Fresh(s, drawn)
    ensures var last := Alone(s, RetryAdvance(tid, drawn, PlacingRaises, key, now), 2);
            last.t == s.t && last.disk == s.disk[drawn := None] && tid !in last.tasks
  {
    hide Next, Apply, FindByKey;
    var step := RetryAdvance(tid, drawn, PlacingRaises, key, now);
    AloneStep(s, step, 0);
    AloneStep(s, step, 1);
    RetryMoves(s, tid, drawn, PlacingRaises, key, now);
    RetryMoves(Next(s, step), tid, drawn, PlacingRaises, key, now);
  }

  /** The insertion raises: two steps to a full directory, two more to take it back. */
  lemma SubmitUndone(s: System, tid: TaskId, r: Request, drawn: JobId, now: Time)
    requires tid in s.tasks && s.tasks[tid] == SubmitMkdir(r) && Fresh(s, drawn)
    ensures var last := Alone(s, SubmitAdvance(tid, drawn, InsertRaises, now), 4);
            && last.t == s.t && last.disk == s.disk
            && tid in last.tasks && last.tasks[tid] == SubmitDone(r, Some(drawn), Refused)
  {
    hide Next, Apply, FindByKey;
    var step := SubmitAdvance(tid, drawn, InsertRaises, now);
    Placed(s, tid, r, drawn, InsertRaises, now);
    var mid := Alone(s, step, 2);
    AloneStep(mid, step, 0);
    AloneStep(mid, step, 1);
    SubmitMoves(mid, tid, drawn, InsertRaises, now);
    SubmitMoves(Next(mid, step), tid, drawn, InsertRaises, now);
    AloneAppends(s, step, 2, 2);
    assert s.disk[drawn := Some(r.submission.archiveSha256)] - {drawn} == s.disk;
  }

  /** How the second half of a lone submit ends. */
  lemma SubmitEnds(s: System, tid: TaskId, r: Request, drawn: JobId, fault: Fault, now: Time)
    returns (n: nat, outcome: Outcome)
    requires tid in s.tasks && s.tasks[tid] == SubmitMkdir(r) && Fresh(s, drawn)
    requires fault != ChecksRefuse && fault != PlacingRaises && fault != InsertRaises
    ensures outcome == OutcomeOf(EnqueueAnswer(s.t, drawn, r.key, r.sha256))
    ensures var last := Alone(s, SubmitAdvance(tid, drawn, fault, now), n);
            && last.t == Apply(s.t, Enqueue(drawn, r.key, r.sha256, r.submission, drawn, r.configuration, None, now))
            && tid in last.tasks && last.tasks[tid] == SubmitDone(r, Some(drawn), outcome)
            && last.disk == if outcome == Returned(drawn, true)
                            then s.disk[drawn := Some(r.submission.archiveSha256)] else s.disk
  {
    hide Apply, FindByKey, Next, Alone, EnqueueAnswer;
    var step := SubmitAdvance(tid, drawn, fault, now);
    Placed(s, tid, r, drawn, fault, now);
    var mid := Alone(s, step, 2);
    Decided(mid, tid, r, drawn, drawn, fault, now);
    NoViolation(mid.t, drawn, r.key, r.sha256);
    var answer := EnqueueAnswer(s.t, drawn, r.key, r.sha256);
    outcome := OutcomeOf(answer);
    n := if answer.Accepted? && answer.created then 3 else 4;
    AloneAppends(s, step, 2, n - 2);
    assert s.disk[drawn := Some(r.submission.archiveSha256)] - {drawn} == s.disk;
  }

  /** LogBroken: the row is in the queue, but the directory went when the log entry raised. */
  datatype RetryOutcome = Retried | NotRetried | CopyBroken | LogBroken

  /** How a retry ends whose source is there with its archive. */
  ghost function RetryFate(t: Tables, source: JobId, fault: Fault, key: string): RetryOutcome
    requires source in t.jobs
  {
    if fault == PlacingRaises then CopyBroken
    else if !t.jobs[source].state.Terminal() || fault == InsertRaises || FindByKey(t, key).Some? then NotRetried
    else if fault == LogRaises then LogBroken
    else Retried
  }

  /** How the second half of a lone retry ends. */
  lemma RetryEnds(s: System, tid: TaskId, source: JobId, root: JobId, drawn: JobId, fault: Fault, key: string,
                  now: Time) returns (n: nat)
    requires tid in s.tasks && s.tasks[tid] == RetryMkdir(source, root) && Fresh(s, drawn)
    requires source in s.t.jobs && root in s.disk && s.disk[root].Some?
    requires fault != PlacingRaises
    ensures n == if !s.t.jobs[source].state.Terminal() || fault == InsertRaises then 4
                 else if FindByKey(s.t, key).None? && fault == LogRaises then 6 else 5
    ensures var last, row := Alone(s, RetryAdvance(tid, drawn, fault, key, now), n), s.t.jobs[source];
            && tid !in last.tasks
            && last.t == (if row.state.Terminal() && fault != InsertRaises
                          then Apply(s.t, Enqueue(drawn, key, row.requestSha256, row.submission, drawn,
                                                  row.configuration, Some(source), now)) else s.t)
            && last.disk == if RetryFate(s.t, source, fault, key) == Retried
                            then s.disk[drawn := s.disk[root]] else s.disk
  {
    hide Apply, FindByKey, Next, Alone;
    var step := RetryAdvance(tid, drawn, fault, key, now);
    Copied(s, tid, source, root, drawn, fault, key, now);
    var mid := Alone(s, step, 2);
    Reread(mid, tid, source, drawn, s.disk[root].value, drawn, fault, key, now);
    assert s.disk[drawn := s.disk[root]] - {drawn} == s.disk;
    if s.t.jobs[source].state.Terminal() && fault != InsertRaises {
      RetryDecided(Alone(mid, step, 1), tid, drawn, fault, key, now);
      var last := if FindByKey(s.t, key).None? && fault == LogRaises then 3 else 2;
      AloneAppends(s, step, 2, 1);
      AloneAppends(s, step, 3, last);
      n := 3 + last;
    } else {
      AloneAppends(s, step, 2, 2);
      n := 4;
    }
  }

  /** The directory holds an input archive. */
  predicate Filled(directories: map<JobId, Option<Digest>>, root: JobId) {
    root in directories && directories[root].Some?
  }

  /**
   The directories after a submit: the new one is full after success, empty after a failed move, and gone otherwise.
   */
  function Filed(directories: map<JobId, Option<Digest>>, request: Request, drawn: JobId, outcome: Outcome): map<JobId,
    Option<Digest>> {
    if outcome == Returned(drawn, true) then directories[drawn := Some(request.submission.archiveSha256)]
    else if outcome == Broken then directories[drawn := None]
    else directories
  }

  /** The directories after a retry: the new one is full after success, empty after a failed copy, else gone. */
  function Refiled(directories: map<JobId, Option<Digest>>, root: JobId, drawn: JobId, outcome: RetryOutcome)
    : map<JobId, Option<Digest>>
    requires outcome == Retried ==> root in directories
  {
    if outcome == Retried then directories[drawn := directories[root]]
    else if outcome == CopyBroken then directories[drawn := None]
    else directories
  }

  predicate KeyKnown(jobs: map<JobId, Job>, key: string) {
    exists id | id in jobs :: jobs[id].idempotencyKey == key
  }

  /** What becomes of a request with a new key. */
  function NewKeyFate(drawn: JobId, fault: Fault): Outcome {
    match fault
    case ChecksRefuse => Refused
    case PlacingRaises => Broken
    case InsertRaises => Refused
    case _ => Returned(drawn, true)
  }

  /** The row that is found is the only one with the key. */
  lemma KeyHeldOnce(t: Tables, key: string)
    requires TablesOk(t)
    ensures KeyKnown(t.jobs, key) <==> FindByKey(t, key).Some?
    ensures forall id | id in t.jobs && t.jobs[id].idempotencyKey == key :: FindByKey(t, key) == Some(id)
  {}

  lemma NewKeyAccepted(t: Tables, id: JobId, key: string, request: Digest)
    requires id !in t.jobs
    ensures !KeyKnown(t.jobs, key) ==> EnqueueAnswer(t, id, key, request) == Accepted(id, true)
  {}

  class RemoteService {
    const repository: RemoteQueueRepository
    var directories: map<JobId, Option<Digest>>

    constructor (repository: RemoteQueueRepository)
      ensures this.repository == repository && directories == map[]
    {
      this.repository, directories := repository, map[];
    }

    ghost predicate Mirrors(s: System)
      reads this, repository
    {
      s.t == repository.Stored() && s.disk == directories
    }

    /**
     The second half of submit: draw a directory, move the archive in, enqueue, and discard the directory of a loser.
     The move stands before the try, so a directory it cannot fill stays behind.
     */
    method PlaceAndEnqueue(request: Request, drawn: JobId, fault: Fault, now: Time, ghost s: System, ghost tid: TaskId)
      returns (outcome: Outcome, ghost s': System, ghost n: nat)
      requires repository.Valid() && Mirrors(s) && tid in s.tasks && s.tasks[tid] == SubmitMkdir(request)
      requires Fresh(s, drawn) && fault != ChecksRefuse
      modifies this, repository
      ensures repository.Valid() && Mirrors(s')
      ensures s' == Alone(s, SubmitAdvance(tid, drawn, fault, now), n)
      ensures tid in s'.tasks && s'.tasks[tid].SubmitDone? && s'.tasks[tid].outcome == outcome
      ensures (outcome == Broken <==> fault == PlacingRaises) && (outcome == Refused <==> fault == InsertRaises)
      ensures !KeyKnown(old(repository.jobs), request.key) && fault != PlacingRaises && fault != InsertRaises ==>
                outcome == Returned(drawn, true)
      ensures outcome == Returned(drawn, true) || repository.Stored() == old(repository.Stored())
      ensures outcome == Returned(drawn, true) ==>
                repository.Stored() == Apply(old(repository.Stored()),
                                             Enqueue(drawn, request.key, request.sha256, request.submission, drawn,
                                                     request.configuration, None, now))
      ensures directories == Filed(old(directories), request, drawn, outcome)
    {
      hide TablesOk, Apply, FindByKey, Next, Alone, EnqueueAnswer, KeyKnown;
      directories := directories[drawn := None];
      if fault == PlacingRaises {
        SubmitBreaks(s, tid, request, drawn, now);
        outcome, s', n := Broken, Alone(s, SubmitAdvance(tid, drawn, fault, now), 2), 2;
        return;
      }
      if fault == InsertRaises {
        SubmitUndone(s, tid, request, drawn, now);
        directories := directories[drawn := Some(request.submission.archiveSha256)];
        directories := directories - {drawn};
        outcome, s', n := Refused, Alone(s, SubmitAdvance(tid, drawn, fault, now), 4), 4;
        return;
      }
      ghost var ending;
      n, ending := SubmitEnds(s, tid, request, drawn, fault, now);
      NewKeyAccepted(s.t, drawn, request.key, request.sha256);
      NoViolation(s.t, drawn, request.key, request.sha256);
      directories := directories[drawn := Some(request.submission.archiveSha256)];
      var r := repository.EnqueueJob(drawn, request.key, request.sha256, request.submission, drawn,
                                     request.configuration, None, now);
      outcome := OutcomeOf(r);
      if !(r.Accepted? && r.created) { directories := directories - {drawn}; }
      s' := Alone(s, SubmitAdvance(tid, drawn, fault, now), n);
    }

    /** submit after its control check: answered from the key when it is known, else enqueued. */
    method SubmitOpen(request: Request, drawn: JobId, fault: Fault, now: Time, ghost s: System, ghost tid: TaskId)
      returns (outcome: Outcome, ghost s': System, ghost n: nat)
      requires repository.Valid() && Mirrors(s) && tid in s.tasks && s.tasks[tid] == SubmitLookup(request)
      requires Fresh(s, drawn)
      modifies this, repository
      ensures repository.Valid() && Mirrors(s') && s' == Alone(s, SubmitAdvance(tid, drawn, fault, now), n)
      ensures tid in s'.tasks && s'.tasks[tid].SubmitDone? && s'.tasks[tid].outcome == outcome
      ensures forall id | id in old(repository.jobs) && old(repository.jobs)[id].idempotencyKey == request.key ::
                outcome == if old(repository.jobs)[id].requestSha256 == request.sha256
                then Returned(id, false) else Conflict
      ensures !KeyKnown(old(repository.jobs), request.key) ==> outcome == NewKeyFate(drawn, fault)
      ensures outcome == Returned(drawn, true) || repository.Stored() == old(repository.Stored())
      ensures outcome == Returned(drawn, true) ==>
                repository.Stored() == Apply(old(repository.Stored()),
                                             Enqueue(drawn, request.key, request.sha256, request.submission, drawn,
                                                     request.configuration, None, now))
      ensures directories == Filed(old(directories), request, drawn, outcome)
    {
      hide TablesOk, Apply, FindByKey, Next, Alone, Distinct, KeyKnown;
      ghost var step := SubmitAdvance(tid, drawn, fault, now);
      KeyHeldOnce(repository.Stored(), request.key);
      DistinctRows(repository.Stored());
      var existing := repository.SelectByKey(request.key);
      AloneStep(s, step, 0);
      SubmitMoves(s, tid, drawn, fault, now);
      s', n := Next(s, step), 1;
      if existing.Some? {
        FoundInTable(repository.Stored(), request.key);
        if repository.jobs[existing.value].requestSha256 != request.sha256 { return Conflict, s', n; }
        NotFresh(s, drawn, existing.value);
        return Returned(existing.value, false), s', n;
      }
      if fault == ChecksRefuse {
        AloneStep(s, step, 1);
        SubmitMoves(s', tid, drawn, fault, now);
        s', n := Next(s', step), 2;
        return Refused, s', n;
      }
      ghost var more;
      outcome, s', more := PlaceAndEnqueue(request, drawn, fault, now, s', tid);
      AloneAppends(s, step, 1, more);
      n := 1 + more;
    }

    /** submit: refused in maintenance and while draining, whatever the request. */
    method Submit(request: Request, drawn: JobId, fault: Fault, now: Time, ghost s: System, ghost tid: TaskId)
      returns (outcome: Outcome, ghost s': System, ghost n: nat)
      requires repository.Valid() && Mirrors(s) && tid !in s.tasks && Fresh(s, drawn)
      modifies this, repository
      ensures repository.Valid() && Mirrors(s')
      ensures s' == Alone(Next(s, SubmitBegin(tid, request)), SubmitAdvance(tid, drawn, fault, now), n)
      ensures tid in s'.tasks && s'.tasks[tid].SubmitDone? && s'.tasks[tid].outcome == outcome
      ensures old(repository.control.maintenance) || old(repository.control.mode) == Draining ==> outcome == Refused
      ensures !old(repository.control.maintenance) && old(repository.control.mode) != Draining ==>
                forall id | id in old(repository.jobs) && old(repository.jobs)[id].idempotencyKey == request.key ::
                  outcome == if old(repository.jobs)[id].requestSha256 == request.sha256
                  then Returned(id, false) else Conflict
      ensures !old(repository.control.maintenance) && old(repository.control.mode) != Draining ==>
                !KeyKnown(old(repository.jobs), request.key) ==> outcome == NewKeyFate(drawn, fault)
      ensures outcome == Returned(drawn, true) || repository.Stored() == old(repository.Stored())
      ensures outcome == Returned(drawn, true) ==>
                repository.Stored() == Apply(old(repository.Stored()),
                                             Enqueue(drawn, request.key, request.sha256, request.submission, drawn,
                                                     request.configuration, None, now))
      ensures directories == Filed(old(directories), request, drawn, outcome)
    {
      hide TablesOk, Apply, FindByKey, Next, Alone, Distinct, KeyKnown, NewKeyFate;
      ghost var begun, step := Next(s, SubmitBegin(tid, request)), SubmitAdvance(tid, drawn, fault, now);
      Begins(s, SubmitBegin(tid, request));
      AloneStep(begun, step, 0);
      SubmitMoves(begun, tid, drawn, fault, now);
      s', n := Next(begun, step), 1;
      if repository.control.maintenance || repository.control.mode == Draining { return Refused, s', n; }
      ghost var more;
      outcome, s', more := SubmitOpen(request, drawn, fault, now, s', tid);
      AloneAppends(begun, step, 1, more);
      n := 1 + more;
    }

    /** retry_job: a new directory with a copy of the input, and a new row naming its parent. */
    method RetryJob(source: JobId, drawn: JobId, fault: Fault, key: string, now: Time, ghost s: System,
                    ghost tid: TaskId)
      returns (outcome: RetryOutcome, ghost s': System, ghost n: nat)
      requires repository.Valid() && Mirrors(s) && tid !in s.tasks && Fresh(s, drawn)
      modifies this, repository
      ensures repository.Valid() && Mirrors(s')
      ensures s' == Alone(Next(s, RetryBegin(tid, source)), RetryAdvance(tid, drawn, fault, key, now), n)
              && tid !in s'.tasks
      ensures outcome == if source in old(repository.jobs)
                            && Filled(old(directories), old(repository.jobs)[source].inputRoot)
                         then RetryFate(old(repository.Stored()), source, fault, key) else NotRetried
      ensures outcome == NotRetried ==> directories == old(directories)
      ensures outcome != NotRetried ==>
                directories == Refiled(old(directories), old(repository.jobs)[source].inputRoot, drawn, outcome)
      ensures if outcome == Retried || outcome == LogBroken then Live(repository.Stored(), drawn)
              else repository.Stored() == old(repository.Stored())
    {
      hide TablesOk, Apply, FindByKey, Next, Alone, Distinct;
      ghost var begun, step := Next(s, RetryBegin(tid, source)), RetryAdvance(tid, drawn, fault, key, now);
      Begins(s, RetryBegin(tid, source));
      AloneStep(begun, step, 0);
      RetryMoves(begun, tid, drawn, fault, key, now);
      s', n := Next(begun, step), 1;
      if source !in repository.jobs { return NotRetried, s', n; }
      var root := repository.jobs[source].inputRoot;
      AloneStep(begun, step, 1);
      RetryMoves(s', tid, drawn, fault, key, now);
      s', n := Next(s', step), 2;
      if !Filled(directories, root) { return NotRetried, s', n; }
      ghost var more;
      outcome, s', more := CopyAndEnqueue(source, root, drawn, fault, key, now, s', tid);
      AloneAppends(begun, step, 2, more);
      n := 2 + more;
    }

    /** repository.retry: read the source again, insert, and log in a second transaction. */
    method InsertCopy(source: JobId, drawn: JobId, fault: Fault, key: string, now: Time) returns (outcome: RetryOutcome)
      requires repository.Valid() && source in repository.jobs && drawn !in repository.jobs && fault != PlacingRaises
      modifies repository
      ensures repository.Valid() && outcome == RetryFate(old(repository.Stored()), source, fault, key)
      ensures var row := old(repository.jobs)[source];
              repository.Stored() == if row.state.Terminal() && fault != InsertRaises
              then Apply(old(repository.Stored()),
                         Enqueue(drawn, key, row.requestSha256, row.submission, drawn,
                                 row.configuration, Some(source), now))
              else old(repository.Stored())
      ensures outcome == NotRetried ==> repository.Stored() == old(repository.Stored())
      ensures outcome == Retried || outcome == LogBroken ==> Live(repository.Stored(), drawn)
    {
      hide TablesOk, Apply, FindByKey;
      var row := repository.jobs[source];
      if !row.state.Terminal() || fault == InsertRaises { return NotRetried; }
      ghost var op := Enqueue(drawn, key, row.requestSha256, row.submission, drawn, row.configuration, Some(source),
                              now);
      if FindByKey(repository.Stored(), key).None? {
        InsertedRow(repository.Stored(), op);
      } else {
        KeyTaken(repository.Stored(), op);
      }
      var r := repository.EnqueueJob(drawn, key, row.requestSha256, row.submission, drawn, row.configuration,
                                     Some(source), now);
      outcome := if !(r.Accepted? && r.created) then NotRetried else if fault == LogRaises then LogBroken else Retried;
    }

    /** The second half of retry_job: the copy stands before the try, so a directory it cannot fill stays behind. */
    method CopyAndEnqueue(source: JobId, root: JobId, drawn: JobId, fault: Fault, key: string, now: Time,
                          ghost s: System, ghost tid: TaskId)
      returns (outcome: RetryOutcome, ghost s': System, ghost n: nat)
      requires repository.Valid() && Mirrors(s) && tid in s.tasks && s.tasks[tid] == RetryMkdir(source, root)
               && Fresh(s, drawn)
      requires source in repository.jobs && Filled(directories, root)
      modifies this, repository
      ensures repository.Valid() && Mirrors(s')
      ensures s' == Alone(s, RetryAdvance(tid, drawn, fault, key, now), n) && tid !in s'.tasks
      ensures outcome == RetryFate(old(repository.Stored()), source, fault, key)
      ensures directories == Refiled(old(directories), root, drawn, outcome)
      ensures if outcome == Retried || outcome == LogBroken then Live(repository.Stored(), drawn)
              else repository.Stored() == old(repository.Stored())
    {
      hide TablesOk, Apply, FindByKey, Next, Alone;
      directories := directories[drawn := None];
      if fault == PlacingRaises {
        RetryBreaks(s, tid, source, root, drawn, key, now);
        outcome, s', n := CopyBroken, Alone(s, RetryAdvance(tid, drawn, fault, key, now), 2), 2;
        return;
      }
      n := RetryEnds(s, tid, source, root, drawn, fault, key, now);
      directories := directories[drawn := directories[root]];
      outcome := InsertCopy(source, drawn, fault, key, now);
      if outcome != Retried { directories := directories - {drawn}; }
      s' := Alone(s, RetryAdvance(tid, drawn, fault, key, now), n);
    }

    /** delete_terminal_job: the row first, then the directory. */
    method DeleteTerminalJob(id: JobId, ghost s: System, ghost tid: TaskId) returns (removed: bool, ghost s': System)
      requires repository.Valid() && Mirrors(s) && tid !in s.tasks
      modifies this, repository
      ensures repository.Valid() && Mirrors(s')
      ensures s' == if removed then Next(Next(s, DeleteCall(tid, id)), RemovalAdvance(tid))
                    else Next(s, DeleteCall(tid, id))
      ensures removed <==> CanDelete(old(repository.Stored()), id, true)
      ensures tid !in s'.tasks && directories == if removed then old(directories) - {id} else old(directories)
    {
      hide TablesOk, Apply, Next;
      DeleteCalls(s, tid, id);
      var r := repository.DeleteJob(id, true);
      s' := Next(s, DeleteCall(tid, id));
      removed := r == Deleted;
      if removed {
        RemovalMoves(s', tid);
        directories := directories - {id};
        s' := Next(s', RemovalAdvance(tid));
      }
    }

    /** One round of the cleanup loop: the directory, then the row, without looking at its state again. */
    method RemoveOne(id: JobId, ghost s: System, ghost tid: TaskId, ghost ids: seq<JobId>) returns (ghost s': System)
      requires repository.Valid() && Mirrors(s) && tid in s.tasks && s.tasks[tid] == CleanRemove(ids) && ids != []
               && ids[0] == id
      modifies this, repository
      ensures repository.Valid() && Mirrors(s') && s' == Alone(s, RemovalAdvance(tid), 2)
      ensures tid in s'.tasks && s'.tasks[tid] == CleanRemove(ids[1..])
      ensures repository.jobs == old(repository.jobs) - {id} && directories == old(directories) - {id}
    {
      hide TablesOk, Apply, Next, Alone, CanDelete;
      CleanedOne(s, tid, ids);
      directories := directories - {id};
      var r := repository.DeleteJob(id, false);
      s' := Alone(s, RemovalAdvance(tid), 2);
    }

    /** cleanup_expired: select, then for each job the directory before the row. */
    method CleanupExpired(now: Time, ghost s: System, ghost tid: TaskId)
      returns (removed: nat, ghost ids: seq<JobId>, ghost s': System)
      requires repository.Valid() && Mirrors(s) && tid !in s.tasks
      modifies this, repository
      ensures repository.Valid() && Mirrors(s')
      ensures s' == Alone(Next(s, CleanupBegin(tid, ids, now)), RemovalAdvance(tid), 2 * removed + 1)
              && tid !in s'.tasks
      ensures removed == |ids| && forall id :: id in ids <==> Expired(old(repository.Stored()), id, now)
      ensures repository.jobs == old(repository.jobs) - Members(ids)
      ensures directories == old(directories) - Members(ids)
    {
      hide TablesOk, Apply, Next, Alone, Distinct, Expired, Members;
      ghost var step := RemovalAdvance(tid);
      var expired := repository.SelectExpired(now);
      ids := expired;
      ghost var begun := Next(s, CleanupBegin(tid, ids, now));
      CleaningBegins(s, tid, ids, now);
      s' := begun;
      AloneStep(begun, step, 0);
      removed := 0;
      assert expired[..0] == [] && expired[0..] == expired;
      ghost var done: set<JobId> := {};
      NoMembers();
      while removed < |expired|
        invariant 0 <= removed <= |expired|
        invariant repository.Valid() && Mirrors(s') && s' == Alone(begun, step, 2 * removed)
        invariant tid in s'.tasks && s'.tasks[tid] == CleanRemove(expired[removed..])
        invariant done == Members(expired[..removed])
        invariant repository.jobs == old(repository.jobs) - done && directories == old(directories) - done
      {
        var id := expired[removed];
        AloneAppends(begun, step, 2 * removed, 2);
        s' := RemoveOne(id, s', tid, expired[removed..]);
        assert expired[removed..][1..] == expired[removed + 1..];
        TakeMore(expired, removed);
        done := done + {id};
        removed := removed + 1;
      }
      assert expired[..removed] == expired;
      CleaningEnds(s', tid);
      AloneAppends(begun, step, 2 * removed, 1);
      s' := Alone(s', step, 1);
    }
  }

  function Members(ids: seq<JobId>): set<JobId> {
    set id | id in ids
  }

  lemma NoMembers()
    ensures Members([]) == {}
  {}

  lemma TakeMore(ids: seq<JobId>, k: nat)
    requires k < |ids|
    ensures Members(ids[..k + 1]) == Members(ids[..k]) + {ids[k]}
  {
    assert ids[..k + 1] == ids[..k] + [ids[k]];
  }

  lemma NotFresh(s: System, drawn: JobId, id: JobId)
    requires Fresh(s, drawn) && id in s.t.jobs
    ensures id != drawn
  {}
}
