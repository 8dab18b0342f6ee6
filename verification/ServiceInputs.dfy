/** Live jobs whose input is gone: a retry takes back the directory of a job whose row it leaves in the queue. */
module ServiceInputs {
  import opened QueueTables
  import opened ServiceSystem
  import opened ServiceInvariants

  /** A queued or running job without its own archive. */
  ghost predicate Starved(s: System, id: JobId) {
    Live(s.t, id) && !Holds(s, id, s.t.jobs[id].submission.archiveSha256)
  }

  /** A retry that raised after its insertion removes the directory of the job it inserted. */
  ghost predicate Strips(s: System, a: Action, id: JobId) {
    a.RetryAdvance? && a.tid in s.tasks && s.tasks[a.tid] == RetryDiscard(id) && Live(s.t, id)
  }

  /** The directory is gone or holds no archive. */
  ghost predicate Bare(s: System, id: JobId) {
    id in s.disk ==> s.disk[id].None?
  }

  ghost predicate StrippedOk(s: System) {
    forall id | id in s.stripped :: id in s.accepted && Bare(s, id)
  }

  lemma StrippedByCause(s: System, a: Action, id: JobId)
    ensures id in Next(s, a).stripped <==> id in s.stripped || Strips(s, a, id)
  {
    hide Apply, FindByKey, OperationOf, CanDelete, Expired, CanClaim, Owned;
  }

  // ---------------------------------------------------------------- nothing comes back

  lemma SubmitFillsItsOwn(s: System, tid: TaskId, drawn: JobId, fault: Fault, id: JobId)
    requires tid in s.tasks && TaskOk(s, s.tasks[tid]) && id in s.accepted && s.accepted <= s.used && Bare(s, id)
    ensures Bare(NextSubmit(s, tid, drawn, fault), id)
  {
    hide FindByKey;
  }

  lemma RetryFillsItsOwn(s: System, tid: TaskId, drawn: JobId, fault: Fault, key: string, id: JobId)
    requires tid in s.tasks && TaskOk(s, s.tasks[tid]) && id in s.accepted && s.accepted <= s.used && Bare(s, id)
    ensures Bare(NextRetry(s, tid, drawn, fault, key), id)
  {
    hide FindByKey;
  }

  /** The archive of a job that once had a row is never put back. */
  lemma NeverRefilled(s: System, a: Action, id: JobId)
    requires Inv(s) && id in s.accepted && Bare(s, id)
    ensures id in Next(s, a).accepted && Bare(Next(s, a), id)
  {
    hide TablesOk, InputOk, TaskOk, WorkerOk, OperationOk, OperationOf, Apply, NextSubmit, NextRetry, NextOperation,
      CanDelete, Expired, CanClaim, Owned, Owns;
    NextFields(s, a);
    if a.SubmitAdvance? && a.tid in s.tasks { SubmitFillsItsOwn(s, a.tid, a.drawn, a.fault, id); }
    if a.RetryAdvance? && a.tid in s.tasks { RetryFillsItsOwn(s, a.tid, a.drawn, a.fault, a.key, id); }
  }

  lemma StrippedKept(s: System, a: Action)
    requires Inv(s) && StrippedOk(s)
    ensures StrippedOk(Next(s, a))
  {
    hide Inv, Next, Strips, Bare;
    forall id | id in Next(s, a).stripped ensures id in Next(s, a).accepted && Bare(Next(s, a), id) {
      StrippedByCause(s, a, id);
      if id in s.stripped { NeverRefilled(s, a, id); } else { StrippedIsBare(s, a, id); }
    }
  }

  lemma StrippedIsBare(s: System, a: Action, id: JobId)
    requires Inv(s) && Strips(s, a, id)
    ensures id in Next(s, a).accepted && Bare(Next(s, a), id)
  {
    hide TablesOk, InputOk, TasksOk, WorkerOk, OperationOk, Apply, FindByKey;
  }

  lemma {:induction false} StrippedAlways(s: System, actions: seq<Action>)
    requires Inv(s) && StrippedOk(s)
    ensures StrippedOk(RunActions(s, actions))
    decreases |actions|
  {
    hide Inv, Next, StrippedOk;
    if actions != [] {
      NextKeeps(s, actions[0]);
      StrippedKept(s, actions[0]);
      StrippedAlways(Next(s, actions[0]), actions[1..]);
    }
  }

  /** A job that had its row is live only as long as it has been live. */
  lemma LiveWasLive(s: System, a: Action, id: JobId)
    requires Inv(s) && id in s.accepted && Live(Next(s, a).t, id)
    ensures Live(s.t, id)
  {
    hide TablesOk, InputOk, TasksOk, WorkerOk, OperationOk, Apply, NextPrograms, OperationOf;
    StepEvolves(s, a);
    if id !in s.t.jobs { EnqueueIsFresh(s, a); }
  }

  // ---------------------------------------------------------------- when a retry takes back too much

  /** The next step of program `tid` removes the directory of a job that has a row. */
  ghost predicate Dooms(s: System, tid: TaskId, id: JobId) {
    tid in s.tasks && s.tasks[tid] == RetryDiscard(id) && id in s.t.jobs
  }

  /** The transaction that logs a retry raises although its row is there. */
  ghost predicate LogFails(s: System, a: Action, tid: TaskId, id: JobId) {
    && a.RetryAdvance? && a.tid == tid && tid in s.tasks && s.tasks[tid] == RetryLog(id)
    && id in s.t.jobs && a.fault == LogRaises
  }

  lemma NewRowIsOwn(s: System, a: Action, id: JobId)
    requires id in Next(s, a).t.jobs && id !in s.t.jobs
    ensures (a.SubmitAdvance? || a.RetryAdvance?) && a.tid in s.tasks && id in Owns(s.tasks[a.tid])
    ensures s.tasks[a.tid].SubmitEnqueue? || s.tasks[a.tid].RetryEnqueue?
  {
    hide Apply, NextPrograms, FindByKey;
    if OperationOf(s, a).Some? { OperationAddsOnly(s.t, OperationOf(s, a).value, id); }
  }

  /** A program takes up the removal of a directory only from its own last steps. */
  lemma TurnsToDiscard(s: System, a: Action, tid: TaskId, id: JobId)
    requires tid in Next(s, a).tasks && Next(s, a).tasks[tid] == RetryDiscard(id)
    requires !(tid in s.tasks && s.tasks[tid] == RetryDiscard(id))
    ensures a.RetryAdvance? && a.tid == tid && tid in s.tasks && id in Owns(s.tasks[tid])
    ensures Next(s, a).t == s.t
    ensures s.tasks[tid].RetryReread? || s.tasks[tid].RetryEnqueue? || s.tasks[tid].RetryLog?
    ensures s.tasks[tid].RetryLog? && id in s.t.jobs ==> a.fault == LogRaises
  {
    hide Apply, FindByKey, CanDelete, Expired, CanClaim, NextOperation, AfterJob, Owned;
    if a.RetryAdvance? && a.tid in s.tasks && s.tasks[a.tid].RetryEnqueue? { InsertionRefused(s, a); }
  }

  lemma InsertionRefused(s: System, a: Action)
    requires a.RetryAdvance? && a.tid in s.tasks && s.tasks[a.tid].RetryEnqueue?
    requires a.fault == InsertRaises || FindByKey(s.t, a.key).Some?
    ensures Next(s, a).t == s.t
  {}

  lemma LogFailsDooms(s: System, a: Action, tid: TaskId, id: JobId)
    requires LogFails(s, a, tid, id)
    ensures Dooms(Next(s, a), tid, id)
  {
    hide Apply, FindByKey;
  }

  /** No other failure leads a retry to remove the directory of a job with a row. */
  lemma DoomedByLog(s: System, a: Action, tid: TaskId, id: JobId)
    requires Inv(s) && !Dooms(s, tid, id)
    ensures Dooms(Next(s, a), tid, id) <==> LogFails(s, a, tid, id)
  {
    hide TablesOk, InputOk, WorkerOk, OperationOk, Next;
    if LogFails(s, a, tid, id) { LogFailsDooms(s, a, tid, id); }
    if Dooms(Next(s, a), tid, id) {
      if tid in s.tasks && s.tasks[tid] == RetryDiscard(id) {
        NewRowIsOwn(s, a, id);
      } else {
        TurnsToDiscard(s, a, tid, id);
        assert TaskOk(s, s.tasks[tid]);
      }
    }
  }

  // ---------------------------------------------------------------- runs in which no log entry raises

  ghost predicate Quiet(a: Action) {
    a.RetryAdvance? ==> a.fault != LogRaises
  }

  ghost predicate NothingDoomed(s: System) {
    s.stripped == {} && forall tid, id :: !Dooms(s, tid, id)
  }

  lemma StripsTheDoomed(s: System, a: Action, id: JobId)
    requires Strips(s, a, id)
    ensures exists tid :: Dooms(s, tid, id)
  {
    assert Dooms(s, a.tid, id);
  }

  lemma QuietStep(s: System, a: Action)
    requires Inv(s) && NothingDoomed(s) && Quiet(a)
    ensures NothingDoomed(Next(s, a))
  {
    hide Inv, Next;
    forall tid, id ensures !Dooms(Next(s, a), tid, id) {
      if Dooms(Next(s, a), tid, id) { DoomedByLog(s, a, tid, id); }
    }
    forall id ensures id !in Next(s, a).stripped {
      StrippedByCause(s, a, id);
      if Strips(s, a, id) { StripsTheDoomed(s, a, id); }
    }
  }

  lemma {:induction false} QuietAlways(s: System, actions: seq<Action>)
    requires Inv(s) && NothingDoomed(s) && forall a | a in actions :: Quiet(a)
    ensures NothingDoomed(RunActions(s, actions))
    decreases |actions|
  {
    hide Inv, Next, NothingDoomed, Quiet;
    if actions != [] {
      assert actions[0] in actions && forall a | a in actions[1..] :: a in actions;
      NextKeeps(s, actions[0]);
      QuietStep(s, actions[0]);
      QuietAlways(Next(s, actions[0]), actions[1..]);
    }
  }
}
