/** Directories that never got a row, that no program answers for, and that nothing ever removes. */
module ServiceOrphans {
  import opened QueueTables
  import opened ServiceSystem
  import opened ServiceInvariants

  ghost predicate Orphan(s: System, id: JobId) {
    id in s.disk && id !in s.accepted && !Owned(s, id)
  }

  /** The archive cannot be moved into a submit's new directory. */
  ghost predicate MoveRaises(s: System, a: Action, id: JobId) {
    && a.SubmitAdvance? && a.tid in s.tasks && s.tasks[a.tid].SubmitMove?
    && s.tasks[a.tid].id == id && a.fault == PlacingRaises
  }

  /** The source archive cannot be copied, or is no longer there. */
  ghost predicate CopyRaises(s: System, a: Action, id: JobId) {
    && a.RetryAdvance? && a.tid in s.tasks && s.tasks[a.tid].RetryCopy? && s.tasks[a.tid].id == id
    && (a.fault == PlacingRaises || !(s.tasks[a.tid].root in s.disk && s.disk[s.tasks[a.tid].root].Some?))
  }

  /** The process dies while a program is still filling the directory. */
  ghost predicate CrashStrands(s: System, a: Action, id: JobId) {
    a.Crash? && id in s.disk && id !in s.accepted && Owned(s, id)
  }

  ghost predicate Strands(s: System, a: Action, id: JobId) {
    MoveRaises(s, a, id) || CopyRaises(s, a, id) || CrashStrands(s, a, id)
  }

  // ---------------------------------------------------------------- orphans stay

  /** A step of program `tid` leaves a directory alone that the program does not own. */
  ghost predicate Spares(s: System, s': System, tid: TaskId, id: JobId) {
    && id in s'.disk && id !in s'.accepted
    && (tid in s'.tasks ==> id !in Owns(s'.tasks[tid]))
    && forall i | i in s'.tasks && i != tid :: i in s.tasks && s'.tasks[i] == s.tasks[i]
  }

  lemma SparedStays(s: System, s': System, tid: TaskId, id: JobId)
    requires Orphan(s, id) && Spares(s, s', tid, id)
    ensures Orphan(s', id)
  {
    hide Owns;
  }

  lemma SubmitSpares(s: System, tid: TaskId, drawn: JobId, fault: Fault, id: JobId)
    requires Orphan(s, id) && tid in s.tasks && id in s.used
    ensures Spares(s, NextSubmit(s, tid, drawn, fault), tid, id)
  {
    hide FindByKey;
    assert id !in Owns(s.tasks[tid]);
  }

  lemma RetrySpares(s: System, tid: TaskId, drawn: JobId, fault: Fault, key: string, id: JobId)
    requires Orphan(s, id) && tid in s.tasks && id in s.used
    ensures Spares(s, NextRetry(s, tid, drawn, fault, key), tid, id)
  {
    hide FindByKey;
    assert id !in Owns(s.tasks[tid]);
  }

  lemma RemovalSpares(s: System, tid: TaskId, id: JobId)
    requires Orphan(s, id) && tid in s.tasks && TaskOk(s, s.tasks[tid])
    ensures Spares(s, NextRemoval(s, tid), tid, id)
  {
    assert id !in Owns(s.tasks[tid]);
    if s.tasks[tid].CleanRemove? && s.tasks[tid].ids != [] {
      var ids := s.tasks[tid].ids;
      assert ids[0] in ids;
      assert Removable(s, ids[0]);
    }
  }

  /** Nothing that can happen removes an orphan, gives it a row or takes it over. */
  lemma OrphanStays(s: System, a: Action, id: JobId)
    requires Inv(s) && Orphan(s, id)
    ensures Orphan(Next(s, a), id)
  {
    hide Inv, TaskOk, NextSubmit, NextRetry, NextRemoval, Apply, OperationOf, FindByKey, CanDelete, Expired, CanClaim;
    InvParts(s);
    match a
    case SubmitAdvance(tid, drawn, fault, _) =>
      if tid in s.tasks {
        SubmitSpares(s, tid, drawn, fault, id);
        SparedStays(s, NextSubmit(s, tid, drawn, fault), tid, id);
      }
    case RetryAdvance(tid, drawn, fault, key, _) =>
      if tid in s.tasks {
        RetrySpares(s, tid, drawn, fault, key, id);
        SparedStays(s, NextRetry(s, tid, drawn, fault, key), tid, id);
      }
    case RemovalAdvance(tid) =>
      if tid in s.tasks {
        RemovalSpares(s, tid, id);
        SparedStays(s, NextRemoval(s, tid), tid, id);
      }
    case SubmitBegin(tid, _) => SparedStays(s, NextPrograms(s, a), tid, id);
    case RetryBegin(tid, _) => SparedStays(s, NextPrograms(s, a), tid, id);
    case DeleteCall(tid, _) => SparedStays(s, NextPrograms(s, a), tid, id);
    case CleanupBegin(tid, _, _) => SparedStays(s, NextPrograms(s, a), tid, id);
    case _ => OtherwiseStays(s, a, id);
  }

  lemma InvParts(s: System)
    requires Inv(s)
    ensures s.disk.Keys <= s.used && forall tid | tid in s.tasks :: TaskOk(s, s.tasks[tid])
  {}

  lemma OtherwiseStays(s: System, a: Action, id: JobId)
    requires Orphan(s, id)
    requires !a.SubmitAdvance? && !a.RetryAdvance? && !a.RemovalAdvance? && !a.SubmitBegin? && !a.RetryBegin?
    requires !a.DeleteCall? && !a.CleanupBegin?
    ensures Orphan(NextPrograms(s, a), id)
  {
    hide Owns, CanClaim;
    var s' := NextPrograms(s, a);
    assert s'.tasks == s.tasks || s'.tasks == map[];
  }

  // ---------------------------------------------------------------- orphans arise

  ghost predicate LeakedOk(s: System) {
    forall id | id in s.leaked :: Orphan(s, id)
  }

  lemma LeaksByCause(s: System, a: Action, id: JobId)
    ensures id in Next(s, a).leaked <==> id in s.leaked || Strands(s, a, id)
  {
    hide Apply, FindByKey, OperationOf, CanDelete, Expired, CanClaim, Owned;
  }

  lemma StrandedIsOrphan(s: System, a: Action, id: JobId)
    requires Inv(s) && Strands(s, a, id)
    ensures Orphan(Next(s, a), id)
  {
    hide TablesOk, InputOk, WorkerOk, OperationOk, Apply, FindByKey;
    if !a.Crash? { assert TaskOk(s, s.tasks[a.tid]) && id in Owns(s.tasks[a.tid]); }
  }

  lemma LeakedKept(s: System, a: Action)
    requires Inv(s) && LeakedOk(s)
    ensures LeakedOk(Next(s, a))
  {
    hide Inv, Next, Orphan, Strands;
    forall id | id in Next(s, a).leaked ensures Orphan(Next(s, a), id) {
      LeaksByCause(s, a, id);
      if id in s.leaked { OrphanStays(s, a, id); } else { StrandedIsOrphan(s, a, id); }
    }
  }

  lemma {:induction false} LeakedAlways(s: System, actions: seq<Action>)
    requires Inv(s) && LeakedOk(s)
    ensures LeakedOk(RunActions(s, actions))
    decreases |actions|
  {
    hide Inv, Next, LeakedOk;
    if actions != [] {
      NextKeeps(s, actions[0]);
      LeakedKept(s, actions[0]);
      LeakedAlways(Next(s, actions[0]), actions[1..]);
    }
  }
}
