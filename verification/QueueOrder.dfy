/**
 The jobs table with its queue_order column refines an abstract waiting line.

 `Abstract` is the line an operator thinks of: who waits, in which order, and who is being served.
 `StepRefines` shows that every transaction does to the table what `AbstractNext` does to the line.
 `AbstractNext` looks at queue_order in one case only: when a reorder was accepted since the claim,
 recovery puts the interrupted job where its old number belongs.
 */
module QueueOrder {
  import opened Options
  import opened QueueTables
  import opened Sequences

  /** `pinned` holds while no reorder was accepted since the active job was claimed. */
  datatype Abstract = Abstract(waiting: seq<JobId>, active: Option<JobId>, pinned: bool)

  ghost predicate Sorted(q: seq<JobId>, t: Tables) {
    && (forall id | id in q :: id in t.jobs)
    && (forall i, j | 0 <= i < j < |q| :: Before(t.jobs[q[i]], t.jobs[q[j]]))
  }

  /** `q` lists the queued jobs in ORDER BY order. */
  ghost predicate IsQueue(q: seq<JobId>, t: Tables) {
    && Sorted(q, t)
    && (forall id :: id in q <==> id in t.jobs && t.jobs[id].state == Queued)
  }

  ghost predicate Refines(a: Abstract, t: Tables) {
    && IsQueue(a.waiting, t)
    && (forall id :: IsRunning(t, id) <==> a.active == Some(id))
    && (a.active.Some? && a.pinned ==>
          forall id | id in a.waiting :: Before(t.jobs[a.active.value], t.jobs[id]))
  }

  // ---------------------------------------------------------------- sequences

  function Without(q: seq<JobId>, id: JobId): seq<JobId> {
    if q == [] then [] else (if q[0] == id then [] else [q[0]]) + Without(q[1..], id)
  }

  lemma {:induction false} WithoutKeepsOrder(q: seq<JobId>, id: JobId, t: Tables)
    requires Sorted(q, t)
    ensures Sorted(Without(q, id), t)
    ensures forall x :: x in Without(q, id) <==> x in q && x != id
  {
    if q != [] {
      WithoutKeepsOrder(q[1..], id, t);
      var rest := Without(q[1..], id);
      forall x | x in rest ensures Before(t.jobs[q[0]], t.jobs[x]) {
        var k :| 0 <= k < |q[1..]| && q[1..][k] == x;
        assert q[k + 1] == x;
      }
    }
  }

  lemma {:induction false} DistinctLength<T>(s: seq<T>)
    ensures |set x | x in s| <= |s|
    ensures |set x | x in s| == |s| <==> NoDuplicates(s)
  {
    if s != [] {
      var front, last := s[..|s| - 1], s[|s| - 1];
      DistinctLength(front);
      assert s == front + [last];
      var all, fewer := set x | x in s, set x | x in front;
      assert all == fewer + {last};
      if last in front {
        assert all == fewer;
        var k :| 0 <= k < |front| && front[k] == last;
        assert s[k] == s[|s| - 1];
      } else {
        assert |all| == |fewer| + 1;
        if NoDuplicates(front) {
          assert forall i, j | 0 <= i < j < |s| :: s[i] != s[j];
        } else {
          var i, j :| 0 <= i < j < |front| && front[i] == front[j];
          assert s[i] == s[j];
        }
      }
    }
  }

  lemma {:induction false} OccursOnce<T>(s: seq<T>, x: T)
    requires NoDuplicates(s)
    ensures multiset(s)[x] == if x in s then 1 else 0
  {
    if s != [] {
      var front, last := s[..|s| - 1], s[|s| - 1];
      OccursOnce(front, x);
      assert s == front + [last];
      forall k | 0 <= k < |front| ensures front[k] != last { assert s[k] != s[|s| - 1]; }
    }
  }

  lemma SortedHasNoDuplicates(q: seq<JobId>, t: Tables)
    requires Sorted(q, t)
    ensures NoDuplicates(q)
  {
    forall i, j | 0 <= i < j < |q| ensures q[i] != q[j] {
      assert Before(t.jobs[q[i]], t.jobs[q[j]]);
    }
  }

  lemma FirstMember(q: seq<JobId>)
    requires q != []
    ensures q[0] in q
  {}

  lemma SameFirst(p: seq<JobId>, q: seq<JobId>, t: Tables)
    requires Sorted(p, t) && Sorted(q, t) && p != [] && q != [] && p[0] in q && q[0] in p
    ensures p[0] == q[0]
  {
    var i :| 0 <= i < |q| && q[i] == p[0];
    var j :| 0 <= j < |p| && p[j] == q[0];
    assert i == 0 || Before(t.jobs[q[0]], t.jobs[p[0]]);
    assert j == 0 || Before(t.jobs[p[0]], t.jobs[q[0]]);
  }

  /** A listing in strict order is determined by its elements. */
  lemma {:induction false} SortedUnique(p: seq<JobId>, q: seq<JobId>, t: Tables)
    requires Sorted(p, t) && Sorted(q, t) && forall id :: id in p <==> id in q
    ensures p == q
  {
    if p == [] {
      if q != [] { FirstMember(q); assert false; }
    } else {
      assert p[0] in q;
      assert q[0] in p;
      SameFirst(p, q, t);
      SortedHasNoDuplicates(p, t);
      SortedHasNoDuplicates(q, t);
      forall id ensures id in p[1..] <==> id in q[1..] {
        assert id in p <==> id == p[0] || id in p[1..];
        assert id in q <==> id == q[0] || id in q[1..];
      }
      SortedUnique(p[1..], q[1..], t);
    }
  }

  // ---------------------------------------------------------------- listing

  /** Puts `id` where its key belongs. */
  function Place(q: seq<JobId>, id: JobId, t: Tables): seq<JobId>
    requires id in t.jobs && forall x | x in q :: x in t.jobs
  {
    if q == [] || Before(t.jobs[id], t.jobs[q[0]]) then [id] + q else [q[0]] + Place(q[1..], id, t)
  }

  lemma PrependSorted(first: JobId, q: seq<JobId>, t: Tables)
    requires Sorted(q, t) && first in t.jobs && forall x | x in q :: Before(t.jobs[first], t.jobs[x])
    ensures Sorted([first] + q, t)
  {}

  lemma FirstIsLeast(q: seq<JobId>, t: Tables)
    requires Sorted(q, t) && q != []
    ensures Sorted(q[1..], t) && forall x | x in q[1..] :: Before(t.jobs[q[0]], t.jobs[x])
  {
    forall k | 0 <= k < |q[1..]| ensures Before(t.jobs[q[0]], t.jobs[q[1..][k]]) {
      assert q[1..][k] == q[k + 1];
    }
  }

  lemma {:induction false} PlaceSorted(q: seq<JobId>, id: JobId, t: Tables)
    requires Sorted(q, t) && id in t.jobs && id !in q && Distinct(t)
    ensures Sorted(Place(q, id, t), t)
    ensures forall x :: x in Place(q, id, t) <==> x in q || x == id
  {
    if q == [] {
    } else {
      FirstIsLeast(q, t);
      if Before(t.jobs[id], t.jobs[q[0]]) {
        PrependSorted(id, q, t);
      } else {
        assert q[0] in t.jobs && q[0] != id;
        PlaceSorted(q[1..], id, t);
        PrependSorted(q[0], Place(q[1..], id, t), t);
        assert forall x :: x in q <==> x == q[0] || x in q[1..];
      }
    }
  }

  lemma {:induction false} ListingExists(t: Tables, ids: set<JobId>) returns (q: seq<JobId>)
    requires Distinct(t) && ids <= t.jobs.Keys
    ensures Sorted(q, t) && forall id :: id in q <==> id in ids
  {
    if ids == {} {
      q := [];
    } else {
      var id :| id in ids;
      var rest := ListingExists(t, ids - {id});
      PlaceSorted(rest, id, t);
      q := Place(rest, id, t);
    }
  }

  /** SELECT ... WHERE state='queued' ORDER BY queue_order,created_at has exactly one answer. */
  lemma QueueExistsOnce(t: Tables)
    requires Distinct(t)
    ensures exists q :: IsQueue(q, t) && forall p | IsQueue(p, t) :: p == q
  {
    var q := ListingExists(t, IdsIn(t, Queued));
    assert IsQueue(q, t);
    forall p | IsQueue(p, t) ensures p == q { SortedUnique(p, q, t); }
  }

  lemma HeadIsFirst(q: seq<JobId>, t: Tables)
    requires IsQueue(q, t)
    ensures Head(t) == if q == [] then None else Some(q[0])
  {
    if q != [] {
      assert q[0] in q;
      forall other | other in t.jobs && t.jobs[other].state == Queued && other != q[0]
        ensures Before(t.jobs[q[0]], t.jobs[other])
      {
        assert other in q;
        var k :| 0 <= k < |q| && q[k] == other;
      }
      assert IsHead(t, q[0]);
      assert forall id | IsHead(t, id) :: id == q[0];
    }
  }

  /** The check of `reorder` (equal sets and equal lengths) accepts exactly the permutations of the line. */
  lemma ReorderAcceptsPermutations(q: seq<JobId>, t: Tables, ids: seq<JobId>, revision: nat)
    requires IsQueue(q, t)
    ensures ReorderAccepted(t, ids, revision) <==> t.control.revision == revision && multiset(ids) == multiset(q)
  {
    SortedHasNoDuplicates(q, t);
    DistinctLength(q);
    DistinctLength(ids);
    var given, queued := set id | id in ids, set id | id in q;
    assert queued == IdsIn(t, Queued);
    if ReorderAccepted(t, ids, revision) {
      assert given == queued && |given| == |ids|;
      assert NoDuplicates(ids);
      forall id ensures multiset(ids)[id] == multiset(q)[id] {
        OccursOnce(ids, id);
        OccursOnce(q, id);
        assert id in ids <==> id in given;
        assert id in q <==> id in queued;
      }
    }
    if multiset(ids) == multiset(q) {
      assert |ids| == |multiset(ids)| == |q|;
      forall id ensures id in ids <==> id in q {
        assert id in ids <==> id in multiset(ids);
        assert id in q <==> id in multiset(q);
      }
      assert given == queued;
    }
  }

  // ---------------------------------------------------------------- the line and the table

  ghost function AbstractNext(a: Abstract, t: Tables, op: Operation): Abstract {
    match op
    case Enqueue(id, key, _, _, _, _, _, _) =>
      if FindByKey(t, key).Some? || id in t.jobs then a else a.(waiting := a.waiting + [id])
    case SetControl(_, _, _, _) => a
    case ClaimNext(_) =>
      if t.control.paused || t.control.maintenance || a.waiting == [] then a
      else Abstract(a.waiting[1..], Some(a.waiting[0]), true)
    case Progress(_, _) => a
    case Complete(id, _, _, _, _) => if a.active == Some(id) then a.(active := None) else a
    case Fail(id, _, _, _) => if a.active == Some(id) then a.(active := None) else a
    case Cancel(id, _, _) => Leave(a, id)
    case Recover =>
      if a.active.None? then a
      else if a.pinned then Abstract([a.active.value] + a.waiting, None, false)
      else if Refines(a, t) then Abstract(Place(a.waiting, a.active.value, t), None, false)
      else a
    case Reorder(ids, revision) =>
      if t.control.revision == revision && multiset(ids) == multiset(a.waiting)
      then a.(waiting := ids, pinned := false) else a
    case Delete(id, terminalOnly) => if terminalOnly then a else Leave(a, id)
  }

  function Leave(a: Abstract, id: JobId): Abstract {
    a.(waiting := Without(a.waiting, id), active := if a.active == Some(id) then None else a.active)
  }

  lemma EnqueueAppends(a: Abstract, t: Tables, op: Operation)
    requires Refines(a, t) && op.Enqueue?
    ensures Refines(AbstractNext(a, t, op), Apply(t, op))
  {
    var t', a' := Apply(t, op), AbstractNext(a, t, op);
    if a' != a {
      forall id | id in a'.waiting ensures id in t'.jobs { }
      forall i, j | 0 <= i < j < |a'.waiting| ensures Before(t'.jobs[a'.waiting[i]], t'.jobs[a'.waiting[j]]) {
        assert a'.waiting[i] in a.waiting;
      }
      forall id ensures id in a'.waiting <==> id in t'.jobs && t'.jobs[id].state == Queued {
        assert id in a'.waiting <==> id in a.waiting || id == op.id;
      }
      forall id ensures IsRunning(t', id) <==> a'.active == Some(id) {
        assert IsRunning(t, id) <==> a.active == Some(id);
      }
      if a.active.Some? { assert IsRunning(t, a.active.value); }
    }
  }

  lemma ClaimPops(a: Abstract, t: Tables, now: Time)
    requires Refines(a, t) && a.active.None?
    ensures Refines(AbstractNext(a, t, ClaimNext(now)), Apply(t, ClaimNext(now)))
  {
    hide LogOf, NextSequence;
    HeadIsFirst(a.waiting, t);
    if CanClaim(t) {
      var t' := ClaimHead(t, now);
      var first, rest := a.waiting[0], a.waiting[1..];
      assert t'.jobs == t.jobs[first := t.jobs[first].(state := Running, stage := "starting", startedAt := Some(now))];
      SortedHasNoDuplicates(a.waiting, t);
      assert forall id :: id in a.waiting <==> id == first || id in rest;
      assert forall id :: !IsRunning(t, id);
      assert Sorted(rest, t');
    }
  }

  lemma LeaveRefines(a: Abstract, t: Tables, t': Tables, id: JobId)
    requires Refines(a, t) && t'.jobs.Keys - {id} == t.jobs.Keys - {id}
    requires forall other | other in t.jobs && other in t'.jobs && other != id :: t'.jobs[other] == t.jobs[other]
    requires id in t'.jobs ==> t'.jobs[id].state.Terminal()
    ensures Refines(Leave(a, id), t')
  {
    WithoutKeepsOrder(a.waiting, id, t);
    var w := Without(a.waiting, id);
    forall other | other in w ensures other in t'.jobs && t'.jobs[other] == t.jobs[other] {
      assert other in t.jobs.Keys - {id};
    }
    forall other ensures other in w <==> other in t'.jobs && t'.jobs[other].state == Queued {
      assert other != id ==> (other in t.jobs.Keys - {id} <==> other in t'.jobs.Keys - {id});
    }
    forall other ensures IsRunning(t', other) <==> Leave(a, id).active == Some(other) {
      assert other != id ==> (other in t.jobs.Keys - {id} <==> other in t'.jobs.Keys - {id});
      assert IsRunning(t, other) <==> a.active == Some(other);
    }
  }

  lemma {:induction false} WithoutStranger(q: seq<JobId>, id: JobId)
    requires id !in q
    ensures Without(q, id) == q
  {
    if q != [] { WithoutStranger(q[1..], id); }
  }

  lemma StrangerLeaves(a: Abstract, t: Tables, id: JobId)
    requires Refines(a, t) && (id !in t.jobs || t.jobs[id].state.Terminal())
    ensures Leave(a, id) == a
  {
    WithoutStranger(a.waiting, id);
    assert !IsRunning(t, id);
  }

  lemma CancelLeaves(a: Abstract, t: Tables, id: JobId, now: Time, ttl: nat)
    requires Refines(a, t)
    ensures Refines(Leave(a, id), CancelJob(t, id, now, ttl))
  {
    if id in t.jobs && !t.jobs[id].state.Terminal() {
      LeaveRefines(a, t, CancelJob(t, id, now, ttl), id);
    } else {
      StrangerLeaves(a, t, id);
    }
  }

  lemma DeleteLeaves(a: Abstract, t: Tables, id: JobId, terminalOnly: bool)
    requires Refines(a, t)
    ensures Refines(AbstractNext(a, t, Delete(id, terminalOnly)), DeleteRow(t, id, terminalOnly))
  {
    if CanDelete(t, id, terminalOnly) {
      LeaveRefines(a, t, DeleteRow(t, id, terminalOnly), id);
      if terminalOnly { StrangerLeaves(a, t, id); }
    } else if !terminalOnly {
      StrangerLeaves(a, t, id);
    }
  }

  lemma FinishLeaves(a: Abstract, t: Tables, op: Operation)
    requires Refines(a, t) && (op.Complete? || op.Fail?)
    ensures Refines(AbstractNext(a, t, op), Apply(t, op))
  {
    assert IsRunning(t, op.id) <==> a.active == Some(op.id);
    if IsRunning(t, op.id) {
      LeaveRefines(a, t, Apply(t, op), op.id);
      WithoutStranger(a.waiting, op.id);
    }
  }

  lemma ProgressStays(a: Abstract, t: Tables, id: JobId, stage: string)
    requires Refines(a, t)
    ensures Refines(a, ReportProgress(t, id, stage))
  {
    var t' := ReportProgress(t, id, stage);
    assert forall other :: IsRunning(t', other) <==> IsRunning(t, other);
    if a.active.Some? { assert IsRunning(t, a.active.value); }
    assert Sorted(a.waiting, t');
  }

  lemma ControlStays(a: Abstract, t: Tables, paused: Option<bool>, maintenance: Option<bool>, mode: Option<Mode>,
                     expected: Option<nat>)
    requires Refines(a, t)
    ensures Refines(a, ChangeControl(t, paused, maintenance, mode, expected))
  {
    assert forall id :: IsRunning(ChangeControl(t, paused, maintenance, mode, expected), id) <==> IsRunning(t, id);
  }

  lemma ReorderInstalls(a: Abstract, t: Tables, ids: seq<JobId>, revision: nat)
    requires Refines(a, t)
    ensures Refines(AbstractNext(a, t, Reorder(ids, revision)), InstallOrder(t, ids, revision))
  {
    ReorderAcceptsPermutations(a.waiting, t, ids, revision);
    if ReorderAccepted(t, ids, revision) {
      var t' := InstallOrder(t, ids, revision);
      DistinctLength(ids);
      forall id | id in ids ensures id in t.jobs && t.jobs[id].state == Queued { assert id in IdsIn(t, Queued); }
      forall id ensures id in ids <==> id in t'.jobs && t'.jobs[id].state == Queued {
        assert id in ids <==> id in IdsIn(t, Queued);
      }
      forall id ensures IsRunning(t', id) <==> a.active == Some(id) {
        assert IsRunning(t, id) <==> a.active == Some(id);
      }
    }
  }

  lemma RecoverTouchesRunning(a: Abstract, t: Tables)
    requires Refines(a, t)
    ensures forall id :: !IsRunning(RecoverAll(t), id)
    ensures RecoverAll(t).jobs.Keys == t.jobs.Keys
    ensures forall id | id in t.jobs && a.active != Some(id) :: RecoverAll(t).jobs[id] == t.jobs[id]
    ensures a.active.Some? ==> IsRunning(t, a.active.value) && a.active.value !in a.waiting
  {
    if a.active.Some? { assert IsRunning(t, a.active.value); }
    forall id | id in t.jobs && a.active != Some(id) ensures RecoverAll(t).jobs[id] == t.jobs[id] {
      assert !IsRunning(t, id);
    }
  }

  predicate SameKey(a: Job, b: Job) {
    a.queueOrder == b.queueOrder && a.createdAt == b.createdAt && a.rowNumber == b.rowNumber
  }

  lemma SortedTransfers(q: seq<JobId>, t: Tables, t': Tables)
    requires Sorted(q, t) && t'.jobs.Keys == t.jobs.Keys
    requires forall id | id in t.jobs :: SameKey(t'.jobs[id], t.jobs[id])
    ensures Sorted(q, t')
  {}

  lemma RequeuedLine(a: Abstract, t: Tables, line: seq<JobId>)
    requires Refines(a, t) && a.active.Some? && Sorted(line, t)
    requires forall id :: id in line <==> id in a.waiting || id == a.active.value
    ensures IsQueue(line, RecoverAll(t))
  {
    RecoverTouchesRunning(a, t);
    SortedTransfers(line, t, RecoverAll(t));
  }

  lemma RecoverReturnsPinned(a: Abstract, t: Tables)
    requires Refines(a, t) && a.active.Some? && a.pinned
    ensures IsQueue([a.active.value] + a.waiting, RecoverAll(t))
  {
    RecoverTouchesRunning(a, t);
    PrependSorted(a.active.value, a.waiting, t);
    RequeuedLine(a, t, [a.active.value] + a.waiting);
  }

  lemma RecoverReturns(a: Abstract, t: Tables)
    requires Refines(a, t) && Distinct(t)
    ensures Refines(AbstractNext(a, t, Recover), RecoverAll(t))
  {
    RecoverTouchesRunning(a, t);
    if a.active.None? {
      SortedTransfers(a.waiting, t, RecoverAll(t));
    } else if a.pinned {
      RecoverReturnsPinned(a, t);
    } else {
      PlaceSorted(a.waiting, a.active.value, t);
      RequeuedLine(a, t, Place(a.waiting, a.active.value, t));
    }
  }

  /** Every transaction of a single-worker service does to the table what AbstractNext does to the line. */
  lemma StepRefines(a: Abstract, t: Tables, op: Operation)
    requires Refines(a, t) && TablesOk(t) && (op.ClaimNext? ==> a.active.None?)
    ensures Refines(AbstractNext(a, t, op), Apply(t, op))
  {
    hide Refines, EnqueueRow, ClaimHead, ChangeControl, ReportProgress, FinishJob, CancelJob, RecoverAll, InstallOrder,
      DeleteRow;
    hide Leave, Place, CanClaim;
    assert Distinct(t) by { DistinctRows(t); }
    hide TablesOk, Distinct;
    match op
    case Enqueue(_, _, _, _, _, _, _, _) => EnqueueAppends(a, t, op);
    case SetControl(paused, maintenance, mode, expected) => ControlStays(a, t, paused, maintenance, mode, expected);
    case ClaimNext(now) => ClaimPops(a, t, now);
    case Progress(id, stage) => ProgressStays(a, t, id, stage);
    case Complete(_, _, _, _, _) => FinishLeaves(a, t, op);
    case Fail(_, _, _, _) => FinishLeaves(a, t, op);
    case Cancel(id, now, ttl) => CancelLeaves(a, t, id, now, ttl);
    case Recover => RecoverReturns(a, t);
    case Reorder(ids, revision) => ReorderInstalls(a, t, ids, revision);
    case Delete(id, terminalOnly) => DeleteLeaves(a, t, id, terminalOnly);
  }

  /** Claims happen only while nothing runs; ServiceInvariants shows that the service keeps to this. */
  ghost predicate SingleWorker(t: Tables, ops: seq<Operation>)
    decreases |ops|
  {
    ops == [] || ((ops[0].ClaimNext? ==> forall id :: !IsRunning(t, id)) && SingleWorker(Apply(t, ops[0]), ops[1..]))
  }

  ghost function AbstractRun(a: Abstract, t: Tables, ops: seq<Operation>): Abstract
    decreases |ops|
  {
    if ops == [] then a else AbstractRun(AbstractNext(a, t, ops[0]), Apply(t, ops[0]), ops[1..])
  }

  /** The refinement over whole runs. */
  lemma {:induction false} RunRefines(a: Abstract, t: Tables, ops: seq<Operation>)
    requires Refines(a, t) && TablesOk(t) && SingleWorker(t, ops)
    ensures Refines(AbstractRun(a, t, ops), Run(t, ops))
    decreases |ops|
  {
    if ops != [] {
      var op := ops[0];
      assert a.active.Some? ==> IsRunning(t, a.active.value);
      StepRefines(a, t, op);
      ApplyOk(t, op);
      RunRefines(AbstractNext(a, t, op), Apply(t, op), ops[1..]);
    }
  }

  /** No reorder along the run is accepted; refused ones may be asked for at any time. */
  ghost predicate NoReorderAccepted(t: Tables, ops: seq<Operation>)
    decreases |ops|
  {
    ops == [] || ((ops[0].Reorder? ==> !ReorderAccepted(t, ops[0].ids, ops[0].revision))
                  && NoReorderAccepted(Apply(t, ops[0]), ops[1..]))
  }

  /**
   Without an accepted reorder whoever is being served stays ahead of the line, also across recoveries and later claims.
   */
  lemma PinnedStep(a: Abstract, t: Tables, op: Operation)
    requires Refines(a, t) && (a.active.Some? ==> a.pinned)
    requires op.Reorder? ==> !ReorderAccepted(t, op.ids, op.revision)
    ensures AbstractNext(a, t, op).active.Some? ==> AbstractNext(a, t, op).pinned
  {
    if op.Reorder? { ReorderAcceptsPermutations(a.waiting, t, op.ids, op.revision); }
  }

  lemma {:induction false} StaysPinned(a: Abstract, t: Tables, ops: seq<Operation>)
    requires Refines(a, t) && TablesOk(t) && SingleWorker(t, ops) && NoReorderAccepted(t, ops)
    requires a.active.Some? ==> a.pinned
    ensures AbstractRun(a, t, ops).active.Some? ==> AbstractRun(a, t, ops).pinned
    decreases |ops|
  {
    hide TablesOk, Apply, FindByKey, ReorderAccepted, AbstractNext;
    if ops != [] {
      PinnedStep(a, t, ops[0]);
      ClaimsWhenIdle(a, t, ops[0]);
      StepRefines(a, t, ops[0]);
      ApplyOk(t, ops[0]);
      StaysPinned(AbstractNext(a, t, ops[0]), Apply(t, ops[0]), ops[1..]);
    }
  }

  lemma ClaimsWhenIdle(a: Abstract, t: Tables, op: Operation)
    requires Refines(a, t) && (op.ClaimNext? ==> forall id :: !IsRunning(t, id))
    ensures op.ClaimNext? ==> a.active.None?
  {
    if a.active.Some? { assert IsRunning(t, a.active.value) <==> a.active == Some(a.active.value); }
  }

  /**
   A job that a crash interrupts goes back to the head of the line unless a reorder was accepted since it was claimed:
   along the run from its claim anything else may happen, refused reorders included.
   */
  lemma InterruptedJobReturnsToHead(a: Abstract, t: Tables, ops: seq<Operation>, t': Tables, line: seq<JobId>,
                                    id: JobId)
    requires Refines(a, t) && TablesOk(t) && SingleWorker(t, ops) && NoReorderAccepted(t, ops)
    requires a.active.Some? ==> a.pinned
    requires t' == Run(t, ops) && line == AbstractRun(a, t, ops).waiting && IsRunning(t', id)
    ensures IsQueue(line, t') && IsQueue([id] + line, RecoverAll(t'))
  {
    StaysPinned(a, t, ops);
    RunRefines(a, t, ops);
    var a' := AbstractRun(a, t, ops);
    assert a'.active == Some(id);
    RecoverReturnsPinned(a', t');
  }

  /** A claim starts such a run. */
  lemma ClaimPins(a: Abstract, t: Tables, now: Time)
    requires Refines(a, t) && a.active.None?
    ensures var a' := AbstractNext(a, t, ClaimNext(now));
            Refines(a', ClaimHead(t, now)) && (a'.active.Some? ==> a'.pinned)
  {
    ClaimPops(a, t, now);
  }
}
