/** The memory-mode plan and the out-of-memory fallback that starts from its choice. */
module MemoryModes {
  import opened Options
  import opened Arithmetic

  /** Execution modes from the fastest to the most frugal. */
  datatype Mode = Full | Balanced | Constrained | Minimal

  /** EXECUTION_MODES[index] */
  function ModeAt(index: nat): (mode: Mode)
    requires index < 4
    ensures (mode == Full <==> index == 0) && (mode == Balanced <==> index == 1)
    ensures (mode == Constrained <==> index == 2) && (mode == Minimal <==> index == 3)
  {
    if index == 0 then Full else if index == 1 then Balanced else if index == 2 then Constrained else Minimal
  }

  /** One self-test receipt; the peaks are the measured MiB. */
  datatype Receipt = Receipt(mode: Mode, passed: bool, peakReserved: real, peakAllocated: real, peakWorkingSet: real)

  datatype Machine = Machine(totalVram: int, freeVram: int, freeRam: int)

  datatype Candidate = Candidate(index: nat, requiredVram: int, requiredRam: int, fitsVram: bool, fitsRam: bool)

  /** int(x): truncation towards zero. */
  function Truncate(x: real): (t: int)
    ensures if x >= 0.0 then t as real <= x < (t + 1) as real else (t - 1) as real < x <= t as real
  { if x >= 0.0 then x.Floor else -(-x).Floor }

  /** A fifth of the card, at least 2 GiB and at most 6 GiB. */
  function Headroom(totalVram: int): (h: int)
    ensures 2048 <= h <= 6144
    ensures 2048 < h ==> 5 * (h - 1) < totalVram
    ensures h < 6144 ==> totalVram <= 5 * h
  {
    Max(2048, Min(6144, CeilDiv(Max(0, totalVram), 5)))
  }

  /** by_mode.get(mode): the last passed receipt of a mode. */
  function LastPassed(receipts: seq<Receipt>, mode: Mode): Option<Receipt> {
    if receipts == [] then None
    else
      var last := receipts[|receipts| - 1];
      if last.passed && last.mode == mode then Some(last) else LastPassed(receipts[..|receipts| - 1], mode)
  }

  /** The processor looks for the first passed receipt instead. */
  function FirstPassed(receipts: seq<Receipt>, mode: Mode): Option<Receipt> {
    if receipts == [] then None
    else if receipts[0].passed && receipts[0].mode == mode then Some(receipts[0])
    else FirstPassed(receipts[1..], mode)
  }

  ghost predicate Passed(receipts: seq<Receipt>, mode: Mode) {
    exists r | r in receipts :: r.passed && r.mode == mode
  }

  /** The receipt at `k` is a passed one of the mode. */
  predicate PassedAt(receipts: seq<Receipt>, mode: Mode, k: nat) {
    k < |receipts| && receipts[k].passed && receipts[k].mode == mode
  }

  /** by_mode keeps the last of several passed receipts. */
  lemma {:induction false} LastPassedIsLast(receipts: seq<Receipt>, mode: Mode)
    requires LastPassed(receipts, mode).Some?
    ensures exists k: nat :: PassedAt(receipts, mode, k) && receipts[k] == LastPassed(receipts, mode).value
                             && forall j: nat | PassedAt(receipts, mode, j) :: j <= k
  {
    var last := |receipts| - 1;
    if receipts[last].passed && receipts[last].mode == mode {
      assert PassedAt(receipts, mode, last);
    } else {
      LastPassedIsLast(receipts[..last], mode);
      var k: nat :| PassedAt(receipts[..last], mode, k) && receipts[..last][k] == LastPassed(receipts, mode).value
                    && forall j: nat | PassedAt(receipts[..last], mode, j) :: j <= k;
      assert PassedAt(receipts, mode, k);
      forall j: nat | PassedAt(receipts, mode, j) ensures j <= k { assert PassedAt(receipts[..last], mode, j); }
    }
  }

  /** The processor takes the first of them. */
  lemma {:induction false} FirstPassedIsFirst(receipts: seq<Receipt>, mode: Mode)
    requires FirstPassed(receipts, mode).Some?
    ensures exists k: nat :: PassedAt(receipts, mode, k) && receipts[k] == FirstPassed(receipts, mode).value
                             && forall j: nat | PassedAt(receipts, mode, j) :: k <= j
  {
    if receipts[0].passed && receipts[0].mode == mode {
      assert PassedAt(receipts, mode, 0);
    } else {
      FirstPassedIsFirst(receipts[1..], mode);
      var k: nat :| PassedAt(receipts[1..], mode, k) && receipts[1..][k] == FirstPassed(receipts, mode).value
                    && forall j: nat | PassedAt(receipts[1..], mode, j) :: k <= j;
      assert PassedAt(receipts, mode, k + 1) && receipts[k + 1] == receipts[1..][k];
      forall j: nat | PassedAt(receipts, mode, j) ensures k + 1 <= j {
        assert j > 0;
        assert PassedAt(receipts[1..], mode, j - 1);
      }
    }
  }

  lemma {:induction false} LastPassedExists(receipts: seq<Receipt>, mode: Mode)
    ensures LastPassed(receipts, mode).Some? <==> Passed(receipts, mode)
  {
    if receipts != [] {
      LastPassedExists(receipts[..|receipts| - 1], mode);
      assert receipts == receipts[..|receipts| - 1] + [receipts[|receipts| - 1]];
      assert receipts[|receipts| - 1] in receipts;
    }
  }

  lemma {:induction false} FirstPassedExists(receipts: seq<Receipt>, mode: Mode)
    ensures FirstPassed(receipts, mode).Some? <==> Passed(receipts, mode)
  {
    if receipts != [] {
      FirstPassedExists(receipts[1..], mode);
      assert receipts == [receipts[0]] + receipts[1..];
      assert receipts[0] in receipts;
    }
  }

  /** The larger peak in whole MiB beside the headroom. */
  function RequiredVram(r: Receipt, totalVram: int): (v: int)
    ensures r.peakReserved >= 0.0 && r.peakAllocated >= 0.0 ==>
              var peak := v - Headroom(totalVram);
              && (peak as real <= r.peakReserved || peak as real <= r.peakAllocated)
              && r.peakReserved < (peak + 1) as real && r.peakAllocated < (peak + 1) as real
  {
    Truncate(if r.peakReserved < r.peakAllocated then r.peakAllocated else r.peakReserved) + Headroom(totalVram)
  }

  /** Only the two modes that offload to system memory reserve any: a quarter more than measured and 1 GiB. */
  function RequiredRam(r: Receipt, index: nat): (v: int)
    ensures index < 2 ==> v == 0
    ensures index >= 2 && r.peakWorkingSet >= 0.0 ==>
              4 * (v - 1025) < 5 * r.peakWorkingSet.Floor <= 4 * (v - 1024)
  {
    if index >= 2 then CeilDiv(Truncate(r.peakWorkingSet) * 5, 4) + 1024 else 0
  }

  function CandidateOf(r: Receipt, index: nat, m: Machine): Candidate {
    Candidate(index, RequiredVram(r, m.totalVram), RequiredRam(r, index),
              m.freeVram >= RequiredVram(r, m.totalVram), m.freeRam >= RequiredRam(r, index))
  }

  /** A reported candidate: the requirements of the mode's receipt, each compared with what is free. */
  predicate CandidateOk(receipts: seq<Receipt>, m: Machine, c: Candidate) {
    && c.index < 4 && LastPassed(receipts, ModeAt(c.index)).Some?
    && c.requiredVram == RequiredVram(LastPassed(receipts, ModeAt(c.index)).value, m.totalVram)
    && c.requiredRam == RequiredRam(LastPassed(receipts, ModeAt(c.index)).value, c.index)
    && (c.fitsVram <==> c.requiredVram <= m.freeVram) && (c.fitsRam <==> c.requiredRam <= m.freeRam)
  }

  predicate Fits(receipts: seq<Receipt>, m: Machine, index: nat)
    requires index < 4
  {
    match LastPassed(receipts, ModeAt(index))
    case None => false
    case Some(r) => m.freeVram >= RequiredVram(r, m.totalVram) && m.freeRam >= RequiredRam(r, index)
  }

  /** The plan for this machine is mode `index`. */
  predicate Selects(receipts: seq<Receipt>, m: Machine, index: nat) {
    index < 4 && Fits(receipts, m, index) && forall j | 0 <= j < index :: !Fits(receipts, m, j)
  }

  /** The passed modes from an index on, in the order of EXECUTION_MODES. */
  function PassedFrom(receipts: seq<Receipt>, index: nat): (passed: seq<nat>)
    ensures forall k | 0 <= k < |passed| :: index <= passed[k] < 4
    decreases 4 - index
  {
    if index >= 4 then []
    else (if FirstPassed(receipts, ModeAt(index)).Some? then [index] else []) + PassedFrom(receipts, index + 1)
  }

  lemma PassedFromStep(receipts: seq<Receipt>, index: nat)
    ensures index >= 4 ==> PassedFrom(receipts, index) == []
    ensures index < 4 ==>
              (PassedFrom(receipts, index) == (if FirstPassed(receipts, ModeAt(index)).Some? then [index] else [])
                                              + PassedFrom(receipts, index + 1))
  {}

  lemma NextPassed(receipts: seq<Receipt>, index: nat)
    requires index < 4
    ensures FirstPassed(receipts, ModeAt(index)).Some? ==>
              PassedFrom(receipts, index) == [index] + PassedFrom(receipts, index + 1)
    ensures FirstPassed(receipts, ModeAt(index)).None? ==>
              PassedFrom(receipts, index) == PassedFrom(receipts, index + 1)
  {
    hide FirstPassed, ModeAt, PassedFrom;
    PassedFromStep(receipts, index);
  }

  lemma {:induction false} PassedFromIncreases(receipts: seq<Receipt>, index: nat)
    ensures forall j, k | 0 <= j < k < |PassedFrom(receipts, index)| ::
              PassedFrom(receipts, index)[j] < PassedFrom(receipts, index)[k]
    decreases 4 - index
  {
    hide FirstPassed, ModeAt, PassedFrom;
    PassedFromStep(receipts, index);
    if index < 4 { PassedFromIncreases(receipts, index + 1); }
  }

  lemma {:induction false} PassedFromMembers(receipts: seq<Receipt>, index: nat, i: nat)
    requires index <= i < 4
    ensures i in PassedFrom(receipts, index) <==> Passed(receipts, ModeAt(i))
    decreases 4 - index
  {
    hide FirstPassed, ModeAt, PassedFrom, Passed;
    PassedFromStep(receipts, index);
    FirstPassedExists(receipts, ModeAt(index));
    if index < i { PassedFromMembers(receipts, index + 1, i); }
  }

  lemma CandidateFits(receipts: seq<Receipt>, m: Machine, index: nat)
    requires index < 4
    ensures var r := LastPassed(receipts, ModeAt(index));
            if r.None? then !Fits(receipts, m, index)
            else
              var c := CandidateOf(r.value, index, m);
              && c.index == index && CandidateOk(receipts, m, c)
              && (Fits(receipts, m, index) <==> c.fitsVram && c.fitsRam)
  {}

  predicate CandidatesOk(receipts: seq<Receipt>, m: Machine, candidates: seq<Candidate>) {
    forall k | 0 <= k < |candidates| :: CandidateOk(receipts, m, candidates[k])
  }

  lemma NoCandidates(receipts: seq<Receipt>, m: Machine)
    ensures CandidatesOk(receipts, m, []) && Indices([]) == []
  {}

  lemma OneMore(receipts: seq<Receipt>, m: Machine, candidates: seq<Candidate>, c: Candidate, rest: seq<nat>)
    requires CandidatesOk(receipts, m, candidates) && CandidateOk(receipts, m, c)
    ensures CandidatesOk(receipts, m, candidates + [c])
    ensures Indices(candidates) + ([c.index] + rest) == Indices(candidates + [c]) + rest
  {
    hide CandidateOk;
    assert Indices(candidates + [c]) == Indices(candidates) + [c.index];
  }

  /** memory_mode_plan: examines passed modes until one fits. */
  method Plan(receipts: seq<Receipt>, m: Machine) returns (selected: Option<nat>, candidates: seq<Candidate>)
    ensures selected.Some? ==> Selects(receipts, m, selected.value)
    ensures selected.None? ==> forall index :: !Selects(receipts, m, index)
    ensures |candidates| <= |PassedFrom(receipts, 0)| && forall k | 0 <= k < |candidates| ::
              candidates[k].index == PassedFrom(receipts, 0)[k]
    ensures CandidatesOk(receipts, m, candidates)
    ensures forall k | 0 <= k < |candidates| - 1 :: !(candidates[k].fitsVram && candidates[k].fitsRam)
    ensures selected.Some? ==> candidates != [] && candidates[|candidates| - 1].index == selected.value
    ensures selected.None? ==> |candidates| == |PassedFrom(receipts, 0)|
  {
    hide LastPassed, FirstPassed, RequiredVram, RequiredRam, ModeAt, Passed, PassedFrom, CandidateOf, CandidateOk,
      CandidatesOk, Fits, Indices;
    candidates := [];
    NoCandidates(receipts, m);
    var index := 0;
    while index < 4
      invariant 0 <= index <= 4
      invariant forall j | 0 <= j < index :: !Fits(receipts, m, j)
      invariant PassedFrom(receipts, 0) == Indices(candidates) + PassedFrom(receipts, index)
      invariant forall k | 0 <= k < |candidates| :: !(candidates[k].fitsVram && candidates[k].fitsRam)
      invariant CandidatesOk(receipts, m, candidates)
    {
      PassedFromStep(receipts, index);
      LastPassedExists(receipts, ModeAt(index));
      FirstPassedExists(receipts, ModeAt(index));
      CandidateFits(receipts, m, index);
      var receipt := LastPassed(receipts, ModeAt(index));
      if receipt.Some? {
        var candidate := CandidateOf(receipt.value, index, m);
        OneMore(receipts, m, candidates, candidate, PassedFrom(receipts, index + 1));
        candidates := candidates + [candidate];
        IndexPrefix(candidates, PassedFrom(receipts, 0), PassedFrom(receipts, index + 1));
        if candidate.fitsVram && candidate.fitsRam { return Some(index), candidates; }
      }
      index := index + 1;
    }
    PassedFromStep(receipts, index);
    IndexPrefix(candidates, PassedFrom(receipts, 0), []);
    return None, candidates;
  }

  function Indices(candidates: seq<Candidate>): seq<nat> {
    seq(|candidates|, k requires 0 <= k < |candidates| => candidates[k].index)
  }

  lemma IndexPrefix(candidates: seq<Candidate>, passed: seq<nat>, rest: seq<nat>)
    requires passed == Indices(candidates) + rest
    ensures |candidates| == |passed| - |rest| && forall k | 0 <= k < |candidates| :: candidates[k].index == passed[k]
  {}

  lemma HeadroomMonotone(s: int, t: int)
    requires s <= t
    ensures Headroom(s) <= Headroom(t)
  {}

  predicate AtLeastAsRoomy(better: Machine, worse: Machine) {
    better.totalVram <= worse.totalVram && better.freeVram >= worse.freeVram && better.freeRam >= worse.freeRam
  }

  lemma FitsMonotone(receipts: seq<Receipt>, worse: Machine, better: Machine, index: nat)
    requires index < 4 && AtLeastAsRoomy(better, worse) && Fits(receipts, worse, index)
    ensures Fits(receipts, better, index)
  {
    hide Headroom, LastPassed, Truncate;
    HeadroomMonotone(better.totalVram, worse.totalVram);
  }

  /** More free memory, or a smaller card with as much of it free, never makes the plan choose a slower mode. */
  lemma PlanMonotone(receipts: seq<Receipt>, worse: Machine, better: Machine, index: nat)
    requires AtLeastAsRoomy(better, worse) && Selects(receipts, worse, index)
    ensures exists faster: nat :: faster <= index && Selects(receipts, better, faster)
  {
    hide Fits;
    FitsMonotone(receipts, worse, better, index);
    FirstFit(receipts, better, index);
  }

  lemma {:induction false} FirstFit(receipts: seq<Receipt>, m: Machine, index: nat)
    requires index < 4 && Fits(receipts, m, index)
    ensures exists first: nat :: first <= index && Selects(receipts, m, first)
  {
    hide Fits;
    if j: nat :| j < index && Fits(receipts, m, j) {
      FirstFit(receipts, m, j);
    } else {
      assert Selects(receipts, m, index);
    }
  }

  // ---------------------------------------------------------------- the fallback loop

  /** How a run request in one mode ends. */
  datatype Outcome = Finished | OutOfMemory | CancelReported | OtherError

  /** How the restart after an out-of-memory error ends; the progress reports in it notice a cancellation. */
  datatype Restart = Back | Broken | Interrupted

  /** What happens around one mode: a pending cancellation, a worker that cannot be replaced, the run, the restart. */
  datatype Trial = Trial(cancelled: bool, replaceFails: bool, run: Outcome, restart: Restart)

  datatype Result = Completed(index: nat) | Exhausted | Cancelled | Failed

  predicate Replaced(index: nat, t: Trial) {
    index == 0 || !t.replaceFails
  }

  predicate MovesOn(index: nat, t: Trial) {
    !t.cancelled && Replaced(index, t) && t.run == OutOfMemory && t.restart == Back
  }

  predicate Finishes(index: nat, t: Trial) {
    Replaced(index, t) && t.run == Finished
  }

  predicate Fails(index: nat, t: Trial) {
    !Replaced(index, t) || t.run == OtherError || (t.run == OutOfMemory && t.restart == Broken)
  }

  predicate Stopped(index: nat, t: Trial) {
    Replaced(index, t) && (t.run == CancelReported || (t.run == OutOfMemory && t.restart == Interrupted))
  }

  predicate AllMoveOn(attempted: seq<nat>, trials: seq<Trial>) {
    forall k | 0 <= k < |attempted| :: attempted[k] < |trials| && MovesOn(attempted[k], trials[attempted[k]])
  }

  /** How the last attempted mode ended. */
  predicate LastOne(attempted: seq<nat>, trials: seq<Trial>, how: (nat, Trial) -> bool)
    requires attempted != []
  {
    var last := attempted[|attempted| - 1];
    last < |trials| && how(last, trials[last])
  }

  /** A mode that moves on ends in no other way. */
  lemma MovedOn(attempted: seq<nat>, trials: seq<Trial>)
    requires attempted != [] && AllMoveOn(attempted, trials)
    ensures !LastOne(attempted, trials, Finishes) && !LastOne(attempted, trials, Fails)
            && !LastOne(attempted, trials, Stopped)
  {}

  /** The result, exactly, from the trials of the modes that were attempted and of the next one. */
  ghost predicate EndsAs(passed: seq<nat>, attempted: seq<nat>, trials: seq<Trial>, result: Result) {
    && (result.Completed? <==> attempted != [] && LastOne(attempted, trials, Finishes))
    && (result.Completed? ==> result.index == attempted[|attempted| - 1])
    && (result == Failed <==> attempted != [] && LastOne(attempted, trials, Fails))
    && (result == Cancelled <==>
        || (attempted != [] && LastOne(attempted, trials, Stopped))
        || (AllMoveOn(attempted, trials) && CancelledNext(passed, attempted, trials)))
    && (result == Exhausted <==> attempted == passed && AllMoveOn(attempted, trials))
  }

  /** A cancellation is noticed before the next mode is attempted. */
  predicate CancelledNext(passed: seq<nat>, attempted: seq<nat>, trials: seq<Trial>) {
    |attempted| < |passed| && passed[|attempted|] < |trials| && trials[passed[|attempted|]].cancelled
  }

  lemma EndsBefore(passed: seq<nat>, attempted: seq<nat>, index: nat, rest: seq<nat>, trials: seq<Trial>)
    requires passed == attempted + ([index] + rest) && AllMoveOn(attempted, trials)
    requires index < |trials| && trials[index].cancelled
    ensures EndsAs(passed, attempted, trials, Cancelled)
  {
    if attempted != [] { MovedOn(attempted, trials); }
    hide AllMoveOn, LastOne;
  }

  lemma EndsAfter(passed: seq<nat>, attempted: seq<nat>, index: nat, rest: seq<nat>, trials: seq<Trial>, result: Result)
    requires passed == attempted + ([index] + rest) && AllMoveOn(attempted, trials)
    requires index < |trials| && !trials[index].cancelled && !MovesOn(index, trials[index])
    requires result == Completed(index) || result == Failed || result == Cancelled
    requires result == Completed(index) <==> Finishes(index, trials[index])
    requires result == Failed <==> Fails(index, trials[index])
    requires result == Cancelled <==> Stopped(index, trials[index])
    ensures EndsAs(passed, attempted + [index], trials, result)
  {
    hide MovesOn, Finishes, Fails, Stopped;
    var more := attempted + [index];
    assert more[|attempted|] == index;
    assert !AllMoveOn(more, trials);
  }

  lemma EndsAll(passed: seq<nat>, trials: seq<Trial>)
    requires AllMoveOn(passed, trials)
    ensures EndsAs(passed, passed, trials, Exhausted)
  {
    if passed != [] { MovedOn(passed, trials); }
  }

  /** A prefix of the passed modes in which every mode but the last ran out of memory and the worker came back. */
  predicate Attempts(passed: seq<nat>, attempted: seq<nat>, trials: seq<Trial>) {
    && |attempted| <= |passed| && attempted == passed[..|attempted|]
    && (forall k | 0 <= k < |attempted| - 1 :: attempted[k] < |trials| && MovesOn(attempted[k], trials[attempted[k]]))
  }

  lemma Attempted(passed: seq<nat>, attempted: seq<nat>, index: nat, rest: seq<nat>, trials: seq<Trial>)
    requires passed == attempted + ([index] + rest) && AllMoveOn(attempted, trials) && index < |trials|
    ensures passed == (attempted + [index]) + rest
    ensures Attempts(passed, attempted, trials) && attempted != passed && Attempts(passed, attempted + [index], trials)
    ensures AllMoveOn(attempted + [index], trials) <==> MovesOn(index, trials[index])
  {
    hide MovesOn;
    var more := attempted + [index];
    assert more == passed[..|more|] && attempted == passed[..|attempted|];
    assert more[|attempted|] == index;
    assert forall k | 0 <= k < |attempted| :: more[k] == attempted[k];
  }

  class Processor {
    /** The mode the current worker process was started for. */
    var workerMode: Option<nat>

    /**
     One run request, in a worker started for its mode unless the mode is the first; None when the next mode is to be
     tried.
     */
    method RunOnce(index: nat, t: Trial) returns (stop: Option<Result>)
      requires !t.cancelled
      modifies this
      ensures stop == None <==> MovesOn(index, t)
      ensures stop == Some(Completed(index)) <==> Finishes(index, t)
      ensures stop.Some? ==> stop.value == Completed(index) || stop.value == Failed || stop.value == Cancelled
      ensures stop == Some(Failed) <==> Fails(index, t)
      ensures stop == Some(Cancelled) <==> Stopped(index, t)
      ensures workerMode == if index != 0 then Some(index) else old(workerMode)
    {
      if index != 0 {
        workerMode := Some(index);
        if t.replaceFails { return Some(Failed); }
      }
      match t.run {
        case Finished => return Some(Completed(index));
        case CancelReported => return Some(Cancelled);
        case OtherError => return Some(Failed);
        case OutOfMemory =>
          match t.restart
          case Back => return None;
          case Broken => return Some(Failed);
          case Interrupted => return Some(Cancelled);
      }
    }

    /** The attempt loop of `process`, from the planned mode on. */
    method RunWithFallback(receipts: seq<Receipt>, start: nat, trials: seq<Trial>)
      returns (result: Result, attempted: seq<nat>)
      requires start < 4 && |trials| == 4
      modifies this
      ensures Attempts(PassedFrom(receipts, start), attempted, trials)
      ensures forall k | 0 <= k < |attempted| :: !trials[attempted[k]].cancelled
      ensures EndsAs(PassedFrom(receipts, start), attempted, trials, result)
      ensures result.Completed? && result.index != 0 ==> workerMode == Some(result.index)
    {
      hide FirstPassed, ModeAt, PassedFrom, MovesOn, AllMoveOn, Attempts, Finishes, Fails, Stopped, EndsAs;
      attempted := [];
      var index := start;
      ghost var passed := PassedFrom(receipts, start);
      NoneMoveOn(trials);
      while index < 4
        invariant start <= index <= 4
        invariant passed == attempted + PassedFrom(receipts, index)
        invariant AllMoveOn(attempted, trials)
        invariant forall k | 0 <= k < |attempted| :: attempted[k] < 4 && !trials[attempted[k]].cancelled
      {
        NextPassed(receipts, index);
        if FirstPassed(receipts, ModeAt(index)).Some? {
          Attempted(passed, attempted, index, PassedFrom(receipts, index + 1), trials);
          if trials[index].cancelled {
            EndsBefore(passed, attempted, index, PassedFrom(receipts, index + 1), trials);
            result := Cancelled;
            return;
          }
          var stop := RunOnce(index, trials[index]);
          if stop.Some? {
            EndsAfter(passed, attempted, index, PassedFrom(receipts, index + 1), trials, stop.value);
            result, attempted := stop.value, attempted + [index];
            return;
          }
          attempted := attempted + [index];
        }
        index := index + 1;
      }
      PassedFromStep(receipts, index);
      assert passed == attempted;
      EndsAll(passed, trials);
      AllAttempted(passed, trials);
      result := Exhausted;
    }
  }

  lemma NoneMoveOn(trials: seq<Trial>)
    ensures AllMoveOn([], trials)
  {}

  lemma AllAttempted(passed: seq<nat>, trials: seq<Trial>)
    requires AllMoveOn(passed, trials)
    ensures Attempts(passed, passed, trials)
  {}

  /** The planned mode is the first one the fallback would attempt. */
  lemma FallbackStartsAtPlan(receipts: seq<Receipt>, m: Machine, index: nat)
    requires Selects(receipts, m, index)
    ensures PassedFrom(receipts, index) != [] && PassedFrom(receipts, index)[0] == index
  {
    hide FirstPassed, ModeAt, PassedFrom, RequiredVram, RequiredRam;
    PassedFromStep(receipts, index);
    LastPassedExists(receipts, ModeAt(index));
    FirstPassedExists(receipts, ModeAt(index));
  }

  /**
   What a fallback run from the planned mode attempts: that mode first, ever slower ones, and no passed one skipped.
   */
  lemma FallbackFollowsPlan(receipts: seq<Receipt>, m: Machine, index: nat, attempted: seq<nat>, trials: seq<Trial>)
    requires Selects(receipts, m, index) && Attempts(PassedFrom(receipts, index), attempted, trials) && attempted != []
    ensures attempted[0] == index && forall j, k | 0 <= j < k < |attempted| :: attempted[j] < attempted[k]
    ensures forall i | index <= i <= attempted[|attempted| - 1] ::
              i in attempted <==> i < 4 && Passed(receipts, ModeAt(i))
  {
    hide FirstPassed, ModeAt, PassedFrom, MovesOn, Passed, Fits;
    var passed := PassedFrom(receipts, index);
    FallbackStartsAtPlan(receipts, m, index);
    PassedFromIncreases(receipts, index);
    assert forall k | 0 <= k < |attempted| :: attempted[k] == passed[k];
    var last := |attempted| - 1;
    assert passed[last] < 4;
    forall i: nat | index <= i <= attempted[last] ensures i in attempted <==> i < 4 && Passed(receipts, ModeAt(i)) {
      PassedFromMembers(receipts, index, i);
      if i in passed {
        var k :| 0 <= k < |passed| && passed[k] == i;
        assert !(last < k);
        assert attempted[k] == i;
      }
    }
  }
}
