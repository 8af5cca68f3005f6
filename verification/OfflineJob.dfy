// The offline PVC job: fence an instance, stop the operator, take over its volume, work, and put
// everything back, where any API call may fail at any point, with or without effect, and a
// helper pod that exists may do its work at any moment.
module OfflineJob {
  import opened Options
  import opened Faults
  import opened FenceList
  import opened Trail

  datatype HelperPhase = Pending | Running | Succeeded | FailedPod

  /** A helper pod: a run-once helper runs its own command once it has the volume, a go-driven one
      only serves the caller's. */
  datatype Helper = Helper(target: string, goDriven: bool, phase: HelperPhase)

  datatype Failure =
    | FenceFailed | DisableFailed | CreateFailed | HelperFailedEarly | HelperUnschedulable | NeverAcquired
    | WorkFailed | HelperFailed | HelperTimedOut | UnfenceFailed

  datatype Job = Job(target: string, keepFenced: bool, goDriven: bool, deleteTimeout: int, completeTimeout: int)

  const DEFAULT_DELETE_TIMEOUT: int := 300
  const DEFAULT_COMPLETE_TIMEOUT: int := 600
  const RESTORE_ATTEMPTS: int := 5

  /** How often the helper is looked at until it has its volume, and until it ends. */
  function AcquireLooks(job: Job): nat {
    if job.deleteTimeout <= 0 then 300 else job.deleteTimeout
  }

  function CompletionLooks(job: Job): nat {
    (if job.completeTimeout <= 0 then 600 else job.completeTimeout) / 5
  }

  predicate Ended(p: HelperPhase) {
    p == Succeeded || p == FailedPod
  }

  /** A pod never goes back to an earlier phase. */
  function Advance(p: HelperPhase, next: HelperPhase): HelperPhase {
    if Ended(p) || (p == Running && next == Pending) then p else next
  }

  function Later(h: Option<Helper>, next: HelperPhase): Option<Helper> {
    match h
    case None => None
    case Some(x) => Some(x.(phase := Advance(x.phase, next)))
  }

  /** A run-once helper whose command may still run. */
  predicate CanWork(h: Option<Helper>) {
    h.Some? && !h.value.goDriven && !Ended(h.value.phase)
  }

  /** What a helper does on the way to its next phase: its command runs once its volume is mounted. */
  function Doings(h: Option<Helper>, next: HelperPhase, fenced: seq<string>, reconcileOff: bool): (r: seq<Event>)
    ensures !CanWork(h) ==> r == []
  {
    if !CanWork(h) || Advance(h.value.phase, next) == Pending then []
    else
      var finished := if next == Succeeded then [Finished(h.value.target)] else [];
      [Work(h.value.target, fenced, reconcileOff, true)] + finished
  }

  // ----- what is added to the record -----

  /** Only work on the target was added, under these fences. */
  ghost predicate Worked(before: seq<Event>, now: seq<Event>, target: string, fenced: seq<string>) {
    before <= now && forall n :: |before| <= n < |now| ==> OnTarget(now[n], target, fenced)
  }

  predicate OnTarget(e: Event, target: string, fenced: seq<string>) {
    e == Finished(target) || (e.Work? && e.target == target && e.fenced == fenced && e.held)
  }

  /** Reconciliation was off at all work that was added. */
  ghost predicate OffThroughout(before: seq<Event>, now: seq<Event>) {
    before <= now && forall n :: |before| <= n < |now| && now[n].Work? ==> now[n].reconcileOff
  }

  /** A helper's own command was completed. */
  ghost predicate FinishedSince(before: seq<Event>, now: seq<Event>, target: string) {
    exists n :: |before| <= n < |now| && now[n] == Finished(target)
  }

  /** Only work on the target was added, each time while the target was fenced. */
  ghost predicate WorkedFenced(before: seq<Event>, now: seq<Event>, target: string) {
    before <= now && forall n :: |before| <= n < |now| ==> UnderFence(now[n], target)
  }

  predicate UnderFence(e: Event, target: string) {
    e == Finished(target) || (e.Work? && e.target == target && target in e.fenced && e.held)
  }

  lemma WorkedUnderFence(before: seq<Event>, now: seq<Event>, target: string, fenced: seq<string>)
    requires Worked(before, now, target, fenced) && target in fenced
    ensures WorkedFenced(before, now, target)
  {}

  lemma WorkedThen(a: seq<Event>, b: seq<Event>, c: seq<Event>, target: string, fenced: seq<string>)
    requires Worked(a, b, target, fenced) && Worked(b, c, target, fenced)
    ensures Worked(a, c, target, fenced)
    ensures OffThroughout(a, b) && OffThroughout(b, c) ==> OffThroughout(a, c)
  {
    assert forall n :: 0 <= n < |b| ==> c[n] == b[n];
  }

  lemma DoingsAreWork(before: seq<Event>, h: Option<Helper>, next: HelperPhase, fenced: seq<string>, off: bool)
    requires h.Some?
    ensures Worked(before, before + Doings(h, next, fenced, off), h.value.target, fenced)
    ensures off ==> OffThroughout(before, before + Doings(h, next, fenced, off))
  {}

  /** The same helper some calls later. */
  predicate Aged(h: Option<Helper>, now: Option<Helper>) {
    && h.None? == now.None?
    && (h.Some? ==>
          && now.value.target == h.value.target && now.value.goDriven == h.value.goDriven
          && (Ended(h.value.phase) ==> now == h) && (h.value.phase == Running ==> now.value.phase != Pending))
  }

  /** Every other pod is fenced after exactly when it was before. */
  ghost predicate OthersKept(before: seq<string>, after: seq<string>, target: string) {
    forall p :: p != target ==> (p in after <==> p in before)
  }

  /** The annotations a job may leave. */
  predicate FenceState(before: Option<string>, now: Option<string>, pod: string) {
    var fenced := FenceAnnotation(before, pod);
    now == before || now == fenced || now == UnfenceAnnotation(fenced, pod)
  }

  lemma NamesAreLocal(names: seq<string>, pod: string)
    requires Plain(pod) && AllPlain(names)
    ensures var fenced := if pod in names then names else names + [pod];
            && pod in fenced && AllPlain(fenced) && OthersKept(names, fenced, pod)
            && AllPlain(Without(fenced, pod)) && OthersKept(names, Without(fenced, pod), pod)
  {}

  /** A job fences the pod, or unfences it again, and nobody else. */
  lemma FencesAreLocal(before: Option<string>, now: Option<string>, pod: string)
    requires Plain(pod) && AllPlain(Fenced(before)) && FenceState(before, now, pod)
    ensures AllPlain(Fenced(now)) && OthersKept(Fenced(before), Fenced(now), pod)
    ensures now == FenceAnnotation(before, pod) ==> pod in Fenced(now)
    ensures now == UnfenceAnnotation(FenceAnnotation(before, pod), pod) ==> pod !in Fenced(now)
  {
    NamesAreLocal(Fenced(before), pod);
    FencingIsLocal(before, pod);
    FencingIsLocal(FenceAnnotation(before, pod), pod);
  }

  class Cluster {
    /** The fate of the n-th API call, the phase the helper would move to by then, and whether it
        is reported unschedulable. */
    const fate: nat -> Fate
    const next: nat -> HelperPhase
    const unschedulable: nat -> bool
    var calls: nat
    var annotation: Option<string>
    var reconcileOff: bool
    var helper: Option<Helper>
    /** The calls that created and deleted the helper of the latest job. */
    ghost var created: Option<nat>
    ghost var deleted: Option<nat>
    ghost var log: seq<Event>

    constructor (fate: nat -> Fate, next: nat -> HelperPhase, unschedulable: nat -> bool, annotation: Option<string>)
      ensures this.fate == fate && this.next == next && this.unschedulable == unschedulable
      ensures this.annotation == annotation && !reconcileOff && helper == None && calls == 0 && log == []
    {
      this.fate, this.next, this.unschedulable, this.annotation := fate, next, unschedulable, annotation;
      calls, reconcileOff, helper, created, deleted, log := 0, false, None, None, None, [];
    }

    /** Some call of the window was applied although the caller saw an error. */
    ghost predicate ReplyLost(from: nat, to: nat) {
      exists n :: from <= n < to && fate(n) == LostReply
    }

    /** The last attempts of the safety net all failed without effect. */
    ghost predicate EveryRestoreFailed(to: nat) {
      to >= 5 && forall i :: to - 5 <= i < to ==> fate(i) == Failed
    }

    /** The phase a helper created by the call before `from` is in when call `to` is next. */
    ghost function PhaseAt(from: nat, to: nat): HelperPhase
      requires from <= to
    {
      if from == to then Pending else Advance(PhaseAt(from, to - 1), next(to - 1))
    }

    lemma {:induction false} EndedStays(from: nat, mid: nat, to: nat)
      requires from <= mid <= to && Ended(PhaseAt(from, mid))
      ensures Ended(PhaseAt(from, to))
    {
      if mid < to { EndedStays(from, mid, to - 1); }
    }

    lemma {:induction false} NeverStarts(from: nat, to: nat)
      requires from <= to && forall n :: from <= n < to ==> next(n) == Pending
      ensures PhaseAt(from, to) == Pending
    {
      if from < to { NeverStarts(from, to - 1); }
    }

    /** Call n did not show the helper that call `made` created with its volume. */
    ghost predicate Unseen(made: nat, n: nat)
      requires made <= n
    {
      fate(n) != Done || PhaseAt(made + 1, n + 1) == Pending
    }

    /** Call n did not show it at its end. */
    ghost predicate Unfinished(made: nat, n: nat)
      requires made <= n
    {
      fate(n) != Done || !Ended(PhaseAt(made + 1, n + 1))
    }

    ghost predicate ShownFailed(made: nat, n: nat)
      requires made <= n
    {
      fate(n) == Done && PhaseAt(made + 1, n + 1) == FailedPod
    }

    ghost predicate ShownUnschedulable(made: nat, n: nat)
      requires made <= n
    {
      fate(n) == Done && PhaseAt(made + 1, n + 1) == Pending && unschedulable(n)
    }

    ghost predicate NeverAcquires(made: nat, job: Job) {
      forall k :: 0 <= k < AcquireLooks(job) ==> Unseen(made, made + 1 + 2 * k)
    }

    ghost predicate NeverEnds(made: nat, since: nat, job: Job)
      requires made <= since
    {
      forall n :: since <= n < since + CompletionLooks(job) ==> Unfinished(made, n)
    }

    ghost predicate SomeCallFails(from: nat, to: nat) {
      exists n :: from <= n < to && fate(n) != Done
    }

    lemma WindowGrows(from: nat, mid: nat, to: nat)
      requires from <= mid <= to
      ensures SomeCallFails(mid, to) ==> SomeCallFails(from, to)
      ensures ReplyLost(mid, to) ==> ReplyLost(from, to)
    {}

    /** What a failure reports happened in the calls of the window: one of them was not done, or that
        is what the looks at the helper, created by call `made`, showed. */
    ghost predicate Explained(failure: Option<Failure>, from: nat, to: nat, made: Option<nat>, job: Job) {
      match failure
      case None => true
      case Some(NeverAcquired) => made.Some? && NeverAcquires(made.value, job)
      case Some(HelperTimedOut) =>
        made.Some? && exists since :: made.value < since <= to && NeverEnds(made.value, since, job)
      case Some(HelperUnschedulable) =>
        made.Some? && exists n :: made.value < n < to && ShownUnschedulable(made.value, n)
      case Some(HelperFailedEarly) => made.Some? && exists n :: made.value < n < to && ShownFailed(made.value, n)
      case Some(HelperFailed) => made.Some? && exists n :: made.value < n < to && ShownFailed(made.value, n)
      case _ => SomeCallFails(from, to)
    }

    lemma StaysExplained(failure: Option<Failure>, from: nat, to: nat, made: Option<nat>, job: Job, first: nat,
                         last: nat)
      requires Explained(failure, from, to, made, job) && first <= from && to <= last
      ensures Explained(failure, first, last, made, job)
    {
      if SomeCallFails(from, to) {
        var n :| from <= n < to && fate(n) != Done;
        assert SomeCallFails(first, last);
      }
    }

    /** No call fails, and a helper succeeds as soon as it exists. */
    ghost predicate Smooth() {
      forall n :: fate(n) == Done && next(n) == Succeeded && !unschedulable(n)
    }

    lemma {:induction false} SmoothPhase(from: nat, to: nat)
      requires Smooth() && from < to
      ensures PhaseAt(from, to) == Succeeded
    {
      if from + 1 < to { SmoothPhase(from, to - 1); }
      assert next(to - 1) == Succeeded;
    }

    /** Then no failure has a reason. */
    lemma SmoothSucceeds(failure: Option<Failure>, from: nat, to: nat, made: Option<nat>, job: Job)
      requires Smooth() && CompletionLooks(job) > 0 && Explained(failure, from, to, made, job)
      ensures failure == None
    {
      if made.Some? {
        forall n | made.value < n
          ensures !Unseen(made.value, n) && !ShownFailed(made.value, n) && !NeverEnds(made.value, n, job)
        {
          SmoothPhase(made.value + 1, n + 1);
          assert !Unfinished(made.value, n);
        }
        assert !NeverAcquires(made.value, job) by {
          assert !Unseen(made.value, made.value + 1 + 2 * 0);
        }
      }
    }

    /** The helper of the latest job is still there, in the phase it should be in by now. */
    ghost predicate InStep()
      reads this
    {
      created.Some? && created.value < calls && helper.Some? && helper.value.phase == PhaseAt(created.value + 1, calls)
    }

    /** The helper of the latest job was left behind: the reply of its creation was lost, or its
        deletion failed. */
    ghost predicate Orphaned()
      reads this`created, this`deleted
    {
      created.Some? && (fate(created.value) == LostReply || (deleted.Some? && fate(deleted.value) == Failed))
    }

    /** One call; before it takes effect the helper moves on, and works if it can. */
    method Call() returns (f: Fate)
      modifies this`calls, this`helper, this`log
      ensures calls == old(calls) + 1 && f == fate(old(calls))
      ensures helper == Later(old(helper), next(old(calls))) && Aged(old(helper), helper)
      ensures log == old(log) + Doings(old(helper), next(old(calls)), Fenced(annotation), reconcileOff)
      ensures !CanWork(old(helper)) ==> log == old(log) && !CanWork(helper)
    {
      f := fate(calls);
      log := log + Doings(helper, next(calls), Fenced(annotation), reconcileOff);
      helper := Later(helper, next(calls));
      calls := calls + 1;
    }

    method Fence(pod: string) returns (ok: bool)
      modifies this`calls, this`annotation, this`helper, this`log
      ensures calls > old(calls)
      ensures ok ==> annotation == FenceAnnotation(old(annotation), pod)
      ensures !ok ==> annotation == old(annotation) ||
                      (annotation == FenceAnnotation(old(annotation), pod) && ReplyLost(old(calls), calls))
      ensures !ok ==> SomeCallFails(old(calls), calls)
      ensures ok ==> calls == old(calls) + if pod in Fenced(old(annotation)) then 1 else 2
      ensures fate(old(calls)) == Done && fate(old(calls) + 1) == Done ==> ok
      ensures !CanWork(old(helper)) ==> log == old(log) && !CanWork(helper)
    {
      var get := Call();
      if get != Done { return false; }
      var current := ParseFencedInstances(annotation);
      for i := 0 to |current|
        invariant forall j :: 0 <= j < i ==> current[j] != pod
      {
        if current[i] == pod { return true; }
      }
      var patch := Call();
      if patch != Failed {
        annotation := Some(Encode(current + [pod]));
      }
      ok := patch == Done;
    }

    static method Filter(current: seq<string>, pod: string) returns (remaining: seq<string>)
      ensures remaining == Without(current, pod)
    {
      remaining := [];
      for i := 0 to |current|
        invariant remaining == Without(current[..i], pod)
      {
        assert current[..i + 1][..i] == current[..i];
        if current[i] != pod {
          remaining := remaining + [current[i]];
        }
      }
      assert current[..|current|] == current;
    }

    method Unfence(pod: string) returns (ok: bool)
      modifies this`calls, this`annotation, this`helper, this`log
      ensures calls > old(calls)
      ensures !ok ==> SomeCallFails(old(calls), calls)
      ensures ok ==> annotation == UnfenceAnnotation(old(annotation), pod)
      ensures !ok ==> annotation == old(annotation) ||
                      (annotation == UnfenceAnnotation(old(annotation), pod) && ReplyLost(old(calls), calls))
      ensures !CanWork(old(helper)) ==> log == old(log) && !CanWork(helper)
    {
      var get := Call();
      if get != Done { return false; }
      var current := ParseFencedInstances(annotation);
      var remaining := Filter(current, pod);
      var patch := Call();
      if patch != Failed {
        annotation := if |remaining| == 0 then None else Some(Encode(remaining));
      }
      ok := patch == Done;
    }

    method SetReconciliationLoop(disabled: bool) returns (ok: bool)
      modifies this`calls, this`reconcileOff, this`helper, this`log
      ensures calls == old(calls) + 1
      ensures ok <==> fate(old(calls)) == Done
      ensures reconcileOff == if fate(old(calls)) == Failed then old(reconcileOff) else disabled
      ensures helper == Later(old(helper), next(old(calls))) && Aged(old(helper), helper)
      ensures log == old(log) + Doings(old(helper), next(old(calls)), Fenced(annotation), old(reconcileOff))
      ensures !CanWork(old(helper)) ==> log == old(log) && !CanWork(helper)
    {
      var patch := Call();
      if patch != Failed {
        reconcileOff := disabled;
      }
      ok := patch == Done;
    }

    /** One attempt to turn reconciliation on again; a helper that is still there may work. */
    method TryRestore(ghost start: seq<Event>) returns (ok: bool)
      requires helper.Some? ==> Worked(start, log, helper.value.target, Fenced(annotation))
      modifies this`calls, this`reconcileOff, this`helper, this`log
      ensures calls == old(calls) + 1 && Aged(old(helper), helper) && (old(InStep()) ==> InStep())
      ensures reconcileOff ==> old(reconcileOff) && !ok && fate(old(calls)) == Failed
      ensures !CanWork(old(helper)) ==> log == old(log) && !CanWork(helper)
      ensures helper.Some? ==> Worked(start, log, helper.value.target, Fenced(annotation))
    {
      ghost var was, before, off := helper, log, reconcileOff;
      ok := SetReconciliationLoop(false);
      if was.Some? {
        DoingsAreWork(before, was, next(calls - 1), Fenced(annotation), off);
        WorkedThen(start, before, log, was.value.target, Fenced(annotation));
      }
    }

    /** The deferred safety net: up to five attempts, on a detached context. */
    method RestoreReconciliation(stillDisabled: bool)
      modifies this`calls, this`reconcileOff, this`helper, this`log
      ensures calls >= old(calls) && Aged(old(helper), helper) && (old(InStep()) ==> InStep())
      ensures !stillDisabled ==>
                reconcileOff == old(reconcileOff) && helper == old(helper) && log == old(log) && calls == old(calls)
      ensures stillDisabled && reconcileOff ==>
                calls == old(calls) + RESTORE_ATTEMPTS && EveryRestoreFailed(calls)
      ensures !CanWork(old(helper)) ==> log == old(log) && !CanWork(helper)
      ensures helper.Some? ==> Worked(old(log), log, helper.value.target, Fenced(annotation))
    {
      if !stillDisabled { return; }
      for attempt := 0 to RESTORE_ATTEMPTS
        invariant calls == old(calls) + attempt && Aged(old(helper), helper) && (old(InStep()) ==> InStep())
        invariant reconcileOff ==> forall i :: old(calls) <= i < calls ==> fate(i) == Failed
        invariant !CanWork(old(helper)) ==> log == old(log) && !CanWork(helper)
        invariant helper.Some? ==> Worked(old(log), log, helper.value.target, Fenced(annotation))
      {
        var ok := TryRestore(old(log));
        if ok { return; }
      }
    }

    method CreateHelper(job: Job) returns (f: Fate)
      requires !CanWork(helper)
      modifies this`calls, this`helper, this`log, this`created
      ensures calls == old(calls) + 1 && f == fate(old(calls)) && created == Some(old(calls)) && log == old(log)
      ensures if f == Failed then !CanWork(helper) else helper == Some(Helper(job.target, job.goDriven, Pending))
      ensures f != Failed ==> InStep()
    {
      f := Call();
      created := Some(calls - 1);
      if f != Failed { helper := Some(Helper(job.target, job.goDriven, Pending)); }
    }

    method DeleteHelper()
      modifies this`calls, this`helper, this`log, this`deleted
      ensures calls == old(calls) + 1 && deleted == Some(old(calls))
      ensures if fate(old(calls)) != Failed then helper == None
              else helper == Later(old(helper), next(old(calls))) && Aged(old(helper), helper)
      ensures log == old(log) + Doings(old(helper), next(old(calls)), Fenced(annotation), reconcileOff)
      ensures !CanWork(old(helper)) ==> log == old(log) && !CanWork(helper)
    {
      var f := Call();
      deleted := Some(calls - 1);
      if f != Failed { helper := None; }
    }

    /** The job's helper exists, and since `start` it worked exactly as its phase says: only on the
        target, under the present fences, with reconciliation off. */
    ghost predicate Tracked(start: seq<Event>, job: Job)
      reads this
    {
      && InStep() && helper.value.target == job.target && helper.value.goDriven == job.goDriven && reconcileOff
      && Worked(start, log, job.target, Fenced(annotation)) && OffThroughout(start, log)
      && (job.goDriven ==> log == start)
      && (!job.goDriven && helper.value.phase != Pending ==> |log| > |start|)
      && (!job.goDriven && helper.value.phase == Succeeded ==> FinishedSince(start, log, job.target))
    }

    lemma StaysTracked(start: seq<Event>, job: Job, was: Option<Helper>, before: seq<Event>, n: nat)
      requires was.Some? && was.value.target == job.target && was.value.goDriven == job.goDriven && reconcileOff
      requires Worked(start, before, job.target, Fenced(annotation)) && OffThroughout(start, before)
      requires job.goDriven ==> before == start
      requires !job.goDriven && was.value.phase != Pending ==> |before| > |start|
      requires !job.goDriven && was.value.phase == Succeeded ==> FinishedSince(start, before, job.target)
      requires InStep() && helper == Later(was, next(n)) &&
               log == before + Doings(was, next(n), Fenced(annotation), reconcileOff)
      ensures Tracked(start, job)
    {
      DoingsAreWork(before, was, next(n), Fenced(annotation), reconcileOff);
      WorkedThen(start, before, log, job.target, Fenced(annotation));
      var more := Doings(was, next(n), Fenced(annotation), reconcileOff);
      if !job.goDriven && helper.value.phase == Succeeded {
        if was.value.phase == Succeeded {
          var n :| |start| <= n < |before| && before[n] == Finished(job.target);
          assert log[n] == Finished(job.target);
        } else {
          assert more[1] == Finished(job.target) && log[|before| + 1] == more[1];
        }
      }
    }

    /** A call while the helper is tracked. */
    method Look(ghost start: seq<Event>, ghost job: Job) returns (f: Fate)
      requires Tracked(start, job)
      modifies this`calls, this`helper, this`log
      ensures calls == old(calls) + 1 && f == fate(old(calls)) && Tracked(start, job)
      ensures helper == Later(old(helper), next(old(calls)))
    {
      ghost var was, before, n := helper, log, calls;
      f := Call();
      StaysTracked(start, job, was, before, n);
    }

    /** One round: look at the helper, and delete the instance pod if that did not settle it. */
    method TryAcquire(ghost start: seq<Event>, ghost job: Job) returns (settled: bool, failure: Option<Failure>)
      requires Tracked(start, job)
      modifies this`calls, this`helper, this`log
      ensures calls >= old(calls) && Tracked(start, job)
      ensures settled ==> failure in {None, Some(HelperFailedEarly), Some(HelperUnschedulable)}
      ensures settled ==> Explained(failure, old(calls), calls, created, job)
      ensures settled && failure == None ==> helper.value.phase in {Running, Succeeded}
      ensures !settled ==> calls == old(calls) + 2 && Unseen(created.value, old(calls))
    {
      var get := Look(start, job);
      var phase := if get == Done then helper.value.phase else Pending;
      if phase == Running || phase == Succeeded { return true, None; }
      if phase == FailedPod {
        assert ShownFailed(created.value, calls - 1);
        return true, Some(HelperFailedEarly);
      }
      if get == Done && unschedulable(calls - 1) {
        assert ShownUnschedulable(created.value, calls - 1);
        return true, Some(HelperUnschedulable);
      }
      var _ := Look(start, job);   // delete the target pod, best effort
      return false, None;
    }

    /** Try until the helper has its volume. */
    method AcquireVolume(deleteTimeout: int, ghost start: seq<Event>, ghost job: Job) returns (failure: Option<Failure>)
      requires Tracked(start, job) && created == Some(calls - 1) && deleteTimeout == job.deleteTimeout
      modifies this`calls, this`helper, this`log
      ensures calls >= old(calls) && Tracked(start, job)
      ensures failure in {None, Some(HelperFailedEarly), Some(HelperUnschedulable), Some(NeverAcquired)}
      ensures failure == None ==> helper.value.phase in {Running, Succeeded}
      ensures Explained(failure, old(calls), calls, created, job)
    {
      var timeout := if deleteTimeout <= 0 then DEFAULT_DELETE_TIMEOUT else deleteTimeout;
      for elapsed := 0 to timeout
        invariant calls == old(calls) + 2 * elapsed && Tracked(start, job)
        invariant forall k :: 0 <= k < elapsed ==> Unseen(created.value, created.value + 1 + 2 * k)
      {
        var settled;
        settled, failure := TryAcquire(start, job);
        if settled { return; }
      }
      failure := Some(NeverAcquired);
    }

    method AwaitCompletion(completeTimeout: int, ghost start: seq<Event>, ghost job: Job)
      returns (failure: Option<Failure>)
      requires Tracked(start, job) && completeTimeout == job.completeTimeout
      modifies this`calls, this`helper, this`log
      ensures calls >= old(calls) && Tracked(start, job)
      ensures failure in {None, Some(HelperFailed), Some(HelperTimedOut)}
      ensures Explained(failure, old(calls), calls, created, job)
      ensures failure == None ==> helper.value.phase == Succeeded
      ensures old(helper).value.phase != Pending ==> helper.value.phase != Pending
    {
      var timeout := if completeTimeout <= 0 then DEFAULT_COMPLETE_TIMEOUT else completeTimeout;
      for i := 0 to timeout / 5
        invariant calls == old(calls) + i && Tracked(start, job)
        invariant forall n :: old(calls) <= n < calls ==> Unfinished(created.value, n)
        invariant old(helper).value.phase != Pending ==> helper.value.phase != Pending
      {
        var get := Look(start, job);
        if get != Done { continue; }
        match helper.value.phase {
          case Succeeded => return None;
          case FailedPod =>
            assert ShownFailed(created.value, calls - 1);
            return Some(HelperFailed);
          case _ =>
        }
      }
      assert NeverEnds(created.value, old(calls), job);
      failure := Some(HelperTimedOut);
    }

    /** The caller's own work, run through the helper. */
    method WorkThroughHelper(ghost start: seq<Event>, ghost job: Job) returns (ok: bool)
      requires job.goDriven && Tracked(start, job) && helper.value.phase in {Running, Succeeded}
      modifies this`calls, this`helper, this`log
      ensures calls == old(calls) + 1 && InStep() && !CanWork(helper) && (ok <==> fate(old(calls)) == Done)
      ensures Worked(start, log, job.target, Fenced(annotation)) && OffThroughout(start, log) && |log| > |start|
      ensures Aged(old(helper), helper)
    {
      log := log + [Work(helper.value.target, Fenced(annotation), reconcileOff,
        helper.value.phase in {Running, Succeeded})];
      var worked := Call();
      ok := worked == Done;
    }

    /** Delete the helper, whatever state it is in. */
    method Drop(ghost job: Job, ghost start: seq<Event>)
      requires InStep() && helper.value.target == job.target && helper.value.goDriven == job.goDriven && reconcileOff
      requires Worked(start, log, job.target, Fenced(annotation)) && OffThroughout(start, log)
      modifies this`calls, this`helper, this`log, this`deleted
      ensures calls == old(calls) + 1 && deleted == Some(old(calls)) && old(log) <= log
      ensures Worked(start, log, job.target, Fenced(annotation)) && OffThroughout(start, log)
      ensures CanWork(helper) ==>
                fate(old(calls)) == Failed && CanWork(old(helper)) && helper.value.target == job.target
      ensures fate(old(calls)) == Failed ==> InStep() && helper.value.goDriven == job.goDriven
    {
      ghost var was, before, n := helper, log, calls;
      DeleteHelper();
      DoingsAreWork(before, was, next(n), Fenced(annotation), reconcileOff);
      WorkedThen(start, before, log, job.target, Fenced(annotation));
    }

    /** Work while the helper has the volume, and drop the helper, whatever came of it. */
    method UseHelper(job: Job, ghost start: seq<Event>) returns (failure: Option<Failure>)
      requires Tracked(start, job) && created == Some(calls - 1)
      modifies this`calls, this`helper, this`log, this`deleted
      ensures calls > old(calls) && deleted.Some? && old(calls) <= deleted.value < calls
      ensures Explained(failure, old(calls), calls, created, job)
      ensures failure !in {Some(FenceFailed), Some(UnfenceFailed), Some(DisableFailed), Some(CreateFailed)}
      ensures Worked(start, log, job.target, Fenced(annotation)) && OffThroughout(start, log)
      ensures CanWork(helper) ==> fate(deleted.value) == Failed && failure.Some? && helper.value.target == job.target
      ensures fate(deleted.value) == Failed ==> InStep() && helper.value.goDriven == job.goDriven
      ensures failure == None ==> |log| > |start| && (!job.goDriven ==> FinishedSince(start, log, job.target))
    {
      failure := AcquireVolume(job.deleteTimeout, start, job);
      if failure == None {
        if job.goDriven {
          var worked := WorkThroughHelper(start, job);
          failure := if worked then None else Some(WorkFailed);
        } else {
          failure := AwaitCompletion(job.completeTimeout, start, job);
        }
      }
      Drop(job, start);
    }

    /** A helper can still work exactly when it was left behind and its command did not end by now. */
    ghost predicate LeftBehind(job: Job)
      reads this
      requires created.Some? ==> created.value < calls
    {
      && (CanWork(helper) <==> Orphaned() && !job.goDriven && !Ended(PhaseAt(created.value + 1, calls)))
      && (CanWork(helper) ==> InStep() && helper.value.target == job.target)
    }

    /** The calls that created and deleted the helper, if any, are calls of the window. */
    ghost predicate Placed(from: nat, to: nat)
      reads this
    {
      && (created.Some? ==> from <= created.value < to)
      && (deleted.Some? ==> created.Some? && created.value < deleted.value < to)
    }

    /** Had it been left behind, the helper would have ended by call `since`. */
    ghost predicate Over(job: Job, since: nat)
      reads this`created, this`deleted
      requires created.Some? && created.value < since
    {
      Orphaned() && !job.goDriven ==> Ended(PhaseAt(created.value + 1, since))
    }

    /** Once a helper left behind has ended, that does not change. */
    lemma StaysEnded(job: Job, since: nat)
      requires created.Some? && created.value < since <= calls && !CanWork(helper) && Over(job, since)
      ensures LeftBehind(job)
    {
      if Orphaned() && !job.goDriven { EndedStays(created.value + 1, since, calls); }
    }

    lemma ClosedIsOver(job: Job)
      requires Closed(job)
      ensures Over(job, calls)
    {}

    /** Stop the operator, create the helper and use it. */
    method Engage(job: Job) returns (failure: Option<Failure>)
      requires job.target in Fenced(annotation) && !CanWork(helper) && created == None && deleted == None
      modifies this`calls, this`reconcileOff, this`helper, this`log, this`created, this`deleted
      ensures Explained(failure, old(calls), calls, created, job)
      ensures calls > old(calls) && failure !in {Some(FenceFailed), Some(UnfenceFailed)}
      ensures Worked(old(log), log, job.target, Fenced(annotation)) && OffThroughout(old(log), log)
      ensures Placed(old(calls), calls) && LeftBehind(job)
      ensures created == if fate(old(calls)) == Done then Some(old(calls) + 1) else None
      ensures CanWork(helper) ==> failure.Some?
      ensures failure == None ==> created.Some?
      ensures failure == None ==> |log| > |old(log)| && (!job.goDriven ==> FinishedSince(old(log), log, job.target))
    {
      var disabled := SetReconciliationLoop(true);
      if !disabled { return Some(DisableFailed); }
      var create := CreateHelper(job);
      if create != Done { return Some(CreateFailed); }
      failure := UseHelper(job, log);
    }

    /** No helper can work any more, and the books on the latest one are closed. */
    ghost predicate Closed(job: Job)
      reads this
    {
      !CanWork(helper) && created.Some? && created.value < calls && LeftBehind(job)
    }

    /** Lift the fence unless it is to be kept. */
    method LiftFence(job: Job) returns (failure: Option<Failure>)
      requires !CanWork(helper)
      modifies this`calls, this`annotation, this`helper, this`log
      ensures calls >= old(calls) && failure in {None, Some(UnfenceFailed)} && log == old(log) && !CanWork(helper)
      ensures failure.Some? ==> SomeCallFails(old(calls), calls)
      ensures failure == None ==>
                annotation == if job.keepFenced then old(annotation) else UnfenceAnnotation(old(annotation), job.target)
      ensures failure.Some? && annotation != old(annotation) ==>
                !job.keepFenced && ReplyLost(old(calls), calls) &&
                annotation == UnfenceAnnotation(old(annotation), job.target)
    {
      failure := None;
      if !job.keepFenced {
        var unfenced := Unfence(job.target);
        if !unfenced { failure := Some(UnfenceFailed); }
      }
    }

    /** Reconciliation on, then lift the fence unless it is to be kept. */
    method HandBack(job: Job) returns (failure: Option<Failure>, stillDisabled: bool)
      requires Closed(job)
      modifies this`calls, this`reconcileOff, this`annotation, this`helper, this`log
      ensures calls > old(calls) && failure in {None, Some(UnfenceFailed)} && (!stillDisabled ==> !reconcileOff)
      ensures stillDisabled <==> fate(old(calls)) != Done   // turned on before the fence is touched
      ensures failure.Some? ==> SomeCallFails(old(calls), calls)
      ensures log == old(log) && Closed(job)
      ensures failure == None ==>
                annotation == if job.keepFenced then old(annotation) else UnfenceAnnotation(old(annotation), job.target)
      ensures failure.Some? && annotation != old(annotation) ==>
                !job.keepFenced && ReplyLost(old(calls), calls) &&
                annotation == UnfenceAnnotation(old(annotation), job.target)
    {
      ghost var since := calls;
      ClosedIsOver(job);
      var enabled := SetReconciliationLoop(false);
      stillDisabled := !enabled;
      failure := LiftFence(job);
      WindowGrows(since, since + 1, calls);
      StaysEnded(job, since);
    }

    /** The steps after the fence. */
    method WorkOffline(job: Job) returns (failure: Option<Failure>, stillDisabled: bool)
      requires job.target in Fenced(annotation) && !CanWork(helper) && created == None && deleted == None
      modifies this
      ensures Explained(failure, old(calls), calls, created, job)
      ensures calls > old(calls) && (!stillDisabled ==> !reconcileOff)
      ensures failure != Some(FenceFailed)
      ensures Worked(old(log), log, job.target, old(Fenced(annotation))) && OffThroughout(old(log), log)
      ensures Placed(old(calls), calls) && LeftBehind(job)
      ensures created == if fate(old(calls)) == Done then Some(old(calls) + 1) else None
      ensures CanWork(helper) ==> failure.Some? && annotation == old(annotation)
      ensures failure == None ==> |log| > |old(log)| && (!job.goDriven ==> FinishedSince(old(log), log, job.target))
      ensures failure == None ==>
                annotation == if job.keepFenced then old(annotation) else UnfenceAnnotation(old(annotation), job.target)
      ensures failure.Some? && annotation != old(annotation) ==>
                failure == Some(UnfenceFailed) && !job.keepFenced && ReplyLost(old(calls), calls) &&
                annotation == UnfenceAnnotation(old(annotation), job.target)
    {
      failure := Engage(job);
      if failure.Some? { return failure, true; }
      failure, stillDisabled := HandBack(job);
    }

    /** The safety net, after the helper of the job was dropped or left behind. */
    method TurnBackOn(job: Job, stillDisabled: bool, ghost start: seq<Event>)
      requires created.Some? ==> created.value < calls
      requires LeftBehind(job) && (!stillDisabled ==> !reconcileOff)
      requires CanWork(helper) ==> Worked(start, log, job.target, Fenced(annotation))
      modifies this`calls, this`reconcileOff, this`helper, this`log
      ensures calls >= old(calls) && LeftBehind(job) && (CanWork(helper) ==> CanWork(old(helper)))
      ensures if CanWork(old(helper)) then Worked(start, log, job.target, Fenced(annotation)) else log == old(log)
      ensures reconcileOff ==> EveryRestoreFailed(calls)
    {
      ghost var was, before, mid := helper, log, calls;
      if created.Some? && !CanWork(was) { ClosedIsOver(job); }
      RestoreReconciliation(stillDisabled);
      if CanWork(was) {
        WorkedThen(start, before, log, job.target, Fenced(annotation));
      } else if created.Some? {
        StaysEnded(job, mid);
      }
    }

    /** Everything after the fence, with the deferred restore on every way out. */
    method RunFenced(job: Job, ghost from: nat) returns (failure: Option<Failure>)
      requires job.target in Fenced(annotation) && !CanWork(helper) && created == None && deleted == None &&
               from <= calls
      modifies this
      ensures Explained(failure, from, calls, created, job)
      ensures calls > old(calls) && failure != Some(FenceFailed)
      ensures reconcileOff ==> EveryRestoreFailed(calls)
      ensures Worked(old(log), log, job.target, old(Fenced(annotation)))
      ensures !Orphaned() ==> OffThroughout(old(log), log)
      ensures Placed(old(calls), calls) && LeftBehind(job)
      ensures created == if fate(old(calls)) == Done then Some(old(calls) + 1) else None
      ensures CanWork(helper) ==> failure.Some? && annotation == old(annotation)
      ensures failure == None ==> OffThroughout(old(log), log) && |log| > |old(log)|
      ensures failure == None && !job.goDriven ==> FinishedSince(old(log), log, job.target)
      ensures failure == None ==>
                annotation == if job.keepFenced then old(annotation) else UnfenceAnnotation(old(annotation), job.target)
      ensures failure.Some? && annotation != old(annotation) ==>
                failure == Some(UnfenceFailed) && !job.keepFenced && ReplyLost(old(calls), calls) &&
                annotation == UnfenceAnnotation(old(annotation), job.target)
    {
      var stillDisabled;
      failure, stillDisabled := WorkOffline(job);
      ghost var mid := calls;
      TurnBackOn(job, stillDisabled, old(log));
      StaysExplained(failure, old(calls), mid, created, job, from, calls);
    }

    /** The same, told by who is fenced; the fence was put on over the annotation `before`. */
    method RunHeld(job: Job, ghost before: Option<string>, ghost from: nat) returns (failure: Option<Failure>)
      requires Plain(job.target) && AllPlain(Fenced(before)) && annotation == FenceAnnotation(before, job.target)
      requires !CanWork(helper) && created == None && deleted == None && from <= calls
      modifies this
      ensures Explained(failure, from, calls, created, job)
      ensures calls > old(calls) && failure != Some(FenceFailed) && AllPlain(Fenced(annotation))
      ensures OthersKept(Fenced(before), Fenced(annotation), job.target)
      ensures reconcileOff ==> EveryRestoreFailed(calls)
      ensures WorkedFenced(old(log), log, job.target)
      ensures !Orphaned() ==> OffThroughout(old(log), log)
      ensures Placed(old(calls), calls) && LeftBehind(job)
      ensures created == if fate(old(calls)) == Done then Some(old(calls) + 1) else None
      ensures CanWork(helper) ==> failure.Some? && job.target in Fenced(annotation)
      ensures failure == None ==> OffThroughout(old(log), log) && |log| > |old(log)|
      ensures failure == None && !job.goDriven ==> FinishedSince(old(log), log, job.target)
      ensures failure == None ==> (job.target in Fenced(annotation) <==> job.keepFenced)
      ensures failure.Some? && job.target !in Fenced(annotation) ==>
                failure == Some(UnfenceFailed) && !job.keepFenced && ReplyLost(old(calls), calls)
    {
      ghost var start, fences := log, Fenced(annotation);
      FencesAreLocal(before, annotation, job.target);
      failure := RunFenced(job, from);
      FencesAreLocal(before, annotation, job.target);
      WorkedUnderFence(start, log, job.target, fences);
    }

    /** Fence a pod with a plain name; the others keep their fences. */
    method FenceTarget(pod: string) returns (ok: bool)
      requires Plain(pod) && AllPlain(Fenced(annotation)) && !CanWork(helper)
      modifies this`calls, this`annotation, this`helper, this`log
      ensures calls > old(calls) && log == old(log) && !CanWork(helper) && AllPlain(Fenced(annotation))
      ensures OthersKept(old(Fenced(annotation)), Fenced(annotation), pod)
      ensures ok ==> annotation == FenceAnnotation(old(annotation), pod)
      ensures ok ==> calls == old(calls) + if pod in old(Fenced(annotation)) then 1 else 2
      ensures !ok ==> SomeCallFails(old(calls), calls)
      ensures !ok && pod in Fenced(annotation) && pod !in old(Fenced(annotation)) ==> ReplyLost(old(calls), calls)
      ensures fate(old(calls)) == Done && fate(old(calls) + 1) == Done ==> ok
    {
      ghost var before := annotation;
      ok := Fence(pod);
      FencesAreLocal(before, annotation, pod);
    }

    /** Run one job on a pod. For every pattern of failures, and however the helper's own progress
        interleaves with the calls. */
    method Run(job: Job) returns (failure: Option<Failure>)
      requires Plain(job.target) && AllPlain(Fenced(annotation)) && !CanWork(helper)
      modifies this
      ensures calls > old(calls) && Placed(old(calls), calls) && AllPlain(Fenced(annotation))
      // Only the target was worked on, while it was fenced and the helper had its volume.
      ensures WorkedFenced(old(log), log, job.target)
      // Unless the helper is left behind, reconciliation was off whenever it worked.
      ensures !Orphaned() ==> OffThroughout(old(log), log)
      // A helper can still work exactly when it was left behind and did not end meanwhile.
      ensures LeftBehind(job)
      ensures CanWork(helper) ==> failure.Some? && job.target in Fenced(annotation)
      // A failure has its reason: a call that was not done, or what the looks at the helper showed.
      ensures Explained(failure, old(calls), calls, created, job)
      // Reconciliation is on again unless every attempt of the safety net failed.
      ensures failure != Some(FenceFailed) && reconcileOff ==> EveryRestoreFailed(calls)
      // Success is work with reconciliation off, finished if it was the helper's own, and the
      // fence is lifted unless it was to be kept. Failure leaves the fence unless its removal
      // was applied with the reply lost.
      ensures failure == None ==> |log| > |old(log)| && OffThroughout(old(log), log)
      ensures failure == None && !job.goDriven ==> FinishedSince(old(log), log, job.target)
      ensures failure == None ==> (job.target in Fenced(annotation) <==> job.keepFenced)
      ensures failure.Some? && failure != Some(FenceFailed) && job.target !in Fenced(annotation) ==>
                failure == Some(UnfenceFailed) && !job.keepFenced && ReplyLost(old(calls), calls)
      ensures failure == Some(FenceFailed) ==> log == old(log) && created == None && reconcileOff == old(reconcileOff)
      ensures failure == Some(FenceFailed) && job.target in Fenced(annotation) &&
              job.target !in old(Fenced(annotation)) ==>
                ReplyLost(old(calls), calls)
      ensures OthersKept(old(Fenced(annotation)), Fenced(annotation), job.target)
      // When the fence is new and its two calls are done, the third disables reconciliation and
      // the fourth creates the helper.
      ensures var c := old(calls);
              job.target !in old(Fenced(annotation)) && fate(c) == Done && fate(c + 1) == Done ==>
                && failure != Some(FenceFailed)
                && created == if fate(c + 2) == Done then Some(c + 3) else None
    {
      created, deleted := None, None;
      ghost var before := annotation;
      var fenced := FenceTarget(job.target);
      if !fenced { return Some(FenceFailed); }
      failure := RunHeld(job, before, old(calls));
    }
  }

  /** A helper left behind works, with whatever setting it finds, as soon as it gets the volume. */
  lemma LiveHelperWorks(h: Option<Helper>, next: HelperPhase, fenced: seq<string>, reconcileOff: bool)
    requires CanWork(h)
    ensures Work(h.value.target, fenced, reconcileOff, true) in Doings(h, next, fenced, reconcileOff) <==>
              h.value.phase == Running || next != Pending
  {
    if Advance(h.value.phase, next) != Pending {
      assert Doings(h, next, fenced, reconcileOff)[0] == Work(h.value.target, fenced, reconcileOff, true);
    }
  }

  /** The reply of the fourth call, which creates the helper, is lost; every other call is
      done. */
  function LostCreate(n: nat): Fate {
    if n == 3 then LostReply else Done
  }

  /** When no helper gets the volume meanwhile, the job fails and turns reconciliation on again
      with its helper still alive, and the next step of the helper is work on the target with
      reconciliation on. */
  method OrphanRun(job: Job) returns (c: Cluster, failure: Option<Failure>)
    requires Plain(job.target) && !job.goDriven
    ensures fresh(c) && failure.Some? && c.created == Some(3) && c.Orphaned()
    ensures CanWork(c.helper) && !c.reconcileOff && job.target in Fenced(c.annotation)
    ensures Work(job.target, Fenced(c.annotation), false, true) in
              Doings(c.helper, Running, Fenced(c.annotation), c.reconcileOff)
  {
    c := new Cluster((n: nat) => LostCreate(n), (n: nat) => Pending, (n: nat) => false, None);
    failure := c.Run(job);
    assert forall n: nat :: c.fate(n) == LostCreate(n);
    assert c.fate(c.calls - 1) != Failed && c.fate(c.calls - 2) != Failed;
    c.NeverStarts(4, c.calls);
    LiveHelperWorks(c.helper, Running, Fenced(c.annotation), c.reconcileOff);
  }
}
