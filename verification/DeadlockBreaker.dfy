// Breaking a disk-full deadlock: escrow the recovery set, bind a proof to a re-triage, then
// clear the disposable data directories offline and re-clone them. Any call may fail.
module DeadlockBreaker {
  import opened Options
  import opened Faults
  import opened FenceList
  import opened BreakerScript
  import opened OfflineJob
  import opened Comparison
  import opened RecoveryProof
  import opened Text
  import opened Trail
  import Authority
  import HealPlan
  import History
  import Lineage

  const RESERVE_BYTES: int := 0x4000_0000
  const MAX_OUTSTANDING: int := 12
  const CLEAR_TIMEOUT: int := 300

  // ----- triage, as the breaker sees it -----

  /** Everything one triage run looked at. */
  datatype Observed = Observed(
    data: seq<Collected>,
    primaryName: string,
    cmp: DataComparison,
    notEnoughDiskSpace: bool,
    primaryRunning: bool)

  function SnapshotOf(o: Observed): (t: Snapshot)
    ensures forall p :: p in DisposableOf(t) ==> p in RecoverySetOf(t)
    ensures forall p :: p in DisposableOf(t) ==> exists i :: 0 <= i < |o.data| && o.data[i].pod == p
  {
    var assessments := Assessments(o.data, o.primaryName, o.cmp);
    Snapshot(RecoveryOf(assessments, o.cmp, o.primaryName, o.notEnoughDiskSpace, o.primaryRunning),
             if o.cmp.safeToHeal then "unambiguous" else "ambiguous", assessments)
  }

  predicate Deadlocked(t: Snapshot) {
    t.recovery.Some? && t.recovery.value.blocked && t.recovery.value.reason == DiskFullDisposableReplica
  }

  predicate Breakable(t: Snapshot) {
    && Deadlocked(t) && t.authorityStatus == "unambiguous"
    && t.recovery.value.authority != "" && |t.recovery.value.disposable| > 0
  }

  /** The cluster reports too little disk space, and its proven primary is down. */
  predicate FrozenWithoutPrimary(o: Observed) {
    o.notEnoughDiskSpace && !o.primaryRunning && o.cmp.safeToHeal && o.primaryName != ""
  }

  lemma NeedsDeadPrimary(o: Observed)
    requires Breakable(SnapshotOf(o))
    ensures FrozenWithoutPrimary(o)
  {}

  datatype Config = Config(unwedge: bool, dryRun: bool, imageName: string, deleteTimeout: int, healTimeout: int)

  datatype Stop =
    | TriageFailed | AmbiguousDeadlock | EscrowRefused | DryRunPreview | CaptureFailed | RetriageFailed | Drifted
    | PersistFailed | ConfigFailed | NotAuthorized | ClearFailed | StillFrozen | NoHealConfig | RecloneFailed

  class Breaker {
    const cluster: Cluster
    /** What the n-th call reads, if it reads that. */
    const observed: nat -> Observed
    const volumes: nat -> Option<seq<string>>
    const amounts: nat -> int
    const frozen: nat -> bool
    const ready: nat -> bool
    const addressed: nat -> bool
    const primaryAt: nat -> string
    const estimate: seq<string> -> int
    const digest: string -> string

    constructor (cluster: Cluster, observed: nat -> Observed, volumes: nat -> Option<seq<string>>, amounts: nat -> int,
                 frozen: nat -> bool, ready: nat -> bool, addressed: nat -> bool, primaryAt: nat -> string,
                 estimate: seq<string> -> int, digest: string -> string)
      ensures this.cluster == cluster && this.observed == observed && this.volumes == volumes && this.amounts == amounts
      ensures this.frozen == frozen && this.ready == ready && this.addressed == addressed
      ensures this.primaryAt == primaryAt && this.estimate == estimate && this.digest == digest
    {
      this.cluster, this.observed, this.volumes, this.amounts := cluster, observed, volumes, amounts;
      this.frozen, this.ready, this.addressed, this.primaryAt := frozen, ready, addressed, primaryAt;
      this.estimate, this.digest := estimate, digest;
    }

    ghost predicate PlainNames() {
      forall n, i :: 0 <= i < |observed(n).data| ==> Plain(observed(n).data[i].pod)
    }

    // ----- escrow -----

    /** The claim is the pod's own by the naming rule, or among the volumes its pod object, read by
        call n, lists. */
    predicate ClaimedBy(pod: string, n: nat, claim: string) {
      claim == pod || (volumes(n).Some? && claim in volumes(n).value)
    }

    ghost predicate Claims(pods: seq<string>, from: nat, claim: string) {
      exists k :: 0 <= k < |pods| && ClaimedBy(pods[k], from + k, claim)
    }

    /** Each claim of the pods, once. */
    ghost predicate AreClaims(claims: seq<string>, pods: seq<string>, from: nat) {
      Distinct(claims) && forall c :: c in claims <==> c != "" && Claims(pods, from, c)
    }

    static ghost predicate Distinct(claims: seq<string>) {
      forall i, j :: 0 <= i < j < |claims| ==> claims[i] != claims[j]
    }

    static method AddClaim(claims: seq<string>, claim: string) returns (r: seq<string>)
      ensures forall c :: c in r <==> c in claims || (c == claim && c != "")
      ensures Distinct(claims) ==> Distinct(r)
    {
      if claim != "" && claim !in claims { return claims + [claim]; }
      r := claims;
    }

    lemma ClaimsSnoc(pods: seq<string>, pod: string, from: nat, claim: string)
      ensures Claims(pods + [pod], from, claim) <==>
                Claims(pods, from, claim) || ClaimedBy(pod, from + |pods|, claim)
    {
      var all := pods + [pod];
      if k :| 0 <= k < |pods| && ClaimedBy(pods[k], from + k, claim) {
        assert ClaimedBy(all[k], from + k, claim);
      }
      if ClaimedBy(pod, from + |pods|, claim) {
        assert ClaimedBy(all[|pods|], from + |pods|, claim);
      }
      if k :| 0 <= k < |all| && ClaimedBy(all[k], from + k, claim) {
        assert k < |pods| ==> ClaimedBy(pods[k], from + k, claim);
      }
    }

    lemma ClaimsStep(pods: seq<string>, pod: string, from: nat)
      ensures forall c :: Claims(pods + [pod], from, c) <==>
                Claims(pods, from, c) || ClaimedBy(pod, from + |pods|, c)
    {
      forall c ensures Claims(pods + [pod], from, c) <==> Claims(pods, from, c) || ClaimedBy(pod, from + |pods|, c) {
        ClaimsSnoc(pods, pod, from, c);
      }
    }

    /** Add the claims of one pod. */
    method AddClaimsOf(pod: string, claims: seq<string>) returns (r: Option<seq<string>>)
      requires !CanWork(cluster.helper) && Distinct(claims)
      modifies cluster`calls, cluster`helper, cluster`log
      ensures cluster.calls == old(cluster.calls) + 1 && !CanWork(cluster.helper) && cluster.log == old(cluster.log)
      ensures r.Some? <==> cluster.fate(old(cluster.calls)) == Done
      ensures r.Some? ==> Distinct(r.value) && forall c :: c in r.value <==>
                c in claims || (c != "" && ClaimedBy(pod, old(cluster.calls), c))
    {
      var out := AddClaim(claims, pod);
      var read := cluster.Call();
      if read != Done { return None; }
      var listed := volumes(cluster.calls - 1);
      if listed.Some? {
        for v := 0 to |listed.value|
          invariant cluster.calls == old(cluster.calls) + 1 && !CanWork(cluster.helper)
          invariant cluster.log == old(cluster.log) && Distinct(out)
          invariant forall c :: c in out <==> c in claims || (c != "" && (c == pod || c in listed.value[..v]))
        {
          out := AddClaim(out, listed.value[v]);
          assert listed.value[..v + 1] == listed.value[..v] + [listed.value[v]];
        }
        assert listed.value[..|listed.value|] == listed.value;
      }
      r := Some(out);
    }

    method DiscoverPVCs(pods: seq<string>) returns (r: Option<seq<string>>)
      requires !CanWork(cluster.helper)
      modifies cluster`calls, cluster`helper, cluster`log
      ensures cluster.calls >= old(cluster.calls) && !CanWork(cluster.helper) && cluster.log == old(cluster.log)
      ensures r.None? <==> exists k :: old(cluster.calls) <= k < old(cluster.calls) + |pods| && cluster.fate(k) != Done
      ensures r.Some? ==> AreClaims(r.value, pods, old(cluster.calls)) && cluster.calls == old(cluster.calls) + |pods|
    {
      var out: seq<string> := [];
      ghost var from := cluster.calls;
      ghost var done: seq<string> := [];
      for k := 0 to |pods|
        invariant cluster.calls == from + k && !CanWork(cluster.helper) && cluster.log == old(cluster.log)
        invariant forall n :: from <= n < from + k ==> cluster.fate(n) == Done
        invariant done == pods[..k] && AreClaims(out, done, from)
      {
        var more := AddClaimsOf(pods[k], out);
        if more.None? { return None; }
        ClaimsStep(done, pods[k], from);
        done := done + [pods[k]];
        out := more.value;
      }
      assert done == pods;
      r := Some(out);
    }

    /** The cap on unreleased escrows, read by the call after n, is not reached, and the free space,
        read by the one after it, takes the estimate and the reserve. */
    ghost predicate Roomy(claims: seq<string>, n: nat) {
      && claims != [] && amounts(n + 1) < 12
      && History.WrapInt64(estimate(claims) + 0x4000_0000) <= amounts(n + 2)
    }

    /** Select a provider, check the cap on unreleased escrows, prove the space. Writes nothing. */
    method Prepare(pvcs: seq<string>) returns (ok: bool)
      requires !CanWork(cluster.helper)
      modifies cluster`calls, cluster`helper, cluster`log
      ensures cluster.calls >= old(cluster.calls) && !CanWork(cluster.helper) && cluster.log == old(cluster.log)
      ensures var n := old(cluster.calls);
              ok <==> cluster.fate(n) == Done && cluster.fate(n + 1) == Done && cluster.fate(n + 2) == Done &&
                      Roomy(pvcs, n)
      ensures ok ==> cluster.calls == old(cluster.calls) + 3
    {
      if |pvcs| == 0 { return false; }
      var selected := cluster.Call();
      if selected != Done { return false; }
      var counted := cluster.Call();
      if counted != Done { return false; }
      if amounts(cluster.calls - 1) >= MAX_OUTSTANDING { return false; }
      var measured := cluster.Call();
      if measured != Done { return false; }
      ok := !(History.WrapInt64(estimate(pvcs) + RESERVE_BYTES) > amounts(cluster.calls - 1));
    }

    method Capture(pvcs: seq<string>) returns (ok: bool)
      requires !CanWork(cluster.helper)
      modifies cluster`calls, cluster`helper, cluster`log
      ensures cluster.calls >= old(cluster.calls) && !CanWork(cluster.helper)
      ensures ok <==> cluster.fate(old(cluster.calls)) == Done && cluster.fate(old(cluster.calls) + 1) == Done
      ensures ok ==> cluster.calls == old(cluster.calls) + 2
      ensures cluster.log == old(cluster.log) + if ok then [Captured(pvcs), Verified(pvcs)] else [Captured(pvcs)]
    {
      var captured := cluster.Call();
      cluster.log := cluster.log + [Captured(pvcs)];
      if captured != Done { return false; }
      var verified := cluster.Call();
      if verified != Done { return false; }
      cluster.log := cluster.log + [Verified(pvcs)];
      ok := true;
    }

    /** The gate of every destructive operation: a verified escrow, a refusal, or the operator's
        explicit waiver. */
    method Gate(noEscrow: bool, pvcs: seq<string>) returns (proceed: bool)
      requires !CanWork(cluster.helper)
      modifies cluster`calls, cluster`helper, cluster`log
      ensures !CanWork(cluster.helper)
      ensures var n := old(cluster.calls);
              proceed <==> noEscrow || (Roomy(pvcs, n) && forall k :: n <= k < n + 5 ==> cluster.fate(k) == Done)
      ensures proceed && !noEscrow ==> pvcs != [] && cluster.log == old(cluster.log) + [Captured(pvcs), Verified(pvcs)]
      ensures noEscrow ==> proceed && cluster.log == old(cluster.log) && cluster.calls == old(cluster.calls)
      ensures !proceed ==> cluster.log == old(cluster.log) || cluster.log == old(cluster.log) + [Captured(pvcs)]
    {
      if noEscrow { return true; }
      var room := Prepare(pvcs);
      if !room { return false; }
      proceed := Capture(pvcs);
    }

    // ----- steps -----

    method Triage() returns (t: Option<Snapshot>)
      requires !CanWork(cluster.helper)
      modifies cluster`calls, cluster`helper, cluster`log
      ensures cluster.calls == old(cluster.calls) + 1 && !CanWork(cluster.helper) && cluster.log == old(cluster.log)
      ensures t == if cluster.fate(old(cluster.calls)) == Done then Some(SnapshotOf(observed(old(cluster.calls))))
                else None
    {
      var f := cluster.Call();
      t := if f == Done then Some(SnapshotOf(observed(cluster.calls - 1))) else None;
    }

    method PersistProof(proof: Proof) returns (ok: bool)
      requires !CanWork(cluster.helper)
      modifies cluster`calls, cluster`helper, cluster`log
      ensures cluster.calls >= old(cluster.calls) && !CanWork(cluster.helper)
      ensures ok <==> cluster.fate(old(cluster.calls)) == Done
      ensures cluster.log == old(cluster.log) + if ok then [Persisted(proof)] else []
    {
      var f := cluster.Call();
      if f != Done { return false; }
      cluster.log := cluster.log + [Persisted(proof)];
      ok := true;
    }

    // ----- jobs -----

    /** After a job: the fences are plain names, and a helper that can still work was left behind by
        a job that failed, with its pod still fenced. */
    ghost predicate Settled(ok: bool)
      reads cluster
    {
      && AllPlain(Fenced(cluster.annotation))
      && (CanWork(cluster.helper) ==>
            !ok && cluster.Orphaned() && cluster.helper.value.target in Fenced(cluster.annotation))
    }

    /** A step is put on record, and its offline job runs. */
    method RunStep(ghost step: Event, job: Job) returns (ok: bool)
      requires IsStep(step) && step.pod == job.target && !job.goDriven
      requires Plain(job.target) && Settled(true)
      modifies cluster
      ensures cluster.Smooth() && CompletionLooks(job) > 0 ==> ok
      ensures Settled(ok) && WorkedFenced(old(cluster.log) + [step], cluster.log, job.target)
      ensures ok || !cluster.Orphaned() ==> OffThroughout(old(cluster.log), cluster.log)
      ensures ok ==> FinishedSince(old(cluster.log) + [step], cluster.log, job.target)
      ensures ok ==> (job.target in Fenced(cluster.annotation) <==> job.keepFenced)
    {
      ghost var before, from := cluster.log, cluster.calls;
      cluster.log := cluster.log + [step];
      var failure := cluster.Run(job);
      ok := failure == None;
      if cluster.Smooth() && CompletionLooks(job) > 0 {
        cluster.SmoothSucceeds(failure, from, cluster.calls, cluster.created, job);
      }
      if ok || !cluster.Orphaned() { OffThen(before, before + [step], cluster.log); }
    }

    method ClearDatadirOffline(pod: string, cfg: Config) returns (ok: bool)
      requires Plain(pod) && Settled(true)
      modifies cluster
      ensures cluster.Smooth() ==> ok
      ensures Settled(ok) && WorkedFenced(old(cluster.log) + [Clear(pod)], cluster.log, pod)
      ensures ok || !cluster.Orphaned() ==> OffThroughout(old(cluster.log), cluster.log)
      ensures ok ==>
                FinishedSince(old(cluster.log) + [Clear(pod)], cluster.log, pod) && pod !in Fenced(cluster.annotation)
    {
      ok := RunStep(Clear(pod), Job(pod, false, false, cfg.deleteTimeout, CLEAR_TIMEOUT));
    }

    ghost predicate ReadyAt(n: nat) {
      cluster.fate(n) == Done && ready(n)
    }

    /** Wait until one of up to thirty looks shows the pod ready. */
    method WaitReady() returns (ok: bool)
      requires !CanWork(cluster.helper)
      modifies cluster`calls, cluster`helper, cluster`log
      ensures !CanWork(cluster.helper) && cluster.log == old(cluster.log)
      ensures ok <==> exists n :: old(cluster.calls) <= n < old(cluster.calls) + 30 && ReadyAt(n)
    {
      for i := 0 to 30
        invariant !CanWork(cluster.helper) && cluster.log == old(cluster.log)
        invariant cluster.calls == old(cluster.calls) + i
        invariant forall n :: old(cluster.calls) <= n < cluster.calls ==> !ReadyAt(n)
      {
        var read := cluster.Call();
        if read == Done && ready(cluster.calls - 1) {
          assert ReadyAt(cluster.calls - 1);
          return true;
        }
      }
      ok := false;
    }

    /** Nothing is in the way: no call fails, every helper succeeds, no freeze is seen, every look
        finds a pod ready, some pod outside the listed ones is primary, and a rebuild has time. */
    ghost predicate Unhindered(pods: seq<string>, cfg: Config) {
      && cluster.Smooth() && (cfg.healTimeout <= 0 || cfg.healTimeout >= 5)
      && forall n: nat :: ready(n) && !frozen(n) && primaryAt(n) != "" && primaryAt(n) !in pods
    }

    /** The rebuild whose guard is the n-th call: it clones the primary that call shows, unless the
        next call does not give its address; then the primary known from before. */
    ghost function RebuildAt(pod: string, captured: string, n: nat): Event {
      var live := primaryAt(n);
      var source := if live != "" && cluster.fate(n + 1) == Done && addressed(n + 1) then live else captured;
      Rebuild(pod, live, source)
    }

    /** Rebuild one pod from the live primary, unless it is the live primary. Without that answer
        nothing is put on record and no helper works. */
    method HealInstance(pod: string, captured: string, cfg: Config) returns (ok: bool)
      requires Plain(pod) && Settled(true)
      modifies cluster
      ensures var n := old(cluster.calls);
              if cluster.fate(n) == Done && primaryAt(n) != pod
              then WorkedFenced(old(cluster.log) + [RebuildAt(pod, captured, n)], cluster.log, pod)
              else !ok && cluster.log == old(cluster.log)
      ensures Unhindered([pod], cfg) ==> ok
      ensures Settled(ok)
      ensures ok || !cluster.Orphaned() ==> OffThroughout(old(cluster.log), cluster.log)
      ensures ok ==> FinishedSince(old(cluster.log) + [RebuildAt(pod, captured, old(cluster.calls))], cluster.log, pod)
      ensures ok ==> pod !in Fenced(cluster.annotation)
    {
      ghost var n := cluster.calls;
      var guard := cluster.Call();
      if guard != Done { return false; }
      var primary := primaryAt(cluster.calls - 1);
      if pod == primary { return false; }
      var source := captured;
      if primary != "" {
        var look := cluster.Call();
        if look == Done && addressed(cluster.calls - 1) { source := primary; }
      }
      assert Rebuild(pod, primary, source) == RebuildAt(pod, captured, n);
      var done := RunStep(Rebuild(pod, primary, source), Job(pod, false, false, cfg.deleteTimeout, cfg.healTimeout));
      if !done { return false; }
      assert Unhindered([pod], cfg) ==> ReadyAt(cluster.calls);
      ok := WaitReady();
    }

    /** The i-th round of looks did not report the freeze and showed the authority ready. */
    ghost predicate UnfrozenRound(from: nat, i: nat) {
      !(cluster.fate(from + 2 * i) == Done && frozen(from + 2 * i)) && ReadyAt(from + 2 * i + 1)
    }

    /** One look did not report the freeze, and the next one showed the authority ready. */
    ghost predicate SeenUnfrozen(from: nat, to: nat) {
      exists n: nat :: from <= n && n + 1 < to && !(cluster.fate(n) == Done && frozen(n)) &&
        cluster.fate(n + 1) == Done && ready(n + 1)
    }

    /** Wait until the freeze is not reported any more and the authority is ready. */
    method WaitUnfrozen() returns (ok: bool)
      requires !CanWork(cluster.helper)
      modifies cluster`calls, cluster`helper, cluster`log
      ensures cluster.calls >= old(cluster.calls) && !CanWork(cluster.helper) && cluster.log == old(cluster.log)
      ensures ok ==> SeenUnfrozen(old(cluster.calls), cluster.calls)
      ensures ok <==> exists i :: 0 <= i < 60 && UnfrozenRound(old(cluster.calls), i)
    {
      for i := 0 to 60
        invariant !CanWork(cluster.helper) && cluster.log == old(cluster.log)
        invariant cluster.calls == old(cluster.calls) + 2 * i
        invariant forall j :: 0 <= j < i ==> !UnfrozenRound(old(cluster.calls), j)
      {
        var phase := cluster.Call();
        var stillFrozen := phase == Done && frozen(cluster.calls - 1);
        var pod := cluster.Call();
        var up := pod == Done && ready(cluster.calls - 1);
        if !stillFrozen && up {
          assert cluster.fate(cluster.calls - 2) == phase && cluster.fate(cluster.calls - 1) == pod;
          assert UnfrozenRound(old(cluster.calls), i);
          return true;
        }
      }
      ok := false;
    }

    /** The primary a live read of the cluster and of its pod shows. */
    method DiscoverHealConfigLive() returns (primary: Option<string>)
      requires !CanWork(cluster.helper)
      modifies cluster`calls, cluster`helper, cluster`log
      ensures !CanWork(cluster.helper) && cluster.log == old(cluster.log)
      ensures var n := old(cluster.calls);
              primary == if cluster.fate(n) == Done && primaryAt(n) != "" && cluster.fate(n + 1) == Done
                         then Some(primaryAt(n)) else None
    {
      var get := cluster.Call();
      if get != Done { return None; }
      var name := primaryAt(cluster.calls - 1);
      if name == "" { return None; }
      var pod := cluster.Call();
      primary := if pod == Done then Some(name) else None;
    }

    // ----- the destructive part -----

    method ClearOne(proof: Proof, i: nat, cfg: Config, ghost start: seq<Event>) returns (stop: Option<Stop>)
      requires i < |proof.disposable| && Plain(proof.disposable[i])
      requires Settled(true) && Through(start, cluster.log, proof, i)
      modifies cluster
      ensures Settled(stop == None) && Underway(start, cluster.log, proof)
      ensures stop != Some(ClearFailed) || !cluster.Orphaned() ==> OffThroughout(start, cluster.log)
      ensures stop in {None, Some(NotAuthorized), Some(ClearFailed)}
      ensures cluster.Smooth() ==> stop != Some(ClearFailed)
      ensures stop == None ==> Through(start, cluster.log, proof, i + 1) && MayClear(proof, proof.disposable[i])
      ensures stop == Some(NotAuthorized) <==> !MayClear(proof, proof.disposable[i])
      ensures stop == Some(NotAuthorized) ==> cluster.log == old(cluster.log)
    {
      var authorized := AuthorizesClear(proof, proof.disposable[i]);
      if !authorized { return Some(NotAuthorized); }
      ghost var before := cluster.log;
      var cleared := ClearDatadirOffline(proof.disposable[i], cfg);
      ClearDone(start, before, cluster.log, proof, i);
      stop := if cleared then None else Some(ClearFailed);
    }

    method ClearAll(proof: Proof, cfg: Config, ghost start: seq<Event>) returns (stop: Option<Stop>)
      requires AllPlain(proof.disposable) && Settled(true) && start == cluster.log
      modifies cluster
      ensures Settled(stop == None) && Underway(start, cluster.log, proof)
      ensures stop != Some(ClearFailed) || !cluster.Orphaned() ==> OffThroughout(start, cluster.log)
      ensures stop in {None, Some(NotAuthorized), Some(ClearFailed)}
      ensures cluster.Smooth() && MayClearFirst(proof, |proof.disposable|) ==> stop == None
      ensures stop == None ==> Through(start, cluster.log, proof, |proof.disposable|)
      ensures stop == None ==> MayClearFirst(proof, |proof.disposable|)
    {
      NothingDone(start, proof);
      for i := 0 to |proof.disposable|
        invariant Settled(true) && Through(start, cluster.log, proof, i)
        invariant MayClearFirst(proof, i)
      {
        assert Plain(proof.disposable[i]);
        stop := ClearOne(proof, i, cfg, start);
        if stop.Some? { return; }
      }
      stop := None;
    }

    method RecloneOne(proof: Proof, i: nat, captured: string, cfg: Config, ghost start: seq<Event>) returns (ok: bool)
      requires i < |proof.disposable| && Plain(proof.disposable[i]) && MayClear(proof, proof.disposable[i])
      requires Settled(true) && Through(start, cluster.log, proof, |proof.disposable| + i)
      modifies cluster
      ensures Settled(ok) && Underway(start, cluster.log, proof)
      ensures ok || !cluster.Orphaned() ==> OffThroughout(start, cluster.log)
      ensures Unhindered(proof.disposable, cfg) ==> ok
      ensures ok ==> Through(start, cluster.log, proof, |proof.disposable| + i + 1)
    {
      ghost var before, n := cluster.log, cluster.calls;
      assert Unhindered(proof.disposable, cfg) ==> Unhindered([proof.disposable[i]], cfg);
      ok := HealInstance(proof.disposable[i], captured, cfg);
      if cluster.fate(n) == Done && primaryAt(n) != proof.disposable[i] {
        RebuildDone(start, before, RebuildAt(proof.disposable[i], captured, n), cluster.log, proof, i);
      }
    }

    method RecloneAll(proof: Proof, captured: string, cfg: Config, ghost start: seq<Event>) returns (ok: bool)
      requires AllPlain(proof.disposable) && MayClearFirst(proof, |proof.disposable|)
      requires Settled(true) && Through(start, cluster.log, proof, |proof.disposable|)
      modifies cluster
      ensures Settled(ok) && Underway(start, cluster.log, proof)
      ensures ok || !cluster.Orphaned() ==> OffThroughout(start, cluster.log)
      ensures Unhindered(proof.disposable, cfg) ==> ok
      ensures ok ==> Through(start, cluster.log, proof, |Plan(proof)|)
    {
      for i := 0 to |proof.disposable|
        invariant Settled(true) && Through(start, cluster.log, proof, |proof.disposable| + i)
      {
        assert Plain(proof.disposable[i]) && MayClear(proof, proof.disposable[i]);
        ok := RecloneOne(proof, i, captured, cfg, start);
        if !ok { return; }
      }
      ok := true;
    }

    /** Clear, wait, re-clone: everything after the proof is on record. */
    method ClearAndReclone(proof: Proof, cfg: Config) returns (stop: Option<Stop>)
      requires AllPlain(proof.disposable) && Settled(true)
      modifies cluster
      ensures Settled(stop == None) && Underway(old(cluster.log), cluster.log, proof)
      ensures stop !in {Some(ClearFailed), Some(RecloneFailed)} || !cluster.Orphaned() ==>
                OffThroughout(old(cluster.log), cluster.log)
      ensures Unhindered(proof.disposable, cfg) && MayClearFirst(proof, |proof.disposable|) ==> stop == None
      ensures stop == None ==> Through(old(cluster.log), cluster.log, proof, |Plan(proof)|)
    {
      ghost var start := cluster.log;
      stop := ClearAll(proof, cfg, start);
      if stop.Some? { return stop; }
      assert Unhindered(proof.disposable, cfg) ==> UnfrozenRound(cluster.calls, 0);
      var unfrozen := WaitUnfrozen();
      if !unfrozen { return Some(StillFrozen); }
      var primary := DiscoverHealConfigLive();
      if primary.None? { return Some(NoHealConfig); }
      var healed := RecloneAll(proof, primary.value, cfg, start);
      stop := if healed then None else Some(RecloneFailed);
    }

    /** From the escrow to the persisted proof. With a digest that is never empty the drift check
        never fires: whether the run gets here depends on the four calls alone. */
    method EscrowAndProve(rec: Recovery, pvcs: seq<string>)
      returns (stop: Option<Stop>, confirm: Option<Snapshot>, proof: Proof)
      requires rec.authority != "" && |rec.disposable| > 0 && !CanWork(cluster.helper)
      modifies cluster`calls, cluster`helper, cluster`log
      ensures !CanWork(cluster.helper)
      ensures proof.authority == rec.authority && proof.disposable == rec.disposable
      ensures old(cluster.log) <= cluster.log <= old(cluster.log) + Opening(pvcs, proof)
      ensures stop == None ==> cluster.log == old(cluster.log) + Opening(pvcs, proof)
      ensures stop == None ==>
                confirm == Some(SnapshotOf(observed(old(cluster.calls) + 2))) && Valid(proof, confirm, digest)
      ensures var n := old(cluster.calls);
              CollisionFree(digest) ==>
                (stop == None <==> cluster.fate(n) == Done && cluster.fate(n + 1) == Done &&
                                   cluster.fate(n + 2) == Done && cluster.fate(n + 3) == Done)
    {
      proof := Proof("", rec.authority, rec.disposable, true);
      confirm := None;
      var captured := Capture(pvcs);
      if !captured { return Some(CaptureFailed), None, proof; }
      confirm := Triage();
      if confirm.None? { return Some(RetriageFailed), None, proof; }
      var hash := HashAssessment(confirm, digest);
      proof := Proof(hash, rec.authority, rec.disposable, true);
      if !Valid(proof, confirm, digest) { return Some(Drifted), None, proof; }
      var persisted := PersistProof(proof);
      if !persisted { return Some(PersistFailed), None, proof; }
      stop := None;
    }

    /** What a run of the breaker that acts on the recovery `rec` has put on record since `before`. */
    ghost predicate Traced(before: seq<Event>, rec: Recovery, pvcs: seq<string>, proof: Proof, stop: Option<Stop>)
      reads cluster
    {
      && Follows(before, cluster.log, rec, pvcs, proof) && Settled(stop == None)
      && (stop == None ==> Complete(before, cluster.log, pvcs, proof))
      && (stop !in {Some(ClearFailed), Some(RecloneFailed)} || !cluster.Orphaned() ==>
            OffThroughout(before, cluster.log))
    }

    /** The digests tell states apart, the authority is named and not to be cleared itself, and the
        image for the helpers is known. */
    ghost predicate MayGoOn(rec: Recovery, cfg: Config) {
      && CollisionFree(digest) && cfg.imageName != ""
      && forall i :: 0 <= i < |rec.disposable| ==> rec.disposable[i] != "" && rec.disposable[i] != rec.authority
    }

    lemma AllMayBeCleared(rec: Recovery, cfg: Config, proof: Proof)
      requires MayGoOn(rec, cfg) && proof.authority == rec.authority && proof.disposable == rec.disposable
      ensures MayClearFirst(proof, |proof.disposable|)
    {}

    /** From the escrow to the last re-clone. */
    method Break(rec: Recovery, pvcs: seq<string>, cfg: Config)
      returns (result: Option<Snapshot>, stop: Option<Stop>, ghost proof: Proof)
      requires rec.authority != "" && |rec.disposable| > 0 && Covers(pvcs, rec.recoverySet)
      requires AllPlain(rec.disposable) && Settled(true)
      modifies cluster
      ensures Traced(old(cluster.log), rec, pvcs, proof, stop)
      ensures Unhindered(rec.disposable, cfg) && MayGoOn(rec, cfg) ==> stop == None
    {
      var p;
      stop, result, p := EscrowAndProve(rec, pvcs);
      proof := p;
      OpeningFollows(old(cluster.log), cluster.log, rec, pvcs, proof);
      if stop.Some? { return None, stop, proof; }
      if cfg.imageName == "" { return None, Some(ConfigFailed), proof; }
      if MayGoOn(rec, cfg) { AllMayBeCleared(rec, cfg, p); }
      stop := ClearAndReclone(p, cfg);
      BodyFollows(old(cluster.log), cluster.log, rec, pvcs, proof);
      if stop in {Some(NotAuthorized), Some(ClearFailed), Some(StillFrozen)} { result := None; }
    }

    /** With nothing in its way a run gets to the end, unless the escrow found no claim or no room. */
    ghost predicate Completes(rec: Recovery, cfg: Config, from: nat, stop: Option<Stop>) {
      Unhindered(rec.disposable, cfg) && MayGoOn(rec, cfg) ==>
        stop == None || (stop == Some(EscrowRefused) && NoRoom(rec.recoverySet, from))
    }

    ghost predicate NoRoom(pods: seq<string>, from: nat) {
      exists claims :: AreClaims(claims, pods, from) && !Roomy(claims, from + |pods|)
    }

    /** Find the claims of the pods and room to escrow them. */
    method Reserve(pods: seq<string>) returns (claims: Option<seq<string>>)
      requires !CanWork(cluster.helper)
      modifies cluster`calls, cluster`helper, cluster`log
      ensures !CanWork(cluster.helper) && cluster.log == old(cluster.log)
      ensures claims.Some? ==> AreClaims(claims.value, pods, old(cluster.calls))
      ensures claims == None && cluster.Smooth() ==> NoRoom(pods, old(cluster.calls))
    {
      claims := DiscoverPVCs(pods);
      if claims.None? { return None; }
      var prepared := Prepare(claims.value);
      if !prepared { return None; }
    }

    /** What is done about a deadlock that may be broken. */
    method Act(rec: Recovery, t: Snapshot, cfg: Config)
      returns (result: Option<Snapshot>, stop: Option<Stop>, ghost pvcs: seq<string>, ghost proof: Proof)
      requires rec.authority != "" && |rec.disposable| > 0 && AllPlain(rec.disposable) && Settled(true)
      modifies cluster
      ensures cfg.dryRun ==> cluster.log == old(cluster.log) && Settled(true)
      ensures Traced(old(cluster.log), rec, pvcs, proof, stop)
      ensures !cfg.dryRun ==> Completes(rec, cfg, old(cluster.calls), stop)
    {
      pvcs, proof := rec.recoverySet, Proof("", rec.authority, rec.disposable, true);
      OpeningFollows(cluster.log, cluster.log, rec, pvcs, proof);
      ghost var from := cluster.calls;
      var claims := Reserve(rec.recoverySet);
      if claims.None? { return None, Some(EscrowRefused), pvcs, proof; }
      if cfg.dryRun { return Some(t), Some(DryRunPreview), pvcs, proof; }
      SetIsCovered(rec.recoverySet, from, claims.value);
      pvcs := claims.value;
      result, stop, proof := Break(rec, claims.value, cfg);
    }

    /** What a run that acts on the triage t did since its call `from`: no capture, no step and no work
        without a breakable deadlock, and none on a dry run; otherwise the record, work included, is a
        beginning of the one script the triage allows, with an escrow that covers the recovery set, and
        the whole of it on success; which is reached when nothing is in the way. */
    ghost predicate Told(before: seq<Event>, t: Snapshot, cfg: Config, from: nat, pvcs: seq<string>, proof: Proof,
                         stop: Option<Stop>)
      reads cluster
    {
      && (!Breakable(t) || cfg.dryRun ==> cluster.log == before && Settled(true))
      && (Breakable(t) ==> Traced(before, t.recovery.value, pvcs, proof, stop))
      && (Breakable(t) && !cfg.dryRun ==> Completes(t.recovery.value, cfg, from, stop))
    }

    /** What follows the first triage. */
    method Unwedge(t: Snapshot, cfg: Config)
      returns (result: Option<Snapshot>, stop: Option<Stop>, ghost pvcs: seq<string>, ghost proof: Proof)
      requires AllPlain(DisposableOf(t)) && Settled(true)
      modifies cluster
      ensures Told(old(cluster.log), t, cfg, old(cluster.calls), pvcs, proof, stop)
      ensures !Deadlocked(t) ==> result == Some(t) && stop == None
      ensures Deadlocked(t) && !Breakable(t) ==> stop == Some(AmbiguousDeadlock)
    {
      pvcs, proof := [], Proof("", "", [], false);
      if !Deadlocked(t) { return Some(t), None, pvcs, proof; }
      var rec := t.recovery.value;
      if t.authorityStatus != "unambiguous" || rec.authority == "" || |rec.disposable| == 0 {
        return None, Some(AmbiguousDeadlock), pvcs, proof;
      }
      result, stop, pvcs, proof := Act(rec, t, cfg);
    }

    method FirstTriage() returns (t: Option<Snapshot>)
      requires PlainNames() && !CanWork(cluster.helper)
      modifies cluster`calls, cluster`helper, cluster`log
      ensures cluster.calls == old(cluster.calls) + 1 && !CanWork(cluster.helper) && cluster.log == old(cluster.log)
      ensures t == if cluster.fate(old(cluster.calls)) == Done then Some(SnapshotOf(observed(old(cluster.calls))))
                else None
      ensures t.Some? ==> AllPlain(DisposableOf(t.value))
    {
      PlainDisposable(cluster.calls);
      t := Triage();
    }

    /** Triage, and break the deadlock it shows. */
    method PreAssess(cfg: Config)
      returns (result: Option<Snapshot>, stop: Option<Stop>, ghost pvcs: seq<string>, ghost proof: Proof)
      requires PlainNames() && Settled(true)
      modifies cluster
      // Without the flag nothing happens.
      ensures !cfg.unwedge ==> result == None && stop == None && cluster.calls == old(cluster.calls)
      // Nor when the triage cannot be had.
      ensures !cfg.unwedge || cluster.fate(old(cluster.calls)) != Done ==>
                cluster.log == old(cluster.log) && Settled(true)
      // Else the run acts on what its first triage shows.
      ensures cfg.unwedge && cluster.fate(old(cluster.calls)) == Done ==>
                Told(old(cluster.log), SnapshotOf(observed(old(cluster.calls))), cfg, old(cluster.calls) + 1, pvcs,
                  proof, stop)
      // In particular it does nothing beside a running primary, without a proven one, or with disk space left.
      ensures !FrozenWithoutPrimary(observed(old(cluster.calls))) ==> cluster.log == old(cluster.log)
    {
      pvcs, proof := [], Proof("", "", [], false);
      if !cfg.unwedge { return None, None, pvcs, proof; }
      ghost var o := observed(cluster.calls);
      var t := FirstTriage();
      if t.None? { return None, Some(TriageFailed), pvcs, proof; }
      if Breakable(t.value) { NeedsDeadPrimary(o); }
      result, stop, pvcs, proof := Unwedge(t.value, cfg);
    }

    lemma PlainDisposable(n: nat)
      requires PlainNames()
      ensures AllPlain(DisposableOf(SnapshotOf(observed(n))))
    {
      var pods := DisposableOf(SnapshotOf(observed(n)));
      forall i | 0 <= i < |pods| ensures Plain(pods[i]) {
        assert pods[i] in pods;
        var j :| 0 <= j < |observed(n).data| && observed(n).data[j].pod == pods[i];
      }
    }

    /** The claims hold every volume of the pods. */
    lemma SetIsCovered(pods: seq<string>, from: nat, claims: seq<string>)
      requires AreClaims(claims, pods, from)
      ensures Covers(claims, pods)
    {
      forall i | 0 <= i < |pods| ensures pods[i] == "" || pods[i] in claims {
        assert Claims(pods, from, pods[i]);
      }
    }
  }

  // ----- what it means -----

  /** Discarding a pod the breaker may clear loses nothing to the authority of the triage it acts
      on: the pod was proven empty, or its rows are all there. Re-cloning it then loses nothing if
      the source is that authority; the code does not compare the two. */
  lemma BreakingLosesNothing(o: Observed, content: Option<Authority.Comparator>, extent: Authority.Extent, pod: string)
    returns (authority: Lineage.Instance)
    requires HealPlan.TriageInputs(o.data, o.primaryName, content, extent, o.cmp)
    requires Breakable(SnapshotOf(o)) && pod in DisposableOf(SnapshotOf(o))
    requires pod != SnapshotOf(o).recovery.value.authority
    ensures authority in Inputs(o.data, o.primaryName) && authority.readState == Lineage.Read
    ensures authority.pod == SnapshotOf(o).recovery.value.authority
    ensures HealPlan.DiscardLosesNothing(o.data, o.primaryName, extent, pod, authority)
  {
    authority := AuthorityHoldsEverything(o.data, o.primaryName, content, extent, o.cmp);
  }

  /** The authority is itself listed as disposable exactly when its data is reported corrupt. Then
      a run cannot succeed: the authorization of its clear is refused. */
  lemma AuthorityIsDisposableIffCorrupt(o: Observed)
    requires Breakable(SnapshotOf(o))
    ensures SnapshotOf(o).recovery.value.authority in DisposableOf(SnapshotOf(o)) <==>
              HealPlan.ReportedCorrupt(o.data, o.primaryName)
  {
    var assessments := Assessments(o.data, o.primaryName, o.cmp);
    assert DisposableOf(SnapshotOf(o)) == DisposablePods(assessments);
    assert forall i :: 0 <= i < |o.data| && o.data[i].pod == o.primaryName ==>
      (assessments[i].classification == ClassDisposable <==> o.data[i].crashReason == "pgdata_corruption");
    if HealPlan.ReportedCorrupt(o.data, o.primaryName) {
      var i :| 0 <= i < |o.data| && o.data[i].pod == o.primaryName && o.data[i].crashReason == "pgdata_corruption";
      assert assessments[i] in assessments;
    }
  }

  /** The proof a run binds to the snapshot. */
  function BoundTo(t: Snapshot, rec: Recovery, digest: string -> string): Proof {
    Proof(HashOf(Some(t), digest), rec.authority, rec.disposable, true)
  }

  /** What triage collects about an instance it cannot read, though its volume is there. */
  function Unreadable(c: Collected): Collected {
    c.(source := "none", timeline := "unknown", checkpoint := "unknown", historyRaw := "", pgDataPresent := "",
       pvcState := "Bound")
  }

  /** The same triage, had the i-th instance not been readable. */
  function WithUnreadable(o: Observed, i: nat): Observed
    requires i < |o.data|
  {
    o.(data := o.data[i := Unreadable(o.data[i])], cmp := DataComparison(Undeterminable, "", false))
  }

  lemma UnreadableIsUnread(c: Collected, primaryName: string)
    ensures InputFor(Unreadable(c), primaryName).readState == Lineage.Unread
  {
    TrimNothing("unknown");
  }

  /** It is a triage the code can produce, whatever resolver is in use, and nothing can be broken. */
  lemma UnreadableTriage(o: Observed, i: nat, content: Option<Authority.Comparator>)
    requires i < |o.data|
    ensures var now := WithUnreadable(o, i);
            && IsComparison(now.data, now.primaryName, content, now.cmp) && !Breakable(SnapshotOf(now))
            && SnapshotOf(now).recovery == Some(Recovery(false, AmbiguousAuthority, "", [], []))
  {
    var now := WithUnreadable(o, i);
    var insts := Inputs(now.data, now.primaryName);
    UnreadableIsUnread(o.data[i], o.primaryName);
    assert insts[i] in insts && insts[i].readState == Lineage.Unread;
    Authority.UnreadOfHasNoSentinel(insts);
    var d := Authority.Decision(false, "", false, Authority.UnreadOf(insts), []);
    assert Authority.IsVerdict(insts, content, d) && now.cmp == Project(d, now.primaryName);
  }

  lemma UnreadablePrints(c: Collected)
    ensures Delimited(TrimSpace(Unreadable(c).checkpoint))
  {
    TrimNothing("unknown");
    assert Delimited("unknown");
  }

  predicate DelimitedAt(data: seq<Collected>, j: nat)
    requires j < |data|
  {
    Delimited(data[j].pod) && Delimited(TrimSpace(data[j].checkpoint))
  }

  lemma AssessmentFields(o: Observed, j: nat)
    requires j < |o.data|
    ensures var a := SnapshotOf(o).assessments[j]; a.pod == o.data[j].pod && a.lsn == TrimSpace(o.data[j].checkpoint)
  {}

  lemma DelimitedByIndex(o: Observed, j: nat)
    requires j < |o.data| && DelimiterFree(SnapshotOf(o))
    ensures DelimitedAt(o.data, j)
  {
    AssessmentFields(o, j);
    assert SnapshotOf(o).assessments[j] in SnapshotOf(o).assessments;
  }

  lemma DelimitedSnapshot(o: Observed)
    requires forall j :: 0 <= j < |o.data| ==> DelimitedAt(o.data, j)
    requires SnapshotOf(o).recovery == Some(Recovery(false, AmbiguousAuthority, "", [], [])) && !o.cmp.safeToHeal
    ensures DelimiterFree(SnapshotOf(o))
  {
    var t := SnapshotOf(o);
    assert Delimited("ambiguous") && Delimited("");
    forall j | 0 <= j < |t.assessments| ensures Delimited(t.assessments[j].pod) && Delimited(t.assessments[j].lsn) {
      AssessmentFields(o, j);
      assert DelimitedAt(o.data, j);
    }
  }

  lemma UnreadableIsDelimited(o: Observed, i: nat)
    requires i < |o.data| && DelimiterFree(SnapshotOf(o))
    ensures DelimiterFree(SnapshotOf(WithUnreadable(o, i)))
  {
    UnreadableDataIsDelimited(o, i);
    UnreadableTriage(o, i, None);
    DelimitedSnapshot(WithUnreadable(o, i));
  }

  lemma UnreadableDataIsDelimited(o: Observed, i: nat)
    requires i < |o.data| && DelimiterFree(SnapshotOf(o))
    ensures forall j :: 0 <= j < |WithUnreadable(o, i).data| ==> DelimitedAt(WithUnreadable(o, i).data, j)
  {
    var now := WithUnreadable(o, i);
    forall j | 0 <= j < |now.data| ensures DelimitedAt(now.data, j) {
      DelimitedByIndex(o, j);
      UnreadablePrints(o.data[j]);
    }
  }

  /** The re-triage is hashed and validated against itself. Let any instance have become unreadable
      since the first triage: authority is then undeterminable and there is nothing to break, but
      the run's proof is valid. A proof bound to the first triage would have noticed. */
  lemma DriftBetweenTriagesGoesUnnoticed(o: Observed, i: nat, digest: string -> string)
    requires CollisionFree(digest) && i < |o.data| && Breakable(SnapshotOf(o))
    requires DelimiterFree(SnapshotOf(o)) && DistinctPods(SnapshotOf(o).assessments)
    ensures var first, confirm := SnapshotOf(o), SnapshotOf(WithUnreadable(o, i));
            && !Breakable(confirm) && !SameState(first, confirm)
            && Valid(BoundTo(confirm, first.recovery.value, digest), Some(confirm), digest)
            && !Valid(BoundTo(first, first.recovery.value, digest), Some(confirm), digest)
  {
    var first, confirm := SnapshotOf(o), SnapshotOf(WithUnreadable(o, i));
    UnreadableTriage(o, i, None);
    UnreadableIsDelimited(o, i);
    DriftIsDetected(BoundTo(first, first.recovery.value, digest), first, confirm, digest);
  }
}
