// What a run of the deadlock breaker may leave in the record: the escrow and the proof first,
// then one offline job per destructive step, each on a pod the proof allows.
module BreakerScript {
  import opened Options
  import opened Comparison
  import opened OfflineJob
  import opened RecoveryProof
  import opened Trail

  // ----- steps -----

  /** The destructive steps of a run, one offline job each. */
  datatype Step = Clearing(pod: string) | Rebuilding(pod: string)

  predicate IsStep(e: Event) {
    e.Clear? || e.Rebuild?
  }

  function StepOf(e: Event): seq<Step> {
    match e
    case Clear(pod) => [Clearing(pod)]
    case Rebuild(pod, _, _) => [Rebuilding(pod)]
    case _ => []
  }

  /** The steps of a record in order, without what their helpers did. */
  function Steps(body: seq<Event>): seq<Step> {
    if body == [] then [] else Steps(body[..|body| - 1]) + StepOf(body[|body| - 1])
  }

  /** Clear every disposable instance, then rebuild every one. */
  function Plan(proof: Proof): seq<Step> {
    var pods := proof.disposable;
    seq(2 * |pods|, i requires 0 <= i < 2 * |pods| =>
      if i < |pods| then Clearing(pods[i]) else Rebuilding(pods[i - |pods|]))
  }

  function Opening(pvcs: seq<string>, proof: Proof): seq<Event> {
    [Captured(pvcs), Verified(pvcs), Persisted(proof)]
  }

  // ----- what is allowed -----

  /** The event may stand at its place: a step on a pod the proof allows to clear, never on the
      live primary; or what the latest step's helper did, on that very pod, under its fence. */
  ghost predicate Authorized(body: seq<Event>, n: nat, proof: Proof)
    requires n < |body|
  {
    match body[n]
    case Clear(pod) => MayClear(proof, pod)
    case Rebuild(pod, live, _) => MayClear(proof, pod) && pod != live
    case Work(target, _, _, _) => OfLatestStep(body, n, proof, target)
    case Finished(target) => OfLatestStep(body, n, proof, target)
    case _ => false
  }

  ghost predicate OfLatestStep(body: seq<Event>, n: nat, proof: Proof, target: string)
    requires n < |body|
  {
    var steps := Steps(body[..n]);
    steps != [] && target == steps[|steps| - 1].pod && MayClear(proof, target) && UnderFence(body[n], target)
  }

  ghost predicate AllAuthorized(body: seq<Event>, proof: Proof) {
    forall n :: 0 <= n < |body| ==> Authorized(body, n, proof)
  }

  /** A beginning of the plan, with everything in it authorized. */
  ghost predicate Breaking(body: seq<Event>, proof: Proof) {
    Steps(body) <= Plan(proof) && AllAuthorized(body, proof)
  }

  /** The step's helper finished before the next step began. */
  ghost predicate FinishedAt(body: seq<Event>, n: nat)
    requires n < |body| && IsStep(body[n])
  {
    exists m :: n < m < |body| && body[m] == Finished(body[n].pod) && Steps(body[..m]) == Steps(body[..n + 1])
  }

  ghost predicate SeenThrough(body: seq<Event>) {
    forall n :: 0 <= n < |body| && IsStep(body[n]) ==> FinishedAt(body, n)
  }

  predicate Covers(pvcs: seq<string>, pods: seq<string>) {
    forall i :: 0 <= i < |pods| ==> pods[i] == "" || pods[i] in pvcs
  }

  function Since(before: seq<Event>, now: seq<Event>): (r: seq<Event>)
    requires before <= now
    ensures now == before + r
  {
    now[|before|..]
  }

  /** What a run adds to the record is a beginning of the opening, or the opening followed by a
      beginning of the plan. */
  ghost predicate Follows(before: seq<Event>, now: seq<Event>, rec: Recovery, pvcs: seq<string>, proof: Proof) {
    && proof.authority == rec.authority && proof.disposable == rec.disposable && Covers(pvcs, rec.recoverySet)
    && before <= now
    && var added := Since(before, now);
       if |added| <= 3 then added <= Opening(pvcs, proof)
       else added[..3] == Opening(pvcs, proof) && Breaking(added[3..], proof)
  }

  /** The run went through the opening and the whole plan. */
  ghost predicate Complete(before: seq<Event>, now: seq<Event>, pvcs: seq<string>, proof: Proof) {
    && before <= now
    && var added := Since(before, now);
       && |added| >= 3 && added[..3] == Opening(pvcs, proof)
       && Steps(added[3..]) == Plan(proof) && SeenThrough(added[3..])
  }

  // ----- one step more -----

  lemma StepsThen(a: seq<Event>, e: Event)
    ensures Steps(a + [e]) == Steps(a) + StepOf(e)
  {
    assert (a + [e])[..|a|] == a;
  }

  lemma {:induction false} StepsConcat(a: seq<Event>, b: seq<Event>)
    ensures Steps(a + b) == Steps(a) + Steps(b)
  {
    if b == [] {
      assert a + b == a;
    } else {
      var init, last := b[..|b| - 1], b[|b| - 1];
      assert b == init + [last] && a + b == a + init + [last];
      calc {
        Steps(a + b);
        { StepsThen(a + init, last); }
        Steps(a + init) + StepOf(last);
        { StepsConcat(a, init); }
        Steps(a) + Steps(init) + StepOf(last);
        Steps(a) + (Steps(init) + StepOf(last));
        { StepsThen(init, last); }
        Steps(a) + Steps(b);
      }
    }
  }

  lemma {:induction false} HelpersTakeNoStep(b: seq<Event>, pod: string)
    requires forall n :: 0 <= n < |b| ==> UnderFence(b[n], pod)
    ensures Steps(b) == []
  {
    if b != [] { HelpersTakeNoStep(b[..|b| - 1], pod); }
  }

  /** Below, a run that follows the plan is extended by one step and what its helper did. */
  ghost predicate Extends(body: seq<Event>, step: Event, more: seq<Event>, proof: Proof) {
    && Breaking(body, proof) && IsStep(step) && Steps(body) + StepOf(step) <= Plan(proof)
    && MayClear(proof, step.pod) && (step.Rebuild? ==> step.pod != step.livePrimary)
    && forall n :: 0 <= n < |more| ==> UnderFence(more[n], step.pod)
  }

  lemma UpTo(a: seq<Event>, b: seq<Event>, n: nat)
    requires n <= |b|
    ensures (a + b)[..|a| + n] == a + b[..n]
  {}

  lemma StepsWith(body: seq<Event>, step: Event, tail: seq<Event>)
    requires IsStep(step) && forall k :: 0 <= k < |tail| ==> UnderFence(tail[k], step.pod)
    ensures Steps(body + [step] + tail) == Steps(body) + StepOf(step)
  {
    StepsThen(body, step);
    StepsConcat(body + [step], tail);
    HelpersTakeNoStep(tail, step.pod);
  }

  lemma StepsSoFar(body: seq<Event>, step: Event, more: seq<Event>, n: nat)
    requires IsStep(step)
    requires n <= |more| && forall k :: 0 <= k < |more| ==> UnderFence(more[k], step.pod)
    ensures Steps((body + [step] + more)[..|body| + 1 + n]) == Steps(body) + StepOf(step)
  {
    var tail := more[..n];
    assert (body + [step] + more)[..|body| + 1 + n] == body + [step] + tail by { UpTo(body + [step], more, n); }
    StepsWith(body, step, tail);
  }

  /** Whether an event may stand at its place depends on what came before only. */
  lemma StaysAuthorized(body: seq<Event>, e: Event, proof: Proof, n: nat)
    requires n < |body| && Authorized(body, n, proof)
    ensures Authorized(body + [e], n, proof)
  {
    assert (body + [e])[..n] == body[..n] && (body + [e])[n] == body[n];
  }

  lemma Append(body: seq<Event>, e: Event, proof: Proof)
    requires AllAuthorized(body, proof) && Authorized(body + [e], |body|, proof)
    ensures AllAuthorized(body + [e], proof)
  {
    forall n | 0 <= n < |body + [e]| ensures Authorized(body + [e], n, proof) {
      if n < |body| { StaysAuthorized(body, e, proof, n); }
    }
  }

  lemma StepMayStand(body: seq<Event>, step: Event, proof: Proof)
    requires IsStep(step) && MayClear(proof, step.pod) && (step.Rebuild? ==> step.pod != step.livePrimary)
    ensures Authorized(body + [step], |body|, proof)
  {
    assert (body + [step])[|body|] == step;
  }

  lemma HelperMayStand(body: seq<Event>, e: Event, proof: Proof, pod: string)
    requires UnderFence(e, pod) && MayClear(proof, pod) && Steps(body) != []
    requires Steps(body)[|Steps(body)| - 1].pod == pod
    ensures Authorized(body + [e], |body|, proof) && Steps(body + [e]) == Steps(body)
  {
    assert (body + [e])[|body|] == e && (body + [e])[..|body|] == body;
    StepsThen(body, e);
  }

  lemma {:induction false} HelpersMayStand(body: seq<Event>, more: seq<Event>, proof: Proof, pod: string)
    requires AllAuthorized(body, proof) && MayClear(proof, pod) && Steps(body) != []
    requires Steps(body)[|Steps(body)| - 1].pod == pod
    requires forall k :: 0 <= k < |more| ==> UnderFence(more[k], pod)
    ensures AllAuthorized(body + more, proof) && Steps(body + more) == Steps(body)
  {
    if more == [] {
      assert body + more == body;
    } else {
      var init, e := more[..|more| - 1], more[|more| - 1];
      HelpersMayStand(body, init, proof, pod);
      HelperMayStand(body + init, e, proof, pod);
      Append(body + init, e, proof);
      assert body + more == body + init + [e];
    }
  }

  lemma OneStepMore(body: seq<Event>, step: Event, more: seq<Event>, proof: Proof)
    requires Extends(body, step, more, proof)
    ensures Breaking(body + [step] + more, proof) && Steps(body + [step] + more) == Steps(body) + StepOf(step)
  {
    StepMayStand(body, step, proof);
    Append(body, step, proof);
    StepsThen(body, step);
    HelpersMayStand(body + [step], more, proof, step.pod);
  }

  lemma StaysFinished(body: seq<Event>, rest: seq<Event>, n: nat)
    requires n < |body| && IsStep(body[n]) && FinishedAt(body, n)
    ensures FinishedAt(body + rest, n)
  {
    var now := body + rest;
    var m :| n < m < |body| && body[m] == Finished(body[n].pod) && Steps(body[..m]) == Steps(body[..n + 1]);
    assert now[m] == body[m] && now[..m] == body[..m] && now[..n + 1] == body[..n + 1];
  }

  lemma StepIsFinished(body: seq<Event>, step: Event, more: seq<Event>)
    requires IsStep(step) && forall k :: 0 <= k < |more| ==> UnderFence(more[k], step.pod)
    requires Finished(step.pod) in more
    ensures FinishedAt(body + [step] + more, |body|)
  {
    var now := body + [step] + more;
    var k :| 0 <= k < |more| && more[k] == Finished(step.pod);
    StepsSoFar(body, step, more, k);
    StepsSoFar(body, step, more, 0);
    assert now[|body|] == step && now[|body| + 1 + k] == more[k];
  }

  lemma EarlierStaySeen(body: seq<Event>, step: Event, more: seq<Event>, n: nat)
    requires SeenThrough(body) && n < |body|
    ensures var now := body + [step] + more; IsStep(now[n]) ==> FinishedAt(now, n)
  {
    var rest := [step] + more;
    assert body + [step] + more == body + rest;
    assert (body + rest)[n] == body[n];
    if IsStep(body[n]) { StaysFinished(body, rest, n); }
  }

  lemma HelpersAreNoSteps(body: seq<Event>, step: Event, more: seq<Event>, n: nat)
    requires IsStep(step) && forall k :: 0 <= k < |more| ==> UnderFence(more[k], step.pod)
    requires |body| < n < |body| + 1 + |more|
    ensures !IsStep((body + [step] + more)[n])
  {
    assert (body + [step] + more)[n] == more[n - |body| - 1];
    assert UnderFence(more[n - |body| - 1], step.pod);
  }

  lemma SeenThroughAt(body: seq<Event>, step: Event, more: seq<Event>, n: nat)
    requires IsStep(step) && forall k :: 0 <= k < |more| ==> UnderFence(more[k], step.pod)
    requires SeenThrough(body) && Finished(step.pod) in more && n < |body| + 1 + |more|
    ensures var now := body + [step] + more; IsStep(now[n]) ==> FinishedAt(now, n)
  {
    if n < |body| {
      EarlierStaySeen(body, step, more, n);
    } else if n == |body| {
      StepIsFinished(body, step, more);
    } else {
      HelpersAreNoSteps(body, step, more, n);
    }
  }

  lemma OneStepSeenThrough(body: seq<Event>, step: Event, more: seq<Event>)
    requires IsStep(step) && forall k :: 0 <= k < |more| ==> UnderFence(more[k], step.pod)
    requires SeenThrough(body) && Finished(step.pod) in more
    ensures SeenThrough(body + [step] + more)
  {
    var now := body + [step] + more;
    forall n | 0 <= n < |now| && IsStep(now[n]) ensures FinishedAt(now, n) {
      SeenThroughAt(body, step, more, n);
    }
  }

  lemma JobOnRecord(start: seq<Event>, before: seq<Event>, step: Event, now: seq<Event>) returns (more: seq<Event>)
    requires start <= before && IsStep(step) && WorkedFenced(before + [step], now, step.pod)
    ensures start <= now && Since(start, now) == Since(start, before) + [step] + more
    ensures forall n :: 0 <= n < |more| ==> UnderFence(more[n], step.pod)
    ensures FinishedSince(before + [step], now, step.pod) ==> Finished(step.pod) in more
  {
    more := now[|before| + 1..];
    assert now == before + [step] + more && before == start + Since(start, before);
    forall n | 0 <= n < |more| ensures UnderFence(more[n], step.pod) {
      assert more[n] == now[|before| + 1 + n];
    }
    if FinishedSince(before + [step], now, step.pod) {
      var n :| |before + [step]| <= n < |now| && now[n] == Finished(step.pod);
      assert more[n - |before| - 1] == now[n];
    }
  }

  /** The same on the record: a step was put down at `before` and its job ran. */
  lemma JobExtends(start: seq<Event>, before: seq<Event>, step: Event, now: seq<Event>, proof: Proof)
    requires start <= before && IsStep(step) && WorkedFenced(before + [step], now, step.pod)
    requires Extends(Since(start, before), step, [], proof)
    ensures start <= now && Breaking(Since(start, now), proof)
    ensures Steps(Since(start, now)) == Steps(Since(start, before)) + StepOf(step)
    ensures SeenThrough(Since(start, before)) && FinishedSince(before + [step], now, step.pod) ==>
              SeenThrough(Since(start, now))
  {
    var body := Since(start, before);
    var more := JobOnRecord(start, before, step, now);
    OneStepMore(body, step, more, proof);
    if SeenThrough(body) && Finished(step.pod) in more { OneStepSeenThrough(body, step, more); }
  }

  lemma OffThen(a: seq<Event>, b: seq<Event>, c: seq<Event>)
    requires OffThroughout(a, b) && OffThroughout(b, c)
    ensures OffThroughout(a, c)
  {
    assert forall n :: 0 <= n < |b| ==> c[n] == b[n];
  }

  /** Since `start` the record holds the first k steps of the plan, each authorized, seen through
      and worked on with reconciliation off. */
  ghost predicate Through(start: seq<Event>, now: seq<Event>, proof: Proof, k: nat) {
    && start <= now && k <= |Plan(proof)| && Steps(Since(start, now)) == Plan(proof)[..k]
    && Breaking(Since(start, now), proof) && SeenThrough(Since(start, now)) && OffThroughout(start, now)
  }

  /** The first k disposable instances may all be cleared. */
  predicate MayClearFirst(proof: Proof, k: nat) {
    k <= |proof.disposable| && forall j :: 0 <= j < k ==> MayClear(proof, proof.disposable[j])
  }

  /** The record holds a beginning of the plan. */
  ghost predicate Underway(start: seq<Event>, now: seq<Event>, proof: Proof) {
    start <= now && Breaking(Since(start, now), proof)
  }

  lemma NothingDone(start: seq<Event>, proof: Proof)
    ensures Through(start, start, proof, 0)
  {}

  /** The job of the k-th step ran. */
  lemma JobDone(start: seq<Event>, before: seq<Event>, step: Event, now: seq<Event>, proof: Proof, k: nat)
    requires Through(start, before, proof, k) && k < |Plan(proof)|
    requires IsStep(step) && StepOf(step) == [Plan(proof)[k]] && MayClear(proof, step.pod)
    requires step.Rebuild? ==> step.pod != step.livePrimary
    requires WorkedFenced(before + [step], now, step.pod)
    ensures Underway(start, now, proof)
    ensures OffThroughout(before, now) ==> OffThroughout(start, now)
    ensures OffThroughout(before, now) && FinishedSince(before + [step], now, step.pod) ==>
              Through(start, now, proof, k + 1)
  {
    assert Plan(proof)[..k] + StepOf(step) == Plan(proof)[..k + 1];
    JobExtends(start, before, step, now, proof);
    if OffThroughout(before, now) { OffThen(start, before, now); }
  }

  lemma ClearDone(start: seq<Event>, before: seq<Event>, now: seq<Event>, proof: Proof, i: nat)
    requires i < |proof.disposable| && Through(start, before, proof, i) && MayClear(proof, proof.disposable[i])
    requires WorkedFenced(before + [Clear(proof.disposable[i])], now, proof.disposable[i])
    ensures Underway(start, now, proof)
    ensures OffThroughout(before, now) ==> OffThroughout(start, now)
    ensures OffThroughout(before, now) &&
            FinishedSince(before + [Clear(proof.disposable[i])], now, proof.disposable[i]) ==>
              Through(start, now, proof, i + 1)
  {
    JobDone(start, before, Clear(proof.disposable[i]), now, proof, i);
  }

  lemma RebuildDone(start: seq<Event>, before: seq<Event>, step: Event, now: seq<Event>, proof: Proof, i: nat)
    requires i < |proof.disposable| && Through(start, before, proof, |proof.disposable| + i)
    requires step.Rebuild? && step.pod == proof.disposable[i] != step.livePrimary && MayClear(proof, step.pod)
    requires WorkedFenced(before + [step], now, step.pod)
    ensures Underway(start, now, proof)
    ensures OffThroughout(before, now) ==> OffThroughout(start, now)
    ensures OffThroughout(before, now) && FinishedSince(before + [step], now, step.pod) ==>
              Through(start, now, proof, |proof.disposable| + i + 1)
  {
    JobDone(start, before, step, now, proof, |proof.disposable| + i);
  }

  // ----- the whole script -----

  lemma OpeningFollows(before: seq<Event>, now: seq<Event>, rec: Recovery, pvcs: seq<string>, proof: Proof)
    requires proof.authority == rec.authority && proof.disposable == rec.disposable && Covers(pvcs, rec.recoverySet)
    requires before <= now <= before + Opening(pvcs, proof)
    ensures Follows(before, now, rec, pvcs, proof)
  {
    assert now[|before|..] <= Opening(pvcs, proof);
  }

  lemma BodyFollows(before: seq<Event>, now: seq<Event>, rec: Recovery, pvcs: seq<string>, proof: Proof)
    requires proof.authority == rec.authority && proof.disposable == rec.disposable && Covers(pvcs, rec.recoverySet)
    requires before + Opening(pvcs, proof) <= now && Breaking(Since(before + Opening(pvcs, proof), now), proof)
    ensures Follows(before, now, rec, pvcs, proof)
    ensures var body := Since(before + Opening(pvcs, proof), now);
            Steps(body) == Plan(proof) && SeenThrough(body) ==> Complete(before, now, pvcs, proof)
    ensures OffThroughout(before + Opening(pvcs, proof), now) ==> OffThroughout(before, now)
  {
    var mid := before + Opening(pvcs, proof);
    assert OffThroughout(before, mid);
    if OffThroughout(mid, now) { OffThen(before, mid, now); }
    assert now[|before|..] == Opening(pvcs, proof) + now[|mid|..];
    assert Since(before, now)[3..] == Since(mid, now) && Since(before, now)[..3] == Opening(pvcs, proof);
  }

  /** The pod a step or a helper's doing is about. */
  function Subject(e: Event): Option<string> {
    match e
    case Clear(pod) => Some(pod)
    case Rebuild(pod, _, _) => Some(pod)
    case Work(target, _, _, _) => Some(target)
    case Finished(target) => Some(target)
    case _ => None
  }

  /** The latest step of a record is one of its events. */
  lemma {:induction false} LatestStep(body: seq<Event>) returns (m: nat)
    requires Steps(body) != []
    ensures m < |body| && IsStep(body[m]) && body[m].pod == Steps(body)[|Steps(body)| - 1].pod
  {
    if IsStep(body[|body| - 1]) {
      m := |body| - 1;
    } else {
      m := LatestStep(body[..|body| - 1]);
    }
  }

  /** An event about a pod lies in the body, past the opening. */
  lemma PastTheOpening(before: seq<Event>, now: seq<Event>, rec: Recovery, pvcs: seq<string>, proof: Proof, n: nat)
    returns (body: seq<Event>)
    requires Follows(before, now, rec, pvcs, proof)
    requires |before| <= n < |now| && Subject(now[n]).Some?
    ensures |before| + 3 <= n && now == before + Opening(pvcs, proof) + body && Breaking(body, proof)
  {
    var added, i := Since(before, now), n - |before|;
    assert now[n] == added[i];
    assert forall j :: 0 <= j < 3 ==> Subject(Opening(pvcs, proof)[j]) == None;
    var head := if |added| <= 3 then added else added[..3];
    assert head <= Opening(pvcs, proof);
    assert forall j :: 0 <= j < |head| ==> head[j] == added[j];
    body := added[3..];
    assert added == Opening(pvcs, proof) + body;
  }

  /** Every event of the body is about a pod the proof allows, and the step naming it came first. */
  lemma BodyIsAllowed(body: seq<Event>, proof: Proof, i: nat) returns (m: nat)
    requires Breaking(body, proof) && i < |body|
    ensures Subject(body[i]).Some? && MayClear(proof, Subject(body[i]).value)
    ensures body[i].Rebuild? ==> body[i].pod != body[i].livePrimary
    ensures IsEffect(body[i]) ==> UnderFence(body[i], Subject(body[i]).value)
    ensures m <= i && IsStep(body[m]) && body[m].pod == Subject(body[i]).value
  {
    assert Authorized(body, i, proof);
    if IsStep(body[i]) {
      m := i;
    } else {
      m := LatestStep(body[..i]);
    }
  }

  /** The event is about a disposable pod held by the escrow, never the authority or the live
      primary, after the step that names it; a helper's doing happens under the pod's fence. */
  ghost predicate Escrowed(now: seq<Event>, n: nat, from: nat, rec: Recovery, pvcs: seq<string>, proof: Proof)
    requires n < |now| && Subject(now[n]).Some?
  {
    var p := Subject(now[n]).value;
    && p in pvcs && p in proof.disposable && p in rec.disposable && p != rec.authority
    && (now[n].Rebuild? ==> p != now[n].livePrimary)
    && (IsEffect(now[n]) ==> UnderFence(now[n], p))
    && exists m :: from <= m <= n && IsStep(now[m]) && now[m].pod == p
  }

  lemma BodyIsEscrowed(start: seq<Event>, body: seq<Event>, rec: Recovery, pvcs: seq<string>, proof: Proof, i: nat)
    requires proof.authority == rec.authority && proof.disposable == rec.disposable && Covers(pvcs, rec.recoverySet)
    requires forall p :: p in rec.disposable ==> p in rec.recoverySet
    requires Breaking(body, proof) && i < |body|
    ensures Subject(body[i]).Some? && Escrowed(start + body, |start| + i, |start|, rec, pvcs, proof)
  {
    var now := start + body;
    var m := BodyIsAllowed(body, proof, i);
    var p := Subject(body[i]).value;
    assert now[|start| + i] == body[i] && now[|start| + m] == body[m];
    assert p in rec.recoverySet;
  }

  /** No data directory is cleared, rebuilt or worked on by any helper before an escrow holding its
      volume was verified and the proof naming it was persisted, and never the authority's. */
  lemma NothingIsClearedUnescrowed(before: seq<Event>, now: seq<Event>, rec: Recovery, pvcs: seq<string>, proof: Proof,
                                   n: nat)
    requires forall p :: p in rec.disposable ==> p in rec.recoverySet
    requires Follows(before, now, rec, pvcs, proof)
    requires |before| <= n < |now| && Subject(now[n]).Some?
    ensures |before| + 3 <= n && now[|before| + 1] == Verified(pvcs) && now[|before| + 2] == Persisted(proof)
    ensures Escrowed(now, n, |before| + 3, rec, pvcs, proof)
  {
    var body := PastTheOpening(before, now, rec, pvcs, proof, n);
    var start := before + Opening(pvcs, proof);
    BodyIsEscrowed(start, body, rec, pvcs, proof, n - |start|);
    assert start[|before| + 1] == Verified(pvcs) && start[|before| + 2] == Persisted(proof);
  }
}
