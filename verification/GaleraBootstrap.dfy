// The destructive bootstrap of a fully stopped Galera cluster and its rollback, where every
// call may fail, before or after taking effect.
module GaleraBootstrap {
  import opened Options
  import opened Faults
  import opened GaleraTriage
  import opened GaleraCandidate

  /** What a bootstrap changes: the custom resource, the StatefulSet, the grastate marks, and
      the cluster pods there happen to be. */
  datatype Galera = Galera(
    suspended: bool,
    lock: Option<string>,
    replicas: int,
    marked: set<string>,
    force: Option<string>,
    pods: set<string>)

  function Core(s: Galera): Galera {
    s.(pods := {})
  }

  /** Nothing can start a cluster pod. */
  predicate HeldDown(s: Galera) {
    s.suspended && s.replicas == 0
  }

  datatype Event =
    | Recover(pod: string, podsThen: set<string>)
    | Mark(pod: string) | Unmark(pod: string)
    | Patch(pod: string) | Unpatch
    | ScaleTo(replicas: int)
    | Unlock
    | Resume

  datatype Stage =
    | EscrowRefused | SuspendFailed | LockFailed | ScaleDownFailed | PodsRemain | NoCandidate
    | SplitBrain | CandidateUnknown | MarkFailed | PatchFailed | ScaleUpFailed

  const RETRIES: int := 5

  /** How often the cluster pods are listed, five seconds apart. */
  function Looks(timeout: int): nat {
    if timeout <= 0 then 60 else timeout / 5
  }

  class World {
    const fate: nat -> Fate
    /** The pods that would exist at the n-th call if nothing held them down. */
    const drift: nat -> set<string>
    /** What a fenced wsrep_recover of a pod reads. */
    const position: string -> WsrepRecover
    var calls: nat
    var s: Galera
    ghost var events: seq<Event>

    constructor (fate: nat -> Fate, drift: nat -> set<string>, position: string -> WsrepRecover, s: Galera)
      ensures this.fate == fate && this.drift == drift && this.position == position
      ensures this.s == s && calls == 0 && events == []
    {
      this.fate, this.drift, this.position, this.s := fate, drift, position, s;
      calls, events := 0, [];
    }

    ghost predicate NothingFails() {
      forall n :: fate(n) == Done
    }

    /** What the n-th call finds: meanwhile pods come and go, but a suspended cluster scaled to zero
        gets no new ones. */
    function After(s: Galera, n: nat): Galera {
      s.(pods := if HeldDown(s) then s.pods * drift(n) else drift(n))
    }

    /** One call. */
    method Call() returns (f: Fate)
      modifies this`calls, this`s
      ensures calls == old(calls) + 1 && f == fate(old(calls))
      ensures s == After(old(s), old(calls))
      ensures HeldDown(old(s)) ==> s.pods <= old(s).pods
    {
      f := fate(calls);
      s := After(s, calls);
      calls := calls + 1;
    }

    method SetSuspend(on: bool) returns (f: Fate)
      modifies this
      ensures calls == old(calls) + 1 && f == fate(old(calls))
      ensures Core(s) == Core(if f == Failed then old(s) else old(s).(suspended := on))
      ensures f != Failed ==> s == After(old(s), old(calls)).(suspended := on)
      ensures events == if !on && f != Failed then old(events) + [Resume] else old(events)
    {
      f := Call();
      if f != Failed {
        s := s.(suspended := on);
        if !on { events := events + [Resume]; }
      }
    }

    method SetLock(holder: Option<string>) returns (f: Fate)
      modifies this
      ensures calls == old(calls) + 1 && f == fate(old(calls))
      ensures Core(s) == Core(if f == Failed then old(s) else old(s).(lock := holder))
      ensures f != Failed ==> s == After(old(s), old(calls)).(lock := holder)
      ensures HeldDown(old(s)) ==> s.pods <= old(s).pods
      ensures events == if holder.None? && f != Failed then old(events) + [Unlock] else old(events)
    {
      f := Call();
      if f != Failed {
        s := s.(lock := holder);
        if holder.None? { events := events + [Unlock]; }
      }
    }

    method Scale(replicas: int) returns (f: Fate)
      modifies this
      ensures calls == old(calls) + 1 && f == fate(old(calls))
      ensures Core(s) == Core(if f == Failed then old(s) else old(s).(replicas := replicas))
      ensures f != Failed ==> s == After(old(s), old(calls)).(replicas := replicas)
      ensures events == if replicas != 0 && f != Failed then old(events) + [ScaleTo(replicas)] else old(events)
    {
      f := Call();
      if f != Failed {
        s := s.(replicas := replicas);
        if replicas != 0 { events := events + [ScaleTo(replicas)]; }
      }
    }

    /** A helper pod sets or clears safe_to_bootstrap in a pod's grastate. */
    method SetMark(pod: string, on: bool) returns (f: Fate)
      modifies this
      ensures calls == old(calls) + 1 && f == fate(old(calls))
      ensures Core(s) ==
              Core(if f == Failed then old(s)
                else old(s).(marked := if on then old(s).marked + {pod} else old(s).marked - {pod}))
      ensures HeldDown(old(s)) ==> s.pods <= old(s).pods
      ensures events == if f == Failed then old(events) else old(events) + [if on then Mark(pod) else Unmark(pod)]
    {
      f := Call();
      if f != Failed {
        s := s.(marked := if on then s.marked + {pod} else s.marked - {pod});
        events := events + [if on then Mark(pod) else Unmark(pod)];
      }
    }

    method SetForce(pod: Option<string>) returns (f: Fate)
      modifies this
      ensures calls == old(calls) + 1 && f == fate(old(calls))
      ensures Core(s) == Core(if f == Failed then old(s) else old(s).(force := pod))
      ensures HeldDown(old(s)) ==> s.pods <= old(s).pods
      ensures events == if f == Failed then old(events)
                else old(events) + [if pod.Some? then Patch(pod.value) else Unpatch]
    {
      f := Call();
      if f != Failed {
        s := s.(force := pod);
        events := events + [if pod.Some? then Patch(pod.value) else Unpatch];
      }
    }

    /** The cluster after k more calls that change nothing themselves. */
    ghost function Idle(s: Galera, from: nat, k: nat): Galera {
      if k == 0 then s else After(Idle(s, from, k - 1), from + k - 1)
    }

    /** One of the lists made from that call on was answered and showed no pod. */
    ghost predicate Emptied(s: Galera, from: nat, timeout: int) {
      exists i :: 0 <= i < Looks(timeout) && FoundEmpty(s, from, i)
    }

    ghost predicate FoundEmpty(s: Galera, from: nat, i: nat) {
      fate(from + i) == Done && Idle(s, from, i + 1).pods == {}
    }

    /** Poll until a list of the cluster pods comes back empty: it reports the pods gone exactly when
        some list in the window did. */
    method WaitPodsTerminated(timeout: int) returns (gone: bool)
      modifies this`calls, this`s
      ensures s == old(s).(pods := s.pods) && calls > old(calls)
      ensures gone <==> Emptied(old(s), old(calls), timeout)
      ensures if gone then s.pods == {} && fate(calls - 1) == Done else calls == old(calls) + Looks(timeout) + 1
    {
      for i := 0 to if timeout <= 0 then 60 else timeout / 5
        invariant s == old(s).(pods := s.pods) && s == Idle(old(s), old(calls), i) && calls == old(calls) + i
        invariant forall j :: 0 <= j < i ==> !FoundEmpty(old(s), old(calls), j)
      {
        var list := Call();
        if list == Done && s.pods == {} {
          assert FoundEmpty(old(s), old(calls), i);
          return true;
        }
      }
      var _ := Call();   // count the remaining pods for the message
      gone := false;
    }

    method RunWsrepRecover(pod: string) returns (rr: Option<WsrepRecover>)
      modifies this
      ensures s == old(s).(pods := s.pods)
      ensures HeldDown(old(s)) ==> s.pods <= old(s).pods
      ensures events == old(events) + [Recover(pod, old(s).pods)] && calls == old(calls) + 1
      ensures rr == if fate(old(calls)) == Done then Some(position(pod)) else None
    {
      events := events + [Recover(pod, s.pods)];
      var f := Call();
      rr := if f == Done then Some(position(pod)) else None;
    }
  }

  /** Before the commit: a recover only with no cluster pod around, a mark or patch only of the
      candidate, an unmark only of another node, and nothing withdrawn, scaled up or resumed. */
  predicate Forwards(e: Event, candidate: string) {
    match e
    case Recover(_, podsThen) => podsThen == {}
    case Mark(p) => p == candidate
    case Patch(p) => p == candidate
    case Unmark(p) => p != candidate
    case _ => false
  }

  predicate OnTarget(e: Event, candidate: string) {
    match e
    case Recover(_, podsThen) => podsThen == {}
    case Mark(p) => p == candidate
    case Patch(p) => p == candidate
    case _ => true
  }

  predicate SetsAuthority(e: Event) {
    e.Mark? || e.Patch? || e.Unmark? || e.Unpatch?
  }

  predicate Revives(e: Event) {
    e.ScaleTo? || e.Resume?
  }

  /** Authority is not touched any more once the cluster is being revived. */
  ghost predicate AuthorityFirst(events: seq<Event>, from: nat) {
    forall i, j :: from <= i < j < |events| && Revives(events[i]) ==> !SetsAuthority(events[j])
  }

  lemma RollbackTrail(before: seq<Event>, undone: seq<Event>, revived: seq<Event>, from: nat, candidate: string,
                      replicas: int)
    requires from <= |before|
    requires forall i :: from <= i < |before| ==> OnTarget(before[i], candidate)
    requires forall e :: e in undone ==> e in {Unpatch, Unmark(candidate), Unlock}
    requires forall e :: e in revived ==> e in {ScaleTo(replicas), Resume}
    ensures forall i :: from <= i < |before + undone + revived| ==> OnTarget((before + undone + revived)[i], candidate)
    ensures (forall i :: from <= i < |before| ==> !Revives(before[i])) ==>
              AuthorityFirst(before + undone + revived, from)
  {
    var all := before + undone + revived;
    forall i | |before| <= i < |before| + |undone| ensures all[i] in {Unpatch, Unmark(candidate), Unlock} {
      assert all[i] == undone[i - |before|] && undone[i - |before|] in undone;
    }
    forall i | |before| + |undone| <= i < |all| ensures all[i] in {ScaleTo(replicas), Resume} {
      assert all[i] == revived[i - |before| - |undone|] && revived[i - |before| - |undone|] in revived;
    }
    assert forall i :: 0 <= i < |before| ==> all[i] == before[i];
  }

  /** Why a run stopped before committing, and the last call before its rollback: the one that
      failed, at the stages where a call failed. */
  datatype Stop = Stop(stage: Stage, at: nat)

  predicate ByCall(stage: Stage) {
    || stage == SuspendFailed || stage == LockFailed || stage == ScaleDownFailed
    || stage == MarkFailed || stage == PatchFailed || stage == ScaleUpFailed
  }

  predicate ByChoice(stage: Stage) {
    stage == NoCandidate || stage == SplitBrain || stage == CandidateUnknown
  }

  /** How many calls the rollback makes. */
  function Undoings(stage: Stage): nat {
    match stage
    case EscrowRefused | SuspendFailed => 0
    case LockFailed => 1
    case ScaleDownFailed => 2
    case PatchFailed => 4
    case ScaleUpFailed => 5
    case _ => 3
  }

  /** What the recover of each node read: the nodes whose call, counted from `from`, was done. */
  ghost predicate AreReads(w: World, assessments: seq<Assessment>, from: nat, recovered: Recoveries) {
    && (forall p :: p in recovered ==> recovered[p] == w.position(p))
    && (forall p :: p in recovered <==>
          exists i :: 0 <= i < |assessments| && assessments[i].pod == p && w.fate(from + i) == Done)
  }

  /** The candidate is the one the recovered positions select, and nothing the leader was known to
      hold, and no second lineage of a belly-up cluster, was discarded unforced. */
  ghost predicate Chosen(assessments: seq<Assessment>, recovered: Recoveries, groups: seq<LineageGroup>,
                         original: string, candidate: string, bellyUp: bool, force: bool) {
    && IsGrouping(recovered, groups)
    && (groups == [] ==> candidate == original)
    && (groups != [] && !force ==> IsBestOf(recovered, groups[0].members, candidate))
    && (groups != [] && force ==> IsBestOf(recovered, AllAuthoritative(recovered), candidate))
    && (groups != [] && !force ==>
          Authoritative(recovered, original) || KnownSeqno(assessments, original) <= groups[0].maxSeqno)
    && (bellyUp && !force ==> |groups| <= 1)
    && exists i :: 0 <= i < |assessments| && assessments[i].pod == candidate
  }

  /** Why a selection was refused. */
  ghost predicate Refused(stage: Stage, assessments: seq<Assessment>, recovered: Recoveries, groups: seq<LineageGroup>,
                          original: string, bellyUp: bool, force: bool) {
    && IsGrouping(recovered, groups)
    && (stage == NoCandidate ==>
          groups != [] && !force && !Authoritative(recovered, original) &&
          KnownSeqno(assessments, original) > groups[0].maxSeqno)
    && (stage == SplitBrain ==> bellyUp && !force && |groups| > 1)
    && (stage == CandidateUnknown ==> groups == [] && forall i :: 0 <= i < |assessments| ==>
         assessments[i].pod != original)
  }

  /** When nothing speaks against a selection: without a readable position the original candidate is
      an assessed node; unforced, what it is known to hold is not discarded, and a belly-up cluster
      shows one lineage. */
  ghost predicate Selectable(assessments: seq<Assessment>, recovered: Recoveries, groups: seq<LineageGroup>,
                             original: string, bellyUp: bool, force: bool) {
    && IsGrouping(recovered, groups)
    && (groups == [] ==> exists i :: 0 <= i < |assessments| && assessments[i].pod == original)
    && (groups != [] && !force ==>
          Authoritative(recovered, original) || KnownSeqno(assessments, original) <= groups[0].maxSeqno)
    && (bellyUp && !force ==> |groups| <= 1)
  }

  /** Every node with a recovered position was assessed. */
  ghost predicate FromAssessed(assessments: seq<Assessment>, recovered: Recoveries) {
    forall p :: p in recovered ==> exists i :: 0 <= i < |assessments| && assessments[i].pod == p
  }

  method Settle(original: string, assessments: seq<Assessment>, recovered: Recoveries, bellyUp: bool, force: bool)
    returns (stage: Option<Stage>, candidate: string, ghost groups: seq<LineageGroup>)
    requires "" !in recovered && FromAssessed(assessments, recovered)
    ensures stage == None ==> Chosen(assessments, recovered, groups, original, candidate, bellyUp, force)
    ensures stage.Some? ==>
              && ByChoice(stage.value)
              && Refused(stage.value, assessments, recovered, groups, original, bellyUp, force)
  {
    var selected, lineages := SelectCandidate(original, assessments, recovered, force);
    groups := lineages;
    if selected.None? { return Some(NoCandidate), "", groups; }
    candidate := selected.value;
    if bellyUp && !force && |lineages| > 1 { return Some(SplitBrain), candidate, groups; }
    for i := 0 to |assessments|
      invariant forall j :: 0 <= j < i ==> assessments[j].pod != candidate
    {
      if assessments[i].pod == candidate { return None, candidate, groups; }
    }
    stage := Some(CandidateUnknown);
  }

  /** The captured variables of one run; `start` is the cluster before it. */
  class Bootstrap {
    const w: World
    const originalReplicas: int
    const holder: string
    ghost const start: Galera
    ghost const begin: nat
    var candidate: string
    var suspended: bool
    var scaledDown: bool
    var genLocked: bool
    var safeBootMarked: bool
    var forcePatched: bool

    constructor (w: World, originalReplicas: int, candidate: string)
      requires originalReplicas != 0
      ensures this.w == w && this.originalReplicas == originalReplicas != 0 && this.candidate == holder == candidate
      ensures start == w.s && begin == |w.events|
      ensures !suspended && !scaledDown && !genLocked && !safeBootMarked && !forcePatched
    {
      this.w, this.originalReplicas, this.candidate, this.holder, start, begin :=
        w, originalReplicas, candidate, candidate, w.s, |w.events|;
      suspended, scaledDown, genLocked, safeBootMarked, forcePatched := false, false, false, false, false;
    }

    // ----- what is known while the run goes on -----

    /** The call that failed took effect after all. */
    ghost predicate Took(stop: Stop) {
      ByCall(stop.stage) && w.fate(stop.at) == LostReply
    }

    ghost predicate Lost(stop: Option<Stop>, stage: Stage) {
      stop.Some? && Took(stop.value) && stop.value.stage == stage
    }

    /** The flags tell what this run did to the cluster, but for a call that failed and yet
        took effect. */
    ghost predicate Tracks(stop: Option<Stop>)
      reads this, w
    {
      && w.s.suspended == (suspended || Lost(stop, SuspendFailed) || start.suspended)
      && w.s.lock == (if genLocked || Lost(stop, LockFailed) then Some(holder) else start.lock)
      && w.s.replicas == (if Lost(stop, ScaleUpFailed) then originalReplicas
                          else if scaledDown || Lost(stop, ScaleDownFailed) then 0 else start.replicas)
      && w.s.force == (if forcePatched || Lost(stop, PatchFailed) then Some(candidate) else start.force)
      && w.s.marked <= start.marked + {candidate}
      && (candidate in w.s.marked <==> safeBootMarked || Lost(stop, MarkFailed) || candidate in start.marked)
    }

    /** The run stopped at its last call, which failed if the stage says so, with the flags of the
        steps before it. */
    ghost predicate StoppedAt(stop: Stop)
      reads this, w
    {
      && w.calls == stop.at + 1 && (ByCall(stop.stage) ==> w.fate(stop.at) != Done)
      && stop.stage != EscrowRefused
      && (suspended <==> Undoings(stop.stage) >= 1) && (genLocked <==> Undoings(stop.stage) >= 2)
      && (scaledDown <==> Undoings(stop.stage) >= 3) && (safeBootMarked <==> Undoings(stop.stage) >= 4)
      && (forcePatched <==> Undoings(stop.stage) >= 5)
    }

    ghost predicate Forward()
      reads this, w
    {
      && begin <= |w.events|
      && forall i :: begin <= i < |w.events| ==> Forwards(w.events[i], candidate)
    }

    ghost predicate OnlyRecovers()
      reads this, w
    {
      begin <= |w.events| && forall i :: begin <= i < |w.events| ==> w.events[i].Recover? && w.events[i].podsThen == {}
    }

    /** The cluster is held down with nothing of ours on it yet. */
    ghost predicate Fenced()
      reads this, w
    {
      && suspended && scaledDown && genLocked && !safeBootMarked && !forcePatched
      && HeldDown(w.s) && w.s.pods == {} && w.calls > 0
    }

    /** Nothing has been done yet. */
    ghost predicate Fresh()
      reads this, w
    {
      && !suspended && !scaledDown && !genLocked && !safeBootMarked && !forcePatched
      && w.s == start && |w.events| == begin && candidate == holder && originalReplicas != 0
    }

    // ----- the steps -----

    /** The cluster after the first two calls, and after the next two. */
    ghost function Locked(c: nat): Galera {
      w.After(w.After(start, c).(suspended := true), c + 1).(lock := Some(holder))
    }

    ghost function Sealed(c: nat): Galera {
      w.After(Locked(c), c + 2).(replicas := 0)
    }

    /** The pods were seen gone in time, by a run that made its first call at c. */
    ghost predicate GoneInTime(c: nat, timeout: int) {
      w.Emptied(w.After(Sealed(c), c + 3), c + 4, timeout)
    }

    /** Steps 1 and 2: suspend and lock. */
    method Seal() returns (stop: Option<Stop>)
      requires Fresh()
      modifies this`suspended, this`genLocked, w
      ensures Tracks(stop) && w.events == old(w.events) && w.s.marked == start.marked
      ensures stop == None ==> suspended && genLocked && w.s == Locked(old(w.calls)) && w.calls == old(w.calls) + 2
      ensures stop.Some? ==> StoppedAt(stop.value) && Undoings(stop.value.stage) <= 1 && ByCall(stop.value.stage)
      ensures var c := old(w.calls);
              if w.fate(c) != Done then stop == Some(Stop(SuspendFailed, c))
              else if w.fate(c + 1) != Done then stop == Some(Stop(LockFailed, c + 1))
              else stop == None
    {
      var f := w.SetSuspend(true);
      if f != Done { return Some(Stop(SuspendFailed, w.calls - 1)); }
      suspended := true;
      f := w.SetLock(Some(holder));
      if f != Done { return Some(Stop(LockFailed, w.calls - 1)); }
      genLocked := true;
      stop := None;
    }

    /** Step 3: scale to zero. */
    method SealOff() returns (stop: Option<Stop>)
      requires Fresh()
      modifies this`suspended, this`genLocked, this`scaledDown, w
      ensures Tracks(stop) && w.events == old(w.events) && w.s.marked == start.marked
      ensures stop == None ==> suspended && scaledDown && genLocked && w.calls == old(w.calls) + 3
      ensures stop == None ==> HeldDown(w.s) && w.s == Sealed(old(w.calls))
      ensures stop.Some? ==> StoppedAt(stop.value)
      ensures stop.Some? ==> Undoings(stop.value.stage) <= 2 && ByCall(stop.value.stage)
      ensures SealStop(old(w.calls), stop)
    {
      stop := Seal();
      if stop.Some? { return; }
      var f := w.Scale(0);
      if f != Done { return Some(Stop(ScaleDownFailed, w.calls - 1)); }
      scaledDown := true;
    }

    method Drain(timeout: int) returns (gone: bool)
      modifies w`calls, w`s
      ensures w.s == old(w.s).(pods := w.s.pods) && w.calls > old(w.calls)
      ensures gone <==> w.Emptied(w.After(old(w.s), old(w.calls)), old(w.calls) + 1, timeout)
      ensures if gone then w.s.pods == {} else w.calls == old(w.calls) + 2 + Looks(timeout)
    {
      var _ := w.Call();   // delete leftover recovery pods, best effort
      gone := w.WaitPodsTerminated(timeout);
    }

    /** And wait until every pod is gone. */
    method Fence(timeout: int) returns (stop: Option<Stop>)
      requires Fresh()
      modifies this`suspended, this`genLocked, this`scaledDown, w
      ensures Tracks(stop) && w.events == old(w.events)
      ensures stop == None ==> Fenced() && w.s.marked == start.marked
      ensures stop.Some? ==> StoppedAt(stop.value)
      ensures stop.Some? ==> ByCall(stop.value.stage) || stop.value.stage == PodsRemain
      ensures FirstStop(old(w.calls), timeout, stop)
    {
      stop := SealOff();
      if stop.Some? { return; }
      var gone := Drain(timeout);
      if !gone { return Some(Stop(PodsRemain, w.calls - 1)); }
    }

    /** The first three calls decide the first three stages. */
    ghost predicate SealStop(c: nat, stop: Option<Stop>) {
      if w.fate(c) != Done then stop == Some(Stop(SuspendFailed, c))
      else if w.fate(c + 1) != Done then stop == Some(Stop(LockFailed, c + 1))
      else if w.fate(c + 2) != Done then stop == Some(Stop(ScaleDownFailed, c + 2))
      else stop.Some? ==> Undoings(stop.value.stage) > 2
    }

    /** And the lists of the window after them the fourth. */
    ghost predicate FirstStop(c: nat, timeout: int, stop: Option<Stop>) {
      && SealStop(c, stop)
      && (stop.Some? && stop.value.stage == PodsRemain <==>
            && w.fate(c) == Done && w.fate(c + 1) == Done && w.fate(c + 2) == Done && !GoneInTime(c, timeout))
      && (stop.Some? && stop.value.stage == PodsRemain ==> stop.value.at == c + 4 + Looks(timeout))
    }

    method RecoverOne(pod: string) returns (rr: Option<WsrepRecover>)
      requires Fenced() && Tracks(None) && w.s.marked == start.marked && OnlyRecovers()
      modifies w
      ensures Fenced() && Tracks(None) && w.s.marked == start.marked && OnlyRecovers()
      ensures w.calls == old(w.calls) + 1
      ensures rr == if w.fate(old(w.calls)) == Done then Some(w.position(pod)) else None
    {
      rr := w.RunWsrepRecover(pod);
    }

    /** Step 4: wsrep_recover on every volume; a failed recover leaves its node out. */
    method RecoverAll(assessments: seq<Assessment>) returns (recovered: Recoveries)
      requires Fenced() && Tracks(None) && w.s.marked == start.marked && |w.events| == begin
      requires forall i :: 0 <= i < |assessments| ==> assessments[i].pod != ""
      modifies w
      ensures Fenced() && Tracks(None) && w.s.marked == start.marked && OnlyRecovers()
      ensures w.calls == old(w.calls) + |assessments|
      ensures AreReads(w, assessments, old(w.calls), recovered) && "" !in recovered
    {
      recovered := map[];
      ghost var from := w.calls;
      for i := 0 to |assessments|
        invariant Fenced() && Tracks(None) && w.s.marked == start.marked && OnlyRecovers() && w.calls == from + i
        invariant AreReads(w, assessments[..i], from, recovered) && "" !in recovered
      {
        var rr := RecoverOne(assessments[i].pod);
        OneMoreRead(w, assessments, from, recovered, i);
        if rr.Some? {
          recovered := recovered[assessments[i].pod := rr.value];
        }
      }
      assert assessments[..|assessments|] == assessments;
    }

    /** Steps 4 and 4.5: choose the candidate by the recovered positions, or refuse. */
    method Nominate(bellyUp: bool, force: bool, assessments: seq<Assessment>, recovered: Recoveries)
      returns (stop: Option<Stop>, ghost groups: seq<LineageGroup>)
      requires Fenced() && Tracks(None) && w.s.marked == start.marked && OnlyRecovers()
      requires "" !in recovered && FromAssessed(assessments, recovered)
      modifies this`candidate
      ensures Fenced() && Tracks(None) && Forward()
      ensures stop == None ==> Chosen(assessments, recovered, groups, holder, candidate, bellyUp, force)
      ensures stop.Some? ==> ByChoice(stop.value.stage) && StoppedAt(stop.value)
      ensures stop.Some? ==>
                Refused(stop.value.stage, assessments, recovered, groups, holder, bellyUp, force)
    {
      var stage;
      stage, candidate, groups := Settle(holder, assessments, recovered, bellyUp, force);
      stop := if stage == None then None else Some(Stop(stage.value, w.calls - 1));
    }

    method Choose(bellyUp: bool, force: bool, assessments: seq<Assessment>)
      returns (stop: Option<Stop>, ghost recovered: Recoveries, ghost groups: seq<LineageGroup>)
      requires Fenced() && Tracks(None) && w.s.marked == start.marked && |w.events| == begin
      requires forall i :: 0 <= i < |assessments| ==> assessments[i].pod != ""
      modifies this`candidate, w
      ensures Fenced() && Tracks(None) && w.s.marked == start.marked && Forward()
      ensures AreReads(w, assessments, old(w.calls), recovered) && w.calls == old(w.calls) + |assessments|
      ensures stop == None ==> Chosen(assessments, recovered, groups, holder, candidate, bellyUp, force)
      ensures stop.Some? ==> ByChoice(stop.value.stage) && StoppedAt(stop.value)
      ensures stop.Some? ==>
                Refused(stop.value.stage, assessments, recovered, groups, holder, bellyUp, force)
    {
      var positions := RecoverAll(assessments);
      recovered := positions;
      stop, groups := Nominate(bellyUp, force, assessments, positions);
    }

    /** A mark triage saw on another node is gone. */
    ghost predicate StaleMarksGone(assessments: seq<Assessment>)
      reads this, w
    {
      forall i :: 0 <= i < |assessments| && assessments[i].safeToBootstrap && assessments[i].pod != candidate ==>
        assessments[i].pod !in w.s.marked
    }

    ghost predicate NoneFailed(from: nat, to: nat) {
      forall n :: from <= n < to ==> w.fate(n) != Failed
    }

    /** Step 5: clear stale marks on every other node, best effort. */
    method ClearStaleMarks(assessments: seq<Assessment>)
      requires Fenced() && Tracks(None) && Forward()
      modifies w
      ensures Fenced() && Tracks(None) && Forward() && w.calls >= old(w.calls)
      ensures NoneFailed(old(w.calls), w.calls) ==> StaleMarksGone(assessments)
    {
      ghost var from := w.calls;
      for i := 0 to |assessments|
        invariant Fenced() && Tracks(None) && Forward() && w.calls >= from
        invariant NoneFailed(from, w.calls) ==> StaleMarksGone(assessments[..i])
      {
        assert forall j :: 0 <= j < i ==> assessments[..i + 1][j] == assessments[..i][j];
        if assessments[i].pod == candidate { continue; }
        if assessments[i].safeToBootstrap {
          var _ := w.SetMark(assessments[i].pod, false);
        }
      }
      assert assessments[..|assessments|] == assessments;
    }

    /** The operator will now bootstrap the candidate, and only the candidate is marked by us. */
    ghost predicate Committed()
      reads this, w
    {
      && suspended && genLocked && safeBootMarked && forcePatched && !scaledDown
      && w.s.suspended && w.s.lock == Some(holder) && w.s.force == Some(candidate) && w.s.replicas == originalReplicas
      && candidate in w.s.marked && w.s.marked <= start.marked + {candidate}
      && ForwardThenScaled()
    }

    ghost predicate ForwardThenScaled()
      reads this, w
    {
      && |w.events| > begin && w.events[|w.events| - 1] == ScaleTo(originalReplicas)
      && forall i :: begin <= i < |w.events| - 1 ==> Forwards(w.events[i], candidate)
    }

    /** Up to the stop only forward steps were taken, and the scale-up if that one took effect. */
    ghost predicate StoppedForward(stop: Stop)
      reads this, w
    {
      if stop.stage == ScaleUpFailed && Took(stop) then ForwardThenScaled() else Forward()
    }

    /** Steps 6 and 7: mark the candidate and direct the operator to it. */
    method Direct() returns (stop: Option<Stop>)
      requires Fenced() && Tracks(None) && Forward()
      modifies this`safeBootMarked, this`forcePatched, w
      ensures Forward() && Tracks(stop) && w.calls > old(w.calls)
      ensures stop == None ==> suspended && genLocked && scaledDown && safeBootMarked && forcePatched
      ensures stop.Some? ==> stop.value.stage != ScaleUpFailed && ByCall(stop.value.stage) && StoppedAt(stop.value)
      ensures w.s.marked - {candidate} == old(w.s.marked) - {candidate}
    {
      var f := w.SetMark(candidate, true);
      if f != Done { return Some(Stop(MarkFailed, w.calls - 1)); }
      safeBootMarked := true;
      f := w.SetForce(Some(candidate));
      if f != Done { return Some(Stop(PatchFailed, w.calls - 1)); }
      forcePatched := true;
      stop := None;
    }

    /** Steps 6 to 8: mark the candidate, direct the operator to it, scale back up. */
    method ApplyAuthority() returns (stop: Option<Stop>)
      requires Fenced() && Tracks(None) && Forward() && originalReplicas != 0
      modifies this`safeBootMarked, this`forcePatched, this`scaledDown, w
      ensures w.calls > old(w.calls) && w.s.marked - {candidate} == old(w.s.marked) - {candidate}
      ensures stop.Some? ==> Tracks(stop) && StoppedAt(stop.value) && StoppedForward(stop.value)
      ensures stop.Some? ==> ByCall(stop.value.stage) && Undoings(stop.value.stage) >= 3
      ensures stop == None ==> Committed()
    {
      stop := Direct();
      if stop.Some? { return stop; }
      var _ := w.Call();   // delete leftover recovery pods, best effort
      var f := w.Scale(originalReplicas);
      if f != Done { return Some(Stop(ScaleUpFailed, w.calls - 1)); }
      scaledDown := false;
      stop := None;
    }

    /** The positions were read: the run committed, or stopped in between. */
    predicate Reached(stop: Option<Stop>) {
      stop == None || ByChoice(stop.value.stage)
    }

    /** How the candidate was chosen, or refused. */
    ghost predicate Decided(stop: Option<Stop>, from: nat, recovered: Recoveries, groups: seq<LineageGroup>,
                            assessments: seq<Assessment>, bellyUp: bool, force: bool)
      reads this
    {
      && (Reached(stop) ==> AreReads(w, assessments, from, recovered))
      && (stop == None ==> Chosen(assessments, recovered, groups, holder, candidate, bellyUp, force))
      && (Reached(stop) && stop.Some? ==>
            Refused(stop.value.stage, assessments, recovered, groups, holder, bellyUp, force))
    }

    /** Steps 5 to 8. */
    method Enthrone(assessments: seq<Assessment>) returns (stop: Option<Stop>)
      requires Fenced() && Tracks(None) && Forward() && originalReplicas != 0
      modifies this`safeBootMarked, this`forcePatched, this`scaledDown, w
      ensures stop.Some? ==> Tracks(stop) && StoppedAt(stop.value) && StoppedForward(stop.value)
      ensures stop.Some? ==> ByCall(stop.value.stage) && Undoings(stop.value.stage) >= 3
      ensures stop == None ==> Committed()
      ensures w.calls >= old(w.calls) &&
              (stop == None && NoneFailed(old(w.calls), w.calls) ==> StaleMarksGone(assessments))
    {
      ClearStaleMarks(assessments);
      ghost var marked := w.s.marked;
      stop := ApplyAuthority();
      assert forall p :: p != candidate ==> (p in w.s.marked <==> p in marked - {candidate});
    }

    /** Steps 4 to 8. */
    method Proceed(bellyUp: bool, force: bool, assessments: seq<Assessment>)
      returns (stop: Option<Stop>, ghost recovered: Recoveries, ghost groups: seq<LineageGroup>)
      requires Fenced() && Tracks(None) && w.s.marked == start.marked && |w.events| == begin && originalReplicas != 0
      requires forall i :: 0 <= i < |assessments| ==> assessments[i].pod != ""
      modifies this`candidate, this`safeBootMarked, this`forcePatched, this`scaledDown, w
      ensures stop.Some? ==> Tracks(stop) && StoppedAt(stop.value) && StoppedForward(stop.value)
      ensures stop.Some? ==> Undoings(stop.value.stage) >= 3 && stop.value.stage != PodsRemain
      ensures stop == None ==> Committed() && (NoneFailed(old(w.calls), w.calls) ==> StaleMarksGone(assessments))
      ensures Decided(stop, old(w.calls), recovered, groups, assessments, bellyUp, force)
    {
      stop, recovered, groups := Choose(bellyUp, force, assessments);
      if stop.Some? { return stop, recovered, groups; }
      stop := Enthrone(assessments);
    }

    /** Steps 1 to 8, without the rollback. */
    method Attempt(bellyUp: bool, force: bool, assessments: seq<Assessment>, timeout: int)
      returns (stop: Option<Stop>, ghost from: nat, ghost recovered: Recoveries, ghost groups: seq<LineageGroup>)
      requires Fresh()
      requires forall i :: 0 <= i < |assessments| ==> assessments[i].pod != ""
      modifies this, w
      ensures FirstStop(old(w.calls), timeout, stop)
      ensures stop.Some? ==> Tracks(stop) && StoppedAt(stop.value) && StoppedForward(stop.value)
      ensures stop == None ==> Committed() && (NoneFailed(from, w.calls) ==> StaleMarksGone(assessments))
      ensures Decided(stop, from, recovered, groups, assessments, bellyUp, force)
    {
      from, recovered, groups := 0, map[], [];
      stop := Fence(timeout);
      if stop.Some? { return stop, from, recovered, groups; }
      from := w.calls;
      stop, recovered, groups := Proceed(bellyUp, force, assessments);
    }

    // ----- the rollback -----

    /** One call for every flag that is up, in this order: unpatch, unmark, unlock, scale, resume. */
    method UndoAuthority() returns (ghost undone: seq<Event>)
      modifies w
      ensures var mark := old(w.calls) + (if forcePatched then 1 else 0);
              var lock := mark + (if safeBootMarked then 1 else 0);
              && w.calls == lock + (if genLocked then 1 else 0)
              && Core(w.s) == Core(old(w.s)).(
                   force := if forcePatched && w.fate(old(w.calls)) != Failed then None else old(w.s).force,
                   marked := if safeBootMarked && w.fate(mark) != Failed then old(w.s).marked - {candidate}
                             else old(w.s).marked,
                   lock := if genLocked && w.fate(lock) != Failed then None else old(w.s).lock)
      ensures w.events == old(w.events) + undone
      ensures forall e :: e in undone ==> e in {Unpatch, Unmark(candidate), Unlock}
    {
      ghost var events := w.events;
      undone := [];
      if forcePatched {
        var f := w.SetForce(None);
        if f != Failed { undone := undone + [Unpatch]; }
      }
      assert w.events == events + undone;
      if safeBootMarked {
        var f := w.SetMark(candidate, false);
        if f != Failed { undone := undone + [Unmark(candidate)]; }
      }
      assert w.events == events + undone;
      if genLocked {
        var f := w.SetLock(None);
        if f != Failed { undone := undone + [Unlock]; }
      }
      assert w.events == events + undone;
    }

    method Revive() returns (ghost revived: seq<Event>)
      requires originalReplicas != 0
      modifies w
      ensures var resume := old(w.calls) + (if scaledDown then 1 else 0);
              && w.calls == resume + (if suspended then 1 else 0)
              && Core(w.s) == Core(old(w.s)).(
                   replicas := if scaledDown && w.fate(old(w.calls)) != Failed then originalReplicas
                               else old(w.s).replicas,
                   suspended := if suspended && w.fate(resume) != Failed then false else old(w.s).suspended)
      ensures w.events == old(w.events) + revived
      ensures forall e :: e in revived ==> e in {ScaleTo(originalReplicas), Resume}
    {
      ghost var events := w.events;
      revived := [];
      if scaledDown {
        var f := w.Scale(originalReplicas);
        if f != Failed { revived := revived + [ScaleTo(originalReplicas)]; }
      }
      assert w.events == events + revived;
      if suspended {
        var f := w.SetSuspend(false);
        if f != Failed { revived := revived + [Resume]; }
      }
      assert w.events == events + revived;
    }

    /** What is left after the rollback of a run that stopped, field by field: its calls are the
        last ones, in the order unpatch, unmark, unlock, scale, resume. */
    ghost predicate Left(stop: Stop)
      reads this, w
    {
      var last, stage, took := w.calls - 1, stop.stage, Took(stop);
      && stage != EscrowRefused && w.calls == stop.at + 1 + Undoings(stage) &&
         (ByCall(stage) ==> w.fate(stop.at) != Done)
      && w.s.suspended == (if stage == SuspendFailed then took || start.suspended else w.fate(last) == Failed)
      && w.s.lock == (if stage == SuspendFailed then start.lock
                      else if stage == LockFailed then (if took then Some(holder) else start.lock)
                      else if w.fate(if stage == ScaleDownFailed then last - 1 else last - 2) == Failed
                        then Some(holder)
                      else None)
      && w.s.replicas == (if Undoings(stage) <= 1 then start.replicas
                          else if stage == ScaleDownFailed then (if took then 0 else start.replicas)
                          else if w.fate(last - 1) == Failed && !(stage == ScaleUpFailed && took) then 0
                          else originalReplicas)
      && w.s.force == (if stage == PatchFailed then (if took then Some(candidate) else start.force)
                       else if stage == ScaleUpFailed
                         then (if w.fate(last - 4) == Failed then Some(candidate) else None)
                       else start.force)
      && w.s.marked <= start.marked + {candidate}
      && (candidate in w.s.marked <==>
            if stage == MarkFailed then took || candidate in start.marked
            else if Undoings(stage) >= 4 then w.fate(last - 3) == Failed
            else candidate in start.marked)
    }

    /** The rollback closure: authority marks first, while the pods are still down. */
    method Rescue(ghost stop: Stop) returns (ghost undone: seq<Event>, ghost revived: seq<Event>)
      requires originalReplicas != 0 && Tracks(Some(stop)) && StoppedAt(stop)
      modifies w
      ensures Left(stop)
      ensures w.events == old(w.events) + undone + revived
      ensures forall e :: e in undone ==> e in {Unpatch, Unmark(candidate), Unlock}
      ensures forall e :: e in revived ==> e in {ScaleTo(originalReplicas), Resume}
    {
      undone := UndoAuthority();
      revived := Revive();
    }

    /** Nothing but the candidate was marked or patched, and no recover ran beside a cluster pod. */
    ghost predicate StaysOnTarget()
      reads this, w
    {
      begin <= |w.events| && forall i :: begin <= i < |w.events| ==> OnTarget(w.events[i], candidate)
    }

    lemma CommittedStaysOnTarget()
      requires ForwardThenScaled()
      ensures StaysOnTarget()
    {}

    method RollBack(ghost stop: Stop)
      requires originalReplicas != 0 && Tracks(Some(stop)) && StoppedAt(stop) && StoppedForward(stop)
      modifies w
      ensures Left(stop) && StaysOnTarget()
      ensures !(stop.stage == ScaleUpFailed && Took(stop)) ==> AuthorityFirst(w.events, begin)
    {
      ghost var before := w.events;
      ghost var undone, revived := Rescue(stop);
      RollbackTrail(before, undone, revived, begin, candidate, originalReplicas);
    }

    /** Steps 1 to 8, with the deferred rollback on every exit before the commit. */
    method Execute(escrowed: bool, bellyUp: bool, force: bool, assessments: seq<Assessment>, timeout: int)
      returns (stop: Option<Stop>, ghost from: nat, ghost recovered: Recoveries, ghost groups: seq<LineageGroup>)
      requires Fresh()
      requires forall i :: 0 <= i < |assessments| ==> assessments[i].pod != ""
      modifies this, w
      // Without the escrow nothing happens; with it the first calls decide the first stages.
      ensures !escrowed <==> stop.Some? && stop.value.stage == EscrowRefused
      ensures !escrowed ==> w.s == start && w.events == old(w.events) && w.calls == old(w.calls)
      ensures escrowed ==> FirstStop(old(w.calls), timeout, stop)
      // A commit is of the candidate the recovered positions select; a refusal has its reason.
      ensures Decided(stop, from, recovered, groups, assessments, bellyUp, force)
      ensures stop == None ==> Committed() && (NoneFailed(from, w.calls) ==> StaleMarksGone(assessments))
      // With nothing in its way the run commits, or refuses the selection.
      ensures escrowed && w.NothingFails() && GoneInTime(old(w.calls), timeout) ==>
                && Reached(stop)
                && (stop == None <==> Selectable(assessments, recovered, groups, holder, bellyUp, force))
      // Whatever stopped the run, this is what its rollback leaves.
      ensures stop.Some? && escrowed ==> Left(stop.value)
      // No recover ever ran beside a cluster pod; only the final candidate was marked or patched;
      // the marks are undone before anything is revived, unless the scale-up itself took effect.
      ensures StaysOnTarget()
      ensures stop.Some? && !(stop.value.stage == ScaleUpFailed && Took(stop.value)) ==> AuthorityFirst(w.events, begin)
    {
      from, recovered, groups := 0, map[], [];
      if !escrowed { return Some(Stop(EscrowRefused, 0)), from, recovered, groups; }
      stop, from, recovered, groups := Attempt(bellyUp, force, assessments, timeout);
      if stop.Some? {
        RollBack(stop.value);
      } else {
        CommittedStaysOnTarget();
      }
    }

    // ----- when nothing is left -----

    /** Nothing this run did is left. */
    ghost predicate Restored()
      reads this, w
    {
      && (w.s.suspended ==> start.suspended)
      && (w.s.lock == None || w.s.lock == start.lock)
      && (w.s.replicas == originalReplicas || w.s.replicas == start.replicas)
      && (w.s.force == None || w.s.force == start.force)
      && w.s.marked <= start.marked
    }

    /** Before the run: resumed, at full size, and nothing of ours on the cluster. */
    ghost predicate Quiet()
      reads this
    {
      && !start.suspended && start.replicas == originalReplicas != 0
      && start.lock != Some(holder) && start.force != Some(candidate) && candidate !in start.marked
    }

    /** Every call of the rollback was applied, but that after a scale-up that took effect the
        second one need not be; and the call that failed was not applied, unless it was that
        scale-up. */
    ghost predicate Clean(stop: Stop)
      reads w
    {
      var spare := if stop.stage == ScaleUpFailed && Took(stop) then Some(stop.at + 4) else None;
      && (forall n :: stop.at < n < w.calls && Some(n) != spare ==> w.fate(n) != Failed)
      && (Took(stop) ==> stop.stage == ScaleUpFailed)
    }

    /** A rollback whose calls are all applied restores the cluster unless the call that failed
        took effect; on a cluster that was quiet before, exactly then. */
    lemma RestoredIffClean(stop: Stop)
      requires Left(stop)
      ensures Clean(stop) ==> Restored()
      ensures Quiet() ==> (Restored() <==> Clean(stop))
    {}

    /** Steps 10 and 11, past the point of no return: withdraw the directive, unlock, resume. */
    method CleanUp()
      requires Committed()
      modifies w
      ensures w.calls >= old(w.calls) + 2 && w.s.marked == old(w.s).marked && w.s.replicas == originalReplicas
      // The directive stays only if all five withdrawals failed, the lock and the suspension only
      // if their one call did.
      ensures w.s.force == if EveryFails(old(w.calls)) then Some(candidate) else None
      ensures w.s.lock == if w.fate(w.calls - 2) == Failed then Some(holder) else None
      ensures w.s.suspended <==> w.fate(w.calls - 1) == Failed
    {
      ghost var c := w.calls;
      for attempt := 0 to RETRIES
        invariant w.calls >= c && Core(w.s) == Core(old(w.s)).(force := w.s.force)
        invariant w.s.force == None ==> !EveryFails(c)
        invariant w.s.force != None ==> w.s.force == Some(candidate) && w.calls == c + attempt
        invariant w.s.force != None ==> forall n :: c <= n < w.calls ==> w.fate(n) == Failed
      {
        var patch := w.SetForce(None);
        if patch != Done { continue; }
        var verify := w.Call();
        if verify == Done && w.s.force == None { break; }
      }
      var _ := w.SetLock(None);
      var _ := w.SetSuspend(false);
    }

    ghost predicate EveryFails(from: nat) {
      forall n :: from <= n < from + 5 ==> w.fate(n) == Failed
    }
  }

  lemma OneMoreRead(w: World, assessments: seq<Assessment>, from: nat, recovered: Recoveries, i: nat)
    requires i < |assessments| && AreReads(w, assessments[..i], from, recovered)
    ensures var pod := assessments[i].pod;
            AreReads(w, assessments[..i + 1], from,
                     if w.fate(from + i) == Done then recovered[pod := w.position(pod)] else recovered)
  {
    var now, before := assessments[..i + 1], assessments[..i];
    var pod := assessments[i].pod;
    var after := if w.fate(from + i) == Done then recovered[pod := w.position(pod)] else recovered;
    assert now[i] == assessments[i] && forall j :: 0 <= j < i ==> now[j] == before[j];
    forall p ensures p in after <==> exists j :: 0 <= j < |now| && now[j].pod == p && w.fate(from + j) == Done {
      if p in recovered {
        var j :| 0 <= j < |before| && before[j].pod == p && w.fate(from + j) == Done;
        assert now[j].pod == p;
      }
    }
  }

  /** Only the reply of the second call, which sets the lock, is lost. */
  function LostLock(n: nat): Fate {
    if n == 1 then LostReply else Done
  }

  /** The run stops there, its whole rollback is done, and its lock is still on the cluster. */
  method LostLockRun(quiet: Galera, holder: string, timeout: int) returns (b: Bootstrap, stop: Option<Stop>)
    requires !quiet.suspended && quiet.replicas != 0 && quiet.lock != Some(holder) && quiet.force != Some(holder) &&
             holder !in quiet.marked
    ensures stop == Some(Stop(LockFailed, 1)) && b.start == quiet && !b.Restored()
    ensures b.w.s.lock == Some(holder) && !b.w.s.suspended && b.w.s.replicas == quiet.replicas
  {
    var w := new World((n: nat) => LostLock(n), (n: nat) => {}, p => WsrepRecover(NoUUID, 0, 0, false), quiet);
    b := new Bootstrap(w, quiet.replicas, holder);
    ghost var from, recovered, groups;
    stop, from, recovered, groups := b.Execute(true, true, false, [], timeout);
    assert w.fate(0) == Done && w.fate(1) == LostReply && w.fate(2) == Done;
  }

  /** Since n the run has only read positions, with no pod around, or revived the cluster. */
  ghost predicate OnlyReads(events: seq<Event>, n: nat) {
    n <= |events| && forall i :: n <= i < |events| ==>
      !SetsAuthority(events[i]) && (events[i].Recover? ==> events[i].podsThen == {})
  }

  method ReadPositions(w: World, pods: seq<string>, ghost from: nat) returns (recovered: Recoveries)
    requires HeldDown(w.s) && w.s.pods == {} && OnlyReads(w.events, from)
    modifies w
    ensures Core(w.s) == Core(old(w.s)) && OnlyReads(w.events, from) && w.calls == old(w.calls) + |pods|
    ensures forall p :: p in recovered ==> recovered[p] == w.position(p)
    ensures forall p :: p in recovered <==>
              exists i :: 0 <= i < |pods| && pods[i] == p && w.fate(old(w.calls) + i) == Done
  {
    recovered := map[];
    ghost var c := w.calls;
    for i := 0 to |pods|
      invariant HeldDown(w.s) && w.s.pods == {} && Core(w.s) == Core(old(w.s)) && OnlyReads(w.events, from)
      invariant w.calls == c + i && forall p :: p in recovered ==> recovered[p] == w.position(p)
      invariant forall p :: p in recovered <==> exists j :: 0 <= j < i && pods[j] == p && w.fate(c + j) == Done
    {
      var rr := w.RunWsrepRecover(pods[i]);
      if rr.Some? {
        recovered := recovered[pods[i] := rr.value];
      }
    }
  }

  /** Scale to zero, read if every pod went away, and scale back. A scale-down whose reply is lost
      is not undone: the restore is only deferred once it succeeded. */
  method ReadScaledDown(w: World, originalReplicas: int, pods: seq<string>, timeout: int, ghost from: nat)
    returns (recovered: Recoveries)
    requires w.s.suspended && originalReplicas != 0 && w.s.replicas == originalReplicas && OnlyReads(w.events, from)
    modifies w
    ensures OnlyReads(w.events, from) && Core(w.s) == Core(old(w.s)).(replicas := w.s.replicas)
    ensures w.calls == old(w.calls) + 1 <==> w.fate(old(w.calls)) != Done
    ensures w.calls > old(w.calls)
    ensures w.s.replicas == match w.fate(old(w.calls))
              case Failed => originalReplicas
              case LostReply => 0
              case Done => if w.fate(w.calls - 1) == Failed then 0 else originalReplicas
    ensures forall p :: p in recovered ==> recovered[p] == w.position(p)
    ensures var gone := w.Emptied(w.After(old(w.s), old(w.calls)).(replicas := 0), old(w.calls) + 1, timeout);
            if w.NothingFails() && gone then forall p :: p in recovered <==> p in pods
            else gone || recovered == map[]
  {
    recovered := map[];
    var down := w.Scale(0);
    if down != Done { return map[]; }
    var gone := w.WaitPodsTerminated(timeout);
    if gone {
      recovered := ReadPositions(w, pods, from);
      var _ := w.Call();   // delete leftover recovery pods, best effort
    }
    var _ := w.Scale(originalReplicas);
  }

  /** Suspended by call c and scaled down by the second call after it, the cluster was seen without
      pods in time. */
  ghost predicate ReadWindow(w: World, s: Galera, c: nat, timeout: int) {
    var suspended := w.After(w.After(s, c).(suspended := true), c + 1);
    w.Emptied(w.After(suspended, c + 2).(replicas := 0), c + 3, timeout)
  }

  /** With the lock held: suspend, read, resume. */
  method ReadSuspended(w: World, originalReplicas: int, pods: seq<string>, timeout: int, ghost from: nat)
    returns (recovered: Recoveries)
    requires originalReplicas != 0 && w.s.replicas == originalReplicas && !w.s.suspended && OnlyReads(w.events, from)
    modifies w
    ensures OnlyReads(w.events, from) && w.calls > old(w.calls)
    ensures Core(w.s) == Core(old(w.s)).(replicas := w.s.replicas, suspended := w.s.suspended)
    ensures forall p :: p in recovered ==> recovered[p] == w.position(p)
    ensures w.s.suspended <==>
              if w.fate(old(w.calls)) == Done then w.fate(w.calls - 1) == Failed else w.fate(old(w.calls)) == LostReply
    ensures w.fate(old(w.calls)) != Done ==> w.s.replicas == originalReplicas
    ensures w.fate(old(w.calls)) == Done ==> w.calls >= old(w.calls) + 4
    ensures w.fate(old(w.calls)) == Done ==>
              w.s.replicas == match w.fate(old(w.calls) + 2)
                case Failed => originalReplicas
                case LostReply => 0
                case Done => if w.fate(w.calls - 2) == Failed then 0 else originalReplicas
    ensures var gone := ReadWindow(w, old(w.s), old(w.calls), timeout);
            if w.NothingFails() && gone then forall p :: p in recovered <==> p in pods
            else gone || recovered == map[]
  {
    recovered := map[];
    var suspend := w.SetSuspend(true);
    if suspend != Done { return; }
    var _ := w.Call();   // delete leftover recovery pods, best effort
    recovered := ReadScaledDown(w, originalReplicas, pods, timeout, from);
    var _ := w.SetSuspend(false);
  }

  /** With the lock taken: read, and unlock. */
  method ReadLocked(w: World, originalReplicas: int, pods: seq<string>, timeout: int, ghost from: nat)
    returns (recovered: Recoveries)
    requires originalReplicas != 0 && w.s.replicas == originalReplicas && !w.s.suspended && OnlyReads(w.events, from)
    modifies w
    ensures OnlyReads(w.events, from) && w.s.marked == old(w.s).marked && w.s.force == old(w.s).force
    ensures forall p :: p in recovered ==> recovered[p] == w.position(p)
    ensures w.calls >= old(w.calls) + 2
    ensures w.s.lock == if w.fate(w.calls - 1) == Failed then old(w.s).lock else None
    ensures var c := old(w.calls);
            if w.fate(c) != Done then w.s.replicas == originalReplicas && (w.s.suspended <==> w.fate(c) == LostReply)
            else
              && w.calls >= c + 5 && (w.s.suspended <==> w.fate(w.calls - 2) == Failed)
              && w.s.replicas == match w.fate(c + 2)
                   case Failed => originalReplicas
                   case LostReply => 0
                   case Done => if w.fate(w.calls - 3) == Failed then 0 else originalReplicas
    ensures var gone := ReadWindow(w, old(w.s), old(w.calls), timeout);
            if w.NothingFails() && gone then forall p :: p in recovered <==> p in pods
            else gone || recovered == map[]
  {
    recovered := ReadSuspended(w, originalReplicas, pods, timeout, from);
    var _ := w.SetLock(None);
  }

  /** Triage's own fenced read of a cluster with nothing serving: take the fence lock, suspend,
      scale to zero, read every position, and put everything back on every exit. It never
      touches a mark or the bootstrap directive. */
  method DeepRecover(w: World, originalReplicas: int, pods: seq<string>, lockFree: bool, timeout: int)
    returns (recovered: Recoveries)
    requires originalReplicas != 0 && w.s.replicas == originalReplicas
    modifies w
    ensures OnlyReads(w.events, |old(w.events)|)
    ensures w.s.marked == old(w.s).marked && w.s.force == old(w.s).force
    ensures forall p :: p in recovered ==> recovered[p] == w.position(p)
    // Without the lock nothing changes, but for a lock whose reply was lost.
    ensures var c := old(w.calls);
            w.fate(c) != Done || old(w.s).suspended || !lockFree || w.fate(c + 1) != Done ==>
              recovered == map[] && Core(w.s) == Core(old(w.s)).(lock := w.s.lock) &&
              w.s.lock == if w.fate(c) == Done && !old(w.s).suspended && lockFree && w.fate(c + 1) == LostReply
                          then Some("triage-recover") else old(w.s).lock
    // With it, the last call unlocks, the one before resumes and the one before that scales back;
    // a step whose own reply was lost is not undone.
    ensures var c := old(w.calls);
            w.fate(c) == Done && !old(w.s).suspended && lockFree && w.fate(c + 1) == Done ==>
              && w.calls >= c + 4
              && w.s.lock == (if w.fate(w.calls - 1) == Failed then Some("triage-recover") else None)
              && (w.fate(c + 2) != Done ==>
                    w.s.replicas == originalReplicas && (w.s.suspended <==> w.fate(c + 2) == LostReply))
              && (w.fate(c + 2) == Done ==>
                    && w.calls >= c + 7
                    && (w.s.suspended <==> w.fate(w.calls - 2) == Failed)
                    && w.s.replicas == match w.fate(c + 4)
                         case Failed => originalReplicas
                         case LostReply => 0
                         case Done => if w.fate(w.calls - 3) == Failed then 0 else originalReplicas)
    // Positions are read only once no pod is left, and with nothing in the way all of them are.
    ensures var c := old(w.calls);
            var locked := w.After(w.After(old(w.s), c), c + 1).(lock := Some("triage-recover"));
            var gone := ReadWindow(w, locked, c + 2, timeout);
            if w.NothingFails() && !old(w.s).suspended && lockFree && gone
            then forall p :: p in recovered <==> p in pods
            else gone || recovered == map[]
  {
    recovered := map[];
    ghost var from := |w.events|;
    var get := w.Call();
    if get != Done || w.s.suspended || !lockFree { return; }
    var cas := w.SetLock(Some("triage-recover"));
    if cas != Done { return map[]; }
    recovered := ReadLocked(w, originalReplicas, pods, timeout, from);
  }
}
