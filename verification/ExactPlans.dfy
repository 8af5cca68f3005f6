// When exactly a plan that destroys data directories is made, told from what triage collected.
module ExactPlans {
  import opened Options
  import opened Text
  import opened Lineage
  import opened Authority
  import opened Comparison
  import opened HealPlan
  import opened Outcomes
  import History

  // ----- promotion -----

  ghost predicate IsCollected(data: seq<Collected>, pod: string) {
    exists i :: 0 <= i < |data| && data[i].pod == pod
  }

  /** Which outcome lets which pod be promoted, and what is rebuilt then. */
  lemma PromotionByOutcome(data: seq<Collected>, primaryName: string, cmp: DataComparison, target: string, force: bool)
    ensures var p := PromotionPlan(target, cmp, Assessments(data, primaryName, cmp), force);
            && (p.Promotion? && !p.diverged <==>
                  IsCollected(data, target) && cmp.authority == LeaderNotPrimary && target == cmp.mostAdvanced)
            && (p.Promotion? && p.diverged <==>
                  IsCollected(data, target) && cmp.authority == Comparison.Diverged && force)
            && (p.Promotion? ==> p.authority == target && p.recoverySet == [target] + p.rebuild)
            && (p.Promotion? ==> forall q :: q in p.rebuild <==> q != target && IsCollected(data, q))
  {
    AssessedIffCollected(data, primaryName, cmp, target);
  }

  /** A promotion proves its target the authority, or overrides a divergence: two readable
      instances of which neither is known to hold what the other does. */
  lemma PromotionIff(data: seq<Collected>, primaryName: string, content: Option<Comparator>, cmp: DataComparison,
                     target: string, force: bool)
    requires IsComparison(data, primaryName, content, cmp) && Symmetric(content) && NamedPods(data)
    ensures var insts := Inputs(data, primaryName);
            var p := PromotionPlan(target, cmp, Assessments(data, primaryName, cmp), force);
            && (p.Promotion? && !p.diverged <==>
                  Settled(insts, content) && LedBy(insts, content, target) && target != primaryName)
            && (p.Promotion? && p.diverged <==>
                  force && IsCollected(data, target) && NoneUnread(insts) && !NothingDiverges(insts, content))
  {
    OutcomeIff(data, primaryName, content, cmp);
    PromotionByOutcome(data, primaryName, cmp, target, force);
    if LedBy(Inputs(data, primaryName), content, target) { LeaderIsCollected(data, primaryName, content, target); }
    if LedBy(Inputs(data, primaryName), content, cmp.mostAdvanced) {
      LedByOne(data, primaryName, content, cmp.mostAdvanced, target);
    }
  }

  lemma LeaderIsCollected(data: seq<Collected>, primaryName: string, content: Option<Comparator>, pod: string)
    requires LedBy(Inputs(data, primaryName), content, pod)
    ensures IsCollected(data, pod) && SomeoneUnbeaten(Inputs(data, primaryName), content)
    ensures pod == primaryName <==> PrimaryUnbeaten(Inputs(data, primaryName), content, primaryName)
  {
    var insts := Inputs(data, primaryName);
    var x :| Preferred(insts, content, x) && x.pod == pod;
    InputOfPod(data, primaryName, x);
    LedByOne(data, primaryName, content, pod, pod);
  }

  lemma AssessedIffCollected(data: seq<Collected>, primaryName: string, cmp: DataComparison, target: string)
    ensures var assessments := Assessments(data, primaryName, cmp);
            && (IsCollected(data, target) <==> exists j :: 0 <= j < |assessments| && assessments[j].pod == target)
            && forall q :: q in OtherPods(assessments, target) <==> q != target && IsCollected(data, q)
  {
    var assessments := Assessments(data, primaryName, cmp);
    forall q ensures IsCollected(data, q) <==> exists a :: a in assessments && a.pod == q {
      if i :| 0 <= i < |data| && data[i].pod == q {
        assert assessments[i] in assessments;
      }
    }
    if i :| 0 <= i < |data| && data[i].pod == target {
      assert assessments[i].pod == target;
    }
  }

  /** No flag promotes anything while the primary is read and unbeaten. */
  lemma ElectedPrimaryIsNeverReplaced(data: seq<Collected>, primaryName: string, content: Option<Comparator>,
                                      cmp: DataComparison, p: Instance, target: string, force: bool)
    requires IsComparison(data, primaryName, content, cmp) && Symmetric(content) && NamedPods(data)
    requires Settled(Inputs(data, primaryName), content)
    requires p.pod == primaryName && Unbeaten(Inputs(data, primaryName), content, p)
    ensures PromotionPlan(target, cmp, Assessments(data, primaryName, cmp), force) == Rejected
  {
    var insts := Inputs(data, primaryName);
    PromotionIff(data, primaryName, content, cmp, target, force);
    if LedBy(insts, content, target) {
      LedByOne(data, primaryName, content, target, target);
    }
  }

  // ----- reseed and restart -----

  /** On an earlier timeline than the primary's. */
  predicate OnEarlierTimeline(c: Collected, position: (string, string)) {
    && TrimSpace(c.timeline) != "unknown" && position.0 != "unknown"
    && History.ParseTimelineInt(TrimSpace(c.timeline)) < History.ParseTimelineInt(position.0)
  }

  predicate OnSameTimeline(c: Collected, position: (string, string)) {
    TrimSpace(c.timeline) == position.0 != "unknown"
  }

  /** Its checkpoint is before the primary's. */
  predicate Trails(c: Collected, position: (string, string)) {
    History.ParseLSNValue(TrimSpace(c.checkpoint)) < History.ParseLSNValue(position.1)
  }

  /** Its data is corrupt, on a dead branch, or on the primary's timeline behind it with no way to
      catch up: not streaming, and its disk is full or neither its pod is missing nor its WAL kept. */
  predicate MustReseed(c: Collected, position: (string, string), primaryName: string) {
    || c.crashReason == "pgdata_corruption"
    || (c.pod != primaryName && c.source != "none" &&
        (|| OnEarlierTimeline(c, position)
         || (OnSameTimeline(c, position) && Trails(c, position) && !c.streaming &&
             (c.crashReason == "disk_full" || (!c.missing && !c.slotRetainsWAL)))))
  }

  /** Its data is sound and on the primary's timeline, and either current with no ready pod or
      behind with the WAL kept or the pod missing. */
  predicate MustRestart(c: Collected, position: (string, string), primaryName: string) {
    && c.crashReason != "pgdata_corruption" && c.pod != primaryName && c.source != "none"
    && OnSameTimeline(c, position)
    && (if Trails(c, position) then !c.streaming && c.crashReason != "disk_full" && (c.missing || c.slotRetainsWAL)
        else c.missing || c.crashLooping)
  }

  lemma AssessedAs(c: Collected, position: (string, string), primaryName: string, cmp: DataComparison)
    requires cmp.safeToHeal
    ensures var a := AssessInstance(c, position.0, position.1, primaryName, cmp);
            && (a.remediation == Restart <==> MustRestart(c, position, primaryName))
            && (a.needsHeal <==> MustReseed(c, position, primaryName))
            && (a.remediation == Reseed <==> a.needsHeal)
  {}

  /** Healing every member reseeds and restarts exactly these, and only on a proven primary. */
  lemma UntargetedPlanIff(data: seq<Collected>, primaryName: string, cmp: DataComparison, pod: string)
    requires cmp.safeToHeal
    ensures var targets := UntargetedPlan(cmp, Assessments(data, primaryName, cmp)).targets;
            var position := PrimaryPosition(data, primaryName);
            && (HealTarget(pod, Reseed) in targets <==>
                  exists i :: 0 <= i < |data| && data[i].pod == pod && MustReseed(data[i], position, primaryName))
            && (HealTarget(pod, Restart) in targets <==>
                  exists i :: 0 <= i < |data| && data[i].pod == pod && MustRestart(data[i], position, primaryName))
  {
    var assessments, position := Assessments(data, primaryName, cmp), PrimaryPosition(data, primaryName);
    var reseed, restart := HealTarget(pod, Reseed), HealTarget(pod, Restart);
    TargetsAre(assessments, reseed);
    TargetsAre(assessments, restart);
    forall i | 0 <= i < |data|
      ensures Plans(assessments[i], reseed) <==> data[i].pod == pod && MustReseed(data[i], position, primaryName)
      ensures Plans(assessments[i], restart) <==> data[i].pod == pod && MustRestart(data[i], position, primaryName)
    {
      AssessedAs(data[i], position, primaryName, cmp);
    }
  }

  /** A replica that streams on the primary's timeline and is not corrupt is never reseeded. */
  lemma StreamingIsNeverReseeded(data: seq<Collected>, primaryName: string, cmp: DataComparison, pod: string)
    requires cmp.safeToHeal
    requires forall i :: 0 <= i < |data| && data[i].pod == pod ==>
               data[i].streaming && data[i].crashReason != "pgdata_corruption" &&
                 OnSameTimeline(data[i], PrimaryPosition(data, primaryName))
    ensures HealTarget(pod, Reseed) !in UntargetedPlan(cmp, Assessments(data, primaryName, cmp)).targets
  {
    UntargetedPlanIff(data, primaryName, cmp, pod);
  }

  function TargetsIn(p: Plan): seq<HealTarget> {
    if p.Targets? then p.targets else []
  }

  ghost predicate DistinctPods(data: seq<Collected>) {
    forall i, j :: 0 <= i < j < |data| ==> data[i].pod != data[j].pod
  }

  lemma FirstIsTheOne(data: seq<Collected>, primaryName: string, cmp: DataComparison, i: nat)
    requires DistinctPods(data) && i < |data|
    ensures FirstFor(Assessments(data, primaryName, cmp), data[i].pod) == Some(Assessments(data, primaryName, cmp)[i])
  {
    var assessments := Assessments(data, primaryName, cmp);
    var first := FirstFor(assessments, data[i].pod);
    assert assessments[i] in assessments && assessments[i].pod == data[i].pod;
    var j :| 0 <= j < |assessments| && assessments[j] == first.value;
    assert data[j].pod == data[i].pod;
    assert j == i;
  }

  /** Healing one member does to it what healing every member would: the same restart, and the same
      reseed if its volume exists. Forced, it is reseeded unless it is the primary or the authority
      of a refused verdict, whatever its state. */
  lemma TargetedPlanIff(data: seq<Collected>, primaryName: string, cmp: DataComparison, target: string, pvcExists: bool)
    requires DistinctPods(data)
    ensures var assessments := Assessments(data, primaryName, cmp);
            var one := TargetsIn(TargetedPlan(target, primaryName, cmp, assessments, false, pvcExists));
            var all := TargetsIn(UntargetedPlan(cmp, assessments));
            && (HealTarget(target, Reseed) in one <==>
                  target != primaryName && pvcExists && HealTarget(target, Reseed) in all)
            && (HealTarget(target, Restart) in one <==> HealTarget(target, Restart) in all)
            && (forall t :: t in one ==> t.pod == target && t in all)
    ensures var forced := TargetedPlan(target, primaryName, cmp, Assessments(data, primaryName, cmp), true, pvcExists);
            TargetsIn(forced) ==
              if target != primaryName && IsCollected(data, target) && pvcExists &&
                 (cmp.safeToHeal || target != cmp.mostAdvanced || target == "")
              then [HealTarget(target, Reseed)] else []
  {
    var assessments, position := Assessments(data, primaryName, cmp), PrimaryPosition(data, primaryName);
    if i :| 0 <= i < |data| && data[i].pod == target {
      FirstIsTheOne(data, primaryName, cmp, i);
      TargetedFollows(data, primaryName, cmp, i, pvcExists);
    } else {
      UnknownIsNotPlanned(data, primaryName, cmp, target);
    }
  }

  lemma UnknownIsNotPlanned(data: seq<Collected>, primaryName: string, cmp: DataComparison, target: string)
    requires !IsCollected(data, target)
    ensures FirstFor(Assessments(data, primaryName, cmp), target) == None
    ensures forall t :: t in TargetsOf(Assessments(data, primaryName, cmp)) ==> t.pod != target
  {
    var assessments := Assessments(data, primaryName, cmp);
    forall a | a in assessments ensures a.pod != target {
      var j :| 0 <= j < |assessments| && assessments[j] == a;
      assert data[j].pod == a.pod;
    }
    forall t | t in TargetsOf(assessments) ensures t.pod != target {
      TargetsAre(assessments, t);
      var j :| 0 <= j < |assessments| && Plans(assessments[j], t);
      assert data[j].pod == t.pod;
    }
  }

  lemma TargetedFollows(data: seq<Collected>, primaryName: string, cmp: DataComparison, i: nat, pvcExists: bool)
    requires DistinctPods(data) && i < |data|
    requires FirstFor(Assessments(data, primaryName, cmp), data[i].pod) == Some(Assessments(data, primaryName, cmp)[i])
    ensures var assessments := Assessments(data, primaryName, cmp);
            var target := data[i].pod;
            var one := TargetsIn(TargetedPlan(target, primaryName, cmp, assessments, false, pvcExists));
            var all := TargetsIn(UntargetedPlan(cmp, assessments));
            && (HealTarget(target, Reseed) in one <==>
                  target != primaryName && pvcExists && HealTarget(target, Reseed) in all)
            && (HealTarget(target, Restart) in one <==> HealTarget(target, Restart) in all)
            && (forall t :: t in one ==> t.pod == target && t in all)
  {
    var assessments, target := Assessments(data, primaryName, cmp), data[i].pod;
    OnlyPlansOf(data, primaryName, cmp, i, HealTarget(target, Reseed));
    OnlyPlansOf(data, primaryName, cmp, i, HealTarget(target, Restart));
    if !cmp.safeToHeal {
      UnsafeRestartsNobody(data, primaryName, cmp, i);
    } else {
      AssessedAs(data[i], PrimaryPosition(data, primaryName), primaryName, cmp);
    }
  }

  lemma UnsafeRestartsNobody(data: seq<Collected>, primaryName: string, cmp: DataComparison, i: nat)
    requires i < |data| && !cmp.safeToHeal
    ensures Assessments(data, primaryName, cmp)[i].remediation != Restart
  {
    if Assessments(data, primaryName, cmp)[i].remediation == Restart {
      RestartKeepsTheTimeline(data, primaryName, cmp, i);
    }
  }

  lemma OnlyPlansOf(data: seq<Collected>, primaryName: string, cmp: DataComparison, i: nat, t: HealTarget)
    requires DistinctPods(data) && i < |data| && t.pod == data[i].pod
    ensures t in TargetsOf(Assessments(data, primaryName, cmp)) <==> Plans(Assessments(data, primaryName, cmp)[i], t)
  {
    var assessments := Assessments(data, primaryName, cmp);
    TargetsAre(assessments, t);
    if j :| 0 <= j < |assessments| && Plans(assessments[j], t) {
      assert data[j].pod == data[i].pod;
      assert i == j;
    }
  }
}
