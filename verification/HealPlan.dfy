// The plans that destroy data directories: heal every member, heal one, promote one. Each
// is computed from the triage result, and what it may destroy is proved from triage's inputs.
module HealPlan {
  import opened Options
  import opened Lineage
  import opened Authority
  import opened Comparison
  import opened Text
  import opened Numbers
  import History

  datatype HealTarget = HealTarget(pod: string, remediation: Remediation)

  datatype Plan = Refused | Targets(targets: seq<HealTarget>)

  // ----- every member -----

  /** What the plan does about one assessed instance. */
  predicate Plans(a: Assessment, t: HealTarget) {
    && t.pod == a.pod
    && (if t.remediation == Restart then a.remediation == Restart
        else t.remediation == Reseed && a.remediation != Restart && a.needsHeal)
  }

  function TargetsOf(assessments: seq<Assessment>): seq<HealTarget> {
    if assessments == [] then []
    else
      var a := assessments[|assessments| - 1];
      TargetsOf(assessments[..|assessments| - 1]) +
      if a.remediation == Restart then [HealTarget(a.pod, Restart)]
      else if a.needsHeal then [HealTarget(a.pod, Reseed)]
      else []
  }

  /** The plan is exactly what the assessments call for. */
  lemma {:induction false} TargetsAre(assessments: seq<Assessment>, t: HealTarget)
    ensures t in TargetsOf(assessments) <==> exists i :: 0 <= i < |assessments| && Plans(assessments[i], t)
  {
    if assessments != [] {
      var n := |assessments| - 1;
      var init := assessments[..n];
      TargetsAre(init, t);
      assert forall i :: 0 <= i < n ==> init[i] == assessments[i];
      assert t in TargetsOf(assessments) <==> t in TargetsOf(init) || Plans(assessments[n], t);
    }
  }

  method BuildUntargetedPlan(cmp: DataComparison, assessments: seq<Assessment>) returns (p: Plan)
    ensures p == UntargetedPlan(cmp, assessments)
  {
    if !cmp.safeToHeal { return Refused; }
    var targets: seq<HealTarget> := [];
    for i := 0 to |assessments|
      invariant targets == TargetsOf(assessments[..i])
    {
      assert assessments[..i + 1][..i] == assessments[..i];
      var a := assessments[i];
      if a.remediation == Restart {
        targets := targets + [HealTarget(a.pod, Restart)];
        continue;
      }
      if a.needsHeal {
        targets := targets + [HealTarget(a.pod, Reseed)];
      }
    }
    assert assessments[..|assessments|] == assessments;
    p := Targets(targets);
  }

  function UntargetedPlan(cmp: DataComparison, assessments: seq<Assessment>): Plan {
    if !cmp.safeToHeal then Refused else Targets(TargetsOf(assessments))
  }

  // ----- one member -----

  function FirstFor(assessments: seq<Assessment>, pod: string): (r: Option<Assessment>)
    ensures r.Some? ==> r.value in assessments && r.value.pod == pod
    ensures r.None? ==> forall a :: a in assessments ==> a.pod != pod
  {
    if assessments == [] then None
    else if assessments[0].pod == pod then Some(assessments[0])
    else FirstFor(assessments[1..], pod)
  }

  method PlanTargeted(target: string, primary: string, cmp: DataComparison, assessments: seq<Assessment>,
                      force: bool, pvcExists: bool) returns (p: Plan)
    ensures p == TargetedPlan(target, primary, cmp, assessments, force, pvcExists)
  {
    if target == primary { return Refused; }
    if !cmp.safeToHeal && cmp.mostAdvanced != "" && target == cmp.mostAdvanced { return Refused; }
    var found: Option<Assessment> := None;
    for i := 0 to |assessments|
      invariant found == None
      invariant FirstFor(assessments, target) == FirstFor(assessments[i..], target)
    {
      if assessments[i].pod == target {
        found := Some(assessments[i]);
        break;
      }
    }
    if found.None? { return Refused; }
    var a := found.value;
    if a.remediation == Restart && !force { return Targets([HealTarget(target, Restart)]); }
    if !cmp.safeToHeal && !force { return Refused; }
    if !a.needsHeal && !force { return Targets([]); }
    if !pvcExists { return Refused; }
    p := Targets([HealTarget(target, Reseed)]);
  }

  function TargetedPlan(target: string, primary: string, cmp: DataComparison, assessments: seq<Assessment>,
                        force: bool, pvcExists: bool): Plan {
    if target == primary then Refused
    else if !cmp.safeToHeal && cmp.mostAdvanced != "" && target == cmp.mostAdvanced then Refused
    else
      match FirstFor(assessments, target)
      case None => Refused
      case Some(a) =>
        if a.remediation == Restart && !force then Targets([HealTarget(target, Restart)])
        else if !cmp.safeToHeal && !force then Refused
        else if !a.needsHeal && !force then Targets([])
        else if !pvcExists then Refused
        else Targets([HealTarget(target, Reseed)])
  }

  // ----- promotion -----

  datatype Promotion =
    | Rejected
    | Promotion(authority: string, rebuild: seq<string>, recoverySet: seq<string>, diverged: bool)

  function OtherPods(assessments: seq<Assessment>, target: string): (r: seq<string>)
    ensures forall p :: p in r <==> p != target && exists a :: a in assessments && a.pod == p
  {
    if assessments == [] then []
    else
      var init, a := assessments[..|assessments| - 1], assessments[|assessments| - 1];
      assert assessments == init + [a];
      OtherPods(init, target) + if a.pod == target then [] else [a.pod]
  }

  method PlanPromotion(target: string, cmp: DataComparison, assessments: seq<Assessment>, force: bool)
    returns (p: Promotion)
    ensures p == PromotionPlan(target, cmp, assessments, force)
  {
    var found := false;
    var others: seq<string> := [];
    for i := 0 to |assessments|
      invariant found <==> exists j :: 0 <= j < i && assessments[j].pod == target
      invariant others == OtherPods(assessments[..i], target)
    {
      assert assessments[..i + 1][..i] == assessments[..i];
      if assessments[i].pod == target {
        found := true;
        continue;
      }
      others := others + [assessments[i].pod];
    }
    assert assessments[..|assessments|] == assessments;
    if !found { return Rejected; }
    match cmp.authority {
      case LeaderNotPrimary =>
        if target != cmp.mostAdvanced { return Rejected; }
        p := Promotion(target, others, [target] + others, false);
      case Diverged =>
        if !force { return Rejected; }
        p := Promotion(target, others, [target] + others, true);
      case _ => p := Rejected;
    }
  }

  function PromotionPlan(target: string, cmp: DataComparison, assessments: seq<Assessment>, force: bool): Promotion {
    var others := OtherPods(assessments, target);
    if forall j :: 0 <= j < |assessments| ==> assessments[j].pod != target then Rejected
    else if cmp.authority == LeaderNotPrimary && target == cmp.mostAdvanced then
      Promotion(target, others, [target] + others, false)
    else if cmp.authority == Diverged && force then Promotion(target, others, [target] + others, true)
    else Rejected
  }

  // ----- what a plan may destroy -----

  /** Everything collected about the pod was proven empty, or its rows are all on source. */
  ghost predicate LosesNothing(data: seq<Collected>, primaryName: string, extent: Extent, pod: string,
                               source: Instance) {
    forall i :: 0 <= i < |data| && data[i].pod == pod ==>
      ProvenEmpty(data[i]) || extent(InputFor(data[i], primaryName), source)
  }

  /** Destroying the pod's data directory and re-cloning it from source, another pod, loses nothing. */
  ghost predicate DiscardLosesNothing(data: seq<Collected>, primaryName: string, extent: Extent, pod: string,
                                      source: Instance) {
    pod != source.pod && LosesNothing(data, primaryName, extent, pod, source)
  }

  ghost predicate TriageInputs(data: seq<Collected>, primaryName: string, content: Option<Comparator>, extent: Extent,
                               cmp: DataComparison) {
    && IsComparison(data, primaryName, content, cmp)
    && LineagesAreWellFormed(data, primaryName) && NamedPods(data)
    && IsExtent(extent, Inputs(data, primaryName)) && Sound(content, extent, Inputs(data, primaryName))
  }

  /** Unforced healing of all members: every target but the primary loses nothing to the
      primary, which was itself read, and no instance was left unread. */
  lemma UntargetedHealLosesNothing(data: seq<Collected>, primaryName: string, content: Option<Comparator>,
                                   extent: Extent, cmp: DataComparison) returns (source: Instance)
    requires TriageInputs(data, primaryName, content, extent, cmp)
    requires UntargetedPlan(cmp, Assessments(data, primaryName, cmp)).Targets?
    ensures source in Inputs(data, primaryName) && source.pod == primaryName && source.readState == Read
    ensures forall t ::
              t in UntargetedPlan(cmp, Assessments(data, primaryName, cmp)).targets && t.pod != primaryName ==>
              DiscardLosesNothing(data, primaryName, extent, t.pod, source)
    ensures forall i :: 0 <= i < |data| ==> InputFor(data[i], primaryName).readState != Unread
  {
    source := AuthorityHoldsEverything(data, primaryName, content, extent, cmp);
  }

  predicate ReportedCorrupt(data: seq<Collected>, pod: string) {
    exists i :: 0 <= i < |data| && data[i].pod == pod && data[i].crashReason == "pgdata_corruption"
  }

  lemma PrimaryNeedsHealIffCorrupt(c: Collected, position: (string, string), primaryName: string, cmp: DataComparison)
    requires c.pod == primaryName
    ensures var a := AssessInstance(c, position.0, position.1, primaryName, cmp);
            a.remediation != Restart && (a.needsHeal <==> c.crashReason == "pgdata_corruption")
  {}

  /** The primary itself is a target of the plan exactly when its data is reported corrupt;
      the guard of the rebuild, which reads the live primary, is all that stands before it. */
  lemma PrimaryIsTargetIffCorrupt(data: seq<Collected>, primaryName: string, cmp: DataComparison)
    requires cmp.safeToHeal
    ensures (exists t :: t in UntargetedPlan(cmp, Assessments(data, primaryName, cmp)).targets &&
               t.pod == primaryName) <==>
            ReportedCorrupt(data, primaryName)
  {
    var position := PrimaryPosition(data, primaryName);
    var assessments := Assessments(data, primaryName, cmp);
    forall i | 0 <= i < |data| && data[i].pod == primaryName
      ensures assessments[i].remediation != Restart
      ensures assessments[i].needsHeal <==> data[i].crashReason == "pgdata_corruption"
    {
      PrimaryNeedsHealIffCorrupt(data[i], position, primaryName, cmp);
    }
    var t := HealTarget(primaryName, Reseed);
    TargetsAre(assessments, t);
    if ReportedCorrupt(data, primaryName) {
      var i :| 0 <= i < |data| && data[i].pod == primaryName && data[i].crashReason == "pgdata_corruption";
      assert Plans(assessments[i], t);
    }
    if u :| u in TargetsOf(assessments) && u.pod == primaryName {
      TargetsAre(assessments, u);
      var i :| 0 <= i < |assessments| && Plans(assessments[i], u);
      assert data[i].pod == primaryName;
    }
  }

  /** Unforced healing of one member: the same, and the target is never the primary. */
  lemma TargetedHealLosesNothing(data: seq<Collected>, primaryName: string, content: Option<Comparator>, extent: Extent,
                                 cmp: DataComparison, target: string, pvcExists: bool) returns (source: Instance)
    requires TriageInputs(data, primaryName, content, extent, cmp)
    requires HealTarget(target, Reseed) in
             (match TargetedPlan(target, primaryName, cmp, Assessments(data, primaryName, cmp), false, pvcExists)
              case Targets(ts) => ts case Refused => [])
    ensures source.pod == primaryName && source in Inputs(data, primaryName)
    ensures DiscardLosesNothing(data, primaryName, extent, target, source)
    ensures forall i :: 0 <= i < |data| ==> InputFor(data[i], primaryName).readState != Unread
  {
    source := AuthorityHoldsEverything(data, primaryName, content, extent, cmp);
  }

  /** A promotion that does not override a divergence, forced or not, rebuilds every other instance,
      and each of them loses nothing to the promoted one. */
  lemma PromotionLosesNothing(data: seq<Collected>, primaryName: string, content: Option<Comparator>, extent: Extent,
                              cmp: DataComparison, target: string, force: bool) returns (source: Instance)
    requires TriageInputs(data, primaryName, content, extent, cmp)
    requires PromotionPlan(target, cmp, Assessments(data, primaryName, cmp), force).Promotion?
    requires !PromotionPlan(target, cmp, Assessments(data, primaryName, cmp), force).diverged
    ensures source in Inputs(data, primaryName) && source.pod == target != primaryName
    ensures var p := PromotionPlan(target, cmp, Assessments(data, primaryName, cmp), force);
            && p.authority == target && target !in p.rebuild
            && (forall q :: q in p.rebuild ==> DiscardLosesNothing(data, primaryName, extent, q, source))
            && (forall i :: 0 <= i < |data| ==> data[i].pod in p.recoverySet)
    ensures forall i :: 0 <= i < |data| ==> InputFor(data[i], primaryName).readState != Unread
  {
    source := AuthorityHoldsEverything(data, primaryName, content, extent, cmp);
    var assessments := Assessments(data, primaryName, cmp);
    forall i | 0 <= i < |data| ensures data[i].pod == target || data[i].pod in OtherPods(assessments, target) {
      assert assessments[i] in assessments;
    }
  }

  /** The rows an instance has written, by its WAL alone. */
  ghost function WALExtent(): Extent {
    (x, y) => Contains(y, x)
  }

  ghost predicate LosesNoWAL(data: seq<Collected>, primaryName: string, pod: string, source: Instance) {
    pod != source.pod && forall i :: 0 <= i < |data| && data[i].pod == pod ==>
      ProvenEmpty(data[i]) || Contains(source, InputFor(data[i], primaryName))
  }

  lemma LosingNothingKeepsTheWAL(data: seq<Collected>, primaryName: string, pod: string, source: Instance)
    requires DiscardLosesNothing(data, primaryName, WALExtent(), pod, source)
    ensures LosesNoWAL(data, primaryName, pod, source)
  {}

  /** By WAL lineage alone, losing nothing means the target's WAL is inside the source's. */
  lemma LineageOnlyHealLosesNoWAL(data: seq<Collected>, primaryName: string, cmp: DataComparison)
    returns (source: Instance)
    requires IsComparison(data, primaryName, None, cmp) && LineagesAreWellFormed(data, primaryName) && NamedPods(data)
    requires UntargetedPlan(cmp, Assessments(data, primaryName, cmp)).Targets?
    ensures source in Inputs(data, primaryName) && source.pod == primaryName
    ensures forall t ::
              t in UntargetedPlan(cmp, Assessments(data, primaryName, cmp)).targets && t.pod != primaryName ==>
              LosesNoWAL(data, primaryName, t.pod, source)
  {
    WALExtentIsExtent(Inputs(data, primaryName));
    source := UntargetedHealLosesNothing(data, primaryName, None, WALExtent(), cmp);
    forall t | t in UntargetedPlan(cmp, Assessments(data, primaryName, cmp)).targets && t.pod != primaryName
      ensures LosesNoWAL(data, primaryName, t.pod, source)
    {
      LosingNothingKeepsTheWAL(data, primaryName, t.pod, source);
    }
  }

  /** The rebuild clones whatever is primary by then. From the triaged primary a planned target
      loses no WAL; from any other instance x exactly when it wrote past the point where the two
      histories part. */
  lemma RebuildLosesWALIff(data: seq<Collected>, primaryName: string, cmp: DataComparison, t: HealTarget, i: nat,
                           x: Instance) returns (source: Instance)
    requires IsComparison(data, primaryName, None, cmp) && LineagesAreWellFormed(data, primaryName) && NamedPods(data)
    requires UntargetedPlan(cmp, Assessments(data, primaryName, cmp)).Targets?
    requires t in UntargetedPlan(cmp, Assessments(data, primaryName, cmp)).targets && t.pod != primaryName
    requires i < |data| && data[i].pod == t.pod && !ProvenEmpty(data[i]) && WellFormed(x)
    ensures source in Inputs(data, primaryName) && source.pod == primaryName
    ensures var y := InputFor(data[i], primaryName);
            && y.readState == Read && Contains(source, y)
            && (!Contains(x, y) <==> y.checkpointLSN > TrueFork(x, y))
  {
    WALExtentIsExtent(Inputs(data, primaryName));
    source := UntargetedHealLosesNothing(data, primaryName, None, WALExtent(), cmp);
    LosingNothingKeepsTheWAL(data, primaryName, t.pod, source);
    var y := InputFor(data[i], primaryName);
    assert Inputs(data, primaryName)[i] in Inputs(data, primaryName);
    ContainsIff(x, y);
  }

  lemma WALExtentIsExtent(insts: seq<Instance>)
    ensures IsExtent(WALExtent(), insts)
  {}

  /** An unread instance blocks every unforced plan that destroys a data directory. */
  lemma UnreadBlocksEveryPlan(data: seq<Collected>, primaryName: string, content: Option<Comparator>,
                              cmp: DataComparison,
                              i: nat, target: string, pvcExists: bool)
    requires IsComparison(data, primaryName, content, cmp)
    requires i < |data| && InputFor(data[i], primaryName).readState == Unread
    ensures var assessments := Assessments(data, primaryName, cmp);
            && UntargetedPlan(cmp, assessments) == Refused
            && TargetedPlan(target, primaryName, cmp, assessments, false, pvcExists) == Refused
            && (forall force :: PromotionPlan(target, cmp, assessments, force) == Rejected)
  {
    UnreadBlocksAuthority(data, primaryName, content, cmp, i);
    var assessments := Assessments(data, primaryName, cmp);
    var a := FirstFor(assessments, target);
    if a.Some? {
      var j :| 0 <= j < |assessments| && assessments[j] == a.value;
      if assessments[j].remediation == Restart { RestartKeepsTheTimeline(data, primaryName, cmp, j); }
    }
  }

  /** No flag reaches the authority: with a proven leader that is not the primary, neither a
      targeted heal nor a promotion of another instance is planned, forced or not. */
  lemma ForceNeverReachesTheAuthority(data: seq<Collected>, primaryName: string, content: Option<Comparator>,
                                      cmp: DataComparison, target: string, force: bool, pvcExists: bool)
    requires IsComparison(data, primaryName, content, cmp) && cmp.authority == LeaderNotPrimary
    ensures TargetedPlan(cmp.mostAdvanced, primaryName, cmp, Assessments(data, primaryName, cmp), force,
              pvcExists) == Refused
    ensures target != cmp.mostAdvanced ==>
              PromotionPlan(target, cmp, Assessments(data, primaryName, cmp), force) == Rejected
  {
    var d :| IsVerdict(Inputs(data, primaryName), content, d) && cmp == Project(d, primaryName);
    assert cmp.mostAdvanced != "";
  }

  // ----- two inputs the results leave out -----

  /** An instance on timeline tl with its checkpoint at lsn. */
  function OnTimeline(pod: string, tl: nat, lsn: nat, crashReason: string): Collected {
    Collected(pod, "exec", Print(tl, 10), PrintLSN(lsn), "", "", "", crashReason, false, false, false, false, 0)
  }

  lemma FirstTimelineInput(pod: string, tl: nat, lsn: nat, crashReason: string, primaryName: string)
    requires tl == 1 && lsn < TWO63
    ensures InputFor(OnTimeline(pod, tl, lsn, crashReason), primaryName) ==
            Instance(pod, pod == primaryName, Read, tl, lsn, [])
    ensures TrimSpace(Print(tl, 10)) == Print(tl, 10) != "unknown" && TrimSpace(PrintLSN(lsn)) == PrintLSN(lsn)
    ensures History.ParseTimelineInt(Print(tl, 10)) == tl && History.ParseLSNValue(PrintLSN(lsn)) == lsn
  {
    History.TimelineRoundTrip(tl);
    History.LSNRoundTrip(lsn);
    History.LSNIsWord(lsn);
    History.HexIsPlain(tl);
    TrimNothing(Print(tl, 10));
    TrimNothing(PrintLSN(lsn));
    assert IsUpperHex(Print(tl, 10)[0]);
    NoHistory(tl);
  }

  lemma NoHistory(tl: nat)
    ensures History.LineageOf("", tl) == []
  {
    assert !History.HasSubstring("", "###");
    assert Split("", '\n') == [""] && [""][..0] == [];
  }

  lemma OneCollected(c: Collected, p: Instance)
    requires InputFor(c, p.pod) == p && p.readState == Read && p.pod != ""
    ensures IsComparison([c], p.pod, None, Project(Decision(true, p.pod, false, [], []), p.pod))
  {
    OneIsElected(p);
    VerdictIsComparison([c], p.pod, [p], Decision(true, p.pod, false, [], []));
  }

  lemma OneIsElected(p: Instance)
    requires p.readState == Read
    ensures IsVerdict([p], None, Decision(true, p.pod, false, [], []))
  {
    AllReadable([p]);
  }

  /** A corrupt primary that was read is proven the authority, and is itself to be reseeded. */
  lemma CorruptPrimaryIsTargeted(tl: nat, lsn: nat) returns (data: seq<Collected>, cmp: DataComparison)
    requires tl == 1 && lsn < TWO63
    ensures IsComparison(data, "pg-1", None, cmp) && cmp.safeToHeal && ReportedCorrupt(data, "pg-1")
    ensures exists t :: t in UntargetedPlan(cmp, Assessments(data, "pg-1", cmp)).targets && t.pod == "pg-1"
  {
    var c := OnTimeline("pg-1", tl, lsn, "pgdata_corruption");
    FirstTimelineInput("pg-1", tl, lsn, "pgdata_corruption", "pg-1");
    data, cmp := [c], Project(Decision(true, "pg-1", false, [], []), "pg-1");
    OneCollected(c, Instance("pg-1", true, Read, tl, lsn, []));
    assert data[0].pod == "pg-1" && data[0].crashReason == "pgdata_corruption";
    PrimaryIsTargetIffCorrupt(data, "pg-1", cmp);
  }

  lemma {:induction false} AllReadable(insts: seq<Instance>)
    requires forall i :: 0 <= i < |insts| ==> insts[i].readState == Read
    ensures ReadableOf(insts) == insts && UnreadOf(insts) == []
  {
    if insts != [] {
      var init, last := insts[..|insts| - 1], insts[|insts| - 1];
      AllReadable(init);
      ReadableSnoc(init, last);
      assert insts == init + [last];
    }
  }

  lemma ReadableSnoc(init: seq<Instance>, last: Instance)
    requires last.readState == Read
    ensures ReadableOf(init + [last]) == ReadableOf(init) + [last] && UnreadOf(init + [last]) == UnreadOf(init)
  {
    assert (init + [last])[..|init|] == init;
  }

  /** Two points of one history. */
  predicate OneHistory(x: Instance, y: Instance) {
    x.timeline == y.timeline && x.switches == y.switches
  }

  lemma OneHistoryNeverDiverges(x: Instance, y: Instance)
    requires OneHistory(x, y)
    ensures Relate(x, y).0 == if x.checkpointLSN > y.checkpointLSN then ADominatesB
                              else if y.checkpointLSN > x.checkpointLSN then BDominatesA else Equal
  {
    PrefixIsUnique(x.switches, y.switches, |x.switches|, CommonPrefixLen(x.switches, y.switches));
  }

  ghost predicate FirstLeads(r: seq<Instance>) {
    forall i :: 0 < i < |r| ==> !r[i].isPrimary && r[0].checkpointLSN >= r[i].checkpointLSN
  }

  /** Readable instances of one history: the primary is elected unless another is further. */
  lemma FurthestIsElected(r: seq<Instance>)
    requires |r| > 1 && r[0].isPrimary && FirstLeads(r)
    requires forall i :: 0 <= i < |r| ==> r[i].readState == Read
    requires forall i, j :: 0 <= i < |r| && 0 <= j < |r| ==> OneHistory(r[i], r[j])
    ensures IsVerdict(r, None, Decision(true, r[0].pod, false, [], []))
  {
    AllReadable(r);
    forall i, j | 0 <= i < j < |r| ensures !Diverges(r, None, i, j) { OneHistoryNeverDiverges(r[i], r[j]); }
    forall i | 0 < i < |r| ensures !Beats(r, None, i, 0) { OneHistoryNeverDiverges(r[0], r[i]); }
    assert Undominated(r, None, 0);
    PrecedesIsTotal(r[0], r[0]);
    assert IsLeader(r, None, 0);
  }

  lemma StrandedIsReseeded(primaryName: string, pod: string, tl: nat, lsn: nat, primaryLSN: nat, cmp: DataComparison)
    requires pod != primaryName && tl == 1 && lsn < primaryLSN < TWO63 && cmp.safeToHeal
    ensures var a := AssessInstance(OnTimeline(pod, tl, lsn, ""), Print(tl, 10), PrintLSN(primaryLSN), primaryName,
              cmp);
            Plans(a, HealTarget(pod, Reseed))
  {
    FirstTimelineInput(pod, tl, lsn, "", primaryName);
    FirstTimelineInput(pod, tl, primaryLSN, "", primaryName);
  }

  ghost predicate ReadAs(data: seq<Collected>, primaryName: string, r: seq<Instance>) {
    |r| == |data| && forall i :: 0 <= i < |r| ==> InputFor(data[i], primaryName) == r[i]
  }

  lemma VerdictIsComparison(data: seq<Collected>, primaryName: string, insts: seq<Instance>, d: Decision)
    requires ReadAs(data, primaryName, insts) && IsVerdict(insts, None, d)
    ensures IsComparison(data, primaryName, None, Project(d, primaryName))
  {
    assert Inputs(data, primaryName) == insts;
  }

  datatype Member = Member(pod: string, lsn: nat)

  function Collect(ms: seq<Member>, tl: nat): seq<Collected> {
    seq(|ms|, i requires 0 <= i < |ms| => OnTimeline(ms[i].pod, tl, ms[i].lsn, ""))
  }

  function Positions(ms: seq<Member>, tl: nat): seq<Instance>
    requires ms != []
  {
    seq(|ms|, i requires 0 <= i < |ms| => Instance(ms[i].pod, ms[i].pod == ms[0].pod, Read, tl, ms[i].lsn, []))
  }

  /** Members of one history; the first, the primary, is ahead of all others. */
  ghost predicate Trailing(ms: seq<Member>) {
    && |ms| > 1 && ms[0].pod != "" && ms[0].lsn < TWO63
    && forall i :: 0 < i < |ms| ==> ms[i].pod != ms[0].pod && ms[i].lsn < ms[0].lsn
  }

  lemma TrailingIsDecided(ms: seq<Member>, tl: nat)
    requires Trailing(ms) && tl == 1
    ensures IsComparison(Collect(ms, tl), ms[0].pod, None, Project(Decision(true, ms[0].pod, false, [], []), ms[0].pod))
  {
    var data, r := Collect(ms, tl), Positions(ms, tl);
    forall i | 0 <= i < |data| ensures InputFor(data[i], ms[0].pod) == r[i] {
      FirstTimelineInput(ms[i].pod, tl, ms[i].lsn, "", ms[0].pod);
    }
    FurthestIsElected(r);
    VerdictIsComparison(data, ms[0].pod, r, Decision(true, ms[0].pod, false, [], []));
  }

  /** A rebuild streams from whoever is primary by then. With the triaged primary still in
      place a planned target loses nothing; after a failover to member j, the target i loses WAL
      exactly when it was ahead of j. */
  lemma FailoverLosesWAL(ms: seq<Member>, tl: nat, i: nat, j: nat) returns (cmp: DataComparison)
    requires Trailing(ms) && tl == 1 && 0 < i < |ms| && 0 < j < |ms|
    ensures IsComparison(Collect(ms, tl), ms[0].pod, None, cmp) && cmp.safeToHeal
    ensures HealTarget(ms[i].pod, Reseed) in UntargetedPlan(cmp, Assessments(Collect(ms, tl), ms[0].pod, cmp)).targets
    ensures Contains(Positions(ms, tl)[0], Positions(ms, tl)[i])
    ensures Contains(Positions(ms, tl)[j], Positions(ms, tl)[i]) <==> ms[i].lsn <= ms[j].lsn
  {
    cmp := Project(Decision(true, ms[0].pod, false, [], []), ms[0].pod);
    TrailingIsDecided(ms, tl);
    var r := Positions(ms, tl);
    SameHistoryContains(r[0], r[i]);
    SameHistoryContains(r[j], r[i]);
    TrailingIsPlanned(ms, tl, i, cmp);
  }

  lemma SameHistoryContains(x: Instance, y: Instance)
    requires OneHistory(x, y) && x.switches == [] && x.checkpointLSN >= 0 && y.checkpointLSN >= 0
    ensures Contains(x, y) <==> y.checkpointLSN <= x.checkpointLSN
  {
    PrefixIsUnique(x.switches, y.switches, 0, CommonPrefixLen(x.switches, y.switches));
    ContainsIff(x, y);
  }

  lemma TrailingIsPlanned(ms: seq<Member>, tl: nat, i: nat, cmp: DataComparison)
    requires Trailing(ms) && tl == 1 && 0 < i < |ms| && cmp.safeToHeal
    ensures HealTarget(ms[i].pod, Reseed) in UntargetedPlan(cmp, Assessments(Collect(ms, tl), ms[0].pod, cmp)).targets
  {
    var data, a := Collect(ms, tl), ms[0].pod;
    FirstTimelineInput(a, tl, ms[0].lsn, "", a);
    assert PrimaryPosition(data, a) == (Print(tl, 10), PrintLSN(ms[0].lsn)) by { assert data[0].pod == a; }
    StrandedIsReseeded(a, ms[i].pod, tl, ms[i].lsn, ms[0].lsn, cmp);
    TargetsAre(Assessments(data, a, cmp), HealTarget(ms[i].pod, Reseed));
    assert Plans(Assessments(data, a, cmp)[i], HealTarget(ms[i].pod, Reseed));
  }
}
