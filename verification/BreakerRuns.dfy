// Concrete triages and runs of the deadlock breaker: a deadlock it can break, the re-triage it
// does not check, and the primary it clones from.
module BreakerRuns {
  import opened Options
  import opened Text
  import opened Numbers
  import opened Faults
  import opened FenceList
  import opened Trail
  import opened OfflineJob
  import opened BreakerScript
  import opened Comparison
  import opened RecoveryProof
  import opened DeadlockBreaker
  import opened Lineage
  import Authority
  import ContentAuthority
  import ExactPlans
  import HealPlan
  import History

  // ----- when there is a deadlock -----

  /** An instance that may be cleared: its data is corrupt, or it is no authority and its data is on
      a dead branch, or on the primary's timeline behind it, with nothing left to catch up from. */
  predicate MayBeCleared(c: Collected, position: (string, string), primaryName: string, mostAdvanced: string) {
    || c.crashReason == "pgdata_corruption"
    || (c.pod != primaryName && c.pod != mostAdvanced && c.source != "none" &&
        (|| ExactPlans.OnEarlierTimeline(c, position)
         || (ExactPlans.OnSameTimeline(c, position) && ExactPlans.Trails(c, position) &&
             !c.streaming && !c.missing && !c.slotRetainsWAL && c.crashReason != "disk_full")))
  }

  /** Of those, the ones whose full disk is what freezes the cluster: a replica on a dead branch, or
      the primary itself when it is corrupt and its disk is at 90 percent. */
  predicate FreezesTheCluster(c: Collected, position: (string, string), primaryName: string, mostAdvanced: string) {
    if c.pod == primaryName then c.crashReason == "pgdata_corruption" && c.diskPct >= 90
    else c.pod != mostAdvanced && c.source != "none" && c.crashReason == "disk_full" &&
         ExactPlans.OnEarlierTimeline(c, position)
  }

  lemma AssessedDisposable(c: Collected, position: (string, string), primaryName: string, cmp: DataComparison)
    requires cmp.safeToHeal
    ensures var a := AssessInstance(c, position.0, position.1, primaryName, cmp);
            && (a.classification == ClassDisposable <==> MayBeCleared(c, position, primaryName, cmp.mostAdvanced))
            && (a.classification == ClassDisposable && a.diskFullNote <==>
                  FreezesTheCluster(c, position, primaryName, cmp.mostAdvanced))
  {}

  /** Exactly these pods are listed as disposable, under a proven authority only. */
  lemma DisposableIff(o: Observed, pod: string)
    ensures pod in DisposableOf(SnapshotOf(o)) <==>
            && o.cmp.safeToHeal && o.primaryName != ""
            && exists i :: 0 <= i < |o.data| && o.data[i].pod == pod &&
                 MayBeCleared(o.data[i], PrimaryPosition(o.data, o.primaryName), o.primaryName, o.cmp.mostAdvanced)
  {
    var assessments, position := SnapshotOf(o).assessments, PrimaryPosition(o.data, o.primaryName);
    if o.cmp.safeToHeal {
      forall i | 0 <= i < |o.data|
        ensures assessments[i].classification == ClassDisposable <==>
                MayBeCleared(o.data[i], position, o.primaryName, o.cmp.mostAdvanced)
      {
        AssessedDisposable(o.data[i], position, o.primaryName, o.cmp);
      }
      if i :| 0 <= i < |o.data| && o.data[i].pod == pod &&
              MayBeCleared(o.data[i], position, o.primaryName, o.cmp.mostAdvanced) {
        assert assessments[i] in assessments && assessments[i].pod == pod;
      }
    }
  }

  /** To be made reversible: the disposable pods, and a primary that is down. */
  lemma RecoverySetIff(o: Observed, pod: string)
    ensures pod in RecoverySetOf(SnapshotOf(o)) <==>
            || pod in DisposableOf(SnapshotOf(o))
            || (pod == o.primaryName && !o.primaryRunning && DisposableOf(SnapshotOf(o)) != [])
  {}

  lemma FrozenIff(data: seq<Collected>, primaryName: string, cmp: DataComparison)
    requires cmp.safeToHeal
    ensures DiskFullDisposable(Assessments(data, primaryName, cmp)) <==>
            exists i :: 0 <= i < |data| &&
              FreezesTheCluster(data[i], PrimaryPosition(data, primaryName), primaryName, cmp.mostAdvanced)
  {
    var assessments, position := Assessments(data, primaryName, cmp), PrimaryPosition(data, primaryName);
    forall i | 0 <= i < |data|
      ensures assessments[i].classification == ClassDisposable && assessments[i].diskFullNote <==>
              FreezesTheCluster(data[i], position, primaryName, cmp.mostAdvanced)
    {
      AssessedDisposable(data[i], position, primaryName, cmp);
    }
  }

  lemma SomeoneIsDisposable(assessments: seq<Assessment>)
    requires DiskFullDisposable(assessments)
    ensures DisposablePods(assessments) != []
  {
    var i :| 0 <= i < |assessments| && assessments[i].classification == ClassDisposable && assessments[i].diskFullNote;
    assert assessments[i] in assessments;
    assert assessments[i].pod in DisposablePods(assessments);
  }

  lemma BlockedIff(assessments: seq<Assessment>, cmp: DataComparison, primaryName: string, notEnoughDiskSpace: bool,
                   primaryRunning: bool)
    requires cmp.safeToHeal && primaryName != ""
    ensures var r := RecoveryOf(assessments, cmp, primaryName, notEnoughDiskSpace, primaryRunning);
            r.Some? && r.value.blocked <==> notEnoughDiskSpace && DiskFullDisposable(assessments) && !primaryRunning
  {
    if DiskFullDisposable(assessments) { SomeoneIsDisposable(assessments); }
  }

  /** The breaker may act exactly when a proven primary is down, the cluster reports too little disk
      space, and some disposable instance is what froze it. */
  lemma BreakableIff(o: Observed)
    ensures Breakable(SnapshotOf(o)) <==>
            && o.cmp.safeToHeal && o.primaryName != "" && !o.primaryRunning && o.notEnoughDiskSpace
            && exists i :: 0 <= i < |o.data| &&
                 FreezesTheCluster(o.data[i], PrimaryPosition(o.data, o.primaryName), o.primaryName,
                   o.cmp.mostAdvanced)
  {
    if o.cmp.safeToHeal && o.primaryName != "" {
      FrozenIff(o.data, o.primaryName, o.cmp);
      BlockedIff(SnapshotOf(o).assessments, o.cmp, o.primaryName, o.notEnoughDiskSpace, o.primaryRunning);
    }
  }

  // ----- a deadlock -----

  /** An instance read on timeline tl with its checkpoint at lsn and these history files. */
  function Printed(pod: string, tl: nat, lsn: nat, raw: string, crashReason: string): Collected {
    Collected(pod, "exec", Print(tl, 10), PrintLSN(lsn), raw, "yes", "Bound", crashReason,
              false, false, false, false, 0)
  }

  lemma PrintedIsPlain(tl: nat, lsn: nat)
    requires 0 < tl < TWO63 && lsn < TWO63
    ensures TrimSpace(Print(tl, 10)) == Print(tl, 10) && Print(tl, 10) != "" && Print(tl, 10) != "unknown"
    ensures TrimSpace(PrintLSN(lsn)) == PrintLSN(lsn)
    ensures History.ParseTimelineInt(Print(tl, 10)) == tl && History.ParseLSNValue(PrintLSN(lsn)) == lsn
  {
    History.TimelineRoundTrip(tl);
    History.LSNRoundTrip(lsn);
    History.LSNIsWord(lsn);
    History.HexIsPlain(tl);
    TrimNothing(Print(tl, 10));
    TrimNothing(PrintLSN(lsn));
    assert IsUpperHex(Print(tl, 10)[0]);
  }

  lemma PrintedInput(pod: string, tl: nat, lsn: nat, raw: string, crashReason: string, primaryName: string)
    requires 0 < tl < TWO63 && lsn < TWO63 && (tl > 1 ==> History.LineageOf(raw, tl) != [])
    ensures InputFor(Printed(pod, tl, lsn, raw, crashReason), primaryName) ==
            Instance(pod, pod == primaryName, Read, tl, lsn, History.LineageOf(raw, tl))
  {
    PrintedIsPlain(tl, lsn);
  }

  /** The history file of a timeline forked from the first one at position s. */
  function ForkFile(tl: nat, s: nat): string {
    TrimSpace(Terminated(History.BlobLines([History.HistoryFile(tl, [History.Entry(1, s, "")])]), '\n'))
  }

  lemma ForkIsRead(tl: nat, s: nat)
    requires 1 < tl && 0 < s < TWO63
    ensures History.LineageOf(ForkFile(tl, s), tl) == [SwitchPoint(1, s)]
  {
    var e := History.Entry(1, s, "");
    History.HistoryRoundTrip([History.HistoryFile(tl, [e])], tl);
    assert History.Chain([e]) == [History.SwitchOf(e)] by { assert [e][..0] == []; }
    History.LSNRoundTrip(s);
  }

  /** The primary failed over to a new timeline at s; the other member stayed behind, disk-full. */
  function Pair(tl: nat, s: nat, own: nat, theirs: nat): seq<Collected> {
    [Printed("pg-1", tl, own, ForkFile(tl, s), ""), Printed("pg-2", 1, theirs, "", "disk_full")]
  }

  function Deadlock(tl: nat, s: nat, own: nat, theirs: nat): Observed {
    Observed(Pair(tl, s, own, theirs), "pg-1", DataComparison(Provable, "pg-1", true), true, false)
  }

  predicate Forked(tl: nat, s: nat, own: nat, theirs: nat) {
    1 < tl < TWO63 && theirs <= s <= own < TWO63 && 0 < s
  }

  lemma AncestorIsDominated(a: Instance, b: Instance, s: int)
    requires a.switches == [SwitchPoint(b.timeline, s)] && b.switches == [] && b.checkpointLSN <= s
    ensures Relate(a, b).0 == ADominatesB
  {
    PrefixIsUnique(a.switches, b.switches, 0, CommonPrefixLen(a.switches, b.switches));
  }

  /** Of two read instances by lineage alone, the one that dominates is elected. */
  lemma DominatorIsElected(a: Instance, b: Instance)
    requires a.readState == Read && b.readState == Read && Relate(a, b).0 == ADominatesB
    ensures Authority.IsVerdict([a, b], None, Authority.Decision(true, a.pod, false, [], []))
  {
    var r := [a, b];
    HealPlan.AllReadable(r);
    assert !Authority.Diverges(r, None, 0, 1);
    assert Authority.Beats(r, None, 0, 1) && !Authority.Beats(r, None, 1, 0) && !Authority.Beats(r, None, 0, 0);
    assert Authority.Undominated(r, None, 0) && !Authority.Undominated(r, None, 1);
    Authority.PrecedesIsTotal(a, a);
    assert Authority.IsLeader(r, None, 0);
  }

  function Ahead(tl: nat, s: nat, own: nat): Instance {
    Instance("pg-1", true, Read, tl, own, [SwitchPoint(1, s)])
  }

  function Behind(theirs: nat): Instance {
    Instance("pg-2", false, Read, 1, theirs, [])
  }

  lemma AheadIsRead(tl: nat, s: nat, own: nat)
    requires Forked(tl, s, own, 0)
    ensures InputFor(Printed("pg-1", tl, own, ForkFile(tl, s), ""), "pg-1") == Ahead(tl, s, own)
  {
    ForkIsRead(tl, s);
    PrintedInput("pg-1", tl, own, ForkFile(tl, s), "", "pg-1");
  }

  lemma BehindIsRead(tl: nat, theirs: nat)
    requires tl == 1 && theirs < TWO63
    ensures InputFor(Printed("pg-2", tl, theirs, "", "disk_full"), "pg-1") == Behind(theirs)
  {
    HealPlan.NoHistory(tl);
    PrintedInput("pg-2", tl, theirs, "", "disk_full", "pg-1");
  }

  lemma TwoInputs(c: Collected, d: Collected, primaryName: string, x: Instance, y: Instance)
    requires InputFor(c, primaryName) == x && InputFor(d, primaryName) == y
    ensures Inputs([c, d], primaryName) == [x, y]
  {
    var r := Inputs([c, d], primaryName);
    assert r[0] == InputFor([c, d][0], primaryName) && r[1] == InputFor([c, d][1], primaryName);
  }

  lemma PairIsRead(tl: nat, s: nat, own: nat, theirs: nat)
    requires Forked(tl, s, own, theirs)
    ensures Inputs(Pair(tl, s, own, theirs), "pg-1") == [Ahead(tl, s, own), Behind(theirs)]
  {
    AheadIsRead(tl, s, own);
    BehindIsRead(1, theirs);
    TwoInputs(Pair(tl, s, own, theirs)[0], Pair(tl, s, own, theirs)[1], "pg-1", Ahead(tl, s, own), Behind(theirs));
  }

  lemma PairIsDecided(tl: nat, s: nat, own: nat, theirs: nat)
    requires Forked(tl, s, own, theirs)
    ensures IsComparison(Pair(tl, s, own, theirs), "pg-1", None, DataComparison(Provable, "pg-1", true))
  {
    var a, b := Ahead(tl, s, own), Behind(theirs);
    PairIsRead(tl, s, own, theirs);
    AncestorIsDominated(a, b, s);
    DominatorIsElected(a, b);
    var d := Authority.Decision(true, "pg-1", false, [], []);
    assert Project(d, "pg-1") == DataComparison(Provable, "pg-1", true);
  }

  lemma PairIsAssessed(tl: nat, s: nat, own: nat, theirs: nat)
    requires Forked(tl, s, own, theirs)
    ensures var t := SnapshotOf(Deadlock(tl, s, own, theirs)).assessments;
            && |t| == 2 && t[0].classification != ClassDisposable
            && t[1].classification == ClassDisposable && t[1].diskFullNote && t[1].pod == "pg-2"
  {
    PrintedIsPlain(tl, own);
    PrintedIsPlain(1, theirs);
    var data := Pair(tl, s, own, theirs);
    assert data[0].pod == "pg-1";
    assert PrimaryPosition(data, "pg-1") == (Print(tl, 10), PrintLSN(own));
  }

  lemma OnlyTheSecond(t: seq<Assessment>)
    requires |t| == 2 && t[0].classification != ClassDisposable && t[1].classification == ClassDisposable
    ensures DisposablePods(t) == [t[1].pod] && (t[1].diskFullNote ==> DiskFullDisposable(t))
  {
    var first := t[..1];
    assert first[..0] == [];
    assert DisposablePods(first) == [];
  }

  lemma Projected(t: seq<Assessment>, cmp: DataComparison, primary: string, pod: string)
    requires DisposablePods(t) == [pod] && DiskFullDisposable(t) && cmp.safeToHeal && primary != ""
    ensures RecoveryOf(t, cmp, primary, true, false) ==
            Some(Recovery(true, DiskFullDisposableReplica, primary, [pod], [primary, pod]))
  {
    assert [primary] + [pod] == [primary, pod];
  }

  /** A triage the code can produce, and a deadlock the breaker may break. */
  lemma DeadlockIsBreakable(tl: nat, s: nat, own: nat, theirs: nat)
    requires Forked(tl, s, own, theirs)
    ensures var o := Deadlock(tl, s, own, theirs);
            && IsComparison(o.data, o.primaryName, None, o.cmp) && Breakable(SnapshotOf(o))
            && SnapshotOf(o).recovery ==
               Some(Recovery(true, DiskFullDisposableReplica, "pg-1", ["pg-2"], ["pg-1", "pg-2"]))
            && SnapshotOf(o).authorityStatus == "unambiguous"
  {
    PairIsDecided(tl, s, own, theirs);
    PairIsAssessed(tl, s, own, theirs);
    var o := Deadlock(tl, s, own, theirs);
    var t := SnapshotOf(o).assessments;
    OnlyTheSecond(t);
    Projected(t, o.cmp, "pg-1", "pg-2");
  }

  lemma LSNIsDelimited(lsn: nat)
    ensures Delimited(PrintLSN(lsn))
  {
    var text := PrintLSN(lsn);
    forall i | 0 <= i < |text| ensures text[i] == '/' || IsUpperHex(text[i]) {
      assert text[i] in text;
    }
  }

  lemma DeadlockIsDelimited(tl: nat, s: nat, own: nat, theirs: nat)
    requires Forked(tl, s, own, theirs)
    ensures DelimiterFree(SnapshotOf(Deadlock(tl, s, own, theirs)))
    ensures DistinctPods(SnapshotOf(Deadlock(tl, s, own, theirs)).assessments)
  {
    var o := Deadlock(tl, s, own, theirs);
    var t := SnapshotOf(o);
    DeadlockIsBreakable(tl, s, own, theirs);
    assert t.assessments[0].pod == "pg-1" && Delimited(t.assessments[0].lsn) by {
      AssessmentFields(o, 0);
      PrintedIsPlain(tl, own);
      LSNIsDelimited(own);
    }
    assert t.assessments[1].pod == "pg-2" && Delimited(t.assessments[1].lsn) by {
      AssessmentFields(o, 1);
      PrintedIsPlain(1, theirs);
      LSNIsDelimited(theirs);
    }
    SmallSnapshotIsDelimited(t);
  }

  lemma SmallSnapshotIsDelimited(t: Snapshot)
    requires |t.assessments| == 2 && t.recovery.Some? && t.authorityStatus == "unambiguous"
    requires t.assessments[0].pod == "pg-1" && t.assessments[1].pod == "pg-2"
    requires Delimited(t.assessments[0].lsn) && Delimited(t.assessments[1].lsn)
    requires t.recovery.value.authority == "pg-1" && t.recovery.value.disposable == ["pg-2"]
    requires t.recovery.value.recoverySet == ["pg-1", "pg-2"]
    ensures DelimiterFree(t) && DistinctPods(t.assessments)
  {
    assert Delimited("unambiguous") && Delimited("pg-1") && Delimited("pg-2");
    assert "pg-1"[3] != "pg-2"[3];
  }

  // ----- runs -----

  /** Every call is done, and the triages from the third call on find pg-1 unreadable. */
  method NewBreaker(first: Observed, later: Observed, live: string, digest: string -> string) returns (b: Breaker)
    ensures fresh(b) && fresh(b.cluster) && b.digest == digest
    ensures b.cluster.log == [] && b.cluster.calls == 0 && b.cluster.helper == None && b.cluster.annotation == None
    ensures (forall n: nat :: b.cluster.fate(n) == Done) && forall n: nat :: b.primaryAt(n) == live && b.addressed(n)
    ensures forall n: nat :: b.observed(n) == if n < 2 then first else later
  {
    var c := new Cluster((n: nat) => Done, (n: nat) => Succeeded, (n: nat) => false, None);
    b := new Breaker(c, (n: nat) => if n < 2 then first else later, (n: nat) => None, (n: nat) => 0,
                     (n: nat) => false, (n: nat) => true, (n: nat) => true, (n: nat) => live,
                     (pods: seq<string>) => 0, digest);
  }

  method ProveDrifted(first: Observed, i: nat, pvcs: seq<string>, digest: string -> string)
    returns (b: Breaker, stop: Option<Stop>, proof: Proof)
    requires CollisionFree(digest) && i < |first.data| && Breakable(SnapshotOf(first))
    ensures fresh(b) && fresh(b.cluster) && b.observed(2) == WithUnreadable(first, i) && stop == None
    ensures proof == BoundTo(SnapshotOf(WithUnreadable(first, i)), SnapshotOf(first).recovery.value, digest)
    ensures b.cluster.log == Opening(pvcs, proof)
    ensures !CanWork(b.cluster.helper) && b.cluster.annotation == None
  {
    b := NewBreaker(first, WithUnreadable(first, i), "", digest);
    var confirm;
    stop, confirm, proof := b.EscrowAndProve(SnapshotOf(first).recovery.value, pvcs);
    assert [] + Opening(pvcs, proof) == Opening(pvcs, proof);
  }

  /** Between the two triages of a breakable deadlock some instance becomes unreadable. The run
      captures, re-triages, finds its proof valid, puts it on record, and begins to clear. */
  method DriftedRun(first: Observed, i: nat, pvcs: seq<string>, cfg: Config, digest: string -> string)
    returns (b: Breaker, stop: Option<Stop>, proof: Proof)
    requires CollisionFree(digest) && i < |first.data| && Breakable(SnapshotOf(first))
    requires Plain(DisposableOf(SnapshotOf(first))[0])
    ensures var snap := SnapshotOf(first);
            && stop == None && b.observed(2) == WithUnreadable(first, i)
            && proof == BoundTo(SnapshotOf(WithUnreadable(first, i)), snap.recovery.value, digest)
            && Opening(pvcs, proof) + [Clear(DisposableOf(snap)[0])] <= b.cluster.log
  {
    b, stop, proof := ProveDrifted(first, i, pvcs, digest);
    var _ := b.ClearDatadirOffline(DisposableOf(SnapshotOf(first))[0], cfg);
  }

  // ----- what a re-clone may lose -----

  /** The pod is rebuilt from whatever pod the live read names, the triaged authority or not. */
  method StrayRun(o: Observed, pod: string, live: string, cfg: Config, digest: string -> string) returns (b: Breaker)
    requires Plain(pod) && pod != live && live != ""
    ensures [Rebuild(pod, live, live)] <= b.cluster.log
  {
    b := NewBreaker(o, o, live, digest);
    var _ := b.HealInstance(pod, live, cfg);
  }

  /** A disposable instance that was read loses WAL to a re-clone from x exactly when it wrote past
      the point where the two histories part; from the authority it loses none. */
  lemma RecloneLosesWALIff(o: Observed, i: nat, x: Instance) returns (authority: Instance)
    requires IsComparison(o.data, o.primaryName, None, o.cmp) && LineagesAreWellFormed(o.data, o.primaryName)
    requires NamedPods(o.data) && Breakable(SnapshotOf(o)) && i < |o.data| && !ProvenEmpty(o.data[i]) && WellFormed(x)
    ensures authority.pod == SnapshotOf(o).recovery.value.authority && authority in Inputs(o.data, o.primaryName)
    ensures var y := InputFor(o.data[i], o.primaryName);
            && Contains(authority, y) && (Contains(x, y) <==> y.checkpointLSN <= TrueFork(x, y))
  {
    HealPlan.WALExtentIsExtent(Inputs(o.data, o.primaryName));
    authority := AuthorityHoldsEverything(o.data, o.primaryName, None, HealPlan.WALExtent(), o.cmp);
    var y := InputFor(o.data[i], o.primaryName);
    assert Inputs(o.data, o.primaryName)[i] in Inputs(o.data, o.primaryName);
    ContainsIff(x, y);
  }

  /** In the deadlock above, a third member that was promoted meanwhile and had stayed further
      behind holds less: what the cleared member had written past it is then gone. */
  lemma StrayRecloneLosesWAL(tl: nat, s: nat, own: nat, theirs: nat, x: Instance)
    requires Forked(tl, s, own, theirs) && x.timeline == 1 && x.switches == [] && x.checkpointLSN >= 0
    ensures InputFor(Deadlock(tl, s, own, theirs).data[1], "pg-1") == Behind(theirs)
    ensures Contains(Ahead(tl, s, own), Behind(theirs))
    ensures Contains(x, Behind(theirs)) <==> theirs <= x.checkpointLSN
  {
    PairIsRead(tl, s, own, theirs);
    assert Inputs(Pair(tl, s, own, theirs), "pg-1")[1] == Behind(theirs);
    AncestorIsDominated(Ahead(tl, s, own), Behind(theirs), s);
    RelateSound(Ahead(tl, s, own), Behind(theirs));
    HealPlan.SameHistoryContains(x, Behind(theirs));
  }
}
