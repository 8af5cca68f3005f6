// From what triage collected about each instance to the authority comparison, the
// per-instance assessments and the recovery projection.
module Comparison {
  import opened Options
  import opened Text
  import opened Lineage
  import opened Authority
  import History

  /** Everything triage collected about one expected instance. */
  datatype Collected = Collected(
    pod: string,
    source: string,
    timeline: string,
    checkpoint: string,
    historyRaw: string,
    pgDataPresent: string,
    pvcState: string,
    crashReason: string,
    missing: bool,
    crashLooping: bool,
    streaming: bool,
    slotRetainsWAL: bool,
    diskPct: int)

  datatype Outcome = Provable | LeaderNotPrimary | Diverged | Undeterminable

  datatype DataComparison = DataComparison(authority: Outcome, mostAdvanced: string, safeToHeal: bool)

  // ----- the authority inputs -----

  predicate PositionRead(c: Collected) {
    TrimSpace(c.timeline) != "" && TrimSpace(c.timeline) != "unknown"
  }

  /** Positive proof that the instance has nothing to lose. */
  predicate ProvenEmpty(c: Collected) {
    !PositionRead(c) && (c.pgDataPresent == "empty" || c.pvcState == "MISSING")
  }

  function InputFor(c: Collected, primaryName: string): (x: Instance)
    ensures x.pod == c.pod && x.isPrimary == (c.pod == primaryName)
    ensures x.readState == AbsentNoData <==> ProvenEmpty(c)
    ensures x.readState == Read ==> PositionRead(c) && (x.timeline > 1 ==> x.switches != [])
  {
    if PositionRead(c) then
      var tl := History.ParseTimelineInt(TrimSpace(c.timeline));
      var lineage := History.LineageOf(c.historyRaw, tl);
      Instance(c.pod, c.pod == primaryName, if tl > 1 && lineage == [] then Unread else Read,
               tl, History.ParseLSNValue(TrimSpace(c.checkpoint)), lineage)
    else
      Instance(c.pod, c.pod == primaryName,
               if c.pgDataPresent == "empty" || c.pvcState == "MISSING" then AbsentNoData else Unread, 0, 0, [])
  }

  function Inputs(data: seq<Collected>, primaryName: string): (r: seq<Instance>)
    ensures |r| == |data| && forall i :: 0 <= i < |data| ==> r[i] == InputFor(data[i], primaryName)
  {
    seq(|data|, i requires 0 <= i < |data| => InputFor(data[i], primaryName))
  }

  method BuildInput(c: Collected, primaryName: string) returns (x: Instance)
    ensures x == InputFor(c, primaryName)
  {
    x := Instance(c.pod, c.pod == primaryName, Unread, 0, 0, []);
    var tl := TrimSpace(c.timeline);
    if tl != "" && tl != "unknown" {
      var n := History.ParseTimelineInt(tl);
      var raw := History.HistoryForTimeline(c.historyRaw, n);
      var switches := History.ParseTimelineHistory(raw);
      var lsn := History.ParseLSNValue(TrimSpace(c.checkpoint));
      x := x.(timeline := n, checkpointLSN := lsn, switches := switches,
              readState := if n > 1 && |switches| == 0 then Unread else Read);
    } else if c.pgDataPresent == "empty" {
      x := x.(readState := AbsentNoData);
    } else if c.pvcState == "MISSING" {
      x := x.(readState := AbsentNoData);
    }
  }

  method BuildAuthorityInputs(data: seq<Collected>, primaryName: string) returns (inputs: seq<Instance>)
    ensures inputs == Inputs(data, primaryName)
  {
    inputs := [];
    for i := 0 to |data|
      invariant |inputs| == i && forall j :: 0 <= j < i ==> inputs[j] == InputFor(data[j], primaryName)
    {
      var x := BuildInput(data[i], primaryName);
      inputs := inputs + [x];
    }
  }

  // ----- the comparison -----

  function Project(d: Decision, primaryName: string): (c: DataComparison)
    ensures c.safeToHeal <==> c.authority == Provable
    ensures c.authority == Provable <==> d.determinable && !d.diverged && d.leader == primaryName != ""
    ensures c.authority == LeaderNotPrimary <==>
              d.determinable && !d.diverged && d.leader != "" && d.leader != primaryName
    ensures c.authority == Provable || c.authority == LeaderNotPrimary ==> c.mostAdvanced == d.leader
  {
    var mostAdvanced := if d.leader == "" && d.determinable && !d.diverged then primaryName else d.leader;
    var outcome :=
      if !d.determinable then Undeterminable
      else if d.diverged then Diverged
      else if d.leader != "" && d.leader != primaryName then LeaderNotPrimary
      else if d.leader == primaryName && primaryName != "" then Provable
      else Undeterminable;
    DataComparison(outcome, mostAdvanced, outcome == Provable)
  }

  ghost predicate IsComparison(data: seq<Collected>, primaryName: string, content: Option<Comparator>,
                               c: DataComparison) {
    exists d :: IsVerdict(Inputs(data, primaryName), content, d) && c == Project(d, primaryName)
  }

  method CrossInstanceComparison(data: seq<Collected>, primaryName: string, content: Option<Comparator>)
    returns (c: DataComparison)
    ensures IsComparison(data, primaryName, content, c)
  {
    var inputs := BuildAuthorityInputs(data, primaryName);
    var d := DetermineAuthority(inputs, content);
    c := Project(d, primaryName);
  }

  /** Wherever the instance is read its chain is a possible history (switches ascend). */
  ghost predicate LineagesAreWellFormed(data: seq<Collected>, primaryName: string) {
    AllWellFormed(Inputs(data, primaryName))
  }

  ghost predicate NamedPods(data: seq<Collected>) {
    forall i :: 0 <= i < |data| ==> data[i].pod != ""
  }

  /** A proven authority holds every row of every instance that is not proven empty, and no
      instance was left unread. */
  lemma AuthorityHoldsEverything(data: seq<Collected>, primaryName: string, content: Option<Comparator>,
                                 extent: Extent, c: DataComparison) returns (authority: Instance)
    requires IsComparison(data, primaryName, content, c) && (c.authority == Provable || c.authority == LeaderNotPrimary)
    requires LineagesAreWellFormed(data, primaryName)
    requires IsExtent(extent, Inputs(data, primaryName)) && Sound(content, extent, Inputs(data, primaryName))
    requires NamedPods(data)
    ensures authority in Inputs(data, primaryName) && authority.readState == Read && authority.pod == c.mostAdvanced
    ensures c.authority == Provable ==> authority.pod == primaryName
    ensures forall i :: 0 <= i < |data| ==>
              ProvenEmpty(data[i]) || extent(InputFor(data[i], primaryName), authority)
    ensures forall i :: 0 <= i < |data| ==> InputFor(data[i], primaryName).readState != Unread
  {
    var insts := Inputs(data, primaryName);
    var d :| IsVerdict(insts, content, d) && c == Project(d, primaryName);
    UnreadOfHasNoSentinel(insts);
    authority := LeaderHoldsEveryExtent(insts, content, extent, d);
    forall i | 0 <= i < |data|
      ensures InputFor(data[i], primaryName).readState != Unread
      ensures ProvenEmpty(data[i]) || extent(InputFor(data[i], primaryName), authority)
    {
      assert insts[i] in insts;
    }
  }

  /** Any instance that could hold data but was not read makes authority undeterminable. */
  lemma UnreadBlocksAuthority(data: seq<Collected>, primaryName: string, content: Option<Comparator>,
                              c: DataComparison, i: nat)
    requires IsComparison(data, primaryName, content, c)
    requires i < |data| && InputFor(data[i], primaryName).readState == Unread
    ensures c.authority == Undeterminable && !c.safeToHeal && c.mostAdvanced == ""
  {
    var insts := Inputs(data, primaryName);
    UnreadOfHasNoSentinel(insts);
    assert insts[i] in insts;
  }

  lemma ReadableByIndex(insts: seq<Instance>)
    ensures ReadableOf(insts) != [] <==> exists i :: 0 <= i < |insts| && insts[i].readState == Read
    ensures (forall x :: x in insts ==> x.readState != Unread) <==>
            forall i :: 0 <= i < |insts| ==> insts[i].readState != Unread
  {
    if ReadableOf(insts) != [] {
      assert ReadableOf(insts)[0] in ReadableOf(insts);
    }
    if i :| 0 <= i < |insts| && insts[i].readState == Read {
      assert insts[i] in ReadableOf(insts);
    }
  }

  lemma ReadableIffSomeData(data: seq<Collected>, primaryName: string)
    ensures ReadableOf(Inputs(data, primaryName)) != [] <==>
            exists i :: 0 <= i < |data| && InputFor(data[i], primaryName).readState == Read
    ensures (forall x :: x in Inputs(data, primaryName) ==> x.readState != Unread) <==>
            forall i :: 0 <= i < |data| ==> InputFor(data[i], primaryName).readState != Unread
  {
    var insts := Inputs(data, primaryName);
    ReadableByIndex(insts);
    InputsByIndex(data, primaryName, insts);
  }

  lemma InputsByIndex(data: seq<Collected>, primaryName: string, insts: seq<Instance>)
    requires |insts| == |data| && forall i :: 0 <= i < |data| ==> insts[i] == InputFor(data[i], primaryName)
    ensures (exists i :: 0 <= i < |insts| && insts[i].readState == Read) <==>
            exists i :: 0 <= i < |data| && InputFor(data[i], primaryName).readState == Read
    ensures (forall i :: 0 <= i < |insts| ==> insts[i].readState != Unread) <==>
            forall i :: 0 <= i < |data| ==> InputFor(data[i], primaryName).readState != Unread
  {
    if i :| 0 <= i < |insts| && insts[i].readState == Read {
      assert InputFor(data[i], primaryName).readState == Read;
    }
  }

  lemma ElectedIsNamed(data: seq<Collected>, primaryName: string, d: Decision)
    requires NamedPods(data) && IsVerdict(Inputs(data, primaryName), None, d) && d.determinable && !d.diverged
    ensures d.leader != "" <==> ReadableOf(Inputs(data, primaryName)) != []
  {
    var insts := Inputs(data, primaryName);
    if ReadableOf(insts) != [] {
      var m := Elected(insts, None, d);
      assert ReadableOf(insts)[m] in insts;
    }
  }

  /** WAL lineage alone: with every instance read or proven empty the verdict is decided, so
      authority is undeterminable exactly when something is unread or there is no data. */
  lemma LineageAloneDecides(data: seq<Collected>, primaryName: string, c: DataComparison)
    requires IsComparison(data, primaryName, None, c) && LineagesAreWellFormed(data, primaryName) && NamedPods(data)
    ensures c.authority == Undeterminable <==>
            || (exists i :: 0 <= i < |data| && InputFor(data[i], primaryName).readState == Unread)
            || (forall i :: 0 <= i < |data| ==> InputFor(data[i], primaryName).readState == AbsentNoData)
  {
    var d :| IsVerdict(Inputs(data, primaryName), None, d) && c == Project(d, primaryName);
    LineageAlwaysElects(Inputs(data, primaryName), d);
    ReadableIffSomeData(data, primaryName);
    if d.determinable && !d.diverged { ElectedIsNamed(data, primaryName, d); }
  }

  // ----- assessments -----

  datatype Classification = ClassUnknown | ClassAuthoritative | ClassDisposable | ClassRecoverable
  datatype Remediation = NoRemedy | Restart | Reseed

  datatype Assessment = Assessment(
    pod: string,
    isPrimary: bool,
    timeline: int,
    lsn: string,
    classification: Classification,
    diskFullNote: bool,
    needsHeal: bool,
    remediation: Remediation)

  function ClassifyInstance(isPrimary: bool, isAuthority: bool, hasData: bool, safeToHeal: bool,
                            behindTL: bool, sameTL: bool, stranded: bool): Classification {
    if !hasData || !safeToHeal then ClassUnknown
    else if isPrimary || isAuthority then ClassAuthoritative
    else if behindTL || stranded then ClassDisposable
    else if sameTL then ClassRecoverable
    else ClassUnknown
  }

  /** The primary's own timeline and checkpoint as collected, "unknown" if it was not. */
  function PrimaryPosition(data: seq<Collected>, primaryName: string): (string, string) {
    if data == [] then ("unknown", "unknown")
    else if data[0].pod == primaryName then (TrimSpace(data[0].timeline), TrimSpace(data[0].checkpoint))
    else PrimaryPosition(data[1..], primaryName)
  }

  function AssessInstance(c: Collected, pTL: string, pLSN: string, primaryName: string,
                          cmp: DataComparison): (a: Assessment)
    ensures a.pod == c.pod
  {
    var isPrimary := c.pod == primaryName;
    var diskFull, corrupt := c.crashReason == "disk_full", c.crashReason == "pgdata_corruption";
    var hasData := c.source != "none";
    var tl, lsn := TrimSpace(c.timeline), TrimSpace(c.checkpoint);
    var known := tl != "unknown" && pTL != "unknown";
    var sameTL := tl == pTL && tl != "unknown";
    var behindTL := known && History.ParseTimelineInt(tl) < History.ParseTimelineInt(pTL);
    var behindLSN := sameTL && History.ParseLSNValue(lsn) < History.ParseLSNValue(pLSN);
    var stranded := sameTL && behindLSN && !c.streaming && !c.missing && !diskFull;
    var verdict := ClassifyInstance(isPrimary, c.pod == cmp.mostAdvanced, hasData, cmp.safeToHeal, behindTL, sameTL,
      stranded);
    var (diskFullNote, needsHeal, remedy) :=
      if isPrimary then (diskFull || c.diskPct >= 90, false, NoRemedy)
      else if !cmp.safeToHeal || !hasData then (false, false, NoRemedy)
      else if behindTL then (diskFull, true, NoRemedy)
      else if behindLSN && c.streaming then (false, false, NoRemedy)
      else if behindLSN then
        if diskFull then (true, true, NoRemedy)
        else if c.missing then (false, false, Restart)
        else if c.slotRetainsWAL then (false, false, Restart)
        else (false, true, Reseed)
      else if sameTL then (false, false, if c.missing || c.crashLooping then Restart else NoRemedy)
      else (false, false, NoRemedy);
    if corrupt then
      Assessment(c.pod, isPrimary, History.ParseTimelineInt(tl), lsn, ClassDisposable, diskFullNote, true, Reseed)
    else
      Assessment(c.pod, isPrimary, History.ParseTimelineInt(tl), lsn,
                 if remedy == Restart then ClassRecoverable else verdict, diskFullNote, needsHeal,
                 if remedy == NoRemedy && needsHeal then Reseed else remedy)
  }

  function Assessments(data: seq<Collected>, primaryName: string, cmp: DataComparison): (r: seq<Assessment>)
    ensures |r| == |data| && forall i :: 0 <= i < |data| ==> r[i].pod == data[i].pod
  {
    var (pTL, pLSN) := PrimaryPosition(data, primaryName);
    seq(|data|, i requires 0 <= i < |data| => AssessInstance(data[i], pTL, pLSN, primaryName, cmp))
  }

  /** A non-destructive restart is only ever proposed to an instance on the primary's own
      timeline with data on disk, under a proven authority, and never to a corrupt one. */
  lemma RestartKeepsTheTimeline(data: seq<Collected>, primaryName: string, cmp: DataComparison, i: nat)
    requires i < |data| && Assessments(data, primaryName, cmp)[i].remediation == Restart
    ensures cmp.safeToHeal && data[i].source != "none" && data[i].crashReason != "pgdata_corruption"
    ensures TrimSpace(data[i].timeline) == PrimaryPosition(data, primaryName).0
    ensures Assessments(data, primaryName, cmp)[i].classification == ClassRecoverable
  {}

  // ----- recovery -----

  datatype RecoveryReason = NoReason | AmbiguousAuthority | DiskFullDisposableReplica

  datatype Recovery = Recovery(blocked: bool, reason: RecoveryReason, authority: string,
                               disposable: seq<string>, recoverySet: seq<string>)

  function DisposablePods(assessments: seq<Assessment>): (r: seq<string>)
    ensures forall p :: p in r <==> exists a :: a in assessments && a.pod == p && a.classification == ClassDisposable
  {
    if assessments == [] then []
    else
      var init, last := assessments[..|assessments| - 1], assessments[|assessments| - 1];
      assert assessments == init + [last];
      DisposablePods(init) + if last.classification == ClassDisposable then [last.pod] else []
  }

  predicate DiskFullDisposable(assessments: seq<Assessment>) {
    exists i :: 0 <= i < |assessments| && assessments[i].classification == ClassDisposable &&
      assessments[i].diskFullNote
  }

  method DeriveRecovery(assessments: seq<Assessment>, cmp: DataComparison, primaryName: string,
                        notEnoughDiskSpace: bool, primaryRunning: bool) returns (r: Option<Recovery>)
    ensures r == RecoveryOf(assessments, cmp, primaryName, notEnoughDiskSpace, primaryRunning)
  {
    if !cmp.safeToHeal || primaryName == "" {
      return Some(Recovery(false, AmbiguousAuthority, "", [], []));
    }
    var disposable: seq<string> := [];
    var diskFullDisposable := false;
    for i := 0 to |assessments|
      invariant disposable == DisposablePods(assessments[..i])
      invariant diskFullDisposable <==> DiskFullDisposable(assessments[..i])
    {
      assert assessments[..i + 1][..i] == assessments[..i];
      if assessments[i].classification != ClassDisposable { continue; }
      disposable := disposable + [assessments[i].pod];
      if assessments[i].diskFullNote {
        diskFullDisposable := true;
        assert assessments[..i + 1][i] == assessments[i];
      }
    }
    assert assessments[..|assessments|] == assessments;
    if disposable == [] { return None; }
    var recoverySet: seq<string> := [];
    if !primaryRunning {
      recoverySet := recoverySet + [primaryName];
    }
    assert recoverySet == if primaryRunning then [] else [primaryName];
    recoverySet := recoverySet + disposable;
    var rec := Recovery(false, NoReason, primaryName, disposable, recoverySet);
    if notEnoughDiskSpace && diskFullDisposable && !primaryRunning {
      rec := rec.(blocked := true, reason := DiskFullDisposableReplica);
    }
    r := Some(rec);
  }

  function RecoveryOf(assessments: seq<Assessment>, cmp: DataComparison, primaryName: string,
                      notEnoughDiskSpace: bool, primaryRunning: bool): (r: Option<Recovery>)
    ensures r.Some? && r.value.reason != AmbiguousAuthority ==>
              cmp.safeToHeal && r.value.authority == primaryName && r.value.disposable != []
    ensures r.Some? ==> forall p :: p in r.value.disposable ==> p in r.value.recoverySet
    ensures r.Some? && r.value.blocked ==> notEnoughDiskSpace && !primaryRunning && primaryName in r.value.recoverySet
  {
    if !cmp.safeToHeal || primaryName == "" then Some(Recovery(false, AmbiguousAuthority, "", [], []))
    else
      var disposable := DisposablePods(assessments);
      if disposable == [] then None
      else
        var blocked := notEnoughDiskSpace && DiskFullDisposable(assessments) && !primaryRunning;
        Some(Recovery(blocked, if blocked then DiskFullDisposableReplica else NoReason, primaryName, disposable,
                      (if primaryRunning then [] else [primaryName]) + disposable))
  }
}
