// Which node a bootstrap starts from: lineage groups over the recovered positions, and the
// best node of the selected lineage. Go walks its maps in arbitrary order, so every loop
// over a map here picks the next key arbitrarily.
module GaleraCandidate {
  import opened Options
  import opened GaleraTriage

  const MAX_PHANTOM_SEQNO: int := 1_000_000_000_000

  type Recoveries = map<string, WsrepRecover>

  datatype LineageGroup =
    LineageGroup(uuid: UUID, members: set<string>, maxSeqno: int, maxCommitted: int, bestNode: string)

  /** Only a valid recover with a real lineage and a sane position may drive authority. */
  predicate IsAuthoritative(rr: WsrepRecover) {
    rr.valid && ValidUUID(rr.uuid) && 0 <= rr.seqno <= MAX_PHANTOM_SEQNO
  }

  predicate Authoritative(recovered: Recoveries, pod: string) {
    pod in recovered && IsAuthoritative(recovered[pod])
  }

  predicate CandidateOverrideDiscardsData(leaderRecovered: bool, leaderKnownSeqno: int, bestRecoveredSeqno: int) {
    !leaderRecovered && leaderKnownSeqno > bestRecoveredSeqno
  }

  // ----- lineage groups -----

  function MembersOf(recovered: Recoveries, uuid: UUID): set<string> {
    set p | p in recovered && IsAuthoritative(recovered[p]) && recovered[p].uuid == uuid
  }

  function AllAuthoritative(recovered: Recoveries): set<string> {
    set p | p in recovered && IsAuthoritative(recovered[p])
  }

  /** (seqno, lastCommitted) order. */
  predicate AtMost(rr: WsrepRecover, seqno: int, committed: int) {
    rr.seqno < seqno || (rr.seqno == seqno && rr.lastCommitted <= committed)
  }

  /** g summarises exactly `members`, all of its lineage. */
  ghost predicate Summarises(recovered: Recoveries, g: LineageGroup) {
    && g.members != {}
    && (forall m :: m in g.members ==> Authoritative(recovered, m) && recovered[m].uuid == g.uuid
                                       && AtMost(recovered[m], g.maxSeqno, g.maxCommitted))
    && (exists m :: m in g.members && recovered[m].seqno == g.maxSeqno)
    && (if g.bestNode == "" then g.maxSeqno == 0 && g.maxCommitted == 0
        else g.bestNode in g.members && recovered[g.bestNode].seqno == g.maxSeqno
             && recovered[g.bestNode].lastCommitted == g.maxCommitted)
  }

  function Absorb(g: LineageGroup, pod: string, rr: WsrepRecover): LineageGroup {
    var grown := g.(members := g.members + {pod});
    if rr.seqno > g.maxSeqno || (rr.seqno == g.maxSeqno && rr.lastCommitted > g.maxCommitted)
    then grown.(maxSeqno := rr.seqno, maxCommitted := rr.lastCommitted, bestNode := pod)
    else grown
  }

  predicate Precedes(g: LineageGroup, h: LineageGroup) {
    |g.members| > |h.members| || (|g.members| == |h.members| && g.maxSeqno > h.maxSeqno)
  }

  ghost predicate Sorted(gs: seq<LineageGroup>) {
    forall i, j :: 0 <= i < j < |gs| ==> !Precedes(gs[j], gs[i])
  }

  function Insert(g: LineageGroup, gs: seq<LineageGroup>): (r: seq<LineageGroup>)
    ensures forall x :: x in r <==> x == g || x in gs
    ensures Sorted(gs) ==> Sorted(r)
    ensures |r| == |gs| + 1
  {
    if gs == [] then [g]
    else if Precedes(gs[0], g) then
      var rest := Insert(g, gs[1..]);
      assert forall x :: x in gs <==> x == gs[0] || x in gs[1..];
      assert Sorted(gs) ==> Sorted(gs[1..]) && forall x :: x in rest ==> !Precedes(x, gs[0]);
      [gs[0]] + rest
    else [g] + gs
  }

  /** The groups partition the authoritative recovers by lineage, largest first. */
  ghost predicate IsGrouping(recovered: Recoveries, groups: seq<LineageGroup>) {
    && (forall i :: 0 <= i < |groups| ==>
          Summarises(recovered, groups[i]) && groups[i].members == MembersOf(recovered, groups[i].uuid))
    && (forall i, j :: 0 <= i < j < |groups| ==> groups[i].uuid != groups[j].uuid)
    && (forall p {:trigger Placed(groups, p)} :: Authoritative(recovered, p) ==> Placed(groups, p))
    && Sorted(groups)
  }

  ghost predicate Placed(groups: seq<LineageGroup>, pod: string) {
    exists i :: 0 <= i < |groups| && pod in groups[i].members
  }

  ghost predicate IsCollected(recovered: Recoveries, done: set<string>, u: UUID, g: LineageGroup) {
    g.uuid == u && Summarises(recovered, g) && g.members == MembersOf(recovered, u) * done
  }

  /** The members collected so far of each lineage seen so far. */
  ghost predicate IsGroupMap(recovered: Recoveries, done: set<string>, groupMap: map<UUID, LineageGroup>) {
    && (forall u {:trigger IsCollected(recovered, done, u, groupMap[u])} :: u in groupMap ==>
         IsCollected(recovered, done, u, groupMap[u]))
    && (forall p :: p in done && Authoritative(recovered, p) ==> recovered[p].uuid in groupMap)
  }

  lemma AbsorbSummarises(recovered: Recoveries, g: LineageGroup, pod: string)
    requires Authoritative(recovered, pod) && recovered[pod].uuid == g.uuid && pod != ""
    requires Summarises(recovered, g) || g == LineageGroup(g.uuid, {}, 0, 0, "")
    ensures Summarises(recovered, Absorb(g, pod, recovered[pod]))
  {
    var g', rr := Absorb(g, pod, recovered[pod]), recovered[pod];
    assert pod in g'.members;
    if g'.bestNode == g.bestNode && g.members != {} {
      var m :| m in g.members && recovered[m].seqno == g.maxSeqno;
      assert m in g'.members;
    }
  }

  function GroupFor(groupMap: map<UUID, LineageGroup>, uuid: UUID): LineageGroup {
    if uuid in groupMap then groupMap[uuid] else LineageGroup(uuid, {}, 0, 0, "")
  }

  lemma AbsorbKeepsGroupMap(recovered: Recoveries, done: set<string>, groupMap: map<UUID, LineageGroup>, pod: string)
    requires IsGroupMap(recovered, done, groupMap) && pod !in done && pod != "" && Authoritative(recovered, pod)
    ensures var u := recovered[pod].uuid;
            IsGroupMap(recovered, done + {pod}, groupMap[u := Absorb(GroupFor(groupMap, u), pod, recovered[pod])])
  {
    var u := recovered[pod].uuid;
    AbsorbIsCollected(recovered, done, groupMap, pod);
    forall v | v in groupMap && v != u ensures IsCollected(recovered, done + {pod}, v, groupMap[v]) {
      assert IsCollected(recovered, done, v, groupMap[v]);
      assert pod !in MembersOf(recovered, v);
    }
  }

  lemma AbsorbIsCollected(recovered: Recoveries, done: set<string>, groupMap: map<UUID, LineageGroup>, pod: string)
    requires IsGroupMap(recovered, done, groupMap) && pod !in done && pod != "" && Authoritative(recovered, pod)
    ensures var u := recovered[pod].uuid;
            IsCollected(recovered, done + {pod}, u, Absorb(GroupFor(groupMap, u), pod, recovered[pod]))
  {
    var u := recovered[pod].uuid;
    var g := GroupFor(groupMap, u);
    if u in groupMap {
      assert IsCollected(recovered, done, u, groupMap[u]);
    } else {
      assert MembersOf(recovered, u) * done == {};
    }
    AbsorbSummarises(recovered, g, pod);
    assert Absorb(g, pod, recovered[pod]).members == MembersOf(recovered, u) * (done + {pod});
  }

  method CollectGroups(recovered: Recoveries) returns (groupMap: map<UUID, LineageGroup>)
    requires "" !in recovered
    ensures IsGroupMap(recovered, recovered.Keys, groupMap)
  {
    groupMap := map[];
    var rest := recovered.Keys;
    ghost var done: set<string> := {};
    while rest != {}
      invariant rest <= recovered.Keys && done == recovered.Keys - rest
      invariant IsGroupMap(recovered, done, groupMap)
      decreases |rest|
    {
      var pod :| pod in rest;
      var rr := recovered[pod];
      if IsAuthoritative(rr) {
        AbsorbKeepsGroupMap(recovered, done, groupMap, pod);
        groupMap := groupMap[rr.uuid := Absorb(GroupFor(groupMap, rr.uuid), pod, rr)];
      } else {
        SkipKeepsGroupMap(recovered, done, groupMap, pod);
      }
      done, rest := done + {pod}, rest - {pod};
    }
    assert done == recovered.Keys;
  }

  method BuildLineageGroups(recovered: Recoveries) returns (groups: seq<LineageGroup>)
    requires "" !in recovered
    ensures IsGrouping(recovered, groups)
  {
    var groupMap := CollectGroups(recovered);
    forall u | u in groupMap ensures groupMap[u].uuid == u {
      assert IsCollected(recovered, recovered.Keys, u, groupMap[u]);
    }
    groups := SortGroups(groupMap);
    GroupMapIsGrouping(recovered, groupMap, groups);
  }

  lemma GroupMapIsGrouping(recovered: Recoveries, groupMap: map<UUID, LineageGroup>, groups: seq<LineageGroup>)
    requires IsGroupMap(recovered, recovered.Keys, groupMap) && Sorted(groups) && Unique(groups)
    requires forall g :: g in groups <==> g.uuid in groupMap && groupMap[g.uuid] == g
    ensures IsGrouping(recovered, groups)
  {
    forall i | 0 <= i < |groups|
      ensures Summarises(recovered, groups[i]) && groups[i].members == MembersOf(recovered, groups[i].uuid)
    {
      assert groups[i] in groups;
      assert IsCollected(recovered, recovered.Keys, groups[i].uuid, groups[i]);
      assert MembersOf(recovered, groups[i].uuid) * recovered.Keys == MembersOf(recovered, groups[i].uuid);
    }
    forall p | Authoritative(recovered, p) ensures Placed(groups, p) {
      var u := recovered[p].uuid;
      assert IsCollected(recovered, recovered.Keys, u, groupMap[u]);
      assert groupMap[u] in groups && p in MembersOf(recovered, u);
    }
  }

  lemma SkipKeepsGroupMap(recovered: Recoveries, done: set<string>, groupMap: map<UUID, LineageGroup>, pod: string)
    requires IsGroupMap(recovered, done, groupMap) && !Authoritative(recovered, pod)
    ensures IsGroupMap(recovered, done + {pod}, groupMap)
  {
    forall u | u in groupMap ensures IsCollected(recovered, done + {pod}, u, groupMap[u]) {
      assert IsCollected(recovered, done, u, groupMap[u]);
      assert MembersOf(recovered, u) * (done + {pod}) == MembersOf(recovered, u) * done;
    }
  }

  /** The groups in arbitrary order, then sorted: largest first, then furthest. */
  method SortGroups(groupMap: map<UUID, LineageGroup>) returns (groups: seq<LineageGroup>)
    requires forall u :: u in groupMap ==> groupMap[u].uuid == u
    ensures forall g :: g in groups <==> g.uuid in groupMap && groupMap[g.uuid] == g
    ensures Sorted(groups) && Unique(groups)
  {
    groups := [];
    var rest := groupMap.Keys;
    while rest != {}
      invariant rest <= groupMap.Keys
      invariant forall g :: g in groups <==> g.uuid in groupMap && g.uuid !in rest && groupMap[g.uuid] == g
      invariant Sorted(groups) && Unique(groups)
      decreases |rest|
    {
      var u :| u in rest;
      InsertKeepsUnique(groupMap[u], groups);
      groups := Insert(groupMap[u], groups);
      rest := rest - {u};
    }
  }

  ghost predicate Unique(gs: seq<LineageGroup>) {
    forall i, j :: 0 <= i < j < |gs| ==> gs[i].uuid != gs[j].uuid
  }

  lemma {:induction false} InsertKeepsUnique(g: LineageGroup, gs: seq<LineageGroup>)
    requires Unique(gs) && forall x :: x in gs ==> x.uuid != g.uuid
    ensures Unique(Insert(g, gs))
  {
    if gs != [] && Precedes(gs[0], g) {
      InsertKeepsUnique(g, gs[1..]);
      forall x | x in Insert(g, gs[1..]) ensures x.uuid != gs[0].uuid {
        assert gs[0] in gs;
      }
    }
  }

  // ----- the candidate -----

  datatype Assessment = Assessment(pod: string, effectiveSeqno: int, safeToBootstrap: bool)

  /** The position triage knew for pod, 0 if it was not assessed. */
  function KnownSeqno(assessments: seq<Assessment>, pod: string): int {
    if assessments == [] then 0
    else if assessments[0].pod == pod then assessments[0].effectiveSeqno
    else KnownSeqno(assessments[1..], pod)
  }

  ghost predicate IsBestOf(recovered: Recoveries, pods: set<string>, best: string) {
    && best in pods && best in recovered
    && forall p :: p in pods && p in recovered ==>
         AtMost(recovered[p], recovered[best].seqno, recovered[best].lastCommitted)
  }

  function Eligible(recovered: Recoveries, groups: seq<LineageGroup>, force: bool): set<string> {
    set p | p in recovered && IsAuthoritative(recovered[p])
            && (force || |groups| <= 1 || recovered[p].uuid == groups[0].uuid)
  }

  ghost predicate BestSoFar(recovered: Recoveries, seen: set<string>, best: string) {
    if best == "" then seen == {} else IsBestOf(recovered, seen, best)
  }

  predicate Better(recovered: Recoveries, pod: string, best: string)
    requires pod in recovered && (best == "" || best in recovered)
  {
    || best == ""
    || recovered[pod].seqno > recovered[best].seqno
    || (recovered[pod].seqno == recovered[best].seqno && recovered[pod].lastCommitted > recovered[best].lastCommitted)
  }

  lemma OneMoreCandidate(recovered: Recoveries, seen: set<string>, best: string, pod: string)
    requires BestSoFar(recovered, seen, best) && pod in recovered && pod != ""
    ensures BestSoFar(recovered, seen + {pod}, if Better(recovered, pod, best) then pod else best)
  {}

  /** The best authoritative node of the lineage in play. */
  method BestRecovered(recovered: Recoveries, groups: seq<LineageGroup>, force: bool) returns (best: string)
    requires "" !in recovered
    ensures BestSoFar(recovered, Eligible(recovered, groups, force), best)
  {
    best := "";
    var rest := recovered.Keys;
    ghost var seen: set<string> := {};
    ghost var eligible := Eligible(recovered, groups, force);
    while rest != {}
      invariant rest <= recovered.Keys && seen == eligible - rest
      invariant BestSoFar(recovered, seen, best)
      decreases |rest|
    {
      var pod :| pod in rest;
      var rr := recovered[pod];
      rest := rest - {pod};
      if !IsAuthoritative(rr) || (!force && |groups| > 1 && rr.uuid != groups[0].uuid) {
        assert pod !in eligible;
        continue;
      }
      assert pod in eligible;
      OneMoreCandidate(recovered, seen, best, pod);
      seen := seen + {pod};
      if Better(recovered, pod, best) {
        best := pod;
      }
    }
  }

  /** None is the abort. */
  method SelectCandidate(original: string, assessments: seq<Assessment>, recovered: Recoveries, force: bool)
    returns (candidate: Option<string>, groups: seq<LineageGroup>)
    requires "" !in recovered
    ensures IsGrouping(recovered, groups)
    // Nothing authoritative: the original candidate stands.
    ensures groups == [] ==> candidate == Some(original)
    // Unforced: the best node of the first lineage, or an abort.
    ensures groups != [] && !force && candidate.Some? ==> IsBestOf(recovered, groups[0].members, candidate.value)
    // Forced: the best node of all lineages.
    ensures groups != [] && force ==>
              candidate.Some? && IsBestOf(recovered, AllAuthoritative(recovered), candidate.value)
    // It aborts exactly when the leader did not recover and its known position is ahead.
    ensures candidate.None? <==>
              groups != [] && !force && !Authoritative(recovered, original) &&
              KnownSeqno(assessments, original) > groups[0].maxSeqno
  {
    groups := BuildLineageGroups(recovered);
    if |groups| == 0 { return Some(original), groups; }
    var majority := groups[0];
    var candidatePod := original;
    var candidateUUID := if original in recovered then recovered[original].uuid else NoUUID;
    var inMajority := original in majority.members;
    if |groups| > 1 {
      if !inMajority && candidateUUID != majority.uuid {
        if !force {
          candidatePod := majority.bestNode;
        }
      }
    }
    var bestPod := BestRecovered(recovered, groups, force);
    EligibleIsLineage(recovered, groups, force);
    if bestPod == "" { return Some(candidatePod), groups; }
    if bestPod != original {
      if CandidateOverrideDiscardsData(Authoritative(recovered, original), KnownSeqno(assessments, original),
        recovered[bestPod].seqno)
         && !force {
        return None, groups;
      }
      return Some(bestPod), groups;
    }
    candidate := Some(candidatePod);
  }

  lemma EligibleIsLineage(recovered: Recoveries, groups: seq<LineageGroup>, force: bool)
    requires IsGrouping(recovered, groups) && groups != []
    ensures !force ==> Eligible(recovered, groups, force) == groups[0].members
    ensures force ==> Eligible(recovered, groups, force) == AllAuthoritative(recovered)
    ensures Eligible(recovered, groups, force) != {}
    ensures forall b :: IsBestOf(recovered, groups[0].members, b) ==> recovered[b].seqno == groups[0].maxSeqno
  {
    var g := groups[0];
    var m :| m in g.members && recovered[m].seqno == g.maxSeqno;
    assert m in Eligible(recovered, groups, force);
    if |groups| == 1 {
      forall p | Authoritative(recovered, p) ensures p in g.members {
        assert Placed(groups, p);
      }
    }
  }

  /** The first lineage is the largest, and of the largest the furthest. */
  lemma MajorityIsLargest(recovered: Recoveries, groups: seq<LineageGroup>, uuid: UUID)
    requires IsGrouping(recovered, groups) && MembersOf(recovered, uuid) != {}
    ensures groups != []
    ensures |MembersOf(recovered, uuid)| <= |groups[0].members|
    ensures |MembersOf(recovered, uuid)| == |groups[0].members| ==>
              forall p :: p in MembersOf(recovered, uuid) ==> recovered[p].seqno <= groups[0].maxSeqno
  {
    var p :| p in MembersOf(recovered, uuid);
    assert Authoritative(recovered, p);
    assert Placed(groups, p);
    var i :| 0 <= i < |groups| && p in groups[i].members;
    assert groups[i].uuid == uuid;
    if i > 0 { assert !Precedes(groups[i], groups[0]); }
  }

  /** A node has a say exactly when its recover is valid, names a real lineage and gives a plausible
      position; only such a node is ever the best of a lineage or of all. */
  lemma GroupedIff(recovered: Recoveries, groups: seq<LineageGroup>, pod: string)
    requires IsGrouping(recovered, groups)
    ensures Placed(groups, pod) <==>
            && pod in recovered && recovered[pod].valid && recovered[pod].uuid.Lineage?
            && 0 <= recovered[pod].seqno <= 1_000_000_000_000
    ensures groups != [] && IsBestOf(recovered, groups[0].members, pod) ==> Placed(groups, pod)
    ensures IsBestOf(recovered, AllAuthoritative(recovered), pod) ==> Placed(groups, pod)
  {
    if i :| 0 <= i < |groups| && pod in groups[i].members {
      assert Authoritative(recovered, pod);
    }
    if Authoritative(recovered, pod) {
      assert Placed(groups, pod);
    }
  }
}
