// Two instances as points on a tree of PostgreSQL timelines, and what `relate` may
// conclude about the WAL each of them holds.
module Lineage {

  datatype ReadState = Unread | Read | AbsentNoData

  /** One line of a timeline-history file: where the next timeline branched off. */
  datatype SwitchPoint = SwitchPoint(parentTimeline: int, switchLSN: int)

  datatype Instance = Instance(
    pod: string,
    isPrimary: bool,
    readState: ReadState,
    timeline: int,
    checkpointLSN: int,
    switches: seq<SwitchPoint>)

  datatype Relation = Diverge | Equal | ADominatesB | BDominatesA

  function Flip(r: Relation): Relation {
    match r
    case ADominatesB => BDominatesA
    case BDominatesA => ADominatesB
    case _ => r
  }

  // ----- the decision -----

  function CommonPrefixLen(a: seq<SwitchPoint>, b: seq<SwitchPoint>): (k: nat)
    ensures k <= |a| && k <= |b| && a[..k] == b[..k]
    ensures k < |a| && k < |b| ==> a[k] != b[k]
  {
    if a == [] || b == [] || a[0] != b[0] then 0
    else
      var k := 1 + CommonPrefixLen(a[1..], b[1..]);
      assert a[..k] == [a[0]] + a[1..][..k - 1] && b[..k] == [b[0]] + b[1..][..k - 1];
      k
  }

  method FindCommonPrefix(a: seq<SwitchPoint>, b: seq<SwitchPoint>) returns (k: nat)
    ensures k == CommonPrefixLen(a, b)
  {
    var n := if |b| < |a| then |b| else |a|;
    k := 0;
    while k < n
      invariant k <= n
      invariant a[..k] == b[..k]
    {
      if a[k] != b[k] { break; }
      k := k + 1;
    }
    PrefixIsUnique(a, b, k, CommonPrefixLen(a, b));
  }

  lemma PrefixIsUnique(a: seq<SwitchPoint>, b: seq<SwitchPoint>, j: nat, k: nat)
    requires j <= |a| && j <= |b| && a[..j] == b[..j] && (j < |a| && j < |b| ==> a[j] != b[j])
    requires k <= |a| && k <= |b| && a[..k] == b[..k] && (k < |a| && k < |b| ==> a[k] != b[k])
    ensures j == k
  {
    PrefixElements(a, b, j);
    PrefixElements(a, b, k);
  }

  lemma PrefixElements(a: seq<SwitchPoint>, b: seq<SwitchPoint>, n: nat)
    requires n <= |a| && n <= |b| && a[..n] == b[..n]
    ensures forall i :: 0 <= i < n ==> a[i] == b[i]
  {
    forall i | 0 <= i < n ensures a[i] == b[i] {
      assert a[..n][i] == b[..n][i];
    }
  }

  function LastSwitchLSN(sw: seq<SwitchPoint>, upto: nat): int {
    if upto == 0 || |sw| == 0 then 0
    else if upto > |sw| then sw[|sw| - 1].switchLSN
    else sw[upto - 1].switchLSN
  }

  function Dom(aDominates: bool): Relation {
    if aDominates then ADominatesB else BDominatesA
  }

  /** ext's chain strictly extends anc's. */
  function ExtensionRelation(ext: Instance, anc: Instance, extenderIsA: bool): (Relation, int)
    requires |anc.switches| < |ext.switches|
  {
    var fork := ext.switches[|anc.switches|];
    if fork.parentTimeline != anc.timeline then (Diverge, fork.switchLSN)
    else if anc.checkpointLSN <= fork.switchLSN then (Dom(extenderIsA), fork.switchLSN)
    else if ext.checkpointLSN <= fork.switchLSN then (Dom(!extenderIsA), fork.switchLSN)
    else (Diverge, fork.switchLSN)
  }

  /** The relation between two readable instances and the LSN of the fork between them. */
  function Relate(a: Instance, b: Instance): (Relation, int) {
    var k := CommonPrefixLen(a.switches, b.switches);
    var la, lb := |a.switches|, |b.switches|;
    if k == la && k == lb then
      if a.timeline != b.timeline then (Diverge, LastSwitchLSN(a.switches, k))
      else if a.checkpointLSN > b.checkpointLSN then (ADominatesB, 0)
      else if b.checkpointLSN > a.checkpointLSN then (BDominatesA, 0)
      else (Equal, 0)
    else if k == lb then ExtensionRelation(a, b, true)
    else if k == la then ExtensionRelation(b, a, false)
    else
      var fork := LastSwitchLSN(a.switches, k);
      var aPast, bPast := a.checkpointLSN > fork, b.checkpointLSN > fork;
      if aPast && bPast then (Diverge, fork)
      else if aPast then (ADominatesB, fork)
      else if bPast then (BDominatesA, fork)
      else (Equal, fork)
  }

  /** Swapping the arguments flips the answer and keeps the fork, whatever the inputs. */
  lemma RelateFlips(a: Instance, b: Instance)
    ensures Relate(b, a).0 == Flip(Relate(a, b).0)
    ensures Relate(b, a).1 == Relate(a, b).1
  {
    var k := CommonPrefixLen(a.switches, b.switches);
    PrefixIsUnique(a.switches, b.switches, k, CommonPrefixLen(b.switches, a.switches));
    if k > 0 {
      assert a.switches[..k][k - 1] == b.switches[..k][k - 1];
    }
  }

  // ----- the WAL an instance holds -----

  /** A WAL byte: the branch it was written on (the switches taken to get there and the
      timeline written) and its LSN. The same branch at the same LSN is the same byte. */
  datatype Position = Position(branch: seq<SwitchPoint>, timeline: int, lsn: int)

  // Segment i of an instance's history starts at its i-th switch and ends at the next one;
  // the last segment ends at the checkpoint.
  function TimelineAt(x: Instance, i: nat): int
    requires i <= |x.switches|
  {
    if i < |x.switches| then x.switches[i].parentTimeline else x.timeline
  }

  function SegmentStart(x: Instance, i: nat): int
    requires i <= |x.switches|
  {
    if i == 0 then 0 else x.switches[i - 1].switchLSN
  }

  function SegmentEnd(x: Instance, i: nat): int
    requires i <= |x.switches|
  {
    if i < |x.switches| then x.switches[i].switchLSN else x.checkpointLSN
  }

  ghost predicate Holds(x: Instance, p: Position) {
    && |p.branch| <= |x.switches|
    && p.branch == x.switches[..|p.branch|]
    && p.timeline == TimelineAt(x, |p.branch|)
    && SegmentStart(x, |p.branch|) < p.lsn <= SegmentEnd(x, |p.branch|)
  }

  /** a's WAL includes b's: re-cloning b from a loses no WAL. */
  ghost predicate Contains(a: Instance, b: Instance) {
    forall p :: Holds(b, p) ==> Holds(a, p)
  }

  /** Switch LSNs never decrease along the chain and the checkpoint is not behind the last. */
  ghost predicate WellFormed(x: Instance) {
    forall i :: 0 <= i <= |x.switches| ==> SegmentStart(x, i) <= SegmentEnd(x, i)
  }

  lemma {:induction false} SegmentsAscend(x: Instance, i: nat, j: nat)
    requires WellFormed(x) && i <= j <= |x.switches|
    ensures SegmentEnd(x, i) <= SegmentEnd(x, j)
    ensures i < j ==> SegmentEnd(x, i) <= SegmentStart(x, j)
    decreases j
  {
    if i < j {
      SegmentsAscend(x, i, j - 1);
      assert SegmentStart(x, j) == SegmentEnd(x, j - 1);
    }
  }

  /** Where the two histories really part: on the first segment that differs, as far as both
      wrote it if they wrote the same timeline there, and at its start if they did not. */
  function TrueFork(a: Instance, b: Instance): int {
    var k := CommonPrefixLen(a.switches, b.switches);
    if TimelineAt(a, k) != TimelineAt(b, k) then SegmentStart(a, k)
    else if SegmentEnd(a, k) < SegmentEnd(b, k) then SegmentEnd(a, k) else SegmentEnd(b, k)
  }

  lemma SharedSegments(a: Instance, b: Instance, i: nat)
    requires i <= CommonPrefixLen(a.switches, b.switches)
    ensures a.switches[..i] == b.switches[..i]
    ensures SegmentStart(a, i) == SegmentStart(b, i)
    ensures i < CommonPrefixLen(a.switches, b.switches) ==>
              TimelineAt(a, i) == TimelineAt(b, i) && SegmentEnd(a, i) == SegmentEnd(b, i)
  {
    var k := CommonPrefixLen(a.switches, b.switches);
    assert a.switches[..i] == a.switches[..k][..i] && b.switches[..i] == b.switches[..k][..i];
    if i > 0 {
      assert a.switches[..k][i - 1] == b.switches[..k][i - 1];
    }
    if i < k {
      assert a.switches[..k][i] == b.switches[..k][i];
    }
  }

  lemma HeldUpToTheFork(a: Instance, b: Instance, p: Position)
    requires WellFormed(a) && WellFormed(b) && b.checkpointLSN <= TrueFork(a, b) && Holds(b, p)
    ensures Holds(a, p)
  {
    var k, i := CommonPrefixLen(a.switches, b.switches), |p.branch|;
    SegmentsAscend(b, i, |b.switches|);
    if i <= k {
      SharedSegments(a, b, i);
    } else {
      SharedSegments(a, b, k);
      SegmentsAscend(b, k, i);
    }
  }

  lemma {:induction false} FirstSegmentPast(b: Instance, from: nat, bound: int) returns (i: nat)
    requires WellFormed(b) && from <= |b.switches| && b.checkpointLSN > bound
    requires SegmentStart(b, from) <= bound
    ensures from <= i <= |b.switches|
    ensures SegmentStart(b, i) <= bound < SegmentEnd(b, i)
    decreases |b.switches| - from
  {
    if SegmentEnd(b, from) > bound {
      i := from;
    } else {
      i := FirstSegmentPast(b, from + 1, bound);
    }
  }

  lemma PastTheForkIsOwn(a: Instance, b: Instance) returns (p: Position)
    requires WellFormed(a) && WellFormed(b) && b.checkpointLSN > TrueFork(a, b)
    ensures Holds(b, p) && !Holds(a, p)
  {
    var k := CommonPrefixLen(a.switches, b.switches);
    SharedSegments(a, b, k);
    var i := FirstSegmentPast(b, k, TrueFork(a, b));
    p := Position(b.switches[..i], TimelineAt(b, i), SegmentEnd(b, i));
    assert i > k && i <= |a.switches| && k < |b.switches| ==>
             a.switches[..i][k] == a.switches[k] && b.switches[..i][k] == b.switches[k];
  }

  /** Exact containment: b's WAL is inside a's iff b wrote nothing past the true fork. */
  lemma ContainsIff(a: Instance, b: Instance)
    requires WellFormed(a) && WellFormed(b)
    ensures Contains(a, b) <==> b.checkpointLSN <= TrueFork(a, b)
  {
    if b.checkpointLSN <= TrueFork(a, b) {
      forall p | Holds(b, p) ensures Holds(a, p) { HeldUpToTheFork(a, b, p); }
    } else {
      var p := PastTheForkIsOwn(a, b);
    }
  }

  lemma ForkIsSymmetric(a: Instance, b: Instance)
    ensures TrueFork(a, b) == TrueFork(b, a)
  {
    var k := CommonPrefixLen(a.switches, b.switches);
    PrefixIsUnique(a.switches, b.switches, k, CommonPrefixLen(b.switches, a.switches));
    SharedSegments(a, b, k);
  }

  lemma ChainBounds(x: Instance, k: nat)
    requires WellFormed(x) && k <= |x.switches|
    ensures 0 <= SegmentStart(x, k) <= SegmentEnd(x, k) <= x.checkpointLSN
    ensures LastSwitchLSN(x.switches, k) == SegmentStart(x, k)
  {
    SegmentsAscend(x, 0, k);
    SegmentsAscend(x, k, |x.switches|);
  }

  /** Soundness: a verdict of dominance is containment, a verdict of equality is equality. */
  lemma RelateSound(a: Instance, b: Instance)
    requires WellFormed(a) && WellFormed(b)
    ensures Relate(a, b).0 == ADominatesB ==> Contains(a, b)
    ensures Relate(a, b).0 == BDominatesA ==> Contains(b, a)
    ensures Relate(a, b).0 == Equal ==> Contains(a, b) && Contains(b, a)
  {
    ContainsIff(a, b);
    ContainsIff(b, a);
    ForkIsSymmetric(a, b);
    var k := CommonPrefixLen(a.switches, b.switches);
    ChainBounds(a, k);
    ChainBounds(b, k);
    SharedSegments(a, b, k);
  }

  /** One chain is a beginning of the other and its instance is on the timeline the other went on
      from: both are on one line of descent up to the point where they part. */
  predicate OneLine(a: Instance, b: Instance) {
    var k := CommonPrefixLen(a.switches, b.switches);
    (k == |a.switches| || k == |b.switches|) && TimelineAt(a, k) == TimelineAt(b, k)
  }

  /** On one line of descent the verdict is what the WAL held says: divergence exactly when each side
      has its own, and of two with the same WAL the one that switched timelines once more leads. */
  lemma RelateIsExactOnOneLine(a: Instance, b: Instance)
    requires WellFormed(a) && WellFormed(b) && OneLine(a, b)
    ensures Relate(a, b).0 == Diverge <==> !Contains(a, b) && !Contains(b, a)
    ensures Relate(a, b).0 == Diverge ==> Relate(a, b).1 == TrueFork(a, b)
    ensures Relate(a, b).0 == Equal <==> Contains(a, b) && Contains(b, a) && |a.switches| == |b.switches|
    ensures Relate(a, b).0 == ADominatesB <==> Contains(a, b) && (Contains(b, a) ==> |b.switches| < |a.switches|)
  {
    ContainsIff(a, b);
    ContainsIff(b, a);
    ForkIsSymmetric(a, b);
    var k := CommonPrefixLen(a.switches, b.switches);
    ChainBounds(a, k);
    ChainBounds(b, k);
    SharedSegments(a, b, k);
  }

  /** Elsewhere it is divergence, except after a fork when one side wrote nothing past the last switch
      both took; then it is again what the WAL held says. */
  lemma RelateElsewhere(a: Instance, b: Instance)
    requires WellFormed(a) && WellFormed(b) && !OneLine(a, b)
    ensures var k := CommonPrefixLen(a.switches, b.switches);
            Relate(a, b).0 != Diverge <==>
              && k < |a.switches| && k < |b.switches|
              && (a.checkpointLSN == SegmentStart(a, k) || b.checkpointLSN == SegmentStart(b, k))
    ensures var k := CommonPrefixLen(a.switches, b.switches);
            k < |a.switches| && k < |b.switches| ==> Relate(a, b).1 == SegmentStart(a, k)
    ensures Relate(a, b).0 == Equal ==> Contains(a, b) && Contains(b, a)
    ensures Relate(a, b).0 == ADominatesB ==> Contains(a, b) && !Contains(b, a)
    ensures Relate(a, b).0 == BDominatesA ==> Contains(b, a) && !Contains(a, b)
  {
    ContainsIff(a, b);
    ContainsIff(b, a);
    ForkIsSymmetric(a, b);
    var k := CommonPrefixLen(a.switches, b.switches);
    ChainBounds(a, k);
    ChainBounds(b, k);
    SharedSegments(a, b, k);
  }

  /** A reported divergence is genuine (each side holds WAL the other lacks) exactly when
      neither checkpoint stops at the true fork. */
  lemma DivergenceIsGenuineIff(a: Instance, b: Instance)
    requires WellFormed(a) && WellFormed(b) && Relate(a, b).0 == Diverge
    ensures (!Contains(a, b) && !Contains(b, a)) <==>
            (a.checkpointLSN > TrueFork(a, b) && b.checkpointLSN > TrueFork(a, b))
  {
    ContainsIff(a, b);
    ContainsIff(b, a);
    ForkIsSymmetric(a, b);
  }

  /** When one chain extends the other from its own timeline, divergence is always genuine. */
  lemma ExtensionDivergenceIsGenuine(ext: Instance, anc: Instance)
    requires WellFormed(ext) && WellFormed(anc)
    requires |anc.switches| < |ext.switches| && ext.switches[..|anc.switches|] == anc.switches
    requires ext.switches[|anc.switches|].parentTimeline == anc.timeline
    requires Relate(ext, anc).0 == Diverge
    ensures !Contains(ext, anc) && !Contains(anc, ext)
  {
    var n := |anc.switches|;
    PrefixIsUnique(ext.switches, anc.switches, n, CommonPrefixLen(ext.switches, anc.switches));
    DivergenceIsGenuineIff(ext, anc);
  }

  /** The verdict is deliberately incomplete: after a fork with no agreed switch even a pure
      ancestor is reported as diverged. */
  lemma DivergenceCanBeSpurious(a: Instance, b: Instance)
    requires a == Instance("pg-1", true, Read, 2, 200, [SwitchPoint(1, 100)])
    requires b == Instance("pg-2", false, Read, 3, 50, [SwitchPoint(1, 50)])
    ensures WellFormed(a) && WellFormed(b)
    ensures Relate(a, b).0 == Diverge && Contains(a, b)
  {
    ContainsIff(a, b);
  }

  /** Without well-formed chains "neither is past the fork" says nothing about the WAL held. */
  lemma EqualNeedsWellFormed(a: Instance, b: Instance, p: Position)
    requires a == Instance("pg-1", true, Read, 3, 100, [SwitchPoint(1, 100), SwitchPoint(2, 50)])
    requires b == Instance("pg-2", false, Read, 3, 100, [SwitchPoint(1, 100), SwitchPoint(4, 50)])
    requires p == Position(a.switches, 3, 60)
    ensures Relate(a, b).0 == Equal && Holds(a, p) && !Holds(b, p)
  {
    assert CommonPrefixLen(a.switches, b.switches) == 1 by {
      PrefixIsUnique(a.switches, b.switches, 1, CommonPrefixLen(a.switches, b.switches));
    }
    assert a.switches[..2] == a.switches && b.switches[..2] == b.switches;
    assert a.switches[1] != b.switches[1];
  }

  // ----- dominance is acyclic -----

  ghost predicate RankBelow(x: Instance, y: Instance) {
    || x.checkpointLSN < y.checkpointLSN
    || (x.checkpointLSN == y.checkpointLSN && |x.switches| < |y.switches|)
  }

  /** Dominance strictly raises (checkpoint, chain length), so it can never form a cycle. */
  lemma DominanceRaisesRank(a: Instance, b: Instance)
    requires WellFormed(a) && WellFormed(b)
    ensures Relate(a, b).0 == ADominatesB ==> RankBelow(b, a)
    ensures Relate(a, b).0 == BDominatesA ==> RankBelow(a, b)
  {
    var k := CommonPrefixLen(a.switches, b.switches);
    ChainBounds(a, k);
    ChainBounds(b, k);
    SharedSegments(a, b, k);
  }
}
