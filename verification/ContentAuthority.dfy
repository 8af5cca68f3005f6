// What the authority decision and the plans keep when a content resolver overrides a WAL
// divergence: instantiated for the table diff and for the append-only witness.
module ContentAuthority {
  import opened Options
  import opened Lineage
  import opened Authority
  import opened Comparison
  import HealPlan
  import ContentDiff
  import Witness

  // ----- the table diff -----

  /** The rows a diff run sees, and how it sees them. */
  datatype Diff =
    Diff(db: ContentDiff.Database, h: ContentDiff.Hashing, tables: seq<string>, unreadable: (string, string) -> bool)

  function Rows(c: Diff): Extent {
    ContentDiff.RowExtent(c.db, c.tables)
  }

  function Comparing(c: Diff): Option<Comparator> {
    Some(ContentDiff.DiffComparator(c.db, c.h, c.tables, c.unreadable))
  }

  /** Hashes do not collide, and rows reach an instance only through its WAL. */
  ghost predicate DiffOf(c: Diff, insts: seq<Instance>) {
    ContentDiff.CollisionFree(c.h) && WALBringsRows(insts, Rows(c))
  }

  lemma DiffIsUsable(c: Diff, insts: seq<Instance>)
    requires DiffOf(c, insts)
    ensures IsExtent(Rows(c), insts) && Sound(Comparing(c), Rows(c), insts) && Strict(Comparing(c), Rows(c), insts)
  {
    ContentDiff.DiffComparatorIsFaithful(insts, c.db, c.h, c.tables, c.unreadable);
  }

  /** Where the diff may overrule the WAL, the elected leader still has every listed row of every
      readable instance, and only an unread instance leaves the decision open. */
  lemma DiffLeaderHoldsEveryRow(insts: seq<Instance>, c: Diff, d: Decision)
    requires IsVerdict(insts, Comparing(c), d) && AllWellFormed(insts) && DiffOf(c, insts)
    ensures d.determinable <==> UnreadOf(insts) == []
    ensures d.determinable && !d.diverged && ReadableOf(insts) != [] ==>
              exists leader :: Legible(insts, leader) && leader.pod == d.leader &&
                forall x :: Legible(insts, x) ==> ContentDiff.Includes(c.db, leader.pod, x.pod, c.tables)
  {
    DiffIsUsable(c, insts);
    OnlyUnreadInstancesBlock(insts, Comparing(c), Rows(c), d);
    if d.determinable && !d.diverged && ReadableOf(insts) != [] {
      var leader := LeaderHoldsEveryExtent(insts, Comparing(c), Rows(c), d);
      assert Legible(insts, leader) && leader.pod == d.leader;
      forall x | Legible(insts, x) ensures ContentDiff.Includes(c.db, leader.pod, x.pod, c.tables) {
        assert Rows(c)(x, leader);
      }
    }
  }

  /** Both sides can be asked about every listed table. */
  predicate Comparable(c: Diff, a: string, b: string) {
    a in c.db && b in c.db && c.tables != [] && !c.unreadable(a, b) && !ContentDiff.TableAbsent(c.db, a, b, c.tables)
  }

  /** What one game between two comparable branches of a divergence says. */
  function ByRows(aHasAll: bool, bHasAll: bool): Relation {
    if aHasAll && bHasAll then Equal else if aHasAll then ADominatesB else if bHasAll then BDominatesA else Diverge
  }

  predicate HasAll(c: Diff, a: string, b: string) {
    ContentDiff.Includes(c.db, a, b, c.tables)
  }

  lemma DiffResolves(a: Instance, b: Instance, c: Diff)
    requires ContentDiff.CollisionFree(c.h) && Relate(a, b).0 == Diverge && Comparable(c, a.pod, b.pod)
    ensures Resolve(a, b, Comparing(c)) == ByRows(HasAll(c, a.pod, b.pod), HasAll(c, b.pod, a.pod))
  {
    ContentDiff.VerdictIsInclusion(c.db, c.h, a.pod, b.pod, c.tables);
  }

  /** Two comparable branches of a WAL divergence: the decision is diverged exactly when each
      has a listed row the other lacks, and otherwise it elects a side that has them all. */
  lemma DiffSettlesADivergence(a: Instance, b: Instance, c: Diff, d: Decision)
    requires ContentDiff.CollisionFree(c.h) && IsVerdict([a, b], Comparing(c), d)
    requires a.readState == Read && b.readState == Read && a.pod != b.pod && Relate(a, b).0 == Diverge
    requires Comparable(c, a.pod, b.pod)
    ensures var aHasAll, bHasAll := HasAll(c, a.pod, b.pod), HasAll(c, b.pod, a.pod);
            && d.determinable && (d.diverged <==> !aHasAll && !bHasAll)
            && (aHasAll && !bHasAll ==> d.leader == a.pod) && (bHasAll && !aHasAll ==> d.leader == b.pod)
            && (aHasAll && bHasAll ==> d.leader == a.pod || d.leader == b.pod)
  {
    DiffResolves(a, b, c);
    HealPlan.AllReadable([a, b]);
    TwoEntrants([a, b], Comparing(c), d);
  }

  ghost predicate SomeDiverge(r: seq<Instance>, content: Option<Comparator>) {
    exists i, j :: 0 <= i < j < |r| && Diverges(r, content, i, j)
  }

  ghost predicate SomeUndominated(r: seq<Instance>, content: Option<Comparator>) {
    exists m :: 0 <= m < |r| && Undominated(r, content, m)
  }

  ghost predicate LedBy(r: seq<Instance>, content: Option<Comparator>, pod: string) {
    exists m :: 0 <= m < |r| && Undominated(r, content, m) && pod == r[m].pod
  }

  /** The decision when several instances were given and all were read. */
  lemma VerdictOfReadable(r: seq<Instance>, content: Option<Comparator>, d: Decision)
    requires |r| > 1 && ReadableOf(r) == r && UnreadOf(r) == [] && IsVerdict(r, content, d)
    ensures d.diverged <==> SomeDiverge(r, content)
    ensures d.determinable <==> SomeDiverge(r, content) || SomeUndominated(r, content)
    ensures d.determinable && !d.diverged ==> LedBy(r, content, d.leader)
  {}

  /** Over two readable instances, by what the one game between them says. */
  lemma TwoEntrants(r: seq<Instance>, content: Option<Comparator>, d: Decision)
    requires |r| == 2 && ReadableOf(r) == r && UnreadOf(r) == [] && IsVerdict(r, content, d)
    ensures d.determinable
    ensures d.diverged <==> Resolve(r[0], r[1], content) == Diverge
    ensures Resolve(r[0], r[1], content) == ADominatesB ==> d.leader == r[0].pod
    ensures Resolve(r[0], r[1], content) == BDominatesA ==> d.leader == r[1].pod
    ensures Resolve(r[0], r[1], content) == Equal ==> d.leader == r[0].pod || d.leader == r[1].pod
  {
    VerdictOfReadable(r, content, d);
    TwoGames(r, content);
  }

  lemma TwoGames(r: seq<Instance>, content: Option<Comparator>)
    requires |r| == 2
    ensures var rel := Resolve(r[0], r[1], content);
            && (SomeDiverge(r, content) <==> rel == Diverge)
            && (Undominated(r, content, 0) <==> rel != BDominatesA)
            && (Undominated(r, content, 1) <==> rel != ADominatesB)
  {
    var rel := Resolve(r[0], r[1], content);
    assert Diverges(r, content, 0, 1) <==> rel == Diverge;
    assert !Beats(r, content, 0, 0) && !Beats(r, content, 1, 1);
    assert Beats(r, content, 0, 1) <==> rel == ADominatesB;
    assert Beats(r, content, 1, 0) <==> rel == BDominatesA;
  }

  /** Healing after the diff overruled a divergence: every target but the primary is empty, or
      the primary has all its listed rows. */
  lemma DiffHealLosesNoRow(data: seq<Collected>, primaryName: string, c: Diff, cmp: DataComparison,
                           t: HealPlan.HealTarget, i: nat)
    requires IsComparison(data, primaryName, Comparing(c), cmp) && LineagesAreWellFormed(data, primaryName) &&
             NamedPods(data)
    requires DiffOf(c, Inputs(data, primaryName))
    requires HealPlan.UntargetedPlan(cmp, Assessments(data, primaryName, cmp)).Targets?
    requires t in HealPlan.UntargetedPlan(cmp, Assessments(data, primaryName, cmp)).targets && t.pod != primaryName
    requires i < |data| && data[i].pod == t.pod
    ensures ProvenEmpty(data[i]) || ContentDiff.Includes(c.db, primaryName, t.pod, c.tables)
  {
    DiffIsUsable(c, Inputs(data, primaryName));
    var source := HealPlan.UntargetedHealLosesNothing(data, primaryName, Comparing(c), Rows(c), cmp);
    assert HealPlan.LosesNothing(data, primaryName, Rows(c), t.pod, source);
  }

  /** The same for a promotion that overrides no divergence, forced or not: the promoted instance
      has all listed rows of every other. */
  lemma DiffPromotionLosesNoRow(data: seq<Collected>, primaryName: string, c: Diff, cmp: DataComparison,
                                target: string, force: bool, i: nat)
    requires IsComparison(data, primaryName, Comparing(c), cmp) && LineagesAreWellFormed(data, primaryName) &&
             NamedPods(data)
    requires DiffOf(c, Inputs(data, primaryName))
    requires var p := HealPlan.PromotionPlan(target, cmp, Assessments(data, primaryName, cmp), force);
             p.Promotion? && !p.diverged
    requires i < |data| && data[i].pod != target
    ensures ProvenEmpty(data[i]) || ContentDiff.Includes(c.db, target, data[i].pod, c.tables)
  {
    DiffIsUsable(c, Inputs(data, primaryName));
    var source := AuthorityHoldsEverything(data, primaryName, Comparing(c), Rows(c), cmp);
  }

  // ----- the append-only witness -----

  /** The witness table on each pod, and the fingerprints collected of it. */
  datatype Evidence =
    Evidence(appendOnly: bool, bases: map<string, Witness.WitnessBase>, rows: string -> seq<int>,
      digest: Witness.Digest)

  function Prefixes(w: Evidence): Extent {
    Witness.PrefixExtent(w.rows)
  }

  function Witnessing(w: Evidence): Option<Comparator> {
    Some(Witness.WitnessComparator(w.appendOnly, w.bases))
  }

  /** Truthful fingerprints of ascending positions that reach an instance only through its WAL. */
  ghost predicate WitnessOf(w: Evidence, insts: seq<Instance>) {
    && Witness.CollisionFree(w.digest) && WALBringsRows(insts, Prefixes(w))
    && forall p :: Witness.Ascending(w.rows(p)) && Witness.Faithful(Witness.BaseFor(w.bases, p), w.rows(p), w.digest)
  }

  lemma WitnessIsUsable(w: Evidence, insts: seq<Instance>)
    requires WitnessOf(w, insts)
    ensures IsExtent(Prefixes(w), insts) && Sound(Witnessing(w), Prefixes(w), insts)
    ensures Witness.FullyCut(w.bases, w.rows) ==> Strict(Witnessing(w), Prefixes(w), insts)
  {
    Witness.WitnessIsFaithful(insts, w.appendOnly, w.bases, w.rows, w.digest);
  }

  /** Where the witness may overrule the WAL, every readable instance's witnessed rows are a
      prefix of the leader's; with full cuts only an unread instance leaves the decision open. */
  lemma WitnessLeaderHoldsEveryPrefix(insts: seq<Instance>, w: Evidence, d: Decision)
    requires IsVerdict(insts, Witnessing(w), d) && AllWellFormed(insts) && WitnessOf(w, insts)
    ensures Witness.FullyCut(w.bases, w.rows) ==> (d.determinable <==> UnreadOf(insts) == [])
    ensures d.determinable && !d.diverged && ReadableOf(insts) != [] ==>
              exists leader :: Legible(insts, leader) && leader.pod == d.leader &&
                forall x :: Legible(insts, x) ==> w.rows(x.pod) <= w.rows(leader.pod)
  {
    WitnessIsUsable(w, insts);
    if Witness.FullyCut(w.bases, w.rows) {
      OnlyUnreadInstancesBlock(insts, Witnessing(w), Prefixes(w), d);
    }
    if d.determinable && !d.diverged && ReadableOf(insts) != [] {
      var leader := LeaderHoldsEveryExtent(insts, Witnessing(w), Prefixes(w), d);
      assert Legible(insts, leader) && leader.pod == d.leader;
      forall x | Legible(insts, x) ensures w.rows(x.pod) <= w.rows(leader.pod) {
        assert Prefixes(w)(x, leader);
      }
    }
  }

  /** Healing after the witness overruled a divergence: every target but the primary is empty,
      or its witnessed rows are a prefix of the primary's. */
  lemma WitnessHealLosesNoRow(data: seq<Collected>, primaryName: string, w: Evidence, cmp: DataComparison,
                              t: HealPlan.HealTarget, i: nat)
    requires IsComparison(data, primaryName, Witnessing(w), cmp) && LineagesAreWellFormed(data, primaryName) &&
             NamedPods(data)
    requires WitnessOf(w, Inputs(data, primaryName))
    requires HealPlan.UntargetedPlan(cmp, Assessments(data, primaryName, cmp)).Targets?
    requires t in HealPlan.UntargetedPlan(cmp, Assessments(data, primaryName, cmp)).targets && t.pod != primaryName
    requires i < |data| && data[i].pod == t.pod
    ensures ProvenEmpty(data[i]) || w.rows(t.pod) <= w.rows(primaryName)
  {
    WitnessIsUsable(w, Inputs(data, primaryName));
    var source := HealPlan.UntargetedHealLosesNothing(data, primaryName, Witnessing(w), Prefixes(w), cmp);
    assert HealPlan.LosesNothing(data, primaryName, Prefixes(w), t.pod, source);
  }

  /** The same for a promotion that overrides no divergence. */
  lemma WitnessPromotionLosesNoRow(data: seq<Collected>, primaryName: string, w: Evidence, cmp: DataComparison,
                                   target: string, force: bool, i: nat)
    requires IsComparison(data, primaryName, Witnessing(w), cmp) && LineagesAreWellFormed(data, primaryName) &&
             NamedPods(data)
    requires WitnessOf(w, Inputs(data, primaryName))
    requires var p := HealPlan.PromotionPlan(target, cmp, Assessments(data, primaryName, cmp), force);
             p.Promotion? && !p.diverged
    requires i < |data| && data[i].pod != target
    ensures ProvenEmpty(data[i]) || w.rows(data[i].pod) <= w.rows(target)
  {
    WitnessIsUsable(w, Inputs(data, primaryName));
    var source := AuthorityHoldsEverything(data, primaryName, Witnessing(w), Prefixes(w), cmp);
  }

  // ----- a divergence the diff overrules -----

  /** Whenever both branches wrote WAL past the fork but one has all of the other's listed rows,
      and more, every assumption above holds and that branch is elected although it lacks WAL. */
  lemma ChurnIsOverruled(a: Instance, b: Instance, c: Diff, d: Decision)
    requires ContentDiff.CollisionFree(c.h) && IsVerdict([a, b], Comparing(c), d) && Comparable(c, a.pod, b.pod)
    requires a.readState == Read && b.readState == Read && a.pod != b.pod && WellFormed(a) && WellFormed(b)
    requires Relate(a, b).0 == Diverge && !Contains(a, b) && !Contains(b, a)
    requires HasAll(c, a.pod, b.pod) && !HasAll(c, b.pod, a.pod)
    ensures AllWellFormed([a, b]) && DiffOf(c, [a, b])
    ensures d.determinable && !d.diverged && d.leader == a.pod
  {
    ContentDiff.IncludesIsPreorder(c.db, a.pod, a.pod, a.pod, c.tables);
    ContentDiff.IncludesIsPreorder(c.db, b.pod, b.pod, b.pod, c.tables);
    RowsOfPair(a, b, Rows(c));
    DiffSettlesADivergence(a, b, c, d);
  }

  lemma RowsOfPair(a: Instance, b: Instance, extent: Extent)
    requires extent(a, a) && extent(b, b) && !Contains(a, b) && !Contains(b, a)
    ensures WALBringsRows([a, b], extent)
  {
    forall x, y | Legible([a, b], x) && Legible([a, b], y) && Contains(y, x) ensures extent(x, y) {
      assert x in {a, b} && y in {a, b};
    }
  }

  /** Such branches exist: a new timeline beside writes that went on on the old one. */
  lemma ForkedPair(a: Instance, b: Instance)
    requires a == Instance("pg-1", true, Read, 2, 200, [SwitchPoint(1, 100)]) &&
             b == Instance("pg-2", false, Read, 1, 150, [])
    ensures WellFormed(a) && WellFormed(b) && Relate(a, b).0 == Diverge && !Contains(a, b) && !Contains(b, a)
  {
    ContainsIff(a, b);
    ContainsIff(b, a);
  }

  // ----- when rows disappear -----

  lemma UnbeatenHasOrContains(r: seq<Instance>, c: Diff, m: nat, i: nat)
    requires m < |r| && i < |r| && r[m].readState == Read && r[i].readState == Read
    requires WellFormed(r[m]) && WellFormed(r[i]) && ContentDiff.CollisionFree(c.h)
    requires !Beats(r, Comparing(c), i, m)
    requires i < m ==> !Diverges(r, Comparing(c), i, m)
    requires m < i ==> !Diverges(r, Comparing(c), m, i)
    ensures HasAll(c, r[m].pod, r[i].pod) || Contains(r[m], r[i])
  {
    var x, y := if i < m then r[i] else r[m], if i < m then r[m] else r[i];
    RelateSound(x, y);
    ContentDiff.VerdictIsInclusion(c.db, c.h, x.pod, y.pod, c.tables);
  }

  /** Whatever happened to the rows: a listed row that the leader elected with the diff lacks is one
      of an instance whose WAL the leader has, so it was removed by WAL the leader has. The leader
      has every listed row of everybody exactly when it has those of the instances behind it. */
  lemma LackedRowsWereRemoved(insts: seq<Instance>, c: Diff, d: Decision) returns (leader: Instance)
    requires IsVerdict(insts, Comparing(c), d) && AllWellFormed(insts) && ContentDiff.CollisionFree(c.h)
    requires d.determinable && !d.diverged && ReadableOf(insts) != []
    ensures Legible(insts, leader) && leader.pod == d.leader
    ensures forall x :: Legible(insts, x) ==> HasAll(c, leader.pod, x.pod) || Contains(leader, x)
    ensures (forall x :: Legible(insts, x) ==> HasAll(c, leader.pod, x.pod)) <==>
            (forall x :: Legible(insts, x) && Contains(leader, x) ==> HasAll(c, leader.pod, x.pod))
  {
    var r := ReadableOf(insts);
    var m := Elected(insts, Comparing(c), d);
    leader := r[m];
    assert leader in r;
    forall i | 0 <= i < |r| ensures HasAll(c, leader.pod, r[i].pod) || Contains(leader, r[i]) {
      assert r[i] in r;
      UnbeatenHasOrContains(r, c, m, i);
    }
    assert forall x :: Legible(insts, x) ==> x in r;
  }

  lemma ThreePairs(r: seq<Instance>, content: Option<Comparator>)
    requires |r| == 3
    ensures SomeDiverge(r, content) <==>
              Diverges(r, content, 0, 1) || Diverges(r, content, 0, 2) || Diverges(r, content, 1, 2)
  {
    if i, j :| 0 <= i < j < |r| && Diverges(r, content, i, j) {
      assert (i == 0 && j == 1) || (i == 0 && j == 2) || (i == 1 && j == 2);
    }
  }

  /** Three entrants of which the first dominates the second: by the two other games. */
  lemma ThreeGames(r: seq<Instance>, content: Option<Comparator>)
    requires |r| == 3 && Resolve(r[0], r[1], content) == ADominatesB
    ensures var late, side := Resolve(r[1], r[2], content), Resolve(r[0], r[2], content);
            && (SomeDiverge(r, content) <==> side == Diverge || late == Diverge)
            && !Undominated(r, content, 1) && (Undominated(r, content, 0) <==> side != BDominatesA)
            && (Undominated(r, content, 2) <==> side != ADominatesB && late != ADominatesB)
  {
    ThreePairs(r, content);
    BeatenByNone(r, content, 0);
    BeatenByNone(r, content, 1);
    BeatenByNone(r, content, 2);
  }

  lemma BeatenByNone(r: seq<Instance>, content: Option<Comparator>, m: nat)
    requires |r| == 3 && m < 3
    ensures Undominated(r, content, m) <==>
              !Beats(r, content, 0, m) && !Beats(r, content, 1, m) && !Beats(r, content, 2, m)
  {}

  /** The decision is then left open exactly when the three beat each other in a circle. */
  lemma ThreeEntrants(r: seq<Instance>, content: Option<Comparator>, d: Decision)
    requires |r| == 3 && ReadableOf(r) == r && UnreadOf(r) == [] && IsVerdict(r, content, d)
    requires Resolve(r[0], r[1], content) == ADominatesB
    ensures !d.determinable <==>
              Resolve(r[1], r[2], content) == ADominatesB && Resolve(r[0], r[2], content) == BDominatesA
  {
    VerdictOfReadable(r, content, d);
    ThreeGames(r, content);
    assert Undominated(r, content, 0) || Undominated(r, content, 2) ==> SomeUndominated(r, content);
  }

  predicate HasMore(c: Diff, a: string, b: string) {
    HasAll(c, a, b) && !HasAll(c, b, a)
  }

  /** An instance, an ancestor of it by WAL, and a branch forked from both, all of them read. */
  ghost predicate WithAncestorAndBranch(r: seq<Instance>, c: Diff) {
    && |r| == 3 && (forall i :: 0 <= i < 3 ==> r[i].readState == Read)
    && Relate(r[0], r[1]).0 == ADominatesB && Relate(r[0], r[2]).0 == Diverge && Relate(r[1], r[2]).0 == Diverge
    && Comparable(c, r[0].pod, r[2].pod) && Comparable(c, r[1].pod, r[2].pod)
  }

  /** With everything read the decision is nevertheless left open exactly when the ancestor has more
      listed rows than the branch and the branch more than the instance. */
  lemma RemovedRowsBlockIff(r: seq<Instance>, c: Diff, d: Decision)
    requires ContentDiff.CollisionFree(c.h) && WithAncestorAndBranch(r, c) && IsVerdict(r, Comparing(c), d)
    ensures !d.determinable <==> HasMore(c, r[1].pod, r[2].pod) && HasMore(c, r[2].pod, r[0].pod)
  {
    DiffResolves(r[0], r[2], c);
    DiffResolves(r[1], r[2], c);
    HealPlan.AllReadable(r);
    ThreeEntrants(r, Comparing(c), d);
  }

  /** Then the instance lacks rows of its ancestor. */
  lemma BlockedLacksRows(c: Diff, a: string, b: string, e: string)
    requires HasMore(c, b, e) && HasMore(c, e, a)
    ensures !HasAll(c, a, b)
  {
    if HasAll(c, a, b) { ContentDiff.IncludesIsPreorder(c.db, a, b, e, c.tables); }
  }

  /** Such instances: a was ahead of b and deleted two rows; e forked off before and deleted one. */
  function Deleting(h: ContentDiff.Hashing, a: string, b: string, e: string, t: string, x: string, y: string): Diff {
    Diff(map[a := map[t := []], b := map[t := [x, y]], e := map[t := [x]]], h, [t], (p, q) => false)
  }

  function Trio(a: string, b: string, e: string): seq<Instance> {
    [Instance(a, true, Read, 1, 200, []), Instance(b, false, Read, 1, 150, []),
     Instance(e, false, Read, 2, 180, [SwitchPoint(1, 100)])]
  }

  lemma RemovedRowsBlock(r: seq<Instance>, c: Diff, h: ContentDiff.Hashing, a: string, b: string, e: string,
                         t: string, x: string, y: string)
    requires a != b && b != e && a != e && r == Trio(a, b, e) && c == Deleting(h, a, b, e, t, x, y)
    ensures AllWellFormed(r) && WithAncestorAndBranch(r, c)
    ensures HasMore(c, r[1].pod, r[2].pod) && HasMore(c, r[2].pod, r[0].pod)
  {
    TrioIsForked(r, a, b, e);
    DeletedRows(h, a, b, e, t, x, y);
  }

  lemma TrioIsForked(r: seq<Instance>, a: string, b: string, e: string)
    requires r == Trio(a, b, e)
    ensures AllWellFormed(r) && |r| == 3 && forall i :: 0 <= i < 3 ==> r[i].readState == Read
    ensures r[0].pod == a && r[1].pod == b && r[2].pod == e
    ensures Relate(r[0], r[1]).0 == ADominatesB && Relate(r[0], r[2]).0 == Diverge && Relate(r[1], r[2]).0 == Diverge
  {}

  lemma DeletedRows(h: ContentDiff.Hashing, a: string, b: string, e: string, t: string, x: string, y: string)
    requires a != b && b != e && a != e
    ensures var c := Deleting(h, a, b, e, t, x, y);
            && HasMore(c, b, e) && HasMore(c, e, a) && Comparable(c, a, e) && Comparable(c, b, e)
  {
    var c := Deleting(h, a, b, e, t, x, y);
    assert c.tables[0] == t;
    TablesOf(c, t, a, []);
    TablesOf(c, t, b, [x, y]);
    TablesOf(c, t, e, [x]);
    ByRowsOf(c, t, b, e, [x, y], [x]);
    ByRowsOf(c, t, e, b, [x], [x, y]);
    ByRowsOf(c, t, e, a, [x], []);
    ByRowsOf(c, t, a, e, [], [x]);
    MoreIsMore(x, y, []);
  }

  lemma TablesOf(c: Diff, t: string, p: string, rows: seq<string>)
    requires p in c.db && c.db[p] == map[t := rows]
    ensures ContentDiff.Rows(c.db, p, t) == rows && ContentDiff.HasTable(c.db, p, t)
  {}

  lemma ByRowsOf(c: Diff, t: string, p: string, q: string, ps: seq<string>, qs: seq<string>)
    requires c.tables == [t] && ContentDiff.Rows(c.db, p, t) == ps && ContentDiff.Rows(c.db, q, t) == qs
    ensures HasAll(c, p, q) <==> multiset(qs) <= multiset(ps)
  {
    assert ContentDiff.Inside(c.db, p, q, t) <==> multiset(qs) <= multiset(ps);
    assert c.tables[0] == t;
  }

  lemma MoreIsMore(x: string, y: string, none: seq<string>)
    requires none == []
    ensures multiset([x]) <= multiset([x, y]) && !(multiset([x, y]) <= multiset([x]))
    ensures multiset(none) <= multiset([x]) && !(multiset([x]) <= multiset(none))
  {
    assert [x, y] == [x] + [y];
    assert multiset([x, y])[y] > multiset([x])[y];
    assert multiset([x])[x] > multiset(none)[x];
  }
}
