// The authority verdict over a whole cluster: legibility first, then a pairwise tournament
// by WAL lineage, which a content comparator may only refine where lineage diverges.
module Authority {
  import opened Options
  import opened Text
  import opened Lineage

  datatype ContentRelation = Unknown | SameContent | AContainsB | BContainsA | Crossed

  type Comparator = (Instance, Instance) -> ContentRelation

  datatype Blocker = UnreadInstance(pod: string) | NoMaximum

  datatype Decision = Decision(
    determinable: bool,
    leader: string,
    diverged: bool,
    blockers: seq<Blocker>,
    divergences: seq<(string, string, int)>)

  /** The pairwise relation after the comparator had its say on a divergence. */
  function Resolve(a: Instance, b: Instance, content: Option<Comparator>): Relation {
    var rel := Relate(a, b).0;
    if rel != Diverge || content.None? then rel
    else
      match content.value(a, b)
      case AContainsB => ADominatesB
      case BContainsA => BDominatesA
      case SameContent => Equal
      case _ => Diverge
  }

  function UnreadOf(insts: seq<Instance>): seq<Blocker> {
    if insts == [] then []
    else if insts[|insts| - 1].readState == Unread then
      UnreadOf(insts[..|insts| - 1]) + [UnreadInstance(insts[|insts| - 1].pod)]
    else UnreadOf(insts[..|insts| - 1])
  }

  function ReadableOf(insts: seq<Instance>): (r: seq<Instance>)
    ensures forall x :: x in r <==> x in insts && x.readState == Read
  {
    if insts == [] then []
    else
      var init, last := insts[..|insts| - 1], insts[|insts| - 1];
      assert insts == init + [last];
      if last.readState == Read then ReadableOf(init) + [last] else ReadableOf(init)
  }

  lemma {:induction false} ReadableStaysDistinct(insts: seq<Instance>)
    requires Distinct(insts)
    ensures Distinct(ReadableOf(insts))
  {
    if insts != [] {
      var init, last := insts[..|insts| - 1], insts[|insts| - 1];
      ReadableStaysDistinct(init);
      assert insts == init + [last];
      forall i | 0 <= i < |ReadableOf(init)| ensures ReadableOf(init)[i].pod != last.pod {
        assert ReadableOf(init)[i] in init;
      }
    }
  }

  ghost predicate Distinct(insts: seq<Instance>) {
    forall i, j :: 0 <= i < j < |insts| ==> insts[i].pod != insts[j].pod
  }

  // ----- the tournament -----

  /** Readable instance j loses the game it plays against i; games are played once, with the
      earlier instance as the first argument. */
  ghost predicate Beats(r: seq<Instance>, content: Option<Comparator>, i: nat, j: nat)
    requires i < |r| && j < |r|
  {
    || (i < j && Resolve(r[i], r[j], content) == ADominatesB)
    || (j < i && Resolve(r[j], r[i], content) == BDominatesA)
  }

  ghost predicate Undominated(r: seq<Instance>, content: Option<Comparator>, m: nat)
    requires m < |r|
  {
    forall i :: 0 <= i < |r| ==> !Beats(r, content, i, m)
  }

  /** The sort order of pickLeader: the primary, then the furthest checkpoint, then the name. */
  predicate Precedes(x: Instance, y: Instance) {
    if x.isPrimary != y.isPrimary then x.isPrimary
    else if x.checkpointLSN != y.checkpointLSN then x.checkpointLSN > y.checkpointLSN
    else LexLess(x.pod, y.pod)
  }

  lemma PrecedesIsTotal(x: Instance, y: Instance)
    ensures Precedes(x, y) || Precedes(y, x) || x.pod == y.pod
    ensures !(Precedes(x, y) && Precedes(y, x))
  {
    LexTrichotomy(x.pod, y.pod);
  }

  lemma PrecedesTransitive(x: Instance, y: Instance, z: Instance)
    requires !Precedes(y, x) && !Precedes(z, y)
    ensures !Precedes(z, x)
  {
    LexTrichotomy(x.pod, y.pod);
    LexTrichotomy(y.pod, z.pod);
    LexTrichotomy(x.pod, z.pod);
    if LexLess(x.pod, y.pod) && LexLess(y.pod, z.pod) {
      LexTransitive(x.pod, y.pod, z.pod);
    }
  }

  method PickLeader(cands: seq<Instance>) returns (best: Instance)
    requires cands != []
    ensures best in cands
    ensures forall c :: c in cands ==> !Precedes(c, best)
  {
    best := cands[0];
    PrecedesIsTotal(best, best);
    for i := 1 to |cands|
      invariant best in cands[..i]
      invariant forall c :: c in cands[..i] ==> !Precedes(c, best)
    {
      var was := best;
      if Precedes(cands[i], best) {
        best := cands[i];
      }
      PrecedesIsTotal(cands[i], was);
      PrecedesIsTotal(best, best);
      forall c | c in cands[..i + 1] ensures !Precedes(c, best) {
        if c in cands[..i] { PrecedesTransitive(best, was, c); }
      }
    }
    assert cands[..|cands|] == cands;
  }

  ghost predicate Diverges(r: seq<Instance>, content: Option<Comparator>, i: nat, j: nat)
    requires i < j < |r|
  {
    Resolve(r[i], r[j], content) == Diverge
  }

  /** What the verdict must be, clause by clause, in terms of the instances it was given. */
  ghost predicate IsVerdict(insts: seq<Instance>, content: Option<Comparator>, d: Decision) {
    var r := ReadableOf(insts);
    if UnreadOf(insts) != [] then
      d == Decision(false, "", false, UnreadOf(insts), [])
    else if r == [] then
      d == Decision(true, "", false, [], [])
    else if |r| == 1 then
      d == Decision(true, r[0].pod, false, [], [])
    else if exists i, j :: 0 <= i < j < |r| && Diverges(r, content, i, j) then
      && d.determinable && d.diverged && d.leader == "" && d.blockers == []
      && ListsDivergences(d.divergences, r, content, |r|, 0)
    else if exists m :: 0 <= m < |r| && Undominated(r, content, m) then
      && d == Decision(true, d.leader, false, [], [])
      && exists m :: 0 <= m < |r| && IsLeader(r, content, m) && d.leader == r[m].pod
    else
      d == Decision(false, "", false, [NoMaximum], [])
  }

  ghost predicate IsLeader(r: seq<Instance>, content: Option<Comparator>, m: nat)
    requires m < |r|
  {
    && Undominated(r, content, m)
    && forall c :: 0 <= c < |r| && Undominated(r, content, c) ==> !Precedes(r[c], r[m])
  }

  /** Game (x, y) was played before game (i, j) when walking i < j row by row. */
  predicate Played(x: int, y: int, i: int, j: int) {
    x < i || (x == i && y < j)
  }

  ghost predicate LostSoFar(r: seq<Instance>, content: Option<Comparator>, m: nat, i: nat, j: nat)
    requires m < |r|
  {
    || (exists x :: 0 <= x < m && Played(x, m, i, j) && Beats(r, content, x, m))
    || (exists y :: m < y < |r| && Played(m, y, i, j) && Beats(r, content, y, m))
  }

  /** counts is non-zero exactly at the instances that lost a game before (i, j). */
  ghost predicate CountsLosses(counts: seq<int>, r: seq<Instance>, content: Option<Comparator>, i: nat, j: nat) {
    && |counts| == |r|
    && forall m :: 0 <= m < |r| ==> counts[m] >= 0 && (counts[m] > 0 <==> LostSoFar(r, content, m, i, j))
  }

  function Finding(x: Instance, y: Instance): (string, string, int) {
    (x.pod, y.pod, Relate(x, y).1)
  }

  /** divs lists exactly the diverging games before (i, j). */
  ghost predicate ListsDivergences(divs: seq<(string, string, int)>, r: seq<Instance>, content: Option<Comparator>,
                                   i: nat, j: nat) {
    && (forall x, y :: 0 <= x < y < |r| && Played(x, y, i, j) && Diverges(r, content, x, y) ==>
          Finding(r[x], r[y]) in divs)
    && (forall e :: e in divs ==> IsFinding(e, r, content))
  }

  ghost predicate IsFinding(e: (string, string, int), r: seq<Instance>, content: Option<Comparator>) {
    exists x, y :: 0 <= x < y < |r| && Diverges(r, content, x, y) && e == Finding(r[x], r[y])
  }

  method DetermineAuthority(insts: seq<Instance>, content: Option<Comparator>) returns (d: Decision)
    ensures IsVerdict(insts, content, d)
  {
    var blockers: seq<Blocker> := [];
    var readable: seq<Instance> := [];
    for i := 0 to |insts|
      invariant blockers == UnreadOf(insts[..i])
      invariant readable == ReadableOf(insts[..i])
    {
      assert insts[..i + 1][..i] == insts[..i];
      if insts[i].readState == Unread {
        blockers := blockers + [UnreadInstance(insts[i].pod)];
      }
      if insts[i].readState == Read {
        readable := readable + [insts[i]];
      }
    }
    assert insts[..|insts|] == insts;
    if blockers != [] {
      return Decision(false, "", false, blockers, []);
    }
    if readable == [] {
      return Decision(true, "", false, [], []);
    }
    if |readable| == 1 {
      return Decision(true, readable[0].pod, false, [], []);
    }
    var dominatedBy, divergences := PlayAll(readable, content);
    if divergences != [] {
      assert IsFinding(divergences[0], readable, content);
      return Decision(true, "", true, [], divergences);
    }
    assert forall i, j :: 0 <= i < j < |readable| ==> Played(i, j, |readable|, 0);
    d := ElectLeader(readable, content, dominatedBy);
  }

  /** The nested loops: count every loss and collect every divergence. */
  method PlayAll(readable: seq<Instance>, content: Option<Comparator>)
    returns (dominatedBy: array<int>, divergences: seq<(string, string, int)>)
    ensures fresh(dominatedBy) && dominatedBy.Length == |readable|
    ensures forall m :: 0 <= m < |readable| ==>
              (dominatedBy[m] == 0 <==> Undominated(readable, content, m))
    ensures ListsDivergences(divergences, readable, content, |readable|, 0)
  {
    var n := |readable|;
    dominatedBy := new int[n](_ => 0);
    divergences := [];
    for i := 0 to n
      invariant fresh(dominatedBy) && dominatedBy.Length == n
      invariant CountsLosses(dominatedBy[..], readable, content, i, 0)
      invariant ListsDivergences(divergences, readable, content, i, 0)
    {
      divergences := PlayRow(readable, content, i, dominatedBy, divergences);
    }
    CountsDecide(dominatedBy[..], readable, content);
    forall m | 0 <= m < n ensures dominatedBy[m] == 0 <==> Undominated(readable, content, m) {
      assert dominatedBy[m] == dominatedBy[..][m];
    }
  }

  method CountLoss(dominatedBy: array<int>, k: nat)
    requires k < dominatedBy.Length
    modifies dominatedBy
    ensures dominatedBy[..] == old(dominatedBy[..])[k := old(dominatedBy[..])[k] + 1]
  {
    dominatedBy[k] := dominatedBy[k] + 1;
  }

  /** One game: the loser is counted, a divergence is recorded. */
  method PlayGame(readable: seq<Instance>, content: Option<Comparator>, i: nat, j: nat, dominatedBy: array<int>,
                  before: seq<(string, string, int)>)
    returns (divergences: seq<(string, string, int)>)
    requires i < j < |readable| == dominatedBy.Length
    requires CountsLosses(dominatedBy[..], readable, content, i, j) && ListsDivergences(before, readable, content, i, j)
    modifies dominatedBy
    ensures CountsLosses(dominatedBy[..], readable, content, i, j + 1)
    ensures ListsDivergences(divergences, readable, content, i, j + 1)
  {
    divergences := before;
    var fork := Relate(readable[i], readable[j]).1;
    var rel := Resolve(readable[i], readable[j], content);
    ghost var counts := dominatedBy[..];
    match rel {
      case Diverge => divergences := divergences + [(readable[i].pod, readable[j].pod, fork)];
      case ADominatesB => CountLoss(dominatedBy, j);
      case BDominatesA => CountLoss(dominatedBy, i);
      case Equal =>
    }
    OneMoreCount(counts, dominatedBy[..], readable, content, i, j);
    OneMoreFinding(before, divergences, readable, content, i, j);
  }

  /** One row of the tournament. */
  method PlayRow(readable: seq<Instance>, content: Option<Comparator>, i: nat, dominatedBy: array<int>,
                 before: seq<(string, string, int)>)
    returns (divergences: seq<(string, string, int)>)
    requires i < |readable| == dominatedBy.Length
    requires CountsLosses(dominatedBy[..], readable, content, i, 0) && ListsDivergences(before, readable, content, i, 0)
    modifies dominatedBy
    ensures CountsLosses(dominatedBy[..], readable, content, i + 1, 0)
    ensures ListsDivergences(divergences, readable, content, i + 1, 0)
  {
    divergences := before;
    RowStart(dominatedBy[..], divergences, readable, content, i);
    for j := i + 1 to |readable|
      invariant CountsLosses(dominatedBy[..], readable, content, i, j)
      invariant ListsDivergences(divergences, readable, content, i, j)
    {
      divergences := PlayGame(readable, content, i, j, dominatedBy, divergences);
    }
    RowEnd(dominatedBy[..], divergences, readable, content, i);
  }

  lemma CountsDecide(counts: seq<int>, r: seq<Instance>, content: Option<Comparator>)
    requires CountsLosses(counts, r, content, |r|, 0)
    ensures forall m :: 0 <= m < |r| ==> (counts[m] == 0 <==> Undominated(r, content, m))
  {
    forall m | 0 <= m < |r| ensures counts[m] == 0 <==> Undominated(r, content, m) {
      AllPlayed(r, content, m);
    }
  }

  lemma RowStart(counts: seq<int>, divs: seq<(string, string, int)>, r: seq<Instance>, content: Option<Comparator>,
                 i: nat)
    requires i < |r| && CountsLosses(counts, r, content, i, 0) && ListsDivergences(divs, r, content, i, 0)
    ensures CountsLosses(counts, r, content, i, i + 1) && ListsDivergences(divs, r, content, i, i + 1)
  {
    assert forall x, y :: 0 <= x < y ==> (Played(x, y, i, 0) <==> Played(x, y, i, i + 1));
  }

  lemma RowEnd(counts: seq<int>, divs: seq<(string, string, int)>, r: seq<Instance>, content: Option<Comparator>,
               i: nat)
    requires i < |r| && CountsLosses(counts, r, content, i, |r|) && ListsDivergences(divs, r, content, i, |r|)
    ensures CountsLosses(counts, r, content, i + 1, 0) && ListsDivergences(divs, r, content, i + 1, 0)
  {
    assert forall x, y :: 0 <= y < |r| ==> (Played(x, y, i, |r|) <==> Played(x, y, i + 1, 0));
  }

  lemma OneMoreCount(counts: seq<int>, counts': seq<int>, r: seq<Instance>, content: Option<Comparator>, i: nat, j: nat)
    requires i < j < |r| && CountsLosses(counts, r, content, i, j)
    requires match Resolve(r[i], r[j], content)
             case ADominatesB => counts' == counts[j := counts[j] + 1]
             case BDominatesA => counts' == counts[i := counts[i] + 1]
             case _ => counts' == counts
    ensures CountsLosses(counts', r, content, i, j + 1)
  {
    forall m | 0 <= m < |r|
      ensures counts'[m] >= 0 && (counts'[m] > 0 <==> LostSoFar(r, content, m, i, j + 1))
    {
      OneMoreGame(r, content, m, i, j);
    }
  }

  lemma OneMoreFinding(divs: seq<(string, string, int)>, divs': seq<(string, string, int)>, r: seq<Instance>,
                       content: Option<Comparator>, i: nat, j: nat)
    requires i < j < |r| && ListsDivergences(divs, r, content, i, j)
    requires divs' == if Resolve(r[i], r[j], content) == Diverge then divs + [Finding(r[i], r[j])] else divs
    ensures ListsDivergences(divs', r, content, i, j + 1)
  {
    if Resolve(r[i], r[j], content) == Diverge {
      assert Diverges(r, content, i, j);
      assert IsFinding(Finding(r[i], r[j]), r, content);
    }
    forall x, y | 0 <= x < y < |r| && Played(x, y, i, j + 1) && Diverges(r, content, x, y)
      ensures Finding(r[x], r[y]) in divs'
    {
      assert Played(x, y, i, j) || (x == i && y == j);
    }
  }

  lemma OneMoreGame(r: seq<Instance>, content: Option<Comparator>, m: nat, i: nat, j: nat)
    requires m < |r| && i < j < |r|
    ensures LostSoFar(r, content, m, i, j + 1) <==>
            || LostSoFar(r, content, m, i, j)
            || (m == j && Resolve(r[i], r[j], content) == ADominatesB)
            || (m == i && Resolve(r[i], r[j], content) == BDominatesA)
  {
    if m == j && Resolve(r[i], r[j], content) == ADominatesB {
      assert Beats(r, content, i, m) && Played(i, m, i, j + 1);
    }
    if m == i && Resolve(r[i], r[j], content) == BDominatesA {
      assert Beats(r, content, j, m) && Played(m, j, i, j + 1);
    }
    if LostSoFar(r, content, m, i, j) {
      if x :| 0 <= x < m && Played(x, m, i, j) && Beats(r, content, x, m) {
        assert Played(x, m, i, j + 1);
      } else {
        var y :| m < y < |r| && Played(m, y, i, j) && Beats(r, content, y, m);
        assert Played(m, y, i, j + 1);
      }
    }
    if LostSoFar(r, content, m, i, j + 1) {
      if x :| 0 <= x < m && Played(x, m, i, j + 1) && Beats(r, content, x, m) {
        assert Played(x, m, i, j) || (x == i && m == j);
      } else {
        var y :| m < y < |r| && Played(m, y, i, j + 1) && Beats(r, content, y, m);
        assert Played(m, y, i, j) || (m == i && y == j);
      }
    }
  }

  lemma AllPlayed(r: seq<Instance>, content: Option<Comparator>, m: nat)
    requires m < |r|
    ensures LostSoFar(r, content, m, |r|, 0) <==> !Undominated(r, content, m)
  {
    assert forall x, y :: 0 <= x < |r| ==> Played(x, y, |r|, 0);
    assert forall i :: 0 <= i < |r| && Beats(r, content, i, m) ==> i < m || m < i;
  }

  method ElectLeader(readable: seq<Instance>, content: Option<Comparator>, dominatedBy: array<int>)
    returns (d: Decision)
    requires dominatedBy.Length == |readable|
    requires forall m :: 0 <= m < |readable| ==> (dominatedBy[m] == 0 <==> Undominated(readable, content, m))
    ensures if exists m :: 0 <= m < |readable| && Undominated(readable, content, m) then
              && d == Decision(true, d.leader, false, [], [])
              && exists m :: 0 <= m < |readable| && IsLeader(readable, content, m) && d.leader == readable[m].pod
            else d == Decision(false, "", false, [NoMaximum], [])
  {
    var candidates: seq<Instance> := [];
    for i := 0 to |readable|
      invariant forall m :: 0 <= m < i && Undominated(readable, content, m) ==> readable[m] in candidates
      invariant forall c :: c in candidates ==>
                  exists m :: 0 <= m < i && Undominated(readable, content, m) && readable[m] == c
    {
      if dominatedBy[i] == 0 {
        candidates := candidates + [readable[i]];
      }
    }
    if candidates == [] {
      return Decision(false, "", false, [NoMaximum], []);
    }
    var leader := PickLeader(candidates);
    ghost var m :| 0 <= m < |readable| && Undominated(readable, content, m) && readable[m] == leader;
    assert IsLeader(readable, content, m);
    d := Decision(true, leader.pod, false, [], []);
  }

  // ----- what the comparator is allowed to claim -----

  /** Swapping the arguments flips the comparator's answer. */
  ghost predicate Symmetric(content: Option<Comparator>) {
    content.Some? ==> forall a, b :: content.value(b, a) == FlipContent(content.value(a, b))
  }

  function FlipContent(r: ContentRelation): ContentRelation {
    match r
    case AContainsB => BContainsA
    case BContainsA => AContainsB
    case _ => r
  }

  /** `extent(x, y)`: every committed row of x is on y too. */
  type Extent = (Instance, Instance) -> bool

  /** An instance whose position was collected and read. */
  predicate Legible(insts: seq<Instance>, x: Instance) {
    x in insts && x.readState == Read
  }

  /** Rows are only ever written through the WAL: of the collected instances, one whose WAL
      includes another's has its rows too. */
  ghost predicate WALBringsRows(insts: seq<Instance>, extent: Extent) {
    forall x, y :: Legible(insts, x) && Legible(insts, y) && Contains(y, x) ==> extent(x, y)
  }

  /** On the collected instances, extent is a preorder that the WAL brings along. */
  ghost predicate IsExtent(extent: Extent, insts: seq<Instance>) {
    && (forall x :: Legible(insts, x) ==> extent(x, x))
    && (forall x, y, z ::
          Legible(insts, x) && Legible(insts, y) && Legible(insts, z) && extent(x, y) && extent(y, z) ==>
            extent(x, z))
    && WALBringsRows(insts, extent)
  }

  /** Two collected instances the comparator is asked about. */
  predicate Asked(insts: seq<Instance>, a: Instance, b: Instance) {
    Legible(insts, a) && Legible(insts, b) && Relate(a, b).0 == Diverge
  }

  /** What it then claims to be contained is contained. */
  ghost predicate Sound(content: Option<Comparator>, extent: Extent, insts: seq<Instance>) {
    content.Some? ==> forall a, b :: Asked(insts, a, b) ==>
      && (content.value(a, b) == AContainsB ==> extent(b, a))
      && (content.value(a, b) == BContainsA ==> extent(a, b))
      && (content.value(a, b) == SameContent ==> extent(a, b) && extent(b, a))
  }

  /** A claim of one-sided containment is one-sided: equal content is reported as equal. */
  ghost predicate Strict(content: Option<Comparator>, extent: Extent, insts: seq<Instance>) {
    content.Some? ==> forall a, b :: Asked(insts, a, b) ==>
      && (content.value(a, b) == AContainsB ==> !extent(a, b))
      && (content.value(a, b) == BContainsA ==> !extent(b, a))
  }

  lemma ResolveFlips(a: Instance, b: Instance, content: Option<Comparator>)
    requires Symmetric(content)
    ensures Resolve(b, a, content) == Flip(Resolve(a, b, content))
  {
    RelateFlips(a, b);
    if content.Some? {
      assert content.value(b, a) == FlipContent(content.value(a, b));
    }
  }

  lemma ResolveSound(insts: seq<Instance>, a: Instance, b: Instance, content: Option<Comparator>, extent: Extent)
    requires Legible(insts, a) && Legible(insts, b) && WellFormed(a) && WellFormed(b)
    requires IsExtent(extent, insts) && Sound(content, extent, insts)
    ensures Resolve(a, b, content) == ADominatesB ==> extent(b, a)
    ensures Resolve(a, b, content) == BDominatesA ==> extent(a, b)
    ensures Resolve(a, b, content) == Equal ==> extent(a, b) && extent(b, a)
  {
    RelateSound(a, b);
    assert Relate(a, b).0 == Diverge ==> Asked(insts, a, b);
  }

  ghost predicate AllWellFormed(insts: seq<Instance>) {
    forall x :: x in insts && x.readState == Read ==> WellFormed(x)
  }

  /** With no divergence, the leader is a readable instance that lost to nobody. */
  lemma Elected(insts: seq<Instance>, content: Option<Comparator>, d: Decision) returns (m: nat)
    requires IsVerdict(insts, content, d) && d.determinable && !d.diverged && ReadableOf(insts) != []
    ensures m < |ReadableOf(insts)| && d.leader == ReadableOf(insts)[m].pod
    ensures Undominated(ReadableOf(insts), content, m)
    ensures forall i, j :: 0 <= i < j < |ReadableOf(insts)| ==> !Diverges(ReadableOf(insts), content, i, j)
  {
    var r := ReadableOf(insts);
    if |r| == 1 {
      m := 0;
    } else {
      m :| 0 <= m < |r| && IsLeader(r, content, m) && d.leader == r[m].pod;
    }
  }

  lemma UnbeatenHoldsExtent(r: seq<Instance>, content: Option<Comparator>, extent: Extent, m: nat, i: nat)
    requires m < |r| && i < |r| && Legible(r, r[i]) && Legible(r, r[m]) && WellFormed(r[i]) && WellFormed(r[m])
    requires IsExtent(extent, r) && Sound(content, extent, r)
    requires !Beats(r, content, i, m)
    requires i < m ==> !Diverges(r, content, i, m)
    requires m < i ==> !Diverges(r, content, m, i)
    ensures extent(r[i], r[m])
  {
    ResolveSound(r, r[i], r[m], content, extent);
    ResolveSound(r, r[m], r[i], content, extent);
  }

  lemma ReadableInherits(insts: seq<Instance>, content: Option<Comparator>, extent: Extent)
    requires IsExtent(extent, insts) && Sound(content, extent, insts)
    ensures IsExtent(extent, ReadableOf(insts)) && Sound(content, extent, ReadableOf(insts))
    ensures Strict(content, extent, insts) ==> Strict(content, extent, ReadableOf(insts))
  {
    assert forall x :: Legible(ReadableOf(insts), x) ==> Legible(insts, x);
    assert forall a, b :: Asked(ReadableOf(insts), a, b) ==> Asked(insts, a, b);
  }

  /** The leader's rows include those of every readable instance. */
  lemma LeaderHoldsEveryExtent(insts: seq<Instance>, content: Option<Comparator>, extent: Extent, d: Decision)
    returns (leader: Instance)
    requires IsVerdict(insts, content, d) && d.determinable && !d.diverged && ReadableOf(insts) != []
    requires AllWellFormed(insts) && IsExtent(extent, insts) && Sound(content, extent, insts)
    ensures leader in insts && leader.readState == Read && leader.pod == d.leader
    ensures forall x :: x in insts && x.readState == Read ==> extent(x, leader)
  {
    var r := ReadableOf(insts);
    var m := Elected(insts, content, d);
    ReadableInherits(insts, content, extent);
    leader := r[m];
    assert leader in r;
    forall i | 0 <= i < |r| ensures extent(r[i], leader) {
      assert r[i] in r && r[m] in r;
      UnbeatenHoldsExtent(r, content, extent, m, i);
    }
    assert forall x :: x in insts && x.readState == Read ==> x in r;
  }

  /** WAL lineage alone: the leader's WAL includes the WAL of every readable instance. */
  lemma LeaderHoldsAllWAL(insts: seq<Instance>, d: Decision) returns (leader: Instance)
    requires IsVerdict(insts, None, d) && d.determinable && !d.diverged && ReadableOf(insts) != []
    requires AllWellFormed(insts)
    ensures leader in insts && leader.readState == Read && leader.pod == d.leader
    ensures forall x :: x in insts && x.readState == Read ==> Contains(leader, x)
  {
    leader := LeaderHoldsEveryExtent(insts, None, (x, y) => Contains(y, x), d);
  }

  // ----- the tournament always has a winner -----

  /** x is strictly below y: fewer rows, or the same rows and a lower rank. */
  ghost predicate Below(extent: Extent, x: Instance, y: Instance) {
    extent(x, y) && (!extent(y, x) || RankBelow(x, y))
  }

  lemma LosingIsBelow(r: seq<Instance>, content: Option<Comparator>, extent: Extent, i: nat, j: nat)
    requires i < |r| && j < |r| && Legible(r, r[i]) && Legible(r, r[j]) && WellFormed(r[i]) && WellFormed(r[j])
    requires IsExtent(extent, r) && Sound(content, extent, r) && Strict(content, extent, r)
    requires Beats(r, content, i, j)
    ensures Below(extent, r[j], r[i])
  {
    var a, b := if i < j then i else j, if i < j then j else i;
    ResolveSound(r, r[a], r[b], content, extent);
    DominanceRaisesRank(r[a], r[b]);
    assert Relate(r[a], r[b]).0 == Diverge ==> Asked(r, r[a], r[b]);
  }

  lemma BelowIsStrictOrder(r: seq<Instance>, extent: Extent, x: Instance, y: Instance, z: Instance)
    requires IsExtent(extent, r) && Legible(r, x) && Legible(r, y) && Legible(r, z)
    requires Below(extent, x, y) && Below(extent, y, z)
    ensures Below(extent, x, z)
    ensures !Below(extent, y, x)
  {
    assert extent(x, z);
    if extent(z, x) {
      assert extent(y, x) && extent(z, y);
    }
  }

  /** A finite tournament whose losses go strictly up has an entrant above none of the rest. */
  lemma {:induction false} SomeoneIsMaximal(r: seq<Instance>, extent: Extent, n: nat) returns (m: nat)
    requires 0 < n <= |r| && IsExtent(extent, r) && forall i :: 0 <= i < |r| ==> Legible(r, r[i])
    ensures m < n && forall i :: 0 <= i < n ==> !Below(extent, r[m], r[i])
  {
    if n == 1 {
      m := 0;
    } else {
      m := SomeoneIsMaximal(r, extent, n - 1);
      if Below(extent, r[m], r[n - 1]) {
        var was := m;
        m := n - 1;
        forall i | 0 <= i < n ensures !Below(extent, r[m], r[i]) {
          if i < n - 1 && Below(extent, r[m], r[i]) {
            BelowIsStrictOrder(r, extent, r[was], r[m], r[i]);
          }
        }
      }
    }
  }

  /** The "no instance dominates the rest" refusal is unreachable: only an unread instance
      makes the verdict undeterminable. */
  lemma OnlyUnreadInstancesBlock(insts: seq<Instance>, content: Option<Comparator>, extent: Extent, d: Decision)
    requires IsVerdict(insts, content, d) && AllWellFormed(insts)
    requires IsExtent(extent, insts) && Sound(content, extent, insts) && Strict(content, extent, insts)
    ensures d.determinable <==> UnreadOf(insts) == []
    ensures NoMaximum !in d.blockers
  {
    var r := ReadableOf(insts);
    UnreadOfHasNoSentinel(insts);
    ReadableInherits(insts, content, extent);
    if UnreadOf(insts) == [] && |r| > 1 {
      forall i | 0 <= i < |r| ensures Legible(r, r[i]) { assert r[i] in r; }
      var m := SomeoneIsMaximal(r, extent, |r|);
      forall i | 0 <= i < |r| ensures !Beats(r, content, i, m) {
        assert r[i] in r && r[m] in r;
        if Beats(r, content, i, m) { LosingIsBelow(r, content, extent, i, m); }
      }
      assert Undominated(r, content, m);
    }
  }

  /** By WAL lineage alone the verdict is decided as soon as nothing is unread. */
  lemma LineageAlwaysElects(insts: seq<Instance>, d: Decision)
    requires IsVerdict(insts, None, d) && AllWellFormed(insts)
    ensures d.determinable <==> forall x :: x in insts ==> x.readState != Unread
    ensures NoMaximum !in d.blockers
  {
    OnlyUnreadInstancesBlock(insts, None, (x, y) => Contains(y, x), d);
    UnreadOfHasNoSentinel(insts);
  }

  lemma {:induction false} UnreadOfHasNoSentinel(insts: seq<Instance>)
    ensures NoMaximum !in UnreadOf(insts)
    ensures UnreadOf(insts) == [] <==> forall x :: x in insts ==> x.readState != Unread
  {
    if insts != [] {
      UnreadOfHasNoSentinel(insts[..|insts| - 1]);
      assert insts == insts[..|insts| - 1] + [insts[|insts| - 1]];
    }
  }

  // ----- the verdict does not depend on the order of the input -----

  function SetOf(r: seq<Instance>): set<Instance> {
    set x | x in r
  }

  /** x lost to nobody, said without positions. */
  ghost predicate UnbeatenIn(s: set<Instance>, content: Option<Comparator>, x: Instance) {
    forall y :: y in s && y != x ==> Resolve(y, x, content) != ADominatesB
  }

  lemma UndominatedIsPositionFree(r: seq<Instance>, content: Option<Comparator>, m: nat)
    requires m < |r| && Distinct(r) && Symmetric(content)
    ensures Undominated(r, content, m) <==> UnbeatenIn(SetOf(r), content, r[m])
  {
    forall i | 0 <= i < |r| && i != m
      ensures Beats(r, content, i, m) <==> Resolve(r[i], r[m], content) == ADominatesB
    {
      ResolveFlips(r[i], r[m], content);
    }
    if UnbeatenIn(SetOf(r), content, r[m]) {
      forall i | 0 <= i < |r| ensures !Beats(r, content, i, m) {
        if i != m { assert r[i].pod != r[m].pod; }
      }
    }
  }

  lemma DivergenceIsPositionFree(r: seq<Instance>, content: Option<Comparator>)
    requires Distinct(r) && Symmetric(content)
    ensures (exists i, j :: 0 <= i < j < |r| && Diverges(r, content, i, j)) <==>
            (exists x, y :: x in r && y in r && x.pod != y.pod && Resolve(x, y, content) == Diverge)
  {
    if x, y :| x in r && y in r && x.pod != y.pod && Resolve(x, y, content) == Diverge {
      var i, j :| 0 <= i < |r| && 0 <= j < |r| && r[i] == x && r[j] == y;
      ResolveFlips(x, y, content);
      assert if i < j then Diverges(r, content, i, j) else Diverges(r, content, j, i);
    }
    if i, j :| 0 <= i < j < |r| && Diverges(r, content, i, j) {
      assert r[i] in r && r[j] in r && r[i].pod != r[j].pod && Resolve(r[i], r[j], content) == Diverge;
    }
  }

  lemma {:induction false} DistinctHasNoRepeats(r: seq<Instance>)
    requires Distinct(r)
    ensures |r| == |SetOf(r)|
  {
    if r != [] {
      var init, last := r[..|r| - 1], r[|r| - 1];
      DistinctHasNoRepeats(init);
      assert r == init + [last];
      assert SetOf(r) == SetOf(init) + {last};
      assert last !in init;
    }
  }

  /** Permuted inputs are read alike: the same instances are readable, and as many. */
  lemma SameReadable(p: seq<Instance>, q: seq<Instance>)
    requires multiset(p) == multiset(q) && Distinct(p) && Distinct(q)
    ensures forall x :: x in ReadableOf(p) <==> x in ReadableOf(q)
    ensures |ReadableOf(p)| == |ReadableOf(q)| && (UnreadOf(p) == [] <==> UnreadOf(q) == [])
    ensures Distinct(ReadableOf(p)) && Distinct(ReadableOf(q))
  {
    assert forall x :: x in p <==> x in multiset(p);
    assert forall x :: x in q <==> x in multiset(q);
    UnreadOfHasNoSentinel(p);
    UnreadOfHasNoSentinel(q);
    assert SetOf(ReadableOf(p)) == SetOf(ReadableOf(q));
    ReadableStaysDistinct(p);
    ReadableStaysDistinct(q);
    DistinctHasNoRepeats(ReadableOf(p));
    DistinctHasNoRepeats(ReadableOf(q));
  }

  lemma SameDivergence(r: seq<Instance>, s: seq<Instance>, content: Option<Comparator>)
    requires Distinct(r) && Distinct(s) && Symmetric(content) && forall x :: x in r <==> x in s
    ensures (exists i, j :: 0 <= i < j < |r| && Diverges(r, content, i, j)) <==>
            (exists i, j :: 0 <= i < j < |s| && Diverges(s, content, i, j))
  {
    DivergenceIsPositionFree(r, content);
    DivergenceIsPositionFree(s, content);
  }

  /** Leader and verdict are the same under every permutation of the input. */
  lemma VerdictIgnoresOrder(p: seq<Instance>, q: seq<Instance>, content: Option<Comparator>, d: Decision, e: Decision)
    requires multiset(p) == multiset(q) && Distinct(p) && Distinct(q) && Symmetric(content)
    requires IsVerdict(p, content, d) && IsVerdict(q, content, e)
    ensures d.determinable == e.determinable && d.diverged == e.diverged && d.leader == e.leader
  {
    var r, s := ReadableOf(p), ReadableOf(q);
    SameReadable(p, q);
    UnreadOfHasNoSentinel(p);
    UnreadOfHasNoSentinel(q);
    if UnreadOf(p) == [] && |r| == 1 {
      assert r[0] in r && s[0] in s;
    } else if UnreadOf(p) == [] && |r| > 1 {
      SameDivergence(r, s, content);
      SameElection(r, s, content, d, e);
    }
  }

  lemma SameElection(r: seq<Instance>, s: seq<Instance>, content: Option<Comparator>, d: Decision, e: Decision)
    requires Distinct(r) && Distinct(s) && Symmetric(content)
    requires forall x :: x in r <==> x in s
    ensures (exists m :: 0 <= m < |r| && Undominated(r, content, m)) <==>
            (exists m :: 0 <= m < |s| && Undominated(s, content, m))
    ensures forall m, k :: 0 <= m < |r| && 0 <= k < |s| && IsLeader(r, content, m) && IsLeader(s, content, k) ==>
              r[m] == s[k]
  {
    assert SetOf(r) == SetOf(s);
    forall m, k | 0 <= m < |r| && 0 <= k < |s| && r[m] == s[k]
      ensures Undominated(r, content, m) <==> Undominated(s, content, k)
    {
      UndominatedIsPositionFree(r, content, m);
      UndominatedIsPositionFree(s, content, k);
    }
    if m :| 0 <= m < |r| && Undominated(r, content, m) {
      assert r[m] in s;
      var k :| 0 <= k < |s| && r[m] == s[k];
      assert Undominated(s, content, k);
    }
    if k :| 0 <= k < |s| && Undominated(s, content, k) {
      assert s[k] in r;
      var m :| 0 <= m < |r| && r[m] == s[k];
      assert Undominated(r, content, m);
    }
    forall m, k | 0 <= m < |r| && 0 <= k < |s| && IsLeader(r, content, m) && IsLeader(s, content, k)
      ensures r[m] == s[k]
    {
      assert r[m] in s && s[k] in r;
      var k' :| 0 <= k' < |s| && r[m] == s[k'];
      var m' :| 0 <= m' < |r| && r[m'] == s[k];
      assert !Precedes(s[k'], s[k]) && !Precedes(r[m'], r[m]);
      PrecedesIsTotal(r[m], s[k]);
      assert r[m].pod == r[m'].pod;
    }
  }

  // ----- the verdict and the leader, without positions -----

  predicate NoneUnread(insts: seq<Instance>) {
    forall x :: x in insts ==> x.readState != Unread
  }

  /** No two readable instances hold what the other lacks. */
  ghost predicate NothingDiverges(insts: seq<Instance>, content: Option<Comparator>) {
    forall x, y :: Legible(insts, x) && Legible(insts, y) ==> Resolve(x, y, content) != Diverge
  }

  /** Readable, and no readable instance strictly dominates it. */
  ghost predicate Unbeaten(insts: seq<Instance>, content: Option<Comparator>, x: Instance) {
    Legible(insts, x) && forall y :: Legible(insts, y) ==> Resolve(y, x, content) != ADominatesB
  }

  /** Of the unbeaten: a primary if one of them is, then the furthest checkpoint, then the least
      name. */
  ghost predicate Preferred(insts: seq<Instance>, content: Option<Comparator>, x: Instance) {
    && Unbeaten(insts, content, x)
    && forall y :: Unbeaten(insts, content, y) ==>
         && (y.isPrimary ==> x.isPrimary)
         && (y.isPrimary == x.isPrimary ==>
               && y.checkpointLSN <= x.checkpointLSN
               && (y.checkpointLSN == x.checkpointLSN ==> !LexLess(y.pod, x.pod)))
  }

  lemma SelfIsEqual(x: Instance, content: Option<Comparator>)
    ensures Resolve(x, x, content) == Equal
  {
    PrefixIsUnique(x.switches, x.switches, |x.switches|, CommonPrefixLen(x.switches, x.switches));
  }

  lemma UndominatedIsUnbeaten(r: seq<Instance>, content: Option<Comparator>, m: nat)
    requires m < |r| && Symmetric(content) && forall i :: 0 <= i < |r| ==> Legible(r, r[i])
    ensures Undominated(r, content, m) <==> Unbeaten(r, content, r[m])
  {
    SelfIsEqual(r[m], content);
    forall i | 0 <= i < |r| && i != m
      ensures Beats(r, content, i, m) <==> Resolve(r[i], r[m], content) == ADominatesB
    {
      ResolveFlips(r[i], r[m], content);
    }
  }

  lemma SomeDivergenceIff(r: seq<Instance>, content: Option<Comparator>)
    requires Symmetric(content) && forall i :: 0 <= i < |r| ==> Legible(r, r[i])
    ensures NothingDiverges(r, content) <==> forall i, j :: 0 <= i < j < |r| ==> !Diverges(r, content, i, j)
  {
    if forall i, j :: 0 <= i < j < |r| ==> !Diverges(r, content, i, j) {
      forall x, y | Legible(r, x) && Legible(r, y) ensures Resolve(x, y, content) != Diverge {
        var i, j :| 0 <= i < |r| && 0 <= j < |r| && r[i] == x && r[j] == y;
        SelfIsEqual(x, content);
        ResolveFlips(x, y, content);
        assert i < j ==> !Diverges(r, content, i, j);
        assert j < i ==> !Diverges(r, content, j, i);
      }
    } else {
      var i, j :| 0 <= i < j < |r| && Diverges(r, content, i, j);
      assert Legible(r, r[i]) && Legible(r, r[j]);
    }
  }

  /** Being unbeaten, preferred and undiverged are about the readable instances only. */
  lemma ReadableDecides(insts: seq<Instance>, content: Option<Comparator>)
    ensures forall x :: Legible(insts, x) <==> x in ReadableOf(insts)
    ensures forall x :: Legible(ReadableOf(insts), x) <==> x in ReadableOf(insts)
    ensures NothingDiverges(ReadableOf(insts), content) <==> NothingDiverges(insts, content)
    ensures forall x :: Unbeaten(ReadableOf(insts), content, x) <==> Unbeaten(insts, content, x)
  {}

  /** The verdict says "diverged" exactly when everything was read or proven empty and two
      readable instances diverge. */
  lemma DivergedIff(insts: seq<Instance>, content: Option<Comparator>, d: Decision)
    requires IsVerdict(insts, content, d) && Symmetric(content)
    ensures d.diverged <==> NoneUnread(insts) && !NothingDiverges(insts, content)
  {
    var r := ReadableOf(insts);
    UnreadOfHasNoSentinel(insts);
    ReadableDecides(insts, content);
    forall i | 0 <= i < |r| ensures Legible(r, r[i]) { assert r[i] in r; }
    SomeDivergenceIff(r, content);
  }

  /** The order of pickLeader, spelled out. */
  lemma PrecedenceIs(x: Instance, y: Instance)
    ensures !Precedes(y, x) <==>
            && (y.isPrimary ==> x.isPrimary)
            && (y.isPrimary == x.isPrimary ==>
                  && y.checkpointLSN <= x.checkpointLSN
                  && (y.checkpointLSN == x.checkpointLSN ==> !LexLess(y.pod, x.pod)))
  {}

  lemma LeaderIsPreferred(r: seq<Instance>, content: Option<Comparator>, m: nat)
    requires m < |r| && Symmetric(content) && forall i :: 0 <= i < |r| ==> Legible(r, r[i])
    requires IsLeader(r, content, m)
    ensures Preferred(r, content, r[m])
  {
    UndominatedIsUnbeaten(r, content, m);
    forall y | Unbeaten(r, content, y) ensures !Precedes(y, r[m]) {
      var c :| 0 <= c < |r| && r[c] == y;
      UndominatedIsUnbeaten(r, content, c);
    }
    forall y { PrecedenceIs(r[m], y); }
  }

  lemma PreferredIsKept(insts: seq<Instance>, content: Option<Comparator>, x: Instance)
    requires Preferred(ReadableOf(insts), content, x)
    ensures Preferred(insts, content, x)
  {
    ReadableDecides(insts, content);
  }

  /** With everything read and nothing diverging, a leader is elected exactly when some instance
      is unbeaten, and it is a preferred one. */
  lemma LeaderIff(insts: seq<Instance>, content: Option<Comparator>, d: Decision)
    requires IsVerdict(insts, content, d) && Symmetric(content)
    requires NoneUnread(insts) && NothingDiverges(insts, content) && ReadableOf(insts) != []
    ensures d.determinable <==> exists x :: Unbeaten(insts, content, x)
    ensures d.determinable ==> exists x :: Preferred(insts, content, x) && d.leader == x.pod
  {
    var r := ReadableOf(insts);
    UnreadOfHasNoSentinel(insts);
    ReadableDecides(insts, content);
    DivergedIff(insts, content, d);
    forall i | 0 <= i < |r| ensures Legible(r, r[i]) { assert r[i] in r; }
    if x :| Unbeaten(insts, content, x) {
      var m :| 0 <= m < |r| && r[m] == x;
      UndominatedIsUnbeaten(r, content, m);
      assert d.determinable;
    }
    if d.determinable {
      var m := LeaderAt(insts, content, d);
      LeaderIsPreferred(r, content, m);
      PreferredIsKept(insts, content, r[m]);
    }
  }

  lemma LeaderAt(insts: seq<Instance>, content: Option<Comparator>, d: Decision) returns (m: nat)
    requires IsVerdict(insts, content, d) && d.determinable && !d.diverged && ReadableOf(insts) != []
    ensures m < |ReadableOf(insts)| && d.leader == ReadableOf(insts)[m].pod
    ensures IsLeader(ReadableOf(insts), content, m)
  {
    var r := ReadableOf(insts);
    if |r| == 1 {
      m := 0;
      PrecedesIsTotal(r[0], r[0]);
    } else {
      m :| 0 <= m < |r| && IsLeader(r, content, m) && d.leader == r[m].pod;
    }
  }

  /** The primary keeps the lead whenever nothing beats it: with everything read and nothing
      diverging, the only instance that is primary is elected unless it is beaten. */
  lemma UnbeatenPrimaryLeads(insts: seq<Instance>, content: Option<Comparator>, d: Decision, p: Instance)
    requires IsVerdict(insts, content, d) && Symmetric(content)
    requires NoneUnread(insts) && NothingDiverges(insts, content)
    requires p.isPrimary && forall x :: Legible(insts, x) && x.isPrimary ==> x == p
    requires Legible(insts, p) && forall y :: Legible(insts, y) ==> Resolve(y, p, content) != ADominatesB
    ensures d.determinable && !d.diverged && d.leader == p.pod
  {
    assert Unbeaten(insts, content, p);
    assert p in ReadableOf(insts);
    DivergedIff(insts, content, d);
    LeaderIff(insts, content, d);
  }

  /** With no unbeaten primary the leader is the furthest of the unbeaten, then the first by name. */
  lemma FurthestUnbeatenLeads(insts: seq<Instance>, content: Option<Comparator>, d: Decision) returns (leader: Instance)
    requires IsVerdict(insts, content, d) && Symmetric(content)
    requires d.determinable && !d.diverged && ReadableOf(insts) != []
    requires forall x :: Legible(insts, x) && x.isPrimary ==>
               exists y :: Legible(insts, y) && Resolve(y, x, content) == ADominatesB
    ensures Legible(insts, leader) && leader.pod == d.leader
    ensures forall y :: Legible(insts, y) ==> Resolve(y, leader, content) != ADominatesB
    ensures forall x :: Unbeaten(insts, content, x) && x != leader ==>
              || x.checkpointLSN < leader.checkpointLSN
              || (x.checkpointLSN == leader.checkpointLSN && (x.pod == leader.pod || LexLess(leader.pod, x.pod)))
  {
    UnreadOfHasNoSentinel(insts);
    DivergedIff(insts, content, d);
    LeaderIff(insts, content, d);
    leader :| Preferred(insts, content, leader) && d.leader == leader.pod;
    forall x | Unbeaten(insts, content, x)
      ensures x.checkpointLSN <= leader.checkpointLSN
      ensures x.checkpointLSN == leader.checkpointLSN ==> x.pod == leader.pod || LexLess(leader.pod, x.pod)
    {
      LexTrichotomy(x.pod, leader.pod);
      assert !x.isPrimary && !leader.isPrimary;
    }
  }
}
