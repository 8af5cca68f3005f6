// Releasing escrow snapshots: whole runs, never one of the last N, never one younger than
// the minimum age.
module EscrowRetention {
  import opened Options
  import opened Faults
  import opened Newest
  import opened RecoveryProof

  /** A labelled VolumeSnapshot; annotated is its capture time where the annotation parses. */
  datatype Item = Item(name: string, runID: string, kind: string, annotated: Option<int>, created: int)

  datatype EscrowGroup = EscrowGroup(runID: string, kind: string, capturedAt: int, snapshots: seq<string>)

  function CapturedAt(x: Item): int {
    match x.annotated
    case Some(t) => t
    case None => x.created
  }

  function RunOf(x: Item): string {
    if x.runID == "" then "unruled-" + x.name else x.runID
  }

  function OfRun(id: string): Item -> bool {
    (x: Item) => RunOf(x) == id
  }

  function Members(items: seq<Item>, id: string): seq<Item> {
    Where(items, OfRun(id))
  }

  // ----- one group per run -----

  /** When the youngest of the snapshots was taken. */
  function Latest(ms: seq<Item>): int
    requires ms != []
  {
    var last := CapturedAt(ms[|ms| - 1]);
    if |ms| == 1 then last
    else
      var t := Latest(ms[..|ms| - 1]);
      if last > t then last else t
  }

  lemma {:induction false} LatestIsMax(ms: seq<Item>)
    requires ms != []
    ensures exists i :: 0 <= i < |ms| && CapturedAt(ms[i]) == Latest(ms)
    ensures forall i :: 0 <= i < |ms| ==> CapturedAt(ms[i]) <= Latest(ms)
  {
    if |ms| == 1 {
      assert CapturedAt(ms[0]) == Latest(ms);
    } else {
      var n := |ms| - 1;
      LatestIsMax(ms[..n]);
      if CapturedAt(ms[n]) < Latest(ms) {
        var i :| 0 <= i < n && CapturedAt(ms[..n][i]) == Latest(ms[..n]);
        assert CapturedAt(ms[i]) == Latest(ms);
      }
    }
  }

  function Names(ms: seq<Item>): seq<string> {
    seq(|ms|, i requires 0 <= i < |ms| => ms[i].name)
  }

  /** The group of a run before its names are sorted. */
  function Draft(ms: seq<Item>, id: string): EscrowGroup
    requires ms != []
  {
    EscrowGroup(id, if ms[0].kind == "" then "unknown" else ms[0].kind, Latest(ms), Names(ms))
  }

  function Finished(g: EscrowGroup): EscrowGroup {
    g.(snapshots := SortBy(Itself(), g.snapshots))
  }

  ghost predicate IsGroup(items: seq<Item>, g: EscrowGroup) {
    Members(items, g.runID) != [] && g == Finished(Draft(Members(items, g.runID), g.runID))
  }

  function RunIDOf(): EscrowGroup -> string {
    (g: EscrowGroup) => g.runID
  }

  function TimeOf(): EscrowGroup -> int {
    (g: EscrowGroup) => g.capturedAt
  }

  /** Every run exactly once, dated by its youngest member, newest first. */
  ghost predicate IsGrouping(items: seq<Item>, groups: seq<EscrowGroup>) {
    && Distinct(groups, RunIDOf()) && NewestFirst(groups, TimeOf())
    && (forall i {:trigger IsGroup(items, groups[i])} :: 0 <= i < |groups| ==> IsGroup(items, groups[i]))
    && (forall x {:trigger Has(groups, RunIDOf(), RunOf(x))} :: x in items ==> Has(groups, RunIDOf(), RunOf(x)))
  }

  ghost predicate IsDraft(items: seq<Item>, id: string, g: EscrowGroup) {
    Members(items, id) != [] && g == Draft(Members(items, id), id)
  }

  ghost predicate Drafts(items: seq<Item>, byRun: map<string, EscrowGroup>) {
    && (forall id {:trigger IsDraft(items, id, byRun[id])} :: id in byRun ==> IsDraft(items, id, byRun[id]))
    && (forall x :: x in items ==> RunOf(x) in byRun)
  }

  /** The group of x's run once x has joined it. */
  function Joins(byRun: map<string, EscrowGroup>, x: Item): EscrowGroup {
    var id := RunOf(x);
    if id in byRun then
      byRun[id].(snapshots := byRun[id].snapshots + [x.name],
                 capturedAt := if CapturedAt(x) > byRun[id].capturedAt then CapturedAt(x) else byRun[id].capturedAt)
    else EscrowGroup(id, if x.kind == "" then "unknown" else x.kind, CapturedAt(x), [x.name])
  }

  method CollectRuns(items: seq<Item>) returns (byRun: map<string, EscrowGroup>)
    ensures Drafts(items, byRun)
  {
    byRun := map[];
    for k := 0 to |items|
      invariant Drafts(items[..k], byRun)
    {
      var x := items[k];
      var id := RunOf(x);
      ghost var before := byRun;
      var g := if id in byRun then byRun[id]
        else EscrowGroup(id, if x.kind == "" then "unknown" else x.kind, CapturedAt(x), []);
      g := g.(snapshots := g.snapshots + [x.name]);
      if CapturedAt(x) > g.capturedAt {
        g := g.(capturedAt := CapturedAt(x));
      }
      byRun := byRun[id := g];
      assert items[..k + 1] == items[..k] + [x];
      DraftStep(items[..k], x, before, g);
    }
    assert items[..|items|] == items;
  }

  lemma DraftSnoc(ms: seq<Item>, x: Item, id: string)
    ensures var d := Draft(ms + [x], id);
            d == if ms == [] then EscrowGroup(id, if x.kind == "" then "unknown" else x.kind, CapturedAt(x), [x.name])
                 else Draft(ms, id).(snapshots := Names(ms) + [x.name],
                                     capturedAt := if CapturedAt(x) > Latest(ms) then CapturedAt(x) else Latest(ms))
  {
    assert (ms + [x])[..|ms|] == ms;
    assert Names(ms + [x]) == Names(ms) + [x.name];
  }

  lemma DraftStep(seen: seq<Item>, x: Item, before: map<string, EscrowGroup>, g: EscrowGroup)
    requires Drafts(seen, before)
    requires g == Joins(before, x)
    ensures Drafts(seen + [x], before[RunOf(x) := g])
  {
    var id, now := RunOf(x), before[RunOf(x) := g];
    forall k | k in now ensures IsDraft(seen + [x], k, now[k]) {
      WhereSnoc(seen, x, OfRun(k));
      if k == id {
        DraftJoins(seen, x, before);
      } else {
        assert IsDraft(seen, k, before[k]) && Members(seen + [x], k) == Members(seen, k);
      }
    }
  }

  lemma DraftJoins(seen: seq<Item>, x: Item, before: map<string, EscrowGroup>)
    requires Drafts(seen, before)
    ensures IsDraft(seen + [x], RunOf(x), Joins(before, x))
  {
    var id := RunOf(x);
    var ms := Members(seen, id);
    WhereSnoc(seen, x, OfRun(id));
    if ms != [] { WhereIn(seen, OfRun(id), ms[0]); }
    assert id in before ==> IsDraft(seen, id, before[id]);
    DraftSnoc(ms, x, id);
  }

  /** The groups, newest first. */
  method GroupEscrows(items: seq<Item>) returns (groups: seq<EscrowGroup>)
    ensures IsGrouping(items, groups)
  {
    var byRun := CollectRuns(items);
    var done := map id | id in byRun :: Finished(byRun[id]);
    forall id | id in done ensures done[id].runID == id && IsGroup(items, done[id]) {
      assert IsDraft(items, id, byRun[id]);
    }
    groups := Arrange(done, RunIDOf(), TimeOf());
  }

  // ----- what is released -----

  datatype Held = Held(count: nat, withinMinAge: seq<EscrowGroup>)

  predicate Releasable(groups: seq<EscrowGroup>, keepLast: int, cutoff: int, i: nat)
    requires i < |groups|
  {
    i >= keepLast && groups[i].capturedAt <= cutoff
  }

  function SnapshotCount(groups: seq<EscrowGroup>): nat {
    if groups == [] then 0 else SnapshotCount(groups[..|groups| - 1]) + |groups[|groups| - 1].snapshots|
  }

  lemma SnapshotCountSnoc(groups: seq<EscrowGroup>, g: EscrowGroup)
    ensures SnapshotCount(groups + [g]) == SnapshotCount(groups) + |g.snapshots|
  {
    assert (groups + [g])[..|groups|] == groups;
  }

  /** The groups a prune releases, in order. */
  function Released(groups: seq<EscrowGroup>, keepLast: int, cutoff: int): seq<EscrowGroup> {
    if groups == [] then []
    else
      var n := |groups| - 1;
      Released(groups[..n], keepLast, cutoff) + if Releasable(groups, keepLast, cutoff, n) then [groups[n]] else []
  }

  /** Kept only because it is younger than the floor. */
  ghost predicate Protected(groups: seq<EscrowGroup>, keepLast: int, cutoff: int, g: EscrowGroup) {
    exists i :: keepLast <= i && 0 <= i < |groups| && groups[i] == g && g.capturedAt > cutoff
  }

  /** The groups held back by age alone, in order. */
  function Young(groups: seq<EscrowGroup>, keepLast: int, cutoff: int): seq<EscrowGroup> {
    if groups == [] then []
    else
      var n := |groups| - 1;
      Young(groups[..n], keepLast, cutoff) + if n >= keepLast && groups[n].capturedAt > cutoff then [groups[n]] else []
  }

  lemma {:induction false} YoungAreProtected(groups: seq<EscrowGroup>, keepLast: int, cutoff: int, g: EscrowGroup)
    ensures g in Young(groups, keepLast, cutoff) <==> Protected(groups, keepLast, cutoff, g)
  {
    if groups != [] {
      var n := |groups| - 1;
      YoungAreProtected(groups[..n], keepLast, cutoff, g);
      assert forall i :: 0 <= i < n ==> groups[..n][i] == groups[i];
    }
  }

  lemma AllYoungAreProtected(groups: seq<EscrowGroup>, keepLast: int, cutoff: int)
    ensures forall g :: g in Young(groups, keepLast, cutoff) <==> Protected(groups, keepLast, cutoff, g)
  {
    forall g ensures g in Young(groups, keepLast, cutoff) <==> Protected(groups, keepLast, cutoff, g) {
      YoungAreProtected(groups, keepLast, cutoff, g);
    }
  }

  /** One group more: released, or held back by its age, or held back by its rank. */
  lemma OneMoreGroup(groups: seq<EscrowGroup>, keepLast: int, cutoff: int, g: EscrowGroup)
    ensures var n, all := |groups|, groups + [g];
            && SnapshotCount(all) == SnapshotCount(groups) + |g.snapshots|
            && Released(all, keepLast, cutoff) ==
               Released(groups, keepLast, cutoff) + (if n >= keepLast && g.capturedAt <= cutoff then [g] else [])
            && Young(all, keepLast, cutoff) ==
               Young(groups, keepLast, cutoff) + (if n >= keepLast && g.capturedAt > cutoff then [g] else [])
  {
    assert (groups + [g])[..|groups|] == groups;
  }

  method SelectForRelease(groups: seq<EscrowGroup>, keepLast: int, minAge: int, now: int)
    returns (held: Held, release: seq<EscrowGroup>)
    ensures release == Released(groups, keepLast, now - minAge)
    ensures held.count + SnapshotCount(release) == SnapshotCount(groups)
    ensures held.withinMinAge == Young(groups, keepLast, now - minAge)
    ensures forall g :: g in held.withinMinAge <==> Protected(groups, keepLast, now - minAge, g)
  {
    var cutoff := now - minAge;
    release := [];
    var count: nat, young: seq<EscrowGroup> := 0, [];
    ghost var done: seq<EscrowGroup> := [];
    for i := 0 to |groups|
      invariant done == groups[..i]
      invariant release == Released(done, keepLast, cutoff) && young == Young(done, keepLast, cutoff)
      invariant count + SnapshotCount(release) == SnapshotCount(done)
    {
      var g := groups[i];
      OneMoreGroup(done, keepLast, cutoff, g);
      SnapshotCountSnoc(release, g);
      done := done + [g];
      if i < keepLast {
        count := count + |g.snapshots|;
      } else if g.capturedAt > cutoff {
        count, young := count + |g.snapshots|, young + [g];
      } else {
        release := release + [g];
      }
    }
    assert done == groups;
    AllYoungAreProtected(groups, keepLast, cutoff);
    held := Held(count, young);
  }

  /** How many groups are held back, from the newest on. */
  function HeldCount(groups: seq<EscrowGroup>, keepLast: int, cutoff: int): (k: nat)
    ensures k <= |groups|
  {
    if groups == [] then 0
    else
      var n := |groups| - 1;
      if Releasable(groups, keepLast, cutoff, n) then HeldCount(groups[..n], keepLast, cutoff) else |groups|
  }

  /** The released groups are the tail of the newest-first list, and exactly those past the
      last N runs and not younger than the cutoff. */
  lemma {:induction false} ReleasedIsTail(groups: seq<EscrowGroup>, keepLast: int, cutoff: int)
    requires NewestFirst(groups, TimeOf())
    ensures Released(groups, keepLast, cutoff) == groups[HeldCount(groups, keepLast, cutoff)..]
    ensures SplitsAt(groups, keepLast, cutoff, HeldCount(groups, keepLast, cutoff))
  {
    if groups != [] {
      var init, last := groups[..|groups| - 1], groups[|groups| - 1];
      assert groups == init + [last];
      forall i | 0 <= i < |init| ensures init[i].capturedAt >= last.capturedAt {
        assert TimeOf()(groups[i]) >= TimeOf()(groups[|init|]);
      }
      ReleasedIsTail(init, keepLast, cutoff);
      SplitGrows(init, keepLast, cutoff, last, HeldCount(init, keepLast, cutoff));
      OneMoreHeld(init, keepLast, cutoff, last);
    }
  }

  lemma OneMoreHeld(init: seq<EscrowGroup>, keepLast: int, cutoff: int, last: EscrowGroup)
    ensures var goes := |init| >= keepLast && last.capturedAt <= cutoff;
            && HeldCount(init + [last], keepLast, cutoff) ==
               (if goes then HeldCount(init, keepLast, cutoff) else |init| + 1)
            && Released(init + [last], keepLast, cutoff) ==
               Released(init, keepLast, cutoff) + if goes then [last] else []
  {
    assert (init + [last])[..|init|] == init;
  }

  /** The first k are held back and the rest is not. */
  ghost predicate SplitsAt(groups: seq<EscrowGroup>, keepLast: int, cutoff: int, k: nat) {
    k <= |groups| && forall i :: 0 <= i < |groups| ==> (i >= k <==> Releasable(groups, keepLast, cutoff, i))
  }

  lemma SplitGrows(init: seq<EscrowGroup>, keepLast: int, cutoff: int, last: EscrowGroup, k: nat)
    requires SplitsAt(init, keepLast, cutoff, k)
    requires forall i :: 0 <= i < |init| ==> init[i].capturedAt >= last.capturedAt
    ensures if |init| >= keepLast && last.capturedAt <= cutoff
            then SplitsAt(init + [last], keepLast, cutoff, k) && (init + [last])[k..] == init[k..] + [last]
            else SplitsAt(init + [last], keepLast, cutoff, |init| + 1) && k == |init|
  {
    assert k < |init| ==> Releasable(init, keepLast, cutoff, |init| - 1);
    var all := init + [last];
    forall i | 0 <= i < |init|
      ensures Releasable(all, keepLast, cutoff, i) == Releasable(init, keepLast, cutoff, i)
    {
      assert all[i] == init[i];
    }
  }

  lemma GroupHolds(items: seq<Item>, g: EscrowGroup, x: Item)
    requires IsGroup(items, g) && x in items && RunOf(x) == g.runID
    ensures x.name in g.snapshots && CapturedAt(x) <= g.capturedAt
  {
    var ms := Members(items, g.runID);
    WhereIn(items, OfRun(g.runID), x);
    var m :| 0 <= m < |ms| && ms[m] == x;
    LatestIsMax(ms);
    assert Names(ms)[m] == x.name;
    assert x.name in multiset(g.snapshots);
  }

  /** A run is released only past the last N, and then every one of its snapshots is on the
      group and none is younger than the cutoff. */
  lemma ReleaseRespectsTheFloor(items: seq<Item>, groups: seq<EscrowGroup>, keepLast: int, cutoff: int, x: Item, i: nat)
    requires IsGrouping(items, groups) && x in items && i < |groups| && groups[i].runID == RunOf(x)
    ensures x.name in groups[i].snapshots
    ensures groups[i] in Released(groups, keepLast, cutoff) <==> Releasable(groups, keepLast, cutoff, i)
    ensures groups[i] in Released(groups, keepLast, cutoff) ==> i >= keepLast && CapturedAt(x) <= cutoff
  {
    GroupHolds(items, groups[i], x);
    ReleasedByIndex(groups, keepLast, cutoff, i);
  }

  lemma ReleasedByIndex(groups: seq<EscrowGroup>, keepLast: int, cutoff: int, i: nat)
    requires NewestFirst(groups, TimeOf()) && Distinct(groups, RunIDOf()) && i < |groups|
    ensures groups[i] in Released(groups, keepLast, cutoff) <==> Releasable(groups, keepLast, cutoff, i)
  {
    ReleasedIsTail(groups, keepLast, cutoff);
    var k := HeldCount(groups, keepLast, cutoff);
    TailHolds(groups, k, i);
    if groups[i] in groups[k..] {
      var j :| k <= j < |groups| && groups[j] == groups[i];
      DistinctMeansSame(groups, i, j);
    }
  }

  lemma DistinctMeansSame(groups: seq<EscrowGroup>, i: nat, j: nat)
    requires Distinct(groups, RunIDOf()) && i < |groups| && j < |groups| && groups[i] == groups[j]
    ensures i == j
  {
    RunsDiffer(groups);
  }

  lemma RunsDiffer(groups: seq<EscrowGroup>)
    requires Distinct(groups, RunIDOf())
    ensures forall i, j :: 0 <= i < j < |groups| ==> groups[i].runID != groups[j].runID
  {
    forall i, j | 0 <= i < j < |groups| ensures groups[i].runID != groups[j].runID {
      assert RunIDOf()(groups[i]) != RunIDOf()(groups[j]);
    }
  }

  lemma TailHolds(groups: seq<EscrowGroup>, k: nat, i: nat)
    requires k <= |groups| && i < |groups|
    ensures i >= k ==> groups[i] in groups[k..]
  {
    if i >= k { assert groups[k..][i - k] == groups[i]; }
  }

  /** A later clock, or a smaller count to keep, releases at least as much. */
  lemma LaterReleasesMore(groups: seq<EscrowGroup>, keepLast: int, cutoff: int, keepFewer: int, laterCutoff: int)
    requires NewestFirst(groups, TimeOf()) && cutoff <= laterCutoff && keepFewer <= keepLast
    ensures HeldCount(groups, keepFewer, laterCutoff) <= HeldCount(groups, keepLast, cutoff)
    ensures forall g :: g in Released(groups, keepLast, cutoff) ==> g in Released(groups, keepFewer, laterCutoff)
  {
    ReleasedIsTail(groups, keepLast, cutoff);
    ReleasedIsTail(groups, keepFewer, laterCutoff);
    var k, l := HeldCount(groups, keepLast, cutoff), HeldCount(groups, keepFewer, laterCutoff);
    if k < |groups| {
      assert Releasable(groups, keepLast, cutoff, k);
      assert Releasable(groups, keepFewer, laterCutoff, k);
    }
    forall g | g in groups[k..] ensures g in groups[l..] {
      var j :| k <= j < |groups| && groups[j] == g;
    }
  }

  // ----- a second prune -----

  /** The objects left once every snapshot of the released runs is deleted. */
  ghost predicate IsLeft(items: seq<Item>, released: seq<EscrowGroup>, now: seq<Item>) {
    now == Where(items, NotReleased(RunIDs(released)))
  }

  function RunIDs(groups: seq<EscrowGroup>): set<string> {
    set g | g in groups :: g.runID
  }

  function NotReleased(runs: set<string>): Item -> bool {
    (x: Item) => RunOf(x) !in runs
  }

  lemma MembersSurvive(items: seq<Item>, runs: set<string>, id: string)
    ensures Members(Where(items, NotReleased(runs)), id) == if id in runs then [] else Members(items, id)
  {
    if id in runs { WhereExcluded(items, NotReleased(runs), OfRun(id)); }
    if id !in runs { WhereImplied(items, NotReleased(runs), OfRun(id)); }
  }

  lemma RunListed(items: seq<Item>, groups: seq<EscrowGroup>, id: string) returns (i: nat)
    requires IsGrouping(items, groups) && Members(items, id) != []
    ensures i < |groups| && groups[i].runID == id && IsGroup(items, groups[i])
  {
    var x := Members(items, id)[0];
    WhereIn(items, OfRun(id), x);
    assert Has(groups, RunIDOf(), RunOf(x));
    i :| 0 <= i < |groups| && RunIDOf()(groups[i]) == id;
  }

  lemma SameMembersSameGroup(items: seq<Item>, g: EscrowGroup, left: seq<Item>, h: EscrowGroup)
    requires IsGroup(items, g) && IsGroup(left, h) && g.runID == h.runID &&
             Members(items, g.runID) == Members(left, h.runID)
    ensures g == h
  {}

  /** After a prune without failures, every run that is left is one that was held, unchanged. */
  lemma LeftoverWasHeld(items: seq<Item>, groups: seq<EscrowGroup>, keepLast: int, cutoff: int,
                        left: seq<Item>, g: EscrowGroup) returns (i: nat)
    requires IsGrouping(items, groups) && IsLeft(items, Released(groups, keepLast, cutoff), left) && IsGroup(left, g)
    ensures i < HeldCount(groups, keepLast, cutoff) && groups[i] == g
  {
    var released := Released(groups, keepLast, cutoff);
    MembersSurvive(items, RunIDs(released), g.runID);
    i := RunListed(items, groups, g.runID);
    SameMembersSameGroup(items, groups[i], left, g);
    assert groups[i] !in released;
    HeldByIndex(groups, keepLast, cutoff, i);
  }

  lemma HeldByIndex(groups: seq<EscrowGroup>, keepLast: int, cutoff: int, i: nat)
    requires NewestFirst(groups, TimeOf()) && i < |groups| && groups[i] !in Released(groups, keepLast, cutoff)
    ensures i < HeldCount(groups, keepLast, cutoff)
  {
    ReleasedIsTail(groups, keepLast, cutoff);
    TailHolds(groups, HeldCount(groups, keepLast, cutoff), i);
  }

  lemma {:induction false} InjectionBounds(again: seq<EscrowGroup>, ids: set<string>)
    requires Distinct(again, RunIDOf()) && forall j :: 0 <= j < |again| ==> again[j].runID in ids
    ensures |again| <= |ids|
  {
    if again != [] {
      var init, last := again[..|again| - 1], again[|again| - 1];
      forall j | 0 <= j < |init| ensures init[j].runID in ids - {last.runID} {
        assert RunIDOf()(again[j]) != RunIDOf()(last);
      }
      InjectionBounds(init, ids - {last.runID});
    }
  }

  function FirstRuns(groups: seq<EscrowGroup>, k: nat): (r: set<string>)
    requires k <= |groups|
    ensures |r| <= k && forall i :: 0 <= i < k ==> groups[i].runID in r
  {
    if k == 0 then {} else FirstRuns(groups, k - 1) + {groups[k - 1].runID}
  }

  lemma HeldIsRecent(groups: seq<EscrowGroup>, keepLast: int, cutoff: int, i: nat)
    requires NewestFirst(groups, TimeOf()) && i < HeldCount(groups, keepLast, cutoff)
    ensures HeldCount(groups, keepLast, cutoff) > keepLast ==> groups[i].capturedAt > cutoff
  {
    ReleasedIsTail(groups, keepLast, cutoff);
    var k := HeldCount(groups, keepLast, cutoff);
    assert !Releasable(groups, keepLast, cutoff, k - 1);
    assert i == k - 1 || TimeOf()(groups[i]) >= TimeOf()(groups[k - 1]);
  }

  /** Every run left over was held, and where more than the last N were, is past the cutoff. */
  lemma LeftoverIsRecent(items: seq<Item>, groups: seq<EscrowGroup>, keepLast: int, cutoff: int,
                         left: seq<Item>, again: seq<EscrowGroup>, j: nat)
    requires IsGrouping(items, groups) && IsLeft(items, Released(groups, keepLast, cutoff), left) &&
             IsGrouping(left, again)
    requires j < |again|
    ensures again[j].runID in FirstRuns(groups, HeldCount(groups, keepLast, cutoff))
    ensures HeldCount(groups, keepLast, cutoff) > keepLast ==> again[j].capturedAt > cutoff
  {
    var k := HeldCount(groups, keepLast, cutoff);
    var i := LeftoverWasHeld(items, groups, keepLast, cutoff, left, again[j]);
    HeldIsRecent(groups, keepLast, cutoff, i);
  }

  /** Pruning again at the same time, with the same policy, releases nothing, whatever order
      the remaining runs are listed in. */
  lemma SecondPruneReleasesNothing(items: seq<Item>, groups: seq<EscrowGroup>, keepLast: int, cutoff: int,
                                   left: seq<Item>, again: seq<EscrowGroup>)
    requires IsGrouping(items, groups) && IsLeft(items, Released(groups, keepLast, cutoff), left) &&
             IsGrouping(left, again)
    ensures Released(again, keepLast, cutoff) == []
  {
    var k := HeldCount(groups, keepLast, cutoff);
    forall j | 0 <= j < |again|
      ensures again[j].runID in FirstRuns(groups, k) && (k > keepLast ==> again[j].capturedAt > cutoff)
    {
      LeftoverIsRecent(items, groups, keepLast, cutoff, left, again, j);
    }
    InjectionBounds(again, FirstRuns(groups, k));
    NothingReleasable(again, keepLast, cutoff);
  }

  lemma {:induction false} NothingReleasable(groups: seq<EscrowGroup>, keepLast: int, cutoff: int)
    requires forall j :: 0 <= j < |groups| ==> j < keepLast || groups[j].capturedAt > cutoff
    ensures Released(groups, keepLast, cutoff) == []
  {
    if groups != [] { NothingReleasable(groups[..|groups| - 1], keepLast, cutoff); }
  }

  // ----- the prune -----

  /** The groups of the listed snapshots, and what the policy makes of them. */
  ghost predicate IsPlan(items: seq<Item>, keepLast: int, cutoff: int, groups: seq<EscrowGroup>, kept: nat,
                         release: seq<EscrowGroup>) {
    && IsGrouping(items, groups) && release == Released(groups, keepLast, cutoff)
    && kept + SnapshotCount(release) == SnapshotCount(groups)
  }

  function NotNamed(name: string): Item -> bool {
    (x: Item) => x.name != name
  }

  ghost predicate Named(groups: seq<EscrowGroup>, name: string) {
    exists i :: 0 <= i < |groups| && name in groups[i].snapshots
  }

  class SnapshotStore {
    const fate: nat -> Fate
    var calls: nat
    var stored: seq<Item>

    constructor (fate: nat -> Fate, stored: seq<Item>)
      ensures this.fate == fate && this.stored == stored && calls == 0
    {
      this.fate, this.stored, calls := fate, stored, 0;
    }

    ghost predicate NoFailure(from: nat, to: nat) {
      forall n :: from <= n < to ==> fate(n) == Done
    }

    method Delete(name: string) returns (ok: bool)
      modifies this`calls, this`stored
      ensures calls == old(calls) + 1 && ok == (fate(old(calls)) == Done)
      ensures forall x :: x in stored ==> x in old(stored)
      ensures forall x :: x in old(stored) && x !in stored ==> x.name == name
      ensures ok ==> forall x :: x in stored ==> x.name != name
    {
      ghost var before := stored;
      var f := fate(calls);
      calls := calls + 1;
      if f != Failed { stored := Where(stored, NotNamed(name)); }
      ok := f == Done;
      forall x ensures x in Where(before, NotNamed(name)) <==> x in before && x.name != name {
        WhereIn(before, NotNamed(name), x);
      }
    }

    /** One released run; a snapshot that cannot be deleted is passed over. */
    method ReleaseGroup(g: EscrowGroup, dryRun: bool) returns (removed: nat)
      modifies this`calls, this`stored
      ensures calls >= old(calls) && removed <= |g.snapshots|
      ensures forall x :: x in stored ==> x in old(stored)
      ensures forall x :: x in old(stored) && x !in stored ==> x.name in g.snapshots
      ensures dryRun ==> stored == old(stored) && removed == |g.snapshots|
      ensures !dryRun && NoFailure(old(calls), calls) ==>
                removed == |g.snapshots| && forall x :: x in stored ==> x.name !in g.snapshots
    {
      removed := 0;
      for i := 0 to |g.snapshots|
        invariant calls >= old(calls) && removed <= i
        invariant forall x :: x in stored ==> x in old(stored)
        invariant forall x :: x in old(stored) && x !in stored ==> x.name in g.snapshots
        invariant dryRun ==> stored == old(stored) && removed == i
        invariant !dryRun && NoFailure(old(calls), calls) ==>
                    removed == i && forall x :: x in stored ==> x.name !in g.snapshots[..i]
      {
        assert g.snapshots[..i + 1] == g.snapshots[..i] + [g.snapshots[i]];
        if dryRun {
          removed := removed + 1;
          continue;
        }
        var deleted := Delete(g.snapshots[i]);
        if !deleted { continue; }
        removed := removed + 1;
      }
      assert g.snapshots[..|g.snapshots|] == g.snapshots;
    }

    method ReleaseAll(release: seq<EscrowGroup>, dryRun: bool) returns (removed: nat)
      modifies this`calls, this`stored
      ensures calls >= old(calls) && removed <= SnapshotCount(release)
      ensures dryRun ==> stored == old(stored)
      ensures forall x :: x in stored ==> x in old(stored)
      ensures forall x :: x in old(stored) && x !in stored ==> Named(release, x.name)
      ensures !dryRun && NoFailure(old(calls), calls) ==>
                removed == SnapshotCount(release) && forall x :: x in stored ==> !Named(release, x.name)
    {
      removed := 0;
      for i := 0 to |release|
        invariant calls >= old(calls) && removed <= SnapshotCount(release[..i])
        invariant dryRun ==> stored == old(stored)
        invariant forall x :: x in stored ==> x in old(stored)
        invariant forall x :: x in old(stored) && x !in stored ==> Named(release[..i], x.name)
        invariant !dryRun && NoFailure(old(calls), calls) ==>
                    removed == SnapshotCount(release[..i]) && forall x :: x in stored ==> !Named(release[..i], x.name)
      {
        assert release[..i + 1] == release[..i] + [release[i]];
        SnapshotCountSnoc(release[..i], release[i]);
        NamedSnoc(release[..i], release[i]);
        ghost var from := calls;
        var n := ReleaseGroup(release[i], dryRun);
        removed := removed + n;
        assert NoFailure(old(calls), calls) ==> NoFailure(old(calls), from) && NoFailure(from, calls);
      }
      assert release[..|release|] == release;
    }

    static method PlanRelease(items: seq<Item>, keepLast: int, minAge: int, now: int)
      returns (kept: nat, release: seq<EscrowGroup>, ghost groups: seq<EscrowGroup>)
      ensures IsPlan(items, keepLast, now - minAge, groups, kept, release)
    {
      var gs := GroupEscrows(items);
      groups := gs;
      var held;
      held, release := SelectForRelease(gs, keepLast, minAge, now);
      kept := held.count;
    }

    /** Only snapshots of released runs are ever deleted, none on a dry run, and without a
        failure all of them are; held and released add up to all that was listed. */
    method Prune(keepLast: int, minAge: int, now: int, dryRun: bool)
      returns (kept: nat, removed: nat, ok: bool, ghost groups: seq<EscrowGroup>, ghost release: seq<EscrowGroup>)
      modifies this`calls, this`stored
      ensures ok <==> fate(old(calls)) == Done
      ensures !ok ==> stored == old(stored) && kept == removed == 0
      ensures ok ==>
                IsPlan(old(stored), keepLast, now - minAge, groups, kept, release) && removed <= SnapshotCount(release)
      ensures dryRun ==> stored == old(stored)
      ensures forall x :: x in stored ==> x in old(stored)
      ensures ok ==> forall x :: x in old(stored) && x !in stored ==> Named(release, x.name)
      ensures ok && !dryRun && NoFailure(old(calls), calls) ==>
                removed == SnapshotCount(release) && forall x :: x in stored ==> !Named(release, x.name)
    {
      var listed := fate(calls);
      calls := calls + 1;
      if listed != Done { return 0, 0, false, [], []; }
      var rs;
      kept, rs, groups := PlanRelease(stored, keepLast, minAge, now);
      ghost var from := calls;
      removed := ReleaseAll(rs, dryRun);
      assert NoFailure(old(calls), calls) ==> NoFailure(from, calls);
      ok, release := true, rs;
    }
  }

  lemma NamedSnoc(groups: seq<EscrowGroup>, g: EscrowGroup)
    ensures forall name :: Named(groups + [g], name) <==> Named(groups, name) || name in g.snapshots
  {
    var all := groups + [g];
    forall name ensures Named(all, name) <==> Named(groups, name) || name in g.snapshots {
      assert all[|groups|] == g;
      assert forall i :: 0 <= i < |groups| ==> all[i] == groups[i];
    }
  }
}
