// Group-aware retention of diverged backups: snapshots of one repair job are kept or
// forgotten together, by keep-last and by calendar windows.
module JobRetention {
  import opened Options
  import opened Faults
  import opened Newest
  import opened Numbers

  datatype Snapshot = Snapshot(id: string, shortID: string, time: int, job: string)

  datatype JobGroup = JobGroup(jobID: string, time: int, snapshots: seq<Snapshot>)

  datatype Policy = Policy(keepLast: int, keepDaily: int, keepWeekly: int, keepMonthly: int)

  /** The printed UTC day, ISO week and month of an instant. */
  datatype Calendar = Calendar(day: int -> string, week: int -> string, month: int -> string)

  // ----- grouping -----

  function JobOf(s: Snapshot): string {
    if s.job == "" then "ungrouped-" + s.shortID else s.job
  }

  function OfJob(id: string): Snapshot -> bool {
    (s: Snapshot) => JobOf(s) == id
  }

  function Members(snapshots: seq<Snapshot>, id: string): seq<Snapshot> {
    Where(snapshots, OfJob(id))
  }

  ghost predicate IsGroup(snapshots: seq<Snapshot>, g: JobGroup) {
    g.snapshots == Members(snapshots, g.jobID) && g.snapshots != [] && g.time == g.snapshots[0].time
  }

  ghost predicate DistinctJobs(groups: seq<JobGroup>) {
    forall i, j :: 0 <= i < j < |groups| ==> groups[i].jobID != groups[j].jobID
  }

  ghost predicate NewestFirst(groups: seq<JobGroup>) {
    forall i, j :: 0 <= i < j < |groups| ==> groups[i].time >= groups[j].time
  }

  /** Every job exactly once with all its snapshots, dated by the first listed, newest first. */
  ghost predicate IsGrouping(snapshots: seq<Snapshot>, groups: seq<JobGroup>) {
    && DistinctJobs(groups) && NewestFirst(groups)
    && (forall i :: 0 <= i < |groups| ==> IsGroup(snapshots, groups[i]))
    && (forall s :: s in snapshots ==> HasJob(groups, JobOf(s)))
  }

  ghost predicate HasJob(groups: seq<JobGroup>, id: string) {
    exists i :: 0 <= i < |groups| && groups[i].jobID == id
  }

  /** The map of groups under construction. */
  ghost predicate Collects(snapshots: seq<Snapshot>, groups: map<string, JobGroup>) {
    && (forall id :: id in groups ==> groups[id].jobID == id && IsGroup(snapshots, groups[id]))
    && (forall s :: s in snapshots ==> JobOf(s) in groups)
  }

  method CollectJobs(snapshots: seq<Snapshot>) returns (groups: map<string, JobGroup>)
    ensures Collects(snapshots, groups)
  {
    groups := map[];
    for k := 0 to |snapshots|
      invariant Collects(snapshots[..k], groups)
    {
      var s := snapshots[k];
      var id := JobOf(s);
      ghost var before := groups;
      if id in groups {
        groups := groups[id := groups[id].(snapshots := groups[id].snapshots + [s])];
      } else {
        groups := groups[id := JobGroup(id, s.time, [s])];
      }
      assert snapshots[..k + 1] == snapshots[..k] + [s];
      CollectStep(snapshots[..k], s, before, groups);
    }
    assert snapshots[..|snapshots|] == snapshots;
  }

  lemma CollectStep(seen: seq<Snapshot>, s: Snapshot, before: map<string, JobGroup>, now: map<string, JobGroup>)
    requires Collects(seen, before)
    requires var id := JobOf(s);
             now == before[id := if id in before then before[id].(snapshots := before[id].snapshots + [s])
               else JobGroup(id, s.time, [s])]
    ensures Collects(seen + [s], now)
  {
    var id := JobOf(s);
    forall j | j in now ensures now[j].jobID == j && IsGroup(seen + [s], now[j]) {
      WhereSnoc(seen, s, OfJob(j));
      if j == id && id !in before {
        var m := Members(seen, id);
        if m != [] { WhereIn(seen, OfJob(id), m[0]); }
      }
    }
  }

  function JobIDOf(): JobGroup -> string {
    (g: JobGroup) => g.jobID
  }

  function TimeOf(): JobGroup -> int {
    (g: JobGroup) => g.time
  }

  method GroupByJob(snapshots: seq<Snapshot>) returns (result: seq<JobGroup>)
    ensures IsGrouping(snapshots, result)
  {
    var groups := CollectJobs(snapshots);
    result := Arrange(groups, JobIDOf(), TimeOf());
    forall i, j | 0 <= i < j < |result| ensures result[i].jobID != result[j].jobID && result[i].time >= result[j].time {
      assert JobIDOf()(result[i]) != JobIDOf()(result[j]);
      assert TimeOf()(result[i]) >= TimeOf()(result[j]);
    }
    forall s | s in snapshots ensures HasJob(result, JobOf(s)) {
      assert Has(result, JobIDOf(), JobOf(s));
      var i :| 0 <= i < |result| && JobIDOf()(result[i]) == JobOf(s);
      assert result[i].jobID == JobOf(s);
    }
    forall i | 0 <= i < |result| ensures IsGroup(snapshots, result[i]) {
      assert JobIDOf()(result[i]) in groups;
    }
  }

  lemma PrefixIsInjective(prefix: string, a: string, b: string)
    ensures prefix + a == prefix + b <==> a == b
  {
    assert (prefix + a)[|prefix|..] == a && (prefix + b)[|prefix|..] == b;
  }

  lemma SameJobIff(s: Snapshot, t: Snapshot)
    ensures JobOf(s) == JobOf(t) <==>
              if s.job != "" && t.job != "" then s.job == t.job
              else if s.job != "" then s.job == "ungrouped-" + t.shortID
              else if t.job != "" then t.job == "ungrouped-" + s.shortID
              else s.shortID == t.shortID
  {
    PrefixIsInjective("ungrouped-", s.shortID, t.shortID);
  }

  ghost predicate Together(groups: seq<JobGroup>, s: Snapshot, t: Snapshot) {
    exists i :: 0 <= i < |groups| && s in groups[i].snapshots && t in groups[i].snapshots
  }

  /** Two snapshots share a group, and so are kept or removed together, when they carry one job tag;
      one without a tag stands alone under its short id, unless another's tag spells just that. */
  lemma TogetherIff(snapshots: seq<Snapshot>, groups: seq<JobGroup>, s: Snapshot, t: Snapshot)
    requires IsGrouping(snapshots, groups) && s in snapshots && t in snapshots
    ensures Together(groups, s, t) <==>
              if s.job != "" && t.job != "" then s.job == t.job
              else if s.job != "" then s.job == "ungrouped-" + t.shortID
              else if t.job != "" then t.job == "ungrouped-" + s.shortID
              else s.shortID == t.shortID
  {
    SameJobIff(s, t);
    forall i | 0 <= i < |groups|
      ensures s in groups[i].snapshots <==> JobOf(s) == groups[i].jobID
      ensures t in groups[i].snapshots <==> JobOf(t) == groups[i].jobID
    {
      assert IsGroup(snapshots, groups[i]);
      WhereIn(snapshots, OfJob(groups[i].jobID), s);
      WhereIn(snapshots, OfJob(groups[i].jobID), t);
    }
    assert HasJob(groups, JobOf(s));
  }

  // ----- retention -----

  /** A new window starts at group i. */
  predicate StartsWindow(key: int -> string, groups: seq<JobGroup>, i: nat)
    requires i < |groups|
  {
    key(groups[i].time) != if i == 0 then "" else key(groups[i - 1].time)
  }

  /** Windows started among the first n groups. */
  function WindowCount(key: int -> string, groups: seq<JobGroup>, n: nat): (c: nat)
    requires n <= |groups|
  {
    if n == 0 then 0 else WindowCount(key, groups, n - 1) + if StartsWindow(key, groups, n - 1) then 1 else 0
  }

  predicate HeadsRecentWindow(key: int -> string, limit: int, groups: seq<JobGroup>, i: nat)
    requires i < |groups|
  {
    StartsWindow(key, groups, i) && WindowCount(key, groups, i + 1) <= limit
  }

  ghost predicate Heads(key: int -> string, limit: int, groups: seq<JobGroup>, n: nat, id: string)
    requires n <= |groups|
  {
    exists i :: 0 <= i < n && groups[i].jobID == id && HeadsRecentWindow(key, limit, groups, i)
  }

  lemma {:induction false} WindowCountGrows(key: int -> string, groups: seq<JobGroup>, m: nat, n: nat)
    requires m <= n <= |groups|
    ensures WindowCount(key, groups, m) <= WindowCount(key, groups, n)
  {
    if m < n { WindowCountGrows(key, groups, m, n - 1); }
  }

  /** One of the three window loops. */
  method KeepWindows(groups: seq<JobGroup>, key: int -> string, limit: int, keepSet: set<string>)
    returns (r: set<string>)
    ensures forall id :: id in r <==> id in keepSet || Heads(key, limit, groups, |groups|, id)
  {
    r := keepSet;
    if limit <= 0 { return; }
    var seen, lastKey := 0, "";
    for i := 0 to |groups|
      invariant seen == WindowCount(key, groups, i) && seen <= limit
      invariant lastKey == if i == 0 then "" else key(groups[i - 1].time)
      invariant forall id :: id in r <==> id in keepSet || Heads(key, limit, groups, i, id)
    {
      ghost var before := r;
      var k := key(groups[i].time);
      if k != lastKey {
        lastKey := k;
        seen := seen + 1;
        if seen > limit {
          NoMoreHeads(key, limit, groups, i);
          break;
        }
        r := r + {groups[i].jobID};
      }
      HeadsStep(key, limit, groups, i);
    }
  }

  lemma HeadsStep(key: int -> string, limit: int, groups: seq<JobGroup>, i: nat)
    requires i < |groups|
    ensures forall id :: Heads(key, limit, groups, i + 1, id) <==>
              Heads(key, limit, groups, i, id) || (id == groups[i].jobID && HeadsRecentWindow(key, limit, groups, i))
  {
    forall id | Heads(key, limit, groups, i, id) ensures Heads(key, limit, groups, i + 1, id) {
      var j :| 0 <= j < i && groups[j].jobID == id && HeadsRecentWindow(key, limit, groups, j);
    }
  }

  lemma NoMoreHeads(key: int -> string, limit: int, groups: seq<JobGroup>, i: nat)
    requires i < |groups| && WindowCount(key, groups, i + 1) > limit
    ensures forall id :: Heads(key, limit, groups, |groups|, id) <==> Heads(key, limit, groups, i, id)
  {
    forall j | i <= j < |groups| ensures !HeadsRecentWindow(key, limit, groups, j) {
      WindowCountGrows(key, groups, i + 1, j + 1);
    }
    forall id | Heads(key, limit, groups, i, id) ensures Heads(key, limit, groups, |groups|, id) {
      var j :| 0 <= j < i && groups[j].jobID == id && HeadsRecentWindow(key, limit, groups, j);
    }
  }

  predicate AllZero(p: Policy) {
    p.keepLast == 0 && p.keepDaily == 0 && p.keepWeekly == 0 && p.keepMonthly == 0
  }

  predicate Retained(groups: seq<JobGroup>, p: Policy, cal: Calendar, i: nat)
    requires i < |groups|
  {
    || i < p.keepLast
    || HeadsRecentWindow(cal.day, p.keepDaily, groups, i)
    || HeadsRecentWindow(cal.week, p.keepWeekly, groups, i)
    || HeadsRecentWindow(cal.month, p.keepMonthly, groups, i)
  }

  /** The job of some retained group. */
  ghost predicate KeepsJob(groups: seq<JobGroup>, p: Policy, cal: Calendar, id: string) {
    AllZero(p) || exists i :: 0 <= i < |groups| && groups[i].jobID == id && Retained(groups, p, cal, i)
  }

  function InSet(ids: set<string>): JobGroup -> bool {
    (g: JobGroup) => g.jobID in ids
  }

  function OutOfSet(ids: set<string>): JobGroup -> bool {
    (g: JobGroup) => g.jobID !in ids
  }

  /** The list split by membership of the job in ids, each part in the list's order. */
  ghost predicate IsSplit(groups: seq<JobGroup>, ids: set<string>, keep: seq<JobGroup>, remove: seq<JobGroup>) {
    keep == Where(groups, InSet(ids)) && remove == Where(groups, OutOfSet(ids))
  }

  ghost predicate IsRetention(groups: seq<JobGroup>, p: Policy, cal: Calendar, keep: seq<JobGroup>,
                              remove: seq<JobGroup>) {
    exists ids: set<string> ::
      (IsSplit(groups, ids, keep, remove) && forall g :: g in groups ==>
        (g.jobID in ids <==> KeepsJob(groups, p, cal, g.jobID)))
  }

  function JobIDs(groups: seq<JobGroup>): set<string> {
    set g | g in groups :: g.jobID
  }

  method KeepNewest(groups: seq<JobGroup>, n: int) returns (r: set<string>)
    ensures forall id :: id in r <==> exists i :: 0 <= i < |groups| && i < n && groups[i].jobID == id
  {
    r := {};
    for i := 0 to |groups|
      invariant forall id :: id in r <==> exists j :: 0 <= j < i && j < n && groups[j].jobID == id
    {
      if i >= n { break; }
      r := r + {groups[i].jobID};
    }
  }

  method ApplyGroupRetention(groups: seq<JobGroup>, p: Policy, cal: Calendar)
    returns (keep: seq<JobGroup>, remove: seq<JobGroup>)
    ensures IsRetention(groups, p, cal, keep, remove)
  {
    if AllZero(p) {
      KeepEverything(groups, p, cal);
      return groups, [];
    }
    var ids := KeepNewest(groups, p.keepLast);
    ids := KeepWindows(groups, cal.day, p.keepDaily, ids);
    ids := KeepWindows(groups, cal.week, p.keepWeekly, ids);
    ids := KeepWindows(groups, cal.month, p.keepMonthly, ids);
    keep, remove := SplitByJob(groups, ids);
    forall id ensures id in ids <==> KeepsJob(groups, p, cal, id) {
      if KeepsJob(groups, p, cal, id) {
        var i :| 0 <= i < |groups| && groups[i].jobID == id && Retained(groups, p, cal, i);
      }
    }
  }

  lemma KeepEverything(groups: seq<JobGroup>, p: Policy, cal: Calendar)
    requires AllZero(p)
    ensures IsRetention(groups, p, cal, groups, [])
  {
    var ids := JobIDs(groups);
    WhereAll(groups, InSet(ids), OutOfSet(ids));
    assert IsSplit(groups, ids, groups, []);
  }

  method SplitByJob(groups: seq<JobGroup>, ids: set<string>) returns (keep: seq<JobGroup>, remove: seq<JobGroup>)
    ensures IsSplit(groups, ids, keep, remove)
  {
    keep, remove := [], [];
    for i := 0 to |groups|
      invariant IsSplit(groups[..i], ids, keep, remove)
    {
      assert groups[..i + 1] == groups[..i] + [groups[i]];
      WhereSnoc(groups[..i], groups[i], InSet(ids));
      WhereSnoc(groups[..i], groups[i], OutOfSet(ids));
      if groups[i].jobID in ids {
        keep := keep + [groups[i]];
      } else {
        remove := remove + [groups[i]];
      }
    }
    assert groups[..|groups|] == groups;
  }

  // ----- what retention keeps -----

  /** Every window is an unbroken stretch of time, and its name is never empty. */
  ghost predicate IsWindowing(key: int -> string) {
    && (forall t :: key(t) != "")
    && (forall t, v {:trigger Unbroken(key, t, v)} :: key(t) == key(v) ==> Unbroken(key, t, v))
  }

  ghost predicate Unbroken(key: int -> string, t: int, v: int) {
    forall u :: t >= u >= v ==> key(u) == key(t)
  }

  ghost predicate IsCalendar(cal: Calendar) {
    IsWindowing(cal.day) && IsWindowing(cal.week) && IsWindowing(cal.month)
  }

  /** The windows the first n groups fall into. */
  function Windows(key: int -> string, groups: seq<JobGroup>, n: nat): set<string>
    requires n <= |groups|
  {
    if n == 0 then {} else Windows(key, groups, n - 1) + {key(groups[n - 1].time)}
  }

  lemma {:induction false} WindowsOf(key: int -> string, groups: seq<JobGroup>, n: nat, k: string)
    requires n <= |groups|
    ensures k in Windows(key, groups, n) <==> exists i :: 0 <= i < n && key(groups[i].time) == k
  {
    if n > 0 { WindowsOf(key, groups, n - 1, k); }
  }

  /** The newest group of its window, and that window is among the newest `limit` windows that
      have a group. */
  ghost predicate NewestOfRecent(key: int -> string, limit: int, groups: seq<JobGroup>, i: nat)
    requires i < |groups|
  {
    (forall j :: 0 <= j < i ==> key(groups[j].time) != key(groups[i].time)) && |Windows(key, groups, i + 1)| <= limit
  }

  lemma OneMore(a: set<string>, x: string)
    ensures |a + {x}| == |a| + if x in a then 0 else 1
  {
    if x in a { assert a + {x} == a; }
  }

  lemma SameWindowBetween(key: int -> string, t: int, u: int, v: int)
    requires IsWindowing(key) && t >= u >= v && key(t) == key(v)
    ensures key(u) == key(v)
  {
    assert Unbroken(key, t, v);
  }

  lemma StartHasNoNewer(key: int -> string, groups: seq<JobGroup>, n: nat, j: nat)
    requires IsWindowing(key) && NewestFirst(groups) && j < n < |groups| &&
             key(groups[n - 1].time) != key(groups[n].time)
    ensures key(groups[j].time) != key(groups[n].time)
  {
    if key(groups[j].time) == key(groups[n].time) && j < n - 1 {
      SameWindowBetween(key, groups[j].time, groups[n - 1].time, groups[n].time);
    }
  }

  /** A window that starts at group n has no newer group. */
  lemma StartIsNew(key: int -> string, groups: seq<JobGroup>, n: nat)
    requires IsWindowing(key) && NewestFirst(groups) && n < |groups|
    ensures StartsWindow(key, groups, n) <==> key(groups[n].time) !in Windows(key, groups, n)
  {
    var k := key(groups[n].time);
    WindowsOf(key, groups, n, k);
    if n > 0 && key(groups[n - 1].time) != k {
      forall j | 0 <= j < n ensures key(groups[j].time) != k {
        StartHasNoNewer(key, groups, n, j);
      }
    }
  }

  ghost predicate StartsAreNew(key: int -> string, groups: seq<JobGroup>, n: nat)
    requires n <= |groups|
  {
    forall i :: 0 <= i < n ==> (StartsWindow(key, groups, i) <==> key(groups[i].time) !in Windows(key, groups, i))
  }

  lemma OneMoreWindow(key: int -> string, groups: seq<JobGroup>, m: nat)
    requires m < |groups| && (StartsWindow(key, groups, m) <==> key(groups[m].time) !in Windows(key, groups, m))
    requires WindowCount(key, groups, m) == |Windows(key, groups, m)|
    ensures WindowCount(key, groups, m + 1) == |Windows(key, groups, m + 1)|
  {
    OneMore(Windows(key, groups, m), key(groups[m].time));
  }

  lemma {:induction false} StartsAreCounted(key: int -> string, groups: seq<JobGroup>, n: nat)
    requires n <= |groups| && StartsAreNew(key, groups, n)
    ensures WindowCount(key, groups, n) == |Windows(key, groups, n)|
  {
    if n > 0 {
      StartsAreCounted(key, groups, n - 1);
      OneMoreWindow(key, groups, n - 1);
    }
  }

  lemma StartsAreAllNew(key: int -> string, groups: seq<JobGroup>, n: nat)
    requires IsWindowing(key) && NewestFirst(groups) && n <= |groups|
    ensures StartsAreNew(key, groups, n)
  {
    forall j | 0 <= j < n ensures StartsWindow(key, groups, j) <==> key(groups[j].time) !in Windows(key, groups, j) {
      StartIsNew(key, groups, j);
    }
  }

  lemma HeadsAreNewest(key: int -> string, limit: int, groups: seq<JobGroup>, i: nat)
    requires IsWindowing(key) && NewestFirst(groups) && i < |groups|
    ensures HeadsRecentWindow(key, limit, groups, i) <==> NewestOfRecent(key, limit, groups, i)
  {
    StartsAreAllNew(key, groups, i + 1);
    StartsAreCounted(key, groups, i + 1);
    StartIsNew(key, groups, i);
    WindowsOf(key, groups, i, key(groups[i].time));
  }

  lemma RetainedByIndex(groups: seq<JobGroup>, p: Policy, cal: Calendar, i: nat)
    requires DistinctJobs(groups) && i < |groups|
    ensures KeepsJob(groups, p, cal, groups[i].jobID) <==> AllZero(p) || Retained(groups, p, cal, i)
  {
    if !AllZero(p) && KeepsJob(groups, p, cal, groups[i].jobID) {
      var j :| 0 <= j < |groups| && groups[j].jobID == groups[i].jobID && Retained(groups, p, cal, j);
      assert i == j;
    }
  }

  /** A group is kept exactly when it is among the last N or is the newest of one of the newest
      D days, W weeks or M months; with no count set, always. */
  lemma KeepsExactly(groups: seq<JobGroup>, p: Policy, cal: Calendar, keep: seq<JobGroup>, remove: seq<JobGroup>)
    requires IsRetention(groups, p, cal, keep, remove)
    requires IsCalendar(cal) && NewestFirst(groups) && DistinctJobs(groups)
    ensures forall i :: 0 <= i < |groups| ==>
              (groups[i] in keep <==>
                 || AllZero(p) || i < p.keepLast
                 || NewestOfRecent(cal.day, p.keepDaily, groups, i)
                 || NewestOfRecent(cal.week, p.keepWeekly, groups, i)
                 || NewestOfRecent(cal.month, p.keepMonthly, groups, i))
    ensures forall g :: g in groups ==> (g in remove <==> g !in keep)
  {
    var ids: set<string> :| IsSplit(groups, ids, keep, remove) && forall g :: g in groups ==>
      (g.jobID in ids <==> KeepsJob(groups, p, cal, g.jobID));
    forall i | 0 <= i < |groups|
      ensures groups[i] in keep <==>
                || AllZero(p) || i < p.keepLast
                || NewestOfRecent(cal.day, p.keepDaily, groups, i)
                || NewestOfRecent(cal.week, p.keepWeekly, groups, i)
                || NewestOfRecent(cal.month, p.keepMonthly, groups, i)
    {
      assert groups[i] in groups;
      WhereIn(groups, InSet(ids), groups[i]);
      KeptByIndex(groups, p, cal, i);
    }
    forall g | g in groups ensures g in remove <==> g !in keep {
      WhereIn(groups, InSet(ids), g);
      WhereIn(groups, OutOfSet(ids), g);
    }
  }

  lemma KeptByIndex(groups: seq<JobGroup>, p: Policy, cal: Calendar, i: nat)
    requires IsCalendar(cal) && NewestFirst(groups) && DistinctJobs(groups) && i < |groups|
    ensures KeepsJob(groups, p, cal, groups[i].jobID) <==>
              || AllZero(p) || i < p.keepLast
              || NewestOfRecent(cal.day, p.keepDaily, groups, i)
              || NewestOfRecent(cal.week, p.keepWeekly, groups, i)
              || NewestOfRecent(cal.month, p.keepMonthly, groups, i)
  {
    RetainedByIndex(groups, p, cal, i);
    HeadsAreNewest(cal.day, p.keepDaily, groups, i);
    HeadsAreNewest(cal.week, p.keepWeekly, groups, i);
    HeadsAreNewest(cal.month, p.keepMonthly, groups, i);
  }

  /** Keeping and removing partition the list. */
  lemma SplitConserves(groups: seq<JobGroup>, p: Policy, cal: Calendar, keep: seq<JobGroup>, remove: seq<JobGroup>)
    requires IsRetention(groups, p, cal, keep, remove)
    ensures multiset(keep) + multiset(remove) == multiset(groups)
  {
    var ids: set<string> :| IsSplit(groups, ids, keep, remove) && forall g :: g in groups ==>
      (g.jobID in ids <==> KeepsJob(groups, p, cal, g.jobID));
    forall g ensures multiset(keep)[g] + multiset(remove)[g] == multiset(groups)[g] {
      WhereCounts(groups, InSet(ids), g);
      WhereCounts(groups, OutOfSet(ids), g);
    }
  }

  ghost predicate AtLeast(p: Policy, q: Policy) {
    p.keepLast >= q.keepLast && p.keepDaily >= q.keepDaily && p.keepWeekly >= q.keepWeekly &&
      p.keepMonthly >= q.keepMonthly
  }

  lemma RaisingKeepsJob(groups: seq<JobGroup>, p: Policy, q: Policy, cal: Calendar, id: string)
    requires AtLeast(p, q) && !AllZero(q) && KeepsJob(groups, q, cal, id)
    ensures KeepsJob(groups, p, cal, id)
  {
    var i :| 0 <= i < |groups| && groups[i].jobID == id && Retained(groups, q, cal, i);
    assert Retained(groups, p, cal, i);
  }

  /** Raising counts, unless they start at all zeros, keeps all that was kept and removes nothing
      that was not removed, copy for copy. */
  lemma RaisingKeepsMore(groups: seq<JobGroup>, p: Policy, q: Policy, cal: Calendar,
                         keepP: seq<JobGroup>, removeP: seq<JobGroup>, keepQ: seq<JobGroup>, removeQ: seq<JobGroup>)
    requires AtLeast(p, q) && !AllZero(q)
    requires IsRetention(groups, p, cal, keepP, removeP) && IsRetention(groups, q, cal, keepQ, removeQ)
    ensures multiset(keepQ) <= multiset(keepP) && multiset(removeP) <= multiset(removeQ)
  {
    var ids: set<string> :| IsSplit(groups, ids, keepP, removeP) &&
      forall g :: g in groups ==> (g.jobID in ids <==> KeepsJob(groups, p, cal, g.jobID));
    var was: set<string> :| IsSplit(groups, was, keepQ, removeQ) &&
      forall g :: g in groups ==> (g.jobID in was <==> KeepsJob(groups, q, cal, g.jobID));
    forall g | g in groups && g.jobID in was ensures g.jobID in ids {
      RaisingKeepsJob(groups, p, q, cal, g.jobID);
    }
    WhereGrows(groups, InSet(was), InSet(ids));
    WhereGrows(groups, OutOfSet(ids), OutOfSet(was));
  }

  /** From all zeros, which keep everything, raising one count does drop groups. */
  lemma RaisingFromZeroDrops(cal: Calendar) returns (groups: seq<JobGroup>, p: Policy, q: Policy)
    requires IsCalendar(cal)
    ensures AllZero(q) && AtLeast(p, q) && NewestFirst(groups) && DistinctJobs(groups)
    ensures KeepsJob(groups, q, cal, "older") && !KeepsJob(groups, p, cal, "older")
  {
    groups := [JobGroup("newer", 1, []), JobGroup("older", 0, [])];
    p, q := Policy(1, 0, 0, 0), Policy(0, 0, 0, 0);
    assert WindowCount(cal.day, groups, 1) == 1 && WindowCount(cal.week, groups, 1) == 1 &&
      WindowCount(cal.month, groups, 1) == 1;
    WindowCountGrows(cal.day, groups, 1, 2);
    WindowCountGrows(cal.week, groups, 1, 2);
    WindowCountGrows(cal.month, groups, 1, 2);
  }

  function Cap(n: int): nat {
    if n < 0 then 0 else n
  }

  function HeadJobs(key: int -> string, limit: int, groups: seq<JobGroup>, n: nat): (r: set<string>)
    requires n <= |groups|
    ensures |r| <= Cap(limit) && |r| <= WindowCount(key, groups, n)
    ensures forall i :: 0 <= i < n && HeadsRecentWindow(key, limit, groups, i) ==> groups[i].jobID in r
  {
    if n == 0 then {}
    else
      HeadJobs(key, limit, groups, n - 1)
        + if HeadsRecentWindow(key, limit, groups, n - 1) then {groups[n - 1].jobID} else {}
  }

  function NewestJobs(groups: seq<JobGroup>, n: nat): (r: set<string>)
    requires n <= |groups|
    ensures |r| <= n && forall i :: 0 <= i < n ==> groups[i].jobID in r
  {
    if n == 0 then {} else NewestJobs(groups, n - 1) + {groups[n - 1].jobID}
  }

  lemma {:induction false} DistinctCount(groups: seq<JobGroup>, ids: set<string>)
    requires DistinctJobs(groups) && forall g :: g in groups ==> g.jobID in ids
    ensures |groups| <= |ids|
  {
    if groups != [] {
      var init, last := groups[..|groups| - 1], groups[|groups| - 1];
      assert forall g :: g in init ==> g in groups && g.jobID != last.jobID;
      DistinctCount(init, ids - {last.jobID});
    }
  }

  lemma {:induction false} WhereDistinct(groups: seq<JobGroup>, p: JobGroup -> bool)
    requires DistinctJobs(groups)
    ensures DistinctJobs(Where(groups, p))
  {
    if groups != [] {
      var init, last := groups[..|groups| - 1], groups[|groups| - 1];
      assert groups == init + [last];
      WhereDistinct(init, p);
      forall i | 0 <= i < |Where(init, p)| ensures Where(init, p)[i].jobID != last.jobID {
        WhereIn(init, p, Where(init, p)[i]);
      }
    }
  }

  /** No more than N + D + W + M groups are kept. */
  lemma KeepIsBounded(groups: seq<JobGroup>, p: Policy, cal: Calendar, keep: seq<JobGroup>, remove: seq<JobGroup>)
    requires IsRetention(groups, p, cal, keep, remove) && DistinctJobs(groups) && !AllZero(p)
    ensures |keep| <= Cap(p.keepLast) + Cap(p.keepDaily) + Cap(p.keepWeekly) + Cap(p.keepMonthly)
  {
    var ids: set<string> :| IsSplit(groups, ids, keep, remove) && forall g :: g in groups ==>
      (g.jobID in ids <==> KeepsJob(groups, p, cal, g.jobID));
    var newest := NewestJobs(groups, if Cap(p.keepLast) < |groups| then Cap(p.keepLast) else |groups|);
    var days := HeadJobs(cal.day, p.keepDaily, groups, |groups|);
    var weeks := HeadJobs(cal.week, p.keepWeekly, groups, |groups|);
    var months := HeadJobs(cal.month, p.keepMonthly, groups, |groups|);
    forall g | g in keep ensures g.jobID in newest + days + weeks + months {
      WhereIn(groups, InSet(ids), g);
      var i :| 0 <= i < |groups| && groups[i].jobID == g.jobID && Retained(groups, p, cal, i);
    }
    WhereDistinct(groups, InSet(ids));
    DistinctCount(keep, newest + days + weeks + months);
  }

  /** UTC days are windows. */
  lemma DaysAreWindows()
    ensures IsWindowing(t => PrintInt(t / 86400))
  {
    forall t: int, u: int, v: int | t >= u >= v && PrintInt(t / 86400) == PrintInt(v / 86400)
      ensures PrintInt(u / 86400) == PrintInt(t / 86400)
    {
      PrintIntInjective(t / 86400, v / 86400);
    }
  }

  // ----- forgetting -----

  function Flatten(groups: seq<JobGroup>): seq<Snapshot> {
    if groups == [] then [] else Flatten(groups[..|groups| - 1]) + groups[|groups| - 1].snapshots
  }

  lemma FlattenSnoc(groups: seq<JobGroup>, g: JobGroup)
    ensures Flatten(groups + [g]) == Flatten(groups) + g.snapshots
  {
    assert (groups + [g])[..|groups|] == groups;
  }

  lemma HasJobSnoc(groups: seq<JobGroup>, g: JobGroup, id: string)
    ensures HasJob(groups + [g], id) <==> HasJob(groups, id) || g.jobID == id
  {
    var all := groups + [g];
    assert all[|groups|] == g;
    assert forall i :: 0 <= i < |groups| ==> all[i] == groups[i];
  }

  lemma {:induction false} FlattenCounts(snapshots: seq<Snapshot>, groups: seq<JobGroup>, s: Snapshot)
    requires DistinctJobs(groups) && forall i :: 0 <= i < |groups| ==> IsGroup(snapshots, groups[i])
    ensures multiset(Flatten(groups))[s] == if HasJob(groups, JobOf(s)) then multiset(snapshots)[s] else 0
  {
    if groups != [] {
      var init, last := groups[..|groups| - 1], groups[|groups| - 1];
      assert groups == init + [last];
      FlattenCounts(snapshots, init, s);
      WhereCounts(snapshots, OfJob(last.jobID), s);
      HasJobSnoc(init, last, JobOf(s));
    }
  }

  /** Grouping loses and invents no snapshot. */
  lemma GroupingConserves(snapshots: seq<Snapshot>, groups: seq<JobGroup>)
    requires IsGrouping(snapshots, groups)
    ensures multiset(Flatten(groups)) == multiset(snapshots)
  {
    forall s ensures multiset(Flatten(groups))[s] == multiset(snapshots)[s] {
      FlattenCounts(snapshots, groups, s);
    }
  }

  /** How often a snapshot occurs in the groups. */
  function Occurrences(groups: seq<JobGroup>, s: Snapshot): nat {
    multiset(Flatten(groups))[s]
  }

  lemma OccurrencesSnoc(groups: seq<JobGroup>, g: JobGroup, s: Snapshot)
    ensures Occurrences(groups + [g], s) == Occurrences(groups, s) + multiset(g.snapshots)[s]
  {
    FlattenSnoc(groups, g);
  }

  lemma SplitStep(init: seq<JobGroup>, last: JobGroup, k: seq<JobGroup>, r: seq<JobGroup>,
                  keep: seq<JobGroup>, remove: seq<JobGroup>, s: Snapshot)
    requires Occurrences(init, s) == Occurrences(k, s) + Occurrences(r, s)
    requires (keep == k + [last] && remove == r) || (keep == k && remove == r + [last])
    ensures Occurrences(init + [last], s) == Occurrences(keep, s) + Occurrences(remove, s)
  {
    OccurrencesSnoc(init, last, s);
    OccurrencesSnoc(k, last, s);
    OccurrencesSnoc(r, last, s);
  }

  lemma SplitSnoc(init: seq<JobGroup>, last: JobGroup, ids: set<string>)
    ensures var k, r := Where(init, InSet(ids)), Where(init, OutOfSet(ids));
            var keep, remove := Where(init + [last], InSet(ids)), Where(init + [last], OutOfSet(ids));
            (keep == k + [last] && remove == r) || (keep == k && remove == r + [last])
  {
    WhereSnoc(init, last, InSet(ids));
    WhereSnoc(init, last, OutOfSet(ids));
    var k, r := Where(init, InSet(ids)), Where(init, OutOfSet(ids));
    assert k + [] == k && r + [] == r;
  }

  lemma {:induction false} SplitOccurrences(groups: seq<JobGroup>, ids: set<string>, s: Snapshot)
    ensures Occurrences(groups, s) ==
            Occurrences(Where(groups, InSet(ids)), s) + Occurrences(Where(groups, OutOfSet(ids)), s)
  {
    if groups != [] {
      var init, last := groups[..|groups| - 1], groups[|groups| - 1];
      SplitOccurrences(init, ids, s);
      assert init + [last] == groups;
      SplitSnoc(init, last, ids);
      SplitStep(init, last, Where(init, InSet(ids)), Where(init, OutOfSet(ids)),
                Where(groups, InSet(ids)), Where(groups, OutOfSet(ids)), s);
    }
  }

  lemma SplitFlattens(groups: seq<JobGroup>, ids: set<string>, keep: seq<JobGroup>, remove: seq<JobGroup>)
    requires IsSplit(groups, ids, keep, remove)
    ensures multiset(Flatten(keep)) + multiset(Flatten(remove)) == multiset(Flatten(groups))
  {
    forall s ensures multiset(Flatten(groups))[s] == multiset(Flatten(keep))[s] + multiset(Flatten(remove))[s] {
      SplitOccurrences(groups, ids, s);
    }
  }

  /** What is kept and what is removed are the listed snapshots, each once. */
  lemma RetentionCountsEverySnapshotOnce(snapshots: seq<Snapshot>, groups: seq<JobGroup>, p: Policy, cal: Calendar,
                                         keep: seq<JobGroup>, remove: seq<JobGroup>)
    requires IsGrouping(snapshots, groups) && IsRetention(groups, p, cal, keep, remove)
    ensures multiset(Flatten(keep)) + multiset(Flatten(remove)) == multiset(snapshots)
    ensures |Flatten(keep)| + |Flatten(remove)| == |snapshots|
  {
    GroupingConserves(snapshots, groups);
    var ids: set<string> :| IsSplit(groups, ids, keep, remove) && forall g :: g in groups ==>
      (g.jobID in ids <==> KeepsJob(groups, p, cal, g.jobID));
    SplitFlattens(groups, ids, keep, remove);
    assert |multiset(Flatten(keep)) + multiset(Flatten(remove))| == |multiset(snapshots)|;
  }

  /** A snapshot id names one snapshot. */
  ghost predicate IDsIdentify(s: seq<Snapshot>, t: seq<Snapshot>) {
    forall x, y :: x in s && y in t && x.id == y.id ==> x == y
  }

  function NotID(id: string): Snapshot -> bool {
    (s: Snapshot) => s.id != id
  }

  /** What is left of a list once some snapshots are gone. */
  ghost predicate IsLeft(before: seq<Snapshot>, gone: seq<Snapshot>, now: seq<Snapshot>) {
    forall s :: s in now <==> s in before && s !in gone
  }

  lemma ForgottenIsLeft(before: seq<Snapshot>, t: Snapshot)
    requires forall s :: s in before && s.id == t.id ==> s == t
    ensures IsLeft(before, [t], Where(before, NotID(t.id)))
  {
    forall s ensures s in Where(before, NotID(t.id)) <==> s in before && s !in [t] {
      WhereIn(before, NotID(t.id), s);
    }
  }

  lemma ForgetStep(start: seq<Snapshot>, targets: seq<Snapshot>, i: nat, before: seq<Snapshot>)
    requires i < |targets| && IDsIdentify(start, targets) && IsLeft(start, targets[..i], before)
    ensures IsLeft(start, targets[..i + 1], Where(before, NotID(targets[i].id)))
  {
    assert targets[i] in targets;
    ForgottenIsLeft(before, targets[i]);
    LeftThen(start, targets[..i], before, [targets[i]], Where(before, NotID(targets[i].id)));
    assert targets[..i + 1] == targets[..i] + [targets[i]];
  }

  class Repository {
    const fate: nat -> Fate
    var calls: nat
    var stored: seq<Snapshot>

    constructor (fate: nat -> Fate, stored: seq<Snapshot>)
      ensures this.fate == fate && this.stored == stored && calls == 0
    {
      this.fate, this.stored, calls := fate, stored, 0;
    }

    ghost predicate AllDone(from: nat, to: nat) {
      forall n :: from <= n < to ==> fate(n) == Done
    }

    lemma AllDoneFrom(from: nat, to: nat)
      requires from < to && fate(from) == Done
      ensures AllDone(from, to) <==> AllDone(from + 1, to)
    {}

    method Call() returns (f: Fate)
      modifies this`calls
      ensures calls == old(calls) + 1 && f == fate(old(calls))
    {
      f := fate(calls);
      calls := calls + 1;
    }

    method Snapshots(matches: Snapshot -> bool) returns (r: Option<seq<Snapshot>>)
      modifies this`calls
      ensures calls == old(calls) + 1
      ensures r == if fate(old(calls)) == Done then Some(Where(stored, matches)) else None
    {
      var f := Call();
      r := if f == Done then Some(Where(stored, matches)) else None;
    }

    method ForgetSnapshot(id: string) returns (ok: bool)
      modifies this`calls, this`stored
      ensures calls == old(calls) + 1 && ok == (fate(old(calls)) == Done)
      ensures stored == if fate(old(calls)) == Failed then old(stored) else Where(old(stored), NotID(id))
    {
      var f := Call();
      if f != Failed { stored := Where(stored, NotID(id)); }
      ok := f == Done;
    }

    /** Forget the snapshots of one group, stopping at the first error. */
    method ForgetAll(targets: seq<Snapshot>) returns (removed: nat, ok: bool, ghost gone: nat)
      requires IDsIdentify(stored, targets)
      modifies this`calls, this`stored
      ensures removed <= gone <= |targets| && gone <= removed + 1
      ensures IsLeft(old(stored), targets[..gone], stored)
      ensures calls >= old(calls) && (ok <==> AllDone(old(calls), calls))
      ensures ok ==> removed == |targets|
    {
      removed, gone := 0, 0;
      for i := 0 to |targets|
        invariant removed == i == gone && calls >= old(calls) && AllDone(old(calls), calls)
        invariant IsLeft(old(stored), targets[..i], stored)
      {
        ghost var before := stored;
        var forgotten := ForgetSnapshot(targets[i].id);
        ForgetStep(old(stored), targets, i, before);
        if !forgotten {
          gone := if fate(calls - 1) == Failed then i else i + 1;
          return removed, false, gone;
        }
        removed, gone := removed + 1, i + 1;
      }
      ok := true;
    }

    static method CountSnapshots(groups: seq<JobGroup>) returns (n: nat)
      ensures n == |Flatten(groups)|
    {
      n := 0;
      for i := 0 to |groups|
        invariant n == |Flatten(groups[..i])|
      {
        assert groups[..i + 1] == groups[..i] + [groups[i]];
        FlattenSnoc(groups[..i], groups[i]);
        n := n + |groups[i].snapshots|;
      }
      assert groups[..|groups|] == groups;
    }

    method ForgetGroups(groups: seq<JobGroup>) returns (removed: nat, ok: bool, ghost gone: nat)
      requires IDsIdentify(stored, Flatten(groups))
      modifies this`calls, this`stored
      ensures removed <= gone <= |Flatten(groups)| && gone <= removed + 1
      ensures IsLeft(old(stored), Flatten(groups)[..gone], stored)
      ensures calls >= old(calls) && (ok <==> AllDone(old(calls), calls))
      ensures ok ==> removed == gone == |Flatten(groups)|
    {
      removed, gone := 0, 0;
      for i := 0 to |groups|
        invariant removed == gone == |Flatten(groups[..i])| && calls >= old(calls) && AllDone(old(calls), calls)
        invariant IsLeft(old(stored), Flatten(groups[..i]), stored)
      {
        ghost var before := stored;
        ghost var init := Flatten(groups[..i]);
        FlattenPrefix(groups, i);
        var n, forgotten;
        ghost var m;
        n, forgotten, m := ForgetAll(groups[i].snapshots);
        LeftThen(old(stored), init, before, groups[i].snapshots[..m], stored);
        removed, gone := removed + n, gone + m;
        assert Flatten(groups)[..gone] == init + groups[i].snapshots[..m];
        if !forgotten { return removed, false, gone; }
        assert groups[i].snapshots[..m] == groups[i].snapshots;
      }
      assert groups[..|groups|] == groups;
      assert Flatten(groups)[..gone] == Flatten(groups);
      ok := true;
    }

    /** Forget, and when something went and nothing failed prune the repository if asked to. */
    method ForgetAndPrune(groups: seq<JobGroup>, prune: bool) returns (removed: nat, ok: bool, ghost gone: nat)
      requires IDsIdentify(stored, Flatten(groups))
      modifies this`calls, this`stored
      ensures removed <= gone <= |Flatten(groups)| && gone <= removed + 1
      ensures IsLeft(old(stored), Flatten(groups)[..gone], stored)
      ensures calls >= old(calls) && (ok <==> AllDone(old(calls), calls))
      ensures ok ==> removed == gone == |Flatten(groups)|
    {
      removed, ok, gone := ForgetGroups(groups);
      if ok && prune && removed > 0 {
        var pruned := Call();
        ok := pruned == Done;
      }
    }

    /** Whatever fails, only snapshots of removed groups are gone; without a failure all of
        them are, and every listed snapshot is counted once. */
    method ForgetGrouped(matches: Snapshot -> bool, p: Policy, cal: Calendar, prune: bool)
      returns (keepCount: nat, removeCount: nat, ok: bool, ghost groups: seq<JobGroup>, ghost keep: seq<JobGroup>,
        ghost remove: seq<JobGroup>)
      requires IDsIdentify(stored, stored)
      modifies this`calls, this`stored
      ensures fate(old(calls)) != Done ==> !ok && keepCount == removeCount == 0 && stored == old(stored)
      ensures fate(old(calls)) == Done ==>
                && IsGrouping(Where(old(stored), matches), groups) && IsRetention(groups, p, cal, keep, remove)
                && keepCount == |Flatten(keep)|
                && (exists gone: nat :: gone <= |Flatten(remove)| && removeCount <= gone <= removeCount + 1
                                        && IsLeft(old(stored), Flatten(remove)[..gone], stored))
      ensures calls > old(calls) && (ok <==> AllDone(old(calls), calls))
      ensures ok ==>
                IsLeft(old(stored), Flatten(remove), stored) && keepCount + removeCount == |Where(old(stored), matches)|
    {
      groups, keep, remove := [], [], [];
      var listed := Snapshots(matches);
      if listed.None? { return 0, 0, false, groups, keep, remove; }
      var gs := GroupByJob(listed.value);
      var kept, dropped := ApplyGroupRetention(gs, p, cal);
      groups, keep, remove := gs, kept, dropped;
      RetentionCountsEverySnapshotOnce(listed.value, groups, p, cal, keep, remove);
      RemovedWereStored(stored, matches, keep, remove);
      keepCount := CountSnapshots(kept);
      ghost var gone;
      removeCount, ok, gone := ForgetAndPrune(dropped, prune);
      assert Flatten(remove)[..|Flatten(remove)|] == Flatten(remove);
      AllDoneFrom(old(calls), calls);
    }
  }

  lemma {:induction false} FlattenPrefix(groups: seq<JobGroup>, i: nat)
    requires i < |groups|
    ensures Flatten(groups[..i + 1]) == Flatten(groups[..i]) + groups[i].snapshots
    ensures Flatten(groups[..i + 1]) <= Flatten(groups)
    ensures forall s :: s in groups[i].snapshots ==> s in Flatten(groups)
    decreases |groups| - i
  {
    assert groups[..i + 1] == groups[..i] + [groups[i]];
    FlattenSnoc(groups[..i], groups[i]);
    if i + 1 < |groups| {
      FlattenPrefix(groups, i + 1);
    } else {
      assert groups[..i + 1] == groups;
    }
    forall s | s in groups[i].snapshots ensures s in Flatten(groups) {
      var part := Flatten(groups[..i]) + groups[i].snapshots;
      assert s in part;
      var n :| 0 <= n < |part| && part[n] == s;
      assert Flatten(groups)[n] == s;
    }
  }

  lemma RemovedWereStored(stored: seq<Snapshot>, matches: Snapshot -> bool, keep: seq<JobGroup>, remove: seq<JobGroup>)
    requires multiset(Flatten(keep)) + multiset(Flatten(remove)) == multiset(Where(stored, matches))
    requires IDsIdentify(stored, stored)
    ensures IDsIdentify(stored, Flatten(remove))
  {
    forall s | s in Flatten(remove) ensures s in stored {
      assert s in multiset(Flatten(keep)) + multiset(Flatten(remove));
      assert s in Where(stored, matches);
      WhereIn(stored, matches, s);
    }
  }

  lemma LeftThen(a: seq<Snapshot>, x: seq<Snapshot>, b: seq<Snapshot>, y: seq<Snapshot>, c: seq<Snapshot>)
    requires IsLeft(a, x, b) && IsLeft(b, y, c)
    ensures IsLeft(a, x + y, c)
  {}
}
