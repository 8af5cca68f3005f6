// Which verdict triage reaches, told from the readable instances alone: who is beaten by whom and
// who diverges from whom.
module Outcomes {
  import opened Options
  import opened Text
  import opened Lineage
  import opened Authority
  import opened Comparison
  import History

  /** Everything was read or proven empty, and of what was read nothing diverges. */
  ghost predicate Settled(insts: seq<Instance>, content: Option<Comparator>) {
    NoneUnread(insts) && NothingDiverges(insts, content)
  }

  /** The named primary was read and no readable instance strictly dominates it. */
  ghost predicate PrimaryUnbeaten(insts: seq<Instance>, content: Option<Comparator>, primaryName: string) {
    exists p: Instance :: p.pod == primaryName && Unbeaten(insts, content, p)
  }

  ghost predicate SomeoneUnbeaten(insts: seq<Instance>, content: Option<Comparator>) {
    exists x :: Unbeaten(insts, content, x)
  }

  /** The leader is named: pod is that of a preferred instance. */
  ghost predicate LedBy(insts: seq<Instance>, content: Option<Comparator>, pod: string) {
    exists x :: Preferred(insts, content, x) && x.pod == pod
  }

  lemma InputOfPod(data: seq<Collected>, primaryName: string, x: Instance)
    requires x in Inputs(data, primaryName)
    ensures x.isPrimary <==> x.pod == primaryName
    ensures NamedPods(data) ==> x.pod != ""
    ensures exists i :: 0 <= i < |data| && data[i].pod == x.pod
  {
    var i :| 0 <= i < |data| && Inputs(data, primaryName)[i] == x;
    assert data[i].pod == x.pod;
  }

  /** Preferred instances share one name, and one of them is the primary if that is unbeaten. */
  lemma LedByOne(data: seq<Collected>, primaryName: string, content: Option<Comparator>, p: string, q: string)
    requires LedBy(Inputs(data, primaryName), content, p)
    ensures LedBy(Inputs(data, primaryName), content, q) ==> p == q
    ensures p == primaryName <==> PrimaryUnbeaten(Inputs(data, primaryName), content, primaryName)
  {
    var insts := Inputs(data, primaryName);
    var x :| Preferred(insts, content, x) && x.pod == p;
    InputOfPod(data, primaryName, x);
    if y :| Preferred(insts, content, y) && y.pod == q {
      LexTrichotomy(x.pod, y.pod);
    }
    if y: Instance :| y.pod == primaryName && Unbeaten(insts, content, y) {
      InputOfPod(data, primaryName, y);
    }
  }

  /** Nothing is left unread: of every instance either a timeline was read, with its history when it is
      not the first one, or its data directory was seen empty or its volume missing. */
  lemma NoneUnreadIff(data: seq<Collected>, primaryName: string)
    ensures NoneUnread(Inputs(data, primaryName)) <==>
            forall i :: 0 <= i < |data| ==>
              var tl := TrimSpace(data[i].timeline);
              if tl == "" || tl == "unknown" then data[i].pgDataPresent == "empty" || data[i].pvcState == "MISSING"
              else History.ParseTimelineInt(tl) > 1 ==>
                     History.LineageOf(data[i].historyRaw, History.ParseTimelineInt(tl)) != []
  {
    var insts := Inputs(data, primaryName);
    forall x | x in insts && x.readState == Unread
      ensures exists i :: 0 <= i < |data| && InputFor(data[i], primaryName).readState == Unread
    {
      var i :| 0 <= i < |insts| && insts[i] == x;
      assert insts[i] == InputFor(data[i], primaryName);
    }
    forall i | 0 <= i < |data| && InputFor(data[i], primaryName).readState == Unread ensures !NoneUnread(insts) {
      assert insts[i] in insts;
    }
  }

  /** A decision over the collected instances names a leader exactly when they are settled and
      someone is unbeaten. */
  lemma LeaderNamedIff(data: seq<Collected>, primaryName: string, content: Option<Comparator>, d: Decision)
    requires IsVerdict(Inputs(data, primaryName), content, d) && Symmetric(content) && NamedPods(data)
    ensures d.determinable && !d.diverged && d.leader != "" <==>
              Settled(Inputs(data, primaryName), content) && SomeoneUnbeaten(Inputs(data, primaryName), content)
    ensures d.determinable && !d.diverged && d.leader != "" ==> LedBy(Inputs(data, primaryName), content, d.leader)
  {
    var insts := Inputs(data, primaryName);
    UnreadOfHasNoSentinel(insts);
    DivergedIff(insts, content, d);
    if Settled(insts, content) && ReadableOf(insts) != [] {
      LeaderIff(insts, content, d);
      if d.determinable {
        var x :| Preferred(insts, content, x) && d.leader == x.pod;
        InputOfPod(data, primaryName, x);
      }
    } else if x :| Unbeaten(insts, content, x) {
      assert x in ReadableOf(insts);
    }
  }

  /** The whole verdict. Healing from the primary is safe exactly when it was read, nothing was
      left unread, nothing diverges and no readable instance dominates it. */
  lemma OutcomeIff(data: seq<Collected>, primaryName: string, content: Option<Comparator>, c: DataComparison)
    requires IsComparison(data, primaryName, content, c) && Symmetric(content) && NamedPods(data)
    ensures var insts := Inputs(data, primaryName);
            && (c.authority == Provable <==>
                  Settled(insts, content) && PrimaryUnbeaten(insts, content, primaryName))
            && (c.authority == LeaderNotPrimary <==>
                  && Settled(insts, content) && SomeoneUnbeaten(insts, content)
                  && !PrimaryUnbeaten(insts, content, primaryName))
            && (c.authority == Comparison.Diverged <==> NoneUnread(insts) && !NothingDiverges(insts, content))
            && (c.authority == Provable || c.authority == LeaderNotPrimary ==> LedBy(insts, content, c.mostAdvanced))
  {
    var insts := Inputs(data, primaryName);
    var d :| IsVerdict(insts, content, d) && c == Project(d, primaryName);
    DivergedIff(insts, content, d);
    LeaderNamedIff(data, primaryName, content, d);
    if d.determinable && !d.diverged && d.leader != "" {
      LedByOne(data, primaryName, content, d.leader, d.leader);
    }
    DivergedIsDetermined(insts, content, d);
  }

  lemma DivergedIsDetermined(insts: seq<Instance>, content: Option<Comparator>, d: Decision)
    requires IsVerdict(insts, content, d)
    ensures d.diverged ==> d.determinable && d.leader == ""
  {}
}
